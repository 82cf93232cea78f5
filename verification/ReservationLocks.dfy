// Advisory lock names of the reservation protocol and the order they are taken in.

module ReservationLocks {
  import Text

  datatype OrderId = OrderId(platform: string, shop: string, orderKey: string)
  datatype Resource = Resource(code: string, sku: string)

  const ORDER_PREFIX := "fulfillment-inventory-order"
  const RESOURCE_PREFIX := "fulfillment-inventory-resource"

  function OrderLock(o: OrderId): string {
    ORDER_PREFIX + "|" + o.platform + "|" + o.shop + "|" + o.orderKey
  }

  function ResourceLock(r: Resource): string {
    RESOURCE_PREFIX + "|" + r.code + "|" + r.sku
  }

  // The text resources are keyed and sorted by.
  function ResourceKey(r: Resource): string {
    Text.Decimal(Text.ByteLength(r.code)) + ":" + r.code + ":" + r.sku
  }

  lemma LockKindsDiffer(o: OrderId, r: Resource)
    ensures OrderLock(o) != ResourceLock(r)
  {
    assert OrderLock(o)[22] == 'o' && ResourceLock(r)[22] == 'r';
  }

  // A numeral followed by a colon cannot be confused with another one.
  lemma NumeralPrefix(m: nat, s: string, n: nat, t: string)
    requires Text.Decimal(m) + ":" + s <= Text.Decimal(n) + ":" + t
    ensures m == n
  {
    hide Text.Decimal;
    var d, e := Text.Decimal(m), Text.Decimal(n);
    var u, v := d + ":" + s, e + ":" + t;
    assert u[|d|] == ':' && v[|e|] == ':';
    assert forall i :: 0 <= i < |d| ==> u[i] == d[i];
    assert forall i :: 0 <= i < |e| ==> v[i] == e[i];
    assert v[|d|] == ':';
    assert |e| <= |d|;
    assert u[|e|] == ':';
    assert d == v[..|d|] && e == v[..|e|];
    Text.DecimalInjective(m, n);
  }

  // Distinct resources have distinct keys, so keying the map by this text drops none of them.
  lemma ResourceKeyInjective(a: Resource, b: Resource)
    requires ResourceKey(a) == ResourceKey(b)
    ensures a == b
  {
    hide Text.Decimal, Text.ByteLength;
    var s, t := a.code + ":" + a.sku, b.code + ":" + b.sku;
    var d, e := Text.Decimal(Text.ByteLength(a.code)), Text.Decimal(Text.ByteLength(b.code));
    assert ResourceKey(a) == d + ":" + s && ResourceKey(b) == e + ":" + t;
    NumeralPrefix(Text.ByteLength(a.code), s, Text.ByteLength(b.code), t);
    assert s == ResourceKey(a)[|d| + 1..] && t == ResourceKey(b)[|d| + 1..];
    assert a.code == s[..|a.code|] && b.code == s[..|b.code|];
    if |a.code| < |b.code| {
      Text.LongerPrefix(a.code, b.code);
    } else if |b.code| < |a.code| {
      Text.LongerPrefix(b.code, a.code);
    }
    assert a.sku == s[|a.code| + 1..] && b.sku == t[|a.code| + 1..];
  }

  // ---- When lock names tell resources apart -----------------------------------------------

  ghost predicate Unambiguous(known: iset<Resource>) {
    forall a, b :: a in known && b in known && ResourceLock(a) == ResourceLock(b) ==> a == b
  }

  predicate Trimmed(s: string) {
    s != "" && Text.TrimSpace(s) == s
  }

  // The resources that calls for these warehouse codes can name: SKUs arrive trimmed.
  ghost function Nameable(codes: set<string>): iset<Resource> {
    iset r: Resource | r.code in codes && Trimmed(r.sku)
  }

  // The second code is the first one, the separator, and nothing or something a trimmed SKU can begin with.
  predicate Extends(c: string, d: string) {
    c + "|" <= d && (|d| == |c| + 1 || !Text.IsSpace(d[|c| + 1]))
  }

  ghost predicate Separable(codes: set<string>) {
    forall c, d :: c in codes && d in codes ==> !Extends(c, d)
  }

  lemma TrimmedEnds(s: string)
    requires Trimmed(s)
    ensures !Text.IsSpace(s[0])
  {
    Text.TrimmedTwice(s);
  }

  lemma LongerCodeExtends(c: string, x: string, d: string, y: string)
    requires c + "|" + x == d + "|" + y && |c| < |d|
    ensures c + "|" <= d && x != [] && (|d| == |c| + 1 || x[0] == d[|c| + 1])
  {
    var s := d + "|" + y;
    assert d == s[..|d|];
    assert c + "|" == s[..|c| + 1];
    assert x == s[|c| + 1..];
  }

  lemma SameLock(a: Resource, b: Resource)
    requires ResourceLock(a) == ResourceLock(b)
    ensures a.code + "|" + a.sku == b.code + "|" + b.sku
    ensures |a.code| == |b.code| ==> a == b
  {
    var s, t := a.code + "|" + a.sku, b.code + "|" + b.sku;
    assert s == ResourceLock(a)[|RESOURCE_PREFIX| + 1..] && t == ResourceLock(b)[|RESOURCE_PREFIX| + 1..];
    if |a.code| == |b.code| {
      assert a.code == s[..|a.code|] && b.code == s[..|a.code|];
      assert a.sku == s[|a.code| + 1..] && b.sku == s[|a.code| + 1..];
    }
  }

  lemma SeparableUnambiguous(codes: set<string>)
    requires Separable(codes)
    ensures Unambiguous(Nameable(codes))
  {
    hide ResourceLock, Trimmed;
    forall a, b | a in Nameable(codes) && b in Nameable(codes) && ResourceLock(a) == ResourceLock(b) ensures a == b {
      SameLock(a, b);
      TrimmedEnds(a.sku);
      TrimmedEnds(b.sku);
      if |a.code| < |b.code| {
        LongerCodeExtends(a.code, a.sku, b.code, b.sku);
      } else if |b.code| < |a.code| {
        LongerCodeExtends(b.code, b.sku, a.code, a.sku);
      }
    }
  }

  // Codes without the separator need no condition on the SKUs.
  lemma UnambiguousWithoutBar(codes: set<string>)
    requires forall c :: c in codes ==> '|' !in c
    ensures Separable(codes) && Unambiguous(iset r: Resource | r.code in codes)
  {
    hide ResourceLock;
    forall c, d | c in codes && d in codes ensures !(c + "|" <= d) {
      assert (c + "|")[|c|] == '|' && (|c| < |d| ==> d[|c|] != '|');
    }
    forall a: Resource, b: Resource | a.code in codes && b.code in codes && ResourceLock(a) == ResourceLock(b)
      ensures a == b
    {
      SameLock(a, b);
      if |a.code| < |b.code| {
        LongerCodeExtends(a.code, a.sku, b.code, b.sku);
      } else if |b.code| < |a.code| {
        LongerCodeExtends(b.code, b.sku, a.code, a.sku);
      }
    }
  }

  lemma {:induction false} LessExtended(u: string, v: string, w: string)
    requires Text.Less(u, v) && !(u <= v)
    ensures Text.Less(u + w, v)
  {
    if u[0] == v[0] {
      assert (u + w)[1..] == u[1..] + w;
      assert u == [u[0]] + u[1..] && v == [v[0]] + v[1..];
      LessExtended(u[1..], v[1..], w);
    }
  }

  lemma {:induction false} LessAppend(u: string, w: string)
    requires w != []
    ensures Text.Less(u, u + w)
  {
    assert u + [] == u;
    Text.LessAfterPrefix(u, [], w);
  }

  // Where one code extends another, the same two lock names are reached in both orders.
  lemma InvertedLocks(c: string, d: string) returns (a: Resource, b: Resource, e: Resource)
    requires Extends(c, d)
    ensures {a.code, b.code, e.code} <= {c, d} && b.code == a.code
    ensures Trimmed(a.sku) && Trimmed(b.sku) && Trimmed(e.sku) && Text.Less(a.sku, b.sku)
    ensures ResourceLock(a) == ResourceLock(e) && ResourceLock(a) != ResourceLock(b)
    ensures Text.Less(ResourceKey(a), ResourceKey(b)) && Text.Less(ResourceKey(b), ResourceKey(e))
  {
    hide Text.Decimal, Text.ByteLength, Text.Less, Text.TrimSpace;
    var x := d[|c| + 1..];
    assert d == c + "|" + x;
    var short, long := Resource(c, x + "|" + "S"), Resource(d, "S");
    assert ResourceLock(short) == ResourceLock(long);
    Text.LessTotal(ResourceKey(short), ResourceKey(long));
    if ResourceKey(short) == ResourceKey(long) {
      ResourceKeyInjective(short, long);
    }
    if Text.Less(ResourceKey(short), ResourceKey(long)) {
      a, e := short, long;
    } else {
      a, e := long, short;
    }
    b := Resource(a.code, a.sku + "A");
    Text.NothingToTrim(a.sku);
    Text.NothingToTrim(b.sku);
    Text.NothingToTrim(e.sku);
    LessAppend(a.sku, "A");
    assert ResourceLock(b) == ResourceLock(a) + "A";
    assert ResourceKey(b) == ResourceKey(a) + "A";
    LessAppend(ResourceKey(a), "A");
    if ResourceKey(a) <= ResourceKey(e) {
      PrefixSameCode(a, e);
    }
    LessExtended(ResourceKey(a), ResourceKey(e), "A");
  }

  lemma PrefixSameCode(a: Resource, e: Resource)
    requires ResourceKey(a) <= ResourceKey(e)
    ensures a.code == e.code
  {
    hide Text.Decimal, Text.ByteLength;
    var m, n := Text.ByteLength(a.code), Text.ByteLength(e.code);
    var s, t := a.code + ":" + a.sku, e.code + ":" + e.sku;
    assert ResourceKey(a) == Text.Decimal(m) + ":" + s && ResourceKey(e) == Text.Decimal(n) + ":" + t;
    NumeralPrefix(m, s, n, t);
    var skip := |Text.Decimal(m)| + 1;
    assert s == ResourceKey(a)[skip..] && t == ResourceKey(e)[skip..];
    assert s <= t;
    assert a.code == t[..|a.code|] && e.code == t[..|e.code|];
    if |a.code| < |e.code| {
      Text.LongerPrefix(a.code, e.code);
    } else if |e.code| < |a.code| {
      Text.LongerPrefix(e.code, a.code);
    }
  }

  // ---- The registered warehouses ----------------------------------------------------------

  datatype Place = Place(key: string, code: string)

  const REGISTERED := {Place("DPS002", "DPSNY002"), Place("ARP_EAST", "HYTX30"), Place("DPS004", "DPSCA004"),
                       Place("ARP_WEST", "ARPCA01"), Place("ARP_HOUSTON", "ARP06A"), Place("ARP_ATLANTA", "ARPGA")}

  function CodesOf(places: set<Place>): set<string> {
    set p | p in places :: p.code
  }

  lemma RegisteredUnambiguous()
    ensures Separable(CodesOf(REGISTERED))
    ensures Unambiguous(iset r: Resource | r.code in CodesOf(REGISTERED))
  {
    UnambiguousWithoutBar(CodesOf(REGISTERED));
  }
}
