// Which reservation calls reach the protocol: those normalisation lets through, from known shops and for
// registered warehouses.

module ReservationCalls {
  import opened Reservation
  import opened ReservationLocks
  import opened ReservationRequest
  import opened Wrappers
  import ShopIdentity
  import Sorting
  import Text

  // The shops and warehouses on record; every shop is bound to every warehouse.
  datatype Registry = Registry(shops: set<ShopIdentity.Shop>, places: set<Place>)

  predicate Normal(s: string) {
    s != "" && Text.Normalize(s) == s
  }

  // Records are kept in normal form.
  ghost predicate WellKept(reg: Registry) {
    && (forall shop :: shop in reg.shops ==> ShopIdentity.Identity(shop.platform, shop.code) == Some(shop))
    && (forall p :: p in reg.places ==> Normal(p.key) && Normal(p.code))
  }

  predicate KnownOrder(o: OrderId, reg: Registry) {
    ShopIdentity.Shop(o.platform, o.shop) in reg.shops && Trimmed(o.orderKey)
  }

  // Normalisation has returned this request, for a known shop and a registered warehouse.
  ghost predicate Receivable(r: Request, now: int, reg: Registry) {
    && ShopIdentity.Shop(r.order.platform, r.order.shop) in reg.shops
    && Place(r.warehouseKey, r.code) in reg.places
    && exists raw :: Acceptable(raw, now) && Normalized(raw, r)
  }

  // Stored reservations were made by such calls.
  ghost predicate KnownRow(k: Key, row: Row, reg: Registry) {
    KnownOrder(k.order, reg) && Place(row.warehouseKey, row.code) in reg.places && Trimmed(k.sku)
  }

  ghost predicate KnownRows(rows: Table, reg: Registry) {
    forall k :: ActiveAt(rows, k) ==> KnownRow(k, rows[k], reg)
  }

  // ---- What a received request looks like -------------------------------------------------

  lemma ReceivableSkus(r: Request, now: int, reg: Registry)
    requires Receivable(r, now, reg)
    ensures ValidRequest(r) && KnownOrder(r.order, reg)
    ensures forall j :: 0 <= j < |r.items| ==> ItemResource(r, j) in Nameable(CodesOf(reg.places))
  {
    hide Text.TrimSpace, Text.ToUpper, Text.Normalize, Requested, LeastObserved, SortedBySku, ShopIdentity.Identity;
    var raw :| Acceptable(raw, now) && Normalized(raw, r);
    NormalizedIsValid(raw, now, r);
    Text.TrimmedTwice(raw.order.orderKey);
    forall j | 0 <= j < |r.items| ensures Trimmed(r.items[j].sku) {
      assert Aggregates(raw.items, r.items[j]);
      var i :| 0 <= i < |raw.items| && Mentions(raw.items[i], r.items[j].sku);
      Text.TrimmedTwice(raw.items[i].sku);
    }
    assert Place(r.warehouseKey, r.code) in reg.places;
  }

  // ---- Calls for one unit of each of some SKUs --------------------------------------------

  function Call(o: OrderId, p: Place, skus: seq<string>, observed: int, now: int): Work {
    Reserve(Request(o, p.key, p.code, seq(|skus|, i requires 0 <= i < |skus| => Item(skus[i], 1, observed))), now)
  }

  ghost predicate CallableSkus(skus: seq<string>) {
    && 0 < |skus| <= MAX_ITEMS && Sorting.Ordered(skus, Text.Less)
    && forall i :: 0 <= i < |skus| ==> Trimmed(skus[i])
  }

  lemma {:induction false} RequestedOnce(raw: seq<RawItem>, sku: string, i: nat)
    requires i < |raw| && forall k :: 0 <= k < |raw| ==> (Mentions(raw[k], sku) <==> k == i)
    ensures Requested(raw, sku) == raw[i].quantity
  {
    hide Mentions;
    var n := |raw| - 1;
    if i == n {
      NotRequested(raw[..n], sku);
    } else {
      RequestedOnce(raw[..n], sku, i);
    }
  }

  function RawItems(skus: seq<string>, observed: int): (items: seq<RawItem>)
    ensures |items| == |skus|
  {
    seq(|skus|, i requires 0 <= i < |skus| => RawItem(skus[i], 1, observed))
  }

  lemma SkusDiffer(skus: seq<string>)
    requires CallableSkus(skus)
    ensures forall i, k :: 0 <= i < |skus| && 0 <= k < |skus| && skus[i] == skus[k] ==> i == k
  {
    hide Text.Less, Text.TrimSpace;
    LessIsStrict();
    assert forall i :: 0 <= i < |skus| ==> !Text.Less(skus[i], skus[i]);
  }

  // Each line is the aggregate of the one raw line for its SKU.
  lemma LineAggregates(skus: seq<string>, observed: int, i: nat)
    requires CallableSkus(skus) && i < |skus|
    ensures Aggregates(RawItems(skus, observed), Item(skus[i], 1, observed))
    ensures Mentions(RawItems(skus, observed)[i], skus[i])
  {
    hide Text.TrimSpace, Text.Less, Requested;
    var items := RawItems(skus, observed);
    SkusDiffer(skus);
    assert forall k :: 0 <= k < |items| ==> (Mentions(items[k], skus[i]) <==> k == i);
    RequestedOnce(items, skus[i], i);
    assert items[i].observed == observed;
  }

  lemma CallReceived(o: OrderId, p: Place, skus: seq<string>, observed: int, now: int, reg: Registry)
    requires WellKept(reg) && KnownOrder(o, reg) && p in reg.places && CallableSkus(skus) && 0 <= observed
    ensures Receivable(Call(o, p, skus, observed, now).request, now, reg)
  {
    hide Text.TrimSpace, Text.Normalize, Text.Less, Aggregates, Mentions, ShopIdentity.Identity;
    var r := Call(o, p, skus, observed, now).request;
    var raw := RawRequest(o, p.key, p.code, now, RawItems(skus, observed));
    assert Acceptable(raw, now);
    forall i, j | 0 <= i < j < |skus| ensures SkuBefore(r.items[i], r.items[j]) {
      assert Text.Less(skus[i], skus[j]);
    }
    forall item | item in r.items ensures Aggregates(raw.items, item) {
      var i :| 0 <= i < |r.items| && r.items[i] == item;
      LineAggregates(skus, observed, i);
    }
    forall i | 0 <= i < |raw.items| ensures exists j :: 0 <= j < |r.items| && Mentions(raw.items[i], r.items[j].sku) {
      LineAggregates(skus, observed, i);
      assert Mentions(raw.items[i], r.items[i].sku);
    }
    assert Normalized(raw, r);
  }

  // ---- Orders nobody has used -------------------------------------------------------------

  lemma {:induction false} LongerThanAll(names: set<string>) returns (n: nat)
    ensures forall name :: name in names ==> |name| < n
  {
    n := 0;
    if names != {} {
      var name :| name in names;
      var m := LongerThanAll(names - {name});
      n := if m > |name| then m else |name| + 1;
    }
  }

  lemma FreshOrder(rows: Table, names: set<string>, shop: ShopIdentity.Shop, reg: Registry) returns (o: OrderId)
    requires shop in reg.shops
    ensures KnownOrder(o, reg) && OrderLock(o) !in names && forall k :: k in rows ==> k.order != o
  {
    var taken := names + set k | k in rows :: OrderLock(k.order);
    var n := LongerThanAll(taken);
    o := OrderId(shop.platform, shop.code, seq(n + 1, _ => 'x'));
    assert |OrderLock(o)| >= n;
    Text.NothingToTrim(o.orderKey);
  }

  // ---- The registered warehouses ----------------------------------------------------------

  predicate PlainChar(c: char) {
    'A' <= c <= 'Z' || '0' <= c <= '9' || c == '_'
  }

  lemma PlainIsNormal(s: string)
    requires s != "" && forall i :: 0 <= i < |s| ==> PlainChar(s[i])
    ensures Normal(s)
  {
    assert !Text.IsSpace(s[0]) && !Text.IsSpace(s[|s| - 1]);
    Text.NothingToTrim(s);
    assert Text.ToUpper(s) == s;
  }

  lemma RegisteredNormal(p: Place)
    requires p in REGISTERED
    ensures Normal(p.key) && Normal(p.code)
  {
    hide Text.Normalize;
    PlainIsNormal(p.key);
    PlainIsNormal(p.code);
  }

  lemma RegisteredWellKept(reg: Registry)
    requires reg.places == REGISTERED
    requires forall shop :: shop in reg.shops ==> ShopIdentity.Identity(shop.platform, shop.code) == Some(shop)
    ensures WellKept(reg)
  {
    hide Normal, ShopIdentity.Identity;
    forall p | p in reg.places ensures Normal(p.key) && Normal(p.code) {
      RegisteredNormal(p);
    }
  }
}
