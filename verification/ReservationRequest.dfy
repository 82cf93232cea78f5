// The loops around the protocol: normalising a request, collecting the resources to lock, and
// comparing the stored reservation with the requested one.

module ReservationRequest {
  import opened Reservation
  import opened ReservationLocks
  import ShopIdentity
  import Sorting
  import Text
  import opened Wrappers

  datatype RawItem = RawItem(sku: string, quantity: int, observed: int)
  datatype RawRequest = RawRequest(order: OrderId, warehouseKey: string, code: string, observedAt: int,
                                   items: seq<RawItem>)

  const OBSERVATION_MAX_AGE := 600
  const CLOCK_SKEW := 60
  const MAX_ITEMS := 100

  // ---- Sorting by SKU ---------------------------------------------------------------------

  predicate SkuBefore(a: Item, b: Item) {
    Text.Less(a.sku, b.sku)
  }

  ghost predicate SortedBySku(items: seq<Item>) {
    Sorting.Ordered(items, SkuBefore)
  }

  lemma SkuBeforeIsStrict()
    ensures Sorting.StrictOrder(SkuBefore)
  {
    hide Text.Less;
    LessIsStrict();
  }

  lemma LessIsStrict()
    ensures Sorting.StrictOrder(Text.Less)
  {
    hide Text.Less;
    forall a, b, c ensures !Text.Less(a, a) && (Text.Less(a, b) && Text.Less(b, c) ==> Text.Less(a, c)) {
      Text.LessIrreflexive(a);
      if Text.Less(a, b) && Text.Less(b, c) { Text.LessTransitive(a, b, c); }
    }
  }

  // ---- Normalisation ----------------------------------------------------------------------

  predicate ValidRawItem(item: RawItem) {
    Text.TrimSpace(item.sku) != "" && 0 < item.quantity && 0 <= item.observed
  }

  predicate Acceptable(raw: RawRequest, now: int) {
    && ShopIdentity.Identity(raw.order.platform, raw.order.shop).Some?
    && Text.TrimSpace(raw.order.orderKey) != ""
    && Text.Normalize(raw.warehouseKey) != "" && Text.Normalize(raw.code) != ""
    && now - OBSERVATION_MAX_AGE <= raw.observedAt <= now + CLOCK_SKEW
    && 0 < |raw.items| <= MAX_ITEMS
    && forall i :: 0 <= i < |raw.items| ==> ValidRawItem(raw.items[i])
  }

  predicate Mentions(raw: RawItem, sku: string) {
    Text.TrimSpace(raw.sku) == sku
  }

  // Total requested of a SKU over all lines.
  function Requested(items: seq<RawItem>, sku: string): int {
    if items == [] then 0 else
      var last := items[|items| - 1];
      Requested(items[..|items| - 1], sku) + (if Mentions(last, sku) then last.quantity else 0)
  }

  // Smallest observation of a SKU over the lines that name it.
  ghost predicate LeastObserved(items: seq<RawItem>, sku: string, observed: int) {
    && (exists i :: 0 <= i < |items| && Mentions(items[i], sku) && items[i].observed == observed)
    && (forall i :: 0 <= i < |items| && Mentions(items[i], sku) ==> observed <= items[i].observed)
  }

  ghost predicate Aggregates(raw: seq<RawItem>, item: Item) {
    (exists i :: 0 <= i < |raw| && Mentions(raw[i], item.sku)) && item.quantity == Requested(raw, item.sku)
      && LeastObserved(raw, item.sku, item.observed)
  }

  // One line per SKU, in SKU order, with the summed quantity and the smallest observation.
  ghost predicate Normalized(raw: RawRequest, r: Request) {
    && ShopIdentity.Identity(raw.order.platform, raw.order.shop)
      == Some(ShopIdentity.Shop(r.order.platform, r.order.shop))
    && r.order.orderKey == Text.TrimSpace(raw.order.orderKey)
    && r.warehouseKey == Text.Normalize(raw.warehouseKey) && r.code == Text.Normalize(raw.code)
    && SortedBySku(r.items)
    && (forall item :: item in r.items ==> Aggregates(raw.items, item))
    && (forall i :: 0 <= i < |raw.items| ==> exists j :: 0 <= j < |r.items| && Mentions(raw.items[i], r.items[j].sku))
  }

  lemma {:induction false} RequestedNonNegative(raw: seq<RawItem>, sku: string)
    requires forall i :: 0 <= i < |raw| ==> ValidRawItem(raw[i])
    ensures 0 <= Requested(raw, sku)
    ensures (exists i :: 0 <= i < |raw| && Mentions(raw[i], sku)) ==> 0 < Requested(raw, sku)
  {
    hide Text.TrimSpace;
    if raw != [] {
      RequestedNonNegative(raw[..|raw| - 1], sku);
    }
  }

  datatype Aggregate = Aggregate(quantity: int, observed: int)

  function Least(a: int, b: int): int {
    if a < b then a else b
  }

  ghost predicate AggregateOf(raw: seq<RawItem>, sku: string, a: Aggregate) {
    a.quantity == Requested(raw, sku) && LeastObserved(raw, sku, a.observed)
  }

  lemma AggregateExtended(raw: seq<RawItem>, i: nat, sku: string, a: Aggregate)
    requires i < |raw|
    requires !Mentions(raw[i], sku) && AggregateOf(raw[..i], sku, a)
    ensures AggregateOf(raw[..i + 1], sku, a)
  {
    hide Mentions;
    assert raw[..i + 1][..i] == raw[..i];
    var k :| 0 <= k < i && Mentions(raw[k], sku) && raw[k].observed == a.observed;
    assert raw[..i + 1][k] == raw[k];
  }

  lemma AggregateAdded(raw: seq<RawItem>, i: nat, sku: string, a: Aggregate)
    requires i < |raw| && Mentions(raw[i], sku) && AggregateOf(raw[..i], sku, a)
    ensures AggregateOf(raw[..i + 1], sku,
                        Aggregate(a.quantity + raw[i].quantity, Least(raw[i].observed, a.observed)))
  {
    hide Mentions;
    assert raw[..i + 1][..i] == raw[..i];
    var k :| 0 <= k < i && Mentions(raw[k], sku) && raw[k].observed == a.observed;
    assert raw[..i + 1][k] == raw[k] && raw[..i + 1][i] == raw[i];
  }

  lemma AggregateStarted(raw: seq<RawItem>, i: nat, sku: string)
    requires i < |raw| && Mentions(raw[i], sku) && forall k :: 0 <= k < i ==> !Mentions(raw[k], sku)
    ensures AggregateOf(raw[..i + 1], sku, Aggregate(raw[i].quantity, raw[i].observed))
  {
    hide Mentions;
    assert raw[..i + 1][..i] == raw[..i];
    NotRequested(raw[..i], sku);
    assert raw[..i + 1][i] == raw[i];
  }

  lemma {:induction false} NotRequested(raw: seq<RawItem>, sku: string)
    requires forall k :: 0 <= k < |raw| ==> !Mentions(raw[k], sku)
    ensures Requested(raw, sku) == 0
  {
    hide Mentions;
    if raw != [] {
      NotRequested(raw[..|raw| - 1], sku);
    }
  }

  method AggregateItems(raw: seq<RawItem>) returns (ok: bool, bySku: map<string, Aggregate>)
    ensures ok <==> forall i :: 0 <= i < |raw| ==> ValidRawItem(raw[i])
    ensures ok ==> forall sku :: sku in bySku ==> AggregateOf(raw, sku, bySku[sku])
    ensures ok ==> forall i :: 0 <= i < |raw| ==> Text.TrimSpace(raw[i].sku) in bySku
  {
    hide Text.TrimSpace, AggregateOf;
    bySku := map[];
    for i := 0 to |raw|
      invariant forall k :: 0 <= k < i ==> ValidRawItem(raw[k])
      invariant forall sku :: sku in bySku ==> AggregateOf(raw[..i], sku, bySku[sku])
      invariant forall k :: 0 <= k < i ==> Text.TrimSpace(raw[k].sku) in bySku
    {
      var item, sku := raw[i], Text.TrimSpace(raw[i].sku);
      if sku == "" || item.quantity <= 0 || item.observed < 0 {
        return false, bySku;
      }
      forall other | other in bySku && other != sku ensures AggregateOf(raw[..i + 1], other, bySku[other]) {
        AggregateExtended(raw, i, other, bySku[other]);
      }
      if sku !in bySku {
        AggregateStarted(raw, i, sku);
        bySku := bySku[sku := Aggregate(item.quantity, item.observed)];
      } else {
        AggregateAdded(raw, i, sku, bySku[sku]);
        var current := bySku[sku];
        bySku := bySku[sku := Aggregate(current.quantity + item.quantity, Least(item.observed, current.observed))];
      }
    }
    assert raw[..|raw|] == raw;
    ok := true;
  }

  method SortedItems(bySku: map<string, Aggregate>) returns (items: seq<Item>)
    requires forall sku :: sku in bySku ==> 0 <= bySku[sku].quantity
    ensures SortedBySku(items)
    ensures forall x :: x in items <==>
      x.sku in bySku && x.quantity == bySku[x.sku].quantity && x.observed == bySku[x.sku].observed
  {
    hide Text.Less;
    items := [];
    var left := bySku.Keys;
    while left != {}
      invariant left <= bySku.Keys && SortedBySku(items)
      invariant forall x :: x in items <==>
        x.sku in bySku && x.sku !in left && x.quantity == bySku[x.sku].quantity && x.observed == bySku[x.sku].observed
      decreases left
    {
      var sku :| sku in left;
      var item := Item(sku, bySku[sku].quantity, bySku[sku].observed);
      forall i | 0 <= i < |items| ensures SkuBefore(item, items[i]) || SkuBefore(items[i], item) {
        assert items[i] in items;
        Text.LessTotal(item.sku, items[i].sku);
      }
      SkuBeforeIsStrict();
      Sorting.InsertOrdered(items, item, SkuBefore);
      items := Sorting.Insert(items, item, SkuBefore);
      left := left - {sku};
    }
  }

  method Normalize(raw: RawRequest, now: int) returns (r: Option<Request>)
    ensures r.Some? <==> Acceptable(raw, now)
    ensures r.Some? ==> Normalized(raw, r.value)
  {
    hide ShopIdentity.Identity, Text.TrimSpace, Text.ToUpper, ValidRawItem, Requested, LeastObserved, SortedBySku;
    var shop := ShopIdentity.Normalize(raw.order.platform, raw.order.shop);
    if shop.None? {
      return None;
    }
    var order := OrderId(shop.value.platform, shop.value.code, Text.TrimSpace(raw.order.orderKey));
    var key, code := Text.Normalize(raw.warehouseKey), Text.Normalize(raw.code);
    if order.orderKey == "" || key == "" || code == "" {
      return None;
    }
    if raw.observedAt < now - OBSERVATION_MAX_AGE || raw.observedAt > now + CLOCK_SKEW {
      return None;
    }
    if |raw.items| == 0 || |raw.items| > MAX_ITEMS {
      return None;
    }
    var ok, bySku := AggregateItems(raw.items);
    if !ok {
      return None;
    }
    forall sku | sku in bySku ensures 0 <= bySku[sku].quantity {
      RequestedNonNegative(raw.items, sku);
    }
    var items := SortedItems(bySku);
    forall item | item in items ensures Aggregates(raw.items, item) {
      AggregateMentions(raw.items, item.sku, bySku[item.sku]);
    }
    forall i | 0 <= i < |raw.items|
      ensures exists j :: 0 <= j < |items| && Mentions(raw.items[i], items[j].sku)
    {
      var sku := Text.TrimSpace(raw.items[i].sku);
      assert Item(sku, bySku[sku].quantity, bySku[sku].observed) in items;
      var j :| 0 <= j < |items| && items[j] == Item(sku, bySku[sku].quantity, bySku[sku].observed);
      assert Mentions(raw.items[i], items[j].sku);
    }
    var request := Request(order, key, code, items);
    assert SortedBySku(request.items);
    assert (forall item :: item in request.items ==> Aggregates(raw.items, item));
    assert (forall i :: 0 <= i < |raw.items| ==>
      exists j :: 0 <= j < |request.items| && Mentions(raw.items[i], request.items[j].sku));
    assert Normalized(raw, request);
    r := Some(request);
  }

  lemma AggregateMentions(raw: seq<RawItem>, sku: string, a: Aggregate)
    requires AggregateOf(raw, sku, a)
    ensures exists i :: 0 <= i < |raw| && Mentions(raw[i], sku)
  {
  }

  // A normalised request meets the protocol's demand and asks for a positive quantity of each SKU.
  lemma NormalizedIsValid(raw: RawRequest, now: int, r: Request)
    requires Acceptable(raw, now) && Normalized(raw, r)
    ensures ValidRequest(r)
    ensures forall j :: 0 <= j < |r.items| ==> 0 < r.items[j].quantity && 0 <= r.items[j].observed
  {
    hide Text.TrimSpace, Text.ToUpper, Text.Less;
    var j :| 0 <= j < |r.items| && Mentions(raw.items[0], r.items[j].sku);
    forall i, k | 0 <= i < k < |r.items| ensures r.items[i].sku != r.items[k].sku {
      Text.LessIrreflexive(r.items[i].sku);
    }
    forall i | 0 <= i < |r.items| ensures 0 < r.items[i].quantity && 0 <= r.items[i].observed {
      assert r.items[i] in r.items;
      RequestedNonNegative(raw.items, r.items[i].sku);
    }
  }

  // ---- Resources to lock ------------------------------------------------------------------

  datatype StoredRow = StoredRow(sku: string, row: Row)

  // What loading the active rows of an order returns: one entry per row, sorted by SKU.
  ghost predicate Loads(existing: seq<StoredRow>, view: Table, o: OrderId, now: int) {
    && (forall i, j :: 0 <= i < j < |existing| ==> Text.Less(existing[i].sku, existing[j].sku))
    && (forall e :: e in existing <==> Key(o, e.sku) in UnexpiredOfOrder(view, o, now) && view[Key(o, e.sku)] == e.row)
  }

  ghost predicate SortedKeys(keys: seq<string>) {
    Sorting.Ordered(keys, Text.Less)
  }

  ghost predicate KeyedResources(unique: map<string, Resource>) {
    forall key :: key in unique ==> ResourceKey(unique[key]) == key
  }

  ghost predicate IsStored(existing: seq<StoredRow>, r: Resource) {
    exists i :: 0 <= i < |existing| && Resource(existing[i].row.code, existing[i].sku) == r
  }

  lemma NoneStored(r: Resource)
    ensures !IsStored([], r)
  {
  }

  lemma StoredNext(existing: seq<StoredRow>, i: nat, r: Resource)
    requires i < |existing|
    ensures IsStored(existing[..i + 1], r) <==>
      IsStored(existing[..i], r) || r == Resource(existing[i].row.code, existing[i].sku)
  {
    var shorter, longer := existing[..i], existing[..i + 1];
    if k :| 0 <= k < |longer| && Resource(longer[k].row.code, longer[k].sku) == r {
      assert k < i ==> shorter[k] == longer[k];
    }
    if k :| 0 <= k < |shorter| && Resource(shorter[k].row.code, shorter[k].sku) == r {
      assert longer[k] == shorter[k];
    }
    assert longer[i] == existing[i];
  }

  method CollectResources(request: Request, existing: seq<StoredRow>) returns (unique: map<string, Resource>)
    ensures KeyedResources(unique)
    ensures forall r :: ResourceKey(r) in unique <==>
      || (exists j :: 0 <= j < |request.items| && ItemResource(request, j) == r)
      || IsStored(existing, r)
  {
    hide ResourceKey, IsStored;
    unique := map[];
    for j := 0 to |request.items|
      invariant KeyedResources(unique)
      invariant forall r :: ResourceKey(r) in unique <==> exists m :: 0 <= m < j && ItemResource(request, m) == r
    {
      forall r | ResourceKey(r) == ResourceKey(ItemResource(request, j)) ensures r == ItemResource(request, j) {
        ResourceKeyInjective(r, ItemResource(request, j));
      }
      unique := unique[ResourceKey(ItemResource(request, j)) := ItemResource(request, j)];
    }
    forall r ensures !IsStored(existing[..0], r) {
      NoneStored(r);
    }
    for i := 0 to |existing|
      invariant KeyedResources(unique)
      invariant forall r :: ResourceKey(r) in unique <==>
        || (exists j :: 0 <= j < |request.items| && ItemResource(request, j) == r)
        || IsStored(existing[..i], r)
    {
      var added := Resource(existing[i].row.code, existing[i].sku);
      forall r | ResourceKey(r) == ResourceKey(added) ensures r == added {
        ResourceKeyInjective(r, added);
      }
      forall r ensures IsStored(existing[..i + 1], r) <==> IsStored(existing[..i], r) || r == added {
        StoredNext(existing, i, r);
      }
      unique := unique[ResourceKey(added) := added];
    }
    assert existing[..|existing|] == existing;
  }

  method SortKeys(left: set<string>) returns (keys: seq<string>)
    ensures SortedKeys(keys) && forall k :: k in keys <==> k in left
  {
    hide Text.Less;
    keys := [];
    var rest := left;
    while rest != {}
      invariant rest <= left && SortedKeys(keys)
      invariant forall k :: k in keys <==> k in left && k !in rest
      decreases rest
    {
      var key :| key in rest;
      forall i | 0 <= i < |keys| ensures Text.Less(key, keys[i]) || Text.Less(keys[i], key) {
        assert keys[i] in keys;
        Text.LessTotal(key, keys[i]);
      }
      LessIsStrict();
      Sorting.InsertOrdered(keys, key, Text.Less);
      keys := Sorting.Insert(keys, key, Text.Less);
      rest := rest - {key};
    }
  }

  // The list the protocol's scan step demands: every resource of the request and of the stored rows,
  // each once, in key order.
  method ReservationResources(request: Request, existing: seq<StoredRow>, ghost view: Table, ghost now: int)
      returns (resources: seq<Resource>)
    requires Loads(existing, view, request.order, now)
    ensures IsResourceList(resources, view, request, now)
  {
    hide ResourceKey, Text.Less;
    var unique := CollectResources(request, existing);
    var keys := SortKeys(unique.Keys);
    resources := [];
    for i := 0 to |keys|
      invariant |resources| == i && forall k :: 0 <= k < i ==> resources[k] == unique[keys[k]]
    {
      assert keys[i] in keys;
      resources := resources + [unique[keys[i]]];
    }
    forall i | 0 <= i < |keys| ensures ResourceKey(resources[i]) == keys[i] {
      assert keys[i] in keys;
    }
    forall r ensures r in resources <==> ResourceKey(r) in unique {
      if ResourceKey(r) in unique {
        assert ResourceKey(r) in keys;
        var i :| 0 <= i < |keys| && keys[i] == ResourceKey(r);
        ResourceKeyInjective(resources[i], r);
      }
    }
    forall r ensures IsStored(existing, r) <==>
      (exists k :: k in UnexpiredOfOrder(view, request.order, now) && ResourceOf(k, view[k]) == r)
    {
      StoredResources(existing, view, request.order, now, r);
    }
  }

  lemma StoredResources(existing: seq<StoredRow>, view: Table, o: OrderId, now: int, r: Resource)
    requires Loads(existing, view, o, now)
    ensures IsStored(existing, r)
            <==> (exists k :: k in UnexpiredOfOrder(view, o, now) && ResourceOf(k, view[k]) == r)
  {
    hide Text.Less;
    if i :| 0 <= i < |existing| && Resource(existing[i].row.code, existing[i].sku) == r {
      assert existing[i] in existing;
      assert ResourceOf(Key(o, existing[i].sku), view[Key(o, existing[i].sku)]) == r;
    }
    if k :| k in UnexpiredOfOrder(view, o, now) && ResourceOf(k, view[k]) == r {
      assert StoredRow(k.sku, view[k]) in existing;
    }
  }

  // ---- A list to lock always exists -------------------------------------------------------

  lemma {:induction false} SortedResourcesExist(rs: set<Resource>) returns (list: seq<Resource>)
    ensures Sorting.Ordered(list, KeyBefore) && forall r :: r in list <==> r in rs
  {
    hide ResourceKey, Text.Less;
    list := [];
    if rs != {} {
      var r :| r in rs;
      var rest := SortedResourcesExist(rs - {r});
      forall i | 0 <= i < |rest| ensures KeyBefore(r, rest[i]) || KeyBefore(rest[i], r) {
        assert rest[i] in rest;
        Text.LessTotal(ResourceKey(r), ResourceKey(rest[i]));
        if ResourceKey(r) == ResourceKey(rest[i]) { ResourceKeyInjective(r, rest[i]); }
      }
      LessIsStrict();
      Sorting.InsertOrdered(rest, r, KeyBefore);
      list := Sorting.Insert(rest, r, KeyBefore);
    }
  }

  predicate KeyBefore(a: Resource, b: Resource) {
    Text.Less(ResourceKey(a), ResourceKey(b))
  }

  lemma ResourceListExists(view: Table, request: Request, now: int)
    ensures exists list :: IsResourceList(list, view, request, now)
  {
    hide ResourceKey, Text.Less;
    var requested := set j | 0 <= j < |request.items| :: ItemResource(request, j);
    var stored := set k | k in UnexpiredOfOrder(view, request.order, now) :: ResourceOf(k, view[k]);
    var list := SortedResourcesExist(requested + stored);
    forall i, j | 0 <= i < j < |list| ensures Text.Less(ResourceKey(list[i]), ResourceKey(list[j])) {
      assert KeyBefore(list[i], list[j]);
    }
    assert IsResourceList(list, view, request, now);
  }

  ghost function ResourceList(view: Table, request: Request, now: int): (list: seq<Resource>)
    ensures IsResourceList(list, view, request, now)
  {
    ResourceListExists(view, request, now);
    var list :| IsResourceList(list, view, request, now);
    list
  }

  // ---- Is it the same reservation? --------------------------------------------------------

  predicate Matches(e: StoredRow, request: Request, j: nat)
    requires j < |request.items|
  {
    && e.row.warehouseKey == request.warehouseKey && e.row.code == request.code
    && e.sku == request.items[j].sku && e.row.quantity == request.items[j].quantity
  }

  // Comparing the two sorted lists position by position decides the set-wise comparison.
  method SameInventoryReservation(existing: seq<StoredRow>, request: Request, ghost view: Table, ghost now: int)
      returns (same: bool)
    requires Loads(existing, view, request.order, now) && SortedBySku(request.items)
    ensures same <==> SameReservation(view, request, now)
  {
    if SameReservation(view, request, now) {
      SameIsPositionwise(existing, request, view, now);
    }
    if |existing| != |request.items| {
      return false;
    }
    for i := 0 to |existing|
      invariant forall k :: 0 <= k < i ==> Matches(existing[k], request, k)
    {
      if !Matches(existing[i], request, i) {
        return false;
      }
    }
    PositionwiseIsSame(existing, request, view, now);
    return true;
  }

  lemma PositionwiseIsSame(existing: seq<StoredRow>, request: Request, view: Table, now: int)
    requires Loads(existing, view, request.order, now) && |existing| == |request.items|
    requires forall k :: 0 <= k < |existing| ==> Matches(existing[k], request, k)
    ensures SameReservation(view, request, now)
  {
    hide Text.Less;
    var own, o := UnexpiredOfOrder(view, request.order, now), request.order;
    forall k ensures k in own <==> k in (set j | 0 <= j < |request.items| :: ItemKey(request, j)) {
      if k in own {
        assert StoredRow(k.sku, view[k]) in existing;
        var i :| 0 <= i < |existing| && existing[i] == StoredRow(k.sku, view[k]);
        assert Matches(existing[i], request, i) && k == ItemKey(request, i);
      }
      if k in (set j | 0 <= j < |request.items| :: ItemKey(request, j)) {
        var j :| 0 <= j < |request.items| && ItemKey(request, j) == k;
        assert Matches(existing[j], request, j) && existing[j] in existing;
      }
    }
    assert own == (set j | 0 <= j < |request.items| :: ItemKey(request, j));
    forall j | 0 <= j < |request.items| && ItemKey(request, j) in view
      ensures var row := view[ItemKey(request, j)];
              row.warehouseKey == request.warehouseKey && row.code == request.code
                && row.quantity == request.items[j].quantity
    {
      assert Matches(existing[j], request, j) && existing[j] in existing;
    }
  }

  lemma SameIsPositionwise(existing: seq<StoredRow>, request: Request, view: Table, now: int)
    requires Loads(existing, view, request.order, now) && SortedBySku(request.items)
    requires SameReservation(view, request, now)
    ensures |existing| == |request.items| && forall k :: 0 <= k < |existing| ==> Matches(existing[k], request, k)
  {
    hide Text.Less;
    var a := seq(|existing|, i requires 0 <= i < |existing| => existing[i].sku);
    var b := seq(|request.items|, j requires 0 <= j < |request.items| => request.items[j].sku);
    var own, o := UnexpiredOfOrder(view, request.order, now), request.order;
    assert own == (set j | 0 <= j < |request.items| :: ItemKey(request, j));
    forall s ensures s in a <==> Key(o, s) in own {
      if s in a {
        var i :| 0 <= i < |existing| && a[i] == s;
        assert existing[i] in existing;
      }
      if Key(o, s) in own {
        assert StoredRow(s, view[Key(o, s)]) in existing;
        var i :| 0 <= i < |existing| && existing[i] == StoredRow(s, view[Key(o, s)]);
        assert a[i] == s;
      }
    }
    forall s ensures s in b <==> Key(o, s) in own {
      if Key(o, s) in own {
        var j :| 0 <= j < |request.items| && ItemKey(request, j) == Key(o, s);
        assert b[j] == s;
      }
      if s in b {
        var j :| 0 <= j < |b| && b[j] == s;
        assert ItemKey(request, j) in own;
      }
    }
    LessIsStrict();
    Sorting.OrderedUnique(a, b, Text.Less);
    forall k | 0 <= k < |existing| ensures Matches(existing[k], request, k) {
      assert existing[k] in existing && a[k] == b[k];
      assert ItemKey(request, k) in view;
    }
  }
}
