// Automatic order routing: purchased-label evidence decides the warehouse, caches spare repeated calls.

module OrderRouting {
  import Text
  import opened Wrappers

  datatype Result<+T> = Ok(value: T) | Err

  datatype Evidence = Evidence(platform: string, warehouseKey: string, warehouseCode: string, carrier: string)
  datatype Order = Order(status: int, platformOrderNo: string, orderNo: string)
  datatype WarehouseOption = WarehouseOption(code: string, name: string)
  datatype Channel = Channel(code: string, name: string, groupFlag: int, channelStatus: int, carrierStatus: int,
                             channelType: int, sheetType: int)
  datatype Mapping = Mapping(omsCode: string, omsKey: string, platformId: string, platformName: string)

  datatype Reason = CarrierNotAllowed | NoEvidence | SeveralWarehouses | NotPending | StatusChanged
    | AccountUnavailable | NoAccess | LookupFailed | OrderNotFound | NoUploadChannel
  datatype Route = Route(platformOrderNo: string, platformId: string, platformName: string, warehouseCode: string,
                         warehouseName: string, orderNo: string, channelCode: string, channelName: string,
                         channelGroup: int)
  datatype Unresolved = Unresolved(platformOrderNo: string, reason: Reason)

  // The answers of the shipping account; within one request the same question has one answer.
  datatype Account = Account(warehouses: Result<seq<WarehouseOption>>, pending: seq<string> -> Result<seq<Order>>,
                             channels: string -> Result<seq<Channel>>)

  // ---- Carriers ---------------------------------------------------------------------------

  datatype Warehouse = Warehouse(key: string, code: string)

  const WAREHOUSES: seq<Warehouse> := [
    Warehouse("DPS002", "DPSNY002"), Warehouse("ARP_EAST", "HYTX30"), Warehouse("DPS004", "DPSCA004"),
    Warehouse("ARP_WEST", "ARPCA01"), Warehouse("ARP_HOUSTON", "ARP06A"), Warehouse("ARP_ATLANTA", "ARPGA")]

  function FindWarehouse(list: seq<Warehouse>, identifier: string): Option<Warehouse> {
    if list == [] then None
    else if list[0].key == identifier || list[0].code == identifier then Some(list[0])
    else FindWarehouse(list[1..], identifier)
  }

  predicate CarrierAllowed(identifier: string, carrier: string) {
    var w := FindWarehouse(WAREHOUSES, Text.Normalize(identifier));
    var code := Text.Normalize(carrier);
    || w.None? || (w.value.key != "ARP_HOUSTON" && w.value.key != "ARP_ATLANTA")
    || code == "USPS" || code == "GOFO" || code == "UPS" || code == "FEDEX" || code == "SPEEDX" || code == "CBS"
  }

  // ---- Evidence ---------------------------------------------------------------------------

  type EvidenceMap = map<string, seq<Evidence>>

  function Of(m: EvidenceMap, orderNo: string): seq<Evidence> {
    if orderNo in m then m[orderNo] else []
  }

  predicate FromPlatform(e: Evidence, platform: string) {
    Text.ToUpper(Text.TrimSpace(e.platform)) == Text.ToUpper(platform)
  }

  function Without(audits: seq<Evidence>, platform: string): seq<Evidence> {
    if audits == [] then [] else
      var last := audits[|audits| - 1];
      Without(audits[..|audits| - 1], platform) + (if FromPlatform(last, platform) then [] else [last])
  }

  method KeepOthers(audits: seq<Evidence>, platform: string) returns (kept: seq<Evidence>)
    ensures kept == Without(audits, platform)
  {
    hide FromPlatform;
    kept := [];
    for i := 0 to |audits|
      invariant kept == Without(audits[..i], platform)
    {
      assert audits[..i + 1][..i] == audits[..i];
      if !FromPlatform(audits[i], platform) {
        kept := kept + [audits[i]];
      }
    }
    assert audits[..|audits|] == audits;
  }

  // The authoritative source replaces everything known from its platform.
  method MergeAuthoritative(existing: EvidenceMap, authoritative: EvidenceMap, platform: string)
      returns (merged: EvidenceMap)
    ensures forall o :: Of(merged, o) == Without(Of(existing, o), platform) + Of(authoritative, o)
  {
    hide Without, FromPlatform;
    merged := map[];
    var left := existing.Keys;
    NothingKept(platform);
    while left != {}
      invariant left <= existing.Keys
      invariant forall o :: Of(merged, o) == if o in left then [] else Without(Of(existing, o), platform)
      decreases left
    {
      var orderNo :| orderNo in left;
      var kept := KeepOthers(existing[orderNo], platform);
      if |kept| > 0 {
        merged := merged[orderNo := kept];
      }
      left := left - {orderNo};
    }
    ghost var others := merged;
    left := authoritative.Keys;
    while left != {}
      invariant left <= authoritative.Keys
      invariant forall o :: Of(merged, o) == if o in left then Of(others, o) else Of(others, o) + Of(authoritative, o)
      decreases left
    {
      var orderNo :| orderNo in left;
      merged := merged[orderNo := Of(merged, orderNo) + authoritative[orderNo]];
      left := left - {orderNo};
    }
  }

  lemma NothingKept(platform: string)
    ensures Without([], platform) == []
  {
  }

  lemma {:induction false} WithoutHas(audits: seq<Evidence>, platform: string)
    ensures forall e :: e in Without(audits, platform) <==> e in audits && !FromPlatform(e, platform)
    ensures (forall e :: e in audits ==> !FromPlatform(e, platform)) ==> Without(audits, platform) == audits
    ensures (forall e :: e in audits ==> FromPlatform(e, platform)) ==> Without(audits, platform) == []
  {
    hide FromPlatform;
    if audits != [] {
      var n := |audits| - 1;
      WithoutHas(audits[..n], platform);
      assert audits == audits[..n] + [audits[n]];
    }
  }

  lemma {:induction false} WithoutConcat(a: seq<Evidence>, b: seq<Evidence>, platform: string)
    ensures Without(a + b, platform) == Without(a, platform) + Without(b, platform)
  {
    hide FromPlatform;
    if b == [] {
      assert a + b == a;
    } else {
      var n := |b| - 1;
      assert (a + b)[..|a + b| - 1] == a + b[..n];
      WithoutConcat(a, b[..n], platform);
    }
  }

  // Merging the same authoritative answer twice is merging it once.
  lemma MergeIdempotent(existing: seq<Evidence>, authoritative: seq<Evidence>, platform: string)
    requires forall e :: e in authoritative ==> FromPlatform(e, platform)
    ensures var once := Without(existing, platform) + authoritative;
            Without(once, platform) + authoritative == once
            && (forall e :: e in once && FromPlatform(e, platform) ==> e in authoritative)
  {
    hide FromPlatform, Without;
    var others := Without(existing, platform);
    WithoutHas(existing, platform);
    WithoutHas(authoritative, platform);
    WithoutHas(others, platform);
    WithoutConcat(others, authoritative, platform);
    assert Without(others + authoritative, platform) == others + [];
    assert others + [] == others;
  }

  // ---- The single purchased-label warehouse -----------------------------------------------

  predicate Usable(e: Evidence) {
    Text.Normalize(e.warehouseKey) != "" && Text.Normalize(e.warehouseCode) != ""
  }

  datatype Place = Place(key: string, code: string)

  function PlaceOf(e: Evidence): Place {
    Place(Text.Normalize(e.warehouseKey), Text.Normalize(e.warehouseCode))
  }

  predicate Forbidden(e: Evidence) {
    Usable(e) && !CarrierAllowed(Text.Normalize(e.warehouseCode), e.carrier)
  }

  datatype Purchase = Purchased(evidence: Evidence) | Refused(reason: Reason)

  function LastUsable(audits: seq<Evidence>): Option<Evidence> {
    if audits == [] then None
    else if Usable(audits[|audits| - 1]) then Some(audits[|audits| - 1])
    else LastUsable(audits[..|audits| - 1])
  }

  ghost predicate Several(audits: seq<Evidence>) {
    exists i, j :: && 0 <= i < |audits| && 0 <= j < |audits| && Usable(audits[i]) && Usable(audits[j])
                   && PlaceOf(audits[i]) != PlaceOf(audits[j])
  }

  // Some usable record has a forbidden carrier; or none is usable; or they name several warehouses;
  // or the last usable record stands for all of them.
  ghost function PurchaseOf(audits: seq<Evidence>): Purchase {
    if exists i :: 0 <= i < |audits| && Forbidden(audits[i]) then Refused(CarrierNotAllowed)
    else if LastUsable(audits).None? then Refused(NoEvidence)
    else if Several(audits) then Refused(SeveralWarehouses)
    else Purchased(LastUsable(audits).value)
  }

  lemma {:induction false} LastUsableIsUsable(audits: seq<Evidence>)
    ensures LastUsable(audits).Some? ==> LastUsable(audits).value in audits && Usable(LastUsable(audits).value)
    ensures LastUsable(audits).None? <==> forall i :: 0 <= i < |audits| ==> !Usable(audits[i])
  {
    hide Usable;
    if audits != [] {
      LastUsableIsUsable(audits[..|audits| - 1]);
    }
  }

  // A purchase is accepted exactly when some record is usable, all usable ones name one warehouse and
  // every carrier is allowed there.
  lemma PurchasedMeans(audits: seq<Evidence>)
    ensures PurchaseOf(audits).Purchased? <==>
      && (exists i :: 0 <= i < |audits| && Usable(audits[i]))
      && (forall i :: 0 <= i < |audits| && Usable(audits[i]) ==>
            CarrierAllowed(Text.Normalize(audits[i].warehouseCode), audits[i].carrier))
      && !Several(audits)
    ensures var p := PurchaseOf(audits);
            p.Purchased? ==>
              && p.evidence in audits && Usable(p.evidence)
              && forall i :: 0 <= i < |audits| && Usable(audits[i]) ==> PlaceOf(audits[i]) == PlaceOf(p.evidence)
  {
    hide CarrierAllowed, Text.Normalize, PlaceOf;
    LastUsableIsUsable(audits);
    if PurchaseOf(audits).Purchased? {
      var k :| 0 <= k < |audits| && audits[k] == PurchaseOf(audits).evidence;
      forall i | 0 <= i < |audits| && Usable(audits[i]) ensures PlaceOf(audits[i]) == PlaceOf(audits[k]) {
      }
    }
  }

  ghost predicate Names(audits: seq<Evidence>, q: Place) {
    exists k :: 0 <= k < |audits| && Usable(audits[k]) && PlaceOf(audits[k]) == q
  }

  // The places named so far; the last usable record is the one kept for its place.
  ghost predicate Collected(audits: seq<Evidence>, places: map<Place, Evidence>) {
    && (forall q :: q in places <==> Names(audits, q))
    && (places == map[] <==> LastUsable(audits).None?)
    && (LastUsable(audits).Some? ==>
          var e := LastUsable(audits).value;
          Usable(e) && e in audits && PlaceOf(e) in places && places[PlaceOf(e)] == e)
  }

  lemma CollectedNext(audits: seq<Evidence>, places: map<Place, Evidence>, e: Evidence)
    requires Collected(audits, places)
    ensures Collected(audits + [e], if Usable(e) then places[PlaceOf(e) := e] else places)
  {
    hide Usable, PlaceOf;
    var all, n := audits + [e], |audits|;
    assert all[..n] == audits && all[n] == e && forall k :: 0 <= k < n ==> all[k] == audits[k];
    forall q ensures Names(all, q) <==> Names(audits, q) || (Usable(e) && PlaceOf(e) == q) {
      if k :| 0 <= k < n && Usable(audits[k]) && PlaceOf(audits[k]) == q {
        assert Usable(all[k]) && PlaceOf(all[k]) == q;
      }
      if Usable(e) && PlaceOf(e) == q {
        assert Usable(all[n]) && PlaceOf(all[n]) == q;
      }
    }
    assert LastUsable(all) == if Usable(e) then Some(e) else LastUsable(audits);
    if Usable(e) {
      assert PlaceOf(e) in places[PlaceOf(e) := e];
    } else if LastUsable(audits).Some? {
      var k :| 0 <= k < n && audits[k] == LastUsable(audits).value;
      assert all[k] in all;
    }
  }

  method CollectPlaces(audits: seq<Evidence>) returns (forbidden: bool, places: map<Place, Evidence>)
    ensures forbidden <==> exists i :: 0 <= i < |audits| && Forbidden(audits[i])
    ensures !forbidden ==> Collected(audits, places)
  {
    hide CarrierAllowed, Text.Normalize, Collected, PlaceOf;
    places := map[];
    assert Collected(audits[..0], places) by { NothingCollected(); }
    for i := 0 to |audits|
      invariant forall k :: 0 <= k < i ==> !Forbidden(audits[k])
      invariant Collected(audits[..i], places)
    {
      if Usable(audits[i]) && !CarrierAllowed(Text.Normalize(audits[i].warehouseCode), audits[i].carrier) {
        assert Forbidden(audits[i]);
        return true, places;
      }
      CollectedNext(audits[..i], places, audits[i]);
      assert audits[..i + 1] == audits[..i] + [audits[i]];
      if Usable(audits[i]) {
        places := places[PlaceOf(audits[i]) := audits[i]];
      }
    }
    assert audits[..|audits|] == audits;
    forbidden := false;
  }

  lemma NothingCollected()
    ensures Collected([], map[])
  {
  }

  method PurchasedLabelWarehouse(audits: seq<Evidence>) returns (p: Purchase)
    ensures p == PurchaseOf(audits)
  {
    hide CarrierAllowed, Text.Normalize, Usable, PlaceOf;
    var forbidden, places := CollectPlaces(audits);
    if forbidden {
      return Refused(CarrierNotAllowed);
    }
    if |places| == 0 {
      return Refused(NoEvidence);
    }
    ghost var last := LastUsable(audits).value;
    if |places| != 1 {
      SeveralPlaces(audits, places, PlaceOf(last));
      return Refused(SeveralWarehouses);
    }
    SinglePlace(places.Keys, PlaceOf(last));
    var place :| place in places;
    RawCarrierCheck(last);
    OnePlace(audits, places, PlaceOf(last));
    p := if CarrierAllowed(places[place].warehouseCode, places[place].carrier) then Purchased(places[place])
      else Refused(CarrierNotAllowed);
  }

  lemma OnePlace(audits: seq<Evidence>, places: map<Place, Evidence>, q: Place)
    requires Collected(audits, places) && forall r :: r in places ==> r == q
    ensures forall i :: 0 <= i < |audits| && Usable(audits[i]) ==> PlaceOf(audits[i]) == q
  {
    hide Usable, PlaceOf, LastUsable;
    forall i | 0 <= i < |audits| && Usable(audits[i]) ensures PlaceOf(audits[i]) == q {
      assert Names(audits, PlaceOf(audits[i]));
    }
  }

  // The second carrier check, on the code as stored, never fires after the first one passed.
  lemma RawCarrierCheck(e: Evidence)
    requires Usable(e) && !Forbidden(e)
    ensures CarrierAllowed(e.warehouseCode, e.carrier)
  {
    hide FindWarehouse;
    Text.NormalizeIdempotent(e.warehouseCode);
  }

  lemma SinglePlace(places: set<Place>, q: Place)
    requires |places| == 1 && q in places
    ensures forall r :: r in places ==> r == q
  {
    assert |places - {q}| == 0;
    assert places == (places - {q}) + {q};
  }

  lemma SeveralPlaces(audits: seq<Evidence>, places: map<Place, Evidence>, q: Place)
    requires Collected(audits, places) && q in places && |places| != 1
    ensures Several(audits)
  {
    hide Usable, PlaceOf, LastUsable;
    assert places.Keys != {q};
    var r :| r in places && r != q;
    assert Names(audits, q) && Names(audits, r);
    var i :| 0 <= i < |audits| && Usable(audits[i]) && PlaceOf(audits[i]) == q;
    var j :| 0 <= j < |audits| && Usable(audits[j]) && PlaceOf(audits[j]) == r;
  }

  // ---- Cache-free evaluation --------------------------------------------------------------

  datatype Input = Input(nos: seq<string>, orders: seq<Order>, evidence: EvidenceMap, mappings: seq<Mapping>,
                         account: Account)

  datatype Access = Granted(option: WarehouseOption, orders: map<string, Order>) | Denied(reason: Reason)
  datatype Decision = Routed(route: Route) | Left(reason: Reason) | Broken

  ghost function PurchaseFor(x: Input, no: string): Purchase {
    PurchaseOf(Of(x.evidence, Text.ToUpper(no)))
  }

  // The requested orders whose label was bought for this warehouse.
  ghost function GroupNos(x: Input, nos: seq<string>, w: string): seq<string> {
    if nos == [] then [] else
      var n := |nos| - 1;
      var p := PurchaseFor(x, nos[n]);
      GroupNos(x, nos[..n], w) + (if p.Purchased? && PlaceOf(p.evidence).code == w then [nos[n]] else [])
  }

  function FindOption(options: seq<WarehouseOption>, w: string): Option<WarehouseOption> {
    if options == [] then None
    else if Text.Normalize(options[0].code) == w then Some(options[0]) else FindOption(options[1..], w)
  }

  function OrderIndex(orders: seq<Order>): map<string, Order> {
    if orders == [] then map[] else
      var last := orders[|orders| - 1];
      var key := Text.Normalize(last.platformOrderNo);
      if key != "" then OrderIndex(orders[..|orders| - 1])[key := last] else OrderIndex(orders[..|orders| - 1])
  }

  ghost function AccessTo(x: Input, w: string): Access {
    match x.account.warehouses
    case Err => Denied(AccountUnavailable)
    case Ok(options) =>
      match FindOption(options, w)
      case None => Denied(NoAccess)
      case Some(option) =>
        match x.account.pending(GroupNos(x, x.nos, w))
        case Err => Denied(LookupFailed)
        case Ok(orders) => Granted(option, OrderIndex(orders))
  }

  predicate IsUpload(c: Channel) {
    c.code == "Upload_Shipping_Label" && c.channelStatus == 0 && c.carrierStatus == 0 && c.channelType == 3
      && c.sheetType == 1
  }

  function UploadChannel(channels: seq<Channel>): (r: Option<Channel>)
    ensures r.Some? ==> IsUpload(r.value)
  {
    if channels == [] then None else if IsUpload(channels[0]) then Some(channels[0]) else UploadChannel(channels[1..])
  }

  // The first mapping of the warehouse with the purchase's key.
  function FindMapping(mappings: seq<Mapping>, p: Place): Option<Mapping> {
    if mappings == [] then None
    else if Text.Normalize(mappings[0].omsCode) == p.code
      && Text.Normalize(mappings[0].omsKey) == p.key then Some(mappings[0])
    else FindMapping(mappings[1..], p)
  }

  function MakeRoute(no: string, p: Place, mapping: Option<Mapping>, option: WarehouseOption, order: Order,
      c: Channel): Route {
    Route(no,
          if mapping.Some? then Text.TrimSpace(mapping.value.platformId) else "",
          if mapping.Some? && Text.TrimSpace(mapping.value.platformName) != ""
          then Text.TrimSpace(mapping.value.platformName) else p.key,
          option.code, option.name, order.orderNo, c.code, c.name, c.groupFlag)
  }

  predicate Ready(order: Order) {
    order.status == 0 && Text.TrimSpace(order.orderNo) != ""
  }

  ghost function Decide(x: Input, i: nat): Decision
    requires i < |x.nos| == |x.orders|
  {
    var no, order := x.nos[i], x.orders[i];
    if !Ready(order) || order.platformOrderNo != no then Left(StatusChanged)
    else
      match PurchaseFor(x, no)
      case Refused(reason) => Left(reason)
      case Purchased(e) =>
        var place := PlaceOf(e);
        match AccessTo(x, place.code)
        case Denied(reason) => Left(reason)
        case Granted(option, orders) =>
          if Text.ToUpper(no) !in orders || !Ready(orders[Text.ToUpper(no)]) then Left(OrderNotFound)
          else
            match x.account.channels(place.code)
            case Err => Broken
            case Ok(channels) =>
              match UploadChannel(channels)
              case None => Left(NoUploadChannel)
              case Some(c) =>
                Routed(MakeRoute(no, place, FindMapping(x.mappings, place), option, orders[Text.ToUpper(no)], c))
  }

  ghost function Routes(x: Input, n: nat): seq<Route>
    requires n <= |x.nos| == |x.orders|
  {
    if n == 0 then [] else Routes(x, n - 1) + (match Decide(x, n - 1) case Routed(route) => [route] case _ => [])
  }

  ghost function Leftovers(x: Input, n: nat): seq<Unresolved>
    requires n <= |x.nos| == |x.orders|
  {
    if n == 0 then [] else
      match Decide(x, n - 1)
      case Left(reason) => Leftovers(x, n - 1) + [Unresolved(x.nos[n - 1], reason)]
      case _ => Leftovers(x, n - 1)
  }

  // ---- The routing loop with its caches ---------------------------------------------------

  datatype Preview = Preview(ready: bool, routes: seq<Route>, unresolved: seq<Unresolved>)

  datatype Purchases = Purchases(evidence: map<string, Evidence>, reasons: map<string, Reason>,
                                 groups: map<string, seq<string>>)

  ghost predicate PurchasesUpTo(x: Input, n: nat, p: Purchases)
    requires n <= |x.nos|
  {
    && (forall i :: 0 <= i < n ==> Text.ToUpper(x.nos[i]) in p.reasons || Text.ToUpper(x.nos[i]) in p.evidence)
    && (forall key :: key in p.reasons ==> PurchaseOf(Of(x.evidence, key)) == Refused(p.reasons[key]))
    && (forall key :: key in p.evidence ==> PurchaseOf(Of(x.evidence, key)) == Purchased(p.evidence[key]))
    && (forall w :: GroupNos(x, x.nos[..n], w) == GroupIn(p.groups, w))
  }

  function GroupIn(groups: map<string, seq<string>>, w: string): seq<string> {
    if w in groups then groups[w] else []
  }

  function WithPurchase(p: Purchases, no: string, purchase: Purchase): Purchases {
    match purchase
    case Refused(reason) => p.(reasons := p.reasons[Text.ToUpper(no) := reason])
    case Purchased(e) =>
      p.(evidence := p.evidence[Text.ToUpper(no) := e],
         groups := p.groups[PlaceOf(e).code := GroupIn(p.groups, PlaceOf(e).code) + [no]])
  }

  lemma PurchaseAdded(x: Input, i: nat, p: Purchases)
    requires i < |x.nos| && PurchasesUpTo(x, i, p)
    ensures PurchasesUpTo(x, i + 1, WithPurchase(p, x.nos[i], PurchaseFor(x, x.nos[i])))
  {
    hide PurchaseOf, Text.ToUpper, PlaceOf, Of;
    var no, q := x.nos[i], WithPurchase(p, x.nos[i], PurchaseFor(x, x.nos[i]));
    assert x.nos[..i + 1][..i] == x.nos[..i];
    forall w ensures GroupNos(x, x.nos[..i + 1], w) == GroupIn(q.groups, w) {
      assert GroupNos(x, x.nos[..i], w) == GroupIn(p.groups, w);
    }
  }

  method CollectPurchases(x: Input) returns (p: Purchases)
    ensures PurchasesUpTo(x, |x.nos|, p)
  {
    hide PurchaseOf, Text.ToUpper, PurchasesUpTo, WithPurchase, Of;
    p := Purchases(map[], map[], map[]);
    NoPurchases(x, p);
    for i := 0 to |x.nos|
      invariant PurchasesUpTo(x, i, p)
    {
      PurchaseAdded(x, i, p);
      var purchase := PurchasedLabelWarehouse(Of(x.evidence, Text.ToUpper(x.nos[i])));
      p := WithPurchase(p, x.nos[i], purchase);
    }
  }

  lemma NoPurchases(x: Input, p: Purchases)
    requires p == Purchases(map[], map[], map[])
    ensures PurchasesUpTo(x, 0, p)
  {
    assert x.nos[..0] == [];
  }

  datatype Caches = Caches(operators: set<string>, warehouses: map<string, WarehouseOption>,
                           reasons: map<string, Reason>, orders: map<string, map<string, Order>>,
                           channels: map<string, Channel>, missing: set<string>)

  ghost predicate Agrees(x: Input, c: Caches) {
    && (forall w :: w in c.reasons ==> AccessTo(x, w) == Denied(c.reasons[w]))
    && (forall w :: w in c.operators && w !in c.reasons ==>
          w in c.warehouses && w in c.orders && AccessTo(x, w) == Granted(c.warehouses[w], c.orders[w]))
    && (forall w :: w in c.channels ==>
          x.account.channels(w).Ok? && UploadChannel(x.account.channels(w).value) == Some(c.channels[w]))
    && (forall w :: w in c.missing ==> x.account.channels(w).Ok? && UploadChannel(x.account.channels(w).value) == None)
  }

  method IndexOrders(orders: seq<Order>) returns (m: map<string, Order>)
    ensures m == OrderIndex(orders)
  {
    hide Text.Normalize;
    m := map[];
    for i := 0 to |orders|
      invariant m == OrderIndex(orders[..i])
    {
      assert orders[..i + 1][..i] == orders[..i];
      var key := Text.Normalize(orders[i].platformOrderNo);
      if key != "" {
        m := m[key := orders[i]];
      }
    }
    assert orders[..|orders|] == orders;
  }

  method FillAccess(x: Input, p: Purchases, c: Caches, w: string) returns (c': Caches)
    requires Agrees(x, c) && PurchasesUpTo(x, |x.nos|, p)
    ensures Agrees(x, c') && (w in c'.operators || w in c'.reasons)
  {
    hide FindOption, OrderIndex, UploadChannel, Agrees, PurchaseOf, GroupNos, PurchasesUpTo;
    c' := c;
    if w in c.operators || w in c.reasons {
      return;
    }
    GroupKnown(x, p, w);
    if x.account.warehouses.Err? {
      c' := c.(reasons := c.reasons[w := AccountUnavailable]);
      DeniedAgrees(x, c, c', w);
      return;
    }
    var option := FindOption(x.account.warehouses.value, w);
    if option.None? {
      c' := c.(reasons := c.reasons[w := NoAccess]);
      DeniedAgrees(x, c, c', w);
      return;
    }
    c' := c.(operators := c.operators + {w}, warehouses := c.warehouses[w := option.value]);
    var found := x.account.pending(GroupIn(p.groups, w));
    if found.Err? {
      c' := c'.(reasons := c'.reasons[w := LookupFailed]);
      DeniedAgrees(x, c, c', w);
    } else {
      var orders := IndexOrders(found.value);
      c' := c'.(orders := c'.orders[w := orders]);
      GrantedAgrees(x, c, c', w);
    }
  }

  lemma GroupKnown(x: Input, p: Purchases, w: string)
    requires PurchasesUpTo(x, |x.nos|, p)
    ensures GroupIn(p.groups, w) == GroupNos(x, x.nos, w)
  {
    assert x.nos[..|x.nos|] == x.nos;
  }

  lemma DeniedAgrees(x: Input, c: Caches, c': Caches, w: string)
    requires Agrees(x, c) && w !in c.reasons && w !in c.operators && w in c'.reasons
    requires AccessTo(x, w) == Denied(c'.reasons[w])
    requires c'.reasons == c.reasons[w := c'.reasons[w]] && c'.operators <= c.operators + {w}
    requires c'.warehouses.Keys >= c.warehouses.Keys && forall v :: v in c.warehouses && v != w ==>
      c'.warehouses[v] == c.warehouses[v]
    requires c' == c.(reasons := c'.reasons, operators := c'.operators, warehouses := c'.warehouses)
    ensures Agrees(x, c')
  {
    hide AccessTo, UploadChannel;
  }

  lemma GrantedAgrees(x: Input, c: Caches, c': Caches, w: string)
    requires Agrees(x, c) && w !in c.reasons && w in c'.warehouses && w in c'.orders
    requires AccessTo(x, w) == Granted(c'.warehouses[w], c'.orders[w])
    requires c' == c.(operators := c.operators + {w}, warehouses := c.warehouses[w := c'.warehouses[w]],
      orders := c.orders[w := c'.orders[w]])
    ensures Agrees(x, c')
  {
    hide AccessTo, UploadChannel;
  }

  method FillChannel(x: Input, c: Caches, w: string) returns (ok: bool, c': Caches)
    requires Agrees(x, c)
    ensures ok <==> x.account.channels(w).Ok? || w in c.channels || w in c.missing
    ensures ok ==> Agrees(x, c') && (w in c'.channels || w in c'.missing)
    ensures ok ==> c' == c.(channels := c'.channels, missing := c'.missing)
  {
    hide AccessTo, UploadChannel;
    ok, c' := true, c;
    if w in c.channels || w in c.missing {
      return;
    }
    var channels := x.account.channels(w);
    if channels.Err? {
      return false, c;
    }
    var channel := UploadChannel(channels.value);
    if channel.Some? {
      c' := c.(channels := c.channels[w := channel.value]);
    } else {
      c' := c.(missing := c.missing + {w});
    }
  }

  // One order, answered from the caches.
  method DecideOne(x: Input, p: Purchases, c: Caches, i: nat) returns (d: Decision, c': Caches)
    requires i < |x.nos| == |x.orders| && Agrees(x, c) && PurchasesUpTo(x, |x.nos|, p)
    ensures d == Decide(x, i) && Agrees(x, c')
  {
    hide PurchaseOf, AccessTo, Text.ToUpper, Text.Normalize, Text.TrimSpace, UploadChannel, FindMapping, GroupNos;
    var no, order := x.nos[i], x.orders[i];
    c' := c;
    if !Ready(order) || order.platformOrderNo != no {
      return Left(StatusChanged), c;
    }
    var key := Text.ToUpper(no);
    if key in p.reasons {
      return Left(p.reasons[key]), c;
    }
    var place := PlaceOf(p.evidence[key]);
    c' := FillAccess(x, p, c, place.code);
    if place.code in c'.reasons {
      return Left(c'.reasons[place.code]), c';
    }
    var option, orders := c'.warehouses[place.code], c'.orders[place.code];
    if key !in orders || !Ready(orders[key]) {
      return Left(OrderNotFound), c';
    }
    var ok, filled := FillChannel(x, c', place.code);
    if !ok {
      return Broken, c';
    }
    c' := filled;
    if place.code in c'.missing {
      return Left(NoUploadChannel), c';
    }
    d := Routed(MakeRoute(no, place, FindMapping(x.mappings, place), option, orders[key], c'.channels[place.code]));
  }

  // The whole preview: an error exactly when some order needs channels that cannot be read.
  method ResolveRoutes(x: Input) returns (r: Result<Preview>)
    ensures |x.orders| != |x.nos| ==> r == Ok(Preview(false, [], NotPendingAll(x.nos)))
    ensures |x.orders| == |x.nos| ==> (r.Ok? <==> forall i :: 0 <= i < |x.nos| ==> Decide(x, i) != Broken)
    ensures |x.orders| == |x.nos| && r.Ok? ==>
      && r.value.routes == Routes(x, |x.nos|) && r.value.unresolved == Leftovers(x, |x.nos|)
      && (r.value.ready <==> |r.value.routes| == |x.nos| && r.value.unresolved == [])
  {
    hide Decide, Agrees, PurchasesUpTo;
    var p := CollectPurchases(x);
    if |x.orders| != |x.nos| {
      var all: seq<Unresolved> := [];
      for i := 0 to |x.nos|
        invariant all == NotPendingAll(x.nos[..i])
      {
        assert x.nos[..i + 1][..i] == x.nos[..i];
        all := all + [Unresolved(x.nos[i], NotPending)];
      }
      assert x.nos[..|x.nos|] == x.nos;
      return Ok(Preview(false, [], all));
    }
    var c := Caches({}, map[], map[], map[], map[], {});
    EmptyCachesAgree(x);
    var routes: seq<Route>, unresolved: seq<Unresolved> := [], [];
    for i := 0 to |x.nos|
      invariant Agrees(x, c) && forall k :: 0 <= k < i ==> Decide(x, k) != Broken
      invariant routes == Routes(x, i) && unresolved == Leftovers(x, i)
    {
      var d;
      d, c := DecideOne(x, p, c, i);
      match d
      case Broken => return Err;
      case Left(reason) => unresolved := unresolved + [Unresolved(x.nos[i], reason)];
      case Routed(route) => routes := routes + [route];
    }
    r := Ok(Preview(|routes| == |x.nos| && |unresolved| == 0, routes, unresolved));
  }

  function NotPendingAll(nos: seq<string>): seq<Unresolved> {
    if nos == [] then [] else NotPendingAll(nos[..|nos| - 1]) + [Unresolved(nos[|nos| - 1], NotPending)]
  }

  lemma EmptyCachesAgree(x: Input)
    ensures Agrees(x, Caches({}, map[], map[], map[], map[], {}))
  {
  }

  // ---- What routing guarantees ------------------------------------------------------------

  function RouteNos(routes: seq<Route>): seq<string> {
    seq(|routes|, i requires 0 <= i < |routes| => routes[i].platformOrderNo)
  }

  function LeftNos(left: seq<Unresolved>): seq<string> {
    seq(|left|, i requires 0 <= i < |left| => left[i].platformOrderNo)
  }

  // Without error every order is in exactly one of the two lists, each list in request order.
  lemma {:induction false} EveryOrderOnce(x: Input, n: nat)
    requires n <= |x.nos| == |x.orders| && forall i :: 0 <= i < n ==> Decide(x, i) != Broken
    ensures multiset(RouteNos(Routes(x, n))) + multiset(LeftNos(Leftovers(x, n))) == multiset(x.nos[..n])
    ensures |Routes(x, n)| + |Leftovers(x, n)| == n
  {
    hide Decide, RouteNos, LeftNos;
    NoNos();
    if n > 0 {
      EveryOrderOnce(x, n - 1);
      assert x.nos[..n] == x.nos[..n - 1] + [x.nos[n - 1]];
      match Decide(x, n - 1)
      case Routed(route) =>
        RoutedNo(x, n - 1);
        assert Leftovers(x, n) == Leftovers(x, n - 1);
        OneMoreRoute(Routes(x, n - 1), route);
      case Left(reason) =>
        assert Routes(x, n) == Routes(x, n - 1);
        OneMoreLeft(Leftovers(x, n - 1), Unresolved(x.nos[n - 1], reason));
    }
  }

  lemma NoNos()
    ensures RouteNos([]) == [] && LeftNos([]) == []
  {
  }

  lemma OneMoreRoute(routes: seq<Route>, r: Route)
    ensures multiset(RouteNos(routes + [r])) == multiset(RouteNos(routes)) + multiset{r.platformOrderNo}
  {
    assert RouteNos(routes + [r]) == RouteNos(routes) + [r.platformOrderNo];
  }

  lemma OneMoreLeft(left: seq<Unresolved>, u: Unresolved)
    ensures multiset(LeftNos(left + [u])) == multiset(LeftNos(left)) + multiset{u.platformOrderNo}
  {
    assert LeftNos(left + [u]) == LeftNos(left) + [u.platformOrderNo];
  }

  lemma RoutedNo(x: Input, i: nat)
    requires i < |x.nos| == |x.orders| && Decide(x, i).Routed?
    ensures Decide(x, i).route.platformOrderNo == x.nos[i]
  {
    hide PurchaseOf, AccessTo, Text.ToUpper, Text.Normalize, Text.TrimSpace, UploadChannel, FindMapping;
  }

  lemma {:induction false} FoundOption(options: seq<WarehouseOption>, w: string)
    ensures FindOption(options, w).Some? ==> Text.Normalize(FindOption(options, w).value.code) == w
  {
    hide Text.Normalize;
    if options != [] {
      FoundOption(options[1..], w);
    }
  }

  // A routed order goes to the one warehouse its usable evidence names, by a carrier allowed there.
  lemma RoutedToPurchasedWarehouse(x: Input, i: nat, k: nat)
    requires i < |x.nos| == |x.orders| && Decide(x, i).Routed?
    requires k < |Of(x.evidence, Text.ToUpper(x.nos[i]))| && Usable(Of(x.evidence, Text.ToUpper(x.nos[i]))[k])
    ensures var e := Of(x.evidence, Text.ToUpper(x.nos[i]))[k];
            && Text.Normalize(e.warehouseCode) == Text.Normalize(Decide(x, i).route.warehouseCode)
            && CarrierAllowed(Text.Normalize(e.warehouseCode), e.carrier)
  {
    hide PurchaseOf, CarrierAllowed, Text.ToUpper, Text.Normalize, Text.TrimSpace, UploadChannel, FindMapping, Usable,
         FindOption;
    var audits := Of(x.evidence, Text.ToUpper(x.nos[i]));
    PurchasedMeans(audits);
    FoundOption(x.account.warehouses.value, PlaceOf(PurchaseOf(audits).evidence).code);
  }

  // Two routes with the same warehouse code carry the same channel.
  lemma SameWarehouseSameChannel(x: Input, i: nat, j: nat)
    requires i < |x.nos| == |x.orders| && j < |x.nos| && Decide(x, i).Routed? && Decide(x, j).Routed?
    requires Decide(x, i).route.warehouseCode == Decide(x, j).route.warehouseCode
    ensures var r, t := Decide(x, i).route, Decide(x, j).route;
            r.channelCode == t.channelCode && r.channelName == t.channelName && r.channelGroup == t.channelGroup
            && r.warehouseName == t.warehouseName
  {
    hide PurchaseOf, Text.ToUpper, Text.Normalize, Text.TrimSpace, UploadChannel, FindMapping, FindOption, OrderIndex,
         GroupNos;
    FoundOption(x.account.warehouses.value, PlaceOf(PurchaseFor(x, x.nos[i]).evidence).code);
    FoundOption(x.account.warehouses.value, PlaceOf(PurchaseFor(x, x.nos[j]).evidence).code);
  }

  // ---- Approving by warehouse group -------------------------------------------------------

  function InGroup(routes: seq<Route>, code: string): seq<Route> {
    if routes == [] then [] else
      var last := routes[|routes| - 1];
      InGroup(routes[..|routes| - 1], code) + (if last.warehouseCode == code then [last] else [])
  }

  method GroupRoutes(routes: seq<Route>) returns (groups: map<string, seq<Route>>)
    ensures forall code :: code in groups <==> InGroup(routes, code) != []
    ensures forall code :: code in groups ==> groups[code] == InGroup(routes, code)
  {
    groups := map[];
    for i := 0 to |routes|
      invariant forall code :: code in groups <==> InGroup(routes[..i], code) != []
      invariant forall code :: code in groups ==> groups[code] == InGroup(routes[..i], code)
    {
      assert routes[..i + 1][..i] == routes[..i];
      var code := routes[i].warehouseCode;
      groups := groups[code := (if code in groups then groups[code] else []) + [routes[i]]];
    }
    assert routes[..|routes|] == routes;
  }

  lemma {:induction false} GroupedFrom(routes: seq<Route>, code: string)
    ensures forall r :: r in InGroup(routes, code) <==> r in routes && r.warehouseCode == code
  {
    if routes != [] {
      GroupedFrom(routes[..|routes| - 1], code);
      assert routes == routes[..|routes| - 1] + [routes[|routes| - 1]];
    }
  }

  lemma {:induction false} RouteOrigin(x: Input, n: nat, r: Route) returns (i: nat)
    requires n <= |x.nos| == |x.orders| && r in Routes(x, n)
    ensures i < n && Decide(x, i) == Routed(r)
  {
    hide Decide;
    if Decide(x, n - 1) == Routed(r) {
      return n - 1;
    }
    i := RouteOrigin(x, n - 1, r);
  }

  // Submitting a whole warehouse group with its first route's channel submits every route with its own.
  lemma FirstChannelServesGroup(x: Input, code: string, r: Route)
    requires |x.nos| == |x.orders| && r in InGroup(Routes(x, |x.nos|), code)
    ensures var first := InGroup(Routes(x, |x.nos|), code)[0];
            first.channelCode == r.channelCode && first.channelName == r.channelName
              && first.channelGroup == r.channelGroup
  {
    hide Decide, Routes, InGroup;
    var routes := Routes(x, |x.nos|);
    var group := InGroup(routes, code);
    GroupedFrom(routes, code);
    assert group[0] in group;
    var i := RouteOrigin(x, |x.nos|, group[0]);
    var j := RouteOrigin(x, |x.nos|, r);
    SameWarehouseSameChannel(x, i, j);
  }
}
