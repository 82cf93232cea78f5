// The fulfilment audit table and the statements of its seven writers.

module FulfillmentAudits {
  import opened PickupClassifier
  import opened Wrappers
  import Text

  datatype Key = Key(platform: string, shop: string, orderNo: string)
  datatype Row = Row(warehouseKey: string, code: string, trackingNumber: string, shippingAt: Option<int>,
                     omsStatus: string, statusSince: int, processingSince: Option<int>, createdAt: Option<int>,
                     outboundAt: Option<int>, category: string, active: bool, resolvedAt: Option<int>,
                     lastCheckedAt: Option<int>, terminal: string, pickup: Pickup)
  type Table = map<Key, Row>

  datatype Item = Item(orderNo: string, warehouseKey: string, code: string, trackingNumber: string,
                       shippingAt: Option<int>)
  datatype OmsResolution = OmsResolution(code: string, status: string, createdAt: Option<int>, outboundAt: Option<int>)

  const DAY := 86_400
  const MAX_SNAPSHOT := 5000
  const MAX_NOTE := 500

  function Coalesce<T>(a: Option<T>, b: Option<T>): Option<T> {
    if a.Some? then a else b
  }

  function NonEmptyOr(a: string, b: string): string {
    if a != "" then a else b
  }

  // ---- Statements -------------------------------------------------------------------------

  function InsertedRow(item: Item, now: int): Row {
    Row(item.warehouseKey, item.code, item.trackingNumber, item.shippingAt, "pending_query", now, None, None, None,
        "pending_query", true, None, None, "", Pickup(0, 0, "awaiting_pickup", "", "", None, None))
  }

  function UpdatedRow(row: Row, item: Item, now: int): Row {
    var moved := item.code != "" && item.code != row.code;
    var settled := row.terminal != "" || row.omsStatus == "outbound" || row.pickup.category == "picked_up";
    row.(shippingAt := Coalesce(item.shippingAt, row.shippingAt),
         warehouseKey := NonEmptyOr(item.warehouseKey, row.warehouseKey),
         code := NonEmptyOr(item.code, row.code),
         trackingNumber := NonEmptyOr(item.trackingNumber, row.trackingNumber),
         omsStatus := if !settled && moved then "pending_query" else row.omsStatus,
         lastCheckedAt := if !settled && moved then None else row.lastCheckedAt,
         category :=
           if row.terminal != "" then row.category
           else if row.omsStatus == "outbound" then "archived"
           else if row.pickup.category == "picked_up" then "platform_picked_up"
           else if moved then "pending_query" else row.category,
         active := !settled,
         resolvedAt :=
           if row.terminal != "" then row.resolvedAt
           else if row.omsStatus == "outbound" then Coalesce(row.resolvedAt, Some(now))
           else if row.pickup.category == "picked_up" then Coalesce(row.resolvedAt, Some(now)) else None)
  }

  function Upsert(rows: Table, platform: string, shop: string, item: Item, now: int): Table {
    var key := Key(platform, shop, item.orderNo);
    rows[key := if key in rows then UpdatedRow(rows[key], item, now) else InsertedRow(item, now)]
  }

  function Retired(row: Row, now: int): Row {
    row.(active := false, resolvedAt := Some(now))
  }

  predicate Stale(rows: Table, k: Key, platform: string, shop: string, orderNos: seq<string>)
    requires k in rows
  {
    k.platform == platform && k.shop == shop && rows[k].active && k.orderNo !in orderNos
  }

  function Sweep(rows: Table, platform: string, shop: string, orderNos: seq<string>, now: int): Table {
    map k | k in rows :: if Stale(rows, k, platform, shop, orderNos) then Retired(rows[k], now) else rows[k]
  }

  function ResolvedByOms(row: Row, r: OmsResolution, now: int): Row {
    if row.terminal != "" then row else
      var status := if r.status == "" then "unknown" else r.status;
      row.(code := NonEmptyOr(r.code, row.code),
           statusSince := if row.omsStatus != status then now else row.statusSince,
           processingSince :=
             if status == "processing" && row.omsStatus == "processing" then
               Coalesce(row.processingSince, Coalesce(r.createdAt, Some(now)))
             else if status == "processing" then Coalesce(r.createdAt, Some(now)) else None,
           omsStatus := status,
           createdAt := Coalesce(r.createdAt, row.createdAt),
           outboundAt := Coalesce(r.outboundAt, row.outboundAt),
           category := if status == "outbound" then "archived" else row.category,
           active := status != "outbound" && row.active,
           resolvedAt := if status == "outbound" then Coalesce(row.resolvedAt, Some(now)) else row.resolvedAt,
           lastCheckedAt := Some(now))
  }

  function ResolvedByTracking(row: Row, r: Pickup, now: int): Row {
    if row.terminal == "" && (row.active || row.omsStatus == "outbound") then
      var picked := row.active && r.category == "picked_up";
      row.(pickup := r,
           category := if picked then "platform_picked_up" else row.category,
           active := row.active && !picked,
           resolvedAt := if picked then Coalesce(row.resolvedAt, Some(now)) else row.resolvedAt)
    else row
  }

  predicate ValidTerminal(status: string) {
    status == "manually_fulfilled" || status == "cancelled" || status == "not_required" || status == "other"
  }

  predicate ValidNote(note: string) {
    note != "" && |note| <= MAX_NOTE
  }

  predicate Resolvable(row: Row) {
    row.active && row.terminal == ""
      && (row.category == "manual_required" || row.category == "warehouse_overdue" || row.category == "sync_error")
  }

  function ResolvedManually(row: Row, status: string, now: int): Row {
    if ValidTerminal(status) && Resolvable(row) then
      row.(terminal := status, active := false, resolvedAt := Coalesce(row.resolvedAt, Some(now)))
    else row
  }

  function TrackingRefreshed(k: Key, row: Row, now: int): Row {
    if !row.active && k.platform == "temu" && row.omsStatus == "outbound" then
      row.(pickup := Refresh(row.pickup, StartedAt(row.outboundAt, row.shippingAt), now))
    else row
  }

  function ProcessingStart(row: Row): int {
    Coalesce(row.processingSince, Coalesce(row.createdAt, Some(row.statusSince))).value
  }

  function ProblemCategory(row: Row, now: int): string {
    if row.omsStatus == "outbound" then "archived"
    else if row.pickup.category == "picked_up" then "platform_picked_up"
    else if row.omsStatus == "pending_query" then "pending_query"
    else if row.omsStatus == "query_error" then "sync_error"
    else if row.omsStatus in ["not_found", "exception", "unknown"] then "manual_required"
    else if row.omsStatus == "processing" && ProcessingStart(row) <= now - DAY then "warehouse_overdue"
    else "monitoring"
  }

  function CategoryRefreshed(row: Row, now: int): Row {
    if row.terminal == "" && (row.active || (row.omsStatus == "outbound" && row.category != "archived")
                              || (row.pickup.category == "picked_up" && row.category != "platform_picked_up")) then
      var archive := row.omsStatus == "outbound" || row.pickup.category == "picked_up";
      row.(category := ProblemCategory(row, now),
           active := row.active && !archive,
           resolvedAt := if archive then Coalesce(row.resolvedAt, Some(now)) else row.resolvedAt)
    else row
  }

  // ---- One shop's snapshot ----------------------------------------------------------------

  function OrderNos(items: seq<Item>): (r: seq<string>)
    ensures |r| == |items| && forall i :: 0 <= i < |items| ==> r[i] == items[i].orderNo
  {
    seq(|items|, i requires 0 <= i < |items| => items[i].orderNo)
  }

  // The first item of every order number.
  function Cleaned(items: seq<Item>): seq<Item> {
    if items == [] then [] else
      var rest, last := Cleaned(items[..|items| - 1]), items[|items| - 1];
      if last.orderNo in OrderNos(rest) then rest else rest + [last]
  }

  function UpsertAll(rows: Table, platform: string, shop: string, items: seq<Item>, now: int): Table {
    if items == [] then rows
    else Upsert(UpsertAll(rows, platform, shop, items[..|items| - 1], now), platform, shop, items[|items| - 1], now)
  }

  function Snapshot(rows: Table, platform: string, shop: string, items: seq<Item>, now: int): Table {
    var cleaned := Cleaned(items);
    Sweep(UpsertAll(rows, platform, shop, cleaned, now), platform, shop, OrderNos(cleaned), now)
  }

  predicate ValidSnapshot(platform: string, shop: string, items: seq<Item>) {
    platform != "" && shop != "" && |items| <= MAX_SNAPSHOT && forall i :: 0 <= i < |items| ==> items[i].orderNo != ""
  }

  // The form platforms and shop codes are stored in.
  function Folded(s: string): string {
    Text.ToLower(Text.TrimSpace(s))
  }

  function TrimmedItem(item: Item): Item {
    Item(Text.TrimSpace(item.orderNo), Text.TrimSpace(item.warehouseKey), Text.Normalize(item.code),
         Text.TrimSpace(item.trackingNumber), item.shippingAt)
  }

  function Trimmed(items: seq<Item>): (r: seq<Item>)
    ensures |r| == |items|
  {
    seq(|items|, i requires 0 <= i < |items| => TrimmedItem(items[i]))
  }

  method CleanItems(items: seq<Item>) returns (cleaned: Option<seq<Item>>)
    ensures cleaned.Some? <==> forall i :: 0 <= i < |items| ==> Trimmed(items)[i].orderNo != ""
    ensures cleaned.Some? ==> cleaned.value == Cleaned(Trimmed(items))
  {
    hide OrderNos, TrimmedItem;
    var kept: seq<Item>, seen: set<string> := [], {};
    ghost var all := Trimmed(items);
    for i := 0 to |items|
      invariant forall k :: 0 <= k < i ==> all[k].orderNo != ""
      invariant kept == Cleaned(all[..i])
      invariant forall n :: n in seen <==> n in OrderNos(kept)
    {
      assert all[..i + 1][..i] == all[..i];
      var item := TrimmedItem(items[i]);
      assert all[i] == item;
      if item.orderNo == "" {
        assert Trimmed(items)[i].orderNo == "";
        return None;
      }
      if item.orderNo !in seen {
        MoreOrderNos(kept, item);
        seen := seen + {item.orderNo};
        kept := kept + [item];
      }
    }
    assert all[..|items|] == all;
    return Some(kept);
  }

  lemma MoreOrderNos(items: seq<Item>, item: Item)
    ensures OrderNos(items + [item]) == OrderNos(items) + [item.orderNo]
  {
  }

  class AuditStore {
    var rows: Table

    constructor ()
      ensures rows == map[]
    {
      rows := map[];
    }

    // An invalid snapshot changes nothing.
    method ReplaceSnapshot(platformName: string, shopCode: string, items: seq<Item>, now: int)
        returns (count: Option<nat>)
      modifies this
      ensures var platform, shop := Folded(platformName), Folded(shopCode);
              count.Some? <==> ValidSnapshot(platform, shop, Trimmed(items))
      ensures count.None? ==> rows == old(rows)
      ensures count.Some? ==>
        && count.value == |Cleaned(Trimmed(items))|
        && rows == Snapshot(old(rows), Folded(platformName), Folded(shopCode), Trimmed(items), now)
    {
      hide Upsert, Sweep, Cleaned, OrderNos, Trimmed, Folded;
      var platform, shop := Folded(platformName), Folded(shopCode);
      if platform == "" || shop == "" || |items| > MAX_SNAPSHOT {
        return None;
      }
      var cleaned := CleanItems(items);
      if cleaned.None? {
        return None;
      }
      for i := 0 to |cleaned.value|
        invariant rows == UpsertAll(old(rows), platform, shop, cleaned.value[..i], now)
      {
        assert cleaned.value[..i + 1][..i] == cleaned.value[..i];
        rows := Upsert(rows, platform, shop, cleaned.value[i], now);
      }
      assert cleaned.value[..|cleaned.value|] == cleaned.value;
      rows := Sweep(rows, platform, shop, OrderNos(cleaned.value), now);
      count := Some(|cleaned.value|);
    }

    method ResolveManually(key: Key, terminalStatus: string, terminalNote: string, now: int) returns (ok: bool)
      modifies this
      ensures var status := Text.TrimSpace(terminalStatus);
              && (ok <==> ValidTerminal(status) && ValidNote(Text.TrimSpace(terminalNote))
                          && key in old(rows) && Resolvable(old(rows)[key]))
              && rows == if ok then old(rows)[key := ResolvedManually(old(rows)[key], status, now)] else old(rows)
    {
      hide Text.TrimSpace;
      var status, note := Text.TrimSpace(terminalStatus), Text.TrimSpace(terminalNote);
      if !ValidTerminal(status) || note == "" || |note| > MAX_NOTE {
        return false;
      }
      ok := false;
      if key in rows && Resolvable(rows[key]) {
        rows := rows[key := ResolvedManually(rows[key], status, now)];
        ok := true;
      }
    }
  }
}

// What the seven writers keep, whatever the order and interleaving of their statements.
module AuditLifecycle {
  import opened PickupClassifier
  import opened Wrappers
  import opened FulfillmentAudits

  datatype Statement =
    | UpsertItem(platform: string, shop: string, item: Item)
    | SweepShop(platform: string, shop: string, orderNos: seq<string>)
    | Oms(key: Key, oms: OmsResolution)
    | Track(key: Key, pickup: Pickup)
    | Manual(key: Key, status: string)
    | RefreshTracking
    | RefreshCategories

  function Execute(rows: Table, s: Statement, now: int): Table {
    match s
    case UpsertItem(platform, shop, item) => Upsert(rows, platform, shop, item, now)
    case SweepShop(platform, shop, orderNos) => Sweep(rows, platform, shop, orderNos, now)
    case Oms(key, r) => if key in rows then rows[key := ResolvedByOms(rows[key], r, now)] else rows
    case Track(key, p) => if key in rows then rows[key := ResolvedByTracking(rows[key], p, now)] else rows
    case Manual(key, status) => if key in rows then rows[key := ResolvedManually(rows[key], status, now)] else rows
    case RefreshTracking => map k | k in rows :: TrackingRefreshed(k, rows[k], now)
    case RefreshCategories => map k | k in rows :: CategoryRefreshed(rows[k], now)
  }

  datatype Timed = Timed(statement: Statement, now: int)

  function Run(rows: Table, log: seq<Timed>): Table {
    if log == [] then rows else Execute(Run(rows, log[..|log| - 1]), log[|log| - 1].statement, log[|log| - 1].now)
  }

  // ---- Row invariant ----------------------------------------------------------------------

  predicate Consistent(row: Row) {
    && (row.active <==> row.resolvedAt.None?)
    && (row.active ==> row.terminal == "" && row.omsStatus != "outbound" && row.pickup.category != "picked_up")
    && (row.omsStatus == "outbound" ==> row.category == "archived" && row.terminal == "")
  }

  predicate AllConsistent(rows: Table) {
    forall k :: k in rows ==> Consistent(rows[k])
  }

  // A statement either leaves a row out or rewrites it as one of the row functions.
  lemma StatementKeepsRow(rows: Table, s: Statement, now: int, k: Key)
    requires k in rows && Consistent(rows[k])
    ensures k in Execute(rows, s, now) && Consistent(Execute(rows, s, now)[k])
    ensures rows[k].terminal != "" ==> Execute(rows, s, now)[k].terminal == rows[k].terminal
  {
  }

  lemma StatementKeepsConsistent(rows: Table, s: Statement, now: int)
    requires AllConsistent(rows)
    ensures AllConsistent(Execute(rows, s, now))
  {
    hide Consistent, UpdatedRow;
    forall k | k in Execute(rows, s, now) ensures Consistent(Execute(rows, s, now)[k]) {
      if k in rows {
        StatementKeepsRow(rows, s, now, k);
      } else {
        InsertedConsistent(s.item, now);
      }
    }
  }

  lemma InsertedConsistent(item: Item, now: int)
    ensures Consistent(InsertedRow(item, now))
  {
  }

  lemma {:induction false} RunKeepsConsistent(rows: Table, log: seq<Timed>)
    requires AllConsistent(rows)
    ensures AllConsistent(Run(rows, log))
  {
    hide AllConsistent, Execute;
    if log != [] {
      var n := |log| - 1;
      RunKeepsConsistent(rows, log[..n]);
      StatementKeepsConsistent(Run(rows, log[..n]), log[n].statement, log[n].now);
    }
  }

  // Every row of every reachable table.
  lemma LifecycleInvariant(log: seq<Timed>, k: Key)
    requires k in Run(map[], log)
    ensures var row := Run(map[], log)[k];
            && (row.active <==> row.resolvedAt.None?)
            && (row.active ==> row.terminal == "" && row.omsStatus != "outbound" && row.pickup.category != "picked_up")
            && (row.omsStatus == "outbound" ==> row.category == "archived" && row.terminal == "")
  {
    RunKeepsConsistent(map[], log);
  }

  // Once terminal, a row keeps its status for good and is never active again.
  lemma {:induction false} TerminalForever(rows: Table, log: seq<Timed>, k: Key)
    requires AllConsistent(rows) && k in rows && rows[k].terminal != ""
    ensures k in Run(rows, log) && Run(rows, log)[k].terminal == rows[k].terminal && !Run(rows, log)[k].active
  {
    hide Execute;
    if log != [] {
      var n := |log| - 1;
      TerminalForever(rows, log[..n], k);
      RunKeepsConsistent(rows, log[..n]);
      StatementKeepsRow(Run(rows, log[..n]), log[n].statement, log[n].now, k);
    }
  }

  // ---- After a snapshot -------------------------------------------------------------------

  lemma {:induction false} CleanedDistinct(items: seq<Item>)
    ensures forall i, j :: 0 <= i < j < |Cleaned(items)| ==> Cleaned(items)[i].orderNo != Cleaned(items)[j].orderNo
    ensures forall n :: n in OrderNos(Cleaned(items)) <==> n in OrderNos(items)
  {
    if items != [] {
      var n := |items| - 1;
      CleanedDistinct(items[..n]);
      assert OrderNos(items) == OrderNos(items[..n]) + [items[n].orderNo];
      var rest := Cleaned(items[..n]);
      if items[n].orderNo !in OrderNos(rest) {
        assert OrderNos(rest + [items[n]]) == OrderNos(rest) + [items[n].orderNo];
        forall i | 0 <= i < |rest| ensures rest[i].orderNo != items[n].orderNo {
          assert OrderNos(rest)[i] in OrderNos(rest);
        }
      }
    }
  }

  predicate Touches(item: Item, platform: string, shop: string, k: Key) {
    k == Key(platform, shop, item.orderNo)
  }

  function UpsertedRow(rows: Table, k: Key, item: Item, now: int): Row {
    if k in rows then UpdatedRow(rows[k], item, now) else InsertedRow(item, now)
  }

  // Each listed order is upserted from its own item; every other row is untouched.
  lemma {:induction false} UpsertAllAt(rows: Table, platform: string, shop: string, items: seq<Item>, now: int, k: Key)
    requires forall i, j :: 0 <= i < j < |items| ==> items[i].orderNo != items[j].orderNo
    ensures forall i :: 0 <= i < |items| && Touches(items[i], platform, shop, k) ==>
      k in UpsertAll(rows, platform, shop, items, now)
        && UpsertAll(rows, platform, shop, items, now)[k] == UpsertedRow(rows, k, items[i], now)
    ensures (forall i :: 0 <= i < |items| ==> !Touches(items[i], platform, shop, k)) ==>
      (k in UpsertAll(rows, platform, shop, items, now) <==> k in rows)
      && (k in rows ==> UpsertAll(rows, platform, shop, items, now)[k] == rows[k])
  {
    hide UpdatedRow, InsertedRow;
    if items != [] {
      var n := |items| - 1;
      UpsertAllAt(rows, platform, shop, items[..n], now, k);
      assert forall i :: 0 <= i < n ==> items[..n][i] == items[i];
    }
  }

  predicate Listed(platform: string, shop: string, items: seq<Item>, k: Key) {
    k.platform == platform && k.shop == shop && k.orderNo in OrderNos(items)
  }

  // What a snapshot does to one row: upserted from the returned item when listed, else swept or kept.
  lemma SnapshotAt(rows: Table, platform: string, shop: string, items: seq<Item>, now: int, k: Key) returns (i: nat)
    ensures var after := Snapshot(rows, platform, shop, items, now);
            if Listed(platform, shop, items, k) then
              && i < |Cleaned(items)| && Cleaned(items)[i].orderNo == k.orderNo
              && k in after && after[k] == UpsertedRow(rows, k, Cleaned(items)[i], now)
            else
              && (k in after <==> k in rows)
              && (k in rows ==>
                    after[k] == if k.platform == platform && k.shop == shop && rows[k].active
                                then Retired(rows[k], now) else rows[k])
  {
    hide UpsertedRow, UpsertAll, Cleaned;
    CleanedDistinct(items);
    var cleaned := Cleaned(items);
    UpsertAllAt(rows, platform, shop, cleaned, now, k);
    if Listed(platform, shop, items, k) {
      assert k.orderNo in OrderNos(cleaned);
      i :| 0 <= i < |cleaned| && OrderNos(cleaned)[i] == k.orderNo;
      assert Touches(cleaned[i], platform, shop, k);
    } else {
      i := 0;
      forall j | 0 <= j < |cleaned| ensures !Touches(cleaned[j], platform, shop, k) {
        assert OrderNos(cleaned)[j] in OrderNos(cleaned);
      }
    }
  }

  // After a shop's snapshot its active rows are exactly the listed orders that are neither terminal,
  // outbound nor picked up; no other shop's row moves.
  lemma SnapshotDecidesActive(rows: Table, platform: string, shop: string, items: seq<Item>, now: int, k: Key)
    requires AllConsistent(rows)
    ensures var after := Snapshot(rows, platform, shop, items, now);
            if k.platform == platform && k.shop == shop then
              && (k.orderNo in OrderNos(items) ==> k in after)
              && (k in after ==>
                   (after[k].active <==> k.orderNo in OrderNos(items) && after[k].terminal == ""
                                         && after[k].omsStatus != "outbound"
                                         && after[k].pickup.category != "picked_up"))
            else
              (k in after <==> k in rows) && (k in rows ==> after[k] == rows[k])
  {
    hide Snapshot, Cleaned, OrderNos;
    var i := SnapshotAt(rows, platform, shop, items, now, k);
  }

  lemma UpdateTwice(row: Row, item: Item, t1: int, t2: int)
    requires Consistent(row)
    ensures UpdatedRow(UpdatedRow(row, item, t1), item, t2) == UpdatedRow(row, item, t1)
  {
  }

  lemma InsertThenUpdate(item: Item, t1: int, t2: int)
    ensures UpdatedRow(InsertedRow(item, t1), item, t2) == InsertedRow(item, t1)
  {
  }

  // Applying the same snapshot again, at any later time, changes nothing.
  lemma SnapshotIdempotent(rows: Table, platform: string, shop: string, items: seq<Item>, t1: int, t2: int)
    requires AllConsistent(rows)
    ensures var once := Snapshot(rows, platform, shop, items, t1);
            Snapshot(once, platform, shop, items, t2) == once
  {
    hide Snapshot, Cleaned, UpdatedRow, InsertedRow, Consistent, Listed;
    var once := Snapshot(rows, platform, shop, items, t1);
    var twice := Snapshot(once, platform, shop, items, t2);
    CleanedDistinct(items);
    forall k ensures (k in twice <==> k in once) && (k in once ==> twice[k] == once[k]) {
      var i := SnapshotAt(rows, platform, shop, items, t1, k);
      var j := SnapshotAt(once, platform, shop, items, t2, k);
      if Listed(platform, shop, items, k) {
        assert i == j;
        if k in rows {
          UpdateTwice(rows[k], Cleaned(items)[i], t1, t2);
        } else {
          InsertThenUpdate(Cleaned(items)[i], t1, t2);
        }
      }
    }
    assert twice == once;
  }

  // A snapshot is a run of its statements, so the lifecycle invariants cover it.
  function SnapshotLog(platform: string, shop: string, items: seq<Item>, now: int): seq<Timed> {
    if items == [] then [] else
      SnapshotLog(platform, shop, items[..|items| - 1], now)
        + [Timed(UpsertItem(platform, shop, items[|items| - 1]), now)]
  }

  lemma {:induction false} UpsertsAreRun(rows: Table, platform: string, shop: string, items: seq<Item>, now: int)
    ensures Run(rows, SnapshotLog(platform, shop, items, now)) == UpsertAll(rows, platform, shop, items, now)
  {
    hide Execute, Upsert;
    if items != [] {
      var n := |items| - 1;
      var log := SnapshotLog(platform, shop, items, now);
      UpsertsAreRun(rows, platform, shop, items[..n], now);
      assert log[..|log| - 1] == SnapshotLog(platform, shop, items[..n], now);
      ExecuteUpsert(Run(rows, log[..|log| - 1]), platform, shop, items[n], now);
    }
  }

  lemma ExecuteUpsert(rows: Table, platform: string, shop: string, item: Item, now: int)
    ensures Execute(rows, UpsertItem(platform, shop, item), now) == Upsert(rows, platform, shop, item, now)
  {
  }

  lemma SnapshotKeepsConsistent(rows: Table, platform: string, shop: string, items: seq<Item>, now: int)
    requires AllConsistent(rows)
    ensures AllConsistent(Snapshot(rows, platform, shop, items, now))
  {
    hide AllConsistent, UpsertAll, Sweep;
    var cleaned := Cleaned(items);
    UpsertsAreRun(rows, platform, shop, cleaned, now);
    RunKeepsConsistent(rows, SnapshotLog(platform, shop, cleaned, now));
    StatementKeepsConsistent(UpsertAll(rows, platform, shop, cleaned, now),
                             SweepShop(platform, shop, OrderNos(cleaned)), now);
  }

  // ---- Pickup columns through the table ---------------------------------------------------

  // Store a Go classification on an outbound row, then refresh in SQL at any time: the row reads as
  // if Go had classified it then.
  lemma RefreshMatchesGo(k: Key, row: Row, item: Pickup, parcels: seq<Parcel>, t1: int, t2: int, t3: int,
      first: Pickup, second: Pickup)
    requires Consistent(row) && k.platform == "temu" && row.omsStatus == "outbound"
    requires IsResolution(item, Fetched(parcels), StartedAt(row.outboundAt, row.shippingAt), t1, first)
    requires IsResolution(item, Fetched(parcels), StartedAt(row.outboundAt, row.shippingAt), t3, second)
    ensures var stored := TrackingRefreshed(k, ResolvedByTracking(row, first, t2), t3);
            stored.pickup.category == second.category && stored.pickup.reason == second.reason
            && stored == row.(pickup := stored.pickup)
  {
    hide IsResolution, SqlClassify;
    var started := StartedAt(row.outboundAt, row.shippingAt);
    StoredReasonLosesNothing(item, parcels, started, t1, [], t3, first, second);
    assert [] + [t3] == [t3] && [t3][..0] == [];
    assert RefreshAll(first, started, [t3]) == Refresh(RefreshAll(first, started, []), started, t3);
  }
}
