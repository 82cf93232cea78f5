// The inventory reservation protocol: interleaved Reserve and Release transactions over one row
// table, each statement an atomic read-committed step. A transaction's writes stay private until it
// commits, keep their rows locked against other writers, and vanish when it aborts; advisory locks
// are exclusive and held to the end. Every transaction brings its own clock reading, in any order.

module Reservation {
  import opened ReservationLocks
  import Text
  import FiniteSum

  datatype Key = Key(order: OrderId, sku: string)
  datatype Status = Active | Released | Expired
  datatype Row = Row(warehouseKey: string, code: string, quantity: nat, observed: int, status: Status, expiresAt: int)
  type Table = map<Key, Row>

  datatype Item = Item(sku: string, quantity: nat, observed: int)
  datatype Request = Request(order: OrderId, warehouseKey: string, code: string, items: seq<Item>)

  datatype Pc =
    | Begun
    | OrderLocked
    | OwnExpired
    | Locking(i: nat)      // resources before i are locked and expired
    | Locked(i: nat)       // resource i is locked as well
    | Extending
    | Extended
    | Checking(j: nat)     // items before j fit
    | Writing(j: nat)      // own rows released, items before j written
    | ReleaseDone

  datatype Work = Reserve(request: Request, now: int) | Release(orderOnly: OrderId) {
    function Order(): OrderId {
      if Reserve? then request.order else orderOnly
    }
  }

  datatype Tx = Tx(work: Work, pc: Pc, locks: set<string>, writes: Table, resources: seq<Resource>, seen: set<Key>)

  type TxId = nat
  // `bound` is a ghost: what the last reservation created on a resource observed as available.
  datatype State = State(rows: Table, bound: map<Resource, int>, txs: map<TxId, Tx>)

  const TTL := 86_400

  function View(rows: Table, tx: Tx): Table {
    rows + tx.writes
  }

  function ResourceOf(k: Key, row: Row): Resource {
    Resource(row.code, k.sku)
  }

  predicate ActiveAt(rows: Table, k: Key) {
    k in rows && rows[k].status == Active
  }

  predicate ActiveOn(rows: Table, k: Key, r: Resource) {
    ActiveAt(rows, k) && ResourceOf(k, rows[k]) == r
  }

  // ---- Quantities -------------------------------------------------------------------------

  ghost function Held(rows: Table, r: Resource): Key -> nat {
    k => if ActiveOn(rows, k, r) then rows[k].quantity else 0
  }

  ghost function ActiveQuantity(rows: Table, r: Resource): nat {
    FiniteSum.Sum(rows.Keys, Held(rows, r))
  }

  ghost function HeldByOthers(rows: Table, r: Resource, o: OrderId): Key -> nat {
    (k: Key) => if k.order != o && ActiveOn(rows, k, r) then rows[k].quantity else 0
  }

  ghost function UnexpiredByOthers(rows: Table, r: Resource, o: OrderId, now: int): Key -> nat {
    (k: Key) => if k.order != o && ActiveOn(rows, k, r) && rows[k].expiresAt > now then rows[k].quantity else 0
  }

  // The capacity statement: active, unexpired reservations of other orders.
  ghost function Reserved(rows: Table, r: Resource, o: OrderId, now: int): nat {
    FiniteSum.Sum(rows.Keys, UnexpiredByOthers(rows, r, o, now))
  }

  // ---- Statements -------------------------------------------------------------------------

  function Marked(view: Table, keys: set<Key>, status: Status): Table {
    map k | k in keys && k in view :: view[k].(status := status)
  }

  function ExpiredOfOrder(view: Table, o: OrderId, now: int): set<Key> {
    set k | k in view && k.order == o && view[k].status == Active && view[k].expiresAt <= now
  }

  function ExpiredOnResource(view: Table, r: Resource, now: int): set<Key> {
    set k | k in view && ActiveOn(view, k, r) && view[k].expiresAt <= now
  }

  function ActiveOfOrder(view: Table, o: OrderId): set<Key> {
    set k | k in view && k.order == o && view[k].status == Active
  }

  function UnexpiredOfOrder(view: Table, o: OrderId, now: int): set<Key> {
    set k | k in view && k.order == o && view[k].status == Active && view[k].expiresAt > now
  }

  function NewRow(request: Request, item: Item, now: int): Row {
    Row(request.warehouseKey, request.code, item.quantity, item.observed, Active, now + TTL)
  }

  function ItemKey(request: Request, j: nat): Key
    requires j < |request.items|
  {
    Key(request.order, request.items[j].sku)
  }

  function ItemResource(request: Request, j: nat): Resource
    requires j < |request.items|
  {
    Resource(request.code, request.items[j].sku)
  }

  // The existing rows are the requested ones: same keys, warehouse and quantities.
  predicate SameReservation(view: Table, request: Request, now: int) {
    && UnexpiredOfOrder(view, request.order, now) == (set j | 0 <= j < |request.items| :: ItemKey(request, j))
    && forall j {:trigger ItemKey(request, j)} :: 0 <= j < |request.items| && ItemKey(request, j) in view ==>
         var row := view[ItemKey(request, j)];
         && row.warehouseKey == request.warehouseKey && row.code == request.code
         && row.quantity == request.items[j].quantity
  }

  ghost predicate IsResourceList(list: seq<Resource>, view: Table, request: Request, now: int) {
    && (forall i, j :: 0 <= i < j < |list| ==> Text.Less(ResourceKey(list[i]), ResourceKey(list[j])))
    && (forall r :: r in list <==>
          || (exists j :: 0 <= j < |request.items| && ItemResource(request, j) == r)
          || (exists k :: k in UnexpiredOfOrder(view, request.order, now) && ResourceOf(k, view[k]) == r))
  }

  ghost predicate ValidRequest(request: Request) {
    && request.items != []
    && forall i, j :: 0 <= i < j < |request.items| ==> request.items[i].sku != request.items[j].sku
  }

  // ---- Steps ------------------------------------------------------------------------------

  datatype Action =
    | Begin(work: Work)
    | LockOrder
    | ExpireOwn
    | Scan(list: seq<Resource>)
    | LockResource
    | ExpireResource
    | Reread
    | Extend
    | Check
    | ReleaseOwn
    | Write
    | Commit
    | Abort

  ghost predicate LockFree(s: State, t: TxId, name: string) {
    forall u :: u in s.txs && u != t ==> name !in s.txs[u].locks
  }

  // No other open transaction has written these rows.
  ghost predicate RowsFree(s: State, t: TxId, keys: set<Key>) {
    forall u, k :: u in s.txs && u != t && k in keys ==> k !in s.txs[u].writes
  }

  ghost predicate Enabled(s: State, t: TxId, a: Action) {
    if a.Begin? then
      t !in s.txs && (a.work.Reserve? ==> ValidRequest(a.work.request))
    else if t !in s.txs then
      false
    else
      var tx := s.txs[t];
      var view, o := View(s.rows, tx), tx.work.Order();
      match a
      case Begin(_) => false
      case Abort => true
      case LockOrder => tx.pc == Begun && LockFree(s, t, OrderLock(o))
      case ExpireOwn => tx.work.Reserve? && tx.pc == OrderLocked && RowsFree(s, t, ExpiredOfOrder(view, o, tx.work.now))
      case Scan(list) =>
        tx.work.Reserve? && tx.pc == OwnExpired && IsResourceList(list, view, tx.work.request, tx.work.now)
      case LockResource =>
        && tx.work.Reserve? && tx.pc.Locking? && tx.pc.i < |tx.resources|
        && LockFree(s, t, ResourceLock(tx.resources[tx.pc.i]))
      case ExpireResource =>
        tx.work.Reserve? && tx.pc.Locked? && tx.pc.i < |tx.resources|
        && RowsFree(s, t, ExpiredOnResource(view, tx.resources[tx.pc.i], tx.work.now))
      case Reread => tx.work.Reserve? && tx.pc == Locking(|tx.resources|)
      case Extend => tx.work.Reserve? && tx.pc == Extending && RowsFree(s, t, ActiveOfOrder(view, o))
      case Check => tx.work.Reserve? && tx.pc.Checking? && tx.pc.j < |tx.work.request.items|
      case ReleaseOwn =>
        && (if tx.work.Reserve? then tx.pc == Checking(|tx.work.request.items|) else tx.pc == OrderLocked)
        && RowsFree(s, t, ActiveOfOrder(view, o))
      case Write =>
        tx.work.Reserve? && tx.pc.Writing? && tx.pc.j < |tx.work.request.items|
        && RowsFree(s, t, {ItemKey(tx.work.request, tx.pc.j)})
      case Commit =>
        || tx.pc == Extended || tx.pc == ReleaseDone
        || (tx.work.Reserve? && tx.pc == Writing(|tx.work.request.items|))
  }

  // The transaction after one of its statements.
  ghost function Advance(rows: Table, tx: Tx, a: Action): Tx
    requires a.ExpireOwn? || a.Scan? || a.Reread? || a.Extend? || a.Check? ==> tx.work.Reserve?
    requires a.LockResource? || a.ExpireResource? ==>
      tx.work.Reserve? && (tx.pc.Locking? || tx.pc.Locked?) && tx.pc.i < |tx.resources|
    requires a.Check? ==> tx.pc.Checking?
    requires a.Write? ==> tx.work.Reserve? && tx.pc.Writing? && tx.pc.j < |tx.work.request.items|
  {
    var view, o := View(rows, tx), tx.work.Order();
    match a
    case LockOrder => tx.(locks := tx.locks + {OrderLock(o)}, pc := OrderLocked)
    case ExpireOwn =>
      tx.(writes := tx.writes + Marked(view, ExpiredOfOrder(view, o, tx.work.now), Expired), pc := OwnExpired)
    case Scan(list) => tx.(resources := list, seen := UnexpiredOfOrder(view, o, tx.work.now), pc := Locking(0))
    case LockResource => tx.(locks := tx.locks + {ResourceLock(tx.resources[tx.pc.i])}, pc := Locked(tx.pc.i))
    case ExpireResource =>
      tx.(writes := tx.writes + Marked(view, ExpiredOnResource(view, tx.resources[tx.pc.i], tx.work.now), Expired),
          pc := Locking(tx.pc.i + 1))
    case Reread => tx.(pc := if SameReservation(view, tx.work.request, tx.work.now) then Extending else Checking(0))
    case Extend =>
      tx.(writes := tx.writes + map k | k in ActiveOfOrder(view, o) :: view[k].(expiresAt := tx.work.now + TTL),
        pc := Extended)
    case Check => tx.(pc := Checking(tx.pc.j + 1))
    case ReleaseOwn =>
      tx.(writes := tx.writes + Marked(view, ActiveOfOrder(view, o), Released),
          pc := if tx.work.Reserve? then Writing(0) else ReleaseDone)
    case Write =>
      var r := tx.work.request;
      tx.(writes := tx.writes[ItemKey(r, tx.pc.j) := NewRow(r, r.items[tx.pc.j], tx.work.now)],
        pc := Writing(tx.pc.j + 1))
    case _ => tx
  }

  // Does the capacity statement for item j leave room? Otherwise the transaction fails and rolls back.
  ghost predicate Fits(rows: Table, tx: Tx, j: nat)
    requires tx.work.Reserve? && j < |tx.work.request.items|
  {
    var r := tx.work.request;
    !(r.items[j].quantity > r.items[j].observed - Reserved(View(rows, tx), ItemResource(r, j), r.order, tx.work.now))
  }

  // The bounds after the first n upserts of a request.
  ghost function BoundsAfter(bound: map<Resource, int>, request: Request, n: nat): map<Resource, int>
    requires n <= |request.items|
  {
    if n == 0 then bound
    else BoundsAfter(bound, request, n - 1)[ItemResource(request, n - 1) := request.items[n - 1].observed]
  }

  ghost function NewBounds(bound: map<Resource, int>, tx: Tx): map<Resource, int> {
    if tx.work.Reserve? && tx.pc.Writing? then BoundsAfter(bound, tx.work.request, |tx.work.request.items|) else bound
  }

  ghost function Apply(s: State, t: TxId, a: Action): State
    requires Enabled(s, t, a)
  {
    match a
    case Begin(work) => s.(txs := s.txs[t := Tx(work, Begun, {}, map[], [], {})])
    case Abort => s.(txs := s.txs - {t})
    case Commit => State(View(s.rows, s.txs[t]), NewBounds(s.bound, s.txs[t]), s.txs - {t})
    case Check =>
      if Fits(s.rows, s.txs[t], s.txs[t].pc.j) then s.(txs := s.txs[t := Advance(s.rows, s.txs[t], a)])
      else s.(txs := s.txs - {t})
    case _ => s.(txs := s.txs[t := Advance(s.rows, s.txs[t], a)])
  }

  // ---- The invariant ----------------------------------------------------------------------

  ghost predicate WithinBounds(rows: Table, bound: map<Resource, int>) {
    forall r :: ActiveQuantity(rows, r) <= if r in bound then bound[r] else 0
  }

  // A transaction writes only rows its locks cover, and makes only its own order's rows active.
  ghost predicate WritesCovered(rows: Table, tx: Tx) {
    forall k :: k in tx.writes ==>
      && (k.order == tx.work.Order() ==> OrderLock(k.order) in tx.locks)
      && (k.order != tx.work.Order() ==>
            && tx.writes[k].status != Active
            && ResourceLock(ResourceOf(k, tx.writes[k])) in tx.locks
            && k in rows && rows[k].code == tx.writes[k].code)
      && (tx.writes[k].status == Active ==> ResourceLock(ResourceOf(k, tx.writes[k])) in tx.locks)
  }

  ghost predicate OwnUnexpired(view: Table, tx: Tx)
    requires tx.work.Reserve?
  {
    forall k :: ActiveAt(view, k) && k.order == tx.work.request.order ==> view[k].expiresAt > tx.work.now
  }

  // The resource list covers every active row of the order and every requested item.
  ghost predicate ResourcesCover(view: Table, tx: Tx)
    requires tx.work.Reserve?
  {
    && (forall i, j :: 0 <= i < j < |tx.resources| ==>
          Text.Less(ResourceKey(tx.resources[i]), ResourceKey(tx.resources[j])))
    && (forall k :: ActiveAt(view, k) && k.order == tx.work.request.order ==>
          ResourceOf(k, view[k]) in tx.resources && k in tx.seen)
    && (forall j :: 0 <= j < |tx.work.request.items| ==> ItemResource(tx.work.request, j) in tx.resources)
  }

  // The first n resources are locked and hold no expired active row.
  ghost predicate LockedPrefix(view: Table, tx: Tx, n: nat)
    requires tx.work.Reserve? && n <= |tx.resources|
  {
    forall i :: 0 <= i < n ==>
      && ResourceLock(tx.resources[i]) in tx.locks
      && forall k :: ActiveOn(view, k, tx.resources[i]) ==> view[k].expiresAt > tx.work.now
  }

  ghost predicate LockNames(tx: Tx, n: nat)
    requires n <= |tx.resources|
  {
    tx.locks == {OrderLock(tx.work.Order())} + set i | 0 <= i < n :: ResourceLock(tx.resources[i])
  }

  ghost function OthersQuantity(view: Table, r: Resource, o: OrderId): nat {
    FiniteSum.Sum(view.Keys, HeldByOthers(view, r, o))
  }

  ghost predicate ItemFits(view: Table, r: Request, j: nat)
    requires j < |r.items|
  {
    OthersQuantity(view, ItemResource(r, j), r.order) + r.items[j].quantity <= r.items[j].observed
  }

  ghost predicate AllFit(view: Table, r: Request, n: nat)
    requires n <= |r.items|
  {
    forall j :: 0 <= j < n ==> ItemFits(view, r, j)
  }

  // The order's active rows are exactly the first n items, as requested, valid for a full period.
  ghost predicate Granted(view: Table, r: Request, now: int, n: nat)
    requires n <= |r.items|
  {
    && (forall k :: ActiveAt(view, k) && k.order == r.order ==> exists j :: 0 <= j < n && k == ItemKey(r, j))
    && (forall j :: 0 <= j < n ==> ActiveAt(view, ItemKey(r, j)) && GrantedRow(view[ItemKey(r, j)], r, now, j))
  }

  ghost predicate GrantedRow(row: Row, r: Request, now: int, j: nat)
    requires j < |r.items|
  {
    && row.warehouseKey == r.warehouseKey && row.code == r.code && row.quantity == r.items[j].quantity
    && row.expiresAt == now + TTL
  }

  ghost predicate NoActiveWrites(tx: Tx) {
    forall k :: k in tx.writes ==> tx.writes[k].status != Active
  }

  ghost predicate OwnInWrites(view: Table, tx: Tx) {
    forall k :: ActiveAt(view, k) && k.order == tx.work.Order() ==> k in tx.writes
  }

  // Active writes only prolong rows that are already active.
  ghost predicate OnlyProlongs(rows: Table, tx: Tx) {
    forall k :: ActiveAt(tx.writes, k) ==>
      ActiveAt(rows, k) && rows[k].code == tx.writes[k].code && rows[k].quantity == tx.writes[k].quantity
  }

  ghost predicate TxInv(rows: Table, tx: Tx) {
    var view, o := View(rows, tx), tx.work.Order();
    && WritesCovered(rows, tx)
    && (tx.pc != Begun ==> OrderLock(o) in tx.locks)
    && (tx.work.Release? ==> NoActiveWrites(tx) && (tx.pc == Begun || tx.pc == OrderLocked || tx.pc == ReleaseDone))
    && (tx.pc == Begun ==> tx.writes == map[] && tx.locks == {})
    && (tx.pc == OrderLocked || tx.pc == OwnExpired ==> LockNames(tx, 0) || tx.work.Release?)
    && (tx.pc == ReleaseDone ==> tx.work.Release? && forall k :: ActiveAt(view, k) ==> k.order != o)
    && (tx.work.Reserve? ==>
        && ValidRequest(tx.work.request)
        && (match tx.pc
            case Begun => true
            case OrderLocked => NoActiveWrites(tx)
            case OwnExpired => NoActiveWrites(tx) && OwnUnexpired(view, tx)
            case Locking(i) =>
              && NoActiveWrites(tx) && OwnUnexpired(view, tx) && ResourcesCover(view, tx)
              && i <= |tx.resources| && LockedPrefix(view, tx, i) && LockNames(tx, i)
            case Locked(i) =>
              && NoActiveWrites(tx) && OwnUnexpired(view, tx) && ResourcesCover(view, tx)
              && i < |tx.resources| && LockedPrefix(view, tx, i) && LockNames(tx, i + 1)
            case Extending =>
              && NoActiveWrites(tx) && OwnUnexpired(view, tx) && ResourcesCover(view, tx)
              && LockedPrefix(view, tx, |tx.resources|) && SameReservation(view, tx.work.request, tx.work.now)
            case Extended =>
              && OwnInWrites(view, tx) && OnlyProlongs(rows, tx)
              && Granted(view, tx.work.request, tx.work.now, |tx.work.request.items|)
            case Checking(j) =>
              && NoActiveWrites(tx) && OwnUnexpired(view, tx) && ResourcesCover(view, tx)
              && LockedPrefix(view, tx, |tx.resources|) && j <= |tx.work.request.items|
              && AllFit(view, tx.work.request, j)
            case Writing(j) =>
              && j <= |tx.work.request.items| && AllFit(view, tx.work.request, |tx.work.request.items|)
              && (forall m :: 0 <= m < |tx.work.request.items| ==>
                    ResourceLock(ItemResource(tx.work.request, m)) in tx.locks)
              && Granted(view, tx.work.request, tx.work.now, j) && OwnInWrites(view, tx)
            case ReleaseDone => false))
  }

  ghost predicate Exclusive(txs: map<TxId, Tx>) {
    forall t, u :: t in txs && u in txs && t != u ==>
      txs[t].locks !! txs[u].locks && txs[t].writes.Keys !! txs[u].writes.Keys
  }

  ghost predicate Inv(s: State) {
    && WithinBounds(s.rows, s.bound)
    && Exclusive(s.txs)
    && forall t :: t in s.txs ==> TxInv(s.rows, s.txs[t])
  }
}
