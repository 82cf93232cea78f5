// When reservation calls can get stuck waiting for each other: exactly when a reservation may expire
// while calls still come in, or when two resources can share a lock name.

module ReservationCircles {
  import opened Reservation
  import opened ReservationLocks
  import opened ReservationSafety
  import opened ReservationDeadlock
  import opened ReservationRequest
  import opened ReservationCalls
  import opened Wrappers
  import ShopIdentity
  import Text

  // ---- Reachable states -------------------------------------------------------------------

  // Every Reserve is a receivable call that reads one of these clocks.
  ghost predicate Admitted(a: Action, reg: Registry, clocks: set<int>) {
    a.Begin? && a.work.Reserve? ==> a.work.now in clocks && Receivable(a.work.request, a.work.now, reg)
  }

  ghost predicate AllAdmitted(moves: seq<Move>, reg: Registry, clocks: set<int>) {
    forall i :: 0 <= i < |moves| ==> Admitted(moves[i].action, reg, clocks)
  }

  lemma AdmittedNames(moves: seq<Move>, reg: Registry, clocks: set<int>)
    requires AllAdmitted(moves, reg, clocks)
    ensures CallsIn(moves, Nameable(CodesOf(reg.places)))
  {
    hide Receivable, Nameable;
    forall i | 0 <= i < |moves| ensures CallIn(moves[i].action, Nameable(CodesOf(reg.places))) {
      var a := moves[i].action;
      assert Admitted(a, reg, clocks);
      if a.Begin? && a.work.Reserve? {
        ReceivableSkus(a.work.request, a.work.now, reg);
      }
    }
  }

  lemma KnownRowsIn(rows: Table, reg: Registry)
    requires KnownRows(rows, reg)
    ensures RowsIn(rows, Nameable(CodesOf(reg.places)))
  {
    forall k | ActiveAt(rows, k) ensures rows[k].code in CodesOf(reg.places) {
      assert KnownRow(k, rows[k], reg);
      assert Place(rows[k].warehouseKey, rows[k].code) in reg.places;
    }
  }

  // Some legal run of admitted calls leads from one state to the other.
  ghost predicate Reaches(s: State, s': State, reg: Registry, clocks: set<int>) {
    exists moves :: Legal(s, moves) && AllAdmitted(moves, reg, clocks) && Run(s, moves) == s'
  }

  lemma ReachesSelf(s: State, reg: Registry, clocks: set<int>)
    ensures Reaches(s, s, reg, clocks)
  {
    assert Legal(s, []) && AllAdmitted([], reg, clocks) && Run(s, []) == s;
  }

  lemma {:induction false} RunOneMore(s: State, moves: seq<Move>, t: TxId, a: Action)
    requires Legal(s, moves) && Enabled(Run(s, moves), t, a)
    ensures Legal(s, moves + [Move(t, a)]) && Run(s, moves + [Move(t, a)]) == Apply(Run(s, moves), t, a)
    decreases |moves|
  {
    hide Enabled, Apply;
    var longer := moves + [Move(t, a)];
    if moves == [] {
      assert longer[0] == Move(t, a) && longer[1..] == [];
    } else {
      assert longer[0] == moves[0] && longer[1..] == moves[1..] + [Move(t, a)];
      RunOneMore(Apply(s, moves[0].t, moves[0].action), moves[1..], t, a);
    }
  }

  lemma ReachesNext(s0: State, s: State, t: TxId, a: Action, reg: Registry, clocks: set<int>) returns (s': State)
    requires Reaches(s0, s, reg, clocks) && Enabled(s, t, a) && Admitted(a, reg, clocks)
    ensures s' == Apply(s, t, a) && Reaches(s0, s', reg, clocks)
  {
    hide Enabled, Apply, Admitted;
    var moves :| Legal(s0, moves) && AllAdmitted(moves, reg, clocks) && Run(s0, moves) == s;
    RunOneMore(s0, moves, t, a);
    s' := Apply(s, t, a);
    assert AllAdmitted(moves + [Move(t, a)], reg, clocks);
  }

  // ---- The steps of a call ----------------------------------------------------------------

  ghost predicate Admissible(w: Work, reg: Registry, clocks: set<int>) {
    w.Reserve? && ValidRequest(w.request) && Receivable(w.request, w.now, reg) && w.now in clocks
  }

  lemma CallAdmissible(o: OrderId, p: Place, skus: seq<string>, observed: int, now: int, reg: Registry,
      clocks: set<int>)
    requires WellKept(reg) && KnownOrder(o, reg) && p in reg.places && CallableSkus(skus) && 0 <= observed
    requires now in clocks
    ensures Admissible(Call(o, p, skus, observed, now), reg, clocks)
  {
    hide WellKept, KnownOrder, CallableSkus, ValidRequest, Receivable, Call;
    CallIs(o, p, skus, observed, now);
    CallReceived(o, p, skus, observed, now, reg);
    ReceivableSkus(Call(o, p, skus, observed, now).request, now, reg);
  }

  lemma CallIs(o: OrderId, p: Place, skus: seq<string>, observed: int, now: int)
    ensures var w := Call(o, p, skus, observed, now); w.Reserve? && w.now == now
  {
  }

  // The state in which one transaction has changed.
  ghost function With(s: State, t: TxId, tx: Tx): State {
    s.(txs := s.txs[t := tx])
  }

  lemma Begins(s0: State, s: State, t: TxId, w: Work, reg: Registry, clocks: set<int>) returns (s': State)
    requires Reaches(s0, s, reg, clocks) && t !in s.txs && Admissible(w, reg, clocks)
    ensures Reaches(s0, s', reg, clocks) && s' == With(s, t, Tx(w, Begun, {}, map[], [], {}))
  {
    hide Reaches, ValidRequest, Receivable;
    s' := ReachesNext(s0, s, t, Begin(w), reg, clocks);
  }

  lemma OrderIsLocked(s0: State, s: State, t: TxId, w: Work, reg: Registry, clocks: set<int>) returns (s': State)
    requires Reaches(s0, s, reg, clocks) && t !in s.txs && w.Reserve? && Admissible(w, reg, clocks)
    requires LockFree(s, t, OrderLock(w.request.order))
    ensures Reaches(s0, s', reg, clocks)
    ensures s' == With(s, t, Tx(w, OrderLocked, {OrderLock(w.request.order)}, map[], [], {}))
  {
    hide Reaches, OrderLock, Admissible, View;
    var s1 := Begins(s0, s, t, w, reg, clocks);
    assert LockFree(s1, t, OrderLock(w.request.order));
    s' := ReachesNext(s0, s1, t, LockOrder, reg, clocks);
    assert s'.txs[t] == Tx(w, OrderLocked, {OrderLock(w.request.order)}, map[], [], {});
  }

  lemma OwnRowsExpired(s0: State, s: State, t: TxId, reg: Registry, clocks: set<int>) returns (s': State)
    requires Reaches(s0, s, reg, clocks) && t in s.txs && s.txs[t].work.Reserve? && s.txs[t].pc == OrderLocked
    requires s.txs[t].writes == map[] && forall u :: u in s.txs ==> s.txs[u].writes == map[]
    ensures Reaches(s0, s', reg, clocks)
    ensures var tx, now := s.txs[t], s.txs[t].work.now;
            s' == With(s, t, tx.(pc := OwnExpired,
                                 writes := Marked(s.rows, ExpiredOfOrder(s.rows, tx.work.request.order, now), Expired)))
  {
    hide Reaches, OrderLock, ExpiredOfOrder, Marked;
    var tx := s.txs[t];
    assert View(s.rows, tx) == s.rows;
    s' := ReachesNext(s0, s, t, ExpireOwn, reg, clocks);
    var marked := Marked(s.rows, ExpiredOfOrder(s.rows, tx.work.request.order, tx.work.now), Expired);
    assert map[] + marked == marked;
  }

  lemma ListIsScanned(s0: State, s: State, t: TxId, list: seq<Resource>, reg: Registry, clocks: set<int>)
      returns (s': State)
    requires Reaches(s0, s, reg, clocks) && t in s.txs && s.txs[t].work.Reserve? && s.txs[t].pc == OwnExpired
    requires IsResourceList(list, View(s.rows, s.txs[t]), s.txs[t].work.request, s.txs[t].work.now)
    ensures Reaches(s0, s', reg, clocks)
    ensures exists seen :: s' == With(s, t, s.txs[t].(pc := Locking(0), resources := list, seen := seen))
  {
    hide Reaches, View, IsResourceList, UnexpiredOfOrder;
    s' := ReachesNext(s0, s, t, Scan(list), reg, clocks);
  }

  lemma ResourceIsLocked(s0: State, s: State, t: TxId, reg: Registry, clocks: set<int>) returns (s': State)
    requires Reaches(s0, s, reg, clocks) && t in s.txs && WantsResource(s.txs[t])
    requires LockFree(s, t, ResourceLock(s.txs[t].resources[s.txs[t].pc.i]))
    ensures Reaches(s0, s', reg, clocks)
    ensures var tx := s.txs[t];
            s' == With(s, t, tx.(pc := Locked(tx.pc.i), locks := tx.locks + {ResourceLock(tx.resources[tx.pc.i])}))
  {
    hide Reaches, View, ResourceLock;
    s' := ReachesNext(s0, s, t, LockResource, reg, clocks);
  }

  // The transaction waits at its first resource, which it has locked, and has written nothing.
  ghost predicate AtFirst(tx: Tx, w: Work, list: seq<Resource>) {
    && w.Reserve? && list != [] && tx.work == w && tx.pc == Locked(0) && tx.resources == list && tx.writes == map[]
    && tx.locks == {OrderLock(w.request.order), ResourceLock(list[0])}
  }

  // It has read its rows and is about to take its first resource.
  ghost predicate BeforeFirst(tx: Tx, w: Work, list: seq<Resource>) {
    && w.Reserve? && tx.work == w && tx.pc == Locking(0) && tx.resources == list && tx.writes == map[]
    && tx.locks == {OrderLock(w.request.order)}
  }

  // A call without expired rows begins and reads its rows.
  lemma ReadsRows(s0: State, s: State, t: TxId, w: Work, list: seq<Resource>, reg: Registry, clocks: set<int>)
      returns (s': State)
    requires Reaches(s0, s, reg, clocks) && t !in s.txs && Admissible(w, reg, clocks)
    requires forall u :: u in s.txs ==> s.txs[u].writes == map[]
    requires ExpiredOfOrder(s.rows, w.request.order, w.now) == {} && IsResourceList(list, s.rows, w.request, w.now)
    requires LockFree(s, t, OrderLock(w.request.order))
    ensures Reaches(s0, s', reg, clocks)
    ensures t in s'.txs && s' == With(s, t, s'.txs[t]) && BeforeFirst(s'.txs[t], w, list)
  {
    hide Reaches, OrderLock, IsResourceList, ExpiredOfOrder, ValidRequest, Receivable, Marked, View;
    var s1 := OrderIsLocked(s0, s, t, w, reg, clocks);
    var s2 := OwnRowsExpired(s0, s1, t, reg, clocks);
    MarksNothing(s.rows, Expired);
    ViewUnwritten(s.rows, s2.txs[t]);
    s' := ListIsScanned(s0, s2, t, list, reg, clocks);
  }

  lemma ViewUnwritten(rows: Table, tx: Tx)
    requires tx.writes == map[]
    ensures View(rows, tx) == rows
  {
  }

  lemma MarksNothing(view: Table, status: Status)
    ensures Marked(view, {}, status) == map[]
  {
  }

  // And then locks its first resource.
  lemma LocksFirst(s0: State, s: State, t: TxId, w: Work, list: seq<Resource>, reg: Registry, clocks: set<int>)
      returns (s': State)
    requires Reaches(s0, s, reg, clocks) && t !in s.txs && Admissible(w, reg, clocks)
    requires forall u :: u in s.txs ==> s.txs[u].writes == map[]
    requires ExpiredOfOrder(s.rows, w.request.order, w.now) == {}
    requires IsResourceList(list, s.rows, w.request, w.now) && list != []
    requires LockFree(s, t, OrderLock(w.request.order)) && LockFree(s, t, ResourceLock(list[0]))
    ensures Reaches(s0, s', reg, clocks)
    ensures t in s'.txs && s' == With(s, t, s'.txs[t]) && AtFirst(s'.txs[t], w, list)
  {
    hide Reaches, OrderLock, ResourceLock, IsResourceList, ExpiredOfOrder, Admissible;
    var s1 := ReadsRows(s0, s, t, w, list, reg, clocks);
    s' := ResourceIsLocked(s0, s1, t, reg, clocks);
    assert s'.txs[t].locks == {OrderLock(w.request.order), ResourceLock(list[0])};
  }

  // An order without rows locks exactly the resources it asks for.
  lemma FreshList(rows: Table, request: Request, now: int, list: seq<Resource>)
    requires forall k :: k in rows ==> k.order != request.order
    requires forall i, j :: 0 <= i < j < |list| ==> Text.Less(ResourceKey(list[i]), ResourceKey(list[j]))
    requires |list| == |request.items| && forall j :: 0 <= j < |list| ==> list[j] == ItemResource(request, j)
    ensures IsResourceList(list, rows, request, now) && ExpiredOfOrder(rows, request.order, now) == {}
  {
    hide ResourceKey, Text.Less;
    forall r ensures r in list <==> exists j :: 0 <= j < |request.items| && ItemResource(request, j) == r {
      if r in list {
        var j :| 0 <= j < |list| && list[j] == r;
      }
    }
  }

  // ---- A row that has expired -------------------------------------------------------------

  // With nothing of the other transaction's rows in the way, a call gets on to a resource it must wait for.
  lemma {:induction false} Climbs(s0: State, s: State, t: TxId, u: TxId, n: nat, reg: Registry, clocks: set<int>)
      returns (s': State)
    requires Reaches(s0, s, reg, clocks) && t != u && s.txs.Keys == {t, u} && s.txs[u].writes == map[]
    requires s.txs[t].work.Reserve? && s.txs[t].pc.Locking? && s.txs[t].pc.i <= n < |s.txs[t].resources|
    requires ResourceLock(s.txs[t].resources[n]) in s.txs[u].locks
    ensures Reaches(s0, s', reg, clocks) && s'.rows == s.rows && s'.txs.Keys == {t, u} && s'.txs[u] == s.txs[u]
    ensures WaitsForLock(s'.txs[t], s'.txs[u]) && s.txs[t].writes.Keys <= s'.txs[t].writes.Keys
    decreases n - s.txs[t].pc.i
  {
    hide Reaches, View, ResourceLock, ExpiredOnResource, Marked;
    var name := ResourceLock(s.txs[t].resources[s.txs[t].pc.i]);
    if name in s.txs[u].locks {
      s' := s;
      assert Wants(s'.txs[t], name);
    } else {
      var s1 := ResourceIsLocked(s0, s, t, reg, clocks);
      var s2 := ReachesNext(s0, s1, t, ExpireResource, reg, clocks);
      s' := Climbs(s0, s2, t, u, n, reg, clocks);
    }
  }

  // A call for a row's own resource expires that row and has the resource on its list.
  lemma OwnerScans(s0: State, s: State, k: Key, w: Work, reg: Registry, clocks: set<int>)
      returns (s': State, n: nat)
    requires Reaches(s0, s, reg, clocks) && 1 !in s.txs && w.Reserve? && Admissible(w, reg, clocks)
    requires forall u :: u in s.txs ==> s.txs[u].writes == map[]
    requires LockFree(s, 1, OrderLock(k.order)) && w.request.order == k.order
    requires k in ExpiredOfOrder(s.rows, k.order, w.now)
    requires w.request.items != [] && ItemResource(w.request, 0) == ResourceOf(k, s.rows[k])
    ensures Reaches(s0, s', reg, clocks) && 1 in s'.txs && s' == With(s, 1, s'.txs[1])
    ensures var tx := s'.txs[1];
            && tx.work == w && tx.pc == Locking(0) && k in tx.writes
            && n < |tx.resources| && tx.resources[n] == ResourceOf(k, s.rows[k])
  {
    hide Reaches, OrderLock, ResourceKey, Text.Less, Admissible, UnexpiredOfOrder, ExpiredOfOrder, Marked, View;
    var s1 := OrderIsLocked(s0, s, 1, w, reg, clocks);
    var s2 := OwnRowsExpired(s0, s1, 1, reg, clocks);
    assert k in s2.txs[1].writes by { KeyIsMarked(s.rows, k, w.now); }
    var list := ResourceList(View(s2.rows, s2.txs[1]), w.request, w.now);
    assert ItemResource(w.request, 0) in list;
    n :| 0 <= n < |list| && list[n] == ItemResource(w.request, 0);
    s' := ListIsScanned(s0, s2, 1, list, reg, clocks);
  }

  lemma KeyIsMarked(rows: Table, k: Key, now: int)
    requires k in ExpiredOfOrder(rows, k.order, now)
    ensures k in Marked(rows, ExpiredOfOrder(rows, k.order, now), Expired)
  {
  }

  // If a call can meet an expired row of its own order, some calls end up waiting for each other:
  // one call holds the row's resource and waits for the row, the other has expired the row and waits
  // for the resource.
  lemma StaleRowCircle(s0: State, s: State, k: Key, now: int, reg: Registry, clocks: set<int>)
      returns (s': State, ts: seq<TxId>)
    requires Reaches(s0, s, reg, clocks) && s.txs == map[] && WellKept(reg) && now in clocks
    requires ActiveAt(s.rows, k) && s.rows[k].expiresAt <= now && KnownRow(k, s.rows[k], reg)
    ensures Reaches(s0, s', reg, clocks) && Cycle(s', ts)
  {
    hide Reaches, OrderLock, ResourceLock, ResourceKey, Text.Less, IsResourceList, WellKept, Receivable, ValidRequest;
    var row, r := s.rows[k], ResourceOf(k, s.rows[k]);
    var p := Place(row.warehouseKey, row.code);
    var o := FreshOrder(s.rows, {OrderLock(k.order)}, ShopIdentity.Shop(k.order.platform, k.order.shop), reg);
    var holder, owner := Call(o, p, [r.sku], 1, now), Call(k.order, p, [r.sku], 1, now);
    CallAdmissible(o, p, [r.sku], 1, now, reg, clocks);
    CallAdmissible(k.order, p, [r.sku], 1, now, reg, clocks);
    FreshList(s.rows, holder.request, now, [r]);
    var s1 := LocksFirst(s0, s, 2, holder, [r], reg, clocks);
    LockKindsDiffer(k.order, r);
    var s2, n := OwnerScans(s0, s1, k, owner, reg, clocks);
    s' := Climbs(s0, s2, 1, 2, n, reg, clocks);
    ts := [1, 2, 1];
    assert WaitsFor(s', 2, 1) by { HolderWaits(s'.rows, s'.txs[2], s'.txs[1], holder, r, k); }
    assert WaitsFor(s', 1, 2);
  }

  lemma HolderWaits(rows: Table, tx: Tx, owner: Tx, w: Work, r: Resource, k: Key)
    requires AtFirst(tx, w, [r]) && ActiveOn(rows, k, r) && rows[k].expiresAt <= w.now && k in owner.writes
    ensures WaitsForRow(rows, tx, owner)
  {
    hide OrderLock, ResourceLock;
    assert View(rows, tx) == rows;
    assert k in NextRows(rows, tx);
  }

  // ---- A reservation on an idle table -----------------------------------------------------

  // Nothing but this row has been added to the active rows.
  ghost predicate AddsOnly(rows: Table, rows': Table, key: Key, p: Place, expiresAt: int) {
    && ActiveAt(rows', key) && rows'[key].warehouseKey == p.key && rows'[key].code == p.code
    && rows'[key].expiresAt == expiresAt
    && forall k :: ActiveAt(rows', k) && k != key ==> ActiveAt(rows, k) && rows'[k] == rows[k]
  }

  lemma MarksStored(rows: Table, keys: set<Key>, status: Status)
    ensures forall k :: k in Marked(rows, keys, status) ==>
      k in rows && Marked(rows, keys, status)[k] == rows[k].(status := status)
  {
  }

  lemma NothingStored(rows: Table, marked: Table, request: Request, now: int)
    requires forall k :: k in rows + marked ==> k.order != request.order
    requires request.items != []
    ensures !SameReservation(rows + marked, request, now)
    ensures ActiveOfOrder(rows + marked, request.order) == {}
  {
    assert ItemKey(request, 0) in (set j | 0 <= j < |request.items| :: ItemKey(request, j));
    assert ItemKey(request, 0) !in UnexpiredOfOrder(rows + marked, request.order, now);
  }

  lemma FirstCleared(s0: State, s: State, w: Work, r: Resource, reg: Registry, clocks: set<int>)
      returns (s': State)
    requires Reaches(s0, s, reg, clocks) && s.txs.Keys == {1} && AtFirst(s.txs[1], w, [r])
    ensures Reaches(s0, s', reg, clocks)
    ensures var expired := Marked(s.rows, ExpiredOnResource(s.rows, r, w.now), Expired);
            s' == With(s, 1, s.txs[1].(pc := Locking(1), writes := expired))
  {
    hide Reaches, OrderLock, ResourceLock, ExpiredOnResource, Marked;
    assert View(s.rows, s.txs[1]) == s.rows;
    s' := ReachesNext(s0, s, 1, ExpireResource, reg, clocks);
    var expired := Marked(s.rows, ExpiredOnResource(s.rows, r, w.now), Expired);
    assert map[] + expired == expired;
  }

  // The call has the table to itself: it clears its resource, finds nothing stored, and fits.
  lemma Fitting(s0: State, s: State, w: Work, r: Resource, expired: Table, reg: Registry, clocks: set<int>)
      returns (s': State)
    requires Reaches(s0, s, reg, clocks) && s.txs.Keys == {1} && AtFirst(s.txs[1], w, [r])
    requires |w.request.items| == 1 && expired == Marked(s.rows, ExpiredOnResource(s.rows, r, w.now), Expired)
    requires forall k :: k in s.rows ==> k.order != w.request.order
    requires w.request.items[0].quantity
      + Reserved(s.rows + expired, ItemResource(w.request, 0), w.request.order, w.now)
             <= w.request.items[0].observed
    ensures Reaches(s0, s', reg, clocks)
    ensures s' == With(s, 1, s.txs[1].(pc := Checking(1), writes := expired))
  {
    hide Reaches, OrderLock, ResourceLock, Reserved, ExpiredOnResource, Marked, UnexpiredOfOrder, SameReservation;
    var s1 := FirstCleared(s0, s, w, r, reg, clocks);
    MarksStored(s.rows, ExpiredOnResource(s.rows, r, w.now), Expired);
    NothingStored(s.rows, expired, w.request, w.now);
    assert View(s1.rows, s1.txs[1]) == s.rows + expired;
    var s2 := ReachesNext(s0, s1, 1, Reread, reg, clocks);
    assert s2.txs[1] == s.txs[1].(pc := Checking(0), writes := expired);
    assert View(s2.rows, s2.txs[1]) == s.rows + expired;
    s' := ReachesNext(s0, s2, 1, Check, reg, clocks);
  }

  // It releases nothing and writes its row.
  lemma Written(s0: State, s: State, reg: Registry, clocks: set<int>) returns (s': State)
    requires Reaches(s0, s, reg, clocks) && s.txs.Keys == {1} && s.txs[1].work.Reserve?
    requires s.txs[1].pc == Checking(1) && |s.txs[1].work.request.items| == 1
    requires ActiveOfOrder(View(s.rows, s.txs[1]), s.txs[1].work.request.order) == {}
    ensures Reaches(s0, s', reg, clocks)
    ensures var tx, r := s.txs[1], s.txs[1].work.request;
            s' == With(s, 1, tx.(pc := Writing(1),
                                 writes := tx.writes[ItemKey(r, 0) := NewRow(r, r.items[0], tx.work.now)]))
  {
    hide Reaches, View, OrderLock, ResourceLock, ActiveOfOrder, Marked;
    var tx, r := s.txs[1], s.txs[1].work.request;
    MarksNothing(View(s.rows, tx), Released);
    var s1 := ReachesNext(s0, s, 1, ReleaseOwn, reg, clocks);
    assert s1.txs[1].writes == tx.writes;
    s' := ReachesNext(s0, s1, 1, Write, reg, clocks);
  }

  lemma Committed(s0: State, s: State, reg: Registry, clocks: set<int>) returns (s': State)
    requires Reaches(s0, s, reg, clocks) && s.txs.Keys == {1} && s.txs[1].work.Reserve?
    requires s.txs[1].pc == Writing(|s.txs[1].work.request.items|)
    ensures Reaches(s0, s', reg, clocks) && s'.txs == map[] && s'.rows == s.rows + s.txs[1].writes
  {
    hide Reaches, NewBounds;
    s' := ReachesNext(s0, s, 1, Commit, reg, clocks);
  }

  lemma RowAdded(rows: Table, keys: set<Key>, request: Request, now: int)
    requires |request.items| == 1
    ensures var row := NewRow(request, request.items[0], now);
            AddsOnly(rows, rows + Marked(rows, keys, Expired)[ItemKey(request, 0) := row], ItemKey(request, 0),
                     Place(request.warehouseKey, request.code), now + TTL)
  {
  }

  // A call for a new order that fits leaves its row and adds nothing else.
  lemma ReservesOne(s0: State, s: State, o: OrderId, p: Place, sku: string, now: int, reg: Registry, clocks: set<int>)
      returns (s': State)
    requires Reaches(s0, s, reg, clocks) && s.txs == map[] && WellKept(reg) && now in clocks
    requires KnownOrder(o, reg) && p in reg.places && Trimmed(sku)
    requires forall k :: k in s.rows ==> k.order != o
    ensures Reaches(s0, s', reg, clocks) && s'.txs == map[]
    ensures AddsOnly(s.rows, s'.rows, Key(o, sku), p, now + TTL)
    ensures forall k :: k in s'.rows && k != Key(o, sku) ==> k.order != o
  {
    hide Reaches, OrderLock, ResourceLock, ResourceKey, Text.Less, Reserved, ExpiredOnResource, Marked, WellKept,
         UnexpiredOfOrder, AddsOnly, IsResourceList, ExpiredOfOrder, SameReservation, ActiveOfOrder, Receivable,
         ValidRequest, KnownOrder;
    var r := Resource(p.code, sku);
    var expired := Marked(s.rows, ExpiredOnResource(s.rows, r, now), Expired);
    var observed: int := 1 + Reserved(s.rows + expired, r, o, now);
    var w := Call(o, p, [sku], observed, now);
    CallAdmissible(o, p, [sku], observed, now, reg, clocks);
    FreshList(s.rows, w.request, now, [r]);
    var s1 := LocksFirst(s0, s, 1, w, [r], reg, clocks);
    var s2 := Fitting(s0, s1, w, r, expired, reg, clocks);
    MarksStored(s.rows, ExpiredOnResource(s.rows, r, now), Expired);
    NothingStored(s.rows, expired, w.request, now);
    assert View(s2.rows, s2.txs[1]) == s.rows + expired;
    var s3 := Written(s0, s2, reg, clocks);
    s' := Committed(s0, s3, reg, clocks);
    RowAdded(s.rows, ExpiredOnResource(s.rows, r, now), w.request, now);
    var row := NewRow(w.request, w.request.items[0], now);
    assert s'.rows == s.rows + expired[ItemKey(w.request, 0) := row];
  }

  // ---- Two resources with one lock name ---------------------------------------------------

  // The transaction has cleared its first resource, writing only rows there, and is about to take its second.
  ghost predicate AtSecond(rows: Table, tx: Tx, w: Work, list: seq<Resource>) {
    && w.Reserve? && list != [] && tx.work == w && tx.pc == Locking(1) && tx.resources == list
    && tx.locks == {OrderLock(w.request.order), ResourceLock(list[0])}
    && forall k :: k in tx.writes ==> ActiveOn(rows, k, list[0])
  }

  lemma TurnsToSecond(s0: State, s: State, t: TxId, w: Work, list: seq<Resource>, reg: Registry, clocks: set<int>)
      returns (s': State)
    requires Reaches(s0, s, reg, clocks) && t in s.txs && AtFirst(s.txs[t], w, list)
    requires RowsFree(s, t, ExpiredOnResource(s.rows, list[0], w.now))
    ensures Reaches(s0, s', reg, clocks)
    ensures t in s'.txs && s' == With(s, t, s'.txs[t]) && AtSecond(s.rows, s'.txs[t], w, list)
  {
    hide Reaches, OrderLock, ResourceLock;
    ViewUnwritten(s.rows, s.txs[t]);
    s' := ReachesNext(s0, s, t, ExpireResource, reg, clocks);
  }

  // An order whose one stored row lies on another resource than the one it asks for locks both.
  lemma MovingList(rows: Table, request: Request, now: int, stored: Resource, wanted: Resource)
    requires |request.items| == 1 && ItemResource(request, 0) == wanted
    requires Text.Less(ResourceKey(stored), ResourceKey(wanted))
    requires var k := Key(request.order, stored.sku); ActiveOn(rows, k, stored) && rows[k].expiresAt > now
    requires forall k :: k in rows && k.order == request.order ==> k.sku == stored.sku
    ensures IsResourceList([stored, wanted], rows, request, now) && ExpiredOfOrder(rows, request.order, now) == {}
  {
    hide ResourceKey, Text.Less;
    var own := Key(request.order, stored.sku);
    assert own in UnexpiredOfOrder(rows, request.order, now) && ResourceOf(own, rows[own]) == stored;
    forall k | k in rows && k.order == request.order ensures k == own {
    }
    assert ItemResource(request, 0) == wanted;
  }

  lemma PairCallable(sku: string, next: string)
    requires Trimmed(sku) && Trimmed(next) && Text.Less(sku, next)
    ensures CallableSkus([sku, next])
  {
    hide Text.Less, Text.TrimSpace;
  }

  // If one warehouse code extends another, two calls can wait for each other's resource locks, whatever
  // has or has not expired: one of them is moving its reservation to the other warehouse.
  lemma SharedNameCircle(s0: State, s: State, c: string, d: string, now: int, reg: Registry, clocks: set<int>)
      returns (s': State, ts: seq<TxId>)
    requires Reaches(s0, s, reg, clocks) && s.txs == map[] && WellKept(reg) && reg.shops != {} && now in clocks
    requires c in CodesOf(reg.places) && d in CodesOf(reg.places) && Extends(c, d)
    ensures Reaches(s0, s', reg, clocks) && LockCycle(s', ts)
  {
    hide Reaches, OrderLock, ResourceLock, ResourceKey, Text.Less, Text.TrimSpace, IsResourceList, ExpiredOfOrder,
         WellKept, KnownOrder, Receivable, ValidRequest, Extends, CallableSkus, ExpiredOnResource;
    var a, b, e := InvertedLocks(c, d);
    var shop :| shop in reg.shops;
    var p: Place :| p in reg.places && p.code == a.code;
    var q: Place :| q in reg.places && q.code == e.code;
    var mover := FreshOrder(s.rows, {}, shop, reg);
    var s1 := ReservesOne(s0, s, mover, p, b.sku, now, reg, clocks);
    var other := FreshOrder(s1.rows, {OrderLock(mover)}, shop, reg);
    var first, second := Call(other, p, [a.sku, b.sku], 2, now), Call(mover, q, [e.sku], 2, now);
    PairCallable(a.sku, b.sku);
    OneCallable(e.sku);
    CallAdmissible(other, p, [a.sku, b.sku], 2, now, reg, clocks);
    CallAdmissible(mover, q, [e.sku], 2, now, reg, clocks);
    FreshList(s1.rows, first.request, now, [a, b]);
    MovingList(s1.rows, second.request, now, b, e);
    s', ts := LocksCross(s0, s1, first, second, a, b, e, reg, clocks);
  }

  lemma OneCallable(sku: string)
    requires Trimmed(sku)
    ensures CallableSkus([sku])
  {
  }

  // One call locks a and then wants b, the other locks b and then wants what shares its name with a.
  lemma LocksCross(s0: State, s: State, first: Work, second: Work, a: Resource, b: Resource, e: Resource,
      reg: Registry, clocks: set<int>) returns (s': State, ts: seq<TxId>)
    requires Reaches(s0, s, reg, clocks) && s.txs == map[]
    requires first.Reserve? && second.Reserve?
    requires Admissible(first, reg, clocks) && Admissible(second, reg, clocks)
    requires OrderLock(first.request.order) != OrderLock(second.request.order)
    requires ResourceLock(a) == ResourceLock(e) && ResourceLock(a) != ResourceLock(b)
    requires IsResourceList([a, b], s.rows, first.request, first.now)
    requires IsResourceList([b, e], s.rows, second.request, second.now)
    requires ExpiredOfOrder(s.rows, first.request.order, first.now) == {}
    requires ExpiredOfOrder(s.rows, second.request.order, second.now) == {}
    ensures Reaches(s0, s', reg, clocks) && LockCycle(s', ts)
  {
    hide Reaches, OrderLock, ResourceLock, IsResourceList, ExpiredOfOrder, Admissible;
    LockKindsDiffer(first.request.order, b);
    LockKindsDiffer(second.request.order, a);
    var s1 := LocksFirst(s0, s, 1, first, [a, b], reg, clocks);
    var s2 := LocksFirst(s0, s1, 2, second, [b, e], reg, clocks);
    var s3 := TurnsToSecond(s0, s2, 1, first, [a, b], reg, clocks);
    s' := TurnsToSecond(s0, s3, 2, second, [b, e], reg, clocks);
    ts := [1, 2, 1];
    assert Wants(s'.txs[1], ResourceLock(b)) && Wants(s'.txs[2], ResourceLock(e));
    assert WaitsForLockOf(s', 1, 2) && WaitsForLockOf(s', 2, 1);
  }

  // ---- Where nothing expires, nothing waits in a circle -----------------------------------

  ghost predicate NoneExpired(rows: Table, now: int) {
    forall k :: ActiveAt(rows, k) ==> rows[k].expiresAt > now
  }

  // No stored reservation has expired by any of these clocks, and none made at one of them will have
  // expired by another.
  ghost predicate NeverExpires(rows: Table, clocks: set<int>) {
    && (forall n :: n in clocks ==> NoneExpired(rows, n))
    && (forall n, m :: n in clocks && m in clocks ==> m < n + TTL)
  }

  ghost predicate CalmTx(tx: Tx, clocks: set<int>) {
    && NeverExpires(tx.writes, clocks)
    && (tx.work.Reserve? ==>
          && tx.work.now in clocks
          && (tx.pc == OrderLocked || tx.pc == OwnExpired || tx.pc.Locking? || tx.pc.Locked? ==> tx.writes == map[]))
  }

  ghost predicate Calm(s: State, clocks: set<int>) {
    NeverExpires(s.rows, clocks) && forall t :: t in s.txs ==> CalmTx(s.txs[t], clocks)
  }

  lemma MarkedNeverExpires(writes: Table, view: Table, keys: set<Key>, clocks: set<int>)
    requires NeverExpires(writes, clocks)
    ensures NeverExpires(writes + Marked(view, keys, Expired), clocks)
    ensures NeverExpires(writes + Marked(view, keys, Released), clocks)
  {
  }

  lemma ViewNeverExpires(rows: Table, tx: Tx, clocks: set<int>)
    requires NeverExpires(rows, clocks) && NeverExpires(tx.writes, clocks)
    ensures NeverExpires(View(rows, tx), clocks)
  {
  }

  lemma NothingToExpire(view: Table, tx: Tx, clocks: set<int>)
    requires NeverExpires(view, clocks) && tx.work.Reserve? && tx.work.now in clocks
    ensures ExpiredOfOrder(view, tx.work.Order(), tx.work.now) == {}
    ensures forall r :: ExpiredOnResource(view, r, tx.work.now) == {}
  {
  }

  lemma ProlongedNeverExpires(writes: Table, view: Table, o: OrderId, now: int, clocks: set<int>)
    requires NeverExpires(writes, clocks) && now in clocks
    ensures NeverExpires(writes + map k | k in ActiveOfOrder(view, o) :: view[k].(expiresAt := now + TTL), clocks)
  {
  }

  lemma AdvanceKeepsCalm(s: State, t: TxId, a: Action, clocks: set<int>)
    requires Inv(s) && Calm(s, clocks) && Enabled(s, t, a) && !a.Begin? && !a.Abort? && !a.Commit?
    ensures CalmTx(Advance(s.rows, s.txs[t], a), clocks)
  {
    hide TxInv, Exclusive, WithinBounds, OrderLock, ResourceLock, IsResourceList, SameReservation, View, NeverExpires,
         Marked, ExpiredOfOrder, ExpiredOnResource, ActiveOfOrder, LockFree, RowsFree, UnexpiredOfOrder;
    var tx := s.txs[t];
    var view := View(s.rows, tx);
    assert TxInv(s.rows, tx) && CalmTx(tx, clocks);
    ViewNeverExpires(s.rows, tx, clocks);
    if tx.pc == Begun { BegunIsEmpty(s.rows, tx); }
    match a
    case ExpireOwn =>
      NothingToExpire(view, tx, clocks);
      MarksNothing(view, Expired);
      assert tx.writes + Marked(view, {}, Expired) == map[];
    case ExpireResource =>
      NothingToExpire(view, tx, clocks);
      MarksNothing(view, Expired);
      assert tx.writes + Marked(view, {}, Expired) == map[];
    case Extend => ProlongedNeverExpires(tx.writes, view, tx.work.Order(), tx.work.now, clocks);
    case ReleaseOwn => MarkedNeverExpires(tx.writes, view, ActiveOfOrder(view, tx.work.Order()), clocks);
    case Write => WrittenNeverExpires(tx, clocks);
    case _ =>
  }

  lemma WrittenNeverExpires(tx: Tx, clocks: set<int>)
    requires NeverExpires(tx.writes, clocks) && tx.work.Reserve? && tx.work.now in clocks
    requires tx.pc.Writing? && tx.pc.j < |tx.work.request.items|
    ensures var r := tx.work.request;
            NeverExpires(tx.writes[ItemKey(r, tx.pc.j) := NewRow(r, r.items[tx.pc.j], tx.work.now)], clocks)
  {
  }

  lemma StepKeepsCalm(s: State, t: TxId, a: Action, reg: Registry, clocks: set<int>)
    requires Inv(s) && Calm(s, clocks) && Enabled(s, t, a) && Admitted(a, reg, clocks)
    ensures Calm(Apply(s, t, a), clocks)
  {
    hide Inv, Advance, Fits, View, NeverExpires;
    if a.Begin? {
      assert NeverExpires(map[], clocks) by { EmptyNeverExpires(s.rows, clocks); }
    } else if a.Commit? {
      ViewNeverExpires(s.rows, s.txs[t], clocks);
    } else if !a.Abort? {
      AdvanceKeepsCalm(s, t, a, clocks);
    }
  }

  lemma EmptyNeverExpires(rows: Table, clocks: set<int>)
    requires NeverExpires(rows, clocks)
    ensures NeverExpires(map[], clocks)
  {
  }

  lemma {:induction false} RunKeepsCalm(s: State, moves: seq<Move>, reg: Registry, clocks: set<int>)
    requires Inv(s) && Calm(s, clocks) && Legal(s, moves) && AllAdmitted(moves, reg, clocks)
    ensures Calm(Run(s, moves), clocks)
    decreases |moves|
  {
    hide Inv, Enabled, Apply, Calm, Admitted;
    if moves != [] {
      StepKeepsInv(s, moves[0].t, moves[0].action);
      StepKeepsCalm(s, moves[0].t, moves[0].action, reg, clocks);
      RunKeepsCalm(Apply(s, moves[0].t, moves[0].action), moves[1..], reg, clocks);
    }
  }

  lemma CalmHasNoCircle(s: State, known: iset<Resource>, clocks: set<int>, ts: seq<TxId>)
    requires Inv(s) && AllOrderly(s, known) && Unambiguous(known) && Calm(s, clocks)
    ensures !Cycle(s, ts)
  {
    hide Inv, AllOrderly, Unambiguous, Cycle, NeverExpires;
    if Cycle(s, ts) {
      CircleNeedsOwnExpired(s, known, ts);
    }
  }

  // ---- The exact conditions ---------------------------------------------------------------

  // From this state, receivable calls at these clocks never wait in a circle, or never for locks alone.
  ghost predicate CircleFree(s: State, reg: Registry, clocks: set<int>) {
    forall moves, ts :: Legal(s, moves) && AllAdmitted(moves, reg, clocks) ==> !Cycle(Run(s, moves), ts)
  }

  ghost predicate LockCircleFree(s: State, reg: Registry, clocks: set<int>) {
    forall moves, ts :: Legal(s, moves) && AllAdmitted(moves, reg, clocks) ==> !LockCycle(Run(s, moves), ts)
  }

  lemma NoCircleWhileNothingExpires(rows: Table, bound: map<Resource, int>, reg: Registry, clocks: set<int>)
    requires WithinBounds(rows, bound) && KnownRows(rows, reg)
    requires Separable(CodesOf(reg.places)) && NeverExpires(rows, clocks)
    ensures CircleFree(State(rows, bound, map[]), reg, clocks)
  {
    hide WithinBounds, KnownRows, Separable, NeverExpires, Legal, Run, AllAdmitted, Cycle, Nameable, Unambiguous,
         RowsIn;
    var s, known := State(rows, bound, map[]), Nameable(CodesOf(reg.places));
    SeparableUnambiguous(CodesOf(reg.places));
    KnownRowsIn(rows, reg);
    assert Inv(s) && Calm(s, clocks);
    forall moves, ts | Legal(s, moves) && AllAdmitted(moves, reg, clocks) ensures !Cycle(Run(s, moves), ts) {
      hide Inv, AllOrderly, Calm;
      AdmittedNames(moves, reg, clocks);
      RunOrderly(rows, bound, known, moves);
      RunKeepsCalm(s, moves, reg, clocks);
      CalmHasNoCircle(Run(s, moves), known, clocks, ts);
    }
  }

  lemma NoLockCircle(rows: Table, bound: map<Resource, int>, reg: Registry, clocks: set<int>)
    requires WithinBounds(rows, bound) && KnownRows(rows, reg) && Separable(CodesOf(reg.places))
    ensures LockCircleFree(State(rows, bound, map[]), reg, clocks)
  {
    hide WithinBounds, KnownRows, Separable, Legal, Run, AllAdmitted, LockCycle, Nameable, Unambiguous, RowsIn;
    var s := State(rows, bound, map[]);
    SeparableUnambiguous(CodesOf(reg.places));
    KnownRowsIn(rows, reg);
    forall moves, ts | Legal(s, moves) && AllAdmitted(moves, reg, clocks) ensures !LockCycle(Run(s, moves), ts) {
      AdmittedNames(moves, reg, clocks);
      NoWaitCycle(rows, bound, Nameable(CodesOf(reg.places)), moves, ts);
    }
  }

  lemma CircleReached(s: State, s': State, reg: Registry, clocks: set<int>, ts: seq<TxId>)
    requires Reaches(s, s', reg, clocks)
    ensures Cycle(s', ts) ==> !CircleFree(s, reg, clocks)
    ensures LockCycle(s', ts) ==> !LockCircleFree(s, reg, clocks)
  {
    hide Cycle, LockCycle, Legal, Run, AllAdmitted;
    var moves :| Legal(s, moves) && AllAdmitted(moves, reg, clocks) && Run(s, moves) == s';
  }

  lemma SomeClock(clocks: set<int>) returns (now: int)
    requires clocks != {}
    ensures now in clocks
  {
    assert exists n :: n in clocks by { assert (forall n :: n !in clocks) ==> clocks == {}; }
    now :| now in clocks;
  }

  // Whatever expires: calls never wait for each other's locks in a circle exactly when no registered
  // warehouse code extends another one.
  lemma LockCircleFreeExactly(rows: Table, bound: map<Resource, int>, reg: Registry, clocks: set<int>)
    requires WithinBounds(rows, bound) && WellKept(reg) && KnownRows(rows, reg) && reg.shops != {} && clocks != {}
    ensures LockCircleFree(State(rows, bound, map[]), reg, clocks) <==> Separable(CodesOf(reg.places))
  {
    hide WithinBounds, WellKept, KnownRows, Reaches, LockCircleFree, LockCycle, CodesOf, Extends;
    var s := State(rows, bound, map[]);
    if c, d :| c in CodesOf(reg.places) && d in CodesOf(reg.places) && Extends(c, d) {
      var now := SomeClock(clocks);
      ReachesSelf(s, reg, clocks);
      var s', ts := SharedNameCircle(s, s, c, d, now, reg, clocks);
      CircleReached(s, s', reg, clocks, ts);
    } else {
      NoLockCircle(rows, bound, reg, clocks);
    }
  }

  // A row is reserved at one clock and found expired at another one.
  lemma LateClockCircle(s: State, n: int, m: int, reg: Registry, clocks: set<int>)
    requires s.txs == map[] && WellKept(reg) && reg.shops != {} && reg.places != {}
    requires n in clocks && m in clocks && n + TTL <= m
    ensures !CircleFree(s, reg, clocks)
  {
    hide WellKept, Reaches, CircleFree, Cycle, OrderLock, KnownOrder;
    var p :| p in reg.places;
    var shop :| shop in reg.shops;
    var o := FreshOrder(s.rows, {}, shop, reg);
    Text.NothingToTrim("S");
    ReachesSelf(s, reg, clocks);
    var s1 := ReservesOne(s, s, o, p, "S", n, reg, clocks);
    var s', ts := StaleRowCircle(s, s1, Key(o, "S"), m, reg, clocks);
    CircleReached(s, s', reg, clocks, ts);
  }

  // Calls never wait in a circle at all exactly when, besides, no reservation can expire while they come in.
  lemma CircleFreeExactly(rows: Table, bound: map<Resource, int>, reg: Registry, clocks: set<int>)
    requires WithinBounds(rows, bound) && WellKept(reg) && KnownRows(rows, reg)
    requires reg.shops != {} && reg.places != {} && clocks != {}
    ensures CircleFree(State(rows, bound, map[]), reg, clocks)
            <==> Separable(CodesOf(reg.places)) && NeverExpires(rows, clocks)
  {
    hide WithinBounds, WellKept, KnownRow, Reaches, CircleFree, Cycle, LockCycle, CodesOf, Extends;
    var s := State(rows, bound, map[]);
    ReachesSelf(s, reg, clocks);
    if n, k :| n in clocks && ActiveAt(rows, k) && rows[k].expiresAt <= n {
      var s', ts := StaleRowCircle(s, s, k, n, reg, clocks);
      CircleReached(s, s', reg, clocks, ts);
    } else if n, m :| n in clocks && m in clocks && n + TTL <= m {
      LateClockCircle(s, n, m, reg, clocks);
    } else if c, d :| c in CodesOf(reg.places) && d in CodesOf(reg.places) && Extends(c, d) {
      var now := SomeClock(clocks);
      var s', ts := SharedNameCircle(s, s, c, d, now, reg, clocks);
      LockCycleIsCycle(s', ts);
      CircleReached(s, s', reg, clocks, ts);
    } else {
      NoCircleWhileNothingExpires(rows, bound, reg, clocks);
    }
  }

  // For the registered warehouses that is: exactly when no reservation can expire meanwhile.
  lemma RegisteredCircleFreeExactly(rows: Table, bound: map<Resource, int>, reg: Registry, clocks: set<int>)
    requires WithinBounds(rows, bound) && KnownRows(rows, reg) && reg.places == REGISTERED
    requires forall shop :: shop in reg.shops ==> ShopIdentity.Identity(shop.platform, shop.code) == Some(shop)
    requires reg.shops != {} && clocks != {}
    ensures CircleFree(State(rows, bound, map[]), reg, clocks) <==> NeverExpires(rows, clocks)
  {
    hide WithinBounds, KnownRows, CircleFree, NeverExpires, CodesOf, Separable, Unambiguous, ShopIdentity.Identity;
    RegisteredUnambiguous();
    RegisteredWellKept(reg);
    assert Place("ARP_ATLANTA", "ARPGA") in reg.places;
    CircleFreeExactly(rows, bound, reg, clocks);
  }
}
