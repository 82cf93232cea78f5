// Who waits for whom, for advisory locks and for rows another transaction has written, and what
// every circle of waiting transactions has in common.

module ReservationDeadlock {
  import opened Reservation
  import opened ReservationLocks
  import opened ReservationSafety
  import ReservationRequest
  import Text

  // ---- Waiting ----------------------------------------------------------------------------

  ghost predicate WantsResource(tx: Tx) {
    tx.work.Reserve? && tx.pc.Locking? && tx.pc.i < |tx.resources|
  }

  // The transaction is about to take this advisory lock.
  ghost predicate Wants(tx: Tx, name: string) {
    || (tx.pc == Begun && name == OrderLock(tx.work.Order()))
    || (WantsResource(tx) && name == ResourceLock(tx.resources[tx.pc.i]))
  }

  // The rows the transaction's next statement writes.
  ghost function NextRows(rows: Table, tx: Tx): set<Key> {
    var view, o := View(rows, tx), tx.work.Order();
    if tx.work.Release? then
      if tx.pc == OrderLocked then ActiveOfOrder(view, o) else {}
    else
      match tx.pc
      case OrderLocked => ExpiredOfOrder(view, o, tx.work.now)
      case Locked(i) => if i < |tx.resources| then ExpiredOnResource(view, tx.resources[i], tx.work.now) else {}
      case Extending => ActiveOfOrder(view, o)
      case Checking(j) => if j == |tx.work.request.items| then ActiveOfOrder(view, o) else {}
      case Writing(j) => if j < |tx.work.request.items| then {ItemKey(tx.work.request, j)} else {}
      case _ => {}
  }

  ghost predicate WaitsForLock(a: Tx, b: Tx) {
    exists name :: name in b.locks && Wants(a, name)
  }

  ghost predicate WaitsForRow(rows: Table, a: Tx, b: Tx) {
    exists k :: k in NextRows(rows, a) && k in b.writes
  }

  ghost predicate WaitsFor(s: State, t: TxId, u: TxId) {
    && t in s.txs && u in s.txs && t != u
    && (WaitsForLock(s.txs[t], s.txs[u]) || WaitsForRow(s.rows, s.txs[t], s.txs[u]))
  }

  ghost predicate Walk(s: State, ts: seq<TxId>) {
    forall i, j :: 0 <= i && j == i + 1 && j < |ts| ==> WaitsFor(s, ts[i], ts[j])
  }

  // A walk along waits that comes back to where it started.
  ghost predicate Cycle(s: State, ts: seq<TxId>) {
    2 <= |ts| && ts[0] == ts[|ts| - 1] && Walk(s, ts)
  }

  ghost predicate WaitsForLockOf(s: State, t: TxId, u: TxId) {
    t in s.txs && u in s.txs && t != u && WaitsForLock(s.txs[t], s.txs[u])
  }

  ghost predicate LockWalk(s: State, ts: seq<TxId>) {
    forall i, j :: 0 <= i && j == i + 1 && j < |ts| ==> WaitsForLockOf(s, ts[i], ts[j])
  }

  // A circle of waits for advisory locks alone.
  ghost predicate LockCycle(s: State, ts: seq<TxId>) {
    2 <= |ts| && ts[0] == ts[|ts| - 1] && LockWalk(s, ts)
  }

  lemma LockCycleIsCycle(s: State, ts: seq<TxId>)
    requires LockCycle(s, ts)
    ensures Cycle(s, ts)
  {
    hide WaitsForLock, WaitsForRow;
  }

  // ---- Waiting is being unable to move ----------------------------------------------------

  lemma WaiterIsBlocked(s: State, t: TxId, u: TxId, a: Action)
    requires WaitsFor(s, t, u) && Enabled(s, t, a)
    ensures a.Abort?
  {
    hide OrderLock, ResourceLock, IsResourceList, ValidRequest, ActiveOfOrder, ExpiredOfOrder, ExpiredOnResource;
  }

  // The statement a transaction issues next.
  ghost function NextAction(s: State, t: TxId): (a: Action)
    requires Inv(s) && t in s.txs
    ensures !a.Abort?
  {
    var tx := s.txs[t];
    match tx.pc
    case Begun => LockOrder
    case OrderLocked => if tx.work.Reserve? then ExpireOwn else ReleaseOwn
    case OwnExpired => Scan(ReservationRequest.ResourceList(View(s.rows, tx), tx.work.request, tx.work.now))
    case Locking(i) => if i < |tx.resources| then LockResource else Reread
    case Locked(_) => ExpireResource
    case Extending => Extend
    case Checking(j) => if j < |tx.work.request.items| then Check else ReleaseOwn
    case Writing(j) => if j < |tx.work.request.items| then Write else Commit
    case _ => Commit
  }

  // A transaction waits for another one exactly when all it could do is give up.
  lemma BlockedExactlyWhenWaiting(s: State, t: TxId)
    requires Inv(s) && t in s.txs
    ensures (exists u :: WaitsFor(s, t, u)) <==> forall a :: Enabled(s, t, a) ==> a.Abort?
  {
    hide Inv, WaitsFor, Enabled;
    forall u, a | WaitsFor(s, t, u) && Enabled(s, t, a) ensures a.Abort? {
      WaiterIsBlocked(s, t, u, a);
    }
    if !exists u :: WaitsFor(s, t, u) {
      NextIsEnabled(s, t);
      assert !NextAction(s, t).Abort?;
    }
  }

  lemma NextIsEnabled(s: State, t: TxId)
    requires Inv(s) && t in s.txs && forall u :: !WaitsFor(s, t, u)
    ensures Enabled(s, t, NextAction(s, t))
  {
    hide OrderLock, ResourceLock, IsResourceList, ActiveOfOrder, ExpiredOfOrder, ExpiredOnResource, SameReservation,
         LockNames, LockedPrefix, ResourcesCover, WritesCovered, WithinBounds, Exclusive, Granted, AllFit, View;
    var tx := s.txs[t];
    assert TxInv(s.rows, tx);
    forall name | Wants(tx, name) ensures LockFree(s, t, name) {
      forall u | u in s.txs && u != t ensures name !in s.txs[u].locks {
        assert !WaitsFor(s, t, u);
      }
    }
    forall u, k | u in s.txs && u != t && k in NextRows(s.rows, tx) ensures k !in s.txs[u].writes {
      assert !WaitsFor(s, t, u);
    }
    assert RowsFree(s, t, NextRows(s.rows, tx));
  }

  // ---- If nobody waits in a circle, somebody can move --------------------------------------

  lemma WaiterAndHolder(s: State, t: TxId, u: TxId)
    requires WaitsFor(s, t, u)
    ensures t in s.txs && u in s.txs
  {
  }

  lemma {:induction false} WalkExists(s: State, t: TxId, n: nat) returns (ts: seq<TxId>)
    requires t in s.txs && forall v :: v in s.txs ==> exists u :: WaitsFor(s, v, u)
    ensures |ts| == n + 1 && Walk(s, ts) && forall i :: 0 <= i < |ts| ==> ts[i] in s.txs
  {
    hide WaitsFor;
    if n == 0 {
      ts := [t];
    } else {
      var before := WalkExists(s, t, n - 1);
      var u :| WaitsFor(s, before[n - 1], u);
      WaiterAndHolder(s, before[n - 1], u);
      ts := before + [u];
    }
  }

  lemma {:induction false} Revisits(ts: seq<TxId>, ids: set<TxId>) returns (i: nat, j: nat)
    requires |ids| < |ts| && forall k :: 0 <= k < |ts| ==> ts[k] in ids
    ensures i < j < |ts| && ts[i] == ts[j]
  {
    var last := |ts| - 1;
    if k :| 0 <= k < last && ts[k] == ts[last] {
      i, j := k, last;
    } else {
      i, j := Revisits(ts[..last], ids - {ts[last]});
    }
  }

  lemma WalkCloses(s: State, ts: seq<TxId>, i: nat, j: nat)
    requires Walk(s, ts) && i < j < |ts| && ts[i] == ts[j]
    ensures Cycle(s, ts[i..j + 1])
  {
    hide WaitsFor;
  }

  // As long as no circle of waits exists, some open transaction can take its next step.
  lemma SomeoneMoves(s: State)
    requires Inv(s) && s.txs != map[] && forall ts :: !Cycle(s, ts)
    ensures exists t, a :: t in s.txs && Enabled(s, t, a) && !a.Abort?
  {
    hide Inv, WaitsFor, Enabled;
    if forall t, a :: t in s.txs && Enabled(s, t, a) ==> a.Abort? {
      forall t | t in s.txs ensures exists u :: WaitsFor(s, t, u) {
        BlockedExactlyWhenWaiting(s, t);
      }
      var t :| t in s.txs;
      var ts := WalkExists(s, t, |s.txs.Keys|);
      var i, j := Revisits(ts, s.txs.Keys);
      WalkCloses(s, ts, i, j);
    }
  }

  // ---- What holds of every transaction, whatever the others do ----------------------------

  ghost predicate RowsIn(rows: Table, known: iset<Resource>) {
    forall k :: ActiveAt(rows, k) ==> ResourceOf(k, rows[k]) in known
  }

  ghost predicate Names(request: Request, known: iset<Resource>) {
    forall j :: 0 <= j < |request.items| ==> ItemResource(request, j) in known
  }

  ghost predicate OnlyExpired(rows: Table, tx: Tx)
    requires tx.work.Reserve?
  {
    forall k :: k in tx.writes ==> ActiveAt(rows, k) && rows[k].expiresAt <= tx.work.now
  }

  // A transaction names only these resources, starts without writes, and has written rows of
  // other orders only while they were active.
  ghost predicate Orderly(rows: Table, tx: Tx, known: iset<Resource>) {
    && RowsIn(tx.writes, known)
    && (forall i :: 0 <= i < |tx.resources| ==> tx.resources[i] in known)
    && (tx.work.Reserve? ==> Names(tx.work.request, known))
    && (tx.pc == OrderLocked ==> tx.writes == map[] && tx.locks == {OrderLock(tx.work.Order())})
    && (forall k :: k in tx.writes && k.order != tx.work.Order() ==> ActiveAt(rows, k))
    && (tx.work.Reserve? && (tx.pc.OwnExpired? || tx.pc.Locking? || tx.pc.Locked?) ==> OnlyExpired(rows, tx))
  }

  ghost predicate AllOrderly(s: State, known: iset<Resource>) {
    RowsIn(s.rows, known) && forall t :: t in s.txs ==> Orderly(s.rows, s.txs[t], known)
  }

  lemma ScanKeepsOrderly(rows: Table, tx: Tx, list: seq<Resource>, known: iset<Resource>)
    requires tx.work.Reserve? && tx.pc == OwnExpired && RowsIn(rows, known) && Orderly(rows, tx, known)
    requires IsResourceList(list, View(rows, tx), tx.work.request, tx.work.now)
    ensures Orderly(rows, Advance(rows, tx, Scan(list)), known)
  {
    hide OrderLock, ResourceLock, ResourceKey, Text.Less;
    forall i | 0 <= i < |list| ensures list[i] in known {
      assert list[i] in list;
    }
    var tx' := Advance(rows, tx, Scan(list));
    assert tx'.writes == tx.writes && OnlyExpired(rows, tx');
  }

  lemma ExpireOwnKeepsOrderly(rows: Table, tx: Tx, known: iset<Resource>)
    requires tx.work.Reserve? && tx.pc == OrderLocked && Orderly(rows, tx, known)
    ensures Orderly(rows, Advance(rows, tx, ExpireOwn), known)
  {
    hide OrderLock;
    assert View(rows, tx) == rows;
  }

  lemma ExpireResourceKeepsOrderly(rows: Table, tx: Tx, known: iset<Resource>)
    requires TxInv(rows, tx) && tx.work.Reserve? && tx.pc.Locked? && tx.pc.i < |tx.resources|
    requires Orderly(rows, tx, known)
    ensures Orderly(rows, Advance(rows, tx, ExpireResource), known)
  {
    hide OrderLock, ResourceLock, ResourceKey, Text.Less, LockNames, LockedPrefix, ResourcesCover, WritesCovered;
  }

  lemma ExtendKeepsOrderly(rows: Table, tx: Tx, known: iset<Resource>)
    requires RowsIn(rows, known) && Orderly(rows, tx, known) && tx.work.Reserve?
    ensures Orderly(rows, Advance(rows, tx, Extend), known)
  {
    hide OrderLock, OnlyExpired;
  }

  lemma ReleaseOwnKeepsOrderly(rows: Table, tx: Tx, known: iset<Resource>)
    requires Orderly(rows, tx, known)
    ensures Orderly(rows, Advance(rows, tx, ReleaseOwn), known)
  {
    hide OrderLock, OnlyExpired;
  }

  lemma WriteKeepsOrderly(rows: Table, tx: Tx, known: iset<Resource>)
    requires Orderly(rows, tx, known)
    requires tx.work.Reserve? && tx.pc.Writing? && tx.pc.j < |tx.work.request.items|
    ensures Orderly(rows, Advance(rows, tx, Write), known)
  {
    hide OrderLock, OnlyExpired, View;
    var r, j := tx.work.request, tx.pc.j;
    assert ItemResource(r, j) in known;
    assert ResourceOf(ItemKey(r, j), NewRow(r, r.items[j], tx.work.now)) == ItemResource(r, j);
  }

  lemma ReadsKeepOrderly(rows: Table, tx: Tx, a: Action, known: iset<Resource>)
    requires Orderly(rows, tx, known)
    requires a.LockOrder? || a.LockResource? || a.Reread? || a.Check?
    requires a.LockOrder? ==> tx.writes == map[] && tx.locks == {}
    requires !a.LockOrder? ==> tx.work.Reserve?
    requires a.LockResource? ==> tx.pc.Locking? && tx.pc.i < |tx.resources|
    requires a.Check? ==> tx.pc.Checking?
    ensures Orderly(rows, Advance(rows, tx, a), known)
  {
    hide OrderLock, ResourceLock, SameReservation, View;
  }

  lemma AdvanceKeepsOrderly(s: State, t: TxId, a: Action, known: iset<Resource>)
    requires Inv(s) && AllOrderly(s, known) && Enabled(s, t, a) && !a.Begin? && !a.Abort? && !a.Commit?
    ensures Orderly(s.rows, Advance(s.rows, s.txs[t], a), known)
  {
    hide TxInv, Orderly, RowsIn, Advance, WithinBounds, Exclusive, IsResourceList, RowsFree, LockFree, View;
    var tx := s.txs[t];
    assert TxInv(s.rows, tx) && Orderly(s.rows, tx, known);
    match a
    case Scan(list) => ScanKeepsOrderly(s.rows, tx, list, known);
    case ExpireOwn => ExpireOwnKeepsOrderly(s.rows, tx, known);
    case ExpireResource => ExpireResourceKeepsOrderly(s.rows, tx, known);
    case LockOrder =>
      BegunIsEmpty(s.rows, tx);
      ReadsKeepOrderly(s.rows, tx, a, known);
    case LockResource => ReadsKeepOrderly(s.rows, tx, a, known);
    case Reread => ReadsKeepOrderly(s.rows, tx, a, known);
    case Check => ReadsKeepOrderly(s.rows, tx, a, known);
    case Extend => ExtendKeepsOrderly(s.rows, tx, known);
    case ReleaseOwn => ReleaseOwnKeepsOrderly(s.rows, tx, known);
    case Write => WriteKeepsOrderly(s.rows, tx, known);
    case _ =>
  }

  lemma BegunIsEmpty(rows: Table, tx: Tx)
    requires TxInv(rows, tx) && tx.pc == Begun
    ensures tx.writes == map[] && tx.locks == {}
  {
  }

  lemma CommitKeepsOrderly(rows: Table, tx: Tx, other: Tx, known: iset<Resource>)
    requires RowsIn(rows, known) && Orderly(rows, tx, known) && Orderly(rows, other, known)
    requires tx.writes.Keys !! other.writes.Keys
    ensures RowsIn(View(rows, other), known) && Orderly(View(rows, other), tx, known)
  {
    hide OrderLock;
    var rows' := View(rows, other);
    forall k | k in tx.writes ensures (k in rows' <==> k in rows) && (k in rows ==> rows'[k] == rows[k]) {
      assert k in tx.writes.Keys;
    }
  }

  ghost predicate CallIn(a: Action, known: iset<Resource>) {
    a.Begin? && a.work.Reserve? ==> Names(a.work.request, known)
  }

  lemma StepKeepsOrderly(s: State, t: TxId, a: Action, known: iset<Resource>)
    requires Inv(s) && AllOrderly(s, known) && Enabled(s, t, a) && CallIn(a, known)
    ensures AllOrderly(Apply(s, t, a), known)
  {
    hide Inv, Orderly, RowsIn, Advance, Fits, View;
    if a.Begin? {
      assert Orderly(s.rows, Tx(a.work, Begun, {}, map[], [], {}), known) by { BeginsOrderly(s.rows, a, known); }
    } else if a.Commit? {
      CommitOrderly(s, t, known);
    } else if !a.Abort? {
      AdvanceKeepsOrderly(s, t, a, known);
    }
  }

  lemma BeginsOrderly(rows: Table, a: Action, known: iset<Resource>)
    requires a.Begin? && CallIn(a, known)
    ensures Orderly(rows, Tx(a.work, Begun, {}, map[], [], {}), known)
  {
  }

  lemma CommitOrderly(s: State, t: TxId, known: iset<Resource>)
    requires Inv(s) && AllOrderly(s, known) && Enabled(s, t, Commit)
    ensures AllOrderly(Apply(s, t, Commit), known)
  {
    hide TxInv, Orderly, RowsIn, WithinBounds, View, NewBounds;
    assert RowsIn(View(s.rows, s.txs[t]), known) by { CommitRows(s.rows, s.txs[t], known); }
    forall u | u in s.txs && u != t ensures Orderly(View(s.rows, s.txs[t]), s.txs[u], known) {
      CommitKeepsOrderly(s.rows, s.txs[u], s.txs[t], known);
    }
  }

  lemma CommitRows(rows: Table, tx: Tx, known: iset<Resource>)
    requires RowsIn(rows, known) && Orderly(rows, tx, known)
    ensures RowsIn(View(rows, tx), known)
  {
    hide OrderLock;
  }

  // ---- Where waits can happen -------------------------------------------------------------

  // A row of another order that a transaction has written lies on a resource it has locked.
  lemma ForeignWriteLocked(s: State, known: iset<Resource>, t: TxId, u: TxId, k: Key)
    requires Inv(s) && AllOrderly(s, known) && t in s.txs && u in s.txs && t != u
    requires k in s.txs[u].writes && k.order != s.txs[u].work.Order()
    ensures ActiveAt(View(s.rows, s.txs[t]), k) && View(s.rows, s.txs[t])[k] == s.rows[k]
    ensures ResourceLock(ResourceOf(k, s.rows[k])) !in s.txs[t].locks
    ensures k !in s.txs[t].writes
  {
    hide OrderLock, ResourceLock, WithinBounds;
    var a, b := s.txs[t], s.txs[u];
    assert TxInv(s.rows, b) && Orderly(s.rows, b, known);
    assert a.locks !! b.locks && a.writes.Keys !! b.writes.Keys;
    assert k in b.writes.Keys;
  }

  // A transaction waits for rows only before it holds a resource lock, or at a resource it has just
  // locked, for another order's rows.
  lemma RowWaits(s: State, known: iset<Resource>, t: TxId, u: TxId, k: Key)
    requires Inv(s) && AllOrderly(s, known) && t in s.txs && u in s.txs && t != u
    requires k in NextRows(s.rows, s.txs[t]) && k in s.txs[u].writes
    ensures s.txs[t].pc == OrderLocked
      || (s.txs[t].work.Reserve? && s.txs[t].pc.Locked? && k.order == s.txs[u].work.Order())
  {
    hide OrderLock, ResourceLock, WithinBounds, SameReservation, Granted, AllFit, IsResourceList;
    var a, view := s.txs[t], View(s.rows, s.txs[t]);
    assert TxInv(s.rows, a);
    if k.order == s.txs[u].work.Order() {
      assert TxInv(s.rows, s.txs[u]);
      OwnOrderHeld(s, t, u);
    } else {
      ForeignWriteLocked(s, known, t, u, k);
      if a.pc.Extending? || a.pc.Checking? {
        OwnLocked(a, view, k);
      }
    }
  }

  // Two open transactions past their order lock work on different orders.
  lemma OwnOrderHeld(s: State, t: TxId, u: TxId)
    requires Inv(s) && t in s.txs && u in s.txs && t != u && s.txs[t].pc != Begun && s.txs[u].pc != Begun
    ensures s.txs[t].work.Order() != s.txs[u].work.Order()
  {
    hide OrderLock, ResourceLock, WithinBounds, WritesCovered, SameReservation, Granted, AllFit;
    assert TxInv(s.rows, s.txs[t]) && TxInv(s.rows, s.txs[u]);
    assert s.txs[t].locks !! s.txs[u].locks;
  }

  // ---- Circles ----------------------------------------------------------------------------

  ghost predicate AmongResources(tx: Tx) {
    tx.work.Reserve? && (tx.pc.Locking? || tx.pc.Locked?) && tx.pc.i < |tx.resources|
  }

  function CurrentKey(tx: Tx): string
    requires AmongResources(tx)
  {
    ResourceKey(tx.resources[tx.pc.i])
  }

  lemma WaiterPlace(s: State, known: iset<Resource>, t: TxId, u: TxId)
    requires Inv(s) && AllOrderly(s, known) && WaitsFor(s, t, u)
    ensures s.txs[t].pc == Begun || s.txs[t].pc == OrderLocked || AmongResources(s.txs[t])
  {
    hide Inv, AllOrderly, NextRows, OrderLock, ResourceLock;
    if WaitsForRow(s.rows, s.txs[t], s.txs[u]) {
      var k :| k in NextRows(s.rows, s.txs[t]) && k in s.txs[u].writes;
      RowWaits(s, known, t, u, k);
      if s.txs[t].pc != OrderLocked { NextRowsPlace(s.rows, s.txs[t], k); }
    }
  }

  lemma NextRowsPlace(rows: Table, tx: Tx, k: Key)
    requires k in NextRows(rows, tx) && tx.pc.Locked?
    ensures AmongResources(tx)
  {
  }

  // Whoever is waited for by a transaction past its own order lock is itself past it.
  lemma HolderPlace(s: State, known: iset<Resource>, t: TxId, u: TxId)
    requires Inv(s) && AllOrderly(s, known) && WaitsFor(s, t, u)
    ensures s.txs[u].pc != Begun
    ensures s.txs[u].pc == OrderLocked ==> s.txs[t].pc == Begun
  {
    hide OrderLock, ResourceLock, WithinBounds, Exclusive, NextRows, SameReservation, Granted, AllFit, WritesCovered,
         LockedPrefix, ResourcesCover;
    var a, b := s.txs[t], s.txs[u];
    assert TxInv(s.rows, b) && Orderly(s.rows, b, known);
    if b.pc == OrderLocked && WantsResource(a) {
      LockKindsDiffer(b.work.Order(), a.resources[a.pc.i]);
    }
  }

  // In the middle of a chain of waits stands a Reserve among its resources.
  lemma MiddlePlace(s: State, known: iset<Resource>, t: TxId, u: TxId, v: TxId, w: TxId)
    requires Inv(s) && AllOrderly(s, known) && WaitsFor(s, t, u) && WaitsFor(s, u, v) && WaitsFor(s, v, w)
    ensures AmongResources(s.txs[v])
  {
    hide Inv, AllOrderly, WaitsFor;
    HolderPlace(s, known, t, u);
    HolderPlace(s, known, u, v);
    WaiterPlace(s, known, v, w);
  }

  // It has written a row of its own order.
  ghost predicate WroteOwn(tx: Tx) {
    exists k :: k in tx.writes && k.order == tx.work.Order()
  }

  lemma OwnWriteKey(tx: Tx)
    requires WroteOwn(tx)
    ensures exists k :: k in tx.writes && k.order == tx.work.Order()
  {
  }

  // Between two transactions among their resources, a wait for a lock leads to a later key.
  lemma LockWaitAscends(s: State, known: iset<Resource>, t: TxId, u: TxId)
    requires Inv(s) && AllOrderly(s, known) && Unambiguous(known) && WaitsForLockOf(s, t, u)
    requires WantsResource(s.txs[t]) && WantsResource(s.txs[u])
    ensures Text.Less(CurrentKey(s.txs[t]), CurrentKey(s.txs[u]))
  {
    hide ResourceKey, ResourceLock, OrderLock, Text.Less, WithinBounds, Exclusive, WritesCovered, LockedPrefix;
    var a, b := s.txs[t], s.txs[u];
    assert TxInv(s.rows, b) && Orderly(s.rows, b, known) && Orderly(s.rows, a, known);
    var wanted := a.resources[a.pc.i];
    assert ResourceLock(wanted) in b.locks;
    LockKindsDiffer(b.work.Order(), wanted);
    var j :| 0 <= j < b.pc.i && ResourceLock(b.resources[j]) == ResourceLock(wanted);
    assert b.resources[j] == wanted;
  }

  // Whoever waits for a transaction that wrote no own row waits for a lock.
  lemma WaiterIsLocking(s: State, known: iset<Resource>, t: TxId, u: TxId)
    requires Inv(s) && AllOrderly(s, known) && WaitsFor(s, t, u) && AmongResources(s.txs[t]) && !WroteOwn(s.txs[u])
    ensures WaitsForLockOf(s, t, u)
  {
    hide Inv, AllOrderly, OrderLock, ResourceLock;
    if WaitsForRow(s.rows, s.txs[t], s.txs[u]) {
      var k :| k in NextRows(s.rows, s.txs[t]) && k in s.txs[u].writes;
      RowWaits(s, known, t, u, k);
    }
  }

  // The neighbours of a position on a circle whose last entry repeats the first.
  function Before(n: nat, i: nat): nat
    requires i < n && 2 <= n
  {
    if i == 0 then n - 2 else i - 1
  }

  function After(n: nat, i: nat): nat
    requires i < n && 2 <= n
  {
    if i == n - 1 then 1 else i + 1
  }

  lemma CycleStart(s: State, ts: seq<TxId>)
    requires Cycle(s, ts)
    ensures 2 <= |ts| && ts[0] == ts[|ts| - 1]
  {
  }

  lemma CycleStep(s: State, ts: seq<TxId>, i: nat)
    requires Cycle(s, ts) && i < |ts|
    ensures WaitsFor(s, ts[Before(|ts|, i)], ts[i]) && WaitsFor(s, ts[i], ts[After(|ts|, i)])
  {
    hide WaitsFor;
    assert i == 0 ==> WaitsFor(s, ts[|ts| - 2], ts[|ts| - 1]);
    assert i == |ts| - 1 ==> WaitsFor(s, ts[0], ts[1]);
  }

  lemma CyclePlaces(s: State, known: iset<Resource>, ts: seq<TxId>, i: nat)
    requires Inv(s) && AllOrderly(s, known) && Cycle(s, ts) && i < |ts|
    ensures ts[i] in s.txs && AmongResources(s.txs[ts[i]])
  {
    hide Inv, AllOrderly, WaitsFor, Cycle, AmongResources;
    CycleStart(s, ts);
    var before := Before(|ts|, i);
    CycleStep(s, ts, i);
    CycleStep(s, ts, before);
    WaiterAndHolder(s, ts[before], ts[i]);
    MiddlePlace(s, known, ts[Before(|ts|, before)], ts[before], ts[i], ts[After(|ts|, i)]);
  }

  ghost predicate NoneWroteOwn(s: State, ts: seq<TxId>) {
    forall i :: 0 <= i < |ts| && ts[i] in s.txs ==> !WroteOwn(s.txs[ts[i]])
  }

  lemma LockCycleStep(s: State, ts: seq<TxId>, i: nat)
    requires LockCycle(s, ts) && i < |ts|
    ensures WaitsForLockOf(s, ts[Before(|ts|, i)], ts[i]) && WaitsForLockOf(s, ts[i], ts[After(|ts|, i)])
  {
    hide WaitsForLock;
    assert i == 0 ==> WaitsForLockOf(s, ts[|ts| - 2], ts[|ts| - 1]);
    assert i == |ts| - 1 ==> WaitsForLockOf(s, ts[0], ts[1]);
  }

  lemma LockCyclePlaces(s: State, known: iset<Resource>, ts: seq<TxId>, i: nat)
    requires Inv(s) && AllOrderly(s, known) && LockCycle(s, ts) && i < |ts|
    ensures ts[i] in s.txs && WantsResource(s.txs[ts[i]])
  {
    hide Inv, AllOrderly, Cycle, LockCycle, OrderLock, ResourceLock;
    LockCycleIsCycle(s, ts);
    CycleStart(s, ts);
    CyclePlaces(s, known, ts, i);
    LockCycleStep(s, ts, i);
  }

  lemma {:induction false} KeysAscend(s: State, known: iset<Resource>, ts: seq<TxId>, n: nat)
    requires Inv(s) && AllOrderly(s, known) && Unambiguous(known) && LockCycle(s, ts) && 0 < n < |ts|
    ensures ts[0] in s.txs && AmongResources(s.txs[ts[0]]) && ts[n] in s.txs && AmongResources(s.txs[ts[n]])
    ensures Text.Less(CurrentKey(s.txs[ts[0]]), CurrentKey(s.txs[ts[n]]))
  {
    hide Inv, AllOrderly, Unambiguous, WaitsForLockOf, LockCycle, Text.Less, CurrentKey;
    LockCyclePlaces(s, known, ts, 0);
    LockCyclePlaces(s, known, ts, n - 1);
    LockCyclePlaces(s, known, ts, n);
    LockCycleStep(s, ts, n);
    LockWaitAscends(s, known, ts[n - 1], ts[n]);
    if n > 1 {
      KeysAscend(s, known, ts, n - 1);
      Text.LessTransitive(CurrentKey(s.txs[ts[0]]), CurrentKey(s.txs[ts[n - 1]]), CurrentKey(s.txs[ts[n]]));
    }
  }

  // The order lock first, resource locks in key order: no circle of waits for locks.
  lemma NoLockCycle(s: State, known: iset<Resource>, ts: seq<TxId>)
    requires Inv(s) && AllOrderly(s, known) && Unambiguous(known)
    ensures !LockCycle(s, ts)
  {
    hide Inv, AllOrderly, Unambiguous, LockWalk, Text.Less, CurrentKey, AmongResources;
    if LockCycle(s, ts) {
      KeysAscend(s, known, ts, |ts| - 1);
      Text.LessIrreflexive(CurrentKey(s.txs[ts[0]]));
    }
  }

  lemma OwnlessIsLockCycle(s: State, known: iset<Resource>, ts: seq<TxId>)
    requires Inv(s) && AllOrderly(s, known) && Cycle(s, ts) && NoneWroteOwn(s, ts)
    ensures LockCycle(s, ts)
  {
    hide Inv, AllOrderly, Cycle, WaitsFor, AmongResources, WroteOwn, WaitsForLockOf;
    CycleStart(s, ts);
    forall i, j | 0 <= i && j == i + 1 && j < |ts| ensures WaitsForLockOf(s, ts[i], ts[j]) {
      CycleStep(s, ts, j);
      CyclePlaces(s, known, ts, i);
      CyclePlaces(s, known, ts, j);
      WaiterIsLocking(s, known, ts[i], ts[j]);
    }
  }

  // A committed row of its own order, still active, that the transaction has expired by its clock.
  ghost predicate OwnExpiredRow(rows: Table, tx: Tx, k: Key) {
    && tx.work.Reserve? && k.order == tx.work.request.order && k in tx.writes
    && ActiveAt(rows, k) && rows[k].expiresAt <= tx.work.now
  }

  lemma OwnWriteIsExpired(s: State, known: iset<Resource>, t: TxId, k: Key)
    requires AllOrderly(s, known) && t in s.txs && AmongResources(s.txs[t])
    requires k in s.txs[t].writes && k.order == s.txs[t].work.Order()
    ensures OwnExpiredRow(s.rows, s.txs[t], k)
  {
    hide OrderLock, RowsIn;
    assert Orderly(s.rows, s.txs[t], known);
  }

  // Every circle of waits passes through a Reserve that found an active row of its own order expired by
  // its clock and is still taking its resource locks.
  lemma CircleNeedsOwnExpired(s: State, known: iset<Resource>, ts: seq<TxId>)
    requires Inv(s) && AllOrderly(s, known) && Unambiguous(known) && Cycle(s, ts)
    ensures exists i, k ::
      0 <= i < |ts| && ts[i] in s.txs && AmongResources(s.txs[ts[i]]) && OwnExpiredRow(s.rows, s.txs[ts[i]], k)
  {
    hide Inv, AllOrderly, Unambiguous, Cycle, LockCycle, AmongResources, WroteOwn;
    if NoneWroteOwn(s, ts) {
      OwnlessIsLockCycle(s, known, ts);
      NoLockCycle(s, known, ts);
      assert false;
    }
    var i :| 0 <= i < |ts| && ts[i] in s.txs && WroteOwn(s.txs[ts[i]]);
    CyclePlaces(s, known, ts, i);
    OwnWriteKey(s.txs[ts[i]]);
    var k :| k in s.txs[ts[i]].writes && k.order == s.txs[ts[i]].work.Order();
    OwnWriteIsExpired(s, known, ts[i], k);
  }

  // ---- Runs -------------------------------------------------------------------------------

  ghost predicate CallsIn(moves: seq<Move>, known: iset<Resource>) {
    forall i :: 0 <= i < |moves| ==> CallIn(moves[i].action, known)
  }

  lemma {:induction false} RunKeepsOrderly(s: State, moves: seq<Move>, known: iset<Resource>)
    requires Inv(s) && AllOrderly(s, known) && Legal(s, moves) && CallsIn(moves, known)
    ensures AllOrderly(Run(s, moves), known)
    decreases |moves|
  {
    hide Inv, Enabled, Apply, AllOrderly, CallIn;
    if moves != [] {
      StepKeepsInv(s, moves[0].t, moves[0].action);
      StepKeepsOrderly(s, moves[0].t, moves[0].action, known);
      RunKeepsOrderly(Apply(s, moves[0].t, moves[0].action), moves[1..], known);
    }
  }

  lemma RunOrderly(rows: Table, bound: map<Resource, int>, known: iset<Resource>, moves: seq<Move>)
    requires WithinBounds(rows, bound) && RowsIn(rows, known)
    requires Legal(State(rows, bound, map[]), moves) && CallsIn(moves, known)
    ensures Inv(Run(State(rows, bound, map[]), moves)) && AllOrderly(Run(State(rows, bound, map[]), moves), known)
  {
    hide WithinBounds, RowsIn, CallsIn;
    var s := State(rows, bound, map[]);
    assert Inv(s) && AllOrderly(s, known);
    RunKeepsInv(s, moves);
    RunKeepsOrderly(s, moves, known);
  }

  // Over every run, whatever expires: where the lock names tell the resources in play apart,
  // transactions never wait for each other's advisory locks in a circle.
  lemma NoWaitCycle(rows: Table, bound: map<Resource, int>, known: iset<Resource>, moves: seq<Move>, ts: seq<TxId>)
    requires WithinBounds(rows, bound) && RowsIn(rows, known) && Unambiguous(known)
    requires Legal(State(rows, bound, map[]), moves) && CallsIn(moves, known)
    ensures !LockCycle(Run(State(rows, bound, map[]), moves), ts)
  {
    hide WithinBounds, RowsIn, CallsIn, Unambiguous, LockCycle, Inv, AllOrderly;
    RunOrderly(rows, bound, known, moves);
    NoLockCycle(Run(State(rows, bound, map[]), moves), known, ts);
  }

  // The same for the registered warehouses, for any SKUs.
  lemma RegisteredNoWaitCycle(rows: Table, bound: map<Resource, int>, moves: seq<Move>, ts: seq<TxId>)
    requires WithinBounds(rows, bound) && Legal(State(rows, bound, map[]), moves)
    requires forall k :: ActiveAt(rows, k) ==> rows[k].code in CodesOf(REGISTERED)
    requires forall i :: 0 <= i < |moves| && moves[i].action.Begin? && moves[i].action.work.Reserve? ==>
      moves[i].action.work.request.code in CodesOf(REGISTERED)
    ensures !LockCycle(Run(State(rows, bound, map[]), moves), ts)
  {
    hide WithinBounds, LockCycle, CodesOf, Legal, Run, Unambiguous;
    var known := iset r: Resource | r.code in CodesOf(REGISTERED);
    RegisteredUnambiguous();
    assert RowsIn(rows, known) && CallsIn(moves, known);
    NoWaitCycle(rows, bound, known, moves, ts);
  }

  // Over every run: transactions wait in a circle only if one of them found a reservation of its own
  // order, still active in the table, expired by its clock.
  lemma CirclesOnlyAfterExpiry(rows: Table, bound: map<Resource, int>, known: iset<Resource>, moves: seq<Move>,
      ts: seq<TxId>)
    requires WithinBounds(rows, bound) && RowsIn(rows, known) && Unambiguous(known)
    requires Legal(State(rows, bound, map[]), moves) && CallsIn(moves, known)
    requires Cycle(Run(State(rows, bound, map[]), moves), ts)
    ensures var s := Run(State(rows, bound, map[]), moves);
            exists i, k :: 0 <= i < |ts| && ts[i] in s.txs && OwnExpiredRow(s.rows, s.txs[ts[i]], k)
  {
    hide WithinBounds, RowsIn, CallsIn, Unambiguous, Cycle, OwnExpiredRow, Inv, AllOrderly;
    RunOrderly(rows, bound, known, moves);
    CircleNeedsOwnExpired(Run(State(rows, bound, map[]), moves), known, ts);
  }
}
