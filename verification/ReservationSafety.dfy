// Safety of the reservation protocol over every interleaving.

module ReservationSafety {
  import opened Reservation
  import opened ReservationLocks
  import Text
  import FiniteSum

  // ---- A committing transaction disturbs nobody -------------------------------------------

  // What any transaction that holds its order lock can rely on while another one commits.
  ghost predicate Undisturbed(rows: Table, rows': Table, tx: Tx) {
    var view, view' := View(rows, tx), View(rows', tx);
    && (forall k :: ActiveAt(view', k) && k.order == tx.work.Order() ==> ActiveAt(view, k) && view'[k] == view[k])
    && (forall k :: ActiveAt(view, k) && k.order == tx.work.Order() && ResourceLock(ResourceOf(k, view[k])) in tx.locks
          ==> ActiveAt(view', k) && view'[k] == view[k])
    && (forall k :: ActiveAt(view', k) && ResourceLock(ResourceOf(k, view'[k])) in tx.locks
          ==> ActiveAt(view, k) && view'[k] == view[k])
    && (forall k :: k in tx.writes ==> (k in rows <==> k in rows') && (k in rows ==> rows'[k] == rows[k]))
  }

  // The other transaction's writes avoid this one's, and touch none of its locked active rows.
  ghost predicate Harmless(rows: Table, tx: Tx, other: Tx) {
    forall k :: k in other.writes ==>
      && k !in tx.writes
      && (k.order == tx.work.Order() ==> other.writes[k].status != Active)
      && (other.writes[k].status == Active ==> ResourceLock(ResourceOf(k, other.writes[k])) !in tx.locks)
      && (k.order == tx.work.Order() && k in rows ==> ResourceLock(ResourceOf(k, rows[k])) !in tx.locks)
  }

  lemma OthersHarmless(rows: Table, tx: Tx, other: Tx)
    requires WritesCovered(rows, other) && OrderLock(tx.work.Order()) in tx.locks
    requires tx.locks !! other.locks && tx.writes.Keys !! other.writes.Keys
    ensures Harmless(rows, tx, other)
  {
    hide OrderLock, ResourceLock;
    forall k | k in other.writes ensures k !in tx.writes {
      assert k in other.writes.Keys;
    }
  }

  lemma CommitLeavesUndisturbed(rows: Table, tx: Tx, other: Tx)
    requires Harmless(rows, tx, other)
    ensures Undisturbed(rows, View(rows, other), tx)
  {
    hide OrderLock, ResourceLock, Harmless, View;
    var rows' := View(rows, other);
    var view, view' := View(rows, tx), View(rows', tx);
    forall k | ActiveAt(view', k) && (k.order == tx.work.Order() || ResourceLock(ResourceOf(k, view'[k])) in tx.locks)
      ensures ActiveAt(view, k) && view'[k] == view[k]
    {
      CommitLeavesRow(rows, tx, other, k);
    }
    forall k | ActiveAt(view, k) && k.order == tx.work.Order() && ResourceLock(ResourceOf(k, view[k])) in tx.locks
      ensures ActiveAt(view', k) && view'[k] == view[k]
    {
      CommitLeavesRow(rows, tx, other, k);
    }
    forall k | k in tx.writes ensures (k in rows <==> k in rows') && (k in rows ==> rows'[k] == rows[k]) {
      CommitLeavesRow(rows, tx, other, k);
    }
  }

  ghost predicate RowUndisturbed(rows: Table, rows': Table, view: Table, view': Table, tx: Tx, k: Key) {
    && (k in tx.writes ==> (k in rows <==> k in rows') && (k in rows ==> rows'[k] == rows[k]))
    && (ActiveAt(view', k) && (k.order == tx.work.Order() || ResourceLock(ResourceOf(k, view'[k])) in tx.locks)
        ==> ActiveAt(view, k) && view'[k] == view[k])
    && (ActiveAt(view, k) && k.order == tx.work.Order() && ResourceLock(ResourceOf(k, view[k])) in tx.locks
        ==> ActiveAt(view', k) && view'[k] == view[k])
  }

  lemma CommitLeavesRow(rows: Table, tx: Tx, other: Tx, k: Key)
    requires Harmless(rows, tx, other)
    ensures RowUndisturbed(rows, View(rows, other), View(rows, tx), View(View(rows, other), tx), tx, k)
  {
    hide OrderLock, ResourceLock;
  }

  lemma FitsAfterCommit(rows: Table, rows': Table, tx: Tx, n: nat)
    requires tx.work.Reserve? && n <= |tx.work.request.items|
    requires AllFit(View(rows, tx), tx.work.request, n) && Undisturbed(rows, rows', tx)
    requires forall m :: 0 <= m < n ==> ResourceLock(ItemResource(tx.work.request, m)) in tx.locks
    ensures AllFit(View(rows', tx), tx.work.request, n)
  {
    hide ResourceLock;
    var view, view', request := View(rows, tx), View(rows', tx), tx.work.request;
    forall m | 0 <= m < n ensures ItemFits(view', request, m) {
      assert ItemFits(view, request, m);
      var r := ItemResource(request, m);
      FiniteSum.SumMonotone(view'.Keys, HeldByOthers(view', r, request.order), view.Keys,
        HeldByOthers(view, r, request.order));
    }
  }

  lemma ItemLocked(tx: Tx, view: Table, j: nat)
    requires tx.work.Reserve? && ResourcesCover(view, tx) && LockedPrefix(view, tx, |tx.resources|)
    requires j < |tx.work.request.items|
    ensures ResourceLock(ItemResource(tx.work.request, j)) in tx.locks
    ensures forall k :: ActiveOn(view, k, ItemResource(tx.work.request, j)) ==> view[k].expiresAt > tx.work.now
  {
    hide ResourceLock;
    var r := ItemResource(tx.work.request, j);
    assert r in tx.resources;
    var i :| 0 <= i < |tx.resources| && tx.resources[i] == r;
  }

  lemma OwnLocked(tx: Tx, view: Table, k: Key)
    requires tx.work.Reserve? && ResourcesCover(view, tx) && LockedPrefix(view, tx, |tx.resources|)
    requires ActiveAt(view, k) && k.order == tx.work.Order()
    ensures ResourceLock(ResourceOf(k, view[k])) in tx.locks
  {
    hide ResourceLock;
    var r := ResourceOf(k, view[k]);
    assert r in tx.resources;
    var i :| 0 <= i < |tx.resources| && tx.resources[i] == r;
  }

  lemma PrefixAfterCommit(rows: Table, rows': Table, tx: Tx, n: nat)
    requires tx.work.Reserve? && n <= |tx.resources| && LockedPrefix(View(rows, tx), tx, n)
    requires Undisturbed(rows, rows', tx)
    ensures LockedPrefix(View(rows', tx), tx, n)
  {
    hide ResourceLock;
  }

  lemma SameAfterCommit(rows: Table, rows': Table, tx: Tx)
    requires tx.work.Reserve? && Undisturbed(rows, rows', tx)
    requires ResourcesCover(View(rows, tx), tx) && LockedPrefix(View(rows, tx), tx, |tx.resources|)
    requires SameReservation(View(rows, tx), tx.work.request, tx.work.now)
    ensures SameReservation(View(rows', tx), tx.work.request, tx.work.now)
  {
    hide ResourceLock, ResourcesCover, LockedPrefix;
    var view, view', r, now := View(rows, tx), View(rows', tx), tx.work.request, tx.work.now;
    forall k ensures k in UnexpiredOfOrder(view, r.order, now) <==> k in UnexpiredOfOrder(view', r.order, now) {
      if k in UnexpiredOfOrder(view, r.order, now) {
        OwnLocked(tx, view, k);
      }
    }
    assert UnexpiredOfOrder(view, r.order, now) == UnexpiredOfOrder(view', r.order, now);
    forall j | 0 <= j < |r.items| && ItemKey(r, j) in view'
      ensures view'[ItemKey(r, j)].warehouseKey == r.warehouseKey
      ensures view'[ItemKey(r, j)].code == r.code && view'[ItemKey(r, j)].quantity == r.items[j].quantity
    {
      assert ItemKey(r, j) in UnexpiredOfOrder(view, r.order, now);
      OwnLocked(tx, view, ItemKey(r, j));
    }
  }

  // No transaction's invariant depends on what another one commits.
  lemma CommitKeepsOthers(rows: Table, tx: Tx, other: Tx)
    requires TxInv(rows, tx) && TxInv(rows, other)
    requires tx.locks !! other.locks && tx.writes.Keys !! other.writes.Keys
    ensures TxInv(View(rows, other), tx)
  {
    var rows' := View(rows, other);
    if tx.pc != Begun {
      OthersHarmless(rows, tx, other);
      CommitLeavesUndisturbed(rows, tx, other);
      UndisturbedKeepsInv(rows, rows', tx);
    }
  }

  lemma CoverAfterCommit(rows: Table, rows': Table, tx: Tx)
    requires tx.work.Reserve? && Undisturbed(rows, rows', tx)
    ensures ResourcesCover(View(rows, tx), tx) ==> ResourcesCover(View(rows', tx), tx)
    ensures OwnUnexpired(View(rows, tx), tx) ==> OwnUnexpired(View(rows', tx), tx)
  {
    hide ResourceLock, ResourceKey, Text.Less;
  }

  lemma WritesAfterCommit(rows: Table, rows': Table, tx: Tx)
    requires WritesCovered(rows, tx) && Undisturbed(rows, rows', tx)
    ensures WritesCovered(rows', tx)
  {
    hide OrderLock, ResourceLock, View;
  }

  lemma UndisturbedKeepsInv(rows: Table, rows': Table, tx: Tx)
    requires TxInv(rows, tx) && tx.pc != Begun && Undisturbed(rows, rows', tx)
    ensures TxInv(rows', tx)
  {
    hide OrderLock, ResourceLock, SameReservation, AllFit, LockedPrefix, LockNames, ResourcesCover, OwnUnexpired,
         WritesCovered;
    var view := View(rows, tx);
    WritesAfterCommit(rows, rows', tx);
    if tx.work.Reserve? { CoverAfterCommit(rows, rows', tx); }
    if tx.work.Reserve? {
      match tx.pc
      case Locking(i) => PrefixAfterCommit(rows, rows', tx, i);
      case Locked(i) => PrefixAfterCommit(rows, rows', tx, i);
      case Extending =>
        PrefixAfterCommit(rows, rows', tx, |tx.resources|);
        SameAfterCommit(rows, rows', tx);
      case Checking(j) =>
        PrefixAfterCommit(rows, rows', tx, |tx.resources|);
        forall m | 0 <= m < j ensures ResourceLock(ItemResource(tx.work.request, m)) in tx.locks {
          ItemLocked(tx, view, m);
        }
        FitsAfterCommit(rows, rows', tx, j);
      case Writing(j) =>
        FitsAfterCommit(rows, rows', tx, |tx.work.request.items|);
      case _ =>
    }
  }

  // ---- A commit stays within the bounds ---------------------------------------------------

  lemma NotRaised(rows: Table, rows': Table, r: Resource)
    requires forall k :: ActiveOn(rows', k, r) ==> ActiveOn(rows, k, r) && rows'[k].quantity == rows[k].quantity
    ensures ActiveQuantity(rows', r) <= ActiveQuantity(rows, r)
  {
    FiniteSum.SumMonotone(rows'.Keys, Held(rows', r), rows.Keys, Held(rows, r));
  }

  // After the writes of a Reserve, each requested resource holds the others' quantity plus the item's.
  lemma WrittenItemFits(view: Table, request: Request, now: int, j: nat)
    requires j < |request.items| && Granted(view, request, now, |request.items|) && ItemFits(view, request, j)
    ensures ActiveQuantity(view, ItemResource(request, j)) <= request.items[j].observed
  {
    var r, o, k := ItemResource(request, j), request.order, ItemKey(request, j);
    assert ActiveAt(view, k) && GrantedRow(view[k], request, now, j);
    FiniteSum.SumRemove(view.Keys, Held(view, r), k);
    assert forall x: Key :: x.order == o && ActiveOn(view, x, r) ==> x == k;
    FiniteSum.SumMonotone(view.Keys - {k}, Held(view, r), view.Keys, HeldByOthers(view, r, o));
  }

  ghost predicate Creates(tx: Tx, r: Resource) {
    && tx.work.Reserve? && tx.pc.Writing?
    && exists j :: 0 <= j < |tx.work.request.items| && ItemResource(tx.work.request, j) == r
  }

  lemma WrittenIsCreated(view: Table, tx: Tx, k: Key)
    requires tx.work.Reserve? && tx.pc == Writing(|tx.work.request.items|)
    requires Granted(view, tx.work.request, tx.work.now, |tx.work.request.items|)
    requires ActiveAt(view, k) && k.order == tx.work.request.order
    ensures Creates(tx, ResourceOf(k, view[k]))
  {
    var j :| 0 <= j < |tx.work.request.items| && k == ItemKey(tx.work.request, j);
    assert GrantedRow(view[k], tx.work.request, tx.work.now, j);
    assert ItemResource(tx.work.request, j) == ResourceOf(k, view[k]);
  }

  // Only a reservation created on a resource can raise its active quantity.
  lemma CommitRaisesOnlyCreated(rows: Table, tx: Tx, r: Resource)
    requires TxInv(rows, tx) && !Creates(tx, r)
    requires tx.pc == Extended || tx.pc == ReleaseDone
      || (tx.work.Reserve? && tx.pc == Writing(|tx.work.request.items|))
    ensures ActiveQuantity(View(rows, tx), r) <= ActiveQuantity(rows, r)
  {
    hide OrderLock, ResourceLock, ActiveQuantity, AllFit, LockNames, OwnInWrites;
    var view := View(rows, tx);
    forall k | ActiveOn(view, k, r)
      ensures ActiveOn(rows, k, r) && view[k].quantity == rows[k].quantity
    {
      assert k in tx.writes ==> ActiveAt(tx.writes, k) && k.order == tx.work.Order();
      if k in tx.writes && tx.pc.Writing? {
        WrittenIsCreated(view, tx, k);
      }
    }
    NotRaised(rows, view, r);
  }

  lemma CommitWithinBounds(rows: Table, bound: map<Resource, int>, tx: Tx)
    requires TxInv(rows, tx) && WithinBounds(rows, bound)
    requires tx.pc == Extended || tx.pc == ReleaseDone
      || (tx.work.Reserve? && tx.pc == Writing(|tx.work.request.items|))
    ensures WithinBounds(View(rows, tx), NewBounds(bound, tx))
  {
    hide OrderLock, ResourceLock, ActiveQuantity, LockNames, OwnInWrites, ItemFits, Granted, OnlyProlongs,
         WritesCovered;
    var view, bound' := View(rows, tx), NewBounds(bound, tx);
    forall r ensures ActiveQuantity(view, r) <= if r in bound' then bound'[r] else 0 {
      if Creates(tx, r) {
        var j :| 0 <= j < |tx.work.request.items| && ItemResource(tx.work.request, j) == r;
        assert ItemFits(view, tx.work.request, j);
        WrittenItemFits(view, tx.work.request, tx.work.now, j);
        BoundsAfterAt(bound, tx.work.request, |tx.work.request.items|, r);
      } else {
        CommitRaisesOnlyCreated(rows, tx, r);
        if tx.pc.Writing? {
          BoundsAfterAt(bound, tx.work.request, |tx.work.request.items|, r);
        }
      }
    }
  }

  lemma {:induction false} BoundsAfterAt(bound: map<Resource, int>, request: Request, n: nat, r: Resource)
    requires n <= |request.items| && ValidRequest(request)
    ensures forall j :: 0 <= j < n && ItemResource(request, j) == r ==>
      r in BoundsAfter(bound, request, n) && BoundsAfter(bound, request, n)[r] == request.items[j].observed
    ensures (forall j :: 0 <= j < n ==> ItemResource(request, j) != r) ==>
      (r in BoundsAfter(bound, request, n) <==> r in bound)
        && (r in bound ==> BoundsAfter(bound, request, n)[r] == bound[r])
  {
    if n > 0 {
      BoundsAfterAt(bound, request, n - 1, r);
    }
  }

  // ---- Each statement keeps its transaction's invariant -----------------------------------

  // A view in which some rows have merely stopped being active.
  ghost predicate Shrunk(view: Table, view': Table) {
    forall k :: ActiveAt(view', k) ==> ActiveAt(view, k) && view'[k] == view[k]
  }

  lemma ShrunkKeeps(view: Table, view': Table, tx: Tx, n: nat)
    requires tx.work.Reserve? && Shrunk(view, view') && ResourcesCover(view, tx) && n <= |tx.resources|
    requires LockedPrefix(view, tx, n)
    ensures ResourcesCover(view', tx) && LockedPrefix(view', tx, n)
  {
    hide ResourceKey, Text.Less, ResourceLock;
  }

  lemma MarkedShrinks(rows: Table, tx: Tx, keys: set<Key>, status: Status)
    requires status != Active
    ensures Shrunk(View(rows, tx), View(rows, tx.(writes := tx.writes + Marked(View(rows, tx), keys, status))))
    ensures NoActiveWrites(tx) ==> NoActiveWrites(tx.(writes := tx.writes + Marked(View(rows, tx), keys, status)))
    ensures forall k :: k in keys ==>
      !ActiveAt(View(rows, tx.(writes := tx.writes + Marked(View(rows, tx), keys, status))), k)
  {
    MarkedView(rows, tx, keys, status);
  }

  lemma MarkedView(rows: Table, tx: Tx, keys: set<Key>, status: Status)
    ensures View(rows, tx.(writes := tx.writes + Marked(View(rows, tx), keys, status)))
            == View(rows, tx) + Marked(View(rows, tx), keys, status)
  {
    hide Marked;
  }

  // Marking rows the locks cover keeps every write covered.
  lemma MarkedCovered(rows: Table, tx: Tx, keys: set<Key>, status: Status)
    requires status != Active && WritesCovered(rows, tx) && OrderLock(tx.work.Order()) in tx.locks
    requires forall k :: k in keys && k in View(rows, tx) && k.order != tx.work.Order() ==>
      ResourceLock(ResourceOf(k, View(rows, tx)[k])) in tx.locks
    ensures WritesCovered(rows, tx.(writes := tx.writes + Marked(View(rows, tx), keys, status)))
  {
    hide OrderLock, ResourceLock;
  }

  lemma ExpireOwnKeeps(rows: Table, tx: Tx)
    requires TxInv(rows, tx) && tx.work.Reserve? && tx.pc == OrderLocked
    ensures TxInv(rows, Advance(rows, tx, ExpireOwn))
  {
    hide OrderLock, ResourceLock, Marked, WritesCovered, NoActiveWrites;
    var view, tx' := View(rows, tx), Advance(rows, tx, ExpireOwn);
    var keys := ExpiredOfOrder(view, tx.work.Order(), tx.work.now);
    var marked := tx.(writes := tx.writes + Marked(view, keys, Expired));
    MarkedShrinks(rows, tx, keys, Expired);
    MarkedCovered(rows, tx, keys, Expired);
    CoveredAnyPc(rows, marked, tx');
    NoneActiveAnyPc(marked, tx');
    var view' := View(rows, tx');
    forall k | ActiveAt(view', k) && k.order == tx.work.request.order ensures view'[k].expiresAt > tx.work.now {
      assert k !in keys && ActiveAt(view, k) && view'[k] == view[k];
    }
  }

  lemma ScanKeeps(rows: Table, tx: Tx, list: seq<Resource>)
    requires TxInv(rows, tx) && tx.work.Reserve? && tx.pc == OwnExpired
    requires IsResourceList(list, View(rows, tx), tx.work.request, tx.work.now)
    ensures TxInv(rows, Advance(rows, tx, Scan(list)))
  {
    hide OrderLock, ResourceLock, ResourceKey, Text.Less;
    var view, request := View(rows, tx), tx.work.request;
    forall k | ActiveAt(view, k) && k.order == request.order ensures ResourceOf(k, view[k]) in list {
      assert k in UnexpiredOfOrder(view, request.order, tx.work.now);
    }
    var tx' := Advance(rows, tx, Scan(list));
    assert View(rows, tx') == view;
    assert LockNames(tx', 0);
  }

  lemma LockResourceKeeps(rows: Table, tx: Tx)
    requires TxInv(rows, tx) && tx.work.Reserve? && tx.pc.Locking? && tx.pc.i < |tx.resources|
    ensures TxInv(rows, Advance(rows, tx, LockResource))
  {
    hide OrderLock, ResourceLock, ResourceKey, Text.Less, LockNames, ResourcesCover, NoActiveWrites, OwnUnexpired,
         WritesCovered, LockedPrefix;
    var i, tx' := tx.pc.i, Advance(rows, tx, LockResource);
    assert View(rows, tx') == View(rows, tx);
    MoreLocks(rows, View(rows, tx), tx, tx', i);
    UnexpiredAnyPc(View(rows, tx), tx, tx');
    NoneActiveAnyPc(tx, tx');
  }

  // Everything stated in terms of held locks survives taking another one.
  lemma MoreLocks(rows: Table, view: Table, tx: Tx, tx': Tx, i: nat)
    requires tx.work.Reserve? && i < |tx.resources| && tx'.work == tx.work && tx'.resources == tx.resources
    requires tx'.seen == tx.seen
    requires tx'.writes == tx.writes && tx'.locks == tx.locks + {ResourceLock(tx.resources[i])}
    requires WritesCovered(rows, tx) && ResourcesCover(view, tx) && LockedPrefix(view, tx, i) && LockNames(tx, i)
    ensures WritesCovered(rows, tx') && ResourcesCover(view, tx') && LockedPrefix(view, tx', i) && LockNames(tx', i + 1)
  {
    hide OrderLock, ResourceLock, ResourceKey, Text.Less;
  }

  lemma ExpireResourceKeeps(rows: Table, tx: Tx)
    requires TxInv(rows, tx) && tx.work.Reserve? && tx.pc.Locked? && tx.pc.i < |tx.resources|
    ensures TxInv(rows, Advance(rows, tx, ExpireResource))
  {
    hide OrderLock, ResourceLock, ResourceKey, Text.Less, Marked, WritesCovered, NoActiveWrites, ResourcesCover,
         LockNames, LockedPrefix;
    var i, tx' := tx.pc.i, Advance(rows, tx, ExpireResource);
    var view, view' := View(rows, tx), View(rows, tx');
    var keys := ExpiredOnResource(view, tx.resources[i], tx.work.now);
    MarkedShrinks(rows, tx, keys, Expired);
    LastLocked(tx, i);
    MarkedCovered(rows, tx, keys, Expired);
    assert view' == View(rows, tx.(writes := tx.writes + Marked(view, keys, Expired)));
    ShrunkKeeps(view, view', tx, i);
    PrefixGrows(view', tx, i);
    SameFrame(view', tx, tx', i + 1);
    assert WritesCovered(rows, tx') by {
      CoveredAnyPc(rows, tx.(writes := tx.writes + Marked(view, keys, Expired)), tx');
    }
    assert NoActiveWrites(tx') by { NoneActiveAnyPc(tx.(writes := tx.writes + Marked(view, keys, Expired)), tx'); }
  }

  lemma LastLocked(tx: Tx, i: nat)
    requires i < |tx.resources| && LockNames(tx, i + 1)
    ensures ResourceLock(tx.resources[i]) in tx.locks
  {
    hide ResourceLock, OrderLock;
  }

  lemma PrefixGrows(view: Table, tx: Tx, i: nat)
    requires tx.work.Reserve? && i < |tx.resources| && LockedPrefix(view, tx, i)
    requires ResourceLock(tx.resources[i]) in tx.locks
    requires forall k :: ActiveOn(view, k, tx.resources[i]) ==> view[k].expiresAt > tx.work.now
    ensures LockedPrefix(view, tx, i + 1)
  {
    hide ResourceLock;
  }

  lemma SameFrame(view: Table, tx: Tx, tx': Tx, n: nat)
    requires tx.work.Reserve? && tx'.work == tx.work && tx'.resources == tx.resources && tx'.locks == tx.locks
    requires tx'.seen == tx.seen
    requires n <= |tx.resources| && ResourcesCover(view, tx) && LockedPrefix(view, tx, n)
    ensures ResourcesCover(view, tx') && LockedPrefix(view, tx', n)
    ensures LockNames(tx, n) ==> LockNames(tx', n)
  {
    hide ResourceKey, Text.Less, ResourceLock, OrderLock;
  }

  lemma CoveredAnyPc(rows: Table, tx: Tx, tx': Tx)
    requires WritesCovered(rows, tx) && tx' == tx.(pc := tx'.pc)
    ensures WritesCovered(rows, tx')
  {
    hide ResourceLock, OrderLock;
  }

  lemma NoneActiveAnyPc(tx: Tx, tx': Tx)
    requires NoActiveWrites(tx) && tx'.writes == tx.writes
    ensures NoActiveWrites(tx')
  {
  }

  lemma RereadKeeps(rows: Table, tx: Tx)
    requires TxInv(rows, tx) && tx.work.Reserve? && tx.pc == Locking(|tx.resources|)
    ensures TxInv(rows, Advance(rows, tx, Reread))
  {
    hide OrderLock, ResourceLock, ResourceKey, Text.Less, SameReservation, LockNames;
    assert View(rows, Advance(rows, tx, Reread)) == View(rows, tx);
  }

  lemma ExtendKeeps(rows: Table, tx: Tx)
    requires TxInv(rows, tx) && tx.work.Reserve? && tx.pc == Extending
    ensures TxInv(rows, Advance(rows, tx, Extend))
  {
    hide OrderLock, ResourceLock, ResourceKey, Text.Less, LockNames, LockedPrefix, ResourcesCover, SameReservation,
         Granted, WritesCovered, OnlyProlongs, NoActiveWrites, OwnInWrites;
    var tx' := Advance(rows, tx, Extend);
    var view := View(rows, tx);
    forall k | ActiveAt(view, k) && k.order == tx.work.request.order
      ensures ResourceLock(ResourceOf(k, view[k])) in tx.locks
    {
      OwnLocked(tx, view, k);
    }
    ExtendedView(rows, tx, tx');
    ExtendedGranted(view, View(rows, tx'), tx.work.request, tx.work.now);
    ExtendedCovered(rows, tx, tx');
  }

  lemma ExtendedView(rows: Table, tx: Tx, tx': Tx)
    requires tx.work.Reserve? && tx' == Advance(rows, tx, Extend)
    ensures var view, view', o := View(rows, tx), View(rows, tx'), tx.work.request.order;
            && (forall k :: ActiveAt(view', k) && k.order == o ==> ActiveAt(view, k))
            && (forall k :: ActiveAt(view, k) && k.order == o ==>
                  k in tx'.writes && k in view' && view'[k] == view[k].(expiresAt := tx.work.now + TTL))
            && OwnInWrites(view', tx')
  {
    var view, own := View(rows, tx), ActiveOfOrder(View(rows, tx), tx.work.request.order);
    assert forall k :: ActiveAt(view, k) && k.order == tx.work.request.order <==> k in own;
  }

  lemma ExtendedCovered(rows: Table, tx: Tx, tx': Tx)
    requires tx.work.Reserve? && WritesCovered(rows, tx) && NoActiveWrites(tx)
    requires OrderLock(tx.work.request.order) in tx.locks
    requires forall k :: ActiveAt(View(rows, tx), k) && k.order == tx.work.request.order ==>
      ResourceLock(ResourceOf(k, View(rows, tx)[k])) in tx.locks
    requires tx' == Advance(rows, tx, Extend)
    ensures WritesCovered(rows, tx') && OnlyProlongs(rows, tx')
  {
    hide OrderLock, ResourceLock, Advance;
    ExtendedWrites(rows, tx, tx');
  }

  lemma ExtendedWrites(rows: Table, tx: Tx, tx': Tx)
    requires tx.work.Reserve? && NoActiveWrites(tx) && tx' == Advance(rows, tx, Extend)
    ensures tx'.locks == tx.locks && tx'.work == tx.work
    ensures forall k :: k in tx'.writes ==>
      || (k.order == tx.work.request.order && ActiveAt(rows, k) && ActiveAt(View(rows, tx), k)
        && View(rows, tx)[k] == rows[k]
          && tx'.writes[k] == rows[k].(expiresAt := tx.work.now + TTL))
      || (k in tx.writes && tx'.writes[k] == tx.writes[k])
  {
    var view, own := View(rows, tx), ActiveOfOrder(View(rows, tx), tx.work.request.order);
    forall k | k in tx'.writes && k in own
      ensures k.order == tx.work.request.order && ActiveAt(rows, k) && ActiveAt(view, k) && view[k] == rows[k]
      ensures tx'.writes[k] == rows[k].(expiresAt := tx.work.now + TTL)
    {
      assert k !in tx.writes;
    }
  }

  lemma ExtendedGranted(view: Table, view': Table, r: Request, now: int)
    requires SameReservation(view, r, now)
    requires forall k :: ActiveAt(view, k) && k.order == r.order ==> view[k].expiresAt > now
    requires forall k :: ActiveAt(view', k) && k.order == r.order ==> ActiveAt(view, k)
    requires forall k :: ActiveAt(view, k) && k.order == r.order ==>
      k in view' && view'[k] == view[k].(expiresAt := now + TTL)
    ensures Granted(view', r, now, |r.items|)
  {
    var own := UnexpiredOfOrder(view, r.order, now);
    assert own == (set j | 0 <= j < |r.items| :: ItemKey(r, j));
    forall j | 0 <= j < |r.items|
      ensures ActiveAt(view', ItemKey(r, j)) && GrantedRow(view'[ItemKey(r, j)], r, now, j)
    {
      assert ItemKey(r, j) in own;
    }
    forall k | ActiveAt(view', k) && k.order == r.order ensures exists j :: 0 <= j < |r.items| && k == ItemKey(r, j) {
      assert k in own;
    }
  }

  // The capacity statement counts every other active row, because the expired ones are gone.
  lemma CheckKeeps(rows: Table, tx: Tx)
    requires TxInv(rows, tx) && tx.work.Reserve? && tx.pc.Checking? && tx.pc.j < |tx.work.request.items|
    requires Fits(rows, tx, tx.pc.j)
    ensures TxInv(rows, Advance(rows, tx, Check))
  {
    hide OrderLock, ResourceLock, ResourceKey, Text.Less, LockNames, LockedPrefix, ResourcesCover, OwnUnexpired,
         WritesCovered, AllFit, NoActiveWrites, Reserved, ItemFits;
    var j, view, tx' := tx.pc.j, View(rows, tx), Advance(rows, tx, Check);
    ItemLocked(tx, view, j);
    ReservedIsAll(view, tx.work.request, j, tx.work.now);
    AllFitNext(view, tx.work.request, j);
    SameFrame(view, tx, tx', |tx.resources|);
    CoveredAnyPc(rows, tx, tx');
    UnexpiredAnyPc(view, tx, tx');
    NoneActiveAnyPc(tx, tx');
  }

  // Where no expired row is active, the capacity statement sees the whole quantity of the others.
  lemma ReservedIsAll(view: Table, request: Request, j: nat, now: int)
    requires j < |request.items|
    requires forall k :: ActiveOn(view, k, ItemResource(request, j)) ==> view[k].expiresAt > now
    requires request.items[j].quantity
             <= request.items[j].observed - Reserved(view, ItemResource(request, j), request.order, now)
    ensures ItemFits(view, request, j)
  {
    var r, o := ItemResource(request, j), request.order;
    FiniteSum.SumMonotone(view.Keys, HeldByOthers(view, r, o), view.Keys, UnexpiredByOthers(view, r, o, now));
  }

  lemma AllFitNext(view: Table, request: Request, j: nat)
    requires j < |request.items| && AllFit(view, request, j) && ItemFits(view, request, j)
    ensures AllFit(view, request, j + 1)
  {
    hide ItemFits;
  }

  lemma UnexpiredAnyPc(view: Table, tx: Tx, tx': Tx)
    requires tx.work.Reserve? && tx'.work == tx.work && OwnUnexpired(view, tx)
    ensures OwnUnexpired(view, tx')
  {
  }

  lemma FitsAfterOwnWrites(view: Table, view': Table, request: Request)
    requires AllFit(view, request, |request.items|)
    requires forall k: Key :: k.order != request.order ==>
      (ActiveAt(view', k) ==> ActiveAt(view, k) && view'[k] == view[k])
    ensures AllFit(view', request, |request.items|)
  {
    forall m | 0 <= m < |request.items| ensures ItemFits(view', request, m) {
      assert ItemFits(view, request, m);
      var r, o := ItemResource(request, m), request.order;
      FiniteSum.SumMonotone(view'.Keys, HeldByOthers(view', r, o), view.Keys, HeldByOthers(view, r, o));
    }
  }

  lemma ReleaseOwnKeeps(rows: Table, tx: Tx)
    requires TxInv(rows, tx)
    requires if tx.work.Reserve? then tx.pc == Checking(|tx.work.request.items|) else tx.pc == OrderLocked
    ensures TxInv(rows, Advance(rows, tx, ReleaseOwn))
  {
    hide OrderLock, ResourceLock, ResourceKey, Text.Less, LockNames, LockedPrefix, ResourcesCover, AllFit, Marked,
         WritesCovered, NoActiveWrites;
    var tx', view := Advance(rows, tx, ReleaseOwn), View(rows, tx);
    var keys := ActiveOfOrder(view, tx.work.Order());
    var marked := tx.(writes := tx.writes + Marked(view, keys, Released));
    var view' := View(rows, marked);
    MarkedShrinks(rows, tx, keys, Released);
    MarkedCovered(rows, tx, keys, Released);
    CoveredAnyPc(rows, marked, tx');
    NoneActiveOfOrder(view, view', keys, tx.work.Order());
    if tx.work.Reserve? {
      FitsAfterOwnWrites(view, view', tx.work.request);
      forall m | 0 <= m < |tx.work.request.items| ensures ResourceLock(ItemResource(tx.work.request, m)) in tx.locks {
        ItemLocked(tx, view, m);
      }
    } else {
      NoneActiveAnyPc(marked, tx');
    }
  }

  lemma NoneActiveOfOrder(view: Table, view': Table, keys: set<Key>, o: OrderId)
    requires Shrunk(view, view') && keys == ActiveOfOrder(view, o) && forall k :: k in keys ==> !ActiveAt(view', k)
    ensures forall k :: ActiveAt(view', k) ==> k.order != o
  {
  }

  lemma WriteKeeps(rows: Table, tx: Tx)
    requires TxInv(rows, tx) && tx.work.Reserve? && tx.pc.Writing? && tx.pc.j < |tx.work.request.items|
    ensures TxInv(rows, Advance(rows, tx, Write))
  {
    hide OrderLock, ResourceLock, ResourceKey, Text.Less, LockNames, AllFit, Granted, WritesCovered;
    var j, r, tx' := tx.pc.j, tx.work.request, Advance(rows, tx, Write);
    var view, view', key := View(rows, tx), View(rows, tx'), ItemKey(tx.work.request, tx.pc.j);
    assert view' == view[key := NewRow(r, r.items[j], tx.work.now)];
    FitsAfterOwnWrites(view, view', r);
    GrantedGrows(view, r, tx.work.now, j);
    WriteCovered(rows, tx, tx');
  }

  lemma GrantedGrows(view: Table, r: Request, now: int, j: nat)
    requires j < |r.items| && ValidRequest(r) && Granted(view, r, now, j)
    ensures Granted(view[ItemKey(r, j) := NewRow(r, r.items[j], now)], r, now, j + 1)
  {
    var view', key := view[ItemKey(r, j) := NewRow(r, r.items[j], now)], ItemKey(r, j);
    forall m | 0 <= m <= j ensures ActiveAt(view', ItemKey(r, m)) && GrantedRow(view'[ItemKey(r, m)], r, now, m) {
      assert m < j ==> ActiveAt(view, ItemKey(r, m)) && GrantedRow(view[ItemKey(r, m)], r, now, m);
    }
    forall k | ActiveAt(view', k) && k.order == r.order ensures exists m :: 0 <= m < j + 1 && k == ItemKey(r, m) {
      if k != key {
        var m :| 0 <= m < j && k == ItemKey(r, m);
      }
    }
  }

  lemma WriteCovered(rows: Table, tx: Tx, tx': Tx)
    requires WritesCovered(rows, tx) && tx.work.Reserve? && tx.pc.Writing? && tx.pc.j < |tx.work.request.items|
    requires OrderLock(tx.work.request.order) in tx.locks
    requires ResourceLock(ItemResource(tx.work.request, tx.pc.j)) in tx.locks
    requires tx' == Advance(rows, tx, Write)
    ensures WritesCovered(rows, tx')
  {
    hide OrderLock, ResourceLock;
  }

  lemma LockOrderKeeps(rows: Table, tx: Tx)
    requires TxInv(rows, tx) && tx.pc == Begun
    ensures TxInv(rows, Advance(rows, tx, LockOrder))
  {
    hide OrderLock, ResourceLock;
  }

  lemma AdvanceKeepsTxInv(s: State, t: TxId, a: Action)
    requires Inv(s) && Enabled(s, t, a) && !a.Begin? && !a.Abort? && !a.Commit?
    requires a.Check? ==> Fits(s.rows, s.txs[t], s.txs[t].pc.j)
    ensures TxInv(s.rows, Advance(s.rows, s.txs[t], a))
  {
    hide TxInv, Advance, Fits, WithinBounds, Exclusive, IsResourceList;
    var tx := s.txs[t];
    match a
    case LockOrder => LockOrderKeeps(s.rows, tx);
    case ExpireOwn => ExpireOwnKeeps(s.rows, tx);
    case Scan(list) => ScanKeeps(s.rows, tx, list);
    case LockResource => LockResourceKeeps(s.rows, tx);
    case ExpireResource => ExpireResourceKeeps(s.rows, tx);
    case Reread => RereadKeeps(s.rows, tx);
    case Extend => ExtendKeeps(s.rows, tx);
    case Check => CheckKeeps(s.rows, tx);
    case ReleaseOwn => ReleaseOwnKeeps(s.rows, tx);
    case Write => WriteKeeps(s.rows, tx);
    case _ =>
  }

  lemma AdvanceKeepsExclusive(s: State, t: TxId, a: Action)
    requires Inv(s) && Enabled(s, t, a) && !a.Begin? && !a.Abort? && !a.Commit?
    ensures Exclusive(s.txs[t := Advance(s.rows, s.txs[t], a)])
  {
    hide TxInv, WithinBounds, OrderLock, ResourceLock, ActiveOn, SameReservation, ValidRequest, IsResourceList;
    var tx := s.txs[t];
    var tx' := Advance(s.rows, tx, a);
    forall u | u in s.txs && u != t
      ensures tx'.locks !! s.txs[u].locks && tx'.writes.Keys !! s.txs[u].writes.Keys
    {
      assert tx.locks !! s.txs[u].locks && tx.writes.Keys !! s.txs[u].writes.Keys;
    }
  }

  // ---- Every step -------------------------------------------------------------------------

  lemma StepKeepsInv(s: State, t: TxId, a: Action)
    requires Inv(s) && Enabled(s, t, a)
    ensures Inv(Apply(s, t, a))
  {
    hide TxInv, Advance, Fits, WithinBounds, Exclusive, View, NewBounds;
    if a.Begin? {
      BeginKeepsInv(s, t, a.work);
    } else if a.Commit? {
      CommitKeepsInv(s, t);
    } else if a.Abort? {
      AbortKeepsInv(s, t);
    } else if a.Check? && !Fits(s.rows, s.txs[t], s.txs[t].pc.j) {
      AbortKeepsInv(s, t);
    } else {
      AdvanceKeepsTxInv(s, t, a);
      AdvanceKeepsExclusive(s, t, a);
    }
  }

  lemma BeginKeepsInv(s: State, t: TxId, work: Work)
    requires Inv(s) && Enabled(s, t, Begin(work))
    ensures Inv(Apply(s, t, Begin(work)))
  {
    hide WithinBounds;
    var s' := Apply(s, t, Begin(work));
    BeginTxInv(s.rows, work);
    forall u | u in s'.txs ensures TxInv(s.rows, s'.txs[u]) {
    }
    assert Exclusive(s'.txs);
  }

  lemma BeginTxInv(rows: Table, work: Work)
    requires work.Reserve? ==> ValidRequest(work.request)
    ensures TxInv(rows, Tx(work, Begun, {}, map[], [], {}))
  {
  }

  lemma AbortKeepsInv(s: State, t: TxId)
    requires Inv(s)
    ensures Inv(s.(txs := s.txs - {t}))
  {
    hide WithinBounds, TxInv;
  }

  lemma CommitKeepsInv(s: State, t: TxId)
    requires Inv(s) && Enabled(s, t, Commit)
    ensures Inv(Apply(s, t, Commit))
  {
    hide WithinBounds, TxInv, View, NewBounds;
    CommitWithinBounds(s.rows, s.bound, s.txs[t]);
    var s' := Apply(s, t, Commit);
    forall u | u in s'.txs ensures TxInv(s'.rows, s'.txs[u]) {
      CommitKeepsOthers(s.rows, s.txs[u], s.txs[t]);
    }
  }

  // ---- Every run --------------------------------------------------------------------------

  datatype Move = Move(t: TxId, action: Action)

  ghost predicate Legal(s: State, moves: seq<Move>)
    decreases |moves|
  {
    moves == [] || (Enabled(s, moves[0].t, moves[0].action) && Legal(Apply(s, moves[0].t, moves[0].action), moves[1..]))
  }

  ghost function Run(s: State, moves: seq<Move>): State
    requires Legal(s, moves)
    decreases |moves|
  {
    if moves == [] then s else Run(Apply(s, moves[0].t, moves[0].action), moves[1..])
  }

  lemma {:induction false} RunKeepsInv(s: State, moves: seq<Move>)
    requires Inv(s) && Legal(s, moves)
    ensures Inv(Run(s, moves))
    decreases |moves|
  {
    hide Inv, Enabled, Apply;
    if moves != [] {
      StepKeepsInv(s, moves[0].t, moves[0].action);
      RunKeepsInv(Apply(s, moves[0].t, moves[0].action), moves[1..]);
    }
  }

  // However transactions interleave, whatever their clocks say and wherever they abort, the active
  // quantity of a resource never exceeds what the last reservation created on it observed.
  lemma NeverOversold(rows: Table, bound: map<Resource, int>, moves: seq<Move>, r: Resource)
    requires WithinBounds(rows, bound) && Legal(State(rows, bound, map[]), moves)
    ensures var s := Run(State(rows, bound, map[]), moves);
            ActiveQuantity(s.rows, r) <= if r in s.bound then s.bound[r] else 0
  {
    var s := State(rows, bound, map[]);
    assert Inv(s);
    RunKeepsInv(s, moves);
    assert WithinBounds(Run(s, moves).rows, Run(s, moves).bound);
  }

  // Prolonging, expiring, releasing, aborting: no step but a creating commit raises a quantity.
  lemma OnlyCreationRaises(s: State, t: TxId, a: Action, r: Resource)
    requires Inv(s) && Enabled(s, t, a) && ActiveQuantity(Apply(s, t, a).rows, r) > ActiveQuantity(s.rows, r)
    ensures a.Commit? && Creates(s.txs[t], r)
  {
    hide ActiveQuantity, Advance, Fits, TxInv, WithinBounds, Exclusive;
    if a.Commit? && !Creates(s.txs[t], r) {
      CommitRaisesOnlyCreated(s.rows, s.txs[t], r);
    }
  }

  // Once a Reserve holds its resource locks, every active row of its order that it sees was already
  // in the first read and lies on a resource it has locked.
  lemma SecondReadCovered(s: State, t: TxId, k: Key)
    requires Inv(s) && t in s.txs && s.txs[t].work.Reserve?
    requires var pc := s.txs[t].pc; pc == Locking(|s.txs[t].resources|) || pc == Extending || pc.Checking?
    requires ActiveAt(View(s.rows, s.txs[t]), k) && k.order == s.txs[t].work.request.order
    ensures k in s.txs[t].seen
    ensures ResourceLock(ResourceOf(k, View(s.rows, s.txs[t])[k])) in s.txs[t].locks
    ensures k in UnexpiredOfOrder(View(s.rows, s.txs[t]), k.order, s.txs[t].work.now)
  {
    hide ResourceLock, OrderLock, SameReservation, AllFit, LockedPrefix, ResourceKey;
    var tx := s.txs[t];
    assert TxInv(s.rows, tx);
    OwnLocked(tx, View(s.rows, tx), k);
  }

  // What a committed Reserve leaves behind: exactly the requested rows, active for a full period.
  lemma CommittedReserve(s: State, t: TxId)
    requires Inv(s) && Enabled(s, t, Commit) && s.txs[t].work.Reserve?
    ensures var rows, r := Apply(s, t, Commit).rows, s.txs[t].work.request;
            && ActiveOfOrder(rows, r.order) == (set j | 0 <= j < |r.items| :: ItemKey(r, j))
            && forall j :: 0 <= j < |r.items| ==>
              ItemKey(r, j) in rows && GrantedRow(rows[ItemKey(r, j)], r, s.txs[t].work.now, j)
  {
    hide ResourceLock, OrderLock, AllFit, ResourceKey, WithinBounds, Exclusive;
    var tx := s.txs[t];
    assert TxInv(s.rows, tx);
    var rows, r := View(s.rows, tx), tx.work.request;
    assert Granted(rows, r, tx.work.now, |r.items|);
    forall k ensures k in ActiveOfOrder(rows, r.order) <==> k in (set j | 0 <= j < |r.items| :: ItemKey(r, j)) {
      if k in (set j | 0 <= j < |r.items| :: ItemKey(r, j)) {
        var j :| 0 <= j < |r.items| && k == ItemKey(r, j);
        assert ActiveAt(rows, ItemKey(r, j));
      }
    }
  }

  lemma CommittedRelease(s: State, t: TxId)
    requires Inv(s) && Enabled(s, t, Commit) && s.txs[t].work.Release?
    ensures ActiveOfOrder(Apply(s, t, Commit).rows, s.txs[t].work.orderOnly) == {}
  {
    hide ResourceLock, OrderLock, WithinBounds, Exclusive;
    assert TxInv(s.rows, s.txs[t]);
  }
}
