// The round-robin tracking queue: a stored cursor, the next ids after it, then a wrap to the start.

module TrackingQueue {
  datatype Batch = Batch(ids: seq<int>, previousCursor: int, nextCursor: int, wrapped: bool)

  function EffectiveLimit(limit: int): (l: nat)
    ensures 1 <= l <= 5000
  {
    if limit < 1 || limit > 5000 then 500 else limit
  }

  predicate Ascending(ids: seq<int>) {
    forall i, j :: 0 <= i < j < |ids| ==> ids[i] < ids[j]
  }

  function CountUpTo(ids: seq<int>, cursor: int): (n: nat)
    ensures n <= |ids|
  {
    if ids == [] || ids[0] > cursor then 0 else 1 + CountUpTo(ids[1..], cursor)
  }

  // ORDER BY (id > cursor first), id: the ids after the cursor, then those up to it.
  function Rotated(ids: seq<int>, cursor: int): (r: seq<int>)
    ensures |r| == |ids|
  {
    ids[CountUpTo(ids, cursor)..] + ids[..CountUpTo(ids, cursor)]
  }

  function Take(s: seq<int>, n: nat): seq<int> {
    if n < |s| then s[..n] else s
  }

  function Selected(ids: seq<int>, cursor: int, limit: nat): seq<int> {
    Take(Rotated(ids, cursor), limit)
  }

  function CursorAfter(ids: seq<int>, cursor: int, limit: nat): int {
    var s := Selected(ids, cursor, limit);
    if s == [] then cursor else s[|s| - 1]
  }

  lemma {:induction false} CountSplits(ids: seq<int>, cursor: int)
    requires Ascending(ids)
    ensures forall i :: 0 <= i < |ids| ==> (ids[i] <= cursor <==> i < CountUpTo(ids, cursor))
  {
    if ids != [] && ids[0] <= cursor {
      CountSplits(ids[1..], cursor);
      forall i | 0 <= i < |ids| ensures ids[i] <= cursor <==> i < CountUpTo(ids, cursor) {
        if i > 0 { assert ids[1..][i - 1] == ids[i]; }
      }
    }
  }

  // The rotation really sorts by the queue's two keys.
  lemma RotatedOrder(ids: seq<int>, cursor: int)
    requires Ascending(ids)
    ensures forall x :: x in Rotated(ids, cursor) <==> x in ids
    ensures var r := Rotated(ids, cursor);
            forall i, j :: 0 <= i < j < |r| ==>
              if (r[i] > cursor) == (r[j] > cursor) then r[i] < r[j] else r[i] > cursor
  {
    CountSplits(ids, cursor);
    var p := CountUpTo(ids, cursor);
    assert ids == ids[..p] + ids[p..];
  }

  // The next cursor is the last id of a non-empty batch.
  predicate Complete(batch: Batch) {
    batch.ids != [] ==> batch.nextCursor == batch.ids[|batch.ids| - 1]
  }

  // ---- The store's cursor row -------------------------------------------------------------

  class Queue {
    var cursor: int

    constructor ()
      ensures cursor == 0
    {
      cursor := 0;
    }

    // `ids` is what the eligibility filter lets through, in id order.
    method Candidates(ids: seq<int>, limit: int) returns (batch: Batch)
      ensures batch.ids == Selected(ids, cursor, EffectiveLimit(limit)) && batch.previousCursor == cursor
      ensures Complete(batch)
      ensures batch.ids != [] ==> batch.nextCursor == CursorAfter(ids, cursor, EffectiveLimit(limit))
      ensures batch.wrapped <==> cursor > 0 && exists x :: x in batch.ids && x <= cursor
    {
      batch := CompleteBatch(Selected(ids, cursor, EffectiveLimit(limit)), cursor);
    }

    // The batch is one that `Candidates` has returned.
    method Advance(batch: Batch)
      requires Complete(batch)
      modifies this
      ensures cursor == if batch.ids == [] then old(cursor) else batch.ids[|batch.ids| - 1]
    {
      if |batch.ids| != 0 {
        cursor := batch.nextCursor;
      }
    }
  }

  method CompleteBatch(ids: seq<int>, previousCursor: int) returns (batch: Batch)
    ensures batch.ids == ids && batch.previousCursor == previousCursor
    ensures ids != [] ==> batch.nextCursor == ids[|ids| - 1]
    ensures batch.wrapped <==> previousCursor > 0 && exists x :: x in ids && x <= previousCursor
  {
    var nextCursor, wrapped := 0, false;
    if |ids| > 0 {
      nextCursor := ids[|ids| - 1];
      for i := 0 to |ids|
        invariant !wrapped && forall k :: 0 <= k < i ==> !(previousCursor > 0 && ids[k] <= previousCursor)
      {
        if previousCursor > 0 && ids[i] <= previousCursor {
          assert ids[i] in ids;
          wrapped := true;
          break;
        }
      }
    }
    batch := Batch(ids, previousCursor, nextCursor, wrapped);
  }

  // ---- Fairness ---------------------------------------------------------------------------

  // How far an id lies ahead of the cursor on the circle of ids 1..bound.
  function Distance(bound: int, cursor: int, x: int): int {
    if x > cursor then x - cursor else x - cursor + bound
  }

  predicate Within(bound: int, ids: seq<int>) {
    forall i :: 0 <= i < |ids| ==> 1 <= ids[i] <= bound
  }

  lemma {:induction false} RotatedDistance(bound: int, ids: seq<int>, cursor: int, i: nat)
    requires Ascending(ids) && Within(bound, ids) && 0 <= cursor <= bound && i < |ids|
    ensures i + 1 <= Distance(bound, cursor, Rotated(ids, cursor)[i])
    ensures forall j :: i < j < |ids| ==>
      Distance(bound, cursor, Rotated(ids, cursor)[i]) < Distance(bound, cursor, Rotated(ids, cursor)[j])
  {
    RotatedOrder(ids, cursor);
    var r := Rotated(ids, cursor);
    assert forall j :: 0 <= j < |r| ==> r[j] in ids;
    if i > 0 {
      RotatedDistance(bound, ids, cursor, i - 1);
    }
  }

  lemma TakeHas(s: seq<int>, n: nat, i: nat)
    requires i < |s| && i < n
    ensures s[i] in Take(s, n)
  {
    assert Take(s, n)[i] == s[i];
  }

  lemma StepDistance(bound: int, cursor: int, next: int, x: int)
    requires 0 <= cursor <= bound && 1 <= next <= bound && 1 <= x <= bound
    requires Distance(bound, cursor, next) < Distance(bound, cursor, x)
    ensures Distance(bound, next, x) == Distance(bound, cursor, x) - Distance(bound, cursor, next)
  {
  }

  // A batch that misses an eligible id brings the cursor at least `limit` closer to it.
  lemma MissedComesCloser(bound: int, ids: seq<int>, cursor: int, limit: nat, x: int)
    requires Ascending(ids) && Within(bound, ids) && 0 <= cursor <= bound && 1 <= limit
    requires x in ids && x !in Selected(ids, cursor, limit)
    ensures var next := CursorAfter(ids, cursor, limit);
            0 <= next <= bound && Distance(bound, next, x) <= Distance(bound, cursor, x) - limit
  {
    hide CountUpTo, Ascending, Rotated, Distance;
    var r := Rotated(ids, cursor);
    assert x in r && r[limit - 1] in ids by {
      RotatedMembers(ids, cursor);
      var i :| 0 <= i < |r| && r[i] == x;
      if i < limit {
        TakeHas(r, limit, i);
      }
    }
    var i :| 0 <= i < |r| && r[i] == x;
    if i < limit {
      TakeHas(r, limit, i);
    }
    RotatedDistance(bound, ids, cursor, limit - 1);
    StepDistance(bound, cursor, r[limit - 1], x);
  }

  lemma RotatedMembers(ids: seq<int>, cursor: int)
    requires Ascending(ids)
    ensures forall x :: x in Rotated(ids, cursor) <==> x in ids
    ensures forall i :: 0 <= i < |ids| ==> Rotated(ids, cursor)[i] in ids
  {
    RotatedOrder(ids, cursor);
  }

  // The batches served from a cursor on, the eligible ids changing from batch to batch.
  function Cursor(eligible: seq<seq<int>>, cursor: int, limit: nat): int {
    if eligible == [] then cursor
    else var n := |eligible| - 1; CursorAfter(eligible[n], Cursor(eligible[..n], cursor, limit), limit)
  }

  predicate Served(eligible: seq<seq<int>>, cursor: int, limit: nat, x: int) {
    exists k :: 0 <= k < |eligible| && x in Selected(eligible[k], Cursor(eligible[..k], cursor, limit), limit)
  }

  lemma {:induction false} UnservedComesCloser(bound: int, eligible: seq<seq<int>>, cursor: int, limit: nat, x: int)
    requires 0 <= cursor <= bound && 1 <= limit && 1 <= x <= bound
    requires forall k :: 0 <= k < |eligible| ==>
      Ascending(eligible[k]) && Within(bound, eligible[k]) && x in eligible[k]
    requires !Served(eligible, cursor, limit, x)
    ensures 0 <= Cursor(eligible, cursor, limit) <= bound
    ensures Distance(bound, Cursor(eligible, cursor, limit), x) <= Distance(bound, cursor, x) - limit * |eligible|
  {
    hide Selected, CursorAfter, Ascending, Within, Distance;
    if eligible != [] {
      var n := |eligible| - 1;
      var rest := eligible[..n];
      forall k | 0 <= k < n ensures x !in Selected(rest[k], Cursor(rest[..k], cursor, limit), limit) {
        assert rest[..k] == eligible[..k] && rest[k] == eligible[k];
      }
      UnservedComesCloser(bound, rest, cursor, limit, x);
      assert x !in Selected(eligible[n], Cursor(eligible[..n], cursor, limit), limit);
      MissedComesCloser(bound, eligible[n], Cursor(rest, cursor, limit), limit, x);
      assert limit * (n + 1) == limit * n + limit;
    }
  }

  // However the eligible set changes, an id eligible in every batch is served within bound / limit batches.
  lemma EligibleEventuallyServed(bound: int, eligible: seq<seq<int>>, cursor: int, limit: nat, x: int)
    requires 0 <= cursor <= bound && 1 <= limit && 1 <= x <= bound
    requires forall k :: 0 <= k < |eligible| ==>
      Ascending(eligible[k]) && Within(bound, eligible[k]) && x in eligible[k]
    requires bound <= limit * |eligible|
    ensures Served(eligible, cursor, limit, x)
  {
    hide Served;
    if !Served(eligible, cursor, limit, x) {
      UnservedComesCloser(bound, eligible, cursor, limit, x);
    }
  }

  // ---- A fixed eligible set ---------------------------------------------------------------

  lemma CountAt(ids: seq<int>, q: nat)
    requires Ascending(ids) && 1 <= q <= |ids|
    ensures CountUpTo(ids, ids[q - 1]) == q
  {
    hide CountUpTo;
    var next := ids[q - 1];
    CountSplits(ids, next);
    var count := CountUpTo(ids, next);
    assert q - 1 < count;
    assert q < |ids| ==> ids[q] > next;
  }

  lemma RotateTwice(ids: seq<int>, p: nat, limit: nat)
    requires p <= |ids| && 1 <= limit < |ids|
    ensures var r, q := ids[p..] + ids[..p], if p + limit <= |ids| then p + limit else p + limit - |ids|;
            r[limit - 1] == ids[q - 1] && ids[q..] + ids[..q] == r[limit..] + r[..limit]
  {
    var r := ids[p..] + ids[..p];
    if p + limit <= |ids| {
      var q := p + limit;
      assert r[limit..] == ids[q..] + ids[..p];
      assert ids[..q] == ids[..p] + r[..limit];
    } else {
      var q := p + limit - |ids|;
      assert r[..limit] == ids[p..] + ids[..q];
      assert ids[q..] == r[limit..] + ids[p..];
    }
  }

  // After a full batch the rotation has moved on by exactly that batch.
  lemma BatchRotates(ids: seq<int>, cursor: int, limit: nat)
    requires Ascending(ids) && 1 <= limit < |ids|
    ensures var r := Rotated(ids, cursor);
            Rotated(ids, CursorAfter(ids, cursor, limit)) == r[limit..] + r[..limit]
  {
    hide CountUpTo, Ascending;
    var p := CountUpTo(ids, cursor);
    RotateTwice(ids, p, limit);
    CountAt(ids, if p + limit <= |ids| then p + limit else p + limit - |ids|);
  }

  function Repeat(ids: seq<int>, n: nat): (r: seq<seq<int>>)
    ensures |r| == n && forall k :: 0 <= k < n ==> r[k] == ids
  {
    if n == 0 then [] else Repeat(ids, n - 1) + [ids]
  }

  lemma MissedMovesUp(ids: seq<int>, cursor: int, limit: nat, at: nat)
    requires Ascending(ids) && 1 <= limit && at < |ids|
    requires Rotated(ids, cursor)[at] !in Selected(ids, cursor, limit)
    ensures limit <= at && Rotated(ids, CursorAfter(ids, cursor, limit))[at - limit] == Rotated(ids, cursor)[at]
  {
    hide CountUpTo, Rotated, Ascending, CursorAfter;
    if at < limit {
      TakeHas(Rotated(ids, cursor), limit, at);
    }
    BatchRotates(ids, cursor, limit);
  }

  lemma UnservedEarlier(ids: seq<int>, cursor: int, limit: nat, n: nat, x: int)
    requires 0 < n && !Served(Repeat(ids, n), cursor, limit, x)
    ensures !Served(Repeat(ids, n - 1), cursor, limit, x)
    ensures x !in Selected(ids, Cursor(Repeat(ids, n - 1), cursor, limit), limit)
    ensures Cursor(Repeat(ids, n), cursor, limit) == CursorAfter(ids, Cursor(Repeat(ids, n - 1), cursor, limit), limit)
  {
    hide Selected, CursorAfter;
    var all, rest := Repeat(ids, n), Repeat(ids, n - 1);
    assert all[..n - 1] == rest;
    forall k | 0 <= k < n - 1 ensures x !in Selected(rest[k], Cursor(rest[..k], cursor, limit), limit) {
      assert rest[..k] == all[..k] && rest[k] == all[k];
    }
    assert x !in Selected(all[n - 1], Cursor(all[..n - 1], cursor, limit), limit);
  }

  ghost function ServedIds(limit: nat, n: nat): nat {
    if n == 0 then 0 else ServedIds(limit, n - 1) + limit
  }

  lemma {:induction false} ServedIdsProduct(limit: nat, n: nat)
    ensures ServedIds(limit, n) == limit * n
  {
    if n > 0 {
      ServedIdsProduct(limit, n - 1);
      assert limit * n == limit * (n - 1) + limit;
    }
  }

  lemma {:induction false} UnservedAdvances(ids: seq<int>, cursor: int, limit: nat, n: nat, i: nat)
    requires Ascending(ids) && 1 <= limit && i < |ids|
    requires !Served(Repeat(ids, n), cursor, limit, Rotated(ids, cursor)[i])
    ensures ServedIds(limit, n) <= i
    ensures Rotated(ids, Cursor(Repeat(ids, n), cursor, limit))[i - ServedIds(limit, n)] == Rotated(ids, cursor)[i]
  {
    hide Rotated, Ascending, Served, Selected, CursorAfter, Repeat;
    if n > 0 {
      UnservedEarlier(ids, cursor, limit, n, Rotated(ids, cursor)[i]);
      UnservedAdvances(ids, cursor, limit, n - 1, i);
      MissedMovesUp(ids, Cursor(Repeat(ids, n - 1), cursor, limit), limit, i - ServedIds(limit, n - 1));
    } else {
      NoBatches(ids, cursor, limit);
    }
  }

  lemma NoBatches(ids: seq<int>, cursor: int, limit: nat)
    ensures Cursor(Repeat(ids, 0), cursor, limit) == cursor
  {
  }

  // A fixed set of n ids is fully served by any ceil(n / limit) consecutive batches.
  lemma FixedSetServed(ids: seq<int>, cursor: int, limit: nat, batches: nat, x: int)
    requires Ascending(ids) && 1 <= limit && x in ids && |ids| <= limit * batches
    ensures Served(Repeat(ids, batches), cursor, limit, x)
  {
    hide Served, CountUpTo, Ascending;
    RotatedOrder(ids, cursor);
    assert x in Rotated(ids, cursor);
    var i :| 0 <= i < |ids| && Rotated(ids, cursor)[i] == x;
    if !Served(Repeat(ids, batches), cursor, limit, x) {
      UnservedAdvances(ids, cursor, limit, batches, i);
      ServedIdsProduct(limit, batches);
    }
  }
}
