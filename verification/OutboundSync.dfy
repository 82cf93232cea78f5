// The hourly outbound sync: windows fetched forward from a persisted watermark.

module OutboundSync {
  import opened Wrappers

  const HOUR := 3600
  const BOOTSTRAP := 86_400

  datatype Window = Window(account: string, start: int)
  datatype Mark = Mark(coverage: Option<int>, watermark: Option<int>)
  datatype Index = Index(windows: map<Window, int>, marks: map<string, Mark>)

  // What happens to one window: fetched and saved, the fetch fails, or the save fails.
  datatype Outcome = Saved | FetchFailed | SaveFailed

  function Through(now: int): int {
    now - now % HOUR
  }

  function Watermark(ix: Index, account: string): Option<int> {
    if account in ix.marks then ix.marks[account].watermark else None
  }

  function FirstCursor(through: int, watermark: Option<int>): int {
    if watermark.Some? then watermark.value - HOUR else through - BOOTSTRAP
  }

  function Least(a: Option<int>, b: int): int {
    if a.Some? && a.value < b then a.value else b
  }

  function Greatest(a: Option<int>, b: int): int {
    if a.Some? && a.value > b then a.value else b
  }

  function SaveWindow(ix: Index, account: string, start: int, end: int): Index {
    var mark := if account in ix.marks then ix.marks[account] else Mark(None, None);
    Index(ix.windows[Window(account, start) := end],
          ix.marks[account := Mark(Some(Least(mark.coverage, start)), Some(Greatest(mark.watermark, end)))])
  }

  function MarkFailure(ix: Index, account: string): Index {
    if account in ix.marks then ix else ix.(marks := ix.marks[account := Mark(None, None)])
  }

  // Windows from the cursor on, until the first failure.
  function Advance(ix: Index, account: string, cursor: int, through: int, outcome: int -> Outcome): Index
    decreases through - cursor
  {
    if cursor >= through then ix else
      var end := if cursor + HOUR > through then through else cursor + HOUR;
      match outcome(cursor)
      case FetchFailed => MarkFailure(ix, account)
      case SaveFailed => ix
      case Saved => Advance(SaveWindow(ix, account, cursor, end), account, end, through, outcome)
  }

  function Forward(ix: Index, account: string, now: int, outcome: int -> Outcome): Index {
    Advance(ix, account, FirstCursor(Through(now), Watermark(ix, account)), Through(now), outcome)
  }

  datatype Sync = Sync(account: string, now: int, outcome: int -> Outcome)

  function Run(ix: Index, syncs: seq<Sync>): Index {
    if syncs == [] then ix else
      var last := syncs[|syncs| - 1];
      Forward(Run(ix, syncs[..|syncs| - 1]), last.account, last.now, last.outcome)
  }

  // An account, whether its watermark can be read, and what happens to its windows.
  datatype Credential = Credential(account: string, readable: bool, outcome: int -> Outcome)

  function Syncs(credentials: seq<Credential>, now: int): seq<Sync> {
    if credentials == [] then [] else
      var rest, last := Syncs(credentials[..|credentials| - 1], now), credentials[|credentials| - 1];
      if last.readable then rest + [Sync(last.account, now, last.outcome)] else rest
  }

  class SyncStore {
    var index: Index

    constructor ()
      ensures index == Index(map[], map[])
    {
      index := Index(map[], map[]);
    }

    method SyncAccount(account: string, now: int, outcome: int -> Outcome)
      modifies this
      ensures index == Forward(old(index), account, now, outcome)
    {
      var through := Through(now);
      var cursor := FirstCursor(through, Watermark(index, account));
      while cursor < through
        invariant Advance(index, account, cursor, through, outcome) == Forward(old(index), account, now, outcome)
        decreases through - cursor
      {
        var windowEnd := cursor + HOUR;
        if windowEnd > through {
          windowEnd := through;
        }
        match outcome(cursor)
        case FetchFailed =>
          index := MarkFailure(index, account);
          return;
        case SaveFailed =>
          return;
        case Saved =>
          index := SaveWindow(index, account, cursor, windowEnd);
          cursor := windowEnd;
      }
    }

    // One credential after the other; an account whose watermark cannot be read is passed over, and a
    // failure ends only its own account's windows.
    method SyncOutboundOrders(credentials: seq<Credential>, now: int)
      modifies this
      ensures index == Run(old(index), Syncs(credentials, now))
    {
      hide Forward;
      for i := 0 to |credentials|
        invariant index == Run(old(index), Syncs(credentials[..i], now))
      {
        assert credentials[..i + 1][..i] == credentials[..i];
        if !credentials[i].readable {
          continue;
        }
        SyncAccount(credentials[i].account, now, credentials[i].outcome);
      }
      assert credentials[..|credentials|] == credentials;
    }
  }

  // ---- Coverage ---------------------------------------------------------------------------

  predicate Aligned(t: int) {
    t % HOUR == 0
  }

  // All windows are aligned hours, and the hours from coverage start to watermark all have one.
  ghost predicate Covered(ix: Index) {
    && (forall w :: w in ix.windows ==> Aligned(w.start) && ix.windows[w] == w.start + HOUR)
    && (forall a :: a in ix.marks ==> CoveredAccount(ix, a))
  }

  ghost predicate CoveredAccount(ix: Index, a: string)
    requires a in ix.marks
  {
    var m := ix.marks[a];
    && (m.coverage.Some? <==> m.watermark.Some?)
    && (m.watermark.Some? ==>
          && Aligned(m.coverage.value) && Aligned(m.watermark.value) && m.coverage.value + HOUR <= m.watermark.value
          && forall h :: Aligned(h) && m.coverage.value <= h < m.watermark.value ==> Window(a, h) in ix.windows)
  }

  // A window may be saved where it extends or repeats what the account already covers.
  ghost predicate Adjacent(ix: Index, account: string, cursor: int) {
    && Aligned(cursor)
    && (Watermark(ix, account).Some? ==>
          && ix.marks[account].coverage.Some?
          && ix.marks[account].coverage.value <= cursor <= Watermark(ix, account).value)
  }

  lemma AlignedGap(h: int, start: int)
    requires Aligned(h) && Aligned(start) && h != start
    ensures h + HOUR <= start || start + HOUR <= h
  {
    var i, j := h / HOUR, start / HOUR;
    assert h == i * HOUR && start == j * HOUR;
  }

  lemma SavedAccountCovered(ix: Index, account: string, start: int)
    requires Covered(ix) && Adjacent(ix, account, start)
    ensures CoveredAccount(SaveWindow(ix, account, start, start + HOUR), account)
  {
    hide Aligned;
    var ix' := SaveWindow(ix, account, start, start + HOUR);
    var m := ix'.marks[account];
    assert account in ix.marks ==> CoveredAccount(ix, account);
    assert Aligned(start + HOUR) by { NextAligned(start); }
    forall h | Aligned(h) && m.coverage.value <= h < m.watermark.value ensures Window(account, h) in ix'.windows {
      if h != start {
        AlignedGap(h, start);
      }
    }
  }

  lemma NextAligned(t: int)
    requires Aligned(t)
    ensures Aligned(t + HOUR)
  {
  }

  lemma SaveKeepsCovered(ix: Index, account: string, start: int)
    requires Covered(ix) && Adjacent(ix, account, start)
    ensures Covered(SaveWindow(ix, account, start, start + HOUR))
    ensures Adjacent(SaveWindow(ix, account, start, start + HOUR), account, start + HOUR)
  {
    hide Aligned;
    var ix' := SaveWindow(ix, account, start, start + HOUR);
    NextAligned(start);
    forall a | a in ix'.marks ensures CoveredAccount(ix', a) {
      if a == account {
        SavedAccountCovered(ix, account, start);
      } else {
        assert CoveredAccount(ix, a);
      }
    }
    assert account in ix.marks ==> CoveredAccount(ix, account);
  }

  lemma {:induction false} AdvanceKeepsCovered(ix: Index, account: string, cursor: int, through: int,
      outcome: int -> Outcome)
    requires Covered(ix) && Adjacent(ix, account, cursor) && Aligned(through)
    ensures Covered(Advance(ix, account, cursor, through, outcome))
    ensures NeverFalls(ix, Advance(ix, account, cursor, through, outcome))
    ensures (cursor < through && forall t :: outcome(t) == Saved) ==>
      Watermark(Advance(ix, account, cursor, through, outcome), account).Some?
      && Watermark(Advance(ix, account, cursor, through, outcome), account).value >= through
    decreases through - cursor
  {
    hide Covered, CoveredAccount;
    if cursor < through {
      assert cursor + HOUR <= through;
      match outcome(cursor)
      case FetchFailed => FailureKeepsCovered(ix, account);
      case SaveFailed =>
      case Saved =>
        var next := SaveWindow(ix, account, cursor, cursor + HOUR);
        SaveKeepsCovered(ix, account, cursor);
        AdvanceKeepsCovered(next, account, cursor + HOUR, through, outcome);
    }
  }

  lemma FailureKeepsCovered(ix: Index, account: string)
    requires Covered(ix)
    ensures Covered(MarkFailure(ix, account)) && NeverFalls(ix, MarkFailure(ix, account))
  {
    var ix' := MarkFailure(ix, account);
    forall a | a in ix'.marks ensures CoveredAccount(ix', a) {
      assert a in ix.marks ==> CoveredAccount(ix, a);
    }
  }

  ghost predicate NeverFalls(ix: Index, ix': Index) {
    forall a :: Watermark(ix, a).Some? ==> Watermark(ix', a).Some? && Watermark(ix, a).value <= Watermark(ix', a).value
  }

  lemma StartsAdjacent(ix: Index, account: string, now: int)
    requires Covered(ix)
    ensures Adjacent(ix, account, FirstCursor(Through(now), Watermark(ix, account)))
  {
    assert account in ix.marks ==> CoveredAccount(ix, account);
  }

  // Any clocks, any failures, any accounts: whole hours only, watermarks never fall, no hour between
  // coverage start and watermark is missing.
  lemma {:induction false} SyncsKeepCoverage(ix: Index, syncs: seq<Sync>)
    requires Covered(ix)
    ensures Covered(Run(ix, syncs)) && NeverFalls(ix, Run(ix, syncs))
  {
    hide Covered, Forward;
    if syncs != [] {
      var n := |syncs| - 1;
      SyncsKeepCoverage(ix, syncs[..n]);
      ForwardKeepsCovered(Run(ix, syncs[..n]), syncs[n]);
    }
  }

  lemma ForwardKeepsCovered(ix: Index, s: Sync)
    requires Covered(ix)
    ensures Covered(Forward(ix, s.account, s.now, s.outcome))
    ensures NeverFalls(ix, Forward(ix, s.account, s.now, s.outcome))
  {
    hide Covered, Advance;
    StartsAdjacent(ix, s.account, s.now);
    AdvanceKeepsCovered(ix, s.account, FirstCursor(Through(s.now), Watermark(ix, s.account)), Through(s.now),
      s.outcome);
  }

  // A sync without failures reaches the last whole hour, whatever failed before.
  lemma CleanSyncCatchesUp(syncs: seq<Sync>, account: string, now: int, outcome: int -> Outcome)
    requires forall t :: outcome(t) == Saved
    ensures var ix := Run(Index(map[], map[]), syncs);
            var after := Forward(ix, account, now, outcome);
            Watermark(after, account).Some? && Watermark(after, account).value >= Through(now)
  {
    hide Covered, Advance;
    var ix := Run(Index(map[], map[]), syncs);
    EmptyCovered();
    SyncsKeepCoverage(Index(map[], map[]), syncs);
    StartsAdjacent(ix, account, now);
    var cursor := FirstCursor(Through(now), Watermark(ix, account));
    AdvanceKeepsCovered(ix, account, cursor, Through(now), outcome);
    if cursor >= Through(now) {
      assert Forward(ix, account, now, outcome) == ix by { NothingToDo(ix, account, cursor, Through(now), outcome); }
    }
  }

  lemma EmptyCovered()
    ensures Covered(Index(map[], map[]))
  {
  }

  lemma NothingToDo(ix: Index, account: string, cursor: int, through: int, outcome: int -> Outcome)
    requires cursor >= through
    ensures Advance(ix, account, cursor, through, outcome) == ix
  {
  }
}
