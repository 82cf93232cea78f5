// Matching audited orders to indexed outbound records through two lookup maps.

module OutboundMatcher {
  import Text
  import opened Wrappers

  datatype Record = Record(code: string, outboundOrderNo: string, thirdOrderNo: string, referOrderNo: string,
                           platformOrderNo: string, status: int, trackingNumber: string)
  datatype Audit = Audit(id: int, code: string, platformOrderNo: string, trackingNumber: string)

  function Priority(status: int): (p: nat)
    ensures p <= 4
  {
    if status == 3 then 4
    else if status == 2 then 3
    else if status == 0 || status == 1 then 2
    else if 4 <= status <= 7 then 0
    else 1
  }

  predicate SameWarehouse(r: Record, warehouse: string) {
    warehouse != "" && Text.ToUpper(r.code) == Text.ToUpper(warehouse)
  }

  predicate Prefer(candidate: Record, selected: Record, warehouse: string) {
    if warehouse != "" && SameWarehouse(candidate, warehouse) != SameWarehouse(selected, warehouse) then
      SameWarehouse(candidate, warehouse)
    else Priority(candidate.status) > Priority(selected.status)
  }

  predicate PreferTracking(candidate: Record, selected: Record, warehouse: string) {
    var p, q := Priority(candidate.status), Priority(selected.status);
    p > q || (p == q && Prefer(candidate, selected, warehouse))
  }

  // ---- The two scans ----------------------------------------------------------------------

  function Pick(candidates: seq<Record>, warehouse: string, tracking: bool): Option<Record> {
    if candidates == [] then None else
      var best, last := Pick(candidates[..|candidates| - 1], warehouse, tracking), candidates[|candidates| - 1];
      if best.None? || (if tracking then PreferTracking(last, best.value, warehouse)
        else Prefer(last, best.value, warehouse))
      then Some(last) else best
  }

  method PreferredRecord(candidates: seq<Record>, warehouse: string, tracking: bool) returns (r: Option<Record>)
    ensures r == Pick(candidates, warehouse, tracking)
  {
    if |candidates| == 0 {
      return None;
    }
    var selected := candidates[0];
    assert candidates[..1][..0] == [];
    for i := 1 to |candidates|
      invariant Pick(candidates[..i], warehouse, tracking) == Some(selected)
    {
      assert candidates[..i + 1][..i] == candidates[..i];
      if if tracking then PreferTracking(candidates[i], selected, warehouse)
        else Prefer(candidates[i], selected, warehouse) {
        selected := candidates[i];
      }
    }
    assert candidates[..|candidates|] == candidates;
    return Some(selected);
  }

  // ---- The lookup maps --------------------------------------------------------------------

  function References(r: Record): (refs: seq<string>)
    ensures |refs| == 4
  {
    [Text.Normalize(r.platformOrderNo), Text.Normalize(r.thirdOrderNo), Text.Normalize(r.referOrderNo),
      Text.Normalize(r.outboundOrderNo)]
  }

  // A record is listed under a reference once for each of its fields that carries it.
  function Listed(refs: seq<string>, r: Record, reference: string): seq<Record> {
    if refs == [] then [] else
      Listed(refs[..|refs| - 1], r, reference) + (if reference != "" && refs[|refs| - 1] == reference then [r] else [])
  }

  function ByReference(records: seq<Record>, reference: string): seq<Record> {
    if records == [] then [] else
      var last := records[|records| - 1];
      ByReference(records[..|records| - 1], reference) + Listed(References(last), last, reference)
  }

  function ByTracking(records: seq<Record>, number: string): seq<Record> {
    if records == [] then [] else
      var last := records[|records| - 1];
      ByTracking(records[..|records| - 1], number) + Listed([Text.Normalize(last.trackingNumber)], last, number)
  }

  type Lookup = map<string, seq<Record>>

  function Find(m: Lookup, key: string): seq<Record> {
    if key in m then m[key] else []
  }

  // After adding a record under these references, each list has grown by the record's listings.
  ghost predicate Extends(m: Lookup, m': Lookup, refs: seq<string>, r: Record) {
    forall key :: Find(m', key) == Find(m, key) + Listed(refs, r, key)
  }

  method AddAll(m: Lookup, refs: seq<string>, r: Record) returns (m': Lookup)
    ensures Extends(m, m', refs, r)
  {
    hide Listed, Extends, Find;
    m' := m;
    assert Extends(m, m', refs[..0], r) by { NothingAdded(m, r); }
    for i := 0 to |refs|
      invariant Extends(m, m', refs[..i], r)
    {
      ReferenceAdded(m, m', refs, i, r);
      if refs[i] != "" {
        m' := m'[refs[i] := Find(m', refs[i]) + [r]];
      }
    }
    assert refs[..|refs|] == refs;
  }

  lemma NothingAdded(m: Lookup, r: Record)
    ensures Extends(m, m, [], r)
  {
  }

  lemma ReferenceAdded(m: Lookup, m': Lookup, refs: seq<string>, i: nat, r: Record)
    requires i < |refs| && Extends(m, m', refs[..i], r)
    ensures Extends(m, if refs[i] != "" then m'[refs[i] := Find(m', refs[i]) + [r]] else m', refs[..i + 1], r)
  {
    hide Listed;
    var m2 := if refs[i] != "" then m'[refs[i] := Find(m', refs[i]) + [r]] else m';
    forall key ensures Find(m2, key) == Find(m, key) + Listed(refs[..i + 1], r, key) {
      ListedNext(refs, i, r, key);
      assert Find(m', key) == Find(m, key) + Listed(refs[..i], r, key);
    }
  }

  lemma ListedNext(refs: seq<string>, i: nat, r: Record, key: string)
    requires i < |refs|
    ensures Listed(refs[..i + 1], r, key) == Listed(refs[..i], r, key)
      + (if key != "" && refs[i] == key then [r] else [])
  {
    assert refs[..i + 1][..i] == refs[..i];
  }

  // Better status wins; at equal status a warehouse match wins; the reference wins a tie.
  function Choose(reference: Option<Record>, tracking: Option<Record>, warehouse: string): Option<Record> {
    if reference.None? && tracking.None? then None
    else if reference.None?
      || (tracking.Some? && Priority(tracking.value.status) > Priority(reference.value.status)) then tracking
    else if tracking.Some? && Priority(tracking.value.status) == Priority(reference.value.status)
      && Prefer(tracking.value, reference.value, warehouse) then tracking
    else reference
  }

  function MatchOf(records: seq<Record>, item: Audit): Option<Record> {
    var warehouse := Text.Normalize(item.code);
    Choose(Pick(ByReference(records, Text.Normalize(item.platformOrderNo)), warehouse, false),
           Pick(ByTracking(records, Text.Normalize(item.trackingNumber)), warehouse, true), warehouse)
  }

  function MatchAll(items: seq<Audit>, records: seq<Record>): map<int, Record> {
    if items == [] then map[] else
      var rest, last := MatchAll(items[..|items| - 1], records), items[|items| - 1];
      var m := MatchOf(records, last);
      if m.None? then rest else rest[last.id := m.value]
  }

  ghost predicate IsReferenceLookup(m: Lookup, records: seq<Record>) {
    forall key :: Find(m, key) == ByReference(records, key)
  }

  ghost predicate IsTrackingLookup(m: Lookup, records: seq<Record>) {
    forall key :: Find(m, key) == ByTracking(records, key)
  }

  lemma LookupsGrow(records: seq<Record>, i: nat, m: Lookup, m': Lookup)
    requires i < |records|
    ensures IsReferenceLookup(m, records[..i]) && Extends(m, m', References(records[i]), records[i]) ==>
      IsReferenceLookup(m', records[..i + 1])
    ensures IsTrackingLookup(m, records[..i]) && Extends(m, m', [Text.Normalize(records[i].trackingNumber)], records[i])
            ==> IsTrackingLookup(m', records[..i + 1])
  {
    hide Text.Normalize, Listed, References, Find;
    assert records[..i + 1][..i] == records[..i];
  }

  method BuildLookups(records: seq<Record>) returns (byReference: Lookup, byTracking: Lookup)
    ensures IsReferenceLookup(byReference, records) && IsTrackingLookup(byTracking, records)
  {
    hide Text.Normalize, References, IsReferenceLookup, IsTrackingLookup, Extends;
    byReference, byTracking := map[], map[];
    EmptyLookups();
    assert records[..0] == [];
    for i := 0 to |records|
      invariant IsReferenceLookup(byReference, records[..i]) && IsTrackingLookup(byTracking, records[..i])
    {
      var references := AddAll(byReference, References(records[i]), records[i]);
      LookupsGrow(records, i, byReference, references);
      byReference := references;
      var numbers := AddAll(byTracking, [Text.Normalize(records[i].trackingNumber)], records[i]);
      LookupsGrow(records, i, byTracking, numbers);
      byTracking := numbers;
    }
    assert records[..|records|] == records;
  }

  lemma EmptyLookups()
    ensures IsReferenceLookup(map[], []) && IsTrackingLookup(map[], [])
  {
  }

  method MatchIndexedOutboundRecords(items: seq<Audit>, records: seq<Record>) returns (matches: map<int, Record>)
    ensures matches == MatchAll(items, records)
  {
    hide Text.Normalize, Pick, Choose, Find, ByReference, ByTracking;
    var byReference, byTracking := BuildLookups(records);
    matches := map[];
    for i := 0 to |items|
      invariant matches == MatchAll(items[..i], records)
    {
      assert items[..i + 1][..i] == items[..i];
      var warehouse := Text.Normalize(items[i].code);
      var referenceMatch := PreferredRecord(Find(byReference, Text.Normalize(items[i].platformOrderNo)), warehouse,
        false);
      var trackingMatch := PreferredRecord(Find(byTracking, Text.Normalize(items[i].trackingNumber)), warehouse, true);
      var selected := Choose(referenceMatch, trackingMatch, warehouse);
      if selected.Some? {
        matches := matches[items[i].id := selected.value];
      }
    }
    assert items[..|items|] == items;
  }

  // ---- What a linear scan would find ------------------------------------------------------

  function WarehouseMatch(r: Record, warehouse: string): nat {
    if SameWarehouse(r, warehouse) then 1 else 0
  }

  // (warehouse match, status priority) for references; (status priority, warehouse match) for tracking.
  function Rank(r: Record, warehouse: string, tracking: bool): nat {
    if tracking then 2 * Priority(r.status) + WarehouseMatch(r, warehouse)
    else 5 * WarehouseMatch(r, warehouse) + Priority(r.status)
  }

  predicate Carries(r: Record, key: string, tracking: bool) {
    key != "" && if tracking then Text.Normalize(r.trackingNumber) == key else key in References(r)
  }

  predicate Leads(records: seq<Record>, key: string, warehouse: string, tracking: bool, k: nat)
    requires k < |records|
  {
    && Carries(records[k], key, tracking)
    && forall i :: 0 <= i < |records| && Carries(records[i], key, tracking) ==>
         && Rank(records[i], warehouse, tracking) <= Rank(records[k], warehouse, tracking)
         && (i < k ==> Rank(records[i], warehouse, tracking) < Rank(records[k], warehouse, tracking))
  }

  // The first record of highest rank among those carrying the key.
  ghost predicate FirstBest(records: seq<Record>, key: string, warehouse: string, tracking: bool, r: Option<Record>) {
    if exists i :: 0 <= i < |records| && Carries(records[i], key, tracking) then
      exists k :: 0 <= k < |records| && Leads(records, key, warehouse, tracking, k) && r == Some(records[k])
    else r.None?
  }

  lemma PreferIsRank(c: Record, s: Record, warehouse: string)
    ensures Prefer(c, s, warehouse) <==> Rank(c, warehouse, false) > Rank(s, warehouse, false)
    ensures PreferTracking(c, s, warehouse) <==> Rank(c, warehouse, true) > Rank(s, warehouse, true)
  {
  }

  function Candidates(records: seq<Record>, key: string, tracking: bool): seq<Record> {
    if tracking then ByTracking(records, key) else ByReference(records, key)
  }

  // Listing the same record again never changes the pick.
  lemma {:induction false} PickRepeated(candidates: seq<Record>, r: Record, n: nat, warehouse: string, tracking: bool,
      copies: seq<Record>)
    requires copies == seq(n, i => r)
    ensures Pick(candidates + copies, warehouse, tracking) ==
            if n == 0 then Pick(candidates, warehouse, tracking) else Pick(candidates + [r], warehouse, tracking)
  {
    hide Prefer, PreferTracking;
    if n == 0 {
      assert candidates + copies == candidates;
    } else if n == 1 {
      assert copies == [r];
    } else {
      var fewer := copies[..n - 1];
      assert (candidates + copies)[..|candidates + copies| - 1] == candidates + fewer;
      assert fewer == seq(n - 1, i => r);
      PickRepeated(candidates, r, n - 1, warehouse, tracking, fewer);
      assert (candidates + [r])[..|candidates|] == candidates;
      PreferIsRank(r, r, warehouse);
      PickOne(candidates, r, warehouse, tracking);
    }
  }

  // A record already listed last is never preferred over the current pick.
  lemma PickOne(candidates: seq<Record>, r: Record, warehouse: string, tracking: bool)
    ensures var best := Pick(candidates + [r], warehouse, tracking);
            best.Some? && !(if tracking then PreferTracking(r, best.value, warehouse)
              else Prefer(r, best.value, warehouse))
  {
    hide Prefer, PreferTracking;
    assert (candidates + [r])[..|candidates|] == candidates;
    PreferIsRank(r, r, warehouse);
  }

  lemma {:induction false} ListedCopies(refs: seq<string>, r: Record, key: string) returns (n: nat)
    ensures Listed(refs, r, key) == seq(n, i => r)
    ensures n > 0 <==> key != "" && key in refs
  {
    if refs == [] { return 0; }
    var m := ListedCopies(refs[..|refs| - 1], r, key);
    assert refs == refs[..|refs| - 1] + [refs[|refs| - 1]];
    n := if key != "" && refs[|refs| - 1] == key then m + 1 else m;
  }

  function KeyFields(r: Record, tracking: bool): seq<string> {
    if tracking then [Text.Normalize(r.trackingNumber)] else References(r)
  }

  // The pick over one record more, however often that record is listed.
  lemma PickNext(records: seq<Record>, key: string, warehouse: string, tracking: bool)
    requires records != []
    ensures var n := |records| - 1;
            var best := Pick(Candidates(records[..n], key, tracking), warehouse, tracking);
            var last := records[n];
            Pick(Candidates(records, key, tracking), warehouse, tracking) ==
            if Carries(last, key, tracking)
               && (best.None? || (if tracking then PreferTracking(last, best.value, warehouse)
                 else Prefer(last, best.value, warehouse)))
            then Some(last) else best
  {
    hide Rank, Prefer, PreferTracking, Text.Normalize, Listed;
    var n := |records| - 1;
    var last, before := records[n], Candidates(records[..n], key, tracking);
    var copies := ListedCopies(KeyFields(last, tracking), last, key);
    var listed := Listed(KeyFields(last, tracking), last, key);
    assert Candidates(records, key, tracking) == before + listed;
    PickRepeated(before, last, copies, warehouse, tracking, listed);
    assert copies > 0 <==> Carries(last, key, tracking);
    assert (before + [last])[..|before|] == before;
  }

  lemma {:induction false} PickIsFirstBest(records: seq<Record>, key: string, warehouse: string, tracking: bool)
    ensures FirstBest(records, key, warehouse, tracking, Pick(Candidates(records, key, tracking), warehouse, tracking))
  {
    hide Prefer, PreferTracking, Pick, Candidates, Carries, FirstBest;
    if records == [] {
      NothingPicked(key, warehouse, tracking);
    } else {
      var n := |records| - 1;
      PickIsFirstBest(records[..n], key, warehouse, tracking);
      PickNext(records, key, warehouse, tracking);
      FirstBestExtended(records[..n], records[n], key, warehouse, tracking,
                        Pick(Candidates(records[..n], key, tracking), warehouse, tracking));
      assert records[..n] + [records[n]] == records;
    }
  }

  lemma NothingPicked(key: string, warehouse: string, tracking: bool)
    ensures FirstBest([], key, warehouse, tracking, Pick(Candidates([], key, tracking), warehouse, tracking))
  {
  }

  lemma FirstBestExtended(rest: seq<Record>, last: Record, key: string, warehouse: string, tracking: bool,
      best: Option<Record>)
    requires FirstBest(rest, key, warehouse, tracking, best)
    ensures FirstBest(rest + [last], key, warehouse, tracking,
                      if Carries(last, key, tracking)
                         && (best.None? || (if tracking then PreferTracking(last, best.value, warehouse)
                           else Prefer(last, best.value, warehouse)))
                      then Some(last) else best)
  {
    hide Rank, Prefer, PreferTracking, Carries;
    var all, n := rest + [last], |rest|;
    assert all[n] == last && forall i :: 0 <= i < n ==> all[i] == rest[i];
    if best.Some? {
      var k :| 0 <= k < n && Leads(rest, key, warehouse, tracking, k) && best == Some(rest[k]);
      PreferIsRank(last, rest[k], warehouse);
      if Carries(last, key, tracking) && Rank(last, warehouse, tracking) > Rank(rest[k], warehouse, tracking) {
        assert Leads(all, key, warehouse, tracking, n);
      } else {
        assert Leads(all, key, warehouse, tracking, k);
      }
    } else if Carries(last, key, tracking) {
      assert Leads(all, key, warehouse, tracking, n);
    }
  }

  // The two-map matcher is the linear scan: the better of the first-best reference record and the
  // first-best tracking record, by (status priority, warehouse match), the reference on ties.
  lemma MatchIsLinearScan(records: seq<Record>, item: Audit)
    ensures var warehouse := Text.Normalize(item.code);
            exists reference, tracking ::
              && FirstBest(records, Text.Normalize(item.platformOrderNo), warehouse, false, reference)
              && FirstBest(records, Text.Normalize(item.trackingNumber), warehouse, true, tracking)
              && MatchOf(records, item) ==
                 (if tracking.Some? && (reference.None?
                   || Rank(tracking.value, warehouse, true) > Rank(reference.value, warehouse, true))
                  then tracking else reference)
  {
    hide FirstBest, Text.Normalize, Pick, Rank, Prefer;
    var warehouse := Text.Normalize(item.code);
    PickIsFirstBest(records, Text.Normalize(item.platformOrderNo), warehouse, false);
    PickIsFirstBest(records, Text.Normalize(item.trackingNumber), warehouse, true);
    var reference := Pick(ByReference(records, Text.Normalize(item.platformOrderNo)), warehouse, false);
    var tracking := Pick(ByTracking(records, Text.Normalize(item.trackingNumber)), warehouse, true);
    if reference.Some? && tracking.Some? {
      ChooseIsRank(reference.value, tracking.value, warehouse);
    }
  }

  lemma ChooseIsRank(reference: Record, tracking: Record, warehouse: string)
    ensures Choose(Some(reference), Some(tracking), warehouse) ==
            if Rank(tracking, warehouse, true) > Rank(reference, warehouse, true) then Some(tracking)
              else Some(reference)
  {
  }
}
