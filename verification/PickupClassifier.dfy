// The pickup classifier, written once in Go over fetched events and once in SQL over stored columns.

module PickupClassifier {
  import opened Wrappers

  // A carrier event: its normalised status, its original text and, when it parses, its time in seconds.
  datatype Event = Event(status: string, text: string, at: Option<int>)
  datatype Parcel = Parcel(events: seq<Event>)
  datatype Tracking = Failed(message: string) | Fetched(parcels: seq<Parcel>)

  // The stored columns the classifiers read and write.
  datatype Pickup = Pickup(parcels: int, pickedUp: int, category: string, reason: string, error: string,
                           confirmedAt: Option<int>, latest: Option<Event>)
  datatype Verdict = Verdict(category: string, reason: string)

  const GRACE := 43_200
  const OVERDUE := 86_400

  // The OMS outbound time, or else the platform's shipping time.
  function StartedAt(outboundAt: Option<int>, shippingAt: Option<int>): Option<int> {
    if outboundAt.Some? then outboundAt else shippingAt
  }

  predicate GraceElapsed(started: Option<int>, now: int) {
    started.None? || !(started.value > now - GRACE)
  }

  predicate IsOverdue(started: Option<int>, now: int) {
    started.Some? && !(started.value > now - OVERDUE)
  }

  predicate StatusPickedUp(status: string) {
    status == "last mile carrier picked up" || status == "picked up"
  }

  predicate StatusConfirms(status: string) {
    StatusPickedUp(status) || status == "delivered" || status == "in transit" || "in transit " <= status
  }

  predicate StatusFailed(status: string) {
    status == "last mile carrier pick up failed" || status == "pickup failed"
  }

  function GoClassify(parcels: int, pickedUp: int, failed: bool, started: Option<int>, error: string,
      now: int): Verdict {
    if parcels > 0 && pickedUp >= parcels then Verdict("picked_up", "")
    else if failed && GraceElapsed(started, now) then Verdict("pickup_exception", "pickup_failed")
    else if IsOverdue(started, now) then Verdict("pickup_exception", "pickup_overdue")
    else Verdict(if error != "" then "tracking_error" else "awaiting_pickup", if failed then "pickup_failed" else "")
  }

  function SqlClassify(p: Pickup, started: Option<int>, now: int): Verdict {
    var picked := p.parcels > 0 && p.pickedUp >= p.parcels;
    var overdue := started.Some? && started.value <= now - OVERDUE;
    var category :=
      if picked then "picked_up"
      else if p.reason == "pickup_failed" && (started.None? || started.value <= now - GRACE) then "pickup_exception"
      else if overdue then "pickup_exception"
      else if p.error != "" then "tracking_error" else "awaiting_pickup";
    var reason :=
      if picked then "" else if p.reason == "pickup_failed" then "pickup_failed"
      else if overdue then "pickup_overdue" else "";
    Verdict(category, reason)
  }

  // ---- What the events say ----------------------------------------------------------------

  predicate ParcelPickedUp(p: Parcel) {
    exists i :: 0 <= i < |p.events| && StatusConfirms(p.events[i].status)
  }

  function PickedUpCount(parcels: seq<Parcel>): nat {
    if parcels == [] then 0
    else PickedUpCount(parcels[..|parcels| - 1]) + (if ParcelPickedUp(parcels[|parcels| - 1]) then 1 else 0)
  }

  function AllEvents(parcels: seq<Parcel>): seq<Event> {
    if parcels == [] then [] else AllEvents(parcels[..|parcels| - 1]) + parcels[|parcels| - 1].events
  }

  predicate AnyFailed(events: seq<Event>) {
    exists i :: 0 <= i < |events| && StatusFailed(events[i].status)
  }

  // The first event among those with the latest time; without any time, the first event.
  ghost predicate IsLatest(events: seq<Event>, latest: Option<Event>) {
    if forall i :: 0 <= i < |events| ==> events[i].at.None? then
      latest == if events == [] then None else Some(events[0])
    else
      exists k :: 0 <= k < |events| && latest == Some(events[k]) && LatestAt(events, k)
  }

  ghost predicate LatestAt(events: seq<Event>, k: nat)
    requires k < |events|
  {
    && events[k].at.Some?
    && forall i :: 0 <= i < |events| && events[i].at.Some? ==>
         events[i].at.value <= events[k].at.value && (i < k ==> events[i].at.value < events[k].at.value)
  }

  // The latest time at which the last-mile carrier picked something up.
  ghost predicate IsLatestPickup(events: seq<Event>, at: Option<int>) {
    && (forall i :: 0 <= i < |events| && StatusPickedUp(events[i].status) && events[i].at.Some? ==>
          at.Some? && events[i].at.value <= at.value)
    && (at.Some? ==> exists i :: 0 <= i < |events| && StatusPickedUp(events[i].status) && events[i].at == at)
  }

  datatype Scan = Scan(latest: Option<Event>, timed: bool, pickup: Option<int>, failed: bool)

  ghost predicate Scanned(events: seq<Event>, s: Scan) {
    && IsLatest(events, s.latest) && IsLatestPickup(events, s.pickup) && (s.failed <==> AnyFailed(events))
    && (s.timed <==> exists i :: 0 <= i < |events| && events[i].at.Some?)
  }

  lemma ScannedNone()
    ensures Scanned([], Scan(None, false, None, false))
  {
  }

  // A time that is known and after the other one, if that is known at all.
  predicate Later(at: Option<int>, other: Option<int>) {
    at.Some? && (other.None? || at.value > other.value)
  }

  function ScanStep(s: Scan, e: Event): Scan {
    var later := e.at.Some? && (!s.timed || s.latest.None? || Later(e.at, s.latest.value.at));
    Scan(if later || (!s.timed && s.latest.None?) then Some(e) else s.latest,
         s.timed || e.at.Some?,
         if StatusPickedUp(e.status) && Later(e.at, s.pickup) then e.at else s.pickup,
         s.failed || StatusFailed(e.status))
  }

  lemma ScannedNext(events: seq<Event>, s: Scan, e: Event)
    requires Scanned(events, s)
    ensures Scanned(events + [e], ScanStep(s, e))
  {
    hide StatusPickedUp, StatusFailed;
    var s', all := ScanStep(s, e), events + [e];
    assert all[|events|] == e && forall i :: 0 <= i < |events| ==> all[i] == events[i];
    LatestNext(events, s, e);
    assert IsLatestPickup(all, s'.pickup) by {
      if s'.pickup == e.at && e.at.Some? && StatusPickedUp(e.status) {
        assert all[|events|].at == s'.pickup;
      } else if s.pickup.Some? {
        var i :| 0 <= i < |events| && StatusPickedUp(events[i].status) && events[i].at == s.pickup;
        assert all[i].at == s.pickup;
      }
    }
    assert s'.failed <==> AnyFailed(all) by {
      if s.failed {
        var i :| 0 <= i < |events| && StatusFailed(events[i].status);
        assert StatusFailed(all[i].status);
      }
      if StatusFailed(e.status) {
        assert StatusFailed(all[|events|].status);
      }
    }
    if s.timed {
      var i :| 0 <= i < |events| && events[i].at.Some?;
      assert all[i].at.Some?;
    }
  }

  lemma LatestNext(events: seq<Event>, s: Scan, e: Event)
    requires IsLatest(events, s.latest) && (s.timed <==> exists i :: 0 <= i < |events| && events[i].at.Some?)
    ensures IsLatest(events + [e], ScanStep(s, e).latest)
  {
    hide StatusPickedUp, StatusFailed;
    var all := events + [e];
    assert all[|events|] == e && forall i :: 0 <= i < |events| ==> all[i] == events[i];
    if s.timed {
      var k :| 0 <= k < |events| && s.latest == Some(events[k]) && LatestAt(events, k);
      if e.at.Some? && e.at.value > events[k].at.value {
        assert LatestAt(all, |events|);
      } else {
        assert LatestAt(all, k);
      }
    } else if e.at.Some? {
      assert LatestAt(all, |events|);
    }
  }

  method ScanEvents(parcel: Parcel, s: Scan, ghost before: seq<Event>) returns (s': Scan, pickedUp: bool)
    requires Scanned(before, s)
    ensures Scanned(before + parcel.events, s')
    ensures pickedUp == ParcelPickedUp(parcel)
  {
    hide Scanned, ScanStep, StatusConfirms;
    s', pickedUp := s, false;
    assert before + parcel.events[..0] == before;
    for i := 0 to |parcel.events|
      invariant Scanned(before + parcel.events[..i], s')
      invariant pickedUp <==> exists k :: 0 <= k < i && StatusConfirms(parcel.events[k].status)
    {
      var e := parcel.events[i];
      ScannedNext(before + parcel.events[..i], s', e);
      assert before + parcel.events[..i] + [e] == before + parcel.events[..i + 1];
      s' := ScanStep(s', e);
      if StatusConfirms(e.status) {
        pickedUp := true;
      }
    }
    assert parcel.events[..|parcel.events|] == parcel.events;
  }

  ghost predicate IsResolution(item: Pickup, tracking: Tracking, started: Option<int>, now: int, r: Pickup) {
    match tracking
    case Failed(message) =>
      && r.error == message && r.parcels == item.parcels && r.pickedUp == item.pickedUp
      && r.confirmedAt == item.confirmedAt && r.latest == item.latest
      && Verdict(r.category, r.reason)
        == GoClassify(item.parcels, item.pickedUp, item.reason == "pickup_failed", started, message, now)
    case Fetched(parcels) =>
      && r.error == "" && r.parcels == |parcels| && r.pickedUp == PickedUpCount(parcels)
      && IsLatest(AllEvents(parcels), r.latest)
      && (r.parcels > 0 && r.pickedUp >= r.parcels ==> IsLatestPickup(AllEvents(parcels), r.confirmedAt))
      && (!(r.parcels > 0 && r.pickedUp >= r.parcels) ==> r.confirmedAt == None)
      && Verdict(r.category, r.reason)
        == GoClassify(|parcels|, PickedUpCount(parcels), AnyFailed(AllEvents(parcels)), started, "", now)
  }

  method TrackingResolution(item: Pickup, tracking: Tracking, started: Option<int>, now: int) returns (r: Pickup)
    ensures IsResolution(item, tracking, started, now, r)
  {
    hide Scanned, ParcelPickedUp, GoClassify;
    if tracking.Failed? {
      var v := GoClassify(item.parcels, item.pickedUp, item.reason == "pickup_failed", started, tracking.message, now);
      return item.(category := v.category, reason := v.reason, error := tracking.message);
    }
    var parcels, picked, s := tracking.parcels, 0, Scan(None, false, None, false);
    ScannedNone();
    for i := 0 to |parcels|
      invariant picked == PickedUpCount(parcels[..i])
      invariant Scanned(AllEvents(parcels[..i]), s)
    {
      assert parcels[..i + 1][..i] == parcels[..i];
      var packagePickedUp;
      s, packagePickedUp := ScanEvents(parcels[i], s, AllEvents(parcels[..i]));
      if packagePickedUp {
        picked := picked + 1;
      }
    }
    assert parcels[..|parcels|] == parcels;
    ScannedParts(AllEvents(parcels), s);
    var confirmedAt := if |parcels| > 0 && picked >= |parcels| then s.pickup else None;
    var v := GoClassify(|parcels|, picked, s.failed, started, "", now);
    r := Pickup(|parcels|, picked, v.category, v.reason, "", confirmedAt, s.latest);
  }

  lemma ScannedParts(events: seq<Event>, s: Scan)
    requires Scanned(events, s)
    ensures IsLatest(events, s.latest) && IsLatestPickup(events, s.pickup) && (s.failed <==> AnyFailed(events))
  {
  }

  // ---- The two classifiers agree over time ------------------------------------------------

  function Refresh(p: Pickup, started: Option<int>, now: int): Pickup {
    var v := SqlClassify(p, started, now);
    p.(category := v.category, reason := v.reason)
  }

  function RefreshAll(p: Pickup, started: Option<int>, times: seq<int>): Pickup {
    if times == [] then p else Refresh(RefreshAll(p, started, times[..|times| - 1]), started, times[|times| - 1])
  }

  // The stored columns carry what Go classification at `now` would have written.
  ghost predicate ClassifiedAt(p: Pickup, failed: bool, started: Option<int>, now: int) {
    Verdict(p.category, p.reason) == GoClassify(p.parcels, p.pickedUp, failed, started, p.error, now)
  }

  lemma {:induction false} RefreshesAgree(p: Pickup, failed: bool, started: Option<int>, now: int, times: seq<int>)
    requires ClassifiedAt(p, failed, started, now)
    ensures var q := RefreshAll(p, started, times);
            q == p.(category := q.category, reason := q.reason)
            && ClassifiedAt(q, failed, started, if times == [] then now else times[|times| - 1])
  {
    if times != [] {
      RefreshesAgree(p, failed, started, now, times[..|times| - 1]);
    }
  }

  // Fetch and classify at one time, refresh in SQL at any later or earlier times: the stored verdict
  // is the one Go would give for the same events at the last of them.
  lemma StoredReasonLosesNothing(item: Pickup, parcels: seq<Parcel>, started: Option<int>, t1: int, times: seq<int>,
                                 t2: int, first: Pickup, second: Pickup)
    requires IsResolution(item, Fetched(parcels), started, t1, first)
    requires IsResolution(item, Fetched(parcels), started, t2, second)
    ensures var q := RefreshAll(first, started, times + [t2]);
            q.category == second.category && q.reason == second.reason && q.parcels == second.parcels
              && q.pickedUp == second.pickedUp
  {
    hide IsLatest, IsLatestPickup, GoClassify, SqlClassify, AllEvents;
    RefreshesAgree(first, AnyFailed(AllEvents(parcels)), started, t1, times + [t2]);
  }

  // A later failed query keeps the remembered pickup failure too.
  lemma FailedQueryKeepsVerdict(item: Pickup, failed: bool, started: Option<int>, t1: int, message: string, t2: int,
      r: Pickup)
    requires ClassifiedAt(item, failed, started, t1) && IsResolution(item, Failed(message), started, t2, r)
    ensures ClassifiedAt(r, failed, started, t2)
  {
  }
}
