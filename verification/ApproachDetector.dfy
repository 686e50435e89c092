/** approach_detector.py: one `approaching` event per visit. */
module ApproachDetection {
  import opened Orders
  import opened Features
  import opened Approach
  import opened Visits
  import opened FeatureVectors
  import opened Trajectory
  import opened TrajectoryRuns

  datatype ProximityBand = AdjacentBand | NearBand | FarBand | BeyondFar

  datatype ApproachEvent = ApproachEvent(windowIndex: int, rssi: int, band: ProximityBand, identity: Identity)

  function BandOf(rssi: int, bands: BandEdges := DEFAULT_BANDS): ProximityBand {
    if rssi >= bands.adjacent then AdjacentBand
    else if rssi >= bands.near then NearBand
    else if rssi >= bands.far then FarBand
    else BeyondFar
  }

  /** Some moment of the visit looked like an approach. */
  ghost predicate RisenBy(visit: seq<Sample>) {
    exists k | 0 <= k <= |visit| :: IsRisingApproach(visit[..k])
  }

  /** The visit's latest sample is the first at which it looks like an approach. */
  ghost predicate FirstRise(visit: seq<Sample>) {
    visit != [] && IsRisingApproach(visit) && !RisenBy(Front(visit))
  }

  ghost function Risen(visits: VisitMap): set<Identity> { set i | i in visits && RisenBy(visits[i]) }

  ghost predicate Fires(visits: VisitMap, w: Hearing, i: Identity) {
    i in visits && i in w.current && FirstRise(visits[i])
  }

  ghost predicate EventsOf(events: seq<ApproachEvent>, visits: VisitMap, w: Hearing) {
    && (forall e | e in events :: Fires(visits, w, e.identity) &&
          var rssi := Last(visits[e.identity]).rssi;
          e == ApproachEvent(w.index, rssi, BandOf(rssi), e.identity))
    && (forall i | Fires(visits, w, i) :: exists e :: e in events && e.identity == i)
    && (forall a, b | 0 <= a < b < |events| :: events[a].identity != events[b].identity)
  }

  /** The deque of the last eight samples decides as the whole visit does. */
  lemma DequeDecides(visit: seq<Sample>)
    ensures IsRisingApproach(Tail(visit, APPROACH_WINDOWS)) <==> IsRisingApproach(visit)
  {}

  lemma RisenStep(visit: seq<Sample>)
    requires visit != []
    ensures RisenBy(visit) <==> RisenBy(Front(visit)) || IsRisingApproach(visit)
  {
    assert forall k | 0 <= k < |visit| :: Front(visit)[..k] == visit[..k];
    assert visit[..|visit|] == visit;
    if RisenBy(Front(visit)) {
      var k :| 0 <= k <= |Front(visit)| && IsRisingApproach(Front(visit)[..k]);
      assert IsRisingApproach(visit[..k]);
    }
  }

  lemma RisenNeedsEight(visit: seq<Sample>)
    ensures RisenBy(visit) ==> |visit| >= 8
  {}

  class ApproachDetector {
    const tracker: TrajectoryTracker
    var alerted: set<Identity>

    ghost predicate Valid()
      reads this, tracker, tracker.tracks.Values
    {
      tracker.Valid() && alerted == Risen(tracker.visits)
    }

    constructor ()
      ensures Valid() && tracker.history == []
      ensures tracker.maxAddresses == 256 && tracker.fadeAfter == 12
    {
      tracker := new TrajectoryTracker(TRACKER_MAX_ADDRESSES, TRACKER_FADE_AFTER_WINDOWS);
      alerted := {};
    }

    method Observe(window: DetectionWindow) returns (r: Result<seq<ApproachEvent>, string>)
      requires Valid()
      modifies this, tracker, tracker.tracks.Values
      ensures Valid()
      ensures r.Err? <==> old(tracker.history) != [] && window.index <= Last(old(tracker.history)).index
      ensures r.Err? ==> tracker.history == old(tracker.history)
      ensures r.Ok? ==>
                tracker.history == old(tracker.history) + [Hearing(window.index, HeardIn(window, Advertisements))]
      ensures r.Ok? ==> EventsOf(r.value, tracker.visits, Last(tracker.history))
    {
      hide RowsOf, EventsOf, Risen, VisitsAfter, RisenBefore, Next, HeardIn, Ordered, TrajectoryTracker.Owned;
      ghost var before := tracker.visits;
      tracker.NoneEmpty();
      var rows := tracker.Observe(window, Advertisements);
      if rows.Err? { return Err(rows.error); }
      alerted := alerted * tracker.tracks.Keys;
      ghost var w := Last(tracker.history);
      tracker.KeysAgree();
      tracker.NoneEmpty();
      assert tracker.visits == Next(tracker.maxAddresses, tracker.fadeAfter, before, w) by {
        VisitsStep(tracker.maxAddresses, tracker.fadeAfter, old(tracker.history), w);
      }
      AlertedSoFar(tracker.maxAddresses, tracker.fadeAfter, before, w, alerted);
      var events;
      alerted, events := Fire(window.index, rows.value, alerted, tracker.visits, w);
      r := Ok(events);
    }
  }

  /** Before this window's rows are looked at, an identity is alerted if its
      visit had risen before this window's sample. */
  ghost predicate RisenBefore(visits: VisitMap, w: Hearing, i: Identity) {
    i in visits && visits[i] != [] && RisenBy(if i in w.current then Front(visits[i]) else visits[i])
  }

  lemma AlertedSoFar(cap: int, fade: int, before: VisitMap, w: Hearing, alerted: set<Identity>)
    requires forall i | i in before :: before[i] != []
    requires var next := Next(cap, fade, before, w); forall i :: i in alerted <==> i in next && i in Risen(before)
    ensures forall i :: i in alerted <==> RisenBefore(Next(cap, fade, before, w), w, i)
  {
    hide Next, IsRisingApproach;
    forall i ensures i in alerted <==> RisenBefore(Next(cap, fade, before, w), w, i) {
      AlertedOne(cap, fade, before, w, i);
    }
  }

  lemma InRisen(visits: VisitMap, i: Identity)
    ensures i in Risen(visits) <==> i in visits && RisenBy(visits[i])
  {
    hide RisenBy;
  }

  lemma AlertedOne(cap: int, fade: int, before: VisitMap, w: Hearing, i: Identity)
    requires forall i | i in before :: before[i] != []
    ensures var next := Next(cap, fade, before, w); i in next && i in Risen(before) <==> RisenBefore(next, w, i)
  {
    hide Next, RisenBy, Risen;
    NextAt(cap, fade, before, w, i);
    InRisen(before, i);
    RisenNeedsEight([]);
    var next := Next(cap, fade, before, w);
    if i in next && i in w.current {
      var v := if i in before then before[i] else [];
      assert Front(next[i]) == v;
    }
  }

  method Fire(index: int, rows: seq<AddressTrajectory>, alerted0: set<Identity>,
              ghost visits: VisitMap, ghost w: Hearing)
    returns (alerted: set<Identity>, events: seq<ApproachEvent>)
    requires w.index == index && RowsOf(rows, visits, w)
    requires forall i :: i in alerted0 <==> RisenBefore(visits, w, i)
    requires forall i | i in visits :: visits[i] != []
    ensures alerted == Risen(visits)
    ensures EventsOf(events, visits, w)
  {
    hide RisenBefore, Alphabetic, RowOf, Risen, EventsOf, RowsOf;
    alerted := alerted0;
    events := [];
    RowsAreDistinct(rows, visits, w);
    for k := 0 to |rows|
      invariant forall j | k <= j < |rows| :: rows[j].identity in alerted <==> rows[j].identity in alerted0
      invariant alerted == AlertedUpTo(rows, k, alerted0)
      invariant events == FiredUpTo(index, rows, k, alerted0)
    {
      var row := rows[k];
      if row.rising && row.identity !in alerted {
        alerted := alerted + {row.identity};
        events := events + [ApproachEvent(index, row.maxRssi, BandOf(row.maxRssi), row.identity)];
      }
    }
    AlertedExact(rows, alerted0, visits, w);
    FiredExact(index, rows, alerted0, visits, w);
  }

  lemma RowsAreDistinct(rows: seq<AddressTrajectory>, visits: VisitMap, w: Hearing)
    requires RowsOf(rows, visits, w)
    ensures forall i, j | 0 <= i < j < |rows| :: rows[i].identity != rows[j].identity
  {}

  ghost function AlertedUpTo(rows: seq<AddressTrajectory>, k: nat, alerted: set<Identity>): set<Identity>
    requires k <= |rows|
  {
    if k == 0 then alerted
    else AlertedUpTo(rows, k - 1, alerted) + if rows[k - 1].rising then {rows[k - 1].identity} else {}
  }

  ghost function FiredUpTo(index: int, rows: seq<AddressTrajectory>, k: nat, alerted: set<Identity>): seq<ApproachEvent>
    requires k <= |rows|
  {
    if k == 0 then []
    else
      var row := rows[k - 1];
      FiredUpTo(index, rows, k - 1, alerted) +
      (if row.rising && row.identity !in alerted
       then [ApproachEvent(index, row.maxRssi, BandOf(row.maxRssi), row.identity)] else [])
  }

  lemma {:induction false} AlertedMembers(rows: seq<AddressTrajectory>, k: nat, alerted: set<Identity>)
    requires k <= |rows|
    ensures forall i :: i in AlertedUpTo(rows, k, alerted) <==>
              i in alerted || exists j :: 0 <= j < k && rows[j].identity == i && rows[j].rising
  {
    if k == 0 {
    } else {
      AlertedMembers(rows, k - 1, alerted);
    }
  }

  ghost predicate FiredBy(e: ApproachEvent, index: int, rows: seq<AddressTrajectory>, k: nat,
                          alerted: set<Identity>, j: int)
  {
    && 0 <= j < k && j < |rows| && rows[j].rising && rows[j].identity !in alerted
    && e == ApproachEvent(index, rows[j].maxRssi, BandOf(rows[j].maxRssi), rows[j].identity)
  }

  lemma {:induction false} FiredMembers(index: int, rows: seq<AddressTrajectory>, k: nat, alerted: set<Identity>)
    requires k <= |rows|
    requires forall i, j | 0 <= i < j < |rows| :: rows[i].identity != rows[j].identity
    ensures var q := FiredUpTo(index, rows, k, alerted);
            && (forall e | e in q :: exists j :: FiredBy(e, index, rows, k, alerted, j))
            && (forall j | 0 <= j < k && rows[j].rising && rows[j].identity !in alerted ::
                  ApproachEvent(index, rows[j].maxRssi, BandOf(rows[j].maxRssi), rows[j].identity) in q)
            && (forall a, b | 0 <= a < b < |q| :: q[a].identity != q[b].identity)
  {
    hide BandOf;
    if k == 0 {
    } else {
      FiredMembers(index, rows, k - 1, alerted);
      var q := FiredUpTo(index, rows, k - 1, alerted);
      forall e | e in FiredUpTo(index, rows, k, alerted) ensures exists j :: FiredBy(e, index, rows, k, alerted, j) {
        if e in q {
          var j :| FiredBy(e, index, rows, k - 1, alerted, j);
          assert FiredBy(e, index, rows, k, alerted, j);
        } else {
          assert FiredBy(e, index, rows, k, alerted, k - 1);
        }
      }
      forall a | 0 <= a < |q| ensures q[a].identity != rows[k - 1].identity {
        assert q[a] in q;
      }
    }
  }

  /** One row says whether its visit rises now, and how loud it is. */
  lemma RowSays(rows: seq<AddressTrajectory>, visits: VisitMap, w: Hearing, j: nat)
    requires j < |rows| && RowsOf(rows, visits, w)
    ensures var i := rows[j].identity;
            && i in visits && i in w.current && visits[i] != []
            && (rows[j].rising <==> IsRisingApproach(visits[i]))
            && rows[j].maxRssi == Last(visits[i]).rssi
  {}

  lemma RowFor(rows: seq<AddressTrajectory>, visits: VisitMap, w: Hearing, i: Identity) returns (j: nat)
    requires RowsOf(rows, visits, w) && i in visits && i in w.current && visits[i] != []
    ensures j < |rows| && rows[j].identity == i
  {
    hide IsRisingApproach;
    assert RowOf(i, visits[i]) in rows;
    j :| 0 <= j < |rows| && rows[j] == RowOf(i, visits[i]);
  }

  lemma AlertedExact(rows: seq<AddressTrajectory>, alerted: set<Identity>, visits: VisitMap, w: Hearing)
    requires RowsOf(rows, visits, w) && forall i | i in visits :: visits[i] != []
    requires forall i :: i in alerted <==> RisenBefore(visits, w, i)
    ensures AlertedUpTo(rows, |rows|, alerted) == Risen(visits)
  {
    hide RowsOf, RisenBy, IsRisingApproach;
    AlertedMembers(rows, |rows|, alerted);
    forall i ensures i in AlertedUpTo(rows, |rows|, alerted) <==> i in Risen(visits) {
      if i in visits && i in w.current {
        var j := RowFor(rows, visits, w, i);
        RowSays(rows, visits, w, j);
        RisenStep(visits[i]);
        RowsAreDistinct(rows, visits, w);
      } else {
        forall j | 0 <= j < |rows| && rows[j].identity == i ensures false { RowSays(rows, visits, w, j); }
      }
    }
  }

  lemma FiredExact(index: int, rows: seq<AddressTrajectory>, alerted: set<Identity>, visits: VisitMap, w: Hearing)
    requires w.index == index && RowsOf(rows, visits, w) && forall i | i in visits :: visits[i] != []
    requires forall i :: i in alerted <==> RisenBefore(visits, w, i)
    ensures EventsOf(FiredUpTo(index, rows, |rows|, alerted), visits, w)
  {
    hide RowsOf, RisenBy, IsRisingApproach, BandOf;
    RowsAreDistinct(rows, visits, w);
    FiredMembers(index, rows, |rows|, alerted);
    var q := FiredUpTo(index, rows, |rows|, alerted);
    forall e | e in q
      ensures Fires(visits, w, e.identity)
      ensures var rssi := Last(visits[e.identity]).rssi; e == ApproachEvent(w.index, rssi, BandOf(rssi), e.identity)
    {
      var j :| FiredBy(e, index, rows, |rows|, alerted, j);
      RowSays(rows, visits, w, j);
    }
    forall i | Fires(visits, w, i) ensures exists e :: e in q && e.identity == i {
      var j := RowFor(rows, visits, w, i);
      RowSays(rows, visits, w, j);
    }
  }
}
