/** The approach detector over whole runs. */
module ApproachRuns {
  import opened Orders
  import opened Features
  import opened LeastSquares
  import opened Approach
  import opened Visits
  import opened FeatureVectors
  import opened TrajectoryRuns
  import opened ApproachDetection

  /** An event for i is emitted at window t of the run. */
  ghost predicate EventAt(cap: int, fade: int, h: seq<Hearing>, t: int, i: Identity) {
    0 <= t < |h| && Fires(VisitsAfter(cap, fade, h[..t + 1]), h[t], i)
  }

  ghost predicate LiveAt(cap: int, fade: int, h: seq<Hearing>, t: int, i: Identity) {
    0 <= t < |h| && i in VisitsAfter(cap, fade, h[..t + 1])
  }

  lemma OneWindowOn(cap: int, fade: int, h: seq<Hearing>, t: int)
    requires 0 < t < |h|
    ensures VisitsAfter(cap, fade, h[..t + 1]) == Next(cap, fade, VisitsAfter(cap, fade, h[..t]), h[t])
  {
    hide Next;
    assert Front(h[..t + 1]) == h[..t];
  }

  ghost function VisitAt(cap: int, fade: int, h: seq<Hearing>, t: int, i: Identity): seq<Sample> {
    if LiveAt(cap, fade, h, t, i) then VisitsAfter(cap, fade, h[..t + 1])[i] else []
  }

  ghost predicate Continues(before: seq<Sample>, now: seq<Sample>, heard: bool) {
    if heard then now != [] && Front(now) == before else now == before
  }

  /** A live identity's visit keeps what it held, with this window's sample if heard. */
  lemma OneSampleOn(cap: int, fade: int, h: seq<Hearing>, t: int, i: Identity)
    requires 0 < t < |h| && LiveAt(cap, fade, h, t, i) && LiveAt(cap, fade, h, t - 1, i)
    ensures Continues(VisitAt(cap, fade, h, t - 1, i), VisitAt(cap, fade, h, t, i), i in h[t].current)
  {
    hide Next, VisitsAfter, Ordered;
    OneWindowOn(cap, fade, h, t);
    NextAt(cap, fade, VisitsAfter(cap, fade, h[..t]), h[t], i);
    assert h[..t - 1 + 1] == h[..t];
  }

  ghost predicate LiveFrom(cap: int, fade: int, h: seq<Hearing>, a: int, b: int, i: Identity) {
    0 <= a <= b < |h| && forall t | a <= t <= b :: LiveAt(cap, fade, h, t, i)
  }

  /** While an identity stays live its visit only grows at the end. */
  lemma {:induction false} LiveVisitGrows(cap: int, fade: int, h: seq<Hearing>, a: int, b: int, i: Identity)
    requires LiveFrom(cap, fade, h, a, b, i)
    ensures VisitAt(cap, fade, h, a, i) <= VisitAt(cap, fade, h, b, i)
    ensures a < b && i in h[b].current ==>
              var late := VisitAt(cap, fade, h, b, i); late != [] && VisitAt(cap, fade, h, a, i) <= Front(late)
    decreases b - a
  {
    hide LiveAt, VisitAt;
    if a == b {
    } else {
      LiveVisitGrows(cap, fade, h, a, b - 1, i);
      OneSampleOn(cap, fade, h, b, i);
    }
  }

  /** A visit that starts after a window holds only later samples. */
  lemma {:induction false} VisitStartsAfter(cap: int, fade: int, h: seq<Hearing>, e: int, b: int, i: Identity)
    requires Ordered(h) && 0 <= e <= b < |h| && !LiveAt(cap, fade, h, e, i) && LiveAt(cap, fade, h, b, i)
    ensures forall s | s in VisitsAfter(cap, fade, h[..b + 1])[i] :: s.index > h[e].index
    decreases b - e
  {
    hide Next;
    OneWindowOn(cap, fade, h, b);
    NextAt(cap, fade, VisitsAfter(cap, fade, h[..b]), h[b], i);
    if LiveAt(cap, fade, h, b - 1, i) {
      VisitStartsAfter(cap, fade, h, e, b - 1, i);
    }
  }

  lemma {:induction false} VisitIncreases(cap: int, fade: int, h: seq<Hearing>, i: Identity)
    requires Ordered(h)
    ensures var v := VisitsAfter(cap, fade, h); i in v ==> Increasing(v[i])
  {
    VisitIsSuffix(cap, fade, h, i);
    HearingsIncrease(h, i);
  }

  lemma EventMeans(cap: int, fade: int, h: seq<Hearing>, t: int, i: Identity)
    requires EventAt(cap, fade, h, t, i)
    ensures 0 <= t < |h| && LiveAt(cap, fade, h, t, i) && i in h[t].current
    ensures FirstRise(VisitAt(cap, fade, h, t, i))
  {}

  lemma PrefixRises(early: seq<Sample>, visit: seq<Sample>)
    requires IsRisingApproach(early) && early <= visit
    ensures RisenBy(visit)
  {
    assert visit[..|early|] == early;
  }

  /** Fire once a visit: between two events for one identity its track was
      dropped, and at least nine window indexes go by. */
  lemma FiresOncePerVisit(cap: int, fade: int, h: seq<Hearing>, a: int, b: int, i: Identity)
    requires Ordered(h) && a < b
    requires EventAt(cap, fade, h, a, i) && EventAt(cap, fade, h, b, i)
    ensures exists e | a < e < b :: !LiveAt(cap, fade, h, e, i)
    ensures h[b].index - h[a].index >= 9
  {
    hide IsRisingApproach, RisenBy, VisitAt, Ordered, EventAt, VisitsAfter;
    EventMeans(cap, fade, h, a, i);
    EventMeans(cap, fade, h, b, i);
    if LiveFrom(cap, fade, h, a, b, i) {
      LiveVisitGrows(cap, fade, h, a, b, i);
      PrefixRises(VisitAt(cap, fade, h, a, i), Front(VisitAt(cap, fade, h, b, i)));
    }
    var e :| a < e < b && !LiveAt(cap, fade, h, e, i);
    NineLater(cap, fade, h, a, e, b, i);
  }

  lemma NineLater(cap: int, fade: int, h: seq<Hearing>, a: int, e: int, b: int, i: Identity)
    requires Ordered(h) && 0 <= a < e < b && EventAt(cap, fade, h, b, i) && !LiveAt(cap, fade, h, e, i)
    ensures h[b].index - h[a].index >= 9
  {
    hide IsRisingApproach, VisitsAfter;
    EventMeans(cap, fade, h, b, i);
    var late := VisitAt(cap, fade, h, b, i);
    VisitStartsAfter(cap, fade, h, e, b, i);
    VisitIncreases(cap, fade, h[..b + 1], i);
    EightToRise(late);
    SpreadOut(late);
    LastIsNow(cap, fade, h[..b + 1], i);
    assert late[0] in late;
  }

  lemma EightToRise(visit: seq<Sample>)
    requires IsRisingApproach(visit)
    ensures |visit| >= 8
  {}

  lemma LastIsNow(cap: int, fade: int, h: seq<Hearing>, i: Identity)
    requires h != [] && i in Last(h).current && i in VisitsAfter(cap, fade, h)
    ensures var v := VisitsAfter(cap, fade, h)[i]; v != [] && Last(v).index == Last(h).index
  {}

  /** Some window of the visit going on at the end of h raised the event. */
  ghost predicate RaisedThisVisit(cap: int, fade: int, h: seq<Hearing>, i: Identity) {
    exists a :: EventAt(cap, fade, h, a, i) && LiveFrom(cap, fade, h, a, |h| - 1, i)
  }

  lemma RaisedStep(cap: int, fade: int, h: seq<Hearing>, i: Identity)
    requires h != [] && i in VisitsAfter(cap, fade, h)
    ensures RaisedThisVisit(cap, fade, h, i) <==>
            EventAt(cap, fade, h, |h| - 1, i) || RaisedThisVisit(cap, fade, Front(h), i)
  {
    hide VisitsAfter, Fires;
    var p := Front(h);
    assert h[..|h|] == h;
    forall t | 0 <= t < |p| ensures LiveAt(cap, fade, p, t, i) == LiveAt(cap, fade, h, t, i)
                            ensures EventAt(cap, fade, p, t, i) == EventAt(cap, fade, h, t, i) {
      assert p[..t + 1] == h[..t + 1];
    }
    if EventAt(cap, fade, h, |h| - 1, i) { assert LiveFrom(cap, fade, h, |h| - 1, |h| - 1, i); }
    if RaisedThisVisit(cap, fade, p, i) {
      var a :| EventAt(cap, fade, p, a, i) && LiveFrom(cap, fade, p, a, |p| - 1, i);
      assert EventAt(cap, fade, h, a, i);
      forall t | a <= t <= |p| ensures LiveAt(cap, fade, h, t, i) {
        assert t < |p| ==> LiveAt(cap, fade, p, t, i);
      }
    }
    if RaisedThisVisit(cap, fade, h, i) {
      var a :| EventAt(cap, fade, h, a, i) && LiveFrom(cap, fade, h, a, |h| - 1, i);
      if a < |p| {
        assert EventAt(cap, fade, p, a, i);
        forall t | a <= t < |p| ensures LiveAt(cap, fade, p, t, i) { assert LiveAt(cap, fade, h, t, i); }
      }
    }
  }

  lemma NotLiveNotRaised(cap: int, fade: int, h: seq<Hearing>, i: Identity)
    requires i !in VisitsAfter(cap, fade, h)
    ensures !RaisedThisVisit(cap, fade, h, i)
  {
    hide VisitsAfter, EventAt;
    assert h[..|h|] == h;
    assert !LiveAt(cap, fade, h, |h| - 1, i);
  }

  /** Every visit that ever looks like an approach raises its event: at any
      window, a live visit has risen if and only if some window of that very
      visit raised the event. */
  lemma {:induction false} RisenMeansRaised(cap: int, fade: int, h: seq<Hearing>, i: Identity)
    requires i in VisitsAfter(cap, fade, h)
    ensures RisenBy(VisitsAfter(cap, fade, h)[i]) <==> RaisedThisVisit(cap, fade, h, i)
    decreases |h|
  {
    hide Next, RisenBy, IsRisingApproach, RaisedThisVisit, LiveAt;
    var p, w := Front(h), Last(h);
    var before, now := VisitsAfter(cap, fade, p), VisitsAfter(cap, fade, h);
    NextAt(cap, fade, before, w, i);
    RaisedStep(cap, fade, h, i);
    RisenNeedsEight([]);
    if i in before { RisenMeansRaised(cap, fade, p, i); } else { NotLiveNotRaised(cap, fade, p, i); }
    if i in w.current {
      assert Front(now[i]) == if i in before then before[i] else [];
      RisenStep(now[i]);
    }
    assert h[..|h|] == h;
  }
}
