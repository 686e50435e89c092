/** What the rows, vectors and events say, read off the samples in plain numbers. */
module Readings {
  import opened Orders
  import opened Features
  import opened LeastSquares
  import opened Visits
  import opened FeatureVectors
  import opened TrajectoryRuns
  import opened Approach
  import opened ApproachDetection
  import opened ApproachRuns

  // ------------------------------------------------------------------- one row

  /** The last n samples lie on consecutive windows, and no more do. */
  ghost predicate EndsIn(s: seq<Sample>, n: nat) {
    && 1 <= n <= |s|
    && (forall k | |s| - n < k < |s| :: s[k].index == s[k - 1].index + 1)
    && (n < |s| ==> s[|s| - n].index != s[|s| - n - 1].index + 1)
  }

  lemma {:induction false} StreakExactly(s: seq<Sample>)
    requires s != []
    ensures EndsIn(s, Streak(s))
  {
    if |s| >= 2 {
      hide EndsIn;
      StreakExactly(Front(s));
      EndsInOneMore(s, Streak(Front(s)));
    }
  }

  lemma EndsInOneMore(s: seq<Sample>, n: nat)
    requires |s| >= 2 && EndsIn(Front(s), n)
    ensures EndsIn(s, if s[|s| - 2].index == s[|s| - 1].index - 1 then n + 1 else 1)
  {
    assert forall k | 0 <= k < |s| - 1 :: Front(s)[k] == s[k];
  }

  /** On increasing windows the streak is the whole history exactly when the
      history has no gap. */
  lemma {:induction false} StreakWhenWhole(s: seq<Sample>)
    requires s != [] && Increasing(s)
    ensures Streak(s) == |s| <==> |s| == Last(s).index - s[0].index + 1
  {
    if |s| >= 2 {
      StreakWhenWhole(Front(s));
      StreakExactly(Front(s));
      SpreadOut(Front(s));
    }
  }

  /** The span is the widest difference, and the slope the ratio of the pair sums. */
  ghost predicate ShowsSlope(p: seq<Sample>, slope: Option<real>, span: int) {
    && Differ(p, span) && !Differ(p, span + 1)
    && (slope.None? <==> |p| <= 1)
    && (slope.Some? ==> slope.value * PairSum(OnDiagonal(p)) as real == PairSum(p) as real)
  }

  lemma SlopeIsShown(p: seq<Sample>)
    requires p != [] && Increasing(p)
    ensures RssiSpan(p).Some? && ShowsSlope(p, RssiSlope(p), RssiSpan(p).value)
  {
    hide PairSum, RssiSlope, RssiSpan, Differ, Increasing;
    WidestSpan(p);
    SlopeIsPairRatio(p);
  }

  lemma WidestSpan(p: seq<Sample>)
    requires p != []
    ensures RssiSpan(p).Some? && Differ(p, RssiSpan(p).value) && !Differ(p, RssiSpan(p).value + 1)
  {
    hide Differ, MaxRssi, MinRssi;
    SpanIsWidest(p, RssiSpan(p).value);
    SpanIsWidest(p, RssiSpan(p).value + 1);
  }

  /** The row a visit shows: its minimum and its counters are those of the whole
      visit, its slope and span those of the last eight samples. */
  lemma RowReadsVisit(identity: Identity, visit: seq<Sample>)
    requires visit != [] && Increasing(visit)
    ensures var row, n := RowOf(identity, visit), |visit|;
            && row.identity == identity && row.maxRssi == visit[n - 1].rssi
            && (forall k | 0 <= k < n :: row.visitMin <= visit[k].rssi)
            && (exists k | 0 <= k < n :: row.visitMin == visit[k].rssi)
            && row.firstSeenIndex == visit[0].index && row.windowsSeen == n
            && row.ageWindows == visit[n - 1].index - visit[0].index + 1
            && EndsIn(visit, row.dwell)
    ensures var row, p := RowOf(identity, visit), if |visit| <= 8 then visit else visit[|visit| - 8..];
            && ShowsSlope(p, row.slope, row.span)
            && (row.rising <==> IsRisingApproach(visit))
  {
    hide RssiSlope, RssiSpan, MinRssi, Streak, EndsIn, IsRisingApproach, ShowsSlope, Increasing;
    var p := if |visit| <= 8 then visit else visit[|visit| - 8..];
    assert Tail(visit, APPROACH_WINDOWS) == p;
    SuffixIncreases(visit, p);
    StreakExactly(visit);
    SlopeIsShown(p);
    DequeDecides(visit);
  }

  // ---------------------------------------------------------------- one vector

  /** How many windows heard the identity. */
  ghost function TimesHeard(h: seq<Hearing>, i: Identity): nat {
    if h == [] then 0 else TimesHeard(Front(h), i) + if i in Last(h).current then 1 else 0
  }

  /** Window t is the first that heard the identity. */
  ghost predicate FirstHeard(h: seq<Hearing>, i: Identity, t: int) {
    0 <= t < |h| && i in h[t].current && forall s | 0 <= s < t :: i !in h[s].current
  }

  lemma {:induction false} HearingsCount(h: seq<Hearing>, i: Identity)
    ensures |Hearings(h, i)| == TimesHeard(h, i)
  {
    if h == [] {
    } else {
      HearingsCount(Front(h), i);
    }
  }

  lemma {:induction false} HearingsBegin(h: seq<Hearing>, i: Identity, t: nat)
    requires FirstHeard(h, i, t)
    ensures Hearings(h, i) != [] && Hearings(h, i)[0] == Sample(h[t].index, h[t].current[i])
  {
    if t < |h| - 1 {
      HearingsBegin(Front(h), i, t);
    } else {
      NotYetHeard(Front(h), i);
    }
  }

  lemma {:induction false} NotYetHeard(h: seq<Hearing>, i: Identity)
    requires forall t | 0 <= t < |h| :: i !in h[t].current
    ensures Hearings(h, i) == []
  {
    if h == [] {
    } else {
      NotYetHeard(Front(h), i);
    }
  }

  /** The batch row of an identity heard now, in terms of the windows: its duty
      times its age is the number of windows that heard it, and its duty is one
      exactly when its dwell is all of them. */
  lemma BatchRowReadsRun(h: seq<Hearing>, i: Identity, w: nat, t: nat)
    requires Ordered(h) && w >= 2 && FirstHeard(h, i, t) && i in Last(h).current
    ensures Hearings(h, i) != []
    ensures var row := IdentityRow(h, i, w);
            && row.identity == i && row.maxRssi == Last(h).current[i]
            && row.firstSeenIndex == h[t].index && row.ageWindows == Last(h).index - h[t].index + 1
            && row.windowsSeen == TimesHeard(h, i)
            && EndsIn(Hearings(h, i), row.dwell)
            && row.duty * row.ageWindows as real == row.windowsSeen as real
            && (row.duty == 1.0 <==> row.dwell == row.windowsSeen)
  {
    hide Hearings, Tail, RssiSlope, RssiSpan, Streak, EndsIn, TimesHeard, Ordered;
    HearingsBegin(h, i, t);
    HearingsEnd(h, i);
    HearingsCount(h, i);
    HearingsIncrease(h, i);
    var s := Hearings(h, i);
    StreakExactly(s);
    StreakWhenWhole(s);
    SpreadOut(s);
    DutyTimesAge(|s| as real, (Last(s).index - s[0].index + 1) as real);
  }

  /** Its slope and span are those of the last w hearings. */
  lemma BatchSlopeReadsRun(h: seq<Hearing>, i: Identity, w: nat)
    requires Ordered(h) && w >= 2 && Hearings(h, i) != []
    ensures var row, s := IdentityRow(h, i, w), Hearings(h, i);
            var p := if |s| <= w then s else s[|s| - w..];
            && ShowsSlope(p, row.slope, row.span)
  {
    hide Hearings, RssiSlope, RssiSpan, Streak, ShowsSlope, Increasing;
    HearingsIncrease(h, i);
    var s := Hearings(h, i);
    var p := if |s| <= w then s else s[|s| - w..];
    assert Tail(s, w) == p;
    SuffixIncreases(s, p);
    SlopeIsShown(p);
  }

  lemma HearingsEnd(h: seq<Hearing>, i: Identity)
    requires h != [] && i in Last(h).current
    ensures Hearings(h, i) != [] && Last(Hearings(h, i)) == Sample(Last(h).index, Last(h).current[i])
  {}

  lemma DutyTimesAge(seen: real, age: real)
    requires age > 0.0
    ensures seen / age * age == seen
    ensures seen / age == 1.0 <==> seen == age
  {}

  /** However the members of s are listed, each once, the list is as long as s. */
  lemma ListedCount<T(!new)>(q: seq<T>, s: set<T>)
    requires Distinct(q) && forall x :: x in q <==> x in s
    ensures |q| == |s|
  {
    DistinctCount(q);
    assert Elements(q) == s;
  }

  /** q lists, each once, the identities of best at or above the edge. */
  ghost predicate Lists<K(!new)>(q: seq<K>, best: map<K, int>, edge: int) {
    Distinct(q) && forall i :: i in q <==> i in best && best[i] >= edge
  }

  /** Each count is that of its own band, at -80, -70 and -55. */
  lemma BandsCountExactly<K(!new)>(best: map<K, int>, far: seq<K>, near: seq<K>, adjacent: seq<K>)
    requires Lists(far, best, -80) && Lists(near, best, -70) && Lists(adjacent, best, -55)
    ensures CountBands(best, DEFAULT_BANDS) == BandCounts(|best|, |far|, |near|, |adjacent|)
  {
    ListedCount(far, AtLeast(best, -80));
    ListedCount(near, AtLeast(best, -70));
    ListedCount(adjacent, AtLeast(best, -55));
  }

  /** The alert's label is the closest of the nested bands that count the device. */
  lemma BandExactly(rssi: int)
    ensures BandOf(rssi) == AdjacentBand <==> -55 <= rssi
    ensures BandOf(rssi) == NearBand <==> -70 <= rssi < -55
    ensures BandOf(rssi) == FarBand <==> -80 <= rssi < -70
    ensures BandOf(rssi) == BeyondFar <==> rssi < -80
  {}

  ghost function Ids(h: seq<Hearing>): set<Identity> { if h == [] then {} else Last(h).current.Keys }

  /** Appearances and disappearances of a vector, against any listing of those
      heard now and not in the window before, and of those heard then and not now. */
  lemma ChurnExactly(r: WindowFeatures, h: seq<Hearing>, w: nat, bands: BandEdges,
                     came: seq<Identity>, went: seq<Identity>)
    requires w >= 2 && h != [] && IsVector(r, h, w, bands)
    requires Distinct(came) && forall i :: i in came <==> i in Ids(h) && i !in Ids(Front(h))
    requires Distinct(went) && forall i :: i in went <==> i in Ids(Front(h)) && i !in Ids(h)
    ensures r.appeared == |came| && r.disappeared == |went| && r.churn == |came| + |went|
    ensures r.counts.countAll == |Ids(h)| == |Ids(Front(h))| + r.appeared - r.disappeared
  {
    hide IdentityRow, Alphabetic;
    ListedCount(came, Ids(h) - Ids(Front(h)));
    ListedCount(went, Ids(Front(h)) - Ids(h));
    MapCount(Last(h).current);
    SetFlow(Ids(Front(h)), Ids(h));
  }

  lemma SetFlow<T>(a: set<T>, b: set<T>)
    ensures |b| + |a - b| == |a| + |b - a|
  {
    assert a + b == b + (a - b) && a + b == a + (b - a);
    DisjointCount(b, a - b);
    DisjointCount(a, b - a);
  }

  /** All that appeared less all that disappeared, up to window t. */
  ghost function NetFlow(rows: seq<WindowFeatures>): int {
    if rows == [] then 0 else NetFlow(Front(rows)) + Last(rows).appeared - Last(rows).disappeared
  }

  /** Nobody is lost: over a whole batch those who appeared less those who
      disappeared are those heard in the last window. */
  lemma {:induction false} FlowBalances(rows: seq<WindowFeatures>, h: seq<Hearing>, w: nat, bands: BandEdges)
    requires w >= 2 && |rows| == |h| && forall t | 0 <= t < |h| :: IsVector(rows[t], h[..t + 1], w, bands)
    ensures NetFlow(rows) == |Ids(h)|
  {
    hide IsVector;
    if h == [] {
    } else {
      var p := Front(h);
      assert h[..|p| + 1] == h;
      forall t | 0 <= t < |p| ensures IsVector(Front(rows)[t], p[..t + 1], w, bands) {
        assert p[..t + 1] == h[..t + 1];
      }
      FlowBalances(Front(rows), p, w, bands);
      VectorFlow(Last(rows), h, w, bands);
    }
  }

  lemma VectorFlow(r: WindowFeatures, h: seq<Hearing>, w: nat, bands: BandEdges)
    requires w >= 2 && h != [] && IsVector(r, h, w, bands)
    ensures |Ids(Front(h))| + r.appeared - r.disappeared == |Ids(h)|
  {
    hide IdentityRow, Alphabetic;
    SetFlow(Ids(Front(h)), Ids(h));
  }

  // ----------------------------------------------------------------- one event

  /** An event of a run carries this window's index and its own device's best RSSI
      there, which is at -75 or above, so its label is never beyond far. */
  lemma EventReadsWindow(cap: int, fade: int, h: seq<Hearing>, events: seq<ApproachEvent>, e: ApproachEvent)
    requires Ordered(h) && h != [] && EventsOf(events, VisitsAfter(cap, fade, h), Last(h)) && e in events
    ensures e.windowIndex == Last(h).index
    ensures e.identity in Last(h).current && e.rssi == Last(h).current[e.identity] >= -75
    ensures e.band == if e.rssi >= -55 then AdjacentBand else if e.rssi >= -70 then NearBand else FarBand
  {
    hide VisitsAfter, RisenBy, Ordered;
    var visit := VisitsAfter(cap, fade, h)[e.identity];
    VisitIncreases(cap, fade, h, e.identity);
    VisitIsSuffix(cap, fade, h, e.identity);
    HearingsEnd(h, e.identity);
    RisesExactly(visit);
    var p := visit[|visit| - 8..];
    assert p[7] == Last(visit);
  }
}
