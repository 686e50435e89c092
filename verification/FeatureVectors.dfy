/** features.py's extract_features: the offline batch over whole histories. */
module FeatureVectors {
  import opened Orders
  import opened Features
  import opened LeastSquares
  import opened Visits

  const DEFAULT_SLOPE_WINDOWS: int := 8

  datatype BandEdges = BandEdges(adjacent: int, near: int, far: int)

  const DEFAULT_BANDS := BandEdges(-55, -70, -80)

  datatype BandCounts = BandCounts(countAll: nat, countFar: nat, countNear: nat, countAdjacent: nat)

  datatype IdentityFeatures = IdentityFeatures(
    identity: Identity, maxRssi: int, slope: Option<real>, span: int, dwell: nat,
    firstSeenIndex: int, ageWindows: int, windowsSeen: nat, duty: real)

  datatype WindowFeatures = WindowFeatures(
    index: int, counts: BandCounts, appeared: nat, disappeared: nat, churn: nat, identities: seq<IdentityFeatures>)

  function AtLeast<K>(best: map<K, int>, edge: int): set<K> { set i | i in best && best[i] >= edge }

  function CountBands<K>(best: map<K, int>, bands: BandEdges): BandCounts {
    BandCounts(|best|, |AtLeast(best, bands.far)|, |AtLeast(best, bands.near)|, |AtLeast(best, bands.adjacent)|)
  }

  /** The nesting that BandCounts validates always holds for ordered edges. */
  lemma BandsNest<K>(best: map<K, int>, bands: BandEdges)
    requires bands.adjacent > bands.near > bands.far
    ensures var n := CountBands(best, bands); n.countAdjacent <= n.countNear <= n.countFar <= n.countAll
  {
    Smaller(AtLeast(best, bands.adjacent), AtLeast(best, bands.near));
    Smaller(AtLeast(best, bands.near), AtLeast(best, bands.far));
    Smaller(AtLeast(best, bands.far), best.Keys);
    MapCount(best);
  }

  /** Every sample of one identity over the run. */
  ghost function Hearings(h: seq<Hearing>, i: Identity): seq<Sample> {
    if h == [] then []
    else Hearings(Front(h), i) + (if i in Last(h).current then [Sample(Last(h).index, Last(h).current[i])] else [])
  }

  ghost function IdentityRow(h: seq<Hearing>, i: Identity, w: nat): IdentityFeatures
    requires w >= 2 && Hearings(h, i) != []
  {
    var s := Hearings(h, i);
    var rolling := Tail(s, w);
    var age := Last(s).index - s[0].index + 1;
    IdentityFeatures(i, Last(s).rssi, RssiSlope(rolling), RssiSpan(rolling).value, Streak(s), s[0].index, age, |s|,
                     if age == 0 then 0.0 else |s| as real / age as real)
  }

  /** The vector of the last window of h. */
  ghost predicate IsVector(r: WindowFeatures, h: seq<Hearing>, w: nat, bands: BandEdges)
    requires w >= 2 && h != []
  {
    var current := Last(h).current.Keys;
    var previous := if |h| == 1 then {} else Last(Front(h)).current.Keys;
    && r.index == Last(h).index
    && r.counts == CountBands(Last(h).current, bands)
    && r.appeared == |current - previous|
    && r.disappeared == |previous - current|
    && r.churn == r.appeared + r.disappeared
    && Sorts(seq(|r.identities|, k requires 0 <= k < |r.identities| => r.identities[k].identity), current, Alphabetic)
    && forall k | 0 <= k < |r.identities| ::
         Hearings(h, r.identities[k].identity) != [] && r.identities[k] == IdentityRow(h, r.identities[k].identity, w)
  }

  lemma {:induction false} HearingsIncrease(h: seq<Hearing>, i: Identity)
    requires Ordered(h)
    ensures Increasing(Hearings(h, i))
    ensures forall k | 0 <= k < |Hearings(h, i)| :: h != [] && Hearings(h, i)[k].index <= Last(h).index
  {
    if h == [] {
    } else {
      HearingsIncrease(Front(h), i);
    }
  }

  lemma {:induction false} SpreadOut(s: seq<Sample>)
    requires Increasing(s) && s != []
    ensures |s| <= Last(s).index - s[0].index + 1
  {
    if |s| == 1 {
    } else {
      SpreadOut(Front(s));
    }
  }

  /** On increasing windows the validated bounds hold: duty lies in (0, 1]. */
  lemma DutyIsAFraction(h: seq<Hearing>, i: Identity, w: nat)
    requires Ordered(h) && w >= 2 && Hearings(h, i) != []
    ensures 0.0 < IdentityRow(h, i, w).duty <= 1.0
  {
    hide Hearings, Streak, RssiSlope, RssiSpan, Tail;
    var s := Hearings(h, i);
    HearingsIncrease(h, i);
    SpreadOut(s);
    var age := Last(s).index - s[0].index + 1;
    QuotientInUnit(|s| as real, age as real);
  }

  lemma QuotientInUnit(a: real, b: real)
    requires 0.0 < a <= b
    ensures 0.0 < a / b <= 1.0
  {}

  ghost function Run(windows: seq<DetectionWindow>, source: Source): (h: seq<Hearing>)
    ensures |h| == |windows|
    ensures forall k | 0 <= k < |windows| :: h[k] == Hearing(windows[k].index, HeardIn(windows[k], source))
  {
    seq(|windows|, k requires 0 <= k < |windows| => Hearing(windows[k].index, HeardIn(windows[k], source)))
  }

  /** The batch's four dictionaries. */
  datatype Memory = Memory(
    history: map<Identity, seq<Sample>>, firstSeen: map<Identity, int>,
    lastHeard: map<Identity, int>, dwell: map<Identity, nat>)

  ghost predicate Knows(m: Memory, i: Identity, s: seq<Sample>) {
    if s == [] then i !in m.history && i !in m.firstSeen && i !in m.lastHeard && i !in m.dwell
    else
      && i in m.history && i in m.firstSeen && i in m.lastHeard && i in m.dwell
      && m.history[i] == s
      && m.firstSeen[i] == s[0].index
      && m.lastHeard[i] == Last(s).index
      && m.dwell[i] == Streak(s)
  }

  method ExtractFeatures(windows: seq<DetectionWindow>, source: Source := Advertisements,
                         slopeWindows: int := DEFAULT_SLOPE_WINDOWS, bands: BandEdges := DEFAULT_BANDS)
    returns (r: Result<seq<WindowFeatures>, string>)
    ensures r.Ok? <==> slopeWindows >= 2 && !source.Other?
    ensures r.Ok? ==> |r.value| == |windows|
    ensures r.Ok? ==> forall t | 0 <= t < |windows| ::
              IsVector(r.value[t], Run(windows, source)[..t + 1], slopeWindows, bands)
  {
    hide IsVector, IdentityRow, Knows, HeardIn;
    if slopeWindows < 2 { return Err("slope_windows must be >= 2"); }
    if source.Other? { return Err("unknown feature source"); }
    ghost var h := Run(windows, source);
    var m := Memory(map[], map[], map[], map[]);
    var previous: set<Identity> := {};
    var rows: seq<WindowFeatures> := [];
    NothingKnown(m);
    for t := 0 to |windows|
      invariant |rows| == t
      invariant forall i :: Knows(m, i, Hearings(h[..t], i))
      invariant previous == if t == 0 then {} else h[t - 1].current.Keys
      invariant forall k | 0 <= k < t :: IsVector(rows[k], h[..k + 1], slopeWindows, bands)
    {
      assert h[..t + 1] == h[..t] + [h[t]];
      var row;
      m, previous, row := ExtractWindow(m, previous, windows[t], source, slopeWindows, bands, h[..t], h[t]);
      rows := rows + [row];
    }
    r := Ok(rows);
  }

  lemma NothingKnown(m: Memory)
    requires m == Memory(map[], map[], map[], map[])
    ensures forall i :: Knows(m, i, [])
  {}

  method ExtractWindow(m0: Memory, previous: set<Identity>, window: DetectionWindow, source: Source, n: int,
                       bands: BandEdges, ghost h: seq<Hearing>, ghost w: Hearing)
    returns (m: Memory, ids: set<Identity>, row: WindowFeatures)
    requires n >= 2 && !source.Other? && w == Hearing(window.index, HeardIn(window, source))
    requires forall i :: Knows(m0, i, Hearings(h, i))
    requires previous == if h == [] then {} else Last(h).current.Keys
    ensures forall i :: Knows(m, i, Hearings(h + [w], i))
    ensures ids == w.current.Keys
    ensures IsVector(row, h + [w], n, bands)
  {
    hide IsVector, IdentityRow, Knows, RowsBuilt, CountBands, HeardIn;
    var current := MaxRssiByIdentity(window, source);
    var identities;
    m, identities := ExtendAll(m0, current.value, window.index, n, h, w);
    ids := current.value.Keys;
    var appeared, disappeared := |ids - previous|, |previous - ids|;
    row := WindowFeatures(window.index, CountBands(current.value, bands), appeared, disappeared,
                          appeared + disappeared, identities);
    VectorBuilt(row, h, w, n, bands);
  }

  lemma VectorBuilt(r: WindowFeatures, h: seq<Hearing>, w: Hearing, n: nat, bands: BandEdges)
    requires n >= 2 && RowsBuilt(r.identities, h + [w], n)
    requires r.index == w.index && r.counts == CountBands(w.current, bands)
    requires var previous := if h == [] then {} else Last(h).current.Keys;
             r.appeared == |w.current.Keys - previous| && r.disappeared == |previous - w.current.Keys|
    requires r.churn == r.appeared + r.disappeared
    ensures IsVector(r, h + [w], n, bands)
  {
    assert Front(h + [w]) == h;
  }

  ghost predicate RowsBuilt(rows: seq<IdentityFeatures>, h: seq<Hearing>, n: nat)
    requires h != [] && n >= 2
  {
    && Sorts(seq(|rows|, k requires 0 <= k < |rows| => rows[k].identity), Last(h).current.Keys, Alphabetic)
    && forall k | 0 <= k < |rows| ::
         Hearings(h, rows[k].identity) != [] && rows[k] == IdentityRow(h, rows[k].identity, n)
  }

  /** The inner loop: every identity heard in this window, in order. */
  method ExtendAll(m0: Memory, current: map<Identity, int>, index: int, n: int,
                   ghost h: seq<Hearing>, ghost w: Hearing)
    returns (m: Memory, rows: seq<IdentityFeatures>)
    requires n >= 2 && w == Hearing(index, current)
    requires forall i :: Knows(m0, i, Hearings(h, i))
    ensures forall i :: Knows(m, i, Hearings(h + [w], i))
    ensures RowsBuilt(rows, h + [w], n)
  {
    hide Knows, IdentityRow, Alphabetic;
    m := m0;
    rows := [];
    var ids := SortIdentities(current.Keys);
    forall k | 0 <= k < |ids| ensures ids[k] in current { assert ids[k] in ids; }
    ghost var h' := h + [w];
    assert Front(h') == h;
    for k := 0 to |ids|
      invariant forall i :: Knows(m, i, if Among(ids, k, i) then Hearings(h', i) else Hearings(h, i))
      invariant |rows| == k
      invariant forall j | 0 <= j < k ::
                  rows[j].identity == ids[j] && Hearings(h', ids[j]) != [] && rows[j] == IdentityRow(h', ids[j], n)
    {
      assert !Among(ids, k, ids[k]);
      var row;
      ghost var before := m;
      m, row := ExtendOne(m, ids[k], Sample(index, current[ids[k]]), n, h, w);
      rows := rows + [row];
      forall i ensures Knows(m, i, if Among(ids, k + 1, i) then Hearings(h', i) else Hearings(h, i)) {
        assert Knows(before, i, if Among(ids, k, i) then Hearings(h', i) else Hearings(h, i));
        assert Among(ids, k + 1, i) <==> Among(ids, k, i) || i == ids[k];
      }
    }
    forall i ensures Knows(m, i, Hearings(h', i)) {
      HearingsStep(h, w, i);
      assert Knows(m, i, if Among(ids, |ids|, i) then Hearings(h', i) else Hearings(h, i));
      if i in current { assert i in ids && Among(ids, |ids|, i); }
    }
    assert seq(|rows|, k requires 0 <= k < |rows| => rows[k].identity) == ids;
  }

  method ExtendOne(m: Memory, id: Identity, sample: Sample, n: int, ghost h: seq<Hearing>, ghost w: Hearing)
    returns (m': Memory, row: IdentityFeatures)
    requires n >= 2 && id in w.current && sample == Sample(w.index, w.current[id])
    requires Knows(m, id, Hearings(h, id))
    ensures row.identity == id && Hearings(h + [w], id) != [] && row == IdentityRow(h + [w], id, n)
    ensures Knows(m', id, Hearings(h + [w], id))
    ensures forall i, s | i != id :: Knows(m, i, s) ==> Knows(m', i, s)
  {
    hide Streak, IdentityRow, Hearings;
    var samples := (if id in m.history then m.history[id] else []) + [sample];
    var first := if id in m.firstSeen then m.firstSeen[id] else sample.index;
    var dwell := if id in m.lastHeard && m.lastHeard[id] == sample.index - 1 then m.dwell[id] + 1 else 1;
    StreakStep(Hearings(h, id), sample);
    HearingsStep(h, w, id);
    assert samples == Hearings(h + [w], id);
    row := RowFrom(id, samples, first, dwell, n, h + [w]);
    m' := Memory(m.history[id := samples], m.firstSeen[id := first], m.lastHeard[id := sample.index],
                 m.dwell[id := dwell]);
  }

  lemma HearingsStep(h: seq<Hearing>, w: Hearing, i: Identity)
    ensures Hearings(h + [w], i)
         == Hearings(h, i) + (if i in w.current then [Sample(w.index, w.current[i])] else [])
    ensures i !in w.current ==> Hearings(h + [w], i) == Hearings(h, i)
  {
    assert Front(h + [w]) == h;
  }

  lemma StreakStep(s: seq<Sample>, sample: Sample)
    ensures Streak(s + [sample]) == if s != [] && Last(s).index == sample.index - 1 then 1 + Streak(s) else 1
  {
    assert Front(s + [sample]) == s;
  }

  method RowFrom(id: Identity, samples: seq<Sample>, first: int, dwell: nat, n: int, ghost h: seq<Hearing>)
    returns (row: IdentityFeatures)
    requires n >= 2 && samples != [] && samples == Hearings(h, id)
    requires first == samples[0].index && dwell == Streak(samples)
    ensures row.identity == id && row == IdentityRow(h, id, n)
  {
    var rolling := Tail(samples, n);
    hide Tail, Streak, Hearings, RssiSlope;
    var age := Last(samples).index - first + 1;
    SpanIs(rolling);
    row := IdentityFeatures(id, Last(samples).rssi, RssiSlope(rolling), MaxRssi(rolling) - MinRssi(rolling), dwell,
                            first, age, |samples|, if age == 0 then 0.0 else |samples| as real / age as real);
  }

  lemma SpanIs(p: seq<Sample>)
    requires p != []
    ensures RssiSpan(p) == Some(MaxRssi(p) - MinRssi(p))
  {}
}
