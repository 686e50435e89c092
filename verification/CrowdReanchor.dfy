/** A run in which an episode outlives its week of trusted time: eight quiet
    days, a busy window, and a busy window whose clock has stepped back. */
module CrowdReanchor {
  import opened Orders
  import opened Features
  import opened FeatureVectors
  import opened Crowd
  import opened Baselines
  import opened CrowdDetection
  import opened CrowdRuns
  import opened CrowdBackfill

  const DAY_MS := 24 * HOUR_MS

  const BUSY: map<int, int> := map[1 := -50, 2 := -50]

  lemma BusyCount()
    ensures CountNear(BUSY) == 2 && CountNear(map[]) == 0
  {
    assert AtLeast(BUSY, DEFAULT_BANDS.near) == {1, 2};
    assert AtLeast<int>(map[], DEFAULT_BANDS.near) == {};
  }

  /** One quiet window a day, from 1970-01-01 on. */
  function Quiet(n: nat): seq<Input> {
    if n == 0 then [] else Quiet(n - 1) + [Given((n - 1) * DAY_MS, true, n - 1, map[])]
  }

  ghost predicate AllZero(q: seq<real>) { forall i | 0 <= i < |q| :: q[i] == 0.0 }

  /** Nothing but zeros was ever learned. */
  ghost predicate Zeroed(b: Baseline) {
    && AllZero(b.rolling) && AllZero(b.rollingResiduals)
    && (forall i | 0 <= i < |b.seasonal| :: b.seasonal[i].Some? ==> b.seasonal[i].value == 0.0)
    && (forall i | 0 <= i < |b.seasonalResiduals| :: AllZero(b.seasonalResiduals[i]))
  }

  lemma {:induction false} SumOfZeros(q: seq<real>)
    requires AllZero(q)
    ensures Sum(q) == 0.0
  {
    if q == [] {
    } else {
      SumOfZeros(Front(q));
    }
  }

  lemma ZeroBaseline(b: Baseline, count: nat, at: int, tier: Tier)
    requires b.Shaped() && Zeroed(b) && (b.rolling != [] || count == 0)
    ensures BaselineFor(b, count, at, tier) == 0.0
  {
    SumOfZeros(b.rolling);
    if b.rolling != [] { ZeroQuotient(|b.rolling| as real); }
  }

  lemma ZerosPushed(q: seq<real>, n: nat)
    requires AllZero(q)
    ensures AllZero(Push(q, 0.0, n))
  {}

  lemma ZeroLearned(b: Baseline, at: int, tier: Tier)
    requires b.Shaped() && Zeroed(b)
    ensures Zeroed(Learned(b, 0, at, tier)) && Learned(b, 0, at, tier).rolling != []
  {
    hide BaselineFor, Push, AllZero;
    ZeroBaseline(b, 0, at, tier);
    ZerosPushed(b.rolling, CROWD_ROLLING_WINDOWS);
    ZerosPushed(b.rollingResiduals, CROWD_RESIDUAL_WINDOW);
    ZerosPushed(b.seasonalResiduals[HourOfWeek(at)], CROWD_RESIDUAL_WINDOW);
    PushedIsThere(b.rolling, 0.0, CROWD_ROLLING_WINDOWS);
  }

  lemma PushedIsThere(q: seq<real>, x: real, n: nat)
    requires n > 0
    ensures Push(q, x, n) != []
  {}

  /** A quiet trusted window finds z at zero and learns another zero. */
  lemma QuietWindow(d: Detector, index: int)
    requires d.base.Shaped() && d.trusted && d.cusum == 0.0 && Zeroed(d.base) && d.base.backfill == []
    ensures var r := Observed(d, index, map[]);
            && r.cusum == 0.0 && r.trusted && r.observedAt.None?
            && r.base.Shaped() && Zeroed(r.base) && r.base.backfill == [] && r.base.rolling != []
    ensures !Reanchors(d, index) ==>
              var r := Observed(d, index, map[]).base;
              && r.lastTrustedAt == Some(TimeOf(d.observedAt, index))
              && r.installAt == if d.base.installAt.None? then r.lastTrustedAt else d.base.installAt
  {
    hide FlooredMad, CountNear, Learned, Zeroed, BaselineFor;
    BusyCount();
    var at, b := TimeOf(d.observedAt, index), Opened(d, index);
    NothingAbsorbed(d.base.(episodeTier := None));
    OpenedAlike(d.base, b);
    var tier := TierForPreview(b, d.trusted, false);
    ZeroBaseline(b, 0, at, tier);
    ZeroQuotient(StepOf(d, index, map[]).scale);
    NotedAlike(b, at);
    ZeroLearned(Noted(b, at), at, tier);
    LearnedKeepsClock(Noted(b, at), 0, at, tier);
  }

  lemma OpenedAlike(b: Baseline, c: Baseline)
    requires Zeroed(b) && SameStores(b, c)
    ensures Zeroed(c)
  {}

  lemma NotedAlike(b: Baseline, at: int)
    requires Zeroed(b)
    ensures Zeroed(Noted(b, at))
  {}

  lemma LearnedKeepsClock(b: Baseline, count: nat, at: int, tier: Tier)
    requires b.Shaped()
    ensures var r := Learned(b, count, at, tier);
            r.installAt == b.installAt && r.lastTrustedAt == b.lastTrustedAt && r.backfill == b.backfill
  {
    hide BaselineFor;
  }

  lemma OneMoreDay(n: nat)
    requires n > 0
    ensures var w := Given((n - 1) * DAY_MS, true, n - 1, map[]);
            After(true, Quiet(n)) == Observed(Prepared(After(true, Quiet(n - 1)), w.prepared), n - 1, map[])
  {
    hide Observed;
    assert Front(Quiet(n)) == Quiet(n - 1);
  }

  /** A detector as n quiet days leave it. */
  ghost predicate QuietFor(d: Detector, n: nat) {
    && d.base.Shaped()
    && d.cusum == 0.0 && d.trusted && Zeroed(d.base) && d.base.backfill == []
    && (if n == 0 then d.base.installAt.None? && d.base.lastTrustedAt.None?
        else d.base.rolling != [] && d.base.installAt == Some(0) && d.base.lastTrustedAt == Some((n - 1) * DAY_MS))
  }

  lemma QuietDay(d: Detector, n: nat)
    requires QuietFor(d, n)
    ensures QuietFor(Observed(Prepared(d, Given(n * DAY_MS, true, n, map[]).prepared), n, map[]), n + 1)
  {
    hide Observed, Zeroed;
    QuietWindow(Prepared(d, Given(n * DAY_MS, true, n, map[]).prepared), n);
  }

  lemma {:induction false} QuietDays(n: nat)
    ensures QuietFor(After(true, Quiet(n)), n)
  {
    hide Observed, QuietFor;
    if n == 0 {
      QuietAtBoot();
    } else {
      QuietDays(n - 1);
      OneMoreDay(n);
      QuietDay(After(true, Quiet(n - 1)), n - 1);
    }
  }

  lemma QuietAtBoot()
    ensures QuietFor(After(true, Quiet(0)), 0)
  {}

  // ------------------------------------------------------------------ the scale

  ghost predicate Within(q: seq<real>, lo: real, hi: real) { forall i | 0 <= i < |q| :: lo <= q[i] <= hi }

  lemma {:induction false} InsertWithin(q: seq<real>, x: real, lo: real, hi: real)
    requires Within(q, lo, hi) && lo <= x <= hi
    ensures Within(InsertReal(q, x), lo, hi)
  {
    if q == [] {
    } else {
      InsertWithin(q[1..], x, lo, hi);
    }
  }

  lemma {:induction false} SortWithin(v: seq<real>, lo: real, hi: real)
    requires Within(v, lo, hi)
    ensures Within(SortReals(v), lo, hi)
  {
    if v == [] {
    } else {
      SortWithin(Front(v), lo, hi);
      InsertWithin(SortReals(Front(v)), Last(v), lo, hi);
    }
  }

  lemma MedianWithin(v: seq<real>, lo: real, hi: real)
    requires v != [] && Within(v, lo, hi)
    ensures lo <= Median(v) <= hi
  {
    SortWithin(v, lo, hi);
    SortedLength(v);
  }

  /** No scale exceeds the spread of its residuals, unless it is the floor. */
  lemma ScaleWithin(v: seq<real>, hi: real)
    requires v != [] && Within(v, 0.0, hi) && hi >= CROWD_MAD_FLOOR
    ensures FlooredMad(v) <= hi
  {
    hide Median;
    MedianWithin(v, 0.0, hi);
    MedianWithin(Deviations(v, Median(v)), 0.0, hi);
  }

  lemma ScaleAtMostTwo(values: seq<real>, inEpisode: bool)
    requires AllZero(values)
    ensures CROWD_MAD_FLOOR <= ScaleFor(values, 2.0, inEpisode) <= 2.0
  {
    hide FlooredMad;
    if values != [] { ScaleWithin(values, 2.0); }
    ScaleWithin(values + [2.0], 2.0);
  }

  lemma TwoOver(scale: real)
    requires 0.0 < scale <= 2.0
    ensures 2.0 / scale >= 1.0
  {}

  lemma ZeroResiduals(b: Baseline, at: int, tier: Tier)
    requires b.Shaped() && Zeroed(b)
    ensures AllZero(ResidualsFor(b, at, tier))
  {}

  /** Against zeros, two devices near raise the CUSUM by at least a half. */
  lemma BusyRaises(d: Detector, index: int)
    requires d.base.Shaped() && d.cusum >= 0.0 && Zeroed(Opened(d, index)) && Opened(d, index).rolling != []
    ensures Observed(d, index, BUSY).cusum > 0.0
  {
    hide Opened, BaselineFor, ResidualsFor, ScaleFor, CountNear, Finished, Zeroed;
    BusyCount();
    var b, at := Opened(d, index), TimeOf(d.observedAt, index);
    var tier := TierForPreview(b, d.trusted, d.cusum > 0.0);
    ZeroBaseline(b, 2, at, tier);
    ZeroResiduals(b, at, tier);
    ScaleAtMostTwo(ResidualsFor(b, at, tier), d.cusum > 0.0);
    TwoOver(StepOf(d, index, BUSY).scale);
  }

  // -------------------------------------------------------------------- the run

  /** The ninth day is busy, then the clock steps back a second, and it stays busy. */
  function SteppedBack(): seq<Input> {
    Quiet(8) +
    [Given(8 * DAY_MS, true, 8, BUSY), Given(8 * DAY_MS - 1000, true, 9, BUSY), Given(8 * DAY_MS, true, 10, BUSY)]
  }

  lemma {:induction false} QuietLength(n: nat)
    ensures |Quiet(n)| == n
  {
    if n == 0 {
    } else {
      QuietLength(n - 1);
    }
  }

  lemma TheWindows()
    ensures var run := SteppedBack();
            && |run| == 11 && run[..8] == Quiet(8)
            && run[8] == Given(8 * DAY_MS, true, 8, BUSY) && run[9] == Given(8 * DAY_MS - 1000, true, 9, BUSY)
  {
    QuietLength(8);
  }

  /** A detector after eight quiet days opens the ninth on the seasonal tier. */
  lemma NinthDay(d: Detector)
    requires d.base.Shaped() && d.trusted && d.cusum == 0.0 && Zeroed(d.base) && d.base.rolling != []
    requires d.base.backfill == [] && Telescopes(d.base)
    requires d.base.installAt == Some(0) && d.base.lastTrustedAt == Some(7 * DAY_MS) && d.observedAt == Some(8 * DAY_MS)
    ensures StepOf(d, 8, BUSY).tier == Seasonal && Observed(d, 8, BUSY).cusum > 0.0
    ensures var r := Observed(d, 8, BUSY);
            && r.trusted && Zeroed(r.base) && r.base.rolling != [] && r.base.lastTrustedAt == Some(8 * DAY_MS)
  {
    hide CountNear, FlooredMad, RollingMeanOr, Zeroed, Raised;
    NothingAbsorbed(d.base.(episodeTier := None));
    OpenedAlike(d.base, Opened(d, 8));
    BusyRaises(d, 8);
    EpisodeWindow(d, 8, BUSY);
    OpenedAlike(Opened(d, 8), Observed(d, 8, BUSY).base);
  }

  /** The episode outlives its week: such a run exists. */
  lemma EpisodeOutlivesItsWeek()
    ensures var run := SteppedBack();
            && Episode(true, run, 8, 9) && StepAt(true, run, 8).tier == Seasonal && ReanchorsAt(true, run, 9)
            && After(true, run[..10]).base.operatingMs == 0 && StepAt(true, run, 10).tier == Seasonal
  {
    hide After, Observed, StepOf, Zeroed, Opened, Telescopes, Quiet, SteppedBack;
    var run := SteppedBack();
    TheWindows();
    QuietDays(8);
    HoursTelescope(true, Quiet(8));
    var d8 := CrowdRuns.Before(true, run, 8);
    NinthDay(d8);
    OneWindow(true, run, 8);
    var d9 := CrowdRuns.Before(true, run, 9);
    SteppedDay(d9);
    OneWindow(true, run, 9);
    ReanchoredEpisodeKeepsTier(true, run, 8, 9);
  }

  lemma SteppedDay(d: Detector)
    requires d.base.Shaped() && d.trusted && d.cusum > 0.0 && Zeroed(d.base) && d.base.rolling != []
    requires d.base.lastTrustedAt == Some(8 * DAY_MS) && d.observedAt == Some(8 * DAY_MS - 1000)
    ensures Observed(d, 9, BUSY).cusum > 0.0 && Reanchors(d, 9)
  {
    hide Observed, Zeroed;
    BusyRaises(d, 9);
  }
}
