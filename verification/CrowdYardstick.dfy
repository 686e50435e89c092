/** What every window of a run is measured against, read off the run itself: the
    clock, the tier, the baseline and the scale. */
module CrowdYardstick {
  import opened Orders
  import opened Features
  import opened Crowd
  import opened Baselines
  import opened CrowdDetection
  import opened CrowdRuns
  import opened CrowdBackfill

  const DAY_MS := 86_400_000
  const WEEK_MS := 604_800_000

  // ----------------------------------------------------------------- the clock

  /** A window's time: the injected one, or the replay grid's. */
  function TimeAt(w: Input): int {
    if w.prepared.Some? then w.prepared.value.at else 1_767_225_600_000 + 15_000 * w.index
  }

  /** Whether the last window's clock is trusted: as last said, or as at boot. */
  function Trust(trusted: bool, run: seq<Input>): bool {
    if run == [] then trusted
    else if Last(run).prepared.Some? && Last(run).prepared.value.trusted.Some?
    then Last(run).prepared.value.trusted.value
    else Trust(trusted, Front(run))
  }

  lemma {:induction false} ClockOfRun(trusted: bool, run: seq<Input>)
    ensures After(trusted, run).observedAt.None? && After(trusted, run).trusted == Trust(trusted, run)
    ensures run != [] ==>
              var d := Prepared(After(trusted, Front(run)), Last(run).prepared);
              TimeOf(d.observedAt, Last(run).index) == TimeAt(Last(run)) && d.trusted == Trust(trusted, run)
  {
    hide Raised, Opened, StepOf, Finished, CountNear;
    if run == [] {
    } else {
      ClockOfRun(trusted, Front(run));
    }
  }

  /** The times of the trusted windows. */
  function TrustedTimes(trusted: bool, run: seq<Input>): seq<int> {
    if run == [] then []
    else TrustedTimes(trusted, Front(run)) + if Trust(trusted, run) then [TimeAt(Last(run))] else []
  }

  predicate Ordinary(step: int) { 0 <= step <= DAY_MS }

  /** From time j on, and no further back, each step lies between nothing and a day. */
  ghost predicate SteadySince(times: seq<int>, j: int) {
    && 0 <= j < |times|
    && (forall k | j < k < |times| :: Ordinary(times[k] - times[k - 1]))
    && (j > 0 ==> !Ordinary(times[j] - times[j - 1]))
  }

  /** The bookkeeping is that of the steady stretch the trusted times end in. */
  ghost predicate ClockIs(b: Baseline, times: seq<int>, j: int) {
    if times == [] then b.installAt.None? && b.lastTrustedAt.None? && b.operatingMs == 0
    else
      && SteadySince(times, j)
      && b.installAt == Some(times[j]) && b.lastTrustedAt == Some(Last(times))
      && b.operatingMs == Last(times) - times[j]
  }

  /** What one window does to the clock's bookkeeping. */
  lemma WindowNotes(d: Detector, index: int, heard: map<int, int>)
    requires d.base.Shaped() && Telescopes(d.base)
    ensures var b, r, at := d.base, Observed(d, index, heard).base, TimeOf(d.observedAt, index);
            if !d.trusted then
              r.installAt == b.installAt && r.lastTrustedAt == b.lastTrustedAt && r.operatingMs == b.operatingMs
            else
              && r.lastTrustedAt == Some(at)
              && r.installAt == (if WouldReanchor(b.installAt, b.lastTrustedAt, at) || b.installAt.None?
                                 then Some(at) else b.installAt)
              && Telescopes(r)
  {
    hide AbsorbedAll, BaselineFor, Raised, StepOf, CountNear;
    AbsorbingKeeps(d.base.(episodeTier := None), d.base.backfill);
  }

  lemma SteadyOneMore(times: seq<int>, j: int, at: int)
    requires SteadySince(times, j)
    ensures SteadySince(times + [at], if Ordinary(at - Last(times)) then j else |times|)
  {}

  lemma ClockOneMore(b: Baseline, r: Baseline, times: seq<int>, j: int, at: int)
    requires ClockIs(b, times, j) && Telescopes(r) && r.lastTrustedAt == Some(at)
    requires r.installAt == if times != [] && Ordinary(at - Last(times)) then b.installAt else Some(at)
    ensures ClockIs(r, times + [at], if times != [] && Ordinary(at - Last(times)) then j else |times|)
  {
    if times == [] { assert SteadySince([at], 0); } else { SteadyOneMore(times, j, at); }
  }

  /** On every run the install anchor is the first, and the last trusted time the
      last, of the longest stretch of trusted times that ends now with every step
      between nothing and a day. */
  lemma {:induction false} ClockExactly(trusted: bool, run: seq<Input>) returns (j: int)
    ensures ClockIs(After(trusted, run).base, TrustedTimes(trusted, run), j)
  {
    hide Observed, SteadySince, Telescopes, WouldReanchor, Ordinary;
    if run == [] {
      j := 0;
    } else {
      var p, w := Front(run), Last(run);
      j := ClockExactly(trusted, p);
      var d, times := Prepared(After(trusted, p), w.prepared), TrustedTimes(trusted, p);
      ClockOfRun(trusted, run);
      HoursTelescope(trusted, p);
      StepIsOrdinary(trusted, p, times, j, TimeAt(w));
      WindowNotes(d, w.index, w.heard);
      assert times + [] == times;
      if Trust(trusted, run) {
        ClockOneMore(d.base, After(trusted, run).base, times, j, TimeAt(w));
        j := if times != [] && Ordinary(TimeAt(w) - Last(times)) then j else |times|;
      }
    }
  }

  lemma StepIsOrdinary(trusted: bool, run: seq<Input>, times: seq<int>, j: int, at: int)
    requires ClockIs(After(trusted, run).base, times, j)
    ensures var b := After(trusted, run).base;
            WouldReanchor(b.installAt, b.lastTrustedAt, at) <==> times != [] && !Ordinary(at - Last(times))
  {
    hide After;
    ReanchorsExactly(trusted, run, at);
  }

  lemma SteadyUnique(times: seq<int>, i: int, j: int)
    requires SteadySince(times, i) && SteadySince(times, j)
    ensures i == j
  {}

  /** A week of trusted time lies behind a window at this time. */
  ghost predicate WeekBehind(times: seq<int>, at: int, j: int) {
    SteadySince(times, j) && Ordinary(at - Last(times)) && Last(times) - times[j] >= WEEK_MS
  }

  /** When the seasonal tier is used: outside an episode a window is measured
      against it if and only if its clock is trusted, its step is ordinary, and the
      trusted times before it end in a steady stretch of a week or more. */
  lemma SeasonalExactly(trusted: bool, run: seq<Input>, t: nat)
    requires t < |run| && After(trusted, run[..t]).cusum == 0.0
    ensures StepAt(trusted, run, t).tier == Seasonal <==>
            Trust(trusted, run[..t + 1]) && exists j :: WeekBehind(TrustedTimes(trusted, run[..t]), TimeAt(run[t]), j)
  {
    hide After, TrustedTimes, Trust, SteadySince, Ordinary, StepOf, WouldReanchor;
    assert Front(run[..t + 1]) == run[..t];
    ClockOfRun(trusted, run[..t + 1]);
    var i := ClockExactly(trusted, run[..t]);
    var times, at := TrustedTimes(trusted, run[..t]), TimeAt(run[t]);
    BehindIsSteady(times, at);
    StepIsOrdinary(trusted, run[..t], times, i, at);
    TierOutside(CrowdRuns.Before(trusted, run, t), run[t].index, run[t].heard);
    if j :| WeekBehind(times, at, j) { SteadyUnique(times, i, j); }
    if StepAt(trusted, run, t).tier == Seasonal { assert WeekBehind(times, at, i); }
  }

  lemma BehindIsSteady(times: seq<int>, at: int)
    ensures forall j | WeekBehind(times, at, j) :: times != [] && SteadySince(times, j)
  {}

  lemma TierOutside(d: Detector, index: int, heard: map<int, int>)
    requires d.base.Shaped() && d.cusum == 0.0
    ensures StepOf(d, index, heard).tier == Seasonal <==>
            && d.trusted && !WouldReanchor(d.base.installAt, d.base.lastTrustedAt, TimeOf(d.observedAt, index))
            && d.base.installAt.Some? && d.base.operatingMs >= WEEK_MS
  {
    hide AbsorbedAll, BaselineFor, FlooredMad, CountNear;
    AbsorbingKeeps(d.base.(episodeTier := None), d.base.backfill);
  }

  // --------------------------------------------------------- the seasonal tier

  /** The counts that fall in this hour of the week, oldest first. */
  ghost function CountsOf(queue: seq<Held>, bucket: int): seq<real> {
    if queue == [] then []
    else
      CountsOf(Front(queue), bucket) +
      if HourOfWeek(Last(queue).at) == bucket then [Last(queue).count as real] else []
  }

  /** What is left of a weight after n later samples: 55/57 for each. */
  ghost function Decay(n: nat): real { if n == 0 then 1.0 else Decay(n - 1) * 55.0 / 57.0 }

  /** The weight of sample k among n: the first seeds, each other starts at 2/57. */
  ghost function Weight(k: nat, n: nat): real
    requires k < n
  {
    if k == 0 then Decay(n - 1) else 2.0 / 57.0 * Decay(n - 1 - k)
  }

  /** The first k samples, by their weights among n. */
  ghost function Weighted(xs: seq<real>, n: nat, k: nat): real
    requires k <= |xs| && k <= n
  {
    if k == 0 then 0.0 else Weighted(xs, n, k - 1) + Weight(k - 1, n) * xs[k - 1]
  }

  ghost function WeightedMean(xs: seq<real>): real { Weighted(xs, |xs|, |xs|) }

  /** The weights of all samples sum to one, so the mean is one. */
  lemma {:induction false} WeightsSumToOne(n: nat)
    requires n > 0
    ensures WeightedMean(seq(n, i => 1.0)) == 1.0
  {
    var ones := seq(n, i => 1.0);
    if n == 1 {
      assert ones == [1.0];
      MeanOfOne(1.0);
    } else {
      WeightsSumToOne(n - 1);
      assert Front(ones) == seq(n - 1, i => 1.0);
      MeanOneMore(Front(ones), 1.0);
      assert Front(ones) + [1.0] == ones;
    }
  }

  lemma {:induction false} OneMoreDecays(xs: seq<real>, x: real, n: nat, k: nat)
    requires k <= |xs| && k <= n && n > 0
    ensures Weighted(xs + [x], n + 1, k) == Weighted(xs, n, k) * 55.0 / 57.0
  {
    if k == 0 {
    } else {
      OneMoreDecays(xs, x, n, k - 1);
      assert (xs + [x])[k - 1] == xs[k - 1];
      WeightDecays(k - 1, n);
      Distributes(Weighted(xs, n, k - 1), Weight(k - 1, n), xs[k - 1]);
    }
  }

  lemma WeightDecays(k: nat, n: nat)
    requires k < n
    ensures Weight(k, n + 1) == Weight(k, n) * 55.0 / 57.0
  {}

  lemma Distributes(s: real, w: real, x: real)
    ensures s * 55.0 / 57.0 + w * 55.0 / 57.0 * x == (s + w * x) * 55.0 / 57.0
  {}

  /** One more sample moves the weighted mean by 2/57 of the difference. */
  lemma MeanOneMore(xs: seq<real>, x: real)
    requires xs != []
    ensures WeightedMean(xs + [x]) == WeightedMean(xs) + 2.0 / 57.0 * (x - WeightedMean(xs))
  {
    OneMoreDecays(xs, x, |xs|, |xs|);
  }

  /** Each count's distance from the mean of those before it, none for the first. */
  ghost function Surprises(xs: seq<real>): seq<real> {
    if xs == [] then []
    else Surprises(Front(xs)) + [if |xs| == 1 then 0.0 else Last(xs) - WeightedMean(Front(xs))]
  }

  /** What the seasonal tier holds for one hour of the week. */
  ghost predicate Holds(b: Baseline, bucket: int, xs: seq<real>)
    requires b.Shaped() && 0 <= bucket < 168
  {
    && b.seasonal[bucket] == (if xs == [] then None else Some(WeightedMean(xs)))
    && b.seasonalResiduals[bucket] == Tail(Surprises(xs), 56)
  }

  lemma BlendIsMean(xs: seq<real>, x: real)
    ensures Blend(if xs == [] then None else Some(WeightedMean(xs)), x) == Some(WeightedMean(xs + [x]))
    ensures Surprises(xs + [x])
         == Surprises(xs) + [SeasonalResidual(if xs == [] then None else Some(WeightedMean(xs)), x)]
  {
    hide Weighted;
    assert Front(xs + [x]) == xs;
    assert CROWD_EWMA_ALPHA == 2.0 / 57.0;
    if xs == [] {
      assert [] + [x] == [x];
      MeanOfOne(x);
    } else {
      MeanOneMore(xs, x);
    }
  }

  lemma MeanOfOne(x: real)
    ensures WeightedMean([x]) == x
  {
    assert Weighted([x], 1, 0) == 0.0 && Weight(0, 1) == 1.0;
  }

  lemma AbsorbedHolds(b: Baseline, held: Held, bucket: int, xs: seq<real>)
    requires b.Shaped() && 0 <= bucket < 168 && Holds(b, bucket, xs)
    ensures Holds(Absorbed(b, held), bucket, if HourOfWeek(held.at) == bucket then xs + [held.count as real] else xs)
  {
    hide WeightedMean, Surprises, HourOfWeek, Blend, SeasonalResidual, Tail, Push;
    var x := held.count as real;
    BlendIsMean(xs, x);
    TailOfPush(Surprises(xs), SeasonalResidual(if xs == [] then None else Some(WeightedMean(xs)), x), 56);
  }

  /** A tier that has absorbed these samples holds, for each hour of the week, the
      weighted mean of the counts of that hour and their last 56 surprises. */
  lemma {:induction false} BucketIsWeightedMean(queue: seq<Held>, bucket: int)
    requires 0 <= bucket < 168
    ensures Holds(AbsorbedAll(Empty(), queue), bucket, CountsOf(queue, bucket))
  {
    hide Holds, Absorbed, HourOfWeek;
    if queue == [] {
      NothingHeld(bucket);
    } else {
      BucketIsWeightedMean(Front(queue), bucket);
      AbsorbedHolds(AbsorbedAll(Empty(), Front(queue)), Last(queue), bucket, CountsOf(Front(queue), bucket));
      assert CountsOf(Front(queue), bucket) + [] == CountsOf(Front(queue), bucket);
    }
  }

  lemma NothingHeld(bucket: int)
    requires 0 <= bucket < 168
    ensures Holds(Empty(), bucket, [])
  {
    NothingSurprises();
  }

  lemma NothingSurprises()
    ensures Tail(Surprises([]), 56) == []
  {}

  // ---------------------------------------------------------- the rolling tier

  /** The sum, from the front. */
  ghost function Total(q: seq<real>): real { if q == [] then 0.0 else q[0] + Total(q[1..]) }

  lemma {:induction false} TotalIsSum(q: seq<real>)
    ensures Total(q) == Sum(q)
  {
    if q == [] {
    } else {
      TotalIsSum(Front(q));
      TotalOneMore(Front(q), Last(q));
      assert Front(q) + [Last(q)] == q;
    }
  }

  lemma {:induction false} TotalOneMore(q: seq<real>, x: real)
    ensures Total(q + [x]) == Total(q) + x
  {
    if q == [] {
      assert ([] + [x])[1..] == [];
    } else {
      TotalOneMore(q[1..], x);
      assert (q + [x])[1..] == q[1..] + [x];
    }
  }

  lemma MeanTimesCount(q: seq<real>, count: nat)
    ensures if q == [] then RollingMeanOr(q, count) == count as real
            else RollingMeanOr(q, count) * |q| as real == Total(q)
  {
    hide Sum, Total;
    TotalIsSum(q);
    if q != [] { QuotientTimes(Sum(q), |q| as real); }
  }

  lemma QuotientTimes(a: real, n: real)
    requires n != 0.0
    ensures a / n * n == a
  {}

  /** The residuals of the trusted, unfrozen windows measured by the rolling tier. */
  ghost function LiveResiduals(trusted: bool, run: seq<Input>): seq<real> {
    if run == [] then []
    else
      var d, w := Prepared(After(trusted, Front(run)), Last(run).prepared), Last(run);
      var step := StepOf(d, w.index, w.heard);
      LiveResiduals(trusted, Front(run)) +
      (if d.trusted && !Freezes(d, w.index, w.heard) && step.tier.Rolling?
       then [CountNear(w.heard) as real - step.baseline] else [])
  }

  lemma WindowResidues(d: Detector, index: int, heard: map<int, int>)
    requires d.base.Shaped()
    ensures var step := StepOf(d, index, heard);
            Observed(d, index, heard).base.rollingResiduals ==
            if d.trusted && !Freezes(d, index, heard) && step.tier.Rolling?
            then Push(d.base.rollingResiduals, CountNear(heard) as real - step.baseline, 56)
            else d.base.rollingResiduals
  {
    hide AbsorbedAll, RollingMeanOr, ScaleFor, CountNear, Push, Absorbed, TierForPreview;
    var c := d.base.(episodeTier := None);
    AbsorbingKeeps(c, c.backfill);
    AbsorbedResidues(Noted(Opened(d, index), TimeOf(d.observedAt, index)), SampleOf(d, index, heard));
  }

  lemma AbsorbedResidues(b: Baseline, held: Held)
    requires b.Shaped()
    ensures Absorbed(b, held).rollingResiduals == b.rollingResiduals
  {}

  /** On every run the rolling residuals are the last 56 of those: each is the very
      excess its own window was measured by. */
  lemma {:induction false} ResidualsAreWhatWasMeasured(trusted: bool, run: seq<Input>)
    ensures After(trusted, run).base.rollingResiduals == Tail(LiveResiduals(trusted, run), 56)
  {
    hide Observed, Freezes, CountNear, Tail, Push, StepOf;
    if run == [] {
      NothingResidual();
    } else {
      var p, w := Front(run), Last(run);
      ResidualsAreWhatWasMeasured(trusted, p);
      var d := Prepared(After(trusted, p), w.prepared);
      WindowResidues(d, w.index, w.heard);
      TailOfPush(LiveResiduals(trusted, p), CountNear(w.heard) as real - StepOf(d, w.index, w.heard).baseline, 56);
      assert LiveResiduals(trusted, p) + [] == LiveResiduals(trusted, p);
    }
  }

  lemma NothingResidual()
    ensures Empty().rollingResiduals == Tail([], 56)
  {}

  // ------------------------------------------------------------- the yardstick

  /** The samples the seasonal tier has learned when window t is measured. */
  ghost function LearnedBy(trusted: bool, run: seq<Input>, t: nat): seq<Held>
    requires t < |run|
  {
    var f := FatesAfter(trusted, run[..t]);
    Helds(if Drains(CrowdRuns.Before(trusted, run, t), run[t].index) then f.learned + f.queued else f.learned)
  }

  /** The learned counts of window t's hour of the week. */
  ghost function SameHour(trusted: bool, run: seq<Input>, t: nat): seq<real>
    requires t < |run|
  {
    CountsOf(LearnedBy(trusted, run, t), HourOfWeek(TimeAt(run[t])))
  }

  /** Window t is measured by the seasonal tier, and that hour has been learned. */
  ghost predicate BySeason(trusted: bool, run: seq<Input>, t: nat)
    requires t < |run|
  {
    StepAt(trusted, run, t).tier.Seasonal? && SameHour(trusted, run, t) != []
  }

  /** The residuals window t's own is set among. */
  ghost function Peers(trusted: bool, run: seq<Input>, t: nat): seq<real>
    requires t < |run|
  {
    if BySeason(trusted, run, t) then Tail(Surprises(SameHour(trusted, run, t)), 56)
    else Tail(LiveResiduals(trusted, run[..t]), 56)
  }

  /** What the tables hold when window t is measured. */
  lemma StoresAtPreview(trusted: bool, run: seq<Input>, t: nat)
    requires t < |run|
    ensures var b := Opened(CrowdRuns.Before(trusted, run, t), run[t].index);
            && Holds(b, HourOfWeek(TimeAt(run[t])), SameHour(trusted, run, t))
            && b.rolling == Tail(LiveCounts(trusted, run[..t]), 40320)
            && b.rollingResiduals == Tail(LiveResiduals(trusted, run[..t]), 56)
  {
    hide AbsorbedAll, After, WeightedMean, Surprises, HourOfWeek, Tail, FatesAfter, Begun, Helds, CountsOf;
    var d, f := CrowdRuns.Before(trusted, run, t), FatesAfter(trusted, run[..t]);
    SeasonalIsWhatWasLearned(trusted, run[..t]);
    RollingIsWhatWasTrusted(trusted, run[..t]);
    ResidualsAreWhatWasMeasured(trusted, run[..t]);
    OpeningBrings(d, run[t].index);
    OpeningKeepsRolling(d, run[t].index);
    HeldsJoin(f.learned, f.queued);
    NothingAbsorbed(d.base);
    var more := if Drains(d, run[t].index) then d.base.backfill else [];
    AbsorbingAlike(d.base, AbsorbedAll(Empty(), Helds(f.learned)), more);
    AbsorbingInTurn(Empty(), Helds(f.learned), more);
    assert Helds(f.learned) + [] == Helds(f.learned);
    BucketIsWeightedMean(LearnedBy(trusted, run, t), HourOfWeek(TimeAt(run[t])));
  }

  lemma OpeningKeepsRolling(d: Detector, index: int)
    requires d.base.Shaped()
    ensures var b := Opened(d, index); b.rolling == d.base.rolling && b.rollingResiduals == d.base.rollingResiduals
  {
    hide AbsorbedAll;
    AbsorbingKeeps(d.base.(episodeTier := None), d.base.backfill);
  }

  /** A preview of these tables, with the counts of the hour that they hold. */
  lemma PreviewReads(b: Baseline, count: nat, at: int, trusted: bool, inEpisode: bool, xs: seq<real>)
    requires b.Shaped() && Holds(b, HourOfWeek(at), xs)
    ensures var step := Preview(b, count, at, trusted, inEpisode);
            var bySeason := step.tier.Seasonal? && xs != [];
            var peers := if bySeason then Tail(Surprises(xs), 56) else b.rollingResiduals;
            && step.baseline == (if bySeason then WeightedMean(xs) else RollingMeanOr(b.rolling, count))
            && step.scale == (if !inEpisode then FlooredMad(peers + [count as real - step.baseline])
                              else if peers == [] then 1.5 else FlooredMad(peers))
            && step.z * step.scale == count as real - step.baseline
  {
    hide WeightedMean, Surprises, HourOfWeek, Tail, FlooredMad, RollingMeanOr, TierForPreview;
    var step := Preview(b, count, at, trusted, inEpisode);
    QuotientTimes(count as real - step.baseline, step.scale);
  }

  /** The yardstick of window t: by season the baseline is the weighted mean of the
      counts of its hour, and otherwise the plain mean of the last 40320 counts no
      episode froze, or its own count if there are none; the scale is that of its
      peers, with its own residual outside an episode; and z is its excess over the
      baseline on that scale. */
  lemma YardstickExactly(trusted: bool, run: seq<Input>, t: nat)
    requires t < |run|
    ensures var step, count := StepAt(trusted, run, t), CountNear(run[t].heard) as real;
            var live := Tail(LiveCounts(trusted, run[..t]), 40320);
            && (if BySeason(trusted, run, t) then step.baseline == WeightedMean(SameHour(trusted, run, t))
                else if live == [] then step.baseline == count
                else step.baseline * |live| as real == Total(live))
            && step.z * step.scale == count - step.baseline
    ensures var step, peers := StepAt(trusted, run, t), Peers(trusted, run, t);
            step.scale ==
            if After(trusted, run[..t]).cusum > 0.0 then (if peers == [] then 1.5 else FlooredMad(peers))
            else FlooredMad(peers + [CountNear(run[t].heard) as real - step.baseline])
  {
    hide After, WeightedMean, Surprises, HourOfWeek, Tail, CountNear, FlooredMad, RollingMeanOr, Opened, Preview,
         SameHour, LiveCounts, LiveResiduals, Holds, Total;
    assert Front(run[..t + 1]) == run[..t];
    ClockOfRun(trusted, run[..t + 1]);
    StoresAtPreview(trusted, run, t);
    var d, count := CrowdRuns.Before(trusted, run, t), CountNear(run[t].heard);
    var b := Opened(d, run[t].index);
    MeanTimesCount(b.rolling, count);
    PreviewReads(b, count, TimeAt(run[t]), d.trusted, d.cusum > 0.0, SameHour(trusted, run, t));
  }
}
