/** The crowd detector over whole runs. */
module CrowdRuns {
  import opened Orders
  import opened Crowd
  import opened Baselines
  import opened CrowdDetection

  /** One window, with the wall-clock context injected before it, if any. */
  datatype Input = Input(prepared: Option<Preparation>, index: int, heard: map<int, int>)

  ghost function After(trusted: bool, run: seq<Input>): (d: Detector)
    ensures d.base.Shaped()
  {
    if run == [] then Fresh(trusted)
    else Observed(Prepared(After(trusted, Front(run)), Last(run).prepared), Last(run).index, Last(run).heard)
  }

  /** The detector as window t of the run finds it. */
  ghost function Before(trusted: bool, run: seq<Input>, t: nat): (d: Detector)
    requires t < |run|
    ensures d.base.Shaped()
  {
    Prepared(After(trusted, run[..t]), run[t].prepared)
  }

  ghost predicate EventAt(trusted: bool, run: seq<Input>, t: int) {
    0 <= t < |run| && Fires(Before(trusted, run, t), run[t].index, run[t].heard)
  }

  ghost function StepAt(trusted: bool, run: seq<Input>, t: nat): BaselineStep
    requires t < |run|
  {
    StepOf(Before(trusted, run, t), run[t].index, run[t].heard)
  }

  lemma OneWindow(trusted: bool, run: seq<Input>, t: nat)
    requires t < |run|
    ensures After(trusted, run[..t + 1]) == Observed(Before(trusted, run, t), run[t].index, run[t].heard)
  {
    assert Front(run[..t + 1]) == run[..t];
  }

  // ---------------------------------------------------------------- clocks

  /** Trusted operating time telescopes: it is the span from the install anchor
      to the last trusted sample. */
  ghost predicate Telescopes(b: Baseline) {
    && (b.installAt.None? <==> b.lastTrustedAt.None?)
    && (b.installAt.None? ==> b.operatingMs == 0)
    && (b.installAt.Some? ==> b.operatingMs == b.lastTrustedAt.value - b.installAt.value >= 0)
  }

  lemma {:induction false} AbsorbingKeeps(b: Baseline, queue: seq<Held>)
    requires b.Shaped()
    ensures AbsorbedAll(b, queue)
         == b.(seasonal := AbsorbedAll(b, queue).seasonal, seasonalResiduals := AbsorbedAll(b, queue).seasonalResiduals)
  {
    if queue == [] {
    } else {
      AbsorbingKeeps(b, Front(queue));
    }
  }

  lemma WindowTelescopes(b: Baseline, count: nat, at: int, trusted: bool, before: bool, after: bool, tier: Tier)
    requires b.Shaped() && Telescopes(b)
    ensures Telescopes(Finished(Begun(b, at, trusted, before), count, at, trusted, after, tier))
  {
    hide AbsorbedAll, BaselineFor;
    AbsorbingKeeps(b.(episodeTier := None), b.backfill);
  }

  lemma {:induction false} HoursTelescope(trusted: bool, run: seq<Input>)
    ensures Telescopes(After(trusted, run).base)
  {
    hide Begun, Finished, Raised, StepOf;
    if run == [] {
    } else {
      HoursTelescope(trusted, Front(run));
      var d, w := Prepared(After(trusted, Front(run)), Last(run).prepared), Last(run);
      WindowTelescopes(d.base, CountNear(w.heard), TimeOf(d.observedAt, w.index), d.trusted, d.cusum > 0.0,
                       Raised(d, w.index, w.heard).0 > 0.0, StepOf(d, w.index, w.heard).tier);
    }
  }

  /** The clock steps that restart the install age are exactly those that do not
      lie between nothing and a day: the week-long jump and the look back before
      the install never decide anything by themselves. */
  lemma ReanchorsExactly(trusted: bool, run: seq<Input>, at: int)
    ensures var b := After(trusted, run).base;
            WouldReanchor(b.installAt, b.lastTrustedAt, at) <==>
              b.lastTrustedAt.Some? && !(0 <= at - b.lastTrustedAt.value <= 86_400_000)
  {
    hide After;
    HoursTelescope(trusted, run);
  }

  lemma WindowAddsADay(b: Baseline, count: nat, at: int, trusted: bool, before: bool, after: bool, tier: Tier)
    requires b.Shaped() && b.operatingMs >= 0
    ensures var r := Finished(Begun(b, at, trusted, before), count, at, trusted, after, tier);
            r.operatingMs <= if b.lastTrustedAt.None? then b.operatingMs else b.operatingMs + MAX_TRUSTED_STEP_MS
  {
    hide AbsorbedAll, BaselineFor;
    AbsorbingKeeps(b.(episodeTier := None), b.backfill);
  }

  /** However the clock steps, each window adds a day of trusted time at most. */
  lemma {:induction false} DaysAtMost(trusted: bool, run: seq<Input>)
    ensures After(trusted, run).base.operatingMs <= Max(0, |run| - 1) * MAX_TRUSTED_STEP_MS
  {
    hide Begun, Finished, Raised, StepOf, Telescopes;
    if run == [] {
    } else {
      var p := Front(run);
      DaysAtMost(trusted, p);
      HoursTelescope(trusted, p);
      NeverNegative(After(trusted, p).base);
      var d, w := Prepared(After(trusted, p), Last(run).prepared), Last(run);
      WindowAddsADay(d.base, CountNear(w.heard), TimeOf(d.observedAt, w.index), d.trusted, d.cusum > 0.0,
                     Raised(d, w.index, w.heard).0 > 0.0, StepOf(d, w.index, w.heard).tier);
    }
  }

  lemma NeverNegative(b: Baseline)
    requires Telescopes(b)
    ensures b.operatingMs >= 0
  {}

  // ------------------------------------------------------------- lower bounds

  ghost predicate AllAtLeast(q: seq<real>, lo: real) { forall i | 0 <= i < |q| :: q[i] >= lo }

  /** Nothing the baseline remembers lies below lo. */
  ghost predicate Above(b: Baseline, lo: real) {
    && AllAtLeast(b.rolling, lo)
    && (forall i | 0 <= i < |b.seasonal| :: b.seasonal[i].Some? ==> b.seasonal[i].value >= lo)
    && (forall i | 0 <= i < |b.backfill| :: b.backfill[i].count as real >= lo)
  }

  lemma AbsorbedAbove(b: Baseline, held: Held, lo: real)
    requires b.Shaped() && Above(b, lo) && held.count as real >= lo
    ensures Above(Absorbed(b, held), lo)
  {}

  lemma {:induction false} AbsorbedAllAbove(b: Baseline, queue: seq<Held>, lo: real)
    requires b.Shaped() && Above(b, lo) && forall i | 0 <= i < |queue| :: queue[i].count as real >= lo
    ensures Above(AbsorbedAll(b, queue), lo)
  {
    hide Absorbed;
    if queue == [] {
    } else {
      AbsorbedAllAbove(b, Front(queue), lo);
      AbsorbedAbove(AbsorbedAll(b, Front(queue)), Last(queue), lo);
    }
  }

  lemma BegunAbove(b: Baseline, at: int, trusted: bool, inEpisode: bool, lo: real)
    requires b.Shaped() && Above(b, lo)
    ensures Above(Begun(b, at, trusted, inEpisode), lo)
  {
    hide AbsorbedAll;
    AbsorbedAllAbove(b.(episodeTier := None), b.backfill, lo);
  }

  lemma FinishedAbove(b: Baseline, count: nat, at: int, trusted: bool, inEpisode: bool, tier: Tier, lo: real)
    requires b.Shaped() && Above(b, lo) && count as real >= lo
    ensures Above(Finished(b, count, at, trusted, inEpisode, tier), lo)
  {}

  lemma ObservedAbove(d: Detector, index: int, heard: map<int, int>, lo: real)
    requires d.base.Shaped() && Above(d.base, lo) && CountNear(heard) as real >= lo
    ensures Above(Opened(d, index), lo) && Above(Observed(d, index, heard).base, lo)
  {
    hide Above, Begun, Finished, Raised, StepOf;
    var at := TimeOf(d.observedAt, index);
    BegunAbove(d.base, at, d.trusted, d.cusum > 0.0, lo);
    FinishedAbove(Opened(d, index), CountNear(heard), at, d.trusted, Raised(d, index, heard).0 > 0.0,
                  StepOf(d, index, heard).tier, lo);
  }

  lemma {:induction false} SumAtLeast(q: seq<real>, lo: real)
    requires AllAtLeast(q, lo)
    ensures Sum(q) >= lo * |q| as real
  {
    if q == [] {
    } else {
      SumAtLeast(Front(q), lo);
      OneMore(lo, |Front(q)| as real);
    }
  }

  lemma QuotientAtLeast(a: real, n: real, lo: real)
    requires n > 0.0 && a >= lo * n
    ensures a / n >= lo
  {}

  lemma MeanAtLeast(rolling: seq<real>, count: nat, lo: real)
    requires AllAtLeast(rolling, lo) && count as real >= lo
    ensures RollingMeanOr(rolling, count) >= lo
  {
    if rolling != [] {
      SumAtLeast(rolling, lo);
      QuotientAtLeast(Sum(rolling), |rolling| as real, lo);
    }
  }

  lemma BaselineAtLeast(b: Baseline, count: nat, at: int, tier: Tier, lo: real)
    requires b.Shaped() && Above(b, lo) && count as real >= lo
    ensures BaselineFor(b, count, at, tier) >= lo
  {
    hide RollingMeanOr;
    MeanAtLeast(b.rolling, count, lo);
  }

  lemma StepAtLeast(d: Detector, index: int, heard: map<int, int>, lo: real)
    requires d.base.Shaped() && Above(d.base, lo) && CountNear(heard) as real >= lo
    ensures var step := StepOf(d, index, heard);
            && step.baseline >= lo && step.scale >= CROWD_MAD_FLOOR
            && step.z == (CountNear(heard) as real - step.baseline) / step.scale
  {
    hide Above, Opened, BaselineFor, CountNear, ResidualsFor, FlooredMad, Observed;
    ObservedAbove(d, index, heard, lo);
    var at, b := TimeOf(d.observedAt, index), Opened(d, index);
    BaselineAtLeast(b, CountNear(heard), at, TierForPreview(b, d.trusted, d.cusum > 0.0), lo);
  }

  /** The invariant of every reachable state. */
  ghost predicate Sound(d: Detector) {
    d.base.Shaped() && Above(d.base, 0.0) && d.cusum >= 0.0 && (d.cusum >= 5.0 ==> d.alerted)
  }

  lemma {:induction false} AlwaysSound(trusted: bool, run: seq<Input>)
    ensures Sound(After(trusted, run))
  {
    hide Above, StepOf;
    if run == [] {
      EmptyAbove(0.0);
    } else {
      AlwaysSound(trusted, Front(run));
      ObservedAbove(Prepared(After(trusted, Front(run)), Last(run).prepared), Last(run).index, Last(run).heard, 0.0);
    }
  }

  lemma EmptyAbove(lo: real)
    ensures Above(Empty(), lo)
  {}

  lemma QuotientSign(a: real, n: real)
    requires n > 0.0
    ensures a / n > 0.0 <==> a > 0.0
  {}

  /** A firing window holds somebody near: its roster cannot be empty, and its
      count is above a baseline that is never negative. */
  lemma EventsAreWellFormed(trusted: bool, run: seq<Input>, t: nat)
    requires EventAt(trusted, run, t)
    ensures CountNear(run[t].heard) >= 1
    ensures var step := StepAt(trusted, run, t);
            CountNear(run[t].heard) as real > step.baseline >= 0.0 && step.scale >= 1.5
  {
    hide Above, StepOf, CountNear;
    AlwaysSound(trusted, run[..t]);
    var d, index, heard := Before(trusted, run, t), run[t].index, run[t].heard;
    StepAtLeast(d, index, heard, 0.0);
    var step := StepOf(d, index, heard);
    QuotientSign(CountNear(heard) as real - step.baseline, step.scale);
  }

  // ------------------------------------------------------------- never rising

  /** No window is busier than any earlier one. */
  ghost predicate NeverRising(run: seq<Input>) {
    forall i, j | 0 <= i < j < |run| :: CountNear(run[i].heard) >= CountNear(run[j].heard)
  }

  lemma AboveLower(b: Baseline, hi: real, lo: real)
    requires Above(b, hi) && lo <= hi
    ensures Above(b, lo)
  {}

  lemma QuietStep(d: Detector, index: int, heard: map<int, int>, lo: nat)
    requires d.base.Shaped() && Above(d.base, lo as real) && d.cusum == 0.0 && lo == CountNear(heard)
    ensures var r := Observed(d, index, heard); r.cusum == 0.0 && Above(r.base, lo as real)
    ensures !Fires(d, index, heard)
  {
    hide Above, StepOf, CountNear, Finished;
    ObservedAbove(d, index, heard, lo as real);
    StepAtLeast(d, index, heard, lo as real);
    var step := StepOf(d, index, heard);
    QuotientSign(CountNear(heard) as real - step.baseline, step.scale);
  }

  /** Occupancy that never rises never alerts, whatever the clocks do. */
  lemma {:induction false} NonIncreasingNeverAlerts(trusted: bool, run: seq<Input>)
    requires NeverRising(run)
    ensures After(trusted, run).cusum == 0.0
    ensures run != [] ==> Above(After(trusted, run).base, CountNear(Last(run).heard) as real)
    ensures forall t :: !EventAt(trusted, run, t)
  {
    hide Above, CountNear, Fires, Observed;
    if run == [] {
    } else {
      var p, w := Front(run), Last(run);
      NonIncreasingNeverAlerts(trusted, p);
      var lo := CountNear(w.heard);
      var d := Prepared(After(trusted, p), w.prepared);
      if p == [] { EmptyAbove(lo as real); } else { AboveLower(d.base, CountNear(Last(p).heard) as real, lo as real); }
      QuietStep(d, w.index, w.heard, lo);
      forall t | EventAt(trusted, run, t) ensures EventAt(trusted, p, t) { EarlierEvents(trusted, run, t); }
    }
  }

  lemma EarlierEvents(trusted: bool, run: seq<Input>, t: int)
    requires run != []
    ensures t < |run| - 1 ==> (EventAt(trusted, run, t) <==> EventAt(trusted, Front(run), t))
    ensures EventAt(trusted, run, |run| - 1)
       <==> Fires(Prepared(After(trusted, Front(run)), Last(run).prepared), Last(run).index, Last(run).heard)
  {
    hide Fires, After;
    assert Front(run) == run[..|run| - 1];
    if 0 <= t < |run| - 1 { assert Front(run)[..t] == run[..t]; }
  }

  // ------------------------------------------------------------------- episodes

  ghost predicate SameStores(a: Baseline, b: Baseline) {
    && a.seasonal == b.seasonal && a.rolling == b.rolling
    && a.seasonalResiduals == b.seasonalResiduals && a.rollingResiduals == b.rollingResiduals
  }

  /** From window a, which starts an episode, to window b the CUSUM stays up. */
  ghost predicate Episode(trusted: bool, run: seq<Input>, a: nat, b: nat) {
    && a <= b < |run|
    && After(trusted, run[..a]).cusum == 0.0
    && forall t | a <= t <= b :: RaisedAt(trusted, run, t)
  }

  ghost predicate RaisedAt(trusted: bool, run: seq<Input>, t: nat) {
    t < |run| && After(trusted, run[..t + 1]).cusum > 0.0
  }

  /** Within an episode one window changes neither the stores nor the tier, and
      loses the backfill queue exactly when a trusted clock re-anchors. */
  lemma EpisodeWindow(d: Detector, index: int, heard: map<int, int>)
    requires d.base.Shaped() && Observed(d, index, heard).cusum > 0.0
    ensures var b, r, at := Opened(d, index), Observed(d, index, heard).base, TimeOf(d.observedAt, index);
            && SameStores(b, r)
            && r.episodeTier == Some(StepOf(d, index, heard).tier)
            && (r.backfill == b.backfill <==>
                  b.backfill == [] || !(d.trusted && WouldReanchor(b.installAt, b.lastTrustedAt, at)))
    ensures d.cusum > 0.0 ==> Opened(d, index) == d.base
    ensures d.cusum > 0.0 && d.base.episodeTier.Some? ==> StepOf(d, index, heard).tier == d.base.episodeTier.value
  {
    hide Drained, RollingMeanOr, FlooredMad, CountNear;
    if d.cusum <= 0.0 { BegunForgetsTier(d.base, TimeOf(d.observedAt, index), d.trusted); }
  }

  lemma BegunForgetsTier(b: Baseline, at: int, trusted: bool)
    requires b.Shaped()
    ensures Begun(b, at, trusted, false).episodeTier.None?
  {
    hide AbsorbedAll;
    AbsorbingKeeps(b.(episodeTier := None), b.backfill);
  }

  /** Episode freeze: from the trigger window's commit until the CUSUM is back
      at zero the seasonal, rolling and residual stores stay as the trigger
      window found them, and every preview uses the trigger window's tier. */
  lemma {:induction false} EpisodeFreezes(trusted: bool, run: seq<Input>, a: nat, b: nat)
    requires Episode(trusted, run, a, b)
    ensures SameStores(Opened(Before(trusted, run, a), run[a].index), After(trusted, run[..b + 1]).base)
    ensures After(trusted, run[..b + 1]).base.episodeTier == Some(StepAt(trusted, run, a).tier)
    ensures b + 1 < |run| ==> StepAt(trusted, run, b + 1).tier == StepAt(trusted, run, a).tier
    decreases b
  {
    hide After, Observed, Opened, StepOf;
    var d := Before(trusted, run, b);
    OneWindow(trusted, run, b);
    assert RaisedAt(trusted, run, b);
    EpisodeWindow(d, run[b].index, run[b].heard);
    if a < b {
      assert RaisedAt(trusted, run, b - 1);
      assert Episode(trusted, run, a, b - 1) by { EpisodeShrinks(trusted, run, a, b); }
      EpisodeFreezes(trusted, run, a, b - 1);
    }
    if b + 1 < |run| { EpisodePreview(Before(trusted, run, b + 1), run[b + 1].index, run[b + 1].heard); }
  }

  lemma EpisodeShrinks(trusted: bool, run: seq<Input>, a: nat, b: nat)
    requires Episode(trusted, run, a, b) && a < b
    ensures Episode(trusted, run, a, b - 1)
  {
    hide RaisedAt, After;
  }

  lemma EpisodePreview(d: Detector, index: int, heard: map<int, int>)
    requires d.base.Shaped() && d.cusum > 0.0 && d.base.episodeTier.Some?
    ensures StepOf(d, index, heard).tier == d.base.episodeTier.value
  {
    hide RollingMeanOr, FlooredMad, CountNear;
  }

  /** Window a's preview chose the tier of window t: a is t itself when no episode
      is on, and the trigger window of the episode otherwise. */
  ghost predicate Chose(trusted: bool, run: seq<Input>, a: nat, t: nat) {
    && a <= t < |run|
    && After(trusted, run[..a]).cusum == 0.0
    && (a < t ==> Episode(trusted, run, a, t - 1))
  }

  lemma {:induction false} SomeWindowChose(trusted: bool, run: seq<Input>, t: nat) returns (a: nat)
    requires t < |run|
    ensures Chose(trusted, run, a, t)
    decreases t
  {
    hide After, Above;
    if After(trusted, run[..t]).cusum == 0.0 {
      a := t;
    } else {
      NotAtBoot(trusted, run, t);
      a := SomeWindowChose(trusted, run, t - 1);
      AlwaysSound(trusted, run[..t]);
      assert RaisedAt(trusted, run, t - 1);
      forall s | a <= s <= t - 1 ensures RaisedAt(trusted, run, s) {
        assert s < t - 1 ==> Episode(trusted, run, a, t - 2);
      }
    }
  }

  lemma NotAtBoot(trusted: bool, run: seq<Input>, t: nat)
    requires t < |run| && After(trusted, run[..t]).cusum != 0.0
    ensures t > 0
  {}

  ghost predicate SpansAWeek(b: Baseline) {
    b.installAt.Some? && b.lastTrustedAt.Some? && b.lastTrustedAt.value - b.installAt.value >= 604_800_000
  }

  /** The window's trusted clock step restarts the install age. */
  ghost predicate Reanchors(d: Detector, index: int) {
    d.trusted && WouldReanchor(d.base.installAt, d.base.lastTrustedAt, TimeOf(d.observedAt, index))
  }

  ghost predicate ReanchorsAt(trusted: bool, run: seq<Input>, t: nat) {
    t < |run| && Reanchors(Before(trusted, run, t), run[t].index)
  }

  /** Outside an episode the seasonal tier is chosen on a week of trusted time. */
  lemma SeasonalChoice(d: Detector, index: int, heard: map<int, int>)
    requires d.base.Shaped() && Telescopes(d.base) && d.cusum == 0.0
    requires StepOf(d, index, heard).tier == Seasonal
    ensures SpansAWeek(d.base) && d.base.operatingMs >= 7 * MAX_TRUSTED_STEP_MS
    ensures !Reanchors(d, index)
  {
    hide AbsorbedAll, BaselineFor, FlooredMad, CountNear;
    AbsorbingKeeps(d.base.(episodeTier := None), d.base.backfill);
  }

  /** The choosing window had a week behind it, and was the ninth or later. */
  lemma ChosenOnAWeek(trusted: bool, run: seq<Input>, a: nat)
    requires a < |run| && After(trusted, run[..a]).cusum == 0.0 && StepAt(trusted, run, a).tier == Seasonal
    ensures SpansAWeek(After(trusted, run[..a]).base) && a >= 8
  {
    hide After, Telescopes, StepOf, SpansAWeek;
    HoursTelescope(trusted, run[..a]);
    DaysAtMost(trusted, run[..a]);
    SeasonalChoice(Before(trusted, run, a), run[a].index, run[a].heard);
  }

  ghost predicate ChoseOnAWeek(trusted: bool, run: seq<Input>, a: nat, t: nat) {
    Chose(trusted, run, a, t) && StepAt(trusted, run, a).tier == Seasonal && SpansAWeek(After(trusted, run[..a]).base)
  }

  /** A window uses the seasonal tier only if the window that chose its tier had
      a week of trusted time behind it; outside an episode that is the window
      itself. */
  lemma SeasonalNeedsAWeek(trusted: bool, run: seq<Input>, t: nat)
    requires t < |run| && StepAt(trusted, run, t).tier == Seasonal
    ensures exists a :: ChoseOnAWeek(trusted, run, a, t)
    ensures After(trusted, run[..t]).cusum == 0.0 ==> SpansAWeek(After(trusted, run[..t]).base)
    ensures t >= 8
  {
    hide After, StepAt, SpansAWeek, Episode;
    var a := SomeWindowChose(trusted, run, t);
    if a < t { EpisodeFreezes(trusted, run, a, t - 1); }
    ChosenOnAWeek(trusted, run, a);
    assert ChoseOnAWeek(trusted, run, a, t);
    if After(trusted, run[..t]).cusum == 0.0 { ChosenOnAWeek(trusted, run, t); }
  }

  /** No clock jump can shorten the cold start: the first eight windows of a run
      all use the rolling tier. */
  lemma ColdStartTakesEight(trusted: bool, run: seq<Input>, t: nat)
    requires t < |run| && t < 8
    ensures StepAt(trusted, run, t).tier == Rolling
  {
    hide StepAt, ChoseOnAWeek, After;
    if StepAt(trusted, run, t).tier == Seasonal { SeasonalNeedsAWeek(trusted, run, t); }
  }

  lemma EpisodeReanchors(d: Detector, index: int, heard: map<int, int>)
    requires d.base.Shaped() && d.cusum > 0.0 && Observed(d, index, heard).cusum > 0.0 && Reanchors(d, index)
    ensures var c := Observed(d, index, heard).base;
            c.operatingMs == 0 && c.installAt.Some? && c.installAt == c.lastTrustedAt
  {
    hide StepOf, CountNear;
  }

  /** In an episode a week is not needed again: a trusted clock step that restarts
      the install age leaves no trusted time at all, and the next window still
      uses the seasonal tier the trigger window chose. */
  lemma ReanchoredEpisodeKeepsTier(trusted: bool, run: seq<Input>, a: nat, b: nat)
    requires Episode(trusted, run, a, b) && a < b && b + 1 < |run|
    requires StepAt(trusted, run, a).tier == Seasonal && ReanchorsAt(trusted, run, b)
    ensures var c := After(trusted, run[..b + 1]).base;
            c.operatingMs == 0 && c.installAt.Some? && c.installAt == c.lastTrustedAt
    ensures StepAt(trusted, run, b + 1).tier == Seasonal
  {
    hide After, StepOf, StepAt, Reanchors;
    EpisodeFreezes(trusted, run, a, b);
    OneWindow(trusted, run, b);
    assert RaisedAt(trusted, run, b - 1) && RaisedAt(trusted, run, b);
    assert run[..b - 1 + 1] == run[..b];
    EpisodeReanchors(Before(trusted, run, b), run[b].index, run[b].heard);
  }

  lemma EpisodeAddsTime(d: Detector, index: int, heard: map<int, int>)
    requires d.base.Shaped() && SpansAWeek(d.base) && Observed(d, index, heard).cusum > 0.0 && !Reanchors(d, index)
    ensures SpansAWeek(Observed(d, index, heard).base)
  {
    hide AbsorbedAll, StepOf, CountNear;
    AbsorbingKeeps(d.base.(episodeTier := None), d.base.backfill);
  }

  ghost predicate WeekAfter(trusted: bool, run: seq<Input>, t: nat) {
    t < |run| && SpansAWeek(After(trusted, run[..t + 1]).base)
  }

  /** Nothing else takes it away: through a seasonal episode the week of trusted
      time is there after every window if and only if no window re-anchors. */
  lemma {:induction false} SeasonalEpisodeKeepsItsWeek(trusted: bool, run: seq<Input>, a: nat, b: nat)
    requires Episode(trusted, run, a, b) && StepAt(trusted, run, a).tier == Seasonal
    ensures (forall t | a <= t <= b :: WeekAfter(trusted, run, t))
       <==> (forall t | a <= t <= b :: !ReanchorsAt(trusted, run, t))
    decreases b
  {
    hide After, StepAt, WeekAfter, ReanchorsAt;
    if a == b {
      TriggerHasItsWeek(trusted, run, a);
    } else {
      EpisodeShrinks(trusted, run, a, b);
      SeasonalEpisodeKeepsItsWeek(trusted, run, a, b - 1);
      WeekGoesOn(trusted, run, a, b);
    }
  }

  lemma TriggerHasItsWeek(trusted: bool, run: seq<Input>, a: nat)
    requires Episode(trusted, run, a, a) && StepAt(trusted, run, a).tier == Seasonal
    ensures WeekAfter(trusted, run, a) && !ReanchorsAt(trusted, run, a)
  {
    hide After, StepOf, Reanchors, SpansAWeek, Telescopes;
    var d := Before(trusted, run, a);
    assert RaisedAt(trusted, run, a);
    HoursTelescope(trusted, run[..a]);
    OneWindow(trusted, run, a);
    SeasonalChoice(d, run[a].index, run[a].heard);
    EpisodeAddsTime(d, run[a].index, run[a].heard);
  }

  lemma WeekGoesOn(trusted: bool, run: seq<Input>, a: nat, b: nat)
    requires Episode(trusted, run, a, b) && a < b
    ensures ReanchorsAt(trusted, run, b) ==> !WeekAfter(trusted, run, b)
    ensures WeekAfter(trusted, run, b - 1) && !ReanchorsAt(trusted, run, b) ==> WeekAfter(trusted, run, b)
  {
    hide After, Reanchors;
    var d := Before(trusted, run, b);
    assert RaisedAt(trusted, run, b) && RaisedAt(trusted, run, b - 1);
    assert run[..b - 1 + 1] == run[..b];
    OneWindow(trusted, run, b);
    if ReanchorsAt(trusted, run, b) {
      EpisodeReanchors(d, run[b].index, run[b].heard);
    } else if WeekAfter(trusted, run, b - 1) {
      EpisodeAddsTime(d, run[b].index, run[b].heard);
    }
  }

  /** The yardstick of an episode does not bend to the crowd it measures: tier
      and scale, and the baseline once anything is stored, do not depend on this
      window's count. */
  lemma EpisodeYardstick(d: Detector, index: int, heard: map<int, int>, other: map<int, int>)
    requires d.base.Shaped() && d.cusum > 0.0
    ensures var x, y := StepOf(d, index, heard), StepOf(d, index, other);
            && x.tier == y.tier && x.scale == y.scale
            && (d.base.rolling != [] ==> x.baseline == y.baseline)
  {
    hide FlooredMad, CountNear, Sum;
  }

  ghost predicate Bounded(b: Baseline) {
    && |b.rolling| <= 40320 && |b.rollingResiduals| <= 56
    && forall i | 0 <= i < |b.seasonalResiduals| :: |b.seasonalResiduals[i]| <= 56
  }

  lemma {:induction false} AbsorbedAllBounded(b: Baseline, queue: seq<Held>)
    requires b.Shaped() && Bounded(b)
    ensures Bounded(AbsorbedAll(b, queue))
  {
    if queue == [] {
    } else {
      AbsorbedAllBounded(b, Front(queue));
    }
  }

  lemma WindowBounded(b: Baseline, count: nat, at: int, trusted: bool, before: bool, after: bool, tier: Tier)
    requires b.Shaped() && Bounded(b)
    ensures Bounded(Finished(Begun(b, at, trusted, before), count, at, trusted, after, tier))
  {
    hide AbsorbedAll, BaselineFor;
    AbsorbedAllBounded(b.(episodeTier := None), b.backfill);
  }

  /** On every run the stores stay within their caps; only the queue of held
      samples can grow for as long as the clock is not trusted. */
  lemma {:induction false} StoresBounded(trusted: bool, run: seq<Input>)
    ensures Bounded(After(trusted, run).base)
    ensures |After(trusted, run).base.backfill| <= |run|
  {
    hide Bounded, Begun, Finished, Raised, StepOf;
    if run == [] {
      EmptyBounded();
    } else {
      StoresBounded(trusted, Front(run));
      var d, w := Prepared(After(trusted, Front(run)), Last(run).prepared), Last(run);
      var at, after := TimeOf(d.observedAt, w.index), Raised(d, w.index, w.heard).0 > 0.0;
      var tier := StepOf(d, w.index, w.heard).tier;
      WindowBounded(d.base, CountNear(w.heard), at, d.trusted, d.cusum > 0.0, after, tier);
      WindowHoldsOne(d.base, CountNear(w.heard), at, d.trusted, d.cusum > 0.0, after, tier);
    }
  }

  lemma EmptyBounded()
    ensures Bounded(Empty())
  {}

  lemma WindowHoldsOne(b: Baseline, count: nat, at: int, trusted: bool, before: bool, after: bool, tier: Tier)
    requires b.Shaped()
    ensures |Finished(Begun(b, at, trusted, before), count, at, trusted, after, tier).backfill| <= |b.backfill| + 1
  {
    hide AbsorbedAll, BaselineFor;
  }

  // ---------------------------------------------------------------------- CUSUM

  /** The standardized excess of each window of the run. */
  ghost function Excesses(trusted: bool, run: seq<Input>): (zs: seq<real>)
    ensures |zs| == |run|
  {
    if run == [] then []
    else
      Excesses(trusted, Front(run)) +
      [StepOf(Prepared(After(trusted, Front(run)), Last(run).prepared), Last(run).index, Last(run).heard).z]
  }

  lemma CusumAfter(d: Detector, index: int, heard: map<int, int>)
    requires d.base.Shaped()
    ensures Observed(d, index, heard).cusum
         == CusumPositive(d.cusum, StepOf(d, index, heard).z, CROWD_CUSUM_K, 0.0).0
  {
    hide StepOf, Opened, Finished, CountNear;
  }

  lemma ExcessesStep(trusted: bool, run: seq<Input>)
    requires run != []
    ensures var zs, d := Excesses(trusted, run), Prepared(After(trusted, Front(run)), Last(run).prepared);
            && zs != [] && Front(zs) == Excesses(trusted, Front(run))
            && Last(zs) == StepOf(d, Last(run).index, Last(run).heard).z
  {
    hide StepOf, After;
  }

  lemma CusumStep(zs: seq<real>, k: real)
    requires zs != []
    ensures Cusum(zs, k) == CusumPositive(Cusum(Front(zs), k), Last(zs), k, 0.0).0
  {}

  lemma AtBoot(trusted: bool)
    ensures After(trusted, []).cusum == 0.0 && Excesses(trusted, []) == [] && Cusum([], CROWD_CUSUM_K) == 0.0
  {}

  /** The detector's accumulator is the CUSUM of the run's excesses. */
  lemma {:induction false} AccumulatorIsCusum(trusted: bool, run: seq<Input>)
    ensures After(trusted, run).cusum == Cusum(Excesses(trusted, run), 0.5)
  {
    hide StepOf, Observed, CusumPositive, Excesses, Cusum;
    if run == [] {
      AtBoot(trusted);
    } else {
      var p := Front(run);
      AccumulatorIsCusum(trusted, p);
      CusumAfter(Prepared(After(trusted, p), Last(run).prepared), Last(run).index, Last(run).heard);
      ExcessesStep(trusted, run);
      CusumStep(Excesses(trusted, run), CROWD_CUSUM_K);
    }
  }

  ghost function Level(zs: seq<real>, t: nat): real
    requires t < |zs|
  {
    Cusum(zs[..t + 1], 0.5)
  }

  ghost predicate High(zs: seq<real>, t: int) { 0 <= t < |zs| && Level(zs, t) >= 5.0 }

  ghost predicate Calm(zs: seq<real>, t: int) { 0 <= t < |zs| && Level(zs, t) == 0.0 }

  /** Window j reached the threshold and the CUSUM has not been calm since. */
  ghost predicate HighSince(zs: seq<real>, j: int) {
    High(zs, j) && forall m | j < m < |zs| :: !Calm(zs, m)
  }

  ghost predicate Alarmed(zs: seq<real>) { exists j :: HighSince(zs, j) }

  lemma LevelsOfFront(zs: seq<real>)
    requires zs != []
    ensures forall t | 0 <= t < |zs| - 1 :: High(zs, t) == High(Front(zs), t)
    ensures forall t | 0 <= t < |zs| - 1 :: Calm(zs, t) == Calm(Front(zs), t)
    ensures Level(zs, |zs| - 1) == Cusum(zs, CROWD_CUSUM_K)
  {
    hide Cusum;
    assert forall t: nat | t < |zs| - 1 :: Level(zs, t) == Level(Front(zs), t) by {
      forall t: nat | t < |zs| - 1 ensures Level(zs, t) == Level(Front(zs), t) {
        assert zs[..t + 1] == Front(zs)[..t + 1];
      }
    }
    assert zs[..|zs|] == zs;
  }

  lemma AlarmedStep(zs: seq<real>)
    requires zs != []
    ensures Alarmed(zs) <==> High(zs, |zs| - 1) || (Alarmed(Front(zs)) && !Calm(zs, |zs| - 1))
  {
    hide High, Calm;
    LevelsOfFront(zs);
    var n := |zs| - 1;
    if High(zs, n) { assert HighSince(zs, n); }
    if j :| HighSince(Front(zs), j) && !Calm(zs, n) {
      FrontIndex(zs, j);
      assert HighSince(zs, j);
    }
    if j :| HighSince(zs, j) && j != n {
      FrontIndex(zs, j);
      assert HighSince(Front(zs), j);
    }
  }

  lemma FrontIndex(zs: seq<real>, j: int)
    requires zs != []
    ensures High(Front(zs), j) ==> 0 <= j < |zs| - 1
    ensures High(zs, j) ==> 0 <= j < |zs|
  {}

  lemma AlertedAfter(d: Detector, index: int, heard: map<int, int>)
    requires d.base.Shaped()
    ensures var r := Observed(d, index, heard);
            r.alerted <==> r.cusum >= CROWD_CUSUM_H || (d.alerted && r.cusum != 0.0)
  {
    hide StepOf, Opened, Finished, CountNear;
  }

  lemma LastLevel(trusted: bool, run: seq<Input>)
    requires run != []
    ensures var zs := Excesses(trusted, run);
            && (High(zs, |zs| - 1) <==> After(trusted, run).cusum >= CROWD_CUSUM_H)
            && (Calm(zs, |zs| - 1) <==> After(trusted, run).cusum == 0.0)
  {
    hide Cusum, After, Excesses, Level;
    AccumulatorIsCusum(trusted, run);
    LevelsOfFront(Excesses(trusted, run));
  }

  /** The detector is alerted exactly while an episode that reached the
      threshold goes on. */
  lemma {:induction false} AlertedExactly(trusted: bool, run: seq<Input>)
    ensures After(trusted, run).alerted <==> Alarmed(Excesses(trusted, run))
  {
    hide Observed, Alarmed, High, Calm, Excesses;
    if run == [] {
      assert Excesses(trusted, run) == [];
      NeverAlarmed();
    } else {
      var p := Front(run);
      AlertedExactly(trusted, p);
      AlertedAfter(Prepared(After(trusted, p), Last(run).prepared), Last(run).index, Last(run).heard);
      ExcessesStep(trusted, run);
      AlarmedStep(Excesses(trusted, run));
      LastLevel(trusted, run);
    }
  }

  lemma NeverAlarmed()
    ensures !Alarmed([])
  {}

  /** One event an episode: window t raises one exactly when the CUSUM reaches
      the threshold there for the first time since it was last zero. */
  lemma EventExactly(trusted: bool, run: seq<Input>, t: nat)
    requires t < |run|
    ensures var zs := Excesses(trusted, run[..t + 1]);
            EventAt(trusted, run, t) <==> High(zs, t) && !Alarmed(Front(zs))
  {
    hide StepOf, Opened, Alarmed, Level, Cusum, Finished, CountNear;
    var p, q := run[..t], run[..t + 1];
    assert Front(q) == p;
    var zs := Excesses(trusted, q);
    assert Front(zs) == Excesses(trusted, p);
    AlertedExactly(trusted, p);
    AccumulatorIsCusum(trusted, q);
    LevelsOfFront(zs);
  }

  /** An event needs a stretch of windows since the last reset, ending now,
      whose total excess is at least h plus k a window. */
  lemma EventNeedsExcess(trusted: bool, run: seq<Input>, t: nat)
    requires t < |run| && EventAt(trusted, run, t)
    ensures var zs := Excesses(trusted, run[..t + 1]);
            exists j :: LastReset(zs, 0.5) <= j && EnoughSince(zs, 0.5, 5.0, j)
  {
    hide EventAt, EnoughSince, LastReset, Cusum, Alarmed, Excesses;
    var zs := Excesses(trusted, run[..t + 1]);
    EventExactly(trusted, run, t);
    HighMeans(zs);
    AlarmExactly(zs, CROWD_CUSUM_K, CROWD_CUSUM_H);
  }

  lemma HighMeans(zs: seq<real>)
    requires High(zs, |zs| - 1)
    ensures Cusum(zs, CROWD_CUSUM_K) >= CROWD_CUSUM_H
  {
    LevelsOfFront(zs);
  }
}
