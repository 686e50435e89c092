/** crowd_baseline.py's hold-and-backfill over whole runs: which samples the
    seasonal tier has learned, in which order, and when that is the order in
    which they were seen. */
module CrowdBackfill {
  import opened Orders
  import opened Features
  import opened Crowd
  import opened Baselines
  import opened CrowdDetection
  import opened CrowdRuns

  /** A sample and the window it was seen in. */
  datatype Seen = Seen(window: nat, held: Held)

  /** What became of the samples of a run: `offered` are those no episode froze,
      `learned` those the seasonal tier has learned, in the order it learned
      them, and `queued` those still held back. */
  datatype Fates = Fates(offered: seq<Seen>, learned: seq<Seen>, queued: seq<Seen>)

  function Helds(q: seq<Seen>): seq<Held> { seq(|q|, i requires 0 <= i < |q| => q[i].held) }

  ghost function SampleOf(d: Detector, index: int, heard: map<int, int>): Held {
    Held(TimeOf(d.observedAt, index), CountNear(heard))
  }

  /** A trusted clock step that restarts the install age empties the queue. */
  ghost predicate Drops(d: Detector, index: int) {
    d.trusted && WouldReanchor(d.base.installAt, d.base.lastTrustedAt, TimeOf(d.observedAt, index))
  }

  /** Any other trusted window drains the queue first, outside an episode and
      once installed. */
  ghost predicate Drains(d: Detector, index: int) {
    d.trusted && !Drops(d, index) && d.cusum <= 0.0 && d.base.installAt.Some?
  }

  /** The window ends in an episode, so its own sample is not learned. */
  ghost predicate Freezes(d: Detector, index: int, heard: map<int, int>)
    requires d.base.Shaped()
  {
    Raised(d, index, heard).0 > 0.0
  }

  ghost function NextFates(f: Fates, window: nat, d: Detector, index: int, heard: map<int, int>): Fates
    requires d.base.Shaped()
  {
    var sample := [Seen(window, SampleOf(d, index, heard))];
    var learned := if Drains(d, index) then f.learned + f.queued else f.learned;
    var queued := if Drains(d, index) || Drops(d, index) then [] else f.queued;
    if Freezes(d, index, heard) then Fates(f.offered, learned, queued)
    else if d.trusted then Fates(f.offered + sample, learned + sample, queued)
    else Fates(f.offered + sample, learned, queued + sample)
  }

  ghost function FatesAfter(trusted: bool, run: seq<Input>): Fates {
    if run == [] then Fates([], [], [])
    else
      NextFates(FatesAfter(trusted, Front(run)), |run| - 1, Prepared(After(trusted, Front(run)), Last(run).prepared),
                Last(run).index, Last(run).heard)
  }

  ghost predicate SameSeasonal(a: Baseline, b: Baseline) {
    a.seasonal == b.seasonal && a.seasonalResiduals == b.seasonalResiduals
  }

  lemma {:induction false} AbsorbingAlike(a: Baseline, b: Baseline, queue: seq<Held>)
    requires a.Shaped() && b.Shaped() && SameSeasonal(a, b)
    ensures SameSeasonal(AbsorbedAll(a, queue), AbsorbedAll(b, queue))
  {
    if queue == [] {
    } else {
      AbsorbingAlike(a, b, Front(queue));
    }
  }

  lemma {:induction false} AbsorbingInTurn(b: Baseline, p: seq<Held>, q: seq<Held>)
    requires b.Shaped()
    ensures AbsorbedAll(b, p + q) == AbsorbedAll(AbsorbedAll(b, p), q)
  {
    if q == [] {
      assert p + q == p;
    } else {
      assert Front(p + q) == p + Front(q);
      AbsorbingInTurn(b, p, Front(q));
    }
  }

  /** The samples one window brings to the seasonal tier. */
  ghost function Brought(d: Detector, index: int, heard: map<int, int>): seq<Held>
    requires d.base.Shaped()
  {
    (if Drains(d, index) then d.base.backfill else []) +
    (if d.trusted && !Freezes(d, index, heard) then [SampleOf(d, index, heard)] else [])
  }

  lemma OpeningBrings(d: Detector, index: int)
    requires d.base.Shaped()
    ensures var b, r := d.base, Opened(d, index);
            && SameSeasonal(r, AbsorbedAll(b, if Drains(d, index) then b.backfill else []))
            && r.backfill == (if Drains(d, index) || (Drops(d, index) && d.cusum <= 0.0) then [] else b.backfill)
            && (d.trusted && !(Drops(d, index) && d.cusum <= 0.0) ==>
                  r.installAt == b.installAt && r.lastTrustedAt == b.lastTrustedAt)
            && (Drops(d, index) && d.cusum <= 0.0 ==>
                  r.installAt == Some(TimeOf(d.observedAt, index)) == r.lastTrustedAt)
  {
    hide AbsorbedAll;
    var c := d.base.(episodeTier := None);
    AbsorbingKeeps(c, c.backfill);
    AbsorbingAlike(d.base, c, d.base.backfill);
    NothingAbsorbed(d.base);
  }

  lemma NothingAbsorbed(b: Baseline)
    requires b.Shaped()
    ensures AbsorbedAll(b, []) == b
  {}

  lemma ClosingBrings(b: Baseline, count: nat, at: int, trusted: bool, frozen: bool, tier: Tier)
    requires b.Shaped()
    ensures var r := Finished(b, count, at, trusted, frozen, tier);
            && SameSeasonal(r, AbsorbedAll(b, if trusted && !frozen then [Held(at, count)] else []))
            && r.backfill == (if trusted && WouldReanchor(b.installAt, b.lastTrustedAt, at) then [] else b.backfill) +
                             (if !trusted && !frozen then [Held(at, count)] else [])
  {
    hide BaselineFor, Absorbed;
    NothingAbsorbed(b);
    var held := Held(at, count);
    assert Front([held]) == [];
    assert AbsorbedAll(b, [held]) == Absorbed(b, held);
    AbsorbsAlike(Noted(b, at), b, held);
  }

  lemma AbsorbsAlike(a: Baseline, b: Baseline, held: Held)
    requires a.Shaped() && b.Shaped() && SameSeasonal(a, b)
    ensures SameSeasonal(Absorbed(a, held), Absorbed(b, held)) && Absorbed(a, held).backfill == a.backfill
  {}

  /** One window of the detector, as it touches the seasonal tier and the queue. */
  lemma WindowBrings(d: Detector, index: int, heard: map<int, int>)
    requires d.base.Shaped()
    ensures var r := Observed(d, index, heard).base;
            && SameSeasonal(r, AbsorbedAll(d.base, Brought(d, index, heard)))
            && r.backfill == (if Drains(d, index) || Drops(d, index) then [] else d.base.backfill) +
                             (if !d.trusted && !Freezes(d, index, heard) then [SampleOf(d, index, heard)] else [])
  {
    hide Opened, Finished, AbsorbedAll, StepOf, CountNear;
    var b, at := Opened(d, index), TimeOf(d.observedAt, index);
    var frozen, tier := Freezes(d, index, heard), StepOf(d, index, heard).tier;
    var first := if Drains(d, index) then d.base.backfill else [];
    var second := if d.trusted && !frozen then [Held(at, CountNear(heard))] else [];
    OpeningBrings(d, index);
    ClosingBrings(b, CountNear(heard), at, d.trusted, frozen, tier);
    AbsorbingInTurn(d.base, first, second);
    AbsorbingAlike(b, AbsorbedAll(d.base, first), second);
  }

  lemma HeldsJoin(p: seq<Seen>, q: seq<Seen>)
    ensures Helds(p + q) == Helds(p) + Helds(q)
  {}

  /** On every run the seasonal tier is exactly the learned samples absorbed into
      an empty one, in the order of learning, and the queue is the held ones. */
  lemma {:induction false} SeasonalIsWhatWasLearned(trusted: bool, run: seq<Input>)
    ensures var b, f := After(trusted, run).base, FatesAfter(trusted, run);
            && SameSeasonal(b, AbsorbedAll(Empty(), Helds(f.learned)))
            && b.backfill == Helds(f.queued)
  {
    hide Observed, AbsorbedAll, Freezes, SampleOf, Drains, Drops;
    if run == [] {
      NothingAbsorbed(Empty());
      assert Helds([]) == [];
    } else {
      var p, w := Front(run), Last(run);
      var d, f := Prepared(After(trusted, p), w.prepared), FatesAfter(trusted, p);
      SeasonalIsWhatWasLearned(trusted, p);
      LearnsBrought(f, |p|, d, w.index, w.heard);
      WindowBrings(d, w.index, w.heard);
      AbsorbingAlike(d.base, AbsorbedAll(Empty(), Helds(f.learned)), Brought(d, w.index, w.heard));
      AbsorbingInTurn(Empty(), Helds(f.learned), Brought(d, w.index, w.heard));
    }
  }

  lemma LearnsBrought(f: Fates, window: nat, d: Detector, index: int, heard: map<int, int>)
    requires d.base.Shaped() && d.base.backfill == Helds(f.queued)
    ensures var g := NextFates(f, window, d, index, heard);
            && Helds(g.learned) == Helds(f.learned) + Brought(d, index, heard)
            && Helds(g.queued) == (if Drains(d, index) || Drops(d, index) then [] else d.base.backfill) +
                                  (if !d.trusted && !Freezes(d, index, heard) then [SampleOf(d, index, heard)] else [])
  {
    hide Freezes, SampleOf, Drains, Drops, Helds;
    var sample := Seen(window, SampleOf(d, index, heard));
    HeldsJoin(f.learned, f.queued);
    HeldsJoin(f.learned + f.queued, [sample]);
    HeldsJoin(f.learned, [sample]);
    HeldsJoin(f.queued, [sample]);
    HeldsJoin([], [sample]);
    HeldOne(sample);
  }

  lemma HeldOne(sample: Seen)
    ensures Helds([sample]) == [sample.held] && Helds([]) == []
  {}

  // ------------------------------------------------------ the order of learning

  /** The window finds samples held back and either drops them, or learns its
      own before them: it ends an episode, or comes before any install. */
  ghost predicate Mishap(d: Detector, index: int, heard: map<int, int>)
    requires d.base.Shaped()
  {
    && d.base.backfill != [] && d.trusted
    && (Drops(d, index) || (!Freezes(d, index, heard) && (d.cusum > 0.0 || d.base.installAt.None?)))
  }

  ghost predicate MishapAt(trusted: bool, run: seq<Input>, t: int) {
    0 <= t < |run| && Mishap(CrowdRuns.Before(trusted, run, t), run[t].index, run[t].heard)
  }

  ghost predicate InOrder(f: Fates) { f.learned + f.queued == f.offered }

  /** Every sample is of an earlier window, and none is counted twice. */
  ghost predicate Plausible(f: Fates, windows: nat) {
    && |f.learned| + |f.queued| <= |f.offered|
    && forall i | 0 <= i < |f.queued| :: f.queued[i].window < windows
  }

  lemma {:induction false} AlwaysPlausible(trusted: bool, run: seq<Input>)
    ensures Plausible(FatesAfter(trusted, run), |run|)
  {
    hide Freezes, SampleOf, Drains, Drops, After;
    if run == [] {
    } else {
      AlwaysPlausible(trusted, Front(run));
    }
  }

  /** Order once lost is lost for good: a dropped sample never comes back, and an
      overtaken one never gets in front again. */
  lemma OrderStep(f: Fates, window: nat, d: Detector, index: int, heard: map<int, int>)
    requires d.base.Shaped() && Plausible(f, window) && (d.base.backfill == [] <==> f.queued == [])
    ensures InOrder(NextFates(f, window, d, index, heard)) <==> InOrder(f) && !Mishap(d, index, heard)
  {
    hide Freezes, SampleOf;
    var sample := Seen(window, SampleOf(d, index, heard));
    var g := NextFates(f, window, d, index, heard);
    SameEnd(f.learned + f.queued, f.offered, sample);
    SameEnd(f.learned, f.offered, sample);
    assert f.learned + [] == f.learned && f.learned + f.queued + [] == f.learned + f.queued;
    assert f.learned + (f.queued + [sample]) == f.learned + f.queued + [sample];
    assert f.learned + f.queued + [sample] + [] == f.learned + f.queued + [sample];
    assert f.learned + [sample] + [] == f.learned + [sample];
    if f.queued == [] {
      assert f.learned + f.queued == f.learned;
      assert f.learned + [sample] + f.queued == f.learned + [sample];
    } else {
      assert Last(f.learned + [sample] + f.queued) == Last(f.queued);
      assert Last(f.offered + [sample]) == sample;
      assert |f.learned| < |f.offered|;
    }
  }

  lemma SameEnd(p: seq<Seen>, q: seq<Seen>, sample: Seen)
    ensures p + [sample] == q + [sample] <==> p == q
  {
    if p + [sample] == q + [sample] {
      assert p == Front(p + [sample]) && q == Front(q + [sample]);
    }
  }

  lemma MishapsOfFront(trusted: bool, run: seq<Input>, t: int)
    requires run != []
    ensures t < |run| - 1 ==> (MishapAt(trusted, run, t) <==> MishapAt(trusted, Front(run), t))
    ensures MishapAt(trusted, run, |run| - 1)
       <==> Mishap(Prepared(After(trusted, Front(run)), Last(run).prepared), Last(run).index, Last(run).heard)
  {
    hide Mishap, After;
    assert Front(run) == run[..|run| - 1];
    if 0 <= t < |run| - 1 { assert Front(run)[..t] == run[..t]; }
  }

  /** Hold-and-backfill keeps every unfrozen sample, in the order it was seen, if
      and only if no window with samples held back re-anchors on a trusted clock,
      ends an episode on one, or is the first trusted one. */
  lemma {:induction false} LearnedInOrderExactly(trusted: bool, run: seq<Input>)
    ensures InOrder(FatesAfter(trusted, run)) <==> forall t :: !MishapAt(trusted, run, t)
  {
    hide InOrder, Mishap, NextFates, After;
    if run == [] {
      assert InOrder(Fates([], [], [])) by { EmptyInOrder(); }
    } else {
      var p, w := Front(run), Last(run);
      var d, f := Prepared(After(trusted, p), w.prepared), FatesAfter(trusted, p);
      LearnedInOrderExactly(trusted, p);
      AlwaysPlausible(trusted, p);
      SeasonalIsWhatWasLearned(trusted, p);
      OrderStep(f, |p|, d, w.index, w.heard);
      MishapsOfFront(trusted, run, |p|);
      forall t ensures t < |p| ==> (MishapAt(trusted, run, t) <==> MishapAt(trusted, p, t)) {
        MishapsOfFront(trusted, run, t);
      }
    }
  }

  lemma EmptyInOrder()
    ensures InOrder(Fates([], [], []))
  {}

  /** Then draining what is still held leaves the seasonal tier as if every
      unfrozen sample had been learned in the window that saw it. */
  lemma DrainingCatchesUp(trusted: bool, run: seq<Input>)
    requires forall t :: !MishapAt(trusted, run, t)
    ensures var b := After(trusted, run).base;
            SameSeasonal(AbsorbedAll(b, b.backfill), AbsorbedAll(Empty(), Helds(FatesAfter(trusted, run).offered)))
  {
    hide After, FatesAfter, AbsorbedAll, MishapAt, Helds;
    var b, f := After(trusted, run).base, FatesAfter(trusted, run);
    LearnedInOrderExactly(trusted, run);
    SeasonalIsWhatWasLearned(trusted, run);
    HeldsJoin(f.learned, f.queued);
    AbsorbingInTurn(Empty(), Helds(f.learned), Helds(f.queued));
    AbsorbingAlike(b, AbsorbedAll(Empty(), Helds(f.learned)), b.backfill);
  }

  // ---------------------------------------------------------- the rolling tier

  /** The counts of the trusted windows no episode froze, oldest first. */
  ghost function LiveCounts(trusted: bool, run: seq<Input>): seq<real> {
    if run == [] then []
    else
      var d, w := Prepared(After(trusted, Front(run)), Last(run).prepared), Last(run);
      LiveCounts(trusted, Front(run)) +
      (if d.trusted && !Freezes(d, w.index, w.heard) then [CountNear(w.heard) as real] else [])
  }

  lemma WindowRolls(d: Detector, index: int, heard: map<int, int>)
    requires d.base.Shaped()
    ensures Observed(d, index, heard).base.rolling ==
            if d.trusted && !Freezes(d, index, heard)
            then Push(d.base.rolling, CountNear(heard) as real, CROWD_ROLLING_WINDOWS) else d.base.rolling
  {
    hide AbsorbedAll, BaselineFor, Absorbed, StepOf, CountNear, Push;
    var c := d.base.(episodeTier := None);
    AbsorbingKeeps(c, c.backfill);
    AbsorbedRolls(Noted(Opened(d, index), TimeOf(d.observedAt, index)), SampleOf(d, index, heard));
  }

  lemma AbsorbedRolls(b: Baseline, held: Held)
    requires b.Shaped()
    ensures Absorbed(b, held).rolling == b.rolling
  {}

  lemma TailOfPush(q: seq<real>, x: real, n: nat)
    requires n > 0
    ensures Push(Tail(q, n), x, n) == Tail(q + [x], n)
  {}

  /** On every run the rolling tier is the last 40320 counts of the trusted,
      unfrozen windows: untrusted windows never reach it, not even on a drain. */
  lemma {:induction false} RollingIsWhatWasTrusted(trusted: bool, run: seq<Input>)
    ensures After(trusted, run).base.rolling == Tail(LiveCounts(trusted, run), 40320)
  {
    hide Observed, Freezes, CountNear, Tail, Push;
    if run == [] {
      NothingRolls();
    } else {
      var p, w := Front(run), Last(run);
      RollingIsWhatWasTrusted(trusted, p);
      WindowRolls(Prepared(After(trusted, p), w.prepared), w.index, w.heard);
      TailOfPush(LiveCounts(trusted, p), CountNear(w.heard) as real, CROWD_ROLLING_WINDOWS);
      assert LiveCounts(trusted, p) + [] == LiveCounts(trusted, p);
    }
  }

  lemma NothingRolls()
    ensures Empty().rolling == Tail([], CROWD_ROLLING_WINDOWS)
  {}

  /** The clock is not trusted at boot and no window's context trusts it. */
  ghost predicate NeverTrusted(trusted: bool, run: seq<Input>) {
    !trusted && forall k | 0 <= k < |run| :: TrustsNot(run[k])
  }

  ghost predicate TrustsNot(w: Input) { w.prepared.Some? ==> w.prepared.value.trusted != Some(true) }

  /** So a detector whose clock is never trusted learns no baseline at all and
      never alerts, whatever the occupancy. */
  lemma {:induction false} NeverTrustedNeverAlerts(trusted: bool, run: seq<Input>)
    requires NeverTrusted(trusted, run)
    ensures var d := After(trusted, run); !d.trusted && d.base.rolling == [] && d.cusum == 0.0
    ensures forall t :: !EventAt(trusted, run, t)
  {
    hide Fires, Observed, CountNear;
    if run == [] {
    } else {
      var p, w := Front(run), Last(run);
      assert TrustsNot(w);
      NeverTrustedNeverAlerts(trusted, p);
      UntrustedStep(Prepared(After(trusted, p), w.prepared), w.index, w.heard);
      forall t | EventAt(trusted, run, t) ensures EventAt(trusted, p, t) { EarlierEvents(trusted, run, t); }
    }
  }

  lemma UntrustedStep(d: Detector, index: int, heard: map<int, int>)
    requires d.base.Shaped() && !d.trusted && d.base.rolling == [] && d.cusum == 0.0
    ensures var r := Observed(d, index, heard); !r.trusted && r.base.rolling == [] && r.cusum == 0.0
    ensures !Fires(d, index, heard)
  {
    hide CountNear, StepOf;
    FirstCountsAreFlat(d, index, heard);
  }

  // -------------------------------------------------------- a sample overtaken

  /** With nothing rolling yet the count is its own baseline, so z is zero. */
  lemma FirstCountsAreFlat(d: Detector, index: int, heard: map<int, int>)
    requires d.base.Shaped() && d.cusum == 0.0 && Opened(d, index).rolling == []
    requires TierFor(Opened(d, index), d.trusted) == Rolling
    ensures StepOf(d, index, heard).tier == Rolling && Raised(d, index, heard) == (0.0, false)
  {
    hide Opened, FlooredMad, CountNear;
    ZeroQuotient(StepOf(d, index, heard).scale);
  }

  lemma ZeroQuotient(scale: real)
    requires scale > 0.0
    ensures 0.0 / scale == 0.0
  {}

  function Given(at: int, trusted: bool, index: int, heard: map<int, int>): Input {
    Input(Some(Preparation(at, Some(trusted))), index, heard)
  }

  /** One sample seen before the clock was ever trusted. */
  lemma HoldsTheFirst(boot: bool, at: int, index: int, heard: map<int, int>)
    ensures var d := After(boot, [Given(at, false, index, heard)]);
            d.cusum == 0.0 && d.base == Empty().(backfill := [Held(at, CountNear(heard))])
  {
    hide Raised, StepOf, CountNear;
    var w := Given(at, false, index, heard);
    assert Front([w]) == [];
    var d := Prepared(Fresh(boot), w.prepared);
    FirstCountsAreFlat(d, index, heard);
    assert [] + [Held(at, CountNear(heard))] == [Held(at, CountNear(heard))];
  }

  /** The first trusted window learns its own sample and still holds the earlier one. */
  lemma LearnsTheSecond(boot: bool, at0: int, i0: int, h0: map<int, int>, at1: int, i1: int, h1: map<int, int>)
    ensures var d := After(boot, [Given(at0, false, i0, h0), Given(at1, true, i1, h1)]);
            && d.cusum == 0.0 && d.base.backfill == [Held(at0, CountNear(h0))]
            && d.base.installAt == Some(at1) == d.base.lastTrustedAt
            && d.base.seasonal[HourOfWeek(at1)] == Some(CountNear(h1) as real)
  {
    hide Raised, StepOf, CountNear, BaselineFor;
    var v, w := Given(at0, false, i0, h0), Given(at1, true, i1, h1);
    assert Front([v, w]) == [v];
    HoldsTheFirst(boot, at0, i0, h0);
    var d := Prepared(After(boot, [v]), w.prepared);
    FirstCountsAreFlat(d, i1, h1);
  }

  /** So a sample held before the first trusted window is learned after it: two
      counts of one hour leave their bucket as in-order learning would if and
      only if they are the same count. */
  lemma FirstTrustedOvertakes(boot: bool, at0: int, i0: int, h0: map<int, int>, at1: int, i1: int, h1: map<int, int>,
                              at2: int, i2: int, h2: map<int, int>)
    requires HourOfWeek(at0) == HourOfWeek(at1) && at1 <= at2 <= at1 + 24 * HOUR_MS
    ensures var run := [Given(at0, false, i0, h0), Given(at1, true, i1, h1), Given(at2, true, i2, h2)];
            var drained := Opened(CrowdRuns.Before(boot, run, 2), i2);
            var prompt := AbsorbedAll(Empty(), [Held(at0, CountNear(h0)), Held(at1, CountNear(h1))]);
            && MishapAt(boot, run, 1)
            && (drained.seasonal[HourOfWeek(at0)] == prompt.seasonal[HourOfWeek(at0)] <==>
                  CountNear(h0) == CountNear(h1))
  {
    hide After, CountNear, Raised, Freezes;
    var run := [Given(at0, false, i0, h0), Given(at1, true, i1, h1), Given(at2, true, i2, h2)];
    var first, second := Held(at0, CountNear(h0)), Held(at1, CountNear(h1));
    assert run[..1] == [run[0]] && run[..2] == [run[0], run[1]];
    HoldsTheFirst(boot, at0, i0, h0);
    LearnsTheSecond(boot, at0, i0, h0, at1, i1, h1);
    FirstIsNotFrozen(boot, at0, i0, h0, at1, i1, h1);
    assert Front([first, second]) == [first] && Front([first]) == [];
    NothingAbsorbed(Empty());
    assert AbsorbedAll(Empty(), [first]) == Absorbed(Empty(), first);
    assert AbsorbedAll(Empty(), [first, second]) == Absorbed(Absorbed(Empty(), first), second);
    var b := After(boot, run[..2]).base.(episodeTier := None);
    assert AbsorbedAll(b, [first]) == Absorbed(b, first);
  }

  lemma FirstIsNotFrozen(boot: bool, at0: int, i0: int, h0: map<int, int>, at1: int, i1: int, h1: map<int, int>)
    ensures var d := Prepared(After(boot, [Given(at0, false, i0, h0)]), Given(at1, true, i1, h1).prepared);
            !Freezes(d, i1, h1)
  {
    hide Raised, StepOf, CountNear, After;
    HoldsTheFirst(boot, at0, i0, h0);
    FirstCountsAreFlat(Prepared(After(boot, [Given(at0, false, i0, h0)]), Given(at1, true, i1, h1).prepared), i1, h1);
  }
}
