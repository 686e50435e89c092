/** crowd_detector.py: the baseline feeding a CUSUM, one event an episode. */
module CrowdDetection {
  import opened Orders
  import opened FeatureVectors
  import opened Crowd
  import opened Baselines
  import opened CrowdBaselines

  const REPLAY_EPOCH_MS := 1_767_225_600_000
  const WINDOW_PERIOD_MS := 15_000

  datatype CrowdEvent = CrowdEvent(windowIndex: int, count: nat, countAll: nat, contributors: seq<int>)

  datatype Detector = Detector(base: Baseline, cusum: real, alerted: bool, trusted: bool, observedAt: Option<int>)

  function CountNear(heard: map<int, int>): nat { CrowdCounts(heard).0 }

  function TimeOf(observedAt: Option<int>, index: int): int {
    if observedAt.Some? then observedAt.value else REPLAY_EPOCH_MS + index * WINDOW_PERIOD_MS
  }

  ghost function Opened(d: Detector, index: int): (b: Baseline)
    requires d.base.Shaped()
    ensures b.Shaped()
  {
    Begun(d.base, TimeOf(d.observedAt, index), d.trusted, d.cusum > 0.0)
  }

  ghost function StepOf(d: Detector, index: int, heard: map<int, int>): BaselineStep
    requires d.base.Shaped()
  {
    Preview(Opened(d, index), CountNear(heard), TimeOf(d.observedAt, index), d.trusted, d.cusum > 0.0)
  }

  ghost function Raised(d: Detector, index: int, heard: map<int, int>): (real, bool)
    requires d.base.Shaped()
  {
    CusumPositive(d.cusum, StepOf(d, index, heard).z, CROWD_CUSUM_K, CROWD_CUSUM_H)
  }

  ghost predicate Fires(d: Detector, index: int, heard: map<int, int>)
    requires d.base.Shaped()
  {
    var (cusum, fired) := Raised(d, index, heard);
    fired && !(d.alerted && cusum != 0.0)
  }

  ghost function Observed(d: Detector, index: int, heard: map<int, int>): (r: Detector)
    requires d.base.Shaped()
    ensures r.base.Shaped()
  {
    var cusum := Raised(d, index, heard).0;
    var base := Finished(Opened(d, index), CountNear(heard), TimeOf(d.observedAt, index), d.trusted, cusum > 0.0,
                         StepOf(d, index, heard).tier);
    Detector(base, cusum, (d.alerted && cusum != 0.0) || Fires(d, index, heard), d.trusted, None)
  }

  /** The ids heard at or above the near edge, each once, in ascending order. */
  ghost predicate IsRoster(q: seq<int>, heard: map<int, int>) {
    && (forall i, j | 0 <= i < j < |q| :: q[i] < q[j])
    && (forall id :: id in q <==> id in heard && heard[id] >= -70)
  }

  lemma RosterSize(q: seq<int>, heard: map<int, int>)
    requires IsRoster(q, heard)
    ensures |q| == CountNear(heard)
  {
    DistinctCount(q);
    assert Elements(q) == AtLeast(heard, DEFAULT_BANDS.near);
  }

  method NearContributors(heard: map<int, int>) returns (q: seq<int>)
    ensures IsRoster(q, heard)
  {
    q := SortIds(AtLeast(heard, DEFAULT_BANDS.near));
  }

  class CrowdDetector {
    const baseline: CrowdBaseline
    var cusum: real
    var alerted: bool
    var trusted: bool
    var observedAt: Option<int>

    ghost predicate Valid() { baseline.Valid() }

    ghost function State(): (d: Detector)
      requires Valid()
      reads this, baseline, baseline.seasonal, baseline.seasonalResiduals
      ensures d.base.Shaped()
    {
      Detector(baseline.State(), cusum, alerted, trusted, observedAt)
    }

    constructor (trusted: bool := true)
      ensures Valid() && State() == Fresh(trusted)
    {
      baseline := new CrowdBaseline();
      cusum, alerted, observedAt := 0.0, false, None;
      this.trusted := trusted;
    }

    method PrepareWindow(at: int, trusted: Option<bool>)
      requires Valid()
      modifies this
      ensures State() == Prepared(old(State()), Some(Preparation(at, trusted)))
    {
      observedAt := Some(at);
      if trusted.Some? { this.trusted := trusted.value; }
    }

    /** The roster mismatch error cannot arise; a firing window's event carries
        this window's counts and its roster. */
    method Observe(index: int, heard: map<int, int>) returns (r: Result<seq<CrowdEvent>, string>)
      requires Valid()
      modifies this, baseline, baseline.seasonal, baseline.seasonalResiduals
      ensures State() == Observed(old(State()), index, heard)
      ensures r.Ok?
      ensures |r.value| == if Fires(old(State()), index, heard) then 1 else 0
      ensures forall e | e in r.value ::
                && e.windowIndex == index && e.count == CountNear(heard) && e.countAll == |heard|
                && IsRoster(e.contributors, heard) && |e.contributors| == e.count
    {
      hide Preview, Begun, Finished;
      var (near, all) := CrowdCounts(heard);
      var at := TimeOf(observedAt, index);
      var inEpisode := cusum > 0.0;
      baseline.BeginWindow(at, trusted, inEpisode);
      var step := baseline.PreviewWindow(near, at, trusted, inEpisode);
      var (raised, fired) := CusumPositive(cusum, step.z, CROWD_CUSUM_K, CROWD_CUSUM_H);
      cusum := raised;
      baseline.FinishWindow(near, at, trusted, cusum > 0.0, step.tier);
      observedAt := None;
      if cusum == 0.0 { alerted := false; }
      if !fired || alerted { return Ok([]); }
      var contributors := NearContributors(heard);
      RosterSize(contributors, heard);
      if near != |contributors| { return Err("count_near must match contributor roster size"); }
      alerted := true;
      r := Ok([CrowdEvent(index, near, all, contributors)]);
    }
  }

  datatype Preparation = Preparation(at: int, trusted: Option<bool>)

  ghost function Fresh(trusted: bool): Detector { Detector(Empty(), 0.0, false, trusted, None) }

  ghost function Prepared(d: Detector, p: Option<Preparation>): Detector {
    if p.None? then d
    else
      d.(observedAt := Some(p.value.at),
         trusted := if p.value.trusted.Some? then p.value.trusted.value else d.trusted)
  }
}
