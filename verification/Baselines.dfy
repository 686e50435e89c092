/** What crowd_baseline.py remembers, and each step on it, as values. Times are
    milliseconds since 1970-01-01 UTC. */
module Baselines {
  import opened Orders
  import opened Features
  import opened Crowd

  const HOUR_MS := 3_600_000
  const FORWARD_JUMP_MS := CROWD_COLD_START_HOURS * HOUR_MS
  const MAX_TRUSTED_STEP_MS := 24 * HOUR_MS
  const CROWD_EWMA_ALPHA: real := EwmaAlpha(CROWD_EWMA_SPAN).value

  datatype Tier = Seasonal | Rolling

  datatype Held = Held(at: int, count: nat)

  datatype BaselineStep = BaselineStep(baseline: real, scale: real, z: real, tier: Tier)

  datatype Baseline = Baseline(
    installAt: Option<int>, seasonal: seq<Option<real>>, rolling: seq<real>,
    seasonalResiduals: seq<seq<real>>, rollingResiduals: seq<real>, backfill: seq<Held>,
    lastTrustedAt: Option<int>, operatingMs: int, episodeTier: Option<Tier>)
  {
    ghost predicate Shaped() {
      |seasonal| == CROWD_HOUR_OF_WEEK_BUCKETS == |seasonalResiduals|
    }
  }

  ghost function Empty(): (b: Baseline)
    ensures b.Shaped()
  {
    Baseline(None, seq(CROWD_HOUR_OF_WEEK_BUCKETS, i => None), [], seq(CROWD_HOUR_OF_WEEK_BUCKETS, i => []),
             [], [], None, 0, None)
  }

  /** Monday 00:00 UTC is bucket 0; 1970-01-01 was a Thursday. */
  function HourOfWeek(at: int): (bucket: int)
    ensures 0 <= bucket < CROWD_HOUR_OF_WEEK_BUCKETS
  {
    (at / HOUR_MS + 72) % CROWD_HOUR_OF_WEEK_BUCKETS
  }

  /** Monday, 5 January 1970, 00:00 UTC. */
  const FIRST_MONDAY_MS := 4 * 24 * HOUR_MS

  /** The bucket counts whole hours since some Monday midnight UTC. */
  lemma HourOfWeekExactly(at: int)
    ensures exists week: int ::
              var start := FIRST_MONDAY_MS + (168 * week + HourOfWeek(at)) * HOUR_MS;
              start <= at < start + HOUR_MS
  {
    var hours := at / HOUR_MS;
    var week := (hours + 72) / 168 - 1;
    assert FIRST_MONDAY_MS + (168 * week + HourOfWeek(at)) * HOUR_MS == hours * HOUR_MS;
  }

  function Push<T>(q: seq<T>, x: T, cap: nat): seq<T> { Tail(q + [x], cap) }

  /** The clock steps that restart the install age. */
  predicate WouldReanchor(installAt: Option<int>, lastTrustedAt: Option<int>, at: int) {
    || (lastTrustedAt.Some? &&
        var step := at - lastTrustedAt.value;
        step < 0 || step >= FORWARD_JUMP_MS || step > MAX_TRUSTED_STEP_MS)
    || (installAt.Some? && at < installAt.value)
  }

  ghost function Reanchored(b: Baseline, at: int): Baseline {
    b.(installAt := Some(at), lastTrustedAt := Some(at), operatingMs := 0, backfill := [])
  }

  ghost function Noted(b: Baseline, at: int): Baseline {
    if WouldReanchor(b.installAt, b.lastTrustedAt, at) then Reanchored(b, at)
    else
      b.(operatingMs := if b.lastTrustedAt.Some? then b.operatingMs + (at - b.lastTrustedAt.value) else b.operatingMs,
         lastTrustedAt := Some(at),
         installAt := if b.installAt.None? then Some(at) else b.installAt)
  }

  function SeasonalResidual(value: Option<real>, count: real): real {
    if value.None? then 0.0 else count - value.value
  }

  function Blend(value: Option<real>, count: real): Option<real> {
    if value.None? then Some(count) else Some(value.value + CROWD_EWMA_ALPHA * (count - value.value))
  }

  ghost function WithBucket(b: Baseline, bucket: int, value: Option<real>, residual: real): Baseline
    requires b.Shaped() && 0 <= bucket < CROWD_HOUR_OF_WEEK_BUCKETS
  {
    b.(seasonal := b.seasonal[bucket := value],
       seasonalResiduals :=
         b.seasonalResiduals[bucket := Push(b.seasonalResiduals[bucket], residual, CROWD_RESIDUAL_WINDOW)])
  }

  /** One queued sample reaches its seasonal bucket. */
  ghost function Absorbed(b: Baseline, held: Held): (r: Baseline)
    requires b.Shaped()
    ensures r.Shaped()
  {
    var bucket := HourOfWeek(held.at);
    var value := b.seasonal[bucket];
    WithBucket(b, bucket, Blend(value, held.count as real), SeasonalResidual(value, held.count as real))
  }

  ghost function AbsorbedAll(b: Baseline, queue: seq<Held>): (r: Baseline)
    requires b.Shaped()
    ensures r.Shaped()
  {
    if queue == [] then b else Absorbed(AbsorbedAll(b, Front(queue)), Last(queue))
  }

  ghost function Drained(b: Baseline): (r: Baseline)
    requires b.Shaped()
    ensures r.Shaped()
  {
    if b.installAt.None? then b else AbsorbedAll(b, b.backfill).(backfill := [])
  }

  ghost function Begun(b: Baseline, at: int, trusted: bool, inEpisode: bool): (r: Baseline)
    requires b.Shaped()
    ensures r.Shaped()
  {
    if inEpisode then b
    else
      var c := b.(episodeTier := None);
      if !trusted then c
      else if WouldReanchor(b.installAt, b.lastTrustedAt, at) then Reanchored(c, at)
      else Drained(c)
  }

  ghost function TierFor(b: Baseline, trusted: bool): Tier {
    if trusted && b.installAt.Some? && b.operatingMs >= CROWD_COLD_START_HOURS * HOUR_MS then Seasonal else Rolling
  }

  ghost function TierForPreview(b: Baseline, trusted: bool, inEpisode: bool): Tier {
    if inEpisode && b.episodeTier.Some? then b.episodeTier.value else TierFor(b, trusted)
  }

  function Sum(q: seq<real>): real { if q == [] then 0.0 else Sum(Front(q)) + Last(q) }

  function RollingMeanOr(rolling: seq<real>, count: nat): real {
    if rolling == [] then count as real else Sum(rolling) / |rolling| as real
  }

  ghost function BaselineFor(b: Baseline, count: nat, at: int, tier: Tier): real
    requires b.Shaped()
  {
    var value := b.seasonal[HourOfWeek(at)];
    if tier.Seasonal? && value.Some? then value.value else RollingMeanOr(b.rolling, count)
  }

  ghost function ResidualsFor(b: Baseline, at: int, tier: Tier): seq<real>
    requires b.Shaped()
  {
    var bucket := HourOfWeek(at);
    if tier.Seasonal? && b.seasonal[bucket].Some? then b.seasonalResiduals[bucket] else b.rollingResiduals
  }

  function ScaleFor(values: seq<real>, residual: real, inEpisode: bool): (r: real)
    ensures r >= CROWD_MAD_FLOOR
  {
    if inEpisode then (if values == [] then CROWD_MAD_FLOOR else FlooredMad(values))
    else FlooredMad(values + [residual])
  }

  ghost function Preview(b: Baseline, count: nat, at: int, trusted: bool, inEpisode: bool): BaselineStep
    requires b.Shaped()
  {
    var tier := TierForPreview(b, trusted, inEpisode);
    var baseline := BaselineFor(b, count, at, tier);
    var residual := count as real - baseline;
    var scale := ScaleFor(ResidualsFor(b, at, tier), residual, inEpisode);
    BaselineStep(baseline, scale, residual / scale, tier)
  }

  /** A trusted sample outside an episode joins both tiers. */
  ghost function Learned(b: Baseline, count: nat, at: int, tier: Tier): (r: Baseline)
    requires b.Shaped()
    ensures r.Shaped()
  {
    var residual := count as real - BaselineFor(b, count, at, tier);
    Absorbed(b, Held(at, count)).(
      rolling := Push(b.rolling, count as real, CROWD_ROLLING_WINDOWS),
      rollingResiduals :=
        if tier.Rolling? then Push(b.rollingResiduals, residual, CROWD_RESIDUAL_WINDOW) else b.rollingResiduals)
  }

  ghost function Finished(b: Baseline, count: nat, at: int, trusted: bool, inEpisode: bool, tier: Tier): (r: Baseline)
    requires b.Shaped()
    ensures r.Shaped()
  {
    if inEpisode then
      var c := b.(episodeTier := if b.episodeTier.None? then Some(tier) else b.episodeTier);
      if trusted then Noted(c, at) else c
    else if trusted then Learned(Noted(b, at), count, at, tier)
    else b.(backfill := b.backfill + [Held(at, count)])
  }
}
