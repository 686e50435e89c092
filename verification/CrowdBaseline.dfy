/** crowd_baseline.py's CrowdBaseline, updated in place. */
module CrowdBaselines {
  import opened Orders
  import opened Crowd
  import opened Baselines

  class CrowdBaseline {
    var installAt: Option<int>
    const seasonal: array<Option<real>>
    var rolling: seq<real>
    const seasonalResiduals: array<seq<real>>
    var rollingResiduals: seq<real>
    var backfill: seq<Held>
    var lastTrustedAt: Option<int>
    var operatingMs: int
    var episodeTier: Option<Tier>

    ghost predicate Valid() {
      seasonal.Length == CROWD_HOUR_OF_WEEK_BUCKETS == seasonalResiduals.Length
    }

    ghost function State(): (b: Baseline)
      requires Valid()
      reads this, seasonal, seasonalResiduals
      ensures b.Shaped()
    {
      Baseline(installAt, seasonal[..], rolling, seasonalResiduals[..], rollingResiduals, backfill,
               lastTrustedAt, operatingMs, episodeTier)
    }

    constructor ()
      ensures Valid() && State() == Empty() && fresh(seasonal) && fresh(seasonalResiduals)
    {
      installAt, lastTrustedAt, episodeTier := None, None, None;
      seasonal := new Option<real>[CROWD_HOUR_OF_WEEK_BUCKETS](i => None);
      seasonalResiduals := new seq<real>[CROWD_HOUR_OF_WEEK_BUCKETS](i => []);
      rolling, rollingResiduals, backfill, operatingMs := [], [], [], 0;
      new;
      assert seasonal[..] == Empty().seasonal && seasonalResiduals[..] == Empty().seasonalResiduals;
    }

    method ReanchorTrustedTime(at: int)
      requires Valid()
      modifies this
      ensures State() == Reanchored(old(State()), at)
    {
      installAt := Some(at);
      lastTrustedAt := Some(at);
      operatingMs := 0;
      backfill := [];
    }

    method NoteTrustedTime(at: int)
      requires Valid()
      modifies this
      ensures State() == Noted(old(State()), at)
    {
      if WouldReanchor(installAt, lastTrustedAt, at) {
        ReanchorTrustedTime(at);
        return;
      }
      if lastTrustedAt.Some? { operatingMs := operatingMs + (at - lastTrustedAt.value); }
      lastTrustedAt := Some(at);
      if installAt.None? { installAt := Some(at); }
    }

    method AppendSeasonalResidual(bucket: int, count: real)
      requires Valid() && 0 <= bucket < CROWD_HOUR_OF_WEEK_BUCKETS
      modifies seasonalResiduals
      ensures State() == old(WithBucket(State(), bucket, seasonal[bucket], SeasonalResidual(seasonal[bucket], count)))
    {
      seasonalResiduals[bucket] :=
        Push(seasonalResiduals[bucket], SeasonalResidual(seasonal[bucket], count), CROWD_RESIDUAL_WINDOW);
    }

    method UpdateSeasonalBucket(bucket: int, count: real)
      requires Valid() && 0 <= bucket < CROWD_HOUR_OF_WEEK_BUCKETS
      modifies seasonal
      ensures State() == old(State()).(seasonal := old(State()).seasonal[bucket := Blend(old(seasonal[bucket]), count)])
    {
      seasonal[bucket] := Blend(seasonal[bucket], count);
    }

    method DrainBackfill()
      requires Valid()
      modifies this, seasonal, seasonalResiduals
      ensures State() == Drained(old(State()))
    {
      if installAt.None? { return; }
      ghost var b, k := State(), 0;
      while backfill != []
        invariant 0 <= k <= |b.backfill| && backfill == b.backfill[k..]
        invariant State() == AbsorbedAll(b, b.backfill[..k]).(backfill := backfill)
      {
        assert Front(b.backfill[..k + 1]) == b.backfill[..k];
        var held := backfill[0];
        backfill := backfill[1..];
        k := k + 1;
        var bucket := HourOfWeek(held.at);
        AppendSeasonalResidual(bucket, held.count as real);
        UpdateSeasonalBucket(bucket, held.count as real);
      }
      assert b.backfill[..|b.backfill|] == b.backfill;
    }

    method BeginWindow(at: int, trusted: bool, inEpisode: bool)
      requires Valid()
      modifies this, seasonal, seasonalResiduals
      ensures State() == Begun(old(State()), at, trusted, inEpisode)
    {
      hide AbsorbedAll;
      if !inEpisode { episodeTier := None; }
      if trusted && !inEpisode {
        if WouldReanchor(installAt, lastTrustedAt, at) {
          ReanchorTrustedTime(at);
        } else {
          DrainBackfill();
        }
      }
    }

    method BaselineAt(count: nat, at: int, tier: Tier) returns (baseline: real)
      requires Valid()
      ensures baseline == BaselineFor(State(), count, at, tier)
    {
      if tier.Seasonal? {
        var value := seasonal[HourOfWeek(at)];
        if value.Some? { return value.value; }
      }
      baseline := RollingMeanOr(rolling, count);
    }

    method PreviewWindow(count: nat, at: int, trusted: bool, inEpisode: bool) returns (step: BaselineStep)
      requires Valid()
      ensures step == Preview(State(), count, at, trusted, inEpisode)
    {
      hide FlooredMad, RollingMeanOr;
      var tier :=
        if inEpisode && episodeTier.Some? then episodeTier.value
        else if !trusted || installAt.None? || operatingMs < CROWD_COLD_START_HOURS * HOUR_MS then Rolling
        else Seasonal;
      var baseline := BaselineAt(count, at, tier);
      var residual := count as real - baseline;
      var bucket := HourOfWeek(at);
      var values := if tier.Seasonal? && seasonal[bucket].Some? then seasonalResiduals[bucket] else rollingResiduals;
      var scale := ScaleFor(values, residual, inEpisode);
      step := BaselineStep(baseline, scale, residual / scale, tier);
    }

    method Learn(count: nat, at: int, tier: Tier)
      requires Valid()
      modifies this, seasonal, seasonalResiduals
      ensures State() == Learned(old(State()), count, at, tier)
    {
      var bucket := HourOfWeek(at);
      var baseline := BaselineAt(count, at, tier);
      if tier.Rolling? {
        rollingResiduals := Push(rollingResiduals, count as real - baseline, CROWD_RESIDUAL_WINDOW);
      }
      AppendSeasonalResidual(bucket, count as real);
      rolling := Push(rolling, count as real, CROWD_ROLLING_WINDOWS);
      UpdateSeasonalBucket(bucket, count as real);
    }

    method FinishWindow(count: nat, at: int, trusted: bool, inEpisode: bool, tier: Tier)
      requires Valid()
      modifies this, seasonal, seasonalResiduals
      ensures State() == Finished(old(State()), count, at, trusted, inEpisode, tier)
    {
      if inEpisode {
        if episodeTier.None? { episodeTier := Some(tier); }
        if trusted { NoteTrustedTime(at); }
        return;
      }
      if trusted {
        NoteTrustedTime(at);
      } else {
        backfill := backfill + [Held(at, count)];
        return;
      }
      Learn(count, at, tier);
    }
  }
}
