/** approach.py: do the last eight heard samples look like an approach? */
module Approach {
  import opened Orders
  import opened Features
  import opened LeastSquares

  const APPROACH_WINDOWS: nat := 8
  const APPROACH_DELTA_DB := 18
  const APPROACH_PEAK_FLOOR_DBM := -75
  const APPROACH_FAR_START_DBM := -85
  const APPROACH_MONO_FRACTION := 0.5

  predicate IsRisingApproach(points: seq<Sample>) {
    |points| >= APPROACH_WINDOWS &&
    var rolling := Tail(points, APPROACH_WINDOWS);
    var span := RssiSpan(rolling).value;
    var slope := RssiSlope(rolling);
    && slope.Some?
    && span >= APPROACH_DELTA_DB
    && slope.value > 0.0
    && MaxRssi(rolling) >= APPROACH_PEAK_FLOOR_DBM
    && Last(rolling).rssi >= APPROACH_PEAK_FLOOR_DBM
    && MinRssi(rolling) <= APPROACH_FAR_START_DBM
    && (Last(rolling).rssi - rolling[0].rssi) as real >= span as real * APPROACH_MONO_FRACTION
  }

  /** Samples that never climb are never an approach. */
  lemma FallingNeverRises(points: seq<Sample>)
    requires Increasing(points) && Falling(Tail(points, APPROACH_WINDOWS))
    ensures !IsRisingApproach(points)
  {}

  /** On a monotone climb the trigger is exactly far start, near end and rise. */
  lemma ClimbRisesExactly(points: seq<Sample>)
    requires Increasing(points) && |points| >= APPROACH_WINDOWS
    requires Climbing(Tail(points, APPROACH_WINDOWS))
    ensures var rolling := Tail(points, APPROACH_WINDOWS);
            IsRisingApproach(points) <==>
              rolling[0].rssi <= -85 && Last(rolling).rssi >= -75 && Last(rolling).rssi - rolling[0].rssi >= 18
  {
    var rolling := Tail(points, APPROACH_WINDOWS);
    PairSumSign(rolling);
    SlopeSign(rolling);
    ClimbExtremes(rolling);
  }

  /** The trigger in plain numbers, for samples in any shape: the last eight rise
      if and only if two of them differ by 18, their pair sum is positive, the last
      is at -75 or above and some sample at -85 or below, and no two of them differ
      by more than twice the rise from first to last. */
  lemma RisesExactly(points: seq<Sample>)
    requires Increasing(points)
    ensures |points| < 8 ==> !IsRisingApproach(points)
    ensures |points| >= 8 ==>
              var p := points[|points| - 8..];
              IsRisingApproach(points) <==>
                && Differ(p, 18) && PairSum(p) > 0
                && SomeAtLeast(p, -75) && p[7].rssi >= -75 && SomeAtMost(p, -85)
                && !Differ(p, 2 * (p[7].rssi - p[0].rssi) + 1)
  {
    hide PairSum, RssiSlope, MaxRssi, MinRssi, Differ, SomeAtLeast, SomeAtMost, Increasing, RssiSpan;
    if |points| >= 8 {
      var p := points[|points| - 8..];
      SuffixIncreases(points, p);
      SlopeSign(p);
      SpanIsWidest(p, 18);
      SpanIsWidest(p, 2 * (p[7].rssi - p[0].rssi) + 1);
      ExtremesReach(p, -75);
      ExtremesReach(p, -85);
    }
  }

  lemma SuffixIncreases(points: seq<Sample>, p: seq<Sample>)
    requires Increasing(points) && |p| <= |points| && p == points[|points| - |p|..]
    ensures Increasing(p)
  {}

  lemma ClimbExtremes(p: seq<Sample>)
    requires p != [] && Climbing(p)
    ensures MinRssi(p) == p[0].rssi && MaxRssi(p) == Last(p).rssi
  {}
}
