/** crowd.py: the floored MAD and the one-sided Page CUSUM. */
module Crowd {
  import opened Orders
  import opened FeatureVectors

  const CROWD_MAD_FLOOR: real := 1.5
  const CROWD_CUSUM_K: real := 0.5
  const CROWD_CUSUM_H: real := 5.0
  const CROWD_EWMA_SPAN := 56
  const CROWD_HOUR_OF_WEEK_BUCKETS := 168
  const CROWD_ROLLING_WINDOWS := 40320
  const CROWD_COLD_START_HOURS := 168
  const CROWD_RESIDUAL_WINDOW := CROWD_EWMA_SPAN

  function EwmaAlpha(span: int): (r: Result<real, string>)
    ensures r.Ok? <==> span >= 1
    ensures r.Ok? ==> 0.0 < r.value <= 1.0 && r.value * (span + 1) as real == 2.0
  {
    if span < 1 then Err("span must be >= 1")
    else
      QuotientInUnit(2.0, (span + 1) as real);
      Ok(2.0 / (span + 1) as real)
  }

  /** (count_near, count_all): the decimal keys change neither count. */
  function CrowdCounts(heard: map<int, int>): (nat, nat) {
    var n := CountBands(heard, DEFAULT_BANDS);
    (n.countNear, n.countAll)
  }

  ghost predicate Ascending(q: seq<real>) { forall i, j | 0 <= i < j < |q| :: q[i] <= q[j] }

  function InsertReal(q: seq<real>, x: real): seq<real> {
    if q == [] || x <= q[0] then [x] + q else [q[0]] + InsertReal(q[1..], x)
  }

  function SortReals(v: seq<real>): seq<real> {
    if v == [] then [] else InsertReal(SortReals(Front(v)), Last(v))
  }

  /** statistics.median: the middle value, or the mean of the two middle ones. */
  function Median(v: seq<real>): real
    requires v != []
  {
    SortedLength(v);
    var q := SortReals(v);
    if |q| % 2 == 1 then q[|q| / 2] else (q[|q| / 2 - 1] + q[|q| / 2]) / 2.0
  }

  function Abs(x: real): real { if x < 0.0 then -x else x }

  function Deviations(v: seq<real>, m: real): seq<real> { seq(|v|, i requires 0 <= i < |v| => Abs(v[i] - m)) }

  function FlooredMad(v: seq<real>): (r: real)
    requires v != []
    ensures r >= CROWD_MAD_FLOOR
  {
    var mad := Median(Deviations(v, Median(v)));
    if mad >= CROWD_MAD_FLOOR then mad else CROWD_MAD_FLOOR
  }

  ghost function CountIf(v: seq<real>, p: real -> bool): nat {
    if v == [] then 0 else CountIf(Front(v), p) + if p(Last(v)) then 1 else 0
  }

  lemma {:induction false} CountIfHead(v: seq<real>, p: real -> bool)
    requires v != []
    ensures CountIf(v, p) == CountIf(v[1..], p) + if p(v[0]) then 1 else 0
  {
    if |v| == 1 {
    } else {
      CountIfHead(Front(v), p);
      assert Front(v)[1..] == Front(v[1..]);
    }
  }

  lemma {:induction false} InsertRealKeeps(q: seq<real>, x: real, p: real -> bool)
    requires Ascending(q)
    ensures var r := InsertReal(q, x);
            && |r| == |q| + 1 && Ascending(r) && r[0] == (if q == [] || x <= q[0] then x else q[0])
            && CountIf(r, p) == CountIf(q, p) + if p(x) then 1 else 0
  {
    var r := InsertReal(q, x);
    CountIfHead(r, p);
    if q == [] || x <= q[0] {
      assert r[1..] == q;
    } else {
      InsertRealKeeps(q[1..], x, p);
      CountIfHead(q, p);
      assert r[1..] == InsertReal(q[1..], x);
      assert Ascending(r) by {
        var t := InsertReal(q[1..], x);
        forall i | 0 <= i < |t| ensures q[0] <= t[i] {}
      }
    }
  }

  lemma {:induction false} SortRealsKeeps(v: seq<real>, p: real -> bool)
    ensures var q := SortReals(v); |q| == |v| && Ascending(q) && CountIf(q, p) == CountIf(v, p)
  {
    if v == [] {
    } else {
      SortRealsKeeps(Front(v), p);
      InsertRealKeeps(SortReals(Front(v)), Last(v), p);
    }
  }

  lemma SortedLength(v: seq<real>)
    ensures |SortReals(v)| == |v| && Ascending(SortReals(v))
  {
    SortRealsKeeps(v, x => true);
  }

  lemma {:induction false} CountRange(v: seq<real>, p: real -> bool, a: nat, b: nat)
    requires a <= b <= |v| && forall i | a <= i < b :: p(v[i])
    ensures CountIf(v, p) >= b - a
  {
    if v == [] {
    } else {
      CountRange(Front(v), p, Min(a, |v| - 1), Min(b, |v| - 1));
    }
  }

  /** The median splits the sample: at least half lie on each side of it. */
  lemma {:induction false} MedianSplits(v: seq<real>)
    requires v != []
    ensures 2 * CountIf(v, x => x <= Median(v)) >= |v|
    ensures 2 * CountIf(v, x => x >= Median(v)) >= |v|
  {
    var q, m := SortReals(v), Median(v);
    var below, above: real -> bool := x => x <= m, x => x >= m;
    SortRealsKeeps(v, below);
    SortRealsKeeps(v, above);
    MedianBetween(v);
    CountRange(q, below, 0, (|q| + 1) / 2);
    CountRange(q, above, |q| / 2, |q|);
    SameCount(v, below, x => x <= Median(v));
    SameCount(v, above, x => x >= Median(v));
  }

  lemma {:induction false} SameCount(v: seq<real>, p: real -> bool, r: real -> bool)
    requires forall x :: p(x) == r(x)
    ensures CountIf(v, p) == CountIf(v, r)
  {
    if v == [] {
    } else {
      SameCount(Front(v), p, r);
    }
  }

  lemma MedianBetween(v: seq<real>)
    requires v != []
    ensures |SortReals(v)| == |v|
    ensures var q := SortReals(v);
            && (forall i | 0 <= i < (|q| + 1) / 2 :: q[i] <= Median(v))
            && (forall i | |q| / 2 <= i < |q| :: q[i] >= Median(v))
  {
    SortedLength(v);
    var q, m := SortReals(v), Median(v);
    hide SortReals;
    var low, high := (|q| + 1) / 2 - 1, |q| / 2;
    assert q[low] <= m <= q[high];
    forall i | 0 <= i <= low ensures q[i] <= m { assert i == low || q[i] <= q[low]; }
    forall i | high <= i < |q| ensures q[i] >= m { assert i == high || q[high] <= q[i]; }
  }

  lemma {:induction false} InsertRealAdds(q: seq<real>, x: real)
    ensures multiset(InsertReal(q, x)) == multiset(q) + multiset{x}
  {
    if q == [] || x <= q[0] {
    } else {
      InsertRealAdds(q[1..], x);
      assert q == [q[0]] + q[1..];
    }
  }

  lemma {:induction false} SortRealsPermutes(v: seq<real>)
    ensures multiset(SortReals(v)) == multiset(v)
  {
    if v == [] {
    } else {
      SortRealsPermutes(Front(v));
      InsertRealAdds(SortReals(Front(v)), Last(v));
      assert v == Front(v) + [Last(v)];
    }
  }

  lemma LastIsGreatest(p: seq<real>, q: seq<real>)
    requires Ascending(p) && multiset(p) == multiset(q) && q != []
    ensures p != [] && Last(q) <= Last(p)
  {
    assert Last(q) in multiset(q);
    assert Last(q) in p;
  }

  lemma WithoutLast(p: seq<real>)
    requires p != []
    ensures multiset(Front(p)) == multiset(p) - multiset{Last(p)}
  {
    assert p == Front(p) + [Last(p)];
  }

  /** There is one ascending listing of a sample. */
  lemma {:induction false} AscendingUnique(p: seq<real>, q: seq<real>)
    requires Ascending(p) && Ascending(q) && multiset(p) == multiset(q)
    ensures p == q
    decreases |p|
  {
    if p == [] {
      if q != [] { LastIsGreatest(p, q); }
    } else {
      LastIsGreatest(q, p);
      LastIsGreatest(p, q);
      WithoutLast(p);
      WithoutLast(q);
      AscendingUnique(Front(p), Front(q));
      assert p == Front(p) + [Last(p)] && q == Front(q) + [Last(q)];
    }
  }

  /** q lists the sample v in ascending order. */
  ghost predicate InOrderOf(q: seq<real>, v: seq<real>) { Ascending(q) && multiset(q) == multiset(v) }

  /** The mean of the two middle values, which are one value in an odd sample. */
  ghost function Middle(q: seq<real>): real
    requires q != []
  {
    (q[(|q| - 1) / 2] + q[|q| / 2]) / 2.0
  }

  lemma MedianIsMiddle(v: seq<real>, q: seq<real>)
    requires v != [] && InOrderOf(q, v)
    ensures q != [] && Median(v) == Middle(q)
  {
    SortedLength(v);
    SortRealsPermutes(v);
    AscendingUnique(q, SortReals(v));
  }

  lemma DeviationsExactly(v: seq<real>, m: real, i: nat)
    requires i < |v|
    ensures |Deviations(v, m)| == |v| && Deviations(v, m)[i] == if v[i] >= m then v[i] - m else m - v[i]
  {}

  /** The scale is the middle distance from the middle value, and 1.5 at least. */
  lemma ScaleIsMiddleDistance(v: seq<real>, q: seq<real>, d: seq<real>)
    requires v != [] && q != [] && InOrderOf(q, v) && InOrderOf(d, Deviations(v, Middle(q)))
    ensures d != [] && FlooredMad(v) == if Middle(d) >= 1.5 then Middle(d) else 1.5
  {
    hide Median, Middle;
    MedianIsMiddle(v, q);
    MedianIsMiddle(Deviations(v, Middle(q)), d);
  }

  /** At least half of the residuals lie within the scale of their median, so
      the scale is never smaller than the typical deviation. */
  lemma HalfWithinScale(v: seq<real>)
    requires v != []
    ensures 2 * CountIf(v, x => Abs(x - Median(v)) <= FlooredMad(v)) >= |v|
  {
    hide Median, FlooredMad;
    var m := Median(v);
    var d := Deviations(v, m);
    ScaleIsMad(v);
    MedianSplits(d);
    CountThrough(v, m, x => x <= Median(d), x => Abs(x - Median(v)) <= FlooredMad(v));
  }

  lemma ScaleIsMad(v: seq<real>)
    requires v != []
    ensures FlooredMad(v) >= Median(Deviations(v, Median(v)))
  {
    hide Median;
  }

  lemma {:induction false} CountThrough(v: seq<real>, m: real, p: real -> bool, r: real -> bool)
    requires forall x :: p(Abs(x - m)) ==> r(x)
    ensures CountIf(Deviations(v, m), p) <= CountIf(v, r)
  {
    if v == [] {
    } else {
      CountThrough(Front(v), m, p, r);
      assert Front(Deviations(v, m)) == Deviations(Front(v), m);
    }
  }

  function CusumPositive(accumulator: real, z: real, k: real, h: real): (real, bool) {
    if z <= -k then (0.0, false)
    else
      var raised := accumulator + z - k;
      var s := if raised > 0.0 then raised else 0.0;
      (s, s >= h)
  }

  /** The accumulator after a run of standardized excesses. */
  ghost function Cusum(zs: seq<real>, k: real): real {
    if zs == [] then 0.0 else CusumPositive(Cusum(Front(zs), k), Last(zs), k, 0.0).0
  }

  /** Sum of z over j, ..., |zs| - 1. */
  ghost function SumFrom(zs: seq<real>, j: nat): real {
    if j >= |zs| then 0.0 else SumFrom(Front(zs), j) + Last(zs)
  }

  /** Sum of z - k over j, ..., |zs| - 1. */
  ghost function Excess(zs: seq<real>, k: real, j: nat): real {
    if j >= |zs| then 0.0 else Excess(Front(zs), k, j) + Last(zs) - k
  }

  /** Just after the last z at or below -k. */
  ghost function LastReset(zs: seq<real>, k: real): (r: nat)
    ensures r <= |zs|
  {
    if zs == [] then 0 else if Last(zs) <= -k then |zs| else LastReset(Front(zs), k)
  }

  /** The accumulator is the best suffix sum of z - k since the last reset, the
      empty suffix included. */
  lemma {:induction false} CusumIsBestSuffix(zs: seq<real>, k: real)
    ensures forall j | LastReset(zs, k) <= j <= |zs| :: Excess(zs, k, j) <= Cusum(zs, k)
    ensures exists j | LastReset(zs, k) <= j <= |zs| :: Excess(zs, k, j) == Cusum(zs, k)
  {
    if zs == [] {
      assert Excess(zs, k, 0) == 0.0;
    } else {
      var p, z := Front(zs), Last(zs);
      CusumIsBestSuffix(p, k);
      assert Excess(zs, k, |zs|) == 0.0;
      if z > -k {
        forall j | LastReset(p, k) <= j <= |p| ensures Excess(zs, k, j) == Excess(p, k, j) + z - k {}
        var j :| LastReset(p, k) <= j <= |p| && Excess(p, k, j) == Cusum(p, k);
        assert Excess(zs, k, j) == Cusum(p, k) + z - k;
      }
    }
  }

  lemma {:induction false} ExcessIsSum(zs: seq<real>, k: real, j: nat)
    requires j <= |zs|
    ensures Excess(zs, k, j) == SumFrom(zs, j) - k * (|zs| - j) as real
  {
    if j == |zs| {
    } else {
      ExcessIsSum(Front(zs), k, j);
      OneMore(k, (|zs| - 1 - j) as real);
    }
  }

  lemma OneMore(k: real, n: real)
    ensures k * (n + 1.0) == k * n + k
  {}

  ghost predicate EnoughSince(zs: seq<real>, k: real, h: real, j: int) {
    0 <= j < |zs| && SumFrom(zs, j) >= h + k * (|zs| - j) as real
  }

  /** The alarm condition holds exactly when some stretch of windows since the
      last reset, ending now, has a total excess of h plus k a window. */
  lemma AlarmExactly(zs: seq<real>, k: real, h: real)
    requires h > 0.0
    ensures Cusum(zs, k) >= h <==> exists j :: LastReset(zs, k) <= j && EnoughSince(zs, k, h, j)
  {
    CusumIsBestSuffix(zs, k);
    if Cusum(zs, k) >= h {
      var j :| LastReset(zs, k) <= j <= |zs| && Excess(zs, k, j) == Cusum(zs, k);
      ExcessIsSum(zs, k, j);
      assert EnoughSince(zs, k, h, j);
    }
    if j :| LastReset(zs, k) <= j && EnoughSince(zs, k, h, j) {
      ExcessIsSum(zs, k, j);
    }
  }
}
