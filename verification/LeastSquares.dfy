/** Exact facts about the least-squares slope of samples in window order. */
module LeastSquares {
  import opened Orders
  import opened Features

  ghost predicate Increasing(p: seq<Sample>) {
    forall i, j | 0 <= i < j < |p| :: p[i].index < p[j].index
  }

  /** The sum over the samples t of q of (s.index - t.index) * (s.rssi - t.rssi). */
  ghost function Cross(q: seq<Sample>, s: Sample): int {
    if q == [] then 0
    else Cross(Front(q), s) + (s.index - Last(q).index) * (s.rssi - Last(q).rssi)
  }

  /** The sum over all pairs i < j of (xj - xi) * (yj - yi). */
  ghost function PairSum(p: seq<Sample>): int {
    if p == [] then 0 else PairSum(Front(p)) + Cross(Front(p), Last(p))
  }

  /** The same samples with the index as ordinate: pairs of (xj - xi) squared. */
  ghost function OnDiagonal(p: seq<Sample>): (d: seq<Sample>)
    ensures |d| == |p|
    ensures forall k | 0 <= k < |p| :: d[k] == Sample(p[k].index, p[k].index)
  {
    seq(|p|, k requires 0 <= k < |p| => Sample(p[k].index, p[k].index))
  }

  ghost function SumXY(p: seq<Sample>): int {
    if p == [] then 0 else SumXY(Front(p)) + Last(p).index * Last(p).rssi
  }

  lemma {:induction false} CrossExpands(q: seq<Sample>, s: Sample)
    ensures Cross(q, s) == |q| * s.index * s.rssi - s.index * SumY(q) - s.rssi * SumX(q) + SumXY(q)
  {
    if q != [] {
      CrossExpands(Front(q), s);
      OneMore(|q| - 1, s.index, s.rssi, Last(q).index, Last(q).rssi, SumX(Front(q)), SumY(Front(q)), SumXY(Front(q)));
    } else {
      assert |q| * s.index * s.rssi == 0;
    }
  }

  lemma OneMore(n: int, x: int, y: int, a: int, b: int, sx: int, sy: int, sxy: int)
    ensures (n * x * y - x * sy - y * sx + sxy) + (x - a) * (y - b)
         == (n + 1) * x * y - x * (sy + b) - y * (sx + a) + (sxy + a * b)
  {
    assert (x - a) * (y - b) == x * y - x * b - a * y + a * b;
    assert (n + 1) * x * y == n * x * y + x * y;
  }

  lemma {:induction false} PairSumExpands(p: seq<Sample>)
    ensures PairSum(p) == |p| * SumXY(p) - SumX(p) * SumY(p)
  {
    if p == [] {
    } else {
      var q, s := Front(p), Last(p);
      PairSumExpands(q);
      CrossExpands(q, s);
      Telescope(|q|, SumX(q), SumY(q), SumXY(q), s.index, s.rssi);
    }
  }

  lemma Telescope(n: int, sx: int, sy: int, sxy: int, x: int, y: int)
    ensures (n * sxy - sx * sy) + (n * x * y - x * sy - y * sx + sxy)
         == (n + 1) * (sxy + x * y) - (sx + x) * (sy + y)
  {}

  ghost function Deviation(x: real, y: real, a: real, b: real): real { (x - a) * (y - b) }

  /** The co-deviation of n samples, from their sums. */
  ghost function Expanded(n: real, a: real, b: real, sx: real, sy: real, sxy: real): real {
    sxy - a * sy - b * sx + n * (a * b)
  }

  lemma OneMoreDeviation(n: real, a: real, b: real, x: real, y: real, sx: real, sy: real, sxy: real,
                         n': real, sx': real, sy': real, sxy': real)
    requires n' == n + 1.0 && sx' == sx + x && sy' == sy + y && sxy' == sxy + x * y
    ensures Expanded(n', a, b, sx', sy', sxy') == Expanded(n, a, b, sx, sy, sxy) + Deviation(x, y, a, b)
  {
    assert (x - a) * (y - b) == x * y - a * y - b * x + a * b;
    assert (n + 1.0) * (a * b) == n * (a * b) + a * b;
  }

  lemma SumsStep(p: seq<Sample>)
    requires p != []
    ensures var q, x, y := Front(p), Last(p).index as real, Last(p).rssi as real;
            && |p| as real == |q| as real + 1.0
            && SumX(p) as real == SumX(q) as real + x && SumY(p) as real == SumY(q) as real + y
            && SumXY(p) as real == SumXY(q) as real + x * y
  {
    hide Front, Last;
    RealProduct(Last(p).index, Last(p).rssi);
    RealSum(SumXY(Front(p)), Last(p).index * Last(p).rssi);
    RealSum(SumX(Front(p)), Last(p).index);
    RealSum(SumY(Front(p)), Last(p).rssi);
    FrontLength(p);
  }

  lemma RealSum(i: int, j: int)
    ensures (i + j) as real == i as real + j as real
  {}

  lemma FrontLength<T>(p: seq<T>)
    requires p != []
    ensures |p| as real == |Front(p)| as real + 1.0
  {}

  lemma CoDeviationStep(p: seq<Sample>, a: real, b: real)
    requires p != []
    ensures CoDeviation(p, a, b)
         == CoDeviation(Front(p), a, b) + Deviation(Last(p).index as real, Last(p).rssi as real, a, b)
  {}

  lemma NoDeviation(a: real, b: real)
    ensures CoDeviation([], a, b) == Expanded(0.0, a, b, SumX([]) as real, SumY([]) as real, SumXY([]) as real)
  {}

  lemma {:induction false} CoDeviationExpands(p: seq<Sample>, a: real, b: real)
    ensures CoDeviation(p, a, b) == Expanded(|p| as real, a, b, SumX(p) as real, SumY(p) as real, SumXY(p) as real)
  {
    hide SumX, SumY, SumXY, Expanded, Deviation;
    if p == [] {
      NoDeviation(a, b);
    } else {
      var q, s := Front(p), Last(p);
      CoDeviationExpands(q, a, b);
      CoDeviationStep(p, a, b);
      SumsStep(p);
      OneMoreDeviation(|q| as real, a, b, s.index as real, s.rssi as real,
                       SumX(q) as real, SumY(q) as real, SumXY(q) as real,
                       |p| as real, SumX(p) as real, SumY(p) as real, SumXY(p) as real);
    }
  }

  lemma {:induction false} SquareIsDiagonal(p: seq<Sample>, a: real)
    ensures SquareDeviation(p, a) == CoDeviation(OnDiagonal(p), a, a)
    ensures SumX(OnDiagonal(p)) == SumX(p) && SumY(OnDiagonal(p)) == SumX(p)
  {
    if p == [] {
    } else {
      assert Front(OnDiagonal(p)) == OnDiagonal(Front(p));
      SquareIsDiagonal(Front(p), a);
    }
  }

  /** About the means, n times the co-deviation is the pair sum. */
  lemma CoDeviationIsPairSum(p: seq<Sample>, a: real, b: real)
    requires |p| as real * a == SumX(p) as real && |p| as real * b == SumY(p) as real
    ensures |p| as real * CoDeviation(p, a, b) == PairSum(p) as real
  {
    hide *;
    CoDeviationExpands(p, a, b);
    AboutMeans(|p| as real, a, b, SumX(p) as real, SumY(p) as real, SumXY(p) as real, CoDeviation(p, a, b));
    PairSumReal(p);
  }

  lemma AboutMeans(n: real, a: real, b: real, sx: real, sy: real, sxy: real, co: real)
    requires n * a == sx && n * b == sy
    requires co == Expanded(n, a, b, sx, sy, sxy)
    ensures n * co == n * sxy - sx * sy
  {}

  lemma {:induction false} PairSumReal(p: seq<Sample>)
    ensures PairSum(p) as real == |p| as real * SumXY(p) as real - SumX(p) as real * SumY(p) as real
  {
    hide *;
    PairSumExpands(p);
    RealProduct(|p|, SumXY(p));
    RealProduct(SumX(p), SumY(p));
  }

  lemma Divided(n: real, x: real)
    requires n != 0.0
    ensures n * (x / n) == x
  {}

  lemma RealProduct(i: int, j: int)
    ensures (i * j) as real == i as real * j as real
  {}

  lemma {:induction false} CrossPositive(q: seq<Sample>, s: Sample)
    requires forall k | 0 <= k < |q| :: q[k].index < s.index
    ensures Cross(OnDiagonal(q), Sample(s.index, s.index)) >= |q|
  {
    if q == [] {
    } else {
      CrossPositive(Front(q), s);
      assert Front(OnDiagonal(q)) == OnDiagonal(Front(q));
      var d := s.index - Last(q).index;
      assert d * d >= 1 by { assert d >= 1; }
    }
  }

  lemma {:induction false} DiagonalPositive(p: seq<Sample>)
    requires Increasing(p)
    ensures PairSum(OnDiagonal(p)) >= 0
    ensures |p| >= 2 ==> PairSum(OnDiagonal(p)) > 0
  {
    if p == [] {
    } else {
      assert Front(OnDiagonal(p)) == OnDiagonal(Front(p));
      DiagonalPositive(Front(p));
      CrossPositive(Front(p), Last(p));
    }
  }

  /** Over strictly increasing window indexes the slope exists from two samples
      on, and is the ratio of the two pair sums. */
  lemma {:induction false} SlopeIsPairRatio(p: seq<Sample>)
    requires Increasing(p)
    ensures RssiSlope(p).Some? <==> |p| >= 2
    ensures |p| >= 2 ==> PairSum(OnDiagonal(p)) > 0 &&
                         RssiSlope(p).value * PairSum(OnDiagonal(p)) as real == PairSum(p) as real
  {
    hide PairSum, CoDeviation, SquareDeviation, SumX, SumY, Increasing;
    if |p| >= 2 {
      var n := |p| as real;
      var a, b := SumX(p) as real / n, SumY(p) as real / n;
      Divided(n, SumX(p) as real);
      Divided(n, SumY(p) as real);
      CoDeviationIsPairSum(p, a, b);
      SquareIsDiagonal(p, a);
      CoDeviationIsPairSum(OnDiagonal(p), a, a);
      DiagonalPositive(p);
      Ratio(n, CoDeviation(p, a, b), SquareDeviation(p, a), PairSum(p) as real, PairSum(OnDiagonal(p)) as real);
    }
  }

  lemma Ratio(n: real, co: real, sq: real, pxy: real, pxx: real)
    requires n > 0.0 && n * co == pxy && n * sq == pxx && pxx > 0.0
    ensures sq != 0.0 && (co / sq) * pxx == pxy
  {}

  lemma {:induction false} CrossBounded(q: seq<Sample>, s: Sample, span: int)
    requires forall k | 0 <= k < |q| :: q[k].index < s.index && -span <= s.rssi - q[k].rssi <= span
    ensures var d := Cross(OnDiagonal(q), Sample(s.index, s.index)); -span * d <= Cross(q, s) <= span * d
  {
    if q == [] {
    } else {
      CrossBounded(Front(q), s, span);
      assert Front(OnDiagonal(q)) == OnDiagonal(Front(q));
      var dx, dy := s.index - Last(q).index, s.rssi - Last(q).rssi;
      ProductBounded(dx, dy, span);
      var d := Cross(OnDiagonal(Front(q)), Sample(s.index, s.index));
      assert span * (d + dx * dx) == span * d + span * (dx * dx);
    }
  }

  lemma ProductBounded(dx: int, dy: int, span: int)
    requires dx >= 1 && -span <= dy <= span
    ensures -span * (dx * dx) <= dx * dy <= span * (dx * dx)
  {}

  lemma Distribute(x: int, d: int, e: int)
    ensures x * (d + e) == x * d + x * e
    ensures -x * (d + e) == -x * d + -x * e
  {}

  lemma {:induction false} PairSumBounded(p: seq<Sample>, span: int)
    requires Increasing(p)
    requires forall i, j | 0 <= i < |p| && 0 <= j < |p| :: p[j].rssi - p[i].rssi <= span
    ensures -span * PairSum(OnDiagonal(p)) <= PairSum(p) <= span * PairSum(OnDiagonal(p))
  {
    hide Cross;
    if p == [] {
    } else {
      assert Front(OnDiagonal(p)) == OnDiagonal(Front(p));
      PairSumBounded(Front(p), span);
      CrossBounded(Front(p), Last(p), span);
      var d, e := PairSum(OnDiagonal(Front(p))), Cross(OnDiagonal(Front(p)), Last(OnDiagonal(p)));
      Distribute(span, d, e);
    }
  }

  /** No slope is steeper than the span: |slope| <= max - min, per window. */
  lemma SlopeWithinSpan(p: seq<Sample>)
    requires Increasing(p) && |p| >= 2
    ensures RssiSlope(p).Some?
    ensures -(RssiSpan(p).value as real) <= RssiSlope(p).value <= RssiSpan(p).value as real
  {
    hide PairSum, RssiSlope, MaxRssi, MinRssi;
    SlopeIsPairRatio(p);
    var span, d := RssiSpan(p).value, PairSum(OnDiagonal(p));
    PairSumBounded(p, span);
    RealProduct(span, d);
    QuotientBounded(RssiSlope(p).value, d as real, PairSum(p) as real, span as real);
  }

  lemma QuotientBounded(q: real, d: real, s: real, bound: real)
    requires d > 0.0 && q * d == s && -(bound * d) <= s <= bound * d
    ensures -bound <= q <= bound
  {}

  lemma {:induction false} CrossSign(q: seq<Sample>, s: Sample)
    requires forall k | 0 <= k < |q| :: q[k].index < s.index
    ensures (forall k | 0 <= k < |q| :: q[k].rssi >= s.rssi) ==> Cross(q, s) <= 0
    ensures (forall k | 0 <= k < |q| :: q[k].rssi <= s.rssi) ==> Cross(q, s) >= 0
    ensures (forall k | 0 <= k < |q| :: q[k].rssi <= s.rssi) && (exists k | 0 <= k < |q| :: q[k].rssi < s.rssi) ==>
              Cross(q, s) > 0
  {
    if q == [] {
    } else {
      CrossSign(Front(q), s);
      var dx, dy := s.index - Last(q).index, s.rssi - Last(q).rssi;
      SignOfProduct(dx, dy);
    }
  }

  lemma SignOfProduct(dx: int, dy: int)
    requires dx >= 1
    ensures dy <= 0 ==> dx * dy <= 0
    ensures dy >= 0 ==> dx * dy >= 0
    ensures dy > 0 ==> dx * dy > 0
  {}

  ghost predicate Falling(p: seq<Sample>) {
    forall i, j | 0 <= i < j < |p| :: p[i].rssi >= p[j].rssi
  }

  ghost predicate Climbing(p: seq<Sample>) {
    forall i, j | 0 <= i < j < |p| :: p[i].rssi <= p[j].rssi
  }

  lemma {:induction false} PairSumSign(p: seq<Sample>)
    requires Increasing(p)
    ensures Falling(p) ==> PairSum(p) <= 0
    ensures Climbing(p) ==> PairSum(p) >= 0
    ensures Climbing(p) && p != [] && p[0].rssi < Last(p).rssi ==> PairSum(p) > 0
  {
    if p == [] {
    } else {
      PairSumSign(Front(p));
      CrossSign(Front(p), Last(p));
      if Climbing(p) && p[0].rssi < Last(p).rssi {
        assert Front(p)[0].rssi < Last(p).rssi;
      }
    }
  }

  /** The slope has the sign of its pair sum. */
  lemma SlopeSign(p: seq<Sample>)
    requires Increasing(p) && |p| >= 2
    ensures RssiSlope(p).Some? && (RssiSlope(p).value > 0.0 <==> PairSum(p) > 0)
  {
    hide *;
    SlopeIsPairRatio(p);
    SignOfQuotient(RssiSlope(p).value, PairSum(OnDiagonal(p)) as real, PairSum(p) as real);
  }

  lemma SignOfQuotient(q: real, d: real, s: real)
    requires d > 0.0 && q * d == s
    ensures q > 0.0 <==> s > 0.0
  {
    if q <= 0.0 { assert (0.0 - q) * d >= 0.0; }
  }
}
