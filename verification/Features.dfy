/** features.py: identities heard in a window, least squares and span. */
module Features {
  import opened Orders

  datatype Advertisement = Advertisement(address: Identity, rssi: int)

  /** `heard` is keyed by the decimal device id, as crowd and replay key it. */
  datatype DetectionWindow = DetectionWindow(index: nat, advertisements: seq<Advertisement>, heard: map<Identity, int>)

  datatype Source = Advertisements | Heard | Other(name: string)

  datatype Sample = Sample(index: int, rssi: int)

  /** The trailing at most n elements: Python's `p[-n:]`. */
  function Tail<T>(p: seq<T>, n: nat): (r: seq<T>) {
    if |p| <= n then p else p[|p| - n..]
  }

  /** A suffix of p, and as long as n and p allow. */
  lemma TailIsSuffix<T>(p: seq<T>, n: nat)
    ensures var r := Tail(p, n); |r| <= |p| && |r| == Min(|p|, n) && forall k | 0 <= k < |r| :: r[k] == p[|p| - |r| + k]
  {}

  function BestRssi(ads: seq<Advertisement>): map<Identity, int> {
    if ads == [] then map[]
    else
      var best := BestRssi(Front(ads));
      var ad := Last(ads);
      if ad.address !in best || ad.rssi > best[ad.address] then best[ad.address := ad.rssi] else best
  }

  /** BestRssi is each address's maximum, and lists no other address. */
  lemma {:induction false} BestRssiIsMaximum(ads: seq<Advertisement>, a: Identity)
    ensures a in BestRssi(ads) <==> exists k :: 0 <= k < |ads| && ads[k].address == a
    ensures a in BestRssi(ads) ==>
              (forall k | 0 <= k < |ads| && ads[k].address == a :: ads[k].rssi <= BestRssi(ads)[a])
    ensures a in BestRssi(ads) ==> Advertisement(a, BestRssi(ads)[a]) in ads
  {
    if ads == [] {
    } else {
      BestRssiIsMaximum(Front(ads), a);
      assert ads == Front(ads) + [Last(ads)];
    }
  }

  function HeardIn(window: DetectionWindow, source: Source): map<Identity, int> {
    if source.Advertisements? then BestRssi(window.advertisements) else window.heard
  }

  method MaxRssiByIdentity(window: DetectionWindow, source: Source)
    returns (r: Result<map<Identity, int>, string>)
    ensures r.Ok? <==> !source.Other?
    ensures r.Ok? ==> r.value == HeardIn(window, source)
    ensures source.Heard? ==> r == Ok(window.heard)
  {
    match source
    case Advertisements =>
      var out: map<Identity, int> := map[];
      for k := 0 to |window.advertisements|
        invariant out == BestRssi(window.advertisements[..k])
      {
        var ad := window.advertisements[k];
        assert Front(window.advertisements[..k + 1]) == window.advertisements[..k];
        if ad.address !in out || ad.rssi > out[ad.address] {
          out := out[ad.address := ad.rssi];
        }
      }
      assert window.advertisements[..|window.advertisements|] == window.advertisements;
      r := Ok(out);
    case Heard =>
      r := Ok(window.heard);
    case Other(name) =>
      r := Err("unknown feature source");
  }

  function SumX(p: seq<Sample>): int {
    if p == [] then 0 else SumX(Front(p)) + Last(p).index
  }

  function SumY(p: seq<Sample>): int {
    if p == [] then 0 else SumY(Front(p)) + Last(p).rssi
  }

  /** The sum of (index - a) * (rssi - b), and of (index - a) squared. */
  function CoDeviation(p: seq<Sample>, a: real, b: real): real {
    if p == [] then 0.0
    else CoDeviation(Front(p), a, b) + (Last(p).index as real - a) * (Last(p).rssi as real - b)
  }

  function SquareDeviation(p: seq<Sample>, a: real): real {
    if p == [] then 0.0
    else SquareDeviation(Front(p), a) + (Last(p).index as real - a) * (Last(p).index as real - a)
  }

  /** Ordinary least squares, as computed from the two means. */
  function RssiSlope(p: seq<Sample>): Option<real> {
    var n := |p| as real;
    if |p| < 2 then None
    else
      var xMean := SumX(p) as real / n;
      var yMean := SumY(p) as real / n;
      var denom := SquareDeviation(p, xMean);
      if denom == 0.0 then None else Some(CoDeviation(p, xMean, yMean) / denom)
  }

  function MaxRssi(p: seq<Sample>): (m: int)
    requires p != []
    ensures forall k | 0 <= k < |p| :: p[k].rssi <= m
    ensures exists k | 0 <= k < |p| :: p[k].rssi == m
  {
    if |p| == 1 then p[0].rssi else Max(MaxRssi(Front(p)), Last(p).rssi)
  }

  function MinRssi(p: seq<Sample>): (m: int)
    requires p != []
    ensures forall k | 0 <= k < |p| :: m <= p[k].rssi
    ensures exists k | 0 <= k < |p| :: p[k].rssi == m
  {
    if |p| == 1 then p[0].rssi else Min(MinRssi(Front(p)), Last(p).rssi)
  }

  function RssiSpan(p: seq<Sample>): Option<int> {
    if p == [] then None else Some(MaxRssi(p) - MinRssi(p))
  }

  /** Two of the samples differ by n or more. */
  ghost predicate Differ(p: seq<Sample>, n: int) {
    exists i, j | 0 <= i < |p| && 0 <= j < |p| :: p[j].rssi - p[i].rssi >= n
  }

  ghost predicate SomeAtLeast(p: seq<Sample>, rssi: int) { exists i | 0 <= i < |p| :: p[i].rssi >= rssi }

  ghost predicate SomeAtMost(p: seq<Sample>, rssi: int) { exists i | 0 <= i < |p| :: p[i].rssi <= rssi }

  /** The span is the widest difference of two samples. */
  lemma SpanIsWidest(p: seq<Sample>, n: int)
    requires p != []
    ensures RssiSpan(p).Some? && (Differ(p, n) <==> RssiSpan(p).value >= n)
  {
    var i :| 0 <= i < |p| && p[i].rssi == MinRssi(p);
    var j :| 0 <= j < |p| && p[j].rssi == MaxRssi(p);
    assert p[j].rssi - p[i].rssi == RssiSpan(p).value;
  }

  lemma ExtremesReach(p: seq<Sample>, rssi: int)
    requires p != []
    ensures SomeAtLeast(p, rssi) <==> MaxRssi(p) >= rssi
    ensures SomeAtMost(p, rssi) <==> MinRssi(p) <= rssi
  {}
}
