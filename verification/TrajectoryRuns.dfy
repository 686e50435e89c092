/** What the bounded online tracker keeps on every run, and when it agrees with
    the unbounded offline batch. */
module TrajectoryRuns {
  import opened Orders
  import opened Features
  import opened Approach
  import opened Visits
  import opened FeatureVectors

  /** A run never holds more than `cap` live tracks. */
  lemma {:induction false} RunWithinCap(cap: int, fade: int, h: seq<Hearing>)
    requires cap >= 1
    ensures |VisitsAfter(cap, fade, h)| <= cap
  {
    if h == [] {
    } else {
      RunWithinCap(cap, fade, Front(h));
      NextWithinCap(cap, fade, VisitsAfter(cap, fade, Front(h)), Last(h));
    }
  }

  /** The samples held in the deques of these tracks. */
  ghost function SamplesHeld(visits: VisitMap, live: set<Identity>): nat
    requires live <= visits.Keys
  {
    if live == {} then 0
    else
      var i :| i in live;
      |Tail(visits[i], APPROACH_WINDOWS)| + SamplesHeld(visits, live - {i})
  }

  lemma {:induction false} EightSamplesEach(visits: VisitMap, live: set<Identity>)
    requires live <= visits.Keys
    ensures SamplesHeld(visits, live) <= 8 * |live|
  {
    if live == {} {
    } else {
      var i :| i in live &&
        SamplesHeld(visits, live) == |Tail(visits[i], APPROACH_WINDOWS)| + SamplesHeld(visits, live - {i});
      EightSamplesEach(visits, live - {i});
      assert |Tail(visits[i], APPROACH_WINDOWS)| <= 8;
      assert |live| == |live - {i}| + 1;
    }
  }

  /** Memory is bounded by cap times eight samples, on every run. */
  lemma SamplesWithinCap(cap: int, fade: int, h: seq<Hearing>)
    requires cap >= 1
    ensures var v := VisitsAfter(cap, fade, h); SamplesHeld(v, v.Keys) <= 8 * cap
  {
    hide VisitsAfter;
    var v := VisitsAfter(cap, fade, h);
    RunWithinCap(cap, fade, h);
    MapCount(v);
    EightSamplesEach(v, v.Keys);
  }

  /** A track heard this window survives it and gains this window's sample. */
  lemma HeardTracksStay(cap: int, fade: int, visits: VisitMap, w: Hearing, i: Identity)
    requires i in visits && i in w.current
    ensures i in Next(cap, fade, visits, w)
    ensures Next(cap, fade, visits, w)[i] == visits[i] + [Sample(w.index, w.current[i])]
  {}

  /** The order `(key, identity)` of two integer keys. */
  ghost predicate ComesFirst(x: int, a: Identity, y: int, b: Identity) {
    x < y || (x == y && Alphabetic(a, b) && a != b)
  }

  /** Whoever is evicted for room was heard before any idle survivor, or in the
      same window and comes first by identity; and exactly the overflow, or every
      idle track, goes. */
  lemma EvictionIsFair(cap: int, v: VisitMap, w: Hearing, gone: Identity, kept: Identity)
    requires forall i | i in v :: v[i] != []
    requires gone in Victims(cap, v, w) && kept in Unheard(v, w) - Victims(cap, v, w)
    ensures ComesFirst(Last(v[gone]).index, gone, Last(v[kept]).index, kept)
    ensures |Victims(cap, v, w)| == Overflow(cap, v, w)
  {
    var key := LastIndexes(v);
    ByKeyIsTotalOrder(key);
    LowestComeFirst(Unheard(v, w), ByKey(key), Overflow(cap, v, w), gone, kept);
    LowestByKey(Unheard(v, w), key, Overflow(cap, v, w));
    assert Victims(cap, v, w) != Unheard(v, w);
  }

  /** Whoever is refused was weaker than any admitted newcomer, or as strong and
      comes later by identity. */
  lemma AdmissionIsFair(cap: int, v: VisitMap, w: Hearing, admitted: Identity, refused: Identity)
    requires admitted in Admitted(cap, v, w) && refused in Newcomers(v, w) - Admitted(cap, v, w)
    ensures ComesFirst(-w.current[admitted], admitted, -w.current[refused], refused)
  {
    var key := Negated(w.current);
    ByKeyIsTotalOrder(key);
    LowestComeFirst(Newcomers(v, w), ByKey(key), cap - |Roomy(cap, v, w)|, admitted, refused);
  }

  /** A visit is the latest part of everything heard from that identity, so the
      tracker's deque is the last eight samples of the visit. */
  lemma {:induction false} VisitIsSuffix(cap: int, fade: int, h: seq<Hearing>, i: Identity)
    ensures var v := VisitsAfter(cap, fade, h);
            i in v ==> v[i] != [] && |v[i]| <= |Hearings(h, i)| &&
                       v[i] == Hearings(h, i)[|Hearings(h, i)| - |v[i]|..]
  {
    hide Next;
    if h == [] {
    } else {
      var visits, w := VisitsAfter(cap, fade, Front(h)), Last(h);
      VisitIsSuffix(cap, fade, Front(h), i);
      NextAt(cap, fade, visits, w, i);
      var v := if i in visits then visits[i] else [];
      SuffixGrows(Hearings(Front(h), i), v, if i in w.current then [Sample(w.index, w.current[i])] else []);
    }
  }

  lemma SuffixGrows(s: seq<Sample>, v: seq<Sample>, more: seq<Sample>)
    requires |v| <= |s| && v == s[|s| - |v|..]
    ensures v + more == (s + more)[|s + more| - |v + more|..]
  {}

  /** The three fates of one identity in one window. */
  lemma NextAt(cap: int, fade: int, visits: VisitMap, w: Hearing, i: Identity)
    ensures var next := Next(cap, fade, visits, w);
            i in next ==>
              if i in w.current
              then next[i] == (if i in visits then visits[i] else []) + [Sample(w.index, w.current[i])]
              else i in visits && next[i] == visits[i] && (visits[i] == [] || w.index - Last(visits[i]).index < fade)
  {
    hide Roomy, Admitted;
    var v := Unfaded(fade, visits, w);
    RoomIsTaken(cap, v, w);
  }

  /** Only newcomers are admitted, and making room rewrites no visit. */
  lemma RoomIsTaken(cap: int, v: VisitMap, w: Hearing)
    ensures Admitted(cap, v, w) <= Newcomers(v, w)
    ensures forall i | i in Roomy(cap, v, w) :: i in v && Roomy(cap, v, w)[i] == v[i]
  {
    hide Lowest, ByKey;
    LowestByKey(Newcomers(v, w), Negated(w.current), cap - |Roomy(cap, v, w)|);
  }

  ghost function Everyone(h: seq<Hearing>): set<Identity> {
    if h == [] then {} else Everyone(Front(h)) + Last(h).current.Keys
  }

  /** One identity's visit when only fading ends visits. */
  ghost function FadingVisit(fade: int, h: seq<Hearing>, i: Identity): seq<Sample> {
    if h == [] then []
    else
      var v := FadingVisit(fade, Front(h), i);
      var w := Last(h);
      if i in w.current then v + [Sample(w.index, w.current[i])]
      else if v != [] && w.index - Last(v).index >= fade then []
      else v
  }

  ghost predicate JustFading(fade: int, h: seq<Hearing>, visits: VisitMap, i: Identity) {
    var v := FadingVisit(fade, h, i);
    if v == [] then i !in visits else i in visits && visits[i] == v
  }

  lemma NoOverflowStep(cap: int, fade: int, visits: VisitMap, w: Hearing)
    requires |visits.Keys + w.current.Keys| <= cap
    ensures var v := Unfaded(fade, visits, w);
            Next(cap, fade, visits, w) == Extended(v, Newcomers(v, w), w)
  {
    hide *;
    var v := Unfaded(fade, visits, w);
    UnfadedKeys(fade, visits, w);
    NoOverflow(cap, v, visits, w);
    NextIs(cap, fade, visits, w);
    NobodyEvicted(cap, v, w);
    EveryoneAdmitted(cap, v, w);
  }

  lemma UnfadedKeys(fade: int, visits: VisitMap, w: Hearing)
    ensures Unfaded(fade, visits, w).Keys <= visits.Keys
  {}

  lemma NobodyEvicted(cap: int, v: VisitMap, w: Hearing)
    requires Overflow(cap, v, w) <= 0
    ensures Roomy(cap, v, w) == v
  {
    RoomyIs(cap, v, w);
  }

  lemma EveryoneAdmitted(cap: int, v: VisitMap, w: Hearing)
    requires |Newcomers(v, w)| <= cap - |Roomy(cap, v, w)|
    ensures Admitted(cap, v, w) == Newcomers(v, w)
  {
    hide Lowest, Roomy, Newcomers, ByKey, Negated, Admitted;
    AdmittedIs(cap, v, w);
    LowestByKey(Newcomers(v, w), Negated(w.current), cap - |Roomy(cap, v, w)|);
  }

  lemma NoOverflow(cap: int, v: VisitMap, visits: VisitMap, w: Hearing)
    requires v.Keys <= visits.Keys && |visits.Keys + w.current.Keys| <= cap
    ensures Overflow(cap, v, w) <= 0 && |Newcomers(v, w)| <= cap - |v|
  {
    MapCount(v);
    DisjointCount(v.Keys, Newcomers(v, w));
    Smaller(v.Keys + Newcomers(v, w), visits.Keys + w.current.Keys);
  }

  lemma JustFadingStep(fade: int, h: seq<Hearing>, visits: VisitMap, w: Hearing, i: Identity)
    requires JustFading(fade, h, visits, i)
    ensures var v := Unfaded(fade, visits, w);
            JustFading(fade, h + [w], Extended(v, Newcomers(v, w), w), i)
  {
    assert Front(h + [w]) == h;
  }

  /** With no more identities than the cap, only fading ends visits. */
  lemma {:induction false} FewJustFade(cap: int, fade: int, h: seq<Hearing>, i: Identity)
    requires |Everyone(h)| <= cap
    ensures JustFading(fade, h, VisitsAfter(cap, fade, h), i)
  {
    hide Next, Everyone;
    if h == [] {
      assert FadingVisit(fade, h, i) == [];
    } else {
      var p, w := Front(h), Last(h);
      EveryoneGrows(h);
      FewJustFade(cap, fade, p, i);
      RunKeys(cap, fade, p);
      FewStep(cap, fade, p, VisitsAfter(cap, fade, p), w, i);
      assert p + [w] == h;
    }
  }

  lemma EveryoneGrows(h: seq<Hearing>)
    requires h != []
    ensures Everyone(h) == Everyone(Front(h)) + Last(h).current.Keys && |Everyone(Front(h))| <= |Everyone(h)|
  {
    Smaller(Everyone(Front(h)), Everyone(h));
  }

  lemma FewStep(cap: int, fade: int, p: seq<Hearing>, visits: VisitMap, w: Hearing, i: Identity)
    requires |Everyone(p) + w.current.Keys| <= cap && visits.Keys <= Everyone(p)
    requires JustFading(fade, p, visits, i)
    ensures JustFading(fade, p + [w], Next(cap, fade, visits, w), i)
  {
    hide Next, JustFading, Everyone;
    Smaller(visits.Keys + w.current.Keys, Everyone(p) + w.current.Keys);
    NoOverflowStep(cap, fade, visits, w);
    JustFadingStep(fade, p, visits, w, i);
  }

  lemma {:induction false} RunKeys(cap: int, fade: int, h: seq<Hearing>)
    ensures VisitsAfter(cap, fade, h).Keys <= Everyone(h)
  {
    hide Next;
    if h == [] {
    } else {
      RunKeys(cap, fade, Front(h));
      NextKeys(cap, fade, VisitsAfter(cap, fade, Front(h)), Last(h));
    }
  }

  lemma NextKeys(cap: int, fade: int, visits: VisitMap, w: Hearing)
    ensures Next(cap, fade, visits, w).Keys <= visits.Keys + w.current.Keys
  {}

  /** Some window found the identity unheard for `fade` indexes or more. */
  ghost predicate FadedOut(fade: int, h: seq<Hearing>, i: Identity) {
    exists t | 0 < t < |h| :: FadesAt(fade, h, i, t)
  }

  ghost predicate FadesAt(fade: int, h: seq<Hearing>, i: Identity, t: int)
    requires 0 < t < |h|
  {
    var s := Hearings(h[..t], i);
    i !in h[t].current && s != [] && h[t].index - Last(s).index >= fade
  }

  lemma FadedOutStep(fade: int, h: seq<Hearing>, i: Identity)
    requires |h| >= 2
    ensures FadedOut(fade, h, i) <==> FadedOut(fade, Front(h), i) || FadesAt(fade, h, i, |h| - 1)
  {
    assert forall t | 0 < t < |h| - 1 :: Front(h)[..t] == h[..t];
    if FadedOut(fade, Front(h), i) {
      var t :| 0 < t < |h| - 1 && FadesAt(fade, Front(h), i, t);
      assert FadesAt(fade, h, i, t);
    }
    if FadedOut(fade, h, i) {
      var t :| 0 < t < |h| && FadesAt(fade, h, i, t);
      assert t < |h| - 1 ==> FadesAt(fade, Front(h), i, t);
    }
  }

  /** The fading visit is the whole history until the first fade, and strictly
      shorter ever after. */
  lemma {:induction false} FadingVisitLength(fade: int, h: seq<Hearing>, i: Identity)
    requires fade >= 1
    ensures var v, s := FadingVisit(fade, h, i), Hearings(h, i);
            && |v| <= |s|
            && v == s[|s| - |v|..]
            && (if FadedOut(fade, h, i) then |v| < |s| else v == s)
  {
    if |h| >= 2 {
      FadingVisitLength(fade, Front(h), i);
      FadedOutStep(fade, h, i);
      assert Front(h) == h[..|h| - 1];
    } else if |h| == 1 {
      assert Front(h) == [];
    }
  }

  /** The online row and the offline row show the same identity alike. */
  ghost predicate Matches(on: AddressTrajectory, off: IdentityFeatures) {
    && on.identity == off.identity && on.maxRssi == off.maxRssi && on.slope == off.slope && on.span == off.span
    && on.dwell == off.dwell && on.firstSeenIndex == off.firstSeenIndex
    && on.windowsSeen == off.windowsSeen && on.ageWindows == off.ageWindows
  }

  /** Online refines offline: with no more identities than the cap, a heard
      identity always has a row, and that row is the offline one if and only if
      no window has yet faded the identity out. */
  lemma OnlineMatchesOffline(cap: int, fade: int, h: seq<Hearing>, i: Identity)
    requires fade >= 1 && h != [] && i in Last(h).current
    requires |Everyone(h)| <= cap
    ensures i in VisitsAfter(cap, fade, h) && VisitsAfter(cap, fade, h)[i] != [] && Hearings(h, i) != []
    ensures Matches(RowOf(i, VisitsAfter(cap, fade, h)[i]), IdentityRow(h, i, APPROACH_WINDOWS))
            <==> !FadedOut(fade, h, i)
  {
    hide VisitsAfter, FadedOut, FadingVisit, RssiSlope, RssiSpan, MinRssi, Streak, IsRisingApproach, Hearings;
    HeardIsHearing(h, i);
    HeardIsInVisit(fade, h, i);
    FewJustFade(cap, fade, h, i);
    FadingVisitLength(fade, h, i);
  }

  lemma HeardIsHearing(h: seq<Hearing>, i: Identity)
    requires h != [] && i in Last(h).current
    ensures Hearings(h, i) != []
  {}

  lemma HeardIsInVisit(fade: int, h: seq<Hearing>, i: Identity)
    requires h != [] && i in Last(h).current
    ensures FadingVisit(fade, h, i) != []
  {}

  ghost predicate ShortGaps(fade: int, s: seq<Sample>) {
    forall k | 0 < k < |s| :: s[k].index - s[k - 1].index <= fade
  }

  /** Gaps between consecutive hearings of at most `fade` never fade. */
  lemma ShortGapsNeverFade(fade: int, h: seq<Hearing>, i: Identity)
    requires Ordered(h) && h != [] && i in Last(h).current
    requires ShortGaps(fade, Hearings(h, i))
    ensures !FadedOut(fade, h, i)
  {
    if FadedOut(fade, h, i) {
      var t :| 0 < t < |h| && FadesAt(fade, h, i, t);
      GapAcrossFade(fade, h, i, t);
    }
  }

  lemma GapAcrossFade(fade: int, h: seq<Hearing>, i: Identity, t: nat)
    requires Ordered(h) && 0 < t < |h| && i in Last(h).current && FadesAt(fade, h, i, t)
    ensures var s := Hearings(h, i); exists k | 0 < k < |s| :: s[k].index - s[k - 1].index > fade
  {
    LaterHearings(h, i, t);
    var s, p := Hearings(h, i), Hearings(h[..t], i);
    assert s[|p| - 1] == Last(p);
    assert s[|p|].index > h[t].index;
  }

  /** Hearings up to window t, then hearings from window t on. */
  lemma {:induction false} LaterHearings(h: seq<Hearing>, i: Identity, t: nat)
    requires Ordered(h) && t < |h| && i !in h[t].current
    ensures var p, s := Hearings(h[..t], i), Hearings(h, i);
            |p| <= |s| && p == s[..|p|] && forall k | |p| <= k < |s| :: s[k].index > h[t].index
    ensures i in Last(h).current ==> |Hearings(h[..t], i)| < |Hearings(h, i)|
  {
    if t == |h| - 1 {
      assert h[..t] == Front(h);
    } else {
      LaterHearings(Front(h), i, t);
      assert Front(h)[..t] == h[..t];
      HearingsIncrease(h, i);
    }
  }

  /** Row for row: if nobody heard this window has faded out, the online result
      and the offline vector list the same identities with the same values. */
  lemma RowsMatch(cap: int, fade: int, h: seq<Hearing>, on: seq<AddressTrajectory>,
                  off: WindowFeatures, bands: BandEdges)
    requires fade >= 1 && h != [] && |Everyone(h)| <= cap
    requires RowsOf(on, VisitsAfter(cap, fade, h), Last(h))
    requires IsVector(off, h, APPROACH_WINDOWS, bands)
    requires forall i | i in Last(h).current :: !FadedOut(fade, h, i)
    ensures |on| == |off.identities|
    ensures forall k | 0 <= k < |on| :: Matches(on[k], off.identities[k])
  {
    hide RowOf, IdentityRow, FadedOut, VisitsAfter, Everyone, Alphabetic;
    var current := Last(h).current.Keys;
    var p := seq(|on|, k requires 0 <= k < |on| => on[k].identity);
    var q := seq(|off.identities|, k requires 0 <= k < |off.identities| => off.identities[k].identity);
    OnlineIdentities(cap, fade, h, on, p);
    AlphabeticIsTotalOrder();
    ListingUnique(p, q, current, Alphabetic);
    forall k | 0 <= k < |on| ensures Matches(on[k], off.identities[k]) {
      assert on[k] in on && p[k] == q[k];
      OnlineMatchesOffline(cap, fade, h, on[k].identity);
    }
  }

  /** So if no gap between consecutive hearings exceeds `fade`, the bounded
      tracker shows what the unbounded batch shows. */
  lemma OnlineRefinesOffline(cap: int, fade: int, h: seq<Hearing>, on: seq<AddressTrajectory>,
                             off: WindowFeatures, bands: BandEdges)
    requires Ordered(h) && fade >= 1 && h != [] && |Everyone(h)| <= cap
    requires RowsOf(on, VisitsAfter(cap, fade, h), Last(h)) && IsVector(off, h, APPROACH_WINDOWS, bands)
    requires forall i | i in Last(h).current :: ShortGaps(fade, Hearings(h, i))
    ensures |on| == |off.identities|
    ensures forall k | 0 <= k < |on| :: Matches(on[k], off.identities[k])
  {
    hide RowsOf, IsVector, Everyone, VisitsAfter, FadedOut, Ordered;
    forall i | i in Last(h).current ensures !FadedOut(fade, h, i) { ShortGapsNeverFade(fade, h, i); }
    RowsMatch(cap, fade, h, on, off, bands);
  }

  lemma OnlineIdentities(cap: int, fade: int, h: seq<Hearing>, on: seq<AddressTrajectory>, p: seq<Identity>)
    requires fade >= 1 && h != [] && |Everyone(h)| <= cap
    requires RowsOf(on, VisitsAfter(cap, fade, h), Last(h))
    requires |p| == |on| && forall k | 0 <= k < |on| :: p[k] == on[k].identity
    ensures Sorts(p, Last(h).current.Keys, Alphabetic)
  {
    hide VisitsAfter, Everyone, Alphabetic, MinRssi, Streak, IsRisingApproach, RssiSlope, RssiSpan, Tail, IdentityRow;
    var current := Last(h).current;
    forall i | i in p ensures i in current {
      var k :| 0 <= k < |p| && p[k] == i;
      assert on[k] in on;
    }
    forall i | i in current ensures i in p {
      OnlineMatchesOffline(cap, fade, h, i);
      var k :| 0 <= k < |on| && on[k] == RowOf(i, VisitsAfter(cap, fade, h)[i]);
      assert p[k] == i;
    }
  }
}
