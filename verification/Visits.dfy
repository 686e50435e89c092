/** What the trajectory tracker should remember: each identity's current visit. */
module Visits {
  import opened Orders
  import opened Features
  import opened Approach

  /** One window as the tracker sees it: best RSSI by identity. */
  datatype Hearing = Hearing(index: int, current: map<Identity, int>)

  type VisitMap = map<Identity, seq<Sample>>

  datatype AddressTrajectory = AddressTrajectory(
    identity: Identity, maxRssi: int, slope: Option<real>, span: int, dwell: nat, visitMin: int,
    firstSeenIndex: int, windowsSeen: nat, ageWindows: int, rising: bool)

  /** The length of the run of consecutive window indexes that ends a visit. */
  function Streak(visit: seq<Sample>): nat {
    if visit == [] then 0
    else if |visit| >= 2 && Last(Front(visit)).index == Last(visit).index - 1 then 1 + Streak(Front(visit))
    else 1
  }

  /** The row a visit shows, read off all of its samples. */
  function RowOf(identity: Identity, visit: seq<Sample>): AddressTrajectory
    requires visit != []
  {
    var rolling := Tail(visit, APPROACH_WINDOWS);
    AddressTrajectory(
      identity, Last(visit).rssi, RssiSlope(rolling), RssiSpan(rolling).value, Streak(visit), MinRssi(visit),
      visit[0].index, |visit|, Last(visit).index - visit[0].index + 1, IsRisingApproach(rolling))
  }

  function LastIndexes(visits: VisitMap): map<Identity, int> {
    map i | i in visits && visits[i] != [] :: Last(visits[i]).index
  }

  function Negated(current: map<Identity, int>): map<Identity, int> {
    map i | i in current :: -current[i]
  }

  /** Identities unheard for at least `fade` indexes are dropped. */
  ghost function Unfaded(fade: int, visits: VisitMap, w: Hearing): VisitMap {
    map i | i in visits && (i in w.current || visits[i] == [] || w.index - Last(visits[i]).index < fade) :: visits[i]
  }

  ghost function Unheard(visits: VisitMap, w: Hearing): set<Identity> { visits.Keys - w.current.Keys }

  ghost function Newcomers(visits: VisitMap, w: Hearing): set<Identity> { w.current.Keys - visits.Keys }

  ghost function Overflow(cap: int, visits: VisitMap, w: Hearing): int {
    |visits| + |Newcomers(visits, w)| - cap
  }

  /** Evicted for room: as many as overflow, the least recently heard first. */
  ghost function Victims(cap: int, visits: VisitMap, w: Hearing): set<Identity> {
    Lowest(Unheard(visits, w), ByKey(LastIndexes(visits)), Overflow(cap, visits, w))
  }

  ghost function Roomy(cap: int, visits: VisitMap, w: Hearing): VisitMap { visits - Victims(cap, visits, w) }

  /** Admitted: as many newcomers as there is room for, the strongest first. */
  ghost function Admitted(cap: int, visits: VisitMap, w: Hearing): set<Identity> {
    Lowest(Newcomers(visits, w), ByKey(Negated(w.current)), cap - |Roomy(cap, visits, w)|)
  }

  ghost function Extended(visits: VisitMap, admitted: set<Identity>, w: Hearing): VisitMap {
    map i | i in visits.Keys + admitted ::
      (if i in visits then visits[i] else []) + (if i in w.current then [Sample(w.index, w.current[i])] else [])
  }

  ghost function Next(cap: int, fade: int, visits: VisitMap, w: Hearing): VisitMap {
    var v := Unfaded(fade, visits, w);
    Extended(Roomy(cap, v, w), Admitted(cap, v, w), w)
  }

  ghost predicate Ordered(h: seq<Hearing>) {
    forall i, j | 0 <= i < j < |h| :: h[i].index < h[j].index
  }

  /** The live visits after a run. */
  ghost function VisitsAfter(cap: int, fade: int, h: seq<Hearing>): VisitMap {
    if h == [] then map[] else Next(cap, fade, VisitsAfter(cap, fade, Front(h)), Last(h))
  }

  ghost predicate RowsOf(rows: seq<AddressTrajectory>, visits: VisitMap, w: Hearing) {
    && InIdentityOrder(rows)
    && (forall i :: i in visits && i in w.current && visits[i] != [] ==> RowOf(i, visits[i]) in rows)
    && (forall r | r in rows :: r.identity in visits && r.identity in w.current &&
                                visits[r.identity] != [] && r == RowOf(r.identity, visits[r.identity]))
  }

  ghost function Pushed(visits: VisitMap, i: Identity, sample: Sample, admitted: bool): VisitMap {
    if i in visits then visits[i := visits[i] + [sample]]
    else if admitted then visits[i := [sample]]
    else visits
  }

  /** Extended, with only the first k identities pushed. */
  ghost function PartlyExtended(visits: VisitMap, admitted: set<Identity>, w: Hearing,
                                ids: seq<Identity>, k: nat): VisitMap
    requires k <= |ids| && forall j | 0 <= j < |ids| :: ids[j] in w.current
  {
    if k == 0 then visits
    else
      var id := ids[k - 1];
      Pushed(PartlyExtended(visits, admitted, w, ids, k - 1), id, Sample(w.index, w.current[id]), id in admitted)
  }

  ghost predicate Among(ids: seq<Identity>, k: nat, i: Identity) { exists j | 0 <= j < k && j < |ids| :: ids[j] == i }

  lemma {:induction false} PartlyExtendedAt(visits: VisitMap, admitted: set<Identity>, w: Hearing,
                                            ids: seq<Identity>, k: nat, i: Identity)
    requires k <= |ids| && Distinct(ids) && forall j | 0 <= j < |ids| :: ids[j] in w.current
    ensures var p := PartlyExtended(visits, admitted, w, ids, k);
            && (i in p <==> i in visits || (i in admitted && Among(ids, k, i)))
            && (i in p ==> p[i] == (if i in visits then visits[i] else []) +
                                   (if Among(ids, k, i) then [Sample(w.index, w.current[i])] else []))
  {
    if k == 0 {
    } else {
      PartlyExtendedAt(visits, admitted, w, ids, k - 1, i);
      assert Among(ids, k, i) <==> Among(ids, k - 1, i) || ids[k - 1] == i;
    }
  }

  /** The rows of the first k identities listed, skipping the refused. */
  ghost function RowsUpTo(ids: seq<Identity>, k: nat, visits: VisitMap): seq<AddressTrajectory>
    requires k <= |ids|
  {
    if k == 0 then []
    else
      var id := ids[k - 1];
      RowsUpTo(ids, k - 1, visits) + (if id in visits && visits[id] != [] then [RowOf(id, visits[id])] else [])
  }

  lemma {:induction false} RowsUpToMembers(ids: seq<Identity>, k: nat, visits: VisitMap)
    requires k <= |ids|
    ensures forall r :: r in RowsUpTo(ids, k, visits) <==>
              Among(ids, k, r.identity) && r.identity in visits && visits[r.identity] != [] &&
              r == RowOf(r.identity, visits[r.identity])
  {
    if k == 0 {
    } else {
      RowsUpToMembers(ids, k - 1, visits);
      forall i ensures Among(ids, k, i) <==> Among(ids, k - 1, i) || ids[k - 1] == i {}
    }
  }

  ghost predicate InIdentityOrder(rows: seq<AddressTrajectory>) {
    forall i, j | 0 <= i < j < |rows| ::
      Alphabetic(rows[i].identity, rows[j].identity) && rows[i].identity != rows[j].identity
  }

  lemma {:induction false} RowsUpToOrdered(ids: seq<Identity>, k: nat, visits: VisitMap)
    requires k <= |ids| && Distinct(ids) && SortedBy(ids, Alphabetic)
    ensures InIdentityOrder(RowsUpTo(ids, k, visits))
  {
    hide Alphabetic, MinRssi, Streak, IsRisingApproach, RssiSlope, RssiSpan, Tail;
    if k == 0 {
    } else {
      RowsUpToOrdered(ids, k - 1, visits);
      RowsUpToMembers(ids, k - 1, visits);
      var q := RowsUpTo(ids, k - 1, visits);
      var id := ids[k - 1];
      forall n | 0 <= n < |q| ensures Alphabetic(q[n].identity, id) && q[n].identity != id {
        assert q[n] in q;
        var j :| 0 <= j < k - 1 && ids[j] == q[n].identity;
      }
    }
  }

  lemma PushedIsFinal(visits: VisitMap, admitted: set<Identity>, w: Hearing, ids: seq<Identity>, k: nat)
    requires k < |ids| && Distinct(ids) && forall j | 0 <= j < |ids| :: ids[j] in w.current
    ensures var p, e := PartlyExtended(visits, admitted, w, ids, k + 1), Extended(visits, admitted, w);
            (ids[k] in p <==> ids[k] in e) && (ids[k] in e ==> p[ids[k]] == e[ids[k]])
  {
    PartlyExtendedAt(visits, admitted, w, ids, k + 1, ids[k]);
    assert Among(ids, k + 1, ids[k]);
  }

  lemma {:induction false} AllPushed(visits: VisitMap, admitted: set<Identity>, w: Hearing, ids: seq<Identity>)
    requires Sorts(ids, w.current.Keys, Alphabetic) && admitted <= w.current.Keys
    requires forall j | 0 <= j < |ids| :: ids[j] in w.current
    ensures PartlyExtended(visits, admitted, w, ids, |ids|) == Extended(visits, admitted, w)
  {
    forall i ensures i in PartlyExtended(visits, admitted, w, ids, |ids|) <==> i in Extended(visits, admitted, w)
             ensures i in Extended(visits, admitted, w) ==>
                       PartlyExtended(visits, admitted, w, ids, |ids|)[i] == Extended(visits, admitted, w)[i]
    {
      PartlyExtendedAt(visits, admitted, w, ids, |ids|, i);
      assert Among(ids, |ids|, i) <==> i in ids;
    }
  }

  lemma RowsUpToExact(visits: VisitMap, admitted: set<Identity>, w: Hearing, ids: seq<Identity>)
    requires Sorts(ids, w.current.Keys, Alphabetic)
    ensures var v := Extended(visits, admitted, w); RowsOf(RowsUpTo(ids, |ids|, v), v, w)
  {
    var v := Extended(visits, admitted, w);
    RowsUpToMembers(ids, |ids|, v);
    RowsUpToOrdered(ids, |ids|, v);
    forall i ensures i in w.current <==> Among(ids, |ids|, i) { assert i in ids <==> i in w.current; }
  }

  lemma SizesSplit(visits: VisitMap, gone: set<Identity>)
    requires gone <= visits.Keys
    ensures |visits - gone| == |visits| - |gone|
  {}

  /** Evicting for room leaves room for every newcomer or no idle track. */
  lemma RoomLeft(cap: int, visits: VisitMap, w: Hearing)
    requires |visits| <= cap
    ensures Roomy(cap, visits, w).Keys <= visits.Keys
    ensures var room := cap - |Roomy(cap, visits, w)|;
            && 0 <= room
            && (Overflow(cap, visits, w) <= 0 ==> Victims(cap, visits, w) == {} && |Newcomers(visits, w)| <= room)
            && (Overflow(cap, visits, w) > 0 ==>
                  || |Newcomers(visits, w)| == room
                  || (Victims(cap, visits, w) == Unheard(visits, w) && room < |Newcomers(visits, w)|))
  {
    var victims, overflow := Victims(cap, visits, w), Overflow(cap, visits, w);
    LowestByKey(Unheard(visits, w), LastIndexes(visits), overflow);
    SizesSplit(visits, victims);
    if overflow > |Unheard(visits, w)| {
      Smaller(Unheard(visits, w), visits.Keys);
    }
  }

  lemma AdmittedCount(cap: int, visits: VisitMap, w: Hearing)
    requires |Roomy(cap, visits, w)| <= cap
    ensures |Admitted(cap, visits, w)| == Min(|Newcomers(visits, w)|, cap - |Roomy(cap, visits, w)|)
  {
    hide Lowest, Roomy, Victims, ByKey, Negated, Admitted, Overflow, Unheard, Newcomers;
    AdmittedIs(cap, visits, w);
    LowestByKey(Newcomers(visits, w), Negated(w.current), cap - |Roomy(cap, visits, w)|);
  }

  lemma AdmittedAreNew(cap: int, visits: VisitMap, w: Hearing)
    ensures Roomy(cap, visits, w).Keys !! Admitted(cap, visits, w)
  {}

  lemma ExtendedCount(visits: VisitMap, admitted: set<Identity>, w: Hearing)
    requires visits.Keys !! admitted
    ensures |Extended(visits, admitted, w)| == |visits| + |admitted|
  {
    MapCount(visits);
    MapCount(Extended(visits, admitted, w));
    assert Extended(visits, admitted, w).Keys == visits.Keys + admitted;
    DisjointCount(visits.Keys, admitted);
  }

  lemma AdmissionCount(cap: int, visits: VisitMap, w: Hearing)
    requires |visits| <= cap
    ensures var kept := Roomy(cap, visits, w);
            |Extended(kept, Admitted(cap, visits, w), w)| == |kept| + Min(|Newcomers(visits, w)|, cap - |kept|)
  {
    hide *;
    RoomLeft(cap, visits, w);
    AdmittedCount(cap, visits, w);
    AdmittedAreNew(cap, visits, w);
    ExtendedCount(Roomy(cap, visits, w), Admitted(cap, visits, w), w);
  }

  /** The live set never exceeds the cap, and an overflowing window fills it. */
  lemma NextWithinCap(cap: int, fade: int, visits: VisitMap, w: Hearing)
    requires |visits| <= cap
    ensures |Next(cap, fade, visits, w)| <= cap
    ensures Overflow(cap, Unfaded(fade, visits, w), w) > 0 ==> |Next(cap, fade, visits, w)| == cap
  {
    hide Unfaded, Roomy, Victims, Extended, Admitted, Newcomers, Unheard;
    var v := Unfaded(fade, visits, w);
    UnfadedWithin(fade, visits, w);
    RoomLeft(cap, v, w);
    SizesAfterVictims(cap, v, w);
    AdmissionCount(cap, v, w);
  }

  lemma SizesAfterVictims(cap: int, visits: VisitMap, w: Hearing)
    ensures Victims(cap, visits, w) == {} ==> |Roomy(cap, visits, w)| == |visits|
  {}

  lemma VisitsStep(cap: int, fade: int, h: seq<Hearing>, w: Hearing)
    ensures VisitsAfter(cap, fade, h + [w]) == Next(cap, fade, VisitsAfter(cap, fade, h), w)
  {
    assert Front(h + [w]) == h;
  }

  lemma UnfadedWithin(fade: int, visits: VisitMap, w: Hearing)
    ensures |Unfaded(fade, visits, w)| <= |visits|
  {
    MapCount(visits);
    MapCount(Unfaded(fade, visits, w));
    Smaller(Unfaded(fade, visits, w).Keys, visits.Keys);
  }

  lemma NextIs(cap: int, fade: int, visits: VisitMap, w: Hearing)
    ensures var v := Unfaded(fade, visits, w);
            Next(cap, fade, visits, w) == Extended(Roomy(cap, v, w), Admitted(cap, v, w), w)
  {}

  lemma RoomyIs(cap: int, visits: VisitMap, w: Hearing)
    ensures Roomy(cap, visits, w)
         == visits - Lowest(visits.Keys - w.current.Keys, ByKey(LastIndexes(visits)), Overflow(cap, visits, w))
    ensures Overflow(cap, visits, w) <= 0 ==> Roomy(cap, visits, w) == visits
    ensures Overflow(cap, visits, w) == |visits| + |w.current.Keys - visits.Keys| - cap
  {
    LowestByKey(Unheard(visits, w), LastIndexes(visits), Overflow(cap, visits, w));
  }

  /** Whoever already has a visit still has it, or was unheard: no newcomer is
      among the evicted. */
  lemma AdmittedIs(cap: int, visits: VisitMap, w: Hearing)
    ensures Admitted(cap, visits, w)
         == Lowest(Newcomers(visits, w), ByKey(Negated(w.current)), cap - |Roomy(cap, visits, w)|)
    ensures Newcomers(visits, w) == w.current.Keys - visits.Keys
  {}

  lemma OrderedStep(h: seq<Hearing>, w: Hearing)
    requires Ordered(h) && (h != [] ==> Last(h).index < w.index)
    ensures Ordered(h + [w]) && Last(h + [w]) == w
  {}
}
