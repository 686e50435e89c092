/** trajectory.py: bounded per-identity tracks with fade, eviction and admission. */
module Trajectory {
  import opened Orders
  import opened Features
  import opened Approach
  import opened Visits

  const TRACKER_MAX_ADDRESSES := 256
  const TRACKER_FADE_AFTER_WINDOWS := 12

  class Track {
    var samples: seq<Sample>
    var visitMin: int
    var lastHeardIndex: int
    var firstSeenIndex: int
    var windowsSeen: nat
    var dwell: nat
    ghost var visit: seq<Sample>
    ghost const owner: Identity

    ghost predicate Carries(owner: Identity, visit: seq<Sample>)
      reads this
    {
      Valid() && this.owner == owner && this.visit == visit && visit != []
    }

    ghost predicate Valid()
      reads this
    {
      && samples == Tail(visit, APPROACH_WINDOWS)
      && windowsSeen == |visit|
      && (visit != [] ==>
            && visitMin == MinRssi(visit)
            && lastHeardIndex == Last(visit).index
            && firstSeenIndex == visit[0].index
            && dwell == Streak(visit))
    }

    constructor (ghost owner: Identity)
      ensures Valid() && visit == [] && this.owner == owner
    {
      this.owner := owner;
      samples, visitMin, lastHeardIndex, firstSeenIndex, windowsSeen, dwell := [], 0, 0, 0, 0, 0;
      visit := [];
    }

    method Push(index: int, rssi: int)
      requires Valid()
      modifies this
      ensures Valid() && visit == old(visit) + [Sample(index, rssi)]
    {
      if windowsSeen == 0 {
        firstSeenIndex := index;
        visitMin := rssi;
        dwell := 1;
      } else {
        visitMin := Min(visitMin, rssi);
        dwell := if lastHeardIndex == index - 1 then dwell + 1 else 1;
      }
      samples := Tail(samples + [Sample(index, rssi)], APPROACH_WINDOWS);
      lastHeardIndex := index;
      windowsSeen := windowsSeen + 1;
      visit := visit + [Sample(index, rssi)];
      assert Front(visit) == old(visit);
    }

    method Snapshot(identity: Identity, index: int) returns (r: Result<AddressTrajectory, string>)
      requires Valid()
      ensures r.Ok? <==> visit != []
      ensures r.Ok? ==> r.value == RowOf(identity, visit).(ageWindows := index - visit[0].index + 1)
    {
      var span := RssiSpan(samples);
      if span.None? { return Err("track snapshot with empty samples"); }
      r := Ok(AddressTrajectory(
                identity, Last(samples).rssi, RssiSlope(samples), span.value, dwell, visitMin,
                firstSeenIndex, windowsSeen, index - firstSeenIndex + 1, IsRisingApproach(samples)));
    }
  }

  method BuildTracker(maxAddresses: int := TRACKER_MAX_ADDRESSES, fadeAfter: int := TRACKER_FADE_AFTER_WINDOWS)
    returns (r: Result<TrajectoryTracker, string>)
    ensures r.Ok? <==> maxAddresses >= 1 && fadeAfter >= 1
    ensures r.Ok? ==> fresh(r.value) && r.value.Valid() && r.value.history == [] && r.value.tracks == map[]
    ensures r.Ok? ==> r.value.maxAddresses == maxAddresses && r.value.fadeAfter == fadeAfter
  {
    if maxAddresses < 1 || fadeAfter < 1 { return Err("must be >= 1"); }
    var t := new TrajectoryTracker(maxAddresses, fadeAfter);
    r := Ok(t);
  }

  class TrajectoryTracker {
    const maxAddresses: int
    const fadeAfter: int
    var tracks: map<Identity, Track>
    var lastIndex: Option<int>
    ghost var history: seq<Hearing>

    ghost var visits: VisitMap

    /** Each identity has its own track, which carries that identity's visit. */
    ghost predicate Owned()
      reads this`tracks, this`visits, tracks.Values
    {
      && tracks.Keys == visits.Keys
      && (forall i | i in tracks :: tracks[i].Carries(i, visits[i]))
    }

    ghost predicate Valid()
      reads this, tracks.Values
    {
      && maxAddresses >= 1 && fadeAfter >= 1
      && Owned()
      && visits == VisitsAfter(maxAddresses, fadeAfter, history)
      && |visits| <= maxAddresses
      && Ordered(history)
      && lastIndex == if history == [] then None else Some(Last(history).index)
    }

    constructor (maxAddresses: int, fadeAfter: int)
      requires maxAddresses >= 1 && fadeAfter >= 1
      ensures Valid() && history == [] && tracks == map[]
      ensures this.maxAddresses == maxAddresses && this.fadeAfter == fadeAfter
    {
      this.maxAddresses := maxAddresses;
      this.fadeAfter := fadeAfter;
      tracks := map[];
      lastIndex := None;
      history := [];
      visits := map[];
    }

    method Observe(window: DetectionWindow, source: Source := Advertisements)
      returns (r: Result<seq<AddressTrajectory>, string>)
      requires Valid()
      modifies this, tracks.Values
      ensures Valid()
      ensures r.Err? ==> visits == old(visits)
      ensures r.Err? <==> source.Other? || (old(history) != [] && window.index <= Last(old(history)).index)
      ensures r.Err? ==> history == old(history)
      ensures r.Ok? ==> history == old(history) + [Hearing(window.index, HeardIn(window, source))]
      ensures r.Ok? ==> RowsOf(r.value, visits, Last(history))
      ensures forall i | i in tracks :: tracks[i] in old(tracks.Values) || fresh(tracks[i])
    {
      hide Unfaded, Roomy, Admitted, Extended, RowsOf, HeardIn, VisitsAfter, Next, Ordered, Owned;
      if lastIndex.Some? && window.index <= lastIndex.value {
        return Err("window index must be strictly increasing");
      }
      var best := MaxRssiByIdentity(window, source);
      if best.Err? { return Err(best.error); }
      var current := best.value;
      lastIndex := Some(window.index);
      ghost var w := Hearing(window.index, current);
      NextWithinCap(maxAddresses, fadeAfter, visits, w);
      Fade(window.index, current);
      UnfadedWithin(fadeAfter, old(visits), w);
      var admitted := MakeRoom(current, w);
      var rows := PushAll(window.index, current, admitted, w);
      assert visits == Next(maxAddresses, fadeAfter, old(visits), w) by {
        NextIs(maxAddresses, fadeAfter, old(visits), w);
      }
      Record(w, old(visits));
      r := Ok(rows);
    }

    /** The window joins the history whose visits the tracks now carry. */
    ghost method Record(w: Hearing, before: VisitMap)
      requires maxAddresses >= 1 && fadeAfter >= 1 && Owned() && |visits| <= maxAddresses && lastIndex == Some(w.index)
      requires Ordered(history) && (history != [] ==> Last(history).index < w.index)
      requires before == VisitsAfter(maxAddresses, fadeAfter, history)
      requires visits == Next(maxAddresses, fadeAfter, before, w)
      modifies this`history
      ensures Valid() && history == old(history) + [w]
    {
      hide Owned, VisitsAfter, Next, Ordered;
      VisitsStep(maxAddresses, fadeAfter, history, w);
      OrderedStep(history, w);
      history := history + [w];
    }

    method Fade(index: int, current: map<Identity, int>)
      requires Owned()
      modifies this`tracks, this`visits
      ensures Owned() && visits == Unfaded(fadeAfter, old(visits), Hearing(index, current))
      ensures tracks.Values <= old(tracks.Values)
    {
      hide Streak, MinRssi, Tail;
      tracks := map i | i in tracks && (i in current || index - tracks[i].lastHeardIndex < fadeAfter) :: tracks[i];
      visits := Unfaded(fadeAfter, visits, Hearing(index, current));
    }

    method Evict(victims: set<Identity>)
      requires Owned()
      modifies this`tracks, this`visits
      ensures Owned() && visits == old(visits) - victims && |tracks| == |visits|
      ensures tracks.Values <= old(tracks.Values)
    {
      tracks := tracks - victims;
      visits := visits - victims;
      MapCount(tracks);
      MapCount(visits);
    }

    lemma KeysAgree()
      requires Owned()
      ensures tracks.Keys == visits.Keys
    {}

    lemma NoneEmpty()
      requires Owned()
      ensures forall i | i in visits :: visits[i] != []
    {}

    method LastHeard() returns (lasts: map<Identity, int>)
      requires Owned()
      ensures lasts == LastIndexes(visits)
    {
      lasts := map i | i in tracks :: tracks[i].lastHeardIndex;
    }

    method MakeRoom(current: map<Identity, int>, ghost w: Hearing) returns (admitted: set<Identity>)
      requires Owned() && |visits| <= maxAddresses && w.current == current
      modifies this`tracks, this`visits
      ensures Owned() && visits == Roomy(maxAddresses, old(visits), w)
      ensures admitted == Admitted(maxAddresses, old(visits), w) && admitted <= current.Keys
      ensures tracks.Values <= old(tracks.Values)
    {
      hide Lowest, LastIndexes, Negated, Owned, Roomy, Victims, Admitted, Overflow, Newcomers, Unheard, ByKey;
      ghost var v := visits;
      KeysAgree();
      var newIds := current.Keys - tracks.Keys;
      AdmittedIs(maxAddresses, v, w);
      EvictFor(current, |tracks| + |newIds| - maxAddresses, w);
      admitted := Admit(newIds, current, maxAddresses - |tracks|, maxAddresses, v, w);
    }

    method EvictFor(current: map<Identity, int>, overflow: int, ghost w: Hearing)
      requires Owned() && w.current == current && overflow == |tracks| + |current.Keys - tracks.Keys| - maxAddresses
      modifies this`tracks, this`visits
      ensures Owned() && visits == Roomy(maxAddresses, old(visits), w) && |tracks| == |visits|
      ensures tracks.Values <= old(tracks.Values)
    {
      hide Lowest, LastIndexes, Owned, Roomy, Overflow, ByKey;
      KeysAgree();
      MapCount(tracks);
      MapCount(visits);
      RoomyIs(maxAddresses, visits, w);
      assert overflow == Overflow(maxAddresses, visits, w);
      if overflow > 0 {
        var lasts := LastHeard();
        var victims := FirstByKey(tracks.Keys - current.Keys, lasts, overflow);
        Evict(victims);
      }
    }

    method PushOne(identity: Identity, index: int, rssi: int, admitted: bool) returns (row: Option<AddressTrajectory>)
      requires Owned()
      modifies this`tracks, this`visits, tracks.Values
      ensures Owned() && visits == Pushed(old(visits), identity, Sample(index, rssi), admitted)
      ensures row.Some? <==> identity in visits
      ensures row.Some? ==> visits[identity] != [] && row.value == RowOf(identity, visits[identity])
      ensures forall i | i in tracks :: tracks[i] in old(tracks.Values) || fresh(tracks[i])
    {
      hide RowOf, Owned;
      KeysAgree();
      if identity in tracks {
        PushKnown(identity, index, rssi);
      } else if admitted {
        PushNew(identity, index, rssi);
      } else {
        return None;
      }
      var shown := Show(identity, index);
      row := Some(shown);
    }

    method Show(identity: Identity, index: int) returns (row: AddressTrajectory)
      requires Owned() && identity in visits && visits[identity] != [] && Last(visits[identity]).index == index
      ensures row == RowOf(identity, visits[identity])
    {
      var snapshot := tracks[identity].Snapshot(identity, index);
      row := snapshot.value;
    }

    method PushKnown(identity: Identity, index: int, rssi: int)
      requires Owned() && identity in tracks
      modifies this`visits, tracks[identity]
      ensures Owned() && visits == old(visits)[identity := old(visits)[identity] + [Sample(index, rssi)]]
    {
      hide Track.Valid;
      tracks[identity].Push(index, rssi);
      visits := visits[identity := visits[identity] + [Sample(index, rssi)]];
    }

    method PushNew(identity: Identity, index: int, rssi: int)
      requires Owned() && identity !in tracks
      modifies this`tracks, this`visits
      ensures Owned() && visits == old(visits)[identity := [Sample(index, rssi)]]
      ensures tracks.Keys == old(tracks.Keys) + {identity} && fresh(tracks[identity])
      ensures forall i | i in old(tracks) :: tracks[i] == old(tracks)[i]
    {
      hide Track.Valid;
      var track := new Track(identity);
      track.Push(index, rssi);
      tracks := tracks[identity := track];
      visits := visits[identity := [Sample(index, rssi)]];
    }

    /** The loop over the heard identities, taken in identity order. */
    method PushAll(index: int, current: map<Identity, int>, admitted: set<Identity>, ghost w: Hearing)
      returns (rows: seq<AddressTrajectory>)
      requires Owned() && w == Hearing(index, current) && admitted <= current.Keys
      modifies this`tracks, this`visits, tracks.Values
      ensures Owned() && visits == Extended(old(visits), admitted, w)
      ensures RowsOf(rows, visits, w)
      ensures forall i | i in tracks :: tracks[i] in old(tracks.Values) || fresh(tracks[i])
    {
      hide RowOf, RowsOf, Owned, Extended, Alphabetic, SortedBy;
      ghost var v := visits;
      var ids := SortIdentities(current.Keys);
      forall k | 0 <= k < |ids| ensures ids[k] in current { assert ids[k] in ids; }
      rows := [];
      for k := 0 to |ids|
        invariant Owned() && visits == PartlyExtended(v, admitted, w, ids, k)
        invariant rows == RowsUpTo(ids, k, Extended(v, admitted, w))
        invariant forall i | i in tracks :: tracks[i] in old(tracks.Values) || fresh(tracks[i])
      {
        var row := PushOne(ids[k], index, current[ids[k]], ids[k] in admitted);
        PushedIsFinal(v, admitted, w, ids, k);
        if row.Some? { rows := rows + [row.value]; }
      }
      AllPushed(v, admitted, w, ids);
      RowsUpToExact(v, admitted, w, ids);
    }
  }

  /** All newcomers if they fit, else the strongest `room` of them. */
  method Admit(newIds: set<Identity>, current: map<Identity, int>, room: int,
               ghost cap: int, ghost v: VisitMap, ghost w: Hearing)
    returns (admitted: set<Identity>)
    requires w.current == current && newIds == Newcomers(v, w) && room == cap - |Roomy(cap, v, w)|
    ensures admitted == Admitted(cap, v, w) && admitted <= current.Keys
  {
    hide Lowest, Roomy, Admitted, ByKey, Negated, Newcomers;
    AdmittedIs(cap, v, w);
    LowestByKey(newIds, Negated(current), room);
    if |newIds| <= room {
      admitted := newIds;
    } else {
      admitted := FirstByKey(newIds, Negated(current), room);
    }
  }
}
