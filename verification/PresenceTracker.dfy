/** presence.py's PresenceTracker: one automaton a device, in a pruned map. */
module PresenceTracking {
  import opened Orders
  import opened Presence
  import opened PresenceHistory

  /** The windows in which one device was a hit. */
  ghost function Bits(history: seq<set<int>>, id: int): (b: seq<bool>)
    ensures |b| == |history|
  {
    seq(|history|, i requires 0 <= i < |history| => id in history[i])
  }

  lemma BitsStep(history: seq<set<int>>, seen: set<int>, id: int)
    ensures Front(Bits(history + [seen], id)) == Bits(history, id)
    ensures Bits(history + [seen], id)[|history|] == (id in seen)
  {}

  /** A state from which forgetting the device loses nothing. */
  ghost predicate Quiescent(d: DeviceState) {
    d.state.Absent? && d.hits == 0 && d.cooldownRemaining == 0 && !d.presentEmitted
  }

  /** What pruning leaves behind: a prunable device is still in memory only in
      the very window that announced its departure. */
  ghost predicate Retained(c: Thresholds, windows: nat, d: DeviceState) {
    && d.misses < windows
    && (d.misses > 0 && ShouldPrune(c, d) ==> d.misses == c.disappear)
  }

  /** What the tracker knows about one device: what the never-forgetting
      automaton knows, or nothing when there is nothing to know. */
  ghost predicate Remembered(c: Thresholds, history: seq<set<int>>, devices: map<int, DeviceState>, id: int)
    requires c.Legal()
  {
    var r := After(c, Bits(history, id));
    if id in devices then devices[id] == r && Retained(c, |history|, r) else Quiescent(r)
  }

  /** After this window's miss there is nothing left to know: the device is not
      inside, unheard for pruneAfter windows, past every cooldown, and its
      departure is not being announced just now. */
  ghost predicate Droppable(c: Thresholds, b: seq<bool>) {
    && b != [] && !Last(b) && !Inside(c, b) && Trailing(b, false) >= c.pruneAfter
    && (forall t | 0 < t <= |b| && Departs(c, b[..t]) :: |b| - t >= c.cooldown)
    && !Emits(c, b, Absent)
  }

  /** Heard, and at no window since then droppable. */
  ghost predicate InMemory(c: Thresholds, b: seq<bool>) {
    exists e :: HeardAt(b, e) && forall m | e <= m <= |b| :: !Droppable(c, b[..m])
  }

  ghost predicate HeardAt(b: seq<bool>, e: int) { 0 < e <= |b| && b[e - 1] }

  lemma InMemoryStep(c: Thresholds, b: seq<bool>)
    requires b != []
    ensures InMemory(c, b) <==> Last(b) || (InMemory(c, Front(b)) && !Droppable(c, b))
  {
    hide Droppable;
    PrefixOfFront(b);
    var p := Front(b);
    if Last(b) {
      HitIsNotDroppable(c, b);
      assert HeardAt(b, |b|);
    }
    if InMemory(c, p) && !Droppable(c, b) {
      var e :| HeardAt(p, e) && forall m | e <= m <= |p| :: !Droppable(c, p[..m]);
      assert HeardAt(b, e);
      forall m | e <= m <= |b| ensures !Droppable(c, b[..m]) { assert m < |b| ==> p[..m] == b[..m]; }
    }
    if InMemory(c, b) && !Last(b) {
      var e :| HeardAt(b, e) && forall m | e <= m <= |b| :: !Droppable(c, b[..m]);
      assert HeardAt(p, e);
      assert !Droppable(c, b[..|b|]);
    }
  }

  lemma HitIsNotDroppable(c: Thresholds, b: seq<bool>)
    requires b != [] && Last(b)
    ensures !Droppable(c, b)
  {}

  /** The automaton asks to be forgotten exactly then. */
  lemma ForgetsExactly(c: Thresholds, b: seq<bool>)
    requires c.Legal() && b != []
    ensures Window(c, After(c, Front(b)), Last(b)).forget <==> Droppable(c, b)
  {
    hide Inside, HitsMeaning, AnnouncedVisit, Emits, CooldownMeaning;
    AfterMeans(c, b);
    OutputExact(c, b, Absent);
    CooldownOver(c, b, After(c, b).cooldownRemaining);
  }

  lemma CooldownOver(c: Thresholds, b: seq<bool>, left: nat)
    requires CooldownMeaning(c, b, left)
    ensures left == 0 <==> forall t | 0 < t <= |b| && Departs(c, b[..t]) :: |b| - t >= c.cooldown
  {
    hide Departs;
  }

  ghost predicate HeardWithin(history: seq<set<int>>, id: int, n: int) {
    exists k | Max(0, |history| - n) <= k < |history| :: id in history[k]
  }

  method Build(appear: int := 3, disappear: int := 3, rssi: int := -80, cooldown: int := 0,
               pruneAfter: Option<int> := None)
    returns (r: Result<PresenceTracker, string>)
    ensures r.Ok? <==> appear >= 1 && disappear >= 1 && cooldown >= 0
    ensures r.Ok? ==> fresh(r.value) && r.value.Valid() && r.value.history == []
    ensures r.Ok? ==>
              r.value.c == Thresholds(appear, disappear, rssi, cooldown,
                                      if pruneAfter.Some? then pruneAfter.value else 4 * disappear)
  {
    if appear < 1 || disappear < 1 { return Err("appear/disappear windows must be >= 1"); }
    if cooldown < 0 { return Err("cooldown_windows must be >= 0"); }
    var c := Thresholds(appear, disappear, rssi, cooldown,
                        if pruneAfter.Some? then pruneAfter.value else 4 * disappear);
    var t := new PresenceTracker(c);
    r := Ok(t);
  }

  class PresenceTracker {
    const c: Thresholds
    var devices: map<int, DeviceState>
    ghost var history: seq<set<int>>

    ghost predicate Valid()
      reads this
    {
      && c.Legal()
      && (forall id :: Remembered(c, history, devices, id))
      && (forall id :: id in devices <==> InMemory(c, Bits(history, id)))
    }

    constructor (c: Thresholds)
      requires c.Legal()
      ensures Valid() && history == [] && this.c == c
    {
      this.c := c;
      devices := map[];
      history := [];
      new;
      assert forall id :: Bits([], id) == [];
    }

    method Update(heard: map<int, int>) returns (transitions: seq<Transition>)
      requires Valid()
      modifies this
      ensures Valid()
      ensures history == old(history) + [set id | id in heard && heard[id] >= c.rssi]
      ensures forall t :: t in transitions <==> Emits(c, Bits(history, t.deviceId), t.state)
      ensures Ascending(transitions)
      ensures forall id :: id in devices <==> InMemory(c, Bits(history, id))
      ensures forall id | id in devices :: HeardWithin(history, id, c.MemoryBound())
    {
      hide InMemory;
      var seen := set id | id in heard && heard[id] >= c.rssi;
      ghost var before := history;
      Enroll(seen);
      ghost var begun := devices;
      history := history + [seen];
      ghost var w := Windows(c, begun, seen);
      var pruned;
      transitions, pruned := AdvanceDevices(seen, w);
      devices := devices - pruned;
      WindowDone(c, before, seen, begun, w, devices);
      MembersDone(c, before, seen, begun, w, devices);
      EmissionsDone(c, before, seen, begun, w, transitions);
    }

    method Enroll(seen: set<int>)
      requires Valid()
      modifies this`devices
      ensures forall id :: Enrolled(c, history, seen, devices, id)
      ensures forall id :: id in devices <==> id in seen || InMemory(c, Bits(history, id))
    {
      hide InMemory;
      ghost var start := devices;
      devices := map id | id in seen + devices.Keys :: if id in devices then devices[id] else FRESH;
      forall id ensures Enrolled(c, history, seen, devices, id) {
        assert Remembered(c, history, start, id);
      }
    }

    method AdvanceDevices(seen: set<int>, ghost w: map<int, Outcome>)
      returns (transitions: seq<Transition>, pruned: set<int>)
      requires c.Legal() && w == Windows(c, devices, seen)
      modifies this`devices
      ensures devices.Keys == w.Keys && forall id | id in w :: devices[id] == w[id].next
      ensures forall id :: id in pruned <==> id in w && w[id].forget
      ensures forall t :: t in transitions <==> t.deviceId in w && w[t.deviceId].emitted == Some(t.state)
      ensures Ascending(transitions)
    {
      var ids := SortIds(devices.Keys);
      forall j | 0 <= j < |ids| ensures ids[j] in devices { assert ids[j] in ids; }
      transitions, pruned := AdvanceAll(seen, ids, w);
      forall id | id in w ensures devices[id] == w[id].next && (id in pruned <==> w[id].forget) {
        assert id in ids;
      }
      EmittedExact(w, ids, |ids|);
      EmittedInOrder(w, ids, |ids|);
    }

    /** The loop over the sorted ids: every device takes its window. */
    method AdvanceAll(seen: set<int>, ids: seq<int>, ghost w: map<int, Outcome>)
      returns (transitions: seq<Transition>, pruned: set<int>)
      requires c.Legal() && w.Keys == devices.Keys
      requires forall i, j | 0 <= i < j < |ids| :: ids[i] < ids[j]
      requires forall j | 0 <= j < |ids| :: ids[j] in w && w[ids[j]] == Window(c, devices[ids[j]], ids[j] in seen)
      modifies this`devices
      ensures devices.Keys == w.Keys
      ensures forall j | 0 <= j < |ids| :: devices[ids[j]] == w[ids[j]].next
      ensures forall j | 0 <= j < |ids| :: ids[j] in pruned <==> w[ids[j]].forget
      ensures pruned <= w.Keys
      ensures transitions == Emitted(w, ids, |ids|)
    {
      hide Window;
      transitions := [];
      pruned := {};
      ghost var start := devices;
      for k := 0 to |ids|
        invariant devices.Keys == w.Keys && pruned <= w.Keys
        invariant forall j | 0 <= j < k :: devices[ids[j]] == w[ids[j]].next
        invariant forall j | k <= j < |ids| :: devices[ids[j]] == start[ids[j]]
        invariant forall j | 0 <= j < |ids| :: ids[j] in pruned <==> j < k && w[ids[j]].forget
        invariant transitions == Emitted(w, ids, k)
      {
        var id := ids[k];
        var outcome := Window(c, devices[id], id in seen);
        assert outcome == w[id];
        devices := devices[id := outcome.next];
        if outcome.emitted.Some? { transitions := transitions + [Transition(id, outcome.emitted.value)]; }
        if outcome.forget { pruned := pruned + {id}; }
      }
    }
  }

  ghost function Windows(c: Thresholds, devices: map<int, DeviceState>, seen: set<int>)
    : map<int, Outcome>
    requires c.Legal()
  {
    map id | id in devices :: Window(c, devices[id], id in seen)
  }

  /** The announcements of the first k devices. */
  ghost function Emitted(w: map<int, Outcome>, ids: seq<int>, k: nat): seq<Transition>
    requires k <= |ids|
  {
    if k == 0 then []
    else
      var id := ids[k - 1];
      Emitted(w, ids, k - 1) + (if id in w && w[id].emitted.Some? then [Transition(id, w[id].emitted.value)] else [])
  }

  ghost predicate Ascending(q: seq<Transition>) {
    forall i, j | 0 <= i < j < |q| :: q[i].deviceId < q[j].deviceId
  }

  lemma {:induction false} EmittedExact(w: map<int, Outcome>, ids: seq<int>, k: nat)
    requires k <= |ids|
    ensures forall t: Transition :: t in Emitted(w, ids, k) <==>
              (exists j :: 0 <= j < k && ids[j] == t.deviceId) &&
              t.deviceId in w && w[t.deviceId].emitted == Some(t.state)
  {
    if k == 0 {
    } else {
      EmittedExact(w, ids, k - 1);
    }
  }

  lemma {:induction false} EmittedInOrder(w: map<int, Outcome>, ids: seq<int>, k: nat)
    requires k <= |ids| && forall i, j | 0 <= i < j < |ids| :: ids[i] < ids[j]
    ensures Ascending(Emitted(w, ids, k))
  {
    if k == 0 {
    } else {
      hide Ascending;
      EmittedInOrder(w, ids, k - 1);
      EmittedExact(w, ids, k - 1);
      var q, id := Emitted(w, ids, k - 1), ids[k - 1];
      forall n | 0 <= n < |q| ensures q[n].deviceId < id {
        assert q[n] in q;
        var j :| 0 <= j < k - 1 && ids[j] == q[n].deviceId;
      }
      if id in w && w[id].emitted.Some? {
        AppendAscending(q, Transition(id, w[id].emitted.value));
      } else {
        assert q + [] == q;
      }
    }
  }

  lemma AppendAscending(q: seq<Transition>, t: Transition)
    requires Ascending(q) && forall n | 0 <= n < |q| :: q[n].deviceId < t.deviceId
    ensures Ascending(q + [t])
  {}

  /** A device in memory, or added on being heard, carries what the reference
      automaton would act on. */
  ghost predicate Agrees(c: Thresholds, history: seq<set<int>>, id: int, seen: bool, d: DeviceState)
    requires c.Legal()
  {
    var r := After(c, Bits(history, id));
    (d == r && Retained(c, |history|, d)) || (d == FRESH && Quiescent(r) && seen)
  }

  /** After the window: who is remembered, what for, and what was emitted. */
  ghost predicate Advanced(c: Thresholds, history: seq<set<int>>, seen: set<int>, id: int,
                           begun: map<int, DeviceState>)
    requires c.Legal()
  {
    var next := After(c, Bits(history + [seen], id));
    if id !in begun then
      Quiescent(next) && forall s :: !Emits(c, Bits(history + [seen], id), s)
    else
      var out := Window(c, begun[id], id in seen);
      && out.next == next
      && (if out.forget then Quiescent(next) else Retained(c, |history| + 1, next))
      && forall s :: out.emitted == Some(s) <==> Emits(c, Bits(history + [seen], id), s)
  }

  /** The surviving map is the one Valid() asks for. */
  lemma WindowDone(c: Thresholds, history: seq<set<int>>, seen: set<int>,
                   begun: map<int, DeviceState>, w: map<int, Outcome>, left: map<int, DeviceState>)
    requires c.Legal() && w == Windows(c, begun, seen)
    requires forall id :: Enrolled(c, history, seen, begun, id)
    requires forall id :: id in left <==> id in w && !w[id].forget
    requires forall id | id in left :: left[id] == w[id].next
    ensures forall id :: Remembered(c, history + [seen], left, id)
    ensures forall id | id in left :: HeardWithin(history + [seen], id, c.MemoryBound())
  {
    forall id ensures Remembered(c, history + [seen], left, id)
              ensures id in left ==> HeardWithin(history + [seen], id, c.MemoryBound())
    {
      assert Enrolled(c, history, seen, begun, id);
      StepOne(c, history, seen, id, begun);
      if id in left {
        RetainedIsRecent(c, history + [seen], id);
      }
    }
  }

  /** Exactly the devices in memory by their history survive. */
  lemma MembersDone(c: Thresholds, history: seq<set<int>>, seen: set<int>,
                    begun: map<int, DeviceState>, w: map<int, Outcome>, left: map<int, DeviceState>)
    requires c.Legal() && w == Windows(c, begun, seen)
    requires forall id :: Enrolled(c, history, seen, begun, id)
    requires forall id :: id in begun <==> id in seen || InMemory(c, Bits(history, id))
    requires forall id :: id in left <==> id in w && !w[id].forget
    ensures forall id :: id in left <==> InMemory(c, Bits(history + [seen], id))
  {
    hide InMemory, Droppable, Retained, Quiescent;
    forall id ensures id in left <==> InMemory(c, Bits(history + [seen], id)) {
      var b := Bits(history + [seen], id);
      assert Enrolled(c, history, seen, begun, id);
      BitsStep(history, seen, id);
      InMemoryStep(c, b);
      ForgetsExactly(c, b);
    }
  }

  lemma EmissionsDone(c: Thresholds, history: seq<set<int>>, seen: set<int>,
                      begun: map<int, DeviceState>, w: map<int, Outcome>, transitions: seq<Transition>)
    requires c.Legal() && w == Windows(c, begun, seen)
    requires forall id :: Enrolled(c, history, seen, begun, id)
    requires forall t :: t in transitions <==> t.deviceId in w && w[t.deviceId].emitted == Some(t.state)
    ensures forall t :: t in transitions <==> Emits(c, Bits(history + [seen], t.deviceId), t.state)
  {
    forall t: Transition
      ensures t in transitions <==> Emits(c, Bits(history + [seen], t.deviceId), t.state)
    {
      assert Enrolled(c, history, seen, begun, t.deviceId);
      StepOne(c, history, seen, t.deviceId, begun);
    }
  }

  ghost predicate Enrolled(c: Thresholds, history: seq<set<int>>, seen: set<int>,
                           begun: map<int, DeviceState>, id: int)
    requires c.Legal()
  {
    if id in begun then Agrees(c, history, id, id in seen, begun[id])
    else id !in seen && Quiescent(After(c, Bits(history, id)))
  }

  lemma StepOne(c: Thresholds, history: seq<set<int>>, seen: set<int>, id: int, begun: map<int, DeviceState>)
    requires c.Legal()
    requires Enrolled(c, history, seen, begun, id)
    ensures Advanced(c, history, seen, id, begun)
  {
    BitsStep(history, seen, id);
    var b := Bits(history + [seen], id);
    var p := Bits(history, id);
    AfterMeans(c, p);
    MeansStep(c, b, After(c, p));
    AnnouncedInside(c, b);
    if Inside(c, p) { InsideMissesFew(c, p); }
  }

  lemma InsideMissesFew(c: Thresholds, b: seq<bool>)
    requires c.Legal() && Inside(c, b)
    ensures Trailing(b, false) < c.disappear
  {
    TrailingRun(b, false, c.disappear);
    var e :| Run(b, true, e, c.appear) && forall m | e < m <= |b| :: !Run(b, false, m, c.disappear);
    if e == |b| { assert b[|b| - 1]; }
  }

  /** The cooldown armed at a departure runs down while the device stays away. */
  lemma {:induction false} CooldownDecays(c: Thresholds, b: seq<bool>)
    requires c.Legal()
    ensures var d := After(c, b);
            d.state.Absent? && d.misses >= c.disappear ==>
              d.cooldownRemaining <= Max(0, c.cooldown - (d.misses - c.disappear))
  {
    if b == [] {
    } else {
      CooldownDecays(c, Front(b));
      AfterMeans(c, Front(b));
      if Inside(c, Front(b)) { InsideMissesFew(c, Front(b)); }
    }
  }

  lemma RetainedIsRecent(c: Thresholds, history: seq<set<int>>, id: int)
    requires c.Legal() && Retained(c, |history|, After(c, Bits(history, id)))
    ensures HeardWithin(history, id, c.MemoryBound())
  {
    var b := Bits(history, id);
    var d := After(c, b);
    AfterMeans(c, b);
    CooldownDecays(c, b);
    if Inside(c, b) { InsideMissesFew(c, b); }
    TrailingEndsAtHit(b, false);
    assert d.misses < c.MemoryBound();
    assert id in history[|history| - 1 - d.misses];
  }

  lemma {:induction false} TrailingEndsAtHit(b: seq<bool>, v: bool)
    ensures var n := Trailing(b, v); n < |b| ==> b[|b| - 1 - n] != v
  {
    if b != [] && b[|b| - 1] == v { TrailingEndsAtHit(Front(b), v); }
  }

  /** The transitions one device emits over a whole run, oldest first. */
  ghost function Log(c: Thresholds, b: seq<bool>): seq<PresenceState> {
    if b == [] then []
    else Log(c, Front(b)) +
         (if Emits(c, b, Present) then [Present] else if Emits(c, b, Absent) then [Absent] else [])
  }

  /** On every run a device's transitions alternate PRESENT, ABSENT, PRESENT, ... */
  lemma {:induction false} LogAlternates(c: Thresholds, b: seq<bool>)
    requires c.Legal()
    ensures |Log(c, b)| % 2 == (if AnnouncedVisit(c, b) then 1 else 0)
    ensures forall k | 0 <= k < |Log(c, b)| :: Log(c, b)[k] == if k % 2 == 0 then Present else Absent
  {
    if b == [] {
    } else {
      hide Inside, Run, Cooled, AnnouncedVisit;
      LogAlternates(c, Front(b));
      AnnouncedStep(c, b);
      InsideStep(c, b);
      AnnouncedInside(c, Front(b));
    }
  }

  /** Hit runs shorter than `appear` never register: nothing is emitted. */
  lemma {:induction false} ShortRunsEmitNothing(c: Thresholds, b: seq<bool>)
    requires c.Legal() && forall e :: !Run(b, true, e, c.appear)
    ensures Log(c, b) == [] && !Inside(c, b)
  {
    if b == [] {
    } else {
      assert forall e :: Run(Front(b), true, e, c.appear) ==> Run(b, true, e, c.appear);
      ShortRunsEmitNothing(c, Front(b));
    }
  }
}
