/** The drain as a protocol: its reads, sends and marks are separate steps, with
    enqueues by other tasks and crashes between any two of them. */
module DrainProtocol {
  import opened Orders
  import opened Outbox

  /** Where the drain task stands: what it read, and what the notifier said. */
  datatype Stage =
    | Ready
    | Holding(id: nat, row: Row, now: real)
    | Answered(id: nat, row: Row, now: real, answer: DeliveryResult)

  /** One call of the notifier: for which row, due when by the table, and at what
      time by the drain's clock. */
  datatype Sending = Sending(id: nat, due: Option<int>, now: real)

  /** The durable rows, the drain's place, and a history: the ids the notifier
      accepted, in order, those it refused for good, and every call of it. */
  datatype System = System(rows: seq<Row>, stage: Stage, accepted: seq<nat>, refused: set<nat>, sends: seq<Sending>)

  datatype Event =
    | Enqueue(payload: Payload)
    | Look(now: real)
    | Send(answer: DeliveryResult)
    | Mark(base: real, cap: real, draw: Fraction)
    | Crash

  ghost function Begin(): System { System([], Ready, [], {}, []) }

  function DueIn(rows: seq<Row>, id: nat): Option<int> { if id < |rows| then rows[id].due else None }

  /** An event that cannot happen now changes nothing. */
  ghost function Step(s: System, e: Event): System {
    match e
    case Enqueue(payload) => s.(rows := s.rows + [Fresh(payload)])
    case Look(now) =>
      var h := Head(s.rows);
      if s.stage.Ready? && h.Some? && IsDue(s.rows[h.value], now)
      then s.(stage := Holding(h.value, s.rows[h.value], now)) else s
    case Send(answer) =>
      if s.stage.Holding? && s.stage.row.payload.Message?
      then s.(stage := Answered(s.stage.id, s.stage.row, s.stage.now, answer),
              accepted := if answer.ok then s.accepted + [s.stage.id] else s.accepted,
              refused := if !answer.ok && !answer.retriable then s.refused + {s.stage.id} else s.refused,
              sends := s.sends + [Sending(s.stage.id, DueIn(s.rows, s.stage.id), s.stage.now)])
      else s
    case Mark(base, cap, draw) =>
      if s.stage.Answered? && s.stage.id < |s.rows| then
        s.(rows := s.rows[s.stage.id := Settled(s.rows[s.stage.id], s.stage.now, s.stage.answer, base, cap, draw)],
           stage := Ready)
      else if s.stage.Holding? && s.stage.row.payload.Malformed? && s.stage.id < |s.rows| then
        s.(rows := s.rows[s.stage.id := Settled(s.rows[s.stage.id], s.stage.now, GOOD, base, cap, draw)],
           stage := Ready)
      else s
    case Crash => s.(stage := Ready)
  }

  const GOOD := DeliveryResult(true, None, false)

  ghost function After(events: seq<Event>): System {
    if events == [] then Begin() else Step(After(Front(events)), Last(events))
  }

  /** Undisturbed, a look, a send and a mark are one tick of drain_once, which calls
      the notifier exactly for a due row with a usable payload. */
  lemma TickIsThreeSteps(s: System, t: Tick, base: real, cap: real)
    requires s.stage.Ready?
    ensures var u := Step(Step(Step(s, Look(t.now)), Send(t.answer)), Mark(base, cap, t.draw));
            && u.rows == TickRows(s.rows, t, base, cap) && u.stage.Ready?
            && (|u.sends| == |s.sends| + 1 <==>
                  exists i :: HeadIs(s.rows, i) && NotEarly(s.rows[i].due, t.now) && s.rows[i].payload.Message?)
            && (u.sends == s.sends || u.sends[..|s.sends|] == s.sends)
  {
    hide Backoff, EqualJitter, IsoUtc, ErrorOr;
    HeadOrNone(s.rows);
    if i :| HeadIs(s.rows, i) { HeadUnique(s.rows, i); }
  }

  /** The time is not before the due time, if there is one. */
  ghost predicate NotEarly(due: Option<int>, now: real) { due.None? || due.value <= IsoUtc(now) }

  /** The drain holds the current head, as it still is in the table. */
  ghost predicate HoldsHead(s: System) {
    s.stage.Ready? || (HeadIs(s.rows, s.stage.id) && s.rows[s.stage.id] == s.stage.row)
  }

  ghost predicate Accounted(s: System, i: int)
    requires 0 <= i < |s.rows|
  {
    match s.rows[i].status
    case Pending => true
    case Delivered => i in s.accepted
    case Failed => s.rows[i].payload.Malformed? || i in s.refused
  }

  /** Every accepted id is behind the head or is the head. */
  ghost predicate BehindHead(s: System, id: nat) {
    id < |s.rows| && forall j | 0 <= j < id :: !s.rows[j].status.Pending?
  }

  ghost predicate Sound(s: System) {
    && Shaped(s.rows)
    && HoldsHead(s)
    && (forall i | 0 <= i < |s.rows| :: Accounted(s, i))
    && (forall k | 0 <= k < |s.accepted| :: BehindHead(s, s.accepted[k]))
    && (forall a, b | 0 <= a < b < |s.accepted| :: s.accepted[a] <= s.accepted[b])
    && (s.stage.Answered? ==> s.stage.row.payload.Message?)
    && (s.stage.Answered? && s.stage.answer.ok ==> s.stage.id in s.accepted)
    && (s.stage.Answered? && !s.stage.answer.ok && !s.stage.answer.retriable ==> s.stage.id in s.refused)
  }

  lemma EnqueueSound(s: System, payload: Payload)
    requires Sound(s)
    ensures Sound(Step(s, Enqueue(payload)))
  {
    var t := Step(s, Enqueue(payload));
    forall i | 0 <= i < |t.rows| ensures Accounted(t, i) {
      if i < |s.rows| { assert Accounted(s, i); }
    }
    forall k | 0 <= k < |t.accepted| ensures BehindHead(t, t.accepted[k]) {
      assert BehindHead(s, s.accepted[k]);
    }
  }

  lemma HeadMeans(rows: seq<Row>)
    ensures Head(rows).Some? ==> HeadIs(rows, Head(rows).value)
  {}

  /** Nothing behind the head was ever sent, so a new acceptance comes last. */
  lemma SendSound(s: System, answer: DeliveryResult)
    requires Sound(s)
    ensures Sound(Step(s, Send(answer)))
  {
    var t := Step(s, Send(answer));
    forall i | 0 <= i < |t.rows| ensures Accounted(t, i) { assert Accounted(s, i); }
    forall k | 0 <= k < |s.accepted|
      ensures BehindHead(t, s.accepted[k])
      ensures t != s ==> s.accepted[k] <= s.stage.id
    {
      assert BehindHead(s, s.accepted[k]);
    }
  }

  lemma MarkSound(s: System, base: real, cap: real, draw: Fraction)
    requires Sound(s)
    ensures Sound(Step(s, Mark(base, cap, draw)))
  {
    hide Backoff, EqualJitter, IsoUtc, ErrorOr;
    var t := Step(s, Mark(base, cap, draw));
    forall i | 0 <= i < |t.rows| ensures Accounted(t, i) { assert Accounted(s, i); }
    forall k | 0 <= k < |t.accepted| ensures BehindHead(t, t.accepted[k]) { assert BehindHead(s, s.accepted[k]); }
  }

  lemma LookSound(s: System, now: real)
    requires Sound(s)
    ensures Sound(Step(s, Look(now)))
  {
    hide Shaped;
    HeadMeans(s.rows);
    var t := Step(s, Look(now));
    forall i | 0 <= i < |t.rows| ensures Accounted(t, i) { assert Accounted(s, i); }
    forall k | 0 <= k < |t.accepted| ensures BehindHead(t, t.accepted[k]) { assert BehindHead(s, s.accepted[k]); }
  }

  lemma CrashSound(s: System)
    requires Sound(s)
    ensures Sound(Step(s, Crash))
  {
    hide Shaped;
    var t := Step(s, Crash);
    forall i | 0 <= i < |t.rows| ensures Accounted(t, i) { assert Accounted(s, i); }
    forall k | 0 <= k < |t.accepted| ensures BehindHead(t, t.accepted[k]) { assert BehindHead(s, s.accepted[k]); }
  }

  /** The queue under any interleaving of enqueues, drain steps and crashes. */
  lemma {:induction false} AlwaysSound(events: seq<Event>)
    ensures Sound(After(events))
  {
    hide Sound, Step;
    if events == [] {
      BeginSound();
    } else {
      AlwaysSound(Front(events));
      var s := After(Front(events));
      match Last(events)
      case Enqueue(payload) => EnqueueSound(s, payload);
      case Look(now) => LookSound(s, now);
      case Send(answer) => SendSound(s, answer);
      case Mark(base, cap, draw) => MarkSound(s, base, cap, draw);
      case Crash => CrashSound(s);
    }
  }

  lemma BeginSound()
    ensures Sound(Begin())
  {}

  /** The shape in plain words, for every row of every run: terminal rows come
      first, only the first PENDING row can have attempts or a due time, and a row
      left PENDING only by an accepted send, a permanent refusal or an unusable
      payload. */
  lemma QueueShape(events: seq<Event>, i: nat)
    requires i < |After(events).rows|
    ensures var s := After(events);
            && (s.rows[i].status.Delivered? ==> i in s.accepted)
            && (s.rows[i].status.Failed? ==> s.rows[i].payload.Malformed? || i in s.refused)
            && (s.rows[i].status.Pending? ==>
                  forall j | i < j < |s.rows| ::
                    s.rows[j].status.Pending? && s.rows[j].attempts == 0 && s.rows[j].due.None?)
  {
    hide After;
    AlwaysSound(events);
    assert Accounted(After(events), i);
  }

  /** On every run accepted sends come in non-decreasing id order. */
  lemma AcceptedInOrder(events: seq<Event>, a: nat, b: nat)
    requires a < b < |After(events).accepted|
    ensures After(events).accepted[a] <= After(events).accepted[b]
  {
    hide After;
    AlwaysSound(events);
  }

  /** Nothing is ever lost or rewritten: a row once enqueued keeps its place and
      its payload for ever, and once terminal keeps its whole content. */
  lemma {:induction false} RowsPersist(events: seq<Event>, k: nat, i: nat)
    requires k <= |events| && i < |After(events[..k]).rows|
    ensures i < |After(events).rows|
    ensures After(events).rows[i].payload == After(events[..k]).rows[i].payload
    ensures !After(events[..k]).rows[i].status.Pending? ==> After(events).rows[i] == After(events[..k]).rows[i]
  {
    if k == |events| {
      assert events[..k] == events;
    } else {
      assert Front(events)[..k] == events[..k];
      RowsPersist(Front(events), k, i);
      AlwaysSound(Front(events));
      StepPersists(After(Front(events)), Last(events), i);
    }
  }

  lemma StepPersists(s: System, e: Event, i: nat)
    requires Sound(s) && i < |s.rows|
    ensures var t := Step(s, e);
            && i < |t.rows| && t.rows[i].payload == s.rows[i].payload
            && (!s.rows[i].status.Pending? ==> t.rows[i] == s.rows[i])
  {
    hide Backoff, EqualJitter, IsoUtc, ErrorOr, Accounted, BehindHead;
  }

  /** An accepted head that is not yet marked, and has not been forgotten. */
  ghost predicate Unmarked(s: System) { s.stage.Answered? && s.stage.answer.ok }

  ghost predicate NoCrash(events: seq<Event>) { forall k | 0 <= k < |events| :: !events[k].Crash? }

  ghost predicate SentOnce(s: System) {
    && (forall a, b | 0 <= a < b < |s.accepted| :: s.accepted[a] < s.accepted[b])
    && (forall k | 0 <= k < |s.accepted| ::
          s.accepted[k] < |s.rows| &&
          (s.rows[s.accepted[k]].status.Delivered? || (Unmarked(s) && s.accepted[k] == s.stage.id)))
  }

  lemma OnceStep(s: System, e: Event)
    requires Sound(s) && SentOnce(s) && !e.Crash?
    ensures SentOnce(Step(s, e))
  {
    hide Backoff, EqualJitter, IsoUtc, ErrorOr, Accounted;
    HeadMeans(s.rows);
    if e.Send? && Step(s, e) != s {
      forall k | 0 <= k < |s.accepted| ensures s.accepted[k] < s.stage.id { assert BehindHead(s, s.accepted[k]); }
    }
  }

  /** Without a crash every message is accepted at most once, in strict id
      order; only a crash between a send and its mark makes a duplicate. */
  lemma {:induction false} NoDuplicatesWithoutCrash(events: seq<Event>)
    requires NoCrash(events)
    ensures SentOnce(After(events))
  {
    hide Sound, Step;
    if events == [] {
    } else {
      NoDuplicatesWithoutCrash(Front(events));
      AlwaysSound(Front(events));
      OnceStep(After(Front(events)), Last(events));
    }
  }

  lemma Then(events: seq<Event>, e: Event)
    ensures After(events + [e]) == Step(After(events), e)
  {
    assert Front(events + [e]) == events;
  }

  /** No call of the notifier came before its row was due, and none will now. */
  ghost predicate Punctual(s: System) {
    && (forall k | 0 <= k < |s.sends| :: NotEarly(s.sends[k].due, s.sends[k].now))
    && (!s.stage.Ready? ==> NotEarly(s.stage.row.due, s.stage.now))
  }

  lemma StepPunctual(s: System, e: Event)
    requires Sound(s) && Punctual(s)
    ensures Punctual(Step(s, e)) && s.sends <= Step(s, e).sends
  {
    hide Backoff, EqualJitter, ErrorOr, Accounted, BehindHead, IsoUtc, Shaped;
  }

  /** On every run no message is sent before the due time its row then carries. */
  lemma {:induction false} NeverEarly(events: seq<Event>)
    ensures Punctual(After(events))
  {
    hide Sound, Step;
    if events == [] {
    } else {
      NeverEarly(Front(events));
      AlwaysSound(Front(events));
      StepPunctual(After(Front(events)), Last(events));
    }
  }

  /** No mark is made with a negative base or cap. */
  ghost predicate SaneKnobs(events: seq<Event>) { forall k | 0 <= k < |events| :: Sane(events[k]) }

  ghost predicate Sane(e: Event) { e.Mark? ==> e.base >= 0.0 && e.cap >= 0.0 }

  ghost predicate DueFrom(s: System, i: nat, due: int) {
    i < |s.rows| && s.rows[i].due.Some? && s.rows[i].due.value >= due
  }

  lemma LaterIsNotEarlier(now: real, delay: real)
    requires delay >= 0.0
    ensures IsoUtc(now) <= IsoUtc(now + delay)
  {}

  lemma DelayIsNotNegative(attempt: nat, base: real, cap: real, draw: Fraction)
    requires base >= 0.0 && cap >= 0.0
    ensures EqualJitter(Backoff(attempt, base, cap), draw) >= 0.0
  {
    ExponentialGrows(attempt, attempt, base);
    JitterBounds(Backoff(attempt, base, cap), draw);
  }

  /** A due time only ever moves on. */
  lemma DueMovesOn(s: System, e: Event, i: nat, due: int)
    requires Sound(s) && Punctual(s) && DueFrom(s, i, due) && Sane(e)
    ensures DueFrom(Step(s, e), i, due)
  {
    hide Backoff, EqualJitter, ErrorOr, Accounted, BehindHead, IsoUtc, Shaped;
    if e.Mark? && s.stage.Answered? && s.stage.id == i {
      DelayIsNotNegative(s.rows[i].attempts, e.base, e.cap, e.draw);
      LaterIsNotEarlier(s.stage.now, EqualJitter(Backoff(s.rows[i].attempts, e.base, e.cap), e.draw));
    }
  }

  /** Once a row has a due time, every later send of it, on any run, comes at that
      time or after. */
  lemma {:induction false} NeverSentBeforeDue(events: seq<Event>, k: nat, i: nat, due: int)
    requires k <= |events| && SaneKnobs(events) && DueFrom(After(events[..k]), i, due)
    ensures DueFrom(After(events), i, due) && After(events[..k]).sends <= After(events).sends
    ensures forall j | |After(events[..k]).sends| <= j < |After(events).sends| && After(events).sends[j].id == i ::
              IsoUtc(After(events).sends[j].now) >= due
  {
    hide Sound, Step, IsoUtc;
    if k == |events| {
      assert events[..k] == events;
    } else {
      var p := Front(events);
      assert p[..k] == events[..k];
      assert SaneKnobs(p) by { assert forall n | 0 <= n < |p| :: p[n] == events[n]; }
      NeverSentBeforeDue(p, k, i, due);
      AlwaysSound(p);
      NeverEarly(p);
      NeverEarly(events);
      DueMovesOn(After(p), Last(events), i, due);
      NewSendsCarryDue(After(p), Last(events), i);
    }
  }

  lemma NewSendsCarryDue(s: System, e: Event, i: nat)
    requires i < |s.rows|
    ensures s.sends <= Step(s, e).sends
    ensures forall j | |s.sends| <= j < |Step(s, e).sends| && Step(s, e).sends[j].id == i ::
              Step(s, e).sends[j].due == s.rows[i].due
  {}

  /** So a refused message is not sent again before half its backoff is over. */
  lemma RetriesAreSpaced(events: seq<Event>, k: nat, i: nat)
    requires 0 < k <= |events| && SaneKnobs(events) && events[k - 1].Mark?
    requires var s := After(events[..k - 1]);
             s.stage.Answered? && s.stage.id == i && !s.stage.answer.ok && s.stage.answer.retriable
    ensures var s, e := After(events[..k - 1]), events[k - 1];
            forall j | |s.sends| <= j < |After(events).sends| && After(events).sends[j].id == i ::
              IsoUtc(After(events).sends[j].now) >=
              IsoUtc(s.stage.now + Backoff(s.stage.row.attempts, e.base, e.cap) / 2.0)
  {
    hide After, IsoUtc, Backoff, EqualJitter;
    var s, e := After(events[..k - 1]), events[k - 1];
    AlwaysSound(events[..k - 1]);
    assert Front(events[..k]) == events[..k - 1];
    assert Sane(e);
    assert After(events[..k]) == Step(s, e) by { AfterStep(events[..k]); }
    RetryDueWithinCap(s.stage.row, s.stage.now, s.stage.answer, e.base, e.cap, e.draw);
    NeverSentBeforeDue(events, k, i, IsoUtc(s.stage.now + Backoff(s.stage.row.attempts, e.base, e.cap) / 2.0));
  }

  lemma AfterStep(events: seq<Event>)
    requires events != []
    ensures After(events) == Step(After(Front(events)), Last(events))
  {}

  const ONE_ROW: seq<Row> := [Fresh(Message("m"))]

  const ONE_SEND: seq<Sending> := [Sending(0, None, 0.0)]

  /** One message, read and accepted, then a crash before its mark. */
  lemma CrashAfterSend() returns (events: seq<Event>)
    ensures After(events) == System(ONE_ROW, Ready, [0], {}, ONE_SEND)
  {
    var row := ONE_ROW[0];
    HeadUnique(ONE_ROW, 0);
    events := [Enqueue(Message("m"))];
    assert Front(events) == [];
    assert After(events) == System(ONE_ROW, Ready, [], {}, []);
    Then(events, Look(0.0));
    events := events + [Look(0.0)];
    assert After(events) == System(ONE_ROW, Holding(0, row, 0.0), [], {}, []);
    Then(events, Send(GOOD));
    events := events + [Send(GOOD)];
    assert [] + [0 as nat] == [0];
    assert After(events) == System(ONE_ROW, Answered(0, row, 0.0, GOOD), [0], {}, ONE_SEND);
    Then(events, Crash);
    events := events + [Crash];
  }

  /** And such a crash does make one. */
  lemma CrashDuplicates() returns (events: seq<Event>)
    ensures After(events).accepted == [0, 0]
  {
    HeadUnique(ONE_ROW, 0);
    events := CrashAfterSend();
    Then(events, Look(0.0));
    events := events + [Look(0.0)];
    Then(events, Send(GOOD));
    events := events + [Send(GOOD)];
  }
}
