/** The outbox table of one site, rows in id order, and the drain's backoff. */
module Outbox {
  import opened Orders

  datatype Payload = Message(text: string) | Malformed(text: string)

  datatype Status = Pending | Delivered | Failed

  datatype Row = Row(status: Status, attempts: nat, due: Option<int>, payload: Payload, error: Option<string>)

  datatype DeliveryResult = DeliveryResult(ok: bool, error: Option<string>, retriable: bool)

  datatype DrainResult = Idle | Waiting | DeliveredOne | RetryScheduled | DeadLettered

  const DEFAULT_BASE: real := 1.0
  const DEFAULT_CAP: real := 900.0
  const MAX_EXP_ATTEMPT := 64

  /** A draw of random.random(). */
  type Fraction = r: real | 0.0 <= r <= 1.0 witness 0.0

  function EqualJitter(delay: real, draw: Fraction): real { delay / 2.0 + delay / 2.0 * draw }

  function Pow2(n: nat): (r: real)
    ensures r >= 1.0
  {
    if n == 0 then 1.0 else 2.0 * Pow2(n - 1)
  }

  function MinReal(x: real, y: real): real { if x <= y then x else y }

  function Exponential(attempt: nat, base: real): real { base * Pow2(attempt) }

  function Backoff(attempt: int, base: real, cap: real): real {
    var a := Max(attempt, 0);
    if a >= MAX_EXP_ATTEMPT then cap else MinReal(Exponential(a, base), cap)
  }

  /** iso_utc: milliseconds, which order as their fixed-width text does. */
  function IsoUtc(epoch: real): int { (epoch * 1000.0).Floor }

  lemma {:induction false} Pow2Grows(a: nat, b: nat)
    requires a <= b
    ensures Pow2(a) <= Pow2(b)
  {
    if a == b {
    } else {
      Pow2Grows(a, b - 1);
    }
  }

  lemma ProductGrows(base: real, x: real, y: real)
    requires base >= 0.0 && x <= y
    ensures base * x <= base * y
  {}

  lemma ExponentialGrows(a: nat, b: nat, base: real)
    requires base >= 0.0 && a <= b
    ensures 0.0 <= Exponential(a, base) <= Exponential(b, base)
  {
    Pow2Grows(a, b);
    ProductGrows(base, 0.0, Pow2(a));
    ProductGrows(base, Pow2(a), Pow2(b));
  }

  /** The overflow guard changes no value if 64 doublings reach the cap. */
  lemma GuardIsInvisible(attempt: nat, base: real, cap: real)
    requires base >= 0.0 && Exponential(MAX_EXP_ATTEMPT, base) >= cap
    ensures Backoff(attempt, base, cap) == MinReal(Exponential(attempt, base), cap)
  {
    hide Exponential;
    if attempt >= MAX_EXP_ATTEMPT { ExponentialGrows(MAX_EXP_ATTEMPT, attempt, base); }
  }

  /** The wait never shrinks from one failure to the next, nor exceeds the cap. */
  lemma BackoffGrows(a: nat, b: nat, base: real, cap: real)
    requires base >= 0.0 && a <= b
    ensures Backoff(a, base, cap) <= Backoff(b, base, cap) <= cap
  {
    hide Exponential;
    ExponentialGrows(a, b, base);
  }

  lemma {:induction false} DefaultsReachTheCap()
    ensures Exponential(MAX_EXP_ATTEMPT, DEFAULT_BASE) >= DEFAULT_CAP
  {}

  lemma JitterBounds(delay: real, draw: Fraction)
    requires delay >= 0.0
    ensures delay / 2.0 <= EqualJitter(delay, draw) <= delay
  {}

  ghost predicate HeadIs(rows: seq<Row>, i: int) {
    0 <= i < |rows| && rows[i].status.Pending? && forall j | 0 <= j < i :: !rows[j].status.Pending?
  }

  ghost predicate NonePending(rows: seq<Row>) { forall j | 0 <= j < |rows| :: !rows[j].status.Pending? }

  function Fresh(payload: Payload): Row { Row(Pending, 0, None, payload, None) }

  /** Rows in id order are a terminal prefix and then a PENDING suffix, of
      which only the first can have been attempted. */
  ghost predicate Shaped(rows: seq<Row>) {
    && (forall i, j | 0 <= i < j < |rows| :: rows[i].status.Pending? ==> rows[j] == Fresh(rows[j].payload))
  }

  ghost predicate IsDue(row: Row, now: real) { row.due.None? || row.due.value <= IsoUtc(now) }

  /** What one answered attempt makes of its row. */
  function Settled(row: Row, now: real, answer: DeliveryResult, base: real, cap: real, draw: Fraction): Row {
    if row.payload.Malformed? then row.(status := Failed, error := Some("malformed-payload"))
    else if answer.ok then row.(status := Delivered)
    else if !answer.retriable then row.(status := Failed, error := ErrorOr(answer.error, "permanent-failure"))
    else
      var delay := EqualJitter(Backoff(row.attempts, base, cap), draw);
      row.(attempts := row.attempts + 1, due := Some(IsoUtc(now + delay)),
           error := ErrorOr(answer.error, "transient-failure"))
  }

  function ErrorOr(error: Option<string>, default: string): Option<string> {
    if error.Some? && error.value != "" then error else Some(default)
  }

  /** A retry is due after half the backoff and the drawn part of the other half,
      so no later than the cap. */
  lemma RetryDueWithinCap(row: Row, now: real, answer: DeliveryResult, base: real, cap: real, draw: Fraction)
    requires row.payload.Message? && !answer.ok && answer.retriable
    requires base >= 0.0 && cap >= 0.0
    ensures var r, d := Settled(row, now, answer, base, cap, draw), Backoff(row.attempts, base, cap);
            && r.status == row.status && r.attempts == row.attempts + 1 && r.due.Some?
            && IsoUtc(now + d / 2.0) <= r.due.value <= IsoUtc(now + d) && d <= cap
            && (draw == 0.0 ==> r.due.value == IsoUtc(now + d / 2.0))
            && (draw == 1.0 ==> r.due.value == IsoUtc(now + d))
  {
    var d := Backoff(row.attempts, base, cap);
    ExponentialGrows(row.attempts, row.attempts, base);
    JitterBounds(d, draw);
  }

  /** The other half is drawn evenly: equal steps of the draw move the wait alike. */
  lemma JitterIsEven(delay: real, a: Fraction, b: Fraction)
    ensures EqualJitter(delay, a) - EqualJitter(delay, b) == delay / 2.0 * (a - b)
    ensures EqualJitter(delay, 0.0) == delay / 2.0
  {}

  /** Times are cut to whole milliseconds. */
  lemma IsoUtcCuts(epoch: real)
    ensures IsoUtc(epoch) as real <= epoch * 1000.0 < IsoUtc(epoch) as real + 1.0
  {}

  /** The wait starts at the base and doubles with each failure, up to the cap,
      and is the cap from the 65th attempt on. */
  lemma BackoffDoubles(attempt: int, base: real, cap: real)
    requires base >= 0.0
    ensures attempt <= 0 ==> Backoff(attempt, base, cap) == MinReal(base, cap)
    ensures 0 <= attempt < 63 && cap >= 0.0 ==>
              Backoff(attempt + 1, base, cap) == MinReal(2.0 * Backoff(attempt, base, cap), cap)
    ensures attempt >= 64 ==> Backoff(attempt, base, cap) == cap
  {
    if attempt >= 0 { ExponentialGrows(attempt, attempt, base); }
  }

  /** With the default knobs: 1, 2, 4, ..., 512 seconds, and then 15 minutes. */
  lemma DefaultWaits(attempt: nat)
    ensures Backoff(0, DEFAULT_BASE, DEFAULT_CAP) == 1.0
    ensures attempt < 9 ==>
              Backoff(attempt + 1, DEFAULT_BASE, DEFAULT_CAP) == 2.0 * Backoff(attempt, DEFAULT_BASE, DEFAULT_CAP)
    ensures attempt >= 10 ==> Backoff(attempt, DEFAULT_BASE, DEFAULT_CAP) == 900.0
  {
    assert Pow2(1) == 2.0 && Pow2(2) == 4.0 && Pow2(3) == 8.0 && Pow2(4) == 16.0 && Pow2(5) == 32.0;
    assert Pow2(6) == 64.0 && Pow2(7) == 128.0 && Pow2(8) == 256.0 && Pow2(9) == 512.0 && Pow2(10) == 1024.0;
    if attempt >= 10 { ExponentialGrows(10, attempt, DEFAULT_BASE); }
  }

  // --------------------------------------------------------------------- ticks

  datatype Tick = Tick(now: real, answer: DeliveryResult, draw: Fraction)

  ghost function Head(rows: seq<Row>): Option<nat> {
    if exists i :: HeadIs(rows, i) then var i :| HeadIs(rows, i); Some(i) else None
  }

  ghost function TickRows(rows: seq<Row>, t: Tick, base: real, cap: real): seq<Row> {
    var h := Head(rows);
    if h.Some? && IsDue(rows[h.value], t.now)
    then rows[h.value := Settled(rows[h.value], t.now, t.answer, base, cap, t.draw)] else rows
  }

  ghost function TickResult(rows: seq<Row>, t: Tick, base: real, cap: real): DrainResult {
    var h := Head(rows);
    if h.None? then Idle
    else if !IsDue(rows[h.value], t.now) then Waiting
    else
      match Settled(rows[h.value], t.now, t.answer, base, cap, t.draw).status
      case Delivered => DeliveredOne
      case Failed => DeadLettered
      case Pending => RetryScheduled
  }

  /** The backoff is obeyed: whatever the notifier would say, a tick waits exactly
      when the first PENDING row is due later than now, and then changes nothing;
      and it is idle exactly when no row is PENDING. */
  lemma WaitsExactly(rows: seq<Row>, t: Tick, base: real, cap: real)
    ensures TickResult(rows, t, base, cap) == Waiting <==>
            exists i :: HeadIs(rows, i) && rows[i].due.Some? && rows[i].due.value > IsoUtc(t.now)
    ensures TickResult(rows, t, base, cap) == Idle <==> NonePending(rows)
    ensures TickResult(rows, t, base, cap) in {Waiting, Idle} ==> TickRows(rows, t, base, cap) == rows
  {
    hide Backoff, EqualJitter;
    if i :| HeadIs(rows, i) { HeadUnique(rows, i); }
    HeadOrNone(rows);
  }

  lemma HeadOrNone(rows: seq<Row>)
    ensures Head(rows).Some? ==> HeadIs(rows, Head(rows).value)
    ensures Head(rows).None? ==> NonePending(rows)
  {
    if !NonePending(rows) { SomeHead(rows); }
  }

  lemma {:induction false} SomeHead(rows: seq<Row>)
    requires !NonePending(rows)
    ensures exists i :: HeadIs(rows, i)
  {
    if !NonePending(Front(rows)) {
      SomeHead(Front(rows));
      var i :| HeadIs(Front(rows), i);
      assert HeadIs(rows, i);
    } else {
      assert forall j | 0 <= j < |rows| - 1 :: Front(rows)[j] == rows[j];
      assert HeadIs(rows, |rows| - 1);
    }
  }

  /** What an attempt leaves of its row, and how the tick reports it. */
  ghost predicate Attempted(row: Row, after: Row, r: DrainResult, t: Tick) {
    var said := (default: string) => if t.answer.error in {None, Some("")} then Some(default) else t.answer.error;
    && after.payload == row.payload
    && if row.payload.Malformed? then
         r == DeadLettered && after.status == Failed && after.error == Some("malformed-payload")
       else if t.answer.ok then r == DeliveredOne && after == row.(status := Delivered)
       else if !t.answer.retriable then
         r == DeadLettered && after.status == Failed && after.error == said("permanent-failure")
       else
         && r == RetryScheduled && after.status == Pending && after.error == said("transient-failure")
         && after.attempts == row.attempts + 1 && after.due.Some?
  }

  /** A tick touches the first PENDING row alone, and attempts it once it is due. */
  lemma AttemptsExactly(rows: seq<Row>, t: Tick, base: real, cap: real, i: nat)
    requires HeadIs(rows, i) && (rows[i].due.Some? ==> rows[i].due.value <= IsoUtc(t.now))
    ensures var after := TickRows(rows, t, base, cap);
            && |after| == |rows| && (forall j | 0 <= j < |rows| && j != i :: after[j] == rows[j])
            && Attempted(rows[i], after[i], TickResult(rows, t, base, cap), t)
    ensures var after, d := TickRows(rows, t, base, cap), Backoff(rows[i].attempts, base, cap);
            TickResult(rows, t, base, cap) == RetryScheduled && base >= 0.0 && cap >= 0.0 ==>
              IsoUtc(t.now + d / 2.0) <= after[i].due.value <= IsoUtc(t.now + d)
  {
    hide Backoff, EqualJitter, IsoUtc;
    HeadUnique(rows, i);
    var row := rows[i];
    if row.payload.Message? && !t.answer.ok && t.answer.retriable && base >= 0.0 && cap >= 0.0 {
      RetryDueWithinCap(row, t.now, t.answer, base, cap, t.draw);
    }
  }

  ghost function RowsAfter(rows: seq<Row>, ticks: seq<Tick>, base: real, cap: real): seq<Row> {
    if ticks == [] then rows else TickRows(RowsAfter(rows, Front(ticks), base, cap), Last(ticks), base, cap)
  }

  predicate MovesOn(r: DrainResult) { r == DeliveredOne || r == DeadLettered }

  ghost predicate PausesAfter(rows: seq<Row>, ticks: seq<Tick>, base: real, cap: real, k: nat)
    requires k < |ticks|
  {
    !MovesOn(TickResult(RowsAfter(rows, ticks[..k], base, cap), ticks[k], base, cap))
  }

  /** The pauses of a run of these ticks: none after the last. */
  ghost function Pauses(rows: seq<Row>, ticks: seq<Tick>, base: real, cap: real, n: nat): nat
    requires n <= |ticks|
  {
    if n == 0 then 0
    else Pauses(rows, ticks, base, cap, n - 1) +
         if n < |ticks| && PausesAfter(rows, ticks, base, cap, n - 1) then 1 else 0
  }

  class OutboxRepository {
    var rows: seq<Row>

    constructor (rows: seq<Row>)
      ensures this.rows == rows
    {
      this.rows := rows;
    }

    method Enqueue(payload: Payload) returns (id: nat)
      modifies this
      ensures rows == old(rows) + [Fresh(payload)] && id == |old(rows)|
    {
      id := |rows|;
      rows := rows + [Fresh(payload)];
    }

    /** The strict FIFO head, due or not. */
    method HeadPending() returns (head: Option<nat>)
      ensures head == Head(rows)
      ensures head.Some? ==> HeadIs(rows, head.value)
      ensures head.None? ==> NonePending(rows)
    {
      for k := 0 to |rows|
        invariant forall j | 0 <= j < k :: !rows[j].status.Pending?
      {
        if rows[k].status.Pending? {
          assert HeadIs(rows, k);
          return Some(k);
        }
      }
      head := None;
    }

    method MarkDelivered(id: nat)
      requires id < |rows|
      modifies this
      ensures rows == old(rows)[id := old(rows)[id].(status := Delivered)]
    {
      rows := rows[id := rows[id].(status := Delivered)];
    }

    method MarkFailed(id: nat, error: Option<string>)
      requires id < |rows|
      modifies this
      ensures rows == old(rows)[id := old(rows)[id].(status := Failed, error := error)]
    {
      rows := rows[id := rows[id].(status := Failed, error := error)];
    }

    method Reschedule(id: nat, due: int, error: Option<string>)
      requires id < |rows|
      modifies this
      ensures var row := old(rows)[id];
              rows == old(rows)[id := row.(attempts := row.attempts + 1, due := Some(due), error := error)]
    {
      rows := rows[id := rows[id].(attempts := rows[id].attempts + 1, due := Some(due), error := error)];
    }
  }

  /** drain_once; `answer` is what the notifier says if it is asked. */
  method DrainOnce(outbox: OutboxRepository, t: Tick, base: real := DEFAULT_BASE, cap: real := DEFAULT_CAP)
    returns (r: DrainResult)
    modifies outbox
    ensures outbox.rows == TickRows(old(outbox.rows), t, base, cap)
    ensures r == TickResult(old(outbox.rows), t, base, cap)
  {
    hide Backoff, EqualJitter;
    var h := outbox.HeadPending();
    if h.None? { return Idle; }
    var head := outbox.rows[h.value];
    if head.due.Some? && head.due.value > IsoUtc(t.now) { return Waiting; }
    if head.payload.Malformed? {
      outbox.MarkFailed(h.value, Some("malformed-payload"));
      return DeadLettered;
    }
    if t.answer.ok {
      outbox.MarkDelivered(h.value);
      return DeliveredOne;
    }
    if !t.answer.retriable {
      outbox.MarkFailed(h.value, ErrorOr(t.answer.error, "permanent-failure"));
      return DeadLettered;
    }
    var delay := EqualJitter(Backoff(head.attempts, base, cap), t.draw);
    outbox.Reschedule(h.value, IsoUtc(t.now + delay), ErrorOr(t.answer.error, "transient-failure"));
    r := RetryScheduled;
  }

  /** run_drain for a bounded number of ticks; pauses are counted. */
  method RunDrain(outbox: OutboxRepository, ticks: seq<Tick>, base: real := DEFAULT_BASE, cap: real := DEFAULT_CAP)
    returns (done: nat, pauses: nat)
    modifies outbox
    ensures done == |ticks| && outbox.rows == RowsAfter(old(outbox.rows), ticks, base, cap)
    ensures pauses == Pauses(old(outbox.rows), ticks, base, cap, |ticks|)
  {
    hide TickRows, TickResult;
    done, pauses := 0, 0;
    ghost var rows := outbox.rows;
    while done < |ticks|
      invariant done <= |ticks| && outbox.rows == RowsAfter(rows, ticks[..done], base, cap)
      invariant pauses == Pauses(rows, ticks, base, cap, done)
    {
      assert Front(ticks[..done + 1]) == ticks[..done];
      var r := DrainOnce(outbox, ticks[done], base, cap);
      done := done + 1;
      if done >= |ticks| { break; }
      if MovesOn(r) { continue; }
      pauses := pauses + 1;
    }
    assert ticks[..done] == ticks;
  }

  /** The loop pauses exactly after a tick that found nothing to do or put a retry off. */
  lemma PausesExactly(rows: seq<Row>, ticks: seq<Tick>, base: real, cap: real, k: nat)
    requires k < |ticks|
    ensures PausesAfter(rows, ticks, base, cap, k) <==>
            TickResult(RowsAfter(rows, ticks[..k], base, cap), ticks[k], base, cap) in {Idle, Waiting, RetryScheduled}
  {
    hide TickResult, RowsAfter;
  }

  ghost predicate AllMessages(rows: seq<Row>) { forall i | 0 <= i < |rows| :: rows[i].payload.Message? }

  lemma DownTick(rows: seq<Row>, t: Tick, base: real, cap: real)
    requires AllMessages(rows) && !t.answer.ok && t.answer.retriable
    ensures AllMessages(TickRows(rows, t, base, cap))
    ensures TickResult(rows, t, base, cap) in {Idle, Waiting, RetryScheduled}
  {
    hide Backoff, EqualJitter, ErrorOr;
    HeadOrNone(rows);
  }

  /** While the notifier is down the loop never spins: it pauses after every tick but
      the last. */
  lemma {:induction false} NeverSpins(rows: seq<Row>, ticks: seq<Tick>, base: real, cap: real, n: nat)
    requires AllMessages(rows) && n <= |ticks|
    requires forall k | 0 <= k < |ticks| :: !ticks[k].answer.ok && ticks[k].answer.retriable
    ensures AllMessages(RowsAfter(rows, ticks[..n], base, cap))
    ensures Pauses(rows, ticks, base, cap, n) == if n == |ticks| && n > 0 then n - 1 else n
  {
    hide TickRows, TickResult, AllMessages;
    if n == 0 {
      assert RowsAfter(rows, [], base, cap) == rows && ticks[..0] == [];
    } else {
      NeverSpins(rows, ticks, base, cap, n - 1);
      assert Front(ticks[..n]) == ticks[..n - 1];
      DownTick(RowsAfter(rows, ticks[..n - 1], base, cap), ticks[n - 1], base, cap);
      PausesExactly(rows, ticks, base, cap, n - 1);
    }
  }

  // ------------------------------------------------------------------ backlogs

  lemma HeadUnique(rows: seq<Row>, i: int)
    requires HeadIs(rows, i)
    ensures Head(rows) == Some(i)
  {}

  ghost predicate Backlog(rows: seq<Row>, i: nat) {
    i <= |rows| && Shaped(rows) && (forall j | 0 <= j < i :: !rows[j].status.Pending?) &&
    forall j | i <= j < |rows| :: rows[j].status.Pending?
  }

  lemma OneDrained(rows: seq<Row>, i: nat, t: Tick, base: real, cap: real)
    requires Backlog(rows, i) && i < |rows| && t.answer.ok && IsDue(rows[i], t.now)
    ensures var after := TickRows(rows, t, base, cap);
            && Backlog(after, i + 1) && |after| == |rows|
            && (forall j | 0 <= j < |rows| && j != i :: after[j] == rows[j])
            && after[i].status == (if rows[i].payload.Message? then Delivered else Failed)
            && (i + 1 < |rows| ==> after[i + 1].due.None?)
    ensures MovesOn(TickResult(rows, t, base, cap))
  {
    HeadUnique(rows, i);
  }

  /** The i-th row onward after n good ticks. */
  ghost predicate DrainedTo(before: seq<Row>, after: seq<Row>, i: nat, n: nat) {
    && i + n <= |before| == |after| && Backlog(after, i + n)
    && (forall j | 0 <= j < |before| && !(i <= j < i + n) :: after[j] == before[j])
    && (forall j | i <= j < i + n ::
          after[j].status == if before[j].payload.Message? then Delivered else Failed)
  }

  /** A backlog drains without pausing: if the head is due and the notifier
      accepts everything, n ticks settle the first n rows in id order and none
      of them pauses, because rows behind the head never carry a due time. */
  lemma {:induction false} BacklogDrains(rows: seq<Row>, i: nat, ticks: seq<Tick>, base: real, cap: real, n: nat)
    requires Backlog(rows, i) && i + |ticks| <= |rows| && n <= |ticks|
    requires ticks != [] ==> IsDue(rows[i], ticks[0].now)
    requires forall k | 0 <= k < |ticks| :: ticks[k].answer.ok
    ensures DrainedTo(rows, RowsAfter(rows, ticks[..n], base, cap), i, n)
    ensures Pauses(rows, ticks, base, cap, n) == 0
    ensures n < |ticks| ==> IsDue(RowsAfter(rows, ticks[..n], base, cap)[i + n], ticks[n].now)
  {
    hide TickRows, TickResult, Shaped;
    if n == 0 {
    } else {
      BacklogDrains(rows, i, ticks, base, cap, n - 1);
      assert Front(ticks[..n]) == ticks[..n - 1];
      var before := RowsAfter(rows, ticks[..n - 1], base, cap);
      OneDrained(before, i + n - 1, ticks[n - 1], base, cap);
    }
  }
}
