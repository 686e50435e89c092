/** Chat and CLI as two tasks over the shared row: every read, every write and
    the one transaction are separate steps, in any order, with crashes, with
    redelivered chat messages and with labels set or cleared from outside. */
module InitProtocol {
  import opened Orders
  import opened InitSessions

  datatype Command = Name(text: string) | Ignore | IgnoreDevice(device: int) | Skip | Finish | Init | Cancel | Other

  /** What a task is about to do next; `row` is its own copy of a session. */
  datatype Pc =
    | Resting
    | Arrived(command: Command)
    | Routed(command: Command)
    | Requiring(command: Command)
    | Expiring(id: nat, restart: bool)
    | Applying(seen: nat, name: string)
    | Skipping(id: nat, row: Session)
    | Closing(id: nat, status: EndStatus, message: Option<int>, note: bool)
    | Moving(id: nat, row: Session, index: nat, note: bool)
    | MovingCursor(id: nat, row: Session, index: nat, note: bool)
    | Noting(id: nat)
    | Listing
    | Creating(ids: seq<int>)
    | Conflicted

  /** `prompted` is the device the task's user was last asked about, and `line`
      the number of the message or line being handled. */
  datatype Task = Task(pc: Pc, deps: Deps, prompted: Option<int>, line: nat)

  /** One label set by the session: by whom, for which line, on what, and what was
      there. */
  datatype Entry = Entry(
    byCli: bool, line: nat, device: int, name: string, deps: Deps, prompted: Option<int>, previous: Option<string>)

  datatype World = World(db: Db, chat: Task, cli: Task, log: seq<Entry>, typed: nat)

  datatype Event =
    | Receive(command: Command, message: int)
    | StartCli
    | LookCli
    | TypeCli(command: Command)
    | Run(byCli: bool, now: int, present: seq<int>)
    | Crash(byCli: bool)
    | Relabel(device: int, name: Option<string>)

  /** A task after one of its steps, and the tables it leaves. */
  datatype Stepped = Stepped(db: Db, task: Task)

  function At(t: Task, pc: Pc): Task { t.(pc := pc) }

  function ActiveRow(db: Db): Option<Session> {
    var a := ActiveIn(db.sessions);
    if a.None? then None else Some(db.sessions[a.value])
  }

  /** _replay_if_duplicate: a redelivered message re-prompts or expires. */
  function Replay(db: Db, t: Task, command: Command, now: int): Pc {
    var a := ActiveIn(db.sessions);
    if t.deps.message.Some? && a.Some? && db.sessions[a.value].lastMessage == t.deps.message then
      var row := db.sessions[a.value];
      if IsStale(row, now) then Expiring(a.value, false) else Moving(a.value, row, row.cursor, false)
    else Routed(command)
  }

  /** The first read of each verb. */
  function Route(db: Db, command: Command, now: int): Pc {
    var a := ActiveIn(db.sessions);
    match command
    case Init =>
      if a.None? then Listing
      else
        var row := db.sessions[a.value];
        if IsStale(row, now) then Expiring(a.value, true) else Moving(a.value, row, row.cursor, true)
    case Cancel => Require(db, command, now)
    case Name(_) => Require(db, command, now)
    case Skip => if a.None? then Resting else Requiring(command)
    case Finish => if a.None? then Resting else Requiring(command)
    case Ignore => if a.None? then Resting else Requiring(command)
    case IgnoreDevice(d) =>
      if a.Some? && CursorDevice(db.sessions[a.value]) == Some(d) then Requiring(command) else Resting
    case Other => Resting
  }

  /** _require_active, and what its session is wanted for. */
  function Require(db: Db, command: Command, now: int): Pc {
    var a := ActiveIn(db.sessions);
    if a.None? then Resting
    else
      var row := db.sessions[a.value];
      if IsStale(row, now) then Expiring(a.value, false)
      else
        match command
        case Name(text) => Applying(row.cursor, text)
        case Ignore => Applying(row.cursor, IGNORED_LABEL)
        case IgnoreDevice(_) => Applying(row.cursor, IGNORED_LABEL)
        case Skip => Skipping(a.value, row)
        case Finish => Closing(a.value, Done, None, false)
        case Cancel => Closing(a.value, Cancelled, None, false)
        case _ => Resting
  }

  /** After a prompt or a closing: start_or_resume also notes the message. */
  function Noted(t: Task, id: nat, note: bool): Pc {
    if note && t.deps.message.Some? then Noting(id) else Resting
  }

  /** The members list_present_unlabeled may return. */
  predicate Listable(db: Db, present: seq<int>) {
    |present| > 0 && forall i | 0 <= i < |present| :: Unlabelled(db, present[i])
  }

  function Created(db: Db, ids: seq<int>, now: int): Db {
    db.(sessions := db.sessions + [Session(Active, 0, ids, now + 1_800_000, None)])
  }

  function RunTask(db: Db, t: Task, now: int, present: seq<int>): Stepped {
    match t.pc
    case Resting => Stepped(db, t)
    case Arrived(command) => Stepped(db, At(t, Replay(db, t, command, now)))
    case Routed(command) => Stepped(db, At(t, WithMessage(Route(db, command, now), t.deps)))
    case Requiring(command) => Stepped(db, At(t, WithMessage(Require(db, command, now), t.deps)))
    case Expiring(id, restart) =>
      Stepped(SetStatus(db, id, Expired, None), At(t, if restart then Listing else Resting))
    case Applying(seen, name) =>
      var after := Applied(db, seen, t.deps, name, now);
      var asked := ActiveRow(after);
      Stepped(after, t.(pc := Resting, prompted := if asked.Some? then CursorDevice(asked.value) else t.prompted))
    case Skipping(id, row) =>
      if ExpectedMismatch(t.deps, row) then Stepped(db, At(t, Moving(id, row, row.cursor, false)))
      else
        Stepped(SetCursor(db, id, row.cursor + 1, t.deps.message),
                At(t, Moving(id, row.(cursor := row.cursor + 1), row.cursor + 1, false)))
    case Closing(id, status, message, note) =>
      Stepped(SetStatus(db, id, status, message), At(t, Noted(t, id, note)))
    case Moving(id, row, index, note) =>
      if index >= |row.ids| then Stepped(db, At(t, Closing(id, Done, None, note)))
      else if !Unlabelled(db, row.ids[index]) then Stepped(db, At(t, Moving(id, row, index + 1, note)))
      else if index != row.cursor then Stepped(db, At(t, MovingCursor(id, row, index, note)))
      else Stepped(db, t.(pc := Noted(t, id, note), prompted := Some(row.ids[index])))
    case MovingCursor(id, row, index, note) =>
      Stepped(SetCursor(db, id, index, None),
              t.(pc := Noted(t, id, note), prompted := if index < |row.ids| then Some(row.ids[index]) else t.prompted))
    case Noting(id) =>
      Stepped(if t.deps.message.Some? then Remember(db, id, t.deps.message.value) else db, At(t, Resting))
    case Listing => Stepped(db, At(t, if Listable(db, present) then Creating(present) else Resting))
    case Creating(ids) =>
      if ActiveIn(db.sessions).Some? then Stepped(db, At(t, Conflicted))
      else
        var after := Created(db, ids, now);
        Stepped(after, At(t, Moving(|db.sessions|, Last(after.sessions), 0, true)))
    case Conflicted =>
      var a := ActiveIn(db.sessions);
      if a.None? then Stepped(db, At(t, Resting))
      else
        var row := db.sessions[a.value];
        Stepped(db, At(t, Moving(a.value, row, row.cursor, true)))
  }

  /** /done and /cancel close the row with their own message. */
  function WithMessage(pc: Pc, deps: Deps): Pc {
    if pc.Closing? then pc.(message := deps.message) else pc
  }

  /** What a task's next step labels. */
  function Labels(db: Db, t: Task, now: int): Option<int> {
    if t.pc.Applying? then Target(db, t.pc.seen, t.deps, t.pc.name, now) else None
  }

  function EntryOf(db: Db, t: Task, byCli: bool, device: int): Entry
    requires t.pc.Applying?
  {
    Entry(byCli, t.line, device, t.pc.name, t.deps, t.prompted,
          if device in db.labels then db.labels[device] else None)
  }

  function TaskOf(w: World, byCli: bool): Task { if byCli then w.cli else w.chat }

  function WithTask(w: World, byCli: bool, t: Task): World { if byCli then w.(cli := t) else w.(chat := t) }

  function Logged(w: World, byCli: bool, now: int): seq<Entry> {
    var t := TaskOf(w, byCli);
    var labels := Labels(w.db, t, now);
    if t.pc.Applying? && labels.Some? then w.log + [EntryOf(w.db, t, byCli, labels.value)] else w.log
  }

  /** An event whose task is busy, or idle, as the case may be, is no step. */
  function Step(w: World, e: Event): World {
    match e
    case Receive(command, message) =>
      if w.chat.pc.Resting?
      then w.(chat := Task(Arrived(command), Deps(Some(message), None), w.chat.prompted, w.typed),
              typed := w.typed + 1)
      else w
    case StartCli =>
      if w.cli.pc.Resting? then w.(cli := Task(Routed(Init), Deps(None, None), w.cli.prompted, w.cli.line)) else w
    case LookCli =>
      var row := ActiveRow(w.db);
      if w.cli.pc.Resting? && row.Some? then w.(cli := w.cli.(deps := Deps(None, CursorDevice(row.value)))) else w
    case TypeCli(command) =>
      if w.cli.pc.Resting?
      then w.(cli := Task(Arrived(command), w.cli.deps.(message := None), w.cli.prompted, w.typed),
              typed := w.typed + 1)
      else w
    case Run(byCli, now, present) =>
      var r := RunTask(w.db, TaskOf(w, byCli), now, present);
      WithTask(w.(db := r.db, log := Logged(w, byCli, now)), byCli, r.task)
    case Crash(byCli) => WithTask(w, byCli, At(TaskOf(w, byCli), Resting))
    case Relabel(device, name) =>
      if device in w.db.labels then w.(db := w.db.(labels := w.db.labels[device := name])) else w
  }

  const AT_REST := Task(Resting, Deps(None, None), None, 0)

  function Begin(labels: map<int, Option<string>>): World { World(Db([], labels), AT_REST, AT_REST, [], 0) }

  function From(w: World, events: seq<Event>): World {
    if events == [] then w else Step(From(w, Front(events)), Last(events))
  }

  function After(labels: map<int, Option<string>>, events: seq<Event>): World { From(Begin(labels), events) }

  // ------------------------------------------------------------- every history

  ghost predicate Careful(e: Entry) {
    && e.previous.None?
    && (e.byCli && e.deps.expected.Some? ==> e.device == e.deps.expected.value)
    && (e.byCli ==> e.deps.message.None?)
    && (!e.byCli ==> e.deps.expected.None?)
  }

  /** The command being handled may still set a label. */
  predicate MayLabel(t: Task) {
    t.pc.Arrived? || (t.pc.Routed? && !t.pc.command.Init?) || t.pc.Requiring? || t.pc.Applying?
  }

  /** No label was set for this line. */
  ghost predicate Unused(log: seq<Entry>, line: nat) { forall k | 0 <= k < |log| :: log[k].line != line }

  ghost predicate OneLabelALine(w: World) {
    && (forall a, b | 0 <= a < b < |w.log| :: w.log[a].line != w.log[b].line)
    && (forall k | 0 <= k < |w.log| :: w.log[k].line < w.typed)
    && (MayLabel(w.chat) ==> w.chat.line < w.typed && Unused(w.log, w.chat.line))
    && (MayLabel(w.cli) ==> w.cli.line < w.typed && Unused(w.log, w.cli.line))
    && (MayLabel(w.chat) && MayLabel(w.cli) ==> w.chat.line != w.cli.line)
  }

  /** The CLI has no message to record. */
  ghost predicate Silent(t: Task) { t.deps.message.None? && (t.pc.Closing? ==> t.pc.message.None?) }

  ghost predicate Sound(w: World) {
    && OneActive(w.db)
    && (forall k | 0 <= k < |w.log| :: Careful(w.log[k]))
    && Silent(w.cli) && w.chat.deps.expected.None?
    && OneLabelALine(w)
  }

  lemma TargetIsExpected(db: Db, seen: nat, deps: Deps, name: string, now: int)
    ensures var t := Target(db, seen, deps, name, now);
            t.Some? ==> Unlabelled(db, t.value) && (deps.expected.Some? ==> t.value == deps.expected.value)
  {}

  /** A step of a task reopens no session, so at most one stays ACTIVE. */
  lemma RunKeepsOneActive(db: Db, t: Task, now: int, present: seq<int>)
    requires OneActive(db)
    ensures OneActive(RunTask(db, t, now, present).db)
  {
    hide Applied, Target, Replay, Route, Require, Noted, Listable, ActiveRow, SetCursor, SetStatus, Remember, OneActive;
    match t.pc
    case Applying(seen, name) =>
      AppliedRows(db, seen, t.deps, name, now);
      NoneReopened(db, Applied(db, seen, t.deps, name, now));
    case Expiring(id, _) => WritesReopenNothing(db, id, 0, Expired, None, 0);
    case Skipping(id, row) => WritesReopenNothing(db, id, row.cursor + 1, Done, t.deps.message, 0);
    case Closing(id, status, message, _) => WritesReopenNothing(db, id, 0, status, message, 0);
    case MovingCursor(id, _, index, _) => WritesReopenNothing(db, id, index, Done, None, 0);
    case Noting(id) => if t.deps.message.Some? { WritesReopenNothing(db, id, 0, Done, None, t.deps.message.value); }
    case Creating(ids) => if ActiveIn(db.sessions).None? { CreatedAlone(db, ids, now); }
    case _ =>
  }

  lemma WritesReopenNothing(db: Db, id: nat, cursor: nat, status: EndStatus, message: Option<int>, m: int)
    requires OneActive(db)
    ensures OneActive(SetCursor(db, id, cursor, message)) && OneActive(SetStatus(db, id, status, message))
    ensures OneActive(Remember(db, id, m))
  {}

  lemma CreatedAlone(db: Db, ids: seq<int>, now: int)
    requires ActiveIn(db.sessions).None?
    ensures OneActive(Created(db, ids, now))
  {}

  lemma NoneReopened(db: Db, after: Db)
    requires OneActive(db) && |after.sessions| == |db.sessions|
    requires forall i | 0 <= i < |db.sessions| :: after.sessions[i].status.Active? ==> db.sessions[i].status.Active?
    ensures OneActive(after)
  {}

  lemma RunKeepsDeps(db: Db, t: Task, now: int, present: seq<int>)
    ensures var r := RunTask(db, t, now, present).task;
            && r.deps == t.deps && r.line == t.line
            && (MayLabel(r) ==> MayLabel(t) && Labels(db, t, now).None?)
            && (Silent(t) ==> Silent(r))
    ensures Labels(db, t, now).Some? ==> MayLabel(t)
  {
    hide Applied, Target, Listable, ActiveRow, ActiveIn;
  }

  /** A task's step uses its line up when it labels, and takes up no other. */
  lemma StepLabelsOnce(w: World, byCli: bool, now: int, present: seq<int>)
    requires OneLabelALine(w)
    ensures OneLabelALine(Step(w, Run(byCli, now, present)))
  {
    hide RunTask, Labels, MayLabel;
    RunKeepsDeps(w.db, TaskOf(w, byCli), now, present);
  }

  lemma StepSound(w: World, e: Event)
    requires Sound(w)
    ensures Sound(Step(w, e))
  {
    hide RunTask, Target, ActiveIn;
    if e.Run? {
      hide OneLabelALine, MayLabel;
      var t := TaskOf(w, e.byCli);
      RunKeepsOneActive(w.db, t, e.now, e.present);
      RunKeepsDeps(w.db, t, e.now, e.present);
      StepLabelsOnce(w, e.byCli, e.now, e.present);
      if t.pc.Applying? { TargetIsExpected(w.db, t.pc.seen, t.deps, t.pc.name, e.now); }
    }
  }

  lemma {:induction false} AlwaysSound(labels: map<int, Option<string>>, events: seq<Event>)
    ensures Sound(After(labels, events))
  {
    hide Sound, Step;
    if events == [] {
      BeginSound(labels);
    } else {
      AlwaysSound(labels, Front(events));
      StepSound(After(labels, Front(events)), Last(events));
    }
  }

  lemma BeginSound(labels: map<int, Option<string>>)
    ensures Sound(Begin(labels))
  {}

  /** Under every interleaving: at most one session is open, no session step
      overwrites a label, one message or line names at most one device, and a
      CLI name whose last look found a device under the cursor lands on it. */
  lemma LabelsAreSafe(labels: map<int, Option<string>>, events: seq<Event>, k: nat)
    requires k < |After(labels, events).log|
    ensures var w := After(labels, events);
            && OneActive(w.db)
            && w.log[k].previous.None?
            && w.log[k].line < w.typed && (forall j | 0 <= j < k :: w.log[j].line != w.log[k].line)
            && (w.log[k].byCli && w.log[k].deps.expected.Some? ==> w.log[k].device == w.log[k].deps.expected.value)
  {
    hide After;
    AlwaysSound(labels, events);
    assert Careful(After(labels, events).log[k]);
  }

  /** On every run a CLI name whose last look found a device lands on the device
      its user was asked about exactly when that look found that very device. */
  lemma PromptedExactly(labels: map<int, Option<string>>, events: seq<Event>, k: nat)
    requires k < |After(labels, events).log|
    ensures var e := After(labels, events).log[k];
            e.byCli && e.deps.expected.Some? ==> (e.prompted == Some(e.device) <==> e.deps.expected == e.prompted)
  {
    hide After;
    LabelsAreSafe(labels, events, k);
  }

  /** Whoever asks about a device asks about the one under the cursor it leaves. */
  lemma AsksAtTheCursor(db: Db, t: Task, now: int, present: seq<int>, id: nat)
    requires ActiveIn(db.sessions) == Some(id) && (t.pc.Moving? || t.pc.MovingCursor?) && t.pc.id == id
    requires t.pc.row.ids == db.sessions[id].ids && t.pc.row.cursor == db.sessions[id].cursor
    ensures var r := RunTask(db, t, now, present);
            r.task.pc.Resting? || r.task.pc.Noting? ==>
              id < |r.db.sessions| && CursorDevice(r.db.sessions[id]) ==
                if t.pc.index < |t.pc.row.ids| then r.task.prompted else None
  {
    hide ActiveIn;
  }

  /** A name's transaction asks about the device under the cursor of what it leaves open. */
  lemma NamesAskAtTheCursor(db: Db, t: Task, now: int, present: seq<int>)
    requires t.pc.Applying?
    ensures var r := RunTask(db, t, now, present);
            var live := ActiveIn(r.db.sessions);
            r.task.pc.Resting? &&
            r.task.prompted == if live.Some? then CursorDevice(r.db.sessions[live.value]) else t.prompted
  {
    hide ActiveIn, Applied;
  }

  lemma AppliedKeepsCursor(db: Db, seen: nat, deps: Deps, name: string, now: int)
    requires ActiveIn(db.sessions).Some?
    ensures var id, a := ActiveIn(db.sessions).value, Applied(db, seen, deps, name, now);
            && id < |a.sessions|
            && a.sessions[id].cursor >= db.sessions[id].cursor
            && (Records(db, seen, deps, name, now) && a.sessions[id].status.Active? ==>
                  a.sessions[id].cursor > db.sessions[id].cursor)
  {
    hide ActiveIn, NextUnlabelled;
    AppliedSettles(db, seen, deps, name, now);
  }

  /** At any point of any run a name, from chat or the CLI, leaves every session's
      cursor where it was or further on, and past the member it was found at. */
  lemma NamesNeverGoBack(labels: map<int, Option<string>>, events: seq<Event>, byCli: bool, now: int, present: seq<int>,
                         i: nat)
    requires TaskOf(After(labels, events), byCli).pc.Applying? && i < |After(labels, events).db.sessions|
    ensures var w := After(labels, events);
            var v, t := Step(w, Run(byCli, now, present)), TaskOf(w, byCli);
            && i < |v.db.sessions| && v.db.sessions[i].cursor >= w.db.sessions[i].cursor
            && (ActiveIn(w.db.sessions) == Some(i) && Records(w.db, t.pc.seen, t.deps, t.pc.name, now) ==>
                  v.db.sessions[i].status.Active? ==> v.db.sessions[i].cursor > w.db.sessions[i].cursor)
  {
    hide After, Applied, ActiveIn, ActiveRow, Target, Records;
    var w := After(labels, events);
    var t := TaskOf(w, byCli);
    AppliedSettles(w.db, t.pc.seen, t.deps, t.pc.name, now);
    if ActiveIn(w.db.sessions).Some? { AppliedKeepsCursor(w.db, t.pc.seen, t.deps, t.pc.name, now); }
  }

  // -------------------------------------------------------------- redelivery

  /** The session remembers message m, and chat is not about to label. */
  ghost predicate HeardAlready(w: World, m: int, id: nat) {
    && id < |w.db.sessions| && w.db.sessions[id].lastMessage == Some(m)
    && (w.chat.pc.Resting? || (w.chat.deps.message == Some(m) && OnlyPrompts(w.chat.pc)))
    && Silent(w.cli)
  }

  predicate OnlyPrompts(pc: Pc) {
    match pc
    case Arrived(_) => true
    case Expiring(_, restart) => !restart
    case Moving(_, _, _, note) => !note
    case MovingCursor(_, _, _, note) => !note
    case Closing(_, _, message, note) => !note && message.None?
    case _ => false
  }

  /** No newer chat message, and the session still open when chat looks it up. */
  ghost predicate Redelivers(w: World, e: Event, m: int, id: nat) {
    && (e.Receive? ==> e.message == m)
    && (e.Run? && !e.byCli && w.chat.pc.Arrived? ==> ActiveIn(w.db.sessions) == Some(id))
  }

  /** A task without a message leaves every last message as it is. */
  lemma SilentKeepsMessages(db: Db, t: Task, now: int, present: seq<int>, i: nat)
    requires Silent(t) && i < |db.sessions|
    ensures var r := RunTask(db, t, now, present);
            i < |r.db.sessions| && r.db.sessions[i].lastMessage == db.sessions[i].lastMessage && Silent(r.task)
  {
    hide Applied, Target, Listable, ActiveRow, ActiveIn;
    if t.pc.Applying? { AppliedRows(db, t.pc.seen, t.deps, t.pc.name, now); }
  }

  lemma PromptingKeepsMessages(db: Db, t: Task, now: int, present: seq<int>, m: int, id: nat)
    requires OnlyPrompts(t.pc) && t.deps.message == Some(m)
    requires id < |db.sessions| && db.sessions[id].lastMessage == Some(m)
    requires t.pc.Arrived? ==> ActiveIn(db.sessions) == Some(id)
    ensures var r := RunTask(db, t, now, present);
            && id < |r.db.sessions| && r.db.sessions[id].lastMessage == Some(m)
            && (r.task.pc.Resting? || OnlyPrompts(r.task.pc))
  {
    hide Applied, Target, Listable, ActiveRow, Route, Require;
  }

  lemma HeardStep(w: World, e: Event, m: int, id: nat)
    requires HeardAlready(w, m, id) && Redelivers(w, e, m, id)
    ensures HeardAlready(Step(w, e), m, id)
    ensures var l := Step(w, e).log;
            l == w.log || (|l| == |w.log| + 1 && l[..|w.log|] == w.log && Last(l).byCli)
  {
    hide RunTask, Target, ActiveIn;
    if e.Run? {
      var t := TaskOf(w, e.byCli);
      RunKeepsDeps(w.db, t, e.now, e.present);
      if e.byCli {
        SilentKeepsMessages(w.db, t, e.now, e.present, id);
      } else if w.chat.pc.Resting? {
        RestingStays(w.db, t, e.now, e.present);
      } else {
        PromptingKeepsMessages(w.db, t, e.now, e.present, m, id);
      }
    }
  }

  lemma RestingStays(db: Db, t: Task, now: int, present: seq<int>)
    requires t.pc.Resting?
    ensures RunTask(db, t, now, present) == Stepped(db, t)
  {}

  ghost predicate AllRedeliver(w: World, events: seq<Event>, m: int, id: nat) {
    forall k | 0 <= k < |events| :: Redelivers(From(w, events[..k]), events[k], m, id)
  }

  lemma {:induction false} HeardForever(w: World, events: seq<Event>, m: int, id: nat)
    requires HeardAlready(w, m, id) && AllRedeliver(w, events, m, id)
    ensures HeardAlready(From(w, events), m, id)
    ensures |w.log| <= |From(w, events).log| && From(w, events).log[..|w.log|] == w.log
    ensures forall k | |w.log| <= k < |From(w, events).log| :: From(w, events).log[k].byCli
  {
    hide HeardAlready, Redelivers, Step;
    if events == [] {
    } else {
      var p, n := Front(events), |events| - 1;
      forall k | 0 <= k < |p| ensures Redelivers(From(w, p[..k]), p[k], m, id) { assert p[..k] == events[..k]; }
      assert events[..n] == p;
      HeardForever(w, p, m, id);
      HeardStep(From(w, p), events[n], m, id);
    }
  }

  /** The session on which a chat step records its message, if it does: a name
      that found the row where it was seen, a skip, or an /init that has prompted. */
  ghost function RecordedOn(db: Db, t: Task, now: int): Option<nat> {
    match t.pc
    case Applying(seen, name) => if Records(db, seen, t.deps, name, now) then ActiveIn(db.sessions) else None
    case Skipping(id, row) => if !ExpectedMismatch(t.deps, row) && id < |db.sessions| then Some(id) else None
    case Noting(id) => if id < |db.sessions| then Some(id) else None
    case _ => None
  }

  lemma RecordingStep(db: Db, t: Task, now: int, present: seq<int>, m: int)
    requires t.deps.message == Some(m) && RecordedOn(db, t, now).Some?
    ensures var r, id := RunTask(db, t, now, present), RecordedOn(db, t, now).value;
            && id < |r.db.sessions| && r.db.sessions[id].lastMessage == Some(m)
            && (r.task.pc.Resting? || OnlyPrompts(r.task.pc))
  {
    hide Applied, Listable, ActiveRow, ActiveIn;
    if t.pc.Applying? {
      RecordsExactly(db, t.pc.seen, t.deps, t.pc.name, now);
      AppliedRows(db, t.pc.seen, t.deps, t.pc.name, now);
    }
  }

  /** A redelivered message labels nothing: at any point of any run, once a chat
      step has recorded message m on a session, no further chat step labels
      anything while m is the newest chat message and that session is found open,
      whatever the CLI and others do meanwhile. */
  lemma {:induction false} RedeliveryLabelsNothing(labels: map<int, Option<string>>, earlier: seq<Event>,
                                                   now: int, present: seq<int>, m: int, events: seq<Event>)
    requires var w := After(labels, earlier);
             && w.chat.deps.message == Some(m) && RecordedOn(w.db, w.chat, now).Some?
             && AllRedeliver(Step(w, Run(false, now, present)), events, m, RecordedOn(w.db, w.chat, now).value)
    ensures var w := After(labels, earlier);
            OnlyCliLabels(|Step(w, Run(false, now, present)).log|, From(Step(w, Run(false, now, present)), events).log)
  {
    hide AllRedeliver, RunTask, From, RecordedOn, Labels;
    AlwaysSound(labels, earlier);
    var w := After(labels, earlier);
    RecordingStep(w.db, w.chat, now, present, m);
    RunKeepsDeps(w.db, w.chat, now, present);
    HeardForever(Step(w, Run(false, now, present)), events, m, RecordedOn(w.db, w.chat, now).value);
  }

  /** Nothing in the log from entry n on was labelled by chat. */
  ghost predicate OnlyCliLabels(n: nat, log: seq<Entry>) { forall k | n <= k < |log| :: log[k].byCli }

  /** Every chat message among the events is this one. */
  ghost predicate Repeats(events: seq<Event>, command: Command, m: int) {
    forall k | 0 <= k < |events| :: events[k].Receive? ==> events[k] == Receive(command, m)
  }

  /** The redelivered name, handled without interruption. */
  function Again(name: string, m: int, now: int): seq<Event> {
    [Receive(Name(name), m), Run(false, now, []), Run(false, now, []), Run(false, now, [])]
  }

  /** A name that moves the open session on leaves it at an unlabelled device. */
  lemma StillOpenMeans(db: Db, seen: nat, deps: Deps, name: string, now: int, id: nat)
    requires ActiveIn(db.sessions) == Some(id) && name != "" && deps.expected.None?
    requires var a := Applied(db, seen, deps, name, now); ActiveIn(a.sessions) == Some(id)
    ensures var a := Applied(db, seen, deps, name, now);
            && !IsStale(a.sessions[id], now)
            && CursorDevice(a.sessions[id]).Some? && Unlabelled(a, CursorDevice(a.sessions[id]).value)
  {
    hide ActiveIn;
  }

  /** w is v but for chat, which handles message m and is about to do this. */
  ghost predicate ChatIsAt(v: World, w: World, pc: Pc, m: int) {
    w.db == v.db && w.log == v.log && w.chat.pc == pc && w.chat.deps == Deps(Some(m), None)
  }

  /** An unrecorded name is routed, read and applied like a new one. */
  lemma AgainRouted(v: World, w: World, name: string, m: int, now: int, id: nat)
    requires ChatIsAt(v, w, Arrived(Name(name)), m)
    requires ActiveIn(v.db.sessions) == Some(id) && v.db.sessions[id].lastMessage != Some(m)
    ensures ChatIsAt(v, Step(w, Run(false, now, [])), Routed(Name(name)), m)
  {
    hide ActiveIn;
  }

  lemma AgainRead(v: World, w: World, name: string, m: int, now: int, id: nat)
    requires ChatIsAt(v, w, Routed(Name(name)), m)
    requires ActiveIn(v.db.sessions) == Some(id) && !IsStale(v.db.sessions[id], now)
    ensures ChatIsAt(v, Step(w, Run(false, now, [])), Applying(v.db.sessions[id].cursor, name), m)
  {
    hide ActiveIn;
  }

  lemma AgainApplied(v: World, w: World, name: string, m: int, now: int, id: nat)
    requires ActiveIn(v.db.sessions) == Some(id) && name != "" && !IsStale(v.db.sessions[id], now)
    requires CursorDevice(v.db.sessions[id]).Some? && Unlabelled(v.db, CursorDevice(v.db.sessions[id]).value)
    requires ChatIsAt(v, w, Applying(v.db.sessions[id].cursor, name), m)
    ensures var log := Step(w, Run(false, now, [])).log; |log| == |v.log| + 1 && !Last(log).byCli
  {
    hide ActiveIn, RunTask;
  }

  /** So its redelivery labels. */
  lemma AgainLabels(v: World, name: string, m: int, now: int, id: nat)
    requires v.chat.pc.Resting? && ActiveIn(v.db.sessions) == Some(id) && name != ""
    requires v.db.sessions[id].lastMessage != Some(m) && !IsStale(v.db.sessions[id], now)
    requires CursorDevice(v.db.sessions[id]).Some? && Unlabelled(v.db, CursorDevice(v.db.sessions[id]).value)
    ensures var events := Again(name, m, now);
            && AllRedeliver(v, events, m, id) && Repeats(events, Name(name), m)
            && !OnlyCliLabels(|v.log|, From(v, events).log)
  {
    hide RunTask, ActiveIn, CursorDevice, Unlabelled, IsStale;
    var e := Again(name, m, now);
    var v1 := Step(v, e[0]);
    assert ChatIsAt(v, v1, Arrived(Name(name)), m);
    hide Step;
    AgainRouted(v, v1, name, m, now, id);
    AgainRead(v, Step(v1, e[1]), name, m, now, id);
    AgainApplied(v, Step(Step(v1, e[1]), e[2]), name, m, now, id);
    assert Front(e[..1]) == [] && Front(e[..2]) == e[..1] && Front(e[..3]) == e[..2] && Front(e) == e[..3];
    assert From(v, e[..0]) == v && From(v, e[..1]) == v1;
    assert From(v, e[..2]) == Step(v1, e[1]) && From(v, e[..3]) == Step(Step(v1, e[1]), e[2]);
    var log := From(v, e).log;
    assert log[|v.log|] == Last(log);
  }

  /** When redelivery is harmless: after chat's step for a name, with its session
      still open, no redelivery of the name labels anything if and only if the
      step recorded the message or the row remembered it already. */
  lemma {:induction false} RedeliveryExactly(labels: map<int, Option<string>>, earlier: seq<Event>, now: int, m: int)
    requires var w := After(labels, earlier);
             && w.chat.pc.Applying? && w.chat.pc.name != "" && w.chat.deps.message == Some(m)
             && ActiveIn(w.db.sessions).Some?
             && ActiveIn(Step(w, Run(false, now, [])).db.sessions) == ActiveIn(w.db.sessions)
    ensures var w := After(labels, earlier);
            var v, id := Step(w, Run(false, now, [])), ActiveIn(w.db.sessions).value;
            (forall events | AllRedeliver(v, events, m, id) && Repeats(events, Name(w.chat.pc.name), m) ::
               OnlyCliLabels(|v.log|, From(v, events).log))
            <==> Records(w.db, w.chat.pc.seen, w.chat.deps, w.chat.pc.name, now) ||
                 w.db.sessions[id].lastMessage == Some(m)
  {
    hide AllRedeliver, Applied, From, Repeats, OnlyCliLabels, After, ActiveIn, Records;
    AlwaysSound(labels, earlier);
    var w := After(labels, earlier);
    var t, name := w.chat, w.chat.pc.name;
    var v, id := Step(w, Run(false, now, [])), ActiveIn(w.db.sessions).value;
    RecordsExactly(w.db, t.pc.seen, t.deps, name, now);
    if v.db.sessions[id].lastMessage == Some(m) {
      forall events | AllRedeliver(v, events, m, id) ensures OnlyCliLabels(|v.log|, From(v, events).log) {
        HeardMeans(v, events, m, id);
      }
    } else {
      StillOpenMeans(w.db, t.pc.seen, t.deps, name, now, id);
      AgainLabels(v, name, m, now, id);
    }
  }

  lemma HeardMeans(v: World, events: seq<Event>, m: int, id: nat)
    requires HeardAlready(v, m, id) && AllRedeliver(v, events, m, id)
    ensures OnlyCliLabels(|v.log|, From(v, events).log)
  {
    hide AllRedeliver, From, HeardAlready;
    HeardForever(v, events, m, id);
  }

  // -------------------------------------------------- the prompt that moved on

  ghost predicate Reachable(labels: map<int, Option<string>>, w: World) { exists events :: After(labels, events) == w }

  lemma Reach(labels: map<int, Option<string>>, w: World, e: Event)
    requires Reachable(labels, w)
    ensures Reachable(labels, Step(w, e))
  {
    hide Step;
    var events :| After(labels, events) == w;
    assert Front(events + [e]) == events;
    assert After(labels, events + [e]) == Step(w, e);
  }

  const TWO: map<int, Option<string>> := map[1 := None, 2 := None]

  const OPEN := Session(Active, 0, [1, 2], 1_800_000, None)

  const MOVED := OPEN.(cursor := 1, lastMessage := Some(7))

  function CliAt(db: Db, pc: Pc, expected: Option<int>, prompted: Option<int>, log: seq<Entry>, typed: nat): World {
    World(db, AT_REST, Task(pc, Deps(None, expected), prompted, 0), log, typed)
  }

  /** The CLI opens a session and asks about device 1. */
  lemma CliAsks()
    ensures Reachable(TWO, CliAt(Db([OPEN], TWO), Resting, None, Some(1), [], 0))
  {
    var db := Db([], TWO);
    var w := Begin(TWO);
    assert After(TWO, []) == w;
    Reach(TWO, w, StartCli);
    assert Step(w, StartCli) == CliAt(db, Routed(Init), None, None, [], 0);
    CliLists();
  }

  lemma CliLists()
    requires Reachable(TWO, CliAt(Db([], TWO), Routed(Init), None, None, [], 0))
    ensures Reachable(TWO, CliAt(Db([OPEN], TWO), Resting, None, Some(1), [], 0))
  {
    hide Reachable, Applied, Target, Require, Replay;
    var db, run := Db([], TWO), Run(true, 0, [1, 2]);
    var w := CliAt(db, Routed(Init), None, None, [], 0);
    Reach(TWO, w, run);
    assert Step(w, run) == CliAt(db, Listing, None, None, [], 0);
    Reach(TWO, CliAt(db, Listing, None, None, [], 0), run);
    assert Step(CliAt(db, Listing, None, None, [], 0), run) == CliAt(db, Creating([1, 2]), None, None, [], 0);
    CliCreates();
  }

  lemma CliCreates()
    requires Reachable(TWO, CliAt(Db([], TWO), Creating([1, 2]), None, None, [], 0))
    ensures Reachable(TWO, CliAt(Db([OPEN], TWO), Resting, None, Some(1), [], 0))
  {
    hide Reachable, Applied, Target, Require, Replay, Route;
    var run := Run(true, 0, []);
    var w, v := CliAt(Db([], TWO), Creating([1, 2]), None, None, [], 0),
                CliAt(Db([OPEN], TWO), Moving(0, OPEN, 0, true), None, None, [], 0);
    Reach(TWO, w, run);
    assert Step(w, run) == v by { assert [] + [OPEN] == [OPEN]; }
    Reach(TWO, v, run);
    assert Step(v, run) == CliAt(Db([OPEN], TWO), Resting, None, Some(1), [], 0);
  }

  const ONE_NAMED: Db := Db([MOVED], map[1 := Some("lamp"), 2 := None])

  const LAMP := Entry(false, 0, 1, "lamp", Deps(Some(7), None), None, None)

  function ChatAt(db: Db, pc: Pc, prompted: Option<int>, log: seq<Entry>): World {
    World(db, Task(pc, Deps(Some(7), None), prompted, 0), Task(Resting, Deps(None, None), Some(1), 0), log, 1)
  }

  /** Before the CLI looks again, chat names device 1 and the cursor moves on. */
  lemma ChatNames()
    requires Reachable(TWO, CliAt(Db([OPEN], TWO), Resting, None, Some(1), [], 0))
    ensures Reachable(TWO, ChatAt(ONE_NAMED, Resting, Some(2), [LAMP]))
  {
    hide Reachable, Applied, Target;
    var db, run := Db([OPEN], TWO), Run(false, 0, []);
    var w := CliAt(db, Resting, None, Some(1), [], 0);
    Reach(TWO, w, Receive(Name("lamp"), 7));
    assert Step(w, Receive(Name("lamp"), 7)) == ChatAt(db, Arrived(Name("lamp")), None, []);
    Reach(TWO, ChatAt(db, Arrived(Name("lamp")), None, []), run);
    assert Step(ChatAt(db, Arrived(Name("lamp")), None, []), run) == ChatAt(db, Routed(Name("lamp")), None, []);
    Reach(TWO, ChatAt(db, Routed(Name("lamp")), None, []), run);
    assert Step(ChatAt(db, Routed(Name("lamp")), None, []), run) == ChatAt(db, Applying(0, "lamp"), None, []);
    ChatApplies();
  }

  lemma ChatApplies()
    requires Reachable(TWO, ChatAt(Db([OPEN], TWO), Applying(0, "lamp"), None, []))
    ensures Reachable(TWO, ChatAt(ONE_NAMED, Resting, Some(2), [LAMP]))
  {
    hide Reachable;
    var w, run := ChatAt(Db([OPEN], TWO), Applying(0, "lamp"), None, []), Run(false, 0, []);
    Reach(TWO, w, run);
    assert Unlabelled(w.db, 1);
    assert Target(w.db, 0, w.chat.deps, "lamp", 0) == Some(1);
    assert Unlabelled(ONE_NAMED, 2);
    assert Applied(w.db, 0, w.chat.deps, "lamp", 0) == ONE_NAMED;
    assert Step(w, run).log == [LAMP];
    assert Step(w, run) == ChatAt(ONE_NAMED, Resting, Some(2), [LAMP]);
  }

  function LateCli(pc: Pc, line: nat, typed: nat): World {
    World(ONE_NAMED, Task(Resting, Deps(Some(7), None), Some(2), 0), Task(pc, Deps(None, Some(2)), Some(1), line),
          [LAMP], typed)
  }

  /** The CLI looks only now, binds device 2, and reads the name its user typed
      for device 1: it lands on device 2. */
  lemma CliNamesTheNext() returns (w: World)
    requires Reachable(TWO, ChatAt(ONE_NAMED, Resting, Some(2), [LAMP]))
    ensures Reachable(TWO, w) && |w.log| == 2
    ensures w.log[1] == Entry(true, 1, 2, "door", Deps(None, Some(2)), Some(1), None)
  {
    hide Reachable, Applied;
    var run := Run(true, 0, []);
    var w0 := ChatAt(ONE_NAMED, Resting, Some(2), [LAMP]);
    Reach(TWO, w0, LookCli);
    assert Step(w0, LookCli) == LateCli(Resting, 0, 1);
    Reach(TWO, LateCli(Resting, 0, 1), TypeCli(Name("door")));
    assert Step(LateCli(Resting, 0, 1), TypeCli(Name("door"))) == LateCli(Arrived(Name("door")), 1, 2);
    Reach(TWO, LateCli(Arrived(Name("door")), 1, 2), run);
    assert Step(LateCli(Arrived(Name("door")), 1, 2), run) == LateCli(Routed(Name("door")), 1, 2);
    Reach(TWO, LateCli(Routed(Name("door")), 1, 2), run);
    assert Step(LateCli(Routed(Name("door")), 1, 2), run) == LateCli(Applying(1, "door"), 1, 2);
    Reach(TWO, LateCli(Applying(1, "door"), 1, 2), run);
    assert Unlabelled(ONE_NAMED, 2);
    assert Target(ONE_NAMED, 1, Deps(None, Some(2)), "door", 0) == Some(2);
    w := Step(LateCli(Applying(1, "door"), 1, 2), run);
  }

  /** So a CLI name can land on a device its user was never asked about: the
      line that re-reads the session comes after the prompt was printed. */
  lemma NameMayMissThePrompt()
    ensures exists w :: Reachable(TWO, w) && exists k | 0 <= k < |w.log| ::
              w.log[k].byCli && w.log[k].prompted == Some(1) && w.log[k].device == 2
  {
    hide Reachable;
    CliAsks();
    ChatNames();
    var w := CliNamesTheNext();
    assert w.log[1].byCli;
  }

  // ------------------------------------------------- a message overtaken by CLI

  const DOOR := Entry(true, 1, 1, "door", Deps(None, Some(1)), Some(1), None)

  /** Chat handles message 7, and the CLI, at work on line 1, has prompted device 1. */
  function Between(db: Db, chat: Pc, asked: Option<int>, cli: Pc, deps: Deps, prompted: int, line: nat, log: seq<Entry>,
                   typed: nat): World {
    World(db, Task(chat, Deps(Some(7), None), asked, 0), Task(cli, deps, Some(prompted), line), log, typed)
  }

  const TWO_OPEN: Db := Db([OPEN], TWO)

  const DOOR_NAMED: Db := Db([OPEN.(cursor := 1)], map[1 := Some("door"), 2 := None])

  function ChatPaused(pc: Pc): World { Between(TWO_OPEN, pc, None, Resting, Deps(None, None), 1, 0, [], 1) }

  function CliDone(pc: Pc): World { Between(DOOR_NAMED, pc, None, Resting, Deps(None, Some(1)), 2, 1, [DOOR], 2) }

  /** Whatever chat is about to do, the CLI names device 1 first. */
  lemma CliGetsIn(pc: Pc)
    requires Reachable(TWO, ChatPaused(pc))
    ensures Reachable(TWO, CliDone(pc))
  {
    hide Reachable, Applied, Target;
    var run := Run(true, 0, []);
    var w1 := Between(TWO_OPEN, pc, None, Resting, Deps(None, Some(1)), 1, 0, [], 1);
    var w2 := Between(TWO_OPEN, pc, None, Arrived(Name("door")), Deps(None, Some(1)), 1, 1, [], 2);
    var w3 := Between(TWO_OPEN, pc, None, Routed(Name("door")), Deps(None, Some(1)), 1, 1, [], 2);
    var w4 := Between(TWO_OPEN, pc, None, Applying(0, "door"), Deps(None, Some(1)), 1, 1, [], 2);
    Reach(TWO, ChatPaused(pc), LookCli);
    assert Step(ChatPaused(pc), LookCli) == w1;
    Reach(TWO, w1, TypeCli(Name("door")));
    assert Step(w1, TypeCli(Name("door"))) == w2;
    Reach(TWO, w2, run);
    assert Step(w2, run) == w3;
    Reach(TWO, w3, run);
    assert Step(w3, run) == w4;
    Reach(TWO, w4, run);
    CliApplies(pc);
  }

  lemma CliApplies(pc: Pc)
    ensures var w := Between(TWO_OPEN, pc, None, Applying(0, "door"), Deps(None, Some(1)), 1, 1, [], 2);
            Step(w, Run(true, 0, [])) == CliDone(pc)
  {
    var deps := Deps(None, Some(1));
    assert Unlabelled(TWO_OPEN, 1) && Unlabelled(DOOR_NAMED, 2);
    assert Target(TWO_OPEN, 0, deps, "door", 0) == Some(1);
    assert Applied(TWO_OPEN, 0, deps, "door", 0) == DOOR_NAMED;
  }

  /** Chat reads the row, and then the CLI is served. */
  lemma ChatReads(command: Command, pc: Pc)
    requires Reachable(TWO, CliAt(TWO_OPEN, Resting, None, Some(1), [], 0))
    requires !command.Init? && WithMessage(Route(TWO_OPEN, command, 0), Deps(Some(7), None)) == pc
    ensures Reachable(TWO, ChatPaused(pc))
  {
    hide Reachable, Applied, Target, Route;
    var w, run := CliAt(TWO_OPEN, Resting, None, Some(1), [], 0), Run(false, 0, []);
    Reach(TWO, w, Receive(command, 7));
    assert Step(w, Receive(command, 7)) == ChatPaused(Arrived(command));
    Reach(TWO, ChatPaused(Arrived(command)), run);
    assert Step(ChatPaused(Arrived(command)), run) == ChatPaused(Routed(command));
    Reach(TWO, ChatPaused(Routed(command)), run);
    assert Step(ChatPaused(Routed(command)), run) == ChatPaused(pc);
  }

  /** A name that the CLI overtakes moves on unrecorded: its redelivery then names
      the next device with the name meant for the one before. */
  lemma OvertakenMessageLabels() returns (w: World, events: seq<Event>)
    ensures Reachable(TWO, w) && w.chat.pc == Applying(0, "lamp") && w.chat.deps.message == Some(7)
    ensures Labels(w.db, w.chat, 0).None? && RecordedOn(w.db, w.chat, 0).None?
    ensures var v := Step(w, Run(false, 0, []));
            && AllRedeliver(v, events, 7, 0) && Repeats(events, Name("lamp"), 7)
            && !OnlyCliLabels(|v.log|, From(v, events).log)
  {
    hide Reachable, AllRedeliver, OnlyCliLabels, From, Repeats;
    CliAsks();
    ChatReads(Name("lamp"), Applying(0, "lamp"));
    CliGetsIn(Applying(0, "lamp"));
    w := CliDone(Applying(0, "lamp"));
    events := Again("lamp", 7, 0);
    assert Unlabelled(DOOR_NAMED, 2);
    assert Applied(DOOR_NAMED, 0, w.chat.deps, "lamp", 0) == DOOR_NAMED;
    var v := Step(w, Run(false, 0, []));
    assert v.db == DOOR_NAMED && v.chat.pc == Resting;
    AgainLabels(v, "lamp", 7, 0, 0);
  }

  /** `/ignore d` compares d with one read and labels what a second read finds:
      while that session keeps its snapshot, it lands on d or nowhere if and only
      if the second read finds d under the cursor, or no device at all. */
  lemma IgnoreIsSafeExactly(d: int, id: nat, row: Session, deps: Deps)
    requires deps.expected.None?
    ensures (forall db: Db, now: int | ActiveIn(db.sessions) == Some(id) && db.sessions[id].ids == row.ids ::
               var t := Target(db, row.cursor, deps, IGNORED_LABEL, now); t.Some? ==> t.value == d)
            <==> CursorDevice(row).None? || CursorDevice(row) == Some(d)
  {
    if CursorDevice(row).Some? && CursorDevice(row) != Some(d) {
      var other := CursorDevice(row).value;
      var closed := Session(Done, 0, [], 0, None);
      var open := Session(Active, row.cursor, row.ids, 1, None);
      var db := Db(seq(id, i => closed) + [open], map[other := None]);
      assert Front(db.sessions) == seq(id, i => closed) && Last(db.sessions) == open;
      assert ActiveIn(db.sessions) == Some(id) && db.sessions[id] == open;
      assert Target(db, row.cursor, deps, IGNORED_LABEL, 0) == Some(other);
    }
  }

  /** And the second read may find another: `/ignore 1` can ignore device 2. */
  lemma IgnoreMayMissItsDevice() returns (w: World)
    ensures Reachable(TWO, w) && |w.log| == 2
    ensures w.log[1] == Entry(false, 0, 2, IGNORED_LABEL, Deps(Some(7), None), None, None)
  {
    hide Reachable, Applied;
    var run, ignore := Run(false, 0, []), IgnoreDevice(1);
    CliAsks();
    ChatReads(ignore, Requiring(ignore));
    CliGetsIn(Requiring(ignore));
    Reach(TWO, CliDone(Requiring(ignore)), run);
    assert Step(CliDone(Requiring(ignore)), run) == CliDone(Applying(1, IGNORED_LABEL));
    Reach(TWO, CliDone(Applying(1, IGNORED_LABEL)), run);
    assert Unlabelled(DOOR_NAMED, 2);
    assert Target(DOOR_NAMED, 1, Deps(Some(7), None), IGNORED_LABEL, 0) == Some(2);
    w := Step(CliDone(Applying(1, IGNORED_LABEL)), run);
  }

  // ------------------------------------------------- a look that finds nothing

  const ONE_OPEN := Session(Active, 0, [1], 1_800_000, None)

  const ONE_PAST := ONE_OPEN.(cursor := 1, lastMessage := Some(7))

  const ONE_DONE := ONE_PAST.(status := Done)

  const NEXT_OPEN := Session(Active, 0, [2], 1_800_000, None)

  /** Chat handles message m on line n while the CLI rests, its user asked about
      device 1 and its last look having found no device. */
  function ChatOn(sessions: seq<Session>, pc: Pc, m: int, n: nat, looked: Deps): World {
    World(Db(sessions, TWO), Task(pc, Deps(Some(m), None), None, n), Task(Resting, looked, Some(1), 0), [], n + 1)
  }

  const UNSEEN := Deps(None, None)

  /** The CLI opens a session on device 1 alone and asks about it. */
  lemma CliAsksOne()
    ensures Reachable(TWO, CliAt(Db([ONE_OPEN], TWO), Resting, None, Some(1), [], 0))
  {
    hide Reachable, Applied, Target;
    var w0, run := Begin(TWO), Run(true, 0, [1]);
    var w1, w2 := CliAt(Db([], TWO), Routed(Init), None, None, [], 0), CliAt(Db([], TWO), Listing, None, None, [], 0);
    BeginIsReachable();
    Reach(TWO, w0, StartCli);
    assert Step(w0, StartCli) == w1;
    Reach(TWO, w1, run);
    assert Step(w1, run) == w2;
    Reach(TWO, w2, run);
    assert Step(w2, run) == CliAt(Db([], TWO), Creating([1]), None, None, [], 0);
    CliCreatesOne();
  }

  lemma CliCreatesOne()
    requires Reachable(TWO, CliAt(Db([], TWO), Creating([1]), None, None, [], 0))
    ensures Reachable(TWO, CliAt(Db([ONE_OPEN], TWO), Resting, None, Some(1), [], 0))
  {
    hide Reachable, Applied, Target, Require, Replay, Route;
    var run, w3 := Run(true, 0, []), CliAt(Db([], TWO), Creating([1]), None, None, [], 0);
    var w4 := CliAt(Db([ONE_OPEN], TWO), Moving(0, ONE_OPEN, 0, true), None, None, [], 0);
    Reach(TWO, w3, run);
    assert Step(w3, run) == w4 by { assert [] + [ONE_OPEN] == [ONE_OPEN]; }
    Reach(TWO, w4, run);
    assert Step(w4, run) == CliAt(Db([ONE_OPEN], TWO), Resting, None, Some(1), [], 0);
  }

  lemma BeginIsReachable()
    ensures Reachable(TWO, Begin(TWO))
  {
    assert After(TWO, []) == Begin(TWO);
  }

  /** Chat skips device 1, the last of the snapshot. */
  lemma ChatSkips()
    ensures Reachable(TWO, ChatOn([ONE_PAST], Moving(0, ONE_OPEN.(cursor := 1), 1, false), 7, 0, UNSEEN))
  {
    hide Reachable, Applied, Target;
    CliAsksOne();
    var run, w := Run(false, 0, []), CliAt(Db([ONE_OPEN], TWO), Resting, None, Some(1), [], 0);
    var q := [ONE_OPEN];
    Reach(TWO, w, Receive(Skip, 7));
    assert Step(w, Receive(Skip, 7)) == ChatOn(q, Arrived(Skip), 7, 0, UNSEEN);
    Reach(TWO, ChatOn(q, Arrived(Skip), 7, 0, UNSEEN), run);
    assert Step(ChatOn(q, Arrived(Skip), 7, 0, UNSEEN), run) == ChatOn(q, Routed(Skip), 7, 0, UNSEEN);
    Reach(TWO, ChatOn(q, Routed(Skip), 7, 0, UNSEEN), run);
    assert Step(ChatOn(q, Routed(Skip), 7, 0, UNSEEN), run) == ChatOn(q, Requiring(Skip), 7, 0, UNSEEN);
    Reach(TWO, ChatOn(q, Requiring(Skip), 7, 0, UNSEEN), run);
    assert Step(ChatOn(q, Requiring(Skip), 7, 0, UNSEEN), run) == ChatOn(q, Skipping(0, ONE_OPEN), 7, 0, UNSEEN);
    Reach(TWO, ChatOn(q, Skipping(0, ONE_OPEN), 7, 0, UNSEEN), run);
    assert Step(ChatOn(q, Skipping(0, ONE_OPEN), 7, 0, UNSEEN), run)
        == ChatOn([ONE_PAST], Moving(0, ONE_OPEN.(cursor := 1), 1, false), 7, 0, UNSEEN);
  }

  /** The CLI looks while the cursor is past the end, and chat closes the session. */
  lemma LookFindsNothing()
    ensures Reachable(TWO, ChatOn([ONE_DONE], Resting, 7, 0, UNSEEN))
  {
    hide Reachable, Applied, Target;
    ChatSkips();
    var run := Run(false, 0, []);
    var w := ChatOn([ONE_PAST], Moving(0, ONE_OPEN.(cursor := 1), 1, false), 7, 0, UNSEEN);
    Reach(TWO, w, LookCli);
    assert Step(w, LookCli) == w;
    Reach(TWO, w, run);
    assert Step(w, run) == ChatOn([ONE_PAST], Closing(0, Done, None, false), 7, 0, UNSEEN);
    Reach(TWO, ChatOn([ONE_PAST], Closing(0, Done, None, false), 7, 0, UNSEEN), run);
    assert Step(ChatOn([ONE_PAST], Closing(0, Done, None, false), 7, 0, UNSEEN), run)
        == ChatOn([ONE_DONE], Resting, 7, 0, UNSEEN);
  }

  /** Chat opens the next session, on device 2. */
  lemma ChatOpensNext()
    ensures Reachable(TWO, ChatOn([ONE_DONE, NEXT_OPEN], Moving(1, NEXT_OPEN, 0, true), 8, 1, UNSEEN))
  {
    hide Reachable, Applied, Target;
    LookFindsNothing();
    var run, q, w := Run(false, 0, [2]), [ONE_DONE], ChatOn([ONE_DONE], Resting, 7, 0, UNSEEN);
    Reach(TWO, w, Receive(Init, 8));
    assert Step(w, Receive(Init, 8)) == ChatOn(q, Arrived(Init), 8, 1, UNSEEN);
    Reach(TWO, ChatOn(q, Arrived(Init), 8, 1, UNSEEN), run);
    assert Step(ChatOn(q, Arrived(Init), 8, 1, UNSEEN), run) == ChatOn(q, Routed(Init), 8, 1, UNSEEN);
    Reach(TWO, ChatOn(q, Routed(Init), 8, 1, UNSEEN), run);
    assert Step(ChatOn(q, Routed(Init), 8, 1, UNSEEN), run) == ChatOn(q, Listing, 8, 1, UNSEEN);
    Reach(TWO, ChatOn(q, Listing, 8, 1, UNSEEN), run);
    assert Step(ChatOn(q, Listing, 8, 1, UNSEEN), run) == ChatOn(q, Creating([2]), 8, 1, UNSEEN);
    Reach(TWO, ChatOn(q, Creating([2]), 8, 1, UNSEEN), run);
    assert q + [NEXT_OPEN] == [ONE_DONE, NEXT_OPEN];
    assert Step(ChatOn(q, Creating([2]), 8, 1, UNSEEN), run)
        == ChatOn([ONE_DONE, NEXT_OPEN], Moving(1, NEXT_OPEN, 0, true), 8, 1, UNSEEN);
  }

  /** A line typed after a look that found no device is unguarded: it names
      whatever is then under the cursor, here a device of the next session. */
  lemma UnguardedNameMayMiss() returns (w: World)
    ensures Reachable(TWO, w) && |w.log| == 1
    ensures w.log[0] == Entry(true, 2, 2, "door", UNSEEN, Some(1), None)
  {
    hide Reachable, Applied;
    ChatOpensNext();
    var run := Run(true, 0, []);
    var w0 := ChatOn([ONE_DONE, NEXT_OPEN], Moving(1, NEXT_OPEN, 0, true), 8, 1, UNSEEN);
    var late := (pc: Pc) => w0.(cli := Task(pc, UNSEEN, Some(1), 2), typed := 3);
    Reach(TWO, w0, TypeCli(Name("door")));
    assert Step(w0, TypeCli(Name("door"))) == late(Arrived(Name("door")));
    Reach(TWO, late(Arrived(Name("door"))), run);
    assert Step(late(Arrived(Name("door"))), run) == late(Routed(Name("door")));
    Reach(TWO, late(Routed(Name("door"))), run);
    assert Step(late(Routed(Name("door"))), run) == late(Applying(0, "door"));
    Reach(TWO, late(Applying(0, "door")), run);
    assert Unlabelled(w0.db, 2);
    assert Target(w0.db, 0, UNSEEN, "door", 0) == Some(2);
    w := Step(late(Applying(0, "door")), run);
  }
}
