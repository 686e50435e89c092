/** What each verb of the label session does when nothing comes between its steps:
    the steps of InitProtocol, run to rest, are init.py's verbs. */
module InitCommands {
  import opened Orders
  import opened InitSessions
  import opened InitProtocol

  /** n steps of one task in a row. */
  ghost function Steps(db: Db, t: Task, now: int, present: seq<int>, n: nat): Stepped
    decreases n
  {
    if n == 0 then Stepped(db, t)
    else
      var r := RunTask(db, t, now, present);
      Steps(r.db, r.task, now, present, n - 1)
  }

  /** The tables when the task has come to rest. */
  ghost predicate RestsAt(db: Db, t: Task, now: int, present: seq<int>, after: Db) {
    exists n: nat :: Rests(db, t, now, present, n, after)
  }

  ghost predicate Rests(db: Db, t: Task, now: int, present: seq<int>, n: nat, after: Db) {
    var r := Steps(db, t, now, present, n); r.task.pc.Resting? && r.db == after
  }

  lemma RestsNow(db: Db, t: Task, now: int, present: seq<int>)
    requires t.pc.Resting?
    ensures RestsAt(db, t, now, present, db)
  {
    assert Rests(db, t, now, present, 0, db);
  }

  lemma OneStepBefore(db: Db, t: Task, now: int, present: seq<int>, after: Db)
    requires var r := RunTask(db, t, now, present); RestsAt(r.db, r.task, now, present, after)
    ensures RestsAt(db, t, now, present, after)
  {
    hide RunTask;
    var r := RunTask(db, t, now, present);
    var n: nat :| Rests(r.db, r.task, now, present, n, after);
    assert Rests(db, t, now, present, n + 1, after);
  }

  /** A task that rests comes to rest in one way. */
  lemma {:induction false} RestsOnce(db: Db, t: Task, now: int, present: seq<int>, m: nat, n: nat)
    requires m <= n && Steps(db, t, now, present, m).task.pc.Resting?
    ensures Steps(db, t, now, present, n).db == Steps(db, t, now, present, m).db
    ensures Steps(db, t, now, present, n).task.pc.Resting?
    decreases n
  {
    if n == 0 {
    } else if m == 0 {
      RestsOnce(db, t, now, present, 0, n - 1);
    } else {
      var r := RunTask(db, t, now, present);
      RestsOnce(r.db, r.task, now, present, m - 1, n - 1);
    }
  }

  /** The tables after the verb has also noted the message on this row, if asked. */
  function WithNote(db: Db, t: Task, id: nat, note: bool): Db {
    if note && t.deps.message.Some? then Remember(db, id, t.deps.message.value) else db
  }

  lemma NotingRests(db: Db, t: Task, now: int, present: seq<int>, id: nat, note: bool)
    requires t.pc == Noted(t, id, note)
    ensures RestsAt(db, t, now, present, WithNote(db, t, id, note))
  {
    if note && t.deps.message.Some? {
      RestsNow(WithNote(db, t, id, note), At(t, Resting), now, present);
      OneStepBefore(db, t, now, present, WithNote(db, t, id, note));
    } else {
      RestsNow(db, t, now, present);
    }
  }

  /** The search for the next device, one look a step, is _advance_to_next. */
  lemma {:induction false} MovingRests(db: Db, t: Task, now: int, present: seq<int>, id: nat, row: Session, index: nat,
                                       note: bool)
    requires t.pc == Moving(id, row, index, note)
    ensures RestsAt(db, t, now, present, WithNote(Advanced(db, id, row, index), t, id, note))
    decreases |row.ids| - index
  {
    hide RestsAt;
    var r := RunTask(db, t, now, present);
    var after := Advanced(db, id, row, index);
    if index >= |row.ids| {
      assert r == Stepped(db, At(t, Closing(id, Done, None, note)));
      ClosingRests(db, r.task, now, present, id, Done, None, note);
    } else if !Unlabelled(db, row.ids[index]) {
      MovingRests(db, r.task, now, present, id, row, index + 1, note);
    } else if index != row.cursor {
      var q := RunTask(r.db, r.task, now, present);
      assert q.db == after;
      NotingRests(q.db, q.task, now, present, id, note);
      OneStepBefore(r.db, r.task, now, present, WithNote(after, t, id, note));
    } else {
      assert r.db == after;
      NotingRests(r.db, r.task, now, present, id, note);
    }
    OneStepBefore(db, t, now, present, WithNote(after, t, id, note));
  }

  lemma ClosingRests(db: Db, t: Task, now: int, present: seq<int>, id: nat, status: EndStatus, message: Option<int>,
                     note: bool)
    requires t.pc == Closing(id, status, message, note)
    ensures RestsAt(db, t, now, present, WithNote(SetStatus(db, id, status, message), t, id, note))
  {
    hide RestsAt;
    var r := RunTask(db, t, now, present);
    NotingRests(r.db, r.task, now, present, id, note);
    OneStepBefore(db, t, now, present, WithNote(SetStatus(db, id, status, message), t, id, note));
  }

  /** A task that has just received this command, or the CLI's opening /init. */
  ghost predicate Takes(t: Task, command: Command) { t.pc == Arrived(command) || t.pc == Routed(command) }

  /** The message is not one that the open session remembers. */
  ghost predicate NewTo(db: Db, t: Task) {
    var a := ActiveIn(db.sessions);
    t.deps.message.Some? && a.Some? ==> db.sessions[a.value].lastMessage != t.deps.message
  }

  lemma FromArrived(db: Db, t: Task, now: int, present: seq<int>, command: Command, after: Db)
    requires Takes(t, command) && NewTo(db, t)
    requires RestsAt(db, At(t, Routed(command)), now, present, after)
    ensures RestsAt(db, t, now, present, after)
  {
    hide RestsAt, ActiveIn;
    if t.pc.Arrived? { OneStepBefore(db, t, now, present, after); }
  }

  /** From the first read of a verb to the one that acts. */
  lemma FromRouted(db: Db, t: Task, now: int, present: seq<int>, command: Command, after: Db)
    requires Takes(t, command) && NewTo(db, t)
    requires command.Skip? || command.Finish? || command.Ignore? || command.IgnoreDevice?
    requires var a := ActiveIn(db.sessions);
             a.Some? && (command.IgnoreDevice? ==> CursorDevice(db.sessions[a.value]) == Some(command.device))
    requires RestsAt(db, At(t, Requiring(command)), now, present, after)
    ensures RestsAt(db, t, now, present, after)
  {
    hide RestsAt, ActiveIn;
    OneStepBefore(db, At(t, Routed(command)), now, present, after);
    FromArrived(db, t, now, present, command, after);
  }

  // -------------------------------------------------------------- the live session

  /** The open session, in time, whose member under the cursor passes the check. */
  ghost predicate Open(db: Db, id: nat, deps: Deps, now: int) {
    && ActiveIn(db.sessions) == Some(id) && id < |db.sessions|
    && db.sessions[id].expiresAt > now && !ExpectedMismatch(deps, db.sessions[id])
  }

  /** The message is on the row afterwards, or none was given. */
  ghost predicate Noticed(db: Db, after: Db, id: nat, deps: Deps)
    requires id < |db.sessions| == |after.sessions|
  {
    after.sessions[id].lastMessage == if deps.message.Some? then deps.message else db.sessions[id].lastMessage
  }

  /** /skip labels nothing and goes to the next member after the one skipped. */
  lemma SkipExactly(db: Db, t: Task, now: int, present: seq<int>, id: nat) returns (after: Db)
    requires Takes(t, Skip) && NewTo(db, t) && Open(db, id, t.deps, now)
    ensures RestsAt(db, t, now, present, after)
    ensures OnlyRow(db, after, id) && after.labels == db.labels && Noticed(db, after, id, t.deps)
    ensures Settles(after, after.sessions[id], db.sessions[id].cursor + 1)
  {
    hide RestsAt, ActiveIn, Advanced, Settles;
    var row := db.sessions[id];
    var next := row.(cursor := row.cursor + 1);
    var moved := SetCursor(db, id, row.cursor + 1, t.deps.message);
    after := Advanced(moved, id, next, row.cursor + 1);
    ActiveRowIsActive(db, id);
    AdvancedSettles(moved, id, next, row.cursor + 1);
    var t1 := At(t, Skipping(id, row));
    var t2 := At(t, Moving(id, next, row.cursor + 1, false));
    MovingRests(moved, t2, now, present, id, next, row.cursor + 1, false);
    OneStepBefore(db, t1, now, present, after);
    OneStepBefore(db, At(t, Requiring(Skip)), now, present, after);
    FromRouted(db, t, now, present, Skip, after);
  }

  lemma ActiveRowIsActive(db: Db, id: nat)
    requires ActiveIn(db.sessions) == Some(id)
    ensures id < |db.sessions| && db.sessions[id].status.Active?
  {}

  /** /done closes the session as DONE, and changes nothing else. */
  lemma FinishExactly(db: Db, t: Task, now: int, present: seq<int>, id: nat) returns (after: Db)
    requires Takes(t, Finish) && NewTo(db, t) && ActiveIn(db.sessions) == Some(id) && db.sessions[id].expiresAt > now
    ensures RestsAt(db, t, now, present, after)
    ensures OnlyRow(db, after, id) && after.labels == db.labels && Noticed(db, after, id, t.deps)
    ensures after.sessions[id].status.Done? && after.sessions[id].cursor == db.sessions[id].cursor
  {
    hide RestsAt, ActiveIn;
    ActiveRowIsActive(db, id);
    after := SetStatus(db, id, Done, t.deps.message);
    ClosingRests(db, At(t, Closing(id, Done, t.deps.message, false)), now, present, id, Done, t.deps.message, false);
    OneStepBefore(db, At(t, Requiring(Finish)), now, present, after);
    FromRouted(db, t, now, present, Finish, after);
  }

  /** /init cancel closes it as CANCELLED, and changes nothing else. */
  lemma CancelExactly(db: Db, t: Task, now: int, present: seq<int>, id: nat) returns (after: Db)
    requires Takes(t, Cancel) && NewTo(db, t) && ActiveIn(db.sessions) == Some(id) && db.sessions[id].expiresAt > now
    ensures RestsAt(db, t, now, present, after)
    ensures OnlyRow(db, after, id) && after.labels == db.labels && Noticed(db, after, id, t.deps)
    ensures after.sessions[id].status.Cancelled? && after.sessions[id].cursor == db.sessions[id].cursor
  {
    hide RestsAt, ActiveIn;
    ActiveRowIsActive(db, id);
    after := SetStatus(db, id, Cancelled, t.deps.message);
    ClosingRests(db, At(t, Closing(id, Cancelled, t.deps.message, false)), now, present, id, Cancelled,
                 t.deps.message, false);
    OneStepBefore(db, At(t, Routed(Cancel)), now, present, after);
    FromArrived(db, t, now, present, Cancel, after);
  }

  /** What one name does to the open session: the device under the cursor gets it
      if it exists unlabelled, no other label changes, and the session settles past
      that device; found past the end, the session is DONE. */
  ghost predicate NamesCurrent(db: Db, after: Db, id: nat, deps: Deps, name: string)
    requires id < |db.sessions|
  {
    var s := db.sessions[id];
    && OnlyRow(db, after, id) && Noticed(db, after, id, deps)
    && if s.cursor >= |s.ids| then after.labels == db.labels && after.sessions[id].status.Done?
       else
         var device := s.ids[s.cursor];
         && after.labels == (if device in db.labels && db.labels[device].None?
                             then db.labels[device := Some(name)] else db.labels)
         && Settles(after, after.sessions[id], s.cursor + 1)
  }

  lemma AppliedNamesCurrent(db: Db, t: Task, now: int, id: nat, name: string)
    requires Open(db, id, t.deps, now) && name != ""
    ensures NamesCurrent(db, Applied(db, db.sessions[id].cursor, t.deps, name, now), id, t.deps, name)
  {
    hide ActiveIn, Advanced, Settles;
    var s := db.sessions[id];
    ActiveRowIsActive(db, id);
    AppliedSettles(db, s.cursor, t.deps, name, now);
    AppliedLabels(db, s.cursor, t.deps, name, now);
    AppliedNotices(db, s.cursor, t.deps, name, now);
  }

  lemma AppliedNotices(db: Db, seen: nat, deps: Deps, name: string, now: int)
    requires ActiveIn(db.sessions).Some? && Records(db, seen, deps, name, now)
    ensures var id, a := ActiveIn(db.sessions).value, Applied(db, seen, deps, name, now);
            OnlyRow(db, a, id) && Noticed(db, a, id, deps)
  {
    hide ActiveIn, Advanced, Settles, NextUnlabelled;
    AppliedSettles(db, seen, deps, name, now);
    AppliedRows(db, seen, deps, name, now);
    if deps.message.Some? { RecordsExactly(db, seen, deps, name, now); }
  }

  lemma ApplyingRests(db: Db, t: Task, now: int, present: seq<int>, seen: nat, name: string)
    requires t.pc == Applying(seen, name)
    ensures RestsAt(db, t, now, present, Applied(db, seen, t.deps, name, now))
  {
    hide RestsAt, Applied, ActiveRow;
    var r := RunTask(db, t, now, present);
    RestsNow(r.db, r.task, now, present);
    OneStepBefore(db, t, now, present, r.db);
  }

  /** A typed name. */
  lemma NameExactly(db: Db, t: Task, now: int, present: seq<int>, id: nat, name: string) returns (after: Db)
    requires Takes(t, Name(name)) && NewTo(db, t) && Open(db, id, t.deps, now) && name != ""
    ensures RestsAt(db, t, now, present, after) && NamesCurrent(db, after, id, t.deps, name)
  {
    hide RestsAt, ActiveIn, Applied, NamesCurrent;
    var seen := db.sessions[id].cursor;
    after := Applied(db, seen, t.deps, name, now);
    AppliedNamesCurrent(db, t, now, id, name);
    ApplyingRests(db, At(t, Applying(seen, name)), now, present, seen, name);
    OneStepBefore(db, At(t, Routed(Name(name))), now, present, after);
    FromArrived(db, t, now, present, Name(name), after);
  }

  /** /ignore names the current device "(ignored)", and so does /ignore d if d is
      that device. */
  lemma IgnoreExactly(db: Db, t: Task, now: int, present: seq<int>, id: nat, command: Command) returns (after: Db)
    requires Takes(t, command) && NewTo(db, t) && Open(db, id, t.deps, now)
    requires command.Ignore? || (command.IgnoreDevice? && CursorDevice(db.sessions[id]) == Some(command.device))
    ensures RestsAt(db, t, now, present, after) && NamesCurrent(db, after, id, t.deps, "(ignored)")
  {
    hide RestsAt, ActiveIn, Applied, NamesCurrent;
    var seen := db.sessions[id].cursor;
    after := Applied(db, seen, t.deps, IGNORED_LABEL, now);
    AppliedNamesCurrent(db, t, now, id, IGNORED_LABEL);
    ApplyingRests(db, At(t, Applying(seen, IGNORED_LABEL)), now, present, seen, IGNORED_LABEL);
    OneStepBefore(db, At(t, Requiring(command)), now, present, after);
    FromRouted(db, t, now, present, command, after);
  }

  /** /ignore d for any other device, and any other slash command, do nothing. */
  lemma NothingElse(db: Db, t: Task, now: int, present: seq<int>, command: Command)
    requires Takes(t, command) && NewTo(db, t)
    requires command.Other? ||
             (command.IgnoreDevice? && (ActiveIn(db.sessions).Some? ==>
                CursorDevice(db.sessions[ActiveIn(db.sessions).value]) != Some(command.device)))
    ensures RestsAt(db, t, now, present, db)
  {
    hide RestsAt, ActiveIn;
    RestsNow(db, At(t, Resting), now, present);
    OneStepBefore(db, At(t, Routed(command)), now, present, db);
    FromArrived(db, t, now, present, command, db);
  }

  /** With no session open every verb but /init does nothing. */
  lemma NoSessionNothing(db: Db, t: Task, now: int, present: seq<int>, command: Command)
    requires Takes(t, command) && ActiveIn(db.sessions).None? && !command.Init?
    ensures RestsAt(db, t, now, present, db)
  {
    hide RestsAt, ActiveIn;
    RestsNow(db, At(t, Resting), now, present);
    OneStepBefore(db, At(t, Routed(command)), now, present, db);
    FromArrived(db, t, now, present, command, db);
  }

  /** A session whose time is over is EXPIRED by the first verb that needs it, which
      does nothing else. */
  lemma ExpiresExactly(db: Db, t: Task, now: int, present: seq<int>, id: nat, command: Command) returns (after: Db)
    requires Takes(t, command) && NewTo(db, t) && ActiveIn(db.sessions) == Some(id) && db.sessions[id].expiresAt <= now
    requires command.Name? || command.Cancel? || command.Skip? || command.Finish? || command.Ignore?
    ensures RestsAt(db, t, now, present, after)
    ensures after == db.(sessions := db.sessions[id := db.sessions[id].(status := Expired)])
  {
    hide RestsAt, ActiveIn;
    ActiveRowIsActive(db, id);
    after := SetStatus(db, id, Expired, None);
    RestsNow(after, At(t, Resting), now, present);
    OneStepBefore(db, At(t, Expiring(id, false)), now, present, after);
    if command.Name? || command.Cancel? {
      OneStepBefore(db, At(t, Routed(command)), now, present, after);
      FromArrived(db, t, now, present, command, after);
    } else {
      OneStepBefore(db, At(t, Requiring(command)), now, present, after);
      FromRouted(db, t, now, present, command, after);
    }
  }

  // --------------------------------------------------------------------- /init

  /** The tables once a session whose time is over has been closed. */
  function Cleared(db: Db, now: int): Db {
    var a := ActiveIn(db.sessions);
    if a.Some? && db.sessions[a.value].expiresAt <= now
    then db.(sessions := db.sessions[a.value := db.sessions[a.value].(status := Expired)]) else db
  }

  lemma ClearedIsIdle(db: Db, now: int)
    requires OneActive(db)
    ensures var c := Cleared(db, now);
            && c.labels == db.labels
            && (ActiveIn(db.sessions).Some? && db.sessions[ActiveIn(db.sessions).value].expiresAt <= now ==>
                  ActiveIn(c.sessions).None?)
  {}

  /** /init with a session open in time asks again from its cursor on. */
  lemma ResumeExactly(db: Db, t: Task, now: int, present: seq<int>, id: nat) returns (after: Db)
    requires Takes(t, Init) && NewTo(db, t) && ActiveIn(db.sessions) == Some(id) && db.sessions[id].expiresAt > now
    ensures RestsAt(db, t, now, present, after)
    ensures OnlyRow(db, after, id) && after.labels == db.labels && Noticed(db, after, id, t.deps)
    ensures Settles(after, after.sessions[id], db.sessions[id].cursor)
  {
    hide RestsAt, ActiveIn, Advanced, Settles;
    var row := db.sessions[id];
    ActiveRowIsActive(db, id);
    AdvancedSettles(db, id, row, row.cursor);
    after := WithNote(Advanced(db, id, row, row.cursor), t, id, true);
    NoteSettles(Advanced(db, id, row, row.cursor), t, id, row.cursor);
    MovingRests(db, At(t, Moving(id, row, row.cursor, true)), now, present, id, row, row.cursor, true);
    OneStepBefore(db, At(t, Routed(Init)), now, present, after);
    FromArrived(db, t, now, present, Init, after);
  }

  lemma NoteSettles(db: Db, t: Task, id: nat, from: nat)
    requires id < |db.sessions| && Settles(db, db.sessions[id], from)
    ensures var after := WithNote(db, t, id, true);
            && OnlyRow(db, after, id) && after.labels == db.labels && Noticed(db, after, id, t.deps)
            && Settles(after, after.sessions[id], from)
  {}

  /** /init from the moment it lists the devices, with no session open. */
  lemma ListingRests(db: Db, t: Task, now: int, present: seq<int>) returns (after: Db)
    requires t.pc == Listing && ActiveIn(db.sessions).None?
    ensures RestsAt(db, t, now, present, after)
    ensures after.labels == db.labels
    ensures if Listable(db, present)
            then Opens(db, after, t.deps, now, present) else after == db
  {
    hide RestsAt, ActiveIn;
    if Listable(db, present) {
      var begun := Session(Active, 0, present, now + 1_800_000, None);
      var created, id := Created(db, present, now), |db.sessions|;
      assert Last(created.sessions) == begun;
      after := WithNote(Advanced(created, id, begun, 0), t, id, true);
      FirstIsUnlabelled(created, present, id, begun);
      MovingRests(created, At(t, Moving(id, begun, 0, true)), now, present, id, begun, 0, true);
      OneStepBefore(db, At(t, Creating(present)), now, present, after);
    } else {
      after := db;
      RestsNow(db, At(t, Resting), now, present);
    }
    OneStepBefore(db, t, now, present, after);
  }

  lemma FirstIsUnlabelled(db: Db, ids: seq<int>, id: nat, s: Session)
    requires s.cursor == 0 && s.ids == ids && ids != [] && Unlabelled(db, ids[0])
    ensures Advanced(db, id, s, 0) == db
  {}

  /** One new session, on exactly the devices listed, open for half an hour at the
      first of them, which remembers the message. */
  ghost predicate Opens(db: Db, after: Db, deps: Deps, now: int, present: seq<int>) {
    && after.labels == db.labels
    && after.sessions == db.sessions + [Session(Active, 0, present, now + 1_800_000, deps.message)]
  }

  /** /init with no session open, or one whose time is over, which it closes first. */
  lemma StartExactly(db: Db, t: Task, now: int, present: seq<int>) returns (after: Db)
    requires Takes(t, Init) && NewTo(db, t) && OneActive(db)
    requires ActiveIn(db.sessions).Some? ==> db.sessions[ActiveIn(db.sessions).value].expiresAt <= now
    ensures RestsAt(db, t, now, present, after)
    ensures if Listable(db, present) then Opens(Cleared(db, now), after, t.deps, now, present)
            else after == Cleared(db, now)
  {
    hide RestsAt, ActiveIn, Opens;
    ClearedIsIdle(db, now);
    var cleared := Cleared(db, now);
    after := ListingRests(cleared, At(t, Listing), now, present);
    if ActiveIn(db.sessions).Some? {
      OneStepBefore(db, At(t, Expiring(ActiveIn(db.sessions).value, true)), now, present, after);
    }
    OneStepBefore(db, At(t, Routed(Init)), now, present, after);
    FromArrived(db, t, now, present, Init, after);
  }

  /** If another task has opened a session since the devices were listed, /init joins
      that session, even one whose time is over. */
  lemma ConflictResumes(db: Db, t: Task, now: int, present: seq<int>, id: nat) returns (after: Db)
    requires t.pc.Creating? && ActiveIn(db.sessions) == Some(id)
    ensures RestsAt(db, t, now, present, after)
    ensures OnlyRow(db, after, id) && after.labels == db.labels && Noticed(db, after, id, t.deps)
    ensures Settles(after, after.sessions[id], db.sessions[id].cursor)
  {
    hide RestsAt, ActiveIn, Advanced, Settles;
    var row := db.sessions[id];
    ActiveRowIsActive(db, id);
    AdvancedSettles(db, id, row, row.cursor);
    after := WithNote(Advanced(db, id, row, row.cursor), t, id, true);
    NoteSettles(Advanced(db, id, row, row.cursor), t, id, row.cursor);
    MovingRests(db, At(t, Moving(id, row, row.cursor, true)), now, present, id, row, row.cursor, true);
    OneStepBefore(db, At(t, Conflicted), now, present, after);
    OneStepBefore(db, t, now, present, after);
  }

  // ------------------------------------------------------------------ redelivery

  /** A message the open session remembers is asked again, or expires it, whatever
      its command was. */
  lemma ReplayExactly(db: Db, t: Task, now: int, present: seq<int>, id: nat) returns (after: Db)
    requires t.pc.Arrived? && ActiveIn(db.sessions) == Some(id)
    requires t.deps.message.Some? && db.sessions[id].lastMessage == t.deps.message
    ensures RestsAt(db, t, now, present, after)
    ensures OnlyRow(db, after, id) && after.labels == db.labels
    ensures after.sessions[id].lastMessage == db.sessions[id].lastMessage
    ensures if db.sessions[id].expiresAt <= now then after.sessions[id].status.Expired?
            else Settles(after, after.sessions[id], db.sessions[id].cursor)
  {
    hide RestsAt, ActiveIn, Advanced, Settles;
    var row := db.sessions[id];
    ActiveRowIsActive(db, id);
    if row.expiresAt <= now {
      after := SetStatus(db, id, Expired, None);
      RestsNow(after, At(t, Resting), now, present);
      OneStepBefore(db, At(t, Expiring(id, false)), now, present, after);
    } else {
      AdvancedSettles(db, id, row, row.cursor);
      after := Advanced(db, id, row, row.cursor);
      MovingRests(db, At(t, Moving(id, row, row.cursor, false)), now, present, id, row, row.cursor, false);
    }
    OneStepBefore(db, t, now, present, after);
  }
}
