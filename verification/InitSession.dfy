/** The init_sessions row and the device labels that chat and CLI share. A
    session's id is its place in the table. */
module InitSessions {
  import opened Orders

  const IGNORED_LABEL := "(ignored)"

  datatype Status = Active | Done | Cancelled | Expired

  type EndStatus = s: Status | !s.Active? witness Done

  datatype Session = Session(status: Status, cursor: nat, ids: seq<int>, expiresAt: int, lastMessage: Option<int>)

  /** `labels` holds every device of the site, with its label if it has one. */
  datatype Db = Db(sessions: seq<Session>, labels: map<int, Option<string>>)

  datatype Deps = Deps(message: Option<int>, expected: Option<int>)

  function ActiveIn(sessions: seq<Session>): (r: Option<nat>)
    ensures r.Some? ==> r.value < |sessions| && sessions[r.value].status.Active?
    ensures r.None? ==> forall i | 0 <= i < |sessions| :: !sessions[i].status.Active?
  {
    if sessions == [] then None
    else if Last(sessions).status.Active? then Some(|sessions| - 1)
    else ActiveIn(Front(sessions))
  }

  /** The partial unique index: at most one ACTIVE row. */
  ghost predicate OneActive(db: Db) {
    forall i, j | 0 <= i < j < |db.sessions| :: !(db.sessions[i].status.Active? && db.sessions[j].status.Active?)
  }

  function CursorDevice(s: Session): Option<int> { if s.cursor < |s.ids| then Some(s.ids[s.cursor]) else None }

  predicate ExpectedMismatch(deps: Deps, s: Session) { deps.expected.Some? && CursorDevice(s) != deps.expected }

  function OrKeep(message: Option<int>, last: Option<int>): Option<int> { if message.Some? then message else last }

  function WithRow(db: Db, id: nat, s: Session): Db {
    if id < |db.sessions| then db.(sessions := db.sessions[id := s]) else db
  }

  function SetCursor(db: Db, id: nat, cursor: nat, message: Option<int>): Db {
    if id >= |db.sessions| then db
    else
      var row := db.sessions[id];
      WithRow(db, id, row.(cursor := cursor, lastMessage := OrKeep(message, row.lastMessage)))
  }

  function SetStatus(db: Db, id: nat, status: Status, message: Option<int>): Db {
    if id >= |db.sessions| then db
    else
      var row := db.sessions[id];
      WithRow(db, id, row.(status := status, lastMessage := OrKeep(message, row.lastMessage)))
  }

  function Remember(db: Db, id: nat, message: int): Db {
    if id < |db.sessions| then WithRow(db, id, db.sessions[id].(lastMessage := Some(message))) else db
  }

  predicate Unlabelled(db: Db, device: int) { device in db.labels && db.labels[device].None? }

  /** The next snapshot member, from this index on, that exists unlabelled. */
  function NextUnlabelled(db: Db, ids: seq<int>, from: nat): (r: Option<nat>)
    ensures r.Some? ==> from <= r.value < |ids| && Unlabelled(db, ids[r.value])
    ensures forall i | from <= i < (if r.Some? then r.value else |ids|) :: !Unlabelled(db, ids[i])
    decreases |ids| - from
  {
    if from >= |ids| then None
    else if Unlabelled(db, ids[from]) then Some(from)
    else NextUnlabelled(db, ids, from + 1)
  }

  /** _advance_to_next inside a transaction; `s` is the caller's copy of the row. */
  function Advanced(db: Db, id: nat, s: Session, from: nat): Db {
    var next := NextUnlabelled(db, s.ids, from);
    if next.None? then SetStatus(db, id, Done, None)
    else if next.value != s.cursor then SetCursor(db, id, next.value, None)
    else db
  }

  predicate IsStale(s: Session, now: int) { s.expiresAt <= now }

  /** The device _apply_current labels, if any, given the cursor its caller saw. */
  function Target(db: Db, seen: nat, deps: Deps, name: string, now: int): Option<int> {
    var live := ActiveIn(db.sessions);
    if live.None? then None
    else
      var s := db.sessions[live.value];
      if IsStale(s, now) || ExpectedMismatch(deps, s) || name == "" || s.cursor != seen || s.cursor >= |s.ids| then None
      else if Unlabelled(db, s.ids[s.cursor]) then Some(s.ids[s.cursor]) else None
  }

  /** The whole transaction of _apply_current. */
  function Applied(db: Db, seen: nat, deps: Deps, name: string, now: int): Db {
    var live := ActiveIn(db.sessions);
    if live.None? then db
    else
      var id, s := live.value, db.sessions[live.value];
      if IsStale(s, now) then SetStatus(db, id, Expired, None)
      else if ExpectedMismatch(deps, s) || name == "" then Advanced(db, id, s, s.cursor)
      else if s.cursor != seen then Advanced(db, id, s, s.cursor)
      else if s.cursor >= |s.ids| then SetStatus(db, id, Done, deps.message)
      else
        var device := s.ids[s.cursor];
        var named := if Unlabelled(db, device) then db.(labels := db.labels[device := Some(name)]) else db;
        Advanced(SetCursor(named, id, s.cursor + 1, deps.message), id, s.(cursor := s.cursor + 1), s.cursor + 1)
  }

  /** The live session gets past every check and is still where the caller saw it. */
  predicate Records(db: Db, seen: nat, deps: Deps, name: string, now: int) {
    var live := ActiveIn(db.sessions);
    live.Some? &&
    var s := db.sessions[live.value];
    !IsStale(s, now) && !ExpectedMismatch(deps, s) && name != "" && s.cursor == seen
  }

  lemma AdvancedLabels(db: Db, id: nat, s: Session, from: nat)
    ensures Advanced(db, id, s, from).labels == db.labels
    ensures |Advanced(db, id, s, from).sessions| == |db.sessions|
    ensures forall i | 0 <= i < |db.sessions| ::
              var a := Advanced(db, id, s, from).sessions[i];
              a.lastMessage == db.sessions[i].lastMessage && (a.status.Active? ==> db.sessions[i].status.Active?)
  {}

  /** The transaction changes at most one label: it names the target, which had
      none, and nothing else. */
  lemma AppliedLabels(db: Db, seen: nat, deps: Deps, name: string, now: int)
    ensures var t := Target(db, seen, deps, name, now);
            && (t.Some? ==> Unlabelled(db, t.value))
            && Applied(db, seen, deps, name, now).labels ==
               if t.Some? then db.labels[t.value := Some(name)] else db.labels
  {
    hide Advanced, ActiveIn, NextUnlabelled;
    var live := ActiveIn(db.sessions);
    if live.Some? {
      var id, s := live.value, db.sessions[live.value];
      AdvancedLabels(db, id, s, s.cursor);
      if s.cursor < |s.ids| {
        var device := s.ids[s.cursor];
        var named := if Unlabelled(db, device) then db.(labels := db.labels[device := Some(name)]) else db;
        AdvancedLabels(SetCursor(named, id, s.cursor + 1, deps.message), id, s.(cursor := s.cursor + 1), s.cursor + 1);
      }
    }
  }

  /** What the transaction does to the rows: no session is reopened, and a row's
      last message changes to this message alone. */
  lemma AppliedRows(db: Db, seen: nat, deps: Deps, name: string, now: int)
    ensures var a := Applied(db, seen, deps, name, now);
            && |a.sessions| == |db.sessions|
            && (forall i | 0 <= i < |db.sessions| :: a.sessions[i].status.Active? ==> db.sessions[i].status.Active?)
            && (forall i | 0 <= i < |db.sessions| ::
                 a.sessions[i].lastMessage == db.sessions[i].lastMessage ||
                 (deps.message.Some? && a.sessions[i].lastMessage == deps.message))
  {
    hide Advanced, ActiveIn, NextUnlabelled;
    var live := ActiveIn(db.sessions);
    if live.Some? {
      var id, s := live.value, db.sessions[live.value];
      AdvancedLabels(db, id, s, s.cursor);
      if s.cursor < |s.ids| {
        var device := s.ids[s.cursor];
        var named := if Unlabelled(db, device) then db.(labels := db.labels[device := Some(name)]) else db;
        AdvancedLabels(SetCursor(named, id, s.cursor + 1, deps.message), id, s.(cursor := s.cursor + 1), s.cursor + 1);
      }
    }
  }

  /** The live row remembers the message afterwards if and only if the transaction
      found the row where its caller saw it, or the row remembered it before:
      labelling is not needed, and moving the cursor on is not enough. */
  lemma RecordsExactly(db: Db, seen: nat, deps: Deps, name: string, now: int)
    requires deps.message.Some? && ActiveIn(db.sessions).Some?
    ensures var id := ActiveIn(db.sessions).value;
            Applied(db, seen, deps, name, now).sessions[id].lastMessage == deps.message <==>
              Records(db, seen, deps, name, now) || db.sessions[id].lastMessage == deps.message
    ensures Target(db, seen, deps, name, now).Some? ==> Records(db, seen, deps, name, now)
  {
    hide Advanced, ActiveIn, NextUnlabelled;
    AppliedRows(db, seen, deps, name, now);
    var id, s := ActiveIn(db.sessions).value, db.sessions[ActiveIn(db.sessions).value];
    AdvancedLabels(db, id, s, s.cursor);
    if s.cursor < |s.ids| {
      var device := s.ids[s.cursor];
      var named := if Unlabelled(db, device) then db.(labels := db.labels[device := Some(name)]) else db;
      AdvancedLabels(SetCursor(named, id, s.cursor + 1, deps.message), id, s.(cursor := s.cursor + 1), s.cursor + 1);
    }
  }

  /** The row has settled, looking from this index on: it is ACTIVE with its cursor
      on the next member that exists unlabelled, or DONE if there is none. */
  ghost predicate Settles(db: Db, r: Session, from: nat) {
    || (r.status.Active? && from <= r.cursor < |r.ids| && Unlabelled(db, r.ids[r.cursor]) &&
        forall j | from <= j < r.cursor :: !Unlabelled(db, r.ids[j]))
    || (r.status.Done? && forall j | from <= j < |r.ids| :: !Unlabelled(db, r.ids[j]))
  }

  /** Only this row changed, and of it only status, cursor and last message. */
  ghost predicate OnlyRow(db: Db, after: Db, id: nat) {
    && id < |db.sessions| == |after.sessions|
    && (forall i | 0 <= i < |db.sessions| && i != id :: after.sessions[i] == db.sessions[i])
    && after.sessions[id].ids == db.sessions[id].ids && after.sessions[id].expiresAt == db.sessions[id].expiresAt
  }

  lemma AdvancedSettles(db: Db, id: nat, s: Session, from: nat)
    requires id < |db.sessions| && db.sessions[id].status.Active?
    requires db.sessions[id].ids == s.ids && db.sessions[id].cursor == s.cursor
    ensures var a := Advanced(db, id, s, from);
            && OnlyRow(db, a, id) && a.labels == db.labels && Settles(a, a.sessions[id], from)
            && a.sessions[id].lastMessage == db.sessions[id].lastMessage
            && (a.sessions[id].status.Done? ==> a.sessions[id].cursor == s.cursor)
  {}

  /** Where the session goes: the live row expires if its time is over; it is DONE
      if it was found past the end; and otherwise it settles past the member it
      was found at, or from there if it had moved or the check or the name failed.
      No other row changes. */
  lemma AppliedSettles(db: Db, seen: nat, deps: Deps, name: string, now: int)
    ensures ActiveIn(db.sessions).None? ==> Applied(db, seen, deps, name, now) == db
    ensures ActiveIn(db.sessions).Some? ==>
              var id := ActiveIn(db.sessions).value;
              var s, a := db.sessions[id], Applied(db, seen, deps, name, now);
              var found := Records(db, seen, deps, name, now);
              OnlyRow(db, a, id) &&
              if s.expiresAt <= now then a == db.(sessions := db.sessions[id := s.(status := Expired)])
              else if found && s.cursor >= |s.ids| then a.sessions[id].status.Done? && a.sessions[id].cursor == s.cursor
              else Settles(a, a.sessions[id], if found then s.cursor + 1 else s.cursor)
  {
    hide ActiveIn, Settles, Advanced;
    var live := ActiveIn(db.sessions);
    if live.Some? {
      var id, s := live.value, db.sessions[live.value];
      AdvancedSettles(db, id, s, s.cursor);
      if s.cursor < |s.ids| {
        var device := s.ids[s.cursor];
        var named := if Unlabelled(db, device) then db.(labels := db.labels[device := Some(name)]) else db;
        AdvancedSettles(SetCursor(named, id, s.cursor + 1, deps.message), id, s.(cursor := s.cursor + 1), s.cursor + 1);
      }
    }
  }

  /** The shared tables, and the transaction as it runs on them. */
  class SessionTables {
    var sessions: seq<Session>
    var labels: map<int, Option<string>>

    ghost function State(): Db
      reads this
    {
      Db(sessions, labels)
    }

    constructor (sessions: seq<Session>, labels: map<int, Option<string>>)
      ensures State() == Db(sessions, labels)
    {
      this.sessions, this.labels := sessions, labels;
    }

    method UpdateCursor(id: nat, cursor: nat, message: Option<int>)
      requires id < |sessions|
      modifies this`sessions
      ensures State() == SetCursor(old(State()), id, cursor, message)
    {
      var row := sessions[id];
      sessions := sessions[id := row.(cursor := cursor, lastMessage := OrKeep(message, row.lastMessage))];
    }

    method UpdateStatus(id: nat, status: Status, message: Option<int>)
      requires id < |sessions|
      modifies this`sessions
      ensures State() == SetStatus(old(State()), id, status, message)
    {
      var row := sessions[id];
      sessions := sessions[id := row.(status := status, lastMessage := OrKeep(message, row.lastMessage))];
    }

    method SetLabel(device: int, name: string) returns (ok: bool)
      modifies this`labels
      ensures ok <==> device in old(labels)
      ensures labels == if ok then old(labels)[device := Some(name)] else old(labels)
    {
      ok := device in labels;
      if ok { labels := labels[device := Some(name)]; }
    }

    method AdvanceToNext(id: nat, s: Session, from: nat) returns (prompted: Option<int>)
      requires id < |sessions|
      modifies this`sessions
      ensures State() == Advanced(old(State()), id, s, from)
      ensures var next := NextUnlabelled(old(State()), s.ids, from);
              prompted == if next.Some? then Some(s.ids[next.value]) else None
    {
      var index := from;
      while index < |s.ids|
        invariant State() == old(State())
        invariant NextUnlabelled(State(), s.ids, from) == NextUnlabelled(State(), s.ids, index)
      {
        var device := s.ids[index];
        if device in labels && labels[device].None? {
          if index != s.cursor { UpdateCursor(id, index, None); }
          return Some(device);
        }
        index := index + 1;
      }
      UpdateStatus(id, Done, None);
      prompted := None;
    }

    method ApplyCurrent(seen: nat, deps: Deps, name: string, now: int)
      modifies this
      ensures State() == Applied(old(State()), seen, deps, name, now)
    {
      hide NextUnlabelled, Advanced;
      var live := ActiveIn(sessions);
      if live.None? { return; }
      var id, s := live.value, sessions[live.value];
      if IsStale(s, now) {
        UpdateStatus(id, Expired, None);
        return;
      }
      if ExpectedMismatch(deps, s) || name == "" {
        var _ := AdvanceToNext(id, s, s.cursor);
        return;
      }
      var from := s.cursor;
      if s.cursor == seen {
        if s.cursor >= |s.ids| {
          UpdateStatus(id, Done, deps.message);
          return;
        }
        var device := s.ids[s.cursor];
        var already := device in labels && labels[device].Some?;
        if !already { var _ := SetLabel(device, name); }
        UpdateCursor(id, s.cursor + 1, deps.message);
        s := s.(cursor := s.cursor + 1);
        from := s.cursor;
      }
      var _ := AdvanceToNext(id, s, from);
    }
  }

  /** When a typed name is sure to land on the prompted device: whatever the
      tables hold by then, it lands there or nowhere if and only if the CLI's
      last look found exactly that device under the cursor. */
  lemma NameIsSafeExactly(prompted: int, expected: Option<int>, name: string)
    requires name != ""
    ensures (forall db: Db, seen: nat, now: int ::
               var t := Target(db, seen, Deps(None, expected), name, now); t.Some? ==> t.value == prompted)
            <==> expected == Some(prompted)
  {
    if expected == Some(prompted) {
      forall db: Db, seen: nat, now: int
        ensures var t := Target(db, seen, Deps(None, expected), name, now); t.Some? ==> t.value == prompted {}
    } else {
      var other := if expected.Some? then expected.value else prompted + 1;
      var db := Db([Session(Active, 0, [other], 1, None)], map[other := None]);
      assert Target(db, 0, Deps(None, expected), name, 0) == Some(other);
    }
  }
}
