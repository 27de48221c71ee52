/** The workspace store behind the REST handlers.

    Tables are keyed by primary key, as in the database. Every handler is one
    step: it either refuses, or commits its mutation and publishes the full row
    (or the deleted id). Ids and timestamps come from outside. */
module Store {
  import opened Common
  import opened Rows

  datatype TaskStatus = Todo | InProgress | Done | Blocked

  datatype HandoffStatus = Open | Acknowledged | Resolved

  datatype TaskBody = TaskBody(
    title: string, status: TaskStatus, assignedTo: Option<string>, createdBy: Option<string>, updatedAt: nat)

  /** A row's optional `task_id` foreign key, next to the rest of the row. */
  datatype Linked<+C> = Linked(task: Option<Id>, core: C)

  datatype DecisionCore = DecisionCore(
    title: string, reason: Option<string>, relatedFiles: Option<string>, madeBy: Option<string>)

  datatype HandoffNotes = HandoffNotes(
    recipient: Option<string>, branch: Option<string>, worktree: Option<string>, summary: string,
    filesChanged: Option<string>, commandsRun: Option<string>, blockers: Option<string>, nextAction: Option<string>)

  datatype HandoffCore = HandoffCore(
    createdBy: Option<string>, notes: HandoffNotes, status: HandoffStatus,
    acknowledgedAt: Option<nat>, acknowledgedBy: Option<string>,
    resolvedAt: Option<nat>, resolvedBy: Option<string>)

  datatype PresenceBody = PresenceBody(
    actorName: string, actorType: string, currentFile: Option<string>, currentTask: Option<string>)

  type Task = Row<TaskBody>
  type Decision = Row<Linked<DecisionCore>>
  type Handoff = Row<Linked<HandoffCore>>
  type Presence = Row<PresenceBody>

  datatype State = State(
    tasks: map<Id, Task>, decisions: map<Id, Decision>, handoffs: map<Id, Handoff>,
    presence: map<string, Presence>,  // one row per actor name
    clock: nat, issued: set<Id>, deleted: bool)

  datatype Event =
    | TaskCreated(task: Task)
    | TaskUpdated(task: Task)
    | TaskDeleted(id: Id)
    | DecisionCreated(decision: Decision)
    | DecisionDeleted(id: Id)
    | HandoffCreated(handoff: Handoff)
    | HandoffUpdated(handoff: Handoff)
    | HandoffDeleted(id: Id)
    | PresenceUpdated(presence: Presence)
    | WorkspaceDeleted

  datatype Command =
    | CreateTask(title: string, assignedTo: Option<string>, createdBy: Option<string>, status: TaskStatus)
    | UpdateTask(task: Id, newTitle: Option<string>, newStatus: Option<TaskStatus>, newAssignee: Option<string>)
    | DeleteTask(task: Id)
    | CreateDecision(core: DecisionCore, link: Option<Id>)
    | DeleteDecision(decision: Id)
    | CreateHandoff(author: Option<string>, notes: HandoffNotes, link: Option<Id>)
    | AcknowledgeHandoff(handoff: Id)
    | ResolveHandoff(handoff: Id)
    | DeleteHandoff(handoff: Id)
    | UpdatePresence(body: PresenceBody)
    | DeleteWorkspace

  /** One authorized call: the principal's actor name, the uuid the database would
      generate, and the time at which the handler runs. */
  datatype Request = Request(cmd: Command, actor: Option<string>, uuid: Id, now: nat)

  datatype Response = Accepted | NotFound | Conflict

  datatype Outcome = Outcome(state: State, events: seq<Event>, response: Response)

  const EMPTY := State(map[], map[], map[], map[], 0, {}, false)
  const SLUG := "workspace"

  /** Python's `a or b` on optional strings: the empty string counts as missing. */
  function Or(a: Option<string>, b: Option<string>): Option<string> {
    if a.Some? && a.value != "" then a else b
  }

  function Given<T>(patch: Option<T>, old_: T): T {
    if patch.Some? then patch.value else old_
  }

  /** `ON DELETE SET NULL` on one referencing table. */
  function SetNull<C>(rows: map<Id, Row<Linked<C>>>, task: Id): map<Id, Row<Linked<C>>> {
    map x | x in rows ::
      if rows[x].body.task == Some(task) then rows[x].(body := rows[x].body.(task := None)) else rows[x]
  }

  function Dangling(s: State, link: Option<Id>): bool {
    link.Some? && link.value !in s.tasks
  }

  function Refused(s: State, r: Response): Outcome {
    Outcome(s, [], r)
  }

  function PatchTask(t: Task, cmd: Command, now: nat): Task
    requires cmd.UpdateTask?
  {
    var body := t.body.(title := Given(cmd.newTitle, t.body.title),
                        status := Given(cmd.newStatus, t.body.status),
                        assignedTo := if cmd.newAssignee.Some? then cmd.newAssignee else t.body.assignedTo);
    // an UPDATE is only issued, and `onupdate` only fires, when a column changed
    t.(body := if body == t.body then body else body.(updatedAt := now))
  }

  function ExecTask(s: State, r: Request): Outcome
    requires r.cmd.CreateTask? || r.cmd.UpdateTask? || r.cmd.DeleteTask?
  {
    match r.cmd
    case CreateTask(title, assignedTo, createdBy, status) =>
      var row := Row(r.uuid, r.now, TaskBody(title, status, assignedTo, Or(createdBy, r.actor), r.now));
      Outcome(s.(tasks := s.tasks[row.id := row]), [TaskCreated(row)], Accepted)
    case UpdateTask(id, _, _, _) =>
      if id !in s.tasks then Refused(s, NotFound)
      else
        var row := PatchTask(s.tasks[id], r.cmd, r.now);
        Outcome(s.(tasks := s.tasks[id := row]), [TaskUpdated(row)], Accepted)
    case DeleteTask(id) =>
      if id !in s.tasks then Refused(s, NotFound)
      else
        Outcome(s.(tasks := s.tasks - {id}, decisions := SetNull(s.decisions, id), handoffs := SetNull(s.handoffs, id)),
                [TaskDeleted(id)], Accepted)
  }

  function ExecDecision(s: State, r: Request): Outcome
    requires r.cmd.CreateDecision? || r.cmd.DeleteDecision?
  {
    match r.cmd
    case CreateDecision(core, link) =>
      if Dangling(s, link) then Refused(s, NotFound)
      else
        var row := Row(r.uuid, r.now, Linked(link, core.(madeBy := Or(core.madeBy, r.actor))));
        Outcome(s.(decisions := s.decisions[row.id := row]), [DecisionCreated(row)], Accepted)
    case DeleteDecision(id) =>
      if id !in s.decisions then Refused(s, NotFound)
      else Outcome(s.(decisions := s.decisions - {id}), [DecisionDeleted(id)], Accepted)
  }

  function Acknowledge(h: HandoffCore, actor: Option<string>, now: nat): HandoffCore {
    h.(status := Acknowledged, acknowledgedAt := Some(now), acknowledgedBy := actor)
  }

  function Resolve(h: HandoffCore, actor: Option<string>, now: nat): HandoffCore {
    h.(status := Resolved, resolvedAt := Some(now), resolvedBy := actor)
  }

  function WithCore<C>(row: Row<Linked<C>>, core: C): Row<Linked<C>> {
    row.(body := row.body.(core := core))
  }

  function ExecHandoff(s: State, r: Request): Outcome
    requires r.cmd.CreateHandoff? || r.cmd.AcknowledgeHandoff? || r.cmd.ResolveHandoff? || r.cmd.DeleteHandoff?
  {
    match r.cmd
    case CreateHandoff(author, notes, link) =>
      if Dangling(s, link) then Refused(s, NotFound)
      else
        var core := HandoffCore(Or(author, Or(r.actor, Some(SLUG))), notes, Open, None, None, None, None);
        var row := Row(r.uuid, r.now, Linked(link, core));
        Outcome(s.(handoffs := s.handoffs[row.id := row]), [HandoffCreated(row)], Accepted)
    case AcknowledgeHandoff(id) =>
      if id !in s.handoffs then Refused(s, NotFound)
      else
        var h := s.handoffs[id];
        if h.body.core.status == Resolved then Refused(s, Conflict)
        else if h.body.core.status == Acknowledged then Refused(s, Accepted)
        else
          var row := WithCore(h, Acknowledge(h.body.core, r.actor, r.now));
          Outcome(s.(handoffs := s.handoffs[id := row]), [HandoffUpdated(row)], Accepted)
    case ResolveHandoff(id) =>
      if id !in s.handoffs then Refused(s, NotFound)
      else
        var h := s.handoffs[id];
        if h.body.core.status == Resolved then Refused(s, Accepted)
        else
          var row := WithCore(h, Resolve(h.body.core, r.actor, r.now));
          Outcome(s.(handoffs := s.handoffs[id := row]), [HandoffUpdated(row)], Accepted)
    case DeleteHandoff(id) =>
      if id !in s.handoffs then Refused(s, NotFound)
      else Outcome(s.(handoffs := s.handoffs - {id}), [HandoffDeleted(id)], Accepted)
  }

  /** `INSERT ... ON CONFLICT (workspace_id, actor_name) DO UPDATE`: the row keeps its id. */
  function ExecPresence(s: State, r: Request): Outcome
    requires r.cmd.UpdatePresence?
  {
    var name := r.cmd.body.actorName;
    var row := Row(if name in s.presence then s.presence[name].id else r.uuid, r.now, r.cmd.body);
    Outcome(s.(presence := s.presence[name := row]), [PresenceUpdated(row)], Accepted)
  }

  function ExecLive(s: State, r: Request): Outcome {
    match r.cmd
    case CreateTask(_, _, _, _) => ExecTask(s, r)
    case UpdateTask(_, _, _, _) => ExecTask(s, r)
    case DeleteTask(_) => ExecTask(s, r)
    case CreateDecision(_, _) => ExecDecision(s, r)
    case DeleteDecision(_) => ExecDecision(s, r)
    case CreateHandoff(_, _, _) => ExecHandoff(s, r)
    case AcknowledgeHandoff(_) => ExecHandoff(s, r)
    case ResolveHandoff(_) => ExecHandoff(s, r)
    case DeleteHandoff(_) => ExecHandoff(s, r)
    case UpdatePresence(_) => ExecPresence(s, r)
    case DeleteWorkspace =>
      Outcome(s.(tasks := map[], decisions := map[], handoffs := map[], presence := map[], deleted := true),
              [WorkspaceDeleted], Accepted)
  }

  /** The clock moves on and the generated uuid is spent even when the call is refused. */
  function Aged(s: State, r: Request): State {
    s.(clock := r.now, issued := s.issued + {r.uuid})
  }

  /** One handler call. */
  function Exec(s: State, r: Request): Outcome {
    if s.deleted then Refused(Aged(s, r), NotFound) else ExecLive(Aged(s, r), r)
  }

  predicate TaskCommand(c: Command) { c.CreateTask? || c.UpdateTask? || c.DeleteTask? }

  predicate DecisionCommand(c: Command) { c.CreateDecision? || c.DeleteDecision? }

  predicate HandoffCommand(c: Command) {
    c.CreateHandoff? || c.AcknowledgeHandoff? || c.ResolveHandoff? || c.DeleteHandoff?
  }

  /** Which handler a live call reaches. */
  lemma Dispatch(s: State, r: Request)
    requires !s.deleted
    ensures TaskCommand(r.cmd) ==> Exec(s, r) == ExecTask(Aged(s, r), r)
    ensures DecisionCommand(r.cmd) ==> Exec(s, r) == ExecDecision(Aged(s, r), r)
    ensures HandoffCommand(r.cmd) ==> Exec(s, r) == ExecHandoff(Aged(s, r), r)
    ensures r.cmd.UpdatePresence? ==> Exec(s, r) == ExecPresence(Aged(s, r), r)
  {
  }

  /** What each handler leaves alone. */
  lemma HandlersFrame(s: State, r: Request)
    ensures var o := Exec(s, r);
            && |o.events| <= 1 && o.state.clock == r.now && o.state.issued == s.issued + {r.uuid}
            && (s.deleted ==> o.events == [] && o.state == Aged(s, r))
    ensures DecisionCommand(r.cmd) ==> var o := Exec(s, r);
              && o.state == Aged(s, r).(decisions := o.state.decisions)
              && forall e | e in o.events :: e.DecisionCreated? || e.DecisionDeleted?
    ensures HandoffCommand(r.cmd) ==> var o := Exec(s, r);
              && o.state == Aged(s, r).(handoffs := o.state.handoffs)
              && forall e | e in o.events :: e.HandoffCreated? || e.HandoffUpdated? || e.HandoffDeleted?
    ensures r.cmd.UpdatePresence? ==> var o := Exec(s, r);
              && o.state == Aged(s, r).(presence := o.state.presence)
              && forall e | e in o.events :: e.PresenceUpdated?
    ensures TaskCommand(r.cmd) ==> var o := Exec(s, r);
              && o.state.presence == s.presence
              && (forall e | e in o.events :: e.TaskCreated? || e.TaskUpdated? || e.TaskDeleted?)
              && (!r.cmd.DeleteTask? || o.events == [] ==> o.state == Aged(s, r).(tasks := o.state.tasks))
              && (r.cmd.DeleteTask? && o.events != [] ==>
                    && o.events == [TaskDeleted(r.cmd.task)] && r.cmd.task in s.tasks
                    && o.state == Aged(s, r).(tasks := s.tasks - {r.cmd.task},
                                              decisions := SetNull(s.decisions, r.cmd.task),
                                              handoffs := SetNull(s.handoffs, r.cmd.task)))
  {
  }

  /** What the environment guarantees: uuids are fresh and time moves on. */
  predicate Feasible(s: State, r: Request) {
    r.uuid !in s.issued && r.now > s.clock
  }

  predicate FeasibleRun(s: State, rs: seq<Request>)
    decreases |rs|
  {
    rs == [] || (Feasible(s, rs[0]) && FeasibleRun(Exec(s, rs[0]).state, rs[1..]))
  }

  function Run(s: State, rs: seq<Request>): State
    decreases |rs|
  {
    if rs == [] then s else Run(Exec(s, rs[0]).state, rs[1..])
  }

  /** Everything published by the run, in order. */
  function Log(s: State, rs: seq<Request>): seq<Event>
    decreases |rs|
  {
    if rs == [] then [] else Exec(s, rs[0]).events + Log(Exec(s, rs[0]).state, rs[1..])
  }

  lemma {:induction false} RunSplit(s: State, a: seq<Request>, b: seq<Request>)
    ensures Run(s, a + b) == Run(Run(s, a), b)
    ensures Log(s, a + b) == Log(s, a) + Log(Run(s, a), b)
    ensures FeasibleRun(s, a + b) <==> FeasibleRun(s, a) && FeasibleRun(Run(s, a), b)
    decreases |a|
  {
    if a == [] {
      assert a + b == b;
    } else {
      assert a + b == [a[0]] + (a[1..] + b);
      RunSplit(Exec(s, a[0]).state, a[1..], b);
    }
  }

  lemma {:induction false} DeletedStays(s: State, rs: seq<Request>)
    requires s.deleted
    ensures Run(s, rs).deleted
    decreases |rs|
  {
    if rs != [] { DeletedStays(Exec(s, rs[0]).state, rs[1..]); }
  }

  /** A workspace that survived the request was there before it. */
  lemma AliveBefore(s: State, r: Request)
    requires !Exec(s, r).state.deleted
    ensures !s.deleted && !r.cmd.DeleteWorkspace?
  {
  }

  lemma AliveStep(s: State, rs: seq<Request>)
    requires rs != [] && !Run(s, rs).deleted
    ensures !s.deleted && !Exec(s, rs[0]).state.deleted && !Run(Exec(s, rs[0]).state, rs[1..]).deleted
  {
    if Exec(s, rs[0]).state.deleted { DeletedStays(Exec(s, rs[0]).state, rs[1..]); }
    AliveBefore(s, rs[0]);
  }

  // -------------------------------------------------------------------------
  // Invariants of every reachable store
  // -------------------------------------------------------------------------

  ghost predicate Keyed<B>(t: map<Id, Row<B>>, clock: nat, issued: set<Id>) {
    forall x | x in t :: t[x].id == x && t[x].at <= clock && x in issued
  }

  ghost predicate LinksLive<C>(t: map<Id, Row<Linked<C>>>, tasks: set<Id>) {
    forall x | x in t :: t[x].body.task.Some? ==> t[x].body.task.value in tasks
  }

  /** The timestamps of a handoff are exactly those of the transitions it went through. */
  predicate Lifecycle(h: HandoffCore, createdAt: nat) {
    match h.status
    case Open => h.acknowledgedAt.None? && h.acknowledgedBy.None? && h.resolvedAt.None? && h.resolvedBy.None?
    case Acknowledged => h.acknowledgedAt.Some? && createdAt < h.acknowledgedAt.value && h.resolvedAt.None?
        && h.resolvedBy.None?
    case Resolved =>
      && h.resolvedAt.Some? && createdAt < h.resolvedAt.value
      && (h.acknowledgedAt.None? ==> h.acknowledgedBy.None?)
      && (h.acknowledgedAt.Some? ==> createdAt < h.acknowledgedAt.value < h.resolvedAt.value)
  }

  ghost predicate PresenceKeyed(s: State) {
    && (forall n | n in s.presence :: s.presence[n].body.actorName == n && s.presence[n].id in s.issued)
    && (forall n, m | n in s.presence && m in s.presence && s.presence[n].id == s.presence[m].id :: n == m)
  }

  ghost predicate HandoffsValid(t: map<Id, Handoff>, clock: nat) {
    forall x | x in t ::
      var core := t[x].body.core;
      Lifecycle(core, t[x].at) && (core.acknowledgedAt.Some? ==> core.acknowledgedAt.value <= clock)
  }

  ghost predicate Valid(s: State) {
    && Keyed(s.tasks, s.clock, s.issued) && Keyed(s.decisions, s.clock, s.issued)
    && Keyed(s.handoffs, s.clock, s.issued) && PresenceKeyed(s)
    && LinksLive(s.decisions, s.tasks.Keys) && LinksLive(s.handoffs, s.tasks.Keys)
    && HandoffsValid(s.handoffs, s.clock)
    && (s.deleted ==> s.tasks == map[] && s.decisions == map[] && s.handoffs == map[] && s.presence == map[])
  }

  /** Writing one well-keyed row. */
  lemma KeyedPut<B>(t: map<Id, Row<B>>, row: Row<B>, clock: nat, issued: set<Id>)
    requires Keyed(t, clock, issued) && row.at <= clock && row.id in issued
    ensures Keyed(t[row.id := row], clock, issued)
  {
  }

  lemma KeyedAged<B>(t: map<Id, Row<B>>, clock: nat, issued: set<Id>, clock': nat, issued': set<Id>)
    requires Keyed(t, clock, issued) && clock <= clock' && issued <= issued'
    ensures Keyed(t, clock', issued')
  {
  }

  lemma ValidAged(s: State, r: Request)
    requires Valid(s) && Feasible(s, r)
    ensures Valid(Aged(s, r))
  {
    var a := Aged(s, r);
    KeyedAged(s.tasks, s.clock, s.issued, a.clock, a.issued);
    KeyedAged(s.decisions, s.clock, s.issued, a.clock, a.issued);
    KeyedAged(s.handoffs, s.clock, s.issued, a.clock, a.issued);
  }

  lemma SetNullValid<C>(t: map<Id, Row<Linked<C>>>, task: Id, tasks: set<Id>, clock: nat, issued: set<Id>)
    requires Keyed(t, clock, issued) && LinksLive(t, tasks)
    ensures Keyed(SetNull(t, task), clock, issued) && LinksLive(SetNull(t, task), tasks - {task})
    ensures SetNull(t, task).Keys == t.Keys
    ensures forall x | x in t ::
              var link := t[x].body.task;
              SetNull(t, task)[x] == t[x].(body := t[x].body.(task := if link == Some(task) then None else link))
  {
  }

  lemma ValidTask(a: State, r: Request)
    requires Valid(a) && !a.deleted && r.uuid in a.issued && r.now == a.clock
    requires r.cmd.CreateTask? || r.cmd.UpdateTask? || r.cmd.DeleteTask?
    ensures Valid(ExecTask(a, r).state)
  {
    match r.cmd
    case CreateTask(_, _, _, _) =>
      KeyedPut(a.tasks, ExecTask(a, r).events[0].task, a.clock, a.issued);
    case UpdateTask(id, _, _, _) =>
      if id in a.tasks {
        KeyedPut(a.tasks, PatchTask(a.tasks[id], r.cmd, r.now), a.clock, a.issued);
      }
    case DeleteTask(id) =>
      SetNullValid(a.decisions, id, a.tasks.Keys, a.clock, a.issued);
      SetNullValid(a.handoffs, id, a.tasks.Keys, a.clock, a.issued);
      assert (a.tasks - {id}).Keys == a.tasks.Keys - {id};
      assert HandoffsValid(SetNull(a.handoffs, id), a.clock);
  }

  lemma ValidDecision(a: State, r: Request)
    requires Valid(a) && !a.deleted && r.uuid in a.issued && r.now == a.clock
    requires r.cmd.CreateDecision? || r.cmd.DeleteDecision?
    ensures Valid(ExecDecision(a, r).state)
  {
    var o := ExecDecision(a, r);
    if r.cmd.CreateDecision? && o.events != [] {
      KeyedPut(a.decisions, o.events[0].decision, a.clock, a.issued);
    }
  }

  lemma ValidHandoff(a: State, r: Request, before: nat)
    requires Valid(a) && !a.deleted && r.uuid in a.issued && r.now == a.clock
    requires r.cmd.CreateHandoff? || r.cmd.AcknowledgeHandoff? || r.cmd.ResolveHandoff? || r.cmd.DeleteHandoff?
    requires before < r.now && HandoffsValid(a.handoffs, before)
    requires forall x | x in a.handoffs :: a.handoffs[x].at <= before
    ensures Valid(ExecHandoff(a, r).state)
  {
    var o := ExecHandoff(a, r);
    if o.events != [] && !r.cmd.DeleteHandoff? {
      var row := if r.cmd.CreateHandoff? then o.events[0].handoff else o.state.handoffs[r.cmd.handoff];
      KeyedPut(a.handoffs, row, a.clock, a.issued);
      HandoffPut(a.handoffs, row, a.clock, a.tasks.Keys);
    }
  }

  lemma HandoffPut(t: map<Id, Handoff>, row: Handoff, clock: nat, tasks: set<Id>)
    requires HandoffsValid(t, clock) && LinksLive(t, tasks) && Lifecycle(row.body.core, row.at)
    requires row.body.task.Some? ==> row.body.task.value in tasks
    requires row.body.core.acknowledgedAt.Some? ==> row.body.core.acknowledgedAt.value <= clock
    ensures HandoffsValid(t[row.id := row], clock) && LinksLive(t[row.id := row], tasks)
  {
  }

  lemma ValidPresence(a: State, r: Request)
    requires Valid(a) && !a.deleted && r.uuid in a.issued && r.cmd.UpdatePresence?
    requires forall n | n in a.presence :: a.presence[n].id != r.uuid
    ensures Valid(ExecPresence(a, r).state)
  {
  }

  lemma ValidStep(s: State, r: Request)
    requires Valid(s) && Feasible(s, r)
    ensures Valid(Exec(s, r).state)
  {
    ValidAged(s, r);
    if s.deleted {
    } else if r.cmd.CreateTask? || r.cmd.UpdateTask? || r.cmd.DeleteTask? {
      ValidTask(Aged(s, r), r);
    } else if r.cmd.CreateDecision? || r.cmd.DeleteDecision? {
      ValidDecision(Aged(s, r), r);
    } else if r.cmd.UpdatePresence? {
      ValidPresence(Aged(s, r), r);
    } else if !r.cmd.DeleteWorkspace? {
      ValidHandoff(Aged(s, r), r, s.clock);
    }
  }

  /** Every decision and handoff link is null or a live task, and every handoff carries exactly
      the timestamps of its transitions, in every store reachable from a valid one. */
  lemma {:induction false} ValidRun(s: State, rs: seq<Request>)
    requires Valid(s) && FeasibleRun(s, rs)
    ensures Valid(Run(s, rs))
    decreases |rs|
  {
    if rs != [] {
      ValidStep(s, rs[0]);
      ValidRun(Exec(s, rs[0]).state, rs[1..]);
    }
  }
}
