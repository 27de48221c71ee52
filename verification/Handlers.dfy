/** What a caller of each handler observes, column by column and branch by branch: the row stored, the
    row published, what is left alone, and the response. */
module Handlers {
  import opened Common
  import opened Rows
  import opened Store

  /** A string that counts as given. */
  predicate Filled(o: Option<string>) { o.Some? && o.value != "" }

  /** Nothing but the clock and the spent uuid moved, and nothing was published. */
  ghost predicate Untouched(s: State, r: Request, o: Outcome) {
    o.state == s.(clock := r.now, issued := s.issued + {r.uuid}) && o.events == []
  }

  /** A table gained or replaced one row. */
  ghost predicate Wrote<K(!new), V(!new)>(t: map<K, V>, t': map<K, V>, k: K, v: V) {
    k in t' && t'[k] == v && t'.Keys == t.Keys + {k} && forall x | x in t && x != k :: t'[x] == t[x]
  }

  /** A table lost one row. */
  ghost predicate Dropped<K(!new), V(!new)>(t: map<K, V>, t': map<K, V>, k: K) {
    k in t && t'.Keys == t.Keys - {k} && forall x | x in t' :: t'[x] == t[x]
  }

  /** Every row kept its columns, and its link unless the link was to this task. */
  ghost predicate LinkCleared<C(!new)>(t: map<Id, Row<Linked<C>>>, t': map<Id, Row<Linked<C>>>, task: Id) {
    && t'.Keys == t.Keys
    && forall x | x in t ::
         && t'[x].id == t[x].id && t'[x].at == t[x].at && t'[x].body.core == t[x].body.core
         && t'[x].body.task == if t[x].body.task == Some(task) then None else t[x].body.task
  }

  /** A deleted workspace answers 404 to everything. */
  lemma NothingAfterDeletion(s: State, r: Request)
    requires s.deleted
    ensures Exec(s, r).response == NotFound && Untouched(s, r, Exec(s, r))
  {
  }

  lemma TaskCreation(s: State, r: Request)
    requires !s.deleted && r.cmd.CreateTask?
    ensures var o := Exec(s, r);
            && o.response == Accepted && r.uuid in o.state.tasks
            && var row := o.state.tasks[r.uuid];
            && o.events == [TaskCreated(row)] && Wrote(s.tasks, o.state.tasks, r.uuid, row)
            && row.id == r.uuid && row.at == r.now && row.body.updatedAt == r.now
            && row.body.title == r.cmd.title && row.body.status == r.cmd.status
            && row.body.assignedTo == r.cmd.assignedTo
            && row.body.createdBy == (if Filled(r.cmd.createdBy) then r.cmd.createdBy else r.actor)
            && o.state.decisions == s.decisions && o.state.handoffs == s.handoffs && o.state.presence == s.presence
  {
  }

  /** Each of the three columns is the given value, else the old one; the timestamp moves exactly when one
      of them did. */
  lemma TaskPatch(s: State, r: Request)
    requires !s.deleted && r.cmd.UpdateTask?
    ensures r.cmd.task !in s.tasks ==> Exec(s, r).response == NotFound && Untouched(s, r, Exec(s, r))
    ensures r.cmd.task in s.tasks ==>
              var o, id := Exec(s, r), r.cmd.task;
              && o.response == Accepted && id in o.state.tasks
              && var old_, new_ := s.tasks[id], o.state.tasks[id];
              && o.events == [TaskUpdated(new_)] && Wrote(s.tasks, o.state.tasks, id, new_)
              && new_.id == old_.id && new_.at == old_.at && new_.body.createdBy == old_.body.createdBy
              && new_.body.title == (if r.cmd.newTitle.Some? then r.cmd.newTitle.value else old_.body.title)
              && new_.body.status == (if r.cmd.newStatus.Some? then r.cmd.newStatus.value else old_.body.status)
              && new_.body.assignedTo == (if r.cmd.newAssignee.Some? then r.cmd.newAssignee else old_.body.assignedTo)
              && new_.body.updatedAt == (
                   if new_.body.title == old_.body.title && new_.body.status == old_.body.status
                      && new_.body.assignedTo == old_.body.assignedTo
                   then old_.body.updatedAt else r.now)
              && o.state.decisions == s.decisions && o.state.handoffs == s.handoffs && o.state.presence == s.presence
  {
  }

  lemma TaskDeletion(s: State, r: Request)
    requires !s.deleted && r.cmd.DeleteTask?
    ensures r.cmd.task !in s.tasks ==> Exec(s, r).response == NotFound && Untouched(s, r, Exec(s, r))
    ensures r.cmd.task in s.tasks ==>
              var o, id := Exec(s, r), r.cmd.task;
              && o.response == Accepted && o.events == [TaskDeleted(id)] && Dropped(s.tasks, o.state.tasks, id)
              && LinkCleared(s.decisions, o.state.decisions, id) && LinkCleared(s.handoffs, o.state.handoffs, id)
              && o.state.presence == s.presence
  {
  }

  lemma DecisionCreation(s: State, r: Request)
    requires !s.deleted && r.cmd.CreateDecision?
    ensures r.cmd.link.Some? && r.cmd.link.value !in s.tasks ==>
              Exec(s, r).response == NotFound && Untouched(s, r, Exec(s, r))
    ensures r.cmd.link.None? || r.cmd.link.value in s.tasks ==>
              var o := Exec(s, r);
              && o.response == Accepted && r.uuid in o.state.decisions
              && var row := o.state.decisions[r.uuid]; var core := row.body.core;
              && o.events == [DecisionCreated(row)] && Wrote(s.decisions, o.state.decisions, r.uuid, row)
              && row.id == r.uuid && row.at == r.now && row.body.task == r.cmd.link
              && core.title == r.cmd.core.title && core.reason == r.cmd.core.reason
              && core.relatedFiles == r.cmd.core.relatedFiles
              && core.madeBy == (if Filled(r.cmd.core.madeBy) then r.cmd.core.madeBy else r.actor)
              && o.state.tasks == s.tasks && o.state.handoffs == s.handoffs && o.state.presence == s.presence
  {
  }

  lemma DecisionDeletion(s: State, r: Request)
    requires !s.deleted && r.cmd.DeleteDecision?
    ensures r.cmd.decision !in s.decisions ==> Exec(s, r).response == NotFound && Untouched(s, r, Exec(s, r))
    ensures r.cmd.decision in s.decisions ==>
              var o, id := Exec(s, r), r.cmd.decision;
              && o.response == Accepted && o.events == [DecisionDeleted(id)]
              && Dropped(s.decisions, o.state.decisions, id)
              && o.state.tasks == s.tasks && o.state.handoffs == s.handoffs && o.state.presence == s.presence
  {
  }

  /** A handoff starts open and is signed by the given author, else the caller, else the workspace. */
  lemma HandoffCreation(s: State, r: Request)
    requires !s.deleted && r.cmd.CreateHandoff?
    ensures r.cmd.link.Some? && r.cmd.link.value !in s.tasks ==>
              Exec(s, r).response == NotFound && Untouched(s, r, Exec(s, r))
    ensures r.cmd.link.None? || r.cmd.link.value in s.tasks ==>
              var o := Exec(s, r);
              && o.response == Accepted && r.uuid in o.state.handoffs
              && var row := o.state.handoffs[r.uuid]; var core := row.body.core;
              && o.events == [HandoffCreated(row)] && Wrote(s.handoffs, o.state.handoffs, r.uuid, row)
              && row.id == r.uuid && row.at == r.now && row.body.task == r.cmd.link
              && core.notes == r.cmd.notes && core.status == HandoffStatus.Open
              && core.acknowledgedAt.None? && core.acknowledgedBy.None?
              && core.resolvedAt.None? && core.resolvedBy.None?
              && core.createdBy == (if Filled(r.cmd.author) then r.cmd.author
                                    else if Filled(r.actor) then r.actor else Some(SLUG))
              && o.state.tasks == s.tasks && o.state.decisions == s.decisions && o.state.presence == s.presence
  {
  }

  /** The row of a handoff after an accepted transition, every other column kept. */
  ghost predicate Transition(s: State, r: Request, o: Outcome, id: Id, status: HandoffStatus) {
    && o.response == Accepted && id in s.handoffs && id in o.state.handoffs
    && var old_, new_ := s.handoffs[id], o.state.handoffs[id];
    var before, after := old_.body.core, new_.body.core;
    && o.events == [HandoffUpdated(new_)] && Wrote(s.handoffs, o.state.handoffs, id, new_)
    && new_.id == old_.id && new_.at == old_.at && new_.body.task == old_.body.task
    && after.createdBy == before.createdBy && after.notes == before.notes && after.status == status
    && (if status == Acknowledged then after.acknowledgedAt == Some(r.now) && after.acknowledgedBy == r.actor
        else after.acknowledgedAt == before.acknowledgedAt && after.acknowledgedBy == before.acknowledgedBy)
    && (if status == Resolved then after.resolvedAt == Some(r.now) && after.resolvedBy == r.actor
        else after.resolvedAt == before.resolvedAt && after.resolvedBy == before.resolvedBy)
    && o.state.tasks == s.tasks && o.state.decisions == s.decisions && o.state.presence == s.presence
  }

  lemma HandoffAcknowledgement(s: State, r: Request)
    requires !s.deleted && r.cmd.AcknowledgeHandoff?
    ensures r.cmd.handoff !in s.handoffs ==> Exec(s, r).response == NotFound && Untouched(s, r, Exec(s, r))
    ensures r.cmd.handoff in s.handoffs ==>
              match s.handoffs[r.cmd.handoff].body.core.status
              case Open => Transition(s, r, Exec(s, r), r.cmd.handoff, Acknowledged)
              case Acknowledged => Exec(s, r).response == Accepted && Untouched(s, r, Exec(s, r))
              case Resolved => Exec(s, r).response == Conflict && Untouched(s, r, Exec(s, r))
  {
  }

  lemma HandoffResolution(s: State, r: Request)
    requires !s.deleted && r.cmd.ResolveHandoff?
    ensures r.cmd.handoff !in s.handoffs ==> Exec(s, r).response == NotFound && Untouched(s, r, Exec(s, r))
    ensures r.cmd.handoff in s.handoffs ==>
              match s.handoffs[r.cmd.handoff].body.core.status
              case Resolved => Exec(s, r).response == Accepted && Untouched(s, r, Exec(s, r))
              case _ => Transition(s, r, Exec(s, r), r.cmd.handoff, Resolved)
  {
  }

  lemma HandoffDeletion(s: State, r: Request)
    requires !s.deleted && r.cmd.DeleteHandoff?
    ensures r.cmd.handoff !in s.handoffs ==> Exec(s, r).response == NotFound && Untouched(s, r, Exec(s, r))
    ensures r.cmd.handoff in s.handoffs ==>
              var o, id := Exec(s, r), r.cmd.handoff;
              && o.response == Accepted && o.events == [HandoffDeleted(id)]
              && Dropped(s.handoffs, o.state.handoffs, id)
              && o.state.tasks == s.tasks && o.state.decisions == s.decisions && o.state.presence == s.presence
  {
  }

  /** A heartbeat replaces the actor's row and keeps its id. */
  lemma Heartbeat(s: State, r: Request)
    requires !s.deleted && r.cmd.UpdatePresence?
    ensures var o, name := Exec(s, r), r.cmd.body.actorName;
            && o.response == Accepted && name in o.state.presence
            && var row := o.state.presence[name];
            && o.events == [PresenceUpdated(row)] && Wrote(s.presence, o.state.presence, name, row)
            && row.id == (if name in s.presence then s.presence[name].id else r.uuid)
            && row.at == r.now && row.body == r.cmd.body
            && o.state.tasks == s.tasks && o.state.decisions == s.decisions && o.state.handoffs == s.handoffs
  {
  }

  lemma WorkspaceDeletion(s: State, r: Request)
    requires !s.deleted && r.cmd.DeleteWorkspace?
    ensures var o := Exec(s, r);
            && o.response == Accepted && o.events == [WorkspaceDeleted] && o.state.deleted
            && o.state.tasks == map[] && o.state.decisions == map[]
            && o.state.handoffs == map[] && o.state.presence == map[]
  {
  }
}
