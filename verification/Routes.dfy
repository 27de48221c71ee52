/** The workspace handlers, statement by statement, over mutable tables.

    Every handler is proved to be the step of the store specification: same tables,
    same published events, same response. It keeps the store invariant. */
module Routes {
  import opened Common
  import opened Rows
  import opened Store

  class Workspace {
    var tasks: map<Id, Task>
    var decisions: map<Id, Decision>
    var handoffs: map<Id, Handoff>
    var presence: map<string, Presence>
    var deleted: bool
    var published: seq<Event>
    // the database clock, and every uuid it has generated
    var clock: nat
    ghost var issued: set<Id>

    constructor ()
      ensures Valid() && State() == EMPTY && published == []
    {
      tasks, decisions, handoffs, presence := map[], map[], map[], map[];
      deleted, published, clock, issued := false, [], 0, {};
    }

    ghost function State(): Store.State
      reads this
    {
      Store.State(tasks, decisions, handoffs, presence, clock, issued, deleted)
    }

    /** Every link is null or a live task, rows are keyed by issued ids, handoffs carry the timestamps
        of their transitions. */
    ghost predicate Valid()
      reads this
    {
      Store.Valid(State())
    }

    /** The uuid the database would generate is new, and time has moved on. */
    ghost predicate Ready(uuid: Id, now: nat)
      reads this
    {
      Valid() && uuid !in issued && now > clock
    }

    /** The call did what the specification says, and published exactly its events. */
    twostate predicate Did(r: Request, status: Response)
      reads this
    {
      var o := Exec(old(State()), r);
      State() == o.state && published == old(published) + o.events && status == o.response
    }

    method Publish(e: Event)
      modifies this`published
      ensures published == old(published) + [e]
    {
      published := published + [e];
    }

    /** Entering a handler: time has moved on and the database may spend a uuid. */
    method Enter(uuid: Id, now: nat)
      modifies this`clock, this`issued
      ensures State() == Aged(old(State()), Request(DeleteWorkspace, None, uuid, now))
    {
      clock := now;
      issued := issued + {uuid};
    }

    method PostTask(title: string, assignedTo: Option<string>, createdBy: Option<string>, status: TaskStatus,
                    actor: Option<string>, uuid: Id, now: nat) returns (response: Response)
      requires Ready(uuid, now)
      modifies this
      ensures Valid() && Did(Request(CreateTask(title, assignedTo, createdBy, status), actor, uuid, now), response)
    {
      hide Store.Valid;
      ValidStep(State(), Request(CreateTask(title, assignedTo, createdBy, status), actor, uuid, now));
      Enter(uuid, now);
      if deleted { return NotFound; }
      var task := Row(uuid, now, TaskBody(title, status, assignedTo, Or(createdBy, actor), now));
      tasks := tasks[task.id := task];
      Publish(TaskCreated(task));
      response := Accepted;
    }

    method PutTask(id: Id, title: Option<string>, status: Option<TaskStatus>, assignedTo: Option<string>,
                   actor: Option<string>, uuid: Id, now: nat) returns (response: Response)
      requires Ready(uuid, now)
      modifies this
      ensures Valid() && Did(Request(UpdateTask(id, title, status, assignedTo), actor, uuid, now), response)
    {
      hide Store.Valid;
      ValidStep(State(), Request(UpdateTask(id, title, status, assignedTo), actor, uuid, now));
      Enter(uuid, now);
      if deleted || id !in tasks { return NotFound; }
      var task := tasks[id];
      var body := task.body;
      if title.Some? { body := body.(title := title.value); }
      if status.Some? { body := body.(status := status.value); }
      if assignedTo.Some? { body := body.(assignedTo := assignedTo); }
      if body != task.body { body := body.(updatedAt := now); }
      task := task.(body := body);
      tasks := tasks[id := task];
      Publish(TaskUpdated(task));
      response := Accepted;
    }

    method RemoveTask(id: Id, actor: Option<string>, uuid: Id, now: nat) returns (response: Response)
      requires Ready(uuid, now)
      modifies this
      ensures Valid() && Did(Request(DeleteTask(id), actor, uuid, now), response)
    {
      hide Store.Valid;
      ValidStep(State(), Request(DeleteTask(id), actor, uuid, now));
      Enter(uuid, now);
      if deleted || id !in tasks { return NotFound; }
      tasks := tasks - {id};
      decisions := SetNull(decisions, id);
      handoffs := SetNull(handoffs, id);
      Publish(TaskDeleted(id));
      response := Accepted;
    }

    method PostDecision(core: DecisionCore, link: Option<Id>, actor: Option<string>, uuid: Id, now: nat)
      returns (response: Response)
      requires Ready(uuid, now)
      modifies this
      ensures Valid() && Did(Request(CreateDecision(core, link), actor, uuid, now), response)
    {
      hide Store.Valid;
      ValidStep(State(), Request(CreateDecision(core, link), actor, uuid, now));
      Enter(uuid, now);
      if deleted { return NotFound; }
      if link.Some? {
        if link.value !in tasks { return NotFound; }
      }
      var decision := Row(uuid, now, Linked(link, core.(madeBy := Or(core.madeBy, actor))));
      decisions := decisions[decision.id := decision];
      Publish(DecisionCreated(decision));
      response := Accepted;
    }

    method RemoveDecision(id: Id, actor: Option<string>, uuid: Id, now: nat) returns (response: Response)
      requires Ready(uuid, now)
      modifies this
      ensures Valid() && Did(Request(DeleteDecision(id), actor, uuid, now), response)
    {
      hide Store.Valid;
      ValidStep(State(), Request(DeleteDecision(id), actor, uuid, now));
      Enter(uuid, now);
      if deleted || id !in decisions { return NotFound; }
      decisions := decisions - {id};
      Publish(DecisionDeleted(id));
      response := Accepted;
    }

    method PostHandoff(author: Option<string>, notes: HandoffNotes, link: Option<Id>,
                       actor: Option<string>, uuid: Id, now: nat) returns (response: Response)
      requires Ready(uuid, now)
      modifies this
      ensures Valid() && Did(Request(CreateHandoff(author, notes, link), actor, uuid, now), response)
    {
      hide Store.Valid;
      ValidStep(State(), Request(CreateHandoff(author, notes, link), actor, uuid, now));
      Enter(uuid, now);
      if deleted { return NotFound; }
      if link.Some? {
        if link.value !in tasks { return NotFound; }
      }
      var createdBy := Or(author, Or(actor, Some(SLUG)));
      var handoff := Row(uuid, now, Linked(link, HandoffCore(createdBy, notes, Open, None, None, None, None)));
      handoffs := handoffs[handoff.id := handoff];
      Publish(HandoffCreated(handoff));
      response := Accepted;
    }

    method PickUpHandoff(id: Id, actor: Option<string>, uuid: Id, now: nat) returns (response: Response)
      requires Ready(uuid, now)
      modifies this
      ensures Valid() && Did(Request(AcknowledgeHandoff(id), actor, uuid, now), response)
    {
      hide Store.Valid;
      ValidStep(State(), Request(AcknowledgeHandoff(id), actor, uuid, now));
      Enter(uuid, now);
      if deleted || id !in handoffs { return NotFound; }
      var handoff := handoffs[id];
      var core := handoff.body.core;
      if core.status == Resolved { return Conflict; }
      if core.status == Open {
        core := core.(status := Acknowledged);
        core := core.(acknowledgedAt := Some(now));
        core := core.(acknowledgedBy := actor);
        handoff := WithCore(handoff, core);
        handoffs := handoffs[id := handoff];
        Publish(HandoffUpdated(handoff));
      }
      response := Accepted;
    }

    method CompleteHandoff(id: Id, actor: Option<string>, uuid: Id, now: nat) returns (response: Response)
      requires Ready(uuid, now)
      modifies this
      ensures Valid() && Did(Request(ResolveHandoff(id), actor, uuid, now), response)
    {
      hide Store.Valid;
      ValidStep(State(), Request(ResolveHandoff(id), actor, uuid, now));
      Enter(uuid, now);
      if deleted || id !in handoffs { return NotFound; }
      var handoff := handoffs[id];
      var core := handoff.body.core;
      if core.status != Resolved {
        core := core.(status := Resolved);
        core := core.(resolvedAt := Some(now));
        core := core.(resolvedBy := actor);
        handoff := WithCore(handoff, core);
        handoffs := handoffs[id := handoff];
        Publish(HandoffUpdated(handoff));
      }
      response := Accepted;
    }

    method RemoveHandoff(id: Id, actor: Option<string>, uuid: Id, now: nat) returns (response: Response)
      requires Ready(uuid, now)
      modifies this
      ensures Valid() && Did(Request(DeleteHandoff(id), actor, uuid, now), response)
    {
      hide Store.Valid;
      ValidStep(State(), Request(DeleteHandoff(id), actor, uuid, now));
      Enter(uuid, now);
      if deleted || id !in handoffs { return NotFound; }
      handoffs := handoffs - {id};
      Publish(HandoffDeleted(id));
      response := Accepted;
    }

    method PostPresence(body: PresenceBody, actor: Option<string>, uuid: Id, now: nat) returns (response: Response)
      requires Ready(uuid, now)
      modifies this
      ensures Valid() && Did(Request(UpdatePresence(body), actor, uuid, now), response)
    {
      hide Store.Valid;
      ValidStep(State(), Request(UpdatePresence(body), actor, uuid, now));
      Enter(uuid, now);
      if deleted { return NotFound; }
      var row := Row(uuid, now, body);
      if body.actorName in presence {
        row := row.(id := presence[body.actorName].id);
      }
      presence := presence[body.actorName := row];
      Publish(PresenceUpdated(row));
      response := Accepted;
    }

    method RemoveWorkspace(actor: Option<string>, uuid: Id, now: nat) returns (response: Response)
      requires Ready(uuid, now)
      modifies this
      ensures Valid() && Did(Request(DeleteWorkspace, actor, uuid, now), response)
    {
      hide Store.Valid;
      ValidStep(State(), Request(DeleteWorkspace, actor, uuid, now));
      Enter(uuid, now);
      if deleted { return NotFound; }
      tasks, decisions, handoffs, presence := map[], map[], map[], map[];
      deleted := true;
      Publish(Event.WorkspaceDeleted);
      response := Accepted;
    }
  }
}
