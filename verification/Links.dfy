/** Links under `ON DELETE SET NULL`: clients are never told that a link became null,
    yet a replica row and the task list together determine the server's link. */
module Links {
  import opened Common
  import opened Rows
  import opened Store
  import opened Listing
  import opened Web

  /** The link a reader sees: only a task that still exists counts. */
  function Live(link: Option<Id>, tasks: set<Id>): Option<Id> {
    if link.Some? && link.value in tasks then link else None
  }

  function Refresh<C>(r: Row<Linked<C>>, tasks: set<Id>): Row<Linked<C>> {
    r.(body := r.body.(task := Live(r.body.task, tasks)))
  }

  function RefreshAll<C>(rows: seq<Row<Linked<C>>>, tasks: set<Id>): (out: seq<Row<Linked<C>>>)
    ensures |out| == |rows|
  {
    if rows == [] then [] else [Refresh(rows[0], tasks)] + RefreshAll(rows[1..], tasks)
  }

  lemma {:induction false} RefreshAt<C>(rows: seq<Row<Linked<C>>>, tasks: set<Id>, i: nat)
    requires i < |rows|
    ensures RefreshAll(rows, tasks)[i] == Refresh(rows[i], tasks)
  {
    if i > 0 { RefreshAt(rows[1..], tasks, i - 1); }
  }

  /** The replica row's link, read against the live tasks, is the server's link. */
  ghost predicate LinkAgrees<C>(r: Row<Linked<C>>, t: map<Id, Row<Linked<C>>>, tasks: set<Id>, issued: set<Id>) {
    && r.id in issued
    && (r.body.task.Some? ==> r.body.task.value in issued)
    && (r.id in t ==> t[r.id].body.task == Live(r.body.task, tasks))
  }

  /** What one request may do to links: rows that were there keep their link unless its task goes,
      and no task comes back. */
  ghost predicate LinkStep<C>(t: map<Id, Row<Linked<C>>>, tasks: set<Id>, issued: set<Id>,
                              t': map<Id, Row<Linked<C>>>, tasks': set<Id>) {
    && (forall x | x in t' && x in issued :: x in t && t'[x].body.task == Live(t[x].body.task, tasks'))
    && (forall x | x in tasks' && x in issued :: x in tasks)
  }

  lemma LinkAgreesStep<C>(r: Row<Linked<C>>, t: map<Id, Row<Linked<C>>>, tasks: set<Id>, issued: set<Id>,
                          t': map<Id, Row<Linked<C>>>, tasks': set<Id>, issued': set<Id>)
    requires LinkAgrees(r, t, tasks, issued) && LinkStep(t, tasks, issued, t', tasks') && issued <= issued'
    ensures LinkAgrees(r, t', tasks', issued')
  {
  }

  /** A server row agrees with itself. */
  lemma OwnLink<C>(t: map<Id, Row<Linked<C>>>, x: Id, tasks: set<Id>, clock: nat, issued: set<Id>)
    requires Keyed(t, clock, issued) && LinksLive(t, tasks) && tasks <= issued && x in t
    ensures LinkAgrees(t[x], t, tasks, issued)
  {
  }

  lemma SetNullLinkStep<C>(t: map<Id, Row<Linked<C>>>, task: Id, tasks: set<Id>, issued: set<Id>)
    requires LinksLive(t, tasks)
    ensures LinkStep(t, tasks, issued, SetNull(t, task), tasks - {task})
  {
  }

  lemma SameLinks<C>(t: map<Id, Row<Linked<C>>>, tasks: set<Id>, issued: set<Id>, t': map<Id, Row<Linked<C>>>,
      tasks': set<Id>)
    requires LinksLive(t, tasks) && tasks <= tasks' && (forall x | x in tasks' && x in issued :: x in tasks)
    requires forall x | x in t' && x in issued :: x in t && t'[x].body.task == t[x].body.task
    ensures LinkStep(t, tasks, issued, t', tasks')
  {
  }

  lemma TaskKeys(s: State, r: Request)
    requires Valid(s) && Feasible(s, r) && TaskCommand(r.cmd) && !s.deleted
    requires !r.cmd.DeleteTask? || Exec(s, r).events == []
    ensures s.tasks.Keys <= Exec(s, r).state.tasks.Keys <= s.tasks.Keys + {r.uuid}
  {
    Dispatch(s, r);
  }

  lemma DecisionLinkStep(s: State, r: Request)
    requires Valid(s) && Feasible(s, r) && !Exec(s, r).state.deleted && !s.deleted
    ensures LinkStep(s.decisions, s.tasks.Keys, s.issued, Exec(s, r).state.decisions, Exec(s, r).state.tasks.Keys)
  {
    HandlersFrame(s, r);
    Dispatch(s, r);
    if TaskCommand(r.cmd) {
      if r.cmd.DeleteTask? && Exec(s, r).events != [] {
        SetNullLinkStep(s.decisions, r.cmd.task, s.tasks.Keys, s.issued);
        assert (s.tasks - {r.cmd.task}).Keys == s.tasks.Keys - {r.cmd.task};
        return;
      }
      TaskKeys(s, r);
    }
    hide Exec;
    SameLinks(s.decisions, s.tasks.Keys, s.issued, Exec(s, r).state.decisions, Exec(s, r).state.tasks.Keys);
  }

  lemma HandoffLinkStep(s: State, r: Request)
    requires Valid(s) && Feasible(s, r) && !Exec(s, r).state.deleted && !s.deleted
    ensures LinkStep(s.handoffs, s.tasks.Keys, s.issued, Exec(s, r).state.handoffs, Exec(s, r).state.tasks.Keys)
  {
    HandlersFrame(s, r);
    Dispatch(s, r);
    if TaskCommand(r.cmd) {
      if r.cmd.DeleteTask? && Exec(s, r).events != [] {
        SetNullLinkStep(s.handoffs, r.cmd.task, s.tasks.Keys, s.issued);
        assert (s.tasks - {r.cmd.task}).Keys == s.tasks.Keys - {r.cmd.task};
        return;
      }
      TaskKeys(s, r);
    }
    hide Exec;
    SameLinks(s.handoffs, s.tasks.Keys, s.issued, Exec(s, r).state.handoffs, Exec(s, r).state.tasks.Keys);
  }

  // -------------------------------------------------------------------------
  // Replica rows over whole runs
  // -------------------------------------------------------------------------

  /** Every replica row is a row of the snapshot still to come, or already agrees. */
  ghost predicate RowsAgree<C>(list: seq<Row<Linked<C>>>, snap: map<Id, Row<Linked<C>>>,
                               t: map<Id, Row<Linked<C>>>, tasks: set<Id>, issued: set<Id>) {
    forall r | r in list :: (r.id in snap && snap[r.id] == r) || LinkAgrees(r, t, tasks, issued)
  }

  lemma RowsAgreeStep<C>(list: seq<Row<Linked<C>>>, list': seq<Row<Linked<C>>>, snap: map<Id, Row<Linked<C>>>,
                         t: map<Id, Row<Linked<C>>>, tasks: set<Id>, issued: set<Id>,
                         t': map<Id, Row<Linked<C>>>, tasks': set<Id>, issued': set<Id>)
    requires RowsAgree(list, snap, t, tasks, issued) && LinkStep(t, tasks, issued, t', tasks') && issued <= issued'
    requires forall r | r in list' :: r in list || LinkAgrees(r, t', tasks', issued')
    ensures RowsAgree(list', snap, t', tasks', issued')
  {
    forall r | r in list' ensures (r.id in snap && snap[r.id] == r) || LinkAgrees(r, t', tasks', issued') {
      if r in list && LinkAgrees(r, t, tasks, issued) {
        LinkAgreesStep(r, t, tasks, issued, t', tasks', issued');
      }
    }
  }

  /** A decision of the replica after an event is an old one or the one just published. */
  lemma DecisionFrom(w: Lists, e: Event, d: Decision)
    requires d in ApplyEvent(w, e).decisions
    ensures d in w.decisions || (e.DecisionCreated? && d == e.decision)
  {
    if e.DecisionCreated? { WithoutHas(w.decisions, e.decision.id, d); }
    if e.DecisionDeleted? { WithoutHas(w.decisions, e.id, d); }
  }

  lemma HandoffFrom(w: Lists, e: Event, h: Handoff)
    requires h in ApplyEvent(w, e).handoffs
    ensures h in w.handoffs || ((e.HandoffCreated? || e.HandoffUpdated?) && h == e.handoff)
  {
    if e.HandoffCreated? { WithoutHas(w.handoffs, e.handoff.id, h); }
    if e.HandoffUpdated? { UpsertFrom(w.handoffs, e.handoff, h); }
    if e.HandoffDeleted? { WithoutHas(w.handoffs, e.id, h); }
  }

  /** A published row is the committed row. */
  lemma PublishedIsCommitted(s: State, r: Request)
    requires Valid(s) && !s.deleted
    ensures forall e | e in Exec(s, r).events && e.DecisionCreated? ::
              DecisionCommand(r.cmd) && e.decision.id in Exec(s, r).state.decisions
              && Exec(s, r).state.decisions[e.decision.id] == e.decision
    ensures forall e | e in Exec(s, r).events && (e.HandoffCreated? || e.HandoffUpdated?) ::
              HandoffCommand(r.cmd) && e.handoff.id in Exec(s, r).state.handoffs
              && Exec(s, r).state.handoffs[e.handoff.id] == e.handoff
  {
    Dispatch(s, r);
    HandlersFrame(s, r);
  }

  lemma TasksIssued(s: State)
    requires Valid(s)
    ensures s.tasks.Keys <= s.issued
  {
  }

  lemma DecisionRowsStep(w: Lists, s: State, r: Request, snap: map<Id, Decision>)
    requires Valid(s) && Feasible(s, r) && !Exec(s, r).state.deleted && !s.deleted
    requires RowsAgree(w.decisions, snap, s.decisions, s.tasks.Keys, s.issued)
    ensures var o := Exec(s, r);
            RowsAgree(ApplyAll(w, o.events).decisions, snap, o.state.decisions, o.state.tasks.Keys, o.state.issued)
  {
    HandlersFrame(s, r);
    DecisionLinkStep(s, r);
    hide Exec;
    hide Valid;
    var o := Exec(s, r);
    forall d | d in ApplyAll(w, o.events).decisions
      ensures d in w.decisions || LinkAgrees(d, o.state.decisions, o.state.tasks.Keys, o.state.issued)
    {
      NewDecisionAgrees(w, s, r, d);
    }
    RowsAgreeStep(w.decisions, ApplyAll(w, o.events).decisions, snap, s.decisions, s.tasks.Keys, s.issued,
                  o.state.decisions, o.state.tasks.Keys, o.state.issued);
  }

  lemma NewDecisionAgrees(w: Lists, s: State, r: Request, d: Decision)
    requires Valid(s) && Feasible(s, r) && !s.deleted && d in ApplyAll(w, Exec(s, r).events).decisions
    ensures var s' := Exec(s, r).state;
            d in w.decisions || LinkAgrees(d, s'.decisions, s'.tasks.Keys, s'.issued)
  {
    ValidStep(s, r);
    HandlersFrame(s, r);
    PublishedIsCommitted(s, r);
    hide Exec;
    var o := Exec(s, r);
    ApplyOne(w, o.events);
    if o.events != [] {
      DecisionFrom(w, o.events[0], d);
      if d !in w.decisions {
        assert o.events[0] in o.events;
        TasksIssued(o.state);
        OwnLink(o.state.decisions, d.id, o.state.tasks.Keys, o.state.clock, o.state.issued);
      }
    }
  }

  lemma HandoffRowsStep(w: Lists, s: State, r: Request, snap: map<Id, Handoff>)
    requires Valid(s) && Feasible(s, r) && !Exec(s, r).state.deleted && !s.deleted
    requires RowsAgree(w.handoffs, snap, s.handoffs, s.tasks.Keys, s.issued)
    ensures var o := Exec(s, r);
            RowsAgree(ApplyAll(w, o.events).handoffs, snap, o.state.handoffs, o.state.tasks.Keys, o.state.issued)
  {
    HandlersFrame(s, r);
    HandoffLinkStep(s, r);
    hide Exec;
    hide Valid;
    var o := Exec(s, r);
    forall h | h in ApplyAll(w, o.events).handoffs
      ensures h in w.handoffs || LinkAgrees(h, o.state.handoffs, o.state.tasks.Keys, o.state.issued)
    {
      NewHandoffAgrees(w, s, r, h);
    }
    RowsAgreeStep(w.handoffs, ApplyAll(w, o.events).handoffs, snap, s.handoffs, s.tasks.Keys, s.issued,
                  o.state.handoffs, o.state.tasks.Keys, o.state.issued);
  }

  lemma NewHandoffAgrees(w: Lists, s: State, r: Request, h: Handoff)
    requires Valid(s) && Feasible(s, r) && !s.deleted && h in ApplyAll(w, Exec(s, r).events).handoffs
    ensures var s' := Exec(s, r).state;
            h in w.handoffs || LinkAgrees(h, s'.handoffs, s'.tasks.Keys, s'.issued)
  {
    ValidStep(s, r);
    HandlersFrame(s, r);
    PublishedIsCommitted(s, r);
    hide Exec;
    var o := Exec(s, r);
    ApplyOne(w, o.events);
    if o.events != [] {
      HandoffFrom(w, o.events[0], h);
      if h !in w.handoffs {
        assert o.events[0] in o.events;
        TasksIssued(o.state);
        OwnLink(o.state.handoffs, h.id, o.state.tasks.Keys, o.state.clock, o.state.issued);
      }
    }
  }

  lemma {:induction false} DecisionRowsRun(w: Lists, s: State, rs: seq<Request>, snap: map<Id, Decision>)
    requires Valid(s) && FeasibleRun(s, rs) && !Run(s, rs).deleted
    requires RowsAgree(w.decisions, snap, s.decisions, s.tasks.Keys, s.issued)
    ensures var s' := Run(s, rs);
            RowsAgree(ApplyAll(w, Log(s, rs)).decisions, snap, s'.decisions, s'.tasks.Keys, s'.issued)
    decreases |rs|
  {
    if rs != [] {
      AliveStep(s, rs);
      ValidStep(s, rs[0]);
      DecisionRowsStep(w, s, rs[0], snap);
      hide Exec;
      var o := Exec(s, rs[0]);
      ApplyConcat(w, o.events, Log(o.state, rs[1..]));
      DecisionRowsRun(ApplyAll(w, o.events), o.state, rs[1..], snap);
    }
  }

  lemma {:induction false} HandoffRowsRun(w: Lists, s: State, rs: seq<Request>, snap: map<Id, Handoff>)
    requires Valid(s) && FeasibleRun(s, rs) && !Run(s, rs).deleted
    requires RowsAgree(w.handoffs, snap, s.handoffs, s.tasks.Keys, s.issued)
    ensures var s' := Run(s, rs);
            RowsAgree(ApplyAll(w, Log(s, rs)).handoffs, snap, s'.handoffs, s'.tasks.Keys, s'.issued)
    decreases |rs|
  {
    if rs != [] {
      AliveStep(s, rs);
      ValidStep(s, rs[0]);
      HandoffRowsStep(w, s, rs[0], snap);
      hide Exec;
      var o := Exec(s, rs[0]);
      ApplyConcat(w, o.events, Log(o.state, rs[1..]));
      HandoffRowsRun(ApplyAll(w, o.events), o.state, rs[1..], snap);
    }
  }
}
