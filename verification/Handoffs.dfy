/** The handoff lifecycle over whole runs: forward only, timestamps written once,
    and at most two `handoff_updated` events per handoff. */
module Handoffs {
  import opened Common
  import opened Rows
  import opened Store

  function Rank(s: HandoffStatus): nat {
    match s
    case Open => 0
    case Acknowledged => 1
    case Resolved => 2
  }

  /** How many `handoff_updated` events of this id the stream carries. */
  function UpdatesFor(es: seq<Event>, id: Id): nat {
    if es == [] then 0
    else (if es[0].HandoffUpdated? && es[0].handoff.id == id then 1 else 0) + UpdatesFor(es[1..], id)
  }

  lemma {:induction false} UpdatesConcat(a: seq<Event>, b: seq<Event>, id: Id)
    ensures UpdatesFor(a + b, id) == UpdatesFor(a, id) + UpdatesFor(b, id)
  {
    if a == [] {
      assert a + b == b;
    } else {
      assert a + b == [a[0]] + (a[1..] + b);
      UpdatesConcat(a[1..], b, id);
    }
  }

  /** Transitions left: two for a handoff not created yet, none for one that is gone. */
  function Budget(handoffs: map<Id, Handoff>, issued: set<Id>, id: Id): nat {
    if id in handoffs then 2 - Rank(handoffs[id].body.core.status)
    else if id in issued then 0
    else 2
  }

  /** The row moved forward, keeping everything but the columns of the transitions it took. */
  ghost predicate Advances(h: HandoffCore, h': HandoffCore) {
    && Rank(h.status) <= Rank(h'.status)
    && h'.createdBy == h.createdBy && h'.notes == h.notes
    && (h.status != Open ==> h'.acknowledgedAt == h.acknowledgedAt && h'.acknowledgedBy == h.acknowledgedBy)
    && (h.status == Resolved ==> h' == h)
  }

  lemma BudgetStep(s: State, r: Request, id: Id)
    requires Valid(s) && Feasible(s, r)
    ensures var o := Exec(s, r);
            UpdatesFor(o.events, id) + Budget(o.state.handoffs, o.state.issued, id) <= Budget(s.handoffs, s.issued, id)
    ensures id in s.issued && id !in s.handoffs ==> id !in Exec(s, r).state.handoffs
    ensures id in s.handoffs && id in Exec(s, r).state.handoffs ==>
              Advances(s.handoffs[id].body.core, Exec(s, r).state.handoffs[id].body.core)
  {
    HandlersFrame(s, r);
    if !s.deleted && HandoffCommand(r.cmd) {
      Dispatch(s, r);
      hide Exec;
      HandoffCommandBudget(Aged(s, r), r, s.clock, s.issued, id);
    } else {
      OtherCommandBudget(s, r, id);
    }
  }

  lemma HandoffCommandBudget(a: State, r: Request, before: nat, used: set<Id>, id: Id)
    requires HandoffCommand(r.cmd) && Keyed(a.handoffs, before, used) && r.uuid !in used && a.issued == used + {r.uuid}
    ensures var o := ExecHandoff(a, r);
            && UpdatesFor(o.events, id) + Budget(o.state.handoffs, a.issued, id) <= Budget(a.handoffs, used, id)
            && (id in used && id !in a.handoffs ==> id !in o.state.handoffs)
            && (id in a.handoffs && id in o.state.handoffs ==>
                  Advances(a.handoffs[id].body.core, o.state.handoffs[id].body.core))
  {
    hide ExecHandoff, UpdatesFor, Budget, Advances;
    HandoffSpends(a, r, before, used, id);
    HandoffMoves(a, r, before, used, id);
  }

  lemma HandoffSpends(a: State, r: Request, before: nat, used: set<Id>, id: Id)
    requires HandoffCommand(r.cmd) && Keyed(a.handoffs, before, used) && r.uuid !in used && a.issued == used + {r.uuid}
    ensures var o := ExecHandoff(a, r);
            UpdatesFor(o.events, id) + Budget(o.state.handoffs, a.issued, id) <= Budget(a.handoffs, used, id)
  {
    hide UpdatesFor;
    OneUpdate(ExecHandoff(a, r).events, id);
  }

  lemma HandoffMoves(a: State, r: Request, before: nat, used: set<Id>, id: Id)
    requires HandoffCommand(r.cmd) && Keyed(a.handoffs, before, used) && r.uuid !in used
    ensures var o := ExecHandoff(a, r);
            && (id in used && id !in a.handoffs ==> id !in o.state.handoffs)
            && (id in a.handoffs && id in o.state.handoffs ==>
                  Advances(a.handoffs[id].body.core, o.state.handoffs[id].body.core))
  {
  }

  lemma OneUpdate(es: seq<Event>, id: Id)
    requires |es| <= 1
    ensures UpdatesFor(es, id) == if es != [] && es[0].HandoffUpdated? && es[0].handoff.id == id then 1 else 0
  {
    if es != [] { assert es[1..] == []; }
  }

  lemma OtherCommandBudget(s: State, r: Request, id: Id)
    requires Valid(s) && Feasible(s, r) && (s.deleted || !HandoffCommand(r.cmd))
    ensures var o := Exec(s, r);
            && UpdatesFor(o.events, id) == 0
            && Budget(o.state.handoffs, o.state.issued, id) <= Budget(s.handoffs, s.issued, id)
            && (id in o.state.handoffs ==>
                  id in s.handoffs && o.state.handoffs[id].body.core == s.handoffs[id].body.core)
  {
    HandlersFrame(s, r);
    OneUpdate(Exec(s, r).events, id);
  }

  /** Each update event spends a transition: over any run their number is bounded by the
      transitions left, so no handoff is ever updated more than twice. */
  lemma {:induction false} AtMostTwoUpdates(s: State, rs: seq<Request>, id: Id)
    requires Valid(s) && FeasibleRun(s, rs)
    ensures var s' := Run(s, rs);
            UpdatesFor(Log(s, rs), id) + Budget(s'.handoffs, s'.issued, id) <= Budget(s.handoffs, s.issued, id) <= 2
    decreases |rs|
  {
    if rs != [] {
      BudgetStep(s, rs[0], id);
      ValidStep(s, rs[0]);
      hide Exec, Valid;
      var o := Exec(s, rs[0]);
      AtMostTwoUpdates(o.state, rs[1..], id);
      UpdatesConcat(o.events, Log(o.state, rs[1..]), id);
    }
  }

  lemma {:induction false} GoneForGood(s: State, rs: seq<Request>, id: Id)
    requires Valid(s) && FeasibleRun(s, rs) && id in s.issued && id !in s.handoffs
    ensures id !in Run(s, rs).handoffs
    decreases |rs|
  {
    if rs != [] {
      BudgetStep(s, rs[0], id);
      ValidStep(s, rs[0]);
      HandlersFrame(s, rs[0]);
      hide Exec, Valid;
      GoneForGood(Exec(s, rs[0]).state, rs[1..], id);
    }
  }

  /** A handoff that survives a run has only moved forward, and its earlier timestamps are untouched. */
  lemma {:induction false} ForwardOnly(s: State, rs: seq<Request>, id: Id)
    requires Valid(s) && FeasibleRun(s, rs) && id in s.handoffs && id in Run(s, rs).handoffs
    ensures Advances(s.handoffs[id].body.core, Run(s, rs).handoffs[id].body.core)
    decreases |rs|
  {
    if rs != [] {
      BudgetStep(s, rs[0], id);
      ValidStep(s, rs[0]);
      HandlersFrame(s, rs[0]);
      assert id in s.issued;
      hide Exec, Valid;
      var next := Exec(s, rs[0]).state;
      if id !in next.handoffs { GoneForGood(next, rs[1..], id); }
      ForwardOnly(next, rs[1..], id);
    }
  }

  /** The row after the transition into `to` at `now` by `actor`, every other column kept. */
  function Stamped(h: HandoffCore, to: HandoffStatus, actor: Option<string>, now: nat): HandoffCore {
    match to
    case Open => h
    case Acknowledged => h.(status := to, acknowledgedAt := Some(now), acknowledgedBy := actor)
    case Resolved => h.(status := to, resolvedAt := Some(now), resolvedBy := actor)
  }

  /** Whatever the request, a surviving handoff either keeps its row or takes one transition, stamped
      with the time of that request and its caller and nothing else. */
  lemma StampedAtTransition(s: State, r: Request, id: Id)
    requires Valid(s) && Feasible(s, r) && id in s.handoffs && id in Exec(s, r).state.handoffs
    ensures var h, h' := s.handoffs[id].body.core, Exec(s, r).state.handoffs[id].body.core;
            h' == if h'.status == h.status then h else Stamped(h, h'.status, r.actor, r.now)
  {
    HandlersFrame(s, r);
    if !s.deleted && HandoffCommand(r.cmd) {
      Dispatch(s, r);
    } else {
      OtherCommandBudget(s, r, id);
    }
  }
}
