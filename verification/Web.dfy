/** The web dashboard's event handler, and the per-table change streams it sees. */
module Web {
  import opened Common
  import opened Rows
  import opened Store
  import opened Feed
  import opened Listing

  /** The row lists the dashboard renders. */
  datatype Lists = Lists(tasks: seq<Task>, decisions: seq<Decision>, handoffs: seq<Handoff>, presence: seq<Presence>)

  function ApplyEvent(w: Lists, e: Event): Lists {
    match e
    case TaskCreated(row) => w.(tasks := Upsert(w.tasks, row))
    case TaskUpdated(row) => w.(tasks := Upsert(w.tasks, row))
    case TaskDeleted(id) => w.(tasks := Without(w.tasks, id))
    case DecisionCreated(row) => w.(decisions := ToFront(w.decisions, row))
    case DecisionDeleted(id) => w.(decisions := Without(w.decisions, id))
    case HandoffCreated(row) => w.(handoffs := ToFront(w.handoffs, row))
    case HandoffUpdated(row) => w.(handoffs := Upsert(w.handoffs, row))
    case HandoffDeleted(id) => w.(handoffs := Without(w.handoffs, id))
    case PresenceUpdated(row) => w.(presence := Upsert(w.presence, row))
    case WorkspaceDeleted => w  // the handler shows an error and never reaches applyEvent
  }

  function ApplyAll(w: Lists, es: seq<Event>): Lists
    decreases |es|
  {
    if es == [] then w else ApplyAll(ApplyEvent(w, es[0]), es[1..])
  }

  lemma ApplyOne(w: Lists, es: seq<Event>)
    requires |es| <= 1
    ensures ApplyAll(w, es) == if es == [] then w else ApplyEvent(w, es[0])
  {
    if es != [] { assert es[1..] == []; }
  }

  lemma {:induction false} ApplyConcat(w: Lists, a: seq<Event>, b: seq<Event>)
    ensures ApplyAll(w, a + b) == ApplyAll(ApplyAll(w, a), b)
    decreases |a|
  {
    if a == [] {
      assert a + b == b;
    } else {
      assert a + b == [a[0]] + (a[1..] + b);
      ApplyConcat(ApplyEvent(w, a[0]), a[1..], b);
    }
  }

  // -------------------------------------------------------------------------
  // The changes an event makes to each table (links left out)
  // -------------------------------------------------------------------------

  function TaskChanges(e: Event): seq<Change<TaskBody>> {
    match e
    case TaskCreated(row) => [Insert(row)]
    case TaskUpdated(row) => [Update(row)]
    case TaskDeleted(id) => [Remove(id)]
    case _ => []
  }

  function DecisionChanges(e: Event): seq<Change<DecisionCore>> {
    match e
    case DecisionCreated(row) => [Insert(Unlink(row))]
    case DecisionDeleted(id) => [Remove(id)]
    case _ => []
  }

  function HandoffChanges(e: Event): seq<Change<HandoffCore>> {
    match e
    case HandoffCreated(row) => [Insert(Unlink(row))]
    case HandoffUpdated(row) => [Update(Unlink(row))]
    case HandoffDeleted(id) => [Remove(id)]
    case _ => []
  }

  function TaskFeed(es: seq<Event>): seq<Change<TaskBody>> {
    if es == [] then [] else TaskChanges(es[0]) + TaskFeed(es[1..])
  }

  function DecisionFeed(es: seq<Event>): seq<Change<DecisionCore>> {
    if es == [] then [] else DecisionChanges(es[0]) + DecisionFeed(es[1..])
  }

  function HandoffFeed(es: seq<Event>): seq<Change<HandoffCore>> {
    if es == [] then [] else HandoffChanges(es[0]) + HandoffFeed(es[1..])
  }

  lemma {:induction false} TaskFeedConcat(a: seq<Event>, b: seq<Event>)
    ensures TaskFeed(a + b) == TaskFeed(a) + TaskFeed(b)
  {
    if a == [] {
      assert a + b == b;
    } else {
      assert a + b == [a[0]] + (a[1..] + b);
      TaskFeedConcat(a[1..], b);
    }
  }

  lemma {:induction false} DecisionFeedConcat(a: seq<Event>, b: seq<Event>)
    ensures DecisionFeed(a + b) == DecisionFeed(a) + DecisionFeed(b)
  {
    if a == [] {
      assert a + b == b;
    } else {
      assert a + b == [a[0]] + (a[1..] + b);
      DecisionFeedConcat(a[1..], b);
    }
  }

  lemma {:induction false} HandoffFeedConcat(a: seq<Event>, b: seq<Event>)
    ensures HandoffFeed(a + b) == HandoffFeed(a) + HandoffFeed(b)
  {
    if a == [] {
      assert a + b == b;
    } else {
      assert a + b == [a[0]] + (a[1..] + b);
      HandoffFeedConcat(a[1..], b);
    }
  }

  lemma {:induction false} DecisionsNeverUpdate(es: seq<Event>)
    ensures NoUpdates(DecisionFeed(es))
  {
    if es != [] {
      DecisionsNeverUpdate(es[1..]);
    }
  }

  lemma One<B>(d: Discipline, list: seq<Row<B>>, c: Change<B>)
    ensures ClientRun(d, list, [c]) == ClientStep(d, list, c)
  {
    assert [c][1..] == [];
  }

  /** The dashboard's task list is the end-discipline client of the task changes. */
  lemma {:induction false} TasksFollowFeed(w: Lists, es: seq<Event>)
    ensures ApplyAll(w, es).tasks == ClientRun(AtEnd, w.tasks, TaskFeed(es))
    decreases |es|
  {
    if es != [] {
      TasksFollowFeed(ApplyEvent(w, es[0]), es[1..]);
      ClientConcat(AtEnd, w.tasks, TaskChanges(es[0]), TaskFeed(es[1..]));
      if TaskChanges(es[0]) != [] { One(AtEnd, w.tasks, TaskChanges(es[0])[0]); }
    }
  }

  /** Up to the link column, the decision list is the front-discipline client of the decision changes. */
  lemma {:induction false} DecisionsFollowFeed(w: Lists, es: seq<Event>)
    ensures UnlinkAll(ApplyAll(w, es).decisions) == ClientRun(AtFront, UnlinkAll(w.decisions), DecisionFeed(es))
    decreases |es|
  {
    if es != [] {
      var list := w.decisions;
      DecisionsFollowFeed(ApplyEvent(w, es[0]), es[1..]);
      ClientConcat(AtFront, UnlinkAll(list), DecisionChanges(es[0]), DecisionFeed(es[1..]));
      if DecisionChanges(es[0]) != [] { One(AtFront, UnlinkAll(list), DecisionChanges(es[0])[0]); }
      match es[0] {
        case DecisionCreated(row) =>
          UnlinkWithout(list, row.id);
          UnlinkConcat([row], Without(list, row.id));
        case DecisionDeleted(id) => UnlinkWithout(list, id);
        case _ =>
      }
    }
  }

  /** Up to the link column, the handoff list is the front-discipline client of the handoff changes. */
  lemma {:induction false} HandoffsFollowFeed(w: Lists, es: seq<Event>)
    ensures UnlinkAll(ApplyAll(w, es).handoffs) == ClientRun(AtFront, UnlinkAll(w.handoffs), HandoffFeed(es))
    decreases |es|
  {
    if es != [] {
      var list := w.handoffs;
      HandoffsFollowFeed(ApplyEvent(w, es[0]), es[1..]);
      ClientConcat(AtFront, UnlinkAll(list), HandoffChanges(es[0]), HandoffFeed(es[1..]));
      if HandoffChanges(es[0]) != [] { One(AtFront, UnlinkAll(list), HandoffChanges(es[0])[0]); }
      match es[0] {
        case HandoffCreated(row) =>
          UnlinkWithout(list, row.id);
          UnlinkConcat([row], Without(list, row.id));
        case HandoffUpdated(row) => UnlinkUpsert(list, row);
        case HandoffDeleted(id) => UnlinkWithout(list, id);
        case _ =>
      }
    }
  }
}
