/** Optimistic placeholders of the create forms. */
module Optimistic {
  import opened Common
  import opened Rows
  import opened Store
  import opened Web

  /** The three lists a create form can add a placeholder to. */
  datatype Section = TaskSection | DecisionSection | HandoffSection

  datatype Placeholder = NewTask(task: Task) | NewDecision(decision: Decision) | NewHandoff(handoff: Handoff)

  function TempId(p: Placeholder): Id {
    match p
    case NewTask(t) => t.id
    case NewDecision(d) => d.id
    case NewHandoff(h) => h.id
  }

  function SectionOf(p: Placeholder): Section {
    match p
    case NewTask(_) => TaskSection
    case NewDecision(_) => DecisionSection
    case NewHandoff(_) => HandoffSection
  }

  /** `addOptimistic`: tasks go to the end, decisions and handoffs to the front. */
  function Add(w: Lists, p: Placeholder): Lists {
    match p
    case NewTask(t) => w.(tasks := w.tasks + [t])
    case NewDecision(d) => w.(decisions := [d] + w.decisions)
    case NewHandoff(h) => w.(handoffs := [h] + w.handoffs)
  }

  /** `rollback`: filter the temporary id out of the section's list. */
  function Rollback(w: Lists, section: Section, id: Id): Lists {
    match section
    case TaskSection => w.(tasks := Without(w.tasks, id))
    case DecisionSection => w.(decisions := Without(w.decisions, id))
    case HandoffSection => w.(handoffs := Without(w.handoffs, id))
  }

  predicate Mentions(e: Event, id: Id) {
    match e
    case TaskCreated(t) => t.id == id
    case TaskUpdated(t) => t.id == id
    case TaskDeleted(x) => x == id
    case DecisionCreated(d) => d.id == id
    case DecisionDeleted(x) => x == id
    case HandoffCreated(h) => h.id == id
    case HandoffUpdated(h) => h.id == id
    case HandoffDeleted(x) => x == id
    case PresenceUpdated(_) => false
    case WorkspaceDeleted => false
  }

  lemma {:induction false} WithoutUpsert<B>(rows: seq<Row<B>>, row: Row<B>, id: Id)
    requires row.id != id
    ensures Without(Upsert(rows, row), id) == Upsert(Without(rows, id), row)
  {
    if rows == [] {
      assert [row][1..] == [];
    } else {
      var h, t := rows[0], rows[1..];
      assert rows == [h] + t;
      UpsertHead(h, t, row);
      WithoutHead(h, t, id);
      if h.id == row.id {
        UpsertHead(h, Without(t, id), row);
        WithoutHead(row, t, id);
      } else {
        WithoutUpsert(t, row, id);
        WithoutHead(h, Upsert(t, row), id);
        if h.id != id { UpsertHead(h, Without(t, id), row); }
      }
    }
  }

  lemma WithoutHead<B>(h: Row<B>, t: seq<Row<B>>, id: Id)
    ensures Without([h] + t, id) == if h.id == id then Without(t, id) else [h] + Without(t, id)
  {
    assert ([h] + t)[1..] == t;
  }

  lemma {:induction false} WithoutTwice<B>(rows: seq<Row<B>>, x: Id, y: Id)
    ensures Without(Without(rows, x), y) == Without(Without(rows, y), x)
  {
    if rows != [] {
      var h, t := rows[0], rows[1..];
      assert rows == [h] + t;
      WithoutTwice(t, x, y);
      WithoutHead(h, t, x);
      WithoutHead(h, t, y);
      if h.id != x { WithoutHead(h, Without(t, x), y); }
      if h.id != y { WithoutHead(h, Without(t, y), x); }
    }
  }

  lemma WithoutToFront<B>(rows: seq<Row<B>>, row: Row<B>, id: Id)
    requires row.id != id
    ensures Without(ToFront(rows, row), id) == ToFront(Without(rows, id), row)
  {
    WithoutHead(row, Without(rows, row.id), id);
    WithoutTwice(rows, row.id, id);
  }

  /** Filtering an id out commutes with every event that does not mention it. */
  lemma RollbackCommutes(w: Lists, e: Event, section: Section, id: Id)
    requires !Mentions(e, id)
    ensures Rollback(ApplyEvent(w, e), section, id) == ApplyEvent(Rollback(w, section, id), e)
  {
    match e
    case TaskCreated(row) => WithoutUpsert(w.tasks, row, id);
    case TaskUpdated(row) => WithoutUpsert(w.tasks, row, id);
    case TaskDeleted(x) => WithoutTwice(w.tasks, x, id);
    case DecisionCreated(row) => WithoutToFront(w.decisions, row, id);
    case DecisionDeleted(x) => WithoutTwice(w.decisions, x, id);
    case HandoffCreated(row) => WithoutToFront(w.handoffs, row, id);
    case HandoffUpdated(row) => WithoutUpsert(w.handoffs, row, id);
    case HandoffDeleted(x) => WithoutTwice(w.handoffs, x, id);
    case PresenceUpdated(_) =>
    case WorkspaceDeleted =>
  }

  lemma {:induction false} RollbackCommutesAll(w: Lists, es: seq<Event>, section: Section, id: Id)
    requires forall e | e in es :: !Mentions(e, id)
    ensures Rollback(ApplyAll(w, es), section, id) == ApplyAll(Rollback(w, section, id), es)
    decreases |es|
  {
    if es != [] {
      assert es[0] in es && forall e | e in es[1..] :: e in es;
      RollbackCommutes(w, es[0], section, id);
      RollbackCommutesAll(ApplyEvent(w, es[0]), es[1..], section, id);
    }
  }

  /** A new task is shown last, a new decision or handoff first; nothing else moves. */
  lemma WhereAdded(w: Lists, p: Placeholder)
    ensures var w' := Add(w, p);
            match p
            case NewTask(t) =>
              && |w'.tasks| == |w.tasks| + 1 && w'.tasks[|w.tasks|] == t && w'.tasks[..|w.tasks|] == w.tasks
              && w' == w.(tasks := w'.tasks)
            case NewDecision(d) =>
              && |w'.decisions| == |w.decisions| + 1 && w'.decisions[0] == d && w'.decisions[1..] == w.decisions
              && w' == w.(decisions := w'.decisions)
            case NewHandoff(h) =>
              && |w'.handoffs| == |w.handoffs| + 1 && w'.handoffs[0] == h && w'.handoffs[1..] == w.handoffs
              && w' == w.(handoffs := w'.handoffs)
  {
  }

  /** A rollback takes the id out of the list of its section only. */
  lemma RolledBack(w: Lists, section: Section, id: Id)
    ensures var w' := Rollback(w, section, id);
            && w' == w.(tasks := w'.tasks, decisions := w'.decisions, handoffs := w'.handoffs)
            && (section != TaskSection ==> w'.tasks == w.tasks)
            && (section != DecisionSection ==> w'.decisions == w.decisions)
            && (section != HandoffSection ==> w'.handoffs == w.handoffs)
            && (section == TaskSection ==> forall t :: t in w'.tasks <==> t in w.tasks && t.id != id)
            && (section == DecisionSection ==> forall d :: d in w'.decisions <==> d in w.decisions && d.id != id)
            && (section == HandoffSection ==> forall h :: h in w'.handoffs <==> h in w.handoffs && h.id != id)
  {
    forall t ensures t in Without(w.tasks, id) <==> t in w.tasks && t.id != id { WithoutHas(w.tasks, id, t); }
    forall d ensures d in Without(w.decisions, id) <==> d in w.decisions && d.id != id {
      WithoutHas(w.decisions, id, d);
    }
    forall h ensures h in Without(w.handoffs, id) <==> h in w.handoffs && h.id != id {
      WithoutHas(w.handoffs, id, h);
    }
  }

  lemma AddThenRollback(w: Lists, p: Placeholder)
    requires TempId(p) !in Ids(w.tasks) && TempId(p) !in Ids(w.decisions) && TempId(p) !in Ids(w.handoffs)
    ensures Rollback(Add(w, p), SectionOf(p), TempId(p)) == w
  {
    match p
    case NewTask(t) =>
      WithoutConcat(w.tasks, [t], t.id);
      WithoutAbsent(w.tasks, t.id);
      assert [t][1..] == [];
    case NewDecision(d) =>
      WithoutHead(d, w.decisions, d.id);
      WithoutAbsent(w.decisions, d.id);
    case NewHandoff(h) =>
      WithoutHead(h, w.handoffs, h.id);
      WithoutAbsent(w.handoffs, h.id);
  }

  /** A placeholder added before and rolled back after any events that do not mention it leaves no trace. */
  lemma PlaceholderInvisible(w: Lists, p: Placeholder, es: seq<Event>)
    requires TempId(p) !in Ids(w.tasks) && TempId(p) !in Ids(w.decisions) && TempId(p) !in Ids(w.handoffs)
    requires forall e | e in es :: !Mentions(e, TempId(p))
    ensures Rollback(ApplyAll(Add(w, p), es), SectionOf(p), TempId(p)) == ApplyAll(w, es)
  {
    RollbackCommutesAll(Add(w, p), es, SectionOf(p), TempId(p));
    AddThenRollback(w, p);
  }
}
