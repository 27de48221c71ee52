/** The two editor panels, and their agreement with the dashboard on every server-generated stream. */
module Clients {
  import opened Common
  import opened Rows
  import opened Feed
  import opened Store
  import opened Listing
  import opened Web

  /** What all three clients show. */
  datatype Panel = Panel(tasks: seq<Task>, decisions: seq<Decision>, presence: seq<Presence>)

  function PanelOf(w: Lists): Panel {
    Panel(w.tasks, w.decisions, w.presence)
  }

  // -------------------------------------------------------------------------
  // VS Code: presence is matched by actor name
  // -------------------------------------------------------------------------

  function FindActor(rows: seq<Presence>, name: string): (k: int)
    ensures k == -1 ==> forall r | r in rows :: r.body.actorName != name
    ensures k != -1 ==> 0 <= k < |rows| && rows[k].body.actorName == name
                        && forall r | r in rows[..k] :: r.body.actorName != name
  {
    if rows == [] then -1
    else if rows[0].body.actorName == name then 0
    else
      var k := FindActor(rows[1..], name);
      assert rows == [rows[0]] + rows[1..];
      if k == -1 then -1
      else
        assert rows[..k + 1] == [rows[0]] + rows[1..][..k];
        k + 1
  }

  function UpsertActor(rows: seq<Presence>, row: Presence): seq<Presence> {
    var k := FindActor(rows, row.body.actorName);
    if k == -1 then rows + [row] else rows[k := row]
  }

  function VsApply(p: Panel, e: Event): Panel {
    match e
    case TaskCreated(row) => p.(tasks := Upsert(p.tasks, row))
    case TaskUpdated(row) => p.(tasks := Upsert(p.tasks, row))
    case TaskDeleted(id) => p.(tasks := Without(p.tasks, id))
    case DecisionCreated(row) => p.(decisions := ToFront(p.decisions, row))
    case DecisionDeleted(id) => p.(decisions := Without(p.decisions, id))
    case PresenceUpdated(row) => p.(presence := UpsertActor(p.presence, row))
    case WorkspaceDeleted => Panel([], [], [])
    case _ => p
  }

  function VsApplyAll(p: Panel, es: seq<Event>): Panel
    decreases |es|
  {
    if es == [] then p else VsApplyAll(VsApply(p, es[0]), es[1..])
  }

  /** A snapshot as the bridge sends it: any part may be missing, the summary too, and with it the slug. */
  datatype Snapshot = Snapshot(
    summary: Option<Digest>, tasks: Option<seq<Task>>, decisions: Option<seq<Decision>>,
        presence: Option<seq<Presence>>)

  /** The summary as the clients keep it: whose it is, and the rest of it unread. */
  datatype Digest = Digest(slug: string, text: string)

  /** The three lists of a snapshot, empty where missing. */
  function PanelIn(snap: Snapshot): Panel {
    Panel(Given(snap.tasks, []), Given(snap.decisions, []), Given(snap.presence, []))
  }

  class WorkspaceState {
    var summary: Option<Digest>
    var slug: string
    var tasks: seq<Task>
    var decisions: seq<Decision>
    var presence: seq<Presence>
    var connected: bool
    var lastError: Option<string>

    constructor ()
      ensures State() == Panel([], [], []) && summary == None && slug == "" && !connected && lastError == None
    {
      tasks, decisions, presence := [], [], [];
      summary, slug, connected, lastError := None, "", false, None;
    }

    function State(): Panel
      reads this
    {
      Panel(tasks, decisions, presence)
    }

    /** The slug is the summary's, else the one passed along, else the one already known. */
    method ApplySnapshot(snap: Snapshot, known: Option<string>)
      modifies this
      ensures State() == PanelIn(snap) && summary == snap.summary && connected && lastError == None
      ensures tasks == (if snap.tasks.Some? then snap.tasks.value else [])
      ensures decisions == (if snap.decisions.Some? then snap.decisions.value else [])
      ensures presence == (if snap.presence.Some? then snap.presence.value else [])
      ensures slug == if snap.summary.Some? then snap.summary.value.slug
          else if known.Some? then known.value else old(slug)
    {
      summary := snap.summary;
      if snap.summary.Some? {
        slug := snap.summary.value.slug;
      } else if known.Some? {
        slug := known.value;
      }
      tasks := Given(snap.tasks, []);
      decisions := Given(snap.decisions, []);
      presence := Given(snap.presence, []);
      connected := true;
      lastError := None;
    }

    method Clear()
      modifies this`summary, this`tasks, this`decisions, this`presence
      ensures State() == Panel([], [], []) && summary == None
    {
      summary := None;
      tasks := [];
      decisions := [];
      presence := [];
    }

    method ApplyEvent(e: Event)
      modifies this
      ensures State() == VsApply(old(State()), e)
      ensures slug == old(slug)
      ensures e.WorkspaceDeleted? ==> !connected && lastError.Some? && summary == None
      ensures !e.WorkspaceDeleted? ==>
                connected == old(connected) && lastError == old(lastError) && summary == old(summary)
    {
      match e
      case TaskCreated(t) => tasks := Upsert(tasks, t);
      case TaskUpdated(t) => tasks := Upsert(tasks, t);
      case TaskDeleted(id) => tasks := Without(tasks, id);
      case DecisionCreated(d) => decisions := [d] + Without(decisions, d.id);
      case DecisionDeleted(id) => decisions := Without(decisions, id);
      case PresenceUpdated(p) => presence := UpsertActor(presence, p);
      case WorkspaceDeleted =>
        Clear();
        lastError := Some("Workspace was deleted.");
        connected := false;
      case HandoffCreated(_) =>
      case HandoffUpdated(_) =>
      case HandoffDeleted(_) =>
    }
  }

  // -------------------------------------------------------------------------
  // JetBrains: every match is replaced
  // -------------------------------------------------------------------------

  function ReplaceMatches<B>(rows: seq<Row<B>>, row: Row<B>): seq<Row<B>> {
    if rows == [] then []
    else [if rows[0].id == row.id then row else rows[0]] + ReplaceMatches(rows[1..], row)
  }

  function ReplaceAll<B>(rows: seq<Row<B>>, row: Row<B>): seq<Row<B>> {
    ReplaceMatches(rows, row) + (if row.id in Ids(rows) then [] else [row])
  }

  lemma {:induction false} ReplaceConcat<B>(a: seq<Row<B>>, b: seq<Row<B>>, row: Row<B>)
    ensures ReplaceMatches(a + b, row) == ReplaceMatches(a, row) + ReplaceMatches(b, row)
  {
    if a == [] {
      assert a + b == b;
    } else {
      assert a + b == [a[0]] + (a[1..] + b);
      ReplaceConcat(a[1..], b, row);
    }
  }

  function JbApply(p: Panel, e: Event): Panel {
    match e
    case TaskCreated(row) => p.(tasks := ReplaceAll(p.tasks, row))
    case TaskUpdated(row) => p.(tasks := ReplaceAll(p.tasks, row))
    case TaskDeleted(id) => p.(tasks := Without(p.tasks, id))
    case DecisionCreated(row) => p.(decisions := ToFront(p.decisions, row))
    case DecisionDeleted(id) => p.(decisions := Without(p.decisions, id))
    case PresenceUpdated(row) => p.(presence := ReplaceAll(p.presence, row))
    case _ => p
  }

  function JbApplyAll(p: Panel, es: seq<Event>): Panel
    decreases |es|
  {
    if es == [] then p else JbApplyAll(JbApply(p, es[0]), es[1..])
  }

  class HubPanel {
    var tasks: seq<Task>
    var decisions: seq<Decision>
    var presence: seq<Presence>

    constructor ()
      ensures State() == Panel([], [], [])
    {
      tasks, decisions, presence := [], [], [];
    }

    function State(): Panel
      reads this
    {
      Panel(tasks, decisions, presence)
    }

    method ApplySnapshot(snap: Option<Snapshot>)
      modifies this
      ensures State() == if snap.None? then old(State()) else PanelIn(snap.value)
      ensures snap.Some? ==>
                && tasks == (if snap.value.tasks.Some? then snap.value.tasks.value else [])
                && decisions == (if snap.value.decisions.Some? then snap.value.decisions.value else [])
                && presence == (if snap.value.presence.Some? then snap.value.presence.value else [])
    {
      if snap.None? { return; }
      tasks := Given(snap.value.tasks, []);
      decisions := Given(snap.value.decisions, []);
      presence := Given(snap.value.presence, []);
    }

    /** The loop with the `replaced` flag: every match is overwritten, and the item is appended
        only when there was none. */
    static method UpsertBy<B>(list: seq<Row<B>>, item: Row<B>) returns (next: seq<Row<B>>)
      ensures next == ReplaceAll(list, item)
    {
      next := [];
      var replaced := false;
      for i := 0 to |list|
        invariant next == ReplaceMatches(list[..i], item)
        invariant replaced <==> item.id in Ids(list[..i])
      {
        assert list[..i + 1] == list[..i] + [list[i]];
        ReplaceConcat(list[..i], [list[i]], item);
        IdsConcat(list[..i], [list[i]]);
        assert ReplaceMatches([list[i]], item) == [if list[i].id == item.id then item else list[i]];
        if list[i].id == item.id {
          next := next + [item];
          replaced := true;
        } else {
          next := next + [list[i]];
        }
      }
      assert list[..|list|] == list;
      if !replaced {
        next := next + [item];
      }
    }

    method ApplyEvent(e: Event)
      modifies this
      ensures State() == JbApply(old(State()), e)
    {
      match e
      case TaskCreated(t) => tasks := UpsertBy(tasks, t);
      case TaskUpdated(t) => tasks := UpsertBy(tasks, t);
      case TaskDeleted(id) => tasks := Without(tasks, id);
      case DecisionCreated(d) => decisions := [d] + Without(decisions, d.id);
      case DecisionDeleted(id) => decisions := Without(decisions, id);
      case PresenceUpdated(p) => presence := UpsertBy(presence, p);
      case WorkspaceDeleted =>  // logged only
      case HandoffCreated(_) =>
      case HandoffUpdated(_) =>
      case HandoffDeleted(_) =>
    }
  }

  // -------------------------------------------------------------------------
  // Agreement
  // -------------------------------------------------------------------------

  lemma {:induction false} ReplaceAbsent<B>(rows: seq<Row<B>>, row: Row<B>)
    requires row.id !in Ids(rows)
    ensures ReplaceMatches(rows, row) == rows
  {
    if rows != [] { ReplaceAbsent(rows[1..], row); }
  }

  /** With distinct ids, replacing every match is replacing the first. */
  lemma {:induction false} ReplaceAllIsUpsert<B>(rows: seq<Row<B>>, row: Row<B>)
    requires Distinct(Ids(rows))
    ensures ReplaceAll(rows, row) == Upsert(rows, row)
  {
    if rows != [] {
      var h, t := rows[0], rows[1..];
      assert rows == [h] + t;
      DistinctHead(h.id, Ids(t));
      UpsertHead(h, t, row);
      if h.id == row.id {
        ReplaceAbsent(t, row);
      } else {
        ReplaceAllIsUpsert(t, row);
      }
    }
  }

  /** The row carries the id the server keeps for its actor. */
  ghost predicate Bound(r: Presence, actors: map<string, Presence>) {
    r.body.actorName in actors && actors[r.body.actorName].id == r.id
  }

  ghost predicate OneIdPerActor(actors: map<string, Presence>) {
    forall n, m | n in actors && m in actors && actors[n].id == actors[m].id :: n == m
  }

  /** Under the id-name bijection, matching by name is matching by id. */
  lemma {:induction false} NameMatchIsIdMatch(rows: seq<Presence>, row: Presence, actors: map<string, Presence>)
    requires OneIdPerActor(actors) && Bound(row, actors) && forall r | r in rows :: Bound(r, actors)
    ensures FindActor(rows, row.body.actorName) == FindIndex(rows, row.id)
  {
    if rows != [] {
      assert rows[0] in rows && forall r | r in rows[1..] :: r in rows;
      NameMatchIsIdMatch(rows[1..], row, actors);
    }
  }

  /** What the agreement needs of the shared lists. */
  ghost predicate Agreeable(w: Lists, actors: map<string, Presence>) {
    Distinct(Ids(w.tasks)) && Distinct(Ids(w.presence)) && forall r | r in w.presence :: Bound(r, actors)
  }

  lemma AgreePresence(rows: seq<Presence>, row: Presence, actors: map<string, Presence>)
    requires OneIdPerActor(actors) && Bound(row, actors)
    requires Distinct(Ids(rows)) && forall r | r in rows :: Bound(r, actors)
    ensures UpsertActor(rows, row) == Upsert(rows, row) == ReplaceAll(rows, row)
    ensures Distinct(Ids(Upsert(rows, row))) && forall r | r in Upsert(rows, row) :: Bound(r, actors)
  {
    ReplaceAllIsUpsert(rows, row);
    NameMatchIsIdMatch(rows, row, actors);
    UpsertIds(rows, row);
    forall r | r in Upsert(rows, row) ensures Bound(r, actors) { UpsertFrom(rows, row, r); }
  }

  lemma AgreeStep(w: Lists, e: Event, actors: map<string, Presence>)
    requires OneIdPerActor(actors) && Agreeable(w, actors) && !e.WorkspaceDeleted?
    requires e.PresenceUpdated? ==> Bound(e.presence, actors)
    ensures Agreeable(ApplyEvent(w, e), actors)
    ensures VsApply(PanelOf(w), e) == PanelOf(ApplyEvent(w, e)) == JbApply(PanelOf(w), e)
  {
    hide Upsert, ReplaceAll, UpsertActor, Without, ToFront, Bound, OneIdPerActor;
    match e
    case TaskCreated(row) => ReplaceAllIsUpsert(w.tasks, row); UpsertIds(w.tasks, row);
    case TaskUpdated(row) => ReplaceAllIsUpsert(w.tasks, row); UpsertIds(w.tasks, row);
    case TaskDeleted(id) => WithoutIds(w.tasks, id);
    case PresenceUpdated(row) => AgreePresence(w.presence, row, actors);
    case _ =>
  }

  /** Every presence row of the stream carries its actor's id. */
  ghost predicate BoundStream(es: seq<Event>, actors: map<string, Presence>) {
    forall i | 0 <= i < |es| :: !es[i].WorkspaceDeleted? && (es[i].PresenceUpdated? ==> Bound(es[i].presence, actors))
  }

  lemma {:induction false} AgreeAll(w: Lists, es: seq<Event>, actors: map<string, Presence>)
    requires OneIdPerActor(actors) && Agreeable(w, actors) && BoundStream(es, actors)
    ensures VsApplyAll(PanelOf(w), es) == PanelOf(ApplyAll(w, es)) == JbApplyAll(PanelOf(w), es)
    decreases |es|
  {
    if es != [] {
      AgreeStep(w, es[0], actors);
      AgreeAll(ApplyEvent(w, es[0]), es[1..], actors);
    }
  }

  /** Actors keep their presence id while the workspace exists. */
  ghost predicate ActorsKept(before: map<string, Presence>, after: map<string, Presence>) {
    forall n | n in before :: n in after && after[n].id == before[n].id
  }

  lemma ActorsStep(s: State, r: Request)
    requires Valid(s) && Feasible(s, r) && !s.deleted && !Exec(s, r).state.deleted
    ensures ActorsKept(s.presence, Exec(s, r).state.presence)
    ensures BoundStream(Exec(s, r).events, Exec(s, r).state.presence)
  {
    AliveBefore(s, r);
    HandlersFrame(s, r);
    Dispatch(s, r);
    hide Exec, Valid;
    var es := Exec(s, r).events;
    if r.cmd.UpdatePresence? {
    } else {
      assert forall i | 0 <= i < |es| :: es[i] in es;
    }
  }

  lemma BoundLater(es: seq<Event>, before: map<string, Presence>, after: map<string, Presence>)
    requires BoundStream(es, before) && ActorsKept(before, after)
    ensures BoundStream(es, after)
  {
  }

  lemma {:induction false} StreamBound(s: State, rs: seq<Request>)
    requires Valid(s) && FeasibleRun(s, rs) && !Run(s, rs).deleted
    ensures ActorsKept(s.presence, Run(s, rs).presence)
    ensures BoundStream(Log(s, rs), Run(s, rs).presence)
    decreases |rs|
  {
    if rs != [] {
      AliveStep(s, rs);
      ValidStep(s, rs[0]);
      ActorsStep(s, rs[0]);
      hide Exec, Valid;
      var o := Exec(s, rs[0]);
      StreamBound(o.state, rs[1..]);
      BoundLater(o.events, o.state.presence, Run(o.state, rs[1..]).presence);
    }
  }

  /** A presence snapshot: some of the server's rows, each at most once. */
  ghost predicate PresenceSnapshot(rows: seq<Presence>, s: State) {
    Distinct(Ids(rows)) && forall r | r in rows :: r.body.actorName in s.presence && s.presence[r.body.actorName] == r
  }

  /** Three clients, one state: starting from the same lists, each loaded at its own point of the
      stream (tasks after `a`, presence after `pa`), the dashboard (first match by id), VS Code
      (presence by name) and JetBrains (replace every match) hold equal task, decision and presence
      lists as long as the workspace exists. */
  lemma ThreeClientsAgree(s: State, a: seq<Request>, b: seq<Request>, pa: seq<Request>, pb: seq<Request>, w: Lists)
    requires Valid(s) && FeasibleRun(s, a + b) && !Run(s, a + b).deleted && pa + pb == a + b
    requires IsListing(Run(s, a).tasks, w.tasks) && PresenceSnapshot(w.presence, Run(s, pa))
    ensures var es := Log(s, a + b);
            VsApplyAll(PanelOf(w), es) == PanelOf(ApplyAll(w, es)) == JbApplyAll(PanelOf(w), es)
  {
    var end := Run(s, a + b);
    RunSplit(s, pa, pb);
    ValidRun(s, pa);
    ValidRun(s, a + b);
    StreamBound(s, a + b);
    StreamBound(Run(s, pa), pb);
    ListingDistinct(Run(s, a).tasks, w.tasks);
    assert OneIdPerActor(end.presence);
    assert forall r | r in w.presence :: Bound(r, end.presence);
    AgreeAll(w, Log(s, a + b), end.presence);
  }

  /** On `workspace_deleted` VS Code empties its panel and JetBrains keeps it: they still agree
      exactly when the panel was empty. */
  lemma DeletionSplitsClients(p: Panel)
    ensures VsApply(p, WorkspaceDeleted) == JbApply(p, WorkspaceDeleted) <==>
            p.tasks == [] && p.decisions == [] && p.presence == []
  {
  }

  /** One task on the panel, and the workspace is deleted. */
  lemma DeletionSplitsOneTask(t: Task)
    ensures var p := Panel([t], [], []);
            VsApply(p, WorkspaceDeleted) == Panel([], [], []) && JbApply(p, WorkspaceDeleted) == p
  {
  }
}
