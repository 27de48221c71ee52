/** The server's published stream is, table by table, a legal history of its listing. */
module Replication {
  import opened Common
  import opened Rows
  import opened Feed
  import opened Store
  import opened Listing
  import opened Web

  ghost predicate Reachable(s: State) {
    exists rs :: FeasibleRun(EMPTY, rs) && Run(EMPTY, rs) == s
  }

  /** The changes of one request: none, or one legal change, using only ids handed out by then. */
  ghost predicate OneStep<B>(rows: seq<Row<B>>, used: set<Id>, cs: seq<Change<B>>, later: set<Id>) {
    && |cs| <= 1 && used <= later
    && (cs != [] ==> Legal(rows, used, cs[0]) && Grown(used, cs[0]) <= later)
  }

  lemma HistoryPrepend<B>(rows: seq<Row<B>>, used: set<Id>, cs: seq<Change<B>>, later: set<Id>, rest: seq<Change<B>>)
    requires OneStep(rows, used, cs, later) && History(TableRun(rows, cs), later, rest)
    ensures History(rows, used, cs + rest)
    ensures TableRun(rows, cs + rest) == TableRun(TableRun(rows, cs), rest)
  {
    RunConcat(rows, cs, rest);
    if cs == [] {
      assert cs + rest == rest;
      HistoryWeaken(rows, later, used, rest);
    } else {
      assert cs == [cs[0]] && (cs + rest)[1..] == rest && cs[1..] == [];
      HistoryWeaken(TableStep(rows, cs[0]), later, Grown(used, cs[0]), rest);
    }
  }

  lemma OneRun<B>(rows: seq<Row<B>>, c: Change<B>)
    ensures TableRun(rows, [c]) == TableStep(rows, c)
  {
    assert [c][1..] == [];
  }

  lemma ListingSound<B>(t: map<Id, Row<B>>, rows: seq<Row<B>>, clock: nat, issued: set<Id>)
    requires Keyed(t, clock, issued) && IsListing(t, rows)
    ensures Sound(rows, issued)
  {
    ListingDistinct(t, rows);
    forall x | x in Ids(rows) ensures x in issued { ListingIds(t, rows, x); }
  }

  /** One change of a table and of its listing. */
  ghost predicate Tracks<B>(t: map<Id, Row<B>>, t': map<Id, Row<B>>, cs: seq<Change<B>>) {
    || (cs == [] && t' == t)
    || (|cs| == 1 && match cs[0]
          case Insert(row) => row.id !in t && (forall x | x in t :: t[x].at < row.at) && t' == t[row.id := row]
          case Update(row) => row.id in t && t[row.id].at == row.at && t' == t[row.id := row]
          case Remove(id) => id in t && t' == t - {id})
  }

  lemma TrackStep<B>(t: map<Id, Row<B>>, t': map<Id, Row<B>>, cs: seq<Change<B>>, rows: seq<Row<B>>,
                     used: set<Id>, later: set<Id>)
    requires IsListing(t, rows) && Tracks(t, t', cs) && FreshInsert(used, cs, later)
    ensures OneStep(rows, used, cs, later) && IsListing(t', TableRun(rows, cs))
  {
    if cs != [] {
      assert cs == [cs[0]];
      OneRun(rows, cs[0]);
      match cs[0] {
        case Insert(row) => ListingInsert(t, rows, row);
        case Update(row) => ListingUpdate(t, rows, row); ListingIds(t, rows, row.id);
        case Remove(id) => ListingRemove(t, rows, id); ListingIds(t, rows, id);
      }
    }
  }

  /** The feeds of a request that publishes at most one event. */
  lemma OneEvent(es: seq<Event>)
    requires |es| <= 1
    ensures TaskFeed(es) == if es == [] then [] else TaskChanges(es[0])
    ensures DecisionFeed(es) == if es == [] then [] else DecisionChanges(es[0])
    ensures HandoffFeed(es) == if es == [] then [] else HandoffChanges(es[0])
  {
    if es != [] { assert es[1..] == []; }
  }

  /** An inserted id was not handed out before, and is from now on. */
  ghost predicate FreshInsert<B>(used: set<Id>, cs: seq<Change<B>>, later: set<Id>) {
    used <= later && (cs != [] && cs[0].Insert? ==> cs[0].row.id !in used && cs[0].row.id in later)
  }

  lemma TasksTrack(s: State, r: Request)
    requires Valid(s) && Feasible(s, r) && !Exec(s, r).state.deleted
    ensures var o := Exec(s, r); var cs := TaskFeed(o.events);
            Tracks(s.tasks, o.state.tasks, cs) && FreshInsert(s.issued, cs, o.state.issued)
  {
    AliveBefore(s, r);
    Dispatch(s, r);
    HandlersFrame(s, r);
    hide Exec;
    OneEvent(Exec(s, r).events);
    if TaskCommand(r.cmd) {
      TaskCommandTracks(Aged(s, r), r, s.clock, s.issued);
    }
  }

  lemma TaskCommandTracks(a: State, r: Request, before: nat, used: set<Id>)
    requires TaskCommand(r.cmd) && before < r.now && r.uuid !in used && a.issued == used + {r.uuid}
    requires Keyed(a.tasks, before, used)
    ensures var o := ExecTask(a, r); var cs := TaskFeed(o.events);
            Tracks(a.tasks, o.state.tasks, cs) && FreshInsert(used, cs, a.issued)
  {
    OneEvent(ExecTask(a, r).events);
  }

  lemma SetNullUnlinked<C>(t: map<Id, Row<Linked<C>>>, task: Id)
    ensures UnlinkTable(SetNull(t, task)) == UnlinkTable(t)
  {
  }

  lemma UnlinkPut<C>(t: map<Id, Row<Linked<C>>>, row: Row<Linked<C>>)
    ensures UnlinkTable(t[row.id := row]) == UnlinkTable(t)[row.id := Unlink(row)]
  {
  }

  lemma UnlinkDrop<C>(t: map<Id, Row<Linked<C>>>, id: Id)
    ensures UnlinkTable(t - {id}) == UnlinkTable(t) - {id}
  {
  }

  lemma DecisionsTrack(s: State, r: Request)
    requires Valid(s) && Feasible(s, r) && !Exec(s, r).state.deleted
    ensures var o := Exec(s, r); var cs := DecisionFeed(o.events);
            Tracks(UnlinkTable(s.decisions), UnlinkTable(o.state.decisions), cs)
                && FreshInsert(s.issued, cs, o.state.issued)
  {
    AliveBefore(s, r);
    Dispatch(s, r);
    HandlersFrame(s, r);
    hide Exec;
    OneEvent(Exec(s, r).events);
    if DecisionCommand(r.cmd) {
      DecisionCommandTracks(Aged(s, r), r, s.clock, s.issued);
    } else if r.cmd.DeleteTask? {
      SetNullUnlinked(s.decisions, r.cmd.task);
    }
  }

  lemma DecisionCommandTracks(a: State, r: Request, before: nat, used: set<Id>)
    requires DecisionCommand(r.cmd) && before < r.now && r.uuid !in used && a.issued == used + {r.uuid}
    requires Keyed(a.decisions, before, used)
    ensures var o := ExecDecision(a, r); var cs := DecisionFeed(o.events);
            Tracks(UnlinkTable(a.decisions), UnlinkTable(o.state.decisions), cs) && FreshInsert(used, cs, a.issued)
  {
    var es := ExecDecision(a, r).events;
    OneEvent(es);
    match r.cmd
    case CreateDecision(_, _) => if es != [] { UnlinkPut(a.decisions, es[0].decision); }
    case DeleteDecision(id) => UnlinkDrop(a.decisions, id);
  }

  lemma HandoffsTrack(s: State, r: Request)
    requires Valid(s) && Feasible(s, r) && !Exec(s, r).state.deleted
    ensures var o := Exec(s, r); var cs := HandoffFeed(o.events);
            Tracks(UnlinkTable(s.handoffs), UnlinkTable(o.state.handoffs), cs)
                && FreshInsert(s.issued, cs, o.state.issued)
  {
    AliveBefore(s, r);
    Dispatch(s, r);
    HandlersFrame(s, r);
    hide Exec;
    OneEvent(Exec(s, r).events);
    if HandoffCommand(r.cmd) {
      HandoffCommandTracks(Aged(s, r), r, s.clock, s.issued);
    } else if r.cmd.DeleteTask? {
      SetNullUnlinked(s.handoffs, r.cmd.task);
    }
  }

  lemma HandoffCommandTracks(a: State, r: Request, before: nat, used: set<Id>)
    requires HandoffCommand(r.cmd) && before < r.now && r.uuid !in used && a.issued == used + {r.uuid}
    requires Keyed(a.handoffs, before, used)
    ensures var o := ExecHandoff(a, r); var cs := HandoffFeed(o.events);
            Tracks(UnlinkTable(a.handoffs), UnlinkTable(o.state.handoffs), cs) && FreshInsert(used, cs, a.issued)
  {
    var es := ExecHandoff(a, r).events;
    OneEvent(es);
    if r.cmd.DeleteHandoff? {
      UnlinkDrop(a.handoffs, r.cmd.handoff);
    } else if es != [] {
      UnlinkPut(a.handoffs, if r.cmd.CreateHandoff? then es[0].handoff
          else ExecHandoff(a, r).state.handoffs[r.cmd.handoff]);
    }
  }

  /** What the run does to one table's listing, seen through that table's change stream. */
  ghost predicate Recorded<B>(t: map<Id, Row<B>>, rows: seq<Row<B>>, used: set<Id>, cs: seq<Change<B>>,
      t': map<Id, Row<B>>) {
    History(rows, used, cs) && IsListing(t', TableRun(rows, cs))
  }

  lemma {:induction false} TasksRecorded(s: State, rs: seq<Request>, rows: seq<Task>)
    requires Valid(s) && FeasibleRun(s, rs) && !Run(s, rs).deleted && IsListing(s.tasks, rows)
    ensures Recorded(s.tasks, rows, s.issued, TaskFeed(Log(s, rs)), Run(s, rs).tasks)
    decreases |rs|
  {
    if rs != [] {
      AliveStep(s, rs);
      hide Exec;
      var o := Exec(s, rs[0]);
      ValidStep(s, rs[0]);
      TasksTrack(s, rs[0]);
      var cs := TaskFeed(o.events);
      TrackStep(s.tasks, o.state.tasks, cs, rows, s.issued, o.state.issued);
      TasksRecorded(o.state, rs[1..], TableRun(rows, cs));
      TaskFeedConcat(o.events, Log(o.state, rs[1..]));
      HistoryPrepend(rows, s.issued, cs, o.state.issued, TaskFeed(Log(o.state, rs[1..])));
    }
  }

  lemma {:induction false} DecisionsRecorded(s: State, rs: seq<Request>, rows: seq<Row<DecisionCore>>)
    requires Valid(s) && FeasibleRun(s, rs) && !Run(s, rs).deleted && IsListing(UnlinkTable(s.decisions), rows)
    ensures Recorded(UnlinkTable(s.decisions), rows, s.issued, DecisionFeed(Log(s, rs)),
        UnlinkTable(Run(s, rs).decisions))
    decreases |rs|
  {
    if rs != [] {
      AliveStep(s, rs);
      hide Exec;
      var o := Exec(s, rs[0]);
      ValidStep(s, rs[0]);
      DecisionsTrack(s, rs[0]);
      var cs := DecisionFeed(o.events);
      TrackStep(UnlinkTable(s.decisions), UnlinkTable(o.state.decisions), cs, rows, s.issued, o.state.issued);
      DecisionsRecorded(o.state, rs[1..], TableRun(rows, cs));
      DecisionFeedConcat(o.events, Log(o.state, rs[1..]));
      HistoryPrepend(rows, s.issued, cs, o.state.issued, DecisionFeed(Log(o.state, rs[1..])));
    }
  }

  lemma {:induction false} HandoffsRecorded(s: State, rs: seq<Request>, rows: seq<Row<HandoffCore>>)
    requires Valid(s) && FeasibleRun(s, rs) && !Run(s, rs).deleted && IsListing(UnlinkTable(s.handoffs), rows)
    ensures Recorded(UnlinkTable(s.handoffs), rows, s.issued, HandoffFeed(Log(s, rs)), UnlinkTable(Run(s, rs).handoffs))
    decreases |rs|
  {
    if rs != [] {
      AliveStep(s, rs);
      hide Exec;
      var o := Exec(s, rs[0]);
      ValidStep(s, rs[0]);
      HandoffsTrack(s, rs[0]);
      var cs := HandoffFeed(o.events);
      TrackStep(UnlinkTable(s.handoffs), UnlinkTable(o.state.handoffs), cs, rows, s.issued, o.state.issued);
      HandoffsRecorded(o.state, rs[1..], TableRun(rows, cs));
      HandoffFeedConcat(o.events, Log(o.state, rs[1..]));
      HistoryPrepend(rows, s.issued, cs, o.state.issued, HandoffFeed(Log(o.state, rs[1..])));
    }
  }
}
