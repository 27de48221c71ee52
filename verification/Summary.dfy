/** The summary's four counts against a fold of the published stream. */
module Summary {
  import opened Common
  import opened Rows
  import opened Feed
  import opened Store
  import opened Listing
  import opened Web
  import opened Links
  import opened Replication
  import opened Convergence

  datatype Counts = Counts(tasks: nat, openTasks: nat, decisions: nat, openHandoffs: nat)

  function IsOpenTask(t: Task): bool { t.body.status != Done }

  function IsOpenHandoff(h: Handoff): bool { h.body.core.status == HandoffStatus.Open }

  /** `SELECT ... WHERE`: the keys of the rows that satisfy the condition. */
  function Where<B>(t: map<Id, Row<B>>, f: Row<B> -> bool): set<Id> {
    set x | x in t && f(t[x])
  }

  /** The aggregate queries of the summary handler. */
  function WorkspaceSummary(s: State): Counts {
    Counts(|s.tasks|, |Where(s.tasks, IsOpenTask)|, |s.decisions|, |Where(s.handoffs, IsOpenHandoff)|)
  }

  /** What the four numbers count: all tasks, those not done, all decisions, the handoffs nobody took up. */
  lemma WhatIsCounted(s: State)
    ensures var counts := WorkspaceSummary(s);
            && counts.tasks == |s.tasks.Keys| && counts.decisions == |s.decisions.Keys|
            && counts.openTasks == |set x | x in s.tasks && s.tasks[x].body.status in {Todo, InProgress, Blocked}|
            && counts.openHandoffs
               == |set x | x in s.handoffs && !s.handoffs[x].body.core.status.Acknowledged?
                           && !s.handoffs[x].body.core.status.Resolved?|
  {
    assert Where(s.tasks, IsOpenTask) == set x | x in s.tasks && s.tasks[x].body.status in {Todo, InProgress, Blocked};
    assert Where(s.handoffs, IsOpenHandoff)
           == set x | x in s.handoffs && !s.handoffs[x].body.core.status.Acknowledged?
                      && !s.handoffs[x].body.core.status.Resolved?;
  }

  function CountIf<B>(rows: seq<Row<B>>, f: Row<B> -> bool): nat {
    if rows == [] then 0 else (if f(rows[0]) then 1 else 0) + CountIf(rows[1..], f)
  }

  /** The same four numbers read off the lists of a client. */
  function Tally(w: Lists): Counts {
    Counts(|w.tasks|, CountIf(w.tasks, IsOpenTask), |w.decisions|, CountIf(w.handoffs, IsOpenHandoff))
  }

  const NO_LISTS := Lists([], [], [], [])

  ghost function MatchingIds<B>(rows: seq<Row<B>>, f: Row<B> -> bool): set<Id> {
    set r | r in rows && f(r) :: r.id
  }

  lemma {:induction false} CountMatching<B>(rows: seq<Row<B>>, f: Row<B> -> bool)
    requires Distinct(Ids(rows))
    ensures |MatchingIds(rows, f)| == CountIf(rows, f)
  {
    if rows != [] {
      var rest := rows[1..];
      DistinctHead(rows[0].id, Ids(rest));
      CountMatching(rest, f);
      assert rows == [rows[0]] + rest;
      HeadNotInRest(rows);
      forall x ensures x in MatchingIds(rows, f) <==> x in MatchingIds(rest, f) || (f(rows[0]) && x == rows[0].id) {}
      if f(rows[0]) {
        assert MatchingIds(rows, f) == MatchingIds(rest, f) + {rows[0].id};
      } else {
        assert MatchingIds(rows, f) == MatchingIds(rest, f);
      }
    }
  }

  lemma HeadNotInRest<B>(rows: seq<Row<B>>)
    requires rows != [] && Distinct(Ids(rows))
    ensures forall r | r in rows[1..] :: r.id != rows[0].id
  {
    DistinctHead(rows[0].id, Ids(rows[1..]));
    forall r | r in rows[1..] ensures r.id != rows[0].id { IdOf(rows[1..], r); }
  }

  /** Counting rows of a listing is counting keys of the table. */
  lemma ListingCount<B>(t: map<Id, Row<B>>, rows: seq<Row<B>>, f: Row<B> -> bool)
    requires IsListing(t, rows)
    ensures CountIf(rows, f) == |Where(t, f)|
  {
    ListingDistinct(t, rows);
    CountMatching(rows, f);
    assert MatchingIds(rows, f) == Where(t, f);
  }

  lemma ListingSize<B>(t: map<Id, Row<B>>, rows: seq<Row<B>>)
    requires IsListing(t, rows)
    ensures |rows| == |t|
  {
    var all := (r: Row<B>) => true;
    ListingCount(t, rows, all);
    CountAll(rows, all);
    assert Where(t, all) == t.Keys;
  }

  lemma {:induction false} CountAll<B>(rows: seq<Row<B>>, f: Row<B> -> bool)
    requires forall r :: f(r)
    ensures CountIf(rows, f) == |rows|
  {
    if rows != [] { CountAll(rows[1..], f); }
  }

  lemma {:induction false} CountConcat<B>(a: seq<Row<B>>, b: seq<Row<B>>, f: Row<B> -> bool)
    ensures CountIf(a + b, f) == CountIf(a, f) + CountIf(b, f)
  {
    if a == [] {
      assert a + b == b;
    } else {
      assert a + b == [a[0]] + (a[1..] + b);
      CountConcat(a[1..], b, f);
    }
  }

  lemma {:induction false} CountReverse<B>(rows: seq<Row<B>>, f: Row<B> -> bool)
    ensures CountIf(Reverse(rows), f) == CountIf(rows, f)
  {
    if rows != [] {
      CountReverse(rows[1..], f);
      CountConcat(Reverse(rows[1..]), [rows[0]], f);
    }
  }

  lemma {:induction false} CountRefreshed(rows: seq<Handoff>, tasks: set<Id>)
    ensures CountIf(RefreshAll(rows, tasks), IsOpenHandoff) == CountIf(rows, IsOpenHandoff)
  {
    if rows != [] { CountRefreshed(rows[1..], tasks); }
  }

  lemma LinkedListing<C>(t: map<Id, Row<Linked<C>>>, rows: seq<Row<C>>) returns (linked: seq<Row<Linked<C>>>)
    requires IsListing(UnlinkTable(t), rows) && forall x | x in t :: t[x].id == x
    ensures IsListing(t, linked)
  {
    linked := seq(|rows|, i requires 0 <= i < |rows| => assert rows[i] in rows; t[rows[i].id]);
    forall r | r in linked ensures r.id in t && t[r.id] == r {
      var i :| 0 <= i < |linked| && linked[i] == r;
      assert rows[i] in rows;
    }
    forall x | x in t ensures t[x] in linked {
      assert UnlinkTable(t)[x] in rows;
      var i :| 0 <= i < |rows| && rows[i] == UnlinkTable(t)[x];
      assert linked[i] == t[x];
    }
    forall i, j | 0 <= i < j < |linked| ensures linked[i].at < linked[j].at {
      assert rows[i] in rows && rows[j] in rows;
    }
  }

  lemma TaskCounts(s: State, rs: seq<Request>, w: Lists)
    requires Subscribed(s, [], rs) && s.tasks == map[] && w.tasks == []
    ensures var c, t := WorkspaceSummary(Run(s, rs)), Tally(ApplyAll(w, Log(s, rs)));
            c.tasks == t.tasks && c.openTasks == t.openTasks
  {
    var s' := Run(s, rs);
    assert [] + rs == rs;
    TasksConverge(s, [], rs, w);
    hide Run, Log, ApplyAll, Subscribed;
    ListingSize(s'.tasks, ApplyAll(w, Log(s, rs)).tasks);
    ListingCount(s'.tasks, ApplyAll(w, Log(s, rs)).tasks, IsOpenTask);
  }

  lemma DecisionCount(s: State, rs: seq<Request>, w: Lists)
    requires Subscribed(s, [], rs) && s.decisions == map[] && w.decisions == []
    requires Reachable(Run(s, rs)) && Valid(Run(s, rs)) && !Run(s, rs).deleted
    ensures |ApplyAll(w, Log(s, rs)).decisions| == |Run(s, rs).decisions|
  {
    var s' := Run(s, rs);
    assert [] + rs == rs;
    var rows := ListedDecisions(s');
    var listing := LinkedListing(s'.decisions, rows);
    DecisionsConverge(s, [], rs, w, [], listing, SNAPSHOT_LIMIT);
    hide Run, Log, ApplyAll, Subscribed;
    ListingSize(s'.decisions, listing);
  }

  lemma HandoffCount(s: State, rs: seq<Request>, w: Lists)
    requires Subscribed(s, [], rs) && s.handoffs == map[] && w.handoffs == []
    requires Reachable(Run(s, rs)) && Valid(Run(s, rs)) && !Run(s, rs).deleted
    ensures CountIf(ApplyAll(w, Log(s, rs)).handoffs, IsOpenHandoff) == WorkspaceSummary(Run(s, rs)).openHandoffs
  {
    var s' := Run(s, rs);
    assert [] + rs == rs;
    var rows := ListedHandoffs(s');
    var listing := LinkedListing(s'.handoffs, rows);
    HandoffsConverge(s, [], rs, w, [], listing, SNAPSHOT_LIMIT);
    hide Run, Log, ApplyAll, Subscribed, ShowsServer, KeepsAll, Valid;
    ListingCount(s'.handoffs, listing, IsOpenHandoff);
    CountReverse(listing, IsOpenHandoff);
    CountRefreshed(ApplyAll(w, Log(s, rs)).handoffs, s'.tasks.Keys);
  }

  /** A client that folds the stream from the workspace's creation, starting from nothing, holds
      lists whose sizes are the summary's counts. */
  lemma SummaryIsFold(rs: seq<Request>)
    requires FeasibleRun(EMPTY, rs) && !Run(EMPTY, rs).deleted
    ensures WorkspaceSummary(Run(EMPTY, rs)) == Tally(ApplyAll(NO_LISTS, Log(EMPTY, rs)))
  {
    FromCreation(rs);
    TaskCounts(EMPTY, rs, NO_LISTS);
    DecisionCount(EMPTY, rs, NO_LISTS);
    HandoffCount(EMPTY, rs, NO_LISTS);
  }

  lemma FromCreation(rs: seq<Request>)
    requires FeasibleRun(EMPTY, rs) && !Run(EMPTY, rs).deleted
    ensures Subscribed(EMPTY, [], rs) && Reachable(Run(EMPTY, rs)) && Valid(Run(EMPTY, rs))
  {
    assert [] + rs == rs;
    assert FeasibleRun(EMPTY, []) && Run(EMPTY, []) == EMPTY;
    ValidRun(EMPTY, rs);
  }
}
