/** What happens outside the hypotheses of the convergence theorems: a stream that starts after the
    snapshot, a snapshot that overwrites newer rows, and two updates published in the other order than
    they were committed. */
module Limits {
  import opened Common
  import opened Rows
  import opened Feed
  import opened Store
  import opened Listing
  import opened Web
  import opened LastWord
  import opened Links
  import opened Replication
  import opened Convergence

  // -------------------------------------------------------------------------
  // The bridge takes its first snapshot before it opens the socket
  // -------------------------------------------------------------------------

  predicate UpdatedBy<B>(cs: seq<Change<B>>, id: Id) {
    cs != [] && ((cs[0].Update? && cs[0].row.id == id) || UpdatedBy(cs[1..], id))
  }

  /** A change that leaves `id` alive, seen by a client that may or may not hold it. */
  lemma OneChange<B>(table: seq<Row<B>>, used: set<Id>, list: seq<Row<B>>, c: Change<B>, id: Id)
    requires Legal(table, used, c) && id in used && id in Ids(table) && !(c.Remove? && c.id == id)
    ensures id in Ids(TableStep(table, c)) && id in Grown(used, c)
    ensures id in Ids(ClientStep(AtEnd, list, c)) <==> id in Ids(list) || (c.Update? && c.row.id == id)
  {
    match c
    case Insert(row) =>
      IdsConcat(table, [row]);
      UpsertIds(list, row);
    case Update(row) =>
      UpsertIds(table, row);
      UpsertIds(list, row);
    case Remove(x) =>
      WithoutIds(table, x);
      MinusHas(Ids(table), {x}, id);
      WithoutIds(list, x);
      MinusHas(Ids(list), {x}, id);
  }

  /** Over a whole history in which a row stays alive, a client shows it if and only if it held it at
      the start or saw an update of it. */
  lemma {:induction false} ShownIffUpdated<B>(table: seq<Row<B>>, used: set<Id>, list: seq<Row<B>>,
      cs: seq<Change<B>>, id: Id)
    requires Feed.Sound(table, used) && History(table, used, cs)
    requires id in Ids(table) && id in Ids(TableRun(table, cs))
    ensures id in Ids(ClientRun(AtEnd, list, cs)) <==> id in Ids(list) || UpdatedBy(cs, id)
    decreases |cs|
  {
    if cs != [] {
      var c := cs[0];
      SoundStep(table, used, c);
      if c.Remove? && c.id == id {
        WithoutIds(table, id);
        MinusHas(Ids(table), {id}, id);
        NeverReborn(TableStep(table, c), used, cs[1..], id);
      } else {
        OneChange(table, used, list, c, id);
        ShownIffUpdated(TableStep(table, c), Grown(used, c), ClientStep(AtEnd, list, c), cs[1..], id);
      }
    }
  }

  /** The stream carries an update of this task. */
  predicate TaskUpdatedIn(es: seq<Event>, id: Id) {
    es != [] && ((es[0].TaskUpdated? && es[0].task.id == id) || TaskUpdatedIn(es[1..], id))
  }

  lemma {:induction false} FeedUpdates(es: seq<Event>, id: Id)
    ensures UpdatedBy(TaskFeed(es), id) <==> TaskUpdatedIn(es, id)
  {
    if es != [] {
      FeedUpdates(es[1..], id);
      var first, rest := TaskChanges(es[0]), TaskFeed(es[1..]);
      if first == [] {
        assert first + rest == rest;
      } else {
        assert (first + rest)[1..] == rest;
      }
    }
  }

  /** The stream says something about this task: it was created, updated or deleted. */
  predicate MentionsTask(es: seq<Event>, id: Id) {
    && es != []
    && (|| (es[0].TaskCreated? && es[0].task.id == id) || (es[0].TaskUpdated? && es[0].task.id == id)
        || (es[0].TaskDeleted? && es[0].id == id) || MentionsTask(es[1..], id))
  }

  lemma {:induction false} FeedNames(es: seq<Event>, id: Id)
    ensures NamedBy(TaskFeed(es), id) <==> MentionsTask(es, id)
  {
    if es != [] {
      FeedNames(es[1..], id);
      NamedStep(TaskChanges(es[0]), TaskFeed(es[1..]), id);
    }
  }

  lemma ReachableRun(s: State, rs: seq<Request>)
    requires Reachable(s) && FeasibleRun(s, rs) && !Run(s, rs).deleted
    ensures Reachable(Run(s, rs)) && Store.Valid(s) && Store.Valid(Run(s, rs)) && !s.deleted
  {
    var pre :| FeasibleRun(EMPTY, pre) && Run(EMPTY, pre) == s;
    RunSplit(EMPTY, pre, rs);
    assert FeasibleRun(EMPTY, pre + rs) && Run(EMPTY, pre + rs) == Run(s, rs);
    ValidRun(EMPTY, pre);
    ValidRun(s, rs);
    if s.deleted { DeletedStays(s, rs); }
  }

  /** The stream starts at `k1` and the client then holds any task list at all, an older snapshot or one
      that overwrote newer rows. After `b` it agrees with the server on a task, present or absent, if
      and only if the stream mentioned the task since or they agreed on it at the start. */
  lemma TaskHealsIffMentioned(k1: State, b: seq<Request>, w: Lists, id: Id)
    requires Reachable(k1) && FeasibleRun(k1, b) && !Run(k1, b).deleted && Distinct(Ids(w.tasks))
    ensures var es := Log(k1, b);
            RowIn(ApplyAll(w, es).tasks, id) == RowOf(Run(k1, b).tasks, id)
            <==> MentionsTask(es, id) || RowIn(w.tasks, id) == RowOf(k1.tasks, id)
  {
    ReachableRun(k1, b);
    var table := ListedTasks(k1);
    TasksRecorded(k1, b, table);
    hide Run, Log, Store.Valid, FeasibleRun;
    ListingSound(k1.tasks, table, k1.clock, k1.issued) by { KeyedTasks(k1); }
    var feed := TaskFeed(Log(k1, b));
    AgreeIffNamed(AtEnd, table, k1.issued, w.tasks, feed, id);
    ListedRow(k1.tasks, table, id);
    ListedRow(Run(k1, b).tasks, TableRun(table, feed), id);
    TasksFollowFeed(w, Log(k1, b));
    FeedNames(Log(k1, b), id);
  }

  /** In particular after a snapshot taken at `k` and any requests `gap` served before the stream started:
      every missed creation, update or deletion shows until the next event about the same task. */
  lemma GapHealsIffMentioned(k: State, gap: seq<Request>, b: seq<Request>, w: Lists, id: Id)
    requires Reachable(k) && IsListing(k.tasks, w.tasks)
    requires FeasibleRun(k, gap + b) && !Run(k, gap + b).deleted
    ensures var k1 := Run(k, gap); var es := Log(k1, b);
            RowIn(ApplyAll(w, es).tasks, id) == RowOf(Run(k1, b).tasks, id)
            <==> MentionsTask(es, id) || RowOf(k.tasks, id) == RowOf(k1.tasks, id)
  {
    GapSplit(k, gap, b);
    ListingDistinct(k.tasks, w.tasks);
    ListedRow(k.tasks, w.tasks, id);
    TaskHealsIffMentioned(Run(k, gap), b, w, id);
  }

  lemma GapSplit(k: State, gap: seq<Request>, b: seq<Request>)
    requires Reachable(k) && FeasibleRun(k, gap + b) && !Run(k, gap + b).deleted
    ensures FeasibleRun(k, gap) && !Run(k, gap).deleted && Reachable(Run(k, gap)) && Store.Valid(k)
    ensures FeasibleRun(Run(k, gap), b) && !Run(Run(k, gap), b).deleted
  {
    RunSplit(k, gap, b);
    if Run(k, gap).deleted { DeletedStays(Run(k, gap), b); }
    ReachableRun(k, gap);
  }

  // -------------------------------------------------------------------------
  // Decisions and handoffs after a gap
  // -------------------------------------------------------------------------

  predicate MentionsDecision(es: seq<Event>, id: Id) {
    && es != []
    && (|| (es[0].DecisionCreated? && es[0].decision.id == id) || (es[0].DecisionDeleted? && es[0].id == id)
        || MentionsDecision(es[1..], id))
  }

  predicate MentionsHandoff(es: seq<Event>, id: Id) {
    && es != []
    && (|| ((es[0].HandoffCreated? || es[0].HandoffUpdated?) && es[0].handoff.id == id)
        || (es[0].HandoffDeleted? && es[0].id == id) || MentionsHandoff(es[1..], id))
  }

  lemma NamedStep<B>(first: seq<Change<B>>, rest: seq<Change<B>>, id: Id)
    requires |first| <= 1
    ensures NamedBy(first + rest, id) <==> (first != [] && Names(first[0], id)) || NamedBy(rest, id)
  {
    if first == [] {
      assert first + rest == rest;
    } else {
      assert (first + rest)[1..] == rest;
    }
  }

  lemma {:induction false} DecisionFeedNames(es: seq<Event>, id: Id)
    ensures NamedBy(DecisionFeed(es), id) <==> MentionsDecision(es, id)
  {
    if es != [] {
      DecisionFeedNames(es[1..], id);
      NamedStep(DecisionChanges(es[0]), DecisionFeed(es[1..]), id);
    }
  }

  lemma {:induction false} HandoffFeedNames(es: seq<Event>, id: Id)
    ensures NamedBy(HandoffFeed(es), id) <==> MentionsHandoff(es, id)
  {
    if es != [] {
      HandoffFeedNames(es[1..], id);
      NamedStep(HandoffChanges(es[0]), HandoffFeed(es[1..]), id);
    }
  }

  /** The replica's row, its link read against the live tasks. */
  function ReadIn<C>(list: seq<Row<Linked<C>>>, id: Id, tasks: set<Id>): Option<Row<Linked<C>>> {
    match RowIn(list, id)
    case None => None
    case Some(r) => Some(Refresh(r, tasks))
  }

  /** When links agree, rows agree if and only if they agree without their links. */
  lemma ReadUnlinked<C>(list: seq<Row<Linked<C>>>, t: map<Id, Row<Linked<C>>>, tasks: set<Id>, issued: set<Id>, id: Id)
    requires RowsAgree(list, map[], t, tasks, issued)
    ensures ReadIn(list, id, tasks) == RowOf(t, id) <==> RowIn(UnlinkAll(list), id) == RowOf(UnlinkTable(t), id)
  {
    UnlinkFind(list, id);
    var k := FindIndex(list, id);
    if k != -1 {
      UnlinkAt(list, k);
      assert list[k] in list && LinkAgrees(list[k], t, tasks, issued);
    }
  }

  /** Rows of an old snapshot keep their links readable while requests are served unheard. */
  lemma {:induction false} DecisionRowsIdle(list: seq<Decision>, s: State, rs: seq<Request>)
    requires Store.Valid(s) && FeasibleRun(s, rs) && !Run(s, rs).deleted
    requires RowsAgree(list, map[], s.decisions, s.tasks.Keys, s.issued)
    ensures var s' := Run(s, rs); RowsAgree(list, map[], s'.decisions, s'.tasks.Keys, s'.issued)
    decreases |rs|
  {
    if rs != [] {
      var next := Exec(s, rs[0]).state;
      AliveStep(s, rs);
      ValidStep(s, rs[0]);
      HandlersFrame(s, rs[0]);
      DecisionLinkStep(s, rs[0]);
      hide Exec, Store.Valid;
      RowsAgreeStep(list, list, map[], s.decisions, s.tasks.Keys, s.issued, next.decisions, next.tasks.Keys,
          next.issued);
      DecisionRowsIdle(list, next, rs[1..]);
    }
  }

  lemma {:induction false} HandoffRowsIdle(list: seq<Handoff>, s: State, rs: seq<Request>)
    requires Store.Valid(s) && FeasibleRun(s, rs) && !Run(s, rs).deleted
    requires RowsAgree(list, map[], s.handoffs, s.tasks.Keys, s.issued)
    ensures var s' := Run(s, rs); RowsAgree(list, map[], s'.handoffs, s'.tasks.Keys, s'.issued)
    decreases |rs|
  {
    if rs != [] {
      var next := Exec(s, rs[0]).state;
      AliveStep(s, rs);
      ValidStep(s, rs[0]);
      HandlersFrame(s, rs[0]);
      HandoffLinkStep(s, rs[0]);
      hide Exec, Store.Valid;
      RowsAgreeStep(list, list, map[], s.handoffs, s.tasks.Keys, s.issued, next.handoffs, next.tasks.Keys, next.issued);
      HandoffRowsIdle(list, next, rs[1..]);
    }
  }

  lemma OwnRows<C>(rows: seq<Row<Linked<C>>>, t: map<Id, Row<Linked<C>>>, tasks: set<Id>, clock: nat, issued: set<Id>)
    requires Keyed(t, clock, issued) && LinksLive(t, tasks) && tasks <= issued
    requires forall r | r in rows :: r.id in t && t[r.id] == r
    ensures RowsAgree(rows, map[], t, tasks, issued)
  {
    forall r | r in rows ensures LinkAgrees(r, t, tasks, issued) { OwnLink(t, r.id, tasks, clock, issued); }
  }

  lemma NewestRows<C>(t: map<Id, Row<Linked<C>>>, listing: seq<Row<Linked<C>>>, limit: nat)
    requires IsListing(t, listing)
    ensures forall r | r in Newest(listing, limit) :: r.id in t && t[r.id] == r
    ensures Distinct(Ids(UnlinkAll(Newest(listing, limit))))
  {
    ListingDistinct(t, listing);
    NewestDistinct(listing, limit);
    UnlinkIds(Newest(listing, limit));
    forall r | r in Newest(listing, limit) ensures r in listing { NewestHas(listing, limit, r); }
  }

  lemma DecisionLinksAfterGap(k: State, gap: seq<Request>, b: seq<Request>, w: Lists)
    requires Reachable(k) && FeasibleRun(k, gap + b) && !Run(k, gap + b).deleted
    requires forall d | d in w.decisions :: d.id in k.decisions && k.decisions[d.id] == d
    ensures var k1 := Run(k, gap); var end := Run(k1, b);
            RowsAgree(ApplyAll(w, Log(k1, b)).decisions, map[], end.decisions, end.tasks.Keys, end.issued)
  {
    GapSplit(k, gap, b);
    TasksIssued(k);
    OwnRows(w.decisions, k.decisions, k.tasks.Keys, k.clock, k.issued);
    ReachableRun(k, gap);
    DecisionRowsIdle(w.decisions, k, gap);
    DecisionRowsRun(w, Run(k, gap), b, map[]);
  }

  lemma HandoffLinksAfterGap(k: State, gap: seq<Request>, b: seq<Request>, w: Lists)
    requires Reachable(k) && FeasibleRun(k, gap + b) && !Run(k, gap + b).deleted
    requires forall h | h in w.handoffs :: h.id in k.handoffs && k.handoffs[h.id] == h
    ensures var k1 := Run(k, gap); var end := Run(k1, b);
            RowsAgree(ApplyAll(w, Log(k1, b)).handoffs, map[], end.handoffs, end.tasks.Keys, end.issued)
  {
    GapSplit(k, gap, b);
    TasksIssued(k);
    OwnRows(w.handoffs, k.handoffs, k.tasks.Keys, k.clock, k.issued);
    ReachableRun(k, gap);
    HandoffRowsIdle(w.handoffs, k, gap);
    HandoffRowsRun(w, Run(k, gap), b, map[]);
  }

  /** Decisions, from the newest `limit` at the snapshot: up to links the replica and the server agree on
      one if and only if the stream mentions it, or the snapshot showed what the server has when the
      stream starts; and the link is then right too, read against the live tasks. */
  lemma DecisionGapHealsIffMentioned(k: State, gap: seq<Request>, b: seq<Request>, w: Lists,
                                     atSnapshot: seq<Decision>, limit: nat, id: Id)
    requires Reachable(k) && FeasibleRun(k, gap + b) && !Run(k, gap + b).deleted
    requires IsListing(k.decisions, atSnapshot) && w.decisions == Newest(atSnapshot, limit)
    ensures var k1 := Run(k, gap); var es := Log(k1, b); var end := Run(k1, b);
            ReadIn(ApplyAll(w, es).decisions, id, end.tasks.Keys) == RowOf(end.decisions, id)
            <==> MentionsDecision(es, id) || RowIn(UnlinkAll(w.decisions), id) == RowOf(UnlinkTable(k1.decisions), id)
  {
    var k1 := Run(k, gap);
    NewestRows(k.decisions, atSnapshot, limit);
    GapSplit(k, gap, b);
    ReachableRun(k1, b);
    DecisionLinksAfterGap(k, gap, b, w);
    var table := ListedDecisions(k1);
    DecisionsRecorded(k1, b, table);
    UnlinkKeyed(k1.decisions, k1.clock, k1.issued);
    hide Run, Log, Store.Valid, FeasibleRun, RowsAgree;
    ListingSound(UnlinkTable(k1.decisions), table, k1.clock, k1.issued);
    var es, end := Log(k1, b), Run(k1, b);
    AgreeIffNamed(AtFront, table, k1.issued, UnlinkAll(w.decisions), DecisionFeed(es), id);
    ListedRow(UnlinkTable(k1.decisions), table, id);
    ListedRow(UnlinkTable(end.decisions), TableRun(table, DecisionFeed(es)), id);
    DecisionsFollowFeed(w, es);
    DecisionFeedNames(es, id);
    ReadUnlinked(ApplyAll(w, es).decisions, end.decisions, end.tasks.Keys, end.issued, id);
  }

  /** The same for handoffs. */
  lemma HandoffGapHealsIffMentioned(k: State, gap: seq<Request>, b: seq<Request>, w: Lists,
                                    atSnapshot: seq<Handoff>, limit: nat, id: Id)
    requires Reachable(k) && FeasibleRun(k, gap + b) && !Run(k, gap + b).deleted
    requires IsListing(k.handoffs, atSnapshot) && w.handoffs == Newest(atSnapshot, limit)
    ensures var k1 := Run(k, gap); var es := Log(k1, b); var end := Run(k1, b);
            ReadIn(ApplyAll(w, es).handoffs, id, end.tasks.Keys) == RowOf(end.handoffs, id)
            <==> MentionsHandoff(es, id) || RowIn(UnlinkAll(w.handoffs), id) == RowOf(UnlinkTable(k1.handoffs), id)
  {
    var k1 := Run(k, gap);
    NewestRows(k.handoffs, atSnapshot, limit);
    GapSplit(k, gap, b);
    ReachableRun(k1, b);
    HandoffLinksAfterGap(k, gap, b, w);
    var table := ListedHandoffs(k1);
    HandoffsRecorded(k1, b, table);
    UnlinkKeyed(k1.handoffs, k1.clock, k1.issued);
    hide Run, Log, Store.Valid, FeasibleRun, RowsAgree;
    ListingSound(UnlinkTable(k1.handoffs), table, k1.clock, k1.issued);
    var es, end := Log(k1, b), Run(k1, b);
    AgreeIffNamed(AtFront, table, k1.issued, UnlinkAll(w.handoffs), HandoffFeed(es), id);
    ListedRow(UnlinkTable(k1.handoffs), table, id);
    ListedRow(UnlinkTable(end.handoffs), TableRun(table, HandoffFeed(es)), id);
    HandoffsFollowFeed(w, es);
    HandoffFeedNames(es, id);
    ReadUnlinked(ApplyAll(w, es).handoffs, end.handoffs, end.tasks.Keys, end.issued, id);
  }

  /** The snapshot was taken at `k`, the task of `r` was created next, and the stream starts after it:
      as long as the task lives, the replica shows it exactly if an update of it was published since. */
  lemma MissedUntilUpdated(k: State, r: Request, b: seq<Request>, w: Lists)
    requires Reachable(k) && r.cmd.CreateTask? && IsListing(k.tasks, w.tasks)
    requires FeasibleRun(k, [r] + b) && !Run(k, [r] + b).deleted
    requires r.uuid in Run(k, [r] + b).tasks
    ensures r.uuid in Ids(ApplyAll(w, Log(Exec(k, r).state, b)).tasks)
        <==> TaskUpdatedIn(Log(Exec(k, r).state, b), r.uuid)
  {
    var k1 := Exec(k, r).state;
    assert ([r] + b)[1..] == b;
    AliveStep(k, [r] + b);
    var pre :| FeasibleRun(EMPTY, pre) && Run(EMPTY, pre) == k;
    ValidRun(EMPTY, pre);
    ValidStep(k, r);
    GapRow(k, r, w.tasks);
    var table := w.tasks + [k1.tasks[r.uuid]];
    TasksRecorded(k1, b, table);
    hide Exec, Run, Log, Valid;
    ListingSound(k1.tasks, table, k1.clock, k1.issued) by { KeyedTasks(k1); }
    var es := Log(k1, b);
    ListingIds(Run(k1, b).tasks, TableRun(table, TaskFeed(es)), r.uuid);
    IdsConcat(w.tasks, [k1.tasks[r.uuid]]);
    ShownIffUpdated(table, k1.issued, w.tasks, TaskFeed(es), r.uuid);
    TasksFollowFeed(w, es);
    FeedUpdates(es, r.uuid);
  }

  lemma KeyedTasks(s: State)
    requires Store.Valid(s)
    ensures Keyed(s.tasks, s.clock, s.issued)
  {
  }

  lemma GapRow(k: State, r: Request, rows: seq<Task>)
    requires Store.Valid(k) && Feasible(k, r) && !k.deleted && r.cmd.CreateTask? && IsListing(k.tasks, rows)
    ensures var k1 := Exec(k, r).state;
            && r.uuid in k1.tasks && k1.tasks[r.uuid].id == r.uuid && IsListing(k1.tasks, rows + [k1.tasks[r.uuid]])
            && r.uuid !in Ids(rows)
  {
    Dispatch(k, r);
    var row := Exec(k, r).state.tasks[r.uuid];
    ListingInsert(k.tasks, rows, row);
    ListingIds(k.tasks, rows, r.uuid);
  }

  // -------------------------------------------------------------------------
  // A handler commits before it publishes
  // -------------------------------------------------------------------------

  lemma OtherRow<B>(rows: seq<Row<B>>, a: Row<B>, b: Row<B>, r: Row<B>)
    requires Distinct(Ids(rows)) && a.id in Ids(rows) && b.id in Ids(rows)
    ensures r in Upsert(Upsert(rows, a), b) <==> r == b || (r.id != b.id && (r == a || (r in rows && r.id != a.id)))
  {
    UpsertIds(rows, a);
    UpsertHas(rows, a, r);
    UpsertHas(Upsert(rows, a), b, r);
  }

  /** Two updates delivered in the other order leave the same list if and only if they concern
      different rows or write the same row. */
  lemma SwappedUpdates<B>(rows: seq<Row<B>>, a: Row<B>, b: Row<B>)
    requires Distinct(Ids(rows)) && a.id in Ids(rows) && b.id in Ids(rows)
    ensures Upsert(Upsert(rows, b), a) == Upsert(Upsert(rows, a), b) <==> a.id != b.id || a == b
  {
    var l, r := Upsert(Upsert(rows, b), a), Upsert(Upsert(rows, a), b);
    UpsertIds(rows, a);
    UpsertIds(rows, b);
    UpsertIds(Upsert(rows, a), b);
    UpsertIds(Upsert(rows, b), a);
    if a.id != b.id || a == b {
      forall x | x in l ensures x in r {
        OtherRow(rows, b, a, x);
        OtherRow(rows, a, b, x);
      }
      EqualByIds(l, r, |l|);
      WholePrefix(l, r, |l|);
    } else {
      OtherRow(rows, b, a, b);
      OtherRow(rows, a, b, b);
    }
  }
}
