/** End-to-end replication: a replica filled from a snapshot taken somewhere inside the
    stream it applies ends up showing the server's state. */
module Convergence {
  import opened Common
  import opened Rows
  import opened Feed
  import opened Store
  import opened Listing
  import opened Web
  import opened Links
  import opened Replication

  const SNAPSHOT_LIMIT := 20

  /** The stream starts at a reachable store `s`; the snapshot is taken after `a`; the replica
      then applies everything published by `a + b`, and the workspace still exists. */
  ghost predicate Subscribed(s: State, a: seq<Request>, b: seq<Request>) {
    Reachable(s) && FeasibleRun(s, a + b) && !Run(s, a + b).deleted
  }

  lemma Sides(s: State, a: seq<Request>, b: seq<Request>)
    requires Subscribed(s, a, b)
    ensures Valid(s) && Valid(Run(s, a)) && Valid(Run(s, a + b)) && !s.deleted && !Run(s, a).deleted
    ensures Run(s, a + b) == Run(Run(s, a), b) && Log(s, a + b) == Log(s, a) + Log(Run(s, a), b)
    ensures FeasibleRun(s, a) && FeasibleRun(Run(s, a), b)
  {
    var pre :| FeasibleRun(EMPTY, pre) && Run(EMPTY, pre) == s;
    ValidRun(EMPTY, pre);
    RunSplit(s, a, b);
    ValidRun(s, a);
    ValidRun(Run(s, a), b);
    if Run(s, a).deleted { DeletedStays(Run(s, a), b); }
    if s.deleted { DeletedStays(s, a); }
  }

  // -------------------------------------------------------------------------
  // Tasks
  // -------------------------------------------------------------------------

  lemma ListedTasks(s: State) returns (rows: seq<Task>)
    requires Reachable(s) && !s.deleted
    ensures IsListing(s.tasks, rows)
  {
    var pre :| FeasibleRun(EMPTY, pre) && Run(EMPTY, pre) == s;
    TasksRecorded(EMPTY, pre, []);
    rows := TableRun([], TaskFeed(Log(EMPTY, pre)));
  }

  /** Overlap-tolerant convergence of the task list, positions included: whatever prefix of the
      stream the snapshot already contained, the replica ends with the server's listing. */
  lemma TasksConverge(s: State, a: seq<Request>, b: seq<Request>, w: Lists)
    requires Subscribed(s, a, b)
    requires IsListing(Run(s, a).tasks, w.tasks)
    ensures IsListing(Run(s, a + b).tasks, ApplyAll(w, Log(s, a + b)).tasks)
  {
    Sides(s, a, b);
    var rows := ListedTasks(s);
    var fa, fb := TaskFeed(Log(s, a)), TaskFeed(Log(Run(s, a), b));
    TasksRecorded(s, a, rows);
    TasksRecorded(s, a + b, rows);
    TaskFeedConcat(Log(s, a), Log(Run(s, a), b));
    ListingUnique(Run(s, a).tasks, w.tasks, TableRun(rows, fa));
    ListingSound(s.tasks, rows, s.clock, s.issued);
    AtEndConverges(rows, s.issued, fa, fb);
    TasksFollowFeed(w, Log(s, a + b));
  }

  // -------------------------------------------------------------------------
  // Decisions and handoffs
  // -------------------------------------------------------------------------

  /** The list, read against the live tasks, starts with the server's newest `p` rows (links
      included), and every row of it is the server's current row of that id. */
  ghost predicate ShowsServer<C>(list: seq<Row<Linked<C>>>, listing: seq<Row<Linked<C>>>,
                                 t: map<Id, Row<Linked<C>>>, tasks: set<Id>, p: nat) {
    && p <= |list| && p <= |listing|
    && RefreshAll(list, tasks)[..p] == Reverse(listing)[..p]
    && Distinct(Ids(list))
    && forall r | r in list :: r.id in t && Refresh(r, tasks) == t[r.id]
  }

  /** Every live row that was in the snapshot, or was created after it, is among the first `p`. */
  ghost predicate KeepsAll<C>(list: seq<Row<Linked<C>>>, first: seq<Row<Linked<C>>>,
                              atSnapshot: seq<Row<Linked<C>>>, listing: seq<Row<Linked<C>>>, p: nat)
    requires p <= |list|
  {
    forall x | x in Ids(listing) && (x in Ids(first) || x !in Ids(atSnapshot)) :: x in Ids(list)[..p]
  }

  lemma UnlinkNewest<C>(rows: seq<Row<Linked<C>>>, limit: nat)
    ensures UnlinkAll(Newest(rows, limit)) == Newest(UnlinkAll(rows), limit)
  {
    UnlinkSlice(Reverse(rows), Min(limit, |rows|));
    UnlinkReverse(rows);
  }

  lemma RowRefreshed<C>(list: seq<Row<Linked<C>>>, listing: seq<Row<Linked<C>>>, t: map<Id, Row<Linked<C>>>,
                        tasks: set<Id>, issued: set<Id>, r: Row<Linked<C>>)
    requires IsListing(t, listing) && RowsAgree(list, map[], t, tasks, issued) && r in list
    requires forall q | q in UnlinkAll(list) :: q in UnlinkAll(listing)
    ensures r.id in t && Refresh(r, tasks) == t[r.id]
  {
    UnlinkHas(list, r);
    var q := UnlinkFrom(listing, Unlink(r));
  }

  lemma ListRefreshed<C>(list: seq<Row<Linked<C>>>, listing: seq<Row<Linked<C>>>, t: map<Id, Row<Linked<C>>>,
                         tasks: set<Id>, issued: set<Id>, p: nat)
    requires IsListing(t, listing) && RowsAgree(list, map[], t, tasks, issued)
    requires ShowsNewest(UnlinkAll(list), UnlinkAll(listing), p)
    ensures ShowsServer(list, listing, t, tasks, p)
  {
    forall r | r in list ensures r.id in t && Refresh(r, tasks) == t[r.id] {
      RowRefreshed(list, listing, t, tasks, issued, r);
    }
    UnlinkIds(list);
    UnlinkReverse(listing);
    forall i | 0 <= i < p ensures RefreshAll(list, tasks)[i] == Reverse(listing)[i] {
      assert UnlinkAll(list)[..p][i] == UnlinkAll(Reverse(listing))[..p][i];
      UnlinkAt(list, i);
      UnlinkAt(Reverse(listing), i);
      RefreshAt(list, tasks, i);
      ReverseHas(listing, Reverse(listing)[i]);
      assert list[i] in list;
    }
  }

  /** From the mirrored unlinked lists to the lists the dashboard renders. */
  lemma MirrorShows<C>(list: seq<Row<Linked<C>>>, atSnapshot: seq<Row<Linked<C>>>, limit: nat,
                       listing: seq<Row<Linked<C>>>, t: map<Id, Row<Linked<C>>>, tasks: set<Id>, issued: set<Id>)
    returns (p: nat)
    requires IsListing(t, listing) && RowsAgree(list, map[], t, tasks, issued)
    requires Mirrors(UnlinkAll(list), UnlinkAll(atSnapshot), limit, UnlinkAll(listing))
    ensures ShowsServer(list, listing, t, tasks, p)
    ensures KeepsAll(list, Newest(atSnapshot, limit), atSnapshot, listing, p)
  {
    hide ShowsServer, KeepsAll, KeptIn, IsListing, RowsAgree;
    p :| ShowsNewest(UnlinkAll(list), UnlinkAll(listing), p)
         && KeptIn(UnlinkAll(list), UnlinkAll(atSnapshot), limit, UnlinkAll(listing), p);
    ListRefreshed(list, listing, t, tasks, issued, p);
    KeptShown(list, atSnapshot, limit, listing, p);
  }

  lemma KeptShown<C>(list: seq<Row<Linked<C>>>, atSnapshot: seq<Row<Linked<C>>>, limit: nat,
                     listing: seq<Row<Linked<C>>>, p: nat)
    requires p <= |list| && KeptIn(UnlinkAll(list), UnlinkAll(atSnapshot), limit, UnlinkAll(listing), p)
    ensures KeepsAll(list, Newest(atSnapshot, limit), atSnapshot, listing, p)
  {
    UnlinkIds(list);
    UnlinkIds(listing);
    UnlinkIds(atSnapshot);
    UnlinkIds(Newest(atSnapshot, limit));
    UnlinkNewest(atSnapshot, limit);
  }

  lemma WholeShown<C>(list: seq<Row<Linked<C>>>, listing: seq<Row<Linked<C>>>, t: map<Id, Row<Linked<C>>>,
                      tasks: set<Id>, issued: set<Id>)
    requires IsListing(t, listing) && RowsAgree(list, map[], t, tasks, issued)
    requires UnlinkAll(list) == Reverse(UnlinkAll(listing))
    ensures RefreshAll(list, tasks) == Reverse(listing)
  {
    UnlinkIds(listing);
    ListingDistinct(t, listing);
    ReverseIds(UnlinkAll(listing));
    ReverseDistinct(Ids(listing));
    forall q | q in UnlinkAll(list) ensures q in UnlinkAll(listing) { ReverseHas(UnlinkAll(listing), q); }
    ListRefreshed(list, listing, t, tasks, issued, |list|);
    WholePrefix(RefreshAll(list, tasks), Reverse(listing), |list|);
  }

  /** Rows taken from a snapshot listing, replayed up to the snapshot and then on, agree at the end. */
  lemma DecisionLinksAgree(s: State, a: seq<Request>, b: seq<Request>, w: Lists)
    requires Subscribed(s, a, b)
    requires forall d | d in w.decisions :: d.id in Run(s, a).decisions && Run(s, a).decisions[d.id] == d
    ensures var s' := Run(s, a + b);
            RowsAgree(ApplyAll(w, Log(s, a + b)).decisions, map[], s'.decisions, s'.tasks.Keys, s'.issued)
  {
    Sides(s, a, b);
    var k := Run(s, a);
    DecisionRowsRun(w, s, a, k.decisions);
    var mid := ApplyAll(w, Log(s, a));
    TasksIssued(k);
    forall d | d in mid.decisions ensures LinkAgrees(d, k.decisions, k.tasks.Keys, k.issued) {
      if d.id in k.decisions && k.decisions[d.id] == d { OwnLink(k.decisions, d.id, k.tasks.Keys, k.clock, k.issued); }
    }
    DecisionRowsRun(mid, k, b, map[]);
    ApplyConcat(w, Log(s, a), Log(k, b));
  }

  lemma HandoffLinksAgree(s: State, a: seq<Request>, b: seq<Request>, w: Lists)
    requires Subscribed(s, a, b)
    requires forall h | h in w.handoffs :: h.id in Run(s, a).handoffs && Run(s, a).handoffs[h.id] == h
    ensures var s' := Run(s, a + b);
            RowsAgree(ApplyAll(w, Log(s, a + b)).handoffs, map[], s'.handoffs, s'.tasks.Keys, s'.issued)
  {
    Sides(s, a, b);
    var k := Run(s, a);
    HandoffRowsRun(w, s, a, k.handoffs);
    var mid := ApplyAll(w, Log(s, a));
    TasksIssued(k);
    forall h | h in mid.handoffs ensures LinkAgrees(h, k.handoffs, k.tasks.Keys, k.issued) {
      if h.id in k.handoffs && k.handoffs[h.id] == h { OwnLink(k.handoffs, h.id, k.tasks.Keys, k.clock, k.issued); }
    }
    HandoffRowsRun(mid, k, b, map[]);
    ApplyConcat(w, Log(s, a), Log(k, b));
  }

  lemma ListedDecisions(s: State) returns (rows: seq<Row<DecisionCore>>)
    requires Reachable(s) && !s.deleted
    ensures IsListing(UnlinkTable(s.decisions), rows)
  {
    var pre :| FeasibleRun(EMPTY, pre) && Run(EMPTY, pre) == s;
    DecisionsRecorded(EMPTY, pre, []);
    rows := TableRun([], DecisionFeed(Log(EMPTY, pre)));
  }

  lemma ListedHandoffs(s: State) returns (rows: seq<Row<HandoffCore>>)
    requires Reachable(s) && !s.deleted
    ensures IsListing(UnlinkTable(s.handoffs), rows)
  {
    var pre :| FeasibleRun(EMPTY, pre) && Run(EMPTY, pre) == s;
    HandoffsRecorded(EMPTY, pre, []);
    rows := TableRun([], HandoffFeed(Log(EMPTY, pre)));
  }

  lemma UnlinkKeyed<C>(t: map<Id, Row<Linked<C>>>, clock: nat, issued: set<Id>)
    requires Keyed(t, clock, issued)
    ensures Keyed(UnlinkTable(t), clock, issued)
  {
  }

  /** Up to links, the decision list mirrors the server's newest-first listing. */
  lemma DecisionsMirror(s: State, a: seq<Request>, b: seq<Request>, w: Lists,
                        atSnapshot: seq<Decision>, listing: seq<Decision>, limit: nat)
    requires Subscribed(s, a, b)
    requires IsListing(Run(s, a).decisions, atSnapshot) && w.decisions == Newest(atSnapshot, limit)
    requires IsListing(Run(s, a + b).decisions, listing)
    ensures var list := ApplyAll(w, Log(s, a + b)).decisions;
            && Mirrors(UnlinkAll(list), UnlinkAll(atSnapshot), limit, UnlinkAll(listing))
            && |list| <= |listing| && UnlinkAll(list) == Reverse(UnlinkAll(listing))[..|list|]
  {
    Sides(s, a, b);
    var rows := ListedDecisions(s);
    var fa, fb := DecisionFeed(Log(s, a)), DecisionFeed(Log(Run(s, a), b));
    DecisionsRecorded(s, a, rows);
    DecisionsRecorded(s, a + b, rows);
    DecisionFeedConcat(Log(s, a), Log(Run(s, a), b));
    UnlinkListing(Run(s, a).decisions, atSnapshot);
    UnlinkListing(Run(s, a + b).decisions, listing);
    ListingUnique(UnlinkTable(Run(s, a).decisions), UnlinkAll(atSnapshot), TableRun(rows, fa));
    ListingUnique(UnlinkTable(Run(s, a + b).decisions), UnlinkAll(listing), TableRun(rows, fa + fb));
    UnlinkKeyed(s.decisions, s.clock, s.issued);
    ListingSound(UnlinkTable(s.decisions), rows, s.clock, s.issued);
    AtFrontConverges(rows, s.issued, fa, fb, limit);
    UnlinkNewest(atSnapshot, limit);
    DecisionsFollowFeed(w, Log(s, a + b));
    DecisionsNeverUpdate(Log(s, a + b));
  }

  /** Decisions: read against its own task list, the replica's list is a prefix of the server's
      newest-first listing, row for row and link for link; it is the whole listing when the
      snapshot was not cut; and no decision it could know of is missing. */
  lemma DecisionsConverge(s: State, a: seq<Request>, b: seq<Request>, w: Lists,
                          atSnapshot: seq<Decision>, listing: seq<Decision>, limit: nat)
    requires Subscribed(s, a, b)
    requires IsListing(Run(s, a).decisions, atSnapshot) && w.decisions == Newest(atSnapshot, limit)
    requires IsListing(Run(s, a + b).decisions, listing)
    ensures var list := ApplyAll(w, Log(s, a + b)).decisions; var tasks := Run(s, a + b).tasks.Keys;
            && |list| <= |listing|
            && RefreshAll(list, tasks) == Reverse(listing)[..|list|]
            && (|atSnapshot| <= limit ==> RefreshAll(list, tasks) == Reverse(listing))
            && KeepsAll(list, w.decisions, atSnapshot, listing, |list|)
  {
    var s' := Run(s, a + b);
    var list := ApplyAll(w, Log(s, a + b)).decisions;
    DecisionsMirror(s, a, b, w, atSnapshot, listing, limit);
    forall d | d in w.decisions ensures d in atSnapshot { NewestHas(atSnapshot, limit, d); }
    DecisionLinksAgree(s, a, b, w);
    var p := MirrorShows(list, atSnapshot, limit, listing, s'.decisions, s'.tasks.Keys, s'.issued);
    KeptAnywhere(list, w.decisions, atSnapshot, listing, p);
    DecisionsPrefix(list, atSnapshot, limit, listing, s'.decisions, s'.tasks.Keys, s'.issued);
    if |atSnapshot| <= limit {
      WholeShown(list, listing, s'.decisions, s'.tasks.Keys, s'.issued);
    }
  }

  lemma KeptAnywhere<C>(list: seq<Row<Linked<C>>>, first: seq<Row<Linked<C>>>,
                        atSnapshot: seq<Row<Linked<C>>>, listing: seq<Row<Linked<C>>>, p: nat)
    requires p <= |list| && KeepsAll(list, first, atSnapshot, listing, p)
    ensures KeepsAll(list, first, atSnapshot, listing, |list|)
  {
    SliceIn(Ids(list), p);
    Whole(Ids(list));
  }

  /** When the unlinked list is a whole prefix, so is the list with its links. */
  lemma DecisionsPrefix<C>(list: seq<Row<Linked<C>>>, atSnapshot: seq<Row<Linked<C>>>, limit: nat,
                           listing: seq<Row<Linked<C>>>, t: map<Id, Row<Linked<C>>>, tasks: set<Id>, issued: set<Id>)
    requires IsListing(t, listing) && RowsAgree(list, map[], t, tasks, issued)
    requires Mirrors(UnlinkAll(list), UnlinkAll(atSnapshot), limit, UnlinkAll(listing))
    requires |list| <= |listing| && UnlinkAll(list) == Reverse(UnlinkAll(listing))[..|list|]
    ensures RefreshAll(list, tasks) == Reverse(listing)[..|list|]
  {
    var p: nat :| ShowsNewest(UnlinkAll(list), UnlinkAll(listing), p);
    Whole(UnlinkAll(list));
    ListRefreshed(list, listing, t, tasks, issued, |list|);
    Whole(RefreshAll(list, tasks));
  }

  /** Up to links, the handoff list mirrors the server's newest-first listing. */
  lemma HandoffsMirror(s: State, a: seq<Request>, b: seq<Request>, w: Lists,
                       atSnapshot: seq<Handoff>, listing: seq<Handoff>, limit: nat)
    requires Subscribed(s, a, b)
    requires IsListing(Run(s, a).handoffs, atSnapshot) && w.handoffs == Newest(atSnapshot, limit)
    requires IsListing(Run(s, a + b).handoffs, listing)
    ensures var list := ApplyAll(w, Log(s, a + b)).handoffs;
            Mirrors(UnlinkAll(list), UnlinkAll(atSnapshot), limit, UnlinkAll(listing))
  {
    Sides(s, a, b);
    var rows := ListedHandoffs(s);
    var fa, fb := HandoffFeed(Log(s, a)), HandoffFeed(Log(Run(s, a), b));
    HandoffsRecorded(s, a, rows);
    HandoffsRecorded(s, a + b, rows);
    HandoffFeedConcat(Log(s, a), Log(Run(s, a), b));
    UnlinkListing(Run(s, a).handoffs, atSnapshot);
    UnlinkListing(Run(s, a + b).handoffs, listing);
    ListingUnique(UnlinkTable(Run(s, a).handoffs), UnlinkAll(atSnapshot), TableRun(rows, fa));
    ListingUnique(UnlinkTable(Run(s, a + b).handoffs), UnlinkAll(listing), TableRun(rows, fa + fb));
    UnlinkKeyed(s.handoffs, s.clock, s.issued);
    ListingSound(UnlinkTable(s.handoffs), rows, s.clock, s.issued);
    AtFrontConverges(rows, s.issued, fa, fb, limit);
    UnlinkNewest(atSnapshot, limit);
    HandoffsFollowFeed(w, Log(s, a + b));
  }

  /** Handoffs: the replica starts with the server's newest rows in order, each of its rows is the
      server's current row read against the task list, nothing it could know of is missing, and
      with an uncut snapshot the list is the server's newest-first listing. */
  lemma HandoffsConverge(s: State, a: seq<Request>, b: seq<Request>, w: Lists,
                         atSnapshot: seq<Handoff>, listing: seq<Handoff>, limit: nat)
    requires Subscribed(s, a, b)
    requires IsListing(Run(s, a).handoffs, atSnapshot) && w.handoffs == Newest(atSnapshot, limit)
    requires IsListing(Run(s, a + b).handoffs, listing)
    ensures var list := ApplyAll(w, Log(s, a + b)).handoffs; var s' := Run(s, a + b);
            && (exists p: nat :: ShowsServer(list, listing, s'.handoffs, s'.tasks.Keys, p)
                              && KeepsAll(list, w.handoffs, atSnapshot, listing, p))
            && (|atSnapshot| <= limit ==> RefreshAll(list, s'.tasks.Keys) == Reverse(listing))
  {
    var s' := Run(s, a + b);
    HandoffsMirror(s, a, b, w, atSnapshot, listing, limit);
    forall h | h in w.handoffs ensures h in atSnapshot { NewestHas(atSnapshot, limit, h); }
    HandoffLinksAgree(s, a, b, w);
    var list := ApplyAll(w, Log(s, a + b)).handoffs;
    var p := MirrorShows(list, atSnapshot, limit, listing, s'.handoffs, s'.tasks.Keys, s'.issued);
    if |atSnapshot| <= limit {
      WholeShown(list, listing, s'.handoffs, s'.tasks.Keys, s'.issued);
    }
  }
}
