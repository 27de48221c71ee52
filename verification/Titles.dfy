/** The task titles rendered beside decisions and handoffs: a replica shows the same ones as a fresh
    snapshot, although nobody told it which links became null. */
module Titles {
  import opened Common
  import opened Rows
  import opened Feed
  import opened Store
  import opened Listing
  import opened Web
  import opened Links
  import opened Replication
  import opened Convergence
  import opened Summary

  /** `taskTitle`: the title of the first listed task with the linked id, if there is a link and a match. */
  function TaskTitle(link: Option<Id>, tasks: seq<Task>): Option<string> {
    if link.None? then None
    else
      var k := FindIndex(tasks, link.value);
      if k == -1 then None else Some(tasks[k].body.title)
  }

  /** A stale link and the server's nulled link render the same title. */
  lemma TitleUnaffectedByStaleLink(link: Option<Id>, t: map<Id, Task>, tasks: seq<Task>)
    requires IsListing(t, tasks)
    ensures TaskTitle(link, tasks) == TaskTitle(Live(link, t.Keys), tasks)
    ensures TaskTitle(link, tasks).Some? <==> link.Some? && link.value in t
    ensures TaskTitle(link, tasks).Some? ==> TaskTitle(link, tasks).value == t[link.value].body.title
  {
    if link.Some? {
      ListingIds(t, tasks, link.value);
      var k := FindIndex(tasks, link.value);
      if k != -1 {
        IdsAt(tasks, k);
        assert tasks[k] in tasks;
      }
    }
  }

  lemma EndReachable(s: State, a: seq<Request>, b: seq<Request>)
    requires Subscribed(s, a, b)
    ensures Reachable(Run(s, a + b))
  {
    var pre :| FeasibleRun(EMPTY, pre) && Run(EMPTY, pre) == s;
    RunSplit(EMPTY, pre, a + b);
    assert FeasibleRun(EMPTY, pre + (a + b)) && Run(EMPTY, pre + (a + b)) == Run(s, a + b);
  }

  /** A replica row whose refreshed form is the server's row renders the server's title. */
  lemma SameTitle<C>(r: Row<Linked<C>>, t: map<Id, Row<Linked<C>>>, tasks: map<Id, Task>, list: seq<Task>)
    requires IsListing(tasks, list) && r.id in t && Refresh(r, tasks.Keys) == t[r.id]
    ensures TaskTitle(r.body.task, list) == TaskTitle(t[r.id].body.task, list)
  {
    TitleUnaffectedByStaleLink(r.body.task, tasks, list);
  }

  /** Every decision of the replica renders the task title its server row has, read off the replica's own
      task list; the two lists are loaded by separate requests, each at its own point of the stream. */
  lemma DecisionTitles(s: State, a: seq<Request>, b: seq<Request>, ta: seq<Request>, tb: seq<Request>, w: Lists,
                       atSnapshot: seq<Decision>, limit: nat, d: Decision)
    requires Subscribed(s, a, b) && ta + tb == a + b && IsListing(Run(s, ta).tasks, w.tasks)
    requires IsListing(Run(s, a).decisions, atSnapshot) && w.decisions == Newest(atSnapshot, limit)
    requires d in ApplyAll(w, Log(s, a + b)).decisions
    ensures var s', w' := Run(s, a + b), ApplyAll(w, Log(s, a + b));
            && IsListing(s'.tasks, w'.tasks) && d.id in s'.decisions
            && TaskTitle(d.body.task, w'.tasks) == TaskTitle(s'.decisions[d.id].body.task, w'.tasks)
  {
    var s', w' := Run(s, a + b), ApplyAll(w, Log(s, a + b));
    EndReachable(s, a, b);
    Sides(s, a, b);
    assert Subscribed(s, ta, tb);
    TasksConverge(s, ta, tb, w);
    var rows := ListedDecisions(s');
    assert forall x | x in s'.decisions :: s'.decisions[x].id == x;
    hide Run, Log, ApplyAll, Subscribed, Valid;
    var listing := LinkedListing(s'.decisions, rows);
    DecisionsConverge(s, a, b, w, atSnapshot, listing, limit);
    InRefreshed(w'.decisions, listing, s'.tasks.Keys, d);
    SameTitle(d, s'.decisions, s'.tasks, w'.tasks);
  }

  lemma InRefreshed<C>(list: seq<Row<Linked<C>>>, listing: seq<Row<Linked<C>>>, tasks: set<Id>, r: Row<Linked<C>>)
    requires |list| <= |listing| && RefreshAll(list, tasks) == Reverse(listing)[..|list|] && r in list
    ensures Refresh(r, tasks) in listing
  {
    var i :| 0 <= i < |list| && list[i] == r;
    RefreshAt(list, tasks, i);
    assert Reverse(listing)[..|list|][i] == Reverse(listing)[i];
    ReverseHas(listing, Reverse(listing)[i]);
  }

  /** The same for handoffs. */
  lemma HandoffTitles(s: State, a: seq<Request>, b: seq<Request>, ta: seq<Request>, tb: seq<Request>, w: Lists,
                       atSnapshot: seq<Handoff>, limit: nat, h: Handoff)
    requires Subscribed(s, a, b) && ta + tb == a + b && IsListing(Run(s, ta).tasks, w.tasks)
    requires IsListing(Run(s, a).handoffs, atSnapshot) && w.handoffs == Newest(atSnapshot, limit)
    requires h in ApplyAll(w, Log(s, a + b)).handoffs
    ensures var s', w' := Run(s, a + b), ApplyAll(w, Log(s, a + b));
            && IsListing(s'.tasks, w'.tasks) && h.id in s'.handoffs
            && TaskTitle(h.body.task, w'.tasks) == TaskTitle(s'.handoffs[h.id].body.task, w'.tasks)
  {
    var s', w' := Run(s, a + b), ApplyAll(w, Log(s, a + b));
    EndReachable(s, a, b);
    Sides(s, a, b);
    assert Subscribed(s, ta, tb);
    TasksConverge(s, ta, tb, w);
    var rows := ListedHandoffs(s');
    assert forall x | x in s'.handoffs :: s'.handoffs[x].id == x;
    hide Run, Log, ApplyAll, Subscribed, Valid;
    var listing := LinkedListing(s'.handoffs, rows);
    HandoffsConverge(s, a, b, w, atSnapshot, listing, limit);
    SameTitle(h, s'.handoffs, s'.tasks, w'.tasks);
  }
}
