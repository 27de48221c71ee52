/** A subscriber that fell behind: which tasks its dashboard still shows correctly when events were
    dropped for it. */
module Lossy {
  import opened Common
  import opened Rows
  import opened Feed
  import opened Store
  import opened Listing
  import opened Web
  import opened Replication
  import opened Convergence
  import opened LastWord
  import opened Delivery
  import Bus

  datatype Marked<+E> = Marked(event: E, heard: bool)

  /** The slug's stream from a position on, each event marked as dropped or not. */
  function Stream<E>(log: seq<Bus.Published<E>>, slug: string, from: nat, dropped: seq<nat>): seq<Marked<E>>
    decreases |log| - from
  {
    if from >= |log| then []
    else (if log[from].slug == slug then [Marked(log[from].event, from !in dropped)] else [])
         + Stream(log, slug, from + 1, dropped)
  }

  function Published<E>(ms: seq<Marked<E>>): seq<E> {
    if ms == [] then [] else [ms[0].event] + Published(ms[1..])
  }

  function Heard<E>(ms: seq<Marked<E>>): seq<E> {
    if ms == [] then [] else (if ms[0].heard then [ms[0].event] else []) + Heard(ms[1..])
  }

  lemma StreamStep<E>(log: seq<Bus.Published<E>>, slug: string, from: nat, dropped: seq<nat>)
    requires from < |log|
    ensures var rest := Stream(log, slug, from + 1, dropped); var all := Stream(log, slug, from, dropped);
            && Published(all) == (if log[from].slug == slug then [log[from].event] else []) + Published(rest)
            && Heard(all)
               == (if log[from].slug == slug && from !in dropped then [log[from].event] else []) + Heard(rest)
  {
    var rest := Stream(log, slug, from + 1, dropped);
    if log[from].slug == slug {
      var first := Marked(log[from].event, from !in dropped);
      assert ([first] + rest)[1..] == rest;
    } else {
      assert [] + rest == rest;
    }
  }

  lemma {:induction false} PublishedIsStream<E>(log: seq<Bus.Published<E>>, slug: string, from: nat, dropped: seq<nat>)
    ensures Published(Stream(log, slug, from, dropped)) == Bus.OnSlug(log, slug, from)
    decreases |log| - from
  {
    if from < |log| {
      PublishedIsStream(log, slug, from + 1, dropped);
      StreamStep(log, slug, from, dropped);
    }
  }

  /** Increasing positions that are the slug's from `from` on except the dropped ones read off what was heard. */
  lemma {:induction false} HeardPositions<E>(log: seq<Bus.Published<E>>, slug: string, from: nat, at: seq<nat>,
                                             dropped: seq<nat>)
    requires Bus.Increasing(at)
    requires forall i: nat :: i in at <==> from <= i < |log| && log[i].slug == slug && i !in dropped
    ensures Bus.EventsAt(log, at) == Heard(Stream(log, slug, from, dropped))
    decreases |log| - from
  {
    if from >= |log| {
      Bus.HeadIn(at);
    } else {
      StreamStep(log, slug, from, dropped);
      if log[from].slug == slug && from !in dropped {
        assert from in at;
        assert at[0] == from by { Bus.HeadIsLeast(at, from); }
        var rest := at[1..];
        forall i: nat
          ensures i in rest <==> from + 1 <= i < |log| && log[i].slug == slug && i !in dropped
        {
          Bus.RestOf(at, i);
        }
        HeardPositions(log, slug, from + 1, rest, dropped);
      } else {
        HeardPositions(log, slug, from + 1, at, dropped);
      }
    }
  }

  /** What a subscriber accepted is what it heard of its stream. */
  lemma AcceptedIsHeard<E>(s: Bus.Sub, log: seq<Bus.Published<E>>)
    requires Bus.Conserved(s, log)
    ensures forall i | i in s.accepted :: i < |log|
    ensures Bus.EventsAt(log, s.accepted) == Heard(Stream(log, s.slug, s.since, s.dropped))
  {
    forall i: nat ensures i in s.accepted <==> s.since <= i < |log| && log[i].slug == s.slug && i !in s.dropped {
      assert Bus.Relevant(s, log, i) <==> (i in s.accepted || i in s.dropped);
    }
    HeardPositions(log, s.slug, s.since, s.accepted, s.dropped);
  }

  // -------------------------------------------------------------------------
  // One task
  // -------------------------------------------------------------------------

  predicate About(e: Event, id: Id) {
    TaskChanges(e) != [] && Names(TaskChanges(e)[0], id)
  }

  /** No event about the task was published, or the last one was heard. */
  predicate LastHeard(ms: seq<Marked<Event>>, id: Id, sofar: bool)
    decreases |ms|
  {
    if ms == [] then sofar else LastHeard(ms[1..], id, if About(ms[0].event, id) then ms[0].heard else sofar)
  }

  /** What a reader of these events believes of the task, having believed `start`. */
  function Belief(es: seq<Event>, id: Id, start: Option<Task>): Option<Task> {
    LastSaid(TaskFeed(es), id, start)
  }

  lemma BeliefStep(e: Event, es: seq<Event>, id: Id, start: Option<Task>)
    ensures Belief([e] + es, id, start) == Belief(es, id, if About(e, id) then Effect(TaskChanges(e)[0]) else start)
  {
    var first, rest := TaskChanges(e), TaskFeed(es);
    assert ([e] + es)[1..] == es && TaskFeed([e] + es) == first + rest;
    if first == [] {
      assert first + rest == rest;
    } else {
      assert (first + rest)[1..] == rest;
    }
  }

  /** When the last event about a task was heard, what was dropped before it does not matter. */
  lemma {:induction false} HeardSuffices(ms: seq<Marked<Event>>, id: Id, sofar: bool, x: Option<Task>, y: Option<Task>)
    requires LastHeard(ms, id, sofar) && (sofar ==> x == y)
    ensures Belief(Heard(ms), id, x) == Belief(Published(ms), id, y)
    decreases |ms|
  {
    if ms != [] {
      var e, heard := ms[0].event, ms[0].heard;
      var x' := if heard && About(e, id) then Effect(TaskChanges(e)[0]) else x;
      var y' := if About(e, id) then Effect(TaskChanges(e)[0]) else y;
      hide Belief, About;
      BeliefStep(e, Published(ms[1..]), id, y);
      if heard {
        BeliefStep(e, Heard(ms[1..]), id, x);
      } else {
        assert Heard(ms) == Heard(ms[1..]);
      }
      HeardSuffices(ms[1..], id, if About(e, id) then heard else sofar, x', y');
    }
  }

  lemma NamedFirst(e: Event, es: seq<Event>, id: Id)
    ensures NamedBy(TaskFeed([e] + es), id) <==> About(e, id) || NamedBy(TaskFeed(es), id)
  {
    var first, rest := TaskChanges(e), TaskFeed(es);
    assert ([e] + es)[1..] == es && TaskFeed([e] + es) == first + rest;
    if first == [] {
      assert first + rest == rest;
    } else {
      assert (first + rest)[1..] == rest;
    }
  }

  /** Once something was published about the task, only that decides whether its last event was heard. */
  lemma {:induction false} LastHeardDecided(ms: seq<Marked<Event>>, id: Id)
    requires NamedBy(TaskFeed(Published(ms)), id)
    ensures LastHeard(ms, id, true) == LastHeard(ms, id, false)
    decreases |ms|
  {
    if ms != [] {
      NamedFirst(ms[0].event, Published(ms[1..]), id);
      if !About(ms[0].event, id) {
        LastHeardDecided(ms[1..], id);
      }
    }
  }

  /** A snapshot row of a task the whole stream is silent about is the row the stream started from. */
  lemma SilentSince(s: State, a: seq<Request>, b: seq<Request>, id: Id)
    requires Subscribed(s, a, b) && !NamedBy(TaskFeed(Log(s, a + b)), id)
    ensures RowOf(Run(s, a).tasks, id) == RowOf(s.tasks, id)
  {
    Sides(s, a, b);
    var rows := ListedTasks(s);
    var fa, fb := TaskFeed(Log(s, a)), TaskFeed(Log(Run(s, a), b));
    TasksRecorded(s, a, rows);
    ListingSound(s.tasks, rows, s.clock, s.issued);
    TaskFeedConcat(Log(s, a), Log(Run(s, a), b));
    ListedRow(s.tasks, rows, id);
    ListedRow(Run(s, a).tasks, TableRun(rows, fa), id);
    hide Run, Log, Valid, Subscribed;
    TableSays(rows, s.issued, fa, id);
    if NamedBy(fa, id) { NamedEither(fa, fb, id); }
    LastSaidNamed(fa, id, RowIn(rows, id), None);
  }

  lemma {:induction false} NamedEither<B>(a: seq<Change<B>>, b: seq<Change<B>>, id: Id)
    requires NamedBy(a, id)
    ensures NamedBy(a + b, id)
  {
    assert (a + b)[0] == a[0] && (a + b)[1..] == a[1..] + b;
    if !Names(a[0], id) {
      NamedEither(a[1..], b, id);
    }
  }

  /** The server's row is what its whole log says. */
  lemma ServerBelieves(s: State, rs: seq<Request>, id: Id)
    requires Subscribed(s, [], rs)
    ensures RowOf(Run(s, rs).tasks, id) == Belief(Log(s, rs), id, RowOf(s.tasks, id))
  {
    assert [] + rs == rs;
    Sides(s, [], rs);
    var rows := ListedTasks(s);
    TasksRecorded(s, rs, rows);
    ListingSound(s.tasks, rows, s.clock, s.issued);
    ListedRow(s.tasks, rows, id);
    ListedRow(Run(s, rs).tasks, TableRun(rows, TaskFeed(Log(s, rs))), id);
    TableSays(rows, s.issued, TaskFeed(Log(s, rs)), id);
  }

  /** A dashboard fed with only part of the stream, its snapshot taken after `a`: its row of a task is what
      it last heard, the server's is what was last published, and the two are equal as soon as the last
      event about the task was heard: drops of earlier ones do not matter. */
  lemma PartlyHeard(s: State, a: seq<Request>, b: seq<Request>, w: Lists, ms: seq<Marked<Event>>, id: Id)
    requires Subscribed(s, a, b) && IsListing(Run(s, a).tasks, w.tasks) && Published(ms) == Log(s, a + b)
    ensures var shown := RowIn(ApplyAll(w, Heard(ms)).tasks, id); var stored := RowOf(Run(s, a + b).tasks, id);
            && shown == Belief(Heard(ms), id, RowOf(Run(s, a).tasks, id))
            && stored == Belief(Published(ms), id, RowOf(s.tasks, id))
            && (LastHeard(ms, id, true) ==> shown == stored)
  {
    var k := RowOf(Run(s, a).tasks, id);
    assert [] + (a + b) == a + b;
    ServerBelieves(s, a + b, id);
    TasksFollowFeed(w, Heard(ms));
    ListingDistinct(Run(s, a).tasks, w.tasks);
    ListedRow(Run(s, a).tasks, w.tasks, id);
    ClientSays(AtEnd, w.tasks, TaskFeed(Heard(ms)), id);
    if LastHeard(ms, id, true) {
      if NamedBy(TaskFeed(Published(ms)), id) {
        LastHeardDecided(ms, id);
        HeardSuffices(ms, id, false, k, RowOf(s.tasks, id));
      } else {
        SilentSince(s, a, b, id);
        HeardSuffices(ms, id, true, k, RowOf(s.tasks, id));
      }
    }
  }

  /** End to end: whatever was dropped for a subscriber that has drained its queue, its dashboard agrees
      with the server on every task whose last event was not dropped, and on any task exactly if what it
      last heard, or else its snapshot, says what was last published. */
  lemma LossyDashboard<K>(s: State, h: Bus.Hub<K, Event>, before: seq<Step<K>>, rest: seq<Step<K>>, who: K,
      w: Lists, id: Id)
    requires Bus.Valid(h) && who in h.subs && h.subs[who] == Bus.Sub(SLUG, |h.log|, [], 0, [])
    requires Listening(before + rest, who)
    requires Subscribed(s, Requests(before), Requests(rest))
    requires IsListing(After(s, before).tasks, w.tasks)
    ensures var h' := Bus.ActAll(h, BusRun(s, before + rest));
            && Bus.Valid(h') && who in h'.subs
            && (Bus.Backlog(h'.subs[who]) == 0 ==>
                  var ms := Stream(h'.log, SLUG, |h.log|, h'.subs[who].dropped);
                  var shown := RowIn(ApplyAll(w, Received(h', who)).tasks, id);
                  var stored := RowOf(After(s, before + rest).tasks, id);
                  && Received(h', who) == Heard(ms) && Published(ms) == Log(s, Requests(before + rest))
                  && (LastHeard(ms, id, true) ==> shown == stored)
                  && (shown == stored <==>
                        Belief(Heard(ms), id, RowOf(After(s, before).tasks, id))
                        == Belief(Published(ms), id, RowOf(s.tasks, id))))
  {
    var acts := BusRun(s, before + rest);
    var h' := Bus.ActAll(h, acts);
    RunPublishesLog(s, before + rest, who);
    Bus.ValidActAll(h, acts);
    Bus.SubExtends(h, acts, who);
    if Bus.Backlog(h'.subs[who]) == 0 {
      var sub := h'.subs[who];
      var ms := Stream(h'.log, SLUG, |h.log|, sub.dropped);
      AcceptedIsHeard(sub, h'.log);
      Whole(sub.accepted);
      assert Received(h', who) == Heard(ms);
      StreamGrows(h, acts, |h.log|);
      PublishedIsStream(h'.log, SLUG, |h.log|, sub.dropped);
      hide Exec, ExecLive, Subscribed, Received, IsListing, Bus.Valid, Belief, Stream, Published, Heard;
      ListeningPrefix(before, rest, who);
      RunPublishesLog(s, before, who);
      RequestsConcat(before, rest);
      PartlyHeard(s, Requests(before), Requests(rest), w, ms, id);
    }
  }
}
