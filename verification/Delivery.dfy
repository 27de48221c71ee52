/** Store, bus and dashboard together: what a subscriber that keeps up with the bus receives is
    exactly the store's event log, so the dashboard it feeds converges. */
module Delivery {
  import opened Common
  import opened Rows
  import opened Store
  import opened Listing
  import opened Web
  import opened Feed
  import opened Links
  import opened Convergence
  import Bus

  /** A handler call, or a bus action that publishes nothing on this workspace's slug. */
  datatype Step<+K> = Serve(request: Request) | Elsewhere(action: Bus.Action<K, Event>)

  datatype World<!K> = World(state: State, hub: Bus.Hub<K, Event>)

  /** What a step does to the bus: a handler publishes its event, if it has one, on the slug. */
  function Acts<K>(s: State, step: Step<K>): seq<Bus.Action<K, Event>> {
    match step
    case Serve(r) => if Exec(s, r).events == [] then [] else [Bus.Publish(SLUG, Exec(s, r).events[0])]
    case Elsewhere(a) => [a]
  }

  function After(s: State, steps: seq<Step>): State
    decreases |steps|
  {
    if steps == [] then s
    else After(if steps[0].Serve? then Exec(s, steps[0].request).state else s, steps[1..])
  }

  /** The bus actions of a whole run. */
  function BusRun<K>(s: State, steps: seq<Step<K>>): seq<Bus.Action<K, Event>>
    decreases |steps|
  {
    if steps == [] then []
    else Acts(s, steps[0]) + BusRun(if steps[0].Serve? then Exec(s, steps[0].request).state else s, steps[1..])
  }

  function Requests(steps: seq<Step>): seq<Request> {
    if steps == [] then [] else (if steps[0].Serve? then [steps[0].request] else []) + Requests(steps[1..])
  }

  /** Nothing else publishes on the slug, and `who` does not leave. */
  ghost predicate Listening<K>(steps: seq<Step<K>>, who: K) {
    forall i | 0 <= i < |steps| && steps[i].Elsewhere? ::
      steps[i].action != Bus.Unsubscribe(who) && !(steps[i].action.Publish? && steps[i].action.slug == SLUG)
  }

  /** What `who` was handed so far. */
  ghost function Received<K>(h: Bus.Hub<K, Event>, who: K): seq<Event>
    requires Bus.Valid(h) && who in h.subs
  {
    Bus.LosslessIffNothingDropped(h.subs[who], h.log);
    SliceIn(h.subs[who].accepted, h.subs[who].taken);
    Bus.EventsAt(h.log, h.subs[who].accepted[..h.subs[who].taken])
  }

  lemma {:induction false} OnSlugAppend<E>(log: seq<Bus.Published<E>>, p: Bus.Published<E>, slug: string, from: nat)
    requires from <= |log|
    ensures Bus.OnSlug(log + [p], slug, from)
            == Bus.OnSlug(log, slug, from) + if p.slug == slug then [p.event] else []
    decreases |log| - from
  {
    if from < |log| {
      OnSlugAppend(log, p, slug, from + 1);
    } else {
      assert Bus.OnSlug(log + [p], slug, from + 1) == [];
    }
  }

  /** The events an action list publishes on the slug. */
  function OnWorkspace<K>(acts: seq<Bus.Action<K, Event>>): seq<Event> {
    if acts == [] then []
    else (if acts[0].Publish? && acts[0].slug == SLUG then [acts[0].event] else []) + OnWorkspace(acts[1..])
  }

  lemma {:induction false} StreamGrows<K>(h: Bus.Hub<K, Event>, acts: seq<Bus.Action<K, Event>>, from: nat)
    requires from <= |h.log|
    ensures |h.log| <= |Bus.ActAll(h, acts).log|
    ensures Bus.OnSlug(Bus.ActAll(h, acts).log, SLUG, from) == Bus.OnSlug(h.log, SLUG, from) + OnWorkspace(acts)
    decreases |acts|
  {
    if acts != [] {
      StreamGrows(Bus.Act(h, acts[0]), acts[1..], from);
      if acts[0].Publish? {
        OnSlugAppend(h.log, Bus.Published(acts[0].slug, acts[0].event), SLUG, from);
      }
    }
  }

  lemma ListeningRest<K>(steps: seq<Step<K>>, who: K)
    requires steps != [] && Listening(steps, who)
    ensures Listening(steps[1..], who)
    ensures steps[0].Elsewhere? ==>
              steps[0].action != Bus.Unsubscribe(who) && !(steps[0].action.Publish? && steps[0].action.slug == SLUG)
  {
    var rest := steps[1..];
    forall i | 0 <= i < |rest| && rest[i].Elsewhere?
      ensures rest[i].action != Bus.Unsubscribe(who) && !(rest[i].action.Publish? && rest[i].action.slug == SLUG)
    {
      assert rest[i] == steps[i + 1];
    }
  }

  /** The run publishes on the slug exactly the store's log of the requests it serves. */
  lemma {:induction false} RunPublishesLog<K>(s: State, steps: seq<Step<K>>, who: K)
    requires Listening(steps, who)
    ensures After(s, steps) == Run(s, Requests(steps))
    ensures OnWorkspace(BusRun(s, steps)) == Log(s, Requests(steps))
    ensures Bus.Stays(BusRun(s, steps), who)
    decreases |steps|
  {
    hide Exec, Listening, OnWorkspace, Bus.Stays;
    if steps == [] {
      NothingPublished(who);
    } else {
      var s' := if steps[0].Serve? then Exec(s, steps[0].request).state else s;
      ListeningRest(steps, who);
      RunPublishesLog(s', steps[1..], who);
      OnWorkspaceStep(Acts(s, steps[0]), BusRun(s', steps[1..]), who);
      if steps[0].Serve? {
        OneEventAtMost(s, steps[0].request);
        var rs := Requests(steps);
        assert rs[0] == steps[0].request && rs[1..] == Requests(steps[1..]);
      } else {
        assert Requests(steps) == Requests(steps[1..]);
      }
    }
  }

  lemma NothingPublished<K>(who: K)
    ensures OnWorkspace<K>([]) == [] && Bus.Stays<K, Event>([], who)
  {
  }

  lemma OneEventAtMost(s: State, r: Request)
    ensures |Exec(s, r).events| <= 1
  {
    HandlersFrame(s, r);
  }

  lemma OnWorkspaceStep<K>(first: seq<Bus.Action<K, Event>>, rest: seq<Bus.Action<K, Event>>, who: K)
    requires |first| <= 1 && Bus.Stays(rest, who) && (first != [] ==> first[0] != Bus.Unsubscribe(who))
    ensures OnWorkspace(first + rest)
            == (if first != [] && first[0].Publish? && first[0].slug == SLUG then [first[0].event] else [])
               + OnWorkspace(rest)
    ensures Bus.Stays(first + rest, who)
  {
    if first == [] {
      assert first + rest == rest;
    } else {
      assert (first + rest)[1..] == rest;
      var all := first + rest;
      forall i | 0 <= i < |all| ensures all[i] != Bus.Unsubscribe(who) {
        if i > 0 { assert all[i] == rest[i - 1]; }
      }
    }
  }

  /** A subscription opened at `s` that lost nothing and has drained its queue received the whole
      log of the requests served since, whatever the other subscribers and workspaces did. */
  lemma ReceivesTheLog<K>(s: State, h: Bus.Hub<K, Event>, steps: seq<Step<K>>, who: K)
    requires Bus.Valid(h) && who in h.subs && h.subs[who] == Bus.Sub(SLUG, |h.log|, [], 0, [])
    requires Listening(steps, who)
    ensures var h' := Bus.ActAll(h, BusRun(s, steps));
            && Bus.Valid(h') && who in h'.subs
            && (h'.subs[who].dropped == [] && Bus.Backlog(h'.subs[who]) == 0 ==>
                  Received(h', who) == Log(s, Requests(steps)))
  {
    var acts := BusRun(s, steps);
    RunPublishesLog(s, steps, who);
    Bus.ValidActAll(h, acts);
    Bus.SubExtends(h, acts, who);
    var h' := Bus.ActAll(h, acts);
    if h'.subs[who].dropped == [] && Bus.Backlog(h'.subs[who]) == 0 {
      Bus.LosslessIffNothingDropped(h'.subs[who], h'.log);
      Whole(h'.subs[who].accepted);
      StreamGrows(h, acts, |h.log|);
    }
  }

  /** End to end: a dashboard that subscribed at `s`, loaded its snapshot after the requests of
      `before`, and was handed everything without a drop shows the server's task list. */
  lemma DashboardConverges<K>(s: State, h: Bus.Hub<K, Event>, before: seq<Step<K>>, rest: seq<Step<K>>, who: K,
      w: Lists)
    requires Bus.Valid(h) && who in h.subs && h.subs[who] == Bus.Sub(SLUG, |h.log|, [], 0, [])
    requires Listening(before + rest, who)
    requires Subscribed(s, Requests(before), Requests(rest))
    requires IsListing(After(s, before).tasks, w.tasks)
    ensures var h' := Bus.ActAll(h, BusRun(s, before + rest));
            && Bus.Valid(h') && who in h'.subs
            && (h'.subs[who].dropped == [] && Bus.Backlog(h'.subs[who]) == 0 ==>
                  IsListing(After(s, before + rest).tasks, ApplyAll(w, Received(h', who)).tasks))
  {
    hide Exec, ExecLive, Subscribed, Received, IsListing;
    ReceivesTheLog(s, h, before + rest, who);
    RunPublishesLog(s, before + rest, who);
    ListeningPrefix(before, rest, who);
    RunPublishesLog(s, before, who);
    RequestsConcat(before, rest);
    TasksConverge(s, Requests(before), Requests(rest), w);
  }

  /** The same for decisions, through the snapshot's twenty-row limit and the links cleared behind its
      back: a prefix of the server's listing that misses nothing it could know, and all of it when the
      snapshot was not cut. */
  lemma DashboardDecisionsConverge<K>(s: State, h: Bus.Hub<K, Event>, before: seq<Step<K>>, rest: seq<Step<K>>, who: K,
                                      w: Lists, atSnapshot: seq<Decision>, listing: seq<Decision>)
    requires Bus.Valid(h) && who in h.subs && h.subs[who] == Bus.Sub(SLUG, |h.log|, [], 0, [])
    requires Listening(before + rest, who)
    requires Subscribed(s, Requests(before), Requests(rest))
    requires IsListing(After(s, before).decisions, atSnapshot) && w.decisions == Newest(atSnapshot, SNAPSHOT_LIMIT)
    requires IsListing(After(s, before + rest).decisions, listing)
    ensures var h' := Bus.ActAll(h, BusRun(s, before + rest)); var tasks := After(s, before + rest).tasks.Keys;
            && Bus.Valid(h') && who in h'.subs
            && (h'.subs[who].dropped == [] && Bus.Backlog(h'.subs[who]) == 0 ==>
                  var list := ApplyAll(w, Received(h', who)).decisions;
                  && |list| <= |listing| && RefreshAll(list, tasks) == Reverse(listing)[..|list|]
                  && KeepsAll(list, w.decisions, atSnapshot, listing, |list|)
                  && (|atSnapshot| <= SNAPSHOT_LIMIT ==> RefreshAll(list, tasks) == Reverse(listing)))
  {
    hide Exec, ExecLive, Subscribed, Received, IsListing, KeepsAll;
    ReceivesTheLog(s, h, before + rest, who);
    RunPublishesLog(s, before + rest, who);
    ListeningPrefix(before, rest, who);
    RunPublishesLog(s, before, who);
    RequestsConcat(before, rest);
    DecisionsConverge(s, Requests(before), Requests(rest), w, atSnapshot, listing, SNAPSHOT_LIMIT);
  }

  /** And for handoffs: every row is the server's current row read against the live tasks, the newest
      are in order, and with an uncut snapshot the list is the server's newest-first listing. */
  lemma DashboardHandoffsConverge<K>(s: State, h: Bus.Hub<K, Event>, before: seq<Step<K>>, rest: seq<Step<K>>, who: K,
                                     w: Lists, atSnapshot: seq<Handoff>, listing: seq<Handoff>)
    requires Bus.Valid(h) && who in h.subs && h.subs[who] == Bus.Sub(SLUG, |h.log|, [], 0, [])
    requires Listening(before + rest, who)
    requires Subscribed(s, Requests(before), Requests(rest))
    requires IsListing(After(s, before).handoffs, atSnapshot) && w.handoffs == Newest(atSnapshot, SNAPSHOT_LIMIT)
    requires IsListing(After(s, before + rest).handoffs, listing)
    ensures var h' := Bus.ActAll(h, BusRun(s, before + rest)); var s' := After(s, before + rest);
            && Bus.Valid(h') && who in h'.subs
            && (h'.subs[who].dropped == [] && Bus.Backlog(h'.subs[who]) == 0 ==>
                  var list := ApplyAll(w, Received(h', who)).handoffs;
                  && (exists p: nat :: ShowsServer(list, listing, s'.handoffs, s'.tasks.Keys, p)
                                    && KeepsAll(list, w.handoffs, atSnapshot, listing, p))
                  && (|atSnapshot| <= SNAPSHOT_LIMIT ==> RefreshAll(list, s'.tasks.Keys) == Reverse(listing)))
  {
    hide Exec, ExecLive, Subscribed, Received, IsListing, ShowsServer, KeepsAll;
    ReceivesTheLog(s, h, before + rest, who);
    RunPublishesLog(s, before + rest, who);
    ListeningPrefix(before, rest, who);
    RunPublishesLog(s, before, who);
    RequestsConcat(before, rest);
    HandoffsConverge(s, Requests(before), Requests(rest), w, atSnapshot, listing, SNAPSHOT_LIMIT);
  }

  lemma ListeningPrefix<K>(before: seq<Step<K>>, rest: seq<Step<K>>, who: K)
    requires Listening(before + rest, who)
    ensures Listening(before, who)
  {
    var all := before + rest;
    forall i | 0 <= i < |before| && before[i].Elsewhere?
      ensures before[i].action != Bus.Unsubscribe(who) && !(before[i].action.Publish? && before[i].action.slug == SLUG)
    {
      assert before[i] == all[i];
    }
  }

  lemma {:induction false} RequestsConcat<K>(a: seq<Step<K>>, b: seq<Step<K>>)
    ensures Requests(a + b) == Requests(a) + Requests(b)
    decreases |a|
  {
    if a == [] {
      assert a + b == b;
    } else {
      assert (a + b)[0] == a[0] && (a + b)[1..] == a[1..] + b;
      RequestsConcat(a[1..], b);
      var first := if a[0].Serve? then [a[0].request] else [];
      assert first + (Requests(a[1..]) + Requests(b)) == (first + Requests(a[1..])) + Requests(b);
    }
  }
}
