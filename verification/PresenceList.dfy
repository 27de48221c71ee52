/** The presence list. Its order follows what the client saw, so it is compared with the server's rows
    actor by actor: every row shown is the server's current one. */
module PresenceList {
  import opened Common
  import opened Rows
  import opened Feed
  import opened Store
  import opened Web
  import opened LastWord
  import opened Clients

  function PresenceChanges(e: Event): seq<Change<PresenceBody>> {
    if e.PresenceUpdated? then [Update(e.presence)] else []
  }

  function PresenceFeed(es: seq<Event>): seq<Change<PresenceBody>> {
    if es == [] then [] else PresenceChanges(es[0]) + PresenceFeed(es[1..])
  }

  lemma {:induction false} PresenceFeedConcat(a: seq<Event>, b: seq<Event>)
    ensures PresenceFeed(a + b) == PresenceFeed(a) + PresenceFeed(b)
  {
    if a == [] {
      assert a + b == b;
    } else {
      assert (a + b)[0] == a[0] && (a + b)[1..] == a[1..] + b;
      PresenceFeedConcat(a[1..], b);
      Assoc(PresenceChanges(a[0]), PresenceFeed(a[1..]), PresenceFeed(b));
    }
  }

  lemma PresenceApplied(w: Lists, e: Event)
    ensures ApplyEvent(w, e).presence == ClientRun(AtEnd, w.presence, PresenceChanges(e))
  {
    if e.PresenceUpdated? { One(AtEnd, w.presence, PresenceChanges(e)[0]); }
  }

  lemma {:induction false} PresenceFollowsFeed(w: Lists, es: seq<Event>)
    ensures ApplyAll(w, es).presence == ClientRun(AtEnd, w.presence, PresenceFeed(es))
    decreases |es|
  {
    if es != [] {
      PresenceApplied(w, es[0]);
      PresenceFollowsFeed(ApplyEvent(w, es[0]), es[1..]);
      hide ApplyEvent, ClientRun, PresenceChanges;
      ClientConcat(AtEnd, w.presence, PresenceChanges(es[0]), PresenceFeed(es[1..]));
    }
  }

  function StoredAs(presence: map<string, Presence>, name: string): Option<Presence> {
    if name in presence then Some(presence[name]) else None
  }

  /** The stream carries a heartbeat of this actor. */
  predicate SeenIn(es: seq<Event>, name: string) {
    es != [] && ((es[0].PresenceUpdated? && es[0].presence.body.actorName == name) || SeenIn(es[1..], name))
  }

  ghost predicate Shows(rows: seq<Presence>, name: string) {
    exists r | r in rows :: r.body.actorName == name
  }

  lemma {:induction false} SeenIffNamed(es: seq<Event>, actors: map<string, Presence>, name: string)
    requires BoundStream(es, actors) && OneIdPerActor(actors) && name in actors
    ensures NamedBy(PresenceFeed(es), actors[name].id) <==> SeenIn(es, name)
  {
    if es != [] {
      var first, rest := PresenceChanges(es[0]), PresenceFeed(es[1..]);
      SeenIffNamed(es[1..], actors, name);
      if first == [] {
        assert first + rest == rest;
      } else {
        assert (first + rest)[1..] == rest;
      }
    }
  }

  lemma {:induction false} SeenBound(es: seq<Event>, actors: map<string, Presence>, name: string)
    requires BoundStream(es, actors) && SeenIn(es, name)
    ensures name in actors
  {
    if !(es[0].PresenceUpdated? && es[0].presence.body.actorName == name) {
      SeenBound(es[1..], actors, name);
    }
  }

  /** One request, as seen by the row of one actor. */
  lemma ServerSaysStep(s: State, r: Request, name: string, end: map<string, Presence>)
    requires Valid(s) && Feasible(s, r) && !s.deleted && !Exec(s, r).state.deleted
    requires ActorsKept(Exec(s, r).state.presence, end) && OneIdPerActor(end) && name in end
    ensures LastSaid(PresenceFeed(Exec(s, r).events), end[name].id, StoredAs(s.presence, name))
            == StoredAs(Exec(s, r).state.presence, name)
  {
    AliveBefore(s, r);
    HandlersFrame(s, r);
    Dispatch(s, r);
    var es := Exec(s, r).events;
    if r.cmd.UpdatePresence? {
      var row := es[0].presence;
      assert Exec(s, r).state.presence == s.presence[row.body.actorName := row];
      hide Exec, Valid, ActorsKept, OneIdPerActor, LastSaid;
      OneHeartbeat(es, end[name].id, StoredAs(s.presence, name));
      HeartbeatStored(s.presence, Exec(s, r).state.presence, row, name, end);
    } else {
      NoHeartbeat(es);
    }
  }

  /** The upserted row is the actor's, and by its id nobody else's. */
  lemma HeartbeatStored(before: map<string, Presence>, after: map<string, Presence>, row: Presence, name: string,
                        end: map<string, Presence>)
    requires after == before[row.body.actorName := row]
    requires ActorsKept(after, end) && OneIdPerActor(end) && name in end
    ensures StoredAs(after, name) == if row.id == end[name].id then Some(row) else StoredAs(before, name)
  {
    assert row.body.actorName in after && end[row.body.actorName].id == row.id;
  }

  lemma OneHeartbeat(es: seq<Event>, id: Id, start: Option<Presence>)
    requires |es| == 1 && es[0].PresenceUpdated?
    ensures LastSaid(PresenceFeed(es), id, start) == if es[0].presence.id == id then Some(es[0].presence) else start
  {
    var cs := [Update(es[0].presence)];
    assert es[1..] == [] && PresenceFeed(es) == cs + [] == cs;
    assert cs[1..] == [];
    assert LastSaid(cs[1..], id, if Names(cs[0], id) then Effect(cs[0]) else start)
           == if Names(cs[0], id) then Effect(cs[0]) else start;
  }

  lemma NoHeartbeat(es: seq<Event>)
    requires |es| <= 1 && forall e | e in es :: !e.PresenceUpdated?
    ensures PresenceFeed(es) == []
  {
    if es != [] {
      assert es[0] in es && es[1..] == [];
    }
  }

  /** The server's row of an actor is what the last heartbeat in the stream said, or the old one. */
  lemma {:induction false} ServerSays(s: State, rs: seq<Request>, name: string)
    requires Valid(s) && FeasibleRun(s, rs) && !Run(s, rs).deleted && name in Run(s, rs).presence
    ensures var end := Run(s, rs).presence;
            LastSaid(PresenceFeed(Log(s, rs)), end[name].id, StoredAs(s.presence, name)) == Some(end[name])
    decreases |rs|
  {
    if rs != [] {
      var o, end := Exec(s, rs[0]), Run(s, rs).presence;
      AliveStep(s, rs);
      ValidStep(s, rs[0]);
      ValidRun(s, rs);
      StreamBound(o.state, rs[1..]);
      OneId(Run(s, rs));
      hide Exec, Valid;
      ServerSaysStep(s, rs[0], name, end);
      ServerSays(o.state, rs[1..], name);
      PresenceFeedConcat(o.events, Log(o.state, rs[1..]));
      LastSaidConcat(PresenceFeed(o.events), PresenceFeed(Log(o.state, rs[1..])), end[name].id,
          StoredAs(s.presence, name));
    }
  }

  lemma OneId(s: State)
    requires Valid(s)
    ensures OneIdPerActor(s.presence)
  {
  }

  lemma {:induction false} NamedConcat<B>(a: seq<Change<B>>, b: seq<Change<B>>, id: Id)
    ensures NamedBy(a + b, id) <==> NamedBy(a, id) || NamedBy(b, id)
  {
    if a == [] {
      assert a + b == b;
    } else {
      assert (a + b)[0] == a[0] && (a + b)[1..] == a[1..] + b;
      NamedConcat(a[1..], b, id);
    }
  }

  /** Rows of the replica come from the snapshot or the stream. */
  lemma {:induction false} RowsFrom(list: seq<Presence>, es: seq<Event>, actors: map<string, Presence>, r: Presence)
    requires BoundStream(es, actors) && (forall q | q in list :: Bound(q, actors))
    requires r in ClientRun(AtEnd, list, PresenceFeed(es))
    ensures Bound(r, actors)
    decreases |es|
  {
    if es == [] {
      assert ClientRun(AtEnd, list, PresenceFeed(es)) == list;
    } else {
      var first := PresenceChanges(es[0]);
      ClientConcat(AtEnd, list, first, PresenceFeed(es[1..]));
      if first != [] {
        One(AtEnd, list, first[0]);
        var next := Upsert(list, es[0].presence);
        forall q | q in next ensures Bound(q, actors) { UpsertFrom(list, es[0].presence, q); }
        RowsFrom(next, es[1..], actors, r);
      } else {
        RowsFrom(list, es[1..], actors, r);
      }
    }
  }

  /** The snapshot row of an actor the stream does not mention is the server's row still. */
  lemma Unmentioned(s: State, a: seq<Request>, b: seq<Request>, rows: seq<Presence>, name: string)
    requires Valid(s) && FeasibleRun(s, a + b) && !Run(s, a + b).deleted && name in Run(s, a + b).presence
    requires PresenceSnapshot(rows, Run(s, a))
    requires var x := Run(s, a + b).presence[name].id; !NamedBy(PresenceFeed(Log(s, a + b)), x) && RowIn(rows, x).Some?
    ensures RowIn(rows, Run(s, a + b).presence[name].id) == Some(Run(s, a + b).presence[name])
  {
    var k, end := Run(s, a), Run(s, a + b);
    var x := end.presence[name].id;
    RunSplit(s, a, b);
    ValidRun(s, a);
    ValidRun(s, a + b);
    if k.deleted { DeletedStays(k, b); }
    StreamBound(k, b);
    OneId(end);
    hide Run, Log, Valid, Exec;
    var r := RowIn(rows, x).value;
    assert r in rows && r.id == x by { RowInHas(rows, x, rows[FindIndex(rows, x)]); }
    assert r.body.actorName == name;
    ServerSays(k, b, name);
    PresenceFeedConcat(Log(s, a), Log(k, b));
    NamedConcat(PresenceFeed(Log(s, a)), PresenceFeed(Log(k, b)), x);
    LastSaidNamed(PresenceFeed(Log(k, b)), x, StoredAs(k.presence, name), None);
  }

  /** What the replica shows of one actor. */
  lemma ActorShown(s: State, a: seq<Request>, b: seq<Request>, w: Lists, name: string)
    requires Valid(s) && FeasibleRun(s, a + b) && !Run(s, a + b).deleted && name in Run(s, a + b).presence
    requires PresenceSnapshot(w.presence, Run(s, a))
    ensures var end := Run(s, a + b).presence; var x := end[name].id;
            RowIn(ApplyAll(w, Log(s, a + b)).presence, x)
            == if SeenIn(Log(s, a + b), name) || RowIn(w.presence, x).Some? then Some(end[name]) else None
  {
    var end := Run(s, a + b).presence;
    var x, feed := end[name].id, PresenceFeed(Log(s, a + b));
    ValidRun(s, a + b);
    StreamBound(s, a + b);
    OneId(Run(s, a + b));
    hide Run, Log, Valid, FeasibleRun;
    SeenIffNamed(Log(s, a + b), end, name);
    PresenceFollowsFeed(w, Log(s, a + b));
    ClientSays(AtEnd, w.presence, feed, x);
    ServerSays(s, a + b, name);
    LastSaidNamed(feed, x, RowIn(w.presence, x), StoredAs(s.presence, name));
    if !NamedBy(feed, x) && RowIn(w.presence, x).Some? {
      Unmentioned(s, a, b, w.presence, name);
    }
  }

  lemma SnapshotBound(rows: seq<Presence>, s: State, a: seq<Request>, b: seq<Request>)
    requires Valid(s) && FeasibleRun(s, a + b) && !Run(s, a + b).deleted && PresenceSnapshot(rows, Run(s, a))
    ensures forall r | r in rows :: Bound(r, Run(s, a + b).presence)
  {
    RunSplit(s, a, b);
    ValidRun(s, a);
    if Run(s, a).deleted { DeletedStays(Run(s, a), b); }
    StreamBound(Run(s, a), b);
  }

  /** Every presence row of the replica is the server's current row of its actor, each actor appears once,
      and the actors shown are exactly those of the snapshot and of the stream. */
  lemma PresenceCurrent(s: State, a: seq<Request>, b: seq<Request>, w: Lists)
    requires Valid(s) && FeasibleRun(s, a + b) && !Run(s, a + b).deleted && PresenceSnapshot(w.presence, Run(s, a))
    ensures var list, end := ApplyAll(w, Log(s, a + b)).presence, Run(s, a + b).presence;
            && Distinct(Ids(list))
            && (forall r | r in list :: r.body.actorName in end && end[r.body.actorName] == r)
            && (forall name :: Shows(list, name) <==> Shows(w.presence, name) || SeenIn(Log(s, a + b), name))
  {
    var list, end := ApplyAll(w, Log(s, a + b)).presence, Run(s, a + b).presence;
    var es := Log(s, a + b);
    PresenceFollowsFeed(w, es);
    ClientSays(AtEnd, w.presence, PresenceFeed(es), 0);
    StreamBound(s, a + b);
    SnapshotBound(w.presence, s, a, b);
    hide Run, Log, ApplyAll, FeasibleRun, Valid, RowIn, PresenceFeed, ClientRun;
    forall r | r in list ensures r.body.actorName in end && end[r.body.actorName] == r {
      RowsFrom(w.presence, es, end, r);
      ActorShown(s, a, b, w, r.body.actorName);
      RowInHas(list, r.id, r);
    }
    forall name ensures Shows(list, name) <==> Shows(w.presence, name) || SeenIn(es, name) {
      ActorListed(s, a, b, w, name);
    }
  }

  lemma ActorListed(s: State, a: seq<Request>, b: seq<Request>, w: Lists, name: string)
    requires Valid(s) && FeasibleRun(s, a + b) && !Run(s, a + b).deleted && PresenceSnapshot(w.presence, Run(s, a))
    ensures Shows(ApplyAll(w, Log(s, a + b)).presence, name)
            <==> Shows(w.presence, name) || SeenIn(Log(s, a + b), name)
  {
    var list, end := ApplyAll(w, Log(s, a + b)).presence, Run(s, a + b).presence;
    var es := Log(s, a + b);
    PresenceFollowsFeed(w, es);
    ClientSays(AtEnd, w.presence, PresenceFeed(es), 0);
    StreamBound(s, a + b);
    SnapshotBound(w.presence, s, a, b);
    ValidRun(s, a + b);
    OneId(Run(s, a + b));
    hide Run, Log, ApplyAll, FeasibleRun, Valid, PresenceFeed, ClientRun;
    if SeenIn(es, name) { SeenBound(es, end, name); }
    forall r | r in list ensures Bound(r, end) { RowsFrom(w.presence, es, end, r); }
    if name in end {
      ActorShown(s, a, b, w, name);
      ShowsIffRow(list, end, name);
      ShowsIffRow(w.presence, end, name);
    }
  }

  lemma ShowsIffRow(rows: seq<Presence>, actors: map<string, Presence>, name: string)
    requires Distinct(Ids(rows)) && OneIdPerActor(actors) && name in actors
    requires forall r | r in rows :: Bound(r, actors)
    ensures Shows(rows, name) <==> RowIn(rows, actors[name].id).Some?
  {
    var x := actors[name].id;
    if r :| r in rows && r.body.actorName == name { RowInHas(rows, x, r); }
    if RowIn(rows, x).Some? {
      var q := RowIn(rows, x).value;
      RowInHas(rows, x, rows[FindIndex(rows, x)]);
      assert q in rows && q.body.actorName == name;
    }
  }
}
