/** The JetBrains client: the same protocol with Java futures. A timed-out future stays in the
    pending map until its response or the next clean-up; callers cannot tell the difference. */
module HubRpcClient {
  import opened Common
  import opened Rpc
  import opened HubBridgeClient

  datatype Jb = Jb(nextId: nat, pending: set<nat>, promises: map<nat, Promise>, running: bool)

  const FRESH_JB := Jb(1, {}, map[], false)

  /** The exception made of an error response keeps its code; the HTTP status is not passed on. */
  function FromResponse(b: Body): Promise {
    if b.Result? then Resolved(b.value) else Rejected(b.code, None, Remote)
  }

  /** A promise without its HTTP status. */
  function Erase(p: Promise): Promise {
    if p.Rejected? then p.(status := None) else p
  }

  function EraseAll(promises: map<nat, Promise>): map<nat, Promise> {
    map id | id in promises :: Erase(promises[id])
  }

  /** Nothing was rejected with an HTTP status. */
  ghost predicate NoStatus(promises: map<nat, Promise>) {
    forall id | id in promises && promises[id].Rejected? :: promises[id].status == None
  }

  function Complete(promises: map<nat, Promise>, ids: set<nat>, to: Promise): map<nat, Promise> {
    map id | id in promises :: if id in ids then Rpc.Settle(promises[id], to) else promises[id]
  }

  /** `request`; a failed write takes the entry out again and fails the future. */
  function Ask(c: Jb, writeFails: bool): Jb {
    if !c.running then c
    else
      var id := c.nextId;
      c.(nextId := id + 1, pending := if writeFails then c.pending - {id} else c.pending + {id},
         promises := c.promises[id := if writeFails then Local(WriteFailed) else Unsettled])
  }

  /** The entry of a request whose write threw is taken out and its future fails. */
  function Unwritten(c: Jb, id: nat): Jb {
    c.(pending := c.pending - {id}, promises := Complete(c.promises, {id}, Local(WriteFailed)))
  }

  lemma NotAsked(c: Jb, writeFails: bool)
    requires !c.running
    ensures Ask(c, writeFails) == c
  {
  }

  /** A request with a failing write is a request whose write is then undone. */
  lemma AskThenFail(c: Jb)
    requires c.running
    ensures Ask(c, true) == Unwritten(Ask(c, false), c.nextId)
  {
    assert Ask(c, true).promises == Unwritten(Ask(c, false), c.nextId).promises;
    assert c.pending + {c.nextId} - {c.nextId} == c.pending - {c.nextId};
  }

  function Answer(c: Jb, r: Reply): Jb {
    if r.id !in c.pending then c
    else c.(pending := c.pending - {r.id}, promises := Complete(c.promises, {r.id}, FromResponse(r.body)))
  }

  /** `orTimeout` completes the future and leaves the entry where it is. */
  function Expire(c: Jb, id: nat): Jb { c.(promises := Complete(c.promises, {id}, Local(TimedOut))) }

  function FailAll(c: Jb, cause: Cause): Jb {
    c.(pending := {}, promises := Complete(c.promises, c.pending, Local(cause)))
  }

  /** The reader thread reaches the end of the bridge's output. */
  function End(c: Jb): Jb { FailAll(c.(running := false), Exited) }

  /** `close`: ask the bridge to shut down, stop it, fail what is left. */
  function Closed(c: Jb, writeFails: bool): Jb { FailAll(Ask(c, writeFails).(running := false), Disposed) }

  // -------------------------------------------------------------------------
  // Both clients on one schedule
  // -------------------------------------------------------------------------

  datatype Happening = Connects | Asks(writeFails: bool) | Answers(reply: Reply) | Expires(id: nat) | Ends

  function JbStep(c: Jb, h: Happening): Jb {
    match h
    case Connects => c.(running := true)
    case Asks(writeFails) => Ask(c, writeFails)
    case Answers(r) => Answer(c, r)
    case Expires(id) => Expire(c, id)
    case Ends => if c.running then End(c) else c
  }

  function VsStep(c: Client, h: Happening): Client {
    match h
    case Connects => PreflightDone(StartCalled(c), true)
    case Asks(writeFails) => if Running(c) && writeFails then WriteFails(Issue(c), c.nextId) else Issue(c)
    case Answers(r) => Receive(c, r)
    case Expires(id) => TimerFires(c, id)
    case Ends => if Running(c) then Exit(c) else c
  }

  function JbPlay(c: Jb, hs: seq<Happening>): Jb
    decreases |hs|
  {
    if hs == [] then c else JbPlay(JbStep(c, hs[0]), hs[1..])
  }

  function VsPlay(c: Client, hs: seq<Happening>): Client
    decreases |hs|
  {
    if hs == [] then c else VsPlay(VsStep(c, hs[0]), hs[1..])
  }

  /** Equal ids, and equal promises but for the HTTP status; the JetBrains map holds at least the
      entries of the VS Code map, the others being requests that already failed. */
  ghost predicate SameToCallers(v: Client, j: Jb) {
    && Books(v) && v.nextId == j.nextId && Running(v) == j.running && !v.stopped && v.starting == 0
    && EraseAll(v.promises) == j.promises
    && v.pending <= j.pending
    && (forall id | id in j.pending - v.pending :: id in j.promises && j.promises[id] == Local(TimedOut))
  }

  lemma SettledAlready(c: Client, j: Jb, ids: set<nat>, to: Promise)
    requires SameToCallers(c, j)
    ensures Complete(j.promises, ids, to) == Complete(j.promises, ids * c.pending, to)
  {
    var l, r := Complete(j.promises, ids, to), Complete(j.promises, ids * c.pending, to);
    forall id | id in l ensures l[id] == r[id] {
    }
  }

  lemma SameAnswer(v: Client, j: Jb, r: Reply)
    requires SameToCallers(v, j)
    ensures SameToCallers(Receive(v, r), Answer(j, r))
  {
    SettledAlready(v, j, {r.id}, FromResponse(r.body));
    assert EraseAll(Receive(v, r).promises) == Answer(j, r).promises;
  }

  lemma SameExpiry(v: Client, j: Jb, id: nat)
    requires SameToCallers(v, j)
    ensures SameToCallers(TimerFires(v, id), Expire(j, id))
  {
    SettledAlready(v, j, {id}, Local(TimedOut));
    assert EraseAll(TimerFires(v, id).promises) == Expire(j, id).promises;
  }

  lemma SameEnd(v: Client, j: Jb)
    requires SameToCallers(v, j)
    ensures SameToCallers(Exit(v), End(j))
  {
    SettledAlready(v, j, j.pending, Local(Exited));
    assert j.pending * v.pending == v.pending;
    ExitBooks(v);
    assert EraseAll(Exit(v).promises) == End(j).promises;
  }

  lemma SameAsk(v: Client, j: Jb, writeFails: bool)
    requires SameToCallers(v, j)
    ensures SameToCallers(VsStep(v, Asks(writeFails)), JbStep(j, Asks(writeFails)))
  {
    assert EraseAll(VsStep(v, Asks(writeFails)).promises) == JbStep(j, Asks(writeFails)).promises;
  }

  lemma SameConnect(v: Client, j: Jb)
    requires SameToCallers(v, j)
    ensures SameToCallers(VsStep(v, Connects), JbStep(j, Connects))
  {
  }

  lemma SameRunning(v: Client, j: Jb)
    requires SameToCallers(v, j)
    ensures Running(v) == j.running
  {
  }

  lemma SameStep(v: Client, j: Jb, h: Happening)
    requires SameToCallers(v, j)
    ensures SameToCallers(VsStep(v, h), JbStep(j, h))
  {
    hide SameToCallers, Receive, Answer, Exit, End, Issue, Ask, TimerFires, Expire, Running;
    match h
    case Connects => SameConnect(v, j);
    case Asks(writeFails) => SameAsk(v, j, writeFails);
    case Answers(r) => SameAnswer(v, j, r);
    case Expires(id) => SameExpiry(v, j, id);
    case Ends =>
      SameRunning(v, j);
      SameEnd(v, j);
  }

  /** The clients settled all promises alike if and only if no hub HTTP error reached a promise. */
  lemma AlikeIffNoStatus(v: Client, j: Jb)
    requires SameToCallers(v, j)
    ensures v.promises == j.promises <==> NoStatus(v.promises)
  {
    if v.promises == j.promises {
      forall id | id in v.promises && v.promises[id].Rejected? ensures v.promises[id].status == None {
        assert EraseAll(v.promises)[id] == v.promises[id];
      }
    }
    if NoStatus(v.promises) {
      assert EraseAll(v.promises) == v.promises;
    }
  }

  /** On every schedule of requests, answers, timeouts, failed writes, exits and reconnects the two
      clients hand out the same ids and settle every promise the same way, up to the HTTP status that only
      VS Code passes on. */
  lemma {:induction false} ClientsAgree(v: Client, j: Jb, hs: seq<Happening>)
    requires SameToCallers(v, j)
    ensures SameToCallers(VsPlay(v, hs), JbPlay(j, hs))
    decreases |hs|
  {
    hide SameToCallers, VsStep, JbStep;
    if hs != [] {
      SameStep(v, j, hs[0]);
      ClientsAgree(VsStep(v, hs[0]), JbStep(j, hs[0]), hs[1..]);
    }
  }

  /** One request answered with a hub HTTP error is rejected with the status in VS Code only. */
  lemma HttpErrorDiffers(status: int)
    ensures var hs := [Connects, Asks(false), Answers(Reply(1, Error(SERVER, Some(status))))];
            && VsPlay(FRESH_CLIENT, hs).promises == map[1 := Rejected(SERVER, Some(status), Remote)]
            && JbPlay(FRESH_JB, hs).promises == map[1 := Rejected(SERVER, None, Remote)]
  {
    var hs := [Connects, Asks(false), Answers(Reply(1, Error(SERVER, Some(status))))];
    assert hs[1..] == [hs[1], hs[2]] && [hs[1], hs[2]][1..] == [hs[2]] && [hs[2]][1..] == [];
    var v1, j1 := VsStep(FRESH_CLIENT, hs[0]), JbStep(FRESH_JB, hs[0]);
    var v2, j2 := VsStep(v1, hs[1]), JbStep(j1, hs[1]);
    var v3, j3 := VsStep(v2, hs[2]), JbStep(j2, hs[2]);
    assert v2.promises == map[1 := Unsettled] == j2.promises && v2.pending == {1} == j2.pending;
    assert VsPlay(v3, []) == v3 && VsPlay(v2, [hs[2]]) == v3 && VsPlay(v1, [hs[1], hs[2]]) == v3;
    assert JbPlay(j3, []) == j3 && JbPlay(j2, [hs[2]]) == j3 && JbPlay(j1, [hs[1], hs[2]]) == j3;
  }

  /** From a fresh start, whatever happened before: disposing the one and closing the other leaves
      nothing pending and every earlier promise settled alike. */
  lemma CloseAgrees(hs: seq<Happening>, writeFails: bool)
    ensures var v, j := VsPlay(FRESH_CLIENT, hs), JbPlay(FRESH_JB, hs);
            var v', j' := Rpc.Dispose(v), Closed(j, writeFails);
            && EraseAll(v.promises) == j.promises && v'.pending == j'.pending == {}
            && (forall id | id in v.promises ::
                  && id in v'.promises && id in j'.promises
                  && Erase(v'.promises[id]) == j'.promises[id] && !v'.promises[id].Unsettled?)
  {
    assert EraseAll(FRESH_CLIENT.promises) == FRESH_JB.promises;
    ClientsAgree(FRESH_CLIENT, FRESH_JB, hs);
  }

  // -------------------------------------------------------------------------
  // The client object
  // -------------------------------------------------------------------------

  /** `HubRpcClient`; its futures are first-settlement-wins like the VS Code promises. */
  class HubRpcClient {
    var nextId: nat
    var pending: map<nat, Deferred>
    var running: bool
    ghost var issued: map<nat, Deferred>
    ghost var handed: set<Deferred>

    constructor ()
      ensures Valid() && Model() == FRESH_JB
    {
      nextId, pending, running := 1, map[], false;
      issued, handed := map[], {};
    }

    ghost predicate Valid()
      reads this
    {
      && (forall id | id in pending :: id in issued && pending[id] == issued[id])
      && (forall id | id in issued :: id < nextId && issued[id] in handed && issued[id].request == id)
    }

    ghost function Model(): Jb
      requires Valid()
      reads this, handed
    {
      Jb(nextId, pending.Keys, map id | id in issued :: issued[id].state, running)
    }

    method Request(writeFails: bool) returns (future: Deferred)
      requires Valid()
      modifies this
      ensures Valid() && Model() == Ask(old(Model()), writeFails) && fresh(future)
      ensures handed == if old(running) then old(handed) + {future} else old(handed)
      ensures !old(running) ==> future.state == Local(NotRunning)
      ensures old(running) ==> old(nextId) in issued && issued[old(nextId)] == future
      ensures old(running) ==> future.state == if writeFails then Local(WriteFailed) else Unsettled
    {
      hide Ask, Complete;
      future := new Deferred(nextId);
      if !running {
        NotAsked(Model(), writeFails);
        future.Settle(Local(NotRunning));
      } else {
        Book(future);
        if writeFails {
          AskThenFail(old(Model()));
          FailWrite(future);
        }
      }
    }

    /** The write threw: the entry is taken out and the future fails. */
    method FailWrite(future: Deferred)
      requires Valid() && future.request in issued && issued[future.request] == future
      modifies this`pending, future
      ensures Valid() && Model() == Unwritten(old(Model()), future.request)
      ensures future.state == Rpc.Settle(old(future.state), Local(WriteFailed))
    {
      pending := pending - {future.request};
      future.Settle(Local(WriteFailed));
      assert Model().promises == Unwritten(old(Model()), future.request).promises;
    }

    /** The future gets the next id and its entry. */
    method Book(future: Deferred)
      requires Valid() && running && future !in handed && future.request == nextId && future.state.Unsettled?
      modifies this
      ensures Valid() && Model() == Ask(old(Model()), false) && handed == old(handed) + {future}
      ensures issued == old(issued)[old(nextId) := future]
    {
      var id := nextId;
      nextId := nextId + 1;
      pending := pending[id := future];
      issued, handed := issued[id := future], handed + {future};
      assert Model().promises == Ask(old(Model()), false).promises;
    }

    method HandleResponse(r: Reply)
      requires Valid()
      modifies this, handed
      ensures Valid() && Model() == Answer(old(Model()), r)
    {
      if r.id in pending {
        var future := pending[r.id];
        pending := pending - {r.id};
        future.Settle(if r.body.Error? then Rejected(r.body.code, None, Remote) else Resolved(r.body.value));
        assert Model().promises == Answer(old(Model()), r).promises;
      }
    }

    method OnTimeout(id: nat, future: Deferred)
      requires Valid() && id in issued && issued[id] == future
      modifies handed
      ensures Valid() && Model() == Expire(old(Model()), id)
    {
      future.Settle(Local(TimedOut));
      assert Model().promises == Expire(old(Model()), id).promises;
    }

    /** `failAll`: complete every pending future, then clear the map. */
    method FailEverything(cause: Cause)
      requires Valid()
      modifies this, handed
      ensures Valid() && Model() == FailAll(old(Model()), cause)
    {
      ghost var before := Model();
      var left := pending.Keys;
      while left != {}
        invariant handed == old(handed) && issued == old(issued) && pending == old(pending) && Valid()
        invariant left <= pending.Keys
        invariant Model() == before.(promises := Complete(before.promises, pending.Keys - left, Local(cause)))
        decreases left
      {
        var id :| id in left;
        FailOne(id, before, left, cause);
        left := left - {id};
      }
      pending := map[];
    }

    method FailOne(id: nat, ghost before: Jb, ghost left: set<nat>, cause: Cause)
      requires Valid() && id in left && left <= pending.Keys
      requires Model() == before.(promises := Complete(before.promises, pending.Keys - left, Local(cause)))
      modifies handed
      ensures Valid()
      ensures Model() == before.(promises := Complete(before.promises, pending.Keys - (left - {id}), Local(cause)))
    {
      pending[id].Settle(Local(cause));
      assert Model().promises == Complete(before.promises, pending.Keys - (left - {id}), Local(cause));
    }

    /** The process is gone: nothing runs and nothing can be answered any more. */
    method StopAndFail(cause: Cause)
      requires Valid()
      modifies this, handed
      ensures Valid() && Model() == FailAll(old(Model()).(running := false), cause)
    {
      hide Complete;
      running := false;
      assert Model() == old(Model()).(running := false);
      FailEverything(cause);
    }

    method OnReaderEnd()
      requires Valid()
      modifies this, handed
      ensures Valid() && Model() == End(old(Model()))
    {
      StopAndFail(Exited);
    }

    method Close(writeFails: bool)
      requires Valid()
      modifies this, handed
      ensures Valid() && Model() == Closed(old(Model()), writeFails)
    {
      hide Ask, Complete;
      if running {
        var answer := Request(writeFails);
      } else {
        NotAsked(Model(), writeFails);
      }
      StopAndFail(Disposed);
    }
  }
}
