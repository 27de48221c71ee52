/** What each thing that can happen does to a request, in every state the system can reach: which promise
    settles, how, and what else stays as it was. */
module Settlement {
  import opened Common
  import opened Rpc
  import opened HubRpcClient

  /** In a reachable state the pending requests are the ones with a running timer and an open promise. */
  lemma Reached(moves: seq<Move>)
    ensures Sound(Play(START, moves))
  {
    SoundPlay(START, moves);
  }

  // -------------------------------------------------------------------------
  // VS Code
  // -------------------------------------------------------------------------

  /** A timer that runs out rejects its request and forgets it; one that was cleared does nothing. */
  lemma Timeout(moves: seq<Move>, id: nat)
    ensures var c := Play(START, moves).client; var c' := Play(START, moves + [TimerRings(id)]).client;
            if id in c.pending then
              c' == c.(pending := c.pending - {id}, timers := c.timers - {id},
                       promises := c.promises[id := Rejected(-32000, None, TimedOut)])
            else c' == c
  {
    Reached(moves);
    OneMore(moves, TimerRings(id));
  }

  /** A failed write rejects its request, unless that settled before. */
  lemma FailedWrite(moves: seq<Move>, id: nat)
    ensures var c := Play(START, moves).client; var c' := Play(START, moves + [WriteCallbackFails(id)]).client;
            if id in c.pending then
              c' == c.(pending := c.pending - {id}, timers := c.timers - {id},
                       promises := c.promises[id := Rejected(-32000, None, WriteFailed)])
            else c' == c
  {
    Reached(moves);
    OneMore(moves, WriteCallbackFails(id));
  }

  /** The end of the process, its failure and `dispose` reject what is pending, each with its own cause,
      and leave every settled promise alone. */
  lemma EverythingFails(moves: seq<Move>, last: Move, cause: Cause)
    requires (last, cause) in [(ProcErrors, ProcessFailed), (ProcExits, Exited), (ClientDisposes, Disposed)]
    ensures var c := Play(START, moves).client; var c' := Play(START, moves + [last]).client;
            && c'.pending == {} && c'.timers == {} && c'.promises.Keys == c.promises.Keys
            && (forall id | id in c.promises ::
                  c'.promises[id] == if id in c.pending then Rejected(-32000, None, cause) else c.promises[id])
            && c'.nextId == c.nextId && c'.starting == c.starting
            && c'.proc == (c.proc && last == ProcErrors) && c'.stopped == (c.stopped || last == ClientDisposes)
  {
    Reached(moves);
    OneMore(moves, last);
  }

  /** A request of a running client is written, with its timer and an open promise; without a bridge
      nothing is booked and nothing written. */
  lemma RequestBooked(moves: seq<Move>, call: Call)
    ensures var s := Play(START, moves); var s' := Play(START, moves + [ClientIssues(call)]);
            var c, id := s.client, s.client.nextId;
            if c.proc && !c.stopped then
              && s' == s.(client := s'.client, inbox := s.inbox + [Sent(id, call)], calls := s.calls[id := call])
              && s'.client == c.(nextId := id + 1, pending := c.pending + {id}, timers := c.timers + {id},
                                 promises := c.promises[id := Unsettled])
            else s' == s
  {
    OneMore(moves, ClientIssues(call));
  }

  /** `start` does nothing while the bridge runs; otherwise its preflight begins. */
  lemma Starting(moves: seq<Move>)
    ensures var c := Play(START, moves).client;
            Play(START, moves + [ClientStarts]).client
            == if c.proc && !c.stopped then c else c.(starting := c.starting + 1)
  {
    OneMore(moves, ClientStarts);
    var s := Play(START, moves);
    hide Play;
    assert Step(s, ClientStarts).client == StartCalled(s.client);
  }

  /** A passed preflight brings the bridge up, a failed one does not. */
  lemma PreflightOver(moves: seq<Move>, ok: bool)
    ensures var c := Play(START, moves).client; var c' := Play(START, moves + [PreflightEnds(ok)]).client;
            c' == if c.starting == 0 then c
                  else if ok then c.(starting := c.starting - 1, proc := true, stopped := false)
                  else c.(starting := c.starting - 1)
  {
    OneMore(moves, PreflightEnds(ok));
    var s := Play(START, moves);
    hide Play;
    assert Step(s, PreflightEnds(ok)).client == PreflightDone(s.client, ok);
  }

  lemma OneMore(moves: seq<Move>, last: Move)
    ensures Play(START, moves + [last]) == Step(Play(START, moves), last)
  {
    PlayOneMore(START, moves, last);
  }

  lemma {:induction false} PlayOneMore(s: System, moves: seq<Move>, last: Move)
    ensures Play(s, moves + [last]) == Step(Play(s, moves), last)
    decreases |moves|
  {
    hide Step;
    if moves == [] {
      assert (moves + [last])[1..] == [] && Play(Step(s, last), []) == Step(s, last);
    } else {
      PlayOneMore(Step(s, moves[0]), moves[1..], last);
      assert (moves + [last])[0] == moves[0] && (moves + [last])[1..] == moves[1..] + [last];
    }
  }

  // -------------------------------------------------------------------------
  // From request to answer
  // -------------------------------------------------------------------------

  /** What the bridge can be asked. */
  const METHOD_NAMES := ["connect", "getSummary", "listTasks", "createTask", "updateTask", "deleteTask",
                         "taskDecisions", "listDecisions", "createDecision", "deleteDecision", "listPresence",
                         "postPresence", "search", "listWorkspaces", "shutdown"]

  /** What the caller gets, by the name of the method and the way its handler ended. */
  ghost predicate Told(call: Call, ending: Ending, p: Promise) {
    if call.name !in METHOD_NAMES then p == Rejected(-32601, None, Remote)
    else match ending
      case Returns(v) => p == Resolved(v)
      case HttpStatusError(status) => p == Rejected(-32000, Some(status), Remote)
      case OtherException => p == Rejected(-32603, None, Remote)
      case _ => p == Rejected(-32602, None, Remote)
  }

  /** A request that is written, read by the bridge, handled and whose response is read settles as its
      handler ended, while every other promise, entry, handler and response stays as it is. */
  lemma RequestAnswered(moves: seq<Move>, call: Call, ending: Ending)
    requires var s := Play(START, moves); s.client.proc && !s.client.stopped && s.inbox == []
    ensures var s := Play(START, moves); var id := s.client.nextId;
            var s1 := Step(s, ClientIssues(call));
            var s2 := Step(s1, BridgeReads);
            var s3 := Step(s2, HandlerEnds(id, ending));
            var s4 := Step(s3, ClientReads(|s.outbox|));
            && s2.inbox == [] && s2.running == s.running[id := call] && s2.outbox == s.outbox && s2.client == s1.client
            && s3.running == s.running && |s3.outbox| == |s.outbox| + 1 && s3.outbox[..|s.outbox|] == s.outbox
            && s3.client == s1.client && s3.inbox == []
            && id in s4.client.promises && Told(call, ending, s4.client.promises[id])
            && s4.client.promises == s.client.promises[id := s4.client.promises[id]]
            && s4.client.pending == s.client.pending && s4.client.timers == s.client.timers
            && s4.outbox == s.outbox && s4.inbox == [] && s4.running == s.running
  {
    Reached(moves);
    var s := Play(START, moves);
    var id := s.client.nextId;
    WrittenAndHandled(s, call, ending);
    NamesAreMethods(call.name);
    ReadLast(Step(Step(Step(s, ClientIssues(call)), BridgeReads), HandlerEnds(id, ending)), s);
  }

  lemma WrittenAndHandled(s: System, call: Call, ending: Ending)
    requires Sound(s) && Running(s.client) && s.inbox == []
    ensures var id := s.client.nextId;
            var s2 := Step(Step(s, ClientIssues(call)), BridgeReads);
            var s3 := Step(s2, HandlerEnds(id, ending));
            && s2 == s.(client := Issue(s.client), calls := s.calls[id := call], running := s.running[id := call])
            && s3 == s2.(running := s.running, finished := s.finished[id := ending], outbox := s3.outbox)
            && s3.outbox == s.outbox + [RunOne(id, call, ending)]
            && id !in s.client.promises && id !in s.client.pending && id !in s.client.timers
  {
    hide RunOne, OwnAnswers;
    var id := s.client.nextId;
    var s1 := Step(s, ClientIssues(call));
    assert s1.inbox == [Sent(id, call)];
    var s2 := Step(s1, BridgeReads);
    assert s2.inbox == [];
    assert s2.running - {id} == s.running;
  }

  lemma ReadLast(s: System, before: System)
    requires |s.outbox| == |before.outbox| + 1 && s.outbox[..|before.outbox|] == before.outbox
    requires var id := before.client.nextId;
             && s.client == Issue(before.client) && Running(before.client) && s.outbox[|before.outbox|].id == id
             && id !in before.client.promises && id !in before.client.pending && id !in before.client.timers
    ensures var s' := Step(s, ClientReads(|before.outbox|)); var id := before.client.nextId;
            && s' == s.(client := s'.client, outbox := before.outbox)
            && s'.client.promises == before.client.promises[id := FromBody(s.outbox[|before.outbox|].body)]
            && s'.client.pending == before.client.pending && s'.client.timers == before.client.timers
  {
    var s' := Step(s, ClientReads(|before.outbox|));
    assert s'.outbox == before.outbox;
    assert s'.client.pending == before.client.pending;
  }

  lemma NamesAreMethods(name: string)
    ensures name in METHOD_NAMES <==> name in METHODS
  {
  }

  /** The bridge takes up requests in the order written, whichever handlers still run. */
  lemma BridgeTakesUp(moves: seq<Move>)
    ensures var s := Play(START, moves);
            if s.inbox == [] then Step(s, BridgeReads) == s
            else
              var m := s.inbox[0];
              && m.id !in s.running
              && Step(s, BridgeReads) == s.(inbox := s.inbox[1..], running := s.running[m.id := m.call])
  {
    Reached(moves);
    if Play(START, moves).inbox != [] { assert Asked(Play(START, moves), Play(START, moves).inbox[0]); }
  }

  /** A handler that ends writes one response, after all written before it. */
  lemma HandlerAnswers(moves: seq<Move>, id: nat, ending: Ending)
    requires id in Play(START, moves).running
    ensures var s := Play(START, moves); var s' := Step(s, HandlerEnds(id, ending));
            && s' == s.(running := s.running - {id}, finished := s.finished[id := ending], outbox := s'.outbox)
            && |s'.outbox| == |s.outbox| + 1 && s'.outbox[..|s.outbox|] == s.outbox
            && s'.outbox[|s.outbox|].id == id
            && Told(s.running[id], ending, FromBody(s'.outbox[|s.outbox|].body))
  {
    NamesAreMethods(Play(START, moves).running[id].name);
  }

  // -------------------------------------------------------------------------
  // JetBrains
  // -------------------------------------------------------------------------

  /** Every future handed out is on record, and an open one has its entry. */
  ghost predicate JbBooks(c: Jb) {
    && (forall id: nat :: id in c.promises <==> 1 <= id < c.nextId)
    && (forall id | id in c.promises && c.promises[id].Unsettled? :: id in c.pending)
    && (forall id | id in c.pending :: id in c.promises) && 1 <= c.nextId
  }

  lemma {:induction false} JbBooksPlay(c: Jb, hs: seq<Happening>)
    requires JbBooks(c)
    ensures JbBooks(JbPlay(c, hs))
    decreases |hs|
  {
    if hs != [] {
      JbBooksPlay(JbStep(c, hs[0]), hs[1..]);
    }
  }

  /** A future that times out fails and keeps its entry; one that is settled already is left alone. */
  lemma FutureTimesOut(c: Jb, id: nat)
    requires id in c.promises
    ensures JbStep(c, Expires(id))
            == if c.promises[id].Unsettled? then c.(promises := c.promises[id := Rejected(-32000, None, TimedOut)])
               else c
  {
    var to := if c.promises[id].Unsettled? then Rejected(-32000, None, TimedOut) else c.promises[id];
    assert JbStep(c, Expires(id)).promises == c.promises[id := to];
  }

  /** A request of a running client gets the next id, an entry and an open future; a failed write takes
      the entry out again and fails the future. */
  lemma FutureIssued(hs: seq<Happening>, writeFails: bool)
    ensures var c := JbPlay(FRESH_JB, hs); var c', id := JbStep(c, Asks(writeFails)), c.nextId;
            if !c.running then c' == c
            else if writeFails then
              c' == c.(nextId := id + 1, promises := c.promises[id := Rejected(-32000, None, WriteFailed)])
            else c' == c.(nextId := id + 1, pending := c.pending + {id}, promises := c.promises[id := Unsettled])
  {
    JbBooksPlay(FRESH_JB, hs);
  }

  /** A response to an entry takes it out and settles its future, unless the future had timed out. */
  lemma FutureAnswered(c: Jb, r: Reply)
    requires JbBooks(c)
    ensures var c' := JbStep(c, Answers(r));
            if r.id !in c.pending then c' == c
            else
              && c' == c.(pending := c.pending - {r.id}, promises := c.promises[r.id := c'.promises[r.id]])
              && c'.promises[r.id]
                 == if !c.promises[r.id].Unsettled? then c.promises[r.id]
                    else match r.body
                         case Result(value) => Resolved(value)
                         case Error(code, _) => Rejected(code, None, Remote)
  {
    if r.id in c.pending {
      var c' := JbStep(c, Answers(r));
      assert c'.promises == c.promises[r.id := c'.promises[r.id]];
    }
  }

  /** The end of the output and `close` fail every open future, each with its own cause, and stop the client. */
  lemma FuturesEnd(c: Jb, writeFails: bool)
    requires JbBooks(c)
    ensures var c' := JbStep(c, Ends);
            && !c'.running && (!c.running ==> c' == c)
            && (c.running ==> FailedOpen(c, c', Exited) && c'.pending == {} && c'.nextId == c.nextId)
    ensures var c' := Closed(c, writeFails);
            && !c'.running && c'.pending == {} && FailedOpen(c, c', Disposed)
            && c'.nextId == (if c.running then c.nextId + 1 else c.nextId)
            && (c.running ==> c.nextId in c'.promises
                              && c'.promises[c.nextId]
                                 == Rejected(-32000, None, if writeFails then WriteFailed else Disposed))
  {
  }

  ghost predicate FailedOpen(c: Jb, c': Jb, cause: Cause) {
    forall id | id in c.promises :: id in c'.promises
      && c'.promises[id] == if c.promises[id].Unsettled? then Rejected(-32000, None, cause) else c.promises[id]
  }
}
