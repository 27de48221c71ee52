/** JSON-RPC between an editor and the hub bridge: the bridge answers requests concurrently and
    out of order, the client matches responses to promises by id. */
module Rpc {
  import opened Common

  // -------------------------------------------------------------------------
  // The bridge
  // -------------------------------------------------------------------------

  type Json = string

  datatype Call = Call(name: string, params: Json)

  /** How a method handler ends: its value, or the exception that escapes it. */
  datatype Ending = Returns(value: Json) | BadParams | HttpStatusError(status: int) | TypeError | OtherException

  datatype Body = Result(value: Json) | Error(code: int, status: Option<int>)

  datatype Reply = Reply(id: nat, body: Body)

  const METHODS := {"connect", "getSummary", "listTasks", "createTask", "updateTask", "deleteTask", "taskDecisions",
                    "listDecisions", "createDecision", "deleteDecision", "listPresence", "postPresence", "search",
                    "listWorkspaces", "shutdown"}

  const METHOD_NOT_FOUND := -32601
  const INVALID_PARAMS := -32602
  const INTERNAL := -32603
  const SERVER := -32000

  /** `_run_one`. */
  function RunOne(id: nat, call: Call, ending: Ending): Reply {
    if call.name !in METHODS then Reply(id, Error(METHOD_NOT_FOUND, None))
    else match ending
      case Returns(v) => Reply(id, Result(v))
      case BadParams => Reply(id, Error(INVALID_PARAMS, None))
      case HttpStatusError(status) => Reply(id, Error(SERVER, Some(status)))
      case TypeError => Reply(id, Error(INVALID_PARAMS, None))
      case OtherException => Reply(id, Error(INTERNAL, None))
  }

  // -------------------------------------------------------------------------
  // The VS Code client
  // -------------------------------------------------------------------------

  datatype Cause = Remote | NotRunning | TimedOut | WriteFailed | ProcessFailed | Exited | Disposed

  datatype Promise = Unsettled | Resolved(value: Json) | Rejected(code: int, status: Option<int>, cause: Cause)

  /** `pending` and `timers` hold request ids; `promises` every promise ever handed out, by id. */
  datatype Client = Client(
    nextId: nat, pending: set<nat>, timers: set<nat>, promises: map<nat, Promise>,
    proc: bool, stopped: bool, starting: nat)

  const FRESH_CLIENT := Client(1, {}, {}, map[], false, false, 0)

  function Local(cause: Cause): Promise { Rejected(SERVER, None, cause) }

  function FromBody(b: Body): Promise {
    if b.Result? then Resolved(b.value) else Rejected(b.code, b.status, Remote)
  }

  /** A promise keeps its first settlement. */
  function Settle(p: Promise, to: Promise): Promise {
    if p.Unsettled? then to else p
  }

  /** An entry leaves the books: its timer is cleared and its promise settled. */
  function Close(c: Client, id: nat, to: Promise): Client {
    c.(pending := c.pending - {id}, timers := c.timers - {id},
       promises := if id in c.promises then c.promises[id := Settle(c.promises[id], to)] else c.promises)
  }

  function CloseSet(c: Client, ids: set<nat>, cause: Cause): Client {
    c.(pending := c.pending - ids, timers := c.timers - ids,
       promises := map id | id in c.promises ::
           if id in ids then Settle(c.promises[id], Local(cause)) else c.promises[id])
  }

  function CloseAll(c: Client, cause: Cause): Client { CloseSet(c, c.pending, cause) }

  predicate Running(c: Client) { c.proc && !c.stopped }

  function Issue(c: Client): Client {
    if !Running(c) then c
    else
      c.(nextId := c.nextId + 1, pending := c.pending + {c.nextId}, timers := c.timers + {c.nextId},
         promises := c.promises[c.nextId := Unsettled])
  }

  function Receive(c: Client, r: Reply): Client {
    if r.id !in c.pending then c else Close(c, r.id, FromBody(r.body))
  }

  function TimerFires(c: Client, id: nat): Client {
    if id !in c.timers then c else Close(c, id, Local(TimedOut))
  }

  function WriteFails(c: Client, id: nat): Client { Close(c, id, Local(WriteFailed)) }

  function ProcessError(c: Client): Client { CloseAll(c, ProcessFailed) }

  function Exit(c: Client): Client {
    if c.stopped then c.(proc := false) else CloseAll(c.(proc := false), Exited)
  }

  function Dispose(c: Client): Client { CloseAll(c.(stopped := true), Disposed).(proc := false) }

  /** `start` up to its preflight, and what happens when the preflight is over. */
  function StartCalled(c: Client): Client {
    if Running(c) then c else c.(starting := c.starting + 1)
  }

  function PreflightDone(c: Client, ok: bool): Client {
    if c.starting == 0 then c
    else if ok then c.(starting := c.starting - 1, stopped := false, proc := true)
    else c.(starting := c.starting - 1)
  }

  // -------------------------------------------------------------------------
  // Client and bridge together
  // -------------------------------------------------------------------------

  datatype Sent = Sent(id: nat, call: Call)

  /** `inbox` and `outbox` are the two pipes, `running` the handler tasks. `calls` and `finished`
      record, for every id ever issued, what was asked and how its handler ended. */
  datatype System = System(
    client: Client, inbox: seq<Sent>, running: map<nat, Call>, outbox: seq<Reply>,
    calls: map<nat, Call>, finished: map<nat, Ending>)

  const START := System(FRESH_CLIENT, [], map[], [], map[], map[])

  /** The moves of the client, the bridge and the operating system, in any order. Lines written by
      different processes may interleave, and lines may be lost when a process dies. */
  datatype Move =
    | ClientIssues(call: Call)
    | ClientReads(at: nat)
    | TimerRings(id: nat)
    | WriteCallbackFails(id: nat)
    | ProcErrors
    | ProcExits
    | ClientDisposes
    | ClientStarts
    | PreflightEnds(ok: bool)
    | BridgeReads
    | HandlerEnds(id: nat, ending: Ending)
    | RequestLost(at: nat)
    | HandlerLost(id: nat)
    | ReplyLost(at: nat)

  function DropAt<T>(s: seq<T>, at: nat): seq<T> {
    if at < |s| then s[..at] + s[at + 1..] else s
  }

  function Step(s: System, m: Move): System {
    match m
    case ClientIssues(call) =>
      if !Running(s.client) then s
      else
        var id := s.client.nextId;
        s.(client := Issue(s.client), inbox := s.inbox + [Sent(id, call)], calls := s.calls[id := call])
    case ClientReads(at) =>
      if at >= |s.outbox| then s
      else s.(client := Receive(s.client, s.outbox[at]), outbox := DropAt(s.outbox, at))
    case TimerRings(id) => s.(client := TimerFires(s.client, id))
    case WriteCallbackFails(id) => s.(client := WriteFails(s.client, id))
    case ProcErrors => s.(client := ProcessError(s.client))
    case ProcExits => s.(client := Exit(s.client))
    case ClientDisposes => s.(client := Dispose(s.client))
    case ClientStarts => s.(client := StartCalled(s.client))
    case PreflightEnds(ok) => s.(client := PreflightDone(s.client, ok))
    case BridgeReads =>
      if s.inbox == [] then s
      else s.(inbox := s.inbox[1..], running := s.running[s.inbox[0].id := s.inbox[0].call])
    case HandlerEnds(id, ending) =>
      if id !in s.running then s
      else
        s.(running := s.running - {id}, finished := s.finished[id := ending],
           outbox := s.outbox + [RunOne(id, s.running[id], ending)])
    case RequestLost(at) => s.(inbox := DropAt(s.inbox, at))
    case HandlerLost(id) => s.(running := s.running - {id})
    case ReplyLost(at) => s.(outbox := DropAt(s.outbox, at))
  }

  function Play(s: System, moves: seq<Move>): System
    decreases |moves|
  {
    if moves == [] then s else Play(Step(s, moves[0]), moves[1..])
  }

  // -------------------------------------------------------------------------
  // Invariants
  // -------------------------------------------------------------------------

  /** Issued = pending + settled; a timer runs exactly for the pending ones; nothing is pending
      without a process to answer. */
  ghost predicate Books(c: Client) {
    && 1 <= c.nextId && c.pending == c.timers
    && (forall id: nat :: id in c.promises <==> 1 <= id < c.nextId)
    && (forall id: nat :: id in c.pending <==> id in c.promises && c.promises[id].Unsettled?)
    && (!Running(c) ==> c.pending == {})
  }

  /** The promise is unsettled, failed locally, or holds the answer its own request produced. */
  ghost predicate Own(id: nat, p: Promise, calls: map<nat, Call>, finished: map<nat, Ending>) {
    p.Resolved? || (p.Rejected? && p.cause == Remote) ==>
      id in calls && id in finished && p == FromBody(RunOne(id, calls[id], finished[id]).body)
  }

  ghost predicate OwnAnswers(s: System) {
    forall id | id in s.client.promises :: Own(id, s.client.promises[id], s.calls, s.finished)
  }

  ghost predicate Asked(s: System, m: Sent) {
    m.id in s.calls && s.calls[m.id] == m.call && m.id !in s.running && m.id !in s.finished
  }

  ghost predicate Wires(s: System) {
    && (forall id: nat :: id in s.calls <==> 1 <= id < s.client.nextId)
    && (forall i | 0 <= i < |s.inbox| :: Asked(s, s.inbox[i]))
    && (forall i, j | 0 <= i < j < |s.inbox| :: s.inbox[i].id != s.inbox[j].id)
    && (forall id | id in s.running :: id in s.calls && s.calls[id] == s.running[id] && id !in s.finished)
    && (forall id | id in s.finished :: id in s.calls)
    && (forall i | 0 <= i < |s.outbox| :: Answered(s, s.outbox[i]))
  }

  ghost predicate Answered(s: System, r: Reply) {
    r.id in s.finished && r.id in s.calls && r == RunOne(r.id, s.calls[r.id], s.finished[r.id])
  }

  ghost predicate Sound(s: System) {
    Books(s.client) && Wires(s) && OwnAnswers(s)
  }

  lemma CloseBooks(c: Client, id: nat, to: Promise)
    requires Books(c) && !to.Unsettled?
    ensures Books(Close(c, id, to))
  {
  }

  lemma CloseAllBooks(c: Client, cause: Cause)
    requires Books(c)
    ensures Books(CloseAll(c, cause)) && CloseAll(c, cause).pending == {}
  {
  }

  lemma ClientBooks(s: System, m: Move)
    requires Books(s.client)
    ensures Books(Step(s, m).client)
  {
    var c := s.client;
    match m
    case ClientReads(at) => if at < |s.outbox| { CloseBooks(c, s.outbox[at].id, FromBody(s.outbox[at].body)); }
    case TimerRings(id) => CloseBooks(c, id, Local(TimedOut));
    case WriteCallbackFails(id) => CloseBooks(c, id, Local(WriteFailed));
    case ProcErrors => CloseAllBooks(c, ProcessFailed);
    case ProcExits => ExitBooks(c);
    case ClientDisposes => DisposeBooks(c);
    case _ =>
  }

  lemma ExitBooks(c: Client)
    requires Books(c)
    ensures Books(Exit(c)) && Exit(c).pending == {}
  {
  }

  lemma DisposeBooks(c: Client)
    requires Books(c)
    ensures Books(Dispose(c)) && Dispose(c).pending == {}
  {
  }

  lemma RepliesAfterDrop(s: System, at: nat)
    requires forall i | 0 <= i < |s.outbox| :: Answered(s, s.outbox[i])
    ensures forall i | 0 <= i < |DropAt(s.outbox, at)| :: Answered(s, DropAt(s.outbox, at)[i])
  {
    var rest := DropAt(s.outbox, at);
    forall i | 0 <= i < |rest| ensures Answered(s, rest[i]) {
      assert rest[i] == s.outbox[if at < |s.outbox| && i >= at then i + 1 else i];
    }
  }

  lemma RequestsAfterDrop(s: System, at: nat)
    requires Wires(s)
    ensures Wires(s.(inbox := DropAt(s.inbox, at)))
  {
    var s' := s.(inbox := DropAt(s.inbox, at));
    forall i | 0 <= i < |s'.inbox| ensures Asked(s', s'.inbox[i]) {
      assert s'.inbox[i] == s.inbox[if at < |s.inbox| && i >= at then i + 1 else i];
      assert Asked(s, s'.inbox[i]);
    }
    forall i, j | 0 <= i < j < |s'.inbox| ensures s'.inbox[i].id != s'.inbox[j].id {
      assert s'.inbox[i] == s.inbox[if at < |s.inbox| && i >= at then i + 1 else i];
      assert s'.inbox[j] == s.inbox[if at < |s.inbox| && j >= at then j + 1 else j];
    }
  }

  lemma IssueWires(s: System, call: Call)
    requires Sound(s) && Running(s.client)
    ensures Wires(Step(s, ClientIssues(call)))
  {
    var s' := Step(s, ClientIssues(call));
    forall i | 0 <= i < |s'.inbox| ensures Asked(s', s'.inbox[i]) {
      if i < |s.inbox| { assert Asked(s, s.inbox[i]); }
    }
    forall i | 0 <= i < |s'.outbox| ensures Answered(s', s'.outbox[i]) { assert Answered(s, s.outbox[i]); }
    forall i, j | 0 <= i < j < |s'.inbox| ensures s'.inbox[i].id != s'.inbox[j].id { assert Asked(s, s.inbox[i]); }
  }

  lemma ReadWires(s: System)
    requires Wires(s) && s.inbox != []
    ensures Wires(Step(s, BridgeReads))
  {
    var s' := Step(s, BridgeReads);
    assert Asked(s, s.inbox[0]);
    forall i | 0 <= i < |s'.inbox| ensures Asked(s', s'.inbox[i]) {
      assert s'.inbox[i] == s.inbox[i + 1] && Asked(s, s.inbox[i + 1]);
    }
    forall i | 0 <= i < |s'.outbox| ensures Answered(s', s'.outbox[i]) { assert Answered(s, s.outbox[i]); }
  }

  lemma EndWires(s: System, id: nat, ending: Ending)
    requires Wires(s) && id in s.running
    ensures Wires(Step(s, HandlerEnds(id, ending)))
  {
    var s' := Step(s, HandlerEnds(id, ending));
    forall i | 0 <= i < |s'.inbox| ensures Asked(s', s'.inbox[i]) { assert Asked(s, s.inbox[i]); }
    forall i | 0 <= i < |s'.outbox| ensures Answered(s', s'.outbox[i]) {
      if i < |s.outbox| { assert Answered(s, s.outbox[i]); }
    }
  }

  lemma LostWires(s: System, id: nat)
    requires Wires(s)
    ensures Wires(Step(s, HandlerLost(id)))
  {
    var s' := Step(s, HandlerLost(id));
    forall i | 0 <= i < |s'.inbox| ensures Asked(s', s'.inbox[i]) { assert Asked(s, s.inbox[i]); }
    forall i | 0 <= i < |s'.outbox| ensures Answered(s', s'.outbox[i]) { assert Answered(s, s.outbox[i]); }
  }

  /** Only the id counter of the client matters to the wires. */
  lemma OtherClient(s: System, s': System)
    requires Wires(s) && s' == s.(client := s'.client) && s'.client.nextId == s.client.nextId
    ensures Wires(s')
  {
    forall i | 0 <= i < |s'.inbox| ensures Asked(s', s'.inbox[i]) { assert Asked(s, s.inbox[i]); }
    forall i | 0 <= i < |s'.outbox| ensures Answered(s', s'.outbox[i]) { assert Answered(s, s.outbox[i]); }
  }

  lemma OtherOutbox(s: System, s': System)
    requires Wires(s) && s' == s.(client := s'.client, outbox := s'.outbox) && s'.client.nextId == s.client.nextId
    requires forall i | 0 <= i < |s'.outbox| :: Answered(s, s'.outbox[i])
    ensures Wires(s')
  {
    forall i | 0 <= i < |s'.inbox| ensures Asked(s', s'.inbox[i]) { assert Asked(s, s.inbox[i]); }
    forall i | 0 <= i < |s'.outbox| ensures Answered(s', s'.outbox[i]) { assert Answered(s, s'.outbox[i]); }
  }

  lemma StepWires(s: System, m: Move)
    requires Sound(s)
    ensures Wires(Step(s, m))
  {
    hide Wires;
    match m
    case ClientIssues(call) => if Running(s.client) { IssueWires(s, call); }
    case ClientReads(at) => OutboxWires(s, at, Step(s, m));
    case ReplyLost(at) => OutboxWires(s, at, Step(s, m));
    case BridgeReads => if s.inbox != [] { ReadWires(s); }
    case HandlerEnds(id, ending) => if id in s.running { EndWires(s, id, ending); }
    case HandlerLost(id) => LostWires(s, id);
    case RequestLost(at) => RequestsAfterDrop(s, at);
    case _ => OtherClient(s, Step(s, m));
  }

  lemma OutboxWires(s: System, at: nat, s': System)
    requires Wires(s) && s'.client.nextId == s.client.nextId
    requires s' == s.(client := s'.client, outbox := DropAt(s.outbox, at))
    ensures Wires(s')
  {
    RepliesAfterDrop(s, at);
    OtherOutbox(s, s');
  }

  lemma AnswersOwn(s: System, m: Move)
    requires Sound(s)
    ensures OwnAnswers(Step(s, m))
  {
  }

  lemma SoundStep(s: System, m: Move)
    requires Sound(s)
    ensures Sound(Step(s, m))
  {
    ClientBooks(s, m);
    StepWires(s, m);
    AnswersOwn(s, m);
  }

  lemma {:induction false} SoundPlay(s: System, moves: seq<Move>)
    requires Sound(s)
    ensures Sound(Play(s, moves))
    decreases |moves|
  {
    hide Sound, Step;
    if moves != [] {
      SoundStep(s, moves[0]);
      SoundPlay(Step(s, moves[0]), moves[1..]);
    }
  }

  // -------------------------------------------------------------------------
  // Over every interleaving
  // -------------------------------------------------------------------------

  ghost predicate KeepsSettled(before: map<nat, Promise>, after: map<nat, Promise>) {
    forall id | id in before :: id in after && (!before[id].Unsettled? ==> after[id] == before[id])
  }

  lemma SettledStep(s: System, m: Move)
    requires Sound(s)
    ensures KeepsSettled(s.client.promises, Step(s, m).client.promises)
  {
  }

  /** A promise settles at most once: no later response, timer, write failure, exit or dispose changes it. */
  lemma {:induction false} SettledOnce(s: System, moves: seq<Move>)
    requires Sound(s)
    ensures KeepsSettled(s.client.promises, Play(s, moves).client.promises)
    decreases |moves|
  {
    hide Sound, Step;
    if moves != [] {
      SoundStep(s, moves[0]);
      SettledStep(s, moves[0]);
      SettledOnce(Step(s, moves[0]), moves[1..]);
    }
  }

  /** End-to-end correlation, in every state reachable from the start: a promise resolves only with
      the value its own request's handler returned, and a remote rejection carries the error of
      that same handler. */
  lemma OwnAnswerOnly(moves: seq<Move>, id: nat)
    requires var s := Play(START, moves); id in s.client.promises
    ensures var s := Play(START, moves); var p := s.client.promises[id];
            && (p.Resolved? ==>
                  && id in s.calls && s.calls[id].name in METHODS
                  && id in s.finished && s.finished[id] == Returns(p.value))
            && (p.Rejected? && p.cause == Remote ==>
                  && id in s.calls && id in s.finished
                  && (p.status.Some? <==> s.calls[id].name in METHODS && s.finished[id].HttpStatusError?)
                  && (p.status.Some? ==> s.finished[id] == HttpStatusError(p.status.value))
                  && (p.code == METHOD_NOT_FOUND <==> s.calls[id].name !in METHODS)
                  && (p.code == INVALID_PARAMS <==>
                        s.calls[id].name in METHODS && (s.finished[id].BadParams? || s.finished[id].TypeError?))
                  && (p.code == INTERNAL <==> s.calls[id].name in METHODS && s.finished[id].OtherException?)
                  && (s.calls[id].name in METHODS ==> !s.finished[id].Returns?))
  {
    assert Sound(START);
    SoundPlay(START, moves);
    var s := Play(START, moves);
    assert Own(id, s.client.promises[id], s.calls, s.finished);
  }

  /** The ids issued so far are the pending ones and the settled ones, and each pending one still has its timer. */
  lemma IssuedIsPendingPlusSettled(moves: seq<Move>)
    ensures var c := Play(START, moves).client;
            && (forall id: nat ::
                  1 <= id < c.nextId <==> id in c.pending || (id in c.promises && !c.promises[id].Unsettled?))
            && (forall id | id in c.pending :: id in c.timers && id in c.promises && c.promises[id].Unsettled?)
            && (!Running(c) ==> forall id | id in c.promises :: !c.promises[id].Unsettled?)
  {
    assert Sound(START);
    SoundPlay(START, moves);
  }

  /** After `dispose`, or an exit nobody asked for, nothing is pending and every promise is settled. */
  lemma NothingLeftPending(moves: seq<Move>, last: Move)
    requires last == ClientDisposes || last == ProcExits || last == ProcErrors
    ensures var c := Step(Play(START, moves), last).client;
            c.pending == {} && c.timers == {} && forall id | id in c.promises :: !c.promises[id].Unsettled?
  {
    assert Sound(START);
    SoundPlay(START, moves);
    SoundStep(Play(START, moves), last);
  }

  /** A response that reaches a pending request settles it with its own answer, whatever came before. */
  lemma ResponseSettles(moves: seq<Move>, at: nat)
    requires var s := Play(START, moves); at < |s.outbox| && s.outbox[at].id in s.client.pending
    ensures var s := Play(START, moves); var id := s.outbox[at].id;
            && id in s.calls && id in s.finished
            && Step(s, ClientReads(at)).client.promises
               == s.client.promises[id := FromBody(RunOne(id, s.calls[id], s.finished[id]).body)]
  {
    assert Sound(START);
    SoundPlay(START, moves);
    var s := Play(START, moves);
    assert Answered(s, s.outbox[at]);
  }
}
