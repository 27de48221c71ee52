/** The dashboard's WebSocket effect, mounted once: its socket, its retry timer and its cleanup. */
module WebEffect {
  import opened Common
  import opened Backoff

  datatype Socket = Connecting | Opened | Closing | Gone

  /** `sockets` are the sockets created so far, oldest first; `ws` and `wsRef` point into them.
      `outcomes` and `delays` record, for every retry armed, whether its socket had opened and
      how long the timer waits. */
  datatype Effect = Effect(
    sockets: seq<Socket>, ws: nat, wsRef: Option<nat>, retries: nat, timer: bool, cancelled: bool,
    deleted: bool, outcomes: seq<bool>, delays: seq<int>)

  datatype Message = Ping | Malformed | WorkspaceDeleted | Update

  /** What may happen to a mounted effect: a socket opens, delivers or closes, the timer runs out,
      the component unmounts. */
  datatype Happening =
    | Opens(socket: nat)
    | Delivers(socket: nat, message: Message)
    | Closes(socket: nat)
    | TimerFires
    | Unmounts

  /** `connectWs`. */
  function Connect(e: Effect): Effect {
    if e.cancelled then e
    else e.(sockets := e.sockets + [Connecting], ws := |e.sockets|, wsRef := Some(|e.sockets|))
  }

  const MOUNTED := Connect(Effect([], 0, None, 0, false, false, false, [], []))

  /** `ws.close()`, on the socket the shared variable points to. */
  function CloseCurrent(e: Effect): Effect {
    if e.ws >= |e.sockets| || e.sockets[e.ws] == Gone then e else e.(sockets := e.sockets[e.ws := Closing])
  }

  function OnMessage(e: Effect, m: Message): Effect {
    if m.WorkspaceDeleted? then CloseCurrent(e).(wsRef := None, deleted := true) else e
  }

  function OnClose(e: Effect, hadOpened: bool): Effect {
    if e.cancelled || e.wsRef != Some(e.ws) then e
    else
      e.(wsRef := None, retries := e.retries + 1, timer := true,
         outcomes := e.outcomes + [hadOpened], delays := e.delays + [WebDelay(e.retries)])
  }

  /** The function the effect returns. */
  function Cleanup(e: Effect): Effect {
    var quiet := e.(cancelled := true, timer := false);
    if e.wsRef.Some? then CloseCurrent(quiet.(wsRef := None)) else quiet
  }

  function Step(e: Effect, h: Happening): Effect {
    match h
    case Opens(s) =>
      if s < |e.sockets| && e.sockets[s] == Connecting then e.(sockets := e.sockets[s := Opened], retries := 0) else e
    case Delivers(s, m) => if s < |e.sockets| && e.sockets[s] == Opened then OnMessage(e, m) else e
    case Closes(s) =>
      if s < |e.sockets| && e.sockets[s] != Gone
      then OnClose(e.(sockets := e.sockets[s := Gone]), e.sockets[s] == Opened)
      else e
    case TimerFires => if e.timer then Connect(e.(timer := false)) else e
    case Unmounts => if e.cancelled then e else Cleanup(e)
  }

  function Play(e: Effect, hs: seq<Happening>): Effect
    decreases |hs|
  {
    if hs == [] then e else Play(Step(e, hs[0]), hs[1..])
  }

  // -------------------------------------------------------------------------
  // Invariant
  // -------------------------------------------------------------------------

  predicate Live(e: Effect, i: nat) {
    i < |e.sockets| && (e.sockets[i] == Connecting || e.sockets[i] == Opened)
  }

  predicate Ended(e: Effect) { e.cancelled || e.deleted }

  ghost predicate Sound(e: Effect) {
    && e.ws < |e.sockets|
    && (forall i | 0 <= i < |e.sockets| && i != e.ws :: e.sockets[i] == Gone)
    && (e.wsRef == if Live(e, e.ws) then Some(e.ws) else None)
    && (e.timer ==> e.sockets[e.ws] == Gone)
    && (Ended(e) ==> !e.timer && !Live(e, e.ws))
    && (!Ended(e) ==> e.timer != Live(e, e.ws))
    && e.delays == WebDelays(e.outcomes)
    && (!Ended(e) ==> e.retries == if e.sockets[e.ws] == Opened then 0 else Retries(e.outcomes))
  }

  lemma RetryArmed(outcomes: seq<bool>, hadOpened: bool)
    ensures var r := if hadOpened then 0 else Retries(outcomes);
            && WebDelays(outcomes + [hadOpened]) == WebDelays(outcomes) + [WebDelay(r)]
            && Retries(outcomes + [hadOpened]) == r + 1
  {
    assert (outcomes + [hadOpened])[..|outcomes|] == outcomes;
  }

  lemma SoundStep(e: Effect, h: Happening)
    requires Sound(e)
    ensures Sound(Step(e, h))
  {
    if h.Closes? && h.socket < |e.sockets| {
      RetryArmed(e.outcomes, e.sockets[h.socket] == Opened);
    }
  }

  lemma {:induction false} SoundPlay(e: Effect, hs: seq<Happening>)
    requires Sound(e)
    ensures Sound(Play(e, hs))
    decreases |hs|
  {
    hide Sound, Step;
    if hs != [] {
      SoundStep(e, hs[0]);
      SoundPlay(Step(e, hs[0]), hs[1..]);
    }
  }

  // -------------------------------------------------------------------------
  // Over every run
  // -------------------------------------------------------------------------

  /** At every moment there is at most one live socket or pending retry, and exactly one as long as
      the component is mounted and the workspace not known deleted: it never gives up silently. */
  lemma SingleConnection(hs: seq<Happening>)
    ensures var e := Play(MOUNTED, hs);
            && (forall i, j | Live(e, i) && Live(e, j) :: i == j)
            && (e.timer ==> forall i :: !Live(e, i))
            && (!Ended(e) ==> e.timer || exists i :: Live(e, i))
  {
    SoundPlay(MOUNTED, hs);
  }

  lemma EndedStep(e: Effect, h: Happening)
    requires Sound(e) && Ended(e)
    ensures Ended(Step(e, h)) && |Step(e, h).sockets| == |e.sockets|
  {
  }

  lemma {:induction false} EndedStays(e: Effect, hs: seq<Happening>)
    requires Sound(e) && Ended(e)
    ensures Ended(Play(e, hs)) && |Play(e, hs).sockets| == |e.sockets|
    decreases |hs|
  {
    hide Sound, Ended, Step;
    if hs != [] {
      SoundStep(e, hs[0]);
      EndedStep(e, hs[0]);
      EndedStays(Step(e, hs[0]), hs[1..]);
    }
  }

  /** Once the component unmounted or the workspace was deleted, no socket is ever created again,
      none is live and no retry is pending. */
  lemma NoConnectAfterEnd(before: seq<Happening>, after: seq<Happening>)
    requires Ended(Play(MOUNTED, before))
    ensures var e, e' := Play(MOUNTED, before), Play(Play(MOUNTED, before), after);
            |e'.sockets| == |e.sockets| && !e'.timer && forall i :: !Live(e', i)
  {
    SoundPlay(MOUNTED, before);
    var e := Play(MOUNTED, before);
    EndedStays(e, after);
    SoundPlay(e, after);
  }

  /** The retry delays are the closed form of the attempts' outcomes, hence those of the bridge. */
  lemma RetriesLikeTheBridge(hs: seq<Happening>, i: nat)
    requires i < |Play(MOUNTED, hs).delays|
    ensures var e := Play(MOUNTED, hs);
            e.delays == WebDelays(e.outcomes) && e.delays[i] == MIN_MILLIS * BridgeDelays(e.outcomes)[i]
  {
    SoundPlay(MOUNTED, hs);
    SameSchedule(Play(MOUNTED, hs).outcomes);
  }

  // -------------------------------------------------------------------------
  // What each happening does, in every state of a run
  // -------------------------------------------------------------------------

  /** Mounting connects at once. */
  lemma Mounting()
    ensures MOUNTED == Effect([Connecting], 0, Some(0), 0, false, false, false, [], [])
  {
  }

  /** A socket that opens is the current one and starts the count of retries afresh. */
  lemma SocketOpens(hs: seq<Happening>, s: nat)
    ensures var e := Play(MOUNTED, hs); var e' := Step(e, Opens(s));
            if s < |e.sockets| && e.sockets[s] == Connecting
            then e' == e.(sockets := e.sockets[s := Opened], retries := 0) && e.wsRef == Some(s) else e' == e
  {
    SoundPlay(MOUNTED, hs);
  }

  /** Only the deletion message ends anything: it closes the socket it came in on. */
  lemma MessageArrives(hs: seq<Happening>, s: nat, m: Message)
    ensures var e := Play(MOUNTED, hs);
            Step(e, Delivers(s, m))
            == if s < |e.sockets| && e.sockets[s] == Opened && m == WorkspaceDeleted
               then e.(sockets := e.sockets[s := Closing], wsRef := None, deleted := true) else e
  {
    SoundPlay(MOUNTED, hs);
  }

  /** A socket that closes by itself is retried after one second, doubled with every retry in a row up to
      half a minute; after an unmount or the deletion it is not. */
  lemma SocketCloses(hs: seq<Happening>, s: nat)
    ensures var e := Play(MOUNTED, hs); var r := e.retries;
            Step(e, Closes(s))
            == if s >= |e.sockets| || e.sockets[s] == Gone then e
               else if e.cancelled || e.deleted then e.(sockets := e.sockets[s := Gone])
               else e.(sockets := e.sockets[s := Gone], wsRef := None, retries := r + 1, timer := true,
                       outcomes := e.outcomes + [e.sockets[s] == Opened],
                       delays := e.delays + [if r < 5 then [1000, 2000, 4000, 8000, 16000][r] else 30000])
  {
    SoundPlay(MOUNTED, hs);
    DelayInMillis(Play(MOUNTED, hs).retries);
  }

  /** A retry that comes due creates the next socket. */
  lemma RetryComesDue(hs: seq<Happening>)
    ensures var e := Play(MOUNTED, hs); var n := |e.sockets|;
            Step(e, TimerFires)
            == if e.timer then e.(timer := false, sockets := e.sockets + [Connecting], ws := n, wsRef := Some(n)) else e
  {
    SoundPlay(MOUNTED, hs);
  }

  /** Unmounting drops a pending retry and closes what is not closed; it happens once. */
  lemma Unmounting(hs: seq<Happening>)
    ensures var e := Play(MOUNTED, hs); var e' := Step(e, Unmounts);
            && e' == e.(cancelled := true, timer := false, wsRef := None, sockets := e'.sockets)
            && |e'.sockets| == |e.sockets|
            && forall i | 0 <= i < |e.sockets| ::
                 e'.sockets[i] == if e.sockets[i] == Gone then Gone else Closing
  {
    SoundPlay(MOUNTED, hs);
  }

  // -------------------------------------------------------------------------
  // The effect as it runs
  // -------------------------------------------------------------------------

  /** The closure variables of the mounted effect, and the sockets the browser holds for it. */
  class SocketEffect {
    var sockets: seq<Socket>
    var ws: nat
    var wsRef: Option<nat>
    var retries: nat
    var retryTimer: bool
    var cancelled: bool
    var deleted: bool  // the "was deleted" error is showing
    ghost var outcomes: seq<bool>
    ghost var delays: seq<int>

    ghost function Model(): Effect
      reads this
    {
      Effect(sockets, ws, wsRef, retries, retryTimer, cancelled, deleted, outcomes, delays)
    }

    /** At most one live socket or pending retry, none after the end, delays as the schedule says. */
    ghost predicate Valid()
      reads this
    {
      Sound(Model())
    }

    constructor ()
      ensures Valid() && Model() == MOUNTED
    {
      sockets, ws, wsRef, retries, retryTimer, cancelled, deleted := [], 0, None, 0, false, false, false;
      outcomes, delays := [], [];
      new;
      ConnectWs();
    }

    method ConnectWs()
      modifies this
      ensures Model() == Connect(old(Model()))
    {
      if cancelled {
        return;
      }
      ws := |sockets|;
      sockets := sockets + [Connecting];
      wsRef := Some(ws);
    }

    method CloseSocket()
      requires ws < |sockets|
      modifies this`sockets
      ensures Model() == CloseCurrent(old(Model()))
    {
      if sockets[ws] != Gone {
        sockets := sockets[ws := Closing];
      }
    }

    method Open(socket: nat)
      requires Valid() && socket < |sockets| && sockets[socket] == Connecting
      modifies this
      ensures Valid() && Model() == Step(old(Model()), Opens(socket))
    {
      SoundStep(Model(), Opens(socket));
      sockets := sockets[socket := Opened];
      retries := 0;
    }

    method Deliver(socket: nat, message: Message)
      requires Valid() && socket < |sockets| && sockets[socket] == Opened
      modifies this
      ensures Valid() && Model() == Step(old(Model()), Delivers(socket, message))
    {
      SoundStep(Model(), Delivers(socket, message));
      if message.Malformed? || message.Ping? {
        return;
      }
      if message.WorkspaceDeleted? {
        deleted := true;
        CloseSocket();
        wsRef := None;
      }
    }

    method Close(socket: nat) returns (delay: int)
      requires Valid() && socket < |sockets| && sockets[socket] != Gone
      modifies this
      ensures Valid() && Model() == Step(old(Model()), Closes(socket))
      ensures retryTimer && !old(retryTimer) ==> delay == Min(MIN_MILLIS * Pow2(old(retries)), MAX_MILLIS)
    {
      hide Sound, Pow2;
      SoundStep(Model(), Closes(socket));
      ghost var hadOpened := sockets[socket] == Opened;
      sockets := sockets[socket := Gone];
      delay := 0;
      if cancelled || wsRef != Some(ws) {
        return;
      }
      wsRef := None;
      delay := Min(MIN_MILLIS * Pow2(retries), MAX_MILLIS);
      retries := retries + 1;
      retryTimer := true;
      outcomes, delays := outcomes + [hadOpened], delays + [delay];
    }

    method OnTimer()
      requires Valid() && retryTimer
      modifies this
      ensures Valid() && Model() == Step(old(Model()), TimerFires)
    {
      SoundStep(Model(), TimerFires);
      retryTimer := false;
      ConnectWs();
    }

    method Unmount()
      requires Valid() && !cancelled
      modifies this
      ensures Valid() && Model() == Step(old(Model()), Unmounts)
    {
      SoundStep(Model(), Unmounts);
      cancelled := true;
      retryTimer := false;
      if wsRef.Some? {
        wsRef := None;
        CloseSocket();
      }
    }
  }
}
