/** The bridge's WebSocket supervisor: what one run of it tells the editor, and how long it waits. */
module Supervisor {
  import opened Common
  import opened Backoff

  /** One raw frame: a workspace event, the deletion event, JSON that is not an object, or not JSON. */
  datatype Frame = Data(json: string) | Deleted | NotAnObject | Garbled

  datatype Note = Status(connected: bool) | Event(frame: Frame) | Snapshot

  /** One turn of the loop, as the environment decides it: where a shutdown is noticed, whether
      the connection opens, which frames arrive before it drops, whether the resync succeeds. */
  datatype Attempt = Attempt(
    stopBefore: bool, connects: bool, frames: seq<Frame>, stopAfter: bool, resyncs: bool, stopInSleep: bool)

  /** What is forwarded of the frames of one connection: a frame that is not JSON ends it unseen, one
      that is not an object ends it after it was forwarded, the deletion event ends everything. */
  function Forwarded(frames: seq<Frame>): seq<Note> {
    if frames == [] || frames[0].Garbled? then []
    else [Event(frames[0])] + if frames[0].Data? then Forwarded(frames[1..]) else []
  }

  predicate SeesDeletion(frames: seq<Frame>) {
    frames != [] && (frames[0].Deleted? || (frames[0].Data? && SeesDeletion(frames[1..])))
  }

  function Connection(a: Attempt): seq<Note> {
    if a.connects then [Status(true)] + Forwarded(a.frames) else []
  }

  function Resync(a: Attempt): seq<Note> {
    [Status(false)] + if a.resyncs then [Snapshot] else []
  }

  /** The attempt is slept off and the loop goes round. */
  predicate GoesOn(a: Attempt) {
    Retried(a) && !a.stopInSleep
  }

  /** The attempt reaches the resync and the backoff sleep. */
  predicate Retried(a: Attempt) {
    !a.stopBefore && !(a.connects && SeesDeletion(a.frames)) && !a.stopAfter
  }

  /** What one turn writes to the editor. */
  function Turn(a: Attempt): seq<Note> {
    if a.stopBefore then []
    else Connection(a) + if Retried(a) then Resync(a) else []
  }

  /** Everything written to the editor, in order. */
  function Trace(attempts: seq<Attempt>): seq<Note> {
    if attempts == [] then []
    else Turn(attempts[0]) + if GoesOn(attempts[0]) then Trace(attempts[1..]) else []
  }

  /** Whether each attempt that was followed by a sleep had connected. */
  function Slept(attempts: seq<Attempt>): seq<bool> {
    if attempts == [] || !Retried(attempts[0]) then []
    else [attempts[0].connects] + if GoesOn(attempts[0]) then Slept(attempts[1..]) else []
  }

  /** After `n` whole turns: what was written and slept, and that the rest of the run follows. */
  ghost predicate Sofar(attempts: seq<Attempt>, n: nat, trace: seq<Note>, slept: seq<bool>) {
    && n <= |attempts|
    && Trace(attempts) == trace + Trace(attempts[n..]) && Slept(attempts) == slept + Slept(attempts[n..])
  }

  lemma SofarNothing(attempts: seq<Attempt>)
    ensures Sofar(attempts, 0, [], [])
  {
    assert attempts[0..] == attempts;
  }

  lemma SofarAll(attempts: seq<Attempt>, trace: seq<Note>, slept: seq<bool>)
    requires Sofar(attempts, |attempts|, trace, slept)
    ensures Trace(attempts) == trace && Slept(attempts) == slept
  {
  }

  lemma SofarTurn(attempts: seq<Attempt>, n: nat, trace: seq<Note>, slept: seq<bool>)
    requires n < |attempts| && Sofar(attempts, n, trace, slept)
    ensures var a := attempts[n]; var trace' := trace + Turn(a);
            var slept' := if Retried(a) then slept + [a.connects] else slept;
            if GoesOn(a) then Sofar(attempts, n + 1, trace', slept')
            else Trace(attempts) == trace' && Slept(attempts) == slept'
  {
    var a := attempts[n];
    assert attempts[n..][1..] == attempts[n + 1..];
    if GoesOn(a) {
      Assoc(trace, Turn(a), Trace(attempts[n + 1..]));
      Assoc(slept, [a.connects], Slept(attempts[n + 1..]));
    } else {
      assert Trace(attempts[n..]) == Turn(a);
      assert Slept(attempts[n..]) == if Retried(a) then [a.connects] else [];
    }
  }

  /** `ws_supervisor`: the loop around the connection attempts. */
  method Supervise(attempts: seq<Attempt>) returns (trace: seq<Note>, delays: seq<int>)
    ensures trace == Trace(attempts)
    ensures delays == BridgeDelays(Slept(attempts))
    ensures forall n | Lasts(attempts, n) ::
              && Lost(attempts, n) <= |attempts| && delays == BridgeDelays(Connected(attempts[..Lost(attempts, n)]))
              && Count(trace, Status(false)) == |delays| && Count(trace, Status(true)) == Opened(attempts, n)
              && Count(trace, Snapshot) == CountResync(attempts[..|delays|])
  {
    forall n | Lasts(attempts, n) ensures HowFar(attempts, n) { RunGoesOn(attempts, n); }
    hide Sofar, Turn, Retried, GoesOn, Trace, Slept, BridgeDelays, BridgeBackoff, Lasts, Lost, Opened, Count;
    trace, delays := [], [];
    var backoff := MIN_SECONDS;
    var n := 0;
    ghost var slept: seq<bool> := [];
    NothingSlept();
    SofarNothing(attempts);
    while n < |attempts|
      invariant 0 <= n <= |attempts|
      invariant Sofar(attempts, n, trace, slept)
      invariant delays == BridgeDelays(slept) && backoff == BridgeBackoff(slept)
    {
      SofarTurn(attempts, n, trace, slept);
      var notes, waited, goesOn;
      notes, backoff, waited, goesOn := TakeTurn(attempts[n], backoff);
      trace := trace + notes;
      if waited {
        SleptOnce(slept, attempts[n].connects);
        delays := delays + [backoff];
        slept := slept + [attempts[n].connects];
      }
      if !goesOn {
        return;
      }
      backoff := if backoff * 2 < MAX_SECONDS then backoff * 2 else MAX_SECONDS;
      n := n + 1;
    }
    SofarAll(attempts, trace, slept);
  }

  lemma NothingSlept()
    ensures BridgeDelays([]) == [] && BridgeBackoff([]) == MIN_SECONDS
  {
  }

  lemma SleptOnce(slept: seq<bool>, connected: bool)
    ensures var b := if connected then MIN_SECONDS else BridgeBackoff(slept);
            && BridgeDelays(slept + [connected]) == BridgeDelays(slept) + [b]
            && BridgeBackoff(slept + [connected]) == Doubled(b)
  {
    assert (slept + [connected])[..|slept|] == slept;
  }

  /** The loop's body up to the sleep, which lasts the backoff it returns. */
  method TakeTurn(a: Attempt, backoff: int) returns (notes: seq<Note>, backoff': int, waited: bool, goesOn: bool)
    ensures notes == Turn(a) && waited == Retried(a) && goesOn == GoesOn(a) && (goesOn ==> waited)
    ensures backoff' == if !a.stopBefore && a.connects then MIN_SECONDS else backoff
    ensures waited ==> !a.stopBefore
  {
    notes, backoff', waited, goesOn := [], backoff, false, false;
    if a.stopBefore {
      return;
    }
    if a.connects {
      backoff' := MIN_SECONDS;
      notes := [Status(true)];
      var events, deleted := Forward(a.frames);
      notes := notes + events;
      if deleted {
        return;
      }
    }
    if a.stopAfter {
      return;
    }
    notes := notes + [Status(false)];
    if a.resyncs {
      notes := notes + [Snapshot];
    }
    waited, goesOn := true, !a.stopInSleep;
  }

  /** The `async for` over one connection's frames; true when the workspace was deleted. */
  method Forward(frames: seq<Frame>) returns (events: seq<Note>, deleted: bool)
    ensures events == Forwarded(frames) && deleted == SeesDeletion(frames)
  {
    hide Forwarded, SeesDeletion;
    events, deleted := [], false;
    var n := 0;
    assert frames[0..] == frames;
    while n < |frames|
      invariant 0 <= n <= |frames| && !deleted
      invariant Forwarded(frames) == events + Forwarded(frames[n..])
      invariant SeesDeletion(frames) == SeesDeletion(frames[n..])
    {
      var frame := frames[n];
      ForwardOne(frames, n);
      Assoc(events, [Event(frame)], Forwarded(frames[n + 1..]));
      if frame.Garbled? {
        return;
      }
      events := events + [Event(frame)];
      if frame.Deleted? {
        deleted := true;
        return;
      }
      if frame.NotAnObject? {
        return;
      }
      n := n + 1;
    }
    ForwardNone(frames);
  }

  lemma ForwardOne(frames: seq<Frame>, n: nat)
    requires n < |frames|
    ensures Forwarded(frames[n..])
            == if frames[n].Garbled? then []
               else [Event(frames[n])] + if frames[n].Data? then Forwarded(frames[n + 1..]) else []
    ensures SeesDeletion(frames[n..]) == (frames[n].Deleted? || (frames[n].Data? && SeesDeletion(frames[n + 1..])))
  {
    assert frames[n..][1..] == frames[n + 1..];
  }

  lemma ForwardNone(frames: seq<Frame>)
    ensures Forwarded(frames[|frames|..]) == [] && !SeesDeletion(frames[|frames|..])
  {
  }

  // -------------------------------------------------------------------------
  // The grammar of a run
  // -------------------------------------------------------------------------

  datatype Mode = Down | Up | Over

  /** What may be written next: a snapshot only right after `status false`, an event only while up,
      nothing after the deletion event. */
  function Next(m: Mode, last: Option<Note>, note: Note): Option<Mode> {
    match note
    case Status(up) => if m == Over || (m == Up && up) then None else Some(if up then Up else Down)
    case Event(f) => if m != Up || f.Garbled? then None else Some(if f.Deleted? then Over else Up)
    case Snapshot => if last == Some(Status(false)) then Some(Down) else None
  }

  /** The mode after a trace, if every note of it was allowed. */
  function After(trace: seq<Note>): Option<Mode> {
    if trace == [] then Some(Down)
    else
      var before := trace[..|trace| - 1];
      if After(before).None? then None
      else Next(After(before).value, if before == [] then None else Some(before[|before| - 1]), trace[|trace| - 1])
  }

  predicate Accepted(trace: seq<Note>) { After(trace).Some? }

  lemma AfterOne(trace: seq<Note>, note: Note)
    requires Accepted(trace)
    ensures After(trace + [note])
            == Next(After(trace).value, if trace == [] then None else Some(trace[|trace| - 1]), note)
  {
    assert (trace + [note])[..|trace|] == trace;
  }

  lemma {:induction false} ForwardedAccepted(trace: seq<Note>, frames: seq<Frame>)
    requires After(trace) == Some(Up)
    ensures After(trace + Forwarded(frames)) == Some(if SeesDeletion(frames) then Over else Up)
    decreases |frames|
  {
    if frames == [] || frames[0].Garbled? {
      assert trace + Forwarded(frames) == trace;
    } else {
      AfterOne(trace, Event(frames[0]));
      if frames[0].Data? {
        ForwardedAccepted(trace + [Event(frames[0])], frames[1..]);
        Assoc(trace, [Event(frames[0])], Forwarded(frames[1..]));
      }
    }
  }

  lemma TurnAccepted(trace: seq<Note>, a: Attempt)
    requires After(trace) == Some(Down)
    ensures Accepted(trace + Turn(a)) && (GoesOn(a) ==> After(trace + Turn(a)) == Some(Down))
  {
    if a.stopBefore {
      assert trace + Turn(a) == trace;
    } else {
      ConnectionAccepted(trace, a);
      Assoc(trace, Connection(a), Resync(a));
      if Retried(a) {
        ResyncAccepted(trace + Connection(a), a);
      } else {
        assert Turn(a) == Connection(a);
      }
    }
  }

  lemma ConnectionAccepted(trace: seq<Note>, a: Attempt)
    requires After(trace) == Some(Down)
    ensures After(trace + Connection(a))
            == Some(if !a.connects then Down else if SeesDeletion(a.frames) then Over else Up)
  {
    if a.connects {
      AfterOne(trace, Status(true));
      ForwardedAccepted(trace + [Status(true)], a.frames);
      Assoc(trace, [Status(true)], Forwarded(a.frames));
    } else {
      assert trace + Connection(a) == trace;
    }
  }

  lemma ResyncAccepted(trace: seq<Note>, a: Attempt)
    requires After(trace) == Some(Down) || After(trace) == Some(Up)
    ensures After(trace + Resync(a)) == Some(Down)
  {
    AfterOne(trace, Status(false));
    AfterOne(trace + [Status(false)], Snapshot);
    Assoc(trace, [Status(false)], [Snapshot]);
    if !a.resyncs { assert trace + Resync(a) == trace + [Status(false)]; }
  }

  lemma {:induction false} TraceAccepted(before: seq<Note>, attempts: seq<Attempt>)
    requires After(before) == Some(Down)
    ensures Accepted(before + Trace(attempts))
    decreases |attempts|
  {
    hide After, Turn, GoesOn;
    if attempts == [] {
      assert before + Trace(attempts) == before;
    } else {
      TurnAccepted(before, attempts[0]);
      if GoesOn(attempts[0]) {
        TraceAccepted(before + Turn(attempts[0]), attempts[1..]);
        Assoc(before, Turn(attempts[0]), Trace(attempts[1..]));
      } else {
        assert Trace(attempts) == Turn(attempts[0]);
      }
    }
  }

  /** A supervisor cancelled at any point has written a prefix; that is accepted too. */
  lemma {:induction false} PrefixAccepted(trace: seq<Note>, n: nat)
    requires Accepted(trace) && n <= |trace|
    ensures Accepted(trace[..n])
  {
    if n < |trace| {
      PrefixAccepted(trace[..|trace| - 1], n);
      assert trace[..|trace| - 1][..n] == trace[..n];
    } else {
      assert trace[..n] == trace;
    }
  }

  // -------------------------------------------------------------------------
  // The grammar spelled out
  // -------------------------------------------------------------------------

  /** One round `(status true, event*)? status false, snapshot?`. */
  datatype Round = Round(up: Option<seq<Frame>>, synced: bool)

  function Events(frames: seq<Frame>): seq<Note> {
    if frames == [] then [] else Events(frames[..|frames| - 1]) + [Event(frames[|frames| - 1])]
  }

  function Open(up: Option<seq<Frame>>): seq<Note> {
    if up.Some? then [Status(true)] + Events(up.value) else []
  }

  function Expand(rounds: seq<Round>): seq<Note> {
    if rounds == [] then []
    else
      var last := rounds[|rounds| - 1];
      Expand(rounds[..|rounds| - 1]) + Open(last.up) + [Status(false)] + if last.synced then [Snapshot] else []
  }

  ghost predicate Quiet(up: Option<seq<Frame>>) {
    up.Some? ==> forall f | f in up.value :: !f.Deleted? && !f.Garbled?
  }

  lemma ExpandOne(rounds: seq<Round>, r: Round)
    ensures Expand(rounds + [r]) == Expand(rounds) + Open(r.up) + [Status(false)] + if r.synced then [Snapshot] else []
  {
    assert (rounds + [r])[..|rounds|] == rounds;
  }

  lemma EventsOne(frames: seq<Frame>, f: Frame)
    ensures Events(frames + [f]) == Events(frames) + [Event(f)]
  {
    assert (frames + [f])[..|frames|] == frames;
  }

  ghost predicate AllQuiet(rounds: seq<Round>) {
    forall i | 0 <= i < |rounds| :: Quiet(rounds[i].up)
  }

  /** The trace is these whole rounds and the beginning of another; the deletion event, if there is
      one, is the very last note. */
  ghost predicate Reads(trace: seq<Note>, rounds: seq<Round>, rest: Option<seq<Frame>>, gone: bool) {
    && trace == Expand(rounds) + Open(rest) + (if gone then [Event(Deleted)] else [])
    && AllQuiet(rounds) && Quiet(rest) && (gone ==> rest.Some?)
  }

  lemma ReadUp(t: seq<Note>, rounds: seq<Round>)
    requires Reads(t, rounds, None, false)
    ensures Reads(t + [Status(true)], rounds, Some([]), false)
  {
    assert Open(Some([])) == [Status(true)];
  }

  lemma ReadDown(t: seq<Note>, rounds: seq<Round>, rest: Option<seq<Frame>>)
    requires Reads(t, rounds, rest, false)
    ensures Reads(t + [Status(false)], rounds + [Round(rest, false)], None, false)
  {
    ExpandOne(rounds, Round(rest, false));
  }

  lemma ReadSync(t: seq<Note>, rounds: seq<Round>)
    requires Reads(t, rounds, None, false) && rounds != [] && !rounds[|rounds| - 1].synced
    ensures Reads(t + [Snapshot], rounds[..|rounds| - 1] + [Round(rounds[|rounds| - 1].up, true)], None, false)
  {
    var before, last := rounds[..|rounds| - 1], rounds[|rounds| - 1];
    ExpandOne(before, Round(last.up, true));
    ExpandOne(before, last);
    assert rounds == before + [last];
  }

  lemma ReadEvent(t: seq<Note>, rounds: seq<Round>, rest: Option<seq<Frame>>, f: Frame)
    requires Reads(t, rounds, rest, false) && rest.Some? && !f.Garbled?
    ensures if f.Deleted? then Reads(t + [Event(f)], rounds, rest, true)
            else Reads(t + [Event(f)], rounds, Some(rest.value + [f]), false)
  {
    EventsOne(rest.value, f);
    var before := Expand(rounds);
    Assoc([Status(true)], Events(rest.value), [Event(f)]);
    Assoc(before, Open(rest), [Event(f)]);
    assert t == before + Open(rest);
  }

  /** Every accepted trace reads as rounds. */
  lemma {:induction false} AcceptedIsRounds(trace: seq<Note>)
    returns (rounds: seq<Round>, rest: Option<seq<Frame>>, gone: bool)
    requires Accepted(trace)
    ensures Reads(trace, rounds, rest, gone)
    ensures After(trace) == Some(if gone then Over else if rest.Some? then Up else Down)
    ensures rest.None? && rounds != [] && !rounds[|rounds| - 1].synced
            <==> trace != [] && trace[|trace| - 1] == Status(false)
  {
    hide Reads;
    if trace == [] {
      rounds, rest, gone := [], None, false;
      ReadNothing();
    } else {
      var note, t := trace[|trace| - 1], trace[..|trace| - 1];
      rounds, rest, gone := AcceptedIsRounds(t);
      assert trace == t + [note];
      if note == Status(true) {
        ReadUp(t, rounds);
        rest := Some([]);
      } else if note == Status(false) {
        ReadDown(t, rounds, rest);
        rounds, rest := rounds + [Round(rest, false)], None;
      } else if note == Snapshot {
        ReadSync(t, rounds);
        rounds := rounds[..|rounds| - 1] + [Round(rounds[|rounds| - 1].up, true)];
      } else {
        ReadEvent(t, rounds, rest, note.frame);
        if note.frame.Deleted? { gone := true; } else { rest := Some(rest.value + [note.frame]); }
      }
    }
  }

  lemma ReadNothing()
    ensures Reads([], [], None, false)
  {
  }

  /** Every run of one supervisor, cancelled anywhere, writes whole rounds and the beginning of
      another, and nothing after the deletion event. */
  lemma RunIsRounds(attempts: seq<Attempt>, n: nat) returns (rounds: seq<Round>, rest: Option<seq<Frame>>, gone: bool)
    requires n <= |Trace(attempts)|
    ensures Reads(Trace(attempts)[..n], rounds, rest, gone)
  {
    TraceAccepted([], attempts);
    assert [] + Trace(attempts) == Trace(attempts);
    PrefixAccepted(Trace(attempts), n);
    rounds, rest, gone := AcceptedIsRounds(Trace(attempts)[..n]);
  }

  /** The delays of a run are, in milliseconds, those the dashboard would wait over the same attempts. */
  lemma WaitsLikeTheDashboard(attempts: seq<Attempt>, i: nat)
    requires i < |Slept(attempts)|
    ensures MIN_MILLIS * BridgeDelays(Slept(attempts))[i] == WebDelays(Slept(attempts))[i]
  {
    SameSchedule(Slept(attempts));
  }

  // -------------------------------------------------------------------------
  // Drops, sleeps and resyncs
  // -------------------------------------------------------------------------

  function Count(trace: seq<Note>, note: Note): nat {
    if trace == [] then 0 else (if trace[0] == note then 1 else 0) + Count(trace[1..], note)
  }

  lemma {:induction false} CountConcat(a: seq<Note>, b: seq<Note>, note: Note)
    ensures Count(a + b, note) == Count(a, note) + Count(b, note)
  {
    if a == [] {
      assert a + b == b;
    } else {
      assert (a + b)[0] == a[0] && (a + b)[1..] == a[1..] + b;
      CountConcat(a[1..], b, note);
    }
  }

  lemma {:induction false} ForwardedCount(frames: seq<Frame>)
    ensures Count(Forwarded(frames), Status(false)) == Count(Forwarded(frames), Snapshot) == 0
  {
    if frames != [] && frames[0].Data? {
      ForwardedCount(frames[1..]);
      assert Forwarded(frames)[1..] == Forwarded(frames[1..]);
    } else if frames != [] && !frames[0].Garbled? {
      assert Forwarded(frames)[1..] == [];
    }
  }

  /** How many of the attempts reached a resync that succeeded. */
  function Resynced(attempts: seq<Attempt>): nat {
    if attempts == [] || !Retried(attempts[0]) then 0
    else (if attempts[0].resyncs then 1 else 0) + if GoesOn(attempts[0]) then Resynced(attempts[1..]) else 0
  }

  lemma TurnCount(a: Attempt)
    ensures Count(Turn(a), Status(false)) == if Retried(a) then 1 else 0
    ensures Count(Turn(a), Snapshot) == if Retried(a) && a.resyncs then 1 else 0
  {
    if !a.stopBefore {
      ForwardedCount(a.frames);
      assert a.connects ==> Connection(a)[1..] == Forwarded(a.frames);
      assert Count(Connection(a), Status(false)) == Count(Connection(a), Snapshot) == 0;
      ResyncCount(a);
      CountConcat(Connection(a), if Retried(a) then Resync(a) else [], Status(false));
      CountConcat(Connection(a), if Retried(a) then Resync(a) else [], Snapshot);
    }
  }

  lemma ResyncCount(a: Attempt)
    ensures Count(Resync(a), Status(false)) == 1
    ensures Count(Resync(a), Snapshot) == if a.resyncs then 1 else 0
  {
    assert Resync(a)[1..] == if a.resyncs then [Snapshot] else [];
    assert [Snapshot][1..] == [];
  }

  /** Over every run each `status false` is slept off exactly once, and exactly the drops whose resync
      succeeded are followed by a snapshot. */
  lemma {:induction false} OneSleepPerDrop(attempts: seq<Attempt>)
    ensures Count(Trace(attempts), Status(false)) == |Slept(attempts)|
    ensures Count(Trace(attempts), Snapshot) == Resynced(attempts)
  {
    if attempts != [] {
      var rest := if GoesOn(attempts[0]) then Trace(attempts[1..]) else [];
      TurnCount(attempts[0]);
      CountConcat(Turn(attempts[0]), rest, Status(false));
      CountConcat(Turn(attempts[0]), rest, Snapshot);
      if GoesOn(attempts[0]) {
        OneSleepPerDrop(attempts[1..]);
      }
    }
  }

  // -------------------------------------------------------------------------
  // How far a run gets, in terms of what happened to it
  // -------------------------------------------------------------------------

  /** The deletion event arrived before anything that ends the connection. */
  ghost predicate Gone(frames: seq<Frame>) {
    exists i | 0 <= i < |frames| :: frames[i].Deleted? && forall j | 0 <= j < i :: frames[j].Data?
  }

  /** Neither a shutdown nor the deletion keeps the attempt from being given up on and announced. */
  ghost predicate Fails(a: Attempt) {
    !a.stopBefore && !a.stopAfter && !(a.connects && Gone(a.frames))
  }

  /** Nor does a shutdown interrupt its sleep. */
  ghost predicate Undisturbed(a: Attempt) { Fails(a) && !a.stopInSleep }

  /** The first attempt that was disturbed, or the end of the attempts. */
  ghost predicate Lasts(attempts: seq<Attempt>, n: nat) {
    && n <= |attempts| && (forall i | 0 <= i < n :: Undisturbed(attempts[i]))
    && (n < |attempts| ==> !Undisturbed(attempts[n]))
  }

  /** How many attempts are announced as lost: the undisturbed ones, and one whose sleep was interrupted. */
  ghost function Lost(attempts: seq<Attempt>, n: nat): nat {
    if n < |attempts| && Fails(attempts[n]) then n + 1 else n
  }

  /** How many attempts open a connection: among the undisturbed ones, and the last if it got to try. */
  ghost function Opened(attempts: seq<Attempt>, n: nat): nat
    requires n <= |attempts|
  {
    CountOpen(attempts[..n]) + if n < |attempts| && !attempts[n].stopBefore && attempts[n].connects then 1 else 0
  }

  function CountOpen(attempts: seq<Attempt>): nat {
    if attempts == [] then 0 else (if attempts[0].connects then 1 else 0) + CountOpen(attempts[1..])
  }

  function CountResync(attempts: seq<Attempt>): nat {
    if attempts == [] then 0 else (if attempts[0].resyncs then 1 else 0) + CountResync(attempts[1..])
  }

  lemma {:induction false} DeletionSeen(frames: seq<Frame>)
    ensures SeesDeletion(frames) <==> Gone(frames)
    decreases |frames|
  {
    if frames != [] && frames[0].Data? {
      DeletionSeen(frames[1..]);
      if Gone(frames[1..]) {
        var i :| 0 <= i < |frames[1..]| && frames[1..][i].Deleted? && forall j | 0 <= j < i :: frames[1..][j].Data?;
        forall j | 0 <= j < i + 1 ensures frames[j].Data? {
          if j > 0 { assert frames[1..][j - 1] == frames[j]; }
        }
        assert frames[i + 1].Deleted?;
      }
      if Gone(frames) {
        var i :| 0 <= i < |frames| && frames[i].Deleted? && forall j | 0 <= j < i :: frames[j].Data?;
        assert frames[1..][i - 1].Deleted?;
      }
    } else if frames != [] && frames[0].Deleted? {
      assert Gone(frames);
    }
  }

  /** Frames are forwarded in order, none skipped and none twice, up to and including the first that is
      not a plain event; only one that is not JSON is withheld. */
  lemma {:induction false} ForwardedInOrder(frames: seq<Frame>)
    ensures var sent := Forwarded(frames);
            && |sent| <= |frames| && (forall i | 0 <= i < |sent| :: sent[i] == Event(frames[i]))
            && (forall i | 0 <= i < |sent| - 1 :: frames[i].Data?)
            && (|sent| < |frames| ==> frames[|sent|].Garbled? || (sent != [] && !frames[|sent| - 1].Data?))
            && (forall i | 0 <= i < |sent| :: !frames[i].Garbled?)
    decreases |frames|
  {
    if frames != [] && frames[0].Data? {
      ForwardedInOrder(frames[1..]);
      var sent, rest := Forwarded(frames), Forwarded(frames[1..]);
      assert sent == [Event(frames[0])] + rest;
      forall i | 0 <= i < |sent| ensures sent[i] == Event(frames[i]) && !frames[i].Garbled? {
        if i > 0 { assert sent[i] == rest[i - 1] && frames[1..][i - 1] == frames[i]; }
      }
      forall i | 0 <= i < |sent| - 1 ensures frames[i].Data? {
        if i > 0 { assert frames[1..][i - 1] == frames[i]; }
      }
    }
  }

  lemma {:induction false} ForwardedNotUp(frames: seq<Frame>)
    ensures Count(Forwarded(frames), Status(true)) == 0
  {
    if frames != [] && frames[0].Data? {
      ForwardedNotUp(frames[1..]);
      assert Forwarded(frames)[1..] == Forwarded(frames[1..]);
    } else if frames != [] && !frames[0].Garbled? {
      assert Forwarded(frames)[1..] == [];
    }
  }

  lemma TurnUp(a: Attempt)
    ensures Count(Turn(a), Status(true)) == if !a.stopBefore && a.connects then 1 else 0
  {
    if !a.stopBefore {
      var end := if Retried(a) then Resync(a) else [];
      ForwardedNotUp(a.frames);
      assert a.connects ==> Connection(a)[1..] == Forwarded(a.frames);
      assert Resync(a)[1..] == if a.resyncs then [Snapshot] else [];
      assert [Snapshot][1..] == [];
      assert Count(Resync(a), Status(true)) == 0;
      CountConcat(Connection(a), end, Status(true));
    }
  }

  lemma LastsRest(attempts: seq<Attempt>, n: nat)
    requires Lasts(attempts, n) && 0 < n
    ensures Lasts(attempts[1..], n - 1) && Lost(attempts, n) == 1 + Lost(attempts[1..], n - 1)
    ensures Opened(attempts, n) == (if attempts[0].connects then 1 else 0) + Opened(attempts[1..], n - 1)
    ensures Undisturbed(attempts[0])
  {
    var rest := attempts[1..];
    forall i | 0 <= i < n - 1 ensures Undisturbed(rest[i]) { assert rest[i] == attempts[i + 1]; }
    assert attempts[..n][0] == attempts[0] && attempts[..n][1..] == rest[..n - 1];
    assert n < |attempts| ==> attempts[n] == rest[n - 1];
  }

  /** What a run tells the editor and waits for, if its first disturbed attempt is the one numbered `n`:
      it goes on that far, over failed connections too, and tells of every connection, every loss and
      every resync on the way. */
  ghost predicate HowFar(attempts: seq<Attempt>, n: nat) {
    && n <= |attempts| && Lost(attempts, n) <= |attempts|
    && Slept(attempts) == Connected(attempts[..Lost(attempts, n)])
    && Count(Trace(attempts), Status(false)) == Lost(attempts, n)
    && Count(Trace(attempts), Status(true)) == Opened(attempts, n)
    && Count(Trace(attempts), Snapshot) == CountResync(attempts[..Lost(attempts, n)])
  }

  /** Every run gets exactly so far. */
  lemma {:induction false} RunGoesOn(attempts: seq<Attempt>, n: nat)
    requires Lasts(attempts, n)
    ensures HowFar(attempts, n)
    decreases |attempts|
  {
    if attempts == [] {
      assert attempts[..0] == [];
    } else if n > 0 {
      LastsRest(attempts, n);
      RunGoesOn(attempts[1..], n - 1);
      RunStep(attempts, n);
    } else {
      RunStops(attempts);
    }
  }

  lemma RunStep(attempts: seq<Attempt>, n: nat)
    requires 0 < n && Lasts(attempts, n) && HowFar(attempts[1..], n - 1)
    ensures HowFar(attempts, n)
  {
    var a, rest := attempts[0], attempts[1..];
    DeletionSeen(a.frames);
    LastsRest(attempts, n);
    assert GoesOn(a);
    TurnCount(a);
    TurnUp(a);
    TraceOn(attempts);
    FirstOf(attempts, Lost(attempts, n));
    hide Turn, Trace, Slept, Lasts, Undisturbed, Fails, Lost, Opened, GoesOn, Connected, CountResync, Count;
    CountConcat(Turn(a), Trace(rest), Status(true));
    CountConcat(Turn(a), Trace(rest), Status(false));
    CountConcat(Turn(a), Trace(rest), Snapshot);
  }

  lemma FirstOf(attempts: seq<Attempt>, m: nat)
    requires 0 < m <= |attempts|
    ensures Connected(attempts[..m]) == [attempts[0].connects] + Connected(attempts[1..][..m - 1])
    ensures CountResync(attempts[..m]) == (if attempts[0].resyncs then 1 else 0) + CountResync(attempts[1..][..m - 1])
  {
    assert attempts[..m][0] == attempts[0] && attempts[..m][1..] == attempts[1..][..m - 1];
  }

  lemma TraceOn(attempts: seq<Attempt>)
    requires attempts != [] && GoesOn(attempts[0])
    ensures Trace(attempts) == Turn(attempts[0]) + Trace(attempts[1..])
    ensures Slept(attempts) == [attempts[0].connects] + Slept(attempts[1..])
  {
  }

  /** The run ends with its first attempt. */
  lemma RunStops(attempts: seq<Attempt>)
    requires attempts != [] && Lasts(attempts, 0)
    ensures HowFar(attempts, 0)
  {
    var a, m := attempts[0], Lost(attempts, 0);
    DeletionSeen(a.frames);
    TurnCount(a);
    TurnUp(a);
    assert Trace(attempts) == Turn(a);
    assert attempts[..0] == [];
    if m == 1 { FirstOf(attempts, 1); }
  }

  /** Whether each of the first attempts connected. */
  function Connected(attempts: seq<Attempt>): (flags: seq<bool>)
    ensures |flags| == |attempts| && forall i | 0 <= i < |attempts| :: flags[i] == attempts[i].connects
  {
    if attempts == [] then [] else [attempts[0].connects] + Connected(attempts[1..])
  }

  /** What nobody hears after the first disturbed attempt: later ones do not matter. */
  lemma {:induction false} NothingAfterStop(attempts: seq<Attempt>, n: nat)
    requires Lasts(attempts, n) && n < |attempts|
    ensures Trace(attempts) == Trace(attempts[..n + 1])
    decreases |attempts|
  {
    DeletionSeen(attempts[0].frames);
    var cut := attempts[..n + 1];
    assert cut[0] == attempts[0] && cut[1..] == attempts[1..][..n];
    if n > 0 {
      LastsRest(attempts, n);
      NothingAfterStop(attempts[1..], n - 1);
    }
  }
}
