/** The VS Code client as an object: the pending map holds the very promises handed to callers.
    Every method is tied to the client function of module Rpc it performs. */
module HubBridgeClient {
  import opened Common
  import opened Rpc

  /** The `resolve`/`reject` pair of one JavaScript promise. */
  class Deferred {
    const request: nat  // the id its closures captured
    var state: Promise

    constructor (request: nat)
      ensures state == Unsettled && this.request == request
    {
      this.request := request;
      state := Unsettled;
    }

    method Settle(to: Promise)
      modifies this
      ensures state == Rpc.Settle(old(state), to)
    {
      if state.Unsettled? {
        state := to;
      }
    }
  }

  class HubBridgeClient {
    var nextId: nat
    var pending: map<nat, Deferred>
    var timers: set<nat>
    var proc: bool
    var stopped: bool
    var starting: nat  // `start` calls awaiting their preflight
    ghost var issued: map<nat, Deferred>  // every promise ever handed out, by request id
    ghost var handed: set<Deferred>

    constructor ()
      ensures Valid() && Model() == FRESH_CLIENT
    {
      nextId, pending, timers, proc, stopped, starting := 1, map[], {}, false, false, 0;
      issued, handed := map[], {};
    }

    /** Callers and the pending map share the promises; no two requests share one. */
    ghost predicate Valid()
      reads this
    {
      && (forall id | id in pending :: id in issued && pending[id] == issued[id])
      && (forall id | id in issued :: id < nextId && issued[id] in handed && issued[id].request == id)
    }

    ghost function Model(): Client
      requires Valid()
      reads this, handed
    {
      Client(nextId, pending.Keys, timers, map id | id in issued :: issued[id].state, proc, stopped, starting)
    }

    /** `request`: without a running bridge the caller gets a rejected promise and nothing is booked. */
    method Request() returns (promise: Deferred)
      requires Valid()
      modifies this
      ensures Valid() && Model() == Issue(old(Model())) && fresh(promise)
      ensures promise.state == if Running(old(Model())) then Unsettled else Local(NotRunning)
      ensures Running(old(Model())) ==> old(nextId) in issued && issued[old(nextId)] == promise
    {
      promise := new Deferred(nextId);
      if stopped || !proc {
        promise.Settle(Local(NotRunning));
      } else {
        Book(promise);
      }
    }

    /** Take the next id, start its timer and enter it in the pending map. */
    method Book(promise: Deferred)
      requires Valid() && Running(Model()) && promise !in handed && promise.request == nextId
          && promise.state.Unsettled?
      modifies this
      ensures Valid() && Model() == Issue(old(Model()))
      ensures old(nextId) in issued && issued[old(nextId)] == promise
    {
      var id := nextId;
      nextId := nextId + 1;
      timers := timers + {id};
      pending := pending[id := promise];
      issued, handed := issued[id := promise], handed + {promise};
      assert Model().promises == old(Model()).promises[id := Unsettled];
    }

    /** Clear the timer, forget the entry, settle its promise. */
    method Finish(id: nat, to: Promise)
      requires Valid() && id in pending
      modifies this, handed
      ensures issued == old(issued) && handed == old(handed) && pending == old(pending) - {id}
      ensures Valid() && Model() == Close(old(Model()), id, to)
    {
      var entry := pending[id];
      pending := pending - {id};
      timers := timers - {id};
      entry.Settle(to);
    }

    method HandleResponse(r: Reply)
      requires Valid()
      modifies this, handed
      ensures Valid() && Model() == Receive(old(Model()), r)
    {
      if r.id in pending {
        Finish(r.id, if r.body.Error? then Rejected(r.body.code, r.body.status, Remote) else Resolved(r.body.value));
      }
    }

    /** The loop state: the entries outside `left` have been closed. */
    ghost predicate Closing(before: Client, left: set<nat>, cause: Cause)
      reads this, handed
    {
      Valid() && pending.Keys == left <= before.pending && Model() == CloseSet(before, before.pending - left, cause)
    }

    method FailAllPending(cause: Cause)
      requires Valid()
      modifies this, handed
      ensures Valid() && Model() == CloseAll(old(Model()), cause)
    {
      ghost var before := Model();
      CloseNone(before, cause);
      var left := pending.Keys;
      assert before.pending - left == {};
      while left != {}
        invariant handed == old(handed) && Closing(before, left, cause)
        decreases left
      {
        hide *;
        var id :| id in left;
        FailOne(id, before, left, cause);
        left := left - {id};
      }
      assert before.pending - left == before.pending;
    }

    method FailOne(id: nat, ghost before: Client, ghost left: set<nat>, cause: Cause)
      requires id in left && Closing(before, left, cause)
      modifies this, handed
      ensures handed == old(handed) && Closing(before, left - {id}, cause)
    {
      hide Close, CloseSet, Valid;
      CloseOneMore(before, before.pending - left, id, cause);
      assert before.pending - left + {id} == before.pending - (left - {id});
      Finish(id, Local(cause));
    }

    /** What the timer and the write callback of a request do: both closures hold its id and promise. */
    method Abandon(id: nat, promise: Deferred, to: Promise)
      requires Valid() && id in issued && issued[id] == promise
      modifies this, handed
      ensures Valid() && Model() == Close(old(Model()), id, to)
    {
      timers := timers - {id};
      pending := pending - {id};
      promise.Settle(to);
      assert Model().promises == Close(old(Model()), id, to).promises;
    }

    /** A timer that was not cleared runs out. */
    method OnTimeout(id: nat, promise: Deferred)
      requires Valid() && id in timers && id in issued && issued[id] == promise
      modifies this, handed
      ensures Valid() && Model() == TimerFires(old(Model()), id)
    {
      Abandon(id, promise, Local(TimedOut));
    }

    /** The callback of `stdin.write`. */
    method OnWritten(id: nat, promise: Deferred, failed: bool)
      requires Valid() && id in issued && issued[id] == promise
      modifies this, handed
      ensures Valid() && Model() == if failed then WriteFails(old(Model()), id) else old(Model())
    {
      if failed {
        Abandon(id, promise, Local(WriteFailed));
      }
    }

    method OnProcessError()
      requires Valid()
      modifies this, handed
      ensures Valid() && Model() == ProcessError(old(Model()))
    {
      FailAllPending(ProcessFailed);
    }

    method OnExit()
      requires Valid()
      modifies this, handed
      ensures Valid() && Model() == Exit(old(Model()))
    {
      var wasStopped := stopped;
      proc := false;
      if !wasStopped {
        FailAllPending(Exited);
      }
    }

    method Dispose()
      requires Valid()
      modifies this, handed
      ensures Valid() && Model() == Rpc.Dispose(old(Model()))
    {
      hide CloseSet;
      stopped := true;
      assert Model() == old(Model()).(stopped := true);
      FailAllPending(Disposed);
      ghost var closed := Model();
      proc := false;
      assert Model() == closed.(proc := false);
    }

    /** `start` up to its preflight; true when a preflight is now under way. */
    method Start() returns (checking: bool)
      requires Valid()
      modifies this`starting
      ensures Valid() && Model() == StartCalled(old(Model())) && checking == !Running(old(Model()))
    {
      checking := !proc || stopped;
      if checking {
        starting := starting + 1;
      }
    }

    /** The preflight of one `start` is over. */
    method OnPreflight(ok: bool)
      requires Valid() && starting > 0
      modifies this`starting, this`stopped, this`proc
      ensures Valid() && Model() == PreflightDone(old(Model()), ok)
    {
      starting := starting - 1;
      if ok {
        stopped := false;
        proc := true;
      }
    }
  }

  lemma CloseNone(c: Client, cause: Cause)
    ensures CloseSet(c, {}, cause) == c
  {
    assert CloseSet(c, {}, cause).promises == c.promises;
  }

  lemma CloseOneMore(c: Client, ids: set<nat>, id: nat, cause: Cause)
    ensures Close(CloseSet(c, ids, cause), id, Local(cause)) == CloseSet(c, ids + {id}, cause)
  {
    var l, r := Close(CloseSet(c, ids, cause), id, Local(cause)), CloseSet(c, ids + {id}, cause);
    assert l.promises == r.promises;
  }
}
