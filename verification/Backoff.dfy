/** Reconnect delays. The bridge doubles a variable, the dashboard raises two to a counter; over
    every run of connection attempts they wait equally long. */
module Backoff {
  import opened Common

  const MIN_SECONDS := 1
  const MAX_SECONDS := 30
  const MIN_MILLIS := 1000
  const MAX_MILLIS := 30000

  function Pow2(n: nat): nat {
    if n == 0 then 1 else 2 * Pow2(n - 1)
  }

  /** The dashboard's closed form. */
  function WebDelay(retries: nat): int {
    Min(MIN_MILLIS * Pow2(retries), MAX_MILLIS)
  }

  /** In milliseconds: one second, doubled with every attempt up to half a minute. */
  lemma DelayInMillis(retries: nat)
    ensures WebDelay(retries) == if retries < 5 then [1000, 2000, 4000, 8000, 16000][retries] else 30000
  {
    PowersOfTwo(retries);
  }

  lemma {:induction false} PowersOfTwo(n: nat)
    ensures if n < 5 then Pow2(n) == [1, 2, 4, 8, 16][n] else Pow2(n) >= 32
  {
    if n > 0 { PowersOfTwo(n - 1); }
  }

  /** `outcomes` says of every attempt so far whether it connected before it dropped. */
  function Retries(outcomes: seq<bool>): nat {
    if outcomes == [] then 0
    else if outcomes[|outcomes| - 1] then 1
    else Retries(outcomes[..|outcomes| - 1]) + 1
  }

  /** The dashboard's delays after each attempt: `onopen` resets the counter, `onclose` raises it. */
  function WebDelays(outcomes: seq<bool>): (d: seq<int>)
    ensures |d| == |outcomes|
  {
    if outcomes == [] then []
    else
      var before := outcomes[..|outcomes| - 1];
      WebDelays(before) + [WebDelay(if outcomes[|before|] then 0 else Retries(before))]
  }

  /** The bridge's `backoff` variable after each attempt was slept off. */
  function Doubled(backoff: int): int { Min(backoff * 2, MAX_SECONDS) }

  function BridgeBackoff(outcomes: seq<bool>): int {
    if outcomes == [] then MIN_SECONDS
    else if outcomes[|outcomes| - 1] then Doubled(MIN_SECONDS)
    else Doubled(BridgeBackoff(outcomes[..|outcomes| - 1]))
  }

  function BridgeDelays(outcomes: seq<bool>): (d: seq<int>)
    ensures |d| == |outcomes|
  {
    if outcomes == [] then []
    else
      var before := outcomes[..|outcomes| - 1];
      BridgeDelays(before) + [if outcomes[|before|] then MIN_SECONDS else BridgeBackoff(before)]
  }

  lemma CapAndDouble(retries: nat, backoff: int)
    requires MIN_MILLIS * backoff == WebDelay(retries)
    ensures MIN_MILLIS * Doubled(backoff) == WebDelay(retries + 1)
  {
    assert Pow2(retries + 1) == 2 * Pow2(retries);
  }

  lemma {:induction false} BackoffIsRetries(outcomes: seq<bool>)
    ensures MIN_MILLIS * BridgeBackoff(outcomes) == WebDelay(Retries(outcomes))
  {
    if outcomes == [] {
    } else if outcomes[|outcomes| - 1] {
      CapAndDouble(0, MIN_SECONDS);
    } else {
      BackoffIsRetries(outcomes[..|outcomes| - 1]);
      CapAndDouble(Retries(outcomes[..|outcomes| - 1]), BridgeBackoff(outcomes[..|outcomes| - 1]));
    }
  }

  /** The doubling variable refines the closed form, delay by delay, up to seconds and milliseconds. */
  lemma {:induction false} SameSchedule(outcomes: seq<bool>)
    ensures forall i | 0 <= i < |outcomes| :: 1000 * BridgeDelays(outcomes)[i] == WebDelays(outcomes)[i]
  {
    if outcomes != [] {
      var before := outcomes[..|outcomes| - 1];
      SameSchedule(before);
      BackoffIsRetries(before);
      assert Pow2(0) == 1;
    }
  }

  /** What the schedule is: the delay after an attempt depends only on how many attempts in a row
      failed to connect, and it is the capped power of two of that number. */
  lemma {:induction false} DelayAfterMisses(outcomes: seq<bool>, misses: nat)
    requires misses <= |outcomes| && outcomes != []
    requires forall i | |outcomes| - misses <= i < |outcomes| :: !outcomes[i]
    requires misses < |outcomes| ==> outcomes[|outcomes| - misses - 1]
    ensures WebDelays(outcomes)[|outcomes| - 1]
            == WebDelay(if misses == |outcomes| then misses - 1 else misses)
  {
    var before := outcomes[..|outcomes| - 1];
    if misses > 0 {
      RetriesAfterMisses(before, misses - 1);
    }
  }

  lemma {:induction false} RetriesAfterMisses(outcomes: seq<bool>, misses: nat)
    requires misses <= |outcomes|
    requires forall i | |outcomes| - misses <= i < |outcomes| :: !outcomes[i]
    requires misses < |outcomes| ==> outcomes[|outcomes| - misses - 1]
    ensures Retries(outcomes) == if misses == |outcomes| then misses else misses + 1
    decreases misses
  {
    if misses > 0 {
      RetriesAfterMisses(outcomes[..|outcomes| - 1], misses - 1);
    }
  }
}
