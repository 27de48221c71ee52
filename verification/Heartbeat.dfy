/** The watcher's heartbeat against the server's staleness window, in seconds. */
module Heartbeat {
  import opened Common

  const HEARTBEAT_INTERVAL := 240.0
  const STALE_AFTER := 600.0

  /** One pass of the loop: the time read after the scan, the newest file, and whether and when the
      server would commit a presence update posted now. */
  datatype Pass = Pass(now: real, latest: Option<string>, accepted: bool, seen: real)

  datatype Sent = Sent(reported: Option<string>, at: real)

  const NOTHING_SENT := Sent(None, 0.0)

  predicate Posts(s: Sent, p: Pass) {
    p.latest.Some? && (p.latest != s.reported || p.now - s.at >= HEARTBEAT_INTERVAL)
  }

  predicate Reports(s: Sent, p: Pass) { Posts(s, p) && p.accepted }

  /** `last_reported` and `last_sent` after the passes. */
  function State(passes: seq<Pass>): Sent {
    if passes == [] then NOTHING_SENT
    else
      var before, p := State(passes[..|passes| - 1]), passes[|passes| - 1];
      if Reports(before, p) then Sent(p.latest, p.now) else before
  }

  /** The `last_seen` the server stores at time `t`, once it committed an update. */
  function Stored(passes: seq<Pass>, t: real): Option<real> {
    if passes == [] then None
    else
      var before, p := passes[..|passes| - 1], passes[|passes| - 1];
      if Reports(State(before), p) && p.seen <= t then Some(p.seen) else Stored(before, t)
  }

  /** How many posts in a row have failed by now. */
  function Failing(passes: seq<Pass>): nat {
    if passes == [] then 0
    else
      var before, p := passes[..|passes| - 1], passes[|passes| - 1];
      if !Posts(State(before), p) then Failing(before) else if p.accepted then 0 else Failing(before) + 1
  }

  lemma StateStep(passes: seq<Pass>, i: nat)
    requires i < |passes|
    ensures State(passes[..i + 1])
            == if Reports(State(passes[..i]), passes[i]) then Sent(passes[i].latest, passes[i].now)
                else State(passes[..i])
  {
    assert passes[..i + 1][..i] == passes[..i];
  }

  /** The pass reports a file, and the last accepted post, if there was one, was of another file or at least
      240 seconds ago. */
  ghost predicate Due(passes: seq<Pass>, posted: seq<bool>, i: nat)
    requires i < |passes| <= |posted|
  {
    && passes[i].latest.Some?
    && forall j | 0 <= j < i && LastAccepted(passes, posted, j, i) ::
         passes[i].latest != passes[j].latest || passes[i].now - passes[j].now >= 240.0
  }

  /** The last post accepted before pass `i` is that of pass `j`. */
  ghost predicate LastAccepted(passes: seq<Pass>, posted: seq<bool>, j: nat, i: nat)
    requires j < i <= |passes| <= |posted|
  {
    posted[j] && passes[j].accepted && forall k | j < k < i :: !(posted[k] && passes[k].accepted)
  }

  /** The two variables of the loop hold the last accepted post. */
  lemma {:induction false} LastReport(passes: seq<Pass>, posted: seq<bool>, i: nat) returns (j: int)
    requires i <= |passes| == |posted|
    requires forall k | 0 <= k < i :: posted[k] <==> Posts(State(passes[..k]), passes[k])
    ensures -1 <= j < i
    ensures if j == -1 then
              State(passes[..i]) == NOTHING_SENT && forall k | 0 <= k < i :: !(posted[k] && passes[k].accepted)
            else
              LastAccepted(passes, posted, j, i) && State(passes[..i]) == Sent(passes[j].latest, passes[j].now)
    ensures j >= 0 ==> passes[j].latest.Some?
  {
    j := -1;
    if i > 0 {
      StateStep(passes, i - 1);
      if posted[i - 1] && passes[i - 1].accepted {
        j := i - 1;
      } else {
        j := LastReport(passes, posted, i - 1);
      }
    }
  }

  lemma DueExactly(passes: seq<Pass>, posted: seq<bool>, i: nat)
    requires i < |passes| == |posted|
    requires forall k | 0 <= k < |passes| :: posted[k] <==> Posts(State(passes[..k]), passes[k])
    ensures posted[i] <==> Due(passes, posted, i)
  {
    var j := LastReport(passes, posted, i);
    forall k | 0 <= k < i && LastAccepted(passes, posted, k, i) ensures k == j {
      assert k == j || k < j || j < k;
    }
  }

  /** `watch`: the loop with its two variables; `posted` says in which passes it posted. */
  method Watch(passes: seq<Pass>) returns (lastReported: Option<string>, lastSent: real, posted: seq<bool>)
    ensures Sent(lastReported, lastSent) == State(passes)
    ensures |posted| == |passes| && forall i | 0 <= i < |passes| :: posted[i] <==> Posts(State(passes[..i]), passes[i])
    ensures forall i | 0 <= i < |passes| :: posted[i] <==> Due(passes, posted, i)
  {
    lastReported, lastSent, posted := None, 0.0, [];
    var i := 0;
    assert State(passes[..0]) == NOTHING_SENT;
    hide State, Due;
    while i < |passes|
      invariant 0 <= i <= |passes| && |posted| == i
      invariant Sent(lastReported, lastSent) == State(passes[..i])
      invariant forall j | 0 <= j < i :: posted[j] <==> Posts(State(passes[..j]), passes[j])
    {
      var p := passes[i];
      StateStep(passes, i);
      var due := p.latest.Some? && (p.latest != lastReported || p.now - lastSent >= HEARTBEAT_INTERVAL);
      posted := posted + [due];
      if due && p.accepted {
        lastReported, lastSent := p.latest, p.now;
      }
      i := i + 1;
    }
    Whole(passes);
    forall k | 0 <= k < |passes| ensures posted[k] <==> Due(passes, posted, k) { DueExactly(passes, posted, k); }
  }

  /** What the environment keeps: a pass starts at most `d` after the previous one and finds a file, the
      server commits an update within `l` of the time read and before the next pass, and no more
      than `m` posts in a row fail. */
  ghost predicate Paced(passes: seq<Pass>, d: real, l: real, m: nat) {
    && (forall i | 0 <= i < |passes| :: passes[i].latest.Some? && passes[i].now <= passes[i].seen <= passes[i].now + l)
    && (forall i | 0 < i < |passes| :: passes[i - 1].seen <= passes[i].now <= passes[i - 1].now + d)
    && (forall n | 0 <= n <= |passes| :: Failing(passes[..n]) <= m)
  }

  lemma PacedPrefix(passes: seq<Pass>, n: nat, d: real, l: real, m: nat)
    requires Paced(passes, d, l, m) && n <= |passes|
    ensures Paced(passes[..n], d, l, m)
  {
    var before := passes[..n];
    forall k | 0 <= k <= n ensures Failing(before[..k]) <= m { assert before[..k] == passes[..k]; }
  }

  predicate Reported(passes: seq<Pass>) {
    passes != [] && (Reports(State(passes[..|passes| - 1]), passes[|passes| - 1]) || Reported(passes[..|passes| - 1]))
  }

  /** `n` passes of at most `d` seconds. */
  function Slip(n: nat, d: real): real { n as real * d }

  lemma SlipNext(n: nat, d: real)
    ensures Slip(0, d) == 0.0 && Slip(n + 1, d) == Slip(n, d) + d
  {
  }

  lemma {:induction false} SlipMonotone(n: nat, m: nat, d: real)
    requires n <= m && d >= 0.0
    ensures Slip(n, d) <= Slip(m, d)
    decreases m
  {
    hide Slip;
    if n < m {
      SlipMonotone(n, m - 1, d);
      SlipNext(m - 1, d);
    }
  }

  lemma SlipNonNegative(m: nat, d: real)
    requires d >= 0.0
    ensures Slip(m, d) >= 0.0
  {
    SlipMonotone(0, m, d);
  }

  /** How long ago the last accepted update was sent, at the latest pass. */
  lemma {:induction false} Overdue(passes: seq<Pass>, d: real, l: real, m: nat)
    requires Paced(passes, d, l, m) && Reported(passes) && d >= 0.0
    ensures passes[|passes| - 1].now - State(passes).at < 240.0 + Slip(Failing(passes), d)
    decreases |passes|, 1
  {
    var before, p := passes[..|passes| - 1], passes[|passes| - 1];
    SlipNonNegative(Failing(passes), d);
    assert p.latest.Some?;
    if Reports(State(before), p) {
      assert State(passes).at == p.now;
    } else if Posts(State(before), p) {
      OneMoreFailure(passes, d, l, m);
    }
  }

  lemma {:induction false} OneMoreFailure(passes: seq<Pass>, d: real, l: real, m: nat)
    requires Paced(passes, d, l, m) && Reported(passes) && d >= 0.0
    requires !passes[|passes| - 1].accepted && Posts(State(passes[..|passes| - 1]), passes[|passes| - 1])
    ensures passes[|passes| - 1].now - State(passes).at < HEARTBEAT_INTERVAL + Slip(Failing(passes), d)
    decreases |passes|, 0
  {
    var before, p := passes[..|passes| - 1], passes[|passes| - 1];
    PacedPrefix(passes, |before|, d, l, m);
    assert before != [];
    assert p.now <= passes[|passes| - 1 - 1].now + d;
    hide Slip, Paced;
    Overdue(before, d, l, m);
    SlipNext(Failing(before), d);
  }

  lemma OverdueAtMost(passes: seq<Pass>, d: real, l: real, m: nat)
    requires Paced(passes, d, l, m) && Reported(passes) && d >= 0.0
    ensures passes[|passes| - 1].now - State(passes).at < 240.0 + Slip(m, d)
  {
    hide Slip;
    Overdue(passes, d, l, m);
    assert passes[..|passes|] == passes;
    SlipMonotone(Failing(passes), m, d);
  }

  /** Every update accepted in these passes was committed by `t`. */
  ghost predicate Committed(passes: seq<Pass>, t: real) {
    forall i | 0 <= i < |passes| :: passes[i].seen <= t
  }

  /** Then what is stored is not older than the last time an update was sent. */
  lemma {:induction false} StoredIsRecent(passes: seq<Pass>, t: real)
    requires Stored(passes, t).Some?
    requires forall i | 0 <= i < |passes| :: passes[i].now <= passes[i].seen
    requires Committed(passes, t)
    ensures Reported(passes) && State(passes).at <= Stored(passes, t).value
  {
    var before, p := passes[..|passes| - 1], passes[|passes| - 1];
    if !Reports(State(before), p) {
      StoredIsRecent(before, t);
    }
  }

  lemma {:induction false} SeenByNext(passes: seq<Pass>, i: nat, d: real, l: real, m: nat)
    requires Paced(passes, d, l, m) && i + 1 < |passes|
    ensures passes[i].seen <= passes[|passes| - 1].now
    decreases |passes| - i
  {
    assert passes[i + 1 - 1].seen <= passes[i + 1].now <= passes[i + 1].seen;
    if i + 2 < |passes| {
      SeenByNext(passes, i + 1, d, l, m);
    }
  }

  ghost predicate WellPaced(d: real, l: real, m: nat) {
    d >= 0.0 && l >= 0.0 && HEARTBEAT_INTERVAL + Slip(m + 1, d) + l <= STALE_AFTER
  }

  /** Between two accepted updates, up to the end of the next pass. */
  lemma SinceLast(passes: seq<Pass>, t: real, next: real, d: real, l: real, m: nat)
    requires Paced(passes, d, l, m) && WellPaced(d, l, m)
    requires Stored(passes, t).Some? && Committed(passes, t)
    requires t <= next + l && next <= passes[|passes| - 1].now + d
    ensures Stored(passes, t).value > t - STALE_AFTER
  {
    hide Slip, Stored, State;
    StoredIsRecent(passes, t);
    OverdueAtMost(passes, d, l, m);
    SlipNext(m, d);
  }

  /** Presence never goes stale: from its first accepted update on, at every moment up to the last
      pass, the actor's `last_seen` is inside the ten-minute window of the presence listing. */
  lemma {:induction false} NeverStale(passes: seq<Pass>, t: real, d: real, l: real, m: nat)
    requires Paced(passes, d, l, m) && WellPaced(d, l, m)
    requires passes != [] && t <= passes[|passes| - 1].now && Stored(passes, t).Some?
    ensures Stored(passes, t).value > t - 600.0
  {
    hide WellPaced, Failing;
    var before, p := passes[..|passes| - 1], passes[|passes| - 1];
    if !(Reports(State(before), p) && p.seen <= t) {
      PacedPrefix(passes, |before|, d, l, m);
      var last := before[|before| - 1];
      assert passes[|passes| - 1 - 1] == last;
      if t <= last.now {
        NeverStale(before, t, d, l, m);
      } else {
        StaleGap(before, t, p.now, d, l, m);
      }
    }
  }

  /** The moments after the last of some passes and before the next one reads the clock. */
  lemma StaleGap(passes: seq<Pass>, t: real, next: real, d: real, l: real, m: nat)
    requires Paced(passes, d, l, m) && WellPaced(d, l, m)
    requires passes != [] && passes[|passes| - 1].now < t <= next <= passes[|passes| - 1].now + d
    requires Stored(passes, t).Some?
    ensures Stored(passes, t).value > t - STALE_AFTER
  {
    hide Failing, Slip;
    var before, last := passes[..|passes| - 1], passes[|passes| - 1];
    forall i | 0 <= i < |before| ensures before[i].seen <= t { SeenByNext(passes, i, d, l, m); }
    if last.seen <= t {
      SinceLast(passes, t, next, d, l, m);
    } else {
      PacedPrefix(passes, |before|, d, l, m);
      assert before[|before| - 1] == passes[|passes| - 1 - 1];
      SinceLast(before, t, last.now, d, l, m);
    }
  }
}
