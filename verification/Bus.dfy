/** The bounded fan-out bus: one queue of at most 1000 events per subscriber, and an event
    that finds a queue full is dropped for that subscriber only. */
module Bus {
  import opened Common

  const CAPACITY: nat := 1000

  datatype Published<+E> = Published(slug: string, event: E)

  /** One subscriber, in terms of positions in the publish log: `accepted` were put into its
      queue (the first `taken` of them already handed out), `dropped` found it full. */
  datatype Sub = Sub(slug: string, since: nat, accepted: seq<nat>, taken: nat, dropped: seq<nat>)

  datatype Hub<!K, +E> = Hub(log: seq<Published<E>>, subs: map<K, Sub>)

  datatype Action<+K, +E> =
    | Publish(slug: string, event: E)
    | Subscribe(who: K, to: string)
    | Get(who: K)
    | Unsubscribe(who: K)

  function Backlog(s: Sub): int {
    |s.accepted| - s.taken
  }

  function Offer(s: Sub, at: nat): Sub {
    if Backlog(s) < CAPACITY then s.(accepted := s.accepted + [at]) else s.(dropped := s.dropped + [at])
  }

  function Take(s: Sub): Sub {
    if Backlog(s) > 0 then s.(taken := s.taken + 1) else s
  }

  function Act<K, E>(h: Hub<K, E>, a: Action<K, E>): Hub<K, E> {
    match a
    case Publish(slug, e) =>
      Hub(h.log + [Published(slug, e)],
          map k | k in h.subs :: if h.subs[k].slug == slug then Offer(h.subs[k], |h.log|) else h.subs[k])
    case Subscribe(who, slug) =>
      if who in h.subs then h else h.(subs := h.subs[who := Sub(slug, |h.log|, [], 0, [])])
    case Get(who) => if who in h.subs then h.(subs := h.subs[who := Take(h.subs[who])]) else h
    case Unsubscribe(who) => h.(subs := h.subs - {who})
  }

  function ActAll<K, E>(h: Hub<K, E>, acts: seq<Action<K, E>>): Hub<K, E>
    decreases |acts|
  {
    if acts == [] then h else ActAll(Act(h, acts[0]), acts[1..])
  }

  lemma {:induction false} ActConcat<K, E>(h: Hub<K, E>, a: seq<Action<K, E>>, b: seq<Action<K, E>>)
    ensures ActAll(h, a + b) == ActAll(ActAll(h, a), b)
    decreases |a|
  {
    if a == [] {
      assert a + b == b;
    } else {
      assert a + b == [a[0]] + (a[1..] + b);
      ActConcat(Act(h, a[0]), a[1..], b);
    }
  }

  // -------------------------------------------------------------------------
  // Conservation and order
  // -------------------------------------------------------------------------

  ghost predicate Increasing(s: seq<nat>) {
    forall i, j | 0 <= i < j < |s| :: s[i] < s[j]
  }

  /** The positions published on the subscriber's slug since it subscribed. */
  ghost predicate Relevant<E>(s: Sub, log: seq<Published<E>>, i: nat) {
    s.since <= i < |log| && log[i].slug == s.slug
  }

  /** Accepted and dropped positions, each in publish order, split what was published since the subscription. */
  ghost predicate Conserved<E>(s: Sub, log: seq<Published<E>>) {
    && s.since <= |log| && s.taken <= |s.accepted| && Backlog(s) <= CAPACITY
    && Increasing(s.accepted) && Increasing(s.dropped)
    && (forall i: nat :: Relevant(s, log, i) <==> (i in s.accepted || i in s.dropped))
    && (forall i | i in s.accepted :: i !in s.dropped)
  }

  ghost predicate Valid<K, E>(h: Hub<K, E>) {
    forall k | k in h.subs :: Conserved(h.subs[k], h.log)
  }

  lemma AppendIncreasing(s: seq<nat>, n: nat)
    requires Increasing(s) && forall i | i in s :: i < n
    ensures Increasing(s + [n])
  {
    forall i | 0 <= i < |s| ensures s[i] < n { assert s[i] in s; }
  }

  lemma OfferConserves<E>(s: Sub, log: seq<Published<E>>, e: E)
    requires Conserved(s, log)
    ensures Conserved(Offer(s, |log|), log + [Published(s.slug, e)])
  {
    var log' := log + [Published(s.slug, e)];
    var s' := Offer(s, |log|);
    forall i | i in s.accepted || i in s.dropped ensures i < |log| { assert Relevant(s, log, i); }
    if Backlog(s) < CAPACITY {
      AppendIncreasing(s.accepted, |log|);
    } else {
      AppendIncreasing(s.dropped, |log|);
    }
    forall i: nat ensures Relevant(s', log', i) <==> (i in s'.accepted || i in s'.dropped) {
      assert Relevant(s', log', i) <==> Relevant(s, log, i) || i == |log|;
    }
  }

  lemma OtherSlugConserves<E>(s: Sub, log: seq<Published<E>>, p: Published<E>)
    requires Conserved(s, log) && p.slug != s.slug
    ensures Conserved(s, log + [p])
  {
    forall i: nat ensures Relevant(s, log + [p], i) <==> (i in s.accepted || i in s.dropped) {
      assert Relevant(s, log + [p], i) <==> Relevant(s, log, i);
    }
  }

  lemma ValidAct<K, E>(h: Hub<K, E>, a: Action<K, E>)
    requires Valid(h)
    ensures Valid(Act(h, a))
  {
    if a.Publish? {
      forall k | k in h.subs ensures Conserved(Act(h, a).subs[k], Act(h, a).log) {
        if h.subs[k].slug == a.slug {
          OfferConserves(h.subs[k], h.log, a.event);
        } else {
          OtherSlugConserves(h.subs[k], h.log, Published(a.slug, a.event));
        }
      }
    }
  }

  /** Conservation and order in every reachable bus. */
  lemma {:induction false} ValidActAll<K, E>(h: Hub<K, E>, acts: seq<Action<K, E>>)
    requires Valid(h)
    ensures Valid(ActAll(h, acts))
    decreases |acts|
  {
    if acts != [] {
      ValidAct(h, acts[0]);
      ValidActAll(Act(h, acts[0]), acts[1..]);
    }
  }

  /** Any two subscribers of a slug see the events they share in the same order. */
  lemma CommonOrder<E>(a: Sub, b: Sub, log: seq<Published<E>>, i: nat, j: nat, k: nat, l: nat)
    requires Conserved(a, log) && Conserved(b, log)
    requires i < |a.accepted| && j < |a.accepted| && k < |b.accepted| && l < |b.accepted|
    requires a.accepted[i] == b.accepted[k] && a.accepted[j] == b.accepted[l]
    ensures i < j <==> k < l
  {
  }

  // -------------------------------------------------------------------------
  // Drops happen exactly at a full queue, and only there
  // -------------------------------------------------------------------------

  /** `who` stays subscribed throughout the actions. */
  predicate Stays<K(==), E>(acts: seq<Action<K, E>>, who: K) {
    forall i | 0 <= i < |acts| :: acts[i] != Unsubscribe(who)
  }

  lemma StaysRest<K, E>(acts: seq<Action<K, E>>, who: K)
    requires acts != [] && Stays(acts, who)
    ensures acts[0] != Unsubscribe(who) && Stays(acts[1..], who)
  {
    forall i | 0 <= i < |acts[1..]| ensures acts[1..][i] != Unsubscribe(who) { assert acts[1..][i] == acts[i + 1]; }
  }

  ghost predicate Extends(s: Sub, s': Sub, n: nat) {
    && s'.slug == s.slug && s'.since == s.since && s.taken <= s'.taken
    && s.accepted <= s'.accepted && s.dropped <= s'.dropped
    && (forall i | |s.accepted| <= i < |s'.accepted| :: n <= s'.accepted[i])
    && (forall i | |s.dropped| <= i < |s'.dropped| :: n <= s'.dropped[i])
  }

  lemma {:induction false} SubExtends<K, E>(h: Hub<K, E>, acts: seq<Action<K, E>>, who: K)
    requires who in h.subs && Stays(acts, who)
    ensures who in ActAll(h, acts).subs && Extends(h.subs[who], ActAll(h, acts).subs[who], |h.log|)
    decreases |acts|
  {
    if acts != [] {
      var h' := Act(h, acts[0]);
      StaysRest(acts, who);
      SubExtends(h', acts[1..], who);
    }
  }

  /** In any run, the event published at some point is dropped for a subscriber if and only if that
      subscriber's queue held 1000 events at that point; otherwise it is in its queue or was received. */
  lemma DroppedIffFull<K, E>(h: Hub<K, E>, pre: seq<Action<K, E>>, slug: string, e: E, post: seq<Action<K, E>>, who: K)
    requires Valid(h) && who in ActAll(h, pre).subs && ActAll(h, pre).subs[who].slug == slug && Stays(post, who)
    ensures var before, after := ActAll(h, pre), ActAll(h, pre + [Publish(slug, e)] + post);
            && who in after.subs
            && (|before.log| in after.subs[who].dropped <==> Backlog(before.subs[who]) == 1000)
            && (|before.log| in after.subs[who].accepted <==> Backlog(before.subs[who]) < 1000)
  {
    var before := ActAll(h, pre);
    var step: seq<Action<K, E>> := [Publish(slug, e)];
    var mid := Act(before, step[0]);
    ValidActAll(h, pre);
    ValidAct(before, step[0]);
    assert step[1..] == [];
    assert ActAll(before, step) == mid;
    ActConcat(h, pre, step);
    ActConcat(h, pre + step, post);
    SubExtends(mid, post, who);
    ValidActAll(mid, post);
    FatePersists(before.subs[who], mid.subs[who], ActAll(mid, post).subs[who], |before.log|, |mid.log|);
  }

  lemma FatePersists(s: Sub, s1: Sub, s2: Sub, at: nat, n: nat)
    requires s1 == Offer(s, at) && Extends(s1, s2, n) && at < n && Backlog(s) <= CAPACITY
    requires at !in s.accepted && at !in s.dropped
    ensures at in s2.dropped <==> Backlog(s) == CAPACITY
    ensures at in s2.accepted <==> Backlog(s) < CAPACITY
  {
    assert s1.accepted == s2.accepted[..|s1.accepted|];
    assert s1.dropped == s2.dropped[..|s1.dropped|];
    if Backlog(s) < CAPACITY {
      assert s2.accepted[|s.accepted|] == at;
    } else {
      assert s2.dropped[|s.dropped|] == at;
    }
  }

  // -------------------------------------------------------------------------
  // Non-interference
  // -------------------------------------------------------------------------

  /** The actions that concern `who`: every publish, and its own gets. */
  function Own<K(==), E>(acts: seq<Action<K, E>>, who: K): seq<Action<K, E>> {
    if acts == [] then []
    else (if acts[0].Publish? || acts[0] == Get(who) then [acts[0]] else []) + Own(acts[1..], who)
  }

  /** The bus with `who` as its only subscriber. */
  function Alone<K, E>(h: Hub<K, E>, who: K): Hub<K, E>
    requires who in h.subs
  {
    Hub(h.log, map[who := h.subs[who]])
  }

  lemma OwnStep<K, E>(h: Hub<K, E>, a: Action<K, E>, who: K)
    requires who in h.subs && a != Unsubscribe(who)
    ensures who in Act(h, a).subs
    ensures if a.Publish? || a == Get(who) then Act(Alone(h, who), a) == Alone(Act(h, a), who)
            else Alone(Act(h, a), who) == Alone(h, who)
  {
  }

  lemma {:induction false} OwnActsDecide<K, E>(h: Hub<K, E>, acts: seq<Action<K, E>>, who: K)
    requires who in h.subs && Stays(acts, who)
    ensures who in ActAll(h, acts).subs
    ensures ActAll(Alone(h, who), Own(acts, who)) == Alone(ActAll(h, acts), who)
    decreases |acts|
  {
    hide Act, Stays, Alone;
    if acts != [] {
      StaysRest(acts, who);
      OwnStep(h, acts[0], who);
      OwnActsDecide(Act(h, acts[0]), acts[1..], who);
      var own := if acts[0].Publish? || acts[0] == Get(who) then [acts[0]] else [];
      assert own + Own(acts[1..], who) == Own(acts, who);
      ActConcat(Alone(h, who), own, Own(acts[1..], who));
      if own != [] { assert own[1..] == []; }
    }
  }

  /** A subscriber's queue depends on its own gets and on the publishes only: two runs that agree
      on those leave it the same, whoever else subscribes, lags or leaves. */
  lemma NonInterference<K, E>(h: Hub<K, E>, g: Hub<K, E>, a: seq<Action<K, E>>, b: seq<Action<K, E>>, who: K)
    requires who in h.subs && who in g.subs && h.subs[who] == g.subs[who] && h.log == g.log
    requires Stays(a, who) && Stays(b, who) && Own(a, who) == Own(b, who)
    ensures who in ActAll(h, a).subs && who in ActAll(g, b).subs
    ensures ActAll(h, a).subs[who] == ActAll(g, b).subs[who]
  {
    OwnActsDecide(h, a, who);
    OwnActsDecide(g, b, who);
    assert Alone(ActAll(h, a), who).subs[who] == Alone(ActAll(g, b), who).subs[who];
  }

  // -------------------------------------------------------------------------
  // What a subscriber receives
  // -------------------------------------------------------------------------

  /** The events at some positions of the log. */
  function EventsAt<E>(log: seq<Published<E>>, at: seq<nat>): (es: seq<E>)
    requires forall i | i in at :: i < |log|
    ensures |es| == |at|
  {
    if at == [] then []
    else
      assert at[0] in at && forall i | i in at[1..] :: i in at;
      [log[at[0]].event] + EventsAt(log, at[1..])
  }

  /** Everything published on the slug from position `from` on. */
  function OnSlug<E>(log: seq<Published<E>>, slug: string, from: nat): seq<E>
    decreases |log| - from
  {
    if from >= |log| then []
    else (if log[from].slug == slug then [log[from].event] else []) + OnSlug(log, slug, from + 1)
  }

  /** Increasing positions that are exactly the relevant ones from `from` on read off the slug's stream. */
  lemma {:induction false} ExactPositions<E>(log: seq<Published<E>>, slug: string, from: nat, at: seq<nat>)
    requires Increasing(at) && forall i: nat :: i in at <==> from <= i < |log| && log[i].slug == slug
    ensures EventsAt(log, at) == OnSlug(log, slug, from)
    decreases |log| - from
  {
    if from >= |log| {
      HeadIn(at);
    } else if log[from].slug == slug {
      assert from in at;
      assert at[0] == from by { HeadIsLeast(at, from); }
      var rest := at[1..];
      forall i: nat ensures i in rest <==> from + 1 <= i < |log| && log[i].slug == slug { RestOf(at, i); }
      ExactPositions(log, slug, from + 1, rest);
    } else {
      ExactPositions(log, slug, from + 1, at);
    }
  }

  lemma HeadIn<T>(s: seq<T>)
    ensures s == [] || s[0] in s
  {
  }

  lemma HeadIsLeast(at: seq<nat>, x: nat)
    requires Increasing(at) && x in at && forall i | i in at :: x <= i
    ensures at[0] == x
  {
    var k :| 0 <= k < |at| && at[k] == x;
    assert at[0] in at;
  }

  lemma RestOf(at: seq<nat>, i: nat)
    requires Increasing(at) && at != []
    ensures i in at[1..] <==> i in at && i != at[0]
  {
    if i in at && i != at[0] {
      var k :| 0 <= k < |at| && at[k] == i;
      assert at[1..][k - 1] == i;
    }
    if i in at[1..] {
      var k :| 0 <= k < |at[1..]| && at[1..][k] == i;
      assert at[k + 1] == i;
    }
  }

  /** A subscriber that never lagged by 1000 has received, or still queues, exactly what was
      published on its slug since it subscribed; one that did has missed something. */
  lemma LosslessIffNothingDropped<E>(s: Sub, log: seq<Published<E>>)
    requires Conserved(s, log)
    ensures forall i | i in s.accepted :: i < |log|
    ensures s.dropped == [] ==> EventsAt(log, s.accepted) == OnSlug(log, s.slug, s.since)
    ensures s.dropped != [] ==> exists i: nat :: Relevant(s, log, i) && i !in s.accepted
  {
    forall i | i in s.accepted ensures i < |log| { assert Relevant(s, log, i); }
    if s.dropped == [] {
      forall i: nat ensures i in s.accepted <==> s.since <= i < |log| && log[i].slug == s.slug {
        assert Relevant(s, log, i) <==> (i in s.accepted || i in s.dropped);
      }
      ExactPositions(log, s.slug, s.since, s.accepted);
    } else {
      var i := s.dropped[0];
      assert i in s.dropped;
      assert Relevant(s, log, i) && i !in s.accepted;
    }
  }
}
