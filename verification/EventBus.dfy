/** `InProcessEventBus` as the objects it is made of. Every method is tied to one action of the
    bus model, so the run properties of module Bus hold of these objects. */
module EventBus {
  import opened Common
  import opened Bus

  /** `put_nowait` with `QueueFull` swallowed: what `_offer` leaves in a queue. */
  function Put<E>(items: seq<E>, event: E): seq<E> {
    if |items| < CAPACITY then items + [event] else items
  }

  /** The position of the i-th event a subscriber has yet to be handed. */
  function Pending(s: Sub, i: nat): nat
    requires s.taken + i < |s.accepted|
  {
    s.accepted[s.taken + i]
  }

  /** The queue holds the events it accepted and has not handed out, oldest first. */
  ghost predicate Holds<E>(items: seq<E>, s: Sub, log: seq<Published<E>>) {
    && s.taken <= |s.accepted| && |items| == Backlog(s)
    && forall i | 0 <= i < |items| :: Pending(s, i) < |log| && items[i] == log[Pending(s, i)].event
  }

  lemma HoldsOffer<E>(items: seq<E>, s: Sub, log: seq<Published<E>>, e: E)
    requires Holds(items, s, log)
    ensures Holds(Put(items, e), Bus.Offer(s, |log|), log + [Published(s.slug, e)])
  {
    var s', log', items' := Bus.Offer(s, |log|), log + [Published(s.slug, e)], Put(items, e);
    forall i | 0 <= i < |items'| ensures Pending(s', i) < |log'| && items'[i] == log'[Pending(s', i)].event {
      if i < |items| { assert Pending(s', i) == Pending(s, i); }
    }
  }

  lemma HoldsOther<E>(items: seq<E>, s: Sub, log: seq<Published<E>>, p: Published<E>)
    requires Holds(items, s, log)
    ensures Holds(items, s, log + [p])
  {
  }

  lemma HoldsTake<E>(items: seq<E>, s: Sub, log: seq<Published<E>>)
    requires Holds(items, s, log) && items != []
    ensures Pending(s, 0) < |log| && items[0] == log[Pending(s, 0)].event
    ensures Holds(items[1..], Take(s), log)
  {
    var rest := items[1..];
    forall i | 0 <= i < |rest| ensures Pending(Take(s), i) < |log| && rest[i] == log[Pending(Take(s), i)].event {
      assert Pending(Take(s), i) == Pending(s, i + 1) && rest[i] == items[i + 1];
    }
  }

  /** `asyncio.Queue(maxsize=1000)` tagged with the slug it listens to. */
  class Queue<E> {
    const slug: string
    var items: seq<E>
    ghost var record: Sub  // which publishes it accepted, handed out and missed

    constructor (slug: string, ghost since: nat)
      ensures this.slug == slug && items == [] && record == Sub(slug, since, [], 0, [])
    {
      this.slug := slug;
      items := [];
      record := Sub(slug, since, [], 0, []);
    }

    ghost predicate Valid(log: seq<Published<E>>)
      reads this
    {
      record.slug == slug && Holds(items, record, log)
    }

    /** `put_nowait`: false stands for `QueueFull`. */
    method PutNowait(event: E) returns (ok: bool)
      modifies this`items
      ensures ok == (old(|items|) < CAPACITY)
      ensures items == if ok then old(items) + [event] else old(items)
    {
      ok := |items| < CAPACITY;
      if ok {
        items := items + [event];
      }
    }

    /** `_offer`: an event that finds the queue full is dropped, and nothing else happens. */
    method Offer(event: E, ghost log: seq<Published<E>>)
      requires Valid(log)
      modifies this
      ensures Valid(log + [Published(slug, event)])
      ensures record == Bus.Offer(old(record), |log|) && items == Put(old(items), event)
    {
      hide Holds;
      HoldsOffer(items, record, log, event);
      var ok := PutNowait(event);
      record := Bus.Offer(record, |log|);
    }

    /** `wait_for(queue.get(), ...)`: the oldest event, or None for the timeout. */
    method Get(ghost log: seq<Published<E>>) returns (event: Option<E>)
      requires Valid(log)
      modifies this
      ensures Valid(log) && record == Take(old(record))
      ensures old(items) == [] ==> event == None && items == []
      ensures old(items) != [] ==> event == Some(old(items[0])) && items == old(items[1..])
      ensures event.Some? <==> old(Backlog(record)) > 0
      ensures event.Some? ==> Pending(old(record), 0) < |log| && event == Some(log[Pending(old(record), 0)].event)
    {
      event := None;
      if |items| > 0 {
        HoldsTake(items, record, log);
        event := Some(items[0]);
        items := items[1..];
        record := Take(record);
      }
    }
  }

  class InProcessEventBus<E> {
    var subscribers: set<Queue<E>>
    ghost var log: seq<Published<E>>  // everything published so far

    constructor ()
      ensures Valid() && Model() == Hub([], map[]) && subscribers == {}
    {
      subscribers := {};
      log := [];
    }

    ghost predicate Valid()
      reads this, subscribers
    {
      Bus.Valid(Model()) && forall q | q in subscribers :: q.Valid(log)
    }

    ghost function Model(): Hub<Queue<E>, E>
      reads this, subscribers
    {
      Hub(log, map q | q in subscribers :: q.record)
    }

    /** `publish`: every subscriber of the slug is offered the event, the others are left alone. */
    method Publish(slug: string, event: E)
      requires Valid()
      modifies this`log, subscribers
      ensures Valid() && subscribers == old(subscribers)
      ensures Model() == Act(old(Model()), Bus.Publish(slug, event))
      ensures forall q | q in subscribers ::
          q.items == if q.slug == slug then Put(old(q.items), event) else old(q.items)
    {
      hide Holds, Bus.Offer, Conserved, Put;
      ghost var before := log;
      ghost var after := log + [Published(slug, event)];
      var waiting := subscribers;
      while waiting != {}
        invariant waiting <= subscribers && log == before
        invariant forall q | q in waiting :: q.Valid(before) && q.items == old(q.items) && q.record == old(q.record)
        invariant forall q | q in subscribers - waiting ::
                    && q.Valid(after)
                    && q.record == (if q.slug == slug then Bus.Offer(old(q.record), |before|) else old(q.record))
                    && q.items == if q.slug == slug then Put(old(q.items), event) else old(q.items)
        decreases |waiting|
      {
        var queue :| queue in waiting;
        if queue.slug == slug {
          queue.Offer(event, before);
        } else {
          HoldsOther(queue.items, queue.record, before, Published(slug, event));
        }
        waiting := waiting - {queue};
      }
      log := after;
      assert Model().subs == Act(old(Model()), Bus.Publish(slug, event)).subs;
      ValidAct(old(Model()), Bus.Publish(slug, event));
    }

    method Subscribe(slug: string) returns (queue: Queue<E>)
      requires Valid()
      modifies this`subscribers
      ensures Valid() && fresh(queue) && queue.slug == slug && queue.items == []
      ensures subscribers == old(subscribers) + {queue}
      ensures Model() == Act(old(Model()), Bus.Subscribe(queue, slug))
    {
      hide Conserved;
      queue := new Queue(slug, |log|);
      subscribers := subscribers + {queue};
      assert Model().subs == Act(old(Model()), Bus.Subscribe(queue, slug)).subs;
      ValidAct(old(Model()), Bus.Subscribe(queue, slug));
    }

    method Unsubscribe(queue: Queue<E>)
      requires Valid()
      modifies this`subscribers
      ensures Valid() && subscribers == old(subscribers) - {queue}
      ensures Model() == Act(old(Model()), Bus.Unsubscribe(queue))
    {
      subscribers := subscribers - {queue};
      assert Model().subs == Act(old(Model()), Bus.Unsubscribe(queue)).subs;
      ValidAct(old(Model()), Bus.Unsubscribe(queue));
    }

    /** One `wait_for(queue.get(), ...)` of the `/ws` loop: None stands for the timeout. */
    method Receive(queue: Queue<E>) returns (event: Option<E>)
      requires Valid() && queue in subscribers
      modifies queue
      ensures Valid() && Model() == Act(old(Model()), Bus.Get(queue))
      ensures old(queue.items) == [] ==> event == None && queue.items == []
      ensures old(queue.items) != [] ==> event == Some(old(queue.items[0])) && queue.items == old(queue.items[1..])
      ensures old(Backlog(queue.record)) > 0 ==>
                var at := Pending(old(queue.record), 0);
                at < |log| && event == Some(log[at].event)
    {
      hide Conserved, Holds;
      event := queue.Get(log);
      assert Model().subs == Act(old(Model()), Bus.Get(queue)).subs;
      ValidAct(old(Model()), Bus.Get(queue));
    }
  }

  // -------------------------------------------------------------------------
  // The Redis bus: one pump per subscriber
  // -------------------------------------------------------------------------

  /** What one `get_message` returns: nothing, a control message, undecodable data, or an event. */
  datatype Poll<+E> = Nothing | Control | Garbled | Data(event: E)

  /** The subscription's two tasks take turns: the pump polls the channel, the socket loop takes an event. */
  datatype Turn<+E> = Pumped(poll: Poll<E>) | Drained

  /** A turn as an action of the bus model, with the channel as its only publisher. */
  function ActionOf<E>(slug: string, turn: Turn<E>): seq<Action<(), E>> {
    match turn
    case Pumped(Data(event)) => [Bus.Publish(slug, event)]
    case Pumped(_) => []
    case Drained => [Bus.Get(())]
  }

  function ActionsOf<E>(slug: string, turns: seq<Turn<E>>): seq<Action<(), E>> {
    if turns == [] then [] else ActionsOf(slug, turns[..|turns| - 1]) + ActionOf(slug, turns[|turns| - 1])
  }

  /** Every decodable message is published once and in order, every take is a get, and nothing else is either. */
  lemma TurnsAsActions<E>(slug: string, turns: seq<Turn<E>>, event: E, other: Poll<E>)
    requires !other.Data?
    ensures ActionsOf<E>(slug, []) == []
    ensures ActionsOf(slug, turns + [Pumped(Data(event))]) == ActionsOf(slug, turns) + [Bus.Publish(slug, event)]
    ensures ActionsOf(slug, turns + [Pumped(other)]) == ActionsOf(slug, turns)
    ensures ActionsOf(slug, turns + [Drained]) == ActionsOf(slug, turns) + [Bus.Get(())]
  {
    assert (turns + [Pumped(Data(event))])[..|turns|] == turns;
    assert (turns + [Pumped(other)])[..|turns|] == turns && (turns + [Drained])[..|turns|] == turns;
  }

  /** The bus model with this subscriber alone. */
  function Sole<E>(log: seq<Published<E>>, s: Sub): Hub<(), E> {
    Hub(log, map[() := s])
  }

  /** The events handed out since `from` of them had been, as published. */
  ghost predicate Handed<E>(received: seq<E>, s: Sub, from: nat, log: seq<Published<E>>) {
    && from + |received| == s.taken <= |s.accepted|
    && forall i | 0 <= i < |received| ::
         Pending(s.(taken := from), i) < |log| && received[i] == log[Pending(s.(taken := from), i)].event
  }

  lemma HandedOffer<E>(received: seq<E>, s: Sub, from: nat, log: seq<Published<E>>, p: Published<E>)
    requires Handed(received, s, from, log)
    ensures Handed(received, Bus.Offer(s, |log|), from, log + [p])
  {
    var s' := Bus.Offer(s, |log|);
    forall i | 0 <= i < |received|
      ensures Pending(s'.(taken := from), i) < |log| + 1
          && received[i] == (log + [p])[Pending(s'.(taken := from), i)].event
    {
      assert Pending(s'.(taken := from), i) == Pending(s.(taken := from), i);
    }
  }

  lemma HandedTake<E>(received: seq<E>, s: Sub, from: nat, log: seq<Published<E>>, e: E)
    requires Handed(received, s, from, log) && Backlog(s) > 0
    requires Pending(s, 0) < |log| && e == log[Pending(s, 0)].event
    ensures Handed(received + [e], Take(s), from, log)
  {
    var all := received + [e];
    forall i | 0 <= i < |all|
      ensures Pending(Take(s).(taken := from), i) < |log| && all[i] == log[Pending(Take(s).(taken := from), i)].event
    {
      if i < |received| {
        assert Pending(Take(s).(taken := from), i) == Pending(s.(taken := from), i);
      } else {
        assert Pending(Take(s).(taken := from), i) == Pending(s, 0);
      }
    }
  }

  lemma SoleTurn<E>(h: Hub<(), E>, turns: seq<Turn<E>>, i: nat, log: seq<Published<E>>, s: Sub)
    requires i < |turns| && ActAll(h, ActionsOf(s.slug, turns[..i])) == Sole(log, s)
    ensures ActAll(h, ActionsOf(s.slug, turns[..i + 1]))
            == match turns[i]
               case Pumped(Data(event)) => Sole(log + [Published(s.slug, event)], Bus.Offer(s, |log|))
               case Pumped(_) => Sole(log, s)
               case Drained => Sole(log, Take(s))
  {
    var acts, last := ActionsOf(s.slug, turns[..i]), ActionOf(s.slug, turns[i]);
    assert turns[..i + 1][..i] == turns[..i];
    ActConcat(h, acts, last);
    if last != [] {
      assert last[1..] == [];
      assert Act(Sole(log, s), last[0]).subs
             == map[() := if turns[i].Drained? then Take(s) else Bus.Offer(s, |log|)];
    } else {
      assert acts + last == acts;
    }
  }

  /** A Redis subscription: `_pump` and the socket loop in any alternation. The queue's record is that of
      the bus model on the decodable messages and the gets, so conservation, order and drops at a full
      queue hold of it, and what the socket received is what was published, in order. */
  method Pump<E>(queue: Queue<E>, turns: seq<Turn<E>>, ghost log: seq<Published<E>>) returns (received: seq<E>)
    requires queue.Valid(log) && Conserved(queue.record, log)
    modifies queue
    ensures var end := ActAll(Sole(log, old(queue.record)), ActionsOf(queue.slug, turns));
            && end == Sole(end.log, queue.record)
            && queue.Valid(end.log) && Conserved(queue.record, end.log)
            && Handed(received, queue.record, old(queue.record.taken), end.log)
  {
    hide Holds, Conserved, Handed;
    received := [];
    ghost var start, from := Sole(log, queue.record), queue.record.taken;
    ghost var seen := log;
    NothingHanded(queue.items, queue.record, log);
    assert ActionsOf(queue.slug, turns[..0]) == [];
    assert Sole(log, queue.record) == ActAll(start, []);
    var i := 0;
    while i < |turns|
      invariant 0 <= i <= |turns|
      invariant ActAll(start, ActionsOf(queue.slug, turns[..i])) == Sole(seen, queue.record)
      invariant queue.Valid(seen) && Conserved(queue.record, seen) && Handed(received, queue.record, from, seen)
    {
      SoleTurn(start, turns, i, seen, queue.record);
      received, seen := TakeTurn(queue, turns[i], seen, received, from);
      i := i + 1;
    }
    Whole(turns);
  }

  lemma NothingHanded<E>(items: seq<E>, s: Sub, log: seq<Published<E>>)
    requires Holds(items, s, log)
    ensures Handed<E>([], s, s.taken, log)
  {
  }

  /** One turn of the pump or of the socket loop. */
  method TakeTurn<E>(queue: Queue<E>, turn: Turn<E>, ghost log: seq<Published<E>>, received: seq<E>, ghost from: nat)
    returns (received': seq<E>, ghost log': seq<Published<E>>)
    requires queue.Valid(log) && Conserved(queue.record, log) && Handed(received, queue.record, from, log)
    modifies queue
    ensures Sole(log', queue.record)
            == match turn
               case Pumped(Data(event)) =>
                 Sole(log + [Published(queue.slug, event)], Bus.Offer(old(queue.record), |log|))
               case Pumped(_) => Sole(log, old(queue.record))
               case Drained => Sole(log, Take(old(queue.record)))
    ensures queue.record == Sole(log', queue.record).subs[()]
    ensures queue.Valid(log') && Conserved(queue.record, log') && Handed(received', queue.record, from, log')
  {
    hide Holds, Conserved, Handed;
    received', log' := received, log;
    match turn
    case Pumped(Data(event)) =>
      OfferConserves(queue.record, log, event);
      HandedOffer(received, queue.record, from, log, Published(queue.slug, event));
      queue.Offer(event, log);
      log' := log + [Published(queue.slug, event)];
    case Pumped(_) =>
    case Drained =>
      TakeConserves(queue.record, log);
      var event := queue.Get(log);
      if event.Some? {
        HandedTake(received, old(queue.record), from, log, event.value);
        received' := received + [event.value];
      }
  }

  lemma TakeConserves<E>(s: Sub, log: seq<Published<E>>)
    requires Conserved(s, log)
    ensures Conserved(Take(s), log)
  {
    forall i: nat ensures Relevant(Take(s), log, i) <==> Relevant(s, log, i) {
    }
  }
}
