/** One table seen through its row-level events.

    A server table, listed in creation order, evolves by insertions, in-place
    updates and removals. Each change is published; a client applies it to the
    list it holds. Both client disciplines of the source are covered: a new row
    is upserted at the end (tasks) or moved to the front (decisions, handoffs). */
module Feed {
  import opened Common
  import opened Rows

  datatype Change<+B> = Insert(row: Row<B>) | Update(row: Row<B>) | Remove(id: Id)

  datatype Discipline = AtEnd | AtFront

  /** What the change does to the creation-ordered table. */
  function TableStep<B>(table: seq<Row<B>>, c: Change<B>): seq<Row<B>> {
    match c
    case Insert(row) => table + [row]
    case Update(row) => Upsert(table, row)
    case Remove(id) => Without(table, id)
  }

  function TableRun<B>(table: seq<Row<B>>, cs: seq<Change<B>>): seq<Row<B>>
    decreases |cs|
  {
    if cs == [] then table else TableRun(TableStep(table, cs[0]), cs[1..])
  }

  /** What a client does to the list it holds. */
  function ClientStep<B>(d: Discipline, list: seq<Row<B>>, c: Change<B>): seq<Row<B>> {
    match c
    case Insert(row) => if d.AtEnd? then Upsert(list, row) else ToFront(list, row)
    case Update(row) => Upsert(list, row)
    case Remove(id) => Without(list, id)
  }

  function ClientRun<B>(d: Discipline, list: seq<Row<B>>, cs: seq<Change<B>>): seq<Row<B>>
    decreases |cs|
  {
    if cs == [] then list else ClientRun(d, ClientStep(d, list, cs[0]), cs[1..])
  }

  /** `used` holds every id the server ever handed out. */
  ghost predicate Sound<B>(table: seq<Row<B>>, used: set<Id>) {
    Distinct(Ids(table)) && forall x | x in Ids(table) :: x in used
  }

  ghost predicate Legal<B>(table: seq<Row<B>>, used: set<Id>, c: Change<B>) {
    match c
    case Insert(row) => row.id !in used
    case Update(row) => row.id in Ids(table)
    case Remove(id) => id in Ids(table)
  }

  function Grown<B>(used: set<Id>, c: Change<B>): set<Id> {
    if c.Insert? then used + {c.row.id} else used
  }

  ghost predicate History<B>(table: seq<Row<B>>, used: set<Id>, cs: seq<Change<B>>)
    decreases |cs|
  {
    cs == [] || (Legal(table, used, cs[0]) && History(TableStep(table, cs[0]), Grown(used, cs[0]), cs[1..]))
  }

  lemma SoundStep<B>(table: seq<Row<B>>, used: set<Id>, c: Change<B>)
    requires Sound(table, used) && Legal(table, used, c)
    ensures Sound(TableStep(table, c), Grown(used, c))
  {
    match c
    case Insert(row) =>
      IdsConcat(table, [row]);
    case Update(row) => UpsertIds(table, row);
    case Remove(id) =>
      WithoutIds(table, id);
      MinusIn(Ids(table), {id});
  }

  lemma {:induction false} SoundRun<B>(table: seq<Row<B>>, used: set<Id>, cs: seq<Change<B>>)
    requires Sound(table, used) && History(table, used, cs)
    ensures Distinct(Ids(TableRun(table, cs)))
    decreases |cs|
  {
    if cs != [] {
      SoundStep(table, used, cs[0]);
      SoundRun(TableStep(table, cs[0]), Grown(used, cs[0]), cs[1..]);
    }
  }

  /** An id that was handed out and is not in the table never comes back. */
  lemma {:induction false} NeverReborn<B>(table: seq<Row<B>>, used: set<Id>, cs: seq<Change<B>>, x: Id)
    requires Sound(table, used) && History(table, used, cs) && x in used && x !in Ids(table)
    ensures x !in Ids(TableRun(table, cs))
    decreases |cs|
  {
    if cs != [] {
      var next := TableStep(table, cs[0]);
      match cs[0] {
        case Insert(row) => IdsConcat(table, [row]);
        case Update(row) => UpsertIds(table, row);
        case Remove(id) => WithoutIds(table, id); MinusIn(Ids(table), {id});
      }
      SoundStep(table, used, cs[0]);
      NeverReborn(next, Grown(used, cs[0]), cs[1..], x);
    }
  }

  lemma {:induction false} RunConcat<B>(table: seq<Row<B>>, a: seq<Change<B>>, b: seq<Change<B>>)
    ensures TableRun(table, a + b) == TableRun(TableRun(table, a), b)
    decreases |a|
  {
    if a == [] {
      assert a + b == b;
    } else {
      assert (a + b)[1..] == a[1..] + b;
      RunConcat(TableStep(table, a[0]), a[1..], b);
    }
  }

  lemma {:induction false} ClientConcat<B>(d: Discipline, list: seq<Row<B>>, a: seq<Change<B>>, b: seq<Change<B>>)
    ensures ClientRun(d, list, a + b) == ClientRun(d, ClientRun(d, list, a), b)
    decreases |a|
  {
    if a == [] {
      assert a + b == b;
    } else {
      assert (a + b)[1..] == a[1..] + b;
      ClientConcat(d, ClientStep(d, list, a[0]), a[1..], b);
    }
  }

  /** Splitting a history: the second half is a history of the table reached by the first. */
  lemma {:induction false} HistorySplit<B>(table: seq<Row<B>>, used: set<Id>, a: seq<Change<B>>, b: seq<Change<B>>)
    returns (later: set<Id>)
    requires Sound(table, used) && History(table, used, a + b)
    ensures History(table, used, a)
    ensures Sound(TableRun(table, a), later) && History(TableRun(table, a), later, b)
    decreases |a|
  {
    if a == [] {
      assert a + b == b;
      later := used;
    } else {
      assert (a + b)[1..] == a[1..] + b;
      SoundStep(table, used, a[0]);
      later := HistorySplit(TableStep(table, a[0]), Grown(used, a[0]), a[1..], b);
    }
  }

  /** Fewer reserved ids only make a history easier. */
  lemma {:induction false} HistoryWeaken<B>(table: seq<Row<B>>, used: set<Id>, fewer: set<Id>, cs: seq<Change<B>>)
    requires History(table, used, cs) && fewer <= used
    ensures History(table, fewer, cs)
    decreases |cs|
  {
    if cs != [] {
      HistoryWeaken(TableStep(table, cs[0]), Grown(used, cs[0]), Grown(fewer, cs[0]), cs[1..]);
    }
  }

  // -------------------------------------------------------------------------
  // Replaying events the snapshot already contains
  // -------------------------------------------------------------------------

  /** Every row the client holds is the server's row now, or the server's row at the snapshot. */
  ghost predicate Known<B>(list: seq<Row<B>>, now: seq<Row<B>>, snap: seq<Row<B>>) {
    Distinct(Ids(list)) && forall r | r in list :: r in now || r in snap
  }

  lemma KnownStep<B>(d: Discipline, list: seq<Row<B>>, now: seq<Row<B>>, snap: seq<Row<B>>,
                     used: set<Id>, c: Change<B>)
    requires Known(list, now, snap) && Sound(now, used) && Legal(now, used, c)
    ensures Known(ClientStep(d, list, c), TableStep(now, c), snap)
  {
    ClientStepDistinct(d, list, c);
    forall r | r in ClientStep(d, list, c) ensures r in TableStep(now, c) || r in snap {
      ClientStepHas(d, list, c, r);
      TableStepHas(now, used, c, r);
    }
  }

  lemma ClientStepDistinct<B>(d: Discipline, list: seq<Row<B>>, c: Change<B>)
    requires Distinct(Ids(list))
    ensures Distinct(Ids(ClientStep(d, list, c)))
  {
    if c.Remove? {
      WithoutIds(list, c.id);
    } else if c.Insert? && d.AtFront? {
      WithoutIds(list, c.row.id);
      IdsConcat([c.row], Without(list, c.row.id));
      MinusHas(Ids(list), {c.row.id}, c.row.id);
    } else {
      UpsertIds(list, c.row);
    }
  }

  /** After the change the row `r` is the published one, or an untouched old one. */
  ghost predicate Survives<B>(rows: seq<Row<B>>, c: Change<B>, r: Row<B>) {
    if c.Remove? then r in rows && r.id != c.id else r == c.row || (r in rows && r.id != c.row.id)
  }

  lemma ClientStepHas<B>(d: Discipline, list: seq<Row<B>>, c: Change<B>, r: Row<B>)
    requires Distinct(Ids(list))
    ensures r in ClientStep(d, list, c) <==> Survives(list, c, r)
  {
    if c.Remove? {
      WithoutHas(list, c.id, r);
    } else if c.Insert? && d.AtFront? {
      WithoutHas(list, c.row.id, r);
    } else {
      UpsertHas(list, c.row, r);
    }
  }

  lemma TableStepHas<B>(now: seq<Row<B>>, used: set<Id>, c: Change<B>, r: Row<B>)
    requires Sound(now, used) && Legal(now, used, c)
    ensures r in TableStep(now, c) <==> Survives(now, c, r)
  {
    match c
    case Insert(row) => if r in now { IdOf(now, r); }
    case Update(row) => UpsertHas(now, row, r);
    case Remove(id) => WithoutHas(now, id, r);
  }

  /** During the replay a task list is the snapshot's id sequence, then rows the server
      still has at this point of the stream but had deleted by the snapshot. */
  ghost predicate AtEndReplay<B>(list: seq<Row<B>>, now: seq<Row<B>>, snap: seq<Row<B>>) {
    HeadAndTail(Ids(list), Ids(snap), Ids(now)) && Known(list, now, snap)
  }

  lemma AtEndReplayStep<B>(list: seq<Row<B>>, now: seq<Row<B>>, snap: seq<Row<B>>, used: set<Id>, c: Change<B>)
    requires AtEndReplay(list, now, snap) && Sound(now, used) && Legal(now, used, c)
    requires c.Remove? ==> c.id !in Ids(snap)
    ensures AtEndReplay(ClientStep(AtEnd, list, c), TableStep(now, c), snap)
  {
    KnownStep(AtEnd, list, now, snap, used, c);
    if c.Remove? {
      WithoutIds(list, c.id);
      WithoutIds(now, c.id);
      TailRemove(Ids(list), Ids(snap), Ids(now), c.id);
    } else {
      UpsertIds(list, c.row);
      UpsertIds(now, c.row);
      IdsConcat(now, [c.row]);
      TailPush(Ids(list), Ids(snap), Ids(now), c.row.id);
    }
  }

  /** The id list starts with `head`; what follows is among `live`. */
  ghost predicate HeadAndTail(list: seq<Id>, head: seq<Id>, live: seq<Id>) {
    |head| <= |list| && list[..|head|] == head && forall x | x in list[|head|..] :: x in live
  }

  lemma TailRemove(list: seq<Id>, head: seq<Id>, live: seq<Id>, id: Id)
    requires HeadAndTail(list, head, live) && id !in head
    ensures HeadAndTail(Minus(list, {id}), head, Minus(live, {id}))
  {
    var tail := list[|head|..];
    assert list == head + tail;
    MinusConcat(head, tail, {id});
    MinusAbsent(head, {id});
    forall x | x in Minus(tail, {id}) ensures x in Minus(live, {id}) {
      MinusHas(tail, {id}, x);
      MinusHas(live, {id}, x);
    }
  }

  lemma TailPush(list: seq<Id>, head: seq<Id>, live: seq<Id>, id: Id)
    requires HeadAndTail(list, head, live)
    ensures HeadAndTail(list + [id], head, live + [id])
    ensures HeadAndTail(list, head, live + [id])
    ensures id in live ==> HeadAndTail(list + [id], head, live)
  {
    assert (list + [id])[|head|..] == list[|head|..] + [id];
  }

  lemma TailRepeats(list: seq<Id>, n: nat) returns (i: nat)
    requires n < |list| && forall x | x in list[n..] :: x in list[..n]
    ensures i < n && list[i] == list[n]
  {
    assert list[n] == list[n..][0] && list[n..][0] in list[n..];
    i :| 0 <= i < n && list[..n][i] == list[n];
  }

  /** A duplicate-free sequence that starts with `all` and then only repeats ids of `all` is `all`. */
  lemma NoRoomAfter(list: seq<Id>, all: seq<Id>)
    requires Distinct(list) && |all| <= |list| && list[..|all|] == all
    requires forall x | x in list[|all|..] :: x in all
    ensures list == all
  {
    if |all| < |list| {
      var i := TailRepeats(list, |all|);
      assert false;
    }
  }

  /** Replaying the events between subscription and snapshot over the snapshot gives the snapshot back. */
  lemma {:induction false} AtEndOverlap<B>(list: seq<Row<B>>, now: seq<Row<B>>, used: set<Id>,
                                           cs: seq<Change<B>>, snap: seq<Row<B>>)
    requires Sound(now, used) && History(now, used, cs) && snap == TableRun(now, cs)
    requires AtEndReplay(list, now, snap)
    ensures ClientRun(AtEnd, list, cs) == snap
    decreases |cs|
  {
    if cs == [] {
      NoRoomAfter(Ids(list), Ids(snap));
      EqualByIds(list, snap, |snap|);
      assert list[..|snap|] == list && snap[..|snap|] == snap;
    } else {
      var next := TableStep(now, cs[0]);
      SoundStep(now, used, cs[0]);
      if cs[0].Remove? {
        WithoutIds(now, cs[0].id);
        MinusIn(Ids(now), {cs[0].id});
        NeverReborn(next, used, cs[1..], cs[0].id);
      }
      AtEndReplayStep(list, now, snap, used, cs[0]);
      AtEndOverlap(ClientStep(AtEnd, list, cs[0]), next, Grown(used, cs[0]), cs[1..], snap);
    }
  }

  /** From an exact list the client tracks the table change by change. */
  lemma {:induction false} AtEndTracks<B>(table: seq<Row<B>>, used: set<Id>, cs: seq<Change<B>>)
    requires Sound(table, used) && History(table, used, cs)
    ensures ClientRun(AtEnd, table, cs) == TableRun(table, cs)
    decreases |cs|
  {
    if cs != [] {
      SoundStep(table, used, cs[0]);
      if cs[0].Insert? { UpsertNew(table, cs[0].row); }
      AtEndTracks(TableStep(table, cs[0]), Grown(used, cs[0]), cs[1..]);
    }
  }

  /** Overlap-tolerant convergence, end discipline: install the snapshot taken after `a`,
      then apply everything from before `a` on. The list is the table, positions included. */
  lemma AtEndConverges<B>(table: seq<Row<B>>, used: set<Id>, a: seq<Change<B>>, b: seq<Change<B>>)
    requires Sound(table, used) && History(table, used, a + b)
    ensures ClientRun(AtEnd, TableRun(table, a), a + b) == TableRun(table, a + b)
  {
    var later := HistorySplit(table, used, a, b);
    var snap := TableRun(table, a);
    SoundRun(table, used, a);
    assert Ids(snap)[|snap|..] == [];
    AtEndOverlap(snap, table, used, a, snap);
    ClientConcat(AtEnd, snap, a, b);
    AtEndTracks(snap, later, b);
    RunConcat(table, a, b);
  }

  // -------------------------------------------------------------------------
  // Newest-first lists filled from a limited snapshot
  // -------------------------------------------------------------------------

  /** A newest-first listing cut at `limit` rows. */
  function Newest<B>(table: seq<Row<B>>, limit: nat): seq<Row<B>> {
    Reverse(table)[..Min(limit, |table|)]
  }

  /** The list is the newest `p` rows of the table, then live rows older than those. */
  ghost predicate Window<B>(list: seq<Row<B>>, table: seq<Row<B>>, p: nat) {
    && p <= |list| && p <= |table|
    && Ids(list)[..p] == Reverse(Ids(table))[..p]
    && Distinct(Ids(list))
    && forall r | r in list :: r in table
  }

  ghost predicate NoUpdates<B>(cs: seq<Change<B>>) {
    forall i | 0 <= i < |cs| :: !cs[i].Update?
  }

  /** Ids during the replay: those inserted since the stream began, newest first, then the
      snapshot's other ids, then ids touched by an update that the list did not hold. */
  ghost predicate ReplayIds(list: seq<Id>, now: seq<Id>, shown: seq<Id>,
                            older: seq<Id>, newer: seq<Id>, extra: seq<Id>) {
    && now == older + newer
    && list == Reverse(newer) + Minus(shown, Elements(newer)) + extra
    && forall x | x in extra :: x in now
  }

  lemma ReplayInsert(list: seq<Id>, now: seq<Id>, shown: seq<Id>,
                     older: seq<Id>, newer: seq<Id>, extra: seq<Id>, id: Id)
    requires ReplayIds(list, now, shown, older, newer, extra) && id !in now
    ensures ReplayIds([id] + Minus(list, {id}), now + [id], shown, older, newer + [id], extra)
  {
    ReplayInsertList(shown, newer, extra, id);
    assert older + (newer + [id]) == now + [id];
  }

  lemma ReplayInsertList(shown: seq<Id>, newer: seq<Id>, extra: seq<Id>, id: Id)
    requires id !in newer && id !in extra
    ensures [id] + Minus(Reverse(newer) + Minus(shown, Elements(newer)) + extra, {id})
         == Reverse(newer + [id]) + Minus(shown, Elements(newer + [id])) + extra
  {
    var olds := Elements(newer);
    MinusConcat(Reverse(newer) + Minus(shown, olds), extra, {id});
    MinusConcat(Reverse(newer), Minus(shown, olds), {id});
    MinusUnion(shown, olds, {id});
    ReverseIn(newer);
    MinusAbsent(Reverse(newer), {id});
    MinusAbsent(extra, {id});
    assert Elements(newer + [id]) == olds + {id};
    ReverseLast(newer, id, Minus(shown, olds + {id}), extra);
  }

  lemma ReverseLast(newer: seq<Id>, id: Id, rest: seq<Id>, extra: seq<Id>)
    ensures Reverse(newer + [id]) + rest + extra == [id] + (Reverse(newer) + rest + extra)
  {
    ReverseConcat(newer, [id]);
  }

  lemma ReplayRemove(list: seq<Id>, now: seq<Id>, shown: seq<Id>,
                     older: seq<Id>, newer: seq<Id>, extra: seq<Id>, id: Id)
    requires ReplayIds(list, now, shown, older, newer, extra) && id !in shown
    ensures ReplayIds(Minus(list, {id}), Minus(now, {id}), shown,
                      Minus(older, {id}), Minus(newer, {id}), Minus(extra, {id}))
  {
    MinusConcat(older, newer, {id});
    forall x | x in Minus(extra, {id}) ensures x in Minus(now, {id}) {
      MinusHas(extra, {id}, x);
      MinusHas(now, {id}, x);
    }
    ReplayRemoveList(shown, newer, extra, id);
  }

  lemma ReplayRemoveList(shown: seq<Id>, newer: seq<Id>, extra: seq<Id>, id: Id)
    requires id !in shown
    ensures Minus(Reverse(newer) + Minus(shown, Elements(newer)) + extra, {id})
         == Reverse(Minus(newer, {id})) + Minus(shown, Elements(Minus(newer, {id}))) + Minus(extra, {id})
  {
    var olds := Elements(newer);
    MinusConcat(Reverse(newer) + Minus(shown, olds), extra, {id});
    MinusConcat(Reverse(newer), Minus(shown, olds), {id});
    MinusReverse(newer, {id});
    ReplayRemoveShown(shown, newer, id);
  }

  lemma ReplayRemoveShown(shown: seq<Id>, newer: seq<Id>, id: Id)
    requires id !in shown
    ensures Minus(Minus(shown, Elements(newer)), {id}) == Minus(shown, Elements(Minus(newer, {id})))
  {
    MinusIn(shown, Elements(newer));
    MinusAbsent(Minus(shown, Elements(newer)), {id});
    MinusIn(newer, {id});
    MinusCongruent(shown, Elements(newer), Elements(Minus(newer, {id})));
  }

  /** One replayed change keeps the shape of the id list. */
  lemma ReplayUpdate(list: seq<Id>, now: seq<Id>, shown: seq<Id>,
                     older: seq<Id>, newer: seq<Id>, extra: seq<Id>, id: Id)
    requires ReplayIds(list, now, shown, older, newer, extra) && id in now
    ensures ReplayIds(list + [id], now, shown, older, newer, extra + [id])
  {
    Assoc(Reverse(newer) + Minus(shown, Elements(newer)), extra, [id]);
  }

  lemma ReplayStep<B>(list: seq<Row<B>>, now: seq<Row<B>>, shown: seq<Id>,
                      older: seq<Id>, newer: seq<Id>, extra: seq<Id>, used: set<Id>, c: Change<B>)
    returns (older': seq<Id>, newer': seq<Id>, extra': seq<Id>)
    requires ReplayIds(Ids(list), Ids(now), shown, older, newer, extra)
    requires Sound(now, used) && Legal(now, used, c) && (c.Remove? ==> c.id !in shown)
    ensures ReplayIds(Ids(ClientStep(AtFront, list, c)), Ids(TableStep(now, c)), shown, older', newer', extra')
    ensures !c.Update? && extra == [] ==> extra' == []
  {
    hide ReplayIds;
    older', newer', extra' := older, newer, extra;
    match c
    case Insert(row) =>
      ReplayInsert(Ids(list), Ids(now), shown, older, newer, extra, row.id);
      ToFrontIds(list, row);
      IdsConcat(now, [row]);
      assert Ids([row]) == [row.id];
      newer' := newer + [row.id];
    case Update(row) =>
      UpsertIds(list, row);
      UpsertIds(now, row);
      if row.id !in Ids(list) {
        ReplayUpdate(Ids(list), Ids(now), shown, older, newer, extra, row.id);
        extra' := extra + [row.id];
      }
    case Remove(id) =>
      ReplayRemove(Ids(list), Ids(now), shown, older, newer, extra, id);
      WithoutIds(list, id);
      WithoutIds(now, id);
      older', newer', extra' := Minus(older, {id}), Minus(newer, {id}), Minus(extra, {id});
  }

  lemma {:induction false} AtFrontOverlap<B>(list: seq<Row<B>>, now: seq<Row<B>>, used: set<Id>, cs: seq<Change<B>>,
                                             snap: seq<Row<B>>, shown: seq<Id>,
                                             older: seq<Id>, newer: seq<Id>, extra: seq<Id>)
    returns (older': seq<Id>, newer': seq<Id>, extra': seq<Id>)
    requires Sound(now, used) && History(now, used, cs) && snap == TableRun(now, cs)
    requires forall x | x in shown :: x in Ids(snap)
    requires Known(list, now, snap) && ReplayIds(Ids(list), Ids(now), shown, older, newer, extra)
    ensures var list' := ClientRun(AtFront, list, cs);
            Known(list', snap, snap) && ReplayIds(Ids(list'), Ids(snap), shown, older', newer', extra')
    ensures NoUpdates(cs) && extra == [] ==> extra' == []
    decreases |cs|
  {
    if cs == [] {
      return older, newer, extra;
    }
    var c, next := cs[0], TableStep(now, cs[0]);
    SoundStep(now, used, c);
    KnownStep(AtFront, list, now, snap, used, c);
    assert NoUpdates(cs) ==> NoUpdates(cs[1..]) && !c.Update?;
    if c.Remove? {
      WithoutIds(now, c.id);
      MinusIn(Ids(now), {c.id});
      NeverReborn(next, used, cs[1..], c.id);
    }
    older', newer', extra' := ReplayStep(list, now, shown, older, newer, extra, used, c);
    older', newer', extra' :=
      AtFrontOverlap(ClientStep(AtFront, list, c), next, Grown(used, c), cs[1..], snap, shown, older', newer', extra');
  }

  /** The replay puts back, in place, exactly the snapshot's window, widened to everything
      inserted since the stream began. */
  lemma ReplaySettles(list: seq<Id>, now: seq<Id>, m: nat, older: seq<Id>, newer: seq<Id>, extra: seq<Id>)
    requires Distinct(now) && m <= |now|
    requires ReplayIds(list, now, Reverse(now)[..m], older, newer, extra)
    ensures var p := Max(m, |newer|); p <= |now| && list == Reverse(now)[..p] + extra
  {
    ReverseConcat(older, newer);
    forall x | x in Reverse(older) ensures x !in Elements(newer) {
      ReverseIn(older);
      Separate(older, newer, x);
    }
    ShownMinusNewer(Reverse(newer), Reverse(older), m, Elements(newer)) by { ReverseIn(newer); }
  }

  lemma Separate(a: seq<Id>, b: seq<Id>, x: Id)
    requires Distinct(a + b) && x in a
    ensures x !in b
  {
    var i :| 0 <= i < |a| && a[i] == x;
    forall j | 0 <= j < |b| ensures b[j] != x {
      assert (a + b)[i] == x && (a + b)[|a| + j] == b[j];
    }
  }

  lemma ShownMinusNewer(front: seq<Id>, back: seq<Id>, m: nat, gone: set<Id>)
    requires m <= |front| + |back|
    requires forall x | x in front :: x in gone
    requires forall x | x in back :: x !in gone
    ensures front + Minus((front + back)[..m], gone) == (front + back)[..Max(m, |front|)]
  {
    if m <= |front| {
      assert (front + back)[..m] == front[..m];
      AllGone(front[..m], gone);
    } else {
      assert (front + back)[..m] == front + back[..m - |front|];
      MinusConcat(front, back[..m - |front|], gone);
      AllGone(front, gone);
      MinusAbsent(back[..m - |front|], gone);
    }
  }

  lemma AllGone(s: seq<Id>, gone: set<Id>)
    requires forall x | x in s :: x in gone
    ensures Minus(s, gone) == []
  {
    MinusIn(s, gone);
    assert |Minus(s, gone)| > 0 ==> Minus(s, gone)[0] in Minus(s, gone);
  }

  /** Removing an id from a list and from the sequence it is a prefix of. */
  lemma PrefixMinus(list: seq<Id>, all: seq<Id>, p: nat, id: Id) returns (q: nat)
    requires p <= |list| && p <= |all| && list[..p] == all[..p]
    ensures var l, a := Minus(list, {id}), Minus(all, {id});
            q <= |l| && q <= |a| && l[..q] == a[..q] == Minus(list[..p], {id})
    ensures p == |list| ==> q == |Minus(list, {id})|
    ensures p == |all| ==> q == |Minus(all, {id})|
  {
    assert list == list[..p] + list[p..] && all == all[..p] + all[p..];
    MinusConcat(list[..p], list[p..], {id});
    MinusConcat(all[..p], all[p..], {id});
    q := |Minus(all[..p], {id})|;
  }

  /** The ids of the window after a change. */
  function NextWindow<B>(ids: seq<Id>, c: Change<B>): seq<Id> {
    match c
    case Insert(row) => [row.id] + ids
    case Update(_) => ids
    case Remove(id) => Minus(ids, {id})
  }

  /** After the snapshot the window follows the table change by change. */
  lemma WindowStep<B>(list: seq<Row<B>>, table: seq<Row<B>>, used: set<Id>, p: nat, c: Change<B>) returns (q: nat)
    requires Sound(table, used) && Legal(table, used, c) && Window(list, table, p)
    ensures Window(ClientStep(AtFront, list, c), TableStep(table, c), q)
    ensures Ids(ClientStep(AtFront, list, c))[..q] == NextWindow(Ids(list)[..p], c)
    ensures p == |table| ==> q == |TableStep(table, c)|
    ensures !c.Update? && p == |list| ==> q == |ClientStep(AtFront, list, c)|
  {
    LiveRowsStep(list, table, used, c);
    q := WindowIdsStep(list, table, used, p, c);
  }

  lemma LiveRowsStep<B>(list: seq<Row<B>>, table: seq<Row<B>>, used: set<Id>, c: Change<B>)
    requires Sound(table, used) && Legal(table, used, c) && Distinct(Ids(list))
    requires forall r | r in list :: r in table
    ensures Distinct(Ids(ClientStep(AtFront, list, c)))
    ensures forall r | r in ClientStep(AtFront, list, c) :: r in TableStep(table, c)
  {
    ClientStepDistinct(AtFront, list, c);
    forall r | r in ClientStep(AtFront, list, c) ensures r in TableStep(table, c) {
      ClientStepHas(AtFront, list, c, r);
      TableStepHas(table, used, c, r);
    }
  }

  lemma WindowIdsStep<B>(list: seq<Row<B>>, table: seq<Row<B>>, used: set<Id>, p: nat, c: Change<B>) returns (q: nat)
    requires Sound(table, used) && Legal(table, used, c) && p <= |list| && p <= |table|
    requires forall r | r in list :: r in table
    requires Ids(list)[..p] == Reverse(Ids(table))[..p]
    ensures var list', table' := ClientStep(AtFront, list, c), TableStep(table, c);
            && q <= |list'| && q <= |table'|
            && Ids(list')[..q] == Reverse(Ids(table'))[..q] == NextWindow(Ids(list)[..p], c)
            && (p == |table| ==> q == |table'|)
            && (!c.Update? && p == |list| ==> q == |list'|)
  {
    match c {
      case Insert(row) =>
        q := p + 1;
        NotShown(list, table, row.id);
        WithoutAbsent(list, row.id);
        IdsConcat(table, [row]);
        IdsConcat([row], list);
        ReverseConcat(Ids(table), [row.id]);
        assert Ids([row]) == [row.id] == Reverse([row.id]);
        PrefixPush(row.id, Ids(list), Reverse(Ids(table)), p);
      case Update(row) =>
        q := p;
        UpsertIds(list, row);
        UpsertIds(table, row);
        assert Ids(Upsert(table, row)) == Ids(table);
        PrefixGrows(Ids(list), Ids(Upsert(list, row)), p);
      case Remove(id) =>
        WithoutIds(list, id);
        WithoutIds(table, id);
        MinusReverse(Ids(table), {id});
        q := PrefixMinus(Ids(list), Reverse(Ids(table)), p, id);
    }
  }

  lemma PrefixPush(x: Id, a: seq<Id>, b: seq<Id>, p: nat)
    requires p <= |a| && p <= |b| && a[..p] == b[..p]
    ensures ([x] + a)[..p + 1] == ([x] + b)[..p + 1] == [x] + a[..p]
  {
    assert ([x] + a)[..p + 1] == [x] + a[..p];
    assert ([x] + b)[..p + 1] == [x] + b[..p];
  }

  lemma PrefixGrows(a: seq<Id>, b: seq<Id>, p: nat)
    requires p <= |a| <= |b| && b[..|a|] == a
    ensures b[..p] == a[..p]
  {
    assert b[..|a|][..p] == b[..p];
  }

  lemma NotShown<B>(list: seq<Row<B>>, table: seq<Row<B>>, id: Id)
    requires forall r | r in list :: r in table
    requires id !in Ids(table)
    ensures id !in Ids(list)
  {
    forall i | 0 <= i < |list| ensures Ids(list)[i] != id {
      IdsAt(list, i);
      IdOf(table, list[i]);
    }
  }

  /** The id is in the window, or the server has no such row. */
  ghost predicate Held<B>(list: seq<Row<B>>, table: seq<Row<B>>, p: nat, x: Id)
    requires p <= |list|
  {
    x in Ids(list)[..p] || x !in Ids(table)
  }

  lemma HeldStep<B>(list: seq<Row<B>>, table: seq<Row<B>>, p: nat, q: nat, c: Change<B>, x: Id)
    requires p <= |list| && q <= |ClientStep(AtFront, list, c)| && Held(list, table, p, x)
    requires Ids(ClientStep(AtFront, list, c))[..q] == NextWindow(Ids(list)[..p], c)
    requires c.Update? ==> c.row.id in Ids(table)
    ensures Held(ClientStep(AtFront, list, c), TableStep(table, c), q, x)
  {
    match c
    case Insert(row) => IdsConcat(table, [row]);
    case Update(row) => UpsertIds(table, row);
    case Remove(id) =>
      WithoutIds(table, id);
      MinusHas(Ids(table), {id}, x);
      MinusHas(Ids(list)[..p], {id}, x);
  }

  lemma {:induction false} WindowRun<B>(list: seq<Row<B>>, table: seq<Row<B>>, used: set<Id>, p: nat,
                                        cs: seq<Change<B>>) returns (q: nat)
    requires Sound(table, used) && History(table, used, cs) && Window(list, table, p)
    ensures Window(ClientRun(AtFront, list, cs), TableRun(table, cs), q)
    ensures p == |table| ==> q == |TableRun(table, cs)|
    ensures NoUpdates(cs) && p == |list| ==> q == |ClientRun(AtFront, list, cs)|
    ensures forall x | Held(list, table, p, x) :: Held(ClientRun(AtFront, list, cs), TableRun(table, cs), q, x)
    decreases |cs|
  {
    if cs == [] {
      q := p;
    } else {
      assert NoUpdates(cs) ==> NoUpdates(cs[1..]) && !cs[0].Update?;
      var list', table' := ClientStep(AtFront, list, cs[0]), TableStep(table, cs[0]);
      var m := WindowStep(list, table, used, p, cs[0]);
      forall x | Held(list, table, p, x) ensures Held(list', table', m, x) {
        HeldStep(list, table, p, m, cs[0], x);
      }
      SoundStep(table, used, cs[0]);
      q := WindowRun(list', table', Grown(used, cs[0]), m, cs[1..]);
    }
  }

  /** The list starts with the newest `p` rows of the table, in order; the rest are live rows. */
  ghost predicate ShowsNewest<B>(list: seq<Row<B>>, table: seq<Row<B>>, p: nat) {
    && p <= |list| && p <= |table| && list[..p] == Reverse(table)[..p]
    && Distinct(Ids(list))
    && forall r | r in list :: r in table
  }

  /** What a newest-first replica holds after `b`, having been filled from the newest `limit`
      rows of `snap`: the newest rows of the table in order, among them every live row that was
      shown or came later, then only live rows. */
  ghost predicate Mirrors<B>(list: seq<Row<B>>, snap: seq<Row<B>>, limit: nat, table: seq<Row<B>>) {
    && (exists p: nat :: ShowsNewest(list, table, p) && KeptIn(list, snap, limit, table, p))
    && (|snap| <= limit ==> list == Reverse(table))
  }

  ghost predicate KeptIn<B>(list: seq<Row<B>>, snap: seq<Row<B>>, limit: nat, table: seq<Row<B>>, p: nat)
    requires p <= |list|
  {
    forall x | x in Ids(table) && (x in Ids(Newest(snap, limit)) || x !in Ids(snap)) :: x in Ids(list)[..p]
  }

  /** Replaying events the snapshot already contains leaves a window on the snapshot. */
  lemma AtFrontReplay<B>(table: seq<Row<B>>, used: set<Id>, a: seq<Change<B>>, limit: nat) returns (p: nat)
    requires Sound(table, used) && History(table, used, a)
    ensures var snap := TableRun(table, a);
            var list := ClientRun(AtFront, Newest(snap, limit), a);
            && Window(list, snap, p) && Min(limit, |snap|) <= p
            && (NoUpdates(a) ==> p == |list|)
  {
    var snap := TableRun(table, a);
    var m := Min(limit, |snap|);
    var first := Newest(snap, limit);
    SoundRun(table, used, a);
    NewestIds(snap, limit);
    NewestDistinct(snap, limit);
    forall r | r in first ensures r in snap { NewestHas(snap, limit, r); }
    forall x | x in Ids(first) ensures x in Ids(snap) { NewestHasId(snap, limit, x); }
    MinusAbsent(Ids(first), Elements<Id>([]));
    assert Ids(table) == Ids(table) + [];
    assert Ids(first) == Reverse([]) + Ids(first) + [];
    var older, newer, extra := AtFrontOverlap(first, table, used, a, snap, Ids(first), Ids(table), [], []);
    ReplaySettles(Ids(ClientRun(AtFront, first, a)), Ids(snap), m, older, newer, extra);
    p := Max(m, |newer|);
  }

  lemma NewestIds<B>(table: seq<Row<B>>, limit: nat)
    ensures Ids(Newest(table, limit)) == Reverse(Ids(table))[..Min(limit, |table|)]
  {
    ReverseIds(table);
    IdsSlice(Reverse(table), Min(limit, |table|));
  }

  lemma NewestDistinct<B>(table: seq<Row<B>>, limit: nat)
    requires Distinct(Ids(table))
    ensures Distinct(Ids(Newest(table, limit)))
  {
    NewestIds(table, limit);
    ReverseDistinct(Ids(table));
    SliceDistinct(Reverse(Ids(table)), Min(limit, |table|));
  }

  lemma NewestHas<B>(table: seq<Row<B>>, limit: nat, r: Row<B>)
    requires r in Newest(table, limit)
    ensures r in table
  {
    SliceIn(Reverse(table), Min(limit, |table|));
    ReverseHas(table, r);
  }

  lemma NewestHasId<B>(table: seq<Row<B>>, limit: nat, x: Id)
    requires Distinct(Ids(table)) && x in Ids(Newest(table, limit))
    ensures x in Ids(table)
  {
    NewestIds(table, limit);
    SliceIn(Reverse(Ids(table)), Min(limit, |table|));
    ReverseHas(Ids(table), x);
  }

  /** Overlap-tolerant convergence, front discipline. */
  lemma AtFrontConverges<B>(table: seq<Row<B>>, used: set<Id>, a: seq<Change<B>>, b: seq<Change<B>>, limit: nat)
    requires Sound(table, used) && History(table, used, a + b)
    ensures Mirrors(ClientRun(AtFront, Newest(TableRun(table, a), limit), a + b),
                    TableRun(table, a), limit, TableRun(table, a + b))
    ensures NoUpdates(a + b) ==>
              var list := ClientRun(AtFront, Newest(TableRun(table, a), limit), a + b);
              |list| <= |TableRun(table, a + b)| && list == Reverse(TableRun(table, a + b))[..|list|]
  {
    var later := HistorySplit(table, used, a, b);
    var snap, end := TableRun(table, a), TableRun(table, a + b);
    var mid := ClientRun(AtFront, Newest(snap, limit), a);
    var list := ClientRun(AtFront, Newest(snap, limit), a + b);
    var p := AtFrontReplay(table, used, a, limit);
    var q := WindowRun(mid, snap, later, p, b);
    ClientConcat(AtFront, Newest(snap, limit), a, b);
    RunConcat(table, a, b);
    SoundRun(table, used, a + b);
    WindowRowsEqual(list, end, q);
    assert ShowsNewest(list, end, q);
    if |snap| <= limit {
      WindowWhole(list, end, q);
    }
    forall x | x in Ids(end) && (x in Ids(Newest(snap, limit)) || x !in Ids(snap)) ensures x in Ids(list)[..q] {
      if x in Ids(Newest(snap, limit)) { WindowHas(mid, snap, limit, p, x); }
      assert Held(mid, snap, p, x);
    }
    assert KeptIn(list, snap, limit, end, q);
    if NoUpdates(a + b) {
      NoUpdatesSplit(a, b);
      Whole(list);
    }
  }

  lemma NoUpdatesSplit<B>(a: seq<Change<B>>, b: seq<Change<B>>)
    requires NoUpdates(a + b)
    ensures NoUpdates(a) && NoUpdates(b)
  {
    assert forall i | 0 <= i < |a| :: (a + b)[i] == a[i];
    assert forall i | 0 <= i < |b| :: (a + b)[|a| + i] == b[i];
  }

  lemma WindowHas<B>(list: seq<Row<B>>, snap: seq<Row<B>>, limit: nat, p: nat, x: Id)
    requires Window(list, snap, p) && Min(limit, |snap|) <= p
    requires x in Ids(Newest(snap, limit))
    ensures x in Ids(list)[..p]
  {
    NewestIds(snap, limit);
    var all := Reverse(Ids(snap));
    var i :| 0 <= i < Min(limit, |snap|) && all[..Min(limit, |snap|)][i] == x;
    assert Ids(list)[..p][i] == all[..p][i] == x;
  }

  lemma WindowRowsEqual<B>(list: seq<Row<B>>, table: seq<Row<B>>, p: nat)
    requires Distinct(Ids(table)) && Window(list, table, p)
    ensures list[..p] == Reverse(table)[..p]
  {
    ReverseIn(table);
    ReverseIds(table);
    ReverseDistinct(Ids(table));
    EqualByIds(list, Reverse(table), p);
  }

  /** A window over the whole table leaves no room for older rows. */
  lemma WindowWhole<B>(list: seq<Row<B>>, table: seq<Row<B>>, p: nat)
    requires Distinct(Ids(table)) && Window(list, table, p) && p == |table|
    ensures list == Reverse(table)
  {
    WindowFull(list, table, p);
    WindowRowsEqual(list, table, p);
    hide *;
    WholePrefix(list, Reverse(table), p);
  }

  lemma WindowFull<B>(list: seq<Row<B>>, table: seq<Row<B>>, p: nat)
    requires Window(list, table, p) && p == |table|
    ensures |list| == p
  {
    Whole(Reverse(Ids(table)));
    forall x | x in Ids(list)[p..] ensures x in Reverse(Ids(table)) {
      WindowTail(list, table, x);
    }
    NoRoomAfter(Ids(list), Reverse(Ids(table)));
  }

  lemma WindowTail<B>(list: seq<Row<B>>, table: seq<Row<B>>, x: Id)
    requires |table| <= |list| && x in Ids(list)[|table|..]
    requires forall r | r in list :: r in table
    ensures x in Reverse(Ids(table))
  {
    var i :| 0 <= i < |list| - |table| && Ids(list)[|table|..][i] == x;
    IdsAt(list, |table| + i);
    IdOf(table, list[|table| + i]);
    ReverseHas(Ids(table), x);
  }
}
