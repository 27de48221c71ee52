/** What a stream of changes says about one row. A client and the server both follow the last change
    that names a row, whatever they held before. */
module LastWord {
  import opened Common
  import opened Rows
  import opened Feed
  import opened Listing

  /** The row of a list or a table, if there is one. */
  function RowIn<B>(rows: seq<Row<B>>, id: Id): Option<Row<B>> {
    var k := FindIndex(rows, id);
    if k == -1 then None else Some(rows[k])
  }

  function RowOf<B>(t: map<Id, Row<B>>, id: Id): Option<Row<B>> {
    if id in t then Some(t[id]) else None
  }

  predicate Names<B>(c: Change<B>, id: Id) {
    if c.Remove? then c.id == id else c.row.id == id
  }

  function Effect<B>(c: Change<B>): Option<Row<B>> {
    if c.Remove? then None else Some(c.row)
  }

  predicate NamedBy<B>(cs: seq<Change<B>>, id: Id) {
    cs != [] && (Names(cs[0], id) || NamedBy(cs[1..], id))
  }

  /** The effect of the last change that names the row, or what was there before. */
  function LastSaid<B>(cs: seq<Change<B>>, id: Id, start: Option<Row<B>>): Option<Row<B>>
    decreases |cs|
  {
    if cs == [] then start else LastSaid(cs[1..], id, if Names(cs[0], id) then Effect(cs[0]) else start)
  }

  lemma {:induction false} LastSaidNamed<B>(cs: seq<Change<B>>, id: Id, a: Option<Row<B>>, b: Option<Row<B>>)
    ensures NamedBy(cs, id) ==> LastSaid(cs, id, a) == LastSaid(cs, id, b)
    ensures !NamedBy(cs, id) ==> LastSaid(cs, id, a) == a
    decreases |cs|
  {
    if cs != [] {
      var said := Names(cs[0], id);
      LastSaidNamed(cs[1..], id, if said then Effect(cs[0]) else a, if said then Effect(cs[0]) else b);
    }
  }

  lemma {:induction false} LastSaidConcat<B>(a: seq<Change<B>>, b: seq<Change<B>>, id: Id, start: Option<Row<B>>)
    ensures LastSaid(a + b, id, start) == LastSaid(b, id, LastSaid(a, id, start))
    decreases |a|
  {
    if a == [] {
      assert a + b == b;
    } else {
      assert (a + b)[0] == a[0] && (a + b)[1..] == a[1..] + b;
      LastSaidConcat(a[1..], b, id, if Names(a[0], id) then Effect(a[0]) else start);
    }
  }

  lemma RowInHas<B>(rows: seq<Row<B>>, id: Id, r: Row<B>)
    requires Distinct(Ids(rows)) && r.id == id
    ensures RowIn(rows, id) == Some(r) <==> r in rows
    ensures RowIn(rows, id).Some? ==> RowIn(rows, id).value in rows && RowIn(rows, id).value.id == id
  {
    var k := FindIndex(rows, id);
    if r in rows {
      IdOf(rows, r);
      SameRow(rows, r, rows[k]);
    }
  }

  lemma RowInNone<B>(rows: seq<Row<B>>, id: Id)
    ensures RowIn(rows, id) == None <==> id !in Ids(rows)
  {
    var k := FindIndex(rows, id);
    if k != -1 { IdsAt(rows, k); }
  }

  lemma ListedRow<B>(t: map<Id, Row<B>>, rows: seq<Row<B>>, id: Id)
    requires IsListing(t, rows)
    ensures RowIn(rows, id) == RowOf(t, id)
  {
    ListingDistinct(t, rows);
    ListingIds(t, rows, id);
    RowInNone(rows, id);
    if id in t { RowInHas(rows, id, t[id]); }
  }

  /** The rows after a change are the old ones it does not name and, unless it removes, its own. */
  ghost predicate Became<B>(rows: seq<Row<B>>, next: seq<Row<B>>, c: Change<B>) {
    && Distinct(Ids(rows)) && Distinct(Ids(next))
    && (forall r | r in next :: Survives(rows, c, r))
    && (forall r | r in rows && Survives(rows, c, r) :: r in next)
    && (!c.Remove? ==> c.row in next)
  }

  lemma ClientBecame<B>(d: Discipline, list: seq<Row<B>>, c: Change<B>)
    requires Distinct(Ids(list))
    ensures Became(list, ClientStep(d, list, c), c)
  {
    var next := ClientStep(d, list, c);
    ClientStepDistinct(d, list, c);
    if !c.Remove? { ClientStepHas(d, list, c, c.row); }
    forall r | r in next ensures Survives(list, c, r) { ClientStepHas(d, list, c, r); }
    forall r | r in list && Survives(list, c, r) ensures r in next { ClientStepHas(d, list, c, r); }
  }

  lemma TableBecame<B>(table: seq<Row<B>>, used: set<Id>, c: Change<B>)
    requires Sound(table, used) && Legal(table, used, c)
    ensures Became(table, TableStep(table, c), c)
  {
    var next := TableStep(table, c);
    SoundStep(table, used, c);
    if !c.Remove? { TableStepHas(table, used, c, c.row); }
    forall r | r in next ensures Survives(table, c, r) { TableStepHas(table, used, c, r); }
    forall r | r in table && Survives(table, c, r) ensures r in next { TableStepHas(table, used, c, r); }
  }

  lemma RowsSurvive<B>(rows: seq<Row<B>>, next: seq<Row<B>>, c: Change<B>, id: Id)
    requires Became(rows, next, c)
    ensures RowIn(next, id) == if Names(c, id) then Effect(c) else RowIn(rows, id)
  {
    var a, b := RowIn(rows, id), RowIn(next, id);
    if b.Some? {
      RowInHas(next, id, next[FindIndex(next, id)]);
      if !Names(c, id) { RowInHas(rows, id, b.value); }
    }
    if Names(c, id) && !c.Remove? { RowInHas(next, id, c.row); }
    if !Names(c, id) && a.Some? {
      RowInHas(rows, id, rows[FindIndex(rows, id)]);
      RowInHas(next, id, a.value);
    }
  }

  /** Whatever list a client starts from and whatever changes reach it, each of its rows is what the last
      change naming it said. */
  lemma {:induction false} ClientSays<B>(d: Discipline, list: seq<Row<B>>, cs: seq<Change<B>>, id: Id)
    requires Distinct(Ids(list))
    ensures RowIn(ClientRun(d, list, cs), id) == LastSaid(cs, id, RowIn(list, id))
    ensures Distinct(Ids(ClientRun(d, list, cs)))
    decreases |cs|
  {
    if cs != [] {
      hide ClientStep, Names, Effect, RowIn;
      ClientBecame(d, list, cs[0]);
      RowsSurvive(list, ClientStep(d, list, cs[0]), cs[0], id);
      ClientStepDistinct(d, list, cs[0]);
      ClientSays(d, ClientStep(d, list, cs[0]), cs[1..], id);
    }
  }

  /** The same for the table, over a legal history. */
  lemma {:induction false} TableSays<B>(table: seq<Row<B>>, used: set<Id>, cs: seq<Change<B>>, id: Id)
    requires Sound(table, used) && History(table, used, cs)
    ensures RowIn(TableRun(table, cs), id) == LastSaid(cs, id, RowIn(table, id))
    decreases |cs|
  {
    if cs != [] {
      hide TableStep, Names, Effect, RowIn, Legal;
      TableBecame(table, used, cs[0]);
      RowsSurvive(table, TableStep(table, cs[0]), cs[0], id);
      SoundStep(table, used, cs[0]);
      TableSays(TableStep(table, cs[0]), Grown(used, cs[0]), cs[1..], id);
    }
  }

  /** A client that hears a whole history agrees with the table on a row at the end if and only if a
      change named it or they agreed from the start. */
  lemma AgreeIffNamed<B>(d: Discipline, table: seq<Row<B>>, used: set<Id>, list: seq<Row<B>>, cs: seq<Change<B>>,
      id: Id)
    requires Sound(table, used) && History(table, used, cs) && Distinct(Ids(list))
    ensures RowIn(ClientRun(d, list, cs), id) == RowIn(TableRun(table, cs), id)
            <==> NamedBy(cs, id) || RowIn(list, id) == RowIn(table, id)
  {
    ClientSays(d, list, cs, id);
    TableSays(table, used, cs, id);
    LastSaidNamed(cs, id, RowIn(list, id), RowIn(table, id));
    LastSaidNamed(cs, id, RowIn(table, id), RowIn(list, id));
  }
}
