/** `SELECT ... ORDER BY created_at` over a table keyed by id, and what a handler's
    write does to the result. */
module Listing {
  import opened Common
  import opened Rows
  import opened Store

  ghost predicate Ascending<B>(rows: seq<Row<B>>) {
    forall i, j | 0 <= i < j < |rows| :: rows[i].at < rows[j].at
  }

  /** `rows` is the whole table, oldest first. */
  ghost predicate IsListing<B>(t: map<Id, Row<B>>, rows: seq<Row<B>>) {
    && (forall r | r in rows :: r.id in t && t[r.id] == r)
    && (forall x | x in t :: t[x].id == x && t[x] in rows)
    && Ascending(rows)
  }

  /** Timestamps are strictly increasing, so the order of a listing is determined. */
  lemma {:induction false} ListingUnique<B>(t: map<Id, Row<B>>, a: seq<Row<B>>, b: seq<Row<B>>)
    requires IsListing(t, a) && IsListing(t, b)
    ensures a == b
    decreases |a|
  {
    if a == [] {
      if b != [] {
        HeadIn(b);
        assert false;
      }
    } else {
      var k := |a| - 1;
      assert a[k] in a;
      assert b != [] by { assert a[k] in b; }
      var m := |b| - 1;
      assert b[m] in b;
      LastIsNewest(a, b[m]);
      LastIsNewest(b, a[k]);
      SameStamp(a, b[m]);
      ListingLast(t, a);
      ListingLast(t, b);
      ListingUnique(t - {a[k].id}, a[..k], b[..m]);
      assert a == a[..k] + [a[k]] && b == b[..m] + [b[m]];
    }
  }

  lemma HeadIn<B>(rows: seq<Row<B>>)
    requires rows != []
    ensures exists r :: r in rows
  {
    assert rows[0] in rows;
  }

  lemma LastIsNewest<B>(rows: seq<Row<B>>, r: Row<B>)
    requires Ascending(rows) && r in rows
    ensures r.at <= rows[|rows| - 1].at
  {
  }

  lemma SameStamp<B>(rows: seq<Row<B>>, r: Row<B>)
    requires Ascending(rows) && r in rows && r.at == rows[|rows| - 1].at
    ensures r == rows[|rows| - 1]
  {
  }

  lemma ListingLast<B>(t: map<Id, Row<B>>, rows: seq<Row<B>>)
    requires IsListing(t, rows) && rows != []
    ensures IsListing(t - {rows[|rows| - 1].id}, rows[..|rows| - 1])
  {
    var k := |rows| - 1;
    var last := rows[k];
    assert last in rows;
    forall r | r in rows[..k] ensures r in rows && r.id != last.id { BeforeLast(rows, r); }
    forall x | x in t && x != last.id ensures t[x] in rows[..k] { NotLast(rows, t[x]); }
  }

  lemma BeforeLast<B>(rows: seq<Row<B>>, r: Row<B>)
    requires Ascending(rows) && rows != [] && r in rows[..|rows| - 1]
    ensures r in rows && r.at < rows[|rows| - 1].at
  {
    var i :| 0 <= i < |rows| - 1 && rows[..|rows| - 1][i] == r;
    assert rows[i] == r;
  }

  lemma NotLast<B>(rows: seq<Row<B>>, r: Row<B>)
    requires r in rows && r != rows[|rows| - 1]
    ensures r in rows[..|rows| - 1]
  {
    var i :| 0 <= i < |rows| && rows[i] == r;
    assert rows[..|rows| - 1][i] == r;
  }

  lemma ListingDistinct<B>(t: map<Id, Row<B>>, rows: seq<Row<B>>)
    requires IsListing(t, rows)
    ensures Distinct(Ids(rows))
  {
    forall i, j | 0 <= i < j < |rows| ensures Ids(rows)[i] != Ids(rows)[j] {
      IdsAt(rows, i);
      IdsAt(rows, j);
      assert rows[i] in rows && rows[j] in rows;
    }
  }

  lemma ListingIds<B>(t: map<Id, Row<B>>, rows: seq<Row<B>>, x: Id)
    requires IsListing(t, rows)
    ensures x in Ids(rows) <==> x in t
  {
    if x in t { IdOf(rows, t[x]); }
    if x in Ids(rows) {
      var i :| 0 <= i < |Ids(rows)| && Ids(rows)[i] == x;
      IdsAt(rows, i);
      assert rows[i] in rows;
    }
  }

  lemma ListingInsert<B>(t: map<Id, Row<B>>, rows: seq<Row<B>>, row: Row<B>)
    requires IsListing(t, rows) && row.id !in t
    requires forall x | x in t :: t[x].at < row.at
    ensures IsListing(t[row.id := row], rows + [row])
  {
    forall i | 0 <= i < |rows| ensures rows[i].at < row.at {
      assert rows[i] in rows;
    }
  }

  lemma ListingUpdate<B>(t: map<Id, Row<B>>, rows: seq<Row<B>>, row: Row<B>)
    requires IsListing(t, rows) && row.id in t && t[row.id].at == row.at
    ensures IsListing(t[row.id := row], Upsert(rows, row))
  {
    var t' := t[row.id := row];
    var rows' := Upsert(rows, row);
    ListingDistinct(t, rows);
    ListingIds(t, rows, row.id);
    var k := FindIndex(rows, row.id);
    assert rows[k] in rows;
    assert rows' == rows[k := row];
    forall r | r in rows' ensures r.id in t' && t'[r.id] == r { UpsertHas(rows, row, r); }
    forall x | x in t' ensures t'[x].id == x && t'[x] in rows' { UpsertHas(rows, row, t'[x]); }
  }

  lemma ListingRemove<B>(t: map<Id, Row<B>>, rows: seq<Row<B>>, id: Id)
    requires IsListing(t, rows)
    ensures IsListing(t - {id}, Without(rows, id))
  {
    var t' := t - {id};
    forall r | r in Without(rows, id) ensures r.id in t' && t'[r.id] == r { WithoutHas(rows, id, r); }
    forall x | x in t' ensures t'[x].id == x && t'[x] in Without(rows, id) { WithoutHas(rows, id, t'[x]); }
    WithoutAscending(rows, id);
  }

  lemma {:induction false} WithoutAscending<B>(rows: seq<Row<B>>, id: Id)
    requires Ascending(rows)
    ensures Ascending(Without(rows, id))
  {
    if rows != [] {
      WithoutAscending(rows[1..], id);
      var rest := Without(rows[1..], id);
      forall i | 0 <= i < |rest| ensures rows[0].at < rest[i].at {
        WithoutHas(rows[1..], id, rest[i]);
      }
    }
  }

  // -------------------------------------------------------------------------
  // Rows without their link column
  // -------------------------------------------------------------------------

  function Unlink<C>(r: Row<Linked<C>>): Row<C> {
    Row(r.id, r.at, r.body.core)
  }

  function UnlinkAll<C>(rows: seq<Row<Linked<C>>>): (out: seq<Row<C>>)
    ensures |out| == |rows|
  {
    if rows == [] then [] else [Unlink(rows[0])] + UnlinkAll(rows[1..])
  }

  function UnlinkTable<C>(t: map<Id, Row<Linked<C>>>): map<Id, Row<C>> {
    map x | x in t :: Unlink(t[x])
  }

  lemma {:induction false} UnlinkAt<C>(rows: seq<Row<Linked<C>>>, i: nat)
    requires i < |rows|
    ensures UnlinkAll(rows)[i] == Unlink(rows[i])
  {
    if i > 0 { UnlinkAt(rows[1..], i - 1); }
  }

  lemma {:induction false} UnlinkConcat<C>(a: seq<Row<Linked<C>>>, b: seq<Row<Linked<C>>>)
    ensures UnlinkAll(a + b) == UnlinkAll(a) + UnlinkAll(b)
  {
    if a == [] {
      assert a + b == b;
    } else {
      assert a + b == [a[0]] + (a[1..] + b);
      UnlinkConcat(a[1..], b);
    }
  }

  lemma UnlinkSlice<C>(rows: seq<Row<Linked<C>>>, n: nat)
    requires n <= |rows|
    ensures UnlinkAll(rows[..n]) == UnlinkAll(rows)[..n]
  {
    UnlinkConcat(rows[..n], rows[n..]);
    assert rows == rows[..n] + rows[n..];
  }

  lemma {:induction false} UnlinkReverse<C>(rows: seq<Row<Linked<C>>>)
    ensures UnlinkAll(Reverse(rows)) == Reverse(UnlinkAll(rows))
  {
    if rows != [] {
      UnlinkReverse(rows[1..]);
      UnlinkConcat(Reverse(rows[1..]), [rows[0]]);
    }
  }

  lemma {:induction false} UnlinkIds<C>(rows: seq<Row<Linked<C>>>)
    ensures Ids(UnlinkAll(rows)) == Ids(rows)
  {
    if rows != [] { UnlinkIds(rows[1..]); }
  }

  lemma {:induction false} UnlinkWithout<C>(rows: seq<Row<Linked<C>>>, id: Id)
    ensures UnlinkAll(Without(rows, id)) == Without(UnlinkAll(rows), id)
  {
    if rows != [] {
      UnlinkWithout(rows[1..], id);
      UnlinkConcat(if rows[0].id == id then [] else [rows[0]], Without(rows[1..], id));
    }
  }

  lemma {:induction false} UnlinkFind<C>(rows: seq<Row<Linked<C>>>, id: Id)
    ensures FindIndex(UnlinkAll(rows), id) == FindIndex(rows, id)
  {
    if rows != [] { UnlinkFind(rows[1..], id); }
  }

  lemma UnlinkUpsert<C>(rows: seq<Row<Linked<C>>>, row: Row<Linked<C>>)
    ensures UnlinkAll(Upsert(rows, row)) == Upsert(UnlinkAll(rows), Unlink(row))
  {
    UnlinkFind(rows, row.id);
    var k := FindIndex(rows, row.id);
    if k == -1 {
      UnlinkConcat(rows, [row]);
    } else {
      var u, v := UnlinkAll(rows[k := row]), UnlinkAll(rows)[k := Unlink(row)];
      forall i | 0 <= i < |rows| ensures u[i] == v[i] {
        UnlinkAt(rows, i);
        UnlinkAt(rows[k := row], i);
      }
    }
  }

  lemma UnlinkHas<C>(rows: seq<Row<Linked<C>>>, r: Row<Linked<C>>)
    requires r in rows
    ensures Unlink(r) in UnlinkAll(rows)
  {
    var i :| 0 <= i < |rows| && rows[i] == r;
    UnlinkAt(rows, i);
  }

  lemma UnlinkFrom<C>(rows: seq<Row<Linked<C>>>, q: Row<C>) returns (r: Row<Linked<C>>)
    requires q in UnlinkAll(rows)
    ensures r in rows && Unlink(r) == q
  {
    var i :| 0 <= i < |rows| && UnlinkAll(rows)[i] == q;
    UnlinkAt(rows, i);
    r := rows[i];
  }

  lemma UnlinkListing<C>(t: map<Id, Row<Linked<C>>>, rows: seq<Row<Linked<C>>>)
    requires IsListing(t, rows)
    ensures IsListing(UnlinkTable(t), UnlinkAll(rows))
  {
    forall q | q in UnlinkAll(rows) ensures q.id in t && Unlink(t[q.id]) == q {
      var r := UnlinkFrom(rows, q);
    }
    forall x | x in t ensures Unlink(t[x]) in UnlinkAll(rows) { UnlinkHas(rows, t[x]); }
    forall i, j | 0 <= i < j < |rows| ensures UnlinkAll(rows)[i].at < UnlinkAll(rows)[j].at {
      UnlinkAt(rows, i);
      UnlinkAt(rows, j);
    }
  }
}
