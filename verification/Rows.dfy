/** Rows with an identity, and the list updates every client of the event stream
    performs on them: upsert by id, filter by id, and move to the front. */
module Rows {
  import opened Common

  type Id = nat

  /** `at` is the timestamp column a table is ordered by: `created_at` for tasks,
      decisions and handoffs, `last_seen` for presence. */
  datatype Row<+B> = Row(id: Id, at: nat, body: B)

  function Ids<B>(rows: seq<Row<B>>): (ids: seq<Id>)
    ensures |ids| == |rows|
  {
    if rows == [] then [] else [rows[0].id] + Ids(rows[1..])
  }

  lemma {:induction false} IdsAt<B>(rows: seq<Row<B>>, i: nat)
    requires i < |rows|
    ensures Ids(rows)[i] == rows[i].id
  {
    if i > 0 {
      IdsAt(rows[1..], i - 1);
    }
  }

  lemma {:induction false} IdsConcat<B>(a: seq<Row<B>>, b: seq<Row<B>>)
    ensures Ids(a + b) == Ids(a) + Ids(b)
  {
    if a == [] {
      assert a + b == b;
    } else {
      assert a + b == [a[0]] + (a[1..] + b);
      IdsConcat(a[1..], b);
    }
  }

  lemma IdsSlice<B>(rows: seq<Row<B>>, n: nat)
    requires n <= |rows|
    ensures Ids(rows[..n]) == Ids(rows)[..n]
  {
    assert rows[..n] + rows[n..] == rows;
    IdsConcat(rows[..n], rows[n..]);
  }

  lemma ToFrontIds<B>(rows: seq<Row<B>>, row: Row<B>)
    ensures Ids(ToFront(rows, row)) == [row.id] + Minus(Ids(rows), {row.id})
  {
    WithoutIds(rows, row.id);
    IdsConcat([row], Without(rows, row.id));
  }

  lemma IdsReplaced<B>(rows: seq<Row<B>>, k: nat, row: Row<B>)
    requires k < |rows| && rows[k].id == row.id
    ensures Ids(rows[k := row]) == Ids(rows)
  {
    forall i | 0 <= i < |rows| ensures Ids(rows[k := row])[i] == Ids(rows)[i] {
      IdsAt(rows, i);
      IdsAt(rows[k := row], i);
    }
  }

  /** `findIndex` on the id: the first position, or -1. */
  function FindIndex<B>(rows: seq<Row<B>>, id: Id): (k: int)
    ensures k == -1 ==> id !in Ids(rows)
    ensures k != -1 ==> 0 <= k < |rows| && rows[k].id == id && id !in Ids(rows[..k])
  {
    if rows == [] then -1
    else if rows[0].id == id then 0
    else
      var k := FindIndex(rows[1..], id);
      if k == -1 then -1
      else
        assert rows[..k + 1] == [rows[0]] + rows[1..][..k];
        k + 1
  }

  lemma DistinctHead(head: Id, tail: seq<Id>)
    requires Distinct([head] + tail)
    ensures Distinct(tail) && head !in tail
  {
    forall i, j | 0 <= i < j < |tail| ensures tail[i] != tail[j] {
      assert ([head] + tail)[i + 1] != ([head] + tail)[j + 1];
    }
    forall i | 0 <= i < |tail| ensures tail[i] != head {
      assert ([head] + tail)[0] != ([head] + tail)[i + 1];
    }
  }

  function Upsert<B>(rows: seq<Row<B>>, row: Row<B>): seq<Row<B>> {
    var k := FindIndex(rows, row.id);
    if k == -1 then rows + [row] else rows[k := row]
  }

  function Without<B>(rows: seq<Row<B>>, id: Id): seq<Row<B>> {
    if rows == [] then []
    else (if rows[0].id == id then [] else [rows[0]]) + Without(rows[1..], id)
  }

  function ToFront<B>(rows: seq<Row<B>>, row: Row<B>): seq<Row<B>> {
    [row] + Without(rows, row.id)
  }

  lemma IdOf<B>(rows: seq<Row<B>>, r: Row<B>)
    requires r in rows
    ensures r.id in Ids(rows)
  {
    var i :| 0 <= i < |rows| && rows[i] == r;
    IdsAt(rows, i);
  }

  /** With distinct ids a row of the list is determined by its id. */
  lemma SameRow<B>(rows: seq<Row<B>>, r: Row<B>, q: Row<B>)
    requires Distinct(Ids(rows)) && r in rows && q in rows && r.id == q.id
    ensures r == q
  {
    var i :| 0 <= i < |rows| && rows[i] == r;
    var j :| 0 <= j < |rows| && rows[j] == q;
    IdsAt(rows, i);
    IdsAt(rows, j);
  }

  lemma UpsertIds<B>(rows: seq<Row<B>>, row: Row<B>)
    ensures Ids(Upsert(rows, row)) == if row.id in Ids(rows) then Ids(rows) else Ids(rows) + [row.id]
    ensures Distinct(Ids(rows)) ==> Distinct(Ids(Upsert(rows, row)))
  {
    var k := FindIndex(rows, row.id);
    if k == -1 {
      IdsConcat(rows, [row]);
    } else {
      IdsAt(rows, k);
      IdsReplaced(rows, k, row);
    }
  }

  lemma UpsertHead<B>(h: Row<B>, t: seq<Row<B>>, row: Row<B>)
    ensures Upsert([h] + t, row) == if h.id == row.id then [row] + t else [h] + Upsert(t, row)
  {
    assert ([h] + t)[1..] == t;
  }

  lemma UpsertNew<B>(rows: seq<Row<B>>, row: Row<B>)
    requires row.id !in Ids(rows)
    ensures Upsert(rows, row) == rows + [row]
  {
    var k := FindIndex(rows, row.id);
    if k != -1 { IdsAt(rows, k); }
  }

  lemma UpsertFrom<B>(rows: seq<Row<B>>, row: Row<B>, r: Row<B>)
    requires r in Upsert(rows, row)
    ensures r == row || r in rows
  {
  }

  lemma UpsertHas<B>(rows: seq<Row<B>>, row: Row<B>, r: Row<B>)
    requires Distinct(Ids(rows))
    ensures r in Upsert(rows, row) <==> r == row || (r in rows && r.id != row.id)
  {
    var k := FindIndex(rows, row.id);
    if k == -1 {
      if r in rows { IdOf(rows, r); }
    } else {
      assert Upsert(rows, row)[k] == row;
      if r in rows && r.id != row.id {
        var i :| 0 <= i < |rows| && rows[i] == r;
        assert Upsert(rows, row)[i] == r;
      }
      if r in Upsert(rows, row) && r != row {
        var i :| 0 <= i < |rows| && Upsert(rows, row)[i] == r;
        IdsAt(rows, i);
        IdsAt(rows, k);
      }
    }
  }

  lemma {:induction false} WithoutIds<B>(rows: seq<Row<B>>, id: Id)
    ensures Ids(Without(rows, id)) == Minus(Ids(rows), {id})
    ensures Distinct(Ids(rows)) ==> Distinct(Ids(Without(rows, id)))
  {
    if rows != [] {
      WithoutIds(rows[1..], id);
      IdsConcat(if rows[0].id == id then [] else [rows[0]], Without(rows[1..], id));
    }
    if Distinct(Ids(rows)) {
      MinusDistinct(Ids(rows), {id});
    }
  }

  lemma {:induction false} WithoutHas<B>(rows: seq<Row<B>>, id: Id, r: Row<B>)
    ensures r in Without(rows, id) <==> r in rows && r.id != id
  {
    if rows != [] {
      WithoutHas(rows[1..], id, r);
      assert rows == [rows[0]] + rows[1..];
    }
  }

  lemma {:induction false} WithoutAbsent<B>(rows: seq<Row<B>>, id: Id)
    requires id !in Ids(rows)
    ensures Without(rows, id) == rows
  {
    if rows != [] {
      WithoutAbsent(rows[1..], id);
    }
  }

  lemma {:induction false} WithoutConcat<B>(a: seq<Row<B>>, b: seq<Row<B>>, id: Id)
    ensures Without(a + b, id) == Without(a, id) + Without(b, id)
  {
    if a == [] {
      assert a + b == b;
    } else {
      assert (a + b)[0] == a[0] && (a + b)[1..] == a[1..] + b;
      WithoutConcat(a[1..], b, id);
      Assoc(if a[0].id == id then [] else [a[0]], Without(a[1..], id), Without(b, id));
    }
  }

  lemma {:induction false} WithoutReverse<B>(rows: seq<Row<B>>, id: Id)
    ensures Without(Reverse(rows), id) == Reverse(Without(rows, id))
  {
    if rows != [] {
      WithoutReverse(rows[1..], id);
      WithoutConcat(Reverse(rows[1..]), [rows[0]], id);
      ReverseConcat(if rows[0].id == id then [] else [rows[0]], Without(rows[1..], id));
    }
  }

  lemma {:induction false} ReverseIds<B>(rows: seq<Row<B>>)
    ensures Ids(Reverse(rows)) == Reverse(Ids(rows))
  {
    if rows != [] {
      ReverseIds(rows[1..]);
      IdsConcat(Reverse(rows[1..]), [rows[0]]);
    }
  }

  /** Lists over the same id sequence, with every row of one found in the other, are equal. */
  lemma EqualByIds<B>(rows: seq<Row<B>>, all: seq<Row<B>>, p: nat)
    requires p <= |rows| && p <= |all|
    requires Distinct(Ids(all)) && Ids(rows)[..p] == Ids(all)[..p]
    requires forall r | r in rows :: r in all
    ensures rows[..p] == all[..p]
  {
    forall i | 0 <= i < p ensures rows[i] == all[i] {
      assert Ids(rows)[..p][i] == Ids(all)[..p][i];
      IdsAt(rows, i);
      IdsAt(all, i);
      SameRow(all, rows[i], all[i]);
    }
  }
}
