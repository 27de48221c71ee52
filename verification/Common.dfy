/** Stock datatypes and sequence operations shared by every model module. */
module Common {

  datatype Option<+T> = None | Some(value: T)

  /** The elements of `s`, last first. */
  function Reverse<T>(s: seq<T>): (r: seq<T>)
    ensures |r| == |s|
  {
    if s == [] then [] else Reverse(s[1..]) + [s[0]]
  }

  lemma {:induction false} ReverseAt<T>(s: seq<T>, i: nat)
    requires i < |s|
    ensures Reverse(s)[i] == s[|s| - 1 - i]
  {
    if i < |s| - 1 {
      ReverseAt(s[1..], i);
    }
  }

  function Min(a: int, b: int): int {
    if a <= b then a else b
  }

  function Max(a: int, b: int): int {
    if a <= b then b else a
  }

  function Elements<T(==)>(s: seq<T>): set<T> {
    set x | x in s
  }

  ghost predicate Distinct<T>(s: seq<T>) {
    forall i, j | 0 <= i < j < |s| :: s[i] != s[j]
  }

  /** `s` without the elements of `gone`, the others in order: a JavaScript `filter`. */
  function Minus<T(==)>(s: seq<T>, gone: set<T>): seq<T> {
    if s == [] then []
    else (if s[0] in gone then [] else [s[0]]) + Minus(s[1..], gone)
  }

  lemma {:induction false} MinusIn<T>(s: seq<T>, gone: set<T>)
    ensures forall x :: x in Minus(s, gone) <==> x in s && x !in gone
  {
    if s != [] {
      MinusIn(s[1..], gone);
      assert s == [s[0]] + s[1..];
    }
  }

  lemma {:induction false} MinusHas<T>(s: seq<T>, gone: set<T>, x: T)
    ensures x in Minus(s, gone) <==> x in s && x !in gone
  {
    if s != [] {
      MinusHas(s[1..], gone, x);
      assert s == [s[0]] + s[1..];
    }
  }

  lemma {:induction false} MinusConcat<T>(a: seq<T>, b: seq<T>, gone: set<T>)
    ensures Minus(a + b, gone) == Minus(a, gone) + Minus(b, gone)
  {
    if a == [] {
      assert a + b == b;
    } else {
      assert (a + b)[0] == a[0] && (a + b)[1..] == a[1..] + b;
      MinusConcat(a[1..], b, gone);
    }
  }

  lemma {:induction false} MinusAbsent<T>(s: seq<T>, gone: set<T>)
    requires forall x | x in s :: x !in gone
    ensures Minus(s, gone) == s
  {
    if s != [] {
      MinusAbsent(s[1..], gone);
    }
  }

  lemma {:induction false} MinusUnion<T>(s: seq<T>, a: set<T>, b: set<T>)
    ensures Minus(Minus(s, a), b) == Minus(s, a + b)
  {
    if s != [] {
      MinusUnion(s[1..], a, b);
      MinusConcat(if s[0] in a then [] else [s[0]], Minus(s[1..], a), b);
    }
  }

  lemma {:induction false} MinusReverse<T>(s: seq<T>, gone: set<T>)
    ensures Minus(Reverse(s), gone) == Reverse(Minus(s, gone))
  {
    if s != [] {
      MinusReverse(s[1..], gone);
      MinusConcat(Reverse(s[1..]), [s[0]], gone);
      ReverseConcat(if s[0] in gone then [] else [s[0]], Minus(s[1..], gone));
    }
  }

  lemma {:induction false} MinusDistinct<T>(s: seq<T>, gone: set<T>)
    requires Distinct(s)
    ensures Distinct(Minus(s, gone))
  {
    if s != [] {
      MinusDistinct(s[1..], gone);
      MinusIn(s[1..], gone);
    }
  }

  lemma {:induction false} MinusCongruent<T>(s: seq<T>, a: set<T>, b: set<T>)
    requires forall x | x in s :: x in a <==> x in b
    ensures Minus(s, a) == Minus(s, b)
  {
    if s != [] {
      MinusCongruent(s[1..], a, b);
    }
  }

  lemma {:induction false} ReverseConcat<T>(a: seq<T>, b: seq<T>)
    ensures Reverse(a + b) == Reverse(b) + Reverse(a)
  {
    if a == [] {
      assert a + b == b;
    } else {
      assert a + b == [a[0]] + (a[1..] + b);
      ReverseConcat(a[1..], b);
    }
  }

  lemma {:induction false} ReverseIn<T>(s: seq<T>)
    ensures forall x :: x in Reverse(s) <==> x in s
  {
    if s != [] {
      ReverseIn(s[1..]);
      assert s == [s[0]] + s[1..];
    }
  }

  lemma ReverseHas<T>(s: seq<T>, x: T)
    ensures x in Reverse(s) <==> x in s
  {
    ReverseIn(s);
  }

  lemma ReverseDistinct<T>(s: seq<T>)
    requires Distinct(s)
    ensures Distinct(Reverse(s))
  {
    forall i, j | 0 <= i < j < |s| ensures Reverse(s)[i] != Reverse(s)[j] {
      ReverseAt(s, i);
      ReverseAt(s, j);
    }
  }

  lemma SliceIn<T>(s: seq<T>, n: nat)
    requires n <= |s|
    ensures forall x | x in s[..n] :: x in s
  {
  }

  lemma SliceDistinct<T>(s: seq<T>, n: nat)
    requires n <= |s| && Distinct(s)
    ensures Distinct(s[..n])
  {
  }

  lemma Whole<T>(s: seq<T>)
    ensures s[..|s|] == s
  {
  }

  lemma WholePrefix<T>(a: seq<T>, b: seq<T>, n: nat)
    requires |a| == n == |b| && a[..n] == b[..n]
    ensures a == b
  {
    Whole(a);
    Whole(b);
  }

  lemma Assoc<T>(a: seq<T>, b: seq<T>, c: seq<T>)
    ensures a + (b + c) == a + b + c
  {
  }
}
