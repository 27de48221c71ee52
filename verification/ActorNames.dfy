/** Naming a new OAuth actor: the base name, or the base with the least free numeric suffix. The names
    in use are folded by the database's `lower`, the candidates by Python's; the two may differ. */
module ActorNames {
  import opened Common
  import Search

  const FIRST_SUFFIX := 2
  const LAST_SUFFIX := 9999

  type Fold = string -> string

  function Decimal(n: nat): (s: string)
    ensures s != []
  {
    (if n < 10 then [] else Decimal(n / 10)) + ['0' + (n % 10) as char]
  }

  /** The names tried, in order: the base, `base-2`, `base-3`, ... */
  function Candidate(base: string, i: nat): string {
    if i < FIRST_SUFFIX then base else base + "-" + Decimal(i)
  }

  /** The names in use, folded by the database. */
  function Taken(names: set<string>, inSql: Fold): set<string> {
    set n | n in names :: inSql(n)
  }

  /** The test of the loop: the candidate, folded by Python, is not among the folded names. */
  predicate Passes(names: set<string>, inSql: Fold, inPython: Fold, name: string) {
    inPython(name) !in Taken(names, inSql)
  }

  /** The name collides, case-insensitively as the database sees it, with one in use. */
  predicate Collides(names: set<string>, inSql: Fold, name: string) {
    inSql(name) in Taken(names, inSql)
  }

  /** The first number from 1 to 9999 whose candidate for the folded base is not in use. */
  ghost predicate Least(taken: set<string>, folded: string, i: nat) {
    1 <= i <= LAST_SUFFIX && Candidate(folded, i) !in taken && forall j | 1 <= j < i :: Candidate(folded, j) in taken
  }

  /** Case folding leaves a numeric suffix alone and does not depend on it. */
  ghost predicate Suffixable(fold: Fold) {
    forall base, i :: fold(Candidate(base, i)) == Candidate(fold(base), i)
  }

  /** `_unique_actor_name`; `token` is the random suffix of the last resort. For any two foldings that
      respect suffixes it returns the base or the base with the least suffix its test lets through,
      and there is one whenever fewer than 9,999 names are in use. The returned name is free if the
      foldings agree on the base; in general it collides exactly if they differ and the database's
      folding of that very candidate is in use. */
  method UniqueActorName(names: set<string>, base: string, token: string, inSql: Fold, inPython: Fold)
      returns (name: string)
    requires Suffixable(inSql) && Suffixable(inPython)
    ensures (exists i :: Least(Taken(names, inSql), inPython(base), i) && name == Candidate(base, i))
            || (name == base + "-" + token
                && forall i | 1 <= i <= 9999 :: !Passes(names, inSql, inPython, Candidate(base, i)))
    ensures |names| < 9999 ==> exists i ::
        Least(Taken(names, inSql), inPython(base), i) && name == Candidate(base, i)
    ensures |names| < 9999 && inSql(base) == inPython(base) ==> !Collides(names, inSql, name)
    ensures |names| < 9999 ==>
              (Collides(names, inSql, name) <==>
                 inSql(base) != inPython(base)
                 && exists i :: Least(Taken(names, inSql), inPython(base), i)
                     && Candidate(inSql(base), i) in Taken(names, inSql))
  {
    var taken := Taken(names, inSql);
    if |names| < LAST_SUFFIX { Pigeonhole(names, base, inSql, inPython); }
    assert forall i :: inPython(Candidate(base, i)) == Candidate(inPython(base), i);
    if inPython(base) !in taken {
      assert base == Candidate(base, 1);
      CollidesIff(names, base, 1, inSql, inPython);
      return base;
    }
    assert Candidate(inPython(base), 1) in taken;
    for i := FIRST_SUFFIX to LAST_SUFFIX + 1
      invariant forall j | 1 <= j < i :: Candidate(inPython(base), j) in taken
    {
      var candidate := base + "-" + Decimal(i);
      assert candidate == Candidate(base, i);
      if inPython(candidate) !in taken {
        CollidesIff(names, base, i, inSql, inPython);
        return candidate;
      }
    }
    return base + "-" + token;
  }

  lemma LeastUnique(taken: set<string>, folded: string, i: nat, j: nat)
    requires Least(taken, folded, i) && Least(taken, folded, j)
    ensures i == j
  {
  }

  /** When the candidate the loop settles on is in use after all. */
  lemma CollidesIff(names: set<string>, base: string, i: nat, inSql: Fold, inPython: Fold)
    requires Suffixable(inSql) && Suffixable(inPython)
    requires Least(Taken(names, inSql), inPython(base), i)
    ensures Collides(names, inSql, Candidate(base, i)) <==>
              inSql(base) != inPython(base)
              && exists k :: Least(Taken(names, inSql), inPython(base), k)
                  && Candidate(inSql(base), k) in Taken(names, inSql)
  {
    assert inSql(Candidate(base, i)) == Candidate(inSql(base), i);
    forall k | Least(Taken(names, inSql), inPython(base), k) ensures k == i {
      LeastUnique(Taken(names, inSql), inPython(base), i, k);
    }
  }

  /** Whatever the names in use, the candidate the test lets through first is not one of them. */
  ghost predicate AlwaysFree(base: string, inSql: Fold, inPython: Fold) {
    forall names: set<string>, i: nat | Least(Taken(names, inSql), inPython(base), i) ::
      !Collides(names, inSql, Candidate(base, i))
  }

  /** The name found is free for every set of names in use if and only if the two foldings agree on the
      base, which can be checked before any name is looked at; the workspace that has just the base
      itself is where it goes wrong otherwise. */
  lemma AlwaysFreeIffFoldsAgree(base: string, inSql: Fold, inPython: Fold)
    requires Suffixable(inSql) && Suffixable(inPython)
    ensures AlwaysFree(base, inSql, inPython) <==> inSql(base) == inPython(base)
    ensures inSql(base) != inPython(base) ==>
              Least(Taken({base}, inSql), inPython(base), 1) && Collides({base}, inSql, Candidate(base, 1))
  {
    if inSql(base) == inPython(base) {
      forall names: set<string>, i: nat | Least(Taken(names, inSql), inPython(base), i)
        ensures !Collides(names, inSql, Candidate(base, i))
      {
        assert inSql(Candidate(base, i)) == Candidate(inSql(base), i);
      }
    } else {
      assert Taken({base}, inSql) == {inSql(base)};
      assert Candidate(inPython(base), 1) == inPython(base);
    }
  }

  // -------------------------------------------------------------------------
  // Different candidates stay different
  // -------------------------------------------------------------------------

  /** The number that a string of decimal digits stands for. */
  function Value(s: string): int {
    if s == [] then 0 else 10 * Value(s[..|s| - 1]) + (s[|s| - 1] as int - '0' as int)
  }

  ghost predicate Digits(s: string) {
    s != [] && forall i | 0 <= i < |s| :: '0' <= s[i] <= '9'
  }

  /** Suffixes are written with decimal digits, without leading zeros, and stand for their number. */
  lemma {:induction false} DecimalReads(n: nat)
    ensures Digits(Decimal(n)) && Value(Decimal(n)) == n && (n > 0 ==> Decimal(n)[0] != '0')
  {
    var digit := '0' + (n % 10) as char;
    if n >= 10 {
      DecimalReads(n / 10);
      OneMoreDigit(Decimal(n / 10), digit);
    } else {
      assert Decimal(n) == [] + [digit] == [digit];
      assert [digit][..0] == [];
    }
  }

  lemma OneMoreDigit(s: string, digit: char)
    requires Digits(s) && '0' <= digit <= '9'
    ensures Digits(s + [digit]) && (s + [digit])[0] == s[0]
    ensures Value(s + [digit]) == 10 * Value(s) + (digit as int - '0' as int)
  {
    assert (s + [digit])[..|s|] == s;
  }

  /** Decimal notation is injective. */
  lemma DecimalInjective(a: nat, b: nat)
    requires Decimal(a) == Decimal(b)
    ensures a == b
  {
    DecimalReads(a);
    DecimalReads(b);
  }

  /** The first candidate is the base itself; each further one is the base, a hyphen and its number. */
  lemma CandidateReads(base: string, i: nat)
    requires 1 <= i
    ensures i == 1 ==> Candidate(base, i) == base
    ensures i > 1 ==> var name := Candidate(base, i);
                      && |base| < |name| && name[..|base|] == base && name[|base|] == '-'
                      && Digits(name[|base| + 1..]) && Value(name[|base| + 1..]) == i && name[|base| + 1] != '0'
  {
    DecimalReads(i);
    if i > 1 { assert Candidate(base, i)[|base| + 1..] == Decimal(i); }
  }

  /** No two candidates are the same name, whatever the base. */
  lemma CandidatesDiffer(base: string, i: nat, j: nat)
    requires 1 <= i && 1 <= j && Candidate(base, i) == Candidate(base, j)
    ensures i == j
  {
    if i >= FIRST_SUFFIX && j >= FIRST_SUFFIX {
      assert Candidate(base, i)[|base| + 1..] == Decimal(i) && Candidate(base, j)[|base| + 1..] == Decimal(j);
      DecimalInjective(i, j);
    }
  }

  // -------------------------------------------------------------------------
  // Pigeonhole
  // -------------------------------------------------------------------------

  function Tried(base: string, n: nat): set<string> {
    set i | 1 <= i <= n :: Candidate(base, i)
  }

  lemma {:induction false} TriedCount(base: string, n: nat)
    ensures |Tried(base, n)| == n
  {
    if n > 0 {
      TriedCount(base, n - 1);
      var last := Candidate(base, n);
      if last in Tried(base, n - 1) {
        var i :| 1 <= i <= n - 1 && last == Candidate(base, i);
        CandidatesDiffer(base, i, n);
      }
      assert Tried(base, n) == Tried(base, n - 1) + {last};
    } else {
      assert Tried(base, 0) == {};
    }
  }

  lemma {:induction false} TakenCount(names: set<string>, fold: Fold)
    ensures |Taken(names, fold)| <= |names|
    decreases |names|
  {
    if names != {} {
      var n :| n in names;
      TakenCount(names - {n}, fold);
      assert Taken(names, fold) == Taken(names - {n}, fold) + {fold(n)};
    } else {
      assert Taken(names, fold) == {};
    }
  }

  lemma SubsetCount<T>(a: set<T>, b: set<T>)
    requires a <= b
    ensures |a| <= |b|
  {
    assert b == a + (b - a);
  }

  lemma {:induction false} FirstFree(taken: set<string>, folded: string, n: nat) returns (i: nat)
    requires 1 <= n <= LAST_SUFFIX && Candidate(folded, n) !in taken
    ensures Least(taken, folded, i)
  {
    if m :| 1 <= m < n && Candidate(folded, m) !in taken {
      i := FirstFree(taken, folded, m);
    } else {
      i := n;
    }
  }

  /** With fewer than 9,999 names in use, one of the 9,999 candidates passes the test, whatever the
      two foldings are. */
  lemma Pigeonhole(names: set<string>, base: string, inSql: Fold, inPython: Fold)
    requires |names| < LAST_SUFFIX && Suffixable(inPython)
    ensures exists i :: Least(Taken(names, inSql), inPython(base), i)
    ensures exists i | 1 <= i <= LAST_SUFFIX :: Passes(names, inSql, inPython, Candidate(base, i))
  {
    var taken, folded := Taken(names, inSql), inPython(base);
    TriedCount(folded, LAST_SUFFIX);
    TakenCount(names, inSql);
    if Tried(folded, LAST_SUFFIX) <= taken {
      SubsetCount(Tried(folded, LAST_SUFFIX), taken);
    }
    var c :| c in Tried(folded, LAST_SUFFIX) && c !in taken;
    var n :| 1 <= n <= LAST_SUFFIX && c == Candidate(folded, n);
    var i := FirstFree(taken, folded, n);
    assert inPython(Candidate(base, i)) == Candidate(folded, i);
    assert Passes(names, inSql, inPython, Candidate(base, i));
  }

  // -------------------------------------------------------------------------
  // Foldings that work character by character
  // -------------------------------------------------------------------------

  function Each(f: char -> char, s: string): (r: string)
    ensures |r| == |s|
  {
    if s == [] then [] else [f(s[0])] + Each(f, s[1..])
  }

  /** What a case folding does to the characters of a suffix: nothing. */
  ghost predicate KeepsSuffixes(f: char -> char) {
    f('-') == '-' && forall c | '0' <= c <= '9' :: f(c) == c
  }

  lemma {:induction false} EachConcat(f: char -> char, a: string, b: string)
    ensures Each(f, a + b) == Each(f, a) + Each(f, b)
  {
    if a == [] {
      assert a + b == b;
    } else {
      assert (a + b)[0] == a[0] && (a + b)[1..] == a[1..] + b;
      EachConcat(f, a[1..], b);
    }
  }

  lemma {:induction false} EachDecimal(f: char -> char, n: nat)
    requires KeepsSuffixes(f)
    ensures Each(f, Decimal(n)) == Decimal(n)
  {
    var last := ['0' + (n % 10) as char];
    assert last[1..] == [] && Each(f, last) == last;
    if n >= 10 {
      EachDecimal(f, n / 10);
      EachConcat(f, Decimal(n / 10), last);
    } else {
      assert Decimal(n) == last;
    }
  }

  /** Every character-wise folding that keeps digits and the hyphen respects suffixes. */
  lemma EachSuffixable(f: char -> char)
    requires KeepsSuffixes(f)
    ensures Suffixable(s => Each(f, s))
  {
    var fold: Fold := s => Each(f, s);
    forall base: string, i: nat ensures fold(Candidate(base, i)) == Candidate(fold(base), i) {
      if i >= FIRST_SUFFIX {
        assert "-"[1..] == [] && Each(f, "-") == "-";
        EachConcat(f, base + "-", Decimal(i));
        EachConcat(f, base, "-");
        EachDecimal(f, i);
      }
    }
  }

  /** The ASCII letters, and those with the accented capitals of Latin-1. */
  function LowerLatin(c: char): char {
    if 'A' <= c <= 'Z' || ('\U{C0}' <= c <= '\U{DE}' && c != '\U{D7}') then ((c as int) + 32) as char else c
  }

  /** Where the foldings differ the returned name can be one in use: a database that folds ASCII only,
      and the base name itself registered with an accented capital. */
  lemma AccentedNameTwice()
    ensures var inSql: Fold, inPython: Fold := s => Each(Search.LowerChar, s), s => Each(LowerLatin, s);
            var base := "\U{C9}va";
            && Suffixable(inSql) && Suffixable(inPython)
            && Least(Taken({base}, inSql), inPython(base), 1) && Candidate(base, 1) == base
            && Collides({base}, inSql, base)
  {
    EachSuffixable(Search.LowerChar);
    EachSuffixable(LowerLatin);
    var base := "\U{C9}va";
    assert base[1..] == "va" && "va"[1..] == "a" && "a"[1..] == "";
    assert Each(LowerLatin, base)[0] == '\U{E9}' && Each(Search.LowerChar, base)[0] == '\U{C9}';
  }
}
