/** The search fallback: a query is escaped, wrapped in `%` and matched by LIKE. The pattern language
    is the `<like predicate>` of ISO/IEC 9075-2, section 8.5. */
module Search {
  import opened Common
  import opened Rows
  import opened Store

  // -------------------------------------------------------------------------
  // LIKE
  // -------------------------------------------------------------------------

  datatype Token = Any | One | Lit(c: char)

  const ESCAPE := '\\'

  predicate Wildcard(c: char) { c == '%' || c == '_' }

  /** The tokens of a pattern; None when an escape is followed by something it cannot escape. */
  function Parse(pattern: string): Option<seq<Token>> {
    if pattern == [] then Some([])
    else if pattern[0] == ESCAPE then
      if |pattern| < 2 || !(Wildcard(pattern[1]) || pattern[1] == ESCAPE) then None
      else if Parse(pattern[2..]).None? then None
      else Some([Lit(pattern[1])] + Parse(pattern[2..]).value)
    else if Parse(pattern[1..]).None? then None
    else
      var first := if pattern[0] == '%' then Any else if pattern[0] == '_' then One else Lit(pattern[0]);
      Some([first] + Parse(pattern[1..]).value)
  }

  /** `%` stands for any run of characters, `_` for any one. */
  predicate Matches(p: seq<Token>, text: string)
    decreases |p| + |text|
  {
    if p == [] then text == []
    else match p[0]
      case Any => Matches(p[1..], text) || (text != [] && Matches(p, text[1..]))
      case One => text != [] && Matches(p[1..], text[1..])
      case Lit(c) => text != [] && text[0] == c && Matches(p[1..], text[1..])
  }

  /** `lower`, which folds ASCII letters only. */
  function LowerChar(c: char): char {
    if 'A' <= c <= 'Z' then c - 'A' + 'a' else c
  }

  function Lower(s: string): (r: string)
    ensures |r| == |s|
  {
    if s == [] then [] else [LowerChar(s[0])] + Lower(s[1..])
  }

  /** Lowering adds 32 to the codes of the capital letters A to Z and keeps all other characters. */
  lemma {:induction false} Lowered(s: string, i: nat)
    requires i < |s|
    ensures Lower(s)[i] as int == if 65 <= s[i] as int <= 90 then s[i] as int + 32 else s[i] as int
  {
    if i > 0 { Lowered(s[1..], i - 1); }
  }

  /** How a token is written in a pattern. */
  function Written(t: Token): string {
    match t
    case Any => "%"
    case One => "_"
    case Lit(c) => if c in "%_\\" then ['\\', c] else [c]
  }

  function AllWritten(p: seq<Token>): string {
    if p == [] then [] else Written(p[0]) + AllWritten(p[1..])
  }

  lemma FirstReads(t: Token, rest: string)
    requires Parse(rest).Some?
    ensures Parse(Written(t) + rest) == Some([t] + Parse(rest).value)
  {
    var s := Written(t) + rest;
    assert s[|Written(t)|..] == rest;
    assert s[0] == Written(t)[0];
    if |Written(t)| == 2 { assert s[1] == Written(t)[1]; }
  }

  /** Every list of tokens can be written as a pattern, and the pattern is read back as that list. */
  lemma {:induction false} WrittenReads(p: seq<Token>)
    ensures Parse(AllWritten(p)) == Some(p)
  {
    if p != [] {
      WrittenReads(p[1..]);
      FirstReads(p[0], AllWritten(p[1..]));
      assert p == [p[0]] + p[1..];
    }
  }

  /** What a token may stand for. */
  ghost predicate Fits(t: Token, piece: string) {
    match t
    case Any => true
    case One => |piece| == 1
    case Lit(c) => piece == [c]
  }

  function Joined(pieces: seq<string>): string {
    if pieces == [] then [] else pieces[0] + Joined(pieces[1..])
  }

  /** The text is cut into one piece for every token of the pattern. */
  ghost predicate Cut(p: seq<Token>, text: string, pieces: seq<string>) {
    |pieces| == |p| && Joined(pieces) == text && forall i | 0 <= i < |p| :: Fits(p[i], pieces[i])
  }

  /** LIKE as the standard puts it: a text matches if and only if it can be cut to fit the pattern. */
  lemma LikeIsCut(p: seq<Token>, text: string)
    ensures Matches(p, text) <==> exists pieces :: Cut(p, text, pieces)
  {
    if Matches(p, text) {
      var pieces := CutToFit(p, text);
    }
    if pieces :| Cut(p, text, pieces) {
      FitMatches(p, text, pieces);
    }
  }

  lemma {:induction false} CutToFit(p: seq<Token>, text: string) returns (pieces: seq<string>)
    requires Matches(p, text)
    ensures Cut(p, text, pieces)
    decreases |p| + |text|
  {
    pieces := [];
    if p != [] {
      if p[0].Any? && !Matches(p[1..], text) {
        var rest := CutToFit(p, text[1..]);
        pieces := rest[0 := [text[0]] + rest[0]];
        assert pieces[1..] == rest[1..];
        assert Joined(pieces) == [text[0]] + rest[0] + Joined(rest[1..]) == [text[0]] + text[1..];
      } else {
        var n := if p[0].Any? then 0 else 1;
        var rest := CutToFit(p[1..], text[n..]);
        pieces := [text[..n]] + rest;
        assert pieces[1..] == rest && text == text[..n] + text[n..];
      }
    }
  }

  lemma {:induction false} FitMatches(p: seq<Token>, text: string, pieces: seq<string>)
    requires Cut(p, text, pieces)
    ensures Matches(p, text)
    decreases |p| + |text|
  {
    if p != [] {
      var first, rest := pieces[0], pieces[1..];
      assert text == first + Joined(rest);
      assert Fits(p[0], first);
      if p[0].Any? && first != [] {
        var shorter := pieces[0 := first[1..]];
        assert shorter[1..] == rest && text[1..] == first[1..] + Joined(rest);
        FitMatches(p, text[1..], shorter);
      } else {
        assert text[|first|..] == Joined(rest) && text[..|first|] == first;
        FitMatches(p[1..], text[|first|..], rest);
      }
    }
  }

  /** `ilike(pattern, escape="\\")`: lower both sides, then LIKE. */
  predicate ILike(text: string, pattern: string) {
    var p := Parse(Lower(pattern));
    p.Some? && Matches(p.value, Lower(text))
  }

  // -------------------------------------------------------------------------
  // The pattern built from a query
  // -------------------------------------------------------------------------

  /** `str.replace` of a one-character string. */
  function Replace(s: string, c: char, with: string): string {
    if s == [] then [] else (if s[0] == c then with else [s[0]]) + Replace(s[1..], c, with)
  }

  function Escaped(q: string): string {
    Replace(Replace(Replace(q, '\\', "\\\\"), '%', "\\%"), '_', "\\_")
  }

  function PatternOf(q: string): string {
    "%" + Escaped(q) + "%"
  }

  /** One pass, character by character. */
  function EscapeEach(q: string): string {
    if q == [] then []
    else (if Wildcard(q[0]) || q[0] == ESCAPE then [ESCAPE, q[0]] else [q[0]]) + EscapeEach(q[1..])
  }

  lemma {:induction false} ReplaceConcat(a: string, b: string, c: char, with: string)
    ensures Replace(a + b, c, with) == Replace(a, c, with) + Replace(b, c, with)
  {
    if a == [] {
      assert a + b == b;
    } else {
      assert (a + b)[0] == a[0] && (a + b)[1..] == a[1..] + b;
      ReplaceConcat(a[1..], b, c, with);
      Assoc(if a[0] == c then with else [a[0]], Replace(a[1..], c, with), Replace(b, c, with));
    }
  }

  lemma ReplaceShort(x: char, y: char, c: char, with: string)
    ensures Replace([x], c, with) == if x == c then with else [x]
    ensures Replace([x, y], c, with) == (if x == c then with else [x]) + if y == c then with else [y]
  {
    assert [x][1..] == [] && [x, y][1..] == [y];
    assert Replace([x], c, with) == (if x == c then with else [x]) + [];
    assert Replace([y], c, with) == (if y == c then with else [y]) + [];
  }

  /** Three successive replaces are one pass: escaping the backslash first never escapes twice. */
  lemma {:induction false} EscapedIsEach(q: string)
    ensures Escaped(q) == EscapeEach(q)
  {
    if q != [] {
      var c := q[0];
      EscapedIsEach(q[1..]);
      var s1 := if c == '\\' then "\\\\" else [c];
      var r1 := Replace(q[1..], '\\', "\\\\");
      ReplaceConcat(s1, r1, '%', "\\%");
      var s2, r2 := Replace(s1, '%', "\\%"), Replace(r1, '%', "\\%");
      ReplaceConcat(s2, r2, '_', "\\_");
      ReplaceShort(c, c, '%', "\\%");
      ReplaceShort('\\', '\\', '%', "\\%");
      ReplaceShort(c, c, '_', "\\_");
      ReplaceShort('\\', c, '_', "\\_");
      ReplaceShort('\\', '%', '_', "\\_");
      ReplaceShort('\\', '\\', '_', "\\_");
    }
  }

  lemma PercentReads()
    ensures Parse("%") == Some([Any])
  {
    assert "%"[1..] == "";
    assert Parse("%") == Some([Any] + []);
    assert [Any] + [] == [Any];
  }

  /** The other order would: a query of one percent sign would match every text holding a backslash. */
  lemma WrongOrderDoubleEscapes()
    ensures Replace(Replace("%", '%', "\\%"), '\\', "\\\\") == "\\\\%"
    ensures Parse("\\\\%") == Some([Lit('\\'), Any])
  {
    ReplaceShort('%', '%', '%', "\\%");
    ReplaceShort('\\', '%', '\\', "\\\\");
    PercentReads();
    assert "\\\\" + "%" == "\\\\%" && "\\\\%"[2..] == "%";
    assert [Lit('\\')] + [Any] == [Lit('\\'), Any];
  }

  function Literally(s: string): seq<Token> {
    if s == [] then [] else [Lit(s[0])] + Literally(s[1..])
  }

  lemma {:induction false} LowerConcat(a: string, b: string)
    ensures Lower(a + b) == Lower(a) + Lower(b)
  {
    if a == [] {
      assert a + b == b;
    } else {
      assert (a + b)[0] == a[0] && (a + b)[1..] == a[1..] + b;
      LowerConcat(a[1..], b);
    }
  }

  lemma {:induction false} LowerAt(s: string, i: nat)
    requires i < |s|
    ensures Lower(s)[i] == LowerChar(s[i])
  {
    if i > 0 { LowerAt(s[1..], i - 1); }
  }

  /** Lowering an escaped string is escaping the lowered string, and it reads as that string literally. */
  lemma {:induction false} EscapeParses(q: string, rest: string)
    ensures Parse(Lower(EscapeEach(q)) + rest)
            == if Parse(rest).None? then None else Some(Literally(Lower(q)) + Parse(rest).value)
  {
    var lowered := Lower(EscapeEach(q)) + rest;
    if q == [] {
      assert lowered == rest;
      if Parse(rest).Some? { assert Literally(Lower(q)) + Parse(rest).value == Parse(rest).value; }
    } else {
      var first := if Wildcard(q[0]) || q[0] == ESCAPE then [ESCAPE, q[0]] else [q[0]];
      LowerConcat(first, EscapeEach(q[1..]));
      LowerFirst(q[0], first);
      EscapeParses(q[1..], rest);
      assert lowered[|first|..] == Lower(EscapeEach(q[1..])) + rest;
      assert lowered[..|first|] == Lower(first);
      assert lowered[0] == Lower(first)[0];
      if |first| == 2 { assert lowered[1] == Lower(first)[1]; }
      assert Lower(q)[0] == LowerChar(q[0]) && Lower(q)[1..] == Lower(q[1..]);
      if Parse(rest).Some? { Assoc([Lit(LowerChar(q[0]))], Literally(Lower(q[1..])), Parse(rest).value); }
    }
  }

  lemma LowerFirst(c: char, first: string)
    requires first == [ESCAPE, c] || first == [c]
    ensures first == [c] ==> Lower(first) == [LowerChar(c)]
    ensures first == [ESCAPE, c] ==> Lower(first) == [ESCAPE, LowerChar(c)]
    ensures Wildcard(LowerChar(c)) <==> Wildcard(c)
    ensures LowerChar(c) == ESCAPE <==> c == ESCAPE
  {
    forall i | 0 <= i < |first| ensures Lower(first)[i] == LowerChar(first[i]) { LowerAt(first, i); }
  }

  /** For every query the pattern is well formed, and it is the lowered query between two `%`. */
  lemma PatternReads(q: string)
    ensures Parse(Lower(PatternOf(q))) == Some([Any] + (Literally(Lower(q)) + [Any]))
  {
    EscapedIsEach(q);
    var inner := EscapeEach(q) + "%";
    LowerConcat("%", inner);
    LowerConcat(EscapeEach(q), "%");
    LowerFirst('%', "%");
    assert PatternOf(q) == "%" + inner;
    assert Lower("%") == "%" by { LowerAt("%", 0); }
    PercentReads();
    EscapeParses(q, "%");
    var p := Lower(PatternOf(q));
    assert p[0] == '%' && p[1..] == Lower(EscapeEach(q)) + "%";
  }

  // -------------------------------------------------------------------------
  // Matching is substring search
  // -------------------------------------------------------------------------

  predicate OccursAt(text: string, q: string, i: nat) {
    i + |q| <= |text| && text[i..i + |q|] == q
  }

  ghost predicate Contains(text: string, q: string) {
    exists i: nat :: OccursAt(text, q, i)
  }

  lemma {:induction false} AnyMatches(text: string)
    ensures Matches([Any], text)
    decreases |text|
  {
    assert [Any][1..] == [];
    if text != [] { AnyMatches(text[1..]); }
  }

  lemma {:induction false} LiteralMatches(l: string, text: string)
    ensures Matches(Literally(l) + [Any], text) <==> |l| <= |text| && text[..|l|] == l
    decreases |l|
  {
    var p := Literally(l) + [Any];
    if l == [] {
      assert p == [Any];
      AnyMatches(text);
    } else {
      assert p[0] == Lit(l[0]) && p[1..] == Literally(l[1..]) + [Any];
      if text != [] {
        LiteralMatches(l[1..], text[1..]);
        if |l| <= |text| { PrefixOfTail(l, text); }
      }
    }
  }

  lemma PrefixOfTail(l: string, text: string)
    requires 0 < |l| <= |text|
    ensures text[..|l|] == l <==> text[0] == l[0] && text[1..][..|l| - 1] == l[1..]
  {
    if text[0] == l[0] && text[1..][..|l| - 1] == l[1..] {
      assert text[..|l|] == [text[0]] + text[1..][..|l| - 1];
    }
    if text[..|l|] == l {
      assert text[1..][..|l| - 1] == text[..|l|][1..];
      assert text[0] == text[..|l|][0];
    }
  }

  lemma {:induction false} WrappedMatches(l: string, text: string)
    ensures Matches([Any] + (Literally(l) + [Any]), text) <==> Contains(text, l)
    decreases |text|
  {
    var p := Literally(l) + [Any];
    var all := [Any] + p;
    assert all[1..] == p;
    LiteralMatches(l, text);
    if text != [] {
      WrappedMatches(l, text[1..]);
      ContainsTail(l, text);
    } else {
      assert OccursAt(text, l, 0) <==> l == [];
    }
  }

  lemma ContainsTail(l: string, text: string)
    requires text != []
    ensures Contains(text, l) <==> (|l| <= |text| && text[..|l|] == l) || Contains(text[1..], l)
  {
    assert OccursAt(text, l, 0) <==> |l| <= |text| && text[..|l|] == l;
    if Contains(text, l) {
      var i: nat :| OccursAt(text, l, i);
      if i > 0 {
        assert text[1..][i - 1..i - 1 + |l|] == text[i..i + |l|];
        assert OccursAt(text[1..], l, i - 1);
      }
    }
    if Contains(text[1..], l) {
      var i: nat :| OccursAt(text[1..], l, i);
      assert text[i + 1..i + 1 + |l|] == text[1..][i..i + |l|];
      assert OccursAt(text, l, i + 1);
    }
  }

  /** For every query and text, the search matches if and only if the lowered query occurs in the
      lowered text: no character of a query acts as a wildcard. */
  lemma SearchIsSubstring(q: string, text: string)
    ensures ILike(text, PatternOf(q)) <==> Contains(Lower(text), Lower(q))
  {
    PatternReads(q);
    WrappedMatches(Lower(q), Lower(text));
  }

  // -------------------------------------------------------------------------
  // The rows found
  // -------------------------------------------------------------------------

  predicate DecisionFound(d: Decision, q: string) {
    || ILike(d.body.core.title, PatternOf(q))
    || (d.body.core.reason.Some? && ILike(d.body.core.reason.value, PatternOf(q)))
  }

  predicate TaskFound(t: Task, q: string) { ILike(t.body.title, PatternOf(q)) }

  /** The rows of a scan that satisfy the WHERE clause, up to the limit. */
  function Scan<R>(rows: seq<R>, where: R -> bool, limit: nat): seq<R> {
    if rows == [] || limit == 0 then []
    else if where(rows[0]) then [rows[0]] + Scan(rows[1..], where, limit - 1)
    else Scan(rows[1..], where, limit)
  }

  function FoundDecisions(rows: seq<Decision>, q: string, limit: nat): seq<Decision> {
    Scan(rows, d => DecisionFound(d, q), limit)
  }

  function FoundTasks(rows: seq<Task>, q: string, limit: nat): seq<Task> {
    Scan(rows, t => TaskFound(t, q), limit)
  }

  /** The rows `found` are those at these places of the scan, in order, and all are wanted. */
  ghost predicate Places<R>(rows: seq<R>, wanted: R -> bool, found: seq<R>, at: seq<nat>) {
    && |found| == |at|
    && (forall i | 0 <= i < |at| :: at[i] < |rows| && found[i] == rows[at[i]] && wanted(rows[at[i]]))
    && (forall i, j | 0 <= i < j < |at| :: at[i] < at[j])
  }

  /** No wanted row was passed over: one at another place comes after `limit` rows that were taken. */
  ghost predicate NonePassed<R>(rows: seq<R>, wanted: R -> bool, limit: nat, at: seq<nat>) {
    forall k | 0 <= k < |rows| && wanted(rows[k]) && k !in at ::
      |at| == limit && forall i | 0 <= i < |at| :: at[i] < k
  }

  /** The rows found are the first `limit` that are wanted. */
  ghost predicate TakesFirst<R>(rows: seq<R>, wanted: R -> bool, limit: nat, found: seq<R>, at: seq<nat>) {
    |found| <= limit && Places(rows, wanted, found, at) && NonePassed(rows, wanted, limit, at)
  }

  lemma {:induction false} ScanTakesFirst<R>(rows: seq<R>, where: R -> bool, limit: nat) returns (at: seq<nat>)
    ensures TakesFirst(rows, where, limit, Scan(rows, where, limit), at)
    decreases |rows|
  {
    at := [];
    if rows != [] && limit > 0 {
      if where(rows[0]) {
        var rest := ScanTakesFirst(rows[1..], where, limit - 1);
        at := [0] + Later(rest);
        HeadTaken(rows, where, Scan(rows[1..], where, limit - 1), rest);
        HeadCounted(rows, where, limit, rest);
      } else {
        var rest := ScanTakesFirst(rows[1..], where, limit);
        at := Later(rest);
        HeadSkipped(rows, where, Scan(rows[1..], where, limit), rest);
        HeadUncounted(rows, where, limit, rest);
      }
    }
  }

  /** The same places, one row further on. */
  function Later(at: seq<nat>): (r: seq<nat>)
    ensures |r| == |at| && forall i | 0 <= i < |at| :: r[i] == at[i] + 1
  {
    seq(|at|, i requires 0 <= i < |at| => at[i] + 1)
  }

  lemma HeadSkipped<R>(rows: seq<R>, wanted: R -> bool, found: seq<R>, rest: seq<nat>)
    requires rows != [] && Places(rows[1..], wanted, found, rest)
    ensures Places(rows, wanted, found, Later(rest))
  {
    var at := Later(rest);
    forall i | 0 <= i < |at| ensures at[i] < |rows| && found[i] == rows[at[i]] && wanted(rows[at[i]]) {
      assert rows[1..][rest[i]] == rows[at[i]];
    }
  }

  lemma HeadTaken<R>(rows: seq<R>, wanted: R -> bool, found: seq<R>, rest: seq<nat>)
    requires rows != [] && wanted(rows[0]) && Places(rows[1..], wanted, found, rest)
    ensures Places(rows, wanted, [rows[0]] + found, [0] + Later(rest))
  {
    HeadSkipped(rows, wanted, found, rest);
    var later, at := Later(rest), [0] + Later(rest);
    forall i | 0 <= i < |at|
      ensures at[i] < |rows| && ([rows[0]] + found)[i] == rows[at[i]] && wanted(rows[at[i]])
    {
      if i > 0 { assert at[i] == later[i - 1] && ([rows[0]] + found)[i] == found[i - 1]; }
    }
    forall i, j | 0 <= i < j < |at| ensures at[i] < at[j] {
      assert at[j] == later[j - 1];
      if i > 0 { assert at[i] == later[i - 1]; }
    }
  }

  lemma HeadUncounted<R>(rows: seq<R>, wanted: R -> bool, limit: nat, rest: seq<nat>)
    requires rows != [] && !wanted(rows[0]) && NonePassed(rows[1..], wanted, limit, rest)
    ensures NonePassed(rows, wanted, limit, Later(rest))
  {
    var at := Later(rest);
    forall k | 0 <= k < |rows| && wanted(rows[k]) && k !in at
      ensures |at| == limit && forall i | 0 <= i < |at| :: at[i] < k
    {
      NotLater(rest, k);
      assert rows[1..][k - 1] == rows[k];
    }
  }

  lemma HeadCounted<R>(rows: seq<R>, wanted: R -> bool, limit: nat, rest: seq<nat>)
    requires rows != [] && limit > 0 && NonePassed(rows[1..], wanted, limit - 1, rest)
    ensures NonePassed(rows, wanted, limit, [0] + Later(rest))
  {
    var later, at := Later(rest), [0] + Later(rest);
    forall k | 0 <= k < |rows| && wanted(rows[k]) && k !in at
      ensures |at| == limit && forall i | 0 <= i < |at| :: at[i] < k
    {
      assert k != at[0] && k !in later;
      NotLater(rest, k);
      assert rows[1..][k - 1] == rows[k];
      forall i | 0 <= i < |at| ensures at[i] < k {
        if i > 0 { assert at[i] == later[i - 1] && rest[i - 1] < k - 1; }
      }
    }
  }

  lemma NotLater(rest: seq<nat>, k: nat)
    ensures k !in Later(rest) ==> k - 1 !in rest
  {
    forall i | 0 <= i < |rest| ensures k !in Later(rest) ==> rest[i] != k - 1 {
      assert Later(rest)[i] == rest[i] + 1;
    }
  }

  ghost predicate Mentions(d: Decision, q: string) {
    || Contains(Lower(d.body.core.title), Lower(q))
    || (d.body.core.reason.Some? && Contains(Lower(d.body.core.reason.value), Lower(q)))
  }

  ghost predicate TaskMentions(t: Task, q: string) { Contains(Lower(t.body.title), Lower(q)) }

  lemma FoundMentions(d: Decision, q: string)
    ensures DecisionFound(d, q) <==> Mentions(d, q)
  {
    SearchIsSubstring(q, d.body.core.title);
    if d.body.core.reason.Some? { SearchIsSubstring(q, d.body.core.reason.value); }
  }

  /** What a search returns: of a scan of the decisions the first `limit` whose title or reason mentions the
      query, of a scan of the tasks the first `limit` whose title does. */
  lemma SearchResults(decisions: seq<Decision>, tasks: seq<Task>, q: string, limit: nat)
    returns (ds: seq<nat>, ts: seq<nat>)
    ensures TakesFirst(decisions, d => Mentions(d, q), limit, FoundDecisions(decisions, q, limit), ds)
    ensures TakesFirst(tasks, t => TaskMentions(t, q), limit, FoundTasks(tasks, q, limit), ts)
  {
    hide Mentions, DecisionFound, TaskFound, TaskMentions;
    forall d: Decision ensures DecisionFound(d, q) <==> Mentions(d, q) { FoundMentions(d, q); }
    forall t: Task ensures TaskFound(t, q) <==> TaskMentions(t, q) { TaskFoundMentions(t, q); }
    ds := ScanTakesFirst(decisions, d => DecisionFound(d, q), limit);
    ts := ScanTakesFirst(tasks, t => TaskFound(t, q), limit);
  }

  lemma TaskFoundMentions(t: Task, q: string)
    ensures TaskFound(t, q) <==> TaskMentions(t, q)
  {
    SearchIsSubstring(q, t.body.title);
  }
}
