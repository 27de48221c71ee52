/** The watcher's search for the most recently modified file: an explicit stack over a directory tree. */
module NewestFile {
  import opened Common

  /** How listing a directory ends, after the entries read so far: normally, with a permission or
      not-a-directory error, which is skipped, or with another error, which escapes. */
  datatype End = Clean | Denied | Broken

  /** A file whose `stat` fails has no mtime; Unclear is an entry whose `is_dir` fails. */
  datatype Node = Dir(entries: seq<Entry>, end: End) | File(mtime: Option<real>) | Unclear

  datatype Entry = Entry(name: string, node: Node)

  datatype Found = Found(path: seq<string>, mtime: real)

  const IGNORED_DIRS := {".git", "node_modules", ".venv", "venv", "__pycache__", ".idea", ".vscode", ".ruff_cache",
                         ".pytest_cache", ".mypy_cache", "dist", "build", ".vite"}
  const IGNORED_FILES := {"dump.rdb", ".DS_Store"}

  predicate Ignored(name: string) {
    name in IGNORED_DIRS || name in IGNORED_FILES || (name != "" && name[0] == '.')
  }

  // -------------------------------------------------------------------------
  // What is to be found
  // -------------------------------------------------------------------------

  /** The files to consider under a directory at `path`, in the order in which they are visited: its own,
      as listed, and then those below, the directory listed last first. A node that is no directory has none. */
  function Files(n: Node, path: seq<string>): seq<Found>
    decreases n
  {
    if n.Dir? then Here(n.entries, path) + Below(n.entries, path) else []
  }

  function Here(es: seq<Entry>, path: seq<string>): seq<Found> {
    if es == [] then [] else FileAt(es[0], path) + Here(es[1..], path)
  }

  function FileAt(e: Entry, path: seq<string>): seq<Found> {
    if Ignored(e.name) then []
    else match e.node
      case File(Some(m)) => [Found(path + [e.name], m)]
      case _ => []
  }

  function Below(es: seq<Entry>, path: seq<string>): seq<Found>
    decreases es
  {
    if es == [] then [] else Below(es[1..], path) + FilesUnder(es[0], path)
  }

  function FilesUnder(e: Entry, path: seq<string>): seq<Found>
    decreases e
  {
    if Ignored(e.name) then [] else Files(e.node, path + [e.name])
  }

  /** Listing some directory below, itself included, fails in a way that is not skipped. */
  predicate Breaks(n: Node)
    decreases n
  {
    n.Dir? && (n.end == Broken || BreaksAmong(n.entries))
  }

  predicate BreaksAmong(es: seq<Entry>)
    decreases es
  {
    es != [] && ((!Ignored(es[0].name) && Breaks(es[0].node)) || BreaksAmong(es[1..]))
  }

  function Size(n: Node): nat
    decreases n
  {
    1 + if n.Dir? then SizeAmong(n.entries) else 0
  }

  function SizeAmong(es: seq<Entry>): nat
    decreases es
  {
    if es == [] then 0 else Size(es[0].node) + SizeAmong(es[1..])
  }

  // -------------------------------------------------------------------------
  // The independent reading
  // -------------------------------------------------------------------------

  /** The entry is not hidden and not one of the caches, build results and data files left out by name. */
  ghost predicate Shown(name: string) {
    && (name != "" ==> name[0] != '.')
    && name !in ["node_modules", "venv", "__pycache__", "dist", "build", "dump.rdb"]
  }

  ghost predicate ShownPath(path: seq<string>) { forall c | c in path :: Shown(c) }

  /** The names on the path lead from the directory down to this node. */
  ghost predicate Leads(n: Node, path: seq<string>, to: Node)
    decreases |path|
  {
    n.Dir? && path != [] && exists e | e in n.entries :: LeadsBy(e, path, to)
  }

  ghost predicate LeadsBy(e: Entry, path: seq<string>, to: Node)
    requires path != []
    decreases |path|, 0
  {
    e.name == path[0] && if |path| == 1 then e.node == to else Leads(e.node, path[1..], to)
  }

  lemma ShownIffNotIgnored(name: string)
    ensures Shown(name) <==> !Ignored(name)
  {
    forall dir | dir in [".git", ".venv", ".idea", ".vscode", ".ruff_cache", ".pytest_cache", ".mypy_cache", ".vite"]
      ensures dir[0] == '.'
    {
    }
    assert ".DS_Store"[0] == '.';
  }

  // -------------------------------------------------------------------------
  // The traversal
  // -------------------------------------------------------------------------

  datatype Opened = Opened(node: Node, path: seq<string>)

  /** The files still to be visited: the directory on top of the stack comes first. */
  function Pending(stack: seq<Opened>): seq<Found> {
    if stack == [] then []
    else Files(stack[|stack| - 1].node, stack[|stack| - 1].path) + Pending(stack[..|stack| - 1])
  }

  predicate BreaksPending(stack: seq<Opened>) {
    stack != [] && (BreaksPending(stack[..|stack| - 1]) || Breaks(stack[|stack| - 1].node))
  }

  function SizePending(stack: seq<Opened>): nat {
    if stack == [] then 0 else SizePending(stack[..|stack| - 1]) + Size(stack[|stack| - 1].node)
  }

  /** The first file of a visit order that no later one is newer than: `mtime > best.mtime` is strict. */
  function Newer(best: Option<Found>, f: Found): Option<Found> {
    if best.None? || f.mtime > best.value.mtime then Some(f) else best
  }

  function Best(visited: seq<Found>): Option<Found> {
    if visited == [] then None else Newer(Best(visited[..|visited| - 1]), visited[|visited| - 1])
  }

  /** Newer than all before it and as new as all after it. */
  ghost predicate First(files: seq<Found>, k: nat) {
    && k < |files|
    && (forall j | 0 <= j < k :: files[j].mtime < files[k].mtime)
    && (forall j | k <= j < |files| :: files[j].mtime <= files[k].mtime)
  }

  ghost predicate FirstNewest(files: seq<Found>, best: Option<Found>) {
    if best.None? then files == [] else exists k: nat | First(files, k) :: best == Some(files[k])
  }

  lemma BestIsFirstNewest(visited: seq<Found>)
    ensures FirstNewest(visited, Best(visited))
  {
    if visited != [] {
      var k := BestAt(visited);
    }
  }

  lemma {:induction false} BestAt(visited: seq<Found>) returns (k: nat)
    requires visited != []
    ensures First(visited, k) && Best(visited) == Some(visited[k])
  {
    var n := |visited| - 1;
    k := n;
    if n > 0 {
      var k' := BestAt(visited[..n]);
      if visited[n].mtime <= visited[k'].mtime { k := k'; }
    }
  }

  /** One directory entry: ignored, pushed, or compared with the best of the files visited so far. */
  method Visit(entry: Entry, path: seq<string>, stack: seq<Opened>, best: Option<Found>, ghost visited: seq<Found>)
    returns (stack': seq<Opened>, best': Option<Found>)
    requires best == Best(visited)
    ensures best' == Best(visited + FileAt(entry, path))
    ensures Pending(stack') == FilesUnder(entry, path) + Pending(stack)
    ensures BreaksPending(stack') <==> BreaksPending(stack) || (!Ignored(entry.name) && Breaks(entry.node))
    ensures SizePending(stack') <= SizePending(stack) + Size(entry.node)
  {
    hide Pending, BreaksPending, SizePending, Best, Files, Ignored;
    stack', best' := stack, best;
    assert visited + [] == visited;
    NoDirectory(entry, path, stack);
    if Ignored(entry.name) {
      return;
    }
    match entry.node
    case Dir(_, _) =>
      Pushed(stack, Opened(entry.node, path + [entry.name]));
      stack' := stack + [Opened(entry.node, path + [entry.name])];
    case File(Some(mtime)) =>
      var found := Found(path + [entry.name], mtime);
      if best.None? || mtime > best.value.mtime {
        best' := Some(found);
      }
      Visited(visited, found);
    case _ =>
  }

  lemma NoDirectory(entry: Entry, path: seq<string>, stack: seq<Opened>)
    ensures Ignored(entry.name) || !entry.node.Dir? ==> FilesUnder(entry, path) + Pending(stack) == Pending(stack)
  {
    assert [] + Pending(stack) == Pending(stack);
  }

  /** The scan of one directory, entry by entry. */
  method Scan(entries: seq<Entry>, path: seq<string>, stack: seq<Opened>, best: Option<Found>,
      ghost visited: seq<Found>)
    returns (stack': seq<Opened>, best': Option<Found>)
    requires best == Best(visited)
    ensures best' == Best(visited + Here(entries, path))
    ensures Pending(stack') == Below(entries, path) + Pending(stack)
    ensures BreaksPending(stack') <==> BreaksPending(stack) || BreaksAmong(entries)
    ensures SizePending(stack') <= SizePending(stack) + SizeAmong(entries)
  {
    hide *;
    stack', best' := stack, best;
    var i := 0;
    ghost var seen := visited;
    assert entries[0..] == entries;
    while i < |entries|
      invariant 0 <= i <= |entries| && best' == Best(seen)
      invariant seen + Here(entries[i..], path) == visited + Here(entries, path)
      invariant Below(entries[i..], path) + Pending(stack') == Below(entries, path) + Pending(stack)
      invariant BreaksPending(stack') || BreaksAmong(entries[i..]) <==> BreaksPending(stack) || BreaksAmong(entries)
      invariant SizePending(stack') + SizeAmong(entries[i..]) <= SizePending(stack) + SizeAmong(entries)
    {
      EntryOf(entries, i, path);
      Assoc(seen, FileAt(entries[i], path), Here(entries[i + 1..], path));
      Assoc(Below(entries[i + 1..], path), FilesUnder(entries[i], path), Pending(stack'));
      stack', best' := Visit(entries[i], path, stack', best', seen);
      seen := seen + FileAt(entries[i], path);
      i := i + 1;
    }
    NoEntries(entries[i..], path);
    assert seen + [] == seen && [] + Pending(stack') == Pending(stack');
  }

  lemma EntryOf(entries: seq<Entry>, i: nat, path: seq<string>)
    requires i < |entries|
    ensures Here(entries[i..], path) == FileAt(entries[i], path) + Here(entries[i + 1..], path)
    ensures Below(entries[i..], path) == Below(entries[i + 1..], path) + FilesUnder(entries[i], path)
    ensures BreaksAmong(entries[i..])
        <==> (!Ignored(entries[i].name) && Breaks(entries[i].node)) || BreaksAmong(entries[i + 1..])
    ensures SizeAmong(entries[i..]) == Size(entries[i].node) + SizeAmong(entries[i + 1..])
  {
    assert entries[i..][1..] == entries[i + 1..];
  }

  lemma NoEntries(entries: seq<Entry>, path: seq<string>)
    requires entries == []
    ensures Here(entries, path) == Below(entries, path) == [] && !BreaksAmong(entries) && SizeAmong(entries) == 0
  {
  }

  lemma Pushed(stack: seq<Opened>, o: Opened)
    ensures Pending(stack + [o]) == Files(o.node, o.path) + Pending(stack)
    ensures BreaksPending(stack + [o]) <==> BreaksPending(stack) || Breaks(o.node)
    ensures SizePending(stack + [o]) == SizePending(stack) + Size(o.node)
  {
    assert (stack + [o])[..|stack|] == stack;
  }

  lemma Popped(visited: seq<Found>, stack: seq<Opened>)
    requires stack != []
    ensures var top, rest := stack[|stack| - 1], stack[..|stack| - 1];
            if top.node.Dir? then
              && visited + Pending(stack)
                 == visited + Here(top.node.entries, top.path) + (Below(top.node.entries, top.path) + Pending(rest))
              && (BreaksPending(stack)
                  <==> top.node.end == Broken || BreaksPending(rest) || BreaksAmong(top.node.entries))
              && SizePending(stack) > SizePending(rest) + SizeAmong(top.node.entries)
            else
              && visited + Pending(stack) == visited + Pending(rest)
              && (BreaksPending(stack) <==> BreaksPending(rest)) && SizePending(stack) > SizePending(rest)
  {
    var top, rest := stack[|stack| - 1], stack[..|stack| - 1];
    if top.node.Dir? {
      var here, below := Here(top.node.entries, top.path), Below(top.node.entries, top.path);
      Assoc(here, below, Pending(rest));
      Assoc(visited, here, below + Pending(rest));
    } else {
      assert [] + Pending(rest) == Pending(rest);
    }
  }

  lemma Visited(visited: seq<Found>, f: Found)
    ensures Best(visited + [f]) == Newer(Best(visited), f)
  {
    assert (visited + [f])[..|visited|] == visited;
  }

  /** `newest_file`: it always terminates; unless a listing breaks it visits exactly the files to
      consider, in that order, and returns the first of them with the greatest mtime, or None if there is none. */
  method NewestFile(root: Node) returns (best: Option<Found>, crashed: bool)
    ensures crashed <==> Breaks(root)
    ensures !crashed ==> FirstNewest(Files(root, []), best)
  {
    hide Files, Below, Here, Breaks, BreaksAmong, Size, SizeAmong, Pending, BreaksPending, SizePending, Best,
         FirstNewest;
    best, crashed := None, false;
    var stack := [Opened(root, [])];
    ghost var visited: seq<Found> := [];
    NothingPending();
    Pushed([], Opened(root, []));
    assert [] + [Opened(root, [])] == stack;
    while stack != []
      invariant best == Best(visited)
      invariant visited + Pending(stack) == Files(root, [])
      invariant BreaksPending(stack) <==> Breaks(root)
      decreases SizePending(stack)
    {
      var top := stack[|stack| - 1];
      Popped(visited, stack);
      stack := stack[..|stack| - 1];
      if top.node.Dir? {
        stack, best := Scan(top.node.entries, top.path, stack, best, visited);
        visited := visited + Here(top.node.entries, top.path);
        if top.node.end.Broken? {
          crashed := true;
          return;
        }
      }
    }
    NothingPending();
    assert visited + [] == visited;
    BestIsFirstNewest(visited);
  }

  lemma NothingPending()
    ensures Pending([]) == [] && !BreaksPending([]) && SizePending([]) == 0 && Best([]) == None
  {
  }

  // -------------------------------------------------------------------------
  // The files to consider are the reachable ones
  // -------------------------------------------------------------------------

  /** A file is to be considered if and only if a path of names that are all shown leads to it. */
  lemma {:induction false} FilesAreReachable(n: Node, path: seq<string>, rest: seq<string>, m: real)
    ensures Found(path + rest, m) in Files(n, path) <==> ShownPath(rest) && Leads(n, rest, File(Some(m)))
    decreases n, 2
  {
    if n.Dir? {
      HereIsReachable(n.entries, path, rest, m);
      BelowIsReachable(n.entries, path, rest, m);
    }
  }

  lemma {:induction false} HereIsReachable(es: seq<Entry>, path: seq<string>, rest: seq<string>, m: real)
    ensures Found(path + rest, m) in Here(es, path)
            <==> |rest| == 1 && Shown(rest[0]) && exists e | e in es :: LeadsBy(e, rest, File(Some(m)))
  {
    if es != [] {
      FileIsReachable(es[0], path, rest, m);
      HereIsReachable(es[1..], path, rest, m);
    }
  }

  lemma FileIsReachable(e: Entry, path: seq<string>, rest: seq<string>, m: real)
    ensures Found(path + rest, m) in FileAt(e, path)
            <==> |rest| == 1 && Shown(rest[0]) && LeadsBy(e, rest, File(Some(m)))
  {
    ShownIffNotIgnored(e.name);
    if path + rest == path + [e.name] {
      assert rest == (path + rest)[|path|..] == [e.name];
    }
    assert |rest| == 1 && rest[0] == e.name ==> rest == [e.name];
  }

  lemma {:induction false} BelowIsReachable(es: seq<Entry>, path: seq<string>, rest: seq<string>, m: real)
    ensures Found(path + rest, m) in Below(es, path)
            <==> |rest| > 1 && ShownPath(rest) && exists e | e in es :: LeadsBy(e, rest, File(Some(m)))
    decreases es
  {
    if es != [] {
      UnderIsReachable(es[0], path, rest, m);
      BelowIsReachable(es[1..], path, rest, m);
    }
  }

  lemma {:induction false} UnderIsReachable(e: Entry, path: seq<string>, rest: seq<string>, m: real)
    ensures Found(path + rest, m) in FilesUnder(e, path)
            <==> |rest| > 1 && ShownPath(rest) && LeadsBy(e, rest, File(Some(m)))
    decreases e
  {
    var f, below := Found(path + rest, m), path + [e.name];
    ShownIffNotIgnored(e.name);
    if Shown(e.name) {
      if f in Files(e.node, below) {
        FilesLieBelow(e.node, below, f);
        FirstName(path, rest, e.name);
      }
      if rest != [] && rest[0] == e.name {
        FilesAreReachable(e.node, below, rest[1..], m);
        assert path + rest == below + rest[1..];
        assert rest == [rest[0]] + rest[1..];
      }
    }
  }

  lemma FirstName(path: seq<string>, rest: seq<string>, name: string)
    requires |path| + 1 <= |path + rest| && (path + rest)[..|path| + 1] == path + [name]
    ensures rest != [] && rest[0] == name
  {
    assert (path + rest)[|path|] == (path + [name])[|path|];
  }

  /** The files under a directory have longer paths that start with the directory's. */
  lemma {:induction false} FilesLieBelow(n: Node, path: seq<string>, f: Found)
    requires f in Files(n, path)
    ensures |path| < |f.path| && f.path[..|path|] == path
    decreases n
  {
    if f in Here(n.entries, path) { HereLiesBelow(n.entries, path, f); } else { AmongLiesBelow(n.entries, path, f); }
  }

  lemma {:induction false} HereLiesBelow(es: seq<Entry>, path: seq<string>, f: Found)
    requires f in Here(es, path)
    ensures |path| < |f.path| && f.path[..|path|] == path
  {
    if f !in FileAt(es[0], path) { HereLiesBelow(es[1..], path, f); }
  }

  lemma {:induction false} AmongLiesBelow(es: seq<Entry>, path: seq<string>, f: Found)
    requires f in Below(es, path)
    ensures |path| < |f.path| && f.path[..|path|] == path
    decreases es
  {
    if f in FilesUnder(es[0], path) {
      var below := path + [es[0].name];
      FilesLieBelow(es[0].node, below, f);
      assert f.path[..|path|] == f.path[..|below|][..|path|];
    } else {
      AmongLiesBelow(es[1..], path, f);
    }
  }

  // -------------------------------------------------------------------------
  // The traversal fails on the reachable directories
  // -------------------------------------------------------------------------

  /** A path of shown names leads to a directory whose listing is not skipped. */
  ghost predicate BrokenBelow(n: Node) {
    exists path, d: Node | d.Dir? && d.end == Broken && ShownPath(path) :: Leads(n, path, d)
  }

  /** The traversal fails if and only if the directory itself breaks, or one that shown names lead to. */
  lemma {:induction false} BreaksAreReachable(n: Node)
    ensures Breaks(n) <==> n.Dir? && (n.end == Broken || BrokenBelow(n))
    decreases n
  {
    if n.Dir? {
      if BreaksAmong(n.entries) {
        var path, d := BreakFound(n.entries);
        assert Leads(n, path, d);
      }
      forall path, d: Node | d.Dir? && d.end == Broken && ShownPath(path) && Leads(n, path, d)
        ensures BreaksAmong(n.entries)
      {
        BreakSeen(n.entries, path, d);
      }
    }
  }

  lemma {:induction false} BreakFound(es: seq<Entry>) returns (path: seq<string>, d: Node)
    requires BreaksAmong(es)
    ensures d.Dir? && d.end == Broken && ShownPath(path) && path != []
    ensures exists e | e in es :: LeadsBy(e, path, d)
    decreases es
  {
    var e := es[0];
    if !Ignored(e.name) && Breaks(e.node) {
      ShownIffNotIgnored(e.name);
      path, d := [e.name], e.node;
      if e.node.end != Broken {
        var rest;
        rest, d := BreakFound(e.node.entries);
        path := [e.name] + rest;
        assert Leads(e.node, rest, d) && path[1..] == rest;
      }
      assert LeadsBy(e, path, d);
    } else {
      path, d := BreakFound(es[1..]);
    }
  }

  lemma {:induction false} BreakSeen(es: seq<Entry>, path: seq<string>, d: Node)
    requires d.Dir? && d.end == Broken && ShownPath(path) && path != []
    requires exists e | e in es :: LeadsBy(e, path, d)
    ensures BreaksAmong(es)
    decreases es
  {
    var e := es[0];
    if LeadsBy(e, path, d) {
      ShownIffNotIgnored(e.name);
      if |path| > 1 {
        assert Leads(e.node, path[1..], d);
        BreakSeen(e.node.entries, path[1..], d);
      }
    } else {
      BreakSeen(es[1..], path, d);
    }
  }

  /** A file `x` next to a directory `y` whose listing reads nothing and ends like this. */
  function FileAndDirectory(m: real, end: End): Node {
    Dir([Entry("x", File(Some(m))), Entry("y", Dir([], end))], Clean)
  }

  /** With a directory that vanished before it was listed there is a file to find and the traversal
      fails all the same; a directory that may not be listed is only skipped. */
  lemma VanishedDirectory(m: real, end: End)
    ensures Files(FileAndDirectory(m, end), []) == [Found(["x"], m)]
    ensures Breaks(FileAndDirectory(m, end)) <==> end == Broken
  {
    var file, dir := Entry("x", File(Some(m))), Entry("y", Dir([], end));
    ShownIffNotIgnored("x");
    ShownIffNotIgnored("y");
    assert |"x"| == 1 && "x"[0] == 'x' && |"y"| == 1 && "y"[0] == 'y';
    assert [file, dir][1..] == [dir] && [dir][1..] == [] && [] + ["x"] == ["x"];
    assert FileAndDirectory(m, end).entries == [file, dir];
    assert Here([dir], []) == FileAt(dir, []) + Here([], []) && Here([file, dir], []) == FileAt(file, []);
    assert Below([dir], []) == Below([], []) + FilesUnder(dir, []);
    assert FilesUnder(dir, []) == FilesUnder(file, []) == [];
    assert Below([file, dir], []) == Below([dir], []) + FilesUnder(file, []);
    assert BreaksAmong([dir]) <==> end == Broken;
    assert !Breaks(file.node);
    assert BreaksAmong([file, dir]) <==> BreaksAmong([dir]);
  }
}
