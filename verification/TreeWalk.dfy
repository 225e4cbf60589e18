/**
 The walk behind every content hash: an explicit stack over a directory tree,
 against the recursive account of the files it must find.
 */
module TreeWalk {
  import opened Prelude
  import opened Orders

  /**
   A link that dangles has no target. `Unreadable`: the entry's metadata cannot
   be read. `Sealed`: a directory that cannot be enumerated.
   */
  datatype Node =
    | File(bytes: string, executable: bool)
    | Dir(entries: seq<Entry>)
    | Link(target: Option<Node>)
    | Special
    | Unreadable
    | Sealed

  datatype Entry = Entry(name: string, node: Node)

  type Path = seq<string>

  type Found = (Path, Node)

  /** Dot-prefixed, `__pycache__`, or `*.pyc`. */
  predicate Excluded(name: string) {
    || (name != "" && name[0] == '.')
    || name == "__pycache__"
    || (|name| >= 4 && name[|name| - 4..] == ".pyc")
  }

  /** Exactly the hidden names, the caches and the compiled files are left out, whatever their kind. */
  lemma {:induction false} ExcludedIff(name: string)
    ensures Excluded(name)
       <==> || (exists rest: string :: name == "." + rest) || name == "__pycache__" || (exists stem: string :: name == stem + ".pyc")
  {
    if name != "" && name[0] == '.' {
      assert name == "." + name[1..];
    }
    if |name| >= 4 && name[|name| - 4..] == ".pyc" {
      assert name == name[..|name| - 4] + ".pyc";
    }
    if stem: string :| name == stem + ".pyc" {
      assert name[|stem|..] == ".pyc";
    }
  }

  /** The files below a list of entries, every component of whose path passes the filter. */
  function FilesIn(entries: seq<Entry>, at: Path): seq<Found>
    decreases entries
  {
    if entries == [] then [] else FilesOf(entries[0], at) + FilesIn(entries[1..], at)
  }

  function FilesOf(e: Entry, at: Path): seq<Found>
    decreases e
  {
    if Excluded(e.name) then []
    else match e.node
      case File(_, _) => [(at + [e.name], e.node)]
      case Dir(entries) => FilesIn(entries, at + [e.name])
      case _ => []
  }

  /** Something below passes the name filter and is neither a plain file nor a readable directory. */
  predicate Irregular(entries: seq<Entry>)
    decreases entries
  {
    entries != [] && (IrregularEntry(entries[0]) || Irregular(entries[1..]))
  }

  predicate IrregularEntry(e: Entry)
    decreases e
  {
    && !Excluded(e.name)
    && match e.node
       case File(_, _) => false
       case Dir(entries) => Irregular(entries)
       case _ => true
  }

  /** How many entries a walk may still meet: its termination measure. */
  function Size(entries: seq<Entry>): nat
    decreases entries
  {
    if entries == [] then 0 else SizeOf(entries[0]) + Size(entries[1..])
  }

  function SizeOf(e: Entry): (n: nat)
    decreases e
    ensures n >= 1
  {
    match e.node
    case Dir(entries) => 2 + Size(entries)
    case _ => 2
  }

  type Frame = (Path, Node)

  /** A frame is a directory still to be scanned. */
  predicate Frames(stack: seq<Frame>) { forall i :: 0 <= i < |stack| ==> stack[i].1.Dir? || stack[i].1.Sealed? }

  function FrameFiles(f: Frame): seq<Found> { if f.1.Dir? then FilesIn(f.1.entries, f.0) else [] }

  predicate FrameIrregular(f: Frame) { if f.1.Dir? then Irregular(f.1.entries) else true }

  function FrameSize(f: Frame): nat { if f.1.Dir? then 1 + Size(f.1.entries) else 1 }

  function StackFiles(stack: seq<Frame>): multiset<Found> {
    if stack == [] then multiset{}
    else StackFiles(stack[..|stack| - 1]) + multiset(FrameFiles(stack[|stack| - 1]))
  }

  predicate StackIrregular(stack: seq<Frame>) {
    stack != [] && (StackIrregular(stack[..|stack| - 1]) || FrameIrregular(stack[|stack| - 1]))
  }

  function StackSize(stack: seq<Frame>): nat {
    if stack == [] then 0 else StackSize(stack[..|stack| - 1]) + FrameSize(stack[|stack| - 1])
  }

  lemma {:induction false} PushFrame(stack: seq<Frame>, f: Frame)
    ensures StackFiles(stack + [f]) == StackFiles(stack) + multiset(FrameFiles(f))
    ensures StackIrregular(stack + [f]) <==> StackIrregular(stack) || FrameIrregular(f)
    ensures StackSize(stack + [f]) == StackSize(stack) + FrameSize(f)
  {
    assert (stack + [f])[..|stack|] == stack;
  }

  datatype Refusal = Symlink | NotADirectory | NotEnumerable | NotClassifiable | NotRegular

  predicate FoundLess(a: Found, b: Found) { ListLess(a.0, b.0) }

  /** The order is total on paths, hence a sorting order on what is found. */
  lemma {:induction false} FoundOrderSorts()
    ensures Weak(FoundLess)
  {
    ListOrderIsTotal();
  }

  /** What a root is once every link is followed. */
  function Followed(root: Option<Node>): Option<Node>
    decreases root
  {
    if root.Some? && root.value.Link? then Followed(root.value.target) else root
  }

  /**
   Sorted regular files under a root that may be missing. Refusing irregular
   entries, a symlinked root among them, the walk fails exactly when there is
   one; otherwise it follows a symlinked root and skips the entries.
   The directory's own order does not matter.
   */
  method RegularFiles(root: Option<Node>, refuse: bool) returns (r: Result<seq<Found>, Refusal>)
    ensures
      var top := if refuse then root else Followed(root);
      var entries := if top.Some? && top.value.Dir? then top.value.entries else [];
      && (r.Ok? ==> multiset(r.value) == multiset(FilesIn(entries, [])) && Sorted(FoundLess, r.value))
      && (r.Err? <==> refuse && root.Some? && (!root.value.Dir? || Irregular(entries)))
      && (refuse && root.Some? && !root.value.Dir? && !root.value.Sealed? ==>
            r == Err(if root.value.Link? then Symlink else NotADirectory))
  {
    if refuse && root.Some? && root.value.Link? {
      return Err(Symlink);
    }
    var top := Followed(root);
    if top.None? {
      return Ok([]);
    }
    if !top.value.Dir? && !top.value.Sealed? {
      return if refuse then Err(NotADirectory) else Ok([]);
    }
    EmptyStack();
    PushFrame([], ([], top.value));
    hide StackFiles, StackIrregular, StackSize, FilesIn, Irregular;
    r := WalkStack([([], top.value)], refuse);
    if r.Ok? {
      FoundOrderSorts();
      SortSorts(FoundLess, r.value);
      SortHolds(FoundLess, r.value);
      r := Ok(Sort(FoundLess, r.value));
    }
  }

  /** The explicit-stack walk itself. */
  method WalkStack(start: seq<Frame>, refuse: bool) returns (r: Result<seq<Found>, Refusal>)
    requires Frames(start)
    ensures r.Ok? ==> multiset(r.value) == StackFiles(start)
    ensures r.Err? <==> refuse && StackIrregular(start)
  {
    EmptyStack();
    hide StackFiles, StackIrregular, StackSize;
    var found: seq<Found>, stack := [], start;
    while stack != []
      invariant Frames(stack)
      invariant multiset(found) + StackFiles(stack) == StackFiles(start)
      invariant refuse ==> (StackIrregular(stack) <==> StackIrregular(start))
      decreases StackSize(stack)
    {
      var (at, dir) := stack[|stack| - 1];
      var rest := stack[..|stack| - 1];
      assert stack == rest + [(at, dir)];
      PushFrame(rest, (at, dir));
      stack := rest;
      if dir.Sealed? {
        if refuse {
          return Err(NotEnumerable);
        }
        continue;
      }
      var refusal: Option<Refusal>;
      refusal, found, stack := ScanEntries(dir.entries, at, refuse, found, rest);
      if refusal.Some? {
        return Err(refusal.value);
      }
    }
    r := Ok(found);
  }

  lemma {:induction false} EmptyStack()
    ensures StackFiles([]) == multiset{} && !StackIrregular([]) && StackSize([]) == 0
  {
  }

  /** One directory: files are found, directories pushed, anything else refused or skipped. */
  method ScanEntries(entries: seq<Entry>, at: Path, refuse: bool, found0: seq<Found>, stack0: seq<Frame>)
    returns (refusal: Option<Refusal>, found: seq<Found>, stack: seq<Frame>)
    requires Frames(stack0)
    ensures refusal.None? ==>
      && Frames(stack)
      && multiset(found) + StackFiles(stack) == multiset(found0) + StackFiles(stack0) + multiset(FilesIn(entries, at))
      && StackSize(stack) <= StackSize(stack0) + Size(entries)
      && (refuse ==> (StackIrregular(stack) <==> StackIrregular(stack0) || Irregular(entries)))
    ensures refusal.Some? ==> refuse && Irregular(entries)
  {
    refusal, found, stack := None, found0, stack0;
    ghost var total := multiset(found0) + StackFiles(stack0) + multiset(FilesIn(entries, at));
    ghost var odd, bound := StackIrregular(stack0) || Irregular(entries), StackSize(stack0) + Size(entries);
    assert entries[0..] == entries;
    EntriesEnd(entries, at);
    hide FilesIn, Irregular, Size, StackFiles, StackIrregular, StackSize, FrameFiles, FrameIrregular, FrameSize, Excluded;
    for i := 0 to |entries|
      invariant Frames(stack) && refusal.None?
      invariant multiset(found) + StackFiles(stack) + multiset(FilesIn(entries[i..], at)) == total
      invariant StackSize(stack) + Size(entries[i..]) <= bound
      invariant refuse ==> (StackIrregular(stack) || Irregular(entries[i..]) <==> odd)
    {
      refusal, found, stack := ScanEntry(entries, i, at, refuse, found, stack);
      if refusal.Some? {
        return;
      }
    }
  }

  /** One entry: excluded names are passed over, files found, directories pushed, the rest refused or skipped. */
  method ScanEntry(entries: seq<Entry>, i: nat, at: Path, refuse: bool, found0: seq<Found>, stack0: seq<Frame>)
    returns (refusal: Option<Refusal>, found: seq<Found>, stack: seq<Frame>)
    requires i < |entries| && Frames(stack0)
    ensures refusal.Some? ==> refuse && Irregular(entries)
    ensures refusal.None? ==>
      && Frames(stack)
      && multiset(found) + StackFiles(stack) + multiset(FilesIn(entries[i + 1..], at))
         == multiset(found0) + StackFiles(stack0) + multiset(FilesIn(entries[i..], at))
      && StackSize(stack) + Size(entries[i + 1..]) <= StackSize(stack0) + Size(entries[i..])
      && (refuse ==> (StackIrregular(stack) || Irregular(entries[i + 1..]) <==> StackIrregular(stack0) || Irregular(entries[i..])))
  {
    hide FilesIn, Irregular, Size, StackFiles, StackIrregular, StackSize, FrameFiles, FrameIrregular, FrameSize, Excluded;
    refusal, found, stack := None, found0, stack0;
    var e := entries[i];
    if Excluded(e.name) {
      SkipStep(entries, i, at);
    } else if e.node.File? {
      FileStep(entries, i, at);
      PushFound(found, (at + [e.name], e.node));
      found := found + [(at + [e.name], e.node)];
    } else if e.node.Dir? || e.node.Sealed? {
      DirStep(entries, i, at);
      PushFrame(stack, (at + [e.name], e.node));
      stack := stack + [(at + [e.name], e.node)];
    } else if refuse {
      IrregularAt(entries, i);
      refusal := Some(if e.node.Link? then Symlink else if e.node.Unreadable? then NotClassifiable else NotRegular);
    } else {
      SkipStep(entries, i, at);
    }
  }

  lemma {:induction false} PushFound(found: seq<Found>, f: Found)
    ensures multiset(found + [f]) == multiset(found) + multiset([f])
  {
  }

  lemma {:induction false} EntriesEnd(entries: seq<Entry>, at: Path)
    ensures FilesIn(entries[|entries|..], at) == [] && !Irregular(entries[|entries|..]) && Size(entries[|entries|..]) == 0
  {
  }

  lemma {:induction false} SkipStep(entries: seq<Entry>, i: nat, at: Path)
    requires i < |entries|
    requires Excluded(entries[i].name) || !(entries[i].node.File? || entries[i].node.Dir? || entries[i].node.Sealed?)
    ensures FilesIn(entries[i..], at) == FilesIn(entries[i + 1..], at) && Size(entries[i..]) >= Size(entries[i + 1..])
    ensures Excluded(entries[i].name) ==> (Irregular(entries[i..]) <==> Irregular(entries[i + 1..]))
  {
    var e, rest := entries[i], entries[i + 1..];
    assert entries[i..][0] == e && entries[i..][1..] == rest;
    assert FilesOf(e, at) == [] && FilesIn(entries[i..], at) == [] + FilesIn(rest, at);
  }

  lemma {:induction false} FileStep(entries: seq<Entry>, i: nat, at: Path)
    requires i < |entries| && !Excluded(entries[i].name) && entries[i].node.File?
    ensures multiset(FilesIn(entries[i..], at))
         == multiset([(at + [entries[i].name], entries[i].node)]) + multiset(FilesIn(entries[i + 1..], at))
    ensures Size(entries[i..]) >= Size(entries[i + 1..]) && (Irregular(entries[i..]) <==> Irregular(entries[i + 1..]))
  {
    assert entries[i..][0] == entries[i] && entries[i..][1..] == entries[i + 1..];
  }

  lemma {:induction false} DirStep(entries: seq<Entry>, i: nat, at: Path)
    requires i < |entries| && !Excluded(entries[i].name) && (entries[i].node.Dir? || entries[i].node.Sealed?)
    ensures
      var frame, rest := (at + [entries[i].name], entries[i].node), entries[i + 1..];
      && multiset(FilesIn(entries[i..], at)) == multiset(FrameFiles(frame)) + multiset(FilesIn(rest, at))
      && (Irregular(entries[i..]) <==> FrameIrregular(frame) || Irregular(rest))
      && Size(entries[i..]) >= FrameSize(frame) + Size(rest)
  {
    assert entries[i..][0] == entries[i] && entries[i..][1..] == entries[i + 1..];
  }

  lemma {:induction false} IrregularAt(entries: seq<Entry>, i: nat)
    requires i < |entries| && IrregularEntry(entries[i])
    ensures Irregular(entries)
  {
    if i > 0 { IrregularAt(entries[1..], i - 1); }
  }

  // ---- which files those are ----

  predicate Named(entries: seq<Entry>, name: string) {
    entries != [] && (entries[0].name == name || Named(entries[1..], name))
  }

  predicate PlainName(name: string) { name != "" && '/' !in name }

  /** A directory tree as a file system gives it: plain names, distinct within each directory. */
  predicate Tidy(entries: seq<Entry>)
    decreases entries
  {
    entries == [] ||
    (PlainName(entries[0].name) && !Named(entries[1..], entries[0].name) && TidyNode(entries[0]) && Tidy(entries[1..]))
  }

  predicate TidyNode(e: Entry)
    decreases e
  {
    e.node.Dir? ==> Tidy(e.node.entries)
  }

  function Lookup(entries: seq<Entry>, p: Path): Option<Node>
    decreases |p|, |entries|
  {
    if p == [] || entries == [] then None
    else if entries[0].name != p[0] then Lookup(entries[1..], p)
    else if |p| == 1 then Some(entries[0].node)
    else if entries[0].node.Dir? then Lookup(entries[0].node.entries, p[1..])
    else None
  }

  predicate Admitted(p: Path) { forall i :: 0 <= i < |p| ==> !Excluded(p[i]) }

  predicate PlainPath(p: Path) { forall i :: 0 <= i < |p| ==> PlainName(p[i]) }

  predicate Below(f: Found, at: Path) { |f.0| > |at| && f.0[..|at|] == at }

  lemma {:induction false} LookupNeedsName(entries: seq<Entry>, p: Path)
    ensures Lookup(entries, p).Some? ==> p != [] && Named(entries, p[0])
  {
    if p != [] && entries != [] { LookupNeedsName(entries[1..], p); }
  }

  /** What the walk finds is a file of the tree, at that path, no component of which is excluded. */
  lemma {:induction false} FoundIsThere(entries: seq<Entry>, at: Path, f: Found)
    requires Tidy(entries) && f in FilesIn(entries, at)
    ensures Below(f, at) && f.1.File? && Lookup(entries, f.0[|at|..]) == Some(f.1)
    ensures Admitted(f.0[|at|..]) && PlainPath(f.0[|at|..])
    decreases entries, 0
  {
    var e := entries[0];
    if f in FilesOf(e, at) {
      if e.node.Dir? {
        FoundIsThere(e.node.entries, at + [e.name], f);
        var p := f.0[|at|..];
        assert f.0[..|at|] == f.0[..|at| + 1][..|at|];
        assert p[0] == e.name && p[1..] == f.0[|at| + 1..];
        assert forall i :: 1 <= i < |p| ==> p[i] == p[1..][i - 1];
      }
    } else {
      FoundIsThere(entries[1..], at, f);
      LookupNeedsName(entries[1..], f.0[|at|..]);
    }
  }

  /** And every such file is found. */
  lemma {:induction false} ThereIsFound(entries: seq<Entry>, at: Path, p: Path)
    requires Lookup(entries, p).Some? && Lookup(entries, p).value.File? && Admitted(p)
    ensures (at + p, Lookup(entries, p).value) in FilesIn(entries, at)
    decreases |p|, |entries|
  {
    var e := entries[0];
    if e.name != p[0] {
      ThereIsFound(entries[1..], at, p);
    } else if |p| == 1 {
      assert p == [e.name];
    } else {
      assert p == [e.name] + p[1..];
      ThereIsFound(e.node.entries, at + [e.name], p[1..]);
      assert at + [e.name] + p[1..] == at + p;
    }
  }

  lemma {:induction false} PrefixIsDirectory(entries: seq<Entry>, p: Path, q: Path)
    requires p != [] && q != [] && Lookup(entries, p + q).Some?
    ensures Lookup(entries, p).Some? && Lookup(entries, p).value.Dir?
    decreases |p|, |entries|
  {
    assert (p + q)[0] == p[0];
    if entries[0].name != p[0] {
      PrefixIsDirectory(entries[1..], p, q);
    } else if |p| > 1 {
      assert (p + q)[1..] == p[1..] + q;
      PrefixIsDirectory(entries[0].node.entries, p[1..], q);
    }
  }

  predicate Once(s: seq<Found>) { forall i, j :: 0 <= i < j < |s| ==> s[i] != s[j] }

  lemma {:induction false} OnceJoins(a: seq<Found>, b: seq<Found>)
    requires Once(a) && Once(b) && forall f :: f in a ==> f !in b
    ensures Once(a + b)
  {
    forall i, j | 0 <= i < |a| && 0 <= j < |b| ensures a[i] != b[j] {
      assert a[i] in a && b[j] in b;
    }
  }

  /** Each file is found once. */
  lemma {:induction false} FoundOnce(entries: seq<Entry>, at: Path)
    requires Tidy(entries)
    ensures Once(FilesIn(entries, at))
    decreases entries
  {
    if entries != [] {
      var e := entries[0];
      if e.node.Dir? {
        FoundOnce(e.node.entries, at + [e.name]);
      }
      FoundOnce(entries[1..], at);
      forall f | f in FilesOf(e, at) ensures f !in FilesIn(entries[1..], at) {
        if f in FilesIn(entries[1..], at) {
          FoundIsThere(entries[1..], at, f);
          LookupNeedsName(entries[1..], f.0[|at|..]);
          HeadComponent(e, at, f);
        }
      }
      OnceJoins(FilesOf(e, at), FilesIn(entries[1..], at));
    }
  }

  lemma {:induction false} HeadComponent(e: Entry, at: Path, f: Found)
    requires TidyNode(e) && f in FilesOf(e, at)
    ensures Below(f, at) && f.0[|at|] == e.name
  {
    if e.node.Dir? {
      FoundIsThere(e.node.entries, at + [e.name], f);
      assert f.0[..|at|] == f.0[..|at| + 1][..|at|];
    }
  }

  // ---- writing a file into a tree ----

  function Children(node: Node): seq<Entry> { if node.Dir? then node.entries else [] }

  /** The tree once a node is written at a path, directories made on the way; whatever stood there is replaced. */
  function Put(entries: seq<Entry>, p: Path, node: Node): seq<Entry>
    requires p != []
    decreases |p|, |entries|, 1
  {
    if entries == [] then [Entry(p[0], Under([], p, node))]
    else if entries[0].name != p[0] then [entries[0]] + Put(entries[1..], p, node)
    else [Entry(p[0], Under(Children(entries[0].node), p, node))] + entries[1..]
  }

  function Under(below: seq<Entry>, p: Path, node: Node): Node
    requires p != []
    decreases |p|, 0, 0
  {
    if |p| == 1 then node else Dir(Put(below, p[1..], node))
  }

  function FileAt(entries: seq<Entry>, p: Path): Option<Node> {
    var node := Lookup(entries, p);
    if node.Some? && node.value.File? then node else None
  }

  /** A file written is there, nothing is above or below it, and every other file is where it was. */
  lemma {:induction false} PutFileAt(entries: seq<Entry>, p: Path, node: Node, q: Path)
    requires p != [] && q != [] && node.File?
    ensures FileAt(Put(entries, p, node), q)
         == if q == p then Some(node) else if p <= q || q <= p then None else FileAt(entries, q)
    decreases |p|, |entries|
  {
    var rest := if entries == [] then [] else entries[1..];
    if entries != [] && entries[0].name != p[0] {
      assert Put(entries, p, node)[1..] == Put(rest, p, node);
      PutFileAt(rest, p, node, q);
    } else if q[0] == p[0] {
      var below := if entries == [] then [] else Children(entries[0].node);
      assert Put(entries, p, node)[0] == Entry(p[0], Under(below, p, node));
      assert FileAt(entries, q) == if |q| == 1 then FileAt(entries, q) else FileAt(below, q[1..]);
      assert p == [p[0]] + p[1..] && q == [q[0]] + q[1..];
      if |p| > 1 && |q| > 1 {
        PutFileAt(below, p[1..], node, q[1..]);
      }
    } else {
      assert Put(entries, p, node)[1..] == rest;
    }
  }

  lemma {:induction false} PutNames(entries: seq<Entry>, p: Path, node: Node, name: string)
    requires p != []
    ensures Named(Put(entries, p, node), name) <==> Named(entries, name) || name == p[0]
    decreases |entries|
  {
    if entries != [] && entries[0].name != p[0] {
      assert Put(entries, p, node)[1..] == Put(entries[1..], p, node);
      PutNames(entries[1..], p, node, name);
    } else if entries != [] {
      assert Put(entries, p, node)[1..] == entries[1..];
    }
  }

  lemma {:induction false} PutIsTidy(entries: seq<Entry>, p: Path, node: Node)
    requires Tidy(entries) && p != [] && PlainPath(p) && node.File?
    ensures Tidy(Put(entries, p, node))
    decreases |p|, |entries|
  {
    var t := Put(entries, p, node);
    if entries != [] && entries[0].name != p[0] {
      assert t[1..] == Put(entries[1..], p, node);
      PutIsTidy(entries[1..], p, node);
      PutNames(entries[1..], p, node, entries[0].name);
    } else {
      assert entries != [] ==> t[1..] == entries[1..];
      assert forall i :: 0 <= i < |p[1..]| ==> p[1..][i] == p[i + 1];
      if |p| > 1 {
        PutIsTidy(if entries == [] then [] else Children(entries[0].node), p[1..], node);
      }
    }
  }

  lemma {:induction false} PutIsRegular(entries: seq<Entry>, p: Path, node: Node)
    requires !Irregular(entries) && p != [] && node.File?
    ensures !Irregular(Put(entries, p, node))
    decreases |p|, |entries|
  {
    var t := Put(entries, p, node);
    if entries != [] && entries[0].name != p[0] {
      assert t[1..] == Put(entries[1..], p, node);
      PutIsRegular(entries[1..], p, node);
    } else {
      assert entries != [] ==> t[1..] == entries[1..];
      if |p| > 1 && !Excluded(p[0]) {
        PutIsRegular(if entries == [] then [] else Children(entries[0].node), p[1..], node);
      }
    }
  }

  /** An admitted entry of a regular tree is a file or a regular directory. */
  lemma {:induction false} RegularEntry(entries: seq<Entry>, name: string)
    requires !Irregular(entries) && !Excluded(name)
    ensures
      var node := Lookup(entries, [name]);
      node.Some? ==> node.value.File? || (node.value.Dir? && !Irregular(node.value.entries))
  {
    if entries != [] {
      RegularEntry(entries[1..], name);
    }
  }

  /** Whatever a tidy tree holds is at a plain path. */
  lemma {:induction false} LookupIsPlain(entries: seq<Entry>, p: Path)
    requires Tidy(entries) && Lookup(entries, p).Some?
    ensures PlainPath(p)
    decreases |p|, |entries|
  {
    if entries[0].name != p[0] {
      LookupIsPlain(entries[1..], p);
    } else if |p| > 1 {
      LookupIsPlain(entries[0].node.entries, p[1..]);
      assert forall i :: 1 <= i < |p| ==> p[i] == p[1..][i - 1];
    }
  }
}
