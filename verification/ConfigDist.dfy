/**
 The config distribution: a canonical manifest over a tree's files, the archive
 packed from it, and the verification that unpacks and recomputes. Bytes stand
 as strings of their values; SHA-256 is an injective function.
 */
module ConfigDist {
  import opened Prelude
  import opened Orders
  import opened TreeWalk
  import opened Json

  const DIST_DIRS := ["drivers", "knowledge", "policy"]
  const ARTIFACT_METADATA := "config-dist.json"

  datatype Blob = Blob(bytes: string, executable: bool)

  type FileMap = map<string, Blob>

  datatype Member = Member(name: string, blob: Blob)

  /** The digest, what the metadata member is written as, and what reading it back declares. */
  datatype Crypto = Crypto(sha: string -> string, envelope: string -> string, declared: string -> Option<string>)

  ghost predicate Good(c: Crypto) {
    && (forall a, b :: c.sha(a) == c.sha(b) ==> a == b)
    && (forall a :: c.sha(a) != "")
    && (forall h :: c.declared(c.envelope(h)) == Some(h))
  }

  // ---- names ----

  function Join(p: Path): string
    requires p != []
  {
    if |p| == 1 then p[0] else p[0] + "/" + Join(p[1..])
  }

  function Until(s: string, c: char): (n: nat)
    ensures n <= |s| && (n < |s| ==> s[n] == c)
    ensures forall i :: 0 <= i < n ==> s[i] != c
  {
    if s == "" || s[0] == c then 0 else 1 + Until(s[1..], c)
  }

  function Split(s: string): (p: Path)
    ensures p != []
  {
    var n := Until(s, '/');
    if n == |s| then [s] else [s[..n]] + Split(s[n + 1..])
  }

  function Slashed(s: string): string {
    if s == "" then "" else [if s[0] == '\\' then '/' else s[0]] + Slashed(s[1..])
  }

  predicate Harmless(part: string) { part != "" && part != "." && part != ".." }

  predicate AllHarmless(p: Path) { forall i :: 0 <= i < |p| ==> Harmless(p[i]) }

  /** Non-empty, relative, no traversal, no drive letter, whichever slash a reader honours. */
  predicate SafeMember(name: string) {
    && name != "" && name[0] != '/' && name[0] != '\\'
    && !(Slashed(name) != "" && Slashed(name)[0] == '/')
    && !(|name| >= 2 && name[1] == ':')
    && AllHarmless(Split(Slashed(name)))
  }

  /** A path the manifest counts: below a distributed directory, no component excluded. */
  predicate Covered(name: string) {
    var parts := Split(name);
    |parts| >= 2 && parts[0] in DIST_DIRS && Admitted(parts)
  }

  lemma {:induction false} UntilAt(a: string, rest: string)
    requires '/' !in a
    ensures Until(a + "/" + rest, '/') == |a|
    ensures Until(a, '/') == |a|
  {
    if a != "" {
      assert (a + "/" + rest)[1..] == a[1..] + "/" + rest;
      UntilAt(a[1..], rest);
    }
  }

  lemma {:induction false} SplitJoin(p: Path)
    requires p != [] && PlainPath(p)
    ensures Split(Join(p)) == p
  {
    UntilAt(p[0], if |p| == 1 then "" else Join(p[1..]));
    if |p| > 1 {
      SplitJoin(p[1..]);
      assert Join(p)[|p[0]| + 1..] == Join(p[1..]) && Join(p)[..|p[0]|] == p[0];
      assert [p[0]] + p[1..] == p;
    } else {
      assert [p[0]] == p;
    }
  }

  lemma {:induction false} JoinSplit(s: string)
    ensures Join(Split(s)) == s
  {
    var n := Until(s, '/');
    if n < |s| {
      JoinSplit(s[n + 1..]);
      assert Split(s)[1..] == Split(s[n + 1..]);
      assert s == s[..n] + "/" + s[n + 1..];
    }
  }

  // ---- the manifest ----

  function ModeText(executable: bool): string { if executable then "755" else "644" }

  function EntryOf(c: Crypto, name: string, b: Blob): seq<string> { [name, c.sha(b.bytes), ModeText(b.executable)] }

  predicate Distinct<T(==)>(s: seq<T>) { forall i, j :: 0 <= i < j < |s| ==> s[i] != s[j] }

  /** The entries, each once, in order: what the file map alone determines. */
  ghost predicate Manifests(c: Crypto, m: seq<seq<string>>, files: FileMap) {
    && Sorted(ListLess, m)
    && Distinct(m)
    && (forall name :: name in files ==> EntryOf(c, name, files[name]) in m)
    && (forall e :: e in m ==> |e| == 3 && e[0] in files && e == EntryOf(c, e[0], files[e[0]]))
  }

  lemma {:induction false} DistinctCount<T>(s: seq<T>, x: T)
    requires Distinct(s)
    ensures multiset(s)[x] == if x in s then 1 else 0
  {
    if s != [] {
      DistinctCount(s[1..], x);
      assert s == [s[0]] + s[1..];
      assert forall i :: 1 <= i < |s| ==> s[i] == s[1..][i - 1];
    }
  }

  /** Whatever order the directories were scanned in, the manifest is the same. */
  lemma {:induction false} ManifestIsUnique(c: Crypto, m: seq<seq<string>>, n: seq<seq<string>>, files: FileMap)
    requires Manifests(c, m, files) && Manifests(c, n, files)
    ensures m == n
  {
    forall e: seq<string> ensures multiset(m)[e] == multiset(n)[e] {
      DistinctCount(m, e);
      DistinctCount(n, e);
    }
    ListOrderIsTotal();
    SortedIsUnique(ListLess, m, n);
  }

  /** The manifest determines the distributed tree, bytes and executable bits included. */
  lemma {:induction false} ManifestDetermines(c: Crypto, m: seq<seq<string>>, a: FileMap, b: FileMap)
    requires Good(c) && Manifests(c, m, a) && Manifests(c, m, b)
    ensures a == b
  {
    forall name | name in a ensures name in b && a[name] == b[name] {
      var e := EntryOf(c, name, a[name]);
      assert e in m && e[0] == name && e[1] == c.sha(a[name].bytes);
      assert e[2] == ModeText(b[name].executable);
    }
    forall name | name in b ensures name in a {
      assert EntryOf(c, name, b[name])[0] == name;
    }
  }

  function EntryJson(e: seq<string>): Json { Array(seq(|e|, i requires 0 <= i < |e| => Text(e[i]))) }

  function ManifestJson(m: seq<seq<string>>): Json { Array(seq(|m|, i requires 0 <= i < |m| => EntryJson(m[i]))) }

  /** An empty manifest has the empty hash, which no digest is. */
  function HashOf(c: Crypto, m: seq<seq<string>>): string {
    if m == [] then "" else c.sha(Encode(ManifestJson(m), COMPACT))
  }

  lemma {:induction false} EntryJsonIsExact(a: seq<string>, b: seq<string>)
    requires EntryJson(a) == EntryJson(b)
    ensures a == b
  {
    assert |EntryJson(a).items| == |a| && |EntryJson(b).items| == |b|;
    forall i | 0 <= i < |a| ensures a[i] == b[i] {
      assert EntryJson(a).items[i] == Text(a[i]) && EntryJson(b).items[i] == Text(b[i]);
    }
  }

  lemma {:induction false} ManifestJsonIsExact(m: seq<seq<string>>, n: seq<seq<string>>)
    requires ManifestJson(m) == ManifestJson(n)
    ensures m == n
  {
    assert |ManifestJson(m).items| == |m| && |ManifestJson(n).items| == |n|;
    forall i | 0 <= i < |m| ensures m[i] == n[i] {
      assert ManifestJson(m).items[i] == EntryJson(m[i]) && ManifestJson(n).items[i] == EntryJson(n[i]);
      EntryJsonIsExact(m[i], n[i]);
    }
  }

  lemma {:induction false} HashIsExact(c: Crypto, m: seq<seq<string>>, n: seq<seq<string>>)
    requires Good(c)
    ensures HashOf(c, m) == HashOf(c, n) <==> m == n
  {
    if HashOf(c, m) == HashOf(c, n) {
      if m != [] && n != [] {
        TextIsIdentity(ManifestJson(m), ManifestJson(n), COMPACT);
        ManifestJsonIsExact(m, n);
      }
    }
  }

  /** Equal hashes, equal trees; and the other way round. */
  lemma {:induction false} HashDeterminesTree(c: Crypto, m: seq<seq<string>>, n: seq<seq<string>>, a: FileMap, b: FileMap)
    requires Good(c) && Manifests(c, m, a) && Manifests(c, n, b)
    ensures HashOf(c, m) == HashOf(c, n) <==> a == b
  {
    HashIsExact(c, m, n);
    if m == n {
      ManifestDetermines(c, m, a, b);
    }
    if a == b {
      ManifestIsUnique(c, m, n, a);
    }
  }

  // ---- the structural rule ----

  datatype Flaw = Duplicate | Unsafe | Foreign | Ignored | NoMetadata | Conflict | BadMetadata

  function Names(ms: seq<Member>): seq<string> { seq(|ms|, i requires 0 <= i < |ms| => ms[i].name) }

  /** Exactly the one metadata member plus covered files, each name once and safe. */
  predicate WellStructured(names: seq<string>) {
    && Distinct(names)
    && ARTIFACT_METADATA in names
    && forall i :: 0 <= i < |names| ==> SafeMember(names[i]) && (names[i] == ARTIFACT_METADATA || Covered(names[i]))
  }

  /** The first reason to refuse a name, checked in the code's order. */
  function NameFlaw(seen: seq<string>, name: string): Option<Flaw> {
    if name in seen then Some(Duplicate)
    else if !SafeMember(name) then Some(Unsafe)
    else if name == ARTIFACT_METADATA then None
    else if Split(name)[0] !in DIST_DIRS || |Split(name)| < 2 then Some(Foreign)
    else if !Admitted(Split(name)) then Some(Ignored)
    else None
  }

  predicate FlawlessUpTo(names: seq<string>, n: nat)
    requires n <= |names|
  {
    forall i :: 0 <= i < n ==> NameFlaw(names[..i], names[i]).None?
  }

  /** The first name with a flaw, in order, and only then a missing metadata member. */
  method StructureError(names: seq<string>) returns (flaw: Option<Flaw>)
    ensures flaw.None? <==> WellStructured(names)
    ensures flaw.Some? && flaw != Some(NoMetadata) ==>
      exists i :: 0 <= i < |names| && FlawlessUpTo(names, i) && flaw == NameFlaw(names[..i], names[i])
    ensures flaw == Some(NoMetadata) ==> ARTIFACT_METADATA !in names && FlawlessUpTo(names, |names|)
  {
    hide NameFlaw, WellStructured;
    FlawlessIsStructured(names);
    var seen: set<string>, sawMetadata := {}, false;
    for i := 0 to |names|
      invariant forall n :: n in seen <==> n in names[..i]
      invariant sawMetadata <==> ARTIFACT_METADATA in names[..i]
      invariant FlawlessUpTo(names, i)
    {
      assert names[..i + 1] == names[..i] + [names[i]];
      flaw := CheckName(seen, names[..i], names[i]);
      if flaw.Some? {
        return;
      }
      seen := seen + {names[i]};
      sawMetadata := sawMetadata || names[i] == ARTIFACT_METADATA;
    }
    assert names[..|names|] == names;
    flaw := if sawMetadata then None else Some(NoMetadata);
  }

  method CheckName(seen: set<string>, ghost before: seq<string>, name: string) returns (flaw: Option<Flaw>)
    requires forall n :: n in seen <==> n in before
    ensures flaw == NameFlaw(before, name) && flaw != Some(NoMetadata)
  {
    hide SafeMember, Split, Admitted;
    if name in seen {
      return Some(Duplicate);
    }
    if !SafeMember(name) {
      return Some(Unsafe);
    }
    if name == ARTIFACT_METADATA {
      return None;
    }
    var parts := Split(name);
    if parts[0] !in DIST_DIRS || |parts| < 2 {
      return Some(Foreign);
    }
    flaw := if Admitted(parts) then None else Some(Ignored);
  }

  lemma {:induction false} FlawlessIsStructured(names: seq<string>)
    ensures WellStructured(names)
       <==> ARTIFACT_METADATA in names && forall i :: 0 <= i < |names| ==> NameFlaw(names[..i], names[i]).None?
  {
    hide SafeMember, Split, Admitted;
    if WellStructured(names) {
      forall i | 0 <= i < |names| ensures NameFlaw(names[..i], names[i]).None? {
        assert names[i] !in names[..i];
        assert names[i] == ARTIFACT_METADATA || Covered(names[i]);
      }
    }
    if forall i :: 0 <= i < |names| ==> NameFlaw(names[..i], names[i]).None? {
      forall i, j | 0 <= i < j < |names| ensures names[i] != names[j] {
        assert names[..j][i] == names[i];
        assert NameFlaw(names[..j], names[j]).None?;
      }
    }
  }

  // ---- unpacking ----

  /** `a` would have to be a directory for `b` to exist. */
  predicate Blocks(a: string, b: string) { a + "/" <= b }

  predicate PrefixFree(names: seq<string>) {
    forall i, j :: 0 <= i < |names| && 0 <= j < |names| ==> !Blocks(names[i], names[j])
  }

  function TreeOf(ms: seq<Member>): FileMap {
    if ms == [] then map[] else TreeOf(ms[..|ms| - 1])[ms[|ms| - 1].name := ms[|ms| - 1].blob]
  }

  function Dist(files: FileMap): FileMap { map k | k in files && Covered(k) :: files[k] }

  lemma {:induction false} TreeHolds(ms: seq<Member>)
    requires Distinct(Names(ms))
    ensures forall m :: m in ms ==> m.name in TreeOf(ms) && TreeOf(ms)[m.name] == m.blob
    ensures forall k :: k in TreeOf(ms) ==> Member(k, TreeOf(ms)[k]) in ms
    ensures |TreeOf(ms)| == |ms|
  {
    if ms != [] {
      var front, last := ms[..|ms| - 1], ms[|ms| - 1];
      assert ms == front + [last];
      assert forall i :: 0 <= i < |front| ==> Names(front)[i] == Names(ms)[i];
      TreeHolds(front);
      assert Names(ms)[|ms| - 1] == last.name;
      forall m | m in front ensures m.name != last.name {
        var i :| 0 <= i < |front| && front[i] == m;
        assert Names(ms)[i] == m.name;
      }
    }
  }

  function FileOf(b: Blob): Node { File(b.bytes, b.executable) }

  /** The directory tree the members unpack to. */
  function Unpacked(ms: seq<Member>): seq<Entry> {
    if ms == [] then []
    else Put(Unpacked(ms[..|ms| - 1]), Split(ms[|ms| - 1].name), FileOf(ms[|ms| - 1].blob))
  }

  lemma {:induction false} JoinAppends(p: Path, q: Path)
    requires p != [] && q != []
    ensures Join(p + q) == Join(p) + "/" + Join(q)
  {
    if |p| == 1 {
      assert (p + q)[1..] == q;
    } else {
      assert (p + q)[1..] == p[1..] + q;
      JoinAppends(p[1..], q);
    }
  }

  lemma {:induction false} PathsBlock(a: string, b: string)
    requires Split(a) <= Split(b) && a != b
    ensures Blocks(a, b)
  {
    var rest := Split(b)[|Split(a)|..];
    JoinSplit(a);
    JoinSplit(b);
    assert Split(a) + rest == Split(b);
    assert rest == [] ==> Split(a) + rest == Split(a);
    JoinAppends(Split(a), rest);
  }

  /** The tree holds exactly the members, each under its name. */
  lemma {:induction false} UnpackedHolds(ms: seq<Member>, k: string)
    requires Distinct(Names(ms)) && PrefixFree(Names(ms))
    ensures FileAt(Unpacked(ms), Split(k)) == if k in TreeOf(ms) then Some(FileOf(TreeOf(ms)[k])) else None
  {
    if ms != [] {
      var front, last := ms[..|ms| - 1], ms[|ms| - 1];
      assert forall i :: 0 <= i < |front| ==> Names(front)[i] == Names(ms)[i];
      UnpackedHolds(front, k);
      PutFileAt(Unpacked(front), Split(last.name), FileOf(last.blob), Split(k));
      hide Split, Lookup, Put, Blocks;
      JoinSplit(last.name);
      JoinSplit(k);
      if k != last.name && (Split(last.name) <= Split(k) || Split(k) <= Split(last.name)) {
        if Split(last.name) <= Split(k) {
          PathsBlock(last.name, k);
        } else {
          PathsBlock(k, last.name);
        }
        NotAMember(ms, k);
      }
    }
  }

  lemma {:induction false} NotAMember(ms: seq<Member>, k: string)
    requires ms != [] && Distinct(Names(ms)) && PrefixFree(Names(ms))
    requires Blocks(k, ms[|ms| - 1].name) || Blocks(ms[|ms| - 1].name, k)
    ensures k !in TreeOf(ms)
  {
    TreeHolds(ms);
    assert Names(ms)[|ms| - 1] == ms[|ms| - 1].name;
    forall x | x in ms ensures x.name != k {
      var i :| 0 <= i < |ms| && ms[i] == x;
      assert Names(ms)[i] == x.name;
    }
  }

  lemma {:induction false} SplitHasNoSlash(s: string)
    ensures forall i :: 0 <= i < |Split(s)| ==> '/' !in Split(s)[i]
  {
    var n := Until(s, '/');
    if n < |s| {
      SplitHasNoSlash(s[n + 1..]);
    } else {
      assert Split(s) == [s];
    }
  }

  lemma {:induction false} SafeIsPlain(name: string)
    requires SafeMember(name)
    ensures PlainPath(Split(name))
  {
    SafeMembersStayInside(name);
    SplitHasNoSlash(name);
  }

  lemma {:induction false} UnpackedIsTidy(ms: seq<Member>)
    requires forall i :: 0 <= i < |ms| ==> SafeMember(ms[i].name)
    ensures Tidy(Unpacked(ms)) && !Irregular(Unpacked(ms))
  {
    if ms != [] {
      var front, last := ms[..|ms| - 1], ms[|ms| - 1];
      UnpackedIsTidy(front);
      SafeIsPlain(last.name);
      PutIsTidy(Unpacked(front), Split(last.name), FileOf(last.blob));
      PutIsRegular(Unpacked(front), Split(last.name), FileOf(last.blob));
    }
  }

  /** What a walk of the unpacked tree finds below the distributed directories is exactly the covered members. */
  lemma {:induction false} UnpackedDistributes(ms: seq<Member>)
    requires WellStructured(Names(ms)) && PrefixFree(Names(ms))
    ensures Tidy(Unpacked(ms)) && (forall d :: d in DIST_DIRS ==> !Refusable(Unpacked(ms), d))
    ensures forall files :: Distributes(Unpacked(ms), files) <==> files == Dist(TreeOf(ms))
  {
    hide *;
    UnpackedIsWalkable(ms);
    StructuredIsDistinct(Names(ms));
    UnpackedFiles(ms);
    forall files | Distributes(Unpacked(ms), files) ensures files == Dist(TreeOf(ms)) {
      SameFiles(Unpacked(ms), files, Dist(TreeOf(ms)));
    }
  }

  lemma {:induction false} UnpackedIsWalkable(ms: seq<Member>)
    requires WellStructured(Names(ms)) && PrefixFree(Names(ms))
    ensures Tidy(Unpacked(ms)) && forall d :: d in DIST_DIRS ==> !Refusable(Unpacked(ms), d)
  {
    hide *;
    StructuredIsSafe(ms);
    UnpackedIsTidy(ms);
    forall d | d in DIST_DIRS ensures !Refusable(Unpacked(ms), d) {
      DirsAreDirectories(ms, d);
    }
  }

  lemma {:induction false} StructuredIsSafe(ms: seq<Member>)
    requires WellStructured(Names(ms))
    ensures forall i :: 0 <= i < |ms| ==> SafeMember(ms[i].name)
  {
    hide SafeMember, Covered, Distinct;
    forall i | 0 <= i < |ms| ensures SafeMember(ms[i].name) {
      assert Names(ms)[i] == ms[i].name;
    }
  }

  lemma {:induction false} UnpackedFiles(ms: seq<Member>)
    requires Distinct(Names(ms)) && PrefixFree(Names(ms))
    ensures Distributes(Unpacked(ms), Dist(TreeOf(ms)))
  {
    var tree, files := TreeOf(ms), Dist(TreeOf(ms));
    forall name, b ensures (name in files && files[name] == b) <==> StandsFor(Unpacked(ms), Member(name, b)) {
      UnpackedHolds(ms, name);
      hide Covered, Split, TreeOf, Unpacked, Lookup, Distinct, PrefixFree;
      FileBlob(Unpacked(ms), Split(name), b);
    }
    hide *;
  }

  lemma {:induction false} FileBlob(repo: seq<Entry>, p: Path, b: Blob)
    ensures Lookup(repo, p) == Some(FileOf(b)) <==> FileAt(repo, p) == Some(FileOf(b))
  {
  }

  /** A repository distributes one file map. */
  lemma {:induction false} SameFiles(repo: seq<Entry>, a: FileMap, b: FileMap)
    requires Distributes(repo, a) && Distributes(repo, b)
    ensures a == b
  {
    hide StandsFor;
    forall k | k in a ensures k in b && b[k] == a[k] {
      assert StandsFor(repo, Member(k, a[k]));
    }
    forall k | k in b ensures k in a {
      assert StandsFor(repo, Member(k, b[k]));
    }
  }

  lemma {:induction false} DirsAreDirectories(ms: seq<Member>, d: string)
    requires WellStructured(Names(ms)) && PrefixFree(Names(ms)) && d in DIST_DIRS && !Irregular(Unpacked(ms))
    ensures !Refusable(Unpacked(ms), d)
  {
    DirsArePlain(d);
    SplitWhole(d);
    RegularEntry(Unpacked(ms), d);
    UnpackedHolds(ms, d);
    TopLevelIsNotCovered(d);
    TreeHolds(ms);
    hide Covered, SafeMember, Irregular, Lookup;
    if d in TreeOf(ms) {
      var i :| 0 <= i < |ms| && ms[i] == Member(d, TreeOf(ms)[d]);
      assert Names(ms)[i] == d;
      DirsAreNotMetadata(d);
    }
  }

  lemma {:induction false} DirsAreNotMetadata(d: string)
    requires d in DIST_DIRS
    ensures d != ARTIFACT_METADATA
  {
    assert DIST_DIRS[0] == "drivers" && DIST_DIRS[1] == "knowledge" && DIST_DIRS[2] == "policy";
    assert |d| < |ARTIFACT_METADATA|;
  }

  /** Files are written in member order; a name that is another's directory, either way round, cannot be. */
  method Extract(ms: seq<Member>) returns (tree: Option<seq<Entry>>)
    ensures tree.Some? <==> PrefixFree(Names(ms))
    ensures tree.Some? ==> tree.value == Unpacked(ms)
  {
    hide Split, Put;
    var root: seq<Entry> := [];
    var names := Names(ms);
    for i := 0 to |ms|
      invariant root == Unpacked(ms[..i])
      invariant forall j, k :: 0 <= j < i && 0 <= k < i ==> !Blocks(names[j], names[k])
    {
      var m := ms[i];
      assert ms[..i + 1][..i] == ms[..i] && ms[..i + 1][i] == m;
      for j := 0 to i
        invariant forall k :: 0 <= k < j ==> !Blocks(names[k], names[i]) && !Blocks(names[i], names[k])
      {
        if Blocks(ms[j].name, m.name) || Blocks(m.name, ms[j].name) {
          assert names[j] == ms[j].name && names[i] == m.name;
          return None;
        }
      }
      root := Put(root, Split(m.name), FileOf(m.blob));
    }
    assert ms[..|ms|] == ms;
    tree := Some(root);
  }

  /** The entries of the covered ones among the first `n` members, each once. */
  ghost predicate Listed(c: Crypto, ms: seq<Member>, n: nat, list: seq<seq<string>>)
    requires n <= |ms|
  {
    && Distinct(list)
    && (forall e :: e in list ==> exists j :: 0 <= j < n && Covered(ms[j].name) && e == EntryOf(c, ms[j].name, ms[j].blob))
    && (forall j :: 0 <= j < n && Covered(ms[j].name) ==> EntryOf(c, ms[j].name, ms[j].blob) in list)
  }

  /** The entries of what was read, in order. */
  method SortedEntries(c: Crypto, ms: seq<Member>) returns (m: seq<seq<string>>)
    requires Distinct(Names(ms))
    ensures Manifests(c, m, Dist(TreeOf(ms)))
  {
    var list: seq<seq<string>> := [];
    for i := 0 to |ms|
      invariant Listed(c, ms, i, list)
    {
      hide Listed, Covered, EntryOf;
      ListGrows(c, ms, i, list);
      if Covered(ms[i].name) {
        list := list + [EntryOf(c, ms[i].name, ms[i].blob)];
      }
    }
    ListIsManifest(c, ms, list);
    m := Sort(ListLess, list);
  }

  lemma {:induction false} EntriesDiffer(c: Crypto, ms: seq<Member>, i: nat, j: nat)
    requires j < i < |ms| && Distinct(Names(ms))
    ensures EntryOf(c, ms[j].name, ms[j].blob) != EntryOf(c, ms[i].name, ms[i].blob)
  {
    assert Names(ms)[j] != Names(ms)[i];
    assert EntryOf(c, ms[j].name, ms[j].blob)[0] == ms[j].name && EntryOf(c, ms[i].name, ms[i].blob)[0] == ms[i].name;
  }

  lemma {:induction false} ListGrows(c: Crypto, ms: seq<Member>, i: nat, list: seq<seq<string>>)
    requires i < |ms| && Distinct(Names(ms)) && Listed(c, ms, i, list)
    ensures Listed(c, ms, i + 1, if Covered(ms[i].name) then list + [EntryOf(c, ms[i].name, ms[i].blob)] else list)
  {
    forall j | 0 <= j < i ensures EntryOf(c, ms[j].name, ms[j].blob) != EntryOf(c, ms[i].name, ms[i].blob) {
      EntriesDiffer(c, ms, i, j);
    }
    hide Covered, EntryOf;
    var e := EntryOf(c, ms[i].name, ms[i].blob);
    if Covered(ms[i].name) {
      var more := list + [e];
      forall x | x in more ensures exists j :: 0 <= j < i + 1 && Covered(ms[j].name) && x == EntryOf(c, ms[j].name, ms[j].blob) {
        if x in list {
          var j :| 0 <= j < i && Covered(ms[j].name) && x == EntryOf(c, ms[j].name, ms[j].blob);
        }
      }
      assert more[|list|] == e && forall k :: 0 <= k < |list| ==> more[k] == list[k];
      assert forall x :: x in list ==> x in more;
      forall k | 0 <= k < |list| ensures list[k] != e {
        assert list[k] in list;
      }
    }
  }

  lemma {:induction false} ListIsManifest(c: Crypto, ms: seq<Member>, list: seq<seq<string>>)
    requires Distinct(Names(ms)) && Listed(c, ms, |ms|, list)
    ensures Manifests(c, Sort(ListLess, list), Dist(TreeOf(ms)))
  {
    SortedStays(list);
    hide Covered, EntryOf, Sort, TreeOf, Sorted;
    var m, files := Sort(ListLess, list), Dist(TreeOf(ms));
    forall name | name in files ensures EntryOf(c, name, files[name]) in m {
      TreeHolds(ms);
      var i :| 0 <= i < |ms| && ms[i] == Member(name, files[name]);
      assert EntryOf(c, ms[i].name, ms[i].blob) in list;
    }
    forall e | e in m ensures |e| == 3 && e[0] in files && e == EntryOf(c, e[0], files[e[0]]) {
      var j :| 0 <= j < |ms| && Covered(ms[j].name) && e == EntryOf(c, ms[j].name, ms[j].blob);
      EntryIs(c, ms[j].name, ms[j].blob);
      TreeAt(ms, j);
    }
  }

  lemma {:induction false} EntryIs(c: Crypto, name: string, b: Blob)
    ensures |EntryOf(c, name, b)| == 3 && EntryOf(c, name, b)[0] == name
  {
  }

  /** Sorting keeps the elements and their distinctness. */
  lemma {:induction false} SortedStays(list: seq<seq<string>>)
    requires Distinct(list)
    ensures Sorted(ListLess, Sort(ListLess, list)) && Distinct(Sort(ListLess, list))
    ensures forall e :: e in Sort(ListLess, list) <==> e in list
  {
    var m := Sort(ListLess, list);
    ListOrderIsTotal();
    SortSorts(ListLess, list);
    SortHolds(ListLess, list);
    forall e: seq<string> ensures e in m <==> e in list {
      assert e in multiset(m) <==> e in multiset(list);
    }
    forall i, j | 0 <= i < j < |m| ensures m[i] != m[j] {
      DistinctCount(list, m[i]);
      if m[i] == m[j] {
        CountTwice(m, i, j);
      }
    }
  }

  lemma {:induction false} CountTwice<T>(s: seq<T>, i: nat, j: nat)
    requires i < j < |s| && s[i] == s[j]
    ensures multiset(s)[s[i]] >= 2
  {
    assert s == s[..j] + s[j..];
    assert s[..j][i] == s[i] && s[j..][0] == s[i];
    assert s[i] in multiset(s[..j]) && s[i] in multiset(s[j..]);
  }

  // ---- verification ----

  /** What makes an archive publishable under a hash. */
  ghost predicate Accepts(c: Crypto, ms: seq<Member>, h: string) {
    && WellStructured(Names(ms)) && PrefixFree(Names(ms))
    && ARTIFACT_METADATA in TreeOf(ms) && c.declared(TreeOf(ms)[ARTIFACT_METADATA].bytes) == Some(h)
    && exists m :: Manifests(c, m, Dist(TreeOf(ms))) && h == HashOf(c, m)
  }

  /** The manifest of what was unpacked, by walking it. */
  method Recompute(c: Crypto, root: seq<Entry>, ghost ms: seq<Member>) returns (m: seq<seq<string>>)
    requires WellStructured(Names(ms)) && PrefixFree(Names(ms)) && root == Unpacked(ms)
    ensures Manifests(c, m, Dist(TreeOf(ms)))
  {
    UnpackedDistributes(ms);
    hide WellStructured, PrefixFree, Manifests, Dist, TreeOf, Distributes, Refusable, Tidy, Unpacked;
    ghost var files: FileMap;
    var walked: Result<seq<seq<string>>, Refusal>;
    walked, files := DistManifest(c, root);
    m := walked.value;
  }

  /** Structure, unpacking, recomputed hash, and only then the metadata, which must name that hash. */
  method Verify(c: Crypto, ms: seq<Member>) returns (r: Result<string, Flaw>)
    ensures r.Ok? ==> Accepts(c, ms, r.value)
    ensures r.Err? ==> forall h :: !Accepts(c, ms, h)
    ensures r.Err? && WellStructured(Names(ms)) ==> r.error == if PrefixFree(Names(ms)) then BadMetadata else Conflict
  {
    hide WellStructured, PrefixFree, Manifests, Dist, TreeOf, HashOf;
    var flaw := StructureError(Names(ms));
    if flaw.Some? {
      return Err(flaw.value);
    }
    StructuredIsDistinct(Names(ms));
    var tree := Extract(ms);
    if tree.None? {
      return Err(Conflict);
    }
    var m := Recompute(c, tree.value, ms);
    MetadataIsThere(ms);
    MetadataIsUnpacked(ms);
    var metadata := Lookup(tree.value, [ARTIFACT_METADATA]).value;
    if c.declared(metadata.bytes) != Some(HashOf(c, m)) {
      forall h ensures !Accepts(c, ms, h) {
        forall n | Manifests(c, n, Dist(TreeOf(ms))) ensures n == m {
          ManifestIsUnique(c, n, m, Dist(TreeOf(ms)));
        }
      }
      return Err(BadMetadata);
    }
    r := Ok(HashOf(c, m));
  }

  lemma {:induction false} StructuredIsDistinct(names: seq<string>)
    requires WellStructured(names)
    ensures Distinct(names) && ARTIFACT_METADATA in names
  {
  }

  lemma {:induction false} MetadataIsThere(ms: seq<Member>)
    requires Distinct(Names(ms)) && ARTIFACT_METADATA in Names(ms)
    ensures ARTIFACT_METADATA in TreeOf(ms)
  {
    TreeHolds(ms);
    var i :| 0 <= i < |ms| && Names(ms)[i] == ARTIFACT_METADATA;
    assert ms[i] in ms;
  }

  lemma {:induction false} MetadataIsUnpacked(ms: seq<Member>)
    requires Distinct(Names(ms)) && PrefixFree(Names(ms)) && ARTIFACT_METADATA in TreeOf(ms)
    ensures Lookup(Unpacked(ms), [ARTIFACT_METADATA]) == Some(FileOf(TreeOf(ms)[ARTIFACT_METADATA]))
  {
    MetadataName();
    SplitWhole(ARTIFACT_METADATA);
    UnpackedHolds(ms, ARTIFACT_METADATA);
  }

  lemma {:induction false} TopLevelIsNotCovered(s: string)
    requires '/' !in s
    ensures !Covered(s)
  {
    UntilAt(s, "");
    assert Split(s) == [s];
  }

  lemma {:induction false} MetadataIsNotCovered()
    ensures !Covered(ARTIFACT_METADATA)
  {
    MetadataName();
    hide Covered;
    TopLevelIsNotCovered(ARTIFACT_METADATA);
  }

  /**
   Nothing rides outside the hash: an accepted archive unpacks to exactly its
   members, and the manifest of a walk over the unpacked tree lists every one of
   them but the metadata, with its bytes and executable bit, and nothing else.
   */
  lemma {:induction false} NothingRidesOutside(c: Crypto, ms: seq<Member>, h: string, files: FileMap, m: seq<seq<string>>)
    requires Accepts(c, ms, h) && Distributes(Unpacked(ms), files) && Manifests(c, m, files)
    ensures h == HashOf(c, m) && Distinct(m)
    ensures forall x :: x in ms ==> x.name == ARTIFACT_METADATA || EntryOf(c, x.name, x.blob) in m
    ensures forall e :: e in m ==> exists x :: x in ms && x.name != ARTIFACT_METADATA && e == EntryOf(c, x.name, x.blob)
    ensures forall k :: FileAt(Unpacked(ms), Split(k)).Some? ==>
      exists x :: x in ms && x.name == k && FileAt(Unpacked(ms), Split(k)) == Some(FileOf(x.blob))
  {
    TreeHolds(ms);
    UnpackedDistributes(ms);
    MetadataIsNotCovered();
    forall k | FileAt(Unpacked(ms), Split(k)).Some?
      ensures exists x :: x in ms && x.name == k && FileAt(Unpacked(ms), Split(k)) == Some(FileOf(x.blob))
    {
      UnpackedHolds(ms, k);
      assert Member(k, TreeOf(ms)[k]) in ms;
    }
    hide Unpacked, Split, FileAt, Distributes;
    var n :| Manifests(c, n, Dist(TreeOf(ms))) && h == HashOf(c, n);
    ManifestIsUnique(c, m, n, Dist(TreeOf(ms)));
    hide Covered, SafeMember;
    forall x | x in ms && x.name != ARTIFACT_METADATA ensures EntryOf(c, x.name, x.blob) in m {
      var i :| 0 <= i < |ms| && ms[i] == x;
      assert Names(ms)[i] == x.name;
      assert x.name in Dist(TreeOf(ms)) && Dist(TreeOf(ms))[x.name] == x.blob;
    }
    forall e | e in m ensures exists x :: x in ms && x.name != ARTIFACT_METADATA && e == EntryOf(c, x.name, x.blob) {
      var x := Member(e[0], TreeOf(ms)[e[0]]);
      assert x in ms;
    }
  }

  /** Two accepted archives with equal hashes unpack to equal distributed trees. */
  lemma {:induction false} EqualHashEqualTree(c: Crypto, a: seq<Member>, b: seq<Member>, h: string)
    requires Good(c) && Accepts(c, a, h) && Accepts(c, b, h)
    ensures Dist(TreeOf(a)) == Dist(TreeOf(b))
  {
    var m :| Manifests(c, m, Dist(TreeOf(a))) && h == HashOf(c, m);
    var n :| Manifests(c, n, Dist(TreeOf(b))) && h == HashOf(c, n);
    HashDeterminesTree(c, m, n, Dist(TreeOf(a)), Dist(TreeOf(b)));
  }

  // ---- packing ----

  /** A tree the walk can produce: covered names, none of them another's directory. */
  ghost predicate Packable(files: FileMap) {
    (forall k :: k in files ==> Covered(k)) && (forall k, l :: k in files && l in files ==> !Blocks(k, l))
  }

  /** The members in manifest order, then the metadata. */
  method BuildArtifact(c: Crypto, files: FileMap, m: seq<seq<string>>) returns (r: Result<seq<Member>, Flaw>)
    requires Good(c) && Packable(files) && Manifests(c, m, files) && m != []
    ensures r.Ok? <==> forall k :: k in files ==> SafeMember(k)
    ensures r.Ok? ==> Accepts(c, r.value, HashOf(c, m)) && Dist(TreeOf(r.value)) == files
  {
    hide Covered, SafeMember, HashOf, TreeOf, Accepts, Dist;
    var members := Snapshot(c, files, m);
    var meta := Member(ARTIFACT_METADATA, Blob(c.envelope(HashOf(c, m)), false));
    var archive := members + [meta];
    forall i | 0 <= i < |m| ensures m[i] != [] && m[i][0] in files {
      assert m[i] in m;
    }
    assert Packed(c, files, m, archive);
    PackedTree(c, files, m, archive);
    PackVerifiesIff(c, files, m, archive);
    var verdict := Verify(c, archive);
    r := if verdict.Ok? then Ok(archive) else Err(verdict.error);
  }

  method Snapshot(c: Crypto, files: FileMap, m: seq<seq<string>>) returns (members: seq<Member>)
    requires Manifests(c, m, files)
    ensures |members| == |m|
    ensures forall i :: 0 <= i < |m| ==> m[i] != [] && m[i][0] in files && members[i] == Member(m[i][0], files[m[i][0]])
  {
    members := [];
    for i := 0 to |m|
      invariant |members| == i
      invariant forall j :: 0 <= j < i ==> m[j] != [] && m[j][0] in files && members[j] == Member(m[j][0], files[m[j][0]])
    {
      ManifestEntry(c, files, m, i);
      hide Manifests;
      members := members + [Member(m[i][0], Blob(files[m[i][0]].bytes, m[i][2] == "755"))];
    }
  }

  lemma {:induction false} ManifestEntry(c: Crypto, files: FileMap, m: seq<seq<string>>, i: nat)
    requires Manifests(c, m, files) && i < |m|
    ensures |m[i]| == 3 && m[i][0] in files && (m[i][2] == "755" <==> files[m[i][0]].executable)
  {
    assert m[i] in m;
    assert "755"[0] != "644"[0];
  }

  /** The packed members: one per manifest entry, then the metadata. */
  ghost predicate Packed(c: Crypto, files: FileMap, m: seq<seq<string>>, ms: seq<Member>) {
    && |ms| == |m| + 1
    && (forall i :: 0 <= i < |m| ==> m[i] != [] && m[i][0] in files && ms[i] == Member(m[i][0], files[m[i][0]]))
    && ms[|m|] == Member(ARTIFACT_METADATA, Blob(c.envelope(HashOf(c, m)), false))
  }

  lemma {:induction false} PackedEntry(c: Crypto, files: FileMap, m: seq<seq<string>>, ms: seq<Member>, i: nat)
    requires Manifests(c, m, files) && Packed(c, files, m, ms) && i < |m|
    ensures m[i] == EntryOf(c, m[i][0], files[m[i][0]]) && Names(ms)[i] == m[i][0]
  {
    assert m[i] in m;
  }

  lemma {:induction false} PackedDiffer(c: Crypto, files: FileMap, m: seq<seq<string>>, ms: seq<Member>, i: nat, j: nat)
    requires Manifests(c, m, files) && Packed(c, files, m, ms) && ARTIFACT_METADATA !in files && i < j < |ms|
    ensures Names(ms)[i] != Names(ms)[j]
  {
    hide HashOf, Sorted;
    PackedEntry(c, files, m, ms, i);
    if j < |m| {
      PackedEntry(c, files, m, ms, j);
      assert m[i] != m[j];
      hide Manifests, Packed;
    } else {
      hide Manifests;
      assert Names(ms)[j] == ms[|m|].name;
    }
  }

  lemma {:induction false} PackedHas(c: Crypto, files: FileMap, m: seq<seq<string>>, ms: seq<Member>, k: string) returns (i: nat)
    requires Manifests(c, m, files) && Packed(c, files, m, ms) && k in files
    ensures i < |m| && ms[i] == Member(k, files[k]) && Names(ms)[i] == k
  {
    i :| 0 <= i < |m| && m[i] == EntryOf(c, k, files[k]);
    assert m[i][0] == k;
  }

  lemma {:induction false} PackedNames(c: Crypto, files: FileMap, m: seq<seq<string>>, ms: seq<Member>)
    requires Manifests(c, m, files) && Packed(c, files, m, ms) && ARTIFACT_METADATA !in files
    ensures Distinct(Names(ms))
    ensures forall n :: n in Names(ms) <==> n in files || n == ARTIFACT_METADATA
  {
    hide Manifests, Packed;
    forall i, j | 0 <= i < j < |ms| ensures Names(ms)[i] != Names(ms)[j] {
      PackedDiffer(c, files, m, ms, i, j);
    }
    forall n ensures n in Names(ms) <==> n in files || n == ARTIFACT_METADATA {
      PackedName(c, files, m, ms, n);
    }
  }

  lemma {:induction false} PackedName(c: Crypto, files: FileMap, m: seq<seq<string>>, ms: seq<Member>, n: string)
    requires Manifests(c, m, files) && Packed(c, files, m, ms)
    ensures n in Names(ms) <==> n in files || n == ARTIFACT_METADATA
  {
    if n in files {
      var i := PackedHas(c, files, m, ms, n);
    }
    NamedByParts(files, m, ms, ARTIFACT_METADATA, n);
  }

  lemma {:induction false} NamedByParts(files: FileMap, m: seq<seq<string>>, ms: seq<Member>, meta: string, n: string)
    requires |ms| == |m| + 1 && ms[|m|].name == meta
    requires forall i :: 0 <= i < |m| ==> ms[i].name in files
    ensures n in Names(ms) ==> n in files || n == meta
    ensures meta in Names(ms)
  {
    var names := Names(ms);
    assert names[|m|] == meta;
    if n in names {
      var i :| 0 <= i < |names| && names[i] == n;
      assert i < |m| ==> ms[i].name == n;
    }
  }

  lemma {:induction false} PackedTree(c: Crypto, files: FileMap, m: seq<seq<string>>, ms: seq<Member>)
    requires Manifests(c, m, files) && Packed(c, files, m, ms) && Packable(files)
    ensures ARTIFACT_METADATA in TreeOf(ms) && TreeOf(ms)[ARTIFACT_METADATA] == ms[|m|].blob
    ensures Dist(TreeOf(ms)) == files
  {
    MetadataIsNotCovered();
    PackedNames(c, files, m, ms);
    TreeAt(ms, |m|);
    forall k | k in files ensures Member(k, files[k]) in ms {
      var i := PackedHas(c, files, m, ms, k);
    }
    hide Covered, HashOf, TreeOf, Manifests, Distinct, Dist;
    PackedIsAll(files, ms, ARTIFACT_METADATA);
  }

  lemma {:induction false} PackedIsAll(files: FileMap, ms: seq<Member>, meta: string)
    requires Distinct(Names(ms)) && Packable(files) && !Covered(meta)
    requires forall k :: k in files ==> Member(k, files[k]) in ms
    requires forall n :: n in Names(ms) ==> n in files || n == meta
    ensures Dist(TreeOf(ms)) == files
  {
    TreeHolds(ms);
    hide Covered, TreeOf, Distinct, Blocks;
    var tree := TreeOf(ms);
    forall k | k in files ensures k in tree && tree[k] == files[k] {
      assert Member(k, files[k]).name == k;
    }
    forall k | k in tree ensures k in files || k == meta {
      MemberIsNamed(ms, Member(k, tree[k]));
    }
    assert Dist(tree).Keys == files.Keys;
  }

  lemma {:induction false} MemberIsNamed(ms: seq<Member>, m: Member)
    requires m in ms
    ensures m.name in Names(ms)
  {
    var i :| 0 <= i < |ms| && ms[i] == m;
    assert Names(ms)[i] == m.name;
  }

  lemma {:induction false} TreeAt(ms: seq<Member>, i: nat)
    requires Distinct(Names(ms)) && i < |ms|
    ensures ms[i].name in TreeOf(ms) && TreeOf(ms)[ms[i].name] == ms[i].blob
  {
    TreeHolds(ms);
    assert ms[i] in ms;
  }

  /** Pack and verify undo each other exactly when every name is a safe member name. */
  lemma {:induction false} PackVerifiesIff(c: Crypto, files: FileMap, m: seq<seq<string>>, ms: seq<Member>)
    requires Good(c) && Packable(files) && Manifests(c, m, files) && Packed(c, files, m, ms)
    ensures Accepts(c, ms, HashOf(c, m)) <==> forall k :: k in files ==> SafeMember(k)
    ensures forall h :: Accepts(c, ms, h) ==> h == HashOf(c, m)
  {
    MetadataIsNotCovered();
    PackedNames(c, files, m, ms);
    PackedTree(c, files, m, ms);
    PackedIsPrefixFree(files, Names(ms));
    PackedIsStructured(files, Names(ms));
    hide WellStructured, PrefixFree, TreeOf, HashOf, Dist, SafeMember, Packed;
    assert c.declared(TreeOf(ms)[ARTIFACT_METADATA].bytes) == Some(HashOf(c, m));
  }

  lemma {:induction false} PackedIsPrefixFree(files: FileMap, names: seq<string>)
    requires Packable(files) && forall n :: n in names ==> n in files || n == ARTIFACT_METADATA
    ensures PrefixFree(names)
  {
    forall i, j | 0 <= i < |names| && 0 <= j < |names| ensures !Blocks(names[i], names[j]) {
      assert names[i] in names && names[j] in names;
      MetadataBlocksNothing(names[i]);
      MetadataBlocksNothing(names[j]);
      hide Covered, Blocks;
    }
  }

  lemma {:induction false} PackedIsStructured(files: FileMap, names: seq<string>)
    requires Distinct(names) && Packable(files) && ARTIFACT_METADATA !in files
    requires forall n :: n in names <==> n in files || n == ARTIFACT_METADATA
    ensures WellStructured(names) <==> forall k :: k in files ==> SafeMember(k)
  {
    hide Covered, SafeMember, Distinct, Blocks;
    MetadataIsSafe();
    NamedInOrOut(files, names, ARTIFACT_METADATA);
    assert ARTIFACT_METADATA in names;
  }

  lemma {:induction false} MetadataIsSafe()
    ensures SafeMember(ARTIFACT_METADATA)
  {
    MetadataName();
    hide SafeMember;
    PlainIsSafe(ARTIFACT_METADATA);
  }

  lemma {:induction false} NamedInOrOut(files: FileMap, names: seq<string>, meta: string)
    requires forall k :: k in files ==> Covered(k)
    requires forall n :: n in names <==> n in files || n == meta
    requires SafeMember(meta)
    ensures (forall i :: 0 <= i < |names| ==> SafeMember(names[i]) && (names[i] == meta || Covered(names[i])))
       <==> forall k :: k in files ==> SafeMember(k)
  {
    hide Covered, SafeMember;
    forall i | 0 <= i < |names| ensures names[i] in files || names[i] == meta {
      assert names[i] in names;
    }
    forall k | k in files ensures exists i :: 0 <= i < |names| && names[i] == k {
      assert k in names;
    }
  }

  lemma {:induction false} MetadataName()
    ensures |ARTIFACT_METADATA| == 16 && ARTIFACT_METADATA[1] == 'o'
    ensures '/' !in ARTIFACT_METADATA && '\\' !in ARTIFACT_METADATA
  {
  }

  lemma {:induction false} UnslashedStays(s: string)
    requires '\\' !in s
    ensures Slashed(s) == s
  {
    if s != "" {
      UnslashedStays(s[1..]);
      assert s == [s[0]] + s[1..];
    }
  }

  lemma {:induction false} PlainIsSafe(s: string)
    requires |s| > 2 && '/' !in s && '\\' !in s && s[1] != ':'
    ensures SafeMember(s)
  {
    UnslashedStays(s);
    UntilAt(s, "");
    assert Split(s) == [s];
  }

  lemma {:induction false} MetadataBlocksNothing(k: string)
    requires Covered(k) || k == ARTIFACT_METADATA
    ensures !Blocks(ARTIFACT_METADATA, k) && !Blocks(k, ARTIFACT_METADATA)
  {
    MetadataName();
    BlockedStartsWith(ARTIFACT_METADATA, k);
    BlockedHasSlash(ARTIFACT_METADATA, k);
    BlockedHasSlash(k, ARTIFACT_METADATA);
  }

  lemma {:induction false} BlockedHasSlash(a: string, k: string)
    ensures Blocks(a, k) ==> '/' in k
  {
    if Blocks(a, k) {
      assert (a + "/")[|a|] == k[|a|];
    }
  }

  lemma {:induction false} BlockedStartsWith(a: string, k: string)
    requires '/' !in a
    ensures Blocks(a, k) ==> Split(k)[0] == a
  {
    if Blocks(a, k) {
      var rest := k[|a| + 1..];
      assert k == a + "/" + rest;
      UntilAt(a, rest);
    }
  }

  /** A covered name is safe as soon as no component holds a backslash. */
  lemma {:induction false} NoBackslashIsSafe(k: string)
    requires Covered(k) && '\\' !in k && AllHarmless(Split(k))
    ensures SafeMember(k)
  {
    UnslashedStays(k);
    CoveredStarts(k);
  }

  lemma {:induction false} CoveredStarts(k: string)
    requires Covered(k)
    ensures |k| >= 2 && k[0] in "dkp" && k[1] in "rno"
  {
    var n := Until(k, '/');
    assert Split(k)[0] == k[..n];
    assert DIST_DIRS[0] == "drivers" && DIST_DIRS[1] == "knowledge" && DIST_DIRS[2] == "policy";
    assert k[..n][0] == k[0] && k[..n][1] == k[1];
  }

  // ---- from a directory tree to its manifest ----

  /** The file a member stands for, where its name says. */
  predicate StandsFor(repo: seq<Entry>, m: Member) {
    Covered(m.name) && Lookup(repo, Split(m.name)) == Some(File(m.blob.bytes, m.blob.executable))
  }

  /** The members are exactly the covered files below one distributed directory, each once. */
  ghost predicate Subtree(repo: seq<Entry>, dir: string, ms: seq<Member>) {
    && Distinct(Names(ms))
    && (forall m :: m in ms ==> StandsFor(repo, m) && Split(m.name)[0] == dir)
    && (forall m :: StandsFor(repo, m) && Split(m.name)[0] == dir ==> m in ms)
  }

  function Listing(repo: seq<Entry>, dir: string): seq<Entry> {
    var root := Lookup(repo, [dir]);
    if root.Some? && root.value.Dir? then root.value.entries else []
  }

  predicate Refusable(repo: seq<Entry>, dir: string) {
    Lookup(repo, [dir]).Some? && (!Lookup(repo, [dir]).value.Dir? || Irregular(Listing(repo, dir)))
  }

  function MemberOf(dir: string, f: Found): Member
    requires f.1.File?
  {
    Member(Join([dir] + f.0), Blob(f.1.bytes, f.1.executable))
  }

  lemma {:induction false} ListingIsTidy(repo: seq<Entry>, dir: string)
    requires Tidy(repo)
    ensures Tidy(Listing(repo, dir))
    ensures forall p: Path :: p != [] ==> Lookup(repo, [dir] + p) == Lookup(Listing(repo, dir), p)
  {
    if repo != [] {
      ListingIsTidy(repo[1..], dir);
      forall p: Path | p != [] ensures Lookup(repo, [dir] + p) == Lookup(Listing(repo, dir), p) {
        assert ([dir] + p)[0] == dir && ([dir] + p)[1..] == p;
      }
    }
  }

  lemma {:induction false} DirsArePlain(dir: string)
    requires dir in DIST_DIRS
    ensures PlainName(dir) && !Excluded(dir)
  {
    assert DIST_DIRS[0] == "drivers" && DIST_DIRS[1] == "knowledge" && DIST_DIRS[2] == "policy";
  }

  lemma {:induction false} FoundStandsFor(repo: seq<Entry>, dir: string, f: Found)
    requires Tidy(repo) && dir in DIST_DIRS && f in FilesIn(Listing(repo, dir), [])
    ensures f.1.File? && StandsFor(repo, MemberOf(dir, f)) && Split(MemberOf(dir, f).name) == [dir] + f.0
  {
    ListingIsTidy(repo, dir);
    DirsArePlain(dir);
    FoundIsThere(Listing(repo, dir), [], f);
    assert f.0[0..] == f.0;
    var path := [dir] + f.0;
    hide Lookup, Split, Join, FilesIn, Tidy;
    assert forall i :: 1 <= i < |path| ==> path[i] == f.0[i - 1];
    SplitJoin(path);
  }

  lemma {:induction false} StandsForIsFound(repo: seq<Entry>, dir: string, m: Member) returns (f: Found)
    requires Tidy(repo) && StandsFor(repo, m) && Split(m.name)[0] == dir
    ensures f in FilesIn(Listing(repo, dir), []) && f.1.File? && MemberOf(dir, f) == m
  {
    var p := Split(m.name)[1..];
    f := (p, File(m.blob.bytes, m.blob.executable));
    ListingIsTidy(repo, dir);
    JoinSplit(m.name);
    assert [dir] + p == Split(m.name);
    hide Split, Join, FilesIn, Tidy;
    assert Lookup(Listing(repo, dir), p) == Some(f.1);
    assert forall i :: 0 <= i < |p| ==> p[i] == Split(m.name)[i + 1];
    ThereIsFound(Listing(repo, dir), [], p);
    assert [] + p == p;
  }

  lemma {:induction false} FoundAreDistinct(repo: seq<Entry>, dir: string, found: seq<Found>)
    requires Tidy(repo) && dir in DIST_DIRS && multiset(found) == multiset(FilesIn(Listing(repo, dir), []))
    ensures forall f :: f in found <==> f in FilesIn(Listing(repo, dir), [])
    ensures forall i, j :: 0 <= i < j < |found| ==> found[i] != found[j]
  {
    var all := FilesIn(Listing(repo, dir), []);
    ListingIsTidy(repo, dir);
    FoundOnce(Listing(repo, dir), []);
    hide FilesIn, Listing, Tidy;
    forall f: Found ensures f in found <==> f in all {
      assert f in multiset(found) <==> f in multiset(all);
    }
    forall i, j | 0 <= i < j < |found| ensures found[i] != found[j] {
      DistinctCount(all, found[i]);
      if found[i] == found[j] {
        CountTwice(found, i, j);
      }
    }
  }

  lemma {:induction false} NamesDiffer(repo: seq<Entry>, dir: string, f: Found, g: Found)
    requires Tidy(repo) && dir in DIST_DIRS && f != g
    requires f in FilesIn(Listing(repo, dir), []) && g in FilesIn(Listing(repo, dir), [])
    ensures f.1.File? && g.1.File? && MemberOf(dir, f).name != MemberOf(dir, g).name
  {
    FoundStandsFor(repo, dir, f);
    FoundStandsFor(repo, dir, g);
    hide FilesIn, Split, Join, Lookup, Tidy;
    assert ([dir] + f.0)[1..] == f.0 && ([dir] + g.0)[1..] == g.0;
  }

  /** One distributed directory, walked and read. */
  method WalkSubtree(repo: seq<Entry>, dir: string) returns (r: Result<seq<Member>, Refusal>)
    requires Tidy(repo) && dir in DIST_DIRS
    ensures r.Ok? ==> Subtree(repo, dir, r.value)
    ensures r.Err? <==> Refusable(repo, dir)
  {
    hide FilesIn, Lookup, Tidy, Split, Join, Sorted, Irregular;
    var found := RegularFiles(Lookup(repo, [dir]), true);
    if found.Err? {
      return Err(found.error);
    }
    var ms := ReadFiles(repo, dir, found.value);
    r := Ok(ms);
  }

  method ReadFiles(repo: seq<Entry>, dir: string, found: seq<Found>) returns (ms: seq<Member>)
    requires Tidy(repo) && dir in DIST_DIRS && multiset(found) == multiset(FilesIn(Listing(repo, dir), []))
    ensures Subtree(repo, dir, ms)
  {
    hide FilesIn, Listing, Lookup, Tidy, Split, Join, Subtree;
    FoundAreDistinct(repo, dir, found);
    ms := [];
    for i := 0 to |found|
      invariant |ms| == i
      invariant forall j :: 0 <= j < i ==> found[j].1.File? && ms[j] == MemberOf(dir, found[j])
    {
      FoundStandsFor(repo, dir, found[i]);
      ms := ms + [MemberOf(dir, found[i])];
    }
    MembersAreSubtree(repo, dir, found, ms);
  }

  lemma {:induction false} MembersAreSubtree(repo: seq<Entry>, dir: string, found: seq<Found>, ms: seq<Member>)
    requires Tidy(repo) && dir in DIST_DIRS && |ms| == |found|
    requires forall j :: 0 <= j < |ms| ==> found[j].1.File? && ms[j] == MemberOf(dir, found[j])
    requires forall f :: f in found <==> f in FilesIn(Listing(repo, dir), [])
    requires forall i, j :: 0 <= i < j < |found| ==> found[i] != found[j]
    ensures Subtree(repo, dir, ms)
  {
    hide FilesIn, Lookup, Tidy, Split, Join, StandsFor;
    forall i, j | 0 <= i < j < |ms| ensures Names(ms)[i] != Names(ms)[j] {
      assert found[i] in found && found[j] in found;
      NamesDiffer(repo, dir, found[i], found[j]);
    }
    forall m | m in ms ensures StandsFor(repo, m) && Split(m.name)[0] == dir {
      var j :| 0 <= j < |ms| && ms[j] == m;
      assert found[j] in found;
      FoundStandsFor(repo, dir, found[j]);
    }
    forall m | StandsFor(repo, m) && Split(m.name)[0] == dir ensures m in ms {
      var f := StandsForIsFound(repo, dir, m);
      var j :| 0 <= j < |found| && found[j] == f;
      assert ms[j] == m;
    }
  }

  /** The distributed file map of a repository: every covered file, and nothing else. */
  ghost predicate Distributes(repo: seq<Entry>, files: FileMap) {
    forall name, b :: (name in files && files[name] == b) <==> StandsFor(repo, Member(name, b))
  }

  /** The manifest of a repository, in whatever order its directories are read; refused exactly when something irregular is distributed. */
  method DistManifest(c: Crypto, repo: seq<Entry>) returns (r: Result<seq<seq<string>>, Refusal>, ghost files: FileMap)
    requires Tidy(repo)
    ensures r.Ok? ==> Manifests(c, r.value, files) && Distributes(repo, files)
    ensures r.Err? <==> exists d :: d in DIST_DIRS && Refusable(repo, d)
  {
    var ms: seq<Member> := [];
    files := map[];
    for i := 0 to |DIST_DIRS|
      invariant Walked(repo, DIST_DIRS[..i], ms)
      invariant forall d :: d in DIST_DIRS[..i] ==> !Refusable(repo, d)
    {
      hide Subtree, Walked, Refusable, Tidy;
      assert DIST_DIRS[i] in DIST_DIRS && DIST_DIRS[..i + 1] == DIST_DIRS[..i] + [DIST_DIRS[i]];
      var sub := WalkSubtree(repo, DIST_DIRS[i]);
      if sub.Err? {
        return Err(sub.error), map[];
      }
      DirIsNew(i);
      WalkGrows(repo, DIST_DIRS[..i], DIST_DIRS[i], ms, sub.value);
      ms := ms + sub.value;
    }
    assert DIST_DIRS[..|DIST_DIRS|] == DIST_DIRS;
    var m := SortedEntries(c, ms);
    files := Dist(TreeOf(ms));
    WalkedDistributes(repo, ms);
    r := Ok(m);
  }

  lemma {:induction false} DirIsNew(i: nat)
    requires i < |DIST_DIRS|
    ensures DIST_DIRS[i] !in DIST_DIRS[..i]
  {
    assert |DIST_DIRS[0]| == 7 && |DIST_DIRS[1]| == 9 && |DIST_DIRS[2]| == 6;
  }

  ghost predicate Walked(repo: seq<Entry>, dirs: seq<string>, ms: seq<Member>) {
    && Distinct(Names(ms))
    && (forall m :: m in ms ==> StandsFor(repo, m) && Split(m.name)[0] in dirs)
    && (forall m :: StandsFor(repo, m) && Split(m.name)[0] in dirs ==> m in ms)
  }

  lemma {:induction false} WalkGrows(repo: seq<Entry>, dirs: seq<string>, dir: string, ms: seq<Member>, sub: seq<Member>)
    requires Walked(repo, dirs, ms) && Subtree(repo, dir, sub) && dir !in dirs
    ensures Walked(repo, dirs + [dir], ms + sub)
  {
    hide StandsFor, Split;
    var all := ms + sub;
    forall i, j | 0 <= i < j < |all| ensures Names(all)[i] != Names(all)[j] {
      if j < |ms| {
        assert Names(ms)[i] == Names(all)[i] && Names(ms)[j] == Names(all)[j];
      } else if i >= |ms| {
        assert Names(sub)[i - |ms|] == Names(all)[i] && Names(sub)[j - |ms|] == Names(all)[j];
      } else {
        assert all[i] in ms && all[j] in sub;
      }
    }
  }

  lemma {:induction false} WalkedDistributes(repo: seq<Entry>, ms: seq<Member>)
    requires Walked(repo, DIST_DIRS, ms)
    ensures Distributes(repo, Dist(TreeOf(ms)))
  {
    TreeHolds(ms);
    hide Lookup, Split, TreeOf;
    var files := Dist(TreeOf(ms));
    forall name, b ensures (name in files && files[name] == b) <==> StandsFor(repo, Member(name, b)) {
      if StandsFor(repo, Member(name, b)) {
        assert Member(name, b) in ms;
      }
      if name in files && files[name] == b {
        assert Member(name, b) in ms;
      }
    }
  }

  lemma {:induction false} SplitFirst(head: string, tail: string)
    requires '/' !in head
    ensures Split(head + "/" + tail) == [head] + Split(tail)
  {
    var s := head + "/" + tail;
    UntilAt(head, tail);
    assert s[..|head|] == head && s[|head| + 1..] == tail;
  }

  lemma {:induction false} SplitWhole(a: string)
    requires '/' !in a
    ensures Split(a) == [a]
  {
    UntilAt(a, "");
  }

  lemma {:induction false} FirstSlash(a: string) returns (head: string, tail: string)
    requires '/' in a
    ensures a == head + "/" + tail && '/' !in head && |tail| < |a|
  {
    var n := Until(a, '/');
    head, tail := a[..n], a[n + 1..];
  }

  lemma {:induction false} SplitAppends(a: string, rest: string)
    ensures Split(a + "/" + rest) == Split(a) + Split(rest)
    decreases |a|
  {
    hide Split, Until;
    if '/' !in a {
      SplitFirst(a, rest);
      SplitWhole(a);
    } else {
      var head, tail := FirstSlash(a);
      assert a + "/" + rest == head + "/" + (tail + "/" + rest);
      SplitFirst(head, tail);
      SplitFirst(head, tail + "/" + rest);
      SplitAppends(tail, rest);
    }
  }

  lemma {:induction false} FilesBlockNothing(repo: seq<Entry>, k: string, l: string)
    requires Lookup(repo, Split(k)).Some? && Lookup(repo, Split(k)).value.File? && Lookup(repo, Split(l)).Some?
    ensures !Blocks(k, l)
  {
    if Blocks(k, l) {
      var rest := l[|k| + 1..];
      assert l == k + "/" + rest;
      SplitAppends(k, rest);
      PrefixIsDirectory(repo, Split(k), Split(rest));
    }
  }

  /** What a walk distributes can be packed, and packs into an archive that verifies exactly when its names are safe. */
  lemma {:induction false} DistributedIsPackable(repo: seq<Entry>, files: FileMap)
    requires Distributes(repo, files)
    ensures Packable(files)
  {
    hide Covered, Blocks, Lookup, Split;
    forall k | k in files ensures StandsFor(repo, Member(k, files[k])) {
    }
    forall k, l | k in files && l in files ensures !Blocks(k, l) {
      assert StandsFor(repo, Member(k, files[k])) && StandsFor(repo, Member(l, files[l]));
      FilesBlockNothing(repo, k, l);
    }
  }

  /** What a walk of a tree without backslashes distributes packs into an archive accepted under the tree's own hash. */
  lemma {:induction false} TreesWithoutBackslashVerify(c: Crypto, repo: seq<Entry>, files: FileMap, m: seq<seq<string>>, ms: seq<Member>)
    requires Good(c) && Tidy(repo) && Distributes(repo, files) && Manifests(c, m, files) && Packed(c, files, m, ms)
    requires forall k :: k in files ==> '\\' !in k
    ensures Accepts(c, ms, HashOf(c, m))
  {
    DistributedIsPackable(repo, files);
    hide Covered, Accepts, HashOf, Packable, Packed, Manifests, Good, SafeMember;
    forall k | k in files ensures SafeMember(k) {
      assert StandsFor(repo, Member(k, files[k]));
      LookupIsPlain(repo, Split(k));
      AdmittedIsHarmless(Split(k));
      NoBackslashIsSafe(k);
    }
    PackVerifiesIff(c, files, m, ms);
  }

  lemma {:induction false} AdmittedIsHarmless(p: Path)
    requires Admitted(p) && PlainPath(p)
    ensures AllHarmless(p)
  {
  }

  // ---- what a safe name cannot do ----

  predicate Slash(c: char) { c == '/' || c == '\\' }

  /** `name[i..j]` is what a reader that honours both slashes takes for one component. */
  predicate Component(name: string, i: nat, j: nat) {
    && i <= j <= |name| && (i == 0 || Slash(name[i - 1])) && (j == |name| || Slash(name[j]))
    && forall k :: i <= k < j ==> !Slash(name[k])
  }

  lemma {:induction false} SlashedAt(name: string)
    ensures |Slashed(name)| == |name|
    ensures forall k :: 0 <= k < |name| ==> Slashed(name)[k] == if name[k] == '\\' then '/' else name[k]
  {
    if name != "" {
      SlashedAt(name[1..]);
    }
  }

  lemma {:induction false} SplitOnce(s: string) returns (n: nat)
    ensures n <= |s| && forall m :: 0 <= m < n ==> s[m] != '/'
    ensures if n == |s| then Split(s) == [s] else s[n] == '/' && Split(s) == [s[..n]] + Split(s[n + 1..])
  {
    n := Until(s, '/');
  }

  /** The parts of a text are its stretches between slashes. */
  lemma {:induction false} PartIsStretch(s: string, k: nat) returns (i: nat, j: nat)
    requires k < |Split(s)|
    ensures i <= j <= |s| && s[i..j] == Split(s)[k] && (i == 0 || s[i - 1] == '/') && (j == |s| || s[j] == '/')
    ensures forall m :: i <= m < j ==> s[m] != '/'
    decreases |s|
  {
    hide *;
    var n := SplitOnce(s);
    if k == 0 {
      i, j := 0, n;
      assert n == |s| ==> s[0..n] == s;
      assert s[0..n] == s[..n];
    } else {
      var t := s[n + 1..];
      assert Split(s)[k] == Split(t)[k - 1];
      var a, b := PartIsStretch(t, k - 1);
      i, j := a + n + 1, b + n + 1;
      ShiftedStretch(s, n + 1, a, b);
    }
  }

  /** A stretch of the rest of a text is one of the text. */
  lemma {:induction false} ShiftedStretch(s: string, n: nat, a: nat, b: nat)
    requires 1 <= n <= |s| && a <= b <= |s| - n && s[n - 1] == '/'
    requires var t := s[n..]; (a == 0 || t[a - 1] == '/') && (b == |t| || t[b] == '/') && forall m :: a <= m < b ==> t[m] != '/'
    ensures s[a + n..b + n] == s[n..][a..b]
    ensures (a + n == 0 || s[a + n - 1] == '/') && (b + n == |s| || s[b + n] == '/')
    ensures forall m :: a + n <= m < b + n ==> s[m] != '/'
  {
    forall m | a + n <= m < b + n ensures s[m] != '/' {
      assert s[m] == s[n..][m - n];
    }
  }

  lemma {:induction false} StretchIsPart(s: string, i: nat, j: nat)
    requires i <= j <= |s| && (i == 0 || s[i - 1] == '/') && (j == |s| || s[j] == '/')
    requires forall m :: i <= m < j ==> s[m] != '/'
    ensures s[i..j] in Split(s)
    decreases |s|
  {
    var n := Until(s, '/');
    if i == 0 {
      assert j == n;
      assert n == |s| ==> s[..n] == s;
    } else {
      var t, a, b := s[n + 1..], i - n - 1, j - n - 1;
      assert s[i..j] == t[a..b];
      assert forall m :: a <= m < b ==> t[m] == s[m + n + 1];
      StretchIsPart(t, a, b);
      hide Until;
      assert Split(s)[1..] == Split(t);
    }
  }

  /**
   A safe name, character by character: relative, no drive letter, and between
   slashes of either kind never nothing, `.` or `..`.
   */
  lemma {:induction false} SafeMemberIff(name: string)
    ensures SafeMember(name)
       <==> && name != "" && !Slash(name[0]) && !(|name| >= 2 && name[1] == ':')
            && forall i: nat, j: nat :: Component(name, i, j) ==> name[i..j] != "" && name[i..j] != "." && name[i..j] != ".."
  {
    SlashedAt(name);
    var s := Slashed(name);
    hide Slashed;
    if AllHarmless(Split(s)) {
      forall i: nat, j: nat | Component(name, i, j) ensures name[i..j] != "" && name[i..j] != "." && name[i..j] != ".." {
        assert s[i..j] == name[i..j];
        StretchIsPart(s, i, j);
      }
    }
    if forall i: nat, j: nat :: Component(name, i, j) ==> name[i..j] != "" && name[i..j] != "." && name[i..j] != ".." {
      forall k | 0 <= k < |Split(s)| ensures Harmless(Split(s)[k]) {
        var i, j := PartIsStretch(s, k);
        assert s[i..j] == name[i..j];
        assert Component(name, i, j);
      }
    }
  }

  lemma {:induction false} SlashedJoins(a: string, b: string)
    ensures Slashed(a + b) == Slashed(a) + Slashed(b)
  {
    if a == "" {
      assert a + b == b;
    } else {
      assert (a + b)[1..] == a[1..] + b;
      SlashedJoins(a[1..], b);
    }
  }

  /** Splitting on both slashes refines splitting on one: every part's own parts are parts of the whole. */
  lemma {:induction false} BothSlashesRefine(name: string, i: nat)
    requires i < |Split(name)|
    ensures forall q :: q in Split(Slashed(Split(name)[i])) ==> q in Split(Slashed(name))
  {
    var n := Until(name, '/');
    if n == |name| {
      assert Split(name) == [name];
    } else {
      var head, tail := name[..n], name[n + 1..];
      assert name == head + ("/" + tail);
      SlashedJoins(head, "/" + tail);
      SlashedJoins("/", tail);
      assert Slashed("/") == "/" by { assert "/"[1..] == ""; }
      assert Slashed(name) == Slashed(head) + "/" + Slashed(tail);
      SplitAppends(Slashed(head), Slashed(tail));
      if i > 0 {
        BothSlashesRefine(tail, i - 1);
      }
    }
  }

  /** A safe member name has no empty, `.` or `..` component on the file system, so it is written below the destination, under itself. */
  lemma {:induction false} SafeMembersStayInside(name: string)
    requires SafeMember(name)
    ensures AllHarmless(Split(name)) && Join(Split(name)) == name
  {
    JoinSplit(name);
    forall i | 0 <= i < |Split(name)| ensures Harmless(Split(name)[i]) {
      var part := Split(name)[i];
      BothSlashesRefine(name, i);
      if part == "" || part == "." || part == ".." {
        DotsStay(part);
        assert part in Split(Slashed(part));
      }
    }
  }

  lemma {:induction false} DotsStay(part: string)
    requires part == "" || part == "." || part == ".."
    ensures part in Split(Slashed(part))
  {
    assert '\\' !in part && '/' !in part;
    UnslashedStays(part);
    UntilAt(part, "");
    assert Split(part) == [part];
  }
}
