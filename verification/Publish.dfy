/**
 The pinned-build publish transaction, interruptible between any two of its
 git and marker operations, while outsiders commit to or edit the repository
 behind the write lock's back. A commit id stands for its content.
 */
module Publish {
  import opened Prelude

  type Tree = map<string, string>

  datatype Commit = Commit(parent: Option<nat>, tree: Tree)

  datatype End = Whole | Cut(applied: bool)

  /** Why the working tree is being brought to HEAD. */
  datatype Goal = Recover | Publish | Repair

  datatype Stage =
    | Idle
    | Syncing(goal: Goal)
    | Resetting(goal: Goal)
    | Cleaning(goal: Goal)
    | Unlinking(goal: Goal)
    | Checking
    | Purging
    | Reading
    | Staging(parent: Option<nat>)
    | Committing(parent: Option<nat>, staged: Tree)
    | Marking(parent: Option<nat>, commit: nat)
    | Moving(parent: Option<nat>, commit: nat)

  datatype Outcome = Running | Published | Unchanged | Failed

  /** History, read by no step: `lineage` is every value HEAD ever had, `moved` whether this ingest moved it. */
  datatype Refs = Refs(commits: map<nat, Commit>, head: Option<nat>, lineage: seq<nat>, moved: bool)

  /** `hidden` are the paths an ignore rule keeps out of `git status`; `edited` is history, a hand edit outstanding. */
  datatype Files = Files(worktree: Tree, hidden: set<string>, marker: bool, edited: bool)

  datatype Build = Build(refs: Refs, files: Files, stage: Stage, outcome: Outcome)

  datatype Move =
    | Begin
    | RevParse(honest: bool)
    | Reset(ok: bool, after: Tree)
    | Clean(ok: bool, kept: set<string>)
    | Unlink(ok: bool)
    | Status(ok: bool)
    | ReadHead(honest: bool)
    | Stage(staged: Option<Tree>)
    | Store(id: nat, compared: bool, ok: bool)
    | Mark(end: End)
    | MoveRef(end: End)
    | Crash
    | Outside(id: nat, tree: Tree)
    | Edit(after: Tree)

  function TreeOf(commits: map<nat, Commit>, head: Option<nat>): Tree {
    if head.Some? && head.value in commits then commits[head.value].tree else map[]
  }

  function HeadTree(s: Build): Tree { TreeOf(s.refs.commits, s.refs.head) }

  predicate Tracked(worktree: Tree, tree: Tree) {
    forall p :: p in tree ==> p in worktree && worktree[p] == tree[p]
  }

  /** What `git status --porcelain` reports on: tracked changes and unhidden untracked paths. */
  predicate Dirty(files: Files, tree: Tree) {
    !Tracked(files.worktree, tree) || exists p :: p in files.worktree && p !in tree && p !in files.hidden
  }

  /** A hard reset puts back every path of HEAD; a failed one leaves anything. */
  function ResetFiles(files: Files, tree: Tree, ok: bool, after: Tree): Files {
    files.(worktree := if ok then after + tree else after)
  }

  /** A full clean leaves only HEAD's paths; one that fails midway leaves some others. */
  function CleanFiles(files: Files, tree: Tree, ok: bool, kept: set<string>): Files {
    var worktree := map p | p in files.worktree && (p in tree || (!ok && p in kept)) :: files.worktree[p];
    files.(worktree := worktree, edited := files.edited && worktree != tree)
  }

  /** An object store never holds two contents under one id. */
  predicate Storable(commits: map<nat, Commit>, id: nat, c: Commit) {
    id in commits ==> commits[id] == c
  }

  function HeadTo(refs: Refs, id: nat): Refs { refs.(head := Some(id), lineage := refs.lineage + [id]) }

  function Took(end: End): bool { end == Whole || end == Cut(true) }

  function Fail(s: Build): Build { s.(stage := Idle, outcome := Failed) }

  /** A failed publish is repaired on the spot; a failed recovery or repair leaves the marker for later. */
  function GiveUp(s: Build, goal: Goal): Build {
    if goal == Publish then s.(stage := Syncing(Repair)) else Fail(s)
  }

  function SyncStep(s: Build, move: Move): Build {
    match move
    case RevParse(honest) =>
      if !s.stage.Syncing? then s
      else s.(stage := if s.refs.head.None? || !honest then Unlinking(s.stage.goal) else Resetting(s.stage.goal))
    case Reset(ok, after) =>
      if !s.stage.Resetting? then s
      else
        var t := s.(files := ResetFiles(s.files, HeadTree(s), ok, after));
        if ok then t.(stage := Cleaning(s.stage.goal)) else GiveUp(t, s.stage.goal)
    case Clean(ok, kept) =>
      if !s.stage.Cleaning? && !s.stage.Purging? then s
      else
        var t := s.(files := CleanFiles(s.files, HeadTree(s), ok, kept));
        if s.stage.Purging? then if ok then t.(stage := Reading) else Fail(t)
        else if ok then t.(stage := Unlinking(s.stage.goal))
        else GiveUp(t, s.stage.goal)
    case Unlink(ok) =>
      if !s.stage.Unlinking? then s
      else
        var t := s.(files := s.files.(marker := s.files.marker && !ok));
        (match s.stage.goal
         case Recover => t.(stage := Checking)
         case Publish => t.(stage := Idle, outcome := Published)
         case Repair => Fail(t))
    case _ => s
  }

  function IngestStep(s: Build, move: Move): Build {
    match move
    case Begin =>
      if !s.stage.Idle? then s
      else Build(s.refs.(moved := false), s.files, if s.files.marker then Syncing(Recover) else Checking, Running)
    case Status(ok) =>
      if !s.stage.Checking? then s
      else if !ok || Dirty(s.files, HeadTree(s)) then Fail(s)
      else s.(stage := Purging)
    case ReadHead(honest) =>
      if !s.stage.Reading? then s
      else s.(stage := Staging(if honest then s.refs.head else None))
    case Stage(staged) =>
      if !s.stage.Staging? then s
      else if staged.None? then Fail(s)
      else s.(stage := Committing(s.stage.parent, staged.value))
    case Store(id, compared, ok) =>
      if !s.stage.Committing? then s else StoreCommit(s, s.stage.parent, s.stage.staged, id, compared, ok)
    case Mark(end) =>
      if !s.stage.Marking? then s
      else
        var t := s.(files := s.files.(marker := s.files.marker || Took(end)));
        if end == Whole then t.(stage := Moving(s.stage.parent, s.stage.commit)) else Fail(t)
    case MoveRef(end) =>
      if !s.stage.Moving? then s
      else if Took(end) && s.refs.head == s.stage.parent then
        s.(refs := HeadTo(s.refs, s.stage.commit).(moved := true),
           stage := if end == Whole then Resetting(Publish) else Syncing(Repair))
      else s.(stage := Syncing(Repair))
    case _ => s
  }

  /** Nothing to commit when the staged tree is the parent's; otherwise only loose objects are written. */
  function StoreCommit(s: Build, parent: Option<nat>, staged: Tree, id: nat, compared: bool, ok: bool): Build {
    var c := Commit(parent, staged);
    if !ok then Fail(s)
    else if parent.Some? && compared && TreeOf(s.refs.commits, parent) == staged then s.(stage := Idle, outcome := Unchanged)
    else if !Storable(s.refs.commits, id, c) then s
    else s.(refs := s.refs.(commits := s.refs.commits[id := c]), stage := Marking(parent, id))
  }

  /** A death at any point; a commit on top of HEAD with the working tree it leaves; a hand edit. */
  function WorldStep(s: Build, move: Move): Build {
    match move
    case Crash => if s.stage.Idle? then s else Fail(s)
    case Outside(id, tree) =>
      var c := Commit(s.refs.head, tree);
      if !Storable(s.refs.commits, id, c) then s
      else
        s.(refs := HeadTo(s.refs.(commits := s.refs.commits[id := c]), id),
           files := s.files.(worktree := tree, edited := false))
    case Edit(after) => s.(files := s.files.(worktree := after, edited := true))
    case _ => s
  }

  predicate Syncs(move: Move) { move.RevParse? || move.Reset? || move.Clean? || move.Unlink? }

  predicate Worldly(move: Move) { move.Crash? || move.Outside? || move.Edit? }

  function Next(s: Build, move: Move): Build {
    if Syncs(move) then SyncStep(s, move)
    else if Worldly(move) then WorldStep(s, move)
    else IngestStep(s, move)
  }

  function Run(s: Build, moves: seq<Move>): Build {
    if moves == [] then s else Next(Run(s, moves[..|moves| - 1]), moves[|moves| - 1])
  }

  // ---- no commit that was ever HEAD is orphaned ----

  /** Each commit of the path is the parent of the next. */
  predicate Chain(commits: map<nat, Commit>, path: seq<nat>) {
    && (forall i :: 0 <= i < |path| ==> path[i] in commits)
    && (forall i :: 0 < i < |path| ==> commits[path[i]].parent == Some(path[i - 1]))
  }

  predicate HeadIsLast(head: Option<nat>, lineage: seq<nat>) {
    head == if lineage == [] then None else Some(lineage[|lineage| - 1])
  }

  /** The commit about to become HEAD extends the HEAD the transaction read. */
  predicate Extends(commits: map<nat, Commit>, stage: Stage) {
    match stage
    case Marking(parent, commit) => commit in commits && commits[commit].parent == parent
    case Moving(parent, commit) => commit in commits && commits[commit].parent == parent
    case _ => true
  }

  ghost predicate Traced(s: Build) {
    && Chain(s.refs.commits, s.refs.lineage)
    && HeadIsLast(s.refs.head, s.refs.lineage)
    && Extends(s.refs.commits, s.stage)
  }

  lemma {:induction false} ChainGrows(commits: map<nat, Commit>, lineage: seq<nat>, id: nat, c: Commit)
    requires Chain(commits, lineage) && Storable(commits, id, c)
    requires HeadIsLast(c.parent, lineage)
    ensures Chain(commits[id := c], lineage + [id]) && HeadIsLast(Some(id), lineage + [id])
  {
  }

  lemma {:induction false} SyncKeepsTrace(s: Build, move: Move)
    requires Traced(s) && Syncs(move)
    ensures SyncStep(s, move).refs == s.refs && Traced(SyncStep(s, move))
  {
    hide TreeOf, ResetFiles, CleanFiles, Chain;
  }

  lemma {:induction false} WorldKeepsTrace(s: Build, move: Move)
    requires Traced(s) && Worldly(move)
    ensures Traced(WorldStep(s, move)) && s.refs.lineage <= WorldStep(s, move).refs.lineage
  {
    if move.Outside? && Storable(s.refs.commits, move.id, Commit(s.refs.head, move.tree)) {
      ChainGrows(s.refs.commits, s.refs.lineage, move.id, Commit(s.refs.head, move.tree));
    }
  }

  lemma {:induction false} IngestKeepsTrace(s: Build, move: Move)
    requires Traced(s) && !Syncs(move) && !Worldly(move)
    ensures Traced(IngestStep(s, move)) && s.refs.lineage <= IngestStep(s, move).refs.lineage
  {
    hide TreeOf, Dirty;
    if move.MoveRef? && s.stage.Moving? && s.refs.head == s.stage.parent {
      var c := s.refs.commits[s.stage.commit];
      ChainGrows(s.refs.commits, s.refs.lineage, s.stage.commit, c);
      assert s.refs.commits[s.stage.commit := c] == s.refs.commits;
    }
  }

  lemma {:induction false} RunKeepsTrace(s: Build, moves: seq<Move>)
    requires Traced(s)
    ensures Traced(Run(s, moves)) && s.refs.lineage <= Run(s, moves).refs.lineage
  {
    if moves != [] {
      var front, move := Run(s, moves[..|moves| - 1]), moves[|moves| - 1];
      RunKeepsTrace(s, moves[..|moves| - 1]);
      if Syncs(move) {
        SyncKeepsTrace(front, move);
      } else if Worldly(move) {
        WorldKeepsTrace(front, move);
      } else {
        IngestKeepsTrace(front, move);
      }
    }
  }

  lemma {:induction false} RunAfter(s: Build, before: seq<Move>, after: seq<Move>)
    ensures Run(s, before + after) == Run(Run(s, before), after)
  {
    var moves := before + after;
    if after == [] {
      assert moves == before;
    } else {
      assert moves[..|moves| - 1] == before + after[..|after| - 1];
      RunAfter(s, before, after[..|after| - 1]);
    }
  }

  ghost predicate Ancestor(commits: map<nat, Commit>, a: nat, b: nat) {
    exists path :: Chain(commits, path) && path != [] && path[0] == a && path[|path| - 1] == b
  }

  /** Whoever moved HEAD and whatever failed since, a commit that was HEAD stays an ancestor of HEAD. */
  lemma {:induction false} NothingIsOrphaned(s: Build, before: seq<Move>, after: seq<Move>, was: nat)
    requires Traced(s)
    requires Run(s, before).refs.head == Some(was)
    ensures
      var t := Run(s, before + after);
      t.refs.head.Some? && Ancestor(t.refs.commits, was, t.refs.head.value)
  {
    RunAfter(s, before, after);
    RunKeepsTrace(s, before);
    var mid := Run(s, before);
    RunKeepsTrace(mid, after);
    var t, n := Run(mid, after), |mid.refs.lineage|;
    var path := t.refs.lineage[n - 1..];
    assert path[0] == mid.refs.lineage[n - 1] == was;
    assert Chain(t.refs.commits, path);
  }

  // ---- crash safety ----

  predicate Settled(s: Build) { s.files.worktree == HeadTree(s) || s.files.edited }

  predicate TrackedOrEdited(s: Build) { Tracked(s.files.worktree, HeadTree(s)) || s.files.edited }

  /** The working tree is HEAD, or the marker says it may lag, or a hand edit is outstanding. */
  predicate Safe(s: Build) { Settled(s) || s.files.marker }

  /** What each stage may rely on; a tree left unsynced for an unreadable HEAD still has its marker. */
  predicate Lenient(s: Build) {
    && (s.refs.head.None? ==> Settled(s))
    && match s.stage
       case Idle => Safe(s)
       case Checking => Safe(s)
       case Syncing(goal) => s.files.marker && goal != Publish
       case Resetting(_) => s.files.marker && s.refs.head.Some?
       case Cleaning(_) => s.files.marker && s.refs.head.Some? && TrackedOrEdited(s)
       case Unlinking(goal) => if goal == Publish then Settled(s) && s.files.marker else Safe(s)
       case Purging => Safe(s) && TrackedOrEdited(s)
       case Moving(_, _) => s.files.marker
       case _ => Settled(s)
  }

  predicate Guarded(s: Build) { Lenient(s) && (s.stage.Unlinking? ==> Settled(s)) }

  ghost predicate Inv(s: Build) { Traced(s) && Guarded(s) }

  /** `git rev-parse` in the sync fails only on an unborn HEAD, which is how the code reads its failure. */
  predicate Honest(move: Move) { move.RevParse? ==> move.honest }

  lemma {:induction false} CleanSettles(files: Files, tree: Tree, ok: bool, kept: set<string>)
    requires Tracked(files.worktree, tree) || files.edited
    ensures
      var after := CleanFiles(files, tree, ok, kept);
      && after.marker == files.marker
      && (Tracked(after.worktree, tree) || after.edited)
      && (ok || files.worktree == tree || files.edited ==> after.worktree == tree || after.edited)
  {
    var after := CleanFiles(files, tree, ok, kept);
    if Tracked(files.worktree, tree) && (ok || files.worktree == tree) {
      assert after.worktree.Keys == tree.Keys;
      assert after.worktree == tree;
    }
  }

  /** The one step that loses the marker: it is removed over a tree that lags. */
  predicate LosesMarker(s: Build, move: Move) { s.stage.Unlinking? && move == Unlink(true) && !Settled(s) }

  lemma {:induction false} SyncKeepsLenient(s: Build, move: Move)
    requires Traced(s) && Lenient(s) && Syncs(move)
    ensures Lenient(SyncStep(s, move)) <==> !LosesMarker(s, move)
    ensures LosesMarker(s, move) ==> !Safe(SyncStep(s, move))
  {
    hide CleanFiles, TreeOf, Traced;
    SyncKeepsTrace(s, move);
    if move.Clean? && (s.stage.Cleaning? || s.stage.Purging?) {
      CleanSettles(s.files, HeadTree(s), move.ok, move.kept);
    }
    assert HeadTree(SyncStep(s, move)) == HeadTree(s);
  }

  lemma {:induction false} SyncKeepsGuard(s: Build, move: Move)
    requires Inv(s) && Syncs(move) && Honest(move)
    ensures Guarded(SyncStep(s, move))
  {
    SyncKeepsLenient(s, move);
    hide TreeOf, Traced;
    SyncKeepsTrace(s, move);
    if move.Clean? && (s.stage.Cleaning? || s.stage.Purging?) {
      CleanSettles(s.files, HeadTree(s), move.ok, move.kept);
    }
    hide CleanFiles;
    assert HeadTree(SyncStep(s, move)) == HeadTree(s);
  }

  lemma {:induction false} WorldKeepsLenient(s: Build, move: Move)
    requires Lenient(s) && Worldly(move)
    ensures Lenient(WorldStep(s, move))
  {
  }

  lemma {:induction false} WorldKeepsGuard(s: Build, move: Move)
    requires Inv(s) && Worldly(move)
    ensures Guarded(WorldStep(s, move))
  {
    WorldKeepsLenient(s, move);
  }

  lemma {:induction false} HeadIsStored(s: Build)
    requires Traced(s)
    ensures s.refs.head.Some? ==> s.refs.head.value in s.refs.commits
  {
  }

  lemma {:induction false} IngestKeepsLenient(s: Build, move: Move)
    requires Traced(s) && Lenient(s) && !Syncs(move) && !Worldly(move)
    ensures Lenient(IngestStep(s, move))
    ensures IngestStep(s, move).stage.Unlinking? ==> IngestStep(s, move) == s
  {
    HeadIsStored(s);
    hide Traced;
  }

  lemma {:induction false} IngestKeepsGuard(s: Build, move: Move)
    requires Inv(s) && !Syncs(move) && !Worldly(move)
    ensures Guarded(IngestStep(s, move))
  {
    IngestKeepsLenient(s, move);
    hide IngestStep, Lenient, Traced;
  }

  lemma {:induction false} RunKeepsInv(s: Build, moves: seq<Move>)
    requires Inv(s) && forall m :: m in moves ==> Honest(m)
    ensures Inv(Run(s, moves))
  {
    if moves != [] {
      var front, move := Run(s, moves[..|moves| - 1]), moves[|moves| - 1];
      RunKeepsInv(s, moves[..|moves| - 1]);
      MoveKeepsInv(front, move);
    }
  }

  lemma {:induction false} MoveKeepsInv(s: Build, move: Move)
    requires Inv(s) && Honest(move)
    ensures Inv(Next(s, move))
  {
    hide Traced, Guarded;
    if Syncs(move) {
      SyncKeepsTrace(s, move);
      SyncKeepsGuard(s, move);
    } else if Worldly(move) {
      WorldKeepsTrace(s, move);
      WorldKeepsGuard(s, move);
    } else {
      IngestKeepsTrace(s, move);
      IngestKeepsGuard(s, move);
    }
  }

  /** A build nobody has interrupted: HEAD's history is a chain and the working tree is HEAD. */
  ghost predicate AtRest(s: Build) {
    && s.stage == Idle && !s.files.marker && !s.files.edited
    && s.files.worktree == HeadTree(s)
    && Chain(s.refs.commits, s.refs.lineage) && HeadIsLast(s.refs.head, s.refs.lineage)
  }

  /** Crash safety: at every interruption point the working tree is HEAD or the marker is there to finish the sync. */
  lemma {:induction false} PublishIsCrashSafe(s: Build, moves: seq<Move>)
    requires AtRest(s)
    requires forall m :: m in moves ==> Honest(m) && !m.Edit?
    ensures
      var t := Run(s, moves);
      t.files.worktree == HeadTree(t) || t.files.marker
  {
    RunKeepsInv(s, moves);
    UneditedRun(s, moves);
  }

  lemma {:induction false} UneditedRun(s: Build, moves: seq<Move>)
    requires !s.files.edited && forall m :: m in moves ==> !m.Edit?
    ensures !Run(s, moves).files.edited
  {
    hide TreeOf, Storable, Dirty;
    if moves != [] {
      UneditedRun(s, moves[..|moves| - 1]);
    }
  }

  /** Until an ingest moves HEAD itself, nothing it did shows in the refs. */
  lemma {:induction false} NothingMovesBeforeTheSwap(s: Build, moves: seq<Move>)
    requires !s.refs.moved
    requires forall m :: m in moves ==> !m.Begin? && !m.Outside?
    ensures
      var t := Run(s, moves).refs;
      !t.moved ==> t.head == s.refs.head && t.lineage == s.refs.lineage
  {
    hide TreeOf, Storable, Dirty, CleanFiles, ResetFiles;
    if moves != [] {
      NothingMovesBeforeTheSwap(s, moves[..|moves| - 1]);
    }
  }

  /** When a publish or a no-op is reported the tree is HEAD; after a publish the marker is there exactly when removing it failed. */
  lemma {:induction false} PublishEndsSettled(s: Build, move: Move)
    requires Inv(s) && !s.stage.Idle? && Honest(move)
    requires Next(s, move).outcome in {Published, Unchanged} && s.outcome == Running
    ensures
      var t := Next(s, move);
      && Settled(t) && t.refs.head == s.refs.head
      && (t.outcome == Published ==> move.Unlink? && (t.files.marker <==> !move.ok))
      && (t.outcome == Unchanged ==> t.files == s.files)
  {
    MoveKeepsInv(s, move);
    hide Traced, Dirty, CleanFiles, ResetFiles;
  }

  // ---- where the code falls short of its own description ----

  /** The transaction up to the ref move, nothing going wrong. */
  function Prefix(staged: Tree, id: nat): seq<Move> {
    [Begin, Status(true), Clean(true, {}), ReadHead(true), Stage(Some(staged)), Store(id, true, true), Mark(Whole), MoveRef(Whole)]
  }

  lemma {:induction false} RunOne(s: Build, moves: seq<Move>, move: Move)
    ensures Run(s, moves + [move]) == Next(Run(s, moves), move)
  {
    assert (moves + [move])[..|moves|] == moves;
  }

  function Swapped(s: Build, staged: Tree, id: nat): Build {
    Build(Refs(s.refs.commits[id := Commit(s.refs.head, staged)], Some(id), s.refs.lineage + [id], true),
          s.files.(marker := true), Resetting(Publish), Running)
  }

  lemma {:induction false} PrefixRuns(s: Build, staged: Tree, id: nat)
    requires AtRest(s) && HeadTree(s) != staged && id !in s.refs.commits
    ensures Run(s, Prefix(staged, id)) == Swapped(s, staged, id)
  {
    var s1 := Next(s, Begin);
    var s2 := Next(s1, Status(true));
    var s3 := Next(s2, Clean(true, {}));
    CleanSettles(s.files, HeadTree(s), true, {});
    assert s3 == s2.(stage := Reading);
    hide Chain, HeadIsLast, CleanFiles, Dirty, Tracked;
    var s4 := Next(s3, ReadHead(true));
    var s5 := Next(s4, Stage(Some(staged)));
    var s6 := Next(s5, Store(id, true, true));
    var s7 := Next(s6, Mark(Whole));
    var s8 := Next(s7, MoveRef(Whole));
    assert s8 == Swapped(s, staged, id);
    var p := Prefix(staged, id);
    RunsThrough(s, p, [s, s1, s2, s3, s4, s5, s6, s7, s8]);
  }

  lemma {:induction false} RunsThrough(s: Build, moves: seq<Move>, states: seq<Build>)
    requires |states| == |moves| + 1 && states[0] == s
    requires forall n :: 0 <= n < |moves| ==> states[n + 1] == Next(states[n], moves[n])
    ensures Run(s, moves) == states[|moves|]
  {
    hide Next;
    if moves != [] {
      RunsThrough(s, moves[..|moves| - 1], states[..|moves|]);
    }
  }

  /**
   The code's answer "unborn" to any failing rev-parse loses the marker: one
   failing call after a death past the ref move leaves a lagging tree unmarked.
   */
  lemma {:induction false} UnreadableHeadLosesMarker(s: Build, staged: Tree, id: nat)
    requires AtRest(s) && HeadTree(s) != staged && id !in s.refs.commits
    ensures
      var t := Run(s, Prefix(staged, id) + [Crash, Begin, RevParse(false), Unlink(true)]);
      t.files.worktree != HeadTree(t) && !t.files.marker && !t.files.edited
  {
    PrefixRuns(s, staged, id);
    var t0 := Swapped(s, staged, id);
    var t1 := Next(t0, Crash);
    var t2 := Next(t1, Begin);
    var t3 := Next(t2, RevParse(false));
    var t4 := Next(t3, Unlink(true));
    RunsThrough(t0, [Crash, Begin, RevParse(false), Unlink(true)], [t0, t1, t2, t3, t4]);
    RunAfter(s, Prefix(staged, id), [Crash, Begin, RevParse(false), Unlink(true)]);
    assert HeadTree(t4) == staged;
  }

  /** An ingest can report failure with its commit published: a reset that fails once and succeeds in the repair. */
  lemma {:induction false} FailureAfterTheSwapIsPublished(s: Build, staged: Tree, id: nat, torn: Tree)
    requires AtRest(s) && HeadTree(s) != staged && id !in s.refs.commits
    ensures
      var moves := [Reset(false, torn), RevParse(true), Reset(true, map[]), Clean(true, {}), Unlink(true)];
      var t := Run(s, Prefix(staged, id) + moves);
      t.outcome == Failed && t.refs.head == Some(id) && t.files.worktree == HeadTree(t) == staged && !t.files.marker
  {
    PrefixRuns(s, staged, id);
    var moves := [Reset(false, torn), RevParse(true), Reset(true, map[]), Clean(true, {}), Unlink(true)];
    var t0 := Swapped(s, staged, id);
    var t1 := Next(t0, moves[0]);
    var t2 := Next(t1, moves[1]);
    var t3 := Next(t2, moves[2]);
    assert t3.files.worktree == staged;
    var t4 := Next(t3, moves[3]);
    CleanSettles(t3.files, staged, true, {});
    var t5 := Next(t4, moves[4]);
    RunsThrough(t0, moves, [t0, t1, t2, t3, t4, t5]);
    RunAfter(s, Prefix(staged, id), moves);
  }

  // ---- exactly when the marker is lost ----

  /** An outsider's touch, a death, or the removal of the marker: what ends the wait between a sync and its unlink. */
  predicate Intervenes(s: Build, move: Move) {
    move.Edit? || move.Crash? || move.Unlink? || (move.Outside? && Storable(s.refs.commits, move.id, Commit(s.refs.head, move.tree)))
  }

  /** At step `j` rev-parse failed on a born HEAD over a lagging tree. */
  predicate Misread(s: Build, moves: seq<Move>, j: nat)
    requires j < |moves|
  {
    var at := Run(s, moves[..j]);
    moves[j] == RevParse(false) && at.stage.Syncing? && at.refs.head.Some? && !Settled(at)
  }

  ghost predicate Doubted(s: Build, moves: seq<Move>, j: nat) {
    && j < |moves| && Misread(s, moves, j)
    && forall i :: j < i < |moves| ==> !Intervenes(Run(s, moves[..i]), moves[i])
  }

  /** The failing answer at `j`, nothing in between, and at `n` the marker removed. */
  ghost predicate MarkerLost(s: Build, moves: seq<Move>, j: nat, n: nat) {
    && j < n < |moves| && Misread(s, moves, j) && moves[n] == Unlink(true)
    && forall i :: j < i < n ==> !Intervenes(Run(s, moves[..i]), moves[i])
  }

  ghost predicate EverUnsafe(s: Build, moves: seq<Move>) { exists n: nat :: n <= |moves| && !SafeAt(s, moves, n) }

  ghost predicate EverLost(s: Build, moves: seq<Move>) { exists j, n :: MarkerLost(s, moves, j, n) }

  predicate Doubtful(s: Build) { s.stage.Unlinking? && !Settled(s) }

  lemma {:induction false} LenientIsSafe(s: Build)
    requires Lenient(s)
    ensures Safe(s)
  {
  }

  lemma {:induction false} MarkerLostAt(s: Build, moves: seq<Move>, j: nat, n: nat)
    ensures MarkerLost(s, moves, j, n) <==> n < |moves| && Doubted(s, moves[..n], j) && moves[n] == Unlink(true)
  {
    if n < |moves| {
      var front := moves[..n];
      assert forall i :: 0 <= i < n ==> front[..i] == moves[..i] && front[i] == moves[i];
    }
  }

  lemma {:induction false} DoubtedNow(s: Build, moves: seq<Move>, j: nat)
    requires moves != []
    ensures
      var front, last := moves[..|moves| - 1], moves[|moves| - 1];
      Doubted(s, moves, j)
      <==> if j == |moves| - 1 then Misread(s, moves, j) else Doubted(s, front, j) && !Intervenes(Run(s, front), last)
  {
    var front := moves[..|moves| - 1];
    assert forall i :: 0 <= i < |front| ==> front[..i] == moves[..i] && front[i] == moves[i];
  }

  /** One step: doubt begins at a misread HEAD and lasts until something intervenes. */
  lemma {:induction false} StepDoubt(s: Build, move: Move)
    requires Traced(s) && Lenient(s) && !LosesMarker(s, move)
    ensures Doubtful(Next(s, move))
       <==> || (move == RevParse(false) && s.stage.Syncing? && s.refs.head.Some? && !Settled(s))
            || (Doubtful(s) && !Intervenes(s, move))
  {
    if Syncs(move) {
      SyncKeepsLenient(s, move);
      if move.Clean? && s.stage.Cleaning? {
        CleanSettles(s.files, HeadTree(s), move.ok, move.kept);
      }
      hide CleanFiles, TreeOf, Traced;
    } else if Worldly(move) {
      hide Traced;
    } else {
      IngestKeepsLenient(s, move);
      hide Traced, IngestStep, Lenient, Settled;
    }
  }

  lemma {:induction false} StepLenient(s: Build, move: Move)
    requires Traced(s) && Lenient(s)
    ensures Traced(Next(s, move))
    ensures if LosesMarker(s, move) then !Safe(Next(s, move)) else Lenient(Next(s, move))
  {
    hide Traced, Lenient;
    if Syncs(move) {
      SyncKeepsTrace(s, move);
      SyncKeepsLenient(s, move);
    } else if Worldly(move) {
      WorldKeepsTrace(s, move);
      WorldKeepsLenient(s, move);
    } else {
      IngestKeepsTrace(s, move);
      IngestKeepsLenient(s, move);
    }
  }

  predicate SafeAt(s: Build, moves: seq<Move>, n: nat)
    requires n <= |moves|
  {
    Safe(Run(s, moves[..n]))
  }

  lemma {:induction false} UnsafeGrows(s: Build, moves: seq<Move>)
    requires moves != []
    ensures EverUnsafe(s, moves) <==> EverUnsafe(s, moves[..|moves| - 1]) || !Safe(Run(s, moves))
  {
    var front := moves[..|moves| - 1];
    assert moves[..|moves|] == moves;
    forall n: nat | n <= |front| ensures SafeAt(s, front, n) == SafeAt(s, moves, n) {
      assert front[..n] == moves[..n];
    }
    assert SafeAt(s, moves, |moves|) == Safe(Run(s, moves));
    hide SafeAt;
  }

  lemma {:induction false} LostGrows(s: Build, moves: seq<Move>)
    requires moves != []
    ensures
      var front, last := moves[..|moves| - 1], moves[|moves| - 1];
      EverLost(s, moves) <==> EverLost(s, front) || (last == Unlink(true) && exists j :: Doubted(s, front, j))
  {
    var front, last := moves[..|moves| - 1], moves[|moves| - 1];
    forall j: nat, n: nat ensures MarkerLost(s, moves, j, n)
      <==> MarkerLost(s, front, j, n) || (n == |front| && last == Unlink(true) && Doubted(s, front, j))
    {
      MarkerLostAt(s, moves, j, n);
      MarkerLostAt(s, front, j, n);
      assert n < |front| ==> front[..n] == moves[..n];
    }
    if last == Unlink(true) && exists j :: Doubted(s, front, j) {
      var j :| Doubted(s, front, j);
      assert MarkerLost(s, moves, j, |front|);
    }
  }

  /** While nothing was lost the stages keep their promises, and a doubtful unlink goes back to a misread HEAD. */
  lemma {:induction false} DoubtIsMisread(s: Build, moves: seq<Move>)
    requires Inv(s)
    ensures Traced(Run(s, moves))
    ensures EverUnsafe(s, moves) <==> EverLost(s, moves)
    ensures !EverLost(s, moves) ==> Lenient(Run(s, moves)) && (Doubtful(Run(s, moves)) <==> exists j :: Doubted(s, moves, j))
  {
    if moves == [] {
      assert moves[..0] == [];
      LenientIsSafe(s);
    } else {
      var front, last := moves[..|moves| - 1], moves[|moves| - 1];
      var t := Run(s, front);
      DoubtIsMisread(s, front);
      UnsafeGrows(s, moves);
      LostGrows(s, moves);
      hide Lenient, Settled, Traced;
      assert Run(s, moves) == Next(t, last);
      if EverLost(s, front) {
        RunKeepsTrace(s, moves);
      } else {
        StepLenient(t, last);
        if !LosesMarker(t, last) {
          LenientIsSafe(Next(t, last));
          StepDoubt(t, last);
          DoubtGrows(s, moves);
        }
      }
    }
  }

  lemma {:induction false} DoubtGrows(s: Build, moves: seq<Move>)
    requires moves != []
    ensures
      var front, last := moves[..|moves| - 1], moves[|moves| - 1];
      (exists j :: Doubted(s, moves, j))
      <==> || Misread(s, moves, |moves| - 1)
           || ((exists j :: Doubted(s, front, j)) && !Intervenes(Run(s, front), last))
  {
    var front, last := moves[..|moves| - 1], moves[|moves| - 1];
    forall j: nat ensures Doubted(s, moves, j)
      <==> if j == |moves| - 1 then Misread(s, moves, j) else Doubted(s, front, j) && !Intervenes(Run(s, front), last)
    {
      DoubtedNow(s, moves, j);
    }
    if Misread(s, moves, |moves| - 1) {
      assert Doubted(s, moves, |moves| - 1);
    } else if (exists j :: Doubted(s, front, j)) && !Intervenes(Run(s, front), last) {
      var j :| Doubted(s, front, j);
      assert Doubted(s, moves, j);
    }
  }

  /**
   Exactly when crash safety fails: along any run some state is unsafe if and
   only if rev-parse failed on a born HEAD over a lagging tree and, nothing
   intervening, the marker was then removed.
   */
  lemma {:induction false} CrashSafetyFailsIff(s: Build, moves: seq<Move>)
    requires Inv(s)
    ensures (exists n: nat :: n <= |moves| && !SafeAt(s, moves, n)) <==> exists j, n :: MarkerLost(s, moves, j, n)
  {
    DoubtIsMisread(s, moves);
  }

  // ---- exactly when a failed ingest has published ----

  /** The swap happens: the marker is written, HEAD is still the one read, the ref moves. */
  predicate Swaps(s: Build, move: Move) {
    s.stage.Moving? && move.MoveRef? && Took(move.end) && s.refs.head == s.stage.parent
  }

  predicate Publishing(s: Build) { s.stage in {Resetting(Publish), Cleaning(Publish), Unlinking(Publish)} }

  /** After the swap something fails: its own report, the reset, the clean, or the process. */
  predicate FailsAfterSwap(s: Build, move: Move) {
    || (Swaps(s, move) && move.end != Whole)
    || (s.stage == Resetting(Publish) && move.Reset? && !move.ok)
    || (s.stage == Cleaning(Publish) && move.Clean? && !move.ok)
    || (Publishing(s) && move.Crash?)
  }

  predicate HappensAt(s: Build, moves: seq<Move>, n: nat)
    requires n < |moves|
  {
    FailsAfterSwap(Run(s, moves[..n]), moves[n])
  }

  ghost predicate Failing(s: Build, moves: seq<Move>) { exists n: nat :: n < |moves| && HappensAt(s, moves, n) }

  lemma {:induction false} FailingGrows(s: Build, moves: seq<Move>)
    requires moves != []
    ensures
      var front, last := moves[..|moves| - 1], moves[|moves| - 1];
      Failing(s, moves) <==> Failing(s, front) || FailsAfterSwap(Run(s, front), last)
  {
    var front, last := moves[..|moves| - 1], moves[|moves| - 1];
    forall n: nat | n < |front| ensures HappensAt(s, front, n) == HappensAt(s, moves, n) {
      assert front[..n] == moves[..n];
    }
    assert HappensAt(s, moves, |front|) == FailsAfterSwap(Run(s, front), last);
    hide HappensAt;
  }

  /** Where one transaction stands: swapped or not, and if swapped on course, published, or failed. */
  predicate Stands(s: Build, failing: bool) {
    && (s.stage.Idle? || s.outcome == Running) && s.stage != Syncing(Publish)
    && (Publishing(s) ==> s.refs.moved && !failing)
    && (failing ==> s.refs.moved)
    && (s.refs.moved ==> s.stage.Idle? || Publishing(s) || (failing && Repairing(s)))
    && (s.stage.Idle? && s.refs.moved ==> s.outcome == if failing then Failed else Published)
    && (s.stage.Idle? && !s.refs.moved ==> s.outcome == Failed || s.outcome == Unchanged)
  }

  predicate Repairing(s: Build) {
    s.stage in {Syncing(Repair), Resetting(Repair), Cleaning(Repair), Unlinking(Repair)}
  }

  lemma {:induction false} StepStands(s: Build, move: Move, failing: bool)
    requires Stands(s, failing) && !move.Begin?
    ensures Stands(Next(s, move), failing || FailsAfterSwap(s, move))
  {
    hide TreeOf, CleanFiles, ResetFiles, Dirty, Storable;
  }

  lemma {:induction false} TransactionStands(s: Build, moves: seq<Move>)
    requires s.stage.Idle? && moves != [] && moves[0].Begin?
    requires forall n :: 1 <= n < |moves| ==> !moves[n].Begin?
    ensures Stands(Run(s, moves), Failing(s, moves))
  {
    FailingGrows(s, moves);
    if |moves| == 1 {
      assert moves[..0] == [] && !Failing(s, []);
      assert Run(s, moves) == Next(s, moves[0]);
    } else {
      var front, last := moves[..|moves| - 1], moves[|moves| - 1];
      assert front[0] == moves[0] && forall n :: 1 <= n < |front| ==> front[n] == moves[n];
      TransactionStands(s, front);
      StepStands(Run(s, front), last, Failing(s, front));
    }
  }

  /**
   An ingest that has ended failed has nevertheless published its commit if and
   only if the swap happened and its report, the reset, the clean or the process
   failed after it; whatever outsiders did meanwhile.
   */
  lemma {:induction false} FailedYetPublishedIff(s: Build, moves: seq<Move>)
    requires s.stage.Idle? && moves != [] && moves[0].Begin?
    requires forall n :: 1 <= n < |moves| ==> !moves[n].Begin?
    requires Run(s, moves).stage.Idle?
    ensures
      var t := Run(s, moves);
      t.outcome == Failed && t.refs.moved <==> exists n: nat :: n < |moves| && HappensAt(s, moves, n)
  {
    TransactionStands(s, moves);
  }
}
