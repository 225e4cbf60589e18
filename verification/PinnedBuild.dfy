/** One ingest of the pinned build, call by call; every ingest is a run of the Publish machine. */
module PinnedBuild {
  import opened Prelude
  import opened Publish

  /** How the calls of one working-tree sync end. */
  datatype SyncEnds = SyncEnds(revParse: bool, reset: bool, torn: Tree, clean: bool, kept: set<string>, unlink: bool)

  /** How every other call of one ingest ends; `staged` is None when any check of the pipeline refuses. */
  datatype Script = Script(
    recover: SyncEnds, status: bool, purge: bool, purgeKept: set<string>, readHead: bool, staged: Option<Tree>,
    compared: bool, stored: bool, mark: End, swap: End, publish: SyncEnds, repair: SyncEnds)

  datatype Meanwhile = Quiet | Commits(tree: Tree) | Edits(after: Tree)

  predicate SyncGoesWell(e: SyncEnds) { e.revParse && e.reset && e.clean && e.unlink }

  predicate GoesWell(c: Script) {
    && SyncGoesWell(c.recover) && SyncGoesWell(c.publish)
    && c.status && c.purge && c.readHead && c.staged.Some? && c.compared && c.stored && c.mark == Whole && c.swap == Whole
  }

  predicate HonestScript(c: Script) { c.recover.revParse && c.repair.revParse }

  ghost predicate Injective(hash: Commit -> nat) { forall c, d :: hash(c) == hash(d) ==> c == d }

  ghost predicate Addressed(commits: map<nat, Commit>, hash: Commit -> nat) {
    forall id :: id in commits ==> hash(commits[id]) == id
  }

  /** The sync resets and cleans; otherwise rev-parse calls HEAD unborn and nothing is done. */
  predicate Resyncs(e: SyncEnds, head: Option<nat>) { head.Some? && e.revParse }

  /** The sync ends well: it does nothing, or both its calls succeed. */
  predicate GoesThrough(e: SyncEnds, head: Option<nat>) { Resyncs(e, head) ==> e.reset && e.clean }

  /** The working tree a sync leaves. */
  function SyncedTree(e: SyncEnds, worktree: Tree, tree: Tree, head: Option<nat>): Tree {
    if !Resyncs(e, head) then worktree
    else if !e.reset then e.torn
    else if e.clean then tree
    else map p | p in e.torn + tree && (p in tree || p in e.kept) :: (e.torn + tree)[p]
  }

  /** The marker a repaired failure leaves: none once the repair and its unlink go well. */
  predicate MarkerStays(e: SyncEnds, head: Option<nat>) { !(GoesThrough(e, head) && e.unlink) }

  /** What the refusals before the staging leave: a repaired tree, or one git calls clean. */
  predicate Prepares(c: Script, s: Build) {
    && c.status && c.purge
    && if s.files.marker && Resyncs(c.recover, s.refs.head) then c.recover.reset && c.recover.clean else !Dirty(s.files, HeadTree(s))
  }

  /** Staged, stored, and not the tree the parent already has: there is a commit to publish. */
  predicate Composes(c: Script, parent: Option<nat>, commits: map<nat, Commit>) {
    c.staged.Some? && c.stored && !(parent.Some? && c.compared && TreeOf(commits, parent) == c.staged.value)
  }

  /** Staged and stored, and the parent already has that tree. */
  predicate Same(c: Script, parent: Option<nat>, commits: map<nat, Commit>) {
    c.staged.Some? && c.stored && parent.Some? && c.compared && TreeOf(commits, parent) == c.staged.value
  }

  lemma {:induction false} GoodCallsDeliver(c: Script, parent: Option<nat>, commits: map<nat, Commit>)
    ensures GoesWell(c) ==> Same(c, parent, commits) || (Delivers(c, parent, commits, parent) && Finishes(c))
  {
  }

  /** The ingest from `s` gets as far as writing the marker. */
  predicate Marks(c: Script, s: Build) {
    Prepares(c, s) && Composes(c, if c.readHead then s.refs.head else None, s.refs.commits)
  }

  function HeadAfter(event: Meanwhile, head: Option<nat>, hash: Commit -> nat): Option<nat> {
    if event.Commits? then Some(hash(Commit(head, event.tree))) else head
  }

  /**
   The marker and the tree an ingest leaves, `kept` saying whether the marker was
   there when it got to the staging. A failing publish is repaired on the spot.
   */
  predicate Leaves(c: Script, composes: bool, kept: bool, outcome: Outcome, t: Build) {
    if !composes then t.files.marker <==> kept
    else if c.mark != Whole then t.files.marker <==> kept || Took(c.mark)
    else
      && (t.files.marker <==> if outcome == Published then !c.publish.unlink else MarkerStays(c.repair, t.refs.head))
      && (outcome == Failed && Resyncs(c.repair, t.refs.head) && GoesThrough(c.repair, t.refs.head) ==> t.files.worktree == HeadTree(t))
  }

  lemma {:induction false} LeavesEarly(c: Script, kept: bool, outcome: Outcome, t: Build)
    requires t.files.marker <==> kept
    ensures Leaves(c, false, kept, outcome, t)
  {
  }

  /** From the staging on: there is something to commit, and at the swap HEAD is still the one that was read. */
  predicate Delivers(c: Script, parent: Option<nat>, commits: map<nat, Commit>, headAtSwap: Option<nat>) {
    && Composes(c, parent, commits)
    && c.mark == Whole && Took(c.swap) && headAtSwap == parent
  }

  /** The swap of an ingest from `s` happens. */
  predicate Reaches(c: Script, s: Build, early: Meanwhile, staging: Meanwhile, hash: Commit -> nat) {
    && Prepares(c, s)
    && Delivers(c, if c.readHead then s.refs.head else None, s.refs.commits,
                HeadAfter(staging, HeadAfter(early, s.refs.head, hash), hash))
  }

  /** Every call after the swap goes well. */
  predicate Finishes(c: Script) { c.swap == Whole && c.publish.reset && c.publish.clean }

  predicate AllHonest(moves: seq<Move>) { forall m :: m in moves ==> Honest(m) }

  /** What every sync step leaves alone, and where it leads. */
  lemma {:induction false} SyncLeads(s: Build, move: Move)
    requires Syncs(move)
    ensures
      var t := Next(s, move);
      && t.refs == s.refs && t.files.hidden == s.files.hidden && (t.files.edited ==> s.files.edited)
      && (!move.Unlink? ==> t.files.marker == s.files.marker)
      && (move.RevParse? && s.stage.Syncing? ==>
            && t.files == s.files && t.outcome == s.outcome
            && t.stage == if s.refs.head.None? || !move.honest then Unlinking(s.stage.goal) else Resetting(s.stage.goal))
      && (move.Reset? && s.stage.Resetting? ==>
            && t.stage == (if move.ok then Cleaning(s.stage.goal) else GiveUp(s, s.stage.goal).stage)
            && t.outcome == if move.ok then s.outcome else GiveUp(s, s.stage.goal).outcome)
      && (move.Clean? && s.stage.Cleaning? ==>
            && t.stage == (if move.ok then Unlinking(s.stage.goal) else GiveUp(s, s.stage.goal).stage)
            && t.outcome == if move.ok then s.outcome else GiveUp(s, s.stage.goal).outcome)
      && (move.Clean? && s.stage.Purging? ==>
            && t.stage == (if move.ok then Reading else Idle)
            && t.outcome == if move.ok then s.outcome else Failed)
  {
    hide TreeOf;
  }

  /** A full clean of a tree that holds all of HEAD leaves HEAD. */
  lemma {:induction false} CleanedIsHead(worktree: Tree, tree: Tree)
    requires Tracked(worktree, tree)
    ensures (map p | p in worktree && p in tree :: worktree[p]) == tree
  {
  }

  lemma {:induction false} UnlinkPublishes(s: Build, ok: bool)
    requires s.stage == Unlinking(Goal.Publish)
    ensures
      var t := Next(s, Unlink(ok));
      t.stage == Idle && t.outcome == Published && t.refs == s.refs && t.files.marker == (s.files.marker && !ok)
  {
  }

  lemma {:induction false} StatusLeads(s: Build, ok: bool)
    requires s.stage == Checking
    ensures Next(s, Status(ok)) == if !ok || Dirty(s.files, HeadTree(s)) then Fail(s) else s.(stage := Purging)
  {
  }

  lemma {:induction false} ReadHeadStages(s: Build, honest: bool)
    requires s.stage == Reading
    ensures Next(s, ReadHead(honest)) == s.(stage := Staging(if honest then s.refs.head else None))
  {
  }

  lemma {:induction false} StageLeads(s: Build, staged: Option<Tree>)
    requires s.stage.Staging?
    ensures Next(s, Stage(staged)) == if staged.None? then Fail(s) else s.(stage := Committing(s.stage.parent, staged.value))
  {
  }

  lemma {:induction false} CommittingIsSettled(s: Build)
    requires Inv(s) && s.stage.Committing?
    ensures Settled(s)
  {
  }

  lemma {:induction false} SettledAgain(s: Build, t: Build)
    requires Settled(s) && t.files == s.files && t.refs.head == s.refs.head && t.refs.commits == s.refs.commits
    ensures Settled(t)
  {
  }

  lemma {:induction false} MarkLeads(s: Build, end: End)
    requires s.stage.Marking?
    ensures
      var t := Next(s, Mark(end));
      && t.refs == s.refs && t.files == s.files.(marker := s.files.marker || Took(end))
      && t.stage == (if end == Whole then Moving(s.stage.parent, s.stage.commit) else Idle)
      && t.outcome == if end == Whole then s.outcome else Failed
  {
  }

  lemma {:induction false} SwapLeads(s: Build, end: End)
    requires s.stage.Moving?
    ensures
      var t, swaps := Next(s, MoveRef(end)), Took(end) && s.refs.head == s.stage.parent;
      && t.files == s.files && t.outcome == s.outcome
      && t.refs == (if swaps then HeadTo(s.refs, s.stage.commit).(moved := true) else s.refs)
      && t.stage == if swaps && end == Whole then Resetting(Goal.Publish) else Syncing(Repair)
  {
  }

  lemma {:induction false} HonestRunKeepsInv(s: Build, moves: seq<Move>)
    requires Inv(s) && AllHonest(moves)
    ensures Inv(Run(s, moves))
  {
    RunKeepsInv(s, moves);
  }

  lemma {:induction false} AllGoodPrepares(c: Script, s: Build)
    requires Inv(s) && s.stage == Idle && !s.files.edited && GoesWell(c)
    ensures Prepares(c, s)
  {
  }

  /** What outsiders add to the object store is not compared with. */
  lemma {:induction false} DeliversAsRead(c: Script, parent: Option<nat>, was: map<nat, Commit>, now: map<nat, Commit>, head: Option<nat>)
    requires forall id :: id in was ==> id in now && now[id] == was[id]
    ensures parent.None? || parent.value in was ==>
      Delivers(c, parent, now, head) == Delivers(c, parent, was, head) && Composes(c, parent, now) == Composes(c, parent, was)
  {
  }

  class PinnedBuild {
    const hash: Commit -> nat
    var commits: map<nat, Commit>
    var head: Option<nat>
    var worktree: Tree
    var hidden: set<string>
    var marker: bool
    ghost var build: Build

    ghost predicate Valid()
      reads this
    {
      && Injective(hash) && Addressed(commits, hash)
      && build.refs.commits == commits && build.refs.head == head
      && build.files.worktree == worktree && build.files.hidden == hidden && build.files.marker == marker
    }

    ghost method Take(move: Move, start: Build, moves: seq<Move>) returns (more: seq<Move>)
      requires build == Run(start, moves)
      modifies this`build
      ensures more == moves + [move] && build == Next(old(build), move) == Run(start, more)
      ensures AllHonest(moves) && Honest(move) ==> AllHonest(more)
    {
      RunOne(start, moves, move);
      build := Next(build, move);
      more := moves + [move];
    }

    /** Writers outside the shared lock: a commit on HEAD, or a hand edit. */
    method Outsiders(event: Meanwhile, ghost start: Build, ghost before: seq<Move>) returns (ghost moves: seq<Move>)
      requires Valid() && build == Run(start, before)
      modifies this`commits, this`head, this`worktree, this`build
      ensures Valid() && build == Run(start, moves)
      ensures build.stage == old(build).stage && build.outcome == old(build).outcome && marker == old(marker)
      ensures event == Quiet ==> build == old(build)
      ensures head == HeadAfter(event, old(head), hash) && build.refs.moved == old(build).refs.moved
      ensures forall id :: id in old(commits) ==> id in commits && commits[id] == old(commits)[id]
      ensures moves == before + match event
                                case Quiet => []
                                case Commits(tree) => [Outside(hash(Commit(old(head), tree)), tree)]
                                case Edits(after) => [Edit(after)]
      ensures AllHonest(before) ==> AllHonest(moves)
    {
      moves := before;
      match event
      case Quiet =>
      case Commits(tree) =>
        var c := Commit(head, tree);
        moves := Take(Outside(hash(c), tree), start, moves);
        commits, head, worktree := commits[hash(c) := c], Some(hash(c)), tree;
      case Edits(after) =>
        moves := Take(Edit(after), start, moves);
        worktree := after;
    }

    method ResetTree(ok: bool, torn: Tree, ghost start: Build, ghost before: seq<Move>) returns (ghost moves: seq<Move>)
      requires Valid() && build == Run(start, before) && build.stage.Resetting?
      modifies this`worktree, this`build
      ensures Valid() && build == Next(old(build), Reset(ok, torn)) == Run(start, moves)
      ensures worktree == if ok then torn + TreeOf(commits, head) else torn
      ensures AllHonest(before) ==> AllHonest(moves)
    {
      hide Run;
      worktree := if ok then torn + TreeOf(commits, head) else torn;
      moves := Take(Reset(ok, torn), start, before);
    }

    method CleanTree(ok: bool, kept: set<string>, ghost start: Build, ghost before: seq<Move>) returns (ghost moves: seq<Move>)
      requires Valid() && build == Run(start, before) && (build.stage.Cleaning? || build.stage.Purging?)
      modifies this`worktree, this`build
      ensures Valid() && build == Next(old(build), Clean(ok, kept)) == Run(start, moves)
      ensures
        var tree := TreeOf(commits, head);
        worktree == map p | p in old(worktree) && (p in tree || (!ok && p in kept)) :: old(worktree)[p]
      ensures AllHonest(before) ==> AllHonest(moves)
    {
      hide Run;
      var tree := TreeOf(commits, head);
      worktree := map p | p in worktree && (p in tree || (!ok && p in kept)) :: worktree[p];
      moves := Take(Clean(ok, kept), start, before);
    }

    /** A failing unlink is suppressed. */
    method RemoveMarker(ok: bool, ghost start: Build, ghost before: seq<Move>) returns (ghost moves: seq<Move>)
      requires Valid() && build == Run(start, before) && build.stage.Unlinking?
      modifies this`marker, this`build
      ensures Valid() && build == Next(old(build), Unlink(ok)) == Run(start, moves)
      ensures moves == before + [Unlink(ok)] && (AllHonest(before) ==> AllHonest(moves))
    {
      hide Run;
      marker := marker && !ok;
      moves := Take(Unlink(ok), start, before);
    }

    /** Reset, then full clean; an unborn HEAD, or one that cannot be read, counts as in sync. */
    method SyncToHead(ends: SyncEnds, ghost start: Build, ghost before: seq<Move>) returns (ok: bool, ghost moves: seq<Move>)
      requires Valid() && build == Run(start, before) && build.stage.Syncing? && build.stage.goal != Goal.Publish
      modifies this`worktree, this`build
      ensures Valid() && build == Run(start, moves)
      ensures build.stage == if ok then Unlinking(old(build).stage.goal) else Idle
      ensures build.outcome == if ok then old(build).outcome else Failed
      ensures build.refs == old(build).refs && (build.files.edited ==> old(build).files.edited)
      ensures ok <==> GoesThrough(ends, head)
      ensures worktree == SyncedTree(ends, old(worktree), HeadTree(old(build)), head) && marker == old(marker)
      ensures AllHonest(before) && ends.revParse ==> AllHonest(moves)
    {
      hide Run, Next;
      SyncLeads(build, RevParse(ends.revParse));
      moves := Take(RevParse(ends.revParse), start, before);
      if head.None? || !ends.revParse {
        return true, moves;
      }
      SyncLeads(build, Reset(ends.reset, ends.torn));
      CleanedIsHead(ends.torn + HeadTree(build), HeadTree(build));
      moves := ResetTree(ends.reset, ends.torn, start, moves);
      if !ends.reset {
        return false, moves;
      }
      SyncLeads(build, Clean(ends.clean, ends.kept));
      moves := CleanTree(ends.clean, ends.kept, start, moves);
      ok := ends.clean;
    }

    /** Finish a transaction that died between the ref move and the publish of the tree. */
    method RecoverPending(ends: SyncEnds, ghost start: Build, ghost before: seq<Move>) returns (ok: bool, ghost moves: seq<Move>)
      requires Valid() && build == Run(start, before) && build.stage.Idle?
      modifies this`worktree, this`marker, this`build
      ensures Valid() && build == Run(start, moves)
      ensures build.stage == if ok then Checking else Idle
      ensures build.outcome == if ok then Running else Failed
      ensures build.refs == old(build).refs.(moved := false) && (build.files.edited ==> old(build).files.edited)
      ensures !old(marker) ==> ok && build.files == old(build).files
      ensures ok <==> (old(marker) ==> GoesThrough(ends, head))
      ensures worktree == if old(marker) then SyncedTree(ends, old(worktree), HeadTree(old(build)), head) else old(worktree)
      ensures marker <==> old(marker) && MarkerStays(ends, head)
      ensures AllHonest(before) && ends.revParse ==> AllHonest(moves)
    {
      hide Run;
      ok := true;
      var pending := marker;
      moves := Take(Begin, start, before);
      if pending {
        ok, moves := SyncToHead(ends, start, moves);
        if ok {
          moves := RemoveMarker(ends.unlink, start, moves);
        }
      }
    }

    /** Refuse a dirty tree, then purge what only an ignore rule hides. */
    method RefuseOrPurge(status: bool, ok: bool, kept: set<string>, ghost start: Build, ghost before: seq<Move>)
      returns (clean: bool, ghost moves: seq<Move>)
      requires Valid() && build == Run(start, before) && build.stage.Checking?
      modifies this`worktree, this`build
      ensures Valid() && build == Run(start, moves)
      ensures build.stage == if clean then Reading else Idle
      ensures build.outcome == if clean then old(build).outcome else Failed
      ensures build.refs == old(build).refs && marker == old(marker) && (build.files.edited ==> old(build).files.edited)
      ensures Dirty(old(build).files, HeadTree(old(build))) ==> !clean && build.files == old(build).files
      ensures clean <==> status && ok && !Dirty(old(build).files, HeadTree(old(build)))
      ensures clean ==> worktree == TreeOf(commits, head)
      ensures AllHonest(before) ==> AllHonest(moves)
    {
      hide Run, Next, Injective, Addressed, AllHonest;
      var tree := TreeOf(commits, head);
      clean := status && (forall p :: p in tree ==> p in worktree && worktree[p] == tree[p])
               && (forall p :: p in worktree ==> p in tree || p in hidden);
      StatusLeads(build, status);
      moves := Take(Status(status), start, before);
      if clean {
        CleanedIsHead(worktree, tree);
        SyncLeads(build, Clean(ok, kept));
        moves := CleanTree(ok, kept, start, moves);
        clean := ok;
      }
    }

    /** The commit object, or None when there is nothing to commit or git refuses; the ref does not move. */
    method CommitStaging(parent: Option<nat>, staged: Tree, compared: bool, ok: bool, ghost start: Build, ghost before: seq<Move>)
      returns (commit: Option<nat>, same: bool, ghost moves: seq<Move>)
      requires Valid() && build == Run(start, before) && build.stage == Committing(parent, staged)
      modifies this`commits, this`build
      ensures Valid() && build == Run(start, moves)
      ensures build.files == old(build).files && build.refs == old(build).refs.(commits := commits)
      ensures commit.Some? ==>
        && commit == Some(hash(Commit(parent, staged))) && build.stage == Marking(parent, commit.value)
        && commits == old(commits)[commit.value := Commit(parent, staged)] && build.outcome == old(build).outcome
      ensures commit.None? ==>
        commits == old(commits) && build.stage == Idle && build.outcome == if same then Unchanged else Failed
      ensures same <==> ok && parent.Some? && compared && TreeOf(old(commits), parent) == staged
      ensures commit.None? <==> same || !ok
      ensures before <= moves && (AllHonest(before) ==> AllHonest(moves))
    {
      hide Run;
      var c := Commit(parent, staged);
      assert Storable(commits, hash(c), c);
      moves := Take(Store(hash(c), compared, ok), start, before);
      same := ok && parent.Some? && compared && TreeOf(commits, parent) == staged;
      if !ok || same {
        return None, same, moves;
      }
      commits := commits[hash(c) := c];
      commit := Some(hash(c));
    }

    /** The repair a failing publish attempts before it raises. */
    method RepairNow(ends: SyncEnds, ghost start: Build, ghost before: seq<Move>) returns (ghost moves: seq<Move>)
      requires Valid() && build == Run(start, before) && build.stage == Syncing(Repair)
      modifies this`worktree, this`marker, this`build
      ensures Valid() && build == Run(start, moves)
      ensures build.stage == Idle && build.outcome == Failed && build.refs == old(build).refs
      ensures worktree == SyncedTree(ends, old(worktree), HeadTree(old(build)), head)
      ensures marker <==> old(marker) && MarkerStays(ends, head)
      ensures build.files.edited ==> old(build).files.edited
      ensures AllHonest(before) && ends.revParse ==> AllHonest(moves)
    {
      hide Run;
      var ok: bool;
      ok, moves := SyncToHead(ends, start, before);
      if ok {
        SyncLeads(build, Unlink(ends.unlink));
        moves := RemoveMarker(ends.unlink, start, moves);
      }
    }

    /** The publish half: HEAD has moved, the tree follows, the marker goes. */
    method SyncPublished(c: Script, late: Meanwhile, ghost start: Build, ghost before: seq<Move>)
      returns (published: bool, ghost moves: seq<Move>)
      requires Valid() && build == Run(start, before) && build.stage == Resetting(Goal.Publish) && build.outcome == Running
      requires marker
      modifies this`commits, this`head, this`worktree, this`marker, this`build
      ensures Valid() && build == Run(start, moves)
      ensures build.stage == Idle && build.outcome == if published then Published else Failed
      ensures AllHonest(before) && HonestScript(c) ==> AllHonest(moves)
      ensures published && Inv(start) && AllHonest(moves) ==> Settled(build)
      ensures marker <==> if published then !c.publish.unlink else MarkerStays(c.repair, head)
      ensures !published && Resyncs(c.repair, head) && GoesThrough(c.repair, head) ==> worktree == TreeOf(commits, head)
      ensures late == Quiet ==> build.refs == old(build).refs && (build.files.edited ==> old(build).files.edited)
      ensures published <==> c.publish.reset && c.publish.clean
      ensures build.refs.moved == old(build).refs.moved
    {
      hide Run, Next, Traced, Guarded, Injective, Addressed, Settled, AllHonest;
      published := false;
      var e := c.publish;
      SyncLeads(build, Reset(e.reset, e.torn));
      moves := ResetTree(e.reset, e.torn, start, before);
      if !e.reset {
        moves := RepairNow(c.repair, start, moves);
        return;
      }
      moves := Outsiders(late, start, moves);
      SyncLeads(build, Clean(e.clean, e.kept));
      moves := CleanTree(e.clean, e.kept, start, moves);
      if !e.clean {
        moves := RepairNow(c.repair, start, moves);
        return;
      }
      moves := Unmark(e.unlink, start, moves);
      published := true;
    }

    /** The last step of a publish; from here on the tree is HEAD. */
    method Unmark(ok: bool, ghost start: Build, ghost before: seq<Move>) returns (ghost moves: seq<Move>)
      requires Valid() && build == Run(start, before) && build.stage == Unlinking(Goal.Publish) && build.outcome == Running
      modifies this`marker, this`build
      ensures Valid() && build == Run(start, moves) && (AllHonest(before) ==> AllHonest(moves))
      ensures build.stage == Idle && build.outcome == Published && build.refs == old(build).refs
      ensures build.files.edited ==> old(build).files.edited
      ensures Inv(start) && AllHonest(moves) ==> Settled(build)
      ensures marker <==> old(marker) && !ok
    {
      hide Run, Next, Traced, Guarded, Injective, Addressed, Settled;
      ghost var was := build;
      SyncLeads(build, Unlink(ok));
      UnlinkPublishes(was, ok);
      moves := RemoveMarker(ok, start, before);
      if Inv(start) && AllHonest(moves) {
        assert forall m :: m in before ==> m in moves;
        RunKeepsInv(start, before);
        PublishEndsSettled(was, Unlink(ok));
      }
    }

    /** Marker, compare-and-swap of HEAD, sync, unmark; any failure after the marker is repaired at once. */
    method PublishCommit(parent: Option<nat>, commit: nat, c: Script, late: Meanwhile, ghost start: Build, ghost before: seq<Move>)
      returns (published: bool, ghost moves: seq<Move>)
      requires Valid() && build == Run(start, before) && build.stage == Marking(parent, commit) && build.outcome == Running
      requires commit in commits
      modifies this`commits, this`head, this`worktree, this`marker, this`build
      ensures Valid() && build == Run(start, moves)
      ensures build.stage == Idle && build.outcome == if published then Published else Failed
      ensures AllHonest(before) && HonestScript(c) ==> AllHonest(moves)
      ensures published && Inv(start) && AllHonest(moves) ==> Settled(build)
      ensures Leaves(c, true, old(marker), build.outcome, build)
      ensures published <==> c.mark == Whole && old(head) == parent && Finishes(c)
      ensures build.refs.moved <==> old(build).refs.moved || (c.mark == Whole && old(head) == parent && Took(c.swap))
      ensures late == Quiet ==>
        && commits == old(commits)
        && head == if c.mark == Whole && old(head) == parent && Took(c.swap) then Some(commit) else old(head)
      ensures late == Quiet && build.files.edited ==> old(build).files.edited
    {
      hide Run, Next, Traced, Guarded, Injective, Addressed, Settled, TreeOf, AllHonest;
      published := false;
      MarkLeads(build, c.mark);
      marker := marker || Took(c.mark);
      moves := Take(Mark(c.mark), start, before);
      if c.mark != Whole {
        return;
      }
      SwapLeads(build, c.swap);
      moves := Take(MoveRef(c.swap), start, moves);
      if !Took(c.swap) || head != parent {
        moves := RepairNow(c.repair, start, moves);
        return;
      }
      head := Some(commit);
      if c.swap != Whole {
        moves := RepairNow(c.repair, start, moves);
        return;
      }
      published, moves := SyncPublished(c, late, start, moves);
    }

    /** Repair, refuse, purge, and read the HEAD this transaction extends. */
    method Prepare(c: Script, ghost start: Build) returns (ok: bool, ghost moves: seq<Move>)
      requires Valid() && build == start && build.stage == Idle
      modifies this`worktree, this`marker, this`build
      ensures Valid() && build == Run(start, moves)
      ensures build.stage == (if ok then Staging(if c.readHead then head else None) else Idle)
      ensures build.outcome == if ok then Running else Failed
      ensures build.refs == start.refs.(moved := false) && (build.files.edited ==> start.files.edited)
      ensures !start.files.marker && Dirty(start.files, HeadTree(start)) ==> !ok && build.files == start.files
      ensures HonestScript(c) ==> AllHonest(moves)
      ensures ok <==> Prepares(c, start)
      ensures marker <==> start.files.marker && MarkerStays(c.recover, start.refs.head)
    {
      moves := [];
      assert build == Run(start, moves);
      hide Run, Next, Dirty, Traced, Injective, Addressed;
      ok, moves := RecoverPending(c.recover, start, moves);
      if !ok {
        return;
      }
      ghost var recovered := build;
      if Inv(start) && AllHonest(moves) {
        RunKeepsInv(start, moves);
      }
      ok, moves := RefuseOrPurge(c.status, c.purge, c.purgeKept, start, moves);
      if !ok {
        return;
      }
      ReadHeadStages(build, c.readHead);
      moves := Take(ReadHead(c.readHead), start, moves);
    }

    /** What the pipeline made of the source, committed; a no-op and a refusal end the ingest here. */
    method Compose(c: Script, parent: Option<nat>, ghost start: Build, ghost before: seq<Move>)
      returns (commit: Option<nat>, same: bool, ghost moves: seq<Move>)
      requires Valid() && build == Run(start, before) && build.stage == Staging(parent) && build.outcome == Running
      modifies this`commits, this`build
      ensures Valid() && build == Run(start, moves)
      ensures build.files == old(build).files && build.refs == old(build).refs.(commits := commits)
      ensures AllHonest(before) ==> AllHonest(moves)
      ensures same <==> Same(c, parent, old(commits))
      ensures commit.Some? <==> c.staged.Some? && c.stored && !same
      ensures commit.Some? ==>
        && commit == Some(hash(Commit(parent, c.staged.value))) && build.stage == Marking(parent, commit.value)
        && build.outcome == Running && commits == old(commits)[commit.value := Commit(parent, c.staged.value)]
      ensures commit.None? ==>
        commits == old(commits) && build.stage == Idle && build.outcome == if same then Unchanged else Failed
      ensures same && Inv(start) && AllHonest(moves) ==> Settled(build)
    {
      hide Run, Next, Traced, Guarded, Injective, Addressed, Storable, TreeOf;
      StageLeads(build, c.staged);
      moves := Take(Stage(c.staged), start, before);
      if c.staged.None? {
        return None, false, moves;
      }
      ghost var committing, earlier := build, moves;
      commit, same, moves := CommitStaging(parent, c.staged.value, c.compared, c.stored, start, moves);
      if same && Inv(start) && AllHonest(moves) {
        assert forall m :: m in earlier ==> m in moves;
        RunKeepsInv(start, earlier);
        CommittingIsSettled(committing);
        SettledAgain(committing, build);
      }
    }

    /** Committed and published. */
    method Deliver(c: Script, parent: Option<nat>, staging: Meanwhile, late: Meanwhile, ghost start: Build, ghost before: seq<Move>)
      returns (outcome: Outcome, ghost moves: seq<Move>)
      requires Valid() && build == Run(start, before) && build.stage == Staging(parent) && build.outcome == Running
      modifies this`commits, this`head, this`worktree, this`marker, this`build
      ensures Valid() && build.stage == Idle && build.outcome == outcome && build == Run(start, moves) && outcome != Running
      ensures AllHonest(before) && HonestScript(c) ==> AllHonest(moves)
      ensures outcome != Failed && Inv(start) && AllHonest(moves) ==> Settled(build)
      ensures Leaves(c, Composes(c, parent, old(commits)), old(marker), outcome, build)
      ensures outcome == Unchanged ==> marker == old(marker)
      ensures
        var swaps := Delivers(c, parent, old(commits), HeadAfter(staging, old(head), hash));
        && (outcome == Published <==> swaps && Finishes(c))
        && (build.refs.moved <==> old(build).refs.moved || swaps)
        && (staging == late == Quiet ==> head == if swaps then Some(hash(Commit(old(head), c.staged.value))) else old(head))
      ensures outcome == Unchanged <==> Same(c, parent, old(commits))
      ensures staging == late == Quiet && build.files.edited && outcome != Failed ==> old(build).files.edited
      ensures outcome != Failed ==> c.staged.Some?
      ensures outcome == Unchanged ==> TreeOf(commits, parent) == c.staged.value
      ensures staging == late == Quiet && outcome == Published ==>
        head.Some? && head.value in commits && commits[head.value] == Commit(parent, c.staged.value)
      ensures outcome == Unchanged ==> commits == old(commits) && head == old(head)
    {
      hide Run, Next, Traced, Guarded, Injective, Addressed, Storable, TreeOf, Settled, AllHonest, Leaves, Honest;
      var commit: Option<nat>, same: bool;
      commit, same, moves := Compose(c, parent, start, before);
      if commit.None? {
        LeavesEarly(c, old(marker), build.outcome, build);
        return if same then Unchanged else Failed, moves;
      }
      var published: bool;
      published, moves := PublishLater(parent, commit.value, c, staging, late, start, moves);
      outcome := if published then Published else Failed;
    }

    /** Published after an outsider may have moved HEAD under the new commit. */
    method PublishLater(parent: Option<nat>, commit: nat, c: Script, staging: Meanwhile, late: Meanwhile,
                        ghost start: Build, ghost before: seq<Move>)
      returns (published: bool, ghost moves: seq<Move>)
      requires Valid() && build == Run(start, before) && build.stage == Marking(parent, commit) && build.outcome == Running
      requires commit in commits
      modifies this`commits, this`head, this`worktree, this`marker, this`build
      ensures Valid() && build == Run(start, moves)
      ensures build.stage == Idle && build.outcome == if published then Published else Failed
      ensures AllHonest(before) && HonestScript(c) ==> AllHonest(moves)
      ensures published && Inv(start) && AllHonest(moves) ==> Settled(build)
      ensures Leaves(c, true, old(marker), build.outcome, build)
      ensures
        var swaps := c.mark == Whole && Took(c.swap) && HeadAfter(staging, old(head), hash) == parent;
        && (published <==> swaps && Finishes(c))
        && (build.refs.moved <==> old(build).refs.moved || swaps)
        && (staging == late == Quiet ==>
              && commits == old(commits) && head == (if swaps then Some(commit) else old(head))
              && (build.files.edited ==> old(build).files.edited))
    {
      hide Run, Next, Traced, Guarded, Injective, Addressed, Storable, TreeOf, Settled, AllHonest, Leaves, Honest;
      moves := Outsiders(staging, start, before);
      published, moves := PublishCommit(parent, commit, c, late, start, moves);
    }

    /** Delivered after an outsider may have acted on the repository read. */
    method Proceed(c: Script, parent: Option<nat>, early: Meanwhile, staging: Meanwhile, late: Meanwhile,
                   ghost start: Build, ghost before: seq<Move>)
      returns (outcome: Outcome, ghost moves: seq<Move>)
      requires Valid() && build == Run(start, before) && build.stage == Staging(parent) && build.outcome == Running
      modifies this`commits, this`head, this`worktree, this`marker, this`build
      ensures Valid() && build.stage == Idle && build.outcome == outcome && build == Run(start, moves) && outcome != Running
      ensures AllHonest(before) && HonestScript(c) ==> AllHonest(moves)
      ensures outcome != Failed && Inv(start) && AllHonest(moves) ==> Settled(build)
      ensures outcome == Unchanged ==> marker == old(marker)
      ensures parent.None? || parent.value in old(commits) ==>
        Leaves(c, Composes(c, parent, old(commits)), old(marker), outcome, build)
      ensures parent.None? || parent.value in old(commits) ==>
        var swaps := Delivers(c, parent, old(commits), HeadAfter(staging, HeadAfter(early, old(head), hash), hash));
        && (outcome == Published <==> swaps && Finishes(c))
        && (build.refs.moved <==> old(build).refs.moved || swaps)
        && (early == staging == late == Quiet ==> head == if swaps then Some(hash(Commit(old(head), c.staged.value))) else old(head))
      ensures early == staging == late == Quiet && outcome != Failed ==>
        && (build.files.edited ==> old(build).files.edited)
        && (old(head) == parent ==> Some(TreeOf(commits, head)) == c.staged)
      ensures early == staging == Quiet && GoesWell(c) && old(head) == parent ==> outcome != Failed
    {
      hide Run, Next, Traced, Guarded, Injective, Addressed, AllHonest, Storable, Delivers, Composes, Leaves, Finishes, GoesWell, Settled;
      moves := Outsiders(early, start, before);
      DeliversAsRead(c, parent, old(commits), commits, HeadAfter(staging, head, hash));
      GoodCallsDeliver(c, parent, commits);
      outcome, moves := Deliver(c, parent, staging, late, start, moves);
    }

    /** Prepared, delivered, and every promise but the tree's content. */
    method Transact(c: Script, early: Meanwhile, staging: Meanwhile, late: Meanwhile) returns (outcome: Outcome, ghost moves: seq<Move>)
      requires Valid() && build.stage == Idle
      modifies this`commits, this`head, this`worktree, this`marker, this`build
      ensures Valid() && build.stage == Idle && build.outcome == outcome && build == Run(old(build), moves) && outcome != Running
      ensures HonestScript(c) ==> AllHonest(moves)
      ensures HonestScript(c) && Inv(old(build)) && outcome != Failed ==> Settled(build)
      ensures outcome == Unchanged ==> (marker <==> old(marker) && MarkerStays(c.recover, old(head)))
      ensures Traced(old(build)) ==>
        Leaves(c, Marks(c, old(build)), old(marker) && MarkerStays(c.recover, old(head)), outcome, build)
      ensures Traced(old(build)) ==>
        var swaps := Reaches(c, old(build), early, staging, hash);
        && (outcome == Published <==> swaps && Finishes(c))
        && (build.refs.moved <==> swaps)
        && (early == staging == late == Quiet ==>
              head == if swaps then Some(hash(Commit(old(head), c.staged.value))) else old(head))
      ensures !old(marker) && Dirty(old(build).files, HeadTree(old(build))) ==>
        outcome == Failed && worktree == old(worktree) && head == old(head) && commits == old(commits)
      ensures outcome == Failed && GoesWell(c) && early == staging == Quiet ==> !Prepares(c, old(build))
      ensures early == staging == late == Quiet && outcome != Failed ==>
        && (build.files.edited ==> old(build).files.edited)
        && (c.readHead ==> Some(TreeOf(commits, head)) == c.staged)
    {
      hide Run, Next, Dirty, Traced, Guarded, Injective, Addressed, AllHonest, Storable;
      hide Prepares, Composes, Delivers, Finishes, Leaves, MarkerStays, TreeOf, HeadAfter, Settled, Honest;
      ghost var start := build;
      var ok: bool;
      ok, moves := Prepare(c, start);
      if !ok {
        LeavesEarly(c, marker, Failed, build);
        return Failed, moves;
      }
      if Traced(start) {
        HeadIsStored(start);
      }
      outcome, moves := Proceed(c, if c.readHead then head else None, early, staging, late, start, moves);
    }

    /**
     One whole ingest. Whatever fails and whoever interferes, the invariant
     holds at the end; a publish or a no-op leaves the tree equal to HEAD; a
     visible hand edit is refused untouched; and when every call goes well and
     nobody interferes, HEAD and the tree are the staged tree and no marker is left.
     */
    method Ingest(c: Script, early: Meanwhile, staging: Meanwhile, late: Meanwhile) returns (outcome: Outcome, ghost moves: seq<Move>)
      requires Valid() && build.stage == Idle
      modifies this`commits, this`head, this`worktree, this`marker, this`build
      ensures Valid() && build.stage == Idle && build.outcome == outcome && build == Run(old(build), moves)
      ensures HonestScript(c) && Inv(old(build)) ==> Inv(build)
      ensures HonestScript(c) && Inv(old(build)) && outcome != Failed ==> Settled(build)
      ensures Traced(old(build)) ==>
        Leaves(c, Marks(c, old(build)), old(marker) && MarkerStays(c.recover, old(head)), outcome, build)
      ensures Traced(old(build)) ==>
        var swaps := Reaches(c, old(build), early, staging, hash);
        && (outcome == Published <==> swaps && Finishes(c))
        && (build.refs.moved <==> swaps)
        && (early == staging == late == Quiet ==>
              head == if swaps then Some(hash(Commit(old(head), c.staged.value))) else old(head))
      ensures !old(marker) && Dirty(old(build).files, HeadTree(old(build))) ==>
        outcome == Failed && worktree == old(worktree) && head == old(head) && commits == old(commits)
      ensures HonestScript(c) && Inv(old(build)) && !old(build).files.edited && GoesWell(c) && early == staging == late == Quiet ==>
        && outcome != Failed && !marker
        && worktree == TreeOf(commits, head) == c.staged.value
    {
      ghost var start := build;
      hide Run, Next, Traced, Guarded, Injective, Addressed, Reaches, Delivers, Finishes, HeadAfter;
      outcome, moves := Transact(c, early, staging, late);
      if HonestScript(c) && Inv(start) {
        HonestRunKeepsInv(start, moves);
        if !start.files.edited && GoesWell(c) {
          AllGoodPrepares(c, start);
        }
      }
    }
  }
}
