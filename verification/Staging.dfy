/**
 What one ingest stages from a source and the old pinned state, over runs of
 ingests, and what the dry run says beforehand. Compilation, validation and pin
 resolution give arbitrary answers; the same source gets the same ones.
 */
module Staging {
  import opened Prelude
  import opened ControlToml
  import opened Publish

  const PRODUCT_TOML := "product.toml"
  const CONTROL_TOML := "control.toml"
  const PINS_TOML := "pins.toml"

  /** A path that is missing, a regular file, or anything else. */
  datatype Shape = Absent | Plain | Irregular

  /**
   The source as harvested: the files copied verbatim, the compiled knowledge
   trees, the pins the resolvers gave it, its settings, and whether every check
   and the lint of the staged tree pass.
   */
  datatype Source = Source(
    files: Tree,
    product: Shape,
    knowledge: Tree,
    pins: string,
    authorsControl: bool,
    settings: Result<Table, Flaw>,
    accepted: bool)

  /** The fixed parts of the printer: its schema and its comment lines. */
  datatype Printer = Printer(schema: seq<Setting>, about: seq<string>, notes: seq<string>)

  predicate GoodPrinter(pr: Printer) { Schema(pr.schema) && Comments(pr.about) && Comments(pr.notes) }

  predicate ReadsBack(pr: Printer, values: Table) {
    Coerced(pr.schema, values) && values.Keys == Defaults(pr.schema).Keys
  }

  /** Facts of the harvest: product.toml is copied iff it is a plain file, control.toml never, knowledge stays in its directory. */
  predicate Harvested(pr: Printer, src: Source) {
    && (PRODUCT_TOML in src.files <==> src.product == Plain)
    && CONTROL_TOML !in src.files
    && (forall p :: p in src.knowledge ==> p != PRODUCT_TOML && p != CONTROL_TOML && p != PINS_TOML)
    && (src.settings.Ok? ==> ReadsBack(pr, src.settings.value))
  }

  function AddressIn(pinned: Tree): Result<Address, Flaw> {
    if CONTROL_TOML in pinned then ReadAddress(pinned[CONTROL_TOML]) else Ok(NO_ADDRESS)
  }

  function FieldsFor(a: Address, values: Table): Fields { Fields(a.ip, a.port, a.origin, values) }

  function ControlText(pr: Printer, f: Fields): string { Lines(RenderLines(pr.schema, pr.about, pr.notes, f)) }

  /** A source without product.toml carries the pinned one forward. */
  function WithProduct(src: Source, pinned: Tree): Tree {
    if src.product == Absent && PRODUCT_TOML in pinned then src.files[PRODUCT_TOML := pinned[PRODUCT_TOML]] else src.files
  }

  function Staged(pr: Printer, src: Source, pinned: Tree): Option<Tree> {
    if src.product == Irregular || src.authorsControl || src.settings.Err? || !src.accepted then None
    else match AddressIn(pinned)
      case Err(_) => None
      case Ok(a) =>
        Some((WithProduct(src, pinned) + src.knowledge)
             [PINS_TOML := src.pins]
             [CONTROL_TOML := ControlText(pr, FieldsFor(a, src.settings.value))])
  }

  /** Some string of the staged control.toml holds a control character the printer does not escape. */
  predicate Unprintable(src: Source, pinned: Tree) {
    && src.settings.Ok? && AddressIn(pinned).Ok?
    && !FieldsAreClean(FieldsFor(AddressIn(pinned).value, src.settings.value))
  }

  lemma {:induction false} StagedParts(pr: Printer, src: Source, pinned: Tree)
    requires Harvested(pr, src) && Staged(pr, src, pinned).Some?
    ensures
      var t := Staged(pr, src, pinned).value;
      && CONTROL_TOML in t && PINS_TOML in t
      && t[CONTROL_TOML] == ControlText(pr, FieldsFor(AddressIn(pinned).value, src.settings.value))
      && (PRODUCT_TOML in t <==> PRODUCT_TOML in WithProduct(src, pinned))
      && (PRODUCT_TOML in t ==> t[PRODUCT_TOML] == WithProduct(src, pinned)[PRODUCT_TOML])
  {
    DifferentNames();
  }

  lemma {:induction false} DifferentNames()
    ensures PRODUCT_TOML != CONTROL_TOML && PRODUCT_TOML != PINS_TOML && CONTROL_TOML != PINS_TOML
  {
    assert PRODUCT_TOML[0] == 'p' && CONTROL_TOML[0] == 'c' && |PRODUCT_TOML| == 12 && |PINS_TOML| == 9 && PINS_TOML[0] == 'p';
  }

  lemma {:induction false} AddressIsLegal(pinned: Tree)
    requires AddressIn(pinned).Ok?
    ensures 1 <= AddressIn(pinned).value.port <= 65535
  {
  }

  /** A source that declares product.toml wins over the pinned one; its knowledge and pins are staged as given. */
  lemma {:induction false} DeclaredFilesWin(pr: Printer, src: Source, pinned: Tree)
    requires Harvested(pr, src) && Staged(pr, src, pinned).Some?
    ensures
      var t := Staged(pr, src, pinned).value;
      && t[PINS_TOML] == src.pins
      && (src.product == Plain ==> PRODUCT_TOML in t && t[PRODUCT_TOML] == src.files[PRODUCT_TOML])
      && (forall p :: p in src.knowledge ==> p in t && t[p] == src.knowledge[p])
      && (forall p :: p in src.files && p !in src.knowledge && p != PINS_TOML ==> p in t && t[p] == src.files[p])
      && (forall p :: p in t ==> p in src.files || p in src.knowledge || p in {PRODUCT_TOML, PINS_TOML, CONTROL_TOML})
  {
    DifferentNames();
    hide ControlText, AddressIn, ReadsBack;
  }

  /**
   The staged control.toml reads back as the pinned address and the source's
   settings, exactly when it is printable; otherwise it does not parse.
   */
  lemma {:induction false} StagedAddress(pr: Printer, src: Source, pinned: Tree)
    requires GoodPrinter(pr) && Harvested(pr, src) && Staged(pr, src, pinned).Some?
    ensures
      var t := Staged(pr, src, pinned).value;
      && AddressIn(t) == (if Unprintable(src, pinned) then Err(BadToml) else AddressIn(pinned))
      && ReadValues(pr.schema, t[CONTROL_TOML]) == if Unprintable(src, pinned) then Err(BadToml) else src.settings
  {
    StagedParts(pr, src, pinned);
    AddressIsLegal(pinned);
    var f := FieldsFor(AddressIn(pinned).value, src.settings.value);
    RenderReadsBack(pr.schema, pr.about, pr.notes, f);
  }

  /**
   Idempotence: staging the same source over its own result gives that result
   again, if and only if the result is printable; otherwise it is refused.
   */
  lemma {:induction false} StagingIsIdempotent(pr: Printer, src: Source, pinned: Tree)
    requires GoodPrinter(pr) && Harvested(pr, src) && Staged(pr, src, pinned).Some?
    ensures
      var t := Staged(pr, src, pinned).value;
      Staged(pr, src, t) == if Unprintable(src, pinned) then None else Some(t)
  {
    var t := Staged(pr, src, pinned).value;
    StagedParts(pr, src, pinned);
    StagedAddress(pr, src, pinned);
    hide ControlText, AddressIn, ReadsBack, Unprintable;
    if src.product == Absent {
      assert WithProduct(src, t) == WithProduct(src, pinned);
    }
  }

  /** The preview of an unborn build rests on this: pins.toml and control.toml are always staged. */
  lemma {:induction false} StagedIsNeverEmpty(pr: Printer, src: Source, pinned: Tree)
    requires Staged(pr, src, pinned).Some?
    ensures Staged(pr, src, pinned).value != map[]
  {
    assert CONTROL_TOML in Staged(pr, src, pinned).value;
  }

  // ---- runs of ingests ----

  /** A refused ingest leaves the build; an accepted one makes it the staged tree. */
  function Ingest(pr: Printer, pinned: Tree, src: Source): Tree {
    var staged := Staged(pr, src, pinned);
    if staged.Some? then staged.value else pinned
  }

  function Ingests(pr: Printer, pinned: Tree, sources: seq<Source>): Tree {
    if sources == [] then pinned
    else Ingest(pr, Ingests(pr, pinned, sources[..|sources| - 1]), sources[|sources| - 1])
  }

  /** Every accepted source of the run is printable with the address it meets. */
  predicate AllPrintable(pr: Printer, pinned: Tree, sources: seq<Source>) {
    forall n :: 0 <= n < |sources| ==> !Unprintable(sources[n], pinned)
  }

  predicate AllHarvested(pr: Printer, sources: seq<Source>) {
    forall n :: 0 <= n < |sources| ==> Harvested(pr, sources[n])
  }

  /** The machine's address block survives any run of ingests. */
  lemma {:induction false} AddressSurvives(pr: Printer, pinned: Tree, sources: seq<Source>)
    requires GoodPrinter(pr) && AllHarvested(pr, sources)
    requires AllPrintable(pr, pinned, sources)
    ensures AddressIn(Ingests(pr, pinned, sources)) == AddressIn(pinned)
  {
    if sources != [] {
      var front, src := sources[..|sources| - 1], sources[|sources| - 1];
      assert forall n :: 0 <= n < |front| ==> front[n] == sources[n];
      AddressSurvives(pr, pinned, front);
      var mid := Ingests(pr, pinned, front);
      if Staged(pr, src, mid).Some? {
        StagedAddress(pr, src, mid);
      }
    }
  }

  /** The product pin survives any run of sources that have no product.toml. */
  lemma {:induction false} ProductPinSurvives(pr: Printer, pinned: Tree, sources: seq<Source>)
    requires AllHarvested(pr, sources)
    requires forall n :: 0 <= n < |sources| ==> sources[n].product != Plain
    ensures
      var t := Ingests(pr, pinned, sources);
      && (PRODUCT_TOML in t <==> PRODUCT_TOML in pinned)
      && (PRODUCT_TOML in t ==> t[PRODUCT_TOML] == pinned[PRODUCT_TOML])
  {
    if sources != [] {
      var front, src := sources[..|sources| - 1], sources[|sources| - 1];
      assert forall n :: 0 <= n < |front| ==> front[n] == sources[n];
      ProductPinSurvives(pr, pinned, front);
      var mid := Ingests(pr, pinned, front);
      if Staged(pr, src, mid).Some? {
        StagedParts(pr, src, mid);
      }
    }
  }

  /** One unprintable setting is committed all the same, and from then on every ingest is refused. */
  lemma {:induction false} UnprintableBlocksEveryIngest(pr: Printer, src: Source, pinned: Tree, later: seq<Source>)
    requires GoodPrinter(pr) && Harvested(pr, src)
    requires Staged(pr, src, pinned).Some? && Unprintable(src, pinned)
    ensures Ingests(pr, pinned, [src] + later) == Staged(pr, src, pinned).value
  {
    StagedAddress(pr, src, pinned);
    hide Staged, AddressIn, Unprintable;
    StaysUnreadable(pr, pinned, [src], later);
    assert [src][..0] == [];
    assert Ingests(pr, pinned, []) == pinned;
  }

  lemma {:induction false} StaysUnreadable(pr: Printer, pinned: Tree, sources: seq<Source>, later: seq<Source>)
    requires AddressIn(Ingests(pr, pinned, sources)).Err?
    ensures Ingests(pr, pinned, sources + later) == Ingests(pr, pinned, sources)
    decreases |later|
  {
    hide Staged, AddressIn;
    var all := sources + later;
    if later == [] {
      assert all == sources;
    } else {
      var last := later[|later| - 1];
      assert all[..|all| - 1] == sources + later[..|later| - 1] && all[|all| - 1] == last;
      StaysUnreadable(pr, pinned, sources, later[..|later| - 1]);
      UnreadableIsRefused(pr, last, Ingests(pr, pinned, sources));
    }
  }

  lemma {:induction false} UnreadableIsRefused(pr: Printer, src: Source, pinned: Tree)
    requires AddressIn(pinned).Err?
    ensures Staged(pr, src, pinned).None?
  {
  }

  // ---- the dry run ----

  datatype Verdict = Refused | NoChange | Changes(staged: Tree)

  /** The files a real ingest checks: a marker over a born HEAD is repaired first, over an unborn one only removed. */
  function Repaired(s: Build): Files {
    if !s.files.marker then s.files
    else if s.refs.head.None? then s.files.(marker := false)
    else s.files.(worktree := HeadTree(s), marker := false, edited := false)
  }

  /** What a real ingest with no failing call decides: repair, refuse dirt, purge, stage, compare. */
  function RealVerdict(pr: Printer, s: Build, src: Source): Verdict {
    if Dirty(Repaired(s), HeadTree(s)) then Refused
    else match Staged(pr, src, HeadTree(s))
      case None => Refused
      case Some(t) => if s.refs.head.Some? && t == HeadTree(s) then NoChange else Changes(t)
  }

  /** What the preview says: under a marker it checks nothing, it repairs and purges nothing, and compares against HEAD or the empty tree. */
  function DryVerdict(pr: Printer, s: Build, src: Source): Verdict {
    if !s.files.marker && Dirty(s.files, HeadTree(s)) then Refused
    else match Staged(pr, src, if s.files.marker then HeadTree(s) else s.files.worktree)
      case None => Refused
      case Some(t) => if t == HeadTree(s) then NoChange else Changes(t)
  }

  // ---- the real verdict is the transaction's ----

  const REPAIR_MOVES: seq<Move> := [Begin, RevParse(true), Reset(true, map[]), Clean(true, {}), Unlink(true)]
  const CHECK_MOVES: seq<Move> := [Status(true), Clean(true, {}), ReadHead(true)]
  const PUBLISH_MOVES: seq<Move> := [Mark(Whole), MoveRef(Whole), Reset(true, map[]), Clean(true, {}), Unlink(true)]

  /** Every call of an ingest in order, each going well; one the transaction does not reach does nothing. */
  function AllGood(staged: Option<Tree>, id: nat): seq<Move> {
    REPAIR_MOVES + CHECK_MOVES + [Stage(staged), Store(id, true, true)] + PUBLISH_MOVES
  }

  predicate HeadStored(s: Build) { s.refs.head.Some? ==> s.refs.head.value in s.refs.commits }

  lemma {:induction false} FullClean(files: Files, tree: Tree)
    requires Tracked(files.worktree, tree)
    ensures CleanFiles(files, tree, true, {}) == files.(worktree := tree, edited := false)
  {
    var after := CleanFiles(files, tree, true, {});
    assert after.worktree.Keys == tree.Keys;
    assert after.worktree == tree;
  }

  lemma {:induction false} RepairRuns(s: Build)
    requires s.stage.Idle?
    ensures Run(s, REPAIR_MOVES) == Build(s.refs.(moved := false), Repaired(s), Checking, Running)
  {
    var s1 := Next(s, Begin);
    var s2 := Next(s1, RevParse(true));
    var s3 := Next(s2, Reset(true, map[]));
    FullClean(s.files.(worktree := HeadTree(s)), HeadTree(s));
    assert map[] + HeadTree(s) == HeadTree(s);
    var s4 := Next(s3, Clean(true, {}));
    var s5 := Next(s4, Unlink(true));
    hide TreeOf, CleanFiles, Dirty;
    RunsThrough(s, REPAIR_MOVES, [s, s1, s2, s3, s4, s5]);
  }

  lemma {:induction false} CheckRuns(s: Build)
    requires s.stage == Checking
    ensures Run(s, CHECK_MOVES)
         == if Dirty(s.files, HeadTree(s)) then Fail(s)
            else s.(files := s.files.(worktree := HeadTree(s), edited := false), stage := Staging(s.refs.head))
  {
    var s1 := Next(s, Status(true));
    if !Dirty(s.files, HeadTree(s)) {
      FullClean(s.files, HeadTree(s));
    }
    hide TreeOf, CleanFiles, Dirty;
    var s2 := Next(s1, Clean(true, {}));
    var s3 := Next(s2, ReadHead(true));
    RunsThrough(s, CHECK_MOVES, [s, s1, s2, s3]);
  }

  lemma {:induction false} IdleStays(s: Build, moves: seq<Move>)
    requires s.stage.Idle? && forall m :: m in moves ==> !m.Begin? && !Worldly(m)
    ensures Run(s, moves) == s
  {
    if moves != [] {
      IdleStays(s, moves[..|moves| - 1]);
      assert moves[|moves| - 1] in moves;
    }
  }

  lemma {:induction false} DecideRuns(s: Build, staged: Option<Tree>, id: nat)
    requires s.stage == Staging(s.refs.head) && id !in s.refs.commits
    ensures
      Run(s, [Stage(staged), Store(id, true, true)])
      == if staged.None? then Fail(s)
         else if s.refs.head.Some? && HeadTree(s) == staged.value then s.(stage := Idle, outcome := Outcome.Unchanged)
         else s.(refs := s.refs.(commits := s.refs.commits[id := Commit(s.refs.head, staged.value)]), stage := Marking(s.refs.head, id))
  {
    var s1 := Next(s, Stage(staged));
    var s2 := Next(s1, Store(id, true, true));
    RunsThrough(s, [Stage(staged), Store(id, true, true)], [s, s1, s2]);
  }

  lemma {:induction false} PublishRuns(s: Build, id: nat)
    requires s.stage == Marking(s.refs.head, id) && id in s.refs.commits
    ensures
      var t := Run(s, PUBLISH_MOVES);
      && t.stage == Idle && t.outcome == Published
      && t.refs == HeadTo(s.refs, id).(moved := true)
      && t.files == s.files.(worktree := s.refs.commits[id].tree, marker := false, edited := false)
  {
    var tree := s.refs.commits[id].tree;
    var s1 := Next(s, Mark(Whole));
    var s2 := Next(s1, MoveRef(Whole));
    assert HeadTree(s2) == tree;
    var s3 := Next(s2, Reset(true, map[]));
    assert map[] + tree == tree;
    FullClean(s3.files, tree);
    var s4 := Next(s3, Clean(true, {}));
    var s5 := Next(s4, Unlink(true));
    hide TreeOf, CleanFiles;
    RunsThrough(s, PUBLISH_MOVES, [s, s1, s2, s3, s4, s5]);
  }

  /** Where the all-good run stands once it has checked the tree. */
  lemma {:induction false} AllGoodRuns(s: Build, staged: Option<Tree>, id: nat)
    requires s.stage.Idle? && HeadStored(s) && id !in s.refs.commits
    ensures
      var t := Run(s, AllGood(staged, id));
      if Dirty(Repaired(s), HeadTree(s)) || staged.None? then t.outcome == Failed && t.stage.Idle? && t.refs == s.refs.(moved := false)
      else if s.refs.head.Some? && HeadTree(s) == staged.value then
        && t.outcome == Outcome.Unchanged && t.stage.Idle? && t.refs == s.refs.(moved := false)
        && t.files.worktree == HeadTree(s) && !t.files.marker
      else
        && t.outcome == Published && t.stage.Idle? && t.refs.head == Some(id) && t.refs.moved
        && t.files.worktree == HeadTree(t) == staged.value && !t.files.marker
  {
    RepairRuns(s);
    var a := Build(s.refs.(moved := false), Repaired(s), Checking, Running);
    assert HeadTree(a) == HeadTree(s);
    CheckRuns(a);
    RunAfter(s, REPAIR_MOVES, CHECK_MOVES);
    RunAfter(s, REPAIR_MOVES + CHECK_MOVES, [Stage(staged), Store(id, true, true)] + PUBLISH_MOVES);
    assert AllGood(staged, id) == REPAIR_MOVES + CHECK_MOVES + ([Stage(staged), Store(id, true, true)] + PUBLISH_MOVES);
    hide Run, Dirty;
    GoodEnd(Run(a, CHECK_MOVES), staged, id);
  }

  /** The rest of the all-good run, from the checked tree or from the refusal. */
  lemma {:induction false} GoodEnd(s: Build, staged: Option<Tree>, id: nat)
    requires s.stage.Idle? || s.stage == Staging(s.refs.head)
    requires id !in s.refs.commits
    ensures
      var t := Run(s, [Stage(staged), Store(id, true, true)] + PUBLISH_MOVES);
      if s.stage.Idle? then t == s
      else if staged.None? then t == Fail(s)
      else if s.refs.head.Some? && HeadTree(s) == staged.value then t == s.(stage := Idle, outcome := Outcome.Unchanged)
      else
        && t.outcome == Published && t.stage.Idle? && t.refs.head == Some(id) && t.refs.moved
        && t.files.worktree == HeadTree(t) == staged.value && !t.files.marker
  {
    var decide := [Stage(staged), Store(id, true, true)];
    RunAfter(s, decide, PUBLISH_MOVES);
    hide Run;
    if s.stage.Idle? {
      IdleStays(s, decide);
      IdleStays(s, PUBLISH_MOVES);
    } else {
      DecideRuns(s, staged, id);
      var d := Run(s, decide);
      if d.stage.Idle? {
        IdleStays(d, PUBLISH_MOVES);
      } else {
        PublishRuns(d, id);
      }
    }
  }

  /** From every idle state, marked or not, born or unborn, dirty or clean: the verdict is the outcome of the all-good transaction. */
  lemma {:induction false} VerdictIsTheTransactions(pr: Printer, s: Build, src: Source, id: nat)
    requires s.stage.Idle? && HeadStored(s) && id !in s.refs.commits
    ensures
      var t := Run(s, AllGood(Staged(pr, src, HeadTree(s)), id));
      match RealVerdict(pr, s, src)
      case Refused => t.outcome == Failed && t.refs == s.refs.(moved := false)
      case NoChange => t.outcome == Outcome.Unchanged && t.refs == s.refs.(moved := false) && t.files.worktree == HeadTree(s)
      case Changes(tree) =>
        t.outcome == Published && t.refs.head == Some(id) && t.files.worktree == HeadTree(t) == tree && !t.files.marker
  {
    AllGoodRuns(s, Staged(pr, src, HeadTree(s)), id);
  }

  /** And the tree the transaction stages from is HEAD's: what it has checked and purged. */
  lemma {:induction false} StagingReadsHead(s: Build)
    requires s.stage.Idle?
    ensures
      var t := Run(s, REPAIR_MOVES + CHECK_MOVES);
      if Dirty(Repaired(s), HeadTree(s)) then t.stage.Idle? else t.stage.Staging? && t.files.worktree == HeadTree(s)
  {
    RepairRuns(s);
    CheckRuns(Build(s.refs.(moved := false), Repaired(s), Checking, Running));
    RunAfter(s, REPAIR_MOVES, CHECK_MOVES);
  }

  // ---- where the preview agrees with it ----

  /** The source is refused whatever the build holds. */
  predicate SourceRefused(src: Source) {
    src.product == Irregular || src.authorsControl || src.settings.Err? || !src.accepted
  }

  /** An ignored control.toml, absent from HEAD, whose address is unreadable or is not the default one HEAD stands for. */
  predicate ControlLeftover(s: Build) {
    && CONTROL_TOML in s.files.worktree && CONTROL_TOML !in HeadTree(s)
    && ReadAddress(s.files.worktree[CONTROL_TOML]) != Ok(NO_ADDRESS)
  }

  /** An ignored product.toml, absent from HEAD, that a source without one would carry forward. */
  predicate ProductLeftover(s: Build, src: Source) {
    src.product == Absent && PRODUCT_TOML in s.files.worktree && PRODUCT_TOML !in HeadTree(s)
  }

  /** A visible untracked file under a marker over an unborn HEAD. */
  predicate UnbornDirt(s: Build) { s.files.marker && s.refs.head.None? && Dirty(s.files, HeadTree(s)) }

  lemma {:induction false} StagedWithAddress(pr: Printer, src: Source, a: Tree, b: Tree)
    requires GoodPrinter(pr) && Harvested(pr, src)
    requires Staged(pr, src, a).Some? && Staged(pr, src, a) == Staged(pr, src, b)
    ensures AddressIn(a) == AddressIn(b)
  {
    StagedParts(pr, src, a);
    StagedParts(pr, src, b);
    AddressIsPrintable(a);
    AddressIsPrintable(b);
    var f, g := FieldsFor(AddressIn(a).value, src.settings.value), FieldsFor(AddressIn(b).value, src.settings.value);
    hide Staged, AddressIn, RenderLines, ReadsBack;
    TextDeterminesAddress(pr.schema, pr.about, pr.notes, f, g);
  }

  lemma {:induction false} AddressIsPrintable(pinned: Tree)
    requires AddressIn(pinned).Ok?
    ensures
      var a := AddressIn(pinned).value;
      1 <= a.port <= 65535 && Printable(a.ip) && Printable(a.origin)
  {
    if CONTROL_TOML in pinned {
      AddressIsClean(pinned[CONTROL_TOML]);
    }
  }

  /** Over a clean tree with no marker, staging from the working tree and from HEAD differ exactly by a telling leftover. */
  lemma {:induction false} LeftoversDecide(pr: Printer, s: Build, src: Source)
    requires GoodPrinter(pr) && Harvested(pr, src) && Tracked(s.files.worktree, HeadTree(s))
    ensures Staged(pr, src, s.files.worktree) == Staged(pr, src, HeadTree(s))
       <==> SourceRefused(src) || AddressIn(HeadTree(s)).Err? || (!ControlLeftover(s) && !ProductLeftover(s, src))
  {
    var w, tree := s.files.worktree, HeadTree(s);
    assert ControlLeftover(s) ==> AddressIn(tree) == Ok(NO_ADDRESS);
    assert ControlLeftover(s) <==> AddressIn(w) != AddressIn(tree);
    assert CONTROL_TOML in tree ==> AddressIn(w) == AddressIn(tree);
    if !SourceRefused(src) && AddressIn(tree).Ok? {
      assert Staged(pr, src, tree).Some?;
      if ControlLeftover(s) {
        if Staged(pr, src, w) == Staged(pr, src, tree) {
          StagedWithAddress(pr, src, tree, w);
        }
      } else {
        StagedParts(pr, src, w);
        StagedParts(pr, src, tree);
        hide AddressIn, ReadsBack, ControlText;
        if !ProductLeftover(s, src) {
          assert WithProduct(src, w) == WithProduct(src, tree);
        }
      }
    }
  }

  /**
   The dry run agrees with the real run, over every build and source, if and
   only if: the source or HEAD's own address refuses both; or under a marker no
   visible untracked file lies over an unborn HEAD; or without one the tree is
   dirty, which refuses both, or holds no telling leftover.
   */
  lemma {:induction false} DryRunAgreesIff(pr: Printer, s: Build, src: Source)
    requires GoodPrinter(pr) && Harvested(pr, src)
    ensures DryVerdict(pr, s, src) == RealVerdict(pr, s, src)
       <==> || SourceRefused(src) || AddressIn(HeadTree(s)).Err?
            || if s.files.marker then !UnbornDirt(s)
               else Dirty(s.files, HeadTree(s)) || (!ControlLeftover(s) && !ProductLeftover(s, src))
  {
    var tree := HeadTree(s);
    if Staged(pr, src, tree).Some? {
      StagedIsNeverEmpty(pr, src, tree);
    }
    if Staged(pr, src, s.files.worktree).Some? {
      StagedIsNeverEmpty(pr, src, s.files.worktree);
    }
    assert s.refs.head.None? ==> tree == map[];
    assert s.files.marker && s.refs.head.Some? ==> !Dirty(Repaired(s), tree);
    if !s.files.marker && !Dirty(s.files, tree) {
      LeftoversDecide(pr, s, src);
    }
    assert (SourceRefused(src) || AddressIn(tree).Err?) <==> Staged(pr, src, tree).None?;
    hide AddressIn, ReadsBack, ControlText, Dirty, TreeOf, ControlLeftover, ProductLeftover;
  }

  /**
   The disagreement under a marker, reached: the very first ingest dies before
   its ref move and a file is left in the tree. The next ingest removes the
   marker, finds the file and refuses; the preview promises a commit.
   */
  lemma {:induction false} UnbornMarkerMisleadsThePreview(pr: Printer, s: Build, src: Source, staged: Tree, id: nat, x: string, y: string)
    requires AtRest(s) && s.refs.head.None? && id !in s.refs.commits && x !in s.files.hidden
    requires !SourceRefused(src)
    ensures
      var died := REPAIR_MOVES + CHECK_MOVES + [Stage(Some(staged)), Store(id, true, true)] + [Mark(Whole), Crash, Edit(map[x := y])];
      var t := Run(s, died);
      UnbornDirt(t) && RealVerdict(pr, t, src) == Refused && DryVerdict(pr, t, src).Changes?
  {
    var decide := [Stage(Some(staged)), Store(id, true, true)];
    var die := [Mark(Whole), Crash, Edit(map[x := y])];
    RunAfter(s, REPAIR_MOVES, CHECK_MOVES);
    RunAfter(s, REPAIR_MOVES + CHECK_MOVES, decide);
    RunAfter(s, REPAIR_MOVES + CHECK_MOVES + decide, die);
    RepairRuns(s);
    CheckRuns(Run(s, REPAIR_MOVES));
    var b := Run(Run(s, REPAIR_MOVES), CHECK_MOVES);
    assert b.stage == Staging(None) && b.refs.head.None? && b.files.hidden == s.files.hidden && id !in b.refs.commits;
    hide Run;
    DecideRuns(b, Some(staged), id);
    DiesUnborn(Run(b, decide), id, x, y);
    StagedIsNeverEmptyOrRefused(pr, src);
  }

  lemma {:induction false} DiesUnborn(s: Build, id: nat, x: string, y: string)
    requires s.stage == Marking(None, id) && s.refs.head.None? && x !in s.files.hidden
    ensures
      var t := Run(s, [Mark(Whole), Crash, Edit(map[x := y])]);
      UnbornDirt(t) && HeadTree(t) == map[] && Dirty(Repaired(t), HeadTree(t))
  {
    var s1 := Next(s, Mark(Whole));
    var s2 := Next(s1, Crash);
    var s3 := Next(s2, Edit(map[x := y]));
    RunsThrough(s, [Mark(Whole), Crash, Edit(map[x := y])], [s, s1, s2, s3]);
    assert x in s3.files.worktree && x !in HeadTree(s3);
  }

  lemma {:induction false} StagedIsNeverEmptyOrRefused(pr: Printer, src: Source)
    requires !SourceRefused(src)
    ensures Staged(pr, src, map[]).Some? && Staged(pr, src, map[]).value != map[]
  {
    StagedIsNeverEmpty(pr, src, map[]);
  }

  /** Ingesting the same source again commits nothing, if and only if what it staged is printable; otherwise it is refused. */
  lemma {:induction false} SecondIngestChangesNothing(pr: Printer, s: Build, src: Source, pinned: Tree)
    requires GoodPrinter(pr) && Harvested(pr, src)
    requires AtRest(s) && s.refs.head.Some? && Staged(pr, src, pinned) == Some(HeadTree(s))
    ensures RealVerdict(pr, s, src) == if Unprintable(src, pinned) then Refused else NoChange
  {
    StagingIsIdempotent(pr, src, pinned);
    hide Staged, Unprintable;
  }

  // ---- staging as it runs ----

  /** The staging tree, filled step by step; any refusal leaves nothing. */
  method StageTree(pr: Printer, src: Source, pinned: Tree) returns (staged: Option<Tree>)
    ensures staged == Staged(pr, src, pinned)
  {
    staged := None;
    var tree := src.files;
    if src.product == Irregular {
      return;
    }
    if src.product == Absent && PRODUCT_TOML in pinned {
      tree := tree[PRODUCT_TOML := pinned[PRODUCT_TOML]];
    }
    tree := tree + src.knowledge;
    tree := tree[PINS_TOML := src.pins];
    if src.authorsControl || src.settings.Err? {
      return;
    }
    var address := if CONTROL_TOML in pinned then ReadAddress(pinned[CONTROL_TOML]) else Ok(NO_ADDRESS);
    if address.Err? {
      return;
    }
    var text := Render(pr.schema, pr.about, pr.notes, FieldsFor(address.value, src.settings.value));
    tree := tree[CONTROL_TOML := text];
    if src.accepted {
      staged := Some(tree);
    }
  }

  /** The dry run: nothing in the build changes, and the answer is the preview's. */
  method Preview(pr: Printer, s: Build, src: Source) returns (verdict: Verdict)
    requires GoodPrinter(pr) && Harvested(pr, src)
    ensures verdict == DryVerdict(pr, s, src)
    ensures verdict == RealVerdict(pr, s, src)
       <==> || SourceRefused(src) || AddressIn(HeadTree(s)).Err?
            || if s.files.marker then !UnbornDirt(s)
               else Dirty(s.files, HeadTree(s)) || (!ControlLeftover(s) && !ProductLeftover(s, src))
  {
    DryRunAgreesIff(pr, s, src);
    hide RealVerdict, ControlLeftover, ProductLeftover, UnbornDirt, AddressIn, ReadsBack, Staged;
    var tree := HeadTree(s);
    var pinned := tree;
    if !s.files.marker {
      if (exists p :: p in tree && (p !in s.files.worktree || s.files.worktree[p] != tree[p]))
         || (exists p :: p in s.files.worktree && p !in tree && p !in s.files.hidden) {
        return Refused;
      }
      pinned := s.files.worktree;
    }
    var staged := StageTree(pr, src, pinned);
    verdict := if staged.None? then Refused else if staged.value == tree then NoChange else Changes(staged.value);
  }
}
