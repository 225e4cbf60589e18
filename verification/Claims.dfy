/**
 The claim protocol as interleaved steps. A granting pass, the janitor's
 release of never-activated grants, and the nodes' Run events act on one store
 and one GitHub; every GitHub call is its own step and may fail, with or
 without having taken effect.
 */
module Claims {
  import opened Prelude
  import opened Events

  const PLAN_READY := "plan_ready"
  const IN_PROGRESS := "in_progress"
  const FAILED := "failed"

  datatype Key = Key(repo: string, issue: int)

  datatype Grant = Grant(worker: string, login: string)

  datatype Issue = Issue(assignees: set<string>, labels: set<string>)

  /** How a GitHub call ended; a failure may have been applied before it was reported. */
  datatype Call = Done | Raised(applied: bool)

  datatype Pass =
    | Idle
    | SawGranted(repo: string, grant: Grant, granted: set<int>)
    | SawLive(repo: string, grant: Grant, granted: set<int>, live: set<int>)
    | Listed(repo: string, grant: Grant, granted: set<int>, live: set<int>, pool: map<int, Issue>)
    | Writing(key: Key, grant: Grant, written: nat)

  datatype Unwind = Fetching | Unassigning(todo: set<string>) | Unlabelling | Relabelling

  datatype Janitor =
    | Resting
    | SawClaims(repo: string, live: set<Key>)
    | Walking(live: set<Key>, due: seq<(Key, Grant)>)
    | Unwinding(live: set<Key>, due: seq<(Key, Grant)>, key: Key, row: Grant, stage: Unwind)

  /** What became of the latest grant of a key. */
  datatype Fate = Waiting | Activated | Settled | Unwound | Dropped

  /** `guarded`, `fate` and `regranted`, the keys granted since the sweep's first read, are history: read by no step. */
  datatype Sys = Sys(
    grants: map<Key, Grant>,
    runs: seq<Event>,
    github: map<Key, Issue>,
    pass: Pass,
    janitor: Janitor,
    guarded: set<Key>,
    fate: map<Key, Fate>,
    regranted: set<Key>)

  datatype Move =
    | BeginPass(repo: string, grant: Grant)
    | ReadLive
    | ListIssues(open: set<int>)
    | Pick(number: int)
    | Write(call: Call)
    | EndPass
    | RunEvent(key: Key, phase: string)
    | BeginSweep(repo: string)
    | ReadExpired(expired: seq<Key>)
    | TakeRow
    | Undo(login: string, call: Call)
    | EndSweep

  function IssueAt(s: Sys, k: Key): Issue {
    if k in s.github then s.github[k] else Issue({}, {})
  }

  predicate LiveAt(s: Sys, k: Key) { Live(s.runs, k.repo, k.issue) }

  function RunRow(n: nat, k: Key, phase: string): Event {
    Event(n, EVENT_RUN, 0.0, "", None, None, if k.repo == "" then None else Some(k.repo), Some(k.issue), Some(phase))
  }

  /** The three writes of a grant, in order. */
  function GrantWrite(i: Issue, login: string, written: nat): Issue {
    if written == 0 then i.(assignees := i.assignees + {login})
    else if written == 1 then i.(labels := i.labels + {IN_PROGRESS})
    else i.(labels := i.labels - {PLAN_READY})
  }

  /** The listing decides on what it saw; the dependency gate is answered by the move itself. */
  predicate Eligible(pass: Pass, number: int) {
    && pass.Listed?
    && number in pass.pool
    && FAILED !in pass.pool[number].labels
    && pass.pool[number].assignees == {}
    && IN_PROGRESS !in pass.pool[number].labels
    && number !in pass.granted
    && number !in pass.live
  }

  function Touched(s: Sys, k: Key, i: Issue, call: Call): map<Key, Issue> {
    if call == Raised(false) then s.github else s.github[k := i]
  }

  /** A failed unwind puts the row back for the next pass. */
  function PutBack(s: Sys): Sys
    requires s.janitor.Unwinding?
  {
    var j := s.janitor;
    s.(grants := s.grants[j.key := j.row], janitor := Walking(j.live, j.due))
  }

  function StageOf(j: Janitor, stage: Unwind): Janitor
    requires j.Unwinding?
  {
    j.(stage := stage)
  }

  function UndoNext(s: Sys, login: string, call: Call): Sys
    requires s.janitor.Unwinding?
  {
    var j := s.janitor;
    var i := IssueAt(s, j.key);
    match j.stage
    case Fetching =>
      if call.Raised? then PutBack(s)
      else s.(janitor := StageOf(j, if i.assignees == {} then Unlabelling else Unassigning(i.assignees)))
    case Unassigning(todo) =>
      if login !in todo then s
      else
        var t := s.(github := Touched(s, j.key, i.(assignees := i.assignees - {login}), call));
        if call.Raised? then PutBack(t)
        else t.(janitor := StageOf(j, if todo == {login} then Unlabelling else Unassigning(todo - {login})))
    case Unlabelling =>
      var t := s.(github := Touched(s, j.key, i.(labels := i.labels - {IN_PROGRESS}), call));
      if call.Raised? then PutBack(t) else t.(janitor := StageOf(j, Relabelling))
    case Relabelling =>
      var t := s.(github := Touched(s, j.key, i.(labels := i.labels + {PLAN_READY}), call));
      if call.Raised? then PutBack(t)
      else
        var over := j.key in s.fate && s.fate[j.key] == Waiting && j.key !in s.grants;
        t.(janitor := Walking(j.live, j.due), fate := if over then s.fate[j.key := Unwound] else s.fate)
  }

  datatype Actor = Dispatcher | Nodes | TheJanitor

  function ActorOf(move: Move): Actor {
    match move
    case BeginSweep(_) => TheJanitor
    case ReadExpired(_) => TheJanitor
    case TakeRow => TheJanitor
    case Undo(_, _) => TheJanitor
    case EndSweep => TheJanitor
    case RunEvent(_, _) => Nodes
    case _ => Dispatcher
  }

  ghost function Next(s: Sys, move: Move): Sys {
    match ActorOf(move)
    case Dispatcher => PassStep(s, move)
    case Nodes => NodeStep(s, move)
    case TheJanitor => JanitorStep(s, move)
  }

  ghost function PassStep(s: Sys, move: Move): Sys
    requires ActorOf(move) == Dispatcher
  {
    match move
    case BeginPass(repo, grant) =>
      if !s.pass.Idle? then s
      else s.(pass := SawGranted(repo, grant, set k | k in s.grants && k.repo == repo :: k.issue))
    case ReadLive =>
      if !s.pass.SawGranted? then s
      else s.(pass := SawLive(s.pass.repo, s.pass.grant, s.pass.granted, LiveIssues(s, s.pass.repo)))
    case ListIssues(open) =>
      if !s.pass.SawLive? then s
      else
        var pool := map n | n in open && PLAN_READY in IssueAt(s, Key(s.pass.repo, n)).labels
          :: IssueAt(s, Key(s.pass.repo, n));
        s.(pass := Listed(s.pass.repo, s.pass.grant, s.pass.granted, s.pass.live, pool))
    case Pick(number) =>
      if !Eligible(s.pass, number) then s
      else
        var k := Key(s.pass.repo, number);
        s.(grants := s.grants[k := s.pass.grant], pass := Writing(k, s.pass.grant, 0),
           guarded := s.guarded + {k}, fate := s.fate[k := Waiting], regranted := s.regranted + {k})
    case Write(call) =>
      if !s.pass.Writing? then s
      else
        var k := s.pass.key;
        var i := GrantWrite(IssueAt(s, k), s.pass.grant.login, s.pass.written);
        s.(github := Touched(s, k, i, call),
           pass := if call.Raised? || s.pass.written >= 2 then Idle else s.pass.(written := s.pass.written + 1))
    case EndPass => s.(pass := Idle)
  }

  function NodeStep(s: Sys, move: Move): Sys
    requires ActorOf(move) == Nodes
  {
    var RunEvent(k, phase) := move;
    var activates := phase == "claimed" && k.repo != "";
    s.(runs := s.runs + [RunRow(|s.runs| + 1, k, phase)],
       grants := if activates then s.grants - {k} else s.grants,
       fate := if activates && k in s.grants && k in s.fate then s.fate[k := Activated] else s.fate,
       guarded := if phase in LIVE_RUN_PHASES || k.repo == "" then s.guarded else s.guarded - {k})
  }

  predicate WaitingRow(s: Sys, k: Key) { k in s.grants && k in s.fate && s.fate[k] == Waiting }

  /** A row deleted because its key was seen live: the sight may be older than the row. */
  function SettledAs(s: Sys, k: Key): Fate { if k in s.regranted then Dropped else Settled }

  function JanitorStep(s: Sys, move: Move): Sys
    requires ActorOf(move) == TheJanitor
  {
    match move
    case BeginSweep(repo) =>
      if !s.janitor.Resting? then s
      else s.(janitor := SawClaims(repo, set k | k in RunKeys(s.runs) && k.repo == repo && LiveAt(s, k)), regranted := {})
    case ReadExpired(expired) =>
      if !s.janitor.SawClaims? then s
      else s.(janitor := Walking(s.janitor.live, Rows(s.grants, expired, s.janitor.repo)))
    case TakeRow =>
      if !s.janitor.Walking? || s.janitor.due == [] then s
      else
        var live, (k, row), rest := s.janitor.live, s.janitor.due[0], s.janitor.due[1..];
        var t := s.(grants := s.grants - {k}, guarded := if k in s.grants then s.guarded - {k} else s.guarded);
        if k in live then
          t.(janitor := Walking(live, rest), fate := if WaitingRow(s, k) then s.fate[k := SettledAs(s, k)] else s.fate)
        else if k !in s.grants then s.(janitor := Walking(live, rest))
        else t.(janitor := Unwinding(live, rest, k, row, Fetching))
    case Undo(login, call) =>
      if !s.janitor.Unwinding? then s else UndoNext(s, login, call)
    case EndSweep =>
      if s.janitor.Unwinding? then s else s.(janitor := Resting)
  }

  function RunKeys(runs: seq<Event>): set<Key> {
    set e | e in runs && e.repo.Some? && e.issue.Some? :: Key(e.repo.value, e.issue.value)
  }

  ghost function LiveIssues(s: Sys, repo: string): set<int> {
    set k | k in RunKeys(s.runs) && k.repo == repo && LiveAt(s, k) :: k.issue
  }

  function Rows(grants: map<Key, Grant>, expired: seq<Key>, repo: string): seq<(Key, Grant)> {
    if expired == [] then []
    else
      var rest := Rows(grants, expired[1..], repo);
      var k := expired[0];
      if k in grants && k.repo == repo then [(k, grants[k])] + rest else rest
  }

  ghost function Run(s: Sys, moves: seq<Move>): Sys {
    if moves == [] then s else Next(Run(s, moves[..|moves| - 1]), moves[|moves| - 1])
  }

  /** No pass and no sweep is running and no history is kept yet; tables and GitHub hold anything. */
  predicate Fresh(s: Sys) {
    s.pass.Idle? && s.janitor.Resting? && s.guarded == {} && s.fate == map[] && s.regranted == {}
  }

  // ---- no double grant ----

  ghost predicate Guards(s: Sys) {
    && (forall k :: k in s.guarded ==> k in s.grants || LiveAt(s, k))
    && (s.pass.SawGranted? ==>
          forall k :: k in s.guarded && k.repo == s.pass.repo ==> k.issue in s.pass.granted || LiveAt(s, k))
    && (s.pass.SawLive? ==>
          forall k :: k in s.guarded && k.repo == s.pass.repo ==> k.issue in s.pass.granted + s.pass.live)
    && (s.pass.Listed? ==>
          forall k :: k in s.guarded && k.repo == s.pass.repo ==> k.issue in s.pass.granted + s.pass.live)
  }

  lemma {:induction false} LatestIsLogged(runs: seq<Event>, repo: string, issue: int)
    requires LatestRun(runs, Some(repo), issue).Some?
    ensures Key(repo, issue) in RunKeys(runs)
  {
    var last := Last(runs);
    assert runs == Front(runs) + [last];
    if !(last.kind == EVENT_RUN && last.repo == Some(repo) && last.issue == Some(issue)) {
      LatestIsLogged(Front(runs), repo, issue);
      assert forall e :: e in Front(runs) ==> e in runs;
    }
  }

  lemma {:induction false} LiveAfterRun(s: Sys, k: Key, phase: string, j: Key)
    ensures
      var t := NodeStep(s, RunEvent(k, phase));
      LiveAt(t, j) <==> if j == k && k.repo != "" then phase in {"claimed", "gate", "failed"} else LiveAt(s, j)
  {
    var row := RunRow(|s.runs| + 1, k, phase);
    assert Front(s.runs + [row]) == s.runs && Last(s.runs + [row]) == row;
  }

  lemma {:induction false} PassKeepsGuards(s: Sys, move: Move)
    requires Guards(s) && ActorOf(move) == Dispatcher
    ensures Guards(PassStep(s, move))
  {
    if move.ReadLive? && s.pass.SawGranted? {
      forall k | k in s.guarded && k.repo == s.pass.repo && LiveAt(s, k) ensures k.issue in LiveIssues(s, s.pass.repo) {
        LatestIsLogged(s.runs, k.repo, k.issue);
      }
    }
  }

  lemma {:induction false} NodesKeepGuards(s: Sys, k: Key, phase: string)
    requires Guards(s)
    ensures Guards(NodeStep(s, RunEvent(k, phase)))
  {
    forall j | j in s.guarded {
      LiveAfterRun(s, k, phase, j);
    }
  }

  lemma {:induction false} JanitorKeepsGuards(s: Sys, move: Move)
    requires Guards(s) && ActorOf(move) == TheJanitor
    ensures Guards(JanitorStep(s, move))
  {
    hide IssueAt, Rows, Live, Touched, RunKeys;
    var t := JanitorStep(s, move);
    assert t.runs == s.runs && t.pass == s.pass && t.guarded <= s.guarded;
    assert forall k :: k in t.guarded && k in s.grants ==> k in t.grants;
  }

  lemma {:induction false} MoveKeepsGuards(s: Sys, move: Move)
    requires Guards(s)
    ensures Guards(Next(s, move))
  {
    match ActorOf(move)
    case Dispatcher => PassKeepsGuards(s, move);
    case Nodes => NodesKeepGuards(s, move.key, move.phase);
    case TheJanitor => JanitorKeepsGuards(s, move);
  }

  lemma {:induction false} RunKeepsGuards(s: Sys, moves: seq<Move>)
    requires Guards(s)
    ensures Guards(Run(s, moves))
  {
    if moves != [] {
      RunKeepsGuards(s, moves[..|moves| - 1]);
      MoveKeepsGuards(Run(s, moves[..|moves| - 1]), moves[|moves| - 1]);
    }
  }

  /**
   No double grant: from a pass's record_grant until the janitor deletes the
   row or a Run event with a non-live phase arrives, no pass grants the same
   (repo, issue), for every interleaving.
   */
  lemma {:induction false} NoDoubleGrant(s: Sys, moves: seq<Move>, number: int)
    requires Fresh(s)
    requires Eligible(Run(s, moves).pass, number)
    ensures Key(Run(s, moves).pass.repo, number) !in Run(s, moves).guarded
  {
    RunKeepsGuards(s, moves);
  }

  // ---- no half-written claim is lost ----

  /** Every waiting grant still has its row, or the janitor is unwinding it right now. */
  ghost predicate RowsKept(s: Sys) {
    forall k :: k in s.fate && s.fate[k] == Waiting ==>
      k in s.grants || (s.janitor.Unwinding? && s.janitor.key == k)
  }

  lemma {:induction false} RunKeepsRows(s: Sys, moves: seq<Move>)
    requires RowsKept(s)
    ensures RowsKept(Run(s, moves))
  {
    if moves != [] {
      RunKeepsRows(s, moves[..|moves| - 1]);
      MoveKeepsRows(Run(s, moves[..|moves| - 1]), moves[|moves| - 1]);
    }
  }

  lemma {:induction false} MoveKeepsRows(s: Sys, move: Move)
    requires RowsKept(s)
    ensures RowsKept(Next(s, move))
  {
    hide IssueAt, GrantWrite, Rows, Live, Touched;
    match ActorOf(move)
    case Dispatcher =>
    case Nodes =>
    case TheJanitor =>
      if move.Undo? && s.janitor.Unwinding? {
        assert forall k :: k in s.grants ==> k in UndoNext(s, move.login, move.call).grants;
      }
  }

  /** Back in the pool: nobody assigned, not in progress, ready to be granted. */
  predicate Clean(i: Issue) {
    i.assignees == {} && "in_progress" !in i.labels && "plan_ready" in i.labels
  }

  predicate WritingTo(s: Sys, k: Key) { s.pass.Writing? && s.pass.key == k }

  predicate Unclaimed(s: Sys, k: Key) { k in s.fate && s.fate[k] == Waiting && k !in s.grants }

  predicate UndoneSoFar(stage: Unwind, i: Issue) {
    match stage
    case Fetching => true
    case Unassigning(todo) => i.assignees <= todo
    case Unlabelling => i.assignees == {}
    case Relabelling => i.assignees == {} && IN_PROGRESS !in i.labels
  }

  predicate UnwoundIsClean(s: Sys, k: Key) {
    k in s.fate && s.fate[k] == Unwound ==> k !in s.grants && Clean(IssueAt(s, k))
  }

  predicate UnwindOnCourse(s: Sys) {
    s.janitor.Unwinding? ==>
      var k := s.janitor.key;
      && (k in s.fate ==> s.fate[k] != Unwound)
      && (Unclaimed(s, k) ==> UndoneSoFar(s.janitor.stage, IssueAt(s, k)))
  }

  /** No grant is lost: none lacks a row it needs, and what was unwound, or is being unwound, is as the unwind left it. */
  ghost predicate Sound(s: Sys) {
    && RowsKept(s) && UnwindOnCourse(s)
    && (forall k :: UnwoundIsClean(s, k))
    && (forall k :: k in s.fate ==> s.fate[k] != Dropped)
  }

  /** The janitor deletes, as live, a row granted after it looked. */
  predicate StaleDelete(s: Sys, move: Move) {
    && move.TakeRow? && s.janitor.Walking? && s.janitor.due != []
    && var k := s.janitor.due[0].0;
       k in s.janitor.live && k in s.regranted && WaitingRow(s, k)
  }

  /** What the `written`-th write adds has already been taken off, or found absent, by an unwind at this stage. */
  predicate UndoesStage(stage: Unwind, written: nat, login: string) {
    match stage
    case Fetching => false
    case Unassigning(todo) => written == 0 && login !in todo
    case Unlabelling => written == 0
    case Relabelling => written <= 1
  }

  /** A grant's own write lands after its unwind finished, or after the stage that would have undone it. */
  predicate LateWrite(s: Sys, move: Move) {
    && move.Write? && s.pass.Writing? && move.call != Raised(false)
    && var k := s.pass.key;
       || (k in s.fate && s.fate[k] == Unwound)
       || (s.janitor.Unwinding? && s.janitor.key == k && Unclaimed(s, k)
           && UndoesStage(s.janitor.stage, s.pass.written, s.pass.grant.login))
  }

  predicate Spoils(s: Sys, move: Move) { StaleDelete(s, move) || LateWrite(s, move) }

  lemma {:induction false} UndoKeepsCourse(s: Sys, login: string, call: Call)
    requires s.janitor.Unwinding? && UnwindOnCourse(s)
    ensures UnwindOnCourse(UndoNext(s, login, call))
    ensures UnwoundIsClean(UndoNext(s, login, call), s.janitor.key)
  {
    var i := IssueAt(s, s.janitor.key);
    match s.janitor.stage
    case Fetching =>
    case Unassigning(todo) =>
      if login in todo && UndoneSoFar(s.janitor.stage, i) && todo == {login} {
        assert i.assignees - {login} == {};
      }
    case Unlabelling =>
    case Relabelling =>
  }

  lemma {:induction false} UndoStaysSound(s: Sys, login: string, call: Call)
    requires s.janitor.Unwinding? && Sound(s)
    ensures Sound(UndoNext(s, login, call))
  {
    var t := UndoNext(s, login, call);
    MoveKeepsRows(s, Undo(login, call));
    UndoKeepsCourse(s, login, call);
    forall k ensures UnwoundIsClean(t, k) && (k in t.fate ==> t.fate[k] != Dropped) {
      assert UnwoundIsClean(s, k);
      if k != s.janitor.key {
        assert IssueAt(t, k) == IssueAt(s, k) && (k in t.grants <==> k in s.grants);
      }
    }
  }

  lemma {:induction false} TakingSoundIff(s: Sys)
    requires Sound(s) && s.janitor.Walking? && s.janitor.due != []
    ensures Sound(JanitorStep(s, TakeRow)) <==> !StaleDelete(s, TakeRow)
  {
    var k, t := s.janitor.due[0].0, JanitorStep(s, TakeRow);
    assert UnwoundIsClean(s, k);
    if StaleDelete(s, TakeRow) {
      assert t.fate[k] == Dropped;
    } else {
      assert t.github == s.github;
      forall j ensures UnwoundIsClean(t, j) {
        assert UnwoundIsClean(s, j) && IssueAt(t, j) == IssueAt(s, j);
      }
    }
  }

  lemma {:induction false} JanitorSoundIff(s: Sys, move: Move)
    requires Sound(s) && ActorOf(move) == TheJanitor
    ensures Sound(JanitorStep(s, move)) <==> !Spoils(s, move)
  {
    if move.Undo? && s.janitor.Unwinding? {
      UndoStaysSound(s, move.login, move.call);
    } else if move.TakeRow? && s.janitor.Walking? && s.janitor.due != [] {
      TakingSoundIff(s);
    } else {
      var t := JanitorStep(s, move);
      assert t == s.(janitor := t.janitor, regranted := t.regranted);
      forall k ensures UnwoundIsClean(t, k) {
        assert UnwoundIsClean(s, k);
      }
    }
  }

  /** On a clean issue every write of a grant shows; on a half-unwound one, one whose undoing the unwind has behind it. */
  lemma {:induction false} WriteShows(i: Issue, login: string, written: nat, stage: Unwind)
    ensures !Clean(GrantWrite(i, login, written)) || !Clean(i)
    ensures UndoneSoFar(stage, i) ==>
      (UndoneSoFar(stage, GrantWrite(i, login, written)) <==> !UndoesStage(stage, written, login))
  {
    var j := GrantWrite(i, login, written);
    assert written == 0 ==> login in j.assignees;
    assert written == 1 ==> IN_PROGRESS in j.labels;
    assert PLAN_READY != IN_PROGRESS;
  }

  lemma {:induction false} WriteSoundIff(s: Sys, call: Call)
    requires Sound(s) && s.pass.Writing?
    ensures Sound(PassStep(s, Write(call))) <==> !LateWrite(s, Write(call))
  {
    var k, t := s.pass.key, PassStep(s, Write(call));
    var i, login, written := IssueAt(s, k), s.pass.grant.login, s.pass.written;
    assert IssueAt(t, k) == if call == Raised(false) then i else GrantWrite(i, login, written);
    WriteShows(i, login, written, if s.janitor.Unwinding? then s.janitor.stage else Fetching);
    assert t == s.(github := t.github, pass := t.pass);
    hide GrantWrite, Clean, UndoneSoFar, UndoesStage;
    forall j ensures UnwoundIsClean(t, j) <==> !(j == k && k in s.fate && s.fate[k] == Unwound && call != Raised(false)) {
      assert UnwoundIsClean(s, j);
      if j != k {
        assert IssueAt(t, j) == IssueAt(s, j);
      }
    }
    assert s.janitor.Unwinding? && s.janitor.key != k ==> IssueAt(t, s.janitor.key) == IssueAt(s, s.janitor.key);
    assert RowsKept(t) && (forall j :: j in t.fate ==> t.fate[j] != Dropped);
    var lands := call != Raised(false);
    assert UnwindOnCourse(t) <==> !(lands && s.janitor.Unwinding? && s.janitor.key == k && Unclaimed(s, k)
                                    && UndoesStage(s.janitor.stage, written, login));
    assert UnwoundIsClean(t, k) <==> !(lands && k in s.fate && s.fate[k] == Unwound);
  }

  lemma {:induction false} PassSoundIff(s: Sys, move: Move)
    requires Sound(s) && ActorOf(move) == Dispatcher
    ensures Sound(PassStep(s, move)) <==> !Spoils(s, move)
  {
    var t := PassStep(s, move);
    if move.Write? && s.pass.Writing? {
      WriteSoundIff(s, move.call);
    } else {
      assert t.github == s.github && t.janitor == s.janitor;
      forall k ensures UnwoundIsClean(t, k) {
        assert UnwoundIsClean(s, k) && IssueAt(t, k) == IssueAt(s, k);
      }
    }
  }

  lemma {:induction false} NodesStaySound(s: Sys, k: Key, phase: string)
    requires Sound(s)
    ensures Sound(NodeStep(s, RunEvent(k, phase)))
  {
    var t := NodeStep(s, RunEvent(k, phase));
    forall j ensures UnwoundIsClean(t, j) {
      assert UnwoundIsClean(s, j) && IssueAt(t, j) == IssueAt(s, j);
    }
  }

  /** Exactly two steps lose a claim: deleting as live a row newer than the sight of it, and a write that lands late. */
  lemma {:induction false} StepIsSoundIff(s: Sys, move: Move)
    requires Sound(s)
    ensures Sound(Next(s, move)) <==> !Spoils(s, move)
  {
    match ActorOf(move)
    case Dispatcher => PassSoundIff(s, move);
    case Nodes => NodesStaySound(s, move.key, move.phase);
    case TheJanitor => JanitorSoundIff(s, move);
  }

  ghost predicate SpoilsAt(s: Sys, moves: seq<Move>, n: nat)
    requires n < |moves|
  {
    Spoils(Run(s, moves[..n]), moves[n])
  }

  ghost predicate SoundAt(s: Sys, moves: seq<Move>, n: nat)
    requires n <= |moves|
  {
    Sound(Run(s, moves[..n]))
  }

  ghost predicate Unspoiled(s: Sys, moves: seq<Move>) { forall n: nat | n < |moves| :: !SpoilsAt(s, moves, n) }

  ghost predicate AlwaysSound(s: Sys, moves: seq<Move>) { forall n: nat | n <= |moves| :: SoundAt(s, moves, n) }

  lemma {:induction false} UnspoiledGrows(s: Sys, moves: seq<Move>)
    requires moves != []
    ensures
      var front, last := moves[..|moves| - 1], moves[|moves| - 1];
      Unspoiled(s, moves) <==> Unspoiled(s, front) && !Spoils(Run(s, front), last)
  {
    var front, last := moves[..|moves| - 1], moves[|moves| - 1];
    hide Spoils, Run;
    forall n: nat | n < |front| ensures SpoilsAt(s, moves, n) == SpoilsAt(s, front, n) {
      assert front[..n] == moves[..n];
    }
    assert SpoilsAt(s, moves, |front|) == Spoils(Run(s, front), last);
    hide SpoilsAt;
  }

  lemma {:induction false} AlwaysSoundGrows(s: Sys, moves: seq<Move>)
    requires moves != []
    ensures AlwaysSound(s, moves) <==> AlwaysSound(s, moves[..|moves| - 1]) && Sound(Run(s, moves))
  {
    var front := moves[..|moves| - 1];
    hide Sound, Run;
    forall n: nat | n <= |front| ensures SoundAt(s, moves, n) == SoundAt(s, front, n) {
      assert front[..n] == moves[..n];
    }
    assert moves[..|moves|] == moves;
    assert SoundAt(s, moves, |moves|) == Sound(Run(s, moves));
    hide SoundAt;
  }

  lemma {:induction false} RunIsSoundIff(s: Sys, moves: seq<Move>)
    requires Sound(s)
    ensures AlwaysSound(s, moves) <==> Unspoiled(s, moves)
    ensures AlwaysSound(s, moves) ==> Sound(Run(s, moves))
  {
    if moves == [] {
      assert moves[..0] == [];
    } else {
      var front := moves[..|moves| - 1];
      RunIsSoundIff(s, front);
      UnspoiledGrows(s, moves);
      AlwaysSoundGrows(s, moves);
      hide Sound, Spoils, Next, AlwaysSound, Unspoiled;
      if Unspoiled(s, front) {
        StepIsSoundIff(Run(s, front), moves[|moves| - 1]);
      }
    }
  }

  // ---- what the fate of a key says happened ----

  predicate GrantsNow(s: Sys, move: Move, k: Key) {
    move.Pick? && Eligible(s.pass, move.number) && Key(s.pass.repo, move.number) == k
  }

  ghost predicate GrantedAt(s: Sys, moves: seq<Move>, n: nat, k: Key) {
    n < |moves| && GrantsNow(Run(s, moves[..n]), moves[n], k)
  }

  /** The latest grant of `k`, if any, is before step `n`. */
  ghost predicate NotGrantedFrom(s: Sys, moves: seq<Move>, n: nat, k: Key) {
    forall m: nat :: n <= m ==> !GrantedAt(s, moves, m, k)
  }

  /** A claimed event of `k` found its row and consumed it. */
  ghost predicate Claims(s: Sys, move: Move, k: Key) {
    move == RunEvent(k, "claimed") && k.repo != "" && k in s.grants
  }

  /** A sweep began and saw `k` live. */
  ghost predicate SeesLive(s: Sys, move: Move, k: Key) {
    move == BeginSweep(k.repo) && s.janitor.Resting? && LiveAt(s, k)
  }

  ghost predicate ClaimedAt(s: Sys, moves: seq<Move>, n: nat, k: Key) {
    n < |moves| && NotGrantedFrom(s, moves, n, k) && Claims(Run(s, moves[..n]), moves[n], k)
  }

  ghost predicate SeenLiveAt(s: Sys, moves: seq<Move>, n: nat, k: Key) {
    n < |moves| && NotGrantedFrom(s, moves, n, k) && SeesLive(Run(s, moves[..n]), moves[n], k)
  }

  ghost predicate EverGranted(s: Sys, moves: seq<Move>, k: Key) { exists n: nat :: GrantedAt(s, moves, n, k) }

  ghost predicate ClaimedSince(s: Sys, moves: seq<Move>, k: Key) { exists n: nat :: ClaimedAt(s, moves, n, k) }

  ghost predicate SeenLiveSince(s: Sys, moves: seq<Move>, k: Key) { exists n: nat :: SeenLiveAt(s, moves, n, k) }

  lemma {:induction false} GrantedGrows(s: Sys, moves: seq<Move>, n: nat, k: Key)
    requires moves != []
    ensures
      var front, last := moves[..|moves| - 1], moves[|moves| - 1];
      GrantedAt(s, moves, n, k) <==> GrantedAt(s, front, n, k) || (n == |front| && GrantsNow(Run(s, front), last, k))
  {
    var front := moves[..|moves| - 1];
    assert n < |front| ==> front[..n] == moves[..n];
  }

  lemma {:induction false} ClaimedGrows(s: Sys, moves: seq<Move>, k: Key)
    requires moves != []
    ensures
      var front, last := moves[..|moves| - 1], moves[|moves| - 1];
      var at := Run(s, front);
      ClaimedSince(s, moves, k) <==> !GrantsNow(at, last, k) && (ClaimedSince(s, front, k) || Claims(at, last, k))
  {
    var front, last := moves[..|moves| - 1], moves[|moves| - 1];
    var at := Run(s, front);
    hide Run, GrantsNow, Claims;
    forall n: nat ensures ClaimedAt(s, moves, n, k)
      <==> !GrantsNow(at, last, k) && (ClaimedAt(s, front, n, k) || (n == |front| && Claims(at, last, k)))
    {
      NotGrantedGrows(s, moves, n, k);
      assert n <= |front| ==> front[..n] == moves[..n];
    }
    hide ClaimedAt;
    if !GrantsNow(at, last, k) && Claims(at, last, k) {
      assert ClaimedAt(s, moves, |front|, k);
    }
  }

  lemma {:induction false} SeenLiveGrows(s: Sys, moves: seq<Move>, k: Key)
    requires moves != []
    ensures
      var front, last := moves[..|moves| - 1], moves[|moves| - 1];
      var at := Run(s, front);
      SeenLiveSince(s, moves, k) <==> !GrantsNow(at, last, k) && (SeenLiveSince(s, front, k) || SeesLive(at, last, k))
  {
    var front, last := moves[..|moves| - 1], moves[|moves| - 1];
    var at := Run(s, front);
    hide Run, GrantsNow, SeesLive;
    forall n: nat ensures SeenLiveAt(s, moves, n, k)
      <==> !GrantsNow(at, last, k) && (SeenLiveAt(s, front, n, k) || (n == |front| && SeesLive(at, last, k)))
    {
      NotGrantedGrows(s, moves, n, k);
      assert n <= |front| ==> front[..n] == moves[..n];
    }
    hide SeenLiveAt;
    if !GrantsNow(at, last, k) && SeesLive(at, last, k) {
      assert SeenLiveAt(s, moves, |front|, k);
    }
  }

  lemma {:induction false} NotGrantedGrows(s: Sys, moves: seq<Move>, n: nat, k: Key)
    requires moves != []
    ensures
      var front, last := moves[..|moves| - 1], moves[|moves| - 1];
      && (n < |moves| ==> (NotGrantedFrom(s, moves, n, k) <==> NotGrantedFrom(s, front, n, k) && !GrantsNow(Run(s, front), last, k)))
      && (n == |front| ==> NotGrantedFrom(s, front, n, k))
  {
    var front, last := moves[..|moves| - 1], moves[|moves| - 1];
    var at := Run(s, front);
    forall m: nat ensures GrantedAt(s, moves, m, k) <==> GrantedAt(s, front, m, k) || (m == |front| && GrantsNow(at, last, k)) {
      GrantedGrows(s, moves, m, k);
    }
    assert forall m: nat :: m >= |front| ==> !GrantedAt(s, front, m, k);
    assert GrantedAt(s, moves, |front|, k) <==> GrantsNow(at, last, k);
    hide GrantedAt;
  }

  lemma {:induction false} EverGrantedGrows(s: Sys, moves: seq<Move>, k: Key)
    requires moves != []
    ensures
      var front, last := moves[..|moves| - 1], moves[|moves| - 1];
      EverGranted(s, moves, k) <==> EverGranted(s, front, k) || GrantsNow(Run(s, front), last, k)
  {
    var front, last := moves[..|moves| - 1], moves[|moves| - 1];
    var at := Run(s, front);
    hide Run, GrantsNow;
    forall n: nat ensures GrantedAt(s, moves, n, k) <==> GrantedAt(s, front, n, k) || (n == |front| && GrantsNow(at, last, k)) {
      GrantedGrows(s, moves, n, k);
    }
    hide GrantedAt;
    if GrantsNow(at, last, k) {
      assert GrantedAt(s, moves, |front|, k);
    }
  }

  predicate Sees(j: Janitor, k: Key) {
    match j
    case Resting => false
    case SawClaims(_, live) => k in live
    case Walking(live, _) => k in live
    case Unwinding(live, _, _, _, _) => k in live
  }

  /**
   The history flags of `k` say what happened: activated if and only if a claimed
   event consumed the row since the latest grant; settled, or in the sight of a
   sweep that did not miss a grant, only if a sweep that began since saw it live.
   */
  ghost predicate Backed(s: Sys, moves: seq<Move>, k: Key) {
    var t := Run(s, moves);
    && (k in t.fate <==> EverGranted(s, moves, k))
    && (k in t.fate ==> (t.fate[k] == Activated <==> ClaimedSince(s, moves, k)))
    && (k in t.fate && t.fate[k] == Settled ==> SeenLiveSince(s, moves, k))
    && (k in t.fate && Sees(t.janitor, k) && k !in t.regranted ==> SeenLiveSince(s, moves, k))
    && (k in t.regranted ==> !SeenLiveSince(s, moves, k))
  }

  /** How one step moves the history flags of `k`. */
  lemma {:induction false} FlagsMove(s: Sys, move: Move, k: Key)
    ensures
      var t := Next(s, move);
      && (k in t.fate <==> k in s.fate || GrantsNow(s, move, k))
      && (GrantsNow(s, move, k) ==> t.fate[k] == Waiting && k in t.regranted)
      && (!GrantsNow(s, move, k) && k in t.fate ==>
            && (t.fate[k] == Activated <==> s.fate[k] == Activated || Claims(s, move, k))
            && (t.fate[k] == Settled ==> s.fate[k] == Settled || (Sees(s.janitor, k) && k !in s.regranted))
            && (Sees(t.janitor, k) && k !in t.regranted ==> (Sees(s.janitor, k) && k !in s.regranted) || SeesLive(s, move, k)))
      && (!GrantsNow(s, move, k) && k in t.regranted ==> k in s.regranted && !SeesLive(s, move, k))
  {
    hide IssueAt, Rows, GrantWrite;
    match ActorOf(move)
    case Dispatcher =>
    case Nodes =>
    case TheJanitor => assert move.BeginSweep? ==> forall j: Key :: j.repo == move.repo && j == k ==> k.repo == move.repo;
  }

  lemma {:induction false} HistoryIsBacked(s: Sys, moves: seq<Move>, k: Key)
    requires Fresh(s)
    ensures Backed(s, moves, k)
  {
    if moves == [] {
      forall n: nat ensures !GrantedAt(s, moves, n, k) {
      }
    } else {
      var front, last := moves[..|moves| - 1], moves[|moves| - 1];
      HistoryIsBacked(s, front, k);
      FlagsMove(Run(s, front), last, k);
      EverGrantedGrows(s, moves, k);
      ClaimedGrows(s, moves, k);
      SeenLiveGrows(s, moves, k);
      hide GrantsNow, EverGranted, ClaimedSince, SeenLiveSince, Next, Claims, SeesLive, Sees;
      assert Run(s, moves) == Next(Run(s, front), last);
    }
  }

  ghost predicate BeingUnwound(s: Sys, k: Key) { s.janitor.Unwinding? && s.janitor.key == k }

  /**
   No half-written claim is lost. In every interleaving where no step spoils, a
   key once granted still has its row, or is being unwound, or is back in the
   pool on GitHub, or since its latest grant a claimed event consumed the row or
   a sweep began that saw it live.
   */
  lemma {:induction false} NoClaimIsLost(s: Sys, moves: seq<Move>, k: Key)
    requires Fresh(s) && Unspoiled(s, moves)
    requires exists n: nat :: GrantedAt(s, moves, n, k)
    ensures
      var t := Run(s, moves);
      || k in t.grants || BeingUnwound(t, k) || Clean(IssueAt(t, k))
      || (exists n: nat :: ClaimedAt(s, moves, n, k))
      || exists n: nat :: SeenLiveAt(s, moves, n, k)
  {
    assert Sound(s);
    RunIsSoundIff(s, moves);
    var t := Run(s, moves);
    assert Sound(t);
    HistoryIsBacked(s, moves, k);
    assert EverGranted(s, moves, k) && UnwoundIsClean(t, k);
  }

  lemma {:induction false} RunNext(s: Sys, moves: seq<Move>, move: Move)
    ensures Run(s, moves + [move]) == Next(Run(s, moves), move)
  {
    assert (moves + [move])[..|moves|] == moves;
  }

  /** A row deleted as live although granted after the sweep looked leaves nothing behind that accounts for the grant. */
  lemma {:induction false} StaleDeleteIsALoss(s: Sys, moves: seq<Move>)
    requires Fresh(s) && StaleDelete(Run(s, moves), TakeRow)
    ensures
      var k, t, more := Run(s, moves).janitor.due[0].0, Run(s, moves + [TakeRow]), moves + [TakeRow];
      && k !in t.grants && !BeingUnwound(t, k) && IssueAt(t, k) == IssueAt(Run(s, moves), k)
      && EverGranted(s, more, k) && !ClaimedSince(s, more, k) && !SeenLiveSince(s, more, k)
  {
    var at := Run(s, moves);
    var k := at.janitor.due[0].0;
    RunNext(s, moves, TakeRow);
    HistoryIsBacked(s, moves + [TakeRow], k);
    hide EverGranted, ClaimedSince, SeenLiveSince, Run;
    assert Next(at, TakeRow).fate[k] == Dropped && k in Next(at, TakeRow).regranted;
  }

  /** A write that lands on an unwound key claims an issue that has no row, no unwind, and no claimed event since its grant. */
  lemma {:induction false} LateWriteIsALoss(s: Sys, moves: seq<Move>, call: Call)
    requires Fresh(s) && Sound(Run(s, moves)) && LateWrite(Run(s, moves), Write(call))
    requires Run(s, moves).fate[Run(s, moves).pass.key] == Unwound
    ensures
      var k, t, more := Run(s, moves).pass.key, Run(s, moves + [Write(call)]), moves + [Write(call)];
      && k !in t.grants && !BeingUnwound(t, k) && !Clean(IssueAt(t, k))
      && EverGranted(s, more, k) && !ClaimedSince(s, more, k)
  {
    var at, move := Run(s, moves), Write(call);
    var k := at.pass.key;
    RunNext(s, moves, move);
    HistoryIsBacked(s, moves + [move], k);
    hide EverGranted, ClaimedSince, SeenLiveSince, Run;
    assert UnwoundIsClean(at, k);
    WriteShows(IssueAt(at, k), at.pass.grant.login, at.pass.written, Fetching);
  }

  // ---- the activation window ----

  /** The janitor takes no row whose grant is still being written: the activation window outlasts the three writes. */
  predicate Timely(s: Sys, move: Move) {
    move.TakeRow? && s.janitor.Walking? && s.janitor.due != [] ==> !WritingTo(s, s.janitor.due[0].0)
  }

  /** What is being unwound, or was, is not being written. */
  ghost predicate OnTime(s: Sys) {
    && (forall k :: k in s.fate && s.fate[k] == Unwound ==> !WritingTo(s, k))
    && (s.janitor.Unwinding? && Unclaimed(s, s.janitor.key) ==> !WritingTo(s, s.janitor.key))
  }

  lemma {:induction false} JanitorStaysOnTime(s: Sys, move: Move)
    requires OnTime(s) && Timely(s, move) && ActorOf(move) == TheJanitor
    ensures OnTime(JanitorStep(s, move))
  {
    hide IssueAt, GrantWrite, Rows, Live, Touched, RunKeys;
  }

  lemma {:induction false} StepStaysOnTime(s: Sys, move: Move)
    requires OnTime(s) && Timely(s, move)
    ensures OnTime(Next(s, move)) && !LateWrite(s, move)
  {
    hide IssueAt, GrantWrite, Rows, Live, Touched, UndoesStage;
    match ActorOf(move)
    case Dispatcher =>
    case Nodes =>
    case TheJanitor =>
      JanitorStaysOnTime(s, move);
      hide JanitorStep;
  }

  lemma {:induction false} TimelyRunIsOnTime(s: Sys, moves: seq<Move>)
    requires Fresh(s)
    requires forall n :: 0 <= n < |moves| ==> Timely(Run(s, moves[..n]), moves[n])
    ensures OnTime(Run(s, moves))
  {
    if moves != [] {
      var front := moves[..|moves| - 1];
      hide Timely, OnTime, Next;
      assert forall n :: 0 <= n < |front| ==> front[..n] == moves[..n] && front[n] == moves[n];
      assert OnTime(Run(s, front)) by {
        TimelyRunIsOnTime(s, front);
      }
      StepStaysOnTime(Run(s, front), moves[|moves| - 1]);
    }
  }

  /** A window that outlasts the writes rules late writes out, whatever the calls do. */
  lemma {:induction false} TimelyRunHasNoLateWrite(s: Sys, moves: seq<Move>)
    requires Fresh(s)
    requires forall n :: 0 <= n < |moves| ==> Timely(Run(s, moves[..n]), moves[n])
    ensures forall n :: 0 <= n < |moves| ==> !LateWrite(Run(s, moves[..n]), moves[n])
  {
    hide Timely, OnTime, Next, LateWrite, Fresh;
    forall n | 0 <= n < |moves| ensures !LateWrite(Run(s, moves[..n]), moves[n]) {
      var front := moves[..n];
      assert forall m :: 0 <= m < n ==> front[..m] == moves[..m] && front[m] == moves[m];
      TimelyRunIsOnTime(s, front);
      StepStaysOnTime(Run(s, front), moves[n]);
    }
  }

  // ---- why the order, the window and the put-back matter ----

  /** Read the other way round, live claims first, the two reads can both miss a guarded key. */
  lemma {:induction false} ReadOrderMatters(s: Sys, k: Key)
    requires k in s.guarded && k in s.grants && k.repo != "" && !LiveAt(s, k)
    ensures
      var t := Next(s, RunEvent(k, "claimed"));
      k in t.guarded && k !in t.grants && LiveAt(t, k)
  {
    LiveAfterRun(s, k, "claimed", k);
  }

  function OnePooledIssue(k: Key): Sys {
    Sys(map[], [], map[k := Issue({}, {PLAN_READY})], Idle, Resting, {}, map[], {})
  }

  /** The row is written, none of the three GitHub writes has happened yet. */
  function RowWritten(k: Key, g: Grant): Sys {
    OnePooledIssue(k).(grants := map[k := g], pass := Writing(k, g, 0), guarded := {k}, fate := map[k := Waiting],
                       regranted := {k})
  }

  lemma {:induction false} PassReads(k: Key, g: Grant)
    ensures OnePooledIssue(k).(pass := Listed(k.repo, g, {}, {}, map[k.issue := Issue({}, {PLAN_READY})]))
         == Next(Next(Next(OnePooledIssue(k), BeginPass(k.repo, g)), ReadLive), ListIssues({k.issue}))
  {
    var s := OnePooledIssue(k);
    var s1 := Next(s, BeginPass(k.repo, g));
    assert s1.pass.granted == {};
    assert s1 == s.(pass := SawGranted(k.repo, g, {}));
    var s2 := Next(s1, ReadLive);
    assert RunKeys(s1.runs) == {};
    assert s2.pass.live == {};
    assert s2 == s.(pass := SawLive(k.repo, g, {}, {}));
    var s3 := Next(s2, ListIssues({k.issue}));
    assert IssueAt(s2, Key(k.repo, k.issue)) == Issue({}, {PLAN_READY});
    assert s3.pass.pool == map[k.issue := Issue({}, {PLAN_READY})];
  }

  lemma {:induction false} PassPicks(k: Key, g: Grant, s: Sys)
    requires s == OnePooledIssue(k).(pass := Listed(k.repo, g, {}, {}, map[k.issue := Issue({}, {PLAN_READY})]))
    ensures Next(s, Pick(k.issue)) == RowWritten(k, g)
  {
    assert PLAN_READY != IN_PROGRESS && PLAN_READY != FAILED;
    assert Eligible(s.pass, k.issue);
    assert Key(k.repo, k.issue) == k;
    assert s.guarded + {k} == {k};
  }

  /** The janitor holds the row, having found the key not live. */
  function RowTaken(k: Key, g: Grant): Sys {
    RowWritten(k, g).(grants := map[], guarded := {}, janitor := Unwinding({}, [], k, g, Fetching), regranted := {})
  }

  lemma {:induction false} JanitorTakesRow(k: Key, g: Grant)
    ensures Next(Next(Next(RowWritten(k, g), BeginSweep(k.repo)), ReadExpired([k])), TakeRow)
         == RowTaken(k, g)
  {
    var s := RowWritten(k, g);
    var s1 := Next(s, BeginSweep(k.repo));
    assert s1 == s.(janitor := SawClaims(k.repo, {}), regranted := {});
    assert Rows(s.grants, [k], k.repo) == [(k, g)] by { assert [k][1..] == [] && Rows(s.grants, [], k.repo) == []; }
    var s2 := Next(s1, ReadExpired([k]));
    assert s2 == s.(janitor := Walking({}, [(k, g)]), regranted := {});
    assert s.grants - {k} == map[] && s.guarded - {k} == {};
  }

  lemma {:induction false} UnwindFinishes(s: Sys, k: Key, g: Grant)
    requires s == RowTaken(k, g)
    ensures Next(Next(Next(s, Undo("", Done)), Undo("", Done)), Undo("", Done))
         == s.(janitor := Walking({}, []), fate := map[k := Unwound])
  {
    var pooled := Issue({}, {PLAN_READY});
    var s1 := Next(s, Undo("", Done));
    assert s1 == s.(janitor := Unwinding({}, [], k, g, Unlabelling));
    var s2 := Next(s1, Undo("", Done));
    assert pooled.(labels := pooled.labels - {IN_PROGRESS}) == pooled by { assert PLAN_READY != IN_PROGRESS; }
    assert s.github[k := pooled] == s.github;
    assert s2 == s.(janitor := Unwinding({}, [], k, g, Relabelling));
    assert pooled.(labels := pooled.labels + {PLAN_READY}) == pooled;
  }

  ghost function Granting(k: Key, g: Grant): Sys {
    Next(Next(Next(Next(OnePooledIssue(k), BeginPass(k.repo, g)), ReadLive), ListIssues({k.issue})), Pick(k.issue))
  }

  ghost function Taking(s: Sys, k: Key): Sys {
    Next(Next(Next(s, BeginSweep(k.repo)), ReadExpired([k])), TakeRow)
  }

  ghost function Undoing(s: Sys): Sys {
    Next(Next(Next(s, Undo("", Done)), Undo("", Done)), Undo("", Done))
  }

  /** A release that overtakes the grant's own writes leaves a claim mark that no table and no event accounts for. */
  lemma {:induction false} UntimelyReleaseOrphans(k: Key, g: Grant)
    ensures Fresh(OnePooledIssue(k))
    ensures
      var s := Undoing(Taking(Granting(k, g), k));
      var t := Next(s, Write(Done));
      && s.fate == map[k := Unwound] && s.grants == map[] && s.runs == [] && Clean(IssueAt(s, k))
      && t.fate == s.fate && t.grants == map[] && t.runs == [] && IssueAt(t, k).assignees == {g.login}
  {
    PassReads(k, g);
    PassPicks(k, g, OnePooledIssue(k).(pass := Listed(k.repo, g, {}, {}, map[k.issue := Issue({}, {PLAN_READY})])));
    JanitorTakesRow(k, g);
    var taken := RowTaken(k, g);
    UnwindFinishes(taken, k, g);
    var s := Undoing(Taking(Granting(k, g), k));
    assert s == taken.(janitor := Walking({}, []), fate := map[k := Unwound]);
    hide Undoing, Taking, Granting;
    assert PLAN_READY != IN_PROGRESS;
  }

  lemma {:induction false} RunsOn(s: Sys, before: seq<Move>, after: seq<Move>)
    ensures Run(s, before + after) == Run(Run(s, before), after)
  {
    var moves := before + after;
    if after == [] {
      assert moves == before;
    } else {
      assert moves[..|moves| - 1] == before + after[..|after| - 1];
      RunsOn(s, before, after[..|after| - 1]);
    }
  }

  /** A sweep looks, and a claimed run of `k` ends before it reaches the row. */
  function LookAway(k: Key): seq<Move> {
    [BeginSweep(k.repo), ReadExpired([k]), RunEvent(k, "claimed"), RunEvent(k, "pr-open")]
  }

  /** A pass grants `k`; the second of its three writes fails. */
  function HalfGrant(k: Key, g: Grant): seq<Move> {
    [BeginPass(k.repo, g), ReadLive, ListIssues({k.issue}), Pick(k.issue), Write(Done), Write(Raised(false))]
  }

  predicate InPool(i: Issue) { Clean(i) && FAILED !in i.labels }

  lemma {:induction false} LookAwayMoves(s: Sys, k: Key)
    requires s.janitor.Resting? && k in s.grants && LiveAt(s, k) && k.repo != ""
    ensures
      var t := Next(Next(Next(Next(s, BeginSweep(k.repo)), ReadExpired([k])), RunEvent(k, "claimed")), RunEvent(k, "pr-open"));
      && k !in t.grants && !LiveAt(t, k) && t.github == s.github && t.pass == s.pass
      && t.janitor.Walking? && k in t.janitor.live && t.janitor.due == [(k, s.grants[k])]
  {
    LatestIsLogged(s.runs, k.repo, k.issue);
    var s1 := Next(s, BeginSweep(k.repo));
    assert s1.janitor.SawClaims? && k in s1.janitor.live && s1.grants == s.grants;
    assert Rows(s1.grants, [k], k.repo) == [(k, s.grants[k])] by {
      assert [k][1..] == [] && Rows(s1.grants, [], k.repo) == [];
    }
    var s2 := Next(s1, ReadExpired([k]));
    var s3 := Next(s2, RunEvent(k, "claimed"));
    LiveAfterRun(s3, k, "pr-open", k);
    var t := Next(s3, RunEvent(k, "pr-open"));
    assert t == NodeStep(s3, RunEvent(k, "pr-open"));
    assert "pr-open" !in LIVE_RUN_PHASES;
  }

  lemma {:induction false} ReadsPool(s: Sys, k: Key, g: Grant)
    requires s.pass.Idle? && k !in s.grants && !LiveAt(s, k) && InPool(IssueAt(s, k))
    ensures
      var t := Next(Next(Next(s, BeginPass(k.repo, g)), ReadLive), ListIssues({k.issue}));
      t == s.(pass := t.pass) && Eligible(t.pass, k.issue) && t.pass.repo == k.repo && t.pass.grant == g
  {
    var s1 := Next(s, BeginPass(k.repo, g));
    assert forall j: Key :: j.repo == k.repo && j.issue == k.issue ==> j == k;
    var s2 := Next(s1, ReadLive);
    assert s2 == s.(pass := s2.pass) && k.issue !in s2.pass.granted + s2.pass.live;
    var s3 := Next(s2, ListIssues({k.issue}));
    assert Key(k.repo, k.issue) == k && IssueAt(s2, k) == IssueAt(s, k);
  }

  lemma {:induction false} HalfGrantMoves(s: Sys, k: Key, g: Grant)
    requires Eligible(s.pass, k.issue) && s.pass.repo == k.repo && s.pass.grant == g && IssueAt(s, k).assignees == {}
    ensures
      var t := Next(Next(Next(s, Pick(k.issue)), Write(Done)), Write(Raised(false)));
      && t.grants == s.grants[k := g] && t.pass.Idle? && t.runs == s.runs && t.janitor == s.janitor
      && WaitingRow(t, k) && k in t.regranted && IssueAt(t, k).assignees == {g.login}
  {
    var s1 := Next(s, Pick(k.issue));
    assert s1.pass == Writing(k, g, 0) && IssueAt(s1, k) == IssueAt(s, k) && s1.janitor == s.janitor;
    var s2 := Next(s1, Write(Done));
    assert s2.pass == Writing(k, g, 1) && IssueAt(s2, k).assignees == {g.login};
    var s3 := Next(s2, Write(Raised(false)));
    assert s3 == s2.(pass := Idle);
  }

  lemma {:induction false} RunsFour(s: Sys, a: Move, b: Move, c: Move, d: Move)
    ensures Run(s, [a, b, c, d]) == Next(Next(Next(Next(s, a), b), c), d)
  {
    assert Run(s, []) == s;
    RunNext(s, [], a);
    RunNext(s, [a], b);
    RunNext(s, [a, b], c);
    RunNext(s, [a, b, c], d);
    hide Next, Run;
    assert [] + [a] == [a] && [a] + [b] == [a, b] && [a, b] + [c] == [a, b, c] && [a, b, c] + [d] == [a, b, c, d];
  }

  lemma {:induction false} RunsThree(s: Sys, a: Move, b: Move, c: Move)
    ensures Run(s, [a, b, c]) == Next(Next(Next(s, a), b), c)
  {
    assert Run(s, []) == s;
    RunNext(s, [], a);
    RunNext(s, [a], b);
    RunNext(s, [a, b], c);
    hide Next, Run;
    assert [] + [a] == [a] && [a] + [b] == [a, b] && [a, b] + [c] == [a, b, c];
  }

  lemma {:induction false} StaleSweepGoes(s: Sys, k: Key, g: Grant)
    requires Fresh(s) && k in s.grants && LiveAt(s, k) && k.repo != "" && InPool(IssueAt(s, k))
    ensures
      var t := Run(Run(s, LookAway(k)), HalfGrant(k, g));
      && t.pass.Idle? && !LiveAt(t, k) && WaitingRow(t, k) && k in t.regranted && IssueAt(t, k).assignees == {g.login}
      && t.janitor.Walking? && k in t.janitor.live && t.janitor.due == [(k, s.grants[k])]
  {
    hide Run, Next, Eligible, Live;
    RunsFour(s, BeginSweep(k.repo), ReadExpired([k]), RunEvent(k, "claimed"), RunEvent(k, "pr-open"));
    LookAwayMoves(s, k);
    var u := Run(s, LookAway(k));
    assert IssueAt(u, k) == IssueAt(s, k);
    ReadsPool(u, k, g);
    RunsThree(u, BeginPass(k.repo, g), ReadLive, ListIssues({k.issue}));
    var v := Run(u, [BeginPass(k.repo, g), ReadLive, ListIssues({k.issue})]);
    assert IssueAt(v, k) == IssueAt(u, k) && LiveAt(v, k) == LiveAt(u, k);
    HalfGrantMoves(v, k, g);
    RunsThree(v, Pick(k.issue), Write(Done), Write(Raised(false)));
    RunsOn(u, [BeginPass(k.repo, g), ReadLive, ListIssues({k.issue})], [Pick(k.issue), Write(Done), Write(Raised(false))]);
    assert HalfGrant(k, g)
        == [BeginPass(k.repo, g), ReadLive, ListIssues({k.issue})] + [Pick(k.issue), Write(Done), Write(Raised(false))];
  }

  /**
   The deletion of a newer row is reached, from any fresh store with an old row
   and a live claim: the claim runs and ends during the sweep, a pass grants
   anew and fails half way, and the sweep then drops the new row as live.
   */
  lemma {:induction false} StaleSweepDropsTheRow(s: Sys, k: Key, g: Grant)
    requires Fresh(s) && k in s.grants && LiveAt(s, k) && k.repo != "" && InPool(IssueAt(s, k))
    ensures
      var moves := LookAway(k) + HalfGrant(k, g);
      var t := Run(s, moves + [TakeRow]);
      && StaleDelete(Run(s, moves), TakeRow)
      && k !in t.grants && !LiveAt(t, k) && t.pass.Idle? && t.janitor.Walking? && t.janitor.due == []
      && IssueAt(t, k).assignees == {g.login}
  {
    StaleSweepGoes(s, k, g);
    RunsOn(s, LookAway(k), HalfGrant(k, g));
    RunNext(s, LookAway(k) + HalfGrant(k, g), TakeRow);
    hide Run;
  }

  /** The row is gone while the unwind runs: a janitor that died here would lose the claim; a call that raises does not. */
  lemma {:induction false} FailedUnwindPutsTheRowBack(s: Sys, login: string, applied: bool)
    requires s.janitor.Unwinding? && s.janitor.key !in s.grants && Unclaimed(s, s.janitor.key)
    requires s.janitor.stage.Unassigning? ==> login in s.janitor.stage.todo
    ensures
      var t := Next(s, Undo(login, Raised(applied)));
      s.janitor.key in t.grants && t.grants[s.janitor.key] == s.janitor.row && (RowsKept(s) ==> RowsKept(t))
    ensures !RowsKept(s.(janitor := Resting))
  {
    var k := s.janitor.key;
    assert k in s.fate && s.fate[k] == Waiting;
  }
}
