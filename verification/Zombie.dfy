/**
 Zombie escalation of one silent claim, interruptible before and after every
 call and resumed by later passes. Nobody else edits the issue meanwhile; the
 evidence bundle may land, and the claim may resurface, at any time.
 */
module Zombie {
  import opened Prelude

  const IN_PROGRESS := "in_progress"
  const FAILED := "failed"
  const NEEDS_HUMAN := "needs_human"

  datatype Stage =
    | Resting
    | Fetching
    | CheckingPr(assignees: set<string>)
    | CheckingEvidence(assignees: set<string>)
    | Excusing
    | Labelling(assignees: set<string>)
    | Commenting(assignees: set<string>)
    | Stripping(assignees: set<string>)
    | Unlabelling
    | Closing

  datatype End = Whole | Cut(applied: bool)

  /** `acted` is the run's ledger entry; `writes` and `escalations` are history no step reads. */
  datatype Claim = Claim(
    assignees: set<string>,
    labels: set<string>,
    landed: bool,
    acted: bool,
    flagged: bool,
    stage: Stage,
    writes: nat,
    escalations: nat)

  datatype Move =
    | Look(silent: bool)
    | Fetch(end: End)
    | CheckPr(prReady: bool, end: End)
    | CheckEvidence(end: End)
    | Excuse(end: End)
    | Label(end: End)
    | Comment(end: End)
    | Strip(login: string, end: End)
    | Unlabel(end: End)
    | Close(end: End)
    | EvidenceLands

  function Took(end: End): bool { end == Whole || end == Cut(true) }

  function Wrote(s: Claim, end: End): nat { if Took(end) then s.writes + 1 else s.writes }

  function Or(end: End, stage: Stage): Stage { if end == Whole then stage else Resting }

  function Undressing(todo: set<string>): Stage { if todo == {} then Unlabelling else Stripping(todo) }

  function Next(s: Claim, move: Move): Claim {
    match move
    case EvidenceLands => s.(landed := true)
    case Look(silent) =>
      if !s.stage.Resting? || s.acted then s
      else if !silent then s.(flagged := false)
      else s.(flagged := true, stage := Fetching)
    case Fetch(end) =>
      if !s.stage.Fetching? then s
      else if IN_PROGRESS !in s.labels && s.assignees == {} then s.(stage := Or(end, Excusing))
      else s.(stage := Or(end, CheckingPr(s.assignees)))
    case CheckPr(prReady, end) =>
      if !s.stage.CheckingPr? then s
      else s.(stage := Or(end, if prReady then Excusing else CheckingEvidence(s.stage.assignees)))
    case CheckEvidence(end) =>
      if !s.stage.CheckingEvidence? then s
      else s.(stage := if s.landed then Or(end, Labelling(s.stage.assignees)) else Resting)
    case Excuse(end) =>
      if !s.stage.Excusing? then s
      else s.(acted := s.acted || Took(end), flagged := s.flagged && end != Whole, stage := Resting)
    case Label(end) =>
      if !s.stage.Labelling? then s
      else
        s.(labels := if Took(end) then s.labels + {FAILED, NEEDS_HUMAN} else s.labels, writes := Wrote(s, end),
           escalations := if Took(end) then s.escalations + 1 else s.escalations,
           stage := Or(end, Commenting(s.stage.assignees)))
    case Comment(end) =>
      if !s.stage.Commenting? then s
      else s.(writes := Wrote(s, end), stage := Or(end, Undressing(s.stage.assignees)))
    case Strip(login, end) =>
      if !s.stage.Stripping? || login !in s.stage.assignees then s
      else
        s.(assignees := if Took(end) then s.assignees - {login} else s.assignees, writes := Wrote(s, end),
           stage := Or(end, Undressing(s.stage.assignees - {login})))
    case Unlabel(end) =>
      if !s.stage.Unlabelling? then s
      else
        s.(labels := if Took(end) then s.labels - {IN_PROGRESS} else s.labels, writes := Wrote(s, end),
           stage := Or(end, Closing))
    case Close(end) =>
      if !s.stage.Closing? then s
      else s.(acted := s.acted || Took(end), flagged := s.flagged && end != Whole, stage := Resting)
  }

  function Run(s: Claim, moves: seq<Move>): Claim {
    if moves == [] then s else Next(Run(s, moves[..|moves| - 1]), moves[|moves| - 1])
  }

  predicate Marked(s: Claim) { s.assignees != {} || IN_PROGRESS in s.labels }

  predicate Escalated(s: Claim) { FAILED in s.labels && NEEDS_HUMAN in s.labels }

  predicate Fresh(s: Claim) { s.stage.Resting? && !s.acted && s.writes == 0 && s.escalations == 0 && Marked(s) }

  predicate Inv(s: Claim) {
    && (Marked(s) || Escalated(s))
    && (s.escalations > 0 ==> s.landed)
    && (s.stage.Labelling? ==> s.landed)
    && (s.stage.Commenting? || s.stage.Stripping? || s.stage.Unlabelling? || s.stage.Closing? ==> Escalated(s))
    && (s.stage.Labelling? || s.stage.Commenting? || s.stage.Stripping? ==> s.assignees <= s.stage.assignees)
    && (s.stage.CheckingPr? || s.stage.CheckingEvidence? ==> s.assignees <= s.stage.assignees)
    && (s.stage.Unlabelling? ==> s.assignees == {})
    && (s.stage.Closing? ==> s.assignees == {} && IN_PROGRESS !in s.labels)
    && (!s.stage.Resting? ==> !s.acted)
  }

  lemma {:induction false} MoveKeepsInv(s: Claim, move: Move)
    requires Inv(s)
    ensures Inv(Next(s, move))
  {
    assert IN_PROGRESS != FAILED && IN_PROGRESS != NEEDS_HUMAN;
    if move.Strip? && s.stage.Stripping? {
      assert s.assignees - {move.login} <= s.stage.assignees - {move.login};
    }
  }

  lemma {:induction false} RunKeepsInv(s: Claim, moves: seq<Move>)
    requires Fresh(s)
    ensures Inv(Run(s, moves))
  {
    if moves != [] {
      RunKeepsInv(s, moves[..|moves| - 1]);
      MoveKeepsInv(Run(s, moves[..|moves| - 1]), moves[|moves| - 1]);
    }
  }

  /** Along any failing and resumed run the issue carries a claim mark or the escalation labels, which need the evidence. */
  lemma {:induction false} NeverBare(s: Claim, moves: seq<Move>)
    requires Fresh(s)
    ensures Marked(Run(s, moves)) || Escalated(Run(s, moves))
    ensures Run(s, moves).escalations > 0 ==> Run(s, moves).landed
  {
    RunKeepsInv(s, moves);
  }

  lemma {:induction false} EscalationNeedsEvidence(s: Claim, moves: seq<Move>, move: Move)
    requires Fresh(s)
    requires Next(Run(s, moves), move).escalations > Run(s, moves).escalations
    ensures Run(s, moves).landed
  {
    RunKeepsInv(s, moves);
  }

  /** Once the run is in the ledger there are no more writes for it. */
  lemma {:induction false} LedgerIsFinal(s: Claim, more: seq<Move>)
    requires s.acted && s.stage.Resting?
    ensures Run(s, more) == s.(landed := Run(s, more).landed)
  {
    if more != [] {
      LedgerIsFinal(s, more[..|more| - 1]);
    }
  }

  /** The ledger entry comes only with the issue settled: escalated and stripped, already released, or in review. */
  lemma {:induction false} ClosingMeansEscalated(s: Claim, moves: seq<Move>, end: End)
    requires Fresh(s) && Run(s, moves).stage.Closing?
    ensures
      var t := Next(Run(s, moves), Close(end));
      t.stage.Resting? && Escalated(t) && !Marked(t) && (end == Whole ==> t.acted && !t.flagged)
  {
    RunKeepsInv(s, moves);
  }

  /** A pass cut short after the strip is closed by the next one without another write. */
  lemma {:induction false} LostRecordIsExcused(s: Claim)
    requires Inv(s) && s.stage.Resting? && !s.acted && !Marked(s)
    ensures
      var t := Next(Next(Next(s, Look(true)), Fetch(Whole)), Excuse(Whole));
      t.acted && !t.flagged && t.stage.Resting? && t.writes == s.writes && t.labels == s.labels && Escalated(t)
  {
  }
}
