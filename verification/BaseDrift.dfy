/**
 Base-drift escalation of one dependent PR, interruptible before and after
 every call. A drift is named by the ledger key of its SHA pair; humans may
 block and unblock the PR and the blocker's tip may move at any time.
 */
module BaseDrift {
  import opened Prelude

  const BLOCKED := "blocked"
  const NEEDS_HUMAN := "needs_human"
  const KEY_CHARS: nat := 12

  function Short(sha: string): string { if |sha| <= KEY_CHARS then sha else sha[..KEY_CHARS] }

  /** The ledger key of a SHA pair: both sides cut to their first characters. */
  function DriftKey(recorded: string, tip: string): string {
    "base-drift-" + Short(recorded) + "-" + Short(tip)
  }

  function CommentKey(recorded: string, tip: string): string { DriftKey(recorded, tip) + "-comment" }

  /** Where a pass stands; `key` names the drift it is working on. */
  datatype Stage =
    | Resting
    | Seen(key: string, blocked: bool)
    | Posting(key: string)
    | Noting(key: string)
    | Labelling(key: string)
    | Closing(key: string)

  /** How a call or a ledger write ended; `Cut` is an exception or the death of the process. */
  datatype End = Whole | Cut(applied: bool)

  /**
   `ledger` and `notes` are the recorded keys and comment sub-keys. `posted`
   and `labelled` count the GitHub writes per key, `lapses` the interruptions
   that lost a comment's record: history no step reads.
   */
  datatype Lane = Lane(
    labels: set<string>,
    ledger: set<string>,
    notes: set<string>,
    stage: Stage,
    posted: map<string, nat>,
    labelled: map<string, nat>,
    lapses: map<string, nat>)

  datatype Move =
    | Look(key: string)
    | Decide
    | Post(end: End)
    | Note(end: End)
    | Label(end: End)
    | Close(end: End)
    | Relabel(labels: set<string>)

  function Count(m: map<string, nat>, key: string): nat { if key in m then m[key] else 0 }

  function Bump(m: map<string, nat>, key: string): map<string, nat> { m[key := Count(m, key) + 1] }

  function Took(end: End): bool { end == Whole || end == Cut(true) }

  function Next(s: Lane, move: Move): Lane {
    match move
    case Relabel(labels) => s.(labels := labels)
    case Look(key) =>
      if s.stage.Resting? then s.(stage := Seen(key, BLOCKED in s.labels)) else s
    case Decide =>
      if !s.stage.Seen? then s
      else
        var key := s.stage.key;
        if key in s.ledger then s.(stage := Resting)
        else if s.stage.blocked then
          s.(stage := Resting, ledger := if key in s.notes then s.ledger + {key} else s.ledger)
        else s.(stage := if key in s.notes then Labelling(key) else Posting(key))
    case Post(end) =>
      if !s.stage.Posting? then s
      else
        var key := s.stage.key;
        s.(posted := if Took(end) then Bump(s.posted, key) else s.posted,
           lapses := if end == Cut(true) then Bump(s.lapses, key) else s.lapses,
           stage := if end == Whole then Noting(key) else Resting)
    case Note(end) =>
      if !s.stage.Noting? then s
      else
        var key := s.stage.key;
        s.(notes := if Took(end) then s.notes + {key} else s.notes,
           lapses := if end == Cut(false) then Bump(s.lapses, key) else s.lapses,
           stage := if end == Whole then Labelling(key) else Resting)
    case Label(end) =>
      if !s.stage.Labelling? then s
      else
        var key := s.stage.key;
        s.(labels := if Took(end) then s.labels + {BLOCKED, NEEDS_HUMAN} else s.labels,
           labelled := if Took(end) then Bump(s.labelled, key) else s.labelled,
           stage := if end == Whole then Closing(key) else Resting)
    case Close(end) =>
      if !s.stage.Closing? then s
      else
        var key := s.stage.key;
        s.(ledger := if Took(end) then s.ledger + {key} else s.ledger, stage := Resting)
  }

  function Run(s: Lane, moves: seq<Move>): Lane {
    if moves == [] then s else Next(Run(s, moves[..|moves| - 1]), moves[|moves| - 1])
  }

  predicate Fresh(s: Lane) {
    s.stage.Resting? && s.ledger == {} && s.notes == {} && s.posted == map[] && s.labelled == map[] && s.lapses == map[]
  }

  predicate Tallied(s: Lane, key: string) {
    && Count(s.posted, key) == Count(s.lapses, key) + (if key in s.notes || s.stage == Noting(key) then 1 else 0)
    && (Count(s.labelled, key) > 0 ==> key in s.notes)
    && (key in s.ledger ==> key in s.notes)
  }

  predicate InOrder(s: Lane) {
    && (s.stage.Posting? || s.stage.Noting? ==> s.stage.key !in s.notes)
    && (s.stage.Labelling? || s.stage.Closing? ==> s.stage.key in s.notes)
    && (!s.stage.Resting? && !s.stage.Seen? ==> s.stage.key !in s.ledger)
  }

  ghost predicate Inv(s: Lane) { InOrder(s) && forall key :: Tallied(s, key) }

  lemma {:induction false} MoveKeepsTally(s: Lane, move: Move, key: string)
    requires InOrder(s) && Tallied(s, key)
    ensures Tallied(Next(s, move), key)
  {
  }

  lemma {:induction false} MoveKeepsOrder(s: Lane, move: Move)
    requires Inv(s)
    ensures InOrder(Next(s, move))
  {
    if s.stage.Noting? || s.stage.Posting? {
      assert Tallied(s, s.stage.key);
    }
  }

  lemma {:induction false} RunKeepsInv(s: Lane, moves: seq<Move>)
    requires Fresh(s)
    ensures Inv(Run(s, moves))
  {
    if moves != [] {
      var front, move := moves[..|moves| - 1], moves[|moves| - 1];
      RunKeepsInv(s, front);
      MoveKeepsOrder(Run(s, front), move);
      forall key ensures Tallied(Run(s, moves), key) {
        assert Tallied(Run(s, front), key);
        MoveKeepsTally(Run(s, front), move, key);
      }
    }
  }

  /**
   Forensics first: whenever the janitor's labels reach GitHub for a pair, that
   pair's comment is posted and its record is in the ledger.
   */
  lemma {:induction false} CommentBeforeBlock(s: Lane, moves: seq<Move>, move: Move, key: string)
    requires Fresh(s)
    requires Count(Next(Run(s, moves), move).labelled, key) > Count(Run(s, moves).labelled, key)
    ensures key in Run(s, moves).notes && Count(Run(s, moves).posted, key) >= 1
  {
    RunKeepsInv(s, moves);
    assert Tallied(Run(s, moves), key);
  }

  /** Comments beyond the first are exactly the interruptions between a post and its record. */
  lemma {:induction false} ExtraCommentsAreLapses(s: Lane, moves: seq<Move>, key: string)
    requires Fresh(s)
    ensures Count(Run(s, moves).posted, key) <= Count(Run(s, moves).lapses, key) + 1
    ensures key in Run(s, moves).notes ==> Count(Run(s, moves).posted, key) == Count(Run(s, moves).lapses, key) + 1
  {
    RunKeepsInv(s, moves);
    assert Tallied(Run(s, moves), key);
  }

  lemma {:induction false} MoveRespectsLedger(s: Lane, move: Move, key: string)
    requires InOrder(s) && key in s.ledger
    ensures key in Next(s, move).ledger
    ensures Count(Next(s, move).posted, key) == Count(s.posted, key)
    ensures Count(Next(s, move).labelled, key) == Count(s.labelled, key)
  {
  }

  /** Once a pair's key is in the ledger nothing is written to GitHub for it again, even after a human unblock. */
  lemma {:induction false} LedgerIsFinal(s: Lane, moves: seq<Move>, more: seq<Move>, key: string)
    requires Fresh(s)
    requires key in Run(s, moves).ledger
    ensures
      var before, after := Run(s, moves), Run(Run(s, moves), more);
      && key in after.ledger
      && Count(after.posted, key) == Count(before.posted, key)
      && Count(after.labelled, key) == Count(before.labelled, key)
  {
    if more != [] {
      var front := more[..|more| - 1];
      LedgerIsFinal(s, moves, front, key);
      RunsCompose(s, moves, front);
      RunKeepsInv(s, moves + front);
      MoveRespectsLedger(Run(s, moves + front), more[|more| - 1], key);
    }
  }

  lemma {:induction false} RunsCompose(s: Lane, moves: seq<Move>, more: seq<Move>)
    ensures Run(Run(s, moves), more) == Run(s, moves + more)
  {
    if more == [] {
      assert moves + more == moves;
    } else {
      RunsCompose(s, moves, more[..|more| - 1]);
      assert (moves + more)[..|moves + more| - 1] == moves + more[..|more| - 1];
    }
  }

  /** A lost final record is healed, without a write, by any pass that still sees the label. */
  lemma {:induction false} LostRecordIsHealed(s: Lane, key: string)
    requires s.stage.Resting? && BLOCKED in s.labels && key in s.notes
    ensures
      var t := Next(Next(s, Look(key)), Decide);
      && t == s.(ledger := s.ledger + {key})
      && key in t.ledger && t.posted == s.posted && t.labelled == s.labelled && t.labels == s.labels
  {
    assert key in s.ledger ==> s.ledger + {key} == s.ledger;
  }

  /** An uninterrupted pass over an unblocked drift blocks it and closes it; a second pass changes nothing. */
  lemma {:induction false} PassCompletes(s: Lane, key: string)
    requires s.stage.Resting? && BLOCKED !in s.labels && key !in s.ledger && key !in s.notes
    ensures
      var t := Run(s, [Look(key), Decide, Post(Whole), Note(Whole), Label(Whole), Close(Whole)]);
      && {BLOCKED, NEEDS_HUMAN} <= t.labels && key in t.ledger && key in t.notes && t.stage.Resting?
      && Count(t.posted, key) == Count(s.posted, key) + 1
      && Next(Next(t, Look(key)), Decide) == t
  {
    var moves := [Look(key), Decide, Post(Whole), Note(Whole), Label(Whole), Close(Whole)];
    assert moves[..5][..4] == moves[..4] && moves[..4][..3] == moves[..3] && moves[..3][..2] == moves[..2];
    assert moves[..2][..1] == moves[..1] && moves[..1][..0] == [];
    var s2 := Next(Next(s, Look(key)), Decide);
    assert Run(s, moves[..2]) == s2 by { assert Run(s, moves[..1]) == Next(s, Look(key)); }
    var s4 := Next(Next(s2, Post(Whole)), Note(Whole));
    assert Run(s, moves[..4]) == s4 by { assert Run(s, moves[..3]) == Next(s2, Post(Whole)); }
    assert Run(s, moves[..5]) == Next(s4, Label(Whole));
  }

  // ---- the keys ----

  predicate HexTip(tip: string) {
    |tip| >= 12 && forall i :: 0 <= i < |tip| ==> tip[i] in "0123456789abcdef"
  }

  lemma {:induction false} KeySplits(recorded: string, tip: string, key: string)
    requires HexTip(tip) && key == DriftKey(recorded, tip)
    ensures |key| >= KEY_CHARS + 12
    ensures key[|key| - KEY_CHARS..] == Short(tip)
    ensures key[11..|key| - KEY_CHARS - 1] == Short(recorded)
  {
    var head := "base-drift-" + Short(recorded) + "-";
    assert key == head + Short(tip);
    assert head[11..|head| - 1] == Short(recorded);
    assert key[11..|key| - KEY_CHARS - 1] == head[11..|head| - 1];
  }

  /** Two drifts share a key exactly when both sides agree on their first twelve characters. */
  lemma {:induction false} SameKeySamePrefixes(r1: string, t1: string, r2: string, t2: string)
    requires HexTip(t1) && HexTip(t2)
    ensures DriftKey(r1, t1) == DriftKey(r2, t2)
       <==> (if |r1| <= 12 then r1 else r1[..12]) == (if |r2| <= 12 then r2 else r2[..12]) && t1[..12] == t2[..12]
  {
    TwelveKept(r1);
    TwelveKept(r2);
    TwelveKept(t1);
    TwelveKept(t2);
    hide Short, DriftKey;
    KeySplits(r1, t1, DriftKey(r1, t1));
    KeySplits(r2, t2, DriftKey(r2, t2));
    if Short(r1) == Short(r2) && Short(t1) == Short(t2) {
      ShortsMakeTheKey(r1, t1, r2, t2);
    }
  }

  lemma {:induction false} TwelveKept(sha: string)
    ensures Short(sha) == if |sha| <= 12 then sha else sha[..12]
    ensures |sha| >= 12 ==> Short(sha) == sha[..12]
  {
    assert |sha| == 12 ==> sha[..12] == sha;
  }

  lemma {:induction false} ShortsMakeTheKey(r1: string, t1: string, r2: string, t2: string)
    requires Short(r1) == Short(r2) && Short(t1) == Short(t2)
    ensures DriftKey(r1, t1) == DriftKey(r2, t2)
  {
  }

  /** No pair's key is some pair's comment sub-key. */
  lemma {:induction false} KeysAreNotNotes(r1: string, t1: string, r2: string, t2: string)
    requires HexTip(t1)
    ensures DriftKey(r1, t1) != CommentKey(r2, t2)
  {
    var k, c := DriftKey(r1, t1), CommentKey(r2, t2);
    KeySplits(r1, t1, k);
    assert k[|k| - KEY_CHARS..][KEY_CHARS - 8] == t1[KEY_CHARS - 8];
    assert c[|c| - 8] == "-comment"[0] == '-';
    assert '-' !in "0123456789abcdef";
  }

  /** A tip that moves on to one with the same first twelve characters is taken for the drift already handled. */
  lemma {:induction false} PrefixCollisionIsSilent(s: Lane, recorded: string, t1: string, t2: string)
    requires HexTip(t1) && HexTip(t2) && t1[..12] == t2[..12]
    requires s.stage.Resting? && DriftKey(recorded, t1) in s.ledger
    ensures Next(Next(s, Look(DriftKey(recorded, t2))), Decide) == s
  {
    SameKeySamePrefixes(recorded, t1, recorded, t2);
  }
}
