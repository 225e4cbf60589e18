/** One base-drift check, call by call; every pass is a run of the BaseDrift machine. */
module DriftJanitor {
  import opened Prelude
  import opened BaseDrift

  datatype Zone = Zone(issue: int, sha: string)

  datatype BlockerPr = BlockerPr(open: bool, merged: bool, blocked: bool)

  /** Why the blocker is a human's call now; `''` when it is not. */
  function Rejected(blocker: Option<BlockerPr>): string {
    if blocker.None? then ""
    else if !blocker.value.open && !blocker.value.merged then "closed unmerged"
    else if blocker.value.open && blocker.value.blocked then "blocked"
    else ""
  }

  /** The exact trigger: a zone, an open unblocked blocker PR, and a tip off the recorded SHA. */
  predicate Drifting(zone: Option<Zone>, blocker: Option<BlockerPr>, tip: Option<string>) {
    && zone.Some? && blocker.Some? && blocker.value.open && !blocker.value.blocked
    && tip.Some? && tip.value != zone.value.sha
  }

  /** The pass escalates: this drift is neither recorded nor already shown as blocked. */
  predicate Escalating(labels: set<string>, ledger: set<string>, key: string) { key !in ledger && "blocked" !in labels }

  /** The comment is recorded when the labels are due: from before, or by this pass. */
  predicate Forensic(notes: set<string>, key: string, posting: End, noting: End) {
    key in notes || (posting == Whole && noting == Whole)
  }

  lemma {:induction false} RunGrows(s: Lane, moves: seq<Move>, move: Move)
    ensures Run(s, moves + [move]) == Next(Run(s, moves), move)
  {
    assert (moves + [move])[..|moves|] == moves;
  }

  class DriftJanitor {
    var labels: set<string>
    var ledger: set<string>
    var notes: set<string>
    var chained: Option<string>
    ghost var lane: Lane

    ghost predicate Valid()
      reads this
    {
      lane.labels == labels && lane.ledger == ledger && lane.notes == notes
    }

    ghost method Take(move: Move, s: Lane, moves: seq<Move>) returns (more: seq<Move>)
      requires lane == Run(s, moves)
      modifies this`lane
      ensures more == moves + [move] && lane == Next(old(lane), move) == Run(s, more)
    {
      RunGrows(s, moves, move);
      lane := Next(lane, move);
      more := moves + [move];
    }

    /**
     The ends are GitHub's and the process's to choose; what each call leaves
     is stated call by call. `acted`: the drift was escalated, whole, in this pass.
     */
    method DriftOne(zone: Option<Zone>, blocker: Option<BlockerPr>, tip: Option<string>,
                    posting: End, noting: End, labelling: End, closing: End)
      returns (acted: bool, ghost moves: seq<Move>)
      requires Valid() && lane.stage.Resting?
      modifies this
      ensures Valid() && lane.stage.Resting?
      ensures lane == Run(old(lane), moves)
      ensures chained == if zone.None? || blocker.None? then None
                         else if !blocker.value.open && !blocker.value.merged then Some("closed unmerged")
                         else if blocker.value.open && blocker.value.blocked then Some("blocked")
                         else None
      ensures !Drifting(zone, blocker, tip) ==> moves == [] && !acted && lane == old(lane)
      ensures Drifting(zone, blocker, tip) ==>
        var key := DriftKey(zone.value.sha, tip.value);
        var due, forensic := Escalating(old(labels), old(ledger), key), Forensic(old(notes), key, posting, noting);
        && (acted <==> due && forensic && labelling == Whole && closing == Whole)
        && labels == (if due && forensic && Took(labelling) then old(labels) + {"blocked", "needs_human"} else old(labels))
        && notes == (if due && key !in old(notes) && posting == Whole && Took(noting) then old(notes) + {key} else old(notes))
        && ledger == (if due then if forensic && labelling == Whole && Took(closing) then old(ledger) + {key} else old(ledger)
                      else if key in old(notes) then old(ledger) + {key} else old(ledger))
        && lane.posted == (if due && key !in old(notes) && Took(posting) then Bump(old(lane).posted, key) else old(lane).posted)
        && lane.labelled == (if due && forensic && Took(labelling) then Bump(old(lane).labelled, key) else old(lane).labelled)
    {
      ghost var start := lane;
      acted, moves := false, [];
      assert lane == Run(start, moves);
      hide Run, DriftKey, Bump;
      if zone.None? {
        chained := None;
        return;
      }
      if Rejected(blocker) != "" {
        chained := Some(Rejected(blocker));
        return;
      }
      chained := None;
      if blocker.None? || !blocker.value.open || tip.None? || tip.value == zone.value.sha {
        return;
      }
      var key := DriftKey(zone.value.sha, tip.value);
      var blocked := BLOCKED in labels;
      moves := Take(Look(key), start, moves);
      moves := Take(Decide, start, moves);
      if key in ledger {
        return;
      }
      if blocked {
        if key in notes {
          ledger := ledger + {key};
        }
        return;
      }
      acted, moves := Escalate(key, posting, noting, labelling, closing, start, moves);
    }

    /** Comment, its record, labels, final record, in that order. */
    method Escalate(key: string, posting: End, noting: End, labelling: End, closing: End, ghost start: Lane, ghost before: seq<Move>)
      returns (acted: bool, ghost moves: seq<Move>)
      requires Valid() && lane == Run(start, before)
      requires lane.stage == if key in notes then Labelling(key) else Posting(key)
      modifies this`labels, this`ledger, this`notes, this`lane
      ensures Valid() && lane.stage.Resting? && lane == Run(start, moves)
      ensures
        var forensic := Forensic(old(notes), key, posting, noting);
        && (acted <==> forensic && labelling == Whole && closing == Whole)
        && labels == (if forensic && Took(labelling) then old(labels) + {"blocked", "needs_human"} else old(labels))
        && notes == (if key !in old(notes) && posting == Whole && Took(noting) then old(notes) + {key} else old(notes))
        && ledger == (if forensic && labelling == Whole && Took(closing) then old(ledger) + {key} else old(ledger))
        && lane.posted == (if key !in old(notes) && Took(posting) then Bump(old(lane).posted, key) else old(lane).posted)
        && lane.labelled == (if forensic && Took(labelling) then Bump(old(lane).labelled, key) else old(lane).labelled)
    {
      hide Run, Bump;
      acted, moves := false, before;
      if key !in notes {
        moves := Take(Post(posting), start, moves);
        if posting != Whole {
          return;
        }
        if Took(noting) {
          notes := notes + {key};
        }
        moves := Take(Note(noting), start, moves);
        if noting != Whole {
          return;
        }
      }
      acted, moves := BlockAndClose(key, labelling, closing, start, moves);
    }

    method BlockAndClose(key: string, labelling: End, closing: End, ghost start: Lane, ghost before: seq<Move>)
      returns (acted: bool, ghost moves: seq<Move>)
      requires Valid() && lane == Run(start, before) && lane.stage == Labelling(key)
      modifies this`labels, this`ledger, this`lane
      ensures Valid() && lane.stage.Resting? && lane == Run(start, moves)
      ensures
        && (acted <==> labelling == Whole && closing == Whole)
        && labels == (if Took(labelling) then old(labels) + {"blocked", "needs_human"} else old(labels))
        && ledger == (if labelling == Whole && Took(closing) then old(ledger) + {key} else old(ledger))
        && lane.posted == old(lane).posted
        && lane.labelled == (if Took(labelling) then Bump(old(lane).labelled, key) else old(lane).labelled)
    {
      hide Run, Bump;
      acted, moves := false, before;
      if Took(labelling) {
        labels := labels + {BLOCKED, NEEDS_HUMAN};
      }
      moves := Take(Label(labelling), start, moves);
      if labelling != Whole {
        return;
      }
      if Took(closing) {
        ledger := ledger + {key};
      }
      moves := Take(Close(closing), start, moves);
      acted := closing == Whole;
    }
  }
}
