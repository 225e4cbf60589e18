/** One zombie sweep of one claim, call by call; every sweep is a run of the Zombie machine. */
module ZombieJanitor {
  import opened Prelude
  import opened Zombie

  lemma {:induction false} RunGrows(s: Claim, moves: seq<Move>, move: Move)
    ensures Run(s, moves + [move]) == Next(Run(s, moves), move)
  {
    assert (moves + [move])[..|moves|] == moves;
  }

  predicate WholeFrom(ends: nat -> End, a: nat, b: nat) { forall n :: a <= n < b ==> ends(n) == Whole }

  /** How many of `count` removals from call `n` on take effect: they stop at the first that is cut. */
  function Stripped(ends: nat -> End, n: nat, count: nat): nat
    decreases count
  {
    if count == 0 then 0
    else if ends(n) == Whole then 1 + Stripped(ends, n + 1, count - 1)
    else if Took(ends(n)) then 1 else 0
  }

  /** The evidence has landed for a silent claim still marked on GitHub and not in review, and every read said so. */
  predicate Due(marked: bool, prReady: bool, landed: bool, ends: nat -> End) {
    marked && WholeFrom(ends, 0, 3) && !prReady && landed
  }

  /** The claim needs no escalation: already released, or its PR in review; `ends(n)` is how recording that ends. */
  predicate ExcusedBy(marked: bool, prReady: bool, ends: nat -> End, n: nat) {
    if marked then n == 2 && WholeFrom(ends, 0, 2) && prReady else n == 1 && ends(0) == Whole
  }

  class ZombieJanitor {
    var assignees: set<string>
    var labels: set<string>
    var acted: bool
    var flagged: bool
    ghost var claim: Claim

    ghost predicate Valid()
      reads this
    {
      && claim.assignees == assignees && claim.labels == labels && claim.acted == acted && claim.flagged == flagged
      && Inv(claim)
    }

    ghost method Take(move: Move, start: Claim, moves: seq<Move>) returns (more: seq<Move>)
      requires claim == Run(start, moves) && Inv(claim)
      modifies this`claim
      ensures more == moves + [move] && claim == Next(old(claim), move) == Run(start, more) && Inv(claim)
    {
      RunGrows(start, moves, move);
      MoveKeepsInv(claim, move);
      claim := Next(claim, move);
      more := moves + [move];
    }

    /**
     `ends` says how each successive call of this sweep ends: issue, PR, evidence,
     labels, comment, one removal per assignee, in_progress, record. What the
     sweep leaves is stated call by call.
     */
    method SweepOne(silent: bool, prReady: bool, landed: bool, ends: nat -> End)
      returns (escalated: bool, ghost moves: seq<Move>)
      requires Valid() && claim.stage.Resting? && claim.landed == landed
      modifies this
      ensures Valid() && claim.stage.Resting? && claim == Run(old(claim), moves)
      ensures old(acted) || !silent ==>
        && !escalated && assignees == old(assignees) && labels == old(labels) && acted == old(acted)
        && (flagged <==> old(acted) && old(flagged)) && claim.writes == old(claim).writes
      ensures !old(acted) && silent ==>
        var n, marked := |old(assignees)|, old(assignees) != {} || "in_progress" in old(labels);
        Swept(n, marked, prReady, landed, ends, escalated, old(labels), old(assignees))
        && acted == (Recorded(n, marked, prReady, landed, ends))
        && flagged == !Settled(n, marked, prReady, landed, ends)
        && (!Due(marked, prReady, landed, ends) ==> claim.writes == old(claim).writes)
    {
      ghost var start := claim;
      escalated, moves := false, [];
      assert claim == Run(start, moves);
      hide Run, Inv;
      if acted {
        return;
      }
      flagged := silent;
      moves := Take(Look(silent), start, moves);
      if !silent {
        return;
      }
      escalated, moves := Inspect(prReady, landed, ends, start, moves);
    }

    /** GitHub after the sweep of a silent claim that had `n` assignees. */
    ghost predicate Swept(n: nat, marked: bool, prReady: bool, landed: bool, ends: nat -> End, escalated: bool,
                          labels0: set<string>, assignees0: set<string>)
      reads this`labels, this`assignees
    {
      var due := Due(marked, prReady, landed, ends);
      && (escalated <==> due && WholeFrom(ends, 3, n + 7))
      && labels == labels0 + (if due && Took(ends(3)) then {"failed", "needs_human"} else {})
                           - (if due && WholeFrom(ends, 3, n + 5) && Took(ends(n + 5)) then {"in_progress"} else {})
      && assignees <= assignees0
      && |assignees| + (if due && WholeFrom(ends, 3, 5) then Stripped(ends, 5, n) else 0) == n
    }

    /** The ledger write takes effect. */
    static ghost predicate Recorded(n: nat, marked: bool, prReady: bool, landed: bool, ends: nat -> End) {
      || (exists m :: ExcusedBy(marked, prReady, ends, m) && Took(ends(m)))
      || (Due(marked, prReady, landed, ends) && WholeFrom(ends, 3, n + 6) && Took(ends(n + 6)))
    }

    /** The ledger write returns, and the flag goes with it. */
    static ghost predicate Settled(n: nat, marked: bool, prReady: bool, landed: bool, ends: nat -> End) {
      || (exists m :: ExcusedBy(marked, prReady, ends, m) && ends(m) == Whole)
      || (Due(marked, prReady, landed, ends) && WholeFrom(ends, 3, n + 7))
    }

    /** A silent claim: is it still marked, and if so is it excused or escalated? */
    method Inspect(prReady: bool, landed: bool, ends: nat -> End, ghost start: Claim, ghost before: seq<Move>)
      returns (escalated: bool, ghost moves: seq<Move>)
      requires Valid() && claim == Run(start, before) && claim.stage == Fetching && claim.landed == landed && flagged && !acted
      modifies this
      ensures Valid() && claim.stage.Resting? && claim == Run(start, moves)
      ensures
        var n, marked := |old(assignees)|, old(assignees) != {} || "in_progress" in old(labels);
        Swept(n, marked, prReady, landed, ends, escalated, old(labels), old(assignees))
        && acted == (Recorded(n, marked, prReady, landed, ends))
        && flagged == !Settled(n, marked, prReady, landed, ends)
        && (!Due(marked, prReady, landed, ends) ==> claim.writes == old(claim).writes)
    {
      hide Run, Inv, Stripped;
      escalated := false;
      moves := Take(Fetch(ends(0)), start, before);
      if ends(0) != Whole {
        return;
      }
      var logins := assignees;
      if IN_PROGRESS !in labels && logins == {} {
        moves := Record(Excuse(ends(1)), ends(1), start, moves);
        assert ExcusedBy(false, prReady, ends, 1);
        return;
      }
      escalated, moves := Examine(logins, prReady, landed, ends, start, moves);
    }

    /** A ready PR excuses the claim; otherwise it is escalated once the evidence has landed. */
    method Examine(logins: set<string>, prReady: bool, landed: bool, ends: nat -> End, ghost start: Claim, ghost before: seq<Move>)
      returns (escalated: bool, ghost moves: seq<Move>)
      requires Valid() && claim == Run(start, before) && claim.stage == CheckingPr(logins) && claim.landed == landed
      requires logins == assignees && ends(0) == Whole && flagged && !acted
      modifies this
      ensures Valid() && claim.stage.Resting? && claim == Run(start, moves)
      ensures
        var n := |logins|;
        Swept(n, true, prReady, landed, ends, escalated, old(labels), logins)
        && acted == (Recorded(n, true, prReady, landed, ends))
        && flagged == !Settled(n, true, prReady, landed, ends)
        && (!Due(true, prReady, landed, ends) ==> claim.writes == old(claim).writes)
    {
      hide Run, Inv, Stripped, Took, Undressing;
      escalated := false;
      moves := Take(CheckPr(prReady, ends(1)), start, before);
      if ends(1) != Whole {
        return;
      }
      if prReady {
        moves := Record(Excuse(ends(2)), ends(2), start, moves);
        assert ExcusedBy(true, prReady, ends, 2);
        return;
      }
      moves := Take(CheckEvidence(ends(2)), start, moves);
      if ends(2) != Whole || !landed {
        return;
      }
      escalated, moves := Escalate(logins, ends, start, moves);
    }

    /** Labels and comment first, then the claim is stripped, then the ledger. */
    method Escalate(logins: set<string>, ends: nat -> End, ghost start: Claim, ghost before: seq<Move>)
      returns (escalated: bool, ghost moves: seq<Move>)
      requires Valid() && claim == Run(start, before) && claim.stage == Labelling(logins)
      requires logins == assignees && flagged && !acted
      modifies this
      ensures Valid() && claim.stage.Resting? && claim == Run(start, moves)
      ensures
        var n := |logins|;
        && (escalated <==> WholeFrom(ends, 3, n + 7))
        && labels == old(labels) + (if Took(ends(3)) then {"failed", "needs_human"} else {})
                                 - (if WholeFrom(ends, 3, n + 5) && Took(ends(n + 5)) then {"in_progress"} else {})
        && assignees <= logins && |assignees| + (if WholeFrom(ends, 3, 5) then Stripped(ends, 5, n) else 0) == n
        && (acted <==> WholeFrom(ends, 3, n + 6) && Took(ends(n + 6)))
        && (flagged <==> !escalated)
    {
      hide Run, Stripped;
      escalated, moves := false, before;
      if Took(ends(3)) {
        labels := labels + {FAILED, NEEDS_HUMAN};
      }
      moves := Take(Label(ends(3)), start, moves);
      if ends(3) != Whole {
        return;
      }
      moves := Take(Comment(ends(4)), start, moves);
      if ends(4) != Whole {
        return;
      }
      escalated, moves := Release(logins, ends, start, moves);
    }

    method Release(logins: set<string>, ends: nat -> End, ghost start: Claim, ghost before: seq<Move>)
      returns (escalated: bool, ghost moves: seq<Move>)
      requires Valid() && claim == Run(start, before) && claim.stage == Undressing(logins)
      requires logins == assignees && flagged && !acted
      modifies this
      ensures Valid() && claim.stage.Resting? && claim == Run(start, moves)
      ensures
        var n := |logins|;
        && (escalated <==> WholeFrom(ends, 5, n + 7))
        && labels == old(labels) - (if WholeFrom(ends, 5, n + 5) && Took(ends(n + 5)) then {"in_progress"} else {})
        && assignees <= logins && |assignees| + Stripped(ends, 5, n) == n
        && (acted <==> WholeFrom(ends, 5, n + 6) && Took(ends(n + 6)))
        && (flagged <==> !escalated)
    {
      hide Run, Inv, Stripped;
      escalated := false;
      var n, all := 5 + |logins|, false;
      all, moves := StripAll(logins, ends, start, before);
      if !all {
        return;
      }
      if Took(ends(n)) {
        labels := labels - {IN_PROGRESS};
      }
      moves := Take(Unlabel(ends(n)), start, moves);
      if ends(n) != Whole {
        return;
      }
      moves := Record(Close(ends(n + 1)), ends(n + 1), start, moves);
      escalated := ends(n + 1) == Whole;
    }

    /** One removal per assignee, until one is cut. */
    method StripAll(logins: set<string>, ends: nat -> End, ghost start: Claim, ghost before: seq<Move>)
      returns (all: bool, ghost moves: seq<Move>)
      requires Valid() && claim == Run(start, before) && claim.stage == Undressing(logins) && logins == assignees
      modifies this`assignees, this`claim
      ensures Valid() && claim == Run(start, moves) && claim.stage == if all then Unlabelling else Resting
      ensures all <==> WholeFrom(ends, 5, 5 + |logins|)
      ensures assignees <= logins && |assignees| + Stripped(ends, 5, |logins|) == |logins|
    {
      hide Run, Inv;
      all, moves := true, before;
      var todo, n := logins, 5;
      while todo != {}
        invariant Valid() && claim == Run(start, moves) && claim.stage == Undressing(todo)
        invariant assignees == todo <= logins && n + |todo| == 5 + |logins|
        invariant WholeFrom(ends, 5, n) && Stripped(ends, 5, |logins|) == n - 5 + Stripped(ends, n, |todo|)
        decreases |todo|
      {
        var login :| login in todo;
        moves := StripOne(login, ends(n), start, moves);
        if ends(n) != Whole {
          return false, moves;
        }
        todo, n := todo - {login}, n + 1;
      }
    }

    method StripOne(login: string, end: End, ghost start: Claim, ghost before: seq<Move>) returns (ghost moves: seq<Move>)
      requires Valid() && claim == Run(start, before) && claim.stage.Stripping? && login in claim.stage.assignees
      modifies this`assignees, this`claim
      ensures Valid() && claim == Next(old(claim), Strip(login, end)) == Run(start, moves)
    {
      if Took(end) {
        assignees := assignees - {login};
      }
      moves := Take(Strip(login, end), start, before);
    }

    /** The ledger write and the flag it clears. */
    method Record(move: Move, end: End, ghost start: Claim, ghost before: seq<Move>) returns (ghost moves: seq<Move>)
      requires Valid() && claim == Run(start, before)
      requires (move == Excuse(end) && claim.stage.Excusing?) || (move == Close(end) && claim.stage.Closing?)
      modifies this`acted, this`flagged, this`claim
      ensures Valid() && claim == Next(old(claim), move) == Run(start, moves)
    {
      moves := Take(move, start, before);
      acted := acted || Took(end);
      flagged := flagged && end != Whole;
    }
  }
}
