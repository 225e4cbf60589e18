/**
 The granting pass and the janitor's release, call by call, over one store and
 one GitHub; every pass is a run of the Claims machine.
 */
module ClaimStore {
  import opened Prelude
  import opened Events
  import opened Claims

  /** What the dependency gate says of a candidate; reading the graph may itself fail. */
  datatype Gate = Clear | Malformed | Blocked | Unreadable

  lemma {:induction false} RunGrows(s: Sys, moves: seq<Move>, move: Move)
    ensures Run(s, moves + [move]) == Next(Run(s, moves), move)
  {
    assert (moves + [move])[..|moves|] == moves;
  }

  /** The issue once the first `written` of the three writes have landed. */
  function Written(was: Issue, login: string, written: nat): Issue {
    if written == 0 then was else GrantWrite(Written(was, login, written - 1), login, written - 1)
  }

  /** What a pass needs of an issue before it asks the dependency gate. */
  ghost predicate Grantable(s: Sys, k: Key) {
    var i := IssueAt(s, k);
    && "plan_ready" in i.labels && "failed" !in i.labels && "in_progress" !in i.labels && i.assignees == {}
    && k !in s.grants && !LiveAt(s, k)
  }

  ghost predicate PassedOver(s: Sys, k: Key, gate: int -> Gate) {
    !Grantable(s, k) || gate(k.issue).Malformed? || gate(k.issue).Blocked?
  }

  /** How a pass ended; a failed write leaves the row behind for the janitor. */
  datatype Outcome = Granted(number: int) | NothingToGrant | ReadFailed | WriteFailed(number: int)

  function GrantedBy(outcome: Outcome): Option<int> {
    if outcome.Granted? || outcome.WriteFailed? then Some(outcome.number) else None
  }

  /** The walk ends at the `n`-th candidate: the first that the gate has to decide and does not turn away. */
  ghost predicate StopsAt(s: Sys, repo: string, open: seq<int>, gate: int -> Gate, n: nat) {
    && n < |open| && Grantable(s, Key(repo, open[n])) && (gate(open[n]).Clear? || gate(open[n]).Unreadable?)
    && forall m :: 0 <= m < n ==> PassedOver(s, Key(repo, open[m]), gate)
  }

  ghost predicate WalksTo(s: Sys, repo: string, open: seq<int>, gate: int -> Gate, n: nat) {
    StopsAt(s, repo, open, gate, n) || (n == |open| && forall m :: 0 <= m < n ==> PassedOver(s, Key(repo, open[m]), gate))
  }

  lemma {:induction false} WalkEndsOnce(s: Sys, repo: string, open: seq<int>, gate: int -> Gate, m: nat, n: nat)
    requires WalksTo(s, repo, open, gate, m) && WalksTo(s, repo, open, gate, n)
    ensures m == n
  {
    hide Grantable;
    assert m < n ==> PassedOver(s, Key(repo, open[m]), gate);
    assert n < m ==> PassedOver(s, Key(repo, open[n]), gate);
  }

  /** Where the walk ends decides every question of the form "is there a first candidate such that". */
  lemma {:induction false} WalkDecides(s: Sys, repo: string, open: seq<int>, gate: int -> Gate, stop: nat)
    requires WalksTo(s, repo, open, gate, stop)
    ensures forall n: nat :: WalksTo(s, repo, open, gate, n) <==> n == stop
    ensures forall n: nat :: StopsAt(s, repo, open, gate, n) <==> n == stop && stop < |open|
    ensures (forall n :: n in open ==> PassedOver(s, Key(repo, n), gate)) <==> stop == |open|
  {
    forall n: nat ensures (WalksTo(s, repo, open, gate, n) <==> n == stop)
                       && (StopsAt(s, repo, open, gate, n) <==> n == stop && stop < |open|) {
      if WalksTo(s, repo, open, gate, n) {
        WalkEndsOnce(s, repo, open, gate, n, stop);
      }
    }
    hide Grantable;
    if stop < |open| {
      assert !PassedOver(s, Key(repo, open[stop]), gate);
    }
  }

  /** A candidate the walk meets is malformed: by its own label, or by the graph once nothing else rules it out. */
  ghost predicate Flags(s: Sys, k: Key, gate: int -> Gate) {
    "failed" in IssueAt(s, k).labels || (Grantable(s, k) && gate(k.issue).Malformed?)
  }

  ghost predicate Waits(s: Sys, k: Key, gate: int -> Gate) { Grantable(s, k) && gate(k.issue).Blocked? }

  predicate StillPooled(s: Sys, open: seq<int>, k: Key) { k.issue in open && "plan_ready" in IssueAt(s, k).labels }

  /**
   The lanes once the first `n` candidates are walked: rows of issues that left
   the pool go, a candidate that was met enters its lane and leaves the other,
   the granted issue is in neither, and every other row stays.
   */
  ghost predicate Reconciled(s: Sys, repo: string, open: seq<int>, gate: int -> Gate, n: nat, granted: Option<int>,
                             flagged: set<Key>, waiting: set<Key>, nowFlagged: set<Key>, nowWaiting: set<Key>)
    requires n <= |open|
  {
    forall k: Key ::
      if k.repo != repo then (k in nowFlagged <==> k in flagged) && (k in nowWaiting <==> k in waiting)
      else if !StillPooled(s, open, k) || granted == Some(k.issue) then k !in nowFlagged && k !in nowWaiting
      else if k.issue in open[..n] && Flags(s, k, gate) then k in nowFlagged && k !in nowWaiting
      else if k.issue in open[..n] && Waits(s, k, gate) then k !in nowFlagged && k in nowWaiting
      else (k in nowFlagged <==> k in flagged) && (k in nowWaiting <==> k in waiting)
  }

  lemma {:induction false} PruneReconciles(s: Sys, repo: string, open: seq<int>, gate: int -> Gate,
                                           f: set<Key>, w: set<Key>, nf: set<Key>, nw: set<Key>)
    requires forall k :: k in nf <==> k in f && (k.repo == repo ==> StillPooled(s, open, k))
    requires forall k :: k in nw <==> k in w && (k.repo == repo ==> StillPooled(s, open, k))
    ensures Reconciled(s, repo, open, gate, 0, None, f, w, nf, nw)
  {
  }

  lemma {:induction false} NothingReconciled(s: Sys, repo: string, open: seq<int>, gate: int -> Gate, f: set<Key>, w: set<Key>)
    requires forall k :: k in f + w && k.repo == repo ==> StillPooled(s, open, k)
    ensures Reconciled(s, repo, open, gate, 0, None, f, w, f, w)
  {
  }

  lemma {:induction false} ReconcilesOn(s: Sys, repo: string, open: seq<int>, gate: int -> Gate, n: nat, granted: Option<int>,
                                        f: set<Key>, w: set<Key>, mf: set<Key>, mw: set<Key>, nf: set<Key>, nw: set<Key>)
    requires n <= |open| && Reconciled(s, repo, open, gate, 0, None, f, w, mf, mw)
    requires Reconciled(s, repo, open, gate, n, granted, mf, mw, nf, nw)
    ensures Reconciled(s, repo, open, gate, n, granted, f, w, nf, nw)
  {
    hide Flags, Waits, StillPooled;
  }

  /** One more candidate met: it goes where it belongs, and nothing else moves. */
  lemma {:induction false} MeetReconciles(s: Sys, repo: string, open: seq<int>, gate: int -> Gate, n: nat,
                                          f: set<Key>, w: set<Key>, mf: set<Key>, mw: set<Key>, nf: set<Key>, nw: set<Key>)
    requires n < |open| && Reconciled(s, repo, open, gate, n, None, f, w, mf, mw)
    requires
      var k := Key(repo, open[n]);
      if !StillPooled(s, open, k) then nf == mf && nw == mw
      else if Flags(s, k, gate) then nf == mf + {k} && nw == mw - {k}
      else if Waits(s, k, gate) then nf == mf - {k} && nw == mw + {k}
      else nf == mf && nw == mw
    ensures Reconciled(s, repo, open, gate, n + 1, None, f, w, nf, nw)
  {
    hide Flags, Waits, StillPooled;
    assert open[..n + 1] == open[..n] + [open[n]];
  }

  lemma {:induction false} GrantReconciles(s: Sys, repo: string, open: seq<int>, gate: int -> Gate, n: nat,
                                           f: set<Key>, w: set<Key>, mf: set<Key>, mw: set<Key>, nf: set<Key>, nw: set<Key>)
    requires n < |open| && Reconciled(s, repo, open, gate, n, None, f, w, mf, mw)
    requires nf == mf - {Key(repo, open[n])} && nw == mw - {Key(repo, open[n])}
    ensures Reconciled(s, repo, open, gate, n, Some(open[n]), f, w, nf, nw)
  {
    hide Flags, Waits, StillPooled;
  }

  /** The issue after as many of the three writes as were made: each lands unless it raised unapplied, and a raise is the last. */
  predicate Marked(was: Issue, now: Issue, login: string, calls: nat -> Call) {
    && now.assignees == was.assignees + (if calls(0) == Raised(false) then {} else {login})
    && now.labels == was.labels
         + (if calls(0).Done? && calls(1) != Raised(false) then {"in_progress"} else {})
         - (if calls(0).Done? && calls(1).Done? && calls(2) != Raised(false) then {"plan_ready"} else {})
  }

  lemma {:induction false} WritesMark(was: Issue, now: Issue, login: string, calls: nat -> Call, last: nat)
    requires last <= 2 && (forall n :: 0 <= n < last ==> calls(n).Done?) && (last < 2 ==> calls(last).Raised?)
    requires now == Written(was, login, if calls(last) == Raised(false) then last else last + 1)
    ensures Marked(was, now, login, calls)
  {
    assert PLAN_READY != IN_PROGRESS;
    assert Written(was, login, 0) == was;
    assert Written(was, login, 1) == was.(assignees := was.assignees + {login});
    assert Written(was, login, 2) == Written(was, login, 1).(labels := was.labels + {IN_PROGRESS});
    assert Written(was, login, 3) == Written(was, login, 2).(labels := was.labels + {IN_PROGRESS} - {PLAN_READY});
  }

  lemma {:induction false} PoolIsGrantable(s: Sys, t: Sys, repo: string, grant: Grant, listed: set<int>, number: int)
    requires s.pass.Idle?
    requires t == Next(Next(Next(s, BeginPass(repo, grant)), ReadLive), ListIssues(listed))
    requires number in listed
    ensures t == s.(pass := t.pass) && t.pass.Listed? && t.pass.repo == repo && t.pass.grant == grant
    ensures number in t.pass.pool <==> PLAN_READY in IssueAt(s, Key(repo, number)).labels
    ensures number in t.pass.pool ==> t.pass.pool[number] == IssueAt(s, Key(repo, number))
    ensures number in t.pass.granted <==> Key(repo, number) in s.grants
    ensures number in t.pass.live <==> LiveAt(s, Key(repo, number))
    ensures Eligible(t.pass, number) <==> Grantable(s, Key(repo, number))
  {
    var k := Key(repo, number);
    var s1 := Next(s, BeginPass(repo, grant));
    if LiveAt(s, k) {
      LatestIsLogged(s.runs, repo, number);
      assert k in RunKeys(s1.runs) && LiveAt(s1, k);
    }
    assert forall j: Key :: j.repo == repo && j.issue == number ==> j == k;
    assert number in LiveIssues(s1, repo) <==> LiveAt(s, k);
  }

  ghost predicate SameExcept(now: map<Key, Issue>, was: map<Key, Issue>, k: Key) {
    forall j :: j != k ==> (j in now <==> j in was) && (j in was ==> now[j] == was[j])
  }

  lemma {:induction false} RowsAreRecorded(grants: map<Key, Grant>, expired: seq<Key>, repo: string)
    ensures forall d :: d in Rows(grants, expired, repo) ==>
      d.0.repo == repo && d.0 in expired && d.0 in grants && grants[d.0] == d.1
  {
    if expired != [] {
      RowsAreRecorded(grants, expired[1..], repo);
    }
  }

  lemma {:induction false} RecordedAreRows(grants: map<Key, Grant>, expired: seq<Key>, repo: string, k: Key)
    requires k in expired && k in grants && k.repo == repo
    ensures (k, grants[k]) in Rows(grants, expired, repo)
  {
    if k != expired[0] {
      RecordedAreRows(grants, expired[1..], repo, k);
    }
  }

  // ---- the steps the methods take, one equation each ----

  lemma {:induction false} PickStep(s: Sys, number: int)
    requires Eligible(s.pass, number)
    ensures
      var k := Key(s.pass.repo, number);
      Next(s, Pick(number)) == s.(grants := s.grants[k := s.pass.grant], pass := Writing(k, s.pass.grant, 0),
                                  guarded := s.guarded + {k}, fate := s.fate[k := Waiting], regranted := s.regranted + {k})
  {
  }

  lemma {:induction false} WriteStep(s: Sys, call: Call)
    requires s.pass.Writing? && s.pass.written <= 2
    ensures
      var i := GrantWrite(IssueAt(s, s.pass.key), s.pass.grant.login, s.pass.written);
      Next(s, Write(call)) == s.(
        github := Touched(s, s.pass.key, i, call),
        pass := if call.Raised? || s.pass.written == 2 then Idle else s.pass.(written := s.pass.written + 1))
  {
  }

  lemma {:induction false} EndStep(s: Sys)
    ensures Next(s, EndPass) == s.(pass := Idle)
  {
  }

  lemma {:induction false} ReadsStep(s: Sys, repo: string, grant: Grant)
    requires s.pass.Idle?
    ensures
      var t := Next(Next(s, BeginPass(repo, grant)), ReadLive);
      t == s.(pass := t.pass)
  {
  }

  lemma {:induction false} ListStep(s: Sys, repo: string, grant: Grant, listed: set<int>)
    requires s.pass.Idle?
    ensures
      var t := Next(Next(Next(s, BeginPass(repo, grant)), ReadLive), ListIssues(listed));
      t == s.(pass := t.pass)
  {
  }

  lemma {:induction false} SweepStep(s: Sys, repo: string, expired: seq<Key>)
    requires s.janitor.Resting?
    ensures
      var t := Next(Next(s, BeginSweep(repo)), ReadExpired(expired));
      && t == s.(janitor := t.janitor, regranted := {}) && t.janitor.Walking? && t.janitor.due == Rows(s.grants, expired, repo)
      && forall k: Key :: k.repo == repo ==> (k in t.janitor.live <==> LiveAt(s, k))
  {
    forall k: Key | LiveAt(s, k) ensures k in RunKeys(s.runs) {
      LatestIsLogged(s.runs, k.repo, k.issue);
    }
  }

  lemma {:induction false} TakeRowStep(s: Sys)
    requires s.janitor.Walking? && s.janitor.due != []
    ensures
      var live, (k, row), rest := s.janitor.live, s.janitor.due[0], s.janitor.due[1..];
      var t := Next(s, TakeRow);
      && t == s.(grants := s.grants - {k}, janitor := t.janitor, guarded := t.guarded, fate := t.fate)
      && t.janitor == if k in live || k !in s.grants then Walking(live, rest) else Unwinding(live, rest, k, row, Fetching)
  {
    var k := s.janitor.due[0].0;
    if k !in s.grants {
      assert s.grants - {k} == s.grants;
    }
  }

  lemma {:induction false} EndSweepStep(s: Sys)
    requires s.janitor.Walking?
    ensures Next(s, EndSweep) == s.(janitor := Resting)
  {
  }

  lemma {:induction false} FetchStep(s: Sys, call: Call)
    requires s.janitor.Unwinding? && s.janitor.stage.Fetching?
    ensures
      var todo := IssueAt(s, s.janitor.key).assignees;
      Next(s, Undo("", call)) == if call.Raised? then PutBack(s)
                                 else s.(janitor := s.janitor.(stage := if todo == {} then Unlabelling else Unassigning(todo)))
  {
  }

  lemma {:induction false} UnassignStep(s: Sys, login: string, call: Call)
    requires s.janitor.Unwinding? && s.janitor.stage.Unassigning? && login in s.janitor.stage.todo
    ensures
      var i, todo := IssueAt(s, s.janitor.key), s.janitor.stage.todo - {login};
      var t := s.(github := Touched(s, s.janitor.key, i.(assignees := i.assignees - {login}), call));
      Next(s, Undo(login, call)) == if call.Raised? then PutBack(t)
                                    else t.(janitor := t.janitor.(stage := if todo == {} then Unlabelling else Unassigning(todo)))
  {
    assert s.janitor.stage.todo == {login} <==> s.janitor.stage.todo - {login} == {};
  }

  lemma {:induction false} RelabelStep(s: Sys, call: Call)
    requires s.janitor.Unwinding? && (s.janitor.stage.Unlabelling? || s.janitor.stage.Relabelling?)
    ensures
      var i, last := IssueAt(s, s.janitor.key), s.janitor.stage.Relabelling?;
      var labels := if last then i.labels + {PLAN_READY} else i.labels - {IN_PROGRESS};
      var t := s.(github := Touched(s, s.janitor.key, i.(labels := labels), call));
      var u := Next(s, Undo("", call));
      && u == (if call.Raised? then PutBack(t) else t.(janitor := u.janitor, fate := u.fate))
      && (call.Done? ==> u.janitor == if last then Walking(s.janitor.live, s.janitor.due) else s.janitor.(stage := Relabelling))
  {
  }

  ghost predicate NoneRaises(calls: nat -> Call) { forall n :: calls(n).Done? }

  predicate Due(due: seq<(Key, Grant)>, k: Key) { exists d :: d in due && d.0 == k }

  /** Nothing but assignees taken off, in_progress taken off and plan_ready put on. */
  predicate OnlyUnwound(was: Issue, now: Issue) {
    && now.assignees <= was.assignees
    && now.labels - {IN_PROGRESS} + {PLAN_READY} == was.labels - {IN_PROGRESS} + {PLAN_READY}
    && (IN_PROGRESS in now.labels ==> IN_PROGRESS in was.labels) && (PLAN_READY in was.labels ==> PLAN_READY in now.labels)
  }

  // ---- which rows a release gets through ----

  /** The first of `count` calls from `first` on that raises; the one after them if none does. */
  function FirstRaise(calls: nat -> Call, first: nat, count: nat): (n: nat)
    ensures first <= n <= first + count
    ensures n < first + count ==> calls(n).Raised?
    ensures forall m :: first <= m < n ==> calls(m).Done?
    decreases count
  {
    if count == 0 || calls(first).Raised? then first else FirstRaise(calls, first + 1, count - 1)
  }

  lemma {:induction false} RaiseStep(calls: nat -> Call, first: nat, count: nat)
    requires count > 0
    ensures FirstRaise(calls, first, count) == if calls(first).Raised? then first else FirstRaise(calls, first + 1, count - 1)
  {
  }

  lemma {:induction false} RaisesJoin(calls: nat -> Call, first: nat, a: nat, b: nat)
    ensures FirstRaise(calls, first, a + b)
         == var n := FirstRaise(calls, first, a); if n == first + a then FirstRaise(calls, n, b) else n
    decreases a
  {
    if a > 0 && calls(first).Done? {
      RaisesJoin(calls, first + 1, a - 1, b);
    }
  }

  lemma {:induction false} NothingUnwound(i: Issue)
    ensures OnlyUnwound(i, i)
  {
  }

  /** `ok` and `next` are what `count` calls from `first` on come to. */
  predicate Spent(calls: nat -> Call, first: nat, count: nat, ok: bool, next: nat) {
    var n := FirstRaise(calls, first, count);
    (ok <==> n == first + count) && next == if ok then n else n + 1
  }

  lemma {:induction false} SpentJoins(calls: nat -> Call, first: nat, a: nat, mid: nat, b: nat, ok: bool, next: nat)
    requires Spent(calls, first, a, true, mid) && Spent(calls, mid, b, ok, next)
    ensures Spent(calls, first, a + b, ok, next)
  {
    RaisesJoin(calls, first, a, b);
  }

  lemma {:induction false} SpentEarly(calls: nat -> Call, first: nat, a: nat, b: nat, next: nat)
    requires Spent(calls, first, a, false, next)
    ensures Spent(calls, first, a + b, false, next)
  {
    RaisesJoin(calls, first, a, b);
  }

  lemma {:induction false} SoundGoes(calls: nat -> Call, first: nat, count: nat, ok: bool, next: nat)
    ensures NoneRaises(calls) && Spent(calls, first, count, ok, next) ==> ok
  {
  }

  lemma {:induction false} UnwoundOn(was: Issue, mid: Issue, now: Issue)
    requires mid.assignees <= was.assignees && mid.labels == was.labels && OnlyUnwound(mid, now)
    ensures OnlyUnwound(was, now)
  {
  }

  /**
   Row by row: a live one costs no call; any other costs one read, one call per
   assignee and two for the labels, is released when none of them raises, and
   otherwise costs the calls up to the one that raised.
   */
  ghost function ReleasePlan(s: Sys, due: seq<(Key, Grant)>, calls: nat -> Call, first: nat): seq<Key> {
    if due == [] then []
    else if LiveAt(s, due[0].0) then ReleasePlan(s, due[1..], calls, first)
    else
      var whole := |IssueAt(s, due[0].0).assignees| + 3;
      var n := FirstRaise(calls, first, whole);
      if n == first + whole then [due[0].0] + ReleasePlan(s, due[1..], calls, n)
      else ReleasePlan(s, due[1..], calls, n + 1)
  }

  predicate DistinctKeys(due: seq<(Key, Grant)>) { forall i, j :: 0 <= i < j < |due| ==> due[i].0 != due[j].0 }

  lemma {:induction false} RowsAreDistinct(grants: map<Key, Grant>, expired: seq<Key>, repo: string)
    requires forall i, j :: 0 <= i < j < |expired| ==> expired[i] != expired[j]
    ensures DistinctKeys(Rows(grants, expired, repo))
  {
    if expired != [] {
      RowsAreDistinct(grants, expired[1..], repo);
      RowsAreRecorded(grants, expired[1..], repo);
    }
  }

  /**
   What a release has done to one key so far: rows are never invented or
   altered, one that went was live or released, a released issue is back in the
   pool, and a live or undue issue is left alone on GitHub. `sound`: no call raises.
   */
  ghost predicate Accounted(k: Key, due: seq<(Key, Grant)>, start: Sys, now: Sys, released: seq<Key>, sound: bool) {
    && (k in now.grants ==> k in start.grants && now.grants[k] == start.grants[k])
    && (k in start.grants && k !in now.grants ==> Due(due, k) && (LiveAt(start, k) || k in released))
    && (k in released ==> Due(due, k) && k in start.grants && k !in now.grants && Clean(IssueAt(now, k)))
    && OnlyUnwound(IssueAt(start, k), IssueAt(now, k))
    && (LiveAt(start, k) || !Due(due, k) ==> IssueAt(now, k) == IssueAt(start, k))
    && (Due(due, k) && (LiveAt(start, k) || sound) ==> k !in now.grants)
  }

  /** The due rows are the expired keys of this repo that still hold a row. */
  lemma {:induction false} DueIsExpired(grants: map<Key, Grant>, expired: seq<Key>, repo: string, k: Key)
    ensures Due(Rows(grants, expired, repo), k) <==> k in expired && k in grants && k.repo == repo
  {
    RowsAreRecorded(grants, expired, repo);
    if k in expired && k in grants && k.repo == repo {
      RecordedAreRows(grants, expired, repo, k);
    }
  }

  lemma {:induction false} NothingDue(k: Key, start: Sys, now: Sys, sound: bool)
    requires now == start.(janitor := now.janitor, regranted := now.regranted)
    ensures Accounted(k, [], start, now, [], sound)
  {
  }

  lemma {:induction false} AccountedAlike(k: Key, due: seq<(Key, Grant)>, start: Sys, was: Sys, now: Sys, released: seq<Key>, sound: bool)
    requires Accounted(k, due, start, was, released, sound)
    requires now.grants == was.grants && now.github == was.github
    ensures Accounted(k, due, start, now, released, sound)
  {
  }

  lemma {:induction false} KeptRow(k: Key, due: seq<(Key, Grant)>, start: Sys, now: Sys, released: seq<Key>, sound: bool)
    requires Accounted(k, due, start, now, released, sound)
    ensures k in now.grants ==> k in start.grants && now.grants[k] == start.grants[k]
  {
  }

  /** The rows still to come are untouched. */
  ghost predicate Ahead(due: seq<(Key, Grant)>, i: nat, start: Sys, now: Sys) {
    forall j :: i <= j < |due| ==> due[j].0 in now.grants && IssueAt(now, due[j].0) == IssueAt(start, due[j].0)
  }

  lemma {:induction false} AheadStep(due: seq<(Key, Grant)>, i: nat, start: Sys, was: Sys, now: Sys)
    requires DistinctKeys(due) && i < |due| && Ahead(due, i, start, was)
    requires SameExcept(now.github, was.github, due[i].0) && now.grants.Keys + {due[i].0} >= was.grants.Keys
    ensures Ahead(due, i + 1, start, now)
  {
    forall j | i + 1 <= j < |due| ensures due[j].0 in now.grants && IssueAt(now, due[j].0) == IssueAt(start, due[j].0) {
      assert due[j].0 != due[i].0;
      assert IssueAt(now, due[j].0) == IssueAt(was, due[j].0);
    }
  }

  lemma {:induction false} PlanStep(due: seq<(Key, Grant)>, i: nat, s: Sys, calls: nat -> Call, first: nat, next: nat, ok: bool)
    requires i < |due|
    requires if LiveAt(s, due[i].0) then !ok && next == first
             else Spent(calls, first, |IssueAt(s, due[i].0).assignees| + 3, ok, next)
    ensures ReleasePlan(s, due[i..], calls, first)
         == (if ok then [due[i].0] else []) + ReleasePlan(s, due[i + 1..], calls, next)
  {
    assert due[i..][1..] == due[i + 1..];
  }

  lemma {:induction false} PlanEnds(s: Sys, calls: nat -> Call, next: nat)
    ensures ReleasePlan(s, [], calls, next) == []
  {
  }

  lemma {:induction false} AccountStep(k: Key, done: seq<(Key, Grant)>, d: (Key, Grant), start: Sys, was: Sys, now: Sys,
                                       released: seq<Key>, ok: bool, sound: bool)
    requires Accounted(k, done, start, was, released, sound)
    requires SameExcept(now.github, was.github, d.0)
    requires now.grants == if ok || LiveAt(start, d.0) then was.grants - {d.0} else was.grants
    requires ok ==> d.0 in was.grants && !LiveAt(start, d.0) && Clean(IssueAt(now, d.0))
    requires LiveAt(start, d.0) || d.0 !in was.grants ==> now.github == was.github
    requires OnlyUnwound(IssueAt(was, d.0), IssueAt(now, d.0))
    requires sound ==> d.0 !in now.grants
    ensures Accounted(k, done + [d], start, now, if ok then released + [d.0] else released, sound)
  {
    assert Due(done + [d], k) <==> Due(done, k) || k == d.0 by {
      if k == d.0 { assert d in done + [d]; }
      if Due(done, k) {
        var e :| e in done && e.0 == k;
        assert e in done + [d];
      }
    }
    if k != d.0 {
      assert IssueAt(now, k) == IssueAt(was, k);
    }
  }

  // ---- a release under way ----

  /** After `i` rows: every key accounted for, and what is released is what the plan says up to here. */
  ghost predicate Progress(due: seq<(Key, Grant)>, i: nat, start: Sys, now: Sys, released: seq<Key>, calls: nat -> Call, next: nat)
    requires i <= |due|
  {
    && (forall k :: Accounted(k, due[..i], start, now, released, NoneRaises(calls)))
    && (DistinctKeys(due) ==>
          && Ahead(due, i, start, now)
          && released + ReleasePlan(start, due[i..], calls, next) == ReleasePlan(start, due, calls, 0))
  }

  lemma {:induction false} ProgressStarts(due: seq<(Key, Grant)>, start: Sys, now: Sys, calls: nat -> Call)
    requires now == start.(janitor := now.janitor, regranted := now.regranted)
    requires forall d :: d in due ==> d.0 in start.grants
    ensures Progress(due, 0, start, now, [], calls, 0)
  {
    forall k ensures Accounted(k, due[..0], start, now, [], NoneRaises(calls)) {
      NothingDue(k, start, now, NoneRaises(calls));
    }
    hide Accounted, ReleasePlan;
    assert due[0..] == due;
  }

  lemma {:induction false} KeptInProgress(due: seq<(Key, Grant)>, i: nat, start: Sys, now: Sys, released: seq<Key>,
                                          calls: nat -> Call, next: nat, k: Key)
    requires i <= |due| && Progress(due, i, start, now, released, calls, next)
    ensures k in now.grants ==> k in start.grants && now.grants[k] == start.grants[k]
    ensures Accounted(k, due[..i], start, now, released, NoneRaises(calls))
  {
    hide ReleasePlan;
    KeptRow(k, due[..i], start, now, released, NoneRaises(calls));
  }

  /** One due row dealt with: deleted when live or unwound, kept when the unwind failed, and nothing else touched. */
  ghost predicate RowDone(was: Sys, now: Sys, k: Key, calls: nat -> Call, first: nat, next: nat, ok: bool) {
    && SameExcept(now.github, was.github, k) && OnlyUnwound(IssueAt(was, k), IssueAt(now, k))
    && now.grants == (if ok || LiveAt(was, k) then was.grants - {k} else was.grants)
    && (ok ==> Clean(IssueAt(now, k)))
    && if LiveAt(was, k) || k !in was.grants then !ok && next == first && now.github == was.github
       else Spent(calls, first, |IssueAt(was, k).assignees| + 3, ok, next)
  }

  lemma {:induction false} ProgressStep(due: seq<(Key, Grant)>, i: nat, start: Sys, was: Sys, now: Sys, released: seq<Key>,
                                        calls: nat -> Call, first: nat, next: nat, ok: bool)
    requires i < |due| && Progress(due, i, start, was, released, calls, first)
    requires was.runs == start.runs && RowDone(was, now, due[i].0, calls, first, next, ok)
    ensures Progress(due, i + 1, start, now, if ok then released + [due[i].0] else released, calls, next)
  {
    hide Spent, OnlyUnwound, SameExcept, ReleasePlan, Accounted, Live, DistinctKeys;
    var more, sound := if ok then released + [due[i].0] else released, NoneRaises(calls);
    assert LiveAt(was, due[i].0) == LiveAt(start, due[i].0);
    var done := due[..i + 1];
    assert done == due[..i] + [due[i]];
    SoundGoes(calls, first, |IssueAt(was, due[i].0).assignees| + 3, ok, next);
    forall j ensures Accounted(j, done, start, now, more, sound) {
      AccountStep(j, due[..i], due[i], start, was, now, released, ok, sound);
    }
    if DistinctKeys(due) {
      AheadStep(due, i, start, was, now);
      PlanStep(due, i, start, calls, first, next, ok);
    }
  }

  lemma {:induction false} ProgressEnds(due: seq<(Key, Grant)>, start: Sys, now: Sys, released: seq<Key>, calls: nat -> Call, next: nat)
    requires Progress(due, |due|, start, now, released, calls, next)
    ensures forall k :: Accounted(k, due, start, now, released, NoneRaises(calls))
    ensures DistinctKeys(due) ==> released == ReleasePlan(start, due, calls, 0)
  {
    assert due[..|due|] == due && due[|due|..] == [];
    PlanEnds(start, calls, next);
    hide Accounted, ReleasePlan, DistinctKeys;
  }

  class ClaimStore {
    var grants: map<Key, Grant>
    var runs: seq<Event>
    var github: map<Key, Issue>
    var malformed: set<Key>
    var waits: set<Key>
    ghost var sys: Sys

    ghost predicate Valid()
      reads this
    {
      && sys.grants == grants && sys.runs == runs && sys.github == github
      && malformed !! waits
    }

    function At(k: Key): Issue
      reads this`github
    {
      if k in github then github[k] else Issue({}, {})
    }

    ghost method Take(move: Move, start: Sys, moves: seq<Move>) returns (more: seq<Move>)
      requires sys == Run(start, moves)
      modifies this`sys
      ensures more == moves + [move] && sys == Next(old(sys), move) == Run(start, more)
    {
      RunGrows(start, moves, move);
      sys := Next(sys, move);
      more := moves + [move];
    }

    /** A Run event is logged and, when it claims, consumes the grant row in the same transaction. */
    method RecordRunEvent(k: Key, phase: string) returns (activated: bool)
      requires Valid()
      modifies this`grants, this`runs, this`sys
      ensures Valid() && sys == Next(old(sys), RunEvent(k, phase))
      ensures activated <==> phase == "claimed" && k.repo != "" && k in old(grants)
      ensures grants == if phase == "claimed" && k.repo != "" then old(grants) - {k} else old(grants)
    {
      activated := false;
      runs := runs + [RunRow(|runs| + 1, k, phase)];
      if phase == "claimed" && k.repo != "" {
        activated := k in grants;
        grants := grants - {k};
      }
      sys := Next(sys, RunEvent(k, phase));
    }

    /** Advisory rows of issues that left the pool go; other repos' rows are not this pass's to clear. */
    method Prune(repo: string, listed: set<int>)
      requires Valid()
      modifies this`malformed, this`waits
      ensures Valid()
      ensures forall k :: k in malformed <==> k in old(malformed) && (k.repo == repo ==> k.issue in listed)
      ensures forall k :: k in waits <==> k in old(waits) && (k.repo == repo ==> k.issue in listed)
    {
      malformed := set k | k in malformed && (k.repo == repo ==> k.issue in listed);
      waits := set k | k in waits && (k.repo == repo ==> k.issue in listed);
    }

    /** The lanes exclude each other: a row enters one and leaves the other. */
    method Advise(k: Key, bad: bool)
      requires Valid()
      modifies this`malformed, this`waits
      ensures Valid()
      ensures malformed == if bad then old(malformed) + {k} else old(malformed) - {k}
      ensures waits == if bad then old(waits) - {k} else old(waits) + {k}
    {
      if bad {
        malformed := malformed + {k};
        waits := waits - {k};
      } else {
        waits := waits + {k};
        malformed := malformed - {k};
      }
    }

    /**
     One pass over the pool in listing order. The first candidate that is
     eligible and clear of the gate is granted; the row lands before the writes.
     */
    method GrantingPass(repo: string, grant: Grant, open: seq<int>, listing: Call, gate: int -> Gate, calls: nat -> Call)
      returns (outcome: Outcome, ghost moves: seq<Move>)
      requires Valid() && sys.pass.Idle?
      modifies this
      ensures Valid() && sys.pass.Idle? && sys == Run(old(sys), moves) && runs == old(runs)
      ensures outcome.ReadFailed? <==>
        listing.Raised? || exists n: nat :: StopsAt(old(sys), repo, open, gate, n) && gate(open[n]).Unreadable?
      ensures outcome.NothingToGrant? <==> listing.Done? && forall n :: n in open ==> PassedOver(old(sys), Key(repo, n), gate)
      ensures outcome.Granted? || outcome.WriteFailed? <==>
        listing.Done? && exists n: nat :: StopsAt(old(sys), repo, open, gate, n) && gate(open[n]).Clear?
      ensures outcome.ReadFailed? || outcome.NothingToGrant? ==> grants == old(grants) && github == old(github)
      ensures outcome.Granted? || outcome.WriteFailed? ==>
        var k := Key(repo, outcome.number);
        && (exists n: nat :: StopsAt(old(sys), repo, open, gate, n) && open[n] == outcome.number)
        && (outcome.Granted? <==> calls(0).Done? && calls(1).Done? && calls(2).Done?)
        && grants == old(grants)[k := grant]
        && SameExcept(github, old(github), k) && Marked(old(At(k)), At(k), grant.login, calls)
      ensures listing.Raised? ==> malformed == old(malformed) && waits == old(waits)
      ensures listing.Done? ==> forall n: nat :: WalksTo(old(sys), repo, open, gate, n) ==>
        var granted := if outcome.Granted? || outcome.WriteFailed? then Some(outcome.number) else None;
        Reconciled(old(sys), repo, open, gate, n, granted, old(malformed), old(waits), malformed, waits)
    {
      ghost var start := sys;
      assert sys == Run(start, []);
      hide Next, Run, Reconciled, StopsAt, WalksTo, PassedOver, Marked, SameExcept, Grantable;
      moves := Take(BeginPass(repo, grant), start, []);
      moves := Take(ReadLive, start, moves);
      if listing.Raised? {
        ReadsStep(start, repo, grant);
        EndStep(sys);
        moves := Take(EndPass, start, moves);
        return ReadFailed, moves;
      }
      moves := Take(ListIssues(set n | n in open), start, moves);
      ListStep(start, repo, grant, set n | n in open);
      ghost var stop: nat;
      outcome, stop, moves := PruneAndWalk(repo, grant, open, gate, calls, start, moves);
      WalkDecides(start, repo, open, gate, stop);
    }

    /** Rows of issues that left the pool go first. */
    method PruneAndWalk(repo: string, grant: Grant, open: seq<int>, gate: int -> Gate, calls: nat -> Call,
                        ghost start: Sys, ghost before: seq<Move>)
      returns (outcome: Outcome, ghost stop: nat, ghost moves: seq<Move>)
      requires Valid() && sys == Run(start, before) && start.pass.Idle?
      requires sys == Next(Next(Next(start, BeginPass(repo, grant)), ReadLive), ListIssues(set n | n in open))
      requires sys == start.(pass := sys.pass)
      modifies this
      ensures Valid() && sys.pass.Idle? && sys == Run(start, moves) && runs == old(runs)
      ensures WalksTo(start, repo, open, gate, stop)
      ensures outcome.NothingToGrant? <==> stop == |open|
      ensures outcome.ReadFailed? <==> stop < |open| && gate(open[stop]).Unreadable?
      ensures outcome.ReadFailed? || outcome.NothingToGrant? ==> grants == old(grants) && github == old(github)
      ensures outcome.Granted? || outcome.WriteFailed? ==>
        var k := Key(repo, outcome.number);
        && stop < |open| && open[stop] == outcome.number && gate(open[stop]).Clear?
        && (outcome.Granted? <==> calls(0).Done? && calls(1).Done? && calls(2).Done?)
        && grants == old(grants)[k := grant]
        && SameExcept(github, old(github), k) && Marked(old(At(k)), At(k), grant.login, calls)
      ensures Reconciled(start, repo, open, gate, stop, GrantedBy(outcome), old(malformed), old(waits), malformed, waits)
    {
      hide Next, Run, StopsAt, WalksTo, PassedOver, Marked, SameExcept, Grantable;
      ghost var flagged, waiting := malformed, waits;
      Prune(repo, set n | n in open && PLAN_READY in At(Key(repo, n)).labels);
      assert forall k: Key :: k.repo == repo ==> Key(repo, k.issue) == k;
      PruneReconciles(start, repo, open, gate, flagged, waiting, malformed, waits);
      hide Reconciled;
      ghost var pruned, kept := malformed, waits;
      outcome, stop, moves := Walk(repo, grant, open, gate, calls, start, before);
      ReconcilesOn(start, repo, open, gate, stop, GrantedBy(outcome), flagged, waiting, pruned, kept, malformed, waits);
    }

    method Walk(repo: string, grant: Grant, open: seq<int>, gate: int -> Gate, calls: nat -> Call,
                ghost start: Sys, ghost before: seq<Move>)
      returns (outcome: Outcome, ghost stop: nat, ghost moves: seq<Move>)
      requires Valid() && sys == Run(start, before) && start.pass.Idle?
      requires sys == Next(Next(Next(start, BeginPass(repo, grant)), ReadLive), ListIssues(set n | n in open))
      requires sys == start.(pass := sys.pass)
      requires forall k :: k in malformed + waits && k.repo == repo ==> StillPooled(start, open, k)
      modifies this
      ensures Valid() && sys.pass.Idle? && sys == Run(start, moves) && runs == old(runs)
      ensures WalksTo(start, repo, open, gate, stop)
      ensures outcome.NothingToGrant? <==> stop == |open|
      ensures outcome.ReadFailed? <==> stop < |open| && gate(open[stop]).Unreadable?
      ensures outcome.ReadFailed? || outcome.NothingToGrant? ==> grants == old(grants) && github == old(github)
      ensures outcome.Granted? || outcome.WriteFailed? ==>
        var k := Key(repo, outcome.number);
        && stop < |open| && open[stop] == outcome.number && gate(open[stop]).Clear?
        && (outcome.Granted? <==> calls(0).Done? && calls(1).Done? && calls(2).Done?)
        && grants == old(grants)[k := grant]
        && SameExcept(github, old(github), k) && Marked(old(At(k)), At(k), grant.login, calls)
      ensures Reconciled(start, repo, open, gate, stop, GrantedBy(outcome), old(malformed), old(waits), malformed, waits)
    {
      hide Next, Run, Eligible, Reconciled, SameExcept, Marked;
      ghost var listed := set n | n in open;
      ghost var seen, flagged, waiting := sys, malformed, waits;
      moves := before;
      NothingReconciled(start, repo, open, gate, malformed, waits);
      for i := 0 to |open|
        invariant Valid() && sys == seen && moves == before
        invariant grants == old(grants) && runs == old(runs) && github == old(github)
        invariant forall m :: 0 <= m < i ==> PassedOver(start, Key(repo, open[m]), gate)
        invariant Reconciled(start, repo, open, gate, i, None, flagged, waiting, malformed, waits)
      {
        var number := open[i];
        var k := Key(repo, number);
        PoolIsGrantable(start, sys, repo, grant, listed, number);
        var issue := At(k);
        ghost var f, w := malformed, waits;
        if PLAN_READY !in issue.labels {
          MeetReconciles(start, repo, open, gate, i, flagged, waiting, f, w, malformed, waits);
          continue;
        }
        if FAILED in issue.labels {
          Advise(k, true);
          MeetReconciles(start, repo, open, gate, i, flagged, waiting, f, w, malformed, waits);
          continue;
        }
        if issue.assignees != {} || IN_PROGRESS in issue.labels || k in grants || Live(runs, repo, number) {
          MeetReconciles(start, repo, open, gate, i, flagged, waiting, f, w, malformed, waits);
          continue;
        }
        if gate(number).Unreadable? {
          outcome, stop := ReadFailed, i;
          EndStep(sys);
          moves := Take(EndPass, start, moves);
          return;
        }
        if gate(number) != Clear {
          Advise(k, gate(number).Malformed?);
          MeetReconciles(start, repo, open, gate, i, flagged, waiting, f, w, malformed, waits);
          continue;
        }
        malformed, waits := malformed - {k}, waits - {k};
        GrantReconciles(start, repo, open, gate, i, flagged, waiting, f, w, malformed, waits);
        var written: bool;
        written, moves := Claim(k, grant, calls, start, moves);
        outcome, stop := if written then Granted(number) else WriteFailed(number), i;
        return;
      }
      outcome, stop := NothingToGrant, |open|;
      EndStep(sys);
      moves := Take(EndPass, start, moves);
    }

    /** The row, then the three writes in order; a failure stops them and leaves the row. */
    method Claim(k: Key, grant: Grant, calls: nat -> Call, ghost start: Sys, ghost before: seq<Move>)
      returns (written: bool, ghost moves: seq<Move>)
      requires Valid() && sys == Run(start, before)
      requires Eligible(sys.pass, k.issue) && sys.pass.repo == k.repo && sys.pass.grant == grant
      modifies this`grants, this`github, this`sys
      ensures Valid() && sys.pass.Idle? && sys == Run(start, moves)
      ensures grants == old(grants)[k := grant] && SameExcept(github, old(github), k)
      ensures Marked(old(At(k)), At(k), grant.login, calls)
      ensures written <==> calls(0).Done? && calls(1).Done? && calls(2).Done?
    {
      hide Next, Run, Eligible, Marked;
      grants := grants[k := grant];
      assert k == Key(k.repo, k.issue);
      PickStep(sys, k.issue);
      moves := Take(Pick(k.issue), start, before);
      written, moves := WriteThrough(k, grant, calls, start, moves);
    }

    /** Assign, mark in progress, take out of the pool. */
    method WriteThrough(k: Key, grant: Grant, calls: nat -> Call, ghost start: Sys, ghost before: seq<Move>)
      returns (written: bool, ghost moves: seq<Move>)
      requires Valid() && sys == Run(start, before) && sys.pass == Writing(k, grant, 0)
      modifies this`github, this`sys
      ensures Valid() && sys.pass.Idle? && sys == Run(start, moves)
      ensures SameExcept(github, old(github), k)
      ensures Marked(old(At(k)), At(k), grant.login, calls)
      ensures written <==> calls(0).Done? && calls(1).Done? && calls(2).Done?
    {
      hide Next, Run, Eligible, Marked;
      moves := before;
      for step := 0 to 3
        invariant Valid() && sys == Run(start, moves)
        invariant sys.pass == if step == 3 then Idle else Writing(k, grant, step)
        invariant SameExcept(github, old(github), k)
        invariant forall n :: 0 <= n < step ==> calls(n).Done?
        invariant At(k) == Written(old(At(k)), grant.login, step)
      {
        var call := calls(step);
        assert IssueAt(sys, k) == At(k);
        if call != Raised(false) {
          github := github[k := GrantWrite(At(k), grant.login, step)];
        }
        WriteStep(sys, call);
        moves := Take(Write(call), start, moves);
        if call.Raised? {
          WritesMark(old(At(k)), At(k), grant.login, calls, step);
          return false, moves;
        }
      }
      WritesMark(old(At(k)), At(k), grant.login, calls, 2);
      written := true;
    }

    /**
     The janitor's release of grants past their window. A live key loses only
     its row; a released one is back in the pool with no row; a failed unwind
     keeps its row for the next pass; nothing else is touched.
     */
    method ReleaseNeverActivated(repo: string, expired: seq<Key>, calls: nat -> Call)
      returns (released: seq<Key>, ghost moves: seq<Move>)
      requires Valid() && sys.janitor.Resting?
      modifies this`grants, this`github, this`sys
      ensures Valid() && sys.janitor.Resting? && sys == Run(old(sys), moves)
      ensures forall k :: Accounted(k, Rows(old(grants), expired, repo), old(sys), sys, released, NoneRaises(calls))
      ensures (forall i, j :: 0 <= i < j < |expired| ==> expired[i] != expired[j]) ==>
        released == ReleasePlan(old(sys), Rows(old(grants), expired, repo), calls, 0)
    {
      assert sys == Run(sys, []);
      hide Next, Run, Accounted;
      ghost var start := sys;
      released, moves := [], [];
      SweepStep(start, repo, expired);
      moves := Take(BeginSweep(repo), start, moves);
      moves := Take(ReadExpired(expired), start, moves);
      var due := Rows(grants, expired, repo);
      RowsAreRecorded(grants, expired, repo);
      if forall i, j :: 0 <= i < j < |expired| ==> expired[i] != expired[j] {
        RowsAreDistinct(grants, expired, repo);
      }
      hide DistinctKeys, ReleasePlan;
      released, moves := ReleaseDue(due, calls, start, moves);
      EndSweepStep(sys);
      ghost var swept := sys;
      moves := Take(EndSweep, start, moves);
      forall k ensures Accounted(k, due, start, sys, released, NoneRaises(calls)) {
        AccountedAlike(k, due, start, swept, sys, released, NoneRaises(calls));
      }
    }

    method ReleaseDue(due: seq<(Key, Grant)>, calls: nat -> Call, ghost start: Sys, ghost before: seq<Move>)
      returns (released: seq<Key>, ghost moves: seq<Move>)
      requires Valid() && sys == Run(start, before) && sys == start.(janitor := sys.janitor, regranted := {})
      requires sys.janitor.Walking? && sys.janitor.due == due
      requires forall d :: d in due ==> start.grants.Keys >= {d.0} && start.grants[d.0] == d.1
      requires forall d :: d in due ==> (d.0 in sys.janitor.live <==> LiveAt(start, d.0))
      modifies this`grants, this`github, this`sys
      ensures Valid() && sys == Run(start, moves) && sys.janitor == Walking(old(sys).janitor.live, [])
      ensures forall k :: Accounted(k, due, start, sys, released, NoneRaises(calls))
      ensures DistinctKeys(due) ==> released == ReleasePlan(start, due, calls, 0)
    {
      released, moves := [], before;
      ProgressStarts(due, start, sys, calls);
      hide Next, Run, Progress, RowDone, Accounted, ReleasePlan, DistinctKeys, Live, NoneRaises;
      var next := 0;
      for i := 0 to |due|
        invariant Valid() && sys == Run(start, moves) && sys.runs == start.runs
        invariant sys.janitor == Walking(old(sys).janitor.live, due[i..])
        invariant Progress(due, i, start, sys, released, calls, next)
      {
        ghost var was, first, k := sys, next, due[i].0;
        assert due[i] in due && LiveAt(sys, k) == LiveAt(start, k);
        KeptInProgress(due, i, start, sys, released, calls, next, k);
        var ok: bool;
        ok, next, moves := ReleaseOne(due[i].0, due[i].1, calls, next, start, moves);
        ProgressStep(due, i, start, was, sys, released, calls, first, next, ok);
        if ok {
          released := released + [due[i].0];
        }
      }
      ProgressEnds(due, start, sys, released, calls, next);
    }

    /** One due row: deleting it first decides the race; a live or vanished one goes no further. */
    method ReleaseOne(k: Key, row: Grant, calls: nat -> Call, first: nat, ghost start: Sys, ghost before: seq<Move>)
      returns (ok: bool, next: nat, ghost moves: seq<Move>)
      requires Valid() && sys == Run(start, before)
      requires sys.janitor.Walking? && sys.janitor.due != [] && sys.janitor.due[0] == (k, row)
      requires k in sys.janitor.live <==> LiveAt(sys, k)
      requires k in grants ==> grants[k] == row
      modifies this`grants, this`github, this`sys
      ensures Valid() && sys == Run(start, moves)
      ensures sys.janitor == Walking(old(sys).janitor.live, old(sys).janitor.due[1..])
      ensures runs == old(runs) && RowDone(old(sys), sys, k, calls, first, next, ok)
    {
      hide Next, Run, Spent;
      ok, next := false, first;
      var isLive, there := Live(runs, k.repo, k.issue), k in grants;
      TakeRowStep(sys);
      grants := grants - {k};
      moves := Take(TakeRow, start, before);
      if !isLive && there {
        ok, next, moves := Unwind(k, row, calls, first, start, moves);
      }
    }

    /** Assignees off, in_progress off, plan_ready on; a failure puts the row back. */
    method Unwind(k: Key, row: Grant, calls: nat -> Call, first: nat, ghost start: Sys, ghost before: seq<Move>)
      returns (ok: bool, next: nat, ghost moves: seq<Move>)
      requires Valid() && sys == Run(start, before) && k !in grants
      requires sys.janitor.Unwinding? && sys.janitor.key == k && sys.janitor.row == row && sys.janitor.stage == Fetching
      modifies this`grants, this`github, this`sys
      ensures Valid() && sys == Run(start, moves)
      ensures sys.janitor == Walking(old(sys).janitor.live, old(sys).janitor.due)
      ensures grants == if ok then old(grants) else old(grants)[k := row]
      ensures SameExcept(github, old(github), k)
      ensures ok ==> Clean(At(k))
      ensures OnlyUnwound(old(At(k)), At(k))
      ensures Spent(calls, first, |old(At(k)).assignees| + 3, ok, next)
    {
      hide Next, Run;
      ghost var todo := |At(k).assignees|;
      FetchStep(sys, calls(first));
      moves := Take(Undo("", calls(first)), start, before);
      RaiseStep(calls, first, 1);
      if calls(first).Raised? {
        grants := grants[k := row];
        SpentEarly(calls, first, 1, todo + 2, first + 1);
        return false, first + 1, moves;
      }
      assert Spent(calls, first, 1, true, first + 1);
      hide Spent, OnlyUnwound, SameExcept;
      ok, next, moves := Undress(k, row, calls, first + 1, start, moves);
      SpentJoins(calls, first, 1, first + 1, todo + 2, ok, next);
    }

    /** The undoing calls themselves. */
    method Undress(k: Key, row: Grant, calls: nat -> Call, first: nat, ghost start: Sys, ghost before: seq<Move>)
      returns (ok: bool, next: nat, ghost moves: seq<Move>)
      requires Valid() && sys == Run(start, before) && k !in grants
      requires sys.janitor.Unwinding? && sys.janitor.key == k && sys.janitor.row == row
      requires sys.janitor.stage == if At(k).assignees == {} then Unlabelling else Unassigning(At(k).assignees)
      modifies this`grants, this`github, this`sys
      ensures Valid() && sys == Run(start, moves)
      ensures sys.janitor == Walking(old(sys).janitor.live, old(sys).janitor.due)
      ensures grants == if ok then old(grants) else old(grants)[k := row]
      ensures SameExcept(github, old(github), k)
      ensures ok ==> Clean(At(k))
      ensures OnlyUnwound(old(At(k)), At(k))
      ensures Spent(calls, first, |old(At(k)).assignees| + 2, ok, next)
    {
      hide Next, Run, Spent, OnlyUnwound;
      ghost var todo := |At(k).assignees|;
      ok, next, moves := Unassign(k, row, calls, first, start, before);
      ghost var mid, was := next, At(k);
      if ok {
        ok, next, moves := Relabel(k, row, calls, next, start, moves);
        SpentJoins(calls, first, todo, mid, 2, ok, next);
      } else {
        SpentEarly(calls, first, todo, 2, next);
        NothingUnwound(was);
      }
      UnwoundOn(old(At(k)), was, At(k));
    }

    method Unassign(k: Key, row: Grant, calls: nat -> Call, first: nat, ghost start: Sys, ghost before: seq<Move>)
      returns (ok: bool, next: nat, ghost moves: seq<Move>)
      requires Valid() && sys == Run(start, before) && k !in grants
      requires sys.janitor.Unwinding? && sys.janitor.key == k && sys.janitor.row == row
      requires sys.janitor.stage == if At(k).assignees == {} then Unlabelling else Unassigning(At(k).assignees)
      modifies this`grants, this`github, this`sys
      ensures Valid() && sys == Run(start, moves)
      ensures sys.janitor == if ok then old(sys).janitor.(stage := Unlabelling)
                             else Walking(old(sys).janitor.live, old(sys).janitor.due)
      ensures grants == if ok then old(grants) else old(grants)[k := row]
      ensures SameExcept(github, old(github), k)
      ensures ok ==> At(k).assignees == {}
      ensures At(k).assignees <= old(At(k)).assignees && At(k).labels == old(At(k)).labels
      ensures Spent(calls, first, |old(At(k)).assignees|, ok, next)
    {
      hide Next, Run, FirstRaise;
      ok, next, moves := false, first, before;
      var todo := At(k).assignees;
      ghost var count := |todo|;
      RaisesJoin(calls, first, 0, count);
      while todo != {}
        invariant Valid() && sys == Run(start, moves) && grants == old(grants) && SameExcept(github, old(github), k)
        invariant sys.janitor == old(sys).janitor.(stage := if todo == {} then Unlabelling else Unassigning(todo))
        invariant At(k).assignees <= todo <= old(At(k)).assignees && At(k).labels == old(At(k)).labels
        invariant next + |todo| == first + count
        invariant FirstRaise(calls, first, count) == FirstRaise(calls, next, |todo|)
        decreases |todo|
      {
        var login :| login in todo;
        var call := calls(next);
        RaiseStep(calls, next, |todo|);
        moves := UnassignOne(k, row, login, call, start, moves);
        next := next + 1;
        if call.Raised? {
          return;
        }
        todo := todo - {login};
      }
      ok := true;
    }

    /** One assignee off, or the row put back. */
    method UnassignOne(k: Key, row: Grant, login: string, call: Call, ghost start: Sys, ghost before: seq<Move>)
      returns (ghost moves: seq<Move>)
      requires Valid() && sys == Run(start, before) && k !in grants
      requires sys.janitor.Unwinding? && sys.janitor.key == k && sys.janitor.row == row
      requires sys.janitor.stage.Unassigning? && login in sys.janitor.stage.todo
      modifies this`grants, this`github, this`sys
      ensures Valid() && sys == Run(start, moves)
      ensures
        var todo := old(sys).janitor.stage.todo - {login};
        sys.janitor == if call.Raised? then Walking(old(sys).janitor.live, old(sys).janitor.due)
                       else old(sys).janitor.(stage := if todo == {} then Unlabelling else Unassigning(todo))
      ensures grants == if call.Raised? then old(grants)[k := row] else old(grants)
      ensures SameExcept(github, old(github), k)
      ensures At(k) == if call == Raised(false) then old(At(k)) else old(At(k)).(assignees := old(At(k)).assignees - {login})
    {
      hide Next, Run;
      if call != Raised(false) {
        var issue := At(k);
        github := github[k := issue.(assignees := issue.assignees - {login})];
      }
      UnassignStep(sys, login, call);
      moves := Take(Undo(login, call), start, before);
      if call.Raised? {
        grants := grants[k := row];
      }
    }

    method Relabel(k: Key, row: Grant, calls: nat -> Call, first: nat, ghost start: Sys, ghost before: seq<Move>)
      returns (ok: bool, next: nat, ghost moves: seq<Move>)
      requires Valid() && sys == Run(start, before) && k !in grants
      requires sys.janitor.Unwinding? && sys.janitor.key == k && sys.janitor.row == row
      requires sys.janitor.stage == Unlabelling && At(k).assignees == {}
      modifies this`grants, this`github, this`sys
      ensures Valid() && sys == Run(start, moves)
      ensures sys.janitor == Walking(old(sys).janitor.live, old(sys).janitor.due)
      ensures grants == if ok then old(grants) else old(grants)[k := row]
      ensures SameExcept(github, old(github), k)
      ensures ok ==> Clean(At(k))
      ensures OnlyUnwound(old(At(k)), At(k))
      ensures Spent(calls, first, 2, ok, next)
    {
      hide Next, Run;
      RaiseStep(calls, first, 2);
      RaiseStep(calls, first + 1, 1);
      next := first + 1;
      ok, moves := RelabelOne(k, row, false, calls(first), start, before);
      if ok {
        ok, moves := RelabelOne(k, row, true, calls(next), start, moves);
        next := next + 1;
      }
    }

    /** in_progress off, or then plan_ready on. */
    method RelabelOne(k: Key, row: Grant, ready: bool, call: Call, ghost start: Sys, ghost before: seq<Move>)
      returns (ok: bool, ghost moves: seq<Move>)
      requires Valid() && sys == Run(start, before) && k !in grants
      requires sys.janitor.Unwinding? && sys.janitor.key == k && sys.janitor.row == row
      requires sys.janitor.stage == if ready then Relabelling else Unlabelling
      modifies this`grants, this`github, this`sys
      ensures Valid() && sys == Run(start, moves) && (ok <==> call.Done?)
      ensures grants == if ok then old(grants) else old(grants)[k := row]
      ensures SameExcept(github, old(github), k) && At(k).assignees == old(At(k)).assignees
      ensures !ok ==> OnlyUnwound(old(At(k)), At(k))
      ensures ok ==> At(k).labels == if ready then old(At(k)).labels + {PLAN_READY} else old(At(k)).labels - {IN_PROGRESS}
      ensures sys.janitor == if ok && !ready then old(sys).janitor.(stage := Relabelling)
                             else Walking(old(sys).janitor.live, old(sys).janitor.due)
    {
      hide Next, Run;
      ok := call.Done?;
      if call != Raised(false) {
        var labels := if ready then At(k).labels + {PLAN_READY} else At(k).labels - {IN_PROGRESS};
        github := github[k := At(k).(labels := labels)];
      }
      RelabelStep(sys, call);
      moves := Take(Undo("", call), start, before);
      if !ok {
        grants := grants[k := row];
      }
    }
  }
}
