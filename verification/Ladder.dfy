/**
 The convergence ladder: two subsystems count a node's off beats, each climbs
 restart-queued then escalated, and both share one restart lever.
 */
module Ladder {
  import opened Prelude

  datatype Subsystem = Version | Drivers

  datatype Action = Nothing | RestartQueued | Escalated

  /** A health row exists only while the node is off. */
  datatype Health = Health(beats: nat, restartQueued: bool, escalated: bool)

  datatype Command = Command(id: nat, node: string, verb: string, completed: bool)

  /** One heartbeat as the ladder sees it. `reported` None: the field was not reported. */
  datatype Beat = Beat(reported: Option<string>, desired: string, deferred: bool)

  const RESTART := "restart"

  predicate OnTarget(b: Beat) {
    b.desired == "" || b.reported.None? || b.reported.value == b.desired || b.deferred
  }

  predicate Pending(c: Command, node: string) { c.node == node && !c.completed }

  predicate RestartPending(commands: seq<Command>, node: string) {
    exists c :: c in commands && Pending(c, node) && c.verb == RESTART
  }

  function Climb(row: Option<Health>, b: Beat, threshold: int): (Option<Health>, Action) {
    if OnTarget(b) then (None, Nothing)
    else
      var h := if row.Some? then row.value else Health(0, false, false);
      var n := h.beats + 1;
      if !h.restartQueued && n >= threshold then (Some(Health(n, true, h.escalated)), RestartQueued)
      else if h.restartQueued && !h.escalated && n >= 2 * threshold then (Some(Health(n, true, true)), Escalated)
      else (Some(h.(beats := n)), Nothing)
  }

  // ---- the store ----

  datatype Fleet = Fleet(
    version: map<string, Health>,
    drivers: map<string, Health>,
    commands: seq<Command>,
    nextId: nat,
    ladderIds: set<nat>)

  datatype Happening =
    | Heartbeat(sub: Subsystem, node: string, beat: Beat)
    | Operator(node: string, verb: string)
    | Completed(node: string, ids: set<nat>)

  const IDLE := Fleet(map[], map[], [], 1, {})

  function Table(f: Fleet, sub: Subsystem): map<string, Health> {
    match sub case Version => f.version case Drivers => f.drivers
  }

  function Row(f: Fleet, sub: Subsystem, node: string): Option<Health> {
    if node in Table(f, sub) then Some(Table(f, sub)[node]) else None
  }

  function Put(table: map<string, Health>, node: string, row: Option<Health>): map<string, Health> {
    if row.Some? then table[node := row.value] else table - {node}
  }

  function WithTable(f: Fleet, sub: Subsystem, table: map<string, Health>): Fleet {
    match sub case Version => f.(version := table) case Drivers => f.(drivers := table)
  }

  function Enqueue(f: Fleet, node: string, verb: string): Fleet {
    f.(commands := f.commands + [Command(f.nextId, node, verb, false)], nextId := f.nextId + 1)
  }

  function Finish(c: Command, node: string, ids: set<nat>): Command {
    if c.node == node && c.id in ids then c.(completed := true) else c
  }

  function Next(f: Fleet, h: Happening, threshold: int): (Fleet, Action) {
    match h
    case Heartbeat(sub, node, beat) =>
      var (row, action) := Climb(Row(f, sub, node), beat, threshold);
      var g := WithTable(f, sub, Put(Table(f, sub), node, row));
      if action.RestartQueued? && !RestartPending(f.commands, node)
        then (Enqueue(g, node, RESTART).(ladderIds := g.ladderIds + {g.nextId}), action)
      else (g, action)
    case Operator(node, verb) => (Enqueue(f, node, verb), Nothing)
    case Completed(node, ids) =>
      (f.(commands := seq(|f.commands|, i requires 0 <= i < |f.commands| => Finish(f.commands[i], node, ids))), Nothing)
  }

  function Run(trace: seq<Happening>, threshold: int): Fleet {
    if trace == [] then IDLE else Next(Run(Front(trace), threshold), Last(trace), threshold).0
  }

  function Front(trace: seq<Happening>): seq<Happening>
    requires trace != []
  {
    trace[..|trace| - 1]
  }

  function Last(trace: seq<Happening>): Happening
    requires trace != []
  {
    trace[|trace| - 1]
  }

  // ---- the history the ladder refines ----

  /** How many off beats in a row the trace ends with, for one subsystem of one node. */
  function Streak(trace: seq<Happening>, sub: Subsystem, node: string): nat {
    if trace == [] then 0
    else
      var h := Last(trace);
      if h.Heartbeat? && h.sub == sub && h.node == node
        then if OnTarget(h.beat) then 0 else Streak(Front(trace), sub, node) + 1
      else Streak(Front(trace), sub, node)
  }

  /** Patience: a threshold below one acts like one. */
  function Patience(threshold: int): nat { if threshold < 1 then 1 else threshold }

  function Standing(streak: nat, t: nat): Option<Health> {
    if streak == 0 then None else Some(Health(streak, streak >= t, streak >= 2 * t))
  }

  /** Each subsystem's row is a function of its own streak, whatever else happened in between. */
  lemma {:induction false} RowIsStreak(trace: seq<Happening>, threshold: int, sub: Subsystem, node: string)
    ensures Row(Run(trace, threshold), sub, node) == Standing(Streak(trace, sub, node), Patience(threshold))
  {
    if trace != [] {
      RowIsStreak(Front(trace), threshold, sub, node);
    }
  }

  /**
   For a constant threshold a beat queues a restart exactly when it is the
   t-th consecutive off beat, escalates exactly when it is the 2t-th, and does
   nothing otherwise, with anything interleaved.
   */
  lemma {:induction false} LadderRefinesHistory(trace: seq<Happening>, threshold: int, sub: Subsystem, node: string, beat: Beat)
    ensures
      var t := Patience(threshold);
      var h := Heartbeat(sub, node, beat);
      var n := Streak(trace + [h], sub, node);
      Next(Run(trace, threshold), h, threshold).1 ==
        if n == t then RestartQueued else if n == 2 * t then Escalated else Nothing
  {
    RowIsStreak(trace, threshold, sub, node);
    var h := Heartbeat(sub, node, beat);
    assert Front(trace + [h]) == trace;
  }

  // ---- one restart lever ----

  ghost predicate LadderPending(f: Fleet, c: Command) { c.id in f.ladderIds && !c.completed }

  ghost predicate CommandsNumbered(f: Fleet) {
    && (forall i, j :: 0 <= i < j < |f.commands| ==> f.commands[i].id < f.commands[j].id)
    && (forall c :: c in f.commands ==> c.id < f.nextId)
    && (forall id :: id in f.ladderIds ==> id < f.nextId)
    && (forall c :: c in f.commands && c.id in f.ladderIds ==> c.verb == RESTART)
  }

  ghost predicate OneLever(f: Fleet) {
    forall c, d :: c in f.commands && d in f.commands && LadderPending(f, c) && LadderPending(f, d) && c.node == d.node
      ==> c == d
  }

  lemma {:induction false} EnqueueKeepsLever(f: Fleet, node: string, verb: string, ladder: bool)
    requires CommandsNumbered(f) && OneLever(f)
    requires ladder ==> verb == RESTART && !RestartPending(f.commands, node)
    ensures
      var g := Enqueue(f, node, verb).(ladderIds := if ladder then f.ladderIds + {f.nextId} else f.ladderIds);
      CommandsNumbered(g) && OneLever(g)
  {
    var added := Command(f.nextId, node, verb, false);
    var g := Enqueue(f, node, verb).(ladderIds := if ladder then f.ladderIds + {f.nextId} else f.ladderIds);
    assert forall c :: c in g.commands <==> c in f.commands || c == added;
    forall c | c in f.commands && LadderPending(g, c) ensures LadderPending(f, c) && (ladder ==> c.node != node) {
      assert c.id < f.nextId;
    }
  }

  lemma {:induction false} FinishedAre(f: Fleet, node: string, ids: set<nat>, g: Fleet)
    requires g == Next(f, Completed(node, ids), 1).0
    ensures g.nextId == f.nextId && g.ladderIds == f.ladderIds && |g.commands| == |f.commands|
    ensures forall i :: 0 <= i < |g.commands| ==>
      g.commands[i].id == f.commands[i].id && g.commands[i].node == f.commands[i].node && g.commands[i].verb == f.commands[i].verb
    ensures forall i :: 0 <= i < |g.commands| && f.commands[i].completed ==> g.commands[i].completed
  {
  }

  /** Exactly the node's own commands among the given ids are done afterwards, besides those done before. */
  lemma {:induction false} CompletionIsExact(f: Fleet, node: string, ids: set<nat>, i: nat)
    requires i < |f.commands|
    ensures
      var g := Next(f, Completed(node, ids), 1).0;
      var c := f.commands[i];
      && |g.commands| == |f.commands| && g.version == f.version && g.drivers == f.drivers
      && g.commands[i] == Command(c.id, c.node, c.verb, c.completed || (c.node == node && c.id in ids))
  {
  }

  lemma {:induction false} FinishKeepsLever(f: Fleet, node: string, ids: set<nat>)
    requires CommandsNumbered(f) && OneLever(f)
    ensures
      var g := Next(f, Completed(node, ids), 1).0;
      CommandsNumbered(g) && OneLever(g)
  {
    hide Next;
    var g := Next(f, Completed(node, ids), 1).0;
    FinishedAre(f, node, ids, g);
    forall c, d | c in g.commands && d in g.commands && LadderPending(g, c) && LadderPending(g, d) && c.node == d.node
      ensures c == d
    {
      var i :| 0 <= i < |g.commands| && g.commands[i] == c;
      var j :| 0 <= j < |g.commands| && g.commands[j] == d;
      assert f.commands[i] in f.commands && f.commands[j] in f.commands;
    }
  }

  lemma {:induction false} HeartbeatKeepsLever(f: Fleet, sub: Subsystem, node: string, beat: Beat, threshold: int)
    requires CommandsNumbered(f) && OneLever(f)
    ensures
      var g := Next(f, Heartbeat(sub, node, beat), threshold).0;
      CommandsNumbered(g) && OneLever(g)
  {
    var g := Next(f, Heartbeat(sub, node, beat), threshold).0;
    var lever := f.(version := g.version, drivers := g.drivers);
    if g.commands != f.commands {
      EnqueueKeepsLever(lever, node, RESTART, true);
      assert g == Enqueue(lever, node, RESTART).(ladderIds := lever.ladderIds + {lever.nextId});
    } else {
      assert g == lever;
    }
  }

  lemma {:induction false} LeverHolds(trace: seq<Happening>, threshold: int)
    ensures CommandsNumbered(Run(trace, threshold)) && OneLever(Run(trace, threshold))
  {
    if trace != [] {
      LeverHolds(Front(trace), threshold);
      var f := Run(Front(trace), threshold);
      match Last(trace)
      case Heartbeat(sub, node, beat) =>
        HeartbeatKeepsLever(f, sub, node, beat, threshold);
      case Operator(node, verb) =>
        EnqueueKeepsLever(f, node, verb, false);
      case Completed(node, ids) =>
        FinishKeepsLever(f, node, ids);
    }
  }

  /** Whatever interleaves, at most one ladder-queued restart per node is pending. */
  lemma {:induction false} OneLadderRestartPending(trace: seq<Happening>, threshold: int, c: Command, d: Command)
    requires c in Run(trace, threshold).commands && d in Run(trace, threshold).commands
    requires LadderPending(Run(trace, threshold), c) && LadderPending(Run(trace, threshold), d)
    requires c.node == d.node
    ensures c == d
  {
    LeverHolds(trace, threshold);
  }

  /** A restart the ladder asks for is always pending afterwards, whoever queued it. */
  lemma {:induction false} RestartRungIsSatisfied(f: Fleet, h: Happening, threshold: int)
    requires h.Heartbeat? && Next(f, h, threshold).1 == RestartQueued
    ensures RestartPending(Next(f, h, threshold).0.commands, h.node)
  {
    var g := Next(f, h, threshold).0;
    if RestartPending(f.commands, h.node) {
      assert g.commands == f.commands;
    } else {
      assert g.commands[|f.commands|] in g.commands;
      assert Pending(g.commands[|f.commands|], h.node);
    }
  }
}
