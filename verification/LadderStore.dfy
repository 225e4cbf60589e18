/** The two health tables and the command queue, updated in place. */
module LadderStore {
  import opened Prelude
  import opened Ladder

  class LadderStore {
    var health: map<Subsystem, map<string, Health>>
    var commands: seq<Command>
    var nextId: nat
    ghost var ladderIds: set<nat>

    ghost predicate Valid()
      reads this
    {
      Version in health && Drivers in health
    }

    ghost function Snapshot(): Fleet
      requires Valid()
      reads this
    {
      Fleet(health[Version], health[Drivers], commands, nextId, ladderIds)
    }

    constructor ()
      ensures Valid() && Snapshot() == IDLE
    {
      health := map[Version := map[], Drivers := map[]];
      commands, nextId, ladderIds := [], 1, {};
    }

    /** One heartbeat for one subsystem; the two share the restart lever through the command queue. */
    method ObserveConvergence(sub: Subsystem, node: string, beat: Beat, threshold: int) returns (action: Action)
      requires Valid()
      modifies this
      ensures Valid()
      ensures (Snapshot(), action) == Next(old(Snapshot()), Heartbeat(sub, node, beat), threshold)
    {
      ghost var f, h := Snapshot(), Heartbeat(sub, node, beat);
      ghost var climbed := Climb(Row(f, sub, node), beat, threshold);
      var table := health[sub];
      assert table == Table(f, sub);
      if beat.desired == "" || beat.reported.None? || beat.reported.value == beat.desired || beat.deferred {
        health := health[sub := table - {node}];
        return Nothing;
      }
      if node !in table {
        table := table[node := Health(0, false, false)];
      }
      table := table[node := table[node].(beats := table[node].beats + 1)];
      var row := table[node];
      action := Nothing;
      if !row.restartQueued && row.beats >= threshold {
        var pending := HasPendingRestart(node);
        if !pending {
          commands := commands + [Command(nextId, node, RESTART, false)];
          ladderIds := ladderIds + {nextId};
          nextId := nextId + 1;
        }
        table := table[node := row.(restartQueued := true)];
        action := RestartQueued;
      } else if row.restartQueued && !row.escalated && row.beats >= 2 * threshold {
        table := table[node := row.(escalated := true)];
        action := Escalated;
      }
      assert climbed.1 == action && table[node] == climbed.0.value;
      assert table == Put(Table(f, sub), node, climbed.0);
      health := health[sub := table];
      assert Table(Snapshot(), sub) == Table(Next(f, h, threshold).0, sub);
    }

    method HasPendingRestart(node: string) returns (pending: bool)
      ensures pending <==> RestartPending(commands, node)
    {
      for i := 0 to |commands|
        invariant forall j :: 0 <= j < i ==> !(Pending(commands[j], node) && commands[j].verb == RESTART)
      {
        if commands[i].node == node && !commands[i].completed && commands[i].verb == RESTART {
          assert Pending(commands[i], node);
          return true;
        }
      }
      return false;
    }

    method QueueCommand(node: string, verb: string) returns (id: nat)
      requires Valid()
      modifies this
      ensures Valid() && id == old(nextId)
      ensures Snapshot() == Next(old(Snapshot()), Operator(node, verb), 1).0
    {
      id := nextId;
      commands := commands + [Command(id, node, verb, false)];
      nextId := nextId + 1;
    }

    method CompleteCommands(node: string, ids: seq<nat>)
      requires Valid()
      modifies this`commands
      ensures Valid()
      ensures Snapshot() == Next(old(Snapshot()), Completed(node, set id | id in ids), 1).0
      ensures |commands| == |old(commands)| && forall i :: 0 <= i < |commands| ==>
        var c := old(commands)[i];
        commands[i] == Command(c.id, c.node, c.verb, c.completed || (c.node == node && c.id in ids))
    {
      ghost var before := commands;
      for i := 0 to |ids|
        invariant |commands| == |before|
        invariant forall j :: 0 <= j < |before| ==> commands[j] == Finish(before[j], node, set id | id in ids[..i])
      {
        commands := seq(|commands|, j requires 0 <= j < |commands| reads this => Finish(commands[j], node, {ids[i]}));
        assert ids[..i + 1] == ids[..i] + [ids[i]];
      }
      assert ids[..|ids|] == ids;
    }
  }
}
