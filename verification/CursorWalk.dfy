/**
 A client walking the events read view page by page while rows keep arriving
 and being evicted. A page is two store reads, rows first and evidence second,
 and anything may happen between them.
 */
module CursorWalk {
  import opened Prelude
  import opened Events
  import opened Eviction
  import opened EvictionRuns

  /** The newest `limit` matching rows, newest first. */
  function Page(log: seq<Event>, q: Query, limit: nat): seq<Event> {
    if log == [] || limit == 0 then []
    else if Matches(q, Last(log)) then [Last(log)] + Page(Front(log), q, limit - 1)
    else Page(Front(log), q, limit)
  }

  ghost predicate Descending(rows: seq<Event>) {
    forall i, j :: 0 <= i < j < |rows| ==> rows[i].id > rows[j].id
  }

  /** The row is on the page, or lies behind a full page. */
  ghost predicate OnOrBehind(e: Event, page: seq<Event>, limit: nat) {
    e in page || (|page| == limit && (limit > 0 ==> e.id < page[limit - 1].id))
  }

  lemma {:induction false} PageIsOrdered(log: seq<Event>, q: Query, limit: nat)
    requires Ascending(log)
    ensures |Page(log, q, limit)| <= limit
    ensures Descending(Page(log, q, limit))
    ensures forall e :: e in Page(log, q, limit) ==> e in log && Matches(q, e)
  {
    hide Matches;
    if log != [] && limit > 0 {
      var front, last := Front(log), Last(log);
      var rest := Page(front, q, if Matches(q, last) then limit - 1 else limit);
      assert log == front + [last];
      PageIsOrdered(front, q, if Matches(q, last) then limit - 1 else limit);
      forall i | 0 <= i < |rest| ensures rest[i].id < last.id {
        assert rest[i] in rest && rest[i] in front;
      }
    }
  }

  /** A page holds the newest matching rows: a match it lacks lies behind a full page. */
  lemma {:induction false} PageIsNewest(log: seq<Event>, q: Query, limit: nat, e: Event)
    requires Ascending(log)
    requires e in log && Matches(q, e)
    ensures OnOrBehind(e, Page(log, q, limit), limit)
  {
    if limit > 0 {
      var front, last := Front(log), Last(log);
      assert log == front + [last];
      PageIsOrdered(log, q, limit);
      if e != last {
        assert e in front && e.id < last.id;
        PageIsNewest(front, q, if Matches(q, last) then limit - 1 else limit, e);
      }
    }
  }

  datatype Walk = Walk(
    world: World,
    cursor: Option<nat>,
    pending: Option<seq<Event>>,
    returned: seq<Event>,
    flagged: bool,
    done: bool)

  datatype Move = Background(op: Op) | ReadRows | ReadEvidence

  function At(q: Query, cursor: Option<nat>): Query {
    q.(beforeId := if cursor.Some? then Some(cursor.value) else None)
  }

  ghost function Begin(world: World): Walk { Walk(world, None, None, [], false, false) }

  ghost function Next(w: Walk, q: Query, limit: nat, move: Move): Walk {
    match move
    case Background(op) => w.(world := Step(w.world, op))
    case ReadRows =>
      if w.done || w.pending.Some? then w
      else w.(pending := Some(Page(w.world.log, At(q, w.cursor), limit)))
    case ReadEvidence =>
      if w.pending.None? then w
      else
        var rows := w.pending.value;
        var full := |rows| == limit && limit > 0;
        w.(pending := None,
           returned := w.returned + rows,
           flagged := w.flagged || Incomplete(At(q, w.cursor), w.world.scopes, w.world.legacy),
           cursor := if full then Some(rows[limit - 1].id) else None,
           done := !full)
  }

  ghost function Walked(world: World, q: Query, limit: nat, moves: seq<Move>): Walk {
    if moves == [] then Begin(world)
    else Next(Walked(world, q, limit, moves[..|moves| - 1]), q, limit, moves[|moves| - 1])
  }

  // ---- the invariant of a walk ----

  ghost predicate Before(e: Event, cursor: Option<nat>) { cursor.Some? ==> e.id < cursor.value }

  ghost predicate Ordered(w: Walk, q: Query, limit: nat) {
    && Descending(w.returned)
    && (forall e :: e in w.returned ==> Matches(q, e))
    && (!w.done && w.cursor.None? ==> w.returned == [])
    && (w.cursor.Some? ==> w.cursor.value >= 1 && forall e :: e in w.returned ==> e.id >= w.cursor.value)
    && (w.pending.Some? ==>
          && !w.done
          && Descending(w.pending.value)
          && |w.pending.value| <= limit
          && forall e :: e in w.pending.value ==> e.id >= 1 && Matches(q, e) && Before(e, w.cursor))
  }

  /** The row is already returned, owned up to, or still ahead of the walk. */
  ghost predicate Accounted(w: Walk, limit: nat, e: Event) {
    || e in w.returned
    || w.flagged
    || (&& !w.done
        && Before(e, w.cursor)
        && (e in w.world.log || e in w.world.evicted)
        && (w.pending.Some? && e !in w.world.evicted ==> OnOrBehind(e, w.pending.value, limit)))
  }

  ghost predicate WalkInv(w: Walk, start: World, q: Query, limit: nat) {
    && Inv(w.world)
    && Ordered(w, q, limit)
    && forall e :: e in start.log && Matches(q, e) ==> Accounted(w, limit, e)
  }

  lemma {:induction false} StepKeepsRow(w: World, op: Op, e: Event)
    requires IdsFresh(w)
    requires e in w.log
    ensures e in Step(w, op).log || e in Step(w, op).evicted
  {
    if op.Evict? {
      var rows := Telemetry(w.log);
      var doomed := Doomed(rows, op.budget);
      if Total(rows) > op.budget && e.id in Ids(doomed) {
        var f :| f in doomed && f.id == e.id;
        assert f in rows;
        SameIdSameRow(w.log, e, f);
      }
    }
  }

  lemma {:induction false} PageFitsCursor(world: World, q: Query, cursor: Option<nat>, limit: nat)
    requires IdsFresh(world) && q.beforeId.None?
    ensures forall e :: e in Page(world.log, At(q, cursor), limit) ==> e.id >= 1 && Matches(q, e) && Before(e, cursor)
  {
    PageIsOrdered(world.log, At(q, cursor), limit);
  }

  /** Appending a page below the cursor keeps the whole answer strictly descending. */
  lemma {:induction false} PageAppends(returned: seq<Event>, rows: seq<Event>, cursor: Option<nat>, limit: nat)
    requires limit >= 1
    requires Descending(returned) && Descending(rows) && |rows| <= limit
    requires if cursor.None? then returned == [] else forall e :: e in returned ==> e.id >= cursor.value
    requires forall e :: e in rows ==> Before(e, cursor)
    ensures Descending(returned + rows)
    ensures |rows| == limit ==> forall e :: e in returned + rows ==> e.id >= rows[limit - 1].id
  {
    forall i, j | 0 <= i < |returned| && 0 <= j < |rows| ensures returned[i].id > rows[j].id {
      assert returned[i] in returned && rows[j] in rows;
    }
    if |rows| == limit {
      forall e | e in returned + rows ensures e.id >= rows[limit - 1].id {
        if e in rows {
          var i :| 0 <= i < |rows| && rows[i] == e;
          assert i < limit - 1 ==> rows[i].id > rows[limit - 1].id;
        }
      }
    }
  }

  lemma {:induction false} MoveKeepsOrder(w: Walk, q: Query, limit: nat, move: Move)
    requires limit >= 1
    requires IdsFresh(w.world) && Ordered(w, q, limit)
    requires q.beforeId.None?
    ensures Ordered(Next(w, q, limit, move), q, limit)
  {
    hide Matches, Page, Incomplete, Step;
    match move
    case Background(op) =>
    case ReadRows =>
      PageIsOrdered(w.world.log, At(q, w.cursor), limit);
      PageFitsCursor(w.world, q, w.cursor, limit);
    case ReadEvidence =>
      if w.pending.Some? {
        PageAppends(w.returned, w.pending.value, w.cursor, limit);
      }
  }

  lemma {:induction false} MoveAccounts(w: Walk, q: Query, limit: nat, move: Move, e: Event)
    requires limit >= 1
    requires Inv(w.world) && Ordered(w, q, limit)
    requires q.beforeId.None? && Matches(q, e)
    requires Accounted(w, limit, e)
    ensures Accounted(Next(w, q, limit, move), limit, e)
  {
    match move
    case Background(op) =>
      if e in w.world.log {
        StepKeepsRow(w.world, op, e);
      }
    case ReadRows =>
      if !w.done && Before(e, w.cursor) && e in w.world.log {
        PageIsNewest(w.world.log, At(q, w.cursor), limit, e);
      }
    case ReadEvidence =>
      if w.pending.Some? && e in w.world.evicted && Before(e, w.cursor) {
        SoundAnswer(w.world, At(q, w.cursor), e);
      }
  }

  lemma {:induction false} WalkKeepsInv(start: World, q: Query, limit: nat, moves: seq<Move>)
    requires limit >= 1 && Inv(start) && q.beforeId.None?
    ensures WalkInv(Walked(start, q, limit, moves), start, q, limit)
  {
    if moves != [] {
      var w, move := Walked(start, q, limit, moves[..|moves| - 1]), moves[|moves| - 1];
      WalkKeepsInv(start, q, limit, moves[..|moves| - 1]);
      if move.Background? {
        StepKeepsIds(w.world, move.op);
        StepKeepsSound(w.world, move.op);
      }
      MoveKeepsOrder(w, q, limit, move);
      forall e | e in start.log && Matches(q, e) ensures Accounted(Next(w, q, limit, move), limit, e) {
        MoveAccounts(w, q, limit, move, e);
      }
    }
  }

  /**
   A finished walk is complete or admits it: unless some page reported an
   eviction, every matching row present at the start was returned; the rows
   returned all match and descend strictly, so none is returned twice.
   */
  lemma {:induction false} WalkIsCompleteOrFlagged(start: World, q: Query, limit: nat, moves: seq<Move>)
    requires limit >= 1 && Inv(start) && q.beforeId.None?
    requires Walked(start, q, limit, moves).done
    ensures
      var w := Walked(start, q, limit, moves);
      && (w.flagged || forall e :: e in start.log && Matches(q, e) ==> e in w.returned)
      && Descending(w.returned)
      && forall e :: e in w.returned ==> Matches(q, e)
  {
    WalkKeepsInv(start, q, limit, moves);
    var w := Walked(start, q, limit, moves);
    forall e | e in start.log && Matches(q, e) && !w.flagged ensures e in w.returned {
      assert Accounted(w, limit, e);
    }
  }

  /** Every page either ends the walk or strictly lowers a cursor that stays positive. */
  lemma {:induction false} CursorDescends(start: World, q: Query, limit: nat, moves: seq<Move>)
    requires limit >= 1 && Inv(start) && q.beforeId.None?
    requires Walked(start, q, limit, moves).pending.Some?
    ensures
      var w := Walked(start, q, limit, moves);
      var next := Next(w, q, limit, ReadEvidence);
      || next.done
      || (&& next.cursor.Some? && 1 <= next.cursor.value
          && (w.cursor.Some? ==> next.cursor.value < w.cursor.value))
  {
    WalkKeepsInv(start, q, limit, moves);
    var w := Walked(start, q, limit, moves);
    if |w.pending.value| == limit {
      assert w.pending.value[limit - 1] in w.pending.value;
    }
  }
}
