/**
 Whole runs of the event cache: rows arrive, telemetry is evicted, in any
 order and any number of times. `evicted` is the history the cache itself no
 longer has: every row ever deleted.
 */
module EvictionRuns {
  import opened Prelude
  import opened Events
  import opened Eviction

  datatype World = World(log: seq<Event>, nextId: nat, scopes: Scopes, legacy: Option<Legacy>, evicted: set<Event>)

  datatype Op = Arrive(e: Event) | Evict(budget: int)

  const FRESH := World([], 1, map[], None, {})

  function AsSet(rows: seq<Event>): set<Event> { set e | e in rows }

  ghost function Step(w: World, op: Op): World {
    match op
    case Arrive(e) => w.(log := w.log + [e.(id := w.nextId)], nextId := w.nextId + 1)
    case Evict(budget) =>
      var rows := Telemetry(w.log);
      if Total(rows) <= budget then w
      else
        var doomed := Doomed(rows, budget);
        w.(log := Without(w.log, Ids(doomed)), scopes := Recorded(w.scopes, doomed),
           evicted := w.evicted + AsSet(doomed))
  }

  ghost function Run(w: World, ops: seq<Op>): World {
    if ops == [] then w else Step(Run(w, ops[..|ops| - 1]), ops[|ops| - 1])
  }

  ghost predicate IdsFresh(w: World) {
    && w.nextId >= 1
    && Ascending(w.log)
    && (forall e :: e in w.log ==> 1 <= e.id < w.nextId)
    && (forall e :: e in w.evicted ==> 1 <= e.id < w.nextId)
    && (forall e, f :: e in w.evicted && f in w.log ==> e.id != f.id)
  }

  ghost predicate Sound(w: World) {
    && (forall e :: e in w.evicted ==> Covered(w.scopes, w.legacy, e))
    && (forall k :: k in w.scopes ==> Precise(k, w.scopes[k], w.evicted))
  }

  /** What any cache the code can open satisfies; migrated scope rows carry no samples. */
  ghost predicate Inv(w: World) { IdsFresh(w) && Sound(w) }

  lemma {:induction false} StepKeepsIds(w: World, op: Op)
    requires IdsFresh(w)
    ensures IdsFresh(Step(w, op))
  {
    match op
    case Arrive(e) =>
      assert forall f :: f in Step(w, op).log ==> f in w.log || f == e.(id := w.nextId);
    case Evict(budget) =>
      var doomed := Doomed(Telemetry(w.log), budget);
      WithoutAscends(w.log, Ids(doomed));
      assert forall e :: e in doomed ==> e in Telemetry(w.log);
  }

  lemma {:induction false} StepKeepsSound(w: World, op: Op)
    requires Sound(w)
    ensures Sound(Step(w, op))
  {
    if op.Evict? && Total(Telemetry(w.log)) > op.budget {
      var doomed := Doomed(Telemetry(w.log), op.budget);
      var next := Step(w, op);
      forall e | e in next.evicted ensures Covered(next.scopes, next.legacy, e) {
        if e in doomed {
          RecordedCoversBatch(w.scopes, w.legacy, doomed, e);
        } else {
          RecordedKeepsCover(w.scopes, w.legacy, doomed, e);
        }
      }
      assert forall e :: e in doomed ==> e in Telemetry(w.log);
      forall k | k in next.scopes ensures Precise(k, next.scopes[k], next.evicted) {
        RecordedIsPrecise(w.scopes, doomed, w.evicted, k);
      }
    }
  }

  lemma {:induction false} RunKeepsInv(w: World, ops: seq<Op>)
    requires Inv(w)
    ensures Inv(Run(w, ops))
  {
    if ops != [] {
      RunKeepsInv(w, ops[..|ops| - 1]);
      StepKeepsIds(Run(w, ops[..|ops| - 1]), ops[|ops| - 1]);
      StepKeepsSound(Run(w, ops[..|ops| - 1]), ops[|ops| - 1]);
    }
  }

  /** In a sound cache, a query that some evicted row satisfied is reported incomplete. */
  lemma {:induction false} SoundAnswer(w: World, q: Query, e: Event)
    requires Sound(w)
    requires e in w.evicted && Matches(q, e)
    ensures Incomplete(q, w.scopes, w.legacy)
  {
    if LegacyCovers(w.legacy, e) {
      assert LegacyMayMatch(q, w.legacy);
    } else {
      var k :| k in w.scopes && Covers(k, w.scopes[k], e);
      if w.scopes[k].complete {
        assert SampleMatches(q, SampleOf(e));
      }
      assert RowMayMatch(q, k, w.scopes[k]);
    }
  }

  /** Eviction evidence is sound over whole runs, for every query. */
  lemma {:induction false} EvidenceIsSound(w: World, ops: seq<Op>, q: Query, e: Event)
    requires Inv(w)
    requires e in Run(w, ops).evicted && Matches(q, e)
    ensures Incomplete(q, Run(w, ops).scopes, Run(w, ops).legacy)
  {
    RunKeepsInv(w, ops);
    SoundAnswer(Run(w, ops), q, e);
  }

  lemma {:induction false} StepIsMonotone(w: World, op: Op, q: Query)
    requires Sound(w)
    requires Incomplete(q, w.scopes, w.legacy)
    ensures Incomplete(q, Step(w, op).scopes, Step(w, op).legacy)
  {
    if op.Evict? && Total(Telemetry(w.log)) > op.budget {
      RecordedIsMonotone(w.scopes, w.legacy, Doomed(Telemetry(w.log), op.budget), w.evicted, q);
    }
  }

  /** A query once reported incomplete stays incomplete, whatever is evicted later. */
  lemma {:induction false} EvidenceIsMonotone(w: World, ops: seq<Op>, q: Query)
    requires Inv(w)
    requires Incomplete(q, w.scopes, w.legacy)
    ensures Incomplete(q, Run(w, ops).scopes, Run(w, ops).legacy)
  {
    if ops != [] {
      EvidenceIsMonotone(w, ops[..|ops| - 1], q);
      RunKeepsInv(w, ops[..|ops| - 1]);
      StepIsMonotone(Run(w, ops[..|ops| - 1]), ops[|ops| - 1], q);
    }
  }

  ghost predicate AllComplete(w: World) {
    w.legacy.None? && forall k :: k in w.scopes ==> w.scopes[k].complete
  }

  /** A row as the evidence sees it: a NULL node or component reads as `''`. */
  predicate MatchesKeyed(q: Query, e: Event) {
    && (q.kind.Some? ==> e.kind == q.kind.value)
    && (q.node.Some? ==> OrEmpty(e.node) == q.node.value)
    && (q.component.Some? ==> OrEmpty(e.component) == q.component.value)
    && (q.since.Some? ==> e.receivedAt >= q.since.value)
    && (q.beforeId.Some? ==> e.id < q.beforeId.value)
  }

  /** An empty filter names the NULL column of this row, which the read itself never returns for it. */
  predicate NullNamed(q: Query, e: Event) {
    (q.node == Some("") && e.node.None?) || (q.component == Some("") && e.component.None?)
  }

  lemma {:induction false} KeyedAnswer(w: World, q: Query, e: Event)
    requires Inv(w) && AllComplete(w) && e in w.evicted && MatchesKeyed(q, e)
    ensures Incomplete(q, w.scopes, w.legacy)
  {
    assert Covered(w.scopes, w.legacy, e);
    var k := KeyOf(e);
    assert RowMayMatch(q, k, w.scopes[k]);
  }

  /**
   While every scope has complete samples the answer is exact, for every query:
   incomplete if and only if some evicted row matches it column for column, NULL as `''`.
   */
  lemma {:induction false} EvidenceIsExact(w: World, ops: seq<Op>, q: Query)
    requires Inv(w) && AllComplete(Run(w, ops))
    ensures Incomplete(q, Run(w, ops).scopes, Run(w, ops).legacy)
       <==> exists e :: e in Run(w, ops).evicted && MatchesKeyed(q, e)
  {
    RunKeepsInv(w, ops);
    var now := Run(w, ops);
    if e :| e in now.evicted && MatchesKeyed(q, e) {
      KeyedAnswer(now, q, e);
    }
    if Incomplete(q, now.scopes, now.legacy) {
      var k :| k in now.scopes && RowMayMatch(q, k, now.scopes[k]);
      assert Precise(k, now.scopes[k], now.evicted);
      var s :| s in now.scopes[k].samples && SampleMatches(q, s);
      var e :| e in now.evicted && KeyOf(e) == k && SampleOf(e) == s;
      assert MatchesKeyed(q, e);
    }
  }

  lemma {:induction false} MatchIsKeyedAndNotNull(q: Query, e: Event)
    ensures Matches(q, e) <==> MatchesKeyed(q, e) && !NullNamed(q, e)
  {
  }

  /** A legacy watermark only adds doubt: for any window reaching back to it, or any at all when its time is unknown. */
  lemma {:induction false} LegacyAnswer(scopes: Scopes, latest: real, q: Query)
    ensures Incomplete(q, scopes, Some(Legacy(latest)))
       <==> q.since.None? || latest == 0.0 || q.since.value <= latest || Incomplete(q, scopes, None)
  {
  }

  /** The read and the evidence agree for non-empty filters: incomplete if and only if some evicted row matched. */
  lemma {:induction false} EvidenceIsExactForProperFilters(w: World, ops: seq<Op>, q: Query)
    requires Inv(w) && AllComplete(Run(w, ops)) && q.node != Some("") && q.component != Some("")
    ensures Incomplete(q, Run(w, ops).scopes, Run(w, ops).legacy)
       <==> exists e :: e in Run(w, ops).evicted && Matches(q, e)
  {
    EvidenceIsExact(w, ops, q);
    forall e | e in Run(w, ops).evicted ensures Matches(q, e) <==> MatchesKeyed(q, e) {
      MatchIsKeyedAndNotNull(q, e);
    }
  }

  /**
   Exactly when the answer over-reports, for every query: there are evicted rows
   it names with NULL as `''`, and in each of them an empty filter names a NULL column.
   */
  lemma {:induction false} EvidenceOverReportsIff(w: World, ops: seq<Op>, q: Query)
    requires Inv(w) && AllComplete(Run(w, ops))
    ensures
      var now := Run(w, ops);
      (Incomplete(q, now.scopes, now.legacy) && !exists e :: e in now.evicted && Matches(q, e))
      <==> && (exists e :: e in now.evicted && MatchesKeyed(q, e))
           && forall e :: e in now.evicted && MatchesKeyed(q, e) ==> NullNamed(q, e)
  {
    EvidenceIsExact(w, ops, q);
    forall e ensures Matches(q, e) <==> MatchesKeyed(q, e) && !NullNamed(q, e) {
      MatchIsKeyedAndNotNull(q, e);
    }
  }

  const NODELESS := Event(1, EVENT_ERROR, 5.0, "{}", None, None, None, None, None)

  lemma {:induction false} NodelessEvicted()
    ensures Step(Step(FRESH, Arrive(NODELESS)), Evict(1)) ==
      World([], 2, map[KeyOf(NODELESS) := ScopeRow(1, 1, 1, 5.0, [Sample(1, 5.0)], true)], None, {NODELESS})
  {
    var e, k := NODELESS, KeyOf(NODELESS);
    var w := Step(FRESH, Arrive(e));
    assert w.log == [e] && Front([e]) == [] && Last([e]) == e && [e][1..] == [];
    assert Telemetry([e]) == [e] by { assert Telemetry([]) == []; }
    assert Total([e]) == 2 by { assert Total([]) == 0; }
    assert Doomed([e], 1) == [e] by { assert Doomed([], 1) == []; }
    var none := Tallies([]);
    assert none == map[];
    var t := AddRow(TallyOrNew(none, e), e);
    assert t == Tally(1, 1, 1, 5.0, [Sample(1, 5.0)]);
    assert Tallies([e]) == none[k := t] == map[k := t];
    assert FRESH.scopes.Keys + Tallies([e]).Keys == {k};
    assert Merged(None, t) == ScopeRow(1, 1, 1, 5.0, [Sample(1, 5.0)], true);
    assert Recorded(FRESH.scopes, [e]) == map[k := Merged(None, t)];
    assert Without([e], Ids([e])) == [] by { assert e.id in Ids([e]); assert Without([], Ids([e])) == []; }
    assert AsSet([e]) == {e};
  }

  /** A witness: node `''` names the one evicted row, which has no node and is never returned. */
  lemma {:induction false} EmptyFilterOverReports(q: Query)
    requires q == Query(None, Some(""), None, None, None)
    ensures
      var w := Step(Step(FRESH, Arrive(NODELESS)), Evict(1));
      AllComplete(w) && Incomplete(q, w.scopes, w.legacy) && !exists x :: x in w.evicted && Matches(q, x)
  {
    NodelessEvicted();
    var k := KeyOf(NODELESS);
    var row := ScopeRow(1, 1, 1, 5.0, [Sample(1, 5.0)], true);
    assert Sample(1, 5.0) in row.samples && SampleMatches(q, Sample(1, 5.0));
    assert RowMayMatch(q, k, row);
  }

  // ---- conservation and bounds over runs ----

  lemma {:induction false} AscendingCardinality(rows: seq<Event>)
    requires Ascending(rows)
    ensures |AsSet(rows)| == |rows|
  {
    if rows != [] {
      AscendingCardinality(Front(rows));
      assert AsSet(rows) == AsSet(Front(rows)) + {Last(rows)};
      assert Last(rows) !in AsSet(Front(rows));
    }
  }

  ghost predicate Bounded(scopes: Scopes) {
    |scopes| <= EVICTION_SCOPE_CAP && SamplesBounded(scopes)
  }

  lemma {:induction false} StepConserves(w: World, op: Op)
    requires IdsFresh(w) && Bounded(w.scopes)
    ensures Bounded(Step(w, op).scopes)
    ensures EvictedCount(Step(w, op).scopes) - EvictedCount(w.scopes) == |Step(w, op).evicted| - |w.evicted|
  {
    if op.Evict? && Total(Telemetry(w.log)) > op.budget {
      var rows := Telemetry(w.log);
      var doomed := Doomed(rows, op.budget);
      RecordedIsBounded(w.scopes, doomed);
      RecordedCounts(w.scopes, doomed);
      TelemetryAscends(w.log);
      AscendingCardinality(doomed);
      assert forall e :: e in doomed ==> e in rows;
      assert w.evicted !! AsSet(doomed);
    }
  }

  /** From a fresh cache the evidence stays bounded, and its counts sum to the rows ever evicted. */
  lemma {:induction false} EvidenceConservesCounts(ops: seq<Op>)
    ensures Inv(Run(FRESH, ops))
    ensures Bounded(Run(FRESH, ops).scopes)
    ensures EvictedCount(Run(FRESH, ops).scopes) == |Run(FRESH, ops).evicted|
  {
    RunKeepsInv(FRESH, ops);
    if ops == [] {
      assert Counts(FRESH.scopes) == map[];
    } else {
      var before := Run(FRESH, ops[..|ops| - 1]);
      EvidenceConservesCounts(ops[..|ops| - 1]);
      StepConserves(before, ops[|ops| - 1]);
    }
  }

  /** Eviction never touches a claim: no run of evictions changes which claims are live. */
  lemma {:induction false} EvictionKeepsClaims(w: World, budget: int, repo: string, issue: int)
    requires IdsFresh(w)
    ensures Live(Step(w, Evict(budget)).log, repo, issue) == Live(w.log, repo, issue)
    ensures forall e :: e in w.log && !Evictable(e) ==> e in Step(w, Evict(budget)).log
  {
    var rows := Telemetry(w.log);
    if Total(rows) > budget {
      var doomed := Doomed(rows, budget);
      assert forall e :: e in doomed ==> e in rows;
      forall e | e in w.log && e.id in Ids(doomed) ensures Evictable(e) {
        var f :| f in doomed && f.id == e.id;
        SameIdSameRow(w.log, e, f);
      }
      WithoutKeepsRuns(w.log, Ids(doomed), Some(repo), issue);
    }
  }

  lemma {:induction false} SameIdSameRow(log: seq<Event>, e: Event, f: Event)
    requires Ascending(log) && e in log && f in log && e.id == f.id
    ensures e == f
  {
    var i :| 0 <= i < |log| && log[i] == e;
    var j :| 0 <= j < |log| && log[j] == f;
    assert i == j;
  }

  /** The fold must meet an unknown lower bound last: met first, the next scope overwrites it. */
  function FoldFirst(firsts: seq<nat>): nat {
    if firsts == [] then 0
    else
      var before := FoldFirst(firsts[..|firsts| - 1]);
      var id := firsts[|firsts| - 1];
      if before == 0 then id else Min(before, id)
  }

  /** An unknown bound (0) absorbs exactly when nothing known follows it. */
  lemma {:induction false} UnknownAbsorbsOnlyLast(known: seq<nat>, more: seq<nat>)
    requires forall i :: 0 <= i < |known| ==> known[i] > 0
    requires forall i :: 0 <= i < |more| ==> more[i] > 0
    ensures FoldFirst(known + [0] + more) == 0 <==> more == []
  {
    var all := known + [0] + more;
    if more == [] {
      assert all[..|all| - 1] == known;
    } else {
      var shorter := more[..|more| - 1];
      assert all[..|all| - 1] == known + [0] + shorter;
      UnknownAbsorbsOnlyLast(known, shorter);
    }
  }

  // ---- what an eviction takes ----

  predicate IsTelemetry(e: Event) { e.kind == "theozolith.run.progress" || e.kind == "theozolith.error" }

  /** The payload bytes of the telemetry in the log. */
  function Bytes(log: seq<Event>): nat {
    if log == [] then 0
    else Bytes(log[..|log| - 1]) + if IsTelemetry(log[|log| - 1]) then |log[|log| - 1].payload| else 0
  }

  lemma {:induction false} TotalGrows(rows: seq<Event>, e: Event)
    ensures Total(rows + [e]) == Total(rows) + |e.payload|
  {
    if rows != [] {
      assert (rows + [e])[1..] == rows[1..] + [e];
      TotalGrows(rows[1..], e);
    } else {
      assert rows + [e] == [e] && [e][1..] == [];
    }
  }

  lemma {:induction false} TotalIsBytes(log: seq<Event>)
    ensures Total(Telemetry(log)) == Bytes(log)
  {
    if log != [] {
      TotalIsBytes(Front(log));
      TotalGrows(Telemetry(Front(log)), Last(log));
    }
  }

  lemma {:induction false} TelemetryWithout(log: seq<Event>, ids: set<nat>)
    ensures Telemetry(Without(log, ids)) == Without(Telemetry(log), ids)
  {
    if log != [] {
      var front, e := Front(log), Last(log);
      TelemetryWithout(front, ids);
      assert Front(Without(front, ids) + [e]) == Without(front, ids);
      assert Front(Telemetry(front) + [e]) == Telemetry(front);
    }
  }

  lemma {:induction false} WithoutAll(rows: seq<Event>, ids: set<nat>)
    requires forall e :: e in rows ==> e.id in ids
    ensures Without(rows, ids) == []
  {
    if rows != [] {
      assert rows == Front(rows) + [Last(rows)];
      WithoutAll(Front(rows), ids);
    }
  }

  lemma {:induction false} WithoutLast(rows: seq<Event>, ids: set<nat>)
    requires rows != [] && Last(rows).id !in ids
    ensures Without(rows, ids) == Without(rows[..|rows| - 1], ids) + [rows[|rows| - 1]]
  {
  }

  lemma {:induction false} WithoutPrefix(rows: seq<Event>, n: nat)
    requires Ascending(rows) && n <= |rows|
    ensures Without(rows, Ids(rows[..n])) == rows[n..]
    decreases |rows|
  {
    if n == |rows| {
      assert rows[..n] == rows;
      WithoutAll(rows, Ids(rows));
    } else {
      var front, e := Front(rows), Last(rows);
      assert front[..n] == rows[..n];
      WithoutPrefix(front, n);
      forall f | f in rows[..n] ensures f.id != e.id {
        var i :| 0 <= i < n && rows[i] == f;
      }
      assert e.id !in Ids(rows[..n]);
      WithoutLast(rows, Ids(rows[..n]));
      hide *;
      assert rows[n..] == rows[..|rows| - 1][n..] + [rows[|rows| - 1]];
    }
  }

  /** The log splits into what was kept and what is gone, telemetry only. */
  ghost predicate TakenFrom(log: seq<Event>, kept: seq<Event>, gone: set<Event>) {
    && (forall e :: e in log ==> (e in kept <==> e !in gone))
    && forall e :: e in gone ==> e in log && IsTelemetry(e)
  }

  ghost predicate OldestFirst(log: seq<Event>, gone: set<Event>) {
    forall e, f :: e in gone && f in log && IsTelemetry(f) && f.id < e.id ==> f in gone
  }

  lemma {:induction false} DoomedAreLogged(log: seq<Event>, budget: int)
    ensures forall e :: e in Doomed(Telemetry(log), budget) ==> e in log && IsTelemetry(e)
  {
    var rows := Telemetry(log);
    assert Doomed(rows, budget) <= rows;
    hide Doomed, Telemetry;
    assert forall e :: e in Doomed(rows, budget) ==> e in rows;
  }

  lemma {:induction false} EvictedRows(w: World, budget: int)
    requires IdsFresh(w) && Total(Telemetry(w.log)) > budget
    ensures
      var t, doomed := Step(w, Evict(budget)), Doomed(Telemetry(w.log), budget);
      && t == World(Without(w.log, Ids(doomed)), w.nextId, t.scopes, w.legacy, w.evicted + AsSet(doomed))
      && t.evicted - w.evicted == AsSet(doomed)
      && TakenFrom(w.log, t.log, AsSet(doomed))
  {
    DoomedAreLogged(w.log, budget);
    var doomed := Doomed(Telemetry(w.log), budget);
    TakenByIds(w.log, doomed);
    NewToEvicted(w, doomed);
    hide Doomed, Telemetry, IsTelemetry, Total, TakenFrom, Without, IdsFresh;
  }

  lemma {:induction false} TakenByIds(log: seq<Event>, doomed: seq<Event>)
    requires Ascending(log) && forall e :: e in doomed ==> e in log && IsTelemetry(e)
    ensures TakenFrom(log, Without(log, Ids(doomed)), AsSet(doomed))
  {
    forall e | e in log && e.id in Ids(doomed) ensures e in doomed {
      var f :| f in doomed && f.id == e.id;
      SameIdSameRow(log, e, f);
    }
  }

  lemma {:induction false} NewToEvicted(w: World, doomed: seq<Event>)
    requires IdsFresh(w) && forall e :: e in doomed ==> e in w.log
    ensures (w.evicted + AsSet(doomed)) - w.evicted == AsSet(doomed)
  {
    assert AsSet(doomed) !! w.evicted;
  }

  /** The newest row evicted: without it the eviction would have stopped short. */
  predicate Newest(e: Event, rows: set<Event>) { e in rows && forall f :: f in rows ==> f.id <= e.id }

  lemma {:induction false} PrefixIsOldest(log: seq<Event>, n: nat)
    requires Ascending(log) && n <= |Telemetry(log)|
    ensures OldestFirst(log, AsSet(Telemetry(log)[..n]))
    ensures n == |Telemetry(log)| ==> forall e :: e in log && IsTelemetry(e) ==> e in AsSet(Telemetry(log)[..n])
  {
    var rows := Telemetry(log);
    assert rows[..|rows|] == rows;
    TelemetryAscends(log);
    hide Telemetry;
    forall e, f | e in AsSet(rows[..n]) && f in log && IsTelemetry(f) && f.id < e.id ensures f in AsSet(rows[..n]) {
      var i :| 0 <= i < n && rows[i] == e;
      var j :| 0 <= j < |rows| && rows[j] == f;
      assert rows[..n][j] == f;
    }
  }

  lemma {:induction false} NewestIsLast(rows: seq<Event>, n: nat, e: Event)
    requires Ascending(rows) && n <= |rows| && Newest(e, AsSet(rows[..n]))
    ensures n >= 1 && e == rows[n - 1]
  {
    var i :| 0 <= i < n && rows[..n][i] == e;
    assert rows[..n][n - 1] in AsSet(rows[..n]);
  }

  lemma {:induction false} BytesLeft(w: World, budget: int)
    requires IdsFresh(w) && Total(Telemetry(w.log)) > budget
    ensures
      var t, rows, n := Step(w, Evict(budget)), Telemetry(w.log), |Doomed(Telemetry(w.log), budget)|;
      && n <= |rows| && Doomed(rows, budget) == rows[..n] && Bytes(t.log) == Total(rows[n..])
      && (if budget >= 0 then Bytes(t.log) <= budget else n == |rows|)
      && (n >= 1 ==> Bytes(t.log) + |rows[n - 1].payload| > budget)
  {
    var rows, n := Telemetry(w.log), |Doomed(Telemetry(w.log), budget)|;
    EvictionIsMinimal(rows, budget);
    TelemetryAscends(w.log);
    TelemetryWithout(w.log, Ids(rows[..n]));
    WithoutPrefix(rows, n);
    TotalIsBytes(Without(w.log, Ids(rows[..n])));
    if n >= 1 {
      assert rows[n - 1..][1..] == rows[n..];
    }
  }

  /**
   An eviction deletes telemetry only, oldest first, until what is left fits a
   budget of at least 0, and not one row more; below 0 it deletes all of it.
   */
  lemma {:induction false} EvictionTakesOldestTelemetry(w: World, budget: int)
    requires IdsFresh(w)
    ensures
      var t := Step(w, Evict(budget));
      var gone := t.evicted - w.evicted;
      && TakenFrom(w.log, t.log, gone) && OldestFirst(w.log, gone)
      && (budget >= 0 ==> Bytes(t.log) <= budget)
      && (budget < 0 ==> forall e :: e in w.log && IsTelemetry(e) ==> e in gone)
      && forall e :: Newest(e, gone) ==> Bytes(t.log) + |e.payload| > budget
  {
    var rows := Telemetry(w.log);
    assert Ascending(w.log);
    if Total(rows) <= budget {
      TotalIsBytes(w.log);
      assert w.evicted - w.evicted == {};
    } else {
      var n := |Doomed(rows, budget)|;
      hide *;
      EvictedRows(w, budget);
      BytesLeft(w, budget);
      TelemetryAscends(w.log);
      PrefixIsOldest(w.log, n);
      forall e | Newest(e, AsSet(rows[..n])) ensures n >= 1 && e == rows[n - 1] {
        NewestIsLast(rows, n, e);
      }
    }
  }
}
