/**
 The event cache as the store keeps it: tables updated in place, one
 transaction per method. Each method is proved against the functions of
 Eviction and EvictionRuns.
 */
module EventStore {
  import opened Prelude
  import opened Events
  import opened Eviction
  import opened EvictionRuns
  import opened CursorWalk

  const EVENTS_PAGE_MAX: nat := 500

  // ---- folding the scopes of a batch in dictionary order ----

  ghost predicate Enumerates<K(!new), V>(order: seq<K>, m: map<K, V>) {
    && (forall k :: k in order <==> k in m)
    && (forall i, j :: 0 <= i < j < |order| ==> order[i] != order[j])
  }

  function Fold(ts: seq<Tally>): Tally {
    if ts == [] then Tally(0, 0, 0, 0.0, [])
    else
      var before, t := Fold(ts[..|ts| - 1]), ts[|ts| - 1];
      Tally(before.count + t.count, if before.minId == 0 then t.minId else Min(before.minId, t.minId),
            Max(before.maxId, t.maxId), Later(before.maxReceived, t.maxReceived), [])
  }

  ghost predicate FoldBounds(f: Tally, ts: seq<Tally>) {
    && (forall t :: t in ts ==> f.minId <= t.minId && t.maxId <= f.maxId && t.maxReceived <= f.maxReceived)
    && (ts != [] ==> exists t :: t in ts && t.minId == f.minId)
    && (f.maxId == 0 || exists t :: t in ts && t.maxId == f.maxId)
    && f.maxReceived >= 0.0
    && (f.maxReceived == 0.0 || exists t :: t in ts && t.maxReceived == f.maxReceived)
  }

  lemma {:induction false} FoldIsBounds(ts: seq<Tally>)
    requires forall t :: t in ts ==> t.minId > 0
    ensures FoldBounds(Fold(ts), ts)
  {
    if ts != [] {
      var front, t := ts[..|ts| - 1], ts[|ts| - 1];
      assert ts == front + [t];
      FoldIsBounds(front);
      assert forall x :: x in front ==> x in ts;
      assert t in ts;
    }
  }

  function Values(order: seq<ScopeKey>, m: map<ScopeKey, Tally>): seq<Tally>
    requires forall k :: k in order ==> k in m
  {
    seq(|order|, i requires 0 <= i < |order| => m[order[i]])
  }

  lemma {:induction false} EnumerationDrops<V>(order: seq<ScopeKey>, m: map<ScopeKey, V>)
    requires Enumerates(order, m) && order != []
    ensures Enumerates(order[..|order| - 1], m - {order[|order| - 1]})
  {
    var front, k := order[..|order| - 1], order[|order| - 1];
    assert order == front + [k];
    forall j ensures j in front <==> j in m - {k} {
      if j in front {
        var i :| 0 <= i < |front| && front[i] == j;
        assert order[i] != order[|order| - 1];
      }
    }
  }

  lemma {:induction false} EnumerationGrows<V>(order: seq<ScopeKey>, m: map<ScopeKey, V>, k: ScopeKey, v: V)
    requires Enumerates(order, m)
    ensures Enumerates(if k in m then order else order + [k], m[k := v])
  {
    var more := if k in m then order else order + [k];
    assert forall i :: 0 <= i < |order| ==> order[i] in order;
    assert k in more;
  }

  lemma {:induction false} ValuesDrop(order: seq<ScopeKey>, m: map<ScopeKey, Tally>)
    requires Enumerates(order, m) && order != []
    ensures
      var front, k := order[..|order| - 1], order[|order| - 1];
      && Enumerates(front, m - {k})
      && Values(order, m) == Values(front, m - {k}) + [m[k]]
  {
    EnumerationDrops(order, m);
  }

  lemma {:induction false} FoldGrows(ts: seq<Tally>, t: Tally)
    ensures Fold(ts + [t]) == Fold([Fold(ts), t])
    ensures Fold(ts + [t]).count == Fold(ts).count + t.count
  {
    assert (ts + [t])[..|ts|] == ts;
    FoldNonNegative(ts);
    FoldOfTwo(Fold(ts), t);
  }

  lemma {:induction false} FoldCounts(order: seq<ScopeKey>, m: map<ScopeKey, Tally>)
    requires Enumerates(order, m)
    ensures Fold(Values(order, m)).count == Sum(TallyCounts(m))
    decreases |order|
  {
    if order == [] {
      assert TallyCounts(m).Keys == {};
      assert TallyCounts(m) == map[];
    } else {
      var front, k := order[..|order| - 1], order[|order| - 1];
      var rest := m - {k};
      ValuesDrop(order, m);
      FoldCounts(front, rest);
      FoldGrows(Values(front, rest), m[k]);
      hide Fold, Values, Enumerates;
      SumRemove(TallyCounts(m), k);
      assert TallyCounts(m) - {k} == TallyCounts(rest);
    }
  }

  /** The tally's extremes are those of rows of the batch. */
  ghost predicate TallyOfBatch(t: Tally, batch: seq<Event>) {
    && (exists e :: e in batch && e.id == t.minId)
    && (exists e :: e in batch && e.id == t.maxId)
    && (t.maxReceived == 0.0 || exists e :: e in batch && e.receivedAt == t.maxReceived)
  }

  lemma {:induction false} FoldCovers(order: seq<ScopeKey>, batch: seq<Event>, f: Tally, e: Event)
    requires Enumerates(order, Tallies(batch)) && e in batch
    requires FoldBounds(f, Values(order, Tallies(batch)))
    ensures f.minId <= e.id <= f.maxId && e.receivedAt <= f.maxReceived
  {
    TallyHolds(batch, e);
    var ts := Values(order, Tallies(batch));
    var i :| 0 <= i < |order| && order[i] == KeyOf(e);
    assert ts[i] in ts;
  }

  lemma {:induction false} FoldStaysInBatch(order: seq<ScopeKey>, batch: seq<Event>, f: Tally)
    requires Enumerates(order, Tallies(batch)) && batch != []
    requires FoldBounds(f, Values(order, Tallies(batch)))
    ensures exists e :: e in batch && e.id == f.minId
    ensures f.maxId == 0 || exists e :: e in batch && e.id == f.maxId
    ensures f.maxReceived >= 0.0 && (f.maxReceived == 0.0 || exists e :: e in batch && e.receivedAt == f.maxReceived)
  {
    var ts := Values(order, Tallies(batch));
    forall t | t in ts ensures TallyOfBatch(t, batch) {
      var i :| 0 <= i < |ts| && ts[i] == t;
      TallyComesFrom(batch, order[i]);
    }
    assert ts != [] by {
      TallyHolds(batch, Last(batch));
    }
  }

  lemma {:induction false} BoundsAreBatch(batch: seq<Event>, f: Tally)
    requires batch != []
    requires forall e :: e in batch ==> f.minId <= e.id <= f.maxId && e.receivedAt <= f.maxReceived
    requires exists e :: e in batch && e.id == f.minId
    requires f.maxId == 0 || exists e :: e in batch && e.id == f.maxId
    requires f.maxReceived >= 0.0 && (f.maxReceived == 0.0 || exists e :: e in batch && e.receivedAt == f.maxReceived)
    ensures f.minId == BatchMin(batch) && f.maxId == BatchMax(batch) && f.maxReceived == BatchLatest(batch)
  {
    hide BatchMin, BatchMax, BatchLatest;
    assert f.maxId == BatchMax(batch);
    assert f.maxReceived == BatchLatest(batch);
  }

  /** Folding the scopes of a batch, in any order, gives the bounds of the batch. */
  lemma {:induction false} FoldIsBatch(order: seq<ScopeKey>, batch: seq<Event>)
    requires Enumerates(order, Tallies(batch))
    requires forall e :: e in batch ==> e.id >= 1
    ensures
      var f := Fold(Values(order, Tallies(batch)));
      && f.count == |batch| && f.samples == []
      && f.minId == (if batch == [] then 0 else BatchMin(batch))
      && f.maxId == BatchMax(batch) && f.maxReceived == BatchLatest(batch)
  {
    var f := Fold(Values(order, Tallies(batch)));
    FoldCounts(order, Tallies(batch));
    TalliesCountBatch(batch);
    FoldNonNegative(Values(order, Tallies(batch)));
    if batch == [] {
      assert Tallies(batch) == map[];
      assert forall k :: k !in order;
    } else {
      forall t | t in Values(order, Tallies(batch)) ensures t.minId > 0 {
        var i :| 0 <= i < |order| && Tallies(batch)[order[i]] == t;
        TallyComesFrom(batch, order[i]);
      }
      FoldIsBounds(Values(order, Tallies(batch)));
      hide Fold, Values, Tallies, FoldBounds, BatchMin, BatchMax, BatchLatest;
      forall e | e in batch ensures f.minId <= e.id <= f.maxId && e.receivedAt <= f.maxReceived {
        FoldCovers(order, batch, f, e);
      }
      FoldStaysInBatch(order, batch, f);
      BoundsAreBatch(batch, f);
    }
  }

  // ---- the tables ----

  /** The row written for a scope: the wildcard is bounds-only. */
  function Written(k: ScopeKey, prior: Option<ScopeRow>, t: Tally): ScopeRow {
    var row := Merged(prior, t);
    if k == WILDCARD then row.(samples := [], complete := false) else row
  }

  lemma {:induction false} DoomedStep(rows: seq<Event>, i: nat, budget: int)
    requires i < |rows| && Total(rows[i..]) > budget
    ensures Total(rows[i..]) == |rows[i].payload| + Total(rows[i + 1..])
    ensures rows[..i] + Doomed(rows[i..], budget) == rows[..i + 1] + Doomed(rows[i + 1..], budget)
    ensures Ids(rows[..i + 1]) == Ids(rows[..i]) + {rows[i].id}
    ensures Tallies(rows[..i + 1])
         == Tallies(rows[..i])[KeyOf(rows[i]) := AddRow(TallyOrNew(Tallies(rows[..i]), rows[i]), rows[i])]
  {
    assert rows[..i + 1] == rows[..i] + [rows[i]];
    IdsGrow(rows[..i], rows[i]);
    TalliesGrow(rows[..i], rows[i]);
    hide Ids, Tallies;
    assert rows[i..][1..] == rows[i + 1..];
  }

  lemma {:induction false} IdsGrow(rows: seq<Event>, e: Event)
    ensures Ids(rows + [e]) == Ids(rows) + {e.id}
  {
    assert forall f :: f in rows + [e] <==> f in rows || f == e;
  }

  lemma {:induction false} TalliesGrow(rows: seq<Event>, e: Event)
    ensures Tallies(rows + [e]) == Tallies(rows)[KeyOf(e) := AddRow(TallyOrNew(Tallies(rows), e), e)]
  {
    assert Front(rows + [e]) == rows;
  }

  function Keys(order: seq<ScopeKey>): set<ScopeKey> { set k | k in order }

  ghost function WriteAll(prior: Scopes, ks: set<ScopeKey>, tallies: map<ScopeKey, Tally>): Scopes
    requires ks <= tallies.Keys
  {
    map k | k in prior.Keys + ks :: if k in ks then Written(k, Lookup(prior, k), tallies[k]) else prior[k]
  }

  /** The dictionary entry an absorbed table leaves for the wildcard. */
  function AbsorbedTally(b: Bounds): Tally {
    Tally(b.count, b.minId, b.maxId, Later(0.0, b.maxReceived), [])
  }

  lemma {:induction false} BatchLacksWildcard(batch: seq<Event>)
    requires forall e :: e in batch ==> Evictable(e)
    ensures WILDCARD !in Tallies(batch)
  {
    if WILDCARD in Tallies(batch) {
      TallyComesFrom(batch, WILDCARD);
    }
  }

  lemma {:induction false} FoldWithAbsorbed(order: seq<ScopeKey>, tallies: map<ScopeKey, Tally>, t: Tally)
    requires Enumerates(order, tallies) && WILDCARD !in tallies
    ensures Enumerates(order + [WILDCARD], tallies[WILDCARD := t])
    ensures Fold(Values(order + [WILDCARD], tallies[WILDCARD := t])) == Fold([Fold(Values(order, tallies)), t])
  {
    EnumerationGrows(order, tallies, WILDCARD, t);
    var more := order + [WILDCARD];
    assert more[..|order|] == order && tallies[WILDCARD := t] - {WILDCARD} == tallies;
    ValuesDrop(more, tallies[WILDCARD := t]);
    FoldGrows(Values(order, tallies), t);
  }

  lemma {:induction false} FoldNonNegative(ts: seq<Tally>)
    ensures Fold(ts).maxReceived >= 0.0 && Fold(ts).samples == []
  {
    if ts != [] { FoldNonNegative(ts[..|ts| - 1]); }
  }

  lemma {:induction false} FoldOfTwo(f: Tally, t: Tally)
    requires f.maxReceived >= 0.0
    ensures Fold([f, t]) == Tally(f.count + t.count, if f.minId == 0 then t.minId else Min(f.minId, t.minId),
                                  Max(f.maxId, t.maxId), Later(f.maxReceived, t.maxReceived), [])
  {
    assert [f, t][..1] == [f] && [f][..0] == [];
    assert Fold([]) == Tally(0, 0, 0, 0.0, []);
    assert Fold([f]) == f.(samples := []);
  }

  lemma {:induction false} FoldedRowWritten(prior: Scopes, batch: seq<Event>, f: Tally)
    requires f == Tally(|batch|, if batch == [] then 0 else BatchMin(batch), BatchMax(batch), BatchLatest(batch), [])
    requires forall e :: e in batch ==> e.id >= 1
    ensures prior == map[] ==> Written(WILDCARD, None, f) == FoldedRow(prior, batch)
    ensures prior.Keys == {WILDCARD} ==> Written(WILDCARD, Some(prior[WILDCARD]), f) == FoldedRow(prior, batch)
    ensures prior != map[] && prior.Keys != {WILDCARD} ==>
      Written(WILDCARD, None, Fold([f, AbsorbedTally(Absorbed(prior))])) == FoldedRow(prior, batch)
  {
    if prior.Keys == {WILDCARD} {
      assert prior - {WILDCARD} == map[];
    } else if prior != map[] {
      FoldOfTwo(f, AbsorbedTally(Absorbed(prior)));
    }
  }

  lemma {:induction false} WildcardWrite(base: Scopes, folded: Tally)
    requires base.Keys <= {WILDCARD}
    ensures WriteAll(base, {WILDCARD}, map[WILDCARD := folded])
         == map[WILDCARD := Written(WILDCARD, Lookup(base, WILDCARD), folded)]
  {
  }

  lemma {:induction false} WriteStep(prior: Scopes, order: seq<ScopeKey>, i: nat, tallies: map<ScopeKey, Tally>)
    requires i < |order| && Keys(order) <= tallies.Keys
    ensures Keys(order[..i]) <= tallies.Keys && Keys(order[..i + 1]) <= tallies.Keys && order[i] in tallies
    ensures WriteAll(prior, Keys(order[..i]), tallies)[order[i] := Written(order[i], Lookup(prior, order[i]), tallies[order[i]])]
         == WriteAll(prior, Keys(order[..i + 1]), tallies)
  {
    assert order[..i + 1] == order[..i] + [order[i]];
    assert order[i] in order;
    assert forall k :: k in order[..i + 1] ==> k in order;
    assert Keys(order[..i + 1]) == Keys(order[..i]) + {order[i]};
  }

  lemma {:induction false} SpreadWrite(prior: Scopes, batch: seq<Event>)
    requires !Collapses(prior, batch)
    requires forall e :: e in batch ==> Evictable(e)
    ensures WriteAll(prior, Tallies(batch).Keys, Tallies(batch)) == Recorded(prior, batch)
  {
    forall k | k in Tallies(batch) ensures k != WILDCARD {
      TallyComesFrom(batch, k);
    }
  }

  function ClampLimit(requested: int): (limit: nat)
    ensures 1 <= limit <= EVENTS_PAGE_MAX
  {
    if requested < 1 then 1 else if requested > EVENTS_PAGE_MAX then EVENTS_PAGE_MAX else requested
  }

  /** The step of a run, when there is something to evict. */
  ghost function Evicted(w: World, budget: int, batch: seq<Event>): (after: World)
    requires Total(Telemetry(w.log)) > budget && batch == Doomed(Telemetry(w.log), budget)
    ensures after == Step(w, Evict(budget))
    ensures after == World(Without(w.log, Ids(batch)), w.nextId, Recorded(w.scopes, batch), w.legacy, w.evicted + AsSet(batch))
    ensures forall e :: e in batch ==> e in w.log && Evictable(e)
  {
    assert forall e :: e in batch ==> e in Telemetry(w.log);
    w.(log := Without(w.log, Ids(batch)), scopes := Recorded(w.scopes, batch), evicted := w.evicted + AsSet(batch))
  }

  class EventStore {
    var events: seq<Event>
    var nextId: nat
    var scopes: Scopes
    var legacy: Option<Legacy>
    ghost var evicted: set<Event>

    ghost function Snapshot(): World
      reads this
    {
      World(events, nextId, scopes, legacy, evicted)
    }

    constructor ()
      ensures Snapshot() == FRESH
    {
      events, nextId, scopes, legacy, evicted := [], 1, map[], None, {};
    }

    method RecordEvent(e: Event)
      modifies this
      ensures Snapshot() == Step(old(Snapshot()), Arrive(e))
    {
      events := events + [e.(id := nextId)];
      nextId := nextId + 1;
    }

    /** Deletes the oldest telemetry past the budget and records the evidence in the same transaction. */
    method EvictProgress(budget: int) returns (count: nat)
      requires IdsFresh(Snapshot())
      modifies this
      ensures Snapshot() == Step(old(Snapshot()), Evict(budget))
      ensures count == if Total(Telemetry(old(events))) <= budget then 0 else |Doomed(Telemetry(old(events)), budget)|
    {
      var rows := Telemetry(events);
      if Total(rows) <= budget {
        return 0;
      }
      var doomed, order, tallies, n := ChooseDoomed(rows, budget);
      ghost var batch := Doomed(rows, budget);
      ghost var after := Evicted(Snapshot(), budget, batch);
      events := Without(events, doomed);
      evicted := evicted + AsSet(batch);
      RecordEvictionScopes(order, tallies, batch);
      count := n;
    }

    /** The scan of the evictable rows, oldest first, until the excess is gone. */
    method ChooseDoomed(rows: seq<Event>, budget: int)
      returns (doomed: set<nat>, order: seq<ScopeKey>, tallies: map<ScopeKey, Tally>, n: nat)
      requires Total(rows) > budget
      ensures doomed == Ids(Doomed(rows, budget)) && n == |Doomed(rows, budget)|
      ensures tallies == Tallies(Doomed(rows, budget)) && Enumerates(order, tallies)
    {
      var excess := Total(rows) - budget;
      doomed, order, tallies, n := {}, [], map[], 0;
      while n < |rows|
        invariant n <= |rows|
        invariant excess == Total(rows[n..]) - budget && excess > 0
        invariant Doomed(rows, budget) == rows[..n] + Doomed(rows[n..], budget)
        invariant doomed == Ids(rows[..n])
        invariant tallies == Tallies(rows[..n]) && Enumerates(order, tallies)
      {
        var row := rows[n];
        DoomedStep(rows, n, budget);
        EnumerationGrows(order, tallies, KeyOf(row), AddRow(TallyOrNew(tallies, row), row));
        doomed := doomed + {row.id};
        if KeyOf(row) !in tallies {
          order := order + [KeyOf(row)];
        }
        tallies := tallies[KeyOf(row) := AddRow(TallyOrNew(tallies, row), row)];
        excess := excess - |row.payload|;
        n := n + 1;
        if excess <= 0 {
          break;
        }
      }
      assert Doomed(rows[n..], budget) == [];
      assert Doomed(rows, budget) == rows[..n];
    }

    /** The aggregate query over the scope table, as one scan. */
    method AbsorbScopes() returns (absorbed: Option<Bounds>)
      ensures absorbed == if scopes == map[] then None else Some(Absorbed(scopes))
    {
      absorbed := None;
      var todo := scopes.Keys;
      while todo != {}
        invariant todo <= scopes.Keys
        invariant absorbed == if scopes - todo == map[] then None else Some(Absorbed(scopes - todo))
        decreases |todo|
      {
        var k :| k in todo;
        ghost var seen, more := scopes - todo, scopes - (todo - {k});
        var row := scopes[k];
        assert more - {k} == seen && more[k] == row;
        if seen != map[] {
          AbsorbedAnyOrder(more, k);
        } else {
          assert more == map[k := row];
        }
        absorbed := Some(
          if absorbed.None? then Bounds(row.count, row.firstId, row.lastId, row.lastReceived)
          else Join(absorbed.value, row));
        todo := todo - {k};
      }
      assert scopes - todo == scopes;
    }

    method RecordEvictionScopes(batchOrder: seq<ScopeKey>, batchTallies: map<ScopeKey, Tally>, ghost batch: seq<Event>)
      requires batchTallies == Tallies(batch) && Enumerates(batchOrder, batchTallies)
      requires forall e :: e in batch ==> e.id >= 1 && Evictable(e)
      modifies this`scopes
      ensures scopes == Recorded(old(scopes), batch)
    {
      BatchLacksWildcard(batch);
      if WILDCARD !in scopes && |scopes.Keys + batchTallies.Keys| <= EVICTION_SCOPE_CAP {
        WriteScopes(batchOrder, batchTallies);
        SpreadWrite(old(scopes), batch);
      } else {
        FoldIntoWildcard(batchOrder, batchTallies, batch);
      }
    }

    method FoldIntoWildcard(batchOrder: seq<ScopeKey>, batchTallies: map<ScopeKey, Tally>, ghost batch: seq<Event>)
      requires batchTallies == Tallies(batch) && Enumerates(batchOrder, batchTallies) && WILDCARD !in batchTallies
      requires forall e :: e in batch ==> e.id >= 1
      modifies this`scopes
      ensures scopes == map[WILDCARD := FoldedRow(old(scopes), batch)]
    {
      var order, tallies := batchOrder, batchTallies;
      hide Fold, Values, Tallies, FoldedRow;
      ghost var f := Fold(Values(order, tallies));
      FoldIsBatch(order, batch);
      FoldedRowWritten(scopes, batch, f);
      if scopes.Keys != {WILDCARD} {
        var absorbed := AbsorbScopes();
        scopes := map[];
        if absorbed.Some? {
          var t := AbsorbedTally(absorbed.value);
          FoldWithAbsorbed(order, tallies, t);
          order, tallies := order + [WILDCARD], tallies[WILDCARD := t];
        }
      }
      var folded := FoldScopes(order, tallies);
      assert Written(WILDCARD, Lookup(scopes, WILDCARD), folded) == FoldedRow(old(scopes), batch);
      WildcardWrite(scopes, folded);
      var one := map[WILDCARD := folded];
      assert one.Keys == {WILDCARD};
      WriteScopes([WILDCARD], one);
    }

    method FoldScopes(order: seq<ScopeKey>, tallies: map<ScopeKey, Tally>) returns (folded: Tally)
      requires Enumerates(order, tallies)
      ensures folded == Fold(Values(order, tallies))
    {
      folded := Tally(0, 0, 0, 0.0, []);
      ghost var ts := Values(order, tallies);
      for i := 0 to |order|
        invariant folded == Fold(ts[..i])
      {
        var t := tallies[order[i]];
        assert ts[..i + 1][..i] == ts[..i];
        folded := Tally(folded.count + t.count, if folded.minId == 0 then t.minId else Min(folded.minId, t.minId),
                        Max(folded.maxId, t.maxId), Later(folded.maxReceived, t.maxReceived), []);
      }
      assert ts[..|order|] == ts;
    }

    method WriteScopes(order: seq<ScopeKey>, tallies: map<ScopeKey, Tally>)
      requires Enumerates(order, tallies)
      modifies this`scopes
      ensures scopes == WriteAll(old(scopes), tallies.Keys, tallies)
    {
      var prior := scopes;
      assert Keys(order) == tallies.Keys;
      for i := 0 to |order|
        invariant Keys(order[..i]) <= tallies.Keys
        invariant scopes == WriteAll(prior, Keys(order[..i]), tallies)
      {
        WriteStep(prior, order, i, tallies);
        scopes := scopes[order[i] := Written(order[i], Lookup(prior, order[i]), tallies[order[i]])];
      }
      assert order[..|order|] == order;
    }

    /** (any eviction ever, this query incomplete): one scan of the scope rows in any order. */
    method EvictionEvidence(q: Query) returns (anyEvicted: bool, incomplete: bool)
      ensures anyEvicted <==> legacy.Some? || scopes != map[]
      ensures incomplete <==> Incomplete(q, scopes, legacy)
    {
      anyEvicted, incomplete := legacy.Some?, LegacyMayMatch(q, legacy);
      var todo := scopes.Keys;
      while todo != {}
        invariant todo <= scopes.Keys
        invariant anyEvicted <==> legacy.Some? || todo < scopes.Keys
        invariant incomplete <==>
          LegacyMayMatch(q, legacy) || exists k :: k in scopes && k !in todo && RowMayMatch(q, k, scopes[k])
        decreases |todo|
      {
        var k :| k in todo;
        todo := todo - {k};
        anyEvicted := true;
        if incomplete {
          break;
        }
        incomplete := RowMayMatch(q, k, scopes[k]);
      }
    }

    /** One newest-first page: the rows, the continuation cursor, and the eviction indicator for this very query. */
    method EventsPage(q: Query, requested: int)
      returns (rows: seq<Event>, next: Option<nat>, incomplete: bool, anyEvicted: bool)
      requires IdsFresh(Snapshot())
      ensures
        var limit := if requested < 1 then 1 else if requested > 500 then 500 else requested;
        && rows == Page(events, q, limit) && |rows| <= limit && Descending(rows)
        && (forall e :: e in rows ==> e in events && Matches(q, e))
        && (forall e :: e in events && Matches(q, e) ==> OnOrBehind(e, rows, limit))
        && (next.Some? <==> |rows| == limit)
        && (next.Some? ==> next.value == rows[limit - 1].id)
      ensures anyEvicted <==> legacy.Some? || scopes != map[]
      ensures incomplete <==> Incomplete(q, scopes, legacy)
      ensures (exists e :: e in evicted && Matches(q, e)) && Sound(Snapshot()) ==> incomplete
    {
      var limit := ClampLimit(requested);
      rows := Page(events, q, limit);
      PageIsOrdered(events, q, limit);
      forall e | e in events && Matches(q, e) ensures OnOrBehind(e, rows, limit) {
        PageIsNewest(events, q, limit, e);
      }
      anyEvicted, incomplete := EvictionEvidence(q);
      next := if |rows| == limit then Some(rows[limit - 1].id) else None;
      if Sound(Snapshot()) {
        forall e | e in evicted && Matches(q, e) ensures incomplete {
          SoundAnswer(Snapshot(), q, e);
        }
      }
    }
  }
}
