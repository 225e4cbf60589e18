/**
 The eviction evidence as a function of what was ever evicted: from a fresh
 cache every row, bounds-only ones included, says of the evicted rows it stands
 for neither less nor more than it can, and loses precision only at the caps.
 */
module EvidenceHistory {
  import opened Prelude
  import opened Events
  import opened Eviction
  import opened EvictionRuns

  /** The scope of a row: NULL columns read as `''`. */
  function ScopeOf(e: Event): ScopeKey { ScopeKey(e.kind, OrEmpty(e.node), OrEmpty(e.component)) }

  function ScopesOf(rows: set<Event>): set<ScopeKey> { set e | e in rows :: ScopeOf(e) }

  function OfScope(rows: set<Event>, k: ScopeKey): set<Event> { set e | e in rows && ScopeOf(e) == k }

  /** Past 64 distinct scopes everything is one. */
  predicate Crowded(rows: set<Event>) { |ScopesOf(rows)| > 64 }

  /** The bounds are those of the rows: none looser than some row makes it. */
  ghost predicate Spans(first: nat, last: nat, latest: real, rows: set<Event>) {
    && (forall e :: e in rows ==> first <= e.id <= last && e.receivedAt <= latest)
    && (exists e :: e in rows && e.id == first) && (exists e :: e in rows && e.id == last)
    && latest >= 0.0 && (latest == 0.0 || exists e :: e in rows && e.receivedAt == latest)
  }

  ghost predicate Lists(samples: seq<Sample>, rows: set<Event>) {
    && |samples| == |rows|
    && (forall e :: e in rows ==> Sample(e.id, e.receivedAt) in samples)
    && (forall s :: s in samples ==> exists e :: e in rows && Sample(e.id, e.receivedAt) == s)
  }

  /** A scope's row: tight bounds, and every row of the scope listed while there are at most 32. */
  ghost predicate Tight(row: ScopeRow, rows: set<Event>) {
    && Spans(row.firstId, row.lastId, row.lastReceived, rows)
    && row.count == |rows|
    && (row.complete <==> |rows| <= 32)
    && if row.complete then Lists(row.samples, rows) else row.samples == []
  }

  // ---- one scope, one batch ----

  lemma {:induction false} SpansJoin(f1: nat, l1: nat, t1: real, a: set<Event>, f2: nat, l2: nat, t2: real, b: set<Event>)
    requires Spans(f1, l1, t1, a) && Spans(f2, l2, t2, b)
    ensures Spans(Min(f1, f2), Max(l1, l2), Later(t1, t2), a + b)
  {
    var c := a + b;
    var e :| e in a && e.id == f1;
    var f :| f in b && f.id == f2;
    assert e in c && f in c;
    var g :| g in a && g.id == l1;
    var h :| h in b && h.id == l2;
    assert g in c && h in c;
    if Later(t1, t2) != 0.0 {
      if t1 >= t2 {
        var i :| i in a && i.receivedAt == t1;
        assert i in c;
      } else {
        var i :| i in b && i.receivedAt == t2;
        assert i in c;
      }
    }
  }

  lemma {:induction false} ListsJoin(x: seq<Sample>, a: set<Event>, y: seq<Sample>, b: set<Event>)
    requires Lists(x, a) && Lists(y, b) && a !! b
    ensures Lists(x + y, a + b)
  {
    forall s | s in x + y ensures exists e :: e in a + b && Sample(e.id, e.receivedAt) == s {
      if s in x {
        var e :| e in a && Sample(e.id, e.receivedAt) == s;
        assert e in a + b;
      } else {
        var e :| e in b && Sample(e.id, e.receivedAt) == s;
        assert e in a + b;
      }
    }
  }

  ghost predicate TallyTight(t: Tally, rows: set<Event>) {
    Spans(t.minId, t.maxId, t.maxReceived, rows) && t.count == |rows| && Lists(t.samples, rows)
  }

  lemma {:induction false} FirstsArePositive(row: ScopeRow, a: set<Event>, t: Tally, b: set<Event>)
    requires Spans(row.firstId, row.lastId, row.lastReceived, a) && Spans(t.minId, t.maxId, t.maxReceived, b)
    requires forall e :: e in a + b ==> e.id >= 1
    ensures row.firstId >= 1 && t.minId >= 1 && |b| >= 1
  {
    var e :| e in a && e.id == row.firstId;
    var f :| f in b && f.id == t.minId;
    assert e in a + b && f in a + b;
  }

  lemma {:induction false} MergedIsTight(prior: Option<ScopeRow>, a: set<Event>, t: Tally, b: set<Event>)
    requires if prior.Some? then Tight(prior.value, a) else a == {}
    requires TallyTight(t, b) && a !! b && forall e :: e in a + b ==> e.id >= 1
    ensures Tight(Merged(prior, t), a + b)
  {
    hide Spans, Lists;
    if prior.None? {
      assert a + b == b;
      ListsHasCount(t.samples, b);
    } else {
      var p := prior.value;
      FirstsArePositive(p, a, t, b);
      SpansJoin(p.firstId, p.lastId, p.lastReceived, a, t.minId, t.maxId, t.maxReceived, b);
      assert |a + b| == |a| + |b|;
      ListsHasCount(t.samples, b);
      if p.complete {
        ListsHasCount(p.samples, a);
        ListsJoin(p.samples, a, t.samples, b);
      }
    }
  }

  lemma {:induction false} ListsHasCount(samples: seq<Sample>, rows: set<Event>)
    requires Lists(samples, rows)
    ensures |samples| == |rows|
  {
  }

  lemma {:induction false} OneRowSpans(e: Event)
    ensures Spans(e.id, e.id, Later(0.0, e.receivedAt), {e}) && Lists([Sample(e.id, e.receivedAt)], {e})
  {
    assert e in {e};
  }

  lemma {:induction false} AddedRow(t: Tally, rows: set<Event>, e: Event)
    requires TallyTight(t, rows) && e !in rows
    ensures TallyTight(AddRow(t, e), rows + {e})
  {
    OneRowSpans(e);
    SpansJoin(t.minId, t.maxId, t.maxReceived, rows, e.id, e.id, Later(0.0, e.receivedAt), {e});
    ListsJoin(t.samples, rows, [Sample(e.id, e.receivedAt)], {e});
    assert t.maxReceived >= 0.0;
    hide Spans, Lists;
    assert Later(t.maxReceived, Later(0.0, e.receivedAt)) == Later(t.maxReceived, e.receivedAt);
  }

  lemma {:induction false} FirstRow(e: Event)
    ensures TallyTight(AddRow(Tally(0, e.id, 0, 0.0, []), e), {e})
  {
    OneRowSpans(e);
    hide Spans, Lists;
    assert [] + [SampleOf(e)] == [Sample(e.id, e.receivedAt)];
  }

  lemma {:induction false} TallyOfLast(batch: seq<Event>, k: ScopeKey)
    requires batch != []
    ensures
      var before, e := Tallies(Front(batch)), Last(batch);
      if KeyOf(e) != k then (k in Tallies(batch) <==> k in before) && (k in before ==> Tallies(batch)[k] == before[k])
      else k in Tallies(batch)
           && Tallies(batch)[k] == AddRow(if k in before then before[k] else Tally(0, e.id, 0, 0.0, []), e)
  {
  }

  lemma {:induction false} ScopeOfLast(batch: seq<Event>, k: ScopeKey)
    requires batch != [] && Ascending(batch)
    ensures
      var was, now, e := OfScope(AsSet(Front(batch)), k), OfScope(AsSet(batch), k), Last(batch);
      if ScopeOf(e) == k then e !in was && now == was + {e} else now == was
  {
    var front, e := Front(batch), Last(batch);
    assert batch == front + [e] && e !in front;
    assert AsSet(batch) == AsSet(front) + {e};
  }

  /** The tally of a scope is that of its rows in the batch. */
  lemma {:induction false} TalliesAreTight(batch: seq<Event>, k: ScopeKey)
    requires Ascending(batch)
    ensures k in Tallies(batch) <==> OfScope(AsSet(batch), k) != {}
    ensures k in Tallies(batch) ==> TallyTight(Tallies(batch)[k], OfScope(AsSet(batch), k))
  {
    if batch == [] {
      assert OfScope(AsSet(batch), k) == {};
    } else {
      var front, e := Front(batch), Last(batch);
      TalliesAreTight(front, k);
      TallyOfLast(batch, k);
      ScopeOfLast(batch, k);
      hide TallyTight, AddRow, Tallies, OfScope, AsSet;
      if KeyOf(e) == k {
        var was := OfScope(AsSet(front), k);
        if k in Tallies(front) {
          AddedRow(Tallies(front)[k], was, e);
        } else {
          assert was + {e} == {e};
          FirstRow(e);
        }
      }
    }
  }

  // ---- the whole table ----

  function InScopes(rows: set<Event>, ks: set<ScopeKey>): set<Event> { set e | e in rows && ScopeOf(e) in ks }

  ghost predicate RowSpans(row: ScopeRow, rows: set<Event>) { Spans(row.firstId, row.lastId, row.lastReceived, rows) }

  lemma {:induction false} AbsorbedStep(scopes: Scopes, rows: set<Event>, k: ScopeKey)
    requires scopes != map[] && k == AnyKey(scopes)
    ensures
      var rest, row, b := scopes - {k}, scopes[k], Absorbed(scopes);
      if rest == map[] then
        && b.minId == row.firstId && b.maxId == row.lastId && b.maxReceived == row.lastReceived
        && InScopes(rows, scopes.Keys) == OfScope(rows, k)
      else
        && b == Join(Absorbed(rest), row)
        && InScopes(rows, scopes.Keys) == InScopes(rows, rest.Keys) + OfScope(rows, k)
  {
    var rest := scopes - {k};
    assert rest.Keys == scopes.Keys - {k};
    if rest == map[] {
      assert rest.Keys == {};
      assert scopes.Keys == {k};
    }
  }

  /** Folding tight rows of some scopes gives the bounds of the rows of all of them. */
  lemma {:induction false} AbsorbedSpans(scopes: Scopes, rows: set<Event>)
    requires scopes != map[]
    requires forall k :: k in scopes ==> RowSpans(scopes[k], OfScope(rows, k))
    ensures
      var b := Absorbed(scopes);
      Spans(b.minId, b.maxId, b.maxReceived, InScopes(rows, scopes.Keys))
    decreases |scopes|
  {
    var k := AnyKey(scopes);
    var rest, row := scopes - {k}, scopes[k];
    AbsorbedStep(scopes, rows, k);
    hide Spans, Absorbed, InScopes, OfScope, AnyKey;
    assert RowSpans(row, OfScope(rows, k));
    if rest != map[] {
      AbsorbedSpans(rest, rows);
      var b := Absorbed(rest);
      SpansJoin(b.minId, b.maxId, b.maxReceived, InScopes(rows, rest.Keys),
                row.firstId, row.lastId, row.lastReceived, OfScope(rows, k));
    }
  }

  lemma {:induction false} BatchSpans(batch: seq<Event>)
    requires batch != []
    ensures Spans(BatchMin(batch), BatchMax(batch), BatchLatest(batch), AsSet(batch))
  {
    var rows := AsSet(batch);
    var low, high, late := BatchMin(batch), BatchMax(batch), BatchLatest(batch);
    hide BatchMin, BatchMax, BatchLatest;
    assert forall e :: e in batch <==> e in rows;
    var least :| least in batch && least.id == low;
    assert least in rows;
    if high != 0 {
      var most :| most in batch && most.id == high;
      assert most in rows;
    }
    if late != 0.0 {
      var last :| last in batch && last.receivedAt == late;
      assert last in rows;
    }
  }

  /** The one row: nothing listed, bounds of everything, its first id forgotten when `blank`. */
  ghost predicate Collapsed(row: ScopeRow, rows: set<Event>, blank: bool) {
    && !row.complete && row.samples == []
    && exists first: nat :: Spans(first, row.lastId, row.lastReceived, rows) && row.firstId == if blank then 0 else first
  }

  ghost predicate Told(scopes: Scopes, rows: set<Event>, blank: bool) {
    if Crowded(rows) then scopes.Keys == {WILDCARD} && Collapsed(scopes[WILDCARD], rows, blank)
    else !blank && scopes.Keys == ScopesOf(rows) && forall k :: k in scopes ==> Tight(scopes[k], OfScope(rows, k))
  }

  /** What a batch may be: telemetry with fresh ids, in order. */
  ghost predicate Batch(batch: seq<Event>, rows: set<Event>) {
    && Ascending(batch) && AsSet(batch) !! rows
    && forall e :: e in AsSet(batch) + rows ==> e.id >= 1 && Evictable(e)
  }

  lemma {:induction false} TalliesAreScopes(batch: seq<Event>)
    requires Ascending(batch)
    ensures Tallies(batch).Keys == ScopesOf(AsSet(batch))
  {
    forall k ensures k in Tallies(batch) <==> k in ScopesOf(AsSet(batch)) {
      TalliesAreTight(batch, k);
      if k in Tallies(batch) {
        var e :| e in OfScope(AsSet(batch), k);
      }
      if k in ScopesOf(AsSet(batch)) {
        var e :| e in AsSet(batch) && ScopeOf(e) == k;
        assert e in OfScope(AsSet(batch), k);
      }
    }
  }

  lemma {:induction false} ScopesJoin(a: set<Event>, b: set<Event>, k: ScopeKey)
    ensures ScopesOf(a + b) == ScopesOf(a) + ScopesOf(b)
    ensures OfScope(a + b, k) == OfScope(a, k) + OfScope(b, k)
    ensures k !in ScopesOf(a) ==> OfScope(a, k) == {}
  {
  }

  lemma {:induction false} TelemetryIsNoWildcard(e: Event)
    ensures Evictable(e) ==> ScopeOf(e).kind != EVICTION_WILDCARD
  {
    assert |EVICTION_WILDCARD| < |EVENT_PROGRESS| && |EVICTION_WILDCARD| < |EVENT_ERROR|;
  }

  lemma {:induction false} CollapsesWhenCrowded(scopes: Scopes, batch: seq<Event>, rows: set<Event>)
    requires !Crowded(rows) && scopes.Keys == ScopesOf(rows) && Batch(batch, rows)
    ensures Collapses(scopes, batch) <==> Crowded(rows + AsSet(batch))
  {
    TalliesAreScopes(batch);
    ScopesJoin(rows, AsSet(batch), WILDCARD);
    forall e | e in rows ensures ScopeOf(e) != WILDCARD {
      assert e in AsSet(batch) + rows;
      TelemetryIsNoWildcard(e);
    }
  }

  lemma {:induction false} SpreadRowIs(scopes: Scopes, batch: seq<Event>, k: ScopeKey)
    requires !Collapses(scopes, batch) && k in Recorded(scopes, batch)
    ensures k in scopes || k in Tallies(batch)
    ensures Recorded(scopes, batch)[k]
         == if k in Tallies(batch) then Merged(Lookup(scopes, k), Tallies(batch)[k]) else scopes[k]
  {
  }

  lemma {:induction false} ScopePart(rows: set<Event>, batch: seq<Event>, k: ScopeKey)
    requires Batch(batch, rows)
    ensures
      var a, b := OfScope(rows, k), OfScope(AsSet(batch), k);
      && a !! b && OfScope(rows + AsSet(batch), k) == a + b
      && (k !in ScopesOf(rows) ==> a == {}) && forall e :: e in a + b ==> e.id >= 1
  {
    ScopesJoin(rows, AsSet(batch), k);
  }

  lemma {:induction false} SpreadIsTight(scopes: Scopes, batch: seq<Event>, rows: set<Event>, k: ScopeKey)
    requires scopes.Keys == ScopesOf(rows) && (k in scopes ==> Tight(scopes[k], OfScope(rows, k)))
    requires Ascending(batch) && Batch(batch, rows) && !Collapses(scopes, batch)
    requires k in Recorded(scopes, batch)
    ensures Tight(Recorded(scopes, batch)[k], OfScope(rows + AsSet(batch), k))
  {
    hide *;
    TalliesAreTight(batch, k);
    ScopePart(rows, batch, k);
    SpreadRowIs(scopes, batch, k);
    var a, b := OfScope(rows, k), OfScope(AsSet(batch), k);
    LookupIs(scopes, k);
    if k in Tallies(batch) {
      MergedIsTight(Lookup(scopes, k), a, Tallies(batch)[k], b);
    } else {
      assert a + b == a;
    }
  }

  lemma {:induction false} LookupIs(scopes: Scopes, k: ScopeKey)
    ensures Lookup(scopes, k) == if k in scopes then Some(scopes[k]) else None
  {
  }

  lemma {:induction false} CrowdedNeedsRows(rows: set<Event>)
    ensures Crowded(rows) ==> rows != {}
    ensures ScopesOf(rows) == {} ==> rows == {}
  {
    if e :| e in rows {
      assert ScopeOf(e) in ScopesOf(rows);
    } else {
      assert ScopesOf(rows) == {};
    }
  }

  /** The fold that collapses a table, or adds to a collapsed one. */
  lemma {:induction false} FoldIsCollapsed(scopes: Scopes, batch: seq<Event>, rows: set<Event>, blank: bool)
    requires Told(scopes, rows, blank) && Batch(batch, rows) && Crowded(rows + AsSet(batch))
    ensures Collapsed(FoldedRow(scopes, batch), rows + AsSet(batch), blank || (batch == [] && Crowded(rows)))
  {
    var more := AsSet(batch);
    CrowdedNeedsRows(rows);
    CrowdedNeedsRows(rows + more);
    if batch == [] {
      assert rows + more == rows;
    } else {
      BatchSpans(batch);
      LeastIsPositive(batch);
    }
    if Crowded(rows) {
      WildcardFolds(scopes, batch, rows, blank);
    } else if scopes == map[] {
      assert ScopesOf(rows) == {};
      assert rows + more == more;
    } else {
      SpreadFolds(scopes, batch, rows);
    }
  }

  lemma {:induction false} LeastIsPositive(batch: seq<Event>)
    requires batch != [] && forall e :: e in batch ==> e.id >= 1
    ensures BatchMin(batch) >= 1
  {
  }

  lemma {:induction false} WildcardFolds(scopes: Scopes, batch: seq<Event>, rows: set<Event>, blank: bool)
    requires scopes.Keys == {WILDCARD} && Collapsed(scopes[WILDCARD], rows, blank) && Batch(batch, rows)
    ensures Collapsed(FoldedRow(scopes, batch), rows + AsSet(batch), blank || batch == [])
  {
    var row, more := scopes[WILDCARD], AsSet(batch);
    assert AnyKey(scopes) == WILDCARD && scopes - {WILDCARD} == map[];
    var first: nat :| Spans(first, row.lastId, row.lastReceived, rows) && row.firstId == if blank then 0 else first;
    assert first >= 1 by {
      var e :| e in rows && e.id == first;
      assert e in more + rows;
    }
    var folded := FoldedRow(scopes, batch);
    if batch == [] {
      assert rows + more == rows;
      assert Spans(first, folded.lastId, folded.lastReceived, rows);
    } else {
      BatchSpans(batch);
      LeastIsPositive(batch);
      SpansJoin(first, row.lastId, row.lastReceived, rows, BatchMin(batch), BatchMax(batch), BatchLatest(batch), more);
    }
  }

  lemma {:induction false} SpreadFolds(scopes: Scopes, batch: seq<Event>, rows: set<Event>)
    requires !Crowded(rows) && Told(scopes, rows, false) && Batch(batch, rows) && scopes != map[] && batch != []
    ensures Collapsed(FoldedRow(scopes, batch), rows + AsSet(batch), false)
  {
    assert scopes.Keys == ScopesOf(rows);
    AllScopes(rows);
    hide Crowded, Absorbed, Spans, InScopes, OfScope, ScopesOf, FoldedRow, Collapsed;
    forall k | k in scopes ensures RowSpans(scopes[k], OfScope(rows, k)) {
      assert Tight(scopes[k], OfScope(rows, k));
    }
    AbsorbedSpans(scopes, rows);
    FoldOfSpans(scopes, batch, rows);
  }

  lemma {:induction false} AllScopes(rows: set<Event>)
    ensures InScopes(rows, ScopesOf(rows)) == rows
  {
  }

  lemma {:induction false} FoldOfSpans(scopes: Scopes, batch: seq<Event>, rows: set<Event>)
    requires scopes != map[] && batch != [] && Batch(batch, rows)
    requires
      var past := Absorbed(scopes);
      Spans(past.minId, past.maxId, past.maxReceived, rows)
    ensures Collapsed(FoldedRow(scopes, batch), rows + AsSet(batch), false)
  {
    hide Absorbed, BatchMin, BatchMax, BatchLatest;
    var more, past := AsSet(batch), Absorbed(scopes);
    BatchSpans(batch);
    assert past.minId >= 1 by {
      var e :| e in rows && e.id == past.minId;
      assert e in more + rows;
    }
    SpansJoin(past.minId, past.maxId, past.maxReceived, rows, BatchMin(batch), BatchMax(batch), BatchLatest(batch), more);
    hide Spans;
    var folded := FoldedRow(scopes, batch);
    assert Spans(folded.firstId, folded.lastId, folded.lastReceived, rows + more);
  }

  lemma {:induction false} SpreadTells(scopes: Scopes, batch: seq<Event>, rows: set<Event>)
    requires !Crowded(rows) && Told(scopes, rows, false) && Batch(batch, rows) && !Crowded(rows + AsSet(batch))
    ensures Told(Recorded(scopes, batch), rows + AsSet(batch), false)
  {
    var more, after := AsSet(batch), Recorded(scopes, batch);
    CollapsesWhenCrowded(scopes, batch, rows);
    ScopesJoin(rows, more, WILDCARD);
    TalliesAreScopes(batch);
    SpreadKeys(scopes, batch);
    hide Crowded, Tight, Recorded, Collapses, Tallies, ScopesOf, OfScope, AsSet;
    forall k | k in after ensures Tight(after[k], OfScope(rows + more, k)) {
      SpreadIsTight(scopes, batch, rows, k);
    }
  }

  lemma {:induction false} SpreadKeys(scopes: Scopes, batch: seq<Event>)
    requires !Collapses(scopes, batch)
    ensures Recorded(scopes, batch).Keys == scopes.Keys + Tallies(batch).Keys
  {
  }

  lemma {:induction false} CollapseIs(scopes: Scopes, batch: seq<Event>)
    requires Collapses(scopes, batch)
    ensures Recorded(scopes, batch) == map[WILDCARD := FoldedRow(scopes, batch)]
  {
  }

  lemma {:induction false} FoldTells(scopes: Scopes, batch: seq<Event>, rows: set<Event>, blank: bool)
    requires Told(scopes, rows, blank) && Batch(batch, rows) && Crowded(rows + AsSet(batch)) && Collapses(scopes, batch)
    ensures Told(Recorded(scopes, batch), rows + AsSet(batch), blank || (batch == [] && Crowded(rows)))
  {
    CollapseIs(scopes, batch);
    FoldIsCollapsed(scopes, batch, rows, blank);
    hide Recorded, FoldedRow, Collapsed, Collapses, Crowded, Tight;
  }

  lemma {:induction false} ToldSays(scopes: Scopes, rows: set<Event>, blank: bool)
    requires Told(scopes, rows, blank)
    ensures if Crowded(rows) then WILDCARD in scopes else !blank && scopes.Keys == ScopesOf(rows)
  {
    hide Crowded, Tight, Collapsed;
  }

  lemma {:induction false} WildcardStays(scopes: Scopes, batch: seq<Event>)
    requires WILDCARD in scopes
    ensures Collapses(scopes, batch)
  {
  }

  /** What the table says of the rows evicted before, it says of them and the batch afterwards. */
  lemma {:induction false} RecordingTells(scopes: Scopes, batch: seq<Event>, rows: set<Event>, blank: bool)
    requires Told(scopes, rows, blank) && Batch(batch, rows)
    ensures Told(Recorded(scopes, batch), rows + AsSet(batch), blank || (batch == [] && Crowded(rows)))
  {
    hide *;
    ToldSays(scopes, rows, blank);
    if Crowded(rows) {
      StaysCrowded(rows, AsSet(batch));
      WildcardStays(scopes, batch);
      FoldTells(scopes, batch, rows, blank);
    } else {
      CollapsesWhenCrowded(scopes, batch, rows);
      if Crowded(rows + AsSet(batch)) {
        FoldTells(scopes, batch, rows, blank);
      } else {
        SpreadTells(scopes, batch, rows);
      }
    }
  }

  lemma {:induction false} StaysCrowded(rows: set<Event>, more: set<Event>)
    requires Crowded(rows)
    ensures Crowded(rows + more)
  {
    ScopesJoin(rows, more, WILDCARD);
    Subset(ScopesOf(rows), ScopesOf(rows + more));
  }

  lemma {:induction false} Subset(a: set<ScopeKey>, b: set<ScopeKey>)
    requires a <= b
    ensures |a| <= |b|
  {
    assert b == a + (b - a);
  }

  // ---- runs ----

  /** A negative budget met a crowded cache with no telemetry left: the one row is rewritten with its first id unknown. */
  ghost predicate Blanked(ops: seq<Op>) {
    && ops != []
    && var front, op := ops[..|ops| - 1], ops[|ops| - 1];
       || Blanked(front)
       || (op.Evict? && op.budget < 0 && Telemetry(Run(FRESH, front).log) == [] && Crowded(Run(FRESH, front).evicted))
  }

  lemma {:induction false} DoomedRows(log: seq<Event>, budget: int)
    requires Ascending(log)
    ensures
      var doomed := Doomed(Telemetry(log), budget);
      Ascending(doomed) && forall e :: e in doomed ==> e in log && Evictable(e)
  {
    var rows := Telemetry(log);
    TelemetryAscends(log);
    var doomed := Doomed(rows, budget);
    hide Doomed, Evictable;
    assert doomed <= rows;
    assert forall e :: e in doomed ==> e in rows;
  }

  lemma {:induction false} DoomedIsBatch(w: World, budget: int)
    requires IdsFresh(w) && Total(Telemetry(w.log)) > budget
    requires forall e :: e in w.evicted ==> Evictable(e)
    ensures
      var doomed := Doomed(Telemetry(w.log), budget);
      && Batch(doomed, w.evicted)
      && (forall e :: e in doomed ==> Evictable(e))
      && (doomed == [] <==> budget < 0 && Telemetry(w.log) == [])
  {
    hide Doomed, Telemetry, Total, Evictable;
    DoomedRows(w.log, budget);
    NothingDoomed(Telemetry(w.log), budget);
    NewToTheEvicted(w, Doomed(Telemetry(w.log), budget));
    hide IdsFresh;
  }

  lemma {:induction false} NewToTheEvicted(w: World, doomed: seq<Event>)
    requires IdsFresh(w) && forall e :: e in doomed ==> e in w.log
    ensures AsSet(doomed) !! w.evicted && forall e :: e in AsSet(doomed) + w.evicted ==> e.id >= 1
  {
  }

  lemma {:induction false} NothingDoomed(rows: seq<Event>, budget: int)
    requires Total(rows) > budget
    ensures Doomed(rows, budget) == [] <==> budget < 0 && rows == []
  {
  }

  /**
   From a fresh cache, after every run: the evidence is, of the rows ever
   evicted, exactly one tight row per scope, each row listed while a scope has
   at most 32, or past 64 scopes one tight row for all of them.
   */
  lemma {:induction false} EvidenceTellsHistory(ops: seq<Op>)
    ensures
      var now := Run(FRESH, ops);
      && now.legacy == None && Told(now.scopes, now.evicted, Blanked(ops))
      && (Crowded(now.evicted) ==> now.scopes[WILDCARD].count == |now.evicted|)
      && forall e :: e in now.evicted ==> e.id >= 1 && Evictable(e)
  {
    EvidenceConservesCounts(ops);
    if ops == [] {
      assert ScopesOf({}) == {};
      assert FRESH.scopes.Keys == {};
    } else {
      var front, op := ops[..|ops| - 1], ops[|ops| - 1];
      var w := Run(FRESH, front);
      EvidenceTellsHistory(front);
      EvidenceConservesCounts(front);
      hide Told, Crowded, Recorded, Doomed, Batch, Bounded, EvictedCount, Telemetry, Without;
      if op.Evict? && Total(Telemetry(w.log)) > op.budget {
        DoomedIsBatch(w, op.budget);
        RecordingTells(w.scopes, Doomed(Telemetry(w.log), op.budget), w.evicted, Blanked(front));
      } else {
        TotalOfNone(w.log);
      }
      OneRowCounts(Run(FRESH, ops), Blanked(ops));
    }
  }

  lemma {:induction false} TotalOfNone(log: seq<Event>)
    ensures Telemetry(log) == [] ==> Total(Telemetry(log)) == 0
  {
  }

  lemma {:induction false} OneRowCounts(w: World, blank: bool)
    requires EvictedCount(w.scopes) == |w.evicted|
    ensures Told(w.scopes, w.evicted, blank) && Crowded(w.evicted) ==> w.scopes[WILDCARD].count == |w.evicted|
  {
    if Told(w.scopes, w.evicted, blank) && Crowded(w.evicted) {
      SumRemove(Counts(w.scopes), WILDCARD);
      assert Counts(w.scopes).Keys == {WILDCARD};
      assert (Counts(w.scopes) - {WILDCARD}).Keys == {};
      assert Counts(w.scopes) - {WILDCARD} == map[];
    }
  }

  /** The evidence is empty exactly while nothing was ever evicted. */
  lemma {:induction false} AnyEvictedIsTrue(ops: seq<Op>)
    ensures
      var now := Run(FRESH, ops);
      (now.legacy.Some? || now.scopes != map[]) <==> now.evicted != {}
  {
    EvidenceTellsHistory(ops);
    var now := Run(FRESH, ops);
    CrowdedNeedsRows(now.evicted);
    if e :| e in now.evicted {
      assert ScopeOf(e) in ScopesOf(now.evicted);
    }
    hide Crowded, Tight;
    assert now.scopes == map[] <==> now.scopes.Keys == {};
  }

  // ---- every answer ----

  predicate Names(q: Query, k: ScopeKey) {
    && (q.kind.Some? ==> k.kind == q.kind.value)
    && (q.node.Some? ==> k.node == q.node.value)
    && (q.component.Some? ==> k.component == q.component.value)
  }

  /** One row satisfies both bounds. */
  predicate Meets(q: Query, rows: set<Event>) {
    exists e :: e in rows && (q.since.Some? ==> e.receivedAt >= q.since.value) && (q.beforeId.Some? ==> e.id < q.beforeId.value)
  }

  /** Some row satisfies one bound and some row the other; a time not after 0 bounds nothing. */
  predicate MayMeet(q: Query, rows: set<Event>, blank: bool) {
    && (q.since.Some? && q.since.value > 0.0 ==> exists e :: e in rows && e.receivedAt >= q.since.value)
    && (q.beforeId.Some? && !blank ==> exists e :: e in rows && e.id < q.beforeId.value)
  }

  lemma {:induction false} BoundsAnswer(q: Query, row: ScopeRow, first: nat, rows: set<Event>, blank: bool)
    requires Spans(first, row.lastId, row.lastReceived, rows) && first >= 1 && row.firstId == if blank then 0 else first
    ensures MayMeet(q, rows, blank)
       <==> && !(q.since.Some? && q.since.value > row.lastReceived)
            && !(q.beforeId.Some? && row.firstId > 0 && row.firstId >= q.beforeId.value)
  {
    var e :| e in rows && e.id == first;
    if row.lastReceived != 0.0 {
      var f :| f in rows && f.receivedAt == row.lastReceived;
    }
  }

  lemma {:induction false} TightAnswer(q: Query, k: ScopeKey, row: ScopeRow, rows: set<Event>)
    requires Tight(row, rows) && k.kind != EVICTION_WILDCARD && forall e :: e in rows ==> e.id >= 1
    ensures RowMayMatch(q, k, row)
       <==> Names(q, k) && if |rows| <= 32 then Meets(q, rows) else MayMeet(q, rows, false)
  {
    if row.complete {
      if e :| e in rows && (q.since.Some? ==> e.receivedAt >= q.since.value) && (q.beforeId.Some? ==> e.id < q.beforeId.value) {
        assert SampleMatches(q, Sample(e.id, e.receivedAt));
      }
      if s :| s in row.samples && SampleMatches(q, s) {
        var e :| e in rows && Sample(e.id, e.receivedAt) == s;
      }
    } else {
      BoundsAnswer(q, row, row.firstId, rows, false);
    }
  }

  lemma {:induction false} CollapsedAnswer(q: Query, row: ScopeRow, rows: set<Event>, blank: bool)
    requires Collapsed(row, rows, blank) && forall e :: e in rows ==> e.id >= 1
    ensures RowMayMatch(q, WILDCARD, row) <==> MayMeet(q, rows, blank)
  {
    var first: nat :| Spans(first, row.lastId, row.lastReceived, rows) && row.firstId == if blank then 0 else first;
    BoundsAnswer(q, row, first, rows, blank);
  }

  /**
   Exactly when a query is reported incomplete, for every query after every run
   from a fresh cache: some scope it names has an evicted row within its bounds,
   the bounds taken one by one once the scope has more than 32 evicted rows;
   past 64 scopes, no scope being told from another, any evicted rows.
   */
  lemma {:induction false} AnswerIsHistorys(ops: seq<Op>, q: Query)
    ensures
      var now := Run(FRESH, ops);
      Incomplete(q, now.scopes, now.legacy)
      <==> if Crowded(now.evicted) then MayMeet(q, now.evicted, Blanked(ops))
           else exists k :: k in ScopesOf(now.evicted) && Names(q, k)
                  && var rows := OfScope(now.evicted, k);
                     if |rows| <= 32 then Meets(q, rows) else MayMeet(q, rows, false)
  {
    var now := Run(FRESH, ops);
    EvidenceTellsHistory(ops);
    if Crowded(now.evicted) {
      CollapsedAnswer(q, now.scopes[WILDCARD], now.evicted, Blanked(ops));
      assert WILDCARD in now.scopes;
    } else {
      hide Crowded, Tight, RowMayMatch, Meets, MayMeet, Names;
      forall k | k in now.scopes
        ensures RowMayMatch(q, k, now.scopes[k])
           <==> Names(q, k) && if |OfScope(now.evicted, k)| <= 32 then Meets(q, OfScope(now.evicted, k))
                               else MayMeet(q, OfScope(now.evicted, k), false)
      {
        var e :| e in now.evicted && ScopeOf(e) == k;
        TelemetryIsNoWildcard(e);
        TightAnswer(q, k, now.scopes[k], OfScope(now.evicted, k));
      }
    }
  }
}
