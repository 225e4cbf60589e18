/**
 What the cache remembers about the telemetry it deleted, as functions of the
 prior evidence and of the batch deleted, and what that memory promises.
 */
module Eviction {
  import opened Prelude
  import opened Events

  const EVICTION_SCOPE_CAP: nat := 64
  const EVICTION_SAMPLE_CAP: nat := 32
  const EVICTION_WILDCARD := "*"

  datatype ScopeKey = ScopeKey(kind: string, node: string, component: string)

  const WILDCARD := ScopeKey(EVICTION_WILDCARD, EVICTION_WILDCARD, EVICTION_WILDCARD)

  datatype Sample = Sample(id: nat, receivedAt: real)

  /** What one batch says about one scope. */
  datatype Tally = Tally(count: nat, minId: nat, maxId: nat, maxReceived: real, samples: seq<Sample>)

  /** A row of event_eviction_scopes; firstId 0 means the lower bound is unknown. */
  datatype ScopeRow = ScopeRow(
    firstId: nat,
    lastId: nat,
    count: nat,
    lastReceived: real,
    samples: seq<Sample>,
    complete: bool)

  type Scopes = map<ScopeKey, ScopeRow>

  /** The single-row watermark of older caches: its scope is unknowable. */
  datatype Legacy = Legacy(lastReceived: real)

  /** The filters of a read: absent ones do not constrain. */
  datatype Query = Query(
    kind: Option<string>,
    node: Option<string>,
    component: Option<string>,
    since: Option<real>,
    beforeId: Option<int>)

  function KeyOf(e: Event): ScopeKey {
    ScopeKey(e.kind, OrEmpty(e.node), OrEmpty(e.component))
  }

  function SampleOf(e: Event): Sample { Sample(e.id, e.receivedAt) }

  // ---- choosing what to evict ----

  function Total(rows: seq<Event>): nat {
    if rows == [] then 0 else |rows[0].payload| + Total(rows[1..])
  }

  /** Drop the oldest rows until what remains fits the budget. */
  function Doomed(rows: seq<Event>, budget: int): (doomed: seq<Event>)
    ensures doomed <= rows
  {
    if rows == [] || Total(rows) <= budget then [] else [rows[0]] + Doomed(rows[1..], budget)
  }

  function Ids(rows: seq<Event>): set<nat> { set e | e in rows :: e.id }

  /** The evicted rows are the shortest oldest-first prefix that brings the total within budget. */
  lemma {:induction false} EvictionIsMinimal(rows: seq<Event>, budget: int)
    ensures Doomed(rows, budget) == rows[..|Doomed(rows, budget)|]
    ensures forall k :: 0 <= k < |Doomed(rows, budget)| ==> Total(rows[k..]) > budget
    ensures budget >= 0 ==> Total(rows[|Doomed(rows, budget)|..]) <= budget
    ensures budget < 0 ==> Doomed(rows, budget) == rows
  {
    if rows != [] && Total(rows) > budget {
      EvictionIsMinimal(rows[1..], budget);
      var n := |Doomed(rows, budget)|;
      assert rows[n..] == rows[1..][n - 1..];
      forall k | 0 <= k < n ensures Total(rows[k..]) > budget {
        assert k > 0 ==> rows[k..] == rows[1..][k - 1..];
      }
    }
  }

  // ---- summarising a batch ----

  function AddRow(t: Tally, e: Event): Tally {
    Tally(t.count + 1, Min(t.minId, e.id), Max(t.maxId, e.id), Later(t.maxReceived, e.receivedAt),
          t.samples + [SampleOf(e)])
  }

  function TallyOrNew(tallies: map<ScopeKey, Tally>, e: Event): Tally {
    if KeyOf(e) in tallies then tallies[KeyOf(e)] else Tally(0, e.id, 0, 0.0, [])
  }

  function Tallies(batch: seq<Event>): map<ScopeKey, Tally> {
    if batch == [] then map[]
    else
      var before := Tallies(Front(batch));
      before[KeyOf(Last(batch)) := AddRow(TallyOrNew(before, Last(batch)), Last(batch))]
  }

  ghost predicate TallyBounds(t: Tally, e: Event) {
    t.minId <= e.id <= t.maxId && e.receivedAt <= t.maxReceived && SampleOf(e) in t.samples
  }

  ghost predicate TallyFrom(t: Tally, k: ScopeKey, batch: seq<Event>) {
    && t.count == |t.samples|
    && (exists e :: e in batch && KeyOf(e) == k && e.id == t.minId)
    && (exists e :: e in batch && KeyOf(e) == k && e.id == t.maxId)
    && t.maxReceived >= 0.0
    && (t.maxReceived == 0.0 || exists e :: e in batch && KeyOf(e) == k && e.receivedAt == t.maxReceived)
    && (forall s :: s in t.samples ==> exists e :: e in batch && KeyOf(e) == k && SampleOf(e) == s)
  }

  lemma {:induction false} TallyHolds(batch: seq<Event>, e: Event)
    requires e in batch
    ensures KeyOf(e) in Tallies(batch) && TallyBounds(Tallies(batch)[KeyOf(e)], e)
  {
    assert batch == Front(batch) + [Last(batch)];
    if e in Front(batch) {
      TallyHolds(Front(batch), e);
    }
  }

  lemma {:induction false} TallyComesFrom(batch: seq<Event>, k: ScopeKey)
    requires k in Tallies(batch)
    ensures TallyFrom(Tallies(batch)[k], k, batch)
  {
    var front, e := Front(batch), Last(batch);
    assert batch == front + [e] && e in batch;
    var before, t := Tallies(front), Tallies(batch)[k];
    if k in before {
      TallyComesFrom(front, k);
      assert forall x :: x in front ==> x in batch;
    }
    forall s | s in t.samples
      ensures exists x :: x in batch && KeyOf(x) == k && SampleOf(x) == s
    {
      if k in before && s in before[k].samples {
        var x :| x in front && KeyOf(x) == k && SampleOf(x) == s;
        assert x in batch;
      }
    }
  }

  // ---- collapse: every scope folded into the wildcard ----

  datatype Bounds = Bounds(count: nat, minId: nat, maxId: nat, maxReceived: real)

  function Join(b: Bounds, row: ScopeRow): Bounds {
    Bounds(b.count + row.count, Min(b.minId, row.firstId), Max(b.maxId, row.lastId),
           Later(b.maxReceived, row.lastReceived))
  }

  /** The bounds over a non-empty table of scopes. */
  ghost function Absorbed(scopes: Scopes): Bounds
    requires scopes != map[]
    decreases |scopes|
  {
    var k := AnyKey(scopes);
    if scopes - {k} == map[]
      then Bounds(scopes[k].count, scopes[k].firstId, scopes[k].lastId, scopes[k].lastReceived)
    else Join(Absorbed(scopes - {k}), scopes[k])
  }

  ghost function AnyKey(scopes: Scopes): (k: ScopeKey)
    requires scopes != map[]
    ensures k in scopes
  {
    var k :| k in scopes; k
  }

  function BatchMin(batch: seq<Event>): (id: nat)
    requires batch != []
    ensures forall e :: e in batch ==> id <= e.id
    ensures exists e :: e in batch && e.id == id
  {
    assert batch == Front(batch) + [Last(batch)];
    if |batch| == 1 then Last(batch).id
    else
      var rest := BatchMin(Front(batch));
      assert exists e :: e in Front(batch) && e.id == rest;
      Min(rest, Last(batch).id)
  }

  function BatchMax(batch: seq<Event>): (id: nat)
    ensures forall e :: e in batch ==> e.id <= id
    ensures id == 0 || exists e :: e in batch && e.id == id
  {
    if batch == [] then 0
    else
      assert batch == Front(batch) + [Last(batch)];
      Max(BatchMax(Front(batch)), Last(batch).id)
  }

  function BatchLatest(batch: seq<Event>): (at: real)
    ensures forall e :: e in batch ==> e.receivedAt <= at
    ensures at >= 0.0 && (at == 0.0 || exists e :: e in batch && e.receivedAt == at)
  {
    if batch == [] then 0.0
    else
      assert batch == Front(batch) + [Last(batch)];
      Later(BatchLatest(Front(batch)), Last(batch).receivedAt)
  }

  /** The one wildcard row that stands for all prior evidence and the batch. */
  ghost function FoldedRow(scopes: Scopes, batch: seq<Event>): ScopeRow {
    if scopes == map[] then
      ScopeRow(if batch == [] then 0 else BatchMin(batch), BatchMax(batch), |batch|, BatchLatest(batch), [], false)
    else
      var past := Absorbed(scopes);
      var first :=
        if past.minId == 0 then 0
        else if batch == [] then (if scopes.Keys == {WILDCARD} then 0 else past.minId)
        else Min(past.minId, BatchMin(batch));
      ScopeRow(first, Max(past.maxId, BatchMax(batch)), past.count + |batch|,
               Later(past.maxReceived, BatchLatest(batch)), [], false)
  }

  // ---- recording a batch ----

  predicate Collapses(scopes: Scopes, batch: seq<Event>) {
    WILDCARD in scopes || |scopes.Keys + Tallies(batch).Keys| > EVICTION_SCOPE_CAP
  }

  /** A scope's row after the batch added `t` to it. */
  function Merged(prior: Option<ScopeRow>, t: Tally): ScopeRow {
    var row :=
      if prior.None? then ScopeRow(t.minId, t.maxId, t.count, t.maxReceived, t.samples, true)
      else
        var p := prior.value;
        ScopeRow(if p.firstId == 0 || t.minId == 0 then 0 else Min(p.firstId, t.minId), Max(p.lastId, t.maxId),
                 p.count + t.count, Later(p.lastReceived, t.maxReceived),
                 if p.complete then p.samples + t.samples else [], p.complete);
    if |row.samples| > EVICTION_SAMPLE_CAP then row.(samples := [], complete := false) else row
  }

  function Lookup(scopes: Scopes, k: ScopeKey): Option<ScopeRow> {
    if k in scopes then Some(scopes[k]) else None
  }

  /** The evidence table after a batch is evicted. */
  ghost function Recorded(scopes: Scopes, batch: seq<Event>): Scopes {
    if Collapses(scopes, batch) then map[WILDCARD := FoldedRow(scopes, batch)]
    else
      var tallies := Tallies(batch);
      map k | k in scopes.Keys + tallies.Keys ::
        if k in tallies then Merged(Lookup(scopes, k), tallies[k]) else scopes[k]
  }

  // ---- answering a query ----

  /** The row satisfies the whole conjunction, as the SQL of the read decides it. */
  predicate Matches(q: Query, e: Event) {
    && (q.kind.Some? ==> e.kind == q.kind.value)
    && (q.node.Some? ==> e.node == q.node)
    && (q.component.Some? ==> e.component == q.component)
    && (q.since.Some? ==> e.receivedAt >= q.since.value)
    && (q.beforeId.Some? ==> e.id < q.beforeId.value)
  }

  predicate SampleMatches(q: Query, s: Sample) {
    && (q.since.Some? ==> s.receivedAt >= q.since.value)
    && (q.beforeId.Some? ==> s.id < q.beforeId.value)
  }

  /** Whether a scope row leaves room for an evicted match. */
  predicate RowMayMatch(q: Query, k: ScopeKey, row: ScopeRow) {
    && (k.kind != EVICTION_WILDCARD ==>
          && (q.kind.Some? ==> k.kind == q.kind.value)
          && (q.node.Some? ==> k.node == q.node.value)
          && (q.component.Some? ==> k.component == q.component.value))
    && if row.complete then exists s :: s in row.samples && SampleMatches(q, s)
       else
         && !(q.since.Some? && q.since.value > row.lastReceived)
         && !(q.beforeId.Some? && row.firstId > 0 && row.firstId >= q.beforeId.value)
  }

  predicate LegacyMayMatch(q: Query, legacy: Option<Legacy>) {
    && legacy.Some?
    && (q.since.None? || legacy.value.lastReceived == 0.0 || q.since.value <= legacy.value.lastReceived)
  }

  /** The evidence cannot rule out that an evicted row matched. */
  predicate Incomplete(q: Query, scopes: Scopes, legacy: Option<Legacy>) {
    LegacyMayMatch(q, legacy) || exists k :: k in scopes && RowMayMatch(q, k, scopes[k])
  }

  // ---- what a row promises about the rows it stands for ----

  /** The row stands for the evicted event: within its bounds, and sampled while samples are complete. */
  ghost predicate Covers(k: ScopeKey, row: ScopeRow, e: Event) {
    && (k == KeyOf(e) || k.kind == EVICTION_WILDCARD)
    && row.firstId <= e.id
    && e.receivedAt <= row.lastReceived
    && (row.complete ==> SampleOf(e) in row.samples)
  }

  ghost predicate LegacyCovers(legacy: Option<Legacy>, e: Event) {
    legacy.Some? && (legacy.value.lastReceived == 0.0 || e.receivedAt <= legacy.value.lastReceived)
  }

  ghost predicate Covered(scopes: Scopes, legacy: Option<Legacy>, e: Event) {
    LegacyCovers(legacy, e) || exists k :: k in scopes && Covers(k, scopes[k], e)
  }

  /** A row that claims completeness lists evicted rows of its own scope only, within its bounds. */
  ghost predicate Precise(k: ScopeKey, row: ScopeRow, evicted: set<Event>) {
    row.complete ==>
      && k.kind != EVICTION_WILDCARD
      && forall s :: s in row.samples ==>
           && row.firstId <= s.id && s.receivedAt <= row.lastReceived
           && exists e :: e in evicted && KeyOf(e) == k && SampleOf(e) == s
  }

  /** The bounds do not depend on the order the rows are scanned in. */
  lemma {:induction false} AbsorbedAnyOrder(scopes: Scopes, k: ScopeKey)
    requires k in scopes && scopes - {k} != map[]
    ensures Absorbed(scopes) == Join(Absorbed(scopes - {k}), scopes[k])
    decreases |scopes|
  {
    var j := AnyKey(scopes);
    if j != k {
      var both := scopes - {j} - {k};
      assert both == scopes - {k} - {j};
      assert (scopes - {j})[k] == scopes[k] && (scopes - {k})[j] == scopes[j];
      if both == map[] {
        assert scopes - {j} == map[k := scopes[k]] && scopes - {k} == map[j := scopes[j]];
      } else {
        AbsorbedAnyOrder(scopes - {j}, k);
        AbsorbedAnyOrder(scopes - {k}, j);
      }
    }
  }

  ghost predicate Within(row: ScopeRow, b: Bounds) {
    b.minId <= row.firstId && row.lastId <= b.maxId && row.lastReceived <= b.maxReceived
  }

  lemma {:induction false} AbsorbedBounds(scopes: Scopes, k: ScopeKey)
    requires k in scopes
    ensures Within(scopes[k], Absorbed(scopes))
    decreases |scopes|
  {
    var j := AnyKey(scopes);
    var rest := scopes - {j};
    if k != j {
      assert k in rest && rest[k] == scopes[k];
      AbsorbedBounds(rest, k);
    }
  }

  // ---- counting: every evicted row is counted once, across collapses ----

  ghost function Sum(m: map<ScopeKey, nat>): nat
    decreases |m|
  {
    if m == map[] then 0
    else
      var k :| k in m;
      m[k] + Sum(m - {k})
  }

  lemma {:induction false} SumRemove(m: map<ScopeKey, nat>, k: ScopeKey)
    requires k in m
    ensures Sum(m) == m[k] + Sum(m - {k})
    decreases |m|
  {
    var j :| j in m && Sum(m) == m[j] + Sum(m - {j});
    if j != k {
      SumRemove(m - {j}, k);
      SumRemove(m - {k}, j);
      assert m - {j} - {k} == m - {k} - {j};
    }
  }

  function CountIn(m: map<ScopeKey, nat>, k: ScopeKey): nat { if k in m then m[k] else 0 }

  lemma {:induction false} SumWithout(m: map<ScopeKey, nat>, k: ScopeKey)
    ensures Sum(m) == CountIn(m, k) + Sum(m - {k})
  {
    if k in m { SumRemove(m, k); } else { assert m - {k} == m; }
  }

  /** `c` holds, key by key, what `a` and `b` hold together. */
  ghost predicate AddsUp(a: map<ScopeKey, nat>, b: map<ScopeKey, nat>, c: map<ScopeKey, nat>) {
    && c.Keys == a.Keys + b.Keys
    && forall k :: k in c ==> c[k] == CountIn(a, k) + CountIn(b, k)
  }

  lemma {:induction false} AddsUpWithout(a: map<ScopeKey, nat>, b: map<ScopeKey, nat>, c: map<ScopeKey, nat>, k: ScopeKey)
    requires AddsUp(a, b, c)
    ensures AddsUp(a - {k}, b - {k}, c - {k})
  {
    var a', b', c' := a - {k}, b - {k}, c - {k};
    assert c'.Keys == a'.Keys + b'.Keys;
    forall j | j in c' ensures c'[j] == CountIn(a', j) + CountIn(b', j) {
      assert c'[j] == c[j] && CountIn(a', j) == CountIn(a, j) && CountIn(b', j) == CountIn(b, j);
    }
  }

  lemma {:induction false} SumAdds(a: map<ScopeKey, nat>, b: map<ScopeKey, nat>, c: map<ScopeKey, nat>)
    requires AddsUp(a, b, c)
    ensures Sum(c) == Sum(a) + Sum(b)
    decreases |c|
  {
    if c == map[] {
      assert c.Keys == {};
      assert a.Keys == {} && b.Keys == {};
      assert a == map[] && b == map[];
    } else {
      var k :| k in c;
      AddsUpWithout(a, b, c, k);
      SumAdds(a - {k}, b - {k}, c - {k});
      SumWithout(a, k);
      SumWithout(b, k);
      SumWithout(c, k);
    }
  }

  lemma {:induction false} SumOfOne(k: ScopeKey, n: nat)
    ensures Sum(map[k := n]) == n
  {
    SumRemove(map[k := n], k);
    assert map[k := n] - {k} == map[];
  }

  ghost function Counts(scopes: Scopes): map<ScopeKey, nat> {
    map k | k in scopes :: scopes[k].count
  }

  ghost function TallyCounts(tallies: map<ScopeKey, Tally>): map<ScopeKey, nat> {
    map k | k in tallies :: tallies[k].count
  }

  /** How many evicted rows the evidence accounts for. */
  ghost function EvictedCount(scopes: Scopes): nat { Sum(Counts(scopes)) }

  lemma {:induction false} TalliesCountBatch(batch: seq<Event>)
    ensures Sum(TallyCounts(Tallies(batch))) == |batch|
  {
    if batch != [] {
      var before, after, k := Tallies(Front(batch)), Tallies(batch), KeyOf(Last(batch));
      TalliesCountBatch(Front(batch));
      SumRemove(TallyCounts(after), k);
      assert TallyCounts(after) - {k} == TallyCounts(before) - {k};
      if k in before {
        SumRemove(TallyCounts(before), k);
      } else {
        assert TallyCounts(before) - {k} == TallyCounts(before);
      }
    }
  }

  lemma {:induction false} AbsorbedCount(scopes: Scopes)
    requires scopes != map[]
    ensures Absorbed(scopes).count == EvictedCount(scopes)
    decreases |scopes|
  {
    var j := AnyKey(scopes);
    var rest := scopes - {j};
    SumRemove(Counts(scopes), j);
    assert Counts(rest) == Counts(scopes) - {j};
    if rest != map[] {
      AbsorbedCount(rest);
    }
  }

  lemma {:induction false} FoldedCount(scopes: Scopes, batch: seq<Event>)
    ensures FoldedRow(scopes, batch).count == EvictedCount(scopes) + |batch|
  {
    if scopes == map[] {
      assert Counts(scopes) == map[];
    } else {
      AbsorbedCount(scopes);
    }
  }

  lemma {:induction false} SpreadRow(scopes: Scopes, batch: seq<Event>, k: ScopeKey)
    requires !Collapses(scopes, batch)
    requires k in Recorded(scopes, batch)
    ensures Recorded(scopes, batch)[k].count
         == (if k in scopes then scopes[k].count else 0)
          + (if k in Tallies(batch) then Tallies(batch)[k].count else 0)
  {
  }

  lemma {:induction false} CountsAdd(scopes: Scopes, tallies: map<ScopeKey, Tally>, after: Scopes)
    requires after.Keys == scopes.Keys + tallies.Keys
    requires forall k :: k in after ==>
      after[k].count == (if k in scopes then scopes[k].count else 0) + (if k in tallies then tallies[k].count else 0)
    ensures EvictedCount(after) == EvictedCount(scopes) + Sum(TallyCounts(tallies))
  {
    SumAdds(Counts(scopes), TallyCounts(tallies), Counts(after));
  }

  lemma {:induction false} SpreadCount(scopes: Scopes, batch: seq<Event>)
    requires !Collapses(scopes, batch)
    ensures EvictedCount(Recorded(scopes, batch)) == EvictedCount(scopes) + |batch|
  {
    var after, tallies := Recorded(scopes, batch), Tallies(batch);
    assert after.Keys == scopes.Keys + tallies.Keys;
    hide Recorded, Tallies, Collapses, EvictedCount;
    TalliesCountBatch(batch);
    forall k | k in after
      ensures after[k].count == (if k in scopes then scopes[k].count else 0) + (if k in tallies then tallies[k].count else 0)
    {
      SpreadRow(scopes, batch, k);
    }
    CountsAdd(scopes, tallies, after);
  }

  /** Recording adds the batch to the count, whether or not it collapses the table. */
  lemma {:induction false} RecordedCounts(scopes: Scopes, batch: seq<Event>)
    ensures EvictedCount(Recorded(scopes, batch)) == EvictedCount(scopes) + |batch|
  {
    if Collapses(scopes, batch) {
      var row := FoldedRow(scopes, batch);
      FoldedCount(scopes, batch);
      SumOfOne(WILDCARD, row.count);
      assert Counts(map[WILDCARD := row]) == map[WILDCARD := row.count];
    } else {
      SpreadCount(scopes, batch);
    }
  }

  ghost predicate SamplesBounded(scopes: Scopes) {
    forall k :: k in scopes ==> |scopes[k].samples| <= EVICTION_SAMPLE_CAP
  }

  /** The evidence never grows into an archive. */
  lemma {:induction false} RecordedIsBounded(scopes: Scopes, batch: seq<Event>)
    requires SamplesBounded(scopes)
    ensures |Recorded(scopes, batch)| <= EVICTION_SCOPE_CAP && SamplesBounded(Recorded(scopes, batch))
  {
    var after := Recorded(scopes, batch);
    if !Collapses(scopes, batch) {
      assert after.Keys == scopes.Keys + Tallies(batch).Keys;
      assert |after| == |after.Keys|;
    }
  }

  // ---- lemmas about one recording ----

  lemma {:induction false} MergedCovers(k: ScopeKey, p: ScopeRow, t: Tally, e: Event)
    requires Covers(k, p, e)
    ensures Covers(k, Merged(Some(p), t), e)
  {
  }

  /** Recording never drops a stand-in: what was covered stays covered. */
  lemma {:induction false} RecordedKeepsCover(scopes: Scopes, legacy: Option<Legacy>, batch: seq<Event>, e: Event)
    requires Covered(scopes, legacy, e)
    ensures Covered(Recorded(scopes, batch), legacy, e)
  {
    if !LegacyCovers(legacy, e) {
      var k :| k in scopes && Covers(k, scopes[k], e);
      var after := Recorded(scopes, batch);
      if Collapses(scopes, batch) {
        AbsorbedBounds(scopes, k);
        assert Covers(WILDCARD, after[WILDCARD], e);
      } else {
        if k in Tallies(batch) {
          MergedCovers(k, scopes[k], Tallies(batch)[k], e);
        }
        assert Covers(k, after[k], e);
      }
    }
  }

  /** Every row of the batch is covered as soon as the batch is recorded. */
  lemma {:induction false} RecordedCoversBatch(scopes: Scopes, legacy: Option<Legacy>, batch: seq<Event>, e: Event)
    requires e in batch
    ensures Covered(Recorded(scopes, batch), legacy, e)
  {
    var after := Recorded(scopes, batch);
    if Collapses(scopes, batch) {
      assert Covers(WILDCARD, after[WILDCARD], e);
    } else {
      TallyHolds(batch, e);
      assert Covers(KeyOf(e), after[KeyOf(e)], e);
    }
  }

  lemma {:induction false} TallyIsPrecise(batch: seq<Event>, k: ScopeKey, evicted: set<Event>)
    requires k in Tallies(batch)
    requires forall e :: e in batch ==> Evictable(e)
    ensures Precise(k, Merged(None, Tallies(batch)[k]), evicted + set e | e in batch)
  {
    var t, now := Tallies(batch)[k], evicted + set e | e in batch;
    TallyComesFrom(batch, k);
    var w :| w in batch && KeyOf(w) == k && w.id == t.minId;
    assert k.kind != EVICTION_WILDCARD;
    forall s | s in t.samples
      ensures t.minId <= s.id && s.receivedAt <= t.maxReceived
      ensures exists e :: e in now && KeyOf(e) == k && SampleOf(e) == s
    {
      var e :| e in batch && KeyOf(e) == k && SampleOf(e) == s;
      TallyHolds(batch, e);
      assert e in now;
    }
  }

  lemma {:induction false} PreciseGrows(k: ScopeKey, row: ScopeRow, evicted: set<Event>, more: set<Event>)
    requires Precise(k, row, evicted) && evicted <= more
    ensures Precise(k, row, more)
  {
    if row.complete {
      forall s | s in row.samples ensures exists e :: e in more && KeyOf(e) == k && SampleOf(e) == s {
        var e :| e in evicted && KeyOf(e) == k && SampleOf(e) == s;
        assert e in more;
      }
    }
  }

  lemma {:induction false} MergedIsPrecise(k: ScopeKey, p: ScopeRow, t: Tally, evicted: set<Event>)
    requires Precise(k, p, evicted)
    requires Precise(k, ScopeRow(t.minId, t.maxId, t.count, t.maxReceived, t.samples, true), evicted)
    ensures Precise(k, Merged(Some(p), t), evicted)
  {
  }

  /** Recording keeps every completeness claim true. */
  lemma {:induction false} RecordedIsPrecise(scopes: Scopes, batch: seq<Event>, evicted: set<Event>, k: ScopeKey)
    requires k in scopes ==> Precise(k, scopes[k], evicted)
    requires forall e :: e in batch ==> Evictable(e)
    requires k in Recorded(scopes, batch)
    ensures Precise(k, Recorded(scopes, batch)[k], evicted + set e | e in batch)
  {
    if !Collapses(scopes, batch) {
      if k in scopes {
        PreciseGrows(k, scopes[k], evicted, evicted + set e | e in batch);
      }
      if k in Tallies(batch) {
        TallyIsPrecise(batch, k, evicted);
        if k in scopes && |Tallies(batch)[k].samples| <= EVICTION_SAMPLE_CAP {
          TallyComesFrom(batch, k);
          MergedIsPrecise(k, scopes[k], Tallies(batch)[k], evicted + set e | e in batch);
        }
      }
    }
  }

  /** A query the evidence could not clear stays uncleared after any later recording. */
  lemma {:induction false} RecordedIsMonotone(scopes: Scopes, legacy: Option<Legacy>, batch: seq<Event>, evicted: set<Event>, q: Query)
    requires forall k :: k in scopes ==> Precise(k, scopes[k], evicted)
    requires Incomplete(q, scopes, legacy)
    ensures Incomplete(q, Recorded(scopes, batch), legacy)
  {
    if !LegacyMayMatch(q, legacy) {
      var k :| k in scopes && RowMayMatch(q, k, scopes[k]);
      assert Precise(k, scopes[k], evicted);
      var after := Recorded(scopes, batch);
      if Collapses(scopes, batch) {
        AbsorbedBounds(scopes, k);
        assert RowMayMatch(q, WILDCARD, after[WILDCARD]);
      } else {
        if k in Tallies(batch) {
          MergedMayMatch(q, k, scopes[k], Tallies(batch)[k], evicted);
        }
        assert RowMayMatch(q, k, after[k]);
      }
    }
  }

  lemma {:induction false} MergedMayMatch(q: Query, k: ScopeKey, p: ScopeRow, t: Tally, evicted: set<Event>)
    requires Precise(k, p, evicted) && RowMayMatch(q, k, p)
    ensures RowMayMatch(q, k, Merged(Some(p), t))
  {
    if p.complete {
      var s :| s in p.samples && SampleMatches(q, s);
      assert s in p.samples + t.samples;
    }
  }
}
