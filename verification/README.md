# Control Node verification

A Dafny model of the Control Node's load-bearing state machines, with proofs of
the guarantees its documentation and comments state over runs, failures and
races. `dafny verify dfyconfig.toml` checks everything.

## What is modelled

- **The eviction-evidence cache** (`Events`, `Eviction`, `EvictionRuns`,
  `EvidenceHistory`, `EventStore`, `CursorWalk`). Telemetry is evicted oldest first; a bounded
  summary of what went (correlated samples, per-scope bounds, one `*` row, a
  legacy watermark) must answer whether a filtered page could be missing a row.
  The summary is proved to be a function of the set of every row ever evicted,
  and every answer to be decided by that set.
- **The claim protocol** (`Claims`, `ClaimStore`). A granting pass, the
  janitor's release and the nodes' Run events as interleaved steps over one
  store and one GitHub whose calls fail, with or without having taken effect.
- **Escalations** (`BaseDrift`, `DriftJanitor`, `Zombie`, `ZombieJanitor`).
  Multi-write sequences interrupted at any call and resumed by later passes.
- **The pinned-build publish** (`Publish`, `PinnedBuild`, `Staging`,
  `ControlToml`). A commit-first transaction with a marker, a compare-and-swap
  ref move and crash recovery; what is staged, how it repeats, what the dry run
  says; the printer and readers of `control.toml` it all rests on.
- **The config distribution** (`TreeWalk`, `Orders`, `ConfigDist`). The tree
  walk, the canonical manifest, packing, and unpack-and-recompute verification.
- **The convergence ladder** (`Ladder`, `LadderStore`). Two counters, one
  restart lever.
- **Image identity and join strings** (`Json`, `ImageIdentity`, `JoinString`).

Each protocol is a pure machine (`Next`, `Run`) whose theorems range over all
runs, and each piece of imperative source is a class or method proved to compute
the specification function or to be a run of the machine. Every external call is
a step that the environment decides. SHA-256 is a function parameter, injective
where a result needs it; a byte string is a `string` of byte values in the
distribution and a sequence of bytes in the join string; timestamps are reals; a
git tree is a map from paths to contents and a commit id stands for its content.

## Where the code and its description part

- `IngestError` promises that nothing has been committed; after the ref move a
  failing report, reset or clean raises it with the commit published; exactly
  then (`Publish.FailedYetPublishedIff`, `PinnedBuild.PinnedBuild.Ingest`;
  `Publish.FailureAfterTheSwapIsPublished` is a run).
- The sync takes any failing `git rev-parse` for an unborn HEAD, so one failing
  call on a born HEAD removes the marker over a lagging tree
  (`Publish.UnreadableHeadLosesMarker`). That is the only way to an unsafe state
  (`Publish.CrashSafetyFailsIff`). Removing the marker may itself fail silently
  (`Publish.PublishEndsSettled`).
- `control.toml` strings escape only backslash and quote. A setting with another
  control character is committed unreadable, and every later ingest is refused
  (`ControlToml.RenderReadsBack`, `Staging.UnprintableBlocksEveryIngest`).
- The preview reads ignored leftovers the real ingest purges first, and under a
  marker on an unborn HEAD it skips the dirty check the real ingest makes
  (`Staging.UnbornMarkerMisleadsThePreview`). `Staging.DryRunAgreesIff` says for
  every build and source when the two agree.
- "A half-written claim is never orphaned" fails in exactly two steps
  (`Claims.StepIsSoundIff`, `Claims.RunIsSoundIff`). A grant write may land after
  the unwind that should have undone it (`Claims.UntimelyReleaseOrphans`); a
  window that outlasts the three writes rules that out
  (`Claims.TimelyRunHasNoLateWrite`). And a sweep decides on the live claims it
  read at its start, so it may delete as live a row granted since
  (`Claims.StaleSweepDropsTheRow`, `Claims.StaleDeleteIsALoss`).
- Drift keys keep twelve characters of each SHA, so drift within one prefix is
  silent (`BaseDrift.PrefixCollisionIsSilent`).
- An empty-string event filter can over-report, exactly as
  `EvictionRuns.EvidenceOverReportsIff` says; the HTTP layer never passes one.
- Evicting under a negative budget from a collapsed cache with no telemetry left
  forgets the first id for good, so a cursor no longer narrows the answer
  (`EvidenceHistory.Blanked`, `EvidenceHistory.AnswerIsHistorys`); the shipped
  setting admits no such budget.
- A distributed file name whose backslash-separated parts are unsafe cannot be
  packed at all (`ConfigDist.PackVerifiesIff`).
- Compose does not check a port in the address, so it can return a join string
  the node refuses (`JoinString.JoinStringsDecode`).

## Model

| member | source | states |
|---|---|---|
| Eviction.EvictionIsMinimal | control/src/theozolith_control/store.py:1095-1143 | for a budget of at least 0 the evicted rows are the shortest oldest-first prefix of evictable rows that brings the payload total within budget; below 0 everything goes |
| Eviction.RecordedCoversBatch | control/src/theozolith_control/store.py:1145-1241 | every row of an evicted batch is covered by the evidence recorded for it, whether the scopes spread or collapse into the `*` row |
| Eviction.RecordedKeepsCover | control/src/theozolith_control/store.py:1145-1241 | recording a further batch never loses the cover of an earlier evicted row, through sample overflow, collapse and unknown bounds |
| Eviction.RecordedIsBounded | control/src/theozolith_control/store.py:1145-1241 | after every recording there are at most 64 scope rows with at most 32 samples each |
| Eviction.RecordedCounts | control/src/theozolith_control/store.py:1145-1241 | the evicted counts grow by exactly the batch, across collapses |
| Eviction.AbsorbedBounds | control/src/theozolith_control/store.py:1152-1180 | the absorbed wildcard spans every scope it replaces, and an unknown first id (0) in any of them makes it unknown |
| Eviction.AbsorbedAnyOrder | control/src/theozolith_control/store.py:1152-1180 | absorbing the scope rows gives the same bounds in whatever order they are read |
| EvictionRuns.EvidenceIsSound | control/src/theozolith_control/store.py:1095-1312 | over every run of inserts and evictions from any sound state, legacy rows included: a query one evicted row ever satisfied in full is reported incomplete |
| EvictionRuns.EvidenceIsMonotone | control/src/theozolith_control/store.py:1194-1312 | a query once reported incomplete stays incomplete after any further inserts and evictions |
| EvidenceHistory.EvidenceTellsHistory | control/src/theozolith_control/store.py:1145-1241 | after every run from a fresh cache the evidence is a function of the rows ever evicted: per scope one row with their least and greatest id, greatest time and count, every one of them listed while they are at most 32; past 64 distinct scopes one such row for all |
| EvidenceHistory.AnswerIsHistorys | control/src/theozolith_control/store.py:1254-1312 | for every query after every run, complete samples or not: incomplete if and only if some named scope has an evicted row within both bounds, or, once it has more than 32 evicted rows, one within each; past 64 scopes the same over all evicted rows |
| EvidenceHistory.AnyEvictedIsTrue | control/src/theozolith_control/store.py:1281-1290 | the evidence is empty exactly while nothing was ever evicted |
| EvictionRuns.LegacyAnswer | control/src/theozolith_control/store.py:1281-1289 | a legacy watermark only adds doubt: for windows reaching back to it, or any when its time is unknown |
| EvictionRuns.EvictionTakesOldestTelemetry | control/src/theozolith_control/store.py:1095-1143 | an eviction deletes progress and error rows only, oldest first, until the bytes left fit a budget of at least 0 and not one row more; below 0 it deletes them all |
| EvictionRuns.EvidenceIsExact | control/src/theozolith_control/store.py:1281-1312 | for every query, while every scope still has complete samples and there is no legacy row, the answer is incomplete if and only if some evicted row matches it column for column with a NULL column read as the empty string |
| EvictionRuns.EvidenceIsExactForProperFilters | control/src/theozolith_control/store.py:1281-1312 | hence, for filters that are not the empty string, incomplete if and only if some evicted row would have been returned |
| EvictionRuns.EvidenceOverReportsIff | control/src/theozolith_control/store.py:1281-1312 | the answer is incomplete with no evicted row that would have been returned exactly when there are evicted rows matching with NULL as the empty string and an empty filter names a NULL column of each |
| EvictionRuns.EmptyFilterOverReports | control/src/theozolith_control/store.py:1281-1312 | a run in which that over-report happens |
| EvictionRuns.EvidenceConservesCounts | control/src/theozolith_control/store.py:1095-1241 | from an empty store, after every run the evidence is bounded and its counts sum to the rows ever evicted |
| EvictionRuns.EvictionKeepsClaims | control/src/theozolith_control/store.py:1095-1143 | eviction never touches a Run event, so no claim becomes or stops being live |
| EvictionRuns.UnknownAbsorbsOnlyLast | control/src/theozolith_control/store.py:1165-1193 | in the running fold a first id of 0 survives exactly when it is folded last, which is why the absorbed wildcard is inserted last |
| EventStore.FoldIsBatch | control/src/theozolith_control/store.py:1181-1193 | folding the scopes of a batch in dictionary order, whatever that order, gives the batch its own count and bounds |
| EventStore.EventStore.RecordEvent | control/src/theozolith_control/store.py:856-916 | appends one row under a never-reused id and nothing else |
| EventStore.EventStore.EvictProgress | control/src/theozolith_control/store.py:1095-1143 | the whole transaction: the store moves to the state the run semantics give for this budget and returns the number of rows evicted |
| EventStore.EventStore.ChooseDoomed | control/src/theozolith_control/store.py:1109-1135 | the oldest-first loop collects exactly the minimal prefix and its per-scope tallies |
| EventStore.EventStore.RecordEvictionScopes | control/src/theozolith_control/store.py:1145-1241 | the scope rows become the recorded evidence, spread per scope or one collapsed `*` row over the cap, whose bounds EvidenceTellsHistory ties to the evicted rows |
| EventStore.EventStore.EvictionEvidence | control/src/theozolith_control/store.py:1254-1312 | one scan of the scope rows in any order answers whether anything was ever evicted and whether this query may be missing a row |
| EventStore.EventStore.EventsPage | control/src/theozolith_control/store.py:1314-1378 | the newest matching rows below the cursor, descending, at most the requested limit clamped to 1..500, a full page giving the next cursor; both indicators as the evidence has them |
| CursorWalk.PageIsOrdered | control/src/theozolith_control/store.py:1314-1378 | a page holds at most the limit of matching rows, strictly descending by id |
| CursorWalk.PageIsNewest | control/src/theozolith_control/store.py:1314-1378 | a matching row missing from a page lies behind a full page |
| CursorWalk.WalkIsCompleteOrFlagged | control/src/theozolith_control/store.py:1314-1378 | with inserts and evictions anywhere, also between a page's two reads: a finished walk returned every matching row present at its start, once and in strictly descending order, or some page reported an eviction |
| CursorWalk.CursorDescends | control/src/theozolith_control/app.py:963-977 | with a limit of at least 1 the cursor strictly decreases, so a walk terminates |
| Ladder.LadderRefinesHistory | control/src/theozolith_control/store.py:650-717 | for a constant threshold a beat answers restart-queued iff it is the t-th consecutive counted off beat, escalated iff the 2t-th, nothing otherwise; a threshold below 1 acts as 1 |
| Ladder.RowIsStreak | control/src/theozolith_control/store.py:650-717 | the stored health row is a function of the consecutive off beats in the history |
| Ladder.OneLadderRestartPending | control/src/theozolith_control/store.py:694-709 | with both subsystems, operator commands and completions interleaved, at most one ladder-queued restart per node is pending |
| Ladder.RestartRungIsSatisfied | control/src/theozolith_control/store.py:694-709 | whenever a rung answers restart-queued a restart for that node is pending afterwards |
| LadderStore.LadderStore.ObserveConvergence | control/src/theozolith_control/store.py:650-717 | one heartbeat updates the health table and the command queue exactly as the ladder function says |
| LadderStore.LadderStore.HasPendingRestart | control/src/theozolith_control/store.py:697-702 | finds a pending restart of the node if and only if there is one |
| LadderStore.LadderStore.QueueCommand | control/src/theozolith_control/store.py:1754-1761 | queues one command under a fresh id |
| LadderStore.LadderStore.CompleteCommands | control/src/theozolith_control/store.py:1784-1792 | marks done exactly the node's commands with the given ids and changes no other |
| Ladder.CompletionIsExact | control/src/theozolith_control/store.py:1784-1792 | after a completion a command is done if and only if it was done or is the node's own and listed |
| Claims.NoDoubleGrant | control/src/theozolith_control/dispatch.py:242-282 | from a pass's grant row until the janitor deletes that row or a Run event with a non-live phase arrives, no pass grants the same (repo, issue), for every interleaving |
| Claims.ReadOrderMatters | control/src/theozolith_control/dispatch.py:248-249 | read live claims first and grants second and both reads can miss a guarded issue: the claimed event moves it from one table to the other |
| Claims.NoClaimIsLost | control/src/theozolith_control/dispatch.py:307-325 | whichever call fails, in every interleaving whose steps do not spoil, a key once granted has its row, or is being unwound, or is back in the pool on GitHub, or since its latest grant a claimed event found and consumed the row or a sweep began and read the claim as live |
| Claims.StepIsSoundIff | control/src/theozolith_control/janitor.py:346-399 | a step loses a claim if and only if it deletes as live a row granted after the sweep read the live claims, or it is a grant write that lands on an unwound issue or on one whose unwind is past undoing it |
| Claims.RunIsSoundIff | control/src/theozolith_control/janitor.py:346-399 | a run is sound at every point if and only if none of its steps is one of those two |
| Claims.HistoryIsBacked | control/src/theozolith_control/dispatch.py:307-325 | the history flags the theorems use say what happened: a key has a fate exactly when it was granted, is activated exactly when a claimed event consumed its row since, and is settled only if a sweep begun since saw it live |
| Claims.StaleDeleteIsALoss | control/src/theozolith_control/janitor.py:360-370 | a row deleted on a sight older than itself leaves no row, no unwind, no claimed event and no sight of the claim since its grant |
| Claims.StaleSweepDropsTheRow | control/src/theozolith_control/janitor.py:360-370 | such a deletion is reached from any store with an old row and a live claim: the claim runs and ends during the sweep, a new grant fails half way, and its row is dropped with the assignee left on GitHub |
| Claims.LateWriteIsALoss | control/src/theozolith_control/janitor.py:370-387 | a grant write that lands on an unwound issue marks it claimed with no row, no unwind and no claimed event since its grant |
| Claims.TimelyRunHasNoLateWrite | control/src/theozolith_control/janitor.py:361-398 | when the janitor takes no row whose grant is still being written, no run has a late write |
| Claims.UntimelyReleaseOrphans | control/src/theozolith_control/janitor.py:361-398 | a late write is reached: a release overtakes the grant's own writes and leaves an assignee no table and no event accounts for |
| Claims.FailedUnwindPutsTheRowBack | control/src/theozolith_control/janitor.py:382-387 | a raising unwind call restores the row; the row being gone meanwhile, a janitor that died there would lose the claim |
| ClaimStore.DueIsExpired | control/src/theozolith_control/store.py:1442-1452 | the rows a release walks are the expired keys of its own repo that still hold a row |
| ClaimStore.PoolIsGrantable | control/src/theozolith_control/dispatch.py:248-282 | what the pass saw in its three reads decides eligibility exactly as the tables and labels do |
| ClaimStore.ClaimStore.RecordRunEvent | control/src/theozolith_control/store.py:856-916 | a claimed Run event is logged and consumes the grant row in one transaction |
| ClaimStore.ClaimStore.GrantingPass | control/src/theozolith_control/dispatch.py:242-325 | decided exactly by the first candidate in listing order that is eligible and not turned away by the gate: unreadable, the pass ends there; clear, it is granted, row before writes; none, nothing happens; what is on GitHub after a failed write; every advisory row: flagged, waiting, cleared or kept |
| ClaimStore.WalkDecides | control/src/theozolith_control/dispatch.py:265-300 | that first candidate is unique, and there is none exactly when every candidate is passed over |
| ClaimStore.ClaimStore.Advise | control/src/theozolith_control/store.py:1536-1576 | an issue is malformed or waiting, never both |
| ClaimStore.ClaimStore.ReleaseNeverActivated | control/src/theozolith_control/janitor.py:346-399 | for distinct due rows exactly those are released whose own calls all succeed, one failure never stopping the rest; every row is accounted for: live keys lose only the row, released ones are back in the pool with no row, failed unwinds keep their row, and GitHub changes in nothing but what an unwind undoes |
| ClaimStore.ClaimStore.Unwind | control/src/theozolith_control/janitor.py:370-387 | assignees off, in_progress off, plan_ready on, in that order, or the row put back exactly when one of those calls or the read raises |
| BaseDrift.CommentBeforeBlock | control/src/theozolith_control/janitor.py:253-343 | the labels reach GitHub for a SHA pair only after that pair's comment is posted and recorded |
| BaseDrift.ExtraCommentsAreLapses | control/src/theozolith_control/janitor.py:253-343 | comments beyond the first are exactly the interruptions between a post and its record |
| BaseDrift.LedgerIsFinal | control/src/theozolith_control/janitor.py:253-343 | once a pair's key is in the ledger no later pass writes to GitHub for it, even after a human unblock |
| BaseDrift.LostRecordIsHealed | control/src/theozolith_control/janitor.py:253-343 | a lost final record is healed without a GitHub write by a pass that still sees the label |
| BaseDrift.PassCompletes | control/src/theozolith_control/janitor.py:253-343 | an uninterrupted pass over an unescalated drift ends blocked, flagged and recorded |
| BaseDrift.SameKeySamePrefixes | control/src/theozolith_control/janitor.py:253-343 | two drifts share a ledger key exactly when both SHAs agree on their first twelve characters |
| BaseDrift.PrefixCollisionIsSilent | control/src/theozolith_control/janitor.py:253-343 | so a tip that moves on within the same twelve characters is taken for the drift already handled |
| BaseDrift.KeysAreNotNotes | control/src/theozolith_control/janitor.py:253-343 | no pair's key is any pair's comment sub-key |
| DriftJanitor.DriftJanitor.DriftOne | control/src/theozolith_control/janitor.py:253-343 | escalates if and only if the drift trigger holds, the PR is not blocked, the key is not recorded, and every call the pass reaches succeeds; states labels, ledger, comment records and writes after every cut, the healed record included; keeps the chained-dependent row in step |
| DriftJanitor.DriftJanitor.Escalate | control/src/theozolith_control/janitor.py:324-343 | comment, record, labels, final record, in that order, stopping at the first failure, with exactly what each leaves |
| Zombie.NeverBare | control/src/theozolith_control/janitor.py:139-197 | along any failing and resumed run with no human edits the issue carries a claim mark, or failed and needs_human |
| Zombie.EscalationNeedsEvidence | control/src/theozolith_control/janitor.py:139-197 | the escalation labels appear only after the evidence landed |
| Zombie.LedgerIsFinal | control/src/theozolith_control/janitor.py:139-197 | once the run is in the ledger there are no more writes for it |
| Zombie.ClosingMeansEscalated | control/src/theozolith_control/janitor.py:182-197 | the final ledger record is written only when the claim is fully stripped and escalated |
| Zombie.LostRecordIsExcused | control/src/theozolith_control/janitor.py:139-197 | when only the final record was lost, the next pass writes it without touching GitHub |
| ZombieJanitor.ZombieJanitor.SweepOne | control/src/theozolith_control/janitor.py:139-197 | one sweep of one claim is a run of the zombie machine; it escalates if and only if the claim is silent, unrecorded and marked, its PR not in review, its evidence landed, and every call succeeds; states assignees, labels, record and flag after every cut: a resurfaced claim loses its flag, an excused one is recorded |
| ZombieJanitor.ZombieJanitor.Escalate | control/src/theozolith_control/janitor.py:182-197 | labels and comment, then the claim stripped, then the ledger, stopping at the first failure, with exactly what is left |
| ZombieJanitor.ZombieJanitor.Release | control/src/theozolith_control/janitor.py:186-197 | every assignee removed one call at a time, then in_progress, then the record, as far as the calls succeed |
| Publish.PublishIsCrashSafe | control/src/theozolith_control/ingest.py:1101-1136 | at every interruption point, with outsiders committing at any time, the working tree is HEAD or the pending marker is present |
| Publish.NothingIsOrphaned | control/src/theozolith_control/ingest.py:1110-1127 | whoever moved HEAD and whatever failed since, a commit that was ever HEAD stays an ancestor of HEAD |
| Publish.NothingMovesBeforeTheSwap | control/src/theozolith_control/ingest.py:761-796 | until the ref move itself no step of an ingest shows in the refs |
| Publish.PublishEndsSettled | control/src/theozolith_control/ingest.py:1128-1138 | when a publish or a no-op is reported the tree is HEAD; after a publish the marker remains exactly when removing it failed, and a no-op leaves tree and marker as they were |
| Publish.CrashSafetyFailsIff | control/src/theozolith_control/ingest.py:254-289 | along any run some state is unsafe if and only if a rev-parse failed on a born HEAD over a lagging tree and, with no death, edit, outside commit or removal in between, the marker was then removed |
| Publish.UnreadableHeadLosesMarker | control/src/theozolith_control/ingest.py:254-286 | a failing rev-parse on a born HEAD is read as unborn: a run that ends with a lagging tree and no marker |
| Publish.FailedYetPublishedIff | control/src/theozolith_control/ingest.py:1101-1138 | over every run of one ingest with outsiders at any time: it ends failed with its commit published if and only if the ref moved and then its report, the reset, the clean or the process failed |
| Publish.FailureAfterTheSwapIsPublished | control/src/theozolith_control/ingest.py:1128-1134 | a run in which that happens and the tree is repaired, against the promise that nothing was committed |
| Publish.RunKeepsInv | control/src/theozolith_control/ingest.py:1101-1136 | history chain, marker window and settled stages hold after every run of the transaction |
| PinnedBuild.PinnedBuild.SyncToHead | control/src/theozolith_control/ingest.py:254-267 | reset then full clean, an unborn or unreadable HEAD counting as in sync |
| PinnedBuild.PinnedBuild.RecoverPending | control/src/theozolith_control/ingest.py:270-289 | with no marker nothing changes; with one the sync is finished, and a failing sync leaves the marker |
| PinnedBuild.PinnedBuild.RefuseOrPurge | control/src/theozolith_control/ingest.py:961-993 | a dirty tree is refused untouched; otherwise ignored leftovers are purged |
| PinnedBuild.PinnedBuild.CommitStaging | control/src/theozolith_control/ingest.py:761-796 | a commit of the staged tree on the HEAD that was read, or none when that HEAD already has the tree; the ref does not move |
| PinnedBuild.PinnedBuild.PublishCommit | control/src/theozolith_control/ingest.py:1101-1138 | marker, compare-and-swap, sync, unmark: HEAD moves exactly when the mark is whole, HEAD is the expected one and the ref takes; published is reported exactly when also the swap reports, the reset and the clean succeed; otherwise the tree is repaired to HEAD and the marker goes exactly when the repair's own calls succeed |
| PinnedBuild.PinnedBuild.RepairNow | control/src/theozolith_control/ingest.py:1128-1134 | the repair a failing publish attempts: the tree it leaves, and the marker kept exactly when its reset, clean or unlink fails |
| PinnedBuild.PinnedBuild.Ingest | control/src/theozolith_control/ingest.py:925-1138 | one whole ingest is a run of the publish machine and keeps its invariant; from the script of calls and the outsiders' moves alone it is decided exactly whether it moves HEAD, whether it reports it, hence when it fails with its commit published, and which marker it leaves; a failing publish whose repair goes well leaves HEAD's tree; a visible hand edit is refused untouched; when every call goes well and nobody interferes HEAD and the tree are the staged tree and no marker is left |
| ControlToml.RenderReadsBack | control/src/theozolith_control/controltoml.py:185-290 | reading back the printed file gives the same fields if and only if no printed string holds a control character other than tab; otherwise it does not parse |
| ControlToml.LiteralReads | control/src/theozolith_control/controltoml.py:247-252 | a printed value followed by a newline reads back as itself exactly when it is printable |
| ControlToml.ScanEscape | control/src/theozolith_control/controltoml.py:247-249 | escaping backslash and quote round-trips through a basic string for printable text only |
| ControlToml.OverlayRestores | control/src/theozolith_control/controltoml.py:229-244 | overlaying only the printed settings on the shipped defaults restores every value |
| ControlToml.OverlayIff | control/src/theozolith_control/controltoml.py:218-234 | the settings table is taken exactly when every key is known and every value acceptable for its kind; a key left out has its default |
| ControlToml.AddressIff | control/src/theozolith_control/controltoml.py:184-216 | an absent port is 443 and a malformed one refused; an absent address or origin is empty |
| ControlToml.ShippedSchemaIsGood | control/src/theozolith_control/controltoml.py:82-159 | the shipped settings have bare, distinct keys and printable defaults, so the round trip applies to them |
| ControlToml.TextDeterminesAddress | control/src/theozolith_control/controltoml.py:255-290 | two printed files with the same settings and printable addresses are the same text only for the same address |
| ControlToml.SettingsLines | control/src/theozolith_control/controltoml.py:281-289 | the loop prints exactly the settings off their default, in schema order |
| ControlToml.Render | control/src/theozolith_control/controltoml.py:255-290 | the line-by-line printer produces the specified file |
| Staging.StagingIsIdempotent | control/src/theozolith_control/ingest.py:426-471 | staging the same source over its own result gives that result again, if and only if the result is printable; otherwise it is refused |
| Staging.DeclaredFilesWin | control/src/theozolith_control/ingest.py:384-471 | a declared product.toml wins, knowledge and pins are staged as given, every copied file arrives, and nothing else does |
| Staging.SecondIngestChangesNothing | control/src/theozolith_control/ingest.py:761-796 | re-running on the same source with the same answers commits nothing when what it staged is printable, and is refused otherwise |
| Staging.StagedAddress | control/src/theozolith_control/ingest.py:729-758 | the staged control.toml carries the pinned address block and the source's settings, readable exactly when printable |
| Staging.AddressSurvives | control/src/theozolith_control/ingest.py:729-758 | control address, port and browser origin survive any run of ingests of printable sources |
| Staging.ProductPinSurvives | control/src/theozolith_control/ingest.py:426-471 | the product pin survives any run of sources without product.toml |
| Staging.UnprintableBlocksEveryIngest | control/src/theozolith_control/ingest.py:729-758 | one unprintable setting is committed all the same, and every later ingest of any source is refused |
| Staging.StagedIsNeverEmpty | control/src/theozolith_control/ingest.py:693-726 | an accepted staging is never empty |
| Staging.DryRunAgreesIff | control/src/theozolith_control/ingest.py:799-842 | over every build and every source, the preview gives the real run's verdict if and only if the source or HEAD's address refuses both, or under a marker no visible untracked file lies over an unborn HEAD, or without a marker the tree is dirty or holds no telling ignored leftover |
| Staging.LeftoversDecide | control/src/theozolith_control/ingest.py:971-993 | over a tree that has HEAD's files, staging from it and from HEAD differ exactly when an ignored control.toml absent from HEAD has an unreadable or other address, or an ignored product.toml absent from HEAD meets a source that brings none, and neither is refused anyway |
| Staging.UnbornMarkerMisleadsThePreview | control/src/theozolith_control/ingest.py:945-969 | a reached disagreement: the first ingest dies before its ref move, a file is left, the next ingest removes the marker and refuses the file while the preview promises a commit |
| Staging.VerdictIsTheTransactions | control/src/theozolith_control/ingest.py:925-1138 | from every idle state, marked or not, born or unborn, dirty or clean, the real verdict is the outcome of the transaction with every call going well: refused with the refs as they were, unchanged, or published as the staged tree |
| Staging.StagingReadsHead | control/src/theozolith_control/ingest.py:961-993 | the tree the transaction stages from is HEAD's, or it has refused |
| Staging.StageTree | control/src/theozolith_control/ingest.py:1030-1057 | the step-by-step staging produces the staged tree or refuses |
| Staging.Preview | control/src/theozolith_control/ingest.py:1058-1083 | the dry run answers the preview's verdict, which is the real run's exactly under the condition of DryRunAgreesIff |
| TreeWalk.RegularFiles | control/src/theozolith_control/configdist.py:94-192 | the explicit-stack walk returns, sorted, exactly the files of the recursive account, whatever the scan order; refusing irregular entries it fails exactly when there is one or the root is none itself, a symlink or no directory; otherwise it follows a symlinked root |
| TreeWalk.WalkStack | control/src/theozolith_control/configdist.py:137-192 | the stack loop finds the files of every frame and terminates on the number of entries still to meet |
| TreeWalk.ExcludedIff | control/src/theozolith_control/configdist.py:85-91 | left out are exactly the names that start with a dot, end in .pyc, or are __pycache__ |
| TreeWalk.FoundIsThere | control/src/theozolith_control/configdist.py:85-192 | what is found is a file of the tree at that path, no component of which is excluded |
| TreeWalk.ThereIsFound | control/src/theozolith_control/configdist.py:85-192 | every file whose path has no excluded component is found |
| TreeWalk.FoundOnce | control/src/theozolith_control/configdist.py:94-192 | each file is found once |
| TreeWalk.PutFileAt | control/src/theozolith_control/configdist.py:549-560 | a file written into a tree is there, nothing is left above or below it, and every other file is where it was |
| Orders.SortedIsUnique | control/src/theozolith_control/configdist.py:227-227 | sorting forgets the order it was given: two sorted lists of the same elements are equal |
| ConfigDist.ManifestIsUnique | control/src/theozolith_control/configdist.py:205-227 | the manifest is a function of the file map alone |
| ConfigDist.ManifestDetermines | control/src/theozolith_control/configdist.py:205-227 | the manifest determines the distributed tree, bytes and executable bits included |
| ConfigDist.HashDeterminesTree | control/src/theozolith_control/configdist.py:230-244 | equal hashes if and only if equal distributed trees, the empty tree having the empty hash |
| ConfigDist.DistManifest | control/src/theozolith_control/configdist.py:205-227 | walking the three distributed directories gives the manifest of exactly the covered files, or refuses exactly when something irregular is distributed |
| ConfigDist.StructureError | control/src/theozolith_control/configdist.py:394-437 | accepts exactly the well-structured member lists and otherwise names the first flaw in order |
| ConfigDist.Extract | control/src/theozolith_control/configdist.py:533-561 | unpacking succeeds exactly when no member's name is a directory of another's, and yields the directory tree of the members |
| ConfigDist.UnpackedHolds | control/src/theozolith_control/configdist.py:533-561 | the unpacked tree holds exactly the members, each at the path its name splits into |
| ConfigDist.UnpackedDistributes | control/src/theozolith_control/configdist.py:562-562 | a walk of the unpacked tree meets nothing irregular and finds below the distributed directories exactly the covered members |
| ConfigDist.Recompute | control/src/theozolith_control/configdist.py:562-562 | walking the unpacked directories recomputes the manifest of the covered members |
| ConfigDist.Verify | control/src/theozolith_control/configdist.py:498-572 | accepts an archive under a hash exactly when structure, unpacking, recomputation and metadata agree on it |
| ConfigDist.NothingRidesOutside | control/src/theozolith_control/configdist.py:394-572 | an accepted archive unpacks to exactly its members, and the manifest a walk of the unpacked tree gives lists each but the metadata, once, with its bytes and executable bit, and nothing else |
| ConfigDist.EqualHashEqualTree | control/src/theozolith_control/configdist.py:498-572 | two accepted archives with equal hashes unpack to equal distributed trees |
| ConfigDist.BuildArtifact | control/src/theozolith_control/configdist.py:293-376 | a non-empty tree packs into an archive accepted under its own hash if and only if every name is a safe member name |
| ConfigDist.PackVerifiesIff | control/src/theozolith_control/configdist.py:293-391 | pack and verify undo each other exactly when every name is safe, and under no other hash |
| ConfigDist.DistributedIsPackable | control/src/theozolith_control/configdist.py:205-227 | a walked tree's names are covered and none is another's directory |
| ConfigDist.TreesWithoutBackslashVerify | control/src/theozolith_control/configdist.py:293-391 | what a walk of any tree without backslashes distributes packs into an archive accepted under that tree's own hash |
| ConfigDist.SafeMembersStayInside | control/src/theozolith_control/configdist.py:379-391 | a safe member name has no empty, `.` or `..` component and is written under itself below the destination |
| ConfigDist.SafeMemberIff | control/src/theozolith_control/configdist.py:379-391 | a name is safe if and only if it is non-empty, relative, without a drive letter, and between slashes of either kind never empty, `.` or `..` |
| Json.TextIsIdentity | control/src/theozolith_control/configrepo.py:631-632 | canonical JSON text is equal if and only if the data is |
| ImageIdentity.IdentityIsExact | control/src/theozolith_control/configrepo.py:595-632 | equal identity text if and only if equal base, materialized setup, baked knowledge with pin and target, and baked policy with pin, despite the conditional keys |
| ImageIdentity.DriverIdentityIsExact | control/src/theozolith_control/configrepo.py:527-632 | two driver types have equal identity text if and only if base, knowledge, its pin, policy, its pin when there is a policy, adapter when knowledge is baked, and setup with its configuration line agree |
| ImageIdentity.DriverlessIdentityIsExact | control/src/theozolith_control/configrepo.py:527-632 | two driverless types have equal identity text if and only if base and setup with its interactive line agree |
| ImageIdentity.MixedIdentityIsExact | control/src/theozolith_control/configrepo.py:527-632 | a driver type and a driverless one agree only when the driver type bakes nothing and base and setup agree |
| ImageIdentity.IdentityAsWritten | control/src/theozolith_control/configrepo.py:619-632 | the document of a driver type key by key, the codex target and the policy keys only when needed |
| ImageIdentity.BaseTagIsTheTag | control/src/theozolith_control/configrepo.py:573-578 | the base tag of a pinned reference is what follows the colon of its last component, or latest |
| ImageIdentity.TagIsExact | control/src/theozolith_control/configrepo.py:634-637 | types of one name share a tag if and only if base tags and the first twelve digits of the hashes agree |
| ImageIdentity.DriverlessTagIgnoresMounts | control/src/theozolith_control/configrepo.py:527-637 | changing knowledge, policy or the CLI pin of a driverless type never changes its tag |
| ImageIdentity.TagIgnoresTheDriverBinding | control/src/theozolith_control/configrepo.py:595-637 | rebinding a driver type to another driver never changes its tag |
| JoinString.JoinStringsDecode | control/src/theozolith_control/joinstring.py:33-47 | the reader recovers expiry, fingerprint, token and address from every string compose returns, and refuses it exactly when the address has a colon whose last one is not followed by a port number from 1 to 65535 |
| JoinString.PortFollowsLastColon | nodedaemon/src/theozolith_nodedaemon/provisioning.py:176-183 | the port is what follows the last colon |
| JoinString.ComposeIsInjective | control/src/theozolith_control/joinstring.py:33-47 | equal join strings carry equal expiry, fingerprint bytes, token and address |
| JoinString.ComposeAcceptsIff | control/src/theozolith_control/joinstring.py:33-43 | compose accepts exactly a 16-byte token, hex of 32 bytes, a non-empty address and an expiry that truncates into 32 bits |
| JoinString.HexReadsBack | control/src/theozolith_control/joinstring.py:33-43 | a printed fingerprint is read byte for byte |
| JoinString.TruncateDropsTheFraction | control/src/theozolith_control/joinstring.py:33-43 | the expiry is the whole part of the time given, towards zero |
| JoinString.PrefixIsWritten | control/src/theozolith_control/joinstring.py:33-47 | the digest covers the prefix as it is written |
| JoinString.Base64ReadsBack | control/src/theozolith_control/joinstring.py:46-47 | unpadded base64url round-trips every byte string |
| JoinString.Utf8ReadsBack | nodedaemon/src/theozolith_nodedaemon/provisioning.py:166-169 | UTF-8 decoding gives back every encoded address |

## Left out

- Claims.NoClaimIsLost: assumes that no step of the run is one of the two that lose a claim (Claims.StepIsSoundIff says they are the only ones); death of the process inside a release and two janitor processes at once are not covered by the code either.
- Publish.PublishIsCrashSafe: assumes that rev-parse in the sync fails only on an unborn HEAD, because without it the claim is false, exactly as Publish.CrashSafetyFailsIff says; hand edits are excluded here and covered by Publish.RunKeepsInv.
- Staging.AddressSurvives: assumes printable settings, because an unprintable one makes the file unreadable (Staging.UnprintableBlocksEveryIngest).
- Staging.DryRunAgreesIff: is about a git-backed build; a plain directory with files is previewed but refused by the real ingest, and a dirty local source is previewed from its working tree.
- Staging.Staged: knowledge compilation, policy validation, pin resolution, the placeholder refusal and the lint of the staged tree are one arbitrary answer per source; the comment text of control.toml is a parameter.
- ControlToml.Coerce: settings given as numeric strings, fractions truncated to an integer kind, and infinities and NaN (which make the printer raise) are not modelled.
- ControlToml.Parse: covers the TOML the printer writes; other escapes, quoted keys, inline tables and multi-line strings are outside it and refused.
- ClaimStore.ClaimStore.GrantingPass: the dependency gate answers arbitrarily per issue; advisory row texts, the dispatch pause and the node gates (version, drivers, quarantine) are not modelled.
- ConfigDist.BuildArtifact: files do not change while packaging; the zip container, its compression and its checksums are not modelled, and the metadata envelope is an encoder with a reader that inverts it.
- JoinString.Parse: what the reader takes for a number is a parameter; its whitespace stripping and its lenience about characters outside the alphabet are not modelled.
- ImageIdentity.Tag: the digest prefix in a tag is twelve characters, so equal tags do not imply equal identities; the materialize instruction is an arbitrary function of adapter, model, effort and scope.
- PinnedBuild.PinnedBuild.Ingest: the git index is not modelled apart from the working tree; the lock, the clone of the source and the report are left out; process death is a step of the Publish machine, not of the method.
- The product-pin and control-address writers as publish steps: they do not consult the pending marker.
- EventStore.EventStore.RecordEvent: event columns other than those queried, and the display time of an eviction, are not modelled; REAL timestamps have no rounding.
- Failure counts, quarantine, sightings, sessions, join-token uses, deferrals and status rows of the store: each follows from one statement.
- Review targets, the merge settings cache and the closure of dependencies: they rest on GitHub data the model does not hold.
- HTTP routing, authentication, TLS, the bootstrap listener, the CLI, the web and terminal surfaces, provisioning of nodes, migration, Docker builds, registry and npm resolution: input and output around the modelled core.
- Secret bindings, job directories, pins and desired state of `configrepo.py`: lookups and refusals, each read from one statement.
- Pruning the artifact cache: a sort and a delete.
