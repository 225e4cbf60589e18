/**
 The events table: an append-only log of rows whose ids come from an
 AUTOINCREMENT key, so they start at 1, ascend, and are never reused.
 Telemetry rows (progress, error) may be evicted; Run rows never are.
 */
module Events {
  import opened Prelude

  const EVENT_RUN := "theozolith.run"
  const EVENT_PROGRESS := "theozolith.run.progress"
  const EVENT_ERROR := "theozolith.error"

  // Phases in which the driver still holds the claim; `failed` is one of them.
  const LIVE_RUN_PHASES := {"claimed", "gate", "failed"}

  datatype Event = Event(
    id: nat,
    kind: string,
    receivedAt: real,
    payload: string,
    node: Option<string>,
    component: Option<string>,
    repo: Option<string>,
    issue: Option<int>,
    phase: Option<string>)

  predicate Evictable(e: Event) {
    e.kind == EVENT_PROGRESS || e.kind == EVENT_ERROR
  }

  ghost predicate Ascending(log: seq<Event>) {
    forall i, j :: 0 <= i < j < |log| ==> log[i].id < log[j].id
  }

  function Last(log: seq<Event>): Event
    requires log != []
  {
    log[|log| - 1]
  }

  function Front(log: seq<Event>): seq<Event>
    requires log != []
  {
    log[..|log| - 1]
  }

  /** The evictable rows of the log, oldest first. */
  function Telemetry(log: seq<Event>): (rows: seq<Event>)
    ensures forall e :: e in rows <==> e in log && Evictable(e)
  {
    if log == [] then []
    else
      var rest := Telemetry(Front(log));
      assert log == Front(log) + [Last(log)];
      if Evictable(Last(log)) then rest + [Last(log)] else rest
  }

  /** The log without the rows carrying the given ids. */
  function Without(log: seq<Event>, ids: set<nat>): (rows: seq<Event>)
    ensures forall e :: e in rows <==> e in log && e.id !in ids
  {
    if log == [] then []
    else
      var rest := Without(Front(log), ids);
      assert log == Front(log) + [Last(log)];
      if Last(log).id in ids then rest else rest + [Last(log)]
  }

  /** The newest Run row of one (repo, issue) group. */
  function LatestRun(log: seq<Event>, repo: Option<string>, issue: int): Option<Event> {
    if log == [] then None
    else if Last(log).kind == EVENT_RUN && Last(log).repo == repo && Last(log).issue == Some(issue)
      then Some(Last(log))
    else LatestRun(Front(log), repo, issue)
  }

  /** Whether (repo, issue) is a live claim: its newest Run row is not terminal. */
  predicate Live(log: seq<Event>, repo: string, issue: int) {
    var run := LatestRun(log, Some(repo), issue);
    && repo != ""
    && run.Some?
    && run.value.phase.Some?
    && run.value.phase.value in LIVE_RUN_PHASES
  }

  lemma {:induction false} TelemetryAscends(log: seq<Event>)
    requires Ascending(log)
    ensures Ascending(Telemetry(log))
  {
    if log != [] {
      TelemetryAscends(Front(log));
      forall e | e in Telemetry(Front(log)) ensures e.id < Last(log).id {
        assert e in Front(log);
      }
    }
  }

  lemma {:induction false} WithoutAscends(log: seq<Event>, ids: set<nat>)
    requires Ascending(log)
    ensures Ascending(Without(log, ids))
  {
    if log != [] {
      WithoutAscends(Front(log), ids);
      forall e | e in Without(Front(log), ids) ensures e.id < Last(log).id {
        assert e in Front(log);
      }
    }
  }

  /** Deleting rows of which none is a Run row leaves every claim as it was. */
  lemma {:induction false} WithoutKeepsRuns(log: seq<Event>, ids: set<nat>, repo: Option<string>, issue: int)
    requires forall e :: e in log && e.id in ids ==> e.kind != EVENT_RUN
    ensures LatestRun(Without(log, ids), repo, issue) == LatestRun(log, repo, issue)
  {
    if log != [] {
      WithoutKeepsRuns(Front(log), ids, repo, issue);
      var rest := Without(Front(log), ids);
      if Last(log).id !in ids {
        assert Front(rest + [Last(log)]) == rest;
      }
    }
  }
}
