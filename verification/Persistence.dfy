/** The four dashboard tables and the writes made after every start and resume. */
module Persistence {
  import opened Prelude
  import opened Domain
  import Apply = ApplyGraph
  import Discovery

  datatype JobStatus = Queued | Rejected | HumanReview | Duplicate

  /** A job as last written; a write without a match result keeps the one already stored. */
  datatype JobRow = JobRow(runId: string, job: Job, status: JobStatus, result: Option<MatchResult>)

  datatype RunStatus = RunWaiting | RunCompleted

  datatype RunRow = RunRow(
    status: RunStatus,
    enabledPortals: seq<string>,
    metrics: Option<Discovery.Metrics>,
    warnings: seq<string>,
    errors: seq<Discovery.RunError>,
    completedAt: Option<nat>)

  /** `AppCompleted` is the fallback for a graph that ended without a status. */
  datatype AppStatus = AppWaiting | AppEnded(status: Apply.Status) | AppCompleted

  /** What the graph call returned: a question, or the status of its final state if that was set. */
  datatype AppResult = Interrupted(payload: Apply.Payload) | Finished(status: Option<Apply.Status>)

  datatype AppRow = AppRow(
    jobId: string,
    jobTitle: string,
    company: string,
    formPageUrl: string,
    createdAt: nat,
    status: AppStatus,
    interruptReason: Option<string>,
    submittedAt: Option<nat>)

  datatype Kind = OfRun | OfApplication

  datatype Payload = RunPayload(review: seq<ScoredJob>) | AppPayload(payload: Apply.Payload)

  datatype Intervention = Intervention(
    kind: Kind,
    refId: string,
    reason: string,
    payload: Payload,
    pending: bool,
    resolvedAt: Option<nat>)

  datatype Tables = Tables(
    jobs: map<string, JobRow>,
    runs: map<string, RunRow>,
    applications: map<string, AppRow>,
    interventions: seq<Intervention>)

  const REVIEW_REASON := "HUMAN_REVIEW_REQUIRED"

  // --- jobs ---

  /** One row to write. */
  datatype Entry = Entry(job: Job, status: JobStatus, result: Option<MatchResult>)

  function ScoredEntries(list: seq<ScoredJob>, status: JobStatus): seq<Entry> {
    Map(list, (s: ScoredJob) => Entry(s.job, status, Some(s.result)))
  }

  function DuplicateEntries(list: seq<Job>): seq<Entry> {
    Map(list, (j: Job) => Entry(j, Duplicate, None))
  }

  /** The rows a run writes, in write order: queue, rejected, review, duplicates. */
  function Entries(st: Discovery.RunState): seq<Entry> {
    ScoredEntries(st.queue, Queued) + ScoredEntries(st.rejected, Rejected)
    + ScoredEntries(st.review, JobStatus.HumanReview) + DuplicateEntries(st.duplicates)
  }

  function Upsert(jobs: map<string, JobRow>, runId: string, e: Entry): map<string, JobRow> {
    var kept := if e.job.id in jobs then jobs[e.job.id].result else None;
    jobs[e.job.id := JobRow(runId, e.job, e.status, if e.result.Some? then e.result else kept)]
  }

  function UpsertAll(jobs: map<string, JobRow>, runId: string, entries: seq<Entry>): map<string, JobRow> {
    if entries == [] then jobs
    else Upsert(UpsertAll(jobs, runId, entries[..|entries| - 1]), runId, entries[|entries| - 1])
  }

  // --- interventions ---

  /** The row a query for the pending intervention of a reference selects. */
  predicate Selected(i: Intervention, kind: Kind, refId: string) {
    i.kind == kind && i.refId == refId && i.pending
  }

  /** The positions below `n` of the selected rows. */
  function PendingAt(list: seq<Intervention>, kind: Kind, refId: string, n: nat): seq<nat>
    requires n <= |list|
  {
    if n == 0 then []
    else PendingAt(list, kind, refId, n - 1) + if Selected(list[n - 1], kind, refId) then [n - 1] else []
  }

  lemma {:induction false} PendingAtMembers(list: seq<Intervention>, kind: Kind, refId: string, n: nat)
    requires n <= |list|
    ensures forall i: nat :: i in PendingAt(list, kind, refId, n) <==> i < n && Selected(list[i], kind, refId)
    ensures forall k, m :: 0 <= k < m < |PendingAt(list, kind, refId, n)| ==>
              PendingAt(list, kind, refId, n)[k] < PendingAt(list, kind, refId, n)[m]
  {
    hide Selected;
    if n > 0 {
      PendingAtMembers(list, kind, refId, n - 1);
      var before := PendingAt(list, kind, refId, n - 1);
      forall k | 0 <= k < |before| ensures before[k] < n - 1 {
        assert before[k] in before;
      }
    }
  }

  /** `None` is the exception raised when more than one row is selected. */
  function UpsertPending(list: seq<Intervention>, kind: Kind, refId: string, reason: string, payload: Payload): Option<seq<Intervention>> {
    var at := PendingAt(list, kind, refId, |list|);
    if |at| > 1 then None
    else if |at| == 1 then (
      PendingAtMembers(list, kind, refId, |list|);
      assert at[0] in at;
      Some(list[at[0] := Intervention(kind, refId, reason, payload, true, None)]))
    else Some(list + [Intervention(kind, refId, reason, payload, true, None)])
  }

  function ResolveOne(i: Intervention, kind: Kind, refId: string, now: nat): Intervention {
    if Selected(i, kind, refId) then i.(pending := false, resolvedAt := Some(now)) else i
  }

  function Resolve(list: seq<Intervention>, kind: Kind, refId: string, now: nat): seq<Intervention> {
    Map(list, (i: Intervention) => ResolveOne(i, kind, refId, now))
  }

  // --- whole writes ---

  /** The row of a run after a write. */
  function RunRowAfter(before: Option<RunRow>, t: Discovery.Thread, now: nat): RunRow {
    var stamp := if before.Some? then before.value.completedAt else None;
    RunRow(
      if t.Paused? then RunWaiting else RunCompleted,
      t.state.enabledPortals, t.state.metrics, t.state.warnings, t.state.errors,
      if t.Completed? && stamp.None? then Some(now) else stamp)
  }

  function Find<V>(m: map<string, V>, id: string): Option<V> {
    if id in m then Some(m[id]) else None
  }

  /** `None` is an exception, after which nothing has been committed. */
  function PersistRun(tables: Tables, runId: string, t: Discovery.Thread, now: nat): Option<Tables> {
    var interventions :=
      if t.Paused? then UpsertPending(tables.interventions, OfRun, runId, REVIEW_REASON, RunPayload(t.payload))
      else Some(Resolve(tables.interventions, OfRun, runId, now));
    if interventions.None? then None
    else Some(Tables(
      UpsertAll(tables.jobs, runId, Entries(t.state)),
      tables.runs[runId := RunRowAfter(Find(tables.runs, runId), t, now)],
      tables.applications,
      interventions.value))
  }

  function NewApplication(job: Job, formPageUrl: string, now: nat): AppRow {
    AppRow(job.id, job.title, job.company, formPageUrl, now, AppWaiting, None, None)
  }

  /** The row of an application after its graph paused or ended. */
  function AppRowAfter(row: AppRow, result: AppResult, now: nat): AppRow {
    match result
    case Interrupted(payload) => row.(status := AppWaiting, interruptReason := Some(Apply.Reason(payload)))
    case Finished(status) =>
      row.(status := if status.Some? then AppEnded(status.value) else AppCompleted, interruptReason := None,
           submittedAt := if status in {Some(Apply.DryRunReady), Some(Apply.SubmittedMock)} then Some(now) else row.submittedAt)
  }

  function PersistApplication(tables: Tables, id: string, result: AppResult, now: nat): Option<Tables> {
    if id !in tables.applications then Some(tables)
    else
      var interventions :=
        if result.Interrupted? then
          UpsertPending(tables.interventions, OfApplication, id, Apply.Reason(result.payload), AppPayload(result.payload))
        else Some(Resolve(tables.interventions, OfApplication, id, now));
      if interventions.None? then None
      else Some(tables.(applications := tables.applications[id := AppRowAfter(tables.applications[id], result, now)],
                        interventions := interventions.value))
  }

  /** Some application already exists for the job. */
  predicate HasApplication(tables: Tables, jobId: string) {
    exists id :: id in tables.applications && tables.applications[id].jobId == jobId
  }

  /** The database as the program updates it. A method that returns false has raised and committed nothing. */
  class Database {
    var jobs: map<string, JobRow>
    var runs: map<string, RunRow>
    var applications: map<string, AppRow>
    var interventions: seq<Intervention>

    function Contents(): Tables
      reads this
    {
      Tables(jobs, runs, applications, interventions)
    }

    constructor ()
      ensures Contents() == Tables(map[], map[], map[], [])
    {
      jobs, runs, applications, interventions := map[], map[], map[], [];
    }

    method UpsertJobRecord(runId: string, e: Entry)
      modifies this`jobs
      ensures jobs == Upsert(old(jobs), runId, e)
    {
      var result := e.result;
      if e.job.id in jobs && e.result.None? {
        result := jobs[e.job.id].result;
      }
      jobs := jobs[e.job.id := JobRow(runId, e.job, e.status, result)];
    }

    method UpsertJobRecords(runId: string, entries: seq<Entry>)
      modifies this`jobs
      ensures jobs == UpsertAll(old(jobs), runId, entries)
    {
      for i := 0 to |entries|
        invariant jobs == UpsertAll(old(jobs), runId, entries[..i])
      {
        assert entries[..i + 1][..i] == entries[..i];
        UpsertJobRecord(runId, entries[i]);
      }
      assert entries[..|entries|] == entries;
    }

    /** The positions of the pending rows of a reference. */
    method SelectPending(kind: Kind, refId: string) returns (found: seq<nat>)
      ensures found == PendingAt(interventions, kind, refId, |interventions|)
      ensures forall k :: 0 <= k < |found| ==> found[k] < |interventions| && Selected(interventions[found[k]], kind, refId)
    {
      found := [];
      for i := 0 to |interventions|
        invariant found == PendingAt(interventions, kind, refId, i)
        invariant forall k :: 0 <= k < |found| ==> found[k] < |interventions| && Selected(interventions[found[k]], kind, refId)
      {
        if interventions[i].kind == kind && interventions[i].refId == refId && interventions[i].pending {
          found := found + [i];
        }
      }
    }

    /** The query and `scalar_one_or_none`, then insert or update. */
    method UpsertPendingIntervention(kind: Kind, refId: string, reason: string, payload: Payload) returns (ok: bool)
      modifies this`interventions
      ensures var after := UpsertPending(old(interventions), kind, refId, reason, payload);
              ok == after.Some? && interventions == if ok then after.value else old(interventions)
    {
      hide PendingAt;
      var found := SelectPending(kind, refId);
      if |found| > 1 {
        return false;
      }
      if found == [] {
        interventions := interventions + [Intervention(kind, refId, reason, payload, true, None)];
      } else {
        var record := interventions[found[0]];
        interventions := interventions[found[0] := record.(reason := reason, payload := payload, pending := true, resolvedAt := None)];
      }
      ok := true;
    }

    method ResolveInterventions(kind: Kind, refId: string, now: nat)
      modifies this`interventions
      ensures interventions == Resolve(old(interventions), kind, refId, now)
    {
      for i := 0 to |interventions|
        invariant |interventions| == |old(interventions)|
        invariant forall k :: 0 <= k < |interventions| ==>
                    interventions[k] == if k < i then ResolveOne(old(interventions)[k], kind, refId, now) else old(interventions)[k]
      {
        var record := interventions[i];
        if record.kind == kind && record.refId == refId && record.pending {
          interventions := interventions[i := record.(pending := false, resolvedAt := Some(now))];
        }
      }
    }

    method PersistRunResult(runId: string, t: Discovery.Thread, now: nat) returns (ok: bool)
      modifies this
      ensures var after := PersistRun(old(Contents()), runId, t, now);
              ok == after.Some? && Contents() == if ok then after.value else old(Contents())
    {
      ok := true;
      if t.Paused? {
        ok := UpsertPendingIntervention(OfRun, runId, REVIEW_REASON, RunPayload(t.payload));
      } else {
        ResolveInterventions(OfRun, runId, now);
      }
      if !ok {
        return;
      }
      var row := if runId in runs then runs[runId] else RunRow(RunWaiting, [], None, [], [], None);
      row := row.(status := if t.Paused? then RunWaiting else RunCompleted,
                  enabledPortals := t.state.enabledPortals, metrics := t.state.metrics,
                  warnings := t.state.warnings, errors := t.state.errors);
      if t.Completed? && row.completedAt.None? {
        row := row.(completedAt := Some(now));
      }
      runs := runs[runId := row];
      UpsertJobRecords(runId, Entries(t.state));
    }

    method CreateApplicationRecord(id: string, job: Job, formPageUrl: string, now: nat)
      modifies this`applications
      ensures applications == old(applications)[id := NewApplication(job, formPageUrl, now)]
    {
      applications := applications[id := AppRow(job.id, job.title, job.company, formPageUrl, now, AppWaiting, None, None)];
    }

    method PersistApplicationResult(id: string, result: AppResult, now: nat) returns (ok: bool)
      modifies this
      ensures var after := PersistApplication(old(Contents()), id, result, now);
              ok == after.Some? && Contents() == if ok then after.value else old(Contents())
    {
      if id !in applications {
        return true;
      }
      var row := applications[id];
      if result.Interrupted? {
        ok := UpsertPendingIntervention(OfApplication, id, Apply.Reason(result.payload), AppPayload(result.payload));
        if !ok {
          return;
        }
        row := row.(status := AppWaiting, interruptReason := Some(Apply.Reason(result.payload)));
      } else {
        ok := true;
        row := row.(status := if result.status.Some? then AppEnded(result.status.value) else AppCompleted, interruptReason := None);
        if row.status == AppEnded(Apply.DryRunReady) || row.status == AppEnded(Apply.SubmittedMock) {
          row := row.(submittedAt := Some(now));
        }
        ResolveInterventions(OfApplication, id, now);
      }
      applications := applications[id := row];
    }

    method GetApplicationByJobId(jobId: string) returns (row: Option<AppRow>)
      ensures row.Some? <==> HasApplication(Contents(), jobId)
      ensures row.Some? ==> row.value.jobId == jobId && row.value in applications.Values
    {
      if id :| id in applications && applications[id].jobId == jobId {
        row := Some(applications[id]);
      } else {
        row := None;
      }
    }
  }
}
