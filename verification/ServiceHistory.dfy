/** The tables mirror the graphs over every serial history of calls. */
module ServiceHistory {
  import opened Prelude
  import Domain
  import opened Persistence
  import opened FormMapping
  import opened Services
  import Apply = ApplyGraph
  import ApplyOutcomes
  import Text
  import Discovery

  /** At most one intervention row, pending or resolved, for each run and each application. */
  ghost predicate OnePerReference(list: seq<Intervention>) {
    forall i, j :: 0 <= i < j < |list| ==> !(list[i].kind == list[j].kind && list[i].refId == list[j].refId)
  }

  ghost predicate PendingFor(list: seq<Intervention>, kind: Kind, refId: string, reason: string, payload: Payload) {
    exists i :: 0 <= i < |list| && list[i] == Intervention(kind, refId, reason, payload, true, None)
  }

  ghost predicate NonePending(list: seq<Intervention>, kind: Kind, refId: string) {
    forall i :: 0 <= i < |list| ==> !Selected(list[i], kind, refId)
  }

  ghost predicate SomePending(list: seq<Intervention>, kind: Kind, refId: string) {
    exists i :: 0 <= i < |list| && Selected(list[i], kind, refId)
  }

  /** The row names the job. */
  ghost predicate RowOf(row: AppRow, job: Domain.Job) {
    row.jobId == job.id && row.jobTitle == job.title && row.company == job.company
  }

  /** The first call ends with a question. */
  ghost predicate Asked(env: Apply.Env) {
    Apply.Start(env).Paused?
  }

  /** The row and interventions of an application say where its graph is. After an exception they keep what was last written:
      the question answered before it stays pending. */
  ghost predicate AppAgrees(row: AppRow, rec: AppRecord, list: seq<Intervention>, id: string) {
    && RowOf(row, rec.env.job)
    && rec.thread == Apply.Replayed(rec.env, rec.history)
    && match rec.thread
       case Paused(_, _, _, p) =>
         && row.status == AppWaiting && row.interruptReason == Some(Apply.Reason(p)) && row.submittedAt == None
         && PendingFor(list, OfApplication, id, Apply.Reason(p), AppPayload(p))
       case Completed(st) =>
         && st.status.Some? && row.status == AppEnded(st.status.value) && row.interruptReason == None
         && (row.submittedAt.Some? <==> st.status.value != Apply.RejectedByHuman)
         && NonePending(list, OfApplication, id)
       case Crashed(_, _, _) =>
         && row.status == AppWaiting && row.submittedAt == None
         && (SomePending(list, OfApplication, id) <==> Asked(rec.env))
  }

  ghost predicate RunAgrees(row: RunRow, rec: RunRecord, list: seq<Intervention>, id: string) {
    && rec.thread == Discovery.Run(rec.env, rec.answer)
    && row.metrics == rec.thread.state.metrics && row.enabledPortals == rec.thread.state.enabledPortals
    && row.warnings == rec.thread.state.warnings && row.errors == rec.thread.state.errors
    && match rec.thread
       case Paused(_, _, review) =>
         && row.status == RunWaiting && row.completedAt == None && rec.answer == None
         && PendingFor(list, OfRun, id, REVIEW_REASON, RunPayload(review))
       case Completed(st) =>
         row.status == RunCompleted && row.completedAt.Some? && NonePending(list, OfRun, id)
  }

  /** Every application but those in `except` agrees with its row. */
  ghost predicate AppsAgree(rows: map<string, AppRow>, recs: map<string, AppRecord>, list: seq<Intervention>, except: set<string>) {
    forall id :: id in recs && id !in except ==> id in rows && AppAgrees(rows[id], recs[id], list, id)
  }

  ghost predicate RunsAgree(rows: map<string, RunRow>, recs: map<string, RunRecord>, list: seq<Intervention>, except: set<string>) {
    forall id :: id in recs && id !in except ==> id in rows && RunAgrees(rows[id], recs[id], list, id)
  }

  ghost predicate ReferencesKnown(list: seq<Intervention>, runs: set<string>, apps: set<string>) {
    forall i :: 0 <= i < |list| ==> list[i].refId in if list[i].kind == OfRun then runs else apps
  }

  ghost predicate OneApplicationPerJob(applications: map<string, AppRow>) {
    forall a, b :: a in applications && b in applications && a != b ==> applications[a].jobId != applications[b].jobId
  }

  ghost predicate Consistent(w: World) {
    && OnePerReference(w.tables.interventions)
    && ReferencesKnown(w.tables.interventions, w.runs.Keys, w.apps.Keys)
    && w.apps.Keys == w.tables.applications.Keys
    && w.runs.Keys == w.tables.runs.Keys
    && AppsAgree(w.tables.applications, w.apps, w.tables.interventions, {})
    && RunsAgree(w.tables.runs, w.runs, w.tables.interventions, {})
    && OneApplicationPerJob(w.tables.applications)
  }

  // --- what one intervention write does to every reference ---

  /** `after` treats one reference's row as given and leaves every other reference alone. */
  ghost predicate OthersKept(before: seq<Intervention>, after: seq<Intervention>, kind: Kind, refId: string) {
    && |before| <= |after|
    && (forall i :: 0 <= i < |before| ==>
          && after[i].kind == before[i].kind && after[i].refId == before[i].refId
          && (!before[i].pending ==> after[i] == before[i])
          && (!(before[i].kind == kind && before[i].refId == refId) ==> after[i] == before[i]))
    && (forall i :: |before| <= i < |after| ==> after[i].kind == kind && after[i].refId == refId)
  }

  lemma UniqueSelection(list: seq<Intervention>, kind: Kind, refId: string)
    requires OnePerReference(list)
    ensures var at := PendingAt(list, kind, refId, |list|);
            && |at| <= 1 && (at == [] ==> NonePending(list, kind, refId))
            && (|at| == 1 ==> at[0] < |list| && Selected(list[at[0]], kind, refId))
  {
    hide OnePerReference;
    PendingAtMembers(list, kind, refId, |list|);
    var at := PendingAt(list, kind, refId, |list|);
    assert forall k :: 0 <= k < |at| ==> at[k] in at;
    if |at| > 1 {
      NotBothSelected(list, at[0], at[1], kind, refId);
    }
  }

  lemma NotBothSelected(list: seq<Intervention>, i: nat, j: nat, kind: Kind, refId: string)
    requires OnePerReference(list) && i < j < |list|
    ensures !(Selected(list[i], kind, refId) && Selected(list[j], kind, refId))
  {
  }

  /** With one row per reference the pending query never finds two rows, and the write leaves exactly one pending row. */
  lemma UpsertKeepsUnique(list: seq<Intervention>, kind: Kind, refId: string, reason: string, payload: Payload)
    requires OnePerReference(list)
    requires forall i :: 0 <= i < |list| && list[i].kind == kind && list[i].refId == refId ==> list[i].pending
    ensures var r := UpsertPending(list, kind, refId, reason, payload);
            && r.Some? && OnePerReference(r.value) && PendingFor(r.value, kind, refId, reason, payload)
            && OthersKept(list, r.value, kind, refId)
  {
    hide PendingAt;
    UniqueSelection(list, kind, refId);
    var at, r := PendingAt(list, kind, refId, |list|), UpsertPending(list, kind, refId, reason, payload);
    if |at| == 1 {
      assert r.value[at[0]] == Intervention(kind, refId, reason, payload, true, None);
    } else {
      forall i | 0 <= i < |list| ensures !(list[i].kind == kind && list[i].refId == refId) {
        assert !Selected(list[i], kind, refId);
      }
      assert r.value[|list|] == Intervention(kind, refId, reason, payload, true, None);
    }
  }

  lemma ResolveKeepsUnique(list: seq<Intervention>, kind: Kind, refId: string, now: nat)
    requires OnePerReference(list)
    ensures var r := Resolve(list, kind, refId, now);
            OnePerReference(r) && NonePending(r, kind, refId) && OthersKept(list, r, kind, refId) && |r| == |list|
  {
  }

  lemma OthersStillAgree(before: seq<Intervention>, after: seq<Intervention>, kind: Kind, refId: string,
                         k: Kind, other: string, reason: string, payload: Payload)
    requires OthersKept(before, after, kind, refId) && !(k == kind && other == refId)
    ensures PendingFor(before, k, other, reason, payload) ==> PendingFor(after, k, other, reason, payload)
    ensures SomePending(before, k, other) <==> SomePending(after, k, other)
    ensures NonePending(before, k, other) ==> NonePending(after, k, other)
  {
    if SomePending(before, k, other) {
      var i :| 0 <= i < |before| && Selected(before[i], k, other);
      assert after[i] == before[i];
    }
    if SomePending(after, k, other) {
      var i :| 0 <= i < |after| && Selected(after[i], k, other);
      assert after[i] == before[i];
    }
    if PendingFor(before, k, other, reason, payload) {
      var i :| 0 <= i < |before| && before[i] == Intervention(k, other, reason, payload, true, None);
      assert after[i] == before[i];
    }
  }

  lemma AppStillAgrees(row: AppRow, rec: AppRecord, before: seq<Intervention>, after: seq<Intervention>, id: string, kind: Kind, refId: string)
    requires AppAgrees(row, rec, before, id) && OthersKept(before, after, kind, refId) && !(kind == OfApplication && id == refId)
    ensures AppAgrees(row, rec, after, id)
  {
    hide Apply.Replayed, PendingFor, NonePending, SomePending, OthersKept;
    var t := rec.thread;
    if t.Paused? {
      OthersStillAgree(before, after, kind, refId, OfApplication, id, Apply.Reason(t.payload), AppPayload(t.payload));
    } else {
      OthersStillAgree(before, after, kind, refId, OfApplication, id, "", RunPayload([]));
    }
  }

  lemma RunStillAgrees(row: RunRow, rec: RunRecord, before: seq<Intervention>, after: seq<Intervention>, id: string, kind: Kind, refId: string)
    requires RunAgrees(row, rec, before, id) && OthersKept(before, after, kind, refId) && !(kind == OfRun && id == refId)
    ensures RunAgrees(row, rec, after, id)
  {
    hide Discovery.Run, PendingFor, NonePending, OthersKept;
    var t := rec.thread;
    if t.Paused? {
      OthersStillAgree(before, after, kind, refId, OfRun, id, REVIEW_REASON, RunPayload(t.payload));
    } else {
      OthersStillAgree(before, after, kind, refId, OfRun, id, "", RunPayload([]));
    }
  }

  // --- what never changes back ---

  /** Intervention rows stay, keep their reference, and are frozen once resolved; a run's completion time and an ended
      application's row are written once; an application never changes its job. */
  ghost predicate Evolves(before: Tables, after: Tables) {
    && |before.interventions| <= |after.interventions|
    && (forall i :: 0 <= i < |before.interventions| ==>
          && after.interventions[i].kind == before.interventions[i].kind && after.interventions[i].refId == before.interventions[i].refId
          && (!before.interventions[i].pending ==> after.interventions[i] == before.interventions[i]))
    && (forall id :: id in before.runs ==> id in after.runs && (before.runs[id].completedAt.Some? ==> after.runs[id] == before.runs[id]))
    && (forall id :: id in before.applications ==>
          && id in after.applications && after.applications[id].jobId == before.applications[id].jobId
          && (before.applications[id].status.AppEnded? ==> after.applications[id] == before.applications[id]))
  }

  lemma EvolvesTransitive(a: Tables, b: Tables, c: Tables)
    requires Evolves(a, b) && Evolves(b, c)
    ensures Evolves(a, c)
  {
  }

  // --- one write, one reference ---

  /** Everything in the world but the application `id` is in order. */
  ghost predicate ReadyToRecord(w: World, id: string) {
    && OnePerReference(w.tables.interventions)
    && ReferencesKnown(w.tables.interventions, w.runs.Keys, w.apps.Keys + {id})
    && w.apps.Keys + {id} == w.tables.applications.Keys
    && w.runs.Keys == w.tables.runs.Keys
    && AppsAgree(w.tables.applications, w.apps, w.tables.interventions, {id})
    && RunsAgree(w.tables.runs, w.runs, w.tables.interventions, {})
    && OneApplicationPerJob(w.tables.applications)
    && w.tables.applications[id].status == AppWaiting && w.tables.applications[id].submittedAt == None
    && (forall i :: 0 <= i < |w.tables.interventions|
                    && w.tables.interventions[i].kind == OfApplication && w.tables.interventions[i].refId == id ==>
                      w.tables.interventions[i].pending)
  }

  /** What recording an application writes. */
  lemma RecordEffect(w: World, id: string, rec: AppRecord, now: nat) returns (row: AppRow, after: seq<Intervention>)
    requires ReadyToRecord(w, id)
    requires RowOf(w.tables.applications[id], rec.env.job) && rec.thread == Apply.Replayed(rec.env, rec.history)
    requires rec.thread.Completed? ==> rec.thread.state.status.Some?
    requires rec.thread.Crashed? ==> (SomePending(w.tables.interventions, OfApplication, id) <==> Asked(rec.env))
    ensures Record(w, id, rec, now).0 == RecordedApp(w, id, rec, row, after)
    ensures Record(w, id, rec, now).1 != DatabaseRaised
    ensures OnePerReference(after) && OthersKept(w.tables.interventions, after, OfApplication, id) && AppAgrees(row, rec, after, id)
  {
    hide Apply.Replayed, UpsertPending, Resolve, PendingFor, NonePending, SomePending, AppsAgree, RunsAgree;
    var before := w.tables.interventions;
    row, after := w.tables.applications[id], before;
    if rec.thread.Crashed? {
      assert w.tables.applications == w.tables.applications[id := row];
    } else {
      row := AppRowAfter(row, Returned(rec.thread), now);
      if rec.thread.Paused? {
        UpsertKeepsUnique(before, OfApplication, id, Apply.Reason(rec.thread.payload), AppPayload(rec.thread.payload));
        after := UpsertPending(before, OfApplication, id, Apply.Reason(rec.thread.payload), AppPayload(rec.thread.payload)).value;
      } else {
        ResolveKeepsUnique(before, OfApplication, id, now);
        after := Resolve(before, OfApplication, id, now);
      }
    }
  }

  function RecordedApp(w: World, id: string, rec: AppRecord, row: AppRow, after: seq<Intervention>): World {
    w.(apps := w.apps[id := rec],
       tables := w.tables.(applications := w.tables.applications[id := row], interventions := after))
  }

  lemma AppsStillAgree(w: World, id: string, rec: AppRecord, row: AppRow, after: seq<Intervention>)
    requires ReadyToRecord(w, id)
    requires OthersKept(w.tables.interventions, after, OfApplication, id) && AppAgrees(row, rec, after, id)
    ensures var w' := RecordedApp(w, id, rec, row, after);
            w'.apps.Keys == w'.tables.applications.Keys && AppsAgree(w'.tables.applications, w'.apps, after, {})
            && RunsAgree(w'.tables.runs, w'.runs, after, {})
  {
    hide AppAgrees, RunAgrees, OthersKept;
    var w', before := RecordedApp(w, id, rec, row, after), w.tables.interventions;
    forall other | other in w'.apps ensures AppAgrees(w'.tables.applications[other], w'.apps[other], after, other) {
      if other != id {
        AppStillAgrees(w.tables.applications[other], w.apps[other], before, after, other, OfApplication, id);
      }
    }
    forall other | other in w'.runs ensures RunAgrees(w'.tables.runs[other], w'.runs[other], after, other) {
      RunStillAgrees(w.tables.runs[other], w.runs[other], before, after, other, OfApplication, id);
    }
  }

  lemma RecordKeepsConsistent(w: World, id: string, rec: AppRecord, now: nat)
    requires ReadyToRecord(w, id)
    requires RowOf(w.tables.applications[id], rec.env.job) && rec.thread == Apply.Replayed(rec.env, rec.history)
    requires rec.thread.Completed? ==> rec.thread.state.status.Some?
    requires rec.thread.Crashed? ==> (SomePending(w.tables.interventions, OfApplication, id) <==> Asked(rec.env))
    ensures var (w', r) := Record(w, id, rec, now);
            Consistent(w') && r != DatabaseRaised && Evolves(w.tables, w'.tables)
  {
    hide Apply.Replayed, Record, AppsAgree, RunsAgree, OnePerReference;
    var row, after := RecordEffect(w, id, rec, now);
    AppsStillAgree(w, id, rec, row, after);
    assert row.jobId == rec.env.job.id;
    var w' := RecordedApp(w, id, rec, row, after);
    assert w'.apps.Keys == w.apps.Keys + {id};
    ReferencesStillKnown(w.tables.interventions, after, OfApplication, id, w.runs.Keys, w'.apps.Keys);
  }

  lemma ReferencesStillKnown(before: seq<Intervention>, after: seq<Intervention>, kind: Kind, refId: string, runs: set<string>, apps: set<string>)
    requires ReferencesKnown(before, runs, apps) && OthersKept(before, after, kind, refId)
    requires refId in if kind == OfRun then runs else apps
    ensures ReferencesKnown(after, runs, apps)
  {
  }

  /** A run may be recorded: it is new, or it is waiting for its first answer. */
  ghost predicate ReadyToRecordRun(w: World, id: string) {
    && Consistent(w)
    && (id in w.runs ==> w.runs[id].thread.Paused?)
  }

  /** What recording a run writes. */
  lemma RecordRunEffect(w: World, id: string, rec: RunRecord, now: nat)
    returns (row: RunRow, after: seq<Intervention>, jobs: map<string, JobRow>)
    requires ReadyToRecordRun(w, id)
    requires rec.thread == Discovery.Run(rec.env, rec.answer) && (rec.thread.Paused? ==> rec.answer == None)
    ensures RecordRun(w, id, rec, now).0 == RecordedRun(w, id, rec, row, after, jobs)
    ensures RecordRun(w, id, rec, now).1 != DatabaseRaised
    ensures OnePerReference(after) && OthersKept(w.tables.interventions, after, OfRun, id) && RunAgrees(row, rec, after, id)
  {
    hide Discovery.Run, UpsertPending, Resolve, PendingFor, NonePending, AppsAgree, RunsAgree, UpsertAll, Entries;
    OwnRowsPending(w, id);
    var before := w.tables.interventions;
    row := RunRowAfter(Find(w.tables.runs, id), rec.thread, now);
    jobs := UpsertAll(w.tables.jobs, id, Entries(rec.thread.state));
    if rec.thread.Paused? {
      UpsertKeepsUnique(before, OfRun, id, REVIEW_REASON, RunPayload(rec.thread.payload));
      after := UpsertPending(before, OfRun, id, REVIEW_REASON, RunPayload(rec.thread.payload)).value;
    } else {
      ResolveKeepsUnique(before, OfRun, id, now);
      after := Resolve(before, OfRun, id, now);
    }
  }

  function RecordedRun(w: World, id: string, rec: RunRecord, row: RunRow, after: seq<Intervention>, jobs: map<string, JobRow>): World {
    w.(runs := w.runs[id := rec], tables := Tables(jobs, w.tables.runs[id := row], w.tables.applications, after))
  }

  lemma RunsStillAgree(w: World, id: string, rec: RunRecord, row: RunRow, after: seq<Intervention>, jobs: map<string, JobRow>)
    requires Consistent(w)
    requires OthersKept(w.tables.interventions, after, OfRun, id) && RunAgrees(row, rec, after, id)
    ensures var w' := RecordedRun(w, id, rec, row, after, jobs);
            AppsAgree(w'.tables.applications, w'.apps, after, {}) && RunsAgree(w'.tables.runs, w'.runs, after, {})
  {
    hide AppAgrees, RunAgrees, OthersKept;
    var w', before := RecordedRun(w, id, rec, row, after, jobs), w.tables.interventions;
    forall other | other in w'.runs ensures RunAgrees(w'.tables.runs[other], w'.runs[other], after, other) {
      if other != id {
        RunStillAgrees(w.tables.runs[other], w.runs[other], before, after, other, OfRun, id);
      }
    }
    forall other | other in w'.apps ensures AppAgrees(w'.tables.applications[other], w'.apps[other], after, other) {
      AppStillAgrees(w.tables.applications[other], w.apps[other], before, after, other, OfRun, id);
    }
  }

  lemma RecordRunKeepsConsistent(w: World, id: string, rec: RunRecord, now: nat)
    requires ReadyToRecordRun(w, id)
    requires rec.thread == Discovery.Run(rec.env, rec.answer) && (rec.thread.Paused? ==> rec.answer == None)
    ensures var (w', r) := RecordRun(w, id, rec, now);
            Consistent(w') && r != DatabaseRaised && Evolves(w.tables, w'.tables)
  {
    hide Discovery.Run, RecordRun, AppsAgree, RunsAgree, OnePerReference, RunAgrees;
    OwnRowsPending(w, id);
    var row, after, jobs := RecordRunEffect(w, id, rec, now);
    RunsStillAgree(w, id, rec, row, after, jobs);
    var w' := RecordedRun(w, id, rec, row, after, jobs);
    assert w'.runs.Keys == w.runs.Keys + {id};
    ReferencesStillKnown(w.tables.interventions, after, OfRun, id, w'.runs.Keys, w.apps.Keys);
  }

  /** The rows of a new or waiting run are pending. */
  lemma OwnRowsPending(w: World, id: string)
    requires ReadyToRecordRun(w, id)
    ensures forall i :: 0 <= i < |w.tables.interventions|
                        && w.tables.interventions[i].kind == OfRun && w.tables.interventions[i].refId == id ==>
                          w.tables.interventions[i].pending
    ensures id in w.tables.runs ==> w.tables.runs[id].completedAt == None
  {
    hide Discovery.Run, AppAgrees;
    var list := w.tables.interventions;
    if id in w.runs {
      var review := w.runs[id].thread.payload;
      assert RunAgrees(w.tables.runs[id], w.runs[id], list, id);
      var k :| 0 <= k < |list| && list[k] == Intervention(OfRun, id, REVIEW_REASON, RunPayload(review), true, None);
      forall i | 0 <= i < |list| && list[i].kind == OfRun && list[i].refId == id ensures list[i].pending {
        assert i == k;
      }
    }
  }

  lemma OwnAppRowsPending(w: World, id: string)
    requires Consistent(w) && id in w.apps && w.apps[id].thread.Paused?
    ensures ReadyToRecord(w, id) && SomePending(w.tables.interventions, OfApplication, id)
  {
    hide Apply.Replayed, Discovery.Run;
    var list := w.tables.interventions;
    assert AppAgrees(w.tables.applications[id], w.apps[id], list, id);
    var p := w.apps[id].thread.payload;
    var k :| 0 <= k < |list| && list[k] == Intervention(OfApplication, id, Apply.Reason(p), AppPayload(p), true, None);
    forall i | 0 <= i < |list| && list[i].kind == OfApplication && list[i].refId == id ensures list[i].pending {
      assert i == k;
    }
    assert Selected(list[k], OfApplication, id);
    assert w.apps.Keys + {id} == w.apps.Keys;
  }

  lemma CreatedReady(w: World, id: string, env: Apply.Env, url: string, now: nat)
    requires Consistent(w) && id !in w.apps && !HasApplication(w.tables, env.job.id)
    ensures var created := w.(tables := w.tables.(applications := w.tables.applications[id := NewApplication(env.job, url, now)]));
            && ReadyToRecord(created, id) && RowOf(created.tables.applications[id], env.job) && Evolves(w.tables, created.tables)
            && !SomePending(w.tables.interventions, OfApplication, id)
  {
    hide Apply.Replayed, Discovery.Run, AppAgrees, RunAgrees;
    var created := w.(tables := w.tables.(applications := w.tables.applications[id := NewApplication(env.job, url, now)]));
    assert id !in w.tables.applications;
    forall other | other in w.tables.applications ensures w.tables.applications[other].jobId != env.job.id {
    }
  }

  lemma HistoryGrows(env: Apply.Env, history: seq<Answer>, a: Answer)
    requires !Apply.Replayed(env, history).Completed?
    ensures Apply.Resume(env, Apply.Replayed(env, history), a) == Apply.Replayed(env, history + [a])
  {
    hide Apply.Execute;
    assert (history + [a])[..|history|] == history;
  }

  /** An application that waits has waited since its first call. */
  lemma {:induction false} WaitingSinceStart(env: Apply.Env, history: seq<Answer>)
    requires Apply.Replayed(env, history).Paused?
    ensures Asked(env)
  {
    hide Apply.Execute, Apply.Resume;
    if history != [] {
      var before := history[..|history| - 1];
      if Apply.Replayed(env, before).Crashed? {
        Apply.CrashRepeats(env, before, history[|history| - 1]);
      } else {
        WaitingSinceStart(env, before);
      }
    }
  }

  /** Resuming a raised application raises again and changes no table. */
  lemma RetryRaises(w: World, id: string, answer: Answer, now: nat)
    requires Consistent(w) && id in w.apps && w.apps[id].thread.Crashed?
    ensures var (w', r) := Serve(w, ResumeApplication(id, answer, now));
            && r == GraphRaised && w'.tables == w.tables && w'.runs == w.runs && Consistent(w')
            && w'.apps == w.apps[id := w.apps[id].(history := w.apps[id].history + [answer])]
  {
    hide Apply.Replayed, Apply.Resume, Consistent;
    var rec := w.apps[id];
    AppFacts(w, id);
    Apply.CrashRepeats(rec.env, rec.history, answer);
    HistoryGrows(rec.env, rec.history, answer);
    LongerHistory(w, id, rec.history + [answer]);
  }

  /** How often a raised application was resumed is recorded nowhere in the tables. */
  lemma LongerHistory(w: World, id: string, history: seq<Answer>)
    requires Consistent(w) && id in w.apps && w.apps[id].thread.Crashed?
    requires w.apps[id].thread == Apply.Replayed(w.apps[id].env, history)
    ensures Consistent(w.(apps := w.apps[id := w.apps[id].(history := history)]))
  {
    hide Apply.Replayed, Discovery.Run, RunAgrees, OnePerReference, ReferencesKnown;
    var w' := w.(apps := w.apps[id := w.apps[id].(history := history)]);
    assert w'.apps.Keys == w.apps.Keys;
    forall other | other in w'.apps
      ensures AppAgrees(w'.tables.applications[other], w'.apps[other], w'.tables.interventions, other)
    {
      assert AppAgrees(w.tables.applications[other], w.apps[other], w.tables.interventions, other);
    }
  }

  /** Every call keeps the tables and the graphs in agreement, never trips over a second pending row, and undoes nothing. */
  lemma CallKeepsConsistent(w: World, c: Call)
    requires Consistent(w) && Allowed(w, c)
    ensures var (w', r) := Serve(w, c);
            Consistent(w') && r != DatabaseRaised && Evolves(w.tables, w'.tables)
  {
    hide Consistent, Record, RecordRun, Evolves, AppAgrees, RunAgrees, SomePending, Apply.Replayed, Apply.Execute, HasApplication, ReadyToRecord;
    NothingEvolves(w.tables);
    match c
    case StartApplication(id, hasProfile, env, url, now) =>
      if hasProfile && !HasApplication(w.tables, env.job.id) {
        CreatedReady(w, id, env, url, now);
        var created := w.(tables := w.tables.(applications := w.tables.applications[id := NewApplication(env.job, url, now)]));
        ReplayedNothing(env);
        CompletedHasStatus(env, Apply.Detect, Apply.EMPTY, []);
        RecordKeepsConsistent(created, id, AppRecord(env, [], Apply.Start(env)), now);
        EvolvesTransitive(w.tables, created.tables, Record(created, id, AppRecord(env, [], Apply.Start(env)), now).0.tables);
      }
    case ResumeApplication(id, answer, now) =>
      if id in w.apps {
        var rec := w.apps[id];
        AppFacts(w, id);
        if rec.thread.Crashed? {
          RetryRaises(w, id, answer, now);
        } else {
          OwnAppRowsPending(w, id);
          HistoryGrows(rec.env, rec.history, answer);
          CompletedHasStatus(rec.env, rec.thread.node, rec.thread.state, rec.thread.answers + [answer]);
          WaitingSinceStart(rec.env, rec.history);
          RecordKeepsConsistent(w, id, AppRecord(rec.env, rec.history + [answer], Apply.Resume(rec.env, rec.thread, answer)), now);
        }
      }
    case StartRun(id, env, now) =>
      RecordRunKeepsConsistent(w, id, RunRecord(env, None, Discovery.Start(env)), now);
    case ResumeRun(id, decisions, now) =>
      if id in w.runs {
        var rec := w.runs[id];
        RunFacts(w, id);
        Discovery.RunPausesAtMostOnce(rec.env, decisions);
        RecordRunKeepsConsistent(w, id, RunRecord(rec.env, Some(decisions), Discovery.Resume(rec.env, rec.thread, decisions)), now);
      }
  }

  lemma NothingEvolves(tables: Tables)
    ensures Evolves(tables, tables)
  {
  }

  lemma ReplayedNothing(env: Apply.Env)
    ensures Apply.Replayed(env, []) == Apply.Start(env)
  {
  }

  lemma AppFacts(w: World, id: string)
    requires Consistent(w) && id in w.apps
    ensures id in w.tables.applications && RowOf(w.tables.applications[id], w.apps[id].env.job)
    ensures w.apps[id].thread == Apply.Replayed(w.apps[id].env, w.apps[id].history)
  {
    hide Apply.Replayed;
    assert AppAgrees(w.tables.applications[id], w.apps[id], w.tables.interventions, id);
  }

  lemma RunFacts(w: World, id: string)
    requires Consistent(w) && id in w.runs
    ensures w.runs[id].thread == Discovery.Run(w.runs[id].env, w.runs[id].answer)
    ensures w.runs[id].thread.Paused? ==> w.runs[id].answer == None
  {
    hide Discovery.Run;
    assert RunAgrees(w.tables.runs[id], w.runs[id], w.tables.interventions, id);
  }

  // --- whole histories ---

  /** Each call is allowed where it is made. */
  predicate AllowedAll(w: World, calls: seq<Call>)
    decreases |calls|
  {
    calls == [] || (Allowed(w, calls[0]) && AllowedAll(Serve(w, calls[0]).0, calls[1..]))
  }

  function After(w: World, calls: seq<Call>): World
    requires AllowedAll(w, calls)
    decreases |calls|
  {
    if calls == [] then w else After(Serve(w, calls[0]).0, calls[1..])
  }

  lemma {:induction false} HistoryKeepsConsistent(w: World, calls: seq<Call>)
    requires Consistent(w) && AllowedAll(w, calls)
    ensures Consistent(After(w, calls)) && Evolves(w.tables, After(w, calls).tables)
    decreases |calls|
  {
    hide Consistent, Evolves, Serve, Allowed;
    if calls == [] {
      NothingEvolves(w.tables);
    } else {
      CallKeepsConsistent(w, calls[0]);
      var next := Serve(w, calls[0]).0;
      HistoryKeepsConsistent(next, calls[1..]);
      EvolvesTransitive(w.tables, next.tables, After(w, calls).tables);
    }
  }

  lemma FreshConsistent()
    ensures Consistent(FRESH)
  {
  }

  /** Over every serial history of starts and resumes on any number of runs and applications, the tables agree with the graphs,
      and the next call never finds two pending rows. */
  lemma EveryHistoryAgrees(calls: seq<Call>, c: Call)
    requires AllowedAll(FRESH, calls) && Allowed(After(FRESH, calls), c)
    ensures Consistent(After(FRESH, calls)) && Serve(After(FRESH, calls), c).1 != DatabaseRaised
  {
    hide Consistent, Serve, Evolves;
    FreshConsistent();
    HistoryKeepsConsistent(FRESH, calls);
    CallKeepsConsistent(After(FRESH, calls), c);
  }

  // --- what one call answers and stamps ---

  /** A start answers "not found" without a profile and refuses a second application for a job; neither changes anything. */
  lemma StartAnswers(w: World, id: string, hasProfile: bool, env: Apply.Env, url: string, now: nat)
    requires Allowed(w, StartApplication(id, hasProfile, env, url, now))
    ensures var (w', r) := Serve(w, StartApplication(id, hasProfile, env, url, now));
            && (r == NotFound <==> !hasProfile)
            && (r == DuplicateApplication <==>
                  hasProfile && exists other :: other in w.tables.applications && w.tables.applications[other].jobId == env.job.id)
            && (r == NotFound || r == DuplicateApplication ==> w' == w)
            && (r == GraphRaised <==> r != NotFound && r != DuplicateApplication && Apply.Start(env).Crashed?)
  {
    hide Apply.Start, PersistApplication;
  }

  /** The row a start creates, or updates at once if the graph goes on to its end: job, page and time of creation. */
  lemma StartedRow(w: World, id: string, env: Apply.Env, url: string, now: nat)
    requires Consistent(w) && Allowed(w, StartApplication(id, true, env, url, now)) && !HasApplication(w.tables, env.job.id)
    ensures var w' := Serve(w, StartApplication(id, true, env, url, now)).0;
            && id in w'.tables.applications
            && var row := w'.tables.applications[id];
               row.jobId == env.job.id && row.jobTitle == env.job.title && row.company == env.job.company
               && row.formPageUrl == url && row.createdAt == now
  {
    hide Consistent, Record, Apply.Start, HasApplication;
    FreshId(w, id);
    var created := w.(tables := w.tables.(applications := w.tables.applications[id := NewApplication(env.job, url, now)]));
    RecordKeepsPage(created, id, AppRecord(env, [], Apply.Start(env)), now);
  }

  lemma FreshId(w: World, id: string)
    requires Consistent(w) && id !in w.apps
    ensures id !in w.tables.applications
  {
  }

  /** Recording a position leaves job, page and time of creation of the row as they are. */
  lemma RecordKeepsPage(w: World, id: string, rec: AppRecord, now: nat)
    requires id in w.tables.applications
    ensures var w', row := Record(w, id, rec, now).0, w.tables.applications[id];
            && id in w'.tables.applications
            && var after := w'.tables.applications[id];
               after.jobId == row.jobId && after.jobTitle == row.jobTitle && after.company == row.company
               && after.formPageUrl == row.formPageUrl && after.createdAt == row.createdAt
  {
    hide UpsertPending, Resolve;
  }

  /** The call with which an application ends as submitted or ready stamps its row with its own time; a rejection stamps nothing. */
  lemma EndStamped(w: World, id: string, answer: Answer, now: nat)
    requires Consistent(w) && id in w.apps && w.apps[id].thread.Paused?
    requires Apply.Resume(w.apps[id].env, w.apps[id].thread, answer).Completed?
    ensures var w' := Serve(w, ResumeApplication(id, answer, now)).0;
            && id in w'.tables.applications
            && w'.tables.applications[id].submittedAt ==
               if Apply.Resume(w.apps[id].env, w.apps[id].thread, answer).state.status in {Some(Apply.DryRunReady), Some(Apply.SubmittedMock)}
               then Some(now) else None
  {
    hide Consistent, Record, Apply.Resume;
    WaitingRowOpen(w, id);
    var rec := w.apps[id];
    EndingRecord(w, id, AppRecord(rec.env, rec.history + [answer], Apply.Resume(rec.env, rec.thread, answer)), now);
  }

  lemma WaitingRowOpen(w: World, id: string)
    requires Consistent(w) && id in w.apps && w.apps[id].thread.Paused?
    ensures id in w.tables.applications && w.tables.applications[id].submittedAt == None
  {
    hide Apply.Replayed, PendingFor;
    assert AppAgrees(w.tables.applications[id], w.apps[id], w.tables.interventions, id);
  }

  lemma EndingRecord(w: World, id: string, rec: AppRecord, now: nat)
    requires id in w.tables.applications && w.tables.applications[id].submittedAt == None && rec.thread.Completed?
    ensures var w' := Record(w, id, rec, now).0;
            && id in w'.tables.applications
            && w'.tables.applications[id].submittedAt ==
               if rec.thread.state.status in {Some(Apply.DryRunReady), Some(Apply.SubmittedMock)} then Some(now) else None
  {
    hide Resolve;
  }

  /** The call that completes a run stamps its row with its own time. */
  lemma CompletionStamped(w: World, c: Call, id: string, now: nat)
    requires Consistent(w) && Allowed(w, c)
    requires (exists env :: c == StartRun(id, env, now)) || (id in w.runs && exists d :: c == ResumeRun(id, d, now))
    ensures var w' := Serve(w, c).0;
            id in w'.runs && id in w'.tables.runs
            && w'.tables.runs[id].completedAt == if w'.runs[id].thread.Completed? then Some(now) else None
  {
    hide Consistent, Discovery.Start, Discovery.Resume, Discovery.Run, UpsertPending, Resolve, UpsertAll, Entries;
    CallKeepsConsistent(w, c);
    var w' := Serve(w, c).0;
    if id in w.runs { WaitingRunExactly(w, id); }
    RunTableKeys(w);
    RunTableKeys(w');
    if c.ResumeRun? { RunWaits(w, id); }
  }

  lemma RunTableKeys(w: World)
    requires Consistent(w)
    ensures w.runs.Keys == w.tables.runs.Keys
  {
  }

  lemma RunWaits(w: World, id: string)
    requires Consistent(w) && id in w.runs && w.runs[id].thread.Paused?
    ensures id in w.tables.runs && w.tables.runs[id].completedAt == None
  {
    WaitingRunExactly(w, id);
    RunTableKeys(w);
  }

  /** Resolving gives exactly the pending rows of the reference the time of the call, and changes nothing else about them. */
  lemma ResolveExactly(list: seq<Intervention>, kind: Kind, refId: string, now: nat, i: nat)
    requires i < |list|
    ensures |Resolve(list, kind, refId, now)| == |list|
    ensures Resolve(list, kind, refId, now)[i] ==
            if list[i].kind == kind && list[i].refId == refId && list[i].pending
            then list[i].(pending := false, resolvedAt := Some(now)) else list[i]
  {
  }

  // --- a raised application is final ---

  /** Nothing but the list of its resume calls has changed for application `id`. */
  ghost predicate AppKept(w: World, after: World, id: string) {
    && id in w.apps && id in after.apps && id in w.tables.applications && id in after.tables.applications
    && after.apps[id].env == w.apps[id].env && after.apps[id].thread == w.apps[id].thread
    && after.tables.applications[id] == w.tables.applications[id]
  }

  lemma RecordLeavesOthers(w: World, id: string, rec: AppRecord, now: nat, other: string)
    requires other != id && AppKept(w, w, other)
    ensures AppKept(w, Record(w, id, rec, now).0, other)
  {
    hide UpsertPending, Resolve, AppRowAfter;
  }

  lemma CallKeepsRaised(w: World, c: Call, id: string)
    requires Consistent(w) && Allowed(w, c) && id in w.apps && w.apps[id].thread.Crashed?
    ensures AppKept(w, Serve(w, c).0, id)
  {
    hide Consistent, Record, UpsertPending, Resolve, UpsertAll, Entries, RunRowAfter, Apply.Start, Apply.Resume, Discovery.Start, Discovery.Resume, HasApplication;
    AppFacts(w, id);
    match c
    case StartApplication(other, hasProfile, env, url, now) =>
      if hasProfile && !HasApplication(w.tables, env.job.id) {
        var created := w.(tables := w.tables.(applications := w.tables.applications[other := NewApplication(env.job, url, now)]));
        RecordLeavesOthers(created, other, AppRecord(env, [], Apply.Start(env)), now, id);
      }
    case ResumeApplication(other, answer, now) =>
      if other == id {
        RetryRaises(w, id, answer, now);
      } else if other in w.apps {
        var rec := w.apps[other];
        RecordLeavesOthers(w, other, AppRecord(rec.env, rec.history + [answer], Apply.Resume(rec.env, rec.thread, answer)), now, id);
      }
    case StartRun(_, _, _) =>
    case ResumeRun(_, _, _) =>
  }

  lemma {:induction false} HistoryKeepsRaised(w: World, calls: seq<Call>, id: string)
    requires Consistent(w) && AllowedAll(w, calls) && id in w.apps && w.apps[id].thread.Crashed?
    ensures AppKept(w, After(w, calls), id)
    decreases |calls|
  {
    hide Consistent, Serve, Allowed, Evolves;
    if calls == [] {
      AppFacts(w, id);
    } else {
      CallKeepsConsistent(w, calls[0]);
      CallKeepsRaised(w, calls[0], id);
      HistoryKeepsRaised(Serve(w, calls[0]).0, calls[1..], id);
    }
  }

  /** Once an application has raised, no history repairs it: its row stays as it is, every retry raises again and changes no table, and
      every new application for the same job is refused as a duplicate. */
  lemma RaisedIsFinal(w: World, calls: seq<Call>, id: string, answer: Answer, env: Apply.Env, url: string, newId: string, now: nat)
    requires Consistent(w) && AllowedAll(w, calls) && id in w.apps && w.apps[id].thread.Crashed?
    requires newId !in After(w, calls).apps && newId !in After(w, calls).tables.applications && env.job.id == w.apps[id].env.job.id
    ensures var w' := After(w, calls);
            && AppKept(w, w', id)
            && Serve(w', ResumeApplication(id, answer, now)).1 == GraphRaised
            && Serve(w', ResumeApplication(id, answer, now)).0.tables == w'.tables
            && Serve(w', StartApplication(newId, true, env, url, now)) == (w', DuplicateApplication)
  {
    hide Consistent, Record, Evolves, After, AllowedAll;
    HistoryKeepsConsistent(w, calls);
    HistoryKeepsRaised(w, calls, id);
    var w' := After(w, calls);
    RetryRaises(w', id, answer, now);
    AppFacts(w, id);
    assert w'.tables.applications[id].jobId == env.job.id;
  }

  // --- what a dashboard reader may conclude ---

  /** An application row says "waiting" exactly when its graph is paused or stopped by an exception; a question is pending exactly
      when the graph is paused or raised after a question. */
  lemma WaitingRowExactly(w: World, id: string)
    requires Consistent(w) && id in w.apps
    ensures w.tables.applications[id].status == AppWaiting <==> !w.apps[id].thread.Completed?
    ensures SomePending(w.tables.interventions, OfApplication, id) <==>
              w.apps[id].thread.Paused? || (w.apps[id].thread.Crashed? && Asked(w.apps[id].env))
    ensures w.apps[id].thread.Paused? ==>
              w.tables.applications[id].interruptReason == Some(
                match w.apps[id].thread.payload
                case UnknownFields(_) => "UNKNOWN_REQUIRED_FIELD"
                case OtpRequired(_) => "OTP_REQUIRED"
                case CaptchaRequired(_) => "CAPTCHA_REQUIRED"
                case ApprovalRequired(_, _) => "MANUAL_APPROVAL_REQUIRED")
  {
    hide Apply.Replayed;
    var t, list := w.apps[id].thread, w.tables.interventions;
    assert AppAgrees(w.tables.applications[id], w.apps[id], list, id);
    if t.Paused? {
      var i :| 0 <= i < |list| && list[i] == Intervention(OfApplication, id, Apply.Reason(t.payload), AppPayload(t.payload), true, None);
      assert Selected(list[i], OfApplication, id);
    }
  }

  /** A row reads "submitted" exactly when dry run was off, the form was filled, every question before approval was answered, and
      approval came from automatic mode, a cleared hybrid bar, or a "true", "yes" or "1" in answer to the approval question itself. */
  lemma SubmittedRowExactly(w: World, id: string)
    requires Consistent(w) && id in w.apps
    ensures w.tables.applications[id].status == AppEnded(Apply.SubmittedMock) <==>
            var env, history := w.apps[id].env, w.apps[id].history;
            var later, n := ApplyOutcomes.Later(env, history), ApplyOutcomes.ChallengeCount(env);
            && !env.dryRun
            && ApplyOutcomes.ReachesApproval(env, history)
            && (|| env.approval.mode == "automatic"
                || (env.approval.mode == "hybrid" && Apply.HybridAutoApproves(env, ApplyOutcomes.FinalMappings(env, history)))
                || (|later| > n && "approved" in later[n] && Text.Lower(later[n]["approved"]) in {"true", "yes", "1"}))
  {
    hide Apply.Replayed, Apply.HybridAutoApproves, Text.Lower, ApplyOutcomes.FinalMappings, ApplyOutcomes.ReachesApproval,
         ApplyOutcomes.Later, ApplyOutcomes.ChallengeCount;
    assert AppAgrees(w.tables.applications[id], w.apps[id], w.tables.interventions, id);
    ApplyOutcomes.SubmittedExactly(w.apps[id].env, w.apps[id].history);
  }

  /** A run row says "waiting" exactly when the run is paused, exactly when one review is pending, and has a completion time otherwise. */
  lemma WaitingRunExactly(w: World, id: string)
    requires Consistent(w) && id in w.runs
    ensures w.tables.runs[id].status == RunWaiting <==> w.runs[id].thread.Paused?
    ensures w.tables.runs[id].completedAt.Some? <==> w.runs[id].thread.Completed?
    ensures SomePending(w.tables.interventions, OfRun, id) <==> w.runs[id].thread.Paused?
    ensures w.runs[id].thread.Paused? ==>
              PendingFor(w.tables.interventions, OfRun, id, "HUMAN_REVIEW_REQUIRED", RunPayload(w.runs[id].thread.payload))
  {
    hide Discovery.Run;
    var t, list := w.runs[id].thread, w.tables.interventions;
    assert RunAgrees(w.tables.runs[id], w.runs[id], list, id);
    if t.Paused? {
      var i :| 0 <= i < |list| && list[i] == Intervention(OfRun, id, REVIEW_REASON, RunPayload(t.payload), true, None);
      assert Selected(list[i], OfRun, id);
    }
  }

  /** The promise "waiting exactly when paused" fails for an application exactly when filling the form met a file field with a
      value to write: the row then says "waiting" although the graph asks nothing. */
  lemma StaleRowExactly(w: World, id: string)
    requires Consistent(w) && id in w.apps
    ensures var rec := w.apps[id];
            (w.tables.applications[id].status == AppWaiting && !rec.thread.Paused?) <==>
            && !(ApplyOutcomes.AsksFields(rec.env) && rec.history == [])
            && exists i :: 0 <= i < |rec.env.fields| && rec.env.fields[i].kind == File
                           && var m := ApplyOutcomes.FinalMappings(rec.env, rec.history)[i]; !m.requiresHuman && m.value.Some?
  {
    hide Consistent, Apply.Replayed, NeedHuman, MapField;
    WaitingRowExactly(w, id);
    AppFacts(w, id);
    var rec := w.apps[id];
    if ApplyOutcomes.AsksFields(rec.env) && rec.history == [] {
      ApplyOutcomes.ReplayedClosedForm(rec.env, []);
    } else {
      ApplyOutcomes.CrashExactly(rec.env, rec.history);
    }
  }
}
