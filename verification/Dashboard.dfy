/** What the dashboard's numbers mean after any history of calls. */
module Dashboard {
  import opened Prelude
  import opened Domain
  import opened Rounding
  import opened Scoring
  import opened ScoreBounds
  import opened Persistence
  import opened PolicyGuard
  import opened Services
  import opened ServiceHistory
  import opened Analytics
  import opened FormMapping
  import ApplyOutcomes
  import Dedupe
  import Guardrails
  import Apply = ApplyGraph
  import Discovery

  // --- stored scores ---

  predicate GridResult(r: MatchResult) {
    OnGrid(r.overallScore)
  }

  ghost predicate GridScored(list: seq<ScoredJob>) {
    forall s :: s in list ==> GridResult(s.result)
  }

  lemma AnnotateKeepsScore(s: ScoredJob, profile: Option<Profile>, limits: Guardrails.Limits)
    ensures Annotate(s, profile, limits).result.overallScore == s.result.overallScore
  {
    hide Guardrails.RunGuardrails, Guardrails.RulesWith;
  }

  lemma FiledOnGrid(scored: seq<ScoredJob>, test: ScoredJob -> bool, profile: Option<Profile>, limits: Guardrails.Limits)
    requires GridScored(scored)
    ensures GridScored(Filed(scored, test, profile, limits))
  {
    hide Annotate, OnGrid, Filed;
    forall q | q in Filed(scored, test, profile, limits) ensures GridResult(q.result) {
      var s := FiledOrigin(scored, test, profile, limits, q);
      AnnotateKeepsScore(s, profile, limits);
    }
  }

  lemma FilterOnGrid(list: seq<ScoredJob>, test: ScoredJob -> bool)
    requires GridScored(list)
    ensures GridScored(Filter(list, test))
  {
    hide GridResult;
    forall s | s in Filter(list, test) ensures GridResult(s.result) {
      FilterMember(list, test, s);
    }
  }

  lemma ScoredOnGrid(env: Discovery.Env, jobs: seq<Job>)
    ensures GridScored(Discovery.ScoreAll(env, jobs))
  {
    hide ScoreJob, OnGrid;
    if env.profile.Some? {
      var p, scored := env.profile.value, Discovery.ScoreAll(env, jobs);
      forall s | s in scored ensures GridResult(s.result) {
        var i :| 0 <= i < |scored| && scored[i] == s;
        OverallScoreBounded(jobs[i], p.preferences, Discovery.CandidateSkills(p), Discovery.CandidateYears(p), env.weights, env.thresholds);
      }
    }
  }

  lemma ConcatOnGrid(a: seq<ScoredJob>, b: seq<ScoredJob>)
    requires GridScored(a) && GridScored(b)
    ensures GridScored(a + b)
  {
    hide GridResult;
  }

  /** The guard rewrites recommendations but never scores. */
  lemma GuardOnGrid(scored: seq<ScoredJob>, profile: Option<Profile>, limits: Guardrails.Limits, answers: seq<Decisions>)
    requires GridScored(scored) && Guard(scored, profile, limits, answers).Done?
    ensures var out := Guard(scored, profile, limits, answers);
            GridScored(out.rejected) && GridScored(out.queue) && GridScored(out.pending)
  {
    hide GridScored, Filed, Filter, RouteOf;
    FilterOnGrid(scored, (s: ScoredJob) => s.result.recommendation.Reject?);
    FiledOnGrid(scored, (s: ScoredJob) => IsBlocked(s, profile, limits), profile, limits);
    FiledOnGrid(scored, (s: ScoredJob) => RouteOf(s, profile, limits) == Guardrails.Review, profile, limits);
    FiledOnGrid(scored, (s: ScoredJob) => RouteOf(s, profile, limits) == Guardrails.Queue, profile, limits);
    var review := ToReview(scored, profile, limits);
    ConcatOnGrid(ScorerRejected(scored), Blocked(scored, profile, limits));
    NoneOnGrid();
    if review != [] {
      var d := answers[0];
      FilterOnGrid(review, (s: ScoredJob) => Verdict(d, s) == "queue");
      FilterOnGrid(review, (s: ScoredJob) => Verdict(d, s) == "reject");
      FilterOnGrid(review, (s: ScoredJob) => Verdict(d, s) != "queue" && Verdict(d, s) != "reject");
      ConcatOnGrid(ScorerRejected(scored) + Blocked(scored, profile, limits), Declined(review, d));
      ConcatOnGrid(ToQueue(scored, profile, limits), Approved(review, d));
    }
  }

  lemma NoneOnGrid()
    ensures GridScored([])
  {
  }

  ghost predicate GridState(st: Discovery.RunState) {
    GridScored(st.queue) && GridScored(st.rejected) && GridScored(st.review)
  }

  lemma RunOnGrid(env: Discovery.Env, answer: Option<Decisions>)
    ensures GridState(Discovery.Run(env, answer).state)
  {
    hide GridScored, Guard, Discovery.ScoreAll;
    var scored := Discovery.Prepared(env).scored;
    ScoredOnGrid(env, Dedupe.Kept(Dedupe.Normalized(Discovery.Accumulated(env.arrivals))));
    NoneOnGrid();
    if Guard(scored, env.profile, env.limits, []).Done? {
      GuardOnGrid(scored, env.profile, env.limits, []);
    } else if answer.Some? && Guard(scored, env.profile, env.limits, [] + [answer.value]).Done? {
      GuardOnGrid(scored, env.profile, env.limits, [] + [answer.value]);
    }
  }

  /** Every stored score is a whole number of hundredths. */
  ghost predicate GridRows(jobs: map<string, JobRow>) {
    forall id :: id in jobs && jobs[id].result.Some? ==> GridResult(jobs[id].result.value)
  }

  lemma EntriesOnGrid(st: Discovery.RunState)
    requires GridState(st)
    ensures forall e :: e in Entries(st) && e.result.Some? ==> GridResult(e.result.value)
  {
    hide GridResult;
    forall e | e in Entries(st) && e.result.Some? ensures GridResult(e.result.value) {
      var a, b, c := ScoredEntries(st.queue, Queued), ScoredEntries(st.rejected, Rejected), ScoredEntries(st.review, JobStatus.HumanReview);
      if e in a {
        var i :| 0 <= i < |a| && a[i] == e;
        assert st.queue[i] in st.queue;
      } else if e in b {
        var i :| 0 <= i < |b| && b[i] == e;
        assert st.rejected[i] in st.rejected;
      } else if e in c {
        var i :| 0 <= i < |c| && c[i] == e;
        assert st.review[i] in st.review;
      }
    }
  }

  lemma {:induction false} WritesKeepGrid(jobs: map<string, JobRow>, runId: string, entries: seq<Entry>)
    requires GridRows(jobs) && forall e :: e in entries && e.result.Some? ==> GridResult(e.result.value)
    ensures GridRows(UpsertAll(jobs, runId, entries))
  {
    hide GridResult;
    if entries != [] {
      var n := |entries| - 1;
      assert entries == entries[..n] + [entries[n]];
      assert entries[n] in entries;
      WritesKeepGrid(jobs, runId, entries[..n]);
    }
  }

  lemma RecordRunKeepsGrid(w: World, id: string, rec: RunRecord, now: nat)
    requires GridRows(w.tables.jobs) && rec.thread == Discovery.Run(rec.env, rec.answer)
    ensures GridRows(RecordRun(w, id, rec, now).0.tables.jobs)
  {
    hide Discovery.Run, GridRows, UpsertAll, GridState, Entries;
    RunOnGrid(rec.env, rec.answer);
    EntriesOnGrid(rec.thread.state);
    WritesKeepGrid(w.tables.jobs, id, Entries(rec.thread.state));
  }

  lemma CallKeepsGrid(w: World, c: Call)
    requires Consistent(w) && GridRows(w.tables.jobs) && Allowed(w, c)
    ensures GridRows(Serve(w, c).0.tables.jobs)
  {
    hide Consistent, GridRows, RecordRun, PersistApplication, Apply.Execute, Discovery.Prepared, HasApplication;
    match c
    case StartApplication(id, hasProfile, env, url, now) =>
      if hasProfile && !HasApplication(w.tables, env.job.id) {
        var created := w.(tables := w.tables.(applications := w.tables.applications[id := NewApplication(env.job, url, now)]));
        ApplicationsLeaveJobs(created, id, AppRecord(env, [], Apply.Start(env)), now);
      }
    case ResumeApplication(id, answer, now) =>
      if id in w.apps {
        var rec := w.apps[id];
        ApplicationsLeaveJobs(w, id, AppRecord(rec.env, rec.history + [answer], Apply.Resume(rec.env, rec.thread, answer)), now);
      }
    case StartRun(id, env, now) =>
      RecordRunKeepsGrid(w, id, RunRecord(env, None, Discovery.Start(env)), now);
    case ResumeRun(id, decisions, now) =>
      if id in w.runs {
        var rec := w.runs[id];
        RunFacts(w, id);
        RecordRunKeepsGrid(w, id, RunRecord(rec.env, Some(decisions), Discovery.Resume(rec.env, rec.thread, decisions)), now);
      }
  }

  lemma ApplicationsLeaveJobs(w: World, id: string, rec: AppRecord, now: nat)
    ensures Record(w, id, rec, now).0.tables.jobs == w.tables.jobs && Record(w, id, rec, now).0.runs == w.runs
  {
    hide UpsertPending, Resolve;
  }

  lemma {:induction false} HistoryKeepsGrid(w: World, calls: seq<Call>)
    requires Consistent(w) && GridRows(w.tables.jobs) && AllowedAll(w, calls)
    ensures GridRows(After(w, calls).tables.jobs)
    decreases |calls|
  {
    hide Consistent, GridRows, Serve, Allowed, Evolves;
    if calls != [] {
      CallKeepsConsistent(w, calls[0]);
      CallKeepsGrid(w, calls[0]);
      HistoryKeepsGrid(Serve(w, calls[0]).0, calls[1..]);
    }
  }

  /** Some list of the scores stored in the jobs table, in any order and with any repetition. */
  ghost predicate StoredScores(jobs: map<string, JobRow>, scores: seq<real>) {
    forall s :: s in scores ==> exists id :: id in jobs && jobs[id].result.Some? && jobs[id].result.value.overallScore == s
  }

  /** After any history, whatever the weights, the reported mean and median score lie between the reported extremes. */
  lemma ReportedAveragesBetween(calls: seq<Call>, scores: seq<real>)
    requires AllowedAll(FRESH, calls)
    requires scores != [] && StoredScores(After(FRESH, calls).tables.jobs, scores)
    ensures Least(scores) <= Round2(Mean(scores)) <= Greatest(scores)
    ensures Least(scores) <= Round2(Median(scores)) <= Greatest(scores)
  {
    hide Consistent, Mean, Median, Least, Greatest, Round2, Serve, AllowedAll, After, OnGrid;
    FreshConsistent();
    HistoryKeepsGrid(FRESH, calls);
    var possible := (s: real) => OnGrid(s);
    ReportedCentresExact(possible);
    forall s | s in scores ensures possible(s) {
      var jobs := After(FRESH, calls).tables.jobs;
      var id :| id in jobs && jobs[id].result.Some? && jobs[id].result.value.overallScore == s;
      assert GridResult(jobs[id].result.value);
    }
  }

  // --- pending reviews ---

  type Reference = (Kind, string)

  ghost function PendingReferences(list: seq<Intervention>): set<Reference> {
    set i | i in list && i.pending :: (i.kind, i.refId)
  }

  lemma PendingSnoc(before: seq<Intervention>, last: Intervention)
    ensures PendingReferences(before + [last]) == PendingReferences(before) + if last.pending then {(last.kind, last.refId)} else {}
    ensures Count(before + [last], (i: Intervention) => i.pending) == Count(before, (i: Intervention) => i.pending) + if last.pending then 1 else 0
  {
    var list := before + [last];
    assert list[..|before|] == before;
    forall i ensures i in list <==> i in before || i == last {
    }
  }

  lemma NoPriorReference(before: seq<Intervention>, last: Intervention)
    requires OnePerReference(before + [last])
    ensures OnePerReference(before) && (last.kind, last.refId) !in PendingReferences(before)
  {
    var list := before + [last];
    forall i, j | 0 <= i < j < |before| ensures !(before[i].kind == before[j].kind && before[i].refId == before[j].refId) {
      assert list[i] == before[i] && list[j] == before[j];
    }
    forall i | i in before ensures (i.kind, i.refId) != (last.kind, last.refId) {
      var k :| 0 <= k < |before| && before[k] == i;
      assert list[k] == i && list[|before|] == last;
    }
  }

  lemma {:induction false} PendingCounted(list: seq<Intervention>)
    requires OnePerReference(list)
    ensures Count(list, (i: Intervention) => i.pending) == |PendingReferences(list)|
  {
    hide OnePerReference;
    if list != [] {
      var before, last := list[..|list| - 1], list[|list| - 1];
      assert list == before + [last];
      NoPriorReference(before, last);
      PendingCounted(before);
      hide PendingReferences, Count;
      PendingSnoc(before, last);
    }
  }

  /** The references whose graph waits for a human. */
  ghost function WaitingReferences(w: World): set<Reference> {
    (set id | id in w.runs && w.runs[id].thread.Paused? :: (OfRun, id))
    + (set id | id in w.apps && w.apps[id].thread.Paused? :: (OfApplication, id))
  }

  /** The applications that raised after a question had been answered. */
  ghost function StaleReferences(w: World): set<Reference> {
    set id | id in w.apps && w.apps[id].thread.Crashed? && Asked(w.apps[id].env) :: (OfApplication, id)
  }

  lemma PendingAreWaitingOrStale(w: World)
    requires Consistent(w)
    ensures PendingReferences(w.tables.interventions) == WaitingReferences(w) + StaleReferences(w)
  {
    hide Consistent, AppAgrees, RunAgrees;
    var list := w.tables.interventions;
    ReferencesOfConsistent(w);
    forall r: Reference ensures r in PendingReferences(list) <==> r in WaitingReferences(w) + StaleReferences(w) {
      PendingIffSome(list, r);
      if r.0 == OfRun {
        if r.1 in w.runs { WaitingRunExactly(w, r.1); }
      } else {
        if r.1 in w.apps { WaitingRowExactly(w, r.1); }
      }
    }
  }

  lemma PendingIffSome(list: seq<Intervention>, r: Reference)
    ensures r in PendingReferences(list) <==> SomePending(list, r.0, r.1)
  {
    if r in PendingReferences(list) {
      var i :| i in list && i.pending && (i.kind, i.refId) == r;
      var k :| 0 <= k < |list| && list[k] == i;
      assert Selected(list[k], r.0, r.1);
    }
    if SomePending(list, r.0, r.1) {
      var k :| 0 <= k < |list| && Selected(list[k], r.0, r.1);
      assert list[k] in list;
    }
  }

  /** The human-review count of the summary is the number of runs and applications that wait plus the number that raised after
      a question had been answered, so it counts what waits exactly when none did. */
  lemma PendingReviewsCountWaiting(w: World)
    requires Consistent(w)
    ensures var pending := Count(w.tables.interventions, (i: Intervention) => i.pending);
            && pending == |WaitingReferences(w)| + |StaleReferences(w)|
            && (pending == |WaitingReferences(w)| <==> forall id :: id in w.apps && Asked(w.apps[id].env) ==> !w.apps[id].thread.Crashed?)
  {
    hide *;
    ReferencesOfConsistent(w);
    PendingCounted(w.tables.interventions);
    PendingAreWaitingOrStale(w);
    WaitingNotStale(w);
    DisjointSizes(WaitingReferences(w), StaleReferences(w));
    NoneStaleExactly(w);
  }

  lemma WaitingNotStale(w: World)
    ensures WaitingReferences(w) !! StaleReferences(w)
  {
  }

  lemma DisjointSizes(a: set<Reference>, b: set<Reference>)
    requires a !! b
    ensures |a + b| == |a| + |b| && (|b| == 0 <==> b == {})
  {
  }

  lemma NoneStaleExactly(w: World)
    ensures StaleReferences(w) == {} <==> forall id :: id in w.apps && Asked(w.apps[id].env) ==> !w.apps[id].thread.Crashed?
  {
    hide Asked;
    if id :| id in w.apps && Asked(w.apps[id].env) && w.apps[id].thread.Crashed? {
      assert (OfApplication, id) in StaleReferences(w);
    }
  }

  // --- a history after which the count is too high ---

  /** A form whose only field is a file upload that no pattern recognises. */
  function UploadForm(): Apply.Env {
    Apply.Env(Job("1", "mock", "u", "t", "c", None, None, None, None, None, "", [], [], None, None, None),
              ParsedProfile(), None, [DetectedField("resume", File, {})], {}, [], [], 0.7,
              Apply.ApprovalConfig("manual", 90.0, 0.85), true)
  }

  const UPLOAD: Answer := map["resume" := "cv.pdf"]

  function OpenQuestion(): FieldMapping {
    FieldMapping("resume", None, 0.0, true, Unmapped)
  }

  function AnsweredQuestion(): FieldMapping {
    FieldMapping("resume", Some("cv.pdf"), 0.0, false, FromHuman)
  }

  lemma UploadFields()
    ensures UploadForm().fields == [DetectedField("resume", File, {})]
  {
  }

  lemma UploadUnknown(profile: Profile, threshold: real)
    ensures MapField(DetectedField("resume", File, {}), profile, threshold) == OpenQuestion()
  {
    hide FirstHit;
  }

  lemma QuestionAnswered()
    ensures AnswerMapping(OpenQuestion(), UPLOAD) == AnsweredQuestion()
  {
  }

  lemma UploadDetected(env: Apply.Env)
    requires env.fields == [DetectedField("resume", File, {})]
    ensures ApplyOutcomes.Detected(env) == [OpenQuestion()] && ApplyOutcomes.AsksFields(env)
  {
    hide MapField;
    UploadUnknown(env.profile, env.threshold);
    assert ApplyOutcomes.Detected(env) == [OpenQuestion()];
    FilterMember([OpenQuestion()], (m: FieldMapping) => m.requiresHuman, OpenQuestion());
  }

  lemma AskingPauses(env: Apply.Env)
    requires ApplyOutcomes.AsksFields(env)
    ensures Apply.Start(env).Paused?
  {
    hide MapFields, NeedHuman;
  }

  lemma UploadAnswered(env: Apply.Env)
    requires env.fields == [DetectedField("resume", File, {})]
    ensures ApplyOutcomes.FinalMappings(env, [UPLOAD]) == [AnsweredQuestion()]
  {
    UploadDetected(env);
    QuestionAnswered();
    hide ApplyOutcomes.Detected, ApplyOutcomes.AsksFields, AnswerMapping, UPLOAD;
  }

  lemma UploadRaises(env: Apply.Env)
    requires env.fields == [DetectedField("resume", File, {})]
    ensures Apply.Start(env).Paused? && Apply.Resume(env, Apply.Start(env), UPLOAD).Crashed?
  {
    UploadDetected(env);
    AskingPauses(env);
    UploadAnswered(env);
    OneAnswer(env, UPLOAD);
    hide *;
    AnsweredIsFilled();
    assert env.fields[0].kind == File && env.fields[0] == DetectedField("resume", File, {});
    ApplyOutcomes.CrashExactly(env, [UPLOAD]);
  }

  lemma AnsweredIsFilled()
    ensures !AnsweredQuestion().requiresHuman && AnsweredQuestion().value.Some?
  {
  }

  lemma OneAnswer(env: Apply.Env, a: Answer)
    requires Apply.Start(env).Paused?
    ensures Apply.Replayed(env, [a]) == Apply.Resume(env, Apply.Start(env), a)
  {
    hide Apply.Start, Apply.Resume;
    assert [a][..0] == [];
  }

  /** Two calls, one after the other. */
  lemma TwoCalls(w: World, c1: Call, c2: Call)
    requires Allowed(w, c1) && Allowed(Serve(w, c1).0, c2)
    ensures AllowedAll(w, [c1, c2]) && After(w, [c1, c2]) == Serve(Serve(w, c1).0, c2).0
  {
    hide Allowed, Serve;
    var next := Serve(w, c1).0;
    OneCall(next, c2);
    assert [c1, c2][1..] == [c2] && [c1, c2][0] == c1;
  }

  lemma OneCall(w: World, c: Call)
    requires Allowed(w, c)
    ensures AllowedAll(w, [c]) && After(w, [c]) == Serve(w, c).0
  {
    hide Allowed, Serve;
    assert [c][1..] == [] && [c][0] == c;
    assert AllowedAll(Serve(w, c).0, []) && After(Serve(w, c).0, []) == Serve(w, c).0;
  }

  lemma StartedThreads(id: string, env: Apply.Env, url: string, now: nat)
    ensures var c := StartApplication(id, true, env, url, now);
            && Allowed(FRESH, c)
            && Serve(FRESH, c).0.apps == map[id := AppRecord(env, [], Apply.Start(env))] && Serve(FRESH, c).0.runs == map[]
  {
    hide Apply.Start, PersistApplication;
  }

  lemma ResumedThreads(w: World, id: string, answer: Answer, now: nat)
    requires id in w.apps && !w.apps[id].thread.Completed?
    ensures var c, rec := ResumeApplication(id, answer, now), w.apps[id];
            && Allowed(w, c) && Serve(w, c).0.runs == w.runs
            && Serve(w, c).0.apps == w.apps[id := AppRecord(rec.env, rec.history + [answer], Apply.Resume(rec.env, rec.thread, answer))]
  {
    hide Apply.Resume, PersistApplication;
  }

  lemma OnlyStale(w: World, id: string)
    requires Consistent(w) && w.runs == map[] && w.apps.Keys == {id} && w.apps[id].thread.Crashed? && Asked(w.apps[id].env)
    ensures id in w.tables.applications && w.tables.applications[id].status == AppWaiting
    ensures WaitingReferences(w) == {} && StaleReferences(w) == {(OfApplication, id)}
    ensures Count(w.tables.interventions, (i: Intervention) => i.pending) == 1
  {
    hide Consistent, Count, Asked;
    PendingReviewsCountWaiting(w);
    WaitingRowExactly(w, id);
    AppFacts(w, id);
    assert StaleReferences(w) == {(OfApplication, id)};
  }

  /** From empty tables, two calls - apply, then answer the question about the file with a path - leave a row that waits, a question
      that stays pending, and nothing that asks it. */
  lemma StaleAfterUpload()
    ensures var calls := [StartApplication("a", true, UploadForm(), "form", 1), ResumeApplication("a", UPLOAD, 2)];
            && AllowedAll(FRESH, calls)
            && var w := After(FRESH, calls);
               && "a" in w.apps && "a" in w.tables.applications
               && w.apps["a"].thread.Crashed? && w.tables.applications["a"].status == AppWaiting
               && WaitingReferences(w) == {} && StaleReferences(w) == {(OfApplication, "a")}
               && Count(w.tables.interventions, (i: Intervention) => i.pending) == 1
  {
    hide *;
    var c1, c2 := StartApplication("a", true, UploadForm(), "form", 1), ResumeApplication("a", UPLOAD, 2);
    UploadFields();
    UploadRaises(UploadForm());
    StartedThreads("a", UploadForm(), "form", 1);
    FreshConsistent();
    CallKeepsConsistent(FRESH, c1);
    var w := Serve(FRESH, c1).0;
    ResumedThreads(w, "a", UPLOAD, 2);
    CallKeepsConsistent(w, c2);
    TwoCalls(FRESH, c1, c2);
    AskedIsPaused(UploadForm());
    OnlyStale(Serve(w, c2).0, "a");
  }

  lemma AskedIsPaused(env: Apply.Env)
    ensures Asked(env) <==> Apply.Start(env).Paused?
  {
  }

  lemma ReferencesOfConsistent(w: World)
    requires Consistent(w)
    ensures OnePerReference(w.tables.interventions)
    ensures forall k :: 0 <= k < |w.tables.interventions| ==>
              w.tables.interventions[k].refId in if w.tables.interventions[k].kind == OfRun then w.runs.Keys else w.apps.Keys
  {
  }
}
