/** The discovery graph: fan-out, normalise, dedupe, score, guard, finalize, with one possible pause. */
module Discovery {
  import opened Prelude
  import opened Domain
  import opened Dedupe
  import opened Scoring
  import opened Guardrails
  import opened PolicyGuard

  /** What one portal node contributes to the accumulated state. */
  datatype Arrival =
    | Found(portal: string, jobs: seq<RawJob>)
    | Failed(portal: string)
    | Unconfigured(portal: string)

  datatype RunError = NoProfile | PortalFailed(portal: string) | MalformedJob(raw: RawJob)

  /** Everything a run reads from outside. `arrivals` is in the order the parallel portal nodes were merged. */
  datatype Env = Env(
    profile: Option<Profile>,
    enabledPortals: seq<string>,
    arrivals: seq<Arrival>,
    weights: Weights,
    thresholds: Thresholds,
    limits: Limits)

  datatype Metrics = Metrics(
    discovered: nat, duplicates: nat, scored: nat, rejected: nat, queued: nat, humanReviewPending: nat)

  datatype RunState = RunState(
    enabledPortals: seq<string>,
    discovered: seq<RawJob>,
    duplicates: seq<Job>,
    scored: seq<ScoredJob>,
    rejected: seq<ScoredJob>,
    queue: seq<ScoredJob>,
    review: seq<ScoredJob>,
    metrics: Option<Metrics>,
    warnings: seq<string>,
    errors: seq<RunError>)

  /** A checkpointed run: waiting at the policy guard with the answers recorded for it, or at the end. */
  datatype Thread =
    | Paused(state: RunState, answers: seq<Decisions>, payload: seq<ScoredJob>)
    | Completed(state: RunState)

  function JobsOf(a: Arrival): seq<RawJob> {
    if a.Found? then a.jobs else []
  }

  /** `discovered_jobs` after every portal node has appended its part. */
  function Accumulated(arrivals: seq<Arrival>): seq<RawJob> {
    if arrivals == [] then [] else Accumulated(arrivals[..|arrivals| - 1]) + JobsOf(arrivals[|arrivals| - 1])
  }

  function PortalErrors(arrivals: seq<Arrival>): seq<RunError> {
    Map(Filter(arrivals, (a: Arrival) => a.Failed?), (a: Arrival) => PortalFailed(a.portal))
  }

  function PortalWarnings(arrivals: seq<Arrival>): seq<string> {
    Map(Filter(arrivals, (a: Arrival) => a.Unconfigured?), (a: Arrival) => a.portal)
  }

  function CandidateSkills(p: Profile): seq<string> {
    p.preferences.skillsPrimary + p.preferences.skillsSecondary + if p.resume.Some? then p.resume.value.skills else []
  }

  function CandidateYears(p: Profile): Option<real> {
    if p.resume.Some? then p.resume.value.experienceYears.value else None
  }

  function ScoreFor(env: Env, p: Profile, job: Job): MatchResult {
    ScoreJob(job, p.preferences, CandidateSkills(p), CandidateYears(p), env.weights, env.thresholds)
  }

  function ScoreAll(env: Env, jobs: seq<Job>): seq<ScoredJob> {
    if env.profile.None? then []
    else Map(jobs, (j: Job) => ScoredJob(j, ScoreFor(env, env.profile.value, j)))
  }

  /** The state when the policy guard is reached. */
  function Prepared(env: Env): RunState {
    var discovered := Accumulated(env.arrivals);
    var jobs := Normalized(discovered);
    RunState(
      env.enabledPortals, discovered, Duplicates(jobs), ScoreAll(env, Kept(jobs)), [], [], [], None,
      PortalWarnings(env.arrivals),
      (if env.profile.None? then [NoProfile] else []) + PortalErrors(env.arrivals)
      + Map(Malformed(discovered), (r: RawJob) => MalformedJob(r)))
  }

  function Measure(st: RunState): Metrics {
    Metrics(|st.discovered|, |st.duplicates|, |st.scored|, |st.rejected|, |st.queue|, |st.review|)
  }

  /** The last two nodes, given what the policy guard returned. */
  function Finish(st: RunState, out: Outcome): RunState
    requires out.Done?
  {
    var routed := st.(rejected := out.rejected, queue := out.queue, review := out.pending);
    routed.(metrics := Some(Measure(routed)))
  }

  /** Execute the policy guard from its first line with `answers` recorded, and what follows it. */
  function GuardOnwards(env: Env, st: RunState, answers: seq<Decisions>): Thread {
    match Guard(st.scored, env.profile, env.limits, answers)
    case Pause(review) => Paused(st, answers, review)
    case Done(rejected, queue, pending) => Completed(Finish(st, Done(rejected, queue, pending)))
  }

  function Start(env: Env): Thread {
    GuardOnwards(env, Prepared(env), [])
  }

  /** A resumed run re-executes the paused node with one more recorded answer. */
  function Resume(env: Env, t: Thread, d: Decisions): Thread
    requires t.Paused?
  {
    GuardOnwards(env, t.state, t.answers + [d])
  }

  /** A run from its start through at most one human answer. */
  function Run(env: Env, answer: Option<Decisions>): Thread {
    var t := Start(env);
    if t.Paused? && answer.Some? then Resume(env, t, answer.value) else t
  }

  /** A raw posting is discovered exactly when some portal returned it. */
  lemma {:induction false} DiscoveredExactly(arrivals: seq<Arrival>, raw: RawJob)
    ensures raw in Accumulated(arrivals) <==> exists i :: 0 <= i < |arrivals| && arrivals[i].Found? && raw in arrivals[i].jobs
  {
    if arrivals != [] {
      var n := |arrivals| - 1;
      DiscoveredExactly(arrivals[..n], raw);
      if i :| 0 <= i < |arrivals| && arrivals[i].Found? && raw in arrivals[i].jobs {
        assert i < n ==> arrivals[..n][i] == arrivals[i];
      }
    }
  }

  /** Every portal that failed and every malformed posting is reported as an error, every portal without configuration as a warning,
      and a missing profile too; nothing else is. */
  lemma ReportedExactly(env: Env)
    ensures forall portal :: PortalFailed(portal) in Prepared(env).errors <==> Failed(portal) in env.arrivals
    ensures forall raw :: MalformedJob(raw) in Prepared(env).errors <==> raw in Accumulated(env.arrivals) && NormalizeJob(raw).None?
    ensures NoProfile in Prepared(env).errors <==> env.profile.None?
    ensures forall portal :: portal in Prepared(env).warnings <==> Unconfigured(portal) in env.arrivals
  {
    hide NormalizeJob, Accumulated, Normalized, Kept, Duplicates, ScoreAll;
    var failed := Filter(env.arrivals, (a: Arrival) => a.Failed?);
    var unconfigured := Filter(env.arrivals, (a: Arrival) => a.Unconfigured?);
    var malformed := Malformed(Accumulated(env.arrivals));
    forall a ensures a in failed <==> a in env.arrivals && a.Failed? { FilterMember(env.arrivals, (a: Arrival) => a.Failed?, a); }
    forall a ensures a in unconfigured <==> a in env.arrivals && a.Unconfigured? {
      FilterMember(env.arrivals, (a: Arrival) => a.Unconfigured?, a);
    }
    forall raw ensures raw in malformed <==> raw in Accumulated(env.arrivals) && NormalizeJob(raw).None? {
      FilterMember(Accumulated(env.arrivals), (r: RawJob) => NormalizeJob(r).None?, raw);
    }
    MappedMembers(failed, unconfigured, malformed);
  }

  lemma MappedMembers(failed: seq<Arrival>, unconfigured: seq<Arrival>, malformed: seq<RawJob>)
    requires forall a :: a in failed ==> a.Failed?
    requires forall a :: a in unconfigured ==> a.Unconfigured?
    ensures forall portal :: PortalFailed(portal) in Map(failed, (a: Arrival) => PortalFailed(a.portal)) <==> Failed(portal) in failed
    ensures forall portal :: portal in Map(unconfigured, (a: Arrival) => a.portal) <==> Unconfigured(portal) in unconfigured
    ensures forall raw :: MalformedJob(raw) in Map(malformed, (r: RawJob) => MalformedJob(r)) <==> raw in malformed
  {
    var errors, warnings, records := Map(failed, (a: Arrival) => PortalFailed(a.portal)), Map(unconfigured, (a: Arrival) => a.portal),
                                     Map(malformed, (r: RawJob) => MalformedJob(r));
    forall portal | PortalFailed(portal) in errors ensures Failed(portal) in failed {
      var i :| 0 <= i < |errors| && errors[i] == PortalFailed(portal);
      assert failed[i] in failed && failed[i] == Failed(portal);
    }
    forall portal | portal in warnings ensures Unconfigured(portal) in unconfigured {
      var i :| 0 <= i < |warnings| && warnings[i] == portal;
      assert unconfigured[i] in unconfigured && unconfigured[i] == Unconfigured(portal);
    }
    forall portal | Failed(portal) in failed ensures PortalFailed(portal) in errors {
      var i :| 0 <= i < |failed| && failed[i] == Failed(portal);
      assert errors[i] == PortalFailed(portal);
    }
    forall portal | Unconfigured(portal) in unconfigured ensures portal in warnings {
      var i :| 0 <= i < |unconfigured| && unconfigured[i] == Unconfigured(portal);
      assert warnings[i] == portal;
    }
    forall raw | raw in malformed ensures MalformedJob(raw) in records {
      var i :| 0 <= i < |malformed| && malformed[i] == raw;
      assert records[i] == MalformedJob(raw);
    }
  }

  /** Jobs are scored with everything the candidate lists - both kinds of preferred skills and those of the resume - and the years of
      the resume, if there is one. */
  lemma CandidateExactly(p: Profile, skill: string)
    ensures skill in CandidateSkills(p) <==>
            || skill in p.preferences.skillsPrimary || skill in p.preferences.skillsSecondary
            || (p.resume.Some? && skill in p.resume.value.skills)
    ensures CandidateYears(p) == match p.resume case None => None case Some(r) => r.experienceYears.value
  {
  }

  method DiscoverJobs(arrivals: seq<Arrival>) returns (discovered: seq<RawJob>)
    ensures discovered == Accumulated(arrivals)
  {
    discovered := [];
    for i := 0 to |arrivals|
      invariant discovered == Accumulated(arrivals[..i])
    {
      assert arrivals[..i + 1][..i] == arrivals[..i];
      if arrivals[i].Found? {
        discovered := discovered + arrivals[i].jobs;
      }
    }
    assert arrivals[..|arrivals|] == arrivals;
  }

  /** The nodes executed one after the other, up to the policy guard. */
  method ReachGuard(env: Env) returns (st: RunState)
    ensures st == Prepared(env)
  {
    hide Normalized, Kept, Duplicates, Malformed;
    var discovered := DiscoverJobs(env.arrivals);
    var normalized, malformed := NormalizeJobs(discovered);
    var unique, duplicates := DedupeJobs(normalized);
    st := RunState(
      env.enabledPortals, discovered, duplicates, ScoreAll(env, unique), [], [], [], None,
      PortalWarnings(env.arrivals),
      (if env.profile.None? then [NoProfile] else []) + PortalErrors(env.arrivals)
      + Map(malformed, (r: RawJob) => MalformedJob(r)));
  }

  method ExecuteGuard(env: Env, st: RunState, answers: seq<Decisions>) returns (t: Thread)
    ensures t == GuardOnwards(env, st, answers)
  {
    hide Guard;
    var out := PolicyGuardNode(st.scored, env.profile, env.limits, answers);
    match out {
      case Pause(review) => t := Paused(st, answers, review);
      case Done(rejected, queue, pending) => t := Completed(Finish(st, Done(rejected, queue, pending)));
    }
  }

  /** What a run that needs no human ends with: the lists the guard filed, and nothing pending. */
  lemma UnpausedRun(env: Env)
    requires Start(env).Completed?
    ensures var st, scored := Start(env).state, Prepared(env).scored;
            && st.scored == scored && st.enabledPortals == env.enabledPortals
            && st.rejected == ScorerRejected(scored) + Blocked(scored, env.profile, env.limits)
            && st.queue == ToQueue(scored, env.profile, env.limits)
            && st.review == [] == ToReview(scored, env.profile, env.limits)
  {
    hide Prepared, ScorerRejected, Blocked, ToReview, ToQueue;
    PreparedPortals(env);
  }

  lemma PreparedPortals(env: Env)
    ensures Prepared(env).enabledPortals == env.enabledPortals
  {
    hide Normalized, Kept, Duplicates, Malformed, Accumulated, ScoreAll;
  }

  /** Re-running the guard with the recorded answer gives what filing the jobs of the pause payload on the spot would give. */
  lemma ReplayEqualsWaiting(env: Env, d: Decisions)
    requires Start(env).Paused?
    ensures var t, run, scored := Start(env), Run(env, Some(d)), Prepared(env).scored;
            && t.payload == ToReview(scored, env.profile, env.limits) != []
            && t.state == Prepared(env)
            && run.Completed? && run.state.scored == scored && run.state.enabledPortals == env.enabledPortals
            && run.state.rejected == ScorerRejected(scored) + Blocked(scored, env.profile, env.limits) + Declined(t.payload, d)
            && run.state.queue == ToQueue(scored, env.profile, env.limits) + Approved(t.payload, d)
            && run.state.review == Undecided(t.payload, d)
  {
    hide Prepared, ScorerRejected, Blocked, ToReview, ToQueue;
    PreparedPortals(env);
    assert ([] + [d])[0] == d;
  }

  /** A run pauses at most once, and only when some job was routed to review. */
  lemma RunPausesAtMostOnce(env: Env, d: Decisions)
    ensures Run(env, Some(d)).Completed?
    ensures Start(env).Paused? <==> ToReview(Prepared(env).scored, env.profile, env.limits) != []
  {
    hide Prepared, ScorerRejected, Blocked, ToReview, ToQueue;
  }

  lemma JobsLength(list: seq<ScoredJob>)
    ensures |Jobs(list)| == |list|
  {
  }

  lemma GuardConserves(scored: seq<ScoredJob>, profile: Option<Profile>, limits: Limits, answers: seq<Decisions>)
    requires Guard(scored, profile, limits, answers).Done?
    ensures var out := Guard(scored, profile, limits, answers);
            |out.rejected| + |out.queue| + |out.pending| == |scored|
  {
    hide Guard, Jobs;
    var out := Guard(scored, profile, limits, answers);
    GuardLosesNothing(scored, profile, limits, answers);
    JobsLength(out.rejected);
    JobsLength(out.queue);
    JobsLength(out.pending);
    JobsLength(scored);
    var m := multiset(Jobs(out.rejected)) + multiset(Jobs(out.queue)) + multiset(Jobs(out.pending));
    assert |m| == |out.rejected| + |out.queue| + |out.pending|;
    assert |multiset(Jobs(scored))| == |scored|;
  }

  /** The numbers a completed run reports add up: nothing discovered goes missing between portal and bucket. */
  lemma MetricsConserve(env: Env, answer: Option<Decisions>)
    requires Run(env, answer).Completed?
    ensures var st := Run(env, answer).state;
            && st.metrics == Some(Metrics(|st.discovered|, |st.duplicates|, |st.scored|, |st.rejected|, |st.queue|, |st.review|))
            && st.metrics.value.scored == st.metrics.value.rejected + st.metrics.value.queued + st.metrics.value.humanReviewPending
            && st.metrics.value.discovered == |Malformed(st.discovered)| + st.metrics.value.duplicates + |Kept(Normalized(st.discovered))|
            && (env.profile.Some? ==>
                  st.metrics.value.discovered == |Malformed(st.discovered)| + st.metrics.value.duplicates + st.metrics.value.scored)
            && (env.profile.None? ==> st.metrics.value.scored == 0)
  {
    hide Guard, Normalized, Kept, Duplicates, Malformed, Accumulated, ScoreAll;
    var discovered := Accumulated(env.arrivals);
    NormalizationLosesNothing(discovered);
    DedupeSplits(Normalized(discovered));
    ScoreAllLength(env, Kept(Normalized(discovered)));
    var scored := Prepared(env).scored;
    if Guard(scored, env.profile, env.limits, []).Done? {
      GuardConserves(scored, env.profile, env.limits, []);
    } else {
      GuardConserves(scored, env.profile, env.limits, [] + [answer.value]);
    }
  }

  lemma ScoreAllLength(env: Env, jobs: seq<Job>)
    ensures |ScoreAll(env, jobs)| == if env.profile.Some? then |jobs| else 0
  {
  }

  lemma {:induction false} AccumulatedConcat(a: seq<Arrival>, b: seq<Arrival>)
    ensures Accumulated(a + b) == Accumulated(a) + Accumulated(b)
  {
    hide JobsOf;
    if b == [] {
      assert a + b == a;
    } else {
      var n := |b| - 1;
      assert (a + b)[..|a + b| - 1] == a + b[..n];
      AccumulatedConcat(a, b[..n]);
    }
  }

  lemma ArrivalAround(front: seq<Arrival>, x: Arrival, back: seq<Arrival>)
    ensures multiset(Accumulated(front + [x] + back)) == multiset(Accumulated(front + back)) + multiset(Accumulated([x]))
  {
    hide Accumulated;
    AccumulatedConcat(front, [x]);
    AccumulatedConcat(front + [x], back);
    AccumulatedConcat(front, back);
  }

  lemma {:induction false} AccumulatedPermutation(a: seq<Arrival>, b: seq<Arrival>)
    requires multiset(a) == multiset(b)
    ensures multiset(Accumulated(a)) == multiset(Accumulated(b))
  {
    hide Accumulated;
    if a == [] {
      assert |multiset(b)| == 0;
    } else {
      var x := a[|a| - 1];
      var front, back := LocateLast(a, b);
      AccumulatedPermutation(a[..|a| - 1], front + back);
      assert a == a[..|a| - 1] + [x] + [] && a[..|a| - 1] == a[..|a| - 1] + [];
      ArrivalAround(a[..|a| - 1], x, []);
      ArrivalAround(front, x, back);
    }
  }

  /** The merge order of the parallel portals changes neither which opportunities survive nor the
      discovered, duplicate and scored counts. */
  lemma FanOutOrderIndependent(env: Env, other: Env)
    requires other == env.(arrivals := other.arrivals) && multiset(env.arrivals) == multiset(other.arrivals)
    ensures var a, b := Prepared(env), Prepared(other);
            && multiset(a.discovered) == multiset(b.discovered)
            && Keys(Kept(Normalized(a.discovered))) == Keys(Kept(Normalized(b.discovered)))
            && |a.discovered| == |b.discovered| && |a.duplicates| == |b.duplicates| && |a.scored| == |b.scored|
  {
    hide Normalized, Kept, Duplicates, Malformed, Accumulated, ScoreAll, Keys;
    AccumulatedPermutation(env.arrivals, other.arrivals);
    var x, y := Accumulated(env.arrivals), Accumulated(other.arrivals);
    NormalizedPermutation(x, y);
    DedupeOrderIndependent(Normalized(x), Normalized(y));
    ScoreAllLength(env, Kept(Normalized(x)));
    ScoreAllLength(other, Kept(Normalized(y)));
    assert |multiset(x)| == |x| && |multiset(y)| == |y|;
  }
}
