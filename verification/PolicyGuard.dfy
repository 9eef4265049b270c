/** The policy guard: score-based routing, guardrails, and the pause for human review. */
module PolicyGuard {
  import opened Prelude
  import opened Domain
  import opened Guardrails

  /** Human outcomes by job id: "queue", "reject", or anything else. */
  type Decisions = map<string, string>

  /** A node either pauses with its interrupt payload or finishes. */
  datatype Outcome =
    | Pause(review: seq<ScoredJob>)
    | Done(rejected: seq<ScoredJob>, queue: seq<ScoredJob>, pending: seq<ScoredJob>)

  function RouteOf(s: ScoredJob, profile: Option<Profile>, limits: Limits): Bucket {
    Route(s.job, s.result, profile, limits)
  }

  /** The job as the guard files it: a guardrail that blocks or asks rewrites the recommendation and adds its reasons. */
  function Annotate(s: ScoredJob, profile: Option<Profile>, limits: Limits): ScoredJob {
    if s.result.recommendation.Reject? || profile.None? then s
    else
      var ctx := FreshContext(s.job, s.result, profile.value);
      match RunGuardrails(ctx, limits)
      case Block => Noted(s, RulesWith(ctx, limits, Block), Reject)
      case HumanInput => Noted(s, RulesWith(ctx, limits, HumanInput), HumanReview)
      case Allow => s
  }

  function Noted(s: ScoredJob, rules: seq<Rule>, r: Recommendation): ScoredJob {
    s.(result := s.result.(recommendation := r, notes := s.result.notes + rules))
  }

  /** The scored jobs that satisfy a test, filed. */
  function Filed(scored: seq<ScoredJob>, test: ScoredJob -> bool, profile: Option<Profile>, limits: Limits): seq<ScoredJob> {
    Map(Filter(scored, test), (s: ScoredJob) => Annotate(s, profile, limits))
  }

  function ScorerRejected(scored: seq<ScoredJob>): seq<ScoredJob> {
    Filter(scored, (s: ScoredJob) => s.result.recommendation.Reject?)
  }

  predicate IsBlocked(s: ScoredJob, profile: Option<Profile>, limits: Limits) {
    !s.result.recommendation.Reject? && RouteOf(s, profile, limits) == Rejected
  }

  function Blocked(scored: seq<ScoredJob>, profile: Option<Profile>, limits: Limits): seq<ScoredJob> {
    Filed(scored, (s: ScoredJob) => IsBlocked(s, profile, limits), profile, limits)
  }

  function ToReview(scored: seq<ScoredJob>, profile: Option<Profile>, limits: Limits): seq<ScoredJob> {
    Filed(scored, (s: ScoredJob) => RouteOf(s, profile, limits) == Review, profile, limits)
  }

  function ToQueue(scored: seq<ScoredJob>, profile: Option<Profile>, limits: Limits): seq<ScoredJob> {
    Filed(scored, (s: ScoredJob) => RouteOf(s, profile, limits) == Queue, profile, limits)
  }

  function Verdict(d: Decisions, s: ScoredJob): string {
    if s.job.id in d then d[s.job.id] else ""
  }

  function Approved(review: seq<ScoredJob>, d: Decisions): seq<ScoredJob> {
    Filter(review, (s: ScoredJob) => Verdict(d, s) == "queue")
  }

  function Declined(review: seq<ScoredJob>, d: Decisions): seq<ScoredJob> {
    Filter(review, (s: ScoredJob) => Verdict(d, s) == "reject")
  }

  function Undecided(review: seq<ScoredJob>, d: Decisions): seq<ScoredJob> {
    Filter(review, (s: ScoredJob) => Verdict(d, s) != "queue" && Verdict(d, s) != "reject")
  }

  /** The node, given the answers recorded for it so far. */
  function Guard(scored: seq<ScoredJob>, profile: Option<Profile>, limits: Limits, answers: seq<Decisions>): Outcome {
    var rejected := ScorerRejected(scored) + Blocked(scored, profile, limits);
    var review := ToReview(scored, profile, limits);
    var queue := ToQueue(scored, profile, limits);
    if review == [] then Done(rejected, queue, [])
    else if answers == [] then Pause(review)
    else Done(rejected + Declined(review, answers[0]), queue + Approved(review, answers[0]), Undecided(review, answers[0]))
  }

  lemma FiledStep(scored: seq<ScoredJob>, i: nat, test: ScoredJob -> bool, profile: Option<Profile>, limits: Limits)
    requires i < |scored|
    ensures Filed(scored[..i + 1], test, profile, limits)
            == Filed(scored[..i], test, profile, limits) + if test(scored[i]) then [Annotate(scored[i], profile, limits)] else []
  {
    hide Annotate;
    FilterStep(scored, i, test);
  }

  /** A job is filed as it was scored, except that one some guardrail blocks is marked as rejected and one some guardrail asks about
      as needing review, with the rules that did so noted. */
  lemma AnnotateByRoute(s: ScoredJob, profile: Option<Profile>, limits: Limits)
    ensures Annotate(s, profile, limits).job == s.job
    ensures RouteOf(s, profile, limits) == Queue ==> Annotate(s, profile, limits) == s
    ensures s.result.recommendation.Reject? || profile.None? ==> Annotate(s, profile, limits) == s
    ensures profile.Some? && !s.result.recommendation.Reject? ==>
              var ctx := Context(s.job, s.result, profile.value, 0, 0, {});
              match RunGuardrails(ctx, limits)
              case Allow => Annotate(s, profile, limits) == s
              case Block => Annotate(s, profile, limits) == ScoredJob(s.job, s.result.(
                recommendation := Reject, notes := s.result.notes + RulesWith(ctx, limits, Block)))
              case HumanInput => Annotate(s, profile, limits) == ScoredJob(s.job, s.result.(
                recommendation := HumanReview, notes := s.result.notes + RulesWith(ctx, limits, HumanInput)))
  {
    hide RunGuardrails, RulesWith;
  }

  method RouteJobs(scored: seq<ScoredJob>, profile: Option<Profile>, limits: Limits)
    returns (rejected: seq<ScoredJob>, review: seq<ScoredJob>, queue: seq<ScoredJob>)
    ensures rejected == ScorerRejected(scored) + Blocked(scored, profile, limits)
    ensures review == ToReview(scored, profile, limits)
    ensures queue == ToQueue(scored, profile, limits)
  {
    hide RunGuardrails, RulesWith, Noted;
    rejected := Filter(scored, (s: ScoredJob) => s.result.recommendation.Reject?);
    ghost var own := rejected;
    review, queue := [], [];
    for i := 0 to |scored|
      invariant rejected == own + Blocked(scored[..i], profile, limits)
      invariant review == ToReview(scored[..i], profile, limits)
      invariant queue == ToQueue(scored[..i], profile, limits)
    {
      var s := scored[i];
      FiledStep(scored, i, (s: ScoredJob) => IsBlocked(s, profile, limits), profile, limits);
      FiledStep(scored, i, (s: ScoredJob) => RouteOf(s, profile, limits) == Review, profile, limits);
      FiledStep(scored, i, (s: ScoredJob) => RouteOf(s, profile, limits) == Queue, profile, limits);
      if s.result.recommendation.Reject? {
        continue;
      }
      if profile.None? {
        if s.result.recommendation.HumanReview? {
          review := review + [s];
        } else {
          queue := queue + [s];
        }
        continue;
      }
      var ctx := FreshContext(s.job, s.result, profile.value);
      var decision := RunGuardrails(ctx, limits);
      if decision == Block {
        rejected := rejected + [Noted(s, RulesWith(ctx, limits, Block), Reject)];
      } else if decision == HumanInput {
        review := review + [Noted(s, RulesWith(ctx, limits, HumanInput), HumanReview)];
      } else if s.result.recommendation.HumanReview? {
        review := review + [s];
      } else {
        queue := queue + [s];
      }
    }
    assert scored[..|scored|] == scored;
  }

  method PolicyGuardNode(scored: seq<ScoredJob>, profile: Option<Profile>, limits: Limits, answers: seq<Decisions>)
    returns (out: Outcome)
    ensures out == Guard(scored, profile, limits, answers)
  {
    hide Blocked, ToReview, ToQueue;
    var rejected, review, queue := RouteJobs(scored, profile, limits);
    if review == [] {
      return Done(rejected, queue, []);
    }
    if answers == [] {
      return Pause(review);
    }
    ghost var rejected0, queue0 := rejected, queue;
    var pending: seq<ScoredJob> := [];
    var d := answers[0];
    for i := 0 to |review|
      invariant rejected == rejected0 + Declined(review[..i], d)
      invariant queue == queue0 + Approved(review[..i], d)
      invariant pending == Undecided(review[..i], d)
    {
      FilterStep(review, i, (s: ScoredJob) => Verdict(d, s) == "queue");
      FilterStep(review, i, (s: ScoredJob) => Verdict(d, s) == "reject");
      FilterStep(review, i, (s: ScoredJob) => Verdict(d, s) != "queue" && Verdict(d, s) != "reject");
      var outcome := Verdict(d, review[i]);
      if outcome == "queue" {
        queue := queue + [review[i]];
      } else if outcome == "reject" {
        rejected := rejected + [review[i]];
      } else {
        pending := pending + [review[i]];
      }
    }
    assert review[..|review|] == review;
    out := Done(rejected, queue, pending);
  }

  /** The jobs of a list, without their match results. */
  function Jobs(list: seq<ScoredJob>): seq<Job> {
    Map(list, (s: ScoredJob) => s.job)
  }

  lemma JobsConcat(a: seq<ScoredJob>, b: seq<ScoredJob>)
    ensures Jobs(a + b) == Jobs(a) + Jobs(b)
  {
    MapConcat(a, b, (s: ScoredJob) => s.job);
  }

  lemma FiledKeepsJobs(scored: seq<ScoredJob>, test: ScoredJob -> bool, profile: Option<Profile>, limits: Limits)
    ensures Jobs(Filed(scored, test, profile, limits)) == Jobs(Filter(scored, test))
  {
    hide Annotate;
    forall s: ScoredJob ensures Annotate(s, profile, limits).job == s.job {
      AnnotateByRoute(s, profile, limits);
    }
  }

  /** Three tests that exclude one another and leave nothing out split a list into three. */
  lemma ThreeWaySplit(list: seq<ScoredJob>, p: ScoredJob -> bool, q: ScoredJob -> bool, r: ScoredJob -> bool)
    requires forall s :: s in list ==> (p(s) && !q(s) && !r(s)) || (!p(s) && q(s) && !r(s)) || (!p(s) && !q(s) && r(s))
    ensures multiset(Filter(list, p)) + multiset(Filter(list, q)) + multiset(Filter(list, r)) == multiset(list)
  {
    if list != [] {
      var n := |list| - 1;
      assert list == list[..n] + [list[n]];
      assert list[n] in list;
      ThreeWaySplit(list[..n], p, q, r);
    }
  }

  lemma JobsOfPermutation(a: seq<ScoredJob>, b: seq<ScoredJob>)
    requires multiset(a) == multiset(b)
    ensures multiset(Jobs(a)) == multiset(Jobs(b))
  {
    MapPermutation(a, b, (s: ScoredJob) => s.job);
  }

  lemma JobsSplit(list: seq<ScoredJob>, p: ScoredJob -> bool, q: ScoredJob -> bool, r: ScoredJob -> bool)
    requires forall s :: s in list ==> (p(s) && !q(s) && !r(s)) || (!p(s) && q(s) && !r(s)) || (!p(s) && !q(s) && r(s))
    ensures multiset(Jobs(Filter(list, p))) + multiset(Jobs(Filter(list, q))) + multiset(Jobs(Filter(list, r))) == multiset(Jobs(list))
  {
    hide Jobs;
    ThreeWaySplit(list, p, q, r);
    var a, b, c := Filter(list, p), Filter(list, q), Filter(list, r);
    JobsOfPermutation(a + b + c, list);
    JobsConcat(a + b, c);
    JobsConcat(a, b);
  }

  /** Rejected, queued and reviewed jobs before any human decision are exactly the scored jobs. */
  lemma RoutingLosesNothing(scored: seq<ScoredJob>, profile: Option<Profile>, limits: Limits)
    ensures multiset(Jobs(ScorerRejected(scored) + Blocked(scored, profile, limits)))
            + multiset(Jobs(ToQueue(scored, profile, limits))) + multiset(Jobs(ToReview(scored, profile, limits)))
            == multiset(Jobs(scored))
  {
    hide Jobs, Filed, RouteOf;
    var own := (s: ScoredJob) => s.result.recommendation.Reject?;
    var blocked := (s: ScoredJob) => IsBlocked(s, profile, limits);
    var review := (s: ScoredJob) => RouteOf(s, profile, limits) == Review;
    var queue := (s: ScoredJob) => RouteOf(s, profile, limits) == Queue;
    var rejected := (s: ScoredJob) => RouteOf(s, profile, limits) == Rejected;
    FiledKeepsJobs(scored, blocked, profile, limits);
    FiledKeepsJobs(scored, review, profile, limits);
    FiledKeepsJobs(scored, queue, profile, limits);
    forall s: ScoredJob ensures own(s) ==> rejected(s) {
      RejectRoutesToRejected(s, profile, limits);
    }
    JobsSplit(scored, rejected, queue, review);
    RejectedSplit(scored, rejected, own, blocked);
    JobsConcat(ScorerRejected(scored), Blocked(scored, profile, limits));
  }

  lemma RejectRoutesToRejected(s: ScoredJob, profile: Option<Profile>, limits: Limits)
    ensures s.result.recommendation.Reject? ==> RouteOf(s, profile, limits) == Rejected
  {
  }

  lemma {:induction false} TwoWaySplit(list: seq<ScoredJob>, whole: ScoredJob -> bool, p: ScoredJob -> bool, q: ScoredJob -> bool)
    requires forall s :: whole(s) <==> p(s) || q(s)
    requires forall s :: !(p(s) && q(s))
    ensures multiset(Filter(list, whole)) == multiset(Filter(list, p)) + multiset(Filter(list, q))
  {
    if list != [] {
      TwoWaySplit(list[..|list| - 1], whole, p, q);
    }
  }

  lemma RejectedSplit(list: seq<ScoredJob>, whole: ScoredJob -> bool, p: ScoredJob -> bool, q: ScoredJob -> bool)
    requires forall s :: whole(s) <==> p(s) || q(s)
    requires forall s :: !(p(s) && q(s))
    ensures multiset(Jobs(Filter(list, whole))) == multiset(Jobs(Filter(list, p))) + multiset(Jobs(Filter(list, q)))
  {
    hide Jobs;
    TwoWaySplit(list, whole, p, q);
    JobsOfPermutation(Filter(list, p) + Filter(list, q), Filter(list, whole));
    JobsConcat(Filter(list, p), Filter(list, q));
  }

  /** Whatever the humans decide, no scored job is lost, copied or invented. */
  lemma GuardLosesNothing(scored: seq<ScoredJob>, profile: Option<Profile>, limits: Limits, answers: seq<Decisions>)
    requires Guard(scored, profile, limits, answers).Done?
    ensures var out := Guard(scored, profile, limits, answers);
            multiset(Jobs(out.rejected)) + multiset(Jobs(out.queue)) + multiset(Jobs(out.pending)) == multiset(Jobs(scored))
  {
    hide Jobs, ScorerRejected, Blocked, ToReview, ToQueue;
    RoutingLosesNothing(scored, profile, limits);
    var review := ToReview(scored, profile, limits);
    var rejected := ScorerRejected(scored) + Blocked(scored, profile, limits);
    var queue := ToQueue(scored, profile, limits);
    NoJobs();
    if review != [] {
      var d := answers[0];
      JobsSplit(review, (s: ScoredJob) => Verdict(d, s) == "reject", (s: ScoredJob) => Verdict(d, s) == "queue",
                (s: ScoredJob) => Verdict(d, s) != "queue" && Verdict(d, s) != "reject");
      JobsConcat(rejected, Declined(review, d));
      JobsConcat(queue, Approved(review, d));
    }
  }

  lemma NoJobs()
    ensures Jobs([]) == []
  {
  }

  /** Every queued job was allowed by every guardrail, or was shown to a human who answered "queue";
      none was rejected by the scorer or blocked by a guardrail. */
  lemma QueueIsSafe(scored: seq<ScoredJob>, profile: Option<Profile>, limits: Limits, answers: seq<Decisions>, q: ScoredJob)
    requires Guard(scored, profile, limits, answers).Done? && q in Guard(scored, profile, limits, answers).queue
    ensures exists s :: s in scored && q == Annotate(s, profile, limits)
                        && (RouteOf(s, profile, limits) == Queue
                            || (RouteOf(s, profile, limits) == Review && answers != []
                                && q.job.id in answers[0] && answers[0][q.job.id] == "queue"))
  {
    hide RouteOf, Annotate;
    var queue := ToQueue(scored, profile, limits);
    if q in queue {
      var s := FiledOrigin(scored, (s: ScoredJob) => RouteOf(s, profile, limits) == Queue, profile, limits, q);
    } else {
      var review := ToReview(scored, profile, limits);
      FilterMember(review, (s: ScoredJob) => Verdict(answers[0], s) == "queue", q);
      var s := FiledOrigin(scored, (s: ScoredJob) => RouteOf(s, profile, limits) == Review, profile, limits, q);
    }
  }

  /** What becomes of a job once the humans have decided: a reviewed one is queued exactly when its id is present with "queue", rejected
      exactly when present with "reject", and still pending exactly when absent or present with any other text. */
  lemma DecidedExactly(scored: seq<ScoredJob>, profile: Option<Profile>, limits: Limits, d: Decisions, q: ScoredJob)
    requires ToReview(scored, profile, limits) != []
    ensures var out, review := Guard(scored, profile, limits, [d]), ToReview(scored, profile, limits);
            && out.Done?
            && (q in out.queue <==>
                  q in ToQueue(scored, profile, limits) || (q in review && q.job.id in d && d[q.job.id] == "queue"))
            && (q in out.rejected <==>
                  || q in ScorerRejected(scored) || q in Blocked(scored, profile, limits)
                  || (q in review && q.job.id in d && d[q.job.id] == "reject"))
            && (q in out.pending <==>
                  q in review && (q.job.id !in d || (d[q.job.id] != "queue" && d[q.job.id] != "reject")))
  {
    hide ToReview, ToQueue, ScorerRejected, Blocked;
    var review := ToReview(scored, profile, limits);
    FilterMember(review, (s: ScoredJob) => Verdict(d, s) == "queue", q);
    FilterMember(review, (s: ScoredJob) => Verdict(d, s) == "reject", q);
    FilterMember(review, (s: ScoredJob) => Verdict(d, s) != "queue" && Verdict(d, s) != "reject", q);
    DistinctWords();
  }

  /** The review list of the pause payload holds exactly the jobs routed to review, as filed; the others likewise. */
  lemma ListedExactly(scored: seq<ScoredJob>, profile: Option<Profile>, limits: Limits, q: ScoredJob)
    ensures q in ToReview(scored, profile, limits) <==>
            exists s :: s in scored && RouteOf(s, profile, limits) == Review && q == Annotate(s, profile, limits)
    ensures q in ToQueue(scored, profile, limits) <==>
            exists s :: s in scored && RouteOf(s, profile, limits) == Queue && q == Annotate(s, profile, limits)
    ensures q in ScorerRejected(scored) <==> q in scored && q.result.recommendation == Reject
    ensures q in Blocked(scored, profile, limits) <==>
            exists s :: s in scored && s.result.recommendation != Reject && RouteOf(s, profile, limits) == Rejected
                        && q == Annotate(s, profile, limits)
  {
    hide RouteOf, Annotate, Filed;
    FiledExactly(scored, (s: ScoredJob) => RouteOf(s, profile, limits) == Review, profile, limits, q);
    FiledExactly(scored, (s: ScoredJob) => RouteOf(s, profile, limits) == Queue, profile, limits, q);
    FiledExactly(scored, (s: ScoredJob) => IsBlocked(s, profile, limits), profile, limits, q);
    FilterMember(scored, (s: ScoredJob) => s.result.recommendation.Reject?, q);
  }

  lemma FiledExactly(scored: seq<ScoredJob>, test: ScoredJob -> bool, profile: Option<Profile>, limits: Limits, q: ScoredJob)
    ensures q in Filed(scored, test, profile, limits) <==> exists s :: s in scored && test(s) && q == Annotate(s, profile, limits)
  {
    hide Annotate;
    if q in Filed(scored, test, profile, limits) { var s := FiledOrigin(scored, test, profile, limits, q); }
    if s :| s in scored && test(s) && q == Annotate(s, profile, limits) {
      var kept := Filter(scored, test);
      FilterMember(scored, test, s);
      var k :| 0 <= k < |kept| && kept[k] == s;
      assert Filed(scored, test, profile, limits)[k] == q;
    }
  }

  lemma DistinctWords()
    ensures "queue" != "reject" && "" != "queue" && "" != "reject"
  {
    assert "queue"[0] != "reject"[0];
  }

  lemma FiledOrigin(scored: seq<ScoredJob>, test: ScoredJob -> bool, profile: Option<Profile>, limits: Limits, q: ScoredJob)
    returns (s: ScoredJob)
    requires q in Filed(scored, test, profile, limits)
    ensures s in scored && test(s) && q == Annotate(s, profile, limits)
  {
    hide Annotate;
    var kept := Filter(scored, test);
    var i :| 0 <= i < |kept| && Filed(scored, test, profile, limits)[i] == q;
    s := kept[i];
    FilterMember(scored, test, s);
  }
}
