/** What gaining skills does to a job's route through scorer and guardrails together. */
module SkillRouting {
  import opened Prelude
  import opened Text
  import opened Rounding
  import opened Domain
  import opened SkillMatching
  import opened Scoring
  import opened Guardrails
  import Discovery

  /** The two candidates differ in nothing but the skills they list. */
  predicate SameButSkills(p: Profile, q: Profile) {
    && q.preferences == p.preferences.(skillsPrimary := q.preferences.skillsPrimary, skillsSecondary := q.preferences.skillsSecondary)
    && (p.resume.Some? <==> q.resume.Some?)
    && (p.resume.Some? ==> q.resume.value == p.resume.value.(skills := q.resume.value.skills))
  }

  /** The second candidate lists every skill of the first. */
  predicate GainsSkills(p: Profile, q: Profile) {
    SameButSkills(p, q) && forall s :: s in Discovery.CandidateSkills(p) ==> s in Discovery.CandidateSkills(q)
  }

  /** Where the pipeline puts a job before any human decision. */
  function RouteFor(env: Discovery.Env, p: Profile, job: Job): Bucket {
    Route(job, Discovery.ScoreFor(env, p, job), Some(p), env.limits)
  }

  lemma ScoreForIsScored(env: Discovery.Env, p: Profile, job: Job)
    ensures var r := Discovery.ScoreFor(env, p, job); r == Scored(r, r.overallScore, env.thresholds)
  {
    hide ScoreBreakdown, Round2, RecommendationFor;
  }

  /** The checks other than the score floor see the same candidate. */
  lemma SameOtherDecision(job: Job, r1: MatchResult, r2: MatchResult, p: Profile, q: Profile, limits: Limits)
    requires SameButSkills(p, q)
    ensures OtherDecision(job, r1, p, limits) == OtherDecision(job, r2, q, limits)
  {
    SameChecks(FreshContext(job, r1, p), FreshContext(job, r2, q), limits);
    hide ScoreFreeChecks, Aggregate;
  }

  lemma SameChecks(a: Context, b: Context, limits: Limits)
    requires SameButSkills(a.profile, b.profile) && a == b.(result := a.result, profile := a.profile)
    ensures ScoreFreeChecks(a, limits) == ScoreFreeChecks(b, limits)
  {
    hide MentionsAny, Strip, Lower, SalaryReference;
  }

  lemma GainingSkillsScoresNoWorse(env: Discovery.Env, p: Profile, q: Profile, job: Job)
    requires env.weights.skills >= 0.0 && GainsSkills(p, q)
    ensures NoWorse(Discovery.ScoreFor(env, p, job), Discovery.ScoreFor(env, q, job))
  {
    MoreSkillsNoWorse(job, p.preferences, Discovery.CandidateSkills(p), Discovery.CandidateSkills(q), Discovery.CandidateYears(p),
                      env.weights, env.thresholds);
    SameScoring(env, p, q, job);
  }

  lemma SameScoring(env: Discovery.Env, p: Profile, q: Profile, job: Job)
    requires SameButSkills(p, q)
    ensures Discovery.ScoreFor(env, q, job)
            == ScoreJob(job, p.preferences, Discovery.CandidateSkills(q), Discovery.CandidateYears(p), env.weights, env.thresholds)
  {
    SameBreakdown(job, p.preferences, q.preferences, Discovery.CandidateSkills(q), Discovery.CandidateYears(p), env.weights);
    assert Discovery.CandidateYears(q) == Discovery.CandidateYears(p);
    hide ScoreBreakdown, Round2, RecommendationFor, Discovery.CandidateSkills, Discovery.CandidateYears, Has;
  }

  lemma SameBreakdown(job: Job, p: Preferences, q: Preferences, skills: seq<string>, years: Option<real>, w: Weights)
    requires q == p.(skillsPrimary := q.skillsPrimary, skillsSecondary := q.skillsSecondary)
    ensures ScoreBreakdown(job, q, skills, years, w) == ScoreBreakdown(job, p, skills, years, w)
  {
    SamePlaceAndPay(job.location, job.workMode, SalaryReference(job.salaryMin, job.salaryMax), job.salaryCurrency, p, q, w);
    hide ScoreLocation, ScoreSalary, SkillScore, ScoreExperience, ScoreIndustry, SalaryReference;
  }

  lemma SamePlaceAndPay(location: Option<string>, workMode: Option<string>, reference: Option<real>, currency: Option<string>,
                        p: Preferences, q: Preferences, w: Weights)
    requires q == p.(skillsPrimary := q.skillsPrimary, skillsSecondary := q.skillsSecondary)
    ensures ScoreLocation(location, workMode, q, w.location) == ScoreLocation(location, workMode, p, w.location)
    ensures ScoreSalary(reference, currency, q, w.compensation) == ScoreSalary(reference, currency, p, w.compensation)
  {
    hide LocationMatches, Scaled, SalaryPosition;
  }

  /** Gaining skills never routes any job to a stricter bucket, if another check blocks it anyway, the personal floor is no higher
      than the lowest queueing threshold, or there is no human-review band. */
  lemma GainingSkillsNoStricter(env: Discovery.Env, p: Profile, q: Profile, job: Job)
    requires env.weights.skills >= 0.0 && GainsSkills(p, q)
    requires || OtherDecision(job, Discovery.ScoreFor(env, p, job), p, env.limits) == Block
             || p.preferences.minimumMatchScore as real <= QueueBar(env.thresholds)
             || QueueBar(env.thresholds) <= env.thresholds.humanReview
    ensures Level(RouteFor(env, p, job)) <= Level(RouteFor(env, q, job))
  {
    hide Discovery.ScoreFor, Route, OtherDecision, QueueBar, Scored, Discovery.CandidateSkills;
    var before, after := Discovery.ScoreFor(env, p, job), Discovery.ScoreFor(env, q, job);
    GainingSkillsScoresNoWorse(env, p, q, job);
    ScoreForIsScored(env, p, job);
    ScoreForIsScored(env, q, job);
    RouteClosedForm(job, before, p, env.limits, env.thresholds, before.overallScore);
    RouteClosedForm(job, after, q, env.limits, env.thresholds, after.overallScore);
    SameOtherDecision(job, before, after, p, q, env.limits);
  }

  // --- a candidate who loses a job by learning its language ---

  function ShippedEnv(p: Profile): Discovery.Env {
    Discovery.Env(Some(p), [], [], SHIPPED_WEIGHTS, SHIPPED_THRESHOLDS, Limits(30, 2))
  }

  /** Asks for scores of at least 85 and works remotely. */
  function Demanding(skills: seq<string>): Profile {
    var unset := Extracted(None, 0.0);
    Profile(
      Some(ResumeExtraction("resume", unset, Extracted(Some("a@b.co"), 0.95), unset, unset, unset, Extracted(None, 0.0), "", [])),
      Preferences([], ["Finance"], skills, [], [], [], false, ["remote"], Some("citizen"), "USD", 0.0, 0.0, [], [], 85, 30))
  }

  /** On site, of no stated industry, paid in another currency, and requiring one skill. */
  function OneSkillJob(): Job {
    Job("1", "mock", "u", "t", "c", None, Some("onsite"), None, Some(60.0), Some("EUR"), "", ["Go"], [], None, None, None)
  }

  lemma WholeRounds(x: real, k: int)
    requires x == k as real
    ensures Round2(x) == x
  {
    assert x * 100.0 == (k * 100) as real;
    Round2Fixed(x);
  }

  /** 25 + 15 + 7 + 1 + 5 from the other five signals. */
  lemma OtherSignals(skills: seq<string>)
    ensures var b := ScoreBreakdown(OneSkillJob(), Demanding(skills).preferences, skills, None, SHIPPED_WEIGHTS);
            b.title + b.experience + b.industry + b.location + b.compensation == 53.0
            && b.skills == SkillScore(skills, ["Go"], [], 30.0)
  {
    hide Round2, SkillScore;
    assert "onsite" != "remote" by { assert "onsite"[0] != "remote"[0]; }
    assert "EUR" != "USD" by { assert "EUR"[0] != "USD"[0]; }
    WholeRounds(10.0 * 0.7, 7);
    WholeRounds(10.0 * 0.1, 1);
    WholeRounds(10.0 * 0.5, 5);
  }

  lemma SkillSignals()
    ensures SkillScore([], ["Go"], [], 30.0) == 9.0 && SkillScore(["Go"], ["Go"], [], 30.0) == 30.0
  {
    SkillRatios();
    hide Ratio, Round2;
    WholeRounds(30.0 * Combined(0.0, 1.0), 9);
    WholeRounds(30.0 * Combined(1.0, 1.0), 30);
  }

  lemma SkillRatios()
    ensures Ratio([], ["Go"]) == 0.0 && Ratio(["Go"], ["Go"]) == 1.0 && Ratio([], []) == 1.0 && Ratio(["Go"], []) == 1.0
  {
    hide NormalizeSkill;
    assert !Has([], "Go");
    assert Has(["Go"], "Go") by { assert "Go" in ["Go"]; }
    FilterAll(["Go"], s => Has([], s));
    FilterAll(["Go"], s => Has(["Go"], s));
  }

  lemma NothingElseObjects(skills: seq<string>, result: MatchResult)
    ensures OtherDecision(OneSkillJob(), result, Demanding(skills), Limits(30, 2)) == Allow
  {
    assert Strip("resume") == "resume";
  }

  /** With the shipped weights and thresholds and a personal floor of 85, a candidate without the one required skill scores 62 and is
      shown to a human; the same candidate with the skill scores 83 and is rejected. */
  lemma GainingSkillRejected()
    ensures GainsSkills(Demanding([]), Demanding(["Go"]))
    ensures Discovery.ScoreFor(ShippedEnv(Demanding([])), Demanding([]), OneSkillJob()).overallScore == 62.0
    ensures Discovery.ScoreFor(ShippedEnv(Demanding(["Go"])), Demanding(["Go"]), OneSkillJob()).overallScore == 83.0
    ensures RouteFor(ShippedEnv(Demanding([])), Demanding([]), OneSkillJob()) == Review
    ensures RouteFor(ShippedEnv(Demanding(["Go"])), Demanding(["Go"]), OneSkillJob()) == Rejected
  {
    SkillSignals();
    LearnsGo();
    RoutesAt85();
    hide Demanding, ShippedEnv, OneSkillJob, RouteFor, Discovery.ScoreFor, GainsSkills, RouteByScore, SkillScore;
    DemandingScore([], 62);
    DemandingScore(["Go"], 83);
    DemandingRoute([], 62.0);
    DemandingRoute(["Go"], 83.0);
  }

  lemma LearnsGo()
    ensures GainsSkills(Demanding([]), Demanding(["Go"]))
  {
  }

  lemma RoutesAt85()
    ensures RouteByScore(62.0, 85.0, SHIPPED_THRESHOLDS, Allow) == Review
    ensures RouteByScore(83.0, 85.0, SHIPPED_THRESHOLDS, Allow) == Rejected
  {
  }

  lemma DemandingScore(skills: seq<string>, score: int)
    requires SkillScore(skills, ["Go"], [], 30.0) == score as real - 53.0
    ensures Discovery.ScoreFor(ShippedEnv(Demanding(skills)), Demanding(skills), OneSkillJob()).overallScore == score as real
  {
    hide ScoreBreakdown, SkillScore, Round2;
    OtherSignals(skills);
    assert Discovery.CandidateSkills(Demanding(skills)) == skills;
    WholeRounds(score as real, score);
  }

  lemma DemandingRoute(skills: seq<string>, score: real)
    requires Discovery.ScoreFor(ShippedEnv(Demanding(skills)), Demanding(skills), OneSkillJob()).overallScore == score
    ensures RouteFor(ShippedEnv(Demanding(skills)), Demanding(skills), OneSkillJob())
            == RouteByScore(score, 85.0, SHIPPED_THRESHOLDS, Allow)
  {
    hide Discovery.ScoreFor, Route, OtherDecision, Scored, RouteByScore;
    var r := Discovery.ScoreFor(ShippedEnv(Demanding(skills)), Demanding(skills), OneSkillJob());
    ScoreForIsScored(ShippedEnv(Demanding(skills)), Demanding(skills), OneSkillJob());
    RouteClosedForm(OneSkillJob(), r, Demanding(skills), Limits(30, 2), SHIPPED_THRESHOLDS, score);
    NothingElseObjects(skills, r);
  }
}
