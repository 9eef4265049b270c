/** The deterministic guardrail checks, their aggregation, and how a score is routed through them. */
module Guardrails {
  import opened Prelude
  import opened Text
  import opened Rounding
  import opened Domain
  import opened Scoring

  datatype Decision = Allow | Block | HumanInput

  datatype CheckResult = CheckResult(rule: Rule, decision: Decision)

  datatype Limits = Limits(perDay: int, perCompanyPerDay: int)

  datatype Context = Context(
    job: Job,
    result: MatchResult,
    profile: Profile,
    applicationsToday: int,
    applicationsTodayForCompany: int,
    alreadyApplied: set<string>)

  /** The personal score floor, which leaves jobs already routed to a human alone. */
  function CheckMinimumScore(ctx: Context): Decision {
    if ctx.result.recommendation.HumanReview? then Allow
    else if ctx.result.overallScore < ctx.profile.preferences.minimumMatchScore as real then Block
    else Allow
  }

  function CheckDailyLimit(ctx: Context, limit: int): Decision {
    var own := ctx.profile.preferences.maximumApplicationsPerDay;
    if ctx.applicationsToday >= (if own < limit then own else limit) then Block else Allow
  }

  function CheckCompanyDailyLimit(ctx: Context, limit: int): Decision {
    if ctx.applicationsTodayForCompany >= limit then Block else Allow
  }

  function CheckExcludedCompany(ctx: Context): Decision {
    if exists c :: c in ctx.profile.preferences.companiesExclude && Lower(c) == Lower(ctx.job.company) then Block else Allow
  }

  function CheckExcludedRole(ctx: Context): Decision {
    if MentionsAny(ctx.job.title + " " + ctx.job.description, ctx.profile.preferences.keywordsExclude) then Block else Allow
  }

  function CheckExcludedLocation(ctx: Context): Decision {
    if ctx.job.location.None? || ctx.job.location.value == [] then Allow
    else if MentionsAny(ctx.job.location.value, ctx.profile.preferences.locationsExcluded) then Block
    else Allow
  }

  function CheckMinimumSalary(ctx: Context): Decision {
    var p := ctx.profile.preferences;
    var reference := SalaryReference(ctx.job.salaryMin, ctx.job.salaryMax);
    var currency := ctx.job.salaryCurrency;
    if reference.None? || p.compensationMinimum <= 0.0 then Allow
    else if currency.Some? && currency.value != [] && currency.value != p.compensationCurrency then Allow
    else if reference.value < p.compensationMinimum then Block
    else Allow
  }

  function CheckExperienceMismatch(ctx: Context): Decision {
    if ctx.job.minimumExperience.None? then Allow
    else
      var years := if ctx.profile.resume.Some? then ctx.profile.resume.value.experienceYears.value else None;
      if years.None? then HumanInput
      else if years.value < ctx.job.minimumExperience.value * 0.5 then Block
      else Allow
  }

  function CheckWorkAuthorization(ctx: Context): Decision {
    if ctx.profile.preferences.workAuthorization.None? then HumanInput else Allow
  }

  function CheckDuplicateApplication(ctx: Context): Decision {
    if ctx.job.id in ctx.alreadyApplied then Block else Allow
  }

  function CheckResumeValidation(ctx: Context): Decision {
    if ctx.profile.resume.None? || Strip(ctx.profile.resume.value.rawText) == [] then Block else Allow
  }

  function CheckMandatoryFields(ctx: Context): Decision {
    if ctx.profile.resume.None? then Block
    else
      var email := ctx.profile.resume.value.email.value;
      if email.None? || email.value == [] then Block else Allow
  }

  /** The checks whose outcome does not depend on how the job scored. */
  function ScoreFreeChecks(ctx: Context, limits: Limits): seq<CheckResult> {
    [ CheckResult(MaximumDailyApplications, CheckDailyLimit(ctx, limits.perDay)),
      CheckResult(MaximumCompanyApplications, CheckCompanyDailyLimit(ctx, limits.perCompanyPerDay)),
      CheckResult(ExcludedCompanies, CheckExcludedCompany(ctx)),
      CheckResult(ExcludedRoles, CheckExcludedRole(ctx)),
      CheckResult(ExcludedLocations, CheckExcludedLocation(ctx)),
      CheckResult(MinimumSalary, CheckMinimumSalary(ctx)),
      CheckResult(ExperienceMismatch, CheckExperienceMismatch(ctx)),
      CheckResult(RequiredWorkAuthorization, CheckWorkAuthorization(ctx)),
      CheckResult(DuplicateApplication, CheckDuplicateApplication(ctx)),
      CheckResult(ResumeValidation, CheckResumeValidation(ctx)),
      CheckResult(MandatoryFields, CheckMandatoryFields(ctx)) ]
  }

  /** All twelve results, in the order the engine lists them. */
  function RunChecks(ctx: Context, limits: Limits): seq<CheckResult> {
    var others := ScoreFreeChecks(ctx, limits);
    others[..2] + [CheckResult(MinimumMatchScore, CheckMinimumScore(ctx))] + others[2..]
  }

  predicate Any(results: seq<CheckResult>, d: Decision) {
    exists r :: r in results && r.decision == d
  }

  /** BLOCK over HUMAN_INPUT_REQUIRED over ALLOW. */
  function Aggregate(results: seq<CheckResult>): Decision {
    if Any(results, Block) then Block
    else if Any(results, HumanInput) then HumanInput
    else Allow
  }

  function RunGuardrails(ctx: Context, limits: Limits): Decision {
    Aggregate(RunChecks(ctx, limits))
  }

  /** The rules that gave decision `d`. */
  function RulesWith(ctx: Context, limits: Limits, d: Decision): seq<Rule> {
    Map(Filter(RunChecks(ctx, limits), (r: CheckResult) => r.decision == d), (r: CheckResult) => r.rule)
  }

  /** Each rule blocks, in terms of posting and profile. */
  ghost predicate Objects(rule: Rule, ctx: Context, limits: Limits) {
    var p, job := ctx.profile.preferences, ctx.job;
    match rule
    case MaximumDailyApplications => ctx.applicationsToday >= limits.perDay || ctx.applicationsToday >= p.maximumApplicationsPerDay
    case MaximumCompanyApplications => ctx.applicationsTodayForCompany >= limits.perCompanyPerDay
    case MinimumMatchScore => ctx.result.recommendation != HumanReview && ctx.result.overallScore < p.minimumMatchScore as real
    case ExcludedCompanies => exists i :: 0 <= i < |p.companiesExclude| && Lower(p.companiesExclude[i]) == Lower(job.company)
    case ExcludedRoles =>
      exists i :: 0 <= i < |p.keywordsExclude| && Contains(Lower(job.title + " " + job.description), Lower(p.keywordsExclude[i]))
    case ExcludedLocations =>
      job.location.Some? && job.location.value != []
      && exists i :: 0 <= i < |p.locationsExcluded| && Contains(Lower(job.location.value), Lower(p.locationsExcluded[i]))
    case MinimumSalary =>
      && p.compensationMinimum > 0.0
      && (job.salaryCurrency.None? || job.salaryCurrency.value == [] || job.salaryCurrency.value == p.compensationCurrency)
      && (if job.salaryMax.Some? then job.salaryMax.value < p.compensationMinimum
          else job.salaryMin.Some? && job.salaryMin.value < p.compensationMinimum)
    case ExperienceMismatch =>
      && job.minimumExperience.Some? && ctx.profile.resume.Some? && ctx.profile.resume.value.experienceYears.value.Some?
      && ctx.profile.resume.value.experienceYears.value.value < job.minimumExperience.value / 2.0
    case RequiredWorkAuthorization => false
    case DuplicateApplication => job.id in ctx.alreadyApplied
    case ResumeValidation => ctx.profile.resume.None? || AllSpace(ctx.profile.resume.value.rawText)
    case MandatoryFields => ctx.profile.resume.None? || ctx.profile.resume.value.email.value.None? || ctx.profile.resume.value.email.value.value == []
  }

  /** Only two rules ever ask a human: about years against a stated minimum, and about a missing work authorisation. */
  ghost predicate AsksHuman(rule: Rule, ctx: Context) {
    || (rule == RequiredWorkAuthorization && ctx.profile.preferences.workAuthorization.None?)
    || (rule == ExperienceMismatch && ctx.job.minimumExperience.Some?
        && (ctx.profile.resume.None? || ctx.profile.resume.value.experienceYears.value.None?))
  }

  /** The twelve rules, in the order of the engine's report. */
  const RULES := [
    MaximumDailyApplications, MaximumCompanyApplications, MinimumMatchScore, ExcludedCompanies, ExcludedRoles, ExcludedLocations,
    MinimumSalary, ExperienceMismatch, RequiredWorkAuthorization, DuplicateApplication, ResumeValidation, MandatoryFields]

  /** Which rule objects, which asks and which lets a job pass: all twelve, in order. */
  lemma ChecksExactly(ctx: Context, limits: Limits)
    ensures var results := RunChecks(ctx, limits);
            |results| == 12
            && forall k :: 0 <= k < 12 ==>
                 && results[k].rule == RULES[k]
                 && (results[k].decision == Block <==> Objects(RULES[k], ctx, limits))
                 && (results[k].decision == HumanInput <==> AsksHuman(RULES[k], ctx))
  {
    hide *;
    ChecksListed(ctx, limits);
    forall k | 0 <= k < 12
      ensures RunChecks(ctx, limits)[k].decision == Block <==> Objects(RULES[k], ctx, limits)
      ensures RunChecks(ctx, limits)[k].decision == HumanInput <==> AsksHuman(RULES[k], ctx)
    {
      CheckDecides(RULES[k], ctx, limits);
    }
  }

  /** The check behind a rule. */
  function CheckOf(rule: Rule, ctx: Context, limits: Limits): Decision {
    match rule
    case MaximumDailyApplications => CheckDailyLimit(ctx, limits.perDay)
    case MaximumCompanyApplications => CheckCompanyDailyLimit(ctx, limits.perCompanyPerDay)
    case MinimumMatchScore => CheckMinimumScore(ctx)
    case ExcludedCompanies => CheckExcludedCompany(ctx)
    case ExcludedRoles => CheckExcludedRole(ctx)
    case ExcludedLocations => CheckExcludedLocation(ctx)
    case MinimumSalary => CheckMinimumSalary(ctx)
    case ExperienceMismatch => CheckExperienceMismatch(ctx)
    case RequiredWorkAuthorization => CheckWorkAuthorization(ctx)
    case DuplicateApplication => CheckDuplicateApplication(ctx)
    case ResumeValidation => CheckResumeValidation(ctx)
    case MandatoryFields => CheckMandatoryFields(ctx)
  }

  lemma ChecksListed(ctx: Context, limits: Limits)
    ensures |RULES| == 12 && |RunChecks(ctx, limits)| == 12
    ensures forall k :: 0 <= k < 12 ==> RunChecks(ctx, limits)[k] == CheckResult(RULES[k], CheckOf(RULES[k], ctx, limits))
  {
    hide CheckMinimumScore, CheckDailyLimit, CheckCompanyDailyLimit, CheckExcludedCompany, CheckExcludedRole, CheckExcludedLocation,
         CheckMinimumSalary, CheckExperienceMismatch, CheckWorkAuthorization, CheckDuplicateApplication, CheckResumeValidation,
         CheckMandatoryFields;
  }

  lemma CheckDecides(rule: Rule, ctx: Context, limits: Limits)
    ensures CheckOf(rule, ctx, limits) == Block <==> Objects(rule, ctx, limits)
    ensures CheckOf(rule, ctx, limits) == HumanInput <==> AsksHuman(rule, ctx)
  {
    LimitChecks(ctx, limits);
    ExclusionChecks(ctx, limits);
    JobChecks(ctx, limits);
    ProfileChecks(ctx, limits);
    hide Objects, AsksHuman, CheckMinimumScore, CheckDailyLimit, CheckCompanyDailyLimit, CheckExcludedCompany, CheckExcludedRole,
         CheckExcludedLocation, CheckMinimumSalary, CheckExperienceMismatch, CheckWorkAuthorization, CheckDuplicateApplication,
         CheckResumeValidation, CheckMandatoryFields;
  }

  ghost predicate Decides(d: Decision, rule: Rule, ctx: Context, limits: Limits) {
    (d == Block <==> Objects(rule, ctx, limits)) && (d == HumanInput <==> AsksHuman(rule, ctx))
  }

  lemma LimitChecks(ctx: Context, limits: Limits)
    ensures Decides(CheckDailyLimit(ctx, limits.perDay), MaximumDailyApplications, ctx, limits)
    ensures Decides(CheckCompanyDailyLimit(ctx, limits.perCompanyPerDay), MaximumCompanyApplications, ctx, limits)
    ensures Decides(CheckMinimumScore(ctx), MinimumMatchScore, ctx, limits)
  {
  }

  lemma ExclusionChecks(ctx: Context, limits: Limits)
    ensures Decides(CheckExcludedCompany(ctx), ExcludedCompanies, ctx, limits)
    ensures Decides(CheckExcludedRole(ctx), ExcludedRoles, ctx, limits)
    ensures Decides(CheckExcludedLocation(ctx), ExcludedLocations, ctx, limits)
  {
    hide Contains, Lower;
  }

  lemma JobChecks(ctx: Context, limits: Limits)
    ensures Decides(CheckMinimumSalary(ctx), MinimumSalary, ctx, limits)
    ensures Decides(CheckExperienceMismatch(ctx), ExperienceMismatch, ctx, limits)
    ensures Decides(CheckDuplicateApplication(ctx), DuplicateApplication, ctx, limits)
  {
  }

  lemma ProfileChecks(ctx: Context, limits: Limits)
    ensures Decides(CheckWorkAuthorization(ctx), RequiredWorkAuthorization, ctx, limits)
    ensures Decides(CheckResumeValidation(ctx), ResumeValidation, ctx, limits)
    ensures Decides(CheckMandatoryFields(ctx), MandatoryFields, ctx, limits)
  {
    hide Strip, IsSpace;
    if ctx.profile.resume.Some? { BlankExactly(ctx.profile.resume.value.rawText); }
  }

  /** The engine blocks exactly when some rule objects, and otherwise asks exactly when some rule asks. */
  lemma GuardrailsExactly(ctx: Context, limits: Limits)
    ensures RunGuardrails(ctx, limits) == Block <==> exists rule :: rule in RULES && Objects(rule, ctx, limits)
    ensures RunGuardrails(ctx, limits) == HumanInput <==>
            (forall rule :: rule in RULES ==> !Objects(rule, ctx, limits)) && exists rule :: rule in RULES && AsksHuman(rule, ctx)
  {
    hide RunChecks, Objects, AsksHuman;
    ChecksExactly(ctx, limits);
    var results := RunChecks(ctx, limits);
    assert |RULES| == 12;
    assert Any(results, Block) <==> exists k :: 0 <= k < 12 && Objects(RULES[k], ctx, limits) by {
      if r :| r in results && r.decision == Block { var k :| 0 <= k < 12 && results[k] == r; }
      if k :| 0 <= k < 12 && Objects(RULES[k], ctx, limits) { assert results[k] in results; }
    }
    assert Any(results, HumanInput) <==> exists k :: 0 <= k < 12 && AsksHuman(RULES[k], ctx) by {
      if r :| r in results && r.decision == HumanInput { var k :| 0 <= k < 12 && results[k] == r; }
      if k :| 0 <= k < 12 && AsksHuman(RULES[k], ctx) { assert results[k] in results; }
    }
  }

  /** The rules reported for a decision are exactly those that took it. */
  lemma ReportedRules(ctx: Context, limits: Limits, rule: Rule)
    ensures rule in RulesWith(ctx, limits, Block) <==> rule in RULES && Objects(rule, ctx, limits)
    ensures rule in RulesWith(ctx, limits, HumanInput) <==> rule in RULES && AsksHuman(rule, ctx)
  {
    hide RunChecks, Objects, AsksHuman;
    ChecksExactly(ctx, limits);
    RulesTaking(ctx, limits, Block, rule);
    RulesTaking(ctx, limits, HumanInput, rule);
    assert |RULES| == 12;
    TakenAt(ctx, limits, Block, rule);
    TakenAt(ctx, limits, HumanInput, rule);
  }

  lemma TakenAt(ctx: Context, limits: Limits, d: Decision, rule: Rule)
    ensures |RULES| == 12 && |RunChecks(ctx, limits)| == 12
    ensures (exists r :: r in RunChecks(ctx, limits) && r.decision == d && r.rule == rule) <==>
            exists k :: 0 <= k < 12 && RULES[k] == rule && RunChecks(ctx, limits)[k].decision == d
  {
    hide RunChecks, CheckOf;
    ChecksListed(ctx, limits);
    var results := RunChecks(ctx, limits);
    if r :| r in results && r.decision == d && r.rule == rule { var k :| 0 <= k < 12 && results[k] == r; }
    if k :| 0 <= k < 12 && results[k].decision == d && RULES[k] == rule { assert results[k] in results; }
  }

  lemma RulesTaking(ctx: Context, limits: Limits, d: Decision, rule: Rule)
    ensures rule in RulesWith(ctx, limits, d) <==> exists r :: r in RunChecks(ctx, limits) && r.decision == d && r.rule == rule
  {
    hide RunChecks;
    var chosen := Filter(RunChecks(ctx, limits), (r: CheckResult) => r.decision == d);
    if rule in RulesWith(ctx, limits, d) {
      var k :| 0 <= k < |chosen| && chosen[k].rule == rule;
      FilterMember(RunChecks(ctx, limits), (r: CheckResult) => r.decision == d, chosen[k]);
    }
    if r :| r in RunChecks(ctx, limits) && r.decision == d && r.rule == rule {
      FilterMember(RunChecks(ctx, limits), (r: CheckResult) => r.decision == d, r);
      var k :| 0 <= k < |chosen| && chosen[k] == r;
      assert RulesWith(ctx, limits, d)[k] == rule;
    }
  }

  /** The context the policy guard builds: nothing has been applied to yet. */
  function FreshContext(job: Job, result: MatchResult, profile: Profile): Context {
    Context(job, result, profile, 0, 0, {})
  }

  datatype Bucket = Rejected | Review | Queue

  /** Stricter buckets have lower levels. */
  function Level(b: Bucket): nat {
    match b case Rejected => 0 case Review => 1 case Queue => 2
  }

  lemma LevelExactly()
    ensures Level(Rejected) < Level(Review) < Level(Queue)
  {
  }

  /** The bucket the recommendation alone would give. */
  function ScoreBucket(r: Recommendation): Bucket {
    match r case Reject => Rejected case HumanReview => Review case _ => Queue
  }

  /** Where the policy guard puts a job before any human decision. */
  function Route(job: Job, result: MatchResult, profile: Option<Profile>, limits: Limits): Bucket {
    if result.recommendation.Reject? then Rejected
    else if profile.None? then ScoreBucket(result.recommendation)
    else
      match RunGuardrails(FreshContext(job, result, profile.value), limits)
      case Block => Rejected
      case HumanInput => Review
      case Allow => ScoreBucket(result.recommendation)
  }

  /** Before any human decision a job is rejected exactly when the scorer rejected it or some rule objects, and otherwise reviewed
      exactly when the scorer says so or some rule asks; the guard counts no earlier applications. */
  lemma RouteExactly(job: Job, result: MatchResult, profile: Option<Profile>, limits: Limits)
    ensures Route(job, result, profile, limits) == Rejected <==>
            || result.recommendation == Reject
            || (profile.Some? && exists rule :: rule in RULES && Objects(rule, Context(job, result, profile.value, 0, 0, {}), limits))
    ensures Route(job, result, profile, limits) == Review <==>
            && result.recommendation != Reject
            && (profile.Some? ==> forall rule :: rule in RULES ==> !Objects(rule, Context(job, result, profile.value, 0, 0, {}), limits))
            && (|| result.recommendation == HumanReview
                || (profile.Some? && exists rule :: rule in RULES && AsksHuman(rule, Context(job, result, profile.value, 0, 0, {}))))
  {
    hide RunGuardrails, Objects, AsksHuman, RULES;
    if profile.Some? { GuardrailsExactly(Context(job, result, profile.value, 0, 0, {}), limits); }
  }

  /** Guardrails only tighten: no job lands in a looser bucket than its recommendation. */
  lemma RouteOnlyTightens(job: Job, result: MatchResult, profile: Option<Profile>, limits: Limits)
    ensures Level(Route(job, result, profile, limits)) <= Level(ScoreBucket(result.recommendation))
    ensures profile.Some? && Any(RunChecks(FreshContext(job, result, profile.value), limits), Block) ==>
              Route(job, result, profile, limits) == Rejected
    ensures profile.Some? && Route(job, result, profile, limits) == Queue ==>
              forall r :: r in RunChecks(FreshContext(job, result, profile.value), limits) ==> r.decision == Allow
  {
    hide RunChecks;
    if profile.Some? {
      var results := RunChecks(FreshContext(job, result, profile.value), limits);
      forall r | r in results && Aggregate(results) == Allow ensures r.decision == Allow {
        assert r.decision == Block ==> Any(results, Block);
        assert r.decision == HumanInput ==> Any(results, HumanInput);
      }
    }
  }

  /** The decision of every check but the score floor. */
  function OtherDecision(job: Job, result: MatchResult, profile: Profile, limits: Limits): Decision {
    Aggregate(ScoreFreeChecks(FreshContext(job, result, profile), limits))
  }

  lemma OtherDecisionIgnoresResult(job: Job, r1: MatchResult, r2: MatchResult, profile: Profile, limits: Limits)
    ensures OtherDecision(job, r1, profile, limits) == OtherDecision(job, r2, profile, limits)
  {
    ChecksIgnoreResult(FreshContext(job, r1, profile), r2, limits);
    hide ScoreFreeChecks, Aggregate;
  }

  lemma ChecksIgnoreResult(ctx: Context, result: MatchResult, limits: Limits)
    ensures ScoreFreeChecks(ctx.(result := result), limits) == ScoreFreeChecks(ctx, limits)
  {
    hide MentionsAny, Strip, Lower, SalaryReference;
  }

  /** The engine's decision is the strictest of the score floor and the remaining checks. */
  lemma GuardrailsSplit(job: Job, result: MatchResult, profile: Profile, limits: Limits)
    ensures var ctx := FreshContext(job, result, profile);
            RunGuardrails(ctx, limits) == if CheckMinimumScore(ctx) == Block then Block else OtherDecision(job, result, profile, limits)
  {
    hide ScoreFreeChecks, CheckMinimumScore;
    var ctx := FreshContext(job, result, profile);
    ElevenOthers(ctx, limits);
    var others := ScoreFreeChecks(ctx, limits);
    FloorNeverAsks(ctx);
    AggregateInsert(others, CheckResult(MinimumMatchScore, CheckMinimumScore(ctx)));
  }

  lemma ElevenOthers(ctx: Context, limits: Limits)
    ensures |ScoreFreeChecks(ctx, limits)| == 11
  {
  }

  lemma FloorNeverAsks(ctx: Context)
    ensures CheckMinimumScore(ctx) != HumanInput
  {
  }

  lemma AggregateInsert(others: seq<CheckResult>, r: CheckResult)
    requires |others| >= 2 && r.decision != HumanInput
    ensures Aggregate(others[..2] + [r] + others[2..]) == if r.decision == Block then Block else Aggregate(others)
  {
    var all := others[..2] + [r] + others[2..];
    assert others == others[..2] + others[2..];
    assert forall x :: x in all <==> x == r || x in others;
    assert Any(all, Block) <==> r.decision == Block || Any(others, Block);
    assert Any(all, HumanInput) <==> Any(others, HumanInput);
  }

  /** The lowest score that any queueing recommendation accepts. */
  function QueueBar(t: Thresholds): real {
    Min(t.priorityApply, Min(t.normalApply, t.applyIfCapacity))
  }

  /** A match result whose recommendation is the one its score earns. */
  function Scored(result: MatchResult, score: real, t: Thresholds): MatchResult {
    result.(overallScore := score, recommendation := RecommendationFor(t, score))
  }

  /** The route of a job as a function of its score alone, in closed form. */
  function RouteByScore(score: real, floor: real, t: Thresholds, other: Decision): Bucket {
    if other == Block then Rejected
    else if score >= QueueBar(t) then
      (if score < floor then Rejected else if other == HumanInput then Review else Queue)
    else if score >= t.humanReview then Review
    else Rejected
  }

  lemma RouteClosedForm(job: Job, result: MatchResult, profile: Profile, limits: Limits, t: Thresholds, score: real)
    ensures Route(job, Scored(result, score, t), Some(profile), limits)
            == RouteByScore(score, profile.preferences.minimumMatchScore as real, t, OtherDecision(job, result, profile, limits))
  {
    hide RunGuardrails, OtherDecision;
    GuardrailsSplit(job, Scored(result, score, t), profile, limits);
    OtherDecisionIgnoresResult(job, result, Scored(result, score, t), profile, limits);
  }

  /** Routing respects the order of the scores that can occur. */
  ghost predicate RoutingMonotone(job: Job, result: MatchResult, profile: Profile, limits: Limits, t: Thresholds, possible: real -> bool) {
    forall low: real, high: real {:trigger Scored(result, low, t), Scored(result, high, t)} ::
      low <= high && possible(low) && possible(high) ==>
      Level(Route(job, Scored(result, low, t), Some(profile), limits)) <= Level(Route(job, Scored(result, high, t), Some(profile), limits))
  }

  /** Some possible score lies in a half-open interval. */
  ghost predicate Meets(possible: real -> bool, from: real, to: real) {
    exists score: real :: possible(score) && from <= score < to
  }

  /** A higher possible score never routes a job to a stricter bucket, exactly when some other check blocks it anyway, no possible
      score is in the human-review band, or none is queueable but under the personal floor. */
  lemma RoutingMonotoneAmong(job: Job, result: MatchResult, profile: Profile, limits: Limits, t: Thresholds, possible: real -> bool)
    ensures RoutingMonotone(job, result, profile, limits, t, possible) <==>
            || OtherDecision(job, result, profile, limits) == Block
            || !Meets(possible, t.humanReview, QueueBar(t))
            || !Meets(possible, QueueBar(t), profile.preferences.minimumMatchScore as real)
  {
    hide Route, OtherDecision, QueueBar, Scored;
    var floor, bar, other := profile.preferences.minimumMatchScore as real, QueueBar(t), OtherDecision(job, result, profile, limits);
    forall score: real
      ensures Route(job, Scored(result, score, t), Some(profile), limits) == RouteByScore(score, floor, t, other)
    {
      RouteClosedForm(job, result, profile, limits, t, score);
    }
    if other != Block && Meets(possible, t.humanReview, bar) && Meets(possible, bar, floor) {
      var low: real :| possible(low) && t.humanReview <= low < bar;
      var high: real :| possible(high) && bar <= high < floor;
      assert Level(Route(job, Scored(result, low, t), Some(profile), limits)) > Level(Route(job, Scored(result, high, t), Some(profile), limits));
    } else {
      forall low: real, high: real | low <= high && possible(low) && possible(high)
        ensures Level(Route(job, Scored(result, low, t), Some(profile), limits)) <= Level(Route(job, Scored(result, high, t), Some(profile), limits))
      {
        assert Level(RouteByScore(low, floor, t, other)) <= Level(RouteByScore(high, floor, t, other));
      }
    }
  }

  /** Over all scores: the personal floor is no higher than the lowest queueing threshold, or there is no human-review band. */
  lemma RoutingMonotoneExact(job: Job, result: MatchResult, profile: Profile, limits: Limits, t: Thresholds)
    ensures RoutingMonotone(job, result, profile, limits, t, _ => true) <==>
            || OtherDecision(job, result, profile, limits) == Block
            || profile.preferences.minimumMatchScore as real <= QueueBar(t)
            || QueueBar(t) <= t.humanReview
  {
    hide RoutingMonotone, OtherDecision, QueueBar;
    var possible := (score: real) => true;
    RoutingMonotoneAmong(job, result, profile, limits, t, possible);
    assert possible(t.humanReview) && possible(QueueBar(t));
  }

  /** The least whole number of hundredths that is at least `x`. */
  function NextHundredth(x: real): real {
    -((-x * 100.0).Floor as real) / 100.0
  }

  lemma NextHundredthIsLeast(x: real, score: real)
    ensures OnGrid(NextHundredth(x)) && x <= NextHundredth(x)
    ensures OnGrid(score) && x <= score ==> NextHundredth(x) <= score
  {
    var k := (-x * 100.0).Floor;
    HundredthsOnGrid(-k);
    assert NextHundredth(x) == (-k) as real / 100.0;
    if OnGrid(score) && x <= score {
      var m := (score * 100.0).Floor;
      assert (-m) as real <= -x * 100.0;
      assert -m <= k;
    }
  }

  /** A reported score lies in the interval: a whole number of hundredths between zero and `total`. */
  predicate Reaches(total: real, from: real, to: real) {
    var least := NextHundredth(Max(from, 0.0));
    least < to && least <= total
  }

  lemma ReachesExactly(total: real, from: real, to: real)
    ensures Meets((score: real) => 0.0 <= score <= total && OnGrid(score), from, to) <==> Reaches(total, from, to)
  {
    hide NextHundredth, OnGrid;
    var possible := (score: real) => 0.0 <= score <= total && OnGrid(score);
    var least := NextHundredth(Max(from, 0.0));
    NextHundredthIsLeast(Max(from, 0.0), 0.0);
    if Meets(possible, from, to) {
      var score: real :| possible(score) && from <= score < to;
      NextHundredthIsLeast(Max(from, 0.0), score);
    }
    if Reaches(total, from, to) {
      assert possible(least);
    }
  }

  /** Over the scores the scorer can report under given weights: whole hundredths from zero to their sum. */
  lemma RoutingMonotoneForWeights(job: Job, result: MatchResult, profile: Profile, limits: Limits, t: Thresholds, w: Weights)
    ensures RoutingMonotone(job, result, profile, limits, t, score => 0.0 <= score <= Total(w) && OnGrid(score)) <==>
            || OtherDecision(job, result, profile, limits) == Block
            || !Reaches(Total(w), t.humanReview, QueueBar(t))
            || !Reaches(Total(w), QueueBar(t), profile.preferences.minimumMatchScore as real)
  {
    hide RoutingMonotone, OtherDecision, QueueBar, Reaches, OnGrid, Meets, Total;
    var possible := (score: real) => 0.0 <= score <= Total(w) && OnGrid(score);
    RoutingMonotoneAmong(job, result, profile, limits, t, possible);
    ReachesExactly(Total(w), t.humanReview, QueueBar(t));
    ReachesExactly(Total(w), QueueBar(t), profile.preferences.minimumMatchScore as real);
  }

  /** Both the guardrail and the scorer compare a salary in this currency with the minimum. (An empty currency text is compared by the
      guardrail alone.) */
  predicate Comparable(currency: Option<string>, p: Preferences) {
    p.compensationMinimum > 0.0 && (currency.None? || currency.value == p.compensationCurrency)
  }

  /** Every posting with a salary in this currency that the guardrail blocks scores in the lowest band: at most the rounded 0.6 share of
      the weight, where the band above the minimum starts. */
  ghost predicate BlockedSalariesScoreLow(p: Preferences, currency: Option<string>, weight: real) {
    forall ctx: Context {:trigger CheckMinimumSalary(ctx)} ::
      ctx.profile.preferences == p && ctx.job.salaryCurrency == currency && CheckMinimumSalary(ctx) == Block ==>
        ScoreSalary(SalaryReference(ctx.job.salaryMin, ctx.job.salaryMax), currency, p, weight) <= Scaled(weight, 0.6)
  }

  lemma BlockedSalaryLow(ctx: Context, weight: real)
    requires weight >= 0.0 && CheckMinimumSalary(ctx) == Block
    requires var p := ctx.profile.preferences;
             || !Comparable(ctx.job.salaryCurrency, p)
             || p.compensationPreferred <= 0.0 || p.compensationPreferred >= p.compensationMinimum || weight <= Scaled(weight, 0.6)
    ensures ScoreSalary(SalaryReference(ctx.job.salaryMin, ctx.job.salaryMax), ctx.job.salaryCurrency, ctx.profile.preferences, weight)
            <= Scaled(weight, 0.6)
  {
    hide Scaled;
    var reference, minimum := SalaryReference(ctx.job.salaryMin, ctx.job.salaryMax).value, ctx.profile.preferences.compensationMinimum;
    ScaledMonotone(weight, 0.5, 0.6);
    ShareBelow(reference, minimum);
    ScaledMonotone(weight, Max(reference / minimum, 0.0) * 0.6, 0.6);
  }

  /** A posting that offers exactly the preferred salary. */
  function PreferredSalaryOffered(p: Preferences, currency: Option<string>): Context {
    Context(Job("1", "mock", "u", "t", "c", None, None, None, Some(p.compensationPreferred), currency, "", [], [], None, None, None),
            MatchResult(0.0, Breakdown(0.0, 0.0, 0.0, 0.0, 0.0, 0.0), [], [], Reject, []), Profile(None, p), 0, 0, {})
  }

  /** With a preferred salary below the minimum, say 50 and 100, a posting that pays the preferred one is blocked for its salary and
      still scores the full weight for it. */
  lemma PreferredSalaryBlocked(p: Preferences, currency: Option<string>, weight: real)
    requires Comparable(currency, p) && 0.0 < p.compensationPreferred < p.compensationMinimum
    ensures var ctx := PreferredSalaryOffered(p, currency);
            && ctx.profile.preferences == p && ctx.job.salaryCurrency == currency
            && CheckMinimumSalary(ctx) == Block
            && ScoreSalary(SalaryReference(ctx.job.salaryMin, ctx.job.salaryMax), currency, p, weight) == weight
  {
  }

  /** Salary scorer and salary guardrail agree exactly when they do not both compare salaries in the currency, the preferred salary is
      unset or not below the minimum, or the 0.6 share is the whole weight. */
  lemma SalaryScoreAgreesExact(p: Preferences, currency: Option<string>, weight: real)
    requires weight >= 0.0
    ensures BlockedSalariesScoreLow(p, currency, weight) <==>
            || !Comparable(currency, p)
            || p.compensationPreferred <= 0.0 || p.compensationPreferred >= p.compensationMinimum || weight <= Scaled(weight, 0.6)
  {
    hide Scaled, CheckMinimumSalary, ScoreSalary, PreferredSalaryOffered;
    var minimum, preferred := p.compensationMinimum, p.compensationPreferred;
    if !Comparable(currency, p) || preferred <= 0.0 || preferred >= minimum || weight <= Scaled(weight, 0.6) {
      forall ctx: Context | ctx.profile.preferences == p && ctx.job.salaryCurrency == currency && CheckMinimumSalary(ctx) == Block
        ensures ScoreSalary(SalaryReference(ctx.job.salaryMin, ctx.job.salaryMax), currency, p, weight) <= Scaled(weight, 0.6)
      {
        BlockedSalaryLow(ctx, weight);
      }
    } else {
      var ctx := PreferredSalaryOffered(p, currency);
      PreferredSalaryBlocked(p, currency, weight);
    }
  }

  /** The score of a candidate who has the minimum. */
  function MetScore(years: real, maximum: Option<real>, weight: real): real {
    if maximum.Some? && years > maximum.value * 1.5 then Scaled(weight, 0.8) else weight
  }

  /** The years the resume states, if any. */
  function ResumeYears(profile: Profile): Option<real> {
    if profile.resume.Some? then profile.resume.value.experienceYears.value else None
  }

  /** A job the experience guardrail allows scores at least half its weight, and one it asks about exactly half. One it blocks scores
      at most half exactly when the years are below the stated minimum, as they are unless that is negative, or when the score of a
      candidate who meets it is no higher. */
  lemma ExperienceScoreAgrees(ctx: Context, weight: real)
    requires weight >= 0.0 && OnGrid(weight)
    ensures var years, minimum, maximum := ResumeYears(ctx.profile), ctx.job.minimumExperience, ctx.job.maximumExperience;
            var score, half := ScoreExperience(years, minimum, maximum, weight), Scaled(weight, 0.5);
            && (CheckExperienceMismatch(ctx) == HumanInput ==> score == half)
            && (CheckExperienceMismatch(ctx) == Allow ==> score >= half)
            && (CheckExperienceMismatch(ctx) == Block ==>
                  && (minimum.value >= 0.0 ==> years.value < minimum.value)
                  && (score <= half <==> years.value < minimum.value || MetScore(years.value, maximum, weight) <= half))
  {
    hide Scaled, OnGrid;
    ScaledWithin(weight, 0.5);
    ScaledMonotone(weight, 0.0, 0.5);
    ScaledMonotone(weight, 0.5, 0.8);
    if ctx.job.minimumExperience.Some? && ResumeYears(ctx.profile).Some? && ctx.job.minimumExperience.value > 0.0 {
      var years, minimum := ResumeYears(ctx.profile).value, ctx.job.minimumExperience.value;
      HalfShare(years, minimum);
      var ratio := Max(years / minimum, 0.0);
      if ratio <= 0.5 { ScaledMonotone(weight, ratio, 0.5); }
      if ratio >= 0.5 { ScaledMonotone(weight, 0.5, ratio); }
    }
  }

  lemma HalfShare(part: real, whole: real)
    requires whole > 0.0
    ensures part / whole < 0.5 <==> part < whole * 0.5
  {
    var q := part / whole;
    assert q * whole == part;
    if q < 0.5 {
      assert (0.5 - q) * whole > 0.0;
    } else {
      assert (q - 0.5) * whole >= 0.0;
    }
  }
}
