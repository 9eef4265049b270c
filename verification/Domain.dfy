/** Jobs, candidates and match results: the values every component passes around. */
module Domain {
  import opened Prelude

  datatype Job = Job(
    id: string,
    source: string,
    url: string,
    title: string,
    company: string,
    location: Option<string>,
    workMode: Option<string>,
    salaryMin: Option<real>,
    salaryMax: Option<real>,
    salaryCurrency: Option<string>,
    description: string,
    requiredSkills: seq<string>,
    preferredSkills: seq<string>,
    minimumExperience: Option<real>,
    maximumExperience: Option<real>,
    industry: Option<string>)

  /** The schema rejects a confidence outside this range. */
  type Confidence = c: real | 0.0 <= c <= 1.0 witness 0.0

  datatype Extracted<+T> = Extracted(value: Option<T>, confidence: Confidence)

  /** `experienceText` is the years as the form would show them. */
  datatype ResumeExtraction = ResumeExtraction(
    rawText: string,
    name: Extracted<string>,
    email: Extracted<string>,
    phone: Extracted<string>,
    currentTitle: Extracted<string>,
    location: Extracted<string>,
    experienceYears: Extracted<real>,
    experienceText: string,
    skills: seq<string>)

  datatype Preferences = Preferences(
    targetPositions: seq<string>,
    preferredIndustries: seq<string>,
    skillsPrimary: seq<string>,
    skillsSecondary: seq<string>,
    locationsPreferred: seq<string>,
    locationsExcluded: seq<string>,
    relocationAllowed: bool,
    workMode: seq<string>,
    workAuthorization: Option<string>,
    compensationCurrency: string,
    compensationMinimum: real,
    compensationPreferred: real,
    companiesExclude: seq<string>,
    keywordsExclude: seq<string>,
    minimumMatchScore: int,
    maximumApplicationsPerDay: int)

  datatype Profile = Profile(resume: Option<ResumeExtraction>, preferences: Preferences)

  datatype Recommendation = PriorityApply | NormalApply | ApplyIfCapacity | HumanReview | Reject

  /** From strictest to loosest. */
  function Rank(r: Recommendation): nat {
    match r
    case Reject => 0
    case HumanReview => 1
    case ApplyIfCapacity => 2
    case NormalApply => 3
    case PriorityApply => 4
  }

  /** The five recommendations in order. */
  lemma RankExactly()
    ensures Rank(Reject) < Rank(HumanReview) < Rank(ApplyIfCapacity) < Rank(NormalApply) < Rank(PriorityApply)
  {
  }

  datatype Breakdown = Breakdown(
    title: real, skills: real, experience: real, industry: real, location: real, compensation: real)

  /** The guardrail rules. */
  datatype Rule =
    | MaximumDailyApplications | MaximumCompanyApplications | MinimumMatchScore | ExcludedCompanies
    | ExcludedRoles | ExcludedLocations | MinimumSalary | ExperienceMismatch | RequiredWorkAuthorization
    | DuplicateApplication | ResumeValidation | MandatoryFields

  /** `notes` are the guardrail rules appended to the explanation. */
  datatype MatchResult = MatchResult(
    overallScore: real,
    breakdown: Breakdown,
    matchedSkills: seq<string>,
    missingSkills: seq<string>,
    recommendation: Recommendation,
    notes: seq<Rule>)

  datatype ScoredJob = ScoredJob(job: Job, result: MatchResult)
}
