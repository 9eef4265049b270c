/** The six signal scorers, their rounded sum, and the recommendation it maps to. */
module Scoring {
  import opened Prelude
  import opened Text
  import opened Rounding
  import opened Domain
  import opened TitleMatching
  import opened SkillMatching

  datatype Weights = Weights(
    title: real, skills: real, experience: real, industry: real, location: real, compensation: real)

  datatype Thresholds = Thresholds(
    priorityApply: real, normalApply: real, applyIfCapacity: real, humanReview: real)

  /** The weights and thresholds of the shipped configuration. */
  const SHIPPED_WEIGHTS := Weights(25.0, 30.0, 15.0, 10.0, 10.0, 10.0)
  const SHIPPED_THRESHOLDS := Thresholds(90.0, 80.0, 75.0, 60.0)

  function RecommendationFor(t: Thresholds, score: real): Recommendation {
    if score >= t.priorityApply then PriorityApply
    else if score >= t.normalApply then NormalApply
    else if score >= t.applyIfCapacity then ApplyIfCapacity
    else if score >= t.humanReview then HumanReview
    else Reject
  }

  function ScoreExperience(years: Option<real>, minimum: Option<real>, maximum: Option<real>, weight: real): real {
    if minimum.None? && maximum.None? then weight
    else if years.None? then Scaled(weight, 0.5)
    else if minimum.Some? && years.value < minimum.value then
      Scaled(weight, if minimum.value > 0.0 then Max(years.value / minimum.value, 0.0) else 0.0)
    else if maximum.Some? && years.value > maximum.value * 1.5 then Scaled(weight, 0.8)
    else weight
  }

  function Max(x: real, y: real): real {
    if x < y then y else x
  }

  function Min(x: real, y: real): real {
    if y < x then y else x
  }

  predicate MentionsAny(text: string, phrases: seq<string>) {
    exists p :: p in phrases && Contains(Lower(text), Lower(p))
  }

  function ScoreIndustry(industry: Option<string>, preferred: seq<string>, weight: real): real {
    if preferred == [] then weight
    else if industry.None? then Scaled(weight, 0.7)
    else if MentionsAny(industry.value, preferred) then weight
    else Scaled(weight, 0.2)
  }

  predicate LocationMatches(location: Option<string>, preferred: seq<string>) {
    location.Some? && MentionsAny(location.value, preferred)
  }

  /** The half-weight branch for an unknown work mode is the one value that is not rounded. */
  function ScoreLocation(location: Option<string>, workMode: Option<string>, p: Preferences, weight: real): real {
    if workMode.None? then
      (if LocationMatches(location, p.locationsPreferred) then weight else weight * 0.5)
    else if workMode.value == "remote" && "remote" in p.workMode then weight
    else if workMode.value !in p.workMode then
      (if p.relocationAllowed && LocationMatches(location, p.locationsPreferred) then Scaled(weight, 0.5) else Scaled(weight, 0.1))
    else if LocationMatches(location, p.locationsPreferred) then weight
    else if p.relocationAllowed then Scaled(weight, 0.6)
    else Scaled(weight, 0.2)
  }

  function SalaryReference(low: Option<real>, high: Option<real>): Option<real> {
    if high.Some? then high else low
  }

  /** Where a salary at or above the minimum lies between the minimum and the preferred one. */
  function SalaryPosition(reference: real, minimum: real, preferred: real): real {
    if preferred > minimum then (reference - minimum) / (preferred - minimum) else 1.0
  }

  function ScoreSalary(reference: Option<real>, currency: Option<string>, p: Preferences, weight: real): real {
    if reference.None? then weight
    else if currency.Some? && currency.value != p.compensationCurrency then Scaled(weight, 0.5)
    else if p.compensationPreferred > 0.0 && reference.value >= p.compensationPreferred then weight
    else if p.compensationMinimum > 0.0 && reference.value >= p.compensationMinimum then
      Scaled(weight, 0.6 + 0.4 * Min(SalaryPosition(reference.value, p.compensationMinimum, p.compensationPreferred), 1.0))
    else if p.compensationMinimum <= 0.0 then weight
    else Scaled(weight, Max(reference.value / p.compensationMinimum, 0.0) * 0.6)
  }

  function Sum(b: Breakdown): real {
    b.title + b.skills + b.experience + b.industry + b.location + b.compensation
  }

  function Total(w: Weights): real {
    w.title + w.skills + w.experience + w.industry + w.location + w.compensation
  }

  function ScoreBreakdown(job: Job, p: Preferences, skills: seq<string>, years: Option<real>, w: Weights): Breakdown {
    Breakdown(
      TitleScore(p.targetPositions, job.title, w.title),
      SkillScore(skills, job.requiredSkills, job.preferredSkills, w.skills),
      ScoreExperience(years, job.minimumExperience, job.maximumExperience, w.experience),
      ScoreIndustry(job.industry, p.preferredIndustries, w.industry),
      ScoreLocation(job.location, job.workMode, p, w.location),
      ScoreSalary(SalaryReference(job.salaryMin, job.salaryMax), job.salaryCurrency, p, w.compensation))
  }

  function ScoreJob(job: Job, p: Preferences, skills: seq<string>, years: Option<real>, w: Weights, t: Thresholds): MatchResult {
    var breakdown := ScoreBreakdown(job, p, skills, years, w);
    var overall := Round2(Sum(breakdown));
    MatchResult(
      overall, breakdown,
      Filter(job.requiredSkills, s => Has(skills, s)) + Filter(job.preferredSkills, s => Has(skills, s)),
      Filter(job.requiredSkills, s => !Has(skills, s)),
      RecommendationFor(t, overall), [])
  }

  /** With thresholds in descending order each recommendation is a band of scores. */
  lemma RecommendationBands(t: Thresholds, score: real)
    requires t.priorityApply >= t.normalApply >= t.applyIfCapacity >= t.humanReview
    ensures RecommendationFor(t, score) == PriorityApply <==> t.priorityApply <= score
    ensures RecommendationFor(t, score) == NormalApply <==> t.normalApply <= score < t.priorityApply
    ensures RecommendationFor(t, score) == ApplyIfCapacity <==> t.applyIfCapacity <= score < t.normalApply
    ensures RecommendationFor(t, score) == HumanReview <==> t.humanReview <= score < t.applyIfCapacity
    ensures RecommendationFor(t, score) == Reject <==> score < t.humanReview
  {
  }

  /** No stated requirement earns everything and unknown years half; below the minimum the score is the weight's share in proportion to
      it, above one and a half times the maximum 0.8 of it, in between everything. */
  lemma ExperienceExactly(years: Option<real>, minimum: Option<real>, maximum: Option<real>, weight: real, share: real)
    ensures var score := ScoreExperience(years, minimum, maximum, weight);
            && (minimum.None? && maximum.None? ==> score == weight)
            && (years.None? && (minimum.Some? || maximum.Some?) ==> score == Scaled(weight, 0.5))
            && (years.Some? && minimum.Some? && 0.0 <= years.value < minimum.value && share * minimum.value == years.value ==>
                  score == Scaled(weight, share))
            && (years.Some? && minimum.Some? && years.value < minimum.value && (years.value <= 0.0 || minimum.value <= 0.0) ==>
                  score == Scaled(weight, 0.0))
            && (years.Some? && maximum.Some? && years.value > maximum.value * 1.5 && (minimum.Some? ==> years.value >= minimum.value) ==>
                  score == Scaled(weight, 0.8))
            && (years.Some? && (minimum.Some? ==> years.value >= minimum.value) && (maximum.Some? ==> years.value <= maximum.value * 1.5) ==>
                  score == weight)
  {
    hide Scaled;
    if years.Some? && minimum.Some? && years.value < minimum.value && minimum.value > 0.0 {
      if years.value <= 0.0 { ProportionalShare(years.value, minimum.value, 0.0); }
      if years.value >= 0.0 && share * minimum.value == years.value { ProportionalShare(years.value, minimum.value, share); }
    }
  }

  lemma ProportionalShare(part: real, whole: real, share: real)
    requires whole > 0.0 && ((part <= 0.0 && share == 0.0) || (part >= 0.0 && share * whole == part))
    ensures share == Max(part / whole, 0.0)
  {
    var ratio := part / whole;
    assert ratio * whole == part;
    if part >= 0.0 {
      SameFactor(share, ratio, whole);
      NonNegativeQuotient(part, whole);
    } else {
      ShareMonotone(part, 0.0, whole);
      assert 0.0 / whole == 0.0;
    }
  }

  /** Some phrase occurs in the text, letter case aside. */
  lemma MentionsExactly(text: string, phrases: seq<string>)
    ensures MentionsAny(text, phrases) <==> exists p, front, back :: p in phrases && Lower(text) == front + Lower(p) + back
  {
    hide Contains, Lower;
    if MentionsAny(text, phrases) {
      var p :| p in phrases && Contains(Lower(text), Lower(p));
      ContainsExactly(Lower(text), Lower(p));
    }
    if p, front, back :| p in phrases && Lower(text) == front + Lower(p) + back {
      ContainsExactly(Lower(text), Lower(p));
    }
  }

  /** Everything when nothing is preferred or a preferred industry is mentioned, 0.7 for an unknown industry, 0.2 for another one. */
  lemma IndustryExactly(industry: Option<string>, preferred: seq<string>, weight: real)
    ensures var score := ScoreIndustry(industry, preferred, weight);
            && (preferred == [] ==> score == weight)
            && (preferred != [] && industry == None ==> score == Scaled(weight, 0.7))
            && (preferred != [] && industry.Some? && MentionsAny(industry.value, preferred) ==> score == weight)
            && (preferred != [] && industry.Some? && !MentionsAny(industry.value, preferred) ==> score == Scaled(weight, 0.2))
  {
    hide Scaled, MentionsAny;
  }

  /** The score by work mode, place and willingness to move. A remote job in an accepted mode, and any job in a preferred place whose
      mode is unknown or accepted, earn everything. */
  lemma LocationExactly(location: Option<string>, mode: Option<string>, p: Preferences, weight: real)
    ensures var score := ScoreLocation(location, mode, p, weight);
            var near := location.Some? && MentionsAny(location.value, p.locationsPreferred);
            var accepted := mode.Some? && mode.value in p.workMode;
            && (mode == None && near ==> score == weight)
            && (mode == None && !near ==> score == weight / 2.0)
            && (accepted && (mode.value == "remote" || near) ==> score == weight)
            && (accepted && mode.value != "remote" && !near ==> score == Scaled(weight, if p.relocationAllowed then 0.6 else 0.2))
            && (mode.Some? && !accepted ==> score == Scaled(weight, if p.relocationAllowed && near then 0.5 else 0.1))
  {
    hide Scaled, MentionsAny;
  }

  /** What a match reports: the rounded sum of the six sub-scores and its recommendation; as matched, the required and then the
      preferred skills the candidate holds; as missing, the required ones alone. */
  lemma MatchExactly(job: Job, p: Preferences, skills: seq<string>, years: Option<real>, w: Weights, t: Thresholds)
    ensures var m, b := ScoreJob(job, p, skills, years, w, t), ScoreBreakdown(job, p, skills, years, w);
            && m.breakdown == b && m.notes == []
            && m.overallScore == Round2(b.title + b.skills + b.experience + b.industry + b.location + b.compensation)
            && m.recommendation == RecommendationFor(t, m.overallScore)
            && m.matchedSkills == Filter(job.requiredSkills + job.preferredSkills, s => Has(skills, s))
            && m.missingSkills == Filter(job.requiredSkills, s => !Has(skills, s))
  {
    hide ScoreBreakdown, Round2, RecommendationFor, Has;
    FilterConcat(job.requiredSkills, job.preferredSkills, s => Has(skills, s));
  }

  /** A job that is lukewarm in every respect, part by part: 10 for its title, 6 for skills, 15 for half the years, 28 for an unknown
      industry, 30 for moving, 30 for a foreign currency. */
  lemma LukewarmMatch(job: Job, p: Preferences, w: Weights)
    requires w == Weights(10.0, 20.0, 30.0, 40.0, 50.0, 60.0)
    requires p.targetPositions == [] && p.preferredIndustries == ["x"] && p.locationsPreferred == [] && p.workMode == ["onsite"]
             && p.relocationAllowed && p.compensationCurrency == "USD"
    requires job.requiredSkills == ["x"] && job.preferredSkills == [] && job.minimumExperience == Some(4.0) && job.maximumExperience == None
             && job.industry == None && job.location == None && job.workMode == Some("onsite")
             && job.salaryMin == None && job.salaryMax == Some(1.0) && job.salaryCurrency == Some("EUR")
    ensures ScoreBreakdown(job, p, [], Some(2.0), w) == Breakdown(10.0, 6.0, 15.0, 28.0, 30.0, 30.0)
  {
    hide NormalizeSkill, Scaled, Round2, MentionsAny;
    LukewarmParts();
    assert Filter(["x"], s => Has([], s)) == [] by { FilterAll(["x"], s => Has([], s)); }
    SkillScoreExactly([], ["x"], [], 20.0, 0.0, 1.0);
    ExperienceExactly(Some(2.0), Some(4.0), None, 30.0, 0.5);
    IndustryExactly(None, ["x"], 40.0);
    LocationExactly(None, Some("onsite"), p, 50.0);
    assert "onsite" != "remote" by { assert "onsite"[0] != "remote"[0]; }
    assert "EUR" != "USD" by { assert "EUR"[0] != "USD"[0]; }
    hide SkillScore, ScoreExperience, ScoreIndustry, ScoreLocation;
  }

  lemma LukewarmParts()
    ensures Scaled(20.0, 0.7 * 0.0 + 0.3 * 1.0) == 6.0 && Scaled(30.0, 0.5) == 15.0 && Scaled(40.0, 0.7) == 28.0
    ensures Scaled(50.0, 0.6) == 30.0 && Scaled(60.0, 0.5) == 30.0
  {
    assert 20.0 * 0.3 == 6.0 && 30.0 * 0.5 == 15.0 && 40.0 * 0.7 == 28.0 && 50.0 * 0.6 == 30.0 && 60.0 * 0.5 == 30.0;
  }

  /** Of a salary range the upper end counts, and the lower end only when it is alone. */
  lemma UpperEndCounts(job: Job, low: Option<real>, p: Preferences, skills: seq<string>, years: Option<real>, w: Weights, t: Thresholds)
    ensures job.salaryMax.Some? ==> ScoreJob(job.(salaryMin := low), p, skills, years, w, t) == ScoreJob(job, p, skills, years, w, t)
    ensures ScoreJob(job.(salaryMin := low, salaryMax := None), p, skills, years, w, t)
            == ScoreJob(job.(salaryMin := None, salaryMax := low), p, skills, years, w, t)
  {
    hide TitleScore, SkillScore, ScoreExperience, ScoreIndustry, ScoreLocation, ScoreSalary, Round2, Has;
  }

  lemma ShareBelow(part: real, whole: real)
    requires part < whole && whole > 0.0
    ensures part / whole < 1.0
  {
  }

  lemma LocationBounded(location: Option<string>, workMode: Option<string>, p: Preferences, weight: real)
    requires weight >= 0.0 && OnGrid(weight)
    ensures 0.0 <= ScoreLocation(location, workMode, p, weight) <= weight
  {
    hide Scaled, OnGrid, LocationMatches;
    ScaledWithin(weight, 0.5);
    ScaledWithin(weight, 0.1);
    ScaledWithin(weight, 0.6);
    ScaledWithin(weight, 0.2);
  }

  /** Between the minimum and the preferred salary the position is a share of the gap. */
  lemma PositionBounded(reference: real, minimum: real, preferred: real)
    requires reference >= minimum
    ensures 0.0 <= Min(SalaryPosition(reference, minimum, preferred), 1.0) <= 1.0
  {
    if preferred > minimum {
      assert (reference - minimum) / (preferred - minimum) >= 0.0;
    }
  }

  lemma SalaryBounded(reference: Option<real>, currency: Option<string>, p: Preferences, weight: real)
    requires weight >= 0.0 && OnGrid(weight)
    ensures 0.0 <= ScoreSalary(reference, currency, p, weight) <= weight
  {
    hide Scaled, OnGrid, SalaryPosition;
    ScaledWithin(weight, 0.5);
    if reference.Some? && p.compensationMinimum > 0.0 {
      if reference.value >= p.compensationMinimum {
        PositionBounded(reference.value, p.compensationMinimum, p.compensationPreferred);
        ScaledWithin(weight, 0.6 + 0.4 * Min(SalaryPosition(reference.value, p.compensationMinimum, p.compensationPreferred), 1.0));
      } else {
        ShareBelow(reference.value, p.compensationMinimum);
        ScaledWithin(weight, Max(reference.value / p.compensationMinimum, 0.0) * 0.6);
      }
    }
  }

  /** A higher score never maps to a stricter recommendation, whatever the thresholds are and in whatever order. */
  lemma RecommendationMonotone(t: Thresholds, low: real, high: real)
    requires low <= high
    ensures Rank(RecommendationFor(t, low)) <= Rank(RecommendationFor(t, high))
  {
  }

  /** One match result is at least as favourable as another. */
  predicate NoWorse(before: MatchResult, after: MatchResult) {
    before.overallScore <= after.overallScore && Rank(before.recommendation) <= Rank(after.recommendation)
  }

  lemma SumDecides(job: Job, job': Job, p: Preferences, p': Preferences, skills: seq<string>, skills': seq<string>,
                   years: Option<real>, w: Weights, t: Thresholds)
    requires Sum(ScoreBreakdown(job, p, skills, years, w)) <= Sum(ScoreBreakdown(job', p', skills', years, w))
    ensures NoWorse(ScoreJob(job, p, skills, years, w, t), ScoreJob(job', p', skills', years, w, t))
  {
    hide ScoreBreakdown, Round2, RecommendationFor;
    var low, high := Sum(ScoreBreakdown(job, p, skills, years, w)), Sum(ScoreBreakdown(job', p', skills', years, w));
    Round2Monotone(low, high);
    RecommendationMonotone(t, Round2(low), Round2(high));
  }

  /** Gaining skills never lowers the overall score or the recommendation; only the sign of the skill weight matters. */
  lemma MoreSkillsNoWorse(job: Job, p: Preferences, few: seq<string>, more: seq<string>, years: Option<real>, w: Weights, t: Thresholds)
    requires w.skills >= 0.0 && forall s :: s in few ==> s in more
    ensures NoWorse(ScoreJob(job, p, few, years, w, t), ScoreJob(job, p, more, years, w, t))
  {
    hide SkillScore, NoWorse, ScoreJob;
    SkillScoreMonotone(few, more, job.requiredSkills, job.preferredSkills, w.skills);
    SumDecides(job, job, p, p, few, more, years, w, t);
  }

  /** Adding target positions to a non-empty list never lowers the overall score or the recommendation. */
  lemma MoreTargetsNoWorse(job: Job, p: Preferences, more: seq<string>, skills: seq<string>, years: Option<real>, w: Weights, t: Thresholds)
    requires w.title >= 0.0 && OnGrid(w.title)
    requires p.targetPositions != [] && forall s :: s in p.targetPositions ==> s in more
    ensures NoWorse(ScoreJob(job, p, skills, years, w, t), ScoreJob(job, p.(targetPositions := more), skills, years, w, t))
  {
    hide TitleScore, NoWorse, ScoreJob;
    TitleScoreMonotone(p.targetPositions, more, job.title, w.title);
    SumDecides(job, job, p, p.(targetPositions := more), skills, skills, years, w, t);
  }

  lemma PositionMonotone(low: real, high: real, minimum: real, preferred: real)
    requires minimum <= low <= high
    ensures Min(SalaryPosition(low, minimum, preferred), 1.0) <= Min(SalaryPosition(high, minimum, preferred), 1.0)
  {
    if preferred > minimum {
      assert (low - minimum) / (preferred - minimum) <= (high - minimum) / (preferred - minimum);
    }
  }

  lemma ShareMonotone(low: real, high: real, whole: real)
    requires low <= high && whole > 0.0
    ensures low / whole <= high / whole
  {
  }

  lemma SalaryMonotone(low: real, high: real, currency: Option<string>, p: Preferences, weight: real)
    requires weight >= 0.0 && OnGrid(weight) && low <= high
    ensures ScoreSalary(Some(low), currency, p, weight) <= ScoreSalary(Some(high), currency, p, weight)
  {
    hide Scaled, OnGrid, SalaryPosition;
    SalaryBounded(Some(low), currency, p, weight);
    var minimum, preferred := p.compensationMinimum, p.compensationPreferred;
    if minimum > 0.0 {
      var lowShare, highShare := Max(low / minimum, 0.0) * 0.6, Max(high / minimum, 0.0) * 0.6;
      ShareMonotone(low, high, minimum);
      ScaledMonotone(weight, lowShare, highShare);
      if high >= minimum {
        PositionBounded(high, minimum, preferred);
        var highPosition := 0.6 + 0.4 * Min(SalaryPosition(high, minimum, preferred), 1.0);
        if low >= minimum {
          PositionMonotone(low, high, minimum, preferred);
          ScaledMonotone(weight, 0.6 + 0.4 * Min(SalaryPosition(low, minimum, preferred), 1.0), highPosition);
        } else {
          ShareBelow(low, minimum);
          ScaledMonotone(weight, lowShare, highPosition);
        }
      }
    }
  }

  /** The currency is unknown or the candidate's own. */
  predicate SameCurrency(currency: Option<string>, p: Preferences) {
    currency.None? || currency.value == p.compensationCurrency
  }

  /** Between the minimum and the preferred salary the share of the weight rises in a straight line from 0.6 to 1; below both it rises
      in a straight line from 0 to 0.6 at the minimum; from the preferred salary on, if there is one, it is the whole weight. */
  lemma SalaryOnTheLine(x: real, currency: Option<string>, p: Preferences, weight: real, share: real)
    requires SameCurrency(currency, p) && p.compensationMinimum > 0.0
    ensures 0.0 < p.compensationPreferred <= x ==> ScoreSalary(Some(x), currency, p, weight) == weight
    ensures p.compensationMinimum <= x < p.compensationPreferred
            && (share - 0.6) * (p.compensationPreferred - p.compensationMinimum) == 0.4 * (x - p.compensationMinimum) ==>
              ScoreSalary(Some(x), currency, p, weight) == Scaled(weight, share)
    ensures 0.0 <= x < p.compensationMinimum && (p.compensationPreferred <= 0.0 || x < p.compensationPreferred)
            && share * p.compensationMinimum == 0.6 * x ==>
              ScoreSalary(Some(x), currency, p, weight) == Scaled(weight, share)
    ensures x <= 0.0 ==> ScoreSalary(Some(x), currency, p, weight) == Scaled(weight, 0.0)
    ensures p.compensationPreferred <= 0.0 && x >= p.compensationMinimum ==>
              ScoreSalary(Some(x), currency, p, weight) == Scaled(weight, 1.0)
  {
    hide Scaled, ScoreSalary;
    SalaryRegions(x, currency, p, weight);
    var minimum, preferred := p.compensationMinimum, p.compensationPreferred;
    if minimum <= x < preferred && (share - 0.6) * (preferred - minimum) == 0.4 * (x - minimum) {
      UpperLine(x - minimum, preferred - minimum, share);
    }
    assert 0.6 + 0.4 * Min(1.0, 1.0) == 1.0;
    if x < minimum {
      hide SalaryPosition;
      if x <= 0.0 { LowerLine(x, minimum, 0.0); }
      if 0.0 <= x && share * minimum == 0.6 * x { LowerLine(x, minimum, share); }
    }
  }

  lemma SalaryRegions(x: real, currency: Option<string>, p: Preferences, weight: real)
    requires SameCurrency(currency, p) && p.compensationMinimum > 0.0
    ensures ScoreSalary(Some(x), currency, p, weight) ==
            if 0.0 < p.compensationPreferred <= x then weight
            else if p.compensationMinimum <= x then
              Scaled(weight, 0.6 + 0.4 * Min(SalaryPosition(x, p.compensationMinimum, p.compensationPreferred), 1.0))
            else Scaled(weight, Max(x / p.compensationMinimum, 0.0) * 0.6)
  {
    hide Scaled, SalaryPosition, Min, Max;
  }

  lemma UpperLine(rise: real, gap: real, share: real)
    requires 0.0 <= rise < gap && (share - 0.6) * gap == 0.4 * rise
    ensures share == 0.6 + 0.4 * Min(rise / gap, 1.0)
  {
    var position := rise / gap;
    assert position * gap == rise;
    SameFactor(share - 0.6, 0.4 * position, gap);
    ShareBelow(rise, gap);
  }

  lemma LowerLine(x: real, minimum: real, share: real)
    requires minimum > 0.0 && ((x <= 0.0 && share == 0.0) || (x >= 0.0 && share * minimum == 0.6 * x))
    ensures share == Max(x / minimum, 0.0) * 0.6
  {
    var ratio := x / minimum;
    assert ratio * minimum == x;
    if x >= 0.0 {
      NonNegativeQuotient(x, minimum);
      SameFactor(share, 0.6 * ratio, minimum);
    } else {
      ShareMonotone(x, 0.0, minimum);
      assert 0.0 / minimum == 0.0;
    }
  }

  lemma SameFactor(a: real, b: real, factor: real)
    requires factor > 0.0 && a * factor == b * factor
    ensures a == b
  {
    assert (a - b) * factor == 0.0;
  }

  lemma NonNegativeQuotient(a: real, b: real)
    requires a >= 0.0 && b > 0.0
    ensures a / b >= 0.0
  {
  }

  /** At the minimum 0.6 of the weight, halfway up 0.8; at half the minimum 0.3. */
  lemma SalaryMilestones(currency: Option<string>, p: Preferences, weight: real)
    requires SameCurrency(currency, p) && 0.0 < p.compensationMinimum < p.compensationPreferred
    ensures ScoreSalary(Some(p.compensationMinimum), currency, p, weight) == Scaled(weight, 0.6)
    ensures ScoreSalary(Some((p.compensationMinimum + p.compensationPreferred) / 2.0), currency, p, weight) == Scaled(weight, 0.8)
    ensures ScoreSalary(Some(p.compensationMinimum / 2.0), currency, p, weight) == Scaled(weight, 0.3)
  {
    hide Scaled, ScoreSalary;
    SalaryOnTheLine(p.compensationMinimum, currency, p, weight, 0.6);
    SalaryOnTheLine((p.compensationMinimum + p.compensationPreferred) / 2.0, currency, p, weight, 0.8);
    SalaryOnTheLine(p.compensationMinimum / 2.0, currency, p, weight, 0.3);
  }

  /** An undisclosed salary and a candidate without a minimum earn the whole weight, another currency half of it. */
  lemma SalaryNotCompared(reference: Option<real>, currency: Option<string>, p: Preferences, weight: real)
    ensures reference.None? ==> ScoreSalary(reference, currency, p, weight) == weight
    ensures reference.Some? && !SameCurrency(currency, p) ==> ScoreSalary(reference, currency, p, weight) == Scaled(weight, 0.5)
    ensures p.compensationMinimum <= 0.0 && SameCurrency(currency, p) ==> ScoreSalary(reference, currency, p, weight) == weight
  {
    hide Scaled;
  }

  /** Raising a disclosed salary, with its currency unchanged, never lowers the overall score or the recommendation. */
  lemma HigherSalaryNoWorse(job: Job, better: Job, p: Preferences, skills: seq<string>, years: Option<real>, w: Weights, t: Thresholds)
    requires w.compensation >= 0.0 && OnGrid(w.compensation)
    requires better == job.(salaryMin := better.salaryMin, salaryMax := better.salaryMax)
    requires var before, after := SalaryReference(job.salaryMin, job.salaryMax), SalaryReference(better.salaryMin, better.salaryMax);
             before.Some? && after.Some? && before.value <= after.value
    ensures NoWorse(ScoreJob(job, p, skills, years, w, t), ScoreJob(better, p, skills, years, w, t))
  {
    hide ScoreSalary, NoWorse, ScoreJob, TitleScore, SkillScore;
    SalaryMonotone(SalaryReference(job.salaryMin, job.salaryMax).value, SalaryReference(better.salaryMin, better.salaryMax).value,
                   job.salaryCurrency, p, w.compensation);
    SumDecides(job, better, p, p, skills, skills, years, w, t);
  }

  lemma MentionsMore(text: string, few: seq<string>, more: seq<string>)
    requires forall p :: p in few ==> p in more
    ensures MentionsAny(text, few) ==> MentionsAny(text, more)
  {
  }

  /** The candidate asks for no less than before: more places, more work modes, or willingness to move. */
  predicate AtLeastAsFlexible(p: Preferences, q: Preferences) {
    && (forall x :: x in p.locationsPreferred ==> x in q.locationsPreferred)
    && (forall x :: x in p.workMode ==> x in q.workMode)
    && (p.relocationAllowed ==> q.relocationAllowed)
  }

  lemma LocationScoreMonotone(location: Option<string>, workMode: Option<string>, p: Preferences, q: Preferences, weight: real)
    requires weight >= 0.0 && OnGrid(weight) && AtLeastAsFlexible(p, q)
    ensures ScoreLocation(location, workMode, p, weight) <= ScoreLocation(location, workMode, q, weight)
  {
    hide Scaled, OnGrid, MentionsAny;
    if location.Some? { MentionsMore(location.value, p.locationsPreferred, q.locationsPreferred); }
    LocationBounded(location, workMode, p, weight);
    ScaledMonotone(weight, 0.1, 0.2);
    ScaledMonotone(weight, 0.2, 0.5);
    ScaledMonotone(weight, 0.5, 0.6);
  }

  lemma IndustryScoreMonotone(industry: Option<string>, few: seq<string>, more: seq<string>, weight: real)
    requires weight >= 0.0 && OnGrid(weight) && few != [] && forall p :: p in few ==> p in more
    ensures ScoreIndustry(industry, few, weight) <= ScoreIndustry(industry, more, weight)
  {
    hide Scaled, OnGrid, MentionsAny;
    assert few[0] in more;
    if industry.Some? { MentionsMore(industry.value, few, more); }
    ScaledWithin(weight, 0.2);
  }

  /** Broadening the preferences - more targets and industries where some were given, more places and work modes, willingness to
      move - never lowers the overall score or the recommendation of any job. */
  lemma BroaderPreferencesNoWorse(job: Job, p: Preferences, q: Preferences, skills: seq<string>, years: Option<real>, w: Weights, t: Thresholds)
    requires w.title >= 0.0 && w.industry >= 0.0 && w.location >= 0.0 && OnGrid(w.title) && OnGrid(w.industry) && OnGrid(w.location)
    requires AtLeastAsFlexible(p, q)
    requires p.targetPositions != [] && forall x :: x in p.targetPositions ==> x in q.targetPositions
    requires p.preferredIndustries != [] && forall x :: x in p.preferredIndustries ==> x in q.preferredIndustries
    requires q.compensationCurrency == p.compensationCurrency
             && q.compensationMinimum == p.compensationMinimum && q.compensationPreferred == p.compensationPreferred
    ensures NoWorse(ScoreJob(job, p, skills, years, w, t), ScoreJob(job, q, skills, years, w, t))
  {
    hide TitleScore, SkillScore, ScoreIndustry, ScoreLocation, ScoreExperience, NoWorse, ScoreJob, AtLeastAsFlexible, OnGrid, Scaled;
    TitleScoreMonotone(p.targetPositions, q.targetPositions, job.title, w.title);
    IndustryScoreMonotone(job.industry, p.preferredIndustries, q.preferredIndustries, w.industry);
    LocationScoreMonotone(job.location, job.workMode, p, q, w.location);
    SumDecides(job, job, p, q, skills, skills, years, w, t);
  }
}
