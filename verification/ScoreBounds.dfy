/** How high each signal and the overall score can get, and the exact weights for which that stays within the weight. */
module ScoreBounds {
  import opened Prelude
  import opened Text
  import opened Rounding
  import opened Domain
  import opened TitleMatching
  import opened SkillMatching
  import opened Scoring

  // --- the highest value of each signal ---

  function TitleTop(weight: real): real {
    Max(weight, Round2(weight))
  }

  /** The experience ratio stays below one, so only a part above one half lets rounding raise it to the weight's own rounding. */
  function ExperienceTop(weight: real): real {
    if Fraction(weight) > 0.5 then Round2(weight) else weight
  }

  function IndustryTop(weight: real): real {
    Max(weight, Scaled(weight, 0.7))
  }

  function LocationTop(weight: real): real {
    Max(weight, Scaled(weight, 0.6))
  }

  function SalaryTop(weight: real): real {
    Max(weight, Round2(weight))
  }

  /** What a weight exceeds its whole hundredths by, in hundredths. */
  function Fraction(weight: real): real {
    weight * 100.0 - (weight * 100.0).Floor as real
  }

  lemma ShareWithin(weight: real, ratio: real)
    requires weight >= 0.0 && 0.0 <= ratio <= 1.0
    ensures 0.0 <= Scaled(weight, ratio) <= Round2(weight)
  {
    ScaledEnds(weight);
    ScaledMonotone(weight, 0.0, ratio);
    ScaledMonotone(weight, ratio, 1.0);
  }

  lemma TitleWithin(targets: seq<string>, title: string, weight: real)
    requires weight >= 0.0
    ensures 0.0 <= TitleScore(targets, title, weight) <= TitleTop(weight)
  {
    hide TitleFamily, TokenOverlapRatio, Scaled, Round2;
    BestRatioIsMaximum(targets, title);
    ShareWithin(weight, BestRatio(targets, title));
  }

  lemma IndustryWithin(industry: Option<string>, preferred: seq<string>, weight: real)
    requires weight >= 0.0
    ensures 0.0 <= ScoreIndustry(industry, preferred, weight) <= IndustryTop(weight)
  {
    hide Scaled, MentionsAny;
    ShareWithin(weight, 0.7);
    ShareWithin(weight, 0.2);
    ScaledMonotone(weight, 0.2, 0.7);
  }

  lemma LocationWithin(location: Option<string>, workMode: Option<string>, p: Preferences, weight: real)
    requires weight >= 0.0
    ensures 0.0 <= ScoreLocation(location, workMode, p, weight) <= LocationTop(weight)
  {
    hide Scaled, LocationMatches;
    ShareWithin(weight, 0.1);
    ScaledMonotone(weight, 0.1, 0.2);
    ScaledMonotone(weight, 0.2, 0.5);
    ScaledMonotone(weight, 0.5, 0.6);
  }

  lemma SalaryWithin(reference: Option<real>, currency: Option<string>, p: Preferences, weight: real)
    requires weight >= 0.0
    ensures 0.0 <= ScoreSalary(reference, currency, p, weight) <= SalaryTop(weight)
  {
    hide Scaled, Round2, SalaryPosition;
    ShareWithin(weight, 0.5);
    if reference.Some? && p.compensationMinimum > 0.0 {
      if reference.value >= p.compensationMinimum {
        PositionBounded(reference.value, p.compensationMinimum, p.compensationPreferred);
        ShareWithin(weight, 0.6 + 0.4 * Min(SalaryPosition(reference.value, p.compensationMinimum, p.compensationPreferred), 1.0));
      } else {
        ShareBelow(reference.value, p.compensationMinimum);
        ShareWithin(weight, Max(reference.value / p.compensationMinimum, 0.0) * 0.6);
      }
    }
  }

  /** A proper share of a weight. */
  lemma ProperShareWithin(weight: real, ratio: real)
    requires weight >= 0.0 && 0.0 <= ratio < 1.0
    ensures 0.0 <= Scaled(weight, ratio) <= ExperienceTop(weight)
  {
    ShareWithin(weight, ratio);
    if Fraction(weight) <= 0.5 {
      var share := weight * ratio;
      ProperProduct(weight, ratio, share);
      RoundsNoHigher(share, weight);
    }
  }

  lemma ProperProduct(weight: real, ratio: real, share: real)
    requires weight >= 0.0 && 0.0 <= ratio < 1.0 && share == weight * ratio
    ensures share < weight || share == weight == 0.0
  {
    if weight > 0.0 {
      assert (1.0 - ratio) * weight > 0.0;
    }
  }

  lemma RoundsNoHigher(x: real, weight: real)
    requires Fraction(weight) <= 0.5 && (x < weight || x == weight == 0.0)
    ensures Round2(x) <= weight
  {
    var y, z := weight * 100.0, x * 100.0;
    assert z.Floor <= y.Floor;
    assert RoundHalfEven(z) <= y.Floor;
  }

  lemma ExperienceWithin(years: Option<real>, minimum: Option<real>, maximum: Option<real>, weight: real)
    requires weight >= 0.0
    ensures 0.0 <= ScoreExperience(years, minimum, maximum, weight) <= ExperienceTop(weight)
  {
    hide Scaled, ExperienceTop;
    ProperShareWithin(weight, 0.0);
    ProperShareWithin(weight, 0.5);
    ProperShareWithin(weight, 0.8);
    ExperienceTopCoversWeight(weight);
    if minimum.Some? && years.Some? && years.value < minimum.value && minimum.value > 0.0 {
      ShareBelow(years.value, minimum.value);
      ProperShareWithin(weight, Max(years.value / minimum.value, 0.0));
    }
  }

  lemma ExperienceTopCoversWeight(weight: real)
    ensures weight <= ExperienceTop(weight)
    ensures ExperienceTop(weight) <= weight <==> Fraction(weight) <= 0.5
  {
    var y := weight * 100.0;
    if Fraction(weight) > 0.5 {
      assert RoundHalfEven(y) == y.Floor + 1;
      assert (y.Floor + 1) as real > y;
    }
  }

  /** Just under the weight, its own rounding is reached. */
  function NearRatio(weight: real): real
    requires weight > 0.0
  {
    (weight * 100.0 - (Fraction(weight) - 0.5) / 2.0) / (weight * 100.0)
  }

  lemma NearRatioReaches(weight: real)
    requires weight > 0.0 && Fraction(weight) > 0.5
    ensures 0.0 < NearRatio(weight) < 1.0 && Scaled(weight, NearRatio(weight)) == Round2(weight)
  {
    var y, below := weight * 100.0, (weight * 100.0).Floor;
    var z := y - (Fraction(weight) - 0.5) / 2.0;
    assert below as real + 0.5 < z < y;
    QuotientOf(z, y);
    assert weight * NearRatio(weight) * 100.0 == z by { Recompose(weight, NearRatio(weight), z); }
    hide NearRatio, Fraction;
    RoundsUp(z, y, below);
  }

  lemma RoundsUp(z: real, y: real, below: int)
    requires below as real + 0.5 < z < y < (below + 1) as real
    ensures RoundHalfEven(z) == RoundHalfEven(y) == below + 1
  {
  }

  lemma QuotientOf(z: real, y: real)
    requires 0.0 < z < y
    ensures 0.0 < z / y < 1.0 && y * (z / y) == z
  {
    var q := z / y;
    assert q * y == z;
    assert (1.0 - q) * y == y - z;
    PositiveFactor(1.0 - q, y);
  }

  lemma PositiveFactor(a: real, b: real)
    requires b > 0.0 && a * b > 0.0
    ensures a > 0.0
  {
  }

  lemma Recompose(weight: real, ratio: real, z: real)
    requires weight * 100.0 * ratio == z
    ensures weight * ratio * 100.0 == z
  {
  }

  // --- a job and preferences that reach every highest value at once ---

  function BestJob(w: Weights): Job {
    Job("1", "mock", "u", "x", "c", None, Some(if Scaled(w.location, 0.6) > w.location then "onsite" else "remote"),
        None, if Round2(w.compensation) > w.compensation then Some(1.0) else None, None, "", [], [],
        if Fraction(w.experience) > 0.5 then Some(1.0) else None, None, None)
  }

  function BestPreferences(w: Weights): Preferences {
    Preferences(if Round2(w.title) > w.title then ["x"] else [], if Scaled(w.industry, 0.7) > w.industry then ["x"] else [],
                [], [], [], [], true, ["remote", "onsite"], None, "USD", 1.0, 0.0, [], [], 75, 30)
  }

  function BestYears(w: Weights): Option<real> {
    if w.experience > 0.0 then Some(NearRatio(w.experience)) else None
  }

  predicate NonNegative(w: Weights) {
    && w.title >= 0.0 && w.skills >= 0.0 && w.experience >= 0.0
    && w.industry >= 0.0 && w.location >= 0.0 && w.compensation >= 0.0
  }

  /** The highest value of each signal. */
  function Tops(w: Weights): Breakdown {
    Breakdown(TitleTop(w.title), Round2(w.skills), ExperienceTop(w.experience), IndustryTop(w.industry), LocationTop(w.location),
              SalaryTop(w.compensation))
  }

  lemma BestTitle(weight: real)
    ensures TitleScore(["x"], "x", weight) == Round2(weight)
  {
    OneWord();
    assert BestRatio(["x"][..0], "x") == 0.0;
    assert BestRatio(["x"], "x") == 1.0;
    ScaledEnds(weight);
  }

  lemma OneWord()
    ensures TokenOverlapRatio("x", "x") == 1.0 && TitleFamily("x") == None
  {
    TokenOfX();
    NoFamilyOfX();
    hide Tokenize, TitleFamily;
  }

  lemma TokenOfX()
    ensures "x" in Tokenize("x")
  {
    hide TokenOverlapRatio, TitleFamily;
    assert Lower("x") == "x";
    assert "x"[1..] == [] && [] + ['x'] == ['x'];
    assert Runs([], ['x']) == {['x']};
    assert Runs("x", []) == {['x']};
  }

  lemma NoFamilyOfX()
    ensures TitleFamily("x") == None
  {
    hide Tokenize, TokenOverlapRatio;
    assert Strip("x") == "x" && Lower("x") == "x";
    assert forall key :: key in TITLE_TO_FAMILY ==> |key| >= 3;
  }

  lemma BestExperience(w: Weights)
    requires w.experience >= 0.0
    ensures ScoreExperience(BestYears(w), BestJob(w).minimumExperience, None, w.experience) == ExperienceTop(w.experience)
  {
    hide Scaled, NearRatio;
    if Fraction(w.experience) > 0.5 {
      NearRatioReaches(w.experience);
      assert NearRatio(w.experience) / 1.0 == NearRatio(w.experience);
    }
  }

  lemma BestSalary(w: Weights)
    ensures ScoreSalary(BestJob(w).salaryMax, None, BestPreferences(w), w.compensation) == SalaryTop(w.compensation)
  {
    hide Scaled, Round2;
    ScaledEnds(w.compensation);
    assert 0.6 + 0.4 * Min(1.0, 1.0) == 1.0;
  }

  lemma BestIndustry(w: Weights)
    ensures ScoreIndustry(None, BestPreferences(w).preferredIndustries, w.industry) == IndustryTop(w.industry)
  {
    hide Scaled, Round2;
  }

  lemma BestLocation(w: Weights)
    ensures ScoreLocation(None, BestJob(w).workMode, BestPreferences(w), w.location) == LocationTop(w.location)
  {
    hide Scaled, Round2;
    assert "remote" != "onsite" by { assert "remote"[0] != "onsite"[0]; }
    assert BestPreferences(w).workMode[0] == "remote" && BestPreferences(w).workMode[1] == "onsite";
  }

  lemma BestParts(w: Weights)
    ensures var job, p := BestJob(w), BestPreferences(w);
            && job.title == "x" && p.targetPositions == (if Round2(w.title) > w.title then ["x"] else [])
            && job.requiredSkills == [] && job.preferredSkills == [] && job.maximumExperience == None && job.industry == None
            && job.location == None && SalaryReference(job.salaryMin, job.salaryMax) == job.salaryMax && job.salaryCurrency == None
  {
  }

  lemma BestAttains(w: Weights)
    requires NonNegative(w)
    ensures ScoreBreakdown(BestJob(w), BestPreferences(w), [], BestYears(w), w) == Tops(w)
  {
    BestParts(w);
    hide BestJob, BestPreferences, BestYears, Round2, Scaled, ScoreExperience, ScoreIndustry, ScoreLocation, ScoreSalary, ExperienceTop,
         IndustryTop, LocationTop, SalaryTop, SalaryReference;
    BestTitle(w.title);
    BestExperience(w);
    BestSalary(w);
    BestIndustry(w);
    BestLocation(w);
  }

  // --- bounds for one signal ---

  function Same(weight: real): Weights {
    Weights(weight, weight, weight, weight, weight, weight)
  }

  lemma TitleBoundExact(weight: real)
    ensures (forall targets, title :: 0.0 <= TitleScore(targets, title, weight) <= weight)
            <==> 0.0 <= weight && Round2(weight) <= weight
  {
    hide TitleScore, Round2;
    BestTitle(weight);
    if 0.0 <= weight && Round2(weight) <= weight {
      forall targets, title ensures 0.0 <= TitleScore(targets, title, weight) <= weight {
        TitleWithin(targets, title, weight);
      }
    }
  }

  lemma ExperienceBoundExact(weight: real)
    ensures (forall years, minimum, maximum :: 0.0 <= ScoreExperience(years, minimum, maximum, weight) <= weight)
            <==> 0.0 <= weight && Fraction(weight) <= 0.5
  {
    hide ScoreExperience, ExperienceTop, Fraction;
    ExperienceTopCoversWeight(weight);
    if 0.0 <= weight {
      BestExperience(Same(weight));
      forall years, minimum, maximum
        ensures 0.0 <= ScoreExperience(years, minimum, maximum, weight) <= ExperienceTop(weight)
      {
        ExperienceWithin(years, minimum, maximum, weight);
      }
    } else {
      assert !(0.0 <= ScoreExperience(None, None, None, weight) <= weight);
    }
  }

  lemma IndustryBoundExact(weight: real)
    ensures (forall industry, preferred :: 0.0 <= ScoreIndustry(industry, preferred, weight) <= weight)
            <==> 0.0 <= weight && Scaled(weight, 0.7) <= weight
  {
    hide ScoreIndustry, Scaled;
    BestIndustry(Same(weight));
    if 0.0 <= weight {
      forall industry, preferred ensures 0.0 <= ScoreIndustry(industry, preferred, weight) <= IndustryTop(weight) {
        IndustryWithin(industry, preferred, weight);
      }
    }
  }

  lemma LocationBoundExact(weight: real)
    ensures (forall location, workMode, p :: 0.0 <= ScoreLocation(location, workMode, p, weight) <= weight)
            <==> 0.0 <= weight && Scaled(weight, 0.6) <= weight
  {
    hide ScoreLocation, Scaled;
    BestLocation(Same(weight));
    if 0.0 <= weight {
      forall location, workMode, p ensures 0.0 <= ScoreLocation(location, workMode, p, weight) <= LocationTop(weight) {
        LocationWithin(location, workMode, p, weight);
      }
    }
  }

  lemma SalaryBoundExact(weight: real)
    ensures (forall reference, currency, p :: 0.0 <= ScoreSalary(reference, currency, p, weight) <= weight)
            <==> 0.0 <= weight && Round2(weight) <= weight
  {
    hide ScoreSalary, Round2;
    BestSalary(Same(weight));
    if 0.0 <= weight {
      forall reference, currency, p ensures 0.0 <= ScoreSalary(reference, currency, p, weight) <= SalaryTop(weight) {
        SalaryWithin(reference, currency, p, weight);
      }
    }
  }

  // --- bounds for all six and for the overall score ---

  ghost predicate Between(b: Breakdown, tops: Breakdown) {
    && 0.0 <= b.title <= tops.title && 0.0 <= b.skills <= tops.skills && 0.0 <= b.experience <= tops.experience
    && 0.0 <= b.industry <= tops.industry && 0.0 <= b.location <= tops.location && 0.0 <= b.compensation <= tops.compensation
  }

  /** Every sub-score lies between zero and its highest value. */
  lemma BreakdownBounded(job: Job, p: Preferences, skills: seq<string>, years: Option<real>, w: Weights)
    requires NonNegative(w)
    ensures Between(ScoreBreakdown(job, p, skills, years, w), Tops(w))
  {
    hide TitleScore, SkillScore, ScoreExperience, ScoreIndustry, ScoreLocation, ScoreSalary, Round2,
         TitleTop, ExperienceTop, IndustryTop, LocationTop, SalaryTop;
    TitleWithin(p.targetPositions, job.title, w.title);
    SkillScoreWithin(skills, job.requiredSkills, job.preferredSkills, w.skills);
    ExperienceWithin(years, job.minimumExperience, job.maximumExperience, w.experience);
    IndustryWithin(job.industry, p.preferredIndustries, w.industry);
    LocationWithin(job.location, job.workMode, p, w.location);
    SalaryWithin(SalaryReference(job.salaryMin, job.salaryMax), job.salaryCurrency, p, w.compensation);
  }

  /** The weights as a breakdown: what each signal should not exceed. */
  function AsBreakdown(w: Weights): Breakdown {
    Breakdown(w.title, w.skills, w.experience, w.industry, w.location, w.compensation)
  }

  /** Rounding raises no signal above its weight. */
  predicate RoundingHarmless(w: Weights) {
    && Round2(w.title) <= w.title && Round2(w.skills) <= w.skills && Fraction(w.experience) <= 0.5
    && Scaled(w.industry, 0.7) <= w.industry && Scaled(w.location, 0.6) <= w.location && Round2(w.compensation) <= w.compensation
  }

  lemma HarmlessTops(w: Weights)
    requires NonNegative(w)
    ensures RoundingHarmless(w) <==> Between(Tops(w), AsBreakdown(w))
  {
    hide Round2, Scaled, Fraction, ExperienceTop;
    ExperienceTopCoversWeight(w.experience);
    BreakdownBounded(BestJob(w), BestPreferences(w), [], BestYears(w), w);
    BestAttains(w);
  }

  /** No sub-score of any job and candidate leaves its weight. */
  ghost predicate BreakdownsWithin(w: Weights) {
    forall job: Job, p: Preferences, skills: seq<string>, years: Option<real> ::
      Between(ScoreBreakdown(job, p, skills, years, w), AsBreakdown(w))
  }

  /** Every sub-score stays between zero and its weight, for every job and candidate, exactly when no weight is negative and rounding
      raises none: the rounded weight for titles, skills and salaries, its share 0.7 for industries and 0.6 for locations, and a part
      above half a hundredth for experience, whose ratio never reaches one. */
  lemma BreakdownBoundExact(w: Weights)
    ensures BreakdownsWithin(w) <==> NonNegative(w) && RoundingHarmless(w)
  {
    hide ScoreBreakdown, Tops, RoundingHarmless;
    if NonNegative(w) && RoundingHarmless(w) {
      HarmlessTops(w);
      forall job: Job, p: Preferences, skills: seq<string>, years: Option<real>
        ensures Between(ScoreBreakdown(job, p, skills, years, w), AsBreakdown(w))
      {
        BreakdownBounded(job, p, skills, years, w);
      }
    }
    if BreakdownsWithin(w) {
      assert Between(ScoreBreakdown(BestJob(w), BestPreferences(w), [], BestYears(w), w), AsBreakdown(w));
      assert NonNegative(w);
      BestAttains(w);
      HarmlessTops(w);
    }
  }

  /** Whole hundredths are never raised. */
  lemma GridHarmless(w: Weights)
    requires OnGrid(w.title) && OnGrid(w.skills) && OnGrid(w.experience)
             && OnGrid(w.industry) && OnGrid(w.location) && OnGrid(w.compensation)
    requires NonNegative(w)
    ensures RoundingHarmless(w)
  {
    hide Round2, Scaled;
    Round2Fixed(w.title);
    Round2Fixed(w.skills);
    Round2Fixed(w.compensation);
    ScaledWithin(w.industry, 0.7);
    ScaledWithin(w.location, 0.6);
  }

  /** The reported score is always a whole number of hundredths, and at most the rounded sum of the highest values. */
  lemma OverallScoreBounded(job: Job, p: Preferences, skills: seq<string>, years: Option<real>, w: Weights, t: Thresholds)
    ensures OnGrid(ScoreJob(job, p, skills, years, w, t).overallScore)
    ensures NonNegative(w) ==> 0.0 <= ScoreJob(job, p, skills, years, w, t).overallScore <= Round2(Sum(Tops(w)))
  {
    hide ScoreBreakdown, OnGrid, Round2, Tops;
    var sum := Sum(ScoreBreakdown(job, p, skills, years, w));
    Round2Nearest(sum, 0);
    if NonNegative(w) {
      BreakdownBounded(job, p, skills, years, w);
      Round2Monotone(0.0, sum);
      Round2Monotone(sum, Sum(Tops(w)));
      HundredthsOnGrid(0);
      Round2Fixed(0.0);
    }
  }

  ghost predicate OverallWithin(w: Weights, t: Thresholds) {
    forall job: Job, p: Preferences, skills: seq<string>, years: Option<real> ::
      0.0 <= ScoreJob(job, p, skills, years, w, t).overallScore <= Total(w)
  }

  /** For non-negative weights the reported score never exceeds their sum exactly when the six highest values, added and rounded,
      do not. */
  lemma OverallBoundExact(w: Weights, t: Thresholds)
    requires NonNegative(w)
    ensures OverallWithin(w, t) <==> Round2(Sum(Tops(w))) <= Total(w)
  {
    hide ScoreBreakdown, Tops, Round2, Sum, Total;
    if Round2(Sum(Tops(w))) <= Total(w) {
      forall job: Job, p: Preferences, skills: seq<string>, years: Option<real>
        ensures 0.0 <= ScoreJob(job, p, skills, years, w, t).overallScore <= Total(w)
      {
        OverallScoreBounded(job, p, skills, years, w, t);
      }
    }
    if OverallWithin(w, t) {
      BestAttains(w);
      assert ScoreJob(BestJob(w), BestPreferences(w), [], BestYears(w), w, t).overallScore == Round2(Sum(Tops(w)));
    }
  }

  /** In particular it never does for weights that are whole hundredths. */
  lemma GridOverallWithin(w: Weights, t: Thresholds)
    requires OnGrid(w.title) && OnGrid(w.skills) && OnGrid(w.experience)
             && OnGrid(w.industry) && OnGrid(w.location) && OnGrid(w.compensation)
    requires NonNegative(w)
    ensures OverallWithin(w, t)
  {
    hide OnGrid, Round2, Tops, RoundingHarmless, OverallWithin;
    GridHarmless(w);
    HarmlessTops(w);
    Round2Monotone(Sum(Tops(w)), Total(w));
    TotalOnGrid(w);
    Round2Fixed(Total(w));
    OverallBoundExact(w, t);
  }

  lemma TotalOnGrid(w: Weights)
    requires OnGrid(w.title) && OnGrid(w.skills) && OnGrid(w.experience)
             && OnGrid(w.industry) && OnGrid(w.location) && OnGrid(w.compensation)
    ensures OnGrid(Total(w))
  {
    hide OnGrid;
    GridSum(w.title, w.skills);
    GridSum(w.title + w.skills, w.experience);
    GridSum(w.title + w.skills + w.experience, w.industry);
    GridSum(w.title + w.skills + w.experience + w.industry, w.location);
    GridSum(w.title + w.skills + w.experience + w.industry + w.location, w.compensation);
  }
}
