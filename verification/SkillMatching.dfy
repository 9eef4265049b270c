/** Skill aliases, the matched/missing split, and the weighted skill ratio. */
module SkillMatching {
  import opened Prelude
  import opened Text
  import opened Rounding
  import opened TitleMatching

  const ALIAS_TO_CANONICAL: map<string, string> := map[
    "aws" := "AWS", "amazon web services" := "AWS", "aws cloud" := "AWS",
    "gcp" := "GCP", "google cloud" := "GCP", "google cloud platform" := "GCP",
    "azure" := "Azure", "microsoft azure" := "Azure", "azure cloud" := "Azure",
    "kubernetes" := "Kubernetes", "k8s" := "Kubernetes",
    "machine learning" := "Machine Learning", "ml" := "Machine Learning",
    "artificial intelligence" := "Artificial Intelligence", "ai" := "Artificial Intelligence",
    "vp engineering" := "VP Engineering", "vice president engineering" := "VP Engineering",
    "vp of engineering" := "VP Engineering", "vp eng" := "VP Engineering",
    "vp technology" := "VP Technology", "vice president technology" := "VP Technology",
    "vp of technology" := "VP Technology",
    "cto" := "CTO", "chief technology officer" := "CTO", "chief technical officer" := "CTO"
  ]

  function NormalizeSkill(skill: string): string {
    var key := Collapse(Lower(Strip(skill)));
    if key in ALIAS_TO_CANONICAL then ALIAS_TO_CANONICAL[key] else Strip(skill)
  }

  /** The names under which a known skill goes; any other skill stands for itself, trimmed. */
  lemma AliasesExactly(skill: string)
    ensures var key := Collapse(Lower(Strip(skill)));
            var known := {
              "aws", "amazon web services", "aws cloud", "gcp", "google cloud", "google cloud platform", "azure", "microsoft azure",
              "azure cloud", "kubernetes", "k8s", "machine learning", "ml", "artificial intelligence", "ai", "vp engineering",
              "vice president engineering", "vp of engineering", "vp eng", "vp technology", "vice president technology",
              "vp of technology", "cto", "chief technology officer", "chief technical officer"};
            && (key in {"aws", "amazon web services", "aws cloud"} ==> NormalizeSkill(skill) == "AWS")
            && (key in {"gcp", "google cloud", "google cloud platform"} ==> NormalizeSkill(skill) == "GCP")
            && (key in {"azure", "microsoft azure", "azure cloud"} ==> NormalizeSkill(skill) == "Azure")
            && (key in {"kubernetes", "k8s"} ==> NormalizeSkill(skill) == "Kubernetes")
            && (key in {"machine learning", "ml"} ==> NormalizeSkill(skill) == "Machine Learning")
            && (key in {"artificial intelligence", "ai"} ==> NormalizeSkill(skill) == "Artificial Intelligence")
            && (key in {"vp engineering", "vice president engineering", "vp of engineering", "vp eng"} ==>
                  NormalizeSkill(skill) == "VP Engineering")
            && (key in {"vp technology", "vice president technology", "vp of technology"} ==> NormalizeSkill(skill) == "VP Technology")
            && (key in {"cto", "chief technology officer", "chief technical officer"} ==> NormalizeSkill(skill) == "CTO")
            && (key !in known ==> NormalizeSkill(skill) == Strip(skill))
  {
    hide Collapse, Lower, Strip, ALIAS_TO_CANONICAL;
    var key := Collapse(Lower(Strip(skill)));
    AmazonAliases(key);
    GoogleAliases(key);
    AzureAliases(key);
    KubernetesAliases(key);
    LearningAliases(key);
    VicePresidentAliases(key);
    OfficerAliases(key);
    if key in ALIAS_TO_CANONICAL { NoAlias(key); }
  }

  lemma AmazonAliases(key: string)
    ensures key in {"aws", "amazon web services", "aws cloud"} ==> key in ALIAS_TO_CANONICAL && ALIAS_TO_CANONICAL[key] == "AWS"
  {
  }

  lemma GoogleAliases(key: string)
    ensures key in {"gcp", "google cloud", "google cloud platform"} ==> key in ALIAS_TO_CANONICAL && ALIAS_TO_CANONICAL[key] == "GCP"
  {
  }

  lemma AzureAliases(key: string)
    ensures key in {"azure", "microsoft azure", "azure cloud"} ==> key in ALIAS_TO_CANONICAL && ALIAS_TO_CANONICAL[key] == "Azure"
  {
  }

  lemma KubernetesAliases(key: string)
    ensures key in {"kubernetes", "k8s"} ==> key in ALIAS_TO_CANONICAL && ALIAS_TO_CANONICAL[key] == "Kubernetes"
  {
  }

  lemma LearningAliases(key: string)
    ensures key in {"machine learning", "ml"} ==> key in ALIAS_TO_CANONICAL && ALIAS_TO_CANONICAL[key] == "Machine Learning"
    ensures key in {"artificial intelligence", "ai"} ==> key in ALIAS_TO_CANONICAL && ALIAS_TO_CANONICAL[key] == "Artificial Intelligence"
  {
  }

  lemma VicePresidentAliases(key: string)
    ensures key in {"vp engineering", "vice president engineering", "vp of engineering", "vp eng"} ==>
              key in ALIAS_TO_CANONICAL && ALIAS_TO_CANONICAL[key] == "VP Engineering"
  {
  }

  lemma OfficerAliases(key: string)
    ensures key in {"vp technology", "vice president technology", "vp of technology"} ==>
              key in ALIAS_TO_CANONICAL && ALIAS_TO_CANONICAL[key] == "VP Technology"
    ensures key in {"cto", "chief technology officer", "chief technical officer"} ==>
              key in ALIAS_TO_CANONICAL && ALIAS_TO_CANONICAL[key] == "CTO"
  {
  }

  lemma NoAlias(key: string)
    requires key in ALIAS_TO_CANONICAL
    ensures key in {
              "aws", "amazon web services", "aws cloud", "gcp", "google cloud", "google cloud platform", "azure", "microsoft azure",
              "azure cloud", "kubernetes", "k8s", "machine learning", "ml", "artificial intelligence", "ai", "vp engineering",
              "vice president engineering", "vp of engineering", "vp eng", "vp technology", "vice president technology",
              "vp of technology", "cto", "chief technology officer", "chief technical officer"}
  {
  }

  /** Whether the candidate lists the skill under any of its names. */
  predicate Has(candidate: seq<string>, skill: string) {
    exists s :: s in candidate && NormalizeSkill(s) == NormalizeSkill(skill)
  }

  /** Share of the listed skills that are held; a job listing none asks for none. */
  function Ratio(candidate: seq<string>, listed: seq<string>): real {
    if listed == [] then 1.0 else Count(listed, s => Has(candidate, s)) as real / |listed| as real
  }

  /** Required skills matter more than preferred ones. */
  function Combined(requiredRatio: real, preferredRatio: real): real {
    0.7 * requiredRatio + 0.3 * preferredRatio
  }

  function SkillScore(candidate: seq<string>, required: seq<string>, preferred: seq<string>, weight: real): real {
    if required == [] && preferred == [] then Round2(weight)
    else Scaled(weight, Combined(Ratio(candidate, required), Ratio(candidate, preferred)))
  }

  datatype SkillMatch = SkillMatch(
    matchedRequired: seq<string>,
    missingRequired: seq<string>,
    matchedPreferred: seq<string>,
    missingPreferred: seq<string>,
    score: real)

  method Split(normalized: set<string>, listed: seq<string>, ghost candidate: seq<string>)
    returns (matched: seq<string>, missing: seq<string>)
    requires normalized == set s | s in candidate :: NormalizeSkill(s)
    ensures matched == Filter(listed, s => Has(candidate, s))
    ensures missing == Filter(listed, s => !Has(candidate, s))
    ensures multiset(matched) + multiset(missing) == multiset(listed)
    ensures |matched| + |missing| == |listed|
  {
    matched, missing := [], [];
    for i := 0 to |listed|
      invariant matched == Filter(listed[..i], s => Has(candidate, s))
      invariant missing == Filter(listed[..i], s => !Has(candidate, s))
    {
      FilterStep(listed, i, s => Has(candidate, s));
      FilterStep(listed, i, s => !Has(candidate, s));
      if NormalizeSkill(listed[i]) in normalized {
        matched := matched + [listed[i]];
      } else {
        missing := missing + [listed[i]];
      }
    }
    assert listed[..|listed|] == listed;
    FilterSplits(listed, s => Has(candidate, s), s => !Has(candidate, s));
  }

  method MatchSkills(candidate: seq<string>, required: seq<string>, preferred: seq<string>, weight: real)
    returns (r: SkillMatch)
    ensures r.matchedRequired == Filter(required, s => Has(candidate, s))
    ensures r.missingRequired == Filter(required, s => !Has(candidate, s))
    ensures r.matchedPreferred == Filter(preferred, s => Has(candidate, s))
    ensures r.missingPreferred == Filter(preferred, s => !Has(candidate, s))
    ensures multiset(r.matchedRequired) + multiset(r.missingRequired) == multiset(required)
    ensures multiset(r.matchedPreferred) + multiset(r.missingPreferred) == multiset(preferred)
    ensures r.score == SkillScore(candidate, required, preferred, weight)
  {
    var normalized := set s | s in candidate :: NormalizeSkill(s);
    var matchedRequired, missingRequired := Split(normalized, required, candidate);
    var matchedPreferred, missingPreferred := Split(normalized, preferred, candidate);
    var score := Round2(weight);
    if required != [] || preferred != [] {
      var requiredRatio := if required != [] then |matchedRequired| as real / |required| as real else 1.0;
      var preferredRatio := if preferred != [] then |matchedPreferred| as real / |preferred| as real else 1.0;
      score := Scaled(weight, Combined(requiredRatio, preferredRatio));
    }
    r := SkillMatch(matchedRequired, missingRequired, matchedPreferred, missingPreferred, score);
  }

  /** The score weighs the share of required skills held at 0.7 and that of preferred ones at 0.3, a list that is empty counting as
      held; with both empty the whole weight counts. */
  lemma SkillScoreExactly(candidate: seq<string>, required: seq<string>, preferred: seq<string>, weight: real, r: real, p: real)
    requires required == [] ==> r == 1.0
    requires preferred == [] ==> p == 1.0
    requires required != [] ==>
               r * |required| as real
               == |Filter(required, s => exists c :: c in candidate && NormalizeSkill(c) == NormalizeSkill(s))| as real
    requires preferred != [] ==>
               p * |preferred| as real
               == |Filter(preferred, s => exists c :: c in candidate && NormalizeSkill(c) == NormalizeSkill(s))| as real
    ensures SkillScore(candidate, required, preferred, weight) == Scaled(weight, 0.7 * r + 0.3 * p)
  {
    hide NormalizeSkill, Round2, Scaled, Ratio;
    RatioIs(candidate, required, r);
    RatioIs(candidate, preferred, p);
    ScaledEnds(weight);
  }

  lemma RatioIs(candidate: seq<string>, listed: seq<string>, r: real)
    requires listed == [] ==> r == 1.0
    requires listed != [] ==>
               r * |listed| as real == |Filter(listed, s => exists c :: c in candidate && NormalizeSkill(c) == NormalizeSkill(s))| as real
    ensures Ratio(candidate, listed) == r
  {
    hide NormalizeSkill;
    if listed != [] {
      FilterSame(listed, s => exists c :: c in candidate && NormalizeSkill(c) == NormalizeSkill(s), s => Has(candidate, s));
      SameQuotient(Count(listed, s => Has(candidate, s)), |listed|, r);
    }
  }

  lemma SameQuotient(m: nat, n: nat, r: real)
    requires n > 0 && r * n as real == m as real
    ensures m as real / n as real == r
  {
  }

  lemma RatioBounded(candidate: seq<string>, listed: seq<string>)
    ensures 0.0 <= Ratio(candidate, listed) <= 1.0
  {
    if listed != [] {
      CountMonotone(listed, s => Has(candidate, s), s => Has(candidate, s));
      DivideBounds(Count(listed, s => Has(candidate, s)), |listed|);
    }
  }

  lemma QuotientMonotone(a: nat, b: nat, n: nat)
    requires a <= b && n > 0
    ensures a as real / n as real <= b as real / n as real
  {
  }

  lemma RatioMonotone(few: seq<string>, more: seq<string>, listed: seq<string>)
    requires forall s :: s in few ==> s in more
    ensures Ratio(few, listed) <= Ratio(more, listed)
  {
    if listed != [] {
      CountMonotone(listed, s => Has(few, s), s => Has(more, s));
      QuotientMonotone(Count(listed, s => Has(few, s)), Count(listed, s => Has(more, s)), |listed|);
    }
  }

  /** Holding more skills never lowers the skill score; no condition on the weight's decimals is needed. */
  lemma SkillScoreMonotone(few: seq<string>, more: seq<string>, required: seq<string>, preferred: seq<string>, weight: real)
    requires weight >= 0.0 && forall s :: s in few ==> s in more
    ensures SkillScore(few, required, preferred, weight) <= SkillScore(more, required, preferred, weight)
  {
    hide NormalizeSkill, Scaled, Ratio;
    RatioMonotone(few, more, required);
    RatioMonotone(few, more, preferred);
    ScaledMonotone(weight,
                   Combined(Ratio(few, required), Ratio(few, preferred)),
                   Combined(Ratio(more, required), Ratio(more, preferred)));
  }

  /** The highest skill score is the rounded weight. */
  lemma SkillScoreWithin(candidate: seq<string>, required: seq<string>, preferred: seq<string>, weight: real)
    requires weight >= 0.0
    ensures 0.0 <= SkillScore(candidate, required, preferred, weight) <= Round2(weight)
  {
    hide NormalizeSkill, Scaled, Ratio;
    RatioBounded(candidate, required);
    RatioBounded(candidate, preferred);
    var ratio := Combined(Ratio(candidate, required), Ratio(candidate, preferred));
    ScaledMonotone(weight, 0.0, ratio);
    ScaledMonotone(weight, ratio, 1.0);
    ScaledMonotone(weight, 0.0, 1.0);
    ScaledEnds(weight);
  }

  lemma ScaledEnds(weight: real)
    ensures Scaled(weight, 0.0) == 0.0 && Scaled(weight, 1.0) == Round2(weight)
  {
    assert weight * 1.0 == weight && weight * 0.0 == 0.0;
  }

  /** Required skills matter more: of two candidates with the same two ratios, the one whose larger ratio is on the required side
      never scores lower. */
  lemma RequiredMatterMore(a: seq<string>, b: seq<string>, required: seq<string>, preferred: seq<string>, weight: real)
    requires weight >= 0.0 && required != []
    requires Ratio(a, required) == Ratio(b, preferred) && Ratio(a, preferred) == Ratio(b, required)
    requires Ratio(a, required) >= Ratio(a, preferred)
    ensures SkillScore(a, required, preferred, weight) >= SkillScore(b, required, preferred, weight)
  {
    hide NormalizeSkill, Scaled, Ratio;
    ScaledMonotone(weight,
                   Combined(Ratio(b, required), Ratio(b, preferred)),
                   Combined(Ratio(a, required), Ratio(a, preferred)));
  }

  /** The skill score stays within its weight for every candidate and job exactly when rounding does not raise the weight. */
  lemma SkillScoreBoundExact(weight: real)
    ensures (forall candidate, required, preferred :: 0.0 <= SkillScore(candidate, required, preferred, weight) <= weight)
            <==> 0.0 <= weight && Round2(weight) <= weight
  {
    if 0.0 <= weight && Round2(weight) <= weight {
      forall candidate, required, preferred
        ensures 0.0 <= SkillScore(candidate, required, preferred, weight) <= weight
      {
        SkillScoreWithin(candidate, required, preferred, weight);
      }
    } else {
      assert SkillScore([], [], [], weight) == Round2(weight);
    }
  }
}
