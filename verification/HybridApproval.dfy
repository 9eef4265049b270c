/** What a hybrid auto-approval guarantees about the field mappings, and what it does not. */
module HybridApproval {
  import opened Prelude
  import opened Domain
  import opened FormMapping
  import opened ApplyGraph
  import opened ApplyOutcomes

  function ZeroConfidence(mappings: seq<FieldMapping>): nat {
    Count(mappings, (m: FieldMapping) => m.confidence == 0.0)
  }

  lemma {:induction false} SumLeavesOutZeros(mappings: seq<FieldMapping>)
    ensures 0.0 <= ConfidenceSum(mappings) <= (|mappings| - ZeroConfidence(mappings)) as real
    ensures ZeroConfidence(mappings) <= |mappings|
  {
    if mappings != [] {
      SumLeavesOutZeros(mappings[..|mappings| - 1]);
    }
  }

  /** `x` added up `n` times. */
  function Times(x: real, n: nat): real {
    x * n as real
  }

  lemma TimesStep(x: real, n: nat)
    ensures Times(x, 0) == 0.0 && Times(x, n + 1) == Times(x, n) + x
  {
    assert x * (n + 1) as real == x * n as real + x;
  }

  lemma AverageBound(sum: real, n: nat, bar: real)
    requires n > 0
    ensures sum / n as real >= bar <==> sum >= Times(bar, n)
  {
    var q := sum / n as real;
    assert q * n as real == sum;
    if q >= bar {
      assert q * n as real >= bar * n as real;
    } else {
      assert q * n as real < bar * n as real;
    }
  }

  /** Hybrid mode approves exactly with a known score at its bar, some mapping, none still open, and an average confidence at its bar. */
  lemma HybridExactly(env: Env, mappings: seq<FieldMapping>)
    ensures HybridAutoApproves(env, mappings) <==>
            && env.matchScore.Some? && env.matchScore.value >= env.approval.hybridMinScore
            && mappings != []
            && (forall m :: m in mappings ==> !m.requiresHuman)
            && ConfidenceSum(mappings) >= Times(env.approval.hybridMinConfidence, |mappings|)
  {
    hide ConfidenceSum, Times;
    if mappings != [] { AverageBound(ConfidenceSum(mappings), |mappings|, env.approval.hybridMinConfidence); }
    var test := (m: FieldMapping) => m.requiresHuman;
    forall m ensures m in NeedHuman(mappings) <==> m in mappings && m.requiresHuman {
      FilterMember(mappings, test, m);
    }
    if NeedHuman(mappings) != [] { assert NeedHuman(mappings)[0] in NeedHuman(mappings); }
  }

  /** The sum of confidences: none for no mapping, one mapping's own, and added up over lists. */
  lemma {:induction false} SumExactly(a: seq<FieldMapping>, b: seq<FieldMapping>, m: FieldMapping)
    ensures ConfidenceSum([]) == 0.0 && ConfidenceSum([m]) == m.confidence
    ensures ConfidenceSum(a + b) == ConfidenceSum(a) + ConfidenceSum(b)
  {
    assert [m][..0] == [];
    if b == [] {
      assert a + b == a;
    } else {
      var n := |b| - 1;
      assert (a + b)[..|a + b| - 1] == a + b[..n];
      SumExactly(a, b[..n], m);
    }
  }

  /** A hybrid auto-approval implies a known score at the bar and no open field. Because an answered field keeps the
      confidence it had, zero-confidence mappings are possible, but at most a `1 - bar` share of them. */
  lemma HybridImplies(env: Env, mappings: seq<FieldMapping>)
    requires HybridAutoApproves(env, mappings)
    ensures env.matchScore.Some? && env.matchScore.value >= env.approval.hybridMinScore
    ensures forall m :: m in mappings ==> !m.requiresHuman
    ensures ZeroConfidence(mappings) as real <= (1.0 - env.approval.hybridMinConfidence) * |mappings| as real
  {
    forall m | m in mappings ensures !m.requiresHuman {
      FilterMember(mappings, (m: FieldMapping) => m.requiresHuman, m);
    }
    SumLeavesOutZeros(mappings);
    var bar, n := env.approval.hybridMinConfidence, |mappings|;
    AverageBound(ConfidenceSum(mappings), n, bar);
    assert (1.0 - bar) * n as real == n as real - bar * n as real;
  }

  /** Every automatically filled value of an auto-approved form is at or above the bar, as the configuration file describes it. */
  ghost predicate EveryFieldClears(env: Env, mappings: seq<FieldMapping>) {
    HybridAutoApproves(env, mappings) ==>
      forall m :: m in mappings && m.source == FromProfile ==> m.confidence >= env.approval.hybridMinConfidence
  }

  /** The described rule holds in every application under a configuration, for every profile the schema admits. */
  ghost predicate DocumentedBarHolds(threshold: real, bar: real) {
    forall env: Env, answers: seq<Answer> {:trigger FinalMappings(env, answers)} ::
      env.threshold == threshold && env.approval.hybridMinConfidence == bar ==> EveryFieldClears(env, FinalMappings(env, answers))
  }

  /** The same for every profile the program makes. */
  ghost predicate DocumentedBarHoldsInPractice(threshold: real, bar: real) {
    forall env: Env, answers: seq<Answer> {:trigger FinalMappings(env, answers)} ::
      env.threshold == threshold && env.approval.hybridMinConfidence == bar && Produced(env.profile) ==>
      EveryFieldClears(env, FinalMappings(env, answers))
  }

  /** The code compares the average with the bar, so over all admissible confidences the rule "every field clears the bar" holds
      exactly when the mapping threshold already enforces it or the bar is out of the open unit interval. */
  lemma DocumentedBarExact(threshold: real, bar: real)
    ensures DocumentedBarHolds(threshold, bar) <==> threshold >= bar || bar >= 1.0 || bar <= 0.0
  {
    hide HybridAutoApproves, FinalMappings, EveryFieldClears, HybridEnv, SchemaProfile;
    if threshold >= bar || bar >= 1.0 || bar <= 0.0 {
      forall env: Env, answers: seq<Answer> | env.threshold == threshold && env.approval.hybridMinConfidence == bar
        ensures EveryFieldClears(env, FinalMappings(env, answers))
      {
        EveryFieldClearsWhen(env, answers, 1.0);
      }
    } else {
      var phone: Confidence := if threshold > 0.0 then threshold else 0.0;
      SchemaLookups(phone);
      var env := AveragedAway(SchemaProfile(phone), threshold, bar, PhoneLabel);
    }
  }

  /** No confidence that occurs, other than the highest, is at the threshold and under the bar. */
  predicate NoneBetween(threshold: real, bar: real) {
    !(threshold <= 0.6 < bar) && !(threshold <= 0.7 < bar) && !(threshold <= 0.75 < bar) && !(threshold <= 0.8 < bar)
  }

  /** With the confidences that occur, the rule holds exactly when the bar is at least the highest of them, or none of the lower ones
      is at the threshold and under the bar. */
  lemma DocumentedBarInPractice(threshold: real, bar: real)
    ensures DocumentedBarHoldsInPractice(threshold, bar) <==>
            bar >= 0.95 || NoneBetween(threshold, bar)
  {
    hide HybridAutoApproves, FinalMappings, EveryFieldClears, HybridEnv, ParsedProfile, Produced;
    if bar >= 0.95 || NoneBetween(threshold, bar) {
      forall env: Env, answers: seq<Answer> | env.threshold == threshold && env.approval.hybridMinConfidence == bar && Produced(env.profile)
        ensures EveryFieldClears(env, FinalMappings(env, answers))
      {
        ProducedFieldsClear(env, answers);
      }
    } else {
      var p := if threshold <= 0.6 < bar then NameLabel else if threshold <= 0.7 < bar then ExperienceLabel
               else if threshold <= 0.75 < bar then PhoneLabel else WorkModeLabel;
      EverythingOnFile(EmailLabel);
      EverythingOnFile(p);
      var env := AveragedAway(ParsedProfile(), threshold, bar, p);
    }
  }

  lemma ProducedFieldsClear(env: Env, answers: seq<Answer>)
    requires Produced(env.profile)
    requires var bar := env.approval.hybridMinConfidence;
             bar >= 0.95 || NoneBetween(env.threshold, bar)
    ensures EveryFieldClears(env, FinalMappings(env, answers))
  {
    hide FinalMappings, HybridAutoApproves, Produced;
    forall m | m in FinalMappings(env, answers)
      ensures m.confidence <= 0.95 && (m.source == FromProfile ==> m.confidence in {0.6, 0.7, 0.75, 0.8, 0.95})
    {
      ProducedConfidence(env, answers, m);
    }
    if env.approval.hybridMinConfidence >= 0.95 {
      EveryFieldClearsWhen(env, answers, 0.95);
    } else {
      var mappings := FinalMappings(env, answers);
      if HybridAutoApproves(env, mappings) {
        HybridImplies(env, mappings);
        forall m | m in mappings && m.source == FromProfile ensures m.confidence >= env.approval.hybridMinConfidence {
          ProfileMappingClearsThreshold(env, answers, m);
          assert m.confidence in {0.6, 0.7, 0.75, 0.8, 0.95};
        }
      }
    }
  }

  lemma ProducedConfidence(env: Env, answers: seq<Answer>, m: FieldMapping)
    requires Produced(env.profile) && m in FinalMappings(env, answers)
    ensures m.confidence <= 0.95 && (m.source == FromProfile ==> m.confidence in {0.6, 0.7, 0.75, 0.8, 0.95})
  {
    hide Produced, Lookup, CanonicalName, FirstHit;
    var mappings := FinalMappings(env, answers);
    var i :| 0 <= i < |mappings| && mappings[i] == m;
    var own := MapField(env.fields[i], env.profile, env.threshold);
    assert m.confidence == own.confidence && (m.source == FromProfile ==> own.source == FromProfile);
    var hit := FirstHit(PATTERNS, env.fields[i].hits);
    if hit.Some? {
      ProducedLookup(hit.value, env.profile);
    }
  }

  /** The rule holds when the threshold enforces it, and when the bar is at or above everything that can be averaged. */
  lemma EveryFieldClearsWhen(env: Env, answers: seq<Answer>, cap: real)
    requires forall m :: m in FinalMappings(env, answers) ==> m.confidence <= cap
    requires var bar := env.approval.hybridMinConfidence; env.threshold >= bar || bar >= cap || bar <= 0.0
    ensures EveryFieldClears(env, FinalMappings(env, answers))
  {
    hide FinalMappings, HybridAutoApproves;
    var mappings := FinalMappings(env, answers);
    if HybridAutoApproves(env, mappings) {
      HybridImplies(env, mappings);
      forall m | m in mappings && m.source == FromProfile ensures m.confidence >= env.approval.hybridMinConfidence {
        ProfileMappingClearsThreshold(env, answers, m);
        if env.approval.hybridMinConfidence >= cap {
          FullBarMeansCertain(env, mappings, m, cap);
        }
      }
    }
  }

  /** A mapping still sourced from the profile and no longer asking has the threshold's confidence. */
  lemma ProfileMappingClearsThreshold(env: Env, answers: seq<Answer>, m: FieldMapping)
    requires m in FinalMappings(env, answers) && m.source == FromProfile && !m.requiresHuman
    ensures m.confidence >= env.threshold
  {
    hide MapField, ConfidentProfileValue;
    var mappings := FinalMappings(env, answers);
    var i :| 0 <= i < |mappings| && mappings[i] == m;
    assert m == MapField(env.fields[i], env.profile, env.threshold);
    MapFieldNeverGuesses(env.fields[i], env.profile, env.threshold);
    ConfidentMeansAtThreshold(env.fields[i], m, env.profile, env.threshold);
  }

  lemma ConfidentMeansAtThreshold(f: DetectedField, m: FieldMapping, profile: Profile, threshold: real)
    requires ConfidentProfileValue(f, m, profile, threshold)
    ensures m.confidence >= threshold
  {
    hide Lookup, CanonicalName;
  }

  /** An average at or above the highest possible value leaves nothing below it. */
  lemma FullBarMeansCertain(env: Env, mappings: seq<FieldMapping>, m: FieldMapping, cap: real)
    requires HybridAutoApproves(env, mappings) && m in mappings && env.approval.hybridMinConfidence >= cap
    requires forall x :: x in mappings ==> x.confidence <= cap
    ensures m.confidence >= env.approval.hybridMinConfidence
  {
    var bar, n := env.approval.hybridMinConfidence, |mappings|;
    AverageBound(ConfidenceSum(mappings), n, bar);
    SumAtMost(mappings, cap);
    AtMostCap(bar, cap, n);
    FullSumMeansAllFull(mappings, m, cap);
  }

  lemma PositiveProduct(a: real, b: real)
    requires a > 0.0 && b > 0.0
    ensures a * b > 0.0
  {
  }

  lemma AtMostCap(bar: real, cap: real, n: nat)
    requires n > 0 && Times(bar, n) <= Times(cap, n)
    ensures bar <= cap
  {
    var gap := bar - cap;
    assert gap * n as real == bar * n as real - cap * n as real;
    if gap > 0.0 {
      PositiveProduct(gap, n as real);
    }
  }

  lemma {:induction false} SumAtMost(mappings: seq<FieldMapping>, cap: real)
    requires forall x :: x in mappings ==> x.confidence <= cap
    ensures ConfidenceSum(mappings) <= Times(cap, |mappings|)
  {
    hide Times;
    if mappings != [] {
      var n := |mappings| - 1;
      assert mappings[n] in mappings;
      SumAtMost(mappings[..n], cap);
      TimesStep(cap, n);
    } else {
      TimesStep(cap, 0);
    }
  }

  lemma {:induction false} FullSumMeansAllFull(mappings: seq<FieldMapping>, m: FieldMapping, cap: real)
    requires forall x :: x in mappings ==> x.confidence <= cap
    requires ConfidenceSum(mappings) >= Times(cap, |mappings|) && m in mappings
    ensures m.confidence == cap
  {
    hide Times;
    var n := |mappings| - 1;
    assert mappings[n] in mappings;
    SumAtMost(mappings[..n], cap);
    assert mappings == mappings[..n] + [mappings[n]];
    TimesStep(cap, n);
    if m in mappings[..n] { FullSumMeansAllFull(mappings[..n], m, cap); }
  }

  // --- forms in which many certain fields average one uncertain field away ---

  /** The field a label gives. */
  function Labelled(p: Pattern): DetectedField {
    DetectedField(CanonicalName(p), Text, {p})
  }

  function Copies(k: nat, f: DetectedField): (r: seq<DetectedField>)
    ensures |r| == k && forall i :: 0 <= i < k ==> r[i] == f
  {
    seq(k, _ => f)
  }

  /** `k` e-mail fields and one field for `p`. */
  function HybridEnv(profile: Profile, threshold: real, bar: real, k: nat, p: Pattern): Env {
    Env(Job("1", "mock", "u", "t", "c", None, None, None, None, None, "", [], [], None, None, None),
        profile, Some(95.0), Copies(k, Labelled(EmailLabel)) + [Labelled(p)], {}, [], [],
        threshold, ApprovalConfig("hybrid", 90.0, bar), false)
  }

  /** A candidate with a certain e-mail address and a phone number of the given confidence. */
  function SchemaProfile(phone: Confidence): Profile {
    var p := ParsedProfile();
    p.(resume := Some(p.resume.value.(email := Extracted(Some("a@b.co"), 1.0), phone := Extracted(Some("5550134"), phone))))
  }

  lemma SchemaLookups(phone: Confidence)
    ensures Lookup(EmailLabel, SchemaProfile(phone)) == Extracted(Some("a@b.co"), 1.0)
    ensures Lookup(PhoneLabel, SchemaProfile(phone)) == Extracted(Some("5550134"), phone)
  {
  }

  /** The mapping of a field whose only pattern is on file at the threshold. */
  function Mapped(p: Pattern, profile: Profile): FieldMapping {
    FieldMapping(CanonicalName(p), Lookup(p, profile).value, Lookup(p, profile).confidence, false, FromProfile)
  }

  lemma LabelledMapping(p: Pattern, profile: Profile, threshold: real)
    requires Lookup(p, profile).value.Some? && Lookup(p, profile).confidence >= threshold
    ensures MapField(Labelled(p), profile, threshold) == Mapped(p, profile)
  {
    hide FirstHit, Lookup, CanonicalName;
    EveryPatternListed(p);
  }

  /** Wherever a confidence is at the threshold and under the bar, while the e-mail's is above it, enough e-mail fields get a form approved. */
  lemma AveragedAway(profile: Profile, threshold: real, bar: real, p: Pattern) returns (env: Env)
    requires Lookup(EmailLabel, profile).value.Some? && Lookup(p, profile).value.Some?
    requires threshold <= Lookup(p, profile).confidence < bar < Lookup(EmailLabel, profile).confidence
    ensures env.profile == profile && env.threshold == threshold && env.approval.hybridMinConfidence == bar
    ensures !EveryFieldClears(env, FinalMappings(env, []))
  {
    hide EveryFieldClears, FinalMappings, Lookup;
    var high, low := Lookup(EmailLabel, profile).confidence, Lookup(p, profile).confidence;
    var k := (bar / (high - bar)).Floor + 1;
    EnoughCopies(high, low, bar, k);
    env := HybridEnv(profile, threshold, bar, k, p);
    AveragePasses(profile, threshold, bar, k, p);
  }

  lemma AveragePasses(profile: Profile, threshold: real, bar: real, k: nat, p: Pattern)
    requires Lookup(EmailLabel, profile).value.Some? && Lookup(p, profile).value.Some?
    requires threshold <= Lookup(p, profile).confidence < bar <= Lookup(EmailLabel, profile).confidence
    requires Times(Lookup(EmailLabel, profile).confidence, k) + Lookup(p, profile).confidence >= Times(bar, k + 1)
    ensures var env := HybridEnv(profile, threshold, bar, k, p);
            HybridAutoApproves(env, FinalMappings(env, [])) && !EveryFieldClears(env, FinalMappings(env, []))
  {
    hide Lookup, Mapped, HybridEnv, ConfidenceSum, Times, FinalMappings;
    var env := HybridEnv(profile, threshold, bar, k, p);
    var mappings := FinalMappings(env, []);
    HybridMappings(profile, threshold, bar, k, p);
    HybridSettings(profile, threshold, bar, k, p);
    MappedFacts(EmailLabel, profile);
    MappedFacts(p, profile);
    assert mappings == mappings[..k] + [mappings[k]];
    NobodyAsked(mappings);
    SumOfCopies(mappings[..k], Mapped(EmailLabel, profile));
    SumOfLast(mappings);
    AverageBound(ConfidenceSum(mappings), k + 1, bar);
    assert mappings[k] in mappings;
  }

  lemma MappedFacts(p: Pattern, profile: Profile)
    ensures Mapped(p, profile).confidence == Lookup(p, profile).confidence
    ensures !Mapped(p, profile).requiresHuman && Mapped(p, profile).source == FromProfile
  {
    hide Lookup, CanonicalName;
  }

  lemma HybridSettings(profile: Profile, threshold: real, bar: real, k: nat, p: Pattern)
    ensures var env := HybridEnv(profile, threshold, bar, k, p);
            env.approval.hybridMinConfidence == bar && env.matchScore == Some(95.0) && env.approval.hybridMinScore == 90.0
  {
  }

  lemma NobodyAsked(mappings: seq<FieldMapping>)
    requires forall i :: 0 <= i < |mappings| ==> !mappings[i].requiresHuman
    ensures NeedHuman(mappings) == []
  {
    FilterAll(mappings, (m: FieldMapping) => m.requiresHuman);
  }

  lemma SumOfLast(mappings: seq<FieldMapping>)
    requires mappings != []
    ensures ConfidenceSum(mappings) == ConfidenceSum(mappings[..|mappings| - 1]) + mappings[|mappings| - 1].confidence
  {
  }

  lemma HybridMappings(profile: Profile, threshold: real, bar: real, k: nat, p: Pattern)
    requires Lookup(EmailLabel, profile).value.Some? && Lookup(EmailLabel, profile).confidence >= threshold
    requires Lookup(p, profile).value.Some? && Lookup(p, profile).confidence >= threshold
    ensures var mappings := FinalMappings(HybridEnv(profile, threshold, bar, k, p), []);
            && |mappings| == k + 1 && mappings[k] == Mapped(p, profile)
            && forall i :: 0 <= i < k ==> mappings[i] == Mapped(EmailLabel, profile)
  {
    hide Lookup, MapField, Labelled, Mapped;
    LabelledMapping(EmailLabel, profile, threshold);
    LabelledMapping(p, profile, threshold);
  }

  /** At the shipped threshold 0.7 and bar 0.85, one e-mail field and one phone field from a resume are approved. */
  lemma ShippedBarMissed()
    ensures Produced(ParsedProfile())
    ensures var env := HybridEnv(ParsedProfile(), 0.7, 0.85, 1, PhoneLabel);
            && HybridAutoApproves(env, FinalMappings(env, []))
            && exists m :: m in FinalMappings(env, []) && m.source == FromProfile && m.confidence == 0.75
  {
    hide FinalMappings, EveryFieldClears, Mapped, HybridEnv, HybridAutoApproves;
    EverythingOnFile(EmailLabel);
    EverythingOnFile(PhoneLabel);
    AveragePasses(ParsedProfile(), 0.7, 0.85, 1, PhoneLabel);
    HybridMappings(ParsedProfile(), 0.7, 0.85, 1, PhoneLabel);
    MappedFacts(PhoneLabel, ParsedProfile());
    var mappings := FinalMappings(HybridEnv(ParsedProfile(), 0.7, 0.85, 1, PhoneLabel), []);
    assert mappings[1] in mappings;
  }

  lemma PositiveQuotient(a: real, b: real)
    requires a > 0.0 && b > 0.0
    ensures a / b > 0.0
  {
  }

  lemma EnoughCopies(high: real, low: real, bar: real, k: int)
    requires 0.0 <= low < bar < high && k == (bar / (high - bar)).Floor + 1
    ensures k >= 1 && Times(high, k) + low >= Times(bar, k + 1)
  {
    var gap := high - bar;
    var q := bar / gap;
    assert q * gap == bar;
    assert q > 0.0 by { PositiveQuotient(bar, gap); }
    var n := k as real;
    assert n > q;
    assert n * gap >= q * gap;
    assert high * n == bar * n + n * gap;
    TimesStep(bar, k);
  }

  lemma {:induction false} SumOfCopies(mappings: seq<FieldMapping>, m: FieldMapping)
    requires forall i :: 0 <= i < |mappings| ==> mappings[i] == m
    ensures ConfidenceSum(mappings) == Times(m.confidence, |mappings|)
  {
    hide Times;
    if mappings != [] {
      var n := |mappings| - 1;
      SumOfCopies(mappings[..n], m);
      TimesStep(m.confidence, n);
    } else {
      TimesStep(m.confidence, 0);
    }
  }
}
