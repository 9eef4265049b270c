/** Mapping form fields to candidate values, and the human answers that complete the mapping. */
module FormMapping {
  import opened Prelude
  import opened Domain

  datatype FieldKind = Text | Email | Tel | Number | TextArea | Select | Checkbox | Radio | File | Unknown

  /** The label patterns, in the order they are tried. */
  datatype Pattern =
    | EmailLabel | PhoneLabel | NameLabel | ExperienceLabel | TitleLabel | LocationLabel | WorkModeLabel
    | AuthorizationLabel | GenderLabel | EthnicityLabel | DisabilityLabel | VeteranLabel | ReligionLabel
    | ClearanceLabel | CriminalLabel | LinkedinLabel

  const PATTERNS: seq<Pattern> := [
    EmailLabel, PhoneLabel, NameLabel, ExperienceLabel, TitleLabel, LocationLabel, WorkModeLabel,
    AuthorizationLabel, GenderLabel, EthnicityLabel, DisabilityLabel, VeteranLabel, ReligionLabel,
    ClearanceLabel, CriminalLabel, LinkedinLabel
  ]

  /** A field found on the page; `hits` are the patterns its label or placeholder matches. */
  datatype DetectedField = DetectedField(name: string, kind: FieldKind, hits: set<Pattern>)

  datatype Source = FromProfile | Unmapped | FromHuman

  datatype FieldMapping = FieldMapping(
    field: string,
    value: Option<string>,
    confidence: Confidence,
    requiresHuman: bool,
    source: Source)

  /** The text of each resume value by key. */
  type Answer = map<string, string>

  function CanonicalName(p: Pattern): string {
    match p
    case EmailLabel => "email"
    case PhoneLabel => "phone"
    case NameLabel => "name"
    case ExperienceLabel => "experience_years"
    case TitleLabel => "current_title"
    case LocationLabel => "location"
    case WorkModeLabel => "work_mode"
    case AuthorizationLabel => "work_authorization"
    case GenderLabel => "gender"
    case EthnicityLabel => "ethnicity"
    case DisabilityLabel => "disability"
    case VeteranLabel => "veteran_status"
    case ReligionLabel => "religion"
    case ClearanceLabel => "security_clearance"
    case CriminalLabel => "criminal_history"
    case LinkedinLabel => "linkedin_url"
  }

  /** A missing or empty value counts as no value at all. */
  function OnFile(f: Extracted<string>): Extracted<string> {
    if f.value.Some? && f.value.value != [] then f else Extracted(None, 0.0)
  }

  function Nothing(): Extracted<string> {
    Extracted(None, 0.0)
  }

  /** The candidate value a pattern stands for; the sensitive categories have none. */
  function Lookup(p: Pattern, profile: Profile): Extracted<string> {
    match p
    case EmailLabel => if profile.resume.Some? then OnFile(profile.resume.value.email) else Nothing()
    case PhoneLabel => if profile.resume.Some? then OnFile(profile.resume.value.phone) else Nothing()
    case NameLabel => if profile.resume.Some? then OnFile(profile.resume.value.name) else Nothing()
    case TitleLabel => if profile.resume.Some? then OnFile(profile.resume.value.currentTitle) else Nothing()
    case LocationLabel => if profile.resume.Some? then OnFile(profile.resume.value.location) else Nothing()
    case ExperienceLabel =>
      if profile.resume.Some? && profile.resume.value.experienceYears.value.Some?
      then Extracted(Some(profile.resume.value.experienceText), profile.resume.value.experienceYears.confidence)
      else Nothing()
    case AuthorizationLabel =>
      var w := profile.preferences.workAuthorization;
      if w.Some? && w.value != [] then Extracted(w, 0.95) else Nothing()
    case WorkModeLabel =>
      var modes := profile.preferences.workMode;
      if modes != [] then Extracted(Some(modes[0]), 0.8) else Nothing()
    case _ => Nothing()
  }

  /** The value found is the given one, or nothing if that is missing or empty. */
  ghost predicate FoundAs(found: Extracted<string>, f: Extracted<string>) {
    if f.value.Some? && |f.value.value| > 0 then found == f else found.value == None && found.confidence == 0.0
  }

  /** Which entry of the profile each pattern stands for. */
  lemma LookupExactly(profile: Profile)
    ensures profile.resume.Some? ==>
              var r := profile.resume.value;
              && FoundAs(Lookup(EmailLabel, profile), r.email) && FoundAs(Lookup(PhoneLabel, profile), r.phone)
              && FoundAs(Lookup(NameLabel, profile), r.name) && FoundAs(Lookup(TitleLabel, profile), r.currentTitle)
              && FoundAs(Lookup(LocationLabel, profile), r.location)
              && Lookup(ExperienceLabel, profile) ==
                 (if r.experienceYears.value.Some? then Extracted(Some(r.experienceText), r.experienceYears.confidence) else Extracted(None, 0.0))
    ensures profile.resume.None? ==>
              forall p :: p in {EmailLabel, PhoneLabel, NameLabel, TitleLabel, LocationLabel, ExperienceLabel} ==>
                Lookup(p, profile) == Extracted(None, 0.0)
    ensures FoundAs(Lookup(AuthorizationLabel, profile), Extracted(profile.preferences.workAuthorization, 0.95))
    ensures Lookup(WorkModeLabel, profile) ==
            if |profile.preferences.workMode| > 0 then Extracted(Some(profile.preferences.workMode[0]), 0.8) else Extracted(None, 0.0)
    ensures forall p: Pattern ::
              (p.GenderLabel? || p.EthnicityLabel? || p.DisabilityLabel? || p.VeteranLabel? || p.ReligionLabel? || p.ClearanceLabel?
               || p.CriminalLabel? || p.LinkedinLabel?) ==>
                Lookup(p, profile) == Extracted(None, 0.0)
  {
  }

  /** The table in order. */
  lemma OrderExactly()
    ensures |PATTERNS| == 16
    ensures PATTERNS[0] == EmailLabel && PATTERNS[1] == PhoneLabel && PATTERNS[2] == NameLabel && PATTERNS[3] == ExperienceLabel
    ensures PATTERNS[4] == TitleLabel && PATTERNS[5] == LocationLabel && PATTERNS[6] == WorkModeLabel && PATTERNS[7] == AuthorizationLabel
    ensures PATTERNS[8] == GenderLabel && PATTERNS[9] == EthnicityLabel && PATTERNS[10] == DisabilityLabel && PATTERNS[11] == VeteranLabel
    ensures PATTERNS[12] == ReligionLabel && PATTERNS[13] == ClearanceLabel && PATTERNS[14] == CriminalLabel && PATTERNS[15] == LinkedinLabel
  {
    hide CanonicalName, Lookup;
  }

  /** The name each mapping carries and its answer is keyed by. */
  lemma NamesExactly()
    ensures CanonicalName(EmailLabel) == "email" && CanonicalName(PhoneLabel) == "phone"
    ensures CanonicalName(NameLabel) == "name" && CanonicalName(ExperienceLabel) == "experience_years"
    ensures CanonicalName(TitleLabel) == "current_title" && CanonicalName(LocationLabel) == "location"
    ensures CanonicalName(WorkModeLabel) == "work_mode" && CanonicalName(AuthorizationLabel) == "work_authorization"
    ensures CanonicalName(GenderLabel) == "gender" && CanonicalName(EthnicityLabel) == "ethnicity"
    ensures CanonicalName(DisabilityLabel) == "disability" && CanonicalName(VeteranLabel) == "veteran_status"
    ensures CanonicalName(ReligionLabel) == "religion" && CanonicalName(ClearanceLabel) == "security_clearance"
    ensures CanonicalName(CriminalLabel) == "criminal_history" && CanonicalName(LinkedinLabel) == "linkedin_url"
  {
    hide PATTERNS, Lookup;
  }

  /** The first pattern in the table that the field matches. */
  function FirstHit(patterns: seq<Pattern>, hits: set<Pattern>): (r: Option<Pattern>)
    ensures r.None? <==> forall p :: p in patterns ==> p !in hits
    ensures r.Some? ==> r.value in patterns && r.value in hits
  {
    if patterns == [] then None
    else if patterns[0] in hits then Some(patterns[0])
    else FirstHit(patterns[1..], hits)
  }

  function MapField(f: DetectedField, profile: Profile, threshold: real): FieldMapping {
    match FirstHit(PATTERNS, f.hits)
    case None => FieldMapping(f.name, None, 0.0, true, Unmapped)
    case Some(p) =>
      var found := Lookup(p, profile);
      if found.value.None? then FieldMapping(CanonicalName(p), None, 0.0, true, Unmapped)
      else FieldMapping(CanonicalName(p), found.value, found.confidence, found.confidence < threshold, FromProfile)
  }

  function MapFields(fields: seq<DetectedField>, profile: Profile, threshold: real): seq<FieldMapping> {
    Map(fields, (f: DetectedField) => MapField(f, profile, threshold))
  }

  /** A human answer replaces the value of a mapping that needed one; its confidence stays what it was. */
  function AnswerMapping(m: FieldMapping, a: Answer): FieldMapping {
    if m.requiresHuman && m.field in a
    then m.(value := Some(a[m.field]), requiresHuman := false, source := FromHuman)
    else m
  }

  function AnswerMappings(mappings: seq<FieldMapping>, a: Answer): seq<FieldMapping> {
    Map(mappings, (m: FieldMapping) => AnswerMapping(m, a))
  }

  function NeedHuman(mappings: seq<FieldMapping>): seq<FieldMapping> {
    Filter(mappings, (m: FieldMapping) => m.requiresHuman)
  }

  /** Pattern `i` of the table matches, and none before it does. */
  ghost predicate FirstMatch(hits: set<Pattern>, i: int) {
    0 <= i < |PATTERNS| && PATTERNS[i] in hits && forall j :: 0 <= j < i ==> PATTERNS[j] !in hits
  }

  lemma {:induction false} FirstHitFrom(patterns: seq<Pattern>, hits: set<Pattern>, i: int)
    requires 0 <= i < |patterns| && patterns[i] in hits && forall j :: 0 <= j < i ==> patterns[j] !in hits
    ensures FirstHit(patterns, hits) == Some(patterns[i])
  {
    if i > 0 {
      assert patterns[0] !in hits;
      FirstHitFrom(patterns[1..], hits, i - 1);
    }
  }

  lemma {:induction false} FirstHitAt(patterns: seq<Pattern>, hits: set<Pattern>) returns (i: int)
    requires FirstHit(patterns, hits).Some?
    ensures 0 <= i < |patterns| && patterns[i] in hits && patterns[i] == FirstHit(patterns, hits).value
    ensures forall j :: 0 <= j < i ==> patterns[j] !in hits
  {
    if patterns[0] in hits {
      i := 0;
    } else {
      var k := FirstHitAt(patterns[1..], hits);
      i := k + 1;
    }
  }

  lemma EveryPatternListed(p: Pattern)
    ensures p in PATTERNS
  {
    hide CanonicalName;
    OrderExactly();
  }

  /** The value is the profile's for the first pattern the field matches, with at least the threshold's confidence. */
  ghost predicate ConfidentProfileValue(f: DetectedField, m: FieldMapping, profile: Profile, threshold: real) {
    exists i :: FirstMatch(f.hits, i)
                && m.field == CanonicalName(PATTERNS[i]) && m.value.Some?
                && Lookup(PATTERNS[i], profile) == Extracted(m.value, m.confidence) && m.confidence >= threshold
  }

  /** A mapping either waits for a human or carries the confident profile value of the field's first pattern: nothing is guessed. */
  lemma MapFieldNeverGuesses(f: DetectedField, profile: Profile, threshold: real)
    ensures var m := MapField(f, profile, threshold);
            && (m.value.None? ==> m.confidence == 0.0)
            && ((forall p :: p !in f.hits) ==> m.field == f.name && m.value == None)
            && (forall i :: FirstMatch(f.hits, i) ==> m.field == CanonicalName(PATTERNS[i]) && m.value == Lookup(PATTERNS[i], profile).value)
            && (m.requiresHuman <==> !ConfidentProfileValue(f, m, profile, threshold))
            && (m.source == Unmapped <==> m.value.None?) && m.source != FromHuman
  {
    hide Lookup, CanonicalName, FirstHit;
    var m := MapField(f, profile, threshold);
    if FirstHit(PATTERNS, f.hits).Some? {
      var i := FirstHitAt(PATTERNS, f.hits);
      assert FirstMatch(f.hits, i);
    }
    forall i | FirstMatch(f.hits, i) ensures FirstHit(PATTERNS, f.hits) == Some(PATTERNS[i]) {
      FirstHitFrom(PATTERNS, f.hits, i);
    }
    if ConfidentProfileValue(f, m, profile, threshold) {
      var i :| FirstMatch(f.hits, i) && Lookup(PATTERNS[i], profile) == Extracted(m.value, m.confidence) && m.confidence >= threshold;
      FirstHitFrom(PATTERNS, f.hits, i);
    }
  }

  /** The categories for which the candidate model has no field at all. */
  predicate Sensitive(p: Pattern) {
    p.GenderLabel? || p.EthnicityLabel? || p.DisabilityLabel? || p.VeteranLabel? || p.ReligionLabel?
    || p.ClearanceLabel? || p.CriminalLabel?
  }

  /** No profile has a value for the pattern. */
  predicate Valueless(p: Pattern) {
    Sensitive(p) || p.LinkedinLabel?
  }

  lemma NothingOnFile(p: Pattern, profile: Profile)
    requires Valueless(p)
    ensures Lookup(p, profile).value.None?
  {
  }

  /** A value the resume parser found, with the confidence it gives to such values, or none. */
  predicate FromParser<T>(f: Extracted<T>, confidence: Confidence) {
    f.value.Some? ==> f.confidence == confidence
  }

  /** A profile as the program makes one: the parser is the only writer of resumes, and it finds neither title nor location. */
  predicate Produced(profile: Profile) {
    profile.resume.Some? ==>
      var r := profile.resume.value;
      && FromParser(r.email, 0.95) && FromParser(r.phone, 0.75) && FromParser(r.name, 0.6) && FromParser(r.experienceYears, 0.7)
      && r.currentTitle.value.None? && r.location.value.None?
  }

  /** A produced profile in which everything that can be on file is. */
  function ParsedProfile(): Profile {
    Profile(
      Some(ResumeExtraction("resume", Extracted(Some("A B"), 0.6), Extracted(Some("a@b.co"), 0.95), Extracted(Some("5550134"), 0.75),
                            Nothing(), Nothing(), Extracted(Some(18.0), 0.7), "18", [])),
      Preferences([], [], [], [], [], [], false, ["remote"], Some("citizen"), "USD", 0.0, 0.0, [], [], 75, 30))
  }

  /** A profile the schema admits, with everything on file. */
  function FullProfile(): Profile {
    var p := ParsedProfile();
    p.(resume := Some(p.resume.value.(currentTitle := Extracted(Some("CTO"), 1.0), location := Extracted(Some("Berlin"), 1.0))))
  }

  /** The confidence of each sort of value in a produced profile. */
  function ParsedConfidence(p: Pattern): Confidence {
    match p
    case EmailLabel => 0.95
    case PhoneLabel => 0.75
    case NameLabel => 0.6
    case ExperienceLabel => 0.7
    case WorkModeLabel => 0.8
    case AuthorizationLabel => 0.95
    case _ => 0.0
  }

  /** Only these patterns find a value in a produced profile. */
  predicate Findable(p: Pattern) {
    !Valueless(p) && !p.TitleLabel? && !p.LocationLabel?
  }

  lemma ProducedLookup(p: Pattern, profile: Profile)
    requires Produced(profile)
    ensures Lookup(p, profile).value.Some? ==> Findable(p) && Lookup(p, profile).confidence == ParsedConfidence(p)
  {
  }

  lemma EverythingOnFile(p: Pattern)
    ensures Produced(ParsedProfile())
    ensures Findable(p) ==> Lookup(p, ParsedProfile()).value.Some? && Lookup(p, ParsedProfile()).confidence == ParsedConfidence(p)
    ensures !Valueless(p) ==> Lookup(p, FullProfile()).value.Some? && Lookup(p, FullProfile()).confidence >= 0.6
  {
  }

  /** The field asks a human and holds no value, whatever is on file and whatever the threshold. */
  ghost predicate AlwaysAsks(f: DetectedField) {
    forall profile: Profile, threshold: real :: MapField(f, profile, threshold).requiresHuman && MapField(f, profile, threshold).value.None?
  }

  /** The same for profiles as the program makes them. */
  ghost predicate AlwaysAsksInPractice(f: DetectedField) {
    forall profile: Profile, threshold: real :: Produced(profile) ==>
      MapField(f, profile, threshold).requiresHuman && MapField(f, profile, threshold).value.None?
  }

  lemma FirstMatchIsHit(hits: set<Pattern>)
    ensures FirstHit(PATTERNS, hits).Some? ==> exists i :: FirstMatch(hits, i)
    ensures forall i :: FirstMatch(hits, i) ==> FirstHit(PATTERNS, hits) == Some(PATTERNS[i])
  {
    hide FirstHit;
    if FirstHit(PATTERNS, hits).Some? {
      var i := FirstHitAt(PATTERNS, hits);
      assert FirstMatch(hits, i);
    }
    forall i | FirstMatch(hits, i) ensures FirstHit(PATTERNS, hits) == Some(PATTERNS[i]) {
      FirstHitFrom(PATTERNS, hits, i);
    }
  }

  /** A field always asks, whatever is on file, exactly when the first pattern it matches, if any, is one for which there is nothing to
      look up. A sensitive pattern further down the table does not help. */
  lemma SensitiveFieldsAlwaysAsk(f: DetectedField)
    ensures AlwaysAsks(f) <==> forall i :: FirstMatch(f.hits, i) ==> Valueless(PATTERNS[i])
    ensures AlwaysAsksInPractice(f) <==> forall i :: FirstMatch(f.hits, i) ==> !Findable(PATTERNS[i])
  {
    hide FirstHit, FirstMatch, CanonicalName, Lookup, Valueless, Findable, Produced, ParsedProfile, FullProfile;
    FirstMatchIsHit(f.hits);
    var hit := FirstHit(PATTERNS, f.hits);
    if hit.Some? {
      EverythingOnFile(hit.value);
      assert Findable(hit.value) ==> !MapField(f, ParsedProfile(), 0.0).requiresHuman;
      assert !Valueless(hit.value) ==> !MapField(f, FullProfile(), 0.0).requiresHuman;
      forall profile: Profile
        ensures Valueless(hit.value) ==> Lookup(hit.value, profile).value.None?
        ensures Produced(profile) && !Findable(hit.value) ==> Lookup(hit.value, profile).value.None?
      {
        if Valueless(hit.value) { NothingOnFile(hit.value, profile); }
        if Produced(profile) { ProducedLookup(hit.value, profile); }
      }
    }
  }

  /** A label that mentions both work authorisation and a security clearance, or both a phone and gender, is answered from a profile
      the program made, without asking, at the shipped threshold of 0.7. */
  lemma SensitiveFieldFilled(name: string)
    ensures Produced(ParsedProfile())
    ensures MapField(DetectedField(name, Text, {AuthorizationLabel, ClearanceLabel}), ParsedProfile(), 0.7)
            == FieldMapping("work_authorization", Some("citizen"), 0.95, false, FromProfile)
    ensures MapField(DetectedField(name, Text, {PhoneLabel, GenderLabel}), ParsedProfile(), 0.7)
            == FieldMapping("phone", Some("5550134"), 0.75, false, FromProfile)
  {
    hide FirstHit;
    FirstHitFrom(PATTERNS, {AuthorizationLabel, ClearanceLabel}, 7);
    FirstHitFrom(PATTERNS, {PhoneLabel, GenderLabel}, 1);
  }
}
