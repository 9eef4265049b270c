/** The one-pass scanner that collects resume lines under their section headers. */
module ResumeSections {
  import opened Prelude
  import opened Text

  datatype Section = Education | Certifications | Languages | Achievements

  datatype LineKind =
    | Blank
    | Header(section: Section)
    | ShortCapitals
    | Ordinary(item: string)

  const HEADERS: map<string, Section> := map[
    "education" := Education,
    "certifications" := Certifications,
    "certification" := Certifications,
    "languages" := Languages,
    "achievements" := Achievements,
    "accomplishments" := Achievements
  ]

  /** `s.rstrip(":")` */
  function TrimColons(s: string): string {
    if s != [] && s[|s| - 1] == ':' then TrimColons(s[..|s| - 1]) else s
  }

  /** `s.lstrip("-•*")` */
  function TrimBullets(s: string): string {
    if s != [] && (s[0] == '-' || s[0] == '\U{2022}' || s[0] == '*') then TrimBullets(s[1..]) else s
  }

  /** `s.isupper()`: some capital letter and no small one. */
  predicate IsUpper(s: string) {
    (exists i :: 0 <= i < |s| && 'A' <= s[i] <= 'Z') && forall i :: 0 <= i < |s| ==> !('a' <= s[i] <= 'z')
  }

  function Classify(line: string): LineKind {
    var stripped := Strip(line);
    if stripped == [] then Blank
    else
      var key := TrimColons(Lower(stripped));
      if key in HEADERS then Header(HEADERS[key])
      else if IsUpper(stripped) && |Words(stripped)| <= 4 then ShortCapitals
      else Ordinary(Strip(TrimBullets(stripped)))
  }

  /** What trimming colons leaves: the text up to the colons at its end. */
  lemma {:induction false} TrimColonsExactly(s: string) returns (colons: string)
    ensures s == TrimColons(s) + colons && forall i :: 0 <= i < |colons| ==> colons[i] == ':'
    ensures TrimColons(s) == [] || TrimColons(s)[|TrimColons(s)| - 1] != ':'
  {
    colons := [];
    if s != [] && s[|s| - 1] == ':' {
      var rest := TrimColonsExactly(s[..|s| - 1]);
      colons := rest + [':'];
      assert s == s[..|s| - 1] + [':'];
    }
  }

  /** What trimming bullets leaves: the text from the first character that is no dash, bullet or star. */
  lemma {:induction false} TrimBulletsExactly(s: string) returns (bullets: string)
    ensures s == bullets + TrimBullets(s) && forall i :: 0 <= i < |bullets| ==> bullets[i] in {'-', '\U{2022}', '*'}
    ensures TrimBullets(s) == [] || TrimBullets(s)[0] !in {'-', '\U{2022}', '*'}
  {
    bullets := [];
    if s != [] && s[0] in {'-', '\U{2022}', '*'} {
      var rest := TrimBulletsExactly(s[1..]);
      bullets := [s[0]] + rest;
      assert s == [s[0]] + s[1..];
    }
  }

  /** The name a header line is known by. */
  function HeaderName(line: string): string {
    TrimColons(Lower(Strip(line)))
  }

  predicate Capitals(s: string) {
    (exists c :: c in s && 'A' <= c <= 'Z') && !exists c :: c in s && 'a' <= c <= 'z'
  }

  /** How each line is taken: blank, a header of one of the four sections by one of six names, a closing line of at most four words in
      capitals, or an item without its bullets. */
  lemma ClassifyExactly(line: string)
    ensures Classify(line) == Blank <==> AllSpace(line)
    ensures Classify(line) == Header(Education) <==> !AllSpace(line) && HeaderName(line) == "education"
    ensures Classify(line) == Header(Certifications) <==> !AllSpace(line) && HeaderName(line) in {"certifications", "certification"}
    ensures Classify(line) == Header(Languages) <==> !AllSpace(line) && HeaderName(line) == "languages"
    ensures Classify(line) == Header(Achievements) <==> !AllSpace(line) && HeaderName(line) in {"achievements", "accomplishments"}
    ensures Classify(line) == ShortCapitals <==>
            !AllSpace(line) && !Classify(line).Header? && Capitals(Strip(line)) && |Words(Strip(line))| <= 4
    ensures Classify(line).Ordinary? ==> Classify(line).item == Strip(TrimBullets(Strip(line)))
  {
    BlankExactly(line);
    CapitalsExactly(Strip(line));
    hide Strip, Lower, Words, IsUpper, AllSpace, Capitals, TrimColons;
  }

  lemma CapitalsExactly(s: string)
    ensures IsUpper(s) <==> Capitals(s)
  {
    if i :| 0 <= i < |s| && 'A' <= s[i] <= 'Z' { assert s[i] in s; }
    if c :| c in s && 'a' <= c <= 'z' { var i :| 0 <= i < |s| && s[i] == c; }
    forall i | 0 <= i < |s| ensures s[i] in s {}
  }

  datatype ScanState = ScanState(current: Option<Section>, sections: map<Section, seq<string>>)

  const INITIAL := ScanState(None, map[Education := [], Certifications := [], Languages := [], Achievements := []])

  predicate Complete(sections: map<Section, seq<string>>) {
    Education in sections && Certifications in sections && Languages in sections && Achievements in sections
  }

  lemma CompleteHas(sections: map<Section, seq<string>>, key: Section)
    requires Complete(sections)
    ensures key in sections
  {
    match key case Education => case Certifications => case Languages => case Achievements =>
  }

  /** What one line does to the scanner. */
  function Step(st: ScanState, line: string): ScanState {
    match Classify(line)
    case Blank => st
    case Header(section) => st.(current := Some(section))
    case ShortCapitals => st.(current := None)
    case Ordinary(item) =>
      if st.current.Some? && item != [] && st.current.value in st.sections then
        var key := st.current.value;
        st.(sections := st.sections[key := st.sections[key] + [item]])
      else st
  }

  /** The scanner after reading `lines` from state `st`. */
  function Scan(st: ScanState, lines: seq<string>): ScanState {
    if lines == [] then st
    else Step(Scan(st, lines[..|lines| - 1]), lines[|lines| - 1])
  }

  method ExtractSections(lines: seq<string>) returns (sections: map<Section, seq<string>>)
    ensures sections == Scan(INITIAL, lines).sections
    ensures forall key: Section :: key in sections && sections[key] == Collected(lines, |lines|, key)
  {
    hide Classify;
    sections := INITIAL.sections;
    var current: Option<Section> := None;
    for i := 0 to |lines|
      invariant ScanState(current, sections) == Scan(INITIAL, lines[..i])
      invariant Complete(sections)
    {
      assert lines[..i + 1][..i] == lines[..i];
      match Classify(lines[i]) {
        case Blank =>
        case Header(section) => current := Some(section);
        case ShortCapitals => current := None;
        case Ordinary(item) =>
          if current.Some? && item != [] {
            CompleteHas(sections, current.value);
            sections := sections[current.value := sections[current.value] + [item]];
          }
      }
    }
    assert lines[..|lines|] == lines;
    ScanMeaning(lines);
  }

  /** A line that opens or closes a section. */
  predicate Control(line: string) {
    Classify(line).Header? || Classify(line).ShortCapitals?
  }

  /** Line `j` is the nearest header-or-capitals line before line `i`. */
  ghost predicate Governs(lines: seq<string>, j: int, i: int) {
    0 <= j < i <= |lines| && Control(lines[j]) && forall m :: j < m < i ==> !Control(lines[m])
  }

  /** Line `i` is a non-empty ordinary line whose governing line is a header of `key`. */
  ghost predicate Belongs(lines: seq<string>, i: int, key: Section) {
    && 0 <= i < |lines|
    && Classify(lines[i]).Ordinary? && Classify(lines[i]).item != []
    && exists j :: Governs(lines, j, i) && Classify(lines[j]) == Header(key)
  }

  /** The items among the first `n` lines that belong to `key`, in order. */
  ghost function Collected(lines: seq<string>, n: nat, key: Section): seq<string>
    requires n <= |lines|
  {
    if n == 0 then []
    else Collected(lines, n - 1, key) + if Belongs(lines, n - 1, key) then [Classify(lines[n - 1]).item] else []
  }

  /** The scanner's state says exactly which header governs the next line. */
  lemma {:induction false} CurrentIsGoverning(lines: seq<string>, n: nat)
    requires n <= |lines|
    ensures var current := Scan(INITIAL, lines[..n]).current;
            && (forall j :: Governs(lines, j, n) ==> current == match Classify(lines[j]) case Header(s) => Some(s) case _ => None)
            && (current.Some? ==> exists j :: Governs(lines, j, n))
  {
    hide Classify;
    if n > 0 {
      CurrentIsGoverning(lines, n - 1);
      assert lines[..n][..n - 1] == lines[..n - 1];
      var before, after := Scan(INITIAL, lines[..n - 1]).current, Scan(INITIAL, lines[..n]).current;
      if Control(lines[n - 1]) {
        assert Governs(lines, n - 1, n);
      } else {
        assert after == before;
        if before.Some? {
          var j :| Governs(lines, j, n - 1);
          assert Governs(lines, j, n);
        }
        forall j | Governs(lines, j, n) ensures Governs(lines, j, n - 1) {
        }
      }
    }
  }

  /** Whether the scanner keeps a line depends only on the line and its governing header. */
  lemma KeptIffBelongs(lines: seq<string>, i: nat, key: Section)
    requires i < |lines|
    ensures Belongs(lines, i, key) <==>
            && Classify(lines[i]).Ordinary? && Classify(lines[i]).item != []
            && Scan(INITIAL, lines[..i]).current == Some(key)
  {
    hide Classify;
    CurrentIsGoverning(lines, i);
  }

  lemma {:induction false} ScanPrefixMeaning(lines: seq<string>, n: nat, key: Section)
    requires n <= |lines|
    ensures var sections := Scan(INITIAL, lines[..n]).sections;
            Complete(sections) && key in sections && sections[key] == Collected(lines, n, key)
  {
    hide Classify;
    if n == 0 {
      match key case Education => case Certifications => case Languages => case Achievements =>
    } else {
      ScanPrefixMeaning(lines, n - 1, key);
      KeptIffBelongs(lines, n - 1, key);
      assert lines[..n][..n - 1] == lines[..n - 1];
      StepKeeps(Scan(INITIAL, lines[..n - 1]), lines[n - 1], key);
    }
  }

  lemma StepKeeps(st: ScanState, line: string, key: Section)
    requires Complete(st.sections) && key in st.sections
    ensures var next := Step(st, line).sections;
            && Complete(next) && key in next
            && next[key] == st.sections[key] +
               (if Classify(line).Ordinary? && Classify(line).item != [] && st.current == Some(key)
                then [Classify(line).item] else [])
  {
    hide Classify;
    if st.current.Some? {
      CompleteHas(st.sections, st.current.value);
    }
  }

  /** The scanner equals its declarative meaning. */
  lemma ScanMeaning(lines: seq<string>)
    ensures forall key: Section ::
              key in Scan(INITIAL, lines).sections && Scan(INITIAL, lines).sections[key] == Collected(lines, |lines|, key)
  {
    assert lines[..|lines|] == lines;
    forall key: Section
      ensures key in Scan(INITIAL, lines).sections && Scan(INITIAL, lines).sections[key] == Collected(lines, |lines|, key)
    {
      ScanPrefixMeaning(lines, |lines|, key);
    }
  }

  /** Reading two texts one after the other is reading their concatenation. */
  lemma {:induction false} ScanConcat(st: ScanState, a: seq<string>, b: seq<string>)
    ensures Scan(st, a + b) == Scan(Scan(st, a), b)
  {
    if b == [] {
      assert a + b == a;
    } else {
      var n := |b| - 1;
      assert (a + b)[..|a + b| - 1] == a + b[..n];
      ScanConcat(st, a, b[..n]);
    }
  }
}
