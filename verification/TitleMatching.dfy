/** Title families, token overlap, and the best-target search. */
module TitleMatching {
  import opened Prelude
  import opened Text
  import opened Rounding

  const TITLE_TO_FAMILY: map<string, string> := map[
    "cto" := "CTO",
    "chief technology officer" := "CTO",
    "chief technical officer" := "CTO",
    "technology head" := "CTO",
    "head of technology" := "CTO",
    "vp technology" := "CTO",
    "technology director" := "CTO",
    "vp engineering" := "VP Engineering",
    "vice president engineering" := "VP Engineering",
    "vp of engineering" := "VP Engineering",
    "vp eng" := "VP Engineering",
    "head of engineering" := "Head of Engineering",
    "engineering head" := "Head of Engineering",
    "director of engineering" := "Head of Engineering",
    "it director" := "IT Director",
    "director of it" := "IT Director",
    "director, it" := "IT Director"
  ]

  const PARTIAL_MATCH_FLOOR := 0.34

  const STOPWORDS: set<string> := {"a", "an", "and", "at", "for", "in", "of", "on", "or", "the", "to", "with"}

  function TitleFamily(title: string): Option<string> {
    var key := Lower(Strip(title));
    if key in TITLE_TO_FAMILY then Some(TITLE_TO_FAMILY[key]) else None
  }

  /** Which titles belong to which family: its own name and its synonyms, trimmed and in any case. */
  lemma FamilyMembers(title: string)
    ensures TitleFamily(title) == Some("CTO") <==> Lower(Strip(title)) in {
              "cto", "chief technology officer", "chief technical officer", "technology head", "head of technology", "vp technology",
              "technology director"}
    ensures TitleFamily(title) == Some("VP Engineering") <==> Lower(Strip(title)) in {
              "vp engineering", "vice president engineering", "vp of engineering", "vp eng"}
    ensures TitleFamily(title) == Some("Head of Engineering") <==> Lower(Strip(title)) in {
              "head of engineering", "engineering head", "director of engineering"}
    ensures TitleFamily(title) == Some("IT Director") <==> Lower(Strip(title)) in {"it director", "director of it", "director, it"}
    ensures TitleFamily(title).Some? ==> TitleFamily(title).value in {"CTO", "VP Engineering", "Head of Engineering", "IT Director"}
  {
    hide Lower, Strip;
    assert |"CTO"| == 3 && |"VP Engineering"| == 14 && |"Head of Engineering"| == 19 && |"IT Director"| == 11;
  }

  lemma NamesTrimmed()
    ensures Strip("CTO") == "CTO" && Strip("VP Engineering") == "VP Engineering"
    ensures Strip("Head of Engineering") == "Head of Engineering" && Strip("IT Director") == "IT Director"
  {
  }

  lemma NamesInSmallLetters()
    ensures Lower("CTO") == "cto" && Lower("VP Engineering") == "vp engineering"
    ensures Lower("Head of Engineering") == "head of engineering" && Lower("IT Director") == "it director"
  {
    hide Strip;
  }

  /** The name of a family is a title of that family. */
  lemma FamilyNamesItself(title: string)
    requires TitleFamily(title).Some?
    ensures TitleFamily(TitleFamily(title).value) == TitleFamily(title)
    ensures Lower(Strip(TitleFamily(title).value)) in TITLE_TO_FAMILY
    ensures TITLE_TO_FAMILY[Lower(Strip(TitleFamily(title).value))] == TitleFamily(title).value
  {
    hide Lower, Strip;
    FamilyMembers(title);
    NamesTrimmed();
    NamesInSmallLetters();
    FamilyMembers(TitleFamily(title).value);
  }

  predicate IsWordChar(c: char) {
    'a' <= c <= 'z' || '0' <= c <= '9'
  }

  /** `re.findall(r"[a-z0-9]+", s)`, as a set; `word` is the run being read. */
  function Runs(s: string, word: string): set<string> {
    if s == [] then (if word == [] then {} else {word})
    else if IsWordChar(s[0]) then Runs(s[1..], word + [s[0]])
    else (if word == [] then {} else {word}) + Runs(s[1..], [])
  }

  function Tokenize(text: string): set<string> {
    Runs(Lower(text), []) - STOPWORDS
  }

  /** Jaccard similarity over word sets. */
  function TokenOverlapRatio(a: string, b: string): (r: real)
    ensures 0.0 <= r <= 1.0
    ensures r == 1.0 <==> Tokenize(a) == Tokenize(b) != {}
    ensures r == 0.0 <==> Tokenize(a) !! Tokenize(b)
  {
    var ta, tb := Tokenize(a), Tokenize(b);
    if ta == {} || tb == {} then 0.0
    else
      JaccardBounds(ta, tb);
      |ta * tb| as real / |ta + tb| as real
  }

  /** The overlap is the number of shared words over the number of all words of the two. */
  lemma OverlapExactly(a: string, b: string)
    ensures Tokenize(a) != {} && Tokenize(b) != {} ==>
              TokenOverlapRatio(a, b) * |Tokenize(a) + Tokenize(b)| as real == |Tokenize(a) * Tokenize(b)| as real
  {
    hide Tokenize;
    if Tokenize(a) != {} && Tokenize(b) != {} {
      JaccardBounds(Tokenize(a), Tokenize(b));
      QuotientTimes(|Tokenize(a) * Tokenize(b)| as real, |Tokenize(a) + Tokenize(b)| as real);
    }
  }

  predicate LetterOrDigit(c: char) {
    'a' <= c <= 'z' || 'A' <= c <= 'Z' || '0' <= c <= '9'
  }

  lemma {:induction false} RunsAcross(a: string, c: char, b: string, word: string)
    requires !IsWordChar(c)
    ensures Runs(a + [c] + b, word) == Runs(a, word) + Runs(b, [])
  {
    var s := a + [c] + b;
    if a == [] {
      assert s[1..] == b;
    } else {
      assert s[1..] == a[1..] + [c] + b;
      RunsAcross(a[1..], c, b, if IsWordChar(a[0]) then word + [a[0]] else []);
    }
  }

  lemma {:induction false} RunsWhole(w: string, word: string)
    requires forall i :: 0 <= i < |w| ==> IsWordChar(w[i])
    requires w != [] || word != []
    ensures Runs(w, word) == {word + w}
  {
    if w == [] {
      assert word + w == word;
    } else {
      assert word + [w[0]] + w[1..] == word + w;
      RunsWhole(w[1..], word + [w[0]]);
    }
  }

  /** The words of a text are its runs of letters and digits in small letters, without the twelve that carry no meaning. */
  lemma TokensExactly(a: string, c: char, b: string)
    ensures !LetterOrDigit(c) ==> Tokenize(a + [c] + b) == Tokenize(a) + Tokenize(b)
    ensures Tokenize([]) == {}
    ensures a != [] && (forall i :: 0 <= i < |a| ==> LetterOrDigit(a[i])) ==>
              Tokenize(a) == {Lower(a)} - {"a", "an", "and", "at", "for", "in", "of", "on", "or", "the", "to", "with"}
  {
    if !LetterOrDigit(c) {
      assert Lower(a + [c] + b) == Lower(a) + [LowerChar(c)] + Lower(b);
      RunsAcross(Lower(a), LowerChar(c), Lower(b), []);
    }
    if a != [] && forall i :: 0 <= i < |a| ==> LetterOrDigit(a[i]) {
      RunsWhole(Lower(a), []);
      assert [] + Lower(a) == Lower(a);
    }
  }

  lemma SubsetSize<T>(a: set<T>, b: set<T>)
    requires a <= b
    ensures |a| <= |b|
    ensures |a| == |b| ==> a == b
  {
    assert b == a + (b - a);
    assert |b| == |a| + |b - a|;
  }

  lemma JaccardBounds<T>(a: set<T>, b: set<T>)
    requires a != {} && b != {}
    ensures |a + b| > 0
    ensures 0.0 <= |a * b| as real / |a + b| as real <= 1.0
    ensures |a * b| as real / |a + b| as real == 1.0 <==> a == b
    ensures |a * b| as real / |a + b| as real == 0.0 <==> a !! b
  {
    SubsetSize(a * b, a + b);
    SubsetSize(a, a + b);
    DivideBounds(|a * b|, |a + b|);
    assert a == b ==> a * b == a + b;
    assert a * b == a + b ==> a == b;
    assert |a * b| == 0 <==> a * b == {};
    if a * b == {} {
      forall x | x in a ensures x !in b {
        assert x in b ==> x in a * b;
      }
    }
  }

  lemma DivideBounds(i: nat, u: nat)
    requires i <= u && u > 0
    ensures 0.0 <= i as real / u as real <= 1.0
    ensures i as real / u as real == 1.0 <==> i == u
    ensures i as real / u as real == 0.0 <==> i == 0
  {
    var q := i as real / u as real;
    assert q * u as real == i as real;
  }

  /** The largest overlap of the job title with any target. */
  function BestRatio(targets: seq<string>, title: string): real {
    if targets == [] then 0.0
    else
      var n := |targets| - 1;
      var before, last := BestRatio(targets[..n], title), TokenOverlapRatio(targets[n], title);
      if last > before then last else before
  }

  lemma {:induction false} BestRatioIsMaximum(targets: seq<string>, title: string)
    ensures 0.0 <= BestRatio(targets, title) <= 1.0
    ensures forall t :: t in targets ==> TokenOverlapRatio(t, title) <= BestRatio(targets, title)
    ensures BestRatio(targets, title) > 0.0 ==> exists t :: t in targets && TokenOverlapRatio(t, title) == BestRatio(targets, title)
  {
    hide TitleFamily, TokenOverlapRatio, Scaled;
    if targets != [] {
      var n := |targets| - 1;
      BestRatioIsMaximum(targets[..n], title);
      assert targets == targets[..n] + [targets[n]];
    }
  }

  /** The job's family is known and some target belongs to it. */
  predicate FamilyMatch(targets: seq<string>, title: string) {
    TitleFamily(title).Some? && exists t :: t in targets && TitleFamily(t) == TitleFamily(title)
  }

  function TitleScore(targets: seq<string>, title: string, weight: real): real {
    if targets == [] || FamilyMatch(targets, title) then weight
    else if BestRatio(targets, title) < PARTIAL_MATCH_FLOOR then 0.0
    else Scaled(weight, BestRatio(targets, title))
  }

  /** The first target of the job's family. */
  ghost predicate FirstInFamily(targets: seq<string>, title: string, i: int) {
    && 0 <= i < |targets| && TitleFamily(targets[i]) == TitleFamily(title)
    && forall j :: 0 <= j < i ==> TitleFamily(targets[j]) != TitleFamily(title)
  }

  /** The first target whose overlap with the title no other target exceeds. */
  ghost predicate FirstBest(targets: seq<string>, title: string, i: int) {
    && 0 <= i < |targets|
    && (forall j :: 0 <= j < |targets| ==> TokenOverlapRatio(targets[j], title) <= TokenOverlapRatio(targets[i], title))
    && (forall j :: 0 <= j < i ==> TokenOverlapRatio(targets[j], title) < TokenOverlapRatio(targets[i], title))
  }

  datatype TitleMatch = TitleMatch(score: real, matchedFamily: Option<string>, matchedTarget: Option<string>)

  method FindFamily(targets: seq<string>, title: string) returns (target: Option<string>)
    ensures target.None? ==> forall t :: t in targets ==> TitleFamily(t) != TitleFamily(title)
    ensures target.Some? ==> exists i :: FirstInFamily(targets, title, i) && target.value == targets[i]
  {
    hide TitleFamily;
    for i := 0 to |targets|
      invariant forall j :: 0 <= j < i ==> TitleFamily(targets[j]) != TitleFamily(title)
    {
      if TitleFamily(targets[i]) == TitleFamily(title) {
        assert FirstInFamily(targets, title, i);
        return Some(targets[i]);
      }
    }
    target := None;
  }

  method FindBest(targets: seq<string>, title: string) returns (bestRatio: real, bestTarget: Option<string>)
    ensures bestRatio == BestRatio(targets, title)
    ensures bestTarget.None? ==> bestRatio == 0.0
    ensures bestTarget.Some? ==> exists i :: FirstBest(targets, title, i) && bestTarget.value == targets[i]
  {
    hide TokenOverlapRatio;
    bestRatio, bestTarget := 0.0, None;
    ghost var best := 0;
    for i := 0 to |targets|
      invariant bestRatio == BestRatio(targets[..i], title)
      invariant bestTarget.None? ==> bestRatio == 0.0
      invariant bestTarget.Some? ==>
                  0 <= best < i && bestTarget == Some(targets[best]) && bestRatio == TokenOverlapRatio(targets[best], title)
      invariant forall j :: 0 <= j < i ==> TokenOverlapRatio(targets[j], title) <= bestRatio
      invariant bestTarget.Some? ==> forall j :: 0 <= j < best ==> TokenOverlapRatio(targets[j], title) < bestRatio
    {
      assert targets[..i + 1][..i] == targets[..i];
      var ratio := TokenOverlapRatio(targets[i], title);
      if ratio > bestRatio {
        bestRatio, bestTarget, best := ratio, Some(targets[i]), i;
      }
    }
    assert targets[..|targets|] == targets;
    assert bestTarget.Some? ==> FirstBest(targets, title, best);
  }

  method MatchTitle(targets: seq<string>, title: string, weight: real) returns (r: TitleMatch)
    ensures r.score == TitleScore(targets, title, weight)
    ensures r.matchedFamily == if targets == [] then None else TitleFamily(title)
    ensures FamilyMatch(targets, title) ==> exists i :: FirstInFamily(targets, title, i) && r.matchedTarget == Some(targets[i])
    ensures targets != [] && !FamilyMatch(targets, title) && BestRatio(targets, title) >= PARTIAL_MATCH_FLOOR ==>
              exists i :: FirstBest(targets, title, i) && r.matchedTarget == Some(targets[i])
    ensures targets == [] || (!FamilyMatch(targets, title) && BestRatio(targets, title) < PARTIAL_MATCH_FLOOR) ==>
              r.matchedTarget == None
  {
    hide TitleFamily, FirstBest, Scaled;
    if targets == [] {
      return TitleMatch(weight, None, None);
    }
    var jobFamily := TitleFamily(title);
    if jobFamily.Some? {
      var target := FindFamily(targets, title);
      if target.Some? {
        return TitleMatch(weight, jobFamily, target);
      }
    }
    var bestRatio, bestTarget := FindBest(targets, title);
    if bestRatio < PARTIAL_MATCH_FLOOR {
      return TitleMatch(0.0, jobFamily, None);
    }
    return TitleMatch(Scaled(weight, bestRatio), jobFamily, bestTarget);
  }

  /** The whole weight without targets or for a target of the job's family; otherwise the weight's share given by the largest overlap
      with a target, and nothing under 0.34. */
  lemma TitleScoreExactly(targets: seq<string>, title: string, weight: real, best: real)
    ensures targets == [] ==> TitleScore(targets, title, weight) == weight
    ensures (exists t :: t in targets && TitleFamily(t).Some? && TitleFamily(t) == TitleFamily(title)) ==>
              TitleScore(targets, title, weight) == weight
    ensures targets != [] && !(exists t :: t in targets && TitleFamily(t).Some? && TitleFamily(t) == TitleFamily(title))
            && (forall t :: t in targets ==> TokenOverlapRatio(t, title) <= best)
            && (exists t :: t in targets && TokenOverlapRatio(t, title) == best) ==>
              TitleScore(targets, title, weight) == if best < 0.34 then 0.0 else Scaled(weight, best)
  {
    hide TitleFamily, TokenOverlapRatio, Scaled;
    BestRatioIsMaximum(targets, title);
    if t :| t in targets && TokenOverlapRatio(t, title) == best && forall u :: u in targets ==> TokenOverlapRatio(u, title) <= best {
      OverlapNotNegative(t, title);
      assert BestRatio(targets, title) == best;
    }
  }

  lemma OverlapNotNegative(a: string, b: string)
    ensures TokenOverlapRatio(a, b) >= 0.0
  {
  }

  lemma TitleScoreBounded(targets: seq<string>, title: string, weight: real)
    requires weight >= 0.0 && OnGrid(weight)
    ensures 0.0 <= TitleScore(targets, title, weight) <= weight
  {
    hide TitleFamily, TokenOverlapRatio, Scaled;
    BestRatioIsMaximum(targets, title);
    ScaledWithin(weight, BestRatio(targets, title));
  }

  /** More target positions never lower the title score, in whatever order they are listed. */
  lemma TitleScoreMonotone(few: seq<string>, more: seq<string>, title: string, weight: real)
    requires weight >= 0.0 && OnGrid(weight)
    requires few != [] && forall t :: t in few ==> t in more
    ensures TitleScore(few, title, weight) <= TitleScore(more, title, weight)
  {
    hide TitleFamily, TokenOverlapRatio, Scaled;
    assert few[0] in more;
    TitleScoreBounded(few, title, weight);
    TitleScoreBounded(more, title, weight);
    if !FamilyMatch(more, title) {
      BestRatioIsMaximum(few, title);
      BestRatioIsMaximum(more, title);
      assert BestRatio(few, title) <= BestRatio(more, title);
      ScaledMonotone(weight, BestRatio(few, title), BestRatio(more, title));
    }
  }
}
