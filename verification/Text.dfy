/** The string primitives the components share. Letters fold in the ASCII range only. */
module Text {
  /** The characters for which Python's `str.isspace` holds; also the class `\s` of its regular expressions. */
  predicate IsSpace(c: char) {
    var n := c as int;
    || 0x9 <= n <= 0xD || 0x1C <= n <= 0x20 || n == 0x85 || n == 0xA0 || n == 0x1680
    || 0x2000 <= n <= 0x200A || n == 0x2028 || n == 0x2029 || n == 0x202F || n == 0x205F || n == 0x3000
  }

  function LowerChar(c: char): char {
    if 'A' <= c <= 'Z' then (c as int + 32) as char else c
  }

  function Lower(s: string): (r: string)
    ensures |r| == |s|
  {
    seq(|s|, i requires 0 <= i < |s| => LowerChar(s[i]))
  }

  /** Capital letters go to the small letter in the same place of the alphabet; everything else, spaces included, stays. */
  lemma LowerExactly(s: string, i: nat)
    requires i < |s|
    ensures 'A' <= s[i] <= 'Z' ==> 'a' <= Lower(s)[i] <= 'z' && Lower(s)[i] as int - 'a' as int == s[i] as int - 'A' as int
    ensures !('A' <= s[i] <= 'Z') ==> Lower(s)[i] == s[i]
    ensures IsSpace(Lower(s)[i]) <==> IsSpace(s[i])
    ensures Lower(Lower(s)) == Lower(s)
  {
  }

  /** Among the ASCII characters, blanks are the six written ones and the four separators. */
  lemma BlanksExactly(c: char)
    requires c as int < 128
    ensures IsSpace(c) <==> c in {' ', '\t', '\n', '\r', '\U{0B}', '\U{0C}', '\U{1C}', '\U{1D}', '\U{1E}', '\U{1F}'}
  {
  }

  function StripLeft(s: string): (r: string)
    ensures |r| <= |s|
    ensures r == [] || !IsSpace(r[0])
  {
    if s != [] && IsSpace(s[0]) then StripLeft(s[1..]) else s
  }

  function StripRight(s: string): (r: string)
    ensures |r| <= |s|
    ensures r == [] || !IsSpace(r[|r| - 1])
  {
    if s != [] && IsSpace(s[|s| - 1]) then StripRight(s[..|s| - 1]) else s
  }

  /** `s.strip()` */
  function Strip(s: string): string {
    StripRight(StripLeft(s))
  }

  lemma {:induction false} StripLeftIsSuffix(s: string)
    ensures StripLeft(s) == s[|s| - |StripLeft(s)|..]
    ensures forall c :: c in StripLeft(s) ==> c in s
  {
    if s != [] && IsSpace(s[0]) { StripLeftIsSuffix(s[1..]); }
  }

  lemma {:induction false} StripRightIsPrefix(s: string)
    ensures StripRight(s) == s[..|StripRight(s)|]
  {
    if s != [] && IsSpace(s[|s| - 1]) { StripRightIsPrefix(s[..|s| - 1]); }
  }

  predicate AllSpace(s: string) {
    forall i :: 0 <= i < |s| ==> IsSpace(s[i])
  }

  lemma {:induction false} StripLeftDrops(s: string)
    ensures AllSpace(s[..|s| - |StripLeft(s)|])
  {
    if s != [] && IsSpace(s[0]) {
      StripLeftDrops(s[1..]);
      var dropped, n := s[1..][..|s| - 1 - |StripLeft(s[1..])|], |s| - |StripLeft(s)|;
      assert s[..n] == [s[0]] + dropped;
    }
  }

  lemma {:induction false} StripRightDrops(s: string)
    ensures AllSpace(s[|StripRight(s)|..])
  {
    if s != [] && IsSpace(s[|s| - 1]) {
      var front := s[..|s| - 1];
      StripRightDrops(front);
      StripRightIsPrefix(front);
      assert s[|StripRight(s)|..] == front[|StripRight(s)|..] + [s[|s| - 1]];
    }
  }

  /** Trimming drops exactly the blanks at the two ends. */
  lemma StripExactly(s: string) returns (front: string, back: string)
    ensures s == front + Strip(s) + back && AllSpace(front) && AllSpace(back)
    ensures Strip(s) != [] ==> !IsSpace(Strip(s)[0]) && !IsSpace(Strip(s)[|Strip(s)| - 1])
  {
    var l := StripLeft(s);
    StripLeftIsSuffix(s);
    StripLeftDrops(s);
    StripRightIsPrefix(l);
    StripRightDrops(l);
    front, back := s[..|s| - |l|], l[|StripRight(l)|..];
  }

  lemma BlankExactly(s: string)
    ensures Strip(s) == [] <==> AllSpace(s)
  {
    hide Strip, IsSpace;
    var front, back := StripExactly(s);
    if Strip(s) != [] {
      assert s[|front|] == Strip(s)[0];
    } else {
      assert s == front + back;
    }
  }

  /** `re.sub(r"\s+", " ", s)` */
  function Collapse(s: string): string
    decreases |s|
  {
    if s == [] then []
    else if IsSpace(s[0]) then " " + Collapse(StripLeft(s[1..]))
    else [s[0]] + Collapse(s[1..])
  }

  /** `a < b`: the order of strings by their characters. */
  predicate Before(a: string, b: string) {
    b != [] && (a == [] || a[0] < b[0] || (a[0] == b[0] && Before(a[1..], b[1..])))
  }

  lemma {:induction false} BeforeTotal(a: string, b: string)
    ensures a != b ==> (Before(a, b) <==> !Before(b, a))
    ensures !Before(a, a)
  {
    if a != [] {
      BeforeTotal(a[1..], a[1..]);
      if b != [] && a[0] == b[0] {
        BeforeTotal(a[1..], b[1..]);
        assert a == [a[0]] + a[1..] && b == [b[0]] + b[1..];
      }
    }
  }

  lemma {:induction false} BeforeTransitive(a: string, b: string, c: string)
    requires Before(a, b) && Before(b, c)
    ensures Before(a, c)
  {
    if a != [] && a[0] == b[0] == c[0] { BeforeTransitive(a[1..], b[1..], c[1..]); }
  }

  /** The order of strings: at the first place where they differ the smaller character comes first, and a beginning comes before the
      whole. */
  lemma {:induction false} BeforeExactly(a: string, b: string) returns (k: nat)
    ensures k <= |a| && k <= |b| && a[..k] == b[..k]
    ensures a == b || k == |a| || k == |b| || a[k] != b[k]
    ensures Before(a, b) <==> (k < |b| && (k == |a| || (k < |a| && a[k] < b[k])))
  {
    if a == [] || b == [] || a[0] != b[0] {
      k := 0;
    } else {
      var rest := BeforeExactly(a[1..], b[1..]);
      k := rest + 1;
      assert a[..k] == [a[0]] + a[1..][..rest] && b[..k] == [b[0]] + b[1..][..rest];
    }
  }

  predicate OccursAt(hay: string, i: nat, needle: string) {
    i + |needle| <= |hay| && hay[i..i + |needle|] == needle
  }

  /** `needle in hay` */
  predicate Contains(hay: string, needle: string) {
    exists i :: 0 <= i <= |hay| && OccursAt(hay, i, needle)
  }

  /** `needle` is in `hay` exactly when `hay` can be cut around it. */
  lemma ContainsExactly(hay: string, needle: string)
    ensures Contains(hay, needle) <==> exists front, back :: hay == front + needle + back
  {
    if Contains(hay, needle) {
      var i :| 0 <= i <= |hay| && OccursAt(hay, i, needle);
      assert hay == hay[..i] + needle + hay[i + |needle|..];
    }
    if front, back :| hay == front + needle + back {
      assert hay[|front|..|front| + |needle|] == needle;
      assert OccursAt(hay, |front|, needle);
    }
  }

  predicate NoSpace(w: string) {
    forall i :: 0 <= i < |w| ==> !IsSpace(w[i])
  }

  /** The longest prefix without whitespace. */
  function FirstWord(s: string): (r: string)
    ensures |r| <= |s| && r == s[..|r|]
    ensures NoSpace(r)
    ensures |r| == |s| || IsSpace(s[|r|])
    ensures s != [] && !IsSpace(s[0]) ==> r != []
  {
    if s == [] || IsSpace(s[0]) then [] else [s[0]] + FirstWord(s[1..])
  }

  /** `s.split()` */
  function Words(s: string): seq<string>
    decreases |s|
  {
    var t := StripLeft(s);
    if t == [] then []
    else
      var w := FirstWord(t);
      [w] + Words(t[|w|..])
  }

  /** `" ".join(words)` */
  function Join(words: seq<string>): string {
    if words == [] then []
    else if |words| == 1 then words[0]
    else words[0] + " " + Join(words[1..])
  }

  /** Single spaces between words, nothing at either end. */
  ghost predicate Tidy(s: string) {
    && (forall i :: 0 <= i < |s| && IsSpace(s[i]) ==> s[i] == ' ' && 0 < i < |s| - 1 && !IsSpace(s[i + 1]))
  }

  lemma {:induction false} StripLeftAcross(a: string, c: char, b: string)
    requires IsSpace(c)
    ensures StripLeft(a + [c] + b) == if StripLeft(a) == [] then StripLeft(b) else StripLeft(a) + [c] + b
  {
    var s := a + [c] + b;
    if a == [] {
      assert s[1..] == b;
    } else if IsSpace(a[0]) {
      assert s[1..] == a[1..] + [c] + b;
      StripLeftAcross(a[1..], c, b);
    }
  }

  lemma {:induction false} FirstWordAcross(a: string, c: char, b: string)
    requires IsSpace(c)
    ensures FirstWord(a + [c] + b) == FirstWord(a)
  {
    if a != [] && !IsSpace(a[0]) {
      assert (a + [c] + b)[1..] == a[1..] + [c] + b;
      FirstWordAcross(a[1..], c, b);
    }
  }

  /** The law of splitting: words on either side of a blank are split apart, a text without blanks is one word, nothing has none. */
  lemma {:induction false} WordsExactly(a: string, c: char, b: string)
    requires IsSpace(c)
    ensures Words(a + [c] + b) == Words(a) + Words(b)
    ensures Words([]) == []
    ensures a != [] && NoSpace(a) ==> Words(a) == [a]
    decreases |a|
  {
    hide *;
    var t, s := StripLeft(a), a + [c] + b;
    StripLeftAcross(a, c, b);
    StripLeftIsSuffix(a);
    NoWords();
    if t == [] {
      WordsSkipBlanks(s, b);
      BlankHasNoWords(a);
      assert Words(a) + Words(b) == Words(b);
      StartsWithWord(a);
    } else {
      var w := FirstWord(t);
      FirstWordAcross(t, c, b);
      var rest := t[|w|..];
      assert (t + [c] + b)[|w|..] == rest + [c] + b;
      LeftIsNotBlank(a);
      WordsExactly(rest, c, b);
      WordsUnfold(a);
      WordsUnfold(s);
      assert [w] + Words(rest) + Words(b) == [w] + (Words(rest) + Words(b));
      if NoSpace(a) {
        StartsWithWord(a);
        assert rest == [];
      }
    }
  }

  lemma NoWords()
    ensures Words([]) == []
  {
  }

  lemma BlankHasNoWords(a: string)
    requires StripLeft(a) == []
    ensures Words(a) == []
  {
  }

  lemma StartsWithWord(a: string)
    ensures a != [] && NoSpace(a) ==> StripLeft(a) == a && FirstWord(a) == a
  {
    if a != [] && NoSpace(a) { WholeWord(a); }
  }

  lemma LeftIsNotBlank(a: string)
    requires StripLeft(a) != []
    ensures !IsSpace(StripLeft(a)[0]) && FirstWord(StripLeft(a)) != []
    ensures |StripLeft(a)| <= |a|
  {
  }

  lemma WordsSkipBlanks(s: string, b: string)
    requires StripLeft(s) == StripLeft(b)
    ensures Words(s) == Words(b)
  {
    if StripLeft(s) != [] {
      WordsUnfold(s);
      WordsUnfold(b);
    }
  }

  lemma WholeWord(a: string)
    requires NoSpace(a)
    ensures FirstWord(a) == a
  {
    assert |FirstWord(a)| == |a|;
  }

  lemma {:induction false} CollapseWord(w: string, t: string)
    requires NoSpace(w)
    ensures Collapse(w + t) == w + Collapse(t)
  {
    if w == [] {
      assert w + t == t;
    } else {
      assert (w + t)[1..] == w[1..] + t;
      CollapseWord(w[1..], t);
    }
  }

  lemma {:induction false} StripRightSuffix(a: string, b: string)
    ensures StripRight(b) != [] ==> StripRight(a + b) == a + StripRight(b)
    ensures StripRight(b) == [] ==> StripRight(a + b) == StripRight(a)
  {
    if b == [] {
      assert a + b == a;
    } else if IsSpace(b[|b| - 1]) {
      assert (a + b)[..|a + b| - 1] == a + b[..|b| - 1];
      StripRightSuffix(a, b[..|b| - 1]);
    }
  }

  lemma {:induction false} CollapseKeepsEnds(s: string)
    requires s != [] && !IsSpace(s[0])
    ensures Collapse(s) != [] && Collapse(s)[0] == s[0]
    ensures StripLeft(Collapse(s)) == Collapse(s)
    ensures StripRight(Collapse(s)) != []
  {
    StripRightSuffix([s[0]], Collapse(s[1..]));
    assert StripRight([s[0]]) == [s[0]];
  }

  lemma StripSpace(x: string)
    ensures Strip(" " + x) == Strip(x)
  {
    assert (" " + x)[1..] == x;
  }

  lemma StripLeadingSpace(s: string)
    ensures Strip(Collapse(s)) == Strip(Collapse(StripLeft(s)))
  {
    if s != [] && IsSpace(s[0]) {
      StripSpace(Collapse(StripLeft(s[1..])));
    }
  }

  /** What is left of the text after its first word, once runs are collapsed and the end trimmed. */
  lemma StripTail(rest: string)
    requires rest == [] || IsSpace(rest[0])
    ensures StripLeft(rest) == [] ==> StripRight(Collapse(rest)) == []
    ensures StripLeft(rest) != [] ==> StripRight(Collapse(rest)) == " " + Strip(Collapse(rest))
  {
    if rest != [] {
      var u := StripLeft(rest[1..]);
      assert StripLeft(rest) == u;
      assert Collapse(rest) == " " + Collapse(u);
      StripRightSuffix(" ", Collapse(u));
      if u == [] {
        StripRightSuffix([], " ");
      } else {
        CollapseKeepsEnds(u);
        StripSpace(Collapse(u));
      }
    }
  }

  lemma WordsUnfold(s: string)
    requires StripLeft(s) != []
    ensures var w := FirstWord(StripLeft(s)); Words(s) == [w] + Words(StripLeft(s)[|w|..])
  {
  }

  lemma JoinCons(w: string, ws: seq<string>)
    ensures Join([w] + ws) == if ws == [] then w else w + " " + Join(ws)
  {
    if ws != [] {
      assert ([w] + ws)[1..] == ws;
    }
  }

  /** Collapsing runs of whitespace and trimming is the same as splitting into words and joining them. */
  lemma {:induction false} CollapseStripIsJoinedWords(s: string)
    ensures Strip(Collapse(s)) == Join(Words(s))
    decreases |s|
  {
    var t := StripLeft(s);
    StripLeadingSpace(s);
    if t != [] {
      var w := FirstWord(t);
      var rest := t[|w|..];
      CollapseStripIsJoinedWords(rest);
      WordsUnfold(s);
      JoinCons(w, Words(rest));
      OneWordThenRest(t, w, rest);
      assert Words(rest) == [] <==> StripLeft(rest) == [];
    }
  }

  lemma OneWordThenRest(t: string, w: string, rest: string)
    requires t == w + rest && w != [] && NoSpace(w) && (rest == [] || IsSpace(rest[0]))
    ensures Strip(Collapse(t)) == if StripLeft(rest) == [] then w else w + " " + Strip(Collapse(rest))
  {
    CollapseWord(w, rest);
    assert t[0] == w[0];
    CollapseKeepsEnds(t);
    StripRightSuffix(w, Collapse(rest));
    StripTail(rest);
    assert StripRight(w) == w;
  }

  lemma TidyCons(w: string, j: string)
    requires w != [] && NoSpace(w)
    requires Tidy(j) && j != []
    ensures Tidy(w + " " + j)
  {
    var r := w + " " + j;
    assert !IsSpace(j[0]);
    forall i | 0 <= i < |r| && IsSpace(r[i])
      ensures r[i] == ' ' && 0 < i < |r| - 1 && !IsSpace(r[i + 1])
    {
      if i > |w| {
        var k := i - |w| - 1;
        assert IsSpace(j[k]);
        assert j[k + 1] == r[i + 1];
      }
    }
  }

  lemma {:induction false} JoinedWordsTidy(s: string)
    ensures Tidy(Join(Words(s)))
    ensures Words(s) != [] ==> Join(Words(s)) != []
    decreases |s|
  {
    var t := StripLeft(s);
    if t != [] {
      var w := FirstWord(t);
      var rest := t[|w|..];
      JoinedWordsTidy(rest);
      WordsUnfold(s);
      JoinCons(w, Words(rest));
      if Words(rest) != [] {
        TidyCons(w, Join(Words(rest)));
      } else {
        assert Tidy(w);
      }
    }
  }

  lemma {:induction false} CollapseTidy(s: string)
    requires Tidy(s)
    ensures Collapse(s) == s && Strip(s) == s
  {
    CollapseSingles(s);
    if s != [] {
      assert !IsSpace(s[0]) && !IsSpace(s[|s| - 1]);
    }
  }

  lemma {:induction false} CollapseSingles(s: string)
    requires forall i :: 0 <= i < |s| && IsSpace(s[i]) ==> s[i] == ' ' && i < |s| - 1 && !IsSpace(s[i + 1])
    ensures Collapse(s) == s
  {
    if s != [] {
      forall i | 0 <= i < |s| - 1 && IsSpace(s[1..][i])
        ensures s[1..][i] == ' ' && i < |s| - 2 && !IsSpace(s[1..][i + 1])
      {
        assert s[1..][i] == s[i + 1];
      }
      CollapseSingles(s[1..]);
      if IsSpace(s[0]) {
        assert !IsSpace(s[1]);
        assert StripLeft(s[1..]) == s[1..];
      }
    }
  }
}
