/** Tag stripping for HTML job descriptions whose entities have already been unescaped. */
module Html {
  import opened Text

  /** Some substring has the form `<`, one or more characters other than `>`, then `>`. */
  ghost predicate HasTag(s: string) {
    exists i, j :: TagAt(s, i, j)
  }

  /** The substring from `i` to `j` is a tag. */
  ghost predicate TagAt(s: string, i: int, j: int) {
    0 <= i && i + 1 < j < |s| && s[i] == '<' && s[j] == '>' && forall k :: i < k < j ==> s[k] != '>'
  }

  /** Whether a `<` just before `t` opens a tag. */
  predicate Closes(t: string) {
    t != [] && t[0] != '>' && '>' in t
  }

  /** What follows the first `>`. */
  function AfterGt(t: string): (r: string)
    requires '>' in t
    ensures |r| < |t| && r == t[|t| - |r|..] && t[|t| - |r| - 1] == '>'
    ensures '>' !in t[..|t| - |r| - 1]
  {
    if t[0] == '>' then t[1..] else AfterGt(t[1..])
  }

  /** `re.sub(r"<[^>]+>", " ", s)` */
  function StripTags(s: string): string
    decreases |s|
  {
    if s == [] then []
    else if s[0] == '<' && Closes(s[1..]) then " " + StripTags(AfterGt(s[1..]))
    else [s[0]] + StripTags(s[1..])
  }

  /** The two regular-expression passes and the trim, after unescaping. */
  function StripHtml(unescaped: string): string {
    Strip(Collapse(StripTags(unescaped)))
  }

  lemma ClosedHeadIsTag(s: string)
    requires s != [] && s[0] == '<' && Closes(s[1..])
    ensures HasTag(s)
  {
    var t := s[1..];
    var n := |t| - |AfterGt(t)|;
    assert t[n - 1] == '>' && '>' !in t[..n - 1];
    forall k | 0 < k < n ensures s[k] != '>' {
      assert s[k] == t[..n - 1][k - 1];
    }
    assert s[n] == t[n - 1];
    assert TagAt(s, 0, n);
  }

  lemma TagInTail(s: string)
    requires s != []
    ensures HasTag(s[1..]) ==> HasTag(s)
  {
    if HasTag(s[1..]) {
      HasTagWithin(s[..1], s[1..], []);
      assert s[..1] + s[1..] + [] == s;
    }
  }

  lemma HasTagUnfold(s: string)
    requires s != []
    ensures HasTag(s) <==> (s[0] == '<' && Closes(s[1..])) || HasTag(s[1..])
  {
    var t := s[1..];
    TagInTail(s);
    if s[0] == '<' && Closes(t) { ClosedHeadIsTag(s); }
    if HasTag(s) {
      var i, j :| TagAt(s, i, j);
      assert t[j - 1] == '>';
      if i > 0 {
        assert TagAt(t, i - 1, j - 1);
      } else {
        assert t[0] == s[1];
      }
    }
  }

  lemma HasTagWithin(a: string, b: string, c: string)
    requires HasTag(b)
    ensures HasTag(a + b + c)
  {
    var i, j :| TagAt(b, i, j);
    var s := a + b + c;
    forall k | |a| + i < k < |a| + j ensures s[k] != '>' {
      assert s[k] == b[k - |a|];
    }
    assert TagAt(s, |a| + i, |a| + j);
  }

  lemma {:induction false} StripTagsLeavesNoTag(s: string)
    ensures !HasTag(StripTags(s))
    ensures '>' in StripTags(s) ==> '>' in s
    decreases |s|
  {
    if s != [] {
      var r := StripTags(s);
      HasTagUnfold(r);
      if s[0] == '<' && Closes(s[1..]) {
        StripTagsLeavesNoTag(AfterGt(s[1..]));
        assert r[1..] == StripTags(AfterGt(s[1..]));
      } else {
        StripTagsLeavesNoTag(s[1..]);
        assert r[1..] == StripTags(s[1..]);
      }
    }
  }

  lemma {:induction false} StripTagsKeepsPlainText(s: string)
    requires !HasTag(s)
    ensures StripTags(s) == s
  {
    if s != [] {
      HasTagUnfold(s);
      StripTagsKeepsPlainText(s[1..]);
    }
  }

  /** The law of the pass: the first tag becomes one space, the text before it stays. */
  lemma {:induction false} StripTagsFirstTag(before: string, body: string, after: string)
    requires '<' !in before && body != [] && '>' !in body
    ensures StripTags(before + "<" + body + ">" + after) == before + " " + StripTags(after)
  {
    hide *;
    var s := before + "<" + body + ">" + after;
    if before == [] {
      assert s == "<" + (body + ">" + after);
      LeadingTag(body, after);
    } else {
      assert s[1..] == before[1..] + "<" + body + ">" + after;
      assert s[0] == before[0] != '<';
      StripTagsFirstTag(before[1..], body, after);
      KeepsCharacter(s);
    }
  }

  lemma KeepsCharacter(s: string)
    requires s != [] && s[0] != '<'
    ensures StripTags(s) == [s[0]] + StripTags(s[1..])
  {
  }

  lemma LeadingTag(body: string, after: string)
    requires body != [] && '>' !in body
    ensures StripTags("<" + (body + ">" + after)) == " " + StripTags(after)
  {
    var t := body + ">" + after;
    assert ("<" + t)[1..] == t;
    assert t[0] == body[0] && t[|body|] == '>';
    AfterGtSkips(body, after);
  }

  lemma {:induction false} AfterGtSkips(body: string, after: string)
    requires '>' !in body
    ensures '>' in body + ">" + after && AfterGt(body + ">" + after) == after
  {
    var t := body + ">" + after;
    assert t[|body|] == '>';
    if body != [] {
      assert t[1..] == body[1..] + ">" + after;
      AfterGtSkips(body[1..], after);
    }
  }

  lemma {:induction false} CollapseAddsNoTag(s: string)
    ensures HasTag(Collapse(s)) ==> HasTag(s)
    ensures '>' in Collapse(s) ==> '>' in s
    ensures s != [] ==> Collapse(s) != [] && (Collapse(s)[0] == '>' <==> s[0] == '>')
    decreases |s|
  {
    if s != [] {
      var r := Collapse(s);
      HasTagUnfold(r);
      HasTagUnfold(s);
      if IsSpace(s[0]) {
        var u := StripLeft(s[1..]);
        CollapseAddsNoTag(u);
        assert r[1..] == Collapse(u);
        StripLeftIsSuffix(s[1..]);
        if HasTag(u) {
          HasTagWithin(s[..|s| - |u|], u, []);
          assert s[..|s| - |u|] + u + [] == s;
        }
      } else {
        CollapseAddsNoTag(s[1..]);
        assert r[1..] == Collapse(s[1..]);
      }
    }
  }

  lemma StripAddsNoTag(s: string)
    requires HasTag(Strip(s))
    ensures HasTag(s)
  {
    var l := StripLeft(s);
    var r := StripRight(l);
    StripLeftIsSuffix(s);
    StripRightIsPrefix(l);
    HasTagWithin(s[..|s| - |l|], r, l[|r|..]);
    assert s == s[..|s| - |l|] + r + l[|r|..];
  }

  /** The description handed to the pipeline has no tag left, is tidily spaced, and is a fixed point. */
  lemma StripHtmlClean(unescaped: string)
    ensures var r := StripHtml(unescaped); !HasTag(r) && Tidy(r) && StripHtml(r) == r
    ensures StripHtml(unescaped) == Join(Words(StripTags(unescaped)))
  {
    var t := StripTags(unescaped);
    var r := StripHtml(unescaped);
    StripTagsLeavesNoTag(unescaped);
    CollapseAddsNoTag(t);
    if HasTag(r) { StripAddsNoTag(Collapse(t)); }
    CollapseStripIsJoinedWords(t);
    JoinedWordsTidy(t);
    StripTagsKeepsPlainText(r);
    CollapseTidy(r);
  }
}
