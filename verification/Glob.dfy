/**
 Channel patterns: PubSubManager's PatternMatches (src/astra/server/worker.hpp) against the glob
 language it stands for, in which '*' matches any text and '?' any one character.
 */
module Glob {
  import opened Common

  /** The glob language. */
  predicate Matches(p: string, c: string)
    decreases |p| + |c|
  {
    if p == "" then c == ""
    else if p[0] == '*' then Matches(p[1..], c) || (c != "" && Matches(p, c[1..]))
    else c != "" && (p[0] == '?' || p[0] == c[0]) && Matches(p[1..], c[1..])
  }

  predicate OccursAt(c: string, s: string, i: nat) { i + |s| <= |c| && c[i..i + |s|] == s }

  predicate Contains(c: string, s: string) { exists i: nat | i <= |c| :: OccursAt(c, s, i) }

  /** Text before the first '*' or '?'. */
  function LiteralHead(p: string): string {
    if p == "" || p[0] == '*' || p[0] == '?' then "" else [p[0]] + LiteralHead(p[1..])
  }

  predicate HasPrefix(c: string, s: string) { |c| >= |s| && c[..|s|] == s }

  predicate HasSuffix(c: string, s: string) { |c| >= |s| && c[|c| - |s|..] == s }

  /** What the server computes. */
  predicate PatternMatches(p: string, c: string) {
    if p == "*" then true
    else if '*' !in p && '?' !in p then c == p
    else
      match Find(p, '*', 0)
      case None => Contains(c, LiteralHead(p))
      case Some(i) =>
        if Find(p, '*', i + 1).Some? then Contains(c, LiteralHead(p))
        else if i == 0 then HasSuffix(c, p[1..])
        else if i == |p| - 1 then HasPrefix(c, p[..i])
        else |c| >= |p| - 1 && HasPrefix(c, p[..i]) && HasSuffix(c, p[i + 1..])
  }

  // ----- Facts about the glob language -----

  predicate Plain(s: string) { '*' !in s && '?' !in s }

  predicate AllStars(p: string) { forall i | 0 <= i < |p| :: p[i] == '*' }

  lemma {:induction false} PlainHead(s: string, rest: string, c: string)
    requires Plain(s)
    ensures Matches(s + rest, c) <==> HasPrefix(c, s) && Matches(rest, c[|s|..])
    decreases |s|
  {
    if s == "" {
      assert s + rest == rest && c[0..] == c && c[..0] == "";
    } else {
      assert s[0] in s && s == [s[0]] + s[1..];
      assert (s + rest)[0] == s[0] && (s + rest)[1..] == s[1..] + rest;
      if c != "" {
        PlainHead(s[1..], rest, c[1..]);
        assert HasPrefix(c, s) <==> c[0] == s[0] && HasPrefix(c[1..], s[1..]) by {
          assert |c| >= |s| ==> c[..|s|] == [c[0]] + c[1..][..|s| - 1];
        }
        assert |c| >= |s| ==> c[1..][|s[1..]|..] == c[|s|..];
      }
    }
  }

  lemma PlainIsEquality(s: string, c: string)
    requires Plain(s)
    ensures Matches(s, c) <==> c == s
  {
    PlainHead(s, "", c);
    assert s + "" == s;
    assert |c| >= |s| ==> c == c[..|s|] + c[|s|..];
  }

  lemma {:induction false} StarSuffix(s: string, c: string)
    requires Plain(s)
    ensures Matches("*" + s, c) <==> HasSuffix(c, s)
    decreases |c|
  {
    assert ("*" + s)[1..] == s;
    PlainIsEquality(s, c);
    if c == "" {
      assert c[|c|..] == "";
    } else {
      StarSuffix(s, c[1..]);
      SuffixStep(s, c);
    }
  }

  lemma SuffixStep(s: string, c: string)
    requires c != ""
    ensures HasSuffix(c, s) <==> c == s || HasSuffix(c[1..], s)
  {
    assert |c| > |s| ==> c[|c| - |s|..] == c[1..][|c[1..]| - |s|..];
    assert |c| == |s| ==> c[0..] == c;
  }

  lemma {:induction false} MatchesEmpty(p: string)
    ensures Matches(p, "") <==> AllStars(p)
  {
    if p != "" {
      MatchesEmpty(p[1..]);
      assert p == [p[0]] + p[1..];
    }
  }

  lemma {:induction false} AllStarsMatchAll(p: string, c: string)
    requires AllStars(p) && p != ""
    ensures Matches(p, c)
    decreases |c|
  {
    if c == "" {
      MatchesEmpty(p);
    } else {
      AllStarsMatchAll(p, c[1..]);
    }
  }

  lemma {:induction false} WithoutStarSameLength(p: string, c: string)
    requires '*' !in p && Matches(p, c)
    ensures |c| == |p|
  {
    if p != "" {
      assert p[0] in p;
      WithoutStarSameLength(p[1..], c[1..]);
    }
  }

  /** A text the pattern matches: stars dropped, question marks filled in. */
  function Fill(p: string): string {
    if p == "" then ""
    else (if p[0] == '*' then "" else if p[0] == '?' then "a" else [p[0]]) + Fill(p[1..])
  }

  lemma {:induction false} FillMatches(p: string)
    ensures Matches(p, Fill(p)) && '?' !in Fill(p)
  {
    if p != "" {
      FillMatches(p[1..]);
      if p[0] != '*' {
        assert Fill(p)[1..] == Fill(p[1..]);
      } else {
        assert Fill(p) == Fill(p[1..]);
      }
    }
  }

  lemma {:induction false} HeadIsPrefix(p: string)
    ensures |LiteralHead(p)| <= |p| && LiteralHead(p) == p[..|LiteralHead(p)|]
    ensures Plain(LiteralHead(p))
    ensures |LiteralHead(p)| < |p| ==> p[|LiteralHead(p)|] == '*' || p[|LiteralHead(p)|] == '?'
  {
    if p != "" && p[0] != '*' && p[0] != '?' {
      var h := LiteralHead(p[1..]);
      HeadIsPrefix(p[1..]);
      assert LiteralHead(p) == [p[0]] + h;
      assert p[..|h| + 1] == [p[0]] + p[1..][..|h|];
    }
  }

  // ----- Where the server is right -----

  /** At most one star and no question mark, or nothing but stars. */
  predicate Supported(p: string) {
    AllStars(p) || ('?' !in p && forall i, j | 0 <= i < j < |p| :: p[i] != '*' || p[j] != '*')
  }

  lemma OneStar(p: string, i: nat, c: string)
    requires i < |p| && p[i] == '*' && Plain(p[..i]) && Plain(p[i + 1..])
    ensures Matches(p, c) <==> |c| >= |p| - 1 && HasPrefix(c, p[..i]) && HasSuffix(c, p[i + 1..])
  {
    var pre, suf := p[..i], p[i + 1..];
    assert p == pre + ("*" + suf);
    PlainHead(pre, "*" + suf, c);
    if |c| >= i {
      StarSuffix(suf, c[i..]);
      assert |c| >= i + |suf| ==> c[i..][|c[i..]| - |suf|..] == c[|c| - |suf|..];
    }
  }

  lemma SupportedIsRight(p: string, c: string)
    requires Supported(p)
    ensures PatternMatches(p, c) <==> Matches(p, c)
  {
    if Plain(p) {
      PlainIsEquality(p, c);
    } else if AllStars(p) {
      AllStarsMatchAll(p, c);
      StarsAccepted(p, c);
    } else {
      var i := Find(p, '*', 0).value;
      SplitAtStar(p, i);
      OneStar(p, i, c);
      assert i == 0 ==> p[..i] == "" && c[..0] == "";
      assert i == |p| - 1 ==> p[i + 1..] == "" && c[|c|..] == "";
    }
  }

  lemma SplitAtStar(p: string, i: nat)
    requires '?' !in p && forall j, k | 0 <= j < k < |p| :: p[j] != '*' || p[k] != '*'
    requires i < |p| && p[i] == '*'
    ensures Plain(p[..i]) && Plain(p[i + 1..])
    ensures Find(p, '*', i + 1).None?
  {
    forall j | 0 <= j < |p| && j != i ensures p[j] != '*' && p[j] != '?' {
      assert p[j] in p;
    }
  }

  lemma StarsAccepted(p: string, c: string)
    requires AllStars(p) && p != ""
    ensures PatternMatches(p, c)
  {
    assert p[0] in p;
    assert OccursAt(c, LiteralHead(p), 0);
    FindIs(p, '*', 0, 0);
    if |p| > 1 {
      FindIs(p, '*', 1, 1);
    } else {
      assert p == "*";
    }
  }

  // ----- And where it is wrong -----

  /** Some channel on which the server and the glob language disagree. */
  function Counterexample(p: string): string {
    var head := LiteralHead(p);
    if '*' !in p then head
    else if '?' in p && Find(p, '*', Find(p, '*', 0).value + 1).None? then Fill(p)
    else if head == "" then ""
    else Shifted(head)
  }

  lemma QuestionWithoutStar(p: string)
    requires '*' !in p && '?' in p
    ensures PatternMatches(p, LiteralHead(p)) && !Matches(p, LiteralHead(p))
  {
    var head := LiteralHead(p);
    HeadIsPrefix(p);
    assert OccursAt(head, head, 0);
    assert |head| < |p| by {
      assert |head| == |p| ==> head == p;
    }
    if Matches(p, head) {
      WithoutStarSameLength(p, head);
    }
  }

  lemma NeedsQuestionMark(c: string, s: string)
    requires '?' in s && '?' !in c
    ensures !HasPrefix(c, s) && !HasSuffix(c, s)
  {
    var j :| 0 <= j < |s| && s[j] == '?';
    if |c| >= |s| {
      assert c[..|s|][j] in c && c[|c| - |s|..][j] in c;
    }
  }

  lemma RefusedWithoutQuestionMark(p: string, c: string)
    requires '*' in p && '?' in p && Find(p, '*', Find(p, '*', 0).value + 1).None? && '?' !in c
    ensures !PatternMatches(p, c)
  {
    var i := Find(p, '*', 0).value;
    var j :| 0 <= j < |p| && p[j] == '?';
    if j < i {
      assert p[..i][j] == '?';
      NeedsQuestionMark(c, p[..i]);
    } else {
      assert p[i + 1..][j - i - 1] == '?';
      NeedsQuestionMark(c, p[i + 1..]);
    }
  }

  lemma QuestionWithOneStar(p: string)
    requires '*' in p && '?' in p && Find(p, '*', Find(p, '*', 0).value + 1).None?
    ensures !PatternMatches(p, Fill(p)) && Matches(p, Fill(p))
  {
    FillMatches(p);
    RefusedWithoutQuestionMark(p, Fill(p));
  }

  /** A channel that has the text in it but does not start with it. */
  function Shifted(head: string): string
    requires head != ""
  {
    [if head[0] == 'a' then 'b' else 'a'] + head
  }

  lemma ShiftedIsNoMatch(head: string, rest: string)
    requires head != "" && Plain(head)
    ensures Contains(Shifted(head), head) && !Matches(head + rest, Shifted(head))
  {
    var c := Shifted(head);
    assert OccursAt(c, head, 1) by { assert c[1..] == head; }
    PlainHead(head, rest, c);
    assert c[..|head|][0] != head[0];
  }

  lemma FallbackContains(p: string, c: string)
    requires '*' in p && Find(p, '*', Find(p, '*', 0).value + 1).Some?
    ensures PatternMatches(p, c) <==> Contains(c, LiteralHead(p))
  {
    assert p != "*";
  }

  lemma ManyStarsNoHead(p: string)
    requires '*' in p && Find(p, '*', Find(p, '*', 0).value + 1).Some? && !AllStars(p) && LiteralHead(p) == ""
    ensures PatternMatches(p, "") && !Matches(p, "")
  {
    assert OccursAt("", "", 0);
    FallbackContains(p, "");
    MatchesEmpty(p);
  }

  lemma ManyStarsWithHead(p: string, head: string, rest: string)
    requires '*' in p && Find(p, '*', Find(p, '*', 0).value + 1).Some?
    requires head != "" && LiteralHead(p) == head && Plain(head) && p == head + rest
    ensures PatternMatches(p, Shifted(head)) && !Matches(p, Shifted(head))
  {
    FallbackContains(p, Shifted(head));
    ShiftedIsNoMatch(head, rest);
  }

  lemma ManyStars(p: string)
    requires '*' in p && Find(p, '*', Find(p, '*', 0).value + 1).Some? && !AllStars(p)
    ensures var head := LiteralHead(p);
      var c := if head == "" then "" else Shifted(head);
      PatternMatches(p, c) && !Matches(p, c)
  {
    if LiteralHead(p) == "" {
      ManyStarsNoHead(p);
    } else {
      var rest := HeadAndRest(p);
      ManyStarsWithHead(p, LiteralHead(p), rest);
    }
  }

  lemma HeadAndRest(p: string) returns (rest: string)
    ensures p == LiteralHead(p) + rest && Plain(LiteralHead(p))
  {
    HeadIsPrefix(p);
    rest := p[|LiteralHead(p)|..];
  }

  /**
   The server's matching is glob matching on every channel if and only if the pattern has no '?' and
   at most one '*', or consists of stars only.
   */
  lemma PatternMatchesExactly(p: string)
    ensures (forall c :: PatternMatches(p, c) <==> Matches(p, c)) <==> Supported(p)
  {
    if Supported(p) {
      forall c ensures PatternMatches(p, c) <==> Matches(p, c) {
        SupportedIsRight(p, c);
      }
    } else {
      Disagrees(p);
    }
  }

  lemma Disagrees(p: string)
    requires !Supported(p)
    ensures PatternMatches(p, Counterexample(p)) <==> !Matches(p, Counterexample(p))
  {
    if '*' !in p {
      QuestionWithoutStar(p);
    } else if Find(p, '*', Find(p, '*', 0).value + 1).None? {
      OnlyOneStar(p);
      QuestionWithOneStar(p);
    } else {
      ManyStars(p);
    }
  }

  lemma OnlyOneStar(p: string)
    requires '*' in p && Find(p, '*', Find(p, '*', 0).value + 1).None?
    ensures forall j, k | 0 <= j < k < |p| :: p[j] != '*' || p[k] != '*'
  {
    var i := Find(p, '*', 0).value;
    forall j, k | 0 <= j < k < |p| ensures p[j] != '*' || p[k] != '*' {
      assert j < i ==> p[j] == p[0..i][j];
      assert k > i ==> p[k] == p[i + 1..][k - i - 1];
    }
  }
}
