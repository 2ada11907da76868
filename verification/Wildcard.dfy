// The glob matcher behind the text atoms of the in-memory back end (memory/wildcard.go), and what it can be
// relied on for.
module Wildcard {
  import opened GlobSearch
  import AtMostOne = GlobZeroOrOne
  import Exactly = GlobExactlyOne

  // What an answer says, for every pattern and string: only matches are found if '?' may be empty, every
  // match is found if it may not, and in either reading the answer is exact for the patterns that meet the
  // condition for it.  For other patterns it is not (ExactIffGivesBack and ExactIffAllTaken).
  ghost predicate Correct(p: string, s: string, r: bool) {
    && (r ==> Matches(ZeroOrOne, p, s))
    && (Matches(ExactlyOne, p, s) ==> r)
    && (AtMostOne.AllGiveBack(p) ==> (r <==> Matches(ZeroOrOne, p, s)))
    && (Exactly.AllTaken(p) ==> (r <==> Matches(ExactlyOne, p, s)))
  }

  // Main theorem: whatever the matcher answers is correct.
  lemma {:induction false} AnswerIsCorrect(p: string, s: string, r: bool)
    requires Computes(p, s, r)
    ensures Correct(p, s, r)
  {
    hide Computes, Matches, AtMostOne.AllGiveBack, Exactly.AllTaken;
    if r {
      FindsOnlyMatches(p, s);
      if Exactly.AllTaken(p) {
        Exactly.FindsOnlyMatches(p, s);
      }
    }
    if Matches(ExactlyOne, p, s) {
      Exactly.FindsEveryMatch(p, s, r);
    }
    if AtMostOne.AllGiveBack(p) && Matches(ZeroOrOne, p, s) {
      AtMostOne.FindsEveryMatch(p, s, r);
    }
  }

  // A '?' that has taken the last byte does not give it back when the string ends before the pattern.
  lemma {:induction false} MissesAMatch()
    ensures Matches(ZeroOrOne, "?a", "a") && Computes("?a", "a", false) && !Computes("?a", "a", true)
  {
    var p, s := "?a", "a";
    assert MatchFrom(ZeroOrOne, p, 2, s, 1);
    assert MatchFrom(ZeroOrOne, p, 1, s, 0);
    var v := START.(pi := 1, si := 1, mark := 0, markByte := 'a');
    assert Step(p, s, START) == Goes(v);
    assert !IsWild(p[1]);
    assert IsRun(p, s, [START, v]) && Step(p, s, [START, v][1]) == Answered(false);
    assert Computes(p, s, false);
    if Computes(p, s, true) {
      AnswerIsUnique(p, s, true, false);
    }
  }

  // Documented as one character, a '?' that ends the pattern is accepted as none.
  lemma {:induction false} AcceptsNone()
    ensures Computes("a?", "a", true) && !Matches(ExactlyOne, "a?", "a")
  {
    var p, s := "a?", "a";
    var v := START.(pi := 1, si := 1);
    assert Step(p, s, START) == Goes(v);
    assert IsRun(p, s, [START, v]) && Step(p, s, [START, v][1]) == Answered(true);
    assert !MatchFrom(ExactlyOne, p, 1, s, 1);
  }

  // A pattern without wildcards from j up to a '*' that ends it matches where those characters occur.
  lemma {:induction false} LiteralsThenStar(m: Mark, p: string, j: nat, s: string, x: nat)
    requires j < |p| && x <= |s| && p[|p| - 1] == '*'
    requires forall i :: j <= i < |p| - 1 ==> !IsWild(p[i])
    ensures MatchFrom(m, p, j, s, x) <==> p[j..|p| - 1] <= s[x..]
    decreases |p| - j
  {
    if j == |p| - 1 {
      assert MatchFrom(m, p, j + 1, s, |s|);
      StarSkips(m, p, j, s, x, |s|);
    } else if x < |s| && s[x] == p[j] {
      LiteralsThenStar(m, p, j + 1, s, x + 1);
      assert p[j..|p| - 1] == [p[j]] + p[j + 1..|p| - 1] && s[x..] == [s[x]] + s[x + 1..];
    } else {
      assert p[j..|p| - 1][0] == p[j] && (x < |s| ==> s[x..][0] == s[x]);
    }
  }

  lemma {:induction false} StarStops(m: Mark, p: string, s: string, x: nat) returns (y: nat)
    requires p != "" && p[0] == '*' && x <= |s| && MatchFrom(m, p, 0, s, x)
    ensures x <= y <= |s| && MatchFrom(m, p, 1, s, y)
    decreases |s| - x
  {
    if MatchFrom(m, p, 1, s, x) {
      y := x;
    } else {
      y := StarStops(m, p, s, x + 1);
    }
  }

  // The text occurs in the value.
  ghost predicate Occurs(text: string, value: string) {
    exists x :: 0 <= x <= |value| && text <= value[x..]
  }

  // A plain term between two stars asks for a substring, in every reading of '?'.
  lemma {:induction false} PlainTermIsSubstring(m: Mark, term: string, value: string)
    requires forall i :: 0 <= i < |term| ==> !IsWild(term[i])
    ensures Matches(m, "*" + term + "*", value) <==> Occurs(term, value)
    ensures AtMostOne.AllGiveBack("*" + term + "*")
  {
    var p := "*" + term + "*";
    assert forall i :: 1 <= i < |p| - 1 ==> p[i] == term[i - 1];
    assert p[1..|p| - 1] == term;
    if Matches(m, p, value) {
      var y := StarStops(m, p, value, 0);
      LiteralsThenStar(m, p, 1, value, y);
    }
    if x :| 0 <= x <= |value| && term <= value[x..] {
      LiteralsThenStar(m, p, 1, value, x);
      StarSkips(m, p, 0, value, 0, x);
    }
  }

  // wildcardMatch.  The source's gotos become one loop; `low` and `tried` exist only for termination:
  // no pattern position before `low` is visited again, and since the last move of the '*' every '?'
  // before `tried` has been given up.
  method WildcardMatch(pattern: string, s: string) returns (r: bool)
    ensures Computes(pattern, s, r)
    ensures Correct(pattern, s, r)
  {
    if pattern == "" {
      r := s == pattern;
      AnswerIsCorrect(pattern, s, r);
      return;
    }
    if pattern == "*" || s == pattern {
      AnswerIsCorrect(pattern, s, true);
      return true;
    }
    r := Scan(pattern, s);
    AnswerIsCorrect(pattern, s, r);
  }

  method Scan(pattern: string, s: string) returns (r: bool)
    requires pattern != "" && pattern != "*" && pattern != s
    ensures Computes(pattern, s, r)
  {
    hide Reaches, Computes;
    var patternIndex, sIndex: nat, lastStar: nat, lastEroteme: nat := 0, 0, 0, 0;
    var star, eroteme, lastErotemeByte := -1, -1, '\0';
    ghost var low, tried, v := 0, 0, START;
    StartIsReached(pattern, s);
    while sIndex < |s|
      invariant v == Search(patternIndex, sIndex, star, lastStar, eroteme, lastEroteme, lastErotemeByte)
      invariant InRange(pattern, s, v) && Reaches(pattern, s, v)
      invariant low <= patternIndex && (star >= 0 ==> low <= star) && (eroteme >= 0 ==> low <= eroteme)
      invariant tried <= patternIndex && (eroteme >= 0 ==> tried <= eroteme)
      decreases |pattern| - low, |pattern| - (if patternIndex <= star then -1 else star), |s| - lastStar,
                |pattern| - tried, |pattern| - patternIndex
    {
      if patternIndex >= |pattern| {
        if star == -1 {
          AnswerIsReached(pattern, s, v, false);
          return false;
        }
        patternIndex := star + 1;
        lastStar := lastStar + 1;
        sIndex := lastStar;
        tried := 0;
      } else if pattern[patternIndex] == '?' {
        eroteme := patternIndex;
        lastEroteme := sIndex;
        lastErotemeByte := s[sIndex];
        patternIndex := patternIndex + 1;
        sIndex := sIndex + 1;
      } else if pattern[patternIndex] == '*' {
        star := patternIndex;
        lastStar := sIndex;
        patternIndex := patternIndex + 1;
      } else if pattern[patternIndex] != s[sIndex] {
        if eroteme != -1 {
          low, tried := if eroteme < star then eroteme + 1 else low, eroteme + 1;
          patternIndex := eroteme + 1;
          sIndex := lastEroteme;
          eroteme := -1;
        } else if star != -1 {
          patternIndex := star + 1;
          lastStar := lastStar + 1;
          sIndex := lastStar;
          tried := 0;
        } else {
          AnswerIsReached(pattern, s, v, false);
          return false;
        }
      } else {
        if eroteme != -1 && lastErotemeByte != s[sIndex] {
          eroteme := -1;
        }
        patternIndex := patternIndex + 1;
        sIndex := sIndex + 1;
      }
      ghost var w := Search(patternIndex, sIndex, star, lastStar, eroteme, lastEroteme, lastErotemeByte);
      NextIsReached(pattern, s, v, w);
      v := w;
    }

    while patternIndex < |pattern| && IsWild(pattern[patternIndex])
      invariant v.pi <= patternIndex <= |pattern|
      invariant forall i :: v.pi <= i < patternIndex ==> IsWild(pattern[i])
    {
      patternIndex := patternIndex + 1;
    }
    r := patternIndex == |pattern|;
    AnswerIsReached(pattern, s, v, r);
  }
}
