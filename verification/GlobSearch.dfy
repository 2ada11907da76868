// The glob search behind the text atoms of the in-memory back end (memory/wildcard.go): how a pattern reads,
// how the search moves, and that it finds only real matches.
//
// A byte is modelled as a char; every statement ranges over all strings, so over all byte strings.
module GlobSearch {

  // How '?' reads: as exactly one byte, which is what the matcher documents, or as at most one.
  datatype Mark = ZeroOrOne | ExactlyOne

  predicate IsWild(c: char) {
    c == '*' || c == '?'
  }

  predicate Wilds(p: string, i: nat, j: nat)
    requires i <= j <= |p|
  {
    forall k :: i <= k < j ==> IsWild(p[k])
  }

  // The pattern from index j on matches the string from index x on.
  ghost predicate MatchFrom(m: Mark, p: string, j: nat, s: string, x: nat)
    requires j <= |p| && x <= |s|
    decreases |p| - j, |s| - x
  {
    if j == |p| then x == |s|
    else if p[j] == '*' then
      MatchFrom(m, p, j + 1, s, x) || (x < |s| && MatchFrom(m, p, j, s, x + 1))
    else if p[j] == '?' then
      || (m.ZeroOrOne? && MatchFrom(m, p, j + 1, s, x))
      || (x < |s| && MatchFrom(m, p, j + 1, s, x + 1))
    else
      x < |s| && s[x] == p[j] && MatchFrom(m, p, j + 1, s, x + 1)
  }

  ghost predicate Matches(m: Mark, p: string, s: string) {
    MatchFrom(m, p, 0, s, 0)
  }

  // The first j pattern characters match the first x string characters.
  ghost predicate MatchUpTo(m: Mark, p: string, j: nat, s: string, x: nat)
    requires j <= |p| && x <= |s|
    decreases j, x
  {
    if j == 0 then x == 0
    else if p[j - 1] == '*' then
      MatchUpTo(m, p, j - 1, s, x) || (x > 0 && MatchUpTo(m, p, j, s, x - 1))
    else if p[j - 1] == '?' then
      || (m.ZeroOrOne? && MatchUpTo(m, p, j - 1, s, x))
      || (x > 0 && MatchUpTo(m, p, j - 1, s, x - 1))
    else
      x > 0 && s[x - 1] == p[j - 1] && MatchUpTo(m, p, j - 1, s, x - 1)
  }

  // Some match of the whole pattern is, after j pattern characters, at string position x.
  ghost predicate Through(m: Mark, p: string, s: string, j: nat, x: nat)
    requires j <= |p| && x <= |s|
  {
    MatchUpTo(m, p, j, s, x) && MatchFrom(m, p, j, s, x)
  }

  // No match of the whole pattern has reached pattern position j before string position x.
  ghost predicate Floor(m: Mark, p: string, s: string, j: nat, x: nat)
    requires j <= |p|
  {
    forall y: nat :: y <= |s| && Through(m, p, s, j, y) ==> x <= y
  }

  // A '*' may swallow the string up to any later position.
  lemma {:induction false} StarSkips(m: Mark, p: string, j: nat, s: string, x: nat, y: nat)
    requires j < |p| && p[j] == '*' && x <= y <= |s|
    requires MatchFrom(m, p, j + 1, s, y)
    ensures MatchFrom(m, p, j, s, x)
    decreases y - x
  {
    if x < y {
      StarSkips(m, p, j, s, x + 1, y);
    }
  }

  lemma {:induction false} StarCovers(m: Mark, p: string, j: nat, s: string, x: nat, y: nat)
    requires j < |p| && p[j] == '*' && x <= y <= |s|
    requires MatchUpTo(m, p, j, s, x)
    ensures MatchUpTo(m, p, j + 1, s, y)
    decreases y
  {
    if x < y {
      StarCovers(m, p, j, s, x, y - 1);
    }
  }

  // What a '*' left of position x swallowed can be given back.
  lemma {:induction false} StarStart(m: Mark, p: string, j: nat, s: string, x: nat) returns (y: nat)
    requires j < |p| && p[j] == '*' && x <= |s|
    requires Through(m, p, s, j + 1, x)
    ensures y <= x && Through(m, p, s, j, y)
    decreases x
  {
    y := x;
    while !MatchUpTo(m, p, j, s, y)
      decreases y
      invariant y <= x && MatchUpTo(m, p, j + 1, s, y)
      invariant MatchFrom(m, p, j, s, y)
    {
      y := y - 1;
    }
  }

  lemma {:induction false} StarEnd(m: Mark, p: string, j: nat, s: string, x: nat) returns (y: nat)
    requires j < |p| && p[j] == '*' && x <= |s|
    requires Through(m, p, s, j, x)
    ensures x <= y <= |s| && Through(m, p, s, j + 1, y)
  {
    y := x;
    while !MatchFrom(m, p, j + 1, s, y)
      decreases |s| - y
      invariant x <= y <= |s| && MatchFrom(m, p, j, s, y)
      invariant MatchUpTo(m, p, j + 1, s, y)
    {
      y := y + 1;
    }
  }

  // A match of the whole pattern passes every pattern position.
  lemma {:induction false} PassesEvery(m: Mark, p: string, s: string, j: nat) returns (x: nat)
    requires j <= |p| && Matches(m, p, s)
    ensures x <= |s| && Through(m, p, s, j, x)
    decreases j
  {
    if j == 0 {
      x := 0;
    } else {
      var y := PassesEvery(m, p, s, j - 1);
      if p[j - 1] == '*' {
        x := StarEnd(m, p, j - 1, s, y);
      } else if p[j - 1] == '?' && m.ZeroOrOne? && MatchFrom(m, p, j, s, y) {
        x := y;
      } else {
        x := y + 1;
      }
    }
  }

  // A run of wildcards that matches keeps matching when the string loses its first character.
  lemma {:induction false} TailShrinks(p: string, j: nat, s: string, x: nat)
    requires j <= |p| && x < |s|
    requires Wilds(p, j, |p|)
    requires MatchFrom(ZeroOrOne, p, j, s, x)
    ensures MatchFrom(ZeroOrOne, p, j, s, x + 1)
    ensures j < |p| && p[j] == '?' ==> MatchFrom(ZeroOrOne, p, j + 1, s, x + 1)
    decreases |p| - j, |s| - x
  {
    if j < |p| && MatchFrom(ZeroOrOne, p, j + 1, s, x) {
      TailShrinks(p, j + 1, s, x);
    } else if j < |p| && p[j] == '*' && x + 1 < |s| {
      TailShrinks(p, j, s, x + 1);
    } else if j < |p| && p[j] == '*' {
      assert MatchFrom(ZeroOrOne, p, j, s, x + 1);
    }
  }

  lemma {:induction false} TailMatchesNothing(p: string, j: nat, s: string)
    requires j <= |p| && Wilds(p, j, |p|)
    ensures MatchFrom(ZeroOrOne, p, j, s, |s|)
    decreases |p| - j
  {
    if j < |p| {
      TailMatchesNothing(p, j + 1, s);
    }
  }

  lemma {:induction false} NothingNeedsTail(m: Mark, p: string, j: nat, s: string)
    requires j <= |p| && MatchFrom(m, p, j, s, |s|)
    ensures Wilds(p, j, |p|)
    decreases |p| - j
  {
    if j < |p| {
      NothingNeedsTail(m, p, j + 1, s);
    }
  }

  lemma {:induction false} MatchesItself(m: Mark, p: string, j: nat)
    requires j <= |p|
    ensures MatchFrom(m, p, j, p, j)
    decreases |p| - j
  {
    if j < |p| {
      MatchesItself(m, p, j + 1);
      if p[j] == '*' {
        StarSkips(m, p, j, p, j, j + 1);
      }
    }
  }

  lemma {:induction false} StarMatchesAll(m: Mark, s: string, x: nat)
    requires x <= |s|
    ensures MatchFrom(m, "*", 0, s, x)
  {
    assert MatchFrom(m, "*", 1, s, |s|);
    StarSkips(m, "*", 0, s, x, |s|);
  }

  // The first literal from i on, or the end.
  lemma {:induction false} FirstLiteral(p: string, i: nat) returns (k: nat)
    requires i <= |p|
    ensures i <= k <= |p| && Wilds(p, i, k) && (k < |p| ==> !IsWild(p[k]))
    decreases |p| - i
  {
    k := i;
    if i < |p| && IsWild(p[i]) {
      k := FirstLiteral(p, i + 1);
    }
  }

  // ---------------------------------------------------------------- the search

  // The variables of the search: `star`/`mark` are the pattern positions of the last '*' and of the last
  // '?' still to be given up (-1: none), `starAt`/`markAt` the string positions that go with them,
  // `markByte` the byte that '?' took.
  datatype Search = Search(pi: nat, si: nat, star: int, starAt: nat, mark: int, markAt: nat, markByte: char)

  const START := Search(0, 0, -1, 0, -1, 0, '\0')

  datatype Outcome = Answered(r: bool) | Goes(v: Search)

  // One pass of the loop.
  function Step(p: string, s: string, v: Search): (o: Outcome)
    requires InRange(p, s, v)
    ensures o.Goes? ==> InRange(p, s, o.v)
  {
    if v.si == |s| then Answered(Wilds(p, v.pi, |p|))
    else if v.pi == |p| then
      if v.star >= 0 then Goes(StarTakesMore(v)) else Answered(false)
    else if p[v.pi] == '?' then
      Goes(v.(pi := v.pi + 1, si := v.si + 1, mark := v.pi, markAt := v.si, markByte := s[v.si]))
    else if p[v.pi] == '*' then
      Goes(v.(pi := v.pi + 1, star := v.pi, starAt := v.si))
    else if p[v.pi] != s[v.si] then
      if v.mark >= 0 then Goes(v.(pi := v.mark + 1, si := v.markAt, mark := -1))
      else if v.star >= 0 then Goes(StarTakesMore(v)) else Answered(false)
    else
      Goes(v.(pi := v.pi + 1, si := v.si + 1,
              mark := if v.mark >= 0 && v.markByte != s[v.si] then -1 else v.mark))
  }

  function StarTakesMore(v: Search): Search
    requires v.star >= 0
  {
    v.(pi := v.star + 1, starAt := v.starAt + 1, si := v.starAt + 1)
  }

  // The loop, run from START to its answer.
  ghost predicate IsRun(p: string, s: string, path: seq<Search>) {
    && |path| > 0 && path[0] == START
    && (forall i :: 0 <= i < |path| ==> InRange(p, s, path[i]))
    && (forall i :: 1 <= i < |path| ==> Step(p, s, path[i - 1]) == Goes(path[i]))
  }

  // r is what the matcher answers.
  ghost predicate Computes(p: string, s: string, r: bool) {
    if p == "" then r == (s == "")
    else if p == "*" || s == p then r
    else exists path :: IsRun(p, s, path) && Step(p, s, path[|path| - 1]) == Answered(r)
  }

  predicate InRange(p: string, s: string, v: Search) {
    && v.pi <= |p| && v.si <= |s|
    && -1 <= v.star < |p| && v.starAt <= |s| && (v.star >= 0 ==> p[v.star] == '*')
    && -1 <= v.mark < |p| && v.markAt <= |s| && (v.mark >= 0 ==> p[v.mark] == '?')
    && (v.star >= 0 && v.starAt == |s| ==> v.si == |s|)
  }

  // Any match of the pattern from j on, of any end of the string from x on, completes a real match.
  ghost predicate Resumes(p: string, s: string, j: nat, x: nat)
    requires j <= |p|
  {
    forall y: nat :: x <= y <= |s| && MatchFrom(ZeroOrOne, p, j, s, y) ==> Matches(ZeroOrOne, p, s)
  }

  // Every position the search may resume from leads only to real matches.
  ghost predicate Sound(p: string, s: string, v: Search)
    requires InRange(p, s, v)
  {
    && (MatchFrom(ZeroOrOne, p, v.pi, s, v.si) ==> Matches(ZeroOrOne, p, s))
    && (v.star >= 0 ==> Resumes(p, s, v.star + 1, v.starAt))
    && (v.mark >= 0 && MatchFrom(ZeroOrOne, p, v.mark, s, v.markAt) ==> Matches(ZeroOrOne, p, s))
  }

  // Moving past one pattern character that takes exactly one string character.
  lemma {:induction false} OneStep(m: Mark, p: string, s: string, j: nat, x: nat)
    requires j < |p| && x < |s|
    requires if p[j] == '?' then m.ExactlyOne? else p[j] == s[x] && p[j] != '*'
    ensures Through(m, p, s, j, x) <==> Through(m, p, s, j + 1, x + 1)
  {
  }

  lemma {:induction false} FloorStep(m: Mark, p: string, s: string, j: nat, x: nat)
    requires j < |p| && x < |s|
    requires p[j] != '*' && (p[j] == '?' ==> m.ExactlyOne?)
    requires Floor(m, p, s, j, x)
    ensures Floor(m, p, s, j + 1, x + 1)
  {
    var i := j + 1;
    forall y: nat | y <= |s| && Through(m, p, s, i, y)
      ensures x + 1 <= y
    {
      OneStep(m, p, s, j, y - 1);
    }
  }

  lemma {:induction false} FloorStar(m: Mark, p: string, s: string, j: nat, x: nat)
    requires j < |p| && p[j] == '*'
    requires Floor(m, p, s, j, x)
    ensures Floor(m, p, s, j + 1, x)
  {
    var i := j + 1;
    forall y: nat | y <= |s| && Through(m, p, s, i, y)
      ensures x <= y
    {
      var z := StarStart(m, p, j, s, y);
    }
  }

  // ---------------------------------------------------------------- only real matches

  lemma {:induction false} SoundAtStar(p: string, s: string, v: Search)
    requires InRange(p, s, v) && Sound(p, s, v)
    requires v.pi < |p| && v.si < |s| && p[v.pi] == '*'
    ensures Sound(p, s, v.(pi := v.pi + 1, star := v.pi, starAt := v.si))
  {
    var i := v.pi + 1;
    forall y: nat | v.si <= y <= |s| && MatchFrom(ZeroOrOne, p, i, s, y)
      ensures Matches(ZeroOrOne, p, s)
    {
      StarSkips(ZeroOrOne, p, v.pi, s, v.si, y);
    }
  }

  lemma {:induction false} SoundMove(p: string, s: string, v: Search, w: Search)
    requires InRange(p, s, v) && v.si < |s| && Sound(p, s, v) && Step(p, s, v) == Goes(w)
    ensures Sound(p, s, w)
  {
    if v.pi < |p| && p[v.pi] == '*' {
      SoundAtStar(p, s, v);
    }
  }

  // The search gets to v.
  ghost predicate Reaches(p: string, s: string, v: Search) {
    exists path :: IsRun(p, s, path) && path[|path| - 1] == v
  }

  lemma StartIsReached(p: string, s: string)
    ensures Reaches(p, s, START)
  {
    assert IsRun(p, s, [START]);
  }

  lemma NextIsReached(p: string, s: string, v: Search, w: Search)
    requires InRange(p, s, v) && Reaches(p, s, v) && Step(p, s, v) == Goes(w)
    ensures Reaches(p, s, w)
  {
    var path :| IsRun(p, s, path) && path[|path| - 1] == v;
    assert IsRun(p, s, path + [w]);
  }

  lemma AnswerIsReached(p: string, s: string, v: Search, r: bool)
    requires p != "" && p != "*" && p != s
    requires InRange(p, s, v) && Reaches(p, s, v) && Step(p, s, v) == Answered(r)
    ensures Computes(p, s, r)
  {
  }

  // The search ends: no pattern position before `low` is visited again, and since the last move of the '*'
  // every '?' before `tried` has been given up.
  lemma {:induction false} AnswerExists(p: string, s: string) returns (r: bool)
    ensures Computes(p, s, r)
  {
    if p == "" || p == "*" || s == p {
      r := s == p || p == "*";
      return;
    }
    hide Reaches, Computes;
    var v, low, tried := START, 0, 0;
    StartIsReached(p, s);
    while Step(p, s, v).Goes?
      invariant InRange(p, s, v) && Reaches(p, s, v)
      invariant low <= v.pi && (v.star >= 0 ==> low <= v.star) && (v.mark >= 0 ==> low <= v.mark)
      invariant tried <= v.pi && (v.mark >= 0 ==> tried <= v.mark)
      decreases |p| - low, |p| - (if v.pi <= v.star then -1 else v.star), |s| - v.starAt,
                |p| - tried, |p| - v.pi
    {
      var w := Step(p, s, v).v;
      if v.pi < |p| && !IsWild(p[v.pi]) && p[v.pi] != s[v.si] && v.mark >= 0 {
        low, tried := if v.mark < v.star then v.mark + 1 else low, v.mark + 1;
      } else if v.pi == |p| || (!IsWild(p[v.pi]) && p[v.pi] != s[v.si]) {
        tried := 0;
      }
      NextIsReached(p, s, v, w);
      v := w;
    }
    r := Step(p, s, v).r;
    AnswerIsReached(p, s, v, r);
  }

  // The answer is a function of pattern and string.
  lemma {:induction false} AnswerIsUnique(p: string, s: string, r: bool, q: bool)
    requires Computes(p, s, r) && Computes(p, s, q)
    ensures r == q
  {
    if p != "" && p != "*" && s != p {
      var a: seq<Search> :| IsRun(p, s, a) && Step(p, s, a[|a| - 1]) == Answered(r);
      var b: seq<Search> :| IsRun(p, s, b) && Step(p, s, b[|b| - 1]) == Answered(q);
      var i := 0;
      while i + 1 < |a| && i + 1 < |b|
        invariant i < |a| && i < |b| && a[i] == b[i]
      {
        i := i + 1;
        assert Step(p, s, a[i - 1]) == Goes(a[i]) && Step(p, s, b[i - 1]) == Goes(b[i]);
      }
      assert i + 1 < |a| ==> Step(p, s, a[i]) == Goes(a[i + 1]);
      assert i + 1 < |b| ==> Step(p, s, b[i]) == Goes(b[i + 1]);
    }
  }

  // What holds at the start and is kept by every pass of the loop holds along a run.
  lemma {:induction false} AlongRun(p: string, s: string, path: seq<Search>, inv: Search -> bool)
    requires IsRun(p, s, path) && inv(START)
    requires forall v, w :: InRange(p, s, v) && v.si < |s| && inv(v) && Step(p, s, v) == Goes(w) ==> inv(w)
    ensures inv(path[|path| - 1])
    decreases |path|
  {
    if |path| > 1 {
      var front := path[..|path| - 1];
      assert IsRun(p, s, front);
      AlongRun(p, s, front, inv);
      assert Step(p, s, path[|path| - 2]) == Goes(path[|path| - 1]);
      assert path[|path| - 2].si < |s|;
    }
  }

  // The answer true is given for matches only, with '?' read as at most one byte.
  lemma {:induction false} FindsOnlyMatches(p: string, s: string)
    requires Computes(p, s, true)
    ensures Matches(ZeroOrOne, p, s)
  {
    if p == "*" {
      StarMatchesAll(ZeroOrOne, s, 0);
    } else if s == p {
      MatchesItself(ZeroOrOne, p, 0);
    } else if p != "" {
      var path: seq<Search> :| IsRun(p, s, path) && Step(p, s, path[|path| - 1]) == Answered(true);
      var inv := v => InRange(p, s, v) && Sound(p, s, v);
      forall v, w | InRange(p, s, v) && v.si < |s| && inv(v) && Step(p, s, v) == Goes(w)
        ensures inv(w)
      {
        SoundMove(p, s, v, w);
      }
      AlongRun(p, s, path, inv);
      TailMatchesNothing(p, path[|path| - 1].pi, s);
    }
  }
}
