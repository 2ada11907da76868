// When the glob search is exact for '?' as exactly one byte, the reading memory/wildcard.go documents.
//
// The search finds every match in this reading.  It also accepts strings that are too short for it, because
// it lets a '?' stay empty at the end of the string and takes its byte back after a mismatch.  It is exact
// for a pattern if and only if neither can happen: there is no '?', or what follows the first '?' is
// wildcards and then one and the same literal up to the end.
module GlobExactlyOne {
  import opened GlobSearch

  // ---------------------------------------------------------------- the condition

  predicate NoMarks(p: string) {
    forall i :: 0 <= i < |p| ==> p[i] != '?'
  }

  // From q on there is only the literal p[q], and before q only wildcards behind the first '?'.
  predicate OneLiteral(p: string, q: nat) {
    && q < |p| && !IsWild(p[q]) && (forall j :: q <= j < |p| ==> p[j] == p[q])
    && forall i :: 0 <= i < q && p[i] == '?' ==> Wilds(p, i, q)
  }

  predicate AllTaken(p: string) {
    NoMarks(p) || exists q :: 0 <= q < |p| && OneLiteral(p, q)
  }

  // ---------------------------------------------------------------- every match

  // The current branch is alive whenever the current placement of the last '*' is.
  ghost predicate OnTrack(p: string, s: string, v: Search)
    requires InRange(p, s, v)
  {
    if v.star < 0 then Matches(ExactlyOne, p, s) ==> Through(ExactlyOne, p, s, v.pi, v.si)
    else Through(ExactlyOne, p, s, v.star + 1, v.starAt) ==> Through(ExactlyOne, p, s, v.pi, v.si)
  }

  // No match has been overtaken.
  ghost predicate Complete(p: string, s: string, v: Search) {
    && InRange(p, s, v) && OnTrack(p, s, v) && Floor(ExactlyOne, p, s, v.pi, v.si)
    && (v.star >= 0 ==> Floor(ExactlyOne, p, s, v.star + 1, v.starAt))
    && (v.mark >= 0 ==> Floor(ExactlyOne, p, s, v.mark, v.markAt))
  }

  lemma {:induction false} FloorMark(p: string, s: string, j: nat, x: nat)
    requires j < |p| && p[j] == '?'
    requires Floor(ExactlyOne, p, s, j, x)
    ensures Floor(ExactlyOne, p, s, j + 1, x)
  {
    var i := j + 1;
    forall y: nat | y <= |s| && Through(ExactlyOne, p, s, i, y)
      ensures x <= y
    {
      OneStep(ExactlyOne, p, s, j, y - 1);
    }
  }

  lemma {:induction false} CompleteMove(p: string, s: string, v: Search, w: Search)
    requires Complete(p, s, v) && v.si < |s| && Step(p, s, v) == Goes(w)
    ensures Complete(p, s, w)
  {
    if v.pi < |p| && p[v.pi] == '*' {
      FloorStar(ExactlyOne, p, s, v.pi, v.si);
    } else if v.pi < |p| && (p[v.pi] == '?' || p[v.pi] == s[v.si]) {
      FloorStep(ExactlyOne, p, s, v.pi, v.si);
      OneStep(ExactlyOne, p, s, v.pi, v.si);
    } else {
      assert !MatchFrom(ExactlyOne, p, v.pi, s, v.si);
      if v.mark >= 0 {
        FloorMark(p, s, v.mark, v.markAt);
      }
    }
  }

  // Every match with '?' as one byte is found, whatever the pattern.
  lemma {:induction false} FindsEveryMatch(p: string, s: string, r: bool)
    requires Matches(ExactlyOne, p, s) && Computes(p, s, r)
    ensures r
  {
    if p != "" && p != "*" && s != p {
      var path: seq<Search> :| IsRun(p, s, path) && Step(p, s, path[|path| - 1]) == Answered(r);
      var inv := v => Complete(p, s, v);
      forall v, w | InRange(p, s, v) && v.si < |s| && inv(v) && Step(p, s, v) == Goes(w) ensures inv(w) {
        CompleteMove(p, s, v, w);
      }
      AlongRun(p, s, path, inv);
      var v := path[|path| - 1];
      if v.si == |s| {
        var z := PassesEvery(ExactlyOne, p, s, v.pi);
        NothingNeedsTail(ExactlyOne, p, v.pi, s);
      }
    }
  }

  // ---------------------------------------------------------------- only matches

  lemma {:induction false} SameReading(p: string, j: nat, s: string, x: nat)
    requires j <= |p| && x <= |s| && NoMarks(p)
    ensures MatchFrom(ZeroOrOne, p, j, s, x) ==> MatchFrom(ExactlyOne, p, j, s, x)
    decreases |p| - j, |s| - x
  {
    if j < |p| {
      SameReading(p, j + 1, s, x);
      if x < |s| {
        SameReading(p, j + 1, s, x + 1);
        SameReading(p, j, s, x + 1);
      }
    }
  }

  // `last` is the last '?' and q the first of the literals that end the pattern.
  predicate Ends(p: string, last: nat, q: nat) {
    && last < q && OneLiteral(p, q) && p[last] == '?' && (forall k :: last < k < q ==> p[k] == '*')
    && forall i :: 0 <= i < |p| && p[i] == '?' ==> i <= last && Wilds(p, i, q)
  }

  // What is left of the string from x on are just the literals from q on.
  predicate JustEnough(p: string, s: string, q: nat, x: nat)
    requires q < |p|
  {
    x <= |s| && |s| - x == |p| - q && forall k :: x <= k < |s| ==> s[k] == p[q]
  }

  ghost predicate Leads(p: string, s: string, j: nat, x: nat)
    requires j <= |p| && x <= |s|
  {
    MatchFrom(ExactlyOne, p, j, s, x) ==> Matches(ExactlyOne, p, s)
  }

  ghost predicate StarLeads(p: string, s: string, j: nat, x: nat)
    requires j <= |p|
  {
    forall y: nat :: x <= y <= |s| ==> Leads(p, s, j, y)
  }

  // Every position the search may resume from leads only to matches; if not, because the '?' at `last` leaves too
  // little, there will be no mismatch to resume after.
  ghost predicate Sound(p: string, s: string, v: Search, last: nat, q: nat)
    requires Ends(p, last, q)
  {
    && InRange(p, s, v) && Leads(p, s, v.pi, v.si)
    && (v.star >= 0 ==> StarLeads(p, s, v.star + 1, v.starAt))
    && (0 <= v.mark < last ==> v.mark < v.pi <= last)
    && (v.mark == last ==> if JustEnough(p, s, q, v.markAt) then Fresh(v, last, q) else Leads(p, s, last + 1, v.markAt))
  }

  predicate Fresh(v: Search, last: nat, q: nat) {
    last < v.pi && v.si == v.markAt + 1 + if v.pi <= q then 0 else v.pi - q
  }

  // The literals that end the pattern match from x on: they are the rest of the string.
  lemma {:induction false} LiteralsLeft(p: string, q: nat, j: nat, s: string, x: nat)
    requires OneLiteral(p, q) && q <= j <= |p| && x <= |s| && MatchFrom(ExactlyOne, p, j, s, x)
    ensures |s| - x == |p| - j && forall k :: x <= k < |s| ==> s[k] == p[q]
    decreases |p| - j
  {
    if j < |p| {
      LiteralsLeft(p, q, j + 1, s, x + 1);
    }
  }

  // Stars and then literals that match from x on, but not tightly, also match from x + 1 on.
  lemma {:induction false} Looser(p: string, q: nat, j: nat, s: string, x: nat)
    requires OneLiteral(p, q) && j <= q && (forall k :: j <= k < q ==> p[k] == '*')
    requires x <= |s| && MatchFrom(ExactlyOne, p, j, s, x) && !JustEnough(p, s, q, x)
    ensures x < |s| && MatchFrom(ExactlyOne, p, j, s, x + 1)
    decreases q - j
  {
    if j == q {
      LiteralsLeft(p, q, j, s, x);
    } else if MatchFrom(ExactlyOne, p, j + 1, s, x) {
      Looser(p, q, j + 1, s, x);
    }
  }

  lemma {:induction false} SoundMark(p: string, s: string, v: Search, w: Search, last: nat, q: nat)
    requires Ends(p, last, q) && Sound(p, s, v, last, q) && v.si < |s| && v.pi < |p| && p[v.pi] == '?'
    requires Step(p, s, v) == Goes(w)
    ensures Sound(p, s, w, last, q)
  {
    if v.pi == last && !JustEnough(p, s, q, v.si) && MatchFrom(ExactlyOne, p, last + 1, s, v.si) {
      Looser(p, q, last + 1, s, v.si);
    }
  }

  lemma {:induction false} SoundStar(p: string, s: string, v: Search, w: Search, last: nat, q: nat)
    requires Ends(p, last, q) && Sound(p, s, v, last, q) && v.si < |s| && v.pi < |p| && p[v.pi] == '*'
    requires Step(p, s, v) == Goes(w)
    ensures Sound(p, s, w, last, q)
  {
    var i: nat := w.star + 1;
    forall y: nat | w.starAt <= y <= |s| ensures Leads(p, s, i, y) {
      if MatchFrom(ExactlyOne, p, i, s, y) {
        StarSkips(ExactlyOne, p, v.pi, s, v.si, y);
      }
    }
  }

  lemma {:induction false} SoundMove(p: string, s: string, v: Search, w: Search, last: nat, q: nat)
    requires Ends(p, last, q) && Sound(p, s, v, last, q) && v.si < |s| && Step(p, s, v) == Goes(w)
    ensures Sound(p, s, w, last, q)
  {
    if v.pi < |p| && p[v.pi] == '?' {
      SoundMark(p, s, v, w, last, q);
    } else if v.pi < |p| && p[v.pi] == '*' {
      SoundStar(p, s, v, w, last, q);
    } else {
      assert 0 <= v.mark < last && v.pi < |p| ==> v.pi <= last < q && !IsWild(p[v.pi]);
    }
  }

  lemma {:induction false} FirstMark(p: string) returns (i: nat)
    requires !NoMarks(p)
    ensures i < |p| && p[i] == '?' && forall j :: 0 <= j < i ==> p[j] != '?'
  {
    i := 0;
    while p[i] != '?'
      invariant i < |p| && forall j :: 0 <= j < i ==> p[j] != '?'
      decreases |p| - i
    {
      i := i + 1;
    }
  }

  // The last '?' before k.
  lemma {:induction false} LastMark(p: string, i: nat, k: nat) returns (last: nat)
    requires i < k <= |p| && p[i] == '?'
    ensures i <= last < k && p[last] == '?' && forall j :: last < j < k ==> p[j] != '?'
    decreases k
  {
    last := k - 1;
    if p[last] != '?' {
      last := LastMark(p, i, k - 1);
    }
  }

  // If all marks are taken, the search finds only matches.
  lemma {:induction false} FindsOnlyMatches(p: string, s: string)
    requires AllTaken(p) && Computes(p, s, true)
    ensures Matches(ExactlyOne, p, s)
  {
    if s == p {
      MatchesItself(ExactlyOne, p, 0);
    } else if NoMarks(p) {
      GlobSearch.FindsOnlyMatches(p, s);
      SameReading(p, 0, s, 0);
    } else {
      var q: nat :| q < |p| && OneLiteral(p, q);
      var i := FirstMark(p);
      assert i < q;
      var last := LastMark(p, i, q);
      assert Wilds(p, i, q);
      var path: seq<Search> :| IsRun(p, s, path) && Step(p, s, path[|path| - 1]) == Answered(true);
      var inv := v => Sound(p, s, v, last, q);
      forall v, w | InRange(p, s, v) && v.si < |s| && inv(v) && Step(p, s, v) == Goes(w) ensures inv(w) {
        SoundMove(p, s, v, w, last, q);
      }
      AlongRun(p, s, path, inv);
    }
  }

  // ---------------------------------------------------------------- a string found by mistake

  // The pattern characters in [i, j) without the stars.
  function Unstarred(p: string, i: nat, j: nat): string
    requires i <= j <= |p|
    decreases j - i
  {
    if i == j then "" else (if p[i] == '*' then "" else [p[i]]) + Unstarred(p, i + 1, j)
  }

  lemma {:induction false} Together(p: string, i: nat, j: nat, k: nat)
    requires i <= j <= k <= |p|
    ensures Unstarred(p, i, k) == Unstarred(p, i, j) + Unstarred(p, j, k)
    decreases j - i
  {
    if i < j {
      Together(p, i + 1, j, k);
    }
  }

  lemma {:induction false} OnlyStars(p: string, i: nat, j: nat)
    requires i <= j <= |p|
    ensures |Unstarred(p, i, j)| <= j - i
    ensures Unstarred(p, i, j) == "" <==> forall k :: i <= k < j ==> p[k] == '*'
    decreases j - i
  {
    if i < j {
      OnlyStars(p, i + 1, j);
    }
  }

  // With one byte for every '?' a match has at least a byte for every character that is not a star;
  lemma {:induction false} NeedsAByteEach(p: string, j: nat, s: string, x: nat)
    requires j <= |p| && x <= |s| && MatchFrom(ExactlyOne, p, j, s, x)
    ensures |s| - x >= |Unstarred(p, j, |p|)|
    decreases |p| - j, |s| - x
  {
    if j < |p| {
      if p[j] != '*' {
        NeedsAByteEach(p, j + 1, s, x + 1);
      } else if MatchFrom(ExactlyOne, p, j + 1, s, x) {
        NeedsAByteEach(p, j + 1, s, x);
      } else {
        NeedsAByteEach(p, j, s, x + 1);
      }
    }
  }

  // with no byte more, the stars are empty.
  lemma {:induction false} NoByteMore(p: string, j: nat, s: string, x: nat, i: nat)
    requires j <= i < |p| && x <= |s| && MatchFrom(ExactlyOne, p, j, s, x)
    requires |s| - x == |Unstarred(p, j, |p|)| && !IsWild(p[i])
    ensures x + |Unstarred(p, j, i)| < |s| && s[x + |Unstarred(p, j, i)|] == p[i]
    decreases |p| - j
  {
    if p[j] == '*' {
      if x < |s| && MatchFrom(ExactlyOne, p, j, s, x + 1) {
        NeedsAByteEach(p, j, s, x + 1);
      }
      NoByteMore(p, j + 1, s, x, i);
    } else if j < i {
      NoByteMore(p, j + 1, s, x + 1, i);
    }
  }

  // From x on the string has a byte for every character of [i, j) that is not a star, with the right literals.
  ghost predicate Fits(p: string, i: nat, j: nat, s: string, x: nat)
    requires i <= j <= |p|
    decreases j - i
  {
    if i == j then x <= |s|
    else if p[i] == '*' then Fits(p, i + 1, j, s, x)
    else x < |s| && (p[i] == '?' || p[i] == s[x]) && Fits(p, i + 1, j, s, x + 1)
  }

  lemma {:induction false} UnstarredFits(p: string, i: nat, j: nat, s: string, x: nat)
    requires i <= j <= |p| && x <= |s| && Unstarred(p, i, j) <= s[x..]
    ensures Fits(p, i, j, s, x)
    decreases j - i
  {
    if i < j && p[i] == '*' {
      UnstarredFits(p, i + 1, j, s, x);
    } else if i < j {
      assert s[x..][0] == p[i] && s[x + 1..] == s[x..][1..];
      assert Unstarred(p, i + 1, j) == Unstarred(p, i, j)[1..];
      UnstarredFits(p, i + 1, j, s, x + 1);
    }
  }

  // Where it fits the search goes straight on, stars left empty.
  lemma {:induction false} Straight(p: string, s: string, v: Search, j: nat) returns (w: Search)
    requires InRange(p, s, v) && Reaches(p, s, v) && v.pi <= j <= |p|
    requires Fits(p, v.pi, j, s, v.si) && v.si + |Unstarred(p, v.pi, j)| < |s|
    ensures InRange(p, s, w) && Reaches(p, s, w) && w.pi == j && w.si == v.si + |Unstarred(p, v.pi, j)|
    ensures (forall k :: v.pi <= k < j ==> p[k] == '*') ==>
              w == if v.pi < j then v.(pi := j, star := j - 1, starAt := v.si) else v
    ensures v.mark < 0 && (forall k :: v.pi <= k < j ==> p[k] != '?') ==> w.mark < 0
    decreases j - v.pi
  {
    hide Reaches;
    w := v;
    if v.pi < j {
      var n := Step(p, s, v).v;
      NextIsReached(p, s, v, n);
      w := Straight(p, s, n, j);
    }
  }

  // In a stretch of literals all equal to the byte of the last '?' that '?' can still be given up.
  lemma {:induction false} StraightMarked(p: string, s: string, v: Search, j: nat, c: char) returns (w: Search)
    requires InRange(p, s, v) && Reaches(p, s, v) && v.pi <= j <= |p| && v.mark >= 0 && v.markByte == c
    requires forall k :: v.pi <= k < j ==> p[k] == '*' || (p[k] == c && !IsWild(c))
    requires Fits(p, v.pi, j, s, v.si) && v.si + |Unstarred(p, v.pi, j)| < |s|
    ensures InRange(p, s, w) && Reaches(p, s, w) && w.pi == j && w.si == v.si + |Unstarred(p, v.pi, j)|
    ensures w.mark == v.mark && w.markAt == v.markAt
    decreases j - v.pi
  {
    hide Reaches;
    w := v;
    if v.pi < j {
      var n := Step(p, s, v).v;
      NextIsReached(p, s, v, n);
      w := StraightMarked(p, s, n, j, c);
    }
  }

  // At the end of the string wildcards may be left.
  lemma {:induction false} StraightToTheEnd(p: string, s: string, v: Search, j: nat)
    requires p != "" && p != "*" && p != s
    requires InRange(p, s, v) && Reaches(p, s, v) && v.pi <= j <= |p| && Wilds(p, j, |p|)
    requires Fits(p, v.pi, j, s, v.si) && v.si + |Unstarred(p, v.pi, j)| == |s|
    ensures Computes(p, s, true)
    decreases j - v.pi
  {
    hide Reaches, Computes;
    if v.si == |s| {
      OnlyStars(p, v.pi, j);
      AnswerIsReached(p, s, v, true);
    } else {
      var n := Step(p, s, v).v;
      NextIsReached(p, s, v, n);
      StraightToTheEnd(p, s, n, j);
    }
  }

  // The '?' at `last`, stars, the literal p[k] once or more up to q, and something else at q.
  predicate Slack(p: string, last: nat, k: nat, q: nat) {
    && last < k < q < |p| && p[last] == '?' && (forall i :: last < i < k ==> p[i] == '*')
    && !IsWild(p[k]) && (forall i :: k <= i < q ==> p[i] == p[k]) && p[q] != p[k]
  }

  lemma {:induction false} NoStars(p: string, i: nat, j: nat)
    requires i <= j <= |p| && forall k :: i <= k < j ==> p[k] != '*'
    ensures Unstarred(p, i, j) == p[i..j]
    decreases j - i
  {
    if i < j {
      NoStars(p, i + 1, j);
    }
  }

  lemma {:induction false} SlackText(p: string, last: nat, k: nat, q: nat, j: nat)
    requires Slack(p, last, k, q) && k <= j <= q
    ensures Unstarred(p, last + 1, j) == p[k..j]
  {
    OnlyStars(p, last + 1, k);
    Together(p, last + 1, k, j);
    NoStars(p, k, j);
  }

  // What takes how many bytes.
  lemma {:induction false} SlackSizes(p: string, last: nat, k: nat, q: nat)
    requires Slack(p, last, k, q)
    ensures |Unstarred(p, last + 1, q)| == q - k && |Unstarred(p, 0, q - 1)| == |Unstarred(p, 0, last)| + q - k
    ensures |Unstarred(p, 0, |p|)| == |Unstarred(p, 0, last)| + 1 + q - k + |Unstarred(p, q, |p|)|
  {
    Together(p, 0, last, q - 1);
    Together(p, 0, last, |p|);
    Together(p, last + 1, q, |p|);
    SlackText(p, last, k, q, q);
    SlackText(p, last, k, q, q - 1);
  }

  lemma {:induction false} SkipsStars(p: string, q: nat, m: nat)
    requires q <= m <= |p| && forall i :: q <= i < m ==> p[i] == '*'
    ensures Unstarred(p, q, |p|) == Unstarred(p, m, |p|)
    decreases m - q
  {
    if q < m {
      SkipsStars(p, q + 1, m);
    }
  }

  lemma {:induction false} AStarIsLeftOut(p: string, q: nat)
    requires q < |p| && p[q] == '*'
    ensures |Unstarred(p, 0, |p|)| < |p|
  {
    Together(p, 0, q, |p|);
    OnlyStars(p, 0, q);
    OnlyStars(p, q + 1, |p|);
  }

  // The string that leaves no byte for the '?' at `last`.
  function Short(p: string, last: nat, q: nat, rest: string): string
    requires last < q <= |p|
  {
    Unstarred(p, 0, last) + Unstarred(p, last + 1, q) + rest
  }

  // At the place of that '?' it has just the literals, and then something else.
  ghost predicate OneMissing(p: string, last: nat, k: nat, q: nat, s: string, a: nat)
    requires Slack(p, last, k, q)
  {
    && a == |Unstarred(p, 0, last)| && a + q - k < |s| && Unstarred(p, 0, last) <= s
    && s[a..a + q - k] == p[k..q] && s[a + q - k] != p[k]
  }

  lemma {:induction false} ShortIsMissing(p: string, last: nat, k: nat, q: nat, rest: string) returns (a: nat)
    requires Slack(p, last, k, q) && rest != "" && rest[0] != p[k]
    ensures OneMissing(p, last, k, q, Short(p, last, q, rest), a)
    ensures var s := Short(p, last, q, rest); s[a..] == Unstarred(p, last + 1, q) + rest && s[a + q - k..] == rest
  {
    a := |Unstarred(p, 0, last)|;
    SlackText(p, last, k, q, q);
  }

  // On such a string the search gives the '?' up and goes on behind it where its byte was.
  lemma {:induction false} MarkGivesBack(p: string, last: nat, k: nat, q: nat, s: string, a: nat) returns (v: Search)
    requires Slack(p, last, k, q) && OneMissing(p, last, k, q, s, a)
    ensures InRange(p, s, v) && Reaches(p, s, v) && v.pi == last + 1 && v.si == a && v.mark < 0
  {
    hide Reaches;
    StartIsReached(p, s);
    assert s[0..] == s;
    UnstarredFits(p, 0, last, s, 0);
    v := Straight(p, s, START, last);
    assert s[a] == s[a..a + q - k][0] == p[k];
    var u := Step(p, s, v).v;
    NextIsReached(p, s, v, u);
    v := GivesBack(p, last, k, q, s, a, u);
  }

  // The literals also match one byte further on, but for the last.
  lemma {:induction false} LiteralsAgain(p: string, last: nat, k: nat, q: nat, s: string, a: nat)
    requires Slack(p, last, k, q) && a + q - k < |s| && s[a..a + q - k] == p[k..q]
    ensures |Unstarred(p, last + 1, q - 1)| == q - 1 - k && Unstarred(p, last + 1, q - 1) <= s[a + 1..]
  {
    SlackText(p, last, k, q, q - 1);
    var n := q - 1 - k;
    var left, right := s[a + 1..a + 1 + n], p[k..q - 1];
    forall i | 0 <= i < n ensures left[i] == right[i] {
      assert s[a + 1 + i] == s[a..a + q - k][i + 1] == p[k + i + 1];
    }
    assert left == s[a + 1..][..n];
  }

  lemma {:induction false} GivesBack(p: string, last: nat, k: nat, q: nat, s: string, a: nat, u: Search)
    returns (v: Search)
    requires Slack(p, last, k, q) && a + q - k < |s| && s[a..a + q - k] == p[k..q] && s[a + q - k] != p[k]
    requires InRange(p, s, u) && Reaches(p, s, u) && u.pi == last + 1 && u.si == a + 1
    requires u.mark == last && u.markAt == a && u.markByte == p[k]
    ensures InRange(p, s, v) && Reaches(p, s, v) && v.pi == last + 1 && v.si == a && v.mark < 0
  {
    hide Reaches;
    LiteralsAgain(p, last, k, q, s, a);
    UnstarredFits(p, last + 1, q - 1, s, a + 1);
    var w := StraightMarked(p, s, u, q - 1, p[k]);
    v := Step(p, s, w).v;
    NextIsReached(p, s, w, v);
  }

  // What follows is not the literal: no byte is missed.
  lemma {:induction false} FoundTooShort(p: string, last: nat, k: nat, q: nat, s: string)
    requires Slack(p, last, k, q) && Unstarred(p, q, |p|) != "" && Unstarred(p, q, |p|)[0] != p[k]
    requires s == Short(p, last, q, Unstarred(p, q, |p|))
    ensures Computes(p, s, true) && !Matches(ExactlyOne, p, s)
  {
    hide Reaches, Computes, OneMissing;
    SlackSizes(p, last, k, q);
    Together(p, last + 1, q, |p|);
    OnlyStars(p, 0, |p|);
    var a := ShortIsMissing(p, last, k, q, Unstarred(p, q, |p|));
    var v := MarkGivesBack(p, last, k, q, s, a);
    UnstarredFits(p, last + 1, |p|, s, a);
    StraightToTheEnd(p, s, v, |p|);
    if Matches(ExactlyOne, p, s) {
      NeedsAByteEach(p, 0, s, 0);
    }
  }

  // A star follows: it takes a byte put there for it.
  lemma {:induction false} FoundMisplaced(p: string, last: nat, k: nat, q: nat, m: nat, s: string)
    requires Slack(p, last, k, q) && q < m <= |p| && (forall i :: q <= i < m ==> p[i] == '*')
    requires m < |p| ==> p[m] == p[k]
    requires s == Short(p, last, q, "?" + Unstarred(p, q, |p|))
    ensures Computes(p, s, true) && !Matches(ExactlyOne, p, s)
  {
    hide Reaches, Computes, Short, Unstarred, OneMissing;
    var a := MisplacedText(p, last, k, q, m, s);
    var v := MarkGivesBack(p, last, k, q, s, a);
    UnstarredFits(p, last + 1, q, s, a);
    v := Straight(p, s, v, q);
    v := StarTakesTheByte(p, s, v, m, p[k]);
    UnstarredFits(p, m, |p|, s, v.si);
    StraightToTheEnd(p, s, v, |p|);
    NotThere(p, s, q - 1);
  }

  lemma {:induction false} MisplacedText(p: string, last: nat, k: nat, q: nat, m: nat, s: string) returns (a: nat)
    requires Slack(p, last, k, q) && q < m <= |p| && (forall i :: q <= i < m ==> p[i] == '*')
    requires s == Short(p, last, q, "?" + Unstarred(p, q, |p|))
    ensures OneMissing(p, last, k, q, s, a) && |s| == |Unstarred(p, 0, |p|)| < |p|
    ensures Unstarred(p, last + 1, q) <= s[a..] && |Unstarred(p, last + 1, q)| == q - k
    ensures |Unstarred(p, 0, q - 1)| == a + q - k < |s| && s[a + q - k] == '?'
    ensures s[a + q - k + 1..] == Unstarred(p, m, |p|)
  {
    SlackSizes(p, last, k, q);
    SkipsStars(p, q, m);
    AStarIsLeftOut(p, q);
    var rest := "?" + Unstarred(p, q, |p|);
    a := ShortIsMissing(p, last, k, q, rest);
    var x := a + q - k;
    assert s[x + 1..] == s[x..][1..];
  }

  lemma {:induction false} NotThere(p: string, s: string, i: nat)
    requires i < |p| && !IsWild(p[i]) && |s| == |Unstarred(p, 0, |p|)|
    requires |Unstarred(p, 0, i)| < |s| && s[|Unstarred(p, 0, i)|] != p[i]
    ensures !Matches(ExactlyOne, p, s)
  {
    if Matches(ExactlyOne, p, s) {
      NoByteMore(p, 0, s, 0, i);
    }
  }

  lemma {:induction false} StarTakesTheByte(p: string, s: string, v: Search, m: nat, c: char) returns (w: Search)
    requires InRange(p, s, v) && Reaches(p, s, v) && v.si < |s| && v.mark < 0 && s[v.si] != c && !IsWild(c)
    requires v.pi < m <= |p| && (forall i :: v.pi <= i < m ==> p[i] == '*') && (m < |p| ==> p[m] == c)
    ensures InRange(p, s, w) && Reaches(p, s, w) && w.pi == m && w.si == v.si + 1
  {
    hide Reaches;
    OnlyStars(p, v.pi, m);
    UnstarredFits(p, v.pi, m, s, v.si);
    var u := Straight(p, s, v, m);
    w := Step(p, s, u).v;
    NextIsReached(p, s, u, w);
  }

  // Only wildcards behind the first '?': it may stay empty.
  lemma {:induction false} FoundAtTheEnd(p: string, i: nat)
    requires i < |p| && p[i] == '?' && Wilds(p, i, |p|)
    ensures Computes(p, Unstarred(p, 0, i), true) && !Matches(ExactlyOne, p, Unstarred(p, 0, i))
  {
    hide Reaches, Computes;
    var s := Unstarred(p, 0, i);
    OnlyStars(p, 0, i);
    Together(p, 0, i, |p|);
    StartIsReached(p, s);
    UnstarredFits(p, 0, i, s, 0);
    StraightToTheEnd(p, s, START, i);
    if Matches(ExactlyOne, p, s) {
      NeedsAByteEach(p, 0, s, 0);
    }
  }

  // The end of a stretch.
  lemma {:induction false} StretchEnds(p: string, k: nat, c: char) returns (q: nat)
    requires k <= |p|
    ensures k <= q <= |p| && (forall i :: k <= i < q ==> p[i] == c) && (q < |p| ==> p[q] != c)
    decreases |p| - k
  {
    q := k;
    if k < |p| && p[k] == c {
      q := StretchEnds(p, k + 1, c);
    }
  }

  // Where the marks are not all taken.
  lemma {:induction false} SlackExists(p: string, i: nat) returns (last: nat, k: nat, q: nat)
    requires !AllTaken(p) && i < |p| && p[i] == '?' && !Wilds(p, i, |p|)
    requires forall j :: 0 <= j < i ==> p[j] != '?'
    ensures Slack(p, last, k, q)
  {
    k := FirstLiteral(p, i);
    last := LastMark(p, i, k);
    q := StretchEnds(p, k, p[k]);
    assert q == |p| ==> OneLiteral(p, k);
  }

  lemma MarkExists(p: string)
    requires !AllTaken(p)
    ensures !NoMarks(p)
  {
  }

  // If some '?' may stay empty or take back its byte, a string is found that does not match.
  lemma {:induction false} FindsTooMuch(p: string) returns (s: string)
    requires !AllTaken(p)
    ensures Computes(p, s, true) && !Matches(ExactlyOne, p, s)
  {
    hide Computes, AllTaken, Slack, Unstarred, Short;
    MarkExists(p);
    var i := FirstMark(p);
    if Wilds(p, i, |p|) {
      s := Unstarred(p, 0, i);
      FoundAtTheEnd(p, i);
    } else {
      var last, k, q := SlackExists(p, i);
      s := FoundBehind(p, last, k, q);
    }
  }

  lemma {:induction false} FoundBehind(p: string, last: nat, k: nat, q: nat) returns (s: string)
    requires Slack(p, last, k, q)
    ensures Computes(p, s, true) && !Matches(ExactlyOne, p, s)
  {
    hide Computes, Short;
    var m := StretchEnds(p, q, '*');
    SkipsStars(p, q, m);
    if m < |p| && p[m] != p[k] {
      s := Short(p, last, q, Unstarred(p, q, |p|));
      FoundTooShort(p, last, k, q, s);
    } else {
      s := Short(p, last, q, "?" + Unstarred(p, q, |p|));
      FoundMisplaced(p, last, k, q, m, s);
    }
  }

  // ---------------------------------------------------------------- the exact condition

  // The answer is the match of every string, with '?' read as exactly one byte.
  ghost predicate Exact(p: string) {
    forall s, r :: Computes(p, s, r) ==> (r <==> Matches(ExactlyOne, p, s))
  }

  // Main theorem: in the documented reading the search is exact for a pattern if and only if all its marks
  // are taken.
  lemma {:induction false} ExactIffAllTaken(p: string)
    ensures Exact(p) <==> AllTaken(p)
  {
    if AllTaken(p) {
      forall s, r | Computes(p, s, r) ensures r <==> Matches(ExactlyOne, p, s) {
        if r {
          FindsOnlyMatches(p, s);
        } else if Matches(ExactlyOne, p, s) {
          FindsEveryMatch(p, s, r);
        }
      }
    } else {
      var s := FindsTooMuch(p);
    }
  }
}
