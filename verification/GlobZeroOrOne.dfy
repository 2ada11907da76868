// When the glob search is exact for '?' as at most one byte (memory/wildcard.go).
//
// The search lets a '?' take a byte and gives it back only on a mismatch, and only while every literal
// compared since equals that byte.  It is exact for a pattern if and only if every '?' that has a literal
// behind it is sure to run into such a mismatch.
module GlobZeroOrOne {
  import opened GlobSearch

  // ---------------------------------------------------------------- the condition

  predicate LiteralBehind(p: string, i: nat) {
    exists k :: i < k < |p| && !IsWild(p[k])
  }

  // Only '*' and the literal c.
  predicate Only(p: string, i: nat, j: nat, c: char)
    requires i <= j <= |p|
  {
    forall k :: i <= k < j ==> p[k] == '*' || (p[k] == c && p[k] != '?')
  }

  // The first literals behind the '?' at i, with no other '?' among them, are all p[q], and the literal
  // behind them, p[m], is another one.
  predicate Differ(p: string, i: nat, q: nat, m: nat) {
    && i < q < m < |p| && !IsWild(p[q]) && !IsWild(p[m]) && p[q] != p[m]
    && Only(p, i + 1, q + 1, p[q]) && Wilds(p, q + 1, m)
  }

  predicate GivesBack(p: string, i: nat) {
    LiteralBehind(p, i) ==> exists q, m :: 0 <= q < |p| && 0 <= m < |p| && Differ(p, i, q, m)
  }

  // Every '?' is followed, stars aside, by the same literal once or more and then, with wildcards or not
  // between, by a different one; or it is followed by no literal at all.
  predicate AllGiveBack(p: string) {
    forall i :: 0 <= i < |p| && p[i] == '?' ==> GivesBack(p, i)
  }

  // ---------------------------------------------------------------- pattern arithmetic

  // The pattern characters in [i, j) that are not '*'.
  function Solid(p: string, i: nat, j: nat): nat
    requires i <= j <= |p|
    decreases j
  {
    if i == j then 0 else Solid(p, i, j - 1) + if p[j - 1] == '*' then 0 else 1
  }

  lemma {:induction false} SolidFrom(p: string, i: nat, j: nat)
    requires i < j <= |p|
    ensures Solid(p, i, j) == (if p[i] == '*' then 0 else 1) + Solid(p, i + 1, j)
    decreases j
  {
    if i + 1 < j {
      SolidFrom(p, i, j - 1);
    }
  }

  lemma {:induction false} SolidGrows(p: string, i: nat, j: nat, k: nat)
    requires i <= j <= k <= |p|
    ensures Solid(p, i, j) <= Solid(p, i, k)
    decreases k
  {
    if j < k {
      SolidGrows(p, i, j, k - 1);
    }
  }

  lemma {:induction false} SolidLength(p: string, i: nat, j: nat)
    requires i <= j <= |p| && forall k :: i <= k < j ==> p[k] != '*'
    ensures Solid(p, i, j) == j - i
    decreases j
  {
    if i < j {
      SolidLength(p, i, j - 1);
    }
  }

  // The first position from j on that is not a '*'.
  function AfterStars(p: string, j: nat): (k: nat)
    requires j <= |p|
    ensures j <= k <= |p| && (k < |p| ==> p[k] != '*') && forall i :: j <= i < k ==> p[i] == '*'
    decreases |p| - j
  {
    if j < |p| && p[j] == '*' then AfterStars(p, j + 1) else j
  }

  // Where the wildcards that end the pattern begin.
  function TailStart(p: string): (t: nat)
    ensures t <= |p| && Wilds(p, t, |p|) && (t > 0 ==> !IsWild(p[t - 1]))
  {
    TailBefore(p, |p|)
  }

  function TailBefore(p: string, j: nat): (t: nat)
    requires j <= |p|
    ensures t <= j && Wilds(p, t, j) && (t > 0 ==> !IsWild(p[t - 1]))
  {
    if j == 0 || !IsWild(p[j - 1]) then j else TailBefore(p, j - 1)
  }

  // ---------------------------------------------------------------- matches and positions

  ghost predicate Passes(p: string, s: string, j: nat, x: nat)
    requires j <= |p| && x <= |s|
  {
    Through(ZeroOrOne, p, s, j, x)
  }

  // No match has got past the stars at j before string position x.
  ghost predicate Low(p: string, s: string, j: nat, x: nat)
    requires j <= |p|
  {
    Floor(ZeroOrOne, p, s, AfterStars(p, j), x)
  }

  lemma {:induction false} EarlierPass(p: string, s: string, j: nat, k: nat, z: nat) returns (y: nat)
    requires j <= k <= |p| && z <= |s| && Passes(p, s, k, z)
    ensures y <= z && Passes(p, s, j, y)
    decreases k
  {
    if j == k {
      y := z;
    } else {
      var i := k - 1;
      var x: nat;
      if p[i] == '*' {
        x := StarStart(ZeroOrOne, p, i, s, z);
      } else if p[i] == '?' && MatchUpTo(ZeroOrOne, p, i, s, z) {
        x := z;
      } else {
        x := z - 1;
      }
      y := EarlierPass(p, s, j, i, x);
    }
  }

  // A floor holds further on, too.
  lemma {:induction false} LowAhead(p: string, s: string, j: nat, k: nat, x: nat)
    requires j <= k <= |p| && Floor(ZeroOrOne, p, s, j, x)
    ensures Low(p, s, k, x)
  {
    var n := AfterStars(p, k);
    forall z: nat | z <= |s| && Through(ZeroOrOne, p, s, n, z)
      ensures x <= z
    {
      var y := EarlierPass(p, s, j, n, z);
      assert Through(ZeroOrOne, p, s, j, y);
    }
  }

  lemma {:induction false} LowLiteral(p: string, s: string, j: nat, x: nat)
    requires j < |p| && x < |s| && !IsWild(p[j]) && Floor(ZeroOrOne, p, s, j, x)
    ensures Low(p, s, j + 1, x + 1)
  {
    FloorStep(ZeroOrOne, p, s, j, x);
    LowAhead(p, s, j + 1, j + 1, x + 1);
  }

  // Literals push the floor up.
  lemma {:induction false} LowRun(p: string, s: string, i: nat, j: nat, c: char, x: nat)
    requires i <= j <= |p| && Only(p, i, j, c) && Low(p, s, i, x)
    ensures Low(p, s, j, x + Solid(p, i, j))
    decreases j
  {
    if i < j {
      LowRun(p, s, i, j - 1, c, x);
      var y := x + Solid(p, i, j - 1);
      if p[j - 1] == '*' {
        assert AfterStars(p, j - 1) == AfterStars(p, j);
      } else {
        forall z: nat | z <= |s| && Through(ZeroOrOne, p, s, AfterStars(p, j), z)
          ensures y + 1 <= z
        {
          var z' := EarlierPass(p, s, j, AfterStars(p, j), z);
          assert z' > 0 && Through(ZeroOrOne, p, s, j - 1, z' - 1);
        }
      }
    }
  }

  // Literals that match carry a match from one position to the other.
  lemma {:induction false} Carries(p: string, s: string, j: nat, x: nat, n: nat)
    requires j + n <= |p| && x + n <= |s|
    requires forall i :: j <= i < j + n ==> !IsWild(p[i]) && p[i] == s[i - j + x]
    ensures Passes(p, s, j, x) <==> Passes(p, s, j + n, x + n)
    decreases n
  {
    if n > 0 {
      Carries(p, s, j, x, n - 1);
      OneStep(ZeroOrOne, p, s, j + n - 1, x + n - 1);
    }
  }

  // Where one byte is left every literal left must be that byte.
  lemma {:induction false} OneLeft(p: string, s: string, j: nat, x: nat, k: nat)
    requires j <= k < |p| && x + 1 == |s| && !IsWild(p[k])
    requires MatchFrom(ZeroOrOne, p, j, s, x)
    ensures p[k] == s[x]
    decreases |p| - j
  {
    NoneLeft(p, s, j, k);
    if j < k {
      NoneLeft(p, s, j + 1, k);
      if MatchFrom(ZeroOrOne, p, j + 1, s, x) {
        OneLeft(p, s, j + 1, x, k);
      }
    }
  }

  lemma {:induction false} TwoLeft(p: string, s: string, j: nat, x: nat, k: nat, l: nat)
    requires j <= k < |p| && j <= l < |p| && x + 1 == |s| && !IsWild(p[k]) && !IsWild(p[l])
    requires MatchFrom(ZeroOrOne, p, j, s, x)
    ensures p[k] == p[l]
  {
    OneLeft(p, s, j, x, k);
    OneLeft(p, s, j, x, l);
  }

  lemma NoneLeft(p: string, s: string, j: nat, k: nat)
    requires j <= k < |p| && !IsWild(p[k])
    ensures !MatchFrom(ZeroOrOne, p, j, s, |s|)
  {
    if MatchFrom(ZeroOrOne, p, j, s, |s|) {
      NothingNeedsTail(ZeroOrOne, p, j, s);
    }
  }

  // ---------------------------------------------------------------- what the search keeps

  // A match passes the current position, or the position lo just before it.
  ghost predicate Alive(p: string, s: string, v: Search, lo: nat)
    requires InRange(p, s, v)
  {
    Passes(p, s, v.pi, v.si) || (lo < v.si && Passes(p, s, v.pi, lo))
  }

  // A match that has not left the last star behind its current place is alive.  In front of a star, which
  // starts afresh, there is nothing to say.
  ghost predicate Tracks(p: string, s: string, v: Search, lo: nat)
    requires InRange(p, s, v)
  {
    || (v.pi < |p| && p[v.pi] == '*')
    || (if v.star < 0 then Alive(p, s, v, lo)
        else NoneLost(p, s, v, AfterStars(p, v.star + 1), lo))
  }

  ghost predicate NoneLost(p: string, s: string, v: Search, b: nat, lo: nat)
    requires InRange(p, s, v) && b <= |p|
  {
    forall z: nat :: z <= v.starAt && Passes(p, s, b, z) ==> Alive(p, s, v, lo)
  }

  // No '?' is to be given up.  A mark in the wildcards that end the pattern leads nowhere.
  ghost predicate Plain(p: string, s: string, v: Search)
    requires InRange(p, s, v)
  {
    && v.star < v.pi && (v.mark < 0 || v.mark >= TailStart(p))
    && (v.pi <= TailStart(p) ==> Low(p, s, v.pi, v.si))
    && Tracks(p, s, v, v.si)
  }

  predicate AllBytes(s: string, x: nat, y: nat, c: char)
    requires x <= y <= |s|
  {
    forall k :: x <= k < y ==> s[k] == c
  }

  // The '?' at mark has taken a byte, and since then only literals equal to it have been compared; stars
  // have taken nothing.
  ghost predicate Marked(p: string, s: string, v: Search)
    requires InRange(p, s, v)
  {
    && 0 <= v.mark < TailStart(p) && v.mark < v.pi && v.markAt < v.si
    && AllBytes(s, v.markAt, v.si, v.markByte) && Only(p, v.mark + 1, v.pi, v.markByte)
    && v.si == v.markAt + 1 + Solid(p, v.mark + 1, v.pi)
    && Low(p, s, v.mark + 1, v.markAt) && Tracks(p, s, v, v.si - 1)
    && v.star < v.pi && v.star != v.mark
    && if v.star < v.mark then forall k :: v.mark < k < v.pi ==> p[k] != '*'
       else v.starAt == v.markAt + 1 + Solid(p, v.mark + 1, v.star)
  }

  // A '?' has been given up from behind a later star, which the search is bound to reach again.
  ghost predicate Returning(p: string, s: string, v: Search)
    requires InRange(p, s, v)
  {
    && v.mark < 0 && v.pi <= v.star < TailStart(p)
    && v.si < v.starAt && v.starAt == v.si + Solid(p, v.pi, v.star) + 1
    && AllBytes(s, v.si, v.starAt, s[v.si]) && Only(p, v.pi, v.star, s[v.si])
    && Low(p, s, v.pi, v.si)
  }

  // Everything left is wildcards, one of them a star.
  ghost predicate AtTail(p: string, v: Search) {
    v.star >= TailStart(p) && v.pi >= TailStart(p)
  }

  ghost predicate Complete(p: string, s: string, v: Search) {
    && InRange(p, s, v)
    && if v.star >= TailStart(p) then AtTail(p, v)
       else Plain(p, s, v) || Marked(p, s, v) || Returning(p, s, v)
  }

  // ---------------------------------------------------------------- moves without a mark

  lemma {:induction false} PlainStar(p: string, s: string, v: Search, w: Search)
    requires InRange(p, s, v) && v.si < |s| && v.pi < |p| && p[v.pi] == '*' && Low(p, s, v.pi, v.si)
    requires v.mark < 0 || v.mark >= TailStart(p)
    requires v.pi < TailStart(p) && w == v.(pi := v.pi + 1, star := v.pi, starAt := v.si)
    ensures Plain(p, s, w)
  {
    var b := AfterStars(p, w.star + 1);
    if !(w.pi < |p| && p[w.pi] == '*') {
      forall z: nat | z <= w.starAt && Passes(p, s, b, z) ensures Alive(p, s, w, w.si) {
        assert v.si <= z;
      }
    }
  }

  lemma {:induction false} PlainEqual(p: string, s: string, v: Search, w: Search)
    requires InRange(p, s, v) && Plain(p, s, v) && v.si < |s| && v.pi < |p| && !IsWild(p[v.pi]) && p[v.pi] == s[v.si]
    requires w == v.(pi := v.pi + 1, si := v.si + 1) || w == v.(pi := v.pi + 1, si := v.si + 1, mark := -1)
    ensures InRange(p, s, w) && Plain(p, s, w)
  {
    LowLiteral(p, s, v.pi, v.si);
    OneStep(ZeroOrOne, p, s, v.pi, v.si);
  }

  lemma {:induction false} PlainMark(p: string, s: string, v: Search, w: Search)
    requires InRange(p, s, v) && Plain(p, s, v) && v.si < |s| && v.pi < |p| && p[v.pi] == '?'
    requires w == v.(pi := v.pi + 1, si := v.si + 1, mark := v.pi, markAt := v.si, markByte := s[v.si])
    ensures InRange(p, s, w) && if v.pi < TailStart(p) then Marked(p, s, w) else Plain(p, s, w)
  {
    if v.pi < TailStart(p) {
      LowAhead(p, s, v.pi, v.pi + 1, v.si);
    } else if Passes(p, s, v.pi, v.si) {
      TailShrinks(p, v.pi, s, v.si);
    }
  }

  lemma {:induction false} PlainToStar(p: string, s: string, v: Search, w: Search)
    requires InRange(p, s, v) && Plain(p, s, v) && 0 <= v.star < TailStart(p) && v.starAt < |s|
    requires !(v.pi < |p| && p[v.pi] == '*') && !Passes(p, s, v.pi, v.si)
    requires w == v.(pi := v.star + 1, starAt := v.starAt + 1, si := v.starAt + 1)
    ensures InRange(p, s, w) && Plain(p, s, w)
  {
    var b := AfterStars(p, v.star + 1);
    forall z: nat | z <= |s| && Through(ZeroOrOne, p, s, b, z) ensures v.starAt + 1 <= z {
      assert Passes(p, s, b, z);
    }
    if !(w.pi < |p| && p[w.pi] == '*') {
      forall z: nat | z <= w.starAt && Passes(p, s, b, z) ensures Alive(p, s, w, w.si) {
      }
    }
  }

  // A mark in the tail is tried in vain.
  lemma {:induction false} PlainToMark(p: string, s: string, v: Search, w: Search)
    requires InRange(p, s, v) && Plain(p, s, v) && v.si < |s| && v.star < TailStart(p) && v.mark >= 0
    requires !(v.pi < |p| && p[v.pi] == '*') && !Passes(p, s, v.pi, v.si)
    requires w == v.(pi := v.mark + 1, si := v.markAt, mark := -1)
    ensures InRange(p, s, w) && Plain(p, s, w)
  {
  }

  // ---------------------------------------------------------------- moves with a mark

  lemma OnlyLiteral(p: string, i: nat, j: nat, c: char, k: nat)
    requires i <= j <= |p| && Only(p, i, j, c) && k < |p| && !IsWild(p[k])
    ensures i <= k < j ==> p[k] == c
  {
  }

  // The literals that tell the two places of the '?' apart are still ahead.
  lemma {:induction false} Ahead(p: string, s: string, v: Search) returns (q: nat, m: nat)
    requires InRange(p, s, v) && Marked(p, s, v) && AllGiveBack(p) && p[v.mark] == '?'
    ensures Differ(p, v.mark, q, m) && v.pi <= m < TailStart(p)
    ensures q < v.pi ==> p[q] == v.markByte
  {
    var i: nat := v.mark;
    assert !IsWild(p[TailStart(p) - 1]) && LiteralBehind(p, i) && GivesBack(p, i);
    q, m :| q < |p| && m < |p| && Differ(p, i, q, m);
    OnlyLiteral(p, i + 1, v.pi, v.markByte, q);
    OnlyLiteral(p, i + 1, v.pi, v.markByte, m);
  }

  lemma {:induction false} MarkedStar(p: string, s: string, v: Search, w: Search)
    requires InRange(p, s, v) && Marked(p, s, v) && v.si < |s| && v.pi < |p| && p[v.pi] == '*'
    requires v.pi < TailStart(p) && w == v.(pi := v.pi + 1, star := v.pi, starAt := v.si)
    ensures Marked(p, s, w)
  {
    LowRun(p, s, v.mark + 1, v.pi, v.markByte, v.markAt);
    var b := AfterStars(p, w.star + 1);
    if !(w.pi < |p| && p[w.pi] == '*') {
      forall z: nat | z <= w.starAt && Passes(p, s, b, z) ensures Alive(p, s, w, w.si - 1) {
        assert v.si - 1 <= z;
      }
    }
  }

  // The same literal again.
  lemma {:induction false} MarkedSame(p: string, s: string, v: Search, w: Search)
    requires InRange(p, s, v) && Marked(p, s, v) && v.si < |s| && v.pi < |p| && !IsWild(p[v.pi])
    requires p[v.pi] == s[v.si] == v.markByte && w == v.(pi := v.pi + 1, si := v.si + 1)
    ensures InRange(p, s, w) && Marked(p, s, w)
  {
    OneStep(ZeroOrOne, p, s, v.pi, v.si);
    OneStep(ZeroOrOne, p, s, v.pi, v.si - 1);
  }

  // Another literal: the byte the '?' has taken is where it belongs.
  lemma {:induction false} MarkedOther(p: string, s: string, v: Search, w: Search)
    requires InRange(p, s, v) && Marked(p, s, v) && v.si < |s| && v.pi < |p| && !IsWild(p[v.pi])
    requires p[v.pi] == s[v.si] != v.markByte && w == v.(pi := v.pi + 1, si := v.si + 1, mark := -1)
    ensures InRange(p, s, w) && Plain(p, s, w)
  {
    LowRun(p, s, v.mark + 1, v.pi, v.markByte, v.markAt);
    assert s[v.si - 1] == v.markByte;
    forall z: nat | z <= |s| && Through(ZeroOrOne, p, s, v.pi, z) ensures v.si <= z {
      assert v.si - 1 <= z;
    }
    LowLiteral(p, s, v.pi, v.si);
    OneStep(ZeroOrOne, p, s, v.pi, v.si);
  }

  // The next '?'.
  lemma {:induction false} MarkedMark(p: string, s: string, v: Search, w: Search)
    requires InRange(p, s, v) && Marked(p, s, v) && AllGiveBack(p) && p[v.mark] == '?'
    requires v.si < |s| && v.pi < |p| && p[v.pi] == '?'
    requires w == v.(pi := v.pi + 1, si := v.si + 1, mark := v.pi, markAt := v.si, markByte := s[v.si])
    ensures InRange(p, s, w) && Marked(p, s, w)
  {
    var q, m := Ahead(p, s, v);
    var k := NextIsLiteral(p, s, v, q, m);
    MarkedMarkLow(p, s, v, k);
    MarkedMarkTracks(p, s, v, w, k);
    hide Tracks, Low, AllGiveBack, Differ;
  }

  lemma {:induction false} MarkedMarkLow(p: string, s: string, v: Search, k: nat)
    requires InRange(p, s, v) && Marked(p, s, v) && v.pi < |p|
    requires k == AfterStars(p, v.pi + 1) < |p| && !IsWild(p[k]) && p[k] != v.markByte
    ensures Low(p, s, v.pi + 1, v.si)
  {
    LowRun(p, s, v.mark + 1, v.pi, v.markByte, v.markAt);
    assert s[v.si - 1] == v.markByte;
    forall z: nat | z <= |s| && Through(ZeroOrOne, p, s, k, z) ensures v.si <= z {
      var y := EarlierPass(p, s, AfterStars(p, v.pi), k, z);
      assert v.si - 1 <= y;
    }
  }

  lemma {:induction false} MarkedMarkTracks(p: string, s: string, v: Search, w: Search, k: nat)
    requires InRange(p, s, v) && Marked(p, s, v) && v.si < |s| && v.pi < |p| && p[v.pi] == '?'
    requires w == v.(pi := v.pi + 1, si := v.si + 1, mark := v.pi, markAt := v.si, markByte := s[v.si])
    requires k == AfterStars(p, v.pi + 1) < |p| && !IsWild(p[k]) && p[k] != v.markByte
    ensures InRange(p, s, w) && Tracks(p, s, w, w.si - 1)
  {
    if k == w.pi {
      assert s[v.si - 1] == v.markByte;
      assert Alive(p, s, v, v.si - 1) ==> Alive(p, s, w, w.si - 1) by {
        assert !MatchFrom(ZeroOrOne, p, w.pi, s, v.si - 1);
      }
    }
  }

  // Behind it comes, stars aside, a literal that is not the marked byte.
  lemma {:induction false} NextIsLiteral(p: string, s: string, v: Search, q: nat, m: nat) returns (k: nat)
    requires InRange(p, s, v) && Marked(p, s, v) && AllGiveBack(p) && v.pi < |p| && p[v.pi] == '?'
    requires Differ(p, v.mark, q, m) && v.pi <= m < TailStart(p) && (q < v.pi ==> p[q] == v.markByte)
    ensures k == AfterStars(p, v.pi + 1) < |p| && !IsWild(p[k]) && p[k] != v.markByte
  {
    assert q < v.pi < m;
    assert LiteralBehind(p, v.pi) && GivesBack(p, v.pi);
    var q': nat, m': nat :| q' < |p| && m' < |p| && Differ(p, v.pi, q', m');
    k := AfterStars(p, v.pi + 1);
    assert k <= q' && p[k] == p[q'];
    assert k == m;
  }

  // A mismatch with no star since the '?'.
  lemma {:induction false} MarkedBack(p: string, s: string, v: Search, w: Search)
    requires InRange(p, s, v) && Marked(p, s, v) && v.si < |s| && v.pi < |p| && !IsWild(p[v.pi]) && v.star < v.mark
    requires p[v.pi] != s[v.si] && w == v.(pi := v.mark + 1, si := v.markAt, mark := -1)
    ensures InRange(p, s, w) && Plain(p, s, w)
  {
    SolidLength(p, v.mark + 1, v.pi);
    Carries(p, s, v.mark + 1, v.markAt, v.pi - v.mark - 1);
    assert !Passes(p, s, v.pi, v.si);
  }

  // A mismatch with a star since the '?'.
  lemma {:induction false} MarkedReturn(p: string, s: string, v: Search, w: Search)
    requires InRange(p, s, v) && Marked(p, s, v) && v.si < |s| && v.mark < v.star < TailStart(p)
    requires w == v.(pi := v.mark + 1, si := v.markAt, mark := -1)
    ensures InRange(p, s, w) && Returning(p, s, w)
  {
    SolidGrows(p, v.mark + 1, v.star, v.pi);
  }

  lemma {:induction false} ReturningEqual(p: string, s: string, v: Search, w: Search)
    requires InRange(p, s, v) && Returning(p, s, v) && p[v.pi] != '*'
    requires w == v.(pi := v.pi + 1, si := v.si + 1) || w == v.(pi := v.pi + 1, si := v.si + 1, mark := -1)
    ensures v.pi < v.star && !IsWild(p[v.pi]) && p[v.pi] == s[v.si]
    ensures InRange(p, s, w) && Returning(p, s, w)
  {
    assert p[v.star] == '*';
    SolidFrom(p, v.pi, v.star);
    LowLiteral(p, s, v.pi, v.si);
  }

  // ---------------------------------------------------------------- every move

  lemma {:induction false} PlainMove(p: string, s: string, v: Search, w: Search)
    requires InRange(p, s, v) && Plain(p, s, v) && v.si < |s| && v.star < TailStart(p)
    requires Step(p, s, v) == Goes(w)
    ensures Complete(p, s, w)
  {
    hide Plain, Marked, Returning, Tracks, Low;
    if v.pi == |p| {
      PlainToStar(p, s, v, w);
    } else if p[v.pi] == '?' {
      PlainMark(p, s, v, w);
    } else if p[v.pi] == '*' {
      if v.pi < TailStart(p) {
        PlainIsLow(p, s, v);
        PlainStar(p, s, v, w);
      }
    } else if p[v.pi] == s[v.si] {
      PlainEqual(p, s, v, w);
    } else if v.mark >= 0 {
      PlainToMark(p, s, v, w);
    } else {
      PlainToStar(p, s, v, w);
    }
  }

  lemma PlainIsLow(p: string, s: string, v: Search)
    requires InRange(p, s, v) && Plain(p, s, v)
    ensures v.mark < 0 || v.mark >= TailStart(p)
    ensures v.pi <= TailStart(p) ==> Low(p, s, v.pi, v.si)
  {
  }

  lemma {:induction false} MarkedMove(p: string, s: string, v: Search, w: Search)
    requires InRange(p, s, v) && Marked(p, s, v) && v.si < |s| && v.star < TailStart(p) && AllGiveBack(p)
    requires Step(p, s, v) == Goes(w)
    ensures Complete(p, s, w)
  {
    hide Plain, Returning, Tracks, Low, AllGiveBack;
    var q, m := Ahead(p, s, v);
    if p[v.pi] == '?' {
      MarkedMark(p, s, v, w);
    } else if p[v.pi] == '*' {
      MarkedStar(p, s, v, w);
    } else if p[v.pi] != s[v.si] {
      if v.star < v.mark {
        MarkedBack(p, s, v, w);
      } else {
        MarkedReturn(p, s, v, w);
      }
    } else if s[v.si] == v.markByte {
      MarkedSame(p, s, v, w);
    } else {
      MarkedOther(p, s, v, w);
    }
  }

  lemma {:induction false} Move(p: string, s: string, v: Search, w: Search)
    requires Complete(p, s, v) && v.si < |s| && AllGiveBack(p) && Step(p, s, v) == Goes(w)
    ensures Complete(p, s, w)
  {
    if v.star >= TailStart(p) {
    } else if Plain(p, s, v) {
      PlainMove(p, s, v, w);
    } else if Marked(p, s, v) {
      MarkedMove(p, s, v, w);
    } else if p[v.pi] == '*' {
      PlainStar(p, s, v, w);
    } else {
      ReturningEqual(p, s, v, v.(pi := v.pi + 1, si := v.si + 1, mark := -1));
      ReturningEqual(p, s, v, w);
    }
  }

  // The search never gives up on a string that matches.
  lemma {:induction false} NoGivingUp(p: string, s: string, v: Search)
    requires Complete(p, s, v) && v.si < |s| && AllGiveBack(p) && Matches(ZeroOrOne, p, s)
    ensures Step(p, s, v) != Answered(false)
  {
    if v.star < TailStart(p) && !Plain(p, s, v) && Marked(p, s, v) {
      var q, m := Ahead(p, s, v);
    }
  }

  // Nor does it end with a literal left.
  lemma {:induction false} EndsWell(p: string, s: string, v: Search)
    requires Complete(p, s, v) && v.si == |s| && AllGiveBack(p) && Matches(ZeroOrOne, p, s)
    ensures Wilds(p, v.pi, |p|)
  {
    var k := AfterStars(p, v.pi);
    var z := PassesEvery(ZeroOrOne, p, s, k);
    if v.star < TailStart(p) && Plain(p, s, v) {
      if v.pi < TailStart(p) {
        assert z == |s|;
        NothingNeedsTail(ZeroOrOne, p, k, s);
      }
    } else if v.star < TailStart(p) && Marked(p, s, v) {
      var q, m := Ahead(p, s, v);
      LowRun(p, s, v.mark + 1, v.pi, v.markByte, v.markAt);
      assert z >= |s| - 1 && k <= m;
      NoneLeft(p, s, k, m);
      if v.pi <= q {
        TwoLeft(p, s, k, z, q, m);
      } else {
        OneLeft(p, s, k, z, m);
      }
    }
  }

  // If every '?' gives back, the search finds every match.
  lemma {:induction false} FindsEveryMatch(p: string, s: string, r: bool)
    requires AllGiveBack(p) && Matches(ZeroOrOne, p, s) && Computes(p, s, r)
    ensures r
  {
    if p != "" && p != "*" && s != p {
      var path: seq<Search> :| IsRun(p, s, path) && Step(p, s, path[|path| - 1]) == Answered(r);
      var inv := v => Complete(p, s, v);
      PassesEveryStart(p, s);
      forall v, w | InRange(p, s, v) && v.si < |s| && inv(v) && Step(p, s, v) == Goes(w) ensures inv(w) {
        Move(p, s, v, w);
      }
      AlongRun(p, s, path, inv);
      var v := path[|path| - 1];
      if v.si == |s| {
        EndsWell(p, s, v);
      } else if !r {
        NoGivingUp(p, s, v);
      }
    }
  }

  lemma PassesEveryStart(p: string, s: string)
    requires Matches(ZeroOrOne, p, s) && p != ""
    ensures Complete(p, s, START)
  {
    assert Passes(p, s, 0, 0);
  }

  // ---------------------------------------------------------------- a string that is missed

  // The literals of the first j pattern characters.
  function Literals(p: string, j: nat): string
    requires j <= |p|
  {
    if j == 0 then "" else Literals(p, j - 1) + if IsWild(p[j - 1]) then "" else [p[j - 1]]
  }

  function Count(p: string, j: nat): nat
    requires j <= |p|
  {
    |Literals(p, j)|
  }

  lemma {:induction false} LiteralAt(p: string, j: nat, k: nat)
    requires j <= k <= |p|
    ensures Literals(p, j) <= Literals(p, k)
    ensures j < k && !IsWild(p[j]) ==> Count(p, j) < Count(p, k) && Literals(p, k)[Count(p, j)] == p[j]
    ensures Wilds(p, j, k) ==> Literals(p, j) == Literals(p, k)
    decreases k
  {
    if j < k {
      LiteralAt(p, j, k - 1);
    }
  }

  // The string of all literals matches: every wildcard stays empty.
  lemma {:induction false} LiteralsMatch(p: string, j: nat)
    requires j <= |p|
    ensures Count(p, j) <= Count(p, |p|) && MatchFrom(ZeroOrOne, p, j, Literals(p, |p|), Count(p, j))
    decreases |p| - j
  {
    LiteralAt(p, j, |p|);
    if j < |p| {
      LiteralsMatch(p, j + 1);
      LiteralAt(p, j, j + 1);
    }
  }

  // A literal before k, the last one, if there is any from i on.
  lemma {:induction false} LastLiteral(p: string, i: nat, k: nat) returns (q: nat)
    requires i <= k <= |p| && !Wilds(p, i, k)
    ensures i <= q < k && !IsWild(p[q]) && Wilds(p, q + 1, k)
    decreases k
  {
    q := k - 1;
    if IsWild(p[q]) {
      q := LastLiteral(p, i, k - 1);
    }
  }

  // Position x is not below the literals before j, and above them behind i.
  predicate High(p: string, i: nat, j: int, x: int) {
    0 <= j <= |p| ==> x >= Count(p, j) + if j > i then 1 else 0
  }

  // The '?' at i has taken the first literal behind it and may still be given up.
  ghost predicate Pending(p: string, i: nat, v: Search) {
    && i < v.pi <= |p| && v.si == Count(p, v.pi) + 1
    && Only(p, i + 1, v.pi, v.markByte)
    && Count(p, i) < Count(p, |p|) && v.markByte == Literals(p, |p|)[Count(p, i)]
  }

  ghost predicate AllHigh(p: string, i: nat, v: Search) {
    High(p, i, v.pi, v.si) && High(p, i, v.star, v.starAt) && High(p, i, v.mark, v.markAt)
  }

  ghost predicate TooHigh(p: string, i: nat, v: Search) {
    && InRange(p, Literals(p, |p|), v) && AllHigh(p, i, v)
    && (v.mark == i && v.markAt == Count(p, i) ==> Pending(p, i, v))
  }

  predicate Stubborn(p: string, i: nat) {
    i < |p| && p[i] == '?' && !GivesBack(p, i)
  }

  lemma {:induction false} PendingLiteral(p: string, i: nat, v: Search)
    requires Stubborn(p, i) && Pending(p, i, v) && v.pi < |p| && !IsWild(p[v.pi])
    ensures p[v.pi] == v.markByte
  {
    if Wilds(p, i + 1, v.pi) {
      LiteralAt(p, i, i + 1);
      LiteralAt(p, i + 1, v.pi);
      LiteralAt(p, v.pi, |p|);
    } else {
      var q := LastLiteral(p, i + 1, v.pi);
      assert p[v.pi] != v.markByte ==> Differ(p, i, q, v.pi);
    }
  }

  // No mismatch while it is pending.
  lemma {:induction false} PendingFits(p: string, i: nat, v: Search)
    requires Stubborn(p, i) && Pending(p, i, v) && v.pi < |p| && !IsWild(p[v.pi]) && v.si < Count(p, |p|)
    ensures p[v.pi] == Literals(p, |p|)[v.si]
  {
    PendingLiteral(p, i, v);
    var s := Literals(p, |p|);
    LiteralAt(p, v.pi, v.pi + 1);
    LiteralAt(p, v.pi + 1, |p|);
    var m := FirstLiteral(p, v.pi + 1);
    LiteralAt(p, v.pi + 1, m);
    LiteralAt(p, m, |p|);
    assert s[v.si] == p[m];
    assert p[m] != p[v.pi] ==> Differ(p, i, v.pi, m);
  }

  lemma {:induction false} TooHighMove(p: string, i: nat, v: Search, w: Search)
    requires Stubborn(p, i) && TooHigh(p, i, v) && v.si < Count(p, |p|) && Step(p, Literals(p, |p|), v) == Goes(w)
    ensures TooHigh(p, i, w)
  {
    hide Pending, High, Literals, GivesBack;
    if v.pi < |p| && !IsWild(p[v.pi]) && v.mark == i && v.markAt == Count(p, i) {
      PendingFits(p, i, v);
    }
    HighMove(p, i, v, w);
    if w.mark == i && w.markAt == Count(p, i) {
      PendingMove(p, i, v, w);
    }
  }

  lemma CountStep(p: string, j: nat)
    requires j < |p|
    ensures Count(p, j + 1) == Count(p, j) + if IsWild(p[j]) then 0 else 1
  {
  }

  lemma {:induction false} HighMove(p: string, i: nat, v: Search, w: Search)
    requires InRange(p, Literals(p, |p|), v) && AllHigh(p, i, v) && i < |p| && p[i] == '?'
    requires v.si < Count(p, |p|) && Step(p, Literals(p, |p|), v) == Goes(w)
    requires w.mark < v.mark == i && w.pi == i + 1 ==> v.markAt != Count(p, i)
    ensures AllHigh(p, i, w)
  {
    hide Literals, Count;
    if v.mark >= 0 {
      CountStep(p, v.mark);
    }
    if v.star >= 0 {
      CountStep(p, v.star);
    }
    if v.pi < |p| {
      CountStep(p, v.pi);
    }
  }

  lemma {:induction false} PendingMove(p: string, i: nat, v: Search, w: Search)
    requires Stubborn(p, i) && TooHigh(p, i, v)
    requires v.si < Count(p, |p|) && Step(p, Literals(p, |p|), v) == Goes(w)
    requires w.mark == i && w.markAt == Count(p, i)
    ensures Pending(p, i, w)
  {
  }

  // If some '?' does not give back, the search misses the string of all literals.
  lemma {:induction false} MissesLiterals(p: string, i: nat, r: bool)
    requires Stubborn(p, i) && Computes(p, Literals(p, |p|), r)
    ensures !r && Matches(ZeroOrOne, p, Literals(p, |p|))
  {
    var s := Literals(p, |p|);
    LiteralsMatch(p, 0);
    FewerLiterals(p, i);
    var path: seq<Search> :| IsRun(p, s, path) && Step(p, s, path[|path| - 1]) == Answered(r);
    var inv := v => TooHigh(p, i, v);
    forall v, w | InRange(p, s, v) && v.si < |s| && inv(v) && Step(p, s, v) == Goes(w) ensures inv(w) {
      TooHighMove(p, i, v, w);
    }
    AlongRun(p, s, path, inv);
    var v := path[|path| - 1];
    if v.si == |s| && r {
      assert i < v.pi;
      LiteralAt(p, v.pi, |p|);
    }
  }

  lemma {:induction false} FewerLiterals(p: string, i: nat)
    requires i < |p| && IsWild(p[i])
    ensures Count(p, |p|) < |p|
  {
    CountBound(p, i);
    CountBound(p, |p|);
    CountFrom(p, i + 1);
  }

  lemma {:induction false} CountBound(p: string, j: nat)
    requires j <= |p|
    ensures Count(p, j) <= j
  {
    if j > 0 {
      CountBound(p, j - 1);
    }
  }

  lemma {:induction false} CountFrom(p: string, j: nat)
    requires j <= |p|
    ensures Count(p, |p|) <= Count(p, j) + |p| - j
    decreases |p| - j
  {
    if j < |p| {
      CountFrom(p, j + 1);
    }
  }

  // ---------------------------------------------------------------- the exact condition

  // The answer is the match of every string, with '?' read as at most one byte.
  ghost predicate Exact(p: string) {
    forall s, r :: Computes(p, s, r) ==> (r <==> Matches(ZeroOrOne, p, s))
  }

  // Main theorem: the search is exact for a pattern if and only if every '?' in it gives back.
  lemma {:induction false} ExactIffGivesBack(p: string)
    ensures Exact(p) <==> AllGiveBack(p)
  {
    if AllGiveBack(p) {
      forall s, r | Computes(p, s, r) ensures r <==> Matches(ZeroOrOne, p, s) {
        if r {
          FindsOnlyMatches(p, s);
        } else if Matches(ZeroOrOne, p, s) {
          FindsEveryMatch(p, s, r);
        }
      }
    } else {
      var i: nat :| i < |p| && p[i] == '?' && !GivesBack(p, i);
      var s := Literals(p, |p|);
      var r := AnswerExists(p, s);
      MissesLiterals(p, i, r);
    }
  }

  // Two different literals behind i.
  predicate TwoLiterals(p: string, i: nat) {
    exists j, k :: i < j < k < |p| && !IsWild(p[j]) && !IsWild(p[k]) && p[j] != p[k]
  }

  lemma {:induction false} FirstOther(p: string, j: nat, c: char) returns (m: nat)
    requires j <= |p|
    ensures j <= m <= |p| && (forall k :: j <= k < m ==> IsWild(p[k]) || p[k] == c)
    ensures m < |p| ==> !IsWild(p[m]) && p[m] != c
    decreases |p| - j
  {
    m := j;
    if j < |p| && (IsWild(p[j]) || p[j] == c) {
      m := FirstOther(p, j + 1, c);
    }
  }

  // With a single '?' the condition is simple: behind it there is no literal, or there are two different ones.
  lemma {:induction false} SingleMark(p: string, i: nat)
    requires i < |p| && p[i] == '?' && forall k :: 0 <= k < |p| && k != i ==> p[k] != '?'
    ensures AllGiveBack(p) <==> (LiteralBehind(p, i) ==> TwoLiterals(p, i))
  {
    if LiteralBehind(p, i) && TwoLiterals(p, i) {
      var q := FirstLiteral(p, i + 1);
      var m := FirstOther(p, q, p[q]);
      var j, k :| i < j < k < |p| && !IsWild(p[j]) && !IsWild(p[k]) && p[j] != p[k];
      var l := LastLiteral(p, q, m);
      assert Differ(p, i, l, m);
    }
  }
}
