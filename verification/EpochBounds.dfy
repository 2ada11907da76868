// Whether `epochStart` and `epochEnd` bound the epochs of what a chunk holds (chunk.go).  Put raises the end
// with a single compare-and-swap, so of two calls that load the same value the one with the later epoch may
// lose.  It lowers the start with up to four, and takes the value 0 for a start not set yet.
module EpochBounds {
  import opened Interleavings
  import opened LogEntry
  import opened Protocol
  import opened SmallRuns

  // The call has its update of epochEnd behind it.
  predicate PastEnd(p: Put) {
    p.HasSlot() && !p.pc.Store? && !p.pc.LoadEnd? && !p.pc.CasEnd?
  }

  // epochEnd of chunk c covers the epochs of all calls past their update.
  ghost predicate Covered(s: State, c: nat) {
    c < |s.chunks| ==>
      forall t :: t in s.puts && s.puts[t].at == c && PastEnd(s.puts[t]) ==> s.puts[t].e.epoch <= s.chunks[c].epochEnd
  }

  // In this state the compare-and-swap of call t on chunk c fails, and the value found is too low.
  ghost predicate Loses(s: State, c: nat, t: nat) {
    && c < |s.chunks| && t in s.puts && s.puts[t].at == c && s.puts[t].pc.CasEnd?
    && s.puts[t].pc.last != s.chunks[c].epochEnd < s.puts[t].e.epoch
  }

  ghost predicate LosesAt(tr: seq<State>, ev: seq<Event>, c: nat, b: nat, t: nat) {
    b < |tr| && b < |ev| && ev[b] == Run(t) && Loses(tr[b], c, t)
  }

  lemma {:induction false} OnChunkCovers(cap: nat, ch: Chunk, t: nat, p: Put)
    requires |ch.slots| == cap && (p.HasSlot() ==> p.slot < cap)
    requires PastEnd(p) ==> p.e.epoch <= ch.epochEnd
    requires p.pc.CasEnd? ==> p.pc.last < p.e.epoch
    requires !(p.pc.CasEnd? && p.pc.last != ch.epochEnd < p.e.epoch)
    ensures var (ch', q) := OnChunk(cap, ch, t, p);
            ch.epochEnd <= ch'.epochEnd && (PastEnd(q) ==> q.e.epoch <= ch'.epochEnd)
  {
  }

  lemma OnChunkStays(cap: nat, ch: Chunk, t: nat, p: Put)
    requires |ch.slots| == cap && (p.HasSlot() ==> p.slot < cap)
    ensures OnChunk(cap, ch, t, p).1.at == p.at
  {
  }

  lemma {:induction false} StepCovers(s: State, e: Event, c: nat)
    requires Inv(s) && Enabled(s, e) && Covered(s, c) && !(e.Run? && Loses(s, c, e.t))
    ensures Covered(Next(s, e), c)
  {
    hide OnChunk, ChunkOk, Routed;
    if e.Run? && IsChunkStep(s.puts[e.t].pc) {
      var p := s.puts[e.t];
      OnChunkStays(s.cap, s.chunks[p.at], e.t, p);
      if p.at == c {
        SlotMirrorsCall(s, e.t);
        OnChunkCovers(s.cap, s.chunks[c], e.t, p);
      }
    }
  }

  lemma {:induction false} LoserIsNotCovered(s: State, c: nat, t: nat)
    requires Inv(s) && Loses(s, c, t)
    ensures !Covered(Next(s, Run(t)), c)
  {
    var u := Next(s, Run(t));
    assert u.puts[t].pc.LoadStart? && u.puts[t].e == s.puts[t].e;
  }

  lemma {:induction false} CoveredUnlessLost(cap: nat, tr: seq<State>, ev: seq<Event>, c: nat, i: nat)
    requires IsRun(cap, tr, ev) && i < |tr| && forall b: nat, t: nat :: b < i ==> !LosesAt(tr, ev, c, b, t)
    ensures Covered(tr[i], c)
  {
    if i == 0 {
      assert tr[0] == Initial(cap);
    } else {
      hide Inv, Covered, Next, Loses;
      CoveredUnlessLost(cap, tr, ev, c, i - 1);
      RunInv(cap, tr, ev, i - 1);
      assert Enabled(tr[i - 1], ev[i - 1]);
      if ev[i - 1].Run? {
        assert !LosesAt(tr, ev, c, i - 1, ev[i - 1].t);
      }
      StepCovers(tr[i - 1], ev[i - 1], c);
    }
  }

  // The exact condition: epochEnd covers all updated calls at every moment of a run if and only if no
  // compare-and-swap of epochEnd fails against a lower epoch.
  lemma {:induction false} CoveredIff(cap: nat, tr: seq<State>, ev: seq<Event>, c: nat, z: nat)
    requires IsRun(cap, tr, ev) && z < |tr|
    ensures (forall i: nat :: i <= z ==> Covered(tr[i], c))
       <==> forall b: nat, t: nat :: b < z ==> !LosesAt(tr, ev, c, b, t)
  {
    if forall b: nat, t: nat :: b < z ==> !LosesAt(tr, ev, c, b, t) {
      forall i: nat | i <= z ensures Covered(tr[i], c) {
        CoveredUnlessLost(cap, tr, ev, c, i);
      }
    }
    forall b: nat, t: nat | b < z && LosesAt(tr, ev, c, b, t) ensures !Covered(tr[b + 1], c) {
      RunInv(cap, tr, ev, b);
      assert Enabled(tr[b], ev[b]) && tr[b + 1] == Next(tr[b], ev[b]);
      LoserIsNotCovered(tr[b], c, t);
    }
  }

  // Then it bounds every counted entry, which is what is stored under it.
  lemma {:induction false} CountedWithin(cap: nat, tr: seq<State>, ev: seq<Event>, c: nat, z: nat, n: nat)
    requires IsRun(cap, tr, ev) && z < |tr| && c < |tr[z].chunks| && n < |tr[z].chunks[c].slots|
    requires forall b: nat, t: nat :: b < z ==> !LosesAt(tr, ev, c, b, t)
    ensures tr[z].chunks[c].slots[n].Counted? ==> tr[z].chunks[c].slots[n].e.epoch <= tr[z].chunks[c].epochEnd
  {
    CoveredUnlessLost(cap, tr, ev, c, z);
    RunInv(cap, tr, ev, z);
    assert Owned(tr[z], c, n);
    var x := tr[z].chunks[c].slots[n];
    if x.Counted? {
      SlotMirrorsCall(tr[z], x.t);
    }
  }

  // ---- The start ----

  predicate PastStart(p: Put) {
    PastEnd(p) && !p.pc.LoadStart? && !p.pc.CasStart? && !p.pc.ReloadStart?
  }

  ghost predicate StartCovered(s: State, c: nat) {
    c < |s.chunks| ==>
      forall t :: t in s.puts && s.puts[t].at == c && PastStart(s.puts[t]) ==>
        s.chunks[c].epochStart <= s.puts[t].e.epoch
  }

  ghost predicate Swaps(s: State, c: nat, t: nat) {
    c < |s.chunks| && t in s.puts && s.puts[t].at == c && s.puts[t].pc.CasStart?
  }

  // The last retry of call t fails, and the value found is too high.
  ghost predicate GivesUp(s: State, c: nat, t: nat) {
    && Swaps(s, c, t) && s.puts[t].pc.round >= 3
    && s.puts[t].pc.first != s.chunks[c].epochStart > s.puts[t].e.epoch
  }

  // Some call with epoch 0 is past its update.
  ghost predicate ZeroPast(s: State, c: nat) {
    exists v :: v in s.puts && s.puts[v].at == c && PastStart(s.puts[v]) && s.puts[v].e.epoch == 0
  }

  // Call t, of a later epoch, replaces a start of 0 that is the epoch of an entry.
  ghost predicate Raises(s: State, c: nat, t: nat) {
    Swaps(s, c, t) && s.puts[t].pc.first == s.chunks[c].epochStart == 0 < s.puts[t].e.epoch && ZeroPast(s, c)
  }

  ghost predicate HarmsAt(tr: seq<State>, ev: seq<Event>, c: nat, b: nat, t: nat) {
    b < |tr| && b < |ev| && ev[b] == Run(t) && (GivesUp(tr[b], c, t) || Raises(tr[b], c, t))
  }

  // A start of 0 that a call has got past, or that has been another value before, is the epoch of an entry.
  ghost predicate ZeroIsReal(s: State, c: nat) {
    c < |s.chunks| && s.chunks[c].epochStart == 0 ==>
      forall t :: t in s.puts && s.puts[t].at == c && SawStart(s.puts[t]) ==> ZeroPast(s, c)
  }

  // The call is past its update, or has found the start set.
  predicate SawStart(p: Put) {
    PastStart(p) || (p.pc.CasStart? && p.pc.first != 0) || p.pc.ReloadStart?
  }

  // A call swaps only a start it has found unset or too high.
  ghost predicate Loaded(s: State) {
    forall t :: t in s.puts && s.puts[t].pc.CasStart? ==>
      s.puts[t].pc.first == 0 || s.puts[t].e.epoch < s.puts[t].pc.first
  }

  lemma {:induction false} OnChunkLoads(cap: nat, ch: Chunk, t: nat, p: Put)
    requires |ch.slots| == cap && (p.HasSlot() ==> p.slot < cap) && IsChunkStep(p.pc)
    ensures var q := OnChunk(cap, ch, t, p).1;
            q.pc.CasStart? ==> q.pc.first == 0 || q.e.epoch < q.pc.first
  {
  }

  lemma {:induction false} LoadedNext(s: State, e: Event)
    requires Inv(s) && Enabled(s, e) && Loaded(s)
    ensures Loaded(Next(s, e))
  {
    hide OnChunk, ChunkOk, CallsOk, SlotsOwned, Routed;
    if e.Run? && IsChunkStep(s.puts[e.t].pc) {
      OnChunkLoads(s.cap, s.chunks[s.puts[e.t].at], e.t, s.puts[e.t]);
    }
  }

  // What a step on a chunk does to the start and to what its call has seen.
  lemma {:induction false} OnChunkSees(cap: nat, ch: Chunk, t: nat, p: Put)
    requires |ch.slots| == cap && (p.HasSlot() ==> p.slot < cap) && IsChunkStep(p.pc)
    ensures var (ch', q) := OnChunk(cap, ch, t, p);
            && q.at == p.at && q.e == p.e && (PastStart(p) ==> PastStart(q))
            && (ch'.epochStart == 0 && SawStart(q) && !SawStart(p) ==> PastStart(q) && q.e.epoch == 0)
            && (ch'.epochStart == 0 != ch.epochStart ==> PastStart(q) && q.e.epoch == 0)
  {
  }

  lemma {:induction false} ZeroPastStays(s: State, e: Event, c: nat)
    requires Inv(s) && Enabled(s, e) && ZeroPast(s, c)
    ensures ZeroPast(Next(s, e), c)
  {
    hide OnChunk, ChunkOk, CallsOk, SlotsOwned, Routed;
    var v :| v in s.puts && s.puts[v].at == c && PastStart(s.puts[v]) && s.puts[v].e.epoch == 0;
    if e.Run? && IsChunkStep(s.puts[e.t].pc) {
      OnChunkSees(s.cap, s.chunks[s.puts[e.t].at], e.t, s.puts[e.t]);
    }
    var u := Next(s, e);
    assert v in u.puts && u.puts[v].at == c && PastStart(u.puts[v]) && u.puts[v].e.epoch == 0;
  }

  lemma {:induction false} ZeroIsRealNext(s: State, e: Event, c: nat)
    requires Inv(s) && Enabled(s, e) && ZeroIsReal(s, c)
    ensures ZeroIsReal(Next(s, e), c)
  {
    hide OnChunk, ChunkOk, CallsOk, SlotsOwned, Routed, ZeroPast;
    var u := Next(s, e);
    if e.Run? && IsChunkStep(s.puts[e.t].pc) {
      OnChunkSees(s.cap, s.chunks[s.puts[e.t].at], e.t, s.puts[e.t]);
      if u.puts[e.t].at == c && PastStart(u.puts[e.t]) && u.puts[e.t].e.epoch == 0 {
        ZeroPastIs(u, c, e.t);
      }
    }
    if ZeroPast(s, c) {
      ZeroPastStays(s, e, c);
    }
  }

  lemma ZeroPastIs(s: State, c: nat, v: nat)
    requires v in s.puts && s.puts[v].at == c && PastStart(s.puts[v]) && s.puts[v].e.epoch == 0
    ensures ZeroPast(s, c)
  {
  }

  lemma {:induction false} RunLoaded(cap: nat, tr: seq<State>, ev: seq<Event>, c: nat, i: nat)
    requires IsRun(cap, tr, ev) && i < |tr|
    ensures Loaded(tr[i]) && ZeroIsReal(tr[i], c)
  {
    if i == 0 {
      assert tr[0] == Initial(cap);
    } else {
      hide Inv, Loaded, ZeroIsReal, Next;
      RunLoaded(cap, tr, ev, c, i - 1);
      RunInv(cap, tr, ev, i - 1);
      assert Enabled(tr[i - 1], ev[i - 1]);
      LoadedNext(tr[i - 1], ev[i - 1]);
      ZeroIsRealNext(tr[i - 1], ev[i - 1], c);
    }
  }

  // Unless it swaps, a step leaves the start; a call that gets past its update is covered or gives up.
  lemma {:induction false} OnChunkStart(cap: nat, ch: Chunk, t: nat, p: Put)
    requires |ch.slots| == cap && (p.HasSlot() ==> p.slot < cap) && IsChunkStep(p.pc)
    requires PastStart(p) ==> ch.epochStart <= p.e.epoch
    requires !(p.pc.CasStart? && p.pc.round >= 3 && p.pc.first != ch.epochStart > p.e.epoch)
    ensures var (ch', q) := OnChunk(cap, ch, t, p);
            && q.at == p.at && (PastStart(q) ==> ch'.epochStart <= q.e.epoch)
            && ch'.epochStart == if p.pc.CasStart? && p.pc.first == ch.epochStart then p.e.epoch else ch.epochStart
  {
  }

  lemma {:induction false} StartStepCovers(s: State, e: Event, c: nat)
    requires Inv(s) && Enabled(s, e) && Loaded(s) && ZeroIsReal(s, c) && StartCovered(s, c)
    requires e.Run? ==> !GivesUp(s, c, e.t) && !Raises(s, c, e.t)
    ensures StartCovered(Next(s, e), c)
  {
    hide OnChunk, ChunkOk, CallsOk, SlotsOwned, Routed;
    if e.Run? && IsChunkStep(s.puts[e.t].pc) {
      var p := s.puts[e.t];
      OnChunkStays(s.cap, s.chunks[p.at], e.t, p);
      if p.at == c {
        OnChunkStart(s.cap, s.chunks[c], e.t, p);
      }
    }
  }

  lemma {:induction false} HarmShows(s: State, c: nat, t: nat)
    requires Inv(s) && (GivesUp(s, c, t) || Raises(s, c, t))
    ensures !StartCovered(Next(s, Run(t)), c)
  {
    hide ChunkOk, CallsOk, SlotsOwned, Routed;
    var u := Next(s, Run(t));
    if GivesUp(s, c, t) {
      assert u.puts[t].pc.AddSize? && u.puts[t].e == s.puts[t].e;
    } else {
      var v :| v in s.puts && s.puts[v].at == c && PastStart(s.puts[v]) && s.puts[v].e.epoch == 0;
      assert v != t && u.puts[v] == s.puts[v];
    }
  }

  lemma {:induction false} StartCoveredUnlessHarmed(cap: nat, tr: seq<State>, ev: seq<Event>, c: nat, i: nat)
    requires IsRun(cap, tr, ev) && i < |tr| && forall b: nat, t: nat :: b < i ==> !HarmsAt(tr, ev, c, b, t)
    ensures StartCovered(tr[i], c)
  {
    if i == 0 {
      assert tr[0] == Initial(cap);
    } else {
      hide Inv, StartCovered, Next, GivesUp, Raises, Loaded, ZeroIsReal;
      StartCoveredUnlessHarmed(cap, tr, ev, c, i - 1);
      RunInv(cap, tr, ev, i - 1);
      RunLoaded(cap, tr, ev, c, i - 1);
      assert Enabled(tr[i - 1], ev[i - 1]);
      if ev[i - 1].Run? {
        assert !HarmsAt(tr, ev, c, i - 1, ev[i - 1].t);
      }
      StartStepCovers(tr[i - 1], ev[i - 1], c);
    }
  }

  // The exact condition: epochStart covers all updated calls at every moment of a run if and only if no call
  // gives up against a later epoch, and none of a later epoch replaces a start that is the epoch 0 of an entry.
  lemma {:induction false} StartCoveredIff(cap: nat, tr: seq<State>, ev: seq<Event>, c: nat, z: nat)
    requires IsRun(cap, tr, ev) && z < |tr|
    ensures (forall i: nat :: i <= z ==> StartCovered(tr[i], c))
       <==> forall b: nat, t: nat :: b < z ==> !HarmsAt(tr, ev, c, b, t)
  {
    if forall b: nat, t: nat :: b < z ==> !HarmsAt(tr, ev, c, b, t) {
      forall i: nat | i <= z ensures StartCovered(tr[i], c) {
        StartCoveredUnlessHarmed(cap, tr, ev, c, i);
      }
    }
    forall b: nat, t: nat | b < z && HarmsAt(tr, ev, c, b, t) ensures !StartCovered(tr[b + 1], c) {
      RunInv(cap, tr, ev, b);
      assert Enabled(tr[b], ev[b]) && tr[b + 1] == Next(tr[b], ev[b]);
      HarmShows(tr[b], c, t);
    }
  }

  // All entries given come from another second than 0.
  predicate NoneOfZero(ev: seq<Event>) {
    forall b :: 0 <= b < |ev| && ev[b].Start? ==> ev[b].e.epoch != 0
  }

  lemma {:induction false} EntriesAreGiven(cap: nat, tr: seq<State>, ev: seq<Event>, i: nat)
    requires IsRun(cap, tr, ev) && i < |tr| && NoneOfZero(ev)
    ensures forall t :: t in tr[i].puts ==> tr[i].puts[t].e.epoch != 0
  {
    if i == 0 {
      assert tr[0] == Initial(cap);
    } else {
      hide Inv;
      EntriesAreGiven(cap, tr, ev, i - 1);
      RunInv(cap, tr, ev, i - 1);
      assert Enabled(tr[i - 1], ev[i - 1]);
      NextKeepsEntries(tr[i - 1], ev[i - 1]);
    }
  }

  lemma {:induction false} NextKeepsEntries(s: State, e: Event)
    requires Inv(s) && Enabled(s, e)
    ensures forall t :: t in Next(s, e).puts ==>
              if e.Start? && e.t == t then Next(s, e).puts[t].e == e.e
              else t in s.puts && Next(s, e).puts[t].e == s.puts[t].e
  {
    hide OnChunk, ChunkOk, CallsOk, SlotsOwned, Routed;
    if e.Run? && IsChunkStep(s.puts[e.t].pc) {
      OnChunkSees(s.cap, s.chunks[s.puts[e.t].at], e.t, s.puts[e.t]);
    }
  }

  lemma {:induction false} HarmIsGivingUp(cap: nat, tr: seq<State>, ev: seq<Event>, c: nat, b: nat, t: nat)
    requires IsRun(cap, tr, ev) && b < |ev| && NoneOfZero(ev)
    ensures HarmsAt(tr, ev, c, b, t) <==> ev[b] == Run(t) && GivesUp(tr[b], c, t)
  {
    hide NoneOfZero, GivesUp;
    EntriesAreGiven(cap, tr, ev, b);
  }

  // Where no entry is from second 0, only giving up does harm.
  lemma {:induction false} StartCoveredUnlessGivenUp(cap: nat, tr: seq<State>, ev: seq<Event>, c: nat, z: nat)
    requires IsRun(cap, tr, ev) && z < |tr| && NoneOfZero(ev)
    ensures (forall i: nat :: i <= z ==> StartCovered(tr[i], c))
       <==> forall b: nat, t: nat :: b < z && ev[b] == Run(t) ==> !GivesUp(tr[b], c, t)
  {
    StartCoveredIff(cap, tr, ev, c, z);
    var covered := forall i: nat :: i <= z ==> StartCovered(tr[i], c);
    var kept := forall b: nat, t: nat :: b < z && ev[b] == Run(t) ==> !GivesUp(tr[b], c, t);
    hide StartCovered, GivesUp, HarmsAt, NoneOfZero;
    if covered {
      forall b: nat, t: nat | b < z && ev[b] == Run(t) ensures !GivesUp(tr[b], c, t) {
        HarmIsGivingUp(cap, tr, ev, c, b, t);
      }
    }
    if kept {
      forall b: nat, t: nat | b < z ensures !HarmsAt(tr, ev, c, b, t) {
        HarmIsGivingUp(cap, tr, ev, c, b, t);
      }
    }
  }

  // A call that swaps again does so to lower the start it has found.
  ghost predicate Lowers(p: Put) {
    p.pc.CasStart? && p.pc.round > 0 ==> p.e.epoch < p.pc.first
  }

  lemma {:induction false} LowersNext(s: State, e: Event)
    requires Inv(s) && Enabled(s, e) && forall t :: t in s.puts ==> Lowers(s.puts[t])
    ensures forall t :: t in Next(s, e).puts ==> Lowers(Next(s, e).puts[t])
  {
    hide ChunkOk, CallsOk, SlotsOwned, Routed;
    forall t | t in Next(s, e).puts ensures Lowers(Next(s, e).puts[t]) {
      if e.Run? && e.t == t {
        assert Lowers(s.puts[t]);
      }
    }
  }

  lemma {:induction false} RunLowers(cap: nat, tr: seq<State>, ev: seq<Event>, i: nat)
    requires IsRun(cap, tr, ev) && i < |tr|
    ensures forall t :: t in tr[i].puts ==> Lowers(tr[i].puts[t])
  {
    if i == 0 {
      assert tr[0] == Initial(cap);
    } else {
      RunLowers(cap, tr, ev, i - 1);
      RunInv(cap, tr, ev, i - 1);
      assert Enabled(tr[i - 1], ev[i - 1]);
      hide Inv, Lowers;
      LowersNext(tr[i - 1], ev[i - 1]);
    }
  }

  // So a call that has lost a swap never raises the start: a 0 is only replaced at the first attempt.
  lemma {:induction false} OnlyFirstRaises(cap: nat, tr: seq<State>, ev: seq<Event>, c: nat, b: nat, t: nat)
    requires IsRun(cap, tr, ev) && b < |tr| && Raises(tr[b], c, t)
    ensures tr[b].puts[t].pc == CasStart(0, 0)
  {
    RunLowers(cap, tr, ev, b);
    assert Lowers(tr[b].puts[t]);
  }

  // ---- Runs in which they fail ----

  const EARLY := Entry(1, 0, "")
  const LATE := Entry(2, 0, "")

  function First(pc: Pc): Put {
    Put(EARLY, 0, false, 0, 0, pc)
  }

  function Second(slot: nat, pc: Pc): Put {
    Put(LATE, 0, false, 0, slot, pc)
  }

  function Both(p: Put, q: Put): map<nat, Put> {
    map[0 := p, 1 := q]
  }

  function OfTwo(book: nat, write: nat, start: int, end: int, x: Slot, y: Slot): Chunk {
    Chunk(book, write, 0, start, end, false, [x, y])
  }

  lemma {:induction false} FirstMoves(tr: seq<State>, ev: seq<Event>, ch: Chunk, q: Put, a: Pc, ch': Chunk, b: Pc)
      returns (tr': seq<State>, ev': seq<Event>)
    requires Ends(tr, ev, Small(ch, Both(First(a), q))) && IsChunkStep(a) && |ch.slots| == 2
    requires q.at == 0 && q.slot < 2 && OnChunk(2, ch, 0, First(a)) == (ch', First(b))
    ensures Ends(tr', ev', Small(ch', Both(First(b), q)))
  {
    tr', ev' := Works(tr, ev, ch, Both(First(a), q), 0);
    assert Both(First(a), q)[0 := First(b)] == Both(First(b), q);
  }

  lemma {:induction false} SecondMoves(tr: seq<State>, ev: seq<Event>, ch: Chunk, p: Put, q: Put, ch': Chunk, q': Put)
      returns (tr': seq<State>, ev': seq<Event>)
    requires Ends(tr, ev, Small(ch, Both(p, q))) && IsChunkStep(q.pc) && |ch.slots| == 2
    requires p.at == 0 == q.at && p.slot < 2 && q.slot < 2 && OnChunk(2, ch, 1, q) == (ch', q')
    ensures Ends(tr', ev', Small(ch', Both(p, q')))
  {
    tr', ev' := Works(tr, ev, ch, Both(p, q), 1);
    assert Both(p, q)[1 := q'] == Both(p, q');
  }

  lemma TwoSet(x: Slot, y: Slot, z: Slot)
    ensures [x, y][0 := z] == [z, y] && [x, y][1 := z] == [x, z]
  {
  }

  lemma {:induction false} TwoStart() returns (tr: seq<State>, ev: seq<Event>)
    ensures Ends(tr, ev, Small(OfTwo(0, 0, 0, 0, Free, Free), Both(First(Check), Second(0, Check))))
  {
    tr, ev := [Initial(2)], [];
    assert Fresh(2) == OfTwo(0, 0, 0, 0, Free, Free);
    tr, ev := Joins(tr, ev, Fresh(2), map[], 0, EARLY);
    var one := map[][0 := First(Check)];
    tr, ev := Joins(tr, ev, Fresh(2), one, 1, LATE);
    assert one[1 := Second(0, Check)] == Both(First(Check), Second(0, Check));
  }

  // Both calls book, store, and load the same epochEnd.
  lemma {:induction false} BothLoad() returns (tr: seq<State>, ev: seq<Event>)
    ensures Ends(tr, ev, Small(OfTwo(2, 0, 0, 0, Stored(0, EARLY), Stored(1, LATE)),
                               Both(First(CasEnd(0)), Second(1, CasEnd(0)))))
  {
    hide Ends, Small, Both;
    tr, ev := TwoStart();
    var x, y := Stored(0, EARLY), Stored(1, LATE);
    TwoSet(Free, Free, Booked(0));
    TwoSet(Booked(0), Free, x);
    TwoSet(x, Free, Booked(1));
    TwoSet(x, Booked(1), y);
    var ch := OfTwo(1, 0, 0, 0, x, Free);
    var q := Second(0, Check);
    tr, ev := FirstMoves(tr, ev, OfTwo(0, 0, 0, 0, Free, Free), q, Check, OfTwo(0, 0, 0, 0, Free, Free), Book);
    tr, ev := FirstMoves(tr, ev, OfTwo(0, 0, 0, 0, Free, Free), q, Book, OfTwo(1, 0, 0, 0, Booked(0), Free), Store);
    tr, ev := FirstMoves(tr, ev, OfTwo(1, 0, 0, 0, Booked(0), Free), q, Store, ch, LoadEnd);
    tr, ev := FirstMoves(tr, ev, ch, q, LoadEnd, ch, CasEnd(0));
    var p := First(CasEnd(0));
    tr, ev := SecondMoves(tr, ev, ch, p, q, ch, Second(0, Book));
    tr, ev := SecondMoves(tr, ev, ch, p, Second(0, Book), OfTwo(2, 0, 0, 0, x, Booked(1)), Second(1, Store));
    ch := OfTwo(2, 0, 0, 0, x, y);
    tr, ev := SecondMoves(tr, ev, OfTwo(2, 0, 0, 0, x, Booked(1)), p, Second(1, Store), ch, Second(1, LoadEnd));
    tr, ev := SecondMoves(tr, ev, ch, p, Second(1, LoadEnd), ch, Second(1, CasEnd(0)));
  }

  // The earlier epoch is swapped in first, the swap of the later one fails, and both calls finish.
  lemma {:induction false} BothFinish(tr0: seq<State>, ev0: seq<Event>) returns (tr: seq<State>, ev: seq<Event>)
    requires Ends(tr0, ev0, Small(OfTwo(2, 0, 0, 0, Stored(0, EARLY), Stored(1, LATE)),
                                  Both(First(CasEnd(0)), Second(1, CasEnd(0)))))
    ensures Ends(tr, ev, Small(OfTwo(2, 2, 1, 1, Counted(0, EARLY), Counted(1, LATE)),
                               Both(First(Done), Second(1, Done))))
  {
    hide Ends, Small, Both;
    var x, y, z := Stored(0, EARLY), Stored(1, LATE), Counted(0, EARLY);
    TwoSet(x, y, Sized(0, EARLY));
    TwoSet(Sized(0, EARLY), y, z);
    TwoSet(z, y, Sized(1, LATE));
    TwoSet(z, Sized(1, LATE), Counted(1, LATE));
    var q := Second(1, CasEnd(0));
    var ch := OfTwo(2, 0, 0, 1, x, y);
    tr, ev := FirstMoves(tr0, ev0, OfTwo(2, 0, 0, 0, x, y), q, CasEnd(0), ch, LoadStart);
    tr, ev := FirstMoves(tr, ev, ch, q, LoadStart, ch, CasStart(0, 0));
    tr, ev := FirstMoves(tr, ev, ch, q, CasStart(0, 0), OfTwo(2, 0, 1, 1, x, y), AddSize);
    ch := OfTwo(2, 0, 1, 1, Sized(0, EARLY), y);
    tr, ev := FirstMoves(tr, ev, OfTwo(2, 0, 1, 1, x, y), q, AddSize, ch, Count);
    tr, ev := FirstMoves(tr, ev, ch, q, Count, OfTwo(2, 1, 1, 1, z, y), Done);
    var p := First(Done);
    ch := OfTwo(2, 1, 1, 1, z, y);
    tr, ev := SecondMoves(tr, ev, ch, p, q, ch, Second(1, LoadStart));
    tr, ev := SecondMoves(tr, ev, ch, p, Second(1, LoadStart), ch, Second(1, AddSize));
    var last := OfTwo(2, 1, 1, 1, z, Sized(1, LATE));
    tr, ev := SecondMoves(tr, ev, ch, p, Second(1, AddSize), last, Second(1, Count));
    tr, ev := SecondMoves(tr, ev, last, p, Second(1, Count), OfTwo(2, 2, 1, 1, z, Counted(1, LATE)), Second(1, Done));
  }

  // The chunk is full and ready, and the epoch recorded for it is earlier than that of its last entry.
  lemma {:induction false} EndFallsShort() returns (tr: seq<State>, ev: seq<Event>, l: nat)
    ensures IsRun(2, tr, ev) && l + 1 == |tr| && ReadyTrue(tr, 0, l, l, l)
    ensures var ch := tr[l].chunks[0];
            |ch.slots| == 2 && ch.slots[1] == Counted(1, LATE) && ch.epochEnd < LATE.epoch
  {
    tr, ev := BothLoad();
    tr, ev := BothFinish(tr, ev);
    l := |tr| - 1;
  }

  function Newer(slot: nat, pc: Pc): Put {
    Put(EARLY, 0, false, 0, slot, pc)
  }

  // A first call with epoch 0 leaves the start at 0; a second one takes it for unset, and the chunk is full with
  // a start behind the epoch of its first entry.
  lemma {:induction false} StartRises() returns (tr: seq<State>, ev: seq<Event>, l: nat)
    ensures IsRun(2, tr, ev) && l + 1 == |tr| && ReadyTrue(tr, 0, l, l, l)
    ensures var ch := tr[l].chunks[0]; |ch.slots| == 2 && ch.slots[0] == Counted(0, E) && ch.epochStart > E.epoch
  {
    tr, ev := OneAlone();
    var x, p := Counted(0, E), Put(E, 0, false, 0, 0, Done);
    var ch := OfTwo(1, 1, 0, 0, x, Free);
    tr, ev := Joins(tr, ev, ch, Alone(Done), 1, EARLY);
    assert Alone(Done)[1 := Newer(0, Check)] == Both(p, Newer(0, Check));
    tr, ev := SecondRuns(tr, ev, x, p);
    l := |tr| - 1;
  }

  lemma {:induction false} SecondRuns(tr0: seq<State>, ev0: seq<Event>, x: Slot, p: Put)
      returns (tr: seq<State>, ev: seq<Event>)
    requires Ends(tr0, ev0, Small(OfTwo(1, 1, 0, 0, x, Free), Both(p, Newer(0, Check)))) && p.at == 0 && p.slot < 2
    ensures Ends(tr, ev, Small(OfTwo(2, 2, 1, 1, x, Counted(1, EARLY)), Both(p, Newer(1, Done))))
  {
    hide Ends, Small, Both;
    var y := Stored(1, EARLY);
    TwoSet(x, Free, Booked(1));
    TwoSet(x, Booked(1), y);
    TwoSet(x, y, Sized(1, EARLY));
    TwoSet(x, Sized(1, EARLY), Counted(1, EARLY));
    var ch := OfTwo(1, 1, 0, 0, x, Free);
    tr, ev := SecondMoves(tr0, ev0, ch, p, Newer(0, Check), ch, Newer(0, Book));
    tr, ev := SecondMoves(tr, ev, ch, p, Newer(0, Book), OfTwo(2, 1, 0, 0, x, Booked(1)), Newer(1, Store));
    ch := OfTwo(2, 1, 0, 0, x, y);
    tr, ev := SecondMoves(tr, ev, OfTwo(2, 1, 0, 0, x, Booked(1)), p, Newer(1, Store), ch, Newer(1, LoadEnd));
    tr, ev := SecondMoves(tr, ev, ch, p, Newer(1, LoadEnd), ch, Newer(1, CasEnd(0)));
    tr, ev := SecondMoves(tr, ev, ch, p, Newer(1, CasEnd(0)), OfTwo(2, 1, 0, 1, x, y), Newer(1, LoadStart));
    ch := OfTwo(2, 1, 0, 1, x, y);
    tr, ev := SecondMoves(tr, ev, ch, p, Newer(1, LoadStart), ch, Newer(1, CasStart(0, 0)));
    tr, ev := SecondMoves(tr, ev, ch, p, Newer(1, CasStart(0, 0)), OfTwo(2, 1, 1, 1, x, y), Newer(1, AddSize));
    ch := OfTwo(2, 1, 1, 1, x, Sized(1, EARLY));
    tr, ev := SecondMoves(tr, ev, OfTwo(2, 1, 1, 1, x, y), p, Newer(1, AddSize), ch, Newer(1, Count));
    tr, ev := SecondMoves(tr, ev, ch, p, Newer(1, Count), OfTwo(2, 2, 1, 1, x, Counted(1, EARLY)), Newer(1, Done));
  }

  // ---- A call that gives up ----

  // A run of a chunk with five places.
  ghost predicate OfFive(tr: seq<State>, ev: seq<Event>, ch: Chunk, puts: map<nat, Put>) {
    && Ends(tr, ev, Small(ch, puts)) && |ch.slots| == 5 && !ch.locked
    && forall v :: v in puts ==> puts[v].at == 0 && (puts[v].HasSlot() ==> puts[v].slot < 5)
  }

  lemma {:induction false} Does(tr: seq<State>, ev: seq<Event>, ch: Chunk, puts: map<nat, Put>, t: nat)
      returns (tr': seq<State>, ev': seq<Event>, ch': Chunk, puts': map<nat, Put>)
    requires OfFive(tr, ev, ch, puts) && t in puts && IsChunkStep(puts[t].pc)
    ensures var (ch1, q) := OnChunk(5, ch, t, puts[t]); ch' == ch1 && puts' == puts[t := q]
    ensures OfFive(tr', ev', ch', puts') && tr < tr' && ev < ev' && |tr'| == |tr| + 1 && ev'[|ev|] == Run(t)
  {
    tr', ev' := OneMore(5, tr, ev, Run(t));
    var (ch1, q) := OnChunk(5, ch, t, puts[t]);
    assert [ch][0 := ch1] == [ch1];
    ch', puts' := ch1, puts[t := q];
  }

  function From(epoch: int, slot: nat, pc: Pc): Put {
    Put(Entry(epoch, 0, ""), 0, false, 0, slot, pc)
  }

  // A new call gets to its update of the start.
  lemma {:induction false} Comes(tr: seq<State>, ev: seq<Event>, ch: Chunk, puts: map<nat, Put>, t: nat, epoch: int)
      returns (tr': seq<State>, ev': seq<Event>, ch': Chunk, puts': map<nat, Put>)
    requires OfFive(tr, ev, ch, puts) && t !in puts && ch.book < 5
    ensures OfFive(tr', ev', ch', puts') && puts' == puts[t := From(epoch, ch.book, LoadStart)]
    ensures ch'.book == ch.book + 1 && ch'.epochStart == ch.epochStart
  {
    hide OfFive;
    ch' := ch;
    tr', ev', puts' := ComesIn(tr, ev, ch, puts, t, epoch);
    tr', ev', ch', puts' := Does(tr', ev', ch', puts', t);
    tr', ev', ch', puts' := Does(tr', ev', ch', puts', t);
    tr', ev', ch', puts' := Does(tr', ev', ch', puts', t);
    tr', ev', ch', puts' := Does(tr', ev', ch', puts', t);
    if puts'[t].pc.CasEnd? {
      tr', ev', ch', puts' := Does(tr', ev', ch', puts', t);
    }
  }

  lemma {:induction false} ComesIn(tr: seq<State>, ev: seq<Event>, ch: Chunk, puts: map<nat, Put>, t: nat, epoch: int)
      returns (tr': seq<State>, ev': seq<Event>, puts': map<nat, Put>)
    requires OfFive(tr, ev, ch, puts) && t !in puts
    ensures OfFive(tr', ev', ch, puts') && puts' == puts[t := From(epoch, 0, Check)] && !ch.locked
  {
    tr', ev' := Joins(tr, ev, ch, puts, t, Entry(epoch, 0, ""));
    puts' := puts[t := From(epoch, 0, Check)];
  }

  // The calls are numbered as they come.
  ghost predicate Numbered(ch: Chunk, puts: map<nat, Put>) {
    forall v :: v in puts ==> v < ch.book
  }

  // A rival of call 0 comes and swaps its epoch in.
  lemma {:induction false} RivalWins(tr: seq<State>, ev: seq<Event>, ch: Chunk, puts: map<nat, Put>, epoch: int)
      returns (tr': seq<State>, ev': seq<Event>, ch': Chunk, puts': map<nat, Put>)
    requires OfFive(tr, ev, ch, puts) && Numbered(ch, puts) && 0 in puts && ch.book < 5
    requires ch.epochStart == 0 || epoch < ch.epochStart
    ensures OfFive(tr', ev', ch', puts') && Numbered(ch', puts') && ch'.book == ch.book + 1
    ensures ch'.epochStart == epoch && 0 in puts' && puts'[0] == puts[0]
  {
    hide OfFive;
    var t := ch.book;
    tr', ev', ch', puts' := Comes(tr, ev, ch, puts, t, epoch);
    tr', ev', ch', puts' := Does(tr', ev', ch', puts', t);
    tr', ev', ch', puts' := Does(tr', ev', ch', puts', t);
  }

  // Call 0, which has loaded the start before, fails and loads it again.
  lemma {:induction false} LoserRetries(tr: seq<State>, ev: seq<Event>, ch: Chunk, puts: map<nat, Put>,
                                        first: int, round: nat)
      returns (tr': seq<State>, ev': seq<Event>, puts': map<nat, Put>)
    requires OfFive(tr, ev, ch, puts) && 0 in puts && puts[0] == From(1, 0, CasStart(first, round))
    requires first != ch.epochStart && 1 < ch.epochStart && round < 3
    ensures OfFive(tr', ev', ch, puts') && (Numbered(ch, puts) ==> Numbered(ch, puts')) && 0 in puts'
    ensures puts'[0] == From(1, 0, CasStart(ch.epochStart, round + 1))
  {
    hide OfFive;
    var c;
    tr', ev', c, puts' := Does(tr, ev, ch, puts, 0);
    tr', ev', c, puts' := Does(tr', ev', c, puts', 0);
  }

  lemma {:induction false} FirstLoads()
      returns (tr: seq<State>, ev: seq<Event>, ch: Chunk, puts: map<nat, Put>)
    ensures OfFive(tr, ev, ch, puts) && Numbered(ch, puts) && ch.book == 1 && ch.epochStart == 0
    ensures 0 in puts && puts[0] == From(1, 0, CasStart(0, 0))
  {
    tr, ev, ch, puts := [Initial(5)], [], Fresh(5), map[];
    assert OfFive(tr, ev, ch, puts);
    hide OfFive;
    tr, ev, ch, puts := Comes(tr, ev, ch, puts, 0, 1);
    tr, ev, ch, puts := Does(tr, ev, ch, puts, 0);
  }

  // Call 0, with epoch 1, is about to lose for the fourth time: the epochs 5, 4, 3 and 2 have come between.
  lemma {:induction false} FourRivals()
      returns (tr: seq<State>, ev: seq<Event>, ch: Chunk, puts: map<nat, Put>)
    ensures OfFive(tr, ev, ch, puts) && 0 in puts && puts[0] == From(1, 0, CasStart(3, 3)) && ch.epochStart == 2
  {
    tr, ev, ch, puts := FirstLoads();
    hide OfFive, Numbered;
    tr, ev, ch, puts := RivalWins(tr, ev, ch, puts, 5);
    tr, ev, puts := LoserRetries(tr, ev, ch, puts, 0, 0);
    tr, ev, ch, puts := RivalWins(tr, ev, ch, puts, 4);
    tr, ev, puts := LoserRetries(tr, ev, ch, puts, 5, 1);
    tr, ev, ch, puts := RivalWins(tr, ev, ch, puts, 3);
    tr, ev, puts := LoserRetries(tr, ev, ch, puts, 4, 2);
    tr, ev, ch, puts := RivalWins(tr, ev, ch, puts, 2);
  }

  // It gives up, and its entry is counted before the start of its chunk.
  lemma {:induction false} GivingUpIsReached() returns (tr: seq<State>, ev: seq<Event>, b: nat)
    ensures IsRun(5, tr, ev) && b < |ev| && ev[b] == Run(0) && GivesUp(tr[b], 0, 0)
    ensures |tr[|tr| - 1].chunks| == 1
    ensures var ch := tr[|tr| - 1].chunks[0];
            |ch.slots| == 5 && ch.slots[0].Counted? && ch.slots[0].e.epoch < ch.epochStart
  {
    var ch, puts;
    tr, ev, ch, puts := FourRivals();
    b := |ev|;
    var s := tr[b];
    assert s == Small(ch, puts) && GivesUp(s, 0, 0);
    hide GivesUp;
    tr, ev, ch, puts := Does(tr, ev, ch, puts, 0);
    tr, ev, ch, puts := Does(tr, ev, ch, puts, 0);
    tr, ev, ch, puts := Does(tr, ev, ch, puts, 0);
    assert tr[b] == s;
  }
}
