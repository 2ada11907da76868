// Runs of the ingestion protocol: any interleaving of any number of Ingest calls with the flusher, and what
// Ready and List are worth in it (chunk.go, ingester.go).
module Interleavings {
  import opened LogEntry
  import opened Protocol

  // A run: tr[i + 1] follows from tr[i] by event ev[i].
  ghost predicate IsRun(cap: nat, tr: seq<State>, ev: seq<Event>) {
    && |tr| == |ev| + 1 && tr[0] == Initial(cap)
    && forall i {:trigger ev[i]} :: 0 <= i < |ev| ==>
         WellFormed(tr[i]) && Enabled(tr[i], ev[i]) && tr[i + 1] == Next(tr[i], ev[i])
  }

  lemma {:induction false} LaterTransitive(s: State, u: State, v: State)
    requires Later(s, u) && Later(u, v)
    ensures Later(s, v)
  {
    forall c | 0 <= c < |s.chunks|
      ensures ChunkLater(s.chunks[c], v.chunks[c])
    {
      var x, y, z := s.chunks[c], u.chunks[c], v.chunks[c];
      assert ChunkLater(x, y) && ChunkLater(y, z);
      forall n | 0 <= n < |x.slots|
        ensures SlotLater(x.slots[n], z.slots[n])
      {
        assert SlotLater(x.slots[n], y.slots[n]) && SlotLater(y.slots[n], z.slots[n]);
      }
    }
  }

  lemma {:induction false} RunInv(cap: nat, tr: seq<State>, ev: seq<Event>, i: nat)
    requires IsRun(cap, tr, ev) && i < |tr|
    ensures Inv(tr[i]) && tr[i].cap == cap
  {
    if i == 0 {
      InvInitial(cap);
    } else {
      RunInv(cap, tr, ev, i - 1);
      assert Enabled(tr[i - 1], ev[i - 1]);
      InvNext(tr[i - 1], ev[i - 1]);
    }
  }

  lemma {:induction false} RunLater(cap: nat, tr: seq<State>, ev: seq<Event>, i: nat, j: nat)
    requires IsRun(cap, tr, ev) && i <= j < |tr|
    ensures Later(tr[i], tr[j])
    decreases j - i
  {
    if i == j {
      ChainIsLater(tr[i], tr[i]);
    } else {
      RunLater(cap, tr, ev, i, j - 1);
      RunInv(cap, tr, ev, j - 1);
      assert Enabled(tr[j - 1], ev[j - 1]);
      InvNext(tr[j - 1], ev[j - 1]);
      LaterTransitive(tr[i], tr[j - 1], tr[j]);
    }
  }

  // What moment i shows of slot n of chunk c still holds at moment j.
  lemma {:induction false} Persists(cap: nat, tr: seq<State>, ev: seq<Event>, c: nat, n: nat, i: nat, j: nat)
    requires IsRun(cap, tr, ev) && i <= j < |tr| && c < |tr[i].chunks| && n < cap
    ensures c < |tr[j].chunks| && |tr[i].chunks[c].slots| == cap == |tr[j].chunks[c].slots|
    ensures SlotLater(tr[i].chunks[c].slots[n], tr[j].chunks[c].slots[n])
    ensures ChunkLater(tr[i].chunks[c], tr[j].chunks[c])
    ensures tr[j].chunks[c].write <= cap
  {
    RunInv(cap, tr, ev, i);
    RunInv(cap, tr, ev, j);
    RunLater(cap, tr, ev, i, j);
    WriteBound(tr[j], c);
    assert ChunkLater(tr[i].chunks[c], tr[j].chunks[c]);
  }

  // Ready(): three loads at three moments of the run, any steps in between.
  ghost predicate ReadyTrue(tr: seq<State>, c: nat, m: nat, p: nat, q: nat) {
    && m <= p <= q < |tr| && c < |tr[m].chunks| && c < |tr[p].chunks| && c < |tr[q].chunks|
    && var w := tr[m].chunks[c].write;
       w == tr[m].cap || (tr[p].chunks[c].book > 0 && w == tr[p].chunks[c].book && tr[q].chunks[c].locked)
  }

  // List() at some moment: the first `write` cells.
  function List(ch: Chunk): (l: seq<Cell>)
    requires ch.write <= |ch.slots|
    ensures |l| == ch.write
  {
    seq(ch.write, n requires 0 <= n < ch.write => ch.slots[n].Cell())
  }

  lemma {:induction false} WriteBound(s: State, c: nat)
    requires Inv(s) && c < |s.chunks|
    ensures s.chunks[c].write <= s.cap && s.chunks[c].write <= s.chunks[c].book
    ensures s.chunks[c].write == s.chunks[c].book || s.chunks[c].write == s.cap ==>
              forall n :: 0 <= n < s.chunks[c].write ==> s.chunks[c].slots[n].Counted?
  {
    var ch := s.chunks[c];
    assert ChunkOk(s.cap, ch);
    CountedPrefix(ch.slots, if ch.book < s.cap then ch.book else s.cap);
  }

  // Ready is a promise about the moment of its first load: the slots below the loaded w are complete
  // then, nobody else had completed, and from then on they never change.
  lemma {:induction false} ReadySettles(cap: nat, tr: seq<State>, ev: seq<Event>, c: nat, m: nat, p: nat, q: nat)
    requires IsRun(cap, tr, ev) && ReadyTrue(tr, c, m, p, q)
    ensures var w := tr[m].chunks[c].write;
            && w <= cap && |tr[m].chunks[c].slots| == cap
            && (w == cap || w == tr[m].chunks[c].book)
            && (forall n :: 0 <= n < w ==> tr[m].chunks[c].slots[n].Counted?)
            && (forall n :: w <= n < cap ==> !tr[m].chunks[c].slots[n].Counted?)
  {
    RunInv(cap, tr, ev, m);
    RunInv(cap, tr, ev, p);
    RunLater(cap, tr, ev, m, p);
    assert ChunkLater(tr[m].chunks[c], tr[p].chunks[c]);
    WriteBound(tr[m], c);
    assert ChunkOk(cap, tr[m].chunks[c]);
  }

  // Every Put that had returned from chunk c before Ready's first load is in every later List().
  lemma {:induction false} ReadyMeansListed(cap: nat, tr: seq<State>, ev: seq<Event>, c: nat,
                                            m: nat, p: nat, q: nat, l: nat, t: nat)
    requires IsRun(cap, tr, ev) && ReadyTrue(tr, c, m, p, q) && m <= l < |tr|
    requires t in tr[m].puts && tr[m].puts[t].at == c
    requires tr[m].puts[t].pc.Done? || tr[m].puts[t].pc.CasId? || tr[m].puts[t].pc.SetPtr?
    ensures c < |tr[l].chunks| && tr[l].chunks[c].write <= |tr[l].chunks[c].slots|
    ensures tr[m].puts[t].slot < |List(tr[l].chunks[c])|
    ensures List(tr[l].chunks[c])[tr[m].puts[t].slot] == Ptr(tr[m].puts[t].e)
  {
    ReadySettles(cap, tr, ev, c, m, p, q);
    RunInv(cap, tr, ev, m);
    var n := tr[m].puts[t].slot;
    assert Fits(tr[m].chunks[c].slots[n], t, tr[m].puts[t]);
    ReadyIsFinal(cap, tr, ev, c, m, p, q, l, n);
  }

  // What Ready settled is final, at every later moment.
  lemma {:induction false} ReadyIsFinal(cap: nat, tr: seq<State>, ev: seq<Event>, c: nat,
                                        m: nat, p: nat, q: nat, l: nat, n: nat)
    requires IsRun(cap, tr, ev) && ReadyTrue(tr, c, m, p, q) && m <= l < |tr|
    requires n < tr[m].chunks[c].write
    ensures c < |tr[l].chunks| && n < tr[l].chunks[c].write <= |tr[l].chunks[c].slots|
    ensures n < |tr[m].chunks[c].slots| && tr[l].chunks[c].slots[n] == tr[m].chunks[c].slots[n]
    ensures List(tr[l].chunks[c])[n] == tr[m].chunks[c].slots[n].Cell() != Nil
  {
    ReadySettles(cap, tr, ev, c, m, p, q);
    Persists(cap, tr, ev, c, n, m, l);
  }

  // ------------------------------------------------------------------ where losses come from

  lemma {:induction false} OnChunkTakes(cap: nat, ch: Chunk, t: nat, p: Put, n: nat)
    requires ChunkOk(cap, ch) && n < cap && ch.slots[n].Free?
    requires p.HasSlot() ==> p.slot < cap && Fits(ch.slots[p.slot], t, p)
    ensures var ch' := OnChunk(cap, ch, t, p).0;
            n < |ch'.slots| && (!ch'.slots[n].Free? ==> p.pc.Book? && ch.book == n && ch'.slots[n] == Booked(t))
  {
  }

  // A slot is taken only by a call that stands at its booking step on that chunk.
  lemma {:induction false} OnlyBookingTakes(s: State, ev: Event, c: nat, n: nat)
    requires Inv(s) && Enabled(s, ev) && c < |s.chunks| && n < s.cap
    requires s.chunks[c].slots[n].Free? && Inv(Next(s, ev)) && !Next(s, ev).chunks[c].slots[n].Free?
    ensures ev.Run? && s.puts[ev.t].pc.Book? && s.puts[ev.t].at == c && s.chunks[c].book == n
    ensures Next(s, ev).chunks[c].slots[n] == Booked(ev.t)
  {
    hide OnChunk, ChunkOk, Routed;
    if ev.Run? && IsChunkStep(s.puts[ev.t].pc) {
      var p := s.puts[ev.t];
      if p.at == c {
        OnChunkTakes(s.cap, s.chunks[c], ev.t, p, n);
      }
    }
  }

  ghost predicate BookedAt(tr: seq<State>, ev: seq<Event>, c: nat, n: nat, b: nat, t: nat) {
    && b < |ev| && b < |tr| && ev[b] == Run(t) && t in tr[b].puts
    && tr[b].puts[t].pc.Book? && tr[b].puts[t].at == c
    && c < |tr[b].chunks| && tr[b].chunks[c].book == n
  }

  lemma {:induction false} BookingStep(cap: nat, tr: seq<State>, ev: seq<Event>, c: nat, n: nat, b: nat)
    requires IsRun(cap, tr, ev) && b < |ev| && c < |tr[b].chunks| && n < cap
    requires n < |tr[b].chunks[c].slots| && tr[b].chunks[c].slots[n].Free?
    requires c < |tr[b + 1].chunks| && n < |tr[b + 1].chunks[c].slots| && !tr[b + 1].chunks[c].slots[n].Free?
    ensures BookedAt(tr, ev, c, n, b, tr[b + 1].chunks[c].slots[n].t)
  {
    RunInv(cap, tr, ev, b);
    RunInv(cap, tr, ev, b + 1);
    assert Enabled(tr[b], ev[b]) && tr[b + 1] == Next(tr[b], ev[b]);
    OnlyBookingTakes(tr[b], ev[b], c, n);
  }

  // The moment slot n of chunk c was booked.
  lemma {:induction false} FindBooking(cap: nat, tr: seq<State>, ev: seq<Event>, c: nat, n: nat, i: nat, z: nat)
      returns (b: nat)
    requires IsRun(cap, tr, ev) && i <= z < |tr| && c < |tr[i].chunks| && n < cap
    requires n < |tr[i].chunks[c].slots| && tr[i].chunks[c].slots[n].Free?
    requires c < |tr[z].chunks| && n < |tr[z].chunks[c].slots| && !tr[z].chunks[c].slots[n].Free?
    ensures i <= b < z && BookedAt(tr, ev, c, n, b, tr[z].chunks[c].slots[n].t)
    decreases z - i
  {
    Persists(cap, tr, ev, c, n, i, z - 1);
    Persists(cap, tr, ev, c, n, z - 1, z);
    if tr[z - 1].chunks[c].slots[n].Free? {
      BookingStep(cap, tr, ev, c, n, z - 1);
      b := z - 1;
    } else {
      b := FindBooking(cap, tr, ev, c, n, i, z - 1);
    }
  }

  lemma {:induction false} OnChunkChecks(cap: nat, ch: Chunk, t: nat, p: Put)
    requires |ch.slots| == cap && (p.HasSlot() ==> p.slot < cap)
    ensures var q := OnChunk(cap, ch, t, p).1;
            q.at == p.at && (q.pc.Book? && IsChunkStep(p.pc) ==> p.pc.Check? && !ch.locked)
  {
  }

  // A call comes to its booking step only from the check of the same chunk, found unlocked.
  lemma {:induction false} BookFollowsCheck(s: State, ev: Event, c: nat, t: nat)
    requires Inv(s) && Enabled(s, ev) && t in Next(s, ev).puts
    requires Next(s, ev).puts[t].pc.Book? && Next(s, ev).puts[t].at == c
    ensures t in s.puts && c < |s.chunks|
    ensures if ev == Run(t) then s.puts[t].pc.Check? && s.puts[t].at == c && !s.chunks[c].locked
            else s.puts[t] == Next(s, ev).puts[t]
  {
    hide ChunkOk, CallsOk, SlotsOwned, Routed, OnChunk;
    if ev == Run(t) && IsChunkStep(s.puts[t].pc) {
      OnChunkChecks(s.cap, s.chunks[s.puts[t].at], t, s.puts[t]);
    }
  }

  // A call about to book on chunk c has found the chunk unlocked.
  lemma {:induction false} FindCheck(cap: nat, tr: seq<State>, ev: seq<Event>, c: nat, t: nat, b: nat)
      returns (a: nat)
    requires IsRun(cap, tr, ev) && b < |tr|
    requires t in tr[b].puts && tr[b].puts[t].pc.Book? && tr[b].puts[t].at == c
    ensures a < b && ev[a] == Run(t) && t in tr[a].puts && tr[a].puts[t].pc.Check? && tr[a].puts[t].at == c
    ensures c < |tr[a].chunks| && !tr[a].chunks[c].locked
    ensures forall i :: a < i <= b ==> t in tr[i].puts && tr[i].puts[t] == tr[b].puts[t]
  {
    hide Next, Inv;
    assert b > 0;
    var i := b - 1;
    RunInv(cap, tr, ev, i);
    assert Enabled(tr[i], ev[i]) && tr[i + 1] == Next(tr[i], ev[i]);
    BookFollowsCheck(tr[i], ev[i], c, t);
    if ev[i] == Run(t) {
      a := i;
    } else {
      a := FindCheck(cap, tr, ev, c, t, i);
    }
  }

  lemma {:induction false} OnlyLockLocks(s: State, ev: Event, c: nat)
    requires WellFormed(s) && Enabled(s, ev) && c < |s.chunks| && c < |Next(s, ev).chunks|
    requires !s.chunks[c].locked && Next(s, ev).chunks[c].locked
    ensures ev == Lock(c)
  {
  }

  lemma {:induction false} FindLock(cap: nat, tr: seq<State>, ev: seq<Event>, c: nat, n: nat, a: nat, q: nat)
      returns (k: nat)
    requires IsRun(cap, tr, ev) && a <= q < |tr| && n < cap && c < |tr[a].chunks| && c < |tr[q].chunks|
    requires !tr[a].chunks[c].locked && tr[q].chunks[c].locked
    ensures a <= k < q && ev[k] == Lock(c)
    decreases q - a
  {
    var i := q - 1;
    Persists(cap, tr, ev, c, n, a, i);
    assert Enabled(tr[i], ev[i]) && tr[i + 1] == Next(tr[i], ev[i]);
    if tr[i].chunks[c].locked {
      k := FindLock(cap, tr, ev, c, n, a, i);
    } else {
      OnlyLockLocks(tr[i], ev[i], c);
      k := i;
    }
  }

  // Slot n of chunk c holds an entry at moment z that the List() of moment l does not show.
  ghost predicate Lost(tr: seq<State>, c: nat, n: nat, l: nat, z: nat) {
    && l < |tr| && z < |tr| && c < |tr[l].chunks| && c < |tr[z].chunks|
    && n < |tr[z].chunks[c].slots| && tr[z].chunks[c].slots[n].Cell().Ptr?
    && tr[l].chunks[c].write <= |tr[l].chunks[c].slots|
    && !(n < |List(tr[l].chunks[c])| && List(tr[l].chunks[c])[n] == tr[z].chunks[c].slots[n].Cell())
  }

  // Losses are confined: an entry missing from a List() taken after a true Ready belongs to a Put that
  // found the chunk unlocked before the flusher locked it and booked its slot after Ready's first load.
  lemma {:induction false} LossIsConfined(cap: nat, tr: seq<State>, ev: seq<Event>, c: nat, n: nat,
                                          m: nat, p: nat, q: nat, l: nat, z: nat) returns (a: nat, k: nat, b: nat)
    requires IsRun(cap, tr, ev) && ReadyTrue(tr, c, m, p, q) && q <= l && Lost(tr, c, n, l, z)
    ensures tr[m].chunks[c].write < cap
    ensures var t := tr[z].chunks[c].slots[n].t;
            && a <= k < q && ev[k] == Lock(c)
            && a < b && ev[a] == Run(t) && t in tr[a].puts && tr[a].puts[t].pc.Check? && tr[a].puts[t].at == c
            && !tr[a].chunks[c].locked
            && m <= b < z && BookedAt(tr, ev, c, n, b, t)
  {
    ReadySettles(cap, tr, ev, c, m, p, q);
    RunInv(cap, tr, ev, z);
    RunInv(cap, tr, ev, m);
    BelowIsKept(cap, tr, ev, c, n, m, p, q, l, z);
    assert ChunkOk(cap, tr[m].chunks[c]) && ChunkOk(cap, tr[z].chunks[c]);
    assert tr[m].chunks[c].slots[n].Free?;
    if z < m {
      Persists(cap, tr, ev, c, n, z, m);
    }
    Persists(cap, tr, ev, c, n, m, z);
    RunLater(cap, tr, ev, m, z);
    b := FindBooking(cap, tr, ev, c, n, m, z);
    a := FindCheck(cap, tr, ev, c, tr[z].chunks[c].slots[n].t, b);
    if q <= a {
      Persists(cap, tr, ev, c, n, q, a);
    }
    k := FindLock(cap, tr, ev, c, n, a, q);
  }

  lemma {:induction false} BelowIsKept(cap: nat, tr: seq<State>, ev: seq<Event>, c: nat, n: nat,
                                       m: nat, p: nat, q: nat, l: nat, z: nat)
    requires IsRun(cap, tr, ev) && ReadyTrue(tr, c, m, p, q) && m <= l
    ensures Lost(tr, c, n, l, z) ==> tr[m].chunks[c].write <= n
  {
    if Lost(tr, c, n, l, z) && n < tr[m].chunks[c].write {
      ReadyIsFinal(cap, tr, ev, c, m, p, q, l, n);
      if m <= z {
        ReadyIsFinal(cap, tr, ev, c, m, p, q, z, n);
      } else {
        RunInv(cap, tr, ev, z);
        Persists(cap, tr, ev, c, n, z, m);
      }
    }
  }

  // A chunk found full loses nothing, ever.
  lemma {:induction false} FullChunkLosesNothing(cap: nat, tr: seq<State>, ev: seq<Event>, c: nat, n: nat,
                                                 m: nat, l: nat, z: nat)
    requires IsRun(cap, tr, ev) && m <= l < |tr| && c < |tr[m].chunks| && tr[m].chunks[c].write == cap
    ensures !Lost(tr, c, n, l, z)
  {
    if l < |tr| && z < |tr| && Lost(tr, c, n, l, z) {
      RunInv(cap, tr, ev, m);
      RunInv(cap, tr, ev, z);
      BelowIsKept(cap, tr, ev, c, n, m, m, m, l, z);
    }
  }

  // A call that has found chunk c unlocked and has not finished there.
  ghost predicate Straggles(s: State, c: nat, t: nat) {
    && t in s.puts && s.puts[t].at == c
    && (s.puts[t].pc.Book?
        || (s.puts[t].HasSlot() && !s.puts[t].pc.CasId? && !s.puts[t].pc.SetPtr? && !s.puts[t].pc.Done?))
  }

  // tr' goes on where tr stops.
  ghost predicate Continues(cap: nat, tr: seq<State>, tr': seq<State>, ev': seq<Event>) {
    IsRun(cap, tr', ev') && tr <= tr'
  }

  lemma {:induction false} OneMore(cap: nat, tr: seq<State>, ev: seq<Event>, e: Event)
      returns (tr': seq<State>, ev': seq<Event>)
    requires IsRun(cap, tr, ev) && WellFormed(tr[|tr| - 1]) && Enabled(tr[|tr| - 1], e)
    ensures IsRun(cap, tr', ev') && |tr'| == |tr| + 1 && tr <= tr' && tr'[|tr|] == Next(tr[|tr| - 1], e)
    ensures ev' == ev + [e]
  {
    tr', ev' := tr + [Next(tr[|tr| - 1], e)], ev + [e];
    forall i | 0 <= i < |ev'|
      ensures WellFormed(tr'[i]) && Enabled(tr'[i], ev'[i]) && tr'[i + 1] == Next(tr'[i], ev'[i])
    {
      assert i < |ev| ==> ev[i] == ev'[i];
    }
  }

  // Without stragglers a locked chunk is settled: everything stored there is counted and listed.
  lemma {:induction false} QuietMeansCounted(s: State, c: nat)
    requires Inv(s) && c < |s.chunks| && forall t :: !Straggles(s, c, t)
    ensures forall n :: 0 <= n < s.cap && !s.chunks[c].slots[n].Free? ==>
                          s.chunks[c].slots[n].Counted? && n < s.chunks[c].write
  {
    var ch := s.chunks[c];
    assert ChunkOk(s.cap, ch);
    var b := if ch.book < s.cap then ch.book else s.cap;
    forall n | 0 <= n < b
      ensures ch.slots[n].Counted?
    {
      assert Owned(s, c, n);
      var t := ch.slots[n].t;
      assert !Straggles(s, c, t);
      assert Fits(ch.slots[n], t, s.puts[t]);
    }
    CountedPrefix(ch.slots, b);
  }

  // Nobody but a straggler books on a chunk that is locked.
  lemma {:induction false} LateBookerStraggles(cap: nat, tr: seq<State>, ev: seq<Event>, c: nat, n: nat,
                                               l: nat, b: nat, t: nat)
    requires IsRun(cap, tr, ev) && l <= b < |tr| && c < |tr[l].chunks| && n < cap && tr[l].chunks[c].locked
    requires BookedAt(tr, ev, c, n, b, t)
    ensures Straggles(tr[l], c, t)
  {
    var a := FindCheck(cap, tr, ev, c, t, b);
    if l <= a {
      Persists(cap, tr, ev, c, n, l, a);
    }
  }

  lemma {:induction false} LossNeedsStraggler(cap: nat, tr: seq<State>, ev: seq<Event>, c: nat, n: nat, l: nat, z: nat)
    requires IsRun(cap, tr, ev) && l <= z && Lost(tr, c, n, l, z) && tr[l].chunks[c].locked
    ensures tr[l].chunks[c].write < cap && exists t :: Straggles(tr[l], c, t)
  {
    RunInv(cap, tr, ev, l);
    RunInv(cap, tr, ev, z);
    Persists(cap, tr, ev, c, n, l, z);
    if tr[l].chunks[c].write == cap {
      FullChunkLosesNothing(cap, tr, ev, c, n, l, l, z);
    }
    if tr[l].chunks[c].slots[n].Free? {
      var b := FindBooking(cap, tr, ev, c, n, l, z);
      LateBookerStraggles(cap, tr, ev, c, n, l, b, tr[z].chunks[c].slots[n].t);
    } else if forall t :: !Straggles(tr[l], c, t) {
      QuietMeansCounted(tr[l], c);
    }
  }

  lemma SlotMirrorsCall(s: State, t: nat)
    requires Inv(s) && t in s.puts && s.puts[t].at < |s.chunks|
    ensures s.puts[t].HasSlot() ==>
              && s.puts[t].slot < s.cap == |s.chunks[s.puts[t].at].slots|
              && Fits(s.chunks[s.puts[t].at].slots[s.puts[t].slot], t, s.puts[t])
  {
  }

  // The straggler at its booking step takes the first uncounted slot and stores its entry there.
  lemma {:induction false} BookerCanLose(cap: nat, tr: seq<State>, ev: seq<Event>, c: nat, t: nat)
      returns (tr': seq<State>, ev': seq<Event>)
    requires IsRun(cap, tr, ev) && c < |tr[|tr| - 1].chunks|
    requires WellFormed(tr[|tr| - 1]) && tr[|tr| - 1].cap == cap
    requires var s := tr[|tr| - 1];
             && t in s.puts && s.puts[t].at == c && s.puts[t].pc.Book?
             && s.chunks[c].write == s.chunks[c].book < cap
    ensures Continues(cap, tr, tr', ev')
    ensures Lost(tr', c, tr[|tr| - 1].chunks[c].write, |tr| - 1, |tr'| - 1)
  {
    var l := |tr| - 1;
    var tr1, ev1 := OneMore(cap, tr, ev, Run(t));
    assert tr1[l + 1].puts[t].pc.Store? && WellFormed(tr1[l + 1]);
    tr', ev' := OneMore(cap, tr1, ev1, Run(t));
    assert tr'[l] == tr[l];
  }

  lemma {:induction false} StragglerCanLose(cap: nat, tr: seq<State>, ev: seq<Event>, c: nat, t: nat)
      returns (tr': seq<State>, ev': seq<Event>)
    requires IsRun(cap, tr, ev) && c < |tr[|tr| - 1].chunks| && tr[|tr| - 1].chunks[c].write < cap
    requires Straggles(tr[|tr| - 1], c, t)
    ensures Continues(cap, tr, tr', ev')
    ensures Lost(tr', c, tr[|tr| - 1].chunks[c].write, |tr| - 1, |tr'| - 1)
  {
    var s := tr[|tr| - 1];
    RunInv(cap, tr, ev, |tr| - 1);
    var ch := s.chunks[c];
    var n := ch.write;
    WriteBound(s, c);
    assert ChunkOk(cap, ch);
    if n == ch.book {
      SlotMirrorsCall(s, t);
      tr', ev' := BookerCanLose(cap, tr, ev, c, t);
    } else {
      assert Owned(s, c, n);
      tr', ev' := OwnerCanLose(cap, tr, ev, c);
    }
  }

  // If the first uncounted slot is already taken, its owner stores the entry there, or has done so.
  lemma {:induction false} OwnerCanLose(cap: nat, tr: seq<State>, ev: seq<Event>, c: nat)
      returns (tr': seq<State>, ev': seq<Event>)
    requires IsRun(cap, tr, ev) && c < |tr[|tr| - 1].chunks| && tr[|tr| - 1].chunks[c].write < cap
    requires Inv(tr[|tr| - 1]) && tr[|tr| - 1].cap == cap
    requires !tr[|tr| - 1].chunks[c].slots[tr[|tr| - 1].chunks[c].write].Free?
    ensures Continues(cap, tr, tr', ev')
    ensures Lost(tr', c, tr[|tr| - 1].chunks[c].write, |tr| - 1, |tr'| - 1)
  {
    var s := tr[|tr| - 1];
    var x := s.chunks[c].slots[s.chunks[c].write];
    assert Owned(s, c, s.chunks[c].write);
    if x.Booked? {
      assert Fits(x, x.t, s.puts[x.t]);
      tr', ev' := OneMore(cap, tr, ev, Run(x.t));
    } else {
      tr', ev' := tr, ev;
    }
  }

  // The exact condition.  Once a chunk is locked, some continuation of the run stores an entry there
  // that the List() of this moment misses if and only if the chunk is not full and a straggler exists.
  lemma {:induction false} LossIffStraggler(cap: nat, tr: seq<State>, ev: seq<Event>, c: nat, l: nat)
    requires IsRun(cap, tr, ev) && l + 1 == |tr| && c < |tr[l].chunks| && tr[l].chunks[c].locked
    ensures (exists tr', ev', n, z :: Continues(cap, tr, tr', ev') && l <= z && Lost(tr', c, n, l, z))
       <==> (tr[l].chunks[c].write < cap && exists t :: Straggles(tr[l], c, t))
  {
    forall tr', ev', n, z | Continues(cap, tr, tr', ev') && l <= z && Lost(tr', c, n, l, z)
      ensures tr[l].chunks[c].write < cap && exists t :: Straggles(tr[l], c, t)
    {
      assert tr'[l] == tr[l];
      LossNeedsStraggler(cap, tr', ev', c, n, l, z);
    }
    if tr[l].chunks[c].write < cap && exists t :: Straggles(tr[l], c, t) {
      var t :| Straggles(tr[l], c, t);
      var tr', ev' := StragglerCanLose(cap, tr, ev, c, t);
      var z: nat := |tr'| - 1;
      assert Continues(cap, tr, tr', ev') && l <= z && Lost(tr', c, tr[l].chunks[c].write, l, z);
    }
  }

  // ------------------------------------------------------------------ routing and placement

  // In every interleaving every chunk before writeChunk, and before any chunk that a Put books on or
  // that holds anything, is closed.
  lemma {:induction false} RoutingHolds(cap: nat, tr: seq<State>, ev: seq<Event>, i: nat)
    requires IsRun(cap, tr, ev) && i < |tr|
    ensures forall k :: 0 <= k < tr[i].writeChunk ==> k < |tr[i].chunks| && Closed(tr[i], k)
    ensures forall c, k :: 0 <= k < c < |tr[i].chunks| && tr[i].chunks[c].book > 0 ==> Closed(tr[i], k)
    ensures forall c, n, t :: BookedAt(tr, ev, c, n, i, t) ==> ClosedBefore(tr[i], c)
  {
    RunInv(cap, tr, ev, i);
    assert ClosedBefore(tr[i], tr[i].writeChunk);
  }

  // A closed chunk stays closed.
  lemma {:induction false} ClosedForever(cap: nat, tr: seq<State>, ev: seq<Event>, c: nat, i: nat, j: nat)
    requires IsRun(cap, tr, ev) && i <= j < |tr| && c < |tr[i].chunks| && Closed(tr[i], c)
    ensures c < |tr[j].chunks| && Closed(tr[j], c)
  {
    RunInv(cap, tr, ev, i);
    RunInv(cap, tr, ev, j);
    RunLater(cap, tr, ev, i, j);
    assert ChunkLater(tr[i].chunks[c], tr[j].chunks[c]);
  }

  // A chunk is closed, and stays so, once a later one has been seen in use.  The limiter drops a chunk only after
  // Depth has seen the next one in use, so no call that has yet to check can book on a chunk it drops; one that
  // has passed the check still may.
  lemma {:induction false} DroppedIsClosed(cap: nat, tr: seq<State>, ev: seq<Event>, k: nat, c: nat, i: nat, j: nat)
    requires IsRun(cap, tr, ev) && i <= j < |tr| && k < c < |tr[i].chunks| && tr[i].chunks[c].book > 0
    ensures k < |tr[j].chunks| && Closed(tr[j], k)
  {
    RoutingHolds(cap, tr, ev, i);
    ClosedForever(cap, tr, ev, k, i, j);
  }

  // A finished Ingest has its entry in one slot of one chunk, counted by that chunk, and nowhere else.
  lemma {:induction false} StoredExactlyOnce(cap: nat, tr: seq<State>, ev: seq<Event>, i: nat, t: nat, c: nat, n: nat)
    requires IsRun(cap, tr, ev) && i < |tr| && t in tr[i].puts && tr[i].puts[t].pc.Done?
    requires c < |tr[i].chunks| && n < cap
    ensures |tr[i].chunks[c].slots| == cap
    ensures (!tr[i].chunks[c].slots[n].Free? && tr[i].chunks[c].slots[n].t == t)
       <==> (c == tr[i].puts[t].at && n == tr[i].puts[t].slot)
    ensures c == tr[i].puts[t].at && n == tr[i].puts[t].slot ==> tr[i].chunks[c].slots[n] == Counted(t, tr[i].puts[t].e)
  {
    RunInv(cap, tr, ev, i);
    assert Owned(tr[i], c, n);
    assert Fits(tr[i].chunks[tr[i].puts[t].at].slots[tr[i].puts[t].slot], t, tr[i].puts[t]);
  }
}
