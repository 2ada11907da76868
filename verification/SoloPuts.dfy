// An Ingest call that runs alone, step by step, does what Ledger says it does as a whole.
module SoloPuts {
  import opened LogEntry
  import opened Protocol
  import L = Ledger

  // The entries of completed slots, in order.
  function Collected(slots: seq<Slot>): seq<Entry> {
    if slots == [] then []
    else
      var x := slots[|slots| - 1];
      Collected(slots[..|slots| - 1]) + if x.Counted? then [x.e] else []
  }

  // A chunk as Ledger sees it; what the flusher keeps of it is not part of the protocol.
  function ViewOf(id: nat, cap: nat, ch: Chunk): L.Chunk {
    L.Chunk(id, cap, ch.book, ch.size, ch.epochStart, ch.epochEnd, 0, ch.locked, Collected(ch.slots))
  }

  function ChainOf(s: State): (r: L.Chain)
    ensures |r| == |s.chunks|
  {
    seq(|s.chunks|, k requires 0 <= k < |s.chunks| => ViewOf(k, s.cap, s.chunks[k]))
  }

  // Slots are booked in order.
  ghost predicate InSequence(s: State) {
    forall c, n :: 0 <= c < |s.chunks| && s.chunks[c].book <= n < |s.chunks[c].slots| ==> s.chunks[c].slots[n].Free?
  }

  // ---- Steps of one call ----

  // The state after n steps of call t, or where it can go no further.
  function Solo(s: State, t: nat, n: nat): State
    decreases n
  {
    if n == 0 || !WellFormed(s) || t !in s.puts then s else Solo(Advance(s, t), t, n - 1)
  }

  lemma {:induction false} SoloThen(s: State, t: nat, m: nat, n: nat)
    ensures Solo(Solo(s, t, m), t, n) == Solo(s, t, m + n)
    decreases m
  {
    hide WellFormed, Advance;
    if m > 0 && WellFormed(s) && t in s.puts {
      SoloThen(Advance(s, t), t, m - 1, n);
    }
  }

  // The same on the chunk alone, up to n steps.
  function OnChunkSolo(cap: nat, ch: Chunk, t: nat, p: Put, n: nat): (Chunk, Put)
    requires |ch.slots| == cap && (p.HasSlot() ==> p.slot < cap)
    decreases n
  {
    if n == 0 || !IsChunkStep(p.pc) then (ch, p)
    else
      var (ch', q) := OnChunk(cap, ch, t, p);
      OnChunkSolo(cap, ch', t, q, n - 1)
  }

  lemma {:induction false} SoloLifts(s: State, t: nat, n: nat) returns (m: nat)
    requires WellFormed(s) && t in s.puts
    ensures var p := s.puts[t];
            var (ch, q) := OnChunkSolo(s.cap, s.chunks[p.at], t, p, n);
            q.at == p.at && Solo(s, t, m) == Moved(s, t, ch, q)
    decreases n
  {
    var p := s.puts[t];
    if n == 0 || !IsChunkStep(p.pc) {
      m := 0;
      assert s.chunks[p.at := s.chunks[p.at]] == s.chunks && s.puts[t := p] == s.puts;
    } else {
      StepLifts(s, t);
      SoloStep(s.cap, s.chunks[p.at], t, p, n);
      var (ch, q) := OnChunk(s.cap, s.chunks[p.at], t, p);
      var u := Moved(s, t, ch, q);
      hide OnChunk, OnChunkSolo, Advance, WellFormed;
      m := SoloLifts(u, t, n - 1);
      m := m + 1;
      MovedTwice(s, t, ch, q, OnChunkSolo(s.cap, ch, t, q, n - 1).0, OnChunkSolo(s.cap, ch, t, q, n - 1).1);
    }
  }

  lemma StepLifts(s: State, t: nat)
    requires WellFormed(s) && t in s.puts && IsChunkStep(s.puts[t].pc)
    ensures var p := s.puts[t];
            var (ch, q) := OnChunk(s.cap, s.chunks[p.at], t, p);
            var u := Moved(s, t, ch, q);
            && q.at == p.at && |ch.slots| == s.cap && (q.HasSlot() ==> q.slot < s.cap)
            && Advance(s, t) == u && WellFormed(u) && u.cap == s.cap
            && t in u.puts && u.puts[t] == q && u.chunks[q.at] == ch
  {
  }

  lemma MovedTwice(s: State, t: nat, ch: Chunk, q: Put, ch': Chunk, q': Put)
    requires t in s.puts && s.puts[t].at < |s.chunks| && q.at == s.puts[t].at
    ensures Moved(Moved(s, t, ch, q), t, ch', q') == Moved(s, t, ch', q')
  {
    var c := q.at;
    assert s.chunks[c := ch][c := ch'] == s.chunks[c := ch'];
    assert s.puts[t := q][t := q'] == s.puts[t := q'];
  }

  lemma SoloStep(cap: nat, ch: Chunk, t: nat, p: Put, n: nat)
    requires |ch.slots| == cap && (p.HasSlot() ==> p.slot < cap) && n > 0 && IsChunkStep(p.pc)
    ensures var (ch', q) := OnChunk(cap, ch, t, p);
            |ch'.slots| == cap && (q.HasSlot() ==> q.slot < cap)
            && OnChunkSolo(cap, ch, t, p, n) == OnChunkSolo(cap, ch', t, q, n - 1)
  {
  }

  lemma SoloEnds(cap: nat, ch: Chunk, t: nat, p: Put, n: nat)
    requires |ch.slots| == cap && (p.HasSlot() ==> p.slot < cap) && !IsChunkStep(p.pc)
    ensures OnChunkSolo(cap, ch, t, p, n) == (ch, p)
  {
  }

  function Latest(end: int, epoch: int): int {
    if epoch > end then epoch else end
  }

  function Earliest(start: int, epoch: int): int {
    if start == 0 || epoch < start then epoch else start
  }

  // The entry counted in slot p.slot, the call done with its chunk.
  function Ended(ch: Chunk, t: nat, p: Put, end: int, start: int): (Chunk, Put)
    requires p.slot < |ch.slots|
  {
    (ch.(write := ch.write + 1, size := ch.size + |p.e.content|, epochEnd := end, epochStart := start,
         slots := ch.slots[p.slot := Counted(t, p.e)]),
     p.(pc := if p.full then CasId else Done))
  }

  lemma Overwritten(slots: seq<Slot>, n: nat, x: Slot, y: Slot)
    requires n < |slots|
    ensures slots[n := x][n := y] == slots[n := y]
  {
  }

  lemma {:induction false} FromAddSize(cap: nat, ch: Chunk, t: nat, p: Put, n: nat)
    requires |ch.slots| == cap && p.slot < cap && p.pc == AddSize && n >= 2
    ensures OnChunkSolo(cap, ch, t, p, n) == Ended(ch, t, p, ch.epochEnd, ch.epochStart)
  {
    SoloStep(cap, ch, t, p, n);
    var (ch', q) := OnChunk(cap, ch, t, p);
    SoloStep(cap, ch', t, q, n - 1);
    var (ch'', r) := OnChunk(cap, ch', t, q);
    SoloEnds(cap, ch'', t, r, n - 2);
    Overwritten(ch.slots, p.slot, Sized(t, p.e), Counted(t, p.e));
    hide OnChunkSolo;
  }

  lemma {:induction false} FromLoadStart(cap: nat, ch: Chunk, t: nat, p: Put, n: nat)
    requires |ch.slots| == cap && p.slot < cap && p.pc == LoadStart && n >= 4
    ensures OnChunkSolo(cap, ch, t, p, n) == Ended(ch, t, p, ch.epochEnd, Earliest(ch.epochStart, p.e.epoch))
  {
    hide OnChunkSolo;
    SoloStep(cap, ch, t, p, n);
    var (ch', q) := OnChunk(cap, ch, t, p);
    if q.pc == AddSize {
      FromAddSize(cap, ch', t, q, n - 1);
    } else {
      SoloStep(cap, ch', t, q, n - 1);
      var (ch'', r) := OnChunk(cap, ch', t, q);
      FromAddSize(cap, ch'', t, r, n - 2);
    }
  }

  lemma {:induction false} FromLoadEnd(cap: nat, ch: Chunk, t: nat, p: Put, n: nat)
    requires |ch.slots| == cap && p.slot < cap && p.pc == LoadEnd && n >= 6
    ensures OnChunkSolo(cap, ch, t, p, n)
         == Ended(ch, t, p, Latest(ch.epochEnd, p.e.epoch), Earliest(ch.epochStart, p.e.epoch))
  {
    hide OnChunkSolo;
    SoloStep(cap, ch, t, p, n);
    var (ch', q) := OnChunk(cap, ch, t, p);
    if q.pc == LoadStart {
      FromLoadStart(cap, ch', t, q, n - 1);
    } else {
      SoloStep(cap, ch', t, q, n - 1);
      var (ch'', r) := OnChunk(cap, ch', t, q);
      FromLoadStart(cap, ch'', t, r, n - 2);
    }
  }

  // The chunk with one more entry, and the epochs and size that go with it.
  function Filled(ch: Chunk, t: nat, e: Entry): Chunk
    requires ch.book < |ch.slots|
  {
    Chunk(ch.book + 1, ch.write + 1, ch.size + |e.content|, Earliest(ch.epochStart, e.epoch),
          Latest(ch.epochEnd, e.epoch), ch.locked, ch.slots[ch.book := Counted(t, e)])
  }

  // From the booking on, when nobody else comes in between.
  lemma {:induction false} FillsAlone(cap: nat, ch: Chunk, t: nat, p: Put)
    requires |ch.slots| == cap && ch.book < cap && p.pc == Book
    ensures OnChunkSolo(cap, ch, t, p, 8)
         == (Filled(ch, t, p.e), p.(slot := ch.book, pc := if p.full then CasId else Done))
  {
    hide OnChunkSolo;
    SoloStep(cap, ch, t, p, 8);
    var (ch', q) := OnChunk(cap, ch, t, p);
    SoloStep(cap, ch', t, q, 7);
    var (ch'', r) := OnChunk(cap, ch', t, q);
    FromLoadEnd(cap, ch'', t, r, 6);
    Overwritten(ch.slots, ch.book, Booked(t), Stored(t, p.e));
    Overwritten(ch.slots, ch.book, Stored(t, p.e), Counted(t, p.e));
  }

  // ---- What the chunks look like then ----

  lemma {:induction false} CollectedMore(slots: seq<Slot>, n: nat, t: nat, e: Entry)
    requires n < |slots| && forall i :: n <= i < |slots| ==> slots[i].Free?
    ensures Collected(slots[n := Counted(t, e)]) == Collected(slots) + [e]
  {
    var k := |slots| - 1;
    if n < k {
      CollectedMore(slots[..k], n, t, e);
      assert slots[n := Counted(t, e)][..k] == slots[..k][n := Counted(t, e)];
    } else {
      assert slots[n := Counted(t, e)][..k] == slots[..k];
    }
  }

  lemma {:induction false} CollectedNone(slots: seq<Slot>)
    requires forall i :: 0 <= i < |slots| ==> slots[i].Free?
    ensures Collected(slots) == []
  {
    if slots != [] {
      CollectedNone(slots[..|slots| - 1]);
    }
  }

  // Filled is Accept, a booking beyond the capacity is Refuse, and a new chunk is blank.
  lemma {:induction false} ViewAccepts(id: nat, cap: nat, ch: Chunk, t: nat, e: Entry)
    requires |ch.slots| == cap && ch.book < cap && forall n :: ch.book <= n < cap ==> ch.slots[n].Free?
    ensures ViewOf(id, cap, Filled(ch, t, e)) == ViewOf(id, cap, ch).Accept(e)
  {
    CollectedMore(ch.slots, ch.book, t, e);
  }

  lemma FreshIsBlank(id: nat, cap: nat)
    ensures ViewOf(id, cap, Fresh(cap)) == L.Blank(id, cap)
  {
    CollectedNone(Fresh(cap).slots);
  }

  // Next(): the chain with chunk c changed and one more behind it if it was the last.
  lemma {:induction false} GrowIs(s: State, t: nat)
    requires WellFormed(s) && t in s.puts && s.puts[t].pc == Grow && L.Linked(ChainOf(s))
    ensures var u, c := Advance(s, t), s.puts[t].at;
            && WellFormed(u) && ChainOf(u) == L.Grown(ChainOf(s), c + 2)
            && u == s.(chunks := u.chunks, puts := s.puts[t := s.puts[t].(at := c + 1, full := true, pc := Check)])
            && (InSequence(s) ==> InSequence(u))
  {
    var u, c := Advance(s, t), s.puts[t].at;
    assert WellFormed(u);
    FreshIsBlank(|s.chunks|, s.cap);
    if c + 1 == |s.chunks| {
      L.GrownByOne(ChainOf(s));
      ChainGrows(s, u);
    } else {
      ChainStays(s, u);
      L.GrownByOne(ChainOf(s));
    }
    hide ChainOf, L.Linked, ViewOf, InSequence, WellFormed;
  }

  lemma ChainGrows(s: State, u: State)
    requires u.cap == s.cap && u.chunks == s.chunks + [Fresh(s.cap)]
    requires ViewOf(|s.chunks|, s.cap, Fresh(s.cap)) == L.Blank(|s.chunks|, s.cap)
    ensures ChainOf(u) == ChainOf(s) + [L.Blank(|s.chunks|, s.cap)] && (InSequence(s) ==> InSequence(u))
  {
    hide ViewOf;
  }

  lemma ChainStays(s: State, u: State)
    requires u.chunks == s.chunks && u.cap == s.cap
    ensures ChainOf(u) == ChainOf(s) && (InSequence(s) ==> InSequence(u))
  {
  }

  // ---- The call as a whole ----

  // Call t is about to try a chunk, and has seen writeChunkId as it is.
  ghost predicate Trying(s: State, t: nat) {
    && WellFormed(s) && t in s.puts && s.puts[t].pc == Check && s.puts[t].lastId == s.writeChunkId
    && L.Linked(ChainOf(s)) && InSequence(s)
  }

  // From s to u call t has come to its end, with its entry in chunk `into`; no other call has moved.
  ghost predicate Finished(s: State, t: nat, u: State, chain: L.Chain, into: nat)
    requires t in s.puts
  {
    var moved := s.puts[t].full || into > s.puts[t].at;
    && WellFormed(u) && t in u.puts && u.puts == s.puts[t := u.puts[t]] && u.puts[t].pc == Done && u.cap == s.cap
    && ChainOf(u) == chain && InSequence(u)
    && u.writeChunk == (if moved then into else s.writeChunk)
    && u.writeChunkId == (if moved then into else s.writeChunkId)
  }

  // With Ledger's Put from the chunk it is about to try.
  ghost predicate AllPut(s: State, t: nat, u: State) {
    && Trying(s, t)
    && var (chain, into) := L.Put(ChainOf(s), s.puts[t].at, s.puts[t].e);
       Finished(s, t, u, chain, into)
  }

  // The chunk it is about to try takes nothing any more.
  ghost predicate Shut(s: State, t: nat) {
    Trying(s, t) && Closed(s, s.puts[t].at)
  }

  lemma Unlocked(s: State, t: nat)
    requires Trying(s, t) && !s.chunks[s.puts[t].at].locked
    ensures Advance(s, t) == s.(puts := s.puts[t := s.puts[t].(pc := Book)])
  {
    var c := s.puts[t].at;
    assert s.chunks[c := s.chunks[c]] == s.chunks;
  }

  // Where the entry fits, up to the end of its steps on the chunk.
  lemma {:induction false} SoloFills(s: State, t: nat) returns (n: nat)
    requires Trying(s, t) && !s.chunks[s.puts[t].at].locked && s.chunks[s.puts[t].at].book < s.cap
    ensures Solo(s, t, n) == WithEntry(s, t)
  {
    hide OnChunkSolo, OnChunk, Filled, ChainOf, InSequence, L.Linked, Advance, Solo;
    var p := s.puts[t];
    var s1 := Advance(s, t);
    Unlocked(s, t);
    n := SoloLifts(s1, t, 8);
    FillsAlone(s.cap, s.chunks[p.at], t, s1.puts[t]);
    SoloThen(s, t, 1, n);
    SoloOnce(s, t);
    n := 1 + n;
    assert s1.puts[t := WithEntry(s, t).puts[t]] == s.puts[t := WithEntry(s, t).puts[t]];
  }

  function WithEntry(s: State, t: nat): State
    requires WellFormed(s) && t in s.puts && s.chunks[s.puts[t].at].book < s.cap
  {
    var p := s.puts[t];
    var ch := s.chunks[p.at];
    s.(chunks := s.chunks[p.at := Filled(ch, t, p.e)],
       puts := s.puts[t := p.(slot := ch.book, pc := if p.full then CasId else Done)])
  }

  lemma {:induction false} SoloStores(s: State, t: nat) returns (n: nat)
    requires Trying(s, t) && !Shut(s, t)
    ensures AllPut(s, t, Solo(s, t, n))
  {
    var p, v := s.puts[t], WithEntry(s, t);
    n := SoloFills(s, t);
    EntryIn(s, t);
    hide Filled, ViewOf, InSequence, Solo, ChainOf, WithEntry, Finished, AllPut, Trying, Shut;
    if p.full {
      PointsHere(v, t);
      SoloThen(s, t, n, 2);
      n := n + 2;
      Points(s, t, v, Solo(s, t, n));
    } else {
      Stays(s, t, v);
    }
  }

  // With the entry in its chunk, whatever becomes of the pointers.
  ghost predicate Holding(s: State, t: nat, v: State) {
    && Trying(s, t) && WellFormed(v) && InSequence(v) && v.cap == s.cap
    && t in v.puts && v.puts == s.puts[t := v.puts[t]] && v.puts[t].at == s.puts[t].at
    && L.Put(ChainOf(s), s.puts[t].at, s.puts[t].e) == (ChainOf(v), s.puts[t].at)
    && v.writeChunk == s.writeChunk && v.writeChunkId == s.writeChunkId
  }

  lemma {:induction false} EntryIn(s: State, t: nat)
    requires Trying(s, t) && !Shut(s, t)
    ensures var p, v := s.puts[t], WithEntry(s, t);
            && Holding(s, t, v) && v.puts[t].pc == (if p.full then CasId else Done)
            && v.puts[t].lastId == v.writeChunkId
  {
    var p, v := s.puts[t], WithEntry(s, t);
    var chain := ChainOf(s);
    assert chain[p.at] == ViewOf(p.at, s.cap, s.chunks[p.at]);
    L.PutUnfolds(chain, p.at, p.e);
    ViewAccepts(p.at, s.cap, s.chunks[p.at], t, p.e);
    FilledChain(s, t, v, v.puts[t]);
    hide Filled, ViewOf, InSequence, L.Linked, ChainOf, L.Put;
  }

  lemma Points(s: State, t: nat, v: State, u: State)
    requires Holding(s, t, v) && s.puts[t].full && v.puts[t].pc == CasId
    requires var at := s.puts[t].at;
             u == v.(puts := v.puts[t := v.puts[t].(pc := Done)], writeChunk := at, writeChunkId := at)
    ensures AllPut(s, t, u)
  {
    ChainStays(v, u);
    assert v.puts[t := u.puts[t]] == s.puts[t := u.puts[t]];
    hide ChainOf, InSequence, L.Put, L.Linked;
  }

  lemma Stays(s: State, t: nat, v: State)
    requires Holding(s, t, v) && !s.puts[t].full && v.puts[t].pc == Done
    ensures AllPut(s, t, v)
  {
    hide ChainOf, InSequence, L.Put, L.Linked;
  }

  lemma {:induction false} FilledChain(s: State, t: nat, v: State, q: Put)
    requires WellFormed(s) && t in s.puts && InSequence(s) && s.chunks[s.puts[t].at].book < s.cap
    requires q.at == s.puts[t].at && q.slot < s.cap
    requires var ch := s.chunks[q.at];
             && v == s.(chunks := s.chunks[q.at := Filled(ch, t, q.e)], puts := s.puts[t := q])
             && ViewOf(q.at, s.cap, Filled(ch, t, q.e)) == ViewOf(q.at, s.cap, ch).Accept(q.e)
    ensures WellFormed(v) && InSequence(v) && ChainOf(v) == ChainOf(s)[q.at := ChainOf(s)[q.at].Accept(q.e)]
  {
    hide ViewOf;
    assert ChainOf(s)[q.at] == ViewOf(q.at, s.cap, s.chunks[q.at]);
  }

  // The id, and then the pointer.
  lemma {:induction false} PointsHere(s: State, t: nat)
    requires WellFormed(s) && t in s.puts && s.puts[t].pc == CasId && s.puts[t].lastId == s.writeChunkId
    ensures var at := s.puts[t].at;
            Solo(s, t, 2) == s.(puts := s.puts[t := s.puts[t].(pc := Done)], writeChunk := at, writeChunkId := at)
  {
    var p := s.puts[t];
    var u := Advance(s, t);
    assert u == s.(puts := s.puts[t := p.(pc := SetPtr)], writeChunkId := p.at);
    assert Solo(s, t, 2) == Solo(u, t, 1) == Advance(u, t);
    assert s.puts[t := p.(pc := SetPtr)][t := p.(pc := Done)] == s.puts[t := p.(pc := Done)];
  }

  // The chain with which L.Put goes on.
  function Beyond(s: State, t: nat): L.Chain
    requires WellFormed(s) && t in s.puts
  {
    var chain, c := ChainOf(s), s.puts[t].at;
    L.Grown(if chain[c].locked then chain else chain[c := chain[c].Refuse()], c + 2)
  }

  // On to the next chunk.
  ghost predicate GoesOn(s: State, t: nat, u: State) {
    && Trying(s, t) && Trying(u, t) && u.puts == s.puts[t := s.puts[t].(at := s.puts[t].at + 1, full := true)]
    && ChainOf(u) == Beyond(s, t) && u.cap == s.cap
    && u.writeChunk == s.writeChunk && u.writeChunkId == s.writeChunkId
  }

  // A closed chunk: two or three steps to the next one, with at most the attempt counted.
  lemma {:induction false} SoloGoesOn(s: State, t: nat) returns (n: nat)
    requires Shut(s, t)
    ensures GoesOn(s, t, Solo(s, t, n))
  {
    hide L.Grown, L.Linked, Advance, Solo, ChainOf, InSequence;
    var p := s.puts[t];
    var c := p.at;
    var v := if s.chunks[c].locked then s.(puts := s.puts[t := p.(pc := Grow)])
             else s.(chunks := s.chunks[c := s.chunks[c].(book := s.chunks[c].book + 1)],
                     puts := s.puts[t := p.(pc := Grow)]);
    n := if s.chunks[c].locked then 1 else 2;
    ReachesGrow(s, t);
    RefusedChain(s, t, v);
    GrowIs(v, t);
    SoloThen(s, t, n, 1);
    assert Solo(v, t, 1) == Advance(v, t) by { SoloOnce(v, t); }
    n := n + 1;
    assert v.puts[t := p.(at := c + 1, full := true)] == s.puts[t := p.(at := c + 1, full := true)];
    TryingNext(s, t, v, Advance(v, t));
  }

  lemma TryingNext(s: State, t: nat, v: State, u: State)
    requires Trying(s, t) && t in u.puts && u.puts[t] == s.puts[t].(at := s.puts[t].at + 1, full := true)
    requires WellFormed(u) && InSequence(u) && u.writeChunkId == s.writeChunkId
    requires exists chain, n :: L.Linked(chain) && ChainOf(u) == L.Grown(chain, n)
    ensures Trying(u, t)
  {
  }

  lemma SoloOnce(s: State, t: nat)
    requires WellFormed(s) && t in s.puts
    ensures Solo(s, t, 1) == Advance(s, t)
  {
  }

  lemma {:induction false} ReachesGrow(s: State, t: nat)
    requires Shut(s, t)
    ensures var p := s.puts[t];
            var ch := s.chunks[p.at];
            if ch.locked then Solo(s, t, 1) == s.(puts := s.puts[t := p.(pc := Grow)])
            else Solo(s, t, 2) == s.(chunks := s.chunks[p.at := ch.(book := ch.book + 1)],
                                     puts := s.puts[t := p.(pc := Grow)])
  {
    var p := s.puts[t];
    var c := p.at;
    SoloOnce(s, t);
    assert s.chunks[c := s.chunks[c]] == s.chunks;
    if !s.chunks[c].locked {
      Unlocked(s, t);
      SoloThen(s, t, 1, 1);
      SoloOnce(Advance(s, t), t);
      assert s.puts[t := p.(pc := Book)][t := p.(pc := Grow)] == s.puts[t := p.(pc := Grow)];
    }
  }

  lemma {:induction false} RefusedChain(s: State, t: nat, v: State)
    requires Trying(s, t)
    requires var p := s.puts[t];
             var ch := s.chunks[p.at];
             v == if ch.locked then s.(puts := s.puts[t := p.(pc := Grow)])
                  else s.(chunks := s.chunks[p.at := ch.(book := ch.book + 1)], puts := s.puts[t := p.(pc := Grow)])
    requires s.chunks[s.puts[t].at].locked || s.chunks[s.puts[t].at].book >= s.cap
    ensures var chain, c := ChainOf(s), s.puts[t].at;
            && WellFormed(v) && InSequence(v) && L.Linked(ChainOf(v))
            && ChainOf(v) == if chain[c].locked then chain else chain[c := chain[c].Refuse()]
  {
    var chain, c := ChainOf(s), s.puts[t].at;
    assert chain[c] == ViewOf(c, s.cap, s.chunks[c]) && chain[c].Valid();
    if !s.chunks[c].locked {
      assert ViewOf(c, s.cap, v.chunks[c]) == chain[c].Refuse();
      assert ChainOf(v) == chain[c := chain[c].Refuse()];
    } else {
      assert ChainOf(v) == chain;
    }
  }

  ghost function Rank(s: State, t: nat): nat
    requires Trying(s, t)
  {
    2 * (|s.chunks| - s.puts[t].at) + if Shut(s, t) then 1 else 0
  }

  // From the first chunk it tries to the end.
  lemma {:induction false} PutsAlone(s: State, t: nat) returns (n: nat)
    requires Trying(s, t)
    ensures AllPut(s, t, Solo(s, t, n))
    decreases Rank(s, t)
  {
    hide *;
    if Shut(s, t) {
      n := SoloGoesOn(s, t);
      var u := Solo(s, t, n);
      NextIsCloser(s, t, u);
      var m := PutsAlone(u, t);
      SoloThen(s, t, n, m);
      n := n + m;
      AllPutLater(s, t, u, Solo(s, t, n));
    } else {
      n := SoloStores(s, t);
    }
  }

  // What L.Put makes of a closed chunk; behind the last one is a blank one.
  lemma {:induction false} PutGoesOn(s: State, t: nat)
    requires Shut(s, t)
    ensures var c, g := s.puts[t].at, Beyond(s, t);
            && L.Linked(g) && c + 1 < |g| && L.Put(ChainOf(s), c, s.puts[t].e) == L.Put(g, c + 1, s.puts[t].e)
            && (|g| == |s.chunks| || (|g| == |s.chunks| + 1 == c + 2 && !g[c + 1].Closed()))
  {
    var chain, c := ChainOf(s), s.puts[t].at;
    assert chain[c] == ViewOf(c, s.cap, s.chunks[c]);
    L.PutUnfolds(chain, c, s.puts[t].e);
    var g := L.PutGoesOn(chain, c);
    hide L.Put, L.Linked, L.Grown;
  }

  lemma {:induction false} NextIsCloser(s: State, t: nat, u: State)
    requires Shut(s, t) && GoesOn(s, t, u)
    ensures Trying(u, t) && Rank(u, t) < Rank(s, t)
  {
    var c := s.puts[t].at;
    PutGoesOn(s, t);
    OpenIsNotShut(u, t);
    hide L.Put, L.Linked, L.Grown, Beyond, InSequence, ChainOf, WellFormed, Closed;
  }

  lemma OpenIsNotShut(u: State, t: nat)
    ensures Trying(u, t) && !ChainOf(u)[u.puts[t].at].Closed() ==> !Shut(u, t)
  {
    hide L.Linked, InSequence;
    if Trying(u, t) {
      assert ChainOf(u)[u.puts[t].at] == ViewOf(u.puts[t].at, u.cap, u.chunks[u.puts[t].at]);
    }
  }

  lemma {:induction false} PutMoves(s: State, t: nat, u: State)
    requires Shut(s, t) && GoesOn(s, t, u)
    ensures Trying(s, t) && Trying(u, t)
    ensures var put := L.Put(ChainOf(s), s.puts[t].at, s.puts[t].e);
            L.Put(ChainOf(u), u.puts[t].at, u.puts[t].e) == put && put.1 > s.puts[t].at
    ensures u.puts == s.puts[t := s.puts[t].(at := s.puts[t].at + 1, full := true)] && u.cap == s.cap
  {
    PutGoesOn(s, t);
    GoesTo(s, t, u);
    hide *;
  }

  lemma GoesTo(s: State, t: nat, u: State)
    requires GoesOn(s, t, u)
    ensures Trying(s, t) && Trying(u, t) && WellFormed(s) && t in s.puts && ChainOf(u) == Beyond(s, t) && u.cap == s.cap
    ensures u.puts == s.puts[t := s.puts[t].(at := s.puts[t].at + 1, full := true)]
    ensures L.Linked(ChainOf(s)) && L.Linked(ChainOf(u))
    ensures s.puts[t].at < |ChainOf(s)| && s.puts[t].at + 1 < |ChainOf(u)|
  {
    hide L.Linked, Beyond, InSequence;
  }

  lemma {:induction false} AllPutLater(s: State, t: nat, u: State, v: State)
    requires Shut(s, t) && GoesOn(s, t, u) && AllPut(u, t, v)
    ensures AllPut(s, t, v)
  {
    PutMoves(s, t, u);
    hide Shut, GoesOn, Finished, Trying, L.Put, ChainOf;
    var put := L.Put(ChainOf(u), u.puts[t].at, u.puts[t].e);
    FinishedLater(s, t, u, v, put.0, put.1);
  }

  lemma FinishedLater(s: State, t: nat, u: State, v: State, chain: L.Chain, into: nat)
    requires t in s.puts && u.puts == s.puts[t := s.puts[t].(at := s.puts[t].at + 1, full := true)] && u.cap == s.cap
    requires Finished(u, t, v, chain, into) && into > s.puts[t].at
    ensures Finished(s, t, v, chain, into)
  {
    hide InSequence, ChainOf, WellFormed;
    assert u.puts[t := v.puts[t]] == s.puts[t := v.puts[t]];
  }

  // ---- Main theorem ----

  // No call is under way.
  ghost predicate AllDone(s: State) {
    forall t :: t in s.puts ==> s.puts[t].pc == Done
  }

  // Slots in use belong to finished calls then, so they are complete.
  lemma {:induction false} AllCounted(s: State, c: nat)
    requires Inv(s) && AllDone(s) && c < |s.chunks|
    ensures forall n :: 0 <= n < s.cap && n < s.chunks[c].book ==> s.chunks[c].slots[n].Counted?
    ensures forall n :: s.chunks[c].book <= n < s.cap ==> s.chunks[c].slots[n].Free?
  {
    forall n | 0 <= n < s.cap && n < s.chunks[c].book ensures s.chunks[c].slots[n].Counted? {
      assert Owned(s, c, n);
      var x := s.chunks[c].slots[n];
      assert !x.Free?;
      assert Fits(x, x.t, s.puts[x.t]);
    }
  }

  lemma {:induction false} CollectedAll(slots: seq<Slot>, b: nat)
    requires b <= |slots| && forall n :: 0 <= n < b ==> slots[n].Counted?
    requires forall n :: b <= n < |slots| ==> slots[n].Free?
    ensures |Collected(slots)| == b
  {
    if slots != [] {
      var k := |slots| - 1;
      CollectedAll(slots[..k], if b <= k then b else k);
    }
  }

  lemma {:induction false} ChainIsLinked(s: State)
    requires Inv(s) && AllDone(s) && 1 <= s.cap <= 900
    ensures L.Linked(ChainOf(s)) && InSequence(s)
  {
    forall c | 0 <= c < |s.chunks|
      ensures ViewOf(c, s.cap, s.chunks[c]).Valid()
      ensures forall n :: s.chunks[c].book <= n < |s.chunks[c].slots| ==> s.chunks[c].slots[n].Free?
    {
      AllCounted(s, c);
      CollectedAll(s.chunks[c].slots, if s.chunks[c].book < s.cap then s.chunks[c].book else s.cap);
    }
    hide ViewOf, ChunkOk, CallsOk, SlotsOwned, Routed;
    assert forall c :: 0 <= c < |s.chunks| ==> ChainOf(s)[c] == ViewOf(c, s.cap, s.chunks[c]);
    LinkedIf(s);
  }

  lemma LinkedIf(s: State)
    requires |s.chunks| > 0
    requires forall c :: 0 <= c < |s.chunks| ==> ViewOf(c, s.cap, s.chunks[c]).Valid()
    ensures L.Linked(ChainOf(s))
  {
  }

  // From s to u an entry has been ingested: chunks and write chunk are what Ledger's Put computes.
  ghost predicate Ingested(s: State, e: Entry, u: State) {
    && L.Linked(ChainOf(s)) && s.writeChunk < |s.chunks| && AllDone(u)
    && var (chain, into) := L.Put(ChainOf(s), s.writeChunk, e);
       && ChainOf(u) == chain && u.writeChunk == into
       && u.writeChunkId == if into == s.writeChunk then s.writeChunkId else into
  }

  // Main theorem: from any such state, a call of Ingest that runs alone comes to its end, and has done what Ledger's
  // Put does, every epoch and size included; writeChunkId is the write chunk if that has moved.
  lemma {:induction false} IngestAlone(s: State, t: nat, e: Entry) returns (n: nat)
    requires Inv(s) && AllDone(s) && 1 <= s.cap <= 900 && t !in s.puts
    ensures Enabled(s, Start(t, e)) && WellFormed(s)
    ensures Ingested(s, e, Solo(Next(s, Start(t, e)), t, n))
  {
    hide *;
    TriesNow(s, t, e);
    ReadsBoth(s, t, e);
    n := PutsAlone(AtCheck(s, t, e), t);
    SoloThen(Next(s, Start(t, e)), t, 2, n);
    Concludes(s, t, e, Solo(AtCheck(s, t, e), t, n));
    n := 2 + n;
  }

  // Once the call has read id and pointer.
  function AtCheck(s: State, t: nat, e: Entry): State {
    s.(puts := s.puts[t := Put(e, s.writeChunk, false, s.writeChunkId, 0, Check)])
  }

  lemma {:induction false} TriesNow(s: State, t: nat, e: Entry)
    requires Inv(s) && AllDone(s) && 1 <= s.cap <= 900 && t !in s.puts
    ensures Trying(AtCheck(s, t, e), t) && WellFormed(s) && L.Linked(ChainOf(s)) && Enabled(s, Start(t, e))
  {
    ChainIsLinked(s);
    ChainStays(s, AtCheck(s, t, e));
    hide L.Linked, ChainOf, InSequence, ChunkOk, CallsOk, SlotsOwned, Routed;
  }

  lemma {:induction false} Concludes(s: State, t: nat, e: Entry, u: State)
    requires WellFormed(s) && L.Linked(ChainOf(s)) && AllDone(s) && t !in s.puts && AllPut(AtCheck(s, t, e), t, u)
    ensures Ingested(s, e, u)
  {
    ChainStays(s, AtCheck(s, t, e));
    hide ChainOf, InSequence, WellFormed, L.Put, L.Linked;
  }

  lemma {:induction false} ReadsBoth(s: State, t: nat, e: Entry)
    requires WellFormed(s) && t !in s.puts
    ensures Solo(Next(s, Start(t, e)), t, 2) == AtCheck(s, t, e)
  {
    var s1 := Next(s, Start(t, e));
    var s2 := Advance(s1, t);
    assert s2.puts == s1.puts[t := Put(e, 0, false, s.writeChunkId, 0, ReadPtr)];
    assert Solo(s1, t, 2) == Solo(s2, t, 1) == Advance(s2, t);
    assert s2.puts[t := AtCheck(s, t, e).puts[t]] == AtCheck(s, t, e).puts;
  }
}
