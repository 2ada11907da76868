// The lock-free ingestion protocol at the level of single memory accesses (chunk.go, ingester.go).
//
// Any number of goroutines run Ingest at once; the flusher locks chunks and grows the chain.  Every
// load, store, atomic add and compare-and-swap is one step, and steps interleave freely.  The chain is
// a sequence whose index is the chunk id.
module Protocol {
  import opened LogEntry

  // What happened to a place in `entries` so far, and which Put (t) it belongs to.  The memory cell
  // itself shows only Cell(slot).
  datatype Slot =
    | Free
    | Booked(t: nat)
    | Stored(t: nat, e: Entry)   // entry written
    | Sized(t: nat, e: Entry)    // and its length added to `size`
    | Counted(t: nat, e: Entry)  // and `write` incremented
  {
    function Cell(): Cell {
      match this
      case Free => Nil
      case Booked(_) => Nil
      case Stored(_, e) => Ptr(e)
      case Sized(_, e) => Ptr(e)
      case Counted(_, e) => Ptr(e)
    }
  }

  datatype Chunk = Chunk(book: nat, write: nat, size: nat, epochStart: int, epochEnd: int, locked: bool,
                         slots: seq<Slot>)

  // Where an Ingest call stands.  The steps from Store on know their slot.
  datatype Pc =
    | ReadId | ReadPtr            // ingester.go: load writeChunkId, load writeChunk
    | Check | Book | Grow         // chunk.go: load locked, add 1 to book, Next()
    | Store
    | LoadEnd | CasEnd(last: int)
    | LoadStart | CasStart(first: int, round: nat) | ReloadStart(round: nat)
    | AddSize
    | Count                       // the deferred add to write
    | CasId | SetPtr              // ingester.go: swap writeChunkId, then store writeChunk
    | Done

  datatype Put = Put(e: Entry, at: nat, full: bool, lastId: nat, slot: nat, pc: Pc) {
    predicate HasSlot() {
      !pc.ReadId? && !pc.ReadPtr? && !pc.Check? && !pc.Book? && !pc.Grow?
    }
  }

  datatype State = State(cap: nat, chunks: seq<Chunk>, puts: map<nat, Put>, writeChunk: nat, writeChunkId: nat)

  datatype Event =
    | Start(t: nat, e: Entry)  // a new call of Ingest
    | Run(t: nat)              // one step of that call
    | Lock(c: nat)             // the flusher locks a chunk
    | Extend                   // the flusher initialises a further chunk

  function Fresh(cap: nat): Chunk {
    Chunk(0, 0, 0, 0, 0, false, seq(cap, i => Free))
  }

  function Initial(cap: nat): State {
    State(cap, [Fresh(cap)], map[], 0, 0)
  }

  // ------------------------------------------------------------------ steps

  predicate WellFormed(s: State) {
    && s.writeChunk < |s.chunks|
    && (forall c :: 0 <= c < |s.chunks| ==> |s.chunks[c].slots| == s.cap)
    && (forall t :: t in s.puts ==> s.puts[t].at < |s.chunks| && (s.puts[t].HasSlot() ==> s.puts[t].slot < s.cap))
  }

  predicate Enabled(s: State, ev: Event) {
    match ev
    case Start(t, _) => t !in s.puts
    case Run(t) => t in s.puts && !s.puts[t].pc.Done?
    case Lock(c) => c < |s.chunks|
    case Extend => true
  }

  function Next(s: State, ev: Event): State
    requires WellFormed(s) && Enabled(s, ev)
  {
    match ev
    case Start(t, e) => s.(puts := s.puts[t := Put(e, 0, false, 0, 0, ReadId)])
    case Run(t) => Advance(s, t)
    case Lock(c) => s.(chunks := s.chunks[c := s.chunks[c].(locked := true)])
    case Extend => s.(chunks := s.chunks + [Fresh(s.cap)])
  }

  // One step of call t: the new state of its chunk, and of the call itself.
  function Advance(s: State, t: nat): State
    requires WellFormed(s) && t in s.puts
  {
    var p := s.puts[t];
    match p.pc
    case Done => s
    case ReadId => Local(s, t, p.(lastId := s.writeChunkId, pc := ReadPtr))
    case ReadPtr => Local(s, t, p.(at := s.writeChunk, pc := Check))
    case Grow =>
      var s' := if p.at + 1 == |s.chunks| then s.(chunks := s.chunks + [Fresh(s.cap)]) else s;
      Local(s', t, p.(at := p.at + 1, full := true, pc := Check))
    case CasId =>
      if s.writeChunkId == p.lastId
      then Local(s.(writeChunkId := p.at), t, p.(pc := SetPtr))
      else Local(s, t, p.(pc := Done))
    case SetPtr => Local(s.(writeChunk := p.at), t, p.(pc := Done))
    case _ =>
      var (ch, q) := OnChunk(s.cap, s.chunks[p.at], t, p);
      Local(s.(chunks := s.chunks[p.at := ch]), t, q)
  }

  function Local(s: State, t: nat, p: Put): State {
    s.(puts := s.puts[t := p])
  }

  // The steps of Put on its chunk.
  function OnChunk(cap: nat, ch: Chunk, t: nat, p: Put): (Chunk, Put)
    requires |ch.slots| == cap && (p.HasSlot() ==> p.slot < cap)
  {
    match p.pc
    case Check => (ch, p.(pc := if ch.locked then Grow else Book))
    case Book =>
      if ch.book < cap
      then (ch.(book := ch.book + 1, slots := ch.slots[ch.book := Booked(t)]), p.(slot := ch.book, pc := Store))
      else (ch.(book := ch.book + 1), p.(pc := Grow))
    case Store => (ch.(slots := ch.slots[p.slot := Stored(t, p.e)]), p.(pc := LoadEnd))
    case LoadEnd => (ch, p.(pc := if p.e.epoch > ch.epochEnd then CasEnd(ch.epochEnd) else LoadStart))
    case CasEnd(last) =>
      (if ch.epochEnd == last then ch.(epochEnd := p.e.epoch) else ch, p.(pc := LoadStart))
    case LoadStart =>
      (ch, p.(pc := if ch.epochStart == 0 || p.e.epoch < ch.epochStart then CasStart(ch.epochStart, 0) else AddSize))
    case CasStart(first, round) =>
      if ch.epochStart == first then (ch.(epochStart := p.e.epoch), p.(pc := AddSize))
      else (ch, p.(pc := if round < 3 then ReloadStart(round + 1) else AddSize))
    case ReloadStart(round) =>
      (ch, p.(pc := if p.e.epoch < ch.epochStart then CasStart(ch.epochStart, round) else AddSize))
    case AddSize =>
      (ch.(size := ch.size + |p.e.content|, slots := ch.slots[p.slot := Sized(t, p.e)]), p.(pc := Count))
    case Count =>
      (ch.(write := ch.write + 1, slots := ch.slots[p.slot := Counted(t, p.e)]),
       p.(pc := if p.full then CasId else Done))
    case _ => (ch, p)
  }

  // ------------------------------------------------------------------ invariant

  function Tally(slots: seq<Slot>, f: Slot -> nat): nat {
    if slots == [] then 0 else Tally(slots[..|slots| - 1], f) + f(slots[|slots| - 1])
  }

  function One(x: Slot): nat {
    if x.Counted? then 1 else 0
  }

  function Bytes(x: Slot): nat {
    if x.Counted? || x.Sized? then |x.e.content| else 0
  }

  ghost predicate ChunkOk(cap: nat, ch: Chunk) {
    && |ch.slots| == cap
    && (forall n :: 0 <= n < cap ==> (ch.slots[n].Free? <==> ch.book <= n))
    && ch.write == Tally(ch.slots, One)
    && ch.size == Tally(ch.slots, Bytes)
  }

  // The slot of a call mirrors how far the call is.
  ghost predicate Fits(x: Slot, t: nat, p: Put) {
    match p.pc
    case Store => x == Booked(t)
    case CasEnd(last) => x == Stored(t, p.e) && last < p.e.epoch
    case Count => x == Sized(t, p.e)
    case CasId => x == Counted(t, p.e)
    case SetPtr => x == Counted(t, p.e)
    case Done => x == Counted(t, p.e)
    case _ => x == Stored(t, p.e)
  }

  ghost predicate CallsOk(s: State)
    requires WellFormed(s)
  {
    forall t :: t in s.puts && s.puts[t].HasSlot() ==>
      Fits(s.chunks[s.puts[t].at].slots[s.puts[t].slot], t, s.puts[t])
  }

  // Every slot in use belongs to the call that is working on it.
  ghost predicate Owned(s: State, c: nat, n: nat)
    requires WellFormed(s) && c < |s.chunks| && n < s.cap
  {
    var x := s.chunks[c].slots[n];
    x.Free? || (x.t in s.puts && s.puts[x.t].at == c && s.puts[x.t].HasSlot() && s.puts[x.t].slot == n)
  }

  ghost predicate SlotsOwned(s: State)
    requires WellFormed(s)
  {
    forall c, n :: 0 <= c < |s.chunks| && 0 <= n < s.cap ==> Owned(s, c, n)
  }

  // A closed chunk accepts no further booking except from calls that have already passed its check.
  predicate Closed(s: State, c: nat)
    requires c < |s.chunks|
  {
    s.chunks[c].locked || s.cap <= s.chunks[c].book
  }

  ghost predicate ClosedBefore(s: State, c: nat) {
    c < |s.chunks| && forall k :: 0 <= k < c ==> Closed(s, k)
  }

  ghost predicate Routed(s: State) {
    && ClosedBefore(s, s.writeChunk)
    && ClosedBefore(s, s.writeChunkId)
    && (forall t :: t in s.puts ==> ClosedBefore(s, s.puts[t].at))
    && (forall t :: t in s.puts && s.puts[t].pc.Grow? ==> Closed(s, s.puts[t].at))
    && (forall c :: 0 <= c < |s.chunks| && s.chunks[c].book > 0 ==> ClosedBefore(s, c))
  }

  ghost predicate Inv(s: State) {
    && WellFormed(s)
    && (forall c :: 0 <= c < |s.chunks| ==> ChunkOk(s.cap, s.chunks[c]))
    && CallsOk(s) && SlotsOwned(s) && Routed(s)
  }

  lemma {:induction false} TallyUpdate(slots: seq<Slot>, n: nat, x: Slot, f: Slot -> nat)
    requires n < |slots|
    ensures Tally(slots[n := x], f) + f(slots[n]) == Tally(slots, f) + f(x)
  {
    var k := |slots| - 1;
    if n < k {
      TallyUpdate(slots[..k], n, x, f);
      assert slots[n := x][..k] == slots[..k][n := x];
    } else {
      assert slots[n := x][..k] == slots[..k];
    }
  }

  lemma {:induction false} TallyFresh(k: nat, f: Slot -> nat)
    requires f(Free) == 0
    ensures Tally(seq(k, i => Free), f) == 0
  {
    if k > 0 {
      TallyFresh(k - 1, f);
      assert seq(k, i => Free)[..k - 1] == seq(k - 1, i => Free);
    }
  }

  // write never exceeds the slots in use, and equals them only when every one of them is complete.
  lemma {:induction false} CountedPrefix(slots: seq<Slot>, b: nat)
    requires b <= |slots| && forall n :: b <= n < |slots| ==> slots[n].Free?
    ensures Tally(slots, One) <= b
    ensures Tally(slots, One) == b <==> forall n :: 0 <= n < b ==> slots[n].Counted?
  {
    if slots != [] {
      var k := |slots| - 1;
      CountedPrefix(slots[..k], if b <= k then b else k);
      assert forall n :: 0 <= n < k ==> slots[..k][n] == slots[n];
    }
  }

  lemma {:induction false} OnChunkOk(cap: nat, ch: Chunk, t: nat, p: Put)
    requires ChunkOk(cap, ch)
    requires p.HasSlot() ==> p.slot < cap && Fits(ch.slots[p.slot], t, p)
    ensures ChunkOk(cap, OnChunk(cap, ch, t, p).0)
  {
    if p.pc.Book? && ch.book < cap {
      TallyUpdate(ch.slots, ch.book, Booked(t), One);
      TallyUpdate(ch.slots, ch.book, Booked(t), Bytes);
    } else if p.pc.Store? {
      TallyUpdate(ch.slots, p.slot, Stored(t, p.e), One);
      TallyUpdate(ch.slots, p.slot, Stored(t, p.e), Bytes);
    } else if p.pc.AddSize? {
      TallyUpdate(ch.slots, p.slot, Sized(t, p.e), One);
      TallyUpdate(ch.slots, p.slot, Sized(t, p.e), Bytes);
    } else if p.pc.Count? {
      TallyUpdate(ch.slots, p.slot, Counted(t, p.e), One);
      TallyUpdate(ch.slots, p.slot, Counted(t, p.e), Bytes);
    }
  }

  lemma FreshOk(cap: nat)
    ensures ChunkOk(cap, Fresh(cap))
  {
    TallyFresh(cap, One);
    TallyFresh(cap, Bytes);
  }

  lemma {:induction false} InvInitial(cap: nat)
    ensures Inv(Initial(cap))
  {
    FreshOk(cap);
  }

  // ------------------------------------------------------------------ what a step may change

  ghost predicate SlotLater(x: Slot, y: Slot) {
    match x
    case Free => true
    case Booked(t) => !y.Free? && y.t == t
    case Stored(t, e) => y == x || y == Sized(t, e) || y == Counted(t, e)
    case Sized(t, e) => y == x || y == Counted(t, e)
    case Counted(_, _) => y == x
  }

  ghost predicate ChunkLater(a: Chunk, b: Chunk) {
    && a.book <= b.book && a.write <= b.write && a.size <= b.size
    && (a.locked ==> b.locked)
    && a.epochEnd <= b.epochEnd
    && |a.slots| == |b.slots|
    && forall n :: 0 <= n < |a.slots| ==> SlotLater(a.slots[n], b.slots[n])
  }

  ghost predicate Later(s: State, u: State) {
    && s.cap == u.cap && |s.chunks| <= |u.chunks|
    && forall c :: 0 <= c < |s.chunks| ==> ChunkLater(s.chunks[c], u.chunks[c])
  }

  // One step of a call on its chunk: nothing is undone, only the slot of the call changes, and the slot
  // keeps mirroring the call.
  ghost predicate GoodMove(cap: nat, ch: Chunk, t: nat, p: Put, ch': Chunk, q: Put) {
    && ChunkOk(cap, ch') && ChunkLater(ch, ch')
    && q.at == p.at
    && (p.HasSlot() ==> q.HasSlot() && q.slot == p.slot)
    && (q.HasSlot() ==> q.slot < cap && Fits(ch'.slots[q.slot], t, q))
    && (q.HasSlot() && !p.HasSlot() ==> ch.slots[q.slot].Free?)
    && (forall n :: 0 <= n < cap && !(q.HasSlot() && n == q.slot) ==> ch'.slots[n] == ch.slots[n])
    && (q.pc.Grow? ==> ch'.locked || cap <= ch'.book)
    && (ch.book == 0 < ch'.book ==> p.pc.Book?)
  }

  lemma {:induction false} OnChunkLater(cap: nat, ch: Chunk, t: nat, p: Put)
    requires ChunkOk(cap, ch)
    requires p.HasSlot() ==> p.slot < cap && Fits(ch.slots[p.slot], t, p)
    ensures ChunkLater(ch, OnChunk(cap, ch, t, p).0)
  {
    hide Tally;
  }

  // Booking takes the first free slot.
  lemma {:induction false} OnChunkBooks(cap: nat, ch: Chunk, t: nat, p: Put)
    requires |ch.slots| == cap && (ch.book < cap ==> ch.slots[ch.book].Free?) && !p.HasSlot()
    requires IsChunkStep(p.pc)
    ensures var (ch', q) := OnChunk(cap, ch, t, p);
            && q.at == p.at && |ch'.slots| == cap && (q.HasSlot() ==> p.pc.Book? && q.slot == ch.book < cap)
            && (q.HasSlot() ==> Fits(ch'.slots[q.slot], t, q) && ch.slots[q.slot].Free?)
            && (forall n :: 0 <= n < cap && !(q.HasSlot() && n == q.slot) ==> ch'.slots[n] == ch.slots[n])
  {
  }

  // A call with a slot changes nothing but that slot, which keeps mirroring it.
  lemma {:induction false} OnChunkWrites(cap: nat, ch: Chunk, t: nat, p: Put)
    requires |ch.slots| == cap && p.HasSlot() && p.slot < cap && Fits(ch.slots[p.slot], t, p)
    ensures var (ch', q) := OnChunk(cap, ch, t, p);
            && q.at == p.at && |ch'.slots| == cap && q.HasSlot() && q.slot == p.slot
            && Fits(ch'.slots[q.slot], t, q)
            && (forall n :: 0 <= n < cap && n != q.slot ==> ch'.slots[n] == ch.slots[n])
  {
  }

  lemma {:induction false} OnChunkMoves(cap: nat, ch: Chunk, t: nat, p: Put)
    requires ChunkOk(cap, ch)
    requires p.HasSlot() ==> p.slot < cap && Fits(ch.slots[p.slot], t, p)
    requires p.pc.Grow? ==> ch.locked || cap <= ch.book
    ensures GoodMove(cap, ch, t, p, OnChunk(cap, ch, t, p).0, OnChunk(cap, ch, t, p).1)
  {
    OnChunkOk(cap, ch, t, p);
    OnChunkLater(cap, ch, t, p);
    if p.HasSlot() {
      OnChunkWrites(cap, ch, t, p);
    } else if IsChunkStep(p.pc) {
      OnChunkBooks(cap, ch, t, p);
    }
    var (ch', q) := OnChunk(cap, ch, t, p);
    assert (q.pc.Grow? ==> ch'.locked || cap <= ch'.book) && (ch.book == 0 < ch'.book ==> p.pc.Book?);
    hide OnChunk, ChunkOk, ChunkLater, Fits;
  }

  lemma ClosedLater(s: State, u: State, c: nat)
    requires WellFormed(s) && Later(s, u) && ClosedBefore(s, c)
    ensures ClosedBefore(u, c)
  {
    forall k | 0 <= k < c
      ensures Closed(u, k)
    {
      assert Closed(s, k);
    }
  }

  // A step of call t that moves the call on and changes its chunk.
  function Moved(s: State, t: nat, ch: Chunk, q: Put): State
    requires t in s.puts && s.puts[t].at < |s.chunks|
  {
    Local(s.(chunks := s.chunks[s.puts[t].at := ch]), t, q)
  }

  lemma {:induction false} MoveKeepsCalls(s: State, t: nat, ch: Chunk, q: Put)
    requires Inv(s) && t in s.puts
    requires GoodMove(s.cap, s.chunks[s.puts[t].at], t, s.puts[t], ch, q)
    ensures WellFormed(Moved(s, t, ch, q)) && CallsOk(Moved(s, t, ch, q))
  {
    hide Routed, Tally, ChunkLater;
    var u := Moved(s, t, ch, q);
    forall v | v in u.puts && u.puts[v].HasSlot()
      ensures Fits(u.chunks[u.puts[v].at].slots[u.puts[v].slot], v, u.puts[v])
    {
      if v != t {
        assert Fits(s.chunks[s.puts[v].at].slots[s.puts[v].slot], v, s.puts[v]);
      }
    }
  }

  lemma {:induction false} MoveKeepsOwners(s: State, t: nat, ch: Chunk, q: Put)
    requires Inv(s) && t in s.puts
    requires GoodMove(s.cap, s.chunks[s.puts[t].at], t, s.puts[t], ch, q)
    requires WellFormed(Moved(s, t, ch, q))
    ensures SlotsOwned(Moved(s, t, ch, q))
  {
    var u := Moved(s, t, ch, q);
    forall d, n | 0 <= d < |u.chunks| && 0 <= n < u.cap
      ensures Owned(u, d, n)
    {
      assert Owned(s, d, n);
      if q.HasSlot() && d == q.at && n == q.slot {
        assert Fits(ch.slots[n], t, q);
      }
    }
  }

  lemma {:induction false} InvMove(s: State, t: nat, ch: Chunk, q: Put)
    requires Inv(s) && t in s.puts
    requires GoodMove(s.cap, s.chunks[s.puts[t].at], t, s.puts[t], ch, q)
    ensures Inv(Moved(s, t, ch, q)) && Later(s, Moved(s, t, ch, q))
  {
    var u := Moved(s, t, ch, q);
    MoveKeepsCalls(s, t, ch, q);
    MoveKeepsOwners(s, t, ch, q);
    MoveIsLater(s, t, ch, q);
    RoutedLater(s, u);
  }

  lemma {:induction false} MoveIsLater(s: State, t: nat, ch: Chunk, q: Put)
    requires Inv(s) && t in s.puts
    requires GoodMove(s.cap, s.chunks[s.puts[t].at], t, s.puts[t], ch, q)
    ensures Later(s, Moved(s, t, ch, q))
  {
    forall c | 0 <= c < |s.chunks|
      ensures ChunkLater(s.chunks[c], s.chunks[s.puts[t].at := ch][c])
    {
      SameIsLater(s.chunks[c]);
    }
  }

  lemma SameIsLater(a: Chunk)
    ensures ChunkLater(a, a)
  {
  }

  // Calls, pointer and id keep standing where everything before is closed.
  lemma {:induction false} RoutedLater(s: State, u: State)
    requires Inv(s) && WellFormed(u) && Later(s, u)
    requires u.writeChunk == s.writeChunk || ClosedBefore(u, u.writeChunk)
    requires u.writeChunkId == s.writeChunkId || ClosedBefore(u, u.writeChunkId)
    requires forall t :: t in u.puts ==>
               || (t in s.puts && u.puts[t].at == s.puts[t].at)
               || ClosedBefore(u, u.puts[t].at)
    requires forall t :: t in u.puts && u.puts[t].pc.Grow? ==>
               (t in s.puts && u.puts[t] == s.puts[t]) || Closed(u, u.puts[t].at)
    requires forall c :: 0 <= c < |u.chunks| && u.chunks[c].book > 0 ==>
               || (c < |s.chunks| && s.chunks[c].book > 0)
               || (exists t :: t in s.puts && s.puts[t].at == c)
    ensures Routed(u)
  {
    ClosedLater(s, u, s.writeChunk);
    ClosedLater(s, u, s.writeChunkId);
    forall t | t in s.puts
      ensures ClosedBefore(u, s.puts[t].at)
    {
      ClosedLater(s, u, s.puts[t].at);
    }
    forall c | 0 <= c < |u.chunks| && u.chunks[c].book > 0
      ensures ClosedBefore(u, c)
    {
      if c < |s.chunks| && s.chunks[c].book > 0 {
        ClosedLater(s, u, c);
      }
    }
  }

  // A new call, a lock or a fresh last chunk leave the slots as they are.
  ghost predicate SameSlots(s: State, u: State) {
    && u.cap == s.cap && |s.chunks| <= |u.chunks|
    && (forall c :: 0 <= c < |s.chunks| ==>
          u.chunks[c] == s.chunks[c] || u.chunks[c] == s.chunks[c].(locked := true))
    && (forall c :: |s.chunks| <= c < |u.chunks| ==> u.chunks[c] == Fresh(s.cap))
    && (forall t :: t in s.puts ==> t in u.puts && u.puts[t] == s.puts[t])
    && (forall t :: t in u.puts && t !in s.puts ==> !u.puts[t].HasSlot())
  }

  lemma {:induction false} InvKeepsSlots(s: State, u: State)
    requires Inv(s) && WellFormed(u) && SameSlots(s, u)
    ensures CallsOk(u) && SlotsOwned(u)
    ensures forall c :: 0 <= c < |u.chunks| ==> ChunkOk(u.cap, u.chunks[c])
  {
    FreshOk(u.cap);
    forall t | t in u.puts && u.puts[t].HasSlot()
      ensures Fits(u.chunks[u.puts[t].at].slots[u.puts[t].slot], t, u.puts[t])
    {
      assert Fits(s.chunks[s.puts[t].at].slots[s.puts[t].slot], t, s.puts[t]);
    }
    forall c, n | 0 <= c < |u.chunks| && 0 <= n < u.cap
      ensures Owned(u, c, n)
    {
      assert c < |s.chunks| ==> Owned(s, c, n);
    }
  }

  lemma {:induction false} InvFlusher(s: State, ev: Event)
    requires Inv(s) && Enabled(s, ev) && !ev.Run?
    ensures Inv(Next(s, ev)) && Later(s, Next(s, ev))
  {
    hide ChunkOk, CallsOk, SlotsOwned, ChunkLater;
    var u := Next(s, ev);
    ChainIsLater(s, u);
    InvKeepsSlots(s, u);
    RoutedLater(s, u);
  }

  lemma {:induction false} ChainIsLater(s: State, u: State)
    requires s.cap == u.cap && |s.chunks| <= |u.chunks|
    requires forall c :: 0 <= c < |s.chunks| ==>
               u.chunks[c] == s.chunks[c] || u.chunks[c] == s.chunks[c].(locked := true)
    ensures Later(s, u)
  {
    forall c | 0 <= c < |s.chunks|
      ensures ChunkLater(s.chunks[c], u.chunks[c])
    {
      SameIsLater(s.chunks[c]);
    }
  }

  // Only call t moves, without touching a slot.
  ghost predicate OneCall(s: State, u: State, t: nat, q: Put) {
    && t in s.puts && u.puts == s.puts[t := q] && u.cap == s.cap
    && (u.chunks == s.chunks || u.chunks == s.chunks + [Fresh(s.cap)])
    && q.at < |u.chunks| && u.writeChunk < |u.chunks|
    && !q.pc.Grow?
    && if q.HasSlot() then
         && q == s.puts[t].(pc := q.pc)
         && (s.puts[t].pc.CasId? || s.puts[t].pc.SetPtr?) && (q.pc.SetPtr? || q.pc.Done?)
       else !s.puts[t].HasSlot()
  }

  lemma {:induction false} OneCallKeepsSlots(s: State, u: State, t: nat, q: Put)
    requires Inv(s) && OneCall(s, u, t, q)
    ensures WellFormed(u) && CallsOk(u) && SlotsOwned(u)
    ensures forall c :: 0 <= c < |u.chunks| ==> ChunkOk(u.cap, u.chunks[c])
  {
    hide ChunkOk, CallsOk, SlotsOwned, Routed;
    FreshOk(s.cap);
    assert WellFormed(u);
    OneCallKeepsCalls(s, u, t, q);
    OneCallKeepsOwners(s, u, t, q);
  }

  lemma {:induction false} OneCallKeepsCalls(s: State, u: State, t: nat, q: Put)
    requires Inv(s) && OneCall(s, u, t, q) && WellFormed(u)
    ensures CallsOk(u)
  {
    hide ChunkOk, SlotsOwned, Routed;
    forall v | v in u.puts && u.puts[v].HasSlot()
      ensures Fits(u.chunks[u.puts[v].at].slots[u.puts[v].slot], v, u.puts[v])
    {
      assert Fits(s.chunks[s.puts[v].at].slots[s.puts[v].slot], v, s.puts[v]);
    }
  }

  lemma {:induction false} OneCallKeepsOwners(s: State, u: State, t: nat, q: Put)
    requires Inv(s) && OneCall(s, u, t, q) && WellFormed(u)
    ensures SlotsOwned(u)
  {
    hide ChunkOk, CallsOk, Routed;
    forall c, n | 0 <= c < |u.chunks| && 0 <= n < u.cap
      ensures Owned(u, c, n)
    {
      if c < |s.chunks| {
        assert Owned(s, c, n);
      }
    }
  }

  lemma {:induction false} InvOneCall(s: State, u: State, t: nat, q: Put)
    requires Inv(s) && OneCall(s, u, t, q)
    requires ClosedBefore(u, u.writeChunk) && ClosedBefore(u, u.writeChunkId) && ClosedBefore(u, q.at)
    ensures Inv(u) && Later(s, u)
  {
    ChainIsLater(s, u);
    OneCallKeepsSlots(s, u, t, q);
    forall c | 0 <= c < |u.chunks| && u.chunks[c].book > 0
      ensures ClosedBefore(u, c)
    {
      ClosedLater(s, u, c);
    }
    forall v | v in u.puts
      ensures ClosedBefore(u, u.puts[v].at)
      ensures u.puts[v].pc.Grow? ==> Closed(u, u.puts[v].at)
    {
      if v != t {
        ClosedLater(s, u, s.puts[v].at);
      }
    }
  }

  lemma {:induction false} InvPointer(s: State, t: nat)
    requires Inv(s) && t in s.puts && !s.puts[t].pc.Grow? && !s.puts[t].pc.Done? && !IsChunkStep(s.puts[t].pc)
    ensures Inv(Advance(s, t)) && Later(s, Advance(s, t))
  {
    hide ChunkOk, Fits, ChunkLater, OnChunk;
    var u := Advance(s, t);
    ChainIsLater(s, u);
    ClosedLater(s, u, s.writeChunk);
    ClosedLater(s, u, s.writeChunkId);
    ClosedLater(s, u, s.puts[t].at);
    InvOneCall(s, u, t, u.puts[t]);
  }

  lemma {:induction false} InvGrow(s: State, t: nat)
    requires Inv(s) && t in s.puts && s.puts[t].pc.Grow?
    ensures Inv(Advance(s, t)) && Later(s, Advance(s, t))
  {
    var u := Advance(s, t);
    var c := s.puts[t].at;
    ChainIsLater(s, u);
    ClosedLater(s, u, s.writeChunk);
    ClosedLater(s, u, s.writeChunkId);
    ClosedLater(s, u, c);
    assert Closed(s, c);
    assert ClosedBefore(u, c + 1);
    InvOneCall(s, u, t, u.puts[t]);
  }

  // Main invariant: every step of every interleaving keeps it, and undoes nothing.
  lemma {:induction false} InvNext(s: State, ev: Event)
    requires Inv(s) && Enabled(s, ev)
    ensures Inv(Next(s, ev)) && Later(s, Next(s, ev))
  {
    if ev.Run? && IsChunkStep(s.puts[ev.t].pc) {
      var p := s.puts[ev.t];
      var (ch, q) := OnChunk(s.cap, s.chunks[p.at], ev.t, p);
      assert Closed(s, p.at) <==> s.chunks[p.at].locked || s.cap <= s.chunks[p.at].book;
      OnChunkMoves(s.cap, s.chunks[p.at], ev.t, p);
      InvMove(s, ev.t, ch, q);
    } else if ev.Run? && s.puts[ev.t].pc.Grow? {
      InvGrow(s, ev.t);
    } else if ev.Run? {
      InvPointer(s, ev.t);
    } else {
      InvFlusher(s, ev);
    }
  }

  predicate IsChunkStep(pc: Pc) {
    !pc.ReadId? && !pc.ReadPtr? && !pc.Grow? && !pc.CasId? && !pc.SetPtr? && !pc.Done?
  }
}
