// What gets done in every run: old and large chunks are locked, what is locked or full is stored by the next
// routine check that the storage lets through, Puts go to the newest chunk, and chunks know their own measures.
module FlushProgress {
  import opened LogEntry
  import opened Ledger

  // ---- What the flusher leaves alone ----

  ghost predicate Kept(a: Chunk, b: Chunk) {
    b == a.(locked := b.locked, retries := b.retries) && (a.locked ==> b.locked)
  }

  // From s to r without a Put: chunks keep what is in them, new chunks are empty, history only grows.
  ghost predicate Quiet(s: State, r: State) {
    && |s.chain| <= |r.chain| && r.write == s.write && r.accepted == s.accepted
    && s.flush <= r.flush && s.log <= r.log && s.fates <= r.fates
    && (forall k :: 0 <= k < |s.chain| ==> Kept(s.chain[k], r.chain[k]))
    && (forall k :: |s.chain| <= k < |r.chain| ==> Kept(Blank(r.chain[k].id, r.chain[k].cap), r.chain[k]))
  }

  lemma {:induction false} QuietTwice(s: State, t: State, r: State)
    requires Quiet(s, t) && Quiet(t, r)
    ensures Quiet(s, r)
  {
    forall k | 0 <= k < |s.chain| ensures Kept(s.chain[k], r.chain[k]) {
      assert Kept(s.chain[k], t.chain[k]) && Kept(t.chain[k], r.chain[k]);
    }
    forall k | |s.chain| <= k < |r.chain| ensures Kept(Blank(r.chain[k].id, r.chain[k].cap), r.chain[k]) {
      if k < |t.chain| {
        assert Kept(Blank(t.chain[k].id, t.chain[k].cap), t.chain[k]) && Kept(t.chain[k], r.chain[k]);
      }
    }
  }

  lemma QuietAhead(s: State, depth: nat)
    requires Shaped(s)
    ensures Quiet(s, InitAhead(s, depth))
  {
  }

  lemma QuietPass(s: State, fate: Fate)
    requires Shaped(s)
    ensures Quiet(s, Pass(s, fate))
  {
  }

  lemma QuietAttempt(s: State, oracle: nat -> bool)
    requires Shaped(s)
    ensures Quiet(s, Attempt(s, oracle))
  {
  }

  lemma QuietLocked(s: State)
    requires Shaped(s)
    ensures Quiet(s, Locked(s))
  {
  }

  lemma {:induction false} QuietFlushPass(cfg: Config, oracle: nat -> bool, expired: bool, s: State)
    requires Shaped(s) && cfg.chunks < 256
    ensures Quiet(s, FlushPass(cfg, oracle, expired, s).0)
  {
    hide Quiet, Linked, Grown, Chunk.Ready, Chunk.Empty;
    assert Quiet(s, s) by { QuietNone(s); }
    var a, depth := Attempt(s, oracle), (cfg.chunks + 1) % 256;
    QuietAttempt(s, oracle);
    QuietAhead(a, depth);
    QuietTwice(s, a, InitAhead(a, depth));
    QuietPass(InitAhead(a, depth), Persisted);
    QuietPass(InitAhead(a, depth), Abandoned);
    QuietTwice(s, InitAhead(a, depth), Pass(InitAhead(a, depth), Persisted));
    QuietTwice(s, InitAhead(a, depth), Pass(InitAhead(a, depth), Abandoned));
    QuietLocked(s);
    QuietAhead(Locked(s), cfg.chunks);
    QuietTwice(s, Locked(s), InitAhead(Locked(s), cfg.chunks));
  }

  lemma QuietNone(s: State)
    ensures Quiet(s, s)
  {
  }

  lemma {:induction false} QuietFlushLoop(cfg: Config, oracle: nat -> bool, expired: bool, s: State)
    requires Shaped(s) && cfg.chunks < 256
    ensures Quiet(s, FlushLoop(cfg, oracle, expired, s))
    decreases Depth(s.chain, s.flush)
  {
    FlushLoopUnfolds(cfg, oracle, expired, s);
    QuietFlushPass(cfg, oracle, expired, s);
    hide Quiet, Linked, FlushPass, FlushLoop, Depth;
    var (t, more) := FlushPass(cfg, oracle, expired, s);
    if more {
      QuietFlushLoop(cfg, oracle, expired, t);
      QuietTwice(s, t, FlushLoop(cfg, oracle, expired, t));
    }
  }

  lemma {:induction false} QuietDropLoop(cfg: Config, s: State)
    requires Shaped(s) && cfg.maxDirtyChunks >= 0
    ensures Quiet(s, DropLoop(cfg, s))
    decreases Depth(s.chain, s.flush)
  {
    DropLoopUnfolds(cfg, s);
    hide Quiet, Linked, DropLoop, Depth, Pass;
    if Depth(s.chain, s.flush) > cfg.maxDirtyChunks {
      var t := Pass(s, Discarded);
      QuietPass(s, Discarded);
      PassMoves(s, Discarded);
      QuietDropLoop(cfg, t);
      QuietTwice(s, t, DropLoop(cfg, t));
    } else {
      QuietNone(s);
    }
  }

  lemma PassMoves(s: State, fate: Fate)
    requires Shaped(s)
    ensures Pass(s, fate).flush == s.flush + 1
  {
  }

  lemma {:induction false} QuietRoutine(cfg: Config, oracle: nat -> bool, expired: bool, s: State)
    requires Shaped(s) && cfg.chunks < 256 && cfg.maxDirtyChunks >= 0
    ensures Quiet(s, Routine(cfg, oracle, expired, s))
  {
    hide Quiet, Linked, DropLoop, FlushLoop, Depth, Grown;
    var t := FlushLoop(cfg, oracle, expired, s);
    QuietFlushLoop(cfg, oracle, expired, s);
    QuietDropLoop(cfg, t);
    QuietTwice(s, t, DropLoop(cfg, t));
    QuietAhead(DropLoop(cfg, t), cfg.chunks);
    QuietTwice(s, DropLoop(cfg, t), InitAhead(DropLoop(cfg, t), cfg.chunks));
  }

  lemma {:induction false} QuietApply(cfg: Config, oracle: nat -> bool, s: State, op: Op)
    requires Shaped(s) && cfg.chunks < 256 && cfg.maxDirtyChunks >= 0 && !op.Accept?
    ensures Quiet(s, Apply(cfg, oracle, s, op))
  {
    hide Quiet, Linked, Routine, FlushPass, Depth, Pass;
    match op
    case FlushStep(expired) => QuietFlushPass(cfg, oracle, expired, s);
    case DropStep =>
      QuietPass(s, Discarded);
      QuietNone(s);
    case Check(expired) => QuietRoutine(cfg, oracle, expired, s);
  }

  // ---- Where Puts go, and what a chunk knows of its entries ----

  // Nothing is behind writeChunk, and the last entry accepted is the last one in it.
  ghost predicate InFront(s: State) {
    && s.write < |s.chain| && (forall k :: s.write < k < |s.chain| ==> s.chain[k].Empty())
    && (s.accepted != [] ==>
          var last := s.chain[s.write].entries;
          last != [] && last[|last| - 1] == s.accepted[|s.accepted| - 1])
  }

  function Bytes(entries: seq<Entry>): nat {
    if entries == [] then 0 else |entries[0].content| + Bytes(entries[1..])
  }

  // size is the bytes of the entries, epochEnd the latest second of an entry from 0 on, epochStart the earliest
  // unless some entry is of second 0.
  ghost predicate Measured(c: Chunk) {
    && c.size == Bytes(c.entries)
    && 0 <= c.epochEnd && (forall e :: e in c.entries ==> e.epoch <= c.epochEnd)
    && (c.epochEnd == 0 || exists e :: e in c.entries && e.epoch == c.epochEnd)
    && (c.entries == [] ==> c.epochStart == 0)
    && ((forall e :: e in c.entries ==> e.epoch != 0) ==>
          && (forall e :: e in c.entries ==> c.epochStart <= e.epoch)
          && (c.entries != [] ==> exists e :: e in c.entries && e.epoch == c.epochStart))
  }

  ghost predicate AllMeasured(s: State) {
    forall k :: 0 <= k < |s.chain| ==> Measured(s.chain[k])
  }

  lemma {:induction false} BytesMore(entries: seq<Entry>, e: Entry)
    ensures Bytes(entries + [e]) == Bytes(entries) + |e.content|
  {
    if entries == [] {
      assert entries + [e] == [e];
    } else {
      BytesMore(entries[1..], e);
      assert (entries + [e])[1..] == entries[1..] + [e];
    }
  }

  lemma {:induction false} AcceptMeasures(c: Chunk, e: Entry)
    requires Measured(c)
    ensures Measured(c.Accept(e))
  {
    BytesMore(c.entries, e);
    var r := c.Accept(e);
    assert r.entries == c.entries + [e];
    hide Bytes;
    assert e in r.entries && forall x :: x in r.entries <==> x in c.entries || x == e;
  }

  lemma BlankMeasures(id: int, cap: int)
    ensures Measured(Blank(id, cap))
  {
  }

  lemma KeptMeasures(a: Chunk, b: Chunk)
    requires Kept(a, b) && Measured(a)
    ensures Measured(b)
  {
  }

  lemma {:induction false} QuietKeepsBooks(s: State, r: State)
    requires Quiet(s, r) && InFront(s) && AllMeasured(s)
    ensures InFront(r) && AllMeasured(r)
  {
    hide Measured;
    forall k | 0 <= k < |r.chain| ensures Measured(r.chain[k]) && (k > r.write ==> r.chain[k].Empty()) {
      if k < |s.chain| {
        KeptMeasures(s.chain[k], r.chain[k]);
      } else {
        BlankMeasures(r.chain[k].id, r.chain[k].cap);
        KeptMeasures(Blank(r.chain[k].id, r.chain[k].cap), r.chain[k]);
      }
    }
    assert Kept(s.chain[s.write], r.chain[s.write]);
  }

  lemma {:induction false} IngestKeepsBooks(cfg: Config, s: State, e: Entry)
    requires Inv(cfg, s) && InFront(s) && AllMeasured(s)
    ensures InFront(Ingest(s, e)) && AllMeasured(Ingest(s, e))
  {
    var (r, into) := Put(s.chain, s.write, e);
    PutIs(s.chain, s.write, e);
    PutBooks(s, e, r, into);
    hide *;
    IngestIs(s, e);
  }

  lemma IngestIs(s: State, e: Entry)
    requires Shaped(s)
    ensures var (r, into) := Put(s.chain, s.write, e);
            Ingest(s, e) == s.(chain := r, write := into, accepted := s.accepted + [e])
  {
  }

  lemma {:induction false} PutBooks(s: State, e: Entry, r: Chain, into: nat)
    requires InFront(s) && AllMeasured(s)
    requires |s.chain| <= |r| && s.write <= into < |r| && into <= |s.chain| && PutShape(s.chain, s.write, e, r, into)
    ensures var t := s.(chain := r, write := into, accepted := s.accepted + [e]); InFront(t) && AllMeasured(t)
  {
    PutMeasures(s.chain, s.write, e, r, into);
    PutInFront(s.chain, s.write, e, r, into);
    hide Measured, PutShape;
  }

  lemma PutInFront(chain: Chain, k: nat, e: Entry, r: Chain, into: nat)
    requires |chain| <= |r| && k <= into < |r| && into <= |chain| && k < |chain| && PutShape(chain, k, e, r, into)
    requires forall i :: k < i < |chain| ==> chain[i].Empty()
    ensures forall i :: into < i < |r| ==> r[i].Empty()
    ensures var last := r[into].entries; last != [] && last[|last| - 1] == e
  {
  }

  lemma {:induction false} PutMeasures(chain: Chain, k: nat, e: Entry, r: Chain, into: nat)
    requires |chain| <= |r| && k <= into < |r| && into <= |chain| && k < |chain| && PutShape(chain, k, e, r, into)
    requires forall i :: 0 <= i < |chain| ==> Measured(chain[i])
    ensures forall i :: 0 <= i < |r| ==> Measured(r[i])
  {
    hide Measured;
    BlankMeasures(into, chain[0].cap);
    forall i | 0 <= i < |r| ensures Measured(r[i]) {
      if i == into {
        AcceptMeasures(if into < |chain| then chain[i] else Blank(into, chain[0].cap), e);
      } else {
        RefuseMeasures(chain[i]);
      }
    }
  }

  lemma RefuseMeasures(c: Chunk)
    requires Measured(c)
    ensures Measured(c.Refuse())
  {
  }

  // In every run.
  lemma {:induction false} BooksAreKept(cfg: Config, oracle: nat -> bool, ops: seq<Op>)
    requires Sane(cfg)
    ensures var s := Run(cfg, oracle, Initial(cfg), ops); InFront(s) && AllMeasured(s)
  {
    InitialInv(cfg);
    if ops == [] {
      InitialIs(cfg);
      hide Measured;
      BlankMeasures(0, cfg.chunkSize);
      forall k | 0 <= k < |Initial(cfg).chain| ensures Measured(Initial(cfg).chain[k]) {
        BlankMeasures(k, cfg.chunkSize);
      }
    } else {
      var front, op := ops[..|ops| - 1], ops[|ops| - 1];
      BooksAreKept(cfg, oracle, front);
      RunKeeps(cfg, oracle, Initial(cfg), front);
      hide InFront, AllMeasured, Inv, Running, Quiet, Linked;
      var s := Run(cfg, oracle, Initial(cfg), front);
      if op.Accept? {
        IngestKeepsBooks(cfg, s, op.e);
      } else {
        QuietApply(cfg, oracle, s, op);
        QuietKeepsBooks(s, Apply(cfg, oracle, s, op));
      }
    }
  }

  // ---- Old and large chunks are locked ----

  // Holds entries, and no Put reaches it any more.
  predicate Sealed(c: Chunk) {
    c.entries != [] && (|c.entries| == c.cap || c.locked)
  }

  lemma {:induction false} ReadyIsSealed(c: Chunk)
    requires c.Valid()
    ensures c.Ready() <==> Sealed(c)
    ensures c.Empty() <==> c.entries == []
  {
  }

  // The chunk at flushChunk is too old or too large.
  predicate Overdue(cfg: Config, expired: bool, s: State)
    requires Shaped(s)
  {
    expired || (cfg.maxChunkSizeBytes > 0 && s.chain[s.flush].size > cfg.maxChunkSizeBytes)
  }

  // What a pass does to a chunk that is not ready: overdue with entries, it is locked, and then it is ready; the
  // list is made long enough for Puts to go on.  Otherwise nothing happens.  Either way the loop ends.
  lemma {:induction false} IdleIsLocked(cfg: Config, oracle: nat -> bool, expired: bool, s: State)
    requires Shaped(s) && cfg.chunks < 256 && !Sealed(s.chain[s.flush])
    ensures var (r, more) := FlushPass(cfg, oracle, expired, s);
            && !more
            && if Overdue(cfg, expired, s) && s.chain[s.flush].entries != [] then
                 && r == s.(chain := r.chain) && |r.chain| == Longest(|s.chain|, s.flush + cfg.chunks + 1)
                 && r.chain[s.flush] == s.chain[s.flush].(locked := true) && Sealed(r.chain[s.flush])
                 && (forall k :: 0 <= k < |s.chain| && k != s.flush ==> r.chain[k] == s.chain[k])
                 && (forall k :: |s.chain| <= k < |r.chain| ==> r.chain[k] == Blank(k, s.chain[0].cap))
               else r == s
  {
    ReadyIsSealed(s.chain[s.flush]);
    hide Chunk.Ready, Chunk.Empty, Grown;
  }

  // ---- What is sealed is stored ----

  // The storage takes everything from call n on.
  ghost predicate Accepting(oracle: nat -> bool, n: nat) {
    forall i :: i >= n ==> oracle(i)
  }

  // One attempt: stored it is passed; failed it stays, with one more retry, until the last is used up.
  ghost predicate Tried(cfg: Config, s: State, ok: bool, r: State, more: bool)
    requires Shaped(s) && Shaped(r) && cfg.chunks < 256
  {
    var c := s.chain[s.flush];
    && r == s.(chain := r.chain, log := r.log, flush := r.flush, fates := r.fates) && |s.chain| <= |r.chain|
    && r.log == s.log + [Flush(s.flush, c.entries, ok)]
    && (forall k :: 0 <= k < |s.chain| && k != s.flush ==> r.chain[k] == s.chain[k])
    && (forall k :: |s.chain| <= k < |r.chain| ==> r.chain[k] == Blank(k, s.chain[0].cap))
    && r.chain[s.flush] == c.(retries := c.retries + if ok then 0 else 1)
    && (more <==> ok || c.retries >= cfg.maxFlushRetry)
    && r.flush == s.flush + (if more then 1 else 0)
    && r.fates == s.fates + (if more then [if ok then Persisted else Abandoned] else [])
    && |r.chain| == if more then Longest(|s.chain|, s.flush + Longest((cfg.chunks + 1) % 256, 1) + 1) else |s.chain|
  }

  function Longest(a: int, b: int): int {
    if a < b then b else a
  }

  lemma {:induction false} SealedIsTried(cfg: Config, oracle: nat -> bool, expired: bool, s: State)
    requires Shaped(s) && cfg.chunks < 256 && Sealed(s.chain[s.flush])
    ensures var (r, more) := FlushPass(cfg, oracle, expired, s); Tried(cfg, s, oracle(|s.log|), r, more)
  {
    ReadyIsSealed(s.chain[s.flush]);
    PassOfReady(cfg, oracle, expired, s);
    AttemptedIs(oracle, s);
    var a := Attempt(s, oracle);
    hide *;
    if oracle(|s.log|) {
      TriedMoves(cfg, s, true, a);
    } else if s.chain[s.flush].retries >= cfg.maxFlushRetry {
      TriedMoves(cfg, s, false, a);
    } else {
      TriedStays(cfg, s, a);
    }
  }

  lemma PassOfReady(cfg: Config, oracle: nat -> bool, expired: bool, s: State)
    requires Shaped(s) && cfg.chunks < 256 && s.chain[s.flush].Ready() && !s.chain[s.flush].Empty()
    ensures var a, depth := Attempt(s, oracle), (cfg.chunks + 1) % 256;
            FlushPass(cfg, oracle, expired, s)
            == if oracle(|s.log|) then (Pass(InitAhead(a, depth), Persisted), true)
               else if a.chain[s.flush].retries > cfg.maxFlushRetry then (Pass(InitAhead(a, depth), Abandoned), true)
               else (a, false)
  {
    hide Attempt, Pass, InitAhead, Chunk.Ready, Chunk.Empty, Linked;
  }

  // a is s with one more call on its books.
  ghost predicate Attempted(s: State, ok: bool, a: State)
    requires Shaped(s)
  {
    var c := s.chain[s.flush];
    && a == s.(chain := a.chain, log := s.log + [Flush(s.flush, c.entries, ok)])
    && a.chain == s.chain[s.flush := c.(retries := c.retries + if ok then 0 else 1)]
  }

  lemma AttemptedIs(oracle: nat -> bool, s: State)
    requires Shaped(s)
    ensures Attempted(s, oracle(|s.log|), Attempt(s, oracle))
    ensures Attempt(s, oracle).chain[s.flush].retries == s.chain[s.flush].retries + if oracle(|s.log|) then 0 else 1
  {
    assert s.chain[s.flush := s.chain[s.flush]] == s.chain;
  }

  lemma TriedMoves(cfg: Config, s: State, ok: bool, a: State)
    requires Shaped(s) && Shaped(a) && cfg.chunks < 256 && Attempted(s, ok, a)
    requires ok || s.chain[s.flush].retries >= cfg.maxFlushRetry
    ensures var fate := if ok then Persisted else Abandoned;
            Tried(cfg, s, ok, Pass(InitAhead(a, (cfg.chunks + 1) % 256), fate), true)
  {
    hide Pass, InitAhead, Linked, Chunk.Valid;
    var depth, fate := (cfg.chunks + 1) % 256, if ok then Persisted else Abandoned;
    MovesOn(a, depth, fate);
    var r := Pass(InitAhead(a, depth), fate);
    assert a.flush == s.flush && a.fates == s.fates && a.accepted == s.accepted && a.write == s.write;
    assert r == s.(chain := r.chain, log := r.log, flush := r.flush, fates := r.fates);
  }

  lemma TriedStays(cfg: Config, s: State, a: State)
    requires Shaped(s) && Shaped(a) && cfg.chunks < 256 && Attempted(s, false, a)
    requires s.chain[s.flush].retries < cfg.maxFlushRetry
    ensures Tried(cfg, s, false, a, false)
  {
  }

  lemma {:induction false} MovesOn(s: State, depth: nat, fate: Fate)
    requires Shaped(s)
    ensures var r := Pass(InitAhead(s, depth), fate);
            && r == s.(chain := r.chain, flush := s.flush + 1, fates := s.fates + [fate])
            && |r.chain| == Longest(|s.chain|, s.flush + Longest(depth, 1) + 1)
            && (forall k :: 0 <= k < |s.chain| ==> r.chain[k] == s.chain[k])
            && forall k :: |s.chain| <= k < |r.chain| ==> r.chain[k] == Blank(k, s.chain[0].cap)
  {
  }

  // The flush loop has stored the run of sealed chunks from flushChunk on, each with one call, in order, and has
  // come to a chunk that is not sealed, which it has locked if it was overdue.
  ghost predicate Drained(cfg: Config, expired: bool, s: State, r: State)
    requires Shaped(s) && Shaped(r)
  {
    && s.flush <= r.flush <= |s.chain| && |s.chain| <= |r.chain| && r.accepted == s.accepted
    && (forall k :: s.flush <= k < r.flush ==> Sealed(s.chain[k]))
    && (r.flush < |s.chain| ==> !Sealed(s.chain[r.flush]))
    && |r.fates| == |s.fates| + (r.flush - s.flush) && s.fates <= r.fates
    && (forall k :: |s.fates| <= k < |r.fates| ==> r.fates[k] == Persisted)
    && Logged(s, r) && DrainedChain(cfg, expired, s, r)
  }

  // A successful call for every chunk passed.
  ghost predicate Logged(s: State, r: State) {
    && s.flush <= r.flush && |r.log| == |s.log| + (r.flush - s.flush) && s.log <= r.log
    && forall k :: |s.log| <= k < |r.log| ==>
         var id := s.flush + (k - |s.log|);
         id < |s.chain| && r.log[k] == Flush(id, s.chain[id].entries, true)
  }

  ghost predicate DrainedChain(cfg: Config, expired: bool, s: State, r: State)
    requires Shaped(s) && Shaped(r)
  {
    && |s.chain| <= |r.chain|
    && (forall k :: 0 <= k < |s.chain| && k != r.flush ==> r.chain[k] == s.chain[k])
    && (forall k :: |s.chain| <= k < |r.chain| ==> r.chain[k] == Blank(k, s.chain[0].cap))
    && (r.flush < |s.chain| ==>
          var c := s.chain[r.flush];
          var late := expired || (cfg.maxChunkSizeBytes > 0 && c.size > cfg.maxChunkSizeBytes);
          r.chain[r.flush] == if late && c.entries != [] then c.(locked := true) else c)
  }

  lemma {:induction false} FlushLoopDrains(cfg: Config, oracle: nat -> bool, expired: bool, s: State)
    requires Shaped(s) && cfg.chunks < 256 && Accepting(oracle, |s.log|)
    ensures Drained(cfg, expired, s, FlushLoop(cfg, oracle, expired, s))
    decreases Depth(s.chain, s.flush)
  {
    FlushLoopUnfolds(cfg, oracle, expired, s);
    var (t, more) := FlushPass(cfg, oracle, expired, s);
    if Sealed(s.chain[s.flush]) {
      SealedIsTried(cfg, oracle, expired, s);
      assert more && t.flush == s.flush + 1 && Accepting(oracle, |t.log|);
      hide FlushPass, FlushLoop, Depth, Drained, Linked, Sealed, Tried;
      FlushLoopDrains(cfg, oracle, expired, t);
      DrainedMore(cfg, expired, s, t, FlushLoop(cfg, oracle, expired, t));
    } else {
      IdleIsLocked(cfg, oracle, expired, s);
      hide FlushPass, FlushLoop, Depth, Linked;
    }
  }

  // One chunk more.
  lemma {:induction false} DrainedMore(cfg: Config, expired: bool, s: State, t: State, r: State)
    requires Shaped(s) && Shaped(t) && Shaped(r) && Drained(cfg, expired, t, r)
    requires Sealed(s.chain[s.flush]) && cfg.chunks < 256 && Tried(cfg, s, true, t, true)
    ensures Drained(cfg, expired, s, r)
  {
    var n := |s.chain|;
    assert n < |t.chain| ==> !Sealed(t.chain[n]);
    assert r.flush <= n;
    LoggedMore(cfg, s, t, r);
    assert DrainedChain(cfg, expired, s, r) by { hide Sealed, Logged, Linked; }
    hide Linked, Logged, DrainedChain;
    forall k | |s.fates| <= k < |r.fates| ensures r.fates[k] == Persisted {
      assert k == |s.fates| ==> r.fates[k] == t.fates[k];
    }
  }

  lemma {:induction false} LoggedMore(cfg: Config, s: State, t: State, r: State)
    requires Shaped(s) && Shaped(t) && cfg.chunks < 256 && Tried(cfg, s, true, t, true) && Logged(t, r)
    requires r.flush <= |s.chain|
    ensures Logged(s, r)
  {
    hide Linked, Longest;
    forall k | |s.log| <= k < |r.log|
      ensures s.flush + (k - |s.log|) < |s.chain|
      ensures r.log[k] == Flush(s.flush + (k - |s.log|), s.chain[s.flush + (k - |s.log|)].entries, true)
    {
      if k > |s.log| {
        assert r.log[k] == Flush(t.flush + (k - |t.log|), t.chain[t.flush + (k - |t.log|)].entries, true);
      } else {
        assert r.log[k] == t.log[k];
      }
    }
  }

  // Before shutdown the chunks Puts cannot reach are those that are sealed.
  lemma {:induction false} ClosedIsSealed(cfg: Config, s: State, k: nat)
    requires Inv(cfg, s) && Running(s) && k < |s.chain|
    ensures s.chain[k].Closed() <==> Sealed(s.chain[k])
  {
    hide Flatten, LogMatches, Settled, InOrder;
  }

  lemma UsedIsBehindClosed(s: State, k: nat)
    requires InOrder(s) && k < |s.chain|
    ensures !s.chain[k].Empty() ==> ClosedTo(s.chain, k)
  {
  }

  // Behind a chunk that is not sealed nothing is in use.
  lemma {:induction false} RestIsEmpty(cfg: Config, s: State, n: nat)
    requires Inv(cfg, s) && Running(s) && n < |s.chain| && !Sealed(s.chain[n])
    ensures forall k :: n < k < |s.chain| ==> s.chain[k].Empty()
  {
    ClosedIsSealed(cfg, s, n);
    hide Sealed;
    forall k | n < k < |s.chain| ensures s.chain[k].Empty() {
      UsedIsBehindClosed(s, k);
    }
  }

  // Where the flush loop stops nothing more than this chunk holds entries, so nothing is dropped.
  lemma {:induction false} RoutineDrains(cfg: Config, oracle: nat -> bool, expired: bool, s: State)
    requires Inv(cfg, s) && Running(s) && Sane(cfg) && Accepting(oracle, |s.log|)
    ensures var r := Routine(cfg, oracle, expired, s);
            && Drained(cfg, expired, s, r) && Inv(cfg, r) && Running(r)
            && forall k :: r.flush < k < |r.chain| ==> r.chain[k].Empty()
  {
    var t := FlushLoop(cfg, oracle, expired, s);
    FlushLoopDrains(cfg, oracle, expired, s);
    FlushLoopKeeps(cfg, oracle, expired, s);
    LoopStops(cfg, expired, s, t);
    hide Inv, Running, Drained, FlushLoop, Depth, DropLoop, Linked;
  }

  lemma {:induction false} LoopStops(cfg: Config, expired: bool, s: State, t: State)
    requires Inv(cfg, s) && Running(s) && Shaped(t) && Drained(cfg, expired, s, t)
    ensures Depth(t.chain, t.flush) <= 1 && forall k :: t.flush < k < |t.chain| ==> t.chain[k].Empty()
  {
    if t.flush < |s.chain| {
      RestIsEmpty(cfg, s, t.flush);
    }
    hide Inv, Running, Sealed;
  }

  // What a check makes of sealed chunks.
  lemma {:induction false} RoutineStores(cfg: Config, oracle: nat -> bool, expired: bool, s: State, n: nat)
    requires Inv(cfg, s) && Running(s) && Sane(cfg) && Accepting(oracle, |s.log|)
    requires n <= |s.chain| && forall k :: s.flush <= k < n ==> Sealed(s.chain[k])
    ensures var r := Routine(cfg, oracle, expired, s);
            && Inv(cfg, r) && Running(r) && s.log <= r.log && s.accepted == r.accepted
            && n <= r.flush == |r.fates| && s.flush == |s.fates| && s.fates <= r.fates
            && (forall k :: s.flush <= k < r.flush ==> r.fates[k] == Persisted)
            && |s.chain| <= |r.chain| && forall k :: 0 <= k < |s.chain| ==> r.chain[k].entries == s.chain[k].entries
  {
    RoutineDrains(cfg, oracle, expired, s);
    BooksOf(cfg, s);
    BooksOf(cfg, Routine(cfg, oracle, expired, s));
    hide Inv, Running, Routine, Linked, Successes;
  }

  lemma {:induction false} BooksOf(cfg: Config, s: State)
    requires Inv(cfg, s)
    ensures |s.fates| == s.flush < |s.chain| && ClosedTo(s.chain, s.flush)
    ensures forall k :: 0 <= k < s.flush && s.fates[k] == Persisted ==> Successes(s.log, k) == 1
  {
    forall k | 0 <= k < s.flush && s.fates[k] == Persisted ensures Successes(s.log, k) == 1 {
      assert FateFits(cfg, s.log, s.fates[k], k);
    }
  }

  // Puts leave a sealed chunk and the flusher's books alone.
  lemma {:induction false} SealedStays(cfg: Config, oracle: nat -> bool, s: State, puts: seq<Op>)
    requires Inv(cfg, s) && Running(s) && Sane(cfg) && forall op :: op in puts ==> op.Accept?
    ensures var r := Run(cfg, oracle, s, puts);
            && r.log == s.log && r.fates == s.fates && r.flush == s.flush && |s.chain| <= |r.chain|
            && forall k :: 0 <= k < |s.chain| && Sealed(s.chain[k]) ==>
                 Sealed(r.chain[k]) && r.chain[k].entries == s.chain[k].entries
  {
    if puts != [] {
      var front, op := puts[..|puts| - 1], puts[|puts| - 1];
      SealedStays(cfg, oracle, s, front);
      RunKeeps(cfg, oracle, s, front);
      var t := Run(cfg, oracle, s, front);
      assert op in puts;
      hide Run, Sealed;
      SealedAfterPut(cfg, t, op.e);
    }
  }

  lemma {:induction false} SealedAfterPut(cfg: Config, s: State, e: Entry)
    requires Inv(cfg, s) && Running(s)
    ensures var r := Ingest(s, e);
            && r.log == s.log && r.fates == s.fates && r.flush == s.flush && |s.chain| <= |r.chain|
            && forall k :: 0 <= k < |s.chain| && Sealed(s.chain[k]) ==>
                 Sealed(r.chain[k]) && r.chain[k].entries == s.chain[k].entries
  {
    PutIs(s.chain, s.write, e);
    var (r, into) := Put(s.chain, s.write, e);
    hide Flatten, LogMatches, Settled, InOrder, Put, Linked;
    forall k | 0 <= k < |s.chain| && Sealed(s.chain[k])
      ensures Sealed(r[k]) && r[k].entries == s.chain[k].entries
    {
      ClosedIsSealed(cfg, s, k);
    }
  }

  // Two checks with any Puts between them.
  function TwoChecks(cfg: Config, oracle: nat -> bool, expired: bool, s: State, puts: seq<Op>, later: bool): State
    requires Shaped(s) && cfg.chunks < 256 && cfg.maxDirtyChunks >= 0
  {
    Routine(cfg, oracle, later, Run(cfg, oracle, Routine(cfg, oracle, expired, s), puts))
  }

  // What both checks make of the chunks before n, where all that are not passed by the first are sealed by it.
  lemma {:induction false} ChecksStore(cfg: Config, oracle: nat -> bool, expired: bool, s: State, puts: seq<Op>,
                                       later: bool, n: nat)
    requires Inv(cfg, s) && Running(s) && Sane(cfg) && Accepting(oracle, |s.log|)
    requires forall op :: op in puts ==> op.Accept?
    requires var t := Routine(cfg, oracle, expired, s);
             n <= |t.chain| && forall k :: t.flush <= k < n ==> Sealed(t.chain[k])
    ensures var t, r := Routine(cfg, oracle, expired, s), TwoChecks(cfg, oracle, expired, s, puts, later);
            && n <= r.flush == |r.fates| && r.flush <= |r.chain|
            && (forall k :: s.flush <= k < r.flush ==> r.fates[k] == Persisted && Successes(r.log, k) == 1)
            && |t.chain| <= |r.chain| && forall k :: 0 <= k < n ==> r.chain[k].entries == t.chain[k].entries
  {
    RoutineStores(cfg, oracle, expired, s, s.flush);
    var t := Routine(cfg, oracle, expired, s);
    RunKeeps(cfg, oracle, t, puts);
    SealedStays(cfg, oracle, t, puts);
    SealedTo(cfg, t, n);
    hide Run, Routine, Running, Sealed, Linked, Inv;
    NextStores(cfg, oracle, later, s, t, Run(cfg, oracle, t, puts), n);
  }

  lemma {:induction false} NextStores(cfg: Config, oracle: nat -> bool, later: bool, s: State, t: State, u: State,
                                      n: nat)
    requires Inv(cfg, u) && Running(u) && Sane(cfg) && Accepting(oracle, |u.log|)
    requires n <= |t.chain| <= |u.chain| && s.flush == |s.fates| <= t.flush == |t.fates|
    requires u.fates == t.fates && u.flush == t.flush && forall k :: s.flush <= k < t.flush ==> t.fates[k] == Persisted
    requires forall k :: 0 <= k < n ==> Sealed(u.chain[k]) && u.chain[k].entries == t.chain[k].entries
    ensures var r := Routine(cfg, oracle, later, u);
            && n <= r.flush == |r.fates| && r.flush <= |r.chain|
            && (forall k :: s.flush <= k < r.flush ==> r.fates[k] == Persisted && Successes(r.log, k) == 1)
            && |t.chain| <= |r.chain| && forall k :: 0 <= k < n ==> r.chain[k].entries == t.chain[k].entries
  {
    RoutineStores(cfg, oracle, later, u, n);
    var r := Routine(cfg, oracle, later, u);
    BooksOf(cfg, r);
    hide Routine, Running, Sealed, Linked, Inv, Successes;
    forall k | s.flush <= k < r.flush ensures r.fates[k] == Persisted {
      assert k < t.flush ==> r.fates[k] == u.fates[k] == t.fates[k];
    }
  }

  lemma {:induction false} SealedTo(cfg: Config, t: State, n: nat)
    requires Inv(cfg, t) && Running(t) && n <= |t.chain| && forall k :: t.flush <= k < n ==> Sealed(t.chain[k])
    ensures forall k :: 0 <= k < n ==> Sealed(t.chain[k])
  {
    BooksOf(cfg, t);
    hide Inv, Running, Sealed;
    forall k | 0 <= k < n ensures Sealed(t.chain[k]) {
      if k < t.flush {
        ClosedIsSealed(cfg, t, k);
      }
    }
  }

  // Main theorem: a chunk that is sealed, or old or too large at a check, is stored, exactly once, by the end of the
  // next check, if the storage lets them through.
  lemma {:induction false} OverdueIsStored(cfg: Config, oracle: nat -> bool, expired: bool, s: State, puts: seq<Op>,
                                           later: bool)
    requires Inv(cfg, s) && Running(s) && Sane(cfg) && Accepting(oracle, |s.log|)
    requires forall op :: op in puts ==> op.Accept?
    requires Sealed(s.chain[s.flush]) || (s.chain[s.flush].entries != [] && Overdue(cfg, expired, s))
    ensures var r := TwoChecks(cfg, oracle, expired, s, puts, later);
            && s.flush < r.flush == |r.fates| && r.fates[s.flush] == Persisted && Successes(r.log, s.flush) == 1
  {
    RoutineDrains(cfg, oracle, expired, s);
    hide Inv, Running, Routine, TwoChecks, Successes, Linked;
    ChecksStore(cfg, oracle, expired, s, puts, later, s.flush + 1);
  }

  // After a check that finds the last chunk old, what holds entries is passed or sealed.
  lemma {:induction false} EmptyFrom(cfg: Config, s: State, t: State) returns (n: nat)
    requires Shaped(s) && Inv(cfg, t) && Drained(cfg, true, s, t)
    requires forall k :: t.flush < k < |t.chain| ==> t.chain[k].Empty()
    ensures t.flush <= n <= |t.chain| && Flatten(t.chain[..n]) == t.accepted
    ensures forall k :: t.flush <= k < n ==> Sealed(t.chain[k])
  {
    n := if t.chain[t.flush].entries == [] then t.flush else t.flush + 1;
    hide Flatten, LogMatches, InOrder, Settled;
    forall k | n <= k < |t.chain| ensures t.chain[k].Empty() {
      ReadyIsSealed(t.chain[k]);
    }
    EmptyTail(t.chain, n);
  }

  // Main theorem: two checks store every entry accepted before them, where the chunk with the last of them is old at
  // the first, whatever Puts come between them.
  lemma {:induction false} TwoChecksStoreAll(cfg: Config, oracle: nat -> bool, s: State, puts: seq<Op>, later: bool)
    requires Inv(cfg, s) && Running(s) && Sane(cfg) && Accepting(oracle, |s.log|)
    requires forall op :: op in puts ==> op.Accept?
    ensures var r := TwoChecks(cfg, oracle, true, s, puts, later);
            && s.flush <= r.flush == |r.fates| && r.flush <= |r.chain| && s.accepted <= Flatten(r.chain[..r.flush])
            && forall k :: s.flush <= k < r.flush ==> r.fates[k] == Persisted && Successes(r.log, k) == 1
  {
    RoutineDrains(cfg, oracle, true, s);
    var t := Routine(cfg, oracle, true, s);
    var r := TwoChecks(cfg, oracle, true, s, puts, later);
    var n := EmptyFrom(cfg, s, t);
    assert t.accepted == s.accepted;
    hide Routine, TwoChecks, Successes, Linked, Drained, Inv, Running;
    ChecksStore(cfg, oracle, true, s, puts, later, n);
    FlattenPrefix(t.chain, r.chain, n, r.flush);
  }

  lemma {:induction false} FlattenPrefix(a: Chain, b: Chain, n: nat, m: nat)
    requires n <= m <= |b| && n <= |a| && forall k :: 0 <= k < n ==> b[k].entries == a[k].entries
    ensures Flatten(a[..n]) <= Flatten(b[..m])
  {
    FlattenSame(a[..n], b[..n]);
    FlattenAround(b[..m], n);
    assert b[..m][..n] == b[..n];
  }

  // ---- Spare chunks ----

  // As many chunks as configured are behind flushChunk, so that Puts need not create any.
  predicate Spares(cfg: Config, s: State) {
    s.flush + cfg.chunks < |s.chain|
  }

  // Puts and whole routine checks.
  ghost predicate Whole(ops: seq<Op>) {
    forall op :: op in ops ==> op.Accept? || op.Check?
  }

  lemma {:induction false} FlushLoopSpares(cfg: Config, oracle: nat -> bool, expired: bool, s: State)
    requires Shaped(s) && cfg.chunks < 255 && Spares(cfg, s)
    ensures Spares(cfg, FlushLoop(cfg, oracle, expired, s))
    decreases Depth(s.chain, s.flush)
  {
    FlushLoopUnfolds(cfg, oracle, expired, s);
    PassSpares(cfg, oracle, expired, s);
    hide FlushPass, FlushLoop, Depth, Linked, Spares;
    var (t, more) := FlushPass(cfg, oracle, expired, s);
    if more {
      FlushLoopSpares(cfg, oracle, expired, t);
    }
  }

  lemma {:induction false} PassSpares(cfg: Config, oracle: nat -> bool, expired: bool, s: State)
    requires Shaped(s) && cfg.chunks < 255 && Spares(cfg, s)
    ensures Spares(cfg, FlushPass(cfg, oracle, expired, s).0)
  {
    if Sealed(s.chain[s.flush]) {
      SealedIsTried(cfg, oracle, expired, s);
    } else {
      IdleIsLocked(cfg, oracle, expired, s);
    }
    hide FlushPass, Linked, Sealed;
  }

  lemma {:induction false} RoutineSpares(cfg: Config, oracle: nat -> bool, expired: bool, s: State)
    requires Shaped(s) && cfg.chunks < 255 && cfg.maxDirtyChunks >= 0 && Spares(cfg, s)
    ensures Spares(cfg, Routine(cfg, oracle, expired, s))
  {
    FlushLoopSpares(cfg, oracle, expired, s);
    hide FlushLoop, DropLoop, Depth, Linked;
  }

  lemma {:induction false} RunSpares(cfg: Config, oracle: nat -> bool, ops: seq<Op>)
    requires Sane(cfg) && cfg.chunks < 255 && Whole(ops)
    ensures Spares(cfg, Run(cfg, oracle, Initial(cfg), ops))
  {
    if ops == [] {
      InitialIs(cfg);
    } else {
      var front, op := ops[..|ops| - 1], ops[|ops| - 1];
      assert op in ops;
      RunSpares(cfg, oracle, front);
      var s := Run(cfg, oracle, Initial(cfg), front);
      hide Routine, Run, Initial, Linked;
      if op.Check? {
        RoutineSpares(cfg, oracle, op.expired, s);
      } else {
        IngestIs(s, op.e);
      }
    }
  }

  // With 255 chunks configured the number of chunks to prepare behind a stored one wraps around to none.
  lemma {:induction false} FirstStored(cfg: Config, oracle: nat -> bool, expired: bool, s: State)
    requires Shaped(s) && cfg.chunks == 255 && cfg.maxDirtyChunks >= 0 && oracle(|s.log|)
    requires s.flush == 0 && |s.chain| == 256 && Sealed(s.chain[0]) && s.chain[1].entries == []
    ensures !Spares(cfg, Routine(cfg, oracle, expired, s))
  {
    SealedIsTried(cfg, oracle, expired, s);
    FlushLoopUnfolds(cfg, oracle, expired, s);
    var t := FlushPass(cfg, oracle, expired, s).0;
    IdleIsLocked(cfg, oracle, expired, t);
    FlushLoopUnfolds(cfg, oracle, expired, t);
    ReadyIsSealed(t.chain[1]);
    hide FlushLoop, FlushPass, DropLoop, Depth, Linked;
  }

  lemma {:induction false} SparesRunOut(cfg: Config, oracle: nat -> bool, e: Entry)
    requires Sane(cfg) && cfg.chunks == 255 && forall n :: oracle(n)
    ensures !Spares(cfg, Run(cfg, oracle, Initial(cfg), [Accept(e), Check(true)]))
         || !Spares(cfg, Run(cfg, oracle, Initial(cfg), [Accept(e), Check(true), Check(true)]))
  {
    var s := Initial(cfg);
    InitialIs(cfg);
    PutIs(s.chain, 0, e);
    IngestIs(s, e);
    var t := Ingest(s, e);
    RunOf(cfg, oracle, s, e);
    assert t.chain[0].entries == [e] && t.chain[1].entries == [];
    hide Run, Initial, Linked, Put, Routine;
    if Sealed(t.chain[0]) {
      FirstStored(cfg, oracle, true, t);
    } else {
      FirstLocked(cfg, oracle, t);
      FirstStored(cfg, oracle, true, Routine(cfg, oracle, true, t));
    }
  }

  lemma {:induction false} FirstLocked(cfg: Config, oracle: nat -> bool, s: State)
    requires Shaped(s) && cfg.chunks == 255 && cfg.maxDirtyChunks >= 1
    requires s.flush == 0 && |s.chain| == 256 && !Sealed(s.chain[0]) && s.chain[0].entries != []
    requires s.chain[1].entries == []
    ensures var r := Routine(cfg, oracle, true, s);
            r.flush == 0 && |r.chain| == 256 && Sealed(r.chain[0]) && r.chain[1].entries == []
  {
    FlushLoopUnfolds(cfg, oracle, true, s);
    IdleIsLocked(cfg, oracle, true, s);
    var t := FlushLoop(cfg, oracle, true, s);
    ReadyIsSealed(t.chain[1]);
    assert Depth(t.chain, 0) <= 1;
    hide FlushLoop, FlushPass, DropLoop, Depth, Linked;
  }

  lemma {:induction false} RunOf(cfg: Config, oracle: nat -> bool, s: State, e: Entry)
    requires Shaped(s) && cfg.chunks < 256 && cfg.maxDirtyChunks >= 0
    ensures var t := Ingest(s, e);
            var u := Routine(cfg, oracle, true, t);
            && Run(cfg, oracle, s, [Accept(e), Check(true)]) == u
            && Run(cfg, oracle, s, [Accept(e), Check(true), Check(true)]) == Routine(cfg, oracle, true, u)
  {
    hide Routine, Ingest, Linked;
    assert [Accept(e), Check(true), Check(true)][..2] == [Accept(e), Check(true)];
    assert [Accept(e), Check(true)][..1] == [Accept(e)] && [Accept(e)][..0] == [];
    assert Run(cfg, oracle, s, [Accept(e)]) == Ingest(s, e);
  }

  // The spare chunks are there at all times if and only if fewer than 255 are configured.
  lemma {:induction false} SparesIff(cfg: Config)
    requires Sane(cfg)
    ensures (forall oracle: nat -> bool, ops :: Whole(ops) ==> Spares(cfg, Run(cfg, oracle, Initial(cfg), ops)))
       <==> cfg.chunks < 255
  {
    hide Run, Initial, Linked, Spares;
    if cfg.chunks < 255 {
      forall oracle: nat -> bool, ops | Whole(ops) ensures Spares(cfg, Run(cfg, oracle, Initial(cfg), ops)) {
        RunSpares(cfg, oracle, ops);
      }
    } else {
      var e, oracle := Entry(0, 0, ""), (n: nat) => true;
      SparesRunOut(cfg, oracle, e);
      assert Whole([Accept(e), Check(true)]) && Whole([Accept(e), Check(true), Check(true)]);
    }
  }
}
