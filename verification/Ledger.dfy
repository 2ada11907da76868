// Ingestion over whole runs, with each Put one atomic step: what the chunk list, the flusher and the
// storage hold as values.  The classes of Ingester.dfy are proved to compute these functions.
module Ledger {
  import opened LogEntry

  // A chunk; `write` is |entries|.
  datatype Chunk = Chunk(id: int, cap: int, book: nat, size: nat, epochStart: int, epochEnd: int,
                         retries: nat, locked: bool, entries: seq<Entry>)
  {
    predicate Empty() { book == 0 }

    predicate Ready() {
      |entries| == cap || (book > 0 && |entries| == book && locked)
    }

    predicate Closed() { locked || cap <= book }

    predicate Valid() {
      1 <= cap <= 900 && |entries| == if book < cap then book else cap
    }

    // A booking beyond the capacity only counts the attempt.
    function Refuse(): Chunk {
      this.(book := book + 1)
    }

    function Accept(e: Entry): Chunk {
      this.(book := book + 1, size := size + |e.content|, entries := entries + [e],
            epochEnd := if e.epoch > epochEnd then e.epoch else epochEnd,
            epochStart := if epochStart == 0 || e.epoch < epochStart then e.epoch else epochStart)
    }
  }

  type Chain = seq<Chunk>

  function Blank(id: int, cap: int): Chunk {
    Chunk(id, cap, 0, 0, 0, 0, 0, false, [])
  }

  // The chunk list from its root: ids are positions, all chunks share one capacity.
  ghost predicate Linked(chain: Chain) {
    |chain| > 0 && forall k :: 0 <= k < |chain| ==> chain[k].Valid() && chain[k].id == k && chain[k].cap == chain[0].cap
  }

  // The chain made at least n long, as Init does.
  function Grown(chain: Chain, n: nat): (r: Chain)
    requires |chain| > 0
    ensures |r| == if n <= |chain| then |chain| else n
    ensures chain <= r
    ensures Linked(chain) ==> Linked(r) && forall k :: |chain| <= k < |r| ==> r[k] == Blank(k, chain[0].cap)
    decreases n - |chain|
  {
    if n <= |chain| then chain
    else Grown(chain + [Blank(chain[|chain| - 1].id + 1, chain[|chain| - 1].cap)], n)
  }

  lemma {:induction false} GrownTwice(chain: Chain, m: nat, n: nat)
    requires |chain| > 0 && m <= n
    ensures Grown(Grown(chain, m), n) == Grown(chain, n)
    decreases m - |chain|
  {
    if m > |chain| {
      GrownTwice(chain + [Blank(chain[|chain| - 1].id + 1, chain[|chain| - 1].cap)], m, n);
    }
  }

  lemma {:induction false} GrownByOne(chain: Chain)
    requires Linked(chain)
    ensures Grown(chain, |chain|) == chain
    ensures Grown(chain, |chain| + 1) == chain + [Blank(|chain|, chain[0].cap)]
  {
  }

  // Put from chunk k on: the new chain and the chunk that took the entry.
  function Put(chain: Chain, k: nat, e: Entry): (r: (Chain, nat))
    requires k < |chain| && Linked(chain)
    ensures |chain| <= |r.0| && k <= r.1 < |r.0| && Linked(r.0)
    decreases |chain| - k, if chain[k].Closed() then 1 else 0
  {
    if chain[k].locked then Put(Grown(chain, k + 2), k + 1, e)
    else if chain[k].book >= chain[k].cap then
      Put(Grown(chain[k := chain[k].Refuse()], k + 2), k + 1, e)
    else (chain[k := chain[k].Accept(e)], k)
  }

  lemma PutUnfolds(chain: Chain, k: nat, e: Entry)
    requires k < |chain| && Linked(chain)
    ensures Put(chain, k, e) ==
            if chain[k].locked then Put(Grown(chain, k + 2), k + 1, e)
            else if chain[k].book >= chain[k].cap then Put(Grown(chain[k := chain[k].Refuse()], k + 2), k + 1, e)
            else (chain[k := chain[k].Accept(e)], k)
  {
  }

  // Depth of chunk k: the length of the run of non-empty chunks that starts there.
  function Depth(chain: Chain, k: nat): (n: nat)
    ensures k <= |chain| ==> k + n <= |chain|
    ensures forall i :: k <= i < k + n ==> i < |chain| && !chain[i].Empty()
    ensures k + n < |chain| ==> chain[k + n].Empty()
    decreases |chain| - k
  {
    if k >= |chain| || chain[k].Empty() then 0 else 1 + Depth(chain, k + 1)
  }

  datatype Config = Config(chunks: nat, chunkSize: int, maxChunkSizeBytes: int, maxDirtyChunks: int, maxFlushRetry: int)

  // NewIngester keeps a value in its range and fills in the default for any other (chunks is a uint8, chunkSize a
  // uint16).
  function Defaults(c: Config): (d: Config)
    requires c.chunks < 256
    ensures 1 <= d.chunks < 256 && 1 <= d.chunkSize <= 900 && d.maxFlushRetry >= 1 && d.maxDirtyChunks >= 2
    ensures d.maxDirtyChunks <= d.chunks ==> d.maxDirtyChunks == 50
    ensures if c.chunks >= 1 then d.chunks == c.chunks else d.chunks == 3
    ensures if 1 <= c.chunkSize <= 900 then d.chunkSize == c.chunkSize else d.chunkSize == 900
    ensures if c.maxDirtyChunks > d.chunks then d.maxDirtyChunks == c.maxDirtyChunks else d.maxDirtyChunks == 50
    ensures if c.maxFlushRetry >= 1 then d.maxFlushRetry == c.maxFlushRetry else d.maxFlushRetry == 3
    ensures d.maxChunkSizeBytes == c.maxChunkSizeBytes
  {
    var chunks := if c.chunks == 0 then 3 else c.chunks;
    Config(chunks,
           if c.chunkSize <= 0 || c.chunkSize > 900 then 900 else c.chunkSize,
           c.maxChunkSizeBytes,
           if c.maxDirtyChunks <= chunks then 50 else c.maxDirtyChunks,
           if c.maxFlushRetry <= 0 then 3 else c.maxFlushRetry)
  }

  // What became of a chunk that flushChunk has passed.
  datatype Fate = Persisted | Abandoned | Discarded

  // A call into the storage; `entries` is the list it was given.
  datatype Call = Flush(id: int, entries: seq<Entry>, ok: bool) | Close

  // flush and write are the positions of flushChunk and writeChunk; log, fates and accepted are history.
  datatype State = State(chain: Chain, flush: nat, write: nat, log: seq<Call>, fates: seq<Fate>, accepted: seq<Entry>)

  function Initial(cfg: Config): State
    requires 1 <= cfg.chunkSize <= 900
    ensures Shaped(Initial(cfg))
  {
    State(Grown([Blank(0, cfg.chunkSize)], cfg.chunks + 1), 0, 0, [], [], [])
  }

  ghost predicate Shaped(s: State) {
    s.flush < |s.chain| && s.write < |s.chain| && Linked(s.chain)
  }

  function Ingest(s: State, e: Entry): (r: State)
    requires Shaped(s)
    ensures Shaped(r)
  {
    var (chain, into) := Put(s.chain, s.write, e);
    s.(chain := chain, write := into, accepted := s.accepted + [e])
  }

  // flushChunk moves to the next chunk.
  function Pass(s: State, fate: Fate): (r: State)
    requires Shaped(s)
    ensures Shaped(r)
  {
    s.(chain := Grown(s.chain, s.flush + 2), flush := s.flush + 1, fates := s.fates + [fate])
  }

  // Init(depth) on flushChunk.
  function InitAhead(s: State, depth: nat): (r: State)
    requires Shaped(s)
    ensures Shaped(r)
  {
    s.(chain := Grown(s.chain, s.flush + depth + 1))
  }

  // One Flush of flushChunk; the n-th call of the run succeeds if oracle(n).
  function Attempt(s: State, oracle: nat -> bool): (r: State)
    requires Shaped(s)
    ensures Shaped(r)
  {
    var c := s.chain[s.flush];
    var ok := oracle(|s.log|);
    s.(log := s.log + [Flush(c.id, c.entries, ok)],
       chain := if ok then s.chain else s.chain[s.flush := c.(retries := c.retries + 1)])
  }

  // Lock on flushChunk.
  function Locked(s: State): (r: State)
    requires Shaped(s)
    ensures Shaped(r)
  {
    s.(chain := s.chain[s.flush := s.chain[s.flush].(locked := true)])
  }

  // flushChunk is ready: one attempt to store it, and on to the next chunk unless it is to be retried.
  function FlushReady(cfg: Config, oracle: nat -> bool, s: State): (r: (State, bool))
    requires Shaped(s) && cfg.chunks < 256
    ensures Shaped(r.0) && (r.1 ==> r.0.flush == s.flush + 1)
  {
    var a := Attempt(s, oracle);
    if oracle(|s.log|) then (Pass(InitAhead(a, (cfg.chunks + 1) % 256), Persisted), true)
    else if a.chain[s.flush].retries > cfg.maxFlushRetry then
      (Pass(InitAhead(a, (cfg.chunks + 1) % 256), Abandoned), true)
    else (a, false)
  }

  // One pass of the flush loop of doRoutineCheck; `expired` is what the TTL comparison says.
  // The flag tells whether the loop goes on.
  function FlushPass(cfg: Config, oracle: nat -> bool, expired: bool, s: State): (r: (State, bool))
    requires Shaped(s) && cfg.chunks < 256
    ensures Shaped(r.0) && (r.1 ==> r.0.flush == s.flush + 1)
  {
    var c := s.chain[s.flush];
    if c.Empty() then (s, false)
    else if c.Ready() then FlushReady(cfg, oracle, s)
    else if expired || (cfg.maxChunkSizeBytes > 0 && c.size > cfg.maxChunkSizeBytes) then
      (InitAhead(Locked(s), cfg.chunks), false)
    else (s, false)
  }

  // ---------------------------------------------------------------- the invariant of every run

  function Flatten(chain: Chain): seq<Entry> {
    if chain == [] then [] else Flatten(chain[..|chain| - 1]) + chain[|chain| - 1].entries
  }

  function Failures(log: seq<Call>, id: int): nat {
    if log == [] then 0
    else Failures(log[..|log| - 1], id) + (var x := log[|log| - 1]; if x.Flush? && x.id == id && !x.ok then 1 else 0)
  }

  function Successes(log: seq<Call>, id: int): nat {
    if log == [] then 0
    else Successes(log[..|log| - 1], id) + (var x := log[|log| - 1]; if x.Flush? && x.id == id && x.ok then 1 else 0)
  }

  ghost predicate ClosedTo(chain: Chain, n: nat) {
    forall k :: 0 <= k < n && k < |chain| ==> chain[k].Closed()
  }

  // Entries go to the first open chunk: everything before writeChunk, before flushChunk and before a
  // chunk in use is closed.
  ghost predicate InOrder(s: State) {
    && ClosedTo(s.chain, s.write) && ClosedTo(s.chain, s.flush)
    && forall n :: 0 <= n < |s.chain| && !s.chain[n].Empty() ==> ClosedTo(s.chain, n)
  }

  // Every storage call so far carried the content its chunk still has, and the calls are in id order.
  ghost predicate LogMatches(s: State) {
    && (forall i :: 0 <= i < |s.log| && s.log[i].Flush? ==> CallFits(s, s.log[i]))
    && (forall i, j :: 0 <= i < j < |s.log| && s.log[i].Flush? && s.log[j].Flush? ==> s.log[i].id <= s.log[j].id)
  }

  ghost predicate CallFits(s: State, x: Call)
    requires x.Flush?
  {
    && 0 <= x.id <= s.flush && x.id < |s.chain|
    && s.chain[x.id].Ready() && x.entries == s.chain[x.id].entries
  }

  // A passed chunk was stored exactly once, or never: then its retries ran out or it was dropped.
  ghost predicate FateFits(cfg: Config, log: seq<Call>, fate: Fate, k: int) {
    match fate
    case Persisted => Successes(log, k) == 1
    case Abandoned => Successes(log, k) == 0 && Failures(log, k) == cfg.maxFlushRetry + 1
    case Discarded => Successes(log, k) == 0 && Failures(log, k) <= cfg.maxFlushRetry
  }

  // The chunk is not stored yet and still has attempts left.
  ghost predicate Pending(cfg: Config, s: State, k: nat)
    requires k < |s.chain|
  {
    Successes(s.log, k) == 0 && s.chain[k].retries <= cfg.maxFlushRetry
  }

  ghost predicate Settled(cfg: Config, s: State) {
    && |s.fates| == s.flush <= |s.chain|
    && (forall k :: 0 <= k < s.flush ==> FateFits(cfg, s.log, s.fates[k], k))
    && (forall k :: s.flush < k < |s.chain| ==> Pending(cfg, s, k))
    && (forall k :: 0 <= k < |s.chain| ==> Failures(s.log, k) == s.chain[k].retries)
  }

  // All of the invariant but one: the chunk at flushChunk may just have been stored or given up.
  ghost predicate MidInv(cfg: Config, s: State) {
    Shaped(s) && InOrder(s) && s.accepted == Flatten(s.chain) && LogMatches(s) && Settled(cfg, s)
  }

  ghost predicate Inv(cfg: Config, s: State) {
    MidInv(cfg, s) && Pending(cfg, s, s.flush)
  }

  // Before shutdown only chunks with entries are locked.
  ghost predicate Running(s: State) {
    && Close !in s.log
    && forall k :: 0 <= k < |s.chain| && s.chain[k].locked ==> !s.chain[k].Empty()
  }

  lemma {:induction false} FlattenAt(chain: Chain, k: nat, c: Chunk)
    requires k < |chain| && c.entries == chain[k].entries
    ensures Flatten(chain[k := c]) == Flatten(chain)
  {
    var n := |chain| - 1;
    if k < n {
      FlattenAt(chain[..n], k, c);
      assert chain[k := c][..n] == chain[..n][k := c];
    } else {
      assert chain[k := c][..n] == chain[..n];
    }
  }

  lemma {:induction false} FlattenSplit(a: Chain, b: Chain)
    ensures Flatten(a + b) == Flatten(a) + Flatten(b)
  {
    if b == [] {
      assert a + b == a;
    } else {
      var n := |b| - 1;
      FlattenSplit(a, b[..n]);
      assert (a + b)[..|a| + n] == a + b[..n] && (a + b)[|a| + n] == b[n];
      assert Flatten(a) + Flatten(b[..n]) + b[n].entries == Flatten(a) + (Flatten(b[..n]) + b[n].entries);
    }
  }

  lemma {:induction false} FlattenAround(chain: Chain, k: nat)
    requires k <= |chain|
    ensures Flatten(chain) == Flatten(chain[..k]) + Flatten(chain[k..])
  {
    FlattenSplit(chain[..k], chain[k..]);
    assert chain[..k] + chain[k..] == chain;
  }

  lemma {:induction false} FlattenBlank(a: Chain)
    requires forall c :: c in a ==> c.entries == []
    ensures Flatten(a) == []
  {
    if a != [] {
      FlattenBlank(a[..|a| - 1]);
    }
  }

  lemma {:induction false} FlattenGrown(chain: Chain, n: nat)
    requires |chain| > 0
    ensures Flatten(Grown(chain, n)) == Flatten(chain)
    decreases n - |chain|
  {
    if n > |chain| {
      var b := Blank(chain[|chain| - 1].id + 1, chain[|chain| - 1].cap);
      FlattenGrown(chain + [b], n);
      assert (chain + [b])[..|chain|] == chain;
    }
  }

  // The result of a Put from chunk k on.
  ghost predicate PutShape(chain: Chain, k: nat, e: Entry, r: Chain, into: nat)
    requires |chain| <= |r| && k <= into < |r| && into <= |chain| && k < |chain|
  {
    // every chunk on the way is closed and at most counts the attempt
    && (forall i :: k <= i < into ==>
          chain[i].Closed() && r[i] == if chain[i].locked then chain[i] else chain[i].(book := chain[i].book + 1))
    // every other chunk is untouched
    && (forall i :: 0 <= i < k || into < i < |chain| ==> r[i] == chain[i])
    // the entry goes to an open chunk, or to a new one at the end
    && if into < |chain| then !chain[into].Closed() && r[into] == chain[into].Accept(e) && |r| == |chain|
       else r[into] == Blank(into, chain[0].cap).Accept(e) && |r| == into + 1
  }

  lemma {:induction false} PutIs(chain: Chain, k: nat, e: Entry)
    requires k < |chain| && Linked(chain)
    ensures Put(chain, k, e).1 <= |chain|
    ensures PutShape(chain, k, e, Put(chain, k, e).0, Put(chain, k, e).1)
    decreases |chain| - k, if chain[k].Closed() then 1 else 0
  {
    PutUnfolds(chain, k, e);
    hide Put;
    if chain[k].Closed() {
      var g := PutGoesOn(chain, k);
      PutIs(g, k + 1, e);
      var (r, into) := Put(g, k + 1, e);
      hide PutShape, Linked;
      PutShapeStep(chain, k, e, g, r, into);
    }
  }

  // The chain with which Put goes on behind a closed chunk.
  lemma {:induction false} PutGoesOn(chain: Chain, k: nat) returns (g: Chain)
    requires k < |chain| && Linked(chain) && chain[k].Closed()
    ensures g == Grown(if chain[k].locked then chain else chain[k := chain[k].Refuse()], k + 2)
    ensures Linked(g) && chain[0].cap >= 1 && k + 1 < |g|
    ensures |chain| <= |g| && |g| == if k + 2 <= |chain| then |chain| else |chain| + 1
    ensures forall i :: 0 <= i < |chain| && i != k ==> g[i] == chain[i]
    ensures g[k] == if chain[k].locked then chain[k] else chain[k].(book := chain[k].book + 1)
    ensures k + 1 == |chain| ==> g[k + 1] == Blank(k + 1, chain[0].cap)
    ensures k + 1 < |chain| || !g[k + 1].Closed()
  {
    g := Grown(if chain[k].locked then chain else chain[k := chain[k].Refuse()], k + 2);
  }

  // From chunk k, which is closed, to the next one; g is the chain with that one made sure of.
  lemma {:induction false} PutShapeStep(chain: Chain, k: nat, e: Entry, g: Chain, r: Chain, into: nat)
    requires k < |chain| && chain[k].Closed() && chain[0].cap >= 1
    requires |chain| <= |g| && |g| == if k + 2 <= |chain| then |chain| else |chain| + 1
    requires forall i :: 0 <= i < |chain| && i != k ==> g[i] == chain[i]
    requires g[k] == if chain[k].locked then chain[k] else chain[k].(book := chain[k].book + 1)
    requires k + 1 == |chain| ==> g[k + 1] == Blank(k + 1, chain[0].cap)
    requires |g| <= |r| && k + 1 <= into < |r| && into <= |g| && PutShape(g, k + 1, e, r, into)
    ensures into <= |chain| <= |r| && PutShape(chain, k, e, r, into)
  {
    assert k + 1 == |chain| ==> !g[k + 1].Closed();
    assert into > k + 1 ==> g[k + 1].Closed();
    assert r[k] == g[k] && g[0].cap == chain[0].cap;
  }

  // ---------------------------------------------------------------- every operation keeps it

  lemma {:induction false} FlattenPut(chain: Chain, r: Chain, into: nat, e: Entry)
    requires into <= |chain| && |r| == if into < |chain| then |chain| else into + 1
    requires forall i :: 0 <= i < |chain| && i != into ==> r[i].entries == chain[i].entries
    requires r[into].entries == (if into < |chain| then chain[into].entries else []) + [e]
    requires forall i :: into < i < |chain| ==> chain[i].entries == []
    ensures Flatten(r) == Flatten(chain) + [e]
  {
    if into == |chain| {
      FlattenSame(r[..into], chain);
    } else {
      var n := |chain| - 1;
      if into < n {
        FlattenPut(chain[..n], r[..n], into, e);
      } else {
        FlattenSame(r[..n], chain[..n]);
      }
    }
  }

  lemma {:induction false} FlattenSame(a: Chain, b: Chain)
    requires |a| == |b| && forall i :: 0 <= i < |a| ==> a[i].entries == b[i].entries
    ensures Flatten(a) == Flatten(b)
  {
    if a != [] {
      FlattenSame(a[..|a| - 1], b[..|a| - 1]);
    }
  }

  // Chunks may fill up, close and be added; stored content and retries stay.
  ghost predicate Evolves(s: State, r: State) {
    && r.log == s.log && r.flush == s.flush && r.fates == s.fates && |s.chain| <= |r.chain|
    && (forall k :: 0 <= k < |s.chain| ==> ChunkEvolves(s.chain[k], r.chain[k]))
    && (forall k :: |s.chain| <= k < |r.chain| ==> r.chain[k].retries == 0)
  }

  ghost predicate ChunkEvolves(a: Chunk, b: Chunk) {
    && b.retries == a.retries && (a.Closed() ==> b.Closed())
    && (a.Ready() ==> b.Ready() && b.entries == a.entries)
  }

  lemma {:induction false} NoCallsBeyond(log: seq<Call>, k: int)
    requires forall i :: 0 <= i < |log| && log[i].Flush? ==> log[i].id < k
    ensures Failures(log, k) == 0 && Successes(log, k) == 0
  {
    if log != [] {
      NoCallsBeyond(log[..|log| - 1], k);
    }
  }

  lemma {:induction false} EvolvesKeepsBooks(cfg: Config, s: State, r: State)
    requires cfg.maxFlushRetry >= 0
    requires LogMatches(s) && Settled(cfg, s) && Evolves(s, r) && s.flush < |s.chain|
    ensures LogMatches(r) && Settled(cfg, r)
    ensures Pending(cfg, s, s.flush) ==> Pending(cfg, r, r.flush)
    ensures forall n: nat :: ClosedTo(s.chain, n) && n <= |s.chain| ==> ClosedTo(r.chain, n)
  {
    forall i | 0 <= i < |r.log| && r.log[i].Flush?
      ensures CallFits(r, r.log[i])
    {
      assert CallFits(s, s.log[i]);
    }
    forall k | |s.chain| <= k < |r.chain|
      ensures Failures(r.log, k) == 0 && Successes(r.log, k) == 0
    {
      forall i | 0 <= i < |s.log| && s.log[i].Flush?
        ensures s.log[i].id < k
      {
        assert CallFits(s, s.log[i]);
      }
      NoCallsBeyond(r.log, k);
    }
    forall k | r.flush < k < |r.chain|
      ensures Pending(cfg, r, k)
    {
      assert k < |s.chain| ==> Pending(cfg, s, k);
    }
  }

  lemma {:induction false} IngestKeeps(cfg: Config, s: State, e: Entry)
    requires Inv(cfg, s) && cfg.maxFlushRetry >= 0
    ensures Inv(cfg, Ingest(s, e))
    ensures Running(s) ==> Running(Ingest(s, e))
  {
    var (r, into) := Put(s.chain, s.write, e);
    PutIs(s.chain, s.write, e);
    PutEvolves(s, e);
    hide Put, Flatten, LogMatches, Settled, InOrder;
    EvolvesKeepsBooks(cfg, s, Ingest(s, e));
    FlattenPut(s.chain, r, into, e);
  }

  lemma {:induction false} PutEvolves(s: State, e: Entry)
    requires Shaped(s) && InOrder(s)
    ensures Evolves(s, Ingest(s, e)) && InOrder(Ingest(s, e))
    ensures var (r, into) := Put(s.chain, s.write, e);
            && (forall i :: into < i < |s.chain| ==> s.chain[i].entries == [])
            && (forall i :: 0 <= i < |s.chain| && i != into ==> r[i].entries == s.chain[i].entries)
  {
    var (r, into) := Put(s.chain, s.write, e);
    PutIs(s.chain, s.write, e);
    hide Put, Grown;
    forall k | 0 <= k < |s.chain|
      ensures ChunkEvolves(s.chain[k], r[k]) && (k != into ==> r[k].entries == s.chain[k].entries)
    {
    }
    forall i | into < i < |s.chain|
      ensures s.chain[i].Empty()
    {
      assert !s.chain[i].Empty() ==> ClosedTo(s.chain, i);
    }
    PutInOrder(s, e, r, into);
  }

  lemma {:induction false} PutInOrder(s: State, e: Entry, r: Chain, into: nat)
    requires Shaped(s) && InOrder(s) && into < |r| && Linked(r)
    requires s.write <= into <= |s.chain| <= |r| && PutShape(s.chain, s.write, e, r, into)
    ensures ClosedTo(r, into) && ClosedTo(r, s.flush)
    ensures forall n :: 0 <= n < |r| && !r[n].Empty() ==> ClosedTo(r, n)
  {
    forall n | 0 <= n < |r| && !r[n].Empty()
      ensures ClosedTo(r, n)
    {
      assert n > into ==> ClosedTo(s.chain, n);
    }
  }

  lemma {:induction false} AheadEvolves(s: State, depth: nat)
    requires Shaped(s)
    ensures Evolves(s, InitAhead(s, depth))
    ensures s.chain <= InitAhead(s, depth).chain
    ensures forall n :: |s.chain| <= n < |InitAhead(s, depth).chain| ==>
              InitAhead(s, depth).chain[n].Empty() && !InitAhead(s, depth).chain[n].locked
  {
  }

  lemma {:induction false} AheadFrame(s: State, depth: nat)
    requires Shaped(s)
    ensures InitAhead(s, depth) == s.(chain := Grown(s.chain, s.flush + depth + 1))
  {
  }

  lemma {:induction false} AheadKeeps(cfg: Config, s: State, depth: nat)
    requires MidInv(cfg, s) && cfg.maxFlushRetry >= 0
    ensures MidInv(cfg, InitAhead(s, depth))
    ensures Pending(cfg, s, s.flush) ==> Inv(cfg, InitAhead(s, depth))
    ensures Running(s) ==> Running(InitAhead(s, depth))
  {
    hide Flatten, InOrder, LogMatches, Settled, Evolves, Grown, Linked;
    var r := InitAhead(s, depth);
    FlattenGrown(s.chain, s.flush + depth + 1);
    AheadEvolves(s, depth);
    AheadFrame(s, depth);
    EvolvesKeepsBooks(cfg, s, r);
    OrderEvolves(s, r);
  }

  // Order survives when chunks stay as empty as they were.
  lemma {:induction false} OrderEvolves(s: State, r: State)
    requires Shaped(s) && InOrder(s) && Evolves(s, r) && r.write == s.write
    requires forall n :: 0 <= n < |r.chain| && !r.chain[n].Empty() ==> n < |s.chain| && !s.chain[n].Empty()
    ensures InOrder(r)
  {
    forall n | 0 <= n < |r.chain| && !r.chain[n].Empty()
      ensures ClosedTo(r.chain, n)
    {
      assert ClosedTo(s.chain, n);
    }
  }

  lemma {:induction false} LockKeeps(cfg: Config, s: State)
    requires Inv(cfg, s) && cfg.maxFlushRetry >= 0
    ensures Inv(cfg, Locked(s))
    ensures Running(s) && !s.chain[s.flush].Empty() ==> Running(Locked(s))
  {
    var r := Locked(s);
    FlattenAt(s.chain, s.flush, r.chain[s.flush]);
    assert Evolves(s, r);
    EvolvesKeepsBooks(cfg, s, r);
    OrderEvolves(s, r);
  }

  // flushChunk moves on, past a closed chunk whose fate is settled.
  lemma {:induction false} PassKeeps(cfg: Config, s: State, fate: Fate)
    requires MidInv(cfg, s) && cfg.maxFlushRetry >= 0
    requires s.chain[s.flush].Closed() && FateFits(cfg, s.log, fate, s.flush)
    ensures Inv(cfg, Pass(s, fate))
    ensures Running(s) ==> Running(Pass(s, fate))
  {
    hide Flatten, Successes, Failures, FateFits, Grown;
    AheadKeeps(cfg, s, 1);
    var g := InitAhead(s, 1);
    var r := Pass(s, fate);
    assert r.chain == g.chain;
    forall i | 0 <= i < |r.log| && r.log[i].Flush?
      ensures CallFits(r, r.log[i])
    {
      assert CallFits(g, g.log[i]);
    }
    assert Pending(cfg, g, r.flush);
    forall k | r.flush < k < |r.chain|
      ensures Pending(cfg, r, k)
    {
      assert Pending(cfg, g, k);
    }
  }

  lemma {:induction false} AttemptCounts(oracle: nat -> bool, s: State)
    requires Shaped(s)
    ensures var a := Attempt(s, oracle);
            && (forall k :: Successes(a.log, k) == Successes(s.log, k)
                                                + if k == s.flush && oracle(|s.log|) then 1 else 0)
            && (forall k :: Failures(a.log, k) == Failures(s.log, k)
                                                + if k == s.flush && !oracle(|s.log|) then 1 else 0)
  {
    assert Attempt(s, oracle).log[..|s.log|] == s.log;
  }

  // An attempt adds one call to the log and at most a retry to flushChunk.
  lemma {:induction false} AttemptIs(oracle: nat -> bool, s: State)
    requires Shaped(s)
    ensures var a, c := Attempt(s, oracle), s.chain[s.flush];
            && a == s.(chain := a.chain, log := a.log) && |a.chain| == |s.chain|
            && a.log == s.log + [Flush(c.id, c.entries, oracle(|s.log|))]
            && a.chain[s.flush] == c.(retries := c.retries + if oracle(|s.log|) then 0 else 1)
            && a.chain == (if oracle(|s.log|) then s.chain else s.chain[s.flush := a.chain[s.flush]])
            && forall k :: 0 <= k < |s.chain| && k != s.flush ==> a.chain[k] == s.chain[k]
  {
  }

  lemma {:induction false} AttemptKeepsOrder(oracle: nat -> bool, s: State)
    requires Shaped(s) && InOrder(s)
    ensures InOrder(Attempt(s, oracle)) && (Running(s) ==> Running(Attempt(s, oracle)))
  {
    AttemptIs(oracle, s);
    hide Attempt, Linked;
    var a := Attempt(s, oracle);
    forall n | 0 <= n < |a.chain| && !a.chain[n].Empty()
      ensures ClosedTo(a.chain, n)
    {
      assert ClosedTo(s.chain, n);
    }
  }

  lemma {:induction false} AttemptSettles(cfg: Config, oracle: nat -> bool, s: State)
    requires Shaped(s) && Settled(cfg, s)
    ensures Settled(cfg, Attempt(s, oracle))
  {
    AttemptIs(oracle, s);
    AttemptCounts(oracle, s);
    hide Attempt, Linked, Successes, Failures;
    var a := Attempt(s, oracle);
    forall k | a.flush < k < |a.chain|
      ensures Pending(cfg, a, k)
    {
      assert Pending(cfg, s, k);
    }
  }

  // What the attempt makes of its own chunk.
  lemma {:induction false} AttemptFate(cfg: Config, oracle: nat -> bool, s: State)
    requires Shaped(s) && Settled(cfg, s) && Pending(cfg, s, s.flush)
    ensures var a := Attempt(s, oracle);
            if oracle(|s.log|) then FateFits(cfg, a.log, Persisted, s.flush)
            else if a.chain[s.flush].retries > cfg.maxFlushRetry then FateFits(cfg, a.log, Abandoned, s.flush)
            else Pending(cfg, a, s.flush)
  {
    AttemptIs(oracle, s);
    AttemptCounts(oracle, s);
    hide Attempt, Linked, Successes, Failures;
  }

  lemma {:induction false} AttemptKeeps(cfg: Config, oracle: nat -> bool, s: State)
    requires Inv(cfg, s) && s.chain[s.flush].Ready()
    ensures var a := Attempt(s, oracle);
            && MidInv(cfg, a) && (Running(s) ==> Running(a)) && a.chain[s.flush].Closed()
            && if oracle(|s.log|) then FateFits(cfg, a.log, Persisted, s.flush)
               else if a.chain[s.flush].retries > cfg.maxFlushRetry then FateFits(cfg, a.log, Abandoned, s.flush)
               else Pending(cfg, a, s.flush)
  {
    hide Running, InOrder, LogMatches, Settled, FateFits, Pending, Flatten;
    var a := Attempt(s, oracle);
    FlattenAt(s.chain, s.flush, a.chain[s.flush]);
    assert s.chain[s.flush := s.chain[s.flush]] == s.chain;
    AttemptKeepsOrder(oracle, s);
    AttemptKeepsLog(oracle, s);
    AttemptSettles(cfg, oracle, s);
    AttemptFate(cfg, oracle, s);
    AttemptIs(oracle, s);
  }

  lemma {:induction false} AttemptKeepsLog(oracle: nat -> bool, s: State)
    requires Shaped(s) && LogMatches(s) && s.chain[s.flush].Ready()
    ensures LogMatches(Attempt(s, oracle))
  {
    var a := Attempt(s, oracle);
    forall i | 0 <= i < |a.log| && a.log[i].Flush?
      ensures CallFits(a, a.log[i]) && a.log[i].id <= s.flush
    {
      assert i < |s.log| ==> CallFits(s, s.log[i]);
    }
  }

  lemma {:induction false} SettleKeeps(cfg: Config, a: State, depth: nat, fate: Fate)
    requires MidInv(cfg, a) && cfg.maxFlushRetry >= 0
    requires a.chain[a.flush].Closed() && FateFits(cfg, a.log, fate, a.flush)
    ensures Inv(cfg, Pass(InitAhead(a, depth), fate))
    ensures Running(a) ==> Running(Pass(InitAhead(a, depth), fate))
  {
    AheadKeeps(cfg, a, depth);
    PassKeeps(cfg, InitAhead(a, depth), fate);
  }

  lemma {:induction false} FlushReadyKeeps(cfg: Config, oracle: nat -> bool, s: State)
    requires Inv(cfg, s) && cfg.chunks < 256 && cfg.maxFlushRetry >= 0 && s.chain[s.flush].Ready()
    ensures Inv(cfg, FlushReady(cfg, oracle, s).0)
    ensures Running(s) ==> Running(FlushReady(cfg, oracle, s).0)
  {
    AttemptKeeps(cfg, oracle, s);
    FlushReadySettles(cfg, oracle, s, Attempt(s, oracle));
  }

  lemma {:induction false} FlushReadySettles(cfg: Config, oracle: nat -> bool, s: State, a: State)
    requires Shaped(s) && cfg.chunks < 256 && cfg.maxFlushRetry >= 0 && a == Attempt(s, oracle) && MidInv(cfg, a)
    requires a.chain[a.flush].Closed()
    requires if oracle(|s.log|) then FateFits(cfg, a.log, Persisted, s.flush)
             else if a.chain[s.flush].retries > cfg.maxFlushRetry then FateFits(cfg, a.log, Abandoned, s.flush)
             else Pending(cfg, a, s.flush)
    ensures Inv(cfg, FlushReady(cfg, oracle, s).0)
    ensures Running(a) ==> Running(FlushReady(cfg, oracle, s).0)
  {
    hide Linked, Grown, InOrder, LogMatches, Flatten, FateFits;
    var depth := (cfg.chunks + 1) % 256;
    if oracle(|s.log|) {
      assert FlushReady(cfg, oracle, s).0 == Pass(InitAhead(a, depth), Persisted);
      SettleKeeps(cfg, a, depth, Persisted);
    } else if a.chain[s.flush].retries > cfg.maxFlushRetry {
      assert FlushReady(cfg, oracle, s).0 == Pass(InitAhead(a, depth), Abandoned);
      SettleKeeps(cfg, a, depth, Abandoned);
    }
  }

  lemma {:induction false} FlushPassKeeps(cfg: Config, oracle: nat -> bool, expired: bool, s: State)
    requires Inv(cfg, s) && cfg.chunks < 256 && cfg.maxFlushRetry >= 0
    ensures Inv(cfg, FlushPass(cfg, oracle, expired, s).0)
    ensures Running(s) ==> Running(FlushPass(cfg, oracle, expired, s).0)
  {
    var c := s.chain[s.flush];
    if !c.Empty() {
      if c.Ready() {
        FlushReadyKeeps(cfg, oracle, s);
      } else {
        LockKeeps(cfg, s);
        AheadKeeps(cfg, Locked(s), cfg.chunks);
      }
    }
  }

  // ---------------------------------------------------------------- depth

  lemma {:induction false} DepthOf(chain: Chain, k: nat, n: nat)
    requires k + n <= |chain| && forall i :: k <= i < k + n ==> !chain[i].Empty()
    requires k + n < |chain| ==> chain[k + n].Empty()
    ensures Depth(chain, k) == n
    decreases n
  {
    if n > 0 {
      DepthOf(chain, k + 1, n - 1);
    }
  }

  // In a running ingester nothing but the run of Depth() chunks from flushChunk on holds entries.
  lemma {:induction false} DepthIsExact(cfg: Config, s: State, k: nat)
    requires Inv(cfg, s) && Running(s) && s.flush <= k < |s.chain|
    ensures !s.chain[k].Empty() <==> k < s.flush + Depth(s.chain, s.flush)
  {
    var n := s.flush + Depth(s.chain, s.flush);
    if n < k {
      assert s.chain[n].Empty() && !s.chain[n].Closed();
      assert !s.chain[k].Empty() ==> ClosedTo(s.chain, k);
    }
  }

  lemma {:induction false} PassDepth(s: State, fate: Fate)
    requires Shaped(s) && !s.chain[s.flush].Empty()
    ensures Depth(Pass(s, fate).chain, s.flush + 1) == Depth(s.chain, s.flush) - 1
  {
    DepthOf(Pass(s, fate).chain, s.flush + 1, Depth(s.chain, s.flush) - 1);
  }

  lemma {:induction false} AheadDepth(s: State, depth: nat)
    requires Shaped(s)
    ensures Depth(InitAhead(s, depth).chain, s.flush) == Depth(s.chain, s.flush)
  {
    DepthOf(InitAhead(s, depth).chain, s.flush, Depth(s.chain, s.flush));
  }

  lemma {:induction false} AttemptDepth(oracle: nat -> bool, s: State)
    requires Shaped(s)
    ensures Depth(Attempt(s, oracle).chain, s.flush) == Depth(s.chain, s.flush)
  {
    DepthOf(Attempt(s, oracle).chain, s.flush, Depth(s.chain, s.flush));
  }

  lemma {:induction false} SettleDepth(a: State, depth: nat, fate: Fate)
    requires Shaped(a) && !a.chain[a.flush].Empty()
    ensures Depth(Pass(InitAhead(a, depth), fate).chain, a.flush + 1) == Depth(a.chain, a.flush) - 1
  {
    AheadDepth(a, depth);
    PassDepth(InitAhead(a, depth), fate);
  }

  lemma {:induction false} FlushPassDepth(cfg: Config, oracle: nat -> bool, expired: bool, s: State)
    requires Shaped(s) && cfg.chunks < 256 && FlushPass(cfg, oracle, expired, s).1
    ensures var r := FlushPass(cfg, oracle, expired, s).0; Depth(r.chain, r.flush) == Depth(s.chain, s.flush) - 1
  {
    hide Linked, Grown, Depth, Chunk.Ready;
    AttemptDepth(oracle, s);
    SettleDepth(Attempt(s, oracle), (cfg.chunks + 1) % 256, if oracle(|s.log|) then Persisted else Abandoned);
  }

  // ---------------------------------------------------------------- doRoutineCheck

  // The flush loop.
  function FlushLoop(cfg: Config, oracle: nat -> bool, expired: bool, s: State): (r: State)
    requires Shaped(s) && cfg.chunks < 256
    ensures Shaped(r)
    decreases Depth(s.chain, s.flush)
  {
    var (t, more) := FlushPass(cfg, oracle, expired, s);
    if more then
      FlushPassDepth(cfg, oracle, expired, s);
      FlushLoop(cfg, oracle, expired, t)
    else t
  }

  lemma {:induction false} FlushLoopUnfolds(cfg: Config, oracle: nat -> bool, expired: bool, s: State)
    requires Shaped(s) && cfg.chunks < 256
    ensures var (t, more) := FlushPass(cfg, oracle, expired, s);
            && FlushLoop(cfg, oracle, expired, s) == (if more then FlushLoop(cfg, oracle, expired, t) else t)
            && (more ==> Depth(t.chain, t.flush) < Depth(s.chain, s.flush))
  {
    if FlushPass(cfg, oracle, expired, s).1 {
      FlushPassDepth(cfg, oracle, expired, s);
    }
  }

  // The loop that drops the oldest chunks.
  function DropLoop(cfg: Config, s: State): (r: State)
    requires Shaped(s) && cfg.maxDirtyChunks >= 0
    ensures Shaped(r)
    decreases Depth(s.chain, s.flush)
  {
    if Depth(s.chain, s.flush) > cfg.maxDirtyChunks then
      PassDepth(s, Discarded);
      DropLoop(cfg, Pass(s, Discarded))
    else s
  }

  function Routine(cfg: Config, oracle: nat -> bool, expired: bool, s: State): (r: State)
    requires Shaped(s) && cfg.chunks < 256 && cfg.maxDirtyChunks >= 0
    ensures Shaped(r)
  {
    var t := FlushLoop(cfg, oracle, expired, s);
    if !t.chain[t.flush].Empty() && Depth(t.chain, t.flush) > cfg.maxDirtyChunks
    then InitAhead(DropLoop(cfg, t), cfg.chunks)
    else t
  }

  ghost predicate Sane(cfg: Config) {
    cfg.chunks < 256 && cfg.maxDirtyChunks >= 1 && cfg.maxFlushRetry >= 0 && 1 <= cfg.chunkSize <= 900
  }

  lemma {:induction false} FlushLoopKeeps(cfg: Config, oracle: nat -> bool, expired: bool, s: State)
    requires Inv(cfg, s) && Running(s) && Sane(cfg)
    ensures Inv(cfg, FlushLoop(cfg, oracle, expired, s)) && Running(FlushLoop(cfg, oracle, expired, s))
    decreases Depth(s.chain, s.flush)
  {
    var (t, more) := FlushPass(cfg, oracle, expired, s);
    FlushPassKeeps(cfg, oracle, expired, s);
    if more {
      FlushPassDepth(cfg, oracle, expired, s);
      FlushLoopKeeps(cfg, oracle, expired, t);
    }
  }

  lemma {:induction false} DropOneKeeps(cfg: Config, s: State)
    requires Inv(cfg, s) && Running(s) && Sane(cfg) && Depth(s.chain, s.flush) > cfg.maxDirtyChunks
    ensures s.chain[s.flush].Closed() && !s.chain[s.flush].Empty()
    ensures Inv(cfg, Pass(s, Discarded)) && Running(Pass(s, Discarded))
  {
    var n: nat := s.flush + Depth(s.chain, s.flush) - 1;
    assert !s.chain[n].Empty() && ClosedTo(s.chain, n);
    PassKeeps(cfg, s, Discarded);
  }

  lemma {:induction false} DropLoopKeeps(cfg: Config, s: State)
    requires Inv(cfg, s) && Running(s) && Sane(cfg)
    ensures Inv(cfg, DropLoop(cfg, s)) && Running(DropLoop(cfg, s))
    decreases Depth(s.chain, s.flush)
  {
    if Depth(s.chain, s.flush) > cfg.maxDirtyChunks {
      PassDepth(s, Discarded);
      DropOneKeeps(cfg, s);
      DropLoopKeeps(cfg, Pass(s, Discarded));
    }
  }

  function Excess(cfg: Config, s: State): nat {
    if Depth(s.chain, s.flush) > cfg.maxDirtyChunks >= 0 then Depth(s.chain, s.flush) - cfg.maxDirtyChunks else 0
  }

  lemma {:induction false} DropLoopUnfolds(cfg: Config, s: State)
    requires Shaped(s) && cfg.maxDirtyChunks >= 0
    ensures if Depth(s.chain, s.flush) > cfg.maxDirtyChunks
            then DropLoop(cfg, s) == DropLoop(cfg, Pass(s, Discarded))
              && Depth(Pass(s, Discarded).chain, s.flush + 1) == Depth(s.chain, s.flush) - 1
            else DropLoop(cfg, s) == s
  {
    if Depth(s.chain, s.flush) > cfg.maxDirtyChunks {
      PassDepth(s, Discarded);
    }
  }

  // r is s with the next n chunks discarded, and nothing else.
  ghost predicate Drops(s: State, r: State, n: nat) {
    && r.log == s.log && r.accepted == s.accepted && s.chain <= r.chain
    && r.flush == s.flush + n
    && |r.fates| == |s.fates| + n && s.fates <= r.fates
    && forall k :: |s.fates| <= k < |r.fates| ==> r.fates[k] == Discarded
  }

  lemma DropsMore(s: State, u: State, r: State, n: nat)
    requires Drops(s, u, 1) && Drops(u, r, n)
    ensures Drops(s, r, n + 1)
  {
  }

  lemma DropsNone(s: State)
    ensures Drops(s, s, 0)
  {
  }

  lemma PassDrops(s: State)
    requires Shaped(s)
    ensures Drops(s, Pass(s, Discarded), 1)
  {
  }

  // Dropping takes exactly the excess oldest chunks and leaves the limit.
  lemma {:induction false} DropLoopIs(cfg: Config, s: State)
    requires Shaped(s) && cfg.maxDirtyChunks >= 0
    ensures var r := DropLoop(cfg, s);
            Drops(s, r, Excess(cfg, s)) && Depth(r.chain, r.flush) <= cfg.maxDirtyChunks
    decreases Depth(s.chain, s.flush)
  {
    DropLoopUnfolds(cfg, s);
    hide DropLoop, Linked, Grown, Depth, Drops;
    if Depth(s.chain, s.flush) > cfg.maxDirtyChunks {
      var u := Pass(s, Discarded);
      DropLoopIs(cfg, u);
      PassDrops(s);
      DropsMore(s, u, DropLoop(cfg, u), Excess(cfg, u));
    } else {
      DropsNone(s);
    }
  }

  // Every chunk it drops holds entries and is closed, so no later Put can reach it.
  lemma {:induction false} DroppedAreClosed(cfg: Config, s: State, k: nat)
    requires Inv(cfg, s) && Sane(cfg) && s.flush <= k < s.flush + Excess(cfg, s)
    ensures k < |s.chain| && !s.chain[k].Empty() && s.chain[k].Closed()
  {
    var n: nat := s.flush + Depth(s.chain, s.flush) - 1;
    assert !s.chain[n].Empty() && ClosedTo(s.chain, n);
  }

  // Main theorem of a routine check: it keeps the ledger and leaves at most maxDirtyChunks chunks dirty.
  lemma {:induction false} RoutineKeeps(cfg: Config, oracle: nat -> bool, expired: bool, s: State)
    requires Inv(cfg, s) && Running(s) && Sane(cfg)
    ensures var r := Routine(cfg, oracle, expired, s);
            Inv(cfg, r) && Running(r) && Depth(r.chain, r.flush) <= cfg.maxDirtyChunks
  {
    FlushLoopKeeps(cfg, oracle, expired, s);
    var t := FlushLoop(cfg, oracle, expired, s);
    DropLoopKeeps(cfg, t);
    DropLoopIs(cfg, t);
    AheadKeeps(cfg, DropLoop(cfg, t), cfg.chunks);
    AheadDepth(DropLoop(cfg, t), cfg.chunks);
  }

  // ---------------------------------------------------------------- shutdown

  lemma {:induction false} LockedDepth(s: State)
    requires Shaped(s)
    ensures Depth(Locked(s).chain, s.flush) == Depth(s.chain, s.flush)
  {
    DepthOf(Locked(s).chain, s.flush, Depth(s.chain, s.flush));
  }

  // On to the next chunk, which is locked at once.
  function LockNext(s: State, fate: Fate): (r: State)
    requires Shaped(s)
    ensures Shaped(r) && r.chain[r.flush].locked && r.flush == s.flush + 1
  {
    Locked(Pass(s, fate))
  }

  lemma {:induction false} LockNextDepth(s: State, fate: Fate)
    requires Shaped(s) && !s.chain[s.flush].Empty()
    ensures Depth(LockNext(s, fate).chain, s.flush + 1) == Depth(s.chain, s.flush) - 1
  {
    PassDepth(s, fate);
    LockedDepth(Pass(s, fate));
  }

  // The loop of the quit branch.  A locked chunk that holds entries is always ready.
  function QuitLoop(cfg: Config, oracle: nat -> bool, s: State): (r: State)
    requires Shaped(s) && s.chain[s.flush].locked
    ensures Shaped(r) && r.chain[r.flush].Empty()
    decreases Depth(s.chain, s.flush), cfg.maxFlushRetry + 1 - s.chain[s.flush].retries
  {
    if s.chain[s.flush].Empty() then s
    else
      var a := Attempt(s, oracle);
      AttemptDepth(oracle, s);
      LockNextDepth(a, Persisted);
      LockNextDepth(a, Abandoned);
      if oracle(|s.log|) then QuitLoop(cfg, oracle, LockNext(a, Persisted))
      else if a.chain[s.flush].retries > cfg.maxFlushRetry then QuitLoop(cfg, oracle, LockNext(a, Abandoned))
      else QuitLoop(cfg, oracle, a)
  }

  // One pass of that loop, over a chunk that holds entries.
  function QuitPass(cfg: Config, oracle: nat -> bool, s: State): (r: State)
    requires Shaped(s) && s.chain[s.flush].locked
    ensures Shaped(r) && r.chain[r.flush].locked
  {
    var a := Attempt(s, oracle);
    if oracle(|s.log|) then LockNext(a, Persisted)
    else if a.chain[s.flush].retries > cfg.maxFlushRetry then LockNext(a, Abandoned)
    else a
  }

  lemma QuitLoopEnds(cfg: Config, oracle: nat -> bool, s: State)
    requires Shaped(s) && s.chain[s.flush].locked && s.chain[s.flush].Empty()
    ensures QuitLoop(cfg, oracle, s) == s
  {
  }

  lemma {:induction false} QuitLoopUnfolds(cfg: Config, oracle: nat -> bool, s: State)
    requires Shaped(s) && s.chain[s.flush].locked && !s.chain[s.flush].Empty()
    ensures var u := QuitPass(cfg, oracle, s);
            && QuitLoop(cfg, oracle, s) == QuitLoop(cfg, oracle, u)
            && (Depth(u.chain, u.flush) < Depth(s.chain, s.flush)
                || (Depth(u.chain, u.flush) == Depth(s.chain, s.flush)
                    && u.chain[u.flush].retries > s.chain[s.flush].retries
                    && u.chain[u.flush].retries <= cfg.maxFlushRetry))
  {
    var a := Attempt(s, oracle);
    AttemptDepth(oracle, s);
    LockNextDepth(a, Persisted);
    LockNextDepth(a, Abandoned);
  }

  function Shutdown(cfg: Config, oracle: nat -> bool, s: State): (r: State)
    requires Shaped(s)
  {
    var t := QuitLoop(cfg, oracle, Locked(s));
    t.(log := t.log + [Close])
  }

  // Nothing beyond the run of non-empty chunks from flushChunk on.
  ghost predicate NothingBeyond(s: State) {
    forall k :: s.flush + Depth(s.chain, s.flush) <= k < |s.chain| ==> s.chain[k].Empty()
  }

  lemma {:induction false} QuitStepKeeps(cfg: Config, s: State, fate: Fate)
    requires MidInv(cfg, s) && cfg.maxFlushRetry >= 0 && NothingBeyond(s) && !s.chain[s.flush].Empty()
    requires s.chain[s.flush].Closed() && FateFits(cfg, s.log, fate, s.flush)
    ensures Inv(cfg, LockNext(s, fate)) && NothingBeyond(LockNext(s, fate))
  {
    PassKeeps(cfg, s, fate);
    LockKeeps(cfg, Pass(s, fate));
    LockNextDepth(s, fate);
  }

  // What the quit branch leaves: every dirty chunk stored or given up after its last attempt, in order.
  ghost predicate QuitFrom(cfg: Config, s: State, r: State) {
    && Inv(cfg, r) && NothingBeyond(r) && r.accepted == s.accepted
    && r.flush == s.flush + Depth(s.chain, s.flush)
    && s.log <= r.log && (forall i :: |s.log| <= i < |r.log| ==> r.log[i].Flush?)
    && s.fates <= r.fates && (forall k :: s.flush <= k < |r.fates| ==> r.fates[k] != Discarded)
  }

  // One attempt, and perhaps a move to the next chunk, on the way from s to r.
  lemma {:induction false} QuitChain(cfg: Config, s: State, u: State, r: State)
    requires QuitFrom(cfg, u, r) && u.accepted == s.accepted
    requires s.log <= u.log && |u.log| == |s.log| + 1 && u.log[|s.log|].Flush?
    requires u.flush + Depth(u.chain, u.flush) == s.flush + Depth(s.chain, s.flush)
    requires |s.fates| == s.flush && (u.fates == s.fates || exists f :: f != Discarded && u.fates == s.fates + [f])
    requires |u.fates| == u.flush
    ensures QuitFrom(cfg, s, r)
  {
  }

  // One pass of the quit branch's loop.
  lemma {:induction false} QuitPassKeeps(cfg: Config, oracle: nat -> bool, s: State)
    requires Inv(cfg, s) && NothingBeyond(s) && Sane(cfg) && s.chain[s.flush].locked && !s.chain[s.flush].Empty()
    ensures var u := QuitPass(cfg, oracle, s); Inv(cfg, u) && NothingBeyond(u)
  {
    assert s.chain[s.flush].Ready();
    hide Linked, Flatten, InOrder, LogMatches, FateFits, Grown;
    AttemptDepth(oracle, s);
    AttemptKeeps(cfg, oracle, s);
    var a := Attempt(s, oracle);
    if oracle(|s.log|) {
      QuitStepKeeps(cfg, a, Persisted);
    } else if a.chain[s.flush].retries > cfg.maxFlushRetry {
      QuitStepKeeps(cfg, a, Abandoned);
    }
  }

  lemma {:induction false} QuitPassHistory(cfg: Config, oracle: nat -> bool, s: State)
    requires Shaped(s) && s.chain[s.flush].locked && !s.chain[s.flush].Empty() && |s.fates| == s.flush
    ensures var u := QuitPass(cfg, oracle, s);
            && u.accepted == s.accepted
            && s.log <= u.log && |u.log| == |s.log| + 1 && u.log[|s.log|].Flush?
            && u.flush + Depth(u.chain, u.flush) == s.flush + Depth(s.chain, s.flush)
            && (u.fates == s.fates || exists f :: f != Discarded && u.fates == s.fates + [f])
            && |u.fates| == u.flush
  {
    AttemptDepth(oracle, s);
    var a := Attempt(s, oracle);
    LockNextDepth(a, Persisted);
    LockNextDepth(a, Abandoned);
    hide Depth, Linked, Grown;
  }

  lemma {:induction false} QuitLoopIs(cfg: Config, oracle: nat -> bool, s: State)
    requires Inv(cfg, s) && NothingBeyond(s) && Sane(cfg) && s.chain[s.flush].locked
    ensures QuitFrom(cfg, s, QuitLoop(cfg, oracle, s))
    decreases Depth(s.chain, s.flush), cfg.maxFlushRetry + 1 - s.chain[s.flush].retries
  {
    if s.chain[s.flush].Empty() {
      QuitLoopEnds(cfg, oracle, s);
    } else {
      hide Linked, InOrder, LogMatches, Flatten, NothingBeyond, Depth, QuitLoop, QuitPass, Grown;
      var u := QuitPass(cfg, oracle, s);
      QuitLoopUnfolds(cfg, oracle, s);
      QuitPassKeeps(cfg, oracle, s);
      QuitPassHistory(cfg, oracle, s);
      QuitLoopIs(cfg, oracle, u);
      QuitChain(cfg, s, u, QuitLoop(cfg, oracle, u));
    }
  }

  // Main theorem of shutdown, for every failure oracle.
  lemma {:induction false} ShutdownDrains(cfg: Config, oracle: nat -> bool, s: State)
    requires Inv(cfg, s) && Running(s) && Sane(cfg)
    ensures var r := Shutdown(cfg, oracle, s);
            && (forall k :: r.flush <= k < |r.chain| ==> r.chain[k].Empty())
            && r.accepted == s.accepted && r.flush <= |r.chain| && Flatten(r.chain[..r.flush]) == r.accepted
            && r.flush == s.flush + Depth(s.chain, s.flush) == |r.fates|
            && (forall k :: 0 <= k < r.flush ==> FateFits(cfg, r.log, r.fates[k], k))
            && s.fates <= r.fates && (forall k :: s.flush <= k < r.flush ==> r.fates[k] != Discarded)
            && LogMatches(r)
            && s.log <= r.log && (forall i :: 0 <= i < |r.log| ==> (r.log[i] == Close <==> i == |r.log| - 1))
  {
    LockKeeps(cfg, s);
    LockedDepth(s);
    forall k | s.flush + Depth(s.chain, s.flush) <= k < |s.chain|
      ensures s.chain[k].Empty()
    {
      DepthIsExact(cfg, s, k);
    }
    QuitLoopIs(cfg, oracle, Locked(s));
    var t := QuitLoop(cfg, oracle, Locked(s));
    AfterQuit(cfg, t);
  }

  lemma CloseCounts(log: seq<Call>, k: int)
    ensures Successes(log + [Close], k) == Successes(log, k) && Failures(log + [Close], k) == Failures(log, k)
  {
    assert (log + [Close])[..|log|] == log;
  }

  // Empty chunks add nothing to the ledger.
  lemma {:induction false} EmptyTail(chain: Chain, k: nat)
    requires Linked(chain) && k <= |chain| && forall i :: k <= i < |chain| ==> chain[i].Empty()
    ensures Flatten(chain[..k]) == Flatten(chain)
  {
    FlattenAround(chain, k);
    forall c | c in chain[k..] ensures c.entries == [] {
      var i :| 0 <= i < |chain[k..]| && chain[k..][i] == c;
      assert chain[k + i] == c;
    }
    FlattenBlank(chain[k..]);
  }

  lemma {:induction false} AfterQuit(cfg: Config, t: State)
    requires Inv(cfg, t) && NothingBeyond(t) && t.chain[t.flush].Empty()
    ensures forall k :: t.flush <= k < |t.chain| ==> t.chain[k].Empty()
    ensures Flatten(t.chain[..t.flush]) == t.accepted
    ensures var r := t.(log := t.log + [Close]);
            LogMatches(r) && (forall k :: 0 <= k < r.flush ==> FateFits(cfg, r.log, r.fates[k], k))
  {
    EmptyTail(t.chain, t.flush);
    hide Flatten, InOrder, Linked, Depth, NothingBeyond;
    CloseMatches(t);
    forall k | 0 <= k < t.flush ensures FateFits(cfg, t.log + [Close], t.fates[k], k) {
      CloseCounts(t.log, k);
    }
  }

  lemma {:induction false} CloseMatches(t: State)
    requires LogMatches(t)
    ensures LogMatches(t.(log := t.log + [Close]))
  {
    var r := t.(log := t.log + [Close]);
    forall i | 0 <= i < |r.log| && r.log[i].Flush?
      ensures CallFits(r, r.log[i])
    {
      assert CallFits(t, t.log[i]);
    }
  }

  // ---------------------------------------------------------------- whole runs

  // Puts may come between any two passes of the flusher's loops.
  datatype Op = Accept(e: Entry) | FlushStep(expired: bool) | DropStep | Check(expired: bool)

  function Apply(cfg: Config, oracle: nat -> bool, s: State, op: Op): (r: State)
    requires Shaped(s) && cfg.chunks < 256 && cfg.maxDirtyChunks >= 0
    ensures Shaped(r)
  {
    match op
    case Accept(e) => Ingest(s, e)
    case FlushStep(expired) => FlushPass(cfg, oracle, expired, s).0
    case DropStep => if Depth(s.chain, s.flush) > cfg.maxDirtyChunks then Pass(s, Discarded) else s
    case Check(expired) => Routine(cfg, oracle, expired, s)
  }

  function Run(cfg: Config, oracle: nat -> bool, s: State, ops: seq<Op>): (r: State)
    requires Shaped(s) && cfg.chunks < 256 && cfg.maxDirtyChunks >= 0
    ensures Shaped(r)
  {
    if ops == [] then s else Apply(cfg, oracle, Run(cfg, oracle, s, ops[..|ops| - 1]), ops[|ops| - 1])
  }

  // The entries handed to Ingest, in order.
  function Given(ops: seq<Op>): seq<Entry> {
    if ops == [] then []
    else Given(ops[..|ops| - 1]) + (var op := ops[|ops| - 1]; if op.Accept? then [op.e] else [])
  }

  // The list the ingester starts with.
  lemma {:induction false} InitialIs(cfg: Config)
    requires 1 <= cfg.chunkSize <= 900
    ensures var s := Initial(cfg);
            && s == State(s.chain, 0, 0, [], [], []) && Shaped(s) && Flatten(s.chain) == []
            && |s.chain| == cfg.chunks + 1
            && forall k :: 0 <= k < |s.chain| ==> s.chain[k] == Blank(k, cfg.chunkSize)
  {
    assert Linked([Blank(0, cfg.chunkSize)]);
    FlattenBlank(Initial(cfg).chain);
  }

  lemma {:induction false} InitialInv(cfg: Config)
    requires Sane(cfg)
    ensures Inv(cfg, Initial(cfg)) && Running(Initial(cfg))
  {
    InitialIs(cfg);
    hide Flatten, Grown, Initial, Linked;
    var s := Initial(cfg);
    assert forall k :: Failures([], k) == 0 && Successes([], k) == 0;
    hide Failures, Successes;
    assert Settled(cfg, s) && LogMatches(s) && InOrder(s);
  }

  lemma {:induction false} FlushPassHistory(cfg: Config, oracle: nat -> bool, expired: bool, s: State)
    requires Shaped(s) && cfg.chunks < 256
    ensures var r := FlushPass(cfg, oracle, expired, s).0; r.accepted == s.accepted && s.log <= r.log
  {
  }

  lemma {:induction false} FlushLoopHistory(cfg: Config, oracle: nat -> bool, expired: bool, s: State)
    requires Shaped(s) && cfg.chunks < 256
    ensures var r := FlushLoop(cfg, oracle, expired, s); r.accepted == s.accepted && s.log <= r.log
    decreases Depth(s.chain, s.flush)
  {
    FlushPassHistory(cfg, oracle, expired, s);
    var (t, more) := FlushPass(cfg, oracle, expired, s);
    if more {
      FlushPassDepth(cfg, oracle, expired, s);
      FlushLoopHistory(cfg, oracle, expired, t);
    }
  }

  lemma {:induction false} RoutineHistory(cfg: Config, oracle: nat -> bool, expired: bool, s: State)
    requires Shaped(s) && cfg.chunks < 256 && cfg.maxDirtyChunks >= 0
    ensures var r := Routine(cfg, oracle, expired, s); r.accepted == s.accepted && s.log <= r.log
  {
    FlushLoopHistory(cfg, oracle, expired, s);
    DropLoopIs(cfg, FlushLoop(cfg, oracle, expired, s));
    hide Linked, Depth, FlushLoop, DropLoop, Grown;
  }

  lemma {:induction false} ApplyKeeps(cfg: Config, oracle: nat -> bool, s: State, op: Op)
    requires Inv(cfg, s) && Running(s) && Sane(cfg)
    ensures var r := Apply(cfg, oracle, s, op);
            && Inv(cfg, r) && Running(r) && s.log <= r.log
            && r.accepted == s.accepted + (if op.Accept? then [op.e] else [])
  {
    hide Linked, InOrder, LogMatches, Settled, Pending, Running, Flatten, Depth, FlushPass, FlushLoop, DropLoop, Put;
    match op
    case Accept(e) => IngestKeeps(cfg, s, e);
    case FlushStep(expired) =>
      FlushPassKeeps(cfg, oracle, expired, s);
      FlushPassHistory(cfg, oracle, expired, s);
    case DropStep =>
      if Depth(s.chain, s.flush) > cfg.maxDirtyChunks {
        DropOneKeeps(cfg, s);
      }
    case Check(expired) =>
      RoutineKeeps(cfg, oracle, expired, s);
      RoutineHistory(cfg, oracle, expired, s);
  }

  lemma {:induction false} RunKeeps(cfg: Config, oracle: nat -> bool, s: State, ops: seq<Op>)
    requires Inv(cfg, s) && Running(s) && Sane(cfg)
    ensures var r := Run(cfg, oracle, s, ops);
            Inv(cfg, r) && Running(r) && s.log <= r.log && r.accepted == s.accepted + Given(ops)
  {
    if ops != [] {
      hide Inv, Running, Apply;
      RunKeeps(cfg, oracle, s, ops[..|ops| - 1]);
      ApplyKeeps(cfg, oracle, Run(cfg, oracle, s, ops[..|ops| - 1]), ops[|ops| - 1]);
    }
  }

  ghost predicate Balanced(cfg: Config, s: State, given: seq<Entry>) {
    && s.flush == |s.fates| <= |s.chain|
    && given == Flatten(s.chain[..s.flush]) + Flatten(s.chain[s.flush..])
    && (forall k :: 0 <= k < s.flush ==> FateFits(cfg, s.log, s.fates[k], k))
    && (forall k :: s.flush <= k < |s.chain| ==> Successes(s.log, k) == 0)
    && LogMatches(s)
  }

  lemma {:induction false} InvBalances(cfg: Config, s: State)
    requires Inv(cfg, s)
    ensures Balanced(cfg, s, s.accepted)
  {
    FlattenAround(s.chain, s.flush);
    hide Flatten, LogMatches, FateFits, InOrder, Linked, Successes, Failures;
    forall k | s.flush <= k < |s.chain|
      ensures Successes(s.log, k) == 0
    {
      assert Pending(cfg, s, k);
    }
  }

  // The ledger of every run and every failure oracle: the entries given so far are, in order, those of
  // the chunks behind flushChunk followed by those still in memory; each chunk behind was stored once,
  // or never and then failed maxFlushRetry + 1 times or was dropped.
  lemma {:induction false} LedgerBalances(cfg: Config, oracle: nat -> bool, ops: seq<Op>)
    requires Sane(cfg)
    ensures Balanced(cfg, Run(cfg, oracle, Initial(cfg), ops), Given(ops))
  {
    InitialInv(cfg);
    RunKeeps(cfg, oracle, Initial(cfg), ops);
    InvBalances(cfg, Run(cfg, oracle, Initial(cfg), ops));
  }

  // What the storage was handed for a chunk is what the chunk holds ever after.
  lemma {:induction false} HandedIsFinal(cfg: Config, oracle: nat -> bool, ops: seq<Op>, more: seq<Op>, i: nat)
    requires Sane(cfg)
    ensures var s := Run(cfg, oracle, Initial(cfg), ops);
            var r := Run(cfg, oracle, s, more);
            i < |s.log| && s.log[i].Flush? ==>
              && 0 <= s.log[i].id < |s.chain| && s.log[i].id < |r.chain|
              && s.log[i].entries == s.chain[s.log[i].id].entries == r.chain[s.log[i].id].entries
  {
    InitialInv(cfg);
    RunKeeps(cfg, oracle, Initial(cfg), ops);
    var s := Run(cfg, oracle, Initial(cfg), ops);
    RunKeeps(cfg, oracle, s, more);
    var r := Run(cfg, oracle, s, more);
    if i < |s.log| && s.log[i].Flush? {
      assert r.log[i] == s.log[i];
      assert CallFits(s, s.log[i]) && CallFits(r, r.log[i]);
    }
  }
}
