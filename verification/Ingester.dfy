// The chunk list and the ingester as objects that are updated in place (chunk.go, ingester.go), with each
// Put one atomic step.  Every method is proved to compute the function of module Ledger of the same name.
//
// `chain` names the whole list from its root; a chunk's id is its position there.
module Ingester {
  import opened LogEntry
  import L = Ledger

  function Entries(cells: seq<Cell>): seq<Entry>
    requires forall i :: 0 <= i < |cells| ==> cells[i].Ptr?
  {
    seq(|cells|, i requires 0 <= i < |cells| => cells[i].e)
  }

  class Chunk {
    const id: int
    const cap: int
    var book: nat
    var write: nat
    var size: nat
    var epochStart: int
    var epochEnd: int
    var retries: nat
    var locked: bool
    var next: Chunk?
    const entries: array<Cell>

    // The chunk holds what v says, `book` apart.
    ghost predicate Holds(v: L.Chunk)
      reads this, entries
    {
      && v.Valid() && entries.Length == 900
      && id == v.id && cap == v.cap && write == |v.entries| && size == v.size
      && epochStart == v.epochStart && epochEnd == v.epochEnd && retries == v.retries && locked == v.locked
      && forall n :: 0 <= n < write ==> entries[n] == Ptr(v.entries[n])
    }

    ghost predicate Is(v: L.Chunk)
      reads this, entries
    {
      Holds(v) && book == v.book
    }

    // NewChunk
    constructor (cap: int)
      ensures next == null && fresh(entries)
      ensures Is(L.Blank(0, if cap < 1 then 1 else if cap > 900 then 900 else cap))
    {
      id, book, write, size, epochStart, epochEnd, retries, locked, next := 0, 0, 0, 0, 0, 0, 0, false, null;
      this.cap := if cap < 1 then 1 else if cap > 900 then 900 else cap;
      entries := new Cell[900](_ => Nil);
    }

    // The literal Init builds: the next id, the same capacity.
    constructor Successor(id: int, cap: int)
      requires 1 <= cap <= 900
      ensures next == null && fresh(entries) && this.id == id && Is(L.Blank(id, cap))
    {
      this.id, this.cap := id, cap;
      book, write, size, epochStart, epochEnd, retries, locked, next := 0, 0, 0, 0, 0, 0, false, null;
      entries := new Cell[900](_ => Nil);
    }

    // Next: makes sure of the successor.  (A chunk without capacity is never built by NewChunk or Init.)
    method Next(ghost chain: seq<Chunk>, ghost v: L.Chain, ghost repr: set<object>)
        returns (n: Chunk, ghost chain': seq<Chunk>, ghost repr': set<object>)
      requires Shows(chain, v, repr) && 0 <= id < |chain| && chain[id] == this
      modifies this`next
      ensures chain <= chain' && fresh(repr' - repr) && repr <= repr' && Shows(chain', L.Grown(v, id + 2), repr')
      ensures id + 1 < |chain'| && n == chain'[id + 1] == next && n.id == id + 1 && n in repr'
      ensures |chain'| == |L.Grown(v, id + 2)|
    {
      hide L.Grown;
      chain', repr' := chain, repr;
      L.GrownByOne(v);
      assert Link(chain, id);
      if next == null {
        var c := new Chunk.Successor(id + 1, cap);
        next := c;
        chain', repr' := chain + [c], repr + {c, c.entries};
        forall i | 0 <= i < |chain'|
          ensures Link(chain', i)
        {
          assert i < |chain| ==> old(Link(chain, i));
        }
        forall i | 0 <= i < |chain|
          ensures chain[i].Is(v[i])
        {
          assert old(chain[i].Is(v[i]));
        }
        Extended(chain, v, repr, c);
      }
      n := next;
      assert n.Is(L.Grown(v, id + 2)[id + 1]) && (n == chain'[id + 1]);
    }

    // Init
    method Init(depth: nat, ghost chain: seq<Chunk>, ghost v: L.Chain, ghost repr: set<object>)
        returns (ghost chain': seq<Chunk>, ghost repr': set<object>)
      requires Shows(chain, v, repr) && 0 <= id < |chain| && chain[id] == this
      modifies repr
      ensures chain <= chain' && fresh(repr' - repr) && repr <= repr'
      ensures Shows(chain', L.Grown(v, id + depth + 1), repr')
      ensures |chain'| == |L.Grown(v, id + depth + 1)|
      decreases depth
    {
      hide L.Grown, Chunk.Is;
      chain', repr' := chain, repr;
      if depth > 0 {
        var n;
        n, chain', repr' := Next(chain, v, repr);
        if depth - 1 > 0 {
          chain', repr' := n.Init(depth - 1, chain', L.Grown(v, id + 2), repr');
        }
        L.GrownTwice(v, id + 2, id + depth + 1);
      }
    }

    predicate Empty()
      reads this
    {
      book == 0
    }

    // Ready: its three loads, with no Put in between.
    method Ready(ghost v: L.Chunk) returns (r: bool)
      requires Is(v)
      ensures r <==> v.Ready()
    {
      var w := write;
      if w == cap {
        return true;
      }
      var b := book;
      r := b > 0 && w == b && locked;
    }

    method Lock(ghost chain: seq<Chunk>, ghost v: L.Chain, ghost repr: set<object>)
      requires Shows(chain, v, repr) && 0 <= id < |chain| && chain[id] == this
      modifies this`locked
      ensures Shows(chain, v[id := v[id].(locked := true)], repr)
    {
      locked := true;
      forall i | 0 <= i < |chain|
        ensures (i != id ==> chain[i].Is(v[i])) && Link(chain, i)
      {
        assert old(chain[i].Is(v[i])) && old(Link(chain, i));
      }
      Replaced(chain, v, repr, id, v[id].(locked := true));
    }

    // atomic.AddInt32(&chunk.retries, 1)
    method AddRetry(ghost chain: seq<Chunk>, ghost v: L.Chain, ghost repr: set<object>)
      requires Shows(chain, v, repr) && 0 <= id < |chain| && chain[id] == this
      modifies this`retries
      ensures Shows(chain, v[id := v[id].(retries := v[id].retries + 1)], repr)
    {
      retries := retries + 1;
      forall i | 0 <= i < |chain|
        ensures (i != id ==> chain[i].Is(v[i])) && Link(chain, i)
      {
        assert old(chain[i].Is(v[i])) && old(Link(chain, i));
      }
      Replaced(chain, v, repr, id, v[id].(retries := v[id].retries + 1));
    }

    method List(ghost v: L.Chunk) returns (l: seq<Cell>)
      requires Is(v)
      ensures forall i :: 0 <= i < |l| ==> l[i].Ptr?
      ensures Entries(l) == v.entries
    {
      l := entries[..write];
    }

    // Depth
    method Depth(ghost chain: seq<Chunk>, ghost v: L.Chain, ghost repr: set<object>) returns (d: nat)
      requires Shows(chain, v, repr) && 0 <= id < |chain| && chain[id] == this
      ensures d == L.Depth(v, id)
      decreases |chain| - id
    {
      assert Link(chain, id);
      if Empty() {
        return 0;
      }
      var n := next;
      if n == null {
        return 1;
      }
      d := n.Depth(chain, v, repr);
      d := 1 + d;
    }

    // c.Next().Put(e), from a chunk that takes no more.
    method PutNext(e: Entry, ghost chain: seq<Chunk>, ghost v: L.Chain, ghost repr: set<object>)
        returns (into: Chunk, ghost chain': seq<Chunk>, ghost repr': set<object>)
      requires Shows(chain, v, repr) && 0 <= id < |chain| && chain[id] == this && v[id].Closed()
      modifies repr
      ensures chain <= chain' && fresh(repr' - repr) && repr <= repr'
      ensures Shows(chain', L.Put(L.Grown(v, id + 2), id + 1, e).0, repr')
      ensures into == chain'[L.Put(L.Grown(v, id + 2), id + 1, e).1]
      ensures into.id == L.Put(L.Grown(v, id + 2), id + 1, e).1 && into in repr'
      decreases |chain| - id, 1
    {
      var n, isFull;
      n, chain', repr' := Next(chain, v, repr);
      into, isFull, chain', repr' := n.Put(e, chain', L.Grown(v, id + 2), repr');
    }

    // Put
    method Put(e: Entry, ghost chain: seq<Chunk>, ghost v: L.Chain, ghost repr: set<object>)
        returns (into: Chunk, isFull: bool, ghost chain': seq<Chunk>, ghost repr': set<object>)
      requires Shows(chain, v, repr) && 0 <= id < |chain| && chain[id] == this
      modifies repr
      ensures chain <= chain' && fresh(repr' - repr) && repr <= repr' && Shows(chain', L.Put(v, id, e).0, repr')
      ensures |chain'| == |L.Put(v, id, e).0|
      ensures into == chain'[L.Put(v, id, e).1] && into.id == L.Put(v, id, e).1 && into in repr'
      ensures isFull <==> L.Put(v, id, e).1 != id
      decreases |chain| - id, if v[id].Closed() then 2 else 0
    {
      L.PutUnfolds(v, id, e);
      hide L.Put, L.Grown;
      if locked {
        into, chain', repr' := PutNext(e, chain, v, repr);
        return into, true, chain', repr';
      }

      book := book + 1;
      var index := book - 1;
      if index > cap - 1 {
        forall i | 0 <= i < |chain|
          ensures (i != id ==> chain[i].Is(v[i])) && Link(chain, i)
        {
          assert old(chain[i].Is(v[i])) && old(Link(chain, i));
        }
        Replaced(chain, v, repr, id, v[id].Refuse());
        into, chain', repr' := PutNext(e, chain, v[id := v[id].Refuse()], repr);
        return into, true, chain', repr';
      }

      Fill(index, e, v[id]);
      into, isFull, chain', repr' := this, false, chain, repr;
      forall i | 0 <= i < |chain|
        ensures (i != id ==> chain[i].Is(v[i])) && Link(chain, i)
      {
        assert old(chain[i].Is(v[i])) && old(Link(chain, i));
      }
      Replaced(chain, v, repr, id, v[id].Accept(e));
    }

    // The part of Put that writes, in the slot it has booked.
    method Fill(index: nat, e: Entry, ghost v: L.Chunk)
      requires Holds(v) && !v.Closed() && book == v.book + 1 && index == v.book
      modifies this, entries
      ensures Is(v.Accept(e)) && next == old(next)
    {
      entries[index] := Ptr(e);
      var last := epochEnd;
      if e.epoch > last {
        epochEnd := e.epoch;
      }
      var first := epochStart;
      if first == 0 || e.epoch < first {
        epochStart := e.epoch;
      }
      size := size + |e.content|;
      write := write + 1;
    }
  }

  ghost predicate Link(chain: seq<Chunk>, i: nat)
    requires i < |chain|
    reads chain[i]
  {
    chain[i].next == if i + 1 < |chain| then chain[i + 1] else null
  }

  // The list from its root: ids are positions, the next pointers link it, no array is shared, and the
  // chunks hold what v says.  repr has the chunks and their arrays.
  ghost predicate Shows(chain: seq<Chunk>, v: L.Chain, repr: set<object>)
    reads repr
  {
    && |chain| == |v| && L.Linked(v)
    && (forall i :: 0 <= i < |chain| ==> chain[i] in repr && chain[i].entries in repr)
    && (forall i :: 0 <= i < |chain| ==> chain[i].Is(v[i]))
    && (forall i {:trigger Link(chain, i)} :: 0 <= i < |chain| ==> Link(chain, i))
    && (forall i, j :: 0 <= i < j < |chain| ==> chain[i].entries != chain[j].entries)
  }

  lemma Extended(chain: seq<Chunk>, v: L.Chain, repr: set<object>, c: Chunk)
    requires 0 < |chain| == |v| && L.Linked(v)
    requires forall i :: 0 <= i < |chain| ==> chain[i] in repr && chain[i].entries in repr
    requires forall i :: 0 <= i < |chain| ==> chain[i].Is(v[i])
    requires forall i, j :: 0 <= i < j < |chain| ==> chain[i].entries != chain[j].entries
    requires c.Is(L.Blank(|v|, v[0].cap)) && c.entries !in repr
    requires forall i :: 0 <= i <= |chain| ==> Link(chain + [c], i)
    ensures Shows(chain + [c], L.Grown(v, |v| + 1), repr + {c, c.entries})
  {
    L.GrownByOne(v);
  }

  lemma At(chain: seq<Chunk>, v: L.Chain, repr: set<object>, i: nat)
    requires Shows(chain, v, repr) && i < |chain|
    ensures |chain| == |v| && L.Linked(v) && chain[i].Is(v[i]) && chain[i] in repr
  {
  }

  // One chunk was updated in place.
  lemma Replaced(chain: seq<Chunk>, v: L.Chain, repr: set<object>, k: nat, c: L.Chunk)
    requires |chain| == |v| && k < |v| && L.Linked(v)
    requires forall i :: 0 <= i < |chain| ==> chain[i] in repr && chain[i].entries in repr
    requires c.id == k && c.cap == v[0].cap && chain[k].Is(c)
    requires forall i :: 0 <= i < |chain| ==> (i != k ==> chain[i].Is(v[i])) && Link(chain, i)
    requires forall i, j :: 0 <= i < j < |chain| ==> chain[i].entries != chain[j].entries
    ensures Shows(chain, v[k := c], repr)
  {
  }

  // The storage back end.  Whether the n-th call succeeds is up to `oracle`.
  class Storage {
    const oracle: nat -> bool
    var log: seq<L.Call>

    constructor (oracle: nat -> bool)
      ensures log == [] && this.oracle == oracle
    {
      this.oracle, log := oracle, [];
    }

    method Flush(chunk: Chunk, ghost v: L.Chunk) returns (ok: bool)
      requires chunk.Is(v)
      modifies this
      ensures ok == oracle(|old(log)|)
      ensures log == old(log) + [L.Flush(v.id, v.entries, ok)]
    {
      ok := oracle(|log|);
      var list := chunk.List(v);
      log := log + [L.Flush(chunk.id, Entries(list), ok)];
    }

    method Close()
      modifies this
      ensures log == old(log) + [L.Close]
    {
      log := log + [L.Close];
    }
  }

  class Ingester {
    const cfg: L.Config
    const storage: Storage
    var flushChunk: Chunk
    var writeChunk: Chunk
    var flushChunkId: int
    var writeChunkId: int
    // the list from its root, and what list, fields and storage amount to
    ghost var chain: seq<Chunk>
    ghost var state: L.State
    // the chunks and their arrays
    ghost var repr: set<object>

    ghost predicate Valid()
      reads this, storage, repr
    {
      && this !in repr && storage !in repr
      && flushChunk in repr && writeChunk in repr
      && L.Sane(cfg) && L.Shaped(state) && |chain| == |state.chain|
      && Shows(chain, state.chain, repr) && storage.log == state.log
      && flushChunk == chain[state.flush] && flushChunk.id == flushChunkId == state.flush
      && writeChunk == chain[state.write] && writeChunk.id == writeChunkId == state.write
    }

    // NewIngester
    constructor (config: L.Config, storage: Storage)
      requires config.chunks < 256 && storage.log == []
      ensures Valid() && this.storage == storage && cfg == L.Defaults(config)
      ensures state == L.Initial(cfg)
      ensures fresh(repr)
    {
      var d := L.Defaults(config);
      cfg := d;
      this.storage := storage;
      var root := new Chunk(d.chunkSize);
      ghost var list, objects := root.Init(d.chunks, [root], [L.Blank(0, d.chunkSize)], {root, root.entries});
      writeChunkId := root.id;
      flushChunkId := 0;
      flushChunk := root;
      writeChunk := root;
      chain, state, repr := list, L.Initial(d), objects;
    }

    method Ingest(e: Entry)
      requires Valid()
      modifies this, repr
      ensures Valid() && fresh(repr - old(repr)) && state == L.Ingest(old(state), e)
    {
      hide Shows, L.Linked, L.Put, L.Grown;
      var lastWriteId := writeChunkId;
      ghost var next := L.Ingest(state, e);
      var chunk, isFull;
      chunk, isFull, chain, repr := writeChunk.Put(e, chain, state.chain, repr);
      state := next;
      // the compare-and-swap on writeChunkId
      if isFull && writeChunkId == lastWriteId {
        writeChunkId := chunk.id;
        writeChunk := chunk;
      }
    }

    // flushChunk = flushChunk.Next(), and its id
    method Advance(ghost fate: L.Fate)
      requires Valid()
      modifies this, repr
      ensures Valid() && fresh(repr - old(repr)) && state == L.Pass(old(state), fate)
    {
      hide Shows, L.Linked, L.Grown;
      var n;
      n, chain, repr := flushChunk.Next(chain, state.chain, repr);
      state := L.Pass(state, fate);
      flushChunk := n;
      flushChunkId := n.id;
    }

    // flushChunk.Init(depth)
    method InitAhead(depth: nat)
      requires Valid()
      modifies this, repr
      ensures Valid() && fresh(repr - old(repr)) && state == L.InitAhead(old(state), depth)
    {
      hide Shows, L.Linked, L.Grown;
      chain, repr := flushChunk.Init(depth, chain, state.chain, repr);
      state := L.InitAhead(state, depth);
    }

    // flushChunk.Lock()
    method LockFlush()
      requires Valid()
      modifies this`state, flushChunk`locked
      ensures Valid() && state == L.Locked(old(state))
    {
      flushChunk.Lock(chain, state.chain, repr);
      state := L.Locked(state);
    }

    // atomic.AddInt32(&chunk.retries, 1) on flushChunk
    method CountRetry()
      requires Valid()
      modifies this`state, flushChunk`retries
      ensures Valid()
      ensures var s, k := old(state), old(state).flush;
              state == s.(chain := s.chain[k := s.chain[k].(retries := s.chain[k].retries + 1)])
    {
      hide Chunk.Is;
      flushChunk.AddRetry(chain, state.chain, repr);
      var k := state.flush;
      state := state.(chain := state.chain[k := state.chain[k].(retries := state.chain[k].retries + 1)]);
    }

    // storage.Flush(flushChunk), counting a failure in its retries
    method TryFlush() returns (ok: bool)
      requires Valid()
      modifies this`state, flushChunk`retries, storage
      ensures Valid() && ok == storage.oracle(|old(storage.log)|)
      ensures state == L.Attempt(old(state), storage.oracle)
    {
      At(chain, state.chain, repr, state.flush);
      L.AttemptIs(storage.oracle, state);
      hide Shows, L.Linked, L.Shaped, Chunk.Holds, L.Attempt, L.Sane;
      ok := storage.Flush(flushChunk, state.chain[state.flush]);
      state := state.(log := storage.log);
      if !ok {
        CountRetry();
      }
    }

    // flushChunk is ready: one attempt to store it, and on to the next chunk unless it is to be retried.
    method FlushReady() returns (more: bool)
      requires Valid()
      modifies this, storage, repr
      ensures Valid() && fresh(repr - old(repr))
      ensures (state, more) == L.FlushReady(cfg, storage.oracle, old(state))
    {
      hide Shows, L.Linked, L.Grown;
      var ok := TryFlush();
      At(chain, state.chain, repr, state.flush);
      if !ok {
        if flushChunk.retries > cfg.maxFlushRetry {
          InitAhead((cfg.chunks + 1) % 256);
          Advance(L.Abandoned);
          return true;
        }
        return false;
      }
      InitAhead((cfg.chunks + 1) % 256);
      Advance(L.Persisted);
      more := true;
    }

    // One pass of the flush loop; false when the loop ends.
    method FlushPass(expired: bool) returns (more: bool)
      requires Valid()
      modifies this, storage, repr
      ensures Valid() && fresh(repr - old(repr))
      ensures (state, more) == L.FlushPass(cfg, storage.oracle, expired, old(state))
    {
      hide Shows, L.Linked, L.Grown, L.FlushReady;
      At(chain, state.chain, repr, state.flush);
      var chunk := flushChunk;
      if chunk.Empty() {
        return false;
      }
      var ready := chunk.Ready(state.chain[state.flush]);
      if ready {
        more := FlushReady();
        return;
      }
      if expired {
        LockFlush();
        InitAhead(cfg.chunks);
      } else if cfg.maxChunkSizeBytes > 0 && chunk.size > cfg.maxChunkSizeBytes {
        LockFlush();
        InitAhead(cfg.chunks);
      }
      more := false;
    }

    // The flush loop.
    method FlushAll(expired: bool)
      requires Valid()
      modifies this, storage, repr
      ensures Valid() && fresh(repr - old(repr))
      ensures state == L.FlushLoop(cfg, storage.oracle, expired, old(state))
    {
      hide Shows, L.Linked, L.Grown, L.FlushLoop, L.FlushPass, L.Depth;
      ghost var flushed := L.FlushLoop(cfg, storage.oracle, expired, state);
      var more := true;
      while more
        invariant Valid() && fresh(repr - old(repr))
        invariant flushed == if more then L.FlushLoop(cfg, storage.oracle, expired, state) else state
        decreases more, L.Depth(state.chain, state.flush)
      {
        L.FlushLoopUnfolds(cfg, storage.oracle, expired, state);
        more := FlushPass(expired);
      }
    }

    // doRoutineCheck; `expired` is the outcome of the TTL comparison, which a call makes at most once.
    method DoRoutineCheck(expired: bool)
      requires Valid()
      modifies this, storage, repr
      ensures Valid() && fresh(repr - old(repr))
      ensures state == L.Routine(cfg, storage.oracle, expired, old(state))
    {
      hide Shows, L.Linked, L.Grown, L.FlushLoop, L.DropLoop, L.Depth;
      FlushAll(expired);
      At(chain, state.chain, repr, state.flush);
      var depth := flushChunk.Depth(chain, state.chain, repr);
      if !flushChunk.Empty() && depth > cfg.maxDirtyChunks {
        Drop();
        InitAhead(cfg.chunks);
      }
    }

    // The loop that drops the oldest chunks.
    method Drop()
      requires Valid()
      modifies this, repr
      ensures Valid() && fresh(repr - old(repr))
      ensures state == L.DropLoop(cfg, old(state))
    {
      ghost var dropped := L.DropLoop(cfg, state);
      var depth := flushChunk.Depth(chain, state.chain, repr);
      while depth > cfg.maxDirtyChunks
        invariant Valid() && fresh(repr - old(repr)) && depth == L.Depth(state.chain, state.flush)
        invariant L.DropLoop(cfg, state) == dropped
        decreases depth
      {
        L.PassDepth(state, L.Discarded);
        Advance(L.Discarded);
        depth := flushChunk.Depth(chain, state.chain, repr);
      }
    }

    // On to the next chunk, which is locked.
    method LockNext(ghost fate: L.Fate)
      requires Valid()
      modifies this, repr
      ensures Valid() && fresh(repr - old(repr)) && flushChunk.locked
      ensures state == L.LockNext(old(state), fate)
    {
      hide Shows, L.Linked, L.Grown, L.Pass;
      Advance(fate);
      LockFlush();
      At(chain, state.chain, repr, state.flush);
    }

    // One pass of the quit branch's loop.
    method QuitPass()
      requires Valid() && flushChunk.locked && !flushChunk.Empty()
      modifies this, storage, repr
      ensures Valid() && fresh(repr - old(repr)) && flushChunk.locked
      ensures old(state).chain[old(state).flush].locked && state == L.QuitPass(cfg, storage.oracle, old(state))
    {
      hide Shows, L.Linked, L.Grown;
      At(chain, state.chain, repr, state.flush);
      var ready := flushChunk.Ready(state.chain[state.flush]);
      if ready {
        var ok := TryFlush();
        At(chain, state.chain, repr, state.flush);
        if !ok {
          if flushChunk.retries > cfg.maxFlushRetry {
            LockNext(L.Abandoned);
          }
        } else {
          LockNext(L.Persisted);
        }
      } else {
        // a locked chunk that holds entries is ready
        assert false;
      }
    }

    // The quit branch of routineCheck.
    method Quit()
      requires Valid()
      modifies this, storage, repr
      ensures Valid() && fresh(repr - old(repr))
      ensures state == L.Shutdown(cfg, storage.oracle, old(state))
    {
      hide Shows, L.Linked, L.Grown, L.QuitLoop, L.QuitPass, L.Depth;
      LockFlush();
      At(chain, state.chain, repr, state.flush);
      ghost var drained := L.QuitLoop(cfg, storage.oracle, state);
      while !flushChunk.Empty()
        invariant Valid() && fresh(repr - old(repr)) && flushChunk.Is(state.chain[state.flush]) && flushChunk.locked
        invariant L.QuitLoop(cfg, storage.oracle, state) == drained
        decreases L.Depth(state.chain, state.flush), cfg.maxFlushRetry + 1 - state.chain[state.flush].retries
      {
        L.QuitLoopUnfolds(cfg, storage.oracle, state);
        QuitPass();
        At(chain, state.chain, repr, state.flush);
      }
      L.QuitLoopEnds(cfg, storage.oracle, state);
      storage.Close();
      state := state.(log := state.log + [L.Close]);
    }
  }
}
