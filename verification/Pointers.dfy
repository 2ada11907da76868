// Where Ingest calls start: writeChunkId and writeChunk in every interleaving (ingester.go).
module Pointers {
  import opened LogEntry
  import opened Protocol
  import opened Interleavings

  // What a call has seen of writeChunkId is not ahead of it; a call has no slot in a chunk before the one it has
  // seen; and a chunk is only made the write chunk after its id.
  ghost predicate AimedCall(s: State, p: Put)
    requires p.at < |s.chunks|
  {
    || p.pc.ReadId?
    || (&& p.lastId <= s.writeChunkId
        && (p.pc.Book? && p.at < p.lastId ==> s.cap <= s.chunks[p.at].book)
        && (p.HasSlot() ==> p.lastId <= p.at)
        && (p.pc.SetPtr? ==> p.at <= s.writeChunkId))
  }

  ghost predicate Aimed(s: State)
    requires WellFormed(s)
  {
    s.writeChunk <= s.writeChunkId && forall t :: t in s.puts ==> AimedCall(s, s.puts[t])
  }

  // Other calls stay aimed while counters and writeChunkId only grow.
  lemma StaysAimed(s: State, u: State, p: Put)
    requires p.at < |s.chunks| && AimedCall(s, p) && Later(s, u) && s.writeChunkId <= u.writeChunkId
    ensures AimedCall(u, p)
  {
    assert ChunkLater(s.chunks[p.at], u.chunks[p.at]);
  }

  ghost predicate StepAims(s: State, t: nat, u: State)
    requires t in s.puts
  {
    && s.writeChunkId <= u.writeChunkId && u.writeChunk <= u.writeChunkId
    && t in u.puts && u.puts == s.puts[t := u.puts[t]] && u.puts[t].at < |u.chunks| && AimedCall(u, u.puts[t])
  }

  lemma {:induction false} CallStaysAimed(s: State, t: nat)
    requires Inv(s) && Aimed(s) && Enabled(s, Run(t))
    ensures StepAims(s, t, Next(s, Run(t)))
  {
    if IsChunkStep(s.puts[t].pc) {
      if s.puts[t].at < s.writeChunkId {
        assert ClosedBefore(s, s.writeChunkId);
        assert Closed(s, s.puts[t].at);
      }
      OnChunkAims(s, t);
    } else {
      PointerStepAims(s, t);
    }
  }

  // A step on its chunk, which is closed if it is before writeChunkId.
  lemma {:induction false} OnChunkAims(s: State, t: nat)
    requires WellFormed(s) && t in s.puts && IsChunkStep(s.puts[t].pc) && AimedCall(s, s.puts[t])
    requires s.writeChunk <= s.writeChunkId && (s.puts[t].at < s.writeChunkId ==> Closed(s, s.puts[t].at))
    ensures StepAims(s, t, Advance(s, t))
  {
    var p := s.puts[t];
    var (ch, q) := OnChunk(s.cap, s.chunks[p.at], t, p);
    assert q.at == p.at && q.lastId == p.lastId && s.chunks[p.at].book <= ch.book;
  }

  lemma {:induction false} PointerStepAims(s: State, t: nat)
    requires WellFormed(s) && t in s.puts && !IsChunkStep(s.puts[t].pc) && AimedCall(s, s.puts[t])
    requires s.writeChunk <= s.writeChunkId
    ensures StepAims(s, t, Advance(s, t))
  {
  }

  lemma {:induction false} AimedNext(s: State, ev: Event)
    requires Inv(s) && Aimed(s) && Enabled(s, ev)
    ensures var u := Next(s, ev); WellFormed(u) && Aimed(u) && s.writeChunkId <= u.writeChunkId
  {
    InvNext(s, ev);
    var u := Next(s, ev);
    if ev.Run? {
      CallStaysAimed(s, ev.t);
    }
    hide Inv, Later, AimedCall;
    forall t | t in u.puts
      ensures AimedCall(u, u.puts[t])
    {
      if t in s.puts && (ev.Run? ==> t != ev.t) {
        StaysAimed(s, u, s.puts[t]);
      } else if ev.Start? {
        NewIsAimed(u, u.puts[t]);
      }
    }
  }

  lemma NewIsAimed(u: State, p: Put)
    requires p.at < |u.chunks| && p.pc.ReadId?
    ensures AimedCall(u, p)
  {
  }

  lemma {:induction false} RunIsAimed(cap: nat, tr: seq<State>, ev: seq<Event>, i: nat)
    requires IsRun(cap, tr, ev) && i < |tr|
    ensures WellFormed(tr[i]) && Aimed(tr[i])
  {
    if i > 0 {
      RunIsAimed(cap, tr, ev, i - 1);
      RunInv(cap, tr, ev, i - 1);
      assert Enabled(tr[i - 1], ev[i - 1]);
      AimedNext(tr[i - 1], ev[i - 1]);
    }
  }

  // Main theorem: in every interleaving writeChunkId never goes back, although every call may store its own, and
  // writeChunk, which may go back, is never ahead of it.
  lemma {:induction false} IdNeverGoesBack(cap: nat, tr: seq<State>, ev: seq<Event>, i: nat, j: nat)
    requires IsRun(cap, tr, ev) && i <= j < |tr|
    ensures tr[i].writeChunk <= tr[i].writeChunkId <= tr[j].writeChunkId
    decreases j - i
  {
    RunIsAimed(cap, tr, ev, i);
    if i < j {
      IdNeverGoesBack(cap, tr, ev, i, j - 1);
      RunIsAimed(cap, tr, ev, j - 1);
      RunInv(cap, tr, ev, j - 1);
      assert Enabled(tr[j - 1], ev[j - 1]);
      AimedNext(tr[j - 1], ev[j - 1]);
    }
  }
}
