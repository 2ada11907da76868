// A concrete run of the ingestion protocol in which Ready is true and an entry is lost all the same, built
// step by step.
module SmallRuns {
  import opened Interleavings
  import opened LogEntry
  import opened Protocol

  // One chunk, and nothing but these calls.
  function Small(ch: Chunk, puts: map<nat, Put>): State {
    State(|ch.slots|, [ch], puts, 0, 0)
  }

  // The last state of a run.
  ghost predicate Ends(tr: seq<State>, ev: seq<Event>, s: State) {
    IsRun(s.cap, tr, ev) && tr[|tr| - 1] == s
  }

  lemma {:induction false} Works(tr: seq<State>, ev: seq<Event>, ch: Chunk, puts: map<nat, Put>, t: nat)
      returns (tr': seq<State>, ev': seq<Event>)
    requires Ends(tr, ev, Small(ch, puts)) && t in puts && IsChunkStep(puts[t].pc)
    requires forall v :: v in puts ==> puts[v].at == 0 && (puts[v].HasSlot() ==> puts[v].slot < |ch.slots|)
    ensures var (ch', q) := OnChunk(|ch.slots|, ch, t, puts[t]); Ends(tr', ev', Small(ch', puts[t := q]))
  {
    var s := Small(ch, puts);
    assert Enabled(s, Run(t)) && WellFormed(s);
    tr', ev' := OneMore(s.cap, tr, ev, Run(t));
    var ch' := OnChunk(s.cap, ch, t, puts[t]).0;
    assert [ch][0 := ch'] == [ch'] && |ch'.slots| == s.cap;
  }

  lemma {:induction false} Joins(tr: seq<State>, ev: seq<Event>, ch: Chunk, puts: map<nat, Put>, t: nat, e: Entry)
      returns (tr': seq<State>, ev': seq<Event>)
    requires Ends(tr, ev, Small(ch, puts)) && t !in puts
    requires forall v :: v in puts ==> puts[v].at == 0 && (puts[v].HasSlot() ==> puts[v].slot < |ch.slots|)
    ensures Ends(tr', ev', Small(ch, puts[t := Put(e, 0, false, 0, 0, Check)]))
  {
    tr', ev' := OneMore(|ch.slots|, tr, ev, Start(t, e));
    tr', ev' := OneMore(|ch.slots|, tr', ev', Run(t));
    tr', ev' := OneMore(|ch.slots|, tr', ev', Run(t));
    assert puts[t := Put(e, 0, false, 0, 0, ReadId)][t := Put(e, 0, false, 0, 0, ReadPtr)]
                [t := Put(e, 0, false, 0, 0, Check)] == puts[t := Put(e, 0, false, 0, 0, Check)];
  }

  const E := Entry(0, 0, "")

  function Alone(pc: Pc): map<nat, Put> {
    map[0 := Put(E, 0, false, 0, 0, pc)]
  }

  lemma {:induction false} Solo(tr: seq<State>, ev: seq<Event>, ch: Chunk, pc: Pc, ch': Chunk, pc': Pc)
      returns (tr': seq<State>, ev': seq<Event>)
    requires Ends(tr, ev, Small(ch, Alone(pc))) && IsChunkStep(pc) && |ch.slots| == 2
    requires OnChunk(2, ch, 0, Put(E, 0, false, 0, 0, pc)) == (ch', Put(E, 0, false, 0, 0, pc'))
    ensures Ends(tr', ev', Small(ch', Alone(pc')))
  {
    tr', ev' := Works(tr, ev, ch, Alone(pc), 0);
    assert Alone(pc)[0 := Put(E, 0, false, 0, 0, pc')] == Alone(pc');
  }

  // A chunk with capacity two, of which the first slot may be in use.
  function WithFirst(book: nat, write: nat, x: Slot): Chunk {
    Chunk(book, write, 0, 0, 0, false, [x, Free])
  }

  lemma FirstSet(x: Slot, y: Slot)
    ensures [x, Free][0 := y] == [y, Free]
  {
  }

  // A call of Ingest that runs alone, from its check to its end.
  lemma {:induction false} OneAlone() returns (tr: seq<State>, ev: seq<Event>)
    ensures Ends(tr, ev, Small(WithFirst(1, 1, Counted(0, E)), Alone(Done)))
  {
    hide Ends, Small, Alone;
    tr, ev := FirstCall();
    var free, taken, stored := WithFirst(0, 0, Free), WithFirst(1, 0, Booked(0)), WithFirst(1, 0, Stored(0, E));
    FirstSet(Free, Booked(0));
    FirstSet(Booked(0), Stored(0, E));
    FirstSet(Stored(0, E), Sized(0, E));
    FirstSet(Sized(0, E), Counted(0, E));
    tr, ev := Solo(tr, ev, free, Check, free, Book);
    tr, ev := Solo(tr, ev, free, Book, taken, Store);
    tr, ev := Solo(tr, ev, taken, Store, stored, LoadEnd);
    tr, ev := Solo(tr, ev, stored, LoadEnd, stored, LoadStart);
    tr, ev := Solo(tr, ev, stored, LoadStart, stored, CasStart(0, 0));
    tr, ev := Solo(tr, ev, stored, CasStart(0, 0), stored, AddSize);
    tr, ev := Solo(tr, ev, stored, AddSize, WithFirst(1, 0, Sized(0, E)), Count);
    tr, ev := Solo(tr, ev, WithFirst(1, 0, Sized(0, E)), Count, WithFirst(1, 1, Counted(0, E)), Done);
  }

  lemma {:induction false} FirstCall() returns (tr: seq<State>, ev: seq<Event>)
    ensures Ends(tr, ev, Small(WithFirst(0, 0, Free), Alone(Check)))
  {
    tr, ev := [Initial(2)], [];
    assert Fresh(2) == WithFirst(0, 0, Free);
    tr, ev := Joins(tr, ev, Fresh(2), map[], 0, E);
    assert map[][0 := Put(E, 0, false, 0, 0, Check)] == Alone(Check);
  }

  // Such a state is reached: one entry is in, a second call has passed the check, and the chunk is locked.
  // Ready answers true, and the entry the second call goes on to store is missing from the List of then.
  lemma {:induction false} LossIsReached() returns (tr: seq<State>, ev: seq<Event>, l: nat)
    ensures IsRun(2, tr, ev) && l < |tr| && ReadyTrue(tr, 0, l, l, l) && Lost(tr, 0, 1, l, |tr| - 1)
  {
    tr, ev := OneAlone();
    var ch := WithFirst(1, 1, Counted(0, E));
    tr, ev := Joins(tr, ev, ch, Alone(Done), 1, E);
    var puts := Alone(Done)[1 := Put(E, 0, false, 0, 0, Check)];
    tr, ev := Works(tr, ev, ch, puts, 1);
    tr, ev := OneMore(2, tr, ev, Lock(0));
    l := |tr| - 1;
    var tr', ev' := StragglerCanLose(2, tr, ev, 0, 1);
    assert tr'[l] == tr[l];
    tr, ev := tr', ev';
  }
}
