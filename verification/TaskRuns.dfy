// Scheduled query tasks as a transition system (sqlite/storage_scheduler.go): API calls, the scheduler
// goroutine and one goroutine per dispatched task interleave, one atomic operation at a time.
module TaskRuns {
  import opened Options

  // task.state.
  datatype Status = Created | Processing | Finished | Canceled

  // Where the goroutine of a dispatch stands in exec.
  datatype Pc =
    | Start        // compare-and-swap from created to processing
    | CheckOpen    // is the database open?
    | Call         // inside the task's callback
    | CheckAgain   // the callback failed: is the database still open?
    | Undo         // compare-and-swap from processing back to created
    | Requeue      // db.schedule
    | Finish       // compare-and-swap from processing to finished
    | Report       // onTask(id, true)
    | Done

  // `calls` and `reports` count the callback's invocations and the completions of this dispatch.
  datatype Dispatch = Dispatch(task: nat, pc: Pc, retries: nat, calls: nat, reports: nat)
  {
    // The goroutine may still touch the task.
    predicate Holds() {
      pc != Report && pc != Done
    }
  }

  // `arriving`: created, not yet in the map of a database; `queue`: in the map of its database; `hand`: taken
  // out by the scheduler goroutine, and whether numActiveTasks counts it already.
  datatype State = State(status: seq<Status>, arriving: set<nat>, queue: set<nat>, hand: Option<(nat, bool)>,
                         dispatches: seq<Dispatch>, numActive: int)

  const INIT := State([], {}, {}, None, [], 0)

  // Step(i, yes): the next operation of dispatch i; yes is the answer of isOpen or the success of the callback.
  datatype Event =
    | New
    | Enqueue(task: nat)
    | Cancel(task: nat)
    | Take(task: nat)
    | Count
    | Launch
    | Step(i: nat, yes: bool)

  const MAX_RETRIES := 3

  predicate Enabled(s: State, e: Event) {
    match e
    case New => true
    case Enqueue(t) => t in s.arriving
    case Cancel(t) => t < |s.status|
    case Take(t) => t in s.queue && s.hand.None?
    case Count => s.hand.Some? && !s.hand.value.1
    case Launch => s.hand.Some? && s.hand.value.1
    case Step(i, _) => i < |s.dispatches| && s.dispatches[i].pc != Done && s.dispatches[i].task < |s.status|
  }

  function Next(s: State, e: Event): State
    requires Enabled(s, e)
  {
    match e
    case New => s.(status := s.status + [Created], arriving := s.arriving + {|s.status|})
    case Enqueue(t) => s.(arriving := s.arriving - {t}, queue := s.queue + {t})
    case Cancel(t) => s.(status := s.status[t := Canceled])
    case Take(t) => s.(queue := s.queue - {t}, hand := Some((t, false)))
    case Count => s.(hand := Some((s.hand.value.0, true)), numActive := s.numActive + 1)
    case Launch => s.(hand := None, dispatches := s.dispatches + [Dispatch(s.hand.value.0, Start, 0, 0, 0)])
    case Step(i, yes) => Advance(s, i, yes)
  }

  // The status after a compare-and-swap, and whether it succeeded.
  function Swap(s: Status, from: Status, to: Status): (Status, bool) {
    if s == from then (to, true) else (s, false)
  }

  function Advance(s: State, i: nat, yes: bool): State
    requires i < |s.dispatches| && s.dispatches[i].pc != Done && s.dispatches[i].task < |s.status|
  {
    var d := s.dispatches[i];
    var t := d.task;
    match d.pc
    case Start =>
      var (x, won) := Swap(s.status[t], Created, Processing);
      s.(status := s.status[t := x], dispatches := s.dispatches[i := d.(pc := if won then CheckOpen else Report)])
    case CheckOpen =>
      s.(dispatches := s.dispatches[i := if yes then d.(pc := Call, calls := d.calls + 1) else d.(pc := Undo)])
    case Call =>
      s.(dispatches := s.dispatches[i := d.(pc := if yes then Finish else CheckAgain)])
    case CheckAgain =>
      s.(dispatches := s.dispatches[i :=
        if !yes then d.(pc := Undo)
        else if d.retries < MAX_RETRIES then d.(pc := Start, retries := d.retries + 1)
        else d.(pc := Finish)])
    case Undo =>
      var (x, won) := Swap(s.status[t], Processing, Created);
      s.(status := s.status[t := x], dispatches := s.dispatches[i := d.(pc := if won then Requeue else Report)])
    case Requeue =>
      s.(queue := s.queue + {t}, dispatches := s.dispatches[i := d.(pc := Report)])
    case Finish =>
      var (x, _) := Swap(s.status[t], Processing, Finished);
      s.(status := s.status[t := x], dispatches := s.dispatches[i := d.(pc := Report)])
    case Report =>
      s.(numActive := s.numActive - 1, dispatches := s.dispatches[i := d.(pc := Done, reports := d.reports + 1)])
    case Done => s
  }

  // ---- The invariant ----

  // A task waits outside of the dispatches.
  predicate Waiting(s: State, t: nat) {
    t in s.arriving || t in s.queue || (s.hand.Some? && s.hand.value.0 == t)
  }

  predicate Known(s: State) {
    && (forall t :: t in s.arriving ==> t < |s.status|)
    && (forall t :: t in s.queue ==> t < |s.status|)
    && (s.hand.Some? ==> s.hand.value.0 < |s.status|)
    && (forall i :: 0 <= i < |s.dispatches| ==> s.dispatches[i].task < |s.status|)
  }

  // Every task is in at most one place.
  predicate OnePlace(s: State) {
    && s.arriving !! s.queue
    && (s.hand.Some? ==> s.hand.value.0 !in s.arriving && s.hand.value.0 !in s.queue)
    && (forall i :: 0 <= i < |s.dispatches| && s.dispatches[i].Holds() ==> !Waiting(s, s.dispatches[i].task))
    && (forall i, j :: 0 <= i < j < |s.dispatches| && s.dispatches[i].Holds() && s.dispatches[j].Holds()
          ==> s.dispatches[i].task != s.dispatches[j].task)
  }

  // What the status is while a dispatch holds the task, and how often it has called.
  predicate Fits(d: Dispatch, x: Status) {
    && d.retries <= 1 && d.calls <= 1 && d.reports == (if d.pc == Done then 1 else 0)
    && (d.retries == 1 ==> d.pc == Start || !d.Holds())
    && match d.pc
       case Start => (if d.retries == 0 then d.calls == 0 && x != Processing else x != Created) && x != Finished
       case CheckOpen => d.calls == 0 && x != Created && x != Finished
       case Call => x != Created && x != Finished
       case CheckAgain => x != Created && x != Finished
       case Undo => x != Created && x != Finished
       case Requeue => x != Processing && x != Finished
       case Finish => x != Created && x != Finished
       case Report => true
       case Done => true
  }

  predicate AllFit(s: State)
    requires Known(s)
  {
    && (forall t :: 0 <= t < |s.status| && Waiting(s, t) ==> s.status[t] == Created || s.status[t] == Canceled)
    && (forall i :: 0 <= i < |s.dispatches| ==> Fits(s.dispatches[i], s.status[s.dispatches[i].task]))
  }

  // Created tasks are not lost: they wait, or a dispatch is about to claim or to requeue them.
  ghost predicate Kept(s: State)
    requires Known(s)
  {
    forall t :: 0 <= t < |s.status| && s.status[t] == Created ==> Waiting(s, t) || InDispatch(s, t)
  }

  ghost predicate InDispatch(s: State, t: nat) {
    exists i :: 0 <= i < |s.dispatches| && s.dispatches[i].Holds() && s.dispatches[i].task == t
  }

  // Dispatches that have not completed.
  function Live(ds: seq<Dispatch>): nat {
    if ds == [] then 0 else Live(ds[..|ds| - 1]) + if ds[|ds| - 1].pc == Done then 0 else 1
  }

  predicate Counted(s: State) {
    s.numActive == Live(s.dispatches) + if s.hand.Some? && s.hand.value.1 then 1 else 0
  }

  ghost predicate Inv(s: State) {
    Known(s) && OnePlace(s) && AllFit(s) && Kept(s) && Counted(s)
  }

  lemma {:induction false} LiveUpdate(ds: seq<Dispatch>, i: nat, d: Dispatch)
    requires i < |ds|
    ensures Live(ds[i := d]) + (if ds[i].pc == Done then 0 else 1) == Live(ds) + (if d.pc == Done then 0 else 1)
  {
    var n := |ds| - 1;
    if i < n {
      LiveUpdate(ds[..n], i, d);
      assert ds[i := d][..n] == ds[..n][i := d];
    } else {
      assert ds[i := d][..n] == ds[..n];
    }
  }

  lemma {:induction false} KnownNext(s: State, e: Event)
    requires Known(s) && Enabled(s, e)
    ensures Known(Next(s, e))
  {
  }

  lemma {:induction false} OnePlaceNext(s: State, e: Event)
    requires Known(s) && OnePlace(s) && AllFit(s) && Enabled(s, e)
    ensures OnePlace(Next(s, e))
  {
  }

  // The dispatch that moves.
  lemma {:induction false} MovedFits(s: State, i: nat, yes: bool)
    requires Known(s) && AllFit(s) && Enabled(s, Step(i, yes))
    ensures var t := Advance(s, i, yes); Fits(t.dispatches[i], t.status[s.dispatches[i].task])
  {
    assert Fits(s.dispatches[i], s.status[s.dispatches[i].task]);
  }

  // A step touches its own task only, and only while it holds it.
  lemma {:induction false} OthersStay(s: State, i: nat, yes: bool)
    requires Known(s) && Enabled(s, Step(i, yes))
    ensures var d, t := s.dispatches[i], Advance(s, i, yes);
            && |t.status| == |s.status| && |t.dispatches| == |s.dispatches| && t.dispatches[i].task == d.task
            && (forall j :: 0 <= j < |s.dispatches| && j != i ==> t.dispatches[j] == s.dispatches[j])
            && (forall k :: 0 <= k < |s.status| && (k != d.task || !d.Holds()) ==> t.status[k] == s.status[k])
            && (forall k: nat :: Waiting(t, k) ==> Waiting(s, k) || (k == d.task && d.pc == Requeue))
            && (d.pc == Requeue ==> t.status == s.status)
  {
  }

  lemma {:induction false} AllFitStep(s: State, i: nat, yes: bool)
    requires Known(s) && OnePlace(s) && AllFit(s) && Enabled(s, Step(i, yes))
    ensures Known(Advance(s, i, yes)) && AllFit(Advance(s, i, yes))
  {
    KnownNext(s, Step(i, yes));
    OthersStay(s, i, yes);
    MovedFits(s, i, yes);
    hide Advance;
    var d, t := s.dispatches[i], Advance(s, i, yes);
    forall j | 0 <= j < |t.dispatches| ensures Fits(t.dispatches[j], t.status[t.dispatches[j].task]) {
      if j != i {
        assert Fits(s.dispatches[j], s.status[s.dispatches[j].task]);
      }
    }
    forall k | 0 <= k < |t.status| && Waiting(t, k) ensures t.status[k] == Created || t.status[k] == Canceled {
      if k == d.task && d.pc == Requeue {
        assert Fits(d, s.status[k]);
      }
    }
  }

  lemma {:induction false} AllFitNext(s: State, e: Event)
    requires Known(s) && OnePlace(s) && AllFit(s) && Enabled(s, e)
    ensures Known(Next(s, e)) && AllFit(Next(s, e))
  {
    KnownNext(s, e);
    match e
    case Step(i, yes) => AllFitStep(s, i, yes);
    case _ => hide Advance;
  }

  lemma {:induction false} KeptOne(s: State, e: Event, t: nat)
    requires Known(s) && AllFit(s) && Kept(s) && Enabled(s, e)
    requires t < |Next(s, e).status| && Next(s, e).status[t] == Created
    ensures Waiting(Next(s, e), t) || InDispatch(Next(s, e), t)
  {
    var s' := Next(s, e);
    if e == New && t == |s.status| {
      assert t in s'.arriving;
    } else if e == Launch && s.hand.value.0 == t {
      assert s'.dispatches[|s.dispatches|].task == t;
    } else if e.Step? && s.dispatches[e.i].task == t && s.dispatches[e.i].Holds() {
      assert Fits(s.dispatches[e.i], s.status[t]);
      assert s'.dispatches[e.i].task == t && (s.dispatches[e.i].pc == Requeue ==> t in s'.queue);
    } else {
      assert s.status[t] == Created;
      if InDispatch(s, t) {
        var i :| 0 <= i < |s.dispatches| && s.dispatches[i].Holds() && s.dispatches[i].task == t;
        assert s'.dispatches[i] == s.dispatches[i];
      }
    }
  }

  lemma {:induction false} KeptNext(s: State, e: Event)
    requires Known(s) && AllFit(s) && Kept(s) && Enabled(s, e)
    ensures Known(Next(s, e)) && Kept(Next(s, e))
  {
    KnownNext(s, e);
    var s' := Next(s, e);
    forall t | 0 <= t < |s'.status| && s'.status[t] == Created ensures Waiting(s', t) || InDispatch(s', t) {
      KeptOne(s, e, t);
    }
  }

  lemma {:induction false} CountedNext(s: State, e: Event)
    requires Counted(s) && Enabled(s, e)
    ensures Counted(Next(s, e))
  {
    var t := Next(s, e);
    match e
    case Launch =>
      assert t.dispatches[..|t.dispatches| - 1] == s.dispatches;
    case Step(i, _) =>
      LiveUpdate(s.dispatches, i, t.dispatches[i]);
      assert t.dispatches == s.dispatches[i := t.dispatches[i]];
    case _ =>
  }

  lemma {:induction false} InvNext(s: State, e: Event)
    requires Inv(s) && Enabled(s, e)
    ensures Inv(Next(s, e))
  {
    hide Next, Waiting, AllFit, InDispatch;
    KnownNext(s, e);
    OnePlaceNext(s, e);
    AllFitNext(s, e);
    KeptNext(s, e);
    CountedNext(s, e);
  }

  // ---- Runs ----

  predicate Runs(s: State, es: seq<Event>)
    decreases |es|
  {
    es == [] || (Enabled(s, es[0]) && Runs(Next(s, es[0]), es[1..]))
  }

  function After(s: State, es: seq<Event>): State
    requires Runs(s, es)
    decreases |es|
  {
    if es == [] then s else After(Next(s, es[0]), es[1..])
  }

  // Main theorem: the invariant holds in every interleaving.
  lemma {:induction false} RunInv(s: State, es: seq<Event>)
    requires Inv(s) && Runs(s, es)
    ensures Inv(After(s, es))
    decreases |es|
  {
    if es != [] {
      InvNext(s, es[0]);
      RunInv(Next(s, es[0]), es[1..]);
    }
  }

  lemma {:induction false} Reachable(es: seq<Event>)
    requires Runs(INIT, es)
    ensures Inv(After(INIT, es))
  {
    RunInv(INIT, es);
  }

  // numActiveTasks is the number of dispatches not completed, and every dispatch completes exactly once.
  lemma {:induction false} ActiveIsExact(es: seq<Event>)
    requires Runs(INIT, es)
    ensures var s := After(INIT, es);
            && s.numActive == Live(s.dispatches) + (if s.hand.Some? && s.hand.value.1 then 1 else 0)
            && forall i :: 0 <= i < |s.dispatches| ==>
                 s.dispatches[i].reports == if s.dispatches[i].pc == Done then 1 else 0
  {
    Reachable(es);
    var s := After(INIT, es);
    forall i | 0 <= i < |s.dispatches|
      ensures s.dispatches[i].reports == if s.dispatches[i].pc == Done then 1 else 0
    {
      assert Fits(s.dispatches[i], s.status[s.dispatches[i].task]);
    }
  }

  // At most one goroutine is inside the callback of a task, and no dispatch calls it twice.
  lemma {:induction false} OneCaller(es: seq<Event>, i: nat, j: nat)
    requires Runs(INIT, es)
    requires i < |After(INIT, es).dispatches| && j < |After(INIT, es).dispatches|
    ensures var ds := After(INIT, es).dispatches;
            && ds[i].calls <= 1
            && (ds[i].pc == Call && ds[j].pc == Call && ds[i].task == ds[j].task ==> i == j)
  {
    Reachable(es);
    var s := After(INIT, es);
    assert Fits(s.dispatches[i], s.status[s.dispatches[i].task]);
    assert s.dispatches[i].pc == Call ==> s.dispatches[i].Holds();
    assert s.dispatches[j].pc == Call ==> s.dispatches[j].Holds();
  }

  // A created task is never lost.
  lemma {:induction false} CreatedIsKept(es: seq<Event>, t: nat)
    requires Runs(INIT, es)
    requires t < |After(INIT, es).status| && After(INIT, es).status[t] == Created
    ensures Waiting(After(INIT, es), t) || InDispatch(After(INIT, es), t)
  {
    Reachable(es);
  }

  predicate Ended(x: Status) {
    x == Finished || x == Canceled
  }

  // A task that has finished or been canceled is never created or processing again.
  lemma {:induction false} EndedStays(s: State, es: seq<Event>, t: nat)
    requires Runs(s, es) && t < |s.status| && Ended(s.status[t])
    ensures t < |After(s, es).status| && Ended(After(s, es).status[t])
    ensures s.status[t] == Canceled ==> After(s, es).status[t] == Canceled
    decreases |es|
  {
    if es != [] {
      EndedStays(Next(s, es[0]), es[1..], t);
    }
  }

  // ---- Every dispatch ends ----

  // Own operations left, at most.
  function Rank(d: Dispatch): nat {
    match d.pc
    case Start => if d.retries == 0 then 7 else 2
    case CheckOpen => 6
    case Call => 5
    case CheckAgain => 4
    case Undo => 3
    case Requeue => 2
    case Finish => 2
    case Report => 1
    case Done => 0
  }

  function OwnSteps(i: nat, es: seq<Event>): nat {
    if es == [] then 0
    else (if es[0].Step? && es[0].i == i then 1 else 0) + OwnSteps(i, es[1..])
  }

  lemma {:induction false} OwnStepShrinks(s: State, i: nat, yes: bool)
    requires Known(s) && AllFit(s) && Enabled(s, Step(i, yes))
    ensures Rank(Advance(s, i, yes).dispatches[i]) < Rank(s.dispatches[i])
  {
    assert Fits(s.dispatches[i], s.status[s.dispatches[i].task]);
  }

  lemma {:induction false} StepShrinks(s: State, e: Event, i: nat)
    requires Inv(s) && Enabled(s, e) && i < |s.dispatches|
    ensures i < |Next(s, e).dispatches|
    ensures var now := Rank(Next(s, e).dispatches[i]);
            if e.Step? && e.i == i then now < Rank(s.dispatches[i]) else now == Rank(s.dispatches[i])
  {
    hide Rank, Advance, OnePlace, Kept, Counted;
    if e.Step? {
      OthersStay(s, e.i, e.yes);
      if e.i == i {
        OwnStepShrinks(s, i, e.yes);
      }
    }
  }

  // Whatever the others do, a dispatch completes after at most seven operations of its own, and until then
  // its next operation can always be taken.
  lemma {:induction false} DispatchEnds(s: State, es: seq<Event>, i: nat)
    requires Inv(s) && Runs(s, es) && i < |s.dispatches|
    ensures i < |After(s, es).dispatches|
    ensures OwnSteps(i, es) + Rank(After(s, es).dispatches[i]) <= Rank(s.dispatches[i]) <= 7
    ensures forall yes :: Enabled(After(s, es), Step(i, yes)) <==> Rank(After(s, es).dispatches[i]) > 0
    decreases |es|
  {
    RunInv(s, es);
    if es != [] {
      StepShrinks(s, es[0], i);
      InvNext(s, es[0]);
      DispatchEnds(Next(s, es[0]), es[1..], i);
    }
  }

  // ---- Retries ----

  // Nothing will ever process the task again.
  predicate Stuck(s: State, t: nat) {
    && t < |s.status| && (s.status[t] == Processing || s.status[t] == Canceled)
    && !Waiting(s, t)
    && (forall i :: 0 <= i < |s.dispatches| && s.dispatches[i].task == t && s.dispatches[i].Holds() ==>
          s.dispatches[i].pc == Start)
  }

  // The step after a failed callback: when the database has closed (no) the dispatch still acts on the task;
  // when it is open (yes) the task is stuck, for the retry's compare-and-swap expects `created`, but the
  // task is still `processing`.  What the first comes to is in RetryFinishesIff.
  lemma {:induction false} RetrySticks(s: State, i: nat, yes: bool)
    requires Inv(s) && Enabled(s, Step(i, yes)) && s.dispatches[i].pc == CheckAgain
    ensures Stuck(Next(s, Step(i, yes)), s.dispatches[i].task) <==> yes
  {
    var d, t := s.dispatches[i], Next(s, Step(i, yes));
    assert Fits(d, s.status[d.task]);
    OthersStay(s, i, yes);
    assert t.dispatches[i].task == d.task && t.dispatches[i].Holds();
  }

  lemma {:induction false} StuckNext(s: State, e: Event, t: nat)
    requires Known(s) && Stuck(s, t) && Enabled(s, e)
    ensures Stuck(Next(s, e), t)
  {
  }

  // It is never finished, in whatever run follows.
  lemma {:induction false} StuckStays(s: State, es: seq<Event>, t: nat)
    requires Known(s) && Stuck(s, t) && Runs(s, es)
    ensures Stuck(After(s, es), t)
    decreases |es|
  {
    if es != [] {
      StuckNext(s, es[0], t);
      KnownNext(s, es[0]);
      StuckStays(Next(s, es[0]), es[1..], t);
    }
  }

  // ---- A run in which a task gets stuck ----

  const CALL: seq<Event> := [Step(0, true), Step(0, true)]
  const FAIL: seq<Event> := [Step(0, false), Step(0, true)]
  const DISPATCH: seq<Event> := [New, Enqueue(0), Take(0), Count, Launch]
  const FAILING: seq<Event> := DISPATCH + (CALL + FAIL)

  // One task, held by its only dispatch.
  function Only(x: Status, pc: Pc, retries: nat, calls: nat): State {
    State([x], {}, {}, None, [Dispatch(0, pc, retries, calls, 0)], 1)
  }

  lemma {:induction false} RunsBoth(s: State, first: seq<Event>, second: seq<Event>)
    requires Runs(s, first) && Runs(After(s, first), second)
    ensures Runs(s, first + second) && After(s, first + second) == After(After(s, first), second)
    decreases |first|
  {
    if first == [] {
      assert first + second == second;
    } else {
      RunsBoth(Next(s, first[0]), first[1..], second);
      assert (first + second)[1..] == first[1..] + second;
    }
  }

  lemma RunsOne(s: State, e: Event)
    requires Enabled(s, e)
    ensures Runs(s, [e]) && After(s, [e]) == Next(s, e)
  {
    assert [e][1..] == [];
    assert After(Next(s, e), [e][1..]) == Next(s, e);
  }

  lemma {:induction false} RunsTwo(s: State, d: Event, e: Event)
    requires Enabled(s, d) && Enabled(Next(s, d), e)
    ensures Runs(s, [d, e]) && After(s, [d, e]) == Next(Next(s, d), e)
  {
    hide Runs, After, Next;
    RunsOne(s, d);
    RunsOne(Next(s, d), e);
    RunsBoth(s, [d], [e]);
    assert [d] + [e] == [d, e];
  }

  lemma {:induction false} Dispatches()
    ensures Runs(INIT, DISPATCH) && After(INIT, DISPATCH) == Only(Created, Start, 0, 0)
  {
    var queued := State([Created], {}, {0}, None, [], 0);
    var counted := State([Created], {}, {}, Some((0, true)), [], 1);
    assert Next(Next(INIT, New), Enqueue(0)) == queued;
    RunsTwo(INIT, New, Enqueue(0));
    assert Next(Next(queued, Take(0)), Count) == counted;
    RunsTwo(queued, Take(0), Count);
    RunsBoth(INIT, [New, Enqueue(0)], [Take(0), Count]);
    assert Next(counted, Launch) == Only(Created, Start, 0, 0);
    RunsOne(counted, Launch);
    RunsBoth(INIT, [New, Enqueue(0)] + [Take(0), Count], [Launch]);
    assert DISPATCH == [New, Enqueue(0)] + [Take(0), Count] + [Launch];
  }

  lemma {:induction false} Fails(s: State)
    requires s == Only(Created, Start, 0, 0)
    ensures Runs(s, CALL + FAIL) && After(s, CALL + FAIL) == Only(Processing, Start, 1, 1)
  {
    var called := Only(Processing, Call, 0, 1);
    assert Next(s, Step(0, true)) == Only(Processing, CheckOpen, 0, 0);
    assert Next(Next(s, Step(0, true)), Step(0, true)) == called;
    RunsTwo(s, Step(0, true), Step(0, true));
    assert Next(called, Step(0, false)) == Only(Processing, CheckAgain, 0, 1);
    assert Next(Next(called, Step(0, false)), Step(0, true)) == Only(Processing, Start, 1, 1);
    RunsTwo(called, Step(0, false), Step(0, true));
    RunsBoth(s, CALL, FAIL);
  }

  // The task is created, queued and dispatched, and its callback fails while the database is open.
  lemma {:induction false} StickingIsReached()
    ensures Runs(INIT, FAILING) && Stuck(After(INIT, FAILING), 0) && After(INIT, FAILING).status[0] == Processing
  {
    hide Runs, After, Next;
    Dispatches();
    Fails(After(INIT, DISPATCH));
    RunsBoth(INIT, DISPATCH, CALL + FAIL);
  }

  // ---- What can become of a task whose callback has failed ----

  ghost predicate Leads(s: State, u: State) {
    exists es :: Runs(s, es) && After(s, es) == u
  }

  // Some run from here finishes the task.
  ghost predicate CanFinish(s: State, t: nat) {
    exists u :: Leads(s, u) && t < |u.status| && u.status[t] == Finished
  }

  lemma LeadsToItself(s: State)
    ensures Leads(s, s)
  {
    assert Runs(s, []) && After(s, []) == s;
  }

  lemma LeadsOn(s: State, u: State, e: Event)
    requires Leads(s, u) && Enabled(u, e)
    ensures Leads(s, Next(u, e))
  {
    hide Runs, After, Next;
    var es :| Runs(s, es) && After(s, es) == u;
    RunsOne(u, e);
    RunsBoth(s, es, [e]);
  }

  // The scheduler gets rid of the task in its hand.
  lemma {:induction false} HandFrees(s: State, u: State) returns (v: State)
    requires Leads(s, u)
    ensures Leads(s, v) && v.hand.None? && v.status == u.status && v.queue == u.queue
  {
    v := u;
    if v.hand.Some? && !v.hand.value.1 {
      LeadsOn(s, v, Count);
      v := Next(v, Count);
    }
    if v.hand.Some? {
      LeadsOn(s, v, Launch);
      v := Next(v, Launch);
    }
  }

  // A task in the map of its database can be dispatched, ...
  lemma {:induction false} CanBeTaken(s: State, u: State, t: nat) returns (v: State, j: nat)
    requires Leads(s, u) && t in u.queue && t < |u.status|
    ensures Leads(s, v) && v.status == u.status && j < |v.dispatches| && v.dispatches[j] == Dispatch(t, Start, 0, 0, 0)
  {
    hide Leads;
    v := HandFrees(s, u);
    LeadsOn(s, v, Take(t));
    v := Next(v, Take(t));
    LeadsOn(s, v, Count);
    v := Next(v, Count);
    LeadsOn(s, v, Launch);
    v := Next(v, Launch);
    j := |v.dispatches| - 1;
  }

  // ... and, if it is created and all goes well, finished.
  lemma {:induction false} CanBeFinished(s: State, u: State, t: nat)
    requires Leads(s, u) && t in u.queue && t < |u.status| && u.status[t] == Created
    ensures CanFinish(s, t)
  {
    hide Leads;
    var v, j := CanBeTaken(s, u, t);
    var n := 0;
    while n < 4
      invariant n <= 4 && Leads(s, v) && j < |v.dispatches| && v.dispatches[j].task == t < |v.status|
      invariant n < 4 ==> v.dispatches[j].pc == [Start, CheckOpen, Call, Finish][n]
      invariant v.status[t] == if n == 0 then Created else if n < 4 then Processing else Finished
    {
      LeadsOn(s, v, Step(j, true));
      v := Next(v, Step(j, true));
      n := n + 1;
    }
  }

  lemma {:induction false} StuckNeverFinishes(s: State, t: nat)
    requires Known(s) && Stuck(s, t)
    ensures !CanFinish(s, t)
  {
    forall u | Leads(s, u) ensures !(t < |u.status| && u.status[t] == Finished) {
      var es :| Runs(s, es) && After(s, es) == u;
      StuckStays(s, es, t);
    }
  }

  lemma {:induction false} CanceledNeverFinishes(s: State, t: nat)
    requires t < |s.status| && s.status[t] == Canceled
    ensures !CanFinish(s, t)
  {
    forall u | Leads(s, u) ensures !(t < |u.status| && u.status[t] == Finished) {
      var es :| Runs(s, es) && After(s, es) == u;
      EndedStays(s, es, t);
    }
  }

  // A processing task whose dispatch is to be undone goes back to the map.
  lemma {:induction false} UndoneLeads(s: State, u: State, i: nat, t: nat)
    requires Leads(s, u) && i < |u.dispatches| && u.dispatches[i].pc == Undo && u.dispatches[i].task == t
    requires t < |u.status| && u.status[t] == Processing
    ensures CanFinish(s, t)
  {
    hide Leads;
    LeadsOn(s, u, Step(i, true));
    var v := Next(u, Step(i, true));
    LeadsOn(s, v, Step(i, true));
    CanBeFinished(s, Next(v, Step(i, true)), t);
  }

  lemma {:induction false} UndoneCanFinish(s: State, i: nat, t: nat)
    requires i < |s.dispatches| && s.dispatches[i].pc == Undo && s.dispatches[i].task == t
    requires t < |s.status| && s.status[t] == Processing
    ensures CanFinish(s, t)
  {
    LeadsToItself(s);
    UndoneLeads(s, s, i, t);
  }

  // The exact condition: after a failed callback some run finishes the task if and only if the database is
  // found closed and nobody has canceled the task meanwhile.
  lemma {:induction false} RetryFinishesIff(s: State, i: nat, yes: bool)
    requires Inv(s) && Enabled(s, Step(i, yes)) && s.dispatches[i].pc == CheckAgain
    ensures var t := s.dispatches[i].task;
            CanFinish(Next(s, Step(i, yes)), t) <==> !yes && s.status[t] == Processing
  {
    var t, u := s.dispatches[i].task, Next(s, Step(i, yes));
    hide CanFinish;
    KnownNext(s, Step(i, yes));
    assert Fits(s.dispatches[i], s.status[t]);
    if yes {
      RetrySticks(s, i, yes);
      StuckNeverFinishes(u, t);
    } else if s.status[t] == Processing {
      UndoneCanFinish(u, i, t);
    } else {
      CanceledNeverFinishes(u, t);
    }
  }

  // A dispatch has claimed the task and not settled it yet.
  predicate Claims(d: Dispatch, t: nat) {
    d.task == t && d.Holds() && d.pc != Start && d.pc != Requeue
  }

  ghost predicate Claimed(s: State, t: nat) {
    exists i :: 0 <= i < |s.dispatches| && Claims(s.dispatches[i], t)
  }

  // The retry of a failed callback, which cannot claim the task again.
  ghost predicate Retried(s: State, t: nat) {
    exists i :: 0 <= i < |s.dispatches| && s.dispatches[i].task == t && s.dispatches[i].retries > 0
  }

  // A processing task is claimed, unless its callback has failed while the database was open.
  ghost predicate ProcessingOk(s: State) {
    forall t :: 0 <= t < |s.status| && s.status[t] == Processing ==> Claimed(s, t) || Retried(s, t)
  }

  // The step of a dispatch that holds the task.
  lemma {:induction false} OwnStepClaims(s: State, i: nat, yes: bool)
    requires Known(s) && AllFit(s) && Enabled(s, Step(i, yes)) && s.dispatches[i].Holds()
    ensures var t, u := s.dispatches[i].task, Advance(s, i, yes);
            u.status[t] == Processing ==> Claims(u.dispatches[i], t) || u.dispatches[i].retries > 0
  {
    assert Fits(s.dispatches[i], s.status[s.dispatches[i].task]);
  }

  lemma RetriedStays(s: State, e: Event, t: nat)
    requires Enabled(s, e) && Retried(s, t)
    ensures Retried(Next(s, e), t)
  {
    var i :| 0 <= i < |s.dispatches| && s.dispatches[i].task == t && s.dispatches[i].retries > 0;
    assert Next(s, e).dispatches[i].task == t && Next(s, e).dispatches[i].retries > 0;
  }

  lemma {:induction false} ClaimedStays(s: State, e: Event, i: nat, t: nat)
    requires Known(s) && OnePlace(s) && Enabled(s, e) && i < |s.dispatches| && Claims(s.dispatches[i], t)
    requires e.Step? ==> e.i != i
    ensures Claimed(Next(s, e), t)
  {
    if e.Step? {
      OthersStay(s, e.i, e.yes);
    }
    hide Advance, OnePlace;
    assert Next(s, e).dispatches[i] == s.dispatches[i];
  }

  lemma {:induction false} ProcessingOne(s: State, e: Event, t: nat)
    requires Inv(s) && ProcessingOk(s) && Enabled(s, e)
    requires t < |Next(s, e).status| && Next(s, e).status[t] == Processing
    ensures Claimed(Next(s, e), t) || Retried(Next(s, e), t)
  {
    if e.Step? && s.dispatches[e.i].task == t && s.dispatches[e.i].Holds() {
      OwnStepClaims(s, e.i, e.yes);
    } else {
      WasProcessing(s, e, t);
      hide Next, Claims;
      if Retried(s, t) {
        RetriedStays(s, e, t);
      } else {
        var i :| 0 <= i < |s.dispatches| && Claims(s.dispatches[i], t);
        ClaimsIs(s.dispatches[i], t);
        ClaimedStays(s, e, i, t);
      }
    }
  }

  lemma ClaimsIs(d: Dispatch, t: nat)
    requires Claims(d, t)
    ensures d.task == t && d.Holds()
  {
  }

  lemma {:induction false} WasProcessing(s: State, e: Event, t: nat)
    requires Known(s) && Enabled(s, e) && t < |Next(s, e).status| && Next(s, e).status[t] == Processing
    requires !(e.Step? && s.dispatches[e.i].task == t && s.dispatches[e.i].Holds())
    ensures t < |s.status| && s.status[t] == Processing
  {
  }

  // In every interleaving, a task is processing only while a dispatch has claimed it, or after a failed callback
  // whose database was open.
  lemma {:induction false} ProcessingIsClaimed(s: State, es: seq<Event>)
    requires Inv(s) && ProcessingOk(s) && Runs(s, es)
    ensures ProcessingOk(After(s, es))
    decreases |es|
  {
    if es != [] {
      hide ProcessingOk;
      var u := Next(s, es[0]);
      InvNext(s, es[0]);
      assert ProcessingOk(u) by {
        ProcessingNext(s, es[0]);
      }
      ProcessingIsClaimed(u, es[1..]);
    }
  }

  lemma {:induction false} ProcessingNext(s: State, e: Event)
    requires Inv(s) && ProcessingOk(s) && Enabled(s, e)
    ensures ProcessingOk(Next(s, e))
  {
    forall t | 0 <= t < |Next(s, e).status| && Next(s, e).status[t] == Processing
      ensures Claimed(Next(s, e), t) || Retried(Next(s, e), t)
    {
      ProcessingOne(s, e, t);
    }
  }

  // ---- Which tasks can still be finished ----

  // A dispatch that is about to claim a created task, or has claimed it, can finish it.
  lemma {:induction false} DispatchFinishes(s: State, u: State, i: nat, t: nat)
    requires Leads(s, u) && i < |u.dispatches| && u.dispatches[i].task == t < |u.status|
    requires match u.dispatches[i].pc
             case Start => u.status[t] == Created
             case CheckOpen => u.status[t] == Processing
             case Call => u.status[t] == Processing
             case Finish => u.status[t] == Processing
             case _ => false
    ensures CanFinish(s, t)
    decreases match u.dispatches[i].pc case Start => 3 case CheckOpen => 2 case Call => 1 case _ => 0
  {
    hide Leads;
    LeadsOn(s, u, Step(i, true));
    var v := Next(u, Step(i, true));
    if u.dispatches[i].pc != Finish {
      DispatchFinishes(s, v, i, t);
    }
  }

  lemma {:induction false} ClaimedCanFinish(s: State, i: nat, t: nat)
    requires Known(s) && i < |s.dispatches| && Claims(s.dispatches[i], t) && t < |s.status| && s.status[t] == Processing
    ensures CanFinish(s, t)
  {
    LeadsToItself(s);
    hide Leads, CanFinish;
    match s.dispatches[i].pc
    case Undo => UndoneCanFinish(s, i, t);
    case CheckAgain =>
      LeadsOn(s, s, Step(i, false));
      UndoneLeads(s, Next(s, Step(i, false)), i, t);
    case _ => DispatchFinishes(s, s, i, t);
  }

  lemma {:induction false} CreatedCanFinish(s: State, t: nat)
    requires Inv(s) && t < |s.status| && s.status[t] == Created
    ensures CanFinish(s, t)
  {
    LeadsToItself(s);
    assert Waiting(s, t) || InDispatch(s, t);
    hide Leads, CanFinish, OnePlace, Kept, Counted;
    if t in s.queue {
      CanBeFinished(s, s, t);
    } else if t in s.arriving {
      LeadsOn(s, s, Enqueue(t));
      CanBeFinished(s, Next(s, Enqueue(t)), t);
    } else if s.hand.Some? && s.hand.value.0 == t {
      HandCanFinish(s, t);
    } else {
      var i :| 0 <= i < |s.dispatches| && s.dispatches[i].Holds() && s.dispatches[i].task == t;
      assert Fits(s.dispatches[i], s.status[t]);
      if s.dispatches[i].pc == Requeue {
        LeadsOn(s, s, Step(i, true));
        CanBeFinished(s, Next(s, Step(i, true)), t);
      } else {
        DispatchFinishes(s, s, i, t);
      }
    }
  }

  lemma {:induction false} HandCanFinish(s: State, t: nat)
    requires t < |s.status| && s.status[t] == Created && s.hand.Some? && s.hand.value.0 == t
    ensures CanFinish(s, t)
  {
    LeadsToItself(s);
    hide Leads;
    var u := s;
    if !s.hand.value.1 {
      LeadsOn(s, s, Count);
      u := Next(s, Count);
    }
    LeadsOn(s, u, Launch);
    var v := Next(u, Launch);
    DispatchFinishes(s, v, |v.dispatches| - 1, t);
  }

  // Main theorem: some run finishes a task if and only if it has finished, or it is created, or it is processing
  // and claimed.
  lemma {:induction false} FinishableIff(s: State, t: nat)
    requires Inv(s) && t < |s.status|
    ensures CanFinish(s, t)
       <==> s.status[t] == Finished || s.status[t] == Created || (s.status[t] == Processing && Claimed(s, t))
  {
    match s.status[t]
    case Finished => LeadsToItself(s);
    case Created => CreatedCanFinish(s, t);
    case Canceled => CanceledNeverFinishes(s, t);
    case Processing =>
      if i :| 0 <= i < |s.dispatches| && Claims(s.dispatches[i], t) {
        ClaimedCanFinish(s, i, t);
      } else {
        UnclaimedIsStuck(s, t);
        StuckNeverFinishes(s, t);
      }
  }

  lemma {:induction false} UnclaimedIsStuck(s: State, t: nat)
    requires Inv(s) && t < |s.status| && s.status[t] == Processing && !Claimed(s, t)
    ensures Stuck(s, t)
  {
    hide Kept, Counted, OnePlace;
    forall i | 0 <= i < |s.dispatches| && s.dispatches[i].task == t && s.dispatches[i].Holds()
      ensures s.dispatches[i].pc == Start
    {
      assert Fits(s.dispatches[i], s.status[t]) && !Claims(s.dispatches[i], t);
    }
  }

  // A database found closed before the callback costs the task nothing: it can be finished unless canceled.
  lemma {:induction false} ClosedFinishesIff(s: State, i: nat)
    requires Inv(s) && Enabled(s, Step(i, false)) && s.dispatches[i].pc == CheckOpen
    ensures var t := s.dispatches[i].task;
            CanFinish(Next(s, Step(i, false)), t) <==> s.status[t] == Processing
  {
    var t, u := s.dispatches[i].task, Next(s, Step(i, false));
    hide CanFinish;
    assert Fits(s.dispatches[i], s.status[t]);
    if s.status[t] == Processing {
      UndoneCanFinish(u, i, t);
    } else {
      CanceledNeverFinishes(u, t);
    }
  }

  // ---- Cancel ----

  // No dispatch puts the task back.
  predicate Out(s: State, t: nat) {
    && !Waiting(s, t)
    && forall i :: 0 <= i < |s.dispatches| && s.dispatches[i].task == t ==> s.dispatches[i].pc != Requeue
  }

  lemma {:induction false} OutNext(s: State, e: Event, t: nat)
    requires Known(s) && Enabled(s, e) && t < |s.status| && s.status[t] == Canceled && Out(s, t)
    ensures t < |Next(s, e).status| && Next(s, e).status[t] == Canceled && Out(Next(s, e), t)
  {
  }

  // A canceled task stays canceled, and once its dispatch has it, it never comes back into a map.
  lemma {:induction false} CancelIsFinal(s: State, es: seq<Event>, t: nat)
    requires Known(s) && Enabled(s, Cancel(t)) && Runs(Next(s, Cancel(t)), es)
    ensures var u := After(Next(s, Cancel(t)), es);
            t < |u.status| && u.status[t] == Canceled && (Out(s, t) ==> Out(u, t))
  {
    var v := Next(s, Cancel(t));
    EndedStays(v, es, t);
    if Out(s, t) {
      StaysOut(v, es, t);
    }
  }

  lemma {:induction false} StaysOut(s: State, es: seq<Event>, t: nat)
    requires Known(s) && Runs(s, es) && t < |s.status| && s.status[t] == Canceled && Out(s, t)
    ensures Out(After(s, es), t)
    decreases |es|
  {
    if es != [] {
      OutNext(s, es[0], t);
      KnownNext(s, es[0]);
      StaysOut(Next(s, es[0]), es[1..], t);
    }
  }

  // No dispatch has got past claiming the task.
  predicate Unclaimed(s: State, t: nat) {
    forall i :: 0 <= i < |s.dispatches| ==> !Claims(s.dispatches[i], t)
  }

  function CallsOf(s: State, i: nat): nat {
    if i < |s.dispatches| then s.dispatches[i].calls else 0
  }

  lemma {:induction false} NoCallNext(s: State, e: Event, t: nat)
    requires Known(s) && Enabled(s, e) && t < |s.status| && s.status[t] == Canceled && Unclaimed(s, t)
    ensures t < |Next(s, e).status| && Next(s, e).status[t] == Canceled && Unclaimed(Next(s, e), t)
    ensures forall i: nat :: i < |Next(s, e).dispatches| && Next(s, e).dispatches[i].task == t ==>
              CallsOf(Next(s, e), i) == CallsOf(s, i) && (i < |s.dispatches| ==> s.dispatches[i].task == t)
  {
  }

  // The callback of a canceled task that no dispatch has claimed is never called, in whatever follows.
  lemma {:induction false} CanceledIsNotCalled(s: State, es: seq<Event>, t: nat)
    requires Known(s) && Runs(s, es) && t < |s.status| && s.status[t] == Canceled && Unclaimed(s, t)
    ensures forall i: nat :: i < |After(s, es).dispatches| && After(s, es).dispatches[i].task == t ==>
              CallsOf(After(s, es), i) == CallsOf(s, i) && (i < |s.dispatches| ==> s.dispatches[i].task == t)
    decreases |es|
  {
    if es != [] {
      NoCallNext(s, es[0], t);
      KnownNext(s, es[0]);
      CanceledIsNotCalled(Next(s, es[0]), es[1..], t);
      NewDispatch(s, es[0], t);
    }
  }

  // Dispatches are only added.
  lemma NewDispatch(s: State, e: Event, t: nat)
    requires Enabled(s, e)
    ensures |s.dispatches| <= |Next(s, e).dispatches|
    ensures forall i :: 0 <= i < |s.dispatches| ==> Next(s, e).dispatches[i].task == s.dispatches[i].task
  {
  }
}
