// One dispatch round of the task scheduler (sqlite/storage_scheduler.go) over the task maps of the databases
// (sqlite/storage_db.go).
module Scheduler {

  // ---- The quota ----

  function Min(a: int, b: int): int {
    if a < b then a else b
  }

  function Max(a: int, b: int): int {
    if a > b then a else b
  }

  // Tasks a database may start: its share of the free places, in integer arithmetic.
  function Quota(numTasks: nat, totalTasks: nat, free: nat): nat
    requires totalTasks > 0
  {
    Max(1, numTasks / totalTasks * free)
  }

  // The division leaves no shares: a database that holds every task gets all places, any other gets one.
  lemma QuotaIsAllOrOne(numTasks: nat, totalTasks: nat, free: nat)
    requires 0 < totalTasks && numTasks <= totalTasks && 0 < free
    ensures Quota(numTasks, totalTasks, free) == if numTasks == totalTasks then free else 1
  {
    if numTasks < totalTasks {
      assert numTasks / totalTasks == 0;
    } else {
      assert numTasks / totalTasks == 1;
    }
  }

  // A database as the round sees it.
  datatype View = View(open: bool, tasks: nat)

  predicate Busy(v: View) {
    v.open && v.tasks > 0
  }

  function Total(vs: seq<View>): nat {
    if vs == [] then 0 else Total(vs[..|vs| - 1]) + vs[|vs| - 1].tasks
  }

  function CountBusy(vs: seq<View>): nat {
    if vs == [] then 0 else CountBusy(vs[..|vs| - 1]) + if Busy(vs[|vs| - 1]) then 1 else 0
  }

  // Tasks a round starts on one database, and on all.
  function Started(v: View, total: nat, free: int): nat
    requires v.tasks <= total
  {
    if !Busy(v) || free <= 0 then 0 else Min(v.tasks, Quota(v.tasks, total, free))
  }

  function Sum(ns: seq<nat>): nat {
    if ns == [] then 0 else Sum(ns[..|ns| - 1]) + ns[|ns| - 1]
  }

  lemma {:induction false} TotalBounds(vs: seq<View>, i: nat)
    requires i < |vs|
    ensures vs[i].tasks <= Total(vs)
    ensures vs[i].tasks == Total(vs) ==> forall j :: 0 <= j < |vs| && j != i ==> vs[j].tasks == 0
  {
    var n := |vs| - 1;
    if i < n {
      TotalBounds(vs[..n], i);
    } else if vs[i].tasks == Total(vs) {
      forall j | 0 <= j < n ensures vs[j].tasks == 0 {
        TotalBounds(vs[..n], j);
      }
    }
  }

  ghost function StartedAll(vs: seq<View>, free: int): (ns: seq<nat>)
    ensures |ns| == |vs|
  {
    seq(|vs|, i requires 0 <= i < |vs| => (TotalBounds(vs, i); Started(vs[i], Total(vs), free)))
  }

  // Where every database starts one task if it has any, the sum counts those that do.
  lemma {:induction false} SumOfOnes(vs: seq<View>, ns: seq<nat>)
    requires |vs| == |ns| && forall i :: 0 <= i < |vs| ==> ns[i] == if Busy(vs[i]) then 1 else 0
    ensures Sum(ns) == CountBusy(vs)
  {
    if vs != [] {
      SumOfOnes(vs[..|vs| - 1], ns[..|ns| - 1]);
    }
  }

  lemma {:induction false} SumOfOne(ns: seq<nat>, i: nat)
    requires i < |ns| && forall j :: 0 <= j < |ns| && j != i ==> ns[j] == 0
    ensures Sum(ns) == ns[i]
  {
    var n := |ns| - 1;
    if i < n {
      SumOfOne(ns[..n], i);
    } else {
      SumOfNone(ns[..n]);
    }
  }

  lemma {:induction false} SumOfNone(ns: seq<nat>)
    requires forall j :: 0 <= j < |ns| ==> ns[j] == 0
    ensures Sum(ns) == 0
  {
    if ns != [] {
      SumOfNone(ns[..|ns| - 1]);
    }
  }

  lemma {:induction false} CountBusyOne(vs: seq<View>, i: nat)
    requires i < |vs| && forall j :: 0 <= j < |vs| && j != i ==> vs[j].tasks == 0
    ensures CountBusy(vs) == if Busy(vs[i]) then 1 else 0
  {
    var ns: seq<nat> := seq(|vs|, k requires 0 <= k < |vs| => if Busy(vs[k]) then 1 else 0);
    SumOfOnes(vs, ns);
    SumOfOne(ns, i);
  }

  // What a round starts on a database: nothing if it is closed, has no task, or no place is free; one task if
  // another database, open or closed, has tasks too; else all its tasks for which there are places.
  lemma {:induction false} StartedIs(vs: seq<View>, free: int, i: nat)
    requires i < |vs|
    ensures StartedAll(vs, free)[i] ==
            if !vs[i].open || vs[i].tasks == 0 || free <= 0 then 0
            else if exists j :: 0 <= j < |vs| && j != i && vs[j].tasks > 0 then 1
            else if vs[i].tasks <= free then vs[i].tasks else free
  {
    TotalBounds(vs, i);
    if Busy(vs[i]) && free > 0 {
      QuotaIsAllOrOne(vs[i].tasks, Total(vs), free);
      if forall j :: 0 <= j < |vs| && j != i ==> vs[j].tasks == 0 {
        TotalOfOne(vs, i);
      }
    }
  }

  lemma {:induction false} TotalOfOne(vs: seq<View>, i: nat)
    requires i < |vs| && forall j :: 0 <= j < |vs| && j != i ==> vs[j].tasks == 0
    ensures Total(vs) == vs[i].tasks
  {
    var ns: seq<nat> := seq(|vs|, k requires 0 <= k < |vs| => vs[k].tasks);
    TotalIsSum(vs, ns);
    SumOfOne(ns, i);
  }

  lemma {:induction false} TotalIsSum(vs: seq<View>, ns: seq<nat>)
    requires |vs| == |ns| && forall i :: 0 <= i < |vs| ==> ns[i] == vs[i].tasks
    ensures Sum(ns) == Total(vs)
  {
    if vs != [] {
      TotalIsSum(vs[..|vs| - 1], ns[..|ns| - 1]);
    }
  }

  // Main theorem: without a free place a round starts nothing; with free places it starts more tasks than those
  // exactly when more open databases have tasks.
  lemma {:induction false} QuotaIsKeptIff(vs: seq<View>, free: int)
    ensures free <= 0 ==> Sum(StartedAll(vs, free)) == 0
    ensures free > 0 ==> (Sum(StartedAll(vs, free)) <= free <==> CountBusy(vs) <= free)
    ensures free > 0 && (forall i :: 0 <= i < |vs| && Busy(vs[i]) ==> vs[i].tasks < Total(vs))
            ==> Sum(StartedAll(vs, free)) == CountBusy(vs)
  {
    var ns := StartedAll(vs, free);
    if free <= 0 {
      SumOfNone(ns);
    } else if i :| 0 <= i < |vs| && Busy(vs[i]) && vs[i].tasks == Total(vs) {
      TotalBounds(vs, i);
      QuotaIsAllOrOne(vs[i].tasks, Total(vs), free);
      SumOfOne(ns, i);
      CountBusyOne(vs, i);
    } else {
      forall i | 0 <= i < |vs| ensures ns[i] == if Busy(vs[i]) then 1 else 0 {
        TotalBounds(vs, i);
        if Busy(vs[i]) {
          QuotaIsAllOrOne(vs[i].tasks, Total(vs), free);
        }
      }
      SumOfOnes(vs, ns);
    }
  }

  // Two busy databases and one free place: two tasks start.
  lemma QuotaCanBeExceeded()
    ensures Sum(StartedAll([View(true, 1), View(true, 1)], 1)) == 2
  {
    var v := View(true, 1);
    var vs := [v, v];
    assert [v][..0] == [] && vs[..|vs| - 1] == [v];
    assert Total(vs) == Total([v]) + 1 && CountBusy(vs) == CountBusy([v]) + 1;
    QuotaIsKeptIff(vs, 1);
  }

  // ---- The code ----

  datatype TaskId = TaskId(n: int)

  // The task side of storageDb: the keys of taskMap, and the counter kept beside it.
  class TaskDb {
    var open: bool
    var taskMap: set<TaskId>
    var taskCount: int

    constructor ()
      ensures Valid() && taskMap == {} && !open
    {
      open, taskMap, taskCount := false, {}, 0;
    }

    predicate Valid()
      reads this
    {
      taskCount == |taskMap|
    }

    // Task ids come from a counter, so none is in the map yet.
    method Schedule(id: TaskId)
      requires Valid() && id !in taskMap
      modifies this
      ensures Valid() && taskMap == old(taskMap) + {id} && open == old(open)
    {
      taskMap := taskMap + {id};
      taskCount := taskCount + 1;
    }

    method Cancel(id: TaskId) returns (loaded: bool)
      requires Valid()
      modifies this
      ensures Valid() && open == old(open)
      ensures loaded == (id in old(taskMap)) && taskMap == old(taskMap) - {id}
    {
      loaded := id in taskMap;
      taskMap := taskMap - {id};
      if loaded {
        taskCount := taskCount - 1;
      }
    }

    // execute with the closure of executeDbTasks: the map is ranged over in any order until the closure has
    // seen maxForThisDb tasks.
    method Execute(maxForThisDb: int) returns (taken: set<TaskId>)
      requires Valid()
      modifies this
      ensures Valid() && open == old(open)
      ensures |taken| == Min(|old(taskMap)|, Max(1, maxForThisDb))
      ensures taken <= old(taskMap) && taskMap == old(taskMap) - taken
    {
      taken := {};
      var i, more := 0, true;
      while more && taskMap != {}
        invariant Valid() && open == old(open)
        invariant i == |taken| && |taskMap| + |taken| == |old(taskMap)|
        invariant more <==> i == 0 || i < maxForThisDb
        invariant i <= Max(1, maxForThisDb)
        invariant taken <= old(taskMap) && taskMap == old(taskMap) - taken
        decreases |taskMap|
      {
        var id :| id in taskMap;
        taskCount := taskCount - 1;
        taskMap := taskMap - {id};
        i := i + 1;
        more := i < maxForThisDb;
        taken := taken + {id};
      }
    }
  }

  ghost function Views(dbs: seq<TaskDb>): (vs: seq<View>)
    reads dbs
    ensures |vs| == |dbs|
    ensures forall i :: 0 <= i < |dbs| ==> vs[i] == View(dbs[i].open, |dbs[i].taskMap|)
  {
    seq(|dbs|, i requires 0 <= i < |dbs| reads dbs => View(dbs[i].open, |dbs[i].taskMap|))
  }

  lemma TotalOfMore(vs: seq<View>, i: nat)
    requires i < |vs|
    ensures Total(vs[..i + 1]) == Total(vs[..i]) + vs[i].tasks
  {
    assert vs[..i + 1][..i] == vs[..i];
  }

  method CountTasks(dbs: seq<TaskDb>) returns (totalTasks: int)
    requires forall i :: 0 <= i < |dbs| ==> dbs[i].Valid()
    ensures totalTasks == Total(Views(dbs))
  {
    ghost var vs := Views(dbs);
    totalTasks := 0;
    var i := 0;
    while i < |dbs|
      invariant i <= |dbs| && totalTasks == Total(vs[..i])
    {
      assert dbs[i].Valid();
      totalTasks := totalTasks + dbs[i].taskCount;
      TotalOfMore(vs, i);
      i := i + 1;
    }
    assert vs[..i] == vs;
  }

  lemma StartedAt(vs: seq<View>, i: nat, free: int)
    requires i < |vs|
    ensures vs[i].tasks <= Total(vs) && StartedAll(vs, free)[i] == Started(vs[i], Total(vs), free)
  {
    TotalBounds(vs, i);
  }

  ghost function Maps(dbs: seq<TaskDb>): (ms: seq<set<TaskId>>)
    reads dbs
    ensures |ms| == |dbs| && forall i :: 0 <= i < |dbs| ==> ms[i] == dbs[i].taskMap
  {
    seq(|dbs|, i requires 0 <= i < |dbs| reads dbs => dbs[i].taskMap)
  }

  // A database the loop has not come to, and one from which it has taken n tasks.
  ghost predicate Untouched(db: TaskDb, v: View, before: set<TaskId>)
    reads db
  {
    db.Valid() && db.open == v.open && db.taskMap == before && |before| == v.tasks
  }

  ghost predicate Served(db: TaskDb, v: View, before: set<TaskId>, taken: set<TaskId>, n: nat)
    reads db
  {
    db.Valid() && db.open == v.open && |taken| == n && taken <= before && db.taskMap == before - taken
  }

  // One database of that loop.
  method StartTasks(db: TaskDb, totalTasks: int, qtMaxTasks: int, ghost v: View, ghost before: set<TaskId>)
      returns (ids: set<TaskId>)
    requires Untouched(db, v, before) && v.tasks <= totalTasks
    modifies db
    ensures Served(db, v, before, ids, Started(v, totalTasks, qtMaxTasks))
  {
    ids := {};
    if totalTasks > 0 && qtMaxTasks > 0 && db.open && db.taskCount > 0 {
      var maxForThisDb := Max(1, db.taskCount / totalTasks * qtMaxTasks);
      ids := db.Execute(maxForThisDb);
    }
  }

  // The loop has come to database i: what it has taken from those before is in `taken`.
  ghost predicate Progress(dbs: seq<TaskDb>, i: nat, vs: seq<View>, before: seq<set<TaskId>>, ns: seq<nat>,
                           taken: seq<set<TaskId>>)
    reads dbs
  {
    && |vs| == |before| == |ns| == |dbs| && |taken| == i <= |dbs|
    && (forall j, k :: 0 <= j < k < |dbs| ==> dbs[j] != dbs[k])
    && (forall j :: i <= j < |dbs| ==> Untouched(dbs[j], vs[j], before[j]))
    && (forall j :: 0 <= j < i ==> Served(dbs[j], vs[j], before[j], taken[j], ns[j]))
  }

  lemma NoneServed(dbs: seq<TaskDb>, free: int)
    requires forall i :: 0 <= i < |dbs| ==> dbs[i].Valid()
    requires forall i, j :: 0 <= i < j < |dbs| ==> dbs[i] != dbs[j]
    ensures Progress(dbs, 0, Views(dbs), Maps(dbs), StartedAll(Views(dbs), free), [])
  {
  }

  lemma AllServed(dbs: seq<TaskDb>, vs: seq<View>, before: seq<set<TaskId>>, ns: seq<nat>, taken: seq<set<TaskId>>)
    requires Progress(dbs, |dbs|, vs, before, ns, taken)
    ensures |taken| == |dbs| && |before| == |dbs| && |ns| == |dbs|
    ensures forall j :: 0 <= j < |dbs| ==> Served(dbs[j], vs[j], before[j], taken[j], ns[j])
  {
  }

  lemma NoneTaken(dbs: seq<TaskDb>, vs: seq<View>, before: seq<set<TaskId>>, ns: seq<nat>, taken: seq<set<TaskId>>,
                  free: int)
    requires Progress(dbs, |dbs|, vs, before, ns, taken) && ns == StartedAll(vs, free) && free <= 0
    ensures |before| == |taken| == |dbs|
    ensures forall i :: 0 <= i < |dbs| ==> taken[i] == {} && dbs[i].taskMap == before[i]
  {
    forall i | 0 <= i < |dbs| ensures taken[i] == {} && dbs[i].taskMap == before[i] {
      StartedIs(vs, free, i);
      assert Served(dbs[i], vs[i], before[i], taken[i], ns[i]);
    }
  }

  // One pass of that loop.
  method ServeNext(dbs: seq<TaskDb>, i: nat, totalTasks: int, qtMaxTasks: int, taken: seq<set<TaskId>>,
                   ghost vs: seq<View>, ghost before: seq<set<TaskId>>, ghost ns: seq<nat>)
      returns (more: seq<set<TaskId>>)
    requires Progress(dbs, i, vs, before, ns, taken) && i < |dbs|
    requires vs[i].tasks <= totalTasks && ns[i] == Started(vs[i], totalTasks, qtMaxTasks)
    modifies dbs[i]
    ensures Progress(dbs, i + 1, vs, before, ns, more)
  {
    hide Untouched, Served, Started;
    var ids := StartTasks(dbs[i], totalTasks, qtMaxTasks, vs[i], before[i]);
    more := taken + [ids];
    forall j | 0 <= j < i + 1 ensures Served(dbs[j], vs[j], before[j], more[j], ns[j]) {
      assert j < i ==> more[j] == taken[j] && old(Served(dbs[j], vs[j], before[j], taken[j], ns[j]));
    }
    forall j | i + 1 <= j < |dbs| ensures Untouched(dbs[j], vs[j], before[j]) {
      assert old(Untouched(dbs[j], vs[j], before[j]));
    }
  }

  // The dispatching part of doRoutineScheduledTasks: taken[i] are the tasks started on dbs[i].
  method Round(dbs: seq<TaskDb>, maxRunningTasks: int, numActiveTasks: int) returns (taken: seq<set<TaskId>>)
    requires forall i :: 0 <= i < |dbs| ==> dbs[i].Valid()
    requires forall i, j :: 0 <= i < j < |dbs| ==> dbs[i] != dbs[j]
    modifies dbs
    ensures |taken| == |dbs|
    ensures var vs, before := old(Views(dbs)), old(Maps(dbs));
            forall i :: 0 <= i < |dbs| ==>
              Served(dbs[i], vs[i], before[i], taken[i], StartedAll(vs, maxRunningTasks - numActiveTasks)[i])
    ensures numActiveTasks >= maxRunningTasks ==>
              forall i :: 0 <= i < |dbs| ==> taken[i] == {} && dbs[i].taskMap == old(dbs[i].taskMap)
  {
    hide *;
    var totalTasks := CountTasks(dbs);
    ghost var vs, before := Views(dbs), Maps(dbs);
    var qtMaxTasks := maxRunningTasks - numActiveTasks;
    ghost var ns := StartedAll(vs, qtMaxTasks);
    taken := [];
    var i := 0;
    NoneServed(dbs, qtMaxTasks);
    while i < |dbs|
      invariant i <= |dbs| && Progress(dbs, i, vs, before, ns, taken)
    {
      StartedAt(vs, i, qtMaxTasks);
      taken := ServeNext(dbs, i, totalTasks, qtMaxTasks, taken, vs, before, ns);
      i := i + 1;
    }
    AllServed(dbs, vs, before, ns, taken);
    if numActiveTasks >= maxRunningTasks {
      NoneTaken(dbs, vs, before, ns, taken, qtMaxTasks);
    }
  }
}
