// Keyset pagination over several databases (sqlite/api_entries.go).
module Paging {
  import opened Options

  datatype Key = Key(epoch: int, nanos: int)

  predicate Less(a: Key, b: Key) {
    a.epoch < b.epoch || (a.epoch == b.epoch && a.nanos < b.nanos)
  }

  datatype Row = Row(key: Key, level: int, content: string)

  // A database file: its rows in key order.  A query on a broken one fails.
  datatype Db = Db(open: bool, broken: bool, epochStart: int, epochEnd: int, rows: seq<Row>)

  datatype Direction = Older | Newer

  // EntriesInput; `wanted` stands for the level and expression clauses, `now` for the clock.
  datatype Input = Input(direction: Direction, epochStart: int, nanosStart: int, maxResult: int, wanted: Row -> bool,
                         now: int)

  datatype Output = Output(entries: seq<Row>, scheduled: Option<Db>)

  datatype Result = Ok(output: Output) | Err

  // ---- One database ----

  function Bound(q: Input): Key {
    Key(if q.epochStart == 0 then q.now else q.epochStart, q.nanosStart)
  }

  // a comes before b in the order of the direction.
  predicate Ahead(d: Direction, a: Key, b: Key) {
    if d == Older then Less(b, a) else Less(a, b)
  }

  predicate Hits(q: Input, r: Row) {
    q.wanted(r) && Ahead(q.direction, Bound(q), r.key)
  }

  function Filter(rows: seq<Row>, q: Input): seq<Row> {
    if rows == [] then []
    else (if Hits(q, rows[0]) then [rows[0]] else []) + Filter(rows[1..], q)
  }

  function Reverse(rows: seq<Row>): (r: seq<Row>)
    ensures |r| == |rows| && forall i :: 0 <= i < |rows| ==> r[i] == rows[|rows| - 1 - i]
  {
    if rows == [] then [] else Reverse(rows[1..]) + [rows[0]]
  }

  // The rows the WHERE clause selects, in the order of the ORDER BY clause.
  function Matching(db: Db, q: Input): seq<Row> {
    Filter(if q.direction == Older then Reverse(db.rows) else db.rows, q)
  }

  // min(max(maxResult, 10), 100)
  function Limit(maxResult: int): nat {
    var least := if maxResult > 10 then maxResult else 10;
    if least < 100 then least else 100
  }

  function Answer(db: Db, q: Input): seq<Row> {
    var rows := Matching(db, q);
    if |rows| <= Limit(q.maxResult) then rows else rows[..Limit(q.maxResult)]
  }

  // ---- All databases ----

  predicate Selected(db: Db, q: Input) {
    if q.direction == Older then db.epochStart <= Bound(q).epoch
    else db.epochEnd == 0 || db.epochEnd >= Bound(q).epoch
  }

  function Select(dbs: seq<Db>, q: Input): seq<Db> {
    if dbs == [] then []
    else Select(dbs[..|dbs| - 1], q) + if Selected(dbs[|dbs| - 1], q) then [dbs[|dbs| - 1]] else []
  }

  // The less function of the two calls of sort.SliceStable.
  predicate Sooner(d: Direction, a: Db, b: Db) {
    if d == Older then a.epochStart > b.epochStart else a.epochStart < b.epochStart
  }

  // A stable sort: every database goes behind those it is not sooner than.
  function Insert(d: Direction, sorted: seq<Db>, db: Db): seq<Db> {
    if sorted == [] || !Sooner(d, db, sorted[|sorted| - 1]) then sorted + [db]
    else Insert(d, sorted[..|sorted| - 1], db) + [sorted[|sorted| - 1]]
  }

  function Sort(d: Direction, dbs: seq<Db>): seq<Db> {
    if dbs == [] then [] else Insert(d, Sort(d, dbs[..|dbs| - 1]), dbs[|dbs| - 1])
  }

  // The reading loop, with the rows collected so far.
  function Collect(dbs: seq<Db>, q: Input, list: seq<Row>): Result {
    if dbs == [] then Ok(Output(list, None))
    else if !dbs[0].open then Ok(Output(list, Some(dbs[0])))
    else if dbs[0].broken then Err
    else
      var more := list + Answer(dbs[0], q);
      if |more| >= q.maxResult then Ok(Output(more, None)) else Collect(dbs[1..], q, more)
  }

  function Page(dbs: seq<Db>, q: Input): Result {
    Collect(Sort(q.direction, Select(dbs, q)), q, [])
  }

  // storage.Entries
  method Entries(dbs: seq<Db>, q: Input) returns (r: Result)
    ensures r == Page(dbs, q)
  {
    var epochStart := q.epochStart;
    if epochStart == 0 {
      epochStart := q.now;
    }

    var selected := [];
    for i := 0 to |dbs|
      invariant selected == Select(dbs[..i], q)
    {
      var d := dbs[i];
      if q.direction == Older {
        if d.epochStart <= epochStart {
          selected := selected + [d];
        }
      } else {
        if d.epochEnd == 0 || d.epochEnd >= epochStart {
          selected := selected + [d];
        }
      }
      assert dbs[..i + 1][..i] == dbs[..i];
    }
    assert dbs[..|dbs|] == dbs;

    var sorted := Sort(q.direction, selected);
    var list := [];
    for i := 0 to |sorted|
      invariant Page(dbs, q) == Collect(sorted[i..], q, list)
    {
      var db := sorted[i];
      assert sorted[i..][1..] == sorted[i + 1..];
      if db.open {
        if db.broken {
          return Err;
        }
        list := list + Answer(db, q);
        if |list| >= q.maxResult {
          return Ok(Output(list, None));
        }
      } else {
        return Ok(Output(list, Some(db)));
      }
    }
    r := Ok(Output(list, None));
  }

  // ---- What a page should be ----

  ghost predicate Ordered(d: Direction, rows: seq<Row>) {
    forall i, j :: 0 <= i < j < |rows| ==> Ahead(d, rows[i].key, rows[j].key)
  }

  // all is everything that matches, from all databases, merged in the order of the direction.
  ghost predicate IsMerge(all: seq<Row>, dbs: seq<Db>, q: Input) {
    && Ordered(q.direction, all)
    && forall r :: r in all <==> Stored(dbs, r) && Hits(q, r)
  }

  ghost predicate Stored(dbs: seq<Db>, r: Row) {
    exists i :: 0 <= i < |dbs| && r in dbs[i].rows
  }

  // Rows are within the time range of their database, in key order without duplicate keys.
  ghost predicate Sane(db: Db) {
    && Ordered(Newer, db.rows)
    && forall r :: r in db.rows ==> db.epochStart <= r.key.epoch && (db.epochEnd == 0 || r.key.epoch <= db.epochEnd)
  }

  ghost predicate Apart(a: Db, b: Db) {
    forall r, t :: r in a.rows && t in b.rows ==> Less(r.key, t.key)
  }

  // Databases have disjoint time ranges, ordered as they start.
  ghost predicate Layout(dbs: seq<Db>) {
    && (forall i :: 0 <= i < |dbs| ==> Sane(dbs[i]))
    && (forall i, j :: 0 <= i < |dbs| && 0 <= j < |dbs| && i != j ==>
          dbs[i].epochStart != dbs[j].epochStart
          && (dbs[i].epochStart < dbs[j].epochStart ==> Apart(dbs[i], dbs[j])))
  }

  // ---- One database: what Matching is ----

  lemma {:induction false} FilterHas(rows: seq<Row>, q: Input, r: Row)
    ensures r in Filter(rows, q) <==> r in rows && Hits(q, r)
  {
    if rows != [] {
      FilterHas(rows[1..], q, r);
      assert rows == [rows[0]] + rows[1..];
    }
  }

  lemma {:induction false} FilterOrdered(rows: seq<Row>, q: Input)
    requires Ordered(q.direction, rows)
    ensures Ordered(q.direction, Filter(rows, q))
  {
    if rows != [] {
      FilterOrdered(rows[1..], q);
      var rest := Filter(rows[1..], q);
      forall i | 0 <= i < |rest| ensures Ahead(q.direction, rows[0].key, rest[i].key) {
        FilterHas(rows[1..], q, rest[i]);
      }
    }
  }

  lemma {:induction false} MatchingIs(db: Db, q: Input)
    requires Sane(db)
    ensures Ordered(q.direction, Matching(db, q))
    ensures forall r :: r in Matching(db, q) <==> r in db.rows && Hits(q, r)
  {
    var rows := if q.direction == Older then Reverse(db.rows) else db.rows;
    assert Ordered(q.direction, rows);
    assert forall r :: r in rows <==> r in db.rows by {
      forall r | r in db.rows ensures r in rows {
        var i :| 0 <= i < |db.rows| && db.rows[i] == r;
        if q.direction == Older { assert rows[|db.rows| - 1 - i] == r; }
      }
    }
    FilterOrdered(rows, q);
    forall r ensures r in Matching(db, q) <==> r in db.rows && Hits(q, r) {
      FilterHas(rows, q, r);
    }
  }

  // ---- The order of the databases ----

  // Reading dbs one after the other reads keys in order.
  ghost predicate Follow(d: Direction, dbs: seq<Db>) {
    && (forall i :: 0 <= i < |dbs| ==> Sane(dbs[i]))
    && forall i, j :: 0 <= i < j < |dbs| ==> if d == Older then Apart(dbs[j], dbs[i]) else Apart(dbs[i], dbs[j])
  }

  // Both lists hold the same databases.
  ghost predicate SameDbs(a: seq<Db>, b: seq<Db>) {
    forall db :: db in a <==> db in b
  }

  lemma {:induction false} SelectHas(dbs: seq<Db>, q: Input, db: Db)
    ensures db in Select(dbs, q) <==> db in dbs && Selected(db, q)
  {
    if dbs != [] {
      SelectHas(dbs[..|dbs| - 1], q, db);
    }
  }

  // Distinct starts, in any order.
  ghost predicate Pairwise(dbs: seq<Db>) {
    forall i, j :: 0 <= i < |dbs| && 0 <= j < |dbs| && i != j ==> dbs[i].epochStart != dbs[j].epochStart
  }

  lemma {:induction false} SelectPairwise(dbs: seq<Db>, q: Input)
    requires Pairwise(dbs)
    ensures Pairwise(Select(dbs, q))
  {
    if dbs != [] {
      var n := |dbs| - 1;
      SelectPairwise(dbs[..n], q);
      forall db | db in Select(dbs[..n], q) ensures db.epochStart != dbs[n].epochStart {
        SelectHas(dbs[..n], q, db);
      }
    }
  }

  ghost predicate Sorted(d: Direction, dbs: seq<Db>) {
    forall i, j :: 0 <= i < j < |dbs| ==> Sooner(d, dbs[i], dbs[j])
  }

  lemma {:induction false} InsertSorted(d: Direction, sorted: seq<Db>, db: Db)
    requires Sorted(d, sorted) && forall x :: x in sorted ==> x.epochStart != db.epochStart
    ensures Sorted(d, Insert(d, sorted, db))
    ensures forall x :: x in Insert(d, sorted, db) <==> x in sorted || x == db
  {
    if sorted != [] {
      var front, last := sorted[..|sorted| - 1], sorted[|sorted| - 1];
      assert last in sorted && sorted == front + [last];
      if Sooner(d, db, last) {
        InsertSorted(d, front, db);
        var r := Insert(d, front, db);
        forall i | 0 <= i < |r| ensures Sooner(d, r[i], last) {
          assert r[i] in r;
        }
      } else {
        assert Sooner(d, last, db);
      }
    }
  }

  lemma {:induction false} SortSorts(d: Direction, dbs: seq<Db>)
    requires Pairwise(dbs)
    ensures Sorted(d, Sort(d, dbs)) && SameDbs(Sort(d, dbs), dbs)
  {
    if dbs != [] {
      var n := |dbs| - 1;
      SortSorts(d, dbs[..n]);
      assert dbs == dbs[..n] + [dbs[n]];
      InsertSorted(d, Sort(d, dbs[..n]), dbs[n]);
    }
  }

  // Databases with one start.
  function Starting(dbs: seq<Db>, start: int): seq<Db> {
    if dbs == [] then []
    else
      var last := dbs[|dbs| - 1];
      Starting(dbs[..|dbs| - 1], start) + if last.epochStart == start then [last] else []
  }

  ghost predicate InOrder(d: Direction, dbs: seq<Db>) {
    forall i, j :: 0 <= i < j < |dbs| ==> !Sooner(d, dbs[j], dbs[i])
  }

  lemma {:induction false} InsertInOrder(d: Direction, sorted: seq<Db>, db: Db)
    requires InOrder(d, sorted)
    ensures InOrder(d, Insert(d, sorted, db)) && forall x :: x in Insert(d, sorted, db) ==> x in sorted || x == db
  {
    if sorted != [] && Sooner(d, db, sorted[|sorted| - 1]) {
      var front, last := sorted[..|sorted| - 1], sorted[|sorted| - 1];
      InsertInOrder(d, front, db);
      var r := Insert(d, front, db);
      forall i | 0 <= i < |r| ensures !Sooner(d, last, r[i]) {
        assert r[i] in r;
      }
    }
  }

  lemma {:induction false} InsertIsStable(d: Direction, sorted: seq<Db>, db: Db, start: int)
    requires InOrder(d, sorted)
    ensures Starting(Insert(d, sorted, db), start)
         == Starting(sorted, start) + if db.epochStart == start then [db] else []
  {
    InsertSplits(d, sorted, db);
    StartingMore(sorted, db, start);
    hide Insert, InOrder, Starting;
    if Insert(d, sorted, db) != sorted + [db] {
      var front, last := sorted[..|sorted| - 1], sorted[|sorted| - 1];
      InsertIsStable(d, front, db, start);
      StartingMore(Insert(d, front, db), last, start);
      StartingMore(front, last, start);
      SwapsOne(Starting(front, start), if db.epochStart == start then [db] else [],
               if last.epochStart == start then [last] else []);
    }
  }

  lemma InsertSplits(d: Direction, sorted: seq<Db>, db: Db)
    requires InOrder(d, sorted)
    ensures || Insert(d, sorted, db) == sorted + [db]
            || (&& sorted != [] && db.epochStart != sorted[|sorted| - 1].epochStart
                && sorted == sorted[..|sorted| - 1] + [sorted[|sorted| - 1]] && InOrder(d, sorted[..|sorted| - 1])
                && Insert(d, sorted, db) == Insert(d, sorted[..|sorted| - 1], db) + [sorted[|sorted| - 1]])
  {
  }

  lemma SwapsOne(a: seq<Db>, b: seq<Db>, c: seq<Db>)
    ensures b == [] || c == [] ==> a + b + c == a + c + b
  {
    assert b == [] ==> a + b == a && a + c + b == a + c;
    assert c == [] ==> a + c == a && a + b + c == a + b;
  }

  lemma StartingMore(dbs: seq<Db>, db: Db, start: int)
    ensures Starting(dbs + [db], start) == Starting(dbs, start) + if db.epochStart == start then [db] else []
  {
    assert (dbs + [db])[..|dbs|] == dbs;
  }

  // Sorting orders databases by start, and leaves those of each start as they are, in the order they had.
  lemma {:induction false} SortIsStable(d: Direction, dbs: seq<Db>, start: int)
    ensures InOrder(d, Sort(d, dbs)) && Starting(Sort(d, dbs), start) == Starting(dbs, start)
  {
    if dbs != [] {
      var n := |dbs| - 1;
      hide InOrder;
      SortIsStable(d, dbs[..n], start);
      InsertInOrder(d, Sort(d, dbs[..n]), dbs[n]);
      InsertIsStable(d, Sort(d, dbs[..n]), dbs[n], start);
    }
  }

  // The databases that are read, and their order.
  lemma {:induction false} ReadingSet(dbs: seq<Db>, q: Input, ds: seq<Db>)
    requires Pairwise(dbs) && ds == Sort(q.direction, Select(dbs, q))
    ensures Sorted(q.direction, ds)
    ensures forall db :: db in ds <==> db in dbs && Selected(db, q)
  {
    SelectPairwise(dbs, q);
    SortSorts(q.direction, Select(dbs, q));
    forall db ensures db in ds <==> db in dbs && Selected(db, q) {
      SelectHas(dbs, q, db);
    }
  }

  lemma {:induction false} SoonerIsApart(dbs: seq<Db>, d: Direction, x: Db, y: Db)
    requires Layout(dbs) && x in dbs && y in dbs && Sooner(d, x, y)
    ensures Sane(x) && if d == Older then Apart(y, x) else Apart(x, y)
  {
    hide Sane, Apart;
    var i :| 0 <= i < |dbs| && dbs[i] == x;
    var j :| 0 <= j < |dbs| && dbs[j] == y;
    assert i != j;
  }

  lemma {:induction false} ReadingOrder(dbs: seq<Db>, q: Input, ds: seq<Db>)
    requires Layout(dbs) && ds == Sort(q.direction, Select(dbs, q))
    ensures Follow(q.direction, ds)
  {
    ReadingSet(dbs, q, ds);
    hide Sort, Select, Selected, Sane, Apart, Sooner;
    forall i, j | 0 <= i < j < |ds|
      ensures if q.direction == Older then Apart(ds[j], ds[i]) else Apart(ds[i], ds[j])
    {
      SoonerIsApart(dbs, q.direction, ds[i], ds[j]);
    }
    forall i | 0 <= i < |ds| ensures Sane(ds[i]) {
      assert ds[i] in dbs;
    }
  }

  // ---- Everything the databases hold, in reading order ----

  function Concat(dbs: seq<Db>, q: Input): seq<Row> {
    if dbs == [] then [] else Matching(dbs[0], q) + Concat(dbs[1..], q)
  }

  lemma {:induction false} ConcatHas(dbs: seq<Db>, q: Input, r: Row)
    requires forall i :: 0 <= i < |dbs| ==> Sane(dbs[i])
    ensures r in Concat(dbs, q) <==> Stored(dbs, r) && Hits(q, r)
  {
    if dbs != [] {
      MatchingIs(dbs[0], q);
      ConcatHas(dbs[1..], q, r);
      if Stored(dbs, r) {
        var i :| 0 <= i < |dbs| && r in dbs[i].rows;
        assert i > 0 ==> dbs[1..][i - 1] == dbs[i];
      }
      if Stored(dbs[1..], r) {
        var i :| 0 <= i < |dbs[1..]| && r in dbs[1..][i].rows;
        assert dbs[i + 1] == dbs[1..][i];
      }
    }
  }

  lemma {:induction false} AheadOfLater(dbs: seq<Db>, q: Input, a: Row, b: Row)
    requires Follow(q.direction, dbs) && dbs != [] && a in dbs[0].rows && b in Concat(dbs[1..], q)
    ensures Ahead(q.direction, a.key, b.key)
  {
    hide Concat;
    ConcatHas(dbs[1..], q, b);
    var k :| 0 <= k < |dbs[1..]| && b in dbs[1..][k].rows;
    assert dbs[1..][k] == dbs[k + 1];
  }

  lemma {:induction false} ConcatOrdered(dbs: seq<Db>, q: Input)
    requires Follow(q.direction, dbs)
    ensures Ordered(q.direction, Concat(dbs, q))
  {
    if dbs != [] {
      MatchingIs(dbs[0], q);
      ConcatOrdered(dbs[1..], q);
      var first, rest := Matching(dbs[0], q), Concat(dbs[1..], q);
      forall i, j | 0 <= i < |first| && 0 <= j < |rest| ensures Ahead(q.direction, first[i].key, rest[j].key) {
        AheadOfLater(dbs, q, first[i], rest[j]);
      }
    }
  }

  // The selection leaves out no database with matching rows.
  lemma {:induction false} ConcatIsMerge(dbs: seq<Db>, q: Input)
    requires Layout(dbs)
    ensures IsMerge(Concat(Sort(q.direction, Select(dbs, q)), q), dbs, q)
  {
    var ds := Sort(q.direction, Select(dbs, q));
    ReadingSet(dbs, q, ds);
    ReadingOrder(dbs, q, ds);
    ConcatOrdered(ds, q);
    forall r ensures r in Concat(ds, q) <==> Stored(dbs, r) && Hits(q, r) {
      ConcatHas(ds, q, r);
      if Stored(ds, r) {
        var i :| 0 <= i < |ds| && r in ds[i].rows;
        assert ds[i] in dbs;
      }
      if Stored(dbs, r) && Hits(q, r) {
        var i :| 0 <= i < |dbs| && r in dbs[i].rows;
        assert Sane(dbs[i]) && Selected(dbs[i], q);
        assert dbs[i] in ds;
      }
    }
  }

  lemma HasHead(rows: seq<Row>)
    ensures rows == [] || rows[0] in rows
  {
  }

  // There is one merge only.
  lemma {:induction false} OrderedIsUnique(d: Direction, a: seq<Row>, b: seq<Row>)
    requires Ordered(d, a) && Ordered(d, b) && forall r :: r in a <==> r in b
    ensures a == b
  {
    HasHead(a);
    HasHead(b);
    if a != [] && b != [] {
      assert a[0] == b[0];
      assert a[0] !in a[1..] && b[0] !in b[1..];
      forall r ensures r in a[1..] <==> r in b[1..] {
        assert r in a <==> r == a[0] || r in a[1..];
        assert r in b <==> r == b[0] || r in b[1..];
      }
      OrderedIsUnique(d, a[1..], b[1..]);
    }
  }

  lemma {:induction false} MergeIsConcat(all: seq<Row>, dbs: seq<Db>, q: Input)
    requires Layout(dbs) && IsMerge(all, dbs, q)
    ensures all == Concat(Sort(q.direction, Select(dbs, q)), q)
  {
    ConcatIsMerge(dbs, q);
    OrderedIsUnique(q.direction, all, Concat(Sort(q.direction, Select(dbs, q)), q));
  }

  // ---- Pages ----

  // A truncated answer is always the last one read.
  lemma {:induction false} CollectIs(dbs: seq<Db>, q: Input, list: seq<Row>)
    requires q.maxResult <= 100 && Collect(dbs, q, list).Ok?
    ensures var out := Collect(dbs, q, list).output;
            && list <= out.entries <= list + Concat(dbs, q)
            && (out.scheduled.None? ==> |out.entries| >= q.maxResult || out.entries == list + Concat(dbs, q))
    decreases |dbs|
  {
    if dbs != [] && dbs[0].open {
      var rows, rest := Matching(dbs[0], q), Concat(dbs[1..], q);
      var more := list + Answer(dbs[0], q);
      assert list + Concat(dbs, q) == list + rows + rest;
      assert more <= list + rows;
      if |more| < q.maxResult {
        assert Answer(dbs[0], q) == rows;
        CollectIs(dbs[1..], q, more);
      }
    } else {
      assert dbs == [] ==> list + Concat(dbs, q) == list;
    }
  }

  // Main theorem: up to the limit of 100, a page is a prefix of everything that matches, whether or not a
  // closed database cut it short; if none did, it has maxResult rows or all there are.
  lemma {:induction false} PageIsPrefix(all: seq<Row>, dbs: seq<Db>, q: Input)
    requires Layout(dbs) && IsMerge(all, dbs, q)
    requires q.maxResult <= 100 && Page(dbs, q).Ok?
    ensures var out := Page(dbs, q).output;
            && out.entries <= all
            && (out.scheduled.None? ==> |out.entries| >= q.maxResult || out.entries == all)
  {
    hide Layout, IsMerge, Sort, Select, Concat, Collect;
    MergeIsConcat(all, dbs, q);
    CollectIs(Sort(q.direction, Select(dbs, q)), q, []);
    assert [] + all == all;
  }

  // ---- Where a page stops ----

  // The database may have rows behind the request's start.
  predicate InRange(db: Db, q: Input) {
    var start := if q.epochStart == 0 then q.now else q.epochStart;
    if q.direction == Older then db.epochStart <= start else db.epochEnd == 0 || start <= db.epochEnd
  }

  predicate Reads(db: Db) {
    db.open && !db.broken
  }

  // The database at which the reading ends, or their number.
  lemma {:induction false} CollectStops(dbs: seq<Db>, q: Input, list: seq<Row>) returns (k: nat)
    ensures k <= |dbs| && forall j :: 0 <= j < k ==> Reads(dbs[j])
    ensures match Collect(dbs, q, list)
            case Err => k < |dbs| && dbs[k].open && dbs[k].broken
            case Ok(out) =>
              && (out.scheduled.Some? ==> k < |dbs| && dbs[k] == out.scheduled.value && !dbs[k].open)
              && (out.scheduled.None? && |out.entries| < q.maxResult ==> k == |dbs|)
    ensures q.maxResult <= 100 && Collect(dbs, q, list).Ok? && Collect(dbs, q, list).output.scheduled.Some? ==>
              Collect(dbs, q, list).output.entries == list + Concat(dbs[..k], q)
    decreases |dbs|
  {
    if dbs == [] || !dbs[0].open || dbs[0].broken {
      k := 0;
      assert list + Concat(dbs[..0], q) == list;
    } else {
      var more := list + Answer(dbs[0], q);
      if |more| >= q.maxResult {
        k := 1;
      } else {
        k := CollectStops(dbs[1..], q, more);
        assert forall j :: 1 <= j <= k ==> dbs[j] == dbs[1..][j - 1];
        k := k + 1;
        assert dbs[..k][1..] == dbs[1..][..k - 1];
        assert q.maxResult <= 100 ==> Answer(dbs[0], q) == Matching(dbs[0], q);
        assert more + Concat(dbs[1..][..k - 1], q) == list + (Answer(dbs[0], q) + Concat(dbs[1..][..k - 1], q));
      }
    }
  }

  lemma {:induction false} ConcatSplit(dbs: seq<Db>, q: Input, k: nat)
    requires k < |dbs|
    ensures Concat(dbs[..k], q) + Matching(dbs[k], q) <= Concat(dbs, q)
  {
    if k == 0 {
      assert [] + Matching(dbs[0], q) == Matching(dbs[0], q);
    } else {
      ConcatSplit(dbs[1..], q, k - 1);
      assert dbs[..k][1..] == dbs[1..][..k - 1];
      var first, part := Matching(dbs[0], q), Concat(dbs[1..][..k - 1], q);
      assert first + part + Matching(dbs[k], q) == first + (part + Matching(dbs[k], q));
    }
  }

  // Everything read before the k-th database, in terms of the databases themselves.
  lemma {:induction false} SoonerIsRead(dbs: seq<Db>, q: Input, ds: seq<Db>, k: nat, db: Db)
    requires Layout(dbs) && ds == Sort(q.direction, Select(dbs, q)) && k <= |ds|
    requires forall j :: 0 <= j < k ==> Reads(ds[j])
    requires db in dbs && InRange(db, q) && (k < |ds| ==> Sooner(q.direction, db, ds[k]))
    ensures Reads(db)
  {
    ReadingSet(dbs, q, ds);
    hide Sort, Select, Reads;
    var i :| 0 <= i < |ds| && ds[i] == db;
    assert Sorted(q.direction, ds);
    assert !(k < i);
  }

  // Main theorem: the database a page schedules is the first one in reading order that cannot be read for being
  // closed; it is in range, everything before it is in the page, and its own rows come next.
  lemma {:induction false} PageSchedules(all: seq<Row>, dbs: seq<Db>, q: Input, db: Db)
    requires Layout(dbs) && IsMerge(all, dbs, q) && q.maxResult <= 100
    requires Page(dbs, q).Ok? && Page(dbs, q).output.scheduled == Some(db)
    ensures db in dbs && InRange(db, q) && !db.open
    ensures forall d :: d in dbs && InRange(d, q) && Sooner(q.direction, d, db) ==> Reads(d)
    ensures Page(dbs, q).output.entries + Matching(db, q) <= all
  {
    var ds := Sort(q.direction, Select(dbs, q));
    MergeIsConcat(all, dbs, q);
    ReadingSet(dbs, q, ds);
    var k := CollectStops(ds, q, []);
    ConcatSplit(ds, q, k);
    assert [] + Concat(ds[..k], q) == Concat(ds[..k], q);
    hide Sort, Select, Collect, Concat, Layout, IsMerge, Reads, Matching;
    forall d | d in dbs && InRange(d, q) && Sooner(q.direction, d, db) ensures Reads(d) {
      SoonerIsRead(dbs, q, ds, k, d);
    }
  }

  // The database is broken, and all before it are read.
  ghost predicate FailsAt(dbs: seq<Db>, q: Input, db: Db) {
    && db in dbs && InRange(db, q) && db.open && db.broken
    && forall d :: d in dbs && InRange(d, q) && Sooner(q.direction, d, db) ==> Reads(d)
  }

  // A page fails only at a broken database that is in range, with all before it read; and a page that is neither
  // cut short nor full has read all databases in range.
  lemma {:induction false} PageFails(dbs: seq<Db>, q: Input)
    requires Layout(dbs)
    ensures Page(dbs, q).Err? ==> exists db :: FailsAt(dbs, q, db)
    ensures Page(dbs, q).Ok? && Page(dbs, q).output.scheduled.None?
            && |Page(dbs, q).output.entries| < q.maxResult ==>
              forall d :: d in dbs && InRange(d, q) ==> Reads(d)
  {
    var ds := Sort(q.direction, Select(dbs, q));
    ReadingSet(dbs, q, ds);
    var k := CollectStops(ds, q, []);
    hide Sort, Select, Collect, Layout, Reads;
    if Page(dbs, q).Err? {
      forall d | d in dbs && InRange(d, q) && Sooner(q.direction, d, ds[k]) ensures Reads(d) {
        SoonerIsRead(dbs, q, ds, k, d);
      }
      assert ds[k] in ds;
      assert FailsAt(dbs, q, ds[k]);
    } else if Page(dbs, q).output.scheduled.None? && |Page(dbs, q).output.entries| < q.maxResult {
      forall d | d in dbs && InRange(d, q) ensures Reads(d) {
        SoonerIsRead(dbs, q, ds, k, d);
      }
    }
  }

  // Rows asked of one database.
  function PerDb(maxResult: int): int {
    if maxResult < 10 then 10 else if maxResult > 100 then 100 else maxResult
  }

  lemma {:induction false} CollectSize(dbs: seq<Db>, q: Input, list: seq<Row>)
    requires Collect(dbs, q, list).Ok? && (|list| < q.maxResult || list == [])
    ensures var n := |Collect(dbs, q, list).output.entries|;
            |list| <= n && (n < q.maxResult + PerDb(q.maxResult) || n <= PerDb(q.maxResult))
    ensures dbs != [] && Reads(dbs[0]) ==>
              var first := |Matching(dbs[0], q)|;
              |Collect(dbs, q, list).output.entries| - |list| >=
                if first < PerDb(q.maxResult) then first else PerDb(q.maxResult)
    decreases |dbs|
  {
    if dbs != [] && dbs[0].open {
      var more := list + Answer(dbs[0], q);
      if |more| < q.maxResult {
        CollectSize(dbs[1..], q, more);
      }
    }
  }

  // How many rows a page has: never more than maxResult and the rows of one more answer, and at least those of the
  // first answer, which is of up to ten rows even when fewer are asked for.
  lemma {:induction false} PageSize(dbs: seq<Db>, q: Input, db: Db)
    requires Layout(dbs) && Page(dbs, q).Ok?
    requires db in dbs && InRange(db, q) && Reads(db)
    requires forall d :: d in dbs && InRange(d, q) ==> d == db || Sooner(q.direction, db, d)
    ensures var n, first := |Page(dbs, q).output.entries|, |Matching(db, q)|;
            && (n < q.maxResult + PerDb(q.maxResult) || n <= PerDb(q.maxResult))
            && n >= if first < PerDb(q.maxResult) then first else PerDb(q.maxResult)
  {
    var ds := Sort(q.direction, Select(dbs, q));
    ReadingSet(dbs, q, ds);
    CollectSize(ds, q, []);
    hide Sort, Select, Collect, Layout;
    assert db in ds;
    var i :| 0 <= i < |ds| && ds[i] == db;
    assert ds[0] in dbs && InRange(ds[0], q);
    assert i == 0;
  }

  // ---- The limit ----

  // Every row of a page comes from a selected database; nothing between two rows of it is left out.
  ghost predicate GapFree(dbs: seq<Db>, q: Input) {
    Page(dbs, q).Ok? ==>
      forall all :: IsMerge(all, dbs, q) ==> Page(dbs, q).output.entries <= all
  }

  // `count` rows, one a second.
  function Seconds(first: int, count: nat): (rows: seq<Row>)
    ensures |rows| == count
    ensures forall i :: 0 <= i < count ==> rows[i] == Row(Key(first + i, 0), 0, "")
    ensures Ordered(Newer, rows)
  {
    seq(count, i requires 0 <= i < count => Row(Key(first + i, 0), 0, ""))
  }

  lemma {:induction false} FilterAll(rows: seq<Row>, q: Input)
    requires forall i :: 0 <= i < |rows| ==> Hits(q, rows[i])
    ensures Filter(rows, q) == rows
  {
    if rows != [] {
      FilterAll(rows[1..], q);
      assert rows == [rows[0]] + rows[1..];
    }
  }

  // The page over two open databases, the first of which does not fill it.
  lemma {:induction false} PageOfTwo(a: Db, b: Db, q: Input)
    requires q.direction == Newer && Selected(a, q) && Selected(b, q) && a.epochStart < b.epochStart
    requires a.open && !a.broken && b.open && !b.broken && |Answer(a, q)| < q.maxResult
    ensures Page([a, b], q) == Ok(Output(Answer(a, q) + Answer(b, q), None))
    ensures Concat(Sort(Newer, Select([a, b], q)), q) == Matching(a, q) + Matching(b, q)
  {
    hide Answer, Matching, Selected;
    var dbs := [a, b];
    assert dbs[..1] == [a] && [a][..0] == [] && dbs[1..] == [b] && [b][1..] == [];
    assert Select([a], q) == [a] && Select(dbs, q) == dbs;
    assert Sort(Newer, [a]) == [a];
    assert Insert(Newer, [a], b) == dbs;
    assert Sort(Newer, dbs) == dbs;
    assert [] + Answer(a, q) == Answer(a, q);
    assert Collect([b], q, Answer(a, q)) == Ok(Output(Answer(a, q) + Answer(b, q), None));
    assert Concat([b], q) == Matching(b, q) + [] == Matching(b, q);
  }

  lemma TwoLayout(a: Db, b: Db)
    requires Sane(a) && Sane(b) && Apart(a, b) && a.epochStart < b.epochStart
    ensures Layout([a, b])
  {
    hide Sane, Apart;
  }

  lemma TwoApart(a: Db, b: Db)
    requires a == Db(true, false, 1, 101, Seconds(1, 101)) && b == Db(true, false, 200, 0, Seconds(200, 1))
    ensures Sane(a) && Sane(b) && Apart(a, b)
  {
  }

  // The two databases, whose every row is asked for.
  lemma {:induction false} TwoDbs(a: Db, b: Db, q: Input)
    requires a == Db(true, false, 1, 101, Seconds(1, 101)) && b == Db(true, false, 200, 0, Seconds(200, 1))
    requires q.direction == Newer && Bound(q) == Key(1, -1) && q.wanted == (r => true)
    ensures Layout([a, b]) && Matching(a, q) == a.rows && Matching(b, q) == b.rows
    ensures Selected(a, q) && Selected(b, q)
  {
    hide Filter, Sane, Apart, Layout;
    FilterAll(a.rows, q);
    FilterAll(b.rows, q);
    TwoApart(a, b);
    TwoLayout(a, b);
  }

  // The page over 101 rows in one database and one more in the next skips the 101st.
  lemma {:induction false} PageSkips(a: Db, b: Db, q: Input)
    requires Layout([a, b]) && Matching(a, q) == a.rows && Matching(b, q) == b.rows
    requires q.direction == Newer && Selected(a, q) && Selected(b, q) && a.epochStart < b.epochStart
    requires a.open && !a.broken && b.open && !b.broken && q.maxResult > 100
    requires |a.rows| == 101 && |b.rows| == 1 && a.rows[100] != b.rows[0]
    ensures !GapFree([a, b], q)
  {
    hide Concat, Sort, Select, Matching, Selected, Collect, Layout, IsMerge, Page;
    var rows := a.rows[..100];
    assert Answer(a, q) == rows && Answer(b, q) == b.rows;
    PageOfTwo(a, b, q);
    ConcatIsMerge([a, b], q);
    var all, page := a.rows + b.rows, rows + b.rows;
    assert page[100] == b.rows[0] && all[100] == a.rows[100];
    assert IsMerge(all, [a, b], q) && !(page <= all);
  }

  lemma {:induction false} LimitLeavesGap(maxResult: int) returns (dbs: seq<Db>, q: Input)
    requires maxResult > 100
    ensures q.maxResult == maxResult && Layout(dbs) && (forall i :: 0 <= i < |dbs| ==> dbs[i].open)
    ensures !GapFree(dbs, q)
  {
    var a := Db(true, false, 1, 101, Seconds(1, 101));
    var b := Db(true, false, 200, 0, Seconds(200, 1));
    dbs := [a, b];
    q := Input(Newer, 1, -1, maxResult, r => true, 0);
    TwoDbs(a, b, q);
    hide Layout, Matching, Selected, GapFree;
    PageSkips(a, b, q);
  }

  // Main theorem: pages have no gaps exactly for the sizes up to 100.
  lemma {:induction false} GapFreeIff(maxResult: int)
    ensures (forall dbs: seq<Db>, q: Input :: q.maxResult == maxResult && Layout(dbs) ==> GapFree(dbs, q))
       <==> maxResult <= 100
  {
    if maxResult <= 100 {
      forall dbs: seq<Db>, q: Input | q.maxResult == maxResult && Layout(dbs) ensures GapFree(dbs, q) {
        if Page(dbs, q).Ok? {
          forall all | IsMerge(all, dbs, q) ensures Page(dbs, q).output.entries <= all {
            PageIsPrefix(all, dbs, q);
          }
        }
      }
    } else {
      var dbs, q := LimitLeavesGap(maxResult);
    }
  }

  // ---- Following the pages ----

  // The request for the page behind r.
  function Behind(q: Input, r: Row): Input {
    q.(epochStart := r.key.epoch, nanosStart := r.key.nanos)
  }

  function Last(rows: seq<Row>): Row
    requires rows != []
  {
    rows[|rows| - 1]
  }

  // A client asks for the page behind the last row it has, until it gets an empty page.
  ghost predicate IsWalk(pages: seq<seq<Row>>, dbs: seq<Db>, q: Input)
    decreases |pages|
  {
    && |pages| > 0 && Page(dbs, q) == Ok(Output(pages[0], None))
    && if pages[0] == [] then |pages| == 1 else IsWalk(pages[1..], dbs, Behind(q, Last(pages[0])))
  }

  function Joined(pages: seq<seq<Row>>): seq<Row> {
    if pages == [] then [] else pages[0] + Joined(pages[1..])
  }

  // All databases can be read.
  ghost predicate Readable(dbs: seq<Db>) {
    forall i :: 0 <= i < |dbs| ==> dbs[i].open && !dbs[i].broken
  }

  // The request behind r starts somewhere else: r is of second 0, which the code takes for the current time, and
  // reading from there shows r again or passes over a row.
  ghost predicate Strays(dbs: seq<Db>, q: Input, r: Row) {
    var start := Bound(Behind(q, r));
    && r.key.epoch == 0
    && (Ahead(q.direction, start, r.key)
        || exists x :: Stored(dbs, x) && q.wanted(x) && Ahead(q.direction, r.key, x.key)
                       && !Ahead(q.direction, start, x.key))
  }

  // If it does not, it asks for the rows behind r.
  lemma BehindHits(dbs: seq<Db>, q: Input, r: Row, x: Row)
    requires Stored(dbs, x) && !Strays(dbs, q, r)
    ensures Hits(Behind(q, r), x) <==> q.wanted(x) && Ahead(q.direction, r.key, x.key)
  {
  }

  // In a merge these are the ones that come later.
  lemma {:induction false} LaterRows(all: seq<Row>, dbs: seq<Db>, q: Input, n: nat, x: Row)
    requires IsMerge(all, dbs, q) && 0 < n <= |all|
    ensures x in all[n..] <==> Stored(dbs, x) && q.wanted(x) && Ahead(q.direction, all[n - 1].key, x.key)
  {
    assert all[n - 1] in all && Hits(q, all[n - 1]);
    if x in all[n..] {
      var i :| 0 <= i < |all[n..]| && all[n..][i] == x;
      assert all[n + i] == x && x in all;
    }
    if Stored(dbs, x) && q.wanted(x) && Ahead(q.direction, all[n - 1].key, x.key) {
      assert Hits(q, x) && x in all;
      var i :| 0 <= i < |all| && all[i] == x;
      assert i >= n;
      assert all[n..][i - n] == x;
    }
  }

  lemma {:induction false} MergeBehind(all: seq<Row>, dbs: seq<Db>, q: Input, n: nat)
    requires IsMerge(all, dbs, q) && 0 < n <= |all| && !Strays(dbs, q, all[n - 1])
    ensures IsMerge(all[n..], dbs, Behind(q, all[n - 1]))
  {
    var next := Behind(q, all[n - 1]);
    forall x ensures x in all[n..] <==> Stored(dbs, x) && Hits(next, x) {
      LaterRows(all, dbs, q, n, x);
      if Stored(dbs, x) {
        BehindHits(dbs, q, all[n - 1], x);
      }
    }
  }

  lemma {:induction false} CollectReads(dbs: seq<Db>, q: Input, list: seq<Row>)
    requires forall i :: 0 <= i < |dbs| ==> dbs[i].open && !dbs[i].broken
    ensures Collect(dbs, q, list).Ok? && Collect(dbs, q, list).output.scheduled.None?
    decreases |dbs|
  {
    if dbs != [] {
      CollectReads(dbs[1..], q, list + Answer(dbs[0], q));
    }
  }

  lemma {:induction false} PageReads(dbs: seq<Db>, q: Input)
    requires Layout(dbs) && Readable(dbs)
    ensures Page(dbs, q).Ok? && Page(dbs, q).output.scheduled.None?
  {
    var ds := Sort(q.direction, Select(dbs, q));
    ReadingSet(dbs, q, ds);
    forall i | 0 <= i < |ds| ensures ds[i].open && !ds[i].broken {
      assert ds[i] in dbs;
    }
    CollectReads(ds, q, []);
  }

  // No request of the walk strays.
  ghost predicate NeverStrays(pages: seq<seq<Row>>, dbs: seq<Db>, q: Input) {
    forall i :: 0 <= i < |pages| && pages[i] != [] ==> !Strays(dbs, q, Last(pages[i]))
  }

  // The first pages of a walk.
  ghost predicate Begins(pages: seq<seq<Row>>, dbs: seq<Db>, q: Input)
    decreases |pages|
  {
    && |pages| > 0 && Page(dbs, q) == Ok(Output(pages[0], None))
    && (|pages| > 1 ==> pages[0] != [] && Begins(pages[1..], dbs, Behind(q, Last(pages[0]))))
  }

  lemma StraysAlike(dbs: seq<Db>, q: Input, a: Row, r: Row)
    ensures Strays(dbs, Behind(q, a), r) <==> Strays(dbs, q, r)
  {
  }

  lemma {:induction false} NeverStraysFrom(pages: seq<seq<Row>>, dbs: seq<Db>, q: Input)
    requires |pages| > 0 && pages[0] != []
    ensures NeverStrays(pages, dbs, q) <==>
              !Strays(dbs, q, Last(pages[0])) && NeverStrays(pages[1..], dbs, Behind(q, Last(pages[0])))
  {
    var next := Behind(q, Last(pages[0]));
    forall r ensures Strays(dbs, next, r) <==> Strays(dbs, q, r) {
      StraysAlike(dbs, q, Last(pages[0]), r);
    }
    hide Strays;
    forall i | 0 <= i < |pages| - 1 ensures pages[1..][i] == pages[i + 1] {
    }
    assert forall i :: 1 <= i < |pages| ==> pages[i] == pages[1..][i - 1];
  }

  // Main theorem: following the pages ends, after at most one page a row and an empty one, unless it comes to a
  // page behind which the request strays.
  lemma {:induction false} WalkEnds(all: seq<Row>, dbs: seq<Db>, q: Input) returns (pages: seq<seq<Row>>)
    requires Layout(dbs) && Readable(dbs) && 1 <= q.maxResult <= 100 && IsMerge(all, dbs, q)
    ensures Begins(pages, dbs, q) && |pages| <= |all| + 1
    ensures if pages[|pages| - 1] == [] then IsWalk(pages, dbs, q) && NeverStrays(pages, dbs, q)
            else Strays(dbs, q, Last(pages[|pages| - 1])) && Last(pages[|pages| - 1]) in all
    decreases |all|
  {
    hide IsMerge, Layout, Readable, Page, Ordered, Strays;
    PageReads(dbs, q);
    PageIsPrefix(all, dbs, q);
    var page := Page(dbs, q).output.entries;
    pages := [page];
    if page != [] && !Strays(dbs, q, Last(page)) {
      MergeBehind(all, dbs, q, |page|);
      var rest := WalkEnds(all[|page|..], dbs, Behind(q, Last(page)));
      pages := [page] + rest;
      assert pages[1..] == rest;
      NeverStraysFrom(pages, dbs, q);
      StraysAlike(dbs, q, Last(page), if rest[|rest| - 1] == [] then Last(page) else Last(rest[|rest| - 1]));
    }
  }

  // Every row of a page is wanted and behind the position asked for.
  lemma {:induction false} PageHits(dbs: seq<Db>, q: Input, x: Row)
    requires Layout(dbs) && q.maxResult <= 100 && Page(dbs, q).Ok? && x in Page(dbs, q).output.entries
    ensures Hits(q, x) && q.wanted(x)
    ensures var epoch := if q.epochStart == 0 then q.now else q.epochStart;
            if q.direction == Older
            then x.key.epoch < epoch || (x.key.epoch == epoch && x.key.nanos < q.nanosStart)
            else x.key.epoch > epoch || (x.key.epoch == epoch && x.key.nanos > q.nanosStart)
  {
    var all := Concat(Sort(q.direction, Select(dbs, q)), q);
    ConcatIsMerge(dbs, q);
    PageIsPrefix(all, dbs, q);
    assert x in all;
  }

  // Behind a start that second 0 does not come after, a walk never comes back before it.
  lemma {:induction false} WalkStaysAhead(pages: seq<seq<Row>>, dbs: seq<Db>, q: Input, start: Key, x: Row)
    requires Layout(dbs) && q.maxResult <= 100 && IsWalk(pages, dbs, q) && x in Joined(pages)
    requires Bound(q) == start || Ahead(q.direction, start, Bound(q))
    requires if q.direction == Older then start.epoch < 0 else start.epoch > 0
    ensures Ahead(q.direction, start, x.key)
    decreases |pages|
  {
    hide Page, Layout;
    if x in pages[0] {
      PageHits(dbs, q, x);
    } else {
      var r := Last(pages[0]);
      assert r in pages[0];
      PageHits(dbs, q, r);
      WalkStaysAhead(pages[1..], dbs, Behind(q, r), start, x);
    }
  }

  // A request that strays back before r shows r, or a row before it, next.
  lemma {:induction false} StraysBack(pages: seq<seq<Row>>, dbs: seq<Db>, q: Input, r: Row)
    requires Layout(dbs) && 1 <= q.maxResult <= 100 && IsWalk(pages, dbs, q)
    requires Stored(dbs, r) && Hits(q, r)
    ensures Joined(pages) != [] && !Ahead(q.direction, r.key, Joined(pages)[0].key)
  {
    var all := Concat(Sort(q.direction, Select(dbs, q)), q);
    ConcatIsMerge(dbs, q);
    PageIsPrefix(all, dbs, q);
    assert r in all;
    var i :| 0 <= i < |all| && all[i] == r;
    assert i > 0 ==> Ahead(q.direction, all[0].key, all[i].key);
    assert pages[0] != [] && pages[0][0] == all[0];
  }

  // After a request that strays, the rest of the walk is not what comes behind r.
  lemma {:induction false} StrayingSpoils(pages: seq<seq<Row>>, all: seq<Row>, dbs: seq<Db>, q: Input, n: nat)
    requires Layout(dbs) && 1 <= q.maxResult <= 100 && IsMerge(all, dbs, q) && 0 < n <= |all|
    requires Strays(dbs, q, all[n - 1]) && IsWalk(pages, dbs, Behind(q, all[n - 1]))
    ensures Joined(pages) != all[n..]
  {
    var r := all[n - 1];
    var next := Behind(q, r);
    assert r in all && Hits(q, r);
    if Ahead(q.direction, Bound(next), r.key) {
      StraysBack(pages, dbs, next, r);
      assert n < |all| ==> all[n..][0] == all[n];
    } else {
      var x :| Stored(dbs, x) && q.wanted(x) && Ahead(q.direction, r.key, x.key)
               && !Ahead(q.direction, Bound(next), x.key);
      LaterRows(all, dbs, q, n, x);
      if x in Joined(pages) {
        WalkStaysAhead(pages, dbs, next, Bound(next), x);
      }
    }
  }

  // Main theorem: the pages of a walk, one after the other, are everything that matches, each row once and in
  // order, if and only if no request strays.
  lemma {:induction false} WalkEnumerates(pages: seq<seq<Row>>, all: seq<Row>, dbs: seq<Db>, q: Input)
    requires Layout(dbs) && Readable(dbs) && 1 <= q.maxResult <= 100 && IsMerge(all, dbs, q)
    requires IsWalk(pages, dbs, q)
    ensures Joined(pages) == all <==> NeverStrays(pages, dbs, q)
    decreases |pages|
  {
    hide IsMerge, Layout, Readable, Page, Ordered, Strays;
    PageIsPrefix(all, dbs, q);
    if pages[0] == [] {
      assert pages[1..] == [];
    } else {
      var n := |pages[0]|;
      assert Last(pages[0]) == all[n - 1];
      assert all == pages[0] + all[n..];
      NeverStraysFrom(pages, dbs, q);
      if Strays(dbs, q, all[n - 1]) {
        StrayingSpoils(pages[1..], all, dbs, q, n);
      } else {
        MergeBehind(all, dbs, q, n);
        WalkEnumerates(pages[1..], all[n..], dbs, Behind(q, all[n - 1]));
      }
    }
  }

  // Without rows of second 0 the pages of a walk are complete.
  lemma {:induction false} WalkIsComplete(all: seq<Row>, dbs: seq<Db>, q: Input) returns (pages: seq<seq<Row>>)
    requires Layout(dbs) && Readable(dbs) && 1 <= q.maxResult <= 100 && IsMerge(all, dbs, q)
    requires forall r :: Stored(dbs, r) ==> r.key.epoch != 0
    ensures IsWalk(pages, dbs, q) && |pages| <= |all| + 1 && Joined(pages) == all
  {
    pages := WalkEnds(all, dbs, q);
    hide Layout, Page, Begins, IsWalk, NeverStrays, Joined;
    if pages[|pages| - 1] == [] {
      WalkEnumerates(pages, all, dbs, q);
    }
  }

  // One row of second 0, read from the newest to the oldest: the page shows it again and again.
  lemma {:induction false} WalkRepeats(now: int) returns (dbs: seq<Db>, q: Input)
    requires now > 0
    ensures q.now == now && Layout(dbs) && Readable(dbs) && 1 <= q.maxResult <= 100
    ensures Page(dbs, q) == Ok(Output([Row(Key(0, 0), 0, "")], None))
    ensures forall pages :: !IsWalk(pages, dbs, q)
  {
    var row := Row(Key(0, 0), 0, "");
    var db := Db(true, false, 0, 0, [row]);
    dbs, q := [db], Input(Older, 0, 0, 10, r => true, now);
    PageOfOne(db, row, q);
    forall pages ensures !IsWalk(pages, dbs, q) {
      NoWalk(pages, dbs, q, row);
    }
  }

  lemma MatchingOne(db: Db, row: Row, q: Input)
    requires db.rows == [row] && Hits(q, row)
    ensures Matching(db, q) == [row]
  {
    FilterAll([row], q);
    assert Reverse([row]) == [row];
  }

  lemma OnlyDb(db: Db, q: Input)
    requires Selected(db, q)
    ensures Sort(q.direction, Select([db], q)) == [db]
  {
    hide Selected;
    assert [db][..0] == [] && [] + [db] == [db];
    assert Select([db], q) == [db];
    assert Sort(q.direction, [db]) == Insert(q.direction, [], db) == [db];
  }

  lemma CollectOne(dbs: seq<Db>, q: Input, rows: seq<Row>)
    requires |dbs| == 1 && dbs[0].open && !dbs[0].broken && Answer(dbs[0], q) == rows && |rows| < q.maxResult
    ensures Collect(dbs, q, []) == Ok(Output(rows, None))
  {
    hide Answer;
    assert [] + rows == rows && dbs[1..] == [];
    assert Collect([], q, rows) == Ok(Output(rows, None));
  }

  lemma PageOfOne(db: Db, row: Row, q: Input)
    requires db.rows == [row] && db.open && !db.broken && Selected(db, q) && Hits(q, row) && q.maxResult == 10
    ensures Page([db], q) == Ok(Output([row], None))
  {
    MatchingOne(db, row, q);
    OnlyDb(db, q);
    assert Answer(db, q) == [row];
    hide Sort, Select, Matching, Selected, Hits, Answer, Collect;
    CollectOne([db], q, [row]);
  }

  lemma {:induction false} NoWalk(pages: seq<seq<Row>>, dbs: seq<Db>, q: Input, row: Row)
    requires Page(dbs, q) == Ok(Output([row], None)) && Behind(q, row) == q
    ensures !IsWalk(pages, dbs, q)
    decreases |pages|
  {
    if pages != [] {
      NoWalk(pages[1..], dbs, q, row);
    }
  }
}
