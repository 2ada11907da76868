// The SQL the builder emits for an expression read back, and when that reading agrees with the in-memory
// predicate.
module BackEnds {
  import opened ExprCalls
  import ExprSpec
  import M = MemoryExpr
  import opened Options
  import QueryParse
  import Q = QueryText
  import opened S = SqliteExpr
  import opened SqlReader

  // ---- What an expression means in that reading ----

  // A chain is a disjunction of runs of AND: the value of the runs before the last one, and of the last one.
  function Runs(e: Expr, truth: Call -> bool): (bool, bool)
    decreases e, 0
  {
    match e
    case Nothing => (false, true)
    case One(item) => (false, ItemRuns(item, truth))
    case Then(left, op, item) =>
      var (before, last) := Runs(left, truth);
      if op == And then (before, last && ItemRuns(item, truth)) else (before || last, ItemRuns(item, truth))
  }

  predicate ItemRuns(i: Item, truth: Call -> bool)
    decreases i
  {
    match i
    case Atom(call) => truth(call)
    case Group(body) => SqlMeans(body, truth)
  }

  predicate SqlMeans(e: Expr, truth: Call -> bool)
    decreases e, 1
  {
    Runs(e, truth).0 || Runs(e, truth).1
  }

  // No empty group anywhere.
  predicate Full(e: Expr) {
    match e
    case Nothing => true
    case One(item) => FullItem(item)
    case Then(left, _, item) => Full(left) && FullItem(item)
  }

  predicate FullItem(i: Item) {
    i.Group? ==> i.body != Nothing && Full(i.body)
  }

  // ---- The text of an expression ----

  function Lexemes(e: Expr): seq<Lexeme> {
    match e
    case Nothing => []
    case One(item) => ItemLexemes(item)
    case Then(left, op, item) => Lexemes(left) + [Word(op)] + ItemLexemes(item)
  }

  function ItemLexemes(i: Item): (r: seq<Lexeme>)
    ensures |r| > 0
  {
    match i
    case Atom(call) => [Term(call)]
    case Group(body) => [Open] + Lexemes(body) + [Close]
  }

  lemma {:induction false} Describes(e: Expr, d: Document)
    requires WellFormed(e) && LevelStart(d) == |d.lexemes|
    ensures After(Describe, d, Calls(e)) == d.(lexemes := d.lexemes + Lexemes(e))
    decreases e, 1
  {
    hide After;
    match e
    case Nothing =>
      AfterNone(Describe, d);
      assert d.lexemes + [] == d.lexemes;
    case One(item) =>
      DescribesItem(item, d);
    case Then(left, op, item) =>
      Describes(left, d);
      AfterBoth(Describe, d, Calls(left) + [Operator(op)], ItemCalls(item));
      AfterBoth(Describe, d, Calls(left), [Operator(op)]);
      var t := After(Describe, d, Calls(left));
      AfterOne(Describe, t, Operator(op));
      DescribesItem(item, Describe(t, Operator(op)));
      Assoc(d.lexemes, Lexemes(left), [Word(op)], ItemLexemes(item));
  }

  lemma {:induction false} DescribesItem(item: Item, d: Document)
    requires WellFormedItem(item)
    ensures After(Describe, d, ItemCalls(item)) == d.(lexemes := d.lexemes + ItemLexemes(item))
    decreases item, 0
  {
    hide After;
    match item
    case Atom(call) =>
      AfterOne(Describe, d, call);
    case Group(body) =>
      AfterBoth(Describe, d, [GroupStart] + Calls(body), [GroupEnd]);
      AfterBoth(Describe, d, [GroupStart], Calls(body));
      AfterOne(Describe, d, GroupStart);
      var t := Describe(d, GroupStart);
      Describes(body, t);
      AfterOne(Describe, After(Describe, t, Calls(body)), GroupEnd);
      assert t.starts[..|t.starts| - 1] == d.starts;
      Assoc(d.lexemes, [Open], Lexemes(body), [Close]);
  }

  // What the builder has written when all calls are made: the text in its last buffer, and the arguments.
  ghost function Emitted(calls: seq<Call>): State {
    After(S.Step, S.State("", [], []), calls)
  }

  // For an expression that is everything, and it binds to the spelling of its lexemes.
  lemma {:induction false} Emits(e: Expr)
    requires WellFormed(e)
    ensures var s := Emitted(Calls(e)); s.groups == [] && Bind(s.sql, s.args) == Some(SpellAll(Lexemes(e)))
  {
    hide After, Bind;
    var d := Document([], []);
    Describes(e, d);
    assert [] + Lexemes(e) == Lexemes(e);
    BoundInPlace(Calls(e));
    assert Same(S.State("", [], []), d);
    AfterSame(S.State("", [], []), d, Calls(e));
    assert "" + Emitted(Calls(e)).sql == Emitted(Calls(e)).sql;
  }

  // ---- Its words ----

  function OpWord(op: Op): Sql {
    Name(if op == And then "AND" else "OR")
  }

  function Words(e: Expr): seq<Sql>
    requires WellFormed(e)
  {
    match e
    case Nothing => []
    case One(item) => ItemWords(item)
    case Then(left, op, item) => Words(left) + [OpWord(op)] + ItemWords(item)
  }

  function ItemWords(i: Item): seq<Sql>
    requires WellFormedItem(i)
  {
    match i
    case Atom(call) => ConditionWords(ConditionOf(call))
    case Group(body) => [Sign("(")] + Words(body) + [Sign(")")]
  }

  lemma {:induction false} LexExpr(e: Expr)
    requires WellFormed(e)
    ensures Lex(SpellAll(Lexemes(e))) == Words(e) && Closed(SpellAll(Lexemes(e)))
    decreases e, 1
  {
    hide Lex, Closed, Spell, SpellAll;
    match e
    case Nothing =>
      SpellNone();
      LexNone();
    case One(item) =>
      LexItem(item);
    case Then(left, op, item) =>
      LexExpr(left);
      LexItem(item);
      LexWord(op);
      SpellBoth(Lexemes(left) + [Word(op)], ItemLexemes(item));
      SpellBoth(Lexemes(left), [Word(op)]);
      LexThree(SpellAll(Lexemes(left)), SpellAll([Word(op)]), SpellAll(ItemLexemes(item)));
  }

  lemma {:induction false} LexItem(item: Item)
    requires WellFormedItem(item)
    ensures Lex(SpellAll(ItemLexemes(item))) == ItemWords(item) && Closed(SpellAll(ItemLexemes(item)))
    decreases item, 0
  {
    hide Lex, Closed, SpellTerm, SpellAll, Bytes;
    match item
    case Atom(call) =>
      SpellOne(Term(call));
      LexTerm(call);
    case Group(body) =>
      LexExpr(body);
      SpellOne(Open);
      SpellOne(Close);
      SignAlone('(');
      SignAlone(')');
      SpellBoth([Open] + Lexemes(body), [Close]);
      SpellBoth([Open], Lexemes(body));
      LexThree(SpellAll([Open]), SpellAll(Lexemes(body)), SpellAll([Close]));
  }

  lemma SpellNone()
    ensures SpellAll([]) == []
  {
  }

  lemma {:induction false} LexWord(op: Op)
    ensures Lex(SpellAll([Word(op)])) == [OpWord(op)] && Closed(SpellAll([Word(op)]))
  {
    hide Lex, Closed, SpellAll, Bytes;
    SpellOne(Word(op));
    LexWords();
  }

  // ---- Reading it back ----

  // The truth of the atoms of a query, given that of the conditions they stand for.
  function OfAtoms(truth: Condition -> bool): Call -> bool {
    (call: Call) => call.IsAtom() && truth(ConditionOf(call))
  }

  // What is left of the reading after some runs.
  function Resume(runs: (bool, bool), ws: seq<Sql>, truth: Condition -> bool): Option<(bool, seq<Sql>)> {
    match MoreAnd(runs.1, ws, truth)
    case None => None
    case Some((v, rest)) => MoreOr(runs.0 || v, rest, truth)
  }

  lemma {:induction false} ResumeReads(runs: (bool, bool), op: Op, more: seq<Sql>, truth: Condition -> bool)
    ensures Resume(runs, [OpWord(op)] + more, truth) ==
            match ReadPrimary(more, truth)
            case None => None
            case Some((w, rest)) =>
              Resume(if op == And then (runs.0, runs.1 && w) else (runs.0 || runs.1, w), rest, truth)
  {
    var ws := [OpWord(op)] + more;
    assert ws[1..] == more;
    if op == And {
      assert ws[0] == Name("AND");
    } else {
      assert ws[0] == Name("OR") != Name("AND") && MoreAnd(runs.1, ws, truth) == Some((runs.1, ws));
      match ReadPrimary(more, truth)
      case None =>
        assert ReadAnd(more, truth).None?;
      case Some((w, rest)) =>
        assert ReadAnd(more, truth) == MoreAnd(w, rest, truth);
    }
  }

  lemma {:induction false} ReadsItem(item: Item, rest: seq<Sql>, truth: Condition -> bool)
    requires WellFormedItem(item)
    ensures ReadPrimary(ItemWords(item) + rest, truth)
         == if FullItem(item) then Some((ItemRuns(item, OfAtoms(truth)), rest)) else None
    decreases item, 0
  {
    var ws := ItemWords(item) + rest;
    match item
    case Atom(call) =>
      ReadsAtom(ConditionOf(call), rest, truth);
    case Group(body) =>
      var after := [Sign(")")] + rest;
      assert ws == [Sign("(")] + (Words(body) + after);
      assert ws[1..] == Words(body) + after;
      if body == Nothing {
        assert ws[1..] == after;
        NothingToRead(rest, truth);
      } else {
        Reads(body, after, truth);
        assert MoreAnd(Runs(body, OfAtoms(truth)).1, after, truth) == Some((Runs(body, OfAtoms(truth)).1, after));
        assert after[1..] == rest;
      }
  }

  lemma {:induction false} ReadsAtom(c: Condition, rest: seq<Sql>, truth: Condition -> bool)
    ensures ReadPrimary(ConditionWords(c) + rest, truth) == Some((truth(c), rest))
  {
    ReadsCondition(c, rest);
    assert (ConditionWords(c) + rest)[0] in {Name("json_extract"), Name("CAST")};
  }

  // A parenthesis that closes nothing is no formula.
  lemma {:induction false} NothingToRead(rest: seq<Sql>, truth: Condition -> bool)
    ensures ReadOr([Sign(")")] + rest, truth).None?
  {
    var ws := [Sign(")")] + rest;
    assert ws[0] == Sign(")") && !(EXTRACT <= ws) && !(CAST <= ws);
    assert ReadPath(ws).None? && ReadOperand(ws).None? && ReadCondition(ws).None?;
    assert ReadPrimary(ws, truth).None? && ReadAnd(ws, truth).None?;
  }

  lemma {:induction false} Reads(e: Expr, rest: seq<Sql>, truth: Condition -> bool)
    requires WellFormed(e) && e != Nothing
    ensures ReadOr(Words(e) + rest, truth) == if Full(e) then Resume(Runs(e, OfAtoms(truth)), rest, truth) else None
    decreases e, 1
  {
    match e
    case One(item) =>
      ReadsItem(item, rest, truth);
    case Then(left, op, item) =>
      var more := ItemWords(item) + rest;
      var next := [OpWord(op)] + more;
      assert Words(e) + rest == Words(left) + next;
      ReadsItem(item, rest, truth);
      Reads(left, next, truth);
      ResumeReads(Runs(left, OfAtoms(truth)), op, more, truth);
  }

  // Main theorem: the text and arguments the builder emits for an expression, bound, cut into words and
  // parsed, are a formula exactly when no group is empty, and then AND before OR is what it means.
  lemma {:induction false} SqlReads(e: Expr, truth: Condition -> bool)
    requires WellFormed(e) && e != Nothing
    ensures var s := Emitted(Calls(e));
            && s.groups == [] && Bind(s.sql, s.args) == Some(SpellAll(Lexemes(e)))
            && ReadSql(s.sql, s.args, truth) == if Full(e) then Some(SqlMeans(e, OfAtoms(truth))) else None
  {
    hide Lex, Bind, SpellAll, Emitted, Closed;
    Emits(e);
    LexExpr(e);
    assert Words(e) + [] == Words(e);
    Reads(e, [], truth);
  }

  // ---- When the two back ends agree ----

  predicate HasOr(e: Expr) {
    e.Then? && (e.op == Or || HasOr(e.left))
  }

  // On no level does an AND follow an OR.
  predicate Ordered(e: Expr) {
    match e
    case Nothing => true
    case One(item) => OrderedItem(item)
    case Then(left, op, item) => Ordered(left) && OrderedItem(item) && (op == And ==> !HasOr(left))
  }

  predicate OrderedItem(i: Item) {
    i.Group? ==> Ordered(i.body)
  }

  lemma {:induction false} OrderedAgrees(e: Expr, truth: Call -> bool)
    requires Ordered(e)
    ensures Means(e, truth) <==> SqlMeans(e, truth)
    ensures !HasOr(e) ==> !Runs(e, truth).0
    decreases e, 1
  {
    match e
    case Nothing =>
    case One(item) =>
      OrderedItemAgrees(item, truth);
    case Then(left, op, item) =>
      OrderedAgrees(left, truth);
      OrderedItemAgrees(item, truth);
  }

  lemma {:induction false} OrderedItemAgrees(i: Item, truth: Call -> bool)
    requires OrderedItem(i)
    ensures ItemMeans(i, truth) <==> ItemRuns(i, truth)
    decreases i, 0
  {
    if i.Group? {
      OrderedAgrees(i.body, truth);
    }
  }

  // Main theorem: the predicate the in-memory builder builds and the formula in the SQL builder's text agree.
  lemma {:induction false} BackEndsAgree(e: Expr, truth: Condition -> bool)
    requires WellFormed(e) && e != Nothing && Full(e) && Ordered(e)
    ensures var s := Emitted(Calls(e));
            && s.groups == []
            && (M.Accepts(After(M.Step, M.State([], []), Calls(e)).stack, Some(OfAtoms(truth)))
                <==> ReadSql(s.sql, s.args, truth) == Some(true))
  {
    hide Emitted, ReadSql, After, Bind;
    M.BuiltMeans(e, Some(OfAtoms(truth)));
    SqlReads(e, truth);
    OrderedAgrees(e, OfAtoms(truth));
  }

  // The whole way: the text of a query is parsed to calls, from which one back end builds a predicate that
  // means the query, and the other SQL text and arguments that read back to it.
  lemma {:induction false} QueryMeans(lib: ExprSpec.Lib, q: Q.Query, closed: bool, truth: Condition -> bool)
    requires Q.Writable(lib, q)
    requires Q.Meaning(lib, q) != Nothing && Full(Q.Meaning(lib, q)) && Ordered(Q.Meaning(lib, q))
    ensures var parsed, e, atoms := ExprSpec.Parse(lib, Q.Print(q, closed), []), Q.Meaning(lib, q), OfAtoms(truth);
            && parsed.Ok?
            && (M.Accepts(After(M.Step, M.State([], []), parsed.value).stack, Some(atoms)) <==> Means(e, atoms))
            && Emitted(parsed.value).groups == []
            && ReadSql(Emitted(parsed.value).sql, Emitted(parsed.value).args, truth) == Some(Means(e, atoms))
  {
    hide Emitted, ReadSql, After, Bind, Q.Meaning, Q.Print, Q.Writable;
    var e := Q.Meaning(lib, q);
    QueryParse.ParseText(lib, q, closed, []);
    QueryParse.MeaningIsWellFormed(lib, q);
    assert [] + Calls(e) == Calls(e);
    M.BuiltMeans(e, Some(OfAtoms(truth)));
    SqlReads(e, truth);
    OrderedAgrees(e, OfAtoms(truth));
  }

  // ---- The condition is exact ----

  // Both back ends accept the same entries, given what conditions are true of an entry.
  ghost predicate Agree(e: Expr, truth: Condition -> bool) {
    var s := Emitted(Calls(e));
    M.Accepts(After(M.Step, M.State([], []), Calls(e)).stack, Some(OfAtoms(truth)))
    <==> ReadSql(s.sql, s.args, truth) == Some(true)
  }

  // They agree where the two readings of the expression do.
  lemma {:induction false} AgreeIs(e: Expr, truth: Condition -> bool)
    requires WellFormed(e) && e != Nothing && Full(e)
    ensures Agree(e, truth) <==> Means(e, OfAtoms(truth)) == SqlMeans(e, OfAtoms(truth))
  {
    hide Emitted, ReadSql, After, Bind, SqlMeans, Means;
    M.BuiltMeans(e, Some(OfAtoms(truth)));
    SqlReads(e, truth);
  }

  // The conditions an expression is made of.
  function Conditions(e: Expr): set<Condition>
    requires WellFormed(e)
  {
    match e
    case Nothing => {}
    case One(item) => ItemConditions(item)
    case Then(left, _, item) => Conditions(left) + ItemConditions(item)
  }

  function ItemConditions(i: Item): set<Condition>
    requires WellFormedItem(i)
  {
    match i
    case Atom(call) => {ConditionOf(call)}
    case Group(body) => Conditions(body)
  }

  // No condition occurs twice.
  predicate Distinct(e: Expr)
    requires WellFormed(e)
  {
    match e
    case Nothing => true
    case One(item) => DistinctItem(item)
    case Then(left, _, item) => Distinct(left) && DistinctItem(item) && Conditions(left) !! ItemConditions(item)
  }

  predicate DistinctItem(i: Item)
    requires WellFormedItem(i)
  {
    i.Group? ==> Distinct(i.body)
  }

  // The assignment under which exactly the conditions in s are true.
  function Only(s: set<Condition>): Condition -> bool {
    c => c in s
  }

  function On(s: set<Condition>): Call -> bool {
    OfAtoms(Only(s))
  }

  lemma Within(s: set<Condition>, t: set<Condition>, whole: set<Condition>, part: set<Condition>)
    requires s * whole == t * whole && part <= whole
    ensures s * part == t * part
  {
    assert s * part == s * whole * part && t * part == t * whole * part;
  }

  // Only the conditions of e matter.
  lemma {:induction false} Local(e: Expr, s: set<Condition>, t: set<Condition>)
    requires WellFormed(e) && s * Conditions(e) == t * Conditions(e)
    ensures Means(e, On(s)) == Means(e, On(t)) && Runs(e, On(s)) == Runs(e, On(t))
    decreases e, 1
  {
    match e
    case Nothing =>
    case One(item) =>
      LocalItem(item, s, t);
    case Then(left, _, item) =>
      Within(s, t, Conditions(e), Conditions(left));
      Within(s, t, Conditions(e), ItemConditions(item));
      Local(left, s, t);
      LocalItem(item, s, t);
  }

  lemma {:induction false} LocalItem(i: Item, s: set<Condition>, t: set<Condition>)
    requires WellFormedItem(i) && s * ItemConditions(i) == t * ItemConditions(i)
    ensures ItemMeans(i, On(s)) == ItemMeans(i, On(t)) && ItemRuns(i, On(s)) == ItemRuns(i, On(t))
    decreases i, 0
  {
    match i
    case Atom(call) =>
      var c := ConditionOf(call);
      assert c in s * ItemConditions(i) <==> c in t * ItemConditions(i);
    case Group(body) =>
      Local(body, s, t);
  }

  // Both readings are true when all conditions are, false when none is.
  lemma {:induction false} Extremes(e: Expr, s: set<Condition>)
    requires WellFormed(e) && e != Nothing && Full(e)
    ensures Conditions(e) <= s ==> Means(e, On(s)) && Runs(e, On(s)).1 && (HasOr(e) ==> Runs(e, On(s)).0)
    ensures Conditions(e) !! s ==> !Means(e, On(s)) && Runs(e, On(s)) == (false, false)
    decreases e, 1
  {
    match e
    case One(item) =>
      ExtremesItem(item, s);
    case Then(left, _, item) =>
      Extremes(left, s);
      ExtremesItem(item, s);
  }

  lemma {:induction false} ExtremesItem(i: Item, s: set<Condition>)
    requires WellFormedItem(i) && FullItem(i)
    ensures ItemConditions(i) <= s ==> ItemMeans(i, On(s)) && ItemRuns(i, On(s))
    ensures ItemConditions(i) !! s ==> !ItemMeans(i, On(s)) && !ItemRuns(i, On(s))
    decreases i, 0
  {
    if i.Group? {
      Extremes(i.body, s);
    }
  }

  // The values of both readings on the two sides of the last operator.
  lemma {:induction false} Apart(left: Expr, item: Item, s: set<Condition>, t: set<Condition>)
    requires WellFormed(left) && WellFormedItem(item) && Conditions(left) !! ItemConditions(item)
    requires s <= Conditions(left) && t <= ItemConditions(item)
    ensures Means(left, On(s + t)) == Means(left, On(s)) && Runs(left, On(s + t)) == Runs(left, On(s))
    ensures ItemMeans(item, On(s + t)) == ItemMeans(item, On(t)) && ItemRuns(item, On(s + t)) == ItemRuns(item, On(t))
  {
    assert (s + t) * Conditions(left) == s * Conditions(left);
    assert (s + t) * ItemConditions(item) == t * ItemConditions(item);
    Local(left, s + t, s);
    LocalItem(item, s + t, t);
  }

  // Some assignment makes the last run alone decide, in both readings.
  lemma {:induction false} Focus(e: Expr) returns (s: set<Condition>)
    requires WellFormed(e) && e != Nothing && Full(e) && Distinct(e)
    ensures s <= Conditions(e) && Means(e, On(s)) && Runs(e, On(s)) == (false, true)
  {
    match e
    case One(item) =>
      s := ItemConditions(item);
      ExtremesItem(item, s);
    case Then(left, op, item) =>
      var t := ItemConditions(item);
      if op == And {
        var l := Focus(left);
        s := l + t;
        Apart(left, item, l, t);
      } else {
        s := {} + t;
        Apart(left, item, {}, t);
        Extremes(left, {});
      }
      ExtremesItem(item, t);
  }

  // Where an AND follows an OR on some level, some assignment tells the readings apart.
  lemma {:induction false} Disagrees(e: Expr) returns (s: set<Condition>)
    requires WellFormed(e) && Full(e) && Distinct(e) && !Ordered(e)
    ensures s <= Conditions(e) && Means(e, On(s)) != SqlMeans(e, On(s))
  {
    match e
    case One(item) =>
      s := Disagrees(item.body);
      assert ItemMeans(item, On(s)) != ItemRuns(item, On(s));
    case Then(left, op, item) =>
      if !Ordered(left) {
        var l := Disagrees(left);
        var t := if op == And then ItemConditions(item) else {};
        s := l + t;
        Apart(left, item, l, t);
        ExtremesItem(item, t);
      } else if !OrderedItem(item) {
        var t := Disagrees(item.body);
        assert ItemMeans(item, On(t)) != ItemRuns(item, On(t));
        if op == And {
          var l := Focus(left);
          s := l + t;
          Apart(left, item, l, t);
        } else {
          s := {} + t;
          Apart(left, item, {}, t);
          Extremes(left, {});
        }
      } else {
        s := Conditions(left) + {};
        Apart(left, item, Conditions(left), {});
        Extremes(left, Conditions(left));
        ExtremesItem(item, {});
        assert !Means(e, On(s)) && SqlMeans(e, On(s));
      }
  }

  // Main theorem: over distinct conditions the two back ends accept the same for every assignment if and only
  // if no AND follows an OR on the same level.
  lemma {:induction false} AgreeExactly(e: Expr)
    requires WellFormed(e) && e != Nothing && Full(e) && Distinct(e)
    ensures (forall truth: Condition -> bool :: Agree(e, truth)) <==> Ordered(e)
  {
    if Ordered(e) {
      forall truth: Condition -> bool ensures Agree(e, truth) {
        AgreeIs(e, truth);
        OrderedAgrees(e, OfAtoms(truth));
      }
    } else {
      var s := Disagrees(e);
      AgreeIs(e, Only(s));
    }
  }

  // An entry whose field f is a:  f:a OR f:b AND f:c  does not find it in memory, and does in SQL.
  const MIXED := Then(Then(One(Plain("a")), Or, Plain("b")), And, Plain("c"))

  function Plain(term: string): Item {
    Atom(Text("f", term, false, false))
  }

  lemma MixedReadings(truth: Call -> bool)
    requires truth(Plain("a").call) && !truth(Plain("b").call) && !truth(Plain("c").call)
    ensures WellFormed(MIXED) && Full(MIXED) && !Means(MIXED, truth) && SqlMeans(MIXED, truth)
  {
    var either := Then(One(Plain("a")), Or, Plain("b"));
    assert WellFormed(either) && Full(either) && Means(either, truth) && Runs(either, truth) == (true, false);
  }

  lemma TermsDiffer()
    ensures ConditionOf(Plain("b").call) != ConditionOf(Plain("a").call)
    ensures ConditionOf(Plain("c").call) != ConditionOf(Plain("a").call)
  {
    assert ("*" + "a" + "*")[1] == 'a' && ("*" + "b" + "*")[1] == 'b' && ("*" + "c" + "*")[1] == 'c';
  }

  lemma {:induction false} TheyDiffer()
    ensures var s, truth := Emitted(Calls(MIXED)), Only({ConditionOf(Plain("a").call)});
            && !M.Accepts(After(M.Step, M.State([], []), Calls(MIXED)).stack, Some(OfAtoms(truth)))
            && ReadSql(s.sql, s.args, truth) == Some(true)
  {
    hide Emitted, ReadSql, After, Bind, SqlMeans, Means, ConditionOf, Calls, WellFormed, Full;
    var truth := Only({ConditionOf(Plain("a").call)});
    TermsDiffer();
    MixedReadings(OfAtoms(truth));
    M.BuiltMeans(MIXED, Some(OfAtoms(truth)));
    SqlReads(MIXED, truth);
  }
}
