// Whatever the parser accepts, the calls it has made form an expression: groups balance and every
// operator stands between two items.
module ExprGrammar {
  import opened ExprCalls
  import opened ExprSpec

  // The calls made so far are those before this parse and a well-formed expression e.
  ghost predicate Follows(s: State, before: seq<Call>, e: Expr) {
    WellFormed(e) && s.calls == before + Calls(e) && (s.dirty <==> e != Nothing)
  }

  lemma {:induction false} Emits(s: State, before: seq<Call>, e: Expr, item: Item) returns (r: Expr)
    requires Follows(s, before, e) && WellFormedItem(item)
    ensures WellFormed(r) && r != Nothing
    ensures AddOperator(s).calls + ItemCalls(item) == before + Calls(r)
  {
    hide WellFormed, WellFormedItem, Calls, ItemCalls;
    var op := if s.operator.None? then And else s.operator.value;
    r := Extend(e, op, item);
    var word := if e == Nothing then [] else [Operator(op)];
    assert AddOperator(s).calls == before + Calls(e) + word;
    Assoc(before, Calls(e), word, ItemCalls(item));
  }

  lemma {:induction false} PartsSplit(lib: Lib, parts: seq<string>)
    ensures |Numbers(lib, parts)| + |Texts(lib, parts)| == |parts|
  {
    if parts != [] {
      PartsSplit(lib, parts[..|parts| - 1]);
    }
  }

  // An array that is not a range is one item.
  lemma {:induction false} ArrayIsItem(field: string, numbers: seq<real>, texts: seq<string>) returns (item: Item)
    requires |numbers| + |texts| > 0
    ensures WellFormedItem(item) && ItemCalls(item) == ArrayCalls(field, numbers, texts)
  {
    var t := Atom(TextIn(field, texts));
    if |numbers| == 0 {
      item := t;
    } else {
      var call := if |numbers| == 1 then Number(field, Eq, numbers[0]) else NumberIn(field, numbers);
      if |texts| == 0 {
        item := Atom(call);
      } else {
        assert ItemCalls(Atom(call)) == [call] && ItemCalls(t) == [t.call];
        item := Group(Extend(Extend(Nothing, And, Atom(call)), Or, t));
        Assoc([GroupStart], [call], [Operator(Or)], [t.call]);
      }
    }
  }

  lemma {:induction false} CloseArrayFollows(lib: Lib, s: State, before: seq<Call>, e: Expr) returns (r: Expr)
    requires Follows(s, before, e) && CloseArray(lib, s).Ok?
    ensures Follows(CloseArray(lib, s).value, before, r)
  {
    r := e;
    if s.inArray && s.parts != [] {
      var item;
      if IsRange(s.parts) {
        var x, y := lib.parseFloat(s.parts[0]), lib.parseFloat(s.parts[2]);
        item := Atom(Between(FieldName(s), x.value, y.value));
      } else {
        PartsSplit(lib, s.parts);
        item := ArrayIsItem(FieldName(s), Numbers(lib, s.parts), Texts(lib, s.parts));
      }
      r := Emits(s.(inArray := false), before, e, item);
    }
  }

  lemma {:induction false} TermFollows(lib: Lib, s: State, before: seq<Call>, e: Expr) returns (r: Expr)
    requires Follows(s, before, e)
    ensures Follows(AddTermSingle(lib, s), before, r)
  {
    r := e;
    if !s.inArray && |s.buf| > 0 && AsOperator(s.buf).None? {
      r := Emits(s, before, e, Atom(WordCall(lib, s)));
    }
  }

  lemma {:induction false} SequenceFollows(s: State, before: seq<Call>, e: Expr) returns (r: Expr)
    requires Follows(s, before, e)
    ensures Follows(AddTermSequence(s), before, r)
  {
    r := e;
    if !s.inArray && |s.buf| > 0 {
      r := Emits(s, before, e, Atom(Text(FieldName(s), s.buf, true, HasWild(s.buf))));
    }
  }

  lemma {:induction false} FeedFollows(lib: Lib, at: nat, esc: bool, b: char, s: State, before: seq<Call>, e: Expr)
      returns (r: Expr)
    requires Escaping(esc, s) && Follows(s, before, e) && Feed(lib, at, esc, b, s).Ok?
    ensures Follows(Feed(lib, at, esc, b, s).value, before, r)
  {
    r := e;
    if b == ']' && s.inArray && !s.inQuote && !esc {
      r := TermFollows(lib, s, before, r);
      r := CloseArrayFollows(lib, AddTermSingle(lib, s), before, r);
    } else if b == ' ' && !s.inQuote {
      r := TermFollows(lib, s, before, r);
    } else if b == '"' && !esc && s.inQuote {
      r := SequenceFollows(s.(inQuote := false), before, r);
    }
  }

  lemma {:induction false} ScanFollows(lib: Lib, at: nat, esc: bool, cs: string, s: State, before: seq<Call>, e: Expr)
      returns (r: Expr)
    requires Escaping(esc, s) && Follows(s, before, e) && Scan(lib, at, esc, cs, s).Ok?
    ensures Follows(Scan(lib, at, esc, cs, s).value, before, r)
    decreases |cs|, 0
  {
    hide Split, Feed, Calls, WellFormed;
    if cs == [] {
      r := e;
    } else if OpensGroup(cs[0], s) {
      ScanOpens(lib, at, esc, cs, s);
      var (inner, rest) := Split(cs[1..], 1, false, false);
      var t := AddOperator(s);
      var body := ParsesToExpr(lib, inner, t.calls + [GroupStart]);
      var calls := Parse(lib, inner, t.calls + [GroupStart]).value;
      r := Emits(s, before, e, Group(body));
      Assoc(t.calls, [GroupStart], Calls(body), [GroupEnd]);
      var after := t.(calls := calls + [GroupEnd], dirty := true);
      assert Follows(after, before, r);
      r := ScanFollows(lib, at + |cs| - |rest|, false, rest, after, before, r);
    } else {
      ScanFeeds(lib, at, esc, cs, s);
      r := FeedFollows(lib, at, esc, cs[0], s, before, e);
      r := ScanFollows(lib, at + 1, cs[0] == '\\', cs[1..], Feed(lib, at, esc, cs[0], s).value, before, r);
    }
  }

  // Main theorem: on every input the parser accepts, the builder receives the calls of a well-formed
  // expression, after whatever it had received before.
  lemma {:induction false} ParsesToExpr(lib: Lib, qs: string, before: seq<Call>) returns (e: Expr)
    requires Parse(lib, qs, before).Ok?
    ensures WellFormed(e) && Parse(lib, qs, before).value == before + Calls(e)
    decreases |qs|, 1
  {
    assert Follows(Start(before), before, Nothing);
    e := ScanFollows(lib, 0, false, qs, Start(before), before, Nothing);
    var s := Scan(lib, 0, false, qs, Start(before)).value;
    if s.inQuote {
      e := SequenceFollows(s, before, e);
      e := CloseArrayFollows(lib, AddTermSequence(s), before, e);
    } else {
      e := TermFollows(lib, s, before, e);
      e := CloseArrayFollows(lib, AddTermSingle(lib, s), before, e);
    }
  }

  // ---- The calls determine the expression ----

  // The open groups, innermost first: the expression so far and the last operator.
  datatype Level = Bottom | Level(e: Expr, op: Op, outer: Level)

  function Rebuild(s: Level, call: Call): Level {
    if s.Bottom? then s
    else
      match call
      case GroupStart => Level(Nothing, And, s)
      case GroupEnd =>
        if s.outer.Bottom? then s else s.outer.(e := Extend(s.outer.e, s.outer.op, Group(s.e)))
      case Operator(op) => s.(op := op)
      case _ => s.(e := Extend(s.e, s.op, Atom(call)))
  }

  lemma {:induction false} Rebuilds(e: Expr, s: Level)
    requires WellFormed(e) && s.Level? && s.e == Nothing
    ensures var r := After(Rebuild, s, Calls(e)); r.Level? && r.e == e && r.outer == s.outer
    decreases e, 1
  {
    match e
    case Nothing =>
    case One(item) =>
      RebuildsItem(item, s);
    case Then(left, op, item) =>
      hide After;
      Rebuilds(left, s);
      AfterBoth(Rebuild, s, Calls(left) + [Operator(op)], ItemCalls(item));
      AfterBoth(Rebuild, s, Calls(left), [Operator(op)]);
      var t := After(Rebuild, s, Calls(left));
      AfterOne(Rebuild, t, Operator(op));
      RebuildsItem(item, Rebuild(t, Operator(op)));
  }

  lemma {:induction false} RebuildsItem(item: Item, s: Level)
    requires WellFormedItem(item) && s.Level?
    ensures After(Rebuild, s, ItemCalls(item)) == s.(e := Extend(s.e, s.op, item))
    decreases item, 0
  {
    hide After;
    match item
    case Atom(call) =>
      AfterOne(Rebuild, s, call);
    case Group(body) =>
      var t := Level(Nothing, And, s);
      AfterBoth(Rebuild, s, [GroupStart] + Calls(body), [GroupEnd]);
      AfterBoth(Rebuild, s, [GroupStart], Calls(body));
      AfterOne(Rebuild, s, GroupStart);
      Rebuilds(body, t);
      AfterOne(Rebuild, After(Rebuild, t, Calls(body)), GroupEnd);
  }

  // No two expressions have the same calls, so the expression of an accepted input is the only one.
  lemma {:induction false} CallsDetermine(a: Expr, b: Expr)
    requires WellFormed(a) && WellFormed(b) && Calls(a) == Calls(b)
    ensures a == b
  {
    var s := Level(Nothing, And, Bottom);
    Rebuilds(a, s);
    Rebuilds(b, s);
  }
}
