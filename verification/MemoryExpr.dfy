// The in-memory back end (memory/memory_expr.go): the builder grows a tree of nodes, evaluated on entries.
module MemoryExpr {
  import opened ExprCalls
  import ExprGrammar
  import ExprSpec
  import GlobSearch
  import opened Options
  import Wildcard

  // memExprText, memExprNumber and the other atoms are leaves.
  datatype Node = Leaf(call: Call) | AndNode(stack: seq<Node>) | OrNode(stack: seq<Node>) | GroupNode(stack: seq<Node>)

  // The eval methods.
  predicate Eval(n: Node, truth: Call -> bool) {
    match n
    case Leaf(call) => truth(call)
    case AndNode(stack) => forall i :: 0 <= i < |stack| ==> Eval(stack[i], truth)
    case OrNode(stack) => exists i :: 0 <= i < |stack| && Eval(stack[i], truth)
    case GroupNode(stack) => forall i :: 0 <= i < |stack| ==> Eval(stack[i], truth)
  }

  // The predicate Build returns.  An entry whose content is not a JSON object has no atoms (None).
  predicate Accepts(stack: seq<Node>, entry: Option<Call -> bool>) {
    if |stack| == 0 then true
    else entry.Some? && forall i :: 0 <= i < |stack| ==> Eval(stack[i], entry.value)
  }

  datatype State = State(stack: seq<Node>, groups: seq<seq<Node>>)

  function Last(stack: seq<Node>): Node
    requires |stack| > 0
  {
    stack[|stack| - 1]
  }

  function Add(stack: seq<Node>, n: Node): seq<Node> {
    if |stack| == 0 then [n]
    else
      match Last(stack)
      case AndNode(inner) => stack[|stack| - 1 := AndNode(inner + [n])]
      case OrNode(inner) => stack[|stack| - 1 := OrNode(inner + [n])]
      case _ => stack + [n]
  }

  function Join(n: Node, op: Op): Node {
    match op
    case And => if n.AndNode? then n else AndNode([n])
    case Or => if n.OrNode? then n else OrNode([n])
  }

  function Step(s: State, call: Call): State {
    match call
    case GroupStart => State([], s.groups + [s.stack])
    case GroupEnd =>
      if |s.groups| == 0 then s
      else State(Add(s.groups[|s.groups| - 1], GroupNode(s.stack)), s.groups[..|s.groups| - 1])
    case Operator(op) =>
      if |s.stack| == 0 then s else s.(stack := s.stack[|s.stack| - 1 := Join(Last(s.stack), op)])
    case _ => s.(stack := Add(s.stack, Leaf(call)))
  }

  class MemoryExprBuilder {
    var stack: seq<Node>
    var groupStack: seq<seq<Node>>

    constructor ()
      ensures View() == State([], [])
    {
      stack, groupStack := [], [];
    }

    ghost function View(): State
      reads this
    {
      State(stack, groupStack)
    }

    method Build() returns (expr: Option<Call -> bool> -> bool)
      ensures forall entry :: expr(entry) == Accepts(stack, entry)
    {
      var nodes := stack;
      expr := entry => Accepts(nodes, entry);
    }

    method AddNode(n: Node)
      modifies this
      ensures View() == old(View()).(stack := Add(old(stack), n))
    {
      if |stack| > 0 {
        var last := stack[|stack| - 1];
        if last.AndNode? {
          stack := stack[|stack| - 1 := AndNode(last.stack + [n])];
          return;
        }
        if last.OrNode? {
          stack := stack[|stack| - 1 := OrNode(last.stack + [n])];
          return;
        }
      }
      stack := stack + [n];
    }

    method Operator(op: Op)
      modifies this
      ensures View() == Step(old(View()), Call.Operator(op))
    {
      if |stack| == 0 {
        return;
      }
      var last := stack[|stack| - 1];
      if op == And {
        if !last.AndNode? {
          stack := stack[|stack| - 1 := AndNode([last])];
        }
      } else {
        if !last.OrNode? {
          stack := stack[|stack| - 1 := OrNode([last])];
        }
      }
    }

    method GroupStart()
      modifies this
      ensures View() == Step(old(View()), Call.GroupStart)
    {
      groupStack := groupStack + [stack];
      stack := [];
    }

    method GroupEnd()
      modifies this
      ensures View() == Step(old(View()), Call.GroupEnd)
    {
      if |groupStack| == 0 {
        return;
      }
      var group := GroupNode(stack);
      stack := groupStack[|groupStack| - 1];
      groupStack := groupStack[..|groupStack| - 1];
      AddNode(group);
    }

    // Text, Number, Between, TextIn and NumberIn.
    method Term(call: Call)
      requires call.IsAtom()
      modifies this
      ensures View() == Step(old(View()), call)
    {
      AddNode(Leaf(call));
    }
  }

  // ---- What the builder builds ----

  // No AND is directly inside an AND, nor an OR inside an OR, and neither is empty.
  predicate Flat(n: Node) {
    && (n.AndNode? ==> |n.stack| > 0 && forall i :: 0 <= i < |n.stack| ==> !n.stack[i].AndNode?)
    && (n.OrNode? ==> |n.stack| > 0 && forall i :: 0 <= i < |n.stack| ==> !n.stack[i].OrNode?)
  }

  // The stack of one level: nothing, or one node that means e.
  ghost predicate Holds(stack: seq<Node>, e: Expr, truth: Call -> bool) {
    if e == Nothing then stack == []
    else
      && |stack| == 1
      && (Eval(stack[0], truth) <==> Means(e, truth))
      && Flat(stack[0])
  }

  // The same, ready to take one more item: the node is of the operator's kind and not empty.
  lemma {:induction false} JoinHolds(n: Node, op: Op, item: Node, truth: Call -> bool)
    requires Flat(n)
    ensures !item.AndNode? && !item.OrNode? ==> Flat(Add([Join(n, op)], item)[0])
    ensures Add([Join(n, op)], item) == [Join(n, op).(stack := Join(n, op).stack + [item])]
    ensures Eval(Add([Join(n, op)], item)[0], truth)
       <==> if op == And then Eval(n, truth) && Eval(item, truth) else Eval(n, truth) || Eval(item, truth)
  {
    var inner := Join(n, op).stack;
    var all := inner + [item];
    assert all[|inner|] == item && forall i :: 0 <= i < |inner| ==> all[i] == inner[i];
    if op == And {
      if n.AndNode? {
      } else {
        assert inner[0] == n;
      }
      assert Eval(AndNode(all), truth) <==> Eval(AndNode(inner), truth) && Eval(item, truth);
    } else {
      assert Eval(OrNode(inner), truth) <==> Eval(n, truth) by {
        if !n.OrNode? { assert inner[0] == n; }
      }
      assert Eval(OrNode(all), truth) <==> Eval(OrNode(inner), truth) || Eval(item, truth) by {
        if i :| 0 <= i < |inner| && Eval(inner[i], truth) { assert Eval(all[i], truth); }
      }
    }
  }

  // The state after an expression's calls, made at the start of a level.
  lemma {:induction false} Builds(e: Expr, groups: seq<seq<Node>>, truth: Call -> bool)
    requires WellFormed(e)
    ensures var s := After(Step, State([], groups), Calls(e));
            s.groups == groups && Holds(s.stack, e, truth)
    decreases e, 1
  {
    hide After;
    var start := State([], groups);
    match e
    case Nothing =>
      AfterNone(Step, start);
    case One(item) =>
      var n := BuildsItem(item, start, truth);
    case Then(left, op, item) =>
      Builds(left, groups, truth);
      AfterBoth(Step, start, Calls(left) + [Operator(op)], ItemCalls(item));
      AfterBoth(Step, start, Calls(left), [Operator(op)]);
      var s := After(Step, start, Calls(left));
      AfterOne(Step, s, Operator(op));
      var n := BuildsItem(item, Step(s, Operator(op)), truth);
      JoinHolds(s.stack[0], op, n, truth);
  }

  // One item adds one node, which means the item.
  lemma {:induction false} BuildsItem(item: Item, s: State, truth: Call -> bool) returns (n: Node)
    requires WellFormedItem(item)
    ensures After(Step, s, ItemCalls(item)) == s.(stack := Add(s.stack, n))
    ensures !n.OrNode? && !n.AndNode? && (Eval(n, truth) <==> ItemMeans(item, truth))
    decreases item, 0
  {
    hide After;
    match item
    case Atom(call) =>
      n := Leaf(call);
      AfterOne(Step, s, call);
    case Group(body) =>
      AfterBoth(Step, s, [GroupStart] + Calls(body), [GroupEnd]);
      AfterBoth(Step, s, [GroupStart], Calls(body));
      AfterOne(Step, s, GroupStart);
      Builds(body, s.groups + [s.stack], truth);
      var t := After(Step, State([], s.groups + [s.stack]), Calls(body));
      n := GroupNode(t.stack);
      AfterOne(Step, t, GroupEnd);
      assert t.groups[..|t.groups| - 1] == s.groups;
  }

  // Main theorem: the predicate built from an expression's calls is the left-to-right reading of the
  // expression, each level of which leaves at most one node.
  lemma {:induction false} BuiltMeans(e: Expr, entry: Option<Call -> bool>)
    requires WellFormed(e)
    ensures var s := After(Step, State([], []), Calls(e));
            && s.groups == [] && |s.stack| == (if e == Nothing then 0 else 1) && (s.stack != [] ==> Flat(s.stack[0]))
            && (Accepts(s.stack, entry) <==> e == Nothing || (entry.Some? && Means(e, entry.value)))
  {
    Builds(e, [], if entry.Some? then entry.value else (c: Call) => true);
  }

  // So is the predicate of every text the parser accepts.
  lemma {:induction false} ParsedMeans(lib: ExprSpec.Lib, qs: string, entry: Option<Call -> bool>) returns (e: Expr)
    requires ExprSpec.Parse(lib, qs, []).Ok?
    ensures WellFormed(e) && ExprSpec.Parse(lib, qs, []) == ExprSpec.Ok(Calls(e))
    ensures Accepts(After(Step, State([], []), ExprSpec.Parse(lib, qs, []).value).stack, entry)
       <==> e == Nothing || (entry.Some? && Means(e, entry.value))
  {
    e := ExprGrammar.ParsesToExpr(lib, qs, []);
    assert [] + Calls(e) == Calls(e);
    BuiltMeans(e, entry);
  }

  // What a text atom answers on the value of its field.
  ghost predicate Answers(value: Option<string>, term: string, isSequence: bool, isWildcard: bool, r: bool) {
    match value
    case None => !r
    case Some(v) =>
      if isSequence && !isWildcard then r <==> v == term
      else GlobSearch.Computes(if isWildcard then term else "*" + term + "*", v, r)
  }

  // memExprText.eval; value is what memExprGetText finds, None when it finds nothing.  The term is as the
  // parser passes it: isWildcard says whether it contains '*' or '?'.
  method EvalText(value: Option<string>, term: string, isSequence: bool, isWildcard: bool) returns (r: bool)
    ensures Answers(value, term, isSequence, isWildcard, r)
    ensures value.None? ==> !r
    ensures value.Some? && isWildcard ==> Wildcard.Correct(term, value.value, r)
    ensures value.Some? && !isWildcard && isSequence ==> (r <==> value.value == term)
    ensures value.Some? && !isWildcard && !isSequence ==> Wildcard.Correct("*" + term + "*", value.value, r)
    ensures value.Some? && !isWildcard && !isSequence && !ExprSpec.HasWild(term)
            ==> (r <==> Wildcard.Occurs(term, value.value))
  {
    if value.None? {
      return false;
    }
    if isSequence {
      if isWildcard {
        r := Wildcard.WildcardMatch(term, value.value);
        return;
      }
      return value.value == term;
    }
    if isWildcard {
      r := Wildcard.WildcardMatch(term, value.value);
      return;
    }
    r := Wildcard.WildcardMatch("*" + term + "*", value.value);
    if !ExprSpec.HasWild(term) {
      Wildcard.PlainTermIsSubstring(GlobSearch.ZeroOrOne, term, value.value);
    }
  }
}
