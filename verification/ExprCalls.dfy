// The interface between the search-expression parser and its back ends: the calls of ExprBuilder
// (expr.go), and the expressions whose calls make sense.
module ExprCalls {

  datatype Op = And | Or

  datatype Cond = Eq | Gt | Ge | Lt | Le

  // float64 values are modelled as real.
  datatype Call =
    | GroupStart
    | GroupEnd
    | Operator(op: Op)
    | Text(field: string, term: string, isSequence: bool, isWildcard: bool)
    | Number(field: string, cond: Cond, value: real)
    | Between(field: string, x: real, y: real)
    | TextIn(field: string, texts: seq<string>)
    | NumberIn(field: string, numbers: seq<real>)
  {
    predicate IsAtom() {
      !GroupStart? && !GroupEnd? && !Operator?
    }
  }

  // expr := nothing | item (op item)*      item := atom | ( expr )
  // The chain leans to the left, as it is read.
  datatype Expr = Nothing | One(item: Item) | Then(left: Expr, op: Op, item: Item)

  datatype Item = Atom(call: Call) | Group(body: Expr)

  predicate WellFormed(e: Expr) {
    match e
    case Nothing => true
    case One(item) => WellFormedItem(item)
    case Then(left, _, item) => left != Nothing && WellFormed(left) && WellFormedItem(item)
  }

  predicate WellFormedItem(i: Item) {
    match i
    case Atom(call) => call.IsAtom()
    case Group(body) => WellFormed(body)
  }

  // The calls an expression stands for.
  function Calls(e: Expr): seq<Call> {
    match e
    case Nothing => []
    case One(item) => ItemCalls(item)
    case Then(left, op, item) => Calls(left) + [Operator(op)] + ItemCalls(item)
  }

  function ItemCalls(i: Item): seq<Call> {
    match i
    case Atom(call) => [call]
    case Group(body) => [GroupStart] + Calls(body) + [GroupEnd]
  }

  // One more item: the operator is written only between two items.
  function Extend(e: Expr, op: Op, item: Item): (r: Expr)
    ensures r != Nothing
    ensures WellFormed(e) && WellFormedItem(item) ==> WellFormed(r)
    ensures Calls(r) == Calls(e) + (if e == Nothing then [] else [Operator(op)]) + ItemCalls(item)
  {
    if e == Nothing then One(item) else Then(e, op, item)
  }

  // What an expression accepts, given the truth of its atoms: operators apply from left to right, a group
  // counts as one item, and an expression without items accepts everything.
  predicate Means(e: Expr, truth: Call -> bool) {
    match e
    case Nothing => true
    case One(item) => ItemMeans(item, truth)
    case Then(left, op, item) =>
      if op == And then Means(left, truth) && ItemMeans(item, truth)
      else Means(left, truth) || ItemMeans(item, truth)
  }

  predicate ItemMeans(i: Item, truth: Call -> bool) {
    match i
    case Atom(call) => truth(call)
    case Group(body) => Means(body, truth)
  }

  lemma Assoc<T>(a: seq<T>, b: seq<T>, c: seq<T>, d: seq<T>)
    ensures a + b + c + d == a + (b + c + d)
  {
  }

  // A builder's state after a sequence of calls.
  function After<S>(step: (S, Call) -> S, s: S, calls: seq<Call>): S {
    if calls == [] then s else After(step, step(s, calls[0]), calls[1..])
  }

  lemma {:induction false} AfterBoth<S>(step: (S, Call) -> S, s: S, first: seq<Call>, second: seq<Call>)
    ensures After(step, s, first + second) == After(step, After(step, s, first), second)
  {
    if first == [] {
      assert first + second == second;
    } else {
      AfterBoth(step, step(s, first[0]), first[1..], second);
      assert (first + second)[1..] == first[1..] + second;
    }
  }

  lemma AfterNone<S>(step: (S, Call) -> S, s: S)
    ensures After(step, s, []) == s
  {
  }

  lemma AfterOne<S>(step: (S, Call) -> S, s: S, call: Call)
    ensures After(step, s, [call]) == step(s, call)
  {
    assert After(step, step(s, call), [call][1..]) == step(s, call);
  }
}
