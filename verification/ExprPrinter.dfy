// How any expression is written as a query, so that the parser makes its calls.
module ExprPrinter {
  import opened ExprCalls
  import opened Options
  import opened S = ExprSpec
  import opened QueryText
  import opened QueryParse

  // A number as it is written: the parser reads it back, and it is neither a keyword nor a comparison.
  predicate Numeral(lib: Lib, show: real -> string, v: real) {
    var t := show(v);
    && t != "" && Fits(InArray, t) && !EndsInBackslash(t, false) && t[0] != '<' && t[0] != '>' && t[0] != '='
    && lib.parseFloat(t) == Some(v) && lib.trim(t) == t && !IsLink(t) && t != "TO"
  }

  // The atoms that can be written: fields that trimming leaves alone, and for every kind of atom the terms that
  // the parser does not take for another kind.
  ghost predicate PrintableAtom(lib: Lib, show: real -> string, call: Call) {
    && call.IsAtom() && call.field != "" && lib.trim(call.field) == call.field
    && Fits(Outside, call.field) && !EndsInBackslash(call.field, false)
    && match call
       case Text(field, term, isSequence, isWildcard) =>
         && isWildcard == Wild(term) && term != ""
         && WritableValue(lib, field, if isSequence then Phrase(term) else Word(term))
       case Number(_, _, v) => Numeral(lib, show, v)
       case Between(_, x, y) => Numeral(lib, show, x) && Numeral(lib, show, y)
       case TextIn(_, texts) =>
         && texts != [] && !(|texts| == 3 && texts[1] == "TO")
         && forall i :: 0 <= i < |texts| ==> !EndsInBackslash(texts[i], false) && lib.parseFloat(texts[i]).None?
       case NumberIn(_, numbers) =>
         |numbers| > 1 && forall i :: 0 <= i < |numbers| ==> Numeral(lib, show, numbers[i])
       case _ => false
  }

  // Operators and groups may nest freely; groups may be empty.
  ghost predicate Printable(lib: Lib, show: real -> string, e: Expr) {
    match e
    case Nothing => true
    case One(item) => PrintableItem(lib, show, item)
    case Then(left, _, item) => left != Nothing && Printable(lib, show, left) && PrintableItem(lib, show, item)
  }

  ghost predicate PrintableItem(lib: Lib, show: real -> string, i: Item) {
    match i
    case Group(body) => Printable(lib, show, body)
    case Atom(call) => PrintableAtom(lib, show, call)
  }

  function Numerals(show: real -> string, numbers: seq<real>): (r: seq<Part>)
    ensures |r| == |numbers|
  {
    seq(|numbers|, i requires 0 <= i < |numbers| => Part(show(numbers[i]), false))
  }

  function Quotations(texts: seq<string>): (r: seq<Part>)
    ensures |r| == |texts|
  {
    seq(|texts|, i requires 0 <= i < |texts| => Part(texts[i], true))
  }

  function ValueOf(show: real -> string, call: Call): Value {
    match call
    case Text(_, term, isSequence, _) => if isSequence then Phrase(term) else Word(term)
    case Number(_, cond, v) => Amount(cond, show(v))
    case Between(_, x, y) => Array([Part(show(x), false), Part("TO", false), Part(show(y), false)])
    case TextIn(_, texts) => Array(Quotations(texts))
    case NumberIn(_, numbers) => Array(Numerals(show, numbers))
    case _ => Phrase("")
  }

  function PieceOf(show: real -> string, i: Item): Piece {
    match i
    case Group(body) => Paren(QueryOf(show, body))
    case Atom(call) => if call.IsAtom() then Clause(Some(call.field), ValueOf(show, call)) else Gap
  }

  function QueryOf(show: real -> string, e: Expr): Query {
    match e
    case Nothing => Empty
    case One(item) => More(Empty, false, PieceOf(show, item))
    case Then(left, op, item) =>
      var link := Link(None, if op == And then "AND" else "OR");
      More(More(QueryOf(show, left), false, link), false, PieceOf(show, item))
  }

  lemma {:induction false} NumeralsMean(lib: Lib, show: real -> string, numbers: seq<real>)
    requires forall i :: 0 <= i < |numbers| ==> Numeral(lib, show, numbers[i])
    ensures NumbersOf(lib, Numerals(show, numbers)) == numbers && TextsOf(lib, Numerals(show, numbers)) == []
    ensures forall i :: 0 <= i < |numbers| ==> WritablePart(Numerals(show, numbers)[i])
  {
    if numbers != [] {
      NumeralsMean(lib, show, numbers[1..]);
      assert Numerals(show, numbers)[1..] == Numerals(show, numbers[1..]);
      assert [numbers[0]] + numbers[1..] == numbers;
    }
  }

  lemma {:induction false} QuotationsMean(lib: Lib, texts: seq<string>)
    requires forall i :: 0 <= i < |texts| ==> lib.parseFloat(texts[i]).None?
    ensures NumbersOf(lib, Quotations(texts)) == [] && TextsOf(lib, Quotations(texts)) == texts
  {
    if texts != [] {
      QuotationsMean(lib, texts[1..]);
      assert Quotations(texts)[1..] == Quotations(texts[1..]);
      assert [texts[0]] + texts[1..] == texts;
    }
  }

  lemma {:induction false} NumeralCompares(lib: Lib, show: real -> string, cond: Cond, v: real)
    requires Numeral(lib, show, v)
    ensures var t := Sign(cond) + show(v);
            Compares(lib, t, cond, show(v)) && Fits(Outside, t) && !IsLink(t) && t != ""
  {
    var n := show(v);
    assert "" + n == n;
    PrefixOne('<', n);
    PrefixOne('>', n);
    PrefixOne('=', n);
    if cond != Eq {
      assert (Sign(cond) + n)[0] == '<' || (Sign(cond) + n)[0] == '>';
    }
  }

  lemma {:induction false} RangeMeans(lib: Lib, show: real -> string, x: real, y: real, field: string)
    requires Numeral(lib, show, x) && Numeral(lib, show, y)
    ensures var v := ValueOf(show, Between(field, x, y));
            WritableValue(lib, field, v) && ValueItem(lib, field, v) == Some(Atom(Between(field, x, y)))
  {
    var parts := [Part(show(x), false), Part("TO", false), Part(show(y), false)];
    assert WritablePart(parts[1]);
  }

  lemma {:induction false} NumbersMean(lib: Lib, show: real -> string, numbers: seq<real>, field: string)
    requires |numbers| > 1 && forall i :: 0 <= i < |numbers| ==> Numeral(lib, show, numbers[i])
    ensures var v := Array(Numerals(show, numbers));
            WritableValue(lib, field, v) && ValueItem(lib, field, v) == Some(Atom(NumberIn(field, numbers)))
  {
    NumeralsMean(lib, show, numbers);
    hide NumbersOf, TextsOf;
    assert Numeral(lib, show, numbers[1]) && Numeral(lib, show, numbers[|numbers| - 1]);
  }

  lemma {:induction false} TextsMean(lib: Lib, texts: seq<string>, field: string)
    requires texts != [] && !(|texts| == 3 && texts[1] == "TO")
    requires forall i :: 0 <= i < |texts| ==> !EndsInBackslash(texts[i], false) && lib.parseFloat(texts[i]).None?
    ensures var v := Array(Quotations(texts));
            WritableValue(lib, field, v) && ValueItem(lib, field, v) == Some(Atom(TextIn(field, texts)))
  {
    QuotationsMean(lib, texts);
    hide NumbersOf, TextsOf;
  }

  lemma {:induction false} AtomMeans(lib: Lib, show: real -> string, call: Call)
    requires PrintableAtom(lib, show, call)
    ensures WritablePiece(lib, "", PieceOf(show, Atom(call)))
    ensures PieceItem(lib, "", PieceOf(show, Atom(call))) == Some(Atom(call))
  {
    match call
    case Text(_, _, _, _) =>
    case Number(_, cond, v) => NumeralCompares(lib, show, cond, v);
    case Between(field, x, y) => RangeMeans(lib, show, x, y, field);
    case TextIn(field, texts) => TextsMean(lib, texts, field);
    case NumberIn(field, numbers) => NumbersMean(lib, show, numbers, field);
  }

  lemma {:induction false} PieceMeans(lib: Lib, show: real -> string, i: Item)
    requires PrintableItem(lib, show, i)
    ensures WritablePiece(lib, "", PieceOf(show, i)) && PieceItem(lib, "", PieceOf(show, i)) == Some(i)
    decreases i
  {
    match i
    case Group(body) => QueryMeans(lib, show, body);
    case Atom(call) => AtomMeans(lib, show, call);
  }

  // What is written for an expression means it.
  lemma {:induction false} QueryMeans(lib: Lib, show: real -> string, e: Expr)
    requires Printable(lib, show, e)
    ensures Writable(lib, QueryOf(show, e)) && Meaning(lib, QueryOf(show, e)) == e
    ensures InForce(lib, QueryOf(show, e), false) == ""
    decreases e
  {
    match e
    case Nothing =>
    case One(item) =>
      PieceMeans(lib, show, item);
      hide PieceOf, PieceItem, WritablePiece;
      assert LastItem(lib, QueryOf(show, e)) == Some(item);
    case Then(left, op, item) =>
      QueryMeans(lib, show, left);
      PieceMeans(lib, show, item);
      assert !PieceOf(show, item).Link?;
      hide PieceOf, Printable, PrintableItem;
      var front := More(QueryOf(show, left), false, Link(None, if op == And then "AND" else "OR"));
      assert InForce(lib, front, false) == Carried(lib, front) == InForce(lib, QueryOf(show, left), false);
      assert Spells("AND", And) && Spells("OR", Or);
      assert Writable(lib, front) && LastItem(lib, front) == None;
      assert Meaning(lib, front) == left && Pending(lib, front) == Some(op);
  }

  // So every expression of printable atoms has a text from which the parser makes exactly its calls.
  lemma {:induction false} ParsePrinted(lib: Lib, show: real -> string, e: Expr, before: seq<Call>)
    requires Printable(lib, show, e)
    ensures Parse(lib, Print(QueryOf(show, e), true), before) == Ok(before + Calls(e))
  {
    QueryMeans(lib, show, e);
    ParseText(lib, QueryOf(show, e), true, before);
  }
}
