// The SQL back end (sqlite/expr.go): text through a stack of buffers, arguments in one list.
module SqliteExpr {
  import opened ExprCalls
  import opened Options

  datatype Arg = Str(text: string) | Num(number: real)

  // ---- The document a sequence of calls describes ----

  datatype Lexeme = Open | Close | Word(op: Op) | Term(call: Call)

  // A linear text; `starts` are the positions at which the open groups begin.
  datatype Document = Document(lexemes: seq<Lexeme>, starts: seq<nat>)

  function LevelStart(d: Document): nat {
    if |d.starts| == 0 then 0 else d.starts[|d.starts| - 1]
  }

  // An operator at the start of a level, and a closing parenthesis without an open one, are accepted.
  function Describe(d: Document, call: Call): Document {
    match call
    case GroupStart => Document(d.lexemes + [Open], d.starts + [|d.lexemes| + 1])
    case GroupEnd =>
      Document(d.lexemes + [Close], if |d.starts| == 0 then [] else d.starts[..|d.starts| - 1])
    case Operator(op) => if |d.lexemes| > LevelStart(d) then d.(lexemes := d.lexemes + [Word(op)]) else d
    case _ => d.(lexemes := d.lexemes + [Term(call)])
  }

  // ---- Its spelling: bytes, and arguments at the places they belong to ----

  datatype Token = Byte(c: char) | Hole(arg: Arg)

  function Bytes(s: string): (r: seq<Token>)
    ensures |r| == |s|
  {
    seq(|s|, i requires 0 <= i < |s| => Byte(s[i]))
  }

  function Path(field: string): seq<Token> {
    Bytes("json_extract(e.content, ") + [Hole(Str("$." + field))] + Bytes(")")
  }

  function Numeric(field: string): seq<Token> {
    Bytes("CAST(") + Path(field) + Bytes(" AS NUMERIC)")
  }

  function Listed(args: seq<Arg>): seq<Token> {
    if |args| == 0 then []
    else
      var front := Listed(args[..|args| - 1]);
      front + (if |args| == 1 then [] else Bytes(",")) + [Hole(args[|args| - 1])]
  }

  function CondText(cond: Cond): string {
    match cond
    case Eq => "="
    case Gt => ">"
    case Ge => ">="
    case Lt => "<"
    case Le => "<="
  }

  function Texts(texts: seq<string>): seq<Arg> {
    seq(|texts|, i requires 0 <= i < |texts| => Str(texts[i]))
  }

  function Reals(numbers: seq<real>): seq<Arg> {
    seq(|numbers|, i requires 0 <= i < |numbers| => Num(numbers[i]))
  }

  function Spell(l: Lexeme): seq<Token> {
    match l
    case Open => Bytes("(")
    case Close => Bytes(")")
    case Word(And) => Bytes(" AND ")
    case Word(Or) => Bytes(" OR ")
    case Term(call) => SpellTerm(call)
  }

  function SpellTerm(call: Call): seq<Token> {
    match call
    case Text(field, term, isSequence, isWildcard) =>
      Path(field) + Bytes(if isSequence && !isWildcard then " = " else " GLOB ")
      + [Hole(Str(if isSequence || isWildcard then term else "*" + term + "*"))]
    case Number(field, cond, value) =>
      Numeric(field) + Bytes(" " + CondText(cond) + " ") + [Hole(Num(value))] + Bytes(" ")
    case Between(field, x, y) =>
      Numeric(field) + Bytes(" BETWEEN ") + [Hole(Num(x))] + Bytes(" AND ") + [Hole(Num(y))]
    case TextIn(field, texts) =>
      Path(field) + Bytes(" IN (") + Listed(Texts(texts)) + Bytes(")")
    case NumberIn(field, numbers) =>
      Numeric(field) + Bytes(" IN (") + Listed(Reals(numbers)) + Bytes(")")
    case _ => []
  }

  function SpellAll(ls: seq<Lexeme>): seq<Token> {
    if |ls| == 0 then [] else SpellAll(ls[..|ls| - 1]) + Spell(ls[|ls| - 1])
  }

  // The text of a spelling, with '?' for every argument, and the arguments.
  function Render(ts: seq<Token>): string {
    if |ts| == 0 then ""
    else
      var t := ts[|ts| - 1];
      Render(ts[..|ts| - 1]) + [if t.Byte? then t.c else '?']
  }

  function Args(ts: seq<Token>): seq<Arg> {
    if |ts| == 0 then []
    else
      var t := ts[|ts| - 1];
      Args(ts[..|ts| - 1]) + (if t.Hole? then [t.arg] else [])
  }

  // How SQLite binds: the k-th '?' of the text stands for the k-th argument.
  function Bind(sql: string, args: seq<Arg>): Option<seq<Token>> {
    if |sql| == 0 then if |args| == 0 then Some([]) else None
    else
      var c := sql[|sql| - 1];
      if c != '?' then
        var front := Bind(sql[..|sql| - 1], args);
        if front.None? then None else Some(front.value + [Byte(c)])
      else if |args| == 0 then None
      else
        var front := Bind(sql[..|sql| - 1], args[..|args| - 1]);
        if front.None? then None else Some(front.value + [Hole(args[|args| - 1])])
  }

  lemma {:induction false} RenderBoth(a: seq<Token>, b: seq<Token>)
    ensures Render(a + b) == Render(a) + Render(b)
    ensures Args(a + b) == Args(a) + Args(b)
  {
    if |b| == 0 {
      assert a + b == a;
    } else {
      var front, t := b[..|b| - 1], b[|b| - 1];
      RenderBoth(a, front);
      assert (a + b)[..|a + b| - 1] == a + front && (a + b)[|a + b| - 1] == t;
      var text, args := [if t.Byte? then t.c else '?'], if t.Hole? then [t.arg] else [];
      assert Render(a) + Render(front) + text == Render(a) + (Render(front) + text);
      assert Args(a) + Args(front) + args == Args(a) + (Args(front) + args);
    }
  }

  lemma {:induction false} RenderBytes(s: string)
    ensures Render(Bytes(s)) == s && Args(Bytes(s)) == []
  {
    if |s| > 0 {
      RenderBytes(s[..|s| - 1]);
      assert Bytes(s)[..|s| - 1] == Bytes(s[..|s| - 1]);
      assert s == s[..|s| - 1] + [s[|s| - 1]];
    }
  }

  lemma RenderHole(arg: Arg)
    ensures Render([Hole(arg)]) == "?" && Args([Hole(arg)]) == [arg]
  {
    assert [Hole(arg)][..0] == [];
  }

  // ---- The builder ----

  datatype State = State(sql: string, args: seq<Arg>, groups: seq<string>)

  function Write(s: State, ts: seq<Token>): State {
    s.(sql := s.sql + Render(ts), args := s.args + Args(ts))
  }

  function Step(s: State, call: Call): State {
    match call
    case GroupStart => State("", s.args, s.groups + [s.sql + "("])
    case GroupEnd =>
      if |s.groups| > 0 then State(s.groups[|s.groups| - 1] + s.sql + ")", s.args, s.groups[..|s.groups| - 1])
      else s.(sql := s.sql + ")")
    case Operator(op) =>
      if |s.sql| > 0 then s.(sql := s.sql + (if op == And then " AND " else " OR ")) else s
    case _ => Write(s, SpellTerm(call))
  }

  datatype Query = Query(sql: string, args: seq<Arg>)

  class SqliteExprBuilder {
    var args: seq<Arg>
    var sql: string
    var groups: seq<string>

    constructor ()
      ensures View() == State("", [], [])
    {
      args, sql, groups := [], "", [];
    }

    ghost function View(): State
      reads this
    {
      State(sql, args, groups)
    }

    method Build() returns (q: Query)
      ensures q == Query(View().sql, View().args)
    {
      q := Query(sql, args);
    }

    method GroupStart()
      modifies this
      ensures View() == Step(old(View()), Call.GroupStart)
    {
      sql := sql + "(";
      groups := groups + [sql];
      sql := "";
    }

    method GroupEnd()
      modifies this
      ensures View() == Step(old(View()), Call.GroupEnd)
    {
      if |groups| > 0 {
        var last := |groups| - 1;
        var parent := groups[last];
        groups := groups[..last];
        parent := parent + sql;
        sql := parent;
      }
      sql := sql + ")";
    }

    method Operator(op: Op)
      modifies this
      ensures View() == Step(old(View()), Call.Operator(op))
    {
      if |sql| > 0 {
        sql := sql + " ";
        sql := sql + if op == And then "AND" else "OR";
        sql := sql + " ";
      }
    }

    method Text(field: string, term: string, isSequence: bool, isWildcard: bool)
      modifies this
      ensures View() == Step(old(View()), Call.Text(field, term, isSequence, isWildcard))
    {
      var path := "$." + field;
      if isSequence {
        if isWildcard {
          sql := sql + "json_extract(e.content, ?) GLOB ?";
          args := args + [Str(path), Str(term)];
        } else {
          sql := sql + "json_extract(e.content, ?) = ?";
          args := args + [Str(path), Str(term)];
        }
      } else {
        sql := sql + "json_extract(e.content, ?) GLOB ?";
        if isWildcard {
          args := args + [Str(path), Str(term)];
        } else {
          args := args + [Str(path), Str("*" + term + "*")];
        }
      }
      SpelledText(field, term, isSequence, isWildcard);
    }

    // The loop that TextIn and NumberIn share: '?' and ',' for the list, one argument a value.
    method WriteList(values: seq<Arg>)
      modifies this
      ensures View() == Write(old(View()), Listed(values))
    {
      hide Render, Args, Listed;
      ghost var s := View();
      ListedNone();
      assert values[..0] == [];
      var i := 0;
      while i < |values|
        invariant i <= |values|
        invariant View() == Write(s, Listed(values[..i]))
      {
        ListedMore(values[..i], values[i]);
        assert values[..i] + [values[i]] == values[..i + 1];
        if i > 0 {
          sql := sql + ",";
        }
        sql := sql + "?";
        args := args + [values[i]];
        i := i + 1;
      }
      assert values[..i] == values;
    }

    method TextIn(field: string, values: seq<string>)
      modifies this
      ensures View() == Step(old(View()), Call.TextIn(field, values))
    {
      hide Render, Args, Listed, SpellTerm;
      args := args + [Str("$." + field)];
      sql := sql + "json_extract(e.content, ?) IN (";
      WriteList(Texts(values));
      sql := sql + ")";
      SpelledTextIn(field, values);
    }

    method Number(field: string, cond: Cond, value: real)
      modifies this
      ensures View() == Step(old(View()), Call.Number(field, cond, value))
    {
      sql := sql + "CAST(json_extract(e.content, ?) AS NUMERIC) ";
      sql := sql + CondText(cond);
      sql := sql + " ? ";
      args := args + [Str("$." + field), Num(value)];
      hide CondText, Render, Args, SpellTerm;
      SpelledNumber(field, cond, value);
      Assoc(old(sql), "CAST(json_extract(e.content, ?) AS NUMERIC) ", CondText(cond), " ? ");
    }

    method Between(field: string, x: real, y: real)
      modifies this
      ensures View() == Step(old(View()), Call.Between(field, x, y))
    {
      sql := sql + "CAST(json_extract(e.content, ?) AS NUMERIC) BETWEEN ? AND ?";
      args := args + [Str("$." + field), Num(x), Num(y)];
      hide Render, Args, SpellTerm;
      SpelledBetween(field, x, y);
    }

    method NumberIn(field: string, values: seq<real>)
      modifies this
      ensures View() == Step(old(View()), Call.NumberIn(field, values))
    {
      hide Render, Args, Listed, SpellTerm;
      sql := sql + "CAST(json_extract(e.content, ?) AS NUMERIC) IN (";
      args := args + [Str("$." + field)];
      WriteList(Reals(values));
      sql := sql + ")";
      SpelledNumberIn(field, values);
    }
  }

  // ---- The text and arguments of one term ----

  // Arguments between pieces of text.
  lemma {:induction false} SpelledAround(a: seq<Token>, arg: Arg, text: string)
    ensures Render(a + [Hole(arg)] + Bytes(text)) == Render(a) + "?" + text
    ensures Args(a + [Hole(arg)] + Bytes(text)) == Args(a) + [arg]
  {
    RenderBoth(a + [Hole(arg)], Bytes(text));
    RenderBoth(a, [Hole(arg)]);
    RenderHole(arg);
    RenderBytes(text);
  }

  lemma {:induction false} SpelledBefore(a: seq<Token>, text: string, arg: Arg)
    ensures Render(a + Bytes(text) + [Hole(arg)]) == Render(a) + text + "?"
    ensures Args(a + Bytes(text) + [Hole(arg)]) == Args(a) + [arg]
  {
    RenderBoth(a + Bytes(text), [Hole(arg)]);
    RenderBoth(a, Bytes(text));
    RenderHole(arg);
    RenderBytes(text);
  }

  lemma {:induction false} SpelledPath(field: string)
    ensures Render(Path(field)) == "json_extract(e.content, ?)" && Args(Path(field)) == [Str("$." + field)]
  {
    hide Render, Args, Bytes;
    SpelledAround(Bytes("json_extract(e.content, "), Str("$." + field), ")");
    RenderBytes("json_extract(e.content, ");
  }

  lemma {:induction false} SpelledInside(before: string, a: seq<Token>, after: string)
    ensures Render(Bytes(before) + a + Bytes(after)) == before + Render(a) + after
    ensures Args(Bytes(before) + a + Bytes(after)) == Args(a)
  {
    RenderBoth(Bytes(before) + a, Bytes(after));
    RenderBoth(Bytes(before), a);
    RenderBytes(before);
    RenderBytes(after);
  }

  lemma NumericText()
    ensures "CAST(" + "json_extract(e.content, ?)" + " AS NUMERIC)" == "CAST(json_extract(e.content, ?) AS NUMERIC)"
  {
  }

  lemma {:induction false} SpelledNumeric(field: string)
    ensures Render(Numeric(field)) == "CAST(json_extract(e.content, ?) AS NUMERIC)"
    ensures Args(Numeric(field)) == [Str("$." + field)]
  {
    hide Render, Args, Bytes, Path;
    SpelledInside("CAST(", Path(field), " AS NUMERIC)");
    SpelledPath(field);
    NumericText();
  }

  lemma {:induction false} SpelledText(field: string, term: string, isSequence: bool, isWildcard: bool)
    ensures var ts := SpellTerm(Call.Text(field, term, isSequence, isWildcard));
            && Render(ts) == (if isSequence && !isWildcard then "json_extract(e.content, ?) = ?"
                              else "json_extract(e.content, ?) GLOB ?")
            && Args(ts) == [Str("$." + field), Str(if isSequence || isWildcard then term else "*" + term + "*")]
  {
    hide Render, Args, Bytes, Path;
    SpelledBefore(Path(field), if isSequence && !isWildcard then " = " else " GLOB ",
                  Str(if isSequence || isWildcard then term else "*" + term + "*"));
    SpelledPath(field);
  }

  lemma {:induction false} SpelledNumber(field: string, cond: Cond, value: real)
    ensures var ts := SpellTerm(Call.Number(field, cond, value));
            && Render(ts) == "CAST(json_extract(e.content, ?) AS NUMERIC) " + CondText(cond) + " ? "
            && Args(ts) == [Str("$." + field), Num(value)]
  {
    hide Render, Args, Bytes, Numeric, CondText;
    var word := " " + CondText(cond) + " ";
    SpelledAround(Numeric(field) + Bytes(word), Num(value), " ");
    RenderBoth(Numeric(field), Bytes(word));
    RenderBytes(word);
    SpelledNumeric(field);
  }

  lemma {:induction false} SpelledBetween(field: string, x: real, y: real)
    ensures var ts := SpellTerm(Call.Between(field, x, y));
            && Render(ts) == "CAST(json_extract(e.content, ?) AS NUMERIC) BETWEEN ? AND ?"
            && Args(ts) == [Str("$." + field), Num(x), Num(y)]
  {
    hide Render, Args, Bytes, Numeric;
    var a := Numeric(field) + Bytes(" BETWEEN ") + [Hole(Num(x))];
    SpelledBefore(Numeric(field), " BETWEEN ", Num(x));
    SpelledBefore(a, " AND ", Num(y));
    SpelledNumeric(field);
  }

  lemma {:induction false} SpelledList(first: seq<Token>, list: seq<Token>)
    ensures var ts := first + Bytes(" IN (") + list + Bytes(")");
            Render(ts) == Render(first) + " IN (" + Render(list) + ")" && Args(ts) == Args(first) + Args(list)
  {
    var a := first + Bytes(" IN (");
    RenderBoth(a + list, Bytes(")"));
    RenderBoth(a, list);
    RenderBoth(first, Bytes(" IN ("));
    RenderBytes(" IN (");
    RenderBytes(")");
  }

  lemma {:induction false} SpelledTextIn(field: string, texts: seq<string>)
    ensures var ts, list := SpellTerm(Call.TextIn(field, texts)), Listed(Texts(texts));
            && Render(ts) == "json_extract(e.content, ?) IN (" + Render(list) + ")"
            && Args(ts) == [Str("$." + field)] + Args(list)
  {
    hide Render, Args, Bytes, Path, Listed;
    SpelledList(Path(field), Listed(Texts(texts)));
    SpelledPath(field);
  }

  lemma {:induction false} SpelledNumberIn(field: string, numbers: seq<real>)
    ensures var ts, list := SpellTerm(Call.NumberIn(field, numbers)), Listed(Reals(numbers));
            && Render(ts) == "CAST(json_extract(e.content, ?) AS NUMERIC) IN (" + Render(list) + ")"
            && Args(ts) == [Str("$." + field)] + Args(list)
  {
    hide Render, Args, Bytes, Numeric, Listed;
    SpelledList(Numeric(field), Listed(Reals(numbers)));
    SpelledNumeric(field);
  }

  lemma ListedNone()
    ensures Render(Listed([])) == "" && Args(Listed([])) == []
  {
  }

  lemma {:induction false} ListedMore(args: seq<Arg>, arg: Arg)
    ensures Render(Listed(args + [arg])) == Render(Listed(args)) + (if |args| == 0 then "" else ",") + "?"
    ensures Args(Listed(args + [arg])) == Args(Listed(args)) + [arg]
  {
    hide Render, Args;
    var more := args + [arg];
    assert more[..|more| - 1] == args;
    var comma := if |args| == 0 then [] else Bytes(",");
    RenderBoth(Listed(args) + comma, [Hole(arg)]);
    RenderBoth(Listed(args), comma);
    RenderHole(arg);
    RenderBytes(",");
    RenderBytes("");
    assert |args| == 0 ==> Bytes("") == comma;
  }

  // ---- The buffers spell the document ----

  // The bytes of some lexemes.
  function Written(ls: seq<Lexeme>): string {
    Render(SpellAll(ls))
  }

  // Every buffer holds the lexemes of its level.
  ghost predicate Represents(groups: seq<string>, sql: string, ls: seq<Lexeme>, starts: seq<nat>)
    decreases |groups|
  {
    if |groups| == 0 || |starts| == 0 then |groups| == |starts| && sql == Written(ls)
    else
      var g, k := |groups| - 1, starts[|starts| - 1];
      && k <= |ls| && sql == Written(ls[k..])
      && Represents(groups[..g], groups[g], ls[..k], starts[..|starts| - 1])
  }

  // Terms are made from atoms only.
  predicate Proper(ls: seq<Lexeme>) {
    forall i :: 0 <= i < |ls| && ls[i].Term? ==> ls[i].call.IsAtom()
  }

  ghost predicate Same(s: State, d: Document) {
    Represents(s.groups, s.sql, d.lexemes, d.starts) && Proper(d.lexemes) && s.args == Args(SpellAll(d.lexemes))
  }

  lemma {:induction false} SpellBoth(a: seq<Lexeme>, b: seq<Lexeme>)
    ensures SpellAll(a + b) == SpellAll(a) + SpellAll(b)
    decreases |b|
  {
    hide Spell;
    if |b| == 0 {
      assert a + b == a;
    } else {
      var front, l := b[..|b| - 1], b[|b| - 1];
      SpellBoth(a, front);
      assert (a + b)[..|a + b| - 1] == a + front && (a + b)[|a + b| - 1] == l;
      assert SpellAll(a) + SpellAll(front) + Spell(l) == SpellAll(a) + (SpellAll(front) + Spell(l));
    }
  }

  lemma {:induction false} WrittenBoth(a: seq<Lexeme>, b: seq<Lexeme>)
    ensures Written(a + b) == Written(a) + Written(b)
    ensures Args(SpellAll(a + b)) == Args(SpellAll(a)) + Args(SpellAll(b))
  {
    SpellBoth(a, b);
    RenderBoth(SpellAll(a), SpellAll(b));
  }

  lemma SpellOne(l: Lexeme)
    ensures SpellAll([l]) == Spell(l)
  {
    assert [l][..0] == [];
  }

  lemma {:induction false} Appends(groups: seq<string>, sql: string, ls: seq<Lexeme>, starts: seq<nat>,
                                     more: seq<Lexeme>)
    requires Represents(groups, sql, ls, starts)
    ensures Represents(groups, sql + Written(more), ls + more, starts)
  {
    hide Written;
    if |groups| == 0 || |starts| == 0 {
      WrittenBoth(ls, more);
    } else {
      var k := starts[|starts| - 1];
      assert (ls + more)[k..] == ls[k..] + more && (ls + more)[..k] == ls[..k];
      WrittenBoth(ls[k..], more);
    }
  }

  lemma {:induction false} Opens(groups: seq<string>, sql: string, ls: seq<Lexeme>, starts: seq<nat>)
    requires Represents(groups, sql, ls, starts)
    ensures Represents(groups + [sql], "", ls, starts + [|ls|])
  {
    var gs, ks := groups + [sql], starts + [|ls|];
    assert gs[..|gs| - 1] == groups && ks[..|ks| - 1] == starts;
    assert ls[..|ls|] == ls && ls[|ls|..] == [];
    assert Written([]) == "";
  }

  lemma {:induction false} Closes(groups: seq<string>, sql: string, ls: seq<Lexeme>, starts: seq<nat>)
    requires Represents(groups, sql, ls, starts) && |groups| > 0
    ensures |starts| > 0
    ensures Represents(groups[..|groups| - 1], groups[|groups| - 1] + sql, ls, starts[..|starts| - 1])
  {
    hide Written;
    var k := starts[|starts| - 1];
    Appends(groups[..|groups| - 1], groups[|groups| - 1], ls[..k], starts[..|starts| - 1], ls[k..]);
    assert ls[..k] + ls[k..] == ls;
  }

  lemma {:induction false} WritesSomething(ls: seq<Lexeme>)
    requires Proper(ls)
    ensures |Written(ls)| > 0 <==> |ls| > 0
  {
    if |ls| > 0 {
      var front, l := ls[..|ls| - 1], ls[|ls| - 1];
      RenderBoth(SpellAll(front), Spell(l));
    }
  }

  lemma {:induction false} SqlIsEmpty(s: State, d: Document)
    requires Same(s, d)
    ensures |s.sql| > 0 <==> |d.lexemes| > LevelStart(d)
  {
    hide Written, Args, SpellAll;
    if |s.groups| == 0 || |d.starts| == 0 {
      WritesSomething(d.lexemes);
    } else {
      WritesSomething(d.lexemes[LevelStart(d)..]);
    }
  }

  lemma {:induction false} Lengthens(s: State, d: Document, l: Lexeme)
    requires Same(s, d) && (l.Term? ==> l.call.IsAtom())
    ensures Same(Write(s, Spell(l)), d.(lexemes := d.lexemes + [l]))
  {
    hide Render, Args, Spell, Represents;
    Appends(s.groups, s.sql, d.lexemes, d.starts, [l]);
    WrittenBoth(d.lexemes, [l]);
    SpellOne(l);
  }

  lemma {:induction false} StepSame(s: State, d: Document, call: Call)
    requires Same(s, d)
    ensures Same(Step(s, call), Describe(d, call))
  {
    hide Render, Args, Represents, SpellTerm, SpellAll;
    match call
    case GroupStart =>
      RenderBytes("(");
      Lengthens(s, d, Open);
      var t := Write(s, Spell(Open));
      assert t == s.(sql := s.sql + "(") by { assert s.args + [] == s.args; }
      Opens(s.groups, s.sql + "(", d.lexemes + [Open], d.starts);
    case GroupEnd =>
      StepEnds(s, d);
    case Operator(op) =>
      SqlIsEmpty(s, d);
      RenderBytes(" AND ");
      RenderBytes(" OR ");
      Lengthens(s, d, Word(op));
      assert s.args + [] == s.args;
    case _ =>
      Lengthens(s, d, Term(call));
  }

  lemma {:induction false} StepEnds(s: State, d: Document)
    requires Same(s, d)
    ensures Same(Step(s, GroupEnd), Describe(d, GroupEnd))
  {
    hide Render, Args, SpellTerm, SpellAll;
    RenderBytes(")");
    assert s.args + [] == s.args;
    if |s.groups| > 0 {
      Closes(s.groups, s.sql, d.lexemes, d.starts);
      var t := State(s.groups[|s.groups| - 1] + s.sql, s.args, s.groups[..|s.groups| - 1]);
      Lengthens(t, d.(starts := d.starts[..|d.starts| - 1]), Close);
    } else {
      Lengthens(s, d, Close);
    }
  }

  lemma {:induction false} AfterSame(s: State, d: Document, calls: seq<Call>)
    requires Same(s, d)
    ensures Same(After(Step, s, calls), After(Describe, d, calls))
    decreases |calls|
  {
    hide Same;
    if calls != [] {
      StepSame(s, d, calls[0]);
      AfterSame(Step(s, calls[0]), Describe(d, calls[0]), calls[1..]);
    }
  }

  // All text written so far, outermost level first.
  function Flat(groups: seq<string>): string {
    if |groups| == 0 then "" else Flat(groups[..|groups| - 1]) + groups[|groups| - 1]
  }

  lemma {:induction false} LastLevel(groups: seq<string>, sql: string, ls: seq<Lexeme>, starts: seq<nat>)
    requires Represents(groups, sql, ls, starts)
    ensures if |groups| == 0 then sql == Written(ls)
            else
              && |starts| > 0 && starts[|starts| - 1] <= |ls| && sql == Written(ls[starts[|starts| - 1]..])
              && Represents(groups[..|groups| - 1], groups[|groups| - 1],
                            ls[..starts[|starts| - 1]], starts[..|starts| - 1])
  {
  }

  lemma FlatLast(groups: seq<string>)
    ensures |groups| == 0 ==> Flat(groups) == ""
    ensures |groups| > 0 ==> Flat(groups) == Flat(groups[..|groups| - 1]) + groups[|groups| - 1]
  {
  }

  lemma {:induction false} FlatIsWritten(groups: seq<string>, sql: string, ls: seq<Lexeme>, starts: seq<nat>)
    requires Represents(groups, sql, ls, starts)
    ensures Flat(groups) + sql == Written(ls)
    decreases |groups|
  {
    hide Written, Represents, Flat, SpellAll, Args, Render;
    LastLevel(groups, sql, ls, starts);
    FlatLast(groups);
    if |groups| > 0 {
      var front, top, k := groups[..|groups| - 1], groups[|groups| - 1], starts[|starts| - 1];
      var a, b := ls[..k], ls[k..];
      FlatIsWritten(front, top, a, starts[..|starts| - 1]);
      WrittenBoth(a, b);
      assert a + b == ls;
    } else {
      assert "" + sql == sql;
    }
  }

  // ---- Binding the arguments gives the document back ----

  predicate NoMarks(ts: seq<Token>) {
    forall i :: 0 <= i < |ts| ==> ts[i] != Byte('?')
  }

  lemma {:induction false} NoMarksIn(text: string)
    requires '?' !in text
    ensures NoMarks(Bytes(text))
  {
  }

  lemma {:induction false} FieldHasNoMarks(field: string)
    ensures NoMarks(Path(field)) && NoMarks(Numeric(field))
  {
    hide Bytes;
    NoMarksIn("json_extract(e.content, ");
    NoMarksIn(")");
    NoMarksIn("CAST(");
    NoMarksIn(" AS NUMERIC)");
  }

  lemma {:induction false} TermHasNoMarks(call: Call)
    ensures NoMarks(SpellTerm(call))
  {
    hide Bytes, Path, Numeric;
    match call
    case Text(field, _, isSequence, isWildcard) =>
      FieldHasNoMarks(field);
      NoMarksIn(if isSequence && !isWildcard then " = " else " GLOB ");
    case Number(field, cond, _) =>
      FieldHasNoMarks(field);
      NoMarksIn(" " + CondText(cond) + " ");
      NoMarksIn(" ");
    case Between(field, _, _) =>
      FieldHasNoMarks(field);
      NoMarksIn(" BETWEEN ");
      NoMarksIn(" AND ");
    case TextIn(field, texts) =>
      FieldHasNoMarks(field);
      NoMarksIn(" IN (");
      ListHasNoMarks(Texts(texts));
      NoMarksIn(")");
    case NumberIn(field, numbers) =>
      FieldHasNoMarks(field);
      NoMarksIn(" IN (");
      ListHasNoMarks(Reals(numbers));
      NoMarksIn(")");
    case _ =>
  }

  lemma {:induction false} ListHasNoMarks(args: seq<Arg>)
    ensures NoMarks(Listed(args))
  {
    if |args| > 0 {
      ListHasNoMarks(args[..|args| - 1]);
    }
  }

  lemma {:induction false} HasNoMarks(ls: seq<Lexeme>)
    ensures NoMarks(SpellAll(ls))
  {
    hide SpellTerm;
    if |ls| > 0 {
      HasNoMarks(ls[..|ls| - 1]);
      if ls[|ls| - 1].Term? {
        TermHasNoMarks(ls[|ls| - 1].call);
      }
    }
  }

  lemma {:induction false} BindInverts(ts: seq<Token>)
    requires NoMarks(ts)
    ensures Bind(Render(ts), Args(ts)) == Some(ts)
  {
    if |ts| > 0 {
      var front, t := ts[..|ts| - 1], ts[|ts| - 1];
      BindInverts(front);
      assert ts == front + [t];
      var sql, args := Render(ts), Args(ts);
      assert sql[..|sql| - 1] == Render(front);
      if t.Hole? {
        assert args[..|args| - 1] == Args(front) && args[|args| - 1] == t.arg;
      } else {
        assert args == Args(front);
      }
    }
  }

  // Placeholders in a text.
  function Marks(sql: string): nat {
    if |sql| == 0 then 0 else Marks(sql[..|sql| - 1]) + if sql[|sql| - 1] == '?' then 1 else 0
  }

  lemma {:induction false} BindCounts(sql: string, args: seq<Arg>)
    requires Bind(sql, args).Some?
    ensures Marks(sql) == |args|
  {
    if |sql| > 0 {
      var front := sql[..|sql| - 1];
      if sql[|sql| - 1] != '?' {
        BindCounts(front, args);
      } else {
        BindCounts(front, args[..|args| - 1]);
      }
    }
  }

  // Main theorem: after any sequence of calls there are as many placeholders as arguments, and binding them
  // in order puts every argument where the document has it.
  lemma {:induction false} BoundInPlace(calls: seq<Call>)
    ensures var s := After(Step, State("", [], []), calls);
            var d := After(Describe, Document([], []), calls);
            && Marks(Flat(s.groups) + s.sql) == |s.args|
            && Bind(Flat(s.groups) + s.sql, s.args) == Some(SpellAll(d.lexemes))
  {
    hide After, Bind, Flat, Marks;
    assert Same(State("", [], []), Document([], []));
    AfterSame(State("", [], []), Document([], []), calls);
    var s := After(Step, State("", [], []), calls);
    var d := After(Describe, Document([], []), calls);
    FlatIsWritten(s.groups, s.sql, d.lexemes, d.starts);
    HasNoMarks(d.lexemes);
    BindInverts(SpellAll(d.lexemes));
    BindCounts(Flat(s.groups) + s.sql, s.args);
  }
}
