// SQL text with its bound arguments, read back: cut into words, then parsed as SQLite parses the conditions
// of a WHERE clause, with AND binding tighter than OR.
module SqlReader {
  import opened ExprCalls
  import opened Options
  import opened SqliteExpr

  // ---- Words ----

  datatype Sql = Name(text: string) | Sign(text: string) | Param(arg: Arg)

  predicate IsLetter(c: char) {
    'a' <= c <= 'z' || 'A' <= c <= 'Z' || c == '_'
  }

  predicate InName(t: Token) {
    t.Byte? && (IsLetter(t.c) || '0' <= t.c <= '9')
  }

  // The length of the longest name at the front.
  function NameEnd(ts: seq<Token>): (n: nat)
    ensures n <= |ts| && (forall i :: 0 <= i < n ==> InName(ts[i])) && (n < |ts| ==> !InName(ts[n]))
  {
    if |ts| > 0 && InName(ts[0]) then 1 + NameEnd(ts[1..]) else 0
  }

  lemma {:induction false} NameEndIs(ts: seq<Token>, n: nat)
    requires n <= |ts| && (forall i :: 0 <= i < n ==> InName(ts[i])) && (n < |ts| ==> !InName(ts[n]))
    ensures NameEnd(ts) == n
    decreases n
  {
    if n > 0 {
      NameEndIs(ts[1..], n - 1);
    }
  }

  function Chars(ts: seq<Token>): string
    requires forall i :: 0 <= i < |ts| ==> ts[i].Byte?
  {
    seq(|ts|, i requires 0 <= i < |ts| => ts[i].c)
  }

  // The word at the front, if it is not a blank, and how many bytes it takes.
  function Cut(ts: seq<Token>): (r: (seq<Sql>, nat))
    requires |ts| > 0
    ensures 0 < r.1 <= |ts|
  {
    if ts[0].Hole? then ([Param(ts[0].arg)], 1)
    else if ts[0].c == ' ' then ([], 1)
    else if IsLetter(ts[0].c) then
      var n := NameEnd(ts);
      ([Name(Chars(ts[..n]))], n)
    else
      var n := if ts[0].c in "<>" && |ts| > 1 && ts[1] == Byte('=') then 2 else 1;
      ([Sign(Chars(ts[..n]))], n)
  }

  function Lex(ts: seq<Token>): seq<Sql> {
    if |ts| == 0 then [] else Cut(ts).0 + Lex(ts[Cut(ts).1..])
  }

  // No word goes on behind it.
  predicate Closed(ts: seq<Token>) {
    |ts| > 0 ==> var t := ts[|ts| - 1]; t.Hole? || (!InName(t) && t.c !in "<>")
  }

  lemma {:induction false} CutSame(a: seq<Token>, b: seq<Token>)
    requires |a| > 0 && Closed(a)
    ensures Cut(a + b) == Cut(a)
  {
    var n := NameEnd(a);
    assert forall i :: 0 <= i < |a| ==> (a + b)[i] == a[i];
    if !a[|a| - 1].Hole? {
      assert n < |a| && (a + b)[n] == a[n];
      NameEndIs(a + b, n);
    }
    assert (a + b)[..n] == a[..n] && (a + b)[..1] == a[..1] && (|a| > 1 ==> (a + b)[..2] == a[..2]);
  }

  lemma {:induction false} LexBoth(a: seq<Token>, b: seq<Token>)
    requires Closed(a)
    ensures Lex(a + b) == Lex(a) + Lex(b)
    decreases |a|
  {
    hide Cut;
    if |a| == 0 {
      assert a + b == b;
    } else {
      var n := Cut(a).1;
      CutSame(a, b);
      assert (a + b)[n..] == a[n..] + b;
      LexBoth(a[n..], b);
    }
  }

  // ---- The words of some texts ----

  lemma BytesBoth(a: string, b: string)
    ensures Bytes(a + b) == Bytes(a) + Bytes(b)
  {
  }

  lemma {:induction false} NameFirst(name: string, rest: string)
    requires name != "" && IsLetter(name[0]) && forall i :: 0 <= i < |name| ==> InName(Byte(name[i]))
    requires rest != "" ==> !InName(Byte(rest[0]))
    ensures Lex(Bytes(name + rest)) == [Name(name)] + Lex(Bytes(rest))
  {
    BytesBoth(name, rest);
    var ts, n := Bytes(name + rest), |name|;
    NameEndIs(ts, n);
    assert Chars(ts[..n]) == name && ts[n..] == Bytes(rest);
  }

  lemma {:induction false} SignFirst(c: char, rest: string)
    requires c != ' ' && !InName(Byte(c)) && c !in "<>"
    ensures Lex(Bytes([c] + rest)) == [Sign([c])] + Lex(Bytes(rest))
  {
    var ts := Bytes([c] + rest);
    assert Chars(ts[..1]) == [c] && ts[1..] == Bytes(rest);
  }

  lemma {:induction false} BlankFirst(rest: string)
    ensures Lex(Bytes(" " + rest)) == Lex(Bytes(rest))
  {
    var ts := Bytes(" " + rest);
    assert ts[1..] == Bytes(rest);
  }

  lemma {:induction false} NoWords(text: string)
    requires text == "" || text == " "
    ensures Lex(Bytes(text)) == []
  {
    assert Bytes("") == [];
    BlankFirst("");
    assert " " + "" == " ";
  }

  // A name between blanks.
  lemma {:induction false} NameAlone(name: string)
    requires name != "" && IsLetter(name[0]) && forall i :: 0 <= i < |name| ==> InName(Byte(name[i]))
    ensures Lex(Bytes(" " + name + " ")) == [Name(name)] && Closed(Bytes(" " + name + " "))
  {
    BlankFirst(name + " ");
    NameFirst(name, " ");
    NoWords(" ");
    assert " " + (name + " ") == " " + name + " ";
  }

  lemma {:induction false} SignAlone(c: char)
    requires c != ' ' && !InName(Byte(c)) && c !in "<>"
    ensures Lex(Bytes([c])) == [Sign([c])] && Closed(Bytes([c]))
  {
    SignFirst(c, "");
    NoWords("");
    assert [c] + "" == [c];
  }

  // ---- Conditions and their words ----

  datatype Test = Compare(cond: Cond, arg: Arg) | Glob(arg: Arg) | Within(low: Arg, high: Arg) | OneOf(args: seq<Arg>)

  // What a comparison asks of an entry: the value at a path, cast to a number or not, and the test on it.
  datatype Condition = Condition(numeric: bool, path: Arg, test: Test)

  // The condition an atom of a query stands for.
  function ConditionOf(call: Call): Condition
    requires call.IsAtom()
  {
    var path := Str("$." + call.field);
    match call
    case Text(_, term, isSequence, isWildcard) =>
      Condition(false, path, if isSequence && !isWildcard then Compare(Eq, Str(term))
                             else Glob(Str(if isSequence || isWildcard then term else "*" + term + "*")))
    case Number(_, cond, value) => Condition(true, path, Compare(cond, Num(value)))
    case Between(_, x, y) => Condition(true, path, Within(Num(x), Num(y)))
    case TextIn(_, texts) => Condition(false, path, OneOf(Texts(texts)))
    case NumberIn(_, numbers) => Condition(true, path, OneOf(Reals(numbers)))
  }

  const EXTRACT: seq<Sql> :=
    [Name("json_extract"), Sign("("), Name("e"), Sign("."), Name("content"), Sign(",")]
  const CAST: seq<Sql> := [Name("CAST"), Sign("(")]
  const NUMERIC: seq<Sql> := [Name("AS"), Name("NUMERIC"), Sign(")")]

  function PathWords(path: Arg): seq<Sql> {
    EXTRACT + [Param(path), Sign(")")]
  }

  function OperandWords(numeric: bool, path: Arg): seq<Sql> {
    if numeric then CAST + PathWords(path) + NUMERIC else PathWords(path)
  }

  function ListWords(args: seq<Arg>): seq<Sql> {
    if |args| == 0 then []
    else
      ListWords(args[..|args| - 1]) + (if |args| == 1 then [] else [Sign(",")]) + [Param(args[|args| - 1])]
  }

  function TestWords(test: Test): seq<Sql> {
    match test
    case Compare(cond, arg) => [Sign(CondText(cond)), Param(arg)]
    case Glob(arg) => [Name("GLOB"), Param(arg)]
    case Within(low, high) => [Name("BETWEEN"), Param(low), Name("AND"), Param(high)]
    case OneOf(args) => [Name("IN"), Sign("(")] + ListWords(args) + [Sign(")")]
  }

  function ConditionWords(c: Condition): seq<Sql> {
    OperandWords(c.numeric, c.path) + TestWords(c.test)
  }

  // ---- The text of a term has the words of its condition ----

  lemma ExtractText()
    ensures "json_extract" + ("(" + ("e" + ("." + ("content" + ("," + " "))))) == "json_extract(e.content, "
    ensures "CAST" + "(" == "CAST(" && " " + ("AS" + (" " + ("NUMERIC" + ")"))) == " AS NUMERIC)"
    ensures " " + ("IN" + (" " + "(")) == " IN ("
  {
  }

  lemma {:induction false} LexExtract()
    ensures Lex(Bytes("json_extract(e.content, ")) == EXTRACT && Closed(Bytes("json_extract(e.content, "))
  {
    hide Lex, Bytes;
    ExtractText();
    NoWords(" ");
    SignFirst(',', " ");
    NameFirst("content", "," + " ");
    SignFirst('.', "content" + ("," + " "));
    NameFirst("e", "." + ("content" + ("," + " ")));
    SignFirst('(', "e" + ("." + ("content" + ("," + " "))));
    NameFirst("json_extract", "(" + ("e" + ("." + ("content" + ("," + " ")))));
    ClosedText("json_extract(e.content, ");
  }

  lemma ClosedText(text: string)
    requires text != "" ==> text[|text| - 1] in " (),="
    ensures Closed(Bytes(text))
  {
  }

  lemma {:induction false} LexCast()
    ensures Lex(Bytes("CAST(")) == CAST && Closed(Bytes("CAST("))
    ensures Lex(Bytes(" AS NUMERIC)")) == NUMERIC && Closed(Bytes(" AS NUMERIC)"))
    ensures Lex(Bytes(" IN (")) == [Name("IN"), Sign("(")] && Closed(Bytes(" IN ("))
  {
    hide Lex, Bytes;
    ExtractText();
    SignAlone('(');
    NameFirst("CAST", "(");
    SignAlone(')');
    NameFirst("NUMERIC", ")");
    BlankFirst("NUMERIC" + ")");
    NameFirst("AS", " " + ("NUMERIC" + ")"));
    BlankFirst("AS" + (" " + ("NUMERIC" + ")")));
    BlankFirst("(");
    NameFirst("IN", " " + "(");
    BlankFirst("IN" + (" " + "("));
    ClosedText("CAST(");
    ClosedText(" AS NUMERIC)");
    ClosedText(" IN (");
  }

  lemma {:induction false} LexHole(arg: Arg)
    ensures Lex([Hole(arg)]) == [Param(arg)] && Closed([Hole(arg)])
  {
    assert [Hole(arg)][1..] == [];
  }

  lemma {:induction false} LexTwo(a: seq<Token>, b: seq<Token>)
    requires Closed(a) && Closed(b)
    ensures Lex(a + b) == Lex(a) + Lex(b) && Closed(a + b)
  {
    LexBoth(a, b);
    assert |b| == 0 ==> a + b == a;
  }

  lemma {:induction false} LexPath(field: string)
    ensures Lex(Path(field)) == PathWords(Str("$." + field)) && Closed(Path(field))
  {
    hide Lex, Bytes, Closed;
    var a, b, c := Bytes("json_extract(e.content, "), [Hole(Str("$." + field))], Bytes(")");
    LexExtract();
    LexHole(Str("$." + field));
    SignAlone(')');
    LexThree(a, b, c);
  }

  // Three pieces side by side.
  lemma {:induction false} LexThree(a: seq<Token>, b: seq<Token>, c: seq<Token>)
    requires Closed(a) && Closed(b) && Closed(c)
    ensures Lex(a + b + c) == Lex(a) + Lex(b) + Lex(c) && Closed(a + b + c)
  {
    hide Lex, Closed;
    LexTwo(a, b);
    LexTwo(a + b, c);
  }

  lemma {:induction false} LexNumeric(field: string)
    ensures Lex(Numeric(field)) == OperandWords(true, Str("$." + field)) && Closed(Numeric(field))
  {
    hide Lex, Bytes, Closed, Path;
    LexCast();
    LexPath(field);
    LexThree(Bytes("CAST("), Path(field), Bytes(" AS NUMERIC)"));
  }

  lemma {:induction false} LexListed(args: seq<Arg>)
    ensures Lex(Listed(args)) == ListWords(args) && Closed(Listed(args))
  {
    hide Lex, Closed;
    if |args| == 0 {
      LexNone();
    } else {
      var front, arg := args[..|args| - 1], args[|args| - 1];
      LexListed(front);
      LexHole(arg);
      SignAlone(',');
      if |args| == 1 {
        assert Listed(args) == [Hole(arg)] && ListWords(args) == [Param(arg)];
      } else {
        LexThree(Listed(front), Bytes(","), [Hole(arg)]);
      }
    }
  }

  lemma LexNone()
    ensures Lex([]) == [] && Closed([])
  {
  }

  lemma CondChars(c: Cond)
    ensures var s := CondText(c);
            && 1 <= |s| <= 2 && s[0] in "<>=" && (|s| == 2 <==> s[0] in "<>" && (s + " ")[1] == '=')
            && (s + " ")[|s|] == ' ' && (|s| == 2 ==> s[1] == '=')
  {
  }

  lemma {:induction false} LexCond(c: Cond)
    ensures Lex(Bytes(" " + CondText(c) + " ")) == [Sign(CondText(c))] && Closed(Bytes(" " + CondText(c) + " "))
  {
    var s := CondText(c);
    CondChars(c);
    hide CondText;
    var ts, n := Bytes(s + " "), |s|;
    assert ts[0] == Byte(s[0]) && ts[1] == Byte((s + " ")[1]);
    assert Cut(ts).1 == n;
    assert Chars(ts[..n]) == s && ts[n..] == Bytes(" ");
    NoWords(" ");
    BlankFirst(s + " ");
    assert " " + (s + " ") == " " + s + " ";
  }

  lemma {:induction false} LexOne(first: seq<Token>, word: string, w: Sql, arg: Arg)
    requires Closed(first) && Lex(Bytes(word)) == [w] && Closed(Bytes(word))
    ensures Lex(first + Bytes(word) + [Hole(arg)]) == Lex(first) + [w, Param(arg)]
    ensures Closed(first + Bytes(word) + [Hole(arg)])
  {
    hide Lex, Closed;
    LexHole(arg);
    LexThree(first, Bytes(word), [Hole(arg)]);
  }

  lemma {:induction false} LexWords()
    ensures Lex(Bytes(" GLOB ")) == [Name("GLOB")] && Closed(Bytes(" GLOB "))
    ensures Lex(Bytes(" BETWEEN ")) == [Name("BETWEEN")] && Closed(Bytes(" BETWEEN "))
    ensures Lex(Bytes(" AND ")) == [Name("AND")] && Closed(Bytes(" AND "))
    ensures Lex(Bytes(" OR ")) == [Name("OR")] && Closed(Bytes(" OR "))
    ensures Lex(Bytes(" = ")) == [Sign("=")] && Closed(Bytes(" = "))
  {
    hide Lex, Bytes, Closed;
    WordTexts();
    NameAlone("GLOB");
    NameAlone("BETWEEN");
    NameAlone("AND");
    NameAlone("OR");
    LexCond(Eq);
  }

  lemma WordTexts()
    ensures " " + "GLOB" + " " == " GLOB " && " " + "BETWEEN" + " " == " BETWEEN "
    ensures " " + "AND" + " " == " AND " && " " + "OR" + " " == " OR " && " " + "=" + " " == " = "
  {
  }

  lemma {:induction false} LexList(first: seq<Token>, args: seq<Arg>)
    requires Closed(first)
    ensures var ts := first + Bytes(" IN (") + Listed(args) + Bytes(")");
            Lex(ts) == Lex(first) + TestWords(OneOf(args)) && Closed(ts)
  {
    hide Lex, Bytes, Closed, Listed, ListWords;
    LexCast();
    LexListed(args);
    SignAlone(')');
    LexThree(first, Bytes(" IN ("), Listed(args));
    LexTwo(first + Bytes(" IN (") + Listed(args), Bytes(")"));
  }

  // Cutting the text of a term gives the words of its condition.
  lemma {:induction false} LexTerm(call: Call)
    requires call.IsAtom()
    ensures Lex(SpellTerm(call)) == ConditionWords(ConditionOf(call)) && Closed(SpellTerm(call))
  {
    hide Lex, Bytes, Closed, Path, Numeric, Listed, ListWords, PathWords;
    LexPath(call.field);
    LexNumeric(call.field);
    LexWords();
    match call
    case Text(field, term, isSequence, isWildcard) =>
      var arg := Str(if isSequence || isWildcard then term else "*" + term + "*");
      if isSequence && !isWildcard {
        LexOne(Path(field), " = ", Sign("="), arg);
      } else {
        LexOne(Path(field), " GLOB ", Name("GLOB"), arg);
      }
    case Number(field, cond, value) =>
      LexCond(cond);
      NoWords(" ");
      ClosedText(" ");
      LexOne(Numeric(field), " " + CondText(cond) + " ", Sign(CondText(cond)), Num(value));
      var a := Numeric(field) + Bytes(" " + CondText(cond) + " ") + [Hole(Num(value))];
      LexTwo(a, Bytes(" "));
    case Between(field, x, y) =>
      LexOne(Numeric(field), " BETWEEN ", Name("BETWEEN"), Num(x));
      LexOne(Numeric(field) + Bytes(" BETWEEN ") + [Hole(Num(x))], " AND ", Name("AND"), Num(y));
    case TextIn(field, texts) =>
      LexList(Path(field), Texts(texts));
    case NumberIn(field, numbers) =>
      LexList(Numeric(field), Reals(numbers));
  }

  // ---- The grammar ----

  // or := and (OR and)*      and := primary (AND primary)*      primary := condition | ( or )
  // condition := operand test      operand := json_extract(e.content, ?) | CAST(json_extract(e.content, ?) AS NUMERIC)
  // test := cond ? | GLOB ? | BETWEEN ? AND ? | IN ( [? (, ?)*] )
  // Each function reads a prefix and gives what it read and what is left.

  function ReadPath(ws: seq<Sql>): (r: Option<(Arg, seq<Sql>)>)
    ensures r.Some? ==> |r.value.1| < |ws|
  {
    if |ws| >= 8 && EXTRACT <= ws && ws[6].Param? && ws[7] == Sign(")") then Some((ws[6].arg, ws[8..])) else None
  }

  function ReadOperand(ws: seq<Sql>): (r: Option<((bool, Arg), seq<Sql>)>)
    ensures r.Some? ==> |r.value.1| < |ws|
  {
    if CAST <= ws then
      match ReadPath(ws[2..])
      case None => None
      case Some((path, rest)) => if NUMERIC <= rest then Some(((true, path), rest[3..])) else None
    else
      match ReadPath(ws)
      case None => None
      case Some((path, rest)) => Some(((false, path), rest))
  }

  function CondOf(w: Sql): Option<Cond> {
    if w == Sign("=") then Some(Eq)
    else if w == Sign(">") then Some(Gt)
    else if w == Sign(">=") then Some(Ge)
    else if w == Sign("<") then Some(Lt)
    else if w == Sign("<=") then Some(Le)
    else None
  }

  // The rest of a list, some arguments of which have been read.
  function ReadList(ws: seq<Sql>, args: seq<Arg>): (r: Option<(seq<Arg>, seq<Sql>)>)
    ensures r.Some? ==> |r.value.1| < |ws|
  {
    if |ws| > 0 && ws[0] == Sign(")") && args == [] then Some(([], ws[1..]))
    else if |ws| < 2 || !ws[0].Param? then None
    else if ws[1] == Sign(")") then Some((args + [ws[0].arg], ws[2..]))
    else if ws[1] == Sign(",") then ReadList(ws[2..], args + [ws[0].arg])
    else None
  }

  function ReadTest(ws: seq<Sql>): (r: Option<(Test, seq<Sql>)>)
    ensures r.Some? ==> |r.value.1| < |ws|
  {
    if |ws| < 2 then None
    else if ws[0] == Name("IN") then
      if ws[1] != Sign("(") then None
      else
        match ReadList(ws[2..], [])
        case None => None
        case Some((args, rest)) => Some((OneOf(args), rest))
    else if !ws[1].Param? then None
    else if ws[0] == Name("GLOB") then Some((Glob(ws[1].arg), ws[2..]))
    else if ws[0] == Name("BETWEEN") then
      if |ws| >= 4 && ws[2] == Name("AND") && ws[3].Param? then Some((Within(ws[1].arg, ws[3].arg), ws[4..])) else None
    else
      match CondOf(ws[0])
      case None => None
      case Some(cond) => Some((Compare(cond, ws[1].arg), ws[2..]))
  }

  function ReadCondition(ws: seq<Sql>): (r: Option<(Condition, seq<Sql>)>)
    ensures r.Some? ==> |r.value.1| < |ws|
  {
    match ReadOperand(ws)
    case None => None
    case Some((operand, after)) =>
      match ReadTest(after)
      case None => None
      case Some((test, rest)) => Some((Condition(operand.0, operand.1, test), rest))
  }

  function ReadOr(ws: seq<Sql>, truth: Condition -> bool): (r: Option<(bool, seq<Sql>)>)
    ensures r.Some? ==> |r.value.1| < |ws|
    decreases |ws|, 3
  {
    match ReadAnd(ws, truth)
    case None => None
    case Some((v, rest)) => MoreOr(v, rest, truth)
  }

  function MoreOr(v: bool, ws: seq<Sql>, truth: Condition -> bool): (r: Option<(bool, seq<Sql>)>)
    ensures r.Some? ==> |r.value.1| <= |ws|
    decreases |ws|, 4
  {
    if |ws| > 0 && ws[0] == Name("OR") then
      match ReadAnd(ws[1..], truth)
      case None => None
      case Some((w, rest)) => MoreOr(v || w, rest, truth)
    else Some((v, ws))
  }

  function ReadAnd(ws: seq<Sql>, truth: Condition -> bool): (r: Option<(bool, seq<Sql>)>)
    ensures r.Some? ==> |r.value.1| < |ws|
    decreases |ws|, 2
  {
    match ReadPrimary(ws, truth)
    case None => None
    case Some((v, rest)) => MoreAnd(v, rest, truth)
  }

  function MoreAnd(v: bool, ws: seq<Sql>, truth: Condition -> bool): (r: Option<(bool, seq<Sql>)>)
    ensures r.Some? ==> |r.value.1| <= |ws|
    decreases |ws|, 3
  {
    if |ws| > 0 && ws[0] == Name("AND") then
      match ReadPrimary(ws[1..], truth)
      case None => None
      case Some((w, rest)) => MoreAnd(v && w, rest, truth)
    else Some((v, ws))
  }

  function ReadPrimary(ws: seq<Sql>, truth: Condition -> bool): (r: Option<(bool, seq<Sql>)>)
    ensures r.Some? ==> |r.value.1| < |ws|
    decreases |ws|, 1
  {
    if |ws| > 0 && ws[0] == Sign("(") then
      match ReadOr(ws[1..], truth)
      case None => None
      case Some((v, rest)) => if |rest| > 0 && rest[0] == Sign(")") then Some((v, rest[1..])) else None
    else
      match ReadCondition(ws)
      case None => None
      case Some((c, rest)) => Some((truth(c), rest))
  }

  // The value of a text with its arguments, if they bind and the whole is one formula.
  function ReadSql(sql: string, args: seq<Arg>, truth: Condition -> bool): Option<bool> {
    match Bind(sql, args)
    case None => None
    case Some(ts) =>
      match ReadOr(Lex(ts), truth)
      case None => None
      case Some((v, rest)) => if rest == [] then Some(v) else None
  }

  // ---- The words of a condition read back ----

  lemma {:induction false} ReadsPath(path: Arg, rest: seq<Sql>)
    ensures ReadPath(PathWords(path) + rest) == Some((path, rest))
  {
    var ws := PathWords(path) + rest;
    assert EXTRACT <= PathWords(path) <= ws && ws[8..] == rest;
    assert ws[6] == PathWords(path)[6] && ws[7] == PathWords(path)[7];
  }

  lemma NotACast(path: Arg, rest: seq<Sql>)
    ensures !(CAST <= PathWords(path) + rest)
  {
    assert (PathWords(path) + rest)[0] == Name("json_extract") && "CAST" != "json_extract";
  }

  lemma {:induction false} ReadsOperand(numeric: bool, path: Arg, rest: seq<Sql>)
    ensures ReadOperand(OperandWords(numeric, path) + rest) == Some(((numeric, path), rest))
  {
    hide PathWords, ReadPath;
    var ws := OperandWords(numeric, path) + rest;
    if numeric {
      assert CAST <= ws && ws[2..] == PathWords(path) + (NUMERIC + rest);
      ReadsPath(path, NUMERIC + rest);
      assert NUMERIC <= NUMERIC + rest && (NUMERIC + rest)[3..] == rest;
    } else {
      ReadsPath(path, rest);
      NotACast(path, rest);
    }
  }

  // The k-th argument of a list and what follows it.
  lemma {:induction false} ListWordsAt(args: seq<Arg>, k: nat)
    requires k < |args|
    ensures |ListWords(args)| == 2 * |args| - 1 && ListWords(args)[2 * k] == Param(args[k])
    ensures k + 1 < |args| ==> ListWords(args)[2 * k + 1] == Sign(",")
  {
    if |args| > 1 {
      ListWordsAt(args[..|args| - 1], if k < |args| - 1 then k else 0);
    }
  }

  lemma {:induction false} ReadsListFrom(args: seq<Arg>, k: nat, ws: seq<Sql>, rest: seq<Sql>)
    requires k < |args| && ws == ListWords(args) + [Sign(")")] + rest
    ensures |ws| > 2 * k && ReadList(ws[2 * k..], args[..k]) == Some((args, rest))
    decreases |args| - k
  {
    ListWordsAt(args, k);
    var from := ws[2 * k..];
    assert args[..k] + [args[k]] == args[..k + 1];
    if k + 1 < |args| {
      ReadsListFrom(args, k + 1, ws, rest);
      assert from[2..] == ws[2 * (k + 1)..];
    } else {
      assert from[2..] == rest && args[..k + 1] == args;
    }
  }

  lemma {:induction false} ReadsList(args: seq<Arg>, rest: seq<Sql>)
    ensures ReadList(ListWords(args) + [Sign(")")] + rest, []) == Some((args, rest))
  {
    var ws := ListWords(args) + [Sign(")")] + rest;
    if |args| == 0 {
      assert ws[0] == Sign(")") && ws[1..] == rest;
    } else {
      ReadsListFrom(args, 0, ws, rest);
      assert ws[0..] == ws && args[..0] == [];
    }
  }

  lemma {:induction false} ReadsCompare(cond: Cond, arg: Arg, rest: seq<Sql>)
    ensures ReadTest(TestWords(Compare(cond, arg)) + rest) == Some((Compare(cond, arg), rest))
  {
    var ws := TestWords(Compare(cond, arg)) + rest;
    assert ws[0] == Sign(CondText(cond)) && CondOf(ws[0]) == Some(cond);
    hide CondText, CondOf, ReadList;
    assert ws[2..] == rest;
  }

  lemma {:induction false} ReadsTest(test: Test, rest: seq<Sql>)
    ensures ReadTest(TestWords(test) + rest) == Some((test, rest))
  {
    hide ReadList, ListWords, CondOf, CondText;
    var ws := TestWords(test) + rest;
    match test
    case Compare(cond, arg) =>
      ReadsCompare(cond, arg, rest);
    case Glob(arg) =>
      assert ws[2..] == rest;
    case Within(low, high) =>
      assert ws[4..] == rest;
    case OneOf(args) =>
      assert ws[2..] == ListWords(args) + [Sign(")")] + rest;
      ReadsList(args, rest);
  }

  // Whatever follows, the words of a condition are read as that condition; the AND of a BETWEEN belongs to it.
  lemma {:induction false} ReadsCondition(c: Condition, rest: seq<Sql>)
    ensures ReadCondition(ConditionWords(c) + rest) == Some((c, rest))
  {
    hide OperandWords, TestWords, ReadOperand, ReadTest;
    ReadsOperand(c.numeric, c.path, TestWords(c.test) + rest);
    ReadsTest(c.test, rest);
    assert ConditionWords(c) + rest == OperandWords(c.numeric, c.path) + (TestWords(c.test) + rest);
  }
}
