// What the search-expression parser computes (expr.go, expr_parse_state.go), as functions on values.
// The methods of ExprParser.dfy are proved to compute these functions.
module ExprSpec {
  import opened ExprCalls
  import opened Options

  // strconv.ParseFloat and strings.TrimSpace.
  datatype Lib = Lib(parseFloat: string -> Option<real>, trim: string -> string)

  datatype ParseError =
    | UnexpectedBracket(at: nat)
    | UnexpectedColon(at: nat)
    | InvalidClause(parts: seq<string>)
    | InvalidGroup(inner: string, cause: ParseError)

  datatype Result<+T> = Ok(value: T) | Err(error: ParseError)

  // exprParseState; `calls` is what the builder has received.
  datatype State = State(inQuote: bool, inArray: bool, operator: Option<Op>, parts: seq<string>, dirty: bool,
                         buf: string, field: string, calls: seq<Call>)

  function Start(calls: seq<Call>): State {
    State(false, false, None, [], false, "", "", calls)
  }

  function FieldName(s: State): string {
    if |s.field| > 0 then s.field else "msg"
  }

  predicate HasWild(text: string) {
    '*' in text || '?' in text
  }

  function Upper(c: char): char {
    if 'a' <= c <= 'z' then ((c as int) - 32) as char else c
  }

  // strings.ToUpper(text) == "AND", "OR": only ASCII letters have these upper cases.
  function AsOperator(text: string): Option<Op> {
    if |text| == 3 && Upper(text[0]) == 'A' && Upper(text[1]) == 'N' && Upper(text[2]) == 'D' then Some(And)
    else if |text| == 2 && Upper(text[0]) == 'O' && Upper(text[1]) == 'R' then Some(Or)
    else None
  }

  function AddOperator(s: State): State {
    s.(operator := None,
       calls := if s.dirty then s.calls + [Operator(if s.operator.None? then And else s.operator.value)] else s.calls)
  }

  // The array parts that are numbers, and those that are not.
  function Numbers(lib: Lib, parts: seq<string>): seq<real> {
    if parts == [] then []
    else
      var n := lib.parseFloat(parts[|parts| - 1]);
      Numbers(lib, parts[..|parts| - 1]) + (if n.Some? then [n.value] else [])
  }

  function Texts(lib: Lib, parts: seq<string>): seq<string> {
    if parts == [] then []
    else
      var v := parts[|parts| - 1];
      Texts(lib, parts[..|parts| - 1]) + (if lib.parseFloat(v).Some? then [] else [v])
  }

  function NumberCalls(field: string, numbers: seq<real>): seq<Call> {
    if |numbers| == 0 then []
    else if |numbers| == 1 then [Number(field, Eq, numbers[0])]
    else [NumberIn(field, numbers)]
  }

  function ArrayCalls(field: string, numbers: seq<real>, texts: seq<string>): seq<Call> {
    var group := |numbers| > 0 && |texts| > 0;
    (if group then [GroupStart] else [])
    + NumberCalls(field, numbers)
    + (if group then [Operator(Or)] else [])
    + (if |texts| > 0 then [TextIn(field, texts)] else [])
    + (if group then [GroupEnd] else [])
  }

  predicate IsRange(parts: seq<string>) {
    |parts| == 3 && parts[1] == "TO"
  }

  function CloseArray(lib: Lib, s: State): Result<State> {
    if !s.inArray then Ok(s)
    else if s.parts == [] then Ok(s.(inArray := false))
    else
      var t := AddOperator(s.(inArray := false));
      if IsRange(s.parts) then
        var x, y := lib.parseFloat(s.parts[0]), lib.parseFloat(s.parts[2]);
        if x.None? || y.None? then Err(InvalidClause(s.parts))
        else Ok(t.(calls := t.calls + [Between(FieldName(s), x.value, y.value)], dirty := true, parts := []))
      else
        Ok(t.(calls := t.calls + ArrayCalls(FieldName(s), Numbers(lib, s.parts), Texts(lib, s.parts)),
              dirty := true, parts := []))
  }

  // A leading comparison and what follows it.
  function Comparison(text: string): Option<(Cond, string)> {
    if ">=" <= text then Some((Ge, text[2..]))
    else if ">" <= text then Some((Gt, text[1..]))
    else if "<=" <= text then Some((Le, text[2..]))
    else if "<" <= text then Some((Lt, text[1..]))
    else None
  }

  // The call for a single word.
  function WordCall(lib: Lib, s: State): Call {
    var word := Text(FieldName(s), s.buf, false, HasWild(s.buf));
    if |s.field| == 0 then word
    else
      match Comparison(s.buf)
      case Some(c) =>
        var n := lib.parseFloat(c.1);
        if n.Some? then Number(s.field, c.0, n.value) else word
      case None =>
        var n := lib.parseFloat(lib.trim(s.buf));
        if n.Some? then Number(s.field, Eq, n.value) else word
  }

  function AddTermSingle(lib: Lib, s: State): State {
    if s.inArray then s.(parts := if |s.buf| > 0 then s.parts + [s.buf] else s.parts, buf := "")
    else if |s.buf| > 0 && AsOperator(s.buf).Some? then s.(operator := AsOperator(s.buf), buf := "")
    else if |s.buf| > 0 then
      var t := AddOperator(s);
      t.(calls := t.calls + [WordCall(lib, s)], dirty := true, buf := "", field := "")
    else s.(buf := "", field := "")
  }

  function AddTermSequence(s: State): State {
    if s.inArray then s.(parts := s.parts + [s.buf], buf := "")
    else if |s.buf| > 0 then
      var t := AddOperator(s);
      t.(calls := t.calls + [Text(FieldName(s), s.buf, true, HasWild(s.buf))], dirty := true, buf := "", field := "")
    else s.(buf := "", field := "")
  }

  // The buffer ends in a backslash whenever the previous byte was one.
  predicate Escaping(esc: bool, s: State) {
    esc ==> |s.buf| > 0 && s.buf[|s.buf| - 1] == '\\'
  }

  // An escaped byte replaces the backslash before it.
  function Unescape(s: State, b: char): State
    requires |s.buf| > 0
  {
    s.(buf := s.buf[..|s.buf| - 1] + [b])
  }

  predicate OpensGroup(b: char, s: State) {
    b == '(' && !s.inArray && !s.inQuote
  }

  // One byte outside of groups; esc says whether the byte before it is a backslash.
  function Feed(lib: Lib, at: nat, esc: bool, b: char, s: State): (r: Result<State>)
    requires Escaping(esc, s)
    ensures r.Ok? ==> Escaping(b == '\\', r.value)
  {
    if b == '[' && !s.inQuote then
      if esc then Ok(Unescape(s, b))
      else if s.inArray then Err(UnexpectedBracket(at))
      else Ok(s.(inArray := true))
    else if b == ']' && s.inArray && !s.inQuote then
      if esc then Ok(Unescape(s, b)) else CloseArray(lib, AddTermSingle(lib, s))
    else if b == ' ' then
      if s.inQuote then Ok(s.(buf := s.buf + [b])) else Ok(AddTermSingle(lib, s))
    else if b == '"' then
      if esc then Ok(Unescape(s, b))
      else if s.inQuote then Ok(AddTermSequence(s.(inQuote := false)))
      else Ok(s.(inQuote := true))
    else if b == ':' && !s.inQuote then
      if esc then Ok(Unescape(s, b))
      else if |s.field| > 0 then Err(UnexpectedColon(at))
      else Ok(s.(field := lib.trim(s.buf), buf := ""))
    else Ok(s.(buf := s.buf + [b]))
  }

  // The text up to the parenthesis that closes the group, and what follows it.
  function Split(cs: string, depth: nat, inQuote: bool, esc: bool): (r: (string, string))
    ensures |r.0| + |r.1| <= |cs|
  {
    if cs == [] then ("", "")
    else if cs[0] == ')' && !inQuote && depth == 1 then ("", cs[1..])
    else
      var depth' := if inQuote then depth
                    else if cs[0] == '(' then depth + 1
                    else if cs[0] == ')' && depth > 0 then depth - 1
                    else depth;
      var inQuote' := if cs[0] == '"' && !esc then !inQuote else inQuote;
      var (inner, rest) := Split(cs[1..], depth', inQuote', cs[0] == '\\');
      ([cs[0]] + inner, rest)
  }

  lemma SplitSteps(cs: string, depth: nat, inQuote: bool, esc: bool)
    ensures cs == [] ==> Split(cs, depth, inQuote, esc) == ("", "")
    ensures cs != [] && cs[0] == ')' && !inQuote && depth == 1 ==> Split(cs, depth, inQuote, esc) == ("", cs[1..])
    ensures cs != [] && !(cs[0] == ')' && !inQuote && depth == 1) ==>
              var d := if inQuote then depth
                       else if cs[0] == '(' then depth + 1
                       else if cs[0] == ')' && depth > 0 then depth - 1
                       else depth;
              var (inner, rest) := Split(cs[1..], d, if cs[0] == '"' && !esc then !inQuote else inQuote, cs[0] == '\\');
              Split(cs, depth, inQuote, esc) == ([cs[0]] + inner, rest)
  {
  }

  // The loop of parse over the remaining input cs; `at` is its position.
  function Scan(lib: Lib, at: nat, esc: bool, cs: string, s: State): Result<State>
    requires Escaping(esc, s)
    decreases |cs|, 0
  {
    if cs == [] then Ok(s)
    else if OpensGroup(cs[0], s) then
      var (inner, rest) := Split(cs[1..], 1, false, false);
      var t := AddOperator(s);
      match Parse(lib, inner, t.calls + [GroupStart])
      case Err(error) => Err(InvalidGroup(inner, error))
      case Ok(calls) =>
        Scan(lib, at + |cs| - |rest|, false, rest, t.(calls := calls + [GroupEnd], dirty := true))
    else
      match Feed(lib, at, esc, cs[0], s)
      case Err(error) => Err(error)
      case Ok(t) => Scan(lib, at + 1, cs[0] == '\\', cs[1..], t)
  }

  function Finish(lib: Lib, s: State): Result<seq<Call>> {
    match CloseArray(lib, if s.inQuote then AddTermSequence(s) else AddTermSingle(lib, s))
    case Err(error) => Err(error)
    case Ok(t) => Ok(t.calls)
  }

  // parse: all calls the builder has received afterwards.
  function Parse(lib: Lib, qs: string, calls: seq<Call>): Result<seq<Call>>
    decreases |qs|, 1
  {
    match Scan(lib, 0, false, qs, Start(calls))
    case Err(error) => Err(error)
    case Ok(s) => Finish(lib, s)
  }

  lemma ScanStops(lib: Lib, at: nat, esc: bool, s: State)
    requires Escaping(esc, s)
    ensures Scan(lib, at, esc, "", s) == Ok(s)
  {
  }

  // The two kinds of passes of that loop.
  lemma {:induction false} ScanOpens(lib: Lib, at: nat, esc: bool, cs: string, s: State)
    requires Escaping(esc, s) && cs != [] && OpensGroup(cs[0], s)
    ensures var (inner, rest) := Split(cs[1..], 1, false, false);
            var t := AddOperator(s);
            |inner| < |cs| && |rest| < |cs| &&
            Scan(lib, at, esc, cs, s) ==
            match Parse(lib, inner, t.calls + [GroupStart])
            case Err(error) => Err(InvalidGroup(inner, error))
            case Ok(calls) =>
              Scan(lib, at + |cs| - |rest|, false, rest, t.(calls := calls + [GroupEnd], dirty := true))
  {
  }

  lemma {:induction false} ScanFeeds(lib: Lib, at: nat, esc: bool, cs: string, s: State)
    requires Escaping(esc, s) && cs != [] && !OpensGroup(cs[0], s)
    ensures Scan(lib, at, esc, cs, s) ==
            match Feed(lib, at, esc, cs[0], s)
            case Err(error) => Err(error)
            case Ok(t) => Scan(lib, at + 1, cs[0] == '\\', cs[1..], t)
  {
  }
}
