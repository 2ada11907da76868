// Query texts: how a query is written, and which expression it stands for.
module QueryText {
  import opened ExprCalls
  import opened Options
  import opened S = ExprSpec

  // A query is a row of pieces.  Between two pieces is a blank, unless the second is glued to the first.
  datatype Query = Empty | More(before: Query, glued: bool, piece: Piece)

  // Nothing (so that there are two blanks in a row), AND or OR, a query in parentheses, or a clause.  `name` is
  // what is written before a colon, if there is one.
  datatype Piece =
    | Gap
    | Link(name: Option<string>, word: string)
    | Paren(body: Query)
    | Clause(name: Option<string>, value: Value)

  // A word, a comparison with a number, a quotation, or a bracketed array.
  datatype Value =
    | Word(text: string)
    | Amount(cond: Cond, numeral: string)
    | Phrase(text: string)
    | Array(parts: seq<Part>)

  datatype Part = Part(text: string, quoted: bool)

  // ---- How it is written ----

  datatype Place = Outside | InArray | InQuotes

  // Bytes that mean something there, unless a backslash is before them.
  predicate Special(place: Place, c: char) {
    match place
    case Outside => c == '"' || c == ':' || c == '['
    case InArray => c == '"' || c == ':' || c == '[' || c == ']'
    case InQuotes => c == '"'
  }

  // Bytes that cannot be written there.
  predicate Barred(place: Place, c: char) {
    place != InQuotes && (c == ' ' || c == '(' || c == ')')
  }

  predicate Fits(place: Place, t: string) {
    forall i :: 0 <= i < |t| ==> !Barred(place, t[i])
  }

  function EscapeByte(place: Place, c: char): string {
    if Special(place, c) then ['\\', c] else [c]
  }

  function Escape(place: Place, t: string): string {
    if t == "" then "" else EscapeByte(place, t[0]) + Escape(place, t[1..])
  }

  // Whether the byte after t, which is escaped if t is empty and esc holds, follows a backslash.
  predicate EndsInBackslash(t: string, esc: bool) {
    if t == "" then esc else t[|t| - 1] == '\\'
  }

  function Sign(cond: Cond): string {
    match cond
    case Eq => ""
    case Gt => ">"
    case Ge => ">="
    case Lt => "<"
    case Le => "<="
  }

  function Quoted(t: string): string {
    "\"" + Escape(InQuotes, t) + "\""
  }

  function PrintPart(p: Part): string {
    if p.quoted then Quoted(p.text) else Escape(InArray, p.text)
  }

  function PrintParts(parts: seq<Part>): string {
    if parts == [] then ""
    else if |parts| == 1 then PrintPart(parts[0])
    else PrintParts(parts[..|parts| - 1]) + (" " + PrintPart(parts[|parts| - 1]))
  }

  function PrintName(name: Option<string>): string {
    match name
    case None => ""
    case Some(t) => Escape(Outside, t) + ":"
  }

  // `closed` tells whether the quotation marks, brackets and parentheses open at the end are closed.
  function PrintValue(v: Value, closed: bool): string {
    match v
    case Word(t) => Escape(Outside, t)
    case Amount(cond, numeral) => Escape(Outside, Sign(cond) + numeral)
    case Phrase(t) => "\"" + Escape(InQuotes, t) + if closed then "\"" else ""
    case Array(parts) => "[" + PrintParts(parts) + if closed then "]" else ""
  }

  function PrintPiece(p: Piece, closed: bool): string {
    match p
    case Gap => ""
    case Link(name, word) => PrintName(name) + word
    case Paren(body) => "(" + Print(body, closed) + if closed then ")" else ""
    case Clause(name, value) => PrintName(name) + PrintValue(value, closed)
  }

  function Print(q: Query, closed: bool): string {
    match q
    case Empty => ""
    case More(before, glued, piece) =>
      Print(before, true) + (if glued || before == Empty then "" else " ") + PrintPiece(piece, closed)
  }

  // ---- What can be written ----

  // AND or OR, in letters of either case.
  predicate Spells(word: string, op: Op) {
    var name := if op == And then "AND" else "OR";
    |word| == |name| && forall i :: 0 <= i < |name| ==> word[i] == name[i] || word[i] as int == name[i] as int + 32
  }

  predicate IsLink(word: string) {
    Spells(word, And) || Spells(word, Or)
  }

  // A number after a comparison, or alone.
  function AmountOf(lib: Lib, cond: Cond, numeral: string): Option<real> {
    lib.parseFloat(if cond == Eq then lib.trim(numeral) else numeral)
  }

  // t is the longest comparison there is and a number.
  predicate Compares(lib: Lib, t: string, cond: Cond, numeral: string) {
    && t == Sign(cond) + numeral && AmountOf(lib, cond, numeral).Some?
    && match cond
       case Eq => !("<" <= t) && !(">" <= t)
       case Gt => !("=" <= numeral)
       case Lt => !("=" <= numeral)
       case _ => true
  }

  // The field a clause is about, "" if it has none; `carried` is the one in force where the clause begins.
  function NameOf(lib: Lib, carried: string, name: Option<string>): string {
    match name
    case None => carried
    case Some(t) => lib.trim(t)
  }

  predicate IsClosed(p: Piece) {
    p.Paren? || (p.Clause? && (p.value.Phrase? || p.value.Array?))
  }

  // The name before an array stays in force up to the next blank, the name before an AND or OR up to the blank
  // after the next.
  function Carried(lib: Lib, q: Query): string
    decreases q, 0
  {
    match q
    case Empty => ""
    case More(before, glued, piece) =>
      var outer := InForce(lib, before, glued);
      match piece
      case Paren(_) => outer
      case Link(name, _) => NameOf(lib, outer, name)
      case Clause(name, Array(_)) => NameOf(lib, outer, name)
      case _ => ""
  }

  // Where the piece behind q begins.
  function InForce(lib: Lib, q: Query, glued: bool): string
    decreases q, 1
  {
    if q != Empty && (glued || q.piece.Link?) then Carried(lib, q) else ""
  }

  predicate WritableName(carried: string, name: Option<string>) {
    name.Some? ==> carried == "" && Fits(Outside, name.value) && !EndsInBackslash(name.value, false)
  }

  predicate InRange(parts: seq<Part>) {
    |parts| == 3 && parts[1].text == "TO"
  }

  predicate WritablePart(p: Part) {
    if p.quoted then !EndsInBackslash(p.text, false) else p.text != "" && Fits(InArray, p.text)
  }

  ghost predicate WritableValue(lib: Lib, field: string, v: Value) {
    match v
    case Word(t) =>
      t != "" && Fits(Outside, t) && !IsLink(t)
      && (field != "" ==> forall cond, numeral :: !Compares(lib, t, cond, numeral))
    case Amount(cond, numeral) =>
      var t := Sign(cond) + numeral;
      field != "" && t != "" && Fits(Outside, t) && !IsLink(t) && Compares(lib, t, cond, numeral)
    case Phrase(t) => !EndsInBackslash(t, false)
    case Array(parts) =>
      && (forall i :: 0 <= i < |parts| ==> WritablePart(parts[i]))
      && (parts != [] ==> !EndsInBackslash(parts[|parts| - 1].text, false))
      && (InRange(parts) ==> lib.parseFloat(parts[0].text).Some? && lib.parseFloat(parts[2].text).Some?)
  }

  // Every byte can be written somehow, but for blanks and parentheses outside of quotation marks; a backslash
  // at the end of a name, of a quotation or of an array would escape what closes it.
  ghost predicate WritablePiece(lib: Lib, carried: string, p: Piece)
    decreases p
  {
    match p
    case Gap => true
    case Link(name, word) => WritableName(carried, name) && IsLink(word)
    case Paren(body) => Writable(lib, body)
    case Clause(name, value) => WritableName(carried, name) && WritableValue(lib, NameOf(lib, carried, name), value)
  }

  ghost predicate Writable(lib: Lib, q: Query)
    decreases q
  {
    match q
    case Empty => true
    case More(before, glued, piece) =>
      && Writable(lib, before)
      && (glued ==> before != Empty && IsClosed(before.piece) && !piece.Gap?)
      && WritablePiece(lib, InForce(lib, before, glued), piece)
  }

  // ---- What it means ----

  predicate Wild(t: string) {
    exists i :: 0 <= i < |t| && (t[i] == '*' || t[i] == '?')
  }

  function NumbersOf(lib: Lib, parts: seq<Part>): seq<real> {
    if parts == [] then []
    else
      var rest := NumbersOf(lib, parts[1..]);
      match lib.parseFloat(parts[0].text)
      case Some(x) => [x] + rest
      case None => rest
  }

  function TextsOf(lib: Lib, parts: seq<Part>): seq<string> {
    if parts == [] then []
    else if lib.parseFloat(parts[0].text).Some? then TextsOf(lib, parts[1..])
    else [parts[0].text] + TextsOf(lib, parts[1..])
  }

  // The numbers of an array, or its texts; with both, either of them.
  function ArrayItem(lib: Lib, field: string, parts: seq<Part>): Item {
    var numbers, texts := NumbersOf(lib, parts), TextsOf(lib, parts);
    var number := Atom(if |numbers| == 1 then Number(field, Eq, numbers[0]) else NumberIn(field, numbers));
    var text := Atom(TextIn(field, texts));
    if texts == [] then number else if numbers == [] then text else Group(Then(One(number), Or, text))
  }

  function ValueItem(lib: Lib, field: string, v: Value): Option<Item> {
    match v
    case Word(t) => Some(Atom(Text(field, t, false, Wild(t))))
    case Amount(cond, numeral) =>
      (match AmountOf(lib, cond, numeral)
       case Some(x) => Some(Atom(Number(field, cond, x)))
       case None => None)
    case Phrase(t) => if t == "" then None else Some(Atom(Text(field, t, true, Wild(t))))
    case Array(parts) =>
      if parts == [] then None
      else if InRange(parts) then
        match (lib.parseFloat(parts[0].text), lib.parseFloat(parts[2].text))
        case (Some(x), Some(y)) => Some(Atom(Between(field, x, y)))
        case _ => None
      else Some(ArrayItem(lib, field, parts))
  }

  // A clause without a name is about the message.
  function FieldOf(name: string): string {
    if name == "" then "msg" else name
  }

  function PieceItem(lib: Lib, carried: string, p: Piece): Option<Item>
    decreases p, 0
  {
    match p
    case Gap => None
    case Link(_, _) => None
    case Paren(body) => Some(Group(Meaning(lib, body)))
    case Clause(name, value) =>
      ValueItem(lib, FieldOf(NameOf(lib, carried, name)), value)
  }

  function LastItem(lib: Lib, q: Query): Option<Item>
    requires q != Empty
    decreases q, 0
  {
    PieceItem(lib, InForce(lib, q.before, q.glued), q.piece)
  }

  // The last AND or OR behind the last item.
  function Pending(lib: Lib, q: Query): Option<Op>
    decreases q, 1
  {
    match q
    case Empty => None
    case More(before, _, piece) =>
      if piece.Link? then Some(if Spells(piece.word, Or) then Or else And)
      else if LastItem(lib, q).Some? then None
      else Pending(lib, before)
  }

  // Items are joined by the last AND or OR between them; without any, by AND.  Before the first item and behind
  // the last one they do not count.
  function Meaning(lib: Lib, q: Query): Expr
    decreases q, 2
  {
    match q
    case Empty => Nothing
    case More(before, _, _) =>
      match LastItem(lib, q)
      case None => Meaning(lib, before)
      case Some(item) =>
        var op := Pending(lib, before);
        Extend(Meaning(lib, before), if op == None then And else op.value, item)
  }
}
