// The parser reads every query text as QueryText says.
module QueryParse {
  import opened ExprCalls
  import opened ExprSpec
  import opened Options
  import opened QueryText

  lemma EndsBoth(a: string, b: string, esc: bool)
    ensures EndsInBackslash(a + b, esc) == EndsInBackslash(b, EndsInBackslash(a, esc))
  {
  }

  // ---- Group extraction passes over a text ----

  function Prefix(p: string, r: (string, string)): (string, string) {
    (p + r.0, r.1)
  }

  lemma PrefixTwice(p: string, q: string, r: (string, string))
    ensures Prefix(p, Prefix(q, r)) == Prefix(p + q, r)
  {
    assert p + (q + r.0) == p + q + r.0;
  }

  lemma Assoc3(a: string, b: string, c: string)
    ensures a + b + c == a + (b + c)
  {
  }

  // With the state of Split before and behind the text: depth and inQuote.
  ghost predicate Over(t: string, esc: bool, d: nat, q: bool, d': nat, q': bool) {
    forall rest :: Split(t + rest, d, q, esc) == Prefix(t, Split(rest, d', q', EndsInBackslash(t, esc)))
  }

  lemma {:induction false} OverNone(esc: bool, d: nat, q: bool)
    ensures Over("", esc, d, q, d, q)
  {
    forall rest
      ensures Split("" + rest, d, q, esc) == Prefix("", Split(rest, d, q, EndsInBackslash("", esc)))
    {
      assert "" + rest == rest && "" + Split(rest, d, q, esc).0 == Split(rest, d, q, esc).0;
    }
  }

  lemma {:induction false} OverBoth(a: string, b: string, esc: bool, d: nat, q: bool, d': nat, q': bool, d'': nat,
                                    q'': bool)
    requires Over(a, esc, d, q, d', q') && Over(b, EndsInBackslash(a, esc), d', q', d'', q'')
    ensures Over(a + b, esc, d, q, d'', q'')
  {
    hide Split, Prefix;
    EndsBoth(a, b, esc);
    hide EndsInBackslash;
    forall rest
      ensures Split(a + b + rest, d, q, esc) == Prefix(a + b, Split(rest, d'', q'', EndsInBackslash(a + b, esc)))
    {
      var more := b + rest;
      assert Split(a + more, d, q, esc) == Prefix(a, Split(more, d', q', EndsInBackslash(a, esc)));
      assert Split(b + rest, d', q', EndsInBackslash(a, esc))
          == Prefix(b, Split(rest, d'', q'', EndsInBackslash(a + b, esc)));
      PrefixTwice(a, b, Split(rest, d'', q'', EndsInBackslash(a + b, esc)));
      Assoc3(a, b, rest);
    }
  }

  // One byte that does not end the group.
  lemma {:induction false} OverByte(b: char, esc: bool, d: nat, q: bool)
    requires q || b != ')' || d > 1
    ensures Over([b], esc, d, q, if q then d else if b == '(' then d + 1 else if b == ')' then d - 1 else d,
                 if b == '"' && !esc then !q else q)
  {
    forall rest {
      SplitByte(b, rest, esc, d, q);
    }
  }

  lemma {:induction false} SplitByte(b: char, rest: string, esc: bool, d: nat, q: bool)
    requires q || b != ')' || d > 1
    ensures var d' := if q then d else if b == '(' then d + 1 else if b == ')' then d - 1 else d;
            Split([b] + rest, d, q, esc)
            == Prefix([b], Split(rest, d', if b == '"' && !esc then !q else q, EndsInBackslash([b], esc)))
  {
    SplitSteps([b] + rest, d, q, esc);
    assert ([b] + rest)[1..] == rest;
  }

  lemma {:induction false} EscapeByteEnds(place: Place, c: char, esc: bool)
    ensures EndsInBackslash(EscapeByte(place, c), esc) == (c == '\\')
  {
  }

  lemma {:induction false} OverEscapeByte(place: Place, c: char, esc: bool, d: nat)
    requires d > 0 && !Barred(place, c)
    ensures Over(EscapeByte(place, c), esc, d, place == InQuotes, d, place == InQuotes)
  {
    hide Over;
    var q := place == InQuotes;
    if Special(place, c) {
      OverByte('\\', esc, d, q);
      OverByte(c, true, d, q);
      OverBoth("\\", [c], esc, d, q, d, q, d, q);
      assert EscapeByte(place, c) == "\\" + [c];
    } else {
      OverByte(c, esc, d, q);
    }
  }

  lemma {:induction false} OverEscape(place: Place, t: string, esc: bool, d: nat)
    requires d > 0 && Fits(place, t)
    ensures Over(Escape(place, t), esc, d, place == InQuotes, d, place == InQuotes)
    ensures EndsInBackslash(Escape(place, t), esc) == EndsInBackslash(t, esc)
    decreases |t|
  {
    hide Over;
    var q := place == InQuotes;
    if t == "" {
      OverNone(esc, d, q);
    } else {
      OverEscapeByte(place, t[0], esc, d);
      EscapeByteEnds(place, t[0], esc);
      OverEscape(place, t[1..], t[0] == '\\', d);
      OverBoth(EscapeByte(place, t[0]), Escape(place, t[1..]), esc, d, q, d, q, d, q);
      EndsBoth(EscapeByte(place, t[0]), Escape(place, t[1..]), esc);
    }
  }

  lemma {:induction false} OverQuoted(t: string, d: nat)
    requires d > 0 && !EndsInBackslash(t, false)
    ensures Over(Quoted(t), false, d, false, d, false)
    ensures Over("\"" + Escape(InQuotes, t), false, d, false, d, true)
  {
    hide Over, Escape;
    var text := Escape(InQuotes, t);
    OverByte('"', false, d, false);
    OverEscape(InQuotes, t, false, d);
    OverBoth("\"", text, false, d, false, d, true, d, true);
    OverByte('"', false, d, true);
    EndsBoth("\"", text, false);
    OverBoth("\"" + text, "\"", false, d, false, d, true, d, false);
  }

  lemma {:induction false} OverPart(p: Part, d: nat)
    requires d > 0 && WritablePart(p)
    ensures Over(PrintPart(p), false, d, false, d, false)
  {
    hide Over, Escape, Quoted;
    if p.quoted {
      OverQuoted(p.text, d);
    } else {
      OverEscape(InArray, p.text, false, d);
    }
  }

  lemma {:induction false} OverParts(parts: seq<Part>, d: nat)
    requires d > 0 && forall i :: 0 <= i < |parts| ==> WritablePart(parts[i])
    ensures Over(PrintParts(parts), false, d, false, d, false)
  {
    hide Over, PrintPart, WritablePart;
    if parts == [] {
      OverNone(false, d, false);
    } else {
      var front, last := parts[..|parts| - 1], parts[|parts| - 1];
      OverPart(last, d);
      if |parts| > 1 {
        OverParts(front, d);
        var esc := EndsInBackslash(PrintParts(front), false);
        OverByte(' ', esc, d, false);
        OverBoth(" ", PrintPart(last), esc, d, false, d, false, d, false);
        OverBoth(PrintParts(front), " " + PrintPart(last), false, d, false, d, false, d, false);
      }
    }
  }

  lemma {:induction false} OverName(name: Option<string>, d: nat)
    requires d > 0 && (name.Some? ==> Fits(Outside, name.value))
    ensures Over(PrintName(name), false, d, false, d, false)
    ensures !EndsInBackslash(PrintName(name), false)
  {
    hide Over, Escape;
    if name.Some? {
      var text := Escape(Outside, name.value);
      OverEscape(Outside, name.value, false, d);
      OverByte(':', EndsInBackslash(text, false), d, false);
      OverBoth(text, ":", false, d, false, d, false, d, false);
    } else {
      OverNone(false, d, false);
    }
  }

  // With closed == false a quotation may stay open.
  lemma {:induction false} OverValue(lib: Lib, field: string, v: Value, closed: bool, d: nat)
    requires d > 0 && WritableValue(lib, field, v)
    ensures Over(PrintValue(v, closed), false, d, false, d, !closed && v.Phrase?)
  {
    hide Over, Escape, PrintParts, WritablePart;
    match v
    case Word(t) => OverEscape(Outside, t, false, d);
    case Amount(cond, numeral) => OverEscape(Outside, Sign(cond) + numeral, false, d);
    case Phrase(t) =>
      OverQuoted(t, d);
      assert "\"" + Escape(InQuotes, t) + "" == "\"" + Escape(InQuotes, t);
    case Array(parts) =>
      var list := PrintParts(parts);
      OverByte('[', false, d, false);
      OverParts(parts, d);
      OverBoth("[", list, false, d, false, d, false, d, false);
      OverByte(']', EndsInBackslash("[" + list, false), d, false);
      OverBoth("[" + list, "]", false, d, false, d, false, d, false);
      assert "[" + list + "" == "[" + list;
  }

  lemma {:induction false} LinkIsPlain(word: string)
    requires IsLink(word)
    ensures Escape(Outside, word) == word && Fits(Outside, word) && word != "" && !EndsInBackslash(word, false)
  {
    if |word| == 3 {
      assert word == [word[0]] + ([word[1]] + ([word[2]] + ""));
    } else {
      assert word == [word[0]] + ([word[1]] + "");
    }
    NothingSpecial(Outside, word);
  }

  lemma {:induction false} NothingSpecial(place: Place, t: string)
    requires forall i :: 0 <= i < |t| ==> !Special(place, t[i])
    ensures Escape(place, t) == t
  {
    if t != "" {
      NothingSpecial(place, t[1..]);
    }
  }

  lemma {:induction false} OverPiece(lib: Lib, carried: string, p: Piece, d: nat)
    requires d > 0 && WritablePiece(lib, carried, p)
    ensures Over(PrintPiece(p, true), false, d, false, d, false)
    decreases p, 0
  {
    hide Over, PrintValue, PrintName, WritableValue, Escape, Split;
    match p
    case Gap => OverNone(false, d, false);
    case Link(name, word) =>
      LinkIsPlain(word);
      OverName(name, d);
      OverEscape(Outside, word, false, d);
      OverBoth(PrintName(name), word, false, d, false, d, false, d, false);
    case Paren(body) =>
      var text := Print(body, true);
      OverByte('(', false, d, false);
      OverQuery(lib, body, d + 1);
      OverBoth("(", text, false, d, false, d + 1, false, d + 1, false);
      OverByte(')', EndsInBackslash("(" + text, false), d + 1, false);
      OverBoth("(" + text, ")", false, d, false, d + 1, false, d, false);
    case Clause(name, value) =>
      OverName(name, d);
      OverValue(lib, NameOf(lib, carried, name), value, true, d);
      OverBoth(PrintName(name), PrintValue(value, true), false, d, false, d, false, d, false);
  }

  // Up to where the last piece begins.
  function Head(q: Query): string
    requires q != Empty
  {
    Print(q.before, true) + if q.glued || q.before == Empty then "" else " "
  }

  // A glued piece is behind a closing mark.
  lemma {:induction false} ClosedEnds(lib: Lib, carried: string, p: Piece)
    requires WritablePiece(lib, carried, p) && IsClosed(p)
    ensures var t := PrintPiece(p, true); |t| > 0 && t[|t| - 1] != '\\'
  {
    if p.Clause? {
      var t := PrintValue(p.value, true);
      assert t[|t| - 1] == '"' || t[|t| - 1] == ']';
      assert PrintPiece(p, true)[|PrintPiece(p, true)| - 1] == t[|t| - 1];
    }
  }

  lemma {:induction false} HeadEnds(lib: Lib, q: Query)
    requires Writable(lib, q) && q != Empty
    ensures !EndsInBackslash(Head(q), false)
  {
    if q.glued {
      var b := q.before;
      ClosedEnds(lib, InForce(lib, b.before, b.glued), b.piece);
      var last := PrintPiece(b.piece, true);
      assert Head(q) == Print(b, true) == Head(b) + last;
      assert Head(q)[|Head(q)| - 1] == last[|last| - 1];
    }
  }

  lemma {:induction false} OverHead(lib: Lib, q: Query, d: nat)
    requires d > 0 && Writable(lib, q) && q != Empty
    ensures Over(Head(q), false, d, false, d, false)
    decreases q, 0
  {
    hide Over, Split, Print;
    var text := Print(q.before, true);
    OverQuery(lib, q.before, d);
    if q.glued || q.before == Empty {
      assert Head(q) == text;
    } else {
      OverByte(' ', EndsInBackslash(text, false), d, false);
      OverBoth(text, " ", false, d, false, d, false, d, false);
    }
  }

  lemma {:induction false} OverQuery(lib: Lib, q: Query, d: nat)
    requires d > 0 && Writable(lib, q)
    ensures Over(Print(q, true), false, d, false, d, false)
    decreases q, 1
  {
    hide Over, Split, PrintPiece, WritablePiece;
    if q == Empty {
      OverNone(false, d, false);
    } else {
      OverHead(lib, q, d);
      HeadEnds(lib, q);
      OverPiece(lib, InForce(lib, q.before, q.glued), q.piece, d);
      OverBoth(Head(q), PrintPiece(q.piece, true), false, d, false, d, false, d, false);
    }
  }

  // With something open at the end, extraction runs to the end.
  lemma {:induction false} OverOpen(lib: Lib, q: Query, d: nat) returns (d': nat, q': bool)
    requires d > 0 && Writable(lib, q)
    ensures Over(Print(q, false), false, d, false, d', q')
    decreases q
  {
    hide Over, Split, PrintValue, PrintName, WritableValue;
    d', q' := d, false;
    if q == Empty {
      OverNone(false, d, false);
    } else {
      var carried := InForce(lib, q.before, q.glued);
      OverHead(lib, q, d);
      HeadEnds(lib, q);
      match q.piece {
      case Paren(body) =>
        OverByte('(', false, d, false);
        d', q' := OverOpen(lib, body, d + 1);
        OverBoth("(", Print(body, false), false, d, false, d + 1, false, d', q');
        assert PrintPiece(q.piece, false) == "(" + Print(body, false);
      case Clause(name, value) =>
        q' := value.Phrase?;
        OverName(name, d);
        OverValue(lib, NameOf(lib, carried, name), value, false, d);
        OverBoth(PrintName(name), PrintValue(value, false), false, d, false, d, false, d, q');
      case _ =>
        OverPiece(lib, carried, q.piece, d);
      }
      OverBoth(Head(q), PrintPiece(q.piece, false), false, d, false, d, false, d', q');
    }
  }

  // The text of a query in parentheses is found again, whatever follows it.
  lemma {:induction false} SplitPrinted(lib: Lib, q: Query, rest: string)
    requires Writable(lib, q)
    ensures Split(Print(q, true) + ")" + rest, 1, false, false) == (Print(q, true), rest)
  {
    hide *;
    var text := Print(q, true);
    OverQuery(lib, q, 1);
    OverAt(text, ")" + rest, false, 1, false, 1, false);
    Assoc3(text, ")", rest);
    SplitCloses(rest, EndsInBackslash(text, false));
    assert text + "" == text;
    PrefixIs(text, "", rest);
  }

  lemma PrefixIs(t: string, a: string, b: string)
    ensures Prefix(t, (a, b)) == (t + a, b)
  {
  }

  lemma SplitCloses(rest: string, esc: bool)
    ensures Split(")" + rest, 1, false, esc) == ("", rest)
  {
    SplitSteps(")" + rest, 1, false, esc);
    assert (")" + rest)[1..] == rest;
  }

  lemma OverAt(t: string, rest: string, esc: bool, d: nat, q: bool, d': nat, q': bool)
    requires Over(t, esc, d, q, d', q')
    ensures Split(t + rest, d, q, esc) == Prefix(t, Split(rest, d', q', EndsInBackslash(t, esc)))
  {
  }

  // Without the parenthesis that closes it, the text is taken to the end.
  lemma {:induction false} SplitOpen(lib: Lib, q: Query)
    requires Writable(lib, q)
    ensures Split(Print(q, false), 1, false, false) == (Print(q, false), "")
  {
    hide *;
    var text := Print(q, false);
    var d, q' := OverOpen(lib, q, 1);
    OverAt(text, "", false, 1, false, d, q');
    SplitSteps("", d, q', EndsInBackslash(text, false));
    assert text + "" == text;
    PrefixIs(text, "", "");
  }

  // ---- The scanner passes over a text ----

  // From one state to another, wherever the text is and whatever follows it.
  ghost predicate Scans(lib: Lib, esc: bool, t: string, s: State, u: State) {
    && Escaping(esc, s) && Escaping(EndsInBackslash(t, esc), u)
    && forall at: nat, rest ::
         Scan(lib, at, esc, t + rest, s) == Scan(lib, at + |t|, EndsInBackslash(t, esc), rest, u)
  }

  lemma ScansAt(lib: Lib, at: nat, esc: bool, t: string, rest: string, s: State, u: State)
    requires Scans(lib, esc, t, s, u)
    ensures Escaping(esc, s) && Escaping(EndsInBackslash(t, esc), u)
    ensures Scan(lib, at, esc, t + rest, s) == Scan(lib, at + |t|, EndsInBackslash(t, esc), rest, u)
  {
  }

  lemma {:induction false} ScansNone(lib: Lib, esc: bool, s: State)
    requires Escaping(esc, s)
    ensures Scans(lib, esc, "", s, s)
  {
    forall at: nat, rest
      ensures Scan(lib, at, esc, "" + rest, s) == Scan(lib, at + 0, esc, rest, s)
    {
      assert "" + rest == rest;
    }
  }

  lemma {:induction false} ScansBoth(lib: Lib, esc: bool, a: string, b: string, s: State, u: State, v: State)
    requires Scans(lib, esc, a, s, u) && Scans(lib, EndsInBackslash(a, esc), b, u, v)
    ensures Scans(lib, esc, a + b, s, v)
  {
    EndsBoth(a, b, esc);
    hide Scan, EndsInBackslash, Escaping;
    forall at: nat, rest
      ensures Scan(lib, at, esc, a + b + rest, s) == Scan(lib, at + |a + b|, EndsInBackslash(a + b, esc), rest, v)
    {
      Assoc3(a, b, rest);
      ScansAt(lib, at, esc, a, b + rest, s, u);
      ScansAt(lib, at + |a|, EndsInBackslash(a, esc), b, rest, u, v);
    }
  }

  // One byte that does not open a group.
  lemma {:induction false} ScansByte(lib: Lib, esc: bool, b: char, s: State, u: State)
    requires Escaping(esc, s) && !OpensGroup(b, s) && forall at: nat :: Feed(lib, at, esc, b, s) == Ok(u)
    ensures Scans(lib, esc, [b], s, u)
  {
    assert Feed(lib, 0, esc, b, s) == Ok(u);
    forall at: nat, rest
      ensures Scan(lib, at, esc, [b] + rest, s) == Scan(lib, at + 1, EndsInBackslash([b], esc), rest, u)
    {
      hide Scan, Feed;
      ScanFeeds(lib, at, esc, [b] + rest, s);
      assert ([b] + rest)[1..] == rest && ([b] + rest)[0] == b;
    }
  }

  // Where bytes go to the buffer.
  predicate Reads(place: Place, s: State) {
    match place
    case Outside => !s.inQuote && !s.inArray
    case InArray => !s.inQuote && s.inArray
    case InQuotes => s.inQuote
  }

  lemma {:induction false} ScansEscapeByte(lib: Lib, place: Place, c: char, esc: bool, s: State)
    requires Escaping(esc, s) && Reads(place, s) && !Barred(place, c)
    ensures Scans(lib, esc, EscapeByte(place, c), s, s.(buf := s.buf + [c]))
  {
    hide Scans;
    var u := s.(buf := s.buf + [c]);
    if Special(place, c) {
      var slash := s.(buf := s.buf + ['\\']);
      ScansByte(lib, esc, '\\', s, slash);
      assert Unescape(slash, c) == u;
      ScansByte(lib, true, c, slash, u);
      ScansBoth(lib, esc, "\\", [c], s, slash, u);
      assert EscapeByte(place, c) == "\\" + [c];
    } else {
      ScansByte(lib, esc, c, s, u);
    }
  }

  // Escaped text is what the buffer gets.
  lemma {:induction false} ScansEscape(lib: Lib, place: Place, t: string, esc: bool, s: State)
    requires Escaping(esc, s) && Reads(place, s) && Fits(place, t)
    ensures Scans(lib, esc, Escape(place, t), s, s.(buf := s.buf + t))
    decreases |t|
  {
    hide Scans;
    if t == "" {
      assert s.buf + t == s.buf;
      ScansNone(lib, esc, s);
    } else {
      var next := s.(buf := s.buf + [t[0]]);
      ScansEscapeByte(lib, place, t[0], esc, s);
      EscapeByteEnds(place, t[0], esc);
      ScansEscape(lib, place, t[1..], t[0] == '\\', next);
      assert next.buf + t[1..] == s.buf + t;
      ScansBoth(lib, esc, EscapeByte(place, t[0]), Escape(place, t[1..]), s, next, s.(buf := s.buf + t));
    }
  }

  lemma {:induction false} EscapeEnds(place: Place, t: string, esc: bool)
    ensures EndsInBackslash(Escape(place, t), esc) == EndsInBackslash(t, esc)
    decreases |t|
  {
    if t != "" {
      EscapeEnds(place, t[1..], t[0] == '\\');
      EscapeByteEnds(place, t[0], esc);
      EndsBoth(EscapeByte(place, t[0]), Escape(place, t[1..]), esc);
    }
  }

  // Before a piece.
  predicate Fresh(s: State) {
    !s.inQuote && !s.inArray && s.parts == [] && s.buf == ""
  }

  // Behind an item and a blank: it is sent, with an operator before it unless it is the first.
  function Accept(s: State, item: Option<Item>): State {
    match item
    case None => s.(field := "")
    case Some(i) =>
      var op := Operator(if s.operator == None then And else s.operator.value);
      s.(operator := None, calls := s.calls + (if s.dirty then [op] else []) + ItemCalls(i), dirty := true, field := "")
  }

  // An opening quotation mark and what follows it.
  lemma {:induction false} ScansOpenQuote(lib: Lib, t: string, s: State)
    requires !s.inQuote && s.buf == ""
    ensures Scans(lib, false, "\"" + Escape(InQuotes, t), s, s.(inQuote := true, buf := t))
  {
    hide Scans, Escape;
    var open := s.(inQuote := true);
    ScansByte(lib, false, '"', s, open);
    ScansEscape(lib, InQuotes, t, false, open);
    assert open.buf + t == t;
    ScansBoth(lib, false, "\"", Escape(InQuotes, t), s, open, open.(buf := t));
  }

  lemma {:induction false} ScansQuoted(lib: Lib, t: string, s: State)
    requires !s.inQuote && s.buf == "" && !EndsInBackslash(t, false)
    ensures Scans(lib, false, Quoted(t), s, AddTermSequence(s.(buf := t)))
  {
    hide Scans, Escape, AddTermSequence;
    var open := s.(inQuote := true, buf := t);
    ScansOpenQuote(lib, t, s);
    EscapeEnds(InQuotes, t, false);
    EndsBoth("\"", Escape(InQuotes, t), false);
    ScansByte(lib, false, '"', open, AddTermSequence(s.(buf := t)));
    ScansBoth(lib, false, "\"" + Escape(InQuotes, t), "\"", s, open, AddTermSequence(s.(buf := t)));
  }

  // ---- Words and numbers ----

  lemma {:induction false} OperatorIs(word: string)
    ensures AsOperator(word) == if Spells(word, And) then Some(And) else if Spells(word, Or) then Some(Or) else None
  {
    if |word| == 3 {
      UpperIs(word[0], 'A');
      UpperIs(word[1], 'N');
      UpperIs(word[2], 'D');
    } else if |word| == 2 {
      UpperIs(word[0], 'O');
      UpperIs(word[1], 'R');
    }
    assert Spells(word, And) ==> |word| == 3;
  }

  lemma UpperIs(c: char, name: char)
    requires 'A' <= name <= 'Z'
    ensures Upper(c) == name <==> c == name || c as int == name as int + 32
  {
  }

  lemma WildIs(t: string)
    ensures HasWild(t) == Wild(t)
  {
  }

  lemma {:induction false} ComparisonIs(lib: Lib, t: string, cond: Cond, numeral: string)
    requires Compares(lib, t, cond, numeral)
    ensures Comparison(t) == if cond == Eq then None else Some((cond, numeral))
  {
    PrefixOne('<', t);
    PrefixOne('>', t);
    PrefixOne('=', numeral);
    PrefixTwo('>', t);
    PrefixTwo('<', t);
    match cond
    case Eq =>
    case Gt => assert t[1..] == numeral && t[0] == '>' && (|t| > 1 ==> t[1] == numeral[0]);
    case Ge => assert t[2..] == numeral && t[0] == '>' && t[1] == '=';
    case Lt => assert t[1..] == numeral && t[0] == '<' && (|t| > 1 ==> t[1] == numeral[0]);
    case Le => assert t[2..] == numeral && t[0] == '<' && t[1] == '=';
  }

  lemma PrefixOne(c: char, t: string)
    ensures [c] <= t <==> |t| > 0 && t[0] == c
  {
  }

  lemma PrefixTwo(c: char, t: string)
    ensures [c, '='] <= t <==> |t| > 1 && t[0] == c && t[1] == '='
  {
    assert |t| > 1 && t[0] == c && t[1] == '=' ==> t[..2] == [c, '='];
  }

  lemma {:induction false} ComparisonSplits(lib: Lib, t: string)
    ensures match Comparison(t)
            case None => AmountOf(lib, Eq, t).Some? ==> Compares(lib, t, Eq, t)
            case Some(c) => c.0 != Eq && (AmountOf(lib, c.0, c.1).Some? ==> Compares(lib, t, c.0, c.1))
  {
    assert "" + t == t;
  }

  // What is sent for a word or an amount.
  lemma {:induction false} WordSends(lib: Lib, t: string, s: State, v: Value)
    requires Fresh(s) && WritableValue(lib, s.field, v)
    requires v == Word(t) || (v.Amount? && t == Sign(v.cond) + v.numeral)
    ensures AddTermSingle(lib, s.(buf := t)) == Accept(s, ValueItem(lib, FieldOf(s.field), v))
  {
    OperatorIs(t);
    WildIs(t);
    ComparisonSplits(lib, t);
    if v.Amount? {
      ComparisonIs(lib, t, v.cond, v.numeral);
      assert "" + v.numeral == v.numeral;
    }
    hide Comparison, Compares, AsOperator, HasWild, Wild, Spells;
    WordCallIs(lib, t, s, v);
  }

  lemma {:induction false} WordCallIs(lib: Lib, t: string, s: State, v: Value)
    requires Fresh(s) && t != "" && AsOperator(t) == None && HasWild(t) == Wild(t)
    requires v == Word(t) || (v.Amount? && t == Sign(v.cond) + v.numeral)
    requires v.Word? && s.field != "" ==> forall cond, numeral :: !Compares(lib, t, cond, numeral)
    requires v.Amount? ==> s.field != "" && AmountOf(lib, v.cond, v.numeral).Some?
    requires v.Amount? ==> Comparison(t) == if v.cond == Eq then None else Some((v.cond, v.numeral))
    requires match Comparison(t)
             case None => AmountOf(lib, Eq, t).Some? ==> Compares(lib, t, Eq, t)
             case Some(c) => c.0 != Eq && (AmountOf(lib, c.0, c.1).Some? ==> Compares(lib, t, c.0, c.1))
    ensures AddTermSingle(lib, s.(buf := t)) == Accept(s, ValueItem(lib, FieldOf(s.field), v))
  {
    hide Comparison, Compares, AsOperator, HasWild, Wild;
    if v.Amount? && v.cond == Eq {
      assert t == v.numeral;
    }
  }

  // ---- Arrays ----

  function PartTexts(parts: seq<Part>): (r: seq<string>)
    ensures |r| == |parts|
  {
    seq(|parts|, i requires 0 <= i < |parts| => parts[i].text)
  }

  // The list of an array, up to its end.
  lemma {:induction false} ScansParts(lib: Lib, parts: seq<Part>, s: State) returns (u: State)
    requires forall i :: 0 <= i < |parts| ==> WritablePart(parts[i])
    requires !s.inQuote && s.inArray && s.parts == [] && s.buf == ""
    ensures Scans(lib, false, PrintParts(parts), s, u)
    ensures !u.inQuote && u.inArray && AddTermSingle(lib, u) == s.(parts := PartTexts(parts))
  {
    hide Scans, PrintPart, WritablePart;
    if parts == [] {
      ScansNone(lib, false, s);
      u := s;
    } else {
      var n := |parts| - 1;
      var front, last := parts[..n], parts[n];
      assert PartTexts(parts) == PartTexts(front) + [last.text];
      if n == 0 {
        u := ScansPart(lib, last, s);
      } else {
        var t := ScansParts(lib, front, s);
        var v := s.(parts := PartTexts(front));
        var esc := EndsInBackslash(PrintParts(front), false);
        assert Escaping(esc, t) by { ScansAt(lib, 0, false, PrintParts(front), "", s, t); }
        ScansByte(lib, esc, ' ', t, v);
        u := ScansPart(lib, last, v);
        ScansBoth(lib, esc, " ", PrintPart(last), t, v, u);
        ScansBoth(lib, false, PrintParts(front), " " + PrintPart(last), s, t, u);
      }
    }
  }

  lemma {:induction false} ScansPart(lib: Lib, p: Part, s: State) returns (u: State)
    requires WritablePart(p) && !s.inQuote && s.inArray && s.buf == ""
    ensures Scans(lib, false, PrintPart(p), s, u)
    ensures !u.inQuote && u.inArray && AddTermSingle(lib, u) == s.(parts := s.parts + [p.text])
  {
    hide Scans, Quoted, Escape;
    if p.quoted {
      ScansQuoted(lib, p.text, s);
      u := AddTermSequence(s.(buf := p.text));
    } else {
      ScansEscape(lib, InArray, p.text, false, s);
      assert s.buf + p.text == p.text;
      u := s.(buf := p.text);
    }
  }

  lemma {:induction false} NumbersOfMore(lib: Lib, parts: seq<Part>, p: Part)
    ensures var x := lib.parseFloat(p.text);
            && NumbersOf(lib, parts + [p]) == NumbersOf(lib, parts) + (if x.Some? then [x.value] else [])
            && TextsOf(lib, parts + [p]) == TextsOf(lib, parts) + (if x.Some? then [] else [p.text])
  {
    if parts == [] {
      assert parts + [p] == [p];
    } else {
      NumbersOfMore(lib, parts[1..], p);
      assert (parts + [p])[1..] == parts[1..] + [p];
    }
  }

  // Sorted into numbers and texts from either end.
  lemma {:induction false} SortedAlike(lib: Lib, parts: seq<Part>)
    ensures Numbers(lib, PartTexts(parts)) == NumbersOf(lib, parts)
    ensures Texts(lib, PartTexts(parts)) == TextsOf(lib, parts)
  {
    if parts != [] {
      var n := |parts| - 1;
      SortedAlike(lib, parts[..n]);
      NumbersOfMore(lib, parts[..n], parts[n]);
      assert parts[..n] + [parts[n]] == parts && PartTexts(parts)[..n] == PartTexts(parts[..n]);
    }
  }

  lemma {:induction false} SomePart(lib: Lib, parts: seq<Part>)
    ensures |NumbersOf(lib, parts)| + |TextsOf(lib, parts)| == |parts|
  {
    if parts != [] {
      SomePart(lib, parts[1..]);
    }
  }

  lemma {:induction false} ArraySends(lib: Lib, field: string, parts: seq<Part>)
    requires parts != []
    ensures ArrayCalls(field, Numbers(lib, PartTexts(parts)), Texts(lib, PartTexts(parts)))
         == ItemCalls(ArrayItem(lib, field, parts))
  {
    SortedAlike(lib, parts);
    SomePart(lib, parts);
    var numbers, texts := NumbersOf(lib, parts), TextsOf(lib, parts);
    hide NumbersOf, TextsOf, Numbers, Texts;
    var number := if |numbers| == 1 then Number(field, Eq, numbers[0]) else NumberIn(field, numbers);
    var both := Then(One(Atom(number)), Or, Atom(TextIn(field, texts)));
    assert Calls(One(Atom(number))) == [number];
    assert Calls(both) == [number, Operator(Or), TextIn(field, texts)];
    assert ItemCalls(Group(both)) == [GroupStart, number, Operator(Or), TextIn(field, texts), GroupEnd];
  }

  // The closing bracket.
  lemma {:induction false} ArrayCloses(lib: Lib, parts: seq<Part>, s: State)
    requires Fresh(s) && WritableValue(lib, s.field, Array(parts))
    ensures CloseArray(lib, s.(inArray := true, parts := PartTexts(parts)))
         == Ok(Accept(s, ValueItem(lib, FieldOf(s.field), Array(parts))).(field := s.field))
  {
    var texts := PartTexts(parts);
    assert IsRange(texts) <==> InRange(parts);
    if parts != [] {
      ArraySends(lib, FieldOf(s.field), parts);
      hide Numbers, Texts, ArrayCalls, NumbersOf, TextsOf, ArrayItem, ItemCalls;
      if InRange(parts) {
        RangeCloses(lib, parts, s);
      } else {
        ListCloses(lib, texts, ArrayItem(lib, FieldOf(s.field), parts), s);
      }
    }
  }

  lemma {:induction false} RangeCloses(lib: Lib, parts: seq<Part>, s: State)
    requires Fresh(s) && InRange(parts)
    requires lib.parseFloat(parts[0].text).Some? && lib.parseFloat(parts[2].text).Some?
    ensures var x, y := lib.parseFloat(parts[0].text).value, lib.parseFloat(parts[2].text).value;
            CloseArray(lib, s.(inArray := true, parts := PartTexts(parts)))
            == Ok(Accept(s, Some(Atom(Between(FieldOf(s.field), x, y)))).(field := s.field))
  {
    assert IsRange(PartTexts(parts)) && s.calls + [] == s.calls;
  }

  lemma {:induction false} ListCloses(lib: Lib, texts: seq<string>, item: Item, s: State)
    requires Fresh(s) && texts != [] && !IsRange(texts)
    requires ArrayCalls(FieldOf(s.field), Numbers(lib, texts), Texts(lib, texts)) == ItemCalls(item)
    ensures CloseArray(lib, s.(inArray := true, parts := texts)) == Ok(Accept(s, Some(item)).(field := s.field))
  {
    hide Numbers, Texts, ArrayCalls, ItemCalls;
    assert s.calls + [] == s.calls;
  }

  // ---- Values and pieces ----

  // Up to the closing bracket of an array.
  lemma {:induction false} ScansOpenArray(lib: Lib, parts: seq<Part>, s: State) returns (u: State)
    requires Fresh(s) && WritableValue(lib, s.field, Array(parts))
    ensures Scans(lib, false, "[" + PrintParts(parts), s, u) && !u.inQuote && u.inArray
    ensures AddTermSingle(lib, u) == s.(inArray := true, parts := PartTexts(parts))
  {
    hide Scans, PrintParts;
    var t := s.(inArray := true);
    ScansByte(lib, false, '[', s, t);
    u := ScansParts(lib, parts, t);
    ScansBoth(lib, false, "[", PrintParts(parts), s, t, u);
  }

  lemma {:induction false} PartsEnd(parts: seq<Part>)
    requires parts != [] && WritablePart(parts[|parts| - 1]) && !EndsInBackslash(parts[|parts| - 1].text, false)
    ensures !EndsInBackslash(PrintParts(parts), false)
  {
    var last := parts[|parts| - 1];
    EscapeEnds(InArray, last.text, false);
    assert !EndsInBackslash(PrintPart(last), false);
    if |parts| > 1 {
      EndsBoth(PrintParts(parts[..|parts| - 1]), " " + PrintPart(last), false);
      EndsBoth(" ", PrintPart(last), false);
    }
  }

  lemma {:induction false} ScansArray(lib: Lib, parts: seq<Part>, s: State)
    requires Fresh(s) && WritableValue(lib, s.field, Array(parts))
    ensures Scans(lib, false, PrintValue(Array(parts), true), s,
                  Accept(s, ValueItem(lib, FieldOf(s.field), Array(parts))).(field := s.field))
  {
    ArrayCloses(lib, parts, s);
    if parts != [] {
      PartsEnd(parts);
    }
    hide Scans, PrintParts, Accept, ValueItem, AddTermSingle, CloseArray;
    var list := PrintParts(parts);
    var v := Accept(s, ValueItem(lib, FieldOf(s.field), Array(parts))).(field := s.field);
    var u := ScansOpenArray(lib, parts, s);
    EndsBoth("[", list, false);
    ScansByte(lib, false, ']', u, v);
    ScansBoth(lib, false, "[" + list, "]", s, u, v);
  }

  lemma {:induction false} PhraseSends(t: string, s: State, lib: Lib)
    requires Fresh(s)
    ensures AddTermSequence(s.(buf := t)) == Accept(s, ValueItem(lib, FieldOf(s.field), Phrase(t)))
    ensures AddTermSequence(s.(inQuote := true, buf := t)) == AddTermSequence(s.(buf := t)).(inQuote := true)
  {
    WildIs(t);
    hide HasWild, Wild;
    assert s.calls + [] == s.calls;
  }

  // Behind a value: a blank or the end settles it, and closed values have already been sent.
  lemma {:induction false} ScansValue(lib: Lib, v: Value, s: State) returns (u: State)
    requires Fresh(s) && WritableValue(lib, s.field, v)
    ensures Scans(lib, false, PrintValue(v, true), s, u) && !u.inQuote && !u.inArray
    ensures AddTermSingle(lib, u) == Accept(s, ValueItem(lib, FieldOf(s.field), v))
    ensures v.Phrase? ==> u == Accept(s, ValueItem(lib, FieldOf(s.field), v))
    ensures v.Array? ==> u == Accept(s, ValueItem(lib, FieldOf(s.field), v)).(field := s.field)
  {
    match v
    case Phrase(t) =>
      PhraseSends(t, s, lib);
      hide Scans, ValueItem, Escape, AddTermSequence;
      ScansQuoted(lib, t, s);
      u := AddTermSequence(s.(buf := t));
    case Array(parts) =>
      hide Scans, ValueItem;
      ScansArray(lib, parts, s);
      u := Accept(s, ValueItem(lib, FieldOf(s.field), v)).(field := s.field);
    case Word(t) => u := ScansWord(lib, t, s, v);
    case Amount(cond, numeral) => u := ScansWord(lib, Sign(cond) + numeral, s, v);
  }

  lemma {:induction false} ScansWord(lib: Lib, t: string, s: State, v: Value) returns (u: State)
    requires Fresh(s) && WritableValue(lib, s.field, v)
    requires v == Word(t) || (v.Amount? && t == Sign(v.cond) + v.numeral)
    ensures Scans(lib, false, PrintValue(v, true), s, u) && !u.inQuote && !u.inArray
    ensures AddTermSingle(lib, u) == Accept(s, ValueItem(lib, FieldOf(s.field), v))
  {
    u := s.(buf := t);
    WordSends(lib, t, s, v);
    hide Scans, ValueItem, Accept, AddTermSingle, Escape, Compares;
    ScansEscape(lib, Outside, t, false, s);
    assert s.buf + t == t;
  }

  lemma {:induction false} ScansName(lib: Lib, name: Option<string>, s: State)
    requires Fresh(s) && WritableName(s.field, name)
    ensures Scans(lib, false, PrintName(name), s, s.(field := NameOf(lib, s.field, name)))
  {
    hide Scans, Escape;
    match name
    case None => ScansNone(lib, false, s);
    case Some(t) =>
      var u, text := s.(buf := t), Escape(Outside, t);
      ScansEscape(lib, Outside, t, false, s);
      assert s.buf + t == t;
      EscapeEnds(Outside, t, false);
      ScansByte(lib, false, ':', u, s.(field := lib.trim(t)));
      ScansBoth(lib, false, text, ":", s, u, s.(field := lib.trim(t)));
  }

  lemma {:induction false} ScansLink(lib: Lib, name: Option<string>, word: string, s: State) returns (u: State)
    requires Fresh(s) && IsLink(word) && WritableName(s.field, name)
    ensures Scans(lib, false, PrintName(name) + word, s, u) && !u.inQuote && !u.inArray
    ensures AddTermSingle(lib, u)
         == s.(operator := Some(if Spells(word, Or) then Or else And), field := NameOf(lib, s.field, name))
  {
    hide Scans, Escape;
    var w := s.(field := NameOf(lib, s.field, name));
    LinkIsPlain(word);
    OperatorIs(word);
    ScansName(lib, name, s);
    assert !EndsInBackslash(PrintName(name), false) by { OverName(name, 1); }
    ScansEscape(lib, Outside, word, false, w);
    assert w.buf + word == word;
    u := w.(buf := word);
    ScansBoth(lib, false, PrintName(name), word, s, w, u);
  }

  lemma {:induction false} GroupSends(calls: seq<Call>, body: Expr)
    ensures calls + [GroupStart] + Calls(body) + [GroupEnd] == calls + ItemCalls(Group(body))
  {
  }

  // A group that has been taken out and parsed.
  lemma {:induction false} ScanGroup(lib: Lib, at: nat, inner: string, text: string, rest: string, body: Expr, s: State)
    requires Fresh(s) && Split(inner, 1, false, false) == (text, rest)
    requires Parse(lib, text, AddOperator(s).calls + [GroupStart])
          == Ok(AddOperator(s).calls + [GroupStart] + Calls(body))
    ensures var cs := "(" + inner;
            && |rest| < |cs|
            && Scan(lib, at, false, cs, s)
            == Scan(lib, at + |cs| - |rest|, false, rest, Accept(s, Some(Group(body))).(field := s.field))
  {
    var cs := "(" + inner;
    assert cs[1..] == inner;
    ScanOpens(lib, at, false, cs, s);
    GroupSends(AddOperator(s).calls, body);
    assert s.calls + [] == s.calls;
    hide Scan, Split, Parse, Calls, ItemCalls;
  }

  lemma {:induction false} ScansGroup(lib: Lib, body: Query, s: State)
    requires Fresh(s) && Writable(lib, body)
    requires Parse(lib, Print(body, true), AddOperator(s).calls + [GroupStart])
          == Ok(AddOperator(s).calls + [GroupStart] + Calls(Meaning(lib, body)))
    ensures Scans(lib, false, PrintPiece(Paren(body), true), s,
                  Accept(s, Some(Group(Meaning(lib, body)))).(field := s.field))
  {
    var text := Print(body, true);
    assert PrintPiece(Paren(body), true) == "(" + text + ")";
    hide *;
    forall rest
      ensures Split(text + ")" + rest, 1, false, false) == (text, rest)
    {
      SplitPrinted(lib, body, rest);
    }
    ScansParen(lib, text, Meaning(lib, body), s);
  }

  lemma {:induction false} ScansParen(lib: Lib, text: string, e: Expr, s: State)
    requires Fresh(s) && forall rest :: Split(text + ")" + rest, 1, false, false) == (text, rest)
    requires Parse(lib, text, AddOperator(s).calls + [GroupStart]) == Ok(AddOperator(s).calls + [GroupStart] + Calls(e))
    ensures Scans(lib, false, "(" + text + ")", s, Accept(s, Some(Group(e))).(field := s.field))
  {
    var t, u := "(" + text + ")", Accept(s, Some(Group(e))).(field := s.field);
    assert t[|t| - 1] == ')';
    ScansIf(lib, t, s, u);
    hide *;
    forall at: nat, rest
      ensures Scan(lib, at, false, t + rest, s) == Scan(lib, at + |t|, false, rest, u)
    {
      ScanParen(lib, at, text, rest, e, s);
    }
  }

  lemma ScansIf(lib: Lib, t: string, s: State, u: State)
    ensures (!EndsInBackslash(t, false)
             && forall at: nat, rest :: Scan(lib, at, false, t + rest, s) == Scan(lib, at + |t|, false, rest, u))
            ==> Scans(lib, false, t, s, u)
  {
  }

  lemma {:induction false} ScanParen(lib: Lib, at: nat, text: string, rest: string, e: Expr, s: State)
    requires Fresh(s) && Split(text + ")" + rest, 1, false, false) == (text, rest)
    requires Parse(lib, text, AddOperator(s).calls + [GroupStart]) == Ok(AddOperator(s).calls + [GroupStart] + Calls(e))
    ensures var t := "(" + text + ")";
            Scan(lib, at, false, t + rest, s)
            == Scan(lib, at + |t|, false, rest, Accept(s, Some(Group(e))).(field := s.field))
  {
    hide *;
    ScanGroup(lib, at, text + ")" + rest, text, rest, e, s);
    Parenthesized(text, rest);
  }

  lemma Parenthesized(text: string, rest: string)
    ensures "(" + text + ")" + rest == "(" + (text + ")" + rest)
    ensures |"(" + (text + ")" + rest)| - |rest| == |"(" + text + ")"|
  {
    assert "(" + text + ")" + rest == "(" + (text + ")" + rest);
  }

  // The state of the parser behind a query and a blank.
  function Behind(lib: Lib, q: Query, before: seq<Call>): State {
    State(false, false, Pending(lib, q), [], Meaning(lib, q) != Nothing, "", InForce(lib, q, false),
          before + Calls(Meaning(lib, q)))
  }

  // Where its last piece begins.
  function Here(lib: Lib, q: Query, before: seq<Call>): State
    requires q != Empty
  {
    Behind(lib, q.before, before).(field := InForce(lib, q.before, q.glued))
  }

  lemma {:induction false} ItemBehind(lib: Lib, q: Query, before: seq<Call>)
    requires q != Empty && !q.piece.Link?
    ensures Accept(Here(lib, q, before), LastItem(lib, q)) == Behind(lib, q, before)
  {
    hide Carried;
    assert InForce(lib, q, false) == "";
    var e := Meaning(lib, q.before);
    match LastItem(lib, q)
    case None =>
    case Some(item) =>
      var op := Operator(if Pending(lib, q.before) == None then And else Pending(lib, q.before).value);
      hide Meaning, Pending, LastItem;
      Assoc(before, Calls(e), if e == Nothing then [] else [op], ItemCalls(item));
  }

  lemma {:induction false} MeaningIsWellFormed(lib: Lib, q: Query)
    ensures WellFormed(Meaning(lib, q))
    decreases q, 1
  {
    if q != Empty {
      MeaningIsWellFormed(lib, q.before);
      ItemIsWellFormed(lib, InForce(lib, q.before, q.glued), q.piece);
    }
  }

  lemma {:induction false} ItemIsWellFormed(lib: Lib, carried: string, p: Piece)
    ensures PieceItem(lib, carried, p).Some? ==> WellFormedItem(PieceItem(lib, carried, p).value)
    decreases p, 0
  {
    match p
    case Paren(body) => MeaningIsWellFormed(lib, body);
    case Clause(name, Array(parts)) => ArrayIsWellFormed(lib, FieldOf(NameOf(lib, carried, name)), parts);
    case _ =>
  }

  lemma {:induction false} ArrayIsWellFormed(lib: Lib, field: string, parts: seq<Part>)
    ensures WellFormedItem(ArrayItem(lib, field, parts))
  {
    var numbers, texts := NumbersOf(lib, parts), TextsOf(lib, parts);
    hide NumbersOf, TextsOf;
    var number := Atom(if |numbers| == 1 then Number(field, Eq, numbers[0]) else NumberIn(field, numbers));
    assert WellFormedItem(number) && WellFormedItem(Atom(TextIn(field, texts)));
    assert WellFormed(One(number));
    assert WellFormed(Then(One(number), Or, Atom(TextIn(field, texts))));
  }

  // ---- Queries ----

  lemma {:induction false} ScansHead(lib: Lib, q: Query, before: seq<Call>)
    requires Writable(lib, q) && q != Empty
    ensures Scans(lib, false, Head(q), Start(before), Here(lib, q, before))
    decreases q, 0
  {
    hide Scans, Scan, Pending, Meaning, Print, Calls, AddTermSingle, WritablePiece;
    var b := q.before;
    if b == Empty {
      EmptyBehind(lib, before);
      ScansNone(lib, false, Start(before));
      assert Head(q) == "" by { EmptyPrints(); }
    } else {
      var u := ScansQuery(lib, b, before);
      var text := Print(b, true);
      if q.glued {
        assert Head(q) == text;
      } else {
        var esc := EndsInBackslash(text, false);
        assert Here(lib, q, before) == Behind(lib, b, before);
        ScansAt(lib, 0, false, text, "", Start(before), u);
        ScansByte(lib, esc, ' ', u, Behind(lib, b, before));
        ScansBoth(lib, false, text, " ", Start(before), u, Behind(lib, b, before));
      }
    }
  }

  lemma EmptyPrints()
    ensures Print(Empty, true) + "" == ""
  {
  }

  lemma EmptyBehind(lib: Lib, before: seq<Call>)
    ensures Behind(lib, Empty, before) == Start(before)
  {
    assert before + [] == before;
  }

  // The scanner behind a query.  Behind a closing mark only the field of an array may be left.
  lemma {:induction false} ScansQuery(lib: Lib, q: Query, before: seq<Call>) returns (u: State)
    requires Writable(lib, q)
    ensures Scans(lib, false, Print(q, true), Start(before), u) && !u.inQuote && !u.inArray
    ensures AddTermSingle(lib, u) == Behind(lib, q, before)
    ensures q != Empty && IsClosed(q.piece) ==> u == Behind(lib, q, before).(field := Carried(lib, q))
    decreases q, 1
  {
    if q == Empty {
      EmptyBehind(lib, before);
      ScansNone(lib, false, Start(before));
      u := Start(before);
    } else {
      hide Scans, Scan, Pending, Meaning, PrintPiece, Calls, AddTermSingle, WritablePiece, Behind, Carried;
      var s := Here(lib, q, before);
      ScansHead(lib, q, before);
      HeadEnds(lib, q);
      u := ScansLast(lib, q, before);
      ScansBoth(lib, false, Head(q), PrintPiece(q.piece, true), Start(before), s, u);
    }
  }

  // Its last piece.
  lemma {:induction false} ScansLast(lib: Lib, q: Query, before: seq<Call>) returns (u: State)
    requires Writable(lib, q) && q != Empty
    ensures Scans(lib, false, PrintPiece(q.piece, true), Here(lib, q, before), u) && !u.inQuote && !u.inArray
    ensures AddTermSingle(lib, u) == Behind(lib, q, before)
    ensures IsClosed(q.piece) ==> u == Behind(lib, q, before).(field := Carried(lib, q))
    decreases q, 0
  {
    hide Scans, Scan, Calls, AddTermSingle, WritableValue, Accept;
    var s := Here(lib, q, before);
    if q.piece.Link? {
      LinkBehind(lib, q, before);
    } else {
      ItemBehind(lib, q, before);
    }
    hide Behind, Here, Meaning, Pending;
    FreshHere(lib, q, before);
    match q.piece
    case Gap =>
      u := s;
      ScansNone(lib, false, s);
      GapSettles(lib, s);
    case Link(name, word) => u := ScansLink(lib, name, word, s);
    case Paren(body) =>
      ParseText(lib, body, true, AddOperator(s).calls + [GroupStart]);
      ScansGroup(lib, body, s);
      u := Behind(lib, q, before).(field := s.field);
      GapSettles(lib, u);
    case Clause(name, value) => u := ScansClause(lib, name, value, s);
  }

  lemma LinkBehind(lib: Lib, q: Query, before: seq<Call>)
    requires q != Empty && q.piece.Link?
    ensures var s := Here(lib, q, before);
            Behind(lib, q, before) == s.(operator := Some(if Spells(q.piece.word, Or) then Or else And),
                                         field := NameOf(lib, s.field, q.piece.name))
  {
    assert LastItem(lib, q) == None;
    assert Meaning(lib, q) == Meaning(lib, q.before);
    assert InForce(lib, q, false) == Carried(lib, q) == NameOf(lib, InForce(lib, q.before, q.glued), q.piece.name);
  }

  lemma FreshHere(lib: Lib, q: Query, before: seq<Call>)
    requires q != Empty
    ensures Fresh(Here(lib, q, before)) && Fresh(Behind(lib, q, before))
    ensures Here(lib, q, before).field == InForce(lib, q.before, q.glued)
  {
  }

  // A blank where there is no word.
  lemma GapSettles(lib: Lib, s: State)
    requires Fresh(s)
    ensures AddTermSingle(lib, s) == s.(field := "") && Accept(s, None) == s.(field := "")
  {
    assert AddTermSingle(lib, s) == s.(buf := "", field := "");
  }

  lemma {:induction false} ScansClause(lib: Lib, name: Option<string>, value: Value, s: State) returns (u: State)
    requires Fresh(s) && WritablePiece(lib, s.field, Clause(name, value))
    ensures Scans(lib, false, PrintPiece(Clause(name, value), true), s, u) && !u.inQuote && !u.inArray
    ensures var field := NameOf(lib, s.field, name);
            var t := Accept(s, ValueItem(lib, FieldOf(field), value));
            && AddTermSingle(lib, u) == t
            && (value.Phrase? ==> u == t)
            && (value.Array? ==> u == t.(field := field))
  {
    hide Scans, Scan, AddTermSingle, ValueItem, PrintValue;
    var w := s.(field := NameOf(lib, s.field, name));
    ScansName(lib, name, s);
    assert !EndsInBackslash(PrintName(name), false) by { OverName(name, 1); }
    u := ScansValue(lib, value, w);
    ScansBoth(lib, false, PrintName(name), PrintValue(value, true), s, w, u);
  }

  // ---- Main theorem ----

  // From a query's text the parser makes the calls of its expression, also when what is open at the end is not closed.
  lemma {:induction false} ParseText(lib: Lib, q: Query, closed: bool, before: seq<Call>)
    requires Writable(lib, q)
    ensures Parse(lib, Print(q, closed), before) == Ok(before + Calls(Meaning(lib, q)))
    decreases q, 2
  {
    if closed || q == Empty || !IsClosed(q.piece) {
      var u := ScansQuery(lib, q, before);
      assert Print(q, closed) == Print(q, true);
      ParseEnds(lib, Print(q, true), before, u);
    } else {
      ParseOpen(lib, q, before);
    }
  }

  lemma {:induction false} ParseEnds(lib: Lib, t: string, before: seq<Call>, u: State)
    requires Scans(lib, false, t, Start(before), u)
    ensures Parse(lib, t, before) == Finish(lib, u)
  {
    ScansAt(lib, 0, false, t, "", Start(before), u);
    ScanStops(lib, |t|, EndsInBackslash(t, false), u);
    assert t + "" == t;
    hide Scan, Scans, Finish;
  }

  lemma {:induction false} ParseOpen(lib: Lib, q: Query, before: seq<Call>)
    requires Writable(lib, q) && q != Empty && IsClosed(q.piece)
    ensures Parse(lib, Print(q, false), before) == Ok(before + Calls(Meaning(lib, q)))
    decreases q, 1
  {
    hide Scans, Scan, Calls, WritableValue, Accept, Parse, Print, PrintValue;
    var s := Here(lib, q, before);
    ScansHead(lib, q, before);
    HeadEnds(lib, q);
    ItemBehind(lib, q, before);
    assert Print(q, false) == Head(q) + PrintPiece(q.piece, false) by { PrintLast(q, false); }
    match q.piece
    case Paren(body) =>
      ParseText(lib, body, false, AddOperator(s).calls + [GroupStart]);
      OpenGroup(lib, Head(q), body, before, s);
    case Clause(name, value) =>
      var u := ScansOpen(lib, name, value, s);
      ScansBoth(lib, false, Head(q), PrintPiece(q.piece, false), Start(before), s, u);
      ParseEnds(lib, Print(q, false), before, u);
  }

  lemma PrintLast(q: Query, closed: bool)
    requires q != Empty
    ensures Print(q, closed) == Head(q) + PrintPiece(q.piece, closed)
  {
  }

  // A parenthesis that is not closed.
  lemma {:induction false} OpenGroup(lib: Lib, head: string, body: Query, before: seq<Call>, s: State)
    requires Fresh(s) && Writable(lib, body) && Scans(lib, false, head, Start(before), s)
    requires !EndsInBackslash(head, false)
    requires Parse(lib, Print(body, false), AddOperator(s).calls + [GroupStart])
          == Ok(AddOperator(s).calls + [GroupStart] + Calls(Meaning(lib, body)))
    ensures Parse(lib, head + PrintPiece(Paren(body), false), before)
         == Ok(Accept(s, Some(Group(Meaning(lib, body)))).calls)
  {
    var text, e := Print(body, false), Meaning(lib, body);
    var t := "(" + text;
    var u := Accept(s, Some(Group(e))).(field := s.field);
    assert PrintPiece(Paren(body), false) == t + "" == t;
    SplitOpen(lib, body);
    GapSettles(lib, u);
    assert Finish(lib, u) == Ok(u.calls);
    hide Scans, Scan, Split, Parse, Print, Writable, Meaning, Calls, ItemCalls, Accept, Fresh, Finish;
    ScanGroup(lib, |head|, text, text, "", e, s);
    ScansAt(lib, 0, false, head, t, Start(before), s);
    ScanStops(lib, |head| + |t|, false, u);
    ParseIs(lib, head + t, before);
  }

  lemma ParseIs(lib: Lib, qs: string, calls: seq<Call>)
    ensures Parse(lib, qs, calls) ==
            match Scan(lib, 0, false, qs, Start(calls))
            case Err(error) => Err(error)
            case Ok(s) => Finish(lib, s)
  {
  }

  // A quotation or an array that is not closed: the end of the text closes it.
  lemma {:induction false} ScansOpen(lib: Lib, name: Option<string>, value: Value, s: State) returns (u: State)
    requires Fresh(s) && WritablePiece(lib, s.field, Clause(name, value)) && (value.Phrase? || value.Array?)
    ensures Scans(lib, false, PrintPiece(Clause(name, value), false), s, u)
    ensures Finish(lib, u) == Ok(Accept(s, ValueItem(lib, FieldOf(NameOf(lib, s.field, name)), value)).calls)
  {
    hide Scans, Scan, ValueItem, AddTermSingle, AddTermSequence, Escape, PrintParts;
    var w := s.(field := NameOf(lib, s.field, name));
    ScansName(lib, name, s);
    assert !EndsInBackslash(PrintName(name), false) by { OverName(name, 1); }
    match value {
    case Phrase(t) =>
      u := w.(inQuote := true, buf := t);
      ScansOpenQuote(lib, t, w);
      PhraseSends(t, w, lib);
      assert PrintValue(value, false) == "\"" + Escape(InQuotes, t);
    case Array(parts) =>
      u := ScansOpenArray(lib, parts, w);
      ArrayCloses(lib, parts, w);
      assert PrintValue(value, false) == "[" + PrintParts(parts);
    }
    ScansBoth(lib, false, PrintName(name), PrintValue(value, false), s, w, u);
  }
}
