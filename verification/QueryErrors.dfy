// The texts the parser rejects: which error, and where.  Each may follow any query.
module QueryErrors {
  import opened ExprCalls
  import opened ExprSpec
  import opened Options
  import opened QueryText
  import opened QueryParse

  // A query and the blank before the next piece.
  function Lead(q: Query): string {
    Head(More(q, false, Gap))
  }

  lemma {:induction false} ScansLead(lib: Lib, q: Query, before: seq<Call>) returns (s: State)
    requires Writable(lib, q)
    ensures Scans(lib, false, Lead(q), Start(before), s) && Fresh(s) && s.field == InForce(lib, q, false)
    ensures !EndsInBackslash(Lead(q), false)
  {
    var more := More(q, false, Gap);
    assert Writable(lib, more);
    hide Scans, Scan, Print, Writable, Meaning, Pending, Head;
    ScansHead(lib, more, before);
    HeadEnds(lib, more);
    s := Here(lib, more, before);
  }

  lemma {:induction false} ParseFails(lib: Lib, t: string, rest: string, before: seq<Call>, s: State, error: ParseError)
    requires Scans(lib, false, t, Start(before), s)
    requires Escaping(EndsInBackslash(t, false), s)
    requires Scan(lib, |t|, EndsInBackslash(t, false), rest, s) == Err(error)
    ensures Parse(lib, t + rest, before) == Err(error)
  {
    ScansAt(lib, 0, false, t, rest, Start(before), s);
    ParseIs(lib, t + rest, before);
    hide Scan, Scans, Finish, Parse;
  }

  // The next byte is an error.
  lemma {:induction false} ByteFails(lib: Lib, t: string, b: char, rest: string, before: seq<Call>, s: State,
                                     error: ParseError)
    requires Scans(lib, false, t, Start(before), s) && !EndsInBackslash(t, false)
    requires !OpensGroup(b, s) && Feed(lib, |t|, false, b, s) == Err(error)
    ensures Parse(lib, t + ([b] + rest), before) == Err(error)
  {
    var cs := [b] + rest;
    assert cs[0] == b && cs[1..] == rest;
    ScanFeeds(lib, |t|, false, cs, s);
    ParseFails(lib, t, cs, before, s, error);
  }

  // A colon where there is a field already: that of the clause itself, or one that an AND or OR has kept.
  lemma {:induction false} SecondColon(lib: Lib, q: Query, name: Option<string>, t: string, rest: string,
                                       before: seq<Call>)
    requires Writable(lib, q) && WritableName(InForce(lib, q, false), name) && Fits(Outside, t)
    requires NameOf(lib, InForce(lib, q, false), name) != "" && !EndsInBackslash(t, false)
    ensures var front := Lead(q) + PrintName(name) + Escape(Outside, t);
            Parse(lib, front + (":" + rest), before) == Err(UnexpectedColon(|front|))
  {
    hide Scans, Scan, Lead, Escape, Writable, Parse, Fits;
    var s := ScansLead(lib, q, before);
    var u := s.(field := NameOf(lib, s.field, name));
    ScansName(lib, name, s);
    assert !EndsInBackslash(PrintName(name), false) by { OverName(name, 1); }
    hide PrintName, NameOf;
    var named, text := Lead(q) + PrintName(name), Escape(Outside, t);
    EndsBoth(Lead(q), PrintName(name), false);
    ScansBoth(lib, false, Lead(q), PrintName(name), Start(before), s, u);
    ScansEscape(lib, Outside, t, false, u);
    EscapeEnds(Outside, t, false);
    EndsBoth(named, text, false);
    var v := u.(buf := u.buf + t);
    ScansBoth(lib, false, named, text, Start(before), u, v);
    ByteFails(lib, named + text, ':', rest, before, v, UnexpectedColon(|named + text|));
  }

  // The list of an array behind a query.
  lemma {:induction false} ScansList(lib: Lib, q: Query, name: Option<string>, parts: seq<Part>, before: seq<Call>)
      returns (s: State)
    requires Writable(lib, q) && forall i :: 0 <= i < |parts| ==> WritablePart(parts[i])
    requires WritableName(InForce(lib, q, false), name)
    requires parts != [] ==> !EndsInBackslash(parts[|parts| - 1].text, false)
    ensures var front := Lead(q) + PrintName(name) + ("[" + PrintParts(parts));
            Scans(lib, false, front, Start(before), s) && !EndsInBackslash(front, false)
    ensures !s.inQuote && s.inArray && AddTermSingle(lib, s).inArray && AddTermSingle(lib, s).parts == PartTexts(parts)
  {
    if parts != [] {
      PartsEnd(parts);
    }
    EndsBoth("[", PrintParts(parts), false);
    hide Scans, Scan, Lead, Escape, Writable, PrintParts, WritablePart, Fits;
    var list := PrintParts(parts);
    var r := ScansLead(lib, q, before);
    var u := r.(field := NameOf(lib, r.field, name));
    var v := u.(inArray := true);
    ScansName(lib, name, r);
    assert !EndsInBackslash(PrintName(name), false) by { OverName(name, 1); }
    hide PrintName, NameOf;
    EndsBoth(Lead(q), PrintName(name), false);
    ScansBoth(lib, false, Lead(q), PrintName(name), Start(before), r, u);
    ScansByte(lib, false, '[', u, v);
    s := ScansParts(lib, parts, v);
    ScansBoth(lib, false, "[", list, u, v, s);
    EndsBoth(Lead(q) + PrintName(name), "[" + list, false);
    ScansBoth(lib, false, Lead(q) + PrintName(name), "[" + list, Start(before), u, s);
  }

  // A bracket in an array.
  lemma {:induction false} SecondBracket(lib: Lib, q: Query, name: Option<string>, parts: seq<Part>, rest: string,
                                         before: seq<Call>)
    requires Writable(lib, q) && forall i :: 0 <= i < |parts| ==> WritablePart(parts[i])
    requires WritableName(InForce(lib, q, false), name)
    requires parts != [] ==> !EndsInBackslash(parts[|parts| - 1].text, false)
    ensures var front := Lead(q) + PrintName(name) + ("[" + PrintParts(parts));
            Parse(lib, front + ("[" + rest), before) == Err(UnexpectedBracket(|front|))
  {
    hide Scans, Scan, Lead, Escape, Writable, PrintParts, PrintName, Parse, WritablePart, Fits, AddTermSingle;
    var s := ScansList(lib, q, name, parts, before);
    var front := Lead(q) + PrintName(name) + ("[" + PrintParts(parts));
    ByteFails(lib, front, '[', rest, before, s, UnexpectedBracket(|front|));
  }

  // A range between two parts that are not both numbers.
  lemma {:induction false} BadRange(lib: Lib, q: Query, name: Option<string>, parts: seq<Part>, rest: string,
                                    before: seq<Call>)
    requires Writable(lib, q) && forall i :: 0 <= i < |parts| ==> WritablePart(parts[i])
    requires WritableName(InForce(lib, q, false), name)
    requires QueryText.InRange(parts) && !EndsInBackslash(parts[2].text, false)
    requires lib.parseFloat(parts[0].text).None? || lib.parseFloat(parts[2].text).None?
    ensures var front := Lead(q) + PrintName(name) + ("[" + PrintParts(parts));
            Parse(lib, front + ("]" + rest), before) == Err(InvalidClause([parts[0].text, "TO", parts[2].text]))
  {
    hide Scans, Scan, Lead, Escape, Writable, PrintParts, PrintName, Parse, WritablePart, Fits, AddTermSingle;
    var s := ScansList(lib, q, name, parts, before);
    var front := Lead(q) + PrintName(name) + ("[" + PrintParts(parts));
    var texts := [parts[0].text, "TO", parts[2].text];
    assert PartTexts(parts) == texts;
    ByteFails(lib, front, ']', rest, before, s, InvalidClause(texts));
  }

  // An error in a group is wrapped with the group's text.
  lemma {:induction false} BadGroup(lib: Lib, q: Query, inner: string, rest: string, before: seq<Call>,
                                    cause: ParseError)
    requires Writable(lib, q)
    requires Split(inner + ")" + rest, 1, false, false) == (inner, rest)
    requires forall calls :: Parse(lib, inner, calls) == Err(cause)
    ensures Parse(lib, Lead(q) + ("(" + (inner + ")" + rest)), before) == Err(InvalidGroup(inner, cause))
  {
    hide Scans, Scan, Lead, Writable, Parse, Split;
    var s := ScansLead(lib, q, before);
    var cs := "(" + (inner + ")" + rest);
    assert cs[0] == '(' && cs[1..] == inner + ")" + rest;
    ScanOpens(lib, |Lead(q)|, false, cs, s);
    ParseFails(lib, Lead(q), cs, before, s, InvalidGroup(inner, cause));
  }

  // ---- A parenthesis cannot be escaped ----

  // A backslash before a parenthesis is a word of its own, sent behind the group that opens all the same.
  lemma {:induction false} EscapedParenOpens(lib: Lib, q: Query, before: seq<Call>)
    requires Writable(lib, q)
    ensures Parse(lib, "\\(" + (Print(q, true) + ")"), before)
         == Ok(before + ItemCalls(Group(Meaning(lib, q))) + [Operator(And), Text("msg", "\\", false, false)])
  {
    hide *;
    var text, e := Print(q, true), Meaning(lib, q);
    SplitPrinted(lib, q, "");
    assert text + ")" + "" == text + ")";
    ParseText(lib, q, true, before + [GroupStart]);
    GroupSends(before, e);
    ScansSlash(lib, text + ")", text, e, before);
    SlashSends(lib, before, before + ItemCalls(Group(e)));
  }

  lemma {:induction false} ScansSlash(lib: Lib, inner: string, text: string, e: Expr, before: seq<Call>)
    requires Split(inner, 1, false, false) == (text, "")
    requires Parse(lib, text, before + [GroupStart]) == Ok(before + [GroupStart] + Calls(e))
    requires before + [GroupStart] + Calls(e) + [GroupEnd] == before + ItemCalls(Group(e))
    ensures Parse(lib, "\\(" + inner, before)
         == Finish(lib, Start(before).(calls := before + ItemCalls(Group(e)), buf := "\\", dirty := true))
  {
    var s, cs := Start(before).(buf := "\\"), "(" + inner;
    assert "" + ['\\'] == "\\" == ['\\'];
    ScansByte(lib, false, '\\', Start(before), s);
    ScansAt(lib, 0, false, "\\", cs, Start(before), s);
    assert cs[1..] == inner && "\\(" + inner == "\\" + cs;
    hide Scans, Scan, Split, Parse, Calls, ItemCalls, Finish;
    ScanOpens(lib, 1, true, cs, s);
    ScanStops(lib, 1 + |cs|, false, s.(calls := before + ItemCalls(Group(e)), dirty := true));
    ParseIs(lib, "\\" + cs, before);
  }

  lemma SlashSends(lib: Lib, before: seq<Call>, calls: seq<Call>)
    ensures Finish(lib, Start(before).(calls := calls, buf := "\\", dirty := true))
         == Ok(calls + [Operator(And), Text("msg", "\\", false, false)])
  {
    assert calls + [Operator(And)] + [Text("msg", "\\", false, false)]
        == calls + [Operator(And), Text("msg", "\\", false, false)];
  }
}
