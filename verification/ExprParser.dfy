// The search-expression parser as it runs: an index loop over the bytes, mutable buffers and flags, and
// calls into a builder (expr.go, expr_parse_state.go).
module ExprParser {
  import opened ExprCalls
  import opened Options
  import S = ExprSpec

  // The builder's side of the interface: it records the calls it receives.
  class Recorder {
    var calls: seq<Call>

    constructor ()
      ensures calls == []
    {
      calls := [];
    }

    method Receive(c: Call)
      modifies this
      ensures calls == old(calls) + [c]
    {
      calls := calls + [c];
    }
  }

  class ParseState {
    const lib: S.Lib
    const builder: Recorder
    var inQuote: bool
    var inArray: bool
    var operator: Option<Op>
    var arrayParts: seq<string>
    var dirty: bool
    var buf: string
    var field: string

    ghost function View(): S.State
      reads this, builder
    {
      S.State(inQuote, inArray, operator, arrayParts, dirty, buf, field, builder.calls)
    }

    constructor (lib: S.Lib, builder: Recorder)
      ensures this.lib == lib && this.builder == builder
      ensures View() == S.Start(builder.calls)
    {
      this.lib, this.builder := lib, builder;
      inQuote, inArray, operator, arrayParts, dirty, buf, field := false, false, None, [], false, "", "";
    }

    method AddOperator()
      modifies this, builder
      ensures View() == S.AddOperator(old(View()))
    {
      if dirty {
        if operator.None? {
          builder.Receive(Operator(And));
        } else {
          builder.Receive(Operator(operator.value));
        }
      }
      operator := None;
    }

    method CloseArray() returns (err: Option<S.ParseError>)
      modifies this, builder
      ensures match S.CloseArray(lib, old(View()))
              case Ok(t) => err == None && View() == t
              case Err(error) => err == Some(error)
    {
      if !inArray {
        return None;
      }
      inArray := false;

      if |arrayParts| == 0 {
        return None;
      }

      AddOperator();

      var fieldName := "msg";
      if |field| > 0 {
        fieldName := field;
      }

      if |arrayParts| == 3 && arrayParts[1] == "TO" {
        var x := lib.parseFloat(arrayParts[0]);
        if x.None? {
          return Some(S.InvalidClause(arrayParts));
        }
        var y := lib.parseFloat(arrayParts[2]);
        if y.None? {
          return Some(S.InvalidClause(arrayParts));
        }
        builder.Receive(Between(fieldName, x.value, y.value));
      } else {
        SendArray(fieldName);
      }

      dirty := true;
      arrayParts := [];
      return None;
    }

    // Numbers and texts apart.
    method SplitParts() returns (textArgs: seq<string>, numberArgs: seq<real>)
      ensures textArgs == S.Texts(lib, arrayParts) && numberArgs == S.Numbers(lib, arrayParts)
    {
      textArgs, numberArgs := [], [];
      for k := 0 to |arrayParts|
        invariant textArgs == S.Texts(lib, arrayParts[..k]) && numberArgs == S.Numbers(lib, arrayParts[..k])
      {
        assert arrayParts[..k + 1][..k] == arrayParts[..k];
        var n := lib.parseFloat(arrayParts[k]);
        if n.Some? {
          numberArgs := numberArgs + [n.value];
        } else {
          textArgs := textArgs + [arrayParts[k]];
        }
      }
      assert arrayParts[..|arrayParts|] == arrayParts;
    }

    // The parts of an array that is not a range.
    method SendArray(fieldName: string)
      modifies builder
      ensures builder.calls
           == old(builder.calls) + S.ArrayCalls(fieldName, S.Numbers(lib, arrayParts), S.Texts(lib, arrayParts))
    {
      hide S.NumberCalls;
      var textArgs, numberArgs := SplitParts();
      if |numberArgs| > 0 && |textArgs| > 0 {
        builder.Receive(GroupStart);
      }
      SendNumbers(fieldName, numberArgs);
      if |numberArgs| > 0 && |textArgs| > 0 {
        builder.Receive(Operator(Or));
      }
      if |textArgs| > 0 {
        builder.Receive(TextIn(fieldName, textArgs));
      }
      if |numberArgs| > 0 && |textArgs| > 0 {
        builder.Receive(GroupEnd);
      }
    }

    method SendNumbers(fieldName: string, numberArgs: seq<real>)
      modifies builder
      ensures builder.calls == old(builder.calls) + S.NumberCalls(fieldName, numberArgs)
    {
      if |numberArgs| > 0 {
        if |numberArgs| == 1 {
          builder.Receive(Number(fieldName, Eq, numberArgs[0]));
        } else {
          builder.Receive(NumberIn(fieldName, numberArgs));
        }
      }
    }

    // addTermSingle
    method AddTermSingle()
      modifies this, builder
      ensures View() == S.AddTermSingle(lib, old(View()))
    {
      if inArray {
        if |buf| > 0 {
          arrayParts := arrayParts + [buf];
        }
        buf := "";
        return;
      }

      if |buf| > 0 {
        var text := buf;
        var op := S.AsOperator(text);
        if op.Some? {
          operator := op;
          buf := "";
          return;
        }

        AddOperator();

        var number: Option<(Cond, real)> := None;
        var fieldName := "msg";
        if |field| > 0 {
          fieldName := field;
          var comparison := S.Comparison(text);
          if comparison.Some? {
            var n := lib.parseFloat(comparison.value.1);
            if n.Some? {
              number := Some((comparison.value.0, n.value));
            }
          } else {
            var n := lib.parseFloat(lib.trim(text));
            if n.Some? {
              number := Some((Eq, n.value));
            }
          }
        }

        if number.Some? {
          builder.Receive(Number(fieldName, number.value.0, number.value.1));
        } else {
          builder.Receive(Text(fieldName, text, false, S.HasWild(text)));
        }
        dirty := true;
      }
      buf := "";
      field := "";
    }

    // addTermSequence
    method AddTermSequence()
      modifies this, builder
      ensures View() == S.AddTermSequence(old(View()))
    {
      if inArray {
        arrayParts := arrayParts + [buf];
        buf := "";
        return;
      }

      if |buf| > 0 {
        AddOperator();
        var fieldName := "msg";
        if |field| > 0 {
          fieldName := field;
        }
        builder.Receive(Text(fieldName, buf, true, S.HasWild(buf)));
        dirty := true;
      }
      buf := "";
      field := "";
    }

    // The end of parse: the last part.
    method Finish() returns (err: Option<S.ParseError>)
      modifies this, builder
      ensures match S.Finish(lib, old(View()))
              case Ok(calls) => err == None && builder.calls == calls
              case Err(error) => err == Some(error)
    {
      hide S.AddTermSingle, S.AddTermSequence, S.CloseArray;
      if inQuote {
        AddTermSequence();
      } else {
        AddTermSingle();
      }
      err := CloseArray();
    }

    // The branches of the loop of parse for byte b at position i, groups apart.
    method Feed(i: nat, escaped: bool, b: char) returns (err: Option<S.ParseError>)
      requires S.Escaping(escaped, View())
      modifies this, builder
      ensures match S.Feed(lib, i, escaped, b, old(View()))
              case Ok(t) => err == None && View() == t
              case Err(error) => err == Some(error)
    {
      err := None;
      if b == '[' && !inQuote {
        if escaped {
          buf := buf[..|buf| - 1];
          buf := buf + ['['];
        } else if inArray {
          return Some(S.UnexpectedBracket(i));
        } else {
          inArray := true;
        }
      } else if b == ']' && inArray && !inQuote {
        if escaped {
          buf := buf[..|buf| - 1];
          buf := buf + [']'];
        } else {
          AddTermSingle();
          err := CloseArray();
        }
      } else if b == ' ' {
        if inQuote {
          buf := buf + [b];
        } else {
          AddTermSingle();
        }
      } else if b == '"' {
        if escaped {
          buf := buf[..|buf| - 1];
          buf := buf + ['"'];
        } else if inQuote {
          inQuote := false;
          AddTermSequence();
        } else {
          inQuote := true;
        }
      } else if b == ':' && !inQuote {
        if escaped {
          buf := buf[..|buf| - 1];
          buf := buf + [':'];
        } else if |field| > 0 {
          return Some(S.UnexpectedColon(i));
        } else {
          var f := lib.trim(buf);
          if f != "" {
            field := field + f;
          }
          buf := "";
        }
      } else {
        buf := buf + [b];
      }
    }
  }

  // The loop that extracts a group: from position i + 1 to the parenthesis that closes it.
  method Extract(qs: string, i: nat) returns (inner: string, j: nat)
    requires i < |qs| && qs[i] == '('
    ensures i < j <= |qs| && |inner| < |qs|
    ensures S.Split(qs[i + 1..], 1, false, false) == (inner, if j < |qs| then qs[j + 1..] else "")
    ensures j < |qs| ==> qs[j] == ')'
  {
    hide S.Split;
    inner, j := "", i + 1;
    var parenthesis: nat, innerInQuote := 1, false;
    ghost var all := S.Split(qs[i + 1..], 1, false, false);
    while j < |qs|
      invariant i < j <= |qs| && |inner| == j - i - 1 && parenthesis > 0
      invariant all.0 == inner + S.Split(qs[j..], parenthesis, innerInQuote, qs[j - 1] == '\\').0
      invariant all.1 == S.Split(qs[j..], parenthesis, innerInQuote, qs[j - 1] == '\\').1
    {
      var c := qs[j];
      S.SplitSteps(qs[j..], parenthesis, innerInQuote, qs[j - 1] == '\\');
      assert qs[j..][1..] == qs[j + 1..] && qs[j..][0] == c;
      if c == '(' && !innerInQuote {
        parenthesis := parenthesis + 1;
      } else if c == ')' && !innerInQuote {
        parenthesis := parenthesis - 1;
        if parenthesis == 0 {
          assert inner + "" == inner;
          return;
        }
      } else if c == '"' {
        if qs[j - 1] != '\\' {
          innerInQuote := !innerInQuote;
        }
      }
      inner := inner + [c];
      j := j + 1;
    }
    S.SplitSteps(qs[j..], parenthesis, innerInQuote, qs[j - 1] == '\\');
    assert inner + "" == inner;
  }

  // The branch of the loop of parse for a group.
  method ParseGroup(qs: string, i: nat, s: ParseState, ghost escaped: bool)
      returns (err: Option<S.ParseError>, next: nat)
    requires i < |qs| && S.OpensGroup(qs[i], s.View()) && S.Escaping(escaped, s.View())
    modifies s, s.builder
    ensures i < next && (next < |qs| ==> qs[next - 1] == ')')
    ensures var all := S.Scan(s.lib, i, escaped, qs[i..], old(s.View()));
            if err.Some? then all == S.Err(err.value)
            else if next < |qs| then all == S.Scan(s.lib, next, false, qs[next..], s.View())
            else all == S.Ok(s.View())
    decreases |qs|, 0
  {
    hide S.Scan, S.Split, S.Parse;
    S.ScanOpens(s.lib, i, escaped, qs[i..], s.View());
    assert qs[i..][1..] == qs[i + 1..];
    var inner, j := Extract(qs, i);
    s.AddOperator();
    s.builder.Receive(GroupStart);
    err := Parse(s.lib, inner, s.builder);
    next := j + 1;
    if err.Some? {
      return Some(S.InvalidGroup(inner, err.value)), next;
    }
    s.builder.Receive(GroupEnd);
    s.dirty := true;
    S.ScanStops(s.lib, |qs|, false, s.View());
  }

  // parse
  method Parse(lib: S.Lib, expression: string, builder: Recorder) returns (err: Option<S.ParseError>)
    modifies builder
    ensures match S.Parse(lib, expression, old(builder.calls))
            case Ok(calls) => err == None && builder.calls == calls
            case Err(error) => err == Some(error)
    decreases |expression|, 1
  {
    var qs := expression;
    hide S.Scan, S.Split, S.Feed, S.CloseArray, S.AddTermSingle, S.AddTermSequence, S.Finish;
    var s := new ParseState(lib, builder);
    var i := 0;
    assert qs[0..] == qs;
    S.ScanStops(lib, 0, false, s.View());
    ghost var goal := S.Scan(lib, 0, false, qs, S.Start(builder.calls));
    while i < |qs|
      invariant fresh(s) && s.builder == builder && s.lib == lib
      invariant i < |qs| ==> S.Escaping(i > 0 && qs[i - 1] == '\\', s.View())
      invariant i < |qs| ==> goal == S.Scan(lib, i, i > 0 && qs[i - 1] == '\\', qs[i..], s.View())
      invariant i >= |qs| ==> goal == S.Ok(s.View())
    {
      var b := qs[i];
      if b == '(' && !s.inArray && !s.inQuote {
        err, i := ParseGroup(qs, i, s, i > 0 && qs[i - 1] == '\\');
        if err.Some? {
          return;
        }
      } else {
        ghost var before := s.View();
        assert qs[i..][1..] == qs[i + 1..];
        err := s.Feed(i, i > 0 && qs[i - 1] == '\\', b);
        S.ScanFeeds(lib, i, i > 0 && qs[i - 1] == '\\', qs[i..], before);
        if err.Some? {
          return;
        }
        i := i + 1;
        if i == |qs| {
          assert qs[i..] == "";
          S.ScanStops(lib, i, b == '\\', s.View());
        }
      }
    }

    err := s.Finish();
  }
}
