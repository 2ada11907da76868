// Text atoms: what the in-memory predicate answers on a value, and what the SQL condition says of it.
module TextAtoms {
  import opened ExprCalls
  import opened GlobSearch
  import opened MemoryExpr
  import opened Options
  import opened SqlReader
  import opened SqliteExpr
  import ExprSpec
  import Exactly = GlobExactlyOne

  // Whether SQLite finds the test of a text atom true.  A missing value is NULL.  In GLOB a '*' is any text and a
  // '?' one character; a '[' would begin a set of characters.
  ghost predicate SqlFinds(value: Option<string>, test: Test) {
    match value
    case None => false
    case Some(v) =>
      match test
      case Compare(Eq, Str(term)) => v == term
      case Glob(Str(pattern)) => Matches(ExactlyOne, pattern, v)
      case _ => false
  }

  // Whatever the value, both back ends say the same.
  ghost predicate AlwaysAgree(call: Call)
    requires call.Text?
  {
    forall value, r :: Answers(value, call.term, call.isSequence, call.isWildcard, r) ==>
      (r <==> SqlFinds(value, ConditionOf(call).test))
  }

  // Main theorem: the back ends agree on a text atom for all values if and only if its term has no wildcard, or all
  // its marks are taken.
  lemma {:induction false} TextAtomsAgreeIff(call: Call)
    requires call.Text? && call.isWildcard == ExprSpec.HasWild(call.term) && '[' !in call.term
    ensures AlwaysAgree(call) <==> !call.isWildcard || Exactly.AllTaken(call.term)
  {
    if call.isSequence && !call.isWildcard {
    } else {
      var p := if call.isWildcard then call.term else "*" + call.term + "*";
      assert ConditionOf(call).test == Glob(Str(p));
      if !call.isWildcard {
        assert Exactly.NoMarks(p);
      }
      Exactly.ExactIffAllTaken(p);
      hide Computes, Matches, ConditionOf, Exactly.AllTaken;
      AgreeIsExact(call, p);
    }
  }

  lemma AgreeIsExact(call: Call, p: string)
    requires call.Text? && ConditionOf(call).test == Glob(Str(p)) && !(call.isSequence && !call.isWildcard)
    requires p == if call.isWildcard then call.term else "*" + call.term + "*"
    ensures AlwaysAgree(call) <==> Exactly.Exact(p)
  {
    hide Computes, Matches, ConditionOf;
    if AlwaysAgree(call) {
      forall s, r | Computes(p, s, r) ensures r <==> Matches(ExactlyOne, p, s) {
        assert Answers(Some(s), call.term, call.isSequence, call.isWildcard, r);
      }
    }
  }
}
