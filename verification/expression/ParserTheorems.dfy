/** What `parse` decides about a token list, in terms of the grammar alone. */
module ParserTheorems {
  import opened Wrappers
  import opened Ast
  import opened Tokens
  import opened Grammar
  import opened ParserSpec
  import opened Completeness
  import opened Soundness
  import opened Printing
  import opened Exactness

  /** `c` shows that `ts` is a sentence for `e`, within the nesting and list limits. */
  predicate Sentence(c: Cst, ts: TokenList, e: Expr) {
    Well(c, 1) && Yield(c, End) == ts && Strip(c) == e
  }

  /** `parse` returns a tree exactly for the sentences of the grammar, and then the tree the sentence stands for. */
  lemma ParseIffSentence(ts: TokenList, e: Expr)
    ensures ParseTokens(ts).val == Some(e) <==> exists c :: Sentence(c, ts, e)
  {
    if ParseTokens(ts).val == Some(e) {
      var c := ParsedIsSentence(ts, e);
    }
    forall c | Sentence(c, ts, e)
      ensures ParseTokens(ts).val == Some(e)
    {
      SentenceIsParsed(c, ts, e);
    }
  }

  lemma ParsedIsSentence(ts: TokenList, e: Expr) returns (c: Cst)
    requires ParseTokens(ts).val == Some(e)
    ensures Sentence(c, ts, e)
  {
    AcceptedWhole(ts, 0, e);
    c := ReadWhole(State(ts, []), 0, e);
  }

  lemma ReadWhole(s: State, d: nat, e: Expr) returns (c: Cst)
    requires d == 0 && s.errs == [] && ParseExpr(s, d) == Result(e, State(End, []))
    ensures Sentence(c, s.toks, e)
  {
    c := SoundExpr(s, d);
    DerivedWhole(c, s.toks, e, d + 1);
  }

  lemma DerivedWhole(c: Cst, ts: TokenList, e: Expr, d: nat)
    requires d == 1 && Derives(c, 1, ts, Result(e, State(End, [])), d)
    ensures Sentence(c, ts, e)
  {
  }

  /** An accepted list was read to its end without an error. */
  lemma AcceptedWhole(ts: TokenList, d: nat, e: Expr)
    requires d == 0 && ParseTokens(ts).val == Some(e)
    ensures ParseExpr(State(ts, []), d) == Result(e, State(End, []))
  {
  }

  lemma SentenceIsParsed(c: Cst, ts: TokenList, e: Expr)
    requires Sentence(c, ts, e)
    ensures ParseTokens(ts) == Parsed(Some(e), End, [])
  {
    CompleteInner(c, End, [], 0);
  }

  /** A rejected list is one no concrete tree derives, and only then are errors reported. */
  lemma RejectIffNoSentence(ts: TokenList)
    ensures ParseTokens(ts).val == None <==> forall c, e :: !Sentence(c, ts, e)
    ensures ParseTokens(ts).val == None <==> ParseTokens(ts).st.errs != []
  {
    var r := ParseTokens(ts);
    if r.val.Some? {
      ParseIffSentence(ts, r.val.value);
    }
    forall c, e | Sentence(c, ts, e)
      ensures r.val == Some(e)
    {
      ParseIffSentence(ts, e);
    }
  }

  /** The grammar is unambiguous: no token list stands for two expressions. */
  lemma Unambiguous(c1: Cst, c2: Cst)
    requires Well(c1, 1) && Well(c2, 1) && Yield(c1, End) == Yield(c2, End)
    ensures Strip(c1) == Strip(c2)
  {
    SentenceIsParsed(c1, Yield(c1, End), Strip(c1));
    SentenceIsParsed(c2, Yield(c2, End), Strip(c2));
  }

  /** The tokens of the printed form are read back as the same expression exactly when it is faithful. */
  lemma PrintParseExact(e: Expr)
    ensures ParseTokens(Yield(Printed(e), End)).val == Some(e) <==> Faithful(e, 1)
  {
    var ts := Yield(Printed(e), End);
    if Faithful(e, 1) {
      FaithfulPrints(e, 1);
      SentenceIsParsed(Printed(e), ts, e);
    }
    if ParseTokens(ts).val == Some(e) {
      var c := ParsedIsSentence(ts, e);
      Tight(0, c, End, End, 1);
    }
  }
}
