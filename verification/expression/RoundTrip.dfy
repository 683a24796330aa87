/** Printing an expression and parsing the text again: when the expression comes back. */
module RoundTrip {
  import opened Wrappers
  import opened Ast
  import opened Tokens
  import opened LexerSpec
  import opened ParserSpec
  import opened Printing
  import opened Emitter
  import opened Pieces
  import PieceTokens
  import PieceText
  import PieceReading
  import LineBreaks
  import MinusSigns
  import ReadLeaves
  import Exactness
  import ParserTheorems
  import Completeness
  import Grammar
  import Lexing

  datatype Outcome = Outcome(expr: Option<Expr>, lexErrors: seq<LexError>, parseErrors: seq<ParseError>)

  /** `parse` without its cache (parse.ts:70-96): lexical errors are reported alone. */
  function ParseText(input: string): Outcome {
    var lexed := Tokenized(input);
    if lexed.errs != [] then Outcome(None, lexed.errs, [])
    else
      var r := ParseTokens(lexed.toks);
      Outcome(r.val, [], r.st.errs)
  }

  // ----- the text and the tokens -----

  /** Text whose calls are words, without adjacent minus signs, and with leaves the lexer can give, is read piece by piece. */
  lemma TextAsRead(e: Expr, m: Full)
    requires Meets(e, m) && m.apart && |EmitSql(e)| <= MAX_INPUT_LENGTH
    ensures Tokenized(EmitSql(e)) == Lexed(PieceReading.AsRead(Grammar.Yield(Printed(e), End)), [])
    ensures m.kept ==> PieceReading.AsRead(Grammar.Yield(Printed(e), End)) == Grammar.Yield(Printed(e), End)
  {
    PieceReading.CutSpaced(e, Done, m);
    PieceReading.ReadPieces(Cut(e, Done), m);
    if m.kept {
      PieceReading.KeptRead(Cut(e, Done), m);
    }
    PieceTokens.CutTokens(e, Done);
    CutWhole(e);
  }

  lemma CutWhole(e: Expr)
    ensures Flatten(Cut(e, Done)) == EmitSql(e)
  {
    PieceText.CutText(e, Done);
    assert EmitSql(e) + "" == EmitSql(e);
  }

  /** If moreover no bare name is a keyword, the text is read as exactly the tokens of the printed form. */
  lemma TextTokens(e: Expr)
    requires Meets(e, WORDS) && Meets(e, APART) && Meets(e, KEPT) && |EmitSql(e)| <= MAX_INPUT_LENGTH
    ensures Tokenized(EmitSql(e)) == Lexed(Grammar.Yield(Printed(e), End), [])
  {
    var spaced, all := Demand(true, true, false, false), Demand(true, true, true, true);
    ReadLeaves.MeetsBoth(e, WORDS, APART, spaced);
    ReadLeaves.MeetsBoth(e, spaced, KEPT, all);
    TextAsRead(e, all);
  }

  // ----- what every expression that was read satisfies -----

  /** Whatever the text: numbers within their limit, strings within theirs, no name with a double quote, anywhere in the tree. */
  lemma ParsedLeaves(input: string, e: Expr)
    requires ParseText(input).expr == Some(e)
    ensures Meets(e, LEAVES) && |input| <= MAX_INPUT_LENGTH
  {
    var ts := Tokenized(input).toks;
    ReadLeaves.LexedMeets(input, false);
    TokensGiveLeaves(ts, e, LEAVES);
  }

  lemma TokensGiveLeaves(ts: TokenList, e: Expr, m: Demand)
    requires !m.words && !m.apart && ReadLeaves.TokensMeet(ts, m) && ParseTokens(ts).val == Some(e)
    ensures Meets(e, m)
  {
    var c := ParserTheorems.ParsedIsSentence(ts, e);
    ReadLeaves.Leaves(c, End, 1, m);
  }

  /** Read back from its own text, an expression has no bare name that the lexer takes for a keyword. */
  lemma {:induction false} ReadNamesAreKept(ts: TokenList)
    requires ReadLeaves.TokensMeet(PieceReading.AsRead(ts), LEAVES)
    ensures ReadLeaves.TokensMeet(PieceReading.AsRead(ts), KEPT)
  {
    if ts.Cons? {
      ReadNamesAreKept(ts.tail);
    }
  }

  lemma {:induction false} AsReadLength(ts: TokenList)
    ensures Length(PieceReading.AsRead(ts)) == Length(ts)
  {
    if ts.Cons? {
      AsReadLength(ts.tail);
    }
  }

  lemma ReadBackIsFaithful(e: Expr)
    requires Meets(e, WORDS) && Meets(e, APART) && ParseText(EmitSql(e)).expr == Some(e)
    ensures Faithful(e, 1) && Meets(e, KEPT)
  {
    var ts := Grammar.Yield(Printed(e), End);
    var read := PieceReading.AsRead(ts);
    var spaced, full := Demand(true, true, false, false), Demand(true, true, true, false);
    ParsedLeaves(EmitSql(e), e);
    ReadLeaves.MeetsBoth(e, WORDS, APART, spaced);
    ReadLeaves.MeetsBoth(e, spaced, LEAVES, full);
    TextAsRead(e, full);
    ReadLeaves.LexedMeets(EmitSql(e), false);
    ReadNamesAreKept(ts);
    TokensGiveLeaves(read, e, KEPT);
    AsReadLength(ts);
    LineBreaks.SizeWeighs(0, ts);
    LineBreaks.SizeWeighs(0, read);
    var c := ParserTheorems.ParsedIsSentence(read, e);
    Exactness.Tight(0, c, End, End, 1);
  }

  /**
   Two minus signs in a row, anywhere in an expression, open a comment. It swallows a line break that only
   a literal or a name can hold, or it goes on to the end and leaves too few tokens. Either way no
   derivation of the expression is left, and it is not read back.
   */
  lemma MeetingMinusesAreLost(e: Expr)
    requires Meets(e, WORDS) && !Meets(e, APART)
    ensures ParseText(EmitSql(e)).expr != Some(e)
  {
    if ParseText(EmitSql(e)).expr == Some(e) {
      var text, ts, full := Cut(e, Done), Tokenized(EmitSql(e)).toks, Demand(true, false, true, false);
      ParsedLeaves(EmitSql(e), e);
      ReadLeaves.MeetsBoth(e, WORDS, LEAVES, full);
      PieceReading.CutSpaced(e, Done, full);
      CutWhole(e);
      if MinusSigns.Clear(text) {
        MinusSigns.Apart(e, Done);
      }
      MinusSigns.ReadsLess(text, full);
      PieceTokens.CutTokens(e, Done);
      var c := ParserTheorems.ParsedIsSentence(ts, e);
      PoorerIsNoDerivation(c, ts, e);
    }
  }

  /** No derivation of an expression lacks a line break or a token of its printed form. */
  lemma PoorerIsNoDerivation(c: Grammar.Cst, ts: TokenList, e: Expr)
    requires Grammar.Well(c, 1) && Grammar.Strip(c) == e && Grammar.Yield(c, End) == ts
    ensures !MinusSigns.Poorer(ts, Grammar.Yield(Printed(e), End))
  {
    var printed, per := Grammar.Yield(Printed(e), End), Length(ts) + 1;
    Exactness.Tight(0, c, End, End, 1);
    LineBreaks.SizeWeighs(0, ts);
    LineBreaks.SizeWeighs(0, printed);
    Exactness.Tight(per, c, End, End, 1);
    LineBreaks.SizeWeighs(per, ts);
    LineBreaks.SizeWeighs(per, printed);
    WholeStep(per, LineBreaks.Lines(ts), LineBreaks.Lines(printed));
  }

  lemma WholeStep(per: nat, a: nat, b: nat)
    ensures a < b ==> per * a + per <= per * b
  {
    if a < b {
      LineBreaks.Distributes(per, a, b - a);
      LineBreaks.Distributes(per, 1, b - a - 1);
    }
  }

  /**
   For every expression whose calls are named by words: parsing its text gives it back if and only if it
   is faithful, its names and literals survive the lexer, no minus stands right in front of another, and
   the text is within the input limit.
   */
  lemma RoundTripExact(e: Expr)
    requires Meets(e, WORDS)
    ensures ParseText(EmitSql(e)).expr == Some(e) <==>
            Faithful(e, 1) && Meets(e, KEPT) && Meets(e, APART) && |EmitSql(e)| <= MAX_INPUT_LENGTH
    ensures ParseText(EmitSql(e)).expr == Some(e) ==> ParseText(EmitSql(e)) == Outcome(Some(e), [], [])
  {
    if ParseText(EmitSql(e)).expr == Some(e) {
      if !Meets(e, APART) {
        MeetingMinusesAreLost(e);
      }
      ParsedLeaves(EmitSql(e), e);
      ReadBackIsFaithful(e);
    }
    if Faithful(e, 1) && Meets(e, KEPT) && Meets(e, APART) && |EmitSql(e)| <= MAX_INPUT_LENGTH {
      TextTokens(e);
      ParserTheorems.PrintParseExact(e);
    }
    NoErrors(EmitSql(e));
  }

  lemma NoErrors(input: string)
    ensures ParseText(input).expr.Some? ==> ParseText(input).lexErrors == [] && ParseText(input).parseErrors == []
  {
  }

  /** A text without a tree has an error, and a text with one has none. */
  lemma NoTreeIffError(input: string)
    ensures ParseText(input).expr == None <==> ParseText(input).lexErrors != [] || ParseText(input).parseErrors != []
  {
    ParserTheorems.RejectIffNoSentence(Tokenized(input).toks);
  }

  // ----- names and literals that do not survive -----

  /** `--` opens a comment: a negation of a negation is lost, unless its text spans lines. */
  lemma DoubleMinusIsLost(x: Expr)
    requires '\n' !in EmitOperand(x, UNARY_MINUS_PRECEDENCE, false)
    ensures ParseText(EmitSql(Negate(Negate(x)))).expr == None
  {
    var s := EmitSql(Negate(Negate(x)));
    var operand := EmitOperand(x, UNARY_MINUS_PRECEDENCE, false);
    assert EmitSql(Negate(x)) == "-" + operand;
    assert EmitOperand(Negate(x), UNARY_MINUS_PRECEDENCE, false) == EmitSql(Negate(x));
    assert s == "-" + ("-" + operand);
    WholeLine(s);
    assert s[|s|..] == "";
    assert Lex(s, false) == Lex("", false);
    NothingParsed();
  }

  lemma WholeLine(s: string)
    requires '\n' !in s
    ensures LineRun(s) == |s|
  {
  }

  lemma NothingParsed()
    ensures ParseTokens(End).val == None
  {
    if ParseTokens(End).val.Some? {
      var c := ParserTheorems.ParsedIsSentence(End, ParseTokens(End).val.value);
      Grammar.YieldsFirstToken(c, End);
    }
  }

  /** A column called NULLS, FIRST or LAST is written bare and read as a keyword no expression begins with. */
  lemma KeywordColumnIsLost(name: string)
    requires IsWord(name) && (Upper(name) == "NULLS" || Upper(name) == "FIRST" || Upper(name) == "LAST")
    ensures WrittenBare(name) && ParseText(EmitSql(ColumnRef(None, name))).expr == None
  {
    NotQuoted();
    KeywordsAll();
    UnlistedIsLost(name, if Upper(name) == "NULLS" then NULLS else if Upper(name) == "FIRST" then FIRST else LAST);
  }

  lemma UnlistedIsLost(name: string, kind: Kind)
    requires IsWord(name) && !SqlKeyword(Upper(name)) && Keyword(Upper(name)) == Some(kind)
    requires kind == NULLS || kind == FIRST || kind == LAST
    ensures WrittenBare(name) && ParseText(EmitSql(ColumnRef(None, name))).expr == None
  {
    OneWord(name);
    KeywordAloneFails(K(kind));
  }

  lemma NotQuoted()
    ensures !SqlKeyword("NULLS") && !SqlKeyword("FIRST") && !SqlKeyword("LAST")
  {
  }

  lemma KeywordsAll()
    ensures Keyword("NULLS") == Some(NULLS) && Keyword("FIRST") == Some(FIRST) && Keyword("LAST") == Some(LAST)
  {
  }

  lemma OneWord(name: string)
    requires IsWord(name) && WordToken(name, false) != K(AS)
    ensures Lex(name, false) == Lexed(Cons(WordToken(name, false), End), [])
  {
    Lexing.WordStep(name, "", false);
    assert name + "" == name;
    assert Lex("", false) == Lexed(End, []);
  }

  lemma KeywordAloneFails(t: Token)
    requires t == K(NULLS) || t == K(FIRST) || t == K(LAST)
    ensures ParseTokens(Cons(t, End)).val == None
  {
    var ts := Cons(t, End);
    if ParseTokens(ts).val.Some? {
      var c := ParserTheorems.ParsedIsSentence(ts, ParseTokens(ts).val.value);
      Grammar.YieldsFirstToken(c, End);
      CallsGoOn(c, End, 1);
    }
  }

  /** FIRST and LAST can only begin a call, which needs more tokens. */
  lemma CallsGoOn(c: Grammar.Cst, k: TokenList, d: nat)
    requires Grammar.Well(c, d)
    ensures Grammar.FirstToken(c) != K(NULLS)
    ensures Length(Grammar.Yield(c, k)) >= 1
    ensures Grammar.FirstToken(c) == K(FIRST) || Grammar.FirstToken(c) == K(LAST) ==> Length(Grammar.Yield(c, k)) >= 2
  {
    Grammar.YieldsFirstToken(c, k);
  }

  /** A name with double quotes, however many and wherever, is lost: no text at all is read as such a column. */
  lemma QuoteInNameIsLost(table: Option<string>, name: string, input: string)
    requires '"' in name || (HasTable(table) && '"' in table.value)
    ensures ParseText(input).expr != Some(ColumnRef(table, name))
  {
    if ParseText(input).expr == Some(ColumnRef(table, name)) {
      ParsedLeaves(input, ColumnRef(table, name));
    }
  }

  /** Doubling the quote does not help: the lexer ends the name at the first one, and the text is rejected. */
  lemma OneQuoteSplitsName(a: string, b: string)
    requires '"' !in a && '"' !in b && |a| <= MAX_STRING_LENGTH && |b| <= MAX_STRING_LENGTH
    ensures ParseText(EmitSql(ColumnRef(None, a + "\"" + b))).expr == None
  {
    QuotedWhole(a, b);
    DoubledOnce(a, b);
    TwoNames(a, b);
    TwoNamesFail(a, b);
  }

  lemma QuotedWhole(a: string, b: string)
    ensures var name := a + "\"" + b; Ident(name) == "\"" + Doubled(name, '"') + "\""
  {
    var name := a + "\"" + b;
    assert name[|a|] == '"' && !IsWordChar('"');
  }

  lemma DoubledOnce(a: string, b: string)
    requires '"' !in a && '"' !in b
    ensures Doubled(b, '"') == b
    ensures Doubled(a + "\"" + b, '"') == a + ("\"\"" + b)
  {
    NothingDoubled(b);
    QuoteDoubled(b);
    DoubledBehind(a, "\"" + b);
    assert a + "\"" + b == a + ("\"" + b);
  }

  lemma DoubledBehind(a: string, b: string)
    requires '"' !in a
    ensures Doubled(a + b, '"') == a + Doubled(b, '"')
  {
    NothingDoubled(a);
    DoubledJoin(a, b);
  }

  lemma QuoteDoubled(b: string)
    requires Doubled(b, '"') == b
    ensures Doubled("\"" + b, '"') == "\"\"" + b
  {
  }

  lemma {:induction false} DoubledJoin(a: string, b: string)
    ensures Doubled(a + b, '"') == Doubled(a, '"') + Doubled(b, '"')
  {
    if a == "" {
      assert a + b == b;
    } else {
      assert (a + b)[1..] == a[1..] + b;
      DoubledJoin(a[1..], b);
    }
  }

  lemma NothingDoubled(b: string)
    requires '"' !in b
    ensures Doubled(b, '"') == b
  {
  }

  lemma TwoNames(a: string, b: string)
    requires '"' !in a && '"' !in b && |a| <= MAX_STRING_LENGTH && |b| <= MAX_STRING_LENGTH
    ensures Lex("\"" + (a + ("\"\"" + b)) + "\"", false) == Lexed(Cons(IDENT(a), Cons(IDENT(b), End)), [])
  {
    NothingDoubled(a);
    NothingDoubled(b);
    Lexing.QuotedStep(b, "");
    var second := "\"" + b + "\"";
    assert second + "" == second;
    Lexing.QuotedStep(a, second);
    QuotesRegroup(a, b);
    assert Lex("", false) == Lexed(End, []);
  }

  lemma QuotesRegroup(a: string, b: string)
    ensures "\"" + (a + ("\"\"" + b)) + "\"" == "\"" + a + "\"" + ("\"" + b + "\"")
  {
  }

  lemma TwoNamesFail(a: string, b: string)
    ensures ParseTokens(Cons(IDENT(a), Cons(IDENT(b), End))).val == None
  {
    Completeness.CompleteInner(Grammar.Name(a), Cons(IDENT(b), End), [], 0);
  }
}
