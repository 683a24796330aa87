/** Well spaced pieces are read one by one, and the pieces of a lexable expression are well spaced. */
module PieceReading {
  import opened Wrappers
  import opened Ast
  import opened Tokens
  import opened LexerSpec
  import opened Emitter
  import opened Printing
  import opened Lexing
  import opened Pieces

  predicate Letters(s: string) {
    s != "" && forall i :: 0 <= i < |s| ==> 'A' <= s[i] <= 'Z'
  }

  lemma LettersAreWords(s: string)
    requires Letters(s)
    ensures IsWord(s) && Upper(s) == s
  {
  }

  /** A keyword is spelled in capitals, and that is how the lexer knows it. */
  predicate Known(k: Kind) {
    Letters(Spelling(k)) && Keyword(Spelling(k)) == Some(k)
  }

  // The keywords, a few at a time.

  predicate Connective(k: Kind) { k.AND? || k.OR? || k.NOT? }

  lemma ConnectiveKnown(k: Kind)
    requires Connective(k)
    ensures Known(k)
  {
  }

  predicate Membership(k: Kind) { k.IS? || k.IN? || k.LIKE? }

  lemma MembershipKnown(k: Kind)
    requires Membership(k)
    ensures Known(k)
  {
  }

  predicate Constant(k: Kind) { k.NULL? || k.TRUE? || k.FALSE? }

  lemma ConstantKnown(k: Kind)
    requires Constant(k)
    ensures Known(k)
  {
  }

  predicate CaseWord(k: Kind) { k.CASE? || k.WHEN? || k.THEN? }

  lemma CaseWordKnown(k: Kind)
    requires CaseWord(k)
    ensures Known(k)
  {
  }

  predicate CaseEnd(k: Kind) { k.ELSE? || k.END? || k.CAST? }

  lemma CaseEndKnown(k: Kind)
    requires CaseEnd(k)
    ensures Known(k)
  {
  }

  predicate WindowWord(k: Kind) { k.OVER? || k.BY? || k.ORDER? }

  lemma WindowWordKnown(k: Kind)
    requires WindowWord(k)
    ensures Known(k)
  {
  }

  predicate FrameWord(k: Kind) { k.ROWS? || k.ROW? || k.RANGE? }

  lemma FrameWordKnown(k: Kind)
    requires FrameWord(k)
    ensures Known(k)
  {
  }

  predicate SortWord(k: Kind) { k.DESC? || k.NULLS? }

  lemma SortWordKnown(k: Kind)
    requires SortWord(k)
    ensures Known(k)
  {
  }

  predicate SideWord(k: Kind) { k.FIRST? || k.LAST? }

  lemma SideWordKnown(k: Kind)
    requires SideWord(k)
    ensures Known(k)
  {
  }

  predicate RangeWord(k: Kind) { k.BETWEEN? || k.CURRENT? }

  lemma RangeWordKnown(k: Kind)
    requires RangeWord(k)
    ensures Known(k)
  {
  }

  predicate FilterWord(k: Kind) { k.FILTER? || k.WHERE? }

  lemma FilterWordKnown(k: Kind)
    requires FilterWord(k)
    ensures Known(k)
  {
  }

  predicate LongWord(k: Kind) { k.PARTITION? || k.DISTINCT? }

  lemma LongWordKnown(k: Kind)
    requires LongWord(k)
    ensures Known(k)
  {
  }

  predicate BoundWord(k: Kind) { k.PRECEDING? || k.FOLLOWING? }

  lemma BoundWordKnown(k: Kind)
    requires BoundWord(k)
    ensures Known(k)
  {
  }

  lemma UnboundedKnown()
    ensures Known(UNBOUNDED)
  {
  }

  lemma SpellingReads(k: Kind)
    requires HasSpelling(k)
    ensures Spells(Spelling(k), k)
  {
    if Connective(k) {
      ConnectiveKnown(k);
    } else if Membership(k) {
      MembershipKnown(k);
    } else if Constant(k) {
      ConstantKnown(k);
    } else if CaseWord(k) {
      CaseWordKnown(k);
    } else if CaseEnd(k) {
      CaseEndKnown(k);
    } else if WindowWord(k) {
      WindowWordKnown(k);
    } else if FrameWord(k) {
      FrameWordKnown(k);
    } else if SortWord(k) {
      SortWordKnown(k);
    } else if SideWord(k) {
      SideWordKnown(k);
    } else if RangeWord(k) {
      RangeWordKnown(k);
    } else if FilterWord(k) {
      FilterWordKnown(k);
    } else if LongWord(k) {
      LongWordKnown(k);
    } else if BoundWord(k) {
      BoundWordKnown(k);
    } else {
      assert k == UNBOUNDED;
      UnboundedKnown();
    }
    LettersAreWords(Spelling(k));
  }

  // ----- which pieces may stand side by side -----

  predicate Closes(t: Text) {
    t.Done? || t.piece.Blank? || t.piece == Delimiter(')') || t.piece == Delimiter(',') || t.piece.AsType?
  }

  predicate Follows(t: Text, c: char) {
    t.More? && t.piece == Delimiter(c)
  }

  predicate Fits(p: Piece, rest: Text, m: Full) {
    match p
    case Blank => true
    case Key(kind) => HasSpelling(kind) && (Closes(rest) || Follows(rest, '('))
    case Operator(_) => rest.More? && rest.piece.Blank?
    case Delimiter(c) =>
      c == '(' || c == ')' || c == ',' || c == '.' || c == '*'
      || (c == '-' && (m.apart ==> !Follows(rest, '-')) && (rest.More? ==> !rest.piece.Operator?))
    case Integer(s) => IsInteger(s) && Closes(rest)
    case Decimal(s) => IsDecimal(s) && Closes(rest)
    case Literal(v) => StringFits(v) && Closes(rest)
    case Name(n) => NameMeets(n, m) && (Closes(rest) || Follows(rest, '.'))
    case CallName(n) => CallNameLexes(n) && Follows(rest, '(')
    case AsType(_) => Closes(rest)
  }

  predicate WellSpaced(t: Text, m: Full) {
    t.More? ==> Fits(t.piece, t.rest, m) && WellSpaced(t.rest, m)
  }

  // ----- reading -----

  lemma ClosesSeparated(t: Text)
    requires Closes(t)
    ensures Separated(Flatten(t))
  {
  }

  lemma FollowsChar(t: Text, c: char)
    requires Follows(t, c)
    ensures Flatten(t) != "" && Flatten(t)[0] == c
  {
  }

  /** The tokens the lexer gives: those meant, but for bare names that are keywords to it. */
  function AsRead(ts: TokenList): TokenList {
    match ts
    case End => End
    case Cons(t, rest) => Cons(ReadToken(t), AsRead(rest))
  }

  lemma {:induction false} ReadPieces(t: Text, m: Full)
    requires WellSpaced(t, m) && m.apart
    ensures Lex(Flatten(t), false) == Lexed(AsRead(AllTokens(t)), [])
  {
    if t.More? {
      ReadPieces(t.rest, m);
      ReadPiece(t.piece, t.rest, m);
      AsReadPiece(t.piece, t.rest, AllTokens(t.rest), m);
    }
  }

  /** The tokens the lexer gives for one piece, in front of k. */
  function ReadOf(p: Piece, k: TokenList): TokenList {
    if p.Name? then Cons(ReadToken(IDENT(p.name)), k) else TokensOf(p, k)
  }

  lemma AsReadPiece(p: Piece, rest: Text, ts: TokenList, m: Full)
    requires Fits(p, rest, m)
    ensures AsRead(TokensOf(p, ts)) == ReadOf(p, AsRead(ts))
  {
  }

  /** A minus right in front of another begins a comment. */
  predicate Clash(p: Piece, rest: Text) {
    p == Delimiter('-') && Follows(rest, '-')
  }

  /** Names kept from being keywords are read as they are meant. */
  lemma {:induction false} KeptRead(t: Text, m: Full)
    requires WellSpaced(t, m) && m.kept
    ensures AsRead(AllTokens(t)) == AllTokens(t)
  {
    if t.More? {
      KeptRead(t.rest, m);
      KeptPiece(t.piece, t.rest, m);
    }
  }

  lemma KeptPiece(p: Piece, rest: Text, m: Full)
    requires Fits(p, rest, m) && m.kept && AsRead(AllTokens(rest)) == AllTokens(rest)
    ensures AsRead(TokensOf(p, AllTokens(rest))) == TokensOf(p, AllTokens(rest))
  {
  }

  predicate BeginsWith(k: string, c: char) {
    k != "" && k[0] == c
  }

  /** The text `k` begins as the pieces `rest` do, and does not run into the piece in front. */
  predicate Ahead(p: Piece, rest: Text, k: string) {
    && (Closes(rest) ==> Separated(k))
    && (Follows(rest, '(') ==> BeginsWith(k, '('))
    && (Follows(rest, '.') ==> BeginsWith(k, '.'))
    && (p.Operator? ==> BehindOperator(p.op, k))
    && (p == Delimiter('-') ==> !BeginsWith(k, '-'))
  }

  /** One piece in front of others. */
  lemma ReadPiece(p: Piece, rest: Text, m: Full)
    requires Fits(p, rest, m) && WellSpaced(rest, m) && !Clash(p, rest)
    ensures var r := Lex(Flatten(rest), false);
            Lex(Write(p) + Flatten(rest), false) == Lexed(ReadOf(p, r.toks), r.errs)
  {
    FlatAhead(p, rest, m);
    ReadPieceAt(p, rest, Flatten(rest), m);
  }

  lemma FlatAhead(p: Piece, rest: Text, m: Full)
    requires Fits(p, rest, m) && WellSpaced(rest, m) && !Clash(p, rest)
    ensures Ahead(p, rest, Flatten(rest))
  {
    if Closes(rest) {
      ClosesSeparated(rest);
    }
    if p == Delimiter('-') {
      NoMinus(rest, m);
    }
  }

  lemma ReadPieceAt(p: Piece, rest: Text, k: string, m: Full)
    requires Fits(p, rest, m) && Ahead(p, rest, k)
    ensures var r := Lex(k, false); Lex(Write(p) + k, false) == Lexed(ReadOf(p, r.toks), r.errs)
  {
    match p
    case Blank => SpaceStep(k, false);
    case Key(kind) =>
      SpellingReads(kind);
      WordStep(Spelling(kind), k, false);
    case Operator(op) => OperatorStep(op, k);
    case Delimiter(c) => DelimiterStep(c, k);
    case Integer(s) => IntegerStep(s, k);
    case Decimal(s) => DecimalStep(s, k);
    case Literal(v) => StringStep(v, k);
    case Name(n) => IdentStep(n, k);
    case CallName(n) => WordStep(n, k, false);
    case AsType(t) => TypeStep(t, k);
  }

  /** Only an operator or a minus delimiter begins with a minus sign. */
  lemma NoMinus(t: Text, m: Full)
    requires WellSpaced(t, m) && !Follows(t, '-') && (t.More? ==> !t.piece.Operator?)
    ensures Flatten(t) == "" || Flatten(t)[0] != '-'
  {
    if t.More? && t.piece.Key? {
      SpellingReads(t.piece.kind);
    }
  }

  /** Right behind AS, a type name is read as a type. */
  lemma TypeStep(t: ScalarType, k: string)
    requires Separated(k)
    ensures Lex(" AS " + TypeText(t) + k, false) == Token1(K(AS), Token1(TypeToken(t), Lex(k, false)))
  {
    TypeWord(t);
    WordStep(TypeText(t), k, true);
    var word := TypeText(t) + k;
    SpaceStep(word, true);
    AsWord();
    WordStep("AS", " " + word, false);
    SpaceStep("AS" + (" " + word), false);
    AsText(TypeText(t), k);
  }

  lemma AsText(t: string, k: string)
    ensures " AS " + t + k == " " + ("AS" + (" " + (t + k)))
  {
  }

  lemma AsWord()
    ensures IsWord("AS") && WordToken("AS", false) == K(AS)
  {
  }

  lemma TypeWord(t: ScalarType)
    ensures IsWord(TypeText(t)) && WordToken(TypeText(t), true) == TypeToken(t)
  {
    TypeTextIsWord(t);
    TypeTextIsUpper(t);
  }

  lemma TypeTextIsWord(t: ScalarType)
    ensures IsWord(TypeText(t))
  {
  }

  lemma TypeTextIsUpper(t: ScalarType)
    ensures Upper(TypeText(t)) == TypeText(t)
  {
  }

  // ----- the pieces of a lexable expression -----

  lemma TwoFit(p: Piece, q: Piece, k: Text, m: Full)
    requires WellSpaced(k, m) && Fits(q, k, m) && Fits(p, More(q, k), m)
    ensures WellSpaced(More(p, More(q, k)), m)
  {
  }

  lemma ThreeFit(p: Piece, q: Piece, r: Piece, k: Text, m: Full)
    requires WellSpaced(k, m) && Fits(r, k, m) && Fits(q, More(r, k), m) && Fits(p, More(q, More(r, k)), m)
    ensures WellSpaced(More(p, More(q, More(r, k))), m)
  {
  }

  lemma SpacedFits(kind: Kind, k: Text, m: Full)
    requires WellSpaced(k, m) && HasSpelling(kind)
    ensures WellSpaced(Spaced(kind, k), m) && Closes(Spaced(kind, k))
  {
  }

  lemma InfixFits(negated: bool, kind: Kind, k: Text, m: Full)
    requires WellSpaced(k, m) && HasSpelling(kind)
    ensures WellSpaced(CutInfix(negated, kind, k), m) && Closes(CutInfix(negated, kind, k))
  {
    SpacedFits(kind, k, m);
    TwoFit(Blank, Key(NOT), Spaced(kind, k), m);
  }

  lemma WordFits(kind: Kind, k: Text, m: Full)
    requires WellSpaced(k, m) && Closes(k) && HasSpelling(kind)
    ensures WellSpaced(More(Blank, More(Key(kind), k)), m)
  {
  }

  /** How the pieces of `e` begin: never with an operator, and with a minus only for a bare negation. */
  predicate Opens(e: Expr, t: Text, m: Full) {
    WellSpaced(t, m) && t.More? && !t.piece.Operator? && (Follows(t, '-') <==> StartsWithMinus(e))
  }

  lemma {:induction false} CutSpaced(e: Expr, k: Text, m: Full)
    requires Meets(e, m) && WellSpaced(k, m) && Closes(k)
    ensures Opens(e, Cut(e, k), m)
    decreases e, 2
  {
    match e
    case ColumnRef(_, _) => CutNameSpaced(e, k, m);
    case Star(_) => CutNameSpaced(e, k, m);
    case Binary(_, _, _) => CutOperatorSpaced(e, k, m);
    case Negate(_) => CutOperatorSpaced(e, k, m);
    case LogicalNot(_) => CutOperatorSpaced(e, k, m);
    case Between(_, _, _, _) => CutBetweenSpaced(e, k, m);
    case InList(_, _, _) => CutInSpaced(e, k, m);
    case IsNull(_, _) => CutIsNullSpaced(e, k, m);
    case Like(_, _, _) => CutLikeSpaced(e, k, m);
    case Case(_, _, _) => CutCaseSpaced(e, k, m);
    case Cast(_, _) => CutCastSpaced(e, k, m);
    case CallExpr(call) => CutCallSpaced(call, k, m);
    case Window(_, _, _, _) => CutWindowSpaced(e, k, m);
    case _ => CutLiteralSpaced(e, k, m);
  }

  lemma CutLiteralSpaced(e: Expr, k: Text, m: Full)
    requires e.IntLiteral? || e.FloatLiteral? || e.StringLiteral? || e.BoolLiteral? || e.NullLiteral?
    requires Meets(e, m) && WellSpaced(k, m) && Closes(k)
    ensures Opens(e, Cut(e, k), m)
  {
  }

  lemma {:induction false} CutWindowSpaced(e: Expr, k: Text, m: Full)
    requires e.Window? && Meets(e, m) && WellSpaced(k, m) && Closes(k)
    ensures Opens(e, Cut(e, k), m)
    decreases e, 1
  {
    CutPartsSpaced(e, More(Delimiter(')'), k), m);
    SpacedFits(OVER, More(Delimiter('('), CutParts(e, More(Delimiter(')'), k))), m);
    CutCallSpaced(e.call, CutOver(e, k), m);
  }

  lemma {:induction false} CutOperatorSpaced(e: Expr, k: Text, m: Full)
    requires (e.Binary? || e.Negate? || e.LogicalNot?) && Meets(e, m) && WellSpaced(k, m) && Closes(k)
    ensures Opens(e, Cut(e, k), m)
    decreases e, 1
  {
    match e
    case Binary(op, l, r) =>
      var right := CutOperand(r, Precedence(op), true, k);
      CutOperandSpaced(r, Precedence(op), true, k, m);
      ThreeFit(Blank, Operator(op), Blank, right, m);
      CutOperandSpaced(l, Precedence(op), false, More(Blank, More(Operator(op), More(Blank, right))), m);
    case Negate(x) => CutOperandSpaced(x, UNARY_MINUS_PRECEDENCE, false, k, m);
    case LogicalNot(x) =>
      CutOperandSpaced(x, NOT_PRECEDENCE, false, k, m);
      TwoFit(Key(NOT), Blank, CutOperand(x, NOT_PRECEDENCE, false, k), m);
  }

  lemma {:induction false} CutCastSpaced(e: Expr, k: Text, m: Full)
    requires e.Cast? && Meets(e, m) && WellSpaced(k, m) && Closes(k)
    ensures Opens(e, Cut(e, k), m)
    decreases e, 1
  {
    var close := More(AsType(e.target), More(Delimiter(')'), k));
    TwoFit(AsType(e.target), Delimiter(')'), k, m);
    CutSpaced(e.expr, close, m);
    TwoFit(Key(CAST), Delimiter('('), Cut(e.expr, close), m);
  }

  lemma CutNameSpaced(e: Expr, k: Text, m: Full)
    requires (e.ColumnRef? || e.Star?) && Meets(e, m) && WellSpaced(k, m) && Closes(k)
    ensures Opens(e, Cut(e, k), m)
  {
  }

  lemma {:induction false} CutBetweenSpaced(e: Expr, k: Text, m: Full)
    requires e.Between? && Meets(e, m) && WellSpaced(k, m) && Closes(k)
    ensures Opens(e, Cut(e, k), m)
    decreases e, 1
  {
    var Between(x, lo, hi, n) := e;
    var high := Spaced(AND, Cut(hi, k));
    CutSpaced(hi, k, m);
    SpacedFits(AND, Cut(hi, k), m);
    CutSpaced(lo, high, m);
    InfixFits(n, BETWEEN, Cut(lo, high), m);
    CutSpaced(x, CutInfix(n, BETWEEN, Cut(lo, high)), m);
  }

  lemma {:induction false} CutInSpaced(e: Expr, k: Text, m: Full)
    requires e.InList? && Meets(e, m) && WellSpaced(k, m) && Closes(k)
    ensures Opens(e, Cut(e, k), m)
    decreases e, 1
  {
    var InList(x, vs, n) := e;
    var values := CutList(vs, More(Delimiter(')'), k));
    CutListSpaced(vs, More(Delimiter(')'), k), m);
    InfixFits(n, IN, More(Delimiter('('), values), m);
    CutSpaced(x, CutInfix(n, IN, More(Delimiter('('), values)), m);
  }

  lemma {:induction false} CutLikeSpaced(e: Expr, k: Text, m: Full)
    requires e.Like? && Meets(e, m) && WellSpaced(k, m) && Closes(k)
    ensures Opens(e, Cut(e, k), m)
    decreases e, 1
  {
    CutSpaced(e.pattern, k, m);
    InfixFits(e.negated, LIKE, Cut(e.pattern, k), m);
    CutSpaced(e.expr, CutInfix(e.negated, LIKE, Cut(e.pattern, k)), m);
  }

  lemma {:induction false} CutIsNullSpaced(e: Expr, k: Text, m: Full)
    requires e.IsNull? && Meets(e, m) && WellSpaced(k, m) && Closes(k)
    ensures Opens(e, Cut(e, k), m)
    decreases e, 1
  {
    var end := More(Blank, More(Key(NULL), k));
    WordFits(NULL, k, m);
    WordFits(NOT, end, m);
    WordFits(IS, CutNot(e.negated, end), m);
    CutSpaced(e.expr, More(Blank, More(Key(IS), CutNot(e.negated, end))), m);
  }

  lemma {:induction false} CutOperandSpaced(x: Expr, parent: nat, right: bool, k: Text, m: Full)
    requires Meets(x, m) && WellSpaced(k, m) && Closes(k)
    ensures var t := CutOperand(x, parent, right, k);
            WellSpaced(t, m) && t.More? && !t.piece.Operator?
            && (Follows(t, '-') <==> !Parenthesized(x, parent, right) && StartsWithMinus(x))
    decreases x, 3
  {
    CutSpaced(x, if Parenthesized(x, parent, right) then More(Delimiter(')'), k) else k, m);
  }

  lemma {:induction false} CutListSpaced(es: seq<Expr>, k: Text, m: Full)
    requires MeetsList(es, m) && WellSpaced(k, m) && Closes(k)
    ensures WellSpaced(CutList(es, k), m)
    decreases es, 1
  {
    if es != [] {
      CutTailSpaced(es[1..], k, m);
      CutSpaced(es[0], CutTail(es[1..], k), m);
    }
  }

  lemma {:induction false} CutTailSpaced(es: seq<Expr>, k: Text, m: Full)
    requires MeetsList(es, m) && WellSpaced(k, m) && Closes(k)
    ensures WellSpaced(CutTail(es, k), m) && Closes(CutTail(es, k))
    decreases es, 0
  {
    if es != [] {
      CutTailSpaced(es[1..], k, m);
      CutSpaced(es[0], CutTail(es[1..], k), m);
    }
  }

  lemma {:induction false} CutCaseSpaced(e: Expr, k: Text, m: Full)
    requires e.Case? && Meets(e, m) && WellSpaced(k, m) && Closes(k)
    ensures Opens(e, Cut(e, k), m)
    decreases e, 0
  {
    var end := More(Blank, More(Key(END), k));
    WordFits(END, k, m);
    CutElseSpaced(e.otherwise, end, m);
    var fromElse := CutElse(e.otherwise, end);
    CutWhensSpaced(e.whens, fromElse, m);
    CutBaseSpaced(e.base, CutWhens(e.whens, fromElse), m);
    KeyFits(CASE, CutBase(e.base, CutWhens(e.whens, fromElse)), m);
  }

  lemma KeyFits(kind: Kind, k: Text, m: Full)
    requires WellSpaced(k, m) && Closes(k) && HasSpelling(kind)
    ensures WellSpaced(More(Key(kind), k), m)
  {
  }

  lemma {:induction false} CutElseSpaced(o: Option<Expr>, k: Text, m: Full)
    requires MeetsOption(o, m) && WellSpaced(k, m) && Closes(k)
    ensures WellSpaced(CutElse(o, k), m) && Closes(CutElse(o, k))
    decreases o, 0
  {
    if o.Some? {
      CutSpaced(o.value, k, m);
      SpacedFits(ELSE, Cut(o.value, k), m);
    }
  }

  lemma {:induction false} CutBaseSpaced(o: Option<Expr>, k: Text, m: Full)
    requires MeetsOption(o, m) && WellSpaced(k, m) && Closes(k)
    ensures WellSpaced(CutBase(o, k), m) && Closes(CutBase(o, k))
    decreases o, 0
  {
    if o.Some? {
      CutSpaced(o.value, k, m);
    }
  }

  lemma {:induction false} CutWhensSpaced(ws: seq<When>, k: Text, m: Full)
    requires MeetsWhens(ws, m) && WellSpaced(k, m) && Closes(k)
    ensures WellSpaced(CutWhens(ws, k), m) && Closes(CutWhens(ws, k))
    decreases ws, 0
  {
    if ws != [] {
      CutWhensSpaced(ws[1..], k, m);
      CutWhenSpaced(ws[0], CutWhens(ws[1..], k), m);
    }
  }

  lemma {:induction false} CutWhenSpaced(w: When, k: Text, m: Full)
    requires MeetsWhen(w, m) && WellSpaced(k, m) && Closes(k)
    ensures WellSpaced(CutWhen(w, k), m) && Closes(CutWhen(w, k))
    decreases w, 0
  {
    CutSpaced(w.result, k, m);
    SpacedFits(THEN, Cut(w.result, k), m);
    CutSpaced(w.condition, Spaced(THEN, Cut(w.result, k)), m);
    SpacedFits(WHEN, Cut(w.condition, Spaced(THEN, Cut(w.result, k))), m);
  }

  lemma {:induction false} CutCallSpaced(call: Call, k: Text, m: Full)
    requires MeetsCall(call, m) && WellSpaced(k, m) && Closes(k)
    ensures WellSpaced(CutCall(call, k), m)
    decreases call, 1
  {
    var inner := if call.AggregateCall? then CutFilter(call.filter, k) else k;
    if call.AggregateCall? {
      CutFilterSpaced(call.filter, k, m);
    }
    CutArgsSpaced(call, inner, m);
  }

  /** The name, the arguments and what follows the closing parenthesis. */
  lemma {:induction false} CutArgsSpaced(call: Call, inner: Text, m: Full)
    requires MeetsCall(call, m) && WellSpaced(More(Delimiter(')'), inner), m)
    ensures var list := CutList(call.args, More(Delimiter(')'), inner));
            WellSpaced(More(CallName(call.name), More(Delimiter('('), list)), m)
            && WellSpaced(More(CallName(call.name), More(Delimiter('('), CutDistinct(true, list))), m)
    decreases call, 0
  {
    var list := CutList(call.args, More(Delimiter(')'), inner));
    CutListSpaced(call.args, More(Delimiter(')'), inner), m);
    TwoFit(CallName(call.name), Delimiter('('), list, m);
    DistinctSpaced(call.name, list, m);
  }

  lemma DistinctSpaced(name: string, list: Text, m: Full)
    requires CallNameLexes(name) && WellSpaced(list, m)
    ensures WellSpaced(More(CallName(name), More(Delimiter('('), CutDistinct(true, list))), m)
  {
    TwoFit(Key(DISTINCT), Blank, list, m);
    TwoFit(CallName(name), Delimiter('('), CutDistinct(true, list), m);
  }

  lemma {:induction false} CutFilterSpaced(o: Option<Expr>, k: Text, m: Full)
    requires MeetsOption(o, m) && WellSpaced(k, m) && Closes(k)
    ensures WellSpaced(CutFilter(o, k), m)
    decreases o, 0
  {
    if o.Some? {
      var inner := Cut(o.value, More(Delimiter(')'), k));
      CutSpaced(o.value, More(Delimiter(')'), k), m);
      ThreeFit(Delimiter('('), Key(WHERE), Blank, inner, m);
      SpacedFits(FILTER, More(Delimiter('('), More(Key(WHERE), More(Blank, inner))), m);
    }
  }

  lemma TwoWordsFit(a: Kind, b: Kind, k: Text, m: Full)
    requires WellSpaced(k, m) && HasSpelling(a) && HasSpelling(b)
    ensures WellSpaced(More(Key(a), More(Blank, More(Key(b), More(Blank, k)))), m)
  {
    TwoFit(Key(b), Blank, k, m);
    TwoFit(Key(a), Blank, More(Key(b), More(Blank, k)), m);
  }

  lemma {:induction false} CutPartsSpaced(e: Expr, k: Text, m: Full)
    requires e.Window? && Meets(e, m) && WellSpaced(k, m) && Follows(k, ')')
    ensures WellSpaced(CutParts(e, k), m)
    decreases e, 0
  {
    var Window(_, ps, os, f) := e;
    CutFrameSpaced(f, k, m);
    var gap1 := CutGap(os != [] && f.Some?, CutFrame(f, k));
    CutOrderSpaced(os, gap1, m);
    var gap2 := CutGap(ps != [] && (os != [] || f.Some?), CutOrder(os, gap1));
    CutPartitionSpaced(ps, gap2, m);
  }

  lemma {:induction false} CutPartitionSpaced(es: seq<Expr>, k: Text, m: Full)
    requires MeetsList(es, m) && WellSpaced(k, m) && (es != [] ==> Closes(k))
    ensures WellSpaced(CutPartition(es, k), m)
    decreases es, 2
  {
    if es != [] {
      CutListSpaced(es, k, m);
      TwoWordsFit(PARTITION, BY, CutList(es, k), m);
    }
  }

  lemma {:induction false} CutOrderSpaced(os: seq<OrderItem>, k: Text, m: Full)
    requires MeetsOrders(os, m) && WellSpaced(k, m) && (os != [] ==> Closes(k))
    ensures WellSpaced(CutOrder(os, k), m)
    decreases os, 1
  {
    if os != [] {
      CutItemsSpaced(os[1..], k, m);
      CutItemSpaced(os[0], CutItems(os[1..], k), m);
      TwoWordsFit(ORDER, BY, CutItem(os[0], CutItems(os[1..], k)), m);
    }
  }

  lemma {:induction false} CutItemsSpaced(os: seq<OrderItem>, k: Text, m: Full)
    requires MeetsOrders(os, m) && WellSpaced(k, m) && Closes(k)
    ensures WellSpaced(CutItems(os, k), m) && Closes(CutItems(os, k))
    decreases os, 0
  {
    if os != [] {
      CutItemsSpaced(os[1..], k, m);
      CutItemSpaced(os[0], CutItems(os[1..], k), m);
    }
  }

  lemma {:induction false} CutItemSpaced(o: OrderItem, k: Text, m: Full)
    requires MeetsOrder(o, m) && WellSpaced(k, m) && Closes(k)
    ensures WellSpaced(CutItem(o, k), m)
    decreases o, 0
  {
    CutNullsSpaced(o.nulls, k, m);
    WordFits(DESC, CutNulls(o.nulls, k), m);
    CutSpaced(o.expr, CutWord(o.descending, DESC, CutNulls(o.nulls, k)), m);
  }

  lemma CutNullsSpaced(n: Option<Nulls>, k: Text, m: Full)
    requires WellSpaced(k, m) && Closes(k)
    ensures WellSpaced(CutNulls(n, k), m) && Closes(CutNulls(n, k))
  {
    if n.Some? {
      SpacedFits(NULLS, More(Key(if n.value.NullsFirst? then FIRST else LAST), k), m);
    }
  }

  lemma {:induction false} CutFrameSpaced(f: Option<Frame>, k: Text, m: Full)
    requires MeetsFrame(f, m) && WellSpaced(k, m) && Closes(k)
    ensures WellSpaced(CutFrame(f, k), m)
    decreases f, 0
  {
    if f.Some? {
      var w := f.value;
      if w.end.Some? {
        CutBoundSpaced(w.end.value, k, m);
        SpacedFits(AND, CutBound(w.end.value, k), m);
      }
      CutBoundSpaced(w.start, CutEnd(w.end, k), m);
      TwoFit(Key(if w.rows then ROWS else RANGE), Blank, CutBound(w.start, CutEnd(w.end, k)), m);
    }
  }

  lemma TwoKeysFit(a: Kind, b: Kind, k: Text, m: Full)
    requires WellSpaced(k, m) && Closes(k) && HasSpelling(a) && HasSpelling(b)
    ensures WellSpaced(More(Key(a), More(Blank, More(Key(b), k))), m)
  {
    WordFits(b, k, m);
    TwoFit(Key(a), Blank, More(Key(b), k), m);
  }

  lemma {:induction false} CutBoundSpaced(b: Bound, k: Text, m: Full)
    requires MeetsBound(b, m) && WellSpaced(k, m) && Closes(k)
    ensures WellSpaced(CutBound(b, k), m)
    decreases b, 0
  {
    match b
    case CurrentRow => TwoKeysFit(CURRENT, ROW, k, m);
    case Unbounded(f) => TwoKeysFit(UNBOUNDED, if f then FOLLOWING else PRECEDING, k, m);
    case Offset(offset, f) =>
      var side := if f then FOLLOWING else PRECEDING;
      WordFits(side, k, m);
      if offset.Some? {
        CutSpaced(offset.value, More(Blank, More(Key(side), k)), m);
      }
  }
}
