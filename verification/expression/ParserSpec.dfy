/**
 The parser as functions from a state (tokens left, errors so far) to a result. Each function
 specifies the method of the same grammar rule in class Parser; the grammar's eight levels are
 the first argument of `Parse`.
 */
module ParserSpec {
  import opened Wrappers
  import opened Ast
  import opened Tokens

  datatype ParseError =
    | Expected(kind: Kind)
    | ExpectedIdentifier
    | ExpectedType(got: Token)
    | Unexpected(got: Token)
    | TooDeep
    | TooManyWhens
    | NoWhen
    | ListTooLong

  datatype State = State(toks: TokenList, errs: seq<ParseError>)
  datatype Result<+T> = Result(val: T, st: State)

  /** Parsing never gives tokens back and never takes errors back. */
  predicate After(s: State, r: State) {
    Length(r.toks) <= Length(s.toks) && |s.errs| <= |r.errs| && (|r.errs| == |s.errs| ==> r.errs == s.errs)
  }

  // ----- token helpers (parse.ts:162-197) -----

  predicate At(s: State, k: Kind) {
    Peek(s.toks) == K(k)
  }

  function LookAhead(s: State): Token {
    if s.toks.End? then K(EOF) else Peek(s.toks.tail)
  }

  function Advance(s: State): (r: State)
    ensures After(s, r)
    ensures s.toks.Cons? ==> Length(r.toks) == Length(s.toks) - 1
  {
    if s.toks.End? then s else s.(toks := s.toks.tail)
  }

  function Fail(s: State, e: ParseError): (r: State)
    ensures After(s, r) && |r.errs| == |s.errs| + 1
  {
    s.(errs := s.errs + [e])
  }

  function Expect(s: State, k: Kind): (r: State)
    ensures After(s, r)
  {
    if At(s, k) then Advance(s) else Fail(s, Expected(k))
  }

  function Skip(s: State, k: Kind): (r: State)
    ensures After(s, r)
  {
    if At(s, k) then Advance(s) else s
  }

  // ----- expressions -----

  function ParseExpr(s: State, d: nat): (r: Result<Expr>)
    ensures After(s, r.st)
    decreases Length(s.toks), 59
  {
    if d >= MAX_DEPTH then Result(NullLiteral, Fail(s, TooDeep)) else Parse(1, s, d + 1)
  }

  function Parse(level: nat, s: State, d: nat): (r: Result<Expr>)
    requires 1 <= level <= 8
    ensures After(s, r.st)
    decreases Length(s.toks), 60 - 2 * level
  {
    if level == 3 then
      if At(s, NOT) then
        var x := Parse(3, Advance(s), d);
        Result(LogicalNot(x.val), x.st)
      else Parse(4, s, d)
    else if level == 4 then Comparison(s, d)
    else if level == 7 then
      if At(s, MINUS) then
        if d >= MAX_DEPTH then Result(NullLiteral, Fail(Advance(s), TooDeep))
        else
          var x := Parse(7, Advance(s), d + 1);
          Result(Negate(x.val), x.st)
      else Parse(8, s, d)
    else if level == 8 then Primary(s, d)
    else Loop(level, Parse(level + 1, s, d), d)
  }

  predicate ChainLevel(level: nat) {
    level == 1 || level == 2 || level == 5 || level == 6
  }

  /** The operator that continues a left-associative chain at this level, if the token is one. */
  function ChainOp(level: nat, t: Token): Option<BinaryOp> {
    if level == 1 && t == K(OR) then Some(Or)
    else if level == 2 && t == K(AND) then Some(And)
    else if level == 5 && t == K(PLUS) then Some(Add)
    else if level == 5 && t == K(MINUS) then Some(Sub)
    else if level == 5 && t == K(PIPE_PIPE) then Some(Concat)
    else if level == 6 && t == K(STAR) then Some(Mul)
    else if level == 6 && t == K(SLASH) then Some(Div)
    else if level == 6 && t == K(PERCENT) then Some(Mod)
    else None
  }

  /** The while loops of orExpr, andExpr, addition and multiply. */
  function Loop(level: nat, left: Result<Expr>, d: nat): (r: Result<Expr>)
    requires ChainLevel(level)
    ensures After(left.st, r.st)
    decreases Length(left.st.toks), 0
  {
    match ChainOp(level, Peek(left.st.toks))
    case None => left
    case Some(op) =>
      var right := Parse(level + 1, Advance(left.st), d);
      Loop(level, Result(Binary(op, left.val, right.val), right.st), d)
  }

  function CompareOp(t: Token): Option<BinaryOp> {
    if t == K(EQ) then Some(Eq)
    else if t == K(NEQ) then Some(Neq)
    else if t == K(LTGT) then Some(LtGt)
    else if t == K(LT) then Some(Lt)
    else if t == K(LTE) then Some(Lte)
    else if t == K(GT) then Some(Gt)
    else if t == K(GTE) then Some(Gte)
    else None
  }

  predicate AtPredicate(s: State, k: Kind) {
    At(s, k) || (At(s, NOT) && LookAhead(s) == K(k))
  }

  function Comparison(s: State, d: nat): (r: Result<Expr>)
    ensures After(s, r.st)
    decreases Length(s.toks), 51
  {
    ComparisonTail(Parse(5, s, d), d)
  }

  /** What may follow the first operand: one predicate or one comparison, never a chain of them. */
  function ComparisonTail(left: Result<Expr>, d: nat): (r: Result<Expr>)
    ensures After(left.st, r.st)
    decreases Length(left.st.toks), 27
  {
    var s := left.st;
    if At(s, IS) then IsNullTail(left.val, Advance(s))
    else if AtPredicate(s, BETWEEN) then BetweenTail(left.val, At(s, NOT), Expect(Skip(s, NOT), BETWEEN), d)
    else if AtPredicate(s, IN) then InTail(left.val, At(s, NOT), Expect(Skip(s, NOT), IN), d)
    else if AtPredicate(s, LIKE) then LikeTail(left.val, At(s, NOT), Expect(Skip(s, NOT), LIKE), d)
    else if CompareOp(Peek(s.toks)).Some? then
      CompareTail(left.val, CompareOp(Peek(s.toks)).value, Advance(s), d)
    else left
  }

  function IsNullTail(left: Expr, s: State): (r: Result<Expr>)
    ensures After(s, r.st)
  {
    Result(IsNull(left, At(s, NOT)), Expect(Skip(s, NOT), NULL))
  }

  function BetweenTail(left: Expr, negated: bool, s: State, d: nat): (r: Result<Expr>)
    ensures After(s, r.st)
    decreases Length(s.toks), 70
  {
    var low := Parse(5, s, d);
    var high := Parse(5, Expect(low.st, AND), d);
    Result(Between(left, low.val, high.val, negated), high.st)
  }

  function InTail(left: Expr, negated: bool, s: State, d: nat): (r: Result<Expr>)
    ensures After(s, r.st)
    decreases Length(s.toks), 70
  {
    var values := ExprList(Expect(s, LPAREN), d);
    Result(InList(left, values.val, negated), Expect(values.st, RPAREN))
  }

  function LikeTail(left: Expr, negated: bool, s: State, d: nat): (r: Result<Expr>)
    ensures After(s, r.st)
    decreases Length(s.toks), 70
  {
    var pattern := Parse(5, s, d);
    Result(Like(left, pattern.val, negated), pattern.st)
  }

  function CompareTail(left: Expr, op: BinaryOp, s: State, d: nat): (r: Result<Expr>)
    ensures After(s, r.st)
    decreases Length(s.toks), 70
  {
    var right := Parse(5, s, d);
    Result(Binary(op, left, right.val), right.st)
  }

  function Primary(s: State, d: nat): (r: Result<Expr>)
    ensures After(s, r.st)
    decreases Length(s.toks), 1
  {
    var t := Peek(s.toks);
    var next := Advance(s);
    if t.INTEGER? then Result(IntLiteral(t.text), next)
    else if t.DECIMAL? then Result(FloatLiteral(t.text), next)
    else if t.STRING? then Result(StringLiteral(t.text), next)
    else if t == K(TRUE) then Result(BoolLiteral(true), next)
    else if t == K(FALSE) then Result(BoolLiteral(false), next)
    else if t == K(NULL) then Result(NullLiteral, next)
    else if t == K(CASE) then CaseExpr(next, d)
    else if t == K(CAST) then CastExpr(next, d)
    else if t == K(LPAREN) then
      var x := ParseExpr(next, d);
      Result(x.val, Expect(x.st, RPAREN))
    else if t == K(STAR) then Result(Star(None), next)
    else if (t == K(FIRST) || t == K(LAST)) && LookAhead(s) == K(LPAREN) then
      FunctionCallExpr(if t == K(FIRST) then "FIRST" else "LAST", next, d)
    else if t.IDENT? then IdentExpr(t.text, next, d)
    else Result(NullLiteral, Advance(Fail(s, Unexpected(t))))
  }

  function IdentExpr(name: string, s: State, d: nat): (r: Result<Expr>)
    ensures After(s, r.st)
    decreases Length(s.toks), 68
  {
    if At(s, LPAREN) then FunctionCallExpr(name, s, d)
    else if At(s, DOT) then
      var s1 := Advance(s);
      if At(s1, STAR) then Result(Star(Some(name)), Advance(s1))
      else if s1.toks.Cons? && s1.toks.head.IDENT? then
        Result(ColumnRef(Some(name), s1.toks.head.text), Advance(s1))
      else Result(ColumnRef(Some(name), TokenText(Peek(s1.toks))), Fail(s1, ExpectedIdentifier))
    else Result(ColumnRef(None, name), s)
  }

  /** Error recovery keeps the text of whatever stands where a column name was expected. */
  function TokenText(t: Token): string {
    match t
    case INTEGER(x) => x
    case DECIMAL(x) => x
    case STRING(x) => x
    case IDENT(x) => x
    case _ => ""
  }

  function FunctionCallExpr(name: string, s: State, d: nat): (r: Result<Expr>)
    ensures After(s, r.st)
    decreases Length(s.toks), 67
  {
    var s1 := Expect(s, LPAREN);
    var upper := Upper(name);
    if upper == "COUNT" && At(s1, STAR) then CountStar(upper, Expect(Advance(s1), RPAREN), d)
    else CallBody(upper, At(s1, DISTINCT), Skip(s1, DISTINCT), d)
  }

  function CountStar(name: string, s: State, d: nat): (r: Result<Expr>)
    ensures After(s, r.st)
    decreases Length(s.toks), 65
  {
    var f := TryFilter(s, d);
    TryWindow(AggregateCall(name, [Star(None)], false, f.val), f.st, d)
  }

  function CallBody(name: string, distinct: bool, s: State, d: nat): (r: Result<Expr>)
    ensures After(s, r.st)
    decreases Length(s.toks), 66
  {
    var args := CallArgs(s, d);
    CallEnd(name, distinct, args.val, Expect(args.st, RPAREN), d)
  }

  function CallEnd(name: string, distinct: bool, args: seq<Expr>, s: State, d: nat): (r: Result<Expr>)
    ensures After(s, r.st)
    decreases Length(s.toks), 65
  {
    if name in AGGREGATES then
      var f := TryFilter(s, d);
      TryWindow(AggregateCall(name, args, distinct, f.val), f.st, d)
    else TryWindow(FunctionCall(name, args), s, d)
  }

  function CallArgs(s: State, d: nat): (r: Result<seq<Expr>>)
    ensures After(s, r.st)
    decreases Length(s.toks), 63
  {
    if At(s, RPAREN) then Result([], s) else ExprList(s, d)
  }

  function TryFilter(s: State, d: nat): (r: Result<Option<Expr>>)
    ensures After(s, r.st)
    decreases Length(s.toks), 62
  {
    if At(s, FILTER) then
      var x := ParseExpr(Expect(Expect(Advance(s), LPAREN), WHERE), d);
      Result(Some(x.val), Expect(x.st, RPAREN))
    else Result(None, s)
  }

  function TryWindow(call: Call, s: State, d: nat): (r: Result<Expr>)
    ensures After(s, r.st)
    decreases Length(s.toks), 64
  {
    if At(s, OVER) then
      var s1 := Expect(Advance(s), LPAREN);
      var parts := Partitioning(s1, d);
      var orders := Ordering(parts.st, d);
      var frame := Framing(orders.st, d);
      Result(Window(call, parts.val, orders.val, frame.val), Expect(frame.st, RPAREN))
    else Result(CallExpr(call), s)
  }

  function Partitioning(s: State, d: nat): (r: Result<seq<Expr>>)
    ensures After(s, r.st)
    decreases Length(s.toks), 63
  {
    if At(s, PARTITION) then ExprList(Expect(Advance(s), BY), d) else Result([], s)
  }

  function Ordering(s: State, d: nat): (r: Result<seq<OrderItem>>)
    ensures After(s, r.st)
    decreases Length(s.toks), 63
  {
    if At(s, ORDER) then OrderByList(Expect(Advance(s), BY), d) else Result([], s)
  }

  function Framing(s: State, d: nat): (r: Result<Option<Frame>>)
    ensures After(s, r.st)
    decreases Length(s.toks), 63
  {
    if At(s, ROWS) || At(s, RANGE) then WindowFrame(s, d) else Result(None, s)
  }

  function OrderByList(s: State, d: nat): (r: Result<seq<OrderItem>>)
    ensures After(s, r.st)
    decreases Length(s.toks), 62
  {
    var first := OrderByItem(s, d);
    var rest := OrderByTail(first.st, d);
    Result([first.val] + rest.val, rest.st)
  }

  function OrderByTail(s: State, d: nat): (r: Result<seq<OrderItem>>)
    ensures After(s, r.st)
    decreases Length(s.toks), 0
  {
    if At(s, COMMA) then
      var first := OrderByItem(Advance(s), d);
      var rest := OrderByTail(first.st, d);
      Result([first.val] + rest.val, rest.st)
    else Result([], s)
  }

  function OrderByItem(s: State, d: nat): (r: Result<OrderItem>)
    ensures After(s, r.st)
    decreases Length(s.toks), 61
  {
    var x := ParseExpr(s, d);
    var s1 := if At(x.st, ASC) then Advance(x.st) else Skip(x.st, DESC);
    var nulls := NullsOrder(s1);
    Result(OrderItem(x.val, At(x.st, DESC), nulls.val), nulls.st)
  }

  function NullsOrder(s: State): (r: Result<Option<Nulls>>)
    ensures After(s, r.st)
  {
    if !At(s, NULLS) then Result(None, s)
    else
      var s1 := Advance(s);
      if At(s1, FIRST) then Result(Some(NullsFirst), Advance(s1)) else Result(Some(NullsLast), Expect(s1, LAST))
  }

  function WindowFrame(s: State, d: nat): (r: Result<Option<Frame>>)
    requires At(s, ROWS) || At(s, RANGE)
    ensures After(s, r.st)
    decreases Length(s.toks), 0
  {
    var start := FrameBound(Advance(s), d);
    if At(start.st, AND) then
      var end := FrameBound(Advance(start.st), d);
      Result(Some(Frame(At(s, ROWS), start.val, Some(end.val))), end.st)
    else Result(Some(Frame(At(s, ROWS), start.val, None)), start.st)
  }

  function FrameBound(s: State, d: nat): (r: Result<Bound>)
    ensures After(s, r.st)
    decreases Length(s.toks), 61
  {
    if At(s, UNBOUNDED) then
      var s1 := Advance(s);
      if At(s1, PRECEDING) then Result(Unbounded(false), Advance(s1))
      else Result(Unbounded(true), Expect(s1, FOLLOWING))
    else if At(s, CURRENT) then Result(CurrentRow, Expect(Advance(s), ROW))
    else
      var x := ParseExpr(s, d);
      if At(x.st, PRECEDING) then Result(Offset(Some(x.val), false), Advance(x.st))
      else Result(Offset(Some(x.val), true), Expect(x.st, FOLLOWING))
  }

  function CaseExpr(s: State, d: nat): (r: Result<Expr>)
    ensures After(s, r.st)
    decreases Length(s.toks), 62
  {
    var base := CaseBase(s, d);
    var whens := WhenLoop(0, base.st, d);
    var otherwise := CaseElse(if whens.val == [] then Fail(whens.st, NoWhen) else whens.st, d);
    Result(Case(base.val, whens.val, otherwise.val), Expect(otherwise.st, END))
  }

  function CaseBase(s: State, d: nat): (r: Result<Option<Expr>>)
    ensures After(s, r.st)
    decreases Length(s.toks), 61
  {
    if At(s, WHEN) then Result(None, s)
    else
      var x := ParseExpr(s, d);
      Result(Some(x.val), x.st)
  }

  function CaseElse(s: State, d: nat): (r: Result<Option<Expr>>)
    ensures After(s, r.st)
    decreases Length(s.toks), 61
  {
    if At(s, ELSE) then
      var x := ParseExpr(Advance(s), d);
      Result(Some(x.val), x.st)
    else Result(None, s)
  }

  function WhenLoop(n: nat, s: State, d: nat): (r: Result<seq<When>>)
    ensures After(s, r.st)
    decreases Length(s.toks), 0
  {
    if !At(s, WHEN) then Result([], s)
    else if n >= MAX_WHEN_CLAUSES then Result([], Fail(Advance(s), TooManyWhens))
    else
      var condition := ParseExpr(Advance(s), d);
      var result := ParseExpr(Expect(condition.st, THEN), d);
      var rest := WhenLoop(n + 1, result.st, d);
      Result([When(condition.val, result.val)] + rest.val, rest.st)
  }

  function CastExpr(s: State, d: nat): (r: Result<Expr>)
    ensures After(s, r.st)
    decreases Length(s.toks), 62
  {
    var x := ParseExpr(Expect(s, LPAREN), d);
    var target := TypeName(Expect(x.st, AS));
    Result(Cast(x.val, target.val), Expect(target.st, RPAREN))
  }

  function TypeName(s: State): (r: Result<ScalarType>)
    ensures After(s, r.st)
  {
    var t := Peek(s.toks);
    if t.TYPE? && CastTarget(t.scalar) then Result(t.scalar, Advance(s))
    else Result(UnknownType, Advance(Fail(s, ExpectedType(t))))
  }

  function ExprList(s: State, d: nat): (r: Result<seq<Expr>>)
    ensures After(s, r.st)
    decreases Length(s.toks), 61
  {
    var first := ParseExpr(s, d);
    var rest := ListTail(1, first.st, d);
    Result([first.val] + rest.val, rest.st)
  }

  function ListTail(n: nat, s: State, d: nat): (r: Result<seq<Expr>>)
    ensures After(s, r.st)
    decreases Length(s.toks), 0
  {
    if !At(s, COMMA) then Result([], s)
    else if n >= MAX_LIST_LENGTH then Result([], Fail(Advance(s), ListTooLong))
    else
      var first := ParseExpr(Advance(s), d);
      var rest := ListTail(n + 1, first.st, d);
      Result([first.val] + rest.val, rest.st)
  }

  /** The part of `parse` after tokenizing: all tokens must be used, and any error discards the tree. */
  function ParseTokens(ts: TokenList): Result<Option<Expr>> {
    var r := ParseExpr(State(ts, []), 0);
    var s := if r.st.toks.End? then r.st else Fail(r.st, Unexpected(r.st.toks.head));
    Result(if s.errs == [] then Some(r.val) else None, s)
  }
}
