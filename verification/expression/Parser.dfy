/**
 The parser as the source writes it: an object that walks over the tokens, collects errors and
 counts nesting. Every method is proved to compute what its rule in ParserSpec says.
 */
module ParserClass {
  import opened Wrappers
  import opened Ast
  import opened Tokens
  import Spec = ParserSpec

  /** The tokens from `pos` on, up to the closing EOF. */
  function From(ts: seq<Token>, pos: nat): TokenList
    requires pos < |ts| && ts[|ts| - 1] == K(EOF)
    decreases |ts| - pos
  {
    if ts[pos] == K(EOF) then End else Cons(ts[pos], From(ts, pos + 1))
  }

  class Parser {
    const tokens: seq<Token>
    var pos: nat
    var errors: seq<Spec.ParseError>
    var depth: nat

    ghost predicate Valid()
      reads this
    {
      pos < |tokens| && tokens[|tokens| - 1] == K(EOF)
    }

    ghost function Now(): Spec.State
      requires Valid()
      reads this
    {
      Spec.State(From(tokens, pos), errors)
    }

    constructor (ts: seq<Token>)
      requires |ts| > 0 && ts[|ts| - 1] == K(EOF)
      ensures Valid() && tokens == ts && Now() == Spec.State(From(ts, 0), []) && depth == 0
    {
      tokens := ts;
      pos, errors, depth := 0, [], 0;
    }

    // ----- helpers -----

    method Current() returns (t: Token)
      requires Valid()
      ensures t == Peek(Now().toks)
    {
      t := tokens[pos];
    }

    method Check(kind: Kind) returns (b: bool)
      requires Valid()
      ensures b == Spec.At(Now(), kind)
    {
      b := tokens[pos] == K(kind);
    }

    method LookAhead() returns (t: Token)
      requires Valid()
      ensures Now().toks.Cons? ==> t == Spec.LookAhead(Now())
    {
      assert tokens[pos] != K(EOF) ==> Now().toks.tail == From(tokens, pos + 1);
      t := if pos + 1 < |tokens| then tokens[pos + 1] else K(EOF);
    }

    method Advance() returns (t: Token)
      requires Valid()
      modifies this`pos
      ensures Valid() && t == old(tokens[pos]) && Now() == Spec.Advance(old(Now()))
    {
      t := tokens[pos];
      if t != K(EOF) {
        pos := pos + 1;
      }
    }

    method Match(kind: Kind) returns (b: bool)
      requires Valid()
      modifies this`pos
      ensures Valid() && b == Spec.At(old(Now()), kind) && Now() == Spec.Skip(old(Now()), kind)
    {
      b := Check(kind);
      if b {
        var _ := Advance();
      }
    }

    method Error(e: Spec.ParseError)
      requires Valid()
      modifies this`errors
      ensures Valid() && Now() == Spec.Fail(old(Now()), e)
    {
      errors := errors + [e];
    }

    method Expect(kind: Kind)
      requires Valid()
      modifies this`pos, this`errors
      ensures Valid() && Now() == Spec.Expect(old(Now()), kind)
    {
      var there := Check(kind);
      if there {
        var _ := Advance();
      } else {
        Error(Spec.Expected(kind));
      }
    }

    // ----- expressions -----

    method ParseExpr() returns (e: Expr)
      requires Valid()
      modifies this`pos, this`errors, this`depth
      ensures Valid() && depth == old(depth)
      ensures Spec.Result(e, Now()) == Spec.ParseExpr(old(Now()), old(depth))
      decreases Length(Now().toks), 59
    {
      if depth >= MAX_DEPTH {
        Error(Spec.TooDeep);
        return NullLiteral;
      }
      depth := depth + 1;
      e := OrExpr();
      depth := depth - 1;
    }

    method OrExpr() returns (left: Expr)
      requires Valid()
      modifies this`pos, this`errors, this`depth
      ensures Valid() && depth == old(depth)
      ensures Spec.Result(left, Now()) == Spec.Parse(1, old(Now()), old(depth))
      decreases Length(Now().toks), 58
    {
      left := AndExpr();
      while true
        invariant Valid() && depth == old(depth)
        invariant Spec.Loop(1, Spec.Result(left, Now()), depth) == Spec.Parse(1, old(Now()), depth)
        decreases Length(Now().toks)
      {
        var more := Match(OR);
        if !more {
          break;
        }
        var right := AndExpr();
        left := Binary(Or, left, right);
      }
    }

    method AndExpr() returns (left: Expr)
      requires Valid()
      modifies this`pos, this`errors, this`depth
      ensures Valid() && depth == old(depth)
      ensures Spec.Result(left, Now()) == Spec.Parse(2, old(Now()), old(depth))
      decreases Length(Now().toks), 56
    {
      left := NotExpr();
      while true
        invariant Valid() && depth == old(depth)
        invariant Spec.Loop(2, Spec.Result(left, Now()), depth) == Spec.Parse(2, old(Now()), depth)
        decreases Length(Now().toks)
      {
        var more := Match(AND);
        if !more {
          break;
        }
        var right := NotExpr();
        left := Binary(And, left, right);
      }
    }

    method NotExpr() returns (e: Expr)
      requires Valid()
      modifies this`pos, this`errors, this`depth
      ensures Valid() && depth == old(depth)
      ensures Spec.Result(e, Now()) == Spec.Parse(3, old(Now()), old(depth))
      decreases Length(Now().toks), 54
    {
      var negated := Match(NOT);
      if negated {
        var operand := NotExpr();
        e := LogicalNot(operand);
      } else {
        e := Comparison();
      }
    }

    method Comparison() returns (e: Expr)
      requires Valid()
      modifies this`pos, this`errors, this`depth
      ensures Valid() && depth == old(depth)
      ensures Spec.Result(e, Now()) == Spec.Parse(4, old(Now()), old(depth))
      decreases Length(Now().toks), 52
    {
      var left := Addition();
      ghost var s := Now();
      assert Spec.Parse(4, old(Now()), depth) == Spec.ComparisonTail(Spec.Result(left, s), depth);
      var t := Current();
      var next := LookAhead();
      var isNull := Match(IS);
      if isNull {
        var negated := Match(NOT);
        Expect(NULL);
        return IsNull(left, negated);
      }
      if t == K(BETWEEN) || (t == K(NOT) && next == K(BETWEEN)) {
        e := BetweenTail(left);
        return;
      }
      if t == K(IN) || (t == K(NOT) && next == K(IN)) {
        e := InTail(left);
        return;
      }
      if t == K(LIKE) || (t == K(NOT) && next == K(LIKE)) {
        e := LikeTail(left);
        return;
      }
      var op := MatchCompOp();
      if op.Some? {
        assert Spec.ComparisonTail(Spec.Result(left, s), depth)
            == Spec.CompareTail(left, op.value, Spec.Advance(s), depth);
        var right := Addition();
        return Binary(op.value, left, right);
      }
      e := left;
    }

    method BetweenTail(left: Expr) returns (e: Expr)
      requires Valid() && Spec.AtPredicate(Now(), BETWEEN)
      modifies this`pos, this`errors, this`depth
      ensures Valid() && depth == old(depth)
      ensures Spec.Result(e, Now()) == Spec.BetweenTail(left, old(Spec.At(Now(), NOT)), Spec.Expect(Spec.Skip(old(Now()), NOT), BETWEEN), old(depth))
      decreases Length(Now().toks), 0
    {
      var negated := Match(NOT);
      Expect(BETWEEN);
      var low := Addition();
      Expect(AND);
      var high := Addition();
      e := Between(left, low, high, negated);
    }

    method InTail(left: Expr) returns (e: Expr)
      requires Valid() && Spec.AtPredicate(Now(), IN)
      modifies this`pos, this`errors, this`depth
      ensures Valid() && depth == old(depth)
      ensures Spec.Result(e, Now()) == Spec.InTail(left, old(Spec.At(Now(), NOT)), Spec.Expect(Spec.Skip(old(Now()), NOT), IN), old(depth))
      decreases Length(Now().toks), 0
    {
      var negated := Match(NOT);
      Expect(IN);
      Expect(LPAREN);
      var values := ExprList();
      Expect(RPAREN);
      e := InList(left, values, negated);
    }

    method LikeTail(left: Expr) returns (e: Expr)
      requires Valid() && Spec.AtPredicate(Now(), LIKE)
      modifies this`pos, this`errors, this`depth
      ensures Valid() && depth == old(depth)
      ensures Spec.Result(e, Now()) == Spec.LikeTail(left, old(Spec.At(Now(), NOT)), Spec.Expect(Spec.Skip(old(Now()), NOT), LIKE), old(depth))
      decreases Length(Now().toks), 0
    {
      var negated := Match(NOT);
      Expect(LIKE);
      var pattern := Addition();
      e := Like(left, pattern, negated);
    }

    method MatchCompOp() returns (op: Option<BinaryOp>)
      requires Valid()
      modifies this`pos
      ensures Valid() && op == Spec.CompareOp(Peek(old(Now()).toks))
      ensures Now() == if op.Some? then Spec.Advance(old(Now())) else old(Now())
    {
      var t := Current();
      op := Spec.CompareOp(t);
      if op.Some? {
        var _ := Advance();
      }
    }

    method Addition() returns (left: Expr)
      requires Valid()
      modifies this`pos, this`errors, this`depth
      ensures Valid() && depth == old(depth)
      ensures Spec.Result(left, Now()) == Spec.Parse(5, old(Now()), old(depth))
      decreases Length(Now().toks), 50
    {
      left := Multiply();
      while true
        invariant Valid() && depth == old(depth)
        invariant Spec.Loop(5, Spec.Result(left, Now()), depth) == Spec.Parse(5, old(Now()), depth)
        decreases Length(Now().toks)
      {
        var t := Current();
        if t != K(PLUS) && t != K(MINUS) && t != K(PIPE_PIPE) {
          break;
        }
        var _ := Advance();
        var right := Multiply();
        left := Binary(if t == K(PLUS) then Add else if t == K(MINUS) then Sub else Concat, left, right);
      }
    }

    method Multiply() returns (left: Expr)
      requires Valid()
      modifies this`pos, this`errors, this`depth
      ensures Valid() && depth == old(depth)
      ensures Spec.Result(left, Now()) == Spec.Parse(6, old(Now()), old(depth))
      decreases Length(Now().toks), 48
    {
      left := Unary();
      while true
        invariant Valid() && depth == old(depth)
        invariant Spec.Loop(6, Spec.Result(left, Now()), depth) == Spec.Parse(6, old(Now()), depth)
        decreases Length(Now().toks)
      {
        var t := Current();
        if t != K(STAR) && t != K(SLASH) && t != K(PERCENT) {
          break;
        }
        var _ := Advance();
        var right := Unary();
        left := Binary(if t == K(STAR) then Mul else if t == K(SLASH) then Div else Mod, left, right);
      }
    }

    method Unary() returns (e: Expr)
      requires Valid()
      modifies this`pos, this`errors, this`depth
      ensures Valid() && depth == old(depth)
      ensures Spec.Result(e, Now()) == Spec.Parse(7, old(Now()), old(depth))
      decreases Length(Now().toks), 46
    {
      var minus := Match(MINUS);
      if minus {
        if depth >= MAX_DEPTH {
          Error(Spec.TooDeep);
          return NullLiteral;
        }
        depth := depth + 1;
        var operand := Unary();
        depth := depth - 1;
        e := Negate(operand);
      } else {
        e := Primary();
      }
    }

    method Primary() returns (e: Expr)
      requires Valid()
      modifies this`pos, this`errors, this`depth
      ensures Valid() && depth == old(depth)
      ensures Spec.Result(e, Now()) == Spec.Parse(8, old(Now()), old(depth))
      decreases Length(Now().toks), 44
    {
      ghost var s := Now();
      assert Spec.Parse(8, s, depth) == Spec.Primary(s, depth);
      var t := Current();
      var next := LookAhead();
      if t.INTEGER? || t.DECIMAL? || t.STRING? || t == K(TRUE) || t == K(FALSE) || t == K(NULL) || t == K(STAR) {
        var _ := Advance();
        e := Literal(t);
      } else if t == K(CASE) {
        e := CaseExpr();
      } else if t == K(CAST) {
        e := CastExpr();
      } else if t == K(LPAREN) {
        var _ := Advance();
        e := ParseExpr();
        Expect(RPAREN);
      } else if (t == K(FIRST) || t == K(LAST)) && next == K(LPAREN) {
        var _ := Advance();
        e := FunctionCallExpr(if t == K(FIRST) then "FIRST" else "LAST");
      } else if t.IDENT? {
        e := IdentExpr();
      } else {
        Error(Spec.Unexpected(t));
        var _ := Advance();
        e := NullLiteral;
      }
    }

    static function Literal(t: Token): Expr {
      match t
      case INTEGER(x) => IntLiteral(x)
      case DECIMAL(x) => FloatLiteral(x)
      case STRING(x) => StringLiteral(x)
      case K(TRUE) => BoolLiteral(true)
      case K(FALSE) => BoolLiteral(false)
      case K(STAR) => Star(None)
      case _ => NullLiteral
    }

    method IdentExpr() returns (e: Expr)
      requires Valid() && Now().toks.Cons? && Now().toks.head.IDENT?
      modifies this`pos, this`errors, this`depth
      ensures Valid() && depth == old(depth)
      ensures Spec.Result(e, Now()) == Spec.IdentExpr(old(Now()).toks.head.text, Spec.Advance(old(Now())), old(depth))
      decreases Length(Now().toks), 0
    {
      var t := Advance();
      var name := t.text;
      var call := Check(LPAREN);
      if call {
        e := FunctionCallExpr(name);
        return;
      }
      var dotted := Match(DOT);
      if !dotted {
        return ColumnRef(None, name);
      }
      var star := Match(STAR);
      if star {
        return Star(Some(name));
      }
      var column := Current();
      if column.IDENT? {
        var _ := Advance();
      } else {
        Error(Spec.ExpectedIdentifier);
      }
      e := ColumnRef(Some(name), Spec.TokenText(column));
    }

    method FunctionCallExpr(name: string) returns (e: Expr)
      requires Valid()
      modifies this`pos, this`errors, this`depth
      ensures Valid() && depth == old(depth)
      ensures Spec.Result(e, Now()) == Spec.FunctionCallExpr(name, old(Now()), old(depth))
      decreases Length(Now().toks), 67
    {
      Expect(LPAREN);
      var upper := Upper(name);
      var star := Check(STAR);
      if upper == "COUNT" && star {
        var _ := Advance();
        Expect(RPAREN);
        var filter := TryParseFilter();
        e := TryParseWindow(AggregateCall(upper, [Star(None)], false, filter));
        return;
      }
      var distinct := Match(DISTINCT);
      e := CallBody(upper, distinct);
    }

    method CallBody(name: string, distinct: bool) returns (e: Expr)
      requires Valid()
      modifies this`pos, this`errors, this`depth
      ensures Valid() && depth == old(depth)
      ensures Spec.Result(e, Now()) == Spec.CallBody(name, distinct, old(Now()), old(depth))
      decreases Length(Now().toks), 66
    {
      var args: seq<Expr> := [];
      var empty := Check(RPAREN);
      if !empty {
        args := ExprList();
      }
      Expect(RPAREN);
      if name in AGGREGATES {
        var filter := TryParseFilter();
        e := TryParseWindow(AggregateCall(name, args, distinct, filter));
      } else {
        e := TryParseWindow(FunctionCall(name, args));
      }
    }

    method TryParseFilter() returns (f: Option<Expr>)
      requires Valid()
      modifies this`pos, this`errors, this`depth
      ensures Valid() && depth == old(depth)
      ensures Spec.Result(f, Now()) == Spec.TryFilter(old(Now()), old(depth))
      decreases Length(Now().toks), 62
    {
      var there := Match(FILTER);
      if !there {
        return None;
      }
      Expect(LPAREN);
      Expect(WHERE);
      var e := ParseExpr();
      Expect(RPAREN);
      f := Some(e);
    }

    method TryParseWindow(call: Call) returns (e: Expr)
      requires Valid()
      modifies this`pos, this`errors, this`depth
      ensures Valid() && depth == old(depth)
      ensures Spec.Result(e, Now()) == Spec.TryWindow(call, old(Now()), old(depth))
      decreases Length(Now().toks), 64
    {
      var there := Match(OVER);
      if !there {
        return CallExpr(call);
      }
      Expect(LPAREN);
      var partitionBy := Partitioning();
      var orderBy := Ordering();
      var frame := Framing();
      Expect(RPAREN);
      e := Window(call, partitionBy, orderBy, frame);
    }

    method Partitioning() returns (exprs: seq<Expr>)
      requires Valid()
      modifies this`pos, this`errors, this`depth
      ensures Valid() && depth == old(depth)
      ensures Spec.Result(exprs, Now()) == Spec.Partitioning(old(Now()), old(depth))
      decreases Length(Now().toks), 63
    {
      exprs := [];
      var there := Match(PARTITION);
      if there {
        Expect(BY);
        exprs := ExprList();
      }
    }

    method Ordering() returns (items: seq<OrderItem>)
      requires Valid()
      modifies this`pos, this`errors, this`depth
      ensures Valid() && depth == old(depth)
      ensures Spec.Result(items, Now()) == Spec.Ordering(old(Now()), old(depth))
      decreases Length(Now().toks), 63
    {
      items := [];
      var there := Match(ORDER);
      if there {
        Expect(BY);
        items := OrderByList();
      }
    }

    method Framing() returns (f: Option<Frame>)
      requires Valid()
      modifies this`pos, this`errors, this`depth
      ensures Valid() && depth == old(depth)
      ensures Spec.Result(f, Now()) == Spec.Framing(old(Now()), old(depth))
      decreases Length(Now().toks), 63
    {
      f := None;
      var t := Current();
      if t == K(ROWS) || t == K(RANGE) {
        f := WindowFrame();
      }
    }

    method OrderByList() returns (items: seq<OrderItem>)
      requires Valid()
      modifies this`pos, this`errors, this`depth
      ensures Valid() && depth == old(depth)
      ensures Spec.Result(items, Now()) == Spec.OrderByList(old(Now()), old(depth))
      decreases Length(Now().toks), 62
    {
      var first := OrderByItem();
      items := [first];
      while true
        invariant Valid() && depth == old(depth)
        invariant var r := Spec.OrderByTail(Now(), depth);
                  Spec.Result(items + r.val, r.st) == Spec.OrderByList(old(Now()), depth)
        decreases Length(Now().toks)
      {
        var more := Match(COMMA);
        if !more {
          assert items + [] == items;
          break;
        }
        var item := OrderByItem();
        ghost var rest := Spec.OrderByTail(Now(), depth);
        assert items + ([item] + rest.val) == items + [item] + rest.val;
        items := items + [item];
      }
    }

    method OrderByItem() returns (o: OrderItem)
      requires Valid()
      modifies this`pos, this`errors, this`depth
      ensures Valid() && depth == old(depth)
      ensures Spec.Result(o, Now()) == Spec.OrderByItem(old(Now()), old(depth))
      decreases Length(Now().toks), 61
    {
      var e := ParseExpr();
      var descending := false;
      var ascending := Match(ASC);
      if !ascending {
        descending := Match(DESC);
      }
      var nulls: Option<Nulls> := None;
      var there := Match(NULLS);
      if there {
        var first := Match(FIRST);
        if !first {
          Expect(LAST);
        }
        nulls := Some(if first then NullsFirst else NullsLast);
      }
      o := OrderItem(e, descending, nulls);
    }

    method WindowFrame() returns (f: Option<Frame>)
      requires Valid() && (Spec.At(Now(), ROWS) || Spec.At(Now(), RANGE))
      modifies this`pos, this`errors, this`depth
      ensures Valid() && depth == old(depth)
      ensures Spec.Result(f, Now()) == Spec.WindowFrame(old(Now()), old(depth))
      decreases Length(Now().toks), 0
    {
      var t := Advance();
      var start := FrameBound();
      var end: Option<Bound> := None;
      var more := Match(AND);
      if more {
        var b := FrameBound();
        end := Some(b);
      }
      f := Some(Frame(t == K(ROWS), start, end));
    }

    method FrameBound() returns (b: Bound)
      requires Valid()
      modifies this`pos, this`errors, this`depth
      ensures Valid() && depth == old(depth)
      ensures Spec.Result(b, Now()) == Spec.FrameBound(old(Now()), old(depth))
      decreases Length(Now().toks), 61
    {
      var unbounded := Match(UNBOUNDED);
      if unbounded {
        var preceding := Match(PRECEDING);
        if !preceding {
          Expect(FOLLOWING);
        }
        return Unbounded(!preceding);
      }
      var current := Match(CURRENT);
      if current {
        Expect(ROW);
        return CurrentRow;
      }
      var offset := ParseExpr();
      var preceding := Match(PRECEDING);
      if !preceding {
        Expect(FOLLOWING);
      }
      b := Offset(Some(offset), !preceding);
    }

    method CaseExpr() returns (e: Expr)
      requires Valid() && Spec.At(Now(), CASE)
      modifies this`pos, this`errors, this`depth
      ensures Valid() && depth == old(depth)
      ensures Spec.Result(e, Now()) == Spec.CaseExpr(Spec.Advance(old(Now())), old(depth))
      decreases Length(Now().toks), 0
    {
      var _ := Advance();
      ghost var s := Now();
      var base: Option<Expr> := None;
      var searched := Check(WHEN);
      if !searched {
        var x := ParseExpr();
        base := Some(x);
      }
      assert Spec.Result(base, Now()) == Spec.CaseBase(s, depth);
      var whens := WhenClauses();
      if whens == [] {
        Error(Spec.NoWhen);
      }
      var otherwise: Option<Expr> := None;
      var there := Match(ELSE);
      if there {
        var x := ParseExpr();
        otherwise := Some(x);
      }
      Expect(END);
      e := Case(base, whens, otherwise);
    }

    method WhenClauses() returns (whens: seq<When>)
      requires Valid()
      modifies this`pos, this`errors, this`depth
      ensures Valid() && depth == old(depth)
      ensures Spec.Result(whens, Now()) == Spec.WhenLoop(0, old(Now()), old(depth))
      decreases Length(Now().toks), 60
    {
      whens := [];
      ghost var total := Spec.WhenLoop(0, Now(), depth).val;
      assert [] + total == total;
      while true
        invariant Valid() && depth == old(depth)
        invariant var r := Spec.WhenLoop(|whens|, Now(), depth);
                  Spec.Result(whens + r.val, r.st) == Spec.WhenLoop(0, old(Now()), depth)
        decreases Length(Now().toks)
      {
        ghost var all := Spec.WhenLoop(|whens|, Now(), depth);
        assert whens + [] == whens;
        var more := Match(WHEN);
        if !more {
          break;
        }
        if |whens| >= MAX_WHEN_CLAUSES {
          Error(Spec.TooManyWhens);
          break;
        }
        var when := WhenClause();
        ghost var rest := Spec.WhenLoop(|whens| + 1, Now(), depth);
        assert all.val == [when] + rest.val;
        assert whens + all.val == whens + [when] + rest.val;
        whens := whens + [when];
      }
    }

    /** One WHEN clause behind its keyword. */
    method WhenClause() returns (when: When)
      requires Valid()
      modifies this`pos, this`errors, this`depth
      ensures Valid() && depth == old(depth)
      ensures var condition := Spec.ParseExpr(old(Now()), old(depth));
              var result := Spec.ParseExpr(Spec.Expect(condition.st, THEN), old(depth));
              when == When(condition.val, result.val) && Now() == result.st
      decreases Length(Now().toks), 60
    {
      var condition := ParseExpr();
      Expect(THEN);
      var result := ParseExpr();
      when := When(condition, result);
    }

    method CastExpr() returns (e: Expr)
      requires Valid() && Spec.At(Now(), CAST)
      modifies this`pos, this`errors, this`depth
      ensures Valid() && depth == old(depth)
      ensures Spec.Result(e, Now()) == Spec.CastExpr(Spec.Advance(old(Now())), old(depth))
      decreases Length(Now().toks), 0
    {
      var _ := Advance();
      Expect(LPAREN);
      var x := ParseExpr();
      Expect(AS);
      var target := ParseTypeName();
      Expect(RPAREN);
      e := Cast(x, target);
    }

    method ParseTypeName() returns (target: ScalarType)
      requires Valid()
      modifies this`pos, this`errors
      ensures Valid() && Spec.Result(target, Now()) == Spec.TypeName(old(Now()))
    {
      var t := Current();
      if t.TYPE? && CastTarget(t.scalar) {
        target := t.scalar;
      } else {
        Error(Spec.ExpectedType(t));
        target := UnknownType;
      }
      var _ := Advance();
    }

    method ExprList() returns (exprs: seq<Expr>)
      requires Valid()
      modifies this`pos, this`errors, this`depth
      ensures Valid() && depth == old(depth)
      ensures Spec.Result(exprs, Now()) == Spec.ExprList(old(Now()), old(depth))
      decreases Length(Now().toks), 61
    {
      var first := ParseExpr();
      exprs := [first];
      while true
        invariant Valid() && depth == old(depth) && |exprs| > 0
        invariant var r := Spec.ListTail(|exprs|, Now(), depth);
                  Spec.Result(exprs + r.val, r.st) == Spec.ExprList(old(Now()), depth)
        decreases Length(Now().toks)
      {
        ghost var all := Spec.ListTail(|exprs|, Now(), depth);
        assert exprs + [] == exprs;
        var more := Match(COMMA);
        if !more {
          break;
        }
        if |exprs| >= MAX_LIST_LENGTH {
          Error(Spec.ListTooLong);
          break;
        }
        var e := ParseExpr();
        ghost var rest := Spec.ListTail(|exprs| + 1, Now(), depth);
        assert exprs + all.val == exprs + [e] + rest.val;
        exprs := exprs + [e];
      }
    }
  }

  /** The part of `parse` behind the lexer (parse.ts:86-93). */
  method ParseAll(ts: seq<Token>) returns (expr: Option<Expr>, errors: seq<Spec.ParseError>)
    requires |ts| > 0 && ts[|ts| - 1] == K(EOF)
    ensures var r := Spec.ParseTokens(From(ts, 0)); expr == r.val && errors == r.st.errs
  {
    var parser := new Parser(ts);
    var e := parser.ParseExpr();
    var t := parser.Current();
    if t != K(EOF) {
      parser.Error(Spec.Unexpected(t));
    }
    expr, errors := if parser.errors == [] then Some(e) else None, parser.errors;
  }
}
