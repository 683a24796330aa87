/** The pieces of an expression carry the tokens of its printed form. */
module PieceTokens {
  import opened Wrappers
  import opened Ast
  import opened Tokens
  import opened Grammar
  import opened Printing
  import opened Pieces

  // ----- the pieces carry the tokens of the printed form -----

  /** One piece in front of `k`. */
  lemma Step(p: Piece, k: Text)
    ensures AllTokens(More(p, k)) == TokensOf(p, AllTokens(k))
  {
  }

  lemma BlankStep(k: Text)
    ensures AllTokens(More(Blank, k)) == AllTokens(k)
  {
  }

  lemma KeyStep(kind: Kind, k: Text)
    ensures AllTokens(More(Key(kind), k)) == Cons(K(kind), AllTokens(k))
  {
  }

  lemma OpenStep(k: Text)
    ensures AllTokens(More(Delimiter('('), k)) == Cons(K(LPAREN), AllTokens(k))
  {
  }

  lemma CloseStep(k: Text)
    ensures AllTokens(More(Delimiter(')'), k)) == Cons(K(RPAREN), AllTokens(k))
  {
  }

  /** A word between blanks. */
  lemma SpacedStep(kind: Kind, k: Text)
    ensures AllTokens(Spaced(kind, k)) == Cons(K(kind), AllTokens(k))
  {
    BlankStep(k);
    KeyStep(kind, More(Blank, k));
    BlankStep(More(Key(kind), More(Blank, k)));
  }

  /** A blank and a word. */
  lemma WordStep(kind: Kind, k: Text)
    ensures AllTokens(More(Blank, More(Key(kind), k))) == Cons(K(kind), AllTokens(k))
  {
    KeyStep(kind, k);
    BlankStep(More(Key(kind), k));
  }

  /** A word and a blank. */
  lemma LeadStep(kind: Kind, k: Text)
    ensures AllTokens(More(Key(kind), More(Blank, k))) == Cons(K(kind), AllTokens(k))
  {
    BlankStep(k);
    KeyStep(kind, More(Blank, k));
  }

  lemma {:induction false} CutTokens(e: Expr, k: Text)
    ensures AllTokens(Cut(e, k)) == Yield(Printed(e), AllTokens(k))
    decreases e, 1
  {
    match e
    case Binary(_, _, _) => CutBinaryTokens(e, k);
    case Negate(_) => CutNegateTokens(e, k);
    case LogicalNot(_) => CutNotTokens(e, k);
    case Between(_, _, _, _) => CutBetweenTokens(e, k);
    case InList(_, _, _) => CutInTokens(e, k);
    case IsNull(_, _) => CutIsNullTokens(e, k);
    case Like(_, _, _) => CutLikeTokens(e, k);
    case Case(_, _, _) => CutCaseTokens(e, k);
    case Cast(_, _) => CutCastTokens(e, k);
    case CallExpr(call) => CutCallTokens(call, None, k, k);
    case Window(call, ps, os, f) =>
      CutOverTokens(e, k);
      CutCallTokens(call, Some(COver(PrintedList(ps), PrintedOrders(os), PrintedFrame(f))), CutOver(e, k), k);
    case _ => CutAtomTokens(e, k);
  }

  lemma CutAtomTokens(e: Expr, k: Text)
    requires e.IntLiteral? || e.FloatLiteral? || e.StringLiteral? || e.BoolLiteral? || e.NullLiteral?
          || e.ColumnRef? || e.Star?
    ensures AllTokens(Cut(e, k)) == Yield(Printed(e), AllTokens(k))
  {
    if e.ColumnRef? {
      Step(Piece.Name(e.column), k);
      Step(Delimiter('.'), More(Piece.Name(e.column), k));
    } else if e.Star? {
      Step(Delimiter('*'), k);
      Step(Delimiter('.'), More(Delimiter('*'), k));
    }
  }

  lemma {:induction false} CutBinaryTokens(e: Expr, k: Text)
    requires e.Binary?
    ensures AllTokens(Cut(e, k)) == Yield(Printed(e), AllTokens(k))
    decreases e, 0
  {
    var Binary(op, l, r) := e;
    var right := CutOperand(r, Precedence(op), true, k);
    var rest := More(Blank, More(Operator(op), More(Blank, right)));
    CutOperandTokens(r, Precedence(op), true, k);
    BlankStep(right);
    Step(Operator(op), More(Blank, right));
    BlankStep(More(Operator(op), More(Blank, right)));
    CutOperandTokens(l, Precedence(op), false, rest);
  }

  lemma {:induction false} CutNegateTokens(e: Expr, k: Text)
    requires e.Negate?
    ensures AllTokens(Cut(e, k)) == Yield(Printed(e), AllTokens(k))
    decreases e, 0
  {
    CutOperandTokens(e.operand, UNARY_MINUS_PRECEDENCE, false, k);
    Step(Delimiter('-'), CutOperand(e.operand, UNARY_MINUS_PRECEDENCE, false, k));
  }

  lemma {:induction false} CutNotTokens(e: Expr, k: Text)
    requires e.LogicalNot?
    ensures AllTokens(Cut(e, k)) == Yield(Printed(e), AllTokens(k))
    decreases e, 0
  {
    CutOperandTokens(e.operand, NOT_PRECEDENCE, false, k);
    LeadStep(NOT, CutOperand(e.operand, NOT_PRECEDENCE, false, k));
  }

  lemma {:induction false} CutCaseTokens(e: Expr, k: Text)
    requires e.Case?
    ensures AllTokens(Cut(e, k)) == Yield(Printed(e), AllTokens(k))
    decreases e, 0
  {
    var Case(b, ws, o) := e;
    var end := More(Blank, More(Key(END), k));
    var whens := CutWhens(ws, CutElse(o, end));
    WordStep(END, k);
    CutElseTokens(o, end);
    CutWhensTokens(ws, CutElse(o, end));
    CutBaseTokens(b, whens);
    KeyStep(CASE, CutBase(b, whens));
  }

  lemma {:induction false} CutCastTokens(e: Expr, k: Text)
    requires e.Cast?
    ensures AllTokens(Cut(e, k)) == Yield(Printed(e), AllTokens(k))
    decreases e, 0
  {
    var close := More(AsType(e.target), More(Delimiter(')'), k));
    CutTokens(e.expr, close);
    CloseStep(k);
    Step(AsType(e.target), More(Delimiter(')'), k));
    OpenStep(Cut(e.expr, close));
    KeyStep(CAST, More(Delimiter('('), Cut(e.expr, close)));
  }

  lemma InfixTokens(negated: bool, kind: Kind, k: Text)
    ensures AllTokens(CutInfix(negated, kind, k)) == YieldFlag(negated, NOT, Cons(K(kind), AllTokens(k)))
  {
    SpacedStep(kind, k);
    WordStep(NOT, Spaced(kind, k));
  }

  lemma {:induction false} CutBetweenTokens(e: Expr, k: Text)
    requires e.Between?
    ensures AllTokens(Cut(e, k)) == Yield(Printed(e), AllTokens(k))
    decreases e, 0
  {
    var Between(x, lo, hi, n) := e;
    var high := Spaced(AND, Cut(hi, k));
    CutTokens(hi, k);
    SpacedStep(AND, Cut(hi, k));
    CutTokens(lo, high);
    InfixTokens(n, BETWEEN, Cut(lo, high));
    CutTokens(x, CutInfix(n, BETWEEN, Cut(lo, high)));
  }

  lemma {:induction false} CutInTokens(e: Expr, k: Text)
    requires e.InList?
    ensures AllTokens(Cut(e, k)) == Yield(Printed(e), AllTokens(k))
    decreases e, 0
  {
    var InList(x, vs, n) := e;
    var values := CutList(vs, More(Delimiter(')'), k));
    CloseStep(k);
    CutListTokens(vs, More(Delimiter(')'), k));
    OpenStep(values);
    InfixTokens(n, IN, More(Delimiter('('), values));
    CutTokens(x, CutInfix(n, IN, More(Delimiter('('), values)));
  }

  lemma {:induction false} CutLikeTokens(e: Expr, k: Text)
    requires e.Like?
    ensures AllTokens(Cut(e, k)) == Yield(Printed(e), AllTokens(k))
    decreases e, 0
  {
    CutTokens(e.pattern, k);
    InfixTokens(e.negated, LIKE, Cut(e.pattern, k));
    CutTokens(e.expr, CutInfix(e.negated, LIKE, Cut(e.pattern, k)));
  }

  lemma {:induction false} CutIsNullTokens(e: Expr, k: Text)
    requires e.IsNull?
    ensures AllTokens(Cut(e, k)) == Yield(Printed(e), AllTokens(k))
    decreases e, 0
  {
    var end := More(Blank, More(Key(NULL), k));
    WordStep(NULL, k);
    WordStep(NOT, end);
    WordStep(IS, CutNot(e.negated, end));
    CutTokens(e.expr, More(Blank, More(Key(IS), CutNot(e.negated, end))));
  }

  lemma {:induction false} CutOperandTokens(x: Expr, parent: nat, right: bool, k: Text)
    ensures AllTokens(CutOperand(x, parent, right, k)) == Yield(PrintedOperand(x, parent, right), AllTokens(k))
    decreases x, 2
  {
    var inner := if Parenthesized(x, parent, right) then More(Delimiter(')'), k) else k;
    CutTokens(x, inner);
    CloseStep(k);
    OpenStep(Cut(x, inner));
  }

  lemma {:induction false} CutListTokens(es: seq<Expr>, k: Text)
    ensures AllTokens(CutList(es, k)) == YieldList(PrintedList(es), AllTokens(k))
    decreases es, 1
  {
    if es != [] {
      CutTailTokens(es[1..], k);
      CutTokens(es[0], CutTail(es[1..], k));
    }
  }

  lemma {:induction false} CutTailTokens(es: seq<Expr>, k: Text)
    ensures AllTokens(CutTail(es, k)) == YieldTail(PrintedList(es), AllTokens(k))
    decreases es, 0
  {
    if es != [] {
      var rest := CutTail(es[1..], k);
      CutTailTokens(es[1..], k);
      CutTokens(es[0], rest);
      BlankStep(Cut(es[0], rest));
      Step(Delimiter(','), More(Blank, Cut(es[0], rest)));
    }
  }

  lemma {:induction false} CutBaseTokens(o: Option<Expr>, k: Text)
    ensures AllTokens(CutBase(o, k)) == YieldOption(PrintedOption(o), AllTokens(k))
    decreases o, 0
  {
    if o.Some? {
      CutTokens(o.value, k);
      BlankStep(Cut(o.value, k));
    }
  }

  lemma {:induction false} CutElseTokens(o: Option<Expr>, k: Text)
    ensures AllTokens(CutElse(o, k)) == YieldElse(PrintedOption(o), AllTokens(k))
    decreases o, 0
  {
    if o.Some? {
      CutTokens(o.value, k);
      SpacedStep(ELSE, Cut(o.value, k));
    }
  }

  lemma {:induction false} CutWhensTokens(ws: seq<When>, k: Text)
    ensures AllTokens(CutWhens(ws, k)) == YieldWhens(PrintedWhens(ws), AllTokens(k))
    decreases ws, 0
  {
    if ws != [] {
      CutWhensTokens(ws[1..], k);
      CutWhenTokens(ws[0], CutWhens(ws[1..], k));
    }
  }

  lemma {:induction false} CutWhenTokens(w: When, k: Text)
    ensures AllTokens(CutWhen(w, k)) == YieldWhen(PrintedWhen(w), AllTokens(k))
    decreases w, 0
  {
    var result := Spaced(THEN, Cut(w.result, k));
    CutTokens(w.result, k);
    SpacedStep(THEN, Cut(w.result, k));
    CutTokens(w.condition, result);
    SpacedStep(WHEN, Cut(w.condition, result));
  }

  /** A call in front of a window or of `k` itself. */
  lemma {:induction false} CutCallTokens(call: Call, over: Option<COver>, w: Text, k: Text)
    requires AllTokens(w) == YieldOver(over, AllTokens(k))
    ensures AllTokens(CutCall(call, w)) == Yield(PrintedCall(call, over), AllTokens(k))
    decreases call, 1
  {
    match call
    case FunctionCall(name, args) => FunctionTokens(call, over, w, k);
    case AggregateCall(_, _, _, filter) => AggregateTokens(call, over, w, k);
  }

  lemma {:induction false} FunctionTokens(call: Call, over: Option<COver>, w: Text, k: Text)
    requires call.FunctionCall? && AllTokens(w) == YieldOver(over, AllTokens(k))
    ensures AllTokens(CutCall(call, w)) == Yield(PrintedCall(call, over), AllTokens(k))
    decreases call, 0
  {
    ArgumentTokens(call.name, false, call.args, w);
  }

  lemma {:induction false} AggregateTokens(call: Call, over: Option<COver>, w: Text, k: Text)
    requires call.AggregateCall? && AllTokens(w) == YieldOver(over, AllTokens(k))
    ensures AllTokens(CutCall(call, w)) == Yield(PrintedCall(call, over), AllTokens(k))
    decreases call, 0
  {
    CutFilterTokens(call.filter, w);
    ArgumentTokens(call.name, call.distinct, call.args, CutFilter(call.filter, w));
  }

  /** The name of a call and its arguments in parentheses. */
  lemma {:induction false} ArgumentTokens(name: string, distinct: bool, args: seq<Expr>, k: Text)
    ensures var list := CutList(args, More(Delimiter(')'), k));
            var tokens := YieldFlag(distinct, DISTINCT, YieldList(PrintedList(args), Cons(K(RPAREN), AllTokens(k))));
            AllTokens(More(CallName(name), More(Delimiter('('), CutDistinct(distinct, list))))
            == Cons(NameToken(name), Cons(K(LPAREN), tokens))
    decreases args, 3
  {
    var list := CutList(args, More(Delimiter(')'), k));
    CloseStep(k);
    CutListTokens(args, More(Delimiter(')'), k));
    DistinctTokens(distinct, list);
    CallHead(name, CutDistinct(distinct, list));
  }

  lemma CallHead(name: string, k: Text)
    ensures AllTokens(More(CallName(name), More(Delimiter('('), k))) == Cons(NameToken(name), Cons(K(LPAREN), AllTokens(k)))
  {
    OpenStep(k);
    Step(CallName(name), More(Delimiter('('), k));
  }

  lemma DistinctTokens(distinct: bool, k: Text)
    ensures AllTokens(CutDistinct(distinct, k)) == YieldFlag(distinct, DISTINCT, AllTokens(k))
  {
    LeadStep(DISTINCT, k);
  }

  lemma {:induction false} CutFilterTokens(o: Option<Expr>, k: Text)
    ensures AllTokens(CutFilter(o, k)) == YieldFilter(PrintedOption(o), AllTokens(k))
    decreases o, 0
  {
    if o.Some? {
      var inner := Cut(o.value, More(Delimiter(')'), k));
      CutTokens(o.value, More(Delimiter(')'), k));
      CloseStep(k);
      LeadStep(WHERE, inner);
      OpenStep(More(Key(WHERE), More(Blank, inner)));
      SpacedStep(FILTER, More(Delimiter('('), More(Key(WHERE), More(Blank, inner))));
    }
  }

  lemma {:induction false} CutOverTokens(e: Expr, k: Text)
    requires e.Window?
    ensures AllTokens(CutOver(e, k))
         == YieldOver(Some(COver(PrintedList(e.partitionBy), PrintedOrders(e.orderBy), PrintedFrame(e.frame))), AllTokens(k))
    decreases e, 0
  {
    var Window(_, ps, os, f) := e;
    var close := More(Delimiter(')'), k);
    CutFrameTokens(f, close);
    var gap1 := CutGap(os != [] && f.Some?, CutFrame(f, close));
    CutOrderTokens(os, gap1);
    var gap2 := CutGap(ps != [] && (os != [] || f.Some?), CutOrder(os, gap1));
    CutPartitionTokens(ps, gap2);
    BlankStep(CutFrame(f, close));
    BlankStep(CutOrder(os, gap1));
    CloseStep(k);
    OpenStep(CutPartition(ps, gap2));
    SpacedStep(OVER, More(Delimiter('('), CutPartition(ps, gap2)));
  }

  lemma {:induction false} CutPartitionTokens(es: seq<Expr>, k: Text)
    ensures AllTokens(CutPartition(es, k)) == YieldPartition(PrintedList(es), AllTokens(k))
    decreases es, 2
  {
    CutListTokens(es, k);
    LeadStep(BY, CutList(es, k));
    LeadStep(PARTITION, More(Key(BY), More(Blank, CutList(es, k))));
  }

  lemma {:induction false} CutOrderTokens(os: seq<OrderItem>, k: Text)
    ensures AllTokens(CutOrder(os, k)) == YieldOrder(PrintedOrders(os), AllTokens(k))
    decreases os, 1
  {
    if os != [] {
      CutItemsTokens(os[1..], k);
      var items := CutItem(os[0], CutItems(os[1..], k));
      CutItemTokens(os[0], CutItems(os[1..], k));
      LeadStep(BY, items);
      LeadStep(ORDER, More(Key(BY), More(Blank, items)));
    }
  }

  lemma {:induction false} CutItemsTokens(os: seq<OrderItem>, k: Text)
    ensures AllTokens(CutItems(os, k)) == YieldItems(PrintedOrders(os), AllTokens(k))
    decreases os, 0
  {
    if os != [] {
      var item := CutItem(os[0], CutItems(os[1..], k));
      CutItemsTokens(os[1..], k);
      CutItemTokens(os[0], CutItems(os[1..], k));
      BlankStep(item);
      Step(Delimiter(','), More(Blank, item));
    }
  }

  lemma {:induction false} CutItemTokens(o: OrderItem, k: Text)
    ensures AllTokens(CutItem(o, k)) == YieldItem(PrintedOrder(o), AllTokens(k))
    decreases o, 0
  {
    CutNullsTokens(o.nulls, k);
    WordStep(DESC, CutNulls(o.nulls, k));
    CutTokens(o.expr, CutWord(o.descending, DESC, CutNulls(o.nulls, k)));
  }

  lemma CutNullsTokens(n: Option<Nulls>, k: Text)
    ensures AllTokens(CutNulls(n, k)) == YieldNulls(n, AllTokens(k))
  {
    if n.Some? {
      var word := More(Key(if n.value.NullsFirst? then FIRST else LAST), k);
      KeyStep(if n.value.NullsFirst? then FIRST else LAST, k);
      LeadStep(NULLS, word);
      BlankStep(More(Key(NULLS), More(Blank, word)));
    }
  }

  lemma {:induction false} CutFrameTokens(f: Option<Frame>, k: Text)
    ensures AllTokens(CutFrame(f, k)) == YieldFrame(PrintedFrame(f), AllTokens(k))
    decreases f, 0
  {
    if f.Some? {
      var w := f.value;
      CutEndTokens(w.end, k);
      var bounds := CutBound(w.start, CutEnd(w.end, k));
      CutBoundTokens(w.start, CutEnd(w.end, k));
      LeadStep(if w.rows then ROWS else RANGE, bounds);
    }
  }

  lemma {:induction false} CutEndTokens(b: Option<Bound>, k: Text)
    ensures AllTokens(CutEnd(b, k)) == YieldEnd(PrintedEnd(b), AllTokens(k))
    decreases b, 0
  {
    if b.Some? {
      CutBoundTokens(b.value, k);
      SpacedStep(AND, CutBound(b.value, k));
    }
  }

  lemma {:induction false} CutBoundTokens(b: Bound, k: Text)
    ensures AllTokens(CutBound(b, k)) == YieldBound(PrintedBound(b), AllTokens(k))
    decreases b, 0
  {
    match b
    case Unbounded(f) =>
      WordStep(Side(f), k);
      KeyStep(UNBOUNDED, More(Blank, More(Key(Side(f)), k)));
    case CurrentRow =>
      WordStep(ROW, k);
      KeyStep(CURRENT, More(Blank, More(Key(ROW), k)));
    case Offset(offset, f) =>
      var side := More(Blank, More(Key(Side(f)), k));
      WordStep(Side(f), k);
      if offset.Some? {
        CutTokens(offset.value, side);
      } else {
        Step(Piece.Integer("1"), side);
      }
  }
}
