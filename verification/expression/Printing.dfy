/**
 The printer at token level: `Printed(e)` is the concrete tree whose tokens emit-sql.ts writes for
 `e`, parentheses included, and `Faithful(e, d)` says when that tree obeys the grammar.
 */
module Printing {
  import opened Wrappers
  import opened Ast
  import opened Tokens
  import opened Grammar

  /** emit-sql.ts:20-36 */
  function Precedence(op: BinaryOp): nat {
    match op
    case Or => 1
    case And => 2
    case Eq | Neq | LtGt | Lt | Lte | Gt | Gte => 3
    case Add | Sub | Concat => 4
    case Mul | Div | Mod => 5
  }

  const UNARY_MINUS_PRECEDENCE := 6
  const NOT_PRECEDENCE := 2

  /** Only binary children are ever parenthesized (emit-sql.ts:114-127). */
  predicate Parenthesized(child: Expr, parent: nat, right: bool) {
    child.Binary? && (Precedence(child.op) < parent || (Precedence(child.op) == parent && right))
  }

  /** The token the name of a call is read as. */
  function NameToken(name: string): Token {
    if Upper(name) == "FIRST" then K(FIRST) else if Upper(name) == "LAST" then K(LAST) else IDENT(name)
  }

  function TypeToken(t: ScalarType): Token {
    if CastTarget(t) then TYPE(t) else if t.NullType? then K(NULL) else IDENT("UNKNOWN")
  }

  /** An absent table name and an empty one print the same. */
  predicate HasTable(table: Option<string>) {
    table.Some? && table.value != ""
  }

  function Printed(e: Expr): Cst
    decreases e, 1
  {
    match e
    case IntLiteral(s) => Atom(INTEGER(s))
    case FloatLiteral(s) => Atom(DECIMAL(s))
    case StringLiteral(s) => Atom(STRING(s))
    case BoolLiteral(b) => Atom(K(if b then TRUE else FALSE))
    case NullLiteral => Atom(K(NULL))
    case ColumnRef(t, n) => if HasTable(t) then Dotted(t.value, n) else Name(n)
    case Star(t) => if HasTable(t) then DottedStar(t.value) else Atom(K(STAR))
    case Binary(op, l, r) =>
      CBin(op, PrintedOperand(l, Precedence(op), false), PrintedOperand(r, Precedence(op), true))
    case Negate(x) => CNeg(PrintedOperand(x, UNARY_MINUS_PRECEDENCE, false))
    case LogicalNot(x) => CNot(PrintedOperand(x, NOT_PRECEDENCE, false))
    case Between(x, lo, hi, n) => CBetween(Printed(x), Printed(lo), Printed(hi), n)
    case InList(x, vs, n) => CIn(Printed(x), PrintedList(vs), n)
    case IsNull(x, n) => CIsNull(Printed(x), n)
    case Like(x, p, n) => CLike(Printed(x), Printed(p), n)
    case Case(b, ws, o) => CCase(PrintedOption(b), PrintedWhens(ws), PrintedOption(o))
    case Cast(x, t) => CCast(Printed(x), TypeToken(t))
    case CallExpr(call) => PrintedCall(call, None)
    case Window(call, ps, os, f) =>
      PrintedCall(call, Some(COver(PrintedList(ps), PrintedOrders(os), PrintedFrame(f))))
  }

  function PrintedOperand(child: Expr, parent: nat, right: bool): Cst
    decreases child, 2
  {
    if Parenthesized(child, parent, right) then Paren(Printed(child)) else Printed(child)
  }

  function PrintedCall(call: Call, over: Option<COver>): Cst
    decreases call, 0
  {
    match call
    case FunctionCall(name, args) => CCall(NameToken(name), false, PrintedList(args), None, over)
    case AggregateCall(name, args, distinct, filter) =>
      CCall(NameToken(name), distinct, PrintedList(args), PrintedOption(filter), over)
  }

  function PrintedList(es: seq<Expr>): (r: seq<Cst>)
    ensures |r| == |es|
    decreases es, 0
  {
    if es == [] then [] else [Printed(es[0])] + PrintedList(es[1..])
  }

  function PrintedOption(o: Option<Expr>): Option<Cst>
    decreases o, 0
  {
    match o
    case None => None
    case Some(x) => Some(Printed(x))
  }

  function PrintedWhens(ws: seq<When>): (r: seq<CWhen>)
    ensures |r| == |ws|
    decreases ws, 0
  {
    if ws == [] then [] else [PrintedWhen(ws[0])] + PrintedWhens(ws[1..])
  }

  function PrintedWhen(w: When): CWhen
    decreases w, 0
  {
    CWhen(Printed(w.condition), Printed(w.result))
  }

  function PrintedOrders(os: seq<OrderItem>): (r: seq<COrder>)
    ensures |r| == |os|
    decreases os, 0
  {
    if os == [] then [] else [PrintedOrder(os[0])] + PrintedOrders(os[1..])
  }

  /** ASC is the default and never written. */
  function PrintedOrder(o: OrderItem): COrder
    decreases o, 0
  {
    COrder(Printed(o.expr), if o.descending then Descending else Implicit, o.nulls)
  }

  function PrintedFrame(f: Option<Frame>): Option<CFrame>
    decreases f, 0
  {
    match f
    case None => None
    case Some(w) => Some(CFrame(w.rows, PrintedBound(w.start), PrintedEnd(w.end)))
  }

  function PrintedEnd(b: Option<Bound>): Option<CBound>
    decreases b, 0
  {
    match b
    case None => None
    case Some(x) => Some(PrintedBound(x))
  }

  /** A frame offset left out is written as 1. */
  function PrintedBound(b: Bound): CBound
    decreases b, 0
  {
    match b
    case Unbounded(f) => CUnbounded(f)
    case CurrentRow => CCurrent
    case Offset(None, f) => COffset(Atom(INTEGER("1")), f)
    case Offset(Some(x), f) => COffset(Printed(x), f)
  }

  // ----- the faithful expressions -----

  /** The grammar level an expression is derived at when it stands without parentheses. */
  function ExprLevel(e: Expr): nat {
    match e
    case Binary(op, _, _) => OpLevel(op)
    case LogicalNot(_) => 3
    case Between(_, _, _, _) | InList(_, _, _) | IsNull(_, _) | Like(_, _, _) => 4
    case Negate(_) => 7
    case _ => 8
  }

  /** The printed form begins with a bare star. */
  predicate StartsWithStar(e: Expr) {
    match e
    case Star(t) => !HasTable(t)
    case Binary(op, l, _) => !Parenthesized(l, Precedence(op), false) && StartsWithStar(l)
    case Between(x, _, _, _) => StartsWithStar(x)
    case InList(x, _, _) => StartsWithStar(x)
    case IsNull(x, _) => StartsWithStar(x)
    case Like(x, _, _) => StartsWithStar(x)
    case _ => false
  }

  /** `e`, printed where a full expression is nested `d` deep, can be read back. */
  predicate Faithful(e: Expr, d: nat)
    decreases e, 1
  {
    match e
    case IntLiteral(_) | FloatLiteral(_) | StringLiteral(_) | BoolLiteral(_) | NullLiteral => true
    case ColumnRef(t, _) => t != Some("")
    case Star(t) => t != Some("")
    case Binary(op, l, r) =>
      FaithfulOperand(l, Precedence(op), false, LeftLevel(op), d) &&
      FaithfulOperand(r, Precedence(op), true, OpLevel(op) + 1, d)
    case Negate(x) => d < MAX_DEPTH && FaithfulOperand(x, UNARY_MINUS_PRECEDENCE, false, 7, d + 1)
    case LogicalNot(x) => FaithfulOperand(x, NOT_PRECEDENCE, false, 3, d)
    case Between(x, lo, hi, _) =>
      Faithful(x, d) && Faithful(lo, d) && Faithful(hi, d)
      && ExprLevel(x) >= 5 && ExprLevel(lo) >= 5 && ExprLevel(hi) >= 5
    case InList(x, vs, _) =>
      Faithful(x, d) && ExprLevel(x) >= 5 && 1 <= |vs| <= MAX_LIST_LENGTH && FaithfulList(vs, d)
    case IsNull(x, _) => Faithful(x, d) && ExprLevel(x) >= 5
    case Like(x, p, _) => Faithful(x, d) && Faithful(p, d) && ExprLevel(x) >= 5 && ExprLevel(p) >= 5
    case Case(b, ws, o) =>
      FaithfulOption(b, d) && 1 <= |ws| <= MAX_WHEN_CLAUSES && FaithfulWhens(ws, d) && FaithfulOption(o, d)
    case Cast(x, t) => FaithfulInner(x, d) && CastTarget(t)
    case CallExpr(call) => FaithfulCall(call, d)
    case Window(call, ps, os, f) =>
      FaithfulCall(call, d) && |ps| <= MAX_LIST_LENGTH && FaithfulList(ps, d) && FaithfulOrders(os, d)
      && FaithfulFrame(f, d)
  }

  predicate FaithfulInner(e: Expr, d: nat)
    decreases e, 2
  {
    d < MAX_DEPTH && Faithful(e, d + 1)
  }

  /** An operand is either parenthesized or of a level the position admits. */
  predicate FaithfulOperand(child: Expr, parent: nat, right: bool, level: nat, d: nat)
    decreases child, 3
  {
    if Parenthesized(child, parent, right) then FaithfulInner(child, d)
    else Faithful(child, d) && ExprLevel(child) >= level
  }

  predicate FaithfulCall(call: Call, d: nat)
    decreases call, 0
  {
    match call
    case FunctionCall(name, args) =>
      Upper(name) == name && name !in AGGREGATES && |args| <= MAX_LIST_LENGTH && FaithfulList(args, d)
    case AggregateCall(name, args, distinct, filter) =>
      Upper(name) == name && name in AGGREGATES && |args| <= MAX_LIST_LENGTH && FaithfulOption(filter, d) &&
      if name == "COUNT" && !distinct && args != [] && StartsWithStar(args[0]) then args == [Star(None)]
      else FaithfulList(args, d)
  }

  predicate FaithfulList(es: seq<Expr>, d: nat)
    decreases es, 0
  {
    es != [] ==> FaithfulInner(es[0], d) && FaithfulList(es[1..], d)
  }

  predicate FaithfulOption(o: Option<Expr>, d: nat)
    decreases o, 0
  {
    match o
    case None => true
    case Some(x) => FaithfulInner(x, d)
  }

  predicate FaithfulWhens(ws: seq<When>, d: nat)
    decreases ws, 0
  {
    ws != [] ==> FaithfulWhen(ws[0], d) && FaithfulWhens(ws[1..], d)
  }

  predicate FaithfulWhen(w: When, d: nat)
    decreases w, 0
  {
    FaithfulInner(w.condition, d) && FaithfulInner(w.result, d)
  }

  predicate FaithfulOrders(os: seq<OrderItem>, d: nat)
    decreases os, 0
  {
    os != [] ==> FaithfulOrder(os[0], d) && FaithfulOrders(os[1..], d)
  }

  predicate FaithfulOrder(o: OrderItem, d: nat)
    decreases o, 0
  {
    FaithfulInner(o.expr, d)
  }

  predicate FaithfulFrame(f: Option<Frame>, d: nat)
    decreases f, 0
  {
    match f
    case None => true
    case Some(w) => FaithfulBound(w.start, d) && FaithfulEnd(w.end, d)
  }

  predicate FaithfulEnd(b: Option<Bound>, d: nat)
    decreases b, 0
  {
    match b
    case None => true
    case Some(x) => FaithfulBound(x, d)
  }

  predicate FaithfulBound(b: Bound, d: nat)
    decreases b, 0
  {
    match b
    case Offset(None, _) => false
    case Offset(Some(x), _) => FaithfulInner(x, d)
    case _ => true
  }

  // ----- faithful expressions print as well-formed trees -----

  /** The concrete tree of `e` is well formed within depth `d`, stands for `e`, and has its level. */
  ghost predicate PrintsWell(e: Expr, d: nat) {
    && Well(Printed(e), d) && Strip(Printed(e)) == e && Level(Printed(e)) == ExprLevel(e)
    && (FirstToken(Printed(e)) == K(STAR) <==> StartsWithStar(e))
  }

  lemma {:induction false} FaithfulPrints(e: Expr, d: nat)
    requires Faithful(e, d)
    ensures PrintsWell(e, d)
    decreases e, 2
  {
    match e
    case Binary(_, _, _) => OperatorPrints(e, d);
    case Negate(_) => OperatorPrints(e, d);
    case LogicalNot(_) => OperatorPrints(e, d);
    case Between(_, _, _, _) => PredicatePrints(e, d);
    case InList(_, _, _) => InListPrints(e, d);
    case IsNull(_, _) => PredicatePrints(e, d);
    case Like(_, _, _) => PredicatePrints(e, d);
    case Case(_, _, _) => CasePrints(e, d);
    case Cast(_, _) => CastPrints(e, d);
    case CallExpr(call) => CallPrints(call, None, d);
    case Window(_, _, _, _) => WindowPrints(e, d);
    case _ => AtomPrints(e, d);
  }

  lemma AtomPrints(e: Expr, d: nat)
    requires e.IntLiteral? || e.FloatLiteral? || e.StringLiteral? || e.BoolLiteral? || e.NullLiteral?
          || e.ColumnRef? || e.Star?
    requires Faithful(e, d)
    ensures PrintsWell(e, d)
  {
  }

  lemma {:induction false} OperatorPrints(e: Expr, d: nat)
    requires (e.Binary? || e.Negate? || e.LogicalNot?) && Faithful(e, d)
    ensures PrintsWell(e, d)
    decreases e, 1
  {
    match e
    case Binary(op, l, r) =>
      OperandPrints(l, Precedence(op), false, LeftLevel(op), d);
      OperandPrints(r, Precedence(op), true, OpLevel(op) + 1, d);
    case Negate(x) => OperandPrints(x, UNARY_MINUS_PRECEDENCE, false, 7, d + 1);
    case LogicalNot(x) => OperandPrints(x, NOT_PRECEDENCE, false, 3, d);
  }

  lemma {:induction false} PredicatePrints(e: Expr, d: nat)
    requires (e.Between? || e.IsNull? || e.Like?) && Faithful(e, d)
    ensures PrintsWell(e, d)
    decreases e, 1
  {
    FaithfulPrints(e.expr, d);
    if e.Between? {
      FaithfulPrints(e.low, d);
      FaithfulPrints(e.high, d);
      BetweenWell(e, d);
    } else if e.Like? {
      FaithfulPrints(e.pattern, d);
      LikeWell(e, d);
    } else {
      IsNullWell(e, d);
    }
  }

  lemma BetweenWell(e: Expr, d: nat)
    requires e.Between? && Faithful(e, d) && PrintsWell(e.expr, d) && PrintsWell(e.low, d) && PrintsWell(e.high, d)
    ensures PrintsWell(e, d)
  {
    assert Printed(e) == CBetween(Printed(e.expr), Printed(e.low), Printed(e.high), e.negated);
  }

  lemma LikeWell(e: Expr, d: nat)
    requires e.Like? && Faithful(e, d) && PrintsWell(e.expr, d) && PrintsWell(e.pattern, d)
    ensures PrintsWell(e, d)
  {
    assert Printed(e) == CLike(Printed(e.expr), Printed(e.pattern), e.negated);
  }

  lemma IsNullWell(e: Expr, d: nat)
    requires e.IsNull? && Faithful(e, d) && PrintsWell(e.expr, d)
    ensures PrintsWell(e, d)
  {
  }

  lemma {:induction false} InListPrints(e: Expr, d: nat)
    requires e.InList? && Faithful(e, d)
    ensures PrintsWell(e, d)
    decreases e, 1
  {
    FaithfulPrints(e.expr, d);
    ListPrints(e.values, d);
    InListWell(e, d);
  }

  lemma InListWell(e: Expr, d: nat)
    requires e.InList? && Faithful(e, d) && PrintsWell(e.expr, d)
    requires WellList(PrintedList(e.values), d) && StripList(PrintedList(e.values)) == e.values
    ensures PrintsWell(e, d)
  {
  }

  lemma {:induction false} CasePrints(e: Expr, d: nat)
    requires e.Case? && Faithful(e, d)
    ensures PrintsWell(e, d)
    decreases e, 1
  {
    OptionPrints(e.base, d);
    WhensPrint(e.whens, d);
    OptionPrints(e.otherwise, d);
  }

  lemma {:induction false} CastPrints(e: Expr, d: nat)
    requires e.Cast? && Faithful(e, d)
    ensures PrintsWell(e, d)
    decreases e, 1
  {
    FaithfulPrints(e.expr, d + 1);
    CastWell(e, d);
  }

  lemma CastWell(e: Expr, d: nat)
    requires e.Cast? && Faithful(e, d) && PrintsWell(e.expr, d + 1)
    ensures PrintsWell(e, d)
  {
    assert Printed(e) == CCast(Printed(e.expr), TYPE(e.target));
    assert WellInner(Printed(e.expr), d);
  }

  lemma {:induction false} WindowPrints(e: Expr, d: nat)
    requires e.Window? && Faithful(e, d)
    ensures PrintsWell(e, d)
    decreases e, 1
  {
    ListPrints(e.partitionBy, d);
    OrdersPrint(e.orderBy, d);
    FramePrints(e.frame, d);
    CallPrints(e.call, Some(COver(PrintedList(e.partitionBy), PrintedOrders(e.orderBy), PrintedFrame(e.frame))), d);
  }

  lemma {:induction false} OperandPrints(child: Expr, parent: nat, right: bool, level: nat, d: nat)
    requires level <= 8 && FaithfulOperand(child, parent, right, level, d)
    ensures var c := PrintedOperand(child, parent, right);
            Well(c, d) && Strip(c) == child && Level(c) >= level
            && (FirstToken(c) == K(STAR) <==> !Parenthesized(child, parent, right) && StartsWithStar(child))
    decreases child, 3
  {
    FaithfulPrints(child, if Parenthesized(child, parent, right) then d + 1 else d);
  }

  lemma {:induction false} CallPrints(call: Call, over: Option<COver>, d: nat)
    requires FaithfulCall(call, d) && WellOver(over, d)
    ensures var c := PrintedCall(call, over);
            Well(c, d) && Strip(c) == Windowed(call, over) && c.CCall? && FirstToken(c) != K(STAR)
    decreases call, 1
  {
    NameTokenName(call.name);
    if call.AggregateCall? {
      OptionPrints(call.filter, d);
      AggregatePrints(call, over, d);
    } else {
      ListPrints(call.args, d);
    }
  }

  lemma {:induction false} AggregatePrints(call: Call, over: Option<COver>, d: nat)
    requires call.AggregateCall? && FaithfulCall(call, d) && WellOver(over, d)
    requires WellOption(PrintedOption(call.filter), d) && StripOption(PrintedOption(call.filter)) == call.filter
    ensures var c := PrintedCall(call, over);
            Well(c, d) && Strip(c) == Windowed(call, over) && c.CCall? && FirstToken(c) != K(STAR)
    decreases call, 0
  {
    NameTokenName(call.name);
    if call.name == "COUNT" && !call.distinct && call.args != [] && StartsWithStar(call.args[0]) {
      CountStarPrints();
    } else {
      ListPrints(call.args, d);
    }
  }

  lemma CountStarPrints()
    ensures PrintedList([Star(None)]) == [Atom(K(STAR))] && StripList([Atom(K(STAR))]) == [Star(None)]
  {
  }

  lemma NameTokenName(name: string)
    ensures HeadToken(NameToken(name)) && HeadName(NameToken(name)) == Upper(name)
  {
  }

  lemma {:induction false} ListPrints(es: seq<Expr>, d: nat)
    requires FaithfulList(es, d)
    ensures WellList(PrintedList(es), d) && StripList(PrintedList(es)) == es
    ensures es != [] ==> (FirstToken(PrintedList(es)[0]) == K(STAR) <==> StartsWithStar(es[0]))
    decreases es, 0
  {
    if es != [] {
      FaithfulPrints(es[0], d + 1);
      ListPrints(es[1..], d);
    }
  }

  lemma {:induction false} OptionPrints(o: Option<Expr>, d: nat)
    requires FaithfulOption(o, d)
    ensures WellOption(PrintedOption(o), d) && StripOption(PrintedOption(o)) == o
    decreases o, 0
  {
    if o.Some? {
      FaithfulPrints(o.value, d + 1);
    }
  }

  lemma {:induction false} WhensPrint(ws: seq<When>, d: nat)
    requires FaithfulWhens(ws, d)
    ensures WellWhens(PrintedWhens(ws), d) && StripWhens(PrintedWhens(ws)) == ws
    decreases ws, 0
  {
    if ws != [] {
      WhenPrints(ws[0], d);
      WhensPrint(ws[1..], d);
    }
  }

  lemma {:induction false} WhenPrints(w: When, d: nat)
    requires FaithfulWhen(w, d)
    ensures WellWhen(PrintedWhen(w), d) && StripWhen(PrintedWhen(w)) == w
    decreases w, 0
  {
    FaithfulPrints(w.condition, d + 1);
    FaithfulPrints(w.result, d + 1);
  }

  lemma {:induction false} OrdersPrint(os: seq<OrderItem>, d: nat)
    requires FaithfulOrders(os, d)
    ensures WellOrders(PrintedOrders(os), d) && StripOrders(PrintedOrders(os)) == os
    decreases os, 0
  {
    if os != [] {
      OrderPrints(os[0], d);
      OrdersPrint(os[1..], d);
    }
  }

  lemma {:induction false} OrderPrints(o: OrderItem, d: nat)
    requires FaithfulOrder(o, d)
    ensures WellOrder(PrintedOrder(o), d) && StripOrder(PrintedOrder(o)) == o
    decreases o, 0
  {
    FaithfulPrints(o.expr, d + 1);
  }

  lemma {:induction false} FramePrints(f: Option<Frame>, d: nat)
    requires FaithfulFrame(f, d)
    ensures WellFrame(PrintedFrame(f), d) && StripFrame(PrintedFrame(f)) == f
    decreases f, 0
  {
    if f.Some? {
      BoundPrints(f.value.start, d);
      if f.value.end.Some? {
        BoundPrints(f.value.end.value, d);
      }
    }
  }

  lemma {:induction false} BoundPrints(b: Bound, d: nat)
    requires FaithfulBound(b, d)
    ensures WellBound(PrintedBound(b), d) && StripBound(PrintedBound(b)) == b
    decreases b, 0
  {
    if b.Offset? {
      FaithfulPrints(b.offset.value, d + 1);
    }
  }
}
