/**
 Reading an expression off its tree: nothing but the types is lost between the two, so a tree in the
 heap stands for one expression only.
 */
module TreeReading {
  import opened Ast
  import opened Typing
  import opened Wrappers

  function ExprOf(t: Tree): Expr
    requires WellFormed(t)
    decreases t, 1
  {
    match t.kind
    case IntNode(digits) => IntLiteral(digits)
    case FloatNode(decimal) => FloatLiteral(decimal)
    case StringNode(chars) => StringLiteral(chars)
    case BoolNode(truth) => BoolLiteral(truth)
    case NullNode => NullLiteral
    case StarNode(table) => Star(table)
    case ColumnNode(table, column) => ColumnRef(table, column)
    case BinaryNode(op) => Binary(op, ExprOf(t.kids[0]), ExprOf(t.kids[1]))
    case MinusNode => Negate(ExprOf(t.kids[0]))
    case NotNode => LogicalNot(ExprOf(t.kids[0]))
    case BetweenNode(negated) => Between(ExprOf(t.kids[0]), ExprOf(t.kids[1]), ExprOf(t.kids[2]), negated)
    case InNode(negated) => InList(ExprOf(t.kids[0]), ExprsAt(t, 1, |t.kids| - 1), negated)
    case IsNullNode(negated) => IsNull(ExprOf(t.kids[0]), negated)
    case LikeNode(negated) => Like(ExprOf(t.kids[0]), ExprOf(t.kids[1]), negated)
    case CaseNode(hasOperand, whens, hasElse) =>
      var first := if hasOperand then 1 else 0;
      Case(ExprAt(t, 0, hasOperand), WhensAt(t, first, whens), ExprAt(t, first + 2 * whens, hasElse))
    case CastNode(target) => Cast(ExprOf(t.kids[0]), target)
    case FunctionNode(name) => CallExpr(FunctionCall(name, ExprsAt(t, 0, |t.kids|)))
    case AggregateNode(name, args, _, distinct, hasFilter) =>
      CallExpr(AggregateCall(name, ExprsAt(t, 0, args), distinct, ExprAt(t, args, hasFilter)))
    case WindowNode(partitions, orders, frame) =>
      var f := ExprOf(t.kids[0]);
      if f.CallExpr? then
        Window(f.call, ExprsAt(t, 1, partitions), OrdersAt(t, 1 + partitions, orders),
               FrameAt(t, 1 + partitions + |orders|, frame))
      else f
  }

  function ExprsAt(t: Tree, at: nat, n: nat): seq<Expr>
    requires WellFormed(t) && at + n <= |t.kids|
    decreases t, 0
  {
    seq(n, i requires 0 <= i < n => ExprOf(t.kids[at + i]))
  }

  function ExprAt(t: Tree, at: nat, given: bool): Option<Expr>
    requires WellFormed(t) && (given ==> at < |t.kids|)
    decreases t, 0
  {
    if given then Some(ExprOf(t.kids[at])) else None
  }

  function WhensAt(t: Tree, at: nat, n: nat): seq<When>
    requires WellFormed(t) && at + 2 * n <= |t.kids|
    decreases t, 0
  {
    seq(n, i requires 0 <= i < n => When(ExprOf(t.kids[at + 2 * i]), ExprOf(t.kids[at + 2 * i + 1])))
  }

  function OrdersAt(t: Tree, at: nat, orders: seq<OrderLabel>): seq<OrderItem>
    requires WellFormed(t) && at + |orders| <= |t.kids|
    decreases t, 0
  {
    seq(|orders|, i requires 0 <= i < |orders| => OrderItem(ExprOf(t.kids[at + i]), orders[i].descending, orders[i].nulls))
  }

  function BoundAt(t: Tree, at: nat, b: BoundLabel): Bound
    requires WellFormed(t) && at + OffsetsOf(b) <= |t.kids|
    decreases t, 0, 0
  {
    match b
    case UnboundedLabel(following) => Unbounded(following)
    case CurrentRowLabel => CurrentRow
    case OffsetLabel(given, following) => Offset(if given then Some(ExprOf(t.kids[at])) else None, following)
  }

  function FrameAt(t: Tree, at: nat, frame: Option<FrameLabel>): Option<Frame>
    requires WellFormed(t) && at + FrameOffsets(frame) <= |t.kids|
    decreases t, 0, 1
  {
    match frame
    case None => None
    case Some(f) =>
      Some(Frame(f.rows, BoundAt(t, at, f.start),
                 if f.end.Some? then Some(BoundAt(t, at + OffsetsOf(f.start), f.end.value)) else None))
  }

  // ----- reading back what was laid out -----

  /** The tree reads as the expression. */
  ghost predicate Is(t: Tree, e: Expr) {
    WellFormed(t) && ExprOf(t) == e
  }

  ghost predicate Back(e: Expr) {
    Is(TreeOf(e), e)
  }

  /** The child at `i` reads as `e`. */
  ghost predicate Reads(t: Tree, i: nat, e: Expr) {
    i < |t.kids| && Is(t.kids[i], e)
  }

  ghost predicate ListReads(t: Tree, at: nat, es: seq<Expr>) {
    forall i :: 0 <= i < |es| ==> Reads(t, at + i, es[i])
  }

  ghost predicate OptionReads(t: Tree, at: nat, e: Option<Expr>) {
    e.Some? ==> Reads(t, at, e.value)
  }

  ghost predicate WhensRead(t: Tree, at: nat, ws: seq<When>) {
    forall i :: 0 <= i < |ws| ==> Reads(t, at + 2 * i, ws[i].condition) && Reads(t, at + 2 * i + 1, ws[i].result)
  }

  ghost predicate OrdersRead(t: Tree, at: nat, os: seq<OrderItem>) {
    forall i :: 0 <= i < |os| ==> Reads(t, at + i, os[i].expr)
  }

  lemma ListBack(es: seq<Expr>, t: Tree, at: nat)
    requires WellFormed(t) && at + |es| <= |t.kids| && ListReads(t, at, es)
    ensures ExprsAt(t, at, |es|) == es
  {
    forall i | 0 <= i < |es|
      ensures ExprsAt(t, at, |es|)[i] == es[i]
    {
      assert Reads(t, at + i, es[i]);
    }
  }

  lemma WhensBack(ws: seq<When>, t: Tree, at: nat)
    requires WellFormed(t) && at + 2 * |ws| <= |t.kids| && WhensRead(t, at, ws)
    ensures WhensAt(t, at, |ws|) == ws
  {
    forall i | 0 <= i < |ws|
      ensures WhensAt(t, at, |ws|)[i] == ws[i]
    {
      assert Reads(t, at + 2 * i, ws[i].condition);
    }
  }

  lemma OrdersBack(os: seq<OrderItem>, t: Tree, at: nat)
    requires WellFormed(t) && at + |os| <= |t.kids| && OrdersRead(t, at, os)
    ensures OrdersAt(t, at, OrderLabels(os)) == os
  {
    forall i | 0 <= i < |os|
      ensures OrdersAt(t, at, OrderLabels(os))[i] == os[i]
    {
      assert Reads(t, at + i, os[i].expr);
    }
  }

  ghost predicate BoundReads(t: Tree, at: nat, b: Bound) {
    b.Offset? ==> OptionReads(t, at, b.offset)
  }

  ghost predicate FrameReads(t: Tree, at: nat, frame: Option<Frame>) {
    frame.Some? ==>
      && BoundReads(t, at, frame.value.start)
      && (frame.value.end.Some? ==> BoundReads(t, at + OffsetsOf(BoundLabelOf(frame.value.start)), frame.value.end.value))
  }

  lemma FrameBack(frame: Option<Frame>, t: Tree, at: nat)
    requires WellFormed(t) && at + FrameOffsets(FrameLabelOf(frame)) <= |t.kids| && FrameReads(t, at, frame)
    ensures FrameAt(t, at, FrameLabelOf(frame)) == frame
  {
  }

  // ----- where the children lie -----

  ghost predicate AllBack(ts: seq<Tree>, es: seq<Expr>) {
    |ts| == |es| && forall i :: 0 <= i < |es| ==> Is(ts[i], es[i])
  }

  lemma AllBackJoin(a: seq<Tree>, es: seq<Expr>, b: seq<Tree>, fs: seq<Expr>)
    requires AllBack(a, es) && AllBack(b, fs)
    ensures AllBack(a + b, es + fs)
  {
  }

  /** Children laid out in a row, the `i`-th reading as `es[i]`. */
  lemma RowReads(t: Tree, before: seq<Tree>, ts: seq<Tree>, es: seq<Expr>, after: seq<Tree>)
    requires t.kids == before + ts + after && AllBack(ts, es)
    ensures ListReads(t, |before|, es)
  {
    forall i | 0 <= i < |es|
      ensures Reads(t, |before| + i, es[i])
    {
      assert t.kids[|before| + i] == ts[i];
    }
  }

  /** The expressions below the WHEN clauses, in the order of the walk. */
  function WhenExprs(ws: seq<When>): seq<Expr> {
    if ws == [] then [] else [ws[0].condition, ws[0].result] + WhenExprs(ws[1..])
  }

  lemma {:induction false} WhenExprsAre(ws: seq<When>)
    ensures |WhenExprs(ws)| == 2 * |ws|
    ensures forall i :: 0 <= i < |ws| ==> WhenExprs(ws)[2 * i] == ws[i].condition && WhenExprs(ws)[2 * i + 1] == ws[i].result
  {
    if ws != [] {
      WhenExprsAre(ws[1..]);
      forall i | 0 < i < |ws|
        ensures WhenExprs(ws)[2 * i] == ws[i].condition && WhenExprs(ws)[2 * i + 1] == ws[i].result
      {
        assert ws[i] == ws[1..][i - 1];
        assert WhenExprs(ws)[2 * i] == WhenExprs(ws[1..])[2 * (i - 1)];
        assert WhenExprs(ws)[2 * i + 1] == WhenExprs(ws[1..])[2 * (i - 1) + 1];
      }
    }
  }

  lemma WhensOf(ws: seq<When>, t: Tree, at: nat)
    requires ListReads(t, at, WhenExprs(ws))
    ensures WhensRead(t, at, ws)
  {
    WhenExprsAre(ws);
    forall i | 0 <= i < |ws|
      ensures Reads(t, at + 2 * i, ws[i].condition) && Reads(t, at + 2 * i + 1, ws[i].result)
    {
      assert Reads(t, at + 2 * i, WhenExprs(ws)[2 * i]) && Reads(t, at + (2 * i + 1), WhenExprs(ws)[2 * i + 1]);
    }
  }

  function OrderExprs(os: seq<OrderItem>): (es: seq<Expr>)
    ensures |es| == |os| && forall i :: 0 <= i < |os| ==> es[i] == os[i].expr
  {
    seq(|os|, i requires 0 <= i < |os| => os[i].expr)
  }

  function MaybeExpr(e: Option<Expr>): seq<Expr> {
    if e.Some? then [e.value] else []
  }

  function BoundExprs(b: Bound): seq<Expr> {
    if b.Offset? then MaybeExpr(b.offset) else []
  }

  function EndExprs(b: Option<Bound>): seq<Expr> {
    if b.Some? then BoundExprs(b.value) else []
  }

  lemma OptionOf(e: Option<Expr>, t: Tree, at: nat)
    requires ListReads(t, at, MaybeExpr(e))
    ensures OptionReads(t, at, e)
  {
    assert e.Some? ==> Reads(t, at + 0, MaybeExpr(e)[0]);
  }

  // ----- every expression is read back -----

  /** The tree determines the expression: every literal, name, flag and order survives. */
  lemma {:induction false} TreeIsRead(e: Expr)
    ensures Back(e)
    decreases e, 1
  {
    match e
    case Binary(op, l, r) => TreeIsRead(l); TreeIsRead(r); BinaryBack(op, l, r);
    case Negate(x) => TreeIsRead(x); UnaryBack(x);
    case LogicalNot(x) => TreeIsRead(x); UnaryBack(x);
    case Between(x, low, high, negated) => TreeIsRead(x); TreeIsRead(low); TreeIsRead(high); BetweenBack(x, low, high, negated);
    case InList(x, values, _) => TreeIsRead(x); ListIsRead(values); InBack(e);
    case IsNull(x, negated) => TreeIsRead(x); IsNullBack(x, negated);
    case Like(x, pattern, negated) => TreeIsRead(x); TreeIsRead(pattern); LikeBack(x, pattern, negated);
    case Case(base, whens, otherwise) => OptionIsRead(base); WhensAreRead(whens); OptionIsRead(otherwise); CaseBack(e);
    case Cast(x, target) => TreeIsRead(x); CastBack(x, target);
    case CallExpr(call) => CallIsRead(call);
    case Window(call, ps, os, frame) => CallIsRead(call); ListIsRead(ps); OrdersAreRead(os); FrameIsRead(frame); WindowBack(e);
    case _ => LeafBack(e);
  }

  lemma LeafBack(e: Expr)
    requires e.IntLiteral? || e.FloatLiteral? || e.StringLiteral? || e.BoolLiteral? || e.NullLiteral? || e.ColumnRef? || e.Star?
    ensures Back(e)
  {
  }

  lemma BinaryBack(op: BinaryOp, l: Expr, r: Expr)
    requires Back(l) && Back(r)
    ensures Back(Binary(op, l, r))
  {
  }

  lemma UnaryBack(x: Expr)
    requires Back(x)
    ensures Back(Negate(x)) && Back(LogicalNot(x))
  {
  }

  lemma BetweenBack(x: Expr, low: Expr, high: Expr, negated: bool)
    requires Back(x) && Back(low) && Back(high)
    ensures Back(Between(x, low, high, negated))
  {
  }

  lemma IsNullBack(x: Expr, negated: bool)
    requires Back(x)
    ensures Back(IsNull(x, negated))
  {
  }

  lemma LikeBack(x: Expr, pattern: Expr, negated: bool)
    requires Back(x) && Back(pattern)
    ensures Back(Like(x, pattern, negated))
  {
  }

  lemma CastBack(x: Expr, target: ScalarType)
    requires Back(x)
    ensures Back(Cast(x, target))
  {
  }

  lemma InBack(e: Expr)
    requires e.InList? && Back(e.expr) && AllBack(TreesOf(e.values), e.values)
    ensures Back(e)
  {
    var t := TreeOf(e);
    TreeWellFormed(e);
    assert t.kids == [TreeOf(e.expr)] + TreesOf(e.values) + [];
    RowReads(t, [TreeOf(e.expr)], TreesOf(e.values), e.values, []);
    ListBack(e.values, t, 1);
  }

  lemma {:induction false} ListIsRead(es: seq<Expr>)
    ensures AllBack(TreesOf(es), es)
    decreases es, 0
  {
    if es != [] {
      TreeIsRead(es[0]);
      ListIsRead(es[1..]);
      AllBackJoin([TreeOf(es[0])], [es[0]], TreesOf(es[1..]), es[1..]);
      assert es == [es[0]] + es[1..];
    }
  }

  lemma {:induction false} OptionIsRead(e: Option<Expr>)
    ensures AllBack(MaybeTree(e), MaybeExpr(e))
    decreases e, 0
  {
    if e.Some? {
      TreeIsRead(e.value);
    }
  }

  lemma {:induction false} CallIsRead(call: Call)
    ensures Back(CallExpr(call))
    decreases call, 0
  {
    ListIsRead(call.args);
    if call.AggregateCall? {
      OptionIsRead(call.filter);
      AggregateBack(call);
    } else {
      FunctionBack(call);
    }
  }

  lemma FunctionBack(call: Call)
    requires call.FunctionCall? && AllBack(TreesOf(call.args), call.args)
    ensures Back(CallExpr(call))
  {
    var t := CallTree(call);
    CallWellFormed(call);
    assert t.kids == [] + TreesOf(call.args) + [];
    RowReads(t, [], TreesOf(call.args), call.args, []);
    ListBack(call.args, t, 0);
  }

  lemma AggregateBack(call: Call)
    requires call.AggregateCall? && AllBack(TreesOf(call.args), call.args)
    requires AllBack(MaybeTree(call.filter), MaybeExpr(call.filter))
    ensures Back(CallExpr(call))
  {
    var t := CallTree(call);
    CallWellFormed(call);
    AggregateReads(t, TreesOf(call.args), call.args, call.filter);
    AggregateRebuilt(t, call);
  }

  lemma AggregateRebuilt(t: Tree, call: Call)
    requires call.AggregateCall? && WellFormed(t)
    requires t.kind.AggregateNode? && t.kind.name == call.name && t.kind.args == |call.args|
    requires t.kind.distinct == call.distinct && t.kind.hasFilter == call.filter.Some?
    requires ListReads(t, 0, call.args) && OptionReads(t, |call.args|, call.filter)
    ensures Is(t, CallExpr(call))
  {
    ListBack(call.args, t, 0);
  }

  lemma AggregateReads(t: Tree, ts: seq<Tree>, args: seq<Expr>, filter: Option<Expr>)
    requires t.kids == ts + MaybeTree(filter) && AllBack(ts, args) && AllBack(MaybeTree(filter), MaybeExpr(filter))
    ensures ListReads(t, 0, args) && OptionReads(t, |args|, filter)
  {
    assert t.kids == [] + ts + MaybeTree(filter) && t.kids == ts + MaybeTree(filter) + [];
    RowReads(t, [], ts, args, MaybeTree(filter));
    RowReads(t, ts, MaybeTree(filter), MaybeExpr(filter), []);
    OptionOf(filter, t, |args|);
  }

  lemma CaseBack(e: Expr)
    requires e.Case? && AllBack(MaybeTree(e.base), MaybeExpr(e.base)) && AllBack(WhenTrees(e.whens), WhenExprs(e.whens))
    requires AllBack(MaybeTree(e.otherwise), MaybeExpr(e.otherwise))
    ensures Back(e)
  {
    var t := TreeOf(e);
    TreeWellFormed(e);
    CaseReads(t, MaybeTree(e.base), WhenTrees(e.whens), MaybeTree(e.otherwise), e.base, e.whens, e.otherwise);
    CaseRebuilt(t, e.base, e.whens, e.otherwise);
  }

  ghost predicate CasePartsRead(t: Tree, base: Option<Expr>, whens: seq<When>, otherwise: Option<Expr>) {
    var first := if base.Some? then 1 else 0;
    OptionReads(t, 0, base) && WhensRead(t, first, whens) && OptionReads(t, first + 2 * |whens|, otherwise)
  }

  lemma CaseReads(t: Tree, first: seq<Tree>, second: seq<Tree>, third: seq<Tree>,
                  base: Option<Expr>, whens: seq<When>, otherwise: Option<Expr>)
    requires t.kids == first + second + third && AllBack(first, MaybeExpr(base))
    requires AllBack(second, WhenExprs(whens)) && AllBack(third, MaybeExpr(otherwise))
    ensures CasePartsRead(t, base, whens, otherwise)
  {
    WhenExprsAre(whens);
    assert t.kids == [] + first + (second + third) && t.kids == first + second + third + [];
    RowReads(t, [], first, MaybeExpr(base), second + third);
    RowReads(t, first, second, WhenExprs(whens), third);
    RowReads(t, first + second, third, MaybeExpr(otherwise), []);
    OptionOf(base, t, 0);
    WhensOf(whens, t, |first|);
    OptionOf(otherwise, t, |first| + |second|);
  }

  lemma CaseRebuilt(t: Tree, base: Option<Expr>, whens: seq<When>, otherwise: Option<Expr>)
    requires WellFormed(t) && t.kind == CaseNode(base.Some?, |whens|, otherwise.Some?)
    requires CasePartsRead(t, base, whens, otherwise)
    ensures ExprOf(t) == Case(base, whens, otherwise)
  {
    WhensBack(whens, t, if base.Some? then 1 else 0);
  }

  lemma {:induction false} WhensAreRead(ws: seq<When>)
    ensures AllBack(WhenTrees(ws), WhenExprs(ws))
    decreases ws, 0
  {
    if ws != [] {
      WhenIsRead(ws[0]);
      WhensAreRead(ws[1..]);
      AllBackJoin(WhenTree(ws[0]), [ws[0].condition, ws[0].result], WhenTrees(ws[1..]), WhenExprs(ws[1..]));
    }
  }

  lemma {:induction false} WhenIsRead(w: When)
    ensures AllBack(WhenTree(w), [w.condition, w.result])
    decreases w, 0
  {
    TreeIsRead(w.condition);
    TreeIsRead(w.result);
  }

  lemma {:induction false} OrdersAreRead(os: seq<OrderItem>)
    ensures AllBack(OrderTrees(os), OrderExprs(os))
    decreases os, 0
  {
    if os != [] {
      OrderIsRead(os[0]);
      OrdersAreRead(os[1..]);
      AllBackJoin([OrderTree(os[0])], [os[0].expr], OrderTrees(os[1..]), OrderExprs(os[1..]));
      assert OrderExprs(os) == [os[0].expr] + OrderExprs(os[1..]);
    }
  }

  lemma {:induction false} OrderIsRead(o: OrderItem)
    ensures Back(o.expr)
    decreases o, 0
  {
    TreeIsRead(o.expr);
  }

  lemma {:induction false} BoundIsRead(b: Bound)
    ensures AllBack(BoundTrees(b), BoundExprs(b))
    decreases b, 0
  {
    if b.Offset? {
      OptionIsRead(b.offset);
    }
  }

  ghost predicate FrameAllBack(frame: Option<Frame>) {
    frame.Some? ==>
      && AllBack(BoundTrees(frame.value.start), BoundExprs(frame.value.start))
      && AllBack(EndTrees(frame.value.end), EndExprs(frame.value.end))
  }

  lemma {:induction false} FrameIsRead(frame: Option<Frame>)
    ensures FrameAllBack(frame)
    decreases frame, 0
  {
    if frame.Some? {
      BoundIsRead(frame.value.start);
      if frame.value.end.Some? {
        BoundIsRead(frame.value.end.value);
      }
    }
  }

  lemma BoundOf(b: Bound, t: Tree, at: nat)
    requires ListReads(t, at, BoundExprs(b))
    ensures BoundReads(t, at, b) && |BoundExprs(b)| == OffsetsOf(BoundLabelOf(b))
  {
    if b.Offset? {
      OptionOf(b.offset, t, at);
    }
  }

  lemma FrameOf(frame: Option<Frame>, t: Tree, before: seq<Tree>)
    requires t.kids == before + FrameTrees(frame) && FrameAllBack(frame)
    ensures FrameReads(t, |before|, frame)
  {
    if frame.Some? {
      BoundsOf(frame.value, t, before, BoundTrees(frame.value.start), EndTrees(frame.value.end));
    }
  }

  lemma BoundsOf(f: Frame, t: Tree, before: seq<Tree>, first: seq<Tree>, second: seq<Tree>)
    requires t.kids == before + (first + second) && AllBack(first, BoundExprs(f.start)) && AllBack(second, EndExprs(f.end))
    ensures FrameReads(t, |before|, Some(f))
  {
    assert t.kids == before + first + second && t.kids == (before + first) + second + [];
    RowReads(t, before, first, BoundExprs(f.start), second);
    RowReads(t, before + first, second, EndExprs(f.end), []);
    BoundOf(f.start, t, |before|);
    if f.end.Some? {
      BoundOf(f.end.value, t, |before| + |first|);
    }
  }

  lemma WindowBack(e: Expr)
    requires e.Window? && Back(CallExpr(e.call)) && AllBack(TreesOf(e.partitionBy), e.partitionBy)
    requires AllBack(OrderTrees(e.orderBy), OrderExprs(e.orderBy)) && FrameAllBack(e.frame)
    ensures Back(e)
  {
    var t := TreeOf(e);
    TreeWellFormed(e);
    WindowReads(e, t);
    WindowRebuilt(t, e.call, e.partitionBy, e.orderBy, e.frame);
  }

  ghost predicate WindowPartsRead(t: Tree, call: Call, ps: seq<Expr>, os: seq<OrderItem>, frame: Option<Frame>) {
    Reads(t, 0, CallExpr(call)) && ListReads(t, 1, ps) && OrdersRead(t, 1 + |ps|, os) && FrameReads(t, 1 + |ps| + |os|, frame)
  }

  lemma WindowReads(e: Expr, t: Tree)
    requires e.Window? && t.kids == [CallTree(e.call)] + TreesOf(e.partitionBy) + OrderTrees(e.orderBy) + FrameTrees(e.frame)
    requires Back(CallExpr(e.call)) && AllBack(TreesOf(e.partitionBy), e.partitionBy)
    requires AllBack(OrderTrees(e.orderBy), OrderExprs(e.orderBy)) && FrameAllBack(e.frame)
    ensures WindowPartsRead(t, e.call, e.partitionBy, e.orderBy, e.frame)
  {
    var head, parts, orders, frame := [CallTree(e.call)], TreesOf(e.partitionBy), OrderTrees(e.orderBy), FrameTrees(e.frame);
    WindowLists(t, head, parts, orders, frame, e.partitionBy, e.orderBy);
    FrameOf(e.frame, t, head + parts + orders);
    assert t.kids[0] == head[0];
  }

  lemma WindowLists(t: Tree, head: seq<Tree>, parts: seq<Tree>, orders: seq<Tree>, frame: seq<Tree>,
                    ps: seq<Expr>, os: seq<OrderItem>)
    requires t.kids == head + parts + orders + frame && |head| == 1 && AllBack(parts, ps) && AllBack(orders, OrderExprs(os))
    ensures ListReads(t, 1, ps) && OrdersRead(t, 1 + |ps|, os)
  {
    assert t.kids == head + parts + (orders + frame) && t.kids == (head + parts) + orders + frame;
    RowReads(t, head, parts, ps, orders + frame);
    RowReads(t, head + parts, orders, OrderExprs(os), frame);
    OrdersOf(os, t, 1 + |ps|);
  }

  lemma WindowRebuilt(t: Tree, call: Call, ps: seq<Expr>, os: seq<OrderItem>, frame: Option<Frame>)
    requires WellFormed(t) && t.kind == WindowNode(|ps|, OrderLabels(os), FrameLabelOf(frame))
    requires WindowPartsRead(t, call, ps, os, frame)
    ensures ExprOf(t) == Window(call, ps, os, frame)
  {
    ListBack(ps, t, 1);
    OrdersBack(os, t, 1 + |ps|);
    FrameBack(frame, t, 1 + |ps| + |os|);
  }

  lemma OrdersOf(os: seq<OrderItem>, t: Tree, at: nat)
    requires ListReads(t, at, OrderExprs(os))
    ensures OrdersRead(t, at, os)
  {
    forall i | 0 <= i < |os|
      ensures Reads(t, at + i, os[i].expr)
    {
      assert Reads(t, at + i, OrderExprs(os)[i]);
    }
  }
}
