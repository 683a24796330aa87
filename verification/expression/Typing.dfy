/**
 What the type checker attaches to a node, from the types of its children
 (packages/lattik-expression/src/checker/check.ts:373-672, ast/data-types.ts).
 */
module Typing {
  import opened Ast
  import opened Strings
  import opened Wrappers

  datatype DataType = DataType(scalar: ScalarType, nullable: bool)

  // ----- scalar types -----

  function NumericRank(t: ScalarType): Option<nat> {
    match t
    case Int32Type => Some(0)
    case Int64Type => Some(1)
    case FloatType => Some(2)
    case DoubleType => Some(3)
    case _ => None
  }

  predicate IsNumeric(t: ScalarType) { NumericRank(t).Some? }

  predicate IsComparable(t: ScalarType) { !t.JsonType? && !t.UnknownType? }

  function PromoteNumeric(a: ScalarType, b: ScalarType): Option<ScalarType> {
    if NumericRank(a).None? || NumericRank(b).None? then None
    else if NumericRank(a).value >= NumericRank(b).value then Some(a) else Some(b)
  }

  function CommonType(a: ScalarType, b: ScalarType): Option<ScalarType> {
    if a == b then Some(a)
    else if a.NullType? then Some(b)
    else if b.NullType? then Some(a)
    else if a.UnknownType? || b.UnknownType? then Some(UnknownType)
    else if PromoteNumeric(a, b).Some? then PromoteNumeric(a, b)
    else if (a.TimestampType? && b.DateType?) || (a.DateType? && b.TimestampType?) then Some(TimestampType)
    else None
  }

  // ----- the schema -----

  datatype Column = Column(name: string, dataType: DataType, table: Option<string>)

  /** A scalar function: argument counts (no upper bound is None) and result type. */
  datatype Signature = Signature(minArgs: nat, maxArgs: Option<nat>, resolve: seq<DataType> -> DataType)

  datatype Schema = Schema(columns: seq<Column>, functions: map<string, Signature>)

  datatype CheckError =
    | UnknownColumn(table: Option<string>, column: string)
    | AmbiguousColumn(column: string)
    | CannotApply(op: BinaryOp, left: ScalarType, right: ScalarType)
    | CannotCompare(left: ScalarType, right: ScalarType)
    | CannotNegate(scalar: ScalarType)
    | IncompatibleBranches(before: ScalarType, branch: ScalarType)
    | UnknownFunction(name: string)
    | ArgCount(name: string, count: nat)
    | ConditionNotBoolean(name: string, got: ScalarType)
    | FilterNotBoolean(got: ScalarType)

  // ----- trees as the walk sees them -----

  /** What a node holds besides its children and its type; the counts say how the children are divided. */
  datatype Label =
    | IntNode(digits: string) | FloatNode(decimal: string) | StringNode(chars: string) | BoolNode(truth: bool)
    | NullNode
    | StarNode(starTable: Option<string>)
    | ColumnNode(table: Option<string>, column: string)
    | BinaryNode(op: BinaryOp)
    | MinusNode
    | NotNode
    | BetweenNode(negated: bool) | InNode(negated: bool) | IsNullNode(negated: bool) | LikeNode(negated: bool)
    | CaseNode(hasOperand: bool, whens: nat, hasElse: bool)
    | CastNode(target: ScalarType)
    | FunctionNode(name: string)
    | AggregateNode(name: string, args: nat, starFirst: bool, distinct: bool, hasFilter: bool)
    | WindowNode(partitions: nat, orders: seq<OrderLabel>, frame: Option<FrameLabel>)

  datatype OrderLabel = OrderLabel(descending: bool, nulls: Option<Nulls>)
  datatype FrameLabel = FrameLabel(rows: bool, start: BoundLabel, end: Option<BoundLabel>)
  datatype BoundLabel = UnboundedLabel(following: bool) | CurrentRowLabel | OffsetLabel(given: bool, following: bool)

  /** A node and the children the walk visits, in its order. */
  datatype Tree = Tree(kind: Label, kids: seq<Tree>)

  function TreeOf(e: Expr): Tree {
    match e
    case IntLiteral(digits) => Tree(IntNode(digits), [])
    case FloatLiteral(decimal) => Tree(FloatNode(decimal), [])
    case StringLiteral(chars) => Tree(StringNode(chars), [])
    case BoolLiteral(truth) => Tree(BoolNode(truth), [])
    case NullLiteral => Tree(NullNode, [])
    case ColumnRef(table, column) => Tree(ColumnNode(table, column), [])
    case Star(table) => Tree(StarNode(table), [])
    case Binary(op, l, r) => Tree(BinaryNode(op), [TreeOf(l), TreeOf(r)])
    case Negate(x) => Tree(MinusNode, [TreeOf(x)])
    case LogicalNot(x) => Tree(NotNode, [TreeOf(x)])
    case Between(x, low, high, negated) => Tree(BetweenNode(negated), [TreeOf(x), TreeOf(low), TreeOf(high)])
    case InList(x, values, negated) => Tree(InNode(negated), [TreeOf(x)] + TreesOf(values))
    case IsNull(x, negated) => Tree(IsNullNode(negated), [TreeOf(x)])
    case Like(x, pattern, negated) => Tree(LikeNode(negated), [TreeOf(x), TreeOf(pattern)])
    case Case(base, whens, otherwise) =>
      Tree(CaseNode(base.Some?, |whens|, otherwise.Some?), MaybeTree(base) + WhenTrees(whens) + MaybeTree(otherwise))
    case Cast(x, target) => Tree(CastNode(target), [TreeOf(x)])
    case CallExpr(call) => CallTree(call)
    case Window(call, partitionBy, orderBy, frame) =>
      Tree(WindowNode(|partitionBy|, OrderLabels(orderBy), FrameLabelOf(frame)),
           [CallTree(call)] + TreesOf(partitionBy) + OrderTrees(orderBy) + FrameTrees(frame))
  }

  function MaybeTree(e: Option<Expr>): seq<Tree> {
    if e.Some? then [TreeOf(e.value)] else []
  }

  function TreesOf(es: seq<Expr>): seq<Tree> {
    if es == [] then [] else [TreeOf(es[0])] + TreesOf(es[1..])
  }

  function WhenTrees(ws: seq<When>): seq<Tree> {
    if ws == [] then [] else WhenTree(ws[0]) + WhenTrees(ws[1..])
  }

  function WhenTree(w: When): seq<Tree> {
    [TreeOf(w.condition), TreeOf(w.result)]
  }

  function OrderTrees(os: seq<OrderItem>): seq<Tree> {
    if os == [] then [] else [OrderTree(os[0])] + OrderTrees(os[1..])
  }

  function OrderTree(o: OrderItem): Tree {
    TreeOf(o.expr)
  }

  function FrameTrees(frame: Option<Frame>): seq<Tree> {
    match frame
    case None => []
    case Some(f) => BoundTrees(f.start) + EndTrees(f.end)
  }

  function EndTrees(end: Option<Bound>): seq<Tree> {
    if end.Some? then BoundTrees(end.value) else []
  }

  function BoundTrees(b: Bound): seq<Tree> {
    match b
    case Offset(offset, _) => MaybeTree(offset)
    case _ => []
  }

  function CallTree(call: Call): Tree {
    match call
    case FunctionCall(name, args) => Tree(FunctionNode(name), TreesOf(args))
    case AggregateCall(name, args, distinct, filter) =>
      Tree(AggregateNode(name, |args|, |args| > 0 && args[0].Star?, distinct, filter.Some?),
           TreesOf(args) + MaybeTree(filter))
  }

  function OrderLabels(os: seq<OrderItem>): (ls: seq<OrderLabel>)
    ensures |ls| == |os|
  {
    seq(|os|, i requires 0 <= i < |os| => OrderLabel(os[i].descending, os[i].nulls))
  }

  function BoundLabelOf(b: Bound): BoundLabel {
    match b
    case Unbounded(following) => UnboundedLabel(following)
    case CurrentRow => CurrentRowLabel
    case Offset(offset, following) => OffsetLabel(offset.Some?, following)
  }

  function FrameLabelOf(frame: Option<Frame>): Option<FrameLabel> {
    match frame
    case None => None
    case Some(f) => Some(FrameLabel(f.rows, BoundLabelOf(f.start), if f.end.Some? then Some(BoundLabelOf(f.end.value)) else None))
  }

  function OffsetsOf(b: BoundLabel): nat {
    if b.OffsetLabel? && b.given then 1 else 0
  }

  function FrameOffsets(frame: Option<FrameLabel>): nat {
    match frame
    case None => 0
    case Some(f) => OffsetsOf(f.start) + (if f.end.Some? then OffsetsOf(f.end.value) else 0)
  }

  // ----- the rules -----

  datatype Verdict = Verdict(dataType: DataType, errors: seq<CheckError>)

  predicate Named(table: Option<string>) { table.Some? && table.value != "" }

  /** The columns of that name, of that table if one is named; a column without a table fits any. */
  function Candidates(columns: seq<Column>, table: Option<string>, column: string): seq<Column> {
    if columns == [] then []
    else
      var rest := Candidates(columns[..|columns| - 1], table, column);
      var c := columns[|columns| - 1];
      if Lower(c.name) == Lower(column) && (!Named(table) || !Named(c.table) || c.table == table) then rest + [c] else rest
  }

  function ColumnVerdict(schema: Schema, table: Option<string>, column: string): Verdict {
    var matches := Candidates(schema.columns, table, column);
    if matches == [] then Verdict(DataType(UnknownType, true), [UnknownColumn(table, column)])
    else Verdict(matches[0].dataType, if |matches| > 1 && !Named(table) then [AmbiguousColumn(column)] else [])
  }

  predicate Arithmetic(op: BinaryOp) { op.Add? || op.Sub? || op.Mul? || op.Div? || op.Mod? }

  predicate Comparing(op: BinaryOp) { op.Eq? || op.Neq? || op.LtGt? || op.Lt? || op.Lte? || op.Gt? || op.Gte? }

  function BinaryVerdict(op: BinaryOp, l: DataType, r: DataType): Verdict {
    var nullable := l.nullable || r.nullable;
    if Arithmetic(op) then
      if l.scalar.NullType? || r.scalar.NullType? then Verdict(DataType(UnknownType, nullable), [])
      else
        (match PromoteNumeric(l.scalar, r.scalar)
         case None => Verdict(DataType(UnknownType, nullable), [CannotApply(op, l.scalar, r.scalar)])
         case Some(t) => Verdict(DataType(t, nullable), []))
    else if op.Concat? then Verdict(DataType(StringType, nullable), [])
    else if Comparing(op) && !l.scalar.NullType? && !r.scalar.NullType? && !l.scalar.UnknownType? && !r.scalar.UnknownType?
            && (!IsComparable(l.scalar) || !IsComparable(r.scalar)) then
      Verdict(DataType(BooleanType, false), [CannotCompare(l.scalar, r.scalar)])
    else Verdict(DataType(BooleanType, false), [])
  }

  /** The result type and nullability of the branches seen so far, and the errors. */
  datatype Branches = Branches(scalar: ScalarType, nullable: bool, errors: seq<CheckError>)

  function AddBranch(b: Branches, t: DataType): Branches {
    match CommonType(b.scalar, t.scalar)
    case None => Branches(b.scalar, b.nullable || t.nullable, b.errors + [IncompatibleBranches(b.scalar, t.scalar)])
    case Some(c) => Branches(c, b.nullable || t.nullable, b.errors)
  }

  /** The THEN results are every second child behind the operand. */
  function FoldBranches(types: seq<DataType>, first: nat, whens: nat): Branches
    requires first + 2 * whens <= |types|
  {
    if whens == 0 then Branches(NullType, false, [])
    else AddBranch(FoldBranches(types, first, whens - 1), types[first + 2 * whens - 1])
  }

  function CaseVerdict(hasOperand: bool, whens: nat, hasElse: bool, types: seq<DataType>): Verdict
    requires |types| == (if hasOperand then 1 else 0) + 2 * whens + (if hasElse then 1 else 0)
  {
    var b := FoldBranches(types, if hasOperand then 1 else 0, whens);
    if hasElse then
      var t := types[|types| - 1];
      var c := CommonType(b.scalar, t.scalar);
      Verdict(DataType(if c.Some? then c.value else b.scalar, b.nullable || t.nullable), b.errors)
    else Verdict(DataType(b.scalar, true), b.errors)
  }

  function FunctionVerdict(schema: Schema, name: string, types: seq<DataType>): Verdict {
    if name !in schema.functions then Verdict(DataType(UnknownType, true), [UnknownFunction(name)])
    else
      var sig := schema.functions[name];
      var wrong := |types| < sig.minArgs || (sig.maxArgs.Some? && |types| > sig.maxArgs.value);
      Verdict(sig.resolve(types), if wrong then [ArgCount(name, |types|)] else [])
  }

  predicate NotBoolean(t: DataType) {
    !t.scalar.BooleanType? && !t.scalar.NullType? && !t.scalar.UnknownType?
  }

  function AggregateType(name: string, arg: Option<DataType>): DataType {
    if name == "COUNT" || name == "COUNT_IF" || name == "APPROX_COUNT_DISTINCT" then DataType(Int64Type, false)
    else if name == "SUM" || name == "SUM_IF" then
      if arg.Some? && IsNumeric(arg.value.scalar)
      then DataType(if arg.value.scalar.Int32Type? then Int64Type else arg.value.scalar, true)
      else DataType(DoubleType, true)
    else if name == "AVG" || name == "AVG_IF" then DataType(DoubleType, true)
    else if name == "MIN" || name == "MAX" || name == "FIRST" || name == "LAST" || name == "ANY_VALUE" then
      DataType(if arg.Some? then arg.value.scalar else UnknownType, true)
    else if name == "COLLECT_LIST" || name == "COLLECT_SET" then DataType(JsonType, false)
    else if name == "STDDEV" || name == "VARIANCE" || name == "PERCENTILE" || name == "PERCENTILE_APPROX" then
      DataType(DoubleType, true)
    else DataType(UnknownType, true)
  }

  function ConditionErrors(name: string, args: nat, arg: Option<DataType>, types: seq<DataType>): seq<CheckError>
    requires args <= |types|
  {
    if name == "COUNT_IF" then
      if args != 1 then [ArgCount(name, args)]
      else if arg.Some? && NotBoolean(arg.value) then [ConditionNotBoolean(name, arg.value.scalar)]
      else []
    else if name == "SUM_IF" || name == "AVG_IF" then
      if args != 2 then [ArgCount(name, args)]
      else if NotBoolean(types[1]) then [ConditionNotBoolean(name, types[1].scalar)]
      else []
    else []
  }

  function AggregateVerdict(name: string, args: nat, starFirst: bool, hasFilter: bool, types: seq<DataType>): Verdict
    requires |types| == args + (if hasFilter then 1 else 0)
  {
    var arg := if args > 0 && !starFirst then Some(types[0]) else None;
    var filterErrors := if hasFilter && NotBoolean(types[args]) then [FilterNotBoolean(types[args].scalar)] else [];
    Verdict(AggregateType(name, arg), ConditionErrors(name, args, arg, types) + filterErrors)
  }

  /** Each kind has as many children as its rule reads. */
  predicate Arity(kind: Label, n: nat) {
    match kind
    case BinaryNode(_) => n == 2
    case MinusNode | NotNode | CastNode(_) | IsNullNode(_) => n == 1
    case BetweenNode(_) => n == 3
    case InNode(_) => n >= 1
    case LikeNode(_) => n == 2
    case CaseNode(hasOperand, whens, hasElse) => n == (if hasOperand then 1 else 0) + 2 * whens + (if hasElse then 1 else 0)
    case FunctionNode(_) => true
    case AggregateNode(_, args, _, _, hasFilter) => n == args + (if hasFilter then 1 else 0)
    case WindowNode(partitions, orders, frame) => n == 1 + partitions + |orders| + FrameOffsets(frame)
    case _ => n == 0
  }

  /** `attachType`: the type of a node from the types of its children, and the errors it reports. */
  function Attached(schema: Schema, kind: Label, types: seq<DataType>): Verdict
    requires Arity(kind, |types|)
  {
    match kind
    case IntNode(_) => Verdict(DataType(Int64Type, false), [])
    case FloatNode(_) => Verdict(DataType(DoubleType, false), [])
    case StringNode(_) => Verdict(DataType(StringType, false), [])
    case BoolNode(_) => Verdict(DataType(BooleanType, false), [])
    case NullNode => Verdict(DataType(NullType, true), [])
    case StarNode(_) => Verdict(DataType(Int64Type, false), [])
    case ColumnNode(table, column) => ColumnVerdict(schema, table, column)
    case BinaryNode(op) => BinaryVerdict(op, types[0], types[1])
    case MinusNode =>
      var t := types[0];
      Verdict(t, if !t.scalar.NullType? && !t.scalar.UnknownType? && !IsNumeric(t.scalar) then [CannotNegate(t.scalar)] else [])
    case NotNode => Verdict(DataType(BooleanType, false), [])
    case BetweenNode(_) | InNode(_) | IsNullNode(_) | LikeNode(_) => Verdict(DataType(BooleanType, false), [])
    case CaseNode(hasOperand, whens, hasElse) => CaseVerdict(hasOperand, whens, hasElse, types)
    case CastNode(target) => Verdict(DataType(target, types[0].nullable), [])
    case FunctionNode(name) => FunctionVerdict(schema, name, types)
    case AggregateNode(name, args, starFirst, _, hasFilter) => AggregateVerdict(name, args, starFirst, hasFilter, types)
    case WindowNode(_, _, _) => Verdict(types[0], [])
  }

  // ----- the bottom-up pass on a fresh tree -----

  /** A tree with a type on every node. */
  datatype Typed = Typed(kind: Label, kids: seq<Typed>, dataType: DataType)

  predicate WellFormed(t: Tree) {
    Arity(t.kind, |t.kids|) && forall i :: 0 <= i < |t.kids| ==> WellFormed(t.kids[i])
  }

  /** The bottom-up pass: a rebuilt tree with types, and the errors in post-order. */
  datatype Pass = Pass(typed: Typed, errors: seq<CheckError>)

  datatype Passes = Passes(typed: seq<Typed>, errors: seq<CheckError>)

  function TypesOf(ts: seq<Typed>): (r: seq<DataType>)
    ensures |r| == |ts| && forall i :: 0 <= i < |ts| ==> r[i] == ts[i].dataType
  {
    seq(|ts|, i requires 0 <= i < |ts| => ts[i].dataType)
  }

  function Mapped(schema: Schema, t: Tree): Pass
    requires WellFormed(t)
    decreases t, 1
  {
    var kids := MappedKids(schema, t, |t.kids|);
    var v := Attached(schema, t.kind, TypesOf(kids.typed));
    Pass(Typed(t.kind, kids.typed, v.dataType), kids.errors + v.errors)
  }

  /** The first `n` children, one after the other. */
  function MappedKids(schema: Schema, t: Tree, n: nat): (r: Passes)
    requires WellFormed(t) && n <= |t.kids|
    ensures |r.typed| == n
    decreases t, 0, n
  {
    if n == 0 then Passes([], [])
    else
      var before := MappedKids(schema, t, n - 1);
      var last := Mapped(schema, t.kids[n - 1]);
      Passes(before.typed + [last.typed], before.errors + last.errors)
  }

  // ----- expressions have the arities -----

  lemma {:induction false} TreesWellFormed(es: seq<Expr>)
    ensures |TreesOf(es)| == |es| && forall i :: 0 <= i < |es| ==> WellFormed(TreesOf(es)[i])
  {
    if es != [] {
      TreeWellFormed(es[0]);
      TreesWellFormed(es[1..]);
    }
  }

  lemma {:induction false} WhensWellFormed(ws: seq<When>)
    ensures |WhenTrees(ws)| == 2 * |ws| && forall i :: 0 <= i < |WhenTrees(ws)| ==> WellFormed(WhenTrees(ws)[i])
  {
    if ws != [] {
      WhenWellFormed(ws[0]);
      WhensWellFormed(ws[1..]);
    }
  }

  lemma WhenWellFormed(w: When)
    ensures |WhenTree(w)| == 2 && forall i :: 0 <= i < 2 ==> WellFormed(WhenTree(w)[i])
  {
    TreeWellFormed(w.condition);
    TreeWellFormed(w.result);
  }

  lemma {:induction false} OrdersWellFormed(os: seq<OrderItem>)
    ensures |OrderTrees(os)| == |os| && forall i :: 0 <= i < |OrderTrees(os)| ==> WellFormed(OrderTrees(os)[i])
  {
    if os != [] {
      OrderWellFormed(os[0]);
      OrdersWellFormed(os[1..]);
    }
  }

  lemma OrderWellFormed(o: OrderItem)
    ensures WellFormed(OrderTree(o))
  {
    TreeWellFormed(o.expr);
  }

  lemma {:induction false} MaybeWellFormed(e: Option<Expr>)
    ensures |MaybeTree(e)| == (if e.Some? then 1 else 0) && forall i :: 0 <= i < |MaybeTree(e)| ==> WellFormed(MaybeTree(e)[i])
  {
    if e.Some? {
      TreeWellFormed(e.value);
    }
  }

  lemma {:induction false} BoundWellFormed(b: Bound)
    ensures |BoundTrees(b)| == OffsetsOf(BoundLabelOf(b))
    ensures forall i :: 0 <= i < |BoundTrees(b)| ==> WellFormed(BoundTrees(b)[i])
  {
    if b.Offset? {
      MaybeWellFormed(b.offset);
    }
  }

  lemma {:induction false} CallWellFormed(call: Call)
    ensures WellFormed(CallTree(call))
  {
    TreesWellFormed(call.args);
    if call.AggregateCall? {
      MaybeWellFormed(call.filter);
    }
  }

  /** Every expression tree has as many children at each node as the checker reads. */
  lemma {:induction false} TreeWellFormed(e: Expr)
    ensures WellFormed(TreeOf(e))
    decreases e, 1
  {
    match e
    case Binary(_, l, r) => TreeWellFormed(l); TreeWellFormed(r);
    case Negate(x) => TreeWellFormed(x);
    case LogicalNot(x) => TreeWellFormed(x);
    case Between(x, low, high, _) => TreeWellFormed(x); TreeWellFormed(low); TreeWellFormed(high);
    case InList(x, values, _) => TreeWellFormed(x); TreesWellFormed(values);
    case IsNull(x, _) => TreeWellFormed(x);
    case Like(x, pattern, _) => TreeWellFormed(x); TreeWellFormed(pattern);
    case Case(_, _, _) => CaseWellFormed(e);
    case Cast(x, _) => TreeWellFormed(x);
    case CallExpr(call) => CallWellFormed(call);
    case Window(_, _, _, _) => WindowWellFormed(e);
    case _ =>
  }

  lemma {:induction false} CaseWellFormed(e: Expr)
    requires e.Case?
    ensures WellFormed(TreeOf(e))
    decreases e, 0
  {
    MaybeWellFormed(e.base);
    WhensWellFormed(e.whens);
    MaybeWellFormed(e.otherwise);
  }

  lemma {:induction false} WindowWellFormed(e: Expr)
    requires e.Window?
    ensures WellFormed(TreeOf(e))
    decreases e, 0
  {
    CallWellFormed(e.call);
    TreesWellFormed(e.partitionBy);
    OrdersWellFormed(e.orderBy);
    FrameWellFormed(e.frame);
  }

  lemma {:induction false} FrameWellFormed(frame: Option<Frame>)
    ensures |FrameTrees(frame)| == FrameOffsets(FrameLabelOf(frame))
    ensures forall i :: 0 <= i < |FrameTrees(frame)| ==> WellFormed(FrameTrees(frame)[i])
  {
    if frame.Some? {
      BoundWellFormed(frame.value.start);
      if frame.value.end.Some? {
        BoundWellFormed(frame.value.end.value);
      }
    }
  }
}
