/**
 What expressions evaluate to, row by row, on values that carry the scalar type they have when the query
 runs. Nothing here looks at the types the checker attaches. What an engine computes (digits, texts,
 rounding) is left to the world; which type a result has, when it is null and what cannot be evaluated
 at all is said here.
 */
module Evaluation {
  import opened Ast
  import opened Strings
  import opened Typing
  import opened Wrappers

  type Tag = t: ScalarType | !t.NullType? && !t.UnknownType? witness StringType

  datatype Value = Null | Tagged(tag: Tag, content: int)

  datatype Outcome = Stuck | Gives(value: Value)

  /** One value per column of the schema. */
  type Row = seq<Value>

  /** The rows aggregates and windows run over, the functions there are, and what is computed. */
  datatype World = World(
    schema: Schema,
    group: seq<Row>,
    constant: Expr -> int,
    compute: (Expr, seq<Value>) -> Option<int>,
    equal: (Value, Value) -> bool,
    call: (string, seq<Value>) -> Value,
    fold: (Call, seq<Value>) -> Option<int>,
    tally: (Call, seq<Value>) -> int,
    pick: (Call, seq<Value>) -> nat)

  /** A computed value; None stands for a null result, as of a division by zero. */
  function Made(tag: Tag, content: Option<int>): Value {
    if content.None? then Null else Tagged(tag, content.value)
  }

  function Truth(b: bool): Value { Tagged(BooleanType, if b then 1 else 0) }

  predicate IsTrue(v: Value) { v == Truth(true) }

  // ----- numbers -----

  /** How wide a number is; 0 for what is no number. */
  function Width(t: ScalarType): nat {
    match t
    case Int32Type => 1
    case Int64Type => 2
    case FloatType => 3
    case DoubleType => 4
    case _ => 0
  }

  function Wider(a: Tag, b: Tag): Tag {
    if Width(a) >= Width(b) then a else b
  }

  /** Numbers are added up as 64-bit integers or wider; anything else is converted to double. */
  function SumTag(vs: seq<Value>): Tag {
    if vs == [] then Int64Type
    else if vs[0].Null? then SumTag(vs[1..])
    else if Width(vs[0].tag) == 0 then DoubleType
    else Wider(vs[0].tag, SumTag(vs[1..]))
  }

  predicate AllNull(vs: seq<Value>) {
    forall i :: 0 <= i < |vs| ==> vs[i].Null?
  }

  // ----- operators -----

  function Operate(w: World, e: Expr, a: Value, b: Value): Outcome
    requires e.Binary?
  {
    match e.op
    case Add | Sub | Mul | Div | Mod =>
      if a.Null? || b.Null? then Gives(Null)
      else if Width(a.tag) > 0 && Width(b.tag) > 0 then Gives(Made(Wider(a.tag, b.tag), w.compute(e, [a, b])))
      else Stuck
    case Concat =>
      if a.Null? || b.Null? then Gives(Null) else Gives(Made(StringType, w.compute(e, [a, b])))
    case And | Or => Gives(Made(BooleanType, w.compute(e, [a, b])))
    case _ =>
      if a.Null? || b.Null? then Gives(Null)
      else if a.tag.JsonType? || b.tag.JsonType? then Stuck
      else Gives(Made(BooleanType, w.compute(e, [a, b])))
  }

  function Negated(w: World, e: Expr, v: Value): Outcome {
    if v.Null? then Gives(Null)
    else if Width(v.tag) > 0 then Gives(Made(v.tag, w.compute(e, [v])))
    else Stuck
  }

  /** A conversion that fails gives null. */
  function Converted(w: World, e: Expr, target: ScalarType, v: Value): Value {
    if v.Null? || target.NullType? || target.UnknownType? then Null else Made(target, w.compute(e, [v]))
  }

  // ----- columns -----

  /** The reference may mean this column: the name in any case, and the table where both say one. */
  predicate Denotes(c: Column, table: Option<string>, name: string) {
    Lower(c.name) == Lower(name) && (Named(table) && Named(c.table) ==> c.table.value == table.value)
  }

  /** The first column from `i` on that the reference may mean. */
  function Position(columns: seq<Column>, table: Option<string>, name: string, i: nat): (r: Option<nat>)
    ensures r.Some? ==> i <= r.value < |columns|
    decreases |columns| - i
  {
    if i >= |columns| then None
    else if Denotes(columns[i], table, name) then Some(i)
    else Position(columns, table, name, i + 1)
  }

  /** Without a table name only one column may be meant. */
  function Fetched(w: World, row: Row, table: Option<string>, name: string): Outcome {
    match Position(w.schema.columns, table, name, 0)
    case None => Stuck
    case Some(i) =>
      if i >= |row| || (!Named(table) && Position(w.schema.columns, table, name, i + 1).Some?) then Stuck
      else Gives(row[i])
  }

  // ----- aggregates -----

  predicate Counting(name: string) { name == "COUNT" || name == "COUNT_IF" || name == "APPROX_COUNT_DISTINCT" }

  predicate Summing(name: string) { name == "SUM" || name == "SUM_IF" }

  predicate Averaging(name: string) {
    name == "AVG" || name == "AVG_IF" || name == "STDDEV" || name == "VARIANCE" || name == "PERCENTILE"
    || name == "PERCENTILE_APPROX"
  }

  predicate Picking(name: string) {
    name == "MIN" || name == "MAX" || name == "FIRST" || name == "LAST" || name == "ANY_VALUE"
  }

  predicate Collecting(name: string) { name == "COLLECT_LIST" || name == "COLLECT_SET" }

  /** The value of an aggregate over the values of its first argument. */
  function Folded(w: World, call: Call, values: seq<Value>): Value {
    if Counting(call.name) then Tagged(Int64Type, w.tally(call, values))
    else if Summing(call.name) then if AllNull(values) then Null else Made(SumTag(values), w.fold(call, values))
    else if Averaging(call.name) then Made(DoubleType, w.fold(call, values))
    else if Picking(call.name) then if values == [] then Null else values[w.pick(call, values) % |values|]
    else if Collecting(call.name) then Tagged(JsonType, w.tally(call, values))
    else w.call(call.name, values)
  }

  predicate BooleanOrNull(v: Value) { v.Tagged? ==> v.tag.BooleanType? }

  predicate Starred(args: seq<Expr>) { args != [] && args[0].Star? }

  /** Which argument of a conditional aggregate is the condition, and how many arguments it takes. */
  predicate RightCount(name: string, n: nat) {
    (name == "COUNT_IF" ==> n == 1) && (name == "SUM_IF" || name == "AVG_IF" ==> n == 2)
  }

  // ----- several values at once -----

  function One(o: Outcome): Option<seq<Value>> {
    if o.Stuck? then None else Some([o.value])
  }

  function Both(a: Option<seq<Value>>, b: Option<seq<Value>>): Option<seq<Value>> {
    if a.None? || b.None? then None else Some(a.value + b.value)
  }

  /** A predicate: true, false or null, whatever its operands are. */
  function Asserted(w: World, e: Expr, values: Option<seq<Value>>): Outcome {
    if values.None? then Stuck else Gives(Made(BooleanType, w.compute(e, values.value)))
  }

  // ----- expressions -----

  function Eval(w: World, row: Row, e: Expr): Outcome
    decreases e, 5
  {
    match e
    case IntLiteral(_) => Gives(Tagged(Int64Type, w.constant(e)))
    case FloatLiteral(_) => Gives(Tagged(DoubleType, w.constant(e)))
    case StringLiteral(_) => Gives(Tagged(StringType, w.constant(e)))
    case BoolLiteral(truth) => Gives(Truth(truth))
    case NullLiteral => Gives(Null)
    case ColumnRef(table, column) => Fetched(w, row, table, column)
    case Star(_) => Gives(Tagged(Int64Type, w.constant(e)))
    case Binary(_, l, r) =>
      var a, b := Eval(w, row, l), Eval(w, row, r);
      if a.Stuck? || b.Stuck? then Stuck else Operate(w, e, a.value, b.value)
    case Negate(x) =>
      var a := Eval(w, row, x);
      if a.Stuck? then Stuck else Negated(w, e, a.value)
    case LogicalNot(x) => Asserted(w, e, One(Eval(w, row, x)))
    case Between(x, low, high, _) =>
      Asserted(w, e, Both(One(Eval(w, row, x)), Both(One(Eval(w, row, low)), One(Eval(w, row, high)))))
    case InList(x, values, _) => Asserted(w, e, Both(One(Eval(w, row, x)), EvalAll(w, row, values)))
    case IsNull(x, negated) =>
      var a := Eval(w, row, x);
      if a.Stuck? then Stuck else Gives(Truth(a.value.Null? != negated))
    case Like(x, pattern, _) => Asserted(w, e, Both(One(Eval(w, row, x)), One(Eval(w, row, pattern))))
    case Case(base, _, _) =>
      if base.None? then EvalWhens(w, row, e, None, 0)
      else
        var a := Eval(w, row, base.value);
        if a.Stuck? then Stuck else EvalWhens(w, row, e, Some(a.value), 0)
    case Cast(x, target) =>
      var a := Eval(w, row, x);
      if a.Stuck? then Stuck else Gives(Converted(w, e, target, a.value))
    case CallExpr(call) => EvalCall(w, row, call)
    case Window(call, partitionBy, orderBy, frame) =>
      if EvalAll(w, row, partitionBy).None? || !OrdersReady(w, row, orderBy) || !FrameReady(w, row, frame) then Stuck
      else EvalCall(w, row, call)
  }

  function EvalAll(w: World, row: Row, es: seq<Expr>): (r: Option<seq<Value>>)
    ensures r.Some? ==> |r.value| == |es|
    decreases es, 0
  {
    if es == [] then Some([]) else Both(One(Eval(w, row, es[0])), EvalAll(w, row, es[1..]))
  }

  /** The branches from the i-th on: the result of the first condition that holds, or the ELSE, or null. */
  function EvalWhens(w: World, row: Row, e: Expr, base: Option<Value>, i: nat): Outcome
    requires e.Case? && i <= |e.whens|
    decreases e, 4, |e.whens| - i
  {
    if i == |e.whens| then
      if e.otherwise.None? then Gives(Null) else Eval(w, row, e.otherwise.value)
    else
      var when := e.whens[i];
      var c := Eval(w, row, when.condition);
      if c.Stuck? then Stuck
      else if (if base.None? then IsTrue(c.value) else w.equal(base.value, c.value)) then Eval(w, row, when.result)
      else EvalWhens(w, row, e, base, i + 1)
  }

  predicate OrdersReady(w: World, row: Row, os: seq<OrderItem>)
    decreases os, 0
  {
    os != [] ==> OrderReady(w, row, os[0]) && OrdersReady(w, row, os[1..])
  }

  predicate OrderReady(w: World, row: Row, o: OrderItem)
    decreases o, 0
  {
    Eval(w, row, o.expr).Gives?
  }

  predicate FrameReady(w: World, row: Row, frame: Option<Frame>)
    decreases frame, 0
  {
    match frame
    case None => true
    case Some(f) => BoundReady(w, row, f.start) && EndReady(w, row, f.end)
  }

  predicate EndReady(w: World, row: Row, end: Option<Bound>)
    decreases end, 0
  {
    match end
    case None => true
    case Some(b) => BoundReady(w, row, b)
  }

  predicate BoundReady(w: World, row: Row, b: Bound)
    decreases b, 0
  {
    b.Offset? ==> MaybeReady(w, row, b.offset)
  }

  predicate MaybeReady(w: World, row: Row, x: Option<Expr>)
    decreases x, 0
  {
    match x
    case None => true
    case Some(e) => Eval(w, row, e).Gives?
  }

  function EvalCall(w: World, row: Row, call: Call): Outcome
    decreases call, 3
  {
    match call
    case FunctionCall(name, args) =>
      if name !in w.schema.functions then Stuck
      else
        var sig, values := w.schema.functions[name], EvalAll(w, row, args);
        if |args| < sig.minArgs || (sig.maxArgs.Some? && |args| > sig.maxArgs.value) || values.None? then Stuck
        else Gives(w.call(name, values.value))
    case AggregateCall(name, args, _, filter) =>
      var rows := Kept(w, filter, |w.group|);
      if rows.None? || !RightCount(name, |args|) then Stuck
      else if name == "COUNT_IF" && !Starred(args) && !Conditions(w, args[0], rows.value) then Stuck
      else if (name == "SUM_IF" || name == "AVG_IF") && !Conditions(w, args[1], rows.value) then Stuck
      else
        var values := if args == [] || Starred(args) then Some([]) else Over(w, args[0], rows.value);
        if values.None? then Stuck else Gives(Folded(w, call, values.value))
  }

  /** The first n rows of the group that the filter keeps; a filter must be true, false or null. */
  function Kept(w: World, filter: Option<Expr>, n: nat): Option<seq<Row>>
    requires n <= |w.group|
    decreases filter, 1, n
  {
    if n == 0 then Some([])
    else
      var before, row := Kept(w, filter, n - 1), w.group[n - 1];
      match filter
      case None => if before.None? then None else Some(before.value + [row])
      case Some(x) =>
        var v := Eval(w, row, x);
        if before.None? || v.Stuck? || !BooleanOrNull(v.value) then None
        else Some(if IsTrue(v.value) then before.value + [row] else before.value)
  }

  /** The values of an expression on each of the rows. */
  function Over(w: World, e: Expr, rows: seq<Row>): (r: Option<seq<Value>>)
    ensures r.Some? ==> |r.value| == |rows|
    decreases e, 6, |rows|
  {
    if rows == [] then Some([])
    else Both(Over(w, e, rows[..|rows| - 1]), One(Eval(w, rows[|rows| - 1], e)))
  }

  predicate Conditions(w: World, e: Expr, rows: seq<Row>)
    decreases e, 7
  {
    var values := Over(w, e, rows);
    values.Some? && forall i :: 0 <= i < |rows| ==> BooleanOrNull(values.value[i])
  }
}
