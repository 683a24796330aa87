/** The SQL text of an expression (packages/lattik-expression/src/emitter/emit-sql.ts). */
module Emitter {
  import opened Wrappers
  import opened Ast
  import opened Tokens
  import opened LexerSpec
  import opened Printing

  /** SQL_KEYWORDS (emit-sql.ts:42-51): names that are quoted; listed by length. */
  predicate SqlKeyword(u: string) {
    if |u| <= 3 then ShortSqlKeyword(u)
    else if |u| == 4 then FourLetterSqlKeyword(u)
    else if |u| == 5 then FiveLetterSqlKeyword(u)
    else LongSqlKeyword(u)
  }

  predicate ShortSqlKeyword(u: string) {
    u == "AND" || u == "OR" || u == "NOT" || u == "IN" || u == "IS"
    || u == "AS" || u == "ON" || u == "BY" || u == "ALL" || u == "END"
    || u == "ASC" || u == "ROW"
  }

  predicate FourLetterSqlKeyword(u: string) {
    u == "FROM" || u == "DROP" || u == "VIEW" || u == "NULL" || u == "TRUE"
    || u == "LIKE" || u == "JOIN" || u == "LEFT" || u == "CASE" || u == "WHEN"
    || u == "THEN" || u == "ELSE" || u == "CAST" || u == "DESC" || u == "OVER"
    || u == "ROWS"
  }

  predicate FiveLetterSqlKeyword(u: string) {
    u == "WHERE" || u == "ALTER" || u == "TABLE" || u == "INDEX" || u == "GRANT"
    || u == "FALSE" || u == "RIGHT" || u == "INNER" || u == "OUTER" || u == "CROSS"
    || u == "GROUP" || u == "ORDER" || u == "LIMIT" || u == "UNION" || u == "RANGE"
  }

  predicate LongSqlKeyword(u: string) {
    u == "SELECT" || u == "INSERT" || u == "UPDATE" || u == "DELETE" || u == "CREATE"
    || u == "DATABASE" || u == "SCHEMA" || u == "REVOKE" || u == "BETWEEN" || u == "HAVING"
    || u == "OFFSET" || u == "DISTINCT" || u == "EXISTS" || u == "PARTITION" || u == "UNBOUNDED"
    || u == "PRECEDING" || u == "FOLLOWING" || u == "CURRENT" || u == "FILTER"
  }

  predicate IsWord(s: string) {
    s != "" && IsWordStart(s[0]) && forall i :: 0 <= i < |s| ==> IsWordChar(s[i])
  }

  /** Every occurrence of `q` doubled. */
  function Doubled(s: string, q: char): string {
    if s == "" then "" else (if s[0] == q then [q, q] else [s[0]]) + Doubled(s[1..], q)
  }

  predicate WrittenBare(name: string) {
    IsWord(name) && !SqlKeyword(Upper(name))
  }

  function Ident(name: string): string {
    if WrittenBare(name) then name else "\"" + Doubled(name, '"') + "\""
  }

  function OpText(op: BinaryOp): string {
    match op
    case Or => "OR"
    case And => "AND"
    case Eq => "="
    case Neq => "!="
    case LtGt => "<>"
    case Lt => "<"
    case Lte => "<="
    case Gt => ">"
    case Gte => ">="
    case Add => "+"
    case Sub => "-"
    case Concat => "||"
    case Mul => "*"
    case Div => "/"
    case Mod => "%"
  }

  function TypeText(t: ScalarType): string {
    match t
    case StringType => "STRING"
    case Int32Type => "INT32"
    case Int64Type => "INT64"
    case FloatType => "FLOAT"
    case DoubleType => "DOUBLE"
    case BooleanType => "BOOLEAN"
    case TimestampType => "TIMESTAMP"
    case DateType => "DATE"
    case JsonType => "JSON"
    case NullType => "NULL"
    case UnknownType => "UNKNOWN"
  }

  function EmitSql(e: Expr): string
    decreases e, 1
  {
    match e
    case IntLiteral(s) => s
    case FloatLiteral(s) => s
    case StringLiteral(s) => "'" + Doubled(s, '\'') + "'"
    case BoolLiteral(b) => if b then "TRUE" else "FALSE"
    case NullLiteral => "NULL"
    case ColumnRef(t, n) => if HasTable(t) then Ident(t.value) + "." + Ident(n) else Ident(n)
    case Star(t) => if HasTable(t) then Ident(t.value) + ".*" else "*"
    case Binary(op, l, r) =>
      EmitOperand(l, Precedence(op), false) + " " + OpText(op) + " " + EmitOperand(r, Precedence(op), true)
    case Negate(x) => "-" + EmitOperand(x, UNARY_MINUS_PRECEDENCE, false)
    case LogicalNot(x) => "NOT " + EmitOperand(x, NOT_PRECEDENCE, false)
    case Between(x, lo, hi, n) =>
      EmitSql(x) + (if n then " NOT BETWEEN " else " BETWEEN ") + EmitSql(lo) + " AND " + EmitSql(hi)
    case InList(x, vs, n) => EmitSql(x) + (if n then " NOT IN (" else " IN (") + EmitList(vs) + ")"
    case IsNull(x, n) => EmitSql(x) + (if n then " IS NOT NULL" else " IS NULL")
    case Like(x, p, n) => EmitSql(x) + (if n then " NOT LIKE " else " LIKE ") + EmitSql(p)
    case Case(b, ws, o) =>
      "CASE" + (if b.None? then "" else " " + EmitOption(b)) + EmitWhens(ws)
      + (if o.None? then "" else " ELSE " + EmitOption(o)) + " END"
    case Cast(x, t) => "CAST(" + EmitSql(x) + " AS " + TypeText(t) + ")"
    case CallExpr(call) => EmitCall(call)
    case Window(call, ps, os, f) =>
      EmitCall(call) + " OVER (" + Join([EmitPartition(ps), EmitOrder(os), EmitFrame(f)]) + ")"
  }

  /** The parts of a window that are present, separated by blanks. */
  function Join(parts: seq<string>): string {
    if parts == [] then ""
    else
      var rest := Join(parts[1..]);
      if parts[0] == "" then rest else if rest == "" then parts[0] else parts[0] + " " + rest
  }

  function EmitOperand(child: Expr, parent: nat, right: bool): string
    decreases child, 2
  {
    if Parenthesized(child, parent, right) then "(" + EmitSql(child) + ")" else EmitSql(child)
  }

  function EmitList(es: seq<Expr>): string
    decreases es, 1
  {
    if es == [] then "" else EmitSql(es[0]) + EmitTail(es[1..])
  }

  function EmitTail(es: seq<Expr>): string
    decreases es, 0
  {
    if es == [] then "" else ", " + EmitSql(es[0]) + EmitTail(es[1..])
  }

  function EmitOption(o: Option<Expr>): string
    decreases o, 0
  {
    match o
    case None => ""
    case Some(x) => EmitSql(x)
  }

  function EmitWhens(ws: seq<When>): string
    decreases ws, 0
  {
    if ws == [] then "" else EmitWhen(ws[0]) + EmitWhens(ws[1..])
  }

  function EmitWhen(w: When): string
    decreases w, 0
  {
    " WHEN " + EmitSql(w.condition) + " THEN " + EmitSql(w.result)
  }

  function EmitCall(call: Call): string
    decreases call, 0
  {
    match call
    case FunctionCall(name, args) => name + "(" + EmitList(args) + ")"
    case AggregateCall(name, args, distinct, filter) =>
      name + "(" + (if distinct then "DISTINCT " else "") + EmitList(args) + ")"
      + (if filter.None? then "" else " FILTER (WHERE " + EmitOption(filter) + ")")
  }

  function EmitPartition(es: seq<Expr>): string
    decreases es, 2
  {
    if es == [] then "" else "PARTITION BY " + EmitList(es)
  }

  function EmitOrder(os: seq<OrderItem>): string
    decreases os, 1
  {
    if os == [] then "" else "ORDER BY " + EmitItem(os[0]) + EmitItems(os[1..])
  }

  function EmitItems(os: seq<OrderItem>): string
    decreases os, 0
  {
    if os == [] then "" else ", " + EmitItem(os[0]) + EmitItems(os[1..])
  }

  function EmitItem(o: OrderItem): string
    decreases o, 0
  {
    EmitSql(o.expr) + (if o.descending then " DESC" else "") +
    (match o.nulls case None => "" case Some(NullsFirst) => " NULLS FIRST" case Some(NullsLast) => " NULLS LAST")
  }

  function EmitFrame(f: Option<Frame>): string
    decreases f, 0
  {
    match f
    case None => ""
    case Some(w) =>
      (if w.rows then "ROWS " else "RANGE ") + EmitBound(w.start)
      + (match w.end case None => "" case Some(b) => " AND " + EmitBound(b))
  }

  function EmitBound(b: Bound): string
    decreases b, 0
  {
    match b
    case Unbounded(f) => if f then "UNBOUNDED FOLLOWING" else "UNBOUNDED PRECEDING"
    case CurrentRow => "CURRENT ROW"
    case Offset(None, f) => if f then "1 FOLLOWING" else "1 PRECEDING"
    case Offset(Some(x), f) => EmitSql(x) + (if f then " FOLLOWING" else " PRECEDING")
  }
}
