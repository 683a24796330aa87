// Expression trees and tokens of the Lattik expression language.

/** The expression tree (packages/lattik-expression/src/ast/nodes.ts), without source positions. */
module Ast {
  import opened Wrappers

  datatype ScalarType =
    | StringType | Int32Type | Int64Type | FloatType | DoubleType
    | BooleanType | TimestampType | DateType | JsonType | NullType | UnknownType

  datatype BinaryOp =
    | Or | And
    | Eq | Neq | LtGt | Lt | Lte | Gt | Gte
    | Add | Sub | Concat
    | Mul | Div | Mod

  datatype Expr =
    | IntLiteral(digits: string)
    | FloatLiteral(decimal: string)
    | StringLiteral(chars: string)
    | BoolLiteral(truth: bool)
    | NullLiteral
    | ColumnRef(table: Option<string>, column: string)
    | Star(starTable: Option<string>)
    | Binary(op: BinaryOp, left: Expr, right: Expr)
    | Negate(operand: Expr)
    | LogicalNot(operand: Expr)
    | Between(expr: Expr, low: Expr, high: Expr, negated: bool)
    | InList(expr: Expr, values: seq<Expr>, negated: bool)
    | IsNull(expr: Expr, negated: bool)
    | Like(expr: Expr, pattern: Expr, negated: bool)
    | Case(base: Option<Expr>, whens: seq<When>, otherwise: Option<Expr>)
    | Cast(expr: Expr, target: ScalarType)
    | CallExpr(call: Call)
    | Window(call: Call, partitionBy: seq<Expr>, orderBy: seq<OrderItem>, frame: Option<Frame>)

  datatype When = When(condition: Expr, result: Expr)

  /** The two kinds of call; a window function wraps one of them. */
  datatype Call =
    | FunctionCall(name: string, args: seq<Expr>)
    | AggregateCall(name: string, args: seq<Expr>, distinct: bool, filter: Option<Expr>)

  datatype Nulls = NullsFirst | NullsLast
  datatype OrderItem = OrderItem(expr: Expr, descending: bool, nulls: Option<Nulls>)
  datatype Frame = Frame(rows: bool, start: Bound, end: Option<Bound>)
  datatype Bound =
    | Unbounded(following: bool)
    | CurrentRow
    | Offset(offset: Option<Expr>, following: bool)
}

/** Tokens (packages/lattik-expression/src/parser/lexer.ts:5-83). */
module Tokens {
  import opened Ast

  datatype Kind =
    | AND | OR | NOT | IS | NULL | TRUE | FALSE | IN | BETWEEN | LIKE
    | CASE | WHEN | THEN | ELSE | END | CAST | AS | OVER | PARTITION | BY | ORDER
    | ASC | DESC | ROWS | RANGE | UNBOUNDED | PRECEDING | FOLLOWING | CURRENT | ROW
    | FILTER | WHERE | DISTINCT | NULLS | FIRST | LAST
    | PLUS | MINUS | STAR | SLASH | PERCENT | PIPE_PIPE
    | EQ | NEQ | LTGT | LT | LTE | GT | GTE
    | LPAREN | RPAREN | COMMA | DOT | EOF

  /** Only literals, identifiers and type names carry something the parser reads besides their kind. */
  datatype Token =
    | INTEGER(text: string)
    | DECIMAL(text: string)
    | STRING(text: string)
    | IDENT(text: string)
    | TYPE(scalar: ScalarType)
    | K(kind: Kind)

  function UpperChar(c: char): char {
    if 'a' <= c <= 'z' then c - 'a' + 'A' else c
  }

  function Upper(s: string): (u: string)
    ensures |u| == |s| && forall i :: 0 <= i < |s| ==> u[i] == UpperChar(s[i])
  {
    seq(|s|, i requires 0 <= i < |s| => UpperChar(s[i]))
  }

  const AGGREGATES: set<string> := {
    "SUM", "COUNT", "AVG", "MIN", "MAX", "FIRST", "LAST", "COUNT_DISTINCT", "COLLECT_LIST",
    "COLLECT_SET", "ANY_VALUE", "STDDEV", "VARIANCE", "COUNT_IF", "SUM_IF", "AVG_IF",
    "PERCENTILE", "PERCENTILE_APPROX", "APPROX_COUNT_DISTINCT" }

  const MAX_DEPTH := 128
  const MAX_LIST_LENGTH := 10_000
  const MAX_WHEN_CLAUSES := 1_000

  function OpKind(op: BinaryOp): Kind {
    match op
    case Or => OR
    case And => AND
    case Eq => EQ
    case Neq => NEQ
    case LtGt => LTGT
    case Lt => LT
    case Lte => LTE
    case Gt => GT
    case Gte => GTE
    case Add => PLUS
    case Sub => MINUS
    case Concat => PIPE_PIPE
    case Mul => STAR
    case Div => SLASH
    case Mod => PERCENT
  }

  /** The grammar level of a binary operator: 1 OR, 2 AND, 4 comparison, 5 additive, 6 multiplicative. */
  function OpLevel(op: BinaryOp): nat {
    match op
    case Or => 1
    case And => 2
    case Eq | Neq | LtGt | Lt | Lte | Gt | Gte => 4
    case Add | Sub | Concat => 5
    case Mul | Div | Mod => 6
  }

  /** The types a CAST can name; the checker's `null` and `unknown` have no type keyword. */
  predicate CastTarget(t: ScalarType) {
    !t.NullType? && !t.UnknownType?
  }

  /** The tokens still to be read; `End` stands for the EOF token every token list is closed by. */
  datatype TokenList = End | Cons(head: Token, tail: TokenList)

  function Length(ts: TokenList): nat {
    match ts
    case End => 0
    case Cons(_, tail) => 1 + Length(tail)
  }

  function Peek(ts: TokenList): Token {
    if ts.End? then K(EOF) else ts.head
  }
}
