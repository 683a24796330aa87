/**
 The text of an expression, cut into pieces of at most a token each, so that text and tokens can
 be compared piece by piece.
 */
module Pieces {
  import opened Wrappers
  import opened Ast
  import opened Tokens
  import opened LexerSpec
  import opened Printing
  import opened Emitter
  import opened Lexing

  // ----- expressions whose names and literals survive the lexer -----

  /** The name of a call is written as it is, so it must be one word that is no keyword but FIRST or LAST. */
  predicate CallNameLexes(name: string) {
    IsWord(name) && WordToken(name, false) == NameToken(name)
  }

  /**
   What may be asked of an expression so that its text can be read back: that calls are named by single
   words (`words`), that no minus stands right in front of another (`apart`), that literals and names
   are such as the lexer gives (`leaves`), and that no name written bare is a keyword to it (`kept`).
   */
  datatype Demand = Demand(words: bool, apart: bool, leaves: bool, kept: bool)

  type Full = m: Demand | m.words && m.leaves witness Demand(true, false, true, false)

  const WORDS := Demand(true, false, false, false)
  const APART := Demand(false, true, false, false)
  const LEAVES := Demand(false, false, true, false)
  const KEPT := Demand(false, false, true, true)

  predicate NameMeets(name: string, m: Demand) {
    (m.leaves ==> NameReadable(name)) && (m.kept ==> NameLexes(name))
  }

  predicate TableMeets(t: Option<string>, m: Demand) {
    HasTable(t) ==> NameMeets(t.value, m)
  }

  /** The text begins with a minus sign. */
  predicate StartsWithMinus(e: Expr) {
    match e
    case Negate(_) => true
    case Binary(op, l, _) => !Parenthesized(l, Precedence(op), false) && StartsWithMinus(l)
    case Between(x, _, _, _) => StartsWithMinus(x)
    case InList(x, _, _) => StartsWithMinus(x)
    case IsNull(x, _) => StartsWithMinus(x)
    case Like(x, _, _) => StartsWithMinus(x)
    case _ => false
  }

  predicate Meets(e: Expr, m: Demand)
    decreases e, 1
  {
    match e
    case IntLiteral(s) => m.leaves ==> IsInteger(s)
    case FloatLiteral(s) => m.leaves ==> IsDecimal(s)
    case StringLiteral(s) => m.leaves ==> StringFits(s)
    case BoolLiteral(_) | NullLiteral => true
    case ColumnRef(t, n) => TableMeets(t, m) && NameMeets(n, m)
    case Star(t) => TableMeets(t, m)
    case Binary(_, l, r) => Meets(l, m) && Meets(r, m)
    case Negate(x) => Meets(x, m) && (m.apart ==> Parenthesized(x, UNARY_MINUS_PRECEDENCE, false) || !StartsWithMinus(x))
    case LogicalNot(x) => Meets(x, m)
    case Between(x, lo, hi, _) => Meets(x, m) && Meets(lo, m) && Meets(hi, m)
    case InList(x, vs, _) => Meets(x, m) && MeetsList(vs, m)
    case IsNull(x, _) => Meets(x, m)
    case Like(x, p, _) => Meets(x, m) && Meets(p, m)
    case Case(b, ws, o) => MeetsOption(b, m) && MeetsWhens(ws, m) && MeetsOption(o, m)
    case Cast(x, _) => Meets(x, m)
    case CallExpr(call) => MeetsCall(call, m)
    case Window(call, ps, os, f) => MeetsCall(call, m) && MeetsList(ps, m) && MeetsOrders(os, m) && MeetsFrame(f, m)
  }

  predicate MeetsCall(call: Call, m: Demand)
    decreases call, 0
  {
    (m.words ==> CallNameLexes(call.name)) && MeetsList(call.args, m) && (call.AggregateCall? ==> MeetsOption(call.filter, m))
  }

  predicate MeetsList(es: seq<Expr>, m: Demand)
    decreases es, 0
  {
    es != [] ==> Meets(es[0], m) && MeetsList(es[1..], m)
  }

  predicate MeetsOption(o: Option<Expr>, m: Demand)
    decreases o, 0
  {
    match o
    case None => true
    case Some(x) => Meets(x, m)
  }

  predicate MeetsWhens(ws: seq<When>, m: Demand)
    decreases ws, 0
  {
    ws != [] ==> MeetsWhen(ws[0], m) && MeetsWhens(ws[1..], m)
  }

  predicate MeetsWhen(w: When, m: Demand)
    decreases w, 0
  {
    Meets(w.condition, m) && Meets(w.result, m)
  }

  predicate MeetsOrders(os: seq<OrderItem>, m: Demand)
    decreases os, 0
  {
    os != [] ==> MeetsOrder(os[0], m) && MeetsOrders(os[1..], m)
  }

  predicate MeetsOrder(o: OrderItem, m: Demand)
    decreases o, 0
  {
    Meets(o.expr, m)
  }

  predicate MeetsFrame(f: Option<Frame>, m: Demand)
    decreases f, 0
  {
    match f
    case None => true
    case Some(w) => MeetsBound(w.start, m) && MeetsEnd(w.end, m)
  }

  predicate MeetsEnd(b: Option<Bound>, m: Demand)
    decreases b, 0
  {
    match b
    case None => true
    case Some(x) => MeetsBound(x, m)
  }

  predicate MeetsBound(b: Bound, m: Demand)
    decreases b, 0
  {
    b.Offset? ==> MeetsOption(b.offset, m)
  }

  // ----- pieces -----

  /** The kinds that are printed as a word. */
  predicate HasSpelling(k: Kind) {
    !(k.AS? || k.ASC? || k.PLUS? || k.MINUS? || k.STAR? || k.SLASH? || k.PERCENT? || k.PIPE_PIPE?
      || k.EQ? || k.NEQ? || k.LTGT? || k.LT? || k.LTE? || k.GT? || k.GTE?
      || k.LPAREN? || k.RPAREN? || k.COMMA? || k.DOT? || k.EOF?)
  }

  function Spelling(k: Kind): string {
    match k
    case AND => "AND" case OR => "OR" case NOT => "NOT" case IS => "IS" case NULL => "NULL"
    case TRUE => "TRUE" case FALSE => "FALSE" case IN => "IN" case BETWEEN => "BETWEEN" case LIKE => "LIKE"
    case CASE => "CASE" case WHEN => "WHEN" case THEN => "THEN" case ELSE => "ELSE" case END => "END"
    case CAST => "CAST" case OVER => "OVER" case PARTITION => "PARTITION" case BY => "BY"
    case ORDER => "ORDER" case DESC => "DESC" case ROWS => "ROWS" case RANGE => "RANGE"
    case UNBOUNDED => "UNBOUNDED" case PRECEDING => "PRECEDING" case FOLLOWING => "FOLLOWING"
    case CURRENT => "CURRENT" case ROW => "ROW" case FILTER => "FILTER" case WHERE => "WHERE"
    case DISTINCT => "DISTINCT" case NULLS => "NULLS" case FIRST => "FIRST" case LAST => "LAST"
    case _ => "*"
  }

  datatype Piece =
    | Blank
    | Key(kind: Kind)
    | Operator(op: BinaryOp)
    | Delimiter(ch: char)
    | Integer(digits: string)
    | Decimal(decimal: string)
    | Literal(chars: string)
    | Name(name: string)
    | CallName(name: string)
    | AsType(target: ScalarType)

  datatype Text = Done | More(piece: Piece, rest: Text)

  function Write(p: Piece): string {
    match p
    case Blank => " "
    case Key(k) => Spelling(k)
    case Operator(op) => OpText(op)
    case Delimiter(c) => [c]
    case Integer(s) => s
    case Decimal(s) => s
    case Literal(v) => "'" + Doubled(v, '\'') + "'"
    case Name(n) => Ident(n)
    case CallName(n) => n
    case AsType(t) => " AS " + TypeText(t)
  }

  function Flatten(t: Text): string {
    match t
    case Done => ""
    case More(p, rest) => Write(p) + Flatten(rest)
  }

  function TokensOf(p: Piece, k: TokenList): TokenList {
    match p
    case Blank => k
    case Key(kind) => Cons(K(kind), k)
    case Operator(op) => Cons(K(OpKind(op)), k)
    case Delimiter(c) => if Single(c).Some? then Cons(K(Single(c).value), k) else k
    case Integer(s) => Cons(INTEGER(s), k)
    case Decimal(s) => Cons(DECIMAL(s), k)
    case Literal(v) => Cons(STRING(v), k)
    case Name(n) => Cons(IDENT(n), k)
    case CallName(n) => Cons(NameToken(n), k)
    case AsType(t) => Cons(K(AS), Cons(TypeToken(t), k))
  }

  function AllTokens(t: Text): TokenList {
    match t
    case Done => End
    case More(p, rest) => TokensOf(p, AllTokens(rest))
  }

  // ----- the pieces of an expression, in front of k -----

  function Cut(e: Expr, k: Text): Text
    decreases e, 2
  {
    match e
    case IntLiteral(s) => More(Integer(s), k)
    case FloatLiteral(s) => More(Decimal(s), k)
    case StringLiteral(s) => More(Literal(s), k)
    case BoolLiteral(b) => More(Key(if b then TRUE else FALSE), k)
    case NullLiteral => More(Key(NULL), k)
    case ColumnRef(t, n) =>
      if HasTable(t) then More(Name(t.value), More(Delimiter('.'), More(Name(n), k))) else More(Name(n), k)
    case Star(t) =>
      if HasTable(t) then More(Name(t.value), More(Delimiter('.'), More(Delimiter('*'), k)))
      else More(Delimiter('*'), k)
    case Binary(op, l, r) =>
      CutOperand(l, Precedence(op), false,
        More(Blank, More(Operator(op), More(Blank, CutOperand(r, Precedence(op), true, k)))))
    case Negate(x) => More(Delimiter('-'), CutOperand(x, UNARY_MINUS_PRECEDENCE, false, k))
    case LogicalNot(x) => More(Key(NOT), More(Blank, CutOperand(x, NOT_PRECEDENCE, false, k)))
    case Between(x, lo, hi, n) =>
      Cut(x, CutInfix(n, BETWEEN, Cut(lo, Spaced(AND, Cut(hi, k)))))
    case InList(x, vs, n) =>
      Cut(x, CutInfix(n, IN, More(Delimiter('('), CutList(vs, More(Delimiter(')'), k)))))
    case IsNull(x, n) =>
      Cut(x, More(Blank, More(Key(IS), CutNot(n, More(Blank, More(Key(NULL), k))))))
    case Like(x, p, n) => Cut(x, CutInfix(n, LIKE, Cut(p, k)))
    case Case(b, ws, o) =>
      More(Key(CASE), CutBase(b, CutWhens(ws, CutElse(o, More(Blank, More(Key(END), k))))))
    case Cast(x, t) =>
      More(Key(CAST), More(Delimiter('('), Cut(x, More(AsType(t), More(Delimiter(')'), k)))))
    case CallExpr(call) => CutCall(call, k)
    case Window(call, _, _, _) => CutCall(call, CutOver(e, k))
  }

  function Spaced(kind: Kind, k: Text): Text {
    More(Blank, More(Key(kind), More(Blank, k)))
  }

  function CutNot(negated: bool, k: Text): Text {
    if negated then More(Blank, More(Key(NOT), k)) else k
  }

  function CutInfix(negated: bool, kind: Kind, k: Text): Text {
    CutNot(negated, Spaced(kind, k))
  }

  function CutOperand(x: Expr, parent: nat, right: bool, k: Text): Text
    decreases x, 3
  {
    if Parenthesized(x, parent, right) then More(Delimiter('('), Cut(x, More(Delimiter(')'), k))) else Cut(x, k)
  }

  function CutList(es: seq<Expr>, k: Text): Text
    decreases es, 1
  {
    if es == [] then k else Cut(es[0], CutTail(es[1..], k))
  }

  function CutTail(es: seq<Expr>, k: Text): Text
    decreases es, 0
  {
    if es == [] then k else More(Delimiter(','), More(Blank, Cut(es[0], CutTail(es[1..], k))))
  }

  function CutBase(o: Option<Expr>, k: Text): Text
    decreases o, 0
  {
    match o
    case None => k
    case Some(x) => More(Blank, Cut(x, k))
  }

  function CutElse(o: Option<Expr>, k: Text): Text
    decreases o, 0
  {
    match o
    case None => k
    case Some(x) => Spaced(ELSE, Cut(x, k))
  }

  function CutWhens(ws: seq<When>, k: Text): Text
    decreases ws, 0
  {
    if ws == [] then k else CutWhen(ws[0], CutWhens(ws[1..], k))
  }

  function CutWhen(w: When, k: Text): Text
    decreases w, 0
  {
    Spaced(WHEN, Cut(w.condition, Spaced(THEN, Cut(w.result, k))))
  }

  function CutCall(call: Call, k: Text): Text
    decreases call, 0
  {
    match call
    case FunctionCall(name, args) =>
      More(CallName(name), More(Delimiter('('), CutList(args, More(Delimiter(')'), k))))
    case AggregateCall(name, args, distinct, filter) =>
      More(CallName(name), More(Delimiter('('), CutDistinct(distinct,
        CutList(args, More(Delimiter(')'), CutFilter(filter, k))))))
  }

  function CutDistinct(distinct: bool, k: Text): Text {
    if distinct then More(Key(DISTINCT), More(Blank, k)) else k
  }

  function CutFilter(f: Option<Expr>, k: Text): Text
    decreases f, 0
  {
    match f
    case None => k
    case Some(x) =>
      Spaced(FILTER, More(Delimiter('('), More(Key(WHERE), More(Blank, Cut(x, More(Delimiter(')'), k))))))
  }

  function CutOver(e: Expr, k: Text): Text
    requires e.Window?
    decreases e, 1
  {
    Spaced(OVER, More(Delimiter('('), CutParts(e, More(Delimiter(')'), k))))
  }

  function CutParts(e: Expr, k: Text): Text
    requires e.Window?
    decreases e, 0
  {
    var Window(_, ps, os, f) := e;
    var order := CutOrder(os, CutGap(os != [] && f.Some?, CutFrame(f, k)));
    CutPartition(ps, CutGap(ps != [] && (os != [] || f.Some?), order))
  }

  function CutGap(b: bool, k: Text): Text {
    if b then More(Blank, k) else k
  }

  function CutPartition(es: seq<Expr>, k: Text): Text
    decreases es, 2
  {
    if es == [] then k else More(Key(PARTITION), More(Blank, More(Key(BY), More(Blank, CutList(es, k)))))
  }

  function CutOrder(os: seq<OrderItem>, k: Text): Text
    decreases os, 1
  {
    if os == [] then k
    else More(Key(ORDER), More(Blank, More(Key(BY), More(Blank, CutItem(os[0], CutItems(os[1..], k))))))
  }

  function CutItems(os: seq<OrderItem>, k: Text): Text
    decreases os, 0
  {
    if os == [] then k else More(Delimiter(','), More(Blank, CutItem(os[0], CutItems(os[1..], k))))
  }

  function CutItem(o: OrderItem, k: Text): Text
    decreases o, 0
  {
    Cut(o.expr, CutWord(o.descending, DESC, CutNulls(o.nulls, k)))
  }

  function CutWord(b: bool, kind: Kind, k: Text): Text {
    if b then More(Blank, More(Key(kind), k)) else k
  }

  function CutNulls(n: Option<Nulls>, k: Text): Text {
    match n
    case None => k
    case Some(v) =>
      More(Blank, More(Key(NULLS), More(Blank, More(Key(if v.NullsFirst? then FIRST else LAST), k))))
  }

  function CutFrame(f: Option<Frame>, k: Text): Text
    decreases f, 0
  {
    match f
    case None => k
    case Some(w) => More(Key(if w.rows then ROWS else RANGE), More(Blank, CutBound(w.start, CutEnd(w.end, k))))
  }

  function CutEnd(b: Option<Bound>, k: Text): Text
    decreases b, 0
  {
    match b
    case None => k
    case Some(x) => Spaced(AND, CutBound(x, k))
  }

  function CutBound(b: Bound, k: Text): Text
    decreases b, 0
  {
    match b
    case Unbounded(f) => More(Key(UNBOUNDED), More(Blank, More(Key(if f then FOLLOWING else PRECEDING), k)))
    case CurrentRow => More(Key(CURRENT), More(Blank, More(Key(ROW), k)))
    case Offset(None, f) => More(Integer("1"), More(Blank, More(Key(if f then FOLLOWING else PRECEDING), k)))
    case Offset(Some(x), f) => Cut(x, More(Blank, More(Key(if f then FOLLOWING else PRECEDING), k)))
  }
}
