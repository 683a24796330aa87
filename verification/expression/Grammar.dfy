/**
 The stratified grammar of packages/lattik-expression/src/parser/parse.ts:4-13 as concrete syntax
 trees: what a tree derives (`Yield`), the expression it stands for (`Strip`), and which trees
 obey the strata and the parser's limits (`Well`).
 */
module Grammar {
  import opened Wrappers
  import opened Ast
  import opened Tokens

  datatype Cst =
    | Atom(tok: Token)
    | Name(name: string)
    | Dotted(qualifier: string, name: string)
    | DottedStar(qualifier: string)
    | Paren(inner: Cst)
    | CNeg(inner: Cst)
    | CNot(inner: Cst)
    | CBin(op: BinaryOp, left: Cst, right: Cst)
    | CIsNull(subject: Cst, negated: bool)
    | CBetween(subject: Cst, low: Cst, high: Cst, negated: bool)
    | CIn(subject: Cst, values: seq<Cst>, negated: bool)
    | CLike(subject: Cst, pattern: Cst, negated: bool)
    | CCase(base: Option<Cst>, whens: seq<CWhen>, otherwise: Option<Cst>)
    | CCast(subject: Cst, target: Token)
    | CCall(head: Token, distinct: bool, args: seq<Cst>, filter: Option<Cst>, over: Option<COver>)

  datatype CWhen = CWhen(condition: Cst, result: Cst)
  datatype COver = COver(partitionBy: seq<Cst>, orderBy: seq<COrder>, frame: Option<CFrame>)
  datatype Direction = Implicit | Ascending | Descending
  datatype COrder = COrder(expr: Cst, direction: Direction, nulls: Option<Nulls>)
  datatype CFrame = CFrame(rows: bool, start: CBound, end: Option<CBound>)
  datatype CBound = CUnbounded(following: bool) | CCurrent | COffset(offset: Cst, following: bool)

  // ----- the tokens a tree derives, in front of k -----

  function Yield(c: Cst, k: TokenList): TokenList
    decreases c, 1
  {
    match c
    case Atom(t) => Cons(t, k)
    case Name(n) => Cons(IDENT(n), k)
    case Dotted(q, n) => Cons(IDENT(q), Cons(K(DOT), Cons(IDENT(n), k)))
    case DottedStar(q) => Cons(IDENT(q), Cons(K(DOT), Cons(K(STAR), k)))
    case Paren(x) => Cons(K(LPAREN), Yield(x, Cons(K(RPAREN), k)))
    case CNeg(x) => Cons(K(MINUS), Yield(x, k))
    case CNot(x) => Cons(K(NOT), Yield(x, k))
    case CBin(op, l, r) => Yield(l, Cons(K(OpKind(op)), Yield(r, k)))
    case CIsNull(x, n) => Yield(x, Cons(K(IS), YieldFlag(n, NOT, Cons(K(NULL), k))))
    case CBetween(x, lo, hi, n) =>
      Yield(x, YieldFlag(n, NOT, Cons(K(BETWEEN), Yield(lo, Cons(K(AND), Yield(hi, k))))))
    case CIn(x, vs, n) =>
      Yield(x, YieldFlag(n, NOT, Cons(K(IN), Cons(K(LPAREN), YieldList(vs, Cons(K(RPAREN), k))))))
    case CLike(x, p, n) => Yield(x, YieldFlag(n, NOT, Cons(K(LIKE), Yield(p, k))))
    case CCase(b, ws, o) =>
      Cons(K(CASE), YieldOption(b, YieldWhens(ws, YieldElse(o, Cons(K(END), k)))))
    case CCast(x, t) =>
      Cons(K(CAST), Cons(K(LPAREN), Yield(x, Cons(K(AS), Cons(t, Cons(K(RPAREN), k))))))
    case CCall(h, d, args, f, o) =>
      Cons(h, Cons(K(LPAREN), YieldFlag(d, DISTINCT,
        YieldList(args, Cons(K(RPAREN), YieldFilter(f, YieldOver(o, k)))))))
  }

  function YieldFlag(b: bool, kind: Kind, k: TokenList): TokenList
  {
    if b then Cons(K(kind), k) else k
  }

  function YieldList(cs: seq<Cst>, k: TokenList): TokenList
    decreases cs, 1
  {
    if cs == [] then k else Yield(cs[0], YieldTail(cs[1..], k))
  }

  function YieldTail(cs: seq<Cst>, k: TokenList): TokenList
    decreases cs, 0
  {
    if cs == [] then k else Cons(K(COMMA), Yield(cs[0], YieldTail(cs[1..], k)))
  }

  function YieldOption(o: Option<Cst>, k: TokenList): TokenList
    decreases o, 0
  {
    match o
    case None => k
    case Some(x) => Yield(x, k)
  }

  function YieldElse(o: Option<Cst>, k: TokenList): TokenList
    decreases o, 0
  {
    match o
    case None => k
    case Some(x) => Cons(K(ELSE), Yield(x, k))
  }

  function YieldFilter(o: Option<Cst>, k: TokenList): TokenList
    decreases o, 0
  {
    match o
    case None => k
    case Some(x) => Cons(K(FILTER), Cons(K(LPAREN), Cons(K(WHERE), Yield(x, Cons(K(RPAREN), k)))))
  }

  function YieldWhens(ws: seq<CWhen>, k: TokenList): TokenList
    decreases ws, 0
  {
    if ws == [] then k else YieldWhen(ws[0], YieldWhens(ws[1..], k))
  }

  function YieldWhen(w: CWhen, k: TokenList): TokenList
    decreases w, 0
  {
    Cons(K(WHEN), Yield(w.condition, Cons(K(THEN), Yield(w.result, k))))
  }

  function YieldOver(o: Option<COver>, k: TokenList): TokenList
    decreases o, 0
  {
    match o
    case None => k
    case Some(w) =>
      Cons(K(OVER), Cons(K(LPAREN),
        YieldPartition(w.partitionBy, YieldOrder(w.orderBy, YieldFrame(w.frame, Cons(K(RPAREN), k))))))
  }

  function YieldPartition(cs: seq<Cst>, k: TokenList): TokenList
    decreases cs, 2
  {
    if cs == [] then k else Cons(K(PARTITION), Cons(K(BY), YieldList(cs, k)))
  }

  function YieldOrder(os: seq<COrder>, k: TokenList): TokenList
    decreases os, 1
  {
    if os == [] then k
    else Cons(K(ORDER), Cons(K(BY), YieldItem(os[0], YieldItems(os[1..], k))))
  }

  function YieldItems(os: seq<COrder>, k: TokenList): TokenList
    decreases os, 0
  {
    if os == [] then k else Cons(K(COMMA), YieldItem(os[0], YieldItems(os[1..], k)))
  }

  function YieldItem(o: COrder, k: TokenList): TokenList
    decreases o, 0
  {
    Yield(o.expr, YieldFlag(o.direction.Ascending?, ASC, YieldFlag(o.direction.Descending?, DESC, YieldNulls(o.nulls, k))))
  }

  function YieldNulls(n: Option<Nulls>, k: TokenList): TokenList
  {
    match n
    case None => k
    case Some(v) => Cons(K(NULLS), Cons(K(if v.NullsFirst? then FIRST else LAST), k))
  }

  function YieldFrame(f: Option<CFrame>, k: TokenList): TokenList
    decreases f, 0
  {
    match f
    case None => k
    case Some(w) => Cons(K(if w.rows then ROWS else RANGE), YieldBound(w.start, YieldEnd(w.end, k)))
  }

  function YieldEnd(b: Option<CBound>, k: TokenList): TokenList
    decreases b, 0
  {
    match b
    case None => k
    case Some(e) => Cons(K(AND), YieldBound(e, k))
  }

  function Side(following: bool): Kind {
    if following then FOLLOWING else PRECEDING
  }

  function YieldBound(b: CBound, k: TokenList): TokenList
    decreases b, 0
  {
    match b
    case CUnbounded(f) => Cons(K(UNBOUNDED), Cons(K(Side(f)), k))
    case CCurrent => Cons(K(CURRENT), Cons(K(ROW), k))
    case COffset(x, f) => Yield(x, Cons(K(Side(f)), k))
  }

  // ----- the expression a tree stands for -----

  /** The upper-cased name of a call; FIRST and LAST are keywords to the lexer but names in front of '('. */
  function HeadName(h: Token): string {
    if h.IDENT? then Upper(h.text) else if h == K(FIRST) then "FIRST" else "LAST"
  }

  /** The spelling the parser takes the name of a call from. */
  function CallName(h: Token): string {
    if h.IDENT? then h.text else HeadName(h)
  }

  lemma UpperCallName(h: Token)
    requires HeadToken(h)
    ensures Upper(CallName(h)) == HeadName(h)
  {
  }

  function StripAtom(t: Token): Expr {
    if t.INTEGER? then IntLiteral(t.text)
    else if t.DECIMAL? then FloatLiteral(t.text)
    else if t.STRING? then StringLiteral(t.text)
    else if t == K(TRUE) then BoolLiteral(true)
    else if t == K(FALSE) then BoolLiteral(false)
    else if t == K(STAR) then Star(None)
    else NullLiteral
  }

  function Strip(c: Cst): Expr
    decreases c, 1
  {
    match c
    case Atom(t) => StripAtom(t)
    case Name(n) => ColumnRef(None, n)
    case Dotted(q, n) => ColumnRef(Some(q), n)
    case DottedStar(q) => Star(Some(q))
    case Paren(x) => Strip(x)
    case CNeg(x) => Negate(Strip(x))
    case CNot(x) => LogicalNot(Strip(x))
    case CBin(op, l, r) => Binary(op, Strip(l), Strip(r))
    case CIsNull(x, n) => IsNull(Strip(x), n)
    case CBetween(x, lo, hi, n) => Between(Strip(x), Strip(lo), Strip(hi), n)
    case CIn(x, vs, n) => InList(Strip(x), StripList(vs), n)
    case CLike(x, p, n) => Like(Strip(x), Strip(p), n)
    case CCase(b, ws, o) => Case(StripOption(b), StripWhens(ws), StripOption(o))
    case CCast(x, t) => Cast(Strip(x), if t.TYPE? then t.scalar else UnknownType)
    case CCall(h, d, args, f, o) =>
      Windowed(CallOf(HeadName(h), StripList(args), d, StripOption(f)), o)
  }

  /** The name alone decides whether a call is an aggregate; DISTINCT on other functions is dropped. */
  function CallOf(name: string, args: seq<Expr>, distinct: bool, filter: Option<Expr>): Call {
    if name in AGGREGATES then AggregateCall(name, args, distinct, filter) else FunctionCall(name, args)
  }

  function Windowed(call: Call, o: Option<COver>): Expr
    decreases o, 0
  {
    match o
    case None => CallExpr(call)
    case Some(w) => Window(call, StripList(w.partitionBy), StripOrders(w.orderBy), StripFrame(w.frame))
  }

  function StripList(cs: seq<Cst>): (r: seq<Expr>)
    ensures |r| == |cs|
    decreases cs, 0
  {
    if cs == [] then [] else [Strip(cs[0])] + StripList(cs[1..])
  }

  function StripOption(o: Option<Cst>): Option<Expr>
    decreases o, 0
  {
    match o
    case None => None
    case Some(x) => Some(Strip(x))
  }

  function StripWhens(ws: seq<CWhen>): (r: seq<When>)
    ensures |r| == |ws|
    decreases ws, 0
  {
    if ws == [] then [] else [StripWhen(ws[0])] + StripWhens(ws[1..])
  }

  function StripWhen(w: CWhen): When
    decreases w, 0
  {
    When(Strip(w.condition), Strip(w.result))
  }

  function StripOrders(os: seq<COrder>): (r: seq<OrderItem>)
    ensures |r| == |os|
    decreases os, 0
  {
    if os == [] then [] else [StripOrder(os[0])] + StripOrders(os[1..])
  }

  function StripOrder(o: COrder): OrderItem
    decreases o, 0
  {
    OrderItem(Strip(o.expr), o.direction.Descending?, o.nulls)
  }

  function StripFrame(f: Option<CFrame>): Option<Frame>
    decreases f, 0
  {
    match f
    case None => None
    case Some(w) =>
      Some(Frame(w.rows, StripBound(w.start), if w.end.None? then None else Some(StripBound(w.end.value))))
  }

  function StripBound(b: CBound): Bound
    decreases b, 0
  {
    match b
    case CUnbounded(f) => Unbounded(f)
    case CCurrent => CurrentRow
    case COffset(x, f) => Offset(Some(Strip(x)), f)
  }

  // ----- the strata and the limits -----

  /** 1 or_expr, 2 and_expr, 3 not_expr, 4 comparison, 5 addition, 6 multiply, 7 unary, 8 primary. */
  function Level(c: Cst): (l: nat)
    ensures 1 <= l <= 8
  {
    match c
    case CBin(op, _, _) => OpLevel(op)
    case CNot(_) => 3
    case CIsNull(_, _) | CBetween(_, _, _, _) | CIn(_, _, _) | CLike(_, _, _) => 4
    case CNeg(_) => 7
    case _ => 8
  }

  /** Operators associate to the left, except comparisons, which do not associate at all. */
  function LeftLevel(op: BinaryOp): nat {
    if OpLevel(op) == 4 then 5 else OpLevel(op)
  }

  function FirstToken(c: Cst): Token {
    match c
    case Atom(t) => t
    case Name(n) => IDENT(n)
    case Dotted(q, _) => IDENT(q)
    case DottedStar(q) => IDENT(q)
    case Paren(_) => K(LPAREN)
    case CNeg(_) => K(MINUS)
    case CNot(_) => K(NOT)
    case CBin(_, l, _) => FirstToken(l)
    case CIsNull(x, _) => FirstToken(x)
    case CBetween(x, _, _, _) => FirstToken(x)
    case CIn(x, _, _) => FirstToken(x)
    case CLike(x, _, _) => FirstToken(x)
    case CCase(_, _, _) => K(CASE)
    case CCast(_, _) => K(CAST)
    case CCall(h, _, _, _, _) => h
  }

  lemma YieldsFirstToken(c: Cst, k: TokenList)
    ensures Yield(c, k).Cons? && Yield(c, k).head == FirstToken(c)
  {
  }

  predicate AtomToken(t: Token) {
    t.INTEGER? || t.DECIMAL? || t.STRING? || t == K(TRUE) || t == K(FALSE) || t == K(NULL) || t == K(STAR)
  }

  predicate HeadToken(t: Token) {
    t.IDENT? || t == K(FIRST) || t == K(LAST)
  }

  /** `COUNT(*)`: its star is not a nested expression, so it fits at any depth. */
  predicate IsCountStar(h: Token, distinct: bool, args: seq<Cst>) {
    HeadName(h) == "COUNT" && !distinct && args == [Atom(K(STAR))]
  }

  /** Right after `COUNT(` a star must be the whole argument list. */
  predicate CountStarRule(h: Token, distinct: bool, args: seq<Cst>) {
    HeadName(h) == "COUNT" && !distinct && args != [] && FirstToken(args[0]) == K(STAR)
    ==> args == [Atom(K(STAR))]
  }

  /** `c` obeys the strata, and parsing it at nesting depth `d` stays within every limit. */
  predicate Well(c: Cst, d: nat)
    decreases c, 1
  {
    match c
    case Atom(t) => AtomToken(t)
    case Name(_) | Dotted(_, _) | DottedStar(_) => true
    case Paren(x) => WellInner(x, d)
    case CNeg(x) => d < MAX_DEPTH && Well(x, d + 1) && Level(x) >= 7
    case CNot(x) => Well(x, d) && Level(x) >= 3
    case CBin(op, l, r) =>
      Well(l, d) && Well(r, d) && Level(l) >= LeftLevel(op) && Level(r) >= OpLevel(op) + 1
    case CIsNull(x, _) => Well(x, d) && Level(x) >= 5
    case CBetween(x, lo, hi, _) =>
      Well(x, d) && Well(lo, d) && Well(hi, d) && Level(x) >= 5 && Level(lo) >= 5 && Level(hi) >= 5
    case CIn(x, vs, _) =>
      Well(x, d) && Level(x) >= 5 && 1 <= |vs| <= MAX_LIST_LENGTH && WellList(vs, d)
    case CLike(x, p, _) => Well(x, d) && Well(p, d) && Level(x) >= 5 && Level(p) >= 5
    case CCase(b, ws, o) =>
      WellOption(b, d) && 1 <= |ws| <= MAX_WHEN_CLAUSES && WellWhens(ws, d) && WellOption(o, d)
    case CCast(x, t) => WellInner(x, d) && t.TYPE? && CastTarget(t.scalar)
    case CCall(h, distinct, args, f, o) =>
      HeadToken(h) && |args| <= MAX_LIST_LENGTH && CountStarRule(h, distinct, args) &&
      (WellList(args, d) || IsCountStar(h, distinct, args)) &&
      (f.Some? ==> HeadName(h) in AGGREGATES) && WellOption(f, d) && WellOver(o, d)
  }

  predicate WellOver(o: Option<COver>, d: nat)
    decreases o, 0
  {
    match o
    case None => true
    case Some(w) =>
      |w.partitionBy| <= MAX_LIST_LENGTH && WellList(w.partitionBy, d) && WellOrders(w.orderBy, d) && WellFrame(w.frame, d)
  }

  /** A nested full expression: one level deeper. */
  predicate WellInner(c: Cst, d: nat)
    decreases c, 2
  {
    d < MAX_DEPTH && Well(c, d + 1)
  }

  predicate WellList(cs: seq<Cst>, d: nat)
    decreases cs, 0
  {
    cs != [] ==> WellInner(cs[0], d) && WellList(cs[1..], d)
  }

  predicate WellOption(o: Option<Cst>, d: nat)
    decreases o, 0
  {
    o.Some? ==> WellInner(o.value, d)
  }

  predicate WellWhens(ws: seq<CWhen>, d: nat)
    decreases ws, 0
  {
    ws != [] ==> WellWhen(ws[0], d) && WellWhens(ws[1..], d)
  }

  predicate WellWhen(w: CWhen, d: nat)
    decreases w, 0
  {
    WellInner(w.condition, d) && WellInner(w.result, d)
  }

  predicate WellOrders(os: seq<COrder>, d: nat)
    decreases os, 0
  {
    os != [] ==> WellOrder(os[0], d) && WellOrders(os[1..], d)
  }

  predicate WellOrder(o: COrder, d: nat)
    decreases o, 0
  {
    WellInner(o.expr, d)
  }

  predicate WellFrame(f: Option<CFrame>, d: nat)
    decreases f, 0
  {
    f.Some? ==> WellBound(f.value.start, d) && (f.value.end.Some? ==> WellBound(f.value.end.value, d))
  }

  predicate WellBound(b: CBound, d: nat)
    decreases b, 0
  {
    b.COffset? ==> WellInner(b.offset, d)
  }
}
