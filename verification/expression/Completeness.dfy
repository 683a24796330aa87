/**
 The parser accepts every sentence of the grammar: parsing what a well-formed concrete tree
 yields gives back the expression it stands for, records no error and stops exactly behind it.
 */
module Completeness {
  import opened Wrappers
  import opened Ast
  import opened Tokens
  import opened Grammar
  import opened ParserSpec

  /** The lowest level at which a token would extend the expression in front of it; 0 if it never does. */
  function Binds(t: Token): nat {
    if !t.K? then 0
    else if t.kind.OR? then 1
    else if t.kind.AND? then 2
    else if CompareOp(t).Some? || t.kind.IS? || t.kind.BETWEEN? || t.kind.IN? || t.kind.LIKE? || t.kind.NOT? then 4
    else if t.kind.PLUS? || t.kind.MINUS? || t.kind.PIPE_PIPE? then 5
    else if t.kind.STAR? || t.kind.SLASH? || t.kind.PERCENT? then 6
    else if t.kind.LPAREN? || t.kind.DOT? || t.kind.OVER? || t.kind.FILTER? then 8
    else 0
  }

  predicate Stops(level: nat, k: TokenList) {
    Binds(Peek(k)) < level
  }

  /** The tokens an expression of at least this level can begin with. */
  predicate Starts(t: Token, level: nat) {
    AtomToken(t) || HeadToken(t) || t == K(LPAREN) || t == K(CASE) || t == K(CAST)
    || (t == K(MINUS) && level <= 7) || (t == K(NOT) && level <= 3)
  }

  lemma WellStarts(c: Cst, d: nat)
    requires Well(c, d)
    ensures Starts(FirstToken(c), Level(c))
  {
  }

  function Parsed<T>(v: T, k: TokenList, es: seq<ParseError>): Result<T> {
    Result(v, State(k, es))
  }

  // ----- one step of the parser, no grammar involved -----

  lemma LoopStops(level: nat, left: Result<Expr>, d: nat)
    requires ChainLevel(level) && Stops(level, left.st.toks)
    ensures Loop(level, left, d) == left
  {
  }

  /** A level without operator of its own in the input passes the next level's result through. */
  lemma PassThrough(level: nat, s: State, d: nat, r: Result<Expr>)
    requires 1 <= level <= 7 && Parse(level + 1, s, d) == r
    requires Binds(Peek(r.st.toks)) < level
    requires level == 3 ==> !At(s, NOT)
    requires level == 7 ==> !At(s, MINUS)
    ensures Parse(level, s, d) == r
  {
    if level == 4 {
      assert Parse(level, s, d) == ComparisonTail(r, d);
    } else if ChainLevel(level) {
      LoopStops(level, r, d);
    }
  }

  lemma ChainStep(level: nat, op: BinaryOp, left: Expr, s: State, d: nat, right: Result<Expr>)
    requires ChainLevel(level) && OpLevel(op) == level
    requires Parse(level + 1, s, d) == right && Binds(Peek(right.st.toks)) <= level
    ensures Loop(level, Parsed(left, Cons(K(OpKind(op)), s.toks), s.errs), d)
         == Loop(level, Result(Binary(op, left, right.val), right.st), d)
  {
    var l := Parsed(left, Cons(K(OpKind(op)), s.toks), s.errs);
    assert ChainOp(level, Peek(l.st.toks)) == Some(op);
    assert Advance(l.st) == s;
  }

  lemma PrefixStep(s: State, d: nat)
    ensures Parse(3, State(Cons(K(NOT), s.toks), s.errs), d)
         == var x := Parse(3, s, d); Result(LogicalNot(x.val), x.st)
    ensures d < MAX_DEPTH ==>
              Parse(7, State(Cons(K(MINUS), s.toks), s.errs), d)
              == var x := Parse(7, s, d + 1); Result(Negate(x.val), x.st)
  {
  }

  lemma CompareStep(left: Expr, op: BinaryOp, s: State, d: nat)
    requires OpLevel(op) == 4
    ensures ComparisonTail(Parsed(left, Cons(K(OpKind(op)), s.toks), s.errs), d) == CompareTail(left, op, s, d)
  {
  }

  lemma BetweenStep(left: Expr, negated: bool, s: State, d: nat)
    ensures ComparisonTail(Parsed(left, YieldFlag(negated, NOT, Cons(K(BETWEEN), s.toks)), s.errs), d)
         == BetweenTail(left, negated, s, d)
  {
  }

  lemma InStep(left: Expr, negated: bool, s: State, d: nat)
    ensures ComparisonTail(Parsed(left, YieldFlag(negated, NOT, Cons(K(IN), s.toks)), s.errs), d)
         == InTail(left, negated, s, d)
  {
  }

  lemma LikeStep(left: Expr, negated: bool, s: State, d: nat)
    ensures ComparisonTail(Parsed(left, YieldFlag(negated, NOT, Cons(K(LIKE), s.toks)), s.errs), d)
         == LikeTail(left, negated, s, d)
  {
  }

  /** FIRST and LAST are names in front of '(', like any identifier. */
  lemma CallStep(h: Token, s: State, d: nat)
    requires HeadToken(h) && At(s, LPAREN)
    ensures Parse(8, State(Cons(h, s.toks), s.errs), d) == FunctionCallExpr(CallName(h), s, d)
  {
    var s0 := State(Cons(h, s.toks), s.errs);
    assert Advance(s0) == s;
    assert Parse(8, s0, d) == Primary(s0, d);
    if h.IDENT? {
      assert Primary(s0, d) == IdentExpr(h.text, s, d);
    }
  }

  lemma AtomStep(t: Token, k: TokenList, es: seq<ParseError>, d: nat)
    requires AtomToken(t)
    ensures Parse(8, State(Cons(t, k), es), d) == Parsed(StripAtom(t), k, es)
  {
  }

  lemma NameStep(name: string, s: State, d: nat)
    ensures Parse(8, State(Cons(IDENT(name), s.toks), s.errs), d) == IdentExpr(name, s, d)
  {
  }

  lemma CompleteName(c: Cst, k: TokenList, es: seq<ParseError>, d: nat)
    requires (c.Name? && Stops(8, k)) || c.Dotted? || c.DottedStar?
    ensures Parse(8, State(Yield(c, k), es), d) == Parsed(Strip(c), k, es)
  {
    var name := if c.Name? then c.name else c.qualifier;
    var s := State(Yield(c, k).tail, es);
    NameStep(name, s, d);
    assert Advance(Advance(s)).toks == k || c.Name?;
  }

  lemma ParenStep(s: State, d: nat)
    ensures Parse(8, State(Cons(K(LPAREN), s.toks), s.errs), d)
         == var x := ParseExpr(s, d); Result(x.val, Expect(x.st, RPAREN))
  {
    var s0 := State(Cons(K(LPAREN), s.toks), s.errs);
    assert Advance(s0) == s;
    assert Parse(8, s0, d) == Primary(s0, d);
  }

  lemma CastStep(s: State, d: nat)
    ensures Parse(8, State(Cons(K(CAST), s.toks), s.errs), d) == CastExpr(s, d)
  {
    var s0 := State(Cons(K(CAST), s.toks), s.errs);
    assert Advance(s0) == s;
    assert Parse(8, s0, d) == Primary(s0, d);
  }

  lemma CaseStep(s: State, d: nat)
    ensures Parse(8, State(Cons(K(CASE), s.toks), s.errs), d) == CaseExpr(s, d)
  {
    var s0 := State(Cons(K(CASE), s.toks), s.errs);
    assert Advance(s0) == s;
    assert Parse(8, s0, d) == Primary(s0, d);
  }

  // ----- completeness, rule by rule -----

  lemma {:induction false} Complete(level: nat, c: Cst, k: TokenList, es: seq<ParseError>, d: nat)
    requires 1 <= level <= Level(c) && Well(c, d) && Stops(level, k)
    ensures Parse(level, State(Yield(c, k), es), d) == Parsed(Strip(c), k, es)
    decreases c, 20 - 2 * level
  {
    if ChainLevel(level) {
      CompleteChain(level, c, k, es, d);
      LoopStops(level, Parsed(Strip(c), k, es), d);
    } else if level < Level(c) {
      CompleteAbove(level, c, k, es, d);
    } else if level == 8 {
      CompletePrimary(c, k, es, d);
    } else if level == 4 {
      CompleteComparison(c, k, es, d);
    } else {
      CompletePrefix(c, k, es, d);
    }
  }

  lemma {:induction false} CompletePrefix(c: Cst, k: TokenList, es: seq<ParseError>, d: nat)
    requires (c.CNot? || c.CNeg?) && Well(c, d) && Stops(Level(c), k)
    ensures Parse(Level(c), State(Yield(c, k), es), d) == Parsed(Strip(c), k, es)
    decreases c, 0
  {
    Complete(Level(c), c.inner, k, es, if c.CNot? then d else d + 1);
    PrefixStep(State(Yield(c.inner, k), es), d);
  }

  lemma {:induction false} CompleteAbove(level: nat, c: Cst, k: TokenList, es: seq<ParseError>, d: nat)
    requires 1 <= level < Level(c) && !ChainLevel(level) && Well(c, d) && Stops(level, k)
    ensures Parse(level, State(Yield(c, k), es), d) == Parsed(Strip(c), k, es)
    decreases c, 19 - 2 * level
  {
    YieldsFirstToken(c, k);
    WellStarts(c, d);
    Complete(level + 1, c, k, es, d);
    PassThrough(level, State(Yield(c, k), es), d, Parsed(Strip(c), k, es));
  }

  /** An operand chain of a left-associative level is consumed up to the loop over what follows. */
  lemma {:induction false} CompleteChain(level: nat, c: Cst, k: TokenList, es: seq<ParseError>, d: nat)
    requires ChainLevel(level) && level <= Level(c) && Well(c, d) && Stops(level + 1, k)
    ensures Parse(level, State(Yield(c, k), es), d) == Loop(level, Parsed(Strip(c), k, es), d)
    decreases c, 19 - 2 * level
  {
    if level < Level(c) {
      Complete(level + 1, c, k, es, d);
    } else {
      var CBin(op, l, r) := c;
      var fromRight := Yield(r, k);
      CompleteChain(level, l, Cons(K(OpKind(op)), fromRight), es, d);
      Complete(level + 1, r, k, es, d);
      ChainStep(level, op, Strip(l), State(fromRight, es), d, Parsed(Strip(r), k, es));
    }
  }

  lemma {:induction false} CompleteComparison(c: Cst, k: TokenList, es: seq<ParseError>, d: nat)
    requires Level(c) == 4 && Well(c, d) && Stops(4, k)
    ensures Parse(Level(c), State(Yield(c, k), es), d) == Parsed(Strip(c), k, es)
    decreases c, 1
  {
    var x := if c.CBin? then c.left else c.subject;
    var fromOp := AfterSubject(c, k);
    Complete(5, x, fromOp, es, d);
    CompleteComparisonTail(c, k, es, d);
    assert Parse(4, State(Yield(c, k), es), d) == Comparison(State(Yield(c, k), es), d);
  }

  /** The tokens behind the first operand of a comparison or predicate. */
  function AfterSubject(c: Cst, k: TokenList): (r: TokenList)
    requires Level(c) == 4
    ensures Yield(c, k) == Yield(if c.CBin? then c.left else c.subject, r)
    ensures Binds(Peek(r)) == 4
  {
    match c
    case CBin(op, _, r) => Cons(K(OpKind(op)), Yield(r, k))
    case CIsNull(_, n) => Cons(K(IS), YieldFlag(n, NOT, Cons(K(NULL), k)))
    case CBetween(_, lo, hi, n) => YieldFlag(n, NOT, Cons(K(BETWEEN), Yield(lo, Cons(K(AND), Yield(hi, k)))))
    case CIn(_, vs, n) =>
      YieldFlag(n, NOT, Cons(K(IN), Cons(K(LPAREN), YieldList(vs, Cons(K(RPAREN), k)))))
    case CLike(_, p, n) => YieldFlag(n, NOT, Cons(K(LIKE), Yield(p, k)))
  }

  lemma {:induction false} CompleteComparisonTail(c: Cst, k: TokenList, es: seq<ParseError>, d: nat)
    requires Level(c) == 4 && Well(c, d) && Stops(4, k)
    ensures ComparisonTail(Parsed(Strip(if c.CBin? then c.left else c.subject), AfterSubject(c, k), es), d)
         == Parsed(Strip(c), k, es)
    decreases c, 0
  {
    if c.CBin? {
      Complete(5, c.right, k, es, d);
      CompareStep(Strip(c.left), c.op, State(Yield(c.right, k), es), d);
    } else if c.CIsNull? {
    } else if c.CBetween? {
      Complete(5, c.low, Cons(K(AND), Yield(c.high, k)), es, d);
      Complete(5, c.high, k, es, d);
      BetweenStep(Strip(c.subject), c.negated, State(Yield(c.low, Cons(K(AND), Yield(c.high, k))), es), d);
    } else if c.CIn? {
      CompleteList(c.values, Cons(K(RPAREN), k), es, d);
      InStep(Strip(c.subject), c.negated, State(Cons(K(LPAREN), YieldList(c.values, Cons(K(RPAREN), k))), es), d);
    } else {
      Complete(5, c.pattern, k, es, d);
      LikeStep(Strip(c.subject), c.negated, State(Yield(c.pattern, k), es), d);
    }
  }

  lemma {:induction false} CompleteInner(c: Cst, k: TokenList, es: seq<ParseError>, d: nat)
    requires WellInner(c, d) && Stops(1, k)
    ensures ParseExpr(State(Yield(c, k), es), d) == Parsed(Strip(c), k, es)
    decreases c, 30
  {
    Complete(1, c, k, es, d + 1);
  }

  lemma {:induction false} CompleteList(cs: seq<Cst>, k: TokenList, es: seq<ParseError>, d: nat)
    requires 1 <= |cs| <= MAX_LIST_LENGTH && WellList(cs, d) && Stops(1, k) && Peek(k) != K(COMMA)
    ensures ExprList(State(YieldList(cs, k), es), d) == Parsed(StripList(cs), k, es)
    decreases cs, 1
  {
    TailStops(cs[1..], k);
    CompleteInner(cs[0], YieldTail(cs[1..], k), es, d);
    CompleteTail(1, cs[1..], k, es, d);
  }

  lemma TailStops(cs: seq<Cst>, k: TokenList)
    ensures Stops(1, k) ==> Stops(1, YieldTail(cs, k))
  {
  }

  lemma {:induction false} CompleteTail(n: nat, cs: seq<Cst>, k: TokenList, es: seq<ParseError>, d: nat)
    requires n + |cs| <= MAX_LIST_LENGTH && WellList(cs, d) && Stops(1, k) && Peek(k) != K(COMMA)
    ensures ListTail(n, State(YieldTail(cs, k), es), d) == Parsed(StripList(cs), k, es)
    decreases cs, 0
  {
    if cs != [] {
      TailStops(cs[1..], k);
      CompleteInner(cs[0], YieldTail(cs[1..], k), es, d);
      CompleteTail(n + 1, cs[1..], k, es, d);
    }
  }

  lemma {:induction false} CompletePrimary(c: Cst, k: TokenList, es: seq<ParseError>, d: nat)
    requires Level(c) == 8 && Well(c, d) && Stops(8, k)
    ensures Parse(Level(c), State(Yield(c, k), es), d) == Parsed(Strip(c), k, es)
    decreases c, 3
  {
    if c.Atom? {
      AtomStep(c.tok, k, es, d);
    } else if c.Paren? {
      CompleteInner(c.inner, Cons(K(RPAREN), k), es, d);
      ParenStep(State(Yield(c, k).tail, es), d);
    } else if c.CCase? {
      CompleteCase(c, k, es, d);
      CaseStep(State(Yield(c, k).tail, es), d);
    } else if c.CCast? {
      CompleteCast(c, k, es, d);
      CastStep(State(Yield(c, k).tail, es), d);
    } else if c.CCall? {
      CallStep(c.head, State(Yield(c, k).tail, es), d);
      CompleteCall(c, k, es, d);
    } else {
      CompleteName(c, k, es, d);
    }
  }

  lemma {:induction false} CompleteCast(c: Cst, k: TokenList, es: seq<ParseError>, d: nat)
    requires c.CCast? && Well(c, d)
    ensures CastExpr(State(Yield(c, k).tail, es), d) == Parsed(Strip(c), k, es)
    decreases c, 2
  {
    CompleteInner(c.subject, Cons(K(AS), Cons(c.target, Cons(K(RPAREN), k))), es, d);
  }

  lemma {:induction false} CompleteCase(c: Cst, k: TokenList, es: seq<ParseError>, d: nat)
    requires c.CCase? && Well(c, d)
    ensures CaseExpr(State(Yield(c, k).tail, es), d) == Parsed(Strip(c), k, es)
    decreases c, 2
  {
    var end := Cons(K(END), k);
    var fromElse := YieldElse(c.otherwise, end);
    var fromWhens := YieldWhens(c.whens, fromElse);
    assert fromWhens == YieldWhen(c.whens[0], YieldWhens(c.whens[1..], fromElse));
    CompleteBase(c.base, fromWhens, es, d);
    CompleteWhens(0, c.whens, fromElse, es, d);
    CompleteElse(c.otherwise, end, es, d);
    assert StripWhens(c.whens) != [];
  }

  lemma {:induction false} CompleteBase(o: Option<Cst>, k: TokenList, es: seq<ParseError>, d: nat)
    requires WellOption(o, d) && Peek(k) == K(WHEN)
    ensures CaseBase(State(YieldOption(o, k), es), d) == Parsed(StripOption(o), k, es)
    decreases o, 0
  {
    if o.Some? {
      WellStarts(o.value, d + 1);
      YieldsFirstToken(o.value, k);
      CompleteInner(o.value, k, es, d);
    }
  }

  lemma {:induction false} CompleteElse(o: Option<Cst>, k: TokenList, es: seq<ParseError>, d: nat)
    requires WellOption(o, d) && Peek(k) == K(END)
    ensures CaseElse(State(YieldElse(o, k), es), d) == Parsed(StripOption(o), k, es)
    decreases o, 0
  {
    if o.Some? {
      CompleteInner(o.value, k, es, d);
    }
  }

  lemma {:induction false} CompleteWhens(n: nat, ws: seq<CWhen>, k: TokenList, es: seq<ParseError>, d: nat)
    requires n + |ws| <= MAX_WHEN_CLAUSES && WellWhens(ws, d) && Stops(1, k) && Peek(k) != K(WHEN)
    ensures WhenLoop(n, State(YieldWhens(ws, k), es), d) == Parsed(StripWhens(ws), k, es)
    decreases ws, 0
  {
    if ws != [] {
      var fromRest := YieldWhens(ws[1..], k);
      WhensStop(ws[1..], k);
      CompleteWhen(ws[0], fromRest, es, d);
      CompleteWhens(n + 1, ws[1..], k, es, d);
    }
  }

  lemma WhensStop(ws: seq<CWhen>, k: TokenList)
    ensures Stops(1, k) ==> Stops(1, YieldWhens(ws, k))
  {
  }

  lemma {:induction false} CompleteWhen(w: CWhen, k: TokenList, es: seq<ParseError>, d: nat)
    requires WellWhen(w, d) && Stops(1, k)
    ensures var fromThen := Cons(K(THEN), Yield(w.result, k));
            ParseExpr(State(Yield(w.condition, fromThen), es), d) == Parsed(Strip(w.condition), fromThen, es)
    ensures ParseExpr(State(Yield(w.result, k), es), d) == Parsed(Strip(w.result), k, es)
    decreases w, 0
  {
    CompleteInner(w.condition, Cons(K(THEN), Yield(w.result, k)), es, d);
    CompleteInner(w.result, k, es, d);
  }

  // ----- calls and windows -----

  lemma {:induction false} CompleteCall(c: Cst, k: TokenList, es: seq<ParseError>, d: nat)
    requires c.CCall? && Well(c, d) && Stops(8, k)
    ensures FunctionCallExpr(CallName(c.head), State(Yield(c, k).tail, es), d) == Parsed(Strip(c), k, es)
    decreases c, 2
  {
    var CCall(h, distinct, args, f, o) := c;
    var fromArgs := YieldList(args, Cons(K(RPAREN), YieldFilter(f, YieldOver(o, k))));
    var s := State(YieldFlag(distinct, DISTINCT, fromArgs), es);
    FirstArgument(args, Cons(K(RPAREN), YieldFilter(f, YieldOver(o, k))), d);
    UpperCallName(h);
    if HeadName(h) == "COUNT" && At(s, STAR) {
      assert args == [Atom(K(STAR))];
      CompleteCountStar(c, k, es, d);
    } else {
      CompleteCallBody(c, k, es, d);
    }
    assert Expect(State(Cons(K(LPAREN), s.toks), es), LPAREN) == s;
  }

  /** No argument begins with ')' or DISTINCT. */
  lemma FirstArgument(cs: seq<Cst>, k: TokenList, d: nat)
    requires (WellList(cs, d) || cs == [Atom(K(STAR))]) && Peek(k) == K(RPAREN)
    ensures Peek(YieldList(cs, k)) == if cs == [] then K(RPAREN) else FirstToken(cs[0])
    ensures cs != [] ==> Starts(FirstToken(cs[0]), 1)
  {
    if cs != [] {
      YieldsFirstToken(cs[0], YieldTail(cs[1..], k));
      if cs != [Atom(K(STAR))] {
        WellStarts(cs[0], d + 1);
      }
    }
  }

  lemma {:induction false} CompleteCountStar(c: Cst, k: TokenList, es: seq<ParseError>, d: nat)
    requires c.CCall? && Well(c, d) && Stops(8, k)
    requires HeadName(c.head) == "COUNT" && !c.distinct && c.args == [Atom(K(STAR))]
    ensures CountStar("COUNT", State(YieldFilter(c.filter, YieldOver(c.over, k)), es), d) == Parsed(Strip(c), k, es)
    decreases c, 1
  {
    CompleteFilter(c.filter, YieldOver(c.over, k), es, d);
    CompleteWindow(AggregateCall("COUNT", [Star(None)], false, StripOption(c.filter)), c.over, k, es, d);
    CountStarStrip(c);
  }

  lemma CountStarStrip(c: Cst)
    requires c.CCall? && HeadName(c.head) == "COUNT" && !c.distinct && c.args == [Atom(K(STAR))]
    ensures Strip(c) == Windowed(AggregateCall("COUNT", [Star(None)], false, StripOption(c.filter)), c.over)
  {
    assert StripList(c.args) == [Star(None)];
  }

  lemma {:induction false} CompleteCallBody(c: Cst, k: TokenList, es: seq<ParseError>, d: nat)
    requires c.CCall? && Well(c, d) && Stops(8, k) && WellList(c.args, d)
    ensures var fromArgs := YieldList(c.args, Cons(K(RPAREN), YieldFilter(c.filter, YieldOver(c.over, k))));
            CallBody(HeadName(c.head), c.distinct, State(fromArgs, es), d) == Parsed(Strip(c), k, es)
    decreases c, 1
  {
    var CCall(h, distinct, args, f, o) := c;
    var name := HeadName(h);
    CompleteArgs(args, Cons(K(RPAREN), YieldFilter(f, YieldOver(o, k))), es, d);
    CompleteCallEnd(c, k, es, d);
  }

  lemma {:induction false} CompleteCallEnd(c: Cst, k: TokenList, es: seq<ParseError>, d: nat)
    requires c.CCall? && Well(c, d) && Stops(8, k)
    ensures CallEnd(HeadName(c.head), c.distinct, StripList(c.args), State(YieldFilter(c.filter, YieldOver(c.over, k)), es), d)
         == Parsed(Strip(c), k, es)
    decreases c, 0
  {
    var CCall(h, distinct, args, f, o) := c;
    if HeadName(h) in AGGREGATES {
      CompleteFilter(f, YieldOver(o, k), es, d);
      CompleteWindow(AggregateCall(HeadName(h), StripList(args), distinct, StripOption(f)), o, k, es, d);
    } else {
      CompleteWindow(FunctionCall(HeadName(h), StripList(args)), o, k, es, d);
    }
  }

  lemma {:induction false} CompleteArgs(cs: seq<Cst>, k: TokenList, es: seq<ParseError>, d: nat)
    requires |cs| <= MAX_LIST_LENGTH && WellList(cs, d) && Peek(k) == K(RPAREN)
    ensures CallArgs(State(YieldList(cs, k), es), d) == Parsed(StripList(cs), k, es)
    decreases cs, 2
  {
    if cs != [] {
      YieldsFirstToken(cs[0], YieldTail(cs[1..], k));
      WellStarts(cs[0], d + 1);
      CompleteList(cs, k, es, d);
    }
  }

  lemma {:induction false} CompleteFilter(f: Option<Cst>, k: TokenList, es: seq<ParseError>, d: nat)
    requires WellOption(f, d) && Peek(k) != K(FILTER)
    ensures TryFilter(State(YieldFilter(f, k), es), d) == Parsed(StripOption(f), k, es)
    decreases f, 0
  {
    if f.Some? {
      CompleteInner(f.value, Cons(K(RPAREN), k), es, d);
    }
  }

  lemma {:induction false} CompleteWindow(call: Call, o: Option<COver>, k: TokenList, es: seq<ParseError>, d: nat)
    requires WellOver(o, d) && Peek(k) != K(OVER)
    ensures TryWindow(call, State(YieldOver(o, k), es), d)
         == Parsed(Windowed(call, o), k, es)
    decreases o, 0
  {
    if o.Some? {
      var w := o.value;
      var close := Cons(K(RPAREN), k);
      var fromFrame := YieldFrame(w.frame, close);
      var fromOrder := YieldOrder(w.orderBy, fromFrame);
      CompletePartition(w.partitionBy, fromOrder, es, d);
      CompleteOrder(w.orderBy, fromFrame, es, d);
      CompleteFrame(w.frame, close, es, d);
    }
  }

  lemma {:induction false} CompletePartition(cs: seq<Cst>, k: TokenList, es: seq<ParseError>, d: nat)
    requires |cs| <= MAX_LIST_LENGTH && WellList(cs, d) && Stops(1, k)
    requires Peek(k) != K(COMMA) && Peek(k) != K(PARTITION)
    ensures Partitioning(State(YieldPartition(cs, k), es), d) == Parsed(StripList(cs), k, es)
    decreases cs, 2
  {
    if cs != [] {
      CompleteList(cs, k, es, d);
    }
  }

  lemma {:induction false} CompleteOrder(os: seq<COrder>, k: TokenList, es: seq<ParseError>, d: nat)
    requires WellOrders(os, d) && (Peek(k) == K(ROWS) || Peek(k) == K(RANGE) || Peek(k) == K(RPAREN))
    ensures Ordering(State(YieldOrder(os, k), es), d) == Parsed(StripOrders(os), k, es)
    decreases os, 1
  {
    if os != [] {
      CompleteItem(os[0], YieldItems(os[1..], k), es, d);
      CompleteItems(os[1..], k, es, d);
    }
  }

  lemma {:induction false} CompleteItems(os: seq<COrder>, k: TokenList, es: seq<ParseError>, d: nat)
    requires WellOrders(os, d) && (Peek(k) == K(ROWS) || Peek(k) == K(RANGE) || Peek(k) == K(RPAREN))
    ensures OrderByTail(State(YieldItems(os, k), es), d) == Parsed(StripOrders(os), k, es)
    decreases os, 0
  {
    if os != [] {
      CompleteItem(os[0], YieldItems(os[1..], k), es, d);
      CompleteItems(os[1..], k, es, d);
    }
  }

  lemma {:induction false} CompleteItem(o: COrder, k: TokenList, es: seq<ParseError>, d: nat)
    requires WellOrder(o, d)
    requires Peek(k) == K(ROWS) || Peek(k) == K(RANGE) || Peek(k) == K(RPAREN) || Peek(k) == K(COMMA)
    ensures OrderByItem(State(YieldItem(o, k), es), d) == Parsed(StripOrder(o), k, es)
    decreases o, 0
  {
    var fromNulls := YieldNulls(o.nulls, k);
    CompleteInner(o.expr, YieldFlag(o.direction.Ascending?, ASC, YieldFlag(o.direction.Descending?, DESC, fromNulls)),
                  es, d);
    CompleteNulls(o.nulls, k, es);
  }

  lemma CompleteNulls(n: Option<Nulls>, k: TokenList, es: seq<ParseError>)
    requires Peek(k) != K(NULLS)
    ensures NullsOrder(State(YieldNulls(n, k), es)) == Parsed(n, k, es)
    ensures Peek(k) != K(ASC) && Peek(k) != K(DESC) ==>
              Peek(YieldNulls(n, k)) != K(ASC) && Peek(YieldNulls(n, k)) != K(DESC)
  {
  }

  lemma {:induction false} CompleteFrame(f: Option<CFrame>, k: TokenList, es: seq<ParseError>, d: nat)
    requires WellFrame(f, d) && Peek(k) == K(RPAREN)
    ensures Framing(State(YieldFrame(f, k), es), d) == Parsed(StripFrame(f), k, es)
    decreases f, 0
  {
    if f.Some? {
      var w := f.value;
      CompleteBound(w.start, YieldEnd(w.end, k), es, d);
      if w.end.Some? {
        CompleteBound(w.end.value, k, es, d);
      }
    }
  }

  lemma KeywordBound(b: CBound, k: TokenList, es: seq<ParseError>, d: nat)
    requires !b.COffset?
    ensures FrameBound(State(YieldBound(b, k), es), d) == Parsed(StripBound(b), k, es)
  {
  }

  lemma OffsetStep(b: CBound, s: State, x: Result<Expr>, d: nat)
    requires b.COffset? && !At(s, UNBOUNDED) && !At(s, CURRENT)
    requires ParseExpr(s, d) == x && At(x.st, Side(b.following))
    ensures FrameBound(s, d) == Result(Offset(Some(x.val), b.following), Advance(x.st))
  {
  }

  lemma {:induction false} CompleteBound(b: CBound, k: TokenList, es: seq<ParseError>, d: nat)
    requires WellBound(b, d)
    ensures FrameBound(State(YieldBound(b, k), es), d) == Parsed(StripBound(b), k, es)
    decreases b, 0
  {
    if !b.COffset? {
      KeywordBound(b, k, es, d);
    } else {
      var k' := Cons(K(Side(b.following)), k);
      WellStarts(b.offset, d + 1);
      YieldsFirstToken(b.offset, k');
      CompleteInner(b.offset, k', es, d);
      OffsetStep(b, State(Yield(b.offset, k'), es), Parsed(Strip(b.offset), k', es), d);
    }
  }
}
