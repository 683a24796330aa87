/**
 The parser accepts nothing but the grammar: whenever a rule adds no error, the tokens it consumed
 are the yield of a well-formed concrete tree that stands for the expression it returns. The
 lemmas compute that tree.
 */
module Soundness {
  import opened Wrappers
  import opened Ast
  import opened Tokens
  import opened Grammar
  import opened ParserSpec

  /** `c` derives the tokens between `from` and `r`, and stands for `r`'s expression. */
  predicate Derives(c: Cst, level: nat, from: TokenList, r: Result<Expr>, d: nat) {
    Well(c, d) && level <= Level(c) && Strip(c) == r.val && Yield(c, r.st.toks) == from
  }

  lemma {:induction false} SoundExpr(s: State, d: nat) returns (c: Cst)
    requires ParseExpr(s, d).st.errs == s.errs
    ensures d < MAX_DEPTH && Derives(c, 1, s.toks, ParseExpr(s, d), d + 1)
    decreases Length(s.toks), 59
  {
    c := Sound(1, s, d + 1);
  }

  lemma {:induction false} Sound(level: nat, s: State, d: nat) returns (c: Cst)
    requires 1 <= level <= 8 && Parse(level, s, d).st.errs == s.errs
    ensures Derives(c, level, s.toks, Parse(level, s, d), d)
    decreases Length(s.toks), 60 - 2 * level
  {
    if ChainLevel(level) {
      var left := Parse(level + 1, s, d);
      assert left.st.errs == s.errs;
      c := Sound(level + 1, s, d);
      c := SoundLoop(level, s.toks, c, left, d);
    } else if level == 3 && At(s, NOT) {
      c := Sound(3, Advance(s), d);
      c := CNot(c);
    } else if level == 7 && At(s, MINUS) {
      c := SoundMinus(s, d);
    } else if level == 3 || level == 7 {
      c := Sound(level + 1, s, d);
    } else if level == 4 {
      assert Parse(4, s, d) == ComparisonTail(Parse(5, s, d), d);
      var left := Sound(5, s, d);
      c := SoundTail(s.toks, left, Parse(5, s, d), d);
    } else {
      c := SoundPrimary(s, d);
    }
  }

  lemma {:induction false} SoundMinus(s: State, d: nat) returns (c: Cst)
    requires At(s, MINUS) && Parse(7, s, d).st.errs == s.errs
    ensures Derives(c, 7, s.toks, Parse(7, s, d), d)
    decreases Length(s.toks), 2
  {
    c := Sound(7, Advance(s), d + 1);
    c := CNeg(c);
  }

  lemma {:induction false} SoundLoop(level: nat, from: TokenList, cl: Cst, left: Result<Expr>, d: nat) returns (c: Cst)
    requires ChainLevel(level) && Derives(cl, level, from, left, d)
    requires Loop(level, left, d).st.errs == left.st.errs
    ensures Derives(c, level, from, Loop(level, left, d), d)
    decreases Length(left.st.toks), 0
  {
    var next := ChainOp(level, Peek(left.st.toks));
    if next.None? {
      c := cl;
    } else {
      var op := next.value;
      var right := Parse(level + 1, Advance(left.st), d);
      LoopStep(level, left, op, d);
      var cr := Sound(level + 1, Advance(left.st), d);
      JoinBinary(level, op, from, cl, left, cr, right, d);
      c := SoundLoop(level, from, CBin(op, cl, cr), Result(Binary(op, left.val, right.val), right.st), d);
    }
  }

  /** One round of a chain's loop; when the loop reports nothing, the operand of this round did not. */
  lemma LoopStep(level: nat, left: Result<Expr>, op: BinaryOp, d: nat)
    requires ChainLevel(level) && ChainOp(level, Peek(left.st.toks)) == Some(op)
    ensures OpLevel(op) == level && left.st.toks == Cons(K(OpKind(op)), Advance(left.st).toks)
    ensures var right := Parse(level + 1, Advance(left.st), d);
            var next := Result(Binary(op, left.val, right.val), right.st);
            Loop(level, left, d) == Loop(level, next, d) && Length(right.st.toks) < Length(left.st.toks)
            && (Loop(level, left, d).st.errs == left.st.errs ==> right.st.errs == left.st.errs)
  {
  }

  /** Two derivations around an operator token make a derivation of the binary expression. */
  lemma JoinBinary(level: nat, op: BinaryOp, from: TokenList, cl: Cst, left: Result<Expr>,
                   cr: Cst, right: Result<Expr>, d: nat)
    requires OpLevel(op) == level && Derives(cl, LeftLevel(op), from, left, d)
    requires left.st.toks.Cons? && left.st.toks.head == K(OpKind(op))
    requires Derives(cr, level + 1, left.st.toks.tail, right, d)
    ensures Derives(CBin(op, cl, cr), level, from, Result(Binary(op, left.val, right.val), right.st), d)
  {
  }

  // ----- predicates and comparisons -----

  lemma {:induction false} SoundTail(from: TokenList, cl: Cst, left: Result<Expr>, d: nat) returns (c: Cst)
    requires Derives(cl, 5, from, left, d)
    requires ComparisonTail(left, d).st.errs == left.st.errs
    ensures Derives(c, 4, from, ComparisonTail(left, d), d)
    decreases Length(left.st.toks), 1
  {
    var s := left.st;
    if At(s, IS) {
      c := CIsNull(cl, At(Advance(s), NOT));
    } else if AtPredicate(s, BETWEEN) {
      PredicateWord(s, BETWEEN);
      BetweenCase(left, d);
      c := SoundBetween(cl, left.val, At(s, NOT), Expect(Skip(s, NOT), BETWEEN), d);
    } else if AtPredicate(s, IN) {
      PredicateWord(s, IN);
      InCase(left, d);
      c := SoundIn(cl, left.val, At(s, NOT), Expect(Skip(s, NOT), IN), d);
    } else if AtPredicate(s, LIKE) {
      PredicateWord(s, LIKE);
      LikeCase(left, d);
      c := SoundLike(cl, left.val, At(s, NOT), Expect(Skip(s, NOT), LIKE), d);
    } else if CompareOp(Peek(s.toks)).Some? {
      c := SoundCompare(from, cl, left, d);
    } else {
      c := cl;
    }
  }

  lemma {:induction false} SoundCompare(from: TokenList, cl: Cst, left: Result<Expr>, d: nat) returns (c: Cst)
    requires Derives(cl, 5, from, left, d)
    requires CompareOp(Peek(left.st.toks)).Some?
    requires ComparisonTail(left, d).st.errs == left.st.errs
    ensures Derives(c, 4, from, ComparisonTail(left, d), d)
    decreases Length(left.st.toks), 0
  {
    var op := CompareOp(Peek(left.st.toks)).value;
    var s := Advance(left.st);
    var right := Parse(5, s, d);
    CompareCase(left, d);
    var cr := Sound(5, s, d);
    JoinBinary(4, op, from, cl, left, cr, right, d);
    c := CBin(op, cl, cr);
  }

  lemma CompareCase(left: Result<Expr>, d: nat)
    requires CompareOp(Peek(left.st.toks)).Some?
    ensures var op := CompareOp(Peek(left.st.toks)).value;
            OpLevel(op) == 4 && Peek(left.st.toks) == K(OpKind(op))
            && ComparisonTail(left, d) == CompareTail(left.val, op, Advance(left.st), d)
  {
  }

  lemma {:induction false} SoundBetween(cl: Cst, left: Expr, negated: bool, s: State, d: nat) returns (c: Cst)
    requires Well(cl, d) && 5 <= Level(cl) && Strip(cl) == left
    requires BetweenTail(left, negated, s, d).st.errs == s.errs
    ensures Derives(c, 4, Yield(cl, YieldFlag(negated, NOT, Cons(K(BETWEEN), s.toks))), BetweenTail(left, negated, s, d), d)
    decreases Length(s.toks), 61
  {
    var cLow, cHigh := SoundBounds(left, negated, s, d);
    c := CBetween(cl, cLow, cHigh, negated);
  }

  /** `[NOT] k`, read past. */
  lemma PredicateWord(s: State, k: Kind)
    requires AtPredicate(s, k) && k != NOT && k != EOF
    ensures var after := Expect(Skip(s, NOT), k);
            after.errs == s.errs && s.toks == YieldFlag(At(s, NOT), NOT, Cons(K(k), after.toks))
            && Length(after.toks) < Length(s.toks)
  {
  }

  lemma BetweenCase(left: Result<Expr>, d: nat)
    requires AtPredicate(left.st, BETWEEN)
    ensures var s := Expect(Skip(left.st, NOT), BETWEEN);
            ComparisonTail(left, d) == BetweenTail(left.val, At(left.st, NOT), s, d)
  {
  }

  lemma InCase(left: Result<Expr>, d: nat)
    requires !AtPredicate(left.st, BETWEEN) && AtPredicate(left.st, IN)
    ensures var s := Expect(Skip(left.st, NOT), IN);
            ComparisonTail(left, d) == InTail(left.val, At(left.st, NOT), s, d)
  {
  }

  lemma LikeCase(left: Result<Expr>, d: nat)
    requires !AtPredicate(left.st, BETWEEN) && !AtPredicate(left.st, IN) && AtPredicate(left.st, LIKE)
    ensures var s := Expect(Skip(left.st, NOT), LIKE);
            ComparisonTail(left, d) == LikeTail(left.val, At(left.st, NOT), s, d)
  {
  }

  lemma {:induction false} SoundBounds(left: Expr, negated: bool, s: State, d: nat) returns (cLow: Cst, cHigh: Cst)
    requires BetweenTail(left, negated, s, d).st.errs == s.errs
    ensures Well(cLow, d) && Well(cHigh, d) && Level(cLow) >= 5 && Level(cHigh) >= 5
    ensures var r := BetweenTail(left, negated, s, d);
            r.val == Between(left, Strip(cLow), Strip(cHigh), negated)
            && s.toks == Yield(cLow, Cons(K(AND), Yield(cHigh, r.st.toks)))
    decreases Length(s.toks), 60
  {
    var low := Parse(5, s, d);
    BoundsErrors(left, negated, s, d);
    cLow := Sound(5, s, d);
    cHigh := Sound(5, Expect(low.st, AND), d);
  }

  /** When BETWEEN reports nothing, neither its bounds nor the AND between them did. */
  lemma BoundsErrors(left: Expr, negated: bool, s: State, d: nat)
    requires BetweenTail(left, negated, s, d).st.errs == s.errs
    ensures var low := Parse(5, s, d);
            var high := Parse(5, Expect(low.st, AND), d);
            low.st.errs == s.errs && Expect(low.st, AND).errs == s.errs && high.st.errs == s.errs && At(low.st, AND)
            && BetweenTail(left, negated, s, d) == Result(Between(left, low.val, high.val, negated), high.st)
  {
  }

  lemma {:induction false} SoundIn(cl: Cst, left: Expr, negated: bool, s: State, d: nat) returns (c: Cst)
    requires Well(cl, d) && 5 <= Level(cl) && Strip(cl) == left
    requires InTail(left, negated, s, d).st.errs == s.errs
    ensures Derives(c, 4, Yield(cl, YieldFlag(negated, NOT, Cons(K(IN), s.toks))), InTail(left, negated, s, d), d)
    decreases Length(s.toks), 62
  {
    var cs := SoundList(Expect(s, LPAREN), d);
    c := CIn(cl, cs, negated);
  }

  lemma {:induction false} SoundLike(cl: Cst, left: Expr, negated: bool, s: State, d: nat) returns (c: Cst)
    requires Well(cl, d) && 5 <= Level(cl) && Strip(cl) == left
    requires LikeTail(left, negated, s, d).st.errs == s.errs
    ensures Derives(c, 4, Yield(cl, YieldFlag(negated, NOT, Cons(K(LIKE), s.toks))), LikeTail(left, negated, s, d), d)
    decreases Length(s.toks), 61
  {
    var cp := Sound(5, s, d);
    c := CLike(cl, cp, negated);
  }

  // ----- lists -----

  lemma {:induction false} SoundList(s: State, d: nat) returns (cs: seq<Cst>)
    requires ExprList(s, d).st.errs == s.errs
    ensures var r := ExprList(s, d);
            1 <= |cs| <= MAX_LIST_LENGTH && WellList(cs, d) && StripList(cs) == r.val
            && YieldList(cs, r.st.toks) == s.toks
    decreases Length(s.toks), 61
  {
    var first := ParseExpr(s, d);
    var c := SoundExpr(s, d);
    var rest := SoundListTail(1, first.st, d);
    cs := [c] + rest;
    assert cs[1..] == rest;
  }

  lemma {:induction false} SoundListTail(n: nat, s: State, d: nat) returns (cs: seq<Cst>)
    requires n <= MAX_LIST_LENGTH && ListTail(n, s, d).st.errs == s.errs
    ensures var r := ListTail(n, s, d);
            n + |cs| <= MAX_LIST_LENGTH && WellList(cs, d) && StripList(cs) == r.val
            && YieldTail(cs, r.st.toks) == s.toks
    decreases Length(s.toks), 0
  {
    if !At(s, COMMA) {
      cs := [];
    } else {
      var first := ParseExpr(Advance(s), d);
      var c := SoundExpr(Advance(s), d);
      var rest := SoundListTail(n + 1, first.st, d);
      cs := [c] + rest;
      assert cs[1..] == rest;
    }
  }

  // ----- primaries -----

  lemma {:induction false} SoundPrimary(s: State, d: nat) returns (c: Cst)
    requires Parse(8, s, d).st.errs == s.errs
    ensures Derives(c, 8, s.toks, Parse(8, s, d), d)
    decreases Length(s.toks), 1
  {
    assert Parse(8, s, d) == Primary(s, d);
    var t := Peek(s.toks);
    var next := Advance(s);
    if AtomToken(t) {
      c := Atom(t);
    } else if t == K(LPAREN) {
      c := SoundExpr(next, d);
      c := Paren(c);
    } else if t == K(CASE) {
      c := SoundCase(next, d);
    } else if t == K(CAST) {
      c := SoundCast(next, d);
    } else if t.IDENT? {
      c := SoundIdent(t, next, d);
    } else {
      c := SoundCall(t, next, d);
    }
  }

  lemma {:induction false} SoundIdent(t: Token, s: State, d: nat) returns (c: Cst)
    requires t.IDENT? && IdentExpr(t.text, s, d).st.errs == s.errs
    ensures Derives(c, 8, Cons(t, s.toks), IdentExpr(t.text, s, d), d)
    decreases Length(s.toks), 68
  {
    if At(s, LPAREN) {
      c := SoundCall(t, s, d);
    } else if At(s, DOT) {
      var s1 := Advance(s);
      c := if At(s1, STAR) then DottedStar(t.text) else Dotted(t.text, Peek(s1.toks).text);
    } else {
      c := Name(t.text);
    }
  }

  lemma {:induction false} SoundCast(s: State, d: nat) returns (c: Cst)
    requires CastExpr(s, d).st.errs == s.errs
    ensures Derives(c, 8, Cons(K(CAST), s.toks), CastExpr(s, d), d)
    decreases Length(s.toks), 62
  {
    var s1 := Expect(s, LPAREN);
    var x := ParseExpr(s1, d);
    var cx := SoundExpr(s1, d);
    var s2 := Expect(x.st, AS);
    c := CCast(cx, Peek(s2.toks));
  }

  lemma {:induction false} SoundCase(s: State, d: nat) returns (c: Cst)
    requires CaseExpr(s, d).st.errs == s.errs
    ensures Derives(c, 8, Cons(K(CASE), s.toks), CaseExpr(s, d), d)
    decreases Length(s.toks), 62
  {
    var base := CaseBase(s, d);
    var whens := WhenLoop(0, base.st, d);
    assert whens.val != [];
    var otherwise := CaseElse(whens.st, d);
    var cb := SoundBase(s, d);
    var cw := SoundWhens(0, base.st, d);
    var co := SoundElse(whens.st, d);
    assert otherwise.st.toks == Cons(K(END), CaseExpr(s, d).st.toks);
    c := CCase(cb, cw, co);
  }

  lemma {:induction false} SoundBase(s: State, d: nat) returns (o: Option<Cst>)
    requires CaseBase(s, d).st.errs == s.errs
    ensures var r := CaseBase(s, d);
            WellOption(o, d) && StripOption(o) == r.val && YieldOption(o, r.st.toks) == s.toks
    decreases Length(s.toks), 61
  {
    if At(s, WHEN) {
      o := None;
    } else {
      var c := SoundExpr(s, d);
      o := Some(c);
    }
  }

  lemma {:induction false} SoundElse(s: State, d: nat) returns (o: Option<Cst>)
    requires CaseElse(s, d).st.errs == s.errs
    ensures var r := CaseElse(s, d);
            WellOption(o, d) && StripOption(o) == r.val && YieldElse(o, r.st.toks) == s.toks
    decreases Length(s.toks), 61
  {
    if At(s, ELSE) {
      var c := SoundExpr(Advance(s), d);
      o := Some(c);
    } else {
      o := None;
    }
  }

  lemma {:induction false} SoundWhens(n: nat, s: State, d: nat) returns (ws: seq<CWhen>)
    requires n <= MAX_WHEN_CLAUSES && WhenLoop(n, s, d).st.errs == s.errs
    ensures var r := WhenLoop(n, s, d);
            n + |ws| <= MAX_WHEN_CLAUSES && WellWhens(ws, d) && StripWhens(ws) == r.val
            && YieldWhens(ws, r.st.toks) == s.toks
    decreases Length(s.toks), 0
  {
    if !At(s, WHEN) {
      ws := [];
    } else {
      var condition := ParseExpr(Advance(s), d);
      var cc := SoundExpr(Advance(s), d);
      var s1 := Expect(condition.st, THEN);
      var result := ParseExpr(s1, d);
      var cr := SoundExpr(s1, d);
      var rest := SoundWhens(n + 1, result.st, d);
      ws := [CWhen(cc, cr)] + rest;
      assert ws[1..] == rest;
    }
  }

  // ----- calls and windows -----

  lemma {:induction false} SoundCall(h: Token, s: State, d: nat) returns (c: Cst)
    requires HeadToken(h) && At(s, LPAREN) && FunctionCallExpr(CallName(h), s, d).st.errs == s.errs
    ensures Derives(c, 8, Cons(h, s.toks), FunctionCallExpr(CallName(h), s, d), d)
    decreases Length(s.toks), 67
  {
    var s1 := Advance(s);
    UpperCallName(h);
    assert s.toks == Cons(K(LPAREN), s1.toks);
    if HeadName(h) == "COUNT" && At(s1, STAR) {
      c := SoundCountStar(h, s1, d);
    } else {
      c := SoundCallBody(h, s1, d);
    }
  }

  lemma {:induction false} SoundCountStar(h: Token, s: State, d: nat) returns (c: Cst)
    requires HeadToken(h) && HeadName(h) == "COUNT" && At(s, STAR)
    requires CountStar("COUNT", Expect(Advance(s), RPAREN), d).st.errs == s.errs
    ensures Derives(c, 8, Cons(h, Cons(K(LPAREN), s.toks)), CountStar("COUNT", Expect(Advance(s), RPAREN), d), d)
    decreases Length(s.toks), 65
  {
    var s1 := Expect(Advance(s), RPAREN);
    var f := TryFilter(s1, d);
    var cf := SoundFilter(s1, d);
    var co := SoundWindow(AggregateCall("COUNT", [Star(None)], false, f.val), f.st, d);
    var args := [Atom(K(STAR))];
    c := CCall(h, false, args, cf, co);
    assert StripList(args) == [Star(None)];
    assert s.toks == YieldList(args, Cons(K(RPAREN), s1.toks));
  }

  lemma {:induction false} SoundCallBody(h: Token, s: State, d: nat) returns (c: Cst)
    requires HeadToken(h) && !(HeadName(h) == "COUNT" && At(s, STAR))
    requires CallBody(HeadName(h), At(s, DISTINCT), Skip(s, DISTINCT), d).st.errs == s.errs
    ensures Derives(c, 8, Cons(h, Cons(K(LPAREN), s.toks)),
                    CallBody(HeadName(h), At(s, DISTINCT), Skip(s, DISTINCT), d), d)
    decreases Length(s.toks), 67
  {
    var name, distinct, s1 := HeadName(h), At(s, DISTINCT), Skip(s, DISTINCT);
    assert s.toks == YieldFlag(distinct, DISTINCT, s1.toks);
    var cs, cf, co := SoundCallParts(name, distinct, s1, d);
    var r := CallBody(name, distinct, s1, d);
    ArgsStart(cs, Cons(K(RPAREN), YieldFilter(cf, YieldOver(co, r.st.toks))), s1.toks);
    assert CountStarRule(h, distinct, cs);
    c := CCall(h, distinct, cs, cf, co);
  }

  lemma {:induction false} SoundCallParts(name: string, distinct: bool, s: State, d: nat)
    returns (cs: seq<Cst>, f: Option<Cst>, o: Option<COver>)
    requires CallBody(name, distinct, s, d).st.errs == s.errs
    ensures |cs| <= MAX_LIST_LENGTH && WellList(cs, d)
    ensures (f.Some? ==> name in AGGREGATES) && WellOption(f, d) && WellOver(o, d)
    ensures var r := CallBody(name, distinct, s, d);
            r.val == Windowed(CallOf(name, StripList(cs), distinct, StripOption(f)), o)
            && YieldList(cs, Cons(K(RPAREN), YieldFilter(f, YieldOver(o, r.st.toks)))) == s.toks
    decreases Length(s.toks), 66
  {
    var args := CallArgs(s, d);
    cs := SoundArgs(s, d);
    f, o := SoundCallEnd(name, distinct, args.val, Expect(args.st, RPAREN), d);
  }

  lemma {:induction false} SoundCallEnd(name: string, distinct: bool, args: seq<Expr>, s: State, d: nat)
    returns (f: Option<Cst>, o: Option<COver>)
    requires CallEnd(name, distinct, args, s, d).st.errs == s.errs
    ensures (f.Some? ==> name in AGGREGATES) && WellOption(f, d) && WellOver(o, d)
    ensures var r := CallEnd(name, distinct, args, s, d);
            r.val == Windowed(CallOf(name, args, distinct, StripOption(f)), o)
            && YieldFilter(f, YieldOver(o, r.st.toks)) == s.toks
    decreases Length(s.toks), 65
  {
    if name in AGGREGATES {
      var filter := TryFilter(s, d);
      f := SoundFilter(s, d);
      o := SoundWindow(AggregateCall(name, args, distinct, filter.val), filter.st, d);
    } else {
      f := None;
      o := SoundWindow(FunctionCall(name, args), s, d);
    }
  }

  lemma ArgsStart(cs: seq<Cst>, k: TokenList, from: TokenList)
    requires YieldList(cs, k) == from
    ensures cs != [] ==> FirstToken(cs[0]) == Peek(from)
  {
    if cs != [] {
      YieldsFirstToken(cs[0], YieldTail(cs[1..], k));
    }
  }

  lemma {:induction false} SoundArgs(s: State, d: nat) returns (cs: seq<Cst>)
    requires CallArgs(s, d).st.errs == s.errs
    ensures var r := CallArgs(s, d);
            |cs| <= MAX_LIST_LENGTH && WellList(cs, d) && StripList(cs) == r.val && YieldList(cs, r.st.toks) == s.toks
    decreases Length(s.toks), 63
  {
    if At(s, RPAREN) {
      cs := [];
    } else {
      cs := SoundList(s, d);
    }
  }

  lemma {:induction false} SoundFilter(s: State, d: nat) returns (o: Option<Cst>)
    requires TryFilter(s, d).st.errs == s.errs
    ensures var r := TryFilter(s, d);
            WellOption(o, d) && StripOption(o) == r.val && YieldFilter(o, r.st.toks) == s.toks
    decreases Length(s.toks), 62
  {
    if At(s, FILTER) {
      var c := SoundExpr(Expect(Expect(Advance(s), LPAREN), WHERE), d);
      o := Some(c);
    } else {
      o := None;
    }
  }

  lemma {:induction false} SoundWindow(call: Call, s: State, d: nat) returns (o: Option<COver>)
    requires TryWindow(call, s, d).st.errs == s.errs
    ensures var r := TryWindow(call, s, d);
            YieldOver(o, r.st.toks) == s.toks && WellOver(o, d) && r.val == Windowed(call, o)
    decreases Length(s.toks), 64
  {
    if At(s, OVER) {
      var over := SoundOver(call, s, d);
      o := Some(over);
    } else {
      o := None;
    }
  }

  lemma {:induction false} SoundOver(call: Call, s: State, d: nat) returns (o: COver)
    requires At(s, OVER) && TryWindow(call, s, d).st.errs == s.errs
    ensures var r := TryWindow(call, s, d);
            YieldOver(Some(o), r.st.toks) == s.toks && WellOver(Some(o), d) && r.val == Windowed(call, Some(o))
    decreases Length(s.toks), 63
  {
    var s1 := Expect(Advance(s), LPAREN);
    var parts := Partitioning(s1, d);
    var orders := Ordering(parts.st, d);
    var frame := Framing(orders.st, d);
    var cp := SoundPartition(s1, d);
    var cq := SoundOrder(parts.st, d);
    var cf := SoundFrame(orders.st, d);
    o := COver(cp, cq, cf);
  }

  lemma {:induction false} SoundPartition(s: State, d: nat) returns (cs: seq<Cst>)
    requires Partitioning(s, d).st.errs == s.errs
    ensures var r := Partitioning(s, d);
            |cs| <= MAX_LIST_LENGTH && WellList(cs, d) && StripList(cs) == r.val
            && YieldPartition(cs, r.st.toks) == s.toks
    decreases Length(s.toks), 63
  {
    if At(s, PARTITION) {
      cs := SoundList(Expect(Advance(s), BY), d);
    } else {
      cs := [];
    }
  }

  lemma {:induction false} SoundOrder(s: State, d: nat) returns (os: seq<COrder>)
    requires Ordering(s, d).st.errs == s.errs
    ensures var r := Ordering(s, d);
            WellOrders(os, d) && StripOrders(os) == r.val && YieldOrder(os, r.st.toks) == s.toks
    decreases Length(s.toks), 63
  {
    if At(s, ORDER) {
      var s1 := Expect(Advance(s), BY);
      var first := OrderByItem(s1, d);
      var o := SoundItem(s1, d);
      var rest := SoundItems(first.st, d);
      os := [o] + rest;
      assert os[1..] == rest;
    } else {
      os := [];
    }
  }

  lemma {:induction false} SoundItems(s: State, d: nat) returns (os: seq<COrder>)
    requires OrderByTail(s, d).st.errs == s.errs
    ensures var r := OrderByTail(s, d);
            WellOrders(os, d) && StripOrders(os) == r.val && YieldItems(os, r.st.toks) == s.toks
    decreases Length(s.toks), 0
  {
    if At(s, COMMA) {
      var first := OrderByItem(Advance(s), d);
      var o := SoundItem(Advance(s), d);
      var rest := SoundItems(first.st, d);
      os := [o] + rest;
      assert os[1..] == rest;
    } else {
      os := [];
    }
  }

  lemma {:induction false} SoundItem(s: State, d: nat) returns (o: COrder)
    requires OrderByItem(s, d).st.errs == s.errs
    ensures var r := OrderByItem(s, d);
            WellOrder(o, d) && StripOrder(o) == r.val && YieldItem(o, r.st.toks) == s.toks
    decreases Length(s.toks), 61
  {
    var x := ParseExpr(s, d);
    var s1 := if At(x.st, ASC) then Advance(x.st) else Skip(x.st, DESC);
    var cx := SoundExpr(s, d);
    var nulls := NullsOrder(s1);
    SoundNulls(s1);
    var direction := if At(x.st, ASC) then Ascending else if At(x.st, DESC) then Descending else Implicit;
    o := COrder(cx, direction, nulls.val);
  }

  lemma SoundNulls(s: State)
    requires NullsOrder(s).st.errs == s.errs
    ensures YieldNulls(NullsOrder(s).val, NullsOrder(s).st.toks) == s.toks
  {
  }

  lemma {:induction false} SoundFrame(s: State, d: nat) returns (f: Option<CFrame>)
    requires Framing(s, d).st.errs == s.errs
    ensures var r := Framing(s, d);
            WellFrame(f, d) && StripFrame(f) == r.val && YieldFrame(f, r.st.toks) == s.toks
    decreases Length(s.toks), 63
  {
    if At(s, ROWS) || At(s, RANGE) {
      var w := SoundWindowFrame(s, d);
      f := Some(w);
    } else {
      f := None;
    }
  }

  lemma {:induction false} SoundWindowFrame(s: State, d: nat) returns (w: CFrame)
    requires (At(s, ROWS) || At(s, RANGE)) && WindowFrame(s, d).st.errs == s.errs
    ensures var r := WindowFrame(s, d);
            WellFrame(Some(w), d) && StripFrame(Some(w)) == r.val && YieldFrame(Some(w), r.st.toks) == s.toks
    decreases Length(s.toks), 62
  {
    var start := FrameBound(Advance(s), d);
    var cs := SoundBound(Advance(s), d);
    if At(start.st, AND) {
      var ce := SoundBound(Advance(start.st), d);
      w := CFrame(At(s, ROWS), cs, Some(ce));
    } else {
      w := CFrame(At(s, ROWS), cs, None);
    }
  }

  lemma {:induction false} SoundBound(s: State, d: nat) returns (b: CBound)
    requires FrameBound(s, d).st.errs == s.errs
    ensures var r := FrameBound(s, d);
            WellBound(b, d) && StripBound(b) == r.val && YieldBound(b, r.st.toks) == s.toks
    decreases Length(s.toks), 61
  {
    if At(s, UNBOUNDED) {
      b := CUnbounded(!At(Advance(s), PRECEDING));
    } else if At(s, CURRENT) {
      b := CCurrent;
    } else {
      var x := ParseExpr(s, d);
      var cx := SoundExpr(s, d);
      b := COffset(cx, !At(x.st, PRECEDING));
    }
  }
}
