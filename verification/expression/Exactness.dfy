/**
 Printing and parsing agree exactly on the faithful expressions. Every derivation of an expression
 uses at least as many tokens as its printed form, because the printer only writes parentheses the
 grammar demands; so a printed form that is read back as the same expression is a minimal
 derivation, and then nothing the grammar demands is missing from it. The count may give the line
 breaks in literals and names any weight: a derivation has as many of these as the printed form.
 */
module Exactness {
  import opened Wrappers
  import opened Ast
  import opened Tokens
  import opened Grammar
  import opened LineBreaks
  import opened Printing

  /** Two continuations lengthened to `n` and `m` by a derivation and a printed form. */
  predicate NoShorter(per: nat, n: nat, m: nat, k: TokenList, k': TokenList) {
    n >= m && (n == m ==> Size(per, k) == Size(per, k'))
  }

  lemma TwoKeys(per: nat, a: Kind, b: Kind, k: TokenList)
    ensures Size(per, Cons(K(a), Cons(K(b), k))) == 2 + Size(per, k)
  {
  }

  lemma ThreeKeys(per: nat, a: Kind, b: Kind, c: Kind, k: TokenList)
    ensures Size(per, Cons(K(a), Cons(K(b), Cons(K(c), k)))) == 3 + Size(per, k)
  {
    TwoKeys(per, b, c, k);
  }

  lemma LevelOfStrip(c: Cst, d: nat)
    requires Well(c, d) && !c.Paren?
    ensures Level(c) == ExprLevel(Strip(c))
  {
  }

  lemma {:induction false} Tight(per: nat, c: Cst, k: TokenList, k': TokenList, d: nat)
    requires Well(c, d) && Size(per, k) >= Size(per, k')
    ensures var n, m := Size(per, Yield(c, k)), Size(per, Yield(Printed(Strip(c)), k'));
            NoShorter(per, n, m, k, k')
            && (n == m ==> !c.Paren? && Faithful(Strip(c), d)
                           && (FirstToken(c) == K(STAR) <==> StartsWithStar(Strip(c))))
    decreases c, 3
  {
    match c
    case Paren(x) => Tight(per, x, Cons(K(RPAREN), k), k', d + 1);
    case CNeg(_) => TightPrefix(per, c, k, k', d);
    case CNot(_) => TightPrefix(per, c, k, k', d);
    case CBin(_, _, _) => TightBinary(per, c, k, k', d);
    case CIsNull(_, _) => TightPredicate(per, c, k, k', d);
    case CBetween(_, _, _, _) => TightPredicate(per, c, k, k', d);
    case CIn(_, _, _) => TightIn(per, c, k, k', d);
    case CLike(_, _, _) => TightPredicate(per, c, k, k', d);
    case CCase(_, _, _) => TightCase(per, c, k, k', d);
    case CCast(_, _) => TightCast(per, c, k, k', d);
    case CCall(_, _, _, _, _) => TightCall(per, c, k, k', d);
    case _ => TightName(per, c, k, k', d);
  }

  lemma TightName(per: nat, c: Cst, k: TokenList, k': TokenList, d: nat)
    requires LeafTree(c) && Well(c, d) && Size(per, k) >= Size(per, k')
    ensures var n, m := Size(per, Yield(c, k)), Size(per, Yield(Printed(Strip(c)), k'));
            NoShorter(per, n, m, k, k')
            && (n == m ==> Faithful(Strip(c), d) && (FirstToken(c) == K(STAR) <==> StartsWithStar(Strip(c))))
  {
    NameSize(per, c, k);
    NameWeighs(per, c, d);
    NameSize(per, Printed(Strip(c)), k');
  }

  predicate LeafTree(c: Cst) { c.Atom? || c.Name? || c.Dotted? || c.DottedStar? }

  /** A leaf prints as a leaf; only an empty table name makes it shorter. */
  lemma NameWeighs(per: nat, c: Cst, d: nat)
    requires LeafTree(c) && Well(c, d)
    ensures var e := Strip(c);
            LeafTree(Printed(e)) && NameWeight(per, c) >= NameWeight(per, Printed(e))
            && (NameWeight(per, c) == NameWeight(per, Printed(e)) ==> Faithful(e, d))
            && (FirstToken(c) == K(STAR) <==> e == Star(None))
            && (FirstToken(c) != K(STAR) && NameWeight(per, c) == NameWeight(per, Printed(e)) ==> !StartsWithStar(e))
  {
  }

  function NameWeight(per: nat, c: Cst): nat {
    match c
    case Atom(t) => 1 + TokenBreaks(per, t)
    case Name(n) => 1 + Breaks(per, n)
    case Dotted(q, n) => 3 + Breaks(per, q) + Breaks(per, n)
    case DottedStar(q) => 3 + Breaks(per, q)
    case _ => 0
  }

  lemma NameSize(per: nat, c: Cst, k: TokenList)
    requires LeafTree(c)
    ensures Size(per, Yield(c, k)) == NameWeight(per, c) + Size(per, k)
  {
    if c.Dotted? {
      assert Size(per, Cons(K(DOT), Cons(IDENT(c.name), k))) == 2 + Breaks(per, c.name) + Size(per, k);
    } else if c.DottedStar? {
      TwoKeys(per, DOT, STAR, k);
    }
  }

  lemma {:induction false} TightPrefix(per: nat, c: Cst, k: TokenList, k': TokenList, d: nat)
    requires (c.CNot? || c.CNeg?) && Well(c, d) && Size(per, k) >= Size(per, k')
    ensures var n, m := Size(per, Yield(c, k)), Size(per, Yield(Printed(Strip(c)), k'));
            NoShorter(per, n, m, k, k')
            && (n == m ==> Faithful(Strip(c), d) && (FirstToken(c) == K(STAR) <==> StartsWithStar(Strip(c))))
    decreases c, 0
  {
    if c.CNot? {
      TightOperand(per, c.inner, NOT_PRECEDENCE, false, 3, k, k', d);
    } else {
      TightOperand(per, c.inner, UNARY_MINUS_PRECEDENCE, false, 7, k, k', d + 1);
    }
  }

  lemma {:induction false} TightCase(per: nat, c: Cst, k: TokenList, k': TokenList, d: nat)
    requires c.CCase? && Well(c, d) && Size(per, k) >= Size(per, k')
    ensures var n, m := Size(per, Yield(c, k)), Size(per, Yield(Printed(Strip(c)), k'));
            NoShorter(per, n, m, k, k') && (n == m ==> Faithful(Strip(c), d))
    decreases c, 0
  {
    var CCase(b, ws, o) := c;
    var end, end' := Cons(K(END), k), Cons(K(END), k');
    TightElse(per, o, end, end', d);
    var e, e' := YieldElse(o, end), YieldElse(PrintedOption(StripOption(o)), end');
    TightWhens(per, ws, e, e', d);
    var w, w' := YieldWhens(ws, e), YieldWhens(PrintedWhens(StripWhens(ws)), e');
    TightOption(per, b, w, w', d);
  }

  lemma {:induction false} TightCast(per: nat, c: Cst, k: TokenList, k': TokenList, d: nat)
    requires c.CCast? && Well(c, d) && Size(per, k) >= Size(per, k')
    ensures var n, m := Size(per, Yield(c, k)), Size(per, Yield(Printed(Strip(c)), k'));
            NoShorter(per, n, m, k, k') && (n == m ==> Faithful(Strip(c), d))
    decreases c, 0
  {
    var CCast(x, t) := c;
    var a, a' := Cons(K(AS), Cons(t, Cons(K(RPAREN), k))), Cons(K(AS), Cons(t, Cons(K(RPAREN), k')));
    TypeSize(per, t, k);
    TypeSize(per, t, k');
    Tight(per, x, a, a', d + 1);
    TwoKeys(per, CAST, LPAREN, Yield(x, a));
    TwoKeys(per, CAST, LPAREN, Yield(Printed(Strip(x)), a'));
  }

  lemma TypeSize(per: nat, t: Token, k: TokenList)
    requires t.TYPE?
    ensures Size(per, Cons(K(AS), Cons(t, Cons(K(RPAREN), k)))) == 3 + Size(per, k)
  {
    assert Size(per, Cons(t, Cons(K(RPAREN), k))) == 2 + Size(per, k);
  }

  lemma {:induction false} TightOperand(per: nat, c: Cst, parent: nat, right: bool, level: nat, k: TokenList, k': TokenList, d: nat)
    requires Well(c, d) && level <= Level(c) && Size(per, k) >= Size(per, k')
    requires Parenthesized(Strip(c), parent, right) ==> ExprLevel(Strip(c)) < level
    ensures var e := Strip(c);
            var n, m := Size(per, Yield(c, k)), Size(per, Yield(PrintedOperand(e, parent, right), k'));
            NoShorter(per, n, m, k, k')
            && (n == m ==> FaithfulOperand(e, parent, right, level, d)
                           && (FirstToken(c) == K(STAR) <==> !Parenthesized(e, parent, right) && StartsWithStar(e)))
    decreases c, 4
  {
    if Parenthesized(Strip(c), parent, right) {
      if !c.Paren? {
        LevelOfStrip(c, d);
      }
      Tight(per, c.inner, Cons(K(RPAREN), k), Cons(K(RPAREN), k'), d + 1);
    } else {
      Tight(per, c, k, k', d);
      if !c.Paren? {
        LevelOfStrip(c, d);
      }
    }
  }

  lemma {:induction false} TightBinary(per: nat, c: Cst, k: TokenList, k': TokenList, d: nat)
    requires c.CBin? && Well(c, d) && Size(per, k) >= Size(per, k')
    ensures var n, m := Size(per, Yield(c, k)), Size(per, Yield(Printed(Strip(c)), k'));
            NoShorter(per, n, m, k, k')
            && (n == m ==> Faithful(Strip(c), d) && (FirstToken(c) == K(STAR) <==> StartsWithStar(Strip(c))))
    decreases c, 0
  {
    var CBin(op, l, r) := c;
    var p := Precedence(op);
    var right, right' := Yield(r, k), Yield(PrintedOperand(Strip(r), p, true), k');
    TightOperand(per, r, p, true, OpLevel(op) + 1, k, k', d);
    TightOperand(per, l, p, false, LeftLevel(op), Cons(K(OpKind(op)), right), Cons(K(OpKind(op)), right'), d);
  }

  /** A bare operand of a predicate: an expression of the additive level. */
  lemma {:induction false} TightSubject(per: nat, c: Cst, k: TokenList, k': TokenList, d: nat)
    requires Well(c, d) && 5 <= Level(c) && Size(per, k) >= Size(per, k')
    ensures var n, m := Size(per, Yield(c, k)), Size(per, Yield(Printed(Strip(c)), k'));
            NoShorter(per, n, m, k, k')
            && (n == m ==> Faithful(Strip(c), d) && ExprLevel(Strip(c)) >= 5
                           && (FirstToken(c) == K(STAR) <==> StartsWithStar(Strip(c))))
    decreases c, 4
  {
    Tight(per, c, k, k', d);
    if !c.Paren? {
      LevelOfStrip(c, d);
    }
  }

  lemma {:induction false} TightPredicate(per: nat, c: Cst, k: TokenList, k': TokenList, d: nat)
    requires (c.CIsNull? || c.CBetween? || c.CLike?) && Well(c, d) && Size(per, k) >= Size(per, k')
    ensures var n, m := Size(per, Yield(c, k)), Size(per, Yield(Printed(Strip(c)), k'));
            NoShorter(per, n, m, k, k')
            && (n == m ==> Faithful(Strip(c), d) && (FirstToken(c) == K(STAR) <==> StartsWithStar(Strip(c))))
    decreases c, 1
  {
    if c.CIsNull? {
      TightIsNull(per, c, k, k', d);
    } else if c.CLike? {
      TightSubject(per, c.pattern, k, k', d);
      TightAfter(per, c.subject, c.negated, K(LIKE), Yield(c.pattern, k), Yield(Printed(Strip(c.pattern)), k'), d);
    } else {
      TightBetween(per, c, k, k', d);
    }
  }

  lemma {:induction false} TightIsNull(per: nat, c: Cst, k: TokenList, k': TokenList, d: nat)
    requires c.CIsNull? && Well(c, d) && Size(per, k) >= Size(per, k')
    ensures var n, m := Size(per, Yield(c, k)), Size(per, Yield(Printed(Strip(c)), k'));
            NoShorter(per, n, m, k, k')
            && (n == m ==> Faithful(Strip(c), d) && (FirstToken(c) == K(STAR) <==> StartsWithStar(Strip(c))))
    decreases c, 0
  {
    var v, v' := Cons(K(NULL), k), Cons(K(NULL), k');
    var w, w' := YieldFlag(c.negated, NOT, v), YieldFlag(c.negated, NOT, v');
    assert Size(per, w) - Size(per, w') == Size(per, k) - Size(per, k');
    TightSubject(per, c.subject, Cons(K(IS), w), Cons(K(IS), w'), d);
  }

  lemma {:induction false} TightBetween(per: nat, c: Cst, k: TokenList, k': TokenList, d: nat)
    requires c.CBetween? && Well(c, d) && Size(per, k) >= Size(per, k')
    ensures var n, m := Size(per, Yield(c, k)), Size(per, Yield(Printed(Strip(c)), k'));
            NoShorter(per, n, m, k, k')
            && (n == m ==> Faithful(Strip(c), d) && (FirstToken(c) == K(STAR) <==> StartsWithStar(Strip(c))))
    decreases c, 0
  {
    TightSubject(per, c.high, k, k', d);
    var h, h' := Cons(K(AND), Yield(c.high, k)), Cons(K(AND), Yield(Printed(Strip(c.high)), k'));
    TightSubject(per, c.low, h, h', d);
    TightAfter(per, c.subject, c.negated, K(BETWEEN), Yield(c.low, h), Yield(Printed(Strip(c.low)), h'), d);
  }

  /** The subject in front of `[NOT] op`. */
  lemma {:induction false} TightAfter(per: nat, c: Cst, negated: bool, op: Token, k: TokenList, k': TokenList, d: nat)
    requires Well(c, d) && 5 <= Level(c) && Size(per, k) >= Size(per, k')
    ensures var n, m := Size(per, Yield(c, YieldFlag(negated, NOT, Cons(op, k)))),
                        Size(per, Yield(Printed(Strip(c)), YieldFlag(negated, NOT, Cons(op, k'))));
            NoShorter(per, n, m, k, k')
            && (n == m ==> Faithful(Strip(c), d) && ExprLevel(Strip(c)) >= 5
                           && (FirstToken(c) == K(STAR) <==> StartsWithStar(Strip(c))))
    decreases c, 5
  {
    TightSubject(per, c, YieldFlag(negated, NOT, Cons(op, k)), YieldFlag(negated, NOT, Cons(op, k')), d);
  }

  lemma {:induction false} TightIn(per: nat, c: Cst, k: TokenList, k': TokenList, d: nat)
    requires c.CIn? && Well(c, d) && Size(per, k) >= Size(per, k')
    ensures var n, m := Size(per, Yield(c, k)), Size(per, Yield(Printed(Strip(c)), k'));
            NoShorter(per, n, m, k, k')
            && (n == m ==> Faithful(Strip(c), d) && (FirstToken(c) == K(STAR) <==> StartsWithStar(Strip(c))))
    decreases c, 0
  {
    var CIn(x, vs, negated) := c;
    var r, r' := Cons(K(RPAREN), k), Cons(K(RPAREN), k');
    TightList(per, vs, r, r', d);
    var l, l' := Cons(K(LPAREN), YieldList(vs, r)), Cons(K(LPAREN), YieldList(PrintedList(StripList(vs)), r'));
    TightSubject(per, x, YieldFlag(negated, NOT, Cons(K(IN), l)), YieldFlag(negated, NOT, Cons(K(IN), l')), d);
  }

  // ----- lists and options -----

  predicate SameStart(cs: seq<Cst>) {
    cs != [] ==> (FirstToken(cs[0]) == K(STAR) <==> StartsWithStar(StripList(cs)[0]))
  }

  lemma {:induction false} TightList(per: nat, cs: seq<Cst>, k: TokenList, k': TokenList, d: nat)
    requires WellList(cs, d) && Size(per, k) >= Size(per, k')
    ensures var n, m := Size(per, YieldList(cs, k)), Size(per, YieldList(PrintedList(StripList(cs)), k'));
            NoShorter(per, n, m, k, k')
            && (n == m ==> FaithfulList(StripList(cs), d) && SameStart(cs))
    decreases cs, 1
  {
    if cs != [] {
      TightTail(per, cs[1..], k, k', d);
      Tight(per, cs[0], YieldTail(cs[1..], k), YieldTail(PrintedList(StripList(cs[1..])), k'), d + 1);
    }
  }

  lemma {:induction false} TightTail(per: nat, cs: seq<Cst>, k: TokenList, k': TokenList, d: nat)
    requires WellList(cs, d) && Size(per, k) >= Size(per, k')
    ensures var n, m := Size(per, YieldTail(cs, k)), Size(per, YieldTail(PrintedList(StripList(cs)), k'));
            NoShorter(per, n, m, k, k') && (n == m ==> FaithfulList(StripList(cs), d))
    decreases cs, 0
  {
    if cs != [] {
      TightTail(per, cs[1..], k, k', d);
      Tight(per, cs[0], YieldTail(cs[1..], k), YieldTail(PrintedList(StripList(cs[1..])), k'), d + 1);
    }
  }

  lemma {:induction false} TightOption(per: nat, o: Option<Cst>, k: TokenList, k': TokenList, d: nat)
    requires WellOption(o, d) && Size(per, k) >= Size(per, k')
    ensures var n, m := Size(per, YieldOption(o, k)), Size(per, YieldOption(PrintedOption(StripOption(o)), k'));
            NoShorter(per, n, m, k, k') && (n == m ==> FaithfulOption(StripOption(o), d))
    decreases o, 0
  {
    if o.Some? {
      Tight(per, o.value, k, k', d + 1);
    }
  }

  lemma {:induction false} TightElse(per: nat, o: Option<Cst>, k: TokenList, k': TokenList, d: nat)
    requires WellOption(o, d) && Size(per, k) >= Size(per, k')
    ensures var n, m := Size(per, YieldElse(o, k)), Size(per, YieldElse(PrintedOption(StripOption(o)), k'));
            NoShorter(per, n, m, k, k') && (n == m ==> FaithfulOption(StripOption(o), d))
    decreases o, 0
  {
    if o.Some? {
      Tight(per, o.value, k, k', d + 1);
    }
  }

  lemma {:induction false} TightWhens(per: nat, ws: seq<CWhen>, k: TokenList, k': TokenList, d: nat)
    requires WellWhens(ws, d) && Size(per, k) >= Size(per, k')
    ensures var n, m := Size(per, YieldWhens(ws, k)), Size(per, YieldWhens(PrintedWhens(StripWhens(ws)), k'));
            NoShorter(per, n, m, k, k') && (n == m ==> FaithfulWhens(StripWhens(ws), d))
    decreases ws, 0
  {
    if ws != [] {
      TightWhens(per, ws[1..], k, k', d);
      TightWhen(per, ws[0], YieldWhens(ws[1..], k), YieldWhens(PrintedWhens(StripWhens(ws[1..])), k'), d);
    }
  }

  lemma {:induction false} TightWhen(per: nat, w: CWhen, k: TokenList, k': TokenList, d: nat)
    requires WellWhen(w, d) && Size(per, k) >= Size(per, k')
    ensures var n, m := Size(per, YieldWhen(w, k)), Size(per, YieldWhen(PrintedWhen(StripWhen(w)), k'));
            NoShorter(per, n, m, k, k') && (n == m ==> FaithfulWhen(StripWhen(w), d))
    decreases w, 0
  {
    Tight(per, w.result, k, k', d + 1);
    var t, t' := Cons(K(THEN), Yield(w.result, k)), Cons(K(THEN), Yield(Printed(Strip(w.result)), k'));
    Tight(per, w.condition, t, t', d + 1);
  }

  // ----- calls and windows -----

  function Reprinted(o: Option<COver>): Option<COver> {
    match o
    case None => None
    case Some(w) =>
      Some(COver(PrintedList(StripList(w.partitionBy)), PrintedOrders(StripOrders(w.orderBy)),
                 PrintedFrame(StripFrame(w.frame))))
  }

  predicate FaithfulOver(o: Option<COver>, d: nat) {
    match o
    case None => true
    case Some(w) =>
      |w.partitionBy| <= MAX_LIST_LENGTH && FaithfulList(StripList(w.partitionBy), d)
      && FaithfulOrders(StripOrders(w.orderBy), d) && FaithfulFrame(StripFrame(w.frame), d)
  }

  lemma WindowedPrints(call: Call, o: Option<COver>, d: nat)
    ensures Printed(Windowed(call, o)) == PrintedCall(call, Reprinted(o))
    ensures FaithfulCall(call, d) && FaithfulOver(o, d) ==> Faithful(Windowed(call, o), d)
    ensures !StartsWithStar(Windowed(call, o))
  {
  }

  lemma {:induction false} TightCall(per: nat, c: Cst, k: TokenList, k': TokenList, d: nat)
    requires c.CCall? && Well(c, d) && Size(per, k) >= Size(per, k')
    ensures var n, m := Size(per, Yield(c, k)), Size(per, Yield(Printed(Strip(c)), k'));
            NoShorter(per, n, m, k, k')
            && (n == m ==> Faithful(Strip(c), d) && (FirstToken(c) == K(STAR) <==> StartsWithStar(Strip(c))))
    decreases c, 0
  {
    var CCall(h, distinct, args, f, o) := c;
    TightOver(per, o, k, k', d);
    var v, v' := YieldOver(o, k), YieldOver(Reprinted(o), k');
    TightFilter(per, f, v, v', d);
    var a, a' := Cons(K(RPAREN), YieldFilter(f, v)), Cons(K(RPAREN), YieldFilter(PrintedOption(StripOption(f)), v'));
    TightArgs(per, c, a, a', d);
    CallSize(per, c, k);
    CallSize(per, CallPrinted(c), k');
    CallPrints(c, d);
    HeadBreaks(per, h);
    if Size(per, YieldList(args, a)) == Size(per, YieldList(PrintedList(StripList(args)), a')) {
      CallFaithful(c, d);
    }
  }

  /** The call as it is printed: DISTINCT only shows on an aggregate. */
  function CallPrinted(c: Cst): Cst
    requires c.CCall?
  {
    CCall(NameToken(HeadName(c.head)), HeadName(c.head) in AGGREGATES && c.distinct, PrintedList(StripList(c.args)),
          PrintedOption(StripOption(c.filter)), Reprinted(c.over))
  }

  lemma CallPrints(c: Cst, d: nat)
    requires c.CCall? && Well(c, d)
    ensures Printed(Strip(c)) == CallPrinted(c)
    ensures FirstToken(c) != K(STAR) && !StartsWithStar(Strip(c))
  {
    WindowedPrints(CallOf(HeadName(c.head), StripList(c.args), c.distinct, StripOption(c.filter)), c.over, d);
  }

  lemma CallFaithful(c: Cst, d: nat)
    requires c.CCall? && Well(c, d) && FaithfulArgs(HeadName(c.head), c.distinct, StripList(c.args), d)
    requires FaithfulOption(StripOption(c.filter), d) && FaithfulOver(c.over, d)
    ensures Faithful(Strip(c), d)
  {
    UpperTwice(c.head);
    WindowedPrints(CallOf(HeadName(c.head), StripList(c.args), c.distinct, StripOption(c.filter)), c.over, d);
  }

  /** The printed name of a call has as many line breaks as the name that was read. */
  lemma HeadBreaks(per: nat, h: Token)
    requires HeadToken(h)
    ensures TokenBreaks(per, NameToken(HeadName(h))) <= TokenBreaks(per, h)
  {
    if h.IDENT? {
      BreaksUpper(per, h.text);
    }
  }

  lemma CallSize(per: nat, c: Cst, k: TokenList)
    requires c.CCall?
    ensures Size(per, Yield(c, k)) == (if c.distinct then 3 else 2) + TokenBreaks(per, c.head)
              + Size(per, YieldList(c.args, Cons(K(RPAREN), YieldFilter(c.filter, YieldOver(c.over, k)))))
  {
    var args := YieldList(c.args, Cons(K(RPAREN), YieldFilter(c.filter, YieldOver(c.over, k))));
    FlagSize(per, c.distinct, DISTINCT, args);
    assert Size(per, Cons(K(LPAREN), YieldFlag(c.distinct, DISTINCT, args))) == 1 + Size(per, YieldFlag(c.distinct, DISTINCT, args));
  }

  lemma UpperTwice(h: Token)
    requires HeadToken(h)
    ensures Upper(HeadName(h)) == HeadName(h)
  {
  }

  lemma {:induction false} TightArgs(per: nat, c: Cst, k: TokenList, k': TokenList, d: nat)
    requires c.CCall? && Well(c, d) && Size(per, k) >= Size(per, k')
    ensures var n, m := Size(per, YieldList(c.args, k)), Size(per, YieldList(PrintedList(StripList(c.args)), k'));
            NoShorter(per, n, m, k, k')
            && (n == m ==> FaithfulArgs(HeadName(c.head), c.distinct, StripList(c.args), d))
    decreases c.args, 2
  {
    if IsCountStar(c.head, c.distinct, c.args) {
      CountStarPrints();
    } else {
      TightList(per, c.args, k, k', d);
    }
  }

  predicate FaithfulArgs(name: string, distinct: bool, args: seq<Expr>, d: nat) {
    if name == "COUNT" && !distinct && args != [] && StartsWithStar(args[0]) then args == [Star(None)]
    else FaithfulList(args, d)
  }

  lemma {:induction false} TightFilter(per: nat, o: Option<Cst>, k: TokenList, k': TokenList, d: nat)
    requires WellOption(o, d) && Size(per, k) >= Size(per, k')
    ensures var n, m := Size(per, YieldFilter(o, k)), Size(per, YieldFilter(PrintedOption(StripOption(o)), k'));
            NoShorter(per, n, m, k, k') && (n == m ==> FaithfulOption(StripOption(o), d))
    decreases o, 0
  {
    if o.Some? {
      Tight(per, o.value, Cons(K(RPAREN), k), Cons(K(RPAREN), k'), d + 1);
      ThreeKeys(per, FILTER, LPAREN, WHERE, Yield(o.value, Cons(K(RPAREN), k)));
      ThreeKeys(per, FILTER, LPAREN, WHERE, Yield(Printed(Strip(o.value)), Cons(K(RPAREN), k')));
    }
  }

  lemma {:induction false} TightOver(per: nat, o: Option<COver>, k: TokenList, k': TokenList, d: nat)
    requires WellOver(o, d) && Size(per, k) >= Size(per, k')
    ensures var n, m := Size(per, YieldOver(o, k)), Size(per, YieldOver(Reprinted(o), k'));
            NoShorter(per, n, m, k, k') && (n == m ==> FaithfulOver(o, d))
    decreases o, 0
  {
    if o.Some? {
      var w := o.value;
      var r, r' := Cons(K(RPAREN), k), Cons(K(RPAREN), k');
      TightFrame(per, w.frame, r, r', d);
      var f, f' := YieldFrame(w.frame, r), YieldFrame(PrintedFrame(StripFrame(w.frame)), r');
      TightOrder(per, w.orderBy, f, f', d);
      var q, q' := YieldOrder(w.orderBy, f), YieldOrder(PrintedOrders(StripOrders(w.orderBy)), f');
      TightPartition(per, w.partitionBy, q, q', d);
      TwoKeys(per, OVER, LPAREN, YieldPartition(w.partitionBy, q));
      TwoKeys(per, OVER, LPAREN, YieldPartition(PrintedList(StripList(w.partitionBy)), q'));
    }
  }

  lemma {:induction false} TightPartition(per: nat, cs: seq<Cst>, k: TokenList, k': TokenList, d: nat)
    requires WellList(cs, d) && Size(per, k) >= Size(per, k')
    ensures var n, m := Size(per, YieldPartition(cs, k)), Size(per, YieldPartition(PrintedList(StripList(cs)), k'));
            NoShorter(per, n, m, k, k') && (n == m ==> FaithfulList(StripList(cs), d))
    decreases cs, 2
  {
    TightList(per, cs, k, k', d);
    TwoKeys(per, PARTITION, BY, YieldList(cs, k));
    TwoKeys(per, PARTITION, BY, YieldList(PrintedList(StripList(cs)), k'));
  }

  lemma {:induction false} TightOrder(per: nat, os: seq<COrder>, k: TokenList, k': TokenList, d: nat)
    requires WellOrders(os, d) && Size(per, k) >= Size(per, k')
    ensures var n, m := Size(per, YieldOrder(os, k)), Size(per, YieldOrder(PrintedOrders(StripOrders(os)), k'));
            NoShorter(per, n, m, k, k') && (n == m ==> FaithfulOrders(StripOrders(os), d))
    decreases os, 1
  {
    if os != [] {
      TightItems(per, os[1..], k, k', d);
      var r, r' := YieldItems(os[1..], k), YieldItems(PrintedOrders(StripOrders(os[1..])), k');
      TightItem(per, os[0], r, r', d);
      TwoKeys(per, ORDER, BY, YieldItem(os[0], r));
      TwoKeys(per, ORDER, BY, YieldItem(PrintedOrder(StripOrder(os[0])), r'));
    }
  }

  lemma {:induction false} TightItems(per: nat, os: seq<COrder>, k: TokenList, k': TokenList, d: nat)
    requires WellOrders(os, d) && Size(per, k) >= Size(per, k')
    ensures var n, m := Size(per, YieldItems(os, k)), Size(per, YieldItems(PrintedOrders(StripOrders(os)), k'));
            NoShorter(per, n, m, k, k') && (n == m ==> FaithfulOrders(StripOrders(os), d))
    decreases os, 0
  {
    if os != [] {
      TightItems(per, os[1..], k, k', d);
      TightItem(per, os[0], YieldItems(os[1..], k), YieldItems(PrintedOrders(StripOrders(os[1..])), k'), d);
    }
  }

  lemma FlagSize(per: nat, b: bool, kind: Kind, k: TokenList)
    ensures Size(per, YieldFlag(b, kind, k)) == (if b then 1 else 0) + Size(per, k)
  {
  }

  /** What follows the expression of an order item. */
  lemma DirectionSize(per: nat, o: COrder, k: TokenList)
    ensures var v := YieldNulls(o.nulls, k);
            Size(per, YieldFlag(o.direction.Ascending?, ASC, YieldFlag(o.direction.Descending?, DESC, v)))
            == (if o.direction.Implicit? then 0 else 1) + (if o.nulls.None? then 0 else 2) + Size(per, k)
  {
    var v := YieldNulls(o.nulls, k);
    FlagSize(per, o.direction.Descending?, DESC, v);
    FlagSize(per, o.direction.Ascending?, ASC, YieldFlag(o.direction.Descending?, DESC, v));
    if o.nulls.Some? {
      TwoKeys(per, NULLS, if o.nulls.value.NullsFirst? then FIRST else LAST, k);
    }
  }

  lemma {:induction false} TightItem(per: nat, o: COrder, k: TokenList, k': TokenList, d: nat)
    requires WellOrder(o, d) && Size(per, k) >= Size(per, k')
    ensures var n, m := Size(per, YieldItem(o, k)), Size(per, YieldItem(PrintedOrder(StripOrder(o)), k'));
            NoShorter(per, n, m, k, k') && (n == m ==> FaithfulOrder(StripOrder(o), d))
    decreases o, 0
  {
    var p := PrintedOrder(StripOrder(o));
    var v, v' := YieldNulls(o.nulls, k), YieldNulls(p.nulls, k');
    DirectionSize(per, o, k);
    DirectionSize(per, p, k');
    Tight(per, o.expr, YieldFlag(o.direction.Ascending?, ASC, YieldFlag(o.direction.Descending?, DESC, v)),
          YieldFlag(p.direction.Ascending?, ASC, YieldFlag(p.direction.Descending?, DESC, v')), d + 1);
  }

  lemma {:induction false} TightFrame(per: nat, f: Option<CFrame>, k: TokenList, k': TokenList, d: nat)
    requires WellFrame(f, d) && Size(per, k) >= Size(per, k')
    ensures var n, m := Size(per, YieldFrame(f, k)), Size(per, YieldFrame(PrintedFrame(StripFrame(f)), k'));
            NoShorter(per, n, m, k, k') && (n == m ==> FaithfulFrame(StripFrame(f), d))
    decreases f, 0
  {
    if f.Some? {
      var w := f.value;
      var e, e' := YieldEnd(w.end, k), YieldEnd(PrintedEnd(StripFrame(f).value.end), k');
      if w.end.Some? {
        TightBound(per, w.end.value, k, k', d);
      }
      TightBound(per, w.start, e, e', d);
    }
  }

  lemma {:induction false} TightBound(per: nat, b: CBound, k: TokenList, k': TokenList, d: nat)
    requires WellBound(b, d) && Size(per, k) >= Size(per, k')
    ensures var n, m := Size(per, YieldBound(b, k)), Size(per, YieldBound(PrintedBound(StripBound(b)), k'));
            NoShorter(per, n, m, k, k') && (n == m ==> FaithfulBound(StripBound(b), d))
    decreases b, 0
  {
    if b.COffset? {
      Tight(per, b.offset, Cons(K(Side(b.following)), k), Cons(K(Side(b.following)), k'), d + 1);
    }
  }
}
