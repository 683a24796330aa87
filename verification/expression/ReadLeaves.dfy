/**
 What every expression that was read from some text has in common: its numbers, strings and names are
 such as the lexer gives.
 */
module ReadLeaves {
  import opened Ast
  import opened Grammar
  import opened Lexing
  import opened LexerSpec
  import opened Pieces
  import opened Tokens
  import opened Wrappers

  predicate TokenMeets(t: Token, m: Demand) {
    match t
    case INTEGER(s) => m.leaves ==> IsInteger(s)
    case DECIMAL(s) => m.leaves ==> IsDecimal(s)
    case STRING(s) => m.leaves ==> StringFits(s)
    case IDENT(n) => NameMeets(n, m)
    case _ => true
  }

  predicate TokensMeet(ts: TokenList, m: Demand) {
    ts.Cons? ==> TokenMeets(ts.head, m) && TokensMeet(ts.tail, m)
  }

  // ----- what the lexer gives -----

  lemma {:induction false} DigitsAre(s: string)
    ensures AllDigits(s[..DigitRun(s)])
  {
    if s != "" && IsDigit(s[0]) {
      DigitsAre(s[1..]);
      assert forall i :: 0 < i < DigitRun(s) ==> s[i] == s[1..][i - 1];
    }
  }

  lemma {:induction false} WordCharsAre(s: string)
    ensures AllWord(s[..WordRun(s)])
  {
    if s != "" && IsWordChar(s[0]) {
      WordCharsAre(s[1..]);
      assert forall i :: 0 < i < WordRun(s) ==> s[i] == s[1..][i - 1];
    }
  }

  lemma NumberMeets(s: string)
    requires s != "" && IsDigit(s[0]) && NumberRun(s) <= MAX_LITERAL_LENGTH
    ensures var n := NumberRun(s);
            TokenMeets(if n == DigitRun(s) then INTEGER(s[..n]) else DECIMAL(s[..n]), LEAVES)
  {
    var w, n := DigitRun(s), NumberRun(s);
    DigitsAre(s);
    if n == w {
      assert IsInteger(s[..n]);
    } else {
      DecimalMeets(s, w, n);
    }
  }

  lemma DecimalMeets(s: string, w: nat, n: nat)
    requires w == DigitRun(s) && n == NumberRun(s) != w && 0 < w && n <= MAX_LITERAL_LENGTH
    ensures IsDecimal(s[..n])
  {
    var fraction := DigitRun(s[w + 1..]);
    assert n == w + 1 + fraction && fraction > 0;
    DigitsAre(s);
    DigitsAre(s[w + 1..]);
    var t := s[..n];
    assert t[w] == '.' && t[..w] == s[..w] && t[w + 1..] == s[w + 1..][..fraction];
  }

  lemma {:induction false} StringMeets(s: string, text: string, cut: bool)
    requires StringFits(text) && !ScanString(s, text, cut).cut
    ensures StringFits(ScanString(s, text, cut).text)
    decreases |s|
  {
    if s != "" {
      if s[0] == '\'' {
        if |s| > 1 && s[1] == '\'' {
          StringMeets(s[2..], text + "'", cut);
        }
      } else if |text| < MAX_STRING_LENGTH {
        StringMeets(s[1..], text + [s[0]], cut);
      } else {
        CutStaysCut(s[1..], text);
      }
    }
  }

  lemma {:induction false} CutStaysCut(s: string, text: string)
    ensures ScanString(s, text, true).cut
    decreases |s|
  {
    if s != "" {
      if s[0] == '\'' {
        if |s| > 1 && s[1] == '\'' {
          CutStaysCut(s[2..], text + "'");
        }
      } else if |text| < MAX_STRING_LENGTH {
        CutStaysCut(s[1..], text + [s[0]]);
      } else {
        CutStaysCut(s[1..], text);
      }
    }
  }

  lemma {:induction false} IdentifierMeets(s: string, text: string, cut: bool)
    requires '"' !in text && |text| <= MAX_STRING_LENGTH
    ensures var r := ScanIdentifier(s, text, cut).text; '"' !in r && |r| <= MAX_STRING_LENGTH
    decreases |s|
  {
    if s != "" && s[0] != '"' {
      if |text| < MAX_STRING_LENGTH {
        IdentifierMeets(s[1..], text + [s[0]], cut);
      } else {
        IdentifierMeets(s[1..], text, true);
      }
    }
  }

  lemma WordMeets(s: string, afterAs: bool)
    requires s != "" && IsWordStart(s[0])
    ensures TokenMeets(WordToken(s[..WordRun(s)], afterAs), LEAVES)
  {
    WordCharsAre(s);
    var w := s[..WordRun(s)];
    assert w != "" && w[0] == s[0];
    assert '"' !in w;
  }

  /** Text read without an error gives tokens within all limits, and names without double quotes. */
  lemma {:induction false} LexedMeets(s: string, afterAs: bool)
    requires Lex(s, afterAs).errs == []
    ensures TokensMeet(Lex(s, afterAs).toks, LEAVES)
    decreases |s|
  {
    if s == "" {
    } else if IsSpace(s[0]) {
      LexedMeets(s[1..], afterAs);
    } else if s[0] == '-' && |s| > 1 && s[1] == '-' {
      LexedMeets(s[LineRun(s)..], afterAs);
    } else if IsDigit(s[0]) {
      LexedMeets(s[NumberRun(s)..], false);
      NumberMeets(s);
    } else if s[0] == '\'' {
      LexedMeets(ScanString(s[1..], "", false).rest, false);
      StringMeets(s[1..], "", false);
    } else if IsWordStart(s[0]) {
      var t := WordToken(s[..WordRun(s)], afterAs);
      LexedMeets(s[WordRun(s)..], t == K(AS));
      WordMeets(s, afterAs);
    } else if s[0] == '"' {
      LexedMeets(ScanIdentifier(s[1..], "", false).rest, false);
      IdentifierMeets(s[1..], "", false);
    } else if |s| > 1 && Double(s[0], s[1]).Some? {
      LexedMeets(s[2..], false);
    } else if Single(s[0]).Some? {
      LexedMeets(s[1..], false);
    }
  }

  // ----- what a derivation takes from its tokens -----

  lemma Skip(t: Token, k: TokenList, m: Demand)
    requires TokensMeet(Cons(t, k), m)
    ensures TokenMeets(t, m) && TokensMeet(k, m)
  {
  }

  lemma SkipFlag(b: bool, kind: Kind, k: TokenList, m: Demand)
    requires TokensMeet(YieldFlag(b, kind, k), m)
    ensures TokensMeet(k, m)
  {
  }

  lemma SkipNulls(n: Option<Nulls>, k: TokenList, m: Demand)
    requires TokensMeet(YieldNulls(n, k), m)
    ensures TokensMeet(k, m)
  {
    if n.Some? {
      Skip(K(NULLS), Cons(K(if n.value.NullsFirst? then FIRST else LAST), k), m);
    }
  }

  lemma {:induction false} Leaves(c: Cst, k: TokenList, d: nat, m: Demand)
    requires Well(c, d) && !m.words && !m.apart && TokensMeet(Yield(c, k), m)
    ensures TokensMeet(k, m) && Meets(Strip(c), m)
    decreases c, 1
  {
    match c
    case Paren(x) => Leaves(x, Cons(K(RPAREN), k), d + 1, m);
    case CNeg(x) => Leaves(x, k, d + 1, m);
    case CNot(x) => Leaves(x, k, d, m);
    case CBin(_, _, _) => BinaryLeaves(c, k, d, m);
    case CIsNull(_, _) => IsNullLeaves(c, k, d, m);
    case CBetween(_, _, _, _) => BetweenLeaves(c, k, d, m);
    case CIn(_, _, _) => InLeaves(c, k, d, m);
    case CLike(_, _, _) => LikeLeaves(c, k, d, m);
    case CCase(_, _, _) => CaseLeaves(c, k, d, m);
    case CCast(_, _) => CastLeaves(c, k, d, m);
    case CCall(_, _, _, _, _) => CallLeaves(c, k, d, m);
    case _ => NameLeaves(c, k, m);
  }

  lemma NameLeaves(c: Cst, k: TokenList, m: Demand)
    requires (c.Atom? || c.Name? || c.Dotted? || c.DottedStar?) && TokensMeet(Yield(c, k), m)
    ensures TokensMeet(k, m) && Meets(Strip(c), m)
  {
    match c
    case Dotted(q, n) => Skip(K(DOT), Cons(IDENT(n), k), m); Skip(IDENT(n), k, m);
    case DottedStar(q) => Skip(K(DOT), Cons(K(STAR), k), m); Skip(K(STAR), k, m);
    case _ =>
  }

  lemma {:induction false} BinaryLeaves(c: Cst, k: TokenList, d: nat, m: Demand)
    requires c.CBin? && Well(c, d) && !m.words && !m.apart && TokensMeet(Yield(c, k), m)
    ensures TokensMeet(k, m) && Meets(Strip(c), m)
    decreases c, 0
  {
    Leaves(c.left, Cons(K(OpKind(c.op)), Yield(c.right, k)), d, m);
    Leaves(c.right, k, d, m);
  }

  lemma {:induction false} LikeLeaves(c: Cst, k: TokenList, d: nat, m: Demand)
    requires c.CLike? && Well(c, d) && !m.words && !m.apart && TokensMeet(Yield(c, k), m)
    ensures TokensMeet(k, m) && Meets(Strip(c), m)
    decreases c, 0
  {
    Leaves(c.subject, YieldFlag(c.negated, NOT, Cons(K(LIKE), Yield(c.pattern, k))), d, m);
    Leaves(c.pattern, k, d, m);
  }

  lemma {:induction false} IsNullLeaves(c: Cst, k: TokenList, d: nat, m: Demand)
    requires c.CIsNull? && Well(c, d) && !m.words && !m.apart && TokensMeet(Yield(c, k), m)
    ensures TokensMeet(k, m) && Meets(Strip(c), m)
    decreases c, 0
  {
    var close := Cons(K(NULL), k);
    var tail := YieldFlag(c.negated, NOT, close);
    Leaves(c.subject, Cons(K(IS), tail), d, m);
    Skip(K(IS), tail, m);
    SkipFlag(c.negated, NOT, close, m);
  }

  lemma {:induction false} CastLeaves(c: Cst, k: TokenList, d: nat, m: Demand)
    requires c.CCast? && Well(c, d) && !m.words && !m.apart && TokensMeet(Yield(c, k), m)
    ensures TokensMeet(k, m) && Meets(Strip(c), m)
    decreases c, 0
  {
    var close := Cons(c.target, Cons(K(RPAREN), k));
    Leaves(c.subject, Cons(K(AS), close), d + 1, m);
    Skip(K(AS), close, m);
    Skip(c.target, Cons(K(RPAREN), k), m);
  }

  lemma {:induction false} BetweenLeaves(c: Cst, k: TokenList, d: nat, m: Demand)
    requires c.CBetween? && Well(c, d) && !m.words && !m.apart && TokensMeet(Yield(c, k), m)
    ensures TokensMeet(k, m) && Meets(Strip(c), m)
    decreases c, 0
  {
    var low := Yield(c.low, Cons(K(AND), Yield(c.high, k)));
    Leaves(c.subject, YieldFlag(c.negated, NOT, Cons(K(BETWEEN), low)), d, m);
    Leaves(c.low, Cons(K(AND), Yield(c.high, k)), d, m);
    Leaves(c.high, k, d, m);
  }

  lemma {:induction false} InLeaves(c: Cst, k: TokenList, d: nat, m: Demand)
    requires c.CIn? && Well(c, d) && !m.words && !m.apart && TokensMeet(Yield(c, k), m)
    ensures TokensMeet(k, m) && Meets(Strip(c), m)
    decreases c, 0
  {
    var close := Cons(K(RPAREN), k);
    var list := Cons(K(IN), Cons(K(LPAREN), YieldList(c.values, close)));
    Leaves(c.subject, YieldFlag(c.negated, NOT, list), d, m);
    assert TokensMeet(list, m) && TokensMeet(list.tail, m);
    ListLeaves(c.values, close, d, m);
  }

  lemma {:induction false} CaseLeaves(c: Cst, k: TokenList, d: nat, m: Demand)
    requires c.CCase? && Well(c, d) && !m.words && !m.apart && TokensMeet(Yield(c, k), m)
    ensures TokensMeet(k, m) && Meets(Strip(c), m)
    decreases c, 0
  {
    var end := Cons(K(END), k);
    var otherwise := YieldElse(c.otherwise, end);
    OptionLeaves(c.base, YieldWhens(c.whens, otherwise), d, m);
    WhensLeaves(c.whens, otherwise, d, m);
    assert c.otherwise.Some? ==> otherwise == Cons(K(ELSE), YieldOption(c.otherwise, end));
    OptionLeaves(c.otherwise, end, d, m);
  }

  lemma {:induction false} CallLeaves(c: Cst, k: TokenList, d: nat, m: Demand)
    requires c.CCall? && Well(c, d) && !m.words && !m.apart && TokensMeet(Yield(c, k), m)
    ensures TokensMeet(k, m) && Meets(Strip(c), m)
    decreases c, 0
  {
    var over := YieldOver(c.over, k);
    var behind := Cons(K(RPAREN), YieldFilter(c.filter, over));
    var list := YieldList(c.args, behind);
    Skip(c.head, Cons(K(LPAREN), YieldFlag(c.distinct, DISTINCT, list)), m);
    Skip(K(LPAREN), YieldFlag(c.distinct, DISTINCT, list), m);
    if IsCountStar(c.head, c.distinct, c.args) {
      StarList(c.args, behind);
    } else {
      ListLeaves(c.args, behind, d, m);
    }
    FilterLeaves(c.filter, over, d, m);
    OverLeaves(c, k, d, m);
    CallMeets(c, m);
  }

  lemma StarList(args: seq<Cst>, k: TokenList)
    requires args == [Atom(K(STAR))]
    ensures StripList(args) == [Star(None)] && YieldList(args, k) == Cons(K(STAR), k)
  {
    assert args[1..] == [];
    assert YieldTail(args[1..], k) == k;
    assert args[0] == Atom(K(STAR));
    assert Yield(args[0], k) == Cons(K(STAR), k);
  }

  lemma CallMeets(c: Cst, m: Demand)
    requires c.CCall? && !m.words && !m.apart && MeetsList(StripList(c.args), m) && MeetsOption(StripOption(c.filter), m)
    requires c.over.Some? ==>
               && MeetsList(StripList(c.over.value.partitionBy), m) && MeetsOrders(StripOrders(c.over.value.orderBy), m)
               && MeetsFrame(StripFrame(c.over.value.frame), m)
    ensures Meets(Strip(c), m)
  {
    assert MeetsCall(CallOf(HeadName(c.head), StripList(c.args), c.distinct, StripOption(c.filter)), m);
  }

  lemma {:induction false} FilterLeaves(o: Option<Cst>, k: TokenList, d: nat, m: Demand)
    requires WellOption(o, d) && !m.words && !m.apart && TokensMeet(YieldFilter(o, k), m)
    ensures TokensMeet(k, m) && MeetsOption(StripOption(o), m)
    decreases o, 0
  {
    if o.Some? {
      var inner := Yield(o.value, Cons(K(RPAREN), k));
      Skip(K(LPAREN), Cons(K(WHERE), inner), m);
      Skip(K(WHERE), inner, m);
      Leaves(o.value, Cons(K(RPAREN), k), d + 1, m);
    }
  }

  lemma {:induction false} OverLeaves(c: Cst, k: TokenList, d: nat, m: Demand)
    requires c.CCall? && WellOver(c.over, d) && !m.words && !m.apart && TokensMeet(YieldOver(c.over, k), m)
    ensures TokensMeet(k, m)
    ensures c.over.Some? ==>
              && MeetsList(StripList(c.over.value.partitionBy), m) && MeetsOrders(StripOrders(c.over.value.orderBy), m)
              && MeetsFrame(StripFrame(c.over.value.frame), m)
    decreases c.over, 0
  {
    if c.over.Some? {
      var w, close := c.over.value, Cons(K(RPAREN), k);
      var frame := YieldFrame(w.frame, close);
      var order := YieldOrder(w.orderBy, frame);
      Skip(K(LPAREN), YieldPartition(w.partitionBy, order), m);
      if w.partitionBy != [] {
        Skip(K(BY), YieldList(w.partitionBy, order), m);
        ListLeaves(w.partitionBy, order, d, m);
      }
      OrdersLeaves(w.orderBy, frame, d, m);
      FrameLeaves(w.frame, close, d, m);
    }
  }

  lemma {:induction false} ListLeaves(cs: seq<Cst>, k: TokenList, d: nat, m: Demand)
    requires WellList(cs, d) && !m.words && !m.apart && TokensMeet(YieldList(cs, k), m)
    ensures TokensMeet(k, m) && MeetsList(StripList(cs), m)
    decreases cs, 1
  {
    if cs != [] {
      Leaves(cs[0], YieldTail(cs[1..], k), d + 1, m);
      TailLeaves(cs[1..], k, d, m);
    }
  }

  lemma {:induction false} TailLeaves(cs: seq<Cst>, k: TokenList, d: nat, m: Demand)
    requires WellList(cs, d) && !m.words && !m.apart && TokensMeet(YieldTail(cs, k), m)
    ensures TokensMeet(k, m) && MeetsList(StripList(cs), m)
    decreases cs, 0
  {
    if cs != [] {
      Leaves(cs[0], YieldTail(cs[1..], k), d + 1, m);
      TailLeaves(cs[1..], k, d, m);
    }
  }

  lemma {:induction false} OptionLeaves(o: Option<Cst>, k: TokenList, d: nat, m: Demand)
    requires WellOption(o, d) && !m.words && !m.apart && TokensMeet(YieldOption(o, k), m)
    ensures TokensMeet(k, m) && MeetsOption(StripOption(o), m)
    decreases o, 0
  {
    if o.Some? {
      Leaves(o.value, k, d + 1, m);
    }
  }

  lemma {:induction false} WhensLeaves(ws: seq<CWhen>, k: TokenList, d: nat, m: Demand)
    requires WellWhens(ws, d) && !m.words && !m.apart && TokensMeet(YieldWhens(ws, k), m)
    ensures TokensMeet(k, m) && MeetsWhens(StripWhens(ws), m)
    decreases ws, 0
  {
    if ws != [] {
      WhenLeaves(ws[0], YieldWhens(ws[1..], k), d, m);
      WhensLeaves(ws[1..], k, d, m);
    }
  }

  lemma {:induction false} WhenLeaves(w: CWhen, k: TokenList, d: nat, m: Demand)
    requires WellWhen(w, d) && !m.words && !m.apart && TokensMeet(YieldWhen(w, k), m)
    ensures TokensMeet(k, m) && MeetsWhen(StripWhen(w), m)
    decreases w, 0
  {
    Leaves(w.condition, Cons(K(THEN), Yield(w.result, k)), d + 1, m);
    Leaves(w.result, k, d + 1, m);
  }

  lemma {:induction false} OrdersLeaves(os: seq<COrder>, k: TokenList, d: nat, m: Demand)
    requires WellOrders(os, d) && !m.words && !m.apart && TokensMeet(YieldOrder(os, k), m)
    ensures TokensMeet(k, m) && MeetsOrders(StripOrders(os), m)
    decreases os, 1
  {
    if os != [] {
      ItemLeaves(os[0], YieldItems(os[1..], k), d, m);
      ItemsLeaves(os[1..], k, d, m);
    }
  }

  lemma {:induction false} ItemsLeaves(os: seq<COrder>, k: TokenList, d: nat, m: Demand)
    requires WellOrders(os, d) && !m.words && !m.apart && TokensMeet(YieldItems(os, k), m)
    ensures TokensMeet(k, m) && MeetsOrders(StripOrders(os), m)
    decreases os, 0
  {
    if os != [] {
      ItemLeaves(os[0], YieldItems(os[1..], k), d, m);
      ItemsLeaves(os[1..], k, d, m);
    }
  }

  lemma {:induction false} ItemLeaves(o: COrder, k: TokenList, d: nat, m: Demand)
    requires WellOrder(o, d) && !m.words && !m.apart && TokensMeet(YieldItem(o, k), m)
    ensures TokensMeet(k, m) && MeetsOrder(StripOrder(o), m)
    decreases o, 0
  {
    var nulls := YieldNulls(o.nulls, k);
    var descending := YieldFlag(o.direction.Descending?, DESC, nulls);
    Leaves(o.expr, YieldFlag(o.direction.Ascending?, ASC, descending), d + 1, m);
    SkipFlag(o.direction.Ascending?, ASC, descending, m);
    SkipFlag(o.direction.Descending?, DESC, nulls, m);
    SkipNulls(o.nulls, k, m);
  }

  lemma {:induction false} FrameLeaves(f: Option<CFrame>, k: TokenList, d: nat, m: Demand)
    requires WellFrame(f, d) && !m.words && !m.apart && TokensMeet(YieldFrame(f, k), m)
    ensures TokensMeet(k, m) && MeetsFrame(StripFrame(f), m)
    decreases f, 0
  {
    if f.Some? {
      BoundLeaves(f.value.start, YieldEnd(f.value.end, k), d, m);
      if f.value.end.Some? {
        BoundLeaves(f.value.end.value, k, d, m);
      }
    }
  }

  lemma {:induction false} BoundLeaves(b: CBound, k: TokenList, d: nat, m: Demand)
    requires WellBound(b, d) && !m.words && !m.apart && TokensMeet(YieldBound(b, k), m)
    ensures TokensMeet(k, m) && MeetsBound(StripBound(b), m)
    decreases b, 0
  {
    if b.COffset? {
      Leaves(b.offset, Cons(K(Side(b.following)), k), d + 1, m);
    }
  }

  // ----- demands taken together -----

  predicate Covers(a: Demand, b: Demand, m: Demand) {
    && (m.words ==> a.words || b.words) && (m.apart ==> a.apart || b.apart)
    && (m.leaves ==> a.leaves || b.leaves) && (m.kept ==> a.kept || b.kept)
  }

  lemma {:induction false} MeetsBoth(e: Expr, a: Demand, b: Demand, m: Demand)
    requires Meets(e, a) && Meets(e, b) && Covers(a, b, m)
    ensures Meets(e, m)
    decreases e, 1
  {
    match e
    case Binary(_, l, r) => MeetsBoth(l, a, b, m); MeetsBoth(r, a, b, m);
    case Negate(x) => MeetsBoth(x, a, b, m);
    case LogicalNot(x) => MeetsBoth(x, a, b, m);
    case Between(x, lo, hi, _) => MeetsBoth(x, a, b, m); MeetsBoth(lo, a, b, m); MeetsBoth(hi, a, b, m);
    case InList(x, vs, _) => MeetsBoth(x, a, b, m); ListBoth(vs, a, b, m);
    case IsNull(x, _) => MeetsBoth(x, a, b, m);
    case Like(x, p, _) => MeetsBoth(x, a, b, m); MeetsBoth(p, a, b, m);
    case Case(base, ws, o) => OptionBoth(base, a, b, m); WhensBoth(ws, a, b, m); OptionBoth(o, a, b, m);
    case Cast(x, _) => MeetsBoth(x, a, b, m);
    case CallExpr(call) => CallBoth(call, a, b, m);
    case Window(_, _, _, _) => WindowBoth(e, a, b, m);
    case _ =>
  }

  lemma {:induction false} WindowBoth(e: Expr, a: Demand, b: Demand, m: Demand)
    requires e.Window? && Meets(e, a) && Meets(e, b) && Covers(a, b, m)
    ensures Meets(e, m)
    decreases e, 0
  {
    CallBoth(e.call, a, b, m);
    ListBoth(e.partitionBy, a, b, m);
    OrdersBoth(e.orderBy, a, b, m);
    FrameBoth(e.frame, a, b, m);
  }

  lemma {:induction false} CallBoth(call: Call, a: Demand, b: Demand, m: Demand)
    requires MeetsCall(call, a) && MeetsCall(call, b) && Covers(a, b, m)
    ensures MeetsCall(call, m)
    decreases call, 0
  {
    ListBoth(call.args, a, b, m);
    if call.AggregateCall? {
      OptionBoth(call.filter, a, b, m);
    }
  }

  lemma {:induction false} ListBoth(es: seq<Expr>, a: Demand, b: Demand, m: Demand)
    requires MeetsList(es, a) && MeetsList(es, b) && Covers(a, b, m)
    ensures MeetsList(es, m)
    decreases es, 0
  {
    if es != [] {
      MeetsBoth(es[0], a, b, m);
      ListBoth(es[1..], a, b, m);
    }
  }

  lemma {:induction false} OptionBoth(o: Option<Expr>, a: Demand, b: Demand, m: Demand)
    requires MeetsOption(o, a) && MeetsOption(o, b) && Covers(a, b, m)
    ensures MeetsOption(o, m)
    decreases o, 0
  {
    if o.Some? {
      MeetsBoth(o.value, a, b, m);
    }
  }

  lemma {:induction false} WhensBoth(ws: seq<When>, a: Demand, b: Demand, m: Demand)
    requires MeetsWhens(ws, a) && MeetsWhens(ws, b) && Covers(a, b, m)
    ensures MeetsWhens(ws, m)
    decreases ws, 0
  {
    if ws != [] {
      WhenBoth(ws[0], a, b, m);
      WhensBoth(ws[1..], a, b, m);
    }
  }

  lemma {:induction false} WhenBoth(w: When, a: Demand, b: Demand, m: Demand)
    requires MeetsWhen(w, a) && MeetsWhen(w, b) && Covers(a, b, m)
    ensures MeetsWhen(w, m)
    decreases w, 0
  {
    MeetsBoth(w.condition, a, b, m);
    MeetsBoth(w.result, a, b, m);
  }

  lemma {:induction false} OrdersBoth(os: seq<OrderItem>, a: Demand, b: Demand, m: Demand)
    requires MeetsOrders(os, a) && MeetsOrders(os, b) && Covers(a, b, m)
    ensures MeetsOrders(os, m)
    decreases os, 0
  {
    if os != [] {
      OrderBoth(os[0], a, b, m);
      OrdersBoth(os[1..], a, b, m);
    }
  }

  lemma {:induction false} OrderBoth(o: OrderItem, a: Demand, b: Demand, m: Demand)
    requires MeetsOrder(o, a) && MeetsOrder(o, b) && Covers(a, b, m)
    ensures MeetsOrder(o, m)
    decreases o, 0
  {
    MeetsBoth(o.expr, a, b, m);
  }

  lemma {:induction false} FrameBoth(f: Option<Frame>, a: Demand, b: Demand, m: Demand)
    requires MeetsFrame(f, a) && MeetsFrame(f, b) && Covers(a, b, m)
    ensures MeetsFrame(f, m)
    decreases f, 0
  {
    if f.Some? {
      BoundBoth(f.value.start, a, b, m);
      if f.value.end.Some? {
        BoundBoth(f.value.end.value, a, b, m);
      }
    }
  }

  lemma {:induction false} BoundBoth(x: Bound, a: Demand, b: Demand, m: Demand)
    requires MeetsBound(x, a) && MeetsBound(x, b) && Covers(a, b, m)
    ensures MeetsBound(x, m)
    decreases x, 0
  {
    if x.Offset? {
      OptionBoth(x.offset, a, b, m);
    }
  }
}
