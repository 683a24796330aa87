/**
 Two minus signs in a row: where the pieces of an expression have them, and what the lexer then misses:
 the line break that ends the comment, or tokens if the comment goes on to the end of the text.
 */
module MinusSigns {
  import opened Ast
  import opened Emitter
  import opened Lexing
  import opened LexerSpec
  import opened LineBreaks
  import opened PieceReading
  import opened Pieces
  import opened Printing
  import opened Tokens
  import opened Wrappers

  /** No minus stands right in front of another. */
  predicate Clear(t: Text) {
    t.More? ==> !Clash(t.piece, t.rest) && Clear(t.rest)
  }

  // ----- line breaks in tokens: never more than in the text -----

  lemma SliceBreaks(s: string, n: nat)
    requires n <= |s|
    ensures Breaks(1, s[..n]) + Breaks(1, s[n..]) == Breaks(1, s)
  {
    BreaksJoin(1, s[..n], s[n..]);
    assert s[..n] + s[n..] == s;
  }

  lemma {:induction false} StringBreaks(s: string, text: string, cut: bool)
    ensures var r := ScanString(s, text, cut); Breaks(1, r.text) + Breaks(1, r.rest) <= Breaks(1, text) + Breaks(1, s)
    decreases |s|
  {
    if s != "" {
      if s[0] == '\'' {
        if |s| > 1 && s[1] == '\'' {
          StringBreaks(s[2..], text + "'", cut);
          BreaksJoin(1, text, "'");
          SliceBreaks(s, 2);
        }
      } else if |text| < MAX_STRING_LENGTH {
        StringBreaks(s[1..], text + [s[0]], cut);
        BreaksJoin(1, text, [s[0]]);
      } else {
        StringBreaks(s[1..], text, true);
      }
    }
  }

  lemma {:induction false} IdentifierBreaks(s: string, text: string, cut: bool)
    ensures var r := ScanIdentifier(s, text, cut); Breaks(1, r.text) + Breaks(1, r.rest) <= Breaks(1, text) + Breaks(1, s)
    decreases |s|
  {
    if s != "" && s[0] != '"' {
      if |text| < MAX_STRING_LENGTH {
        IdentifierBreaks(s[1..], text + [s[0]], cut);
        BreaksJoin(1, text, [s[0]]);
      } else {
        IdentifierBreaks(s[1..], text, true);
      }
    }
  }

  /** Every line break in a token stands in the text. */
  lemma {:induction false} LexBreaks(s: string, afterAs: bool)
    ensures Lines(Lex(s, afterAs).toks) <= Breaks(1, s)
    decreases |s|
  {
    if s == "" {
    } else if IsSpace(s[0]) {
      LexBreaks(s[1..], afterAs);
    } else if s[0] == '-' && |s| > 1 && s[1] == '-' {
      LexBreaks(s[LineRun(s)..], afterAs);
      SliceBreaks(s, LineRun(s));
    } else if IsDigit(s[0]) {
      LexBreaks(s[NumberRun(s)..], false);
      SliceBreaks(s, NumberRun(s));
    } else if s[0] == '\'' {
      LexBreaks(ScanString(s[1..], "", false).rest, false);
      StringBreaks(s[1..], "", false);
    } else if IsWordStart(s[0]) {
      var t := WordToken(s[..WordRun(s)], afterAs);
      LexBreaks(s[WordRun(s)..], t == K(AS));
      SliceBreaks(s, WordRun(s));
    } else if s[0] == '"' {
      LexBreaks(ScanIdentifier(s[1..], "", false).rest, false);
      IdentifierBreaks(s[1..], "", false);
    } else if |s| > 1 && Double(s[0], s[1]).Some? {
      LexBreaks(s[2..], false);
      SliceBreaks(s, 2);
    } else if Single(s[0]).Some? {
      LexBreaks(s[1..], false);
    } else {
      LexBreaks(s[1..], afterAs);
    }
  }

  // ----- line breaks in the emitted text: never more than in its tokens -----

  lemma {:induction false} DoubledBreaks(s: string, q: char)
    requires q != '\n'
    ensures Breaks(1, Doubled(s, q)) == Breaks(1, s)
  {
    if s != "" {
      DoubledBreaks(s[1..], q);
      BreaksJoin(1, if s[0] == q then [q, q] else [s[0]], Doubled(s[1..], q));
    }
  }

  lemma QuotedBreaks(s: string, q: char)
    requires q == '\'' || q == '"'
    ensures Breaks(1, [q] + Doubled(s, q) + [q]) == Breaks(1, s)
  {
    DoubledBreaks(s, q);
    BreaksJoin(1, [q], Doubled(s, q));
    BreaksJoin(1, [q] + Doubled(s, q), [q]);
  }

  lemma SymbolBreaks(p: Piece)
    requires p.Blank? || p.Operator? || p.AsType?
    ensures '\n' !in Write(p)
  {
  }

  lemma DecimalBreaks(s: string)
    requires IsDecimal(s)
    ensures '\n' !in s
  {
    var n :| 0 < n < |s| - 1 && s[n] == '.' && AllDigits(s[..n]) && AllDigits(s[n + 1..]);
    assert s == s[..n] + [s[n]] + s[n + 1..];
  }

  lemma PieceBreaks(p: Piece, rest: Text, m: Full)
    requires Fits(p, rest, m)
    ensures Breaks(1, Write(p)) <= Lines(TokensOf(p, End))
  {
    match p
    case Blank => SymbolBreaks(p); NoBreaks(1, Write(p));
    case Operator(_) => SymbolBreaks(p); NoBreaks(1, Write(p));
    case AsType(_) => SymbolBreaks(p); NoBreaks(1, Write(p));
    case Key(kind) => SpellingReads(kind); NoBreaks(1, Write(p));
    case Decimal(s) => DecimalBreaks(s); NoBreaks(1, s);
    case Literal(v) => QuotedBreaks(v, '\'');
    case Name(n) =>
      if !WrittenBare(n) {
        QuotedBreaks(n, '"');
      }
    case _ => NoBreaks(1, Write(p));
  }

  lemma LinesOfPiece(p: Piece, k: TokenList)
    ensures Lines(TokensOf(p, k)) == Lines(TokensOf(p, End)) + Lines(k)
  {
  }

  lemma {:induction false} TextBreaks(t: Text, m: Full)
    requires WellSpaced(t, m)
    ensures Breaks(1, Flatten(t)) <= Lines(AllTokens(t))
  {
    if t.More? {
      TextBreaks(t.rest, m);
      PieceBreaks(t.piece, t.rest, m);
      BreaksJoin(1, Write(t.piece), Flatten(t.rest));
      LinesOfPiece(t.piece, AllTokens(t.rest));
    }
  }

  // ----- what is read -----

  /** `j` lacks a line break of `k`, or some of its tokens. */
  predicate Poorer(j: TokenList, k: TokenList) {
    Lines(j) < Lines(k) || (Lines(j) == Lines(k) && Length(j) < Length(k))
  }

  lemma PiecePoorer(p: Piece, j: TokenList, k: TokenList)
    requires Poorer(j, k)
    ensures Poorer(ReadOf(p, j), TokensOf(p, k))
  {
    LinesOfPiece(p, k);
  }

  lemma {:induction false} LineEnds(s: string)
    ensures LineRun(s) == |s| || s[LineRun(s)] == '\n'
  {
    if s != "" && s[0] != '\n' {
      LineEnds(s[1..]);
    }
  }

  /** The comment swallows the rest of the text, or the line break that ends it. */
  lemma ClashReads(rest: Text, m: Full)
    requires WellSpaced(More(Delimiter('-'), rest), m) && Follows(rest, '-')
    ensures Poorer(Lex("-" + Flatten(rest), false).toks, AllTokens(More(Delimiter('-'), rest)))
  {
    var s := "-" + Flatten(rest);
    var u := s[LineRun(s)..];
    FollowsChar(rest, '-');
    assert Lex(s, false) == Lex(u, false);
    LineEnds(s);
    SliceBreaks(s, LineRun(s));
    TextBreaks(More(Delimiter('-'), rest), m);
    if u != "" {
      LexBreaks(u[1..], false);
    }
  }

  /** Where two minus signs meet, what is read lacks a line break or tokens. */
  lemma {:induction false} ReadsLess(t: Text, m: Full)
    requires WellSpaced(t, m) && !Clear(t)
    ensures Poorer(Lex(Flatten(t), false).toks, AllTokens(t))
  {
    if Clash(t.piece, t.rest) {
      ClashReads(t.rest, m);
    } else {
      ReadsLess(t.rest, m);
      ReadPiece(t.piece, t.rest, m);
      PiecePoorer(t.piece, Lex(Flatten(t.rest), false).toks, AllTokens(t.rest));
    }
  }

  // ----- where minus signs meet -----

  /** The pieces of an expression begin with a minus exactly when its text does. */
  lemma {:induction false} StartsFollows(e: Expr, k: Text)
    ensures Follows(Cut(e, k), '-') <==> StartsWithMinus(e)
  {
    match e
    case Binary(op, l, r) =>
      var right := More(Blank, More(Operator(op), More(Blank, CutOperand(r, Precedence(op), true, k))));
      if !Parenthesized(l, Precedence(op), false) {
        StartsFollows(l, right);
      }
    case Between(x, lo, hi, n) => StartsFollows(x, CutInfix(n, BETWEEN, Cut(lo, Spaced(AND, Cut(hi, k)))));
    case InList(x, vs, n) => StartsFollows(x, CutInfix(n, IN, More(Delimiter('('), CutList(vs, More(Delimiter(')'), k)))));
    case IsNull(x, n) => StartsFollows(x, More(Blank, More(Key(IS), CutNot(n, More(Blank, More(Key(NULL), k))))));
    case Like(x, p, n) => StartsFollows(x, CutInfix(n, LIKE, Cut(p, k)));
    case _ =>
  }

  lemma Behind(p: Piece, k: Text)
    requires Clear(More(p, k))
    ensures Clear(k)
  {
  }

  lemma BehindTwo(p: Piece, q: Piece, k: Text)
    requires Clear(More(p, More(q, k)))
    ensures Clear(k)
  {
    Behind(p, More(q, k));
    Behind(q, k);
  }

  lemma BehindSpaced(kind: Kind, k: Text)
    requires Clear(Spaced(kind, k))
    ensures Clear(k)
  {
    Behind(Blank, More(Key(kind), More(Blank, k)));
    BehindTwo(Key(kind), Blank, k);
  }

  lemma BehindNot(negated: bool, k: Text)
    requires Clear(CutNot(negated, k))
    ensures Clear(k)
  {
    if negated {
      BehindTwo(Blank, Key(NOT), k);
    }
  }

  lemma BehindInfix(negated: bool, kind: Kind, k: Text)
    requires Clear(CutInfix(negated, kind, k))
    ensures Clear(k)
  {
    BehindNot(negated, Spaced(kind, k));
    BehindSpaced(kind, k);
  }

  /** Where no two minus signs meet in the pieces, none meet in the expression. */
  lemma {:induction false} Apart(e: Expr, k: Text)
    requires Clear(Cut(e, k))
    ensures Meets(e, APART) && Clear(k)
    decreases e, 2
  {
    match e
    case Binary(op, l, r) =>
      var right := CutOperand(r, Precedence(op), true, k);
      OperandApart(l, Precedence(op), false, More(Blank, More(Operator(op), More(Blank, right))));
      Behind(Blank, More(Operator(op), More(Blank, right)));
      BehindTwo(Operator(op), Blank, right);
      OperandApart(r, Precedence(op), true, k);
    case Negate(x) => NegateApart(x, k);
    case LogicalNot(x) =>
      BehindTwo(Key(NOT), Blank, CutOperand(x, NOT_PRECEDENCE, false, k));
      OperandApart(x, NOT_PRECEDENCE, false, k);
    case Between(_, _, _, _) => BetweenApart(e, k);
    case InList(_, _, _) => InApart(e, k);
    case IsNull(x, n) => IsNullApart(e, k);
    case Like(x, p, n) =>
      Apart(x, CutInfix(n, LIKE, Cut(p, k)));
      BehindInfix(n, LIKE, Cut(p, k));
      Apart(p, k);
    case Case(_, _, _) => CaseApart(e, k);
    case Cast(x, t) =>
      var close := More(AsType(t), More(Delimiter(')'), k));
      BehindTwo(Key(CAST), Delimiter('('), Cut(x, close));
      Apart(x, close);
      BehindTwo(AsType(t), Delimiter(')'), k);
    case CallExpr(call) => CallApart(call, k);
    case Window(_, _, _, _) => WindowApart(e, k);
    case _ => LeafApart(e, k);
  }

  lemma LeafApart(e: Expr, k: Text)
    requires e.IntLiteral? || e.FloatLiteral? || e.StringLiteral? || e.BoolLiteral? || e.NullLiteral? || e.ColumnRef? || e.Star?
    requires Clear(Cut(e, k))
    ensures Meets(e, APART) && Clear(k)
  {
    if e.ColumnRef? && HasTable(e.table) {
      BehindTwo(Name(e.table.value), Delimiter('.'), More(Name(e.column), k));
    } else if e.Star? && HasTable(e.starTable) {
      BehindTwo(Name(e.starTable.value), Delimiter('.'), More(Delimiter('*'), k));
    }
  }

  lemma {:induction false} OperandApart(x: Expr, parent: nat, right: bool, k: Text)
    requires Clear(CutOperand(x, parent, right, k))
    ensures Meets(x, APART) && Clear(k)
    decreases x, 3
  {
    if Parenthesized(x, parent, right) {
      Behind(Delimiter('('), Cut(x, More(Delimiter(')'), k)));
      Apart(x, More(Delimiter(')'), k));
      Behind(Delimiter(')'), k);
    } else {
      Apart(x, k);
    }
  }

  lemma {:induction false} NegateApart(x: Expr, k: Text)
    requires Clear(Cut(Negate(x), k))
    ensures Meets(Negate(x), APART) && Clear(k)
    decreases x, 4
  {
    var operand := CutOperand(x, UNARY_MINUS_PRECEDENCE, false, k);
    assert Cut(Negate(x), k) == More(Delimiter('-'), operand);
    Behind(Delimiter('-'), operand);
    OperandApart(x, UNARY_MINUS_PRECEDENCE, false, k);
    StartsFollows(x, k);
  }

  lemma {:induction false} BetweenApart(e: Expr, k: Text)
    requires e.Between? && Clear(Cut(e, k))
    ensures Meets(e, APART) && Clear(k)
    decreases e, 1
  {
    var high := Cut(e.high, k);
    var low := Cut(e.low, Spaced(AND, high));
    Apart(e.expr, CutInfix(e.negated, BETWEEN, low));
    BehindInfix(e.negated, BETWEEN, low);
    Apart(e.low, Spaced(AND, high));
    BehindSpaced(AND, high);
    Apart(e.high, k);
  }

  lemma {:induction false} InApart(e: Expr, k: Text)
    requires e.InList? && Clear(Cut(e, k))
    ensures Meets(e, APART) && Clear(k)
    decreases e, 1
  {
    var list := CutList(e.values, More(Delimiter(')'), k));
    Apart(e.expr, CutInfix(e.negated, IN, More(Delimiter('('), list)));
    BehindInfix(e.negated, IN, More(Delimiter('('), list));
    Behind(Delimiter('('), list);
    ListApart(e.values, More(Delimiter(')'), k));
    Behind(Delimiter(')'), k);
  }

  lemma {:induction false} IsNullApart(e: Expr, k: Text)
    requires e.IsNull? && Clear(Cut(e, k))
    ensures Meets(e, APART) && Clear(k)
    decreases e, 1
  {
    var end := More(Blank, More(Key(NULL), k));
    Apart(e.expr, More(Blank, More(Key(IS), CutNot(e.negated, end))));
    BehindTwo(Blank, Key(IS), CutNot(e.negated, end));
    BehindNot(e.negated, end);
    BehindTwo(Blank, Key(NULL), k);
  }

  lemma {:induction false} CaseApart(e: Expr, k: Text)
    requires e.Case? && Clear(Cut(e, k))
    ensures Meets(e, APART) && Clear(k)
    decreases e, 1
  {
    var end := More(Blank, More(Key(END), k));
    var otherwise := CutElse(e.otherwise, end);
    var whens := CutWhens(e.whens, otherwise);
    Behind(Key(CASE), CutBase(e.base, whens));
    BaseApart(e.base, whens);
    WhensApart(e.whens, otherwise);
    ElseApart(e.otherwise, end);
    BehindTwo(Blank, Key(END), k);
  }

  lemma {:induction false} BaseApart(o: Option<Expr>, k: Text)
    requires Clear(CutBase(o, k))
    ensures MeetsOption(o, APART) && Clear(k)
    decreases o, 0
  {
    if o.Some? {
      Behind(Blank, Cut(o.value, k));
      Apart(o.value, k);
    }
  }

  lemma {:induction false} ElseApart(o: Option<Expr>, k: Text)
    requires Clear(CutElse(o, k))
    ensures MeetsOption(o, APART) && Clear(k)
    decreases o, 0
  {
    if o.Some? {
      BehindSpaced(ELSE, Cut(o.value, k));
      Apart(o.value, k);
    }
  }

  lemma {:induction false} WhensApart(ws: seq<When>, k: Text)
    requires Clear(CutWhens(ws, k))
    ensures MeetsWhens(ws, APART) && Clear(k)
    decreases ws, 0
  {
    if ws != [] {
      WhenApart(ws[0], CutWhens(ws[1..], k));
      WhensApart(ws[1..], k);
    }
  }

  lemma {:induction false} WhenApart(w: When, k: Text)
    requires Clear(CutWhen(w, k))
    ensures MeetsWhen(w, APART) && Clear(k)
    decreases w, 0
  {
    var result := Cut(w.result, k);
    BehindSpaced(WHEN, Cut(w.condition, Spaced(THEN, result)));
    Apart(w.condition, Spaced(THEN, result));
    BehindSpaced(THEN, result);
    Apart(w.result, k);
  }

  lemma {:induction false} ListApart(es: seq<Expr>, k: Text)
    requires Clear(CutList(es, k))
    ensures MeetsList(es, APART) && Clear(k)
    decreases es, 1
  {
    if es != [] {
      Apart(es[0], CutTail(es[1..], k));
      TailApart(es[1..], k);
    }
  }

  lemma {:induction false} TailApart(es: seq<Expr>, k: Text)
    requires Clear(CutTail(es, k))
    ensures MeetsList(es, APART) && Clear(k)
    decreases es, 0
  {
    if es != [] {
      BehindTwo(Delimiter(','), Blank, Cut(es[0], CutTail(es[1..], k)));
      Apart(es[0], CutTail(es[1..], k));
      TailApart(es[1..], k);
    }
  }

  lemma {:induction false} CallApart(call: Call, k: Text)
    requires Clear(CutCall(call, k))
    ensures MeetsCall(call, APART) && Clear(k)
    decreases call, 0
  {
    match call
    case FunctionCall(name, args) =>
      var list := CutList(args, More(Delimiter(')'), k));
      BehindTwo(CallName(name), Delimiter('('), list);
      ListApart(args, More(Delimiter(')'), k));
      Behind(Delimiter(')'), k);
    case AggregateCall(name, args, distinct, filter) =>
      var list := CutList(args, More(Delimiter(')'), CutFilter(filter, k)));
      BehindTwo(CallName(name), Delimiter('('), CutDistinct(distinct, list));
      if distinct {
        BehindTwo(Key(DISTINCT), Blank, list);
      }
      ListApart(args, More(Delimiter(')'), CutFilter(filter, k)));
      Behind(Delimiter(')'), CutFilter(filter, k));
      FilterApart(filter, k);
  }

  lemma {:induction false} FilterApart(f: Option<Expr>, k: Text)
    requires Clear(CutFilter(f, k))
    ensures MeetsOption(f, APART) && Clear(k)
    decreases f, 0
  {
    if f.Some? {
      var inner := Cut(f.value, More(Delimiter(')'), k));
      BehindSpaced(FILTER, More(Delimiter('('), More(Key(WHERE), More(Blank, inner))));
      Behind(Delimiter('('), More(Key(WHERE), More(Blank, inner)));
      BehindTwo(Key(WHERE), Blank, inner);
      Apart(f.value, More(Delimiter(')'), k));
      Behind(Delimiter(')'), k);
    }
  }

  lemma {:induction false} WindowApart(e: Expr, k: Text)
    requires e.Window? && Clear(Cut(e, k))
    ensures Meets(e, APART) && Clear(k)
    decreases e, 1
  {
    var parts := CutParts(e, More(Delimiter(')'), k));
    CallApart(e.call, CutOver(e, k));
    BehindSpaced(OVER, More(Delimiter('('), parts));
    Behind(Delimiter('('), parts);
    PartsApart(e, More(Delimiter(')'), k));
    Behind(Delimiter(')'), k);
  }

  lemma {:induction false} PartsApart(e: Expr, k: Text)
    requires e.Window? && Clear(CutParts(e, k))
    ensures MeetsList(e.partitionBy, APART) && MeetsOrders(e.orderBy, APART) && MeetsFrame(e.frame, APART) && Clear(k)
    decreases e, 0
  {
    var Window(_, ps, os, f) := e;
    var frame := CutGap(os != [] && f.Some?, CutFrame(f, k));
    var order := CutGap(ps != [] && (os != [] || f.Some?), CutOrder(os, frame));
    PartitionApart(ps, order);
    BehindGap(ps != [] && (os != [] || f.Some?), CutOrder(os, frame));
    OrderApart(os, frame);
    BehindGap(os != [] && f.Some?, CutFrame(f, k));
    FrameApart(f, k);
  }

  lemma BehindGap(b: bool, k: Text)
    requires Clear(CutGap(b, k))
    ensures Clear(k)
  {
  }

  lemma {:induction false} PartitionApart(es: seq<Expr>, k: Text)
    requires Clear(CutPartition(es, k))
    ensures MeetsList(es, APART) && Clear(k)
    decreases es, 2
  {
    if es != [] {
      BehindTwo(Key(PARTITION), Blank, More(Key(BY), More(Blank, CutList(es, k))));
      BehindTwo(Key(BY), Blank, CutList(es, k));
      ListApart(es, k);
    }
  }

  lemma {:induction false} OrderApart(os: seq<OrderItem>, k: Text)
    requires Clear(CutOrder(os, k))
    ensures MeetsOrders(os, APART) && Clear(k)
    decreases os, 1
  {
    if os != [] {
      var items := CutItem(os[0], CutItems(os[1..], k));
      BehindTwo(Key(ORDER), Blank, More(Key(BY), More(Blank, items)));
      BehindTwo(Key(BY), Blank, items);
      ItemApart(os[0], CutItems(os[1..], k));
      ItemsApart(os[1..], k);
    }
  }

  lemma {:induction false} ItemsApart(os: seq<OrderItem>, k: Text)
    requires Clear(CutItems(os, k))
    ensures MeetsOrders(os, APART) && Clear(k)
    decreases os, 0
  {
    if os != [] {
      BehindTwo(Delimiter(','), Blank, CutItem(os[0], CutItems(os[1..], k)));
      ItemApart(os[0], CutItems(os[1..], k));
      ItemsApart(os[1..], k);
    }
  }

  lemma {:induction false} ItemApart(o: OrderItem, k: Text)
    requires Clear(CutItem(o, k))
    ensures MeetsOrder(o, APART) && Clear(k)
    decreases o, 0
  {
    var nulls := CutNulls(o.nulls, k);
    Apart(o.expr, CutWord(o.descending, DESC, nulls));
    if o.descending {
      BehindTwo(Blank, Key(DESC), nulls);
    }
    if o.nulls.Some? {
      var side := Key(if o.nulls.value.NullsFirst? then FIRST else LAST);
      BehindTwo(Blank, Key(NULLS), More(Blank, More(side, k)));
      BehindTwo(Blank, side, k);
    }
  }

  lemma {:induction false} FrameApart(f: Option<Frame>, k: Text)
    requires Clear(CutFrame(f, k))
    ensures MeetsFrame(f, APART) && Clear(k)
    decreases f, 0
  {
    if f.Some? {
      BehindTwo(Key(if f.value.rows then ROWS else RANGE), Blank, CutBound(f.value.start, CutEnd(f.value.end, k)));
      BoundApart(f.value.start, CutEnd(f.value.end, k));
      if f.value.end.Some? {
        BehindSpaced(AND, CutBound(f.value.end.value, k));
        BoundApart(f.value.end.value, k);
      }
    }
  }

  lemma {:induction false} BoundApart(b: Bound, k: Text)
    requires Clear(CutBound(b, k))
    ensures MeetsBound(b, APART) && Clear(k)
    decreases b, 0
  {
    match b
    case Unbounded(f) =>
      var side := Key(if f then FOLLOWING else PRECEDING);
      BehindTwo(Key(UNBOUNDED), Blank, More(side, k));
      Behind(side, k);
    case CurrentRow =>
      BehindTwo(Key(CURRENT), Blank, More(Key(ROW), k));
      Behind(Key(ROW), k);
    case Offset(o, f) =>
      var side := Key(if f then FOLLOWING else PRECEDING);
      match o {
        case None => Behind(Integer("1"), More(Blank, More(side, k)));
        case Some(x) => Apart(x, More(Blank, More(side, k)));
      }
      BehindTwo(Blank, side, k);
  }
}
