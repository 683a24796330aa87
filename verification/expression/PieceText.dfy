/** The pieces of an expression make up its text. */
module PieceText {
  import opened Wrappers
  import opened Ast
  import opened Tokens
  import opened Emitter
  import opened Printing
  import opened Pieces

  // ----- regrouping concatenations -----

  lemma Join2(a: string, b: string, k: string)
    ensures (a + b) + k == a + (b + k)
  {
  }

  lemma Join3(a: string, b: string, c: string, k: string)
    ensures ((a + b) + c) + k == a + (b + (c + k))
  {
  }

  lemma Join4(a: string, b: string, c: string, d: string, k: string)
    ensures (((a + b) + c) + d) + k == a + (b + (c + (d + k)))
  {
  }

  lemma Join5(a: string, b: string, c: string, d: string, e: string, k: string)
    ensures ((((a + b) + c) + d) + e) + k == a + (b + (c + (d + (e + k))))
  {
  }

  lemma UnfoldTwo(p: Piece, q: Piece, k: Text)
    ensures Flatten(More(p, More(q, k))) == Write(p) + (Write(q) + Flatten(k))
  {
  }

  lemma UnfoldThree(p: Piece, q: Piece, r: Piece, k: Text)
    ensures Flatten(More(p, More(q, More(r, k)))) == Write(p) + (Write(q) + (Write(r) + Flatten(k)))
  {
    UnfoldTwo(q, r, k);
  }

  // ----- the emitter's constants, cut into words and blanks -----

  lemma NullConstants()
    ensures ((" " + "IS") + " ") + "NULL" == " IS NULL"
    ensures (((" " + "IS") + " ") + "NOT") + " " == " IS NOT "
    ensures " IS NOT " + "NULL" == " IS NOT NULL"
  {
  }

  /** `[NOT] op` between blanks. */
  function Infix(negated: bool, kind: Kind): string {
    if negated then " NOT" + (" " + Spelling(kind) + " ") else " " + Spelling(kind) + " "
  }

  lemma InfixConstants()
    ensures Infix(true, BETWEEN) == " NOT BETWEEN " && Infix(false, BETWEEN) == " BETWEEN "
    ensures Infix(true, LIKE) == " NOT LIKE " && Infix(false, LIKE) == " LIKE "
    ensures Infix(true, IN) == " NOT IN " && Infix(false, IN) == " IN "
  {
  }

  lemma InConstants(n: bool)
    ensures (if n then " NOT IN " else " IN ") + "(" == if n then " NOT IN (" else " IN ("
  {
  }

  lemma FilterConstants()
    ensures ("(" + "WHERE") + " " == "(WHERE "
    ensures " FILTER " + "(WHERE " == " FILTER (WHERE "
  {
  }

  lemma NullsConstants(first: bool)
    ensures ((" " + "NULLS") + " ") + (if first then "FIRST" else "LAST")
         == if first then " NULLS FIRST" else " NULLS LAST"
  {
  }

  lemma OffsetConstants(f: bool)
    ensures "1" + (if f then " FOLLOWING" else " PRECEDING") == if f then "1 FOLLOWING" else "1 PRECEDING"
  {
  }

  lemma UnboundedConstants(f: bool)
    ensures ("UNBOUNDED" + " ") + (if f then "FOLLOWING" else "PRECEDING")
         == if f then "UNBOUNDED FOLLOWING" else "UNBOUNDED PRECEDING"
  {
  }

  /** The text of a keyword between blanks. */
  lemma SpacedText(kind: Kind, text: string, k: Text)
    requires text == " " + Spelling(kind) + " "
    ensures Flatten(Spaced(kind, k)) == text + Flatten(k)
  {
    UnfoldThree(Blank, Key(kind), Blank, k);
    Join3(" ", Spelling(kind), " ", Flatten(k));
  }

  lemma SpacedWord(a: Kind, b: Kind, text: string, k: Text)
    requires text == " " + Spelling(a) + " " + Spelling(b)
    ensures Flatten(Spaced(a, More(Key(b), k))) == text + Flatten(k)
  {
    var words := " " + Spelling(a) + " ";
    SpacedText(a, words, More(Key(b), k));
    Join2(words, Spelling(b), Flatten(k));
  }

  lemma InfixText(negated: bool, kind: Kind, k: Text)
    ensures Flatten(CutInfix(negated, kind, k)) == Infix(negated, kind) + Flatten(k)
  {
    var t := " " + Spelling(kind) + " ";
    SpacedText(kind, t, k);
    if negated {
      UnfoldTwo(Blank, Key(NOT), Spaced(kind, k));
      Join2(" ", "NOT", t + Flatten(k));
      Join2(" NOT", t, Flatten(k));
      assert " " + "NOT" == " NOT";
    }
  }

  /** Two words and a blank behind each. */
  lemma TwoWords(a: Kind, b: Kind, text: string, k: Text)
    requires text == Spelling(a) + " " + Spelling(b) + " "
    ensures Flatten(More(Key(a), More(Blank, More(Key(b), More(Blank, k))))) == text + Flatten(k)
  {
    UnfoldTwo(Key(b), Blank, k);
    UnfoldTwo(Key(a), Blank, More(Key(b), More(Blank, k)));
    Join4(Spelling(a), " ", Spelling(b), " ", Flatten(k));
  }

  lemma TwoKeys(a: Kind, b: Kind, text: string, k: Text)
    requires text == Spelling(a) + " " + Spelling(b)
    ensures Flatten(More(Key(a), More(Blank, More(Key(b), k)))) == text + Flatten(k)
  {
    UnfoldThree(Key(a), Blank, Key(b), k);
    Join3(Spelling(a), " ", Spelling(b), Flatten(k));
  }

  // ----- the text of an expression -----

  lemma {:induction false} CutText(e: Expr, k: Text)
    ensures Flatten(Cut(e, k)) == EmitSql(e) + Flatten(k)
    decreases e, 2
  {
    match e
    case ColumnRef(_, _) => CutNameText(e, k);
    case Star(_) => CutNameText(e, k);
    case Binary(op, l, r) => CutBinaryText(e, k);
    case Negate(x) =>
      CutOperandText(x, UNARY_MINUS_PRECEDENCE, false, k);
      Join2("-", EmitOperand(x, UNARY_MINUS_PRECEDENCE, false), Flatten(k));
    case LogicalNot(x) =>
      CutOperandText(x, NOT_PRECEDENCE, false, k);
      var operand := CutOperand(x, NOT_PRECEDENCE, false, k);
      UnfoldTwo(Key(NOT), Blank, operand);
      Join2("NOT", " ", Flatten(operand));
      Join2("NOT ", EmitOperand(x, NOT_PRECEDENCE, false), Flatten(k));
      assert "NOT" + " " == "NOT ";
    case Between(_, _, _, _) => CutBetweenText(e, k);
    case InList(_, _, _) => CutInText(e, k);
    case IsNull(_, _) => CutIsNullText(e, k);
    case Like(_, _, _) => CutLikeText(e, k);
    case Case(_, _, _) => CutCaseText(e, k);
    case Cast(_, _) => CutCastText(e, k);
    case CallExpr(call) => CutCallText(call, k);
    case Window(_, _, _, _) => CutWindowText(e, k);
    case _ =>
  }

  lemma CutNameText(e: Expr, k: Text)
    requires e.ColumnRef? || e.Star?
    ensures Flatten(Cut(e, k)) == EmitSql(e) + Flatten(k)
  {
    if e.ColumnRef? && HasTable(e.table) {
      UnfoldThree(Name(e.table.value), Delimiter('.'), Name(e.column), k);
      Join3(Ident(e.table.value), ".", Ident(e.column), Flatten(k));
    } else if e.Star? && HasTable(e.starTable) {
      UnfoldThree(Name(e.starTable.value), Delimiter('.'), Delimiter('*'), k);
      Join2(Ident(e.starTable.value), ".*", Flatten(k));
      Join2(".", "*", Flatten(k));
      assert "." + "*" == ".*";
    }
  }

  lemma {:induction false} CutBinaryText(e: Expr, k: Text)
    requires e.Binary?
    ensures Flatten(Cut(e, k)) == EmitSql(e) + Flatten(k)
    decreases e, 0
  {
    var Binary(op, l, r) := e;
    var p := Precedence(op);
    var right := CutOperand(r, p, true, k);
    CutOperandText(r, p, true, k);
    CutOperandText(l, p, false, More(Blank, More(Operator(op), More(Blank, right))));
    UnfoldThree(Blank, Operator(op), Blank, right);
    Join5(EmitOperand(l, p, false), " ", OpText(op), " ", EmitOperand(r, p, true), Flatten(k));
  }

  lemma {:induction false} CutOperandText(x: Expr, parent: nat, right: bool, k: Text)
    ensures Flatten(CutOperand(x, parent, right, k)) == EmitOperand(x, parent, right) + Flatten(k)
    decreases x, 3
  {
    if Parenthesized(x, parent, right) {
      CutText(x, More(Delimiter(')'), k));
      Join3("(", EmitSql(x), ")", Flatten(k));
    } else {
      CutText(x, k);
    }
  }

  lemma {:induction false} CutBetweenText(e: Expr, k: Text)
    requires e.Between?
    ensures Flatten(Cut(e, k)) == EmitSql(e) + Flatten(k)
    decreases e, 0
  {
    var Between(x, lo, hi, n) := e;
    var high := Cut(hi, k);
    var low := Cut(lo, Spaced(AND, high));
    var infix := if n then " NOT BETWEEN " else " BETWEEN ";
    CutText(hi, k);
    SpacedText(AND, " AND ", high);
    CutText(lo, Spaced(AND, high));
    InfixConstants();
    InfixText(n, BETWEEN, low);
    CutText(x, CutInfix(n, BETWEEN, low));
    Join5(EmitSql(x), infix, EmitSql(lo), " AND ", EmitSql(hi), Flatten(k));
  }

  lemma {:induction false} CutLikeText(e: Expr, k: Text)
    requires e.Like?
    ensures Flatten(Cut(e, k)) == EmitSql(e) + Flatten(k)
    decreases e, 0
  {
    var infix := if e.negated then " NOT LIKE " else " LIKE ";
    CutText(e.pattern, k);
    InfixConstants();
    InfixText(e.negated, LIKE, Cut(e.pattern, k));
    CutText(e.expr, CutInfix(e.negated, LIKE, Cut(e.pattern, k)));
    Join3(EmitSql(e.expr), infix, EmitSql(e.pattern), Flatten(k));
  }

  lemma {:induction false} CutInText(e: Expr, k: Text)
    requires e.InList?
    ensures Flatten(Cut(e, k)) == EmitSql(e) + Flatten(k)
    decreases e, 0
  {
    var InList(x, vs, n) := e;
    var infix := if n then " NOT IN " else " IN ";
    InConstants(n);
    var values := CutList(vs, More(Delimiter(')'), k));
    CutListText(vs, More(Delimiter(')'), k));
    InfixConstants();
    InfixText(n, IN, More(Delimiter('('), values));
    CutText(x, CutInfix(n, IN, More(Delimiter('('), values)));
    Join5(EmitSql(x), infix, "(", EmitList(vs), ")", Flatten(k));
    Join2(EmitSql(x), infix, "(");
  }

  lemma {:induction false} CutIsNullText(e: Expr, k: Text)
    requires e.IsNull?
    ensures Flatten(Cut(e, k)) == EmitSql(e) + Flatten(k)
    decreases e, 0
  {
    var IsNull(x, n) := e;
    var end := More(Blank, More(Key(NULL), k));
    var tail := More(Blank, More(Key(IS), CutNot(n, end)));
    var text := if n then " IS NOT NULL" else " IS NULL";
    CutText(x, tail);
    IsNullText(n, k);
    Join2(EmitSql(x), text, Flatten(k));
  }

  lemma IsNullText(n: bool, k: Text)
    ensures Flatten(More(Blank, More(Key(IS), CutNot(n, More(Blank, More(Key(NULL), k))))))
         == (if n then " IS NOT NULL" else " IS NULL") + Flatten(k)
  {
    var end := More(Blank, More(Key(NULL), k));
    UnfoldTwo(Blank, Key(NULL), k);
    UnfoldTwo(Blank, Key(IS), CutNot(n, end));
    NullConstants();
    if n {
      UnfoldTwo(Blank, Key(NOT), end);
      Join5(" ", "IS", " ", "NOT", " ", "NULL" + Flatten(k));
      Join2(" IS NOT ", "NULL", Flatten(k));
    } else {
      Join4(" ", "IS", " ", "NULL", Flatten(k));
    }
  }

  // ----- lists -----

  lemma {:induction false} CutListText(es: seq<Expr>, k: Text)
    ensures Flatten(CutList(es, k)) == EmitList(es) + Flatten(k)
    decreases es, 1
  {
    if es == [] {
      assert "" + Flatten(k) == Flatten(k);
    } else {
      CutTailText(es[1..], k);
      CutText(es[0], CutTail(es[1..], k));
      Join2(EmitSql(es[0]), EmitTail(es[1..]), Flatten(k));
    }
  }

  lemma {:induction false} CutTailText(es: seq<Expr>, k: Text)
    ensures Flatten(CutTail(es, k)) == EmitTail(es) + Flatten(k)
    decreases es, 0
  {
    if es == [] {
      assert "" + Flatten(k) == Flatten(k);
    } else {
      CutTailText(es[1..], k);
      CutText(es[0], CutTail(es[1..], k));
      CommaText(Cut(es[0], CutTail(es[1..], k)));
      Join3(", ", EmitSql(es[0]), EmitTail(es[1..]), Flatten(k));
    }
  }

  lemma CommaText(k: Text)
    ensures Flatten(More(Delimiter(','), More(Blank, k))) == ", " + Flatten(k)
  {
  }

  // ----- CASE and CAST -----

  lemma {:induction false} CutCaseText(e: Expr, k: Text)
    requires e.Case?
    ensures Flatten(Cut(e, k)) == EmitSql(e) + Flatten(k)
    decreases e, 0
  {
    var Case(b, ws, o) := e;
    var end := More(Blank, More(Key(END), k));
    EndText(k);
    CutElseText(o, end);
    CutWhensText(ws, CutElse(o, end));
    CutBaseText(b, CutWhens(ws, CutElse(o, end)));
    Join5("CASE", EmitBase(b), EmitWhens(ws), EmitElse(o), " END", Flatten(k));
  }

  lemma EndText(k: Text)
    ensures Flatten(More(Blank, More(Key(END), k))) == " END" + Flatten(k)
  {
    UnfoldTwo(Blank, Key(END), k);
    Join2(" ", "END", Flatten(k));
    assert " " + "END" == " END";
  }

  function EmitElse(o: Option<Expr>): string {
    if o.None? then "" else " ELSE " + EmitOption(o)
  }

  function EmitBase(o: Option<Expr>): string {
    if o.None? then "" else " " + EmitOption(o)
  }

  lemma {:induction false} CutElseText(o: Option<Expr>, k: Text)
    ensures Flatten(CutElse(o, k)) == EmitElse(o) + Flatten(k)
    decreases o, 0
  {
    if o.None? {
      assert "" + Flatten(k) == Flatten(k);
    } else {
      CutText(o.value, k);
      SpacedText(ELSE, " ELSE ", Cut(o.value, k));
      Join2(" ELSE ", EmitSql(o.value), Flatten(k));
    }
  }

  lemma {:induction false} CutBaseText(o: Option<Expr>, k: Text)
    ensures Flatten(CutBase(o, k)) == EmitBase(o) + Flatten(k)
    decreases o, 0
  {
    if o.None? {
      assert "" + Flatten(k) == Flatten(k);
    } else {
      CutText(o.value, k);
      Join2(" ", EmitSql(o.value), Flatten(k));
    }
  }

  lemma {:induction false} CutWhensText(ws: seq<When>, k: Text)
    ensures Flatten(CutWhens(ws, k)) == EmitWhens(ws) + Flatten(k)
    decreases ws, 0
  {
    if ws == [] {
      assert "" + Flatten(k) == Flatten(k);
    } else {
      CutWhensText(ws[1..], k);
      CutWhenText(ws[0], CutWhens(ws[1..], k));
      Join2(EmitWhen(ws[0]), EmitWhens(ws[1..]), Flatten(k));
    }
  }

  lemma {:induction false} CutWhenText(w: When, k: Text)
    ensures Flatten(CutWhen(w, k)) == EmitWhen(w) + Flatten(k)
    decreases w, 0
  {
    CutText(w.result, k);
    SpacedText(THEN, " THEN ", Cut(w.result, k));
    CutText(w.condition, Spaced(THEN, Cut(w.result, k)));
    SpacedText(WHEN, " WHEN ", Cut(w.condition, Spaced(THEN, Cut(w.result, k))));
    Join4(" WHEN ", EmitSql(w.condition), " THEN ", EmitSql(w.result), Flatten(k));
  }

  lemma {:induction false} CutCastText(e: Expr, k: Text)
    requires e.Cast?
    ensures Flatten(Cut(e, k)) == EmitSql(e) + Flatten(k)
    decreases e, 0
  {
    var Cast(x, t) := e;
    var close := More(AsType(t), More(Delimiter(')'), k));
    CutText(x, close);
    UnfoldTwo(AsType(t), Delimiter(')'), k);
    Join2(" AS ", TypeText(t), ")" + Flatten(k));
    CastText(Cut(x, close));
    Join5("CAST(", EmitSql(x), " AS ", TypeText(t), ")", Flatten(k));
  }

  lemma CastText(k: Text)
    ensures Flatten(More(Key(CAST), More(Delimiter('('), k))) == "CAST(" + Flatten(k)
  {
    UnfoldTwo(Key(CAST), Delimiter('('), k);
    Join2("CAST", "(", Flatten(k));
    assert "CAST" + "(" == "CAST(";
  }

  // ----- calls and windows -----

  function EmitFilter(f: Option<Expr>): string {
    if f.None? then "" else " FILTER (WHERE " + EmitOption(f) + ")"
  }

  lemma {:induction false} CutCallText(call: Call, k: Text)
    ensures Flatten(CutCall(call, k)) == EmitCall(call) + Flatten(k)
    decreases call, 1
  {
    match call
    case FunctionCall(name, args) =>
      var list := CutList(args, More(Delimiter(')'), k));
      CutListText(args, More(Delimiter(')'), k));
      UnfoldTwo(CallName(name), Delimiter('('), list);
      Join4(name, "(", EmitList(args), ")", Flatten(k));
    case AggregateCall(_, _, _, _) => CutAggregateText(call, k);
  }

  lemma {:induction false} CutAggregateText(call: Call, k: Text)
    requires call.AggregateCall?
    ensures Flatten(CutCall(call, k)) == EmitCall(call) + Flatten(k)
    decreases call, 0
  {
      var AggregateCall(name, args, distinct, filter) := call;
      var fromFilter := CutFilter(filter, k);
      var list := CutList(args, More(Delimiter(')'), fromFilter));
      CutFilterText(filter, k);
      CutListText(args, More(Delimiter(')'), fromFilter));
      CutDistinctText(distinct, list);
      UnfoldTwo(CallName(name), Delimiter('('), CutDistinct(distinct, list));
      var word := if distinct then "DISTINCT " else "";
      Join5(name + "(", word, EmitList(args), ")", EmitFilter(filter), Flatten(k));
      Join2(name, "(", Flatten(CutDistinct(distinct, list)));
  }

  lemma CutDistinctText(distinct: bool, k: Text)
    ensures Flatten(CutDistinct(distinct, k)) == (if distinct then "DISTINCT " else "") + Flatten(k)
  {
  }

  lemma {:induction false} CutFilterText(o: Option<Expr>, k: Text)
    ensures Flatten(CutFilter(o, k)) == EmitFilter(o) + Flatten(k)
    decreases o, 0
  {
    if o.None? {
      assert "" + Flatten(k) == Flatten(k);
    } else {
      var inner := Cut(o.value, More(Delimiter(')'), k));
      CutText(o.value, More(Delimiter(')'), k));
      FilterText(inner);
      Join3(" FILTER (WHERE ", EmitSql(o.value), ")", Flatten(k));
    }
  }

  lemma FilterText(k: Text)
    ensures Flatten(Spaced(FILTER, More(Delimiter('('), More(Key(WHERE), More(Blank, k))))) == " FILTER (WHERE " + Flatten(k)
  {
    var where := More(Delimiter('('), More(Key(WHERE), More(Blank, k)));
    SpacedText(FILTER, " FILTER ", where);
    WhereText(k);
    Join2(" FILTER ", "(WHERE ", Flatten(k));
    FilterConstants();
  }

  lemma WhereText(k: Text)
    ensures Flatten(More(Delimiter('('), More(Key(WHERE), More(Blank, k)))) == "(WHERE " + Flatten(k)
  {
    UnfoldThree(Delimiter('('), Key(WHERE), Blank, k);
    Join3("(", "WHERE", " ", Flatten(k));
    FilterConstants();
  }

  lemma {:induction false} CutWindowText(e: Expr, k: Text)
    requires e.Window?
    ensures Flatten(Cut(e, k)) == EmitSql(e) + Flatten(k)
    decreases e, 1
  {
    var parts := Join([EmitPartition(e.partitionBy), EmitOrder(e.orderBy), EmitFrame(e.frame)]);
    CutPartsText(e, More(Delimiter(')'), k));
    OverText(parts, CutParts(e, More(Delimiter(')'), k)), k);
    CutCallText(e.call, CutOver(e, k));
    Join4(EmitCall(e.call), " OVER (", parts, ")", Flatten(k));
  }

  lemma OverText(parts: string, inside: Text, k: Text)
    requires Flatten(inside) == parts + (")" + Flatten(k))
    ensures Flatten(Spaced(OVER, More(Delimiter('('), inside))) == " OVER (" + (parts + (")" + Flatten(k)))
  {
    SpacedText(OVER, " OVER ", More(Delimiter('('), inside));
    OpenText(parts + (")" + Flatten(k)));
  }

  lemma OpenText(inside: string)
    ensures " OVER " + ("(" + inside) == " OVER (" + inside
  {
    Join2(" OVER ", "(", inside);
    assert " OVER " + "(" == " OVER (";
  }

  lemma {:induction false} CutPartsText(e: Expr, k: Text)
    requires e.Window?
    ensures Flatten(CutParts(e, k))
         == Join([EmitPartition(e.partitionBy), EmitOrder(e.orderBy), EmitFrame(e.frame)]) + Flatten(k)
    decreases e, 0
  {
    var Window(_, ps, os, f) := e;
    CutFrameText(f, k);
    var gap1 := CutGap(os != [] && f.Some?, CutFrame(f, k));
    CutOrderText(os, gap1);
    EmptyOrder(os);
    var gap2 := CutGap(ps != [] && (os != [] || f.Some?), CutOrder(os, gap1));
    CutPartitionText(ps, gap2);
    PartsText(EmitPartition(ps), EmitOrder(os), EmitFrame(f), Flatten(k));
  }

  function Gap(b: bool, k: string): string {
    if b then " " + k else k
  }

  /** Joining the parts that are present puts a blank between neighbours. */
  lemma PartsText(a: string, b: string, c: string, k: string)
    ensures a + Gap(a != "" && (b != "" || c != ""), b + Gap(b != "" && c != "", c + k)) == Join([a, b, c]) + k
  {
    assert Join([]) == "";
    assert [c][1..] == [];
    assert Join([c]) == c;
    assert [b, c][1..] == [c];
    assert [a, b, c][1..] == [b, c];
    var rest := Join([b, c]);
    assert rest == if b == "" then c else if c == "" then b else b + " " + c;
    TwoParts(b, c, k);
    TwoParts(a, rest, k);
  }

  lemma TwoParts(a: string, b: string, k: string)
    ensures (if a == "" then b else if b == "" then a else a + " " + b) + k == a + Gap(a != "" && b != "", b + k)
  {
  }

  lemma {:induction false} CutPartitionText(es: seq<Expr>, k: Text)
    ensures Flatten(CutPartition(es, k)) == EmitPartition(es) + Flatten(k)
    ensures EmitPartition(es) == "" <==> es == []
    decreases es, 2
  {
    if es == [] {
      assert "" + Flatten(k) == Flatten(k);
    } else {
      CutListText(es, k);
      PartitionByText(CutList(es, k));
      Join2("PARTITION BY ", EmitList(es), Flatten(k));
    }
  }

  lemma PartitionByText(k: Text)
    ensures Flatten(More(Key(PARTITION), More(Blank, More(Key(BY), More(Blank, k))))) == "PARTITION BY " + Flatten(k)
  {
    TwoWords(PARTITION, BY, "PARTITION BY ", k);
  }

  lemma {:induction false} CutOrderText(os: seq<OrderItem>, k: Text)
    ensures Flatten(CutOrder(os, k)) == EmitOrder(os) + Flatten(k)
    decreases os, 1
  {
    if os == [] {
      assert "" + Flatten(k) == Flatten(k);
    } else {
      CutItemsText(os[1..], k);
      CutItemText(os[0], CutItems(os[1..], k));
      OrderByText(CutItem(os[0], CutItems(os[1..], k)));
      Join3("ORDER BY ", EmitItem(os[0]), EmitItems(os[1..]), Flatten(k));
    }
  }

  lemma OrderByText(k: Text)
    ensures Flatten(More(Key(ORDER), More(Blank, More(Key(BY), More(Blank, k))))) == "ORDER BY " + Flatten(k)
  {
    TwoWords(ORDER, BY, "ORDER BY ", k);
  }

  lemma EmptyOrder(os: seq<OrderItem>)
    ensures EmitOrder(os) == "" <==> os == []
  {
  }

  lemma {:induction false} CutItemsText(os: seq<OrderItem>, k: Text)
    ensures Flatten(CutItems(os, k)) == EmitItems(os) + Flatten(k)
    decreases os, 0
  {
    if os == [] {
      assert "" + Flatten(k) == Flatten(k);
    } else {
      CutItemsText(os[1..], k);
      CutItemText(os[0], CutItems(os[1..], k));
      CommaText(CutItem(os[0], CutItems(os[1..], k)));
      Join3(", ", EmitItem(os[0]), EmitItems(os[1..]), Flatten(k));
    }
  }

  lemma {:induction false} CutItemText(o: OrderItem, k: Text)
    ensures Flatten(CutItem(o, k)) == EmitItem(o) + Flatten(k)
    decreases o, 0
  {
    var nulls := CutNulls(o.nulls, k);
    CutNullsText(o.nulls, k);
    WordText(o.descending, DESC, " DESC", nulls);
    CutText(o.expr, CutWord(o.descending, DESC, nulls));
    Join3(EmitSql(o.expr), if o.descending then " DESC" else "", EmitNulls(o.nulls), Flatten(k));
  }

  function EmitNulls(n: Option<Nulls>): string {
    match n case None => "" case Some(NullsFirst) => " NULLS FIRST" case Some(NullsLast) => " NULLS LAST"
  }

  lemma WordText(b: bool, kind: Kind, text: string, k: Text)
    requires text == " " + Spelling(kind)
    ensures Flatten(CutWord(b, kind, k)) == (if b then text else "") + Flatten(k)
  {
    UnfoldTwo(Blank, Key(kind), k);
    Join2(" ", Spelling(kind), Flatten(k));
  }

  lemma CutNullsText(n: Option<Nulls>, k: Text)
    ensures Flatten(CutNulls(n, k)) == EmitNulls(n) + Flatten(k)
  {
    if n.None? {
      assert "" + Flatten(k) == Flatten(k);
    } else {
      NullsText(n.value.NullsFirst?, k);
    }
  }

  lemma NullsText(first: bool, k: Text)
    ensures Flatten(Spaced(NULLS, More(Key(if first then FIRST else LAST), k)))
         == (if first then " NULLS FIRST" else " NULLS LAST") + Flatten(k)
  {
    NullsConstants(first);
    SpacedWord(NULLS, if first then FIRST else LAST, if first then " NULLS FIRST" else " NULLS LAST", k);
  }

  lemma {:induction false} CutFrameText(f: Option<Frame>, k: Text)
    ensures Flatten(CutFrame(f, k)) == EmitFrame(f) + Flatten(k)
    ensures EmitFrame(f) == "" <==> f.None?
    decreases f, 0
  {
    if f.None? {
      assert "" + Flatten(k) == Flatten(k);
    } else {
      var w := f.value;
      CutEndText(w.end, k);
      CutBoundText(w.start, CutEnd(w.end, k));
      var word := if w.rows then "ROWS " else "RANGE ";
      FrameWordText(w.rows, word, CutBound(w.start, CutEnd(w.end, k)));
      Join3(word, EmitBound(w.start), EmitEnd(w.end), Flatten(k));
    }
  }

  lemma FrameWordText(rows: bool, text: string, k: Text)
    requires text == if rows then "ROWS " else "RANGE "
    ensures Flatten(More(Key(if rows then ROWS else RANGE), More(Blank, k))) == text + Flatten(k)
  {
  }

  function EmitEnd(b: Option<Bound>): string {
    match b case None => "" case Some(x) => " AND " + EmitBound(x)
  }

  lemma {:induction false} CutEndText(b: Option<Bound>, k: Text)
    ensures Flatten(CutEnd(b, k)) == EmitEnd(b) + Flatten(k)
    decreases b, 0
  {
    if b.None? {
      assert "" + Flatten(k) == Flatten(k);
    } else {
      CutBoundText(b.value, k);
      SpacedText(AND, " AND ", CutBound(b.value, k));
      Join2(" AND ", EmitBound(b.value), Flatten(k));
    }
  }

  lemma {:induction false} CutBoundText(b: Bound, k: Text)
    ensures Flatten(CutBound(b, k)) == EmitBound(b) + Flatten(k)
    decreases b, 0
  {
    match b
    case Offset(Some(x), f) =>
      CutText(x, More(Blank, More(Key(if f then FOLLOWING else PRECEDING), k)));
      SideText(f, k);
      Join2(EmitSql(x), if f then " FOLLOWING" else " PRECEDING", Flatten(k));
    case Offset(None, f) =>
      SideText(f, k);
      Join2("1", if f then " FOLLOWING" else " PRECEDING", Flatten(k));
      OffsetConstants(f);
    case CurrentRow => CurrentText(k);
    case Unbounded(f) => UnboundedText(f, k);
  }

  lemma SideText(f: bool, k: Text)
    ensures Flatten(More(Blank, More(Key(if f then FOLLOWING else PRECEDING), k)))
         == (if f then " FOLLOWING" else " PRECEDING") + Flatten(k)
  {
  }

  lemma UnboundedText(f: bool, k: Text)
    ensures Flatten(CutBound(Unbounded(f), k)) == EmitBound(Unbounded(f)) + Flatten(k)
  {
    UnboundedConstants(f);
    TwoKeys(UNBOUNDED, if f then FOLLOWING else PRECEDING, EmitBound(Unbounded(f)), k);
  }

  lemma CurrentText(k: Text)
    ensures Flatten(CutBound(CurrentRow, k)) == EmitBound(CurrentRow) + Flatten(k)
  {
    assert ("CURRENT" + " ") + "ROW" == "CURRENT ROW";
    TwoKeys(CURRENT, ROW, "CURRENT ROW", k);
  }
}
