/**
 The checker's types are what evaluation gives. An expression checked without an error evaluates to null or
 to a value of its type, up to widening; if moreover no type is unknown, evaluation is never stuck.
 */
module TypeSoundness {
  import opened Ast
  import opened Evaluation
  import opened Typing
  import opened Wrappers

  // ----- values and types -----

  /** A value of the first type can stand where the second one is announced. */
  predicate Widens(a: ScalarType, b: ScalarType) {
    0 < Width(a) <= Width(b) || (a.DateType? && b.TimestampType?)
  }

  /** The value is null or of the type: exactly, or up to widening. Nothing is said of an unknown type. */
  predicate Has(v: Value, t: ScalarType, exact: bool) {
    t.UnknownType? || v.Null? || v.tag == t || (!exact && Widens(v.tag, t))
  }

  /** The types of two branches fit together. */
  predicate Agree(a: ScalarType, b: ScalarType) {
    || Alike(a, b) || a.UnknownType? || b.UnknownType?
    || (Width(a) > 0 && Width(b) > 0)
    || ((a.DateType? || a.TimestampType?) && (b.DateType? || b.TimestampType?))
  }

  predicate Alike(a: ScalarType, b: ScalarType) {
    a == b || a.NullType? || b.NullType?
  }

  lemma AgreeIffCommon(a: ScalarType, b: ScalarType)
    ensures Agree(a, b) <==> CommonType(a, b).Some?
    ensures CommonType(a, b).Some? ==> CommonType(a, b).value == a || CommonType(a, b).value == b
  {
  }

  lemma CommonHas(v: Value, a: ScalarType, b: ScalarType, exact: bool)
    requires CommonType(a, b).Some? && (exact ==> Alike(a, b)) && (Has(v, a, exact) || Has(v, b, exact))
    ensures Has(v, CommonType(a, b).value, exact)
  {
  }

  // ----- what the world promises -----

  predicate RowFits(schema: Schema, row: Row, exact: bool) {
    |row| == |schema.columns| && forall i :: 0 <= i < |row| ==> Has(row[i], schema.columns[i].dataType.scalar, exact)
  }

  predicate TakesCount(sig: Signature, n: nat) {
    n >= sig.minArgs && (sig.maxArgs.Some? ==> n <= sig.maxArgs.value)
  }

  predicate AllHave(vs: seq<Value>, ts: seq<DataType>, exact: bool) {
    |vs| == |ts| && forall i :: 0 <= i < |vs| ==> Has(vs[i], ts[i].scalar, exact)
  }

  /** A function of the schema gives a value of the type its signature announces. */
  predicate FunctionFits(w: World, name: string, vs: seq<Value>, ts: seq<DataType>, exact: bool) {
    name in w.schema.functions && TakesCount(w.schema.functions[name], |ts|) && AllHave(vs, ts, exact) ==>
      Has(w.call(name, vs), w.schema.functions[name].resolve(ts).scalar, exact)
  }

  ghost predicate WorldFits(w: World, exact: bool) {
    RowsFit(w.schema, w.group, exact) && forall name, vs, ts :: FunctionFits(w, name, vs, ts, exact)
  }

  predicate RowsFit(schema: Schema, rows: seq<Row>, exact: bool) {
    forall i :: 0 <= i < |rows| ==> RowFits(schema, rows[i], exact)
  }

  ghost predicate Fits(w: World, row: Row, exact: bool) {
    RowFits(w.schema, row, exact) && WorldFits(w, exact)
  }

  // ----- checked trees -----

  function TypeAt(schema: Schema, t: Tree): ScalarType
    requires WellFormed(t)
  {
    Mapped(schema, t).typed.dataType.scalar
  }

  function ThenType(types: seq<DataType>, hasOperand: bool, k: nat): ScalarType
    requires (if hasOperand then 1 else 0) + 2 * k + 1 < |types|
  {
    types[(if hasOperand then 1 else 0) + 2 * k + 1].scalar
  }

  /** The ELSE fits every THEN; for exact types all branches have one type. */
  predicate BranchesFit(hasOperand: bool, whens: nat, hasElse: bool, types: seq<DataType>, exact: bool)
    requires |types| == (if hasOperand then 1 else 0) + 2 * whens + (if hasElse then 1 else 0)
  {
    && (hasElse ==> forall k :: 0 <= k < whens ==>
          && Agree(ThenType(types, hasOperand, k), types[|types| - 1].scalar)
          && (exact ==> Alike(ThenType(types, hasOperand, k), types[|types| - 1].scalar)))
    && (exact ==> forall j, k :: 0 <= j < whens && 0 <= k < whens ==> Alike(ThenType(types, hasOperand, j), ThenType(types, hasOperand, k)))
  }

  predicate NodeCalm(kind: Label, types: seq<DataType>, scalar: ScalarType, exact: bool, settled: bool)
    requires Arity(kind, |types|)
  {
    && (exact || settled ==> !scalar.UnknownType?)
    && match kind
       case CaseNode(hasOperand, whens, hasElse) => BranchesFit(hasOperand, whens, hasElse, types, exact)
       case _ => true
  }

  function KidTypes(schema: Schema, t: Tree): (r: seq<DataType>)
    requires WellFormed(t)
    ensures |r| == |t.kids|
    ensures forall i :: 0 <= i < |r| ==> r[i] == Mapped(schema, t.kids[i]).typed.dataType
  {
    seq(|t.kids|, i requires 0 <= i < |t.kids| => Mapped(schema, t.kids[i]).typed.dataType)
  }

  /** At every node the branches fit, and for exact or settled types no type is unknown. */
  predicate Calm(schema: Schema, t: Tree, exact: bool, settled: bool)
    requires WellFormed(t)
    decreases t
  {
    && NodeCalm(t.kind, KidTypes(schema, t), TypeAt(schema, t), exact, settled)
    && forall i :: 0 <= i < |t.kids| ==> Calm(schema, t.kids[i], exact, settled)
  }

  /** Checked without an error, and calm. */
  predicate Checked(schema: Schema, t: Tree, exact: bool, settled: bool) {
    WellFormed(t) && Mapped(schema, t).errors == [] && Calm(schema, t, exact, settled)
  }

  lemma {:induction false} MappedOneByOne(schema: Schema, t: Tree, n: nat, i: nat)
    requires WellFormed(t) && i < n <= |t.kids|
    ensures MappedKids(schema, t, n).typed[i] == Mapped(schema, t.kids[i]).typed
  {
    if i < n - 1 {
      MappedOneByOne(schema, t, n - 1, i);
    }
  }

  lemma {:induction false} NoErrorBelow(schema: Schema, t: Tree, n: nat, i: nat)
    requires WellFormed(t) && i < n <= |t.kids| && MappedKids(schema, t, n).errors == []
    ensures Mapped(schema, t.kids[i]).errors == []
  {
    if i < n - 1 {
      NoErrorBelow(schema, t, n - 1, i);
    }
  }

  lemma KidChecked(schema: Schema, t: Tree, i: nat, exact: bool, settled: bool)
    requires Checked(schema, t, exact, settled) && i < |t.kids|
    ensures Checked(schema, t.kids[i], exact, settled)
  {
    NoErrorBelow(schema, t, |t.kids|, i);
  }

  lemma ThisChecked(schema: Schema, t: Tree, i: nat, kid: Tree, exact: bool, settled: bool)
    requires Checked(schema, t, exact, settled) && i < |t.kids| && t.kids[i] == kid
    ensures Checked(schema, kid, exact, settled)
  {
    KidChecked(schema, t, i, exact, settled);
  }

  lemma {:induction false} NoErrorAbove(schema: Schema, t: Tree, n: nat)
    requires WellFormed(t) && n <= |t.kids|
    requires forall i :: 0 <= i < n ==> Mapped(schema, t.kids[i]).errors == []
    ensures MappedKids(schema, t, n).errors == []
  {
    if n > 0 {
      NoErrorAbove(schema, t, n - 1);
      assert Mapped(schema, t.kids[n - 1]).errors == [];
    }
  }

  /** The rule of a node, applied to the types of its children. */
  lemma NodeVerdict(schema: Schema, t: Tree)
    requires WellFormed(t)
    ensures var v := Attached(schema, t.kind, KidTypes(schema, t));
            TypeAt(schema, t) == v.dataType.scalar && Mapped(schema, t).errors == MappedKids(schema, t, |t.kids|).errors + v.errors
  {
    forall i | 0 <= i < |t.kids|
      ensures MappedKids(schema, t, |t.kids|).typed[i] == Mapped(schema, t.kids[i]).typed
    {
      MappedOneByOne(schema, t, |t.kids|, i);
    }
    assert TypesOf(MappedKids(schema, t, |t.kids|).typed) == KidTypes(schema, t);
  }

  // ----- columns -----

  lemma {:induction false} PositionMore(front: seq<Column>, last: Column, table: Option<string>, name: string, i: nat)
    requires i <= |front|
    ensures Position(front + [last], table, name, i)
         == if Position(front, table, name, i).Some? then Position(front, table, name, i)
            else if Denotes(last, table, name) then Some(|front|) else None
    decreases |front| - i
  {
    if i < |front| {
      PositionMore(front, last, table, name, i + 1);
    }
  }

  /** The candidates begin with the first column meant; there are more exactly when another one is meant. */
  lemma {:induction false} CandidatesAre(columns: seq<Column>, table: Option<string>, name: string)
    ensures var p, cs := Position(columns, table, name, 0), Candidates(columns, table, name);
            && (p.None? <==> cs == [])
            && (p.Some? ==> cs[0] == columns[p.value]
                            && (|cs| > 1 <==> Position(columns, table, name, p.value + 1).Some?))
  {
    if columns != [] {
      var front, last := columns[..|columns| - 1], columns[|columns| - 1];
      CandidatesAre(front, table, name);
      PositionMore(front, last, table, name, 0);
      assert columns == front + [last];
      var p := Position(front, table, name, 0);
      if p.Some? {
        PositionMore(front, last, table, name, p.value + 1);
      }
    }
  }

  // ----- outcomes -----

  predicate Announced(o: Outcome, t: ScalarType, exact: bool, settled: bool) {
    (settled ==> o.Gives?) && (o.Gives? ==> Has(o.value, t, exact))
  }

  lemma ColumnSound(w: World, row: Row, e: Expr, exact: bool, settled: bool)
    requires e.ColumnRef? && Fits(w, row, exact) && Checked(w.schema, TreeOf(e), exact, settled)
    ensures Announced(Eval(w, row, e), TypeAt(w.schema, TreeOf(e)), exact, settled)
  {
    NodeVerdict(w.schema, TreeOf(e));
    CandidatesAre(w.schema.columns, e.table, e.column);
  }

  lemma {:induction false} Sound(w: World, row: Row, e: Expr, exact: bool, settled: bool)
    requires Fits(w, row, exact) && Checked(w.schema, TreeOf(e), exact, settled)
    ensures Announced(Eval(w, row, e), TypeAt(w.schema, TreeOf(e)), exact, settled)
    decreases e, 5
  {
    match e
    case ColumnRef(_, _) => ColumnSound(w, row, e, exact, settled);
    case Binary(_, _, _) => BinarySound(w, row, e, exact, settled);
    case Negate(_) => NegateSound(w, row, e, exact, settled);
    case LogicalNot(x) => PredicateSound(w, row, e, exact, settled);
    case Between(_, _, _, _) => PredicateSound(w, row, e, exact, settled);
    case InList(_, _, _) => PredicateSound(w, row, e, exact, settled);
    case IsNull(_, _) => PredicateSound(w, row, e, exact, settled);
    case Like(_, _, _) => PredicateSound(w, row, e, exact, settled);
    case Case(_, _, _) => CaseSound(w, row, e, exact, settled);
    case Cast(_, _) => CastSound(w, row, e, exact, settled);
    case CallExpr(call) => CallSound(w, row, call, exact, settled);
    case Window(_, _, _, _) => WindowSound(w, row, e, exact, settled);
    case _ => NodeVerdict(w.schema, TreeOf(e));
  }

  // ----- operators -----

  /** What the rule for binary operators gives, operator by operator. */
  lemma OperateOk(w: World, e: Expr, l: DataType, r: DataType, a: Value, b: Value, exact: bool, settled: bool)
    requires e.Binary? && BinaryVerdict(e.op, l, r).errors == [] && Has(a, l.scalar, exact) && Has(b, r.scalar, exact)
    requires exact || settled ==> !l.scalar.UnknownType? && !r.scalar.UnknownType?
    ensures Announced(Operate(w, e, a, b), BinaryVerdict(e.op, l, r).dataType.scalar, exact, settled)
  {
    if Arithmetic(e.op) {
      ArithmeticOk(w, e, l, r, a, b, exact, settled);
    }
  }

  lemma ArithmeticOk(w: World, e: Expr, l: DataType, r: DataType, a: Value, b: Value, exact: bool, settled: bool)
    requires e.Binary? && Arithmetic(e.op) && BinaryVerdict(e.op, l, r).errors == []
    requires Has(a, l.scalar, exact) && Has(b, r.scalar, exact)
    ensures Announced(Operate(w, e, a, b), BinaryVerdict(e.op, l, r).dataType.scalar, exact, settled)
  {
    if !l.scalar.NullType? && !r.scalar.NullType? {
      PromotedHas(l.scalar, r.scalar, a, b, exact);
    }
  }

  lemma PromotedHas(l: ScalarType, r: ScalarType, a: Value, b: Value, exact: bool)
    requires PromoteNumeric(l, r).Some? && Has(a, l, exact) && Has(b, r, exact)
    ensures a.Tagged? && b.Tagged? ==>
              && Width(a.tag) > 0 && Width(b.tag) > 0
              && forall c :: Has(Made(Wider(a.tag, b.tag), c), PromoteNumeric(l, r).value, exact)
  {
  }

  lemma {:induction false} BinarySound(w: World, row: Row, e: Expr, exact: bool, settled: bool)
    requires e.Binary? && Fits(w, row, exact) && Checked(w.schema, TreeOf(e), exact, settled)
    ensures Announced(Eval(w, row, e), TypeAt(w.schema, TreeOf(e)), exact, settled)
    decreases e, 4
  {
    var t := TreeOf(e);
    NodeVerdict(w.schema, t);
    KidChecked(w.schema, t, 0, exact, settled);
    KidChecked(w.schema, t, 1, exact, settled);
    Sound(w, row, e.left, exact, settled);
    Sound(w, row, e.right, exact, settled);
    var types, a, b := KidTypes(w.schema, t), Eval(w, row, e.left), Eval(w, row, e.right);
    if a.Gives? && b.Gives? {
      OperateOk(w, e, types[0], types[1], a.value, b.value, exact, settled);
    }
  }

  lemma {:induction false} NegateSound(w: World, row: Row, e: Expr, exact: bool, settled: bool)
    requires e.Negate? && Fits(w, row, exact) && Checked(w.schema, TreeOf(e), exact, settled)
    ensures Announced(Eval(w, row, e), TypeAt(w.schema, TreeOf(e)), exact, settled)
    decreases e, 4
  {
    NodeVerdict(w.schema, TreeOf(e));
    KidChecked(w.schema, TreeOf(e), 0, exact, settled);
    Sound(w, row, e.operand, exact, settled);
    var a := Eval(w, row, e.operand);
    if a.Gives? {
      NegatedOk(w, e, KidTypes(w.schema, TreeOf(e))[0].scalar, a.value, exact, settled);
    }
  }

  lemma NegatedOk(w: World, e: Expr, t: ScalarType, v: Value, exact: bool, settled: bool)
    requires (t.NullType? || t.UnknownType? || IsNumeric(t)) && Has(v, t, exact) && (exact || settled ==> !t.UnknownType?)
    ensures Announced(Negated(w, e, v), t, exact, settled)
  {
  }

  lemma {:induction false} CastSound(w: World, row: Row, e: Expr, exact: bool, settled: bool)
    requires e.Cast? && Fits(w, row, exact) && Checked(w.schema, TreeOf(e), exact, settled)
    ensures Announced(Eval(w, row, e), TypeAt(w.schema, TreeOf(e)), exact, settled)
    decreases e, 4
  {
    CastType(w.schema, TreeOf(e), e.target);
    ThisChecked(w.schema, TreeOf(e), 0, TreeOf(e.expr), exact, settled);
    Sound(w, row, e.expr, exact, settled);
    var a := Eval(w, row, e.expr);
    if a.Gives? {
      ConvertedHas(w, e, e.target, a.value, exact);
    }
  }

  lemma CastType(schema: Schema, t: Tree, target: ScalarType)
    requires t.kind == CastNode(target) && WellFormed(t)
    ensures TypeAt(schema, t) == target
  {
    NodeVerdict(schema, t);
  }

  lemma ConvertedHas(w: World, e: Expr, target: ScalarType, v: Value, exact: bool)
    ensures Has(Converted(w, e, target, v), target, exact)
  {
  }

  // ----- predicates: true, false or null -----

  predicate IsPredicate(e: Expr) { e.LogicalNot? || e.Between? || e.InList? || e.IsNull? || e.Like? }

  lemma PredicateIsBoolean(schema: Schema, e: Expr)
    requires IsPredicate(e) && WellFormed(TreeOf(e))
    ensures TypeAt(schema, TreeOf(e)) == BooleanType
  {
    PredicateKind(e);
    PredicateVerdict(schema, TreeOf(e));
  }

  predicate PredicateNode(kind: Label) {
    kind.NotNode? || kind.BetweenNode? || kind.InNode? || kind.IsNullNode? || kind.LikeNode?
  }

  lemma PredicateKind(e: Expr)
    requires IsPredicate(e)
    ensures PredicateNode(TreeOf(e).kind)
  {
  }

  lemma PredicateVerdict(schema: Schema, t: Tree)
    requires WellFormed(t) && PredicateNode(t.kind)
    ensures TypeAt(schema, t) == BooleanType
  {
    NodeVerdict(schema, t);
  }

  lemma PredicateGives(w: World, row: Row, e: Expr, exact: bool)
    requires IsPredicate(e) && Eval(w, row, e).Gives?
    ensures Has(Eval(w, row, e).value, BooleanType, exact)
  {
  }

  lemma {:induction false} PredicateSound(w: World, row: Row, e: Expr, exact: bool, settled: bool)
    requires IsPredicate(e) && Fits(w, row, exact) && Checked(w.schema, TreeOf(e), exact, settled)
    ensures Announced(Eval(w, row, e), TypeAt(w.schema, TreeOf(e)), exact, settled)
    decreases e, 4
  {
    PredicateIsBoolean(w.schema, e);
    if Eval(w, row, e).Gives? {
      PredicateGives(w, row, e, exact);
    }
    if settled {
      PredicateRuns(w, row, e, exact);
    }
  }

  lemma {:induction false} PredicateRuns(w: World, row: Row, e: Expr, exact: bool)
    requires IsPredicate(e) && Fits(w, row, exact) && Checked(w.schema, TreeOf(e), exact, true)
    ensures Eval(w, row, e).Gives?
    decreases e, 4, 0
  {
    match e
    case LogicalNot(x) => FirstRuns(w, row, e, x, exact);
    case IsNull(x, _) => FirstRuns(w, row, e, x, exact);
    case Between(_, _, _, _) => BetweenRuns(w, row, e, exact);
    case InList(_, _, _) => InRuns(w, row, e, exact);
    case Like(_, _, _) => LikeRuns(w, row, e, exact);
  }

  /** The operand in front is not stuck. */
  lemma {:induction false} FirstRuns(w: World, row: Row, e: Expr, x: Expr, exact: bool)
    requires Fits(w, row, exact) && Checked(w.schema, TreeOf(e), exact, true)
    requires x < e && TreeOf(e).kids != [] && TreeOf(e).kids[0] == TreeOf(x)
    ensures Eval(w, row, x).Gives?
    decreases e, 3
  {
    KidChecked(w.schema, TreeOf(e), 0, exact, true);
    Sound(w, row, x, exact, true);
  }

  lemma {:induction false} BetweenRuns(w: World, row: Row, e: Expr, exact: bool)
    requires e.Between? && Fits(w, row, exact) && Checked(w.schema, TreeOf(e), exact, true)
    ensures Eval(w, row, e.expr).Gives? && Eval(w, row, e.low).Gives? && Eval(w, row, e.high).Gives?
    decreases e, 3
  {
    OperandRuns(w, row, TreeOf(e), 0, e.expr, exact);
    OperandRuns(w, row, TreeOf(e), 1, e.low, exact);
    OperandRuns(w, row, TreeOf(e), 2, e.high, exact);
  }

  lemma {:induction false} OperandRuns(w: World, row: Row, t: Tree, i: nat, x: Expr, exact: bool)
    requires Fits(w, row, exact) && Checked(w.schema, t, exact, true) && i < |t.kids| && t.kids[i] == TreeOf(x)
    ensures Eval(w, row, x).Gives?
    decreases x, 6
  {
    ThisChecked(w.schema, t, i, TreeOf(x), exact, true);
    Sound(w, row, x, exact, true);
  }

  lemma {:induction false} InRuns(w: World, row: Row, e: Expr, exact: bool)
    requires e.InList? && Fits(w, row, exact) && Checked(w.schema, TreeOf(e), exact, true)
    ensures Eval(w, row, e.expr).Gives? && EvalAll(w, row, e.values).Some?
    decreases e, 3
  {
    OperandRuns(w, row, TreeOf(e), 0, e.expr, exact);
    assert TreeOf(e).kids == [TreeOf(e.expr)] + TreesOf(e.values) + [];
    KidsChecked(w.schema, TreeOf(e), [TreeOf(e.expr)], e.values, [], exact, true);
    AllSound(w, row, e.values, exact, true);
  }

  lemma {:induction false} LikeRuns(w: World, row: Row, e: Expr, exact: bool)
    requires e.Like? && Fits(w, row, exact) && Checked(w.schema, TreeOf(e), exact, true)
    ensures Eval(w, row, e.expr).Gives? && Eval(w, row, e.pattern).Gives?
    decreases e, 3
  {
    KidChecked(w.schema, TreeOf(e), 0, exact, true);
    Sound(w, row, e.expr, exact, true);
    KidChecked(w.schema, TreeOf(e), 1, exact, true);
    Sound(w, row, e.pattern, exact, true);
  }

  // ----- lists -----

  lemma {:induction false} TreesAre(es: seq<Expr>)
    ensures |TreesOf(es)| == |es| && forall i :: 0 <= i < |es| ==> TreesOf(es)[i] == TreeOf(es[i])
  {
    if es != [] {
      TreesAre(es[1..]);
    }
  }

  predicate CheckedAll(schema: Schema, es: seq<Expr>, exact: bool, settled: bool) {
    forall i :: 0 <= i < |es| ==> Checked(schema, TreeOf(es[i]), exact, settled)
  }

  lemma KidsChecked(schema: Schema, t: Tree, before: seq<Tree>, es: seq<Expr>, after: seq<Tree>, exact: bool, settled: bool)
    requires Checked(schema, t, exact, settled) && t.kids == before + TreesOf(es) + after
    ensures CheckedAll(schema, es, exact, settled)
  {
    TreesAre(es);
    forall i | 0 <= i < |es|
      ensures Checked(schema, TreeOf(es[i]), exact, settled)
    {
      assert t.kids[|before| + i] == TreesOf(es)[i];
      KidChecked(schema, t, |before| + i, exact, settled);
    }
  }

  predicate HasType(schema: Schema, v: Value, e: Expr, exact: bool) {
    WellFormed(TreeOf(e)) && Has(v, TypeAt(schema, TreeOf(e)), exact)
  }

  predicate AnnouncedAll(schema: Schema, vs: Option<seq<Value>>, es: seq<Expr>, exact: bool, settled: bool) {
    && (settled ==> vs.Some?)
    && (vs.Some? ==> |vs.value| == |es| && forall i :: 0 <= i < |es| ==> HasType(schema, vs.value[i], es[i], exact))
  }

  lemma {:induction false} AllSound(w: World, row: Row, es: seq<Expr>, exact: bool, settled: bool)
    requires Fits(w, row, exact) && CheckedAll(w.schema, es, exact, settled)
    ensures AnnouncedAll(w.schema, EvalAll(w, row, es), es, exact, settled)
    decreases es, 0
  {
    if es != [] {
      Sound(w, row, es[0], exact, settled);
      AllSound(w, row, es[1..], exact, settled);
      AnnouncedCons(w.schema, Eval(w, row, es[0]), EvalAll(w, row, es[1..]), es, exact, settled);
    }
  }

  lemma AnnouncedCons(schema: Schema, o: Outcome, vs: Option<seq<Value>>, es: seq<Expr>, exact: bool, settled: bool)
    requires es != [] && AnnouncedAll(schema, vs, es[1..], exact, settled)
    requires (settled ==> o.Gives?) && (o.Gives? ==> HasType(schema, o.value, es[0], exact))
    ensures AnnouncedAll(schema, Both(One(o), vs), es, exact, settled)
  {
    if o.Gives? && vs.Some? {
      var all := [o.value] + vs.value;
      assert Both(One(o), vs) == Some(all);
      forall i | 0 <= i < |es|
        ensures HasType(schema, all[i], es[i], exact)
      {
        if i > 0 {
          Shifted(o.value, vs.value, es, i);
          assert HasType(schema, vs.value[i - 1], es[1..][i - 1], exact);
        }
      }
    }
  }

  lemma Shifted(v: Value, vs: seq<Value>, es: seq<Expr>, i: nat)
    requires 0 < i < |es| && |vs| == |es| - 1
    ensures ([v] + vs)[i] == vs[i - 1] && es[1..][i - 1] == es[i]
  {
  }

  // ----- CASE -----

  lemma {:induction false} WhenTreesAre(ws: seq<When>, k: nat)
    requires k < |ws|
    ensures |WhenTrees(ws)| == 2 * |ws|
    ensures WhenTrees(ws)[2 * k] == TreeOf(ws[k].condition) && WhenTrees(ws)[2 * k + 1] == TreeOf(ws[k].result)
  {
    WhensLength(ws);
    WhensLength(ws[1..]);
    if k > 0 {
      WhenTreesAre(ws[1..], k - 1);
      assert WhenTrees(ws)[2 * k] == WhenTrees(ws[1..])[2 * (k - 1)];
      assert WhenTrees(ws)[2 * k + 1] == WhenTrees(ws[1..])[2 * (k - 1) + 1];
    }
  }

  lemma {:induction false} WhensLength(ws: seq<When>)
    ensures |WhenTrees(ws)| == 2 * |ws|
  {
    if ws != [] {
      WhensLength(ws[1..]);
    }
  }

  function FirstWhen(e: Expr): nat
    requires e.Case?
  {
    if e.base.Some? then 1 else 0
  }

  lemma Middle<T>(a: seq<T>, b: seq<T>, c: seq<T>, i: nat)
    requires i < |b|
    ensures (a + b + c)[|a| + i] == b[i]
  {
  }

  lemma CaseKids(e: Expr, k: nat)
    requires e.Case? && k < |e.whens|
    ensures var kids, first := TreeOf(e).kids, FirstWhen(e);
            && |kids| == first + 2 * |e.whens| + (if e.otherwise.Some? then 1 else 0)
            && kids[first + 2 * k] == TreeOf(e.whens[k].condition) && kids[first + 2 * k + 1] == TreeOf(e.whens[k].result)
  {
    WhenTreesAre(e.whens, k);
    Middle(MaybeTree(e.base), WhenTrees(e.whens), MaybeTree(e.otherwise), 2 * k);
    Middle(MaybeTree(e.base), WhenTrees(e.whens), MaybeTree(e.otherwise), 2 * k + 1);
  }

  lemma CaseEnds(e: Expr)
    requires e.Case?
    ensures var kids, first := TreeOf(e).kids, FirstWhen(e);
            && |kids| == first + 2 * |e.whens| + (if e.otherwise.Some? then 1 else 0)
            && (e.base.Some? ==> kids[0] == TreeOf(e.base.value))
            && (e.otherwise.Some? ==> kids[|kids| - 1] == TreeOf(e.otherwise.value))
  {
    WhensLength(e.whens);
  }

  /** The type of the THEN branches is that of one of them, or null when there is none. */
  lemma {:induction false} FoldIsOne(types: seq<DataType>, hasOperand: bool, n: nat)
    requires (if hasOperand then 1 else 0) + 2 * n <= |types|
    ensures var t := FoldBranches(types, if hasOperand then 1 else 0, n).scalar;
            t.NullType? || exists k :: 0 <= k < n && t == ThenType(types, hasOperand, k)
  {
    if n > 0 {
      FoldIsOne(types, hasOperand, n - 1);
      var before := FoldBranches(types, if hasOperand then 1 else 0, n - 1).scalar;
      var last := ThenType(types, hasOperand, n - 1);
      AgreeIffCommon(before, last);
    }
  }

  lemma {:induction false} FoldHas(v: Value, types: seq<DataType>, hasOperand: bool, n: nat, k: nat, exact: bool)
    requires (if hasOperand then 1 else 0) + 2 * n <= |types| && k < n
    requires FoldBranches(types, if hasOperand then 1 else 0, n).errors == []
    requires exact ==> forall i, j :: 0 <= i < n && 0 <= j < n ==> Alike(ThenType(types, hasOperand, i), ThenType(types, hasOperand, j))
    requires Has(v, ThenType(types, hasOperand, k), exact)
    ensures Has(v, FoldBranches(types, if hasOperand then 1 else 0, n).scalar, exact)
  {
    var before := FoldBranches(types, if hasOperand then 1 else 0, n - 1).scalar;
    if k < n - 1 {
      FoldHas(v, types, hasOperand, n - 1, k, exact);
    }
    FoldIsOne(types, hasOperand, n - 1);
    CommonHas(v, before, ThenType(types, hasOperand, n - 1), exact);
  }

  /** A value of any branch has the type of the CASE. */
  lemma BranchHas(v: Value, hasOperand: bool, whens: nat, hasElse: bool, types: seq<DataType>, k: nat, exact: bool)
    requires |types| == (if hasOperand then 1 else 0) + 2 * whens + (if hasElse then 1 else 0)
    requires CaseVerdict(hasOperand, whens, hasElse, types).errors == [] && BranchesFit(hasOperand, whens, hasElse, types, exact)
    requires if k < whens then Has(v, ThenType(types, hasOperand, k), exact) else hasElse && Has(v, types[|types| - 1].scalar, exact)
    ensures Has(v, CaseVerdict(hasOperand, whens, hasElse, types).dataType.scalar, exact)
  {
    var fold := FoldBranches(types, if hasOperand then 1 else 0, whens).scalar;
    if k < whens {
      FoldHas(v, types, hasOperand, whens, k, exact);
    }
    if hasElse {
      FoldIsOne(types, hasOperand, whens);
      AgreeIffCommon(fold, types[|types| - 1].scalar);
      CommonHas(v, fold, types[|types| - 1].scalar, exact);
    }
  }

  lemma {:induction false} CaseSound(w: World, row: Row, e: Expr, exact: bool, settled: bool)
    requires e.Case? && Fits(w, row, exact) && Checked(w.schema, TreeOf(e), exact, settled)
    ensures Announced(Eval(w, row, e), TypeAt(w.schema, TreeOf(e)), exact, settled)
    decreases e, 4
  {
    if e.base.Some? {
      CaseEnds(e);
      KidChecked(w.schema, TreeOf(e), 0, exact, settled);
      Sound(w, row, e.base.value, exact, settled);
      var a := Eval(w, row, e.base.value);
      if a.Gives? {
        WhensSound(w, row, e, Some(a.value), 0, exact, settled);
      }
    } else {
      WhensSound(w, row, e, None, 0, exact, settled);
    }
  }

  lemma {:induction false} WhensSound(w: World, row: Row, e: Expr, base: Option<Value>, i: nat, exact: bool, settled: bool)
    requires e.Case? && i <= |e.whens| && Fits(w, row, exact) && Checked(w.schema, TreeOf(e), exact, settled)
    ensures Announced(EvalWhens(w, row, e, base, i), TypeAt(w.schema, TreeOf(e)), exact, settled)
    decreases e, 3, |e.whens| - i
  {
    if i == |e.whens| {
      ElseSound(w, row, e, exact, settled);
    } else {
      WhenSound(w, row, e, i, exact, settled);
      WhensSound(w, row, e, base, i + 1, exact, settled);
    }
  }

  lemma ConditionChecked(schema: Schema, e: Expr, k: nat, exact: bool, settled: bool)
    requires e.Case? && k < |e.whens| && Checked(schema, TreeOf(e), exact, settled)
    ensures Checked(schema, TreeOf(e.whens[k].condition), exact, settled)
  {
    CaseKids(e, k);
    ThisChecked(schema, TreeOf(e), FirstWhen(e) + 2 * k, TreeOf(e.whens[k].condition), exact, settled);
  }

  lemma ResultChecked(schema: Schema, e: Expr, k: nat, exact: bool, settled: bool)
    requires e.Case? && k < |e.whens| && Checked(schema, TreeOf(e), exact, settled)
    ensures Checked(schema, TreeOf(e.whens[k].result), exact, settled)
  {
    CaseKids(e, k);
    ThisChecked(schema, TreeOf(e), FirstWhen(e) + 2 * k + 1, TreeOf(e.whens[k].result), exact, settled);
  }

  lemma CaseKind(e: Expr)
    requires e.Case?
    ensures TreeOf(e).kind == CaseNode(e.base.Some?, |e.whens|, e.otherwise.Some?)
  {
  }

  lemma CaseNodeTypes(schema: Schema, t: Tree, hasOperand: bool, whens: nat, hasElse: bool)
    requires t.kind == CaseNode(hasOperand, whens, hasElse) && WellFormed(t)
    ensures TypeAt(schema, t) == CaseVerdict(hasOperand, whens, hasElse, KidTypes(schema, t)).dataType.scalar
    ensures Mapped(schema, t).errors == [] ==> CaseVerdict(hasOperand, whens, hasElse, KidTypes(schema, t)).errors == []
  {
    NodeVerdict(schema, t);
  }

  lemma CaseNodeRule(schema: Schema, t: Tree, hasOperand: bool, whens: nat, hasElse: bool, exact: bool, settled: bool)
    requires t.kind == CaseNode(hasOperand, whens, hasElse) && Checked(schema, t, exact, settled)
    ensures TypeAt(schema, t) == CaseVerdict(hasOperand, whens, hasElse, KidTypes(schema, t)).dataType.scalar
    ensures CaseVerdict(hasOperand, whens, hasElse, KidTypes(schema, t)).errors == []
    ensures BranchesFit(hasOperand, whens, hasElse, KidTypes(schema, t), exact)
  {
    CaseNodeTypes(schema, t, hasOperand, whens, hasElse);
  }

  /** The rule for CASE, on the types of its children. */
  lemma CaseRule(schema: Schema, e: Expr, exact: bool, settled: bool)
    requires e.Case? && Checked(schema, TreeOf(e), exact, settled)
    ensures var types := KidTypes(schema, TreeOf(e));
            && |types| == FirstWhen(e) + 2 * |e.whens| + (if e.otherwise.Some? then 1 else 0)
            && CaseVerdict(e.base.Some?, |e.whens|, e.otherwise.Some?, types).errors == []
            && TypeAt(schema, TreeOf(e)) == CaseVerdict(e.base.Some?, |e.whens|, e.otherwise.Some?, types).dataType.scalar
            && BranchesFit(e.base.Some?, |e.whens|, e.otherwise.Some?, types, exact)
  {
    CaseKind(e);
    CaseNodeRule(schema, TreeOf(e), e.base.Some?, |e.whens|, e.otherwise.Some?, exact, settled);
  }

  lemma ThenTypeIs(schema: Schema, e: Expr, k: nat)
    requires e.Case? && k < |e.whens| && WellFormed(TreeOf(e)) && WellFormed(TreeOf(e.whens[k].result))
    ensures var types := KidTypes(schema, TreeOf(e));
            FirstWhen(e) + 2 * k + 1 < |types|
            && ThenType(types, e.base.Some?, k) == TypeAt(schema, TreeOf(e.whens[k].result))
  {
    CaseKids(e, k);
    ThenKid(schema, TreeOf(e), e.base.Some?, k, TreeOf(e.whens[k].result));
  }

  lemma ThenKid(schema: Schema, t: Tree, hasOperand: bool, k: nat, kid: Tree)
    requires WellFormed(t) && WellFormed(kid)
    requires var i := (if hasOperand then 1 else 0) + 2 * k + 1; i < |t.kids| && t.kids[i] == kid
    ensures ThenType(KidTypes(schema, t), hasOperand, k) == TypeAt(schema, kid)
  {
    KidTypeAt(schema, t, (if hasOperand then 1 else 0) + 2 * k + 1, kid);
  }

  lemma KidTypeAt(schema: Schema, t: Tree, i: nat, kid: Tree)
    requires WellFormed(t) && WellFormed(kid) && i < |t.kids| && t.kids[i] == kid
    ensures KidTypes(schema, t)[i].scalar == TypeAt(schema, kid)
  {
  }

  lemma ElseTypeIs(schema: Schema, e: Expr)
    requires e.Case? && e.otherwise.Some? && WellFormed(TreeOf(e)) && WellFormed(TreeOf(e.otherwise.value))
    ensures var types := KidTypes(schema, TreeOf(e));
            types != [] && types[|types| - 1].scalar == TypeAt(schema, TreeOf(e.otherwise.value))
  {
    CaseEnds(e);
    KidTypeAt(schema, TreeOf(e), |TreeOf(e).kids| - 1, TreeOf(e.otherwise.value));
  }

  lemma ThenHas(schema: Schema, e: Expr, k: nat, v: Value, exact: bool, settled: bool)
    requires e.Case? && k < |e.whens| && Checked(schema, TreeOf(e), exact, settled)
    requires WellFormed(TreeOf(e.whens[k].result)) && Has(v, TypeAt(schema, TreeOf(e.whens[k].result)), exact)
    ensures Has(v, TypeAt(schema, TreeOf(e)), exact)
  {
    CaseRule(schema, e, exact, settled);
    ThenTypeIs(schema, e, k);
    BranchHas(v, e.base.Some?, |e.whens|, e.otherwise.Some?, KidTypes(schema, TreeOf(e)), k, exact);
  }

  lemma ElseHas(schema: Schema, e: Expr, v: Value, exact: bool, settled: bool)
    requires e.Case? && e.otherwise.Some? && Checked(schema, TreeOf(e), exact, settled)
    requires WellFormed(TreeOf(e.otherwise.value)) && Has(v, TypeAt(schema, TreeOf(e.otherwise.value)), exact)
    ensures Has(v, TypeAt(schema, TreeOf(e)), exact)
  {
    CaseRule(schema, e, exact, settled);
    ElseTypeIs(schema, e);
    BranchHas(v, e.base.Some?, |e.whens|, true, KidTypes(schema, TreeOf(e)), |e.whens|, exact);
  }

  lemma {:induction false} WhenSound(w: World, row: Row, e: Expr, k: nat, exact: bool, settled: bool)
    requires e.Case? && k < |e.whens| && Fits(w, row, exact) && Checked(w.schema, TreeOf(e), exact, settled)
    ensures settled ==> Eval(w, row, e.whens[k].condition).Gives?
    ensures Announced(Eval(w, row, e.whens[k].result), TypeAt(w.schema, TreeOf(e)), exact, settled)
    decreases e, 2
  {
    ConditionChecked(w.schema, e, k, exact, settled);
    ResultChecked(w.schema, e, k, exact, settled);
    Sound(w, row, e.whens[k].condition, exact, settled);
    Sound(w, row, e.whens[k].result, exact, settled);
    var o := Eval(w, row, e.whens[k].result);
    if o.Gives? {
      ThenHas(w.schema, e, k, o.value, exact, settled);
    }
  }

  lemma {:induction false} ElseSound(w: World, row: Row, e: Expr, exact: bool, settled: bool)
    requires e.Case? && Fits(w, row, exact) && Checked(w.schema, TreeOf(e), exact, settled)
    ensures Announced(if e.otherwise.None? then Gives(Null) else Eval(w, row, e.otherwise.value),
               TypeAt(w.schema, TreeOf(e)), exact, settled)
    decreases e, 2
  {
    if e.otherwise.Some? {
      CaseEnds(e);
      KidChecked(w.schema, TreeOf(e), |TreeOf(e).kids| - 1, exact, settled);
      Sound(w, row, e.otherwise.value, exact, settled);
      var o := Eval(w, row, e.otherwise.value);
      if o.Gives? {
        ElseHas(w.schema, e, o.value, exact, settled);
      }
    }
  }

  // ----- calls -----

  lemma {:induction false} CallSound(w: World, row: Row, call: Call, exact: bool, settled: bool)
    requires Fits(w, row, exact) && Checked(w.schema, CallTree(call), exact, settled)
    ensures Announced(EvalCall(w, row, call), TypeAt(w.schema, CallTree(call)), exact, settled)
    decreases call, 2
  {
    match call
    case FunctionCall(_, _) => FunctionSound(w, row, call, exact, settled);
    case AggregateCall(_, _, _, _) => AggregateSound(w, row, call, exact, settled);
  }

  /** What the rule of a function found in order. */
  lemma FunctionRule(schema: Schema, call: Call, exact: bool, settled: bool)
    requires call.FunctionCall? && Checked(schema, CallTree(call), exact, settled)
    ensures var types := KidTypes(schema, CallTree(call));
            && |types| == |call.args| && call.name in schema.functions && TakesCount(schema.functions[call.name], |types|)
            && TypeAt(schema, CallTree(call)) == schema.functions[call.name].resolve(types).scalar
  {
    TreesAre(call.args);
    NodeVerdict(schema, CallTree(call));
  }

  lemma FunctionArguments(schema: Schema, call: Call, exact: bool, settled: bool)
    requires call.FunctionCall? && Checked(schema, CallTree(call), exact, settled)
    ensures CheckedAll(schema, call.args, exact, settled)
    ensures forall i :: 0 <= i < |call.args| ==>
              i < |CallTree(call).kids| && KidTypes(schema, CallTree(call))[i].scalar == TypeAt(schema, TreeOf(call.args[i]))
  {
    TreesAre(call.args);
    assert CallTree(call).kids == [] + TreesOf(call.args) + [];
    KidsChecked(schema, CallTree(call), [], call.args, [], exact, settled);
  }

  lemma {:induction false} FunctionSound(w: World, row: Row, call: Call, exact: bool, settled: bool)
    requires call.FunctionCall? && Fits(w, row, exact) && Checked(w.schema, CallTree(call), exact, settled)
    ensures Announced(EvalCall(w, row, call), TypeAt(w.schema, CallTree(call)), exact, settled)
    decreases call, 1
  {
    FunctionArguments(w.schema, call, exact, settled);
    AllSound(w, row, call.args, exact, settled);
    FunctionRule(w.schema, call, exact, settled);
    var values := EvalAll(w, row, call.args);
    if values.Some? {
      assert FunctionFits(w, call.name, values.value, KidTypes(w.schema, CallTree(call)), exact);
    }
  }

  /** The rows a filter keeps are rows of the group. */
  lemma {:induction false} KeptFit(w: World, filter: Option<Expr>, n: nat, exact: bool)
    requires n <= |w.group| && RowsFit(w.schema, w.group, exact)
    ensures Kept(w, filter, n).Some? ==> RowsFit(w.schema, Kept(w, filter, n).value, exact)
    decreases n
  {
    if n > 0 {
      KeptFit(w, filter, n - 1, exact);
    }
  }

  /** A filter whose type is boolean, or null, can be evaluated on every row. */
  lemma {:induction false} FilterRuns(w: World, filter: Option<Expr>, n: nat, exact: bool)
    requires n <= |w.group| && WorldFits(w, exact)
    requires filter.Some? ==>
               && Checked(w.schema, TreeOf(filter.value), exact, true)
               && (TypeAt(w.schema, TreeOf(filter.value)).BooleanType? || TypeAt(w.schema, TreeOf(filter.value)).NullType?)
    ensures Kept(w, filter, n).Some?
    decreases filter, 1, n
  {
    if n > 0 {
      FilterRuns(w, filter, n - 1, exact);
      if filter.Some? {
        Sound(w, w.group[n - 1], filter.value, exact, true);
      }
    }
  }

  predicate AllOf(vs: seq<Value>, t: ScalarType, exact: bool) {
    forall i :: 0 <= i < |vs| ==> Has(vs[i], t, exact)
  }

  lemma OverMore(w: World, e: Expr, rows: seq<Row>)
    requires rows != []
    ensures var before, last := Over(w, e, rows[..|rows| - 1]), Eval(w, rows[|rows| - 1], e);
            Over(w, e, rows) == if before.None? || last.Stuck? then None else Some(before.value + [last.value])
  {
  }

  lemma {:induction false} OverSound(w: World, e: Expr, rows: seq<Row>, exact: bool, settled: bool)
    requires WorldFits(w, exact) && RowsFit(w.schema, rows, exact) && Checked(w.schema, TreeOf(e), exact, settled)
    ensures var vs := Over(w, e, rows);
            (settled ==> vs.Some?) && (vs.Some? ==> AllOf(vs.value, TypeAt(w.schema, TreeOf(e)), exact))
    decreases e, 6, |rows|
  {
    if rows != [] {
      OverSound(w, e, rows[..|rows| - 1], exact, settled);
      Sound(w, rows[|rows| - 1], e, exact, settled);
      OverMore(w, e, rows);
    }
  }

  /** The type a sum of such values has. */
  function SumOf(t: ScalarType): ScalarType {
    if Width(t) == 0 then DoubleType else if t.Int32Type? then Int64Type else t
  }

  lemma {:induction false} SumHas(vs: seq<Value>, t: ScalarType, exact: bool)
    requires AllOf(vs, t, exact) && (exact ==> !t.UnknownType?)
    ensures 2 <= Width(SumTag(vs)) <= Width(SumOf(t))
    ensures exact && AllNull(vs) ==> SumTag(vs) == Int64Type
    ensures exact && !AllNull(vs) ==> SumTag(vs) == SumOf(t)
  {
    if vs != [] {
      SumHas(vs[1..], t, exact);
      assert AllNull(vs) <==> vs[0].Null? && AllNull(vs[1..]);
    }
  }

  /** The argument's type, or none when there is no argument or a star. */
  function ArgType(types: seq<DataType>, args: seq<Expr>): Option<DataType>
    requires args != [] ==> types != []
  {
    if args == [] || Starred(args) then None else Some(types[0])
  }

  lemma FoldedHas(w: World, call: Call, values: seq<Value>, arg: Option<DataType>, exact: bool)
    requires call.AggregateCall? && (arg.None? ==> values == [])
    requires arg.Some? ==> AllOf(values, arg.value.scalar, exact) && (exact ==> !arg.value.scalar.UnknownType?)
    ensures Has(Folded(w, call, values), AggregateType(call.name, arg).scalar, exact)
  {
    var name := call.name;
    if Summing(name) {
      SumFoldedHas(w, call, values, arg, exact);
    } else if Picking(name) && values != [] {
      assert Has(values[w.pick(call, values) % |values|], arg.value.scalar, exact);
    }
  }

  lemma SumFoldedHas(w: World, call: Call, values: seq<Value>, arg: Option<DataType>, exact: bool)
    requires call.AggregateCall? && Summing(call.name) && (arg.None? ==> values == [])
    requires arg.Some? ==> AllOf(values, arg.value.scalar, exact) && (exact ==> !arg.value.scalar.UnknownType?)
    ensures Has(Folded(w, call, values), AggregateType(call.name, arg).scalar, exact)
  {
    if !AllNull(values) {
      SumHas(values, arg.value.scalar, exact);
      assert IsNumeric(arg.value.scalar) <==> Width(arg.value.scalar) > 0;
    }
  }

  /** What the rule of an aggregate found in order. */
  lemma AggregateRule(schema: Schema, call: Call, exact: bool, settled: bool)
    requires call.AggregateCall? && Checked(schema, CallTree(call), exact, settled)
    ensures var types := KidTypes(schema, CallTree(call));
            && |types| == |call.args| + (if call.filter.Some? then 1 else 0)
            && TypeAt(schema, CallTree(call)) == AggregateType(call.name, ArgType(types, call.args)).scalar
            && ConditionErrors(call.name, |call.args|, ArgType(types, call.args), types) == []
            && (call.filter.Some? ==> !NotBoolean(types[|call.args|]))
  {
    TreesAre(call.args);
    NodeVerdict(schema, CallTree(call));
  }

  lemma ArgumentsChecked(schema: Schema, call: Call, exact: bool, settled: bool)
    requires call.AggregateCall? && Checked(schema, CallTree(call), exact, settled)
    ensures CheckedAll(schema, call.args, exact, settled)
    ensures forall i :: 0 <= i < |call.args| ==>
              i < |CallTree(call).kids| && KidTypes(schema, CallTree(call))[i].scalar == TypeAt(schema, TreeOf(call.args[i]))
  {
    TreesAre(call.args);
    assert CallTree(call).kids == [] + TreesOf(call.args) + MaybeTree(call.filter);
    KidsChecked(schema, CallTree(call), [], call.args, MaybeTree(call.filter), exact, settled);
  }

  lemma FilterChecked(schema: Schema, call: Call, exact: bool, settled: bool)
    requires call.AggregateCall? && call.filter.Some? && Checked(schema, CallTree(call), exact, settled)
    ensures Checked(schema, TreeOf(call.filter.value), exact, settled)
    ensures !NotBoolean(Mapped(schema, TreeOf(call.filter.value)).typed.dataType)
  {
    TreesAre(call.args);
    AggregateRule(schema, call, exact, settled);
    assert CallTree(call).kids[|call.args|] == TreeOf(call.filter.value);
    KidChecked(schema, CallTree(call), |call.args|, exact, settled);
  }

  /** The conditions of conditional aggregates, and how many arguments they come with. */
  lemma ConditionRule(schema: Schema, call: Call, exact: bool, settled: bool)
    requires call.AggregateCall? && Checked(schema, CallTree(call), exact, settled)
    ensures RightCount(call.name, |call.args|) && CheckedAll(schema, call.args, exact, settled)
    ensures call.name == "COUNT_IF" && !Starred(call.args) ==>
              !NotBoolean(Mapped(schema, TreeOf(call.args[0])).typed.dataType)
    ensures call.name == "SUM_IF" || call.name == "AVG_IF" ==>
              !NotBoolean(Mapped(schema, TreeOf(call.args[1])).typed.dataType)
  {
    ArgumentsChecked(schema, call, exact, settled);
    AggregateRule(schema, call, exact, settled);
  }

  /** The condition of a conditional aggregate is in order, if its type is boolean or null. */
  lemma {:induction false} ConditionRuns(w: World, e: Expr, rows: seq<Row>, exact: bool)
    requires WorldFits(w, exact) && RowsFit(w.schema, rows, exact) && Checked(w.schema, TreeOf(e), exact, true)
    requires TypeAt(w.schema, TreeOf(e)).BooleanType? || TypeAt(w.schema, TreeOf(e)).NullType?
    ensures Conditions(w, e, rows)
    decreases e, 7
  {
    OverSound(w, e, rows, exact, true);
    BooleansOnly(Over(w, e, rows).value, TypeAt(w.schema, TreeOf(e)), exact);
  }

  lemma BooleansOnly(vs: seq<Value>, t: ScalarType, exact: bool)
    requires AllOf(vs, t, exact) && (t.BooleanType? || t.NullType?)
    ensures forall i :: 0 <= i < |vs| ==> BooleanOrNull(vs[i])
  {
    forall i | 0 <= i < |vs|
      ensures BooleanOrNull(vs[i])
    {
      assert Has(vs[i], t, exact);
    }
  }

  lemma {:induction false} ArgumentRuns(w: World, call: Call, rows: seq<Row>, exact: bool, settled: bool)
    requires call.AggregateCall? && WorldFits(w, exact) && RowsFit(w.schema, rows, exact)
    requires Checked(w.schema, CallTree(call), exact, settled)
    ensures var values := if call.args == [] || Starred(call.args) then Some([]) else Over(w, call.args[0], rows);
            && (settled ==> values.Some?)
            && (values.Some? ==> Has(Folded(w, call, values.value), TypeAt(w.schema, CallTree(call)), exact))
    decreases call, 0
  {
    AggregateRule(w.schema, call, exact, settled);
    ArgumentsChecked(w.schema, call, exact, settled);
    var types := KidTypes(w.schema, CallTree(call));
    var values := if call.args == [] || Starred(call.args) then Some([]) else Over(w, call.args[0], rows);
    if call.args != [] && !Starred(call.args) {
      OverSound(w, call.args[0], rows, exact, settled);
    }
    if values.Some? {
      FoldedHas(w, call, values.value, ArgType(types, call.args), exact);
    }
  }

  lemma {:induction false} AggregateSound(w: World, row: Row, call: Call, exact: bool, settled: bool)
    requires call.AggregateCall? && Fits(w, row, exact) && Checked(w.schema, CallTree(call), exact, settled)
    ensures Announced(EvalCall(w, row, call), TypeAt(w.schema, CallTree(call)), exact, settled)
    decreases call, 1
  {
    KeptFit(w, call.filter, |w.group|, exact);
    ConditionRule(w.schema, call, exact, settled);
    var rows := Kept(w, call.filter, |w.group|);
    if settled {
      AggregateRuns(w, call, exact);
    }
    if rows.Some? {
      ArgumentRuns(w, call, rows.value, exact, settled);
    }
  }

  /** The filter and the condition of an aggregate can be evaluated. */
  lemma {:induction false} AggregateRuns(w: World, call: Call, exact: bool)
    requires call.AggregateCall? && WorldFits(w, exact) && Checked(w.schema, CallTree(call), exact, true)
    ensures var rows := Kept(w, call.filter, |w.group|);
            && rows.Some? && RightCount(call.name, |call.args|)
            && (call.name == "COUNT_IF" && !Starred(call.args) ==> Conditions(w, call.args[0], rows.value))
            && (call.name == "SUM_IF" || call.name == "AVG_IF" ==> Conditions(w, call.args[1], rows.value))
    decreases call, 0
  {
    if call.filter.Some? {
      FilterChecked(w.schema, call, exact, true);
      KnownBoolean(w.schema, call.filter.value, exact);
    }
    FilterRuns(w, call.filter, |w.group|, exact);
    KeptFit(w, call.filter, |w.group|, exact);
    ConditionRule(w.schema, call, exact, true);
    var rows := Kept(w, call.filter, |w.group|).value;
    if call.name == "COUNT_IF" && !Starred(call.args) {
      KnownBoolean(w.schema, call.args[0], exact);
      ConditionRuns(w, call.args[0], rows, exact);
    }
    if call.name == "SUM_IF" || call.name == "AVG_IF" {
      KnownBoolean(w.schema, call.args[1], exact);
      ConditionRuns(w, call.args[1], rows, exact);
    }
  }

  lemma KnownBoolean(schema: Schema, e: Expr, exact: bool)
    requires Checked(schema, TreeOf(e), exact, true) && !NotBoolean(Mapped(schema, TreeOf(e)).typed.dataType)
    ensures TypeAt(schema, TreeOf(e)).BooleanType? || TypeAt(schema, TreeOf(e)).NullType?
  {
  }

  // ----- windows -----

  lemma {:induction false} OrdersAre(os: seq<OrderItem>)
    ensures |OrderTrees(os)| == |os| && forall i :: 0 <= i < |os| ==> OrderTrees(os)[i] == TreeOf(os[i].expr)
  {
    if os != [] {
      OrdersAre(os[1..]);
    }
  }

  predicate CheckedOrders(schema: Schema, os: seq<OrderItem>, exact: bool, settled: bool) {
    forall i :: 0 <= i < |os| ==> Checked(schema, TreeOf(os[i].expr), exact, settled)
  }

  lemma {:induction false} OrdersRun(w: World, row: Row, os: seq<OrderItem>, exact: bool)
    requires Fits(w, row, exact) && CheckedOrders(w.schema, os, exact, true)
    ensures OrdersReady(w, row, os)
    decreases os, 0
  {
    if os != [] {
      OrderRuns(w, row, os[0], exact);
      OrdersRun(w, row, os[1..], exact);
    }
  }

  lemma {:induction false} OrderRuns(w: World, row: Row, o: OrderItem, exact: bool)
    requires Fits(w, row, exact) && Checked(w.schema, TreeOf(o.expr), exact, true)
    ensures OrderReady(w, row, o)
    decreases o, 0
  {
    Sound(w, row, o.expr, exact, true);
  }

  /** The trees stand in the children of a checked tree. */
  predicate CheckedTrees(schema: Schema, ts: seq<Tree>, exact: bool, settled: bool) {
    forall i :: 0 <= i < |ts| ==> Checked(schema, ts[i], exact, settled)
  }

  lemma {:induction false} FrameRuns(w: World, row: Row, frame: Option<Frame>, exact: bool)
    requires Fits(w, row, exact) && CheckedTrees(w.schema, FrameTrees(frame), exact, true)
    ensures FrameReady(w, row, frame)
    decreases frame, 0
  {
    if frame.Some? {
      var start, end := BoundTrees(frame.value.start), EndTrees(frame.value.end);
      assert FrameTrees(frame)[..|start|] == start && FrameTrees(frame)[|start|..] == end;
      BoundRuns(w, row, frame.value.start, exact);
      EndRuns(w, row, frame.value.end, exact);
    }
  }

  lemma {:induction false} EndRuns(w: World, row: Row, end: Option<Bound>, exact: bool)
    requires Fits(w, row, exact) && CheckedTrees(w.schema, EndTrees(end), exact, true)
    ensures EndReady(w, row, end)
    decreases end, 0
  {
    if end.Some? {
      BoundRuns(w, row, end.value, exact);
    }
  }

  lemma {:induction false} BoundRuns(w: World, row: Row, b: Bound, exact: bool)
    requires Fits(w, row, exact) && CheckedTrees(w.schema, BoundTrees(b), exact, true)
    ensures BoundReady(w, row, b)
    decreases b, 0
  {
    if b.Offset? {
      MaybeRuns(w, row, b.offset, exact);
    }
  }

  lemma {:induction false} MaybeRuns(w: World, row: Row, x: Option<Expr>, exact: bool)
    requires Fits(w, row, exact) && CheckedTrees(w.schema, MaybeTree(x), exact, true)
    ensures MaybeReady(w, row, x)
    decreases x, 0
  {
    if x.Some? {
      assert MaybeTree(x)[0] == TreeOf(x.value);
      Sound(w, row, x.value, exact, true);
    }
  }

  lemma TreesChecked(schema: Schema, t: Tree, before: seq<Tree>, ts: seq<Tree>, after: seq<Tree>, exact: bool, settled: bool)
    requires Checked(schema, t, exact, settled) && t.kids == before + ts + after
    ensures CheckedTrees(schema, ts, exact, settled)
  {
    forall i | 0 <= i < |ts|
      ensures Checked(schema, ts[i], exact, settled)
    {
      assert t.kids[|before| + i] == ts[i];
      KidChecked(schema, t, |before| + i, exact, settled);
    }
  }

  /** All parts of a window are checked with it. */
  lemma WindowParts(schema: Schema, e: Expr, exact: bool, settled: bool)
    requires e.Window? && Checked(schema, TreeOf(e), exact, settled)
    ensures CheckedTrees(schema, [CallTree(e.call)], exact, settled) && CheckedTrees(schema, TreesOf(e.partitionBy), exact, settled)
    ensures CheckedTrees(schema, OrderTrees(e.orderBy), exact, settled) && CheckedTrees(schema, FrameTrees(e.frame), exact, settled)
  {
    var t, head, parts, orders, frame := TreeOf(e), [CallTree(e.call)], TreesOf(e.partitionBy), OrderTrees(e.orderBy), FrameTrees(e.frame);
    assert t.kids == head + parts + orders + frame;
    FourParts(head, parts, orders, frame);
    TreesChecked(schema, t, [], head, parts + orders + frame, exact, settled);
    TreesChecked(schema, t, head, parts, orders + frame, exact, settled);
    TreesChecked(schema, t, head + parts, orders, frame, exact, settled);
    TreesChecked(schema, t, head + parts + orders, frame, [], exact, settled);
  }

  lemma FourParts<T>(a: seq<T>, b: seq<T>, c: seq<T>, d: seq<T>)
    ensures a + b + c + d == [] + a + (b + c + d) == a + b + (c + d) == (a + b) + c + d == (a + b + c) + d + []
  {
  }

  lemma WindowType(schema: Schema, e: Expr)
    requires e.Window? && WellFormed(TreeOf(e)) && WellFormed(CallTree(e.call))
    ensures TypeAt(schema, TreeOf(e)) == TypeAt(schema, CallTree(e.call))
  {
    assert TreeOf(e).kids[0] == CallTree(e.call);
    WindowNodeType(schema, TreeOf(e), CallTree(e.call));
  }

  lemma WindowNodeType(schema: Schema, t: Tree, kid: Tree)
    requires t.kind.WindowNode? && WellFormed(t) && WellFormed(kid) && t.kids[0] == kid
    ensures TypeAt(schema, t) == TypeAt(schema, kid)
  {
    NodeVerdict(schema, t);
  }

  lemma {:induction false} WindowSound(w: World, row: Row, e: Expr, exact: bool, settled: bool)
    requires e.Window? && Fits(w, row, exact) && Checked(w.schema, TreeOf(e), exact, settled)
    ensures Announced(Eval(w, row, e), TypeAt(w.schema, TreeOf(e)), exact, settled)
    decreases e, 4
  {
    WindowParts(w.schema, e, exact, settled);
    assert Checked(w.schema, [CallTree(e.call)][0], exact, settled);
    WindowType(w.schema, e);
    CallSound(w, row, e.call, exact, settled);
    if settled {
      TreesAre(e.partitionBy);
      OrdersAre(e.orderBy);
      AllSound(w, row, e.partitionBy, exact, settled);
      OrdersRun(w, row, e.orderBy, exact);
      FrameRuns(w, row, e.frame, exact);
    }
  }
}
