/**
 What the checker's nullable flag means. In a world where computing never fails and nothing is null that the
 schema announces as not null, an expression announced as not null is never null, except through a
 comparison with a null operand, which the checker announces as not null all the same.
 */
module Nullability {
  import opened Ast
  import opened Evaluation
  import opened Tokens
  import opened Typing
  import opened TypeSoundness
  import opened Wrappers

  // ----- what the world promises -----

  predicate NullFits(v: Value, nullable: bool) { v.Null? ==> nullable }

  predicate RowNulls(schema: Schema, row: Row) {
    |row| == |schema.columns| && forall i :: 0 <= i < |row| ==> NullFits(row[i], schema.columns[i].dataType.nullable)
  }

  predicate AllNullFit(vs: seq<Value>, ts: seq<DataType>) {
    |vs| == |ts| && forall i :: 0 <= i < |vs| ==> NullFits(vs[i], ts[i].nullable)
  }

  predicate FunctionNulls(w: World, name: string, vs: seq<Value>, ts: seq<DataType>) {
    name in w.schema.functions && TakesCount(w.schema.functions[name], |ts|) && AllNullFit(vs, ts) ==>
      NullFits(w.call(name, vs), w.schema.functions[name].resolve(ts).nullable)
  }

  ghost predicate Total(w: World) {
    && (forall e, vs :: w.compute(e, vs).Some?)
    && (forall i :: 0 <= i < |w.group| ==> RowNulls(w.schema, w.group[i]))
    && (forall name, vs, ts :: FunctionNulls(w, name, vs, ts))
  }

  // ----- where the flag can be trusted -----

  function NullableAt(schema: Schema, t: Tree): bool
    requires WellFormed(t)
  {
    Mapped(schema, t).typed.dataType.nullable
  }

  /** Comparisons have operands that are announced as not null, and casts name a type. */
  predicate Cautious(kind: Label, types: seq<DataType>)
    requires Arity(kind, |types|)
  {
    match kind
    case BinaryNode(op) => Comparing(op) ==> !types[0].nullable && !types[1].nullable
    case CastNode(target) => CastTarget(target)
    case _ => true
  }

  predicate CautiousTree(schema: Schema, t: Tree)
    requires WellFormed(t)
    decreases t
  {
    Cautious(t.kind, KidTypes(schema, t)) && forall i :: 0 <= i < |t.kids| ==> CautiousTree(schema, t.kids[i])
  }

  predicate Trusted(schema: Schema, t: Tree) {
    WellFormed(t) && CautiousTree(schema, t)
  }

  /** The rule of a node gives its flag. */
  lemma FlagIs(schema: Schema, t: Tree)
    requires WellFormed(t)
    ensures NullableAt(schema, t) == Attached(schema, t.kind, KidTypes(schema, t)).dataType.nullable
  {
    forall i | 0 <= i < |t.kids|
      ensures MappedKids(schema, t, |t.kids|).typed[i] == Mapped(schema, t.kids[i]).typed
    {
      MappedOneByOne(schema, t, |t.kids|, i);
    }
    assert TypesOf(MappedKids(schema, t, |t.kids|).typed) == KidTypes(schema, t);
  }

  lemma KidTrusted(schema: Schema, t: Tree, i: nat, kid: Tree)
    requires Trusted(schema, t) && i < |t.kids| && t.kids[i] == kid
    ensures Trusted(schema, kid) && KidTypes(schema, t)[i].nullable == NullableAt(schema, kid)
  {
  }

  // ----- expressions announced as not null -----

  /** Null only where announced. */
  predicate Spoken(schema: Schema, e: Expr, o: Outcome) {
    WellFormed(TreeOf(e)) && (o.Gives? ==> NullFits(o.value, NullableAt(schema, TreeOf(e))))
  }

  lemma {:induction false} NullsAreAnnounced(w: World, row: Row, e: Expr)
    requires Total(w) && RowNulls(w.schema, row) && Trusted(w.schema, TreeOf(e))
    ensures Spoken(w.schema, e, Eval(w, row, e))
    decreases e, 5
  {
    match e
    case ColumnRef(table, name) => ColumnAnnounced(w, row, e);
    case Binary(_, _, _) => BinaryAnnounced(w, row, e);
    case Negate(_) => NegateAnnounced(w, row, e);
    case Cast(_, _) => CastAnnounced(w, row, e);
    case Case(_, _, _) => CaseAnnounced(w, row, e);
    case CallExpr(call) => CallAnnounced(w, row, call);
    case Window(_, _, _, _) => WindowAnnounced(w, row, e);
    case NullLiteral => NullAnnounced(w, row, e);
    case _ => NeverNull(w, row, e);
  }

  lemma NullAnnounced(w: World, row: Row, e: Expr)
    requires e.NullLiteral? && Trusted(w.schema, TreeOf(e))
    ensures Spoken(w.schema, e, Eval(w, row, e))
  {
    FlagIs(w.schema, TreeOf(e));
  }

  lemma {:induction false} NegateAnnounced(w: World, row: Row, e: Expr)
    requires e.Negate? && Total(w) && RowNulls(w.schema, row) && Trusted(w.schema, TreeOf(e))
    ensures Spoken(w.schema, e, Eval(w, row, e))
    decreases e, 4
  {
    FlagIs(w.schema, TreeOf(e));
    KidTrusted(w.schema, TreeOf(e), 0, TreeOf(e.operand));
    NullsAreAnnounced(w, row, e.operand);
    var a := Eval(w, row, e.operand);
    if a.Gives? {
      assert w.compute(e, [a.value]).Some?;
    }
  }

  lemma {:induction false} CastAnnounced(w: World, row: Row, e: Expr)
    requires e.Cast? && Total(w) && RowNulls(w.schema, row) && Trusted(w.schema, TreeOf(e))
    ensures Spoken(w.schema, e, Eval(w, row, e))
    decreases e, 4
  {
    FlagIs(w.schema, TreeOf(e));
    KidTrusted(w.schema, TreeOf(e), 0, TreeOf(e.expr));
    NullsAreAnnounced(w, row, e.expr);
    var a := Eval(w, row, e.expr);
    if a.Gives? {
      assert w.compute(e, [a.value]).Some?;
    }
  }

  lemma {:induction false} WindowAnnounced(w: World, row: Row, e: Expr)
    requires e.Window? && Total(w) && RowNulls(w.schema, row) && Trusted(w.schema, TreeOf(e))
    ensures Spoken(w.schema, e, Eval(w, row, e))
    decreases e, 4
  {
    FlagIs(w.schema, TreeOf(e));
    KidTrusted(w.schema, TreeOf(e), 0, CallTree(e.call));
    CallAnnounced(w, row, e.call);
  }

  /** Literals and predicates other than comparisons are computed without a null. */
  lemma NeverNull(w: World, row: Row, e: Expr)
    requires Total(w) && (IsPredicate(e) || e.IntLiteral? || e.FloatLiteral? || e.StringLiteral? || e.BoolLiteral? || e.Star?)
    ensures Eval(w, row, e).Gives? ==> Eval(w, row, e).value.Tagged?
  {
  }

  lemma ColumnAnnounced(w: World, row: Row, e: Expr)
    requires e.ColumnRef? && RowNulls(w.schema, row) && Trusted(w.schema, TreeOf(e))
    ensures Spoken(w.schema, e, Eval(w, row, e))
  {
    FlagIs(w.schema, TreeOf(e));
    CandidatesAre(w.schema.columns, e.table, e.column);
  }

  lemma OperatedAnnounced(w: World, e: Expr, l: DataType, r: DataType, a: Value, b: Value)
    requires e.Binary? && Total(w) && NullFits(a, l.nullable) && NullFits(b, r.nullable)
    requires Comparing(e.op) ==> !l.nullable && !r.nullable
    ensures var o := Operate(w, e, a, b); o.Gives? ==> NullFits(o.value, BinaryVerdict(e.op, l, r).dataType.nullable)
  {
    assert w.compute(e, [a, b]).Some?;
  }

  lemma {:induction false} BinaryAnnounced(w: World, row: Row, e: Expr)
    requires e.Binary? && Total(w) && RowNulls(w.schema, row) && Trusted(w.schema, TreeOf(e))
    ensures Spoken(w.schema, e, Eval(w, row, e))
    decreases e, 4
  {
    var t := TreeOf(e);
    FlagIs(w.schema, t);
    KidTrusted(w.schema, t, 0, TreeOf(e.left));
    KidTrusted(w.schema, t, 1, TreeOf(e.right));
    NullsAreAnnounced(w, row, e.left);
    NullsAreAnnounced(w, row, e.right);
    var types, a, b := KidTypes(w.schema, t), Eval(w, row, e.left), Eval(w, row, e.right);
    if a.Gives? && b.Gives? {
      OperatedAnnounced(w, e, types[0], types[1], a.value, b.value);
    }
  }

  // ----- CASE -----

  lemma {:induction false} FoldNullable(types: seq<DataType>, first: nat, n: nat, k: nat)
    requires first + 2 * n <= |types| && k < n && types[first + 2 * k + 1].nullable
    ensures FoldBranches(types, first, n).nullable
  {
    if k < n - 1 {
      FoldNullable(types, first, n - 1, k);
    }
  }

  lemma {:induction false} CaseAnnounced(w: World, row: Row, e: Expr)
    requires e.Case? && Total(w) && RowNulls(w.schema, row) && Trusted(w.schema, TreeOf(e))
    ensures Spoken(w.schema, e, Eval(w, row, e))
    decreases e, 4
  {
    if e.base.None? {
      WhensAnnounced(w, row, e, None, 0);
    } else if Eval(w, row, e.base.value).Gives? {
      WhensAnnounced(w, row, e, Some(Eval(w, row, e.base.value).value), 0);
    }
  }

  lemma {:induction false} WhensAnnounced(w: World, row: Row, e: Expr, base: Option<Value>, i: nat)
    requires e.Case? && i <= |e.whens| && Total(w) && RowNulls(w.schema, row) && Trusted(w.schema, TreeOf(e))
    ensures Spoken(w.schema, e, EvalWhens(w, row, e, base, i))
    decreases e, 3, |e.whens| - i
  {
    if i == |e.whens| {
      ElseAnnounced(w, row, e);
    } else {
      ThenAnnounced(w, row, e, i);
      WhensAnnounced(w, row, e, base, i + 1);
    }
  }

  lemma VerdictCovers(hasOperand: bool, whens: nat, hasElse: bool, types: seq<DataType>, k: nat)
    requires |types| == (if hasOperand then 1 else 0) + 2 * whens + (if hasElse then 1 else 0) && k < whens
    requires types[(if hasOperand then 1 else 0) + 2 * k + 1].nullable
    ensures CaseVerdict(hasOperand, whens, hasElse, types).dataType.nullable
  {
    FoldNullable(types, if hasOperand then 1 else 0, whens, k);
  }

  lemma TreeCovers(schema: Schema, t: Tree, hasOperand: bool, whens: nat, hasElse: bool, k: nat, kid: Tree)
    requires t.kind == CaseNode(hasOperand, whens, hasElse) && Trusted(schema, t) && k < whens
    requires t.kids[(if hasOperand then 1 else 0) + 2 * k + 1] == kid
    ensures Covers(schema, t, kid)
  {
    FlagIs(schema, t);
    KidTrusted(schema, t, (if hasOperand then 1 else 0) + 2 * k + 1, kid);
    if NullableAt(schema, kid) {
      VerdictCovers(hasOperand, whens, hasElse, KidTypes(schema, t), k);
    }
  }

  predicate Covers(schema: Schema, t: Tree, kid: Tree) {
    Trusted(schema, t) && Trusted(schema, kid) && (NullableAt(schema, kid) ==> NullableAt(schema, t))
  }

  lemma ThenCovered(schema: Schema, e: Expr, k: nat)
    requires e.Case? && k < |e.whens| && Trusted(schema, TreeOf(e))
    ensures Covers(schema, TreeOf(e), TreeOf(e.whens[k].result))
  {
    CaseKids(e, k);
    TreeCovers(schema, TreeOf(e), e.base.Some?, |e.whens|, e.otherwise.Some?, k, TreeOf(e.whens[k].result));
  }

  lemma {:induction false} ThenAnnounced(w: World, row: Row, e: Expr, k: nat)
    requires e.Case? && k < |e.whens| && Total(w) && RowNulls(w.schema, row) && Trusted(w.schema, TreeOf(e))
    ensures Spoken(w.schema, e, Eval(w, row, e.whens[k].result))
    decreases e, 2
  {
    ThenCovered(w.schema, e, k);
    NullsAreAnnounced(w, row, e.whens[k].result);
  }

  lemma {:induction false} ElseAnnounced(w: World, row: Row, e: Expr)
    requires e.Case? && Total(w) && RowNulls(w.schema, row) && Trusted(w.schema, TreeOf(e))
    ensures Spoken(w.schema, e, if e.otherwise.None? then Gives(Null) else Eval(w, row, e.otherwise.value))
    decreases e, 2
  {
    CaseKind(e);
    if e.otherwise.Some? {
      CaseEnds(e);
      LastCovers(w.schema, TreeOf(e), e.base.Some?, |e.whens|, TreeOf(e.otherwise.value));
      NullsAreAnnounced(w, row, e.otherwise.value);
    } else {
      MissingElse(w.schema, TreeOf(e), e.base.Some?, |e.whens|);
    }
  }

  lemma LastCovers(schema: Schema, t: Tree, hasOperand: bool, whens: nat, kid: Tree)
    requires t.kind == CaseNode(hasOperand, whens, true) && Trusted(schema, t) && t.kids[|t.kids| - 1] == kid
    ensures Covers(schema, t, kid)
  {
    FlagIs(schema, t);
    KidTrusted(schema, t, |t.kids| - 1, kid);
  }

  lemma MissingElse(schema: Schema, t: Tree, hasOperand: bool, whens: nat)
    requires t.kind == CaseNode(hasOperand, whens, false) && WellFormed(t)
    ensures NullableAt(schema, t)
  {
    FlagIs(schema, t);
  }

  // ----- calls -----

  predicate SpokenCall(schema: Schema, call: Call, o: Outcome) {
    WellFormed(CallTree(call)) && (o.Gives? ==> NullFits(o.value, NullableAt(schema, CallTree(call))))
  }

  lemma {:induction false} CallAnnounced(w: World, row: Row, call: Call)
    requires Total(w) && RowNulls(w.schema, row) && Trusted(w.schema, CallTree(call))
    ensures SpokenCall(w.schema, call, EvalCall(w, row, call))
    decreases call, 2
  {
    if call.FunctionCall? {
      FunctionAnnounced(w, row, call);
    } else {
      AggregateAnnounced(w, row, call);
    }
  }

  lemma AggregateAnnounced(w: World, row: Row, call: Call)
    requires call.AggregateCall? && Trusted(w.schema, CallTree(call))
    ensures SpokenCall(w.schema, call, EvalCall(w, row, call))
  {
    AggregateFlag(w.schema, call);
    FoldedAnnounced(w, call);
  }

  lemma AggregateFlag(schema: Schema, call: Call)
    requires call.AggregateCall? && WellFormed(CallTree(call))
    ensures NullableAt(schema, CallTree(call)) == (!Counting(call.name) && !Collecting(call.name))
  {
    FlagIs(schema, CallTree(call));
  }

  lemma FoldedAnnounced(w: World, call: Call)
    ensures forall vs :: NullFits(Folded(w, call, vs), !Counting(call.name) && !Collecting(call.name))
  {
  }

  lemma {:induction false} FunctionAnnounced(w: World, row: Row, call: Call)
    requires call.FunctionCall? && Total(w) && RowNulls(w.schema, row) && Trusted(w.schema, CallTree(call))
    ensures SpokenCall(w.schema, call, EvalCall(w, row, call))
    decreases call, 1
  {
    var t, values := CallTree(call), EvalAll(w, row, call.args);
    TreesAre(call.args);
    forall i | 0 <= i < |call.args|
      ensures Trusted(w.schema, TreeOf(call.args[i])) && KidTypes(w.schema, t)[i].nullable == NullableAt(w.schema, TreeOf(call.args[i]))
    {
      KidTrusted(w.schema, t, i, TreeOf(call.args[i]));
    }
    AllAnnounced(w, row, call.args);
    FlagIs(w.schema, t);
    if values.Some? {
      forall i | 0 <= i < |call.args|
        ensures NullFits(values.value[i], KidTypes(w.schema, t)[i].nullable)
      {
        assert Spoken(w.schema, call.args[i], Gives(values.value[i]));
      }
      assert FunctionNulls(w, call.name, values.value, KidTypes(w.schema, t));
    }
  }

  lemma {:induction false} AllAnnounced(w: World, row: Row, es: seq<Expr>)
    requires Total(w) && RowNulls(w.schema, row) && forall i :: 0 <= i < |es| ==> Trusted(w.schema, TreeOf(es[i]))
    ensures EvalAll(w, row, es).Some? ==>
              forall i :: 0 <= i < |es| ==> Spoken(w.schema, es[i], Gives(EvalAll(w, row, es).value[i]))
    decreases es, 0
  {
    if es != [] {
      NullsAreAnnounced(w, row, es[0]);
      AllAnnounced(w, row, es[1..]);
      if EvalAll(w, row, es).Some? {
        var rest := EvalAll(w, row, es[1..]).value;
        forall i | 0 < i < |es|
          ensures Spoken(w.schema, es[i], Gives(EvalAll(w, row, es).value[i]))
        {
          Shifted(Eval(w, row, es[0]).value, rest, es, i);
          assert Spoken(w.schema, es[1..][i - 1], Gives(rest[i - 1]));
        }
      }
    }
  }

  // ----- the other direction, and the exception -----

  /** What may be null whatever its operands are. */
  predicate NullsItself(schema: Schema, kind: Label) {
    match kind
    case NullNode | FunctionNode(_) => true
    case ColumnNode(_, _) => exists i :: 0 <= i < |schema.columns| && schema.columns[i].dataType.nullable
    case CaseNode(_, _, hasElse) => !hasElse
    case AggregateNode(name, _, _, _, _) => !Counting(name) && !Collecting(name)
    case _ => false
  }

  /** Without a nullable operand a node is announced as not null, unless it is an error or null by itself. */
  lemma NotNullStays(schema: Schema, kind: Label, types: seq<DataType>)
    requires Arity(kind, |types|) && Attached(schema, kind, types).errors == [] && !NullsItself(schema, kind)
    requires forall i :: 0 <= i < |types| ==> !types[i].nullable
    ensures !Attached(schema, kind, types).dataType.nullable
  {
    match kind
    case ColumnNode(table, name) => ColumnNotNull(schema, table, name);
    case CaseNode(hasOperand, whens, _) => FoldNotNull(types, if hasOperand then 1 else 0, whens);
    case _ =>
  }

  lemma ColumnNotNull(schema: Schema, table: Option<string>, name: string)
    requires ColumnVerdict(schema, table, name).errors == []
    requires forall i :: 0 <= i < |schema.columns| ==> !schema.columns[i].dataType.nullable
    ensures !ColumnVerdict(schema, table, name).dataType.nullable
  {
    CandidatesAre(schema.columns, table, name);
  }

  lemma {:induction false} FoldNotNull(types: seq<DataType>, first: nat, n: nat)
    requires first + 2 * n <= |types| && forall i :: 0 <= i < |types| ==> !types[i].nullable
    ensures !FoldBranches(types, first, n).nullable
  {
    if n > 0 {
      FoldNotNull(types, first, n - 1);
    }
  }

  /** A comparison is null exactly when an operand is, and never announced as nullable. */
  lemma ComparisonsOverlookNulls(w: World, e: Expr, l: DataType, r: DataType, a: Value, b: Value)
    requires e.Binary? && Comparing(e.op) && Total(w) && Operate(w, e, a, b).Gives?
    ensures !BinaryVerdict(e.op, l, r).dataType.nullable
    ensures Operate(w, e, a, b).value.Null? <==> a.Null? || b.Null?
  {
    assert w.compute(e, [a, b]).Some?;
  }
}
