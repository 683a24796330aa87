/**
 What the checker's types and errors mean beside soundness: the one place where it overlooks a conflict,
 when its errors are real, when a type stays known, and what the type of a CASE depends on.
 */
module TypeLaws {
  import opened Ast
  import opened Checker
  import opened Evaluation
  import opened Typing
  import opened TypeSoundness
  import opened Wrappers

  predicate Known(t: ScalarType) { !t.NullType? && !t.UnknownType? }

  // ----- branches that fit together -----

  /** Agreement is transitive over a type that says something. */
  lemma AgreeThrough(a: ScalarType, b: ScalarType, c: ScalarType)
    requires Agree(a, b) && Agree(b, c) && Known(b) && !a.UnknownType? && !c.UnknownType?
    ensures Agree(a, c)
  {
  }

  /** Branches fit together exactly if one type holds values of both. */
  lemma AgreeIffOneType(a: Tag, b: Tag, v: Value, u: Value)
    requires v.Tagged? && u.Tagged? && v.tag == a && u.tag == b
    ensures Agree(a, b) <==> exists t: ScalarType :: Known(t) && Has(v, t, false) && Has(u, t, false)
  {
    if Agree(a, b) {
      AgreeIffCommon(a, b);
      var t := CommonType(a, b).value;
      CommonHas(v, a, b, false);
      CommonHas(u, a, b, false);
      assert Known(t);
    }
  }

  /** Without an error every THEN fits the type of all of them. */
  lemma {:induction false} FoldAgrees(types: seq<DataType>, hasOperand: bool, n: nat, k: nat)
    requires (if hasOperand then 1 else 0) + 2 * n <= |types| && k < n
    requires FoldBranches(types, if hasOperand then 1 else 0, n).errors == []
    requires forall i :: 0 <= i < n ==> !ThenType(types, hasOperand, i).UnknownType?
    ensures var t := FoldBranches(types, if hasOperand then 1 else 0, n).scalar;
            Agree(ThenType(types, hasOperand, k), t) && (t.NullType? ==> ThenType(types, hasOperand, k).NullType?)
  {
    var before := FoldBranches(types, if hasOperand then 1 else 0, n - 1).scalar;
    var last := ThenType(types, hasOperand, n - 1);
    AgreeIffCommon(before, last);
    FoldIsOne(types, hasOperand, n - 1);
    if k < n - 1 {
      FoldAgrees(types, hasOperand, n - 1, k);
      if Known(before) && Known(last) {
        AgreeThrough(ThenType(types, hasOperand, k), before, last);
      }
    }
  }

  /** What the checker reports for a CASE: two THEN branches that do not fit together. */
  lemma {:induction false} IncompatibleBranchesAreReal(types: seq<DataType>, hasOperand: bool, n: nat) returns (j: nat, k: nat)
    requires (if hasOperand then 1 else 0) + 2 * n <= |types|
    requires FoldBranches(types, if hasOperand then 1 else 0, n).errors != []
    ensures j < k < n && !Agree(ThenType(types, hasOperand, j), ThenType(types, hasOperand, k))
  {
    var before := FoldBranches(types, if hasOperand then 1 else 0, n - 1);
    if before.errors != [] {
      j, k := IncompatibleBranchesAreReal(types, hasOperand, n - 1);
    } else {
      AgreeIffCommon(before.scalar, ThenType(types, hasOperand, n - 1));
      FoldIsOne(types, hasOperand, n - 1);
      j :| 0 <= j < n - 1 && before.scalar == ThenType(types, hasOperand, j);
      k := n - 1;
    }
  }

  // ----- the ELSE is not checked -----

  /**
   An ELSE that does not fit the THEN branches is not reported. A value it gives has the announced type of
   the CASE if and only if the ELSE fits every THEN.
   */
  lemma ElseFitsIff(hasOperand: bool, whens: nat, types: seq<DataType>, v: Value)
    requires |types| == (if hasOperand then 1 else 0) + 2 * whens + 1
    requires CaseVerdict(hasOperand, whens, true, types).errors == []
    requires forall k :: 0 <= k < whens ==> !ThenType(types, hasOperand, k).UnknownType?
    requires v.Tagged? && Has(v, types[|types| - 1].scalar, false)
    ensures Has(v, CaseVerdict(hasOperand, whens, true, types).dataType.scalar, false) <==>
            forall k :: 0 <= k < whens ==> Agree(ThenType(types, hasOperand, k), types[|types| - 1].scalar)
  {
    var fold, other := FoldBranches(types, if hasOperand then 1 else 0, whens).scalar, types[|types| - 1].scalar;
    AgreeIffCommon(fold, other);
    FoldIsOne(types, hasOperand, whens);
    if CommonType(fold, other).Some? {
      CommonHas(v, fold, other, false);
      forall k | 0 <= k < whens
        ensures Agree(ThenType(types, hasOperand, k), other)
      {
        FoldAgrees(types, hasOperand, whens, k);
        if Known(fold) && Known(other) {
          AgreeThrough(ThenType(types, hasOperand, k), fold, other);
        }
      }
    } else {
      OtherClass(v, fold, other);
    }
  }

  /** A value of one type never fits a type that does not agree with it. */
  lemma OtherClass(v: Value, a: ScalarType, b: ScalarType)
    requires v.Tagged? && Has(v, b, false) && !Agree(a, b)
    ensures !Has(v, a, false)
  {
  }

  /** `CASE WHEN FALSE THEN 1 ELSE 'a' END` */
  const UNCHECKED := Case(None, [When(BoolLiteral(false), IntLiteral("1"))], Some(StringLiteral("a")))

  /** It is announced as int64 without an error, and gives a string. */
  lemma ElseIsNotChecked(w: World, row: Row)
    ensures WellFormed(TreeOf(UNCHECKED)) && Mapped(w.schema, TreeOf(UNCHECKED)).errors == []
    ensures TypeAt(w.schema, TreeOf(UNCHECKED)) == Int64Type
    ensures Eval(w, row, UNCHECKED) == Gives(Tagged(StringType, w.constant(StringLiteral("a"))))
  {
    UncheckedType(w.schema, UNCHECKED);
    UncheckedValue(w, row);
  }

  /** A CASE of literals with one THEN, an integer, and a text for an ELSE. */
  predicate Mixed(e: Expr) {
    && e.Case? && e.base.None? && |e.whens| == 1 && e.whens[0].condition.BoolLiteral? && e.whens[0].result.IntLiteral?
    && e.otherwise.Some? && e.otherwise.value.StringLiteral?
  }

  lemma UncheckedType(schema: Schema, e: Expr)
    requires Mixed(e)
    ensures Clean(schema, TreeOf(e)) && TypeAt(schema, TreeOf(e)) == Int64Type
  {
    TreeWellFormed(e);
    Leaf(schema, e.whens[0].condition);
    Leaf(schema, e.whens[0].result);
    Leaf(schema, e.otherwise.value);
    OneThen(schema, e);
    OneThenErrors(schema, e);
  }

  lemma UncheckedValue(w: World, row: Row)
    ensures Eval(w, row, UNCHECKED) == Gives(Tagged(StringType, w.constant(StringLiteral("a"))))
  {
    var e := UNCHECKED;
    assert EvalWhens(w, row, e, None, 0) == EvalWhens(w, row, e, None, 1);
  }

  lemma Leaf(schema: Schema, e: Expr)
    requires e.BoolLiteral? || e.IntLiteral? || e.StringLiteral?
    ensures Clean(schema, TreeOf(e))
    ensures TypeAt(schema, TreeOf(e)) == if e.BoolLiteral? then BooleanType else if e.IntLiteral? then Int64Type else StringType
  {
    NodeVerdict(schema, TreeOf(e));
  }

  /** The type of a CASE with one THEN is that of the THEN when the ELSE does not fit. */
  lemma OneThen(schema: Schema, e: Expr)
    requires e.Case? && e.base.None? && |e.whens| == 1 && e.otherwise.Some? && WellFormed(TreeOf(e))
    requires WellFormed(TreeOf(e.whens[0].result)) && WellFormed(TreeOf(e.otherwise.value))
    ensures var a, b := TypeAt(schema, TreeOf(e.whens[0].result)), TypeAt(schema, TreeOf(e.otherwise.value));
            TypeAt(schema, TreeOf(e)) == if CommonType(a, b).Some? then CommonType(a, b).value else a
  {
    CaseTypes(schema, e);
    ElseTypeIs(schema, e);
    ThenTypeIs(schema, e, 0);
    OneThenVerdict(KidTypes(schema, TreeOf(e)));
  }

  lemma OneThenVerdict(types: seq<DataType>)
    requires |types| == 3
    ensures var a, b := ThenType(types, false, 0), types[2].scalar;
            CaseVerdict(false, 1, true, types).dataType.scalar == if CommonType(a, b).Some? then CommonType(a, b).value else a
  {
    FoldOfOne(types, false, 1, ThenType(types, false, 0));
  }

  predicate Clean(schema: Schema, t: Tree) {
    WellFormed(t) && Mapped(schema, t).errors == []
  }

  /** With one THEN there is nothing to report. */
  lemma OneThenErrors(schema: Schema, e: Expr)
    requires e.Case? && e.base.None? && |e.whens| == 1 && e.otherwise.Some? && WellFormed(TreeOf(e))
    requires Clean(schema, TreeOf(e.whens[0].condition)) && Clean(schema, TreeOf(e.whens[0].result))
    requires Clean(schema, TreeOf(e.otherwise.value))
    ensures Clean(schema, TreeOf(e))
  {
    CaseKind(e);
    CaseEnds(e);
    CaseKids(e, 0);
    ThreeClean(schema, TreeOf(e).kids, TreeOf(e.whens[0].condition), TreeOf(e.whens[0].result), TreeOf(e.otherwise.value));
    NothingToReport(schema, TreeOf(e), e.base.Some?, |e.whens|, e.otherwise.Some?);
  }

  lemma ThreeClean(schema: Schema, kids: seq<Tree>, a: Tree, b: Tree, c: Tree)
    requires |kids| == 3 && kids[0] == a && kids[1] == b && kids[2] == c
    requires Clean(schema, a) && Clean(schema, b) && Clean(schema, c)
    ensures forall i :: 0 <= i < |kids| ==> Clean(schema, kids[i])
  {
  }

  lemma NothingToReport(schema: Schema, t: Tree, hasOperand: bool, whens: nat, hasElse: bool)
    requires t.kind == CaseNode(hasOperand, whens, hasElse) && WellFormed(t) && whens == 1
    requires forall i :: 0 <= i < |t.kids| ==> Clean(schema, t.kids[i])
    ensures Clean(schema, t)
  {
    NodeVerdict(schema, t);
    FirstNeverFails(KidTypes(schema, t), if hasOperand then 1 else 0);
    forall i | 0 <= i < |t.kids|
      ensures Mapped(schema, t.kids[i]).errors == []
    {
      assert Clean(schema, t.kids[i]);
    }
    NoErrorAbove(schema, t, |t.kids|);
  }

  lemma FirstNeverFails(types: seq<DataType>, first: nat)
    requires first + 2 <= |types|
    ensures FoldBranches(types, first, 1).errors == []
  {
    assert FoldBranches(types, first, 0) == Branches(NullType, false, []);
  }

  // ----- errors are real -----

  /** An operator is reported exactly when it is stuck on values of the types its operands have. */
  lemma OperatorErrorsAreReal(w: World, e: Expr, l: DataType, r: DataType, a: Value, b: Value)
    requires e.Binary? && a.Tagged? && b.Tagged? && a.tag == l.scalar && b.tag == r.scalar
    ensures BinaryVerdict(e.op, l, r).errors != [] <==> Operate(w, e, a, b).Stuck?
  {
  }

  lemma NegationErrorsAreReal(w: World, e: Expr, t: DataType, v: Value, schema: Schema)
    requires v.Tagged? && v.tag == t.scalar
    ensures Attached(schema, MinusNode, [t]).errors != [] <==> Negated(w, e, v).Stuck?
  {
  }

  /** A column is reported exactly when the reference means none, or means several and names no table. */
  lemma ColumnErrorsAreReal(w: World, row: Row, table: Option<string>, name: string)
    requires |row| == |w.schema.columns|
    ensures ColumnVerdict(w.schema, table, name).errors != [] <==> Fetched(w, row, table, name).Stuck?
  {
    CandidatesAre(w.schema.columns, table, name);
  }

  /** A function is reported exactly when it is not there or does not take so many arguments. */
  lemma FunctionErrorsAreReal(w: World, row: Row, call: Call, types: seq<DataType>)
    requires call.FunctionCall? && |types| == |call.args| && EvalAll(w, row, call.args).Some?
    ensures FunctionVerdict(w.schema, call.name, types).errors != [] <==> EvalCall(w, row, call).Stuck?
  {
  }

  /** A filter is reported only when no row on which it has a value of its type can be decided. */
  lemma {:induction false} FilterErrorsAreReal(w: World, filter: Expr, t: DataType, i: nat, n: nat)
    requires i < n <= |w.group| && NotBoolean(t) && Eval(w, w.group[i], filter).Gives?
    requires Eval(w, w.group[i], filter).value.Tagged? && Eval(w, w.group[i], filter).value.tag == t.scalar
    ensures Kept(w, Some(filter), n) == None
    decreases n
  {
    if i < n - 1 {
      FilterErrorsAreReal(w, filter, t, i, n - 1);
    }
  }

  /** A condition is reported when the number of arguments is wrong, or its type is neither boolean nor open. */
  lemma ConditionErrorsAreReal(name: string, args: nat, arg: Option<DataType>, types: seq<DataType>)
    requires args <= |types| && (arg.Some? ==> args > 0 && arg.value == types[0])
    ensures ConditionErrors(name, args, arg, types) != [] <==>
            || !RightCount(name, args)
            || (name == "COUNT_IF" && arg.Some? && NotBoolean(arg.value))
            || ((name == "SUM_IF" || name == "AVG_IF") && NotBoolean(types[1]))
  {
  }

  /** Conditions of a type that is neither boolean nor open are stuck wherever they have a value of that type. */
  lemma WrongConditionsAreStuck(w: World, e: Expr, rows: seq<Row>, t: DataType, i: nat)
    requires i < |rows| && NotBoolean(t) && Over(w, e, rows).Some?
    requires Over(w, e, rows).value[i].Tagged? && Over(w, e, rows).value[i].tag == t.scalar
    ensures !Conditions(w, e, rows)
  {
    assert !BooleanOrNull(Over(w, e, rows).value[i]);
  }

  // ----- known types stay known -----

  /** The aggregates whose result type the checker knows. */
  predicate KnownAggregate(name: string, args: nat, starFirst: bool) {
    || Counting(name) || Summing(name) || Averaging(name) || Collecting(name)
    || (Picking(name) && args > 0 && !starFirst)
  }

  /** What is left open by the schema or by the expression itself. */
  predicate Open(schema: Schema, kind: Label) {
    match kind
    case FunctionNode(_) => true
    case ColumnNode(_, _) => exists i :: 0 <= i < |schema.columns| && schema.columns[i].dataType.scalar.UnknownType?
    case CastNode(target) => target.UnknownType?
    case AggregateNode(name, args, starFirst, _, _) => !KnownAggregate(name, args, starFirst)
    case _ => false
  }

  /** Without an error, the type of a node is known when those of its children are and nothing else is open. */
  lemma KnownStaysKnown(schema: Schema, kind: Label, types: seq<DataType>)
    requires Arity(kind, |types|) && Attached(schema, kind, types).errors == [] && !Open(schema, kind)
    requires forall i :: 0 <= i < |types| ==> Known(types[i].scalar)
    ensures !Attached(schema, kind, types).dataType.scalar.UnknownType?
  {
    match kind
    case ColumnNode(table, name) => CandidatesAre(schema.columns, table, name);
    case CaseNode(hasOperand, whens, hasElse) => KnownCase(hasOperand, whens, hasElse, types);
    case _ =>
  }

  lemma KnownCase(hasOperand: bool, whens: nat, hasElse: bool, types: seq<DataType>)
    requires |types| == (if hasOperand then 1 else 0) + 2 * whens + (if hasElse then 1 else 0)
    requires forall i :: 0 <= i < |types| ==> Known(types[i].scalar)
    ensures !CaseVerdict(hasOperand, whens, hasElse, types).dataType.scalar.UnknownType?
  {
    FoldIsOne(types, hasOperand, whens);
    if hasElse {
      AgreeIffCommon(FoldBranches(types, if hasOperand then 1 else 0, whens).scalar, types[|types| - 1].scalar);
    }
  }

  // ----- what the type of a CASE depends on -----

  /** Two lists of children with the same types in the places of the THEN branches. */
  predicate SameThens(a: seq<DataType>, withA: bool, b: seq<DataType>, withB: bool, n: nat) {
    && (if withA then 1 else 0) + 2 * n <= |a| && (if withB then 1 else 0) + 2 * n <= |b|
    && forall k :: 0 <= k < n ==> ThenType(a, withA, k) == ThenType(b, withB, k)
  }

  lemma {:induction false} FoldReadsThens(a: seq<DataType>, withA: bool, b: seq<DataType>, withB: bool, n: nat)
    requires SameThens(a, withA, b, withB, n)
    ensures FoldBranches(a, if withA then 1 else 0, n).scalar == FoldBranches(b, if withB then 1 else 0, n).scalar
  {
    if n > 0 {
      FoldReadsThens(a, withA, b, withB, n - 1);
      assert ThenType(a, withA, n - 1) == ThenType(b, withB, n - 1);
    }
  }

  predicate SameType(schema: Schema, a: Expr, b: Expr) {
    WellFormed(TreeOf(a)) && WellFormed(TreeOf(b)) && TypeAt(schema, TreeOf(a)) == TypeAt(schema, TreeOf(b))
  }

  lemma SameThenType(schema: Schema, a: Expr, b: Expr, k: nat)
    requires a.Case? && b.Case? && k < |a.whens| && k < |b.whens| && WellFormed(TreeOf(a)) && WellFormed(TreeOf(b))
    requires SameType(schema, a.whens[k].result, b.whens[k].result)
    ensures var s, t := KidTypes(schema, TreeOf(a)), KidTypes(schema, TreeOf(b));
            && FirstWhen(a) + 2 * k + 1 < |s| && FirstWhen(b) + 2 * k + 1 < |t|
            && ThenType(s, a.base.Some?, k) == ThenType(t, b.base.Some?, k)
  {
    ThenTypeIs(schema, a, k);
    ThenTypeIs(schema, b, k);
  }

  lemma ThensAlike(schema: Schema, a: Expr, b: Expr)
    requires a.Case? && b.Case? && |a.whens| == |b.whens| && WellFormed(TreeOf(a)) && WellFormed(TreeOf(b))
    requires forall k :: 0 <= k < |a.whens| ==> SameType(schema, a.whens[k].result, b.whens[k].result)
    ensures SameThens(KidTypes(schema, TreeOf(a)), a.base.Some?, KidTypes(schema, TreeOf(b)), b.base.Some?, |a.whens|)
  {
    CaseEnds(a);
    CaseEnds(b);
    var s, t := KidTypes(schema, TreeOf(a)), KidTypes(schema, TreeOf(b));
    forall k | 0 <= k < |a.whens|
      ensures ThenType(s, a.base.Some?, k) == ThenType(t, b.base.Some?, k)
    {
      assert SameType(schema, a.whens[k].result, b.whens[k].result);
      SameThenType(schema, a, b, k);
    }
  }

  /** Operand and conditions never matter: branches of the same types give the same type. */
  lemma CaseReadsBranchesOnly(schema: Schema, a: Expr, b: Expr)
    requires a.Case? && b.Case? && |a.whens| == |b.whens| && a.otherwise.Some? == b.otherwise.Some?
    requires forall k :: 0 <= k < |a.whens| ==> SameType(schema, a.whens[k].result, b.whens[k].result)
    requires a.otherwise.Some? ==> SameType(schema, a.otherwise.value, b.otherwise.value)
    ensures SameType(schema, a, b)
  {
    TreeWellFormed(a);
    TreeWellFormed(b);
    ThensAlike(schema, a, b);
    ElsesAlike(schema, a, b);
    SameVerdict(schema, a, b);
  }

  /** The type of the THEN branches, and of the ELSE where it fits. */
  function BranchType(fold: ScalarType, other: Option<ScalarType>): ScalarType {
    if other.None? || CommonType(fold, other.value).None? then fold else CommonType(fold, other.value).value
  }

  function ThenFold(schema: Schema, e: Expr): ScalarType
    requires e.Case? && WellFormed(TreeOf(e)) && FirstWhen(e) + 2 * |e.whens| <= |TreeOf(e).kids|
  {
    FoldBranches(KidTypes(schema, TreeOf(e)), FirstWhen(e), |e.whens|).scalar
  }

  function ElseType(schema: Schema, e: Expr): Option<ScalarType>
    requires e.Case? && WellFormed(TreeOf(e))
  {
    var types := KidTypes(schema, TreeOf(e));
    if e.otherwise.None? || types == [] then None else Some(types[|types| - 1].scalar)
  }

  lemma CaseBranchType(schema: Schema, e: Expr)
    requires e.Case? && WellFormed(TreeOf(e))
    ensures FirstWhen(e) + 2 * |e.whens| <= |TreeOf(e).kids|
    ensures TypeAt(schema, TreeOf(e)) == BranchType(ThenFold(schema, e), ElseType(schema, e))
  {
    CaseTypes(schema, e);
    VerdictBranches(e.base.Some?, |e.whens|, e.otherwise.Some?, KidTypes(schema, TreeOf(e)));
  }

  lemma VerdictBranches(hasOperand: bool, whens: nat, hasElse: bool, types: seq<DataType>)
    requires |types| == (if hasOperand then 1 else 0) + 2 * whens + (if hasElse then 1 else 0)
    ensures CaseVerdict(hasOperand, whens, hasElse, types).dataType.scalar
         == BranchType(FoldBranches(types, if hasOperand then 1 else 0, whens).scalar,
                       if hasElse then Some(types[|types| - 1].scalar) else None)
  {
  }

  lemma SameVerdict(schema: Schema, a: Expr, b: Expr)
    requires a.Case? && b.Case? && |a.whens| == |b.whens| && a.otherwise.Some? == b.otherwise.Some?
    requires WellFormed(TreeOf(a)) && WellFormed(TreeOf(b))
    requires SameThens(KidTypes(schema, TreeOf(a)), a.base.Some?, KidTypes(schema, TreeOf(b)), b.base.Some?, |a.whens|)
    requires ElseType(schema, a) == ElseType(schema, b)
    ensures TypeAt(schema, TreeOf(a)) == TypeAt(schema, TreeOf(b))
  {
    CaseBranchType(schema, a);
    CaseBranchType(schema, b);
    FoldReadsThens(KidTypes(schema, TreeOf(a)), a.base.Some?, KidTypes(schema, TreeOf(b)), b.base.Some?, |a.whens|);
  }

  lemma ElsesAlike(schema: Schema, a: Expr, b: Expr)
    requires a.Case? && b.Case? && WellFormed(TreeOf(a)) && WellFormed(TreeOf(b)) && a.otherwise.Some? == b.otherwise.Some?
    requires a.otherwise.Some? ==> SameType(schema, a.otherwise.value, b.otherwise.value)
    ensures ElseType(schema, a) == ElseType(schema, b)
  {
    if a.otherwise.Some? {
      ElseTypeIs(schema, a);
      ElseTypeIs(schema, b);
    }
  }

  /** The type of a CASE, from those of its children. */
  lemma CaseTypes(schema: Schema, e: Expr)
    requires e.Case? && WellFormed(TreeOf(e))
    ensures var types := KidTypes(schema, TreeOf(e));
            && |types| == FirstWhen(e) + 2 * |e.whens| + (if e.otherwise.Some? then 1 else 0)
            && TypeAt(schema, TreeOf(e)) == CaseVerdict(e.base.Some?, |e.whens|, e.otherwise.Some?, types).dataType.scalar
  {
    CaseKind(e);
    CaseNodeTypes(schema, TreeOf(e), e.base.Some?, |e.whens|, e.otherwise.Some?);
  }

  lemma {:induction false} FoldOfOne(types: seq<DataType>, hasOperand: bool, n: nat, t: ScalarType)
    requires (if hasOperand then 1 else 0) + 2 * n <= |types| && n > 0
    requires forall k :: 0 <= k < n ==> ThenType(types, hasOperand, k) == t
    ensures FoldBranches(types, if hasOperand then 1 else 0, n).scalar == t
  {
    assert ThenType(types, hasOperand, n - 1) == t;
    if n > 1 {
      FoldOfOne(types, hasOperand, n - 1, t);
    }
  }

  /** A CASE whose branches all have one type has that type. */
  lemma CaseOfOneType(schema: Schema, e: Expr, t: ScalarType)
    requires e.Case? && e.whens != [] && WellFormed(TreeOf(e))
    requires forall k :: 0 <= k < |e.whens| ==>
               WellFormed(TreeOf(e.whens[k].result)) && TypeAt(schema, TreeOf(e.whens[k].result)) == t
    requires e.otherwise.Some? ==> WellFormed(TreeOf(e.otherwise.value)) && TypeAt(schema, TreeOf(e.otherwise.value)) == t
    ensures TypeAt(schema, TreeOf(e)) == t
  {
    CaseTypes(schema, e);
    if e.otherwise.Some? {
      ElseTypeIs(schema, e);
    }
    var types := KidTypes(schema, TreeOf(e));
    forall k | 0 <= k < |e.whens|
      ensures ThenType(types, e.base.Some?, k) == t
    {
      ThenTypeIs(schema, e, k);
    }
    FoldOfOne(types, e.base.Some?, |e.whens|, t);
  }

  // ----- the types in the heap -----

  /** What an inferred node announces is what its expression evaluates to. */
  lemma InferredIsSound(n: Node, w: World, row: Row, e: Expr, exact: bool, settled: bool)
    requires n.Valid() && n.tree == TreeOf(e) && WellFormed(n.tree) && n.Annotated(Mapped(w.schema, n.tree).typed)
    requires Fits(w, row, exact) && Checked(w.schema, TreeOf(e), exact, settled)
    ensures n.dataType.Some? && Announced(Eval(w, row, e), n.dataType.value.scalar, exact, settled)
  {
    Sound(w, row, e, exact, settled);
  }
}
