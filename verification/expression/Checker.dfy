/** The in-place type checker (packages/lattik-expression/src/checker/check.ts) on syntax trees in the heap. */
module Checker {
  import opened Typing
  import opened Wrappers

  // ----- nodes in the heap -----

  /** A syntax tree node; checking overwrites `dataType` and nothing else. */
  class Node {
    const kind: Label
    const kids: seq<Node>
    var dataType: Option<DataType>
    /** The tree below this node, and the nodes it consists of. */
    ghost const tree: Tree
    ghost const repr: set<Node>

    ghost predicate Valid()
      decreases repr
    {
      && this in repr && tree.kind == kind && |tree.kids| == |kids|
      && (forall i :: 0 <= i < |kids| ==>
            kids[i] in repr && kids[i].repr < repr && this !in kids[i].repr && kids[i].tree == tree.kids[i] && kids[i].Valid())
      && (forall i, j :: 0 <= i < j < |kids| ==> kids[i].repr !! kids[j].repr)
    }

    /** The types in the heap are those of `typed`, on every node. */
    ghost predicate Annotated(typed: Typed)
      requires Valid()
      reads repr
      decreases repr
    {
      && dataType == Some(typed.dataType) && typed.kind == kind && |typed.kids| == |kids|
      && forall i :: 0 <= i < |kids| ==> kids[i].Annotated(typed.kids[i])
    }

    constructor (kind: Label, kids: seq<Node>, ghost tree: Tree, ghost repr: set<Node>)
      requires tree.kind == kind && |tree.kids| == |kids|
      requires forall i :: 0 <= i < |kids| ==> kids[i].repr <= repr && kids[i].tree == tree.kids[i] && kids[i].Valid()
      requires forall i, j :: 0 <= i < j < |kids| ==> kids[i].repr !! kids[j].repr
      ensures Valid() && this.tree == tree && this.repr == repr + {this} && dataType == None
    {
      this.kind := kind;
      this.kids := kids;
      this.tree := tree;
      this.repr := repr + {this};
      dataType := None;
    }

    /** The first `n` children carry the types of the bottom-up pass. */
    ghost predicate KidsAnnotated(typed: seq<Typed>)
      requires Valid()
      reads repr
    {
      |typed| <= |kids| && forall i :: 0 <= i < |typed| ==> kids[i].Annotated(typed[i])
    }

    /** Infers one child; its earlier siblings keep their types. */
    method InferKid(schema: Schema, i: nat, ghost before: seq<Typed>) returns (dataType: DataType, errors: seq<CheckError>)
      requires Valid() && i < |kids| && WellFormed(tree.kids[i]) && |before| == i && KidsAnnotated(before)
      modifies kids[i].repr
      ensures KidsAnnotated(before + [Mapped(schema, tree.kids[i]).typed])
      ensures dataType == Mapped(schema, tree.kids[i]).typed.dataType && errors == Mapped(schema, tree.kids[i]).errors
      decreases repr, 0
    {
      errors := kids[i].Infer(schema);
      dataType := kids[i].dataType.value;
      forall j | 0 <= j < i
        ensures kids[j].Annotated(before[j])
      {
        assert kids[j].repr !! kids[i].repr;
      }
    }

    /** The first `n` children are inferred, with these types and errors. */
    ghost predicate Inferred(schema: Schema, n: nat, types: seq<DataType>, errors: seq<CheckError>)
      requires Valid() && WellFormed(tree) && n <= |kids|
      reads repr
    {
      var passes := MappedKids(schema, tree, n);
      types == TypesOf(passes.typed) && errors == passes.errors && KidsAnnotated(passes.typed)
    }

    /** Infers the next child and takes in its type and errors. */
    method InferNext(schema: Schema, i: nat, types: seq<DataType>, errors: seq<CheckError>)
      returns (types': seq<DataType>, errors': seq<CheckError>)
      requires Valid() && WellFormed(tree) && i < |kids| && Inferred(schema, i, types, errors)
      modifies kids[i].repr
      ensures Inferred(schema, i + 1, types', errors')
      decreases repr, 1
    {
      ghost var before := MappedKids(schema, tree, i);
      ghost var last := Mapped(schema, tree.kids[i]);
      var t, more := InferKid(schema, i, before.typed);
      types', errors' := types + [t], errors + more;
      assert MappedKids(schema, tree, i + 1) == Passes(before.typed + [last.typed], before.errors + last.errors);
      assert TypesOf(before.typed + [last.typed]) == TypesOf(before.typed) + [last.typed.dataType];
    }

    /** Infers the children in order; what their nodes carried before does not matter. */
    method InferKids(schema: Schema) returns (types: seq<DataType>, errors: seq<CheckError>)
      requires Valid() && WellFormed(tree)
      modifies repr - {this}
      ensures Inferred(schema, |kids|, types, errors)
      decreases repr, 2
    {
      types, errors := [], [];
      for i := 0 to |kids|
        invariant Inferred(schema, i, types, errors)
      {
        types, errors := InferNext(schema, i, types, errors);
      }
    }

    /**
     Attaches types bottom-up, in place. Whatever types an earlier check left behind, the result is
     that of the pass over a fresh tree.
     */
    method Infer(schema: Schema) returns (errors: seq<CheckError>)
      requires Valid() && WellFormed(tree)
      modifies repr
      ensures Annotated(Mapped(schema, tree).typed) && errors == Mapped(schema, tree).errors
      decreases repr, 3
    {
      var types, below := InferKids(schema);
      ghost var typed := MappedKids(schema, tree, |kids|).typed;
      var v := Attached(schema, kind, types);
      dataType := Some(v.dataType);
      assert KidsAnnotated(typed);
      errors := below + v.errors;
    }
  }

  /** New nodes for a tree, without types, as the parser allocates them. */
  method Allocate(t: Tree) returns (n: Node)
    ensures n.Valid() && n.tree == t && fresh(n.repr) && n.dataType == None
    decreases t
  {
    var kids: seq<Node> := [];
    ghost var repr: set<Node> := {};
    for i := 0 to |t.kids|
      invariant |kids| == i && fresh(repr)
      invariant forall j :: 0 <= j < i ==> kids[j].repr <= repr && kids[j].tree == t.kids[j] && kids[j].Valid()
      invariant forall j, k :: 0 <= j < k < i ==> kids[j].repr !! kids[k].repr
    {
      var kid := Allocate(t.kids[i]);
      kids := kids + [kid];
      repr := repr + kid.repr;
    }
    n := new Node(t.kind, kids, t, repr);
  }
}
