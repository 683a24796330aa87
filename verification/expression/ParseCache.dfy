/**
 The parse cache (packages/lattik-expression/src/parser/parse.ts:44-96): at most 256 results in
 recency order, handed out by reference, and safe to check in place under any schema.
 */
module ParseCache {
  import opened Checker
  import opened LruCache
  import opened RoundTrip
  import opened TreeReading
  import opened Typing
  import opened Wrappers
  import Lexer
  import LexerSpec
  import ParserClass
  import ParserSpec

  // ----- the cache -----

  /** A parse result; trees are shared by reference between callers. */
  datatype Entry = Entry(expr: Option<Node>, lexErrors: seq<LexerSpec.LexError>, parseErrors: seq<ParserSpec.ParseError>)

  /** What a caller reads off a result: the whole expression, every literal, name and flag of it, and the errors. */
  ghost function Returned(e: Entry): Outcome
    requires e.expr.Some? ==> WellFormed(e.expr.value.tree)
  {
    Outcome(if e.expr.Some? then Some(ExprOf(e.expr.value.tree)) else None, e.lexErrors, e.parseErrors)
  }

  /** The entry is what an uncached parse gives, laid out node by node; only the types in the nodes are left open. */
  ghost predicate Right(input: string, e: Entry) {
    && (e.expr.Some? ==> e.expr.value.Valid() && WellFormed(e.expr.value.tree))
    && Returned(e) == ParseText(input)
    && (e.expr.Some? ==> e.expr.value.tree == TreeOf(Returned(e).expr.value))
  }

  method ParseUncached(input: string) returns (e: Entry)
    ensures Right(input, e)
    ensures e.expr.Some? ==> fresh(e.expr.value.repr)
  {
    var tokens, lexErrors := Lexer.Tokenize(input);
    if |lexErrors| > 0 {
      return Entry(None, lexErrors, []);
    }
    var expr, errors := ParserClass.ParseAll(tokens);
    match expr {
      case None => e := Entry(None, [], errors);
      case Some(x) =>
        TreeIsRead(x);
        var node := Allocate(TreeOf(x));
        e := Entry(Some(node), [], errors);
    }
  }

  ghost function NodesOf(e: Entry): set<object> {
    if e.expr.Some? then e.expr.value.repr else {}
  }

  /** `cache` holds parse results. */
  ghost predicate IsParseCache(cache: Cache<Entry>)
    reads cache
  {
    cache.Valid(Right, NodesOf)
  }

  /**
   The result is right for its input whatever was parsed before; the cache keeps the 256 newest
   cachable inputs in recency order.
   */
  method Parse(cache: Cache<Entry>, input: string) returns (e: Entry)
    requires IsParseCache(cache)
    modifies cache
    ensures IsParseCache(cache) && cache.history == old(cache.history) + [input]
    ensures Right(input, e) && Returned(e) == ParseText(input)
    ensures input in old(cache.entries) ==> e == old(cache.entries)[input]
    ensures NodesOf(e) <= cache.owned && old(cache.owned) <= cache.owned && fresh(cache.owned - old(cache.owned))
  {
    var hit := cache.Lookup(input, Right, NodesOf);
    if hit.Some? {
      return hit.value;
    }
    e := ParseUncached(input);
    cache.Store(input, e, Right, NodesOf);
  }

  // ----- parsing and checking through one cache -----

  datatype Request = Request(input: string, schema: Schema)

  /** What a caller gets: the type on the root and the errors. */
  datatype Report = NotParsed | Checked(typed: DataType, errors: seq<CheckError>)

  /** Parsing afresh and mapping types bottom-up over the fresh tree. */
  function Expected(r: Request): Report {
    var o := ParseText(r.input);
    if o.expr.None? then NotParsed
    else
      TreeWellFormed(o.expr.value);
      var pass := Mapped(r.schema, TreeOf(o.expr.value));
      Checked(pass.typed.dataType, pass.errors)
  }

  /** One request: parse through the cache, then check the shared tree in place. */
  method Serve(cache: Cache<Entry>, r: Request) returns (report: Report)
    requires IsParseCache(cache)
    modifies cache, cache.owned
    ensures IsParseCache(cache) && report == Expected(r) && fresh(cache.owned - old(cache.owned))
    ensures cache.history == old(cache.history) + [r.input]
  {
    var e := Parse(cache, r.input);
    match e.expr {
      case None => report := NotParsed;
      case Some(node) =>
        TreeWellFormed(ParseText(r.input).expr.value);
        var errors := node.Infer(r.schema);
        report := Checked(node.dataType.value, errors);
    }
  }

  /**
   One cache serves any sequence of requests under any schemas: every report is what parsing and
   checking that input alone on a fresh tree gives, although the trees are shared and checked in place.
   */
  method ServeAll(requests: seq<Request>) returns (reports: seq<Report>)
    ensures |reports| == |requests| && forall i :: 0 <= i < |requests| ==> reports[i] == Expected(requests[i])
  {
    var cache := new Cache<Entry>(Right, NodesOf);
    reports := [];
    for n := 0 to |requests|
      invariant fresh(cache) && IsParseCache(cache) && fresh(cache.owned)
      invariant |reports| == n && forall i :: 0 <= i < n ==> reports[i] == Expected(requests[i])
    {
      var report := Serve(cache, requests[n]);
      reports := reports + [report];
    }
  }
}
