/** Line breaks in texts and tokens, and the size of a token list in which each break has a weight. */
module LineBreaks {
  import opened Tokens

  /** The line breaks of a text, `per` for each. */
  function Breaks(per: nat, s: string): nat {
    if s == "" then 0 else (if s[0] == '\n' then per else 0) + Breaks(per, s[1..])
  }

  lemma {:induction false} BreaksJoin(per: nat, a: string, b: string)
    ensures Breaks(per, a + b) == Breaks(per, a) + Breaks(per, b)
  {
    if a == "" {
      assert a + b == b;
    } else {
      assert (a + b)[1..] == a[1..] + b;
      BreaksJoin(per, a[1..], b);
    }
  }

  lemma {:induction false} BreaksUpper(per: nat, s: string)
    ensures Breaks(per, Upper(s)) == Breaks(per, s)
  {
    if s != "" {
      assert Upper(s)[1..] == Upper(s[1..]);
      BreaksUpper(per, s[1..]);
    }
  }

  lemma {:induction false} BreaksWeigh(per: nat, s: string)
    ensures Breaks(per, s) == per * Breaks(1, s)
  {
    if s != "" {
      BreaksWeigh(per, s[1..]);
    }
  }

  lemma {:induction false} NoBreaks(per: nat, s: string)
    requires '\n' !in s
    ensures Breaks(per, s) == 0
  {
    if s != "" {
      NoBreaks(per, s[1..]);
    }
  }

  /** Only strings and names can hold line breaks. */
  function TokenBreaks(per: nat, t: Token): nat {
    match t
    case STRING(s) => Breaks(per, s)
    case IDENT(n) => Breaks(per, n)
    case _ => 0
  }

  function Lines(ts: TokenList): nat {
    match ts
    case End => 0
    case Cons(t, tail) => TokenBreaks(1, t) + Lines(tail)
  }

  /** The number of tokens, and `per` for each line break in them. */
  function Size(per: nat, ts: TokenList): nat {
    match ts
    case End => 0
    case Cons(t, tail) => 1 + TokenBreaks(per, t) + Size(per, tail)
  }

  lemma {:induction false} SizeWeighs(per: nat, ts: TokenList)
    ensures Size(per, ts) == Length(ts) + per * Lines(ts)
  {
    if ts.Cons? {
      SizeWeighs(per, ts.tail);
      TokenWeighs(per, ts.head);
      Distributes(per, TokenBreaks(1, ts.head), Lines(ts.tail));
    }
  }

  lemma TokenWeighs(per: nat, t: Token)
    ensures TokenBreaks(per, t) == per * TokenBreaks(1, t)
  {
    match t
    case STRING(s) => BreaksWeigh(per, s);
    case IDENT(n) => BreaksWeigh(per, n);
    case _ =>
  }

  lemma Distributes(a: nat, b: nat, c: nat)
    ensures a * (b + c) == a * b + a * c
  {
  }
}
