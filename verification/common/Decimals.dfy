/** Integers in decimal, as `Display` and `parse` of Rust or a template literal of JavaScript have them. */
module Decimals {
  import opened Wrappers

  function Digit(d: nat): char
    requires d < 10
  {
    '0' + d as char
  }

  function Digits(n: nat): (s: string)
    ensures s != "" && s[0] != '-' && s[0] != '+'
  {
    if n < 10 then [Digit(n)] else Digits(n / 10) + [Digit(n % 10)]
  }

  function DigitValue(c: char): nat
    requires '0' <= c <= '9'
  {
    c as int - '0' as int
  }

  /** Rust's Display for integers. */
  function Decimal(n: int): string {
    if n < 0 then "-" + Digits(-n) else Digits(n)
  }

  function ParseDigits(s: string): Option<nat> {
    if s == "" then None
    else
      var c := s[|s| - 1];
      if !('0' <= c <= '9') then None
      else if |s| == 1 then Some(DigitValue(c))
      else match ParseDigits(s[..|s| - 1])
        case None => None
        case Some(n) => Some(10 * n + DigitValue(c))
  }

  /** Rust's `parse`: an optional sign, at least one digit, and the value must fit the type. */
  function ParseInt(s: string, lo: int, hi: int): (r: Option<int>)
    ensures r.Some? ==> lo <= r.value <= hi
  {
    var signed := s != "" && (s[0] == '-' || s[0] == '+');
    match ParseDigits(if signed then s[1..] else s)
    case None => None
    case Some(n) =>
      var m: int := n;
      var v := if signed && s[0] == '-' then -m else m;
      if lo <= v <= hi then Some(v) else None
  }

  lemma {:induction false} ParseDigitsInverts(n: nat)
    ensures ParseDigits(Digits(n)) == Some(n)
  {
    if n >= 10 {
      ParseDigitsInverts(n / 10);
      var s := Digits(n);
      assert s[..|s| - 1] == Digits(n / 10);
    }
  }

  lemma ParseInverts(n: int, lo: int, hi: int)
    requires lo <= n <= hi
    ensures ParseInt(Decimal(n), lo, hi) == Some(n)
  {
    ParseDigitsInverts(if n < 0 then -n else n);
    if n < 0 {
      assert ("-" + Digits(-n))[1..] == Digits(-n);
    }
  }

  lemma DigitsInjective(a: nat, b: nat)
    requires Digits(a) == Digits(b)
    ensures a == b
  {
    ParseDigitsInverts(a);
    ParseDigitsInverts(b);
  }
}
