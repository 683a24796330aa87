/**
 Tokenizing what the emitter writes: how the lexer reads each literal, name, word and symbol in front
 of arbitrary text.
 */
module Lexing {
  import opened Wrappers
  import opened Ast
  import opened Tokens
  import opened LexerSpec
  import opened Emitter

  // ----- one token in front of arbitrary text -----

  function Token1(t: Token, r: Lexed): Lexed {
    Lexed(Cons(t, r.toks), r.errs)
  }

  lemma SpaceStep(k: string, a: bool)
    ensures Lex(" " + k, a) == Lex(k, a)
  {
    assert (" " + k)[1..] == k;
  }

  predicate AllDigits(s: string) {
    forall i :: 0 <= i < |s| ==> IsDigit(s[i])
  }

  predicate AllWord(s: string) {
    forall i :: 0 <= i < |s| ==> IsWordChar(s[i])
  }

  lemma {:induction false} DigitRunOf(s: string, k: string)
    requires AllDigits(s) && (k == "" || !IsDigit(k[0]))
    ensures DigitRun(s + k) == |s|
  {
    if s == "" {
      assert s + k == k;
    } else {
      assert (s + k)[1..] == s[1..] + k;
      DigitRunOf(s[1..], k);
    }
  }

  lemma {:induction false} WordRunOf(s: string, k: string)
    requires AllWord(s) && (k == "" || !IsWordChar(k[0]))
    ensures WordRun(s + k) == |s|
  {
    if s == "" {
      assert s + k == k;
    } else {
      assert (s + k)[1..] == s[1..] + k;
      WordRunOf(s[1..], k);
    }
  }

  lemma Front(s: string, k: string)
    ensures (s + k)[..|s|] == s && (s + k)[|s|..] == k
    ensures s != "" ==> (s + k)[0] == s[0] && (s + k)[1..] == s[1..] + k
  {
  }

  lemma WordStep(w: string, k: string, a: bool)
    requires IsWord(w) && (k == "" || !IsWordChar(k[0]))
    ensures var t := WordToken(w, a); Lex(w + k, a) == Token1(t, Lex(k, t == K(AS)))
  {
    WordRunOf(w, k);
    Front(w, k);
  }

  predicate IsInteger(s: string) {
    s != "" && AllDigits(s) && |s| <= MAX_LITERAL_LENGTH
  }

  predicate IsDecimal(s: string) {
    |s| <= MAX_LITERAL_LENGTH &&
    exists n :: 0 < n < |s| - 1 && s[n] == '.' && AllDigits(s[..n]) && AllDigits(s[n + 1..])
  }

  /** The four characters that separate tokens. */
  predicate IsGap(c: char) {
    c == ' ' || c == '\t' || c == '\n' || c == '\r'
  }

  /** No token that ends in front of `k` can swallow its first character; a comment may begin there. */
  predicate Separated(k: string) {
    k == "" || IsGap(k[0]) || k[0] == ')' || k[0] == ',' || k[0] == '-'
  }

  lemma IntegerStep(s: string, k: string)
    requires IsInteger(s) && Separated(k)
    ensures Lex(s + k, false) == Token1(INTEGER(s), Lex(k, false))
  {
    DigitRunOf(s, k);
    Front(s, k);
  }

  lemma DecimalRun(whole: string, fraction: string, k: string)
    requires whole != "" && fraction != "" && AllDigits(whole) && AllDigits(fraction)
    requires k == "" || !IsDigit(k[0])
    ensures var s := whole + ("." + (fraction + k));
            DigitRun(s) == |whole| && NumberRun(s) == |whole| + 1 + |fraction|
  {
    var tail := "." + (fraction + k);
    var s := whole + tail;
    DigitRunOf(whole, tail);
    assert s[|whole|..] == tail;
    assert s[|whole| + 1..] == fraction + k;
    DigitRunOf(fraction, k);
  }

  lemma DecimalStep(s: string, k: string)
    requires IsDecimal(s) && Separated(k)
    ensures Lex(s + k, false) == Token1(DECIMAL(s), Lex(k, false))
  {
    var n :| 0 < n < |s| - 1 && s[n] == '.' && AllDigits(s[..n]) && AllDigits(s[n + 1..]);
    SplitAtPoint(s, n, k);
    DecimalRun(s[..n], s[n + 1..], k);
    NumberStep(s, k);
  }

  lemma SplitAtPoint(s: string, n: nat, k: string)
    requires n < |s| && s[n] == '.'
    ensures s + k == s[..n] + ("." + (s[n + 1..] + k))
  {
  }

  lemma NumberStep(s: string, k: string)
    requires 0 < |s| <= MAX_LITERAL_LENGTH && IsDigit(s[0]) && NumberRun(s + k) == |s| > DigitRun(s + k)
    ensures Lex(s + k, false) == Token1(DECIMAL(s), Lex(k, false))
  {
    Front(s, k);
  }

  /** The limit counts characters as they are scanned, except quotes: behind it a literal may go on with quotes only. */
  predicate StringFits(v: string) {
    forall i :: MAX_STRING_LENGTH <= i < |v| ==> v[i] == '\''
  }

  lemma {:induction false} StringScan(v: string, k: string, text: string)
    requires StringFits(text + v) && (k == "" || k[0] != '\'')
    ensures ScanString(Doubled(v, '\'') + ("'" + k), text, false) == Scan(text + v, k, true, false)
  {
    if v == "" {
      CloseString(k, text);
      assert text + v == text;
    } else {
      var rest := Doubled(v[1..], '\'') + ("'" + k);
      Regroup(text, v);
      StringScan(v[1..], k, text + [v[0]]);
      assert (text + v)[|text|] == v[0];
      ScanChar(v[0], rest, text);
      UnfoldDoubled(v, "'" + k);
    }
  }

  lemma Regroup(text: string, v: string)
    requires v != ""
    ensures (text + [v[0]]) + v[1..] == text + v
  {
  }

  lemma UnfoldDoubled(v: string, k: string)
    requires v != ""
    ensures Doubled(v, '\'') + k == (if v[0] == '\'' then "''" else [v[0]]) + (Doubled(v[1..], '\'') + k)
  {
  }

  lemma CloseString(k: string, text: string)
    requires k == "" || k[0] != '\''
    ensures ScanString(Doubled("", '\'') + ("'" + k), text, false) == Scan(text, k, true, false)
  {
    assert Doubled("", '\'') + ("'" + k) == "'" + k;
    assert ("'" + k)[1..] == k;
  }

  lemma ScanChar(c: char, rest: string, text: string)
    requires |text| < MAX_STRING_LENGTH || c == '\''
    ensures ScanString((if c == '\'' then "''" else [c]) + rest, text, false) == ScanString(rest, text + [c], false)
  {
    if c == '\'' {
      assert ("''" + rest)[2..] == rest;
    } else {
      assert ([c] + rest)[1..] == rest;
    }
  }

  lemma StringStep(v: string, k: string)
    requires StringFits(v) && Separated(k)
    ensures Lex("'" + Doubled(v, '\'') + "'" + k, false) == Token1(STRING(v), Lex(k, false))
  {
    var s := "'" + Doubled(v, '\'') + "'" + k;
    assert s[1..] == Doubled(v, '\'') + ("'" + k);
    assert "" + v == v;
    StringScan(v, k, "");
  }

  lemma {:induction false} IdentifierScan(v: string, k: string, text: string)
    requires |text| + |v| <= MAX_STRING_LENGTH && '"' !in v
    ensures Doubled(v, '"') == v
    ensures ScanIdentifier(v + ("\"" + k), text, false) == Scan(text + v, k, true, false)
  {
    var s := v + ("\"" + k);
    if v == "" {
      assert s[1..] == k;
      assert text + v == text;
    } else {
      assert s[1..] == v[1..] + ("\"" + k);
      IdentifierScan(v[1..], k, text + [v[0]]);
      Regroup(text, v);
    }
  }

  /** A name the lexer can give: a word of any length, or what quotes may enclose. */
  predicate NameReadable(name: string) {
    '"' !in name && (IsWord(name) || |name| <= MAX_STRING_LENGTH)
  }

  /** A name the lexer gives back unchanged: not written bare when it is a keyword to the lexer. */
  predicate NameLexes(name: string) {
    NameReadable(name) && (WrittenBare(name) ==> Keyword(Upper(name)).None?)
  }

  /** What the lexer makes of a name as the emitter writes it, and of any other token. */
  function ReadToken(t: Token): Token {
    if t.IDENT? && WrittenBare(t.text) then WordToken(t.text, false) else t
  }

  lemma SqlKeywordsAreShort(u: string)
    requires SqlKeyword(u)
    ensures |u| <= 9
  {
  }

  lemma BareIsNotAs(name: string)
    requires WrittenBare(name)
    ensures WordToken(name, false) != K(AS)
  {
  }

  lemma IdentStep(name: string, k: string)
    requires NameReadable(name) && (k == "" || !IsWordChar(k[0]))
    ensures Lex(Ident(name) + k, false) == Token1(ReadToken(IDENT(name)), Lex(k, false))
  {
    if WrittenBare(name) {
      BareIsNotAs(name);
      WordStep(name, k, false);
    } else {
      if IsWord(name) {
        SqlKeywordsAreShort(Upper(name));
      }
      QuotedStep(name, k);
    }
  }

  lemma QuotedStep(name: string, k: string)
    requires '"' !in name && |name| <= MAX_STRING_LENGTH
    ensures Lex("\"" + Doubled(name, '"') + "\"" + k, false) == Token1(IDENT(name), Lex(k, false))
  {
    IdentifierScan(name, k, "");
    var s := "\"" + Doubled(name, '"') + "\"" + k;
    QuotedText(name, k);
    LexQuoted(s);
    assert "" + name == name;
  }

  lemma QuotedText(name: string, k: string)
    ensures var s := "\"" + name + "\"" + k; s != "" && s[0] == '"' && s[1..] == name + ("\"" + k)
  {
  }

  lemma LexQuoted(s: string)
    requires s != "" && s[0] == '"'
    ensures var r := ScanIdentifier(s[1..], "", false);
            Lex(s, false) == Prepend(IDENT(r.text), Flag(!r.closed, UnterminatedIdentifier) + Flag(r.cut, IdentifierTooLong),
                                     Lex(r.rest, false))
  {
  }

  lemma SingleStep(c: char, k: string)
    requires Single(c).Some? && (k == "" || (Double(c, k[0]).None? && !(c == '-' && k[0] == '-')))
    ensures Lex([c] + k, false) == Token1(K(Single(c).value), Lex(k, false))
  {
    SingleIsSymbol(c);
    Front([c], k);
  }

  lemma SingleIsSymbol(c: char)
    requires Single(c).Some?
    ensures !IsSpace(c) && !IsDigit(c) && !IsWordStart(c) && c != '\'' && c != '"'
  {
  }

  lemma DoubleStep(c: char, d: char, k: string)
    requires Double(c, d).Some?
    ensures Lex([c, d] + k, false) == Token1(K(Double(c, d).value), Lex(k, false))
  {
    Front([c, d], k);
  }

  /** Delimiters the emitter writes without blanks. */
  lemma DelimiterStep(c: char, k: string)
    requires c == '(' || c == ')' || c == ',' || c == '.' || c == '*' || (c == '-' && (k == "" || k[0] != '-'))
    ensures Single(c).Some? && Lex([c] + k, false) == Token1(K(Single(c).value), Lex(k, false))
  {
    SingleStep(c, k);
  }

  predicate TwoChars(op: BinaryOp) { op.Neq? || op.LtGt? || op.Lte? || op.Gte? || op.Concat? }

  /** What may stand right behind an operator: a gap, or a comment if it is no minus. */
  predicate BehindOperator(op: BinaryOp, k: string) {
    k != "" && (IsGap(k[0]) || (k[0] == '-' && !op.Sub?))
  }

  /** The binary operators in front of a gap. */
  lemma OperatorStep(op: BinaryOp, k: string)
    requires BehindOperator(op, k)
    ensures Lex(OpText(op) + k, false) == Token1(K(OpKind(op)), Lex(k, false))
  {
    if op.Or? || op.And? {
      WordOperator(op);
      WordStep(OpText(op), k, false);
    } else if TwoChars(op) {
      DoubleOperator(op);
      DoubleStep(OpText(op)[0], OpText(op)[1], k);
    } else {
      SingleOperator(op, k[0]);
      SingleStep(OpText(op)[0], k);
    }
  }

  lemma WordOperator(op: BinaryOp)
    requires op.Or? || op.And?
    ensures IsWord(OpText(op)) && WordToken(OpText(op), false) == K(OpKind(op))
  {
  }

  lemma DoubleOperator(op: BinaryOp)
    requires TwoChars(op)
    ensures |OpText(op)| == 2 && OpText(op) == [OpText(op)[0], OpText(op)[1]]
    ensures Double(OpText(op)[0], OpText(op)[1]) == Some(OpKind(op))
  {
  }

  lemma SingleOperator(op: BinaryOp, c: char)
    requires !TwoChars(op) && !op.Or? && !op.And? && (IsGap(c) || c == '-')
    ensures |OpText(op)| == 1 && OpText(op) == [OpText(op)[0]] && Single(OpText(op)[0]) == Some(OpKind(op))
    ensures Double(OpText(op)[0], c).None? && (op.Sub? <==> OpText(op)[0] == '-')
  {
  }

  /** A keyword as the emitter spells it. */
  predicate Spells(w: string, kind: Kind) {
    IsWord(w) && WordToken(w, false) == K(kind) && kind != AS
  }
}
