/**
 The lexical grammar: literals, words and symbols, each spelled in its own way, with separators between
 them. A text is tokenized without an error exactly when it is written so, and then into just these tokens.
 */
module Lexemes {
  import opened Ast
  import opened Emitter
  import opened Layout
  import opened Lexing
  import opened LexerSpec
  import opened PieceReading
  import opened Pieces
  import opened Tokens
  import opened Wrappers

  datatype Lexeme =
    | Whole(digits: string)
    | Point(before: string, behind: string)
    | Quoted(chars: string)
    | QuotedName(name: string)
    | Word(word: string)
    | Symbol(kind: Kind)

  /** Separators and lexemes in any order; a last comment needs no line feed. */
  datatype Script = Empty | Remark(text: string) | Gap(unit: Unit, rest: Script) | Item(lexeme: Lexeme, rest: Script)

  // ----- spelling -----

  function SymbolText(k: Kind): string {
    match k
    case PLUS => "+" case MINUS => "-" case STAR => "*" case SLASH => "/" case PERCENT => "%"
    case LPAREN => "(" case RPAREN => ")" case COMMA => "," case DOT => "."
    case EQ => "=" case LT => "<" case GT => ">"
    case LTE => "<=" case LTGT => "<>" case GTE => ">=" case NEQ => "!=" case PIPE_PIPE => "||"
    case _ => ""
  }

  function Spell(l: Lexeme): string {
    match l
    case Whole(digits) => digits
    case Point(before, behind) => before + ("." + behind)
    case Quoted(chars) => "'" + Doubled(chars, '\'') + "'"
    case QuotedName(name) => "\"" + name + "\""
    case Word(word) => word
    case Symbol(kind) => SymbolText(kind)
  }

  function Written(s: Script): string {
    match s
    case Empty => ""
    case Remark(text) => "--" + text
    case Gap(unit, rest) => WriteUnit(unit) + Written(rest)
    case Item(lexeme, rest) => Spell(lexeme) + Written(rest)
  }

  predicate Digit(c: char) { '0' <= c <= '9' }

  predicate Letter(c: char) { 'a' <= c <= 'z' || 'A' <= c <= 'Z' || c == '_' }

  predicate Digits(s: string) { s != "" && forall i :: 0 <= i < |s| ==> Digit(s[i]) }

  /** Numbers of up to 100 characters, texts and quoted names of up to 65536, words that begin with no digit. */
  predicate Sound(l: Lexeme) {
    match l
    case Whole(digits) => Digits(digits) && |digits| <= 100
    case Point(before, behind) => Digits(before) && Digits(behind) && |before| + 1 + |behind| <= 100
    case Quoted(chars) => forall i :: 65_536 <= i < |chars| ==> chars[i] == '\''
    case QuotedName(name) => '"' !in name && |name| <= 65_536
    case Word(word) => word != "" && Letter(word[0]) && forall i :: 0 <= i < |word| ==> Letter(word[i]) || Digit(word[i])
    case Symbol(kind) => SymbolText(kind) != ""
  }

  /** Two characters that are one symbol, or begin a comment. */
  predicate Pairs(c: char, d: char) {
    (c == '<' && (d == '=' || d == '>')) || (c == '>' && d == '=') || (c == '-' && d == '-')
  }

  /** The lexeme ends in front of `k`: what begins there does not go on with it. */
  predicate EndsAt(l: Lexeme, k: string) {
    k == "" ||
    match l
    case Whole(_) => !Digit(k[0]) && !(k[0] == '.' && |k| > 1 && Digit(k[1]))
    case Point(_, _) => !Digit(k[0])
    case Quoted(_) => k[0] != '\''
    case QuotedName(_) => true
    case Word(_) => !Letter(k[0]) && !Digit(k[0])
    case Symbol(kind) => |SymbolText(kind)| == 1 ==> !Pairs(SymbolText(kind)[0], k[0])
  }

  predicate Proper(s: Script) {
    match s
    case Empty => true
    case Remark(text) => '\n' !in text
    case Gap(unit, rest) => IsUnit(unit) && Proper(rest)
    case Item(lexeme, rest) => Sound(lexeme) && EndsAt(lexeme, Written(rest)) && Proper(rest)
  }

  // ----- meaning -----

  /** The same letters, the first text in any case, the second one in capitals. */
  predicate InAnyCase(word: string, capitals: string) {
    |word| == |capitals| && forall i :: 0 <= i < |word| ==> SameLetter(word[i], capitals[i])
  }

  predicate SameLetter(c: char, capital: char) {
    c == capital || ('a' <= c <= 'z' && c as int - 32 == capital as int)
  }

  predicate IsKeyword(k: Kind) { HasSpelling(k) || k.AS? || k.ASC? }

  function KeywordText(k: Kind): string {
    if k.AS? then "AS" else if k.ASC? then "ASC" else Spelling(k)
  }

  ghost predicate NamesType(word: string) {
    exists t :: CastTarget(t) && InAnyCase(word, TypeText(t))
  }

  ghost predicate NamesKeyword(word: string) {
    exists k :: IsKeyword(k) && InAnyCase(word, KeywordText(k))
  }

  /** A word is a type right behind AS if it names one, else a keyword if it names one, else an identifier. */
  ghost predicate WordMeans(word: string, afterAs: bool, t: Token) {
    if afterAs && NamesType(word) then t.TYPE? && CastTarget(t.scalar) && InAnyCase(word, TypeText(t.scalar))
    else if NamesKeyword(word) then t.K? && IsKeyword(t.kind) && InAnyCase(word, KeywordText(t.kind))
    else t == IDENT(word)
  }

  ghost predicate Means(l: Lexeme, afterAs: bool, t: Token) {
    match l
    case Whole(digits) => t == INTEGER(digits)
    case Point(_, _) => t == DECIMAL(Spell(l))
    case Quoted(chars) => t == STRING(chars)
    case QuotedName(name) => t == IDENT(name)
    case Word(word) => WordMeans(word, afterAs, t)
    case Symbol(kind) => t == K(kind)
  }

  /** The tokens are the meanings of the lexemes, in order. */
  ghost predicate AllMean(s: Script, afterAs: bool, ts: TokenList) {
    match s
    case Empty | Remark(_) => ts.End?
    case Gap(_, rest) => AllMean(rest, afterAs, ts)
    case Item(lexeme, rest) => ts.Cons? && Means(lexeme, afterAs, ts.head) && AllMean(rest, ts.head == K(AS), ts.tail)
  }

  // ----- words -----

  lemma SameUpper(word: string, capitals: string)
    requires InAnyCase(word, capitals)
    ensures Upper(word) == Upper(capitals)
  {
    forall i | 0 <= i < |word|
      ensures UpperChar(word[i]) == UpperChar(capitals[i])
    {
      assert SameLetter(word[i], capitals[i]);
    }
  }

  lemma UpperIsInAnyCase(word: string)
    ensures InAnyCase(word, Upper(word))
  {
  }

  lemma KeywordKnown(k: Kind)
    requires IsKeyword(k)
    ensures Keyword(Upper(KeywordText(k))) == Some(k)
  {
    if k.AS? || k.ASC? {
      LettersAreWords(KeywordText(k));
    } else {
      SpellingReads(k);
      SpellingIsKeyword(Spelling(k), k);
    }
  }

  lemma SpellingIsKeyword(w: string, k: Kind)
    requires WordToken(w, false) == K(k)
    ensures Keyword(Upper(w)) == Some(k)
  {
  }

  lemma TypeKnown(t: ScalarType)
    requires CastTarget(t)
    ensures TypeKeyword(Upper(TypeText(t))) == Some(t)
  {
    TypeTextIsUpper(t);
  }

  predicate Reads(u: string, k: Option<Kind>) {
    k.Some? ==> IsKeyword(k.value) && KeywordText(k.value) == u
  }

  lemma KeywordIs(u: string)
    ensures Reads(u, Keyword(u))
  {
    if |u| <= 3 {
      ShortIs(u);
    } else if |u| == 4 {
      FourIs(u);
    } else if |u| == 5 {
      FiveIs(u);
    } else {
      LongIs(u);
    }
  }

  lemma ShortIs(u: string)
    ensures Reads(u, ShortKeyword(u))
  {
  }

  lemma FourIs(u: string)
    ensures Reads(u, FourLetterKeyword(u))
  {
    if u == "NULL" || u == "TRUE" || u == "LIKE" || u == "CASE" {
      ConstantIs(u);
    } else if u == "WHEN" || u == "THEN" || u == "ELSE" || u == "CAST" {
      BranchIs(u);
    } else {
      WindowIs(u);
    }
  }

  lemma ConstantIs(u: string)
    requires u == "NULL" || u == "TRUE" || u == "LIKE" || u == "CASE"
    ensures Reads(u, FourLetterKeyword(u))
  {
  }

  lemma BranchIs(u: string)
    requires u == "WHEN" || u == "THEN" || u == "ELSE" || u == "CAST"
    ensures Reads(u, FourLetterKeyword(u))
  {
  }

  lemma WindowIs(u: string)
    requires u != "NULL" && u != "TRUE" && u != "LIKE" && u != "CASE"
    requires u != "WHEN" && u != "THEN" && u != "ELSE" && u != "CAST"
    ensures Reads(u, FourLetterKeyword(u))
  {
  }

  lemma FiveIs(u: string)
    ensures Reads(u, FiveLetterKeyword(u))
  {
  }

  lemma LongIs(u: string)
    ensures Reads(u, LongKeyword(u))
  {
  }

  lemma TypeIs(u: string)
    ensures TypeKeyword(u).Some? ==> CastTarget(TypeKeyword(u).value) && TypeText(TypeKeyword(u).value) == u
  {
  }

  lemma TypeNamed(word: string)
    ensures NamesType(word) <==> TypeKeyword(Upper(word)).Some?
    ensures NamesType(word) ==> var t := TypeKeyword(Upper(word)).value; CastTarget(t) && InAnyCase(word, TypeText(t))
  {
    UpperIsInAnyCase(word);
    TypeIs(Upper(word));
    forall t | CastTarget(t) && InAnyCase(word, TypeText(t))
      ensures TypeKeyword(Upper(word)).Some?
    {
      SameUpper(word, TypeText(t));
      TypeKnown(t);
    }
  }

  lemma KeywordNamed(word: string)
    ensures NamesKeyword(word) <==> Keyword(Upper(word)).Some?
    ensures NamesKeyword(word) ==> var k := Keyword(Upper(word)).value; IsKeyword(k) && InAnyCase(word, KeywordText(k))
  {
    UpperIsInAnyCase(word);
    KeywordIs(Upper(word));
    forall k | IsKeyword(k) && InAnyCase(word, KeywordText(k))
      ensures Keyword(Upper(word)).Some?
    {
      SameUpper(word, KeywordText(k));
      KeywordKnown(k);
    }
  }

  lemma WordIsRead(word: string, afterAs: bool)
    ensures WordMeans(word, afterAs, WordToken(word, afterAs))
  {
    TypeNamed(word);
    KeywordNamed(word);
  }

  // ----- one lexeme in front of anything that does not go on with it -----

  predicate ReadsOne(l: Lexeme, k: string, afterAs: bool, t: Token) {
    Lex(Spell(l) + k, afterAs) == Token1(t, Lex(k, t == K(AS)))
  }

  lemma WholeRead(digits: string, k: string, afterAs: bool)
    requires Sound(Whole(digits)) && EndsAt(Whole(digits), k)
    ensures ReadsOne(Whole(digits), k, afterAs, INTEGER(digits))
  {
    DigitRunOf(digits, k);
    Front(digits, k);
  }

  lemma PointRead(before: string, behind: string, k: string, afterAs: bool)
    requires Sound(Point(before, behind)) && EndsAt(Point(before, behind), k)
    ensures ReadsOne(Point(before, behind), k, afterAs, DECIMAL(Spell(Point(before, behind))))
  {
    var s := before + ("." + behind);
    assert s + k == before + ("." + (behind + k));
    DecimalRun(before, behind, k);
    Front(s, k);
  }

  lemma QuotedRead(chars: string, k: string, afterAs: bool)
    requires Sound(Quoted(chars)) && EndsAt(Quoted(chars), k)
    ensures ReadsOne(Quoted(chars), k, afterAs, STRING(chars))
  {
    var s := "'" + Doubled(chars, '\'') + "'" + k;
    assert s[1..] == Doubled(chars, '\'') + ("'" + k);
    assert "" + chars == chars;
    StringScan(chars, k, "");
  }

  lemma QuotedNameRead(name: string, k: string, afterAs: bool)
    requires Sound(QuotedName(name))
    ensures ReadsOne(QuotedName(name), k, afterAs, IDENT(name))
  {
    IdentifierScan(name, k, "");
    QuotedText(name, k);
    assert "" + name == name;
    LexQuotedAt("\"" + name + "\"" + k, afterAs);
  }

  lemma LexQuotedAt(s: string, afterAs: bool)
    requires s != "" && s[0] == '"'
    ensures var r := ScanIdentifier(s[1..], "", false);
            Lex(s, afterAs) == Prepend(IDENT(r.text), Flag(!r.closed, UnterminatedIdentifier) + Flag(r.cut, IdentifierTooLong),
                                       Lex(r.rest, false))
  {
  }

  lemma SymbolRead(kind: Kind, k: string, afterAs: bool)
    requires SymbolText(kind) != "" && EndsAt(Symbol(kind), k)
    ensures ReadsOne(Symbol(kind), k, afterAs, K(kind))
  {
    if |SymbolText(kind)| == 1 {
      SingleRead(kind, k, afterAs);
    } else {
      DoubleRead(kind, k, afterAs);
    }
  }

  lemma SingleRead(kind: Kind, k: string, afterAs: bool)
    requires |SymbolText(kind)| == 1 && EndsAt(Symbol(kind), k)
    ensures ReadsOne(Symbol(kind), k, afterAs, K(kind))
  {
    var c := SymbolText(kind)[0];
    SymbolIsSingle(kind, c);
    SingleAt(c, kind, k, afterAs);
  }

  lemma SymbolIsSingle(kind: Kind, c: char)
    requires SymbolText(kind) == [c]
    ensures Single(c) == Some(kind)
  {
  }

  lemma SingleAt(c: char, kind: Kind, k: string, afterAs: bool)
    requires Single(c) == Some(kind) && (k != "" ==> !Pairs(c, k[0]))
    ensures Lex([c] + k, afterAs) == Token1(K(kind), Lex(k, false))
  {
    SingleIsSymbol(c);
    Front([c], k);
    if k != "" {
      NoDouble(c, k[0]);
    }
  }

  lemma NoDouble(c: char, d: char)
    requires Single(c).Some? && !Pairs(c, d)
    ensures Double(c, d).None?
  {
    assert c == '!' ==> Single(c).None?;
    assert c == '|' ==> Single(c).None?;
  }

  lemma DoubleRead(kind: Kind, k: string, afterAs: bool)
    requires |SymbolText(kind)| == 2
    ensures ReadsOne(Symbol(kind), k, afterAs, K(kind))
  {
    var c, d := SymbolText(kind)[0], SymbolText(kind)[1];
    SymbolIsDouble(kind, c, d);
    DoubleAt(c, d, kind, k, afterAs);
  }

  lemma SymbolIsDouble(kind: Kind, c: char, d: char)
    requires SymbolText(kind) == [c, d]
    ensures Double(c, d) == Some(kind)
  {
  }

  lemma DoubleAt(c: char, d: char, kind: Kind, k: string, afterAs: bool)
    requires Double(c, d) == Some(kind)
    ensures Lex([c, d] + k, afterAs) == Token1(K(kind), Lex(k, false))
  {
    Front([c, d], k);
  }

  lemma LexemeRead(l: Lexeme, k: string, afterAs: bool) returns (t: Token)
    requires Sound(l) && EndsAt(l, k)
    ensures ReadsOne(l, k, afterAs, t) && Means(l, afterAs, t)
  {
    match l
    case Whole(digits) =>
      t := INTEGER(digits);
      WholeRead(digits, k, afterAs);
    case Point(before, behind) =>
      t := DECIMAL(Spell(l));
      PointRead(before, behind, k, afterAs);
    case Quoted(chars) =>
      t := STRING(chars);
      QuotedRead(chars, k, afterAs);
    case QuotedName(name) =>
      t := IDENT(name);
      QuotedNameRead(name, k, afterAs);
    case Word(word) =>
      t := WordToken(word, afterAs);
      WordStep(word, k, afterAs);
      WordIsRead(word, afterAs);
    case Symbol(kind) =>
      t := K(kind);
      SymbolRead(kind, k, afterAs);
  }

  lemma {:induction false} LineRunAll(s: string)
    requires '\n' !in s
    ensures LineRun(s) == |s|
  {
    if s != "" {
      LineRunAll(s[1..]);
    }
  }

  /** A proper text is tokenized without an error into the meanings of its lexemes. */
  lemma {:induction false} ProperIsRead(s: Script, afterAs: bool)
    requires Proper(s)
    ensures var r := Lex(Written(s), afterAs); r.errs == [] && AllMean(s, afterAs, r.toks)
  {
    match s
    case Empty =>
    case Remark(text) =>
      var line := "--" + text;
      LineRunAll(line);
      assert line[|line|..] == "";
    case Gap(unit, rest) =>
      ProperIsRead(rest, afterAs);
      UnitStep(unit, Written(rest), afterAs);
    case Item(lexeme, rest) =>
      var t := LexemeRead(lexeme, Written(rest), afterAs);
      ProperIsRead(rest, t == K(AS));
  }

  // ----- nothing else is tokenized without an error -----

  lemma {:induction false} DigitRunIs(s: string)
    ensures var n := DigitRun(s); AllDigits(s[..n]) && (n < |s| ==> !IsDigit(s[n]))
  {
    if s != "" && IsDigit(s[0]) {
      DigitRunIs(s[1..]);
      assert s[..DigitRun(s)] == [s[0]] + s[1..][..DigitRun(s[1..])];
    }
  }

  lemma {:induction false} WordRunIs(s: string)
    ensures var n := WordRun(s); AllWord(s[..n]) && (n < |s| ==> !IsWordChar(s[n]))
  {
    if s != "" && IsWordChar(s[0]) {
      WordRunIs(s[1..]);
      assert s[..WordRun(s)] == [s[0]] + s[1..][..WordRun(s[1..])];
    }
  }

  lemma {:induction false} LineRunIs(s: string)
    ensures var n := LineRun(s); '\n' !in s[..n] && (n < |s| ==> s[n] == '\n')
  {
    if s != "" && s[0] != '\n' {
      LineRunIs(s[1..]);
      assert s[..LineRun(s)] == [s[0]] + s[1..][..LineRun(s[1..])];
    }
  }

  lemma {:induction false} CutStays(s: string, text: string)
    ensures ScanString(s, text, true).cut && ScanIdentifier(s, text, true).cut
    decreases |s|
  {
    if s != "" {
      CutStays(s[1..], text);
      CutStays(s[1..], text + [s[0]]);
      if |s| > 1 {
        CutStays(s[2..], text + "'");
      }
    }
  }

  /** A string literal that is closed and not cut is the doubled text and a quote. */
  lemma {:induction false} StringSpells(s: string, text: string) returns (v: string)
    requires var r := ScanString(s, text, false); r.closed && !r.cut
    requires StringFits(text)
    ensures var r := ScanString(s, text, false);
            && r.text == text + v && s == Doubled(v, '\'') + ("'" + r.rest) && StringFits(text + v)
            && (r.rest != "" ==> r.rest[0] != '\'')
    decreases |s|
  {
    if s[0] == '\'' {
      if |s| > 1 && s[1] == '\'' {
        var more := StringSpells(s[2..], text + "'");
        v := "'" + more;
        StringGrows(s, s[2..], text, '\'', more, ScanString(s, text, false).rest);
      } else {
        v := "";
        assert text + v == text;
      }
    } else {
      if |text| >= MAX_STRING_LENGTH {
        CutStays(s[1..], text);
      }
      var more := StringSpells(s[1..], text + [s[0]]);
      v := [s[0]] + more;
      StringGrows(s, s[1..], text, s[0], more, ScanString(s, text, false).rest);
    }
  }

  lemma StringGrows(s: string, after: string, text: string, c: char, more: string, rest: string)
    requires after == Doubled(more, '\'') + ("'" + rest) && s == (if c == '\'' then "''" else [c]) + after
    ensures (text + [c]) + more == text + ([c] + more)
    ensures s == Doubled([c] + more, '\'') + ("'" + rest)
  {
    assert ([c] + more)[1..] == more;
    UnfoldDoubled([c] + more, "'" + rest);
  }

  lemma {:induction false} NameSpells(s: string, text: string) returns (v: string)
    requires var r := ScanIdentifier(s, text, false); r.closed && !r.cut
    requires |text| <= MAX_STRING_LENGTH
    ensures var r := ScanIdentifier(s, text, false);
            r.text == text + v && s == v + ("\"" + r.rest) && '"' !in v && |text + v| <= MAX_STRING_LENGTH
    decreases |s|
  {
    if s[0] == '"' {
      v := "";
      assert text + v == text;
    } else {
      if |text| >= MAX_STRING_LENGTH {
        CutStays(s[1..], text);
      }
      var more := NameSpells(s[1..], text + [s[0]]);
      v := [s[0]] + more;
      assert (text + [s[0]]) + more == text + v;
      assert s == [s[0]] + s[1..];
    }
  }

  /** The text begins with this lexeme, and there is no error behind it. */
  ghost predicate Begins(s: string, l: Lexeme, k: string, behindAs: bool) {
    s == Spell(l) + k && |k| < |s| && Sound(l) && EndsAt(l, k) && Lex(k, behindAs).errs == []
  }

  lemma NumberBegins(s: string, afterAs: bool) returns (l: Lexeme, k: string)
    requires s != "" && IsDigit(s[0]) && Lex(s, afterAs).errs == []
    ensures Begins(s, l, k, false)
  {
    var d, n := DigitRun(s), NumberRun(s);
    k := s[n..];
    NumberIsShort(s, afterAs);
    if n == d {
      DigitRunIs(s);
      l := Whole(s[..d]);
      assert s == s[..d] + k;
    } else {
      PointSpells(s);
      l := Point(s[..d], s[d + 1..n]);
    }
  }

  lemma NumberIsShort(s: string, afterAs: bool)
    requires s != "" && IsDigit(s[0]) && Lex(s, afterAs).errs == []
    ensures NumberRun(s) <= MAX_LITERAL_LENGTH && Lex(s[NumberRun(s)..], false).errs == []
  {
  }

  lemma PointSpells(s: string)
    requires DigitRun(s) < NumberRun(s)
    ensures var d, n := DigitRun(s), NumberRun(s);
            && 0 <= d && d + 1 < n <= |s| && AllDigits(s[..d]) && AllDigits(s[d + 1..n]) && (n < |s| ==> !IsDigit(s[n]))
            && s == s[..d] + ("." + s[d + 1..n]) + s[n..]
  {
    var d := DigitRun(s);
    var m := DigitRun(s[d + 1..]);
    assert s[d] == '.' && IsDigit(s[d + 1..][0]);
    DigitRunIs(s);
    DigitRunIs(s[d + 1..]);
    AtPoint(s, d, m);
  }

  lemma AtPoint(s: string, d: nat, m: nat)
    requires d + 1 + m <= |s| && s[d] == '.'
    ensures s == s[..d] + ("." + s[d + 1..d + 1 + m]) + s[d + 1 + m..] && s[d + 1..][..m] == s[d + 1..d + 1 + m]
    ensures d + 1 + m < |s| ==> s[d + 1..][m] == s[d + 1 + m]
  {
  }

  lemma StringBegins(s: string, afterAs: bool) returns (l: Lexeme, k: string)
    requires s != "" && s[0] == '\'' && Lex(s, afterAs).errs == []
    ensures Begins(s, l, k, false)
  {
    var r := StringEnds(s, afterAs);
    var v := StringSpells(s[1..], "");
    assert "" + v == v;
    l, k := Quoted(v), r.rest;
    assert s == "'" + s[1..] == "'" + Doubled(v, '\'') + "'" + k;
  }

  lemma StringEnds(s: string, afterAs: bool) returns (r: Scan)
    requires s != "" && s[0] == '\'' && Lex(s, afterAs).errs == []
    ensures r == ScanString(s[1..], "", false) && r.closed && !r.cut && Lex(r.rest, false).errs == []
  {
    r := ScanString(s[1..], "", false);
  }

  lemma NameBegins(s: string, afterAs: bool) returns (l: Lexeme, k: string)
    requires s != "" && s[0] == '"' && Lex(s, afterAs).errs == []
    ensures Begins(s, l, k, false)
  {
    var r := ScanIdentifier(s[1..], "", false);
    LexQuotedAt(s, afterAs);
    assert r.closed && !r.cut;
    var v := NameSpells(s[1..], "");
    assert "" + v == v;
    l, k := QuotedName(v), r.rest;
    assert s == "\"" + s[1..];
  }

  lemma WordBegins(s: string, afterAs: bool) returns (l: Lexeme, k: string)
    requires s != "" && IsWordStart(s[0]) && Lex(s, afterAs).errs == []
    ensures Begins(s, l, k, WordToken(s[..WordRun(s)], afterAs) == K(AS))
  {
    var n := WordRun(s);
    WordRunIs(s);
    l, k := Word(s[..n]), s[n..];
    assert s == s[..n] + k;
  }

  predicate Starts(c: char) {
    IsDigit(c) || IsWordStart(c) || c == '\'' || c == '"'
  }

  lemma SymbolBegins(s: string, afterAs: bool) returns (l: Lexeme, k: string)
    requires s != "" && !IsSpace(s[0]) && !Starts(s[0]) && !(s[0] == '-' && |s| > 1 && s[1] == '-')
    requires Lex(s, afterAs).errs == []
    ensures Begins(s, l, k, false)
  {
    if |s| > 1 && Double(s[0], s[1]).Some? {
      l, k := Symbol(Double(s[0], s[1]).value), s[2..];
      DoubleSpelled(s[0], s[1]);
      assert s == [s[0], s[1]] + k;
    } else {
      assert Single(s[0]).Some?;
      l, k := Symbol(Single(s[0]).value), s[1..];
      SingleSpelled(s[0]);
      assert s == [s[0]] + k;
    }
  }

  lemma SingleSpelled(c: char)
    requires Single(c).Some?
    ensures SymbolText(Single(c).value) == [c]
  {
  }

  lemma DoubleSpelled(c: char, d: char)
    requires Double(c, d).Some?
    ensures SymbolText(Double(c, d).value) == [c, d]
  {
  }

  lemma {:induction false} ErrorFreeIsProper(s: string, afterAs: bool) returns (p: Script)
    requires Lex(s, afterAs).errs == []
    ensures Proper(p) && Written(p) == s
    decreases |s|, 1
  {
    if s == "" {
      p := Empty;
    } else if IsSpace(s[0]) {
      var rest := ErrorFreeIsProper(s[1..], afterAs);
      p := SpaceFirst(s, rest);
    } else if s[0] == '-' && |s| > 1 && s[1] == '-' {
      p := CommentIsProper(s, afterAs);
    } else {
      var l, k, behindAs := LexemeBegins(s, afterAs);
      var rest := ErrorFreeIsProper(k, behindAs);
      p := Item(l, rest);
    }
  }

  lemma SpaceFirst(s: string, rest: Script) returns (p: Script)
    requires s != "" && IsSpace(s[0]) && Proper(rest) && Written(rest) == s[1..]
    ensures Proper(p) && Written(p) == s
  {
    p := Gap(Space(s[0]), rest);
    assert s == [s[0]] + s[1..];
  }

  lemma LexemeBegins(s: string, afterAs: bool) returns (l: Lexeme, k: string, behindAs: bool)
    requires s != "" && !IsSpace(s[0]) && !(s[0] == '-' && |s| > 1 && s[1] == '-') && Lex(s, afterAs).errs == []
    ensures Begins(s, l, k, behindAs)
  {
    behindAs := false;
    if IsDigit(s[0]) {
      l, k := NumberBegins(s, afterAs);
    } else if s[0] == '\'' {
      l, k := StringBegins(s, afterAs);
    } else if IsWordStart(s[0]) {
      l, k := WordBegins(s, afterAs);
      behindAs := WordToken(s[..WordRun(s)], afterAs) == K(AS);
    } else if s[0] == '"' {
      l, k := NameBegins(s, afterAs);
    } else {
      l, k := SymbolBegins(s, afterAs);
    }
  }

  lemma {:induction false} CommentIsProper(s: string, afterAs: bool) returns (p: Script)
    requires |s| > 1 && s[0] == '-' && s[1] == '-' && Lex(s, afterAs).errs == []
    ensures Proper(p) && Written(p) == s
    decreases |s|, 0
  {
    var n := LineRun(s);
    assert n >= 2;
    LineRunIs(s);
    var text := s[2..n];
    CommentSplits(s, n);
    if n == |s| {
      p := Remark(text);
    } else {
      LineEnds(s, n, afterAs);
      var rest := ErrorFreeIsProper(s[n + 1..], afterAs);
      p := Gap(Comment(text), rest);
    }
  }

  lemma CommentSplits(s: string, n: nat)
    requires 2 <= n <= |s| && s[0] == '-' && s[1] == '-' && '\n' !in s[..n] && (n < |s| ==> s[n] == '\n')
    ensures '\n' !in s[2..n] && (n == |s| ==> s == "--" + s[2..n])
    ensures n < |s| ==> s == "--" + s[2..n] + "\n" + s[n + 1..]
  {
    forall i | 2 <= i < n
      ensures s[i] != '\n'
    {
      assert s[..n][i] == s[i];
    }
  }

  lemma LineEnds(s: string, n: nat, afterAs: bool)
    requires |s| > 1 && s[0] == '-' && s[1] == '-' && n == LineRun(s) < |s| && s[n] == '\n'
    ensures Lex(s, afterAs) == Lex(s[n + 1..], afterAs)
  {
    assert s[n..][1..] == s[n + 1..];
    assert Lex(s, afterAs) == Lex(s[n..], afterAs);
  }

  ghost predicate IsProper(text: string) {
    exists p :: Proper(p) && Written(p) == text
  }

  /** The lexical grammar is exact: a text has no error exactly when it is short enough and proper. */
  lemma TokenizedIffProper(input: string)
    ensures Tokenized(input).errs == [] <==> |input| <= 1_048_576 && IsProper(input)
  {
    if |input| <= MAX_INPUT_LENGTH {
      if Lex(input, false).errs == [] {
        var p := ErrorFreeIsProper(input, false);
      }
      forall p | Proper(p) && Written(p) == input
        ensures Lex(input, false).errs == []
      {
        ProperIsRead(p, false);
      }
    }
  }
}
