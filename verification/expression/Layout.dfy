/**
 What may separate tokens: blanks, tabs, line feeds, carriage returns and comments to the end of a line.
 A text laid out with any of these in place of its blanks is read like the text itself.
 */
module Layout {
  import opened Ast
  import opened Emitter
  import opened Lexing
  import opened LexerSpec
  import opened PieceReading
  import opened Pieces
  import opened Printing
  import opened RoundTrip
  import opened Tokens
  import PieceTokens

  /** One character between tokens, or a comment with the line feed that ends it. */
  datatype Unit = Space(c: char) | Comment(text: string)

  predicate IsUnit(u: Unit) {
    match u
    case Space(c) => c == ' ' || c == '\t' || c == '\n' || c == '\r'
    case Comment(text) => '\n' !in text
  }

  function WriteUnit(u: Unit): string {
    match u
    case Space(c) => [c]
    case Comment(text) => "--" + text + "\n"
  }

  function WriteUnits(us: seq<Unit>): string {
    if us == [] then "" else WriteUnit(us[0]) + WriteUnits(us[1..])
  }

  predicate AreUnits(us: seq<Unit>) {
    forall i :: 0 <= i < |us| ==> IsUnit(us[i])
  }

  // ----- the lexer passes over all of them -----

  lemma {:induction false} LineRunOf(text: string, k: string)
    requires '\n' !in text && k != "" && k[0] == '\n'
    ensures LineRun(text + k) == |text|
  {
    if text == "" {
      assert text + k == k;
    } else {
      assert (text + k)[1..] == text[1..] + k;
      LineRunOf(text[1..], k);
    }
  }

  lemma CommentStep(text: string, k: string, afterAs: bool)
    requires '\n' !in text
    ensures Lex("--" + text + "\n" + k, afterAs) == Lex(k, afterAs)
  {
    var s, line, rest := "--" + text + "\n" + k, "--" + text, "\n" + k;
    assert s == line + rest;
    LineRunOf(line, rest);
    assert s[|line|..] == rest && rest[1..] == k;
    assert Lex(s, afterAs) == Lex(rest, afterAs);
  }

  lemma UnitStep(u: Unit, k: string, afterAs: bool)
    requires IsUnit(u)
    ensures Lex(WriteUnit(u) + k, afterAs) == Lex(k, afterAs)
  {
    match u
    case Space(c) => assert ([c] + k)[1..] == k;
    case Comment(text) => CommentStep(text, k, afterAs);
  }

  /** In front of any text at all, separators are passed over, and the memory of AS survives them. */
  lemma {:induction false} UnitsStep(us: seq<Unit>, k: string, afterAs: bool)
    requires AreUnits(us)
    ensures Lex(WriteUnits(us) + k, afterAs) == Lex(k, afterAs)
  {
    if us == [] {
      assert "" + k == k;
    } else {
      UnitsStep(us[1..], k, afterAs);
      UnitStep(us[0], WriteUnits(us[1..]) + k, afterAs);
      assert WriteUnits(us) + k == WriteUnit(us[0]) + (WriteUnits(us[1..]) + k);
    }
  }

  /** Nothing else separates: any other character that begins no token is an error, wherever it stands. */
  lemma OthersAreErrors(c: char, k: string, afterAs: bool)
    requires c != ' ' && c != '\t' && c != '\n' && c != '\r'
    requires !('0' <= c <= '9') && !('a' <= c <= 'z') && !('A' <= c <= 'Z') && c != '_' && c != '\'' && c != '"'
    requires c !in "+-*/%(),.=<>" && (c == '!' ==> k == "" || k[0] != '=') && (c == '|' ==> k == "" || k[0] != '|')
    ensures UnexpectedChar(c) in Lex([c] + k, afterAs).errs
  {
    assert ([c] + k)[1..] == k && ([c] + k)[0] == c;
    NoSymbol(c);
    assert k != "" ==> Double(c, k[0]).None?;
  }

  lemma NoSymbol(c: char)
    requires c !in "+-*/%(),.=<>"
    ensures Single(c).None?
  {
    var symbols := "+-*/%(),.=<>";
    assert symbols[0] == '+' && symbols[1] == '-' && symbols[2] == '*' && symbols[3] == '/' && symbols[4] == '%';
    assert symbols[5] == '(' && symbols[6] == ')' && symbols[7] == ',' && symbols[8] == '.' && symbols[9] == '=';
    assert symbols[10] == '<' && symbols[11] == '>';
  }

  // ----- pieces, laid out -----

  /** What stands for the n-th blank: something, and nothing but separators. */
  predicate IsLayout(us: seq<Unit>) {
    us != [] && AreUnits(us)
  }

  type Gaps = nat -> seq<Unit>

  ghost predicate Fillers(gaps: Gaps) {
    forall n :: IsLayout(gaps(n))
  }

  /** The text with `gaps(n)`, `gaps(n + 1)`, ... in place of its blanks, those around AS included. */
  function Laid(t: Text, gaps: Gaps, n: nat): string {
    match t
    case Done => ""
    case More(Blank, rest) => WriteUnits(gaps(n)) + Laid(rest, gaps, n + 1)
    case More(AsType(target), rest) =>
      WriteUnits(gaps(n)) + ("AS" + (WriteUnits(gaps(n + 1)) + (TypeText(target) + Laid(rest, gaps, n + 2))))
    case More(p, rest) => Write(p) + Laid(rest, gaps, n)
  }

  /** The blanks a piece takes. */
  function Taken(p: Piece): nat {
    if p.Blank? then 1 else if p.AsType? then 2 else 0
  }

  predicate IsMinus(p: Piece) {
    p == Delimiter('-') || p == Operator(Sub)
  }

  /** No comment begins right behind a minus sign, which would be the first of three then. */
  ghost predicate MinusesKept(t: Text, gaps: Gaps, n: nat) {
    t.More? ==>
      && (IsMinus(t.piece) && t.rest.More? && Taken(t.rest.piece) > 0 ==> gaps(n) != [] && gaps(n)[0].Space?)
      && MinusesKept(t.rest, gaps, n + Taken(t.piece))
  }

  lemma LayoutBegins(us: seq<Unit>, k: string)
    requires IsLayout(us)
    ensures var s := WriteUnits(us) + k;
            s != "" && (if us[0].Space? then IsGap(s[0]) else s[0] == '-')
  {
  }

  lemma LaidAhead(p: Piece, rest: Text, gaps: Gaps, n: nat, m: Full)
    requires Fits(p, rest, m) && WellSpaced(rest, m) && !Clash(p, rest) && Taken(p) == 0
    requires Fillers(gaps) && MinusesKept(More(p, rest), gaps, n)
    ensures Ahead(p, rest, Laid(rest, gaps, n))
  {
    if rest.More? && Taken(rest.piece) > 0 {
      GapAhead(p, rest, gaps, n, m);
    } else if p == Delimiter('-') {
      NoMinusLaid(rest, gaps, n, m);
    }
  }

  lemma GapAhead(p: Piece, rest: Text, gaps: Gaps, n: nat, m: Full)
    requires Fits(p, rest, m) && rest.More? && Taken(rest.piece) > 0 && IsLayout(gaps(n))
    requires IsMinus(p) ==> gaps(n)[0].Space?
    ensures Ahead(p, rest, Laid(rest, gaps, n))
  {
    var k := if rest.piece.Blank? then Laid(rest.rest, gaps, n + 1)
             else "AS" + (WriteUnits(gaps(n + 1)) + (TypeText(rest.piece.target) + Laid(rest.rest, gaps, n + 2)));
    assert Laid(rest, gaps, n) == WriteUnits(gaps(n)) + k;
    LayoutBegins(gaps(n), k);
  }

  lemma NoMinusLaid(t: Text, gaps: Gaps, n: nat, m: Full)
    requires WellSpaced(t, m) && !Follows(t, '-') && (t.More? ==> !t.piece.Operator? && Taken(t.piece) == 0)
    ensures !BeginsWith(Laid(t, gaps, n), '-')
  {
    if t.More? {
      NoMinusWritten(t.piece, t.rest, Laid(t.rest, gaps, n), m);
    }
  }

  lemma NoMinusWritten(p: Piece, rest: Text, k: string, m: Full)
    requires Fits(p, rest, m) && p != Delimiter('-') && !p.Operator? && Taken(p) == 0
    ensures !BeginsWith(Write(p) + k, '-')
  {
    match p
    case Key(kind) => SpellingReads(kind);
    case Name(name) => IdentBegins(name);
    case _ =>
  }

  lemma IdentBegins(name: string)
    ensures Ident(name) != "" && Ident(name)[0] != '-'
  {
  }

  /** AS and a type name, each behind separators. */
  lemma TypeLaid(target: ScalarType, before: seq<Unit>, between: seq<Unit>, k: string)
    requires IsLayout(before) && IsLayout(between) && Separated(k)
    ensures Lex(WriteUnits(before) + ("AS" + (WriteUnits(between) + (TypeText(target) + k))), false)
         == Token1(K(AS), Token1(TypeToken(target), Lex(k, false)))
  {
    var word := TypeText(target) + k;
    UnitsStep(before, "AS" + (WriteUnits(between) + word), false);
    AsWord();
    LayoutBegins(between, word);
    WordStep("AS", WriteUnits(between) + word, false);
    UnitsStep(between, word, true);
    TypeWord(target);
    WordStep(TypeText(target), k, true);
  }

  lemma LaidSeparated(t: Text, gaps: Gaps, n: nat)
    requires Closes(t) && Fillers(gaps)
    ensures Separated(Laid(t, gaps, n))
  {
    if t.More? && Taken(t.piece) > 0 {
      var k := if t.piece.Blank? then Laid(t.rest, gaps, n + 1)
               else "AS" + (WriteUnits(gaps(n + 1)) + (TypeText(t.piece.target) + Laid(t.rest, gaps, n + 2)));
      assert Laid(t, gaps, n) == WriteUnits(gaps(n)) + k;
      LayoutBegins(gaps(n), k);
    }
  }

  lemma PieceLaid(p: Piece, rest: Text, gaps: Gaps, n: nat, m: Full)
    requires Fits(p, rest, m) && WellSpaced(rest, m) && !Clash(p, rest)
    requires Fillers(gaps) && MinusesKept(More(p, rest), gaps, n)
    ensures var r := Lex(Laid(rest, gaps, n + Taken(p)), false);
            Lex(Laid(More(p, rest), gaps, n), false) == Lexed(ReadOf(p, r.toks), r.errs)
  {
    if p.Blank? {
      UnitsStep(gaps(n), Laid(rest, gaps, n + 1), false);
    } else if p.AsType? {
      LaidSeparated(rest, gaps, n + 2);
      TypeLaid(p.target, gaps(n), gaps(n + 1), Laid(rest, gaps, n + 2));
    } else {
      LaidAhead(p, rest, gaps, n, m);
      ReadPieceAt(p, rest, Laid(rest, gaps, n), m);
    }
  }

  /**
   Well spaced pieces, with any separators in place of the blanks between them, are read as they are with
   the blanks: the same tokens, and no error.
   */
  lemma {:induction false} ReadLaid(t: Text, gaps: Gaps, n: nat, m: Full)
    requires WellSpaced(t, m) && m.apart && Fillers(gaps) && MinusesKept(t, gaps, n)
    ensures Lex(Laid(t, gaps, n), false) == Lexed(AsRead(AllTokens(t)), [])
  {
    if t.More? {
      ReadLaid(t.rest, gaps, n + Taken(t.piece), m);
      AsReadPiece(t.piece, t.rest, AllTokens(t.rest), m);
      PieceLaid(t.piece, t.rest, gaps, n, m);
    }
  }

  /** An expression laid out over any number of lines, with comments or without, is parsed as on one line. */
  lemma LaidOutAlike(e: Expr, gaps: Gaps, m: Full)
    requires Meets(e, m) && m.apart && Fillers(gaps) && MinusesKept(Cut(e, Done), gaps, 0)
    requires |EmitSql(e)| <= MAX_INPUT_LENGTH && |Laid(Cut(e, Done), gaps, 0)| <= MAX_INPUT_LENGTH
    ensures ParseText(Laid(Cut(e, Done), gaps, 0)) == ParseText(EmitSql(e))
  {
    PieceReading.CutSpaced(e, Done, m);
    ReadLaid(Cut(e, Done), gaps, 0, m);
    PieceTokens.CutTokens(e, Done);
    TextAsRead(e, m);
  }

  /** A comment right behind a minus sign takes the minus with it. */
  lemma MinusSwallowed(text: string, k: string)
    requires '\n' !in text
    ensures Lex("-" + (WriteUnit(Comment(text)) + k), false) == Lex(k, false)
  {
    var longer := "-" + text;
    assert "-" + (WriteUnit(Comment(text)) + k) == "--" + longer + "\n" + k;
    CommentStep(longer, k, false);
  }
}
