/** The tokenizer as a function of the characters left and of whether the last token was AS. */
module LexerSpec {
  import opened Wrappers
  import opened Ast
  import opened Tokens

  const MAX_INPUT_LENGTH := 1_048_576
  const MAX_LITERAL_LENGTH := 100
  const MAX_STRING_LENGTH := 65_536

  datatype LexError =
    | InputTooLarge
    | NumberTooLong
    | UnterminatedString
    | StringTooLong
    | UnterminatedIdentifier
    | IdentifierTooLong
    | UnexpectedChar(ch: char)

  datatype Lexed = Lexed(toks: TokenList, errs: seq<LexError>)

  predicate IsSpace(c: char) {
    c == ' ' || c == '\t' || c == '\n' || c == '\r'
  }

  predicate IsDigit(c: char) {
    '0' <= c <= '9'
  }

  predicate IsWordStart(c: char) {
    'a' <= c <= 'z' || 'A' <= c <= 'Z' || c == '_'
  }

  predicate IsWordChar(c: char) {
    IsWordStart(c) || IsDigit(c)
  }

  /** KEYWORDS (lexer.ts:85-126), by length */
  function Keyword(upper: string): Option<Kind> {
    if |upper| <= 3 then ShortKeyword(upper)
    else if |upper| == 4 then FourLetterKeyword(upper)
    else if |upper| == 5 then FiveLetterKeyword(upper)
    else LongKeyword(upper)
  }

  function ShortKeyword(upper: string): Option<Kind> {
    if upper == "OR" then Some(OR) else if upper == "IS" then Some(IS)
    else if upper == "IN" then Some(IN) else if upper == "AS" then Some(AS)
    else if upper == "BY" then Some(BY) else if upper == "AND" then Some(AND)
    else if upper == "NOT" then Some(NOT) else if upper == "END" then Some(END)
    else if upper == "ASC" then Some(ASC) else if upper == "ROW" then Some(ROW)
    else None
  }

  function FourLetterKeyword(upper: string): Option<Kind> {
    if upper == "NULL" then Some(NULL) else if upper == "TRUE" then Some(TRUE)
    else if upper == "LIKE" then Some(LIKE) else if upper == "CASE" then Some(CASE)
    else if upper == "WHEN" then Some(WHEN) else if upper == "THEN" then Some(THEN)
    else if upper == "ELSE" then Some(ELSE) else if upper == "CAST" then Some(CAST)
    else if upper == "OVER" then Some(OVER) else if upper == "DESC" then Some(DESC)
    else if upper == "ROWS" then Some(ROWS) else if upper == "LAST" then Some(LAST)
    else None
  }

  function FiveLetterKeyword(upper: string): Option<Kind> {
    if upper == "FALSE" then Some(FALSE) else if upper == "ORDER" then Some(ORDER)
    else if upper == "RANGE" then Some(RANGE) else if upper == "WHERE" then Some(WHERE)
    else if upper == "NULLS" then Some(NULLS) else if upper == "FIRST" then Some(FIRST)
    else None
  }

  function LongKeyword(upper: string): Option<Kind> {
    if upper == "FILTER" then Some(FILTER) else if upper == "BETWEEN" then Some(BETWEEN)
    else if upper == "CURRENT" then Some(CURRENT) else if upper == "DISTINCT" then Some(DISTINCT)
    else if upper == "PARTITION" then Some(PARTITION) else if upper == "UNBOUNDED" then Some(UNBOUNDED)
    else if upper == "PRECEDING" then Some(PRECEDING) else if upper == "FOLLOWING" then Some(FOLLOWING)
    else None
  }

  /** TYPE_KEYWORDS (lexer.ts:129-139), recognised only right after AS. */
  function TypeKeyword(upper: string): Option<ScalarType> {
    if upper == "STRING" then Some(StringType) else if upper == "INT32" then Some(Int32Type)
    else if upper == "INT64" then Some(Int64Type) else if upper == "FLOAT" then Some(FloatType)
    else if upper == "DOUBLE" then Some(DoubleType) else if upper == "BOOLEAN" then Some(BooleanType)
    else if upper == "TIMESTAMP" then Some(TimestampType) else if upper == "DATE" then Some(DateType)
    else if upper == "JSON" then Some(JsonType)
    else None
  }

  function WordToken(word: string, afterAs: bool): (t: Token)
    ensures t != K(EOF)
  {
    var upper := Upper(word);
    if afterAs && TypeKeyword(upper).Some? then TYPE(TypeKeyword(upper).value)
    else if Keyword(upper).Some? then K(Keyword(upper).value)
    else IDENT(word)
  }

  // ----- runs of characters -----

  function DigitRun(s: string): (n: nat)
    ensures n <= |s|
  {
    if s != "" && IsDigit(s[0]) then 1 + DigitRun(s[1..]) else 0
  }

  function WordRun(s: string): (n: nat)
    ensures n <= |s|
  {
    if s != "" && IsWordChar(s[0]) then 1 + WordRun(s[1..]) else 0
  }

  function LineRun(s: string): (n: nat)
    ensures n <= |s|
  {
    if s != "" && s[0] != '\n' then 1 + LineRun(s[1..]) else 0
  }

  /** Digits, and a fraction if a digit follows the point. */
  function NumberRun(s: string): (n: nat)
    ensures DigitRun(s) <= n <= |s|
  {
    var n := DigitRun(s);
    if n + 1 < |s| && s[n] == '.' && IsDigit(s[n + 1]) then n + 1 + DigitRun(s[n + 1..]) else n
  }

  /** The text of a quoted piece, what follows it, and whether it was closed or cut. */
  datatype Scan = Scan(text: string, rest: string, closed: bool, cut: bool)

  /** Behind the opening quote of a string literal; two quotes stand for one. */
  function ScanString(s: string, text: string, cut: bool): (r: Scan)
    ensures |r.rest| <= |s|
  {
    if s == "" then Scan(text, "", false, cut)
    else if s[0] == '\'' then
      if |s| > 1 && s[1] == '\'' then ScanString(s[2..], text + "'", cut)
      else Scan(text, s[1..], true, cut)
    else if |text| < MAX_STRING_LENGTH then ScanString(s[1..], text + [s[0]], cut)
    else ScanString(s[1..], text, true)
  }

  /** Behind the opening quote of an identifier; a doubled quote is not special. */
  function ScanIdentifier(s: string, text: string, cut: bool): (r: Scan)
    ensures |r.rest| <= |s|
  {
    if s == "" then Scan(text, "", false, cut)
    else if s[0] == '"' then Scan(text, s[1..], true, cut)
    else if |text| < MAX_STRING_LENGTH then ScanIdentifier(s[1..], text + [s[0]], cut)
    else ScanIdentifier(s[1..], text, true)
  }

  function Flag<T>(b: bool, e: T): seq<T> {
    if b then [e] else []
  }

  function Single(c: char): Option<Kind> {
    if c == '+' then Some(PLUS) else if c == '-' then Some(MINUS)
    else if c == '*' then Some(STAR) else if c == '/' then Some(SLASH)
    else if c == '%' then Some(PERCENT) else if c == '(' then Some(LPAREN)
    else if c == ')' then Some(RPAREN) else if c == ',' then Some(COMMA)
    else if c == '.' then Some(DOT) else if c == '=' then Some(EQ)
    else if c == '<' then Some(LT) else if c == '>' then Some(GT)
    else None
  }

  function Double(c: char, next: char): Option<Kind> {
    if c == '<' && next == '=' then Some(LTE) else if c == '<' && next == '>' then Some(LTGT)
    else if c == '>' && next == '=' then Some(GTE) else if c == '!' && next == '=' then Some(NEQ)
    else if c == '|' && next == '|' then Some(PIPE_PIPE)
    else None
  }

  function Prepend(t: Token, errs: seq<LexError>, r: Lexed): Lexed {
    Lexed(Cons(t, r.toks), errs + r.errs)
  }

  function Lex(s: string, afterAs: bool): Lexed
    decreases |s|
  {
    if s == "" then Lexed(End, [])
    else if IsSpace(s[0]) then Lex(s[1..], afterAs)
    else if s[0] == '-' && |s| > 1 && s[1] == '-' then Lex(s[LineRun(s)..], afterAs)
    else if IsDigit(s[0]) then
      var n := NumberRun(s);
      var t := if n == DigitRun(s) then INTEGER(s[..n]) else DECIMAL(s[..n]);
      Prepend(t, Flag(n > MAX_LITERAL_LENGTH, NumberTooLong), Lex(s[n..], false))
    else if s[0] == '\'' then
      var r := ScanString(s[1..], "", false);
      Prepend(STRING(r.text), Flag(!r.closed, UnterminatedString) + Flag(r.cut, StringTooLong), Lex(r.rest, false))
    else if IsWordStart(s[0]) then
      var t := WordToken(s[..WordRun(s)], afterAs);
      Prepend(t, [], Lex(s[WordRun(s)..], t == K(AS)))
    else if s[0] == '"' then
      var r := ScanIdentifier(s[1..], "", false);
      Prepend(IDENT(r.text), Flag(!r.closed, UnterminatedIdentifier) + Flag(r.cut, IdentifierTooLong),
              Lex(r.rest, false))
    else if |s| > 1 && Double(s[0], s[1]).Some? then
      Prepend(K(Double(s[0], s[1]).value), [], Lex(s[2..], false))
    else if Single(s[0]).Some? then
      Prepend(K(Single(s[0]).value), [], Lex(s[1..], false))
    else
      // no token, so the memory of AS survives
      var r := Lex(s[1..], afterAs);
      Lexed(r.toks, [UnexpectedChar(s[0])] + r.errs)
  }

  function Tokenized(input: string): Lexed {
    if |input| > MAX_INPUT_LENGTH then Lexed(End, [InputTooLarge]) else Lex(input, false)
  }
}
