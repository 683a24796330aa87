/** The tokenizer as the source writes it: one loop over a position, proved against LexerSpec. */
module Lexer {
  import opened Wrappers
  import opened Tokens
  import opened LexerSpec
  import opened ParserClass

  /** Tokens collected so far in front of those still to come. */
  ghost function Append(ts: seq<Token>, k: TokenList): TokenList {
    if ts == [] then k else Cons(ts[0], Append(ts[1..], k))
  }

  lemma {:induction false} AppendOne(ts: seq<Token>, t: Token, k: TokenList)
    ensures Append(ts + [t], k) == Append(ts, Cons(t, k))
  {
    if ts == [] {
      assert ts + [t] == [t];
      assert [t][1..] == [];
    } else {
      assert (ts + [t])[1..] == ts[1..] + [t];
      AppendOne(ts[1..], t, k);
    }
  }

  lemma {:induction false} FromAppend(ts: seq<Token>, pos: nat)
    requires K(EOF) !in ts && pos <= |ts|
    ensures From(ts + [K(EOF)], pos) == Append(ts[pos..], End)
    decreases |ts| - pos
  {
    if pos < |ts| {
      FromAppend(ts, pos + 1);
      assert ts[pos..][1..] == ts[pos + 1..];
    }
  }

  lemma Drop(s: string, p: nat, n: nat)
    requires p + n <= |s|
    ensures s[p..][n..] == s[p + n..]
  {
  }

  // ----- runs -----

  method DigitsEnd(input: string, start: nat) returns (pos: nat)
    requires start <= |input|
    ensures pos == start + DigitRun(input[start..]) && pos <= |input|
  {
    pos := start;
    while pos < |input| && IsDigit(input[pos])
      invariant start <= pos <= |input|
      invariant start + DigitRun(input[start..]) == pos + DigitRun(input[pos..])
    {
      Drop(input, pos, 1);
      pos := pos + 1;
    }
  }

  method WordEnd(input: string, start: nat) returns (pos: nat)
    requires start <= |input|
    ensures pos == start + WordRun(input[start..]) && pos <= |input|
  {
    pos := start;
    while pos < |input| && IsWordChar(input[pos])
      invariant start <= pos <= |input|
      invariant start + WordRun(input[start..]) == pos + WordRun(input[pos..])
    {
      Drop(input, pos, 1);
      pos := pos + 1;
    }
  }

  method LineEnd(input: string, start: nat) returns (pos: nat)
    requires start <= |input|
    ensures pos == start + LineRun(input[start..]) && pos <= |input|
  {
    pos := start;
    while pos < |input| && input[pos] != '\n'
      invariant start <= pos <= |input|
      invariant start + LineRun(input[start..]) == pos + LineRun(input[pos..])
    {
      Drop(input, pos, 1);
      pos := pos + 1;
    }
  }

  method NumberEnd(input: string, start: nat) returns (pos: nat, fraction: bool)
    requires start <= |input|
    ensures pos == start + NumberRun(input[start..]) && pos <= |input|
    ensures fraction <==> NumberRun(input[start..]) != DigitRun(input[start..])
  {
    pos := DigitsEnd(input, start);
    fraction := pos + 1 < |input| && input[pos] == '.' && IsDigit(input[pos + 1]);
    if fraction {
      Drop(input, start, pos - start + 1);
      pos := DigitsEnd(input, pos + 1);
    }
  }

  method StringEnd(input: string, start: nat) returns (text: string, pos: nat, closed: bool, cut: bool)
    requires start <= |input|
    ensures pos <= |input| && Scan(text, input[pos..], closed, cut) == ScanString(input[start..], "", false)
  {
    text, pos, closed, cut := "", start, false, false;
    while pos < |input|
      invariant pos <= |input| && !closed
      invariant ScanString(input[pos..], text, cut) == ScanString(input[start..], "", false)
    {
      Drop(input, pos, 1);
      if input[pos] == '\'' {
        pos := pos + 1;
        if pos < |input| && input[pos] == '\'' {
          Drop(input, pos - 1, 2);
          text := text + "'";
          pos := pos + 1;
        } else {
          closed := true;
          break;
        }
      } else if |text| < MAX_STRING_LENGTH {
        text := text + [input[pos]];
        pos := pos + 1;
      } else {
        pos := pos + 1;
        cut := true;
      }
    }
  }

  method IdentifierEnd(input: string, start: nat) returns (text: string, pos: nat, closed: bool, cut: bool)
    requires start <= |input|
    ensures pos <= |input| && Scan(text, input[pos..], closed, cut) == ScanIdentifier(input[start..], "", false)
  {
    text, pos, cut := "", start, false;
    while pos < |input| && input[pos] != '"'
      invariant pos <= |input|
      invariant ScanIdentifier(input[pos..], text, cut) == ScanIdentifier(input[start..], "", false)
    {
      Drop(input, pos, 1);
      if |text| < MAX_STRING_LENGTH {
        text := text + [input[pos]];
      } else {
        cut := true;
      }
      pos := pos + 1;
    }
    closed := pos < |input|;
    if closed {
      Drop(input, pos, 1);
      pos := pos + 1;
    }
  }

  // ----- the main loop -----

  /** What one turn of the loop adds: at most one token, and the errors it reports. */
  ghost predicate Turn(s: string, a: bool, t: Option<Token>, errs: seq<LexError>, rest: string, a': bool) {
    var r := Lex(rest, a');
    Lex(s, a) == Lexed(if t.Some? then Cons(t.value, r.toks) else r.toks, errs + r.errs) && t != Some(K(EOF))
  }

  method Next(input: string, pos: nat, afterAs: bool)
    returns (t: Option<Token>, errs: seq<LexError>, next: nat, as': bool)
    requires pos < |input|
    ensures pos < next <= |input| && Turn(input[pos..], afterAs, t, errs, input[next..], as')
  {
    var ch := input[pos];
    if IsSpace(ch) {
      SpaceTurn(input, pos, afterAs);
      return None, [], pos + 1, afterAs;
    }
    if ch == '-' && pos + 1 < |input| && input[pos + 1] == '-' {
      next := LineEnd(input, pos);
      CommentTurn(input, pos, next, afterAs);
      return None, [], next, afterAs;
    }
    if IsDigit(ch) {
      t, errs, next := NextNumber(input, pos, afterAs);
      return t, errs, next, false;
    }
    if ch == '\'' {
      t, errs, next := NextString(input, pos, afterAs);
      return t, errs, next, false;
    }
    t, errs, next, as' := NextWord(input, pos, afterAs);
  }

  /** Taking and dropping from a position on. */
  lemma Slices(input: string, pos: nat, next: nat)
    requires pos <= next <= |input|
    ensures input[pos..][..next - pos] == input[pos..next] && input[pos..][next - pos..] == input[next..]
  {
  }

  lemma LexNumber(s: string, a: bool)
    requires s != "" && IsDigit(s[0])
    ensures var n := NumberRun(s);
            Lex(s, a) == Prepend(if n == DigitRun(s) then INTEGER(s[..n]) else DECIMAL(s[..n]),
                                 Flag(n > MAX_LITERAL_LENGTH, NumberTooLong), Lex(s[n..], false))
  {
  }

  lemma SpaceTurn(input: string, pos: nat, a: bool)
    requires pos < |input| && IsSpace(input[pos])
    ensures Turn(input[pos..], a, None, [], input[pos + 1..], a)
  {
  }

  lemma CommentTurn(input: string, pos: nat, next: nat, a: bool)
    requires pos + 1 < |input| && input[pos] == '-' && input[pos + 1] == '-' && next <= |input|
    requires next == pos + LineRun(input[pos..])
    ensures Turn(input[pos..], a, None, [], input[next..], a)
  {
  }

  lemma WordTurn(input: string, pos: nat, next: nat, a: bool)
    requires pos < next <= |input| && IsWordStart(input[pos]) && next == pos + WordRun(input[pos..])
    ensures var t := WordToken(input[pos..next], a);
            Turn(input[pos..], a, Some(t), [], input[next..], t == K(AS))
  {
    Slices(input, pos, next);
    LexWord(input[pos..], a);
  }

  lemma LexWord(s: string, a: bool)
    requires s != "" && IsWordStart(s[0])
    ensures var t := WordToken(s[..WordRun(s)], a);
            Lex(s, a) == Prepend(t, [], Lex(s[WordRun(s)..], t == K(AS)))
  {
  }

  method NextNumber(input: string, pos: nat, ghost afterAs: bool) returns (t: Option<Token>, errs: seq<LexError>, next: nat)
    requires pos < |input| && IsDigit(input[pos])
    ensures pos < next <= |input| && Turn(input[pos..], afterAs, t, errs, input[next..], false)
  {
    var fraction;
    next, fraction := NumberEnd(input, pos);
    Slices(input, pos, next);
    LexNumber(input[pos..], afterAs);
    var num := input[pos..next];
    t := Some(if fraction then DECIMAL(num) else INTEGER(num));
    errs := Flag(|num| > MAX_LITERAL_LENGTH, NumberTooLong);
  }

  method NextString(input: string, pos: nat, ghost afterAs: bool) returns (t: Option<Token>, errs: seq<LexError>, next: nat)
    requires pos < |input| && input[pos] == '\''
    ensures pos < next <= |input| && Turn(input[pos..], afterAs, t, errs, input[next..], false)
  {
    var text, closed, cut;
    Drop(input, pos, 1);
    text, next, closed, cut := StringEnd(input, pos + 1);
    t := Some(STRING(text));
    errs := Flag(!closed, UnterminatedString) + Flag(cut, StringTooLong);
  }

  method NextIdentifier(input: string, pos: nat, ghost afterAs: bool) returns (t: Option<Token>, errs: seq<LexError>, next: nat)
    requires pos < |input| && input[pos] == '"'
    ensures pos < next <= |input| && Turn(input[pos..], afterAs, t, errs, input[next..], false)
  {
    var text, closed, cut;
    Drop(input, pos, 1);
    text, next, closed, cut := IdentifierEnd(input, pos + 1);
    t := Some(IDENT(text));
    errs := Flag(!closed, UnterminatedIdentifier) + Flag(cut, IdentifierTooLong);
  }

  method NextWord(input: string, pos: nat, afterAs: bool)
    returns (t: Option<Token>, errs: seq<LexError>, next: nat, as': bool)
    requires pos < |input|
    requires var ch := input[pos]; !IsSpace(ch) && !IsDigit(ch) && ch != '\''
    requires !(input[pos] == '-' && pos + 1 < |input| && input[pos + 1] == '-')
    ensures pos < next <= |input| && Turn(input[pos..], afterAs, t, errs, input[next..], as')
  {
    var ch := input[pos];
    if IsWordStart(ch) {
      next := WordEnd(input, pos);
      WordTurn(input, pos, next, afterAs);
      var token := WordToken(input[pos..next], afterAs);
      return Some(token), [], next, token == K(AS);
    }
    if ch == '"' {
      t, errs, next := NextIdentifier(input, pos, afterAs);
      return t, errs, next, false;
    }
    t, errs, next, as' := NextSymbol(input, pos, afterAs);
  }

  method NextSymbol(input: string, pos: nat, afterAs: bool)
    returns (t: Option<Token>, errs: seq<LexError>, next: nat, as': bool)
    requires pos < |input|
    requires var ch := input[pos];
             !IsSpace(ch) && !IsDigit(ch) && ch != '\'' && !IsWordStart(ch) && ch != '"'
    requires !(input[pos] == '-' && pos + 1 < |input| && input[pos + 1] == '-')
    ensures pos < next <= |input| && Turn(input[pos..], afterAs, t, errs, input[next..], as')
  {
    var ch := input[pos];
    Drop(input, pos, 1);
    var double := if pos + 1 < |input| then Double(ch, input[pos + 1]) else None;
    if double.Some? {
      Drop(input, pos, 2);
      t, next, as' := Some(K(double.value)), pos + 2, false;
    } else if Single(ch).Some? {
      t, next, as' := Some(K(Single(ch).value)), pos + 1, false;
    } else {
      return None, [UnexpectedChar(ch)], pos + 1, afterAs;
    }
    errs := [];
  }

  method Tokenize(input: string) returns (tokens: seq<Token>, errors: seq<LexError>)
    ensures |tokens| > 0 && tokens[|tokens| - 1] == K(EOF)
    ensures From(tokens, 0) == Tokenized(input).toks
    ensures errors == Tokenized(input).errs
  {
    if |input| > MAX_INPUT_LENGTH {
      return [K(EOF)], [InputTooLarge];
    }
    tokens, errors := [], [];
    var pos := 0;
    var afterAs := false;
    ghost var all := Lex(input, false);
    assert input[0..] == input;
    assert [] + all.errs == all.errs;
    while pos < |input|
      invariant pos <= |input| && K(EOF) !in tokens
      invariant Append(tokens, Lex(input[pos..], afterAs).toks) == all.toks
      invariant errors + Lex(input[pos..], afterAs).errs == all.errs
      decreases |input| - pos
    {
      var t, errs, next, a := Next(input, pos, afterAs);
      ghost var r := Lex(input[next..], a);
      assert errors + (errs + r.errs) == errors + errs + r.errs;
      if t.Some? {
        AppendOne(tokens, t.value, r.toks);
        tokens := tokens + [t.value];
      }
      errors, pos, afterAs := errors + errs, next, a;
    }
    assert errors + [] == errors;
    FromAppend(tokens, 0);
    assert tokens[0..] == tokens;
    tokens := tokens + [K(EOF)];
  }
}
