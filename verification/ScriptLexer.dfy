/**
 The tokenizer of the management script language.

 `Lex` and `DecodeRest` specify it on the text that is still unread; the methods
 `Tokenize` and `DecodeString` are the loops of the program and are proved equal
 to them. `LexOfRender` is the main result: whatever white space separates the
 lexemes, tokenizing their spelling yields exactly those lexemes, each at the
 line and column where it is spelled.
 */
module ScriptLexer {
  import opened Common
  import opened Texts

  const MAX_EXPRESSION_TOKENS := 2_048

  const DOUBLE_QUOTE: Code := 34
  const SINGLE_QUOTE: Code := 39
  const OPEN_PAREN: Code := 40
  const CLOSE_PAREN: Code := 41
  const COMMA: Code := 44
  const OPEN_BRACKET: Code := 91
  const CLOSE_BRACKET: Code := 93

  datatype Kind = Punct(code: Code) | StringToken | IntegerToken | IdentifierToken | Eof

  datatype Token = Token(kind: Kind, value: Text, place: Place)

  /** The tokens still to be read, up to the end mark that closes every tuple. */
  datatype Tokens = End(place: Place) | Next(token: Token, rest: Tokens)

  datatype Problem =
    | StringSpansLines | StringEndsWithEscape | InvalidUnicodeEscape | UnsupportedEscape
    | StringNotClosed | UnexpectedCharacter | TooManyTokens
    | UnexpectedToken | NestedTooDeeply | ExpectedValue | TooManyValues | ExpectedSeparator
    | SourceTooLong | SourceEmpty | UnknownFunction | WrongArity
    | ClosingBraceUnexpected | BraceNotClosed | NamingExpressionEmpty
    | ConditionalTooDeep | ConditionalWithoutColon | ConditionalWithoutEnd
    | DeleteTargetInvalid | StatementExpected | StatementTargetInvalid | TooManyStatements
    | TerminatorUnexpected | NoStatements
    | StepLimit | TooManyListValues | UnsafeText | ValueTooLong | OutputLimit
    | IntegerRequired | PadInvalid | PathReplacementInvalid

  /** A positioned script error, or the `ValueError` that Python raises when a
      decimal conversion passes its 4300-digit limit. */
  datatype Failure = ScriptError(problem: Problem, place: Place) | DigitLimit

  type Outcome<T> = Result<T, Failure>

  function Fail<T>(problem: Problem, place: Place): Outcome<T> {
    Err(ScriptError(problem, place))
  }

  // ------------------------------------------------------------ characters

  predicate IsPunct(c: Code) {
    c == OPEN_PAREN || c == CLOSE_PAREN || c == COMMA || c == OPEN_BRACKET || c == CLOSE_BRACKET
  }

  predicate IsQuote(c: Code) {
    c == DOUBLE_QUOTE || c == SINGLE_QUOTE
  }

  predicate IsWordStart(c: Code) {
    IsLetter(c) || c == 95
  }

  predicate IsWordChar(c: Code) {
    IsWordStart(c) || IsDigit(c) || c == 46
  }

  predicate IsHex(c: Code) {
    IsDigit(c) || 65 <= c <= 70 || 97 <= c <= 102
  }

  function HexValue(c: Code): (v: nat)
    requires IsHex(c)
    ensures v < 16
  {
    if IsDigit(c) then c - 48 else if c <= 70 then c - 55 else c - 87
  }

  function HexNumber(a: Code, b: Code, c: Code, d: Code): (r: Code)
    requires IsHex(a) && IsHex(b) && IsHex(c) && IsHex(d)
  {
    HexValue(a) * 4096 + HexValue(b) * 256 + HexValue(c) * 16 + HexValue(d)
  }

  function DigitRun(t: Text): (n: nat)
    ensures n <= |t|
    ensures forall i | 0 <= i < n :: IsDigit(t[i])
    ensures n < |t| ==> !IsDigit(t[n])
  {
    if t != [] && IsDigit(t[0]) then 1 + DigitRun(t[1..]) else 0
  }

  function WordRun(t: Text): (n: nat)
    ensures n <= |t|
    ensures forall i | 0 <= i < n :: IsWordChar(t[i])
    ensures n < |t| ==> !IsWordChar(t[n])
  {
    if t != [] && IsWordChar(t[0]) then 1 + WordRun(t[1..]) else 0
  }

  // --------------------------------------------------------- string literals

  /** The single-character escapes; `quote` is the quote that opened the literal. */
  function Replacement(escaped: Code, quote: Code): Option<Code> {
    if escaped == 110 then Some(10)
    else if escaped == 114 then Some(13)
    else if escaped == 116 then Some(9)
    else if escaped == BACKSLASH then Some(BACKSLASH)
    else if escaped == quote then Some(quote)
    else None
  }

  /** A decoded literal: its value, the text after the closing quote, and where
      that text starts. */
  datatype Decoded = Decoded(value: Text, rest: Text, place: Place)

  function WithChar(c: Code, r: Outcome<Decoded>): Outcome<Decoded> {
    match r
    case Ok(d) => Ok(d.(value := [c] + d.value))
    case Err(e) => Err(e)
  }

  /** Decodes the remainder `t` of a literal opened at `open`; `at` is where `t` starts. */
  function DecodeRest(t: Text, quote: Code, at: Place, open: Place): (r: Outcome<Decoded>)
    ensures r.Ok? ==> |r.value.rest| < |t|
    decreases |t|
  {
    if t == [] then Fail(StringNotClosed, open)
    else if t[0] == quote then Ok(Decoded([], t[1..], Across(at, 1)))
    else if t[0] == 13 || t[0] == NEWLINE then Fail(StringSpansLines, at)
    else if t[0] != BACKSLASH then WithChar(t[0], DecodeRest(t[1..], quote, Across(at, 1), open))
    else if |t| == 1 then Fail(StringEndsWithEscape, at)
    else if t[1] == 117 then
      if |t| < 6 || !(IsHex(t[2]) && IsHex(t[3]) && IsHex(t[4]) && IsHex(t[5])) then
        Fail(InvalidUnicodeEscape, at)
      else
        WithChar(HexNumber(t[2], t[3], t[4], t[5]), DecodeRest(t[6..], quote, Across(at, 6), open))
    else match Replacement(t[1], quote)
      case None => Fail(UnsupportedEscape, at)
      case Some(c) => WithChar(c, DecodeRest(t[2..], quote, Across(at, 2), open))
  }

  function Across(p: Place, n: int): Place {
    Place(p.line, p.column + n)
  }

  function Prepend(prefix: Text, r: Outcome<Decoded>): Outcome<Decoded> {
    match r
    case Ok(d) => Ok(d.(value := prefix + d.value))
    case Err(e) => Err(e)
  }

  lemma PrependChar(prefix: Text, c: Code, r: Outcome<Decoded>)
    ensures Prepend(prefix, WithChar(c, r)) == Prepend(prefix + [c], r)
  {
    if r.Ok? {
      assert prefix + ([c] + r.value.value) == prefix + [c] + r.value.value;
    }
  }

  method DecodeString(source: Text, start: nat, at: Place)
    returns (r: Outcome<(Text, nat, Place)>)
    requires start < |source|
    ensures match DecodeRest(source[start + 1..], source[start], Across(at, 1), at)
            case Err(e) => r == Err(e)
            case Ok(d) => r.Ok? && r.value.0 == d.value && r.value.2 == d.place
                          && start < r.value.1 <= |source| && source[r.value.1..] == d.rest
  {
    var quote := source[start];
    ghost var spec := DecodeRest(source[start + 1..], quote, Across(at, 1), at);
    var position := start + 1;
    var current := Across(at, 1);
    var result: Text := [];
    assert spec.Ok? ==> [] + spec.value.value == spec.value.value;
    while position < |source|
      invariant start < position <= |source|
      invariant spec == Prepend(result, DecodeRest(source[position..], quote, current, at))
    {
      ghost var unread := source[position..];
      var c := source[position];
      if c == quote {
        return Ok((result, position + 1, Across(current, 1)));
      }
      if c == 13 || c == NEWLINE {
        return Fail(StringSpansLines, current);
      }
      if c != BACKSLASH {
        assert unread[1..] == source[position + 1..];
        PrependChar(result, c, DecodeRest(unread[1..], quote, Across(current, 1), at));
        result := result + [c];
        position := position + 1;
        current := Across(current, 1);
        continue;
      }
      if position + 1 >= |source| {
        return Fail(StringEndsWithEscape, current);
      }
      var escaped := source[position + 1];
      if escaped == 117 {
        if position + 6 > |source|
          || !(IsHex(source[position + 2]) && IsHex(source[position + 3])
               && IsHex(source[position + 4]) && IsHex(source[position + 5])) {
          return Fail(InvalidUnicodeEscape, current);
        }
        var decoded := HexNumber(source[position + 2], source[position + 3],
                                 source[position + 4], source[position + 5]);
        assert unread[6..] == source[position + 6..];
        PrependChar(result, decoded, DecodeRest(unread[6..], quote, Across(current, 6), at));
        result := result + [decoded];
        position := position + 6;
        current := Across(current, 6);
        continue;
      }
      var replacement := Replacement(escaped, quote);
      if replacement.None? {
        return Fail(UnsupportedEscape, current);
      }
      assert unread[2..] == source[position + 2..];
      PrependChar(result, replacement.value, DecodeRest(unread[2..], quote, Across(current, 2), at));
      result := result + [replacement.value];
      position := position + 2;
      current := Across(current, 2);
    }
    return Fail(StringNotClosed, at);
  }

  // ------------------------------------------------------------- tokenizing

  /** One token cut off the front of a text: what is left, and where it starts. */
  datatype Cut = Cut(token: Token, rest: Text, place: Place)

  function CutToken(t: Text, at: Place): (r: Outcome<Cut>)
    requires t != [] && !IsSpace(t[0])
    ensures r.Ok? ==> |r.value.rest| < |t| && GoodToken(r.value.token)
  {
    var c := t[0];
    if IsPunct(c) then Ok(Cut(Token(Punct(c), [c], at), t[1..], Across(at, 1)))
    else if IsQuote(c) then
      match DecodeRest(t[1..], c, Across(at, 1), at)
      case Err(e) => Err(e)
      case Ok(d) => Ok(Cut(Token(StringToken, d.value, at), d.rest, d.place))
    else if IsDigit(c) then
      var n := DigitRun(t);
      Ok(Cut(Token(IntegerToken, t[..n], at), t[n..], Across(at, n)))
    else if IsWordStart(c) then
      var n := WordRun(t);
      Ok(Cut(Token(IdentifierToken, t[..n], at), t[n..], Across(at, n)))
    else Fail(UnexpectedCharacter, at)
  }

  /** The tokens of the unread text `t`, which starts at `at`, when `count` tokens
      have been read before it. */
  function Lex(t: Text, at: Place, count: nat): (r: Outcome<Tokens>)
    ensures r.Ok? ==> AllGood(r.value)
    ensures r.Ok? && count <= MAX_EXPRESSION_TOKENS ==> count + Count(r.value) <= MAX_EXPRESSION_TOKENS
    decreases |t|
  {
    if t == [] then Ok(End(at))
    else if IsSpace(t[0]) then Lex(t[1..], Locate(t[..1], at), count)
    else match CutToken(t, at)
      case Err(e) => Err(e)
      case Ok(cut) =>
        if count + 1 > MAX_EXPRESSION_TOKENS then Fail(TooManyTokens, at)
        else WithToken(cut.token, Lex(cut.rest, cut.place, count + 1))
  }

  function WithToken(token: Token, r: Outcome<Tokens>): Outcome<Tokens> {
    match r
    case Ok(tokens) => Ok(Next(token, tokens))
    case Err(e) => Err(e)
  }

  function Count(tokens: Tokens): nat {
    match tokens
    case End(_) => 0
    case Next(_, rest) => 1 + Count(rest)
  }

  /** Integer tokens hold digits, and the end mark is no token. */
  predicate GoodToken(token: Token) {
    && token.kind != Eof
    && (token.kind == IntegerToken ==> forall i | 0 <= i < |token.value| :: IsDigit(token.value[i]))
  }

  predicate AllGood(tokens: Tokens) {
    tokens.Next? ==> GoodToken(tokens.token) && AllGood(tokens.rest)
  }

  // ------------------------------------------------- tokens as a finished tuple

  /** The tuple ends with its only end mark. */
  predicate WellTerminated(tokens: seq<Token>) {
    && tokens != []
    && tokens[|tokens| - 1].kind == Eof
    && forall i | 0 <= i < |tokens| - 1 :: tokens[i].kind != Eof
  }

  /** The part of a token tuple that a reader at `position` has before it. */
  function Unread(tokens: seq<Token>, position: nat): Tokens
    requires position < |tokens|
    decreases |tokens| - position
  {
    if position == |tokens| - 1 then End(tokens[position].place)
    else Next(tokens[position], Unread(tokens, position + 1))
  }

  function Attach(prefix: seq<Token>, tail: Tokens): Tokens {
    if prefix == [] then tail
    else Attach(prefix[..|prefix| - 1], Next(prefix[|prefix| - 1], tail))
  }

  function AttachTo(prefix: seq<Token>, r: Outcome<Tokens>): Outcome<Tokens> {
    match r
    case Ok(tail) => Ok(Attach(prefix, tail))
    case Err(e) => Err(e)
  }

  lemma AttachStep(prefix: seq<Token>, token: Token, r: Outcome<Tokens>)
    ensures AttachTo(prefix + [token], r) == AttachTo(prefix, WithToken(token, r))
  {
    assert (prefix + [token])[..|prefix + [token]| - 1] == prefix;
  }

  lemma {:induction false} UnreadAttached(prefix: seq<Token>, tokens: seq<Token>)
    requires prefix < tokens
    ensures Unread(tokens, 0) == Attach(prefix, Unread(tokens, |prefix|))
    decreases |prefix|
  {
    if prefix != [] {
      UnreadAttached(prefix[..|prefix| - 1], tokens);
    }
  }

  method SkipDigits(source: Text, position: nat) returns (end: nat)
    requires position < |source| && IsDigit(source[position])
    ensures position < end <= |source|
    ensures DigitRun(source[position..]) == end - position
  {
    end := position + 1;
    assert source[end..] == source[position..][1..];
    while end < |source| && IsDigit(source[end])
      invariant position < end <= |source|
      invariant DigitRun(source[position..]) == end - position + DigitRun(source[end..])
    {
      assert source[end..][1..] == source[end + 1..];
      end := end + 1;
    }
  }

  /** Reads the token that starts at `position`, which is not white space. */
  method ReadToken(source: Text, position: nat, at: Place) returns (r: Outcome<(Token, nat, Place)>)
    requires position < |source| && !IsSpace(source[position])
    ensures match CutToken(source[position..], at)
            case Err(e) => r == Err(e)
            case Ok(cut) => r.Ok? && r.value.0 == cut.token && r.value.2 == cut.place
                            && position < r.value.1 <= |source| && source[r.value.1..] == cut.rest
  {
    hide DecodeRest, WordRun, DigitRun;
    ghost var unread := source[position..];
    var c := source[position];
    if IsPunct(c) {
      return Ok((Token(Punct(c), [c], at), position + 1, Across(at, 1)));
    } else if IsQuote(c) {
      var decoded := DecodeString(source, position, at);
      assert source[position + 1..] == unread[1..];
      if decoded.Err? {
        return Err(decoded.error);
      }
      return Ok((Token(StringToken, decoded.value.0, at), decoded.value.1, decoded.value.2));
    } else if IsDigit(c) {
      var end := SkipDigits(source, position);
      assert unread[..end - position] == source[position..end];
      return Ok((Token(IntegerToken, source[position..end], at), end, Across(at, end - position)));
    } else if IsWordStart(c) {
      var length := WordRun(source[position..]);
      return Ok((Token(IdentifierToken, source[position..position + length], at),
                 position + length, Across(at, length)));
    } else {
      return Fail(UnexpectedCharacter, at);
    }
  }

  method Tokenize(source: Text, at: Place) returns (r: Outcome<seq<Token>>)
    ensures match Lex(source, at, 0)
            case Err(e) => r == Err(e)
            case Ok(tokens) => r.Ok? && WellTerminated(r.value) && Unread(r.value, 0) == tokens
  {
    hide CutToken;
    var tokens: seq<Token> := [];
    var position := 0;
    var current := at;
    ghost var spec := Lex(source, at, 0);
    assert source[0..] == source;
    while position < |source|
      invariant 0 <= position <= |source|
      invariant |tokens| <= MAX_EXPRESSION_TOKENS
      invariant forall i | 0 <= i < |tokens| :: tokens[i].kind != Eof
      invariant spec == AttachTo(tokens, Lex(source[position..], current, |tokens|))
    {
      ghost var unread := source[position..];
      var c := source[position];
      if IsSpace(c) {
        assert unread[1..] == source[position + 1..];
        assert unread[..1] == [c] && Locate(unread[..1][..0], current) == current;
        if c == NEWLINE {
          current := Place(current.line + 1, 1);
        } else {
          current := Across(current, 1);
        }
        position := position + 1;
        continue;
      }
      var read := ReadToken(source, position, current);
      if read.Err? {
        return Err(read.error);
      }
      var tokenPlace := current;
      AttachStep(tokens, read.value.0, Lex(source[read.value.1..], read.value.2, |tokens| + 1));
      tokens := tokens + [read.value.0];
      position, current := read.value.1, read.value.2;
      if |tokens| > MAX_EXPRESSION_TOKENS {
        return Fail(TooManyTokens, tokenPlace);
      }
    }
    assert source[position..] == [];
    UnreadAttached(tokens, tokens + [Token(Eof, [], current)]);
    tokens := tokens + [Token(Eof, [], current)];
    return Ok(tokens);
  }
}
