/**
 Spelling lexemes as characters, and the round trip through the tokenizer: any
 legal layout of any lexemes tokenizes to exactly those lexemes, each placed
 where its spelling begins.
 */
module ScriptLayout {
  import opened Common
  import opened Texts
  import opened ScriptLexer

  datatype Lexeme =
    | Mark(code: Code)
    | Quoted(value: Text, quote: Code)
    | Digits(digits: Text)
    | Word(name: Text)

  predicate ValidWord(name: Text) {
    && name != []
    && IsWordStart(name[0])
    && forall i | 0 <= i < |name| :: IsWordChar(name[i])
  }

  predicate ValidDigits(digits: Text) {
    digits != [] && forall i | 0 <= i < |digits| :: IsDigit(digits[i])
  }

  predicate ValidLexeme(l: Lexeme) {
    match l
    case Mark(c) => IsPunct(c)
    case Quoted(_, quote) => IsQuote(quote)
    case Digits(digits) => ValidDigits(digits)
    case Word(name) => ValidWord(name)
  }

  function HexDigit(v: nat): (c: Code)
    requires v < 16
    ensures IsHex(c) && HexValue(c) == v
  {
    if v < 10 then 48 + v else 87 + v
  }

  /** The escape of one character: quotes, backslashes and line breaks may not
      appear raw inside a literal on one line. */
  function Escape(c: Code, quote: Code): (t: Text)
    ensures t != []
    ensures IsQuote(quote) ==> forall i | 0 <= i < |t| :: !IsLineBreak(t[i])
  {
    if c == quote || c == BACKSLASH then [BACKSLASH, c]
    else if c == 10 then [BACKSLASH, 110]
    else if c == 13 then [BACKSLASH, 114]
    else if c == 9 then [BACKSLASH, 116]
    else if IsLineBreak(c) then
      [BACKSLASH, 117, HexDigit(c / 4096), HexDigit(c / 256 % 16), HexDigit(c / 16 % 16), HexDigit(c % 16)]
    else [c]
  }

  function EscapeAll(value: Text, quote: Code): (t: Text)
    ensures IsQuote(quote) ==> forall i | 0 <= i < |t| :: !IsLineBreak(t[i])
  {
    if value == [] then [] else Escape(value[0], quote) + EscapeAll(value[1..], quote)
  }

  function Spell(l: Lexeme): Text {
    match l
    case Mark(c) => [c]
    case Quoted(value, quote) => [quote] + EscapeAll(value, quote) + [quote]
    case Digits(digits) => digits
    case Word(name) => name
  }

  function TokenAt(l: Lexeme, at: Place): Token {
    match l
    case Mark(c) => Token(Punct(c), [c], at)
    case Quoted(value, _) => Token(StringToken, value, at)
    case Digits(digits) => Token(IntegerToken, digits, at)
    case Word(name) => Token(IdentifierToken, name, at)
  }

  // ------------------------------------------------------------- layouts

  /** Lexemes, each with the white space before it, and the white space at the end. */
  datatype Layout = Tail(gap: Text) | Item(gap: Text, lexeme: Lexeme, rest: Layout)

  /** Two lexemes whose spellings would run together without white space. */
  predicate Clash(left: Lexeme, right: Lexeme) {
    || (left.Word? && (right.Word? || right.Digits?))
    || (left.Digits? && right.Digits?)
  }

  predicate ValidLayout(layout: Layout) {
    && AllSpace(layout.gap)
    && (layout.Item? ==>
          && ValidLexeme(layout.lexeme)
          && (layout.rest.Item? && Clash(layout.lexeme, layout.rest.lexeme) ==> layout.rest.gap != [])
          && ValidLayout(layout.rest))
  }

  function Render(layout: Layout): Text {
    match layout
    case Tail(gap) => gap
    case Item(gap, lexeme, rest) => gap + (Spell(lexeme) + Render(rest))
  }

  /** Lexemes in order. */
  datatype Spelling = Done | Then(lexeme: Lexeme, rest: Spelling)

  function Length(spelling: Spelling): nat {
    if spelling.Done? then 0 else 1 + Length(spelling.rest)
  }

  function Lexemes(layout: Layout): Spelling {
    match layout
    case Tail(_) => Done
    case Item(_, lexeme, rest) => Then(lexeme, Lexemes(rest))
  }

  /** The tokens of a layout that begins at `at`. */
  function TokensOf(layout: Layout, at: Place): Tokens {
    match layout
    case Tail(gap) => End(Locate(gap, at))
    case Item(gap, lexeme, rest) =>
      var start := Locate(gap, at);
      Next(TokenAt(lexeme, start), TokensOf(rest, Locate(Spell(lexeme), start)))
  }

  // --------------------------------------------------- lexing one lexeme

  lemma {:induction false} RunOfDigits(digits: Text, tail: Text)
    requires forall i | 0 <= i < |digits| :: IsDigit(digits[i])
    requires tail != [] ==> !IsDigit(tail[0])
    ensures DigitRun(digits + tail) == |digits|
  {
    var t := digits + tail;
    assert forall i | 0 <= i < |digits| :: t[i] == digits[i];
    assert tail != [] ==> t[|digits|] == tail[0];
  }

  lemma {:induction false} RunOfWord(name: Text, tail: Text)
    requires forall i | 0 <= i < |name| :: IsWordChar(name[i])
    requires tail != [] ==> !IsWordChar(tail[0])
    ensures WordRun(name + tail) == |name|
  {
    var t := name + tail;
    assert forall i | 0 <= i < |name| :: t[i] == name[i];
    assert tail != [] ==> t[|name|] == tail[0];
  }

  lemma HexRoundTrip(c: Code)
    requires 0 <= c < 0x1_0000
    ensures HexNumber(HexDigit(c / 4096), HexDigit(c / 256 % 16), HexDigit(c / 16 % 16), HexDigit(c % 16)) == c
  {
    assert c / 256 == c / 4096 * 16 + c / 256 % 16;
    assert c / 16 == c / 256 * 16 + c / 16 % 16;
  }

  lemma DecodeRaw(c: Code, quote: Code, tail: Text, at: Place, open: Place)
    requires c != quote && c != BACKSLASH && c != 10 && c != 13
    ensures DecodeRest([c] + tail, quote, at, open)
            == WithChar(c, DecodeRest(tail, quote, Across(at, 1), open))
  {
    assert ([c] + tail)[1..] == tail;
  }

  lemma DecodeShort(c: Code, e: Code, quote: Code, tail: Text, at: Place, open: Place)
    requires IsQuote(quote) && e != 117 && Replacement(e, quote) == Some(c)
    ensures DecodeRest([BACKSLASH, e] + tail, quote, at, open)
            == WithChar(c, DecodeRest(tail, quote, Across(at, 2), open))
  {
    assert ([BACKSLASH, e] + tail)[2..] == tail;
  }

  lemma DecodeUnicode(h: Text, quote: Code, tail: Text, at: Place, open: Place)
    requires IsQuote(quote) && |h| == 4
    requires IsHex(h[0]) && IsHex(h[1]) && IsHex(h[2]) && IsHex(h[3])
    ensures DecodeRest([BACKSLASH, 117] + h + tail, quote, at, open)
            == WithChar(HexNumber(h[0], h[1], h[2], h[3]), DecodeRest(tail, quote, Across(at, 6), open))
  {
    hide IsHex, HexNumber;
    var t := [BACKSLASH, 117] + h + tail;
    assert t[6..] == tail && t[2] == h[0] && t[3] == h[1] && t[4] == h[2] && t[5] == h[3];
  }

  /** Decoding one escaped character. */
  lemma DecodeEscape(c: Code, quote: Code, tail: Text, at: Place, open: Place)
    requires IsQuote(quote)
    ensures DecodeRest(Escape(c, quote) + tail, quote, at, open)
            == WithChar(c, DecodeRest(tail, quote, Across(at, |Escape(c, quote)|), open))
  {
    hide DecodeRest, WithChar, HexNumber, HexDigit;
    var e := Escape(c, quote);
    if |e| == 6 {
      HexRoundTrip(c);
      assert e == [BACKSLASH, 117] + e[2..];
      DecodeUnicode(e[2..], quote, tail, at, open);
    } else if |e| == 2 {
      DecodeShort(c, e[1], quote, tail, at, open);
    } else {
      DecodeRaw(c, quote, tail, at, open);
    }
  }

  lemma DecodeClose(quote: Code, tail: Text, at: Place, open: Place)
    ensures DecodeRest([quote] + tail, quote, at, open) == Ok(Decoded([], tail, Across(at, 1)))
  {
    assert ([quote] + tail)[1..] == tail;
  }

  lemma WithHead(value: Text, tail: Text, p: Place)
    requires value != []
    ensures WithChar(value[0], Ok(Decoded(value[1..], tail, p))) == Ok(Decoded(value, tail, p))
  {
    assert [value[0]] + value[1..] == value;
  }

  lemma {:induction false} DecodeEscaped(value: Text, quote: Code, tail: Text, at: Place, open: Place)
    requires IsQuote(quote)
    ensures DecodeRest(EscapeAll(value, quote) + [quote] + tail, quote, at, open)
            == Ok(Decoded(value, tail, Across(at, |EscapeAll(value, quote)| + 1)))
  {
    hide DecodeRest, Escape, WithChar;
    var all := EscapeAll(value, quote) + [quote] + tail;
    if value == [] {
      assert all == [quote] + tail;
      DecodeClose(quote, tail, at, open);
    } else {
      var e := Escape(value[0], quote);
      var rest := EscapeAll(value[1..], quote) + [quote] + tail;
      assert all == e + rest;
      DecodeEscape(value[0], quote, rest, at, open);
      DecodeEscaped(value[1..], quote, tail, Across(at, |e|), open);
      WithHead(value, tail, Across(at, |EscapeAll(value, quote)| + 1));
    }
  }

  lemma {:induction false} SpellInline(l: Lexeme)
    requires ValidLexeme(l)
    ensures Spell(l) != [] && NEWLINE !in Spell(l) && !IsSpace(Spell(l)[0])
  {
  }

  lemma CutQuoted(value: Text, quote: Code, tail: Text, at: Place)
    requires IsQuote(quote)
    ensures CutToken(Spell(Quoted(value, quote)) + tail, at)
            == Ok(Cut(Token(StringToken, value, at), tail, Across(at, |EscapeAll(value, quote)| + 2)))
  {
    hide DecodeRest, EscapeAll, DigitRun, WordRun;
    var t := Spell(Quoted(value, quote)) + tail;
    assert t[1..] == EscapeAll(value, quote) + [quote] + tail;
    DecodeEscaped(value, quote, tail, Across(at, 1), at);
  }

  lemma CutDigits(digits: Text, tail: Text, at: Place)
    requires ValidDigits(digits) && (tail != [] ==> !IsDigit(tail[0]))
    ensures CutToken(digits + tail, at)
            == Ok(Cut(Token(IntegerToken, digits, at), tail, Across(at, |digits|)))
  {
    var t := digits + tail;
    RunOfDigits(digits, tail);
    assert t[..|digits|] == digits && t[|digits|..] == tail && t[0] == digits[0];
  }

  lemma CutWord(name: Text, tail: Text, at: Place)
    requires ValidWord(name) && (tail != [] ==> !IsWordChar(tail[0]))
    ensures CutToken(name + tail, at)
            == Ok(Cut(Token(IdentifierToken, name, at), tail, Across(at, |name|)))
  {
    var t := name + tail;
    RunOfWord(name, tail);
    assert t[..|name|] == name && t[|name|..] == tail && t[0] == name[0];
  }

  /** Cutting a token off the spelling of a lexeme. */
  lemma CutSpelling(l: Lexeme, tail: Text, at: Place)
    requires ValidLexeme(l)
    requires l.Digits? && tail != [] ==> !IsDigit(tail[0])
    requires l.Word? && tail != [] ==> !IsWordChar(tail[0])
    ensures !IsSpace((Spell(l) + tail)[0])
    ensures CutToken(Spell(l) + tail, at) == Ok(Cut(TokenAt(l, at), tail, Locate(Spell(l), at)))
  {
    SpellInline(l);
    LocateInline(Spell(l), at);
    match l
    case Mark(c) => assert ([c] + tail)[1..] == tail;
    case Quoted(value, quote) => CutQuoted(value, quote, tail, at);
    case Digits(digits) => CutDigits(digits, tail, at);
    case Word(name) => CutWord(name, tail, at);
  }

  lemma LexSpelling(l: Lexeme, tail: Text, at: Place, count: nat)
    requires ValidLexeme(l) && count < MAX_EXPRESSION_TOKENS
    requires l.Digits? && tail != [] ==> !IsDigit(tail[0])
    requires l.Word? && tail != [] ==> !IsWordChar(tail[0])
    ensures Lex(Spell(l) + tail, at, count)
            == WithToken(TokenAt(l, at), Lex(tail, Locate(Spell(l), at), count + 1))
  {
    hide CutToken, Spell;
    CutSpelling(l, tail, at);
  }

  lemma {:induction false} LexGap(gap: Text, tail: Text, at: Place, count: nat)
    requires AllSpace(gap)
    ensures Lex(gap + tail, at, count) == Lex(tail, Locate(gap, at), count)
  {
    if gap == [] {
      assert gap + tail == tail;
    } else {
      var t := gap + tail;
      assert t[..1] == gap[..1] && t[1..] == gap[1..] + tail;
      LexGap(gap[1..], tail, Locate(gap[..1], at), count);
      assert gap == gap[..1] + gap[1..];
      LocateConcat(gap[..1], gap[1..], at);
    }
  }

  // ------------------------------------------------------ the round trip

  /** What follows the first lexeme of a layout cannot extend it. */
  lemma FirstOfRest(layout: Layout)
    requires layout.Item? && ValidLayout(layout)
    ensures var tail := Render(layout.rest);
            tail != [] ==>
              && (layout.lexeme.Digits? ==> !IsDigit(tail[0]))
              && (layout.lexeme.Word? ==> !IsWordChar(tail[0]))
  {
    if layout.rest.Item? {
      SpellInline(layout.rest.lexeme);
    }
  }

  lemma LexOfGap(gap: Text, at: Place, count: nat)
    requires AllSpace(gap)
    ensures Lex(gap, at, count) == Ok(End(Locate(gap, at)))
  {
    assert gap + [] == gap;
    LexGap(gap, [], at, count);
  }

  /** Tokenizing any legal layout gives back its lexemes, exactly placed. */
  lemma {:induction false} LexOfRender(layout: Layout, at: Place, count: nat)
    requires ValidLayout(layout)
    requires count + Length(Lexemes(layout)) <= MAX_EXPRESSION_TOKENS
    ensures Lex(Render(layout), at, count) == Ok(TokensOf(layout, at))
  {
    hide Lex, Spell, ValidLexeme, Locate, AllSpace, IsSpace;
    match layout
    case Tail(gap) =>
      LexOfGap(gap, at, count);
    case Item(gap, lexeme, rest) =>
      FirstOfRest(layout);
      var start := Locate(gap, at);
      LexGap(gap, Spell(lexeme) + Render(rest), at, count);
      LexSpelling(lexeme, Render(rest), start, count);
      LexOfRender(rest, Locate(Spell(lexeme), start), count + 1);
  }
}
