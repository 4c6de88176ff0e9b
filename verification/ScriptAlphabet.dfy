/**
 The characters of the management script language, letter by letter.

 What a reader and a printer agree on could be any alphabet; here it is spelled out:
 white space, the marks, the characters of words, the escapes of literals and the limits.
 */
module ScriptAlphabet {
  import opened Common
  import opened Texts
  import opened ScriptLexer
  import opened ScriptParser
  import opened ScriptCompiler
  import opened ScriptEvaluator

  /** The white space of Python. */
  const WHITE: set<Code> :=
    {9, 10, 11, 12, 13, 28, 29, 30, 31, 32, 133, 160, 5760, 8192, 8193, 8194, 8195, 8196, 8197, 8198, 8199, 8200,
     8201, 8202, 8232, 8233, 8239, 8287, 12288}

  lemma CharactersAre(c: Code)
    ensures IsSpace(c) <==> c in WHITE
    ensures IsPunct(c) <==> c in A("(),[]")
    ensures IsQuote(c) <==> c in A("\"'")
    ensures IsWordStart(c) <==> 'A' as int <= c <= 'Z' as int || 'a' as int <= c <= 'z' as int || c == '_' as int
    ensures IsWordChar(c) <==> IsWordStart(c) || '0' as int <= c <= '9' as int || c == '.' as int
  {
    assert A("(),[]") == [40, 41, 44, 91, 93];
    assert A("\"'") == [34, 39];
  }

  lemma MarksAre()
    ensures [OPEN_PAREN, CLOSE_PAREN, COMMA, OPEN_BRACKET, CLOSE_BRACKET] == A("(),[]")
    ensures [DOUBLE_QUOTE, SINGLE_QUOTE, BACKSLASH, SPACE] == A("\"'\\ ")
    ensures NEWLINE == '\n' as int
  {
  }

  lemma LimitsAre()
    ensures MAX_SOURCE_CHARACTERS == 32768 && MAX_EXPRESSION_TOKENS == 2048 && MAX_EXPRESSION_DEPTH == 20
    ensures MAX_LIST_VALUES == 100 && MAX_INTEGER_DIGITS == 4300 && MAX_RUNTIME_STEPS == 10000
    ensures MAX_VALUE_CHARACTERS == 8192 && MAX_TOTAL_OUTPUT_CHARACTERS == 65536 && MAX_PAD_WIDTH == 1024
  {
  }

  /** ESCAPES: what follows a backslash says one character, and the literal goes on behind it. */
  lemma EscapesSay(e: Code, t: Text, quote: Code, at: Place, open: Place)
    requires quote in A("\"'")
    ensures var r := DecodeRest(A("\\") + [e] + t, quote, at, open);
            var rest := DecodeRest(t, quote, Across(at, 2), open);
            && (e == 'n' as int ==> r == WithChar('\n' as int, rest))
            && (e == 'r' as int ==> r == WithChar('\r' as int, rest))
            && (e == 't' as int ==> r == WithChar('\t' as int, rest))
            && (e == '\\' as int || e == quote ==> r == WithChar(e, rest))
            && (e !in A("nrtu\\") + [quote] ==> r == Err(ScriptError(UnsupportedEscape, at)))
  {
    var s := A("\\") + [e] + t;
    assert A("\"'") == [34, 39] && A("nrtu\\") == [110, 114, 116, 117, 92];
    assert s[0] == 92 && s[1] == e && s[2..] == t;
  }

  /** Hexadecimal digits, in either case. */
  lemma HexDigitsSay(c: Code, i: nat)
    requires i < 16
    ensures IsHex(A("0123456789abcdef")[i]) && HexValue(A("0123456789abcdef")[i]) == i
    ensures IsHex(A("0123456789ABCDEF")[i]) && HexValue(A("0123456789ABCDEF")[i]) == i
    ensures IsHex(c) ==> c in A("0123456789abcdef") || c in A("0123456789ABCDEF")
  {
    var small, large := "0123456789abcdef", "0123456789ABCDEF";
    assert forall k | 0 <= k < 10 :: small[k] as int == large[k] as int == 48 + k;
    assert forall k | 10 <= k < 16 :: small[k] as int == 87 + k && large[k] as int == 55 + k;
    if IsDigit(c) {
      assert A(small)[c - 48] == c;
    } else if IsHex(c) {
      if c <= 70 {
        assert A(large)[c - 55] == c;
      } else {
        assert A(small)[c - 87] == c;
      }
    }
  }

  /** A LITERAL BY UNITS: a backslash, `u` and four hexadecimal digits say the code unit that the
      digits are the number of. */
  lemma UnitsSay(i: nat, j: nat, k: nat, l: nat, t: Text, quote: Code, at: Place, open: Place)
    requires i < 16 && j < 16 && k < 16 && l < 16 && quote in A("\"'")
    ensures var hex := A("0123456789ABCDEF");
            DecodeRest(A("\\u") + [hex[i], hex[j], hex[k], hex[l]] + t, quote, at, open)
            == WithChar(((i * 16 + j) * 16 + k) * 16 + l, DecodeRest(t, quote, Across(at, 6), open))
  {
    hide IsHex, HexValue;
    HexDigitsSay(0, i);
    HexDigitsSay(0, j);
    HexDigitsSay(0, k);
    HexDigitsSay(0, l);
    var hex := A("0123456789ABCDEF");
    UnitAt(hex[i], hex[j], hex[k], hex[l], t, quote, at, open);
  }

  lemma UnitAt(a: Code, b: Code, c: Code, d: Code, t: Text, quote: Code, at: Place, open: Place)
    requires IsHex(a) && IsHex(b) && IsHex(c) && IsHex(d) && quote in A("\"'")
    ensures DecodeRest(A("\\u") + [a, b, c, d] + t, quote, at, open)
            == WithChar(HexNumber(a, b, c, d), DecodeRest(t, quote, Across(at, 6), open))
  {
    hide IsHex, HexValue, HexNumber;
    var s := A("\\u") + [a, b, c, d] + t;
    assert A("\"'") == [34, 39];
    assert s[0] == 92 && s[1] == 117 && s[2] == a && s[3] == b && s[4] == c && s[5] == d && s[6..] == t;
  }
}
