/**
 Formatting: what the compiler accepts can be printed, and the printed text compiles to
 the same tree. Printing a second time changes nothing.
 */
module ScriptFormatter {
  import opened Common
  import opened Texts
  import opened ScriptLexer
  import opened ScriptLayout
  import opened ScriptParser
  import opened ScriptPrinter
  import opened ScriptCompiler

  // ---------------------------------------------------------- tokens are spelled

  /** Words are words, and numbers have digits. */
  predicate Spelled(token: Token) {
    && (token.kind == IdentifierToken ==> ValidWord(token.value))
    && (token.kind == IntegerToken ==> token.value != [])
  }

  predicate AllSpelled(t: Tokens) {
    t.Next? ==> Spelled(t.token) && AllSpelled(t.rest)
  }

  lemma CutIsSpelled(t: Text, at: Place)
    requires t != [] && !IsSpace(t[0]) && CutToken(t, at).Ok?
    ensures Spelled(CutToken(t, at).value.token)
  {
    hide DecodeRest;
  }

  lemma {:induction false} LexIsSpelled(t: Text, at: Place, count: nat)
    requires Lex(t, at, count).Ok?
    ensures AllSpelled(Lex(t, at, count).value)
    decreases |t|
  {
    hide CutToken, Spelled, Locate;
    if t != [] {
      if IsSpace(t[0]) {
        LexIsSpelled(t[1..], Locate(t[..1], at), count);
      } else {
        var cut := CutToken(t, at).value;
        CutIsSpelled(t, at);
        LexIsSpelled(cut.rest, cut.place, count + 1);
      }
    }
  }

  // ------------------------------------------------------- derived trees are printable

  /** Leading zeros are dropped, nothing is added. */
  lemma {:induction false} DigitsAreShort(digits: Text)
    requires digits != [] && forall i | 0 <= i < |digits| :: IsDigit(digits[i])
    ensures |DigitsOf(Decimal(digits))| <= |digits|
  {
    var front := digits[..|digits| - 1];
    assert IsDigit(digits[|digits| - 1]);
    if Decimal(digits) >= 10 {
      assert Decimal([]) == 0;
      assert front != [];
      DigitsAreShort(front);
      assert Decimal(digits) / 10 == Decimal(front);
    }
  }

  lemma SpelledIsPrintable(token: Token, value: Value, place: Place)
    requires Spelled(token) && Spells(token, value)
    ensures Printable(Literal(value, place))
  {
    if value.IntValue? {
      DigitsAreShort(token.value);
    }
  }

  /** A derived tree has a spelling, with as many lexemes as it took tokens. */
  lemma {:induction false} DerivedIsPrintable(e: Expression, t: Tokens, quote: Code, tail: Spelling)
    requires AllSpelled(t) && Derive(e, t).Some?
    ensures Printable(e) && AllSpelled(Derive(e, t).value)
    ensures Length(Flatten(e, quote, tail)) + Count(Derive(e, t).value) == Count(t) + Length(tail)
    decreases e, 2
  {
    hide Spells, Keyword, ValidWord, LiteralLexeme;
    match e
    case Literal(value, place) =>
      SpelledIsPrintable(t.token, value, place);
    case Variable(_, _) =>
    case List(children, _) =>
      ClosedIsPrintable(children, t.rest, CLOSE_BRACKET, quote, tail);
    case Call(_, children, _) =>
      ClosedIsPrintable(children, t.rest.rest, CLOSE_PAREN, quote, tail);
  }

  lemma {:induction false} ClosedIsPrintable(
    es: seq<Expression>, t: Tokens, closing: Code, quote: Code, tail: Spelling)
    requires AllSpelled(t) && DeriveClosed(es, t, closing).Some?
    ensures PrintableList(es) && AllSpelled(DeriveClosed(es, t, closing).value)
    ensures Length(FlattenClosed(es, quote, Then(Mark(closing), tail))) + Count(DeriveClosed(es, t, closing).value)
            == Count(t) + Length(tail)
    decreases es, 1
  {
    if es != [] {
      ListIsPrintable(es, t, closing, quote, tail);
    }
  }

  lemma {:induction false} ListIsPrintable(
    es: seq<Expression>, t: Tokens, closing: Code, quote: Code, tail: Spelling)
    requires es != [] && AllSpelled(t) && DeriveList(es, t, closing).Some?
    ensures PrintableList(es) && AllSpelled(DeriveList(es, t, closing).value)
    ensures Length(FlattenList(es, quote, Then(Mark(closing), tail))) + Count(DeriveList(es, t, closing).value)
            == Count(t) + Length(tail)
    decreases es, 0
  {
    hide Printable, Derive, Flatten;
    var close := Then(Mark(closing), tail);
    if |es| == 1 {
      assert es[1..] == [];
      DerivedIsPrintable(es[0], t, quote, close);
    } else {
      var next := Derive(es[0], t).value.rest;
      DerivedIsPrintable(es[0], t, quote, Then(Mark(COMMA), FlattenList(es[1..], quote, close)));
      ListIsPrintable(es[1..], next, closing, quote, tail);
    }
  }

  // ---------------------------------------------------------- printing compiled trees

  ghost predicate IsCompiled(e: Expression) {
    exists source, at :: Compile(source, at) == Ok(e)
  }

  /** Every compiled tree has a spelling within the token limit. */
  lemma CompiledIsPrintable(e: Expression)
    requires IsCompiled(e)
    ensures Printable(e) && Fits(e, 1) && Callable(e)
    ensures Length(Flatten(e, DOUBLE_QUOTE, Done)) <= MAX_EXPRESSION_TOKENS
  {
    hide Lex, Parse, Derive, Fits, Callable, Nodes, Walk, CheckCall, Printable, Flatten, AllSpelled;
    var source, at :| Compile(source, at) == Ok(e);
    CompiledTree(source, at);
    var tokens := Lex(source, at, 0).value;
    LexIsSpelled(source, at, 0);
    ParseIffDerived(tokens, e);
    DerivedIsPrintable(e, tokens, DOUBLE_QUOTE, Done);
  }

  lemma {:induction false} FlattenOfShape(e: Expression, quote: Code, tail: Spelling)
    ensures Flatten(Shape(e), quote, tail) == Flatten(e, quote, tail)
    decreases e, 2
  {
    match e
    case List(children, _) => FlattenOfShapes(children, quote, Then(Mark(CLOSE_BRACKET), tail));
    case Call(_, children, _) => FlattenOfShapes(children, quote, Then(Mark(CLOSE_PAREN), tail));
    case _ =>
  }

  lemma {:induction false} FlattenOfShapes(es: seq<Expression>, quote: Code, tail: Spelling)
    ensures FlattenClosed(Shapes(es), quote, tail) == FlattenClosed(es, quote, tail)
    decreases es, 1
  {
    if es != [] {
      hide Flatten, Shape;
      var rest := Shapes(es)[1..];
      assert rest == Shapes(es[1..]);
      FlattenOfShape(es[0], quote, if |es| == 1 then tail else Then(Mark(COMMA), FlattenList(es[1..], quote, tail)));
      if |es| > 1 {
        FlattenOfShapes(es[1..], quote, tail);
      }
    }
  }

  /** FORMATTING IS A NORMAL FORM. Whatever source the compiler accepts, the print of its
      tree, if not too long, compiles to the same tree, and printing that tree gives the
      same text again. */
  lemma CompiledTreesFormat(e: Expression, at: Place)
    requires IsCompiled(e) && |Print(e)| <= MAX_SOURCE_CHARACTERS
    ensures Compile(Print(e), at).Ok?
    ensures Shape(Compile(Print(e), at).value) == Shape(e) && Print(Compile(Print(e), at).value) == Print(e)
  {
    hide Compile, Fits, Callable, Printable, Flatten, Shape, Compact, Render, Apart, Length, IsCompiled;
    var spelling := Flatten(e, DOUBLE_QUOTE, Done);
    CompiledIsPrintable(e);
    DoneIsApart();
    FlattenIsApart(e, DOUBLE_QUOTE, Done);
    CompactIsValid(spelling);
    LexemesOfCompact(spelling);
    CompileOfPrinted(e, DOUBLE_QUOTE, Compact(spelling), at);
    FlattenOfShape(e, DOUBLE_QUOTE, Done);
    FlattenOfShape(Compile(Print(e), at).value, DOUBLE_QUOTE, Done);
  }

  lemma DoneIsApart()
    ensures Apart(Done) && StartsWithMark(Done)
  {
  }
}
