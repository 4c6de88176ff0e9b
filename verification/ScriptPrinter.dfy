/**
 Printing expression trees, and the round trip: the text of a tree, with any
 white space between its lexemes, is read back as the same tree.
 */
module ScriptPrinter {
  import opened Common
  import opened Texts
  import opened ScriptLexer
  import opened ScriptLayout
  import opened ScriptParser

  /** The decimal digits of a number, without leading zeros. */
  function DigitsOf(n: nat): (t: Text)
    ensures t != [] && forall i | 0 <= i < |t| :: IsDigit(t[i])
  {
    if n < 10 then [48 + n] else DigitsOf(n / 10) + [48 + n % 10]
  }

  lemma {:induction false} DecimalOfDigits(n: nat)
    ensures Decimal(DigitsOf(n)) == n
  {
    if n < 10 {
      assert Decimal([]) == 0;
      assert DigitsOf(n)[..0] == [];
    } else {
      DecimalOfDigits(n / 10);
      assert DigitsOf(n)[..|DigitsOf(n)| - 1] == DigitsOf(n / 10);
    }
  }

  /** The trees that have a spelling: a negative number or a list is no literal. */
  predicate Printable(e: Expression)
    decreases e, 1
  {
    match e
    case Literal(value, _) =>
      (match value
       case IntValue(n) => n >= 0 && |DigitsOf(n)| <= MAX_INTEGER_DIGITS
       case ListValue(_) => false
       case _ => true)
    case Variable(name, _) => ValidWord(name) && Keyword(name).None?
    case List(children, _) => PrintableList(children)
    case Call(name, children, _) => ValidWord(name) && Keyword(name).None? && PrintableList(children)
  }

  predicate PrintableList(es: seq<Expression>)
    decreases es, 0
  {
    es == [] || (Printable(es[0]) && PrintableList(es[1..]))
  }

  function LiteralLexeme(value: Value, quote: Code): Lexeme {
    match value
    case TextValue(text) => Quoted(text, quote)
    case IntValue(n) => Digits(if n >= 0 then DigitsOf(n) else [])
    case BoolValue(flag) => Word(if flag then TRUE else FALSE)
    case NullValue => Word(NULL)
    case ListValue(_) => Word([])
  }

  /** The lexemes of a tree, followed by `tail`. */
  function Flatten(e: Expression, quote: Code, tail: Spelling): Spelling
    decreases e, 2
  {
    match e
    case Literal(value, _) => Then(LiteralLexeme(value, quote), tail)
    case Variable(name, _) => Then(Word(name), tail)
    case List(children, _) =>
      Then(Mark(OPEN_BRACKET), FlattenClosed(children, quote, Then(Mark(CLOSE_BRACKET), tail)))
    case Call(name, children, _) =>
      Then(Word(name), Then(Mark(OPEN_PAREN),
           FlattenClosed(children, quote, Then(Mark(CLOSE_PAREN), tail))))
  }

  function FlattenClosed(es: seq<Expression>, quote: Code, tail: Spelling): Spelling
    decreases es, 1
  {
    if es == [] then tail else FlattenList(es, quote, tail)
  }

  function FlattenList(es: seq<Expression>, quote: Code, tail: Spelling): Spelling
    requires es != []
    decreases es, 0
  {
    Flatten(es[0], quote,
            if |es| == 1 then tail else Then(Mark(COMMA), FlattenList(es[1..], quote, tail)))
  }

  /** A tree without its places. */
  function Shape(e: Expression): Expression
    decreases e, 1
  {
    match e
    case Literal(value, _) => Literal(value, Place(0, 0))
    case Variable(name, _) => Variable(name, Place(0, 0))
    case List(children, _) => List(Shapes(children), Place(0, 0))
    case Call(name, children, _) => Call(name, Shapes(children), Place(0, 0))
  }

  function Shapes(es: seq<Expression>): (r: seq<Expression>)
    ensures |r| == |es|
    decreases es, 0
  {
    if es == [] then [] else [Shape(es[0])] + Shapes(es[1..])
  }

  // ------------------------------------------------------- reading it back

  lemma LiteralSpells(value: Value, quote: Code, place: Place)
    requires IsQuote(quote) && Printable(Literal(value, place))
    ensures Spells(TokenAt(LiteralLexeme(value, quote), place), value)
  {
    match value
    case IntValue(n) => DecimalOfDigits(n);
    case _ =>
  }

  /** The tokens of a printed tree derive a tree of the same shape, whose places
      are where the tokens are. */
  lemma {:induction false} Rebuild(
    e: Expression, quote: Code, tail: Spelling, layout: Layout, at: Place)
    returns (built: Expression, rest: Layout, after: Place)
    requires IsQuote(quote) && Printable(e) && Lexemes(layout) == Flatten(e, quote, tail)
    ensures Lexemes(rest) == tail
    ensures Derive(built, TokensOf(layout, at)) == Some(TokensOf(rest, after))
    ensures Shape(built) == Shape(e)
    decreases e, 2
  {
    var place := Locate(layout.gap, at);
    var next := Locate(Spell(layout.lexeme), place);
    hide Locate, Spell, ValidWord, Spells, Keyword, LiteralLexeme;
    match e
    case Literal(value, _) =>
      LiteralSpells(value, quote, place);
      built, rest, after := Literal(value, place), layout.rest, next;
    case Variable(name, _) =>
      built, rest, after := Variable(name, place), layout.rest, next;
    case List(children, _) =>
      var trees;
      trees, rest, after :=
        RebuildClosed(children, quote, CLOSE_BRACKET, tail, layout.rest, next);
      built := List(trees, place);
    case Call(name, children, _) =>
      var paren := layout.rest;
      var inside := Locate(Spell(paren.lexeme), Locate(paren.gap, next));
      var trees;
      trees, rest, after :=
        RebuildClosed(children, quote, CLOSE_PAREN, tail, paren.rest, inside);
      built := Call(name, trees, place);
  }

  lemma {:induction false} RebuildClosed(
    es: seq<Expression>, quote: Code, closing: Code, tail: Spelling, layout: Layout, at: Place)
    returns (built: seq<Expression>, rest: Layout, after: Place)
    requires IsQuote(quote) && PrintableList(es)
    requires Lexemes(layout) == FlattenClosed(es, quote, Then(Mark(closing), tail))
    ensures Lexemes(rest) == tail
    ensures DeriveClosed(built, TokensOf(layout, at), closing) == Some(TokensOf(rest, after))
    ensures Shapes(built) == Shapes(es)
    decreases es, 1
  {
    if es == [] {
      built, rest := [], layout.rest;
      after := Locate(Spell(layout.lexeme), Locate(layout.gap, at));
    } else {
      built, rest, after := RebuildList(es, quote, closing, tail, layout, at);
    }
  }

  lemma {:induction false} RebuildList(
    es: seq<Expression>, quote: Code, closing: Code, tail: Spelling, layout: Layout, at: Place)
    returns (built: seq<Expression>, rest: Layout, after: Place)
    requires IsQuote(quote) && es != [] && PrintableList(es)
    requires Lexemes(layout) == FlattenList(es, quote, Then(Mark(closing), tail))
    ensures Lexemes(rest) == tail && built != []
    ensures DeriveList(built, TokensOf(layout, at), closing) == Some(TokensOf(rest, after))
    ensures Shapes(built) == Shapes(es)
    decreases es, 0
  {
    hide Locate, Spell, Printable, Derive, Shape, Flatten;
    var others := if |es| == 1 then Then(Mark(closing), tail)
                  else Then(Mark(COMMA), FlattenList(es[1..], quote, Then(Mark(closing), tail)));
    var first, mark, place := Rebuild(es[0], quote, others, layout, at);
    var next := Locate(Spell(mark.lexeme), Locate(mark.gap, place));
    if |es| == 1 {
      built, rest, after := [first], mark.rest, next;
    } else {
      var more;
      more, rest, after := RebuildList(es[1..], quote, closing, tail, mark.rest, next);
      built := [first] + more;
      assert built[1..] == more;
    }
  }

  /** Tokenizing and parsing a text. */
  function Read(source: Text, at: Place): Outcome<Expression> {
    match Lex(source, at, 0)
    case Err(e) => Err(e)
    case Ok(tokens) => Parse(tokens)
  }

  lemma {:induction false} FitsShape(e: Expression, depth: nat)
    ensures Fits(e, depth) == Fits(Shape(e), depth)
    decreases e, 1
  {
    match e
    case List(children, _) => FitsShapes(children, depth + 1);
    case Call(_, children, _) => FitsShapes(children, depth + 1);
    case _ =>
  }

  lemma {:induction false} FitsShapes(es: seq<Expression>, depth: nat)
    ensures FitsList(es, depth) == FitsList(Shapes(es), depth)
    decreases es, 0
  {
    if es != [] {
      FitsShape(es[0], depth);
      FitsShapes(es[1..], depth);
      assert Shapes(es)[1..] == Shapes(es[1..]);
    }
  }

  /** ROUND TRIP. Every tree within the limits, printed with either quote and any
      legal white space, is read back as the same tree. */
  lemma ReadOfPrinted(e: Expression, quote: Code, layout: Layout, at: Place)
    requires IsQuote(quote) && Printable(e) && Fits(e, 1)
    requires ValidLayout(layout) && Lexemes(layout) == Flatten(e, quote, Done)
    requires Length(Flatten(e, quote, Done)) <= MAX_EXPRESSION_TOKENS
    ensures Read(Render(layout), at).Ok?
    ensures Shape(Read(Render(layout), at).value) == Shape(e)
  {
    hide Lex, Derive, Fits, Shape, Flatten, Render, Printable;
    LexOfRender(layout, at, 0);
    var built, rest, after := Rebuild(e, quote, Done, layout, at);
    FitsShape(e, 1);
    FitsShape(built, 1);
    ParseIffDerived(TokensOf(layout, at), built);
  }

  // ------------------------------------------------------- the compact form

  /** The layout without any white space. */
  function Compact(spelling: Spelling): Layout {
    match spelling
    case Done => Tail([])
    case Then(lexeme, rest) => Item([], lexeme, Compact(rest))
  }

  function Print(e: Expression): Text {
    Render(Compact(Flatten(e, DOUBLE_QUOTE, Done)))
  }

  lemma {:induction false} LexemesOfCompact(spelling: Spelling)
    ensures Lexemes(Compact(spelling)) == spelling
  {
    if spelling.Then? {
      LexemesOfCompact(spelling.rest);
    }
  }

  /** Nothing runs together: a spelling whose words and numbers stand apart. */
  predicate Apart(spelling: Spelling) {
    spelling.Then? ==>
      && ValidLexeme(spelling.lexeme)
      && (spelling.rest.Then? ==> !Clash(spelling.lexeme, spelling.rest.lexeme))
      && Apart(spelling.rest)
  }

  lemma {:induction false} CompactIsValid(spelling: Spelling)
    requires Apart(spelling)
    ensures ValidLayout(Compact(spelling))
  {
    if spelling.Then? {
      CompactIsValid(spelling.rest);
    }
  }

  predicate StartsWithMark(spelling: Spelling) {
    spelling.Then? ==> spelling.lexeme.Mark?
  }

  lemma {:induction false} FlattenIsApart(e: Expression, quote: Code, tail: Spelling)
    requires IsQuote(quote) && Printable(e) && Apart(tail) && StartsWithMark(tail)
    ensures Apart(Flatten(e, quote, tail))
    decreases e, 2
  {
    match e
    case List(children, _) =>
      FlattenClosedIsApart(children, quote, Then(Mark(CLOSE_BRACKET), tail));
    case Call(_, children, _) =>
      FlattenClosedIsApart(children, quote, Then(Mark(CLOSE_PAREN), tail));
    case Literal(_, _) =>
    case Variable(_, _) =>
  }

  lemma {:induction false} FlattenClosedIsApart(es: seq<Expression>, quote: Code, tail: Spelling)
    requires IsQuote(quote) && PrintableList(es) && Apart(tail) && StartsWithMark(tail)
    ensures Apart(FlattenClosed(es, quote, tail))
    decreases es, 1
  {
    if es != [] {
      FlattenListIsApart(es, quote, tail);
    }
  }

  lemma {:induction false} FlattenListIsApart(es: seq<Expression>, quote: Code, tail: Spelling)
    requires IsQuote(quote) && es != [] && PrintableList(es) && Apart(tail) && StartsWithMark(tail)
    ensures Apart(FlattenList(es, quote, tail))
    decreases es, 0
  {
    if |es| == 1 {
      FlattenIsApart(es[0], quote, tail);
    } else {
      FlattenListIsApart(es[1..], quote, tail);
      FlattenIsApart(es[0], quote, Then(Mark(COMMA), FlattenList(es[1..], quote, tail)));
    }
  }

  /** The compact print of a tree within the limits is read back as that tree. */
  lemma ReadOfPrint(e: Expression, at: Place)
    requires Printable(e) && Fits(e, 1)
    requires Length(Flatten(e, DOUBLE_QUOTE, Done)) <= MAX_EXPRESSION_TOKENS
    ensures Read(Print(e), at).Ok? && Shape(Read(Print(e), at).value) == Shape(e)
  {
    var spelling := Flatten(e, DOUBLE_QUOTE, Done);
    FlattenIsApart(e, DOUBLE_QUOTE, Done);
    CompactIsValid(spelling);
    LexemesOfCompact(spelling);
    ReadOfPrinted(e, DOUBLE_QUOTE, Compact(spelling), at);
  }
}
