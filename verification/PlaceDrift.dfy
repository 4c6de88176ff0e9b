/**
 The places that the compiler is told, beside the places where the expressions stand.

 A tagging program and a naming template hand their expressions to the compiler with a
 starting place. For an assignment it is the place behind the equals sign, for a template
 the line of the brace: `AssignmentRoot` and `TemplateRoot` say exactly when the compiled
 tree stands where its text does, and `AssignmentDrift` and `TemplateDrift` how all of its
 places are off otherwise.
 */
module PlaceDrift {
  import opened Common
  import opened Texts
  import opened ScriptLexer
  import opened ScriptParser
  import opened ScriptPrinter
  import opened ScriptCompiler
  import opened ScriptPlaces
  import opened TaggingProgram
  import TaggingPrinter
  import opened NamingTemplate

  // ------------------------------------------------------------ the root of a tree

  lemma LexStart(source: Text, at: Place)
    requires source != [] && !IsSpace(source[0]) && Lex(source, at, 0).Ok?
    ensures PlaceOf(Lex(source, at, 0).value) == at
  {
    hide DecodeRest, DigitRun, WordRun;
  }

  lemma PrimaryPlace(t: Tokens, depth: nat)
    requires AllGood(t) && Primary(t, depth).Ok?
    ensures Primary(t, depth).value.tree.place == PlaceOf(t)
  {
    hide Arguments, Keyword;
  }

  /** The root of a compiled tree stands at the place that the compiler was told. */
  lemma RootPlace(source: Text, at: Place)
    requires source != [] && !IsSpace(source[0]) && Compile(source, at).Ok?
    ensures Compile(source, at).value.place == at
  {
    hide Lex, Primary, Strip, ScriptCompiler.Walk, FirstFailure, IsSpace, PlaceOf;
    LexStart(source, at);
    PrimaryPlace(Lex(source, at, 0).value, 1);
  }

  lemma StripStartsVisible(t: Text)
    ensures Strip(t) != [] ==> !IsSpace(Strip(t)[0])
  {
    hide IsSpace;
    var r := LStrip(t);
    assert RStrip(r) != [] ==> RStrip(r)[0] == r[0];
  }

  lemma CompiledIsSomething(source: Text, at: Place)
    requires Compile(source, at).Ok?
    ensures Strip(source) != [] && source != []
  {
    hide Read, ScriptCompiler.Walk, FirstFailure;
  }

  // ------------------------------------------------------------------ assignments

  /** Where the expression of an assignment line begins. */
  function ExpressionPlace(raw: Text, number: int): Place
    requires ReadLine(raw).Assignment? && 1 <= ReadLine(raw).column <= |raw| + 1
  {
    var column := ReadLine(raw).column;
    assert Indent(raw[column - 1..]) <= |raw[column - 1..]| by { IndentIsShort(raw[column - 1..]); }
    Locate(raw[..column - 1 + Indent(raw[column - 1..])], Place(number, 1))
  }

  /** THE PLACE OF AN ASSIGNED EXPRESSION is right exactly if no white space follows the
      equals sign: the root of the tree that a line compiles to stands at the place where
      the text of the expression begins. */
  lemma AssignmentRoot(raw: Text, number: int)
    requires ReadLine(raw).Assignment? && NEWLINE !in raw
    requires Compile(ReadLine(raw).source, Place(number, ReadLine(raw).column)).Ok?
    ensures 2 <= ReadLine(raw).column <= |raw| + 1
    ensures var root := Compile(ReadLine(raw).source, Place(number, ReadLine(raw).column)).value.place;
            root == ExpressionPlace(raw, number) <==> Indent(raw[ReadLine(raw).column - 1..]) == 0
  {
    hide ReadLine, Compile, Strip, Indent, Locate;
    AssignmentColumn(raw, number);
    var r := ReadLine(raw);
    CompiledIsSomething(r.source, Place(number, r.column));
    StripStartsVisible(raw[r.column - 1..]);
    RootPlace(r.source, Place(number, r.column));
  }

  /** Told the right place, the compiler yields the same tree or failure, with every place
      moved by the width of the white space. */
  lemma AssignmentDrift(raw: Text, number: int)
    requires ReadLine(raw).Assignment? && NEWLINE !in raw
    ensures 2 <= ReadLine(raw).column <= |raw| + 1
    ensures var given := Place(number, ReadLine(raw).column);
            var right := ExpressionPlace(raw, number);
            && right == Place(number, given.column + Indent(raw[given.column - 1..]))
            && Compile(ReadLine(raw).source, right) == Moved(Compile(ReadLine(raw).source, given), given, right)
  {
    hide ReadLine, Compile, Strip, Indent, Locate, Moved;
    AssignmentColumn(raw, number);
    CompileMoves(ReadLine(raw).source, Place(number, ReadLine(raw).column), ExpressionPlace(raw, number));
  }

  // -------------------------------------------------------------------- templates

  /** THE PLACE OF A BODY is right exactly if no line break stands before its first visible
      character. */
  lemma TemplateRoot(raw: Text, at: Place)
    requires ReadBody(raw, at).Ok? && ReadBody(raw, at).value.ExpressionSegment?
    ensures ReadBody(raw, at).value.tree.place == Locate([OPEN_BRACE] + Lead(raw), at) <==> NEWLINE !in Lead(raw)
  {
    hide Compile, Strip, Legacy, Locate, Lead, BodyPlace;
    StripStartsVisible(raw);
    RootPlace(Strip(raw), BodyPlace(raw, at));
    BodyPlaceIsRight(raw, at);
  }

  /** Told the right place, the compiler yields the same tree or failure, with every place
      moved from the line of the brace to that of the body. */
  lemma TemplateDrift(raw: Text, at: Place)
    ensures var given, right := BodyPlace(raw, at), Locate([OPEN_BRACE] + Lead(raw), at);
            Compile(Strip(raw), right) == Moved(Compile(Strip(raw), given), given, right)
  {
    hide Compile, Strip, Locate, Lead, Moved;
    CompileMoves(Strip(raw), BodyPlace(raw, at), Locate([OPEN_BRACE] + Lead(raw), at));
  }

  // ------------------------------------------------------------ accepted sources

  const ONE: Text := [49]

  lemma OneIsVisible()
    ensures |ONE| == 1 && ONE[0] == 49 && !IsSpace(ONE[0]) && !IsPunct(ONE[0]) && !IsQuote(ONE[0]) && IsDigit(ONE[0])
  {
  }

  lemma LexOne(at: Place)
    ensures Lex(ONE, at, 0) == Ok(Next(Token(IntegerToken, ONE, at), End(Across(at, 1))))
  {
    hide IsSpace, IsPunct, IsQuote, IsWordStart, DecodeRest, WordRun;
    OneIsVisible();
    var n := DigitRun(ONE);
    assert n == 1 by { assert IsDigit(ONE[0]); }
    assert ONE[..1] == ONE && ONE[1..] == [];
    assert CutToken(ONE, at) == Ok(Cut(Token(IntegerToken, ONE, at), [], Across(at, 1)));
  }

  lemma ParseOne(at: Place, end: Place)
    ensures AllGood(Next(Token(IntegerToken, ONE, at), End(end)))
    ensures Parse(Next(Token(IntegerToken, ONE, at), End(end))) == Ok(Literal(IntValue(1), at))
  {
    hide Arguments, Keyword;
    assert ONE[..0] == [];
    assert Decimal(ONE) == 1;
  }

  lemma CompileOne(at: Place)
    ensures Compile(ONE, at) == Ok(Literal(IntValue(1), at)) && Strip(ONE) == ONE
  {
    hide Lex, Parse, Strip, IsSpace, ScriptCompiler.Walk, FirstFailure;
    OneIsVisible();
    StripOfPadded([], ONE, []);
    assert [] + ONE + [] == ONE;
    LexOne(at);
    ParseOne(at, Across(at, 1));
    CallableIffNoFailure(Literal(IntValue(1), at));
  }

  /** Every assignment line in the canonical layout is accepted and off by one column. */
  lemma PrintedAssignmentIsOff(indent: Text, append: bool, target: Text, e: Expression, number: int)
    requires TaggingPrinter.IsIndent(indent) && IsCleanTarget(target) && TaggingPrinter.Writable(e)
    ensures var raw := indent + TaggingPrinter.AssignmentText(append, target, Print(e));
            && ReadLine(raw).Assignment? && ReadLine(raw).source == Print(e)
            && 2 <= ReadLine(raw).column <= |raw| + 1
            && ExpressionPlace(raw, number) == Place(number, ReadLine(raw).column + 1)
            && Compile(Print(e), Place(number, ReadLine(raw).column)).Ok?
            && Compile(Print(e), Place(number, ReadLine(raw).column)).value.place
               == Place(number, ReadLine(raw).column)
  {
    hide ReadLine, Compile, Strip, Indent, Locate, TaggingPrinter.Writable, TaggingPrinter.IsIndent,
      TaggingPrinter.Solid, TaggingPrinter.AssignmentText, IsCleanTarget, Print;
    var source := Print(e);
    var raw := indent + TaggingPrinter.AssignmentText(append, target, source);
    TaggingPrinter.CompileOfPrint(e, Place(number, 1));
    TaggingPrinter.ReadAssignmentLine(indent, append, target, source);
    AssignmentColumn(raw, number);
    PrintedColumn(indent, append, target, source);
    PrintedRoot(e, Place(number, ReadLine(raw).column));
  }

  lemma PrintedRoot(e: Expression, at: Place)
    requires TaggingPrinter.Writable(e)
    ensures Compile(Print(e), at).Ok? && Compile(Print(e), at).value.place == at
  {
    hide Compile, TaggingPrinter.Writable, TaggingPrinter.Solid, Print;
    TaggingPrinter.CompileOfPrint(e, at);
    SolidIsVisible(Print(e));
    RootPlace(Print(e), at);
  }

  lemma SolidIsVisible(t: Text)
    requires TaggingPrinter.Solid(t)
    ensures t != [] && !IsSpace(t[0]) && NEWLINE !in t
  {
  }

  /** In the canonical layout one space follows the equals sign. */
  lemma PrintedColumn(indent: Text, append: bool, target: Text, source: Text)
    requires TaggingPrinter.IsIndent(indent) && IsCleanTarget(target) && TaggingPrinter.Solid(source)
    requires ReadLine(indent + TaggingPrinter.AssignmentText(append, target, source)).Assignment?
    ensures var raw := indent + TaggingPrinter.AssignmentText(append, target, source);
            var column := ReadLine(raw).column;
            && NEWLINE !in raw && column == |raw| - |source| && Indent(raw[column - 1..]) == 1
  {
    hide ReadLine, Strip, TaggingPrinter.IsIndent, TaggingPrinter.Solid, IsCleanTarget, LStrip, IndexOf,
      TaggingPrinter.AssignmentText, APPEND_PREFIX, SET_PREFIX, IsSpace;
    var raw := indent + TaggingPrinter.AssignmentText(append, target, source);
    var front := indent + (if append then APPEND_PREFIX else SET_PREFIX) + target + [SPACE];
    NoSignBefore(indent, append, target);
    SolidIsVisible(source);
    PrintedParts(indent, append, target, source);
    var behind := [SPACE] + source;
    TaggingPrinter.IndexOfFirst(EQUALS, front, behind);
    ReadColumn(raw);
    assert raw[|front| + 1..] == behind;
    SpaceIsSpace();
    LStripOf([SPACE], source);
  }

  lemma SpaceIsSpace()
    ensures AllSpace([SPACE])
  {
  }

  lemma PrintedParts(indent: Text, append: bool, target: Text, source: Text)
    ensures var front := indent + (if append then APPEND_PREFIX else SET_PREFIX) + target + [SPACE];
            indent + TaggingPrinter.AssignmentText(append, target, source) == front + [EQUALS] + ([SPACE] + source)
  {
    hide APPEND_PREFIX, SET_PREFIX;
  }

  lemma ReadColumn(raw: Text)
    requires ReadLine(raw).Assignment?
    ensures ReadLine(raw).column == IndexOf(EQUALS, raw) + 2
  {
    hide IndexOf, IsTarget, Strip, FirstIndex;
  }

  lemma NoSignBefore(indent: Text, append: bool, target: Text)
    requires TaggingPrinter.IsIndent(indent) && IsCleanTarget(target)
    ensures var front := indent + (if append then APPEND_PREFIX else SET_PREFIX) + target + [SPACE];
            EQUALS !in front && NEWLINE !in front
  {
  }

  /** `set a = 1` */
  const SET_ONE: Text := [] + TaggingPrinter.AssignmentText(false, [97], ONE)

  lemma SetOneText()
    ensures SET_ONE == [115, 101, 116, 32, 97, 32, 61, 32, 49]
    ensures SET_ONE == [] + TaggingPrinter.AssignmentText(false, [97], ONE) && |ONE| == 1
    ensures IsCleanTarget([97]) && TaggingPrinter.Solid(ONE) && TaggingPrinter.IsIndent([])
    ensures !IsSpace(SET_ONE[0]) && forall i | 0 <= i < 9 :: !IsLineBreak(SET_ONE[i])
  {
  }

  lemma SetOneLine()
    ensures ReadLine(SET_ONE) == Assignment(false, [97], ONE, 8) && Indent(SET_ONE) == 0
    ensures SplitLines(SET_ONE) == Line(SET_ONE, NoLines)
  {
    hide ReadLine, SplitLines, SET_ONE, TaggingPrinter.Solid, IsCleanTarget, TaggingPrinter.AssignmentText, ONE,
      IsLineBreak, IsSpace, LStrip;
    SetOneText();
    TaggingPrinter.ReadAssignmentLine([], false, [97], ONE);
    PrintedColumn([], false, [97], ONE);
    LStripOf([], SET_ONE);
    assert [] + SET_ONE == SET_ONE;
    TaggingPrinter.SplitUnfold(SET_ONE);
    assert SET_ONE[..9] == SET_ONE;
  }

  /** An accepted program whose one expression is placed a column before its text. */
  lemma SetOneIsOff()
    ensures CompileProgram(SET_ONE)
            == Ok([Assign(false, [97], Literal(IntValue(1), Place(1, 8)), Place(1, 1))])
    ensures SET_ONE[8..] == ONE && Locate(SET_ONE[..8], Place(1, 1)) == Place(1, 9)
  {
    hide ReadLine, SplitLines, Compile, Indent, SET_ONE;
    SetOneText();
    SetOneLine();
    CompileOne(Place(1, 8));
    LocateInline(SET_ONE[..8], Place(1, 1));
    var s := Assign(false, [97], Literal(IntValue(1), Place(1, 8)), Place(1, 1));
    assert ParseStatements(NoLines, 2, 1, 1) == Ok(ParsedBlock([], NoLines, 2, None));
    assert [s] + [] == [s];
    assert ParseStatements(Line(SET_ONE, NoLines), 1, 1, 0) == Ok(ParsedBlock([s], NoLines, 2, None));
    assert TaggingProgram.Walk([s]) == [s];
  }

  /** One brace around a body. */
  lemma OneBrace(raw: Text, segment: Segment)
    requires CLOSE_BRACE !in raw && |raw| + 2 <= MAX_SOURCE_CHARACTERS && ReadBody(raw, Place(1, 1)) == Ok(segment)
    ensures CompileTemplate([OPEN_BRACE] + raw + [CLOSE_BRACE]) == Ok([segment])
  {
    hide ReadBody, IsBody, Locate;
    var source := [OPEN_BRACE] + raw + [CLOSE_BRACE];
    var end := |raw| + 1;
    BodyIff(raw, Place(1, 1), segment);
    BodyIsNoLiteral(segment, raw, Place(1, 1));
    assert source[1..end] == raw && source[end + 1..] == [] && [segment][1..] == [];
    assert CoversBrace([segment], source, Place(1, 1), end);
    TemplateIffCovered(source, [segment]);
  }

  lemma BodyIsNoLiteral(segment: Segment, raw: Text, at: Place)
    requires IsBody(segment, raw, at)
    ensures !segment.LiteralSegment?
  {
  }

  lemma BrokenBody(at: Place)
    ensures ReadBody([NEWLINE] + ONE, at)
            == Ok(ExpressionSegment(Literal(IntValue(1), BodyPlace([NEWLINE] + ONE, at)), at))
    ensures Lead([NEWLINE] + ONE) == [NEWLINE]
  {
    hide Compile, Strip, LStrip;
    OneIsVisible();
    LStripOf([NEWLINE], ONE);
    StripOfPadded([NEWLINE], ONE, []);
    assert [NEWLINE] + ONE + [] == [NEWLINE] + ONE;
    CompileOne(BodyPlace([NEWLINE] + ONE, at));
    assert Legacy(ONE).None?;
    assert ([NEWLINE] + ONE)[..1] == [NEWLINE];
  }

  /** A brace, a line break, `1` and a closing brace. */
  const BROKEN: Text := [OPEN_BRACE] + ([NEWLINE] + ONE) + [CLOSE_BRACE]

  /** An accepted template whose expression is placed on the line of the brace although it
      stands on the next one. */
  lemma BrokenTemplateIsOff()
    ensures CompileTemplate(BROKEN) == Ok([ExpressionSegment(Literal(IntValue(1), Place(1, 3)), Place(1, 1))])
    ensures BROKEN[2..3] == ONE && Locate(BROKEN[..2], Place(1, 1)) == Place(2, 1)
  {
    hide ReadBody, CompileTemplate, Locate;
    BrokenBody(Place(1, 1));
    OneBrace([NEWLINE] + ONE, ReadBody([NEWLINE] + ONE, Place(1, 1)).value);
    assert BROKEN[..2] == [OPEN_BRACE, NEWLINE];
    LocateByCounting([OPEN_BRACE, NEWLINE], Place(1, 1));
    BreakCount();
    assert BROKEN[2..3] == ONE;
  }

  lemma BreakCount()
    ensures CountBreaks([OPEN_BRACE, NEWLINE]) == 1 && LastBreak([OPEN_BRACE, NEWLINE]) == 1
  {
    var brace: Text := [OPEN_BRACE];
    assert brace[..0] == [];
    assert CountBreaks(brace) == 0;
    assert [OPEN_BRACE, NEWLINE][..1] == brace;
  }
}
