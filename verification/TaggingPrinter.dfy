/**
 Printing tagging programs, and the round trip: the printed lines of a program are read
 back as the same program, also when they are joined to one text and split again.
 */
module TaggingPrinter {
  import opened Common
  import opened Texts
  import opened Sequences
  import opened ScriptLexer
  import opened ScriptLayout
  import opened ScriptParser
  import opened ScriptPrinter
  import opened ScriptCompiler
  import opened ScriptFormatter
  import opened TaggingProgram

  // ----------------------------------------------------- the text of an expression

  /** A text that starts and ends with a visible character and stays on one line. */
  predicate Solid(t: Text) {
    && t != [] && !IsSpace(t[0]) && !IsSpace(t[|t| - 1])
    && forall i | 0 <= i < |t| :: !IsLineBreak(t[i])
  }

  lemma SolidConcat(a: Text, gap: Text, b: Text)
    requires Solid(a) && Solid(b) && forall i | 0 <= i < |gap| :: !IsLineBreak(gap[i])
    ensures Solid(a + gap + b)
  {
  }

  lemma SpellIsSolid(l: Lexeme)
    requires ValidLexeme(l)
    ensures Solid(Spell(l))
  {
    match l
    case Quoted(value, quote) =>
      var inner := EscapeAll(value, quote);
      assert forall i | 0 <= i < |inner| :: !IsLineBreak(inner[i]);
    case _ =>
  }

  lemma {:induction false} CompactIsSolid(spelling: Spelling)
    requires spelling.Then? && Apart(spelling)
    ensures Solid(Render(Compact(spelling)))
  {
    hide ValidLexeme, Clash, Solid, Spell;
    SpellIsSolid(spelling.lexeme);
    var t, u := Spell(spelling.lexeme), Render(Compact(spelling.rest));
    assert Render(Compact(spelling)) == t + u;
    if spelling.rest.Then? {
      CompactIsSolid(spelling.rest);
      SolidConcat(t, [], u);
      assert t + [] + u == t + u;
    } else {
      assert t + u == t;
    }
  }

  /** An expression that can stand on one line of a program. */
  predicate Writable(e: Expression) {
    && Printable(e) && Fits(e, 1) && Callable(e)
    && Length(Flatten(e, DOUBLE_QUOTE, Done)) <= MAX_EXPRESSION_TOKENS
    && |Print(e)| <= MAX_SOURCE_CHARACTERS
  }

  lemma FlattenStarts(e: Expression, quote: Code, tail: Spelling)
    ensures Flatten(e, quote, tail).Then?
  {
  }

  lemma CompileOfPrint(e: Expression, at: Place)
    requires Writable(e)
    ensures Solid(Print(e))
    ensures Compile(Print(e), at).Ok? && Shape(Compile(Print(e), at).value) == Shape(e)
  {
    hide Compile, Fits, Callable, Printable, Flatten, Shape, Compact, Render, Apart, Length;
    var spelling := Flatten(e, DOUBLE_QUOTE, Done);
    FlattenStarts(e, DOUBLE_QUOTE, Done);
    DoneIsApart();
    FlattenIsApart(e, DOUBLE_QUOTE, Done);
    CompactIsSolid(spelling);
    CompactIsValid(spelling);
    LexemesOfCompact(spelling);
    CompileOfPrinted(e, DOUBLE_QUOTE, Compact(spelling), at);
  }

  // -------------------------------------------------------------- reading a line

  predicate IsIndent(t: Text) {
    forall i | 0 <= i < |t| :: t[i] == SPACE
  }

  lemma StripOfIndented(indent: Text, core: Text)
    requires IsIndent(indent) && core != [] && !IsSpace(core[0]) && !IsSpace(core[|core| - 1])
    ensures Strip(indent + core) == core
  {
    hide Strip;
    assert indent + core + [] == indent + core;
    StripOfPadded(indent, core, []);
  }

  lemma StripOfSolid(left: Text, core: Text, right: Text)
    requires IsIndent(left) && IsIndent(right) && Solid(core)
    ensures Strip(left + core + right) == core
  {
    hide Strip;
    StripOfPadded(left, core, right);
  }

  lemma TargetIsSolid(t: Text)
    requires IsCleanTarget(t)
    ensures Solid(t) && EQUALS !in t
  {
  }

  lemma ReadDeleteLine(indent: Text, target: Text)
    requires IsIndent(indent) && IsCleanTarget(target)
    ensures ReadLine(indent + (DELETE_PREFIX + target)) == Deletion(target)
  {
    hide Strip, IsTarget;
    TargetIsSolid(target);
    var core := DELETE_PREFIX + target;
    StripOfIndented(indent, core);
    assert core[7..] == target;
    assert [] + target + [] == target;
    StripOfSolid([], target, []);
  }

  lemma ReadElseLine(indent: Text)
    requires IsIndent(indent)
    ensures ReadLine(indent + ELSE_LINE) == ElseMark
  {
    hide Strip;
    StripOfIndented(indent, ELSE_LINE);
  }

  lemma ReadEndLine(indent: Text)
    requires IsIndent(indent)
    ensures ReadLine(indent + END_LINE) == EndMark
  {
    hide Strip;
    StripOfIndented(indent, END_LINE);
  }

  lemma ReadIfLine(indent: Text, source: Text)
    requires IsIndent(indent) && Solid(source)
    ensures ReadLine(indent + (IF_PREFIX + source + [COLON])).Condition?
    ensures ReadLine(indent + (IF_PREFIX + source + [COLON])).source == source
  {
    hide Strip, FirstIndex;
    var core := IF_PREFIX + source + [COLON];
    StripOfIndented(indent, core);
    assert core[3..|core| - 1] == source;
    assert [] + source + [] == source;
    StripOfSolid([], source, []);
  }

  const SIGN: Text := [SPACE, EQUALS, SPACE]

  lemma {:induction false} IndexOfFirst(c: Code, a: Text, b: Text)
    requires c !in a
    ensures IndexOf(c, a + [c] + b) == |a|
  {
    var s := a + [c] + b;
    var i := IndexOf(c, s);
    assert s[|a|] == c;
    assert forall j | 0 <= j < i :: s[j] in s[..i];
    assert forall j | 0 <= j < |a| :: s[j] == a[j];
  }

  lemma ReadRemainder(append: bool, target: Text, source: Text, raw: Text)
    requires IsCleanTarget(target) && Solid(source)
    ensures var r := ReadAssignment(append, target + SIGN + source, raw);
            r.Assignment? && r.append == append && r.target == target && r.source == source
  {
    hide Strip, IsTarget, IndexOf, Solid;
    TargetIsSolid(target);
    var remainder := target + SIGN + source;
    assert remainder == (target + [SPACE]) + [EQUALS] + ([SPACE] + source);
    IndexOfFirst(EQUALS, target + [SPACE], [SPACE] + source);
    assert remainder[..|target| + 1] == [] + target + [SPACE];
    StripOfSolid([], target, [SPACE]);
    assert remainder[|target| + 2..] == [SPACE] + source + [];
    StripOfSolid([SPACE], source, []);
  }

  function AssignmentText(append: bool, target: Text, source: Text): Text {
    (if append then APPEND_PREFIX else SET_PREFIX) + (target + SIGN + source)
  }

  lemma ReadAssignmentLine(indent: Text, append: bool, target: Text, source: Text)
    requires IsIndent(indent) && IsCleanTarget(target) && Solid(source)
    ensures var r := ReadLine(indent + AssignmentText(append, target, source));
            r.Assignment? && r.append == append && r.target == target && r.source == source
  {
    hide Strip, IsTarget, ReadAssignment;
    var core := AssignmentText(append, target, source);
    StripOfIndented(indent, core);
    assert core[if append then 7 else 4..] == target + SIGN + source;
    ReadRemainder(append, target, source, indent + core);
  }

  // ------------------------------------------------------------------- printing

  function Deeper(indent: Text): Text {
    indent + [SPACE, SPACE]
  }

  /** The lines of a block, followed by `tail`. */
  function PrintBlock(ss: seq<Statement>, indent: Text, tail: Lines): Lines
    decreases ss, 0
  {
    if ss == [] then tail else PrintStatement(ss[0], indent, PrintBlock(ss[1..], indent, tail))
  }

  /** An `else:` is printed only for a branch that is not empty. */
  function PrintStatement(s: Statement, indent: Text, tail: Lines): Lines
    decreases s, 1
  {
    match s
    case Assign(append, target, e, _) => Line(indent + AssignmentText(append, target, Print(e)), tail)
    case Delete(target, _) => Line(indent + (DELETE_PREFIX + target), tail)
    case Conditional(c, body, alternate, _) =>
      var close := Line(indent + END_LINE, tail);
      Line(indent + (IF_PREFIX + Print(c) + [COLON]),
           PrintBlock(body, Deeper(indent),
             if alternate == [] then close
             else Line(indent + ELSE_LINE, PrintBlock(alternate, Deeper(indent), close))))
  }

  /** A program without its places. */
  function Bare(ss: seq<Statement>): (r: seq<Statement>)
    ensures |r| == |ss|
    decreases ss, 0
  {
    if ss == [] then [] else [BareOne(ss[0])] + Bare(ss[1..])
  }

  function BareOne(s: Statement): Statement
    decreases s, 1
  {
    match s
    case Assign(append, target, e, _) => Assign(append, target, Shape(e), Place(0, 0))
    case Delete(target, _) => Delete(target, Place(0, 0))
    case Conditional(c, body, alternate, _) => Conditional(Shape(c), Bare(body), Bare(alternate), Place(0, 0))
  }

  predicate WritableBlock(ss: seq<Statement>)
    decreases ss, 0
  {
    ss == [] || (WritableStatement(ss[0]) && WritableBlock(ss[1..]))
  }

  predicate WritableStatement(s: Statement)
    decreases s, 1
  {
    match s
    case Assign(_, target, e, _) => IsCleanTarget(target) && Writable(e)
    case Delete(target, _) => IsCleanTarget(target)
    case Conditional(c, body, alternate, _) => Writable(c) && WritableBlock(body) && WritableBlock(alternate)
  }

  // ----------------------------------------------------------------- round trip

  lemma AfterChain(a: seq<Statement>, b: seq<Statement>, r: Outcome<ParsedBlock>)
    ensures After(a, After(b, r)) == After(a + b, r)
  {
    if r.Ok? {
      assert a + (b + r.value.statements) == a + b + r.value.statements;
    }
  }

  lemma BareConcat(first: Statement, others: seq<Statement>)
    ensures Bare([first] + others) == [BareOne(first)] + Bare(others)
  {
    hide BareOne;
    assert ([first] + others)[1..] == others;
  }

  /** Reading the lines of a block continues with what follows them. */
  lemma {:induction false} BlockOfPrinted(
    ss: seq<Statement>, indent: Text, tail: Lines, number: int, depth: nat, count: nat)
    returns (built: seq<Statement>, next: int)
    requires WritableBlock(ss) && IsIndent(indent)
    requires depth + Height(ss) <= MAX_EXPRESSION_DEPTH && count + |TaggingProgram.Walk(ss)| <= MAX_PROGRAM_STATEMENTS
    ensures ParseStatements(PrintBlock(ss, indent, tail), number, depth, count)
            == After(built, ParseStatements(tail, next, depth, count + |ss|))
    ensures Bare(built) == Bare(ss)
    decreases |TaggingProgram.Walk(ss)|, 1
  {
    hide ParseStatements, WritableStatement, HeightOf, BareOne, TaggingProgram.WalkOne, PrintStatement;
    if ss == [] {
      built, next := [], number;
      AfterNothing(ParseStatements(tail, next, depth, count));
    } else {
      var first, others, middle;
      WalkNotEmpty(ss[0]);
      first, middle := StatementOfPrinted(ss[0], indent, PrintBlock(ss[1..], indent, tail), number, depth, count);
      others, next := BlockOfPrinted(ss[1..], indent, tail, middle, depth, count + 1);
      built := [first] + others;
      BareConcat(first, others);
      AfterChain([first], others, ParseStatements(tail, next, depth, count + |ss|));
    }
  }

  lemma WalkNotEmpty(s: Statement)
    ensures |TaggingProgram.WalkOne(s)| >= 1
  {
  }

  lemma {:induction false} StatementOfPrinted(
    s: Statement, indent: Text, tail: Lines, number: int, depth: nat, count: nat)
    returns (built: Statement, next: int)
    requires WritableStatement(s) && IsIndent(indent)
    requires depth + HeightOf(s) <= MAX_EXPRESSION_DEPTH
    requires count + |TaggingProgram.WalkOne(s)| <= MAX_PROGRAM_STATEMENTS
    ensures ParseStatements(PrintStatement(s, indent, tail), number, depth, count)
            == After([built], ParseStatements(tail, next, depth, count + 1))
    ensures BareOne(built) == BareOne(s)
    decreases |TaggingProgram.WalkOne(s)|, 0
  {
    hide ReadLine, Compile, Indent, Writable, Print, AssignmentText, PrintBlock, ParseBranches, IsIndent, IsCleanTarget,
      WritableBlock, Height, TaggingProgram.Walk, Solid;
    var lines := PrintStatement(s, indent, tail);
    var at := Place(number, Indent(lines.text) + 1);
    match s
    case Delete(target, _) =>
      ReadDeleteLine(indent, target);
      built, next := Delete(target, at), number + 1;
    case Assign(append, target, e, _) =>
      CompileOfPrint(e, at);
      ReadAssignmentLine(indent, append, target, Print(e));
      var column := ReadLine(lines.text).column;
      CompileOfPrint(e, Place(number, column));
      built, next := Assign(append, target, Compile(Print(e), Place(number, column)).value, at), number + 1;
    case Conditional(c, body, alternate, _) =>
      CompileOfPrint(c, at);
      ReadIfLine(indent, Print(c));
      var column := ReadLine(lines.text).column;
      CompileOfPrint(c, Place(number, column));
      var branches := BranchesOfPrinted(body, alternate, indent, tail, number + 1, depth + 1, at);
      built := Conditional(Compile(Print(c), Place(number, column)).value, branches.body, branches.alternate, at);
      next := branches.number;
  }

  lemma ReadMarkLine(mark: Text, indent: Text, tail: Lines, number: int, depth: nat, count: nat)
    requires IsIndent(indent) && (mark == ELSE_LINE || mark == END_LINE)
    ensures ParseStatements(Line(indent + mark, tail), number, depth, count)
            == Ok(ParsedBlock([], tail, number + 1, Some(if mark == ELSE_LINE then ByElse else ByEnd)))
  {
    hide ReadLine, Indent;
    ReadElseLine(indent);
    ReadEndLine(indent);
  }

  lemma {:induction false} BranchesOfPrinted(
    body: seq<Statement>, alternate: seq<Statement>, indent: Text, tail: Lines, number: int, depth: nat, at: Place)
    returns (branches: Branches)
    requires WritableBlock(body) && WritableBlock(alternate) && IsIndent(indent)
    requires depth + Height(body) <= MAX_EXPRESSION_DEPTH && depth + Height(alternate) <= MAX_EXPRESSION_DEPTH
    requires |TaggingProgram.Walk(body)| <= MAX_PROGRAM_STATEMENTS
    requires |TaggingProgram.Walk(alternate)| <= MAX_PROGRAM_STATEMENTS
    ensures var close := Line(indent + END_LINE, tail);
            var lines := PrintBlock(body, Deeper(indent),
              if alternate == [] then close
              else Line(indent + ELSE_LINE, PrintBlock(alternate, Deeper(indent), close)));
            ParseBranches(lines, number, depth, at) == Ok(branches)
    ensures branches.rest == tail && Bare(branches.body) == Bare(body) && Bare(branches.alternate) == Bare(alternate)
    decreases |TaggingProgram.Walk(body)| + |TaggingProgram.Walk(alternate)|, 2
  {
    hide WritableBlock, Height, TaggingProgram.Walk, PrintBlock, ParseStatements, Bare, IsIndent;
    DeeperIsIndent(indent);
    var close := Line(indent + END_LINE, tail);
    var middle := if alternate == [] then close
                  else Line(indent + ELSE_LINE, PrintBlock(alternate, Deeper(indent), close));
    var built, next := BlockOfPrinted(body, Deeper(indent), middle, number, depth, 0);
    ReadMarkLine(if alternate == [] then END_LINE else ELSE_LINE, indent, middle.rest, next, depth, |body|);
    assert built + [] == built;
    if alternate == [] {
      branches := Branches(built, [], tail, next + 1);
    } else {
      var other, last := BlockOfPrinted(alternate, Deeper(indent), close, next + 1, depth, 0);
      ReadMarkLine(END_LINE, indent, tail, last, depth, |alternate|);
      assert other + [] == other;
      branches := Branches(built, other, tail, last + 1);
    }
  }

  lemma DeeperIsIndent(indent: Text)
    requires IsIndent(indent)
    ensures IsIndent(Deeper(indent))
  {
  }

  // ---------------------------------------------------------- the whole program

  /** Every line with a newline behind it. */
  function JoinLines(t: Lines): Text {
    if t.NoLines? then [] else t.text + [NEWLINE] + JoinLines(t.rest)
  }

  predicate OneLine(t: Text) {
    forall i | 0 <= i < |t| :: !IsLineBreak(t[i])
  }

  predicate AllOneLine(t: Lines) {
    t.Line? ==> OneLine(t.text) && AllOneLine(t.rest)
  }

  lemma SplitFirst(line: Text, rest: Text)
    requires OneLine(line)
    ensures SplitLines(line + [NEWLINE] + rest) == Line(line, SplitLines(rest))
  {
    hide SplitLines;
    var s := line + [NEWLINE] + rest;
    var i := FirstBreak(s);
    assert s[|line|] == NEWLINE;
    assert forall j | 0 <= j < |line| :: s[j] == line[j];
    assert i == |line|;
    assert s[i..] == [NEWLINE] + rest;
    assert BreakLength(s[i..]) == 1;
    assert s[..i] == line && s[i + 1..] == rest;
    SplitUnfold(s);
  }

  lemma SplitUnfold(s: Text)
    requires s != []
    ensures var i := FirstBreak(s);
            SplitLines(s) == Line(s[..i], if i == |s| then NoLines else SplitLines(s[i + BreakLength(s[i..])..]))
  {
  }

  /** Splitting undoes joining. */
  lemma {:induction false} SplitOfJoined(t: Lines)
    requires AllOneLine(t)
    ensures SplitLines(JoinLines(t)) == t
  {
    hide OneLine;
    if t.Line? {
      SplitFirst(t.text, JoinLines(t.rest));
      SplitOfJoined(t.rest);
    }
  }

  lemma IndentedIsOneLine(indent: Text, core: Text)
    requires IsIndent(indent) && OneLine(core)
    ensures OneLine(indent + core)
  {
  }

  lemma StatementTextIsOneLine(s: Statement)
    requires WritableStatement(s)
    ensures s.Assign? ==> OneLine(AssignmentText(s.append, s.target, Print(s.expression)))
    ensures s.Delete? ==> OneLine(DELETE_PREFIX + s.target)
    ensures s.Conditional? ==> OneLine(IF_PREFIX + Print(s.condition) + [COLON])
    ensures OneLine(ELSE_LINE) && OneLine(END_LINE)
  {
    hide Writable, Print, WritableBlock, IsTarget, Compile;
    match s
    case Assign(_, target, e, _) =>
      CompileOfPrint(e, Place(1, 1));
      TargetIsSolid(target);
    case Delete(target, _) => TargetIsSolid(target);
    case Conditional(c, _, _, _) => CompileOfPrint(c, Place(1, 1));
  }

  lemma {:induction false} BlockIsOneLine(ss: seq<Statement>, indent: Text, tail: Lines)
    requires WritableBlock(ss) && IsIndent(indent) && AllOneLine(tail)
    ensures AllOneLine(PrintBlock(ss, indent, tail))
    decreases ss, 0
  {
    if ss != [] {
      BlockIsOneLine(ss[1..], indent, tail);
      StatementIsOneLine(ss[0], indent, PrintBlock(ss[1..], indent, tail));
    }
  }

  lemma {:induction false} StatementIsOneLine(s: Statement, indent: Text, tail: Lines)
    requires WritableStatement(s) && IsIndent(indent) && AllOneLine(tail)
    ensures AllOneLine(PrintStatement(s, indent, tail))
    decreases s, 1
  {
    hide OneLine, AssignmentText, Print, IsIndent, WritableBlock, Writable, IsCleanTarget, PrintBlock;
    StatementTextIsOneLine(s);
    DeeperIsIndent(indent);
    match s
    case Assign(append, target, e, _) => IndentedIsOneLine(indent, AssignmentText(append, target, Print(e)));
    case Delete(target, _) => IndentedIsOneLine(indent, DELETE_PREFIX + target);
    case Conditional(c, body, alternate, _) =>
      IndentedIsOneLine(indent, IF_PREFIX + Print(c) + [COLON]);
      IndentedIsOneLine(indent, ELSE_LINE);
      IndentedIsOneLine(indent, END_LINE);
      var close := Line(indent + END_LINE, tail);
      if alternate == [] {
        BlockIsOneLine(body, Deeper(indent), close);
      } else {
        BlockIsOneLine(alternate, Deeper(indent), close);
        BlockIsOneLine(body, Deeper(indent), Line(indent + ELSE_LINE, PrintBlock(alternate, Deeper(indent), close)));
      }
  }

  function PrintProgram(ss: seq<Statement>): Text {
    JoinLines(PrintBlock(ss, [], NoLines))
  }

  lemma {:induction false} WalkOfBare(ss: seq<Statement>)
    ensures |TaggingProgram.Walk(Bare(ss))| == |TaggingProgram.Walk(ss)|
    decreases ss, 0
  {
    if ss != [] {
      WalkOfBareOne(ss[0]);
      WalkOfBare(ss[1..]);
      assert Bare(ss)[1..] == Bare(ss[1..]);
    }
  }

  lemma {:induction false} WalkOfBareOne(s: Statement)
    ensures |TaggingProgram.WalkOne(BareOne(s))| == |TaggingProgram.WalkOne(s)|
    decreases s, 1
  {
    if s.Conditional? {
      WalkOfBare(s.body);
      WalkOfBare(s.alternate);
    }
  }

  /** PROGRAM ROUND TRIP: every non-empty program within the limits, printed as a text of
      at most 32768 characters, compiles to itself. */
  lemma CompileOfPrintedProgram(ss: seq<Statement>)
    requires ss != [] && WritableBlock(ss)
    requires Height(ss) < MAX_EXPRESSION_DEPTH && |TaggingProgram.Walk(ss)| <= MAX_PROGRAM_STATEMENTS
    requires |PrintProgram(ss)| <= MAX_SOURCE_CHARACTERS
    ensures CompileProgram(PrintProgram(ss)).Ok?
    ensures Bare(CompileProgram(PrintProgram(ss)).value) == Bare(ss)
  {
    hide Bare, WritableBlock, Height, TaggingProgram.Walk, SplitLines, JoinLines, PrintBlock, AllOneLine;
    var lines := PrintBlock(ss, [], NoLines);
    NothingIsOneLine();
    BlockIsOneLine(ss, [], NoLines);
    SplitOfJoined(lines);
    var built, next := BlockOfPrinted(ss, [], NoLines, 1, 1, 0);
    assert built + [] == built;
    WalkOfBare(ss);
    WalkOfBare(built);
    assert |Bare(built)| == |Bare(ss)|;
  }

  lemma NothingIsOneLine()
    ensures AllOneLine(NoLines)
  {
  }

  // ------------------------------------------------------- formatting a program

  /** A sound program whose print is short can be written. */
  lemma {:induction false} ShortIsWritable(ss: seq<Statement>, indent: Text, tail: Lines, limit: nat)
    requires Sound(ss) && |JoinLines(PrintBlock(ss, indent, tail))| <= limit <= MAX_SOURCE_CHARACTERS
    ensures WritableBlock(ss) && |JoinLines(tail)| <= limit
    decreases ss, 0
  {
    hide JoinLines, PrintStatement, SoundOne, WritableStatement;
    if ss != [] {
      var rest := PrintBlock(ss[1..], indent, tail);
      ShortStatementIsWritable(ss[0], indent, rest, limit);
      ShortIsWritable(ss[1..], indent, tail, limit);
    }
  }

  lemma {:induction false} ShortStatementIsWritable(s: Statement, indent: Text, tail: Lines, limit: nat)
    requires SoundOne(s) && |JoinLines(PrintStatement(s, indent, tail))| <= limit <= MAX_SOURCE_CHARACTERS
    ensures WritableStatement(s) && |JoinLines(tail)| <= limit
    decreases s, 1
  {
    hide Print, PrintBlock, SoundExpression, Writable, Sound, WritableBlock, IsCleanTarget;
    match s
    case Delete(_, _) =>
    case Assign(_, _, e, _) => ShortExpressionIsWritable(e);
    case Conditional(c, body, alternate, _) =>
      ShortExpressionIsWritable(c);
      var close := Line(indent + END_LINE, tail);
      if alternate == [] {
        ShortIsWritable(body, Deeper(indent), close, limit);
        EmptyIsWritable();
      } else {
        var other := PrintBlock(alternate, Deeper(indent), close);
        ShortIsWritable(body, Deeper(indent), Line(indent + ELSE_LINE, other), limit);
        ShortIsWritable(alternate, Deeper(indent), close, limit);
      }
  }

  lemma EmptyIsWritable()
    ensures WritableBlock([])
  {
  }

  lemma ShortExpressionIsWritable(e: Expression)
    requires SoundExpression(e)
    ensures |Print(e)| <= MAX_SOURCE_CHARACTERS ==> Writable(e)
  {
    hide Print, Fits, Callable, Printable, Flatten, IsCompiled;
    CompiledIsPrintable(e);
  }

  /** FORMATTING KEEPS PROGRAMS: whatever source is accepted, the print of its program, if
      not too long, is accepted and says the same program. */
  lemma AcceptedProgramsFormat(source: Text)
    requires CompileProgram(source).Ok?
    requires |PrintProgram(CompileProgram(source).value)| <= MAX_SOURCE_CHARACTERS
    ensures var ss := CompileProgram(source).value;
            CompileProgram(PrintProgram(ss)).Ok? && Bare(CompileProgram(PrintProgram(ss)).value) == Bare(ss)
  {
    hide CompileProgram, JoinLines, PrintBlock, Sound, WritableBlock, Bare, Height, TaggingProgram.Walk;
    var ss := CompileProgram(source).value;
    AcceptedPrograms(source);
    ShortIsWritable(ss, [], NoLines, MAX_SOURCE_CHARACTERS);
    NoStatementsToWalk(ss);
    CompileOfPrintedProgram(ss);
  }

  lemma NoStatementsToWalk(ss: seq<Statement>)
    ensures ss == [] ==> |TaggingProgram.Walk(ss)| == 0
  {
  }
}
