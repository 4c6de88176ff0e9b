/**
 What the layout of a tagging program is good for: nothing but places.

 Blank lines and comments are skipped and indentation is not read. `Clean` takes both
 away, and `BlockIgnoresLayout` says that two blocks with the same clean lines are read
 alike, up to places, also in their failures.
 */
module TaggingLayout {
  import opened Common
  import opened Texts
  import opened ScriptLexer
  import opened ScriptParser
  import opened ScriptPrinter
  import opened ScriptCompiler
  import opened ScriptPlaces
  import opened TaggingProgram
  import opened TaggingPrinter

  /** A line of white space alone, or one whose first visible character is a `#`. */
  predicate Skipped(line: Text) {
    AllSpace(line) || exists k | 0 <= k < |line| :: AllSpace(line[..k]) && line[k] == '#' as int
  }

  /** The lines that say something, without the white space around them. */
  function Clean(t: Lines): Lines {
    match t
    case NoLines => NoLines
    case Line(text, rest) => if Skipped(text) then Clean(rest) else Line(Strip(text), Clean(rest))
  }

  lemma SkippedIsBlank(line: Text)
    ensures Skipped(line) <==> ReadLine(line).Blank?
  {
    hide Strip;
    BlankReading(line);
    if AllSpace(line) {
      StripOfSpace(line);
    } else {
      FirstVisible(line);
      if k: nat :| k < |line| && AllSpace(line[..k]) && line[k] == '#' as int {
        VisibleIs(line, k);
      }
    }
  }

  lemma BlankReading(line: Text)
    ensures ReadLine(line).Blank? <==> Strip(line) == [] || Strip(line)[0] == '#' as int
  {
    hide Strip, IsTarget, FirstIndex, IndexOf;
  }

  lemma {:induction false} StripOfSpace(t: Text)
    requires AllSpace(t)
    ensures Strip(t) == []
  {
    LStripOf(t, []);
    assert t + [] == t;
  }

  /** The first visible character of a line is the first one that is left of it. */
  lemma FirstVisible(line: Text)
    requires !AllSpace(line)
    ensures Strip(line) != [] && Indent(line) < |line| && Strip(line)[0] == line[Indent(line)]
    ensures AllSpace(line[..Indent(line)])
  {
    if Strip(line) == [] {
      StripOfBlank(line);
    }
    StripStarts(line);
  }

  lemma VisibleIs(line: Text, k: nat)
    requires k < |line| && AllSpace(line[..k]) && line[k] == '#' as int
    ensures Indent(line) == k
  {
    assert line == line[..k] + line[k..];
    LStripOf(line[..k], line[k..]);
  }

  /** A LINE THAT SAYS NOTHING IS SKIPPED: the block is read as if it began a line later. */
  lemma SkipsLine(line: Text, rest: Lines, number: int, depth: nat, count: nat)
    requires Skipped(line)
    ensures ParseStatements(Line(line, rest), number, depth, count) == ParseStatements(rest, number + 1, depth, count)
    ensures depth <= 20 ==> ParseBlock(Line(line, rest), number, depth) == ParseBlock(rest, number + 1, depth)
  {
    hide ReadLine, Skipped;
    SkippedIsBlank(line);
  }

  // ------------------------------------------------------------ up to places

  predicate SameFailure(e: Failure, f: Failure) {
    match e
    case DigitLimit => f.DigitLimit?
    case ScriptError(problem, _) => f.ScriptError? && f.problem == problem
  }

  /** The same tree at other places, or the same failure. */
  predicate SameTree(a: Outcome<Expression>, b: Outcome<Expression>) {
    match a
    case Err(e) => b.Err? && SameFailure(e, b.error)
    case Ok(x) => b.Ok? && Shape(x) == Shape(b.value)
  }

  predicate SameBlock(a: Outcome<ParsedBlock>, b: Outcome<ParsedBlock>) {
    match a
    case Err(e) => b.Err? && SameFailure(e, b.error)
    case Ok(x) =>
      b.Ok? && Bare(x.statements) == Bare(b.value.statements) && Clean(x.rest) == Clean(b.value.rest)
      && x.terminator == b.value.terminator
  }

  predicate SameBranches(a: Outcome<Branches>, b: Outcome<Branches>) {
    match a
    case Err(e) => b.Err? && SameFailure(e, b.error)
    case Ok(x) =>
      b.Ok? && Bare(x.body) == Bare(b.value.body) && Bare(x.alternate) == Bare(b.value.alternate)
      && Clean(x.rest) == Clean(b.value.rest)
  }

  lemma {:induction false} ShapeOfMoved(e: Expression, a: Place, b: Place)
    ensures Shape(MoveTree(e, a, b)) == Shape(e)
    decreases e, 1
  {
    match e
    case List(children, _) => ShapesOfMoved(children, a, b);
    case Call(_, children, _) => ShapesOfMoved(children, a, b);
    case _ =>
  }

  lemma {:induction false} ShapesOfMoved(es: seq<Expression>, a: Place, b: Place)
    ensures Shapes(MoveTrees(es, a, b)) == Shapes(es)
    decreases es, 0
  {
    hide Shape, MoveTree;
    if es != [] {
      ShapeOfMoved(es[0], a, b);
      ShapesOfMoved(es[1..], a, b);
    }
  }

  lemma CompilesAlike(source: Text, a: Place, b: Place)
    ensures SameTree(Compile(source, a), Compile(source, b))
  {
    hide Compile, Shape, MoveTree;
    CompileMoves(source, a, b);
    if Compile(source, a).Ok? {
      ShapeOfMoved(Compile(source, a).value, a, b);
    }
  }

  /** Two lines that differ in their indentation alone. */
  lemma ReadsAlike(a: Text, b: Text)
    requires Strip(a) == Strip(b)
    ensures var x, y := ReadLine(a), ReadLine(b);
            match x
            case Condition(source, _) => y.Condition? && y.source == source
            case Assignment(append, target, source, _) =>
              y.Assignment? && y.append == append && y.target == target && y.source == source
            case _ => x == y
  {
    hide Strip, IsTarget, FirstIndex, IndexOf;
  }

  lemma AfterAlike(x: Statement, y: Statement, a: Outcome<ParsedBlock>, b: Outcome<ParsedBlock>)
    requires BareOne(x) == BareOne(y) && SameBlock(a, b)
    ensures SameBlock(After([x], a), After([y], b))
  {
    hide BareOne, Clean;
    if a.Ok? {
      BareConcat(x, a.value.statements);
      BareConcat(y, b.value.statements);
    }
  }

  /** LAYOUT IS FREE: blocks with the same clean lines are read alike, up to places. */
  lemma {:induction false} StatementsIgnoreLayout(s: Lines, t: Lines, m: int, n: int, depth: nat, count: nat)
    requires Clean(s) == Clean(t)
    ensures SameBlock(ParseStatements(s, m, depth, count), ParseStatements(t, n, depth, count))
    decreases Size(s) + Size(t), 1
  {
    hide ParseStatements, Skipped, Bare;
    if s.Line? && Skipped(s.text) {
      SkipsLine(s.text, s.rest, m, depth, count);
      StatementsIgnoreLayout(s.rest, t, m + 1, n, depth, count);
    } else if t.Line? && Skipped(t.text) {
      SkipsLine(t.text, t.rest, n, depth, count);
      StatementsIgnoreLayout(s, t.rest, m, n + 1, depth, count);
    } else if s.Line? {
      FirstLinesAlike(s, t, m, n, depth, count);
    } else {
      NothingLeft(m, depth, count);
      NothingLeft(n, depth, count);
    }
  }

  lemma NothingLeft(m: int, depth: nat, count: nat)
    ensures ParseStatements(NoLines, m, depth, count) == Ok(ParsedBlock([], NoLines, m, None))
  {
  }

  lemma {:induction false} FirstLinesAlike(s: Lines, t: Lines, m: int, n: int, depth: nat, count: nat)
    requires s.Line? && t.Line? && Strip(s.text) == Strip(t.text) && Clean(s.rest) == Clean(t.rest)
    ensures SameBlock(ParseStatements(s, m, depth, count), ParseStatements(t, n, depth, count))
    decreases Size(s) + Size(t), 0
  {
    hide ReadLine, Compile, Indent, Strip, Clean, Bare, Shape, ParseBranches;
    ReadsAlike(s.text, t.text);
    var at, to := Place(m, Indent(s.text) + 1), Place(n, Indent(t.text) + 1);
    match ReadLine(s.text)
    case Blank => StatementsIgnoreLayout(s.rest, t.rest, m + 1, n + 1, depth, count);
    case ElseMark =>
    case EndMark =>
    case Wrong(_) =>
    case Deletion(target) =>
      StatementsIgnoreLayout(s.rest, t.rest, m + 1, n + 1, depth, count + 1);
      AfterAlike(Delete(target, at), Delete(target, to), ParseStatements(s.rest, m + 1, depth, count + 1),
                 ParseStatements(t.rest, n + 1, depth, count + 1));
    case Assignment(append, target, source, column) =>
      var a, b := Place(m, column), Place(n, ReadLine(t.text).column);
      CompilesAlike(source, a, b);
      StatementsIgnoreLayout(s.rest, t.rest, m + 1, n + 1, depth, count + 1);
      if Compile(source, a).Ok? {
        AfterAlike(Assign(append, target, Compile(source, a).value, at),
                   Assign(append, target, Compile(source, b).value, to),
                   ParseStatements(s.rest, m + 1, depth, count + 1), ParseStatements(t.rest, n + 1, depth, count + 1));
      }
    case Condition(source, column) =>
      var a, b := Place(m, column), Place(n, ReadLine(t.text).column);
      CompilesAlike(source, a, b);
      BranchesIgnoreLayout(s.rest, t.rest, m + 1, n + 1, depth + 1, at, to);
      var x, y := ParseBranches(s.rest, m + 1, depth + 1, at), ParseBranches(t.rest, n + 1, depth + 1, to);
      if Compile(source, a).Ok? && x.Ok? {
        StatementsIgnoreLayout(x.value.rest, y.value.rest, x.value.number, y.value.number, depth, count + 1);
        AfterAlike(Conditional(Compile(source, a).value, x.value.body, x.value.alternate, at),
                   Conditional(Compile(source, b).value, y.value.body, y.value.alternate, to),
                   ParseStatements(x.value.rest, x.value.number, depth, count + 1),
                   ParseStatements(y.value.rest, y.value.number, depth, count + 1));
      }
  }

  lemma {:induction false} BlockIgnoresLayout(s: Lines, t: Lines, m: int, n: int, depth: nat)
    requires Clean(s) == Clean(t)
    ensures SameBlock(ParseBlock(s, m, depth), ParseBlock(t, n, depth))
    decreases Size(s) + Size(t), 2
  {
    hide ParseStatements, Bare, Clean;
    StatementsIgnoreLayout(s, t, m, n, depth, 0);
  }

  lemma {:induction false} BranchesIgnoreLayout(s: Lines, t: Lines, m: int, n: int, depth: nat, at: Place, to: Place)
    requires Clean(s) == Clean(t)
    ensures SameBranches(ParseBranches(s, m, depth, at), ParseBranches(t, n, depth, to))
    decreases Size(s) + Size(t), 3
  {
    hide ParseBlock, Bare, Clean;
    BlockIgnoresLayout(s, t, m, n, depth);
    var a, b := ParseBlock(s, m, depth), ParseBlock(t, n, depth);
    if a.Ok? && a.value.terminator == Some(ByElse) {
      BlockIgnoresLayout(a.value.rest, b.value.rest, a.value.number, b.value.number, depth);
    }
  }

  // ---------------------------------------------------------------- programs

  predicate SameProgram(a: Outcome<seq<Statement>>, b: Outcome<seq<Statement>>) {
    match a
    case Err(e) => b.Err? && SameFailure(e, b.error)
    case Ok(ss) => b.Ok? && Bare(ss) == Bare(b.value)
  }

  /** PROGRAMS IN ANY LAYOUT: two sources with the same clean lines compile to the same
      program or fail for the same reason. */
  lemma ProgramIgnoresLayout(a: Text, b: Text)
    requires |a| <= 32_768 && |b| <= 32_768 && Clean(SplitLines(a)) == Clean(SplitLines(b))
    ensures SameProgram(CompileProgram(a), CompileProgram(b))
  {
    hide SplitLines, Clean, ParseBlock, Bare, TaggingProgram.Walk;
    BlockIgnoresLayout(SplitLines(a), SplitLines(b), 1, 1, 1);
    var x, y := ParseBlock(SplitLines(a), 1, 1), ParseBlock(SplitLines(b), 1, 1);
    if x.Ok? {
      WalkOfBare(x.value.statements);
      WalkOfBare(y.value.statements);
      assert |Bare(x.value.statements)| == |Bare(y.value.statements)|;
    }
  }

  /** ROUND TRIP IN ANY LAYOUT: a source whose clean lines are those of a printed program
      compiles to that program, whatever stands between the lines and before them. */
  lemma CompileOfAnyLayout(ss: seq<Statement>, source: Text)
    requires ss != [] && WritableBlock(ss)
    requires Height(ss) < MAX_EXPRESSION_DEPTH && |TaggingProgram.Walk(ss)| <= MAX_PROGRAM_STATEMENTS
    requires |source| <= MAX_SOURCE_CHARACTERS && Clean(SplitLines(source)) == Clean(PrintBlock(ss, [], NoLines))
    ensures CompileProgram(source).Ok? && Bare(CompileProgram(source).value) == Bare(ss)
  {
    hide Bare, WritableBlock, Height, TaggingProgram.Walk, SplitLines, PrintBlock, Clean, ParseBlock;
    var lines := PrintBlock(ss, [], NoLines);
    BlockIgnoresLayout(SplitLines(source), lines, 1, 1, 1);
    PrintedBlock(ss);
    var x, y := ParseBlock(SplitLines(source), 1, 1), ParseBlock(lines, 1, 1);
    WalkOfBare(x.value.statements);
    WalkOfBare(ss);
    assert |Bare(x.value.statements)| == |Bare(ss)|;
  }

  lemma PrintedBlock(ss: seq<Statement>)
    requires WritableBlock(ss) && Height(ss) < MAX_EXPRESSION_DEPTH
    requires |TaggingProgram.Walk(ss)| <= MAX_PROGRAM_STATEMENTS
    ensures var r := ParseBlock(PrintBlock(ss, [], NoLines), 1, 1);
            r.Ok? && Bare(r.value.statements) == Bare(ss) && r.value.terminator.None?
  {
    hide Bare, WritableBlock, Height, TaggingProgram.Walk, PrintBlock;
    var built, next := BlockOfPrinted(ss, [], NoLines, 1, 1, 0);
    assert built + [] == built;
  }

  /** A comment or a blank line in front changes nothing but the places. */
  lemma LineInFrontIsSkipped(line: Text, source: Text)
    requires OneLine(line) && Skipped(line) && |line| + 1 + |source| <= 32_768
    ensures SameProgram(CompileProgram(line + [NEWLINE] + source), CompileProgram(source))
  {
    hide SplitLines, CompileProgram, Skipped;
    SplitFirst(line, source);
    ProgramIgnoresLayout(line + [NEWLINE] + source, source);
  }

  /** A line is the same to the reader in any indentation. */
  lemma IndentationIsFree(left: Text, right: Text, line: Text)
    requires AllSpace(left) && AllSpace(right) && line != [] && !IsSpace(line[0]) && !IsSpace(line[|line| - 1])
    ensures Clean(Line(left + line + right, NoLines)) == Clean(Line(line, NoLines))
  {
    hide AllSpace, Strip, IsSpace;
    StripOfPadded(left, line, right);
    NothingIsSpace();
    StripOfPadded([], line, []);
    assert [] + line + [] == line;
    SkippedIsBlank(left + line + right);
    SkippedIsBlank(line);
    ReadsAlike(left + line + right, line);
  }

  lemma NothingIsSpace()
    ensures AllSpace([])
  {
  }
}
