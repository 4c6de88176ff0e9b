/**
 Tagging programs: one statement a line, conditionals closed by `end`, with an
 optional `else:` branch.

 The specification reads linked lines; the method walks a tuple of lines by index, as
 the program does, and is proved equal to it.
 */
module TaggingProgram {
  import opened Common
  import opened Texts
  import opened Sequences
  import opened ScriptLexer
  import opened ScriptLayout
  import opened ScriptParser
  import opened ScriptPrinter
  import opened ScriptCompiler
  import opened ScriptFormatter

  const MAX_PROGRAM_STATEMENTS := 500

  const EQUALS: Code := 61
  const COLON: Code := 58
  const HASH: Code := 35
  const ELSE_LINE: Text := [101, 108, 115, 101, 58]
  const END_LINE: Text := [101, 110, 100]
  const IF_PREFIX: Text := [105, 102, 32]
  const DELETE_PREFIX: Text := [100, 101, 108, 101, 116, 101, 32]
  const SET_PREFIX: Text := [115, 101, 116, 32]
  const APPEND_PREFIX: Text := [97, 112, 112, 101, 110, 100, 32]

  datatype Statement =
    | Assign(append: bool, target: Text, expression: Expression, place: Place)
    | Delete(target: Text, place: Place)
    | Conditional(condition: Expression, body: seq<Statement>, alternate: seq<Statement>, place: Place)

  // ------------------------------------------------------------- reading a line

  /** `[A-Za-z_][A-Za-z0-9_. :/-]*` */
  predicate IsTarget(t: Text) {
    && t != [] && (IsLetter(t[0]) || t[0] == 95)
    && forall i | 0 <= i < |t| :: IsTargetChar(t[i])
  }

  predicate IsTargetChar(c: Code) {
    IsLetter(c) || IsDigit(c) || c == 95 || c == 46 || c == 32 || c == 58 || c == 47 || c == 45
  }

  /** `s.index(c)`, or the length when there is none. */
  function IndexOf(c: Code, s: Text): (i: nat)
    ensures i <= |s| && c !in s[..i] && (i < |s| ==> s[i] == c)
  {
    if s == [] || s[0] == c then 0
    else
      var i := IndexOf(c, s[1..]);
      assert s[..i + 1] == [s[0]] + s[1..][..i];
      i + 1
  }

  /** `s.index(needle)`: the first textual occurrence. */
  function FirstIndex(needle: Text, s: Text): nat {
    if needle <= s || s == [] then 0 else 1 + FirstIndex(needle, s[1..])
  }

  /** What one line says, before its expression is compiled. */
  datatype Reading =
    | Blank
    | ElseMark
    | EndMark
    | Condition(source: Text, column: int)
    | Deletion(target: Text)
    | Assignment(append: bool, target: Text, source: Text, column: int)
    | Wrong(problem: Problem)

  function ReadLine(raw: Text): Reading {
    var s := Strip(raw);
    if s == [] || s[0] == HASH then Blank
    else if s == ELSE_LINE then ElseMark
    else if s == END_LINE then EndMark
    else if IF_PREFIX <= s then
      if s[|s| - 1] != COLON then Wrong(ConditionalWithoutColon)
      else
        var source := Strip(s[3..|s| - 1]);
        Condition(source, FirstIndex(source, raw) + 1)
    else if DELETE_PREFIX <= s then
      var target := Strip(s[7..]);
      if IsTarget(target) then Deletion(target) else Wrong(DeleteTargetInvalid)
    else if SET_PREFIX <= s then ReadAssignment(false, s[4..], raw)
    else if APPEND_PREFIX <= s then ReadAssignment(true, s[7..], raw)
    else Wrong(StatementExpected)
  }

  function ReadAssignment(append: bool, remainder: Text, raw: Text): Reading {
    var i := IndexOf(EQUALS, remainder);
    if i == |remainder| then Wrong(StatementExpected)
    else
      var target := Strip(remainder[..i]);
      if !IsTarget(target) then Wrong(StatementTargetInvalid)
      else Assignment(append, target, Strip(remainder[i + 1..]), IndexOf(EQUALS, raw) + 2)
  }

  function Indent(raw: Text): nat {
    |raw| - |LStrip(raw)|
  }

  // ------------------------------------------------------------ reading a block

  datatype Lines = NoLines | Line(text: Text, rest: Lines)

  function Size(t: Lines): nat {
    if t.NoLines? then 0 else 1 + Size(t.rest)
  }

  datatype Terminator = ByElse | ByEnd

  /** A block, the lines after it, the number of the first of them, and what ended it. */
  datatype ParsedBlock = ParsedBlock(
    statements: seq<Statement>, rest: Lines, number: int, terminator: Option<Terminator>)

  datatype Branches = Branches(body: seq<Statement>, alternate: seq<Statement>, rest: Lines, number: int)

  function After(prefix: seq<Statement>, r: Outcome<ParsedBlock>): Outcome<ParsedBlock> {
    match r
    case Err(e) => Err(e)
    case Ok(p) => Ok(p.(statements := prefix + p.statements))
  }

  predicate Shrinks(t: Lines, r: Outcome<ParsedBlock>) {
    r.Ok? ==> Size(r.value.rest) <= Size(t) && (r.value.terminator.Some? ==> Size(r.value.rest) < Size(t))
  }

  function ParseBlock(t: Lines, number: int, depth: nat): (r: Outcome<ParsedBlock>)
    ensures Shrinks(t, r)
    decreases Size(t), 1
  {
    if depth > MAX_EXPRESSION_DEPTH then Fail(ConditionalTooDeep, Place(number, 1))
    else ParseStatements(t, number, depth, 0)
  }

  /** The rest of a block of which `count` statements have been read. */
  function ParseStatements(t: Lines, number: int, depth: nat, count: nat): (r: Outcome<ParsedBlock>)
    ensures Shrinks(t, r)
    decreases Size(t), 0
  {
    hide ReadLine, Compile, Indent;
    if t.NoLines? then Ok(ParsedBlock([], t, number, None))
    else
      var at := Place(number, Indent(t.text) + 1);
      match ReadLine(t.text)
      case Blank => ParseStatements(t.rest, number + 1, depth, count)
      case ElseMark => Ok(ParsedBlock([], t.rest, number + 1, Some(ByElse)))
      case EndMark => Ok(ParsedBlock([], t.rest, number + 1, Some(ByEnd)))
      case Wrong(problem) => Fail(problem, at)
      case Deletion(target) =>
        After([Delete(target, at)], ParseStatements(t.rest, number + 1, depth, count + 1))
      case Assignment(append, target, source, column) =>
        (match Compile(source, Place(number, column))
         case Err(e) => Err(e)
         case Ok(e) =>
           if count + 1 > MAX_PROGRAM_STATEMENTS then Fail(TooManyStatements, at)
           else After([Assign(append, target, e, at)], ParseStatements(t.rest, number + 1, depth, count + 1)))
      case Condition(source, column) =>
        (match Compile(source, Place(number, column))
         case Err(e) => Err(e)
         case Ok(e) =>
           match ParseBranches(t.rest, number + 1, depth + 1, at)
           case Err(failure) => Err(failure)
           case Ok(b) =>
             After([Conditional(e, b.body, b.alternate, at)], ParseStatements(b.rest, b.number, depth, count + 1)))
  }

  /** The branches of a conditional that stands at `at`, up to its `end`. */
  function ParseBranches(t: Lines, number: int, depth: nat, at: Place): (r: Outcome<Branches>)
    ensures r.Ok? ==> Size(r.value.rest) < Size(t)
    decreases Size(t), 2
  {
    match ParseBlock(t, number, depth)
    case Err(e) => Err(e)
    case Ok(b) =>
      if b.terminator == Some(ByElse) then
        (match ParseBlock(b.rest, b.number, depth)
         case Err(e) => Err(e)
         case Ok(a) =>
           if a.terminator == Some(ByEnd) then Ok(Branches(b.statements, a.statements, a.rest, a.number))
           else Fail(ConditionalWithoutEnd, at))
      else if b.terminator == Some(ByEnd) then Ok(Branches(b.statements, [], b.rest, b.number))
      else Fail(ConditionalWithoutEnd, at)
  }

  // ---------------------------------------------------------------- programs

  /** The length of the line break at the front of a text: carriage return and newline
      count as one. */
  function BreakLength(s: Text): nat {
    if s == [] || !IsLineBreak(s[0]) then 0
    else if s[0] == 13 && |s| > 1 && s[1] == NEWLINE then 2
    else 1
  }

  function FirstBreak(s: Text): (i: nat)
    ensures i <= |s| && (forall j | 0 <= j < i :: !IsLineBreak(s[j])) && (i < |s| ==> IsLineBreak(s[i]))
  {
    if s == [] || IsLineBreak(s[0]) then 0 else 1 + FirstBreak(s[1..])
  }

  /** `str.splitlines`. */
  function SplitLines(s: Text): Lines
    decreases |s|
  {
    if s == [] then NoLines
    else
      var i := FirstBreak(s);
      Line(s[..i], if i == |s| then NoLines else SplitLines(s[i + BreakLength(s[i..])..]))
  }

  /** All statements, each before those of its branches. */
  function Walk(ss: seq<Statement>): seq<Statement>
    decreases ss, 0
  {
    if ss == [] then [] else WalkOne(ss[0]) + Walk(ss[1..])
  }

  function WalkOne(s: Statement): seq<Statement>
    decreases s, 1
  {
    match s
    case Conditional(_, body, alternate, _) => [s] + Walk(body) + Walk(alternate)
    case _ => [s]
  }

  function CompileProgram(source: Text): Outcome<seq<Statement>> {
    if |source| > MAX_SOURCE_CHARACTERS then Fail(SourceTooLong, Place(1, 1))
    else match ParseBlock(SplitLines(source), 1, 1)
      case Err(e) => Err(e)
      case Ok(p) =>
        if p.terminator.Some? then Fail(TerminatorUnexpected, Place(1, 1))
        else if p.statements == [] then Fail(NoStatements, Place(1, 1))
        else if |Walk(p.statements)| > MAX_PROGRAM_STATEMENTS then Fail(TooManyStatements, Place(1, 1))
        else Ok(p.statements)
  }

  // ------------------------------------------------- the program's own reader

  /** The lines of a tuple from `position` on. */
  function LinesFrom(lines: seq<Text>, position: nat): Lines
    requires position <= |lines|
    decreases |lines| - position
  {
    if position == |lines| then NoLines else Line(lines[position], LinesFrom(lines, position + 1))
  }

  /** A block read by index says the same as a block read from linked lines. */
  ghost predicate Agrees(
    lines: seq<Text>, r: Outcome<(seq<Statement>, nat, Option<Terminator>)>, expected: Outcome<ParsedBlock>)
  {
    match r
    case Err(e) => expected == Err(e)
    case Ok((statements, position, terminator)) =>
      && position <= |lines|
      && expected == Ok(ParsedBlock(statements, LinesFrom(lines, position), position + 1, terminator))
  }

  lemma AfterOnce(prefix: seq<Statement>, s: Statement, r: Outcome<ParsedBlock>)
    ensures After(prefix, After([s], r)) == After(prefix + [s], r)
  {
    if r.Ok? {
      assert prefix + ([s] + r.value.statements) == prefix + [s] + r.value.statements;
    }
  }

  lemma AfterNothing(r: Outcome<ParsedBlock>)
    ensures After([], r) == r
  {
    if r.Ok? {
      assert [] + r.value.statements == r.value.statements;
    }
  }

  lemma {:induction false} SizeOfLines(lines: seq<Text>, position: nat)
    requires position <= |lines|
    ensures Size(LinesFrom(lines, position)) == |lines| - position
    decreases |lines| - position
  {
    if position < |lines| {
      SizeOfLines(lines, position + 1);
    }
  }

  /** The block from the line at `position` on, of which `count` statements have been read. */
  ghost function Remaining(lines: seq<Text>, position: nat, depth: nat, count: nat): Outcome<ParsedBlock>
    requires position <= |lines|
  {
    ParseStatements(LinesFrom(lines, position), position + 1, depth, count)
  }

  /** One line of a block that is read by index. */
  lemma RemainingStep(lines: seq<Text>, position: nat, depth: nat, count: nat)
    requires position < |lines|
    ensures var r, next := Remaining(lines, position, depth, count), LinesFrom(lines, position + 1);
            var at := Place(position + 1, Indent(lines[position]) + 1);
            match ReadLine(lines[position])
            case Blank => r == Remaining(lines, position + 1, depth, count)
            case ElseMark => r == Ok(ParsedBlock([], next, position + 2, Some(ByElse)))
            case EndMark => r == Ok(ParsedBlock([], next, position + 2, Some(ByEnd)))
            case Wrong(problem) => r == Fail(problem, at)
            case Deletion(target) =>
              r == After([Delete(target, at)], Remaining(lines, position + 1, depth, count + 1))
            case Assignment(append, target, source, column) =>
              (match Compile(source, Place(position + 1, column))
               case Err(e) => r == Err(e)
               case Ok(e) =>
                 r == if count + 1 > MAX_PROGRAM_STATEMENTS then Fail(TooManyStatements, at)
                      else After([Assign(append, target, e, at)], Remaining(lines, position + 1, depth, count + 1)))
            case Condition(source, column) =>
              (match Compile(source, Place(position + 1, column))
               case Err(e) => r == Err(e)
               case Ok(e) =>
                 match ParseBranches(next, position + 2, depth + 1, at)
                 case Err(failure) => r == Err(failure)
                 case Ok(b) =>
                   r == After([Conditional(e, b.body, b.alternate, at)],
                              ParseStatements(b.rest, b.number, depth, count + 1)))
  {
    hide ReadLine, Compile, Indent, ParseBranches;
  }

  lemma RemainingEnds(lines: seq<Text>, depth: nat, count: nat)
    ensures Remaining(lines, |lines|, depth, count) == Ok(ParsedBlock([], LinesFrom(lines, |lines|), |lines| + 1, None))
  {
  }

  lemma AfterEnd(statements: seq<Statement>, rest: Lines, number: int, terminator: Option<Terminator>)
    ensures After(statements, Ok(ParsedBlock([], rest, number, terminator)))
            == Ok(ParsedBlock(statements, rest, number, terminator))
  {
    assert statements + [] == statements;
  }

  method ParseTaggingBlock(lines: seq<Text>, start: nat, depth: nat)
    returns (r: Outcome<(seq<Statement>, nat, Option<Terminator>)>)
    requires start <= |lines|
    ensures Agrees(lines, r, ParseBlock(LinesFrom(lines, start), start + 1, depth))
    decreases |lines| - start, 1
  {
    hide ReadLine, Compile, Indent, ParseStatements, ParseBranches, LinesFrom, Remaining;
    if depth > MAX_EXPRESSION_DEPTH {
      return Fail(ConditionalTooDeep, Place(start + 1, 1));
    }
    ghost var expected := Remaining(lines, start, depth, 0);
    RemainingIs(lines, start, depth, 0);
    AfterNothing(expected);
    var statements: seq<Statement> := [];
    var position := start;
    while position < |lines|
      invariant start <= position <= |lines|
      invariant expected == After(statements, Remaining(lines, position, depth, |statements|))
      decreases |lines| - position
    {
      ghost var read := statements;
      RemainingStep(lines, position, depth, |statements|);
      var at := Place(position + 1, Indent(lines[position]) + 1);
      match ReadLine(lines[position]) {
        case Blank => position := position + 1;
        case ElseMark =>
          AfterEnd(statements, LinesFrom(lines, position + 1), position + 2, Some(ByElse));
          return Ok((statements, position + 1, Some(ByElse)));
        case EndMark =>
          AfterEnd(statements, LinesFrom(lines, position + 1), position + 2, Some(ByEnd));
          return Ok((statements, position + 1, Some(ByEnd)));
        case Wrong(problem) => return Fail(problem, at);
        case Deletion(target) =>
          statements := statements + [Delete(target, at)];
          position := position + 1;
          AfterOnce(read, Delete(target, at), Remaining(lines, position, depth, |statements|));
        case Assignment(append, target, source, column) =>
          var expression := CompileExpression(source, Place(position + 1, column));
          if expression.Err? {
            return Err(expression.error);
          }
          var statement := Assign(append, target, expression.value, at);
          statements := statements + [statement];
          position := position + 1;
          if |statements| > MAX_PROGRAM_STATEMENTS {
            return Fail(TooManyStatements, at);
          }
          AfterOnce(read, statement, Remaining(lines, position, depth, |statements|));
        case Condition(source, column) =>
          var condition := CompileExpression(source, Place(position + 1, column));
          if condition.Err? {
            return Err(condition.error);
          }
          var branches := ParseConditional(lines, position + 1, depth + 1, at);
          if branches.Err? {
            return Err(branches.error);
          }
          var (body, alternate, next) := branches.value;
          var statement := Conditional(condition.value, body, alternate, at);
          statements := statements + [statement];
          position := next;
          RemainingIs(lines, position, depth, |statements|);
          AfterOnce(read, statement, Remaining(lines, position, depth, |statements|));
      }
    }
    RemainingEnds(lines, depth, |statements|);
    AfterEnd(statements, LinesFrom(lines, |lines|), |lines| + 1, None);
    return Ok((statements, position, None));
  }

  lemma RemainingIs(lines: seq<Text>, position: nat, depth: nat, count: nat)
    requires position <= |lines|
    ensures Remaining(lines, position, depth, count)
            == ParseStatements(LinesFrom(lines, position), position + 1, depth, count)
  {
  }

  /** The part of the block reader that follows the `if` line at `at`. */
  method ParseConditional(lines: seq<Text>, start: nat, depth: nat, at: Place)
    returns (r: Outcome<(seq<Statement>, seq<Statement>, nat)>)
    requires start <= |lines|
    ensures var expected := ParseBranches(LinesFrom(lines, start), start + 1, depth, at);
            match r
            case Err(e) => expected == Err(e)
            case Ok((body, alternate, position)) =>
              start < position <= |lines|
              && expected == Ok(Branches(body, alternate, LinesFrom(lines, position), position + 1))
    decreases |lines| - start, 2
  {
    hide ParseBlock;
    SizeOfLines(lines, start);
    var body := ParseTaggingBlock(lines, start, depth);
    if body.Err? {
      return Err(body.error);
    }
    var (statements, position, terminator) := body.value;
    var alternate: seq<Statement> := [];
    SizeOfLines(lines, position);
    if terminator == Some(ByElse) {
      var other := ParseTaggingBlock(lines, position, depth);
      if other.Err? {
        return Err(other.error);
      }
      alternate := other.value.0;
      position := other.value.1;
      terminator := other.value.2;
      SizeOfLines(lines, position);
    }
    if terminator != Some(ByEnd) {
      return Fail(ConditionalWithoutEnd, at);
    }
    return Ok((statements, alternate, position));
  }

  function Listed(t: Lines): seq<Text> {
    if t.NoLines? then [] else [t.text] + Listed(t.rest)
  }

  lemma {:induction false} LinesOfListed(prefix: seq<Text>, t: Lines)
    ensures LinesFrom(prefix + Listed(t), |prefix|) == t
    decreases t
  {
    if t.Line? {
      assert prefix + Listed(t) == (prefix + [t.text]) + Listed(t.rest);
      LinesOfListed(prefix + [t.text], t.rest);
    }
  }

  method CompileTaggingProgram(source: Text) returns (r: Outcome<seq<Statement>>)
    ensures r == CompileProgram(source)
  {
    hide ParseBlock, SplitLines, Walk;
    if |source| > MAX_SOURCE_CHARACTERS {
      return Fail(SourceTooLong, Place(1, 1));
    }
    var lines := Listed(SplitLines(source));
    assert [] + lines == lines;
    LinesOfListed([], SplitLines(source));
    var block := ParseTaggingBlock(lines, 0, 1);
    if block.Err? {
      return Err(block.error);
    }
    var (statements, _, terminator) := block.value;
    if terminator.Some? {
      return Fail(TerminatorUnexpected, Place(1, 1));
    }
    if statements == [] {
      return Fail(NoStatements, Place(1, 1));
    }
    if |Walk(statements)| > MAX_PROGRAM_STATEMENTS {
      return Fail(TooManyStatements, Place(1, 1));
    }
    return Ok(statements);
  }

  // --------------------------------------------- what an accepted program promises

  /** How deeply conditionals are nested. */
  function Height(ss: seq<Statement>): nat
    decreases ss, 0
  {
    if ss == [] then 0
    else
      var first, others := HeightOf(ss[0]), Height(ss[1..]);
      if first > others then first else others
  }

  function HeightOf(s: Statement): nat
    decreases s, 1
  {
    match s
    case Conditional(_, body, alternate, _) =>
      1 + if Height(body) > Height(alternate) then Height(body) else Height(alternate)
    case _ => 0
  }

  /** Every target is well-formed and every expression keeps the limits of the language. */
  ghost predicate Sound(ss: seq<Statement>)
    decreases ss, 0
  {
    ss == [] || (SoundOne(ss[0]) && Sound(ss[1..]))
  }

  ghost predicate SoundOne(s: Statement)
    decreases s, 1
  {
    match s
    case Assign(_, target, e, _) => IsCleanTarget(target) && SoundExpression(e)
    case Delete(target, _) => IsCleanTarget(target)
    case Conditional(c, body, alternate, _) => SoundExpression(c) && Sound(body) && Sound(alternate)
  }

  ghost predicate SoundExpression(e: Expression) {
    IsCompiled(e) && Fits(e, 1) && Callable(e) && Nodes(e) <= MAX_EXPRESSION_TOKENS
  }

  /** A target as it is read: without white space at its end. */
  predicate IsCleanTarget(t: Text) {
    IsTarget(t) && t[|t| - 1] != SPACE
  }

  lemma StrippedIsClean(t: Text)
    requires IsTarget(Strip(t))
    ensures IsCleanTarget(Strip(t))
  {
  }

  lemma ReadTargets(raw: Text)
    ensures ReadLine(raw).Deletion? ==> IsCleanTarget(ReadLine(raw).target)
    ensures ReadLine(raw).Assignment? ==> IsCleanTarget(ReadLine(raw).target)
  {
    hide IsTarget, Strip, IndexOf, FirstIndex, IsCleanTarget;
    var s := Strip(raw);
    match ReadLine(raw)
    case Deletion(_) => StrippedIsClean(s[7..]);
    case Assignment(append, _, _, _) =>
      var remainder := s[if append then 7 else 4..];
      StrippedIsClean(remainder[..IndexOf(EQUALS, remainder)]);
    case _ =>
  }

  lemma CompiledIsSound(source: Text, at: Place)
    requires Compile(source, at).Ok?
    ensures SoundExpression(Compile(source, at).value)
  {
    hide Compile, Fits, Callable, Nodes;
    CompiledTree(source, at);
  }

  lemma AddFirst(s: Statement, ss: seq<Statement>, room: int)
    requires SoundOne(s) && Sound(ss) && HeightOf(s) <= room && Height(ss) <= room
    ensures Sound([s] + ss) && Height([s] + ss) <= room
  {
    hide SoundOne, HeightOf;
    assert ([s] + ss)[1..] == ss;
  }

  lemma {:induction false} BlockIsSound(t: Lines, number: int, depth: nat)
    requires ParseBlock(t, number, depth).Ok?
    ensures var ss := ParseBlock(t, number, depth).value.statements;
            Sound(ss) && depth + Height(ss) <= MAX_EXPRESSION_DEPTH
    decreases Size(t), 1
  {
    hide ReadLine, Compile, Sound, Height, ParseStatements;
    StatementsAreSound(t, number, depth, 0);
  }

  lemma {:induction false} StatementsAreSound(t: Lines, number: int, depth: nat, count: nat)
    requires depth <= MAX_EXPRESSION_DEPTH && ParseStatements(t, number, depth, count).Ok?
    ensures var ss := ParseStatements(t, number, depth, count).value.statements;
            Sound(ss) && depth + Height(ss) <= MAX_EXPRESSION_DEPTH
    decreases Size(t), 0
  {
    hide ReadLine, Compile, Indent, IsCleanTarget, SoundExpression, ParseBranches, Shrinks;
    if t.Line? {
      var at := Place(number, Indent(t.text) + 1);
      ReadTargets(t.text);
      match ReadLine(t.text)
      case Blank => StatementsAreSound(t.rest, number + 1, depth, count);
      case ElseMark =>
      case EndMark =>
      case Wrong(_) =>
      case Deletion(target) =>
        StatementsAreSound(t.rest, number + 1, depth, count + 1);
        AddFirst(Delete(target, at),
                 ParseStatements(t.rest, number + 1, depth, count + 1).value.statements,
                 MAX_EXPRESSION_DEPTH - depth);
      case Assignment(append, target, source, column) =>
        var e := Compile(source, Place(number, column)).value;
        CompiledIsSound(source, Place(number, column));
        StatementsAreSound(t.rest, number + 1, depth, count + 1);
        AddFirst(Assign(append, target, e, at),
                 ParseStatements(t.rest, number + 1, depth, count + 1).value.statements,
                 MAX_EXPRESSION_DEPTH - depth);
      case Condition(source, column) =>
        var c := Compile(source, Place(number, column)).value;
        CompiledIsSound(source, Place(number, column));
        var b := ParseBranches(t.rest, number + 1, depth + 1, at).value;
        BranchesAreSound(t.rest, number + 1, depth + 1, at);
        StatementsAreSound(b.rest, b.number, depth, count + 1);
        AddFirst(Conditional(c, b.body, b.alternate, at),
                 ParseStatements(b.rest, b.number, depth, count + 1).value.statements,
                 MAX_EXPRESSION_DEPTH - depth);
    }
  }

  lemma {:induction false} BranchesAreSound(t: Lines, number: int, depth: nat, at: Place)
    requires ParseBranches(t, number, depth, at).Ok?
    ensures var b := ParseBranches(t, number, depth, at).value;
            && Sound(b.body) && depth + Height(b.body) <= MAX_EXPRESSION_DEPTH
            && Sound(b.alternate) && depth + Height(b.alternate) <= MAX_EXPRESSION_DEPTH
    decreases Size(t), 2
  {
    hide ParseBlock;
    var b := ParseBlock(t, number, depth).value;
    BlockIsSound(t, number, depth);
    if b.terminator == Some(ByElse) {
      BlockIsSound(b.rest, b.number, depth);
    }
  }

  /** ACCEPTED PROGRAMS ARE BOUNDED: one to 500 statements over all levels, at most 19
      nested conditionals, well-formed targets, and only expressions within the limits
      of the language. */
  lemma AcceptedPrograms(source: Text)
    requires CompileProgram(source).Ok?
    ensures var ss := CompileProgram(source).value;
            && 1 <= |Walk(ss)| <= MAX_PROGRAM_STATEMENTS
            && Height(ss) <= 19
            && Sound(ss)
  {
    hide ParseBlock, SplitLines, Sound, Height;
    BlockIsSound(SplitLines(source), 1, 1);
  }

  // ------------------------------------------------- where an expression stands

  lemma {:induction false} RStripDropsRight(t: Text, right: Text)
    requires AllSpace(right)
    ensures RStrip(t + right) == RStrip(t)
  {
    if right == [] {
      assert t + right == t;
    } else {
      var shorter := right[..|right| - 1];
      assert (t + right)[..|t + right| - 1] == t + shorter;
      RStripDropsRight(t, shorter);
    }
  }

  lemma {:induction false} StripDropsRight(t: Text, right: Text)
    requires AllSpace(right)
    ensures Strip(t + right) == Strip(t)
  {
    hide RStrip;
    if t == [] {
      assert t + right == right;
      assert right + [] == right;
      LStripOf(right, []);
    } else if IsSpace(t[0]) {
      assert (t + right)[1..] == t[1..] + right;
      StripDropsRight(t[1..], right);
    } else {
      RStripDropsRight(t, right);
    }
  }

  lemma IndexOfIs(c: Code, s: Text, k: nat)
    requires k < |s| && s[k] == c && c !in s[..k]
    ensures IndexOf(c, s) == k
  {
    var i := IndexOf(c, s);
    assert forall j | 0 <= j < i :: s[j] in s[..i];
    assert forall j | 0 <= j < k :: s[j] in s[..k];
  }

  /** The first equals sign of a line is the one that ends its target. */
  lemma SignOfLine(left: Text, prefix: Text, remainder: Text, right: Text)
    requires EQUALS !in left && EQUALS !in prefix && IndexOf(EQUALS, remainder) < |remainder|
    ensures var raw := left + (prefix + remainder) + right;
            var i := IndexOf(EQUALS, remainder);
            var k := |left| + |prefix| + i;
            IndexOf(EQUALS, raw) == k && k < |raw| && raw[k + 1..] == remainder[i + 1..] + right
  {
    hide IndexOf;
    var raw := left + (prefix + remainder) + right;
    var i := IndexOf(EQUALS, remainder);
    var k := |left| + |prefix| + i;
    assert raw == left + prefix + remainder + right;
    assert raw[..k] == left + prefix + remainder[..i];
    IndexOfIs(EQUALS, raw, k);
  }

  lemma LStripParts(t: Text) returns (left: Text)
    ensures t == left + LStrip(t) && AllSpace(left)
  {
    left := t[..|t| - |LStrip(t)|];
  }

  lemma RStripParts(t: Text) returns (right: Text)
    ensures t == RStrip(t) + right && AllSpace(right)
  {
    right := t[|RStrip(t)|..];
  }

  lemma StripParts(raw: Text) returns (left: Text, right: Text)
    ensures raw == left + Strip(raw) + right && AllSpace(left) && AllSpace(right)
    ensures EQUALS !in left
  {
    hide LStrip, RStrip, AllSpace;
    left := LStripParts(raw);
    right := RStripParts(LStrip(raw));
    assert left + (Strip(raw) + right) == left + Strip(raw) + right;
    NoSignInSpace(left);
  }

  lemma NoSignInSpace(t: Text)
    requires AllSpace(t)
    ensures EQUALS !in t
  {
  }

  lemma StripStarts(t: Text)
    ensures Strip(t) <= t[Indent(t)..]
  {
  }

  /** An assignment line after its prefix. */
  lemma AssignmentParts(raw: Text) returns (prefix: Text, remainder: Text)
    requires ReadLine(raw).Assignment?
    ensures Strip(raw) == prefix + remainder && EQUALS !in prefix
    ensures var r, i := ReadLine(raw), IndexOf(EQUALS, remainder);
            i < |remainder| && r.source == Strip(remainder[i + 1..]) && r.column == IndexOf(EQUALS, raw) + 2
  {
    hide IndexOf, IsTarget, FirstIndex, Strip;
    var n := if SET_PREFIX <= Strip(raw) then 4 else 7;
    prefix, remainder := Strip(raw)[..n], Strip(raw)[n..];
  }

  /** The column handed to the compiler is the one right behind the equals sign, although
      the expression begins only after the white space that follows. It is the right column
      exactly if there is none. */
  lemma AssignmentColumn(raw: Text, number: int)
    requires ReadLine(raw).Assignment?
    ensures var r := ReadLine(raw);
            && 2 <= r.column <= |raw| + 1 && raw[r.column - 2] == EQUALS
            && r.source == Strip(raw[r.column - 1..])
            && r.source <= raw[r.column - 1 + Indent(raw[r.column - 1..])..]
    ensures var column := ReadLine(raw).column;
            var gap := Indent(raw[column - 1..]);
            NEWLINE !in raw ==>
            && Locate(raw[..column - 1 + gap], Place(number, 1)) == Place(number, column + gap)
            && (Locate(raw[..column - 1 + gap], Place(number, 1)) == Place(number, column) <==> gap == 0)
  {
    hide ReadLine, Strip, Indent, AllSpace, IndexOf;
    var left, right := StripParts(raw);
    var prefix, remainder := AssignmentParts(raw);
    SignOfLine(left, prefix, remainder, right);
    StripDropsRight(remainder[IndexOf(EQUALS, remainder) + 1..], right);
    var behind := raw[IndexOf(EQUALS, raw) + 1..];
    StripStarts(behind);
    IndentIsShort(behind);
    var k := IndexOf(EQUALS, raw) + 1 + Indent(behind);
    assert raw[k..] == behind[Indent(behind)..];
    if NEWLINE !in raw {
      LocateInline(raw[..k], Place(number, 1));
    }
  }

  lemma IndentIsShort(t: Text)
    ensures Indent(t) <= |t|
  {
  }
}
