/**
 What the lines of a tagging program say, letter by letter.

 The words of the language, the characters of a target and the line breaks are spelled
 out here; `TaggingPrinter` shows that programs survive printing, whatever the words are.
 */
module TaggingLaws {
  import opened Common
  import opened Texts
  import opened ScriptLexer
  import opened ScriptParser
  import opened TaggingProgram

  /** A letter or an underscore, and then letters, digits and the characters `_. :/-`. */
  predicate IsTargetName(t: Text) {
    && t != [] && !('0' as int <= t[0] <= '9' as int) && t[0] !in A(". :/-")
    && forall i | 0 <= i < |t| ::
         || 'A' as int <= t[i] <= 'Z' as int || 'a' as int <= t[i] <= 'z' as int
         || '0' as int <= t[i] <= '9' as int || t[i] in A("_. :/-")
  }

  lemma TargetsAre(t: Text)
    ensures IsTarget(t) <==> IsTargetName(t)
  {
    var special := "_. :/-";
    assert forall c :: c in A(special) <==> c in {95, 46, 32, 58, 47, 45} by {
      assert A(special) == [95, 46, 32, 58, 47, 45];
    }
    assert A(". :/-") == [46, 32, 58, 47, 45];
  }

  lemma WordsAre()
    ensures ELSE_LINE == A("else:") && END_LINE == A("end") && IF_PREFIX == A("if ")
    ensures DELETE_PREFIX == A("delete ") && SET_PREFIX == A("set ") && APPEND_PREFIX == A("append ")
    ensures A("if ")[0] == 'i' as int && A("delete ")[0] == 'd' as int && A("end")[0] == A("else:")[0] == 'e' as int
    ensures A("set ")[0] == 's' as int && A("append ")[0] == 'a' as int
    ensures EQUALS == '=' as int && COLON == ':' as int && HASH == '#' as int
    ensures |A("if ")| == 3 && |A("delete ")| == 7 && |A("set ")| == 4 && |A("append ")| == 7
  {
  }

  /** `else:` and `end` end a block, alone in their line. */
  lemma MarksSay(raw: Text)
    ensures ReadLine(raw) == ElseMark <==> Strip(raw) == A("else:")
    ensures ReadLine(raw) == EndMark <==> Strip(raw) == A("end")
  {
    hide Strip, IsTarget, FirstIndex, IndexOf, A;
    WordsAre();
    LengthOfEnd();
  }

  lemma LengthOfEnd()
    ensures |A("end")| == 3 && |A("else:")| == 5
  {
  }

  /** `if` and a colon at the end of the line make a condition of what is between them. */
  lemma ConditionSays(raw: Text, rest: Text)
    requires Strip(raw) == A("if ") + rest && rest != []
    ensures rest[|rest| - 1] == ':' as int ==>
              var r := ReadLine(raw);
              r.Condition? && r.source == Strip(rest[..|rest| - 1])
    ensures rest[|rest| - 1] != ':' as int ==> ReadLine(raw) == Wrong(ConditionalWithoutColon)
  {
    hide Strip, IsTarget, FirstIndex, IndexOf, A;
    WordsAre();
    LengthOfEnd();
    var s := Strip(raw);
    assert s[0] == 'i' as int && s[|s| - 1] == rest[|rest| - 1];
    assert s[3..|s| - 1] == rest[..|rest| - 1];
  }

  /** `delete` removes a well-formed target. */
  lemma DeletionSays(raw: Text, rest: Text)
    requires Strip(raw) == A("delete ") + rest
    ensures ReadLine(raw) == if IsTargetName(Strip(rest)) then Deletion(Strip(rest)) else Wrong(DeleteTargetInvalid)
  {
    hide Strip, IsTarget, IsTargetName, FirstIndex, IndexOf, A;
    WordsAre();
    LengthOfEnd();
    var s := Strip(raw);
    TargetsAre(Strip(rest));
    assert s[0] == 'd' as int && s[7..] == rest;
  }

  function Verb(append: bool): Text {
    if append then A("append ") else A("set ")
  }

  /** `set` and `append` put what is behind the first equals sign into the target before it. */
  lemma AssignmentSays(raw: Text, append: bool, target: Text, expression: Text)
    requires Strip(raw) == Verb(append) + (target + ['=' as int] + expression) && '=' as int !in target
    ensures var r := ReadLine(raw);
            if IsTargetName(Strip(target))
            then r.Assignment? && r.append == append && r.target == Strip(target) && r.source == Strip(expression)
            else r == Wrong(StatementTargetInvalid)
  {
    hide Strip, IsTarget, IsTargetName, FirstIndex, IndexOf, A, ReadAssignment;
    var remainder := target + ['=' as int] + expression;
    VerbReads(raw, append, remainder);
    SignEnds(append, target, expression, raw);
  }

  /** Without an equals sign it is no statement. */
  lemma UnsignedSays(raw: Text, append: bool, rest: Text)
    requires Strip(raw) == Verb(append) + rest && '=' as int !in rest
    ensures ReadLine(raw) == Wrong(StatementExpected)
  {
    hide Strip, IsTarget, FirstIndex, A;
    VerbReads(raw, append, rest);
  }

  lemma VerbReads(raw: Text, append: bool, rest: Text)
    requires Strip(raw) == Verb(append) + rest
    ensures ReadLine(raw) == ReadAssignment(append, rest, raw)
  {
    hide Strip, IsTarget, FirstIndex, IndexOf, A, ReadAssignment;
    WordsAre();
    LengthOfEnd();
    var s := Strip(raw);
    assert s[0] == Verb(append)[0];
    assert s[|Verb(append)|..] == rest;
  }

  lemma SignEnds(append: bool, target: Text, expression: Text, raw: Text)
    requires '=' as int !in target
    ensures var r := ReadAssignment(append, target + ['=' as int] + expression, raw);
            if IsTargetName(Strip(target))
            then r.Assignment? && r.append == append && r.target == Strip(target) && r.source == Strip(expression)
            else r == Wrong(StatementTargetInvalid)
  {
    hide Strip, IsTarget, IsTargetName, IndexOf;
    TargetsAre(Strip(target));
    var remainder := target + ['=' as int] + expression;
    assert remainder[..|target|] == target && remainder[|target| + 1..] == expression;
    IndexOfIs('=' as int, remainder, |target|);
  }

  /** Nothing else is a statement. */
  lemma OthersSay(raw: Text)
    requires Strip(raw) != [] && Strip(raw)[0] != '#' as int
    requires Strip(raw) != A("else:") && Strip(raw) != A("end")
    requires !(A("if ") <= Strip(raw)) && !(A("delete ") <= Strip(raw))
    requires !(A("set ") <= Strip(raw)) && !(A("append ") <= Strip(raw))
    ensures ReadLine(raw) == Wrong(StatementExpected)
  {
    hide Strip, IsTarget, FirstIndex, IndexOf, A;
    WordsAre();
  }

  // -------------------------------------------------------------- lines of a text

  /** What ends a line: one of these characters, or the first two of them together. */
  const BREAKS: Text := [13, 10, 11, 12, 28, 29, 30, 133, 8232, 8233]

  lemma BreaksAre(c: Code)
    ensures IsLineBreak(c) <==> c in BREAKS
  {
  }

  /** A TEXT IS SPLIT AT ITS BREAKS: the first line is what stands before the first break, and
      the lines after it are those of the text behind it; a carriage return and a newline are
      one break. */
  lemma SplitAtBreak(line: Text, c: Code, rest: Text)
    requires (forall i | 0 <= i < |line| :: line[i] !in BREAKS) && c in BREAKS
    ensures SplitLines([]) == NoLines
    ensures line != [] ==> SplitLines(line) == Line(line, NoLines)
    ensures !(c == 13 && rest != [] && rest[0] == 10) ==>
              SplitLines(line + [c] + rest) == Line(line, SplitLines(rest))
    ensures SplitLines(line + [13, 10] + rest) == Line(line, SplitLines(rest))
  {
    hide BREAKS, SplitLines;
    if line != [] {
      LastLine(line);
    }
    NoText();
    BreaksAre(c);
    BreaksAre(13);
    assert 13 in BREAKS by { FirstOfBreaks(); }
    var n := |line|;
    var s, t := line + [c] + rest, line + [13, 10] + rest;
    assert s[n..] == [c] + rest && t[n..] == [13, 10] + rest;
    assert s[n + 1..] == rest && t[n + 2..] == rest;
    assert s[..n] == line && t[..n] == line;
    FirstBreakIs(s, n);
    FirstBreakIs(t, n);
    if !(c == 13 && rest != [] && rest[0] == 10) {
      assert BreakLength([c] + rest) == 1;
      SplitStep(s, n, n + 1);
    }
    assert BreakLength([13, 10] + rest) == 2;
    SplitStep(t, n, n + 2);
  }

  lemma FirstOfBreaks()
    ensures 13 in BREAKS
  {
    assert BREAKS[0] == 13;
  }

  lemma NoText()
    ensures SplitLines([]) == NoLines
  {
  }

  lemma LastLine(line: Text)
    requires line != [] && forall i | 0 <= i < |line| :: line[i] !in BREAKS
    ensures SplitLines(line) == Line(line, NoLines)
  {
    hide BREAKS;
    var i := FirstBreak(line);
    if i < |line| {
      BreaksAre(line[i]);
      assert false;
    }
    assert line[..|line|] == line;
  }

  lemma FirstBreakIs(s: Text, n: nat)
    requires n < |s| && s[n] in BREAKS && forall i | 0 <= i < n :: s[i] !in BREAKS
    ensures FirstBreak(s) == n
  {
    hide BREAKS;
    var i := FirstBreak(s);
    BreaksAre(s[n]);
    if i < n {
      BreaksAre(s[i]);
      assert false;
    }
  }

  lemma SplitStep(s: Text, n: nat, m: nat)
    requires n < m <= |s| && FirstBreak(s) == n && n + BreakLength(s[n..]) == m
    ensures SplitLines(s) == Line(s[..n], SplitLines(s[m..]))
  {
  }

  // ------------------------------------------------------- statements on all levels

  lemma {:induction false} WalkConcat(a: seq<Statement>, b: seq<Statement>)
    ensures Walk(a + b) == Walk(a) + Walk(b)
  {
    hide WalkOne;
    if a == [] {
      assert a + b == b;
    } else {
      assert (a + b)[1..] == a[1..] + b;
      WalkConcat(a[1..], b);
    }
  }

  /** EVERY STATEMENT IS COUNTED ONCE, on every level. */
  lemma StatementsAreCounted(before: seq<Statement>, s: Statement, after: seq<Statement>)
    ensures |Walk(before + [s] + after)|
            == |Walk(before)| + |Walk(after)|
               + if s.Conditional? then 1 + |Walk(s.body)| + |Walk(s.alternate)| else 1
    ensures s in Walk(before + [s] + after)
  {
    WalkConcat(before, [s]);
    WalkConcat(before + [s], after);
    assert [s][1..] == [];
    assert WalkOne(s)[0] == s;
    assert Walk([s]) == WalkOne(s) + [];
    assert Walk(before + [s] + after)[|Walk(before)|] == s;
  }

  /** ACCEPTED PROGRAMS, in numbers. */
  lemma ProgramsInNumbers(source: Text)
    ensures CompileProgram(source).Ok? ==>
              |source| <= 32_768 && 1 <= |Walk(CompileProgram(source).value)| <= 500
    ensures |source| > 32_768 ==> CompileProgram(source) == Err(ScriptError(SourceTooLong, Place(1, 1)))
    ensures ParseBlock(NoLines, 1, 20).Ok? && ParseBlock(NoLines, 1, 21).Err?
  {
    hide SplitLines;
    if CompileProgram(source).Ok? {
      AcceptedPrograms(source);
    }
  }
}
