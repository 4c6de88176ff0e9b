/**
 Naming templates: literal text with expressions in braces.

 The reader tracks line and column as it goes; literals get theirs from counting line
 breaks instead. `TemplateIffCovered` says what both amount to.
 */
module NamingTemplate {
  import opened Common
  import opened Texts
  import opened ScriptLexer
  import opened ScriptParser
  import opened ScriptCompiler

  const OPEN_BRACE: Code := 123
  const CLOSE_BRACE: Code := 125

  datatype Segment =
    | LiteralSegment(text: Text, place: Place)
    | LegacySegment(name: Text, format: Option<Text>, place: Place)
    | ExpressionSegment(tree: Expression, place: Place)

  // --------------------------------------------------------------- reading bodies

  predicate IsBrace(c: Code) {
    c == OPEN_BRACE || c == CLOSE_BRACE
  }

  predicate BraceFree(t: Text) {
    forall i | 0 <= i < |t| :: !IsBrace(t[i])
  }

  predicate IsNameChar(c: Code) {
    IsLetter(c) || IsDigit(c) || c == 95
  }

  function NameRun(t: Text): (n: nat)
    ensures n <= |t|
  {
    if t != [] && IsNameChar(t[0]) then 1 + NameRun(t[1..]) else 0
  }

  /** `([A-Za-z_][A-Za-z0-9_]*)(?::([^{}]+))?`, matched against the whole body. */
  function Legacy(body: Text): Option<(Text, Option<Text>)> {
    if body == [] || !(IsLetter(body[0]) || body[0] == 95) then None
    else
      var n := NameRun(body);
      if n == |body| then Some((body, None))
      else if body[n] == 58 && n + 1 < |body| && BraceFree(body[n + 1..]) then Some((body[..n], Some(body[n + 1..])))
      else None
  }

  /** A letter or an underscore, and then letters, digits and underscores. */
  predicate IsName(t: Text) {
    && t != [] && !('0' as int <= t[0] <= '9' as int)
    && forall i | 0 <= i < |t| ::
         || 'A' as int <= t[i] <= 'Z' as int || 'a' as int <= t[i] <= 'z' as int
         || '0' as int <= t[i] <= '9' as int || t[i] == '_' as int
  }

  /** A format that a name may carry: something, and no braces. */
  predicate IsFormat(t: Text) {
    t != [] && forall i | 0 <= i < |t| :: t[i] != '{' as int && t[i] != '}' as int
  }

  lemma {:induction false} NameRunIs(name: Text, rest: Text)
    requires (forall i | 0 <= i < |name| :: IsNameChar(name[i])) && (rest != [] ==> !IsNameChar(rest[0]))
    ensures NameRun(name + rest) == |name|
  {
    hide IsNameChar;
    if name == [] {
      assert name + rest == rest;
    } else {
      assert (name + rest)[1..] == name[1..] + rest;
      NameRunIs(name[1..], rest);
    }
  }

  lemma {:induction false} NameRunHolds(t: Text)
    ensures forall i | 0 <= i < NameRun(t) :: IsNameChar(t[i])
  {
    hide IsNameChar;
    if t != [] && IsNameChar(t[0]) {
      NameRunHolds(t[1..]);
      assert forall i | 1 <= i < |t| :: t[i] == t[1..][i - 1];
    }
  }

  lemma NamesAre(t: Text)
    ensures IsName(t) <==> t != [] && (IsLetter(t[0]) || t[0] == 95) && forall i | 0 <= i < |t| :: IsNameChar(t[i])
    ensures IsFormat(t) <==> t != [] && BraceFree(t)
    ensures !IsNameChar(58)
  {
  }

  /** A PLAIN FIELD is a name, alone or with a colon and a format behind it. */
  lemma LegacyIffField(body: Text, name: Text, format: Option<Text>)
    ensures Legacy(body) == Some((name, format))
            <==> && IsName(name) && (format.Some? ==> IsFormat(format.value))
                 && body == name + if format.Some? then [':' as int] + format.value else []
  {
    hide Legacy, IsName, IsFormat;
    if Legacy(body) == Some((name, format)) {
      LegacyIsField(body, name, format);
    }
    if && IsName(name) && (format.Some? ==> IsFormat(format.value))
       && body == name + if format.Some? then [':' as int] + format.value else []
    {
      FieldIsLegacy(body, name, format);
    }
  }

  lemma NameRunStarts(t: Text)
    requires t != [] && (IsLetter(t[0]) || t[0] == 95)
    ensures NameRun(t) >= 1
  {
  }

  lemma LegacyIsField(body: Text, name: Text, format: Option<Text>)
    requires Legacy(body) == Some((name, format))
    ensures IsName(name) && (format.Some? ==> IsFormat(format.value))
    ensures body == name + if format.Some? then [':' as int] + format.value else []
  {
    hide IsNameChar, IsName, IsFormat, BraceFree, NameRun, IsLetter;
    var n := NameRun(body);
    NamesAre(name);
    NameRunHolds(body);
    NameRunStarts(body);
    assert name == body[..n] by { assert body[..|body|] == body; }
    if format.Some? {
      NamesAre(format.value);
      assert body == body[..n] + ([body[n]] + body[n + 1..]);
    } else {
      assert name + [] == name;
    }
  }

  lemma FieldIsLegacy(body: Text, name: Text, format: Option<Text>)
    requires IsName(name) && (format.Some? ==> IsFormat(format.value))
    requires body == name + if format.Some? then [':' as int] + format.value else []
    ensures Legacy(body) == Some((name, format))
  {
    hide IsNameChar, IsName, IsFormat, BraceFree, NameRun, IsLetter;
    NamesAre(name);
    assert body[0] == name[0];
    if format.Some? {
      var rest := [':' as int] + format.value;
      NamesAre(format.value);
      NameRunIs(name, rest);
      assert body[|name| + 1..] == format.value && body[..|name|] == name;
    } else {
      NameRunIs(name, []);
      assert body == name;
    }
  }

  /** The white space at the front of a body. */
  function Lead(raw: Text): Text {
    raw[..|raw| - |LStrip(raw)|]
  }

  /** The place handed to the compiler for the body of a brace that stands at `at`. */
  function BodyPlace(raw: Text, at: Place): Place {
    Place(at.line, at.column + 1 + |Lead(raw)|)
  }

  function ReadBody(raw: Text, at: Place): Outcome<Segment> {
    var body := Strip(raw);
    if body == [] then Fail(NamingExpressionEmpty, at)
    else match Legacy(body)
      case Some((name, format)) => Ok(LegacySegment(name, format, at))
      case None =>
        match Compile(body, BodyPlace(raw, at))
        case Err(e) => Err(e)
        case Ok(tree) => Ok(ExpressionSegment(tree, at))
  }

  // ------------------------------------------------------------ reading a template

  /** How many characters come before the first brace. */
  function Run(t: Text): (n: nat)
    ensures n <= |t| && BraceFree(t[..n]) && (n < |t| ==> IsBrace(t[n]))
  {
    if t == [] || IsBrace(t[0]) then 0
    else
      var n := Run(t[1..]);
      assert t[..n + 1] == [t[0]] + t[1..][..n];
      n + 1
  }

  /** `t.find("}")`, or the length when there is none. */
  function Closing(t: Text): (n: nat)
    ensures n <= |t| && (forall i | 0 <= i < n :: t[i] != CLOSE_BRACE) && (n < |t| ==> t[n] == CLOSE_BRACE)
  {
    if t == [] || t[0] == CLOSE_BRACE then 0 else 1 + Closing(t[1..])
  }

  function Prepend(prefix: seq<Segment>, r: Outcome<seq<Segment>>): Outcome<seq<Segment>> {
    match r
    case Err(e) => Err(e)
    case Ok(segments) => Ok(prefix + segments)
  }

  /** The segments of the unread text `t` that starts at `at`. */
  function Segments(t: Text, at: Place): Outcome<seq<Segment>>
    decreases |t|, 1
  {
    var n := Run(t);
    if n == |t| then Ok(if n == 0 then [] else [LiteralSegment(t, at)])
    else
      var place := Locate(t[..n], at);
      if t[n] == CLOSE_BRACE then Fail(ClosingBraceUnexpected, place)
      else Prepend(if n == 0 then [] else [LiteralSegment(t[..n], at)], BraceSegments(t[n..], place))
  }

  /** The same for a text that starts with an opening brace. */
  function BraceSegments(t: Text, at: Place): Outcome<seq<Segment>>
    requires t != []
    decreases |t|, 0
  {
    var end := 1 + Closing(t[1..]);
    if end == |t| then Fail(BraceNotClosed, at)
    else match ReadBody(t[1..end], at)
      case Err(e) => Err(e)
      case Ok(segment) => Prepend([segment], Segments(t[end + 1..], Locate(t[..end + 1], at)))
  }

  function CompileTemplate(source: Text): Outcome<seq<Segment>> {
    if |source| > MAX_SOURCE_CHARACTERS then Fail(SourceTooLong, Place(1, 1))
    else if source == [] then Fail(SourceEmpty, Place(1, 1))
    else Segments(source, Place(1, 1))
  }

  // ----------------------------------------------------- positions by counting

  function CountBreaks(t: Text): nat {
    if t == [] then 0 else CountBreaks(t[..|t| - 1]) + if t[|t| - 1] == NEWLINE then 1 else 0
  }

  /** `t.rfind("\\n")`. */
  function LastBreak(t: Text): (i: int)
    ensures -1 <= i < |t|
  {
    if t == [] then -1
    else if t[|t| - 1] == NEWLINE then |t| - 1
    else LastBreak(t[..|t| - 1])
  }

  /** COUNTING IS TRACKING: the place of a reader is one line per newline, and one column
      per character since the last of them. */
  lemma {:induction false} LocateByCounting(t: Text, start: Place)
    ensures Locate(t, start)
            == Place(start.line + CountBreaks(t), if LastBreak(t) < 0 then start.column + |t| else |t| - LastBreak(t))
    ensures LastBreak(t) < 0 <==> CountBreaks(t) == 0
    ensures LastBreak(t) < 0 <==> NEWLINE !in t
  {
    if t != [] {
      LocateByCounting(t[..|t| - 1], start);
      assert t == t[..|t| - 1] + [t[|t| - 1]];
    }
  }

  /** THE PLACE OF A BODY IS RIGHT EXACTLY when no line break stands between the brace and
      its first visible character: the compiler is told the line of the brace. */
  lemma BodyPlaceIsRight(raw: Text, at: Place)
    ensures BodyPlace(raw, at) == Locate([OPEN_BRACE] + Lead(raw), at) <==> NEWLINE !in Lead(raw)
  {
    LocateByCounting([OPEN_BRACE] + Lead(raw), at);
    assert NEWLINE in [OPEN_BRACE] + Lead(raw) <==> NEWLINE in Lead(raw);
  }

  // -------------------------------------------------------------- what is covered

  /** A segment is what the body of a closed brace says. */
  ghost predicate IsBody(segment: Segment, raw: Text, at: Place) {
    && CLOSE_BRACE !in raw && Strip(raw) != []
    && match segment
       case LiteralSegment(_, _) => false
       case LegacySegment(name, format, place) => place == at && Legacy(Strip(raw)) == Some((name, format))
       case ExpressionSegment(tree, place) =>
         place == at && Legacy(Strip(raw)).None? && Compile(Strip(raw), BodyPlace(raw, at)) == Ok(tree)
  }

  /** The segments cover a text that starts at `at` with no gap and no overlap: literals
      without braces, never empty and never side by side, and closed braces. Each
      segment stands where the text before it ends. */
  ghost predicate Covers(segments: seq<Segment>, t: Text, at: Place)
    decreases |segments|
  {
    if segments == [] then t == []
    else if segments[0].LiteralSegment? then
      var text := segments[0].text;
      && segments[0].place == at && text != [] && BraceFree(text) && text <= t
      && (|segments| > 1 ==> !segments[1].LiteralSegment?)
      && Covers(segments[1..], t[|text|..], Locate(text, at))
    else
      exists end: nat :: CoversBrace(segments, t, at, end)
  }

  ghost predicate CoversBrace(segments: seq<Segment>, t: Text, at: Place, end: nat)
    requires segments != []
    decreases |segments|, 0
  {
    && 1 <= end < |t| && t[0] == OPEN_BRACE && t[end] == CLOSE_BRACE
    && IsBody(segments[0], t[1..end], at)
    && Covers(segments[1..], t[end + 1..], Locate(t[..end + 1], at))
  }

  lemma BodyIff(raw: Text, at: Place, segment: Segment)
    requires CLOSE_BRACE !in raw
    ensures ReadBody(raw, at) == Ok(segment) <==> IsBody(segment, raw, at)
  {
    hide Strip, Legacy, Compile, BodyPlace;
  }

  lemma RunIs(t: Text, n: nat)
    requires n <= |t| && BraceFree(t[..n]) && (n < |t| ==> IsBrace(t[n]))
    ensures Run(t) == n
  {
    var m := Run(t);
    assert forall i | 0 <= i < n :: !IsBrace(t[..n][i]) && t[..n][i] == t[i];
    assert forall i | 0 <= i < m :: !IsBrace(t[..m][i]) && t[..m][i] == t[i];
  }

  lemma ClosingIs(t: Text, end: nat)
    requires 1 <= end < |t| && t[end] == CLOSE_BRACE && CLOSE_BRACE !in t[1..end]
    ensures 1 + Closing(t[1..]) == end
  {
    var n := Closing(t[1..]);
    assert forall i | 1 <= i < end :: t[i] in t[1..end];
    assert forall i | 0 <= i < |t| - 1 :: t[1..][i] == t[i + 1];
    assert t[1..][end - 1] == t[end];
  }

  lemma {:induction false} SegmentsCover(t: Text, at: Place)
    requires Segments(t, at).Ok?
    ensures Covers(Segments(t, at).value, t, at)
    decreases |t|, 1
  {
    hide BraceSegments, Locate, IsBody, CoversBrace;
    var n := Run(t);
    if n < |t| {
      var rest := BraceSegments(t[n..], Locate(t[..n], at));
      BraceSegmentsCover(t[n..], Locate(t[..n], at));
      if n > 0 {
        assert ([LiteralSegment(t[..n], at)] + rest.value)[1..] == rest.value;
      } else {
        assert t[0..] == t && t[..0] == [];
        assert Locate([], at) == at by { LocateNothing(at); }
        assert [] + rest.value == rest.value;
      }
    } else if n > 0 {
      assert [LiteralSegment(t, at)][1..] == [] && t[|t|..] == [];
      assert t[..n] == t;
    }
  }

  lemma LocateNothing(at: Place)
    ensures Locate([], at) == at
  {
  }

  lemma {:induction false} BraceSegmentsCover(t: Text, at: Place)
    requires t != [] && t[0] == OPEN_BRACE && BraceSegments(t, at).Ok?
    ensures BraceSegments(t, at).value != [] && !BraceSegments(t, at).value[0].LiteralSegment?
    ensures Covers(BraceSegments(t, at).value, t, at)
    decreases |t|, 0
  {
    hide ReadBody, Locate, Segments, Strip, Legacy, Compile, BodyPlace;
    var end := 1 + Closing(t[1..]);
    var segment := ReadBody(t[1..end], at).value;
    assert forall i | 1 <= i < end :: t[1..][i - 1] == t[i];
    BodyIff(t[1..end], at, segment);
    SegmentsCover(t[end + 1..], Locate(t[..end + 1], at));
    var segments := BraceSegments(t, at).value;
    assert segments[1..] == Segments(t[end + 1..], Locate(t[..end + 1], at)).value;
    assert CoversBrace(segments, t, at, end);
  }

  lemma {:induction false} CoveredIsRead(segments: seq<Segment>, t: Text, at: Place)
    requires Covers(segments, t, at)
    ensures Segments(t, at) == Ok(segments)
    decreases |segments|
  {
    hide BraceSegments, Locate, CoversBrace, IsBody;
    if segments != [] {
      if segments[0].LiteralSegment? {
        var text := segments[0].text;
        var n := |text|;
        assert t[..n] == text;
        if |segments| > 1 {
          assert segments[1..][0] == segments[1];
          assert Covers(segments[1..], t[n..], Locate(text, at));
          var end: nat :| CoversBrace(segments[1..], t[n..], Locate(text, at), end);
          CoveredBraceIsRead(segments[1..], t[n..], Locate(text, at), end);
          RunIs(t, n);
          assert [segments[0]] + segments[1..] == segments;
        } else {
          assert segments == [segments[0]];
          assert t[n..] == [];
          assert t == text;
          RunIs(t, n);
        }
      } else {
        var end: nat :| CoversBrace(segments, t, at, end);
        CoveredBraceIsRead(segments, t, at, end);
        RunIs(t, 0);
        LocateNothing(at);
        assert t[0..] == t && t[..0] == [];
        assert [] + segments == segments;
      }
    }
  }

  lemma {:induction false} CoveredBraceIsRead(segments: seq<Segment>, t: Text, at: Place, end: nat)
    requires segments != [] && CoversBrace(segments, t, at, end)
    ensures t != [] && t[0] == OPEN_BRACE && BraceSegments(t, at) == Ok(segments)
    decreases |segments|, 0
  {
    hide ReadBody, Locate, Segments, Strip, Legacy, Compile, BodyPlace, Covers;
    ClosingIs(t, end);
    BodyIff(t[1..end], at, segments[0]);
    CoveredIsRead(segments[1..], t[end + 1..], Locate(t[..end + 1], at));
    assert [segments[0]] + segments[1..] == segments;
  }

  /** A TEMPLATE IS ITS COVER. A source compiles to some segments exactly when it is
      neither empty nor too long and those segments cover it. */
  lemma TemplateIffCovered(source: Text, segments: seq<Segment>)
    ensures CompileTemplate(source) == Ok(segments)
            <==> source != [] && |source| <= MAX_SOURCE_CHARACTERS && Covers(segments, source, Place(1, 1))
  {
    hide Segments, Covers;
    if Covers(segments, source, Place(1, 1)) {
      CoveredIsRead(segments, source, Place(1, 1));
    } else if Segments(source, Place(1, 1)) == Ok(segments) {
      SegmentsCover(source, Place(1, 1));
    }
  }

  // ------------------------------------------------------ where the segments stand

  lemma BodyHasPlace(segment: Segment, raw: Text, at: Place)
    requires IsBody(segment, raw, at)
    ensures segment.place == at
  {
    hide Strip, Legacy, Compile;
  }

  /** Every segment of a cover stands at a place of the source: the place reached after
      the text before it, literals at their first character and the others at their
      brace. */
  lemma {:induction false} SegmentStands(
    segments: seq<Segment>, source: Text, offset: nat, start: Place, k: nat) returns (o: nat)
    requires offset <= |source| && k < |segments|
    requires Covers(segments, source[offset..], Locate(source[..offset], start))
    ensures offset <= o < |source| && segments[k].place == Locate(source[..o], start)
    ensures if segments[k].LiteralSegment? then segments[k].text <= source[o..] else source[o] == OPEN_BRACE
    decreases k
  {
    hide Locate, IsBody;
    var t, at := source[offset..], Locate(source[..offset], start);
    assert k > 0 ==> segments[1..][k - 1] == segments[k];
    if segments[0].LiteralSegment? {
      var text := segments[0].text;
      o := offset;
      if k > 0 {
        assert source[..offset] + text == source[..offset + |text|];
        LocateConcat(source[..offset], text, start);
        assert t[|text|..] == source[offset + |text|..];
        o := SegmentStands(segments[1..], source, offset + |text|, start, k - 1);
      }
    } else {
      var end: nat :| CoversBrace(segments, t, at, end);
      assert t[0] == source[offset];
      BodyHasPlace(segments[0], t[1..end], at);
      o := offset;
      if k > 0 {
        assert source[..offset] + t[..end + 1] == source[..offset + end + 1];
        LocateConcat(source[..offset], t[..end + 1], start);
        assert t[end + 1..] == source[offset + end + 1..];
        o := SegmentStands(segments[1..], source, offset + end + 1, start, k - 1);
      }
    }
  }

  // ------------------------------------------------- the program's own reader

  lemma PrependTwice(a: seq<Segment>, b: seq<Segment>, r: Outcome<seq<Segment>>)
    ensures Prepend(a, Prepend(b, r)) == Prepend(a + b, r)
  {
    if r.Ok? {
      assert a + (b + r.value) == a + b + r.value;
    }
  }

  lemma PrependNothing(r: Outcome<seq<Segment>>)
    ensures Prepend([], r) == r
  {
    if r.Ok? {
      assert [] + r.value == r.value;
    }
  }

  /** The place of a literal, as it is counted. */
  lemma CountedPlace(t: Text)
    ensures Place(CountBreaks(t) + 1, |t| - LastBreak(t)) == Locate(t, Place(1, 1))
  {
    LocateByCounting(t, Place(1, 1));
  }

  /** The place behind a consumed brace, as it is counted. */
  method Advance(consumed: Text, at: Place) returns (next: Place)
    ensures next == Locate(consumed, at)
  {
    LocateByCounting(consumed, at);
    var line := at.line + CountBreaks(consumed);
    var column := at.column;
    if CountBreaks(consumed) > 0 {
      column := |consumed[LastBreak(consumed) + 1..]| + 1;
    } else {
      column := column + |consumed|;
    }
    next := Place(line, column);
  }

  lemma OneMore(t: Text, n: nat, at: Place)
    requires n < |t|
    ensures Locate(t[..n + 1], at)
            == (if t[n] == NEWLINE then Place(Locate(t[..n], at).line + 1, 1)
                else Place(Locate(t[..n], at).line, Locate(t[..n], at).column + 1))
  {
    assert t[..n + 1][..n] == t[..n];
  }

  /** What stands before the first brace at `position`, and what the rest amounts to. */
  lemma AtBrace(source: Text, start: nat, position: nat)
    requires start <= position < |source| && BraceFree(source[start..position]) && IsBrace(source[position])
    ensures var at, place := Locate(source[..start], Place(1, 1)), Locate(source[..position], Place(1, 1));
            Segments(source[start..], at)
            == if source[position] == CLOSE_BRACE then Fail(ClosingBraceUnexpected, place)
               else Prepend(if start == position then [] else [LiteralSegment(source[start..position], at)],
                            BraceSegments(source[position..], place))
  {
    hide BraceSegments, Locate;
    var t := source[start..];
    assert t[..position - start] == source[start..position];
    RunIs(t, position - start);
    assert t[position - start..] == source[position..];
    assert source[..position] == source[..start] + source[start..position];
    LocateConcat(source[..start], source[start..position], Place(1, 1));
  }

  /** What a text without a brace amounts to. */
  lemma AtEnd(source: Text, start: nat)
    requires start <= |source| && BraceFree(source[start..])
    ensures var at := Locate(source[..start], Place(1, 1));
            Segments(source[start..], at) == Ok(if start == |source| then [] else [LiteralSegment(source[start..], at)])
  {
    hide BraceSegments, Locate;
    assert source[start..][..|source| - start] == source[start..];
    RunIs(source[start..], |source| - start);
  }

  method CompileNamingTemplate(source: Text) returns (r: Outcome<seq<Segment>>)
    ensures r == CompileTemplate(source)
  {
    hide Segments, BraceSegments, Locate, Strip, Legacy, Compile, LStrip;
    if |source| > MAX_SOURCE_CHARACTERS {
      return Fail(SourceTooLong, Place(1, 1));
    }
    if source == [] {
      return Fail(SourceEmpty, Place(1, 1));
    }
    var segments: seq<Segment> := [];
    var literalStart, position, line, column := 0, 0, 1, 1;
    ghost var expected := Segments(source, Place(1, 1));
    PrependNothing(expected);
    assert source[0..] == source && source[..0] == [];
    LocateNothing(Place(1, 1));
    while position < |source|
      invariant 0 <= literalStart <= position <= |source|
      invariant BraceFree(source[literalStart..position])
      invariant Place(line, column) == Locate(source[..position], Place(1, 1))
      invariant expected
        == Prepend(segments, Segments(source[literalStart..], Locate(source[..literalStart], Place(1, 1))))
    {
      var c := source[position];
      if IsBrace(c) {
        AtBrace(source, literalStart, position);
      }
      if c == CLOSE_BRACE {
        return Fail(ClosingBraceUnexpected, Place(line, column));
      }
      if c != OPEN_BRACE {
        OneMore(source, position, Place(1, 1));
        assert source[literalStart..position + 1] == source[literalStart..position] + [c];
        if c == NEWLINE {
          line, column := line + 1, 1;
        } else {
          column := column + 1;
        }
        position := position + 1;
        continue;
      }
      ghost var rest := BraceSegments(source[position..], Place(line, column));
      PrependTwice(segments, if literalStart == position then [] else [LiteralSegment(source[literalStart..position],
                   Locate(source[..literalStart], Place(1, 1)))], rest);
      if literalStart < position {
        CountedPlace(source[..literalStart]);
        var literalLine := CountBreaks(source[..literalStart]) + 1;
        var literalColumn := literalStart - LastBreak(source[..literalStart]);
        segments := segments + [LiteralSegment(source[literalStart..position], Place(literalLine, literalColumn))];
      } else {
        assert segments + [] == segments;
      }
      assert expected == Prepend(segments, rest);
      var segment, next := ReadBrace(source, position, Place(line, column));
      if segment.Err? {
        return Err(segment.error);
      }
      PrependTwice(segments, [segment.value], Segments(source[next..], Locate(source[..next], Place(1, 1))));
      segments := segments + [segment.value];
      var after := Advance(source[position..next], Place(line, column));
      assert source[..next] == source[..position] + source[position..next];
      LocateConcat(source[..position], source[position..next], Place(1, 1));
      line, column := after.line, after.column;
      position := next;
      literalStart := position;
    }
    assert source[literalStart..position] == source[literalStart..];
    AtEnd(source, literalStart);
    if literalStart < |source| {
      CountedPlace(source[..literalStart]);
      segments := segments + [LiteralSegment(source[literalStart..],
        Place(CountBreaks(source[..literalStart]) + 1, literalStart - LastBreak(source[..literalStart])))];
    } else {
      assert segments + [] == segments;
    }
    return Ok(segments);
  }

  /** The body of a brace that stands at `at`. */
  method ReadBodyAt(raw: Text, at: Place) returns (r: Outcome<Segment>)
    ensures r == ReadBody(raw, at)
  {
    hide Strip, Legacy, Compile, LStrip;
    var body := Strip(raw);
    var bodyColumn := at.column + 1 + |raw| - |LStrip(raw)|;
    if body == [] {
      return Fail(NamingExpressionEmpty, at);
    }
    var legacy := Legacy(body);
    if legacy.Some? {
      return Ok(LegacySegment(legacy.value.0, legacy.value.1, at));
    }
    assert Place(at.line, bodyColumn) == BodyPlace(raw, at);
    var tree := CompileExpression(body, Place(at.line, bodyColumn));
    if tree.Err? {
      return Err(tree.error);
    }
    return Ok(ExpressionSegment(tree.value, at));
  }

  /** One brace of the source: the segment it says, and where the text behind it begins. */
  method ReadBrace(source: Text, position: nat, at: Place) returns (segment: Outcome<Segment>, next: nat)
    requires position < |source| && source[position] == OPEN_BRACE && at == Locate(source[..position], Place(1, 1))
    ensures position < next <= |source|
    ensures BraceSegments(source[position..], at)
            == match segment
               case Err(e) => Err(e)
               case Ok(s) => Prepend([s], Segments(source[next..], Locate(source[..next], Place(1, 1))))
  {
    hide Segments, Locate, ReadBody, Prepend;
    var t := source[position..];
    var end := 1 + Closing(t[1..]);
    if end == |t| {
      return Fail(BraceNotClosed, at), |source|;
    }
    next := position + end + 1;
    segment := ReadBodyAt(t[1..end], at);
    assert t[end + 1..] == source[next..] && t[..end + 1] == source[position..next];
    assert source[..next] == source[..position] + source[position..next];
    LocateConcat(source[..position], source[position..next], Place(1, 1));
  }
}
