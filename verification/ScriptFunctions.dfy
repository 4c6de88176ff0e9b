/**
 What the safe functions promise about their results.
 */
module ScriptFunctions {
  import opened Common
  import opened Texts
  import opened ScriptLexer
  import opened ScriptParser
  import opened ScriptPrinter
  import opened ScriptCompiler
  import opened ScriptEvaluator

  /** The characters at which a path would be taken apart or refused. */
  predicate SafeInPath(t: Text) {
    forall i | 0 <= i < |t| :: !UnsafeInPath(t[i])
  }

  /** PATH SAFETY DEPENDS ON THE REPLACEMENT: `path_safe` refuses slashes, backslashes and
      NUL as replacements, but no other unsafe character. Its result is free of unsafe
      characters exactly when the text was, or the replacement is safe itself. All safe
      characters stay where they are. */
  lemma PathSafeIsSafe(text: Text, replacement: Text, at: Place, unicode: Unicode)
    ensures var r := Apply(PathSafe, [TextValue(text), TextValue(replacement)], at, unicode);
            && (r.Ok? <==> |replacement| == 1 && replacement[0] !in {47, 92, 0})
            && (r.Ok? ==>
                  && r.value.TextValue? && |r.value.text| == |text|
                  && (SafeInPath(r.value.text) <==> SafeInPath(text) || !UnsafeInPath(replacement[0]))
                  && forall i | 0 <= i < |text| && !UnsafeInPath(text[i]) :: r.value.text[i] == text[i])
  {
    var r := Apply(PathSafe, [TextValue(text), TextValue(replacement)], at, unicode);
    if r.Ok? {
      var t := r.value.text;
      assert forall i | 0 <= i < |text| :: t[i] == if UnsafeInPath(text[i]) then replacement[0] else text[i];
      if UnsafeInPath(replacement[0]) && !SafeInPath(text) {
        var i :| 0 <= i < |text| && UnsafeInPath(text[i]);
        assert UnsafeInPath(t[i]);
      }
    }
  }

  /** A colon survives `path_safe`, when it is asked to put colons in. */
  lemma PathSafeKeepsColons(at: Place, unicode: Unicode)
    ensures var r := Apply(PathSafe, [TextValue([97, 47]), TextValue([58])], at, unicode);
            r == Ok(TextValue([97, 58])) && !SafeInPath([97, 58])
  {
    var r := Apply(PathSafe, [TextValue([97, 47]), TextValue([58])], at, unicode);
    assert r.value.text == [97, 58];
    assert UnsafeInPath([97, 58][1]);
  }

  lemma {:induction false} RepeatLength(c: Code, count: int)
    ensures |Repeat(c, count)| == (if count > 0 then count else 0)
    ensures forall i | 0 <= i < |Repeat(c, count)| :: Repeat(c, count)[i] == c
  {
    if count > 0 {
      RepeatLength(c, count - 1);
    }
  }

  /** `pad` puts fill in front, up to the width, and keeps the text. */
  lemma PadFillsToWidth(text: Text, width: int, fill: Code, at: Place, unicode: Unicode)
    requires 0 <= width <= MAX_PAD_WIDTH
    ensures var r := Apply(Pad, [TextValue(text), IntValue(width), TextValue([fill])], at, unicode);
            && r.Ok? && r.value.TextValue?
            && |r.value.text| == (if |text| < width then width else |text|)
            && r.value.text[|r.value.text| - |text|..] == text
            && forall i | 0 <= i < |r.value.text| - |text| :: r.value.text[i] == fill
  {
    RepeatLength(fill, width - |text|);
    hide Repeat;
  }

  /** Two slices at the same index, also a negative one, put the text together again. */
  lemma SlicesPartition(text: Text, index: int, at: Place, unicode: Unicode)
    ensures var front := Apply(Slice, [TextValue(text), IntValue(0), IntValue(index)], at, unicode);
            var back := Apply(Slice, [TextValue(text), IntValue(index)], at, unicode);
            && front.Ok? && front.value.TextValue? && back.Ok? && back.value.TextValue?
            && front.value.text + back.value.text == text
  {
    var k := Clamp(index, |text|);
    assert text[0..k] + text[k..|text|] == text;
  }

  /** Equality of values is an equivalence, in which booleans are numbers. */
  lemma EqualityIsEquivalence(a: Value, b: Value, c: Value)
    ensures PythonEqual(a, a) && (PythonEqual(a, b) ==> PythonEqual(b, a))
    ensures PythonEqual(a, b) && PythonEqual(b, c) ==> PythonEqual(a, c)
    ensures PythonEqual(BoolValue(true), IntValue(1)) && PythonEqual(BoolValue(false), IntValue(0))
  {
  }

  /** The truth of each value, negated. */
  function Negated(values: seq<Value>): (r: seq<Value>)
    ensures |r| == |values|
    ensures forall i | 0 <= i < |values| :: Truthy(r[i]) == !Truthy(values[i])
  {
    seq(|values|, i requires 0 <= i < |values| => BoolValue(!Truthy(values[i])))
  }

  /** `not(any(...))` is `all` of the negations. */
  lemma NotAnyIsAllNot(values: seq<Value>, at: Place, unicode: Unicode)
    requires 1 <= |values| <= MAX_LIST_VALUES
    ensures var any := Apply(Any, values, at, unicode);
            any.Ok? && Apply(Not, [any.value], at, unicode) == Apply(All, Negated(values), at, unicode)
  {
    var r := Negated(values);
    assert forall i | 0 <= i < |values| :: Truthy(r[i]) == !Truthy(values[i]);
  }

  /** `default` yields its first argument that is not empty, and nothing else. */
  lemma {:induction false} DefaultIsFirstNonEmpty(values: seq<Value>)
    ensures forall i | 0 <= i < |values| && !IsEmptyValue(values[i])
                       && (forall j | 0 <= j < i :: IsEmptyValue(values[j])) ::
              FirstNonEmpty(values) == values[i]
    ensures (forall j | 0 <= j < |values| :: IsEmptyValue(values[j])) ==> FirstNonEmpty(values) == NullValue
  {
    if values != [] && IsEmptyValue(values[0]) {
      DefaultIsFirstNonEmpty(values[1..]);
      assert forall i | 1 <= i < |values| :: values[1..][i - 1] == values[i];
    }
  }

  /** All arguments are evaluated, also the branch of `if` that is not taken: if it fails,
      the whole call fails. */
  lemma BothBranchesAreEvaluated(
    condition: Expression, yes: Expression, no: Expression, at: Place,
    variables: Variables, unicode: Unicode, budget: Budget)
    requires Affordable(budget)
    requires !WithinLimits(yes, variables, unicode) || !WithinLimits(no, variables, unicode)
    ensures Evaluate(Call(A("if"), [condition, yes, no], at), variables, unicode, budget).Err?
  {
    hide Evaluate, Meaning, Affordable, Spent, CallNamed, Acceptable;
    EvaluateIffMeaning(Call(A("if"), [condition, yes, no], at), variables, unicode, budget);
    AllThree(condition, yes, no, variables, unicode);
  }

  lemma AllThree(a: Expression, b: Expression, c: Expression, variables: Variables, unicode: Unicode)
    ensures AllWithinLimits([a, b, c], variables, unicode)
            <==> WithinLimits(a, variables, unicode) && WithinLimits(b, variables, unicode)
                 && WithinLimits(c, variables, unicode)
  {
    hide WithinLimits;
    assert [a, b, c][1..] == [b, c] && [b, c][1..] == [c] && [c][1..] == [];
    assert AllWithinLimits([c], variables, unicode) <==> WithinLimits(c, variables, unicode);
    assert AllWithinLimits([b, c], variables, unicode)
      <==> WithinLimits(b, variables, unicode) && WithinLimits(c, variables, unicode);
  }
}
