/**
 The safe functions by name, on values alone.

 Every function is called here by the letters of its name, and its result is said in
 terms of the arguments: which of them it is, which items or parts it is made of, or
 when it holds. `SafeNames` and `ArgumentCounts` are the table of names itself.
 */
module ScriptLaws {
  import opened Common
  import opened Texts
  import opened Sequences
  import opened ScriptLexer
  import opened ScriptLayout
  import opened ScriptParser
  import opened ScriptPrinter
  import opened ScriptCompiler
  import opened ScriptEvaluator

  // --------------------------------------------------------------- names

  /** Enough of a text to tell the names apart. */
  function Ends(t: Text): (nat, Code, Code, Code) {
    if |t| < 2 then (|t|, 0, 0, 0) else (|t|, t[0], t[1], t[|t| - 1])
  }

  lemma EndsOf(s: string)
    requires |s| >= 2
    ensures Ends(A(s)) == (|s|, s[0] as int, s[1] as int, s[|s| - 1] as int)
  {
  }

  lemma EndsDiffer()
    ensures Ends(A("default")) == (7, 'd' as int, 'e' as int, 't' as int)
    ensures Ends(A("fallback")) == (8, 'f' as int, 'a' as int, 'k' as int)
    ensures Ends(A("if")) == (2, 'i' as int, 'f' as int, 'f' as int)
    ensures Ends(A("conditional")) == (11, 'c' as int, 'o' as int, 'l' as int)
    ensures Ends(A("equals")) == (6, 'e' as int, 'q' as int, 's' as int)
    ensures Ends(A("eq")) == (2, 'e' as int, 'q' as int, 'q' as int)
    ensures Ends(A("contains")) == (8, 'c' as int, 'o' as int, 's' as int)
    ensures Ends(A("replace")) == (7, 'r' as int, 'e' as int, 'e' as int)
    ensures Ends(A("slice")) == (5, 's' as int, 'l' as int, 'e' as int)
    ensures Ends(A("pad")) == (3, 'p' as int, 'a' as int, 'd' as int)
    ensures Ends(A("lower")) == (5, 'l' as int, 'o' as int, 'r' as int)
    ensures Ends(A("upper")) == (5, 'u' as int, 'p' as int, 'r' as int)
    ensures Ends(A("title")) == (5, 't' as int, 'i' as int, 'e' as int)
    ensures Ends(A("first")) == (5, 'f' as int, 'i' as int, 't' as int)
    ensures Ends(A("join")) == (4, 'j' as int, 'o' as int, 'n' as int)
    ensures Ends(A("sortname")) == (8, 's' as int, 'o' as int, 'e' as int)
    ensures Ends(A("sort_name")) == (9, 's' as int, 'o' as int, 'e' as int)
    ensures Ends(A("asciifold")) == (9, 'a' as int, 's' as int, 'd' as int)
    ensures Ends(A("ascii_fold")) == (10, 'a' as int, 's' as int, 'd' as int)
    ensures Ends(A("pathsafe")) == (8, 'p' as int, 'a' as int, 'e' as int)
    ensures Ends(A("path_safe")) == (9, 'p' as int, 'a' as int, 'e' as int)
    ensures Ends(A("concat")) == (6, 'c' as int, 'o' as int, 't' as int)
    ensures Ends(A("not")) == (3, 'n' as int, 'o' as int, 't' as int)
    ensures Ends(A("all")) == (3, 'a' as int, 'l' as int, 'l' as int)
    ensures Ends(A("and")) == (3, 'a' as int, 'n' as int, 'd' as int)
    ensures Ends(A("any")) == (3, 'a' as int, 'n' as int, 'y' as int)
    ensures Ends(A("or")) == (2, 'o' as int, 'r' as int, 'r' as int)
    ensures Ends(A("is_empty")) == (8, 'i' as int, 's' as int, 'y' as int)
    ensures Ends(A("empty")) == (5, 'e' as int, 'm' as int, 'y' as int)
  {
    EndsOf("default");
    EndsOf("fallback");
    EndsOf("if");
    EndsOf("conditional");
    EndsOf("equals");
    EndsOf("eq");
    EndsOf("contains");
    EndsOf("replace");
    EndsOf("slice");
    EndsOf("pad");
    EndsOf("lower");
    EndsOf("upper");
    EndsOf("title");
    EndsOf("first");
    EndsOf("join");
    EndsOf("sortname");
    EndsOf("sort_name");
    EndsOf("asciifold");
    EndsOf("ascii_fold");
    EndsOf("pathsafe");
    EndsOf("path_safe");
    EndsOf("concat");
    EndsOf("not");
    EndsOf("all");
    EndsOf("and");
    EndsOf("any");
    EndsOf("or");
    EndsOf("is_empty");
    EndsOf("empty");
  }

  /** THE TABLE OF NAMES: each function has these names, in any case of their letters, and
      no others. */
  lemma SafeNames(n: Text)
    ensures SafeFunctionNamed(n) == Some(Default) <==> LowerAscii(n) in {A("default"), A("fallback")}
    ensures SafeFunctionNamed(n) == Some(If) <==> LowerAscii(n) in {A("if"), A("conditional")}
    ensures SafeFunctionNamed(n) == Some(Equals) <==> LowerAscii(n) in {A("equals"), A("eq")}
    ensures SafeFunctionNamed(n) == Some(Contains) <==> LowerAscii(n) in {A("contains")}
    ensures SafeFunctionNamed(n) == Some(Replace) <==> LowerAscii(n) in {A("replace")}
    ensures SafeFunctionNamed(n) == Some(Slice) <==> LowerAscii(n) in {A("slice")}
    ensures SafeFunctionNamed(n) == Some(Pad) <==> LowerAscii(n) in {A("pad")}
    ensures SafeFunctionNamed(n) == Some(Lower) <==> LowerAscii(n) in {A("lower")}
    ensures SafeFunctionNamed(n) == Some(Upper) <==> LowerAscii(n) in {A("upper")}
    ensures SafeFunctionNamed(n) == Some(Title) <==> LowerAscii(n) in {A("title")}
    ensures SafeFunctionNamed(n) == Some(First) <==> LowerAscii(n) in {A("first")}
    ensures SafeFunctionNamed(n) == Some(Join) <==> LowerAscii(n) in {A("join")}
    ensures SafeFunctionNamed(n) == Some(SortName) <==> LowerAscii(n) in {A("sortname"), A("sort_name")}
    ensures SafeFunctionNamed(n) == Some(AsciiFold) <==> LowerAscii(n) in {A("asciifold"), A("ascii_fold")}
    ensures SafeFunctionNamed(n) == Some(PathSafe) <==> LowerAscii(n) in {A("pathsafe"), A("path_safe")}
    ensures SafeFunctionNamed(n) == Some(Concat) <==> LowerAscii(n) in {A("concat")}
    ensures SafeFunctionNamed(n) == Some(Not) <==> LowerAscii(n) in {A("not")}
    ensures SafeFunctionNamed(n) == Some(All) <==> LowerAscii(n) in {A("all"), A("and")}
    ensures SafeFunctionNamed(n) == Some(Any) <==> LowerAscii(n) in {A("any"), A("or")}
    ensures SafeFunctionNamed(n) == Some(IsEmpty) <==> LowerAscii(n) in {A("is_empty"), A("empty")}
  {
    hide A, Ends, LowerAscii;
    EndsDiffer();
  }

  /** Case is the case of the ASCII letters. */
  lemma CaseOfLetters(t: Text, i: nat)
    requires i < |t|
    ensures |LowerAscii(t)| == |t|
    ensures LowerAscii(A("ABCDEFGHIJKLMNOPQRSTUVWXYZ")) == A("abcdefghijklmnopqrstuvwxyz")
    ensures !('A' as int <= t[i] <= 'Z' as int) ==> LowerAscii(t)[i] == t[i]
    ensures 'A' as int <= t[i] <= 'Z' as int ==>
              LowerAscii(t)[i] == A("abcdefghijklmnopqrstuvwxyz")[t[i] - 'A' as int]
  {
    var large, small := "ABCDEFGHIJKLMNOPQRSTUVWXYZ", "abcdefghijklmnopqrstuvwxyz";
    assert forall k | 0 <= k < 26 :: large[k] as int == 65 + k && small[k] as int == 97 + k;
    assert LowerAscii(A(large)) == A(small);
  }

  /** How many arguments each function takes. */
  lemma ArgumentCounts(n: Text, count: nat)
    requires SafeFunctionNamed(n).Some?
    ensures var fits, name := TakesArguments(SafeFunctionNamed(n).value, count), LowerAscii(n);
            var one := {A("lower"), A("upper"), A("title"), A("first"), A("sortname"), A("sort_name"),
                        A("asciifold"), A("ascii_fold"), A("not"), A("is_empty"), A("empty")};
            var many := {A("default"), A("fallback"), A("concat"), A("all"), A("and"), A("any"), A("or")};
            && (name in one ==> (fits <==> count == 1))
            && (name in {A("equals"), A("eq"), A("contains")} ==> (fits <==> count == 2))
            && (name in {A("if"), A("conditional"), A("replace")} ==> (fits <==> count == 3))
            && (name in {A("slice"), A("pad")} ==> (fits <==> 2 <= count <= 3))
            && (name in {A("join"), A("pathsafe"), A("path_safe")} ==> (fits <==> 1 <= count <= 2))
            && (name in many ==> (fits <==> 1 <= count <= 100))
  {
    hide A, LowerAscii, SafeFunctionNamed;
    SafeNames(n);
  }

  /** A name that is none of these, or a wrong number of arguments, fails at the call. */
  lemma BadCallFails(n: Text, values: seq<Value>, at: Place, unicode: Unicode)
    ensures SafeFunctionNamed(n).None? ==> CallNamed(n, values, at, unicode) == Err(ScriptError(UnknownFunction, at))
    ensures SafeFunctionNamed(n).Some? && !TakesArguments(SafeFunctionNamed(n).value, |values|) ==>
              CallNamed(n, values, at, unicode) == Err(ScriptError(WrongArity, at))
  {
    hide Apply, SafeFunctionNamed;
  }

  lemma CallIs(n: Text, f: SafeFunction, values: seq<Value>, at: Place, unicode: Unicode)
    requires SafeFunctionNamed(n) == Some(f) && TakesArguments(f, |values|)
    ensures CallNamed(n, values, at, unicode) == Apply(f, values, at, unicode)
  {
    hide Apply, SafeFunctionNamed, TakesArguments;
  }

  // -------------------------------------------------------------- values

  /** The values that count as false. */
  const FALSY := {NullValue, BoolValue(false), IntValue(0), TextValue([]), ListValue([])}

  /** The values that count as empty: false and zero do not. */
  const EMPTY := {NullValue, TextValue([]), ListValue([])}

  /** What a value says as a text. */
  lemma TextsOfValues(t: Text, items: seq<Text>, n: nat)
    ensures TextOf(NullValue) == Ok([]) && TextOf(TextValue(t)) == Ok(t)
    ensures TextOf(BoolValue(true)) == Ok(A("true")) && TextOf(BoolValue(false)) == Ok(A("false"))
    ensures TextOf(ListValue(items)) == Ok(JoinTexts(items, [';' as int, ' ' as int]))
    ensures |DigitsOf(n)| <= MAX_INTEGER_DIGITS ==> TextOf(IntValue(n)) == Ok(DigitsOf(n))
    ensures n > 0 && |DigitsOf(n)| <= MAX_INTEGER_DIGITS ==> TextOf(IntValue(0 - n)) == Ok(['-' as int] + DigitsOf(n))
    ensures |DigitsOf(n)| > MAX_INTEGER_DIGITS ==> TextOf(IntValue(n)) == Err(DigitLimit)
  {
    assert TRUE == A("true") && FALSE == A("false");
    assert A("; ") == [';' as int, ' ' as int] && A("-") == ['-' as int];
    hide JoinTexts, DigitsOf;
  }

  /** A decimal numeral has no leading zero. */
  lemma {:induction false} NoLeadingZero(n: nat)
    ensures n > 0 ==> DigitsOf(n)[0] != '0' as int
    ensures n == 0 ==> DigitsOf(n) == ['0' as int]
  {
    if n >= 10 {
      NoLeadingZero(n / 10);
    }
  }

  lemma TrueValues(v: Value)
    ensures Truthy(v) <==> v !in FALSY
    ensures IsEmptyValue(v) <==> v in EMPTY
  {
  }

  // ------------------------------------------------------ choosing and testing

  /** `if` yields its second argument, or its third when the first one counts as false. */
  lemma IfChooses(n: Text, condition: Value, yes: Value, no: Value, at: Place, unicode: Unicode)
    requires LowerAscii(n) in {A("if"), A("conditional")}
    ensures CallNamed(n, [condition, yes, no], at, unicode) == Ok(if condition in FALSY then no else yes)
  {
    hide A, LowerAscii, SafeFunctionNamed, FALSY;
    SafeNames(n);
    CallIs(n, If, [condition, yes, no], at, unicode);
    TrueValues(condition);
  }

  /** `not`, `is_empty`, `all` and `any`. */
  lemma TestsDecide(n: Text, values: seq<Value>, at: Place, unicode: Unicode)
    requires 1 <= |values| <= 100
    ensures LowerAscii(n) == A("not") && |values| == 1 ==>
              CallNamed(n, values, at, unicode) == Ok(BoolValue(values[0] in FALSY))
    ensures LowerAscii(n) in {A("is_empty"), A("empty")} && |values| == 1 ==>
              CallNamed(n, values, at, unicode) == Ok(BoolValue(values[0] in EMPTY))
    ensures LowerAscii(n) in {A("all"), A("and")} ==>
              CallNamed(n, values, at, unicode) == Ok(BoolValue(forall v | v in values :: v !in FALSY))
    ensures LowerAscii(n) in {A("any"), A("or")} ==>
              CallNamed(n, values, at, unicode) == Ok(BoolValue(exists v | v in values :: v !in FALSY))
  {
    hide A, LowerAscii, SafeFunctionNamed, FALSY, EMPTY, Truthy, IsEmptyValue;
    SafeNames(n);
    forall v: Value
      ensures Truthy(v) <==> v !in FALSY
      ensures IsEmptyValue(v) <==> v in EMPTY
    {
      TrueValues(v);
    }
    assert forall i | 0 <= i < |values| :: values[i] in values;
  }

  /** `equals` compares values; a boolean equals the number that it stands for, and no value
      equals one of another kind. */
  lemma EqualsIs(n: Text, a: Value, b: Value, at: Place, unicode: Unicode)
    requires LowerAscii(n) in {A("equals"), A("eq")}
    ensures CallNamed(n, [a, b], at, unicode)
            == Ok(BoolValue(a == b
                            || (a, b) in {(BoolValue(true), IntValue(1)), (IntValue(1), BoolValue(true)),
                                          (BoolValue(false), IntValue(0)), (IntValue(0), BoolValue(false))}))
  {
    hide A, LowerAscii, SafeFunctionNamed;
    SafeNames(n);
    CallIs(n, Equals, [a, b], at, unicode);
  }

  /** `contains` looks for an item of a list. */
  lemma ContainsItem(n: Text, items: seq<Text>, needle: Value, at: Place, unicode: Unicode)
    requires LowerAscii(n) == A("contains") && TextOf(needle).Ok?
    ensures CallNamed(n, [ListValue(items), needle], at, unicode)
            == Ok(BoolValue(exists i :: 0 <= i < |items| && items[i] == TextOf(needle).value))
  {
    hide A, LowerAscii, SafeFunctionNamed, TextOf, Occurs;
    SafeNames(n);
    CallIs(n, Contains, [ListValue(items), needle], at, unicode);
  }

  /** Anything else splits around the needle where it contains it. */
  lemma ContainsPart(n: Text, value: Value, needle: Value, at: Place, unicode: Unicode)
    requires LowerAscii(n) == A("contains") && !value.ListValue? && TextOf(value).Ok? && TextOf(needle).Ok?
    ensures CallNamed(n, [value, needle], at, unicode)
            == Ok(BoolValue(exists a: Text, b: Text :: TextOf(value).value == a + TextOf(needle).value + b))
  {
    hide A, LowerAscii, SafeFunctionNamed, TextOf, Occurs;
    SafeNames(n);
    CallIs(n, Contains, [value, needle], at, unicode);
    var text, word := TextOf(value).value, TextOf(needle).value;
    if Occurs(word, text) {
      var a, b := SplitAround(word, text);
    }
    if a: Text, b: Text :| text == a + word + b {
      assert text[|a|..] == word + b;
      OccursAt(word, text, |a|);
    }
  }

  lemma {:induction false} SplitAround(word: Text, text: Text) returns (a: Text, b: Text)
    requires Occurs(word, text)
    ensures text == a + word + b
  {
    if word <= text {
      a, b := [], text[|word|..];
    } else {
      a, b := SplitAround(word, text[1..]);
      a := [text[0]] + a;
    }
  }

  // -------------------------------------------------------- parts and wholes

  /** `first` yields the first item of a list as a text, and anything else as it is. */
  lemma FirstIs(n: Text, value: Value, item: Text, others: seq<Text>, at: Place, unicode: Unicode)
    requires LowerAscii(n) == A("first")
    ensures CallNamed(n, [ListValue([item] + others)], at, unicode) == Ok(TextValue(item))
    ensures !value.ListValue? || value.items == [] ==> CallNamed(n, [value], at, unicode) == Ok(value)
  {
    hide A, LowerAscii, SafeFunctionNamed;
    SafeNames(n);
    CallIs(n, First, [ListValue([item] + others)], at, unicode);
    CallIs(n, First, [value], at, unicode);
  }

  lemma {:induction false} JoinConcat(a: seq<Text>, b: seq<Text>, separator: Text)
    requires a != [] && b != []
    ensures JoinTexts(a + b, separator) == JoinTexts(a, separator) + separator + JoinTexts(b, separator)
  {
    assert (a + b)[1..] == a[1..] + b;
    if |a| > 1 {
      JoinConcat(a[1..], b, separator);
      var x, y := JoinTexts(a[1..], separator), JoinTexts(b, separator);
      assert a[0] + separator + (x + separator + y) == a[0] + separator + x + separator + y;
    } else {
      assert a[1..] + b == b;
    }
  }

  /** `join` puts the separator between neighbours, and nowhere else. */
  lemma JoinPutsBetween(n: Text, a: seq<Text>, b: seq<Text>, item: Text, separator: Text, at: Place, unicode: Unicode)
    requires LowerAscii(n) == A("join")
    ensures CallNamed(n, [ListValue([]), TextValue(separator)], at, unicode) == Ok(TextValue([]))
    ensures CallNamed(n, [ListValue([item]), TextValue(separator)], at, unicode) == Ok(TextValue(item))
    ensures a != [] && b != [] ==>
              var front := CallNamed(n, [ListValue(a), TextValue(separator)], at, unicode);
              var back := CallNamed(n, [ListValue(b), TextValue(separator)], at, unicode);
              && front.Ok? && front.value.TextValue? && back.Ok? && back.value.TextValue?
              && CallNamed(n, [ListValue(a + b), TextValue(separator)], at, unicode)
                 == Ok(TextValue(front.value.text + separator + back.value.text))
  {
    hide A, LowerAscii, SafeFunctionNamed, JoinTexts;
    SafeNames(n);
    assert JoinTexts([], separator) == [] && JoinTexts([item], separator) == item by {
      JoinEnds(item, separator);
    }
    CallIs(n, Join, [ListValue([]), TextValue(separator)], at, unicode);
    CallIs(n, Join, [ListValue([item]), TextValue(separator)], at, unicode);
    CallIs(n, Join, [ListValue(a), TextValue(separator)], at, unicode);
    CallIs(n, Join, [ListValue(b), TextValue(separator)], at, unicode);
    CallIs(n, Join, [ListValue(a + b), TextValue(separator)], at, unicode);
    if a != [] && b != [] {
      JoinConcat(a, b, separator);
    }
  }

  lemma JoinEnds(item: Text, separator: Text)
    ensures JoinTexts([], separator) == [] && JoinTexts([item], separator) == item
  {
  }

  /** Without a separator it is a semicolon and a space; what is no list is only put as a
      text. */
  lemma JoinByDefault(n: Text, items: seq<Text>, value: Value, separator: Value, at: Place, unicode: Unicode)
    requires LowerAscii(n) == A("join") && !value.ListValue? && TextOf(value).Ok? && TextOf(separator).Ok?
    ensures CallNamed(n, [ListValue(items)], at, unicode)
            == CallNamed(n, [ListValue(items), TextValue([';' as int, ' ' as int])], at, unicode)
    ensures CallNamed(n, [ListValue(items), separator], at, unicode)
            == CallNamed(n, [ListValue(items), TextValue(TextOf(separator).value)], at, unicode)
    ensures CallNamed(n, [value], at, unicode) == Ok(TextValue(TextOf(value).value))
    ensures CallNamed(n, [value, separator], at, unicode) == Ok(TextValue(TextOf(value).value))
  {
    assert A("; ") == [';' as int, ' ' as int];
    hide A, LowerAscii, SafeFunctionNamed, JoinTexts;
    SafeNames(n);
    CallIs(n, Join, [ListValue(items)], at, unicode);
    CallIs(n, Join, [value], at, unicode);
    CallIs(n, Join, [value, separator], at, unicode);
    CallIs(n, Join, [ListValue(items), separator], at, unicode);
    CallIs(n, Join, [ListValue(items), TextValue(TextOf(separator).value)], at, unicode);
    CallIs(n, Join, [ListValue(items), TextValue([';' as int, ' ' as int])], at, unicode);
  }

  lemma {:induction false} ConcatTextsConcat(a: seq<Value>, b: seq<Value>)
    requires ConcatTexts(a).Ok? && ConcatTexts(b).Ok?
    ensures ConcatTexts(a + b) == Ok(ConcatTexts(a).value + ConcatTexts(b).value)
  {
    hide TextOf;
    if a == [] {
      assert a + b == b;
      assert [] + ConcatTexts(b).value == ConcatTexts(b).value;
    } else {
      assert (a + b)[1..] == a[1..] + b;
      ConcatTextsConcat(a[1..], b);
      var x, y, z := TextOf(a[0]).value, ConcatTexts(a[1..]).value, ConcatTexts(b).value;
      assert x + y + z == x + (y + z);
    }
  }

  /** `concat` of one value is its text, and of two lists of arguments the one text behind
      the other. */
  lemma ConcatAppends(n: Text, value: Value, a: seq<Value>, b: seq<Value>, at: Place, unicode: Unicode)
    requires LowerAscii(n) == A("concat") && TextOf(value).Ok?
    requires a != [] && b != [] && |a| + |b| <= 100
    ensures CallNamed(n, [value], at, unicode) == Ok(TextValue(TextOf(value).value))
    ensures var front, back := CallNamed(n, a, at, unicode), CallNamed(n, b, at, unicode);
            front.Ok? && back.Ok? ==>
              && front.value.TextValue? && back.value.TextValue?
              && CallNamed(n, a + b, at, unicode) == Ok(TextValue(front.value.text + back.value.text))
  {
    hide A, LowerAscii, SafeFunctionNamed, TextOf, ConcatTexts;
    SafeNames(n);
    ConcatOne(value);
    CallIs(n, Concat, [value], at, unicode);
    CallIs(n, Concat, a, at, unicode);
    CallIs(n, Concat, b, at, unicode);
    CallIs(n, Concat, a + b, at, unicode);
    if ConcatTexts(a).Ok? && ConcatTexts(b).Ok? {
      ConcatTextsConcat(a, b);
    }
  }

  lemma ConcatOne(value: Value)
    requires TextOf(value).Ok?
    ensures ConcatTexts([value]) == Ok(TextOf(value).value)
  {
    hide TextOf;
    assert [value][1..] == [];
    assert TextOf(value).value + [] == TextOf(value).value;
  }

  // ------------------------------------------------------------- replacing

  lemma ReplaceIs(n: Text, text: Text, pattern: Text, substitute: Text, at: Place, unicode: Unicode)
    requires LowerAscii(n) == A("replace")
    ensures CallNamed(n, [TextValue(text), TextValue(pattern), TextValue(substitute)], at, unicode)
            == Ok(TextValue(PythonReplace(text, pattern, substitute)))
  {
    hide A, LowerAscii, SafeFunctionNamed, PythonReplace;
    SafeNames(n);
    CallIs(n, Replace, [TextValue(text), TextValue(pattern), TextValue(substitute)], at, unicode);
  }

  lemma {:induction false} NothingReplaced(text: Text, pattern: Text, substitute: Text)
    requires pattern != [] && !Occurs(pattern, text)
    ensures ReplaceAll(text, pattern, substitute) == text
  {
    if text != [] {
      NothingReplaced(text[1..], pattern, substitute);
    }
  }

  /** `replace` leaves a text without the pattern as it is; otherwise it replaces the first
      occurrence and goes on behind it. */
  lemma ReplaceFirst(n: Text, a: Text, pattern: Text, b: Text, substitute: Text, at: Place, unicode: Unicode)
    requires LowerAscii(n) == A("replace") && pattern != []
    requires forall i | 0 <= i < |a| :: !(pattern <= (a + (pattern + b))[i..])
    ensures var rest := CallNamed(n, [TextValue(b), TextValue(pattern), TextValue(substitute)], at, unicode);
            && rest.Ok? && rest.value.TextValue?
            && CallNamed(n, [TextValue(a + (pattern + b)), TextValue(pattern), TextValue(substitute)], at, unicode)
               == Ok(TextValue(a + (substitute + rest.value.text)))
            && (!Occurs(pattern, b) ==> rest.value.text == b)
  {
    hide A, LowerAscii, CallNamed, Occurs, ReplaceAll;
    ReplaceIs(n, b, pattern, substitute, at, unicode);
    ReplaceIs(n, a + (pattern + b), pattern, substitute, at, unicode);
    Miss(pattern, substitute, a, pattern + b);
    Hit(pattern, substitute, b);
    if !Occurs(pattern, b) {
      NothingReplaced(b, pattern, substitute);
    }
  }

  lemma {:induction false} Interleaved(a: Text, c: Code, b: Text, substitute: Text)
    ensures PythonReplace(a + ([c] + b), [], substitute)
            == PythonReplace(a, [], substitute) + ([c] + PythonReplace(b, [], substitute))
  {
    if a == [] {
      assert a + ([c] + b) == [c] + b;
      var x := PythonReplace(b, [], substitute);
      assert substitute + [c] + x == substitute + ([c] + x);
    } else {
      assert (a + ([c] + b))[1..] == a[1..] + ([c] + b);
      Interleaved(a[1..], c, b, substitute);
      var x, y := PythonReplace(a[1..], [], substitute), [c] + PythonReplace(b, [], substitute);
      assert substitute + [a[0]] + (x + y) == substitute + [a[0]] + x + y;
    }
  }

  /** The empty pattern is found before every character and at the end. */
  lemma ReplaceNothing(n: Text, a: Text, c: Code, b: Text, substitute: Text, at: Place, unicode: Unicode)
    requires LowerAscii(n) == A("replace")
    ensures CallNamed(n, [TextValue([]), TextValue([]), TextValue(substitute)], at, unicode)
            == Ok(TextValue(substitute))
    ensures var front := CallNamed(n, [TextValue(a), TextValue([]), TextValue(substitute)], at, unicode);
            var back := CallNamed(n, [TextValue(b), TextValue([]), TextValue(substitute)], at, unicode);
            && front.Ok? && front.value.TextValue? && back.Ok? && back.value.TextValue?
            && CallNamed(n, [TextValue(a + ([c] + b)), TextValue([]), TextValue(substitute)], at, unicode)
               == Ok(TextValue(front.value.text + ([c] + back.value.text)))
  {
    hide A, LowerAscii, CallNamed;
    ReplaceIs(n, [], [], substitute, at, unicode);
    ReplaceIs(n, a, [], substitute, at, unicode);
    ReplaceIs(n, b, [], substitute, at, unicode);
    ReplaceIs(n, a + ([c] + b), [], substitute, at, unicode);
    Interleaved(a, c, b, substitute);
  }

  /** `replace` takes the texts of its arguments. */
  lemma ReplaceOfTexts(n: Text, a: Value, b: Value, c: Value, at: Place, unicode: Unicode)
    requires LowerAscii(n) == A("replace") && TextOf(a).Ok? && TextOf(b).Ok? && TextOf(c).Ok?
    ensures CallNamed(n, [a, b, c], at, unicode)
            == CallNamed(n, [TextValue(TextOf(a).value), TextValue(TextOf(b).value), TextValue(TextOf(c).value)],
                         at, unicode)
  {
    hide A, LowerAscii, SafeFunctionNamed, PythonReplace;
    SafeNames(n);
    CallIs(n, Replace, [a, b, c], at, unicode);
    CallIs(n, Replace, [TextValue(TextOf(a).value), TextValue(TextOf(b).value), TextValue(TextOf(c).value)],
           at, unicode);
  }

  // ----------------------------------------------------- slices and padding

  /** Where an index of Python points to: a negative one counts from the end, and both kinds
      stop at the ends. */
  predicate PointsTo(index: int, length: nat, k: nat) {
    && (0 <= index <= length ==> k == index) && (index > length ==> k == length)
    && (index < 0 <= index + length ==> k == index + length) && (index + length < 0 ==> k == 0)
  }

  lemma ClampPoints(index: int, length: nat)
    ensures PointsTo(index, length, Clamp(index, length))
    ensures forall k: nat | PointsTo(index, length, k) :: k == Clamp(index, length)
  {
  }

  /** `slice` keeps what stands from the start up to the end. */
  lemma SliceOfText(n: Text, text: Text, start: int, end: int, low: nat, high: nat, at: Place, unicode: Unicode)
    requires LowerAscii(n) == A("slice")
    requires PointsTo(start, |text|, low) && PointsTo(end, |text|, high) && low <= |text| && high <= |text|
    ensures CallNamed(n, [TextValue(text), IntValue(start)], at, unicode) == Ok(TextValue(text[low..]))
    ensures CallNamed(n, [TextValue(text), IntValue(start), IntValue(end)], at, unicode)
            == Ok(TextValue(if low <= high then text[low..high] else []))
  {
    hide A, LowerAscii, SafeFunctionNamed, PointsTo, Clamp;
    SafeNames(n);
    ClampPoints(start, |text|);
    ClampPoints(end, |text|);
    assert text[low..] == text[low..|text|];
    CallIs(n, Slice, [TextValue(text), IntValue(start)], at, unicode);
    CallIs(n, Slice, [TextValue(text), IntValue(start), IntValue(end)], at, unicode);
  }

  /** A list keeps its items in the same way. */
  lemma SliceOfList(n: Text, items: seq<Text>, start: int, end: int, low: nat, high: nat, at: Place, unicode: Unicode)
    requires LowerAscii(n) == A("slice")
    requires PointsTo(start, |items|, low) && PointsTo(end, |items|, high) && low <= |items| && high <= |items|
    ensures CallNamed(n, [ListValue(items), IntValue(start)], at, unicode) == Ok(ListValue(items[low..]))
    ensures CallNamed(n, [ListValue(items), IntValue(start), IntValue(end)], at, unicode)
            == Ok(ListValue(if low <= high then items[low..high] else []))
  {
    hide A, LowerAscii, SafeFunctionNamed, PointsTo, Clamp;
    SafeNames(n);
    ClampPoints(start, |items|);
    ClampPoints(end, |items|);
    assert items[low..] == items[low..|items|];
    CallIs(n, Slice, [ListValue(items), IntValue(start)], at, unicode);
    CallIs(n, Slice, [ListValue(items), IntValue(start), IntValue(end)], at, unicode);
  }

  /** What is neither text nor list is sliced as its text. */
  lemma SliceOfOthers(n: Text, value: Value, start: Value, at: Place, unicode: Unicode)
    requires LowerAscii(n) == A("slice") && !value.ListValue? && TextOf(value).Ok?
    ensures CallNamed(n, [value, start], at, unicode)
            == CallNamed(n, [TextValue(TextOf(value).value), start], at, unicode)
  {
    hide A, LowerAscii, SafeFunctionNamed, PythonSlice, TextOf, IntegerOf;
    SafeNames(n);
    TextIsItself(TextOf(value).value);
    CallIs(n, Slice, [value, start], at, unicode);
    CallIs(n, Slice, [TextValue(TextOf(value).value), start], at, unicode);
  }

  /** An index may also be a text that says an integer. */
  lemma SliceFrom(n: Text, value: Value, start: Value, k: int, at: Place, unicode: Unicode)
    requires LowerAscii(n) == A("slice") && IntegerOf(start, at) == Ok(k)
    ensures CallNamed(n, [value, start], at, unicode) == CallNamed(n, [value, IntValue(k)], at, unicode)
  {
    hide A, LowerAscii, SafeFunctionNamed, PythonSlice, TextOf, PythonInt;
    SafeNames(n);
    CallIs(n, Slice, [value, start], at, unicode);
    CallIs(n, Slice, [value, IntValue(k)], at, unicode);
  }

  lemma {:induction false} RepeatIs(c: Code, count: int)
    ensures |Repeat(c, count)| == (if count > 0 then count else 0)
    ensures forall i | 0 <= i < |Repeat(c, count)| :: Repeat(c, count)[i] == c
  {
    if count > 0 {
      RepeatIs(c, count - 1);
    }
  }

  /** `pad` succeeds exactly with a width from 0 to 1024 and one character of fill, which is
      `0` unless it is given; the text then ends the result, and fill stands before it up to
      the width. */
  lemma PadPutsBefore(n: Text, text: Text, width: int, fill: Text, at: Place, unicode: Unicode)
    requires LowerAscii(n) == A("pad")
    ensures CallNamed(n, [TextValue(text), IntValue(width)], at, unicode)
            == CallNamed(n, [TextValue(text), IntValue(width), TextValue(['0' as int])], at, unicode)
    ensures var r := CallNamed(n, [TextValue(text), IntValue(width), TextValue(fill)], at, unicode);
            && (r.Ok? <==> 0 <= width <= 1024 && |fill| == 1)
            && (r.Err? ==> r == Err(ScriptError(PadInvalid, at)))
            && (r.Ok? ==>
                  && r.value.TextValue? && text <= r.value.text[|r.value.text| - |text|..]
                  && |r.value.text| == (if |text| < width then width else |text|)
                  && forall i | 0 <= i < |r.value.text| - |text| :: r.value.text[i] == fill[0])
  {
    assert A("0") == ['0' as int];
    hide A, LowerAscii, SafeFunctionNamed, Repeat;
    SafeNames(n);
    CallIs(n, Pad, [TextValue(text), IntValue(width)], at, unicode);
    CallIs(n, Pad, [TextValue(text), IntValue(width), TextValue(['0' as int])], at, unicode);
    CallIs(n, Pad, [TextValue(text), IntValue(width), TextValue(fill)], at, unicode);
    if |fill| == 1 {
      RepeatIs(fill[0], width - |text|);
    }
  }

  /** The digits of a text that is an integer, with or without a sign and white space around
      it; a boolean is no integer here, nor is a list or nothing. */
  lemma IntegersOf(n: nat, left: Text, right: Text, value: Value, at: Place)
    requires AllSpace(left) && AllSpace(right) && |DigitsOf(n)| <= MAX_INTEGER_DIGITS
    ensures IntegerOf(TextValue(left + DigitsOf(n) + right), at) == Ok(n)
    ensures IntegerOf(TextValue(left + (['+' as int] + DigitsOf(n)) + right), at) == Ok(n)
    ensures IntegerOf(TextValue(left + (['-' as int] + DigitsOf(n)) + right), at) == Ok(-(n as int))
    ensures value.BoolValue? || value.ListValue? || value.NullValue? ==>
              IntegerOf(value, at) == Err(ScriptError(IntegerRequired, at))
    ensures value.IntValue? ==> IntegerOf(value, at) == Ok(value.number)
  {
    hide Strip, AllSpace, NumeralDigits, Decimal, DigitsOf;
    var digits := DigitsOf(n);
    DecimalOfDigits(n);
    NumeralOfDigits(digits);
    DigitsAreVisible(digits);
    StripOfPadded(left, digits, right);
    StripOfPadded(left, ['+' as int] + digits, right);
    StripOfPadded(left, ['-' as int] + digits, right);
    assert (['+' as int] + digits)[1..] == digits && (['-' as int] + digits)[1..] == digits;
  }

  lemma DigitsAreVisible(digits: Text)
    requires digits != [] && forall i | 0 <= i < |digits| :: IsDigit(digits[i])
    ensures !IsSpace(digits[0]) && !IsSpace(digits[|digits| - 1]) && !IsSpace('+' as int) && !IsSpace('-' as int)
    ensures digits[0] != '+' as int && digits[0] != '-' as int
  {
  }

  lemma {:induction false} NumeralOfDigits(digits: Text)
    requires digits != [] && forall i | 0 <= i < |digits| :: IsDigit(digits[i])
    ensures NumeralDigits(digits) == Some(digits)
  {
    if |digits| > 1 {
      NumeralOfDigits(digits[1..]);
      assert [digits[0]] + digits[1..] == digits;
    }
  }

  lemma NumeralStep(c: Code, t: Text)
    requires IsDigit(c) && t != [] && t[0] != '_' as int
    ensures NumeralDigits([c] + t) == if NumeralDigits(t).Some? then Some([c] + NumeralDigits(t).value) else None
  {
    assert ([c] + t)[1..] == t;
  }

  lemma NumeralSkip(c: Code, t: Text)
    requires IsDigit(c)
    ensures NumeralDigits([c] + (['_' as int] + t))
            == if NumeralDigits(t).Some? then Some([c] + NumeralDigits(t).value) else None
  {
    assert ([c] + (['_' as int] + t))[2..] == t;
  }

  /** A single underscore between digits is left out. */
  lemma {:induction false} NumeralWithUnderscore(a: Text, b: Text)
    requires a != [] && (forall i | 0 <= i < |a| :: IsDigit(a[i])) && NumeralDigits(b).Some?
    ensures NumeralDigits(a + (['_' as int] + b)) == Some(a + NumeralDigits(b).value)
    ensures NumeralDigits(['_' as int] + b) == None
    decreases |a|
  {
    var rest := ['_' as int] + b;
    assert IsDigit(a[0]) && !IsDigit('_' as int);
    if |a| == 1 {
      assert a == [a[0]];
      NumeralSkip(a[0], b);
    } else {
      hide NumeralDigits, IsDigit;
      NumeralWithUnderscore(a[1..], b);
      assert a + rest == [a[0]] + (a[1..] + rest);
      NotUnderscore(a[1]);
      NumeralStep(a[0], a[1..] + rest);
      assert [a[0]] + (a[1..] + NumeralDigits(b).value) == a + NumeralDigits(b).value;
    }
  }

  lemma NotUnderscore(c: Code)
    requires IsDigit(c)
    ensures c != '_' as int
  {
  }

  // ------------------------------------------------------ texts as a whole

  /** `lower`, `upper`, `title` and `asciifold` pass the text of their argument on. */
  lemma TextFunctionsPassOn(n: Text, value: Value, at: Place, unicode: Unicode)
    requires TextOf(value).Ok?
    ensures var text, r := TextOf(value).value, CallNamed(n, [value], at, unicode);
            && (LowerAscii(n) == A("lower") ==> r == Ok(TextValue(unicode.lower(text))))
            && (LowerAscii(n) == A("upper") ==> r == Ok(TextValue(unicode.upper(text))))
            && (LowerAscii(n) == A("title") ==> r == Ok(TextValue(unicode.title(text))))
            && (LowerAscii(n) in {A("asciifold"), A("ascii_fold")} ==> r == Ok(TextValue(unicode.asciiFold(text))))
  {
    hide A, LowerAscii, SafeFunctionNamed, TextOf;
    SafeNames(n);
  }

  /** Which article a casefolded text begins with; `the` is tried first and `a` last. */
  predicate StartsWithArticle(folded: Text, length: nat) {
    || (length == 3 && A("the ") <= folded)
    || (length == 2 && A("an ") <= folded && !(A("the ") <= folded))
    || (length == 1 && A("a ") <= folded && !(A("an ") <= folded) && !(A("the ") <= folded))
  }

  lemma SortNameOf(text: Text, article: Text, rest: Text, unicode: Unicode)
    requires Strip(text) == article + ([' ' as int] + rest)
    requires StartsWithArticle(unicode.casefold(article + ([' ' as int] + rest)), |article|)
    ensures ScriptEvaluator.SortName(text, unicode) == rest + ([',' as int, ' ' as int] + article)
  {
    hide A, Strip, MoveArticle;
    MovesArticle(article, rest);
  }

  /** `sortname` moves one leading article to the end; it is looked for in the casefolded
      text. */
  lemma SortNameMoves(n: Text, value: Value, article: Text, rest: Text, at: Place, unicode: Unicode)
    requires LowerAscii(n) in {A("sortname"), A("sort_name")} && TextOf(value).Ok?
    requires Strip(TextOf(value).value) == article + ([' ' as int] + rest)
    requires StartsWithArticle(unicode.casefold(article + ([' ' as int] + rest)), |article|)
    ensures CallNamed(n, [value], at, unicode) == Ok(TextValue(rest + ([',' as int, ' ' as int] + article)))
  {
    hide A, LowerAscii, SafeFunctionNamed, TextOf, Strip, ScriptEvaluator.SortName, StartsWithArticle;
    SafeNames(n);
    CallIs(n, SafeFunction.SortName, [value], at, unicode);
    SortNameOf(TextOf(value).value, article, rest, unicode);
  }

  lemma MovesArticle(article: Text, rest: Text)
    requires |article| >= 1
    ensures MoveArticle(article + ([' ' as int] + rest), |article| + 1) == rest + ([',' as int, ' ' as int] + article)
  {
    assert A(", ") == [',' as int, ' ' as int];
    hide A;
    var t := article + ([' ' as int] + rest);
    assert t[|article| + 1..|t|] == rest && t[0..|article|] == article;
    assert rest + A(", ") + article == rest + (A(", ") + article);
  }

  /** Without an article the text is only stripped. */
  lemma SortNameStrips(n: Text, value: Value, at: Place, unicode: Unicode)
    requires LowerAscii(n) in {A("sortname"), A("sort_name")} && TextOf(value).Ok?
    requires var folded := unicode.casefold(Strip(TextOf(value).value));
             !(A("the ") <= folded) && !(A("an ") <= folded) && !(A("a ") <= folded)
    ensures CallNamed(n, [value], at, unicode) == Ok(TextValue(Strip(TextOf(value).value)))
  {
    hide A, LowerAscii, SafeFunctionNamed, TextOf, Strip;
    SafeNames(n);
    CallIs(n, SafeFunction.SortName, [value], at, unicode);
  }

  /** The characters that `path_safe` replaces: those that Windows refuses, the slashes, and
      control characters. */
  lemma UnsafeCharacters(c: Code)
    ensures UnsafeInPath(c) <==>
              c in {'<' as int, '>' as int, ':' as int, '"' as int, '/' as int, '\\' as int, '|' as int, '?' as int,
                    '*' as int} || 0 <= c < 32 || c == 127
  {
  }

  /** `path_safe` replaces exactly those, and refuses the slashes and NUL as replacements. */
  lemma PathSafeReplaces(n: Text, value: Value, replacement: Value, at: Place, unicode: Unicode)
    requires LowerAscii(n) in {A("pathsafe"), A("path_safe")} && TextOf(value).Ok? && TextOf(replacement).Ok?
    ensures var r, c := CallNamed(n, [value, replacement], at, unicode), TextOf(replacement).value;
            && (r.Ok? <==> |c| == 1 && c[0] !in {'/' as int, '\\' as int, 0})
            && (r.Err? ==> r == Err(ScriptError(PathReplacementInvalid, at)))
            && (r.Ok? ==> r.value.TextValue? && |r.value.text| == |TextOf(value).value|
                          && forall i | 0 <= i < |r.value.text| ::
                               r.value.text[i]
                               == if UnsafeInPath(TextOf(value).value[i]) then c[0] else TextOf(value).value[i])
  {
    hide A, LowerAscii, SafeFunctionNamed, TextOf, UnsafeInPath;
    SafeNames(n);
    CallIs(n, PathSafe, [value, replacement], at, unicode);
  }

  /** The replacement is an underscore unless something else is given. */
  lemma PathSafeByDefault(n: Text, value: Value, at: Place, unicode: Unicode)
    requires LowerAscii(n) in {A("pathsafe"), A("path_safe")}
    ensures CallNamed(n, [value], at, unicode) == CallNamed(n, [value, TextValue(['_' as int])], at, unicode)
  {
    hide A, LowerAscii, SafeFunctionNamed, Apply;
    SafeNames(n);
    CallIs(n, PathSafe, [value], at, unicode);
    CallIs(n, PathSafe, [value, TextValue(['_' as int])], at, unicode);
    UnderscoreIsDefault(value, at, unicode);
  }

  lemma UnderscoreIsDefault(value: Value, at: Place, unicode: Unicode)
    ensures Apply(PathSafe, [value], at, unicode) == Apply(PathSafe, [value, TextValue(['_' as int])], at, unicode)
  {
    assert A("_") == ['_' as int];
    hide A, TextOf, UnsafeInPath;
    TextIsItself(['_' as int]);
  }

  lemma TextIsItself(t: Text)
    ensures TextOf(TextValue(t)) == Ok(t)
  {
  }

  lemma {:induction false} FirstFull(values: seq<Value>, k: nat)
    requires k < |values| && values[k] !in EMPTY && forall i | 0 <= i < k :: values[i] in EMPTY
    ensures FirstNonEmpty(values) == values[k]
  {
    TrueValues(values[0]);
    if k > 0 {
      hide EMPTY;
      FirstFull(values[1..], k - 1);
    }
  }

  lemma {:induction false} NoneFull(values: seq<Value>)
    requires forall v | v in values :: v in EMPTY
    ensures FirstNonEmpty(values) == NullValue
  {
    if values != [] {
      TrueValues(values[0]);
      NoneFull(values[1..]);
    }
  }

  /** `default` yields its first argument that is not empty, and nothing if all are. */
  lemma DefaultIsFirst(n: Text, values: seq<Value>, k: nat, at: Place, unicode: Unicode)
    requires LowerAscii(n) in {A("default"), A("fallback")} && 1 <= |values| <= 100
    ensures k < |values| && values[k] !in EMPTY && (forall i | 0 <= i < k :: values[i] in EMPTY) ==>
              CallNamed(n, values, at, unicode) == Ok(values[k])
    ensures (forall v | v in values :: v in EMPTY) ==> CallNamed(n, values, at, unicode) == Ok(NullValue)
  {
    hide A, LowerAscii, SafeFunctionNamed, FirstNonEmpty, EMPTY;
    SafeNames(n);
    CallIs(n, Default, values, at, unicode);
    if k < |values| && values[k] !in EMPTY && (forall i | 0 <= i < k :: values[i] in EMPTY) {
      FirstFull(values, k);
    }
    if forall v | v in values :: v in EMPTY {
      NoneFull(values);
    }
  }

  // ------------------------------------------------------------ evaluating

  /** The limits of one value, in characters and items. */
  lemma LimitsOfValues(t: Text, items: seq<Text>, n: int, b: bool)
    ensures Acceptable(TextValue(t)) <==>
              |t| <= 8_192 && forall c | c in t :: c != 0 && !(0xD800 <= c <= 0xDFFF)
    ensures Acceptable(ListValue(items)) <==>
              |items| <= 100 && |JoinTexts(items, [])| <= 8_192
              && forall item, c | item in items && c in item :: c != 0 && !(0xD800 <= c <= 0xDFFF)
    ensures Acceptable(IntValue(n)) && Acceptable(BoolValue(b)) && Acceptable(NullValue)
    ensures Size(TextValue(t)) == |t| && Size(ListValue(items)) == |JoinTexts(items, [])|
    ensures Size(IntValue(n)) == Size(BoolValue(b)) == Size(NullValue) == 0
  {
    TotalIsJoined(items);
    hide JoinTexts, TotalLength;
    SafeByMembers(t);
    forall item
      ensures SafeText(item) <==> forall c | c in item :: c != 0 && !(0xD800 <= c <= 0xDFFF)
    {
      SafeByMembers(item);
    }
    assert forall i | 0 <= i < |items| :: items[i] in items;
  }

  lemma SafeByMembers(t: Text)
    ensures SafeText(t) <==> forall c | c in t :: c != 0 && !(0xD800 <= c <= 0xDFFF)
  {
    assert forall i | 0 <= i < |t| :: t[i] in t;
  }

  lemma {:induction false} TotalIsJoined(items: seq<Text>)
    ensures TotalLength(items) == |JoinTexts(items, [])|
  {
    if |items| == 1 {
      assert items[1..] == [];
    } else if items != [] {
      TotalIsJoined(items[1..]);
    }
  }

  /** A literal is its value, a variable what it is bound to, or nothing. */
  lemma LeavesEvaluate(value: Value, name: Text, at: Place, variables: Variables, unicode: Unicode)
    ensures Acceptable(value) ==>
              Evaluate(Literal(value, at), variables, unicode, Budget(0, 0))
              == Ok(Evaluated(value, Budget(1, Size(value))))
    ensures name in variables && Acceptable(variables[name]) ==>
              Evaluate(Variable(name, at), variables, unicode, Budget(0, 0))
              == Ok(Evaluated(variables[name], Budget(1, Size(variables[name]))))
    ensures name !in variables ==>
              Evaluate(Variable(name, at), variables, unicode, Budget(0, 0))
              == Ok(Evaluated(NullValue, Budget(1, 0)))
  {
    hide SafeText;
    if Acceptable(value) {
      SizeIsSmall(value);
    }
    if name in variables && Acceptable(variables[name]) {
      SizeIsSmall(variables[name]);
    }
  }

  lemma SizeIsSmall(value: Value)
    requires Acceptable(value)
    ensures Size(value) <= MAX_VALUE_CHARACTERS <= MAX_TOTAL_OUTPUT_CHARACTERS
  {
  }

  const FRESH := Budget(0, 0)

  /** A tree that evaluates on its own. */
  function Alone(e: Expression, variables: Variables, unicode: Unicode): Outcome<Value> {
    match Evaluate(e, variables, unicode, FRESH)
    case Err(error) => Err(error)
    case Ok(evaluated) => Ok(evaluated.value)
  }

  lemma {:induction false} EachAlone(es: seq<Expression>, i: nat, variables: Variables, unicode: Unicode)
    requires AllWithinLimits(es, variables, unicode) && i < |es|
    ensures WithinLimits(es[i], variables, unicode) && Nodes(es[i]) <= NodesOfList(es)
    ensures Output(es[i], variables, unicode) <= OutputOfAll(es, variables, unicode)
    ensures Meanings(es, variables, unicode).Ok? && |Meanings(es, variables, unicode).value| == |es|
    ensures Meanings(es, variables, unicode).value[i] == Meaning(es[i], variables, unicode).value
    decreases |es|
  {
    hide WithinLimits, Output, Nodes, Meaning;
    MeaningsExist(es, variables, unicode);
    MeaningsMatch(es, variables, unicode);
    if i > 0 {
      EachAlone(es[1..], i - 1, variables, unicode);
    }
  }

  lemma {:induction false} MeaningsMatch(es: seq<Expression>, variables: Variables, unicode: Unicode)
    requires Meanings(es, variables, unicode).Ok?
    ensures |Meanings(es, variables, unicode).value| == |es|
  {
    hide Meaning;
    if es != [] {
      MeaningsMatch(es[1..], variables, unicode);
    }
  }

  /** The children of a call or a list that evaluates also evaluate on their own. */
  lemma ChildrenEvaluate(e: Expression, children: seq<Expression>, variables: Variables, unicode: Unicode)
    requires Evaluate(e, variables, unicode, FRESH).Ok?
    requires (e.Call? || e.List?) && e.children == children
    ensures Meanings(children, variables, unicode).Ok? && |Meanings(children, variables, unicode).value| == |children|
    ensures forall i | 0 <= i < |children| ::
              Alone(children[i], variables, unicode) == Ok(Meanings(children, variables, unicode).value[i])
    ensures Meaning(e, variables, unicode) == Alone(e, variables, unicode)
  {
    hide Evaluate, Meaning, Meanings, CallNamed, Acceptable;
    EvaluateIffMeaning(e, variables, unicode, FRESH);
    LimitsOfChildren(e, variables, unicode);
    MeaningsExist(children, variables, unicode);
    MeaningsMatch(children, variables, unicode);
    forall i | 0 <= i < |children|
      ensures Alone(children[i], variables, unicode) == Ok(Meanings(children, variables, unicode).value[i])
    {
      EachAlone(children, i, variables, unicode);
      EvaluateIffMeaning(children[i], variables, unicode, FRESH);
    }
  }

  lemma LimitsOfChildren(e: Expression, variables: Variables, unicode: Unicode)
    requires WithinLimits(e, variables, unicode) && (e.Call? || e.List?)
    ensures AllWithinLimits(e.children, variables, unicode) && Meaning(e, variables, unicode).Ok?
    ensures OutputOfAll(e.children, variables, unicode) <= Output(e, variables, unicode)
    ensures NodesOfList(e.children) < Nodes(e)
  {
    hide Meaning, CallNamed;
  }

  /** A CALL IS ITS FUNCTION ON THE VALUES OF ITS ARGUMENTS, each evaluated on its own. */
  lemma CallEvaluates(name: Text, children: seq<Expression>, at: Place, variables: Variables, unicode: Unicode,
                      values: seq<Value>)
    requires Evaluate(Call(name, children, at), variables, unicode, FRESH).Ok? && |values| == |children|
    requires forall i | 0 <= i < |children| && Alone(children[i], variables, unicode).Ok? ::
               values[i] == Alone(children[i], variables, unicode).value
    ensures forall i | 0 <= i < |children| :: Alone(children[i], variables, unicode).Ok?
    ensures Alone(Call(name, children, at), variables, unicode) == CallNamed(name, values, at, unicode)
  {
    hide Evaluate, CallNamed, Meanings;
    ChildrenEvaluate(Call(name, children, at), children, variables, unicode);
    assert values == Meanings(children, variables, unicode).value;
  }

  /** A LIST HOLDS THE TEXTS OF ITS ITEMS, each evaluated on its own. */
  lemma ListEvaluates(children: seq<Expression>, at: Place, variables: Variables, unicode: Unicode)
    requires Evaluate(List(children, at), variables, unicode, FRESH).Ok?
    ensures var r := Evaluate(List(children, at), variables, unicode, FRESH).value.value;
            && r.ListValue? && |r.items| == |children|
            && forall i | 0 <= i < |children| ::
                 && Alone(children[i], variables, unicode).Ok?
                 && TextOf(Alone(children[i], variables, unicode).value) == Ok(r.items[i])
  {
    hide Evaluate, Meanings, TextOf;
    ChildrenEvaluate(List(children, at), children, variables, unicode);
    TextsOfEach(Meanings(children, variables, unicode).value);
  }

  lemma {:induction false} TextsOfEach(values: seq<Value>)
    requires TextsOf(values).Ok?
    ensures |TextsOf(values).value| == |values|
    ensures forall i | 0 <= i < |values| :: TextOf(values[i]) == Ok(TextsOf(values).value[i])
  {
    hide TextOf;
    if values != [] {
      TextsOfEach(values[1..]);
      assert forall i | 1 <= i < |values| :: values[i] == values[1..][i - 1];
    }
  }

  /** AN IF TAKES ONE BRANCH: a call of `if` that evaluates has the value of its second
      argument, or of its third when the first one counts as false. */
  lemma IfEvaluates(n: Text, condition: Expression, yes: Expression, no: Expression, at: Place,
                    variables: Variables, unicode: Unicode)
    requires LowerAscii(n) in {A("if"), A("conditional")}
    requires Evaluate(Call(n, [condition, yes, no], at), variables, unicode, FRESH).Ok?
    ensures Alone(condition, variables, unicode).Ok?
    ensures Alone(Call(n, [condition, yes, no], at), variables, unicode)
            == if Alone(condition, variables, unicode).value in FALSY then Alone(no, variables, unicode)
               else Alone(yes, variables, unicode)
  {
    hide A, LowerAscii, Evaluate, CallNamed, FALSY, Alone;
    var children := [condition, yes, no];
    ChildrenEvaluate(Call(n, children, at), children, variables, unicode);
    var values := Meanings(children, variables, unicode).value;
    assert children[0] == condition && children[1] == yes && children[2] == no;
    CallEvaluates(n, children, at, variables, unicode, values);
    assert values == [values[0], values[1], values[2]];
    IfChooses(n, values[0], values[1], values[2], at, unicode);
  }

  // -------------------------------------------------------------- keywords

  lemma LexOfWord(t: Text, at: Place)
    requires ValidWord(t)
    ensures Lex(t, at, 0) == Ok(Next(Token(IdentifierToken, t, at), End(Across(at, |t|))))
  {
    hide IsWordStart, IsWordChar, IsSpace, IsPunct, IsQuote, IsDigit;
    WordStartIsNoOther(t[0]);
    WordRunIsAll(t);
    assert t[..|t|] == t && t[|t|..] == [];
    assert CutToken(t, at) == Ok(Cut(Token(IdentifierToken, t, at), [], Across(at, |t|)));
  }

  lemma WordStartIsNoOther(c: Code)
    requires IsWordStart(c)
    ensures !IsSpace(c) && !IsPunct(c) && !IsQuote(c) && !IsDigit(c) && IsWordChar(c)
  {
  }

  lemma {:induction false} WordRunIsAll(t: Text)
    requires forall i | 0 <= i < |t| :: IsWordChar(t[i])
    ensures WordRun(t) == |t|
  {
    hide IsWordChar;
    if t != [] {
      WordRunIsAll(t[1..]);
    }
  }

  lemma ParseOfWord(t: Text, at: Place, end: Place)
    ensures AllGood(Next(Token(IdentifierToken, t, at), End(end)))
    ensures Parse(Next(Token(IdentifierToken, t, at), End(end)))
            == Ok(if Keyword(t).Some? then Literal(Keyword(t).value, at) else Variable(t, at))
  {
    hide Keyword;
  }

  lemma StripOfWord(t: Text)
    requires ValidWord(t)
    ensures Strip(t) != []
  {
    hide Strip, IsWordStart, IsWordChar, IsSpace;
    WordStartIsNoOther(t[0]);
    if Strip(t) == [] {
      StripOfBlank(t);
    }
  }

  /** THE KEYWORDS: a word is compiled to true, false or nothing exactly if it says so, in
      any case of its letters, and to a variable otherwise. */
  lemma WordCompiles(t: Text, at: Place)
    requires ValidWord(t) && |t| <= MAX_SOURCE_CHARACTERS
    ensures Compile(t, at)
            == Ok(if LowerAscii(t) == A("true") then Literal(BoolValue(true), at)
                  else if LowerAscii(t) == A("false") then Literal(BoolValue(false), at)
                  else if LowerAscii(t) == A("null") then Literal(NullValue, at)
                  else Variable(t, at))
  {
    KeywordLetters();
    hide Lex, Parse, Strip, ValidWord, A, LowerAscii, TRUE, FALSE, NULL;
    LexOfWord(t, at);
    ParseOfWord(t, at, Across(at, |t|));
    StripOfWord(t);
    var tree := Parse(Lex(t, at, 0).value).value;
    CallableIffNoFailure(tree);
  }

  lemma KeywordLetters()
    ensures TRUE == A("true") && FALSE == A("false") && NULL == A("null")
    ensures A("true") != A("false") && A("false") != A("null") && A("null") != A("true")
  {
    assert |A("true")| == 4 && |A("false")| == 5 && A("null")[0] == 'n' as int && A("true")[0] == 't' as int;
  }
}
