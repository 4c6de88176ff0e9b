/**
 Evaluating compiled expressions against a budget.

 `Evaluate` specifies the evaluator with its budget; the class `EvaluationBudget`
 and the methods are the program's. `Meaning` is an independent definition that
 knows no budget. `EvaluateIffMeaning` connects the two exactly, and
 `CompiledExpressionsEvaluate` adds what compiling guarantees.
 */
module ScriptEvaluator {
  import opened Common
  import opened Texts
  import opened Sequences
  import opened ScriptLexer
  import opened ScriptParser
  import opened ScriptPrinter
  import opened ScriptCompiler

  const MAX_RUNTIME_STEPS := 10_000
  const MAX_VALUE_CHARACTERS := 8_192
  const MAX_TOTAL_OUTPUT_CHARACTERS := 65_536
  const MAX_PAD_WIDTH := 1_024

  /** The Unicode string functions of Python, which the evaluator only passes on. */
  datatype Unicode = Unicode(
    lower: Text -> Text,
    upper: Text -> Text,
    title: Text -> Text,
    casefold: Text -> Text,
    asciiFold: Text -> Text)

  type Variables = map<Text, Value>

  // ------------------------------------------------------------------- values

  function JoinTexts(items: seq<Text>, separator: Text): Text {
    if items == [] then []
    else if |items| == 1 then items[0]
    else items[0] + separator + JoinTexts(items[1..], separator)
  }

  /** `str(value)` for the script's values. */
  function TextOf(value: Value): Outcome<Text> {
    match value
    case NullValue => Ok([])
    case BoolValue(flag) => Ok(if flag then TRUE else FALSE)
    case ListValue(items) => Ok(JoinTexts(items, A("; ")))
    case TextValue(text) => Ok(text)
    case IntValue(n) =>
      var digits := DigitsOf(if n < 0 then -n else n);
      if |digits| > MAX_INTEGER_DIGITS then Err(DigitLimit)
      else Ok(if n < 0 then A("-") + digits else digits)
  }

  predicate IsEmptyValue(value: Value) {
    value == NullValue || value == TextValue([]) || value == ListValue([])
  }

  predicate Truthy(value: Value) {
    match value
    case NullValue => false
    case BoolValue(flag) => flag
    case IntValue(n) => n != 0
    case TextValue(text) => text != []
    case ListValue(items) => items != []
  }

  /** Python equality: booleans are the numbers 0 and 1. */
  predicate PythonEqual(a: Value, b: Value) {
    if Number(a).Some? && Number(b).Some? then Number(a) == Number(b) else a == b
  }

  function Number(value: Value): Option<int> {
    match value
    case BoolValue(flag) => Some(if flag then 1 else 0)
    case IntValue(n) => Some(n)
    case _ => None
  }

  /** The digits of a decimal numeral in which single underscores may stand between digits. */
  function NumeralDigits(t: Text): (r: Option<Text>)
    ensures r.Some? ==> r.value != [] && forall i | 0 <= i < |r.value| :: IsDigit(r.value[i])
  {
    if t == [] || !IsDigit(t[0]) then None
    else if |t| == 1 then Some(t)
    else
      match NumeralDigits(if t[1] == 95 then t[2..] else t[1..])
      case None => None
      case Some(rest) => Some([t[0]] + rest)
  }

  /** `int(text)`; None where Python raises `ValueError`. */
  function PythonInt(text: Text): Option<int> {
    var t := Strip(text);
    var signed := t != [] && (t[0] == 43 || t[0] == 45);
    match NumeralDigits(if signed then t[1..] else t)
    case None => None
    case Some(digits) =>
      if |digits| > MAX_INTEGER_DIGITS then None
      else Some(if signed && t[0] == 45 then -(Decimal(digits) as int) else Decimal(digits))
  }

  function IntegerOf(value: Value, at: Place): Outcome<int> {
    match value
    case IntValue(n) => Ok(n)
    case TextValue(text) =>
      (match PythonInt(text)
       case Some(n) => Ok(n)
       case None => Fail(IntegerRequired, at))
    case _ => Fail(IntegerRequired, at)
  }

  /** `s[start:end]` with Python's negative indices and clamping. */
  function PythonSlice<T>(s: seq<T>, start: int, end: Option<int>): seq<T> {
    var low := Clamp(start, |s|);
    var high := if end.None? then |s| else Clamp(end.value, |s|);
    if low <= high then s[low..high] else []
  }

  function Clamp(index: int, length: nat): (r: nat)
    ensures r <= length
  {
    if index < 0 then (if index + length < 0 then 0 else index + length)
    else if index > length then length
    else index
  }

  /** `text.replace(pattern, new)`, including the empty `pattern`, which matches everywhere. */
  function PythonReplace(text: Text, pattern: Text, substitute: Text): Text {
    if pattern != [] then ReplaceAll(text, pattern, substitute)
    else if text == [] then substitute
    else substitute + [text[0]] + PythonReplace(text[1..], pattern, substitute)
  }

  function Repeat(c: Code, count: int): (t: Text) {
    if count <= 0 then [] else [c] + Repeat(c, count - 1)
  }

  /** The characters that `path_safe` replaces. */
  predicate UnsafeInPath(c: Code) {
    || c == 60 || c == 62 || c == 58 || c == 34 || c == 47 || c == 92 || c == 124 || c == 63 || c == 42
    || 0 <= c <= 31 || c == 127
  }

  function SortName(text: Text, unicode: Unicode): Text {
    var t := Strip(text);
    if A("the ") <= unicode.casefold(t) then MoveArticle(t, 4)
    else if A("an ") <= unicode.casefold(t) then MoveArticle(t, 3)
    else if A("a ") <= unicode.casefold(t) then MoveArticle(t, 2)
    else t
  }

  function MoveArticle(t: Text, length: nat): Text {
    PythonSlice(t, length, None) + A(", ") + PythonSlice(t, 0, Some(length - 1))
  }

  function FirstNonEmpty(values: seq<Value>): Value {
    if values == [] then NullValue
    else if !IsEmptyValue(values[0]) then values[0]
    else FirstNonEmpty(values[1..])
  }

  function ConcatTexts(values: seq<Value>): Outcome<Text> {
    if values == [] then Ok([])
    else
      var first :- TextOf(values[0]);
      var rest :- ConcatTexts(values[1..]);
      Ok(first + rest)
  }

  // ---------------------------------------------------------------- functions

  /** The value of a safe function on evaluated arguments. */
  function Apply(f: SafeFunction, values: seq<Value>, at: Place, unicode: Unicode): Outcome<Value>
    requires TakesArguments(f, |values|)
  {
    match f
    case Default => Ok(FirstNonEmpty(values))
    case If => Ok(if Truthy(values[0]) then values[1] else values[2])
    case Equals => Ok(BoolValue(PythonEqual(values[0], values[1])))
    case Contains =>
      var needle :- TextOf(values[1]);
      if values[0].ListValue? then Ok(BoolValue(needle in values[0].items))
      else
        var container :- TextOf(values[0]);
        Ok(BoolValue(Occurs(needle, container)))
    case Replace =>
      var text :- TextOf(values[0]);
      var pattern :- TextOf(values[1]);
      var substitute :- TextOf(values[2]);
      Ok(TextValue(PythonReplace(text, pattern, substitute)))
    case Slice =>
      var start :- IntegerOf(values[1], at);
      var end :- if |values| == 3 then OptionalInteger(values[2], at) else Ok(None);
      if values[0].ListValue? then Ok(ListValue(PythonSlice(values[0].items, start, end)))
      else
        var text :- TextOf(values[0]);
        Ok(TextValue(PythonSlice(text, start, end)))
    case Pad =>
      var width :- IntegerOf(values[1], at);
      var fill :- if |values| == 3 then TextOf(values[2]) else Ok(A("0"));
      if width < 0 || width > MAX_PAD_WIDTH || |fill| != 1 then Fail(PadInvalid, at)
      else
        var text :- TextOf(values[0]);
        Ok(TextValue(Repeat(fill[0], width - |text|) + text))
    case Lower =>
      var text :- TextOf(values[0]);
      Ok(TextValue(unicode.lower(text)))
    case Upper =>
      var text :- TextOf(values[0]);
      Ok(TextValue(unicode.upper(text)))
    case Title =>
      var text :- TextOf(values[0]);
      Ok(TextValue(unicode.title(text)))
    case First =>
      Ok(if values[0].ListValue? && values[0].items != [] then TextValue(values[0].items[0]) else values[0])
    case Join =>
      var separator :- if |values| == 2 then TextOf(values[1]) else Ok(A("; "));
      if values[0].ListValue? then Ok(TextValue(JoinTexts(values[0].items, separator)))
      else
        var text :- TextOf(values[0]);
        Ok(TextValue(text))
    case SortName =>
      var text :- TextOf(values[0]);
      Ok(TextValue(SortName(text, unicode)))
    case AsciiFold =>
      var text :- TextOf(values[0]);
      Ok(TextValue(unicode.asciiFold(text)))
    case PathSafe =>
      var replacement :- if |values| == 2 then TextOf(values[1]) else Ok(A("_"));
      if |replacement| != 1 || replacement[0] == 47 || replacement[0] == 92 || replacement[0] == 0 then
        Fail(PathReplacementInvalid, at)
      else
        var text :- TextOf(values[0]);
        Ok(TextValue(seq(|text|, i requires 0 <= i < |text| =>
                           if UnsafeInPath(text[i]) then replacement[0] else text[i])))
    case Concat =>
      var text :- ConcatTexts(values);
      Ok(TextValue(text))
    case Not => Ok(BoolValue(!Truthy(values[0])))
    case All => Ok(BoolValue(forall i | 0 <= i < |values| :: Truthy(values[i])))
    case Any => Ok(BoolValue(exists i | 0 <= i < |values| :: Truthy(values[i])))
    case IsEmpty => Ok(BoolValue(IsEmptyValue(values[0])))
  }

  function OptionalInteger(value: Value, at: Place): Outcome<Option<int>> {
    var n :- IntegerOf(value, at);
    Ok(Some(n))
  }

  /** Calling by name: the checks that compiling has already made are repeated. */
  function CallNamed(name: Text, values: seq<Value>, at: Place, unicode: Unicode): Outcome<Value> {
    match SafeFunctionNamed(name)
    case None => Fail(UnknownFunction, at)
    case Some(f) =>
      if TakesArguments(f, |values|) then Apply(f, values, at, unicode) else Fail(WrongArity, at)
  }

  // ------------------------------------------------------------------- budget

  datatype Budget = Budget(steps: nat, output: nat)

  datatype Evaluated = Evaluated(value: Value, budget: Budget)
  datatype EvaluatedList = EvaluatedList(values: seq<Value>, budget: Budget)

  function TotalLength(items: seq<Text>): nat {
    if items == [] then 0 else |items[0]| + TotalLength(items[1..])
  }

  /** The output characters a value is charged. */
  function Size(value: Value): nat {
    match value
    case TextValue(text) => |text|
    case ListValue(items) => TotalLength(items)
    case _ => 0
  }

  predicate SafeText(text: Text) {
    forall i | 0 <= i < |text| :: text[i] != 0 && !(0xD800 <= text[i] <= 0xDFFF)
  }

  predicate AllSafe(value: Value) {
    match value
    case TextValue(text) => SafeText(text)
    case ListValue(items) => forall i | 0 <= i < |items| :: SafeText(items[i])
    case _ => true
  }

  /** The limits that every single value of an evaluation meets. */
  predicate Acceptable(value: Value) {
    && (value.ListValue? ==> |value.items| <= MAX_LIST_VALUES)
    && AllSafe(value)
    && Size(value) <= MAX_VALUE_CHARACTERS
  }

  function Consume(budget: Budget, at: Place): Outcome<Budget> {
    if budget.steps + 1 > MAX_RUNTIME_STEPS then Fail(StepLimit, at)
    else Ok(budget.(steps := budget.steps + 1))
  }

  function Account(budget: Budget, at: Place, value: Value): Outcome<Evaluated> {
    if value.ListValue? && |value.items| > MAX_LIST_VALUES then Fail(TooManyListValues, at)
    else if !AllSafe(value) then Fail(UnsafeText, at)
    else if Size(value) > MAX_VALUE_CHARACTERS then Fail(ValueTooLong, at)
    else if budget.output + Size(value) > MAX_TOTAL_OUTPUT_CHARACTERS then Fail(OutputLimit, at)
    else Ok(Evaluated(value, budget.(output := budget.output + Size(value))))
  }

  function Lookup(name: Text, variables: Variables): Value {
    if name in variables then variables[name] else NullValue
  }

  function TextsOf(values: seq<Value>): Outcome<seq<Text>> {
    if values == [] then Ok([])
    else
      var first :- TextOf(values[0]);
      var rest :- TextsOf(values[1..]);
      Ok([first] + rest)
  }

  // -------------------------------------------------- evaluating with a budget

  function Evaluate(e: Expression, variables: Variables, unicode: Unicode, budget: Budget): (r: Outcome<Evaluated>)
    decreases e, 1
  {
    var charged :- Consume(budget, e.place);
    match e
    case Literal(value, _) => Account(charged, e.place, value)
    case Variable(name, _) => Account(charged, e.place, Lookup(name, variables))
    case List(children, _) =>
      var texts :- EvaluateItems(children, variables, unicode, charged);
      Account(texts.1, e.place, ListValue(texts.0))
    case Call(name, children, _) =>
      var arguments :- EvaluateAll(children, variables, unicode, charged);
      var value :- CallNamed(name, arguments.values, e.place, unicode);
      Account(arguments.budget, e.place, value)
  }

  function EvaluateAll(es: seq<Expression>, variables: Variables, unicode: Unicode, budget: Budget)
    : (r: Outcome<EvaluatedList>)
    decreases es, 0
  {
    if es == [] then Ok(EvaluatedList([], budget))
    else
      var first :- Evaluate(es[0], variables, unicode, budget);
      var rest :- EvaluateAll(es[1..], variables, unicode, first.budget);
      Ok(EvaluatedList([first.value] + rest.values, rest.budget))
  }

  /** The items of a list node: each is turned into text as soon as it is evaluated. */
  function EvaluateItems(es: seq<Expression>, variables: Variables, unicode: Unicode, budget: Budget)
    : (r: Outcome<(seq<Text>, Budget)>)
    decreases es, 0
  {
    if es == [] then Ok(([], budget))
    else
      var first :- Evaluate(es[0], variables, unicode, budget);
      var text :- TextOf(first.value);
      var rest :- EvaluateItems(es[1..], variables, unicode, first.budget);
      Ok(([text] + rest.0, rest.1))
  }

  // ------------------------------------------------- meaning without a budget

  /** What an expression denotes, computed without any limit. */
  function Meaning(e: Expression, variables: Variables, unicode: Unicode): Outcome<Value>
    decreases e, 1
  {
    match e
    case Literal(value, _) => Ok(value)
    case Variable(name, _) => Ok(Lookup(name, variables))
    case List(children, _) =>
      var values :- Meanings(children, variables, unicode);
      var texts :- TextsOf(values);
      Ok(ListValue(texts))
    case Call(name, children, _) =>
      var values :- Meanings(children, variables, unicode);
      CallNamed(name, values, e.place, unicode)
  }

  function Meanings(es: seq<Expression>, variables: Variables, unicode: Unicode): Outcome<seq<Value>>
    decreases es, 0
  {
    if es == [] then Ok([])
    else
      var first :- Meaning(es[0], variables, unicode);
      var rest :- Meanings(es[1..], variables, unicode);
      Ok([first] + rest)
  }

  /** The value at every node of the tree exists and meets the limits. */
  predicate WithinLimits(e: Expression, variables: Variables, unicode: Unicode)
    decreases e, 1
  {
    && Meaning(e, variables, unicode).Ok?
    && Acceptable(Meaning(e, variables, unicode).value)
    && match e
       case List(children, _) => AllWithinLimits(children, variables, unicode)
       case Call(_, children, _) => AllWithinLimits(children, variables, unicode)
       case _ => true
  }

  predicate AllWithinLimits(es: seq<Expression>, variables: Variables, unicode: Unicode)
    decreases es, 0
  {
    es == [] || (WithinLimits(es[0], variables, unicode) && AllWithinLimits(es[1..], variables, unicode))
  }

  /** The characters of the values at all nodes of the tree. */
  function Output(e: Expression, variables: Variables, unicode: Unicode): nat
    requires WithinLimits(e, variables, unicode)
    decreases e, 1
  {
    Size(Meaning(e, variables, unicode).value)
    + match e
      case List(children, _) => OutputOfAll(children, variables, unicode)
      case Call(_, children, _) => OutputOfAll(children, variables, unicode)
      case _ => 0
  }

  function OutputOfAll(es: seq<Expression>, variables: Variables, unicode: Unicode): nat
    requires AllWithinLimits(es, variables, unicode)
    decreases es, 0
  {
    if es == [] then 0
    else Output(es[0], variables, unicode) + OutputOfAll(es[1..], variables, unicode)
  }

  // -------------------------------------------------------- budget and meaning

  /** The budget after evaluating a tree: one step for each node, and all output. */
  function Spent(e: Expression, variables: Variables, unicode: Unicode, budget: Budget): Budget
    requires WithinLimits(e, variables, unicode)
  {
    Budget(budget.steps + Nodes(e), budget.output + Output(e, variables, unicode))
  }

  predicate Affordable(budget: Budget) {
    budget.steps <= MAX_RUNTIME_STEPS && budget.output <= MAX_TOTAL_OUTPUT_CHARACTERS
  }

  function SpentOnAll(es: seq<Expression>, variables: Variables, unicode: Unicode, budget: Budget): Budget
    requires AllWithinLimits(es, variables, unicode)
  {
    Budget(budget.steps + NodesOfList(es), budget.output + OutputOfAll(es, variables, unicode))
  }

  lemma AccountIffAcceptable(budget: Budget, at: Place, value: Value)
    ensures Account(budget, at, value).Ok?
            <==> Acceptable(value) && budget.output + Size(value) <= MAX_TOTAL_OUTPUT_CHARACTERS
    ensures Account(budget, at, value).Ok? ==>
              Account(budget, at, value).value
              == Evaluated(value, budget.(output := budget.output + Size(value)))
  {
  }

  lemma {:induction false} MeaningsExist(es: seq<Expression>, variables: Variables, unicode: Unicode)
    requires AllWithinLimits(es, variables, unicode)
    ensures Meanings(es, variables, unicode).Ok?
  {
    if es != [] {
      MeaningsExist(es[1..], variables, unicode);
    }
  }

  /** Evaluation succeeds exactly when every node has an acceptable value and the
      budget covers one step a node and all their characters; it then yields the
      meaning and has spent exactly that. */
  lemma {:induction false} EvaluateIffMeaning(
    e: Expression, variables: Variables, unicode: Unicode, budget: Budget)
    requires Affordable(budget)
    ensures Evaluate(e, variables, unicode, budget).Ok?
            <==> WithinLimits(e, variables, unicode) && Affordable(Spent(e, variables, unicode, budget))
    ensures Evaluate(e, variables, unicode, budget).Ok? ==>
              Evaluate(e, variables, unicode, budget).value
              == Evaluated(Meaning(e, variables, unicode).value, Spent(e, variables, unicode, budget))
    decreases e, 1
  {
    hide CallNamed, TextOf, Acceptable, Size, Account;
    if budget.steps < MAX_RUNTIME_STEPS {
      var charged := budget.(steps := budget.steps + 1);
      match e
      case Literal(value, _) =>
        AccountIffAcceptable(charged, e.place, value);
      case Variable(name, _) =>
        AccountIffAcceptable(charged, e.place, Lookup(name, variables));
      case List(children, _) =>
        ItemsIffMeanings(children, variables, unicode, charged);
        var items := EvaluateItems(children, variables, unicode, charged);
        if items.Ok? {
          AccountIffAcceptable(items.value.1, e.place, ListValue(items.value.0));
        }
      case Call(name, children, _) =>
        AllIffMeanings(children, variables, unicode, charged);
        var arguments := EvaluateAll(children, variables, unicode, charged);
        if arguments.Ok? {
          var value := CallNamed(name, arguments.value.values, e.place, unicode);
          if value.Ok? {
            AccountIffAcceptable(arguments.value.budget, e.place, value.value);
          }
        }
    }
  }

  lemma {:induction false} AllIffMeanings(
    es: seq<Expression>, variables: Variables, unicode: Unicode, budget: Budget)
    requires Affordable(budget)
    ensures EvaluateAll(es, variables, unicode, budget).Ok?
            <==> AllWithinLimits(es, variables, unicode)
                 && Affordable(SpentOnAll(es, variables, unicode, budget))
    ensures AllWithinLimits(es, variables, unicode) ==> Meanings(es, variables, unicode).Ok?
    ensures EvaluateAll(es, variables, unicode, budget).Ok? ==>
              EvaluateAll(es, variables, unicode, budget).value
              == EvaluatedList(Meanings(es, variables, unicode).value,
                               SpentOnAll(es, variables, unicode, budget))
    decreases es, 0
  {
    hide Evaluate, WithinLimits, Meaning, Output, Nodes;
    if es != [] {
      EvaluateIffMeaning(es[0], variables, unicode, budget);
      var first := Evaluate(es[0], variables, unicode, budget);
      if AllWithinLimits(es, variables, unicode) {
        MeaningsExist(es, variables, unicode);
      }
      if first.Ok? {
        AllIffMeanings(es[1..], variables, unicode, first.value.budget);
      }
    }
  }

  lemma {:induction false} ItemsIffMeanings(
    es: seq<Expression>, variables: Variables, unicode: Unicode, budget: Budget)
    requires Affordable(budget)
    ensures AllWithinLimits(es, variables, unicode) ==> Meanings(es, variables, unicode).Ok?
    ensures EvaluateItems(es, variables, unicode, budget).Ok?
            <==> AllWithinLimits(es, variables, unicode)
                 && TextsOf(Meanings(es, variables, unicode).value).Ok?
                 && Affordable(SpentOnAll(es, variables, unicode, budget))
    ensures EvaluateItems(es, variables, unicode, budget).Ok? ==>
              EvaluateItems(es, variables, unicode, budget).value
              == (TextsOf(Meanings(es, variables, unicode).value).value,
                  SpentOnAll(es, variables, unicode, budget))
    decreases es, 0
  {
    hide Evaluate, WithinLimits, Meaning, Output, Nodes, TextOf;
    if es != [] {
      EvaluateIffMeaning(es[0], variables, unicode, budget);
      var first := Evaluate(es[0], variables, unicode, budget);
      if AllWithinLimits(es, variables, unicode) {
        MeaningsExist(es, variables, unicode);
        var values := Meanings(es, variables, unicode).value;
        assert values[1..] == Meanings(es[1..], variables, unicode).value;
      }
      if first.Ok? {
        ItemsIffMeanings(es[1..], variables, unicode, first.value.budget);
      }
    }
  }

  // --------------------------------------------------- what cannot go wrong

  /** The failures left to evaluation: never a step limit, an unknown function or a
      wrong number of arguments. */
  predicate PossibleAtRunTime(failure: Failure) {
    match failure
    case DigitLimit => true
    case ScriptError(problem, _) =>
      problem in {TooManyListValues, UnsafeText, ValueTooLong, OutputLimit,
                  IntegerRequired, PadInvalid, PathReplacementInvalid}
  }

  lemma CallFailures(name: Text, values: seq<Value>, at: Place, unicode: Unicode)
    requires SafeFunctionNamed(name).Some? && TakesArguments(SafeFunctionNamed(name).value, |values|)
    ensures CallNamed(name, values, at, unicode).Err? ==>
              PossibleAtRunTime(CallNamed(name, values, at, unicode).error)
  {
    hide SafeFunctionNamed, JoinTexts, PythonReplace, PythonSlice, Occurs, PythonInt, SortName, DigitsOf;
    ConcatFailures(values);
  }

  lemma {:induction false} ConcatFailures(values: seq<Value>)
    ensures ConcatTexts(values).Err? ==> ConcatTexts(values).error == DigitLimit
  {
    if values != [] {
      ConcatFailures(values[1..]);
    }
  }

  lemma {:induction false} EvaluateFailures(
    e: Expression, variables: Variables, unicode: Unicode, budget: Budget)
    requires Callable(e) && Affordable(budget) && budget.steps + Nodes(e) <= MAX_RUNTIME_STEPS
    ensures Evaluate(e, variables, unicode, budget).Err? ==>
              PossibleAtRunTime(Evaluate(e, variables, unicode, budget).error)
    decreases e, 1
  {
    hide CallNamed, SafeFunctionNamed, TextOf, AllSafe, Size;
    var charged := budget.(steps := budget.steps + 1);
    match e
    case List(children, _) =>
      ItemsFailures(children, variables, unicode, charged);
    case Call(name, children, _) =>
      AllFailures(children, variables, unicode, charged);
      var arguments := EvaluateAll(children, variables, unicode, charged);
      if arguments.Ok? {
        CallFailures(name, arguments.value.values, e.place, unicode);
      }
    case Literal(_, _) =>
    case Variable(_, _) =>
  }

  lemma {:induction false} AllFailures(
    es: seq<Expression>, variables: Variables, unicode: Unicode, budget: Budget)
    requires CallableList(es) && Affordable(budget) && budget.steps + NodesOfList(es) <= MAX_RUNTIME_STEPS
    ensures match EvaluateAll(es, variables, unicode, budget)
            case Err(error) => PossibleAtRunTime(error)
            case Ok(r) => |r.values| == |es|
    decreases es, 0
  {
    hide Evaluate, Callable, Nodes, WithinLimits, Output, Meaning;
    if es != [] {
      EvaluateFailures(es[0], variables, unicode, budget);
      EvaluateIffMeaning(es[0], variables, unicode, budget);
      var first := Evaluate(es[0], variables, unicode, budget);
      if first.Ok? {
        AllFailures(es[1..], variables, unicode, first.value.budget);
      }
    }
  }

  lemma {:induction false} ItemsFailures(
    es: seq<Expression>, variables: Variables, unicode: Unicode, budget: Budget)
    requires CallableList(es) && Affordable(budget) && budget.steps + NodesOfList(es) <= MAX_RUNTIME_STEPS
    ensures EvaluateItems(es, variables, unicode, budget).Err? ==>
              PossibleAtRunTime(EvaluateItems(es, variables, unicode, budget).error)
    decreases es, 0
  {
    hide Evaluate, Callable, Nodes, WithinLimits, Output, Meaning;
    if es != [] {
      EvaluateFailures(es[0], variables, unicode, budget);
      EvaluateIffMeaning(es[0], variables, unicode, budget);
      var first := Evaluate(es[0], variables, unicode, budget);
      if first.Ok? {
        ItemsFailures(es[1..], variables, unicode, first.value.budget);
      }
    }
  }

  /** END TO END. A compiled expression, evaluated from a fresh budget, succeeds
      exactly when every node has an acceptable value and all of them together stay
      within the output limit. It then yields its meaning, having taken one step a
      node and at most 2048. The step limit, unknown functions and wrong arities
      are out of reach. */
  lemma CompiledExpressionsEvaluate(source: Text, at: Place, variables: Variables, unicode: Unicode)
    requires Compile(source, at).Ok?
    ensures var e := Compile(source, at).value;
            var r := Evaluate(e, variables, unicode, Budget(0, 0));
            && (r.Ok? <==> WithinLimits(e, variables, unicode)
                           && Output(e, variables, unicode) <= MAX_TOTAL_OUTPUT_CHARACTERS)
            && (r.Ok? ==> r.value.value == Meaning(e, variables, unicode).value
                          && r.value.budget.steps == Nodes(e) <= MAX_EXPRESSION_TOKENS)
            && (r.Err? ==> PossibleAtRunTime(r.error))
  {
    hide Compile, Evaluate, WithinLimits, Output, Meaning, Nodes, Callable, Fits;
    var e := Compile(source, at).value;
    CompiledTree(source, at);
    EvaluateIffMeaning(e, variables, unicode, Budget(0, 0));
    EvaluateFailures(e, variables, unicode, Budget(0, 0));
  }

  // ----------------------------------------------------- the program's evaluator

  class EvaluationBudget {
    var steps: nat
    var outputCharacters: nat

    function State(): Budget
      reads this
    {
      Budget(steps, outputCharacters)
    }

    constructor ()
      ensures State() == Budget(0, 0)
    {
      steps, outputCharacters := 0, 0;
    }

    method ConsumeStep(at: Place) returns (failure: Option<Failure>)
      modifies this
      ensures match Consume(old(State()), at)
              case Err(error) => failure == Some(error)
              case Ok(budget) => failure == None && State() == budget
    {
      steps := steps + 1;
      if steps > MAX_RUNTIME_STEPS {
        return Some(ScriptError(StepLimit, at));
      }
      return None;
    }

    method AccountFor(at: Place, value: Value) returns (r: Outcome<Value>)
      modifies this
      ensures match Account(old(State()), at, value)
              case Err(error) => r == Err(error)
              case Ok(evaluated) => r == Ok(evaluated.value) && State() == evaluated.budget
    {
      if value.ListValue? && |value.items| > MAX_LIST_VALUES {
        return Fail(TooManyListValues, at);
      }
      if !AllSafe(value) {
        return Fail(UnsafeText, at);
      }
      if Size(value) > MAX_VALUE_CHARACTERS {
        return Fail(ValueTooLong, at);
      }
      outputCharacters := outputCharacters + Size(value);
      if outputCharacters > MAX_TOTAL_OUTPUT_CHARACTERS {
        return Fail(OutputLimit, at);
      }
      return Ok(value);
    }
  }

  lemma AllStep(es: seq<Expression>, i: nat, variables: Variables, unicode: Unicode, budget: Budget)
    requires i < |es|
    ensures EvaluateAll(es[i..], variables, unicode, budget)
            == match Evaluate(es[i], variables, unicode, budget)
               case Err(error) => Err(error)
               case Ok(first) =>
                 AfterAll([first.value], EvaluateAll(es[i + 1..], variables, unicode, first.budget))
  {
    hide Evaluate;
    assert es[i..][1..] == es[i + 1..];
  }

  lemma ItemsStep(es: seq<Expression>, i: nat, variables: Variables, unicode: Unicode, budget: Budget)
    requires i < |es|
    ensures EvaluateItems(es[i..], variables, unicode, budget)
            == match Evaluate(es[i], variables, unicode, budget)
               case Err(error) => Err(error)
               case Ok(first) =>
                 match TextOf(first.value)
                 case Err(error) => Err(error)
                 case Ok(text) =>
                   AfterItems([text], EvaluateItems(es[i + 1..], variables, unicode, first.budget))
  {
    hide Evaluate, TextOf;
    assert es[i..][1..] == es[i + 1..];
  }

  function AfterAll(values: seq<Value>, r: Outcome<EvaluatedList>): Outcome<EvaluatedList> {
    var rest :- r;
    Ok(EvaluatedList(values + rest.values, rest.budget))
  }

  function AfterItems(texts: seq<Text>, r: Outcome<(seq<Text>, Budget)>): Outcome<(seq<Text>, Budget)> {
    var rest :- r;
    Ok((texts + rest.0, rest.1))
  }

  lemma AfterAllChain(a: seq<Value>, b: seq<Value>, r: Outcome<EvaluatedList>)
    ensures AfterAll(a, AfterAll(b, r)) == AfterAll(a + b, r) && AfterAll([], r) == r
  {
    if r.Ok? {
      assert a + (b + r.value.values) == a + b + r.value.values;
      assert [] + r.value.values == r.value.values;
    }
  }

  lemma AfterItemsChain(a: seq<Text>, b: seq<Text>, r: Outcome<(seq<Text>, Budget)>)
    ensures AfterItems(a, AfterItems(b, r)) == AfterItems(a + b, r) && AfterItems([], r) == r
  {
    if r.Ok? {
      assert a + (b + r.value.0) == a + b + r.value.0;
      assert [] + r.value.0 == r.value.0;
    }
  }

  lemma NoMore(es: seq<Expression>, values: seq<Value>, texts: seq<Text>,
               variables: Variables, unicode: Unicode, budget: Budget)
    ensures AfterAll(values, EvaluateAll(es[|es|..], variables, unicode, budget)) == Ok(EvaluatedList(values, budget))
    ensures AfterItems(texts, EvaluateItems(es[|es|..], variables, unicode, budget)) == Ok((texts, budget))
  {
    assert es[|es|..] == [] && values + [] == values && texts + [] == texts;
  }

  method EvaluateExpression(
    e: Expression, variables: Variables, unicode: Unicode, budget: EvaluationBudget)
    returns (r: Outcome<Value>)
    modifies budget
    ensures match Evaluate(e, variables, unicode, old(budget.State()))
            case Err(error) => r == Err(error)
            case Ok(evaluated) => r == Ok(evaluated.value) && budget.State() == evaluated.budget
    decreases e, 1
  {
    hide CallNamed, Account, TextOf;
    var failure := budget.ConsumeStep(e.place);
    if failure.Some? {
      return Err(failure.value);
    }
    match e
    case Literal(value, _) =>
      r := budget.AccountFor(e.place, value);
    case Variable(name, _) =>
      r := budget.AccountFor(e.place, Lookup(name, variables));
    case List(children, _) =>
      var texts := EvaluateChildTexts(children, variables, unicode, budget);
      if texts.Err? {
        return Err(texts.error);
      }
      r := budget.AccountFor(e.place, ListValue(texts.value));
    case Call(name, children, _) =>
      var values := EvaluateChildren(children, variables, unicode, budget);
      if values.Err? {
        return Err(values.error);
      }
      var value := CallNamed(name, values.value, e.place, unicode);
      if value.Err? {
        return value;
      }
      r := budget.AccountFor(e.place, value.value);
  }

  method EvaluateChildren(
    es: seq<Expression>, variables: Variables, unicode: Unicode, budget: EvaluationBudget)
    returns (r: Outcome<seq<Value>>)
    modifies budget
    ensures match EvaluateAll(es, variables, unicode, old(budget.State()))
            case Err(error) => r == Err(error)
            case Ok(evaluated) => r == Ok(evaluated.values) && budget.State() == evaluated.budget
    decreases es, 0
  {
    hide Evaluate, EvaluateAll;
    ghost var spec := EvaluateAll(es, variables, unicode, budget.State());
    var values: seq<Value> := [];
    assert es[0..] == es;
    AfterAllChain([], [], spec);
    for i := 0 to |es|
      invariant spec == AfterAll(values, EvaluateAll(es[i..], variables, unicode, budget.State()))
    {
      AllStep(es, i, variables, unicode, budget.State());
      var value := EvaluateExpression(es[i], variables, unicode, budget);
      if value.Err? {
        return Err(value.error);
      }
      AfterAllChain(values, [value.value], EvaluateAll(es[i + 1..], variables, unicode, budget.State()));
      values := values + [value.value];
    }
    NoMore(es, values, [], variables, unicode, budget.State());
    return Ok(values);
  }

  method EvaluateChildTexts(
    es: seq<Expression>, variables: Variables, unicode: Unicode, budget: EvaluationBudget)
    returns (r: Outcome<seq<Text>>)
    modifies budget
    ensures match EvaluateItems(es, variables, unicode, old(budget.State()))
            case Err(error) => r == Err(error)
            case Ok(evaluated) => r == Ok(evaluated.0) && budget.State() == evaluated.1
    decreases es, 0
  {
    hide Evaluate, TextOf, EvaluateItems;
    ghost var spec := EvaluateItems(es, variables, unicode, budget.State());
    var texts: seq<Text> := [];
    assert es[0..] == es;
    AfterItemsChain([], [], spec);
    for i := 0 to |es|
      invariant spec == AfterItems(texts, EvaluateItems(es[i..], variables, unicode, budget.State()))
    {
      ItemsStep(es, i, variables, unicode, budget.State());
      var value := EvaluateExpression(es[i], variables, unicode, budget);
      if value.Err? {
        return Err(value.error);
      }
      var text := TextOf(value.value);
      if text.Err? {
        return Err(text.error);
      }
      AfterItemsChain(texts, [text.value], EvaluateItems(es[i + 1..], variables, unicode, budget.State()));
      texts := texts + [text.value];
    }
    NoMore(es, [], texts, variables, unicode, budget.State());
    return Ok(texts);
  }
}
