/**
 Compiling an expression: length and emptiness checks, tokenizing, parsing and the
 walk that checks every call against the table of safe functions.
 */
module ScriptCompiler {
  import opened Common
  import opened Texts
  import opened ScriptLexer
  import opened ScriptLayout
  import opened ScriptParser
  import opened ScriptPrinter

  const MAX_SOURCE_CHARACTERS := 32_768

  /** The safe functions; several have two names. */
  datatype SafeFunction =
    | Default | If | Equals | Contains | Replace | Slice | Pad | Lower | Upper | Title
    | First | Join | SortName | AsciiFold | PathSafe | Concat | Not | All | Any | IsEmpty

  function SafeFunctionNamed(name: Text): Option<SafeFunction> {
    var n := LowerAscii(name);
    if n == A("default") || n == A("fallback") then Some(Default)
    else if n == A("if") || n == A("conditional") then Some(If)
    else if n == A("equals") || n == A("eq") then Some(Equals)
    else if n == A("contains") then Some(Contains)
    else if n == A("replace") then Some(Replace)
    else if n == A("slice") then Some(Slice)
    else if n == A("pad") then Some(Pad)
    else if n == A("lower") then Some(Lower)
    else if n == A("upper") then Some(Upper)
    else if n == A("title") then Some(Title)
    else if n == A("first") then Some(First)
    else if n == A("join") then Some(Join)
    else if n == A("sortname") || n == A("sort_name") then Some(SortName)
    else if n == A("asciifold") || n == A("ascii_fold") then Some(AsciiFold)
    else if n == A("pathsafe") || n == A("path_safe") then Some(PathSafe)
    else if n == A("concat") then Some(Concat)
    else if n == A("not") then Some(Not)
    else if n == A("all") || n == A("and") then Some(All)
    else if n == A("any") || n == A("or") then Some(Any)
    else if n == A("is_empty") || n == A("empty") then Some(IsEmpty)
    else None
  }

  /** The fewest and the most arguments a function takes. */
  function Arity(f: SafeFunction): (nat, nat) {
    match f
    case Default => (1, MAX_LIST_VALUES)
    case If => (3, 3)
    case Equals => (2, 2)
    case Contains => (2, 2)
    case Replace => (3, 3)
    case Slice => (2, 3)
    case Pad => (2, 3)
    case Join => (1, 2)
    case PathSafe => (1, 2)
    case Concat => (1, MAX_LIST_VALUES)
    case All => (1, MAX_LIST_VALUES)
    case Any => (1, MAX_LIST_VALUES)
    case _ => (1, 1)
  }

  predicate TakesArguments(f: SafeFunction, count: nat) {
    Arity(f).0 <= count <= Arity(f).1
  }

  // ------------------------------------------------------------- checking calls

  /** All nodes of a tree, each before its children. */
  function Walk(e: Expression): (nodes: seq<Expression>)
    ensures nodes != [] && nodes[0] == e
    decreases e, 1
  {
    match e
    case Literal(_, _) => [e]
    case Variable(_, _) => [e]
    case List(children, _) => [e] + WalkList(children)
    case Call(_, children, _) => [e] + WalkList(children)
  }

  function WalkList(es: seq<Expression>): seq<Expression>
    decreases es, 0
  {
    if es == [] then [] else Walk(es[0]) + WalkList(es[1..])
  }

  function CheckCall(node: Expression): Option<Failure> {
    if !node.Call? then None
    else match SafeFunctionNamed(node.name)
      case None => Some(ScriptError(UnknownFunction, node.place))
      case Some(f) =>
        if TakesArguments(f, |node.children|) then None else Some(ScriptError(WrongArity, node.place))
  }

  /** Every call in the tree names a safe function and fits its arity. */
  predicate Callable(e: Expression)
    decreases e, 1
  {
    match e
    case Literal(_, _) => true
    case Variable(_, _) => true
    case List(children, _) => CallableList(children)
    case Call(name, children, _) =>
      && SafeFunctionNamed(name).Some?
      && TakesArguments(SafeFunctionNamed(name).value, |children|)
      && CallableList(children)
  }

  predicate CallableList(es: seq<Expression>)
    decreases es, 0
  {
    es == [] || (Callable(es[0]) && CallableList(es[1..]))
  }

  /** The failure of the first node that fails. */
  function FirstFailure(nodes: seq<Expression>): Option<Failure> {
    if nodes == [] then None
    else if CheckCall(nodes[0]).Some? then CheckCall(nodes[0])
    else FirstFailure(nodes[1..])
  }

  lemma {:induction false} FirstFailureConcat(a: seq<Expression>, b: seq<Expression>)
    ensures FirstFailure(a + b) == (if FirstFailure(a).Some? then FirstFailure(a) else FirstFailure(b))
  {
    hide CheckCall;
    if a == [] {
      assert a + b == b;
    } else {
      assert (a + b)[1..] == a[1..] + b;
      FirstFailureConcat(a[1..], b);
    }
  }

  /** The walk finds no failure exactly when all calls of the tree are legal. */
  lemma {:induction false} CallableIffNoFailure(e: Expression)
    ensures Callable(e) <==> FirstFailure(Walk(e)).None?
    decreases e, 1
  {
    hide SafeFunctionNamed, TakesArguments;
    match e
    case List(children, _) =>
      assert Walk(e)[1..] == WalkList(children);
      CallableListIffNoFailure(children);
    case Call(_, children, _) =>
      assert Walk(e)[1..] == WalkList(children);
      CallableListIffNoFailure(children);
    case Literal(_, _) =>
      assert Walk(e)[1..] == [];
    case Variable(_, _) =>
      assert Walk(e)[1..] == [];
  }

  lemma {:induction false} CallableListIffNoFailure(es: seq<Expression>)
    ensures CallableList(es) <==> FirstFailure(WalkList(es)).None?
    decreases es, 0
  {
    if es != [] {
      hide Callable, Walk, CheckCall;
      FirstFailureConcat(Walk(es[0]), WalkList(es[1..]));
      CallableIffNoFailure(es[0]);
      CallableListIffNoFailure(es[1..]);
    }
  }

  // ---------------------------------------------------------------- compiling

  /** What `compile_expression` yields. */
  function Compile(source: Text, at: Place): Outcome<Expression> {
    if |source| > MAX_SOURCE_CHARACTERS then Fail(SourceTooLong, at)
    else if Strip(source) == [] then Fail(SourceEmpty, at)
    else match Read(source, at)
      case Err(e) => Err(e)
      case Ok(tree) =>
        match FirstFailure(Walk(tree))
        case None => Ok(tree)
        case Some(failure) => Err(failure)
  }

  method CompileExpression(source: Text, at: Place) returns (r: Outcome<Expression>)
    ensures r == Compile(source, at)
  {
    hide Lex, Parse, Strip, Walk, CheckCall;
    if |source| > MAX_SOURCE_CHARACTERS {
      return Fail(SourceTooLong, at);
    }
    if Strip(source) == [] {
      return Fail(SourceEmpty, at);
    }
    var tokens := Tokenize(source, at);
    if tokens.Err? {
      return Err(tokens.error);
    }
    var parser := new ExpressionParser(tokens.value);
    var expression := parser.ParseAll();
    if expression.Err? {
      return expression;
    }
    var nodes := Walk(expression.value);
    assert nodes[0..] == nodes;
    for i := 0 to |nodes|
      invariant FirstFailure(nodes) == FirstFailure(nodes[i..])
    {
      assert nodes[i..][1..] == nodes[i + 1..];
      var failure := CheckCall(nodes[i]);
      if failure.Some? {
        return Err(failure.value);
      }
    }
    return expression;
  }

  // ------------------------------------------------ what a compiled tree promises

  function Nodes(e: Expression): (n: nat)
    ensures n >= 1
    decreases e, 1
  {
    match e
    case Literal(_, _) => 1
    case Variable(_, _) => 1
    case List(children, _) => 1 + NodesOfList(children)
    case Call(_, children, _) => 1 + NodesOfList(children)
  }

  function NodesOfList(es: seq<Expression>): nat
    decreases es, 0
  {
    if es == [] then 0 else Nodes(es[0]) + NodesOfList(es[1..])
  }

  /** Every node owns at least one token. */
  lemma {:induction false} NodesBounded(e: Expression, t: Tokens)
    requires Derive(e, t).Some?
    ensures Nodes(e) + Count(Derive(e, t).value) <= Count(t)
    decreases e, 2
  {
    hide Spells, Keyword;
    match e
    case List(children, _) => NodesOfClosedBounded(children, t.rest, CLOSE_BRACKET);
    case Call(_, children, _) => NodesOfClosedBounded(children, t.rest.rest, CLOSE_PAREN);
    case Literal(_, _) =>
    case Variable(_, _) =>
  }

  lemma {:induction false} NodesOfClosedBounded(es: seq<Expression>, t: Tokens, closing: Code)
    requires DeriveClosed(es, t, closing).Some?
    ensures NodesOfList(es) + Count(DeriveClosed(es, t, closing).value) <= Count(t)
    decreases es, 1
  {
    if es != [] {
      NodesOfListBounded(es, t, closing);
    }
  }

  lemma {:induction false} NodesOfListBounded(es: seq<Expression>, t: Tokens, closing: Code)
    requires es != [] && DeriveList(es, t, closing).Some?
    ensures NodesOfList(es) + Count(DeriveList(es, t, closing).value) <= Count(t)
    decreases es, 0
  {
    hide Derive, Nodes;
    NodesBounded(es[0], t);
    if |es| > 1 {
      NodesOfListBounded(es[1..], Derive(es[0], t).value.rest, closing);
    } else {
      assert es[1..] == [];
    }
  }

  /** A compiled tree is within the nesting and fan-out limits, its calls are safe,
      and it has at most 2048 nodes. */
  lemma CompiledTree(source: Text, at: Place)
    requires Compile(source, at).Ok?
    ensures var e := Compile(source, at).value;
            Fits(e, 1) && Callable(e) && Nodes(e) <= MAX_EXPRESSION_TOKENS
  {
    hide Lex, Parse, Derive, Fits, Callable, Nodes, Walk, CheckCall;
    var e := Compile(source, at).value;
    var tokens := Lex(source, at, 0).value;
    ParseIffDerived(tokens, e);
    NodesBounded(e, tokens);
    CallableIffNoFailure(e);
  }

  /** COMPILE ROUND TRIP. A tree within all limits, printed with any legal white
      space in at most 32768 characters, compiles to itself. */
  lemma CompileOfPrinted(e: Expression, quote: Code, layout: Layout, at: Place)
    requires IsQuote(quote) && Printable(e) && Fits(e, 1) && Callable(e)
    requires ValidLayout(layout) && Lexemes(layout) == Flatten(e, quote, Done)
    requires Length(Flatten(e, quote, Done)) <= MAX_EXPRESSION_TOKENS
    requires |Render(layout)| <= MAX_SOURCE_CHARACTERS
    ensures Compile(Render(layout), at).Ok?
    ensures Shape(Compile(Render(layout), at).value) == Shape(e)
  {
    hide Read, Fits, Callable, Shape, Flatten, Printable, FirstFailure, Walk;
    ReadOfPrinted(e, quote, layout, at);
    var built := Read(Render(layout), at).value;
    CallableShape(e);
    CallableShape(built);
    CallableIffNoFailure(built);
    BlankHasNoTree(Render(layout), at);
  }

  /** White space alone is no expression, so the emptiness check loses nothing. */
  lemma BlankHasNoTree(source: Text, at: Place)
    ensures Read(source, at).Ok? ==> Strip(source) != []
  {
    hide Lex;
    if Strip(source) == [] {
      StripOfBlank(source);
      LexOfGap(source, at, 0);
    }
  }

  lemma {:induction false} CallableShape(e: Expression)
    ensures Callable(e) == Callable(Shape(e))
    decreases e, 1
  {
    hide SafeFunctionNamed, TakesArguments;
    match e
    case List(children, _) => CallableShapes(children);
    case Call(_, children, _) => CallableShapes(children);
    case _ =>
  }

  lemma {:induction false} CallableShapes(es: seq<Expression>)
    ensures CallableList(es) == CallableList(Shapes(es))
    decreases es, 0
  {
    if es != [] {
      CallableShape(es[0]);
      CallableShapes(es[1..]);
      assert Shapes(es)[1..] == Shapes(es[1..]);
    }
  }
}
