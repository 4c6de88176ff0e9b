/**
 What the starting place means for a compiled expression.

 The compiler is told where an expression begins and counts from there. `CompileMoves`
 says that this is all the place is good for: started elsewhere, it accepts the same
 sources, with the same trees and the same failures, and every place in them is moved
 along with the start.
 */
module ScriptPlaces {
  import opened Common
  import opened Texts
  import opened ScriptLexer
  import opened ScriptParser
  import opened ScriptPrinter
  import opened ScriptCompiler

  // ------------------------------------------------------------- moving places

  /** Where `p` goes when the start moves from `a` to `b`: only places on the line of the
      start change their column. */
  function Move(p: Place, a: Place, b: Place): Place {
    Place(p.line - a.line + b.line, if p.line == a.line then p.column - a.column + b.column else p.column)
  }

  function MoveFailure(e: Failure, a: Place, b: Place): Failure {
    match e
    case ScriptError(problem, place) => ScriptError(problem, Move(place, a, b))
    case DigitLimit => DigitLimit
  }

  function MoveTree(e: Expression, a: Place, b: Place): Expression
    decreases e, 1
  {
    match e
    case Literal(value, place) => Literal(value, Move(place, a, b))
    case Variable(name, place) => Variable(name, Move(place, a, b))
    case List(children, place) => List(MoveTrees(children, a, b), Move(place, a, b))
    case Call(name, children, place) => Call(name, MoveTrees(children, a, b), Move(place, a, b))
  }

  function MoveTrees(es: seq<Expression>, a: Place, b: Place): (r: seq<Expression>)
    ensures |r| == |es|
    decreases es, 0
  {
    if es == [] then [] else [MoveTree(es[0], a, b)] + MoveTrees(es[1..], a, b)
  }

  /** What compiling yields, moved. */
  function Moved(r: Outcome<Expression>, a: Place, b: Place): Outcome<Expression> {
    match r
    case Ok(tree) => Ok(MoveTree(tree, a, b))
    case Err(e) => Err(MoveFailure(e, a, b))
  }

  // ------------------------------------------------------------------- tokens

  function MoveDecoded(r: Outcome<Decoded>, a: Place, b: Place): Outcome<Decoded> {
    match r
    case Ok(d) => Ok(d.(place := Move(d.place, a, b)))
    case Err(e) => Err(MoveFailure(e, a, b))
  }

  function MoveToken(token: Token, a: Place, b: Place): Token {
    token.(place := Move(token.place, a, b))
  }

  function MoveCut(r: Outcome<Cut>, a: Place, b: Place): Outcome<Cut> {
    match r
    case Ok(cut) => Ok(Cut(MoveToken(cut.token, a, b), cut.rest, Move(cut.place, a, b)))
    case Err(e) => Err(MoveFailure(e, a, b))
  }

  function MoveTokens(t: Tokens, a: Place, b: Place): Tokens {
    match t
    case End(place) => End(Move(place, a, b))
    case Next(token, rest) => Next(MoveToken(token, a, b), MoveTokens(rest, a, b))
  }

  function MoveLexed(r: Outcome<Tokens>, a: Place, b: Place): Outcome<Tokens> {
    match r
    case Ok(t) => Ok(MoveTokens(t, a, b))
    case Err(e) => Err(MoveFailure(e, a, b))
  }

  lemma MoveAcross(p: Place, n: int, a: Place, b: Place)
    ensures Move(Across(p, n), a, b) == Across(Move(p, a, b), n)
  {
  }

  lemma {:induction false} DecodeMoves(t: Text, quote: Code, at: Place, open: Place, a: Place, b: Place)
    ensures DecodeRest(t, quote, Move(at, a, b), Move(open, a, b)) == MoveDecoded(DecodeRest(t, quote, at, open), a, b)
    decreases |t|
  {
    hide Move;
    MoveAcross(at, 1, a, b);
    MoveAcross(at, 2, a, b);
    MoveAcross(at, 6, a, b);
    if t != [] {
      DecodeMoves(t[1..], quote, Across(at, 1), open, a, b);
    }
    if |t| > 1 {
      DecodeMoves(t[2..], quote, Across(at, 2), open, a, b);
    }
    if |t| > 5 {
      DecodeMoves(t[6..], quote, Across(at, 6), open, a, b);
    }
  }

  lemma CutMoves(t: Text, at: Place, a: Place, b: Place)
    requires t != [] && !IsSpace(t[0])
    ensures CutToken(t, Move(at, a, b)) == MoveCut(CutToken(t, at), a, b)
  {
    hide Move, DecodeRest, DigitRun, WordRun;
    MoveAcross(at, 1, a, b);
    MoveAcross(at, DigitRun(t), a, b);
    MoveAcross(at, WordRun(t), a, b);
    DecodeMoves(t[1..], t[0], Across(at, 1), at, a, b);
  }

  lemma {:induction false} DecodeStaysOnLine(t: Text, quote: Code, at: Place, open: Place)
    ensures var r := DecodeRest(t, quote, at, open); r.Ok? ==> r.value.place.line == at.line
    decreases |t|
  {
    if t != [] {
      DecodeStaysOnLine(t[1..], quote, Across(at, 1), open);
    }
    if |t| > 1 {
      DecodeStaysOnLine(t[2..], quote, Across(at, 2), open);
    }
    if |t| > 5 {
      DecodeStaysOnLine(t[6..], quote, Across(at, 6), open);
    }
  }

  lemma CutStaysOnLine(t: Text, at: Place)
    requires t != [] && !IsSpace(t[0])
    ensures var r := CutToken(t, at); r.Ok? ==> r.value.place.line == at.line
  {
    hide DecodeRest, DigitRun, WordRun;
    DecodeStaysOnLine(t[1..], t[0], Across(at, 1), at);
  }

  lemma LocateOne(c: Code, at: Place)
    ensures Locate([c], at) == if c == NEWLINE then Place(at.line + 1, 1) else Across(at, 1)
  {
    assert [c][..0] == [];
  }

  lemma {:induction false} LexMoves(t: Text, at: Place, count: nat, a: Place, b: Place)
    requires at.line >= a.line
    ensures Lex(t, Move(at, a, b), count) == MoveLexed(Lex(t, at, count), a, b)
    decreases |t|
  {
    hide CutToken;
    if t != [] {
      if IsSpace(t[0]) {
        assert t[..1] == [t[0]];
        LocateOne(t[0], at);
        LocateOne(t[0], Move(at, a, b));
        LexMoves(t[1..], Locate(t[..1], at), count, a, b);
      } else {
        CutMoves(t, at, a, b);
        CutStaysOnLine(t, at);
        var cut := CutToken(t, at);
        if cut.Ok? {
          LexMoves(cut.value.rest, cut.value.place, count + 1, a, b);
        }
      }
    }
  }

  // -------------------------------------------------------------------- trees

  function MoveParsed(r: Outcome<Parsed>, a: Place, b: Place): Outcome<Parsed> {
    match r
    case Ok(p) => Ok(Parsed(MoveTree(p.tree, a, b), MoveTokens(p.rest, a, b)))
    case Err(e) => Err(MoveFailure(e, a, b))
  }

  function MoveList(r: Outcome<ParsedList>, a: Place, b: Place): Outcome<ParsedList> {
    match r
    case Ok(p) => Ok(ParsedList(MoveTrees(p.trees, a, b), MoveTokens(p.rest, a, b)))
    case Err(e) => Err(MoveFailure(e, a, b))
  }

  lemma {:induction false} GoodMoves(t: Tokens, a: Place, b: Place)
    requires AllGood(t)
    ensures AllGood(MoveTokens(t, a, b))
  {
    if t.Next? {
      GoodMoves(t.rest, a, b);
    }
  }

  lemma {:induction false} PrimaryMoves(t: Tokens, depth: nat, a: Place, b: Place)
    requires AllGood(t) && AllGood(MoveTokens(t, a, b))
    ensures Primary(MoveTokens(t, a, b), depth) == MoveParsed(Primary(t, depth), a, b)
    decreases t, 0
  {
    hide Move, Keyword, Decimal;
    if depth <= MAX_EXPRESSION_DEPTH && t.Next? {
      GoodMoves(t.rest, a, b);
      match t.token.kind
      case Punct(code) =>
        ArgumentsMove(t.rest, CLOSE_BRACKET, depth, a, b);
      case IdentifierToken =>
        if Before(t.rest, OPEN_PAREN) {
          GoodMoves(t.rest.rest, a, b);
          ArgumentsMove(t.rest.rest, CLOSE_PAREN, depth, a, b);
        }
      case _ =>
    }
  }

  lemma {:induction false} ArgumentsMove(t: Tokens, closing: Code, depth: nat, a: Place, b: Place)
    requires AllGood(t) && AllGood(MoveTokens(t, a, b))
    ensures Arguments(MoveTokens(t, a, b), closing, depth) == MoveList(Arguments(t, closing, depth), a, b)
    decreases t, 2
  {
    hide Move;
    if !Before(t, closing) {
      ArgumentListMoves(t, closing, depth, 0, a, b);
    }
  }

  lemma {:induction false} ArgumentListMoves(t: Tokens, closing: Code, depth: nat, count: nat, a: Place, b: Place)
    requires AllGood(t) && AllGood(MoveTokens(t, a, b))
    ensures ArgumentList(MoveTokens(t, a, b), closing, depth, count)
            == MoveList(ArgumentList(t, closing, depth, count), a, b)
    decreases t, 1
  {
    hide Move, Primary, MoveTree;
    PrimaryMoves(t, depth + 1, a, b);
    var first := Primary(t, depth + 1);
    if first.Ok? {
      var tree, rest := first.value.tree, first.value.rest;
      GoodMoves(rest, a, b);
      assert MoveTrees([tree], a, b) == [MoveTree(tree, a, b)];
      if Before(rest, COMMA) {
        GoodMoves(rest.rest, a, b);
        ArgumentListMoves(rest.rest, closing, depth, count + 1, a, b);
        PrependMoves(tree, ArgumentList(rest.rest, closing, depth, count + 1), a, b);
      }
    }
  }

  lemma PrependMoves(tree: Expression, r: Outcome<ParsedList>, a: Place, b: Place)
    ensures MoveList(PrependTrees([tree], r), a, b) == PrependTrees([MoveTree(tree, a, b)], MoveList(r, a, b))
  {
    if r.Ok? {
      assert ([tree] + r.value.trees)[1..] == r.value.trees;
    }
  }

  lemma ParseMoves(t: Tokens, a: Place, b: Place)
    requires AllGood(t) && AllGood(MoveTokens(t, a, b))
    ensures Parse(MoveTokens(t, a, b)) == Moved(Parse(t), a, b)
  {
    hide Primary, Move, MoveTree;
    PrimaryMoves(t, 1, a, b);
  }

  // -------------------------------------------------------------------- calls

  lemma {:induction false} MoveConcat(x: seq<Expression>, y: seq<Expression>, a: Place, b: Place)
    ensures MoveTrees(x + y, a, b) == MoveTrees(x, a, b) + MoveTrees(y, a, b)
  {
    hide MoveTree;
    if x == [] {
      assert x + y == y;
    } else {
      assert (x + y)[1..] == x[1..] + y;
      MoveConcat(x[1..], y, a, b);
    }
  }

  lemma {:induction false} WalkMoves(e: Expression, a: Place, b: Place)
    ensures Walk(MoveTree(e, a, b)) == MoveTrees(Walk(e), a, b)
    decreases e, 1
  {
    hide Move;
    match e
    case List(children, _) =>
      WalkListMoves(children, a, b);
      MoveConcat([e], WalkList(children), a, b);
      assert MoveTrees([e], a, b) == [MoveTree(e, a, b)];
    case Call(_, children, _) =>
      WalkListMoves(children, a, b);
      MoveConcat([e], WalkList(children), a, b);
      assert MoveTrees([e], a, b) == [MoveTree(e, a, b)];
    case _ =>
      assert MoveTrees([e], a, b) == [MoveTree(e, a, b)];
  }

  lemma {:induction false} WalkListMoves(es: seq<Expression>, a: Place, b: Place)
    ensures WalkList(MoveTrees(es, a, b)) == MoveTrees(WalkList(es), a, b)
    decreases es, 0
  {
    if es != [] {
      hide Walk, MoveTree;
      WalkMoves(es[0], a, b);
      WalkListMoves(es[1..], a, b);
      MoveConcat(Walk(es[0]), WalkList(es[1..]), a, b);
    }
  }

  function MoveFound(r: Option<Failure>, a: Place, b: Place): Option<Failure> {
    match r
    case None => None
    case Some(e) => Some(MoveFailure(e, a, b))
  }

  lemma CheckMoves(node: Expression, a: Place, b: Place)
    ensures CheckCall(MoveTree(node, a, b)) == MoveFound(CheckCall(node), a, b)
  {
    hide Move, SafeFunctionNamed, TakesArguments;
  }

  lemma {:induction false} FirstFailureMoves(nodes: seq<Expression>, a: Place, b: Place)
    ensures FirstFailure(MoveTrees(nodes, a, b)) == MoveFound(FirstFailure(nodes), a, b)
  {
    if nodes != [] {
      hide CheckCall, MoveTree, MoveFailure;
      CheckMoves(nodes[0], a, b);
      FirstFailureMoves(nodes[1..], a, b);
    }
  }

  // ---------------------------------------------------------------- compiling

  lemma MoveStart(a: Place, b: Place)
    ensures Move(a, a, b) == b
  {
  }

  lemma ReadMoves(source: Text, a: Place, b: Place)
    ensures Read(source, b) == Moved(Read(source, a), a, b)
  {
    hide Lex, Parse, Move, MoveTree;
    MoveStart(a, b);
    LexMoves(source, a, 0, a, b);
    var tokens := Lex(source, a, 0);
    if tokens.Ok? {
      GoodMoves(tokens.value, a, b);
      ParseMoves(tokens.value, a, b);
    }
  }

  /** THE PLACE ONLY MOVES THE PLACES. Started at `b` instead of `a`, compiling yields the
      same tree or the same failure, moved from `a` to `b`. */
  lemma CompileMoves(source: Text, a: Place, b: Place)
    ensures Compile(source, b) == Moved(Compile(source, a), a, b)
  {
    hide Read, Strip, Walk, FirstFailure, Move, MoveTree, MoveTrees;
    MoveStart(a, b);
    ReadMoves(source, a, b);
    var tree := Read(source, a);
    if tree.Ok? {
      WalkMoves(tree.value, a, b);
      FirstFailureMoves(Walk(tree.value), a, b);
    }
  }
}
