/**
 The recursive-descent expression parser of the management script language.

 `Primary` and its companions specify the parser on the tokens that are still
 unread; the class `ExpressionParser` is the program's parser, which advances a
 position in the token tuple. `Derives` is an independent grammar: it relates a
 tree to the tokens it covers. `ParseIffDerived` connects the two exactly.
 */
module ScriptParser {
  import opened Common
  import opened Texts
  import opened ScriptLexer

  const MAX_EXPRESSION_DEPTH := 20
  const MAX_LIST_VALUES := 100
  /** Decimal digits Python converts to an integer before raising `ValueError`. */
  const MAX_INTEGER_DIGITS := 4_300

  /** A script value: text, integer, boolean, list of texts or null. */
  datatype Value =
    | NullValue
    | BoolValue(flag: bool)
    | IntValue(number: int)
    | TextValue(text: Text)
    | ListValue(items: seq<Text>)

  datatype Expression =
    | Literal(value: Value, place: Place)
    | Variable(name: Text, place: Place)
    | List(children: seq<Expression>, place: Place)
    | Call(name: Text, children: seq<Expression>, place: Place)

  const TRUE: Text := [116, 114, 117, 101]
  const FALSE: Text := [102, 97, 108, 115, 101]
  const NULL: Text := [110, 117, 108, 108]

  /** The value a keyword stands for, compared without regard to case. */
  function Keyword(name: Text): Option<Value> {
    var lowered := LowerAscii(name);
    if lowered == TRUE then Some(BoolValue(true))
    else if lowered == FALSE then Some(BoolValue(false))
    else if lowered == NULL then Some(NullValue)
    else None
  }

  function Decimal(digits: Text): (n: nat)
    requires forall i | 0 <= i < |digits| :: IsDigit(digits[i])
  {
    if digits == [] then 0
    else
      assert IsDigit(digits[|digits| - 1]);
      10 * Decimal(digits[..|digits| - 1]) + (digits[|digits| - 1] - 48)
  }

  // ------------------------------------------------------------ specification

  /** A parsed tree and the tokens after it. */
  datatype Parsed = Parsed(tree: Expression, rest: Tokens)
  datatype ParsedList = ParsedList(trees: seq<Expression>, rest: Tokens)

  predicate IsMark(token: Token, code: Code) {
    token.kind == Punct(code)
  }

  /** The next token is the punctuation mark `code`. */
  predicate Before(t: Tokens, code: Code) {
    t.Next? && IsMark(t.token, code)
  }

  function PlaceOf(t: Tokens): Place {
    match t
    case End(place) => place
    case Next(token, _) => token.place
  }

  function Primary(t: Tokens, depth: nat): (r: Outcome<Parsed>)
    requires AllGood(t)
    ensures r.Ok? ==> AllGood(r.value.rest) && r.value.rest < t
    decreases t, 0
  {
    if depth > MAX_EXPRESSION_DEPTH then Fail(NestedTooDeeply, PlaceOf(t))
    else if t.End? then Fail(ExpectedValue, t.place)
    else
      var token := t.token;
      match token.kind
      case StringToken => Ok(Parsed(Literal(TextValue(token.value), token.place), t.rest))
      case IntegerToken =>
        if |token.value| > MAX_INTEGER_DIGITS then Err(DigitLimit)
        else Ok(Parsed(Literal(IntValue(Decimal(token.value)), token.place), t.rest))
      case Punct(code) =>
        if code != OPEN_BRACKET then Fail(ExpectedValue, token.place)
        else (
          match Arguments(t.rest, CLOSE_BRACKET, depth)
          case Err(e) => Err(e)
          case Ok(p) => Ok(Parsed(List(p.trees, token.place), p.rest)))
      case IdentifierToken =>
        (match Keyword(token.value)
         case Some(value) => Ok(Parsed(Literal(value, token.place), t.rest))
         case None =>
           if !Before(t.rest, OPEN_PAREN) then Ok(Parsed(Variable(token.value, token.place), t.rest))
           else
             assert AllGood(t.rest);
             match Arguments(t.rest.rest, CLOSE_PAREN, depth)
             case Err(e) => Err(e)
             case Ok(p) => Ok(Parsed(Call(token.value, p.trees, token.place), p.rest)))
  }

  function Arguments(t: Tokens, closing: Code, depth: nat): (r: Outcome<ParsedList>)
    requires AllGood(t)
    ensures r.Ok? ==> AllGood(r.value.rest) && r.value.rest < t
    decreases t, 2
  {
    if Before(t, closing) then Ok(ParsedList([], t.rest))
    else ArgumentList(t, closing, depth, 0)
  }

  /** The comma-separated values of a call or list, after `count` of them. */
  function ArgumentList(t: Tokens, closing: Code, depth: nat, count: nat): (r: Outcome<ParsedList>)
    requires AllGood(t)
    ensures r.Ok? ==> AllGood(r.value.rest) && r.value.rest < t
    decreases t, 1
  {
    match Primary(t, depth + 1)
    case Err(e) => Err(e)
    case Ok(p) =>
      if count + 1 > MAX_LIST_VALUES then Fail(TooManyValues, PlaceOf(p.rest))
      else if Before(p.rest, closing) then Ok(ParsedList([p.tree], p.rest.rest))
      else if !Before(p.rest, COMMA) then Fail(ExpectedSeparator, PlaceOf(p.rest))
      else PrependTrees([p.tree], ArgumentList(p.rest.rest, closing, depth, count + 1))
  }

  function PrependTrees(trees: seq<Expression>, r: Outcome<ParsedList>): Outcome<ParsedList> {
    match r
    case Ok(p) => Ok(ParsedList(trees + p.trees, p.rest))
    case Err(e) => Err(e)
  }

  /** All tokens as one expression. */
  function Parse(t: Tokens): Outcome<Expression>
    requires AllGood(t)
  {
    match Primary(t, 1)
    case Err(e) => Err(e)
    case Ok(p) =>
      if p.rest.Next? then Fail(UnexpectedToken, PlaceOf(p.rest)) else Ok(p.tree)
  }

  // ----------------------------------------------------------- the program's parser

  lemma PrependTree(trees: seq<Expression>, tree: Expression, r: Outcome<ParsedList>)
    ensures PrependTrees(trees, PrependTrees([tree], r)) == PrependTrees(trees + [tree], r)
  {
    if r.Ok? {
      assert trees + ([tree] + r.value.trees) == trees + [tree] + r.value.trees;
    }
  }

  /** The parser of the program. `position` always stands on a token when the
      current token is read: it never passes the end mark. */
  class ExpressionParser {
    const tokens: seq<Token>
    var position: nat

    predicate Valid()
      reads this
    {
      WellTerminated(tokens) && position < |tokens| && AllGood(Unread(tokens, position))
    }

    function Rest(): (t: Tokens)
      requires Valid()
      reads this
      ensures AllGood(t)
    {
      Unread(tokens, position)
    }

    constructor (tokens: seq<Token>)
      requires WellTerminated(tokens) && AllGood(Unread(tokens, 0))
      ensures Valid() && this.tokens == tokens && position == 0
    {
      this.tokens := tokens;
      this.position := 0;
    }

    method ParseAll() returns (r: Outcome<Expression>)
      requires Valid()
      modifies this`position
      ensures r == Parse(old(Rest()))
    {
      var expression := PrimaryAt(1);
      if expression.Err? {
        return Err(expression.error);
      }
      if tokens[position].kind != Eof {
        return Fail(UnexpectedToken, tokens[position].place);
      }
      return expression;
    }

    method PrimaryAt(depth: nat) returns (r: Outcome<Expression>)
      requires Valid()
      modifies this`position
      ensures match Primary(old(Rest()), depth)
              case Err(e) => r == Err(e)
              case Ok(p) => r == Ok(p.tree) && old(position) < position && Valid() && Rest() == p.rest
      decreases |tokens| - position, 0
    {
      var token := tokens[position];
      if depth > MAX_EXPRESSION_DEPTH {
        return Fail(NestedTooDeeply, token.place);
      }
      position := position + 1;
      if token.kind == StringToken {
        return Ok(Literal(TextValue(token.value), token.place));
      }
      if token.kind == IntegerToken {
        if |token.value| > MAX_INTEGER_DIGITS {
          return Err(DigitLimit);
        }
        return Ok(Literal(IntValue(Decimal(token.value)), token.place));
      }
      if token.kind == Punct(OPEN_BRACKET) {
        var values := ArgumentsAt(CLOSE_BRACKET, depth);
        if values.Err? {
          return Err(values.error);
        }
        return Ok(List(values.value, token.place));
      }
      if token.kind != IdentifierToken {
        return Fail(ExpectedValue, token.place);
      }
      var keyword := Keyword(token.value);
      if keyword.Some? {
        return Ok(Literal(keyword.value, token.place));
      }
      assert AllGood(Rest());
      if tokens[position].kind != Punct(OPEN_PAREN) {
        assert !Before(Rest(), OPEN_PAREN);
        return Ok(Variable(token.value, token.place));
      }
      position := position + 1;
      var arguments := ArgumentsAt(CLOSE_PAREN, depth);
      if arguments.Err? {
        return Err(arguments.error);
      }
      return Ok(Call(token.value, arguments.value, token.place));
    }

    method ArgumentsAt(closing: Code, depth: nat) returns (r: Outcome<seq<Expression>>)
      requires Valid()
      modifies this`position
      ensures match Arguments(old(Rest()), closing, depth)
              case Err(e) => r == Err(e)
              case Ok(p) => r == Ok(p.trees) && old(position) < position && Valid() && Rest() == p.rest
      decreases |tokens| - position, 1
    {
      hide Primary;
      if tokens[position].kind == Punct(closing) {
        position := position + 1;
        return Ok([]);
      }
      ghost var spec := ArgumentList(Rest(), closing, depth, 0);
      var values: seq<Expression> := [];
      assert spec.Ok? ==> [] + spec.value.trees == spec.value.trees;
      while true
        invariant Valid() && old(position) <= position
        invariant |values| <= MAX_LIST_VALUES
        invariant spec == PrependTrees(values, ArgumentList(Rest(), closing, depth, |values|))
        decreases |tokens| - position
      {
        var value := PrimaryAt(depth + 1);
        if value.Err? {
          return Err(value.error);
        }
        ghost var before := values;
        values := values + [value.value];
        if |values| > MAX_LIST_VALUES {
          return Fail(TooManyValues, tokens[position].place);
        }
        if tokens[position].kind == Punct(closing) {
          position := position + 1;
          return Ok(values);
        }
        if tokens[position].kind != Punct(COMMA) {
          return Fail(ExpectedSeparator, tokens[position].place);
        }
        position := position + 1;
        PrependTree(before, value.value, ArgumentList(Rest(), closing, depth, |values|));
      }
    }
  }

  // -------------------------------------------------------------- the grammar

  /** The literal tokens: text, digits, or a keyword in any letter case. */
  predicate Spells(token: Token, value: Value) {
    match value
    case TextValue(text) => token.kind == StringToken && token.value == text
    case IntValue(n) =>
      && token.kind == IntegerToken
      && (forall i | 0 <= i < |token.value| :: IsDigit(token.value[i]))
      && |token.value| <= MAX_INTEGER_DIGITS
      && Decimal(token.value) == n
    case BoolValue(flag) =>
      token.kind == IdentifierToken && LowerAscii(token.value) == (if flag then TRUE else FALSE)
    case NullValue => token.kind == IdentifierToken && LowerAscii(token.value) == NULL
    case ListValue(_) => false
  }

  predicate IsName(token: Token, name: Text) {
    token.kind == IdentifierToken && token.value == name && Keyword(name).None?
  }

  function Skip(t: Tokens, code: Code): Option<Tokens> {
    if Before(t, code) then Some(t.rest) else None
  }

  /** The grammar, driven by the tree: when `t` begins with a spelling of `e` whose
      places `e` records, the tokens after that spelling. */
  function Derive(e: Expression, t: Tokens): (r: Option<Tokens>)
    decreases e, 1
  {
    if t.End? || t.token.place != e.place then None
    else match e
      case Literal(value, _) => if Spells(t.token, value) then Some(t.rest) else None
      case Variable(name, _) => if IsName(t.token, name) then Some(t.rest) else None
      case List(children, _) =>
        if !IsMark(t.token, OPEN_BRACKET) then None
        else DeriveClosed(children, t.rest, CLOSE_BRACKET)
      case Call(name, children, _) =>
        if !IsName(t.token, name) || !Before(t.rest, OPEN_PAREN) then None
        else DeriveClosed(children, t.rest.rest, CLOSE_PAREN)
  }

  /** A possibly empty comma-separated list and its closing mark. */
  function DeriveClosed(es: seq<Expression>, t: Tokens, closing: Code): (r: Option<Tokens>)
    decreases es, 1
  {
    if es == [] then Skip(t, closing) else DeriveList(es, t, closing)
  }

  function DeriveList(es: seq<Expression>, t: Tokens, closing: Code): (r: Option<Tokens>)
    requires es != []
    decreases es, 0
  {
    match Derive(es[0], t)
    case None => None
    case Some(rest) =>
      if |es| == 1 then Skip(rest, closing)
      else match Skip(rest, COMMA)
        case None => None
        case Some(next) => DeriveList(es[1..], next, closing)
  }

  /** The limits: nesting below `depth` stays within 20, lists within 100. */
  predicate Fits(e: Expression, depth: nat)
    decreases e, 1
  {
    && depth <= MAX_EXPRESSION_DEPTH
    && match e
       case Literal(_, _) => true
       case Variable(_, _) => true
       case List(children, _) => |children| <= MAX_LIST_VALUES && FitsList(children, depth + 1)
       case Call(_, children, _) => |children| <= MAX_LIST_VALUES && FitsList(children, depth + 1)
  }

  predicate FitsList(es: seq<Expression>, depth: nat)
    decreases es, 0
  {
    es == [] || (Fits(es[0], depth) && FitsList(es[1..], depth))
  }

  // ------------------------------------------------------ parser versus grammar

  /** What the parser accepts is derived by the grammar and within the limits. */
  lemma {:induction false} PrimarySound(t: Tokens, depth: nat)
    requires AllGood(t) && Primary(t, depth).Ok?
    ensures var Parsed(e, rest) := Primary(t, depth).value;
            && Derive(e, t) == Some(rest) && Fits(e, depth)
            && (e.Variable? ==> !Before(rest, OPEN_PAREN))
    decreases t, 0
  {
    var token := t.token;
    match token.kind
    case Punct(code) =>
      ArgumentsSound(t.rest, CLOSE_BRACKET, depth);
    case IdentifierToken =>
      if Keyword(token.value).None? && Before(t.rest, OPEN_PAREN) {
        ArgumentsSound(t.rest.rest, CLOSE_PAREN, depth);
      }
    case StringToken =>
    case IntegerToken =>
  }

  lemma {:induction false} ArgumentsSound(t: Tokens, closing: Code, depth: nat)
    requires AllGood(t) && Arguments(t, closing, depth).Ok?
    ensures var ParsedList(es, rest) := Arguments(t, closing, depth).value;
            && DeriveClosed(es, t, closing) == Some(rest)
            && FitsList(es, depth + 1) && |es| <= MAX_LIST_VALUES
    decreases t, 2
  {
    if !Before(t, closing) {
      ArgumentListSound(t, closing, depth, 0);
    }
  }

  lemma {:induction false} ArgumentListSound(t: Tokens, closing: Code, depth: nat, count: nat)
    requires AllGood(t) && ArgumentList(t, closing, depth, count).Ok?
    ensures var ParsedList(es, rest) := ArgumentList(t, closing, depth, count).value;
            && es != [] && DeriveList(es, t, closing) == Some(rest)
            && FitsList(es, depth + 1) && count + |es| <= MAX_LIST_VALUES
    decreases t, 1
  {
    hide Primary, Derive, Fits;
    PrimarySound(t, depth + 1);
    var Parsed(e, after) := Primary(t, depth + 1).value;
    var es := ArgumentList(t, closing, depth, count).value.trees;
    if Before(after, closing) {
      assert es == [e];
    } else {
      ArgumentListSound(after.rest, closing, depth, count + 1);
      assert es[1..] == ArgumentList(after.rest, closing, depth, count + 1).value.trees;
    }
  }

  /** Whatever the grammar derives within the limits, the parser accepts. */
  lemma {:induction false} PrimaryComplete(t: Tokens, e: Expression, depth: nat, rest: Tokens)
    requires AllGood(t) && Derive(e, t) == Some(rest) && Fits(e, depth)
    requires e.Variable? ==> !Before(rest, OPEN_PAREN)
    ensures Primary(t, depth) == Ok(Parsed(e, rest))
    decreases e, 1
  {
    match e
    case Literal(_, _) =>
    case Variable(_, _) =>
    case List(children, _) =>
      ArgumentsComplete(t.rest, children, CLOSE_BRACKET, depth, rest);
    case Call(_, children, _) =>
      ArgumentsComplete(t.rest.rest, children, CLOSE_PAREN, depth, rest);
  }

  lemma {:induction false} ArgumentsComplete(
    t: Tokens, es: seq<Expression>, closing: Code, depth: nat, rest: Tokens)
    requires closing == CLOSE_PAREN || closing == CLOSE_BRACKET
    requires AllGood(t) && DeriveClosed(es, t, closing) == Some(rest)
    requires FitsList(es, depth + 1) && |es| <= MAX_LIST_VALUES
    ensures Arguments(t, closing, depth) == Ok(ParsedList(es, rest))
    decreases es, 1
  {
    if es != [] {
      assert Derive(es[0], t).Some?;
      ArgumentListComplete(t, es, closing, depth, 0, rest);
    }
  }

  lemma {:induction false} ArgumentListComplete(
    t: Tokens, es: seq<Expression>, closing: Code, depth: nat, count: nat, rest: Tokens)
    requires closing == CLOSE_PAREN || closing == CLOSE_BRACKET
    requires es != [] && AllGood(t) && DeriveList(es, t, closing) == Some(rest)
    requires FitsList(es, depth + 1) && count + |es| <= MAX_LIST_VALUES
    ensures ArgumentList(t, closing, depth, count) == Ok(ParsedList(es, rest))
    decreases es, 0
  {
    hide Primary, Derive, Fits;
    var after := Derive(es[0], t).value;
    PrimaryComplete(t, es[0], depth + 1, after);
    if |es| > 1 {
      ArgumentListComplete(after.rest, es[1..], closing, depth, count + 1, rest);
      assert [es[0]] + es[1..] == es;
    } else {
      assert es == [es[0]];
    }
  }

  /** The parser accepts the tokens as the tree `e` exactly when the grammar derives
      `e` from all of them, within the limits. */
  lemma ParseIffDerived(t: Tokens, e: Expression)
    requires AllGood(t)
    ensures Parse(t) == Ok(e) <==> Derive(e, t).Some? && Derive(e, t).value.End? && Fits(e, 1)
  {
    hide Primary, Derive, Fits;
    if Parse(t) == Ok(e) {
      PrimarySound(t, 1);
    }
    if Derive(e, t).Some? && Derive(e, t).value.End? && Fits(e, 1) {
      PrimaryComplete(t, e, 1, Derive(e, t).value);
    }
  }
}
