/** The recursive-descent parser: its functions share a cursor into the tokens and build conditions directly. */
module GateParser {
  import opened Wrappers
  import opened GateTokens
  import opened GateGrammar

  datatype GateError = Lexical(lex: LexError) | Syntactic(syntax: ParseError)

  function Parse(code: string): Result<Cond, GateError> {
    match Lex(code)
    case Err(error) => Err(Lexical(error))
    case Ok(tokens) =>
      match ParseTokens(tokens)
      case Err(error) => Err(Syntactic(error))
      case Ok(e) => Ok(Tree(e))
  }

  class Parser {
    const tokens: seq<Token>
    var i: nat

    constructor (tokens: seq<Token>)
      ensures this.tokens == tokens && i == 0
    {
      this.tokens, i := tokens, 0;
    }

    ghost predicate Valid()
      reads this
    {
      i <= |tokens|
    }

    ghost function Rest(): seq<Token>
      reads this
      requires Valid()
    {
      tokens[i..]
    }

    method ParseExpression() returns (r: Result<Cond, ParseError>)
      requires Valid()
      modifies this
      ensures Valid()
      ensures match ParseE(old(Rest()))
              case No(error) => r == Err(error)
              case Yes(e, rest) => r == Ok(Tree(e)) && Rest() == rest
      decreases |tokens| - i, 3
    {
      ghost var ts := Rest();
      r := ParseBinary();
      if r.Err? { return; }
      var left := r.value;
      ghost var tree := OneBinary(ParseB(ts).tree);
      while i < |tokens| && (tokens[i].AndTok? || tokens[i].OrTok?)
        invariant Valid() && left == Tree(tree) && ParseE(ts) == ChainOn(tree, Rest())
        invariant i > old(i)
        decreases |tokens| - i
      {
        var tok := tokens[i];
        ghost var was := Rest();
        i := i + 1;
        assert Rest() == was[1..];
        var right := ParseBinary();
        if right.Err? { return right; }
        left := if tok.AndTok? then And(left, right.value) else Or(left, right.value);
        tree := Chain(tree, if tok.AndTok? then LogicalAnd else LogicalOr, ParseB(was[1..]).tree);
      }
      return Ok(left);
    }

    method ParseBinary() returns (r: Result<Cond, ParseError>)
      requires Valid()
      modifies this
      ensures Valid()
      ensures match ParseB(old(Rest()))
              case No(error) => r == Err(error)
              case Yes(b, rest) => r == Ok(TreeB(b)) && Rest() == rest && i > old(i)
      decreases |tokens| - i, 2
    {
      ghost var ts := Rest();
      r := ParseUnary();
      if r.Err? { return; }
      var left := r.value;
      ghost var tree := OneUnary(ParseU(ts).tree);
      while i < |tokens| && (tokens[i].EqTok? || tokens[i].NeqTok?)
        invariant Valid() && left == TreeB(tree) && ParseB(ts) == CompareOn(tree, Rest())
        invariant i > old(i)
        decreases |tokens| - i
      {
        var tok := tokens[i];
        ghost var was := Rest();
        i := i + 1;
        assert Rest() == was[1..];
        var right := ParseUnary();
        if right.Err? { return right; }
        left := if tok.EqTok? then Equals(left, right.value) else Differs(left, right.value);
        tree := Compare(tree, if tok.EqTok? then IsEqual else IsNotEqual, ParseU(was[1..]).tree);
      }
      return Ok(left);
    }

    method ParseUnary() returns (r: Result<Cond, ParseError>)
      requires Valid()
      modifies this
      ensures Valid()
      ensures match ParseU(old(Rest()))
              case No(error) => r == Err(error)
              case Yes(u, rest) => r == Ok(TreeU(u)) && Rest() == rest && i > old(i)
      decreases |tokens| - i, 1
    {
      if i < |tokens| && tokens[i].NotTok? {
        ghost var was := Rest();
        i := i + 1;
        assert Rest() == was[1..];
        r := ParseUnary();
        if r.Ok? { r := Ok(Not(r.value)); }
      } else {
        r := ParsePrimary();
      }
    }

    method ParseGroup() returns (r: Result<Cond, ParseError>)
      requires Valid() && i < |tokens| && tokens[i].LParenTok?
      modifies this
      ensures Valid()
      ensures match ParseP(old(Rest()))
              case No(error) => r == Err(error)
              case Yes(p, rest) => r == Ok(TreeP(p)) && Rest() == rest && i > old(i)
      decreases |tokens| - i, 0, 0
    {
      ghost var was := Rest();
      i := i + 1;
      assert Rest() == was[1..];
      r := ParseExpression();
      if r.Err? { return; }
      if i == |tokens| || !tokens[i].RParenTok? { return Err(ExpectedClosingParen); }
      i := i + 1;
    }

    method ParsePrimary() returns (r: Result<Cond, ParseError>)
      requires Valid()
      modifies this
      ensures Valid()
      ensures match ParseP(old(Rest()))
              case No(error) => r == Err(error)
              case Yes(p, rest) => r == Ok(TreeP(p)) && Rest() == rest && i > old(i)
      decreases |tokens| - i, 0, 1
    {
      // Reading the type of a missing token throws.
      if i == |tokens| { return Err(UnexpectedEnd); }
      match tokens[i]
      case BooleanTok(b) =>
        i := i + 1;
        return Ok(Literal(b));
      case NameTok(n) =>
        i := i + 1;
        return Ok(Flag(n));
      case StringTok(s) =>
        i := i + 1;
        return Ok(Text(s));
      case LParenTok =>
        r := ParseGroup();
      case EqTok | NeqTok | AndTok | OrTok | NotTok | RParenTok =>
        return Err(UnexpectedToken(tokens[i]));
    }
  }

  method ParseGate(code: string) returns (r: Result<Cond, GateError>)
    ensures r == Parse(code)
  {
    var lexed := Tokenize(code);
    if lexed.Err? { return Err(Lexical(lexed.error)); }
    var parser := new Parser(lexed.value);
    var program := parser.ParseExpression();
    if program.Err? { return Err(Syntactic(program.error)); }
    if parser.i < |parser.tokens| { return Err(Syntactic(UnexpectedToken(parser.tokens[parser.i]))); }
    return Ok(program.value);
  }
}
