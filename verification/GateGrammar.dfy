/** The grammar of `@gate` conditions, as the parser implements it, given by its derivation trees:
      expression = binary | expression ("||" | "&&") binary
      binary     = unary | binary ("==" | "!=") unary
      unary      = "!" unary | primary
      primary    = boolean | name | string | "(" expression ")"                                           */
module GateGrammar {
  import opened Wrappers
  import opened GateTokens

  datatype Logical = LogicalAnd | LogicalOr
  datatype Equality = IsEqual | IsNotEqual

  datatype Expression = OneBinary(b: Binary) | Chain(left: Expression, op: Logical, right: Binary)
  datatype Binary = OneUnary(u: Unary) | Compare(lhs: Binary, eq: Equality, rhs: Unary)
  datatype Unary = Negate(arg: Unary) | OnePrimary(p: Primary)
  datatype Primary = Bool(value: bool) | Name(name: string) | Str(text: string) | Group(e: Expression)

  /** The condition that is built: a gate function's body. */
  datatype Cond =
    | Literal(value: bool) | Text(text: string) | Flag(name: string) | Not(c: Cond)
    | Equals(l: Cond, r: Cond) | Differs(l: Cond, r: Cond) | And(l: Cond, r: Cond) | Or(l: Cond, r: Cond)

  function LogicalTok(op: Logical): Token { if op.LogicalAnd? then AndTok else OrTok }
  function EqualityTok(op: Equality): Token { if op.IsEqual? then EqTok else NeqTok }

  // ----- The tokens that a tree derives -----

  function Yield(e: Expression): seq<Token> {
    match e
    case OneBinary(b) => YieldB(b)
    case Chain(l, op, r) => Yield(l) + [LogicalTok(op)] + YieldB(r)
  }

  function YieldB(b: Binary): seq<Token> {
    match b
    case OneUnary(u) => YieldU(u)
    case Compare(l, op, r) => YieldB(l) + [EqualityTok(op)] + YieldU(r)
  }

  function YieldU(u: Unary): seq<Token> {
    match u
    case Negate(v) => [NotTok] + YieldU(v)
    case OnePrimary(p) => YieldP(p)
  }

  function YieldP(p: Primary): seq<Token> {
    match p
    case Bool(b) => [BooleanTok(b)]
    case Name(n) => [NameTok(n)]
    case Str(s) => [StringTok(s)]
    case Group(e) => [LParenTok] + Yield(e) + [RParenTok]
  }

  // ----- The condition that a tree denotes -----

  function Tree(e: Expression): Cond {
    match e
    case OneBinary(b) => TreeB(b)
    case Chain(l, op, r) => if op.LogicalAnd? then And(Tree(l), TreeB(r)) else Or(Tree(l), TreeB(r))
  }

  function TreeB(b: Binary): Cond {
    match b
    case OneUnary(u) => TreeU(u)
    case Compare(l, op, r) => if op.IsEqual? then Equals(TreeB(l), TreeU(r)) else Differs(TreeB(l), TreeU(r))
  }

  function TreeU(u: Unary): Cond {
    match u
    case Negate(v) => Not(TreeU(v))
    case OnePrimary(p) => TreeP(p)
  }

  function TreeP(p: Primary): Cond {
    match p
    case Bool(b) => Literal(b)
    case Name(n) => Flag(n)
    case Str(s) => Text(s)
    case Group(e) => Tree(e)
  }

  // ----- The parser, level by level; it returns the tree and the tokens it left -----

  datatype ParseError = UnexpectedEnd | UnexpectedToken(tok: Token) | ExpectedClosingParen

  datatype Parsed<+T> = Yes(tree: T, rest: seq<Token>) | No(error: ParseError)

  function ParseE(ts: seq<Token>): (r: Parsed<Expression>)
    ensures r.Yes? ==> |r.rest| < |ts| && Yield(r.tree) + r.rest == ts
    decreases |ts|, 4
  {
    match ParseB(ts)
    case No(error) => No(error)
    case Yes(b, rest) => ChainOn(OneBinary(b), rest)
  }

  /** parseExpression's loop: `left` has been parsed, `ts` is left. */
  function ChainOn(left: Expression, ts: seq<Token>): (r: Parsed<Expression>)
    ensures r.Yes? ==> |r.rest| <= |ts| && Yield(r.tree) + r.rest == Yield(left) + ts
    decreases |ts|, 3
  {
    if ts != [] && (ts[0].AndTok? || ts[0].OrTok?) then
      var op := if ts[0].AndTok? then LogicalAnd else LogicalOr;
      match ParseB(ts[1..])
      case No(error) => No(error)
      case Yes(b, rest) =>
        assert Yield(Chain(left, op, b)) + rest == Yield(left) + ts;
        ChainOn(Chain(left, op, b), rest)
    else Yes(left, ts)
  }

  function ParseB(ts: seq<Token>): (r: Parsed<Binary>)
    ensures r.Yes? ==> |r.rest| < |ts| && YieldB(r.tree) + r.rest == ts
    decreases |ts|, 2
  {
    match ParseU(ts)
    case No(error) => No(error)
    case Yes(u, rest) => CompareOn(OneUnary(u), rest)
  }

  /** parseBinary's loop. */
  function CompareOn(left: Binary, ts: seq<Token>): (r: Parsed<Binary>)
    ensures r.Yes? ==> |r.rest| <= |ts| && YieldB(r.tree) + r.rest == YieldB(left) + ts
    decreases |ts|, 2
  {
    if ts != [] && (ts[0].EqTok? || ts[0].NeqTok?) then
      var op := if ts[0].EqTok? then IsEqual else IsNotEqual;
      match ParseU(ts[1..])
      case No(error) => No(error)
      case Yes(u, rest) =>
        assert YieldB(Compare(left, op, u)) + rest == YieldB(left) + ts;
        CompareOn(Compare(left, op, u), rest)
    else Yes(left, ts)
  }

  function ParseU(ts: seq<Token>): (r: Parsed<Unary>)
    ensures r.Yes? ==> |r.rest| < |ts| && YieldU(r.tree) + r.rest == ts
    decreases |ts|, 1
  {
    if ts != [] && ts[0].NotTok? then
      match ParseU(ts[1..])
      case No(error) => No(error)
      case Yes(u, rest) =>
        assert YieldU(Negate(u)) + rest == ts;
        Yes(Negate(u), rest)
    else
      match ParseP(ts)
      case No(error) => No(error)
      case Yes(p, rest) => Yes(OnePrimary(p), rest)
  }

  function ParseP(ts: seq<Token>): (r: Parsed<Primary>)
    ensures r.Yes? ==> |r.rest| < |ts| && YieldP(r.tree) + r.rest == ts
    decreases |ts|, 0
  {
    if ts == [] then No(UnexpectedEnd)
    else
      match ts[0]
      case BooleanTok(b) => Yes(Bool(b), ts[1..])
      case NameTok(n) => Yes(Name(n), ts[1..])
      case StringTok(s) => Yes(Str(s), ts[1..])
      case LParenTok =>
        (match ParseE(ts[1..])
         case No(error) => No(error)
         case Yes(e, rest) =>
           if rest == [] || !rest[0].RParenTok? then No(ExpectedClosingParen)
           else
             assert YieldP(Group(e)) + rest[1..] == ts;
             Yes(Group(e), rest[1..]))
      case _ => No(UnexpectedToken(ts[0]))
  }

  /** A whole token list: every token must be consumed. */
  function ParseTokens(ts: seq<Token>): Result<Expression, ParseError> {
    match ParseE(ts)
    case No(error) => Err(error)
    case Yes(e, rest) => if rest == [] then Ok(e) else Err(UnexpectedToken(rest[0]))
  }

  // ----- Completeness: every derivation is found -----

  predicate StopsB(rest: seq<Token>) { rest == [] || (!rest[0].EqTok? && !rest[0].NeqTok?) }

  /** Parsing what `e` derives, then `rest`, is continuing after `e` with `rest`. */
  lemma {:induction false} FindsE(e: Expression, rest: seq<Token>)
    requires StopsB(rest)
    ensures ParseE(Yield(e) + rest) == ChainOn(e, rest)
  {
    match e
    case OneBinary(b) => FindsB(b, rest);
    case Chain(l, op, r) =>
      var rest1 := [LogicalTok(op)] + YieldB(r) + rest;
      assert Yield(e) + rest == Yield(l) + rest1;
      assert rest1[1..] == YieldB(r) + rest;
      FindsE(l, rest1);
      FindsB(r, rest);
      CompareStops(r, rest);
  }

  lemma CompareStops(b: Binary, rest: seq<Token>)
    requires StopsB(rest)
    ensures CompareOn(b, rest) == Yes(b, rest)
  {}

  lemma {:induction false} FindsB(b: Binary, rest: seq<Token>)
    ensures ParseB(YieldB(b) + rest) == CompareOn(b, rest)
  {
    match b
    case OneUnary(u) => FindsU(u, rest);
    case Compare(l, op, r) =>
      var rest1 := [EqualityTok(op)] + YieldU(r) + rest;
      assert YieldB(b) + rest == YieldB(l) + rest1;
      assert rest1[1..] == YieldU(r) + rest;
      FindsB(l, rest1);
      FindsU(r, rest);
  }

  lemma {:induction false} FindsU(u: Unary, rest: seq<Token>)
    ensures ParseU(YieldU(u) + rest) == Yes(u, rest)
  {
    match u
    case Negate(v) =>
      assert (YieldU(u) + rest)[1..] == YieldU(v) + rest;
      FindsU(v, rest);
    case OnePrimary(p) => FindsP(p, rest);
  }

  lemma {:induction false} FindsP(p: Primary, rest: seq<Token>)
    ensures ParseP(YieldP(p) + rest) == Yes(p, rest)
    ensures YieldP(p) != [] && !YieldP(p)[0].NotTok?
  {
    match p
    case Group(e) =>
      var rest1 := [RParenTok] + rest;
      assert (YieldP(p) + rest)[1..] == Yield(e) + rest1;
      FindsE(e, rest1);
      assert rest1[1..] == rest;
    case _ =>
      assert (YieldP(p) + rest)[1..] == rest;
  }

  /** The parser accepts a token list exactly when the grammar derives it, and finds the derivation,
      of which there is only one. */
  lemma ParserIsExact(ts: seq<Token>, e: Expression)
    ensures ParseTokens(ts) == Ok(e) <==> Yield(e) == ts
  {
    assert Yield(e) + [] == Yield(e);
    if Yield(e) == ts { FindsE(e, []); }
    var r := ParseE(ts);
    if r.Yes? { assert r.rest == [] ==> Yield(r.tree) + r.rest == Yield(r.tree); }
  }

  lemma Unambiguous(d: Expression, e: Expression)
    requires Yield(d) == Yield(e)
    ensures d == e
  {
    ParserIsExact(Yield(d), d);
    ParserIsExact(Yield(d), e);
  }

  lemma AcceptsExactlyTheDerivable(ts: seq<Token>)
    ensures ParseTokens(ts).Ok? <==> exists e :: Yield(e) == ts
  {
    var r := ParseTokens(ts);
    if r.Ok? { ParserIsExact(ts, r.value); }
    if e :| Yield(e) == ts { ParserIsExact(ts, e); }
  }
}
