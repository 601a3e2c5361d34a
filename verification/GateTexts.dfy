/** Pragmas as texts: exactly which ones are accepted, and what they mean. */
module GateTexts {
  import opened Wrappers
  import opened Text
  import opened GateTokens
  import opened GateGrammar
  import opened GateParser
  import opened GatePrinter

  /** The text is these tokens, each spelled in some way, with white space but line breaks around them, and then
      nothing, a line break or a comment. */
  ghost predicate Renders(code: string, toks: seq<Token>, texts: seq<string>, gaps: seq<string>, tail: string) {
    && |texts| == |toks| && |gaps| == |toks| + 1 && Tail(tail)
    && (forall k :: 0 <= k < |gaps| ==> Gap(gaps[k]))
    && (forall k :: 0 <= k < |toks| ==> Spells(toks[k], texts[k]))
    && code == Render(texts, gaps, tail)
  }

  lemma {:induction false} NameOfPrefix(s: string)
    ensures NameLength(s[..NameLength(s)]) == NameLength(s)
  {
    if s != [] && IsNameChar(s[0]) {
      NameOfPrefix(s[1..]);
      assert s[..NameLength(s)][1..] == s[1..][..NameLength(s[1..])];
    }
  }

  lemma QuotedIsSpelled(s: string)
    requires Next(s).Emit? && IsQuote(s[0])
    ensures Spells(Next(s).tok, s[..Next(s).length])
  {
    assert s[..Next(s).length] == [s[0]] + s[1..Next(s).length - 1] + [s[0]];
  }

  lemma WordIsSpelled(s: string)
    requires s != "" && IsNameStart(s[0])
    ensures Spells(WordTok(s[..NameLength(s)]), s[..NameLength(s)])
  {
    NameOfPrefix(s);
  }

  /** What the tokenizer takes off the front of a text is a spelling of the token. */
  lemma EmittedIsSpelled(s: string)
    requires Next(s).Emit?
    ensures Spells(Next(s).tok, s[..Next(s).length])
  {
    if IsQuote(s[0]) {
      QuotedIsSpelled(s);
    } else if IsNameStart(s[0]) {
      NameStartIsPlain(s);
      WordIsSpelled(s);
    } else {
      SymbolIsSpelled(s);
    }
  }

  lemma SymbolIsSpelled(s: string)
    requires Next(s).Emit? && !IsQuote(s[0]) && !IsNameStart(s[0])
    ensures Spells(Next(s).tok, s[..Next(s).length])
  {}

  lemma BlankInFront(c: char, code: string, toks: seq<Token>, texts: seq<string>, gaps: seq<string>, tail: string)
    requires IsSpace(c) && c != '\n' && Renders(code, toks, texts, gaps, tail)
    ensures Renders([c] + code, toks, texts, gaps[0 := [c] + gaps[0]], tail)
  {
    var gaps1 := gaps[0 := [c] + gaps[0]];
    assert gaps1[1..] == gaps[1..];
    if texts == [] {
      assert [c] + gaps[0] + tail == [c] + (gaps[0] + tail);
    } else {
      var rest := Render(texts[1..], gaps[1..], tail);
      assert [c] + gaps[0] + texts[0] + rest == [c] + (gaps[0] + texts[0] + rest);
    }
  }

  lemma TokenInFront(tok: Token, text: string, code: string, toks: seq<Token>, texts: seq<string>, gaps: seq<string>,
                     tail: string)
    requires Spells(tok, text) && Renders(code, toks, texts, gaps, tail)
    ensures Renders(text + code, [tok] + toks, [text] + texts, [""] + gaps, tail)
  {
    assert ([text] + texts)[1..] == texts && ([""] + gaps)[1..] == gaps;
    assert "" + text + code == text + code;
  }

  lemma NextIsLexed(s: string)
    requires Lex(s).Ok?
    ensures !Next(s).Fail?
    ensures Next(s).EndOfCode? ==> Lex(s) == Ok([]) && Tail(s)
    ensures Next(s).Blank? ==> Lex(s) == Lex(s[1..]) && s[0] != '\n' && IsSpace(s[0])
    ensures Next(s).Emit? ==>
              var rest := Lex(s[Next(s).length..]);
              rest.Ok? && Lex(s) == Ok([Next(s).tok] + rest.value)
  {}

  /** A text that is tokenized is nothing but its tokens and white space, up to a line break or a comment. */
  lemma {:induction false} LexedIsRendered(s: string) returns (texts: seq<string>, gaps: seq<string>, tail: string)
    requires Lex(s).Ok?
    ensures Renders(s, Lex(s).value, texts, gaps, tail)
    decreases |s|
  {
    NextIsLexed(s);
    match Next(s)
    case EndOfCode =>
      texts, gaps, tail := [], [""], s;
      assert "" + s == s;
    case Blank =>
      texts, gaps, tail := LexedIsRendered(s[1..]);
      BlankInFront(s[0], s[1..], Lex(s).value, texts, gaps, tail);
      assert [s[0]] + s[1..] == s;
      gaps := gaps[0 := [s[0]] + gaps[0]];
    case Emit(tok, n) =>
      EmittedIsSpelled(s);
      texts, gaps, tail := LexedIsRendered(s[n..]);
      TokenInFront(tok, s[..n], s[n..], Lex(s[n..]).value, texts, gaps, tail);
      assert s[..n] + s[n..] == s;
      texts, gaps := [s[..n]] + texts, [""] + gaps;
  }

  /** A pragma is accepted as a condition exactly when it spells out a derivation of that condition. */
  lemma ParsesExactly(code: string, c: Cond)
    ensures Parse(code) == Ok(c) <==>
            exists e, texts, gaps, tail :: Tree(e) == c && Renders(code, Yield(e), texts, gaps, tail)
  {
    if Parse(code) == Ok(c) {
      var toks := Lex(code).value;
      var e := ParseTokens(toks).value;
      ParserIsExact(toks, e);
      var texts, gaps, tail := LexedIsRendered(code);
      assert Renders(code, Yield(e), texts, gaps, tail);
    }
    forall e, texts, gaps, tail | Tree(e) == c && Renders(code, Yield(e), texts, gaps, tail)
      ensures Parse(code) == Ok(c)
    {
      YieldsOperand(e);
      RenderedIsRead(Yield(e), texts, gaps, tail);
      ParserIsExact(Yield(e), e);
    }
  }

  // ----- Conditions written out with all parentheses -----

  function Spelled(c: Cond): string {
    match c
    case Literal(b) => if b then "true" else "false"
    case Text(s) => if '"' in s then "'" + s + "'" else "\"" + s + "\""
    case Flag(n) => n
    case Not(d) => "!" + Spelled(d)
    case Equals(l, r) => "(" + (Spelled(l) + " == " + Spelled(r)) + ")"
    case Differs(l, r) => "(" + (Spelled(l) + " != " + Spelled(r)) + ")"
    case And(l, r) => "(" + (Spelled(l) + " && " + Spelled(r)) + ")"
    case Or(l, r) => "(" + (Spelled(l) + " || " + Spelled(r)) + ")"
  }

  function Full(c: Cond): Unary {
    match c
    case Literal(b) => OnePrimary(Bool(b))
    case Text(s) => OnePrimary(Str(s))
    case Flag(n) => OnePrimary(Name(n))
    case Not(d) => Negate(Full(d))
    case Equals(l, r) => Pair(Full(l), EqTok, Full(r))
    case Differs(l, r) => Pair(Full(l), NeqTok, Full(r))
    case And(l, r) => Pair(Full(l), AndTok, Full(r))
    case Or(l, r) => Pair(Full(l), OrTok, Full(r))
  }

  predicate IsOperator(tok: Token) { tok.EqTok? || tok.NeqTok? || tok.AndTok? || tok.OrTok? }

  function PairExpression(l: Unary, op: Token, r: Unary): Expression
    requires IsOperator(op)
  {
    match op
    case EqTok => OneBinary(Compare(OneUnary(l), IsEqual, r))
    case NeqTok => OneBinary(Compare(OneUnary(l), IsNotEqual, r))
    case AndTok => Chain(OneBinary(OneUnary(l)), LogicalAnd, OneUnary(r))
    case OrTok => Chain(OneBinary(OneUnary(l)), LogicalOr, OneUnary(r))
  }

  /** (l op r) */
  function Pair(l: Unary, op: Token, r: Unary): Unary
    requires IsOperator(op)
  {
    OnePrimary(Group(PairExpression(l, op, r)))
  }

  function Joined(op: Token, l: Cond, r: Cond): Cond
    requires IsOperator(op)
  {
    match op
    case EqTok => Equals(l, r)
    case NeqTok => Differs(l, r)
    case AndTok => And(l, r)
    case OrTok => Or(l, r)
  }

  lemma OperandYields(u: Unary)
    ensures Yield(OneBinary(OneUnary(u))) == YieldU(u) && Tree(OneBinary(OneUnary(u))) == TreeU(u)
  {
    assert YieldB(OneUnary(u)) == YieldU(u) && TreeB(OneUnary(u)) == TreeU(u);
  }

  lemma PairExpressionYields(l: Unary, op: Token, r: Unary)
    requires IsOperator(op)
    ensures Yield(PairExpression(l, op, r)) == YieldU(l) + [op] + YieldU(r)
    ensures Tree(PairExpression(l, op, r)) == Joined(op, TreeU(l), TreeU(r))
  {
    OperandYields(l);
    OperandYields(r);
    var e := PairExpression(l, op, r);
    if e.OneBinary? {
      assert YieldB(e.b) == YieldB(OneUnary(l)) + [op] + YieldU(r);
      assert TreeB(e.b) == Joined(op, TreeB(OneUnary(l)), TreeU(r));
    } else {
      assert YieldB(e.right) == YieldU(r) && TreeB(e.right) == TreeU(r);
    }
  }

  lemma PairYields(l: Unary, op: Token, r: Unary)
    requires IsOperator(op)
    ensures YieldU(Pair(l, op, r)) == [LParenTok] + (YieldU(l) + [op] + YieldU(r)) + [RParenTok]
    ensures TreeU(Pair(l, op, r)) == Joined(op, TreeU(l), TreeU(r))
  {
    PairExpressionYields(l, op, r);
    var p := Pair(l, op, r).p;
    assert YieldP(p) == [LParenTok] + Yield(p.e) + [RParenTok] && TreeP(p) == Tree(p.e);
  }

  // ----- Tokens one after the other, with spaces around operators -----

  function Piece(tok: Token): string { if IsOperator(tok) then " " + Spelling(tok) + " " else Spelling(tok) }

  function Flat(toks: seq<Token>): string { if toks == [] then "" else Piece(toks[0]) + Flat(toks[1..]) }

  lemma OperatorPieces()
    ensures Piece(EqTok) == " == " && Piece(NeqTok) == " != " && Piece(AndTok) == " && " && Piece(OrTok) == " || "
  {}

  lemma Associate(a: string, b: string, c: string)
    ensures (a + b) + c == a + (b + c)
  {}

  lemma FlatFirst(tok: Token, toks: seq<Token>)
    ensures Flat([tok] + toks) == Piece(tok) + Flat(toks)
  {
    assert ([tok] + toks)[1..] == toks;
  }

  lemma {:induction false} FlatJoin(a: seq<Token>, b: seq<Token>)
    ensures Flat(a + b) == Flat(a) + Flat(b)
  {
    if a == [] {
      assert a + b == b;
    } else {
      FlatJoin(a[1..], b);
      FlatFirst(a[0], a[1..] + b);
      assert [a[0]] + (a[1..] + b) == a + b;
      Associate(Piece(a[0]), Flat(a[1..]), Flat(b));
    }
  }

  lemma FlatOne(tok: Token)
    ensures Flat([tok]) == Piece(tok)
  {
    assert Flat([tok][1..]) == "";
  }

  lemma FlatMiddle(l: seq<Token>, op: Token, r: seq<Token>)
    ensures Flat(l + [op] + r) == Flat(l) + Piece(op) + Flat(r)
  {
    FlatOne(op);
    FlatJoin(l, [op]);
    FlatJoin(l + [op], r);
  }

  lemma FlatAround(m: seq<Token>)
    ensures Flat([LParenTok] + m + [RParenTok]) == "(" + Flat(m) + ")"
  {
    FlatOne(RParenTok);
    FlatFirst(LParenTok, m);
    FlatJoin([LParenTok] + m, [RParenTok]);
  }

  lemma {:induction false} SpelledIsFlat(c: Cond)
    ensures TreeU(Full(c)) == c && Spelled(c) == Flat(YieldU(Full(c)))
    decreases c, 1
  {
    OperatorPieces();
    match c
    case Literal(b) => FlatOne(BooleanTok(b));
    case Text(s) => FlatOne(StringTok(s));
    case Flag(n) => FlatOne(NameTok(n));
    case Not(d) =>
      SpelledIsFlat(d);
      NotIsFlat(d);
    case Equals(l, r) => PairIsFlat(c, l, EqTok, r);
    case Differs(l, r) => PairIsFlat(c, l, NeqTok, r);
    case And(l, r) => PairIsFlat(c, l, AndTok, r);
    case Or(l, r) => PairIsFlat(c, l, OrTok, r);
  }

  lemma NotIsFlat(d: Cond)
    ensures Flat(YieldU(Full(Not(d)))) == "!" + Flat(YieldU(Full(d)))
  {
    FlatFirst(NotTok, YieldU(Full(d)));
  }

  lemma {:induction false} PairIsFlat(c: Cond, l: Cond, op: Token, r: Cond)
    requires IsOperator(op) && l < c && r < c && c == Joined(op, l, r) && Full(c) == Pair(Full(l), op, Full(r))
    requires Spelled(c) == "(" + (Spelled(l) + Piece(op) + Spelled(r)) + ")"
    ensures TreeU(Full(c)) == c && Spelled(c) == Flat(YieldU(Full(c)))
    decreases c, 0
  {
    SpelledIsFlat(l);
    SpelledIsFlat(r);
    PairYields(Full(l), op, Full(r));
    FlatMiddle(YieldU(Full(l)), op, YieldU(Full(r)));
    FlatAround(YieldU(Full(l)) + [op] + YieldU(Full(r)));
  }

  lemma PairIsSpelt(l: seq<Token>, op: Token, r: seq<Token>)
    requires IsOperator(op) && AllSpelt(l) && AllSpelt(r)
    ensures AllSpelt([LParenTok] + (l + [op] + r) + [RParenTok])
  {}

  lemma {:induction false} FullIsSpelt(c: Cond)
    requires Printable(c)
    ensures AllSpelt(YieldU(Full(c)))
    decreases c, 1
  {
    match c
    case Not(d) => FullIsSpelt(d);
    case Equals(l, r) => OperandsAreSpelt(c, l, EqTok, r);
    case Differs(l, r) => OperandsAreSpelt(c, l, NeqTok, r);
    case And(l, r) => OperandsAreSpelt(c, l, AndTok, r);
    case Or(l, r) => OperandsAreSpelt(c, l, OrTok, r);
    case _ =>
  }

  lemma {:induction false} OperandsAreSpelt(c: Cond, l: Cond, op: Token, r: Cond)
    requires IsOperator(op) && l < c && r < c && Full(c) == Pair(Full(l), op, Full(r)) && Printable(l) && Printable(r)
    ensures AllSpelt(YieldU(Full(c)))
    decreases c, 0
  {
    FullIsSpelt(l);
    FullIsSpelt(r);
    PairYields(Full(l), op, Full(r));
    PairIsSpelt(YieldU(Full(l)), op, YieldU(Full(r)));
  }

  function Space(tok: Token): string { if IsOperator(tok) then " " else "" }

  function GapsOf(toks: seq<Token>, before: string): seq<string> {
    if toks == [] then [before] else [before + Space(toks[0])] + GapsOf(toks[1..], Space(toks[0]))
  }

  lemma GapInFront(before: string, tok: Token, rest: string)
    ensures (before + Space(tok)) + Spelling(tok) + (Space(tok) + rest) == before + (Piece(tok) + rest)
  {
    Associate(before, Space(tok), Spelling(tok));
    Associate(before, Space(tok) + Spelling(tok), Space(tok) + rest);
    Associate(Space(tok) + Spelling(tok), Space(tok), rest);
    assert Space(tok) + Spelling(tok) + Space(tok) == Piece(tok);
  }

  lemma {:induction false} FlatIsRendered(toks: seq<Token>, before: string)
    requires Gap(before)
    ensures var gaps := GapsOf(toks, before);
            && |gaps| == |toks| + 1 && (forall k :: 0 <= k < |gaps| ==> Gap(gaps[k]))
            && Render(Spellings(toks), gaps, "") == before + Flat(toks)
  {
    if toks != [] {
      var tok, rest := toks[0], toks[1..];
      FlatIsRendered(rest, Space(tok));
      GapInFront(before, tok, Flat(rest));
      var gaps := GapsOf(toks, before);
      assert Spellings(toks)[1..] == Spellings(rest) && gaps[1..] == GapsOf(rest, Space(tok));
    }
  }

  /** A condition written out with all parentheses is read as that condition. */
  lemma SpelledIsRead(c: Cond)
    requires Printable(c)
    ensures Parse(Spelled(c)) == Ok(c)
  {
    var toks, e := YieldU(Full(c)), OneBinary(OneUnary(Full(c)));
    SpelledIsFlat(c);
    FullIsSpelt(c);
    OperandYields(Full(c));
    FlatIsRendered(toks, "");
    assert "" + Flat(toks) == Flat(toks) && Tree(e) == c && Yield(e) == toks;
    assert Renders(Spelled(c), Yield(e), Spellings(toks), GapsOf(toks, ""), "");
    ParsesExactly(Spelled(c), c);
  }
}
