/** Writing a condition with as few parentheses as possible, and reading it back. */
module GatePrinter {
  import opened Wrappers
  import opened Text
  import opened GateTokens
  import opened GateGrammar
  import opened GateParser

  // ----- The derivation with minimal parentheses -----

  predicate IsLogical(c: Cond) { c.And? || c.Or? }
  predicate IsComparison(c: Cond) { c.Equals? || c.Differs? }

  function AsE(c: Cond): (e: Expression)
    ensures Tree(e) == c
    decreases c, if IsLogical(c) then 0 else if IsComparison(c) then 1 else 2
  {
    match c
    case And(l, r) => Chain(AsE(l), LogicalAnd, AsB(r))
    case Or(l, r) => Chain(AsE(l), LogicalOr, AsB(r))
    case _ => OneBinary(AsB(c))
  }

  function AsB(c: Cond): (b: Binary)
    ensures TreeB(b) == c
    decreases c, if IsComparison(c) then 0 else if IsLogical(c) then 2 else 1
  {
    match c
    case Equals(l, r) => Compare(AsB(l), IsEqual, AsU(r))
    case Differs(l, r) => Compare(AsB(l), IsNotEqual, AsU(r))
    case _ => OneUnary(AsU(c))
  }

  function AsU(c: Cond): (u: Unary)
    ensures TreeU(u) == c
    decreases c, if IsLogical(c) then 1 else if IsComparison(c) then 2 else 0
  {
    match c
    case Not(d) => Negate(AsU(d))
    case Literal(b) => OnePrimary(Bool(b))
    case Flag(n) => OnePrimary(Name(n))
    case Text(s) => OnePrimary(Str(s))
    case _ => OnePrimary(Group(AsE(c)))
  }

  /** No derivation of the same condition has fewer tokens. */
  lemma {:induction false} MinimalE(e: Expression)
    ensures |Yield(AsE(Tree(e)))| <= |Yield(e)|
  {
    match e
    case OneBinary(b) => MinimalB(b); LevelsCost(TreeB(b));
    case Chain(l, _, r) => MinimalE(l); MinimalB(r);
  }

  lemma {:induction false} MinimalB(b: Binary)
    ensures |YieldB(AsB(TreeB(b)))| <= |YieldB(b)|
  {
    match b
    case OneUnary(u) => MinimalU(u); LevelsCost(TreeU(u));
    case Compare(l, _, r) => MinimalB(l); MinimalU(r);
  }

  lemma {:induction false} MinimalU(u: Unary)
    ensures |YieldU(AsU(TreeU(u)))| <= |YieldU(u)|
  {
    match u
    case Negate(v) => MinimalU(v);
    case OnePrimary(p) =>
      if p.Group? {
        MinimalE(p.e);
        LevelsCost(Tree(p.e));
      }
  }

  /** A tighter level costs at most the two parentheses more. */
  lemma LevelsCost(c: Cond)
    ensures |Yield(AsE(c))| <= |YieldB(AsB(c))| <= |YieldU(AsU(c))| <= |Yield(AsE(c))| + 2
  {}

  // ----- What a printed token may look like -----

  predicate IsName(s: string) { s != [] && IsNameStart(s[0]) && NameLength(s) == |s| && s != "true" && s != "false" }

  /** A string can be printed when it does without one of the two quotes. */
  predicate Printable(c: Cond) {
    match c
    case Literal(_) => true
    case Text(s) => '"' !in s || '\'' !in s
    case Flag(n) => IsName(n)
    case Not(d) => Printable(d)
    case Equals(l, r) => Printable(l) && Printable(r)
    case Differs(l, r) => Printable(l) && Printable(r)
    case And(l, r) => Printable(l) && Printable(r)
    case Or(l, r) => Printable(l) && Printable(r)
  }

  predicate Spells(tok: Token, text: string) {
    match tok
    case StringTok(s) =>
      (text == ['"'] + s + ['"'] && '"' !in s) || (text == ['\''] + s + ['\''] && '\'' !in s)
    case BooleanTok(b) => text == if b then "true" else "false"
    case NameTok(n) => text == n && IsName(n)
    case EqTok => text == "==" || text == "==="
    case NeqTok => text == "!=" || text == "!=="
    case AndTok => text == "&&"
    case OrTok => text == "||"
    case NotTok => text == "!"
    case LParenTok => text == "("
    case RParenTok => text == ")"
  }

  predicate IsWord(tok: Token) { tok.BooleanTok? || tok.NameTok? }

  /** Text that does not merge with the spelling of `tok` in front of it. */
  predicate Parts(tok: Token, rest: string) {
    rest == [] ||
    if IsWord(tok) then !IsNameChar(rest[0])
    else tok.NotTok? || tok.EqTok? || tok.NeqTok? ==> rest[0] != '='
  }

  lemma {:induction false} UntilEnd(s: string, quote: char, rest: string)
    requires quote !in s
    ensures Until(s + [quote] + rest, quote) == |s|
  {
    var t := s + [quote] + rest;
    if s != [] {
      assert t[1..] == s[1..] + [quote] + rest;
      assert t[0] == s[0] && s[0] in s;
      UntilEnd(s[1..], quote, rest);
    }
  }

  lemma {:induction false} NameEnd(s: string, rest: string)
    requires NameLength(s) == |s| && (rest == [] || !IsNameChar(rest[0]))
    ensures NameLength(s + rest) == |s|
  {
    if s == [] {
      assert s + rest == rest;
    } else {
      assert (s + rest)[1..] == s[1..] + rest;
      NameEnd(s[1..], rest);
    }
  }

  lemma WordIsRead(s: string, rest: string)
    requires s != [] && IsNameStart(s[0]) && NameLength(s) == |s| && (rest == [] || !IsNameChar(rest[0]))
    ensures Next(s + rest) == Emit(WordTok(s), |s|)
  {
    NameEnd(s, rest);
    var t := s + rest;
    assert t[0] == s[0];
    assert t[..|s|] == s;
    NameStartIsPlain(t);
  }

  lemma NameStartIsPlain(t: string)
    requires t != [] && IsNameStart(t[0])
    ensures Next(t) == Emit(WordTok(t[..NameLength(t)]), NameLength(t))
  {
    assert forall p: string :: p <= t && p != [] ==> p[0] == t[0];
    assert !IsSpace(t[0]) && !IsQuote(t[0]);
  }

  lemma StringIsRead(s: string, quote: char, rest: string)
    requires IsQuote(quote) && quote !in s
    ensures Next([quote] + s + [quote] + rest) == Emit(StringTok(s), |s| + 2)
  {
    var t := [quote] + s + [quote] + rest;
    assert t[1..] == s + [quote] + rest;
    UntilEnd(s, quote, rest);
    assert t[1..|s| + 1] == s;
  }

  lemma SymbolIsRead(tok: Token, text: string, rest: string)
    requires Spells(tok, text) && Parts(tok, rest) && !IsWord(tok) && !tok.StringTok?
    ensures Next(text + rest) == Emit(tok, |text|)
  {
    var t := text + rest;
    assert t[0] == text[0];
    assert text <= t;
    if |text| >= 2 { assert t[1] == text[1]; }
    if |text| == 3 { assert t[2] == text[2]; }
    if |text| < |t| { assert t[|text|] == rest[0]; }
  }

  lemma SpellingIsRead(tok: Token, text: string, rest: string)
    requires Spells(tok, text) && Parts(tok, rest)
    ensures Next(text + rest) == Emit(tok, |text|)
  {
    match tok
    case StringTok(s) =>
      var quote := text[0];
      assert text == [quote] + s + [quote];
      StringIsRead(s, quote, rest);
    case BooleanTok(_) | NameTok(_) => WordIsRead(text, rest);
    case _ => SymbolIsRead(tok, text, rest);
  }

  // ----- A line of tokens with white space in between -----

  predicate Gap(s: string) { forall k :: 0 <= k < |s| ==> IsSpace(s[k]) && s[k] != '\n' }

  /** Nothing, or a line break or a comment and then anything. */
  predicate Tail(s: string) { s == [] || s[0] == '\n' || "//" <= s }

  function Render(texts: seq<string>, gaps: seq<string>, tail: string): string
    requires |gaps| == |texts| + 1
  {
    if texts == [] then gaps[0] + tail else gaps[0] + texts[0] + Render(texts[1..], gaps[1..], tail)
  }

  lemma {:induction false} GapIsSkipped(gap: string, rest: string)
    requires Gap(gap)
    ensures Lex(gap + rest) == Lex(rest)
  {
    if gap == [] {
      assert gap + rest == rest;
    } else {
      assert (gap + rest)[1..] == gap[1..] + rest;
      GapIsSkipped(gap[1..], rest);
    }
  }

  /** Which token may follow which in a derivation. */
  predicate StartsOperand(tok: Token) { IsWord(tok) || tok.StringTok? || tok.NotTok? || tok.LParenTok? }
  predicate EndsOperand(tok: Token) { IsWord(tok) || tok.StringTok? || tok.RParenTok? }
  predicate Follows(a: Token, b: Token) { EndsOperand(a) != StartsOperand(b) }

  ghost predicate Linked(ts: seq<Token>) {
    forall k {:trigger ts[k]} :: 0 <= k < |ts| - 1 ==> Follows(ts[k], ts[k + 1])
  }

  ghost predicate Operand(ts: seq<Token>) {
    ts != [] && StartsOperand(ts[0]) && EndsOperand(ts[|ts| - 1]) && Linked(ts)
  }

  lemma JoinOperands(l: seq<Token>, op: Token, r: seq<Token>)
    requires Operand(l) && Operand(r) && !StartsOperand(op) && !EndsOperand(op)
    ensures Operand(l + [op] + r)
  {
    var ts := l + [op] + r;
    forall k | 0 <= k < |ts| - 1 ensures Follows(ts[k], ts[k + 1]) {
      if k < |l| - 1 {
        assert ts[k] == l[k] && ts[k + 1] == l[k + 1];
      } else if k > |l| {
        assert ts[k] == r[k - |l| - 1] && ts[k + 1] == r[k - |l|];
      }
    }
  }

  lemma {:induction false} YieldsOperand(e: Expression)
    ensures Operand(Yield(e))
  {
    match e
    case OneBinary(b) => YieldsOperandB(b);
    case Chain(l, op, r) =>
      YieldsOperand(l);
      YieldsOperandB(r);
      JoinOperands(Yield(l), LogicalTok(op), YieldB(r));
  }

  lemma {:induction false} YieldsOperandB(b: Binary)
    ensures Operand(YieldB(b))
  {
    match b
    case OneUnary(u) => YieldsOperandU(u);
    case Compare(l, op, r) =>
      YieldsOperandB(l);
      YieldsOperandU(r);
      JoinOperands(YieldB(l), EqualityTok(op), YieldU(r));
  }

  lemma {:induction false} YieldsOperandU(u: Unary)
    ensures Operand(YieldU(u))
  {
    match u
    case Negate(v) =>
      YieldsOperandU(v);
      var ts := YieldU(u);
      forall k | 0 <= k < |ts| - 1 ensures Follows(ts[k], ts[k + 1]) {
        if k > 0 { assert ts[k] == YieldU(v)[k - 1]; }
      }
    case OnePrimary(p) =>
      if p.Group? {
        YieldsOperand(p.e);
        var ts, inner := YieldP(p), Yield(p.e);
        assert ts == [LParenTok] + inner + [RParenTok];
        forall k | 0 <= k < |ts| - 1 ensures Follows(ts[k], ts[k + 1]) {
          if 0 < k <= |inner| { assert ts[k] == inner[k - 1]; }
        }
      }
  }

  /** The text from a token's end on does not merge with it. */
  lemma NextTextParts(tok: Token, texts: seq<string>, toks: seq<Token>, gaps: seq<string>, tail: string)
    requires |gaps| == |texts| + 1 && |toks| == |texts| && Gap(gaps[0]) && Tail(tail)
    requires toks != [] ==> Follows(tok, toks[0]) && Spells(toks[0], texts[0])
    ensures Parts(tok, Render(texts, gaps, tail))
  {
    var s := Render(texts, gaps, tail);
    if gaps[0] != [] {
      assert s[0] == gaps[0][0];
    } else if texts == [] {
      assert s == tail;
    } else {
      assert s[0] == texts[0][0];
    }
  }

  lemma {:induction false} RenderedIsRead(toks: seq<Token>, texts: seq<string>, gaps: seq<string>, tail: string)
    requires |gaps| == |texts| + 1 && |toks| == |texts| && Tail(tail) && Linked(toks)
    requires forall k :: 0 <= k < |gaps| ==> Gap(gaps[k])
    requires forall k :: 0 <= k < |toks| ==> Spells(toks[k], texts[k])
    ensures Lex(Render(texts, gaps, tail)) == Ok(toks)
  {
    if texts == [] {
      GapIsSkipped(gaps[0], tail);
    } else {
      var rest := Render(texts[1..], gaps[1..], tail);
      RenderedIsRead(toks[1..], texts[1..], gaps[1..], tail);
      assert toks[1..] != [] ==> Follows(toks[0], toks[1..][0]);
      NextTextParts(toks[0], texts[1..], toks[1..], gaps[1..], tail);
      SpellingIsRead(toks[0], texts[0], rest);
      assert gaps[0] + texts[0] + rest == gaps[0] + (texts[0] + rest);
      GapIsSkipped(gaps[0], texts[0] + rest);
      assert (texts[0] + rest)[|texts[0]|..] == rest;
      assert [toks[0]] + toks[1..] == toks;
    }
  }

  // ----- The round trip -----

  function PrintTokens(c: Cond): seq<Token> { Yield(AsE(c)) }

  /** Print a condition with minimal parentheses, spell its tokens in any way, put any white space but
      line breaks around them, end with nothing, a line break or a comment: parsing gives the condition back. */
  lemma PrintThenParse(c: Cond, texts: seq<string>, gaps: seq<string>, tail: string)
    requires |texts| == |PrintTokens(c)| && |gaps| == |texts| + 1 && Tail(tail)
    requires forall k :: 0 <= k < |gaps| ==> Gap(gaps[k])
    requires forall k :: 0 <= k < |texts| ==> Spells(PrintTokens(c)[k], texts[k])
    ensures Parse(Render(texts, gaps, tail)) == Ok(c)
  {
    YieldsOperand(AsE(c));
    RenderedIsRead(PrintTokens(c), texts, gaps, tail);
    ParserIsExact(PrintTokens(c), AsE(c));
  }

  function Spelling(tok: Token): string {
    match tok
    case StringTok(s) => if '"' !in s then ['"'] + s + ['"'] else ['\''] + s + ['\'']
    case BooleanTok(b) => if b then "true" else "false"
    case NameTok(n) => n
    case EqTok => "=="
    case NeqTok => "!="
    case AndTok => "&&"
    case OrTok => "||"
    case NotTok => "!"
    case LParenTok => "("
    case RParenTok => ")"
  }

  ghost predicate AllSpelt(ts: seq<Token>) {
    forall k {:trigger ts[k]} :: 0 <= k < |ts| ==> Spells(ts[k], Spelling(ts[k]))
  }

  function Spellings(ts: seq<Token>): (r: seq<string>)
    ensures |r| == |ts| && forall k :: 0 <= k < |ts| ==> r[k] == Spelling(ts[k])
  {
    seq(|ts|, k requires 0 <= k < |ts| => Spelling(ts[k]))
  }

  /** Every condition whose names are names and whose strings do without one kind of quote can be printed,
      with any white space around the tokens, and parsing gives it back. */
  lemma RoundTrip(c: Cond, gaps: seq<string>, tail: string)
    requires Printable(c) && |gaps| == |PrintTokens(c)| + 1 && Tail(tail)
    requires forall k :: 0 <= k < |gaps| ==> Gap(gaps[k])
    ensures Parse(Render(Spellings(PrintTokens(c)), gaps, tail)) == Ok(c)
  {
    PrintableAll(c);
    PrintThenParse(c, Spellings(PrintTokens(c)), gaps, tail);
  }

  lemma {:induction false} PrintableAll(c: Cond)
    requires Printable(c)
    ensures AllSpelt(Yield(AsE(c))) && AllSpelt(YieldB(AsB(c))) && AllSpelt(YieldU(AsU(c)))
  {
    match c
    case Not(d) => PrintableAll(d);
    case Equals(l, r) => PrintableAll(l); PrintableAll(r);
    case Differs(l, r) => PrintableAll(l); PrintableAll(r);
    case And(l, r) => PrintableAll(l); PrintableAll(r);
    case Or(l, r) => PrintableAll(l); PrintableAll(r);
    case _ =>
      assert AllSpelt(YieldU(AsU(c)));
      assert YieldB(AsB(c)) == YieldU(AsU(c));
  }
}
