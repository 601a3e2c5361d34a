/** The tokenizer of `@gate` conditions. */
module GateTokens {
  import opened Wrappers
  import opened Text

  datatype Token =
    | StringTok(value: string) | BooleanTok(b: bool) | NameTok(name: string)
    | EqTok | NeqTok | AndTok | OrTok | NotTok | LParenTok | RParenTok

  datatype LexError = MissingClosingQuote | InvalidCharacter(c: char)

  /** What the text in front of the tokenizer starts with, and how many characters that takes. */
  datatype Lexeme = EndOfCode | Blank | Emit(tok: Token, length: nat) | Fail(error: LexError)

  predicate IsNameStart(c: char) { 'a' <= c <= 'z' || 'A' <= c <= 'Z' || c == '_' || c == '$' }

  predicate IsNameChar(c: char) { IsNameStart(c) || '0' <= c <= '9' }

  predicate IsQuote(c: char) { c == '"' || c == '\'' }

  /** The length of the longest run of name characters. */
  function NameLength(s: string): (n: nat)
    ensures n <= |s| && (n < |s| ==> !IsNameChar(s[n])) && forall k :: 0 <= k < n ==> IsNameChar(s[k])
  {
    if s == [] || !IsNameChar(s[0]) then 0 else 1 + NameLength(s[1..])
  }

  function WordTok(name: string): Token {
    if name == "true" then BooleanTok(true) else if name == "false" then BooleanTok(false) else NameTok(name)
  }

  function Next(s: string): (x: Lexeme)
    ensures x.Emit? ==> 0 < x.length <= |s|
    ensures x.Blank? ==> s != []
  {
    if s == [] then EndOfCode
    else if IsQuote(s[0]) then
      var n := Until(s[1..], s[0]);
      if n == |s| - 1 then Fail(MissingClosingQuote) else Emit(StringTok(s[1..n + 1]), n + 2)
    else if s[0] == '\n' then EndOfCode
    else if IsSpace(s[0]) then Blank
    else if "===" <= s then Emit(EqTok, 3)
    else if "!==" <= s then Emit(NeqTok, 3)
    else if "&&" <= s then Emit(AndTok, 2)
    else if "||" <= s then Emit(OrTok, 2)
    else if "==" <= s then Emit(EqTok, 2)
    else if "!=" <= s then Emit(NeqTok, 2)
    else if "//" <= s then EndOfCode
    else if s[0] == '(' then Emit(LParenTok, 1)
    else if s[0] == ')' then Emit(RParenTok, 1)
    else if s[0] == '!' then Emit(NotTok, 1)
    else if IsNameStart(s[0]) then Emit(WordTok(s[..NameLength(s)]), NameLength(s))
    else Fail(InvalidCharacter(s[0]))
  }

  function Lex(s: string): Result<seq<Token>, LexError> {
    match Next(s)
    case EndOfCode => Ok([])
    case Fail(error) => Err(error)
    case Blank => Lex(s[1..])
    case Emit(tok, n) =>
      match Lex(s[n..])
      case Err(error) => Err(error)
      case Ok(toks) => Ok([tok] + toks)
  }

  /** `done` followed by the tokens still to come. */
  function Prepend(done: seq<Token>, r: Result<seq<Token>, LexError>): Result<seq<Token>, LexError> {
    match r
    case Err(error) => Err(error)
    case Ok(toks) => Ok(done + toks)
  }

  lemma LexEmit(done: seq<Token>, s: string)
    requires Next(s).Emit?
    ensures var x := Next(s); Prepend(done, Lex(s)) == Prepend(done + [x.tok], Lex(s[x.length..]))
  {
    var x := Next(s);
    var r := Lex(s[x.length..]);
    if r.Ok? { assert done + ([x.tok] + r.value) == done + [x.tok] + r.value; }
  }

  /** The string literal that opens at `i`, character by character. Reading past the end appends the text of
      `undefined` and then fails, so an unclosed literal always fails. */
  method ReadString(code: string, i: nat, quote: char) returns (value: Option<string>, j: nat)
    requires i <= |code|
    ensures var n := Until(code[i..], quote);
            if n == |code| - i then value.None? else value == Some(code[i..i + n]) && j == i + n + 1
  {
    var text := "";
    j := i;
    while true
      invariant i <= j <= |code| + 1
      invariant j <= |code| ==> text == code[i..j] && Until(code[i..], quote) == j - i + Until(code[j..], quote)
      invariant j > |code| ==> Until(code[i..], quote) == |code| - i
      decreases |code| + 1 - j
    {
      if j > |code| { return None, j; }
      if j == |code| {
        text := text + "undefined";
        j := j + 1;
      } else {
        var c := code[j];
        assert code[j..][1..] == code[j + 1..];
        j := j + 1;
        if c == quote { return Some(text), j; }
        text := text + [c];
      }
    }
    value := None;
  }

  method ReadName(code: string, i: nat) returns (j: nat)
    requires i <= |code|
    ensures j == i + NameLength(code[i..])
  {
    j := i;
    while j < |code| && IsNameChar(code[j])
      invariant i <= j <= |code|
      invariant NameLength(code[i..]) == j - i + NameLength(code[j..])
    {
      assert code[j..][1..] == code[j + 1..];
      j := j + 1;
    }
  }

  /** Operators, parentheses and the start of a comment; n == 0 when there is none of them. */
  method ReadSymbol(code: string, i: nat) returns (tok: Token, n: nat, stop: bool)
    requires i < |code| && !IsQuote(code[i]) && !IsSpace(code[i])
    ensures stop ==> Next(code[i..]).EndOfCode?
    ensures !stop && n > 0 ==> Next(code[i..]) == Emit(tok, n)
    ensures !stop && n == 0 ==>
              Next(code[i..]) == if IsNameStart(code[i])
                                 then Emit(WordTok(code[i..][..NameLength(code[i..])]), NameLength(code[i..]))
                                 else Fail(InvalidCharacter(code[i]))
  {
    ghost var s := code[i..];
    tok, n, stop := NotTok, 0, false;
    var next3 := if i + 3 <= |code| then code[i..i + 3] else code[i..];
    var next2 := if i + 2 <= |code| then code[i..i + 2] else code[i..];
    assert forall p: string :: |p| == 3 ==> (next3 == p <==> p <= s);
    assert forall p: string :: |p| == 2 ==> (next2 == p <==> p <= s);
    if next3 == "===" { return EqTok, 3, false; }
    if next3 == "!==" { return NeqTok, 3, false; }
    match next2 {
      case "&&" => return AndTok, 2, false;
      case "||" => return OrTok, 2, false;
      case "==" => return EqTok, 2, false;
      case "!=" => return NeqTok, 2, false;
      case "//" => return NotTok, 0, true;
      case _ =>
    }
    match code[i] {
      case '(' => tok, n := LParenTok, 1;
      case ')' => tok, n := RParenTok, 1;
      case '!' => tok, n := NotTok, 1;
      case _ =>
    }
  }

  /** One turn of the tokenizer's loop, from position `i` on. */
  method ReadToken(code: string, i: nat) returns (x: Lexeme)
    requires i < |code|
    ensures x == Next(code[i..])
  {
    ghost var s := code[i..];
    var c := code[i];
    if IsQuote(c) {
      var value, j := ReadString(code, i + 1, c);
      assert s[1..] == code[i + 1..];
      if value.None? { return Fail(MissingClosingQuote); }
      assert s[1..j - i - 1] == code[i + 1..j - 1];
      return Emit(StringTok(value.value), j - i);
    }
    if IsSpace(c) { return if c == '\n' then EndOfCode else Blank; }
    var tok, n, stop := ReadSymbol(code, i);
    if stop { return EndOfCode; }
    if n > 0 { return Emit(tok, n); }
    if !IsNameStart(c) { return Fail(InvalidCharacter(c)); }
    var j := ReadName(code, i);
    assert code[i..j] == s[..j - i];
    return Emit(WordTok(code[i..j]), j - i);
  }

  /** What the lexeme in front of the text `s` means for the tokens still to come. */
  lemma LexStep(s: string, done: seq<Token>, x: Lexeme)
    requires s != [] && x == Next(s)
    ensures x.EndOfCode? ==> Prepend(done, Lex(s)) == Ok(done)
    ensures x.Fail? ==> Prepend(done, Lex(s)) == Err(x.error)
    ensures x.Blank? ==> Prepend(done, Lex(s)) == Prepend(done, Lex(s[1..]))
    ensures x.Emit? ==> 0 < x.length <= |s| && Prepend(done, Lex(s)) == Prepend(done + [x.tok], Lex(s[x.length..]))
  {
    assert done + [] == done;
    if x.Emit? { LexEmit(done, s); }
  }

  lemma PrependNone(r: Result<seq<Token>, LexError>)
    ensures Prepend([], r) == r
  {
    if r.Ok? { assert [] + r.value == r.value; }
  }

  method Tokenize(code: string) returns (r: Result<seq<Token>, LexError>)
    ensures r == Lex(code)
  {
    var tokens: seq<Token> := [];
    var i := 0;
    ghost var all, rest := Lex(code), code;
    PrependNone(all);
    while i < |code|
      invariant 0 <= i <= |code| && rest == code[i..]
      invariant all == Prepend(tokens, Lex(rest))
      decreases |code| - i
    {
      var x := ReadToken(code, i);
      LexStep(rest, tokens, x);
      if x.EndOfCode? { return Ok(tokens); }
      if x.Fail? { return Err(x.error); }
      var length := 1;
      if x.Emit? {
        tokens := tokens + [x.tok];
        length := x.length;
      }
      i := i + length;
      rest := rest[length..];
    }
    assert Lex(rest) == Ok([]) && tokens + [] == tokens;
    return Ok(tokens);
  }
}
