/** Wrapping a commit message greedily at 80 characters. */
module CommitWrap {
  import opened Text

  const WIDTH := 80

  /** Each \r\n, \n and \r becomes one space. */
  function BreaksToSpaces(s: string): string {
    if s == [] then []
    else if s[0] == '\r' && |s| > 1 && s[1] == '\n' then " " + BreaksToSpaces(s[2..])
    else if s[0] == '\n' || s[0] == '\r' then " " + BreaksToSpaces(s[1..])
    else [s[0]] + BreaksToSpaces(s[1..])
  }

  /** Pieces of text with line breaks in between. */
  function Broken(pieces: seq<string>, breaks: seq<string>): string
    requires |pieces| == |breaks| + 1
  {
    if breaks == [] then pieces[0] else pieces[0] + (breaks[0] + Broken(pieces[1..], breaks[1..]))
  }

  function Spaced(pieces: seq<string>): string
    requires pieces != []
  {
    if |pieces| == 1 then pieces[0] else pieces[0] + (" " + Spaced(pieces[1..]))
  }

  lemma {:induction false} NoBreakStays(piece: string, rest: string)
    requires '\r' !in piece && '\n' !in piece
    ensures BreaksToSpaces(piece + rest) == piece + BreaksToSpaces(rest)
  {
    if piece == "" {
      assert piece + rest == rest;
    } else {
      NoBreakStays(piece[1..], rest);
      assert piece + rest == [piece[0]] + (piece[1..] + rest);
      OneCharStays(piece[0], piece[1..] + rest);
      assert [piece[0]] + (piece[1..] + BreaksToSpaces(rest)) == piece + BreaksToSpaces(rest);
    }
  }

  lemma OneCharStays(c: char, rest: string)
    requires c != '\r' && c != '\n'
    ensures BreaksToSpaces([c] + rest) == [c] + BreaksToSpaces(rest)
  {
    assert ([c] + rest)[1..] == rest;
  }

  lemma BreakBecomesSpace(brk: string, rest: string)
    requires brk in ["\r\n", "\n", "\r"] && (brk == "\r" ==> rest == "" || rest[0] != '\n')
    ensures BreaksToSpaces(brk + rest) == " " + BreaksToSpaces(rest)
  {
    assert (brk + rest)[|brk|..] == rest;
  }

  /** Whatever breaks there are between pieces of text without breaks, each becomes one space. A lone \r in front of
      \n is no break of its own. */
  lemma {:induction false} BreaksBecomeSpaces(pieces: seq<string>, breaks: seq<string>)
    requires |pieces| == |breaks| + 1
    requires forall k :: 0 <= k < |pieces| ==> '\r' !in pieces[k] && '\n' !in pieces[k]
    requires forall k :: 0 <= k < |breaks| ==> breaks[k] in ["\r\n", "\n", "\r"]
    requires forall k :: 0 < k < |breaks| && pieces[k] == "" && breaks[k] == "\n" ==> breaks[k - 1] != "\r"
    ensures BreaksToSpaces(Broken(pieces, breaks)) == Spaced(pieces)
  {
    if breaks == [] {
      NoBreakStays(pieces[0], "");
      assert pieces[0] + "" == pieces[0];
    } else {
      var ps, bs := pieces[1..], breaks[1..];
      assert forall k :: 0 <= k < |bs| ==> bs[k] == breaks[k + 1];
      assert forall k :: 0 <= k < |ps| ==> ps[k] == pieces[k + 1];
      BreaksBecomeSpaces(ps, bs);
      var rest := Broken(ps, bs);
      NoBreakStays(pieces[0], breaks[0] + rest);
      if rest != "" && ps[0] == "" && bs != [] { assert rest == bs[0] + Broken(ps[1..], bs[1..]); }
      BreakBecomesSpace(breaks[0], rest);
    }
  }

  function Trimmed(s: string): string { Trim(BreaksToSpaces(s)) }

  /** split(' ') */
  function Words(s: string): (ws: seq<string>)
    ensures ws != [] && forall k :: 0 <= k < |ws| ==> ' ' !in ws[k]
  {
    var n := Until(s, ' ');
    if n == |s| then [s] else [s[..n]] + Words(s[n + 1..])
  }

  /** A line under construction: each word with a space after it. */
  function LineText(line: seq<string>): string {
    if line == [] then "" else LineText(line[..|line| - 1]) + line[|line| - 1] + " "
  }

  predicate Takes(line: seq<string>, word: string) { |LineText(line)| + |word| <= WIDTH }

  /** The lines that the greedy rule makes of `words` when `line` is under construction. */
  function Lines(words: seq<string>, line: seq<string>): (r: seq<seq<string>>)
    ensures r != []
  {
    if words == [] then [line]
    else if Takes(line, words[0]) then Lines(words[1..], line + [words[0]])
    else [line] + Lines(words[1..], [words[0]])
  }

  function Joined(lines: seq<seq<string>>): string
    requires lines != []
  {
    if |lines| == 1 then LineText(lines[0]) else LineText(lines[0]) + "\n" + Joined(lines[1..])
  }

  function Formatted(s: string): string {
    var t := Trimmed(s);
    if t == "" then "" else Joined(Lines(Words(t), []))
  }

  method FormatCommitMessage(s: string) returns (formatted: string)
    ensures formatted == Formatted(s)
  {
    formatted := "";
    var line := "";
    var trim := Trimmed(s);
    if trim == "" { return ""; }
    var words := Words(trim);
    ghost var lineWords := [];
    assert words[0..] == words;
    for i := 0 to |words|
      invariant line == LineText(lineWords)
      invariant Pending(formatted, words[i..], lineWords) == Formatted(s)
    {
      NextWord(formatted, words, i, lineWords);
      if |line + words[i]| <= WIDTH {
        line := line + words[i] + " ";
        lineWords := lineWords + [words[i]];
      } else {
        formatted := formatted + line + "\n";
        line := words[i] + " ";
        lineWords := [words[i]];
      }
    }
    formatted := formatted + line;
  }

  /** The result, from the text so far, the words to come and the line under construction. */
  ghost function Pending(before: string, words: seq<string>, line: seq<string>): string {
    before + Joined(Lines(words, line))
  }

  lemma NextWord(before: string, words: seq<string>, i: nat, line: seq<string>)
    requires i < |words|
    ensures Pending(before, words[i..], line) ==
            if Takes(line, words[i]) then Pending(before, words[i + 1..], line + [words[i]])
            else Pending(before + LineText(line) + "\n", words[i + 1..], [words[i]])
    ensures LineText(line + [words[i]]) == LineText(line) + words[i] + " "
    ensures LineText([words[i]]) == words[i] + " "
  {
    assert words[i..][1..] == words[i + 1..];
    if !Takes(line, words[i]) {
      BreakLine(words[i..], line);
      Associate(before, LineText(line), "\n", Joined(Lines(words[i + 1..], [words[i]])));
    }
    assert (line + [words[i]])[..|line|] == line;
    assert LineText([words[i]]) == LineText([]) + words[i] + " ";
  }

  lemma Associate(a: string, b: string, c: string, d: string)
    ensures a + (b + c + d) == (a + b + c) + d
  {}

  lemma BreakLine(words: seq<string>, line: seq<string>)
    requires words != [] && !Takes(line, words[0])
    ensures Joined(Lines(words, line)) == LineText(line) + "\n" + Joined(Lines(words[1..], [words[0]]))
  {
    var rest := Lines(words[1..], [words[0]]);
    assert ([line] + rest)[1..] == rest;
  }

  // ----- Nothing is lost -----

  function Unbroken(s: string): string {
    if s == [] then [] else (if s[0] == '\n' then [] else [s[0]]) + Unbroken(s[1..])
  }

  lemma {:induction false} UnbrokenAppend(a: string, b: string)
    ensures Unbroken(a + b) == Unbroken(a) + Unbroken(b)
  {
    if a == [] {
      assert a + b == b;
    } else {
      UnbrokenAppend(a[1..], b);
      assert (a + b)[1..] == a[1..] + b;
      var head := if a[0] == '\n' then [] else [a[0]];
      assert head + (Unbroken(a[1..]) + Unbroken(b)) == (head + Unbroken(a[1..])) + Unbroken(b);
    }
  }

  lemma {:induction false} UnbrokenPlain(s: string)
    requires '\n' !in s
    ensures Unbroken(s) == s
  {
    if s != [] { UnbrokenPlain(s[1..]); }
  }

  ghost predicate NoBreaks(words: seq<string>) { forall k :: 0 <= k < |words| ==> '\n' !in words[k] }

  lemma {:induction false} LineTextPlain(line: seq<string>)
    requires NoBreaks(line)
    ensures '\n' !in LineText(line)
  {
    if line != [] { LineTextPlain(line[..|line| - 1]); }
  }

  lemma {:induction false} LineTextAppend(a: seq<string>, b: seq<string>)
    ensures LineText(a + b) == LineText(a) + LineText(b)
  {
    if b == [] {
      assert a + b == a;
    } else {
      var b1 := b[..|b| - 1];
      assert (a + b)[..|a + b| - 1] == a + b1;
      LineTextAppend(a, b1);
    }
  }

  /** Without its line breaks the text is all the words, each with a space after it. */
  lemma {:induction false} JoinedUnbroken(words: seq<string>, line: seq<string>)
    requires NoBreaks(words) && NoBreaks(line)
    ensures Unbroken(Joined(Lines(words, line))) == LineText(line + words)
  {
    if words == [] {
      LineTextPlain(line);
      UnbrokenPlain(LineText(line));
      assert line + words == line;
    } else {
      var w, rest := words[0], words[1..];
      assert '\n' !in w;
      assert line + words == (line + [w]) + rest == line + ([w] + rest);
      if Takes(line, w) {
        JoinedUnbroken(rest, line + [w]);
      } else {
        JoinedUnbroken(rest, [w]);
        BreakLine(words, line);
        BreakUnbroken(line, Joined(Lines(rest, [w])));
        LineTextAppend(line, [w] + rest);
      }
    }
  }

  lemma BreakUnbroken(line: seq<string>, t: string)
    requires NoBreaks(line)
    ensures Unbroken(LineText(line) + "\n" + t) == LineText(line) + Unbroken(t)
  {
    LineTextPlain(line);
    UnbrokenPlain(LineText(line));
    var u := "\n" + t;
    assert u[1..] == t;
    UnbrokenAppend(LineText(line), u);
    assert LineText(line) + "\n" + t == LineText(line) + u;
  }

  lemma {:induction false} WordsText(s: string)
    ensures LineText(Words(s)) == s + " "
  {
    var n := Until(s, ' ');
    OneWordText(s[..n]);
    if n == |s| {
      assert s[..n] == s;
    } else {
      var rest := s[n + 1..];
      WordsText(rest);
      LineTextAppend([s[..n]], Words(rest));
      SplitText(s, n);
    }
  }

  lemma {:induction false} WordsHaveNoBreaks(s: string)
    requires '\n' !in s
    ensures NoBreaks(Words(s))
  {
    var n := Until(s, ' ');
    if n < |s| { WordsHaveNoBreaks(s[n + 1..]); }
  }

  lemma OneWordText(w: string)
    ensures LineText([w]) == w + " "
  {
    assert LineText([w]) == LineText([]) + w + " ";
  }

  lemma SplitText(s: string, n: nat)
    requires n < |s| && s[n] == ' '
    ensures (s[..n] + " ") + (s[n + 1..] + " ") == s + " "
  {}

  lemma {:induction false} SpacesHaveNoBreaks(s: string)
    ensures '\n' !in BreaksToSpaces(s)
  {
    if s != [] {
      if s[0] == '\r' && |s| > 1 && s[1] == '\n' { SpacesHaveNoBreaks(s[2..]); } else { SpacesHaveNoBreaks(s[1..]); }
    }
  }

  lemma {:induction false} TrimKeepsOut(s: string, c: char)
    requires c !in s
    ensures c !in TrimStart(s) && c !in TrimEnd(s)
  {
    if s != [] {
      TrimKeepsOut(s[1..], c);
      TrimKeepsOut(s[..|s| - 1], c);
    }
  }

  /** Taking the line breaks out of the result gives the trimmed message and one space. */
  lemma WrapIsLossless(s: string)
    requires Trimmed(s) != ""
    ensures Unbroken(Formatted(s)) == Trimmed(s) + " "
  {
    var b := BreaksToSpaces(s);
    SpacesHaveNoBreaks(s);
    TrimKeepsOut(b, '\n');
    TrimKeepsOut(TrimStart(b), '\n');
    var words := Words(Trimmed(s));
    WordsText(Trimmed(s));
    WordsHaveNoBreaks(Trimmed(s));
    JoinedUnbroken(words, []);
    assert [] + words == words;
  }

  // ----- Lines are short, and as few as can be -----

  function Flatten(lines: seq<seq<string>>): seq<string> {
    if lines == [] then [] else lines[0] + Flatten(lines[1..])
  }

  /** A line within the width, its trailing space apart, or one long word. */
  predicate Fits(line: seq<string>) { |LineText(line)| <= 81 || |line| == 1 }

  predicate AllFit(lines: seq<seq<string>>) { forall k :: 0 <= k < |lines| ==> Fits(lines[k]) }

  lemma {:induction false} GreedyLinesFit(words: seq<string>, line: seq<string>)
    requires Fits(line)
    ensures AllFit(Lines(words, line)) && Flatten(Lines(words, line)) == line + words
  {
    if words == [] {
      assert Flatten([line]) == line + Flatten([]);
    } else {
      var w, rest := words[0], words[1..];
      MoveWord(line, w, rest, words);
      if Takes(line, w) {
        assert (line + [w])[..|line|] == line;
        GreedyLinesFit(rest, line + [w]);
      } else {
        GreedyLinesFit(rest, [w]);
        PutFirst(line, Lines(rest, [w]));
      }
    }
  }

  lemma MoveWord(line: seq<string>, w: string, rest: seq<string>, words: seq<string>)
    requires words != [] && w == words[0] && rest == words[1..]
    ensures line + words == (line + [w]) + rest && line + words == line + ([w] + rest)
  {}

  lemma PutFirst(line: seq<string>, lines: seq<seq<string>>)
    requires Fits(line) && AllFit(lines)
    ensures AllFit([line] + lines) && Flatten([line] + lines) == line + Flatten(lines)
  {
    assert ([line] + lines)[1..] == lines;
  }

  /** Starting from a fuller line makes no fewer lines, and from any line at most one more. */
  lemma {:induction false} FullerMakesMore(words: seq<string>, a: seq<string>, b: seq<string>)
    ensures |LineText(a)| <= |LineText(b)| ==> |Lines(words, a)| <= |Lines(words, b)|
    ensures |Lines(words, b)| <= 1 + |Lines(words, a)|
  {
    if words != [] {
      var w, rest := words[0], words[1..];
      LineTextAppend(a, [w]);
      LineTextAppend(b, [w]);
      LineTextAppend([], [w]);
      FullerMakesMore(rest, a + [w], b + [w]);
      FullerMakesMore(rest, [w], b + [w]);
      FullerMakesMore(rest, [w], a + [w]);
      assert [] + [w] == [w];
    }
  }

  /** Words that make a line that fits are all taken into it. */
  lemma {:induction false} FittingLineIsTaken(line: seq<string>, more: seq<string>, words: seq<string>)
    requires |LineText(line + more)| <= WIDTH + 1
    ensures Lines(more + words, line) == Lines(words, line + more)
    decreases |more|
  {
    if more == [] {
      assert more + words == words && line + more == line;
    } else {
      var w := more[0];
      assert line + more == (line + [w]) + more[1..];
      LineTextAppend(line + [w], more[1..]);
      LineTextAppend(line, [w]);
      assert LineText([w]) == LineText([]) + w + " ";
      assert (more + words)[1..] == more[1..] + words;
      FittingLineIsTaken(line + [w], more[1..], words);
    }
  }

  /** The greedy lines of some words, not counting an empty line before a long first word. */
  function Greedy(words: seq<string>): seq<seq<string>>
    requires words != []
  {
    Lines(words[1..], [words[0]])
  }

  /** No way to cut the words into lines that fit has fewer lines. */
  lemma {:induction false} GreedyIsOptimal(words: seq<string>, other: seq<seq<string>>)
    requires words != [] && AllFit(other) && Flatten(other) == words
    ensures |Greedy(words)| <= |other|
    decreases |other|
  {
    assert other != [];
    var g, others := other[0], other[1..];
    var rest := Flatten(others);
    assert AllFit(others) by { assert forall k :: 0 <= k < |others| ==> others[k] == other[k + 1]; }
    if g == [] {
      assert rest == words;
      GreedyIsOptimal(words, others);
    } else {
      FirstLineIsTaken(g, rest);
      if rest != [] {
        var w, tail := rest[0], rest[1..];
        GreedyIsOptimal(rest, others);
        FullerMakesMore(tail, [w], g + [w]);
        assert Lines(rest, g) == if Takes(g, w) then Lines(tail, g + [w]) else [g] + Greedy(rest);
      }
    }
  }

  lemma FirstLineIsTaken(g: seq<string>, rest: seq<string>)
    requires g != [] && Fits(g)
    ensures Greedy(g + rest) == Lines(rest, g)
  {
    var words := g + rest;
    var more := g[1..];
    assert words[1..] == more + rest && words[0] == g[0];
    assert [g[0]] + more == g;
    assert Greedy(words) == Lines(more + rest, [g[0]]);
    if |g| == 1 {
      assert more + rest == rest;
      assert [g[0]] == g;
    } else {
      FittingLineIsTaken([g[0]], more, rest);
    }
  }

  /** The result is the greedy lines, after one empty line when the first word alone is too long. */
  lemma LinesFromStart(words: seq<string>)
    requires words != []
    ensures Lines(words, []) == (if |words[0]| <= 80 then [] else [[]]) + Greedy(words)
  {
    assert [] + [words[0]] == [words[0]];
  }

  /** Wrapping keeps all words in order and every line fits; and no other way to cut the words into lines
      that fit has fewer lines, exactly when the first word is not too long itself. */
  lemma WrapIsOptimal(words: seq<string>)
    requires words != []
    ensures AllFit(Lines(words, [])) && Flatten(Lines(words, [])) == words
    ensures (forall other :: AllFit(other) && Flatten(other) == words ==> |Lines(words, [])| <= |other|)
            <==> |words[0]| <= 80
  {
    GreedyLinesFit(words, []);
    assert [] + words == words;
    LinesFromStart(words);
    GreedyLinesFit(words[1..], [words[0]]);
    assert [words[0]] + words[1..] == words;
    forall other | AllFit(other) && Flatten(other) == words ensures |Greedy(words)| <= |other| {
      GreedyIsOptimal(words, other);
    }
    if |words[0]| > WIDTH {
      assert AllFit(Greedy(words)) && Flatten(Greedy(words)) == words && |Greedy(words)| < |Lines(words, [])|;
    }
  }

  // ----- The lines of the text -----

  /** split('\n') */
  function TextLines(s: string): seq<string> {
    var n := Until(s, '\n');
    if n == |s| then [s] else [s[..n]] + TextLines(s[n + 1..])
  }

  function Texts(lines: seq<seq<string>>): (texts: seq<string>)
    ensures |texts| == |lines| && forall k :: 0 <= k < |lines| ==> texts[k] == LineText(lines[k])
  {
    seq(|lines|, k requires 0 <= k < |lines| => LineText(lines[k]))
  }

  lemma OneTextLine(line: string, rest: string)
    requires '\n' !in line
    ensures TextLines(line) == [line] && TextLines(line + "\n" + rest) == [line] + TextLines(rest)
  {
    var all := line + "\n" + rest;
    assert all[|line|] == '\n' && forall k :: 0 <= k < |line| ==> all[k] == line[k];
    assert all[..|line|] == line && all[|line| + 1..] == rest;
  }

  lemma {:induction false} JoinedSplits(lines: seq<seq<string>>)
    requires lines != [] && forall k :: 0 <= k < |lines| ==> NoBreaks(lines[k])
    ensures TextLines(Joined(lines)) == Texts(lines)
  {
    LineTextPlain(lines[0]);
    if |lines| == 1 {
      OneTextLine(LineText(lines[0]), "");
      assert Texts(lines) == [LineText(lines[0])];
    } else {
      JoinedSplits(lines[1..]);
      OneTextLine(LineText(lines[0]), Joined(lines[1..]));
      assert Texts(lines) == [LineText(lines[0])] + Texts(lines[1..]);
    }
  }

  lemma {:induction false} LinesHaveNoBreaks(words: seq<string>, line: seq<string>)
    requires NoBreaks(words) && NoBreaks(line)
    ensures forall k :: 0 <= k < |Lines(words, line)| ==> NoBreaks(Lines(words, line)[k])
  {
    if words != [] {
      LinesHaveNoBreaks(words[1..], line + [words[0]]);
      LinesHaveNoBreaks(words[1..], [words[0]]);
    }
  }

  /** The lines of the result are the lines that the words were cut into, each word with a space after it. */
  lemma ResultHasTheseLines(s: string)
    requires Trimmed(s) != ""
    ensures TextLines(Formatted(s)) == Texts(Lines(Words(Trimmed(s)), []))
  {
    var words := Words(Trimmed(s));
    SpacesHaveNoBreaks(s);
    TrimKeepsOut(BreaksToSpaces(s), '\n');
    TrimKeepsOut(TrimStart(BreaksToSpaces(s)), '\n');
    WordsHaveNoBreaks(Trimmed(s));
    LinesHaveNoBreaks(words, []);
    JoinedSplits(Lines(words, []));
  }
}
