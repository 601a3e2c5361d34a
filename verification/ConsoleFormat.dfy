/** Normalizing a console format string so that it takes exactly the arguments that are there. */
module ConsoleFormat {

  /** An argument; only its being a string matters here. */
  datatype Arg = StringArg | OtherArg

  /** The specifiers of the Formatter operation, section 2.2 of the WHATWG Console Standard, and `c`. */
  predicate IsSpecifier(c: char) { c in "Ocdfios" }

  lemma SpecifierLetters(c: char)
    ensures IsSpecifier(c) <==> c == 'O' || c == 'c' || c == 'd' || c == 'f' || c == 'i' || c == 'o' || c == 's'
  {}

  predicate AtPair(s: string) { |s| >= 2 && s[0] == '%' }

  function Left(total: nat, next: nat): nat { if next < total then total - next else 0 }

  /** The format with `n` arguments left: a specifier without an argument gets its percent sign doubled. */
  function Escaped(s: string, n: nat): string {
    if |s| < 2 then s
    else if s[0] != '%' then [s[0]] + Escaped(s[1..], n)
    else if !IsSpecifier(s[1]) then s[..2] + Escaped(s[2..], n)
    else if n > 0 then s[..2] + Escaped(s[2..], n - 1)
    else "%%" + [s[1]] + Escaped(s[2..], 0)
  }

  /** How many of `n` arguments the format takes. */
  function Taken(s: string, n: nat): (k: nat)
    ensures k <= n
  {
    if |s| < 2 then 0
    else if s[0] != '%' then Taken(s[1..], n)
    else if IsSpecifier(s[1]) && n > 0 then 1 + Taken(s[2..], n - 1)
    else Taken(s[2..], n)
  }

  function PadSpecifier(a: Arg): char { if a.StringArg? then 's' else 'o' }

  /** One specifier for each argument from `next` on, each after a space unless it comes first of all. */
  function Padding(args: seq<Arg>, next: nat, first: bool): string
    decreases |args| - next
  {
    if next >= |args| then ""
    else
      var c := PadSpecifier(args[next]);
      (if first then ['%', c] else [' ', '%', c]) + Padding(args, next + 1, false)
  }

  function Normalized(format: string, args: seq<Arg>, firstArg: nat): string {
    var n := Left(|args|, firstArg);
    Escaped(format, n) + Padding(args, firstArg + Taken(format, n), format == [])
  }

  /** The scanning loop; `j` is the first argument that no specifier took. */
  method EscapeSpecifiers(format: string, total: nat, firstArg: nat) returns (r: string, j: nat)
    ensures var n := Left(total, firstArg); r == Escaped(format, n) && j == firstArg + Taken(format, n)
  {
    j := firstArg;
    var last := 0;
    r := "";
    var i := 0;
    ghost var n := Left(total, firstArg);
    PendingStarts(format, n);
    while i + 1 < |format|
      invariant 0 <= last <= i <= |format| && firstArg <= j
      invariant Pending(format, last, i, r, Left(total, j)) == Escaped(format, n)
      invariant firstArg + Taken(format, n) == j + Taken(format[i..], Left(total, j))
      decreases |format| - i
    {
      if format[i] != '%' {
        KeepOne(format, last, i, r, Left(total, j));
        i := i + 1;
        continue;
      }
      i := i + 1;
      if IsSpecifier(format[i]) && j >= total {
        DoublePercent(format, last, i - 1, r);
        r := r + format[last..i] + "%";
        last := i;
      } else {
        KeepPair(format, last, i - 1, r, Left(total, j));
        if IsSpecifier(format[i]) { j := j + 1; }
      }
      i := i + 1;
    }
    PendingEnds(format, last, i, r, Left(total, j));
    r := r + format[last..];
  }

  lemma PendingEnds(format: string, last: nat, i: nat, r: string, n: nat)
    requires last <= i <= |format| <= i + 1
    ensures Pending(format, last, i, r, n) == r + format[last..] && Taken(format[i..], n) == 0
  {
    assert format[last..] == format[last..i] + format[i..];
  }

  lemma PendingStarts(format: string, n: nat)
    ensures Pending(format, 0, 0, "", n) == Escaped(format, n) && format[0..] == format
  {}

  /** What the result will be: `r`, the slice that is not appended yet, and what is still to be scanned. */
  ghost function Pending(format: string, last: nat, i: nat, r: string, n: nat): string
    requires last <= i <= |format|
  {
    r + (format[last..i] + Escaped(format[i..], n))
  }

  method NormalizeConsoleFormat(format: string, args: seq<Arg>, firstArg: nat) returns (r: string)
    ensures r == Normalized(format, args, firstArg)
  {
    var j;
    r, j := EscapeSpecifiers(format, |args|, firstArg);
    EscapedEmpty(format, Left(|args|, firstArg));
    ghost var all := r + Padding(args, j, r == []);
    while j < |args|
      invariant all == r + Padding(args, j, r == [])
      decreases |args| - j
    {
      PaddingStep(args, j, r);
      if r != "" {
        r := r + " ";
      }
      r := r + if args[j].StringArg? then "%s" else "%o";
      j := j + 1;
    }
  }

  lemma PaddingStep(args: seq<Arg>, j: nat, r: string)
    requires j < |args|
    ensures var sep := if r != "" then r + " " else r;
            r + Padding(args, j, r == []) == (sep + ['%', PadSpecifier(args[j])]) + Padding(args, j + 1, false)
  {}

  /** Steps of the scan: a plain character and a kept pair stay in the pending slice, a doubled percent sign ends it. */
  lemma KeepOne(format: string, last: nat, i: nat, r: string, n: nat)
    requires last <= i && i + 1 < |format| && format[i] != '%'
    ensures Pending(format, last, i, r, n) == Pending(format, last, i + 1, r, n)
    ensures Taken(format[i..], n) == Taken(format[i + 1..], n)
  {
    assert format[i..][1..] == format[i + 1..];
    assert format[last..i + 1] == format[last..i] + [format[i]];
  }

  lemma KeepPair(format: string, last: nat, i: nat, r: string, n: nat)
    requires last <= i && i + 1 < |format| && format[i] == '%' && (IsSpecifier(format[i + 1]) ==> n > 0)
    ensures var n1 := if IsSpecifier(format[i + 1]) then n - 1 else n;
            && Pending(format, last, i, r, n) == Pending(format, last, i + 2, r, n1)
            && Taken(format[i..], n) == n - n1 + Taken(format[i + 2..], n1)
  {
    var s, n1 := format[i..], if IsSpecifier(format[i + 1]) then n - 1 else n;
    assert s[2..] == format[i + 2..];
    assert format[last..i + 2] == format[last..i] + s[..2];
    PairIsKept(s, n);
    TextAssociates(format[last..i], s[..2], Escaped(s[2..], n1));
  }

  lemma PairIsKept(s: string, n: nat)
    requires AtPair(s) && (IsSpecifier(s[1]) ==> n > 0)
    ensures var n1 := if IsSpecifier(s[1]) then n - 1 else n;
            Escaped(s, n) == s[..2] + Escaped(s[2..], n1) && Taken(s, n) == n - n1 + Taken(s[2..], n1)
  {}

  lemma TextAssociates(a: string, b: string, c: string)
    ensures a + (b + c) == (a + b) + c
  {}

  lemma DoublePercent(format: string, last: nat, i: nat, r: string)
    requires last <= i && i + 1 < |format| && format[i] == '%' && IsSpecifier(format[i + 1])
    ensures Pending(format, last, i, r, 0) == Pending(format, i + 1, i + 2, r + format[last..i + 1] + "%", 0)
    ensures Taken(format[i..], 0) == Taken(format[i + 2..], 0) == 0
  {
    assert format[i..][2..] == format[i + 2..];
    assert format[last..i + 1] == format[last..i] + "%";
  }

  lemma {:induction false} EscapedEmpty(s: string, n: nat)
    ensures Escaped(s, n) == [] <==> s == []
  {}

  // ----- What a format string prints -----

  /** A printed character, or argument number k under a specifier. */
  datatype Piece = Char(c: char) | Value(k: nat, specifier: char)

  /** Left to right: %% is a percent sign, a specifier takes the next argument, and anything else,
      a specifier without an argument included, prints as it is. */
  function Printed(s: string, next: nat, total: nat): seq<Piece> {
    if s == [] then []
    else if AtPair(s) && s[1] == '%' then [Char('%')] + Printed(s[2..], next, total)
    else if AtPair(s) && IsSpecifier(s[1]) && next < total then [Value(next, s[1])] + Printed(s[2..], next + 1, total)
    else [Char(s[0])] + Printed(s[1..], next, total)
  }

  /** The arguments from `next` on, strings as strings and others as objects, each after a space unless it comes first
      of all. */
  function Appended(args: seq<Arg>, next: nat, first: bool): seq<Piece>
    decreases |args| - next
  {
    if next >= |args| then []
    else
      var v := Value(next, if args[next] == StringArg then 's' else 'o');
      (if first then [v] else [Char(' '), v]) + Appended(args, next + 1, false)
  }

  /** A character that starts no pair prints as itself. */
  lemma PlainPrints(c: char, rest: string, next: nat, total: nat)
    requires c != '%' || rest == [] || rest[0] == ' '
    ensures Printed([c] + rest, next, total) == [Char(c)] + Printed(rest, next, total)
  {
    var s := [c] + rest;
    assert s[1..] == rest;
  }

  lemma PairPrints(c: char, rest: string, next: nat, total: nat)
    ensures Printed(['%', c] + rest, next, total) ==
            if c == '%' then [Char('%')] + Printed(rest, next, total)
            else if IsSpecifier(c) && next < total then [Value(next, c)] + Printed(rest, next + 1, total)
            else [Char('%'), Char(c)] + Printed(rest, next, total)
  {
    var s := ['%', c] + rest;
    assert s[2..] == rest;
    if c != '%' && !(IsSpecifier(c) && next < total) {
      assert s[1..] == [c] + rest;
      PlainPrints(c, rest, next, total);
    }
  }

  lemma {:induction false} EscapedPrints(s: string, next: nat, total: nat, tail: string)
    requires s != [] ==> tail == [] || tail[0] == ' '
    ensures var n := Left(total, next);
            Printed(Escaped(s, n) + tail, next, total)
            == Printed(s, next, total) + Printed(tail, next + Taken(s, n), total)
  {
    if |s| < 2 {
      ShortPrints(s, next, total, tail);
    } else {
      var k, next1, head := OneStep(s, next, total, tail);
      EscapedPrints(s[k..], next1, total, tail);
      var rest, end := Printed(s[k..], next1, total), Printed(tail, next1 + Taken(s[k..], Left(total, next1)), total);
      assert Printed(Escaped(s, Left(total, next)) + tail, next, total) == head + (rest + end);
      AppendAssociates(head, rest, end);
    }
  }

  lemma ShortPrints(s: string, next: nat, total: nat, tail: string)
    requires |s| < 2 && (s != [] ==> tail == [] || tail[0] == ' ')
    ensures Printed(s + tail, next, total) == Printed(s, next, total) + Printed(tail, next, total)
  {
    if s == [] {
      assert s + tail == tail;
    } else {
      PlainPrints(s[0], tail, next, total);
      PlainPrints(s[0], [], next, total);
      assert s == [s[0]] + [];
    }
  }

  lemma AppendAssociates(a: seq<Piece>, b: seq<Piece>, c: seq<Piece>)
    ensures a + (b + c) == (a + b) + c
  {}

  /** One step of the scan: k characters become `head`, escaped or not. */
  lemma OneStep(s: string, next: nat, total: nat, tail: string) returns (k: nat, next1: nat, head: seq<Piece>)
    requires |s| >= 2
    ensures 1 <= k <= 2
    ensures next1 + Taken(s[k..], Left(total, next1)) == next + Taken(s, Left(total, next))
    ensures Printed(s, next, total) == head + Printed(s[k..], next1, total)
    ensures Printed(Escaped(s, Left(total, next)) + tail, next, total)
            == head + Printed(Escaped(s[k..], Left(total, next1)) + tail, next1, total)
  {
    var n := Left(total, next);
    if s[0] != '%' {
      k, next1, head := 1, next, [Char(s[0])];
      var rest := Escaped(s[1..], n) + tail;
      PlainPrints(s[0], rest, next, total);
      assert Escaped(s, n) + tail == [s[0]] + rest;
    } else if IsSpecifier(s[1]) && n == 0 {
      k, next1, head := 2, next, [Char('%'), Char(s[1])];
      var rest := Escaped(s[2..], 0) + tail;
      NoArgumentPrints(s, next, total, rest);
      assert Escaped(s, n) + tail == "%%" + [s[1]] + rest;
    } else {
      next1, head := KeptStep(s, next, total, tail);
      k := 2;
    }
  }

  lemma KeptStep(s: string, next: nat, total: nat, tail: string) returns (next1: nat, head: seq<Piece>)
    requires AtPair(s) && (IsSpecifier(s[1]) ==> next < total)
    ensures next1 + Taken(s[2..], Left(total, next1)) == next + Taken(s, Left(total, next))
    ensures Printed(s, next, total) == head + Printed(s[2..], next1, total)
    ensures Printed(Escaped(s, Left(total, next)) + tail, next, total)
            == head + Printed(Escaped(s[2..], Left(total, next1)) + tail, next1, total)
  {
    next1 := if IsSpecifier(s[1]) then next + 1 else next;
    head := if s[1] == '%' then [Char('%')]
            else if IsSpecifier(s[1]) then [Value(next, s[1])]
            else [Char('%'), Char(s[1])];
    var rest := Escaped(s[2..], Left(total, next1)) + tail;
    KeptPairPrints(s, next, total, rest);
    PairIsKept(s, Left(total, next));
    KeptText(s, Escaped(s[2..], Left(total, next1)), tail);
  }

  lemma KeptText(s: string, rest: string, tail: string)
    requires AtPair(s)
    ensures s[..2] + rest + tail == ['%', s[1]] + (rest + tail)
  {}

  /** A specifier without an argument, before and after its percent sign is doubled. */
  lemma NoArgumentPrints(s: string, next: nat, total: nat, rest: string)
    requires AtPair(s) && IsSpecifier(s[1]) && next >= total
    ensures Printed("%%" + [s[1]] + rest, next, total) == [Char('%'), Char(s[1])] + Printed(rest, next, total)
    ensures Printed(s, next, total) == [Char('%'), Char(s[1])] + Printed(s[2..], next, total)
  {
    DoubledPrints(s[1], rest, next, total);
    PairPrints(s[1], s[2..], next, total);
    assert s == ['%', s[1]] + s[2..];
  }

  lemma DoubledPrints(c: char, rest: string, next: nat, total: nat)
    requires IsSpecifier(c)
    ensures Printed("%%" + [c] + rest, next, total) == [Char('%'), Char(c)] + Printed(rest, next, total)
  {
    PairPrints('%', [c] + rest, next, total);
    PlainPrints(c, rest, next, total);
    assert "%%" + [c] + rest == ['%', '%'] + ([c] + rest);
    AppendAssociates([Char('%')], [Char(c)], Printed(rest, next, total));
  }

  /** A pair that is kept prints the same in front of any text. */
  lemma KeptPairPrints(s: string, next: nat, total: nat, rest: string)
    requires AtPair(s) && (IsSpecifier(s[1]) ==> next < total)
    ensures var next1 := if IsSpecifier(s[1]) then next + 1 else next;
            var head := if s[1] == '%' then [Char('%')] else if IsSpecifier(s[1]) then [Value(next, s[1])]
                        else [Char('%'), Char(s[1])];
            && Printed(['%', s[1]] + rest, next, total) == head + Printed(rest, next1, total)
            && Printed(s, next, total) == head + Printed(s[2..], next1, total)
  {
    PairPrints(s[1], rest, next, total);
    PairPrints(s[1], s[2..], next, total);
    assert s == ['%', s[1]] + s[2..];
  }

  lemma PadPrints(c: char, rest: string, next: nat, total: nat)
    requires next < total && IsSpecifier(c)
    ensures Printed(['%', c] + rest, next, total) == [Value(next, c)] + Printed(rest, next + 1, total)
    ensures Printed([' ', '%', c] + rest, next, total) == [Char(' '), Value(next, c)] + Printed(rest, next + 1, total)
  {
    PairPrints(c, rest, next, total);
    PlainPrints(' ', ['%', c] + rest, next, total);
    assert [' ', '%', c] + rest == [' '] + (['%', c] + rest);
  }

  lemma {:induction false} PaddingPrints(args: seq<Arg>, next: nat, first: bool)
    ensures Printed(Padding(args, next, first), next, |args|) == Appended(args, next, first)
    decreases |args| - next
  {
    if next < |args| {
      PaddingPrints(args, next + 1, false);
      PadPrints(PadSpecifier(args[next]), Padding(args, next + 1, false), next, |args|);
    }
  }

  /** Normalizing prints what the original prints, followed by each argument it did not take. */
  lemma NormalizingPreservesMeaning(format: string, args: seq<Arg>, firstArg: nat)
    ensures var n := Left(|args|, firstArg);
            Printed(Normalized(format, args, firstArg), firstArg, |args|)
            == Printed(format, firstArg, |args|) + Appended(args, firstArg + Taken(format, n), format == [])
  {
    var next := firstArg + Taken(format, Left(|args|, firstArg));
    EscapedPrints(format, firstArg, |args|, Padding(args, next, format == []));
    PaddingPrints(args, next, format == []);
  }

  // ----- How many specifiers it has -----

  function Specifiers(s: string): nat {
    if |s| < 2 then 0
    else if s[0] != '%' then Specifiers(s[1..])
    else (if IsSpecifier(s[1]) then 1 else 0) + Specifiers(s[2..])
  }

  lemma PairCounts(c: char, rest: string)
    ensures Specifiers(['%', c] + rest) == (if IsSpecifier(c) then 1 else 0) + Specifiers(rest)
  {
    assert (['%', c] + rest)[2..] == rest;
  }

  lemma {:induction false} EscapedCount(s: string, n: nat, tail: string)
    requires s != [] ==> tail == [] || tail[0] == ' '
    ensures Specifiers(Escaped(s, n) + tail) == Taken(s, n) + Specifiers(tail)
  {
    if s == [] {
      assert Escaped(s, n) + tail == tail;
    } else if |s| == 1 {
      LoneFirst(s[0], tail);
      assert Escaped(s, n) + tail == [s[0]] + tail;
    } else {
      var k, n1 := CountStep(s, n, tail);
      EscapedCount(s[k..], n1, tail);
    }
  }

  lemma CountStep(s: string, n: nat, tail: string) returns (k: nat, n1: nat)
    requires |s| >= 2
    ensures 1 <= k <= 2 && n1 <= n
    ensures Taken(s, n) == n - n1 + Taken(s[k..], n1)
    ensures Specifiers(Escaped(s, n) + tail) == n - n1 + Specifiers(Escaped(s[k..], n1) + tail)
  {
    k := if s[0] == '%' then 2 else 1;
    n1 := if s[0] == '%' && IsSpecifier(s[1]) && n > 0 then n - 1 else n;
    if s[0] != '%' {
      PlainCountStep(s, n, tail);
    } else if IsSpecifier(s[1]) && n == 0 {
      DoubledCountStep(s, tail);
    } else {
      KeptCountStep(s, n, n1, tail);
    }
  }

  lemma PlainCountStep(s: string, n: nat, tail: string)
    requires |s| >= 2 && s[0] != '%'
    ensures Specifiers(Escaped(s, n) + tail) == Specifiers(Escaped(s[1..], n) + tail)
  {
    var rest := Escaped(s[1..], n) + tail;
    LoneFirst(s[0], rest);
    assert Escaped(s, n) + tail == [s[0]] + rest;
  }

  lemma DoubledCountStep(s: string, tail: string)
    requires AtPair(s) && IsSpecifier(s[1])
    ensures Specifiers(Escaped(s, 0) + tail) == Specifiers(Escaped(s[2..], 0) + tail)
  {
    var rest := Escaped(s[2..], 0) + tail;
    DoubledCount(s[1], rest);
    assert Escaped(s, 0) + tail == "%%" + [s[1]] + rest;
  }

  lemma KeptCountStep(s: string, n: nat, n1: nat, tail: string)
    requires AtPair(s) && (if IsSpecifier(s[1]) then n == n1 + 1 else n == n1)
    ensures Specifiers(Escaped(s, n) + tail) == n - n1 + Specifiers(Escaped(s[2..], n1) + tail)
  {
    var rest := Escaped(s[2..], n1) + tail;
    PairCounts(s[1], rest);
    assert Escaped(s, n) + tail == ['%', s[1]] + rest;
  }

  lemma DoubledCount(c: char, rest: string)
    requires IsSpecifier(c)
    ensures Specifiers("%%" + [c] + rest) == Specifiers(rest)
  {
    LoneFirst(c, rest);
    PairCounts('%', [c] + rest);
    assert "%%" + [c] + rest == ['%', '%'] + ([c] + rest);
  }

  /** A first character that cannot start a specifier with what follows. */
  lemma LoneFirst(c: char, rest: string)
    requires c != '%' || rest == [] || rest[0] == ' '
    ensures Specifiers([c] + rest) == Specifiers(rest)
  {
    var s := [c] + rest;
    if rest != [] {
      assert s[1..] == rest && s[2..] == rest[1..];
    }
  }

  lemma PadCounts(c: char, rest: string)
    requires IsSpecifier(c)
    ensures Specifiers(['%', c] + rest) == 1 + Specifiers(rest)
    ensures Specifiers([' ', '%', c] + rest) == 1 + Specifiers(rest)
  {
    PairCounts(c, rest);
    LoneFirst(' ', ['%', c] + rest);
    assert [' ', '%', c] + rest == [' '] + (['%', c] + rest);
  }

  lemma {:induction false} PaddingCount(args: seq<Arg>, next: nat, first: bool)
    ensures Specifiers(Padding(args, next, first)) == Left(|args|, next)
    decreases |args| - next
  {
    if next < |args| {
      PaddingCount(args, next + 1, false);
      PadCounts(PadSpecifier(args[next]), Padding(args, next + 1, false));
    }
  }

  /** The normalized string has exactly one specifier per argument from firstArg on, even after a lone % at the end. */
  lemma NormalizedCount(format: string, args: seq<Arg>, firstArg: nat)
    ensures Specifiers(Normalized(format, args, firstArg)) == Left(|args|, firstArg)
  {
    var n := Left(|args|, firstArg);
    var next := firstArg + Taken(format, n);
    EscapedCount(format, n, Padding(args, next, format == []));
    PaddingCount(args, next, format == []);
  }

  lemma {:induction false} EnoughArguments(s: string, n: nat)
    requires Specifiers(s) <= n
    ensures Escaped(s, n) == s && Taken(s, n) == Specifiers(s)
  {
    if |s| >= 2 {
      if s[0] != '%' {
        EnoughArguments(s[1..], n);
      } else if IsSpecifier(s[1]) {
        EnoughArguments(s[2..], n - 1);
        assert s == s[..2] + s[2..];
      } else {
        EnoughArguments(s[2..], n);
        assert s == s[..2] + s[2..];
      }
    }
  }

  /** Normalizing again with the same arguments changes nothing. */
  lemma NormalizingIsIdempotent(format: string, args: seq<Arg>, firstArg: nat)
    ensures var once := Normalized(format, args, firstArg); Normalized(once, args, firstArg) == once
  {
    var once := Normalized(format, args, firstArg);
    NormalizedCount(format, args, firstArg);
    EnoughArguments(once, Left(|args|, firstArg));
  }
}
