/** The string operations of the host language that several parts rely on. */
module Text {
  /** \s in a regular expression. */
  predicate IsSpace(c: char) {
    || c in " \t\n\r" || c in ['\U{000B}', '\U{000C}', '\U{00A0}', '\U{1680}', '\U{2028}', '\U{2029}', '\U{202F}',
                               '\U{205F}', '\U{3000}', '\U{FEFF}']
    || '\U{2000}' <= c <= '\U{200A}'
  }

  /** The characters before the first `mark`; all of them if there is none. */
  function Until(s: string, mark: char): (n: nat)
    ensures n <= |s| && mark !in s[..n] && (n < |s| ==> s[n] == mark)
  {
    if s == [] || s[0] == mark then 0
    else
      var n := 1 + Until(s[1..], mark);
      assert s[..n] == [s[0]] + s[1..][..n - 1];
      n
  }

  function TrimStart(s: string): string { if s != [] && IsSpace(s[0]) then TrimStart(s[1..]) else s }

  function TrimEnd(s: string): string {
    if s != [] && IsSpace(s[|s| - 1]) then TrimEnd(s[..|s| - 1]) else s
  }

  function Trim(s: string): string { TrimEnd(TrimStart(s)) }

  predicate AllSpace(s: string) { forall k :: 0 <= k < |s| ==> IsSpace(s[k]) }

  lemma {:induction false} TrimStartExactly(s: string)
    ensures var t := TrimStart(s);
            && |t| <= |s| && s == s[..|s| - |t|] + t && AllSpace(s[..|s| - |t|])
            && (t != "" ==> !IsSpace(t[0]))
  {
    if s != [] && IsSpace(s[0]) {
      TrimStartExactly(s[1..]);
      var t := TrimStart(s);
      assert s[1..][..|s| - 1 - |t|] == s[..|s| - |t|][1..];
      assert s == [s[0]] + s[1..];
    }
  }

  lemma {:induction false} TrimEndExactly(s: string)
    ensures var t := TrimEnd(s);
            && t <= s && AllSpace(s[|t|..]) && (t != "" ==> !IsSpace(t[|t| - 1]))
  {
    if s != [] && IsSpace(s[|s| - 1]) {
      var front := s[..|s| - 1];
      TrimEndExactly(front);
      assert s == front + [s[|s| - 1]];
    }
  }

  /** Trimming takes all the white space off both ends, and nothing else. */
  lemma TrimExactly(s: string) returns (before: string, after: string)
    ensures s == before + Trim(s) + after && AllSpace(before) && AllSpace(after)
    ensures Trim(s) != "" ==> !IsSpace(Trim(s)[0]) && !IsSpace(Trim(s)[|Trim(s)| - 1])
  {
    TrimStartExactly(s);
    var t := TrimStart(s);
    TrimEndExactly(t);
    before, after := s[..|s| - |t|], t[|Trim(s)|..];
    assert s == before + t && t == Trim(s) + after;
    assert before + (Trim(s) + after) == before + Trim(s) + after;
  }
}
