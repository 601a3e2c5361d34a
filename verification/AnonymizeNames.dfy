/** What new names look like: the style of the old name, and the number of names given before it. */
module AnonymizeNames {
  import opened Anonymize

  // ----- Hexadecimal numerals, read back -----

  function DigitValue(c: char, upper: bool): int {
    if '0' <= c <= '9' then c as int - '0' as int
    else if upper && 'A' <= c <= 'F' then 10 + (c as int - 'A' as int)
    else if !upper && 'a' <= c <= 'f' then 10 + (c as int - 'a' as int)
    else -1
  }

  function ReadHex(s: string, upper: bool): int {
    if s == "" then 0 else 16 * ReadHex(s[..|s| - 1], upper) + DigitValue(s[|s| - 1], upper)
  }

  predicate IsNumeral(s: string, upper: bool) { s != "" && forall k :: 0 <= k < |s| ==> DigitValue(s[k], upper) >= 0 }

  function DigitsOf(upper: bool): string { if upper then UPPER else LOWER }

  lemma DigitIsRead(n: nat, upper: bool)
    requires n < 16
    ensures DigitValue(DigitsOf(upper)[n], upper) == n
  {}

  lemma {:induction false} HexIsRead(n: nat, upper: bool)
    requires Digits(DigitsOf(upper))
    ensures IsNumeral(Hex(n, DigitsOf(upper)), upper) && ReadHex(Hex(n, DigitsOf(upper)), upper) == n
  {
    var s := Hex(n, DigitsOf(upper));
    if n < 16 {
      DigitIsRead(n, upper);
      assert ReadHex(s[..0], upper) == 0;
    } else {
      HexIsRead(n / 16, upper);
      DigitIsRead(n % 16, upper);
      assert s[..|s| - 1] == Hex(n / 16, DigitsOf(upper));
    }
  }

  // ----- The number in a new name -----

  /** A visited name, and whether it is renamed. */
  datatype Mark = Mark(name: string, renamed: bool)

  function Marks(visits: seq<Occurrence>): (marks: seq<Mark>)
    ensures |marks| == |visits|
    ensures forall k :: 0 <= k < |visits| ==> marks[k] == Mark(visits[k].name, !Kept(visits[k].kind, visits[k].name))
  {
    seq(|visits|, k requires 0 <= k < |visits| => Mark(visits[k].name, !Kept(visits[k].kind, visits[k].name)))
  }

  function Renamings(marks: seq<Mark>): set<string> { set k | 0 <= k < |marks| && marks[k].renamed :: marks[k].name }

  /** The names that the visits have renamed. */
  function RenamedNames(visits: seq<Occurrence>): set<string> { Renamings(Marks(visits)) }

  lemma OneMarkMore(marks: seq<Mark>, m: Mark)
    ensures Renamings(marks + [m]) == Renamings(marks) + if m.renamed then {m.name} else {}
  {
    var all := marks + [m];
    forall x ensures x in Renamings(all) <==> x in Renamings(marks) || (m.renamed && x == m.name) {
      if x in Renamings(marks) {
        var k :| 0 <= k < |marks| && marks[k].renamed && marks[k].name == x;
        assert all[k] == marks[k];
      }
      if m.renamed { assert all[|marks|] == m; }
    }
  }

  lemma VisitCounts(s: State, v: Occurrence, renamed: bool, isCapitalized: string -> bool)
    requires renamed == !Kept(v.kind, v.name) && s.index == |s.identifiers.Keys|
    ensures var s1 := Visited(s, v.kind, v.name, isCapitalized);
            && s1.identifiers.Keys == s.identifiers.Keys + (if renamed then {v.name} else {})
            && s1.index == |s1.identifiers.Keys|
  {
    var s1 := Visited(s, v.kind, v.name, isCapitalized);
    if renamed && v.name !in s.identifiers { assert s1.identifiers.Keys == s.identifiers.Keys + {v.name}; }
  }

  lemma {:induction false} NamesAreCounted(visits: seq<Occurrence>, isCapitalized: string -> bool)
    ensures var s := After(visits, isCapitalized);
            s.identifiers.Keys == RenamedNames(visits) && s.index == |s.identifiers.Keys|
  {
    if visits != [] {
      var front, v, m := visits[..|visits| - 1], visits[|visits| - 1], Marks(visits)[|visits| - 1];
      NamesAreCounted(front, isCapitalized);
      assert Marks(visits) == Marks(front) + [m];
      OneMarkMore(Marks(front), m);
      VisitCounts(After(front, isCapitalized), v, m.renamed, isCapitalized);
    }
  }

  lemma FirstVisitNames(s: State, v: Occurrence, isCapitalized: string -> bool)
    requires !Kept(v.kind, v.name) && v.name !in s.identifiers
    ensures Renamed(s, v.kind, v.name, isCapitalized) == NewName(StyleOf(v.kind, v.name, isCapitalized), s.index)
  {}

  /** What a name becomes at its first visit: in JSX, Component and an upper-case numeral, or c and a lower-case one;
      elsewhere useV for a hook, V for a name with a capital letter and v for any other, and a lower-case numeral. The
      numeral counts the names that were renamed before. */
  lemma NewNameIsNumbered(visits: seq<Occurrence>, i: nat, isCapitalized: string -> bool) returns (numeral: string)
    requires i < |visits| && !Kept(visits[i].kind, visits[i].name) && visits[i].name !in RenamedNames(visits[..i])
    ensures var capital, jsx := isCapitalized(visits[i].name), visits[i].kind == JsxIdentifier;
            && NameAt(visits, i, isCapitalized) ==
               (if jsx then (if capital then "Component" else "c")
                else if "use" <= visits[i].name then "useV"
                else if capital then "V" else "v") + numeral
            && IsNumeral(numeral, jsx && capital)
            && ReadHex(numeral, jsx && capital) == |RenamedNames(visits[..i])|
  {
    var s, v := After(visits[..i], isCapitalized), visits[i];
    NamesAreCounted(visits[..i], isCapitalized);
    FirstVisitNames(s, v, isCapitalized);
    numeral := NameShape(v.kind, v.name, s.index, isCapitalized);
  }

  lemma NameShape(kind: Kind, name: string, n: nat, isCapitalized: string -> bool) returns (numeral: string)
    ensures var capital, jsx := isCapitalized(name), kind == JsxIdentifier;
            && NewName(StyleOf(kind, name, isCapitalized), n) ==
               (if jsx then (if capital then "Component" else "c")
                else if "use" <= name then "useV"
                else if capital then "V" else "v") + numeral
            && IsNumeral(numeral, jsx && capital) && ReadHex(numeral, jsx && capital) == n
  {
    var style := StyleOf(kind, name, isCapitalized);
    numeral := Hex(n, Numerals(style));
    assert Numerals(style) == DigitsOf(style.Component?);
    HexIsRead(n, style.Component?);
  }
}
