/** Renaming all identifiers of a program consistently. */
module Anonymize {
  const TAG_NAMES: set<string> := {
    "a", "body", "button", "div", "form", "head", "html", "input", "label", "select", "span", "textarea",
    "value", "checked", "onClick", "onSubmit", "name"}

  const BUILTIN_HOOKS: set<string> := {
    "useContext", "useEffect", "useInsertionEffect", "useLayoutEffect", "useReducer", "useState"}

  const GLOBAL_OBJECTS: set<string> := {
    "String", "Object", "Function", "Number", "RegExp", "Date", "Boolean", "DataView", "Map", "Set", "WeakMap", "JSON",
    "console"}

  const ERRORS: set<string> := {
    "Error", "TypeError", "RangeError", "ReferenceError", "SyntaxError", "URIError", "EvalError"}

  const BUFFERS: set<string> := {
    "Float32Array", "Float64Array", "Int8Array", "Int16Array", "Int32Array", "Uint8Array", "Uint8ClampedArray",
    "Uint16Array", "Uint32Array", "ArrayBuffer"}

  const GLOBAL_FUNCTIONS: set<string> := {
    "parseFloat", "parseInt", "isNaN", "eval", "isFinite", "encodeURI", "decodeURI", "encodeURIComponent",
    "decodeURIComponent"}

  const COMMON_MEMBERS: set<string> := {
    "map", "push", "at", "filter", "slice", "splice", "add", "get", "set", "has", "size", "length", "toString"}

  const GLOBALS: set<string> := GLOBAL_OBJECTS + ERRORS + BUFFERS + GLOBAL_FUNCTIONS + COMMON_MEMBERS

  datatype Kind = JsxIdentifier | Identifier

  /** Names that a visitor leaves alone. */
  predicate Kept(kind: Kind, name: string) {
    match kind
    case JsxIdentifier => name in TAG_NAMES
    case Identifier => name in BUILTIN_HOOKS || name in GLOBALS
  }

  // ----- Hexadecimal numerals -----

  const LOWER := "0123456789abcdef"
  const UPPER := "0123456789ABCDEF"

  predicate Digits(d: string) { |d| == 16 && forall j, k :: 0 <= j < k < 16 ==> d[j] != d[k] }

  function Hex(n: nat, digits: string): (s: string)
    requires Digits(digits)
    ensures s != [] && (|s| == 1 <==> n < 16)
  {
    if n < 16 then [digits[n]] else Hex(n / 16, digits) + [digits[n % 16]]
  }

  lemma {:induction false} HexInjective(m: nat, n: nat, digits: string)
    requires Digits(digits) && Hex(m, digits) == Hex(n, digits)
    ensures m == n
  {
    var s := Hex(m, digits);
    if m < 16 {
      assert s[0] == digits[m] == digits[n];
    } else {
      assert s[..|s| - 1] == Hex(m / 16, digits) == Hex(n / 16, digits);
      assert s[|s| - 1] == digits[m % 16] == digits[n % 16];
      HexInjective(m / 16, n / 16, digits);
    }
  }

  lemma {:induction false} HexUsesDigits(n: nat, digits: string)
    requires Digits(digits)
    ensures forall k :: 0 <= k < |Hex(n, digits)| ==> Hex(n, digits)[k] in digits
  {
    if n >= 16 { HexUsesDigits(n / 16, digits); }
  }

  // ----- New names -----

  datatype Style = Component | LowerTag | UpperName | LowerName | HookName

  function Prefix(style: Style): string {
    match style
    case Component => "Component"
    case LowerTag => "c"
    case UpperName => "V"
    case LowerName => "v"
    case HookName => "useV"
  }

  function Numerals(style: Style): (d: string)
    ensures Digits(d)
  {
    if style.Component? then UPPER else LOWER
  }

  function NewName(style: Style, n: nat): string { Prefix(style) + Hex(n, Numerals(style)) }

  lemma NewNameParts(style: Style, n: nat)
    ensures var s, p := NewName(style, n), Prefix(style);
            && s[0] == p[0] && |s| > |p| && s[|p|..] == Hex(n, Numerals(style)) && p <= s
            && forall k :: |p| <= k < |s| ==> s[k] in Numerals(style)
  {
    HexUsesDigits(n, Numerals(style));
  }

  lemma PrefixInitials(a: Style, b: Style)
    requires Prefix(a)[0] == Prefix(b)[0]
    ensures a == b
  {}

  /** Different styles start with different letters, and within one style the numeral decides. */
  lemma NewNamesAreDistinct(a: Style, m: nat, b: Style, n: nat)
    requires NewName(a, m) == NewName(b, n)
    ensures a == b && m == n
  {
    NewNameParts(a, m);
    NewNameParts(b, n);
    PrefixInitials(a, b);
    HexInjective(m, n, Numerals(a));
  }

  /** Why no kept name can be taken for a new one. */
  predicate Safe(k: string) {
    && k != "" && k[0] != 'C' && k[0] != 'V'
    && (k[0] == 'c' ==> |k| > 1 && k[1] !in LOWER)
    && (k[0] == 'v' ==> |k| > 2 && k[2] !in LOWER)
    && (k[0] == 'u' ==> |k| > 3 && k[3] != 'V')
  }

  lemma KeptNamesAreSafe(kind: Kind, k: string)
    requires Kept(kind, k)
    ensures Safe(k)
  {
    if k in TAG_NAMES { TagNamesAreSafe(k); }
    else if k in BUILTIN_HOOKS { HooksAreSafe(k); }
    else if k in GLOBAL_OBJECTS { ObjectsAreSafe(k); }
    else if k in BUFFERS { BuffersAreSafe(k); }
    else if k in COMMON_MEMBERS { MembersAreSafe(k); }
    else { FunctionsAndErrorsAreSafe(k); }
  }

  lemma TagNamesAreSafe(k: string)
    requires k in TAG_NAMES
    ensures Safe(k)
  {}

  lemma HooksAreSafe(k: string)
    requires k in BUILTIN_HOOKS
    ensures Safe(k)
  {}

  lemma ObjectsAreSafe(k: string)
    requires k in GLOBAL_OBJECTS
    ensures Safe(k)
  {}

  lemma BuffersAreSafe(k: string)
    requires k in BUFFERS
    ensures Safe(k)
  {}

  lemma MembersAreSafe(k: string)
    requires k in COMMON_MEMBERS
    ensures Safe(k)
  {}

  lemma FunctionsAndErrorsAreSafe(k: string)
    requires k in GLOBAL_FUNCTIONS || k in ERRORS
    ensures Safe(k)
  {}

  lemma NewNamesAreNotKept(style: Style, n: nat, kind: Kind)
    ensures !Kept(kind, NewName(style, n))
  {
    var s := NewName(style, n);
    NewNameParts(style, n);
    if Kept(kind, s) { KeptNamesAreSafe(kind, s); }
    if style.HookName? { assert s[3] == Prefix(style)[3]; }
  }

  // ----- The visitors -----

  /** `isCapitalized` says that the first letter is its own upper case. */
  function StyleOf(kind: Kind, name: string, isCapitalized: string -> bool): Style {
    if kind.JsxIdentifier? then (if isCapitalized(name) then Component else LowerTag)
    else if "use" <= name then HookName
    else if isCapitalized(name) then UpperName
    else LowerName
  }

  /** What the plugin keeps between visits: the counter, and the new names given so far. `numbers` records
      the style and the counter value behind each new name. */
  datatype State = State(index: nat, identifiers: map<string, string>, numbers: map<string, (Style, nat)>)

  const FRESH := State(0, map[], map[])

  function Visited(s: State, kind: Kind, name: string, isCapitalized: string -> bool): State {
    if Kept(kind, name) || name in s.identifiers then s
    else
      var style := StyleOf(kind, name, isCapitalized);
      State(s.index + 1, s.identifiers[name := NewName(style, s.index)], s.numbers[name := (style, s.index)])
  }

  function Renamed(s: State, kind: Kind, name: string, isCapitalized: string -> bool): string {
    if Kept(kind, name) then name
    else
      var s1 := Visited(s, kind, name, isCapitalized);
      if name in s1.identifiers then s1.identifiers[name] else name
  }

  ghost predicate Inv(s: State) {
    && s.numbers.Keys == s.identifiers.Keys
    && (forall x {:trigger s.numbers[x]} :: x in s.numbers ==>
          s.numbers[x].1 < s.index && s.identifiers[x] == NewName(s.numbers[x].0, s.numbers[x].1))
    && (forall x, y {:trigger s.numbers[x], s.numbers[y]} :: x in s.numbers && y in s.numbers && x != y ==>
          s.numbers[x].1 != s.numbers[y].1)
  }

  lemma NewNamesAreInjective(s: State, x: string, y: string)
    requires Inv(s) && x in s.identifiers && y in s.identifiers && s.identifiers[x] == s.identifiers[y]
    ensures x == y
  {
    var a, b := s.numbers[x], s.numbers[y];
    NewNamesAreDistinct(a.0, a.1, b.0, b.1);
  }

  method FreshIdentifier(name: string, index: nat, isCapitalized: string -> bool) returns (newName: string)
    ensures newName == NewName(StyleOf(Identifier, name, isCapitalized), index)
  {
    var numeral := Hex(index, LOWER);
    var prefix := if isCapitalized(name) then "V" else "v";
    newName := prefix + numeral;
    if "use" <= name {
      // 'use' + newName.slice(0, 1).toUpperCase() + newName.slice(1)
      assert newName[1..] == numeral;
      newName := "useV" + newName[1..];
    }
  }

  class Anonymizer {
    var index: nat
    var identifiers: map<string, string>
    ghost var numbers: map<string, (Style, nat)>

    ghost function Current(): State
      reads this
    {
      State(index, identifiers, numbers)
    }

    constructor ()
      ensures Current() == FRESH
    {
      index, identifiers, numbers := 0, map[], map[];
    }

    method VisitJsxIdentifier(name: string, isCapitalized: string -> bool) returns (newName: string)
      modifies this
      ensures newName == Renamed(old(Current()), JsxIdentifier, name, isCapitalized)
      ensures Current() == Visited(old(Current()), JsxIdentifier, name, isCapitalized)
    {
      if name in TAG_NAMES { return name; }
      if name !in identifiers {
        var style := if isCapitalized(name) then Component else LowerTag;
        newName := NewName(style, index);
        identifiers := identifiers[name := newName];
        numbers := numbers[name := (style, index)];
        index := index + 1;
      } else {
        newName := identifiers[name];
      }
    }

    method VisitIdentifier(name: string, isCapitalized: string -> bool) returns (newName: string)
      modifies this
      ensures newName == Renamed(old(Current()), Identifier, name, isCapitalized)
      ensures Current() == Visited(old(Current()), Identifier, name, isCapitalized)
    {
      if name in BUILTIN_HOOKS || name in GLOBALS { return name; }
      if name !in identifiers {
        newName := FreshIdentifier(name, index, isCapitalized);
        ghost var style := StyleOf(Identifier, name, isCapitalized);
        identifiers := identifiers[name := newName];
        numbers := numbers[name := (style, index)];
        index := index + 1;
      } else {
        newName := identifiers[name];
      }
    }
  }

  // ----- Any order of visits -----

  datatype Occurrence = Occurrence(kind: Kind, name: string)

  function After(visits: seq<Occurrence>, isCapitalized: string -> bool): State {
    if visits == [] then FRESH
    else
      var v := visits[|visits| - 1];
      Visited(After(visits[..|visits| - 1], isCapitalized), v.kind, v.name, isCapitalized)
  }

  /** The name that visit i leaves behind. */
  function NameAt(visits: seq<Occurrence>, i: nat, isCapitalized: string -> bool): string
    requires i < |visits|
  {
    Renamed(After(visits[..i], isCapitalized), visits[i].kind, visits[i].name, isCapitalized)
  }

  lemma {:induction false} AfterKeepsInv(visits: seq<Occurrence>, isCapitalized: string -> bool)
    ensures Inv(After(visits, isCapitalized))
  {
    if visits != [] { AfterKeepsInv(visits[..|visits| - 1], isCapitalized); }
  }

  /** Once given, a new name stays. */
  lemma {:induction false} NamesStay(visits: seq<Occurrence>, i: nat, isCapitalized: string -> bool)
    requires i < |visits| && !Kept(visits[i].kind, visits[i].name)
    ensures var s := After(visits, isCapitalized);
            visits[i].name in s.identifiers && s.identifiers[visits[i].name] == NameAt(visits, i, isCapitalized)
  {
    var front := visits[..|visits| - 1];
    if i == |visits| - 1 {
      assert visits[..i] == front;
    } else {
      assert front[..i] == visits[..i] && front[i] == visits[i];
      NamesStay(front, i, isCapitalized);
    }
  }

  /** Whatever the order of visits: two renamed occurrences get the same new name exactly when they had the
      same name, and no new name is a kept one. */
  lemma RenamingIsInjective(visits: seq<Occurrence>, i: nat, j: nat, isCapitalized: string -> bool)
    requires i < |visits| && j < |visits|
    requires !Kept(visits[i].kind, visits[i].name) && !Kept(visits[j].kind, visits[j].name)
    ensures NameAt(visits, i, isCapitalized) == NameAt(visits, j, isCapitalized) <==> visits[i].name == visits[j].name
    ensures forall kind :: !Kept(kind, NameAt(visits, i, isCapitalized))
  {
    var s := After(visits, isCapitalized);
    AfterKeepsInv(visits, isCapitalized);
    NamesStay(visits, i, isCapitalized);
    NamesStay(visits, j, isCapitalized);
    if NameAt(visits, i, isCapitalized) == NameAt(visits, j, isCapitalized) {
      NewNamesAreInjective(s, visits[i].name, visits[j].name);
    }
    var (style, n) := s.numbers[visits[i].name];
    forall kind ensures !Kept(kind, NewName(style, n)) { NewNamesAreNotKept(style, n, kind); }
  }

  /** Of all occurrences, kept ones too: they read the same afterwards exactly when they did before and both of them
      or none were left alone. A name that only one visitor keeps is split in two. */
  lemma SameAfterwards(visits: seq<Occurrence>, i: nat, j: nat, isCapitalized: string -> bool)
    requires i < |visits| && j < |visits|
    ensures NameAt(visits, i, isCapitalized) == NameAt(visits, j, isCapitalized) <==>
            && visits[i].name == visits[j].name
            && (Kept(visits[i].kind, visits[i].name) <==> Kept(visits[j].kind, visits[j].name))
  {
    if !Kept(visits[i].kind, visits[i].name) { RenamingIsInjective(visits, i, i, isCapitalized); }
    if !Kept(visits[j].kind, visits[j].name) { RenamingIsInjective(visits, j, j, isCapitalized); }
    if !Kept(visits[i].kind, visits[i].name) && !Kept(visits[j].kind, visits[j].name) {
      RenamingIsInjective(visits, i, j, isCapitalized);
    }
  }
}
