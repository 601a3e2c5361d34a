/** The structural diff of two objects: when it calls them equal, and what it then prints. */
module PropertyDiff {
  import opened Wrappers
  import opened PropertyPrinter

  const REMOVED: string := "-\U{00A0}"
  const ADDED: string := "+\U{00A0}"
  const UNCHANGED: string := "\U{2007}\U{00A0}"

  type Fields = seq<(string, Value)>

  predicate Has(fields: Fields, key: string) { fields != [] && (fields[0].0 == key || Has(fields[1..], key)) }

  function Get(fields: Fields, key: string): Value
    requires Has(fields, key)
  {
    if fields[0].0 == key then fields[0].1 else Get(fields[1..], key)
  }

  lemma {:induction false} HasExactly(fields: Fields, key: string)
    ensures Has(fields, key) <==> exists k :: 0 <= k < |fields| && fields[k].0 == key
  {
    if fields != [] {
      HasExactly(fields[1..], key);
      assert forall k :: 0 < k < |fields| ==> fields[k] == fields[1..][k - 1];
      assert forall k :: 0 <= k < |fields| - 1 ==> fields[1..][k] == fields[k + 1];
    }
  }

  lemma {:induction false} GetsFirst(fields: Fields, key: string) returns (k: nat)
    requires Has(fields, key)
    ensures k < |fields| && fields[k] == (key, Get(fields, key)) && forall j :: 0 <= j < k ==> fields[j].0 != key
  {
    k := 0;
    if fields[0].0 != key {
      var j := GetsFirst(fields[1..], key);
      assert forall i :: 0 < i < |fields| ==> fields[i] == fields[1..][i - 1];
      k := j + 1;
    }
  }

  /** === */
  predicate Identical(v: Value, w: Value) { v == w && v != NaN }

  /** The two objects are looked into: neither is an element, both are plain objects, or both are arrays. */
  predicate SameContainers(o: Object, p: Object) {
    && Identical(o.mark, p.mark) && !IsElement(p)
    && ((o.tag.PlainTag? && p.tag.PlainTag?) || (o.tag.ArrayTag? && p.tag.ArrayTag?))
  }

  predicate SameElements(o: Object, p: Object) {
    && Identical(o.mark, p.mark) && IsElement(p)
    && Identical(o.element.elementType, p.element.elementType) && Identical(o.element.key, p.element.key)
  }

  predicate SameClosures(f: Function, g: Function) {
    Identical(f.name, g.name) && f.arity == g.arity && f.source == g.source
  }

  /** How the diff treats a pair of values that are not identical. */
  datatype Change = TopLevelChildren | ElementProps | Nested(o: Object, p: Object) | Closure | Different

  function ChangeOf(env: Env, key: string, v: Value, w: Value, indent: nat): Change {
    if indent == 0 && key == "children" then TopLevelChildren
    else if indent >= DEPTH_LIMIT then Different
    else if v.Obj? && w.Obj? && SameElements(env.heap(v.r), env.heap(w.r)) then ElementProps
    else if v.Obj? && w.Obj? && SameContainers(env.heap(v.r), env.heap(w.r)) then Nested(env.heap(v.r), env.heap(w.r))
    else if v.Func? && w.Func? && SameClosures(env.func(v.f), env.func(w.f)) then Closure
    else Different
  }

  datatype Diffed = Diffed(equal: bool, out: seq<Line>)

  const TOO_MANY :=
    " object has more than 100 properties. Devjs will not attempt to diff objects with too many properties."
  const TOO_MANY_BEFORE := Line("Previous" + TOO_MANY, "")
  const TOO_MANY_AFTER := Line("Next" + TOO_MANY, "")
  const SAME_CLOSURE := " Referentially unequal function closure. Consider memoization."
  const SAME_CONTENTS := "Referentially unequal but deeply equal objects. Consider memoization."

  /** The first loop: keys that are gone. */
  function DiffRemoved(before: Fields, after: Fields, checked: nat, d: Diffed, indent: nat): Diffed
    decreases |before|
  {
    if before == [] then d
    else if checked > WIDTH_LIMIT then Diffed(false, d.out + [TOO_MANY_BEFORE])
    else
      var key := before[0].0;
      var d1 := if Has(after, key) then d else Diffed(false, d.out + [Line(Indented(REMOVED, indent, key), ELLIPSIS)]);
      DiffRemoved(before[1..], after, checked + 1, d1, indent)
  }

  /** The second loop, over the properties `rest` of the new object. */
  function DiffKept(env: Env, before: Fields, rest: Fields, checked: nat, d: Diffed, indent: nat,
                    fuel: nat): Option<Diffed>
    decreases Levels(indent), 0, |rest|
  {
    if rest == [] then Some(d)
    else if checked > WIDTH_LIMIT then Some(Diffed(false, d.out + [TOO_MANY_AFTER]))
    else
      var key := rest[0].0;
      if !Has(before, key) then
        var d1 := Diffed(false, d.out + [Line(Indented(ADDED, indent, key), ELLIPSIS)]);
        DiffKept(env, before, rest[1..], checked + 1, d1, indent, fuel)
      else if Identical(Get(before, key), rest[0].1) then
        DiffKept(env, before, rest[1..], checked + 1, d, indent, fuel)
      else
        var v, w := Get(before, key), rest[0].1;
        match ChangeOf(env, key, v, w, indent)
        case Different =>
          (match DiffValues(env, key, v, w, d.out, indent, fuel)
           case None => None
           case Some(out1) => DiffKept(env, before, rest[1..], checked + 1, Diffed(false, out1), indent, fuel))
        case Nested(o, p) =>
          (match DiffNested(env, key, o, p, d, indent, fuel)
           case None => None
           case Some(d1) => DiffKept(env, before, rest[1..], checked, d1, indent, fuel))
        case change =>
          DiffKept(env, before, rest[1..], checked, NoteChange(env, key, w, change, d, indent), indent, fuel)
  }

  /** A pair of lines for a change whose details are left out, one line for an equal closure. */
  function NoteChange(env: Env, key: string, w: Value, change: Change, d: Diffed, indent: nat): Diffed {
    if change.Closure? then
      var name := if w.Func? then env.func(w.f).name else Undefined;
      var desc := if name == Str("") then "() => {}" else (if name.Str? then name.s else env.show(name)) + "() {}";
      d.(out := d.out + [Line(Indented(UNCHANGED, indent, key), desc + SAME_CLOSURE)])
    else
      var desc := if change.ElementProps? && w.Obj? then "<" + env.heap(w.r).element.typeName + " " + ELLIPSIS + " />"
                  else ELLIPSIS;
      Diffed(false, d.out + [Line(Indented(REMOVED, indent, key), desc), Line(Indented(ADDED, indent, key), desc)])
  }

  function DiffValues(env: Env, key: string, v: Value, w: Value, out: seq<Line>, indent: nat,
                      fuel: nat): Option<seq<Line>> {
    match AddValue(env, key, v, out, indent, REMOVED, fuel)
    case None => None
    case Some(out1) => AddValue(env, key, w, out1, indent, ADDED, fuel)
  }

  /** A nested diff under a line of its own, which is rewritten if the diff found nothing at all. */
  function DiffNested(env: Env, key: string, o: Object, p: Object, d: Diffed, indent: nat, fuel: nat): Option<Diffed>
    requires indent < DEPTH_LIMIT
    decreases Levels(indent), 0, 0
  {
    var entry := Line(Indented(UNCHANGED, indent, key), if p.tag.ArrayTag? then "Array" else "");
    match AddDiff(env, o.fields, p.fields, d.out + [entry], indent + 1, fuel)
    case None => None
    case Some(d1) =>
      if !d1.equal then Some(Diffed(false, d1.out))
      else if |d1.out| == |d.out| + 1 then Some(Diffed(d.equal, d1.out[|d.out| := entry.(desc := SAME_CONTENTS)]))
      else Some(Diffed(d.equal, d1.out))
  }

  function AddDiff(env: Env, before: Fields, after: Fields, out: seq<Line>, indent: nat, fuel: nat): Option<Diffed>
    decreases Levels(indent), 1
  {
    DiffKept(env, before, after, 0, DiffRemoved(before, after, 0, Diffed(true, out), indent), indent, fuel)
  }

  // ----- When the diff says that nothing changed -----

  /** How many of these properties have the identical value in `before`. */
  function Identicals(before: Fields, rest: Fields): nat {
    if rest == [] then 0
    else
      var one := if Has(before, rest[0].0) && SameValue(Get(before, rest[0].0), rest[0].1) then 1 else 0;
      one + Identicals(before, rest[1..])
  }

  /** NaN is not the same as itself. */
  predicate SameValue(v: Value, w: Value) { v == w && !v.NaN? }

  predicate AllHeld(before: Fields, after: Fields) { forall k :: 0 <= k < |before| ==> Has(after, before[k].0) }

  /** Same keys, equal values, and neither object too wide to be compared, where the new object's properties that
      are no identical copies do not count. */
  predicate Equal(env: Env, before: Fields, after: Fields, indent: nat)
    decreases if indent < 3 then 3 - indent else 0, 1
  {
    && AllHeld(before, after) && |before| <= 101
    && (forall k :: 0 <= k < |after| ==>
          Has(before, after[k].0) && EqualValues(env, after[k].0, Get(before, after[k].0), after[k].1, indent))
    && Room(before, after, 0)
  }

  predicate Room(before: Fields, rest: Fields, checked: nat) {
    rest == [] || checked + Identicals(before, rest[..|rest| - 1]) <= 100
  }

  /** Values are equal when they are identical; above depth 3, and except for the top-level children, also when they are
      two plain objects or two arrays with the same $$typeof, no elements, and with equal contents, or two functions
      with the same name, length and source. */
  predicate EqualValues(env: Env, key: string, v: Value, w: Value, indent: nat)
    decreases if indent < 3 then 3 - indent else 0, 0
  {
    || SameValue(v, w)
    || (indent < 3 && !(indent == 0 && key == "children") &&
        match (v, w)
        case (Obj(q), Obj(r)) =>
          var o, p := env.heap(q), env.heap(r);
          && SameValue(o.mark, p.mark) && o.mark != ELEMENT
          && ((o.tag.PlainTag? && p.tag.PlainTag?) || (o.tag.ArrayTag? && p.tag.ArrayTag?))
          && Equal(env, o.fields, p.fields, indent + 1)
        case (Func(q), Func(r)) =>
          var f, g := env.func(q), env.func(r);
          SameValue(f.name, g.name) && f.arity == g.arity && f.source == g.source
        case _ => false)
  }

  /** How the diff treats the values tells whether they are equal. */
  lemma EqualByChange(env: Env, key: string, v: Value, w: Value, indent: nat)
    ensures Identical(v, w) <==> SameValue(v, w)
    ensures EqualValues(env, key, v, w, indent) <==>
            || Identical(v, w)
            || match ChangeOf(env, key, v, w, indent)
               case Nested(o, p) => Equal(env, o.fields, p.fields, indent + 1)
               case Closure => true
               case _ => false
  {}

  predicate AllEqual(env: Env, before: Fields, rest: Fields, indent: nat) {
    forall k :: 0 <= k < |rest| ==>
      Has(before, rest[k].0) && EqualValues(env, rest[k].0, Get(before, rest[k].0), rest[k].1, indent)
  }

  lemma {:induction false} RemovedExact(before: Fields, after: Fields, checked: nat, d: Diffed, indent: nat)
    requires checked <= WIDTH_LIMIT + 1
    ensures DiffRemoved(before, after, checked, d, indent).equal <==>
            d.equal && AllHeld(before, after) && |before| + checked <= WIDTH_LIMIT + 1
    decreases |before|
  {
    if before != [] && checked <= WIDTH_LIMIT {
      var key, rest := before[0].0, before[1..];
      var d1 := if Has(after, key) then d else Diffed(false, d.out + [Line(Indented(REMOVED, indent, key), ELLIPSIS)]);
      RemovedExact(rest, after, checked + 1, d1, indent);
      assert AllHeld(before, after) <==> Has(after, key) && AllHeld(rest, after) by {
        assert forall k :: 0 <= k < |rest| ==> rest[k] == before[k + 1];
        assert forall k :: 0 < k < |before| ==> before[k] == rest[k - 1];
      }
    }
  }

  lemma AllEqualSplit(env: Env, before: Fields, rest: Fields, indent: nat)
    requires rest != []
    ensures AllEqual(env, before, rest, indent) <==>
            && Has(before, rest[0].0) && EqualValues(env, rest[0].0, Get(before, rest[0].0), rest[0].1, indent)
            && AllEqual(env, before, rest[1..], indent)
  {
    var tail := rest[1..];
    assert forall k :: 0 <= k < |tail| ==> tail[k] == rest[k + 1];
    assert forall k :: 0 < k < |rest| ==> rest[k] == tail[k - 1];
  }

  lemma RoomSplit(before: Fields, rest: Fields, checked: nat)
    requires rest != []
    ensures var one := if Has(before, rest[0].0) && Identical(Get(before, rest[0].0), rest[0].1) then 1 else 0;
            Room(before, rest, checked) <==> checked <= WIDTH_LIMIT && Room(before, rest[1..], checked + one)
  {
    if |rest| > 1 {
      assert rest[..|rest| - 1][1..] == rest[1..][..|rest| - 2];
    }
  }

  lemma {:induction false} KeptExact(env: Env, before: Fields, rest: Fields, checked: nat, d: Diffed, indent: nat,
                                     fuel: nat)
    ensures var r := DiffKept(env, before, rest, checked, d, indent, fuel);
            r.Some? ==>
              (r.value.equal <==> d.equal && AllEqual(env, before, rest, indent) && Room(before, rest, checked))
    decreases Levels(indent), 0, |rest|
  {
    var r := DiffKept(env, before, rest, checked, d, indent, fuel);
    if rest != [] && r.Some? {
      AllEqualSplit(env, before, rest, indent);
      RoomSplit(before, rest, checked);
      if checked <= WIDTH_LIMIT {
        var checked1, d1 := KeptStep(env, before, rest, checked, d, indent, fuel);
        KeptExact(env, before, rest[1..], checked1, d1, indent, fuel);
      }
    }
  }

  /** The properties that the second loop counts: new ones, identical ones and those whose two values are printed. It
      continues early with any other one. */
  predicate Counts(env: Env, before: Fields, p: (string, Value), indent: nat) {
    || !Has(before, p.0)
    || Identical(Get(before, p.0), p.1)
    || ChangeOf(env, p.0, Get(before, p.0), p.1, indent).Different?
  }

  /** One turn of the second loop: what it counts, and whether it keeps the objects equal. */
  lemma {:induction false} KeptStep(env: Env, before: Fields, rest: Fields, checked: nat, d: Diffed, indent: nat,
                                    fuel: nat)
    returns (checked1: nat, d1: Diffed)
    requires rest != [] && checked <= WIDTH_LIMIT && DiffKept(env, before, rest, checked, d, indent, fuel).Some?
    ensures DiffKept(env, before, rest, checked, d, indent, fuel) ==
              DiffKept(env, before, rest[1..], checked1, d1, indent, fuel)
    ensures var equal :=
              Has(before, rest[0].0) && EqualValues(env, rest[0].0, Get(before, rest[0].0), rest[0].1, indent);
            && (d1.equal <==> d.equal && equal)
            && (equal ==> (Counts(env, before, rest[0], indent) <==> Identical(Get(before, rest[0].0), rest[0].1)))
    ensures checked1 == checked + if Counts(env, before, rest[0], indent) then 1 else 0
    decreases Levels(indent), 0, 0, 1
  {
    var key, w := rest[0].0, rest[0].1;
    checked1 := checked + 1;
    if !Has(before, key) {
      d1 := Diffed(false, d.out + [Line(Indented(ADDED, indent, key), ELLIPSIS)]);
    } else {
      EqualByChange(env, key, Get(before, key), w, indent);
      if Identical(Get(before, key), w) {
        d1 := d;
      } else {
        checked1, d1 := ChangedStep(env, before, rest, checked, d, indent, fuel);
      }
    }
  }

  lemma {:induction false} ChangedStep(env: Env, before: Fields, rest: Fields, checked: nat, d: Diffed, indent: nat,
                                       fuel: nat)
    returns (checked1: nat, d1: Diffed)
    requires rest != [] && Has(before, rest[0].0) && !Identical(Get(before, rest[0].0), rest[0].1)
    requires checked <= WIDTH_LIMIT && DiffKept(env, before, rest, checked, d, indent, fuel).Some?
    ensures DiffKept(env, before, rest, checked, d, indent, fuel) ==
              DiffKept(env, before, rest[1..], checked1, d1, indent, fuel)
    ensures var equal :=
              Has(before, rest[0].0) && EqualValues(env, rest[0].0, Get(before, rest[0].0), rest[0].1, indent);
            && (d1.equal <==> d.equal && equal)
            && (equal ==> (Counts(env, before, rest[0], indent) <==> Identical(Get(before, rest[0].0), rest[0].1)))
    ensures checked1 == checked + if Counts(env, before, rest[0], indent) then 1 else 0
    decreases Levels(indent), 0, 0, 0
  {
    var key, v, w := rest[0].0, Get(before, rest[0].0), rest[0].1;
    EqualByChange(env, key, v, w, indent);
    match ChangeOf(env, key, v, w, indent)
    case Different =>
      checked1, d1 := checked + 1, Diffed(false, DiffValues(env, key, v, w, d.out, indent, fuel).value);
    case Nested(o, p) =>
      checked1, d1 := checked, DiffNested(env, key, o, p, d, indent, fuel).value;
      var entry := Line(Indented(UNCHANGED, indent, key), if p.tag.ArrayTag? then "Array" else "");
      DiffExact(env, o.fields, p.fields, d.out + [entry], indent + 1, fuel);
    case change =>
      checked1, d1 := checked, NoteChange(env, key, w, change, d, indent);
  }

  /** When the diff ends, it says "equal" exactly when the objects are. */
  lemma {:induction false} DiffExact(env: Env, before: Fields, after: Fields, out: seq<Line>, indent: nat, fuel: nat)
    ensures var r := AddDiff(env, before, after, out, indent, fuel);
            r.Some? ==> (r.value.equal <==> Equal(env, before, after, indent))
    decreases Levels(indent), 1
  {
    RemovedExact(before, after, 0, Diffed(true, out), indent);
    KeptExact(env, before, after, 0, DiffRemoved(before, after, 0, Diffed(true, out), indent), indent, fuel);
  }
}
