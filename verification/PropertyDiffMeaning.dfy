/** What the lines of a diff say of each property. */
module PropertyDiffMeaning {
  import opened Wrappers
  import opened PropertyPrinter
  import opened PropertyDiff
  import opened PropertyDiffLines
  import opened PropertyWidth
  import opened PropertyReading

  const WAS := "-\U{00A0}"
  const IS := "+\U{00A0}"
  const STILL := "\U{2007}\U{00A0}"
  const MORE := "\U{2026}"

  /** A line of its own, at this depth. */
  function At(marker: string, indent: nat, key: string, desc: string): Line { Line(marker + Nest(indent) + key, desc) }

  lemma IndentedIsAt(marker: string, indent: nat, key: string, desc: string)
    ensures Line(Indented(marker, indent, key), desc) == At(marker, indent, key, desc)
  {
    IndentedParts(marker, indent, key);
  }

  // ----- The first loop: one line for each key that is gone -----

  function GoneLines(before: Fields, after: Fields, indent: nat): seq<Line> {
    if before == [] then []
    else
      (if exists k :: 0 <= k < |after| && after[k].0 == before[0].0 then [] else [At(WAS, indent, before[0].0, MORE)])
      + GoneLines(before[1..], after, indent)
  }

  lemma {:induction false} RemovedAreGone(before: Fields, after: Fields, checked: nat, d: Diffed, indent: nat)
    requires checked <= 101
    ensures var most := if |before| <= 101 - checked then |before| else 101 - checked;
            DiffRemoved(before, after, checked, d, indent).out
            == d.out + GoneLines(before[..most], after, indent)
               + (if |before| > 101 - checked then [TOO_MANY_BEFORE] else [])
    decreases |before|
  {
    if before == [] || checked == 101 {
      assert before[..0] == [];
    } else {
      var key, rest, most := before[0].0, before[1..], if |before| <= 101 - checked then |before| else 101 - checked;
      HasExactly(after, key);
      IndentedIsAt(REMOVED, indent, key, ELLIPSIS);
      var d1 := if Has(after, key) then d else Diffed(false, d.out + [Line(Indented(REMOVED, indent, key), ELLIPSIS)]);
      RemovedAreGone(rest, after, checked + 1, d1, indent);
      assert before[..most][1..] == rest[..most - 1] && before[..most][0] == before[0];
    }
  }

  // ----- The second loop: what is said of one property of the new object -----

  /** What becomes of a property, without regard to how the loop decides it. */
  ghost predicate Says(env: Env, before: Fields, p: (string, Value), out: seq<Line>, indent: nat, fuel: nat,
                       lines: seq<Line>)
  {
    var (key, w) := p;
    if !Has(before, key) then lines == [At(IS, indent, key, MORE)]
    else
      var v := Get(before, key);
      if v == w && !v.NaN? then lines == []
      else if indent == 0 && key == "children" then lines == [At(WAS, indent, key, MORE), At(IS, indent, key, MORE)]
      else if indent < 3 && v.Obj? && w.Obj? && IsSameElement(env.heap(v.r), env.heap(w.r)) then
        var desc := "<" + env.heap(w.r).element.typeName + " \U{2026} />";
        lines == [At(WAS, indent, key, desc), At(IS, indent, key, desc)]
      else if indent < 3 && v.Obj? && w.Obj? && AreAlike(env.heap(v.r), env.heap(w.r)) then
        SaysNested(env, key, env.heap(v.r), env.heap(w.r), out, indent, fuel, lines)
      else if indent < 3 && v.Func? && w.Func? && AreClosures(env.func(v.f), env.func(w.f)) then
        var name := env.func(w.f).name;
        lines == [At(STILL, indent, key,
                     (if name == Str("") then "() => {}" else (if name.Str? then name.s else env.show(name)) + "() {}")
                     + " Referentially unequal function closure. Consider memoization.")]
      else SaysBoth(env, key, v, w, out, indent, fuel, lines)
  }

  predicate IsSameElement(o: Object, p: Object) {
    && o.mark == ELEMENT && p.mark == ELEMENT
    && o.element.elementType == p.element.elementType && !p.element.elementType.NaN?
    && o.element.key == p.element.key && !p.element.key.NaN?
  }

  predicate AreAlike(o: Object, p: Object) {
    && o.mark == p.mark && o.mark != ELEMENT && !o.mark.NaN?
    && ((o.tag.PlainTag? && p.tag.PlainTag?) || (o.tag.ArrayTag? && p.tag.ArrayTag?))
  }

  predicate AreClosures(f: Function, g: Function) {
    f.name == g.name && !f.name.NaN? && f.arity == g.arity && f.source == g.source
  }

  /** The diff of what is inside, under a line that says so if nothing at all changed there. */
  ghost predicate SaysNested(env: Env, key: string, o: Object, p: Object, out: seq<Line>, indent: nat, fuel: nat,
                             lines: seq<Line>)
  {
    var kind := At(STILL, indent, key, if p.tag.ArrayTag? then "Array" else "");
    var r := AddDiff(env, o.fields, p.fields, out + [kind], indent + 1, fuel);
    && r.Some? && |r.value.out| > |out| && |lines| == |r.value.out| - |out|
    && lines[1..] == r.value.out[|out| + 1..]
    && lines[0] == if r.value.equal && |lines| == 1
                   then kind.(desc := "Referentially unequal but deeply equal objects. Consider memoization.") else kind
  }

  /** The old value and then the new one, each as it is printed. */
  ghost predicate SaysBoth(env: Env, key: string, v: Value, w: Value, out: seq<Line>, indent: nat, fuel: nat,
                           lines: seq<Line>)
  {
    exists was, now ::
      && lines == was + now
      && AddValue(env, key, v, out, indent, WAS, fuel) == Some(out + was)
      && AddValue(env, key, w, out + was, indent, IS, fuel) == Some(out + was + now)
  }

  lemma BothAreSaid(env: Env, key: string, v: Value, w: Value, out: seq<Line>, indent: nat, fuel: nat)
      returns (lines: seq<Line>)
    requires DiffValues(env, key, v, w, out, indent, fuel).Some?
    ensures DiffValues(env, key, v, w, out, indent, fuel) == Some(out + lines)
    ensures SaysBoth(env, key, v, w, out, indent, fuel, lines)
  {
    AddValueExtends(env, key, v, out, indent, REMOVED, fuel);
    var out1 := AddValue(env, key, v, out, indent, REMOVED, fuel).value;
    AddValueExtends(env, key, w, out1, indent, ADDED, fuel);
    var out2 := AddValue(env, key, w, out1, indent, ADDED, fuel).value;
    var was, now := out1[|out|..], out2[|out1|..];
    assert out1 == out + was && out2 == out + was + now;
    lines := was + now;
    assert out2 == out + lines;
  }

  lemma NestedIsSaid(env: Env, key: string, o: Object, p: Object, d: Diffed, indent: nat, fuel: nat)
      returns (lines: seq<Line>)
    requires indent < DEPTH_LIMIT && DiffNested(env, key, o, p, d, indent, fuel).Some?
    ensures DiffNested(env, key, o, p, d, indent, fuel).value.out == d.out + lines
    ensures SaysNested(env, key, o, p, d.out, indent, fuel, lines)
  {
    var desc := if p.tag.ArrayTag? then "Array" else "";
    IndentedIsAt(UNCHANGED, indent, key, desc);
    var kind := At(STILL, indent, key, desc);
    var r := AddDiff(env, o.fields, p.fields, d.out + [kind], indent + 1, fuel);
    DiffReported(env, o.fields, p.fields, d.out + [kind], indent + 1, fuel);
    var all := DiffNested(env, key, o, p, d, indent, fuel).value.out;
    assert r.value.out[..|d.out| + 1] == d.out + [kind];
    lines := all[|d.out|..];
    assert all[..|d.out|] == r.value.out[..|d.out| + 1][..|d.out|] == d.out;
    assert all == d.out + lines;
    assert r.value.out[|d.out|] == r.value.out[..|d.out| + 1][|d.out|] == kind;
  }

  /** One turn of the loop appends what is to be said of its property. */
  lemma TurnSays(env: Env, before: Fields, p: (string, Value), d: Diffed, indent: nat, fuel: nat)
      returns (lines: seq<Line>)
    requires CompareOne(env, before, p, d, indent, fuel).Some?
    ensures CompareOne(env, before, p, d, indent, fuel).value.out == d.out + lines
    ensures Says(env, before, p, d.out, indent, fuel, lines)
  {
    var (key, w) := p;
    lines := [];
    if !Has(before, key) {
      IndentedIsAt(ADDED, indent, key, ELLIPSIS);
      lines := [At(IS, indent, key, MORE)];
    } else if !Identical(Get(before, key), w) {
      lines := ChangeSays(env, before, p, d, indent, fuel);
    }
  }

  lemma ChangeSays(env: Env, before: Fields, p: (string, Value), d: Diffed, indent: nat, fuel: nat)
      returns (lines: seq<Line>)
    requires Has(before, p.0) && !Identical(Get(before, p.0), p.1)
    requires CompareOne(env, before, p, d, indent, fuel).Some?
    ensures CompareOne(env, before, p, d, indent, fuel).value.out == d.out + lines
    ensures Says(env, before, p, d.out, indent, fuel, lines)
  {
    var key, v, w := p.0, Get(before, p.0), p.1;
    match ChangeOf(env, key, v, w, indent)
    case Different => lines := BothAreSaid(env, key, v, w, d.out, indent, fuel);
    case Nested(o, q) => lines := NestedIsSaid(env, key, o, q, d, indent, fuel);
    case change => lines := NoteSays(env, key, v, w, change, d, indent);
  }

  lemma NoteSays(env: Env, key: string, v: Value, w: Value, change: Change, d: Diffed, indent: nat)
      returns (lines: seq<Line>)
    requires change == ChangeOf(env, key, v, w, indent)
    requires change.TopLevelChildren? || change.ElementProps? || change.Closure?
    ensures NoteChange(env, key, w, change, d, indent).out == d.out + lines
    ensures change.TopLevelChildren? ==> lines == [At(WAS, indent, key, MORE), At(IS, indent, key, MORE)]
    ensures change.ElementProps? ==>
              var desc := "<" + env.heap(w.r).element.typeName + " \U{2026} />";
              lines == [At(WAS, indent, key, desc), At(IS, indent, key, desc)]
    ensures change.Closure? ==>
              var name := env.func(w.f).name;
              var desc := if name == Str("") then "() => {}"
                          else (if name.Str? then name.s else env.show(name)) + "() {}";
              lines == [At(STILL, indent, key, desc + " Referentially unequal function closure. Consider memoization.")]
  {
    var more := if change.ElementProps? then "<" + env.heap(w.r).element.typeName + " " + ELLIPSIS + " />"
                else ELLIPSIS;
    if change.ElementProps? {
      assert more == "<" + env.heap(w.r).element.typeName + " \U{2026} />";
    }
    IndentedIsAt(REMOVED, indent, key, more);
    IndentedIsAt(ADDED, indent, key, more);
    lines := [At(WAS, indent, key, more), At(IS, indent, key, more)];
    if change.Closure? {
      var name := env.func(w.f).name;
      var desc := if name == Str("") then "() => {}" else (if name.Str? then name.s else env.show(name)) + "() {}";
      IndentedIsAt(UNCHANGED, indent, key, desc + SAME_CLOSURE);
      lines := [At(STILL, indent, key, desc + SAME_CLOSURE)];
    }
  }

  function Flatten(parts: seq<seq<Line>>): seq<Line> {
    if parts == [] then [] else parts[0] + Flatten(parts[1..])
  }

  ghost predicate SaysAll(env: Env, before: Fields, rest: Fields, out: seq<Line>, indent: nat, fuel: nat,
                          parts: seq<seq<Line>>)
  {
    && |parts| == |rest|
    && forall k :: 0 <= k < |rest| ==> Says(env, before, rest[k], out + Flatten(parts[..k]), indent, fuel, parts[k])
  }

  lemma FlattenLater(out: seq<Line>, first: seq<Line>, others: seq<seq<Line>>, k: nat)
    requires k <= |others|
    ensures ([first] + others)[..k + 1] == [first] + others[..k]
    ensures out + Flatten([first] + others[..k]) == (out + first) + Flatten(others[..k])
  {
    assert ([first] + others[..k])[1..] == others[..k];
    assert out + (first + Flatten(others[..k])) == (out + first) + Flatten(others[..k]);
  }

  lemma FirstPartSays(env: Env, before: Fields, rest: Fields, out: seq<Line>, indent: nat, fuel: nat, first: seq<Line>,
                      others: seq<seq<Line>>)
    requires rest != [] && Says(env, before, rest[0], out, indent, fuel, first)
    requires SaysAll(env, before, rest[1..], out + first, indent, fuel, others)
    ensures SaysAll(env, before, rest, out, indent, fuel, [first] + others)
  {
    var parts := [first] + others;
    forall k | 0 <= k < |rest|
      ensures Says(env, before, rest[k], out + Flatten(parts[..k]), indent, fuel, parts[k])
    {
      if k == 0 {
        assert out + Flatten(parts[..0]) == out;
      } else {
        FlattenLater(out, first, others, k - 1);
        var out1 := (out + first) + Flatten(others[..k - 1]);
        assert Says(env, before, rest[1..][k - 1], out1, indent, fuel, others[k - 1]);
      }
    }
  }

  /** The loop says of each property in turn what there is to say. */
  lemma {:induction false} LoopSays(env: Env, before: Fields, rest: Fields, d: Diffed, indent: nat, fuel: nat)
      returns (parts: seq<seq<Line>>)
    requires CompareAll(env, before, rest, d, indent, fuel).Some?
    ensures CompareAll(env, before, rest, d, indent, fuel).value.out == d.out + Flatten(parts)
    ensures SaysAll(env, before, rest, d.out, indent, fuel, parts)
    decreases |rest|
  {
    if rest == [] {
      parts := [];
      assert d.out + [] == d.out;
    } else {
      var first := TurnSays(env, before, rest[0], d, indent, fuel);
      var d1 := CompareOne(env, before, rest[0], d, indent, fuel).value;
      var others := LoopSays(env, before, rest[1..], d1, indent, fuel);
      parts := [first] + others;
      FirstPartSays(env, before, rest, d.out, indent, fuel, first, others);
      FlattenLater(d.out, first, others, |others|);
      assert others[..|others|] == others && parts[..|others| + 1] == parts;
    }
  }
}
