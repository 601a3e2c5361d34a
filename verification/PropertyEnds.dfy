/** Exactly which values are printed to an end, and exactly which pairs of objects are compared to an end. */
module PropertyEnds {
  import opened Wrappers
  import opened PropertyPrinter
  import opened PropertyDiff

  /** Printing this value at this depth. */
  datatype Spot = Spot(v: Value, indent: nat)

  // ----- What printing one value goes on to print -----

  /** Printing the value prints others inside, rather than just one line. */
  predicate Opens(env: Env, s: Spot) {
    s.v.Obj? &&
    var o := env.heap(s.v.r);
    if IsElement(o) then
      var props := env.heap(o.element.props).fields;
      && s.indent >= DEPTH_LIMIT
      && !(IsNullish(o.element.key) && (props == [] || (|props| == 1 && props[0].0 == "children")))
    else
      match o.tag
      case PromiseTag(status) => !status.Pending?
      case ArrayTag(items) =>
        var kind := ArrayKindOf(env, items);
        kind.EntriesArray? || (kind.ComplexArray? && s.indent < DEPTH_LIMIT)
      case _ => s.indent < DEPTH_LIMIT
  }

  /** Printing `s` goes on to print `t`: the value of a settled promise at the same depth; and one deeper, the key
      and the shown props of an element, the values of the first hundred entries of an array of entries, and the
      first hundred public properties of any other object. */
  predicate Visits(env: Env, s: Spot, t: Spot) {
    Opens(env, s) &&
    var o := env.heap(s.v.r);
    if IsElement(o) then
      t.indent == s.indent + 1
      && ((!o.element.key.Null? && t.v == o.element.key) || ShownProp(env.heap(o.element.props).fields, 0, t.v))
    else if o.tag.PromiseTag? then
      t == Spot(if o.tag.status.Fulfilled? then o.tag.status.value else o.tag.status.reason, s.indent)
    else
      t.indent == s.indent + 1
      && if o.tag.ArrayTag? && ArrayKindOf(env, o.tag.items).EntriesArray? then ShownEntry(env, o.tag.items, 0, t.v)
         else ShownField(o.fields, 0, t.v)
  }

  predicate ShownProp(props: Fields, added: nat, v: Value) {
    exists k :: 0 <= k < |props| && added + k < WIDTH_LIMIT && IsProp(props[k].0) && props[k].1 == v
  }

  predicate IsProp(key: string) { key != "children" && IsPublic(key) }

  predicate ShownEntry(env: Env, items: seq<Value>, i: nat, v: Value)
    requires AllEntries(env, items)
  {
    exists k :: i <= k < |items| && k < WIDTH_LIMIT && env.heap(items[k].r).tag.items[1] == v
  }

  function Publics(fields: Fields): nat {
    if fields == [] then 0 else (if IsPublic(fields[0].0) then 1 else 0) + Publics(fields[1..])
  }

  predicate ShownField(fields: Fields, added: nat, v: Value) {
    exists k ::
      0 <= k < |fields| && IsPublic(fields[k].0) && added + Publics(fields[..k]) < WIDTH_LIMIT && fields[k].1 == v
  }

  // ----- A printing that ends within some nested calls -----

  ghost predicate Ends(env: Env, s: Spot, fuel: nat)
    decreases fuel
  {
    Opens(env, s) ==> fuel > 0 && forall t :: Visits(env, s, t) ==> Ends(env, t, fuel - 1)
  }

  lemma {:induction false} PrintingEnds(env: Env, name: string, v: Value, out: seq<Line>, indent: nat, prefix: string,
                                        fuel: nat)
    ensures AddValue(env, name, v, out, indent, prefix, fuel).Some? <==> Ends(env, Spot(v, indent), fuel)
    decreases fuel, 1
  {
    var s := Spot(v, indent);
    if v.Obj? && fuel > 0 && Opens(env, s) {
      var o := env.heap(v.r);
      var caption := Indented(prefix, indent, name);
      if IsElement(o) {
        ElementEnds(env, name, o.element, out, indent, prefix, fuel);
        ElementVisits(env, s);
      } else if o.tag.PromiseTag? {
        var settled := if o.tag.status.Fulfilled? then o.tag.status.value else o.tag.status.reason;
        PrintingEnds(env, name, settled, out, indent, prefix, fuel - 1);
        assert Visits(env, s, Spot(settled, indent));
      } else if o.tag.ArrayTag? && ArrayKindOf(env, o.tag.items).EntriesArray? {
        EntriesEnd(env, o.tag.items, 0, out + [Line(caption, "")], indent + 1, prefix, fuel - 1);
        assert forall w :: Visits(env, s, Spot(w, indent + 1)) <==> ShownEntry(env, o.tag.items, 0, w);
      } else {
        ObjectEnds(env, o.fields, 0, out + [Line(caption, ObjectDesc(o, indent))], indent + 1, prefix, fuel - 1);
        assert forall w :: Visits(env, s, Spot(w, indent + 1)) <==> ShownField(o.fields, 0, w);
      }
    }
  }

  lemma ElementVisits(env: Env, s: Spot)
    requires Opens(env, s) && IsElement(env.heap(s.v.r))
    ensures var e := env.heap(s.v.r).element;
            forall t :: Visits(env, s, t) <==>
              && t.indent == s.indent + 1
              && ((!e.key.Null? && t.v == e.key) || ShownProp(env.heap(e.props).fields, 0, t.v))
  {}

  lemma {:induction false} ElementEnds(env: Env, name: string, e: Element, out: seq<Line>, indent: nat, prefix: string,
                                       fuel: nat)
    requires fuel > 0 && indent >= DEPTH_LIMIT
    requires var props := env.heap(e.props).fields;
             !(IsNullish(e.key) && (props == [] || (|props| == 1 && props[0].0 == "children")))
    ensures AddElement(env, name, e, out, indent, prefix, fuel).Some? <==>
            && (!e.key.Null? ==> Ends(env, Spot(e.key, indent + 1), fuel - 1))
            && forall v :: ShownProp(env.heap(e.props).fields, 0, v) ==> Ends(env, Spot(v, indent + 1), fuel - 1)
    decreases fuel, 0
  {
    var out1 := out + [Line(Indented(prefix, indent, name), "<" + e.typeName)];
    PrintingEnds(env, "key", e.key, out1, indent + 1, prefix, fuel - 1);
    var out2 := if e.key.Null? then Some(out1) else AddValue(env, "key", e.key, out1, indent + 1, prefix, fuel - 1);
    if out2.Some? { PropsEnd(env, env.heap(e.props).fields, 0, out2.value, indent + 1, prefix, fuel - 1); }
  }

  lemma {:induction false} ObjectEnds(env: Env, fields: Fields, added: nat, out: seq<Line>, indent: nat,
                                      prefix: string, fuel: nat)
    requires added < WIDTH_LIMIT
    ensures AddObject(env, fields, added, out, indent, prefix, fuel).Some? <==>
            forall v :: ShownField(fields, added, v) ==> Ends(env, Spot(v, indent), fuel)
    decreases fuel, 2, |fields|
  {
    if fields != [] {
      FirstField(fields, added);
      if !IsPublic(fields[0].0) {
        ObjectEnds(env, fields[1..], added, out, indent, prefix, fuel);
      } else {
        var r := AddValue(env, fields[0].0, fields[0].1, out, indent, prefix, fuel);
        PrintingEnds(env, fields[0].0, fields[0].1, out, indent, prefix, fuel);
        if r.Some? && added + 1 < WIDTH_LIMIT {
          ObjectEnds(env, fields[1..], added + 1, r.value, indent, prefix, fuel);
        }
      }
    }
  }

  lemma FirstField(fields: Fields, added: nat)
    requires fields != [] && added < WIDTH_LIMIT
    ensures var rest, public := fields[1..], IsPublic(fields[0].0);
            forall v :: ShownField(fields, added, v) <==>
              (public && v == fields[0].1) || ShownField(rest, if public then added + 1 else added, v)
  {
    var rest := fields[1..];
    assert forall k :: 0 < k <= |fields| ==> fields[..k][1..] == rest[..k - 1];
    forall v ensures ShownField(fields, added, v) <==>
        || (IsPublic(fields[0].0) && v == fields[0].1)
        || ShownField(rest, if IsPublic(fields[0].0) then added + 1 else added, v)
    {
      forall k | 0 <= k < |rest| ensures rest[k] == fields[k + 1] && Publics(fields[..k + 1]) ==
          (if IsPublic(fields[0].0) then 1 else 0) + Publics(rest[..k]) {}
      if ShownField(rest, if IsPublic(fields[0].0) then added + 1 else added, v) {
        var k :| 0 <= k < |rest| && IsPublic(rest[k].0) && rest[k].1 == v
          && (if IsPublic(fields[0].0) then added + 1 else added) + Publics(rest[..k]) < WIDTH_LIMIT;
        assert fields[k + 1].1 == v && added + Publics(fields[..k + 1]) < WIDTH_LIMIT;
      }
      if ShownField(fields, added, v) {
        var k :| 0 <= k < |fields| && IsPublic(fields[k].0) && fields[k].1 == v
          && added + Publics(fields[..k]) < WIDTH_LIMIT;
        if k > 0 { assert rest[k - 1] == fields[k] && Publics(fields[..(k - 1) + 1]) ==
          (if IsPublic(fields[0].0) then 1 else 0) + Publics(rest[..k - 1]); }
      }
    }
  }

  lemma {:induction false} PropsEnd(env: Env, props: Fields, added: nat, out: seq<Line>, indent: nat, prefix: string,
                                    fuel: nat)
    requires added < WIDTH_LIMIT
    ensures AddProps(env, props, added, out, indent, prefix, fuel).Some? <==>
            forall v :: ShownProp(props, added, v) ==> Ends(env, Spot(v, indent), fuel)
    decreases fuel, 2, |props|
  {
    if props != [] {
      var (key, v) := props[0];
      FirstProp(props, added);
      PrintingEnds(env, key, v, out, indent, prefix, fuel);
      var r := if IsProp(key) then AddValue(env, key, v, out, indent, prefix, fuel) else Some(out);
      if r.Some? && added + 1 < WIDTH_LIMIT { PropsEnd(env, props[1..], added + 1, r.value, indent, prefix, fuel); }
    }
  }

  lemma FirstProp(props: Fields, added: nat)
    requires props != [] && added < WIDTH_LIMIT
    ensures forall v :: ShownProp(props, added, v) <==>
              (IsProp(props[0].0) && v == props[0].1) || ShownProp(props[1..], added + 1, v)
  {
    var rest := props[1..];
    forall v
      ensures ShownProp(props, added, v) <==>
              (IsProp(props[0].0) && v == props[0].1) || ShownProp(rest, added + 1, v)
    {
      if ShownProp(rest, added + 1, v) {
        var k :| 0 <= k < |rest| && added + 1 + k < WIDTH_LIMIT && IsProp(rest[k].0) && rest[k].1 == v;
        assert props[k + 1].1 == v;
      }
      if ShownProp(props, added, v) {
        var k :| 0 <= k < |props| && added + k < WIDTH_LIMIT && IsProp(props[k].0) && props[k].1 == v;
        if k > 0 { assert rest[k - 1] == props[k]; }
      }
    }
  }

  lemma {:induction false} EntriesEnd(env: Env, items: seq<Value>, i: nat, out: seq<Line>, indent: nat, prefix: string,
                                      fuel: nat)
    requires AllEntries(env, items)
    ensures AddEntries(env, items, i, out, indent, prefix, fuel).Some? <==>
            forall v :: ShownEntry(env, items, i, v) ==> Ends(env, Spot(v, indent), fuel)
    decreases fuel, 2, |items| - i
  {
    if i < |items| && i < WIDTH_LIMIT {
      var entry := env.heap(items[i].r).tag.items;
      PrintingEnds(env, entry[0].s, entry[1], out, indent, prefix, fuel);
      var r := AddValue(env, entry[0].s, entry[1], out, indent, prefix, fuel);
      assert ShownEntry(env, items, i, entry[1]);
      assert forall v :: ShownEntry(env, items, i, v) <==> v == entry[1] || ShownEntry(env, items, i + 1, v);
      if r.Some? { EntriesEnd(env, items, i + 1, r.value, indent, prefix, fuel); }
    }
  }

  // ----- Exactly when printing ends -----

  /** From every spot of the trap printing goes on to some spot of the trap. */
  ghost predicate Trap(env: Env, trap: iset<Spot>) {
    forall s {:trigger StaysIn(env, trap, s)} :: s in trap ==> StaysIn(env, trap, s)
  }

  ghost predicate StaysIn(env: Env, trap: iset<Spot>, s: Spot) { exists t :: t in trap && Visits(env, s, t) }

  ghost predicate Trapped(env: Env, s: Spot) { exists trap: iset<Spot> :: s in trap && Trap(env, trap) }

  lemma {:induction false} TrapsHold(env: Env, trap: iset<Spot>, s: Spot, fuel: nat)
    requires Trap(env, trap) && s in trap
    ensures !Ends(env, s, fuel)
    decreases fuel
  {
    assert StaysIn(env, trap, s);
    var t :| t in trap && Visits(env, s, t);
    if fuel > 0 { TrapsHold(env, trap, t, fuel - 1); }
  }

  lemma {:induction false} EndsLonger(env: Env, s: Spot, f: nat, g: nat)
    requires f <= g && Ends(env, s, f)
    ensures Ends(env, s, g)
    decreases f
  {
    if Opens(env, s) {
      forall t | Visits(env, s, t) ensures Ends(env, t, g - 1) { EndsLonger(env, t, f - 1, g - 1); }
    }
  }

  /** The values among which printing `s` visits some, and the depth of all of them. */
  function Inside(env: Env, s: Spot): seq<Value>
    requires s.v.Obj?
  {
    var o := env.heap(s.v.r);
    if IsElement(o) then [o.element.key] + Values(env.heap(o.element.props).fields)
    else
      match o.tag
      case PromiseTag(Fulfilled(v)) => [v]
      case PromiseTag(Rejected(v)) => [v]
      case ArrayTag(items) => seq(|items|, k requires 0 <= k < |items| => Second(env, items[k])) + Values(o.fields)
      case _ => Values(o.fields)
  }

  function Values(fields: Fields): seq<Value> { seq(|fields|, k requires 0 <= k < |fields| => fields[k].1) }

  function Second(env: Env, v: Value): Value {
    if IsEntry(env, v) then env.heap(v.r).tag.items[1] else v
  }

  function Depth(env: Env, s: Spot): nat
    requires s.v.Obj?
  {
    var o := env.heap(s.v.r); if !IsElement(o) && o.tag.PromiseTag? then s.indent else s.indent + 1
  }

  lemma VisitsInside(env: Env, s: Spot, t: Spot) returns (k: nat)
    requires Visits(env, s, t)
    ensures k < |Inside(env, s)| && t == Spot(Inside(env, s)[k], Depth(env, s))
  {
    var o := env.heap(s.v.r);
    k := 0;
    if IsElement(o) {
      if t.v != o.element.key {
        var props := env.heap(o.element.props).fields;
        k :| 0 <= k < |props| && props[k].1 == t.v;
        k := k + 1;
      }
    } else if o.tag.ArrayTag? {
      var items := o.tag.items;
      if ArrayKindOf(env, items).EntriesArray? {
        k :| 0 <= k < |items| && k < WIDTH_LIMIT && env.heap(items[k].r).tag.items[1] == t.v;
      } else {
        k :| 0 <= k < |o.fields| && o.fields[k].1 == t.v;
        k := |items| + k;
      }
    } else if !o.tag.PromiseTag? {
      k :| 0 <= k < |o.fields| && o.fields[k].1 == t.v;
    }
  }

  ghost predicate EverEnds(env: Env, s: Spot) { exists fuel: nat :: Ends(env, s, fuel) }

  /** Only finitely many spots are visited, so if each has a bound, one bound serves for all of them. */
  lemma {:induction false} OneBound(env: Env, s: Spot, values: seq<Value>, indent: nat) returns (fuel: nat)
    requires forall v :: v in values && Visits(env, s, Spot(v, indent)) ==> EverEnds(env, Spot(v, indent))
    ensures forall v :: v in values && Visits(env, s, Spot(v, indent)) ==> Ends(env, Spot(v, indent), fuel)
  {
    fuel := 0;
    if values != [] {
      var front, last := values[..|values| - 1], Spot(values[|values| - 1], indent);
      fuel := OneBound(env, s, front, indent);
      if Visits(env, s, last) {
        var f: nat :| Ends(env, last, f);
        var most := if f < fuel then fuel else f;
        EndsLonger(env, last, f, most);
        forall v | v in front && Visits(env, s, Spot(v, indent)) ensures Ends(env, Spot(v, indent), most) {
          EndsLonger(env, Spot(v, indent), fuel, most);
        }
        fuel := most;
      }
    }
  }

  /** What never ends visits something that never ends. */
  lemma {:induction false} EndlessGoesOn(env: Env, s: Spot)
    requires !EverEnds(env, s)
    ensures exists t :: Visits(env, s, t) && !EverEnds(env, t)
  {
    assert !Ends(env, s, 0);
    if forall t :: Visits(env, s, t) ==> EverEnds(env, t) {
      var fuel := OneBound(env, s, Inside(env, s), Depth(env, s));
      forall t | Visits(env, s, t) ensures Ends(env, t, fuel) {
        var k := VisitsInside(env, s, t);
        assert t.v in Inside(env, s);
      }
      assert Ends(env, s, fuel + 1);
    }
  }

  lemma EndlessIsTrapped(env: Env, s: Spot)
    ensures EverEnds(env, s) <==> !Trapped(env, s)
  {
    if EverEnds(env, s) && Trapped(env, s) {
      var trap: iset<Spot> :| s in trap && Trap(env, trap);
      var fuel: nat :| Ends(env, s, fuel);
      TrapsHold(env, trap, s, fuel);
    }
    if !EverEnds(env, s) {
      var trap := iset t: Spot | !EverEnds(env, t);
      forall t | t in trap ensures StaysIn(env, trap, t) { EndlessGoesOn(env, t); }
      assert s in trap && Trap(env, trap);
    }
  }

  /** Printing a value ends exactly when it is in no trap. */
  lemma PrintingEndsExactly(env: Env, name: string, v: Value, out: seq<Line>, indent: nat, prefix: string)
    ensures (exists fuel: nat :: AddValue(env, name, v, out, indent, prefix, fuel).Some?) <==>
              !Trapped(env, Spot(v, indent))
  {
    EndlessIsTrapped(env, Spot(v, indent));
    forall fuel: nat
      ensures AddValue(env, name, v, out, indent, prefix, fuel).Some? <==> Ends(env, Spot(v, indent), fuel)
    {
      PrintingEnds(env, name, v, out, indent, prefix, fuel);
    }
    if EverEnds(env, Spot(v, indent)) {
      var fuel: nat :| Ends(env, Spot(v, indent), fuel);
      assert AddValue(env, name, v, out, indent, prefix, fuel).Some?;
    }
  }

  // ----- Exactly when comparing ends -----

  /** The diff of `before` with the properties `rest` prints this spot: both values of a pair whose change is not
      looked into, at its own depth or inside nested objects. */
  predicate DiffPrints(env: Env, before: Fields, rest: Fields, checked: nat, indent: nat, s: Spot)
    decreases Levels(indent), |rest|
  {
    rest != [] && checked <= WIDTH_LIMIT &&
    var (key, w) := rest[0];
    if !Has(before, key) || Identical(Get(before, key), w) then
      DiffPrints(env, before, rest[1..], checked + 1, indent, s)
    else
      var v := Get(before, key);
      match ChangeOf(env, key, v, w, indent)
      case Different =>
        || s == Spot(v, indent) || s == Spot(w, indent)
        || DiffPrints(env, before, rest[1..], checked + 1, indent, s)
      case Nested(o, p) =>
        DiffPrints(env, o.fields, p.fields, 0, indent + 1, s) || DiffPrints(env, before, rest[1..], checked, indent, s)
      case _ => DiffPrints(env, before, rest[1..], checked, indent, s)
  }

  lemma {:induction false} DiffingEnds(env: Env, before: Fields, rest: Fields, checked: nat, d: Diffed, indent: nat,
                                       fuel: nat)
    ensures DiffKept(env, before, rest, checked, d, indent, fuel).Some? <==>
            forall s :: DiffPrints(env, before, rest, checked, indent, s) ==> Ends(env, s, fuel)
    decreases Levels(indent), |rest|
  {
    if rest != [] && checked <= WIDTH_LIMIT {
      var (key, w) := rest[0];
      if !Has(before, key) {
        var d1 := Diffed(false, d.out + [Line(Indented(ADDED, indent, key), ELLIPSIS)]);
        DiffingEnds(env, before, rest[1..], checked + 1, d1, indent, fuel);
      } else if Identical(Get(before, key), w) {
        DiffingEnds(env, before, rest[1..], checked + 1, d, indent, fuel);
      } else {
        var v := Get(before, key);
        match ChangeOf(env, key, v, w, indent)
        case Different =>
          ValuesEnd(env, key, v, w, d.out, indent, fuel);
          var r := DiffValues(env, key, v, w, d.out, indent, fuel);
          if r.Some? { DiffingEnds(env, before, rest[1..], checked + 1, Diffed(false, r.value), indent, fuel); }
          assert DiffPrints(env, before, rest, checked, indent, Spot(v, indent));
          assert DiffPrints(env, before, rest, checked, indent, Spot(w, indent));
        case Nested(o, p) =>
          NestedEnds(env, key, o, p, d, indent, fuel);
          var r := DiffNested(env, key, o, p, d, indent, fuel);
          if r.Some? { DiffingEnds(env, before, rest[1..], checked, r.value, indent, fuel); }
        case change =>
          DiffingEnds(env, before, rest[1..], checked, NoteChange(env, key, w, change, d, indent), indent, fuel);
      }
    }
  }

  lemma ValuesEnd(env: Env, key: string, v: Value, w: Value, out: seq<Line>, indent: nat, fuel: nat)
    ensures DiffValues(env, key, v, w, out, indent, fuel).Some? <==>
            Ends(env, Spot(v, indent), fuel) && Ends(env, Spot(w, indent), fuel)
  {
    PrintingEnds(env, key, v, out, indent, REMOVED, fuel);
    var r := AddValue(env, key, v, out, indent, REMOVED, fuel);
    if r.Some? { PrintingEnds(env, key, w, r.value, indent, ADDED, fuel); }
  }

  lemma {:induction false} NestedEnds(env: Env, key: string, o: Object, p: Object, d: Diffed, indent: nat, fuel: nat)
    requires indent < DEPTH_LIMIT
    ensures DiffNested(env, key, o, p, d, indent, fuel).Some? <==>
            forall s :: DiffPrints(env, o.fields, p.fields, 0, indent + 1, s) ==> Ends(env, s, fuel)
    decreases Levels(indent), 0
  {
    var entry := Line(Indented(UNCHANGED, indent, key), if p.tag.ArrayTag? then "Array" else "");
    var d1 := DiffRemoved(o.fields, p.fields, 0, Diffed(true, d.out + [entry]), indent + 1);
    DiffingEnds(env, o.fields, p.fields, 0, d1, indent + 1, fuel);
  }

  lemma {:induction false} DiffBound(env: Env, before: Fields, rest: Fields, checked: nat,
                                     indent: nat) returns (fuel: nat)
    requires forall s :: DiffPrints(env, before, rest, checked, indent, s) ==> EverEnds(env, s)
    ensures forall s :: DiffPrints(env, before, rest, checked, indent, s) ==> Ends(env, s, fuel)
    decreases Levels(indent), |rest|
  {
    fuel := 0;
    if rest != [] && checked <= WIDTH_LIMIT {
      var (key, w) := rest[0];
      if !Has(before, key) || Identical(Get(before, key), w) {
        fuel := DiffBound(env, before, rest[1..], checked + 1, indent);
      } else {
        var v := Get(before, key);
        match ChangeOf(env, key, v, w, indent)
        case Different =>
          assert DiffPrints(env, before, rest, checked, indent, Spot(v, indent));
          assert DiffPrints(env, before, rest, checked, indent, Spot(w, indent));
          var f: nat :| Ends(env, Spot(v, indent), f);
          var g: nat :| Ends(env, Spot(w, indent), g);
          var h := DiffBound(env, before, rest[1..], checked + 1, indent);
          fuel := f + g + h;
          EndsLonger(env, Spot(v, indent), f, fuel);
          EndsLonger(env, Spot(w, indent), g, fuel);
          forall s | DiffPrints(env, before, rest[1..], checked + 1, indent, s) ensures Ends(env, s, fuel) {
            EndsLonger(env, s, h, fuel);
          }
        case Nested(o, p) =>
          var f := DiffBound(env, o.fields, p.fields, 0, indent + 1);
          var g := DiffBound(env, before, rest[1..], checked, indent);
          fuel := f + g;
          forall s | DiffPrints(env, o.fields, p.fields, 0, indent + 1, s) ensures Ends(env, s, fuel) {
            EndsLonger(env, s, f, fuel);
          }
          forall s | DiffPrints(env, before, rest[1..], checked, indent, s) ensures Ends(env, s, fuel) {
            EndsLonger(env, s, g, fuel);
          }
        case change =>
          fuel := DiffBound(env, before, rest[1..], checked, indent);
      }
    }
  }

  /** A diff ends exactly when no value that it prints is in a trap. */
  lemma DiffEndsExactly(env: Env, before: Fields, after: Fields, out: seq<Line>, indent: nat)
    ensures (exists fuel: nat :: AddDiff(env, before, after, out, indent, fuel).Some?) <==>
            forall s :: DiffPrints(env, before, after, 0, indent, s) ==> !Trapped(env, s)
  {
    var d := DiffRemoved(before, after, 0, Diffed(true, out), indent);
    forall fuel: nat
      ensures AddDiff(env, before, after, out, indent, fuel).Some? <==>
              forall s :: DiffPrints(env, before, after, 0, indent, s) ==> Ends(env, s, fuel)
    {
      DiffingEnds(env, before, after, 0, d, indent, fuel);
    }
    forall s ensures EverEnds(env, s) <==> !Trapped(env, s) { EndlessIsTrapped(env, s); }
    if forall s :: DiffPrints(env, before, after, 0, indent, s) ==> !Trapped(env, s) {
      var fuel := DiffBound(env, before, after, 0, indent);
      assert AddDiff(env, before, after, out, indent, fuel).Some?;
    }
  }

  // ----- Values with and without an end -----

  /** Where each visit leads to a spot of lower rank, as on heaps without cycles, every printing ends. */
  lemma {:induction false} RankedEnds(env: Env, rank: Spot -> nat, s: Spot)
    requires forall a, b {:trigger Visits(env, a, b)} :: Visits(env, a, b) ==> rank(b) < rank(a)
    ensures Ends(env, s, rank(s) + 1)
    decreases rank(s)
  {
    forall t | Visits(env, s, t) ensures Ends(env, t, rank(s)) {
      RankedEnds(env, rank, t);
      EndsLonger(env, t, rank(t) + 1, rank(s));
    }
  }

  /** An element above the depth limit takes one line, whatever it holds. */
  lemma ShallowElementEnds(env: Env, r: Ref, indent: nat)
    requires IsElement(env.heap(r)) && indent < DEPTH_LIMIT
    ensures Ends(env, Spot(Obj(r), indent), 0)
  {}

  /** An entry tuple whose array is its own value is printed without end, at every depth. */
  lemma SelfEntryNeverEnds(env: Env, r: Ref, q: Ref, key: string, indent: nat)
    requires !IsElement(env.heap(r)) && env.heap(r).tag == ArrayTag([Obj(q)])
    requires env.heap(q).tag == ArrayTag([Str(key), Obj(r)])
    ensures Trapped(env, Spot(Obj(r), indent))
  {
    var trap := iset s: Spot | s.v == Obj(r);
    assert IsEntry(env, Obj(q));
    forall s | s in trap ensures StaysIn(env, trap, s) {
      var items := env.heap(r).tag.items;
      assert AllEntries(env, items);
      assert env.heap(items[0].r).tag.items[1] == Obj(r);
      assert Visits(env, s, Spot(Obj(r), s.indent + 1));
    }
    assert Trap(env, trap);
  }

  /** An element that is one of its own props is printed without end from the depth limit on. */
  lemma SelfElementNeverEnds(env: Env, r: Ref, key: string, indent: nat)
    requires IsElement(env.heap(r)) && indent >= DEPTH_LIMIT && IsProp(key)
    requires env.heap(env.heap(r).element.props).fields == [(key, Obj(r))]
    ensures Trapped(env, Spot(Obj(r), indent))
  {
    var trap := iset s: Spot | s.v == Obj(r) && s.indent >= DEPTH_LIMIT;
    forall s | s in trap ensures StaysIn(env, trap, s) {
      assert env.heap(env.heap(r).element.props).fields[0].1 == Obj(r);
      assert Visits(env, s, Spot(Obj(r), s.indent + 1));
    }
    assert Trap(env, trap);
  }

  /** A promise that is settled with itself is printed without end, so a diff in which it went away has none either. */
  lemma SelfPromiseDiffNeverEnds(env: Env, r: Ref, out: seq<Line>, indent: nat, fuel: nat)
    requires !IsElement(env.heap(r)) && env.heap(r).tag == PromiseTag(Fulfilled(Obj(r)))
    ensures AddDiff(env, [("data", Obj(r))], [("data", Null)], out, indent, fuel).None?
  {
    var before: Fields, after: Fields := [("data", Obj(r))], [("data", Null)];
    var s := Spot(Obj(r), indent);
    assert ChangeOf(env, "data", Obj(r), Null, indent) == Different;
    assert DiffPrints(env, before, after, 0, indent, s);
    var trap := iset{s};
    assert StaysIn(env, trap, s) by { assert Visits(env, s, s); }
    assert Trap(env, trap) && Trapped(env, s);
    DiffEndsExactly(env, before, after, out, indent);
  }
}
