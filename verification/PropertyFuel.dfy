/** What fuel stands for: a run that ends gives the same lines with any more of it, and some runs never end. */
module PropertyFuel {
  import opened PropertyPrinter

  lemma {:induction false} MoreFuelSameLines(env: Env, name: string, v: Value, out: seq<Line>, indent: nat,
                                             prefix: string, f: nat, g: nat)
    requires f <= g && AddValue(env, name, v, out, indent, prefix, f).Some?
    ensures AddValue(env, name, v, out, indent, prefix, g) == AddValue(env, name, v, out, indent, prefix, f)
    decreases f, 1
  {
    if v.Obj? {
      var o := env.heap(v.r);
      var caption := Indented(prefix, indent, name);
      if IsElement(o) {
        ElementFuel(env, name, o.element, out, indent, prefix, f, g);
      } else if o.tag.PromiseTag? {
        if !o.tag.status.Pending? {
          var settled := if o.tag.status.Fulfilled? then o.tag.status.value else o.tag.status.reason;
          MoreFuelSameLines(env, name, settled, out, indent, prefix, f - 1, g - 1);
        }
      } else if o.tag.ArrayTag? && ArrayKindOf(env, o.tag.items) in {EmptyArray, PrimitiveArray} {
      } else if o.tag.ArrayTag? && ArrayKindOf(env, o.tag.items) == EntriesArray {
        EntriesFuel(env, o.tag.items, 0, out + [Line(caption, "")], indent + 1, prefix, f - 1, g - 1);
      } else if indent < DEPTH_LIMIT {
        ObjectFuel(env, o.fields, 0, out + [Line(caption, ObjectDesc(o, indent))], indent + 1, prefix, f - 1, g - 1);
      }
    }
  }

  lemma {:induction false} ObjectFuel(env: Env, fields: seq<(string, Value)>, added: nat, out: seq<Line>, indent: nat,
                                      prefix: string, f: nat, g: nat)
    requires f <= g && AddObject(env, fields, added, out, indent, prefix, f).Some?
    ensures AddObject(env, fields, added, out, indent, prefix, g) ==
              AddObject(env, fields, added, out, indent, prefix, f)
    decreases f, 2, |fields|
  {
    if fields != [] {
      if !IsPublic(fields[0].0) {
        ObjectFuel(env, fields[1..], added, out, indent, prefix, f, g);
      } else {
        MoreFuelSameLines(env, fields[0].0, fields[0].1, out, indent, prefix, f, g);
        if added + 1 < WIDTH_LIMIT {
          var out1 := AddValue(env, fields[0].0, fields[0].1, out, indent, prefix, f).value;
          ObjectFuel(env, fields[1..], added + 1, out1, indent, prefix, f, g);
        }
      }
    }
  }

  lemma {:induction false} EntriesFuel(env: Env, items: seq<Value>, i: nat, out: seq<Line>, indent: nat,
                                       prefix: string, f: nat, g: nat)
    requires AllEntries(env, items) && f <= g && AddEntries(env, items, i, out, indent, prefix, f).Some?
    ensures AddEntries(env, items, i, out, indent, prefix, g) == AddEntries(env, items, i, out, indent, prefix, f)
    decreases f, 2, |items| - i
  {
    if i < |items| && i < WIDTH_LIMIT {
      var entry := env.heap(items[i].r).tag.items;
      MoreFuelSameLines(env, entry[0].s, entry[1], out, indent, prefix, f, g);
      var out1 := AddValue(env, entry[0].s, entry[1], out, indent, prefix, f).value;
      EntriesFuel(env, items, i + 1, out1, indent, prefix, f, g);
    }
  }

  lemma {:induction false} PropsFuel(env: Env, props: seq<(string, Value)>, added: nat, out: seq<Line>, indent: nat,
                                     prefix: string, f: nat, g: nat)
    requires f <= g && AddProps(env, props, added, out, indent, prefix, f).Some?
    ensures AddProps(env, props, added, out, indent, prefix, g) == AddProps(env, props, added, out, indent, prefix, f)
    decreases f, 2, |props|
  {
    if props != [] {
      var (key, v) := props[0];
      var plain := key == "children" || !IsPublic(key);
      if !plain { MoreFuelSameLines(env, key, v, out, indent, prefix, f, g); }
      var out1 := if plain then out else AddValue(env, key, v, out, indent, prefix, f).value;
      if added + 1 < WIDTH_LIMIT { PropsFuel(env, props[1..], added + 1, out1, indent, prefix, f, g); }
    }
  }

  lemma {:induction false} ElementFuel(env: Env, name: string, e: Element, out: seq<Line>, indent: nat, prefix: string,
                                       f: nat, g: nat)
    requires f <= g && AddElement(env, name, e, out, indent, prefix, f).Some?
    ensures AddElement(env, name, e, out, indent, prefix, g) == AddElement(env, name, e, out, indent, prefix, f)
    decreases f, 0
  {
    var props := env.heap(e.props).fields;
    if !(IsNullish(e.key) && props == [])
       && !(indent < DEPTH_LIMIT || (|props| == 1 && props[0].0 == "children" && IsNullish(e.key))) {
      var out1 := out + [Line(Indented(prefix, indent, name), "<" + e.typeName)];
      if !e.key.Null? { MoreFuelSameLines(env, "key", e.key, out1, indent + 1, prefix, f - 1, g - 1); }
      var out2 := if e.key.Null? then out1 else AddValue(env, "key", e.key, out1, indent + 1, prefix, f - 1).value;
      PropsFuel(env, props, 0, out2, indent + 1, prefix, f - 1, g - 1);
    }
  }

  /** The bound needs the absence of promises: one that is settled with itself is printed without end. */
  lemma {:induction false} SelfPromiseNeverEnds(env: Env, r: Ref, name: string, out: seq<Line>, indent: nat,
                                                prefix: string, fuel: nat)
    requires !IsElement(env.heap(r)) && env.heap(r).tag == PromiseTag(Fulfilled(Obj(r)))
    ensures AddValue(env, name, Obj(r), out, indent, prefix, fuel).None?
  {
    if fuel > 0 { SelfPromiseNeverEnds(env, r, name, out, indent, prefix, fuel - 1); }
  }
}
