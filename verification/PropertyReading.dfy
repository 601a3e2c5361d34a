/** What is printed of a value is read back as what there is to say of it. */
module PropertyReading {
  import opened Wrappers
  import opened PropertyPrinter
  import opened PropertyDiff
  import opened PropertyEnds
  import opened PropertyReader

  // ----- One line -----

  /** Keys that cannot be mistaken for indentation or for a prefix. */
  predicate PlainKey(prefix: string, key: string) {
    && (key == "" || key[0] != NBSP)
    && (prefix == "" || !(prefix <= key))
  }

  predicate PlainPrefix(prefix: string) {
    prefix == "" || (prefix[0] != NBSP && PlainKey(prefix, "100") && PlainKey(prefix, CUT_NOTE))
  }

  function Nest(indent: nat): string { if indent == 0 then "" else [NBSP, NBSP] + Nest(indent - 1) }

  lemma {:induction false} IndentedParts(prefix: string, indent: nat, name: string)
    ensures Indented(prefix, indent, name) == prefix + Nest(indent) + name
    decreases indent
  {
    if indent > 0 {
      IndentedParts(prefix + NESTED, indent - 1, name);
      assert prefix + NESTED + Nest(indent - 1) + name == prefix + (NESTED + Nest(indent - 1)) + name;
    } else {
      assert prefix + "" + name == prefix + name;
    }
  }

  lemma {:induction false} NestIsCounted(indent: nat, key: string)
    requires key == "" || key[0] != NBSP
    ensures |Nest(indent)| == 2 * indent && Pairs(Nest(indent) + key) == indent
  {
    if indent == 0 {
      assert Nest(0) + key == key;
    } else {
      NestIsCounted(indent - 1, key);
      assert Nest(indent) + key == [NBSP, NBSP] + (Nest(indent - 1) + key);
      PairInFront(Nest(indent - 1) + key);
    }
  }

  lemma PairInFront(s: string)
    ensures Pairs([NBSP, NBSP] + s) == 1 + Pairs(s)
  {
    assert ([NBSP, NBSP] + s)[2..] == s;
  }

  lemma PrintedPrefixIsBare(prefix: string, rest: string, desc: string)
    ensures Bare(prefix, Line(prefix + rest, desc)) == rest
  {}

  lemma MissingPrefixIsBare(prefix: string, indent: nat, key: string, desc: string)
    requires PlainPrefix(prefix) && PlainKey(prefix, key)
    ensures Bare(prefix, Line(Nest(indent) + key, desc)) == Nest(indent) + key
  {
    var name := Nest(indent) + key;
    if indent > 0 { assert name[0] == NBSP; } else { assert name == key; }
    if prefix == "" { assert name[0..] == name; }
  }

  /** A line is read at its depth and with its key, whether the prefix was printed or, for a promise, left out. */
  lemma LineIsRead(prefix: string, indent: nat, key: string, desc: string, printed: bool)
    requires PlainPrefix(prefix) && PlainKey(prefix, key)
    ensures var line := Line(Indented(if printed then prefix else "", indent, key), desc);
            Level(prefix, line) == indent && KeyOf(prefix, line) == key
  {
    IndentedParts(if printed then prefix else "", indent, key);
    NestIsCounted(indent, key);
    assert (Nest(indent) + key)[2 * indent..] == key;
    if printed {
      assert prefix + Nest(indent) + key == prefix + (Nest(indent) + key);
      PrintedPrefixIsBare(prefix, Nest(indent) + key, desc);
    } else {
      assert "" + Nest(indent) + key == Nest(indent) + key;
      MissingPrefixIsBare(prefix, indent, key, desc);
    }
  }

  // ----- Entries -----

  ghost predicate Below(prefix: string, tail: seq<Line>, level: nat) { tail == [] || Level(prefix, tail[0]) <= level }

  /** The lines are read as one entry, which says of the value what there is to say, and `tail` is left over. */
  ghost predicate Reads(env: Env, name: string, v: Value, indent: nat, prefix: string, lines: seq<Line>,
                        tail: seq<Line>, e: Entry)
  {
    && lines != [] && Level(prefix, lines[0]) == indent && e.key == name
    && ReadEntry(prefix, lines + tail) == (e, tail)
    && Means(env, v, indent, e.children, e.cut, e.desc)
  }

  lemma ParentIsRead(env: Env, name: string, v: Value, indent: nat, prefix: string, desc: string, printed: bool,
                     below: seq<Line>, children: seq<Entry>, cut: bool, tail: seq<Line>)
    requires PlainPrefix(prefix) && PlainKey(prefix, name) && Means(env, v, indent, children, cut, desc)
    requires ReadChildren(prefix, below + tail, indent + 1, 0) == (children, cut, tail)
    ensures var line := Line(Indented(if printed then prefix else "", indent, name), desc);
            Reads(env, name, v, indent, prefix, [line] + below, tail, Entry(name, desc, children, cut))
  {
    var line := Line(Indented(if printed then prefix else "", indent, name), desc);
    LineIsRead(prefix, indent, name, desc, printed);
    assert ([line] + below + tail)[1..] == below + tail;
  }

  lemma LeafIsRead(env: Env, name: string, v: Value, indent: nat, prefix: string, desc: string, printed: bool,
                   tail: seq<Line>)
    requires PlainPrefix(prefix) && PlainKey(prefix, name) && Means(env, v, indent, [], false, desc)
    requires Below(prefix, tail, indent)
    ensures var line := Line(Indented(if printed then prefix else "", indent, name), desc);
            Reads(env, name, v, indent, prefix, [line], tail, Entry(name, desc, [], false))
  {
    assert [] + tail == tail;
    ParentIsRead(env, name, v, indent, prefix, desc, printed, [], [], false, tail);
    var line := Line(Indented(if printed then prefix else "", indent, name), desc);
    assert [line] + [] == [line];
  }

  /** Describing the first line otherwise changes nothing but that. */
  lemma OtherDescIsRead(env: Env, name: string, v: Value, w: Value, indent: nat, prefix: string, first: Line,
                        below: seq<Line>, tail: seq<Line>, e: Entry, desc: string)
    requires Reads(env, name, w, indent, prefix, [first] + below, tail, e)
    requires Means(env, v, indent, e.children, e.cut, desc)
    ensures Reads(env, name, v, indent, prefix, [first.(desc := desc)] + below, tail, e.(desc := desc))
  {
    OneLineFirst(first, below, tail);
    OneLineFirst(first.(desc := desc), below, tail);
  }

  lemma OneLineFirst(first: Line, below: seq<Line>, tail: seq<Line>)
    ensures [first] + below + tail != [] && ([first] + below + tail)[0] == first
    ensures ([first] + below + tail)[1..] == below + tail
  {}

  // ----- Heaps that can be read -----

  ghost predicate PlainKeys(env: Env, prefix: string, v: Value) {
    v.Obj? ==>
      var o := env.heap(v.r);
      && (forall k :: 0 <= k < |o.fields| ==> PlainKey(prefix, o.fields[k].0))
      && (o.tag.ArrayTag? ==>
            forall k :: 0 <= k < |o.tag.items| && IsEntry(env, o.tag.items[k]) ==>
              PlainKey(prefix, env.heap(o.tag.items[k].r).tag.items[0].s))
  }

  /** Keys are plain in all that is printed, and no element is printed in more than one line. */
  ghost predicate SpotReadable(env: Env, prefix: string, spots: iset<Spot>, s: Spot) {
    && PlainKeys(env, prefix, s.v) && !(s.v.Obj? && IsElement(env.heap(s.v.r)) && Opens(env, s))
    && forall t :: Visits(env, s, t) ==> t in spots
  }

  ghost predicate Readable(env: Env, prefix: string, spots: iset<Spot>) {
    && PlainPrefix(prefix)
    && forall s {:trigger SpotReadable(env, prefix, spots, s)} :: s in spots ==> SpotReadable(env, prefix, spots, s)
  }

  lemma PlainMeans(env: Env, v: Value, indent: nat)
    requires !v.Obj?
    ensures Means(env, v, indent, [], false, Describe(env, v))
  {}

  lemma ElementMeans(env: Env, r: Ref, indent: nat)
    requires IsElement(env.heap(r)) && !Opens(env, Spot(Obj(r), indent))
    ensures var e := env.heap(r).element;
            var end := if IsNullish(e.key) && env.heap(e.props).fields == [] then " />" else " \U{2026} />";
            Means(env, Obj(r), indent, [], false, "<" + e.typeName + end)
  {
    var e := env.heap(r).element;
    var end := if IsNullish(e.key) && env.heap(e.props).fields == [] then " />" else " \U{2026} />";
    assert MeansRef(env, r, indent, [], false, "<" + e.typeName + end);
  }

  lemma ArrayMeans(env: Env, r: Ref, indent: nat)
    requires !IsElement(env.heap(r)) && env.heap(r).tag.ArrayTag?
    requires ArrayKindOf(env, env.heap(r).tag.items) in {EmptyArray, PrimitiveArray}
    ensures Means(env, Obj(r), indent, [], false, ArrayText(env, env.heap(r).tag.items))
  {
    assert MeansRef(env, r, indent, [], false, ArrayText(env, env.heap(r).tag.items));
  }

  /** One printed value. */
  lemma {:induction false} ValueIsRead(env: Env, spots: iset<Spot>, name: string, v: Value, out: seq<Line>, indent: nat,
                                       prefix: string, fuel: nat, tail: seq<Line>) returns (lines: seq<Line>, e: Entry)
    requires Readable(env, prefix, spots) && Spot(v, indent) in spots && PlainKey(prefix, name)
    requires AddValue(env, name, v, out, indent, prefix, fuel).Some? && Below(prefix, tail, indent)
    ensures AddValue(env, name, v, out, indent, prefix, fuel) == Some(out + lines)
    ensures Reads(env, name, v, indent, prefix, lines, tail, e)
    decreases fuel, 1
  {
    assert SpotReadable(env, prefix, spots, Spot(v, indent));
    if !v.Obj? {
      PlainMeans(env, v, indent);
      LeafIsRead(env, name, v, indent, prefix, Describe(env, v), true, tail);
      lines, e := [Line(Indented(prefix, indent, name), Describe(env, v))], Entry(name, Describe(env, v), [], false);
    } else {
      var o := env.heap(v.r);
      if IsElement(o) {
        lines, e := ElementIsRead(env, name, v.r, out, indent, prefix, fuel, tail);
      } else if o.tag.PromiseTag? {
        lines, e := PromiseIsRead(env, spots, name, v, out, indent, prefix, fuel, tail);
      } else if o.tag.ArrayTag? && ArrayKindOf(env, o.tag.items) in {EmptyArray, PrimitiveArray} {
        var desc := ArrayText(env, o.tag.items);
        ArrayMeans(env, v.r, indent);
        LeafIsRead(env, name, v, indent, prefix, desc, true, tail);
        lines, e := [Line(Indented(prefix, indent, name), desc)], Entry(name, desc, [], false);
      } else if o.tag.ArrayTag? && ArrayKindOf(env, o.tag.items) == EntriesArray {
        lines, e := EntryArrayIsRead(env, spots, name, v, out, indent, prefix, fuel, tail);
      } else {
        lines, e := PlainObjectIsRead(env, spots, name, v, out, indent, prefix, fuel, tail);
      }
    }
  }

  lemma ElementIsRead(env: Env, name: string, r: Ref, out: seq<Line>, indent: nat, prefix: string, fuel: nat,
                      tail: seq<Line>) returns (lines: seq<Line>, e: Entry)
    requires PlainPrefix(prefix) && PlainKey(prefix, name) && Below(prefix, tail, indent)
    requires IsElement(env.heap(r)) && !Opens(env, Spot(Obj(r), indent))
    ensures AddElement(env, name, env.heap(r).element, out, indent, prefix, fuel) == Some(out + lines)
    ensures Reads(env, name, Obj(r), indent, prefix, lines, tail, e)
  {
    var el := env.heap(r).element;
    var end := if IsNullish(el.key) && env.heap(el.props).fields == [] then " />" else " \U{2026} />";
    var desc := "<" + el.typeName + end;
    ElementMeans(env, r, indent);
    LeafIsRead(env, name, Obj(r), indent, prefix, desc, true, tail);
    lines, e := [Line(Indented(prefix, indent, name), desc)], Entry(name, desc, [], false);
    assert "<" + el.typeName + " " + ELLIPSIS + " />" == "<" + el.typeName + " \U{2026} />";
  }

  lemma FulfilledMeans(env: Env, r: Ref, w: Value, indent: nat, children: seq<Entry>, cut: bool, desc: string)
    requires !IsElement(env.heap(r)) && env.heap(r).tag == PromiseTag(Fulfilled(w))
    requires Means(env, w, indent, children, cut, desc)
    ensures Means(env, Obj(r), indent, children, cut, "Promise<" + (if desc == "" then "Object" else desc) + ">")
  {
    var inner := if desc == "" then "Object" else desc;
    assert MeansPromise(env, Fulfilled(w), indent, children, cut, "Promise<" + inner + ">") ==>
      MeansRef(env, r, indent, children, cut, "Promise<" + inner + ">");
    assert Unwrapped("Promise<", "Promise<" + inner + ">") == Some(inner) by {
      var whole := "Promise<" + inner + ">";
      assert "Promise<" <= whole && whole[8..|whole| - 1] == inner;
    }
  }

  lemma RejectedMeans(env: Env, r: Ref, w: Value, indent: nat, children: seq<Entry>, cut: bool, desc: string)
    requires !IsElement(env.heap(r)) && env.heap(r).tag == PromiseTag(Rejected(w))
    requires Means(env, w, indent, children, cut, desc)
    ensures Means(env, Obj(r), indent, children, cut, "Rejected Promise<" + desc + ">")
  {
    assert MeansPromise(env, Rejected(w), indent, children, cut, "Rejected Promise<" + desc + ">") ==>
      MeansRef(env, r, indent, children, cut, "Rejected Promise<" + desc + ">");
    assert Unwrapped("Rejected Promise<", "Rejected Promise<" + desc + ">") == Some(desc) by {
      var whole := "Rejected Promise<" + desc + ">";
      assert "Rejected Promise<" <= whole && whole[17..|whole| - 1] == desc;
    }
  }

  lemma PendingIsRead(env: Env, name: string, r: Ref, out: seq<Line>, indent: nat, prefix: string, fuel: nat,
                      tail: seq<Line>) returns (lines: seq<Line>, e: Entry)
    requires PlainPrefix(prefix) && PlainKey(prefix, name) && Below(prefix, tail, indent)
    requires !IsElement(env.heap(r)) && env.heap(r).tag == PromiseTag(Pending)
    ensures AddPromise(env, name, Pending, out, indent, prefix, fuel) == Some(out + lines)
    ensures Reads(env, name, Obj(r), indent, prefix, lines, tail, e)
  {
    assert MeansPromise(env, Pending, indent, [], false, "Promise");
    assert MeansRef(env, r, indent, [], false, "Promise");
    LeafIsRead(env, name, Obj(r), indent, prefix, "Promise", false, tail);
    lines, e := [Line(Indented("", indent, name), "Promise")], Entry(name, "Promise", [], false);
  }

  lemma RewrittenFirst(out: seq<Line>, first: Line, below: seq<Line>, line: Line)
    ensures |out + ([first] + below)| > |out| && (out + ([first] + below))[|out|] == first
    ensures (out + ([first] + below))[|out| := line] == out + ([line] + below)
  {}

  lemma {:induction false} PromiseIsRead(env: Env, spots: iset<Spot>, name: string, v: Value, out: seq<Line>,
                                         indent: nat, prefix: string, fuel: nat, tail: seq<Line>)
      returns (lines: seq<Line>, e: Entry)
    requires Readable(env, prefix, spots) && Spot(v, indent) in spots && PlainKey(prefix, name)
    requires v.Obj? && !IsElement(env.heap(v.r)) && env.heap(v.r).tag.PromiseTag?
    requires AddValue(env, name, v, out, indent, prefix, fuel).Some? && Below(prefix, tail, indent)
    ensures AddValue(env, name, v, out, indent, prefix, fuel) == Some(out + lines)
    ensures Reads(env, name, v, indent, prefix, lines, tail, e)
    decreases fuel, 0
  {
    var status := env.heap(v.r).tag.status;
    if status.Pending? {
      lines, e := PendingIsRead(env, name, v.r, out, indent, prefix, fuel, tail);
    } else {
      var w := if status.Fulfilled? then status.value else status.reason;
      assert SpotReadable(env, prefix, spots, Spot(v, indent)) && Visits(env, Spot(v, indent), Spot(w, indent));
      lines, e := ValueIsRead(env, spots, name, w, out, indent, prefix, fuel - 1, tail);
      var first, below := lines[0], lines[1..];
      assert lines == [first] + below;
      RewrittenFirst(out, first, below, WrapPromise(first, status));
      lines, e := SettledIsRead(env, name, v.r, w, indent, prefix, first, below, tail, e);
    }
  }

  lemma SettledIsRead(env: Env, name: string, r: Ref, w: Value, indent: nat, prefix: string, first: Line,
                      below: seq<Line>, tail: seq<Line>, e: Entry) returns (lines: seq<Line>, e': Entry)
    requires !IsElement(env.heap(r)) && env.heap(r).tag in {PromiseTag(Fulfilled(w)), PromiseTag(Rejected(w))}
    requires Reads(env, name, w, indent, prefix, [first] + below, tail, e)
    ensures lines == [WrapPromise(first, env.heap(r).tag.status)] + below
    ensures Reads(env, name, Obj(r), indent, prefix, lines, tail, e')
  {
    var desc := WrapPromise(first, env.heap(r).tag.status).desc;
    if env.heap(r).tag.status.Fulfilled? {
      FulfilledMeans(env, r, w, indent, e.children, e.cut, e.desc);
    } else {
      RejectedMeans(env, r, w, indent, e.children, e.cut, e.desc);
    }
    OneLineFirst(first, below, tail);
    OtherDescIsRead(env, name, Obj(r), w, indent, prefix, first, below, tail, e, desc);
    lines, e' := [first.(desc := desc)] + below, e.(desc := desc);
  }

  // ----- Objects -----

  /** One entry, and those behind it. */
  lemma FirstIsRead(env: Env, name: string, v: Value, indent: nat, prefix: string, first: seq<Line>, e: Entry,
                    below: seq<Line>, es: seq<Entry>, cut: bool, tail: seq<Line>, n: nat)
    requires Reads(env, name, v, indent, prefix, first, below + tail, e) && (n >= 100 ==> name != CUT_NOTE)
    requires ReadChildren(prefix, below + tail, indent, n + 1) == (es, cut, tail)
    ensures ReadChildren(prefix, first + below + tail, indent, n) == ([e] + es, cut, tail)
    ensures Below(prefix, first + below + tail, indent)
  {
    var lines := first + below + tail;
    assert lines == first + (below + tail) && lines[0] == first[0];
    assert KeyOf(prefix, lines[0]) == name;
  }

  lemma PropertyInFront(env: Env, p: (string, Value), ps: Fields, most: nat, indent: nat, e: Entry, es: seq<Entry>,
                        cut: bool)
    requires e.key == p.0 && Means(env, p.1, indent, e.children, e.cut, e.desc)
    requires MeanProperties(env, ps, most, indent, es, cut)
    ensures MeanProperties(env, [p] + ps, most + 1, indent, [e] + es, cut)
  {
    var fs, cs := [p] + ps, [e] + es;
    forall k | 0 <= k < |cs|
      ensures cs[k].key == fs[k].0 && Means(env, fs[k].1, indent, cs[k].children, cs[k].cut, cs[k].desc)
    {
      if k > 0 { assert cs[k] == es[k - 1] && fs[k] == ps[k - 1]; }
    }
  }

  /** A public field, printed first, in front of the other ones. */
  lemma FieldInFront(env: Env, fields: Fields, added: nat, indent: nat, prefix: string, first: seq<Line>, e: Entry,
                     below: seq<Line>, es: seq<Entry>, cut: bool, tail: seq<Line>)
    requires fields != [] && added < 100 && IsPublic(fields[0].0)
    requires Reads(env, fields[0].0, fields[0].1, indent, prefix, first, below + tail, e)
    requires ReadChildren(prefix, below + tail, indent, added + 1) == (es, cut, tail)
    requires MeanProperties(env, PublicOnes(fields[1..]), 100 - added - 1, indent, es, cut)
    ensures ReadChildren(prefix, first + below + tail, indent, added) == ([e] + es, cut, tail)
    ensures Below(prefix, first + below + tail, indent)
    ensures MeanProperties(env, PublicOnes(fields), 100 - added, indent, [e] + es, cut)
  {
    FirstIsRead(env, fields[0].0, fields[0].1, indent, prefix, first, e, below, es, cut, tail, added);
    PropertyInFront(env, fields[0], PublicOnes(fields[1..]), 100 - added - 1, indent, e, es, cut);
  }

  lemma NoteIsRead(prefix: string, indent: nat, tail: seq<Line>)
    requires PlainPrefix(prefix)
    ensures ReadChildren(prefix, [OnlyShown(indent, prefix)] + tail, indent, 100) == ([], true, tail)
    ensures Below(prefix, [OnlyShown(indent, prefix)] + tail, indent)
  {
    assert CUT_NOTE[0] == 'O' != NBSP;
    LineIsRead(prefix, indent, CUT_NOTE, "", true);
    assert ([OnlyShown(indent, prefix)] + tail)[1..] == tail;
  }

  /** The keys are plain, and the values that are shown may be read. */
  ghost predicate FieldsOk(prefix: string, spots: iset<Spot>, fields: Fields, added: nat, indent: nat) {
    && (forall k :: 0 <= k < |fields| ==> PlainKey(prefix, fields[k].0))
    && (forall v :: ShownField(fields, added, v) ==> Spot(v, indent) in spots)
  }

  lemma LaterFieldsOk(prefix: string, spots: iset<Spot>, fields: Fields, added: nat, indent: nat)
    requires FieldsOk(prefix, spots, fields, added, indent) && fields != [] && added < 100
    ensures PlainKey(prefix, fields[0].0)
    ensures if IsPublic(fields[0].0) then
              Spot(fields[0].1, indent) in spots && FieldsOk(prefix, spots, fields[1..], added + 1, indent)
            else FieldsOk(prefix, spots, fields[1..], added, indent)
  {
    FirstField(fields, added);
  }

  lemma FieldPrints(env: Env, fields: Fields, added: nat, out: seq<Line>, indent: nat, prefix: string, fuel: nat)
    requires fields != [] && added < 100 && AddObject(env, fields, added, out, indent, prefix, fuel).Some?
    ensures var r := AddValue(env, fields[0].0, fields[0].1, out, indent, prefix, fuel);
            AddObject(env, fields, added, out, indent, prefix, fuel) ==
            if !IsPublic(fields[0].0) then AddObject(env, fields[1..], added, out, indent, prefix, fuel)
            else if r.None? then None
            else AddLater(env, fields[1..], added + 1, r.value, indent, prefix, fuel)
    ensures !IsPublic(fields[0].0) ==> PublicOnes(fields) == PublicOnes(fields[1..])
  {
    assert [] + PublicOnes(fields[1..]) == PublicOnes(fields[1..]);
  }

  lemma {:induction false} FieldsAreRead(env: Env, spots: iset<Spot>, fields: Fields, added: nat, out: seq<Line>,
                                         indent: nat, prefix: string, fuel: nat, tail: seq<Line>)
      returns (lines: seq<Line>, es: seq<Entry>, cut: bool)
    requires Readable(env, prefix, spots) && added < 100 && FieldsOk(prefix, spots, fields, added, indent)
    requires AddObject(env, fields, added, out, indent, prefix, fuel).Some?
    requires tail == [] || Level(prefix, tail[0]) < indent
    ensures AddObject(env, fields, added, out, indent, prefix, fuel) == Some(out + lines)
    ensures ReadChildren(prefix, lines + tail, indent, added) == (es, cut, tail) && Below(prefix, lines + tail, indent)
    ensures MeanProperties(env, PublicOnes(fields), 100 - added, indent, es, cut)
    decreases fuel, 2, |fields|, 1
  {
    if fields == [] {
      lines, es, cut := [], [], false;
      assert out + [] == out && [] + tail == tail;
    } else {
      LaterFieldsOk(prefix, spots, fields, added, indent);
      FieldPrints(env, fields, added, out, indent, prefix, fuel);
      var key, v, rest := fields[0].0, fields[0].1, fields[1..];
      if !IsPublic(key) {
        lines, es, cut := FieldsAreRead(env, spots, rest, added, out, indent, prefix, fuel, tail);
      } else {
        var out1 := AddValue(env, key, v, out, indent, prefix, fuel).value;
        var below, es2;
        below, es2, cut := LaterAreRead(env, spots, rest, added + 1, out1, indent, prefix, fuel, tail);
        var first, e := ValueIsRead(env, spots, key, v, out, indent, prefix, fuel, below + tail);
        FieldInFront(env, fields, added, indent, prefix, first, e, below, es2, cut, tail);
        lines, es := first + below, [e] + es2;
        LinesAssociate(out, first, below);
      }
    }
  }

  lemma LinesAssociate(a: seq<Line>, b: seq<Line>, c: seq<Line>)
    ensures a + b + c == a + (b + c)
  {}

  function AddLater(env: Env, fields: Fields, added: nat, out: seq<Line>, indent: nat, prefix: string, fuel: nat):
      Option<seq<Line>>
  {
    if added >= WIDTH_LIMIT then Some(out + [OnlyShown(indent, prefix)])
    else AddObject(env, fields, added, out, indent, prefix, fuel)
  }

  /** The fields behind a public one, or the note that ends them. */
  lemma {:induction false} LaterAreRead(env: Env, spots: iset<Spot>, fields: Fields, added: nat, out: seq<Line>,
                                        indent: nat, prefix: string, fuel: nat, tail: seq<Line>)
      returns (lines: seq<Line>, es: seq<Entry>, cut: bool)
    requires Readable(env, prefix, spots) && added <= 100 && FieldsOk(prefix, spots, fields, added, indent)
    requires AddLater(env, fields, added, out, indent, prefix, fuel).Some?
    requires tail == [] || Level(prefix, tail[0]) < indent
    ensures AddLater(env, fields, added, out, indent, prefix, fuel) == Some(out + lines)
    ensures ReadChildren(prefix, lines + tail, indent, added) == (es, cut, tail) && Below(prefix, lines + tail, indent)
    ensures MeanProperties(env, PublicOnes(fields), 100 - added, indent, es, cut)
    decreases fuel, 2, |fields|, 2
  {
    if added >= WIDTH_LIMIT {
      NoteIsRead(prefix, indent, tail);
      lines, es, cut := [OnlyShown(indent, prefix)], [], true;
    } else {
      lines, es, cut := FieldsAreRead(env, spots, fields, added, out, indent, prefix, fuel, tail);
    }
  }

  lemma {:induction false} PlainObjectIsRead(env: Env, spots: iset<Spot>, name: string, v: Value, out: seq<Line>,
                                             indent: nat, prefix: string, fuel: nat, tail: seq<Line>)
      returns (lines: seq<Line>, e: Entry)
    requires Readable(env, prefix, spots) && Spot(v, indent) in spots && PlainKey(prefix, name)
    requires v.Obj? && !IsElement(env.heap(v.r)) && !env.heap(v.r).tag.PromiseTag?
    requires env.heap(v.r).tag.ArrayTag? ==> ArrayKindOf(env, env.heap(v.r).tag.items) == ComplexArray
    requires AddValue(env, name, v, out, indent, prefix, fuel).Some? && Below(prefix, tail, indent)
    ensures AddValue(env, name, v, out, indent, prefix, fuel) == Some(out + lines)
    ensures Reads(env, name, v, indent, prefix, lines, tail, e)
    decreases fuel, 0
  {
    if indent >= DEPTH_LIMIT {
      lines, e := DeepObjectIsRead(env, name, v, out, indent, prefix, fuel, tail);
    } else {
      var o := env.heap(v.r);
      var desc := ObjectDesc(o, indent);
      var line := Line(Indented(prefix, indent, name), desc);
      FieldsAreVisited(env, prefix, spots, v, indent);
      var below, es, cut := FieldsAreRead(env, spots, o.fields, 0, out + [line], indent + 1, prefix, fuel - 1, tail);
      ObjectMeans(env, v.r, indent, es, cut);
      ParentIsRead(env, name, v, indent, prefix, desc, true, below, es, cut, tail);
      lines, e := [line] + below, Entry(name, desc, es, cut);
      LinesAssociate(out, [line], below);
    }
  }

  lemma DeepObjectIsRead(env: Env, name: string, v: Value, out: seq<Line>, indent: nat, prefix: string, fuel: nat,
                         tail: seq<Line>) returns (lines: seq<Line>, e: Entry)
    requires PlainPrefix(prefix) && PlainKey(prefix, name) && v.Obj? && indent >= DEPTH_LIMIT
    requires !IsElement(env.heap(v.r)) && !env.heap(v.r).tag.PromiseTag?
    requires env.heap(v.r).tag.ArrayTag? ==> ArrayKindOf(env, env.heap(v.r).tag.items) == ComplexArray
    requires Below(prefix, tail, indent)
    ensures AddValue(env, name, v, out, indent, prefix, fuel) == Some(out + lines)
    ensures Reads(env, name, v, indent, prefix, lines, tail, e)
  {
    var desc := ObjectDesc(env.heap(v.r), indent);
    assert MeansObject(env, ObjectName(env, v.r), env.heap(v.r).fields, indent, [], false, desc);
    assert MeansRef(env, v.r, indent, [], false, desc);
    LeafIsRead(env, name, v, indent, prefix, desc, true, tail);
    lines, e := [Line(Indented(prefix, indent, name), desc)], Entry(name, desc, [], false);
  }

  function ObjectName(env: Env, r: Ref): string {
    match env.heap(r).tag
    case PlainTag(name) => name
    case OtherTag(name) => name
    case _ => "Array"
  }

  lemma ObjectMeans(env: Env, r: Ref, indent: nat, es: seq<Entry>, cut: bool)
    requires var o := env.heap(r);
             && !IsElement(o) && !o.tag.PromiseTag? && indent < DEPTH_LIMIT
             && (o.tag.ArrayTag? ==> ArrayKindOf(env, o.tag.items) == ComplexArray)
             && MeanProperties(env, PublicOnes(o.fields), 100, indent + 1, es, cut)
    ensures Means(env, Obj(r), indent, es, cut, ObjectDesc(env.heap(r), indent))
  {
    var o := env.heap(r);
    assert MeansObject(env, ObjectName(env, r), o.fields, indent, es, cut, ObjectDesc(o, indent));
    assert MeansRef(env, r, indent, es, cut, ObjectDesc(o, indent));
  }

  lemma FieldsAreVisited(env: Env, prefix: string, spots: iset<Spot>, v: Value, indent: nat)
    requires Readable(env, prefix, spots) && Spot(v, indent) in spots && v.Obj? && indent < DEPTH_LIMIT
    requires !IsElement(env.heap(v.r)) && !env.heap(v.r).tag.PromiseTag?
    requires env.heap(v.r).tag.ArrayTag? ==> ArrayKindOf(env, env.heap(v.r).tag.items) == ComplexArray
    ensures FieldsOk(prefix, spots, env.heap(v.r).fields, 0, indent + 1)
  {
    var s := Spot(v, indent);
    assert SpotReadable(env, prefix, spots, s);
    forall w | ShownField(env.heap(v.r).fields, 0, w) ensures Spot(w, indent + 1) in spots {
      assert Visits(env, s, Spot(w, indent + 1));
    }
  }

  /** The same for the entries from item i on. */
  ghost predicate EntriesFrom(env: Env, items: seq<Value>, i: nat, indent: nat, es: seq<Entry>)
    requires AllEntries(env, items)
  {
    var n := if |items| < 100 then |items| else 100;
    && i <= n && |es| == n - i + (if |items| > 100 then 1 else 0)
    && (forall k :: i <= k < n ==>
          var entry := env.heap(items[k].r).tag.items;
          && es[k - i].key == entry[0].s
          && Means(env, entry[1], indent, es[k - i].children, es[k - i].cut, es[k - i].desc))
    && (|items| > 100 ==>
          && es[n - i].key == "100"
          && Means(env, Str("\U{2026}"), indent, es[n - i].children, es[n - i].cut, es[n - i].desc))
  }

  lemma EntryInFront(env: Env, items: seq<Value>, i: nat, indent: nat, e: Entry, es: seq<Entry>)
    requires AllEntries(env, items) && i < |items| && i < 100 && EntriesFrom(env, items, i + 1, indent, es)
    requires var entry := env.heap(items[i].r).tag.items;
             e.key == entry[0].s && Means(env, entry[1], indent, e.children, e.cut, e.desc)
    ensures EntriesFrom(env, items, i, indent, [e] + es)
  {
    var n := if |items| < 100 then |items| else 100;
    var cs := [e] + es;
    forall k | i <= k < n
      ensures var entry := env.heap(items[k].r).tag.items;
              && cs[k - i].key == entry[0].s
              && Means(env, entry[1], indent, cs[k - i].children, cs[k - i].cut, cs[k - i].desc)
    {
      if k > i { assert cs[k - i] == es[k - (i + 1)]; }
    }
    if |items| > 100 { assert cs[n - i] == es[n - (i + 1)]; }
  }

  /** The line that stands for the entries that are not shown. */
  lemma OthersAreRead(env: Env, out: seq<Line>, indent: nat, prefix: string, fuel: nat, tail: seq<Line>)
      returns (lines: seq<Line>, es: seq<Entry>)
    requires PlainPrefix(prefix) && (tail == [] || Level(prefix, tail[0]) < indent)
    ensures AddValue(env, "100", Str(ELLIPSIS), out, indent, prefix, fuel) == Some(out + lines)
    ensures ReadChildren(prefix, lines + tail, indent, 100) == (es, false, tail) && Below(prefix, lines + tail, indent)
    ensures |es| == 1 && es[0].key == "100"
    ensures Means(env, Str("\U{2026}"), indent, es[0].children, es[0].cut, es[0].desc)
  {
    var v, desc := Str(ELLIPSIS), Describe(env, Str(ELLIPSIS));
    var line, e := Line(Indented(prefix, indent, "100"), desc), Entry("100", desc, [], false);
    PlainMeans(env, v, indent);
    assert "100"[0] == '1' != NBSP && "100"[0] != CUT_NOTE[0];
    assert [] + tail == tail;
    LeafIsRead(env, "100", v, indent, prefix, desc, true, tail);
    FirstIsRead(env, "100", v, indent, prefix, [line], e, [], [], false, tail, 100);
    lines, es := [line], [e];
    assert [line] + [] == [line] && [e] + [] == [e];
  }

  /** The keys are plain, and the values that are shown may be read. */
  ghost predicate EntriesOk(env: Env, prefix: string, spots: iset<Spot>, items: seq<Value>, i: nat, indent: nat)
    requires AllEntries(env, items)
  {
    forall k :: i <= k < |items| && k < 100 ==>
      var entry := env.heap(items[k].r).tag.items;
      PlainKey(prefix, entry[0].s) && Spot(entry[1], indent) in spots
  }

  lemma EntriesAreVisited(env: Env, prefix: string, spots: iset<Spot>, v: Value, indent: nat)
    requires Readable(env, prefix, spots) && Spot(v, indent) in spots && v.Obj?
    requires !IsElement(env.heap(v.r)) && env.heap(v.r).tag.ArrayTag?
    requires ArrayKindOf(env, env.heap(v.r).tag.items) == EntriesArray
    ensures EntriesOk(env, prefix, spots, env.heap(v.r).tag.items, 0, indent + 1)
  {
    var s, items := Spot(v, indent), env.heap(v.r).tag.items;
    assert SpotReadable(env, prefix, spots, s);
    forall k | 0 <= k < |items| && k < 100
      ensures var entry := env.heap(items[k].r).tag.items;
              PlainKey(prefix, entry[0].s) && Spot(entry[1], indent + 1) in spots
    {
      assert IsEntry(env, items[k]) && ShownEntry(env, items, 0, env.heap(items[k].r).tag.items[1]);
      assert Visits(env, s, Spot(env.heap(items[k].r).tag.items[1], indent + 1));
    }
  }

  lemma FirstEntryInFront(env: Env, items: seq<Value>, i: nat, indent: nat, prefix: string, first: seq<Line>, e: Entry,
                          below: seq<Line>, es: seq<Entry>, tail: seq<Line>)
    requires AllEntries(env, items) && i < |items| && i < 100
    requires var entry := env.heap(items[i].r).tag.items;
             Reads(env, entry[0].s, entry[1], indent, prefix, first, below + tail, e)
    requires ReadChildren(prefix, below + tail, indent, i + 1) == (es, false, tail)
    requires EntriesFrom(env, items, i + 1, indent, es)
    ensures ReadChildren(prefix, first + below + tail, indent, i) == ([e] + es, false, tail)
    ensures Below(prefix, first + below + tail, indent) && EntriesFrom(env, items, i, indent, [e] + es)
  {
    var entry := env.heap(items[i].r).tag.items;
    FirstIsRead(env, entry[0].s, entry[1], indent, prefix, first, e, below, es, false, tail, i);
    EntryInFront(env, items, i, indent, e, es);
  }

  lemma {:induction false} EntriesAreRead(env: Env, spots: iset<Spot>, items: seq<Value>, i: nat, out: seq<Line>,
                                          indent: nat, prefix: string, fuel: nat, tail: seq<Line>)
      returns (lines: seq<Line>, es: seq<Entry>)
    requires Readable(env, prefix, spots) && AllEntries(env, items) && i <= |items| && i <= 100
    requires EntriesOk(env, prefix, spots, items, i, indent)
    requires AddEntries(env, items, i, out, indent, prefix, fuel).Some?
    requires tail == [] || Level(prefix, tail[0]) < indent
    ensures AddEntries(env, items, i, out, indent, prefix, fuel) == Some(out + lines)
    ensures ReadChildren(prefix, lines + tail, indent, i) == (es, false, tail) && Below(prefix, lines + tail, indent)
    ensures EntriesFrom(env, items, i, indent, es)
    decreases fuel, 2, |items| - i
  {
    if i < |items| && i < WIDTH_LIMIT {
      var entry := env.heap(items[i].r).tag.items;
      var out1 := AddValue(env, entry[0].s, entry[1], out, indent, prefix, fuel).value;
      var below, es2 := EntriesAreRead(env, spots, items, i + 1, out1, indent, prefix, fuel, tail);
      var first, e := ValueIsRead(env, spots, entry[0].s, entry[1], out, indent, prefix, fuel, below + tail);
      FirstEntryInFront(env, items, i, indent, prefix, first, e, below, es2, tail);
      lines, es := first + below, [e] + es2;
      LinesAssociate(out, first, below);
    } else if |items| > WIDTH_LIMIT {
      lines, es := OthersAreRead(env, out, indent, prefix, fuel, tail);
    } else {
      lines, es := [], [];
      assert out + [] == out && [] + tail == tail;
    }
  }

  lemma {:induction false} EntryArrayIsRead(env: Env, spots: iset<Spot>, name: string, v: Value, out: seq<Line>,
                                            indent: nat, prefix: string, fuel: nat, tail: seq<Line>)
      returns (lines: seq<Line>, e: Entry)
    requires Readable(env, prefix, spots) && Spot(v, indent) in spots && PlainKey(prefix, name)
    requires v.Obj? && !IsElement(env.heap(v.r)) && env.heap(v.r).tag.ArrayTag?
    requires ArrayKindOf(env, env.heap(v.r).tag.items) == EntriesArray
    requires AddValue(env, name, v, out, indent, prefix, fuel).Some? && Below(prefix, tail, indent)
    ensures AddValue(env, name, v, out, indent, prefix, fuel) == Some(out + lines)
    ensures Reads(env, name, v, indent, prefix, lines, tail, e)
    decreases fuel, 0
  {
    var items := env.heap(v.r).tag.items;
    var line := Line(Indented(prefix, indent, name), "");
    EntriesAreVisited(env, prefix, spots, v, indent);
    var below, es := EntriesAreRead(env, spots, items, 0, out + [line], indent + 1, prefix, fuel - 1, tail);
    EntryArrayMeans(env, v.r, indent, es);
    ParentIsRead(env, name, v, indent, prefix, "", true, below, es, false, tail);
    lines, e := [line] + below, Entry(name, "", es, false);
    LinesAssociate(out, [line], below);
  }

  lemma EntryArrayMeans(env: Env, r: Ref, indent: nat, es: seq<Entry>)
    requires !IsElement(env.heap(r)) && env.heap(r).tag.ArrayTag?
    requires ArrayKindOf(env, env.heap(r).tag.items) == EntriesArray
    requires EntriesFrom(env, env.heap(r).tag.items, 0, indent + 1, es)
    ensures Means(env, Obj(r), indent, es, false, "")
  {
    var items := env.heap(r).tag.items;
    assert MeanEntries(env, items, indent + 1, es) by {
      var n := if |items| < 100 then |items| else 100;
      forall k | 0 <= k < n
        ensures var entry := env.heap(items[k].r).tag.items;
                && es[k].key == entry[0].s
                && Means(env, entry[1], indent + 1, es[k].children, es[k].cut, es[k].desc)
      {
        assert es[k] == es[k - 0];
      }
    }
    assert MeansRef(env, r, indent, es, false, "");
  }

  // ----- Elements that are printed with their props -----

  /** Of the first hundred props, those that are printed. */
  function PropOnes(props: Fields, most: nat): Fields {
    if props == [] || most == 0 then []
    else
      (if props[0].0 != "children" && (props[0].0 == "" || props[0].0[0] != '_') then [props[0]] else [])
      + PropOnes(props[1..], most - 1)
  }

  ghost predicate PropsOk(prefix: string, spots: iset<Spot>, props: Fields, added: nat, indent: nat) {
    && (forall k :: 0 <= k < |props| ==> PlainKey(prefix, props[k].0))
    && (forall v :: ShownProp(props, added, v) ==> Spot(v, indent) in spots)
  }

  lemma LaterPropsOk(prefix: string, spots: iset<Spot>, props: Fields, added: nat, indent: nat)
    requires PropsOk(prefix, spots, props, added, indent) && props != [] && added < 100
    ensures PlainKey(prefix, props[0].0) && (IsProp(props[0].0) ==> Spot(props[0].1, indent) in spots)
    ensures PropsOk(prefix, spots, props[1..], added + 1, indent)
  {
    FirstProp(props, added);
  }

  ghost predicate MeanAll(env: Env, ps: Fields, indent: nat, es: seq<Entry>) {
    |es| == |ps| && forall k :: 0 <= k < |es| ==>
      es[k].key == ps[k].0 && Means(env, ps[k].1, indent, es[k].children, es[k].cut, es[k].desc)
  }

  lemma PropInFront(env: Env, p: (string, Value), ps: Fields, indent: nat, prefix: string, first: seq<Line>, e: Entry,
                    below: seq<Line>, es: seq<Entry>, tail: seq<Line>, n: nat)
    requires Reads(env, p.0, p.1, indent, prefix, first, below + tail, e) && n < 100
    requires ReadChildren(prefix, below + tail, indent, n + 1) == (es, false, tail) && MeanAll(env, ps, indent, es)
    ensures ReadChildren(prefix, first + below + tail, indent, n) == ([e] + es, false, tail)
    ensures Below(prefix, first + below + tail, indent) && MeanAll(env, [p] + ps, indent, [e] + es)
  {
    FirstIsRead(env, p.0, p.1, indent, prefix, first, e, below, es, false, tail, n);
    var fs, cs := [p] + ps, [e] + es;
    forall k | 0 <= k < |cs|
      ensures cs[k].key == fs[k].0 && Means(env, fs[k].1, indent, cs[k].children, cs[k].cut, cs[k].desc)
    {
      if k > 0 { assert cs[k] == es[k - 1] && fs[k] == ps[k - 1]; }
    }
  }

  function AddLaterProps(env: Env, props: Fields, added: nat, out: seq<Line>, indent: nat, prefix: string, fuel: nat):
      Option<seq<Line>>
  {
    if added >= WIDTH_LIMIT then Some(out) else AddProps(env, props, added, out, indent, prefix, fuel)
  }

  /** From prop number `added` on these lines are printed, and read as these entries, `n` having been read before. */
  ghost predicate PropsRead(env: Env, props: Fields, added: nat, n: nat, out: seq<Line>, indent: nat, prefix: string,
                            fuel: nat, tail: seq<Line>, lines: seq<Line>, es: seq<Entry>)
    requires added <= 100
  {
    && AddLaterProps(env, props, added, out, indent, prefix, fuel) == Some(out + lines)
    && ReadChildren(prefix, lines + tail, indent, n) == (es, false, tail) && Below(prefix, lines + tail, indent)
    && MeanAll(env, PropOnes(props, 100 - added), indent, es)
  }

  lemma NoPropIsRead(env: Env, props: Fields, added: nat, n: nat, out: seq<Line>, indent: nat, prefix: string,
                     fuel: nat, tail: seq<Line>)
    requires added <= 100 && (props == [] || added == 100) && (tail == [] || Level(prefix, tail[0]) < indent)
    ensures PropsRead(env, props, added, n, out, indent, prefix, fuel, tail, [], [])
  {
    assert out + [] == out && [] + tail == tail;
  }

  lemma SkippedPropIsRead(env: Env, props: Fields, added: nat, n: nat, out: seq<Line>, indent: nat, prefix: string,
                          fuel: nat, tail: seq<Line>, lines: seq<Line>, es: seq<Entry>)
    requires props != [] && added < 100 && !IsProp(props[0].0)
    requires PropsRead(env, props[1..], added + 1, n, out, indent, prefix, fuel, tail, lines, es)
    ensures PropsRead(env, props, added, n, out, indent, prefix, fuel, tail, lines, es)
  {
    assert [] + PropOnes(props[1..], 100 - added - 1) == PropOnes(props[1..], 100 - added - 1);
  }

  lemma PrintedPropIsRead(env: Env, props: Fields, added: nat, n: nat, out: seq<Line>, indent: nat, prefix: string,
                          fuel: nat, tail: seq<Line>, first: seq<Line>, e: Entry, below: seq<Line>, es: seq<Entry>)
    requires props != [] && n <= added < 100 && IsProp(props[0].0)
    requires AddValue(env, props[0].0, props[0].1, out, indent, prefix, fuel) == Some(out + first)
    requires Reads(env, props[0].0, props[0].1, indent, prefix, first, below + tail, e)
    requires PropsRead(env, props[1..], added + 1, n + 1, out + first, indent, prefix, fuel, tail, below, es)
    ensures PropsRead(env, props, added, n, out, indent, prefix, fuel, tail, first + below, [e] + es)
  {
    PropInFront(env, props[0], PropOnes(props[1..], 100 - added - 1), indent, prefix, first, e, below, es, tail, n);
    LinesAssociate(out, first, below);
  }

  lemma PropPrints(env: Env, props: Fields, added: nat, out: seq<Line>, indent: nat, prefix: string, fuel: nat)
    requires props != [] && added < 100 && AddLaterProps(env, props, added, out, indent, prefix, fuel).Some?
    ensures if !IsProp(props[0].0) then AddLaterProps(env, props[1..], added + 1, out, indent, prefix, fuel).Some?
            else
              var r := AddValue(env, props[0].0, props[0].1, out, indent, prefix, fuel);
              r.Some? && AddLaterProps(env, props[1..], added + 1, r.value, indent, prefix, fuel).Some?
  {}

  lemma {:induction false} PropsAreRead(env: Env, spots: iset<Spot>, props: Fields, added: nat, n: nat, out: seq<Line>,
                                        indent: nat, prefix: string, fuel: nat, tail: seq<Line>)
      returns (lines: seq<Line>, es: seq<Entry>)
    requires Readable(env, prefix, spots) && n <= added <= 100 && PropsOk(prefix, spots, props, added, indent)
    requires AddLaterProps(env, props, added, out, indent, prefix, fuel).Some?
    requires tail == [] || Level(prefix, tail[0]) < indent
    ensures PropsRead(env, props, added, n, out, indent, prefix, fuel, tail, lines, es)
    decreases |props|
  {
    if props == [] || added == 100 {
      NoPropIsRead(env, props, added, n, out, indent, prefix, fuel, tail);
      lines, es := [], [];
    } else {
      LaterPropsOk(prefix, spots, props, added, indent);
      PropPrints(env, props, added, out, indent, prefix, fuel);
      var key, v, rest := props[0].0, props[0].1, props[1..];
      if !IsProp(key) {
        lines, es := PropsAreRead(env, spots, rest, added + 1, n, out, indent, prefix, fuel, tail);
        SkippedPropIsRead(env, props, added, n, out, indent, prefix, fuel, tail, lines, es);
      } else {
        var out1 := AddValue(env, key, v, out, indent, prefix, fuel).value;
        var below, es2 := PropsAreRead(env, spots, rest, added + 1, n + 1, out1, indent, prefix, fuel, tail);
        var first, e := ValueIsRead(env, spots, key, v, out, indent, prefix, fuel, below + tail);
        PrintedPropIsRead(env, props, added, n, out, indent, prefix, fuel, tail, first, e, below, es2);
        lines, es := first + below, [e] + es2;
      }
    }
  }

  lemma {:induction false} HasChildrenExactly(env: Env, props: Fields, added: nat)
    requires added < 100
    ensures HasChildren(env, props, added) <==>
            exists k :: 0 <= k < |props| && added + k < 100 && IsShownChildren(env, props[k])
  {
    if props != [] && added + 1 < 100 {
      HasChildrenExactly(env, props[1..], added + 1);
      assert forall k :: 0 < k < |props| ==> props[k] == props[1..][k - 1];
      assert forall k :: 0 <= k < |props| - 1 ==> props[1..][k] == props[k + 1];
    }
  }

  predicate IsShownChildren(env: Env, p: (string, Value)) {
    && p.0 == "children" && p.1 != Null && p.1 != Undefined
    && !(p.1.Obj? && env.heap(p.1.r).tag == ArrayTag([]))
  }

  // ----- All that is printed -----

  /** The lines of a printed value are read as one entry, which says of the value what there is to say. */
  lemma PrintedValueIsRead(env: Env, spots: iset<Spot>, name: string, v: Value, out: seq<Line>, indent: nat,
                           prefix: string, fuel: nat) returns (lines: seq<Line>, e: Entry)
    requires Readable(env, prefix, spots) && Spot(v, indent) in spots && PlainKey(prefix, name)
    requires AddValue(env, name, v, out, indent, prefix, fuel).Some?
    ensures AddValue(env, name, v, out, indent, prefix, fuel) == Some(out + lines)
    ensures lines != [] && ReadEntry(prefix, lines) == (e, [])
    ensures e.key == name && Means(env, v, indent, e.children, e.cut, e.desc)
  {
    lines, e := ValueIsRead(env, spots, name, v, out, indent, prefix, fuel, []);
    assert lines + [] == lines;
  }

  /** The lines of an object's properties are read as its first hundred public properties, in order, each with its key
      and its value, and a note exactly when there are a hundred or more. */
  lemma PrintedObjectIsRead(env: Env, spots: iset<Spot>, fields: Fields, out: seq<Line>, indent: nat, prefix: string,
                            fuel: nat) returns (lines: seq<Line>, es: seq<Entry>, cut: bool)
    requires Readable(env, prefix, spots) && FieldsOk(prefix, spots, fields, 0, indent)
    requires AddObject(env, fields, 0, out, indent, prefix, fuel).Some?
    ensures AddObject(env, fields, 0, out, indent, prefix, fuel) == Some(out + lines)
    ensures ReadChildren(prefix, lines, indent, 0) == (es, cut, [])
    ensures MeanProperties(env, PublicOnes(fields), 100, indent, es, cut)
  {
    lines, es, cut := FieldsAreRead(env, spots, fields, 0, out, indent, prefix, fuel, []);
    assert lines + [] == lines;
  }

  predicate PrintsProps(env: Env, e: Element, indent: nat) {
    var props := env.heap(e.props).fields;
    && indent >= 3
    && !((e.key == Null || e.key == Undefined) && (props == [] || (|props| == 1 && props[0].0 == "children")))
  }

  lemma ElementUnfolds(env: Env, name: string, e: Element, out: seq<Line>, indent: nat, prefix: string, fuel: nat)
    requires PrintsProps(env, e, indent) && AddElement(env, name, e, out, indent, prefix, fuel).Some?
    ensures fuel > 0
    ensures var props := env.heap(e.props).fields;
            var out1 := out + [Line(Indented(prefix, indent, name), "<" + e.typeName)];
            var r2 := if e.key.Null? then Some(out1)
                      else AddValue(env, "key", e.key, out1, indent + 1, prefix, fuel - 1);
            && r2.Some?
            && var r3 := AddProps(env, props, 0, r2.value, indent + 1, prefix, fuel - 1);
               && r3.Some?
               && var end := if HasChildren(env, props, 0) then ">" + ELLIPSIS + "</" + e.typeName + ">" else "/>";
                  AddElement(env, name, e, out, indent, prefix, fuel) == Some(r3.value + [Line("", end)])
  {}

  function Closing(env: Env, e: Element): Line {
    var props := env.heap(e.props).fields;
    var hasChildren := exists k :: 0 <= k < |props| && k < 100 && IsShownChildren(env, props[k]);
    Line("", if hasChildren then ">\U{2026}</" + e.typeName + ">" else "/>")
  }

  /** From depth 3 on, an element with a key or props is a line that opens it, its key, its first hundred props without
      the children and the private ones, and a line that closes it and tells whether there are children. */
  lemma PrintedElementIsRead(env: Env, spots: iset<Spot>, name: string, e: Element, out: seq<Line>, indent: nat,
                             prefix: string, fuel: nat)
      returns (keyLines: seq<Line>, propLines: seq<Line>, k: Entry, es: seq<Entry>)
    requires Readable(env, prefix, spots) && PrintsProps(env, e, indent) && PlainKey(prefix, "key")
    requires e.key != Null ==> Spot(e.key, indent + 1) in spots
    requires PropsOk(prefix, spots, env.heap(e.props).fields, 0, indent + 1)
    requires AddElement(env, name, e, out, indent, prefix, fuel).Some?
    ensures AddElement(env, name, e, out, indent, prefix, fuel) ==
            Some(out + [Line(prefix + Nest(indent) + name, "<" + e.typeName)] + keyLines + propLines
                 + [Closing(env, e)])
    ensures if e.key == Null then keyLines == []
            else Reads(env, "key", e.key, indent + 1, prefix, keyLines, propLines, k)
    ensures ReadChildren(prefix, propLines, indent + 1, 0) == (es, false, [])
    ensures MeanAll(env, PropOnes(env.heap(e.props).fields, 100), indent + 1, es)
  {
    var props := env.heap(e.props).fields;
    var out1 := out + [Line(Indented(prefix, indent, name), "<" + e.typeName)];
    IndentedParts(prefix, indent, name);
    ElementUnfolds(env, name, e, out, indent, prefix, fuel);
    var out2 := if e.key.Null? then out1 else AddValue(env, "key", e.key, out1, indent + 1, prefix, fuel - 1).value;
    propLines, es := PropsAreRead(env, spots, props, 0, 0, out2, indent + 1, prefix, fuel - 1, []);
    assert propLines + [] == propLines;
    keyLines, k := [], Entry("", "", [], false);
    if e.key.Null? {
      assert out1 + [] == out1;
    } else {
      keyLines, k := ValueIsRead(env, spots, "key", e.key, out1, indent + 1, prefix, fuel - 1, propLines);
    }
    ClosingIs(env, e);
  }

  lemma ClosingIs(env: Env, e: Element)
    ensures var has := HasChildren(env, env.heap(e.props).fields, 0);
            Closing(env, e) == Line("", if has then ">" + ELLIPSIS + "</" + e.typeName + ">" else "/>")
  {
    HasChildrenExactly(env, env.heap(e.props).fields, 0);
    assert ">" + ELLIPSIS + "</" == ">\U{2026}</";
  }
}
