/** Describing a value as lines of text, over a heap of objects that may be cyclic. */
module PropertyPrinter {
  import opened Wrappers

  type Ref = nat

  datatype Value =
    | Null | Undefined | Bool(b: bool) | Number(n: int) | NaN | BigInt(big: int) | Str(s: string) | Symbol(id: nat)
    | Func(f: Ref) | Obj(r: Ref)

  datatype PromiseStatus = Pending | Fulfilled(value: Value) | Rejected(reason: Value)

  /** The built-in tag; a plain object also has its constructor's name. */
  datatype Tag =
    | PlainTag(constructorName: string)
    | ArrayTag(items: seq<Value>)
    | PromiseTag(status: PromiseStatus)
    | OtherTag(name: string)

  datatype Element = Element(typeName: string, elementType: Value, key: Value, props: Ref)

  /** `fields` are the own enumerable properties in order, `mark` is the own $$typeof, `element` the
      parts of an element. */
  datatype Object = Object(tag: Tag, fields: seq<(string, Value)>, mark: Value, element: Element)

  datatype Function = Function(name: Value, arity: nat, source: string)

  /** The heap, and the host's ways to write values as text. */
  datatype Env = Env(heap: Ref -> Object, func: Ref -> Function, jsonText: string -> string,
                     jsonArray: seq<Value> -> string, show: Value -> string, omitted: string)

  datatype Line = Line(name: string, desc: string)

  const ELEMENT: Value := Symbol(0)
  const WIDTH_LIMIT: nat := 100
  const DEPTH_LIMIT: nat := 3
  const ELLIPSIS: string := "\U{2026}"
  const NESTED: string := "\U{00A0}\U{00A0}"

  function Indented(prefix: string, indent: nat, name: string): string
    decreases indent
  {
    if indent == 0 then prefix + name else Indented(prefix + NESTED, indent - 1, name)
  }

  predicate IsElement(o: Object) { o.mark == ELEMENT }

  // ----- Kinds of arrays -----

  datatype ArrayKind = EmptyArray | ComplexArray | PrimitiveArray | EntriesArray

  predicate IsEntry(env: Env, v: Value) {
    v.Obj? && var o := env.heap(v.r); o.tag.ArrayTag? && |o.tag.items| == 2 && o.tag.items[0].Str?
  }

  /** A primitive that JSON can write and that is not too long. */
  predicate IsSimple(v: Value) { !v.Obj? && !v.Func? && !v.BigInt? && (v.Str? ==> |v.s| <= 50) }

  /** Of the items that are looked at, the first hundred, all are entries, or all are simple. */
  predicate AllEntries(env: Env, items: seq<Value>) {
    forall k :: 0 <= k < |items| && k < WIDTH_LIMIT ==> IsEntry(env, items[k])
  }
  predicate AllSimple(items: seq<Value>) { forall k :: 0 <= k < |items| && k < WIDTH_LIMIT ==> IsSimple(items[k]) }

  function ArrayKindOf(env: Env, items: seq<Value>): ArrayKind {
    if items == [] then EmptyArray
    else if AllEntries(env, items) then EntriesArray
    else if AllSimple(items) then PrimitiveArray
    else ComplexArray
  }

  method GetArrayKind(env: Env, items: seq<Value>) returns (kind: ArrayKind)
    ensures kind == ArrayKindOf(env, items)
    ensures kind == EmptyArray <==> items == []
    ensures kind == EntriesArray <==>
            items != [] && forall k :: 0 <= k < |items| && k < 100 ==>
              && items[k].Obj? && env.heap(items[k].r).tag.ArrayTag? && |env.heap(items[k].r).tag.items| == 2
              && env.heap(items[k].r).tag.items[0].Str?
    ensures kind == PrimitiveArray <==>
            items != [] && forall k :: 0 <= k < |items| && k < 100 ==>
              && !items[k].Obj? && !items[k].Func? && !items[k].BigInt? && (items[k].Str? ==> |items[k].s| <= 50)
  {
    kind := EmptyArray;
    var i := 0;
    while i < |items| && i < WIDTH_LIMIT
      invariant 0 <= i <= |items| && i <= WIDTH_LIMIT
      invariant kind == if i == 0 then EmptyArray else if IsEntry(env, items[0]) then EntriesArray else PrimitiveArray
      invariant kind.EntriesArray? ==> forall k :: 0 <= k < i ==> IsEntry(env, items[k])
      invariant kind.PrimitiveArray? ==> forall k :: 0 <= k < i ==> IsSimple(items[k])
    {
      var value := items[i];
      if value.Obj? {
        if IsEntry(env, value) {
          if kind != EmptyArray && kind != EntriesArray { return ComplexArray; }
          kind := EntriesArray;
        } else {
          return ComplexArray;
        }
      } else if value.Func? {
        return ComplexArray;
      } else if value.Str? && |value.s| > 50 {
        return ComplexArray;
      } else if kind != EmptyArray && kind != PrimitiveArray {
        return ComplexArray;
      } else if value.BigInt? {
        return ComplexArray;
      } else {
        kind := PrimitiveArray;
      }
      i := i + 1;
    }
  }

  // ----- Printing; None stands for a run that does not end within `fuel` nested calls -----

  function Describe(env: Env, v: Value): string {
    match v
    case Null => "null"
    case Undefined => "undefined"
    case Bool(b) => if b then "true" else "false"
    case Str(s) => if s == env.omitted then ELLIPSIS else env.jsonText(s)
    case Func(f) =>
      var name := env.func(f).name;
      if name.Str? && name.s != "" then name.s + "() {}" else "() => {}"
    case _ => env.show(v)
  }

  function ObjectDesc(o: Object, indent: nat): string {
    var name := match o.tag
                case PlainTag(c) => c
                case OtherTag(t) => t
                case ArrayTag(_) => "Array"
                case PromiseTag(_) => "Promise";
    if name == "Object" then (if indent < DEPTH_LIMIT then "" else ELLIPSIS) else name
  }

  function ArrayText(env: Env, items: seq<Value>): string {
    env.jsonArray(if |items| > WIDTH_LIMIT then items[..WIDTH_LIMIT] + [Str(ELLIPSIS)] else items)
  }

  function AddValue(env: Env, name: string, v: Value, out: seq<Line>, indent: nat, prefix: string,
                    fuel: nat): Option<seq<Line>>
    decreases fuel, 1
  {
    if !v.Obj? then Some(out + [Line(Indented(prefix, indent, name), Describe(env, v))])
    else
      var o := env.heap(v.r);
      if IsElement(o) then AddElement(env, name, o.element, out, indent, prefix, fuel)
      else if o.tag.PromiseTag? then AddPromise(env, name, o.tag.status, out, indent, prefix, fuel)
      else if o.tag.ArrayTag? && ArrayKindOf(env, o.tag.items) in {EmptyArray, PrimitiveArray} then
        Some(out + [Line(Indented(prefix, indent, name), ArrayText(env, o.tag.items))])
      else if o.tag.ArrayTag? && ArrayKindOf(env, o.tag.items) == EntriesArray then
        if fuel == 0 then None
        else
          var out1 := out + [Line(Indented(prefix, indent, name), "")];
          AddEntries(env, o.tag.items, 0, out1, indent + 1, prefix, fuel - 1)
      else
        var out1 := out + [Line(Indented(prefix, indent, name), ObjectDesc(o, indent))];
        if indent >= DEPTH_LIMIT then Some(out1)
        else if fuel == 0 then None
        else AddObject(env, o.fields, 0, out1, indent + 1, prefix, fuel - 1)
  }

  function OnlyShown(indent: nat, prefix: string): Line {
    var text := "Only " + "100 properties are shown. Devjs will not log more properties of this object.";
    Line(Indented(prefix, indent, text), "")
  }

  predicate IsPublic(key: string) { key == "" || key[0] != '_' }

  /** The loop of addObjectToProperties, with `added` properties shown so far. */
  function AddObject(env: Env, fields: seq<(string, Value)>, added: nat, out: seq<Line>, indent: nat, prefix: string,
                     fuel: nat):
      Option<seq<Line>>
    decreases fuel, 2, |fields|
  {
    if fields == [] then Some(out)
    else if !IsPublic(fields[0].0) then AddObject(env, fields[1..], added, out, indent, prefix, fuel)
    else
      match AddValue(env, fields[0].0, fields[0].1, out, indent, prefix, fuel)
      case None => None
      case Some(out1) =>
        if added + 1 >= WIDTH_LIMIT then Some(out1 + [OnlyShown(indent, prefix)])
        else AddObject(env, fields[1..], added + 1, out1, indent, prefix, fuel)
  }

  /** Key-value tuples, from index i on. */
  function AddEntries(env: Env, items: seq<Value>, i: nat, out: seq<Line>, indent: nat, prefix: string,
                      fuel: nat): Option<seq<Line>>
    requires AllEntries(env, items)
    decreases fuel, 2, |items| - i
  {
    if i < |items| && i < WIDTH_LIMIT then
      var entry := env.heap(items[i].r).tag.items;
      match AddValue(env, entry[0].s, entry[1], out, indent, prefix, fuel)
      case None => None
      case Some(out1) => AddEntries(env, items, i + 1, out1, indent, prefix, fuel)
    else if |items| > WIDTH_LIMIT then AddValue(env, "100", Str(ELLIPSIS), out, indent, prefix, fuel)
    else Some(out)
  }

  /** A settled promise prints its value, whose first line is then wrapped. */
  function AddPromise(env: Env, name: string, status: PromiseStatus, out: seq<Line>, indent: nat, prefix: string,
                      fuel: nat):
      Option<seq<Line>>
    decreases fuel, 0
  {
    if status.Pending? then Some(out + [Line(Indented("", indent, name), "Promise")])
    else if fuel == 0 then None
    else
      var settled := if status.Fulfilled? then status.value else status.reason;
      match AddValue(env, name, settled, out, indent, prefix, fuel - 1)
      case None => None
      case Some(out1) =>
        if |out1| > |out| then Some(out1[|out| := WrapPromise(out1[|out|], status)])
        else Some(out1 + [Line(Indented("", indent, name), "Promise")])
  }

  function WrapPromise(l: Line, status: PromiseStatus): Line {
    if status.Fulfilled? then l.(desc := "Promise<" + (if l.desc == "" then "Object" else l.desc) + ">")
    else l.(desc := "Rejected Promise<" + l.desc + ">")
  }

  predicate IsNullish(v: Value) { v.Null? || v.Undefined? }

  function AddElement(env: Env, name: string, e: Element, out: seq<Line>, indent: nat, prefix: string,
                      fuel: nat): Option<seq<Line>>
    decreases fuel, 0
  {
    var props := env.heap(e.props).fields;
    var caption := Indented(prefix, indent, name);
    if IsNullish(e.key) && props == [] then Some(out + [Line(caption, "<" + e.typeName + " />")])
    else if indent < DEPTH_LIMIT || (|props| == 1 && props[0].0 == "children" && IsNullish(e.key)) then
      Some(out + [Line(caption, "<" + e.typeName + " " + ELLIPSIS + " />")])
    else if fuel == 0 then None
    else
      var out1 := out + [Line(caption, "<" + e.typeName)];
      match if e.key.Null? then Some(out1) else AddValue(env, "key", e.key, out1, indent + 1, prefix, fuel - 1)
      case None => None
      case Some(out2) =>
        match AddProps(env, props, 0, out2, indent + 1, prefix, fuel - 1)
        case None => None
        case Some(out3) =>
          Some(out3 + [Line("", if HasChildren(env, props, 0) then ">" + ELLIPSIS + "</" + e.typeName + ">" else "/>")])
  }

  function AddProps(env: Env, props: seq<(string, Value)>, added: nat, out: seq<Line>, indent: nat, prefix: string,
                    fuel: nat):
      Option<seq<Line>>
    decreases fuel, 2, |props|
  {
    if props == [] then Some(out)
    else
      var (key, v) := props[0];
      match if key == "children" || !IsPublic(key) then Some(out) else AddValue(env, key, v, out, indent, prefix, fuel)
      case None => None
      case Some(out1) =>
        if added + 1 >= WIDTH_LIMIT then Some(out1)
        else AddProps(env, props[1..], added + 1, out1, indent, prefix, fuel)
  }

  predicate HasChildren(env: Env, props: seq<(string, Value)>, added: nat) {
    if props == [] then false
    else
      var (key, v) := props[0];
      || (key == "children" && !IsNullish(v)
          && !(v.Obj? && env.heap(v.r).tag.ArrayTag? && env.heap(v.r).tag.items == []))
      || (added + 1 < WIDTH_LIMIT && HasChildren(env, props[1..], added + 1))
  }

  // ----- Lines that were there stay as they were -----

  /** `out1` keeps all of `out` and has at least one line more. */
  ghost predicate Extends(out: seq<Line>, out1: seq<Line>) { |out| < |out1| && out == out1[..|out|] }

  ghost predicate Keeps(out: seq<Line>, out1: seq<Line>) { |out| <= |out1| && out == out1[..|out|] }

  lemma KeepsAlong(a: seq<Line>, b: seq<Line>, c: seq<Line>)
    requires Keeps(a, b) && Keeps(b, c)
    ensures Keeps(a, c) && (|a| < |c| ==> Extends(a, c))
  {
    assert a == b[..|a|] == c[..|b|][..|a|] == c[..|a|];
  }

  /** Whenever printing a value ends, it has appended at least one line and changed none of the lines before,
      even though a settled promise rewrites the first line its value appended. */
  lemma {:induction false} AddValueExtends(env: Env, name: string, v: Value, out: seq<Line>, indent: nat,
                                           prefix: string, fuel: nat)
    ensures var r := AddValue(env, name, v, out, indent, prefix, fuel); r.Some? ==> Extends(out, r.value)
    decreases fuel, 1
  {
    if v.Obj? {
      var o := env.heap(v.r);
      var caption := Indented(prefix, indent, name);
      var out1 := out + [Line(caption, ObjectDesc(o, indent))];
      if IsElement(o) {
        AddElementExtends(env, name, o.element, out, indent, prefix, fuel);
      } else if o.tag.PromiseTag? {
        if fuel > 0 && !o.tag.status.Pending? {
          var settled := if o.tag.status.Fulfilled? then o.tag.status.value else o.tag.status.reason;
          AddValueExtends(env, name, settled, out, indent, prefix, fuel - 1);
        }
      } else if o.tag.ArrayTag? && ArrayKindOf(env, o.tag.items) == EntriesArray {
        if fuel > 0 {
          AddEntriesKeeps(env, o.tag.items, 0, out + [Line(caption, "")], indent + 1, prefix, fuel - 1);
          var r := AddValue(env, name, v, out, indent, prefix, fuel);
          if r.Some? { KeepsAlong(out, out + [Line(caption, "")], r.value); }
        }
      } else if indent < DEPTH_LIMIT && fuel > 0 {
        AddObjectKeeps(env, o.fields, 0, out1, indent + 1, prefix, fuel - 1);
        var r := AddObject(env, o.fields, 0, out1, indent + 1, prefix, fuel - 1);
        if r.Some? { KeepsAlong(out, out1, r.value); }
      }
    }
  }

  lemma {:induction false} AddObjectKeeps(env: Env, fields: seq<(string, Value)>, added: nat, out: seq<Line>,
                                          indent: nat, prefix: string, fuel: nat)
    ensures var r := AddObject(env, fields, added, out, indent, prefix, fuel); r.Some? ==> Keeps(out, r.value)
    decreases fuel, 2, |fields|
  {
    if fields != [] {
      if !IsPublic(fields[0].0) {
        AddObjectKeeps(env, fields[1..], added, out, indent, prefix, fuel);
      } else {
        AddValueExtends(env, fields[0].0, fields[0].1, out, indent, prefix, fuel);
        var v := AddValue(env, fields[0].0, fields[0].1, out, indent, prefix, fuel);
        if v.Some? {
          AddObjectKeeps(env, fields[1..], added + 1, v.value, indent, prefix, fuel);
          var r := AddObject(env, fields, added, out, indent, prefix, fuel);
          if r.Some? { KeepsAlong(out, v.value, r.value); }
        }
      }
    }
  }

  lemma {:induction false} AddEntriesKeeps(env: Env, items: seq<Value>, i: nat, out: seq<Line>, indent: nat,
                                           prefix: string, fuel: nat)
    requires AllEntries(env, items)
    ensures var r := AddEntries(env, items, i, out, indent, prefix, fuel); r.Some? ==> Keeps(out, r.value)
    decreases fuel, 2, |items| - i
  {
    if i < |items| && i < WIDTH_LIMIT {
      var entry := env.heap(items[i].r).tag.items;
      AddValueExtends(env, entry[0].s, entry[1], out, indent, prefix, fuel);
      var v := AddValue(env, entry[0].s, entry[1], out, indent, prefix, fuel);
      if v.Some? {
        AddEntriesKeeps(env, items, i + 1, v.value, indent, prefix, fuel);
        var r := AddEntries(env, items, i, out, indent, prefix, fuel);
        if r.Some? { KeepsAlong(out, v.value, r.value); }
      }
    }
  }

  lemma {:induction false} AddElementExtends(env: Env, name: string, e: Element, out: seq<Line>, indent: nat,
                                             prefix: string, fuel: nat)
    ensures var r := AddElement(env, name, e, out, indent, prefix, fuel); r.Some? ==> Extends(out, r.value)
    decreases fuel, 0
  {
    var r := AddElement(env, name, e, out, indent, prefix, fuel);
    var props := env.heap(e.props).fields;
    if r.Some? && !(IsNullish(e.key) && props == [])
       && !(indent < DEPTH_LIMIT || (|props| == 1 && props[0].0 == "children" && IsNullish(e.key))) {
      var out1 := out + [Line(Indented(prefix, indent, name), "<" + e.typeName)];
      var out2 := if e.key.Null? then Some(out1) else AddValue(env, "key", e.key, out1, indent + 1, prefix, fuel - 1);
      AddValueExtends(env, "key", e.key, out1, indent + 1, prefix, fuel - 1);
      AddPropsKeeps(env, props, 0, out2.value, indent + 1, prefix, fuel - 1);
      var out3 := AddProps(env, props, 0, out2.value, indent + 1, prefix, fuel - 1);
      KeepsAlong(out, out1, out2.value);
      KeepsAlong(out, out2.value, out3.value);
    }
  }

  lemma {:induction false} AddPropsKeeps(env: Env, props: seq<(string, Value)>, added: nat, out: seq<Line>, indent: nat,
                                         prefix: string, fuel: nat)
    ensures var r := AddProps(env, props, added, out, indent, prefix, fuel); r.Some? ==> Keeps(out, r.value)
    decreases fuel, 2, |props|
  {
    if props != [] {
      var (key, v) := props[0];
      AddValueExtends(env, key, v, out, indent, prefix, fuel);
      var out1 := if key == "children" || !IsPublic(key) then Some(out)
                  else AddValue(env, key, v, out, indent, prefix, fuel);
      if out1.Some? {
        AddPropsKeeps(env, props[1..], added + 1, out1.value, indent, prefix, fuel);
        var r := AddProps(env, props, added, out, indent, prefix, fuel);
        if r.Some? { KeepsAlong(out, out1.value, r.value); }
      }
    }
  }

  // ----- A bound on cyclic heaps -----

  /** The most lines that one value takes at this depth. */
  function MostLines(indent: nat): nat
    decreases if indent < 3 then 3 - indent else 0
  {
    if indent >= 3 then 1 else 2 + 100 * MostLines(indent + 1)
  }

  predicate Within(v: Value, refs: iset<Ref>) { v.Obj? ==> v.r in refs }

  /** From `refs` only plain and other objects and arrays without entries are reached: no elements and no
      promises. There may be cycles. */
  ghost predicate Tame(env: Env, refs: iset<Ref>) {
    forall r {:trigger env.heap(r)} :: r in refs ==>
      var o := env.heap(r);
      && !IsElement(o) && !o.tag.PromiseTag?
      && (o.tag.ArrayTag? ==> ArrayKindOf(env, o.tag.items) != EntriesArray)
      && forall k :: 0 <= k < |o.fields| ==> Within(o.fields[k].1, refs)
  }

  function Levels(indent: nat): nat { if indent < DEPTH_LIMIT then DEPTH_LIMIT - indent else 0 }

  /** On such a heap, printing a value ends and appends between 1 and MostLines lines. */
  lemma {:induction false} AddValueBounded(env: Env, refs: iset<Ref>, name: string, v: Value, out: seq<Line>,
                                           indent: nat, prefix: string, fuel: nat)
    requires Tame(env, refs) && Within(v, refs) && fuel >= Levels(indent)
    ensures var r := AddValue(env, name, v, out, indent, prefix, fuel);
            r.Some? && |out| + 1 <= |r.value| <= |out| + MostLines(indent)
    decreases fuel, 1
  {
    if v.Obj? && indent < DEPTH_LIMIT {
      var o := env.heap(v.r);
      var out1 := out + [Line(Indented(prefix, indent, name), ObjectDesc(o, indent))];
      AddObjectBounded(env, refs, o.fields, 0, out1, indent + 1, prefix, fuel - 1);
    }
  }

  lemma OneTimesMore(n: nat, m: nat)
    ensures (n + 1) * m == m + n * m && n * m >= 0
  {}

  lemma {:induction false} AddObjectBounded(env: Env, refs: iset<Ref>, fields: seq<(string, Value)>, added: nat,
                                            out: seq<Line>, indent: nat, prefix: string, fuel: nat)
    requires Tame(env, refs) && fuel >= Levels(indent) && added < WIDTH_LIMIT
    requires forall k :: 0 <= k < |fields| ==> Within(fields[k].1, refs)
    ensures var r := AddObject(env, fields, added, out, indent, prefix, fuel);
            r.Some? && |out| <= |r.value| <= |out| + (100 - added) * MostLines(indent) + 1
    decreases fuel, 2, |fields|
  {
    if fields != [] {
      var rest := fields[1..];
      if !IsPublic(fields[0].0) {
        AddObjectBounded(env, refs, rest, added, out, indent, prefix, fuel);
      } else {
        AddValueBounded(env, refs, fields[0].0, fields[0].1, out, indent, prefix, fuel);
        var out1 := AddValue(env, fields[0].0, fields[0].1, out, indent, prefix, fuel).value;
        if added + 1 < WIDTH_LIMIT {
          AddObjectBounded(env, refs, rest, added + 1, out1, indent, prefix, fuel);
        }
        OneTimesMore(WIDTH_LIMIT - (added + 1), MostLines(indent));
      }
    }
  }
}
