/** Reading printed lines back: what they say about the value that was printed. */
module PropertyReader {
  import opened Wrappers
  import opened PropertyPrinter
  import opened PropertyDiff

  // ----- A reader of lines, which knows nothing of the heap -----

  const NBSP := '\U{00A0}'
  const CUT_NOTE := "Only " + "100 properties are shown. Devjs will not log more properties of this object."

  /** A line and the deeper lines below it; `cut` says that a note ended them. */
  datatype Entry = Entry(key: string, desc: string, children: seq<Entry>, cut: bool)

  function Pairs(s: string): (n: nat)
    ensures 2 * n <= |s|
  {
    if |s| >= 2 && s[0] == NBSP && s[1] == NBSP then 1 + Pairs(s[2..]) else 0
  }

  function Bare(prefix: string, line: Line): string {
    if prefix <= line.name then line.name[|prefix|..] else line.name
  }

  function Level(prefix: string, line: Line): nat { Pairs(Bare(prefix, line)) }

  function KeyOf(prefix: string, line: Line): string { Bare(prefix, line)[2 * Level(prefix, line)..] }

  function ReadEntry(prefix: string, lines: seq<Line>): (r: (Entry, seq<Line>))
    requires lines != []
    ensures |r.1| < |lines|
    decreases |lines|, 0
  {
    var (children, cut, rest) := ReadChildren(prefix, lines[1..], Level(prefix, lines[0]) + 1, 0);
    (Entry(KeyOf(prefix, lines[0]), lines[0].desc, children, cut), rest)
  }

  /** The entries from this level on, of which `n` were read before. */
  function ReadChildren(prefix: string, lines: seq<Line>, level: nat, n: nat): (r: (seq<Entry>, bool, seq<Line>))
    ensures |r.2| <= |lines|
    decreases |lines|, 1
  {
    if lines == [] || Level(prefix, lines[0]) < level then ([], false, lines)
    else if n >= 100 && KeyOf(prefix, lines[0]) == CUT_NOTE && lines[0].desc == "" then ([], true, lines[1..])
    else
      var (e, rest) := ReadEntry(prefix, lines);
      var (es, cut, rest') := ReadChildren(prefix, rest, level, n + 1);
      ([e] + es, cut, rest')
  }

  function ReadWord(desc: string): Option<Value> {
    if desc == "null" then Some(Null)
    else if desc == "undefined" then Some(Undefined)
    else if desc == "true" then Some(Bool(true))
    else if desc == "false" then Some(Bool(false))
    else None
  }

  /** The text between this opening and ">". */
  function Unwrapped(opening: string, desc: string): Option<string> {
    if opening <= desc && |desc| > |opening| && desc[|desc| - 1] == '>' then Some(desc[|opening|..|desc| - 1]) else None
  }

  // ----- What an entry says about a value -----

  function PublicOnes(fields: Fields): Fields {
    if fields == [] then []
    else (if fields[0].0 == "" || fields[0].0[0] != '_' then [fields[0]] else []) + PublicOnes(fields[1..])
  }

  /** The description and the entries below it say of the value at this depth what there is to say: a word, a text of
      the host's, what a promise settled with, the first hundred entries of an array of entries, or down to depth 3 the
      first hundred public properties of an object, each with its key and its value. */
  ghost predicate Means(env: Env, v: Value, indent: nat, children: seq<Entry>, cut: bool, desc: string)
    decreases children, |desc|, 4
  {
    match v
    case Null => children == [] && !cut && ReadWord(desc) == Some(v)
    case Undefined => children == [] && !cut && ReadWord(desc) == Some(v)
    case Bool(_) => children == [] && !cut && ReadWord(desc) == Some(v)
    case Str(s) => children == [] && !cut && desc == (if s == env.omitted then "\U{2026}" else env.jsonText(s))
    case Func(f) =>
      var name := env.func(f).name;
      children == [] && !cut && desc == (if name.Str? && name.s != "" then name.s + "() {}" else "() => {}")
    case Obj(r) => MeansRef(env, r, indent, children, cut, desc)
    case _ => children == [] && !cut && desc == env.show(v)
  }

  ghost predicate MeansRef(env: Env, r: Ref, indent: nat, children: seq<Entry>, cut: bool, desc: string)
    decreases children, |desc|, 3
  {
    var o := env.heap(r);
    if o.mark == ELEMENT then
      children == [] && !cut
      && desc == "<" + o.element.typeName +
                 (if IsNullish(o.element.key) && env.heap(o.element.props).fields == [] then " />" else " \U{2026} />")
    else
      match o.tag
      case PromiseTag(status) => MeansPromise(env, status, indent, children, cut, desc)
      case ArrayTag(items) =>
        if items != [] && AllEntries(env, items) then
          desc == "" && !cut && MeanEntries(env, items, indent + 1, children)
        else if AllSimple(items) then
          children == [] && !cut
          && desc == env.jsonArray(if |items| > 100 then items[..100] + [Str("\U{2026}")] else items)
        else MeansObject(env, "Array", o.fields, indent, children, cut, desc)
      case PlainTag(name) => MeansObject(env, name, o.fields, indent, children, cut, desc)
      case OtherTag(name) => MeansObject(env, name, o.fields, indent, children, cut, desc)
  }

  ghost predicate MeansPromise(env: Env, status: PromiseStatus, indent: nat, children: seq<Entry>, cut: bool,
                               desc: string)
    decreases children, |desc|, 2
  {
    match status
    case Pending => children == [] && !cut && desc == "Promise"
    case Fulfilled(w) =>
      var inner := Unwrapped("Promise<", desc);
      inner.Some? && (
        || Means(env, w, indent, children, cut, inner.value)
        || (inner.value == "Object" && Means(env, w, indent, children, cut, "")))
    case Rejected(w) =>
      var inner := Unwrapped("Rejected Promise<", desc);
      inner.Some? && Means(env, w, indent, children, cut, inner.value)
  }

  /** The entries are the first hundred of these entry tuples, and one that stands for others if there are others. */
  ghost predicate MeanEntries(env: Env, items: seq<Value>, indent: nat, es: seq<Entry>)
    requires AllEntries(env, items)
    decreases es, 0, 0
  {
    var n := if |items| < 100 then |items| else 100;
    && |es| == n + (if |items| > 100 then 1 else 0)
    && (forall k :: 0 <= k < n ==>
          var entry := env.heap(items[k].r).tag.items;
          && es[k].key == entry[0].s
          && Means(env, entry[1], indent, es[k].children, es[k].cut, es[k].desc))
    && (|items| > 100 ==>
          es[100].key == "100" && Means(env, Str("\U{2026}"), indent, es[100].children, es[100].cut, es[100].desc))
  }

  ghost predicate MeansObject(env: Env, name: string, fields: Fields, indent: nat, children: seq<Entry>, cut: bool,
                              desc: string)
    decreases children, |desc|, 1
  {
    if indent >= 3 then children == [] && !cut && desc == (if name == "Object" then "\U{2026}" else name)
    else
      && desc == (if name == "Object" then "" else name)
      && MeanProperties(env, PublicOnes(fields), 100, indent + 1, children, cut)
  }

  /** The entries are the first `most` of these properties, and cut off if there are as many. */
  ghost predicate MeanProperties(env: Env, fields: Fields, most: nat, indent: nat, children: seq<Entry>, cut: bool)
    decreases children, 0, 0
  {
    && |children| == (if |fields| < most then |fields| else most)
    && (cut <==> |fields| >= most)
    && forall k :: 0 <= k < |children| ==>
         && children[k].key == fields[k].0
         && Means(env, fields[k].1, indent, children[k].children, children[k].cut, children[k].desc)
  }
}
