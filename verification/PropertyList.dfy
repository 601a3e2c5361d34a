/** The list of lines that the printer and the diff push to and rewrite in place. A method returns false
    where the functions have no result: the run needs more than `fuel` nested calls. */
module PropertyList {
  import opened PropertyPrinter
  import opened PropertyDiff

  class Properties {
    var lines: seq<Line>

    constructor ()
      ensures lines == []
    {
      lines := [];
    }

    method Push(l: Line)
      modifies this
      ensures lines == old(lines) + [l]
    {
      lines := lines + [l];
    }

    method AddObjectToProperties(env: Env, fields: Fields, indent: nat, prefix: string, fuel: nat) returns (ok: bool)
      modifies this
      ensures match AddObject(env, fields, 0, old(lines), indent, prefix, fuel)
              case None => !ok
              case Some(out) => ok && lines == out
      decreases fuel, 2
    {
      var added := 0;
      var i := 0;
      assert fields[0..] == fields;
      while i < |fields|
        invariant 0 <= i <= |fields|
        invariant AddObject(env, fields, 0, old(lines), indent, prefix, fuel)
                  == AddObject(env, fields[i..], added, lines, indent, prefix, fuel)
      {
        assert fields[i..][1..] == fields[i + 1..];
        if IsPublic(fields[i].0) {
          ok := AddValueToProperties(env, fields[i].0, fields[i].1, indent, prefix, fuel);
          if !ok { return; }
          added := added + 1;
          if added >= WIDTH_LIMIT {
            Push(OnlyShown(indent, prefix));
            return;
          }
        }
        i := i + 1;
      }
      ok := true;
    }

    method AddEntryTuples(env: Env, items: seq<Value>, indent: nat, prefix: string, fuel: nat) returns (ok: bool)
      requires AllEntries(env, items)
      modifies this
      ensures match AddEntries(env, items, 0, old(lines), indent, prefix, fuel)
              case None => !ok
              case Some(out) => ok && lines == out
      decreases fuel, 2
    {
      var i := 0;
      while i < |items| && i < WIDTH_LIMIT
        invariant 0 <= i <= |items| && i <= WIDTH_LIMIT
        invariant AddEntries(env, items, 0, old(lines), indent, prefix, fuel)
                  == AddEntries(env, items, i, lines, indent, prefix, fuel)
      {
        var entry := env.heap(items[i].r).tag.items;
        ok := AddValueToProperties(env, entry[0].s, entry[1], indent, prefix, fuel);
        if !ok { return; }
        i := i + 1;
      }
      ok := true;
      if |items| > WIDTH_LIMIT {
        ok := AddValueToProperties(env, "100", Str(ELLIPSIS), indent, prefix, fuel);
      }
    }

    /** The value is printed first; then its first line is rewritten where it stands. */
    method AddSettled(env: Env, name: string, status: PromiseStatus, indent: nat, prefix: string,
                      fuel: nat) returns (ok: bool)
      modifies this
      ensures match AddPromise(env, name, status, old(lines), indent, prefix, fuel)
              case None => !ok
              case Some(out) => ok && lines == out
      decreases fuel, 0
    {
      if !status.Pending? {
        if fuel == 0 { return false; }
        var idx := |lines|;
        var settled := if status.Fulfilled? then status.value else status.reason;
        ok := AddValueToProperties(env, name, settled, indent, prefix, fuel - 1);
        if !ok { return; }
        if |lines| > idx {
          lines := lines[idx := WrapPromise(lines[idx], status)];
          return;
        }
      }
      Push(Line(Indented("", indent, name), "Promise"));
      ok := true;
    }

    method AddElementProps(env: Env, props: Fields, indent: nat, prefix: string, fuel: nat)
      returns (ok: bool, hasChildren: bool)
      modifies this
      ensures match AddProps(env, props, 0, old(lines), indent, prefix, fuel)
              case None => !ok
              case Some(out) => ok && lines == out && hasChildren == HasChildren(env, props, 0)
      decreases fuel, 2
    {
      hasChildren := false;
      var i := 0;
      assert props[0..] == props;
      while i < |props|
        invariant 0 <= i <= |props| && (i < |props| ==> i < WIDTH_LIMIT)
        invariant AddProps(env, props, 0, old(lines), indent, prefix, fuel)
                  == AddProps(env, props[i..], i, lines, indent, prefix, fuel)
        invariant HasChildren(env, props, 0) == (hasChildren || HasChildren(env, props[i..], i))
      {
        assert props[i..][1..] == props[i + 1..];
        var (key, v) := props[i];
        if key == "children" {
          if !IsNullish(v) && !(v.Obj? && env.heap(v.r).tag.ArrayTag? && env.heap(v.r).tag.items == []) {
            hasChildren := true;
          }
        } else if IsPublic(key) {
          ok := AddValueToProperties(env, key, v, indent, prefix, fuel);
          if !ok { return; }
        }
        i := i + 1;
        if i >= WIDTH_LIMIT { return true, hasChildren; }
      }
      ok := true;
    }

    method AddElementValue(env: Env, name: string, e: Element, indent: nat, prefix: string,
                           fuel: nat) returns (ok: bool)
      modifies this
      ensures match AddElement(env, name, e, old(lines), indent, prefix, fuel)
              case None => !ok
              case Some(out) => ok && lines == out
      decreases fuel, 0
    {
      var props := env.heap(e.props).fields;
      var caption := Indented(prefix, indent, name);
      ok := true;
      if IsNullish(e.key) && props == [] {
        Push(Line(caption, "<" + e.typeName + " />"));
        return;
      }
      if indent < DEPTH_LIMIT || (|props| == 1 && props[0].0 == "children" && IsNullish(e.key)) {
        Push(Line(caption, "<" + e.typeName + " " + ELLIPSIS + " />"));
        return;
      }
      if fuel == 0 { return false; }
      Push(Line(caption, "<" + e.typeName));
      if !e.key.Null? {
        ok := AddValueToProperties(env, "key", e.key, indent + 1, prefix, fuel - 1);
        if !ok { return; }
      }
      var hasChildren;
      ok, hasChildren := AddElementProps(env, props, indent + 1, prefix, fuel - 1);
      if !ok { return; }
      Push(Line("", if hasChildren then ">" + ELLIPSIS + "</" + e.typeName + ">" else "/>"));
    }

    method AddValueToProperties(env: Env, name: string, v: Value, indent: nat, prefix: string,
                                fuel: nat) returns (ok: bool)
      modifies this
      ensures match AddValue(env, name, v, old(lines), indent, prefix, fuel)
              case None => !ok
              case Some(out) => ok && lines == out
      decreases fuel, 1
    {
      var caption := Indented(prefix, indent, name);
      ok := true;
      if !v.Obj? {
        Push(Line(caption, Describe(env, v)));
        return;
      }
      var o := env.heap(v.r);
      if IsElement(o) {
        ok := AddElementValue(env, name, o.element, indent, prefix, fuel);
        return;
      }
      if o.tag.PromiseTag? {
        ok := AddSettled(env, name, o.tag.status, indent, prefix, fuel);
        return;
      }
      if o.tag.ArrayTag? {
        var kind := GetArrayKind(env, o.tag.items);
        if kind == PrimitiveArray || kind == EmptyArray {
          Push(Line(caption, ArrayText(env, o.tag.items)));
          return;
        } else if kind == EntriesArray {
          if fuel == 0 { return false; }
          Push(Line(caption, ""));
          ok := AddEntryTuples(env, o.tag.items, indent + 1, prefix, fuel - 1);
          return;
        }
      }
      Push(Line(caption, ObjectDesc(o, indent)));
      if indent < DEPTH_LIMIT {
        if fuel == 0 { return false; }
        ok := AddObjectToProperties(env, o.fields, indent + 1, prefix, fuel - 1);
      }
    }

    method NoteRemoved(before: Fields, after: Fields, indent: nat) returns (equal: bool)
      modifies this
      ensures Diffed(equal, lines) == DiffRemoved(before, after, 0, Diffed(true, old(lines)), indent)
    {
      equal := true;
      var checked := 0;
      assert before[0..] == before;
      while checked < |before|
        invariant 0 <= checked <= |before|
        invariant DiffRemoved(before, after, 0, Diffed(true, old(lines)), indent)
                  == DiffRemoved(before[checked..], after, checked, Diffed(equal, lines), indent)
      {
        assert before[checked..][1..] == before[checked + 1..];
        if checked > WIDTH_LIMIT {
          Push(TOO_MANY_BEFORE);
          return false;
        }
        var key := before[checked].0;
        if !Has(after, key) {
          Push(Line(Indented(REMOVED, indent, key), ELLIPSIS));
          equal := false;
        }
        checked := checked + 1;
      }
    }

    method NoteNested(env: Env, key: string, o: Object, p: Object, indent: nat, fuel: nat)
      returns (ok: bool, nestedEqual: bool)
      requires indent < DEPTH_LIMIT
      modifies this
      ensures forall equal :: match DiffNested(env, key, o, p, Diffed(equal, old(lines)), indent, fuel)
                              case None => !ok
                              case Some(d) => ok && d == Diffed(equal && nestedEqual, lines)
      decreases Levels(indent), 0, 0
    {
      var entry := Line(Indented(UNCHANGED, indent, key), if p.tag.ArrayTag? then "Array" else "");
      var at := |lines|;
      Push(entry);
      ok, nestedEqual := AddObjectDiffToProperties(env, o.fields, p.fields, indent + 1, fuel);
      if ok && nestedEqual && |lines| == at + 1 {
        lines := lines[at := entry.(desc := SAME_CONTENTS)];
      }
    }

    /** The printed diff of two objects; `equal` is its verdict. */
    method AddObjectDiffToProperties(env: Env, before: Fields, after: Fields, indent: nat,
                                     fuel: nat) returns (ok: bool, equal: bool)
      modifies this
      ensures match AddDiff(env, before, after, old(lines), indent, fuel)
              case None => !ok
              case Some(d) => ok && d == Diffed(equal, lines)
      decreases Levels(indent), 1
    {
      equal := NoteRemoved(before, after, indent);
      var checked := 0;
      var i := 0;
      assert after[0..] == after;
      while i < |after|
        invariant 0 <= i <= |after|
        invariant AddDiff(env, before, after, old(lines), indent, fuel)
                  == DiffKept(env, before, after[i..], checked, Diffed(equal, lines), indent, fuel)
        decreases |after| - i
      {
        if checked > WIDTH_LIMIT {
          Push(TOO_MANY_AFTER);
          return true, false;
        }
        assert after[i..][1..] == after[i + 1..];
        var counts;
        ok, equal, counts := DiffOne(env, before, after[i..], checked, equal, indent, fuel);
        if !ok { return; }
        if counts { checked := checked + 1; }
        i := i + 1;
      }
      ok := true;
    }

    /** One turn of the second loop; `counts` is false where the source continues early. */
    method DiffOne(env: Env, before: Fields, rest: Fields, ghost checked: nat, equal: bool, indent: nat, fuel: nat)
      returns (ok: bool, equal': bool, counts: bool)
      requires rest != [] && checked <= WIDTH_LIMIT
      modifies this
      ensures var r := DiffKept(env, before, rest, checked, Diffed(equal, old(lines)), indent, fuel);
              if ok then
                r == DiffKept(env, before, rest[1..], if counts then checked + 1 else checked, Diffed(equal', lines),
                              indent, fuel)
              else r.None?
      decreases Levels(indent), 0, 1
    {
      var (key, w) := rest[0];
      ok, equal', counts := true, equal, true;
      if !Has(before, key) {
        Push(Line(Indented(ADDED, indent, key), ELLIPSIS));
        equal' := false;
        return;
      }
      var v := Get(before, key);
      if Identical(v, w) { return; }
      match ChangeOf(env, key, v, w, indent) {
        case Different =>
          equal' := false;
          ok := AddValueToProperties(env, key, v, indent, REMOVED, fuel);
          if !ok { return; }
          ok := AddValueToProperties(env, key, w, indent, ADDED, fuel);
        case Nested(o, p) =>
          var nestedEqual;
          ok, nestedEqual := NoteNested(env, key, o, p, indent, fuel);
          equal' := equal && nestedEqual;
          counts := false;
        case change =>
          var d := NoteChange(env, key, w, change, Diffed(equal, lines), indent);
          lines, equal' := d.out, d.equal;
          counts := false;
      }
    }
  }
}
