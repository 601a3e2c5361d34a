/** The lines that the diff appends, and that it ends on cyclic heaps. */
module PropertyDiffLines {
  import opened PropertyPrinter
  import opened PropertyDiff

  // ----- Every line of an equal diff is marked as unchanged -----

  predicate Marked(l: Line) { UNCHANGED <= l.name }

  /** From `out` to `out1` lines were appended only, all of them marked. */
  ghost predicate AppendsMarked(out: seq<Line>, out1: seq<Line>) {
    Keeps(out, out1) && forall k :: |out| <= k < |out1| ==> Marked(out1[k])
  }

  lemma {:induction false} IndentedKeepsPrefix(prefix: string, indent: nat, name: string)
    ensures prefix <= Indented(prefix, indent, name)
    decreases indent
  {
    if indent > 0 { IndentedKeepsPrefix(prefix + NESTED, indent - 1, name); }
  }

  lemma MarkedAlong(a: seq<Line>, b: seq<Line>, c: seq<Line>)
    requires AppendsMarked(a, b) && AppendsMarked(b, c)
    ensures AppendsMarked(a, c)
  {
    KeepsAlong(a, b, c);
    forall k | |a| <= k < |c| ensures Marked(c[k]) {
      if k < |b| { assert c[k] == b[k]; }
    }
  }

  /** What a diff did: lines before stay; if it is still equal, only marked lines came; if not, some line did. */
  ghost predicate Reported(d: Diffed, r: Diffed) {
    && Keeps(d.out, r.out)
    && (r.equal ==> d.equal && AppendsMarked(d.out, r.out))
    && (d.equal && !r.equal ==> Extends(d.out, r.out))
  }

  lemma ReportedAlong(a: Diffed, b: Diffed, c: Diffed)
    requires Reported(a, b) && Reported(b, c)
    ensures Reported(a, c)
  {
    KeepsAlong(a.out, b.out, c.out);
    if c.equal { MarkedAlong(a.out, b.out, c.out); }
  }

  lemma {:induction false} RemovedReported(before: Fields, after: Fields, checked: nat, d: Diffed, indent: nat)
    ensures Reported(d, DiffRemoved(before, after, checked, d, indent))
    decreases |before|
  {
    if before != [] && checked <= WIDTH_LIMIT {
      var key := before[0].0;
      var d1 := if Has(after, key) then d else Diffed(false, d.out + [Line(Indented(REMOVED, indent, key), ELLIPSIS)]);
      assert Reported(d, d1);
      RemovedReported(before[1..], after, checked + 1, d1, indent);
      ReportedAlong(d, d1, DiffRemoved(before, after, checked, d, indent));
    }
  }

  lemma {:induction false} KeptReported(env: Env, before: Fields, rest: Fields, checked: nat, d: Diffed, indent: nat,
                                        fuel: nat)
    ensures var r := DiffKept(env, before, rest, checked, d, indent, fuel); r.Some? ==> Reported(d, r.value)
    decreases Levels(indent), 0, |rest|
  {
    var r := DiffKept(env, before, rest, checked, d, indent, fuel);
    if rest != [] && r.Some? && checked <= WIDTH_LIMIT {
      var checked1, d1 := StepReported(env, before, rest, checked, d, indent, fuel);
      KeptReported(env, before, rest[1..], checked1, d1, indent, fuel);
      ReportedAlong(d, d1, r.value);
    }
  }

  /** One turn of the second loop. */
  lemma {:induction false} StepReported(env: Env, before: Fields, rest: Fields, checked: nat, d: Diffed, indent: nat,
                                        fuel: nat)
    returns (checked1: nat, d1: Diffed)
    requires rest != [] && checked <= WIDTH_LIMIT && DiffKept(env, before, rest, checked, d, indent, fuel).Some?
    ensures DiffKept(env, before, rest, checked, d, indent, fuel) ==
              DiffKept(env, before, rest[1..], checked1, d1, indent, fuel)
    ensures Reported(d, d1)
    decreases Levels(indent), 0, 0, 1
  {
    var key, w := rest[0].0, rest[0].1;
    checked1 := checked + 1;
    if !Has(before, key) {
      d1 := Diffed(false, d.out + [Line(Indented(ADDED, indent, key), ELLIPSIS)]);
    } else if Identical(Get(before, key), w) {
      d1 := d;
    } else {
      var v := Get(before, key);
      match ChangeOf(env, key, v, w, indent)
      case Different =>
        d1 := Diffed(false, DiffValues(env, key, v, w, d.out, indent, fuel).value);
        ValuesExtend(env, key, v, w, d.out, indent, fuel);
      case Nested(o, p) =>
        checked1, d1 := checked, DiffNested(env, key, o, p, d, indent, fuel).value;
        NestedReported(env, key, o, p, d, indent, fuel);
      case change =>
        checked1, d1 := checked, NoteChange(env, key, w, change, d, indent);
        IndentedKeepsPrefix(UNCHANGED, indent, key);
    }
  }

  lemma ValuesExtend(env: Env, key: string, v: Value, w: Value, out: seq<Line>, indent: nat, fuel: nat)
    ensures var r := DiffValues(env, key, v, w, out, indent, fuel); r.Some? ==> Extends(out, r.value)
  {
    AddValueExtends(env, key, v, out, indent, REMOVED, fuel);
    var out1 := AddValue(env, key, v, out, indent, REMOVED, fuel);
    if out1.Some? {
      AddValueExtends(env, key, w, out1.value, indent, ADDED, fuel);
      var r := DiffValues(env, key, v, w, out, indent, fuel);
      if r.Some? { KeepsAlong(out, out1.value, r.value); }
    }
  }

  lemma {:induction false} NestedReported(env: Env, key: string, o: Object, p: Object, d: Diffed, indent: nat,
                                          fuel: nat)
    requires indent < DEPTH_LIMIT
    ensures var r := DiffNested(env, key, o, p, d, indent, fuel); r.Some? ==> Reported(d, r.value)
    decreases Levels(indent), 0, 0, 0
  {
    var entry := Line(Indented(UNCHANGED, indent, key), if p.tag.ArrayTag? then "Array" else "");
    var started := d.out + [entry];
    IndentedKeepsPrefix(UNCHANGED, indent, key);
    assert AppendsMarked(d.out, started);
    DiffReported(env, o.fields, p.fields, started, indent + 1, fuel);
    var inner := AddDiff(env, o.fields, p.fields, started, indent + 1, fuel);
    if inner.Some? {
      KeepsAlong(d.out, started, inner.value.out);
      if inner.value.equal { MarkedAlong(d.out, started, inner.value.out); }
    }
  }

  /** When a diff ends, the lines before it are as they were. If it found the objects equal, every line it
      appended is marked as unchanged; if not, it appended at least one line. */
  lemma {:induction false} DiffReported(env: Env, before: Fields, after: Fields, out: seq<Line>, indent: nat, fuel: nat)
    ensures var r := AddDiff(env, before, after, out, indent, fuel);
            r.Some? ==>
              && Keeps(out, r.value.out)
              && (r.value.equal ==> AppendsMarked(out, r.value.out))
              && (!r.value.equal ==> Extends(out, r.value.out))
    decreases Levels(indent), 1
  {
    var d := Diffed(true, out);
    var d1 := DiffRemoved(before, after, 0, d, indent);
    RemovedReported(before, after, 0, d, indent);
    KeptReported(env, before, after, 0, d1, indent, fuel);
    var r := AddDiff(env, before, after, out, indent, fuel);
    if r.Some? { ReportedAlong(d, d1, r.value); }
  }

  // ----- Termination on cyclic heaps -----

  predicate FieldsWithin(fields: Fields, refs: iset<Ref>) {
    forall k :: 0 <= k < |fields| ==> Within(fields[k].1, refs)
  }

  lemma {:induction false} GetWithin(fields: Fields, key: string, refs: iset<Ref>)
    requires Has(fields, key) && FieldsWithin(fields, refs)
    ensures Within(Get(fields, key), refs)
  {
    if fields[0].0 != key {
      assert forall k :: 0 <= k < |fields| - 1 ==> fields[1..][k] == fields[k + 1];
      GetWithin(fields[1..], key, refs);
    }
  }

  lemma {:induction false} KeptTerminates(env: Env, refs: iset<Ref>, before: Fields, rest: Fields, checked: nat,
                                          d: Diffed, indent: nat, fuel: nat)
    requires Tame(env, refs) && FieldsWithin(before, refs) && FieldsWithin(rest, refs) && fuel >= Levels(indent)
    ensures DiffKept(env, before, rest, checked, d, indent, fuel).Some?
    decreases Levels(indent), 0, |rest|
  {
    if rest != [] && checked <= WIDTH_LIMIT {
      var key, w, tail := rest[0].0, rest[0].1, rest[1..];
      assert forall k :: 0 <= k < |tail| ==> tail[k] == rest[k + 1];
      forall c: nat, d1: Diffed ensures DiffKept(env, before, tail, c, d1, indent, fuel).Some? {
        KeptTerminates(env, refs, before, tail, c, d1, indent, fuel);
      }
      if Has(before, key) {
        GetWithin(before, key, refs);
        var v := Get(before, key);
        var change := ChangeOf(env, key, v, w, indent);
        if change.Nested? {
          var entry := Line(Indented(UNCHANGED, indent, key), if change.p.tag.ArrayTag? then "Array" else "");
          DiffTerminates(env, refs, change.o.fields, change.p.fields, d.out + [entry], indent + 1, fuel);
        } else {
          ValuesTerminate(env, refs, key, v, w, d.out, indent, fuel);
        }
      }
    }
  }

  lemma ValuesTerminate(env: Env, refs: iset<Ref>, key: string, v: Value, w: Value, out: seq<Line>, indent: nat,
                        fuel: nat)
    requires Tame(env, refs) && Within(v, refs) && Within(w, refs) && fuel >= Levels(indent)
    ensures DiffValues(env, key, v, w, out, indent, fuel).Some?
  {
    AddValueBounded(env, refs, key, v, out, indent, REMOVED, fuel);
    AddValueBounded(env, refs, key, w, AddValue(env, key, v, out, indent, REMOVED, fuel).value, indent, ADDED, fuel);
  }

  /** On a heap of plain objects, other objects and arrays without entries the diff ends, cycles or not. */
  lemma {:induction false} DiffTerminates(env: Env, refs: iset<Ref>, before: Fields, after: Fields, out: seq<Line>,
                                          indent: nat, fuel: nat)
    requires Tame(env, refs) && FieldsWithin(before, refs) && FieldsWithin(after, refs) && fuel >= Levels(indent)
    ensures AddDiff(env, before, after, out, indent, fuel).Some?
    decreases Levels(indent), 1
  {
    KeptTerminates(env, refs, before, after, 0, DiffRemoved(before, after, 0, Diffed(true, out), indent), indent, fuel);
  }
}
