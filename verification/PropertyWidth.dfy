/** How far the second loop of the diff gets before its width limit cuts it off. */
module PropertyWidth {
  import opened Wrappers
  import opened PropertyPrinter
  import opened PropertyDiff

  function Counted(env: Env, before: Fields, rest: Fields, indent: nat): nat {
    if rest == [] then 0
    else (if Counts(env, before, rest[0], indent) then 1 else 0) + Counted(env, before, rest[1..], indent)
  }

  /** How many of the properties are compared: the loop stops at the first one before which it has counted too many. */
  function Compared(env: Env, before: Fields, rest: Fields, checked: nat, indent: nat): (k: nat)
    ensures k <= |rest|
  {
    if rest == [] || checked > WIDTH_LIMIT then 0
    else 1 + Compared(env, before, rest[1..], checked + if Counts(env, before, rest[0], indent) then 1 else 0, indent)
  }

  lemma {:induction false} ComparedExactly(env: Env, before: Fields, rest: Fields, checked: nat, indent: nat)
    ensures var k := Compared(env, before, rest, checked, indent);
            && (forall j {:trigger rest[..j]} :: 0 <= j < k ==>
                  checked + Counted(env, before, rest[..j], indent) <= WIDTH_LIMIT)
            && (k < |rest| ==> checked + Counted(env, before, rest[..k], indent) > WIDTH_LIMIT)
  {
    if rest != [] && checked <= WIDTH_LIMIT {
      var tail, one := rest[1..], if Counts(env, before, rest[0], indent) then 1 else 0;
      ComparedExactly(env, before, tail, checked + one, indent);
      forall j | 0 < j <= |rest|
        ensures Counted(env, before, rest[..j], indent) == one + Counted(env, before, tail[..j - 1], indent)
      {
        assert rest[..j][1..] == tail[..j - 1];
      }
    }
  }

  /** What the loop does with one property. */
  function CompareOne(env: Env, before: Fields, p: (string, Value), d: Diffed, indent: nat, fuel: nat): Option<Diffed> {
    var (key, w) := p;
    if !Has(before, key) then Some(Diffed(false, d.out + [Line(Indented(ADDED, indent, key), ELLIPSIS)]))
    else if Identical(Get(before, key), w) then Some(d)
    else
      var v := Get(before, key);
      match ChangeOf(env, key, v, w, indent)
      case Different =>
        (match DiffValues(env, key, v, w, d.out, indent, fuel)
         case None => None
         case Some(out1) => Some(Diffed(false, out1)))
      case Nested(o, p) => DiffNested(env, key, o, p, d, indent, fuel)
      case change => Some(NoteChange(env, key, w, change, d, indent))
  }

  /** The loop without a width limit. */
  function CompareAll(env: Env, before: Fields, rest: Fields, d: Diffed, indent: nat, fuel: nat): Option<Diffed> {
    if rest == [] then Some(d)
    else
      match CompareOne(env, before, rest[0], d, indent, fuel)
      case None => None
      case Some(d1) => CompareAll(env, before, rest[1..], d1, indent, fuel)
  }

  lemma OneTurn(env: Env, before: Fields, rest: Fields, checked: nat, d: Diffed, indent: nat, fuel: nat)
    requires rest != [] && checked <= WIDTH_LIMIT
    ensures DiffKept(env, before, rest, checked, d, indent, fuel) ==
            match CompareOne(env, before, rest[0], d, indent, fuel)
            case None => None
            case Some(d1) =>
              var checked1 := checked + if Counts(env, before, rest[0], indent) then 1 else 0;
              DiffKept(env, before, rest[1..], checked1, d1, indent, fuel)
  {}

  function Cut(r: Option<Diffed>): Option<Diffed> {
    match r
    case None => None
    case Some(d) => Some(Diffed(false, d.out + [TOO_MANY_AFTER]))
  }

  /** The loop compares exactly the properties up to the cut, and then says that there are too many. */
  lemma {:induction false} KeptIsCut(env: Env, before: Fields, rest: Fields, checked: nat, d: Diffed, indent: nat,
                                     fuel: nat)
    ensures var k := Compared(env, before, rest, checked, indent);
            var r := CompareAll(env, before, rest[..k], d, indent, fuel);
            DiffKept(env, before, rest, checked, d, indent, fuel) == if k == |rest| then r else Cut(r)
    decreases |rest|
  {
    if rest != [] && checked <= WIDTH_LIMIT {
      var k := Compared(env, before, rest, checked, indent);
      var tail, checked1 := rest[1..], checked + if Counts(env, before, rest[0], indent) then 1 else 0;
      OneTurn(env, before, rest, checked, d, indent, fuel);
      assert rest[..k][1..] == tail[..k - 1];
      var d1 := CompareOne(env, before, rest[0], d, indent, fuel);
      if d1.Some? { KeptIsCut(env, before, tail, checked1, d1.value, indent, fuel); }
    }
  }

  /** The diff compares every property of the new object, unless there is one before which more than 100 were counted:
      then it compares those up to the first such one, says that there are too many, and is not equal. */
  lemma DiffIsCutExactly(env: Env, before: Fields, after: Fields, out: seq<Line>, indent: nat, fuel: nat)
      returns (k: nat)
    ensures k <= |after|
    ensures k < |after| <==>
            exists j :: 0 <= j < |after| && Counted(env, before, after[..j], indent) > 100
    ensures forall j {:trigger after[..j]} :: 0 <= j < k ==> Counted(env, before, after[..j], indent) <= 100
    ensures var d := DiffRemoved(before, after, 0, Diffed(true, out), indent);
            var r := CompareAll(env, before, after[..k], d, indent, fuel);
            AddDiff(env, before, after, out, indent, fuel) == if k == |after| then r else Cut(r)
  {
    var d := DiffRemoved(before, after, 0, Diffed(true, out), indent);
    k := Compared(env, before, after, 0, indent);
    ComparedExactly(env, before, after, 0, indent);
    KeptIsCut(env, before, after, 0, d, indent, fuel);
  }

  // ----- Any number of properties that do not count -----

  /** Properties whose new value is another closure of the same function. */
  ghost predicate AllClosures(env: Env, before: Fields, rest: Fields, indent: nat) {
    forall k {:trigger rest[k]} :: 0 <= k < |rest| ==>
      && Has(before, rest[k].0) && !Identical(Get(before, rest[k].0), rest[k].1)
      && ChangeOf(env, rest[k].0, Get(before, rest[k].0), rest[k].1, indent).Closure?
  }

  /** However many there are, the second loop compares all of them: it appends a line for each and stays equal. */
  lemma {:induction false} ClosuresAreAllCompared(env: Env, before: Fields, rest: Fields, d: Diffed, indent: nat,
                                                  fuel: nat)
    requires AllClosures(env, before, rest, indent)
    ensures var r := DiffKept(env, before, rest, 0, d, indent, fuel);
            r.Some? && r.value.equal == d.equal && |r.value.out| == |d.out| + |rest|
    decreases |rest|
  {
    if rest != [] {
      assert rest[0] == rest[0];
      var v, w := Get(before, rest[0].0), rest[0].1;
      assert forall k :: 0 <= k < |rest| - 1 ==> rest[1..][k] == rest[k + 1];
      var d1 := NoteChange(env, rest[0].0, w, ChangeOf(env, rest[0].0, v, w, indent), d, indent);
      ClosuresAreAllCompared(env, before, rest[1..], d1, indent, fuel);
    }
  }

  /** n properties with keys of their own, all with the same function. */
  function Closures(n: nat, f: Ref): Fields {
    seq(n, k requires 0 <= k < n => (seq(k + 1, i requires 0 <= i < k + 1 => 'a'), Func(f)))
  }

  lemma {:induction false} HasAt(fields: Fields, k: nat, v: Value)
    requires k < |fields| && forall j :: 0 <= j < |fields| ==> fields[j].1 == v
    ensures Has(fields, fields[k].0) && Get(fields, fields[k].0) == v
  {
    if k > 0 && fields[0].0 != fields[k].0 { HasAt(fields[1..], k - 1, v); }
  }

  /** Two objects with n closures of one function, under the same keys: the second loop compares all n, for every n. */
  lemma WideClosuresAreCompared(env: Env, n: nat, f: Ref, g: Ref, out: seq<Line>, indent: nat, fuel: nat)
    requires f != g && SameClosures(env.func(f), env.func(g)) && indent < DEPTH_LIMIT
    ensures var removed := DiffRemoved(Closures(n, f), Closures(n, g), 0, Diffed(true, out), indent);
            var r := AddDiff(env, Closures(n, f), Closures(n, g), out, indent, fuel);
            r.Some? && |r.value.out| == |removed.out| + n
  {
    var before, after := Closures(n, f), Closures(n, g);
    forall k | 0 <= k < n
      ensures Has(before, after[k].0) && !Identical(Get(before, after[k].0), after[k].1)
      ensures ChangeOf(env, after[k].0, Get(before, after[k].0), after[k].1, indent).Closure?
    {
      assert before[k].0 == after[k].0;
      HasAt(before, k, Func(f));
      assert after[k].0[0] == 'a' != "children"[0];
    }
    ClosuresAreAllCompared(env, before, after, DiffRemoved(before, after, 0, Diffed(true, out), indent), indent, fuel);
  }
}
