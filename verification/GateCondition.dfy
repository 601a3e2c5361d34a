/** The condition of a test: all `@gate` comments above it, joined with &&. */
module GateCondition {
  import opened Wrappers
  import opened Text
  import opened GateGrammar
  import opened GateParser

  const PRAGMA := "@gate "

  /** A comment's own condition, if it is a gate. */
  type Gate = Option<Result<Cond, GateError>>

  function GateOf(comment: string): Gate {
    var text := Trim(comment);
    if PRAGMA <= text then Some(Parse(text[|PRAGMA|..])) else None
  }

  function GatesOf(comments: seq<string>): (gates: seq<Gate>)
    ensures |gates| == |comments| && forall k :: 0 <= k < |gates| ==> gates[k] == GateOf(comments[k])
  {
    seq(|comments|, k requires 0 <= k < |comments| => GateOf(comments[k]))
  }

  /** The conditions of the gates, in order; the first one that does not parse fails them all. */
  function Collect(gates: seq<Gate>): Result<seq<Cond>, GateError> {
    if gates == [] then Ok([])
    else
      match Collect(gates[..|gates| - 1])
      case Err(error) => Err(error)
      case Ok(conds) =>
        match gates[|gates| - 1]
        case None => Ok(conds)
        case Some(Err(error)) => Err(error)
        case Some(Ok(c)) => Ok(conds + [c])
  }

  function JoinAll(conds: seq<Cond>): Cond
    requires conds != []
  {
    if |conds| == 1 then conds[0] else And(JoinAll(conds[..|conds| - 1]), conds[|conds| - 1])
  }

  /** Fails with the error of the first comment starting with "@gate " whose condition does not parse; is None
      exactly when no comment starts so; and otherwise holds exactly when all those conditions hold. */
  method BuildGateCondition(comments: seq<string>) returns (r: Result<Option<Cond>, GateError>)
    ensures match Collect(GatesOf(comments))
            case Err(error) => r == Err(error)
            case Ok(conds) => r == Ok(if conds == [] then None else Some(JoinAll(conds)))
    ensures r.Err? <==> exists k :: 0 <= k < |comments| && Fails(comments[k])
    ensures r.Err? ==> exists k ::
              && 0 <= k < |comments| && Fails(comments[k]) && r.error == Own(comments[k]).error
              && forall j :: 0 <= j < k ==> !Fails(comments[j])
    ensures r == Ok(None) <==> forall k :: 0 <= k < |comments| ==> !("@gate " <= Trim(comments[k]))
    ensures r.Ok? && r.value.Some? ==>
              forall ctx, eq :: Truthy(Evaluate(r.value.value, ctx, eq)) <==> AllHold(comments, ctx, eq)
  {
    ghost var gates := GatesOf(comments);
    var conditions: seq<Cond> := [];
    for k := 0 to |comments|
      invariant Collect(gates[..k]) == Ok(conditions)
    {
      var commentStr := Trim(comments[k]);
      assert gates[..k + 1][..k] == gates[..k];
      if PRAGMA <= commentStr {
        var condition := ParseGate(commentStr[|PRAGMA|..]);
        if condition.Err? {
          CollectFailsEarly(gates, k + 1);
          CollectedExactly(comments);
          return Err(condition.error);
        }
        conditions := conditions + [condition.value];
      }
    }
    assert gates[..|comments|] == gates;
    CollectedExactly(comments);
    if conditions == [] { return Ok(None); }
    var joined := conditions[0];
    for k := 1 to |conditions|
      invariant joined == JoinAll(conditions[..k])
    {
      assert conditions[..k + 1][..k] == conditions[..k];
      joined := And(joined, conditions[k]);
    }
    assert conditions[..|conditions|] == conditions;
    JoinMeansAll(comments);
    return Ok(Some(joined));
  }

  lemma {:induction false} CollectFailsEarly(gates: seq<Gate>, k: nat)
    requires k <= |gates| && Collect(gates[..k]).Err?
    ensures Collect(gates) == Collect(gates[..k])
  {
    if k == |gates| {
      assert gates[..k] == gates;
    } else {
      var front := gates[..|gates| - 1];
      assert front[..k] == gates[..k];
      CollectFailsEarly(front, k);
    }
  }

  // ----- What is collected, gate by gate and comment by comment -----

  lemma {:induction false} CollectExactly(gates: seq<Gate>)
    ensures match Collect(gates)
            case Err(error) =>
              exists k :: 0 <= k < |gates| && gates[k] == Some(Err(error)) && NoneFail(gates[..k])
            case Ok(conds) => NoneFail(gates) && (conds == [] <==> forall k :: 0 <= k < |gates| ==> gates[k].None?)
  {
    if gates != [] {
      var n := |gates| - 1;
      var front := gates[..n];
      CollectExactly(front);
      match Collect(front)
      case Err(error) =>
        var k :| 0 <= k < n && front[k] == Some(Err(error)) && NoneFail(front[..k]);
        assert front[..k] == gates[..k] && gates[k] == front[k];
      case Ok(conds) =>
        assert forall k :: 0 <= k < n ==> gates[k] == front[k];
        if gates[n].Some? && gates[n].value.Err? { assert NoneFail(gates[..n]); }
    }
  }

  ghost predicate NoneFail(gates: seq<Gate>) {
    forall k :: 0 <= k < |gates| && gates[k].Some? ==> gates[k].value.Ok?
  }

  ghost predicate GatesHold(gates: seq<Gate>, ctx: map<string, Value>, eq: (Value, Value) -> bool) {
    forall k :: 0 <= k < |gates| && gates[k].Some? && gates[k].value.Ok? ==>
      Truthy(Evaluate(gates[k].value.value, ctx, eq))
  }

  lemma {:induction false} CollectMeansAll(gates: seq<Gate>, ctx: map<string, Value>, eq: (Value, Value) -> bool)
    requires Collect(gates).Ok?
    ensures GatesHold(gates, ctx, eq) <==>
            forall k :: 0 <= k < |Collect(gates).value| ==> Truthy(Evaluate(Collect(gates).value[k], ctx, eq))
  {
    if gates != [] {
      var n := |gates| - 1;
      var front := gates[..n];
      CollectMeansAll(front, ctx, eq);
      assert forall k :: 0 <= k < n ==> gates[k] == front[k];
      var before, conds := Collect(front).value, Collect(gates).value;
      if gates[n].Some? {
        assert conds == before + [gates[n].value.value];
        assert forall k :: 0 <= k < |before| ==> conds[k] == before[k];
        assert conds[|before|] == gates[n].value.value;
      }
    }
  }

  /** The comment is a gate, but what follows "@gate " does not parse. */
  ghost predicate Fails(comment: string) { "@gate " <= Trim(comment) && Own(comment).Err? }

  function Own(comment: string): Result<Cond, GateError>
    requires "@gate " <= Trim(comment)
  {
    Parse(Trim(comment)[6..])
  }

  /** Every comment's own condition holds, if it has one. */
  ghost predicate AllHold(comments: seq<string>, ctx: map<string, Value>, eq: (Value, Value) -> bool) {
    forall k {:trigger comments[k]} :: 0 <= k < |comments| && "@gate " <= Trim(comments[k]) && Own(comments[k]).Ok? ==>
      Truthy(Evaluate(Own(comments[k]).value, ctx, eq))
  }

  lemma GateOfIsOwn(comment: string)
    ensures GateOf(comment) == if "@gate " <= Trim(comment) then Some(Own(comment)) else None
  {}

  lemma CollectedExactly(comments: seq<string>)
    ensures match Collect(GatesOf(comments))
            case Err(error) =>
              exists k ::
                && 0 <= k < |comments| && Fails(comments[k]) && error == Own(comments[k]).error
                && forall j :: 0 <= j < k ==> !Fails(comments[j])
            case Ok(conds) =>
              && (forall k :: 0 <= k < |comments| ==> !Fails(comments[k]))
              && (conds == [] <==> forall k :: 0 <= k < |comments| ==> !("@gate " <= Trim(comments[k])))
  {
    var gates := GatesOf(comments);
    CollectExactly(gates);
    forall k | 0 <= k < |comments|
      ensures gates[k] == if "@gate " <= Trim(comments[k]) then Some(Own(comments[k])) else None
    {
      GateOfIsOwn(comments[k]);
    }
    if Collect(gates).Err? {
      var k :| 0 <= k < |gates| && gates[k] == Some(Err(Collect(gates).error)) && NoneFail(gates[..k]);
      assert forall j :: 0 <= j < k ==> gates[..k][j] == gates[j];
      assert Fails(comments[k]);
    }
  }

  lemma JoinMeansAll(comments: seq<string>)
    ensures Collect(GatesOf(comments)).Ok? && Collect(GatesOf(comments)).value != [] ==>
              var c := JoinAll(Collect(GatesOf(comments)).value);
              forall ctx, eq :: Truthy(Evaluate(c, ctx, eq)) <==> AllHold(comments, ctx, eq)
  {
    var gates := GatesOf(comments);
    forall k | 0 <= k < |comments|
      ensures gates[k] == if "@gate " <= Trim(comments[k]) then Some(Own(comments[k])) else None
    {
      GateOfIsOwn(comments[k]);
    }
    if Collect(gates).Ok? && Collect(gates).value != [] {
      forall ctx, eq
        ensures Truthy(Evaluate(JoinAll(Collect(gates).value), ctx, eq)) <==> AllHold(comments, ctx, eq)
      {
        CollectMeansAll(gates, ctx, eq);
        AllGatesMustHold(Collect(gates).value, ctx, eq);
      }
    }
  }

  // ----- What a condition says about the test environment -----

  datatype Value = BoolVal(b: bool) | StringVal(s: string) | Undefined

  predicate Truthy(v: Value) { v != BoolVal(false) && v != StringVal("") && v != Undefined }

  /** `looselyEqual` is the language's == on these values. */
  function Evaluate(c: Cond, ctx: map<string, Value>, looselyEqual: (Value, Value) -> bool): Value {
    match c
    case Literal(b) => BoolVal(b)
    case Text(s) => StringVal(s)
    case Flag(n) => if n in ctx then ctx[n] else Undefined
    case Not(d) => BoolVal(!Truthy(Evaluate(d, ctx, looselyEqual)))
    case Equals(l, r) => BoolVal(looselyEqual(Evaluate(l, ctx, looselyEqual), Evaluate(r, ctx, looselyEqual)))
    case Differs(l, r) => BoolVal(!looselyEqual(Evaluate(l, ctx, looselyEqual), Evaluate(r, ctx, looselyEqual)))
    case And(l, r) =>
      var v := Evaluate(l, ctx, looselyEqual);
      if Truthy(v) then Evaluate(r, ctx, looselyEqual) else v
    case Or(l, r) =>
      var v := Evaluate(l, ctx, looselyEqual);
      if Truthy(v) then v else Evaluate(r, ctx, looselyEqual)
  }

  /** A test with several gates runs exactly when every one of them holds. */
  lemma {:induction false} AllGatesMustHold(conds: seq<Cond>, ctx: map<string, Value>, eq: (Value, Value) -> bool)
    requires conds != []
    ensures Truthy(Evaluate(JoinAll(conds), ctx, eq)) <==>
            forall k :: 0 <= k < |conds| ==> Truthy(Evaluate(conds[k], ctx, eq))
  {
    if |conds| > 1 {
      var front := conds[..|conds| - 1];
      AllGatesMustHold(front, ctx, eq);
      assert forall k :: 0 <= k < |front| ==> front[k] == conds[k];
    }
  }
}
