/** What the loop guard is for: it stops every infinite loop, and it changes nothing else. */
module LoopGuardTheorems {
  import opened LoopLanguage
  import opened LoopGuard
  import opened LoopGuardRefinement

  // ----- Once recorded, a loop error stays recorded, whoever catches it -----

  lemma {:induction false} EvalKeepsLoopError(e: Expr, st: State)
    ensures Eval(e, st).st.loopError == st.loopError
  {
    match e
    case Set(_, e1) => EvalKeepsLoopError(e1, st);
    case Bin(_, l, r) => EvalKeepsLoopError(l, st); EvalKeepsLoopError(r, Eval(l, st).st);
    case And(l, r) => EvalKeepsLoopError(l, st); EvalKeepsLoopError(r, Eval(l, st).st);
    case _ =>
  }

  lemma {:induction false} DeclareKeepsLoopError(xs: seq<Name>, st: State)
    ensures Declare(xs, st).loopError == st.loopError
  {
    if xs != [] { DeclareKeepsLoopError(xs[1..], Write(st, xs[0], Num(0))); }
  }

  lemma {:induction false} LimitedKeepsLoopError(s: Stmt, st: State, limit: nat)
    requires st.loopError.Some?
    ensures Limited(s, st, limit).st.loopError.Some?
    decreases s, 0
  {
    match s
    case Do(e) => EvalKeepsLoopError(e, st);
    case Throw(e) => EvalKeepsLoopError(e, st);
    case Break(_) | Continue(_) | RecordLoopError(_) =>
    case DeclareCounters(xs) => DeclareKeepsLoopError(xs, st);
    case Block(body) => LimitedAllKeepsLoopError(body, st, limit);
    case If(c, t, e) =>
      EvalKeepsLoopError(c, st);
      var v := Eval(c, st);
      if v.Val? { LimitedKeepsLoopError(if Truthy(v.v) then t else e, v.st, limit); }
    case While(labels, c, b) => LimitedLoopKeepsLoopError(labels, c, Lit(0), b, true, st, 0, limit);
    case DoWhile(labels, b, c) => LimitedLoopKeepsLoopError(labels, c, Lit(0), b, false, st, 0, limit);
    case For(labels, i, c, u, b) =>
      EvalKeepsLoopError(i, st);
      LimitedLoopKeepsLoopError(labels, c, u, b, true, Eval(i, st).st, 0, limit);
    case Labeled(_, s1) => LimitedKeepsLoopError(s1, st, limit);
    case TryCatch(b, x, h) =>
      LimitedAllKeepsLoopError(b, st, limit);
      var r := LimitedAll(b, st, limit);
      if r.o.Threw? { LimitedAllKeepsLoopError(h, Write(r.st, x, r.o.v), limit); }
    case TryFinally(b, f) =>
      LimitedAllKeepsLoopError(b, st, limit);
      LimitedAllKeepsLoopError(f, LimitedAll(b, st, limit).st, limit);
  }

  lemma {:induction false} LimitedAllKeepsLoopError(ss: Stmts, st: State, limit: nat)
    requires st.loopError.Some?
    ensures LimitedAll(ss, st, limit).st.loopError.Some?
    decreases ss, 0
  {
    if ss.Cons? {
      LimitedKeepsLoopError(ss.head, st, limit);
      LimitedAllKeepsLoopError(ss.tail, Limited(ss.head, st, limit).st, limit);
    }
  }

  lemma {:induction false} LimitedLoopKeepsLoopError(labels: set<Label>, c: Expr, u: Expr, b: Stmt, test: bool,
                                                     st: State, k: nat, limit: nat)
    requires st.loopError.Some?
    ensures LimitedLoop(labels, c, u, b, test, st, k, limit).st.loopError.Some?
    decreases b, 1, limit + 1 - k
  {
    EvalKeepsLoopError(c, st);
    var t := Test(test, c, st);
    if t.Val? && Truthy(t.v) && k <= limit {
      UnfoldLimited(labels, c, u, b, test, st, k, limit);
      LimitedKeepsLoopError(b, t.st, limit);
      var r := Limited(b, t.st, limit);
      EvalKeepsLoopError(u, r.st);
      LimitedLoopKeepsLoopError(labels, c, u, b, true, Eval(u, r.st).st, k + 1, limit);
    }
  }

  // ----- Runs of the source in which every entry of a loop starts at most limit + 1 bodies -----

  predicate Within(s: Stmt, st: State, fuel: nat, limit: nat)
    decreases fuel, s
  {
    match s
    case Block(body) => WithinAll(body, st, fuel, limit)
    case If(c, t, e) =>
      var v := Eval(c, st);
      v.Val? ==> if Truthy(v.v) then Within(t, v.st, fuel, limit) else Within(e, v.st, fuel, limit)
    case While(labels, c, b) => WithinLoop(labels, c, Lit(0), b, true, st, fuel, 0, limit)
    case DoWhile(labels, b, c) => WithinLoop(labels, c, Lit(0), b, false, st, fuel, 0, limit)
    case For(labels, i, c, u, b) =>
      var v := Eval(i, st);
      v.Val? ==> WithinLoop(labels, c, u, b, true, v.st, fuel, 0, limit)
    case Labeled(_, s1) => Within(s1, st, fuel, limit)
    case TryCatch(b, x, h) =>
      var r := ExecAll(b, st, fuel);
      && WithinAll(b, st, fuel, limit)
      && (r.Done? && r.o.Threw? ==> WithinAll(h, Write(r.st, x, r.o.v), fuel, limit))
    case TryFinally(b, f) =>
      var r := ExecAll(b, st, fuel);
      WithinAll(b, st, fuel, limit) && (r.Done? ==> WithinAll(f, r.st, fuel, limit))
    case _ => true
  }

  predicate WithinAll(ss: Stmts, st: State, fuel: nat, limit: nat)
    decreases fuel, ss
  {
    ss.Cons? ==>
      var r := Exec(ss.head, st, fuel);
      Within(ss.head, st, fuel, limit) && (r.Done? && r.o == Normal ==> WithinAll(ss.tail, r.st, fuel, limit))
  }

  predicate WithinLoop(labels: set<Label>, c: Expr, u: Expr, b: Stmt, test: bool, st: State, fuel: nat, k: nat,
                       limit: nat)
    decreases fuel, b, 0
  {
    var t := Test(test, c, st);
    t.Val? && Truthy(t.v) && fuel > 0 ==>
      && k <= limit
      && Within(b, t.st, fuel - 1, limit)
      && WithinAfterBody(labels, c, u, b, Exec(b, t.st, fuel - 1), fuel - 1, k + 1, limit)
  }

  predicate WithinAfterBody(labels: set<Label>, c: Expr, u: Expr, b: Stmt, r: ExecResult, fuel: nat, k: nat, limit: nat)
    decreases fuel, b, 1
  {
    r.Done? && GoesOn(r.o, labels) ==>
      var w := Eval(u, r.st);
      w.Val? ==> WithinLoop(labels, c, u, b, true, w.st, fuel, k, limit)
  }

  // ----- Without a recorded error the limit made no difference -----

  lemma {:induction false} Unlimited(s: Stmt, st: State, limit: nat, fuel: nat)
    requires Limited(s, st, limit).st.loopError.None?
    requires fuel >= Need(LoopDepth(s), limit)
    ensures var r := Limited(s, st, limit); Exec(s, st, fuel) == Done(r.o, r.st) && Within(s, st, fuel, limit)
    decreases s, 1
  {
    match s
    case Do(_) | Throw(_) | Break(_) | Continue(_) | DeclareCounters(_) =>
    case Block(body) => UnlimitedAll(body, st, limit, fuel);
    case If(c, t, e) =>
      NeedMonotone(LoopDepth(t), LoopDepth(s), limit);
      NeedMonotone(LoopDepth(e), LoopDepth(s), limit);
      var v := Eval(c, st);
      if v.Val? { Unlimited(if Truthy(v.v) then t else e, v.st, limit, fuel); }
    case While(labels, c, b) => UnlimitedLoop(labels, c, Lit(0), b, true, st, 0, limit, fuel);
    case DoWhile(labels, b, c) => UnlimitedLoop(labels, c, Lit(0), b, false, st, 0, limit, fuel);
    case For(labels, i, c, u, b) =>
      var v := Eval(i, st);
      if v.Val? { UnlimitedLoop(labels, c, u, b, true, v.st, 0, limit, fuel); }
    case Labeled(_, s1) => Unlimited(s1, st, limit, fuel);
    case TryCatch(_, _, _) | TryFinally(_, _) => UnlimitedTry(s, st, limit, fuel);
  }

  lemma {:induction false} UnlimitedTry(s: Stmt, st: State, limit: nat, fuel: nat)
    requires s.TryCatch? || s.TryFinally?
    requires Limited(s, st, limit).st.loopError.None?
    requires fuel >= Need(LoopDepth(s), limit)
    ensures var r := Limited(s, st, limit); Exec(s, st, fuel) == Done(r.o, r.st) && Within(s, st, fuel, limit)
    decreases s, 0
  {
    var second := if s.TryCatch? then s.handler else s.finalizer;
    NeedMonotone(LoopDepthAll(s.block), LoopDepth(s), limit);
    NeedMonotone(LoopDepthAll(second), LoopDepth(s), limit);
    var r := LimitedAll(s.block, st, limit);
    var st1 := if s.TryCatch? && r.o.Threw? then Write(r.st, s.param, r.o.v) else r.st;
    if r.st.loopError.Some? {
      LimitedAllKeepsLoopError(second, st1, limit);
      assert false;
    }
    UnlimitedAll(s.block, st, limit, fuel);
    if s.TryFinally? || r.o.Threw? { UnlimitedAll(second, st1, limit, fuel); }
  }

  lemma {:induction false} UnlimitedAll(ss: Stmts, st: State, limit: nat, fuel: nat)
    requires LimitedAll(ss, st, limit).st.loopError.None?
    requires fuel >= Need(LoopDepthAll(ss), limit)
    ensures var r := LimitedAll(ss, st, limit);
            ExecAll(ss, st, fuel) == Done(r.o, r.st) && WithinAll(ss, st, fuel, limit)
    decreases ss, 1
  {
    if ss.Cons? {
      NeedMonotone(LoopDepth(ss.head), LoopDepthAll(ss), limit);
      NeedMonotone(LoopDepthAll(ss.tail), LoopDepthAll(ss), limit);
      var r := Limited(ss.head, st, limit);
      if r.st.loopError.Some? {
        LimitedAllKeepsLoopError(ss.tail, r.st, limit);
        assert false;
      }
      Unlimited(ss.head, st, limit, fuel);
      if r.o == Normal { UnlimitedAll(ss.tail, r.st, limit, fuel); }
    }
  }

  lemma {:induction false} UnlimitedLoop(labels: set<Label>, c: Expr, u: Expr, b: Stmt, test: bool, st: State,
                                         k: nat, limit: nat, fuel: nat)
    requires LimitedLoop(labels, c, u, b, test, st, k, limit).st.loopError.None? && k <= limit + 1
    requires fuel >= limit + 2 - k + Need(LoopDepth(b), limit)
    ensures var r := LimitedLoop(labels, c, u, b, test, st, k, limit);
            && ExecLoop(labels, c, u, b, test, st, fuel) == Done(r.o, r.st)
            && WithinLoop(labels, c, u, b, test, st, fuel, k, limit)
    decreases b, 3, limit + 1 - k
  {
    var t := Test(test, c, st);
    if t.Val? && Truthy(t.v) {
      UnfoldLimited(labels, c, u, b, test, st, k, limit);
      var q := UnlimitedBody(labels, c, u, b, test, st, k, limit, fuel);
      if GoesOn(q.o, labels) {
        var w := Eval(u, q.st);
        if w.Val? { UnlimitedLoop(labels, c, u, b, true, w.st, k + 1, limit, fuel - 1); }
      }
    } else {
      UnfoldExit(labels, c, u, b, test, st, k, limit, fuel);
    }
  }

  /** One iteration; `q` is how its body ended. */
  lemma {:induction false} UnlimitedBody(labels: set<Label>, c: Expr, u: Expr, b: Stmt, test: bool, st: State,
                                         k: nat, limit: nat, fuel: nat) returns (q: Ran)
    requires Test(test, c, st).Val? && Truthy(Test(test, c, st).v) && k <= limit
    requires LimitedLoop(labels, c, u, b, test, st, k, limit).st.loopError.None?
    requires fuel > Need(LoopDepth(b), limit)
    ensures ExecLoop(labels, c, u, b, test, st, fuel) == AfterBody(labels, c, u, b, Done(q.o, q.st), fuel - 1)
    ensures LimitedLoop(labels, c, u, b, test, st, k, limit) == LimitedAfterBody(labels, c, u, b, q, k + 1, limit)
    ensures WithinLoop(labels, c, u, b, test, st, fuel, k, limit)
            == WithinAfterBody(labels, c, u, b, Done(q.o, q.st), fuel - 1, k + 1, limit)
    decreases b, 2
  {
    var st1 := Test(test, c, st).st;
    q := Limited(b, st1, limit);
    UnfoldLimited(labels, c, u, b, test, st, k, limit);
    UnfoldLoop(labels, c, u, b, test, st, fuel);
    AfterBodyKeepsLoopError(labels, c, u, b, q, k + 1, limit);
    Unlimited(b, st1, limit, fuel - 1);
  }

  lemma AfterBodyKeepsLoopError(labels: set<Label>, c: Expr, u: Expr, b: Stmt, q: Ran, k: nat, limit: nat)
    ensures LimitedAfterBody(labels, c, u, b, q, k, limit).st.loopError.None? ==> q.st.loopError.None?
  {
    EvalKeepsLoopError(u, q.st);
    if q.st.loopError.Some? {
      LimitedLoopKeepsLoopError(labels, c, u, b, true, Eval(u, q.st).st, k, limit);
    }
  }

  // ----- A source run that ends within the limits records no error -----

  lemma {:induction false} WithinIsLimited(s: Stmt, st: State, n0: nat, limit: nat, fuel: nat)
    requires Source(s, n0) && Exec(s, st, fuel).Done? && Within(s, st, fuel, limit)
    ensures var r := Exec(s, st, fuel); Limited(s, st, limit) == Ran(r.o, r.st) && r.st.loopError == st.loopError
    decreases s, 1
  {
    match s
    case Do(e) => EvalKeepsLoopError(e, st);
    case Throw(e) => EvalKeepsLoopError(e, st);
    case Break(_) | Continue(_) =>
    case Block(body) => WithinAllIsLimited(body, st, n0, limit, fuel);
    case If(c, t, e) =>
      EvalKeepsLoopError(c, st);
      var v := Eval(c, st);
      if v.Val? { WithinIsLimited(if Truthy(v.v) then t else e, v.st, n0, limit, fuel); }
    case While(labels, c, b) => WithinLoopIsLimited(labels, c, Lit(0), b, true, st, n0, 0, limit, fuel);
    case DoWhile(labels, b, c) => WithinLoopIsLimited(labels, c, Lit(0), b, false, st, n0, 0, limit, fuel);
    case For(labels, i, c, u, b) =>
      EvalKeepsLoopError(i, st);
      var v := Eval(i, st);
      if v.Val? { WithinLoopIsLimited(labels, c, u, b, true, v.st, n0, 0, limit, fuel); }
    case Labeled(_, s1) => WithinIsLimited(s1, st, n0, limit, fuel);
    case TryCatch(b, x, h) =>
      WithinAllIsLimited(b, st, n0, limit, fuel);
      var r := ExecAll(b, st, fuel);
      if r.o.Threw? { WithinAllIsLimited(h, Write(r.st, x, r.o.v), n0, limit, fuel); }
    case TryFinally(b, f) =>
      WithinAllIsLimited(b, st, n0, limit, fuel);
      WithinAllIsLimited(f, ExecAll(b, st, fuel).st, n0, limit, fuel);
  }

  lemma {:induction false} WithinAllIsLimited(ss: Stmts, st: State, n0: nat, limit: nat, fuel: nat)
    requires SourceAll(ss, n0) && ExecAll(ss, st, fuel).Done? && WithinAll(ss, st, fuel, limit)
    ensures var r := ExecAll(ss, st, fuel);
            LimitedAll(ss, st, limit) == Ran(r.o, r.st) && r.st.loopError == st.loopError
    decreases ss, 1
  {
    if ss.Cons? {
      WithinIsLimited(ss.head, st, n0, limit, fuel);
      var r := Exec(ss.head, st, fuel);
      if r.o == Normal { WithinAllIsLimited(ss.tail, r.st, n0, limit, fuel); }
    }
  }

  lemma {:induction false} WithinLoopIsLimited(labels: set<Label>, c: Expr, u: Expr, b: Stmt, test: bool, st: State,
                                               n0: nat, k: nat, limit: nat, fuel: nat)
    requires Source(b, n0) && ExecLoop(labels, c, u, b, test, st, fuel).Done?
    requires WithinLoop(labels, c, u, b, test, st, fuel, k, limit)
    ensures var r := ExecLoop(labels, c, u, b, test, st, fuel);
            LimitedLoop(labels, c, u, b, test, st, k, limit) == Ran(r.o, r.st) && r.st.loopError == st.loopError
    decreases b, 3, fuel
  {
    EvalKeepsLoopError(c, st);
    var t := Test(test, c, st);
    if t.Val? && Truthy(t.v) {
      var q := WithinBody(labels, c, u, b, test, st, n0, k, limit, fuel);
      if GoesOn(q.o, labels) {
        EvalKeepsLoopError(u, q.st);
        var w := Eval(u, q.st);
        if w.Val? { WithinLoopIsLimited(labels, c, u, b, true, w.st, n0, k + 1, limit, fuel - 1); }
      }
    } else {
      UnfoldExit(labels, c, u, b, test, st, k, limit, fuel);
    }
  }

  /** One iteration; `q` is how its body ended. */
  lemma {:induction false} WithinBody(labels: set<Label>, c: Expr, u: Expr, b: Stmt, test: bool, st: State,
                                      n0: nat, k: nat, limit: nat, fuel: nat) returns (q: Ran)
    requires Source(b, n0) && ExecLoop(labels, c, u, b, test, st, fuel).Done?
    requires Test(test, c, st).Val? && Truthy(Test(test, c, st).v)
    requires WithinLoop(labels, c, u, b, test, st, fuel, k, limit)
    ensures fuel > 0 && q.st.loopError == Test(test, c, st).st.loopError
    ensures ExecLoop(labels, c, u, b, test, st, fuel) == AfterBody(labels, c, u, b, Done(q.o, q.st), fuel - 1)
    ensures LimitedLoop(labels, c, u, b, test, st, k, limit) == LimitedAfterBody(labels, c, u, b, q, k + 1, limit)
    ensures WithinAfterBody(labels, c, u, b, Done(q.o, q.st), fuel - 1, k + 1, limit)
    decreases b, 2
  {
    var st1 := Test(test, c, st).st;
    UnfoldLoop(labels, c, u, b, test, st, fuel);
    UnfoldLimited(labels, c, u, b, test, st, k, limit);
    WithinIsLimited(b, st1, n0, limit, fuel - 1);
    q := Limited(b, st1, limit);
  }

  // ----- Programs -----

  /** The fuel that every run of the rewritten program fits in: (limit + 2) for each level of loops. */
  function Enough(p: Stmts, limit: nat): nat { Need(LoopDepthAll(p), limit) }

  /** A start state of the source program: only its own names exist, and no error is recorded. */
  predicate Start(st: State, n0: nat) { Erase(st, n0) == st && st.loopError.None? }

  /** The rewritten program always ends, however its source behaves. */
  lemma GuardedAlwaysTerminates(p: Stmts, st: State, n0: nat, limit: nat, fuel: nat)
    requires SourceAll(p, n0) && fuel >= Enough(p, limit)
    ensures ExecAll(RewriteProgram(p, n0, limit), st, fuel).Done?
  {
    RefinesScope(p, st, n0, n0, limit, fuel);
  }

  /** Every finished run of the rewritten program is the limited run of its source: same outcome, same
      variables, same assignments in the same order, same recorded error. */
  lemma GuardedRefinesLimited(p: Stmts, st: State, n0: nat, limit: nat, fuel: nat)
    requires SourceAll(p, n0)
    requires ExecAll(RewriteProgram(p, n0, limit), st, fuel).Done?
    ensures var got, want := ExecAll(RewriteProgram(p, n0, limit), st, fuel), LimitedAll(p, Erase(st, n0), limit);
            got.o == want.o && Erase(got.st, n0) == want.st
  {
    var big := Max(fuel, Enough(p, limit));
    RefinesScope(p, st, n0, n0, limit, big);
    FuelMonotoneAll(RewriteProgram(p, n0, limit), st, fuel, big);
  }

  /** If no error was recorded, the source program ends too, with the same outcome, values and assignments. */
  lemma MeaningPreserved(p: Stmts, st: State, n0: nat, limit: nat, fuel: nat)
    requires SourceAll(p, n0) && Start(st, n0)
    requires var got := ExecAll(RewriteProgram(p, n0, limit), st, fuel); got.Done? && got.st.loopError.None?
    ensures var got := ExecAll(RewriteProgram(p, n0, limit), st, fuel);
            forall g :: g >= Enough(p, limit) ==> ExecAll(p, st, g) == Done(got.o, Erase(got.st, n0))
  {
    GuardedRefinesLimited(p, st, n0, limit, fuel);
    forall g | g >= Enough(p, limit)
      ensures ExecAll(p, st, g) == Done(LimitedAll(p, st, limit).o, LimitedAll(p, st, limit).st)
    {
      UnlimitedAll(p, st, limit, g);
    }
  }

  /** A source program that never ends is always caught: the error is recorded, even if the program caught it. */
  lemma EveryInfiniteLoopIsCaught(p: Stmts, st: State, n0: nat, limit: nat, fuel: nat)
    requires SourceAll(p, n0) && Start(st, n0) && fuel >= Enough(p, limit)
    requires forall g :: ExecAll(p, st, g) == Timeout
    ensures var got := ExecAll(RewriteProgram(p, n0, limit), st, fuel); got.Done? && got.st.loopError.Some?
  {
    GuardedAlwaysTerminates(p, st, n0, limit, fuel);
    var got := ExecAll(RewriteProgram(p, n0, limit), st, fuel);
    assert ExecAll(p, st, Enough(p, limit)) == Timeout;
    if got.st.loopError.None? {
      MeaningPreserved(p, st, n0, limit, fuel);
    }
  }

  /** The error is recorded exactly when the source run overruns: it does not end, or some entry of
      some loop starts more than limit + 1 bodies. */
  lemma RecordsExactlyOverruns(p: Stmts, st: State, n0: nat, limit: nat, fuel: nat)
    requires SourceAll(p, n0) && Start(st, n0) && fuel >= Enough(p, limit)
    ensures var got := ExecAll(RewriteProgram(p, n0, limit), st, fuel);
            got.Done? && (got.st.loopError.None? <==> ExecAll(p, st, fuel).Done? && WithinAll(p, st, fuel, limit))
  {
    GuardedAlwaysTerminates(p, st, n0, limit, fuel);
    GuardedRefinesLimited(p, st, n0, limit, fuel);
    if LimitedAll(p, st, limit).st.loopError.None? {
      UnlimitedAll(p, st, limit, fuel);
    }
    if ExecAll(p, st, fuel).Done? && WithinAll(p, st, fuel, limit) {
      WithinAllIsLimited(p, st, n0, limit, fuel);
    }
  }
}
