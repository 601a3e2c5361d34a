/** The rewritten program does exactly what `Limited` says, and it always ends. */
module LoopGuardRefinement {
  import opened Wrappers
  import opened LoopLanguage
  import opened LoopGuard

  // ----- What the source program can see of a state: the names below n0 -----

  function Visible(writes: seq<(Name, Value)>, n0: nat): seq<(Name, Value)> {
    if writes == [] then []
    else
      var init := Visible(writes[..|writes| - 1], n0);
      var last := writes[|writes| - 1];
      if last.0 < n0 then init + [last] else init
  }

  function Erase(st: State, n0: nat): State {
    State(map x | x in st.vars && x < n0 :: st.vars[x], Visible(st.writes, n0), st.loopError)
  }

  function Lookup(st: State, x: Name): Option<Value> {
    if x in st.vars then Some(st.vars[x]) else None
  }

  /** Of the names from n0 on, only those in [lo, hi) may differ. */
  ghost predicate Frame(a: State, b: State, n0: nat, lo: nat, hi: nat) {
    forall x {:trigger Lookup(b, x)} :: n0 <= x && !(lo <= x < hi) ==> Lookup(a, x) == Lookup(b, x)
  }

  ghost predicate Zeroed(xs: seq<Name>, st: State) {
    forall x :: x in xs ==> Lookup(st, x) == Some(Num(0))
  }

  lemma EraseWrite(st: State, x: Name, v: Value, n0: nat)
    ensures Erase(Write(st, x, v), n0) == if x < n0 then Write(Erase(st, n0), x, v) else Erase(st, n0)
    ensures forall y :: Lookup(Write(st, x, v), y) == if y == x then Some(v) else Lookup(st, y)
  {
    var w := st.writes + [(x, v)];
    assert w[..|w| - 1] == st.writes;
    var a, b := Erase(Write(st, x, v), n0), if x < n0 then Write(Erase(st, n0), x, v) else Erase(st, n0);
    assert a.vars == b.vars;
  }

  lemma {:induction false} EvalErase(e: Expr, st: State, n0: nat)
    requires SourceExpr(e, n0)
    ensures Eval(e, Erase(st, n0)).Val? == Eval(e, st).Val?
    ensures Eval(e, Erase(st, n0)).v == Eval(e, st).v
    ensures Eval(e, Erase(st, n0)).st == Erase(Eval(e, st).st, n0)
    ensures Frame(st, Eval(e, st).st, n0, 0, 0)
  {
    match e
    case Lit(_) | Get(_) | ReadLoopError =>
    case PostInc(x) =>
      if x in st.vars {
        EraseWrite(st, x, if st.vars[x].Num? then Num(st.vars[x].n + 1) else NaN, n0);
      }
    case Set(x, e1) =>
      EvalErase(e1, st, n0);
      var r := Eval(e1, st);
      EraseWrite(r.st, x, r.v, n0);
    case Bin(_, l, r) =>
      EvalErase(l, st, n0);
      EvalErase(r, Eval(l, st).st, n0);
    case And(l, r) =>
      EvalErase(l, st, n0);
      EvalErase(r, Eval(l, st).st, n0);
  }

  /** All these names lie in [lo, hi). */
  predicate InRange(xs: seq<Name>, lo: nat, hi: nat) { forall k :: 0 <= k < |xs| ==> lo <= xs[k] < hi }

  lemma LaterInRange(xs: seq<Name>, lo: nat, hi: nat)
    requires InRange(xs, lo, hi) && xs != []
    ensures lo <= xs[0] < hi && InRange(xs[1..], lo, hi)
  {}

  lemma {:induction false} DeclareHidden(xs: seq<Name>, st: State, n0: nat, hi: nat)
    requires InRange(xs, n0, hi)
    ensures Erase(Declare(xs, st), n0) == Erase(st, n0)
  {
    if xs != [] {
      EraseWrite(st, xs[0], Num(0), n0);
      LaterInRange(xs, n0, hi);
      DeclareHidden(xs[1..], Write(st, xs[0], Num(0)), n0, hi);
    }
  }

  lemma {:induction false} DeclareFrame(xs: seq<Name>, st: State, n0: nat, lo: nat, hi: nat)
    requires InRange(xs, lo, hi)
    ensures Frame(st, Declare(xs, st), n0, lo, hi)
  {
    if xs != [] {
      EraseWrite(st, xs[0], Num(0), n0);
      LaterInRange(xs, lo, hi);
      DeclareFrame(xs[1..], Write(st, xs[0], Num(0)), n0, lo, hi);
    }
  }

  lemma DeclareErase(xs: seq<Name>, st: State, n0: nat, lo: nat, hi: nat)
    requires n0 <= lo && forall x :: x in xs ==> lo <= x < hi
    ensures Erase(Declare(xs, st), n0) == Erase(st, n0)
    ensures Frame(st, Declare(xs, st), n0, lo, hi)
  {
    assert InRange(xs, lo, hi) by { assert forall k :: 0 <= k < |xs| ==> xs[k] in xs; }
    DeclareHidden(xs, st, n0, hi);
    DeclareFrame(xs, st, n0, lo, hi);
  }

  /** Declaring counters sets each of them to 0, and none that was 0 to anything else. */
  lemma {:induction false} DeclareZeroes(xs: seq<Name>, st: State)
    ensures forall x {:trigger Lookup(Declare(xs, st), x)} :: x in xs || Lookup(st, x) == Some(Num(0)) ==>
              Lookup(Declare(xs, st), x) == Some(Num(0))
  {
    if xs != [] {
      var st1 := Write(st, xs[0], Num(0));
      EraseWrite(st, xs[0], Num(0), 0);
      DeclareZeroes(xs[1..], st1);
      assert forall x :: x in xs ==> x == xs[0] || x in xs[1..];
    }
  }

  // ----- Fuel -----

  function Max(a: nat, b: nat): nat { if a < b then b else a }

  function LoopDepth(s: Stmt): nat {
    match s
    case Block(body) => LoopDepthAll(body)
    case If(_, t, e) => Max(LoopDepth(t), LoopDepth(e))
    case While(_, _, b) => 1 + LoopDepth(b)
    case DoWhile(_, b, _) => 1 + LoopDepth(b)
    case For(_, _, _, _, b) => 1 + LoopDepth(b)
    case Labeled(_, s1) => LoopDepth(s1)
    case TryCatch(b, _, h) => Max(LoopDepthAll(b), LoopDepthAll(h))
    case TryFinally(b, f) => Max(LoopDepthAll(b), LoopDepthAll(f))
    case _ => 0
  }

  function LoopDepthAll(ss: Stmts): nat {
    if ss.Nil? then 0 else Max(LoopDepth(ss.head), LoopDepthAll(ss.tail))
  }

  /** Enough fuel for loops nested `depth` deep: (limit + 2) * depth. */
  function Need(depth: nat, limit: nat): nat {
    if depth == 0 then 0 else limit + 2 + Need(depth - 1, limit)
  }

  lemma {:induction false} NeedMonotone(a: nat, b: nat, limit: nat)
    requires a <= b
    ensures Need(a, limit) <= Need(b, limit)
  {
    if a < b { NeedMonotone(a, b - 1, limit); }
  }

  /** `r` is the run `want`, as far as the source program can see, and of the other names only [lo, hi) changed. */
  ghost predicate Matches(r: ExecResult, want: Ran, st: State, n0: nat, lo: nat, hi: nat) {
    r.Done? && r.o == want.o && Erase(r.st, n0) == want.st && Frame(st, r.st, n0, lo, hi)
  }

  lemma {:induction false} Refines(s: Stmt, st: State, n0: nat, next: nat, limit: nat, fuel: nat)
    requires Source(s, n0) && n0 <= next
    requires Zeroed(Rewrite(s, next, limit).counters, st)
    requires fuel >= Need(LoopDepth(s), limit)
    ensures var r := Rewrite(s, next, limit);
            Matches(Exec(r.s, st, fuel), Limited(s, Erase(st, n0), limit), st, n0, next, r.next)
    decreases s, 1
  {
    var r := Rewrite(s, next, limit);
    match s
    case Do(e) => EvalErase(e, st, n0);
    case Throw(e) => EvalErase(e, st, n0);
    case Break(_) | Continue(_) =>
    case Block(body) => RefinesScope(body, st, n0, next, limit, fuel);
    case If(c, t, e) =>
      EvalErase(c, st, n0);
      var v := Eval(c, st);
      var a := Rewrite(t, next, limit);
      assert forall x :: x in a.counters || x in Rewrite(e, a.next, limit).counters ==> x in r.counters;
      NeedMonotone(LoopDepth(t), LoopDepth(s), limit);
      NeedMonotone(LoopDepth(e), LoopDepth(s), limit);
      if v.Val? {
        if Truthy(v.v) {
          Refines(t, v.st, n0, next, limit, fuel);
        } else {
          Refines(e, v.st, n0, a.next, limit, fuel);
        }
      }
    case While(labels, c, b) =>
      assert next in r.counters;
      RefinesLoop(labels, c, Lit(0), b, true, st, n0, next, 0, limit, fuel);
    case DoWhile(labels, b, c) =>
      assert next in r.counters;
      RefinesLoop(labels, c, Lit(0), b, false, st, n0, next, 0, limit, fuel);
    case For(labels, i, c, u, b) =>
      assert next in r.counters;
      EvalErase(i, st, n0);
      var v := Eval(i, st);
      if v.Val? {
        assert Lookup(v.st, next) == Some(Num(0));
        RefinesLoop(labels, c, u, b, true, v.st, n0, next, 0, limit, fuel);
      }
    case Labeled(l, s1) => Refines(s1, st, n0, next, limit, fuel);
    case TryCatch(_, _, _) | TryFinally(_, _) => RefinesTry(s, st, n0, next, limit, fuel);
  }

  lemma {:induction false} RefinesTry(s: Stmt, st: State, n0: nat, next: nat, limit: nat, fuel: nat)
    requires Source(s, n0) && n0 <= next && (s.TryCatch? || s.TryFinally?)
    requires fuel >= Need(LoopDepth(s), limit)
    ensures var r := Rewrite(s, next, limit);
            Matches(Exec(r.s, st, fuel), Limited(s, Erase(st, n0), limit), st, n0, next, r.next)
    decreases s, 0
  {
    var a := RewriteAll(s.block, next, limit);
    var second := if s.TryCatch? then s.handler else s.finalizer;
    NeedMonotone(LoopDepthAll(s.block), LoopDepth(s), limit);
    NeedMonotone(LoopDepthAll(second), LoopDepth(s), limit);
    RefinesScope(s.block, st, n0, next, limit, fuel);
    var q := ExecAll(OpenScope(a.counters, a.ss), st, fuel);
    if s.TryFinally? {
      RefinesScope(second, q.st, n0, a.next, limit, fuel);
    } else if q.o.Threw? {
      EraseWrite(q.st, s.param, q.o.v, n0);
      RefinesScope(second, Write(q.st, s.param, q.o.v), n0, a.next, limit, fuel);
    }
  }

  lemma {:induction false} RefinesAll(ss: Stmts, st: State, n0: nat, next: nat, limit: nat, fuel: nat)
    requires SourceAll(ss, n0) && n0 <= next
    requires Zeroed(RewriteAll(ss, next, limit).counters, st)
    requires fuel >= Need(LoopDepthAll(ss), limit)
    ensures var r := RewriteAll(ss, next, limit);
            Matches(ExecAll(r.ss, st, fuel), LimitedAll(ss, Erase(st, n0), limit), st, n0, next, r.next)
    decreases ss, 1
  {
    if ss.Cons? {
      var a := Rewrite(ss.head, next, limit);
      var b := RewriteAll(ss.tail, a.next, limit);
      assert forall x :: x in a.counters || x in b.counters ==> x in RewriteAll(ss, next, limit).counters;
      NeedMonotone(LoopDepth(ss.head), LoopDepthAll(ss), limit);
      NeedMonotone(LoopDepthAll(ss.tail), LoopDepthAll(ss), limit);
      Refines(ss.head, st, n0, next, limit, fuel);
      var r := Exec(a.s, st, fuel);
      if r.o == Normal {
        RefinesAll(ss.tail, r.st, n0, a.next, limit, fuel);
      }
    }
  }

  /** A block first sets its own counters to 0, so nothing is asked of the state before it. */
  lemma {:induction false} RefinesScope(ss: Stmts, st: State, n0: nat, next: nat, limit: nat, fuel: nat)
    requires SourceAll(ss, n0) && n0 <= next
    requires fuel >= Need(LoopDepthAll(ss), limit)
    ensures var r := RewriteAll(ss, next, limit);
            Matches(ExecAll(OpenScope(r.counters, r.ss), st, fuel), LimitedAll(ss, Erase(st, n0), limit),
                    st, n0, next, r.next)
    decreases ss, 2
  {
    var r := RewriteAll(ss, next, limit);
    ScopeStep(r.counters, r.ss, st, fuel);
    DeclareErase(r.counters, st, n0, next, r.next);
    DeclareZeroes(r.counters, st);
    RefinesAll(ss, Declare(r.counters, st), n0, next, limit, fuel);
  }

  lemma ScopeStep(counters: seq<Name>, body: Stmts, st: State, fuel: nat)
    ensures ExecAll(OpenScope(counters, body), st, fuel) == ExecAll(body, Declare(counters, st), fuel)
  {
    if counters != [] {
      assert Exec(DeclareCounters(counters), st, fuel) == Done(Normal, Declare(counters, st));
    }
  }

  /** The guard lets k <= limit through and adds one to the counter; past the limit it records and throws. */
  lemma GuardStep(it: Name, k: nat, limit: nat, rest: Stmts, st: State, fuel: nat)
    requires Lookup(st, it) == Some(Num(k))
    ensures var st2 := Write(st, it, Num(k + 1));
            ExecAll(Cons(Guard(it, limit), rest), st, fuel) ==
            if k > limit then Done(Threw(RangeError(limit)), st2.(loopError := Some(RangeError(limit))))
            else ExecAll(rest, st2, fuel)
  {
    var st2 := Write(st, it, Num(k + 1));
    var cond := Bin(Greater, PostInc(it), Lit(limit));
    assert Eval(PostInc(it), st) == Val(Num(k), st2);
    assert Eval(cond, st) == Val(Bool(k > limit), st2);
    var st3 := st2.(loopError := Some(RangeError(limit)));
    var fail := Cons(Throw(ReadLoopError), Nil);
    assert Exec(Throw(ReadLoopError), st3, fuel) == Done(Threw(RangeError(limit)), st3);
    assert ExecAll(fail, st3, fuel) == Done(Threw(RangeError(limit)), st3);
    assert Exec(RecordLoopError(limit), st2, fuel) == Done(Normal, st3);
    var thn, els := Block(Cons(RecordLoopError(limit), fail)), Block(Nil);
    assert Exec(thn, st2, fuel) == ExecAll(Cons(RecordLoopError(limit), fail), st2, fuel) == ExecAll(fail, st3, fuel);
    assert Exec(els, st2, fuel) == ExecAll(Nil, st2, fuel) == Done(Normal, st2);
    assert Exec(Guard(it, limit), st, fuel) == Exec(if Truthy(Bool(k > limit)) then thn else els, st2, fuel);
  }

  function InnerCounters(b: Stmt, it: Name, limit: nat): seq<Name> {
    if b.Block? then RewriteAll(b.body, it + 1, limit).counters else Rewrite(b, it + 1, limit).counters
  }

  function InnerBody(b: Stmt, it: Name, limit: nat): Stmts {
    if b.Block? then RewriteAll(b.body, it + 1, limit).ss else Cons(Rewrite(b, it + 1, limit).s, Nil)
  }

  lemma {:induction false} RefinesInner(b: Stmt, st: State, n0: nat, it: Name, limit: nat, fuel: nat)
    requires Source(b, n0) && n0 <= it
    requires Zeroed(InnerCounters(b, it, limit), st)
    requires fuel >= Need(LoopDepth(b), limit)
    ensures Matches(ExecAll(InnerBody(b, it, limit), st, fuel), Limited(b, Erase(st, n0), limit),
                    st, n0, it + 1, GuardBody(b, it, limit).next)
    decreases b, 2
  {
    if b.Block? {
      RefinesAll(b.body, st, n0, it + 1, limit, fuel);
    } else {
      Refines(b, st, n0, it + 1, limit, fuel);
      var s1 := Rewrite(b, it + 1, limit).s;
      var r := Exec(s1, st, fuel);
      assert ExecAll(Nil, r.st, fuel) == Done(Normal, r.st);
      assert ExecAll(Cons(s1, Nil), st, fuel) == r;
    }
  }

  function GuardedRun(b: Stmt, st: State, k: nat, limit: nat): Ran {
    if k > limit then Ran(Threw(RangeError(limit)), st.(loopError := Some(RangeError(limit))))
    else Limited(b, st, limit)
  }

  /** One guarded body, entered with its counter at k. */
  lemma {:induction false} RefinesBody(b: Stmt, st: State, n0: nat, it: Name, k: nat, limit: nat, fuel: nat)
    requires Source(b, n0) && n0 <= it
    requires Lookup(st, it) == Some(Num(k))
    requires fuel >= Need(LoopDepth(b), limit)
    ensures var r := GuardBody(b, it, limit);
            var got := Exec(r.s, st, fuel);
            && Matches(got, GuardedRun(b, Erase(st, n0), k, limit), st, n0, it, r.next)
            && Lookup(got.st, it) == Some(Num(k + 1))
    decreases b, 3
  {
    var r := GuardBody(b, it, limit);
    var counters, inner := InnerCounters(b, it, limit), InnerBody(b, it, limit);
    var body := Cons(Guard(it, limit), inner);
    assert r.s == Block(OpenScope(counters, body));
    var st1 := Declare(counters, st);
    ScopeStep(counters, body, st, fuel);
    DeclareErase(counters, st, n0, it + 1, r.next);
    DeclareZeroes(counters, st);
    assert Lookup(st1, it) == Some(Num(k));
    var st2 := Write(st1, it, Num(k + 1));
    EraseWrite(st1, it, Num(k + 1), n0);
    GuardStep(it, k, limit, inner, st1, fuel);
    if k <= limit {
      RefinesInner(b, st2, n0, it, limit, fuel);
    } else {
      var st3 := st2.(loopError := Some(RangeError(limit)));
      assert forall x :: Lookup(st3, x) == Lookup(st2, x);
    }
  }

  function Test(test: bool, c: Expr, st: State): Evaluated { if test then Eval(c, st) else Val(Num(1), st) }

  lemma UnfoldLoop(labels: set<Label>, c: Expr, u: Expr, b: Stmt, test: bool, st: State, fuel: nat)
    requires fuel > 0 && Test(test, c, st).Val? && Truthy(Test(test, c, st).v)
    ensures ExecLoop(labels, c, u, b, test, st, fuel)
            == AfterBody(labels, c, u, b, Exec(b, Test(test, c, st).st, fuel - 1), fuel - 1)
  {}

  lemma UnfoldLimited(labels: set<Label>, c: Expr, u: Expr, b: Stmt, test: bool, st: State, k: nat, limit: nat)
    requires Test(test, c, st).Val? && Truthy(Test(test, c, st).v)
    ensures var st1 := Test(test, c, st).st;
            LimitedLoop(labels, c, u, b, test, st, k, limit)
            == if k > limit then GuardedRun(b, st1, k, limit)
               else LimitedAfterBody(labels, c, u, b, Limited(b, st1, limit), k + 1, limit)
  {}

  function Exit(t: Evaluated): Ran { Ran(if t.Val? then Normal else Threw(t.v), t.st) }

  lemma UnfoldExit(labels: set<Label>, c: Expr, u: Expr, b: Stmt, test: bool, st: State, k: nat, limit: nat, fuel: nat)
    requires Test(test, c, st).Val? ==> !Truthy(Test(test, c, st).v)
    ensures LimitedLoop(labels, c, u, b, test, st, k, limit) == Exit(Test(test, c, st))
    ensures var e := Exit(Test(test, c, st)); ExecLoop(labels, c, u, b, test, st, fuel) == Done(e.o, e.st)
  {}

  /** One iteration whose test succeeds; `q` is how the guarded body ended. */
  lemma {:induction false} RefinesIteration(labels: set<Label>, c: Expr, u: Expr, b: Stmt, test: bool, st: State,
                                            n0: nat, it: Name, k: nat, limit: nat, fuel: nat) returns (q: ExecResult)
    requires SourceExpr(c, n0) && SourceExpr(u, n0) && Source(b, n0) && n0 <= it
    requires Lookup(st, it) == Some(Num(k))
    requires fuel > Need(LoopDepth(b), limit)
    requires Test(test, c, st).Val? && Truthy(Test(test, c, st).v)
    ensures q.Done? && Lookup(q.st, it) == Some(Num(k + 1))
    ensures var r := GuardBody(b, it, limit);
            && ExecLoop(labels, c, u, r.s, test, st, fuel) == AfterBody(labels, c, u, r.s, q, fuel - 1)
            && Frame(st, q.st, n0, it, r.next)
    ensures var got, limited := Ran(q.o, Erase(q.st, n0)), LimitedLoop(labels, c, u, b, test, Erase(st, n0), k, limit);
            if k > limit then q.o == Threw(RangeError(limit)) && limited == got
            else limited == LimitedAfterBody(labels, c, u, b, got, k + 1, limit)
    decreases b, 4
  {
    var r := GuardBody(b, it, limit);
    EvalErase(c, st, n0);
    var st1 := Test(test, c, st).st;
    assert Lookup(st1, it) == Some(Num(k));
    RefinesBody(b, st1, n0, it, k, limit, fuel - 1);
    q := Exec(r.s, st1, fuel - 1);
    UnfoldLoop(labels, c, u, r.s, test, st, fuel);
    UnfoldLimited(labels, c, u, b, test, Erase(st, n0), k, limit);
  }

  lemma {:induction false} RefinesLoop(labels: set<Label>, c: Expr, u: Expr, b: Stmt, test: bool, st: State,
                                       n0: nat, it: Name, k: nat, limit: nat, fuel: nat)
    requires SourceExpr(c, n0) && SourceExpr(u, n0) && Source(b, n0) && n0 <= it && k <= limit + 1
    requires Lookup(st, it) == Some(Num(k))
    requires fuel >= limit + 2 - k + Need(LoopDepth(b), limit)
    ensures var r := GuardBody(b, it, limit);
            Matches(ExecLoop(labels, c, u, r.s, test, st, fuel),
                    LimitedLoop(labels, c, u, b, test, Erase(st, n0), k, limit), st, n0, it, r.next)
    decreases b, 5, limit + 1 - k
  {
    var body := GuardBody(b, it, limit).s;
    var t := Test(test, c, st);
    if t.Val? && Truthy(t.v) {
      var q := RefinesIteration(labels, c, u, b, test, st, n0, it, k, limit, fuel);
      if k <= limit && GoesOn(q.o, labels) {
        EvalErase(u, q.st, n0);
        var w := Eval(u, q.st);
        if w.Val? {
          assert Lookup(w.st, it) == Some(Num(k + 1));
          RefinesLoop(labels, c, u, b, true, w.st, n0, it, k + 1, limit, fuel - 1);
        }
      }
    } else {
      EvalErase(c, st, n0);
      UnfoldExit(labels, c, u, body, test, st, k, limit, fuel);
      UnfoldExit(labels, c, u, b, test, Erase(st, n0), k, limit, fuel);
    }
  }
}
