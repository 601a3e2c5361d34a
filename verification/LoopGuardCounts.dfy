/** How much a rewritten program can run: a loop nested d deep gets past its guard at most (limit + 1)^d times. */
module LoopGuardCounts {
  import opened Wrappers
  import opened LoopLanguage
  import opened LoopGuard
  import opened LoopGuardRefinement
  import opened LoopGuardTheorems

  /** The times that the guard with counter `it` let a body through: it then left 1..limit+1 in the counter. */
  function Passes(writes: seq<(Name, Value)>, it: Name, limit: nat): nat {
    if writes == [] then 0
    else
      var last := writes[|writes| - 1];
      Passes(writes[..|writes| - 1], it, limit)
      + if last.0 == it && last.1.Num? && 1 <= last.1.n <= limit + 1 then 1 else 0
  }

  ghost predicate Adds(a: State, b: State, it: Name, limit: nat, n: nat) {
    Passes(b.writes, it, limit) <= Passes(a.writes, it, limit) + n
  }

  function Times(n: nat, m: nat): nat { if n == 0 then 0 else m + Times(n - 1, m) }

  function Power(b: nat, e: nat): nat { if e == 0 then 1 else Times(b, Power(b, e - 1)) }

  lemma {:induction false} TimesIsProduct(n: nat, m: nat)
    ensures Times(n, m) == n * m
  {
    if n > 0 { TimesIsProduct(n - 1, m); }
  }

  lemma {:induction false} TimesMonotone(a: nat, b: nat, m: nat)
    requires a <= b
    ensures Times(a, m) <= Times(b, m)
  {
    if a < b { TimesMonotone(a, b - 1, m); }
  }

  // ----- The nesting depth of the loop that the rewrite gave the counter `it`; 0 if there is none -----

  function Depth(s: Stmt, next: nat, it: Name, limit: nat): nat
    decreases s, 0
  {
    match s
    case Block(body) => DepthAll(body, next, it, limit)
    case If(_, t, e) => Depth(t, next, it, limit) + Depth(e, Rewrite(t, next, limit).next, it, limit)
    case While(_, _, b) => DepthLoop(b, next, it, limit)
    case DoWhile(_, b, _) => DepthLoop(b, next, it, limit)
    case For(_, _, _, _, b) => DepthLoop(b, next, it, limit)
    case Labeled(_, s1) => Depth(s1, next, it, limit)
    case TryCatch(b, _, h) => DepthAll(b, next, it, limit) + DepthAll(h, RewriteAll(b, next, limit).next, it, limit)
    case TryFinally(b, f) => DepthAll(b, next, it, limit) + DepthAll(f, RewriteAll(b, next, limit).next, it, limit)
    case _ => 0
  }

  function DepthAll(ss: Stmts, next: nat, it: Name, limit: nat): nat
    decreases ss, 0
  {
    match ss
    case Nil => 0
    case Cons(s, rest) => Depth(s, next, it, limit) + DepthAll(rest, Rewrite(s, next, limit).next, it, limit)
  }

  function DepthLoop(b: Stmt, self: nat, it: Name, limit: nat): nat
    decreases b, 2
  {
    if it == self then 1
    else
      var d := DepthInner(b, self, it, limit);
      if d == 0 then 0 else 1 + d
  }

  function DepthInner(b: Stmt, self: nat, it: Name, limit: nat): nat
    decreases b, 1
  {
    if b.Block? then DepthAll(b.body, self + 1, it, limit) else Depth(b, self + 1, it, limit)
  }

  lemma {:induction false} DepthRange(s: Stmt, next: nat, it: Name, limit: nat)
    ensures Depth(s, next, it, limit) > 0 <==> next <= it < Rewrite(s, next, limit).next
    decreases s, 0
  {
    match s
    case Block(body) => DepthAllRange(body, next, it, limit);
    case If(_, t, e) =>
      DepthRange(t, next, it, limit);
      DepthRange(e, Rewrite(t, next, limit).next, it, limit);
    case While(_, _, b) => DepthInnerRange(b, next, it, limit);
    case DoWhile(_, b, _) => DepthInnerRange(b, next, it, limit);
    case For(_, _, _, _, b) => DepthInnerRange(b, next, it, limit);
    case Labeled(_, s1) => DepthRange(s1, next, it, limit);
    case TryCatch(b, _, h) =>
      DepthAllRange(b, next, it, limit);
      DepthAllRange(h, RewriteAll(b, next, limit).next, it, limit);
    case TryFinally(b, f) =>
      DepthAllRange(b, next, it, limit);
      DepthAllRange(f, RewriteAll(b, next, limit).next, it, limit);
    case _ =>
  }

  lemma {:induction false} DepthAllRange(ss: Stmts, next: nat, it: Name, limit: nat)
    ensures DepthAll(ss, next, it, limit) > 0 <==> next <= it < RewriteAll(ss, next, limit).next
    decreases ss, 0
  {
    if ss.Cons? {
      DepthRange(ss.head, next, it, limit);
      DepthAllRange(ss.tail, Rewrite(ss.head, next, limit).next, it, limit);
    }
  }

  lemma {:induction false} DepthInnerRange(b: Stmt, self: nat, it: Name, limit: nat)
    ensures DepthInner(b, self, it, limit) > 0 <==> self < it < GuardBody(b, self, limit).next
    decreases b, 1
  {
    if b.Block? {
      DepthAllRange(b.body, self + 1, it, limit);
    } else {
      DepthRange(b, self + 1, it, limit);
    }
  }

  /** The passes that one run of a statement may add for a counter at this depth below it. */
  function Quota(depth: nat, limit: nat): nat { if depth == 0 then 0 else Power(limit + 1, depth) }

  // ----- Writes that pass no guard -----

  lemma PassesWrite(st: State, x: Name, v: Value, it: Name, limit: nat)
    ensures Passes(Write(st, x, v).writes, it, limit) ==
            Passes(st.writes, it, limit) + if x == it && v.Num? && 1 <= v.n <= limit + 1 then 1 else 0
  {
    var w := st.writes + [(x, v)];
    assert w[..|w| - 1] == st.writes;
  }

  lemma {:induction false} EvalPassesNone(e: Expr, st: State, n0: nat, it: Name, limit: nat)
    requires SourceExpr(e, n0) && n0 <= it
    ensures Passes(Eval(e, st).st.writes, it, limit) == Passes(st.writes, it, limit)
  {
    match e
    case PostInc(x) =>
      if x in st.vars { PassesWrite(st, x, if st.vars[x].Num? then Num(st.vars[x].n + 1) else NaN, it, limit); }
    case Set(x, e1) =>
      EvalPassesNone(e1, st, n0, it, limit);
      PassesWrite(Eval(e1, st).st, x, Eval(e1, st).v, it, limit);
    case Bin(_, l, r) =>
      EvalPassesNone(l, st, n0, it, limit);
      EvalPassesNone(r, Eval(l, st).st, n0, it, limit);
    case And(l, r) =>
      EvalPassesNone(l, st, n0, it, limit);
      EvalPassesNone(r, Eval(l, st).st, n0, it, limit);
    case _ =>
  }

  lemma {:induction false} DeclarePassesNone(xs: seq<Name>, st: State, it: Name, limit: nat)
    ensures Passes(Declare(xs, st).writes, it, limit) == Passes(st.writes, it, limit)
  {
    if xs != [] {
      PassesWrite(st, xs[0], Num(0), it, limit);
      DeclarePassesNone(xs[1..], Write(st, xs[0], Num(0)), it, limit);
    }
  }

  // ----- One run of each kind of statement -----

  lemma {:induction false} Counts(s: Stmt, st: State, n0: nat, next: nat, it: Name, limit: nat, fuel: nat)
    requires Source(s, n0) && n0 <= next && n0 <= it
    requires Zeroed(Rewrite(s, next, limit).counters, st)
    requires fuel >= Need(LoopDepth(s), limit)
    ensures var r := Exec(Rewrite(s, next, limit).s, st, fuel);
            r.Done? && Adds(st, r.st, it, limit, Quota(Depth(s, next, it, limit), limit))
    decreases s, 3
  {
    Refines(s, st, n0, next, limit, fuel);
    var r := Rewrite(s, next, limit);
    match s
    case Do(e) => EvalPassesNone(e, st, n0, it, limit);
    case Throw(e) => EvalPassesNone(e, st, n0, it, limit);
    case Break(_) | Continue(_) =>
    case Block(body) => var _ := CountsScope(body, st, n0, next, it, limit, fuel);
    case If(c, t, e) => CountsIf(s, st, n0, next, it, limit, fuel);
    case While(labels, c, b) =>
      assert next in r.counters;
      CountsEntry(labels, c, Lit(0), b, true, st, n0, next, it, limit, fuel);
    case DoWhile(labels, b, c) =>
      assert next in r.counters;
      CountsEntry(labels, c, Lit(0), b, false, st, n0, next, it, limit, fuel);
    case For(labels, i, c, u, b) =>
      assert next in r.counters;
      EvalErase(i, st, n0);
      EvalPassesNone(i, st, n0, it, limit);
      var v := Eval(i, st);
      if v.Val? {
        assert Lookup(v.st, next) == Some(Num(0));
        CountsEntry(labels, c, u, b, true, v.st, n0, next, it, limit, fuel);
      }
    case Labeled(l, s1) => Counts(s1, st, n0, next, it, limit, fuel);
    case TryCatch(_, _, _) => CountsTryCatch(s, st, n0, next, it, limit, fuel);
    case TryFinally(_, _) => CountsTryFinally(s, st, n0, next, it, limit, fuel);
  }

  lemma {:induction false} CountsIf(s: Stmt, st: State, n0: nat, next: nat, it: Name, limit: nat, fuel: nat)
    requires s.If? && Source(s, n0) && n0 <= next && n0 <= it
    requires Zeroed(Rewrite(s, next, limit).counters, st)
    requires fuel >= Need(LoopDepth(s), limit)
    ensures var r := Exec(Rewrite(s, next, limit).s, st, fuel);
            r.Done? && Adds(st, r.st, it, limit, Quota(Depth(s, next, it, limit), limit))
    decreases s, 2
  {
    var a := Rewrite(s.thn, next, limit);
    var b := Rewrite(s.els, a.next, limit);
    ZeroedParts(a.counters, b.counters, st);
    DepthRange(s.thn, next, it, limit);
    DepthRange(s.els, a.next, it, limit);
    NeedMonotone(LoopDepth(s.thn), LoopDepth(s), limit);
    NeedMonotone(LoopDepth(s.els), LoopDepth(s), limit);
    EvalErase(s.cond, st, n0);
    EvalPassesNone(s.cond, st, n0, it, limit);
    var v := Eval(s.cond, st);
    if v.Val? {
      if Truthy(v.v) {
        Counts(s.thn, v.st, n0, next, it, limit, fuel);
      } else {
        Counts(s.els, v.st, n0, a.next, it, limit, fuel);
      }
    }
  }

  lemma {:induction false} CountsTryCatch(s: Stmt, st: State, n0: nat, next: nat, it: Name, limit: nat, fuel: nat)
    requires s.TryCatch? && Source(s, n0) && n0 <= next && n0 <= it
    requires fuel >= Need(LoopDepth(s), limit)
    ensures var r := Exec(Rewrite(s, next, limit).s, st, fuel);
            r.Done? && Adds(st, r.st, it, limit, Quota(Depth(s, next, it, limit), limit))
    decreases s, 2
  {
    NeedMonotone(LoopDepthAll(s.block), LoopDepth(s), limit);
    NeedMonotone(LoopDepthAll(s.handler), LoopDepth(s), limit);
    var q := CountsPair(s, s.block, s.handler, st, n0, next, it, limit, fuel);
    if q.o.Threw? { PassesWrite(q.st, s.param, q.o.v, it, limit); }
  }

  lemma {:induction false} CountsTryFinally(s: Stmt, st: State, n0: nat, next: nat, it: Name, limit: nat, fuel: nat)
    requires s.TryFinally? && Source(s, n0) && n0 <= next && n0 <= it
    requires fuel >= Need(LoopDepth(s), limit)
    ensures var r := Exec(Rewrite(s, next, limit).s, st, fuel);
            r.Done? && Adds(st, r.st, it, limit, Quota(Depth(s, next, it, limit), limit))
    decreases s, 2
  {
    NeedMonotone(LoopDepthAll(s.block), LoopDepth(s), limit);
    NeedMonotone(LoopDepthAll(s.finalizer), LoopDepth(s), limit);
    var _ := CountsPair(s, s.block, s.finalizer, st, n0, next, it, limit, fuel);
  }

  /** Two blocks, the second entered where the first one stopped; a counter belongs to only one of them. */
  lemma {:induction false} CountsPair(s: Stmt, b: Stmts, h: Stmts, st: State, n0: nat, next: nat, it: Name,
                                      limit: nat, fuel: nat) returns (q: ExecResult)
    requires (s.TryCatch? && h == s.handler) || (s.TryFinally? && h == s.finalizer)
    requires b == s.block
    requires SourceAll(b, n0) && SourceAll(h, n0) && n0 <= next && n0 <= it
    requires fuel >= Need(LoopDepthAll(b), limit) && fuel >= Need(LoopDepthAll(h), limit)
    ensures var a := RewriteAll(b, next, limit);
            var c := RewriteAll(h, a.next, limit);
            var quota := Quota(DepthAll(b, next, it, limit) + DepthAll(h, a.next, it, limit), limit);
            && q == ExecAll(OpenScope(a.counters, a.ss), st, fuel) && q.Done?
            && Adds(st, q.st, it, limit, quota)
            && forall st2: State :: Passes(st2.writes, it, limit) == Passes(q.st.writes, it, limit) ==>
                 var r := ExecAll(OpenScope(c.counters, c.ss), st2, fuel);
                 r.Done? && Adds(st, r.st, it, limit, quota)
    decreases s, 1
  {
    var a := RewriteAll(b, next, limit);
    DepthAllRange(b, next, it, limit);
    DepthAllRange(h, a.next, it, limit);
    q := CountsScope(b, st, n0, next, it, limit, fuel);
    forall st2: State | Passes(st2.writes, it, limit) == Passes(q.st.writes, it, limit)
      ensures var c := RewriteAll(h, a.next, limit);
              var r := ExecAll(OpenScope(c.counters, c.ss), st2, fuel);
              r.Done?
              && Adds(st, r.st, it, limit, Quota(DepthAll(b, next, it, limit) + DepthAll(h, a.next, it, limit), limit))
    {
      var _ := CountsScope(h, st2, n0, a.next, it, limit, fuel);
    }
  }

  lemma {:induction false} CountsAll(ss: Stmts, st: State, n0: nat, next: nat, it: Name, limit: nat, fuel: nat)
    requires SourceAll(ss, n0) && n0 <= next && n0 <= it
    requires Zeroed(RewriteAll(ss, next, limit).counters, st)
    requires fuel >= Need(LoopDepthAll(ss), limit)
    ensures var r := ExecAll(RewriteAll(ss, next, limit).ss, st, fuel);
            r.Done? && Adds(st, r.st, it, limit, Quota(DepthAll(ss, next, it, limit), limit))
    decreases ss, 1
  {
    if ss.Cons? {
      var a := Rewrite(ss.head, next, limit);
      var b := RewriteAll(ss.tail, a.next, limit);
      ZeroedParts(a.counters, b.counters, st);
      NeedMonotone(LoopDepth(ss.head), LoopDepthAll(ss), limit);
      NeedMonotone(LoopDepthAll(ss.tail), LoopDepthAll(ss), limit);
      DepthRange(ss.head, next, it, limit);
      DepthAllRange(ss.tail, a.next, it, limit);
      var r := CountsHead(ss.head, st, n0, next, it, limit, fuel);
      if r.o == Normal {
        FrameKeepsZeroed(b.counters, st, r.st, n0, next, a.next);
        CountsAll(ss.tail, r.st, n0, a.next, it, limit, fuel);
      }
    }
  }

  lemma ZeroedParts(xs: seq<Name>, ys: seq<Name>, st: State)
    requires Zeroed(xs + ys, st)
    ensures Zeroed(xs, st) && Zeroed(ys, st)
  {
    assert forall x :: x in xs || x in ys ==> x in xs + ys;
  }

  lemma FrameKeepsZeroed(xs: seq<Name>, a: State, b: State, n0: nat, lo: nat, hi: nat)
    requires Frame(a, b, n0, lo, hi) && Zeroed(xs, a)
    requires forall x :: x in xs ==> n0 <= x && hi <= x
    ensures Zeroed(xs, b)
  {}

  lemma {:induction false} CountsHead(s: Stmt, st: State, n0: nat, next: nat, it: Name, limit: nat, fuel: nat)
    returns (r: ExecResult)
    requires Source(s, n0) && n0 <= next && n0 <= it
    requires Zeroed(Rewrite(s, next, limit).counters, st)
    requires fuel >= Need(LoopDepth(s), limit)
    ensures r == Exec(Rewrite(s, next, limit).s, st, fuel) && r.Done?
    ensures Frame(st, r.st, n0, next, Rewrite(s, next, limit).next)
    ensures Adds(st, r.st, it, limit, Quota(Depth(s, next, it, limit), limit))
    decreases s, 4
  {
    Refines(s, st, n0, next, limit, fuel);
    Counts(s, st, n0, next, it, limit, fuel);
    r := Exec(Rewrite(s, next, limit).s, st, fuel);
  }

  lemma {:induction false} CountsScope(ss: Stmts, st: State, n0: nat, next: nat, it: Name, limit: nat, fuel: nat)
    returns (r: ExecResult)
    requires SourceAll(ss, n0) && n0 <= next && n0 <= it
    requires fuel >= Need(LoopDepthAll(ss), limit)
    ensures var a := RewriteAll(ss, next, limit); r == ExecAll(OpenScope(a.counters, a.ss), st, fuel)
    ensures r.Done? && Adds(st, r.st, it, limit, Quota(DepthAll(ss, next, it, limit), limit))
    decreases ss, 2
  {
    var a := RewriteAll(ss, next, limit);
    ScopeStep(a.counters, a.ss, st, fuel);
    DeclareErase(a.counters, st, n0, next, a.next);
    DeclareZeroes(a.counters, st);
    DeclarePassesNone(a.counters, st, it, limit);
    CountsAll(ss, Declare(a.counters, st), n0, next, it, limit, fuel);
    r := ExecAll(a.ss, Declare(a.counters, st), fuel);
  }

  // ----- Loops -----

  /** What one body may add once the guard of `self` has let it through. */
  function BodyQuota(b: Stmt, self: Name, it: Name, limit: nat): nat {
    if it == self then 1 else Quota(DepthInner(b, self, it, limit), limit)
  }

  lemma {:induction false} CountsBody(b: Stmt, st: State, n0: nat, self: Name, k: nat, it: Name, limit: nat, fuel: nat)
    requires Source(b, n0) && n0 <= self && n0 <= it
    requires Lookup(st, self) == Some(Num(k))
    requires fuel >= Need(LoopDepth(b), limit)
    ensures var r := Exec(GuardBody(b, self, limit).s, st, fuel);
            r.Done? && Adds(st, r.st, it, limit, if k > limit then 0 else BodyQuota(b, self, it, limit))
    decreases b, 5
  {
    var counters, inner := InnerCounters(b, self, limit), InnerBody(b, self, limit);
    var st1 := Declare(counters, st);
    ScopeStep(counters, Cons(Guard(self, limit), inner), st, fuel);
    DeclareErase(counters, st, n0, self + 1, GuardBody(b, self, limit).next);
    DeclareZeroes(counters, st);
    DeclarePassesNone(counters, st, it, limit);
    assert Lookup(st1, self) == Some(Num(k));
    var st2 := Write(st1, self, Num(k + 1));
    PassesWrite(st1, self, Num(k + 1), it, limit);
    EraseWrite(st1, self, Num(k + 1), n0);
    GuardStep(self, k, limit, inner, st1, fuel);
    if k <= limit {
      DepthInnerRange(b, self, it, limit);
      CountsInner(b, st2, n0, self, it, limit, fuel);
    }
  }

  lemma {:induction false} CountsInner(b: Stmt, st: State, n0: nat, self: Name, it: Name, limit: nat, fuel: nat)
    requires Source(b, n0) && n0 <= self && n0 <= it
    requires Zeroed(InnerCounters(b, self, limit), st)
    requires fuel >= Need(LoopDepth(b), limit)
    ensures var r := ExecAll(InnerBody(b, self, limit), st, fuel);
            r.Done? && Adds(st, r.st, it, limit, Quota(DepthInner(b, self, it, limit), limit))
    decreases b, 4
  {
    if b.Block? {
      CountsAll(b.body, st, n0, self + 1, it, limit, fuel);
    } else {
      Counts(b, st, n0, self + 1, it, limit, fuel);
      var s1 := Rewrite(b, self + 1, limit).s;
      var r := Exec(s1, st, fuel);
      assert ExecAll(Nil, r.st, fuel) == Done(Normal, r.st);
      assert ExecAll(Cons(s1, Nil), st, fuel) == r;
    }
  }

  /** The loop after its guarded body ended as `q`: it starts over in state `again`, or it is done. */
  lemma CountsUpdate(labels: set<Label>, c: Expr, u: Expr, body: Stmt, q: ExecResult, n0: nat, self: Name, it: Name,
                     limit: nat, fuel: nat) returns (again: Option<State>)
    requires SourceExpr(u, n0) && n0 <= self && n0 <= it && q.Done?
    ensures var r := AfterBody(labels, c, u, body, q, fuel);
            if again.None? then r.Done? && Passes(r.st.writes, it, limit) == Passes(q.st.writes, it, limit)
            else
              && GoesOn(q.o, labels) && r == ExecLoop(labels, c, u, body, true, again.value, fuel)
              && Lookup(again.value, self) == Lookup(q.st, self)
              && Passes(again.value.writes, it, limit) == Passes(q.st.writes, it, limit)
  {
    EvalErase(u, q.st, n0);
    EvalPassesNone(u, q.st, n0, it, limit);
    var w := Eval(u, q.st);
    again := if GoesOn(q.o, labels) && w.Val? then Some(w.st) else None;
  }

  lemma BodyCounts(b: Stmt, st: State, n0: nat, self: Name, k: nat, limit: nat, fuel: nat)
    requires Source(b, n0) && n0 <= self && Lookup(st, self) == Some(Num(k))
    requires fuel >= Need(LoopDepth(b), limit)
    ensures var q := Exec(GuardBody(b, self, limit).s, st, fuel);
            q.Done? && Lookup(q.st, self) == Some(Num(k + 1)) && (k > limit ==> q.o.Threw?)
  {
    RefinesBody(b, st, n0, self, k, limit, fuel);
  }

  /** One iteration whose test succeeds. */
  lemma {:induction false} CountsIteration(labels: set<Label>, c: Expr, u: Expr, b: Stmt, test: bool, st: State,
                                           n0: nat, self: Name, k: nat, it: Name, limit: nat, fuel: nat)
    returns (again: Option<State>)
    requires SourceExpr(c, n0) && SourceExpr(u, n0) && Source(b, n0) && n0 <= self && n0 <= it
    requires Lookup(st, self) == Some(Num(k))
    requires fuel > Need(LoopDepth(b), limit)
    requires Test(test, c, st).Val? && Truthy(Test(test, c, st).v)
    ensures var body, quota := GuardBody(b, self, limit).s, if k > limit then 0 else BodyQuota(b, self, it, limit);
            var r := ExecLoop(labels, c, u, body, test, st, fuel);
            if again.None? then r.Done? && Adds(st, r.st, it, limit, quota)
            else
              && k <= limit && r == ExecLoop(labels, c, u, body, true, again.value, fuel - 1)
              && Lookup(again.value, self) == Some(Num(k + 1))
              && Adds(st, again.value, it, limit, quota)
    decreases b, 6
  {
    var body := GuardBody(b, self, limit).s;
    EvalErase(c, st, n0);
    EvalPassesNone(c, st, n0, it, limit);
    var st1 := Test(test, c, st).st;
    assert Lookup(st1, self) == Some(Num(k));
    CountsBody(b, st1, n0, self, k, it, limit, fuel - 1);
    BodyCounts(b, st1, n0, self, k, limit, fuel - 1);
    UnfoldLoop(labels, c, u, body, test, st, fuel);
    again := CountsUpdate(labels, c, u, body, Exec(body, st1, fuel - 1), n0, self, it, limit, fuel - 1);
  }

  lemma {:induction false} CountsLoop(labels: set<Label>, c: Expr, u: Expr, b: Stmt, test: bool, st: State,
                                      n0: nat, self: Name, k: nat, it: Name, limit: nat, fuel: nat)
    requires SourceExpr(c, n0) && SourceExpr(u, n0) && Source(b, n0) && n0 <= self && n0 <= it && k <= limit + 1
    requires Lookup(st, self) == Some(Num(k))
    requires fuel >= limit + 2 - k + Need(LoopDepth(b), limit)
    ensures var r := ExecLoop(labels, c, u, GuardBody(b, self, limit).s, test, st, fuel);
            r.Done? && Adds(st, r.st, it, limit, Times(limit + 1 - k, BodyQuota(b, self, it, limit)))
    decreases b, 7, limit + 1 - k
  {
    var t := Test(test, c, st);
    if t.Val? && Truthy(t.v) {
      var again := CountsIteration(labels, c, u, b, test, st, n0, self, k, it, limit, fuel);
      if again.Some? {
        CountsLoop(labels, c, u, b, true, again.value, n0, self, k + 1, it, limit, fuel - 1);
      }
    } else {
      EvalPassesNone(c, st, n0, it, limit);
      UnfoldExit(labels, c, u, GuardBody(b, self, limit).s, test, st, k, limit, fuel);
    }
  }

  /** A loop entered with its counter at 0. */
  lemma {:induction false} CountsEntry(labels: set<Label>, c: Expr, u: Expr, b: Stmt, test: bool, st: State,
                                       n0: nat, self: Name, it: Name, limit: nat, fuel: nat)
    requires SourceExpr(c, n0) && SourceExpr(u, n0) && Source(b, n0) && n0 <= self && n0 <= it
    requires Lookup(st, self) == Some(Num(0))
    requires fuel >= limit + 2 + Need(LoopDepth(b), limit)
    ensures var r := ExecLoop(labels, c, u, GuardBody(b, self, limit).s, test, st, fuel);
            r.Done? && Adds(st, r.st, it, limit, Quota(DepthLoop(b, self, it, limit), limit))
    decreases b, 8
  {
    CountsLoop(labels, c, u, b, test, st, n0, self, 0, it, limit, fuel);
    DepthInnerRange(b, self, it, limit);
    TimesIsProduct(limit + 1, BodyQuota(b, self, it, limit));
    assert Power(limit + 1, 0) == 1;
  }

  /** In a whole run of the rewritten program, the loop with counter `it`, nested d deep, passes its
      guard at most (limit + 1)^d times. */
  lemma PassesAtMostPower(p: Stmts, st: State, n0: nat, it: Name, limit: nat, fuel: nat)
    requires SourceAll(p, n0) && Start(st, n0) && n0 <= it < RewriteAll(p, n0, limit).next
    requires ExecAll(RewriteProgram(p, n0, limit), st, fuel).Done?
    ensures var r := ExecAll(RewriteProgram(p, n0, limit), st, fuel);
            && DepthAll(p, n0, it, limit) > 0
            && Passes(r.st.writes, it, limit)
               <= Passes(st.writes, it, limit) + Power(limit + 1, DepthAll(p, n0, it, limit))
  {
    var big := Max(fuel, Enough(p, limit));
    DepthAllRange(p, n0, it, limit);
    var _ := CountsScope(p, st, n0, n0, it, limit, big);
    FuelMonotoneAll(RewriteProgram(p, n0, limit), st, fuel, big);
  }
}
