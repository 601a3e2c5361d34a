/** The rewrite gives each loop a guard with a counter of its own. */
module LoopGuardNames {
  import opened LoopLanguage
  import opened LoopGuard

  /** Tests a counter, and records the error, which no source program does. */
  predicate IsGuard(s: Stmt) { s.If? && s.cond.Bin? && s.cond.l.PostInc? && Records(s.thn) }

  predicate Records(s: Stmt) { s.Block? && s.body.Cons? && s.body.head.RecordLoopError? }

  /** The counters of the guards in a rewritten statement, in program order. */
  function Guards(s: Stmt): seq<Name> {
    if IsGuard(s) then [s.cond.l.x]
    else
      match s
      case If(_, t, e) => Guards(t) + Guards(e)
      case Block(body) => GuardsAll(body)
      case While(_, _, b) => Guards(b)
      case DoWhile(_, b, _) => Guards(b)
      case For(_, _, _, _, b) => Guards(b)
      case Labeled(_, s1) => Guards(s1)
      case TryCatch(b, _, h) => GuardsAll(b) + GuardsAll(h)
      case TryFinally(b, f) => GuardsAll(b) + GuardsAll(f)
      case _ => []
  }

  function GuardsAll(ss: Stmts): seq<Name> { if ss.Nil? then [] else Guards(ss.head) + GuardsAll(ss.tail) }

  function Loops(s: Stmt): nat {
    match s
    case If(_, t, e) => Loops(t) + Loops(e)
    case Block(body) => LoopsAll(body)
    case While(_, _, b) => 1 + Loops(b)
    case DoWhile(_, b, _) => 1 + Loops(b)
    case For(_, _, _, _, b) => 1 + Loops(b)
    case Labeled(_, s1) => Loops(s1)
    case TryCatch(b, _, h) => LoopsAll(b) + LoopsAll(h)
    case TryFinally(b, f) => LoopsAll(b) + LoopsAll(f)
    case _ => 0
  }

  function LoopsAll(ss: Stmts): nat { if ss.Nil? then 0 else Loops(ss.head) + LoopsAll(ss.tail) }

  /** lo, lo + 1, ..., lo + n - 1 */
  function Names(lo: nat, n: nat): seq<Name> { seq(n, k requires 0 <= k < n => lo + k) }

  lemma NamesJoin(lo: nat, m: nat, n: nat)
    ensures Names(lo, m) + Names(lo + m, n) == Names(lo, m + n)
  {}

  lemma ScopeGuards(counters: seq<Name>, body: Stmts)
    ensures GuardsAll(OpenScope(counters, body)) == GuardsAll(body)
  {}

  ghost predicate OneEach(s: Stmt, next: nat, limit: nat) {
    var r := Rewrite(s, next, limit); r.next == next + Loops(s) && Guards(r.s) == Names(next, Loops(s))
  }

  /** The guards of a rewritten statement have the next unused names, one for each loop, in program order. */
  lemma {:induction false} OneCounterPerLoop(s: Stmt, n0: nat, next: nat, limit: nat)
    requires Source(s, n0)
    ensures var r := Rewrite(s, next, limit); r.next == next + Loops(s) && Guards(r.s) == Names(next, Loops(s))
    decreases s, 2
  {
    match s
    case Block(body) => ScopeHasCounters(body, n0, next, limit);
    case If(_, _, _) => IfHasCounters(s, n0, next, limit);
    case While(_, _, b) => BodyHasCounters(b, n0, next, limit);
    case DoWhile(_, b, _) => BodyHasCounters(b, n0, next, limit);
    case For(_, _, _, _, b) => BodyHasCounters(b, n0, next, limit);
    case Labeled(_, s1) => OneCounterPerLoop(s1, n0, next, limit);
    case TryCatch(_, _, _) => TryCatchHasCounters(s, n0, next, limit);
    case TryFinally(_, _) => TryFinallyHasCounters(s, n0, next, limit);
    case _ =>
  }

  lemma {:induction false} IfHasCounters(s: Stmt, n0: nat, next: nat, limit: nat)
    requires s.If? && Source(s, n0)
    ensures OneEach(s, next, limit)
    decreases s, 0
  {
    OneCounterPerLoop(s.thn, n0, next, limit);
    OneCounterPerLoop(s.els, n0, next + Loops(s.thn), limit);
    NamesJoin(next, Loops(s.thn), Loops(s.els));
    NoRecord(s.thn, n0, next, limit);
    IfGuards(s.cond, Rewrite(s.thn, next, limit).s, Rewrite(s.els, next + Loops(s.thn), limit).s);
  }

  lemma {:induction false} TryCatchHasCounters(s: Stmt, n0: nat, next: nat, limit: nat)
    requires s.TryCatch? && Source(s, n0)
    ensures OneEach(s, next, limit)
    decreases s, 1
  {
    TryHasCounters(s, s.block, s.handler, n0, next, limit);
  }

  lemma {:induction false} TryFinallyHasCounters(s: Stmt, n0: nat, next: nat, limit: nat)
    requires s.TryFinally? && Source(s, n0)
    ensures OneEach(s, next, limit)
    decreases s, 1
  {
    TryHasCounters(s, s.block, s.finalizer, n0, next, limit);
  }

  /** Two blocks of a statement, one after the other. */
  lemma {:induction false} TryHasCounters(s: Stmt, b: Stmts, h: Stmts, n0: nat, next: nat, limit: nat)
    requires b < s && h < s && SourceAll(b, n0) && SourceAll(h, n0)
    ensures var q := RewriteAll(b, next, limit);
            var r := RewriteAll(h, q.next, limit);
            && r.next == next + (LoopsAll(b) + LoopsAll(h))
            && GuardsAll(OpenScope(q.counters, q.ss)) + GuardsAll(OpenScope(r.counters, r.ss))
               == Names(next, LoopsAll(b) + LoopsAll(h))
    decreases s, 0
  {
    ScopeHasCounters(b, n0, next, limit);
    var m, n := LoopsAll(b), LoopsAll(h);
    ScopeHasCounters(h, n0, next + m, limit);
    NamesJoin(next, m, n);
  }

  lemma IfGuards(c: Expr, t: Stmt, e: Stmt)
    requires !Records(t)
    ensures Guards(If(c, t, e)) == Guards(t) + Guards(e)
  {}

  lemma NoRecord(t: Stmt, n0: nat, next: nat, limit: nat)
    requires Source(t, n0)
    ensures !Records(Rewrite(t, next, limit).s)
  {
    if t.Block? && t.body.Cons? {
      assert Source(t.body.head, n0);
      assert RewriteAll(t.body, next, limit).ss.head == Rewrite(t.body.head, next, limit).s;
    }
  }

  lemma {:induction false} ScopeHasCounters(ss: Stmts, n0: nat, next: nat, limit: nat)
    requires SourceAll(ss, n0)
    ensures var r := RewriteAll(ss, next, limit);
            && r.next == next + LoopsAll(ss)
            && GuardsAll(r.ss) == Names(next, LoopsAll(ss))
            && GuardsAll(OpenScope(r.counters, r.ss)) == GuardsAll(r.ss)
    decreases ss, 0
  {
    var r := RewriteAll(ss, next, limit);
    ScopeGuards(r.counters, r.ss);
    if ss.Cons? {
      OneCounterPerLoop(ss.head, n0, next, limit);
      ScopeHasCounters(ss.tail, n0, next + Loops(ss.head), limit);
      NamesJoin(next, Loops(ss.head), LoopsAll(ss.tail));
    }
  }

  lemma {:induction false} BodyHasCounters(b: Stmt, n0: nat, it: Name, limit: nat)
    requires Source(b, n0)
    ensures var r := GuardBody(b, it, limit); r.next == it + 1 + Loops(b) && Guards(r.s) == Names(it, 1 + Loops(b))
    decreases b, 3
  {
    NamesJoin(it, 1, Loops(b));
    assert Names(it, 1) == [it] == Guards(Guard(it, limit));
    if b.Block? {
      ScopeHasCounters(b.body, n0, it + 1, limit);
      var r := RewriteAll(b.body, it + 1, limit);
      ScopeGuards(r.counters, Cons(Guard(it, limit), r.ss));
    } else {
      OneCounterPerLoop(b, n0, it + 1, limit);
      var r := Rewrite(b, it + 1, limit);
      ScopeGuards(r.counters, Cons(Guard(it, limit), Cons(r.s, Nil)));
      assert GuardsAll(Cons(r.s, Nil)) == Guards(r.s) + [] == Guards(r.s);
    }
  }
}
