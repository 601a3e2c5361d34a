/** The Babel visitor that applies the rewrite: it generates counters, pushes them to the enclosing
    scope, and puts the guard at the top of each loop body. */
module LoopGuardVisitor {
  import opened Wrappers
  import opened LoopLanguage
  import opened LoopGuard

  /** global.__MAX_ITERATIONS__ || 6000 (5000 in a test file); 0 and undefined both count as unset. */
  function MaxIterations(globalMax: Option<nat>, inTestFile: bool): (m: nat)
    ensures m > 0
    ensures globalMax.Some? && globalMax.value > 0 ==> m == globalMax.value
    ensures globalMax.None? || globalMax.value == 0 ==> m == if inTestFile then 5000 else 6000
  {
    if globalMax.Some? && globalMax.value != 0 then globalMax.value
    else if inTestFile then MAX_TEST_ITERATIONS
    else MAX_SOURCE_ITERATIONS
  }

  class Visitor {
    const limit: nat
    var next: nat          // the next unused identifier
    var scope: seq<Name>   // the declarators pushed to the enclosing scope so far

    constructor (unused: nat, globalMax: Option<nat>, inTestFile: bool)
      ensures next == unused && scope == [] && limit == MaxIterations(globalMax, inTestFile)
    {
      limit := MaxIterations(globalMax, inTestFile);
      next := unused;
      scope := [];
    }

    method GenerateCounter() returns (it: Name)
      modifies this
      ensures it == old(next) && next == old(next) + 1 && scope == old(scope) + [it]
    {
      it := next;
      next := next + 1;
      scope := scope + [it];
    }

    method Visit(s: Stmt) returns (r: Stmt)
      modifies this
      ensures var w := Rewrite(s, old(next), limit);
              r == w.s && next == w.next && scope == old(scope) + w.counters
      decreases s, 0
    {
      match s
      case Block(body) =>
        var body' := VisitScope(body);
        r := Block(body');
      case If(c, t, e) =>
        var t' := Visit(t);
        var e' := Visit(e);
        r := If(c, t', e');
      case While(labels, c, b) =>
        var it := GenerateCounter();
        var b' := VisitLoopBody(b, it);
        r := While(labels, c, b');
      case DoWhile(labels, b, c) =>
        var it := GenerateCounter();
        var b' := VisitLoopBody(b, it);
        r := DoWhile(labels, b', c);
      case For(labels, i, c, u, b) =>
        var it := GenerateCounter();
        var b' := VisitLoopBody(b, it);
        r := For(labels, i, c, u, b');
      case Labeled(l, s1) =>
        var s' := Visit(s1);
        r := Labeled(l, s');
      case TryCatch(b, x, h) =>
        var b' := VisitScope(b);
        var h' := VisitScope(h);
        r := TryCatch(b', x, h');
      case TryFinally(b, f) =>
        var b' := VisitScope(b);
        var f' := VisitScope(f);
        r := TryFinally(b', f');
      case Do(_) | Break(_) | Continue(_) | Throw(_) | DeclareCounters(_) | RecordLoopError(_) =>
        r := s;
    }

    method VisitAll(ss: Stmts) returns (r: Stmts)
      modifies this
      ensures var w := RewriteAll(ss, old(next), limit);
              r == w.ss && next == w.next && scope == old(scope) + w.counters
      decreases ss, 0
    {
      match ss
      case Nil => r := Nil;
      case Cons(s, rest) =>
        var s' := Visit(s);
        var rest' := VisitAll(rest);
        r := Cons(s', rest');
    }

    /** A block has a scope of its own: what is pushed inside it is declared at its top. */
    method VisitScope(ss: Stmts) returns (r: Stmts)
      modifies this
      ensures var w := RewriteAll(ss, old(next), limit);
              r == OpenScope(w.counters, w.ss) && next == w.next && scope == old(scope)
      decreases ss, 1
    {
      var outer := scope;
      scope := [];
      ghost var w := RewriteAll(ss, next, limit);
      var ss' := VisitAll(ss);
      assert [] + w.counters == w.counters;
      r := OpenScope(scope, ss');
      scope := outer;
    }

    /** The guard goes first in the body, and a body that is no block becomes one. */
    method VisitLoopBody(b: Stmt, it: Name) returns (r: Stmt)
      requires next == it + 1
      modifies this
      ensures var w := GuardBody(b, it, limit);
              r == w.s && next == w.next && scope == old(scope)
      decreases b, 1
    {
      var outer := scope;
      scope := [];
      if b.Block? {
        ghost var w := RewriteAll(b.body, next, limit);
        var body := VisitAll(b.body);
        assert [] + w.counters == w.counters;
        r := Block(OpenScope(scope, Cons(Guard(it, limit), body)));
      } else {
        ghost var w := Rewrite(b, next, limit);
        var s := Visit(b);
        assert [] + w.counters == w.counters;
        r := Block(OpenScope(scope, Cons(Guard(it, limit), Cons(s, Nil))));
      }
      scope := outer;
    }

    /** The whole file. */
    method VisitProgram(p: Stmts) returns (r: Stmts)
      modifies this
      ensures r == RewriteProgram(p, old(next), limit)
    {
      r := VisitScope(p);
    }
  }
}
