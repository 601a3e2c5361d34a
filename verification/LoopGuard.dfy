/** The loop guard: every loop gets a counter, and its body is made to fail once the counter passes a limit. */
module LoopGuard {
  import opened Wrappers
  import opened LoopLanguage

  const MAX_SOURCE_ITERATIONS: nat := 6000
  const MAX_TEST_ITERATIONS: nat := 5000

  datatype Rewritten = Rewritten(s: Stmt, counters: seq<Name>, next: nat)
  datatype RewrittenAll = RewrittenAll(ss: Stmts, counters: seq<Name>, next: nat)

  /** if (it++ > limit) { global.infiniteLoopError = new RangeError(...); throw global.infiniteLoopError; } */
  function Guard(it: Name, limit: nat): Stmt {
    If(Bin(Greater, PostInc(it), Lit(limit)),
       Block(Cons(RecordLoopError(limit), Cons(Throw(ReadLoopError), Nil))),
       Block(Nil))
  }

  /** The counters pushed to a scope are declared, with value 0, at the top of its block. */
  function OpenScope(counters: seq<Name>, body: Stmts): Stmts {
    if counters == [] then body else Cons(DeclareCounters(counters), body)
  }

  /** `next` is the first name not used yet; `counters` are those left for the enclosing scope to declare. */
  function Rewrite(s: Stmt, next: nat, limit: nat): (r: Rewritten)
    ensures next <= r.next
    ensures forall x :: x in r.counters ==> next <= x < r.next
    decreases s, 0
  {
    match s
    case Block(body) =>
      var r := RewriteAll(body, next, limit);
      Rewritten(Block(OpenScope(r.counters, r.ss)), [], r.next)
    case If(c, t, e) =>
      var r := Rewrite(t, next, limit);
      var q := Rewrite(e, r.next, limit);
      Rewritten(If(c, r.s, q.s), r.counters + q.counters, q.next)
    case While(labels, c, b) =>
      var r := GuardBody(b, next, limit);
      Rewritten(While(labels, c, r.s), [next], r.next)
    case DoWhile(labels, b, c) =>
      var r := GuardBody(b, next, limit);
      Rewritten(DoWhile(labels, r.s, c), [next], r.next)
    case For(labels, i, c, u, b) =>
      var r := GuardBody(b, next, limit);
      Rewritten(For(labels, i, c, u, r.s), [next], r.next)
    case Labeled(l, s1) =>
      var r := Rewrite(s1, next, limit);
      Rewritten(Labeled(l, r.s), r.counters, r.next)
    case TryCatch(b, x, h) =>
      var r := RewriteAll(b, next, limit);
      var q := RewriteAll(h, r.next, limit);
      Rewritten(TryCatch(OpenScope(r.counters, r.ss), x, OpenScope(q.counters, q.ss)), [], q.next)
    case TryFinally(b, f) =>
      var r := RewriteAll(b, next, limit);
      var q := RewriteAll(f, r.next, limit);
      Rewritten(TryFinally(OpenScope(r.counters, r.ss), OpenScope(q.counters, q.ss)), [], q.next)
    case _ => Rewritten(s, [], next)
  }

  function RewriteAll(ss: Stmts, next: nat, limit: nat): (r: RewrittenAll)
    ensures next <= r.next
    ensures forall x :: x in r.counters ==> next <= x < r.next
    decreases ss, 0
  {
    match ss
    case Nil => RewrittenAll(Nil, [], next)
    case Cons(s, rest) =>
      var r := Rewrite(s, next, limit);
      var q := RewriteAll(rest, r.next, limit);
      RewrittenAll(Cons(r.s, q.ss), r.counters + q.counters, q.next)
  }

  /** The new body of the loop whose counter is `it`; a body that is no block becomes one. */
  function GuardBody(b: Stmt, it: Name, limit: nat): (r: Rewritten)
    ensures r.s.Block? && r.counters == [] && it < r.next
    decreases b, 1
  {
    if b.Block? then
      var r := RewriteAll(b.body, it + 1, limit);
      Rewritten(Block(OpenScope(r.counters, Cons(Guard(it, limit), r.ss))), [], r.next)
    else
      var r := Rewrite(b, it + 1, limit);
      Rewritten(Block(OpenScope(r.counters, Cons(Guard(it, limit), Cons(r.s, Nil)))), [], r.next)
  }

  function RewriteProgram(p: Stmts, next: nat, limit: nat): Stmts {
    var r := RewriteAll(p, next, limit);
    OpenScope(r.counters, r.ss)
  }

  // ----- Source programs -----

  predicate SourceExpr(e: Expr, n0: nat) {
    match e
    case Lit(_) | ReadLoopError => true
    case Get(x) => x < n0
    case PostInc(x) => x < n0
    case Set(x, e1) => x < n0 && SourceExpr(e1, n0)
    case Bin(_, l, r) => SourceExpr(l, n0) && SourceExpr(r, n0)
    case And(l, r) => SourceExpr(l, n0) && SourceExpr(r, n0)
  }

  /** A program before the rewrite: its names lie below `n0`, and it neither declares counters
      nor assigns global.infiniteLoopError (it may read it). */
  predicate Source(s: Stmt, n0: nat) {
    match s
    case Do(e) => SourceExpr(e, n0)
    case Throw(e) => SourceExpr(e, n0)
    case Block(body) => SourceAll(body, n0)
    case If(c, t, e) => SourceExpr(c, n0) && Source(t, n0) && Source(e, n0)
    case While(_, c, b) => SourceExpr(c, n0) && Source(b, n0)
    case DoWhile(_, b, c) => SourceExpr(c, n0) && Source(b, n0)
    case For(_, i, c, u, b) => SourceExpr(i, n0) && SourceExpr(c, n0) && SourceExpr(u, n0) && Source(b, n0)
    case Labeled(_, s1) => Source(s1, n0)
    case Break(_) | Continue(_) => true
    case TryCatch(b, x, h) => SourceAll(b, n0) && x < n0 && SourceAll(h, n0)
    case TryFinally(b, f) => SourceAll(b, n0) && SourceAll(f, n0)
    case DeclareCounters(_) | RecordLoopError(_) => false
  }

  predicate SourceAll(ss: Stmts, n0: nat) {
    ss.Cons? ==> Source(ss.head, n0) && SourceAll(ss.tail, n0)
  }

  // ----- The intended meaning: each entry of a loop runs its body at most limit + 1 times -----

  datatype Ran = Ran(o: Outcome, st: State)

  function Limited(s: Stmt, st: State, limit: nat): Ran
    decreases s, 0
  {
    match s
    case Do(e) =>
      (match Eval(e, st)
       case Raised(v, st1) => Ran(Threw(v), st1)
       case Val(_, st1) => Ran(Normal, st1))
    case Block(body) => LimitedAll(body, st, limit)
    case If(c, t, e) =>
      (match Eval(c, st)
       case Raised(v, st1) => Ran(Threw(v), st1)
       case Val(v, st1) => if Truthy(v) then Limited(t, st1, limit) else Limited(e, st1, limit))
    case While(labels, c, b) => LimitedLoop(labels, c, Lit(0), b, true, st, 0, limit)
    case DoWhile(labels, b, c) => LimitedLoop(labels, c, Lit(0), b, false, st, 0, limit)
    case For(labels, i, c, u, b) =>
      (match Eval(i, st)
       case Raised(v, st1) => Ran(Threw(v), st1)
       case Val(_, st1) => LimitedLoop(labels, c, u, b, true, st1, 0, limit))
    case Labeled(l, s1) =>
      var r := Limited(s1, st, limit);
      Ran(LeaveLabel(r.o, l), r.st)
    case Break(l) => Ran(Broke(l), st)
    case Continue(l) => Ran(Continued(l), st)
    case Throw(e) =>
      var r := Eval(e, st);
      Ran(Threw(r.v), r.st)
    case TryCatch(b, x, h) =>
      var r := LimitedAll(b, st, limit);
      if r.o.Threw? then LimitedAll(h, Write(r.st, x, r.o.v), limit) else r
    case TryFinally(b, f) =>
      var r := LimitedAll(b, st, limit);
      var q := LimitedAll(f, r.st, limit);
      Ran(if q.o == Normal then r.o else q.o, q.st)
    case DeclareCounters(xs) => Ran(Normal, Declare(xs, st))
    case RecordLoopError(m) => Ran(Normal, st.(loopError := Some(RangeError(m))))
  }

  function LimitedAll(ss: Stmts, st: State, limit: nat): Ran
    decreases ss, 0
  {
    match ss
    case Nil => Ran(Normal, st)
    case Cons(s, rest) =>
      var r := Limited(s, st, limit);
      if r.o == Normal then LimitedAll(rest, r.st, limit) else r
  }

  /** `k` bodies of this entry of the loop have been started so far. */
  function LimitedLoop(labels: set<Label>, c: Expr, u: Expr, b: Stmt, test: bool, st: State, k: nat, limit: nat): Ran
    decreases b, 1, limit + 1 - k, 0
  {
    match if test then Eval(c, st) else Val(Num(1), st)
    case Raised(v, st1) => Ran(Threw(v), st1)
    case Val(v, st1) =>
      if !Truthy(v) then Ran(Normal, st1)
      else if k > limit then Ran(Threw(RangeError(limit)), st1.(loopError := Some(RangeError(limit))))
      else LimitedAfterBody(labels, c, u, b, Limited(b, st1, limit), k + 1, limit)
  }

  function LimitedAfterBody(labels: set<Label>, c: Expr, u: Expr, b: Stmt, r: Ran, k: nat, limit: nat): Ran
    decreases b, 1, limit + 1 - k, 1
  {
    if !GoesOn(r.o, labels) then Ran(LeaveLoop(r.o), r.st)
    else
      match Eval(u, r.st)
      case Raised(v, st1) => Ran(Threw(v), st1)
      case Val(_, st1) => LimitedLoop(labels, c, u, b, true, st1, k, limit)
  }
}
