/** A small imperative language with the control flow that the loop guard meets:
    nested loops, labels, break and continue, throw, try/catch and try/finally.
    `Exec` is the meaning of a program; `fuel` bounds the depth of loop unrolling. */
module LoopLanguage {
  import opened Wrappers

  type Name = nat
  type Label = string

  datatype Value = Num(n: int) | NaN | RangeError(limit: nat) | ReferenceError(x: Name)

  datatype BinOp = Add | Sub | Less | Greater | Equal

  datatype Expr =
    | Lit(n: int)
    | Get(x: Name)
    | Set(x: Name, e: Expr)
    | PostInc(x: Name)
    | Bin(op: BinOp, l: Expr, r: Expr)
    | And(l: Expr, r: Expr)
    | ReadLoopError // global.infiniteLoopError

  datatype Stmt =
    | Do(e: Expr)
    | Block(body: Stmts)
    | If(cond: Expr, thn: Stmt, els: Stmt)
    | While(labels: set<Label>, cond: Expr, inner: Stmt)
    | DoWhile(labels: set<Label>, inner: Stmt, cond: Expr)
    | For(labels: set<Label>, init: Expr, cond: Expr, update: Expr, inner: Stmt)
    | Labeled(name: Label, stmt: Stmt)
    | Break(target: Option<Label>)
    | Continue(target: Option<Label>)
    | Throw(e: Expr)
    | TryCatch(block: Stmts, param: Name, handler: Stmts)
    | TryFinally(block: Stmts, finalizer: Stmts)
    | DeclareCounters(xs: seq<Name>) // var a = 0, b = 0;
    | RecordLoopError(limit: nat)    // global.infiniteLoopError = new RangeError(...)

  datatype Stmts = Nil | Cons(head: Stmt, tail: Stmts)

  /** `writes` lists every assignment in order, so equal states have equal histories. */
  datatype State = State(vars: map<Name, Value>, writes: seq<(Name, Value)>, loopError: Option<Value>)

  datatype Evaluated = Val(v: Value, st: State) | Raised(v: Value, st: State)

  datatype Outcome = Normal | Broke(target: Option<Label>) | Continued(target: Option<Label>) | Threw(v: Value)

  datatype ExecResult = Timeout | Done(o: Outcome, st: State)

  predicate Truthy(v: Value) {
    match v
    case Num(n) => n != 0
    case NaN => false
    case _ => true
  }

  function Bool(b: bool): Value { Num(if b then 1 else 0) }

  function Apply(op: BinOp, l: Value, r: Value): Value {
    match op
    case Equal => Bool(l == r && l != NaN)
    case Add => if l.Num? && r.Num? then Num(l.n + r.n) else NaN
    case Sub => if l.Num? && r.Num? then Num(l.n - r.n) else NaN
    case Less => Bool(l.Num? && r.Num? && l.n < r.n)
    case Greater => Bool(l.Num? && r.Num? && l.n > r.n)
  }

  function Write(st: State, x: Name, v: Value): State {
    st.(vars := st.vars[x := v], writes := st.writes + [(x, v)])
  }

  function Eval(e: Expr, st: State): Evaluated {
    match e
    case Lit(n) => Val(Num(n), st)
    case Get(x) => if x in st.vars then Val(st.vars[x], st) else Raised(ReferenceError(x), st)
    case Set(x, e1) =>
      (match Eval(e1, st)
       case Raised(v, st1) => Raised(v, st1)
       case Val(v, st1) => Val(v, Write(st1, x, v)))
    case PostInc(x) =>
      if x !in st.vars then Raised(ReferenceError(x), st)
      else if st.vars[x].Num? then Val(st.vars[x], Write(st, x, Num(st.vars[x].n + 1)))
      else Val(NaN, Write(st, x, NaN))
    case Bin(op, l, r) =>
      (match Eval(l, st)
       case Raised(v, st1) => Raised(v, st1)
       case Val(v, st1) =>
         match Eval(r, st1)
         case Raised(w, st2) => Raised(w, st2)
         case Val(w, st2) => Val(Apply(op, v, w), st2))
    case And(l, r) =>
      (match Eval(l, st)
       case Raised(v, st1) => Raised(v, st1)
       case Val(v, st1) => if Truthy(v) then Eval(r, st1) else Val(v, st1))
    case ReadLoopError =>
      Val(if st.loopError.Some? then st.loopError.value else NaN, st)
  }

  function Declare(xs: seq<Name>, st: State): State {
    if xs == [] then st else Declare(xs[1..], Write(st, xs[0], Num(0)))
  }

  /** Does a loop with these labels go on to its next iteration after its body ended with `o`? */
  predicate GoesOn(o: Outcome, labels: set<Label>) {
    o == Normal || o == Continued(None) || (o.Continued? && o.target.Some? && o.target.value in labels)
  }

  function LeaveLoop(o: Outcome): Outcome { if o == Broke(None) then Normal else o }

  function LeaveLabel(o: Outcome, l: Label): Outcome { if o == Broke(Some(l)) then Normal else o }

  function Exec(s: Stmt, st: State, fuel: nat): ExecResult
    decreases fuel, s
  {
    match s
    case Do(e) =>
      (match Eval(e, st)
       case Raised(v, st1) => Done(Threw(v), st1)
       case Val(_, st1) => Done(Normal, st1))
    case Block(body) => ExecAll(body, st, fuel)
    case If(c, t, e) =>
      (match Eval(c, st)
       case Raised(v, st1) => Done(Threw(v), st1)
       case Val(v, st1) => Exec(if Truthy(v) then t else e, st1, fuel))
    case While(labels, c, b) => ExecLoop(labels, c, Lit(0), b, true, st, fuel)
    case DoWhile(labels, b, c) => ExecLoop(labels, c, Lit(0), b, false, st, fuel)
    case For(labels, i, c, u, b) =>
      (match Eval(i, st)
       case Raised(v, st1) => Done(Threw(v), st1)
       case Val(_, st1) => ExecLoop(labels, c, u, b, true, st1, fuel))
    case Labeled(l, s1) =>
      (match Exec(s1, st, fuel)
       case Timeout => Timeout
       case Done(o, st1) => Done(LeaveLabel(o, l), st1))
    case Break(l) => Done(Broke(l), st)
    case Continue(l) => Done(Continued(l), st)
    case Throw(e) =>
      (match Eval(e, st)
       case Raised(v, st1) => Done(Threw(v), st1)
       case Val(v, st1) => Done(Threw(v), st1))
    case TryCatch(b, x, h) =>
      (match ExecAll(b, st, fuel)
       case Timeout => Timeout
       case Done(o, st1) => if o.Threw? then ExecAll(h, Write(st1, x, o.v), fuel) else Done(o, st1))
    case TryFinally(b, f) =>
      (match ExecAll(b, st, fuel)
       case Timeout => Timeout
       case Done(o, st1) =>
         match ExecAll(f, st1, fuel)
         case Timeout => Timeout
         case Done(o2, st2) => Done(if o2 == Normal then o else o2, st2))
    case DeclareCounters(xs) => Done(Normal, Declare(xs, st))
    case RecordLoopError(limit) => Done(Normal, st.(loopError := Some(RangeError(limit))))
  }

  function ExecAll(ss: Stmts, st: State, fuel: nat): ExecResult
    decreases fuel, ss
  {
    match ss
    case Nil => Done(Normal, st)
    case Cons(s, rest) =>
      match Exec(s, st, fuel)
      case Timeout => Timeout
      case Done(o, st1) => if o == Normal then ExecAll(rest, st1, fuel) else Done(o, st1)
  }

  /** One entry of a loop: test (skipped at first by do-while), body, update, and again. */
  function ExecLoop(labels: set<Label>, c: Expr, u: Expr, b: Stmt, test: bool, st: State, fuel: nat): ExecResult
    decreases fuel, b, 0
  {
    match if test then Eval(c, st) else Val(Num(1), st)
    case Raised(v, st1) => Done(Threw(v), st1)
    case Val(v, st1) =>
      if !Truthy(v) then Done(Normal, st1)
      else if fuel == 0 then Timeout
      else AfterBody(labels, c, u, b, Exec(b, st1, fuel - 1), fuel - 1)
  }

  /** The rest of a loop once its body has ended as `r`. */
  function AfterBody(labels: set<Label>, c: Expr, u: Expr, b: Stmt, r: ExecResult, fuel: nat): ExecResult
    decreases fuel, b, 1
  {
    match r
    case Timeout => Timeout
    case Done(o, st) =>
      if !GoesOn(o, labels) then Done(LeaveLoop(o), st)
      else
        match Eval(u, st)
        case Raised(v, st1) => Done(Threw(v), st1)
        case Val(_, st1) => ExecLoop(labels, c, u, b, true, st1, fuel)
  }

  /** More fuel never changes a finished run. */
  lemma {:induction false} FuelMonotone(s: Stmt, st: State, f: nat, g: nat)
    requires f <= g && Exec(s, st, f).Done?
    ensures Exec(s, st, g) == Exec(s, st, f)
    decreases f, s
  {
    match s
    case Do(_) | Break(_) | Continue(_) | Throw(_) | DeclareCounters(_) | RecordLoopError(_) =>
    case Block(body) => FuelMonotoneAll(body, st, f, g);
    case If(c, t, e) =>
      var r := Eval(c, st);
      if r.Val? { FuelMonotone(if Truthy(r.v) then t else e, r.st, f, g); }
    case While(labels, c, b) => FuelMonotoneLoop(labels, c, Lit(0), b, true, st, f, g);
    case DoWhile(labels, b, c) => FuelMonotoneLoop(labels, c, Lit(0), b, false, st, f, g);
    case For(labels, i, c, u, b) =>
      var r := Eval(i, st);
      if r.Val? { FuelMonotoneLoop(labels, c, u, b, true, r.st, f, g); }
    case Labeled(l, s1) => FuelMonotone(s1, st, f, g);
    case TryCatch(b, x, h) =>
      FuelMonotoneAll(b, st, f, g);
      var r := ExecAll(b, st, f);
      if r.o.Threw? { FuelMonotoneAll(h, Write(r.st, x, r.o.v), f, g); }
    case TryFinally(b, fin) =>
      FuelMonotoneAll(b, st, f, g);
      FuelMonotoneAll(fin, ExecAll(b, st, f).st, f, g);
  }

  lemma {:induction false} FuelMonotoneAll(ss: Stmts, st: State, f: nat, g: nat)
    requires f <= g && ExecAll(ss, st, f).Done?
    ensures ExecAll(ss, st, g) == ExecAll(ss, st, f)
    decreases f, ss
  {
    if ss.Cons? {
      FuelMonotone(ss.head, st, f, g);
      var r := Exec(ss.head, st, f);
      if r.o == Normal { FuelMonotoneAll(ss.tail, r.st, f, g); }
    }
  }

  lemma {:induction false} FuelMonotoneLoop(labels: set<Label>, c: Expr, u: Expr, b: Stmt, test: bool,
                                            st: State, f: nat, g: nat)
    requires f <= g && ExecLoop(labels, c, u, b, test, st, f).Done?
    ensures ExecLoop(labels, c, u, b, test, st, g) == ExecLoop(labels, c, u, b, test, st, f)
    decreases f, b
  {
    var t := if test then Eval(c, st) else Val(Num(1), st);
    if t.Val? && Truthy(t.v) {
      FuelMonotone(b, t.st, f - 1, g - 1);
      var r := Exec(b, t.st, f - 1);
      assert ExecLoop(labels, c, u, b, test, st, f) == AfterBody(labels, c, u, b, r, f - 1);
      assert ExecLoop(labels, c, u, b, test, st, g) == AfterBody(labels, c, u, b, r, g - 1);
      if GoesOn(r.o, labels) {
        var w := Eval(u, r.st);
        if w.Val? { FuelMonotoneLoop(labels, c, u, b, true, w.st, f - 1, g - 1); }
      }
    }
  }
}
