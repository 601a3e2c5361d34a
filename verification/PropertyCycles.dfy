/** On a heap of which finitely many values are reached, a trap is a cycle that a search can find. */
module PropertyCycles {
  import opened PropertyPrinter
  import opened PropertyEnds

  /** From the depth limit on, all depths are alike. */
  function Cap(s: Spot): Spot { if s.indent > DEPTH_LIMIT then Spot(s.v, DEPTH_LIMIT) else s }

  /** One visit, with depths capped. */
  ghost predicate Goes(env: Env, a: Spot, b: Spot) { exists t :: Visits(env, a, t) && b == Cap(t) }

  ghost predicate GoesAt(env: Env, path: seq<Spot>, k: nat)
    requires k < |path| - 1
  {
    Goes(env, path[k], path[k + 1])
  }

  ghost predicate Walks(env: Env, path: seq<Spot>) { forall k: nat :: k < |path| - 1 ==> GoesAt(env, path, k) }

  /** A walk from `s` that comes back to a spot it has passed, in at most `bound` spots. */
  ghost predicate Lasso(env: Env, s: Spot, path: seq<Spot>, bound: nat) {
    && 2 <= |path| <= bound && path[0] == Cap(s) && Walks(env, path)
    && path[|path| - 1] in path[..|path| - 1]
  }

  ghost predicate HasLasso(env: Env, s: Spot, bound: nat) { exists path :: Lasso(env, s, path, bound) }

  ghost predicate Closed(env: Env, values: set<Value>) {
    forall a, t {:trigger Visits(env, a, t)} :: Visits(env, a, t) && a.v in values ==> t.v in values
  }

  lemma DeepAlike(env: Env, a: Spot, b: Spot, t: Spot)
    requires Cap(a) == Cap(b) && Visits(env, a, t)
    ensures var u := Spot(t.v, b.indent + t.indent - a.indent);
            a.indent <= t.indent && Visits(env, b, u) && Cap(u) == Cap(t)
  {}

  // ----- A lasso makes a trap -----

  lemma LassoTraps(env: Env, s: Spot, path: seq<Spot>, bound: nat)
    requires Lasso(env, s, path, bound)
    ensures Trapped(env, s)
  {
    var n := |path| - 1;
    var trap := iset t: Spot | Cap(t) in path;
    forall a | a in trap ensures StaysIn(env, trap, a) {
      var k :| 0 <= k < |path| && path[k] == Cap(a);
      if k == n { k :| 0 <= k < n && path[k] == path[n]; }
      assert GoesAt(env, path, k);
      var t :| Visits(env, path[k], t) && path[k + 1] == Cap(t);
      DeepAlike(env, path[k], a, t);
      assert Spot(t.v, a.indent + t.indent - path[k].indent) in trap;
    }
    assert s in trap && Trap(env, trap);
  }

  // ----- A trap holds a lasso -----

  lemma TrapGoesOn(env: Env, trap: iset<Spot>, a: Spot) returns (t: Spot)
    requires Trap(env, trap) && a in trap
    ensures t in trap && Visits(env, a, t) && Goes(env, Cap(a), Cap(t))
  {
    assert StaysIn(env, trap, a);
    t :| t in trap && Visits(env, a, t);
    DeepAlike(env, a, Cap(a), t);
  }

  function Spots(values: set<Value>): set<Spot> { set v, i | v in values && 0 <= i <= DEPTH_LIMIT :: Spot(v, i) }

  /** Inside a trap one can walk as far as one likes. */
  lemma {:induction false} LongWalk(env: Env, values: set<Value>, trap: iset<Spot>, s: Spot, n: nat)
      returns (path: seq<Spot>, last: Spot)
    requires Trap(env, trap) && s in trap && Closed(env, values) && s.v in values
    ensures |path| == n + 1 && path[0] == Cap(s) && Walks(env, path)
    ensures forall k :: 0 <= k <= n ==> path[k] in Spots(values)
    ensures last in trap && last.v in values && path[n] == Cap(last)
    decreases n
  {
    if n == 0 {
      path, last := [Cap(s)], s;
    } else {
      var front, a := LongWalk(env, values, trap, s, n - 1);
      last := TrapGoesOn(env, trap, a);
      path := front + [Cap(last)];
      forall k: nat | k < n ensures GoesAt(env, path, k) {
        if k < n - 1 { assert GoesAt(env, front, k); }
      }
    }
  }

  lemma {:induction false} SpotCount(values: set<Value>)
    ensures |Spots(values)| == (DEPTH_LIMIT + 1) * |values|
  {
    if values == {} {
      assert Spots(values) == {};
    } else {
      var v :| v in values;
      var rest := values - {v};
      SpotCount(rest);
      var own := {Spot(v, 0), Spot(v, 1), Spot(v, 2), Spot(v, 3)};
      assert Spots(values) == Spots(rest) + own;
      assert Spots(rest) !! own;
    }
  }

  /** Pigeonholes: a sequence longer than the set of its elements repeats itself. */
  lemma {:induction false} Repeats(path: seq<Spot>, all: set<Spot>) returns (n: nat)
    requires |path| > |all| && forall k :: 0 <= k < |path| ==> path[k] in all
    ensures 0 < n < |path| && path[n] in path[..n]
    decreases |path|
  {
    n := |path| - 1;
    if path[n] !in path[..n] {
      var front := path[..n];
      assert forall k :: 0 <= k < n ==> front[k] in all - {path[n]};
      n := Repeats(front, all - {path[n]});
      assert front[..n] == path[..n];
    }
  }

  /** With finitely many values to reach, a value is printed without end exactly when a walk of at most four spots for
      each of them, and one more, comes back to itself. */
  lemma TrappedExactlyByLasso(env: Env, values: set<Value>, s: Spot)
    requires Closed(env, values) && s.v in values
    ensures Trapped(env, s) <==> HasLasso(env, s, 4 * |values| + 1)
  {
    if Trapped(env, s) {
      var trap: iset<Spot> :| s in trap && Trap(env, trap);
      var path, _ := LongWalk(env, values, trap, s, 4 * |values|);
      SpotCount(values);
      var n := Repeats(path, Spots(values));
      var lasso := path[..n + 1];
      assert lasso[..n] == path[..n];
      forall k: nat | k < n ensures GoesAt(env, lasso, k) { assert GoesAt(env, path, k); }
      assert Lasso(env, s, lasso, 4 * |values| + 1);
    }
    if HasLasso(env, s, 4 * |values| + 1) {
      var path :| Lasso(env, s, path, 4 * |values| + 1);
      LassoTraps(env, s, path, 4 * |values| + 1);
    }
  }
}
