/** In what order, and how often, one dispatch runs listeners, whatever else happens in between. */
module DispatchOrder {
  import opened Wrappers
  import opened EventPath
  import opened Dispatch
  import opened DispatchInvariants

  function PassRank(p: Pass): int { if p.Capturing? then 0 else 1 }

  /** Capturing goes down the path indices, from the root to the target; bubbling goes back up. */
  function StructRank(p: Pass, i: int): int { if p.Capturing? then -i else i }

  /** The dispatch order: first pass, then struct, then position in the copied list. */
  predicate Before(p: Pass, i: int, h: int, q: Pass, j: int, g: int) {
    || PassRank(p) < PassRank(q)
    || (p == q && (StructRank(p, i) < StructRank(q, j) || (i == j && h < g)))
  }

  function Cursor(at: Position): int {
    match at
    case Opening(_, _) => 0
    case Serving(_, _, _, h) => h
    case Calling(_, _, _, h) => h + 1
  }

  /** Each invocation is at its place: the listener's own node and pass, with that struct's phase and visible target. */
  predicate EntryOk(w: World, x: Invocation) {
    && x.run < w.nextRun && x.run in w.paths
    && var path := w.paths[x.run];
       && 0 <= x.i < |path|
       && x.listener.node == path[x.i].item
       && (x.pass.Capturing? <==> x.listener.capture)
       && (x.pass.Bubbling? && path[x.i].target.None? ==> x.bubbles)
       && x.phase == (if path[x.i].target.Some? then AtTarget
                      else if x.pass.Capturing? then CapturingPhase else BubblingPhase)
       && x.target == VisibleTarget(path, x.i) && x.current == Some(path[x.i].item) && x.related == path[x.i].related
  }

  /** Of one dispatch, invocations come in dispatch order, at one struct in the order of registration, and no listener
      comes twice. */
  predicate PairOk(x: Invocation, y: Invocation) {
    x.run == y.run ==>
      && Before(x.pass, x.i, x.h, y.pass, y.i, y.h) && x.listener != y.listener
      && (x.pass == y.pass && x.i == y.i ==> x.listener.id < y.listener.id)
  }

  /** What a dispatch in flight has already run lies behind its position. */
  predicate Behind(x: Invocation, t: Task) {
    x.run == t.run ==>
      && Before(x.pass, x.i, x.h, t.at.pass, t.at.i, Cursor(t.at))
      && (!t.at.Opening? && x.pass == t.at.pass && x.i == t.at.i ==>
            x.h < |t.at.handlers| && t.at.handlers[x.h] == x.listener)
  }

  ghost predicate LogOk(w: World) {
    && (forall k {:trigger w.log[k]} :: 0 <= k < |w.log| ==> EntryOk(w, w.log[k]))
    && (forall j, k {:trigger w.log[j], w.log[k]} :: 0 <= j < k < |w.log| ==> PairOk(w.log[j], w.log[k]))
    && (forall e, k {:trigger w.tasks[e], w.log[k]} :: e in w.tasks && 0 <= k < |w.log| ==>
         Behind(w.log[k], w.tasks[e]))
  }

  /** The dispatch of e moves on without running anything. */
  lemma MoveKeepsLog(w: World, w1: World, e: EventId)
    requires LogOk(w) && EventsOk(w) && OnlyTouches(w, w1, e) && w1.log == w.log
    requires forall x :: x in w.log && Behind(x, w.tasks[e]) ==> Behind(x, w1.tasks[e])
    ensures LogOk(w1)
  {
    forall k | 0 <= k < |w1.log| ensures EntryOk(w1, w1.log[k]) { assert EntryOk(w, w.log[k]); }
    forall d, k | d in w1.tasks && 0 <= k < |w1.log| ensures Behind(w1.log[k], w1.tasks[d]) {
      assert Behind(w.log[k], w.tasks[d]);
      assert w.log[k] in w.log;
    }
  }

  /** The handler whose turn it is runs: its place comes after all earlier ones, and it did not run before. */
  lemma NewEntryOk(w: World, e: EventId)
    requires LogOk(w) && EventsOk(w) && e in w.tasks && e in w.events
    requires var at := w.tasks[e].at;
             at.Serving? && at.h < |at.handlers| && at.handlers[at.h].capture == at.pass.Capturing?
    ensures var at := w.tasks[e].at;
            var x := Invoked(w, e, at.pass, at.i, at.handlers, at.h);
            EntryOk(w, x) && forall k {:trigger w.log[k]} :: 0 <= k < |w.log| ==> PairOk(w.log[k], x)
  {
    assert TaskOk(w, e);
    var at := w.tasks[e].at;
    var x := Invoked(w, e, at.pass, at.i, at.handlers, at.h);
    var path := w.events[e].path;
    forall k | 0 <= k < |w.log| ensures PairOk(w.log[k], x) {
      var y := w.log[k];
      assert Behind(y, w.tasks[e]) && EntryOk(w, y);
    }
  }

  lemma InvokeKeepsLog(w: World, w1: World, e: EventId)
    requires LogOk(w) && EventsOk(w) && OnlyTouches(w, w1, e)
    requires var at := w.tasks[e].at;
             && at.Serving? && at.h < |at.handlers| && at.handlers[at.h].capture == at.pass.Capturing?
             && w1.tasks[e].at == Calling(at.pass, at.i, at.handlers, at.h)
             && w1.log == w.log + [Invoked(w, e, at.pass, at.i, at.handlers, at.h)]
    ensures LogOk(w1)
  {
    var at := w.tasks[e].at;
    var x := Invoked(w, e, at.pass, at.i, at.handlers, at.h);
    NewEntryOk(w, e);
    forall k | 0 <= k < |w1.log| ensures EntryOk(w1, w1.log[k]) {
      if k < |w.log| { assert EntryOk(w, w.log[k]); }
    }
    forall j, k | 0 <= j < k < |w1.log| ensures PairOk(w1.log[j], w1.log[k]) {
      if k < |w.log| { assert PairOk(w.log[j], w.log[k]); } else { assert PairOk(w.log[j], x); }
    }
    forall d, k | d in w1.tasks && 0 <= k < |w1.log| ensures Behind(w1.log[k], w1.tasks[d]) {
      if k < |w.log| { assert Behind(w.log[k], w.tasks[d]); }
    }
  }

  lemma ServeKeepsLog(w: World, e: EventId)
    requires LogOk(w) && EventsOk(w) && e in w.tasks && e in w.events
    requires w.tasks[e].at.Serving? && w.tasks[e].at.h < |w.tasks[e].at.handlers|
    ensures LogOk(AdvanceTask(w, e))
  {
    var at := w.tasks[e].at;
    var w1 := AdvanceTask(w, e);
    assert TaskOk(w, e);
    if Registered(w, at.handlers[at.h]) && at.handlers[at.h].capture == at.pass.Capturing? {
      InvokeKeepsLog(w, w1, e);
    } else {
      MoveKeepsLog(w, w1, e);
    }
  }

  lemma OpeningKeepsLog(w: World, e: EventId)
    requires LogOk(w) && EventsOk(w) && e in w.tasks && e in w.events && w.tasks[e].at.Opening?
    ensures LogOk(AdvanceTask(w, e))
  {
    assert TaskOk(w, e);
    var w1 := AdvanceTask(w, e);
    if e in w1.tasks {
      MoveKeepsLog(w, w1, e);
    } else {
      SubsetKeepsLog(w, w1);
    }
  }

  lemma AdvanceKeepsLog(w: World, e: EventId)
    requires LogOk(w) && EventsOk(w) && e in w.tasks && e in w.events
    ensures LogOk(AdvanceTask(w, e))
  {
    assert TaskOk(w, e);
    var w1 := AdvanceTask(w, e);
    var at := w.tasks[e].at;
    if at.Serving? && at.h < |at.handlers| {
      ServeKeepsLog(w, e);
    } else if at.Opening? {
      OpeningKeepsLog(w, e);
    } else {
      MoveKeepsLog(w, w1, e);
    }
  }

  /** Nothing runs and no dispatch moves; some may have ended. */
  lemma SubsetKeepsLog(w: World, w1: World)
    requires LogOk(w) && w1.log == w.log && w1.nextRun == w.nextRun && w1.paths == w.paths
    requires forall d :: d in w1.tasks ==> d in w.tasks && w1.tasks[d] == w.tasks[d]
    ensures LogOk(w1)
  {
    forall k | 0 <= k < |w1.log| ensures EntryOk(w1, w1.log[k]) { assert EntryOk(w, w.log[k]); }
    forall d, k | d in w1.tasks && 0 <= k < |w1.log| ensures Behind(w1.log[k], w1.tasks[d]) {
      assert Behind(w.log[k], w.tasks[d]);
    }
  }

  lemma BeginKeepsLog(w: World, e: EventId, dom: Tree, target: Node)
    requires LogOk(w) && e in w.events
    ensures LogOk(Begin(w, e, dom, target))
  {
    var w1 := Begin(w, e, dom, target);
    if w1.nextRun == w.nextRun {
      SubsetKeepsLog(w, w1);
    } else {
      forall k | 0 <= k < |w1.log| ensures EntryOk(w1, w1.log[k]) { assert EntryOk(w, w.log[k]); }
      forall d, k | d in w1.tasks && 0 <= k < |w1.log| ensures Behind(w1.log[k], w1.tasks[d]) {
        assert EntryOk(w, w.log[k]);
        if d != e { assert Behind(w.log[k], w.tasks[d]); }
      }
    }
  }

  lemma StepKeepsLog(w: World, a: Action)
    requires LogOk(w) && EventsOk(w)
    ensures LogOk(Step(w, a))
  {
    match a
    case Advance(e) => if e in w.tasks && e in w.events { AdvanceKeepsLog(w, e); }
    case Dispatch(e, dom, target) => if e in w.events { BeginKeepsLog(w, e, dom, target); }
    case _ => SubsetKeepsLog(w, Step(w, a));
  }

  // ----- Reachable worlds -----

  ghost predicate Inv(w: World) { ListsOk(w) && OnceOk(w) && EventsOk(w) && LogOk(w) }

  lemma StepKeepsInv(w: World, a: Action)
    requires Inv(w)
    ensures Inv(Step(w, a))
  {
    StepKeepsOnce(w, a);
    StepKeepsEvents(w, a);
    StepKeepsLog(w, a);
  }

  lemma {:induction false} RunKeepsInv(w: World, actions: seq<Action>)
    requires Inv(w)
    ensures Inv(Run(w, actions))
  {
    if actions != [] {
      RunKeepsInv(w, actions[..|actions| - 1]);
      StepKeepsInv(Run(w, actions[..|actions| - 1]), actions[|actions| - 1]);
    }
  }

  /** A once listener runs at most once, over every interleaving of any number of dispatches. */
  lemma OnceRunsAtMostOnce(actions: seq<Action>)
    ensures var log := Run(EMPTY, actions).log;
            forall j, k {:trigger log[j], log[k]} :: 0 <= j < k < |log| && log[j].listener.once ==>
              log[j].listener != log[k].listener
  {
    RunKeepsInv(EMPTY, actions);
  }

  /** In every reachable world: what one dispatch ran so far is in dispatch order, no listener ran twice in
      it, and every listener ran on its own node, in its own pass, seeing that struct's phase and target. */
  lemma DispatchOrderHolds(actions: seq<Action>)
    ensures var w := Run(EMPTY, actions);
            && (forall k {:trigger w.log[k]} :: 0 <= k < |w.log| ==> EntryOk(w, w.log[k]))
            && (forall j, k {:trigger w.log[j], w.log[k]} :: 0 <= j < k < |w.log| ==> PairOk(w.log[j], w.log[k]))
  {
    RunKeepsInv(EMPTY, actions);
  }

  /** In every reachable world an event is idle, with no phase, path or current target, or in one dispatch, or stuck
      after the slot error. */
  lemma EventIsIdleOrInFlight(actions: seq<Action>, e: EventId)
    requires e in Run(EMPTY, actions).events
    ensures var w := Run(EMPTY, actions);
            var ev := w.events[e];
            && (Idle(ev) || (ev.dispatching && (e in w.tasks || e in w.failed)))
            && (e in w.tasks ==> ev.dispatching && GoodPath(ev.path) && DistinctItems(ev.path) && e !in w.failed)
  {
    RunKeepsInv(EMPTY, actions);
    var w := Run(EMPTY, actions);
    if e in w.tasks { assert TaskOk(w, e); }
  }
}
