/** Whole runs: which listeners must run, and which must not once a stop flag is set. */
module DispatchTheorems {
  import opened EventPath
  import opened Dispatch
  import opened DispatchInvariants
  import opened DispatchOrder

  ghost predicate InFlight(w: World, e: EventId, run: RunId) {
    e in w.tasks && w.tasks[e].run == run
  }

  ghost predicate Ran(w: World, run: RunId, l: Listener) {
    exists k :: 0 <= k < |w.log| && w.log[k].run == run && w.log[k].listener == l
  }

  /** `run` has begun, and if it is in flight it is e's. */
  ghost predicate Owns(w: World, e: EventId, run: RunId) {
    run < w.nextRun && forall d {:trigger w.tasks[d]} :: d in w.tasks && w.tasks[d].run == run ==> d == e
  }

  /** Whatever step is taken, only e's own one moves `run` or logs for it; stop flags are not taken back. */
  ghost predicate LeftAlone(w: World, w1: World, e: EventId, run: RunId) {
    && (InFlight(w1, e, run) <==> InFlight(w, e, run))
    && (InFlight(w, e, run) && e in w.events ==>
          && w1.tasks[e] == w.tasks[e] && e in w1.events
          && w1.events[e].path == w.events[e].path && w1.events[e].bubbles == w.events[e].bubbles
          && w1.events[e].eventType == w.events[e].eventType
          && (w.events[e].stop ==> w1.events[e].stop) && (w.events[e].stopNow ==> w1.events[e].stopNow))
    && w.log <= w1.log
    && (forall k {:trigger w1.log[k]} :: |w.log| <= k < |w1.log| ==> w1.log[k].run != run)
  }

  /** A dispatch that moves on touches its own event and task only, and logs at most one invocation, its own. */
  ghost predicate OwnStep(w: World, w1: World, d: EventId)
    requires d in w.tasks
  {
    && w1.tasks - {d} == w.tasks - {d} && w1.events - {d} == w.events - {d}
    && (d in w1.tasks ==> w1.tasks[d].run == w.tasks[d].run)
    && w1.nextRun == w.nextRun && w1.paths == w.paths
    && (w1.log == w.log || (exists x: Invocation :: x.run == w.tasks[d].run && w1.log == w.log + [x]))
  }

  lemma AdvanceIsOwnStep(w: World, d: EventId)
    requires d in w.tasks && d in w.events
    ensures OwnStep(w, AdvanceTask(w, d), d)
  {
    var w1 := AdvanceTask(w, d);
    var at := w.tasks[d].at;
    if at.Serving? && at.h < |at.handlers| {
      var x := Invoked(w, d, at.pass, at.i, at.handlers, at.h);
      assert w1.log == w.log || w1.log == w.log + [x];
    }
  }

  lemma OwnStepLeavesAlone(w: World, w1: World, d: EventId, e: EventId, run: RunId)
    requires d in w.tasks && OwnStep(w, w1, d) && w.tasks[d].run != run
    ensures LeftAlone(w, w1, e, run) && (Owns(w, e, run) ==> Owns(w1, e, run))
  {
    assert forall x :: x != d ==> (x in w1.tasks <==> x in w1.tasks - {d});
    assert forall x :: x != d ==> (x in w.tasks <==> x in w.tasks - {d});
    assert forall x :: x != d ==> (x in w1.events <==> x in w1.events - {d});
    assert forall x :: x != d ==> (x in w.events <==> x in w.events - {d});
    assert forall x :: x != d && x in w.tasks ==> (w1.tasks - {d})[x] == (w.tasks - {d})[x];
    assert forall x :: x != d && x in w.events ==> (w1.events - {d})[x] == (w.events - {d})[x];
  }

  lemma BeginLeavesAlone(w: World, d: EventId, dom: Tree, target: Node, e: EventId, run: RunId)
    requires Inv(w) && d in w.events && Owns(w, e, run)
    ensures LeftAlone(w, Begin(w, d, dom, target), e, run) && Owns(Begin(w, d, dom, target), e, run)
  {
    if e in w.tasks { assert TaskOk(w, e); }
    if d in w.tasks {
      assert TaskOk(w, d);
      assert Begin(w, d, dom, target) == w;
    }
  }

  lemma OthersLeaveAlone(w: World, a: Action, e: EventId, run: RunId)
    requires Inv(w) && Owns(w, e, run) && !(InFlight(w, e, run) && a == Advance(e))
    ensures LeftAlone(w, Step(w, a), e, run) && Owns(Step(w, a), e, run)
  {
    match a
    case Advance(d) =>
      if d in w.tasks && d in w.events {
        AdvanceIsOwnStep(w, d);
        OwnStepLeavesAlone(w, Step(w, a), d, e, run);
      }
    case Dispatch(d, dom, target) => if d in w.events { BeginLeavesAlone(w, d, dom, target, e, run); }
    case StopPropagation(d) => FlagLeavesAlone(w, d, false, e, run);
    case StopImmediatePropagation(d) => FlagLeavesAlone(w, d, true, e, run);
    case _ => assert Step(w, a).tasks == w.tasks && Step(w, a).log == w.log;
  }

  lemma FlagLeavesAlone(w: World, d: EventId, stopNow: bool, e: EventId, run: RunId)
    requires Owns(w, e, run)
    ensures var w1 := Step(w, if stopNow then StopImmediatePropagation(d) else StopPropagation(d));
            LeftAlone(w, w1, e, run) && Owns(w1, e, run)
  {}

  lemma OwnStepKeepsOwner(w: World, w1: World, e: EventId)
    requires e in w.tasks && OwnStep(w, w1, e) && Owns(w, e, w.tasks[e].run)
    ensures Owns(w1, e, w.tasks[e].run)
  {
    assert forall x :: x != e && x in w1.tasks ==> x in w1.tasks - {e} && (w1.tasks - {e})[x] == (w.tasks - {e})[x];
  }

  lemma StepKeepsOwner(w: World, a: Action, e: EventId, run: RunId)
    requires Inv(w) && Owns(w, e, run)
    ensures Owns(Step(w, a), e, run)
  {
    if InFlight(w, e, run) && a == Advance(e) {
      InFlightIsOwned(w, e, run);
      AdvanceIsOwnStep(w, e);
      OwnStepKeepsOwner(w, Step(w, a), e);
    } else {
      OthersLeaveAlone(w, a, e, run);
    }
  }

  lemma InFlightIsOwned(w: World, e: EventId, run: RunId)
    requires Inv(w) && InFlight(w, e, run)
    ensures Owns(w, e, run) && e in w.events
  {
    assert TaskOk(w, e);
  }

  // ----- Exactly once -----

  /** One listener's place in one dispatch. */
  datatype Place = Place(e: EventId, run: RunId, path: seq<Struct>, bubbles: bool, listener: Listener, i: nat)

  function PassOf(l: Listener): Pass { if l.capture then Capturing else Bubbling }

  /** The listener sits on a struct of the path that its pass serves. */
  predicate PlaceOk(p: Place) {
    && p.i < |p.path| && p.path[p.i].item == p.listener.node
    && (PassOf(p.listener).Bubbling? && p.path[p.i].target.None? ==> p.bubbles)
  }

  /** The dispatch has not come to the struct (pass, i) yet, or is just about to open it. */
  predicate NotPast(at: Position, pass: Pass, i: int) {
    PassRank(at.pass) < PassRank(pass) || (at.pass == pass && StructRank(pass, at.i) <= StructRank(pass, i))
  }

  predicate Here(at: Position, pass: Pass, i: int) { !at.Opening? && at.pass == pass && at.i == i }

  /** The listener's turn is still to come. */
  predicate ToCome(at: Position, p: Place) {
    var pass := PassOf(p.listener);
    if Here(at, pass, p.i) then Cursor(at) <= |at.handlers| && p.listener in at.handlers[Cursor(at)..]
    else NotPast(at, pass, p.i)
  }

  ghost predicate OnTrack(w: World, p: Place) {
    if InFlight(w, p.e, p.run) then
      && p.e in w.events
      && w.events[p.e].path == p.path && w.events[p.e].bubbles == p.bubbles
      && w.events[p.e].eventType == p.listener.eventType
      && (Ran(w, p.run, p.listener) || ToCome(w.tasks[p.e].at, p))
    else Ran(w, p.run, p.listener)
  }

  /** The listener stays registered until it has run; no stop flag is set when a struct up to its own is
      opened, and stop-immediate is not set when a callback returns at its own struct. */
  ghost predicate Undisturbed(w: World, p: Place) {
    && (Registered(w, p.listener) || Ran(w, p.run, p.listener))
    && (InFlight(w, p.e, p.run) && p.e in w.events ==>
          var at, pass := w.tasks[p.e].at, PassOf(p.listener);
          && (at.Opening? && NotPast(at, pass, p.i) ==> !w.events[p.e].stop)
          && (at.Calling? && Here(at, pass, p.i) ==> !w.events[p.e].stopNow))
  }

  lemma RanStays(w: World, w1: World, run: RunId, l: Listener)
    requires Ran(w, run, l) && w.log <= w1.log
    ensures Ran(w1, run, l)
  {
    var k :| 0 <= k < |w.log| && w.log[k].run == run && w.log[k].listener == l;
    assert w1.log[k] == w.log[k];
  }

  lemma LogGrows(w: World, a: Action)
    ensures w.log <= Step(w, a).log
  {}

  /** The dispatch itself moves on by one step. */
  lemma AdvanceOnTrack(w: World, p: Place)
    requires Inv(w) && PlaceOk(p) && InFlight(w, p.e, p.run) && p.e in w.events
    requires OnTrack(w, p) && Undisturbed(w, p) && !Ran(w, p.run, p.listener)
    ensures OnTrack(AdvanceTask(w, p.e), p)
  {
    assert TaskOk(w, p.e);
    var at := w.tasks[p.e].at;
    match at
    case Opening(pass, i) => OpeningOnTrack(w, p);
    case Serving(pass, i, handlers, h) => ServingOnTrack(w, p);
    case Calling(pass, i, handlers, h) =>
  }

  lemma OpeningOnTrack(w: World, p: Place)
    requires Inv(w) && PlaceOk(p) && InFlight(w, p.e, p.run) && p.e in w.events
    requires OnTrack(w, p) && Undisturbed(w, p) && !Ran(w, p.run, p.listener)
    requires w.tasks[p.e].at.Opening?
    ensures OnTrack(AdvanceTask(w, p.e), p)
  {
    assert TaskOk(w, p.e);
    var at := w.tasks[p.e].at;
    if at.pass == PassOf(p.listener) && at.i == p.i {
      var list := ListenersOf(w, p.listener.node, p.listener.eventType);
      assert list[0..] == list;
    }
  }

  lemma ServingOnTrack(w: World, p: Place)
    requires Inv(w) && PlaceOk(p) && InFlight(w, p.e, p.run) && p.e in w.events
    requires OnTrack(w, p) && Undisturbed(w, p) && !Ran(w, p.run, p.listener)
    requires w.tasks[p.e].at.Serving?
    ensures OnTrack(AdvanceTask(w, p.e), p)
  {
    assert TaskOk(w, p.e);
    var at := w.tasks[p.e].at;
    if at.h < |at.handlers| {
      HandlerOnTrack(w, p);
    }
  }

  /** A handler's turn, whether it runs or is passed over. */
  lemma ServeShape(w: World, e: EventId)
    requires e in w.tasks && e in w.events && w.tasks[e].at.Serving? && w.tasks[e].at.h < |w.tasks[e].at.handlers|
    ensures var w1, at := AdvanceTask(w, e), w.tasks[e].at;
            && e in w1.tasks && w1.events == w.events && w1.tasks[e].run == w.tasks[e].run
            && Here(w1.tasks[e].at, at.pass, at.i) && w1.tasks[e].at.handlers == at.handlers
            && Cursor(w1.tasks[e].at) == at.h + 1
            && (Registered(w, at.handlers[at.h]) && at.handlers[at.h].capture == at.pass.Capturing? ==>
                  Ran(w1, w.tasks[e].run, at.handlers[at.h]))
  {
    var w1, at := AdvanceTask(w, e), w.tasks[e].at;
    if Registered(w, at.handlers[at.h]) && at.handlers[at.h].capture == at.pass.Capturing? {
      assert w1.log[|w.log|] == Invoked(w, e, at.pass, at.i, at.handlers, at.h);
    }
  }

  lemma HandlerOnTrack(w: World, p: Place)
    requires InFlight(w, p.e, p.run) && p.e in w.events
    requires OnTrack(w, p) && Undisturbed(w, p) && !Ran(w, p.run, p.listener)
    requires w.tasks[p.e].at.Serving? && w.tasks[p.e].at.h < |w.tasks[p.e].at.handlers|
    ensures OnTrack(AdvanceTask(w, p.e), p)
  {
    var at := w.tasks[p.e].at;
    ServeShape(w, p.e);
    assert at.handlers[at.h..] == [at.handlers[at.h]] + at.handlers[at.h + 1..];
  }

  lemma StepOnTrack(w: World, a: Action, p: Place)
    requires Inv(w) && PlaceOk(p) && OnTrack(w, p) && Undisturbed(w, p) && Owns(w, p.e, p.run)
    ensures OnTrack(Step(w, a), p)
  {
    if InFlight(w, p.e, p.run) && a == Advance(p.e) {
      if Ran(w, p.run, p.listener) {
        AdvanceKeepsRan(w, p);
      } else {
        AdvanceOnTrack(w, p);
      }
    } else {
      OthersLeaveAlone(w, a, p.e, p.run);
      if Ran(w, p.run, p.listener) { RanStays(w, Step(w, a), p.run, p.listener); }
    }
  }

  lemma AdvanceKeepsEvent(w: World, e: EventId)
    requires e in w.tasks && e in w.events && e in AdvanceTask(w, e).tasks
    ensures var w1 := AdvanceTask(w, e);
            && e in w1.events && w1.tasks[e].run == w.tasks[e].run
            && w1.events[e].path == w.events[e].path && w1.events[e].bubbles == w.events[e].bubbles
            && w1.events[e].eventType == w.events[e].eventType
  {
    if w.tasks[e].at.Opening? { OpeningKeepsEvent(w, e); } else { assert AdvanceTask(w, e).events == w.events; }
  }

  lemma OpeningKeepsEvent(w: World, e: EventId)
    requires e in w.tasks && e in w.events && e in AdvanceTask(w, e).tasks && w.tasks[e].at.Opening?
    ensures var w1 := AdvanceTask(w, e);
            && e in w1.events && w1.tasks[e].run == w.tasks[e].run
            && w1.events[e].path == w.events[e].path && w1.events[e].bubbles == w.events[e].bubbles
            && w1.events[e].eventType == w.events[e].eventType
  {}

  lemma AdvanceKeepsRan(w: World, p: Place)
    requires Inv(w) && OnTrack(w, p) && InFlight(w, p.e, p.run) && Ran(w, p.run, p.listener)
    ensures OnTrack(Step(w, Advance(p.e)), p)
  {
    assert TaskOk(w, p.e);
    LogGrows(w, Advance(p.e));
    RanStays(w, Step(w, Advance(p.e)), p.run, p.listener);
    if p.e in Step(w, Advance(p.e)).tasks { AdvanceKeepsEvent(w, p.e); }
  }

  lemma {:induction false} RunOnTrack(w: World, actions: seq<Action>, p: Place)
    requires Inv(w) && PlaceOk(p) && OnTrack(w, p) && Owns(w, p.e, p.run)
    requires forall k :: 0 <= k <= |actions| ==> Undisturbed(Run(w, actions[..k]), p)
    ensures OnTrack(Run(w, actions), p) && Owns(Run(w, actions), p.e, p.run)
  {
    if actions != [] {
      var n := |actions| - 1;
      var front := actions[..n];
      assert forall k :: 0 <= k <= n ==> front[..k] == actions[..k];
      RunOnTrack(w, front, p);
      RunKeepsInv(w, front);
      StepOnTrack(Run(w, front), actions[n], p);
      StepKeepsOwner(Run(w, front), actions[n], p.e, p.run);
    }
  }

  /** Exactly once: take a dispatch and a listener on its path whose turn is to come: its struct is not opened yet,
      or its copied list has the listener ahead. It may have been added during the dispatch. Whatever else happens,
      if it stays registered until it has run and no stop flag gets in its way, then once the dispatch is over
      the listener has run in it once, in its own pass, at its own struct. */
  lemma DispatchRunsExactlyOnce(w: World, actions: seq<Action>, p: Place)
    requires Inv(w) && PlaceOk(p) && InFlight(w, p.e, p.run) && p.e in w.events
    requires ToCome(w.tasks[p.e].at, p)
    requires w.events[p.e].path == p.path && w.events[p.e].bubbles == p.bubbles
    requires w.events[p.e].eventType == p.listener.eventType
    requires forall k :: 0 <= k <= |actions| ==> Undisturbed(Run(w, actions[..k]), p)
    requires !InFlight(Run(w, actions), p.e, p.run)
    ensures var log := Run(w, actions).log;
            exists k ::
              && 0 <= k < |log| && log[k].run == p.run && log[k].listener == p.listener
              && log[k].pass == PassOf(p.listener) && log[k].i == p.i
              && forall j :: 0 <= j < |log| && j != k && log[j].run == p.run ==> log[j].listener != p.listener
  {
    var w1 := Run(w, actions);
    InFlightIsOwned(w, p.e, p.run);
    assert TaskOk(w, p.e);
    RunOnTrack(w, actions, p);
    RunKeepsInv(w, actions);
    RunKeepsPath(w, actions, p.run);
    var k :| 0 <= k < |w1.log| && w1.log[k].run == p.run && w1.log[k].listener == p.listener;
    assert EntryOk(w1, w1.log[k]);
    assert p.path[w1.log[k].i].item == p.path[p.i].item;
    forall j | 0 <= j < |w1.log| && j != k && w1.log[j].run == p.run ensures w1.log[j].listener != p.listener {
      assert if j < k then PairOk(w1.log[j], w1.log[k]) else PairOk(w1.log[k], w1.log[j]);
    }
  }

  lemma {:induction false} RunKeepsPath(w: World, actions: seq<Action>, run: RunId)
    requires run in w.paths && run < w.nextRun
    ensures var w1 := Run(w, actions); run in w1.paths && w1.paths[run] == w.paths[run] && run < w1.nextRun
  {
    if actions != [] {
      RunKeepsPath(w, actions[..|actions| - 1], run);
      StepKeepsPath(Run(w, actions[..|actions| - 1]), actions[|actions| - 1], run);
    }
  }

  lemma StepKeepsPath(w: World, a: Action, run: RunId)
    requires run in w.paths && run < w.nextRun
    ensures var w1 := Step(w, a); run in w1.paths && w1.paths[run] == w.paths[run] && run < w1.nextRun
  {
    if a.Advance? && a.e in w.tasks && a.e in w.events { AdvanceIsOwnStep(w, a.e); }
  }

  // ----- Late registrations -----

  /** `run` is past struct (pass, i), or serves it from a copied list without l. */
  ghost predicate Missed(w: World, e: EventId, run: RunId, pass: Pass, i: int, l: Listener) {
    && Owns(w, e, run)
    && (InFlight(w, e, run) ==>
          var at := w.tasks[e].at;
          if Here(at, pass, i) then l !in at.handlers else !NotPast(at, pass, i))
  }

  ghost predicate NotRunAt(w: World, n: nat, run: RunId, pass: Pass, i: int, l: Listener) {
    && n <= |w.log|
    && forall k {:trigger w.log[k]} ::
         n <= k < |w.log| && w.log[k].run == run && w.log[k].pass == pass && w.log[k].i == i ==>
         w.log[k].listener != l
  }

  lemma StepMissed(w: World, a: Action, n: nat, e: EventId, run: RunId, pass: Pass, i: int, l: Listener)
    requires Inv(w) && Missed(w, e, run, pass, i, l) && NotRunAt(w, n, run, pass, i, l)
    ensures Missed(Step(w, a), e, run, pass, i, l) && NotRunAt(Step(w, a), n, run, pass, i, l)
  {
    StepKeepsOwner(w, a, e, run);
    if InFlight(w, e, run) && a == Advance(e) {
      AdvanceMissed(w, n, e, run, pass, i, l);
    } else {
      OthersLeaveAlone(w, a, e, run);
    }
  }

  lemma AdvanceMissed(w: World, n: nat, e: EventId, run: RunId, pass: Pass, i: int, l: Listener)
    requires Inv(w) && Missed(w, e, run, pass, i, l) && NotRunAt(w, n, run, pass, i, l) && InFlight(w, e, run)
    requires Owns(Step(w, Advance(e)), e, run)
    ensures Missed(Step(w, Advance(e)), e, run, pass, i, l) && NotRunAt(Step(w, Advance(e)), n, run, pass, i, l)
  {
    InFlightIsOwned(w, e, run);
    match w.tasks[e].at
    case Opening(_, _) => OpeningMissed(w, n, e, run, pass, i, l);
    case Serving(_, _, _, _) => ServingMissed(w, n, e, run, pass, i, l);
    case Calling(_, _, _, _) => CallingMissed(w, n, e, run, pass, i, l);
  }

  lemma OpeningMissed(w: World, n: nat, e: EventId, run: RunId, pass: Pass, i: int, l: Listener)
    requires Inv(w) && Missed(w, e, run, pass, i, l) && NotRunAt(w, n, run, pass, i, l)
    requires InFlight(w, e, run) && e in w.events
    requires Owns(AdvanceTask(w, e), e, run) && w.tasks[e].at.Opening?
    ensures Missed(AdvanceTask(w, e), e, run, pass, i, l) && NotRunAt(AdvanceTask(w, e), n, run, pass, i, l)
  {
    assert TaskOk(w, e);
  }

  lemma ServingMissed(w: World, n: nat, e: EventId, run: RunId, pass: Pass, i: int, l: Listener)
    requires Missed(w, e, run, pass, i, l) && NotRunAt(w, n, run, pass, i, l) && InFlight(w, e, run) && e in w.events
    requires Owns(AdvanceTask(w, e), e, run) && w.tasks[e].at.Serving?
    ensures Missed(AdvanceTask(w, e), e, run, pass, i, l) && NotRunAt(AdvanceTask(w, e), n, run, pass, i, l)
  {}

  lemma CallingMissed(w: World, n: nat, e: EventId, run: RunId, pass: Pass, i: int, l: Listener)
    requires Missed(w, e, run, pass, i, l) && NotRunAt(w, n, run, pass, i, l) && InFlight(w, e, run) && e in w.events
    requires Owns(AdvanceTask(w, e), e, run) && w.tasks[e].at.Calling?
    ensures Missed(AdvanceTask(w, e), e, run, pass, i, l) && NotRunAt(AdvanceTask(w, e), n, run, pass, i, l)
  {}

  lemma {:induction false} RunMissed(w: World, actions: seq<Action>, n: nat, e: EventId, run: RunId, pass: Pass,
                                     i: int, l: Listener)
    requires Inv(w) && Missed(w, e, run, pass, i, l) && NotRunAt(w, n, run, pass, i, l)
    ensures NotRunAt(Run(w, actions), n, run, pass, i, l) && Missed(Run(w, actions), e, run, pass, i, l)
  {
    if actions != [] {
      var front := actions[..|actions| - 1];
      RunMissed(w, front, n, e, run, pass, i, l);
      RunKeepsInv(w, front);
      StepMissed(Run(w, front), actions[|actions| - 1], n, e, run, pass, i, l);
    }
  }

  /** A listener added to a node while the dispatch serves it does not run in that pass. */
  lemma AddedListenerMissesPass(w: World, actions: seq<Action>, e: EventId, run: RunId, pass: Pass, i: int,
                                node: Node, t: EventType, capture: bool, once: bool)
    requires Inv(w) && InFlight(w, e, run) && Here(w.tasks[e].at, pass, i)
    ensures NotRunAt(Run(Step(w, Add(node, t, capture, once)), actions), |w.log|, run, pass, i,
                     Listener(w.nextListener, node, t, capture, once))
  {
    var l := Listener(w.nextListener, node, t, capture, once);
    var w1 := Step(w, Add(node, t, capture, once));
    assert TaskOk(w, e);
    InFlightIsOwned(w, e, run);
    StepKeepsInv(w, Add(node, t, capture, once));
    RunMissed(w1, actions, |w.log|, e, run, pass, i, l);
  }

  // ----- The end of a dispatch -----

  /** The step that ends a dispatch resets the event, clears its targets if that was found necessary at the start, and
      changes nothing else of it; it is accepted for dispatch again. */
  lemma EndedEventCanBeDispatchedAgain(w: World, e: EventId, dom: Tree, target: Node)
    requires Inv(w) && e in w.tasks && e in w.events && e !in Step(w, Advance(e)).tasks
    ensures var ev := Step(w, Advance(e)).events[e];
            && Idle(ev) && !ev.stop && !ev.stopNow
            && (if w.tasks[e].clears then ev.target.None? && ev.related.None?
                else ev.target == w.events[e].target && ev.related == w.events[e].related)
            && ev.eventType == w.events[e].eventType && ev.bubbles == w.events[e].bubbles
            && ev.initialized == w.events[e].initialized
            && (ev.initialized ==> !Start(ev, dom, target).Refused?)
  {
    assert TaskOk(w, e);
    AdvanceEnds(w, e);
    FinishKeepsEvents(w, e);
  }

  lemma AdvanceEnds(w: World, e: EventId)
    requires e in w.tasks && e in w.events && e !in AdvanceTask(w, e).tasks
    ensures AdvanceTask(w, e) == Finish(w, e)
  {}
}
