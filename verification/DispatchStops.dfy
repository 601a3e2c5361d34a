/** What the stop flags do, at whatever moment of a dispatch they are set. */
module DispatchStops {
  import opened Wrappers
  import opened EventPath
  import opened Dispatch
  import opened DispatchInvariants
  import opened DispatchOrder
  import opened DispatchTheorems

  // ----- Stop-propagation: only the struct being served goes on -----

  /** Of what was logged from index n on, the dispatch `run` ran listeners at struct (pass, i) only. */
  ghost predicate OnlyAt(w: World, n: nat, run: RunId, pass: Pass, i: int) {
    && n <= |w.log|
    && forall k {:trigger w.log[k]} :: n <= k < |w.log| && w.log[k].run == run ==>
         w.log[k].pass == pass && w.log[k].i == i
  }

  ghost predicate Stopping(w: World, e: EventId, run: RunId, pass: Pass, i: int) {
    && Owns(w, e, run)
    && (InFlight(w, e, run) && e in w.events ==>
          w.events[e].stop && (w.tasks[e].at.Opening? || Here(w.tasks[e].at, pass, i)))
  }

  lemma StepStopping(w: World, a: Action, n: nat, e: EventId, run: RunId, pass: Pass, i: int)
    requires Inv(w) && Stopping(w, e, run, pass, i) && OnlyAt(w, n, run, pass, i)
    ensures Stopping(Step(w, a), e, run, pass, i) && OnlyAt(Step(w, a), n, run, pass, i)
  {
    StepKeepsOwner(w, a, e, run);
    if InFlight(w, e, run) && a == Advance(e) {
      AdvanceStopping(w, n, e, run, pass, i);
    } else {
      OthersLeaveAlone(w, a, e, run);
    }
  }

  lemma AdvanceStopping(w: World, n: nat, e: EventId, run: RunId, pass: Pass, i: int)
    requires Inv(w) && Stopping(w, e, run, pass, i) && OnlyAt(w, n, run, pass, i) && InFlight(w, e, run)
    requires Owns(Step(w, Advance(e)), e, run)
    ensures Stopping(Step(w, Advance(e)), e, run, pass, i) && OnlyAt(Step(w, Advance(e)), n, run, pass, i)
  {
    InFlightIsOwned(w, e, run);
    match w.tasks[e].at
    case Opening(_, _) => OpeningKeepsHalted(w, e);
    case Serving(_, _, _, _) => ServingStopping(w, n, e, run, pass, i);
    case Calling(_, _, _, _) => assert AdvanceTask(w, e).log == w.log && AdvanceTask(w, e).events == w.events;
  }

  lemma ServingStopping(w: World, n: nat, e: EventId, run: RunId, pass: Pass, i: int)
    requires Stopping(w, e, run, pass, i) && OnlyAt(w, n, run, pass, i) && InFlight(w, e, run) && e in w.events
    requires Owns(AdvanceTask(w, e), e, run) && w.tasks[e].at.Serving?
    ensures Stopping(AdvanceTask(w, e), e, run, pass, i) && OnlyAt(AdvanceTask(w, e), n, run, pass, i)
  {}

  /** Once the stop flag is set while struct (pass, i) is served, the dispatch never again runs a listener
      of any other struct, in either pass. */
  lemma {:induction false} StopPropagationStops(w: World, actions: seq<Action>, e: EventId, run: RunId, pass: Pass,
                                                i: int)
    requires Inv(w) && InFlight(w, e, run) && e in w.events && w.events[e].stop && Here(w.tasks[e].at, pass, i)
    ensures OnlyAt(Run(w, actions), |w.log|, run, pass, i)
  {
    InFlightIsOwned(w, e, run);
    RunStopping(w, actions, |w.log|, e, run, pass, i);
  }

  lemma {:induction false} RunStopping(w: World, actions: seq<Action>, n: nat, e: EventId, run: RunId, pass: Pass,
                                       i: int)
    requires Inv(w) && Stopping(w, e, run, pass, i) && OnlyAt(w, n, run, pass, i)
    ensures Stopping(Run(w, actions), e, run, pass, i) && OnlyAt(Run(w, actions), n, run, pass, i)
  {
    if actions != [] {
      var front := actions[..|actions| - 1];
      RunStopping(w, front, n, e, run, pass, i);
      RunKeepsInv(w, front);
      StepStopping(Run(w, front), actions[|actions| - 1], n, e, run, pass, i);
    }
  }

  /** What was logged from index n on is none of `run`'s. */
  ghost predicate Silent(w: World, n: nat, run: RunId) {
    n <= |w.log| && forall k {:trigger w.log[k]} :: n <= k < |w.log| ==> w.log[k].run != run
  }

  // ----- Exactly when a stopped dispatch runs nothing more -----

  /** Some copied handler from index h on is registered and belongs to this pass. */
  predicate Due(w: World, pass: Pass, handlers: seq<Listener>, h: nat) {
    exists k :: h <= k < |handlers| && Registered(w, handlers[k]) && handlers[k].capture == pass.Capturing?
  }

  /** With the stop flag set, a dispatch can still run what is due at the struct that it serves. The
      stop-immediate flag is looked at only when a callback returns. */
  predicate CanRun(w: World, e: EventId)
    requires e in w.tasks && e in w.events
  {
    match w.tasks[e].at
    case Opening(_, _) => false
    case Serving(pass, _, handlers, h) => Due(w, pass, handlers, h)
    case Calling(pass, _, handlers, h) => !w.events[e].stopNow && Due(w, pass, handlers, h + 1)
  }

  ghost predicate Halted(w: World, e: EventId, run: RunId) {
    Owns(w, e, run) && (InFlight(w, e, run) && e in w.events ==> w.events[e].stop && !CanRun(w, e))
  }

  /** A registration that is gone does not come back: registering again makes another one. */
  lemma GoneStaysGone(w: World, a: Action, l: Listener)
    requires ListsOk(w) && l.id < w.nextListener && !Registered(w, l)
    ensures !Registered(Step(w, a), l)
  {
    match a
    case Add(n, t, capture, once) => AddOk(w, n, t, capture, once);
    case Remove(x) => UnregisterOk(w, x);
    case Advance(d) => if d in w.tasks && d in w.events { AdvanceKeepsGone(w, d, l); }
    case _ => assert Step(w, a).listeners == w.listeners;
  }

  lemma AdvanceKeepsGone(w: World, d: EventId, l: Listener)
    requires ListsOk(w) && d in w.tasks && d in w.events && !Registered(w, l)
    ensures !Registered(AdvanceTask(w, d), l)
  {
    var at := w.tasks[d].at;
    if at.Serving? && at.h < |at.handlers| {
      UnregisterOk(w, at.handlers[at.h]);
    } else {
      assert AdvanceTask(w, d).listeners == w.listeners;
    }
  }

  lemma NothingBecomesDue(w: World, a: Action, pass: Pass, handlers: seq<Listener>, h: nat)
    requires ListsOk(w) && !Due(w, pass, handlers, h)
    requires forall k :: 0 <= k < |handlers| ==> handlers[k].id < w.nextListener
    ensures !Due(Step(w, a), pass, handlers, h)
  {
    forall k | h <= k < |handlers| && handlers[k].capture == pass.Capturing?
      ensures !Registered(Step(w, a), handlers[k])
    {
      GoneStaysGone(w, a, handlers[k]);
    }
  }

  lemma OthersKeepHalted(w: World, a: Action, e: EventId, run: RunId)
    requires Inv(w) && Halted(w, e, run) && !(InFlight(w, e, run) && a == Advance(e))
    requires a != StopImmediatePropagation(e)
    ensures Halted(Step(w, a), e, run)
  {
    OthersLeaveAlone(w, a, e, run);
    if InFlight(w, e, run) {
      InFlightIsOwned(w, e, run);
      assert TaskOk(w, e);
      var at := w.tasks[e].at;
      if at.Serving? { NothingBecomesDue(w, a, at.pass, at.handlers, at.h); }
      if at.Calling? && !w.events[e].stopNow { NothingBecomesDue(w, a, at.pass, at.handlers, at.h + 1); }
    }
  }

  lemma AdvanceKeepsHalted(w: World, n: nat, e: EventId, run: RunId)
    requires Inv(w) && Halted(w, e, run) && Silent(w, n, run) && InFlight(w, e, run) && e in w.events
    ensures Halted(AdvanceTask(w, e), e, run) && Silent(AdvanceTask(w, e), n, run)
  {
    StepKeepsOwner(w, Advance(e), e, run);
    var at, w1 := w.tasks[e].at, AdvanceTask(w, e);
    match at
    case Opening(_, _) => OpeningKeepsHalted(w, e);
    case Serving(pass, _, handlers, h) =>
      assert h < |handlers| ==> !(Registered(w, handlers[h]) && handlers[h].capture == pass.Capturing?);
      assert w1.listeners == w.listeners && w1.log == w.log;
    case Calling(pass, _, handlers, h) => assert w1.listeners == w.listeners && w1.log == w.log;
  }

  lemma OpeningKeepsHalted(w: World, e: EventId)
    requires e in w.tasks && e in w.events && w.tasks[e].at.Opening? && w.events[e].stop
    ensures var w1 := AdvanceTask(w, e);
            w1.log == w.log && (e in w1.tasks ==> e in w1.events && w1.tasks[e].at.Opening? && w1.events[e].stop)
  {}

  lemma StepKeepsHalted(w: World, a: Action, n: nat, e: EventId, run: RunId)
    requires Inv(w) && Halted(w, e, run) && Silent(w, n, run)
    ensures Halted(Step(w, a), e, run) && Silent(Step(w, a), n, run)
  {
    if InFlight(w, e, run) && a == Advance(e) {
      InFlightIsOwned(w, e, run);
      AdvanceKeepsHalted(w, n, e, run);
    } else {
      OthersLeaveAlone(w, a, e, run);
      if a != StopImmediatePropagation(e) {
        OthersKeepHalted(w, a, e, run);
      } else if e in w.events && e in w.tasks {
        assert Step(w, a).listeners == w.listeners;
      }
    }
  }

  lemma {:induction false} RunKeepsHalted(w: World, actions: seq<Action>, n: nat, e: EventId, run: RunId)
    requires Inv(w) && Halted(w, e, run) && Silent(w, n, run)
    ensures Halted(Run(w, actions), e, run) && Silent(Run(w, actions), n, run)
  {
    if actions != [] {
      var front := actions[..|actions| - 1];
      RunKeepsHalted(w, front, n, e, run);
      RunKeepsInv(w, front);
      StepKeepsHalted(Run(w, front), actions[|actions| - 1], n, e, run);
    }
  }

  lemma RunLast(w: World, actions: seq<Action>)
    requires actions != []
    ensures Run(w, actions) == Step(Run(w, actions[..|actions| - 1]), actions[|actions| - 1])
  {}

  lemma {:induction false} RunFirst(w: World, a: Action, rest: seq<Action>)
    ensures Run(w, [a] + rest) == Run(Step(w, a), rest)
    decreases |rest|
  {
    if rest == [] {
      assert [a] + rest == [a];
      RunOne(w, a);
    } else {
      var n, all := |rest| - 1, [a] + rest;
      assert all[..n + 1] == [a] + rest[..n] && all[n + 1] == rest[n];
      RunLast(w, all);
      RunFirst(w, a, rest[..n]);
      RunLast(Step(w, a), rest);
    }
  }

  lemma RunOne(w: World, a: Action)
    ensures Run(w, [a]) == Step(w, a)
  {
    assert [a][..0] == [];
  }

  /** What is due does run if the dispatch is moved on by itself. */
  lemma {:induction false} DueRuns(w: World, e: EventId) returns (actions: seq<Action>)
    requires e in w.tasks && e in w.events && w.tasks[e].at.Serving?
    requires Due(w, w.tasks[e].at.pass, w.tasks[e].at.handlers, w.tasks[e].at.h)
    ensures !Silent(Run(w, actions), |w.log|, w.tasks[e].run)
    decreases |w.tasks[e].at.handlers| - w.tasks[e].at.h
  {
    var at, w1 := w.tasks[e].at, Step(w, Advance(e));
    if Registered(w, at.handlers[at.h]) && at.handlers[at.h].capture == at.pass.Capturing? {
      actions := [Advance(e)];
      RunOne(w, Advance(e));
      assert w1.log[|w.log|].run == w.tasks[e].run;
    } else {
      PassedOver(w, e);
      var rest := DueRuns(w1, e);
      actions := [Advance(e)] + rest;
      RunFirst(w, Advance(e), rest);
    }
  }

  lemma PassedOver(w: World, e: EventId)
    requires e in w.tasks && e in w.events && w.tasks[e].at.Serving? && w.tasks[e].at.h < |w.tasks[e].at.handlers|
    requires var at := w.tasks[e].at;
             !(Registered(w, at.handlers[at.h]) && at.handlers[at.h].capture == at.pass.Capturing?)
    ensures Step(w, Advance(e)) == 
            (var at := w.tasks[e].at; MoveTo(w, e, Serving(at.pass, at.i, at.handlers, at.h + 1)))
  {}

  /** A dispatch whose stop flag is set runs nothing more, whatever happens, exactly when nothing is due at the
      struct that it serves; a struct that it has not opened yet is not served. */
  lemma StoppedIsSilentExactly(w: World, e: EventId, run: RunId)
    requires Inv(w) && InFlight(w, e, run) && e in w.events && w.events[e].stop
    ensures (forall actions :: Silent(Run(w, actions), |w.log|, run)) <==> !CanRun(w, e)
  {
    InFlightIsOwned(w, e, run);
    if CanRun(w, e) {
      var actions := StoppedButRuns(w, e);
      assert !Silent(Run(w, actions), |w.log|, run);
    } else {
      forall actions ensures Silent(Run(w, actions), |w.log|, run) { RunKeepsHalted(w, actions, |w.log|, e, run); }
    }
  }

  lemma StoppedButRuns(w: World, e: EventId) returns (actions: seq<Action>)
    requires e in w.tasks && e in w.events && CanRun(w, e)
    ensures !Silent(Run(w, actions), |w.log|, w.tasks[e].run)
  {
    if w.tasks[e].at.Serving? {
      actions := DueRuns(w, e);
    } else {
      var w1, at := Step(w, Advance(e)), w.tasks[e].at;
      assert w1 == MoveTo(w, e, Serving(at.pass, at.i, at.handlers, at.h + 1));
      var rest := DueRuns(w1, e);
      actions := [Advance(e)] + rest;
      RunFirst(w, Advance(e), rest);
    }
  }

  /** The stop flag set between two structs ends the listeners of the whole dispatch. */
  lemma StopBetweenStructsSilences(w: World, actions: seq<Action>, e: EventId, run: RunId)
    requires Inv(w) && InFlight(w, e, run) && e in w.events && w.tasks[e].at.Opening?
    ensures Silent(Run(Step(w, StopPropagation(e)), actions), |w.log|, run)
  {
    StepKeepsInv(w, StopPropagation(e));
    StoppedIsSilentExactly(Step(w, StopPropagation(e)), e, run);
  }

  // ----- Stop-immediate -----

  /** stopImmediatePropagation silences the dispatch for good exactly when it is not called in the pause before a
      copied handler that is still registered and of this pass. In a callback it always does. */
  lemma StopImmediateSilencesExactly(w: World, e: EventId, run: RunId)
    requires Inv(w) && InFlight(w, e, run) && e in w.events
    ensures (forall actions :: Silent(Run(Step(w, StopImmediatePropagation(e)), actions), |w.log|, run)) <==>
            var at := w.tasks[e].at; !(at.Serving? && Due(w, at.pass, at.handlers, at.h))
  {
    var w1 := Step(w, StopImmediatePropagation(e));
    StepKeepsInv(w, StopImmediatePropagation(e));
    StoppedIsSilentExactly(w1, e, run);
    assert w1.listeners == w.listeners && w1.tasks == w.tasks && w1.log == w.log;
  }

  /** A callback that calls stopImmediatePropagation on its event is the last listener its dispatch runs. */
  lemma StopImmediateSilences(w: World, actions: seq<Action>, e: EventId, run: RunId)
    requires Inv(w) && InFlight(w, e, run) && e in w.events && w.tasks[e].at.Calling?
    ensures Silent(Run(Step(w, StopImmediatePropagation(e)), actions), |w.log|, run)
  {
    StopImmediateSilencesExactly(w, e, run);
  }

  ghost predicate AtMostOne(w: World, n: nat, run: RunId) {
    && n <= |w.log|
    && forall j, k {:trigger w.log[j], w.log[k]} :: n <= j < k < |w.log| ==>
         !(w.log[j].run == run && w.log[k].run == run)
  }

  /** Both flags are set, and if a listener has run since, no other handler is about to be looked at. */
  ghost predicate WindingUp(w: World, n: nat, e: EventId, run: RunId) {
    && Owns(w, e, run) && AtMostOne(w, n, run)
    && (InFlight(w, e, run) && e in w.events ==>
          w.events[e].stop && w.events[e].stopNow && (Silent(w, n, run) || !w.tasks[e].at.Serving?))
  }

  lemma StepWindsUp(w: World, a: Action, n: nat, e: EventId, run: RunId)
    requires Inv(w) && WindingUp(w, n, e, run)
    ensures WindingUp(Step(w, a), n, e, run)
  {
    StepKeepsOwner(w, a, e, run);
    if InFlight(w, e, run) && a == Advance(e) {
      InFlightIsOwned(w, e, run);
      AdvanceWindsUp(w, n, e, run);
    } else {
      OthersLeaveAlone(w, a, e, run);
    }
  }

  lemma AdvanceWindsUp(w: World, n: nat, e: EventId, run: RunId)
    requires WindingUp(w, n, e, run) && InFlight(w, e, run) && e in w.events && Owns(AdvanceTask(w, e), e, run)
    ensures WindingUp(AdvanceTask(w, e), n, e, run)
  {
    match w.tasks[e].at
    case Opening(_, _) => OpeningKeepsHalted(w, e); OpeningKeepsFlags(w, e);
    case Serving(_, _, _, _) => ServingWindsUp(w, n, e, run);
    case Calling(pass, i, _, _) => assert AdvanceTask(w, e) == MoveTo(w, e, Opening(pass, NextStruct(pass, i)));
  }

  lemma OpeningKeepsFlags(w: World, e: EventId)
    requires e in w.tasks && e in w.events && w.tasks[e].at.Opening? && w.events[e].stopNow
    ensures var w1 := AdvanceTask(w, e); e in w1.tasks ==> e in w1.events && w1.events[e].stopNow
  {}

  lemma ServingWindsUp(w: World, n: nat, e: EventId, run: RunId)
    requires WindingUp(w, n, e, run) && InFlight(w, e, run) && e in w.events && w.tasks[e].at.Serving?
    requires Owns(AdvanceTask(w, e), e, run)
    ensures WindingUp(AdvanceTask(w, e), n, e, run)
  {
    var w1, at := AdvanceTask(w, e), w.tasks[e].at;
    if w1.log != w.log {
      assert w1.tasks[e].at.Calling? && w1.events == w.events;
      assert w1.log[..|w.log|] == w.log && |w1.log| == |w.log| + 1;
    } else {
      assert w1.events == w.events;
    }
  }

  lemma {:induction false} RunWindsUp(w: World, actions: seq<Action>, n: nat, e: EventId, run: RunId)
    requires Inv(w) && WindingUp(w, n, e, run)
    ensures WindingUp(Run(w, actions), n, e, run)
  {
    if actions != [] {
      var front := actions[..|actions| - 1];
      RunWindsUp(w, front, n, e, run);
      RunKeepsInv(w, front);
      StepWindsUp(Run(w, front), actions[|actions| - 1], n, e, run);
    }
  }

  /** Whenever stopImmediatePropagation is called on an event, its dispatch runs at most one more listener. */
  lemma StopImmediateLeavesAtMostOne(w: World, actions: seq<Action>, e: EventId, run: RunId)
    requires Inv(w) && InFlight(w, e, run)
    ensures AtMostOne(Run(Step(w, StopImmediatePropagation(e)), actions), |w.log|, run)
  {
    InFlightIsOwned(w, e, run);
    var w1 := Step(w, StopImmediatePropagation(e));
    StepKeepsInv(w, StopImmediatePropagation(e));
    RunWindsUp(w1, actions, |w.log|, e, run);
  }

  // ----- A run in which the flag comes too late -----

  /** One node without a parent. */
  const LONE: Tree :=
    Dom(n => None, n => 0, n => false, n => false, n => false, n => false, (n, m) => true, (r, n) => None)

  const FIRST := Listener(0, 0, "click", true, false)
  const SECOND := Listener(1, 0, "click", true, false)

  lemma RunNext(w: World, actions: seq<Action>, a: Action)
    ensures Run(w, actions + [a]) == Step(Run(w, actions), a)
  {
    assert (actions + [a])[..|actions|] == actions;
  }

  lemma TwoListeners() returns (actions: seq<Action>)
    ensures actions == [Create(0, "click", true, None), Add(0, "click", true, false), Add(0, "click", true, false)]
    ensures var w := Run(EMPTY, actions);
            && w == EMPTY.(events := map[0 := NewEvent("click", true, None)],
                           nextListener := 2, listeners := w.listeners)
            && ListenersOf(w, 0, "click") == [FIRST, SECOND]
  {
    var add := Add(0, "click", true, false);
    actions := [Create(0, "click", true, None)];
    RunOne(EMPTY, actions[0]);
    RunNext(EMPTY, actions, add);
    assert ListenersOf(Run(EMPTY, actions + [add]), 0, "click") == [FIRST];
    RunNext(EMPTY, actions + [add], add);
    actions := actions + [add] + [add];
  }

  lemma DispatchOfTwo() returns (actions: seq<Action>)
    ensures actions == [Create(0, "click", true, None), Add(0, "click", true, false), Add(0, "click", true, false),
                        Dispatch(0, LONE, 0)]
    ensures var w := Run(EMPTY, actions);
            && InFlight(w, 0, 0) && 0 in w.events && w.tasks[0].at == Opening(Capturing, 0)
            && w.events[0].path == [TargetStruct(LONE, None, 0)] && w.events[0].eventType == "click"
            && !w.events[0].stop && !w.events[0].stopNow && ListenersOf(w, 0, "click") == [FIRST, SECOND]
  {
    var prepared := TwoListeners();
    RunNext(EMPTY, prepared, Dispatch(0, LONE, 0));
    actions := prepared + [Dispatch(0, LONE, 0)];
    assert BuildPath(LONE, None, 0) == Ok([TargetStruct(LONE, None, 0)]);
  }

  /** Two listeners on one node: the first has returned, and the dispatch pauses before the second. */
  lemma PauseBetweenTwo() returns (actions: seq<Action>)
    ensures actions == [Create(0, "click", true, None), Add(0, "click", true, false), Add(0, "click", true, false),
                        Dispatch(0, LONE, 0), Advance(0), Advance(0), Advance(0)]
    ensures var w := Run(EMPTY, actions);
            && InFlight(w, 0, 0) && 0 in w.events && w.tasks[0].at == Serving(Capturing, 0, [FIRST, SECOND], 1)
            && Registered(w, SECOND)
  {
    var begun := DispatchOfTwo();
    var w := Run(EMPTY, begun);
    RunNext(EMPTY, begun, Advance(0));
    RunNext(EMPTY, begun + [Advance(0)], Advance(0));
    RunNext(EMPTY, begun + [Advance(0)] + [Advance(0)], Advance(0));
    actions := begun + [Advance(0)] + [Advance(0)] + [Advance(0)];
    var w1 := Step(w, Advance(0));
    assert w1 == Open(w, 0, Capturing, 0) && w1.tasks[0].at == Serving(Capturing, 0, [FIRST, SECOND], 0);
    var w2 := Step(w1, Advance(0));
    assert w2 == Serve(w1, 0, Capturing, 0, [FIRST, SECOND], 0);
    assert w2.tasks[0].at == Calling(Capturing, 0, [FIRST, SECOND], 0);
  }

  /** In that pause stopImmediatePropagation comes too late: the second listener still runs. */
  lemma FlagInThePauseIsTooLate() returns (actions: seq<Action>)
    ensures actions == [Create(0, "click", true, None), Add(0, "click", true, false), Add(0, "click", true, false),
                        Dispatch(0, LONE, 0), Advance(0), Advance(0), Advance(0)]
    ensures var w := Run(EMPTY, actions);
            && InFlight(w, 0, 0) && w.tasks[0].at == Serving(Capturing, 0, [FIRST, SECOND], 1)
            && !Silent(Run(w, [StopImmediatePropagation(0), Advance(0)]), |w.log|, 0)
  {
    actions := PauseBetweenTwo();
    var w := Run(EMPTY, actions);
    RunFirst(w, StopImmediatePropagation(0), [Advance(0)]);
    var w1 := Step(w, StopImmediatePropagation(0));
    RunOne(w1, Advance(0));
    assert Registered(w1, SECOND) && [FIRST, SECOND][1] == SECOND;
    assert Step(w1, Advance(0)).log[|w.log|].run == 0;
  }
}
