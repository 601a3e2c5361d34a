/** Every dispatch comes to its end, whatever callbacks and other dispatches do meanwhile. */
module DispatchProgress {
  import opened Dispatch
  import opened DispatchInvariants
  import opened DispatchOrder
  import opened DispatchTheorems

  // ----- How far a dispatch is from its end: first the structs, then the handlers of the one served -----

  function StructsLeft(at: Position, length: nat): int {
    2 * (if at.pass.Capturing? then at.i + length + 3 else length - at.i + 1) - (if at.Opening? then 0 else 1)
  }

  function TurnsLeft(at: Position): int {
    match at
    case Opening(_, _) => 0
    case Serving(_, _, handlers, h) => 2 * (|handlers| - h)
    case Calling(_, _, handlers, h) => 2 * (|handlers| - h) - 1
  }

  ghost predicate Distance(w: World, e: EventId, structs: nat, turns: nat) {
    && e in w.tasks && e in w.events
    && structs == StructsLeft(w.tasks[e].at, |w.events[e].path|) && turns == TurnsLeft(w.tasks[e].at)
  }

  lemma DistanceExists(w: World, e: EventId) returns (structs: nat, turns: nat)
    requires EventsOk(w) && e in w.tasks
    ensures Distance(w, e, structs, turns)
  {
    assert TaskOk(w, e);
    structs, turns := StructsLeft(w.tasks[e].at, |w.events[e].path|), TurnsLeft(w.tasks[e].at);
  }

  predicate Nearer(at: Position, at1: Position, length: nat) {
    || StructsLeft(at1, length) < StructsLeft(at, length)
    || (StructsLeft(at1, length) == StructsLeft(at, length) && TurnsLeft(at1) < TurnsLeft(at))
  }

  lemma AdvanceIsNearer(w: World, e: EventId)
    requires e in w.tasks && e in w.events && e in AdvanceTask(w, e).tasks && w.tasks[e].at.i >= -1
    ensures Nearer(w.tasks[e].at, AdvanceTask(w, e).tasks[e].at, |w.events[e].path|)
  {
    match w.tasks[e].at
    case Opening(_, _) => OpeningIsNearer(w, e);
    case Serving(_, _, _, _) => ServingIsNearer(w, e);
    case Calling(pass, i, handlers, h) =>
      assert AdvanceTask(w, e).tasks[e].at in {Opening(pass, NextStruct(pass, i)), Serving(pass, i, handlers, h + 1)};
  }

  lemma OpeningIsNearer(w: World, e: EventId)
    requires e in w.tasks && e in w.events && e in AdvanceTask(w, e).tasks
    requires w.tasks[e].at.Opening? && w.tasks[e].at.i >= -1
    ensures Nearer(w.tasks[e].at, AdvanceTask(w, e).tasks[e].at, |w.events[e].path|)
  {}

  lemma ServingIsNearer(w: World, e: EventId)
    requires e in w.tasks && e in w.events && w.tasks[e].at.Serving?
    ensures e in AdvanceTask(w, e).tasks
    ensures Nearer(w.tasks[e].at, AdvanceTask(w, e).tasks[e].at, |w.events[e].path|)
  {}

  ghost predicate Underway(w: World, e: EventId, run: RunId, structs: nat, turns: nat) {
    InFlight(w, e, run) && Distance(w, e, structs, turns)
  }

  ghost predicate Ended(w: World, e: EventId, run: RunId) {
    !InFlight(w, e, run) && e in w.events && Idle(w.events[e])
  }

  /** Its own step brings a dispatch nearer to its end, or ends it and resets its event. */
  lemma AdvanceComesNearer(w: World, e: EventId, structs: nat, turns: nat) returns (structs1: nat, turns1: nat)
    requires Inv(w) && Distance(w, e, structs, turns)
    ensures var w1 := Step(w, Advance(e));
            if e in w1.tasks then
              && w1.tasks[e].run == w.tasks[e].run && Distance(w1, e, structs1, turns1)
              && (structs1 < structs || (structs1 == structs && turns1 < turns))
            else e in w1.events && Idle(w1.events[e])
  {
    if e in AdvanceTask(w, e).tasks {
      structs1, turns1 := AdvanceGoesOn(w, e, structs, turns);
    } else {
      FinishKeepsEvents(w, e);
      AdvanceEnds(w, e);
      structs1, turns1 := 0, 0;
    }
  }

  lemma AdvanceGoesOn(w: World, e: EventId, structs: nat, turns: nat) returns (structs1: nat, turns1: nat)
    requires EventsOk(w) && ListsOk(w) && Distance(w, e, structs, turns) && e in AdvanceTask(w, e).tasks
    ensures AdvanceTask(w, e).tasks[e].run == w.tasks[e].run && Distance(AdvanceTask(w, e), e, structs1, turns1)
    ensures structs1 < structs || (structs1 == structs && turns1 < turns)
  {
    assert TaskOk(w, e);
    AdvanceKeepsEvents(w, e);
    AdvanceKeepsEvent(w, e);
    AdvanceIsNearer(w, e);
    structs1, turns1 := DistanceExists(AdvanceTask(w, e), e);
  }

  lemma OthersKeepDistance(w: World, a: Action, e: EventId, run: RunId, structs: nat, turns: nat)
    requires Inv(w) && Underway(w, e, run, structs, turns) && a != Advance(e)
    ensures Underway(Step(w, a), e, run, structs, turns)
  {
    InFlightIsOwned(w, e, run);
    OthersLeaveAlone(w, a, e, run);
  }

  // ----- Schedules -----

  ghost predicate Later(schedule: nat -> Action, a: Action, n: nat) { exists m: nat :: n <= m && schedule(m) == a }

  /** Microtasks are served in turn: whatever happened so far, the dispatch of e moves on again some time. */
  ghost predicate Fair(schedule: nat -> Action, e: EventId) { forall n: nat :: Later(schedule, Advance(e), n) }

  function Prefix(schedule: nat -> Action, n: nat): (s: seq<Action>)
    ensures |s| == n
  {
    if n == 0 then [] else Prefix(schedule, n - 1) + [schedule(n - 1)]
  }

  lemma RunStep(w: World, schedule: nat -> Action, n: nat)
    ensures Run(w, Prefix(schedule, n + 1)) == Step(Run(w, Prefix(schedule, n)), schedule(n))
  {
    assert Prefix(schedule, n + 1)[..n] == Prefix(schedule, n);
  }

  lemma OwnTurn(w: World, schedule: nat -> Action, n: nat, e: EventId, run: RunId, structs: nat, turns: nat)
      returns (ended: bool, structs1: nat, turns1: nat)
    requires Inv(w) && schedule(n) == Advance(e) && Underway(Run(w, Prefix(schedule, n)), e, run, structs, turns)
    ensures var w1 := Run(w, Prefix(schedule, n + 1));
            if ended then Ended(w1, e, run)
            else
              && Underway(w1, e, run, structs1, turns1)
              && (structs1 < structs || (structs1 == structs && turns1 < turns))
  {
    RunKeepsInv(w, Prefix(schedule, n));
    RunStep(w, schedule, n);
    structs1, turns1 := AdvanceComesNearer(Run(w, Prefix(schedule, n)), e, structs, turns);
    ended := e !in Run(w, Prefix(schedule, n + 1)).tasks;
  }

  lemma OtherTurn(w: World, schedule: nat -> Action, n: nat, e: EventId, run: RunId, structs: nat, turns: nat)
    requires Inv(w) && schedule(n) != Advance(e) && Underway(Run(w, Prefix(schedule, n)), e, run, structs, turns)
    ensures Underway(Run(w, Prefix(schedule, n + 1)), e, run, structs, turns)
  {
    RunKeepsInv(w, Prefix(schedule, n));
    RunStep(w, schedule, n);
    OthersKeepDistance(Run(w, Prefix(schedule, n)), schedule(n), e, run, structs, turns);
  }

  lemma NextTurn(schedule: nat -> Action, e: EventId, n: nat) returns (m: nat)
    requires Fair(schedule, e)
    ensures n <= m && schedule(m) == Advance(e)
  {
    assert Later(schedule, Advance(e), n);
    m :| n <= m && schedule(m) == Advance(e);
  }

  /** From the n-th step on; its own next step is the m-th one. */
  lemma {:induction false} EndsFrom(w: World, schedule: nat -> Action, n: nat, m: nat, e: EventId, run: RunId,
                                    structs: nat, turns: nat) returns (k: nat)
    requires Inv(w) && Fair(schedule, e) && n <= m && schedule(m) == Advance(e)
    requires Underway(Run(w, Prefix(schedule, n)), e, run, structs, turns)
    ensures Ended(Run(w, Prefix(schedule, k)), e, run)
    decreases structs, turns, m - n
  {
    if schedule(n) != Advance(e) {
      OtherTurn(w, schedule, n, e, run, structs, turns);
      k := EndsFrom(w, schedule, n + 1, m, e, run, structs, turns);
    } else {
      var ended, structs1, turns1 := OwnTurn(w, schedule, n, e, run, structs, turns);
      if ended {
        k := n + 1;
      } else {
        var m1 := NextTurn(schedule, e, n + 1);
        k := EndsFrom(w, schedule, n + 1, m1, e, run, structs1, turns1);
      }
    }
  }

  /** In every fair schedule a dispatch ends, and then its event is at rest, even if listeners are added without end. */
  lemma EveryDispatchEnds(w: World, schedule: nat -> Action, e: EventId, run: RunId) returns (k: nat)
    requires Inv(w) && InFlight(w, e, run) && Fair(schedule, e)
    ensures Ended(Run(w, Prefix(schedule, k)), e, run)
  {
    var structs, turns := DistanceExists(w, e);
    var m := NextTurn(schedule, e, 0);
    k := EndsFrom(w, schedule, 0, m, e, run, structs, turns);
  }
}
