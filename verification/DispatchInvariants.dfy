/** What every step of any interleaving keeps. */
module DispatchInvariants {
  import opened Wrappers
  import opened EventPath
  import opened Dispatch

  // ----- Registrations, and the once rule -----

  /** Listeners stand in the order in which they were registered, and each of them once. */
  ghost predicate InOrder(s: seq<Listener>) {
    forall j, k {:trigger s[j], s[k]} :: 0 <= j < k < |s| ==> s[j].id < s[k].id
  }

  ghost predicate Home(s: seq<Listener>, node: Node, t: EventType, bound: nat) {
    forall k {:trigger s[k]} :: 0 <= k < |s| ==> s[k].node == node && s[k].eventType == t && s[k].id < bound
  }

  ghost predicate ListsOk(w: World) {
    forall n, t {:trigger ListenersOf(w, n, t)} ::
      InOrder(ListenersOf(w, n, t)) && Home(ListenersOf(w, n, t), n, t, w.nextListener)
  }

  ghost predicate OnceOk(w: World) {
    && (forall k {:trigger w.log[k]} :: 0 <= k < |w.log| ==>
          w.log[k].listener.id < w.nextListener && (w.log[k].listener.once ==> !Registered(w, w.log[k].listener)))
    && (forall j, k {:trigger w.log[j], w.log[k]} :: 0 <= j < k < |w.log| && w.log[j].listener.once ==>
          w.log[j].listener != w.log[k].listener)
  }

  lemma {:induction false} RemoveFirstOk(s: seq<Listener>, l: Listener)
    requires InOrder(s)
    ensures InOrder(RemoveFirst(s, l)) && l !in RemoveFirst(s, l)
    ensures forall x :: x in RemoveFirst(s, l) <==> x in s && x != l
  {
    if s != [] && s[0] != l {
      RemoveFirstOk(s[1..], l);
      var r := RemoveFirst(s[1..], l);
      forall k | 0 <= k < |r| ensures s[0].id < r[k].id { assert r[k] in s[1..]; }
      assert forall x :: x in s <==> x == s[0] || x in s[1..];
    }
  }

  /** Only l's own list changes, and only by losing l. */
  lemma UnregisterOk(w: World, l: Listener)
    requires ListsOk(w)
    ensures ListsOk(Unregister(w, l))
    ensures forall x :: Registered(Unregister(w, l), x) <==> Registered(w, x) && x != l
  {
    var s := ListenersOf(w, l.node, l.eventType);
    var w1 := Unregister(w, l);
    RemoveFirstOk(s, l);
    assert ListenersOf(w1, l.node, l.eventType) == RemoveFirst(s, l);
    forall k | 0 <= k < |RemoveFirst(s, l)| ensures RemoveFirst(s, l)[k] in s { }
    forall n: Node, t: EventType
      ensures InOrder(ListenersOf(w1, n, t)) && Home(ListenersOf(w1, n, t), n, t, w1.nextListener)
    {
      if (n, t) != (l.node, l.eventType) { assert ListenersOf(w1, n, t) == ListenersOf(w, n, t); }
    }
    forall x ensures Registered(w1, x) <==> Registered(w, x) && x != l {
      if (x.node, x.eventType) != (l.node, l.eventType) {
        assert ListenersOf(w1, x.node, x.eventType) == ListenersOf(w, x.node, x.eventType);
      }
    }
  }

  lemma AddOk(w: World, n: Node, t: EventType, capture: bool, once: bool)
    requires ListsOk(w)
    ensures var w1 := Step(w, Add(n, t, capture, once));
            var l := Listener(w.nextListener, n, t, capture, once);
            ListsOk(w1) && forall x :: Registered(w1, x) <==> Registered(w, x) || x == l
  {
    var w1 := Step(w, Add(n, t, capture, once));
    var l := Listener(w.nextListener, n, t, capture, once);
    var s := ListenersOf(w, n, t);
    assert ListenersOf(w1, n, t) == s + [l];
    forall n2: Node, t2: EventType
      ensures InOrder(ListenersOf(w1, n2, t2)) && Home(ListenersOf(w1, n2, t2), n2, t2, w1.nextListener)
    {
      if (n2, t2) != (n, t) { assert ListenersOf(w1, n2, t2) == ListenersOf(w, n2, t2); }
    }
    forall x ensures Registered(w1, x) <==> Registered(w, x) || x == l {
      if (x.node, x.eventType) != (n, t) {
        assert ListenersOf(w1, x.node, x.eventType) == ListenersOf(w, x.node, x.eventType);
      }
    }
  }

  /** Steps that leave registrations and the log alone. */
  lemma SameLists(w: World, w1: World)
    requires w1.listeners == w.listeners && w1.nextListener == w.nextListener && w1.log == w.log
    requires ListsOk(w) && OnceOk(w)
    ensures ListsOk(w1) && OnceOk(w1)
  {
    assert forall n, t :: ListenersOf(w1, n, t) == ListenersOf(w, n, t);
    assert forall l :: Registered(w1, l) == Registered(w, l);
  }

  lemma ServeKeepsOnce(w: World, e: EventId, pass: Pass, i: int, handlers: seq<Listener>, h: nat)
    requires ListsOk(w) && OnceOk(w) && e in w.tasks && e in w.events && h < |handlers|
    ensures var w1 := Serve(w, e, pass, i, handlers, h); ListsOk(w1) && OnceOk(w1)
  {
    var l := handlers[h];
    var w1 := Serve(w, e, pass, i, handlers, h);
    if !Registered(w, l) || l.capture != pass.Capturing? {
      SameLists(w, w1);
    } else {
      var wu := if l.once then Unregister(w, l) else w;
      if l.once { UnregisterOk(w, l); }
      assert forall n, t :: ListenersOf(w1, n, t) == ListenersOf(wu, n, t);
      assert forall x :: Registered(w1, x) == Registered(wu, x);
      var list := ListenersOf(w, l.node, l.eventType);
      var at :| 0 <= at < |list| && list[at] == l;
    }
  }

  lemma StepKeepsOnce(w: World, a: Action)
    requires ListsOk(w) && OnceOk(w)
    ensures ListsOk(Step(w, a)) && OnceOk(Step(w, a))
  {
    match a
    case Add(n, t, capture, once) => AddOk(w, n, t, capture, once);
    case Remove(l) => UnregisterOk(w, l);
    case Advance(e) =>
      if e in w.tasks && e in w.events {
        var at := w.tasks[e].at;
        if at.Serving? && at.h < |at.handlers| {
          ServeKeepsOnce(w, e, at.pass, at.i, at.handlers, at.h);
        } else {
          SameLists(w, Step(w, a));
        }
      }
    case _ => SameLists(w, Step(w, a));
  }

  // ----- Events and their dispatches -----

  predicate GoodPath(path: seq<Struct>) { |path| > 0 && path[0].target.Some? }

  ghost predicate PositionOk(at: Position, ev: EventState, bound: nat) {
    match at
    case Opening(pass, i) =>
      -1 <= i <= |ev.path| && (i == |ev.path| ==> pass.Bubbling?) && (i == -1 ==> pass.Capturing?)
    case Serving(pass, i, handlers, h) => 0 <= i < |ev.path| && h <= |handlers| && Served(ev, pass, i, handlers, bound)
    case Calling(pass, i, handlers, h) => 0 <= i < |ev.path| && h < |handlers| && Served(ev, pass, i, handlers, bound)
  }

  /** While a struct is served, the event shows that struct's phase, its visible target and its item. */
  ghost predicate Served(ev: EventState, pass: Pass, i: nat, handlers: seq<Listener>, bound: nat)
    requires i < |ev.path|
  {
    var s := ev.path[i];
    && InOrder(handlers) && Home(handlers, s.item, ev.eventType, bound)
    && ev.phase == PhaseOf(pass, s) && ev.target == VisibleTarget(ev.path, i) && ev.currentTarget == Some(s.item)
    && ev.related == s.related
    && (pass.Bubbling? && s.target.None? ==> ev.bubbles)
  }

  ghost predicate TaskOk(w: World, e: EventId)
    requires e in w.tasks
  {
    && e in w.events && w.events[e].dispatching && e !in w.failed
    && w.tasks[e].run < w.nextRun && w.tasks[e].run in w.paths && w.paths[w.tasks[e].run] == w.events[e].path
    && GoodPath(w.events[e].path) && DistinctItems(w.events[e].path)
    && PositionOk(w.tasks[e].at, w.events[e], w.nextListener)
  }

  predicate Idle(ev: EventState) { !ev.dispatching && ev.phase == NoPhase && ev.path == [] && ev.currentTarget == None }

  /** An event is idle, or has exactly one dispatch in flight, or is stuck after the slot error. */
  ghost predicate EventsOk(w: World) {
    && (forall e {:trigger w.events[e]} :: e in w.events ==> Idle(w.events[e]) || e in w.tasks || e in w.failed)
    && (forall e {:trigger w.tasks[e]} :: e in w.tasks ==> TaskOk(w, e))
    && (forall d, e {:trigger w.tasks[d], w.tasks[e]} :: d in w.tasks && e in w.tasks && d != e ==>
         w.tasks[d].run != w.tasks[e].run)
    && (forall e {:trigger e in w.failed} :: e in w.failed ==> e in w.events && w.events[e].dispatching)
  }

  /** A step that changes at most e's own event and task, and keeps e's run. */
  ghost predicate OnlyTouches(w: World, w1: World, e: EventId) {
    && e in w.tasks && e in w1.tasks && e in w.events && e in w1.events
    && w1.tasks == w.tasks[e := w1.tasks[e]] && w1.events == w.events[e := w1.events[e]]
    && w1.tasks[e].run == w.tasks[e].run && w1.nextRun == w.nextRun && w1.paths == w.paths && w1.failed == w.failed
    && w1.nextListener == w.nextListener
  }

  lemma TouchKeepsEvents(w: World, w1: World, e: EventId)
    requires EventsOk(w) && OnlyTouches(w, w1, e)
    requires w1.events[e].dispatching && w1.events[e].path == w.events[e].path
    requires PositionOk(w1.tasks[e].at, w1.events[e], w1.nextListener)
    ensures EventsOk(w1)
  {
    assert TaskOk(w, e);
    forall d | d in w1.tasks ensures TaskOk(w1, d) { assert TaskOk(w, d); }
  }

  lemma OpenKeepsEvents(w: World, e: EventId, pass: Pass, i: int)
    requires EventsOk(w) && ListsOk(w) && e in w.tasks && e in w.events
    requires w.tasks[e].at == Opening(pass, i) && 0 <= i < |w.events[e].path|
    requires pass.Bubbling? && w.events[e].path[i].target.None? ==> w.events[e].bubbles
    ensures EventsOk(Open(w, e, pass, i))
  {
    assert TaskOk(w, e);
    var s := w.events[e].path[i];
    assert Home(ListenersOf(w, s.item, w.events[e].eventType), s.item, w.events[e].eventType, w.nextListener);
    TouchKeepsEvents(w, Open(w, e, pass, i), e);
  }

  lemma AdvanceKeepsEvents(w: World, e: EventId)
    requires EventsOk(w) && ListsOk(w) && e in w.tasks && e in w.events
    ensures EventsOk(AdvanceTask(w, e))
  {
    assert TaskOk(w, e);
    var w1 := AdvanceTask(w, e);
    var ev := w.events[e];
    match w.tasks[e].at
    case Opening(pass, i) =>
      if 0 <= i < |ev.path| && !(pass.Bubbling? && ev.path[i].target.None? && !ev.bubbles) {
        OpenKeepsEvents(w, e, pass, i);
      } else if pass.Capturing? || i < |ev.path| {
        TouchKeepsEvents(w, w1, e);
      } else {
        FinishKeepsEvents(w, e);
      }
    case Serving(pass, i, handlers, h) => ServingKeepsEvents(w, e);
    case Calling(pass, i, handlers, h) => TouchKeepsEvents(w, w1, e);
  }

  lemma ServingKeepsEvents(w: World, e: EventId)
    requires EventsOk(w) && e in w.tasks && e in w.events && w.tasks[e].at.Serving?
    ensures EventsOk(AdvanceTask(w, e))
  {
    assert TaskOk(w, e);
    TouchKeepsEvents(w, AdvanceTask(w, e), e);
  }

  lemma FinishKeepsEvents(w: World, e: EventId)
    requires EventsOk(w) && e in w.tasks && e in w.events
    ensures EventsOk(Finish(w, e)) && Idle(Finish(w, e).events[e])
  {
    assert TaskOk(w, e);
    var w1 := Finish(w, e);
    forall d | d in w1.tasks ensures TaskOk(w1, d) { assert TaskOk(w, d); }
  }

  lemma RunningKeepsEvents(w: World, e: EventId, ev: EventState, clears: bool)
    requires EventsOk(w) && e in w.events && Idle(w.events[e])
    requires ev.dispatching && GoodPath(ev.path) && DistinctItems(ev.path)
    ensures EventsOk(w.(events := w.events[e := ev],
                        tasks := w.tasks[e := Task(w.nextRun, clears, Opening(Capturing, |ev.path| - 1))],
                        paths := w.paths[w.nextRun := ev.path],
                        nextRun := w.nextRun + 1))
  {
    var w1 := w.(events := w.events[e := ev],
                 tasks := w.tasks[e := Task(w.nextRun, clears, Opening(Capturing, |ev.path| - 1))],
                 paths := w.paths[w.nextRun := ev.path],
                 nextRun := w.nextRun + 1);
    forall d | d in w1.tasks ensures TaskOk(w1, d) {
      if d != e { assert TaskOk(w, d); }
    }
    forall d | d in w.tasks && d != e ensures w1.tasks[d].run != w1.tasks[e].run { assert TaskOk(w, d); }
  }

  /** Only e's state changes, and e has no dispatch in flight. */
  lemma QuietKeepsEvents(w: World, w1: World, e: EventId)
    requires EventsOk(w) && e !in w.tasks && e in w1.events && w1.events == w.events[e := w1.events[e]]
    requires w1.tasks == w.tasks && w1.nextRun == w.nextRun && w1.paths == w.paths && w1.nextListener >= w.nextListener
    requires w1.failed == w.failed || w1.failed == w.failed + {e}
    requires if e in w1.failed then w1.events[e].dispatching else Idle(w1.events[e])
    ensures EventsOk(w1)
  {
    forall d | d in w1.tasks ensures TaskOk(w1, d) { assert TaskOk(w, d); }
  }

  lemma BeginKeepsEvents(w: World, e: EventId, dom: Tree, target: Node)
    requires EventsOk(w) && e in w.events
    ensures EventsOk(Begin(w, e, dom, target))
  {
    var ev := w.events[e];
    if e in w.tasks { assert TaskOk(w, e); }
    StartFacts(ev, dom, target);
    match Start(ev, dom, target)
    case Running(ev1, clears) => RunningKeepsEvents(w, e, ev1, clears);
    case Refused =>
    case _ => QuietKeepsEvents(w, Begin(w, e, dom, target), e);
  }

  /** A dispatch is refused unless the event is at rest; otherwise it fails on a slot, is done at once, or runs. */
  lemma StartFacts(ev: EventState, dom: Tree, target: Node)
    ensures Start(ev, dom, target).Refused? <==> ev.dispatching || !ev.initialized || ev.phase != NoPhase
    ensures match Start(ev, dom, target)
            case Refused => true
            case SlotFailure(ev1) => ev1.dispatching
            case NoPath(ev1) => Idle(ev1) && !ev1.stop && !ev1.stopNow
            case Running(ev1, _) => ev1.dispatching && GoodPath(ev1.path) && DistinctItems(ev1.path)
  {
    if BuildPath(dom, ev.related, target).Ok? {
      BuiltPathClimbs(dom, ev.related, target);
    }
  }

  lemma StopKeepsEvents(w: World, e: EventId, stopNow: bool)
    requires EventsOk(w) && e in w.events
    ensures EventsOk(w.(events := w.events[e := w.events[e].(stop := true, stopNow := stopNow)]))
  {
    var w1 := w.(events := w.events[e := w.events[e].(stop := true, stopNow := stopNow)]);
    if e in w.tasks {
      assert TaskOk(w, e);
      TouchKeepsEvents(w, w1, e);
    } else {
      QuietKeepsEvents(w, w1, e);
    }
  }

  lemma TaskHasEvent(w: World, e: EventId)
    requires EventsOk(w)
    ensures e in w.tasks ==> e in w.events
  {
    if e in w.tasks { assert TaskOk(w, e); }
  }

  lemma NewIdKeepsEvents(w: World, w1: World)
    requires EventsOk(w) && w1.events == w.events && w1.tasks == w.tasks && w1.nextRun == w.nextRun
    requires w1.paths == w.paths && w1.failed == w.failed && w1.nextListener >= w.nextListener
    ensures EventsOk(w1)
  {
    forall d | d in w1.tasks ensures TaskOk(w1, d) { assert TaskOk(w, d); }
  }

  lemma StepKeepsEvents(w: World, a: Action)
    requires EventsOk(w) && ListsOk(w)
    ensures EventsOk(Step(w, a))
  {
    match a
    case Advance(e) => if e in w.tasks && e in w.events { AdvanceKeepsEvents(w, e); }
    case Dispatch(e, dom, target) => if e in w.events { BeginKeepsEvents(w, e, dom, target); }
    case StopPropagation(e) => if e in w.events { StopKeepsEvents(w, e, w.events[e].stopNow); }
    case StopImmediatePropagation(e) => if e in w.events { StopKeepsEvents(w, e, true); }
    case Create(e, _, _, _) =>
      if e !in w.events {
        TaskHasEvent(w, e);
        QuietKeepsEvents(w, Step(w, a), e);
      }
    case _ => NewIdKeepsEvents(w, Step(w, a));
  }
}
