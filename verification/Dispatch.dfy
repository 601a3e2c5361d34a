/** Any number of event dispatches in flight at once. A dispatch gives up control after each listener,
    so other dispatches and any other code may act in between; every step below may come next at any time. */
module Dispatch {
  import opened Wrappers
  import opened EventPath

  type EventId = nat
  type RunId = nat

  type Tree = d: Dom | d.Acyclic()
    witness Dom(_ => None, _ => 0, _ => false, _ => false, _ => false, _ => false, (_, _) => false, (_, _) => None)

  /** One registration; registering again makes a new one, with an id never used before. */
  datatype Listener = Listener(id: nat, node: Node, eventType: EventType, capture: bool, once: bool)

  datatype Pass = Capturing | Bubbling

  /** Where a dispatch is: about to serve a struct, about to look at a handler of the copied list, or in its
      callback. */
  datatype Position =
    | Opening(pass: Pass, i: int)
    | Serving(pass: Pass, i: int, handlers: seq<Listener>, h: nat)
    | Calling(pass: Pass, i: int, handlers: seq<Listener>, h: nat)

  datatype Task = Task(run: RunId, clears: bool, at: Position)

  /** A callback that was run, and what it could see on its event. */
  datatype Invocation = Invocation(run: RunId, listener: Listener, pass: Pass, i: int, h: nat,
                                   bubbles: bool, phase: Phase, target: Option<Node>, current: Option<Node>,
                                   related: Option<Node>)

  /** `paths`, `log` and `failed` only record what happened. */
  datatype World = World(
    listeners: map<(Node, EventType), seq<Listener>>,
    events: map<EventId, EventState>,
    tasks: map<EventId, Task>,
    nextListener: nat,
    nextRun: RunId,
    paths: map<RunId, seq<Struct>>,
    log: seq<Invocation>,
    failed: set<EventId>)

  datatype Action =
    | Create(e: EventId, eventType: EventType, bubbles: bool, related: Option<Node>)
    | Add(node: Node, eventType: EventType, capture: bool, once: bool)
    | Remove(listener: Listener)
    | StopPropagation(e: EventId)
    | StopImmediatePropagation(e: EventId)
    | Dispatch(e: EventId, dom: Tree, target: Node)
    | Advance(e: EventId)

  function ListenersOf(w: World, node: Node, t: EventType): seq<Listener> {
    if (node, t) in w.listeners then w.listeners[(node, t)] else []
  }

  predicate Registered(w: World, l: Listener) { l in ListenersOf(w, l.node, l.eventType) }

  /** splice(indexOf(l), 1), or nothing when l is absent. */
  function RemoveFirst(s: seq<Listener>, l: Listener): seq<Listener> {
    if s == [] then [] else if s[0] == l then s[1..] else [s[0]] + RemoveFirst(s[1..], l)
  }

  function Unregister(w: World, l: Listener): World {
    w.(listeners := w.listeners[(l.node, l.eventType) := RemoveFirst(ListenersOf(w, l.node, l.eventType), l)])
  }

  function PhaseOf(pass: Pass, s: Struct): Phase {
    if s.target.Some? then AtTarget else if pass.Capturing? then CapturingPhase else BubblingPhase
  }

  function NextStruct(pass: Pass, i: int): int { if pass.Capturing? then i - 1 else i + 1 }

  function MoveTo(w: World, e: EventId, at: Position): World
    requires e in w.tasks
  {
    w.(tasks := w.tasks[e := w.tasks[e].(at := at)])
  }

  /** The part of a struct's turn before its first handler: show the target, honour the stop flag, copy the
      listeners. */
  function Open(w: World, e: EventId, pass: Pass, i: int): World
    requires e in w.tasks && e in w.events && 0 <= i < |w.events[e].path|
  {
    var ev := w.events[e];
    var s := ev.path[i];
    var ev1 := ev.(phase := PhaseOf(pass, s), target := VisibleTarget(ev.path, i), related := s.related);
    if ev.stop then
      MoveTo(w.(events := w.events[e := ev1]), e, Opening(pass, NextStruct(pass, i)))
    else
      MoveTo(w.(events := w.events[e := ev1.(currentTarget := Some(s.item))]), e,
             Serving(pass, i, ListenersOf(w, s.item, ev.eventType), 0))
  }

  function Invoked(w: World, e: EventId, pass: Pass, i: int, handlers: seq<Listener>, h: nat): Invocation
    requires e in w.tasks && e in w.events && h < |handlers|
  {
    var ev := w.events[e];
    Invocation(w.tasks[e].run, handlers[h], pass, i, h, ev.bubbles, ev.phase, ev.target, ev.currentTarget, ev.related)
  }

  /** One handler's turn. Looking it up, removing a once listener and calling it happen without a break. */
  function Serve(w: World, e: EventId, pass: Pass, i: int, handlers: seq<Listener>, h: nat): World
    requires e in w.tasks && e in w.events && h < |handlers|
  {
    var l := handlers[h];
    if !Registered(w, l) || l.capture != pass.Capturing? then MoveTo(w, e, Serving(pass, i, handlers, h + 1))
    else
      var w1 := if l.once then Unregister(w, l) else w;
      MoveTo(w1.(log := w.log + [Invoked(w, e, pass, i, handlers, h)]), e, Calling(pass, i, handlers, h))
  }

  function Finish(w: World, e: EventId): World
    requires e in w.tasks && e in w.events
  {
    w.(events := w.events[e := Reset(w.events[e], w.tasks[e].clears)], tasks := w.tasks - {e})
  }

  function AdvanceTask(w: World, e: EventId): World
    requires e in w.tasks && e in w.events
  {
    var ev := w.events[e];
    match w.tasks[e].at
    case Opening(pass, i) =>
      if 0 <= i < |ev.path| then
        if pass.Bubbling? && ev.path[i].target.None? && !ev.bubbles then MoveTo(w, e, Opening(pass, i + 1))
        else Open(w, e, pass, i)
      else if pass.Capturing? then MoveTo(w, e, Opening(Bubbling, 0))
      else Finish(w, e)
    case Serving(pass, i, handlers, h) =>
      if h < |handlers| then Serve(w, e, pass, i, handlers, h)
      else MoveTo(w, e, Opening(pass, NextStruct(pass, i)))
    case Calling(pass, i, handlers, h) =>
      if ev.stopNow then MoveTo(w, e, Opening(pass, NextStruct(pass, i)))
      else MoveTo(w, e, Serving(pass, i, handlers, h + 1))
  }

  function Begin(w: World, e: EventId, dom: Tree, target: Node): World
    requires e in w.events
  {
    match Start(w.events[e], dom, target)
    case Refused => w
    case SlotFailure(ev) => w.(events := w.events[e := ev], failed := w.failed + {e})
    case NoPath(ev) => w.(events := w.events[e := ev])
    case Running(ev, clears) =>
      w.(events := w.events[e := ev],
         tasks := w.tasks[e := Task(w.nextRun, clears, Opening(Capturing, |ev.path| - 1))],
         paths := w.paths[w.nextRun := ev.path],
         nextRun := w.nextRun + 1)
  }

  function NewEvent(t: EventType, bubbles: bool, related: Option<Node>): EventState {
    EventState(t, bubbles, true, false, NoPhase, None, related, None, [], false, false)
  }

  function Step(w: World, a: Action): World {
    match a
    case Create(e, t, bubbles, related) =>
      if e in w.events then w else w.(events := w.events[e := NewEvent(t, bubbles, related)])
    case Add(node, t, capture, once) =>
      var l := Listener(w.nextListener, node, t, capture, once);
      w.(listeners := w.listeners[(node, t) := ListenersOf(w, node, t) + [l]],
         nextListener := w.nextListener + 1)
    case Remove(l) => Unregister(w, l)
    case StopPropagation(e) =>
      if e in w.events then w.(events := w.events[e := w.events[e].(stop := true)]) else w
    case StopImmediatePropagation(e) =>
      if e in w.events then w.(events := w.events[e := w.events[e].(stop := true, stopNow := true)]) else w
    case Dispatch(e, dom, target) => if e in w.events then Begin(w, e, dom, target) else w
    case Advance(e) => if e in w.tasks && e in w.events then AdvanceTask(w, e) else w
  }

  function Run(w: World, actions: seq<Action>): World {
    if actions == [] then w else Step(Run(w, actions[..|actions| - 1]), actions[|actions| - 1])
  }

  const EMPTY: World := World(map[], map[], map[], 0, 0, map[], [], {})
}
