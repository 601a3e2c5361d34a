/** The event object and the listener list that a dispatch works on in place. Each method makes on the
    object the change that the step functions make on values. */
module EventObjects {
  import opened Wrappers
  import opened EventPath
  import opened Dispatch

  class EventImpl {
    const eventType: EventType
    const bubbles: bool
    const initialized: bool
    var dispatching: bool
    var phase: Phase
    var target: Option<Node>
    var related: Option<Node>
    var currentTarget: Option<Node>
    var path: seq<Struct>
    var stop: bool
    var stopNow: bool

    ghost function State(): EventState
      reads this
    {
      EventState(eventType, bubbles, initialized, dispatching, phase, target, related, currentTarget, path,
                 stop, stopNow)
    }

    constructor (t: EventType, bubbles: bool, related: Option<Node>)
      ensures State() == NewEvent(t, bubbles, related)
    {
      this.eventType, this.bubbles, this.initialized := t, bubbles, true;
      this.related := related;
      dispatching, phase, path, stop, stopNow := false, NoPhase, [], false, false;
      target, currentTarget := None, None;
    }

    method StopPropagation()
      modifies this
      ensures State() == old(State()).(stop := true)
    {
      stop := true;
    }

    method StopImmediatePropagation()
      modifies this
      ensures State() == old(State()).(stop := true, stopNow := true)
    {
      stop := true;
      stopNow := true;
    }

    method AppendToEventPath(dom: Tree, item: Node, shown: Option<Node>, rel: Option<Node>, slotInClosedTree: bool)
      modifies this`path
      ensures var s := Struct(item, shown, rel, dom.inShadowTree(item), slotInClosedTree);
              State() == old(State()).(path := old(path) + [s])
    {
      path := path + [Struct(item, shown, rel, dom.inShadowTree(item), slotInClosedTree)];
    }

    /** Climbs from the target and pushes one struct per parent; fails when an assigned node's parent is no slot. */
    method PopulatePath(dom: Tree, start: Node) returns (ok: bool)
      requires path == []
      modifies this`path
      ensures State() == old(State()).(path := path)
      ensures BuildPath(dom, related, start) == if ok then Ok(path) else Err(ExpectedSlot(path))
    {
      var inner := start;
      AppendToEventPath(dom, start, Some(start), dom.retarget(related, start), false);
      assert path == [TargetStruct(dom, related, start)];
      var slotable := dom.isAssigned(start);
      var parent := dom.parent(start);
      while parent.Some?
        invariant BuildPath(dom, related, start) == PathFrom(dom, related, inner, parent, slotable, path)
        decreases if parent.Some? then dom.depth(parent.value) + 1 else 0
      {
        var p := parent.value;
        var slotInClosedTree := false;
        if slotable {
          if !dom.isSlot(p) { return false; }
          slotInClosedTree := dom.inClosedTree(p);
        }
        slotable := dom.isAssigned(p);
        var rel := dom.retarget(related, p);
        if dom.sameTree(inner, p) {
          AppendToEventPath(dom, p, None, rel, slotInClosedTree);
          parent := dom.parent(p);
        } else if parent == rel {
          parent := None;
        } else {
          inner := p;
          AppendToEventPath(dom, p, Some(p), rel, slotInClosedTree);
          parent := dom.parent(p);
        }
      }
      ok := true;
    }

    /** The scan for the clear-targets struct, from the root end down. */
    method FindLastShown() returns (s: Struct)
      requires |path| > 0 && path[0].target.Some?
      ensures s == LastShown(path)
    {
      var i := |path| - 1;
      assert path[..i + 1] == path;
      while path[i].target.None?
        invariant 0 <= i < |path|
        invariant LastShown(path) == LastShown(path[..i + 1])
        decreases i
      {
        assert path[..i + 1][..i] == path[..i];
        i := i - 1;
      }
      s := path[i];
      assert path[..i + 1][i] == s;
    }

    /** Everything up to the first listener. */
    method BeginDispatch(dom: Tree, start: Node) returns (running: bool, clears: bool)
      requires !dispatching ==> path == []
      modifies this
      ensures match Start(old(State()), dom, start)
              case Refused => !running && State() == old(State())
              case SlotFailure(ev) => !running && State() == ev
              case NoPath(ev) => !running && State() == ev
              case Running(ev, c) => running && clears == c && State() == ev
    {
      running, clears := false, false;
      if dispatching || !initialized || phase != NoPhase { return; }
      dispatching := true;
      if Some(start) == dom.retarget(related, start) && Some(start) != related {
        EndDispatch(false);
        return;
      }
      running := PopulatePath(dom, start);
      if running {
        var s := FindLastShown();
        clears := ClearsTargets(dom, s);
      }
    }

    /** A struct's turn up to its first handler: its phase, its visible target, its related target, and,
        unless propagation was stopped, its item as the current target. */
    method OpenStruct(pass: Pass, i: nat) returns (serve: bool)
      requires i < |path| && path[0].target.Some?
      modifies this
      ensures serve == !old(stop) && path == old(path)
      ensures var s := old(path)[i];
              State() == old(State()).(
                phase := PhaseOf(pass, s), target := VisibleTarget(path, i), related := s.related,
                                       currentTarget := if serve then Some(s.item) else old(currentTarget))
    {
      var s := path[i];
      phase := if s.target.Some? then AtTarget else if pass == Capturing then CapturingPhase else BubblingPhase;
      var j := i;
      while path[j].target.None?
        invariant 0 <= j <= i
        invariant VisibleTarget(path, i) == VisibleTarget(path, j)
        decreases j
      {
        j := j - 1;
      }
      target := path[j].target;
      related := s.related;
      serve := !stop;
      if serve {
        currentTarget := Some(s.item);
      }
    }

    method EndDispatch(clears: bool)
      modifies this
      ensures State() == Reset(old(State()), clears)
    {
      phase := NoPhase;
      currentTarget := None;
      path := [];
      dispatching := false;
      stop := false;
      stopNow := false;
      if clears {
        target := None;
        related := None;
      }
    }
  }

  class ListenerList {
    var items: seq<Listener>

    constructor ()
      ensures items == []
    {
      items := [];
    }

    method Push(l: Listener)
      modifies this
      ensures items == old(items) + [l]
    {
      items := items + [l];
    }

    /** splice(indexOf(l), 1) */
    method Splice(l: Listener)
      modifies this
      ensures items == RemoveFirst(old(items), l)
    {
      var i := 0;
      while i < |items| && items[i] != l
        invariant 0 <= i <= |items| && items == old(items)
        invariant RemoveFirst(items, l) == items[..i] + RemoveFirst(items[i..], l)
      {
        assert items[i..][1..] == items[i + 1..];
        i := i + 1;
      }
      if i < |items| {
        assert items[i..][1..] == items[i + 1..];
        items := items[..i] + items[i + 1..];
      }
    }

    /** One copied handler's turn: is it called? A once listener is gone before its callback runs. */
    method TakeTurn(l: Listener, pass: Pass) returns (call: bool)
      modifies this
      ensures call <==> l in old(items) && l.capture == pass.Capturing?
      ensures items == if call && l.once then RemoveFirst(old(items), l) else old(items)
    {
      call := false;
      if l !in items { return; }
      if (pass == Capturing && !l.capture) || (pass == Bubbling && l.capture) { return; }
      if l.once {
        Splice(l);
      }
      call := true;
    }
  }
}
