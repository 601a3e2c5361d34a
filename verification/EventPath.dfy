/** Events and their paths: section 2.9 (Dispatching events) of the WHATWG DOM Standard, up to the first listener. */
module EventPath {
  import opened Wrappers

  type Node = nat
  type EventType = string

  /** What the dispatcher asks of the document at the moment a dispatch starts. `parent` is the
      get-the-parent algorithm; `depth` witnesses that following it ends. */
  datatype Dom = Dom(
    parent: Node -> Option<Node>,
    depth: Node -> nat,
    isSlot: Node -> bool,
    isAssigned: Node -> bool,
    inShadowTree: Node -> bool,
    inClosedTree: Node -> bool,
    sameTree: (Node, Node) -> bool, // the parent is a window, or holds the target's root in its tree
    retarget: (Option<Node>, Node) -> Option<Node>)
  {
    ghost predicate Acyclic() {
      forall n {:trigger parent(n)} :: parent(n).Some? ==> depth(parent(n).value) < depth(n)
    }
  }

  datatype Struct = Struct(item: Node, target: Option<Node>, related: Option<Node>, itemInShadowTree: bool,
                           slotInClosedTree: bool)

  datatype Phase = NoPhase | CapturingPhase | AtTarget | BubblingPhase

  datatype EventState = EventState(
    eventType: EventType, bubbles: bool, initialized: bool, dispatching: bool, phase: Phase,
    target: Option<Node>, related: Option<Node>, currentTarget: Option<Node>,
    path: seq<Struct>, stop: bool, stopNow: bool)

  datatype PathError = ExpectedSlot(built: seq<Struct>)

  // ----- Building the path -----

  function PathFrom(dom: Dom, related: Option<Node>, inner: Node, parent: Option<Node>, slotable: bool,
                    path: seq<Struct>):
      (r: Result<seq<Struct>, PathError>)
    requires dom.Acyclic()
    ensures r.Ok? ==> path <= r.value
    decreases if parent.Some? then dom.depth(parent.value) + 1 else 0
  {
    if parent.None? then Ok(path)
    else
      var p := parent.value;
      if slotable && !dom.isSlot(p) then Err(ExpectedSlot(path))
      else
        var slotInClosedTree := slotable && dom.inClosedTree(p);
        var rel := dom.retarget(related, p);
        if dom.sameTree(inner, p) then
          PathFrom(dom, related, inner, dom.parent(p), dom.isAssigned(p),
                   path + [Struct(p, None, rel, dom.inShadowTree(p), slotInClosedTree)])
        else if rel == Some(p) then Ok(path)
        else
          PathFrom(dom, related, p, dom.parent(p), dom.isAssigned(p),
                   path + [Struct(p, Some(p), rel, dom.inShadowTree(p), slotInClosedTree)])
  }

  function TargetStruct(dom: Dom, related: Option<Node>, target: Node): Struct {
    Struct(target, Some(target), dom.retarget(related, target), dom.inShadowTree(target), false)
  }

  function BuildPath(dom: Dom, related: Option<Node>, target: Node): (r: Result<seq<Struct>, PathError>)
    requires dom.Acyclic()
    ensures r.Ok? ==> |r.value| > 0 && r.value[0] == TargetStruct(dom, related, target)
  {
    PathFrom(dom, related, target, dom.parent(target), dom.isAssigned(target), [TargetStruct(dom, related, target)])
  }

  /** The structs climb from the target, each the parent of the one before, and each either hides its
      target or shows its own item. */
  ghost predicate Climbs(dom: Dom, target: Node, path: seq<Struct>) {
    && |path| > 0 && path[0].item == target && path[0].target == Some(target)
    && (forall k {:trigger path[k]} :: 0 <= k < |path| - 1 ==> dom.parent(path[k].item) == Some(path[k + 1].item))
    && (forall k {:trigger path[k].target} :: 0 <= k < |path| && path[k].target.Some? ==>
          path[k].target.value == path[k].item)
  }

  ghost predicate DistinctItems(path: seq<Struct>) {
    forall j, k {:trigger path[j], path[k]} :: 0 <= j < k < |path| ==> path[j].item != path[k].item
  }

  /** The path stops only where there is no parent, or the parent is what the related target looks like there. */
  ghost predicate Topped(dom: Dom, related: Option<Node>, path: seq<Struct>)
    requires |path| > 0
  {
    var top := dom.parent(path[|path| - 1].item);
    top.None? || dom.retarget(related, top.value) == top
  }

  lemma ClimbsOneMore(dom: Dom, target: Node, path: seq<Struct>, s: Struct)
    requires Climbs(dom, target, path) && dom.parent(path[|path| - 1].item) == Some(s.item)
    requires s.target.Some? ==> s.target.value == s.item
    ensures Climbs(dom, target, path + [s])
  {}

  lemma {:induction false} PathFromClimbs(dom: Dom, related: Option<Node>, target: Node, inner: Node,
                                          parent: Option<Node>, slotable: bool, path: seq<Struct>)
    requires dom.Acyclic() && Climbs(dom, target, path) && parent == dom.parent(path[|path| - 1].item)
    ensures var r := PathFrom(dom, related, inner, parent, slotable, path);
            r.Ok? ==> Climbs(dom, target, r.value) && Topped(dom, related, r.value)
    decreases if parent.Some? then dom.depth(parent.value) + 1 else 0
  {
    if parent.Some? {
      var p := parent.value;
      var hidden := Struct(p, None, dom.retarget(related, p), dom.inShadowTree(p), slotable && dom.inClosedTree(p));
      var shown := hidden.(target := Some(p));
      ClimbsOneMore(dom, target, path, hidden);
      ClimbsOneMore(dom, target, path, shown);
      if dom.sameTree(inner, p) {
        PathFromClimbs(dom, related, target, inner, dom.parent(p), dom.isAssigned(p), path + [hidden]);
      } else if dom.retarget(related, p) != Some(p) {
        PathFromClimbs(dom, related, target, p, dom.parent(p), dom.isAssigned(p), path + [shown]);
      }
    }
  }

  lemma {:induction false} DepthFalls(dom: Dom, target: Node, path: seq<Struct>, j: nat, k: nat)
    requires dom.Acyclic() && Climbs(dom, target, path) && j < k < |path|
    ensures dom.depth(path[k].item) < dom.depth(path[j].item)
  {
    assert dom.parent(path[k - 1].item) == Some(path[k].item);
    if j < k - 1 { DepthFalls(dom, target, path, j, k - 1); }
  }

  /** A built path starts at the target, which it shows, climbs parent by parent until there is no
      parent or the parent is the related target, and meets no node twice. */
  lemma BuiltPathClimbs(dom: Dom, related: Option<Node>, target: Node)
    requires dom.Acyclic() && BuildPath(dom, related, target).Ok?
    ensures var path := BuildPath(dom, related, target).value;
            Climbs(dom, target, path) && DistinctItems(path) && Topped(dom, related, path)
  {
    var path := BuildPath(dom, related, target).value;
    PathFromClimbs(dom, related, target, target, dom.parent(target), dom.isAssigned(target),
                   [TargetStruct(dom, related, target)]);
    forall j, k | 0 <= j < k < |path| ensures path[j].item != path[k].item {
      DepthFalls(dom, target, path, j, k);
    }
  }

  // ----- What each struct of a path holds -----

  /** Struct j is the nearest one below k that shows its target. */
  predicate NearestShown(path: seq<Struct>, j: nat, k: nat) {
    j < k <= |path| && path[j].target.Some? && forall i :: j < i < k ==> path[i].target.None?
  }

  /** Struct k hides its target exactly when it is in the same tree as the nearest shown target below it; it has the
      related target as seen from its node; and it knows whether it was entered through a slot of a closed tree. */
  ghost predicate StructOk(dom: Dom, related: Option<Node>, path: seq<Struct>, k: nat)
    requires k < |path|
  {
    var s := path[k];
    && s.related == dom.retarget(related, s.item) && s.itemInShadowTree == dom.inShadowTree(s.item)
    && (if k == 0 then s.target == Some(s.item) && !s.slotInClosedTree
        else
          && (s.slotInClosedTree <==> dom.isAssigned(path[k - 1].item) && dom.inClosedTree(s.item))
          && forall j: nat :: NearestShown(path, j, k) ==> (s.target.None? <==> dom.sameTree(path[j].item, s.item)))
  }

  ghost predicate StructsOk(dom: Dom, related: Option<Node>, path: seq<Struct>) {
    forall k: nat {:trigger StructOk(dom, related, path, k)} :: k < |path| ==> StructOk(dom, related, path, k)
  }

  lemma OneStructMore(dom: Dom, related: Option<Node>, path: seq<Struct>, j: nat, s: Struct)
    requires StructsOk(dom, related, path) && NearestShown(path, j, |path|)
    requires s.related == dom.retarget(related, s.item) && s.itemInShadowTree == dom.inShadowTree(s.item)
    requires s.slotInClosedTree <==> dom.isAssigned(path[|path| - 1].item) && dom.inClosedTree(s.item)
    requires s.target.None? <==> dom.sameTree(path[j].item, s.item)
    ensures StructsOk(dom, related, path + [s])
    ensures NearestShown(path + [s], if s.target.Some? then |path| else j, |path| + 1)
  {
    var path1 := path + [s];
    forall k: nat | k < |path1| ensures StructOk(dom, related, path1, k) {
      if k < |path| {
        assert StructOk(dom, related, path, k);
        forall i: nat | NearestShown(path1, i, k) ensures NearestShown(path, i, k) {
          assert forall h :: i < h < k ==> path[h] == path1[h];
        }
      } else {
        forall i: nat | NearestShown(path1, i, k) ensures i == j {
          assert path1[i] == path[i] && path1[j] == path[j];
        }
      }
    }
  }

  lemma {:induction false} PathFromStructs(dom: Dom, related: Option<Node>, inner: Node, path: seq<Struct>, j: nat)
    requires dom.Acyclic() && StructsOk(dom, related, path) && NearestShown(path, j, |path|) && path[j].item == inner
    ensures var node := path[|path| - 1].item;
            var r := PathFrom(dom, related, inner, dom.parent(node), dom.isAssigned(node), path);
            r.Ok? ==> StructsOk(dom, related, r.value)
    decreases dom.depth(path[|path| - 1].item)
  {
    var node := path[|path| - 1].item;
    if dom.parent(node).Some? && !Misplaced(dom, node) {
      var p := dom.parent(node).value;
      var slotInClosedTree := dom.isAssigned(node) && dom.inClosedTree(p);
      var shown := Struct(p, Some(p), dom.retarget(related, p), dom.inShadowTree(p), slotInClosedTree);
      if dom.sameTree(inner, p) {
        OneStructMore(dom, related, path, j, shown.(target := None));
        PathFromStructs(dom, related, inner, path + [shown.(target := None)], j);
      } else if dom.retarget(related, p) != Some(p) {
        OneStructMore(dom, related, path, j, shown);
        PathFromStructs(dom, related, p, path + [shown], |path|);
      }
    }
  }

  /** Every struct of a built path hides or shows its target, and holds what it must of its node. */
  lemma BuiltPathStructs(dom: Dom, related: Option<Node>, target: Node)
    requires dom.Acyclic() && BuildPath(dom, related, target).Ok?
    ensures var path := BuildPath(dom, related, target).value;
            forall k: nat :: k < |path| ==> StructOk(dom, related, path, k)
  {
    PathFromStructs(dom, related, target, [TargetStruct(dom, related, target)], 0);
  }

  // ----- When the path cannot be built -----

  /** The nodes that a path would hold from `node` on, if every assigned node had a slot for a parent. */
  function Climb(dom: Dom, related: Option<Node>, inner: Node, node: Node): seq<Node>
    requires dom.Acyclic()
    decreases dom.depth(node)
  {
    [node] +
    match dom.parent(node)
    case None => []
    case Some(p) =>
      if dom.sameTree(inner, p) then Climb(dom, related, inner, p)
      else if dom.retarget(related, p) == Some(p) then []
      else Climb(dom, related, p, p)
  }

  /** The node is assigned to a slot, and yet its parent for events is another node. */
  predicate Misplaced(dom: Dom, node: Node) {
    dom.isAssigned(node) && dom.parent(node).Some? && !dom.isSlot(dom.parent(node).value)
  }

  lemma {:induction false} PathFromFails(dom: Dom, related: Option<Node>, inner: Node, node: Node, path: seq<Struct>)
    requires dom.Acyclic()
    ensures PathFrom(dom, related, inner, dom.parent(node), dom.isAssigned(node), path).Err? <==>
            exists n :: n in Climb(dom, related, inner, node) && Misplaced(dom, n)
    decreases dom.depth(node)
  {
    var climb := Climb(dom, related, inner, node);
    assert climb[0] == node;
    if dom.parent(node).Some? && !Misplaced(dom, node) {
      var p := dom.parent(node).value;
      var slotInClosedTree := dom.isAssigned(node) && dom.inClosedTree(p);
      var shown := Struct(p, Some(p), dom.retarget(related, p), dom.inShadowTree(p), slotInClosedTree);
      if dom.sameTree(inner, p) {
        PathFromFails(dom, related, inner, p, path + [shown.(target := None)]);
      } else if dom.retarget(related, p) != Some(p) {
        PathFromFails(dom, related, p, p, path + [shown]);
      }
    }
  }

  /** Building a path fails exactly when some node on the way up is assigned to a slot that is not its parent. */
  lemma BuildPathFailsExactly(dom: Dom, related: Option<Node>, target: Node)
    requires dom.Acyclic()
    ensures BuildPath(dom, related, target).Err? <==>
            exists n :: n in Climb(dom, related, target, target) && Misplaced(dom, n)
  {
    PathFromFails(dom, related, target, target, [TargetStruct(dom, related, target)]);
  }

  function Items(path: seq<Struct>): seq<Node> { seq(|path|, k requires 0 <= k < |path| => path[k].item) }

  lemma {:induction false} PathFromItems(dom: Dom, related: Option<Node>, inner: Node, node: Node, path: seq<Struct>,
                                         below: seq<Node>)
    requires dom.Acyclic() && Items(path) == below + [node]
    ensures var r := PathFrom(dom, related, inner, dom.parent(node), dom.isAssigned(node), path);
            r.Ok? ==> Items(r.value) == below + Climb(dom, related, inner, node)
    decreases dom.depth(node)
  {
    if dom.parent(node).Some? && !Misplaced(dom, node) {
      var p := dom.parent(node).value;
      var slotInClosedTree := dom.isAssigned(node) && dom.inClosedTree(p);
      var shown := Struct(p, Some(p), dom.retarget(related, p), dom.inShadowTree(p), slotInClosedTree);
      if dom.sameTree(inner, p) {
        OneItemMore(path, shown.(target := None), below + [node]);
        PathFromItems(dom, related, inner, p, path + [shown.(target := None)], below + [node]);
        Associate(below, node, Climb(dom, related, inner, p));
      } else if dom.retarget(related, p) != Some(p) {
        OneItemMore(path, shown, below + [node]);
        PathFromItems(dom, related, p, p, path + [shown], below + [node]);
        Associate(below, node, Climb(dom, related, p, p));
      }
    }
  }

  lemma OneItemMore(path: seq<Struct>, s: Struct, items: seq<Node>)
    requires Items(path) == items
    ensures Items(path + [s]) == items + [s.item]
  {}

  lemma Associate(below: seq<Node>, node: Node, above: seq<Node>)
    ensures (below + [node]) + above == below + ([node] + above)
  {}

  /** A path that is built holds exactly the nodes of the climb, in order. */
  lemma BuiltPathIsClimb(dom: Dom, related: Option<Node>, target: Node)
    requires dom.Acyclic() && BuildPath(dom, related, target).Ok?
    ensures Items(BuildPath(dom, related, target).value) == Climb(dom, related, target, target)
  {
    PathFromItems(dom, related, target, target, [TargetStruct(dom, related, target)], []);
  }

  // ----- The backward scans -----

  /** The target that listeners of struct i see: the nearest one at or below it. */
  function VisibleTarget(path: seq<Struct>, i: nat): Option<Node>
    requires i < |path|
  {
    if path[i].target.Some? then path[i].target
    else if i == 0 then None
    else VisibleTarget(path, i - 1)
  }

  /** Because the first struct shows its target, the scan succeeds and finds the nearest target. */
  lemma {:induction false} VisibleTargetIsNearest(path: seq<Struct>, i: nat) returns (j: nat)
    requires i < |path| && path[0].target.Some?
    ensures j <= i && path[j].target.Some? && VisibleTarget(path, i) == path[j].target
    ensures forall k :: j < k <= i ==> path[k].target.None?
  {
    if path[i].target.Some? {
      j := i;
    } else {
      j := VisibleTargetIsNearest(path, i - 1);
    }
  }

  function LastShown(path: seq<Struct>): Struct
    requires |path| > 0 && path[0].target.Some?
  {
    if path[|path| - 1].target.Some? then path[|path| - 1] else LastShown(path[..|path| - 1])
  }

  /** The scan from the root end finds the outermost struct with a target. */
  lemma {:induction false} LastShownIsOutermost(path: seq<Struct>) returns (j: nat)
    requires |path| > 0 && path[0].target.Some?
    ensures j < |path| && path[j].target.Some? && LastShown(path) == path[j]
    ensures forall k :: j < k < |path| ==> path[k].target.None?
  {
    j := |path| - 1;
    if path[j].target.None? {
      j := LastShownIsOutermost(path[..j]);
    }
  }

  predicate ClearsTargets(dom: Dom, s: Struct) {
    || (s.target.Some? && dom.inShadowTree(s.target.value))
    || (s.related.Some? && dom.inShadowTree(s.related.value))
  }

  // ----- Starting and finishing a dispatch -----

  datatype Started =
    | Refused                                   // InvalidStateError, nothing changed
    | SlotFailure(e: EventState)                // the internal error: the event is left as it was then
    | NoPath(e: EventState)                     // target and related target coincide: done at once
    | Running(e: EventState, clears: bool)

  function Reset(e: EventState, clears: bool): EventState {
    var e1 := e.(phase := NoPhase, currentTarget := None, path := [], dispatching := false,
                 stop := false, stopNow := false);
    if clears then e1.(target := None, related := None) else e1
  }

  function Start(e: EventState, dom: Dom, target: Node): Started
    requires dom.Acyclic()
  {
    if e.dispatching || !e.initialized || e.phase != NoPhase then Refused
    else
      var e1 := e.(dispatching := true);
      if Some(target) == dom.retarget(e.related, target) && Some(target) != e.related then NoPath(Reset(e1, false))
      else
        match BuildPath(dom, e.related, target)
        case Err(ExpectedSlot(built)) => SlotFailure(e1.(path := built))
        case Ok(path) => Running(e1.(path := path), ClearsTargets(dom, LastShown(path)))
  }

  /** A dispatch is refused exactly when the event is not at rest. Otherwise it is over at once exactly when the
      target is what its related target looks like from there, and not the related target itself; else it fails or
      runs as building the path does. It will clear the targets exactly when the outermost struct that shows its
      target has one of the two in a shadow tree. */
  lemma StartExactly(e: EventState, dom: Dom, target: Node)
    requires dom.Acyclic()
    ensures var atRest := !e.dispatching && e.initialized && e.phase == NoPhase;
            var coincide := dom.retarget(e.related, target) == Some(target) && e.related != Some(target);
            match Start(e, dom, target)
            case Refused => !atRest
            case NoPath(ev) =>
              atRest && coincide
              && ev == e.(phase := NoPhase, currentTarget := None, path := [], stop := false, stopNow := false)
            case SlotFailure(ev) =>
              atRest && !coincide && BuildPath(dom, e.related, target) == Err(ExpectedSlot(ev.path))
              && ev == e.(dispatching := true, path := ev.path)
            case Running(ev, clears) =>
              atRest && !coincide && BuildPath(dom, e.related, target) == Ok(ev.path)
              && ev == e.(dispatching := true, path := ev.path)
              && forall j: nat :: NearestShown(ev.path, j, |ev.path|) ==>
                   (clears <==>
                     || dom.inShadowTree(ev.path[j].target.value)
                     || (ev.path[j].related.Some? && dom.inShadowTree(ev.path[j].related.value)))
  {
    if Start(e, dom, target).Running? {
      var path := Start(e, dom, target).e.path;
      var i := LastShownIsOutermost(path);
      forall j: nat | NearestShown(path, j, |path|) ensures j == i {}
    }
  }
}
