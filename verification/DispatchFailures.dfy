/** When an event gets stuck: its path could not be built, and it kept its dispatch flag. */
module DispatchFailures {
  import opened Wrappers
  import opened EventPath
  import opened Dispatch
  import opened DispatchInvariants
  import opened DispatchOrder

  /** The event is accepted, and there is a path to build. */
  predicate NeedsPath(ev: EventState, dom: Tree, target: Node) {
    && !ev.dispatching && ev.initialized && ev.phase == NoPhase
    && !(Some(target) == dom.retarget(ev.related, target) && Some(target) != ev.related)
  }

  /** A dispatch leaves its event stuck exactly when a node on the way up is assigned to a slot that is not its
      parent. */
  lemma DispatchFailsExactly(w: World, e: EventId, dom: Tree, target: Node)
    requires Inv(w) && e in w.events && e !in w.failed
    ensures e in Step(w, Dispatch(e, dom, target)).failed <==>
            && NeedsPath(w.events[e], dom, target)
            && exists n :: n in Climb(dom, w.events[e].related, target, target) && Misplaced(dom, n)
  {
    BuildPathFailsExactly(dom, w.events[e].related, target);
  }

  lemma StepKeepsFailed(w: World, a: Action)
    ensures w.failed <= Step(w, a).failed
    ensures a.Dispatch? || Step(w, a).failed == w.failed
  {}

  /** A stuck event is stuck for good: every later dispatch of it is refused. */
  lemma {:induction false} StuckForGood(w: World, actions: seq<Action>, e: EventId, dom: Tree, target: Node)
    requires Inv(w) && e in w.failed
    ensures var w1 := Run(w, actions); e in w1.failed && e in w1.events && Start(w1.events[e], dom, target).Refused?
  {
    RunKeepsInv(w, actions);
    if actions != [] {
      StuckForGood(w, actions[..|actions| - 1], e, dom, target);
      StepKeepsFailed(Run(w, actions[..|actions| - 1]), actions[|actions| - 1]);
    }
  }

  /** Every assigned node has a slot for its parent, as the document guarantees it. */
  ghost predicate WellSlotted(dom: Dom) { forall n {:trigger dom.isAssigned(n)} :: !Misplaced(dom, n) }

  ghost predicate InWellSlottedTree(a: Action) { a.Dispatch? ==> WellSlotted(a.dom) }

  /** In trees like that no event gets stuck: it is idle, or has a dispatch in flight, which will reset it. */
  lemma {:induction false} WellSlottedNeverSticks(actions: seq<Action>)
    requires forall k :: 0 <= k < |actions| ==> InWellSlottedTree(actions[k])
    ensures var w := Run(EMPTY, actions);
            w.failed == {} && forall e :: e in w.events ==> Idle(w.events[e]) || e in w.tasks
  {
    RunKeepsInv(EMPTY, actions);
    if actions != [] {
      var front, a := actions[..|actions| - 1], actions[|actions| - 1];
      WellSlottedNeverSticks(front);
      RunKeepsInv(EMPTY, front);
      StepNeverSticks(Run(EMPTY, front), a);
    }
    var w1 := Run(EMPTY, actions);
    forall e | e in w1.events ensures Idle(w1.events[e]) || e in w1.tasks { assert e !in w1.failed; }
  }

  lemma StepNeverSticks(w: World, a: Action)
    requires Inv(w) && w.failed == {} && InWellSlottedTree(a)
    ensures Step(w, a).failed == {}
  {
    StepKeepsFailed(w, a);
    if a.Dispatch? && a.e in w.events {
      DispatchFailsExactly(w, a.e, a.dom, a.target);
      assert Step(w, a).failed <= {a.e};
    }
  }

  /** Node 0 is assigned, and its parent, node 1, is no slot. */
  const MISPLACED: Tree :=
    Dom(n => if n == 0 then Some(1) else None, n => if n == 0 then 1 else 0, n => false, n => n == 0,
        n => false, n => false, (n, m) => true, (r, n) => None)

  lemma MisplacedNodeSticks(t: EventType, bubbles: bool)
    ensures 0 in Run(EMPTY, [Create(0, t, bubbles, None), Dispatch(0, MISPLACED, 0)]).failed
  {
    var create, dispatch := Create(0, t, bubbles, None), Dispatch(0, MISPLACED, 0);
    assert [create, dispatch][..1] == [create] && [create][..0] == [];
    var w := Run(EMPTY, [create]);
    assert w == Step(Run(EMPTY, []), create);
    RunKeepsInv(EMPTY, [create]);
    assert Climb(MISPLACED, None, 0, 0)[0] == 0;
    DispatchFailsExactly(w, 0, MISPLACED, 0);
  }
}
