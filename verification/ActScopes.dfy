/** The scopes of `act`: a shared depth, an environment flag and an error handler, under any interleaving
    of asynchronous scopes. Only these scopes write the flag. */
module ActScopes {
  type ScopeId = nat
  type Error = nat

  datatype Flag = Unset | On | Off

  /** What a scope remembers from its start. */
  datatype Scope = Scope(previousFlag: Flag, previousDepth: int, resumed: bool)

  /** `open` lists the unfinished scopes in the order they started, `started` has all scopes so far. These, the
      last three sequences and the two counts only record what happened: errors reported, rethrown, and dropped
      because the overlap error was thrown in their place; overlap errors raised; and finishes of a scope that
      was not the last one started. */
  datatype State = State(
    depth: int, flag: Flag, handlers: set<ScopeId>, thrownErrors: seq<Error>, scopes: map<ScopeId, Scope>,
    open: seq<ScopeId>, started: set<ScopeId>, reported: seq<Error>, rethrown: seq<Error>, dropped: seq<Error>,
    overlapErrors: nat, outOfOrder: nat)

  datatype Event =
    | Start(id: ScopeId)                // each call of act is a scope of its own
    | Resume(id: ScopeId)               // after the first await: register the handler
    | Uncaught(error: Error)            // an error reaches the global handlers
    | Finish(id: ScopeId, failed: bool) // the scope's work is done, or threw

  function Initial(flag: Flag): State { State(0, flag, {}, [], map[], [], {}, [], [], [], 0, 0) }

  function Without(s: seq<ScopeId>, id: ScopeId): seq<ScopeId> {
    if s == [] then [] else if s[|s| - 1] == id then s[..|s| - 1] else Without(s[..|s| - 1], id) + [s[|s| - 1]]
  }

  function Copies(error: Error, n: nat): seq<Error> { if n == 0 then [] else Copies(error, n - 1) + [error] }

  predicate Enabled(s: State, e: Event) {
    match e
    case Start(id) => id !in s.started
    case Resume(id) => id in s.scopes && !s.scopes[id].resumed
    case Uncaught(_) => true
    case Finish(id, _) => id in s.scopes && s.scopes[id].resumed
  }

  function StartScope(s: State, id: ScopeId): State {
    s.(depth := s.depth + 1,
       flag := if s.depth + 1 == 1 then Off else s.flag,
       scopes := s.scopes[id := Scope(s.flag, s.depth, false)],
       open := s.open + [id],
       started := s.started + {id})
  }

  function ResumeScope(s: State, id: ScopeId): State
    requires id in s.scopes
  {
    s.(handlers := if s.depth == 1 then s.handlers + {id} else s.handlers,
       scopes := s.scopes[id := s.scopes[id].(resumed := true)])
  }

  /** Every registered handler records the error. */
  function Report(s: State, error: Error): State {
    var copies := Copies(error, |s.handlers|);
    s.(thrownErrors := s.thrownErrors + copies, reported := s.reported + copies)
  }

  function FinishScope(s: State, id: ScopeId, failed: bool): State
    requires id in s.scopes
  {
    var last := s.depth == 1;
    var overlap := s.depth - 1 != s.scopes[id].previousDepth;
    s.(depth := s.depth - 1,
       flag := if last then s.scopes[id].previousFlag else s.flag,
       handlers := if last then s.handlers - {id} else s.handlers,
       thrownErrors := if failed then s.thrownErrors else [],
       rethrown := if failed || overlap then s.rethrown else s.rethrown + s.thrownErrors,
       dropped := if failed || !overlap then s.dropped else s.dropped + s.thrownErrors,
       scopes := s.scopes - {id},
       open := Without(s.open, id),
       overlapErrors := if overlap then s.overlapErrors + 1 else s.overlapErrors,
       outOfOrder := if s.open != [] && s.open[|s.open| - 1] == id then s.outOfOrder else s.outOfOrder + 1)
  }

  function Step(s: State, e: Event): State {
    if !Enabled(s, e) then s
    else
      match e
      case Start(id) => StartScope(s, id)
      case Resume(id) => ResumeScope(s, id)
      case Uncaught(error) => Report(s, error)
      case Finish(id, failed) => FinishScope(s, id, failed)
  }

  function Run(s: State, events: seq<Event>): State {
    if events == [] then s else Step(Run(s, events[..|events| - 1]), events[|events| - 1])
  }

  // ----- What every step keeps -----

  ghost predicate Distinct(s: seq<ScopeId>) { forall j, k :: 0 <= j < k < |s| ==> s[j] != s[k] }

  ghost predicate Counted(s: State) {
    && s.depth == |s.open| && Distinct(s.open)
    && (forall id :: id in s.scopes <==> id in s.open) && s.scopes.Keys <= s.started
    && multiset(s.reported) == multiset(s.rethrown) + multiset(s.dropped) + multiset(s.thrownErrors)
    && (s.overlapErrors == 0 ==> s.dropped == [])
    && (s.dropped == [] ==> s.reported == s.rethrown + s.thrownErrors)
  }

  /** As long as scopes finished in order: each scope remembers its place, only the outermost one can have
      registered a handler, and it remembers the initial flag. */
  ghost predicate Nested(s: State, flag: Flag) {
    && (forall k {:trigger s.open[k]} :: 0 <= k < |s.open| ==>
          s.open[k] in s.scopes && s.scopes[s.open[k]].previousDepth == k)
    && s.handlers <= (if s.open == [] then {} else {s.open[0]})
    && (if s.open == [] then s.flag == flag else s.open[0] in s.scopes && s.scopes[s.open[0]].previousFlag == flag)
  }

  ghost predicate Inv(s: State, flag: Flag) {
    && Counted(s)
    && (s.overlapErrors == 0 <==> s.outOfOrder == 0)
    && (s.outOfOrder == 0 ==> Nested(s, flag))
  }

  lemma {:induction false} WithoutRemoves(s: seq<ScopeId>, id: ScopeId)
    requires Distinct(s)
    ensures Distinct(Without(s, id))
    ensures forall x :: x in Without(s, id) <==> x in s && x != id
    ensures id in s ==> |Without(s, id)| == |s| - 1
  {
    if s != [] {
      var front, last := s[..|s| - 1], s[|s| - 1];
      assert s == front + [last];
      assert last !in front;
      if last != id {
        WithoutRemoves(front, id);
        assert forall x :: x in Without(s, id) <==> x in Without(front, id) || x == last;
      }
    }
  }

  lemma FinishKeepsInv(s: State, id: ScopeId, failed: bool, flag: Flag)
    requires Inv(s, flag) && id in s.scopes
    ensures Inv(FinishScope(s, id, failed), flag)
  {
    var s1 := FinishScope(s, id, failed);
    WithoutRemoves(s.open, id);
    assert s.rethrown + s.thrownErrors + [] == s.rethrown + s.thrownErrors;
    if s.outOfOrder == 0 {
      var k :| 0 <= k < |s.open| && s.open[k] == id;
      if k == |s.open| - 1 {
        LastLeavesNested(s, id, failed, flag);
      } else {
        assert s.open[|s.open| - 1] != id;
      }
    }
  }

  lemma LastLeavesNested(s: State, id: ScopeId, failed: bool, flag: Flag)
    requires Counted(s) && Nested(s, flag) && id in s.scopes && s.open != [] && s.open[|s.open| - 1] == id
    ensures Nested(FinishScope(s, id, failed), flag)
  {
    assert FinishScope(s, id, failed).open == s.open[..|s.open| - 1];
  }

  lemma StartKeepsInv(s: State, id: ScopeId, flag: Flag)
    requires Inv(s, flag) && id !in s.started
    ensures Inv(StartScope(s, id), flag)
  {
    assert forall k :: 0 <= k < |s.open| ==> s.open[k] in s.open && s.open[k] != id;
  }

  lemma ReportKeepsInv(s: State, error: Error, flag: Flag)
    requires Inv(s, flag)
    ensures Inv(Report(s, error), flag)
  {
    var copies := Copies(error, |s.handlers|);
    assert s.rethrown + (s.thrownErrors + copies) == (s.rethrown + s.thrownErrors) + copies;
  }

  lemma StepKeepsInv(s: State, e: Event, flag: Flag)
    requires Inv(s, flag)
    ensures Inv(Step(s, e), flag)
  {
    if Enabled(s, e) {
      match e
      case Start(id) => StartKeepsInv(s, id, flag);
      case Resume(id) =>
      case Uncaught(error) => ReportKeepsInv(s, error, flag);
      case Finish(id, failed) => FinishKeepsInv(s, id, failed, flag);
    }
  }

  lemma {:induction false} RunKeepsInv(flag: Flag, events: seq<Event>)
    ensures Inv(Run(Initial(flag), events), flag)
  {
    if events != [] {
      RunKeepsInv(flag, events[..|events| - 1]);
      StepKeepsInv(Run(Initial(flag), events[..|events| - 1]), events[|events| - 1], flag);
    }
  }

  // ----- Over every interleaving -----

  /** The depth is the number of scopes that started and have not finished. */
  lemma DepthCountsOpenScopes(flag: Flag, events: seq<Event>)
    ensures var s := Run(Initial(flag), events);
            s.depth == |s.open| && Distinct(s.open) && forall id :: id in s.scopes <==> id in s.open
  {
    RunKeepsInv(flag, events);
  }

  /** No overlap error is raised exactly when every scope that finished was the last one started. */
  lemma OverlapErrorsAreExactlyOutOfOrder(flag: Flag, events: seq<Event>)
    ensures var s := Run(Initial(flag), events); s.overlapErrors == 0 <==> s.outOfOrder == 0
  {
    RunKeepsInv(flag, events);
  }

  /** Without overlap errors, once all scopes have finished, the flag is as it was and no handler is left. */
  lemma FinishedScopesCleanUp(flag: Flag, events: seq<Event>)
    requires Run(Initial(flag), events).overlapErrors == 0 && Run(Initial(flag), events).open == []
    ensures var s := Run(Initial(flag), events); s.depth == 0 && s.flag == flag && s.handlers == {}
  {
    RunKeepsInv(flag, events);
  }

  // ----- Exactly what is left when all scopes have finished -----

  /** Event k is the end of a scope. */
  ghost predicate Ends(flag: Flag, events: seq<Event>, k: nat) {
    k < |events| && events[k].Finish? && Enabled(Run(Initial(flag), events[..k]), events[k])
  }

  /** A scope ends alone, and so restores the flag, although it did not start alone. */
  ghost predicate RestoresLate(flag: Flag, events: seq<Event>, k: nat) {
    Ends(flag, events, k) &&
    var s := Run(Initial(flag), events[..k]); s.depth == 1 && s.scopes[events[k].id].previousDepth != 0
  }

  /** The scope ends while others run, and so keeps its handler. */
  ghost predicate Abandons(flag: Flag, events: seq<Event>, k: nat, id: ScopeId) {
    Ends(flag, events, k) && events[k].id == id &&
    var s := Run(Initial(flag), events[..k]); s.depth != 1 && id in s.handlers
  }

  ghost predicate EverRestoresLate(flag: Flag, events: seq<Event>) { exists k :: RestoresLate(flag, events, k) }

  ghost predicate EverAbandons(flag: Flag, events: seq<Event>, id: ScopeId) {
    exists k :: Abandons(flag, events, k, id)
  }

  /** The flag is Off while scopes are open; between them it is Off for good once restored late. A scope that
      started alone remembers the flag from between the scopes, any other one remembers Off. */
  ghost predicate FlagOk(s: State, between: Flag) {
    && s.flag == (if s.depth == 0 then between else Off)
    && forall id {:trigger s.scopes[id]} :: id in s.scopes ==>
         s.scopes[id].previousFlag == if s.scopes[id].previousDepth == 0 then between else Off
  }

  /** What happened at an earlier event does not depend on the last one. */
  lemma EarlierEvents(flag: Flag, front: seq<Event>, e: Event, k: nat)
    requires k < |front|
    ensures (front + [e])[..k] == front[..k] && (front + [e])[k] == front[k]
    ensures Ends(flag, front + [e], k) <==> Ends(flag, front, k)
    ensures RestoresLate(flag, front + [e], k) <==> RestoresLate(flag, front, k)
    ensures forall id :: Abandons(flag, front + [e], k, id) <==> Abandons(flag, front, k, id)
    ensures LosesErrors(flag, front + [e], k) <==> LosesErrors(flag, front, k)
  {}

  lemma RestoresLast(flag: Flag, front: seq<Event>, e: Event)
    ensures var events := front + [e];
            EverRestoresLate(flag, events) <==> EverRestoresLate(flag, front) || RestoresLate(flag, events, |front|)
  {
    forall k: nat | k < |front| ensures RestoresLate(flag, front + [e], k) <==> RestoresLate(flag, front, k) {
      EarlierEvents(flag, front, e, k);
    }
  }

  lemma AbandonsLast(flag: Flag, front: seq<Event>, e: Event)
    ensures var events := front + [e];
            forall id :: EverAbandons(flag, events, id) <==>
              EverAbandons(flag, front, id) || Abandons(flag, events, |front|, id)
  {
    forall k: nat, id | k < |front| ensures Abandons(flag, front + [e], k, id) <==> Abandons(flag, front, k, id) {
      EarlierEvents(flag, front, e, k);
    }
  }

  lemma {:induction false} FlagHistory(flag: Flag, events: seq<Event>)
    ensures FlagOk(Run(Initial(flag), events), if EverRestoresLate(flag, events) then Off else flag)
  {
    if events != [] {
      var front, e := events[..|events| - 1], events[|events| - 1];
      assert events == front + [e];
      FlagHistory(flag, front);
      RunKeepsInv(flag, front);
      RestoresLast(flag, front, e);
      assert events[..|front|] == front;
    }
  }

  lemma {:induction false} HandlerHistory(flag: Flag, events: seq<Event>)
    ensures var s := Run(Initial(flag), events);
            forall id :: (id in s.handlers && id !in s.scopes <==> EverAbandons(flag, events, id))
              && (id in s.handlers || EverAbandons(flag, events, id) ==> id in s.started)
  {
    if events != [] {
      var front, e := events[..|events| - 1], events[|events| - 1];
      assert events == front + [e];
      HandlerHistory(flag, front);
      RunKeepsInv(flag, front);
      AbandonsLast(flag, front, e);
      assert events[..|front|] == front;
      var s, s1 := Run(Initial(flag), front), Run(Initial(flag), events);
      assert s1 == Step(s, e);
      forall id
        ensures id in s1.handlers && id !in s1.scopes <==> EverAbandons(flag, events, id)
        ensures id in s1.handlers || EverAbandons(flag, events, id) ==> id in s1.started
      {
        assert EverAbandons(flag, events, id) <==> EverAbandons(flag, front, id) || Abandons(flag, events, |front|, id);
      }
    }
  }

  /** Once all scopes have finished, the flag is as it was exactly when it was Off at first or no scope that started
      inside another one was the last to end; and the handlers left are exactly those of scopes that
      registered one and ended before another open scope; and no error is held for the next scope exactly when none
      was recorded after the last scope that ended without failing. */
  lemma CleanUpIsExact(flag: Flag, events: seq<Event>)
    requires Run(Initial(flag), events).open == []
    ensures var s := Run(Initial(flag), events);
            && s.depth == 0
            && (s.flag == flag <==> flag == Off || forall k :: !RestoresLate(flag, events, k))
            && (forall id :: id in s.handlers <==> exists k :: Abandons(flag, events, k, id))
            && (s.thrownErrors == [] <==> forall k :: !HeldSince(flag, events, k))
  {
    RunKeepsInv(flag, events);
    HeldHistory(flag, events);
    FlagHistory(flag, events);
    HandlerHistory(flag, events);
  }

  // ----- What becomes of reported errors -----

  /** A scope that did not fail ends out of its place while errors are held: the overlap error replaces them. */
  ghost predicate LosesErrors(flag: Flag, events: seq<Event>, k: nat) {
    Ends(flag, events, k) && !events[k].failed &&
    var s := Run(Initial(flag), events[..k]);
    s.thrownErrors != [] && s.depth - 1 != s.scopes[events[k].id].previousDepth
  }

  /** At event k a handler records an error, and every scope that ends later fails. */
  ghost predicate HeldSince(flag: Flag, events: seq<Event>, k: nat) {
    && k < |events| && events[k].Uncaught? && Run(Initial(flag), events[..k]).handlers != {}
    && forall j :: k < j && Ends(flag, events, j) ==> events[j].failed
  }

  lemma {:induction false} LossHistory(flag: Flag, events: seq<Event>)
    ensures Run(Initial(flag), events).dropped == [] <==> forall k :: !LosesErrors(flag, events, k)
  {
    if events != [] {
      var front, e := events[..|events| - 1], events[|events| - 1];
      assert events == front + [e];
      LossHistory(flag, front);
      forall k: nat | k < |front| ensures LosesErrors(flag, events, k) <==> LosesErrors(flag, front, k) {
        EarlierEvents(flag, front, e, k);
      }
      LostNow(flag, front, e);
    }
  }

  lemma LostNow(flag: Flag, front: seq<Event>, e: Event)
    ensures var s, events := Run(Initial(flag), front), front + [e];
            && Run(Initial(flag), events) == Step(s, e)
            && (Step(s, e).dropped == [] <==> s.dropped == [] && !LosesErrors(flag, events, |front|))
  {
    assert (front + [e])[..|front|] == front;
  }

  lemma {:induction false} HeldHistory(flag: Flag, events: seq<Event>)
    ensures Run(Initial(flag), events).thrownErrors != [] <==> exists k :: HeldSince(flag, events, k)
  {
    if events != [] {
      var front, e := events[..|events| - 1], events[|events| - 1];
      assert events == front + [e];
      HeldHistory(flag, front);
      assert events[..|front|] == front;
      forall k: nat | k < |front| ensures Ends(flag, events, k) <==> Ends(flag, front, k) {
        EarlierEvents(flag, front, e, k);
      }
      forall k: nat | k < |front|
        ensures HeldSince(flag, events, k) <==>
                HeldSince(flag, front, k) && (Ends(flag, events, |front|) ==> e.failed)
      {
        HeldOneMore(flag, front, e, k);
      }
      HeldNow(flag, front, e);
    }
  }

  lemma HeldOneMore(flag: Flag, front: seq<Event>, e: Event, k: nat)
    requires k < |front|
    ensures HeldSince(flag, front + [e], k) <==>
            HeldSince(flag, front, k) && (Ends(flag, front + [e], |front|) ==> e.failed)
  {
    var events := front + [e];
    EarlierEvents(flag, front, e, k);
    forall j: nat | j < |front| ensures Ends(flag, events, j) <==> Ends(flag, front, j) {
      EarlierEvents(flag, front, e, j);
    }
  }

  /** An error is held after the last event exactly when it was held before and stays, or is recorded now. */
  lemma HeldNow(flag: Flag, front: seq<Event>, e: Event)
    ensures var s, events := Run(Initial(flag), front), front + [e];
            && Run(Initial(flag), events) == Step(s, e)
            && (HeldSince(flag, events, |front|) <==> e.Uncaught? && s.handlers != {})
            && (Step(s, e).thrownErrors != [] <==>
                  HeldSince(flag, events, |front|)
                  || (s.thrownErrors != [] && (Ends(flag, events, |front|) ==> e.failed)))
  {
    var s, events := Run(Initial(flag), front), front + [e];
    assert events[..|front|] == front;
    if e.Uncaught? { CopiesAre(e.error, |s.handlers|); }
  }

  /** An error that reaches the global handlers is recorded once by each of them. */
  lemma EveryHandlerRecords(s: State, error: Error)
    ensures var held := Step(s, Uncaught(error)).thrownErrors;
            && |held| == |s.thrownErrors| + |s.handlers| && s.thrownErrors <= held
            && forall k :: |s.thrownErrors| <= k < |held| ==> held[k] == error
  {
    CopiesAre(error, |s.handlers|);
  }

  lemma {:induction false} CopiesAre(error: Error, n: nat)
    ensures |Copies(error, n)| == n && forall k :: 0 <= k < n ==> Copies(error, n)[k] == error
  {
    if n > 0 { CopiesAre(error, n - 1); }
  }

  /** Every reported error is rethrown once, or still held, or was dropped once. Errors are dropped exactly when some
      scope that did not fail ends out of its place while errors are held; otherwise they are rethrown in order.
      Errors are still held exactly when one was recorded after the last scope that ended without failing. */
  lemma ErrorsAreConserved(flag: Flag, events: seq<Event>)
    ensures var s := Run(Initial(flag), events);
            && multiset(s.reported) == multiset(s.rethrown) + multiset(s.dropped) + multiset(s.thrownErrors)
            && (s.dropped == [] <==> forall k :: !LosesErrors(flag, events, k))
            && (s.overlapErrors == 0 ==> s.dropped == [])
            && (s.dropped == [] ==> s.reported == s.rethrown + s.thrownErrors)
            && (s.thrownErrors != [] <==> exists k :: HeldSince(flag, events, k))
  {
    RunKeepsInv(flag, events);
    LossHistory(flag, events);
    HeldHistory(flag, events);
  }

  /** With overlapping scopes the flag can stay off and a handler can stay registered for good: scope 2
      starts inside scope 1 and outlives it. */
  lemma OverlapCanLeak()
    ensures var inside := Step(Step(Step(Step(Initial(On), Start(1)), Resume(1)), Start(2)), Resume(2));
            var s := Step(Step(inside, Finish(1, false)), Finish(2, false));
            s.open == [] && s.overlapErrors > 0 && s.flag == Off && s.handlers == {1}
  {
    var s1 := Step(Initial(On), Start(1));
    assert s1 == State(1, Off, {}, [], map[1 := Scope(On, 0, false)], [1], {1}, [], [], [], 0, 0);
    var s2 := Step(s1, Resume(1));
    assert s2 == State(1, Off, {1}, [], map[1 := Scope(On, 0, true)], [1], {1}, [], [], [], 0, 0);
    var s3 := Step(s2, Start(2));
    assert s3 == State(2, Off, {1}, [], map[1 := Scope(On, 0, true), 2 := Scope(Off, 1, false)],
                       [1, 2], {1, 2}, [], [], [], 0, 0);
    var s4 := Step(s3, Resume(2));
    assert s4 == State(2, Off, {1}, [], map[1 := Scope(On, 0, true), 2 := Scope(Off, 1, true)],
                       [1, 2], {1, 2}, [], [], [], 0, 0);
    FirstLeaves(s4);
  }

  lemma FirstLeaves(s4: State)
    requires s4 == State(2, Off, {1}, [], map[1 := Scope(On, 0, true), 2 := Scope(Off, 1, true)],
                         [1, 2], {1, 2}, [], [], [], 0, 0)
    ensures var s := Step(Step(s4, Finish(1, false)), Finish(2, false));
            s.open == [] && s.overlapErrors > 0 && s.flag == Off && s.handlers == {1}
  {
    assert [1, 2][..1] == [1] && [1][..0] == [];
    assert Without([1], 1) == [];
    assert Without([1, 2], 1) == [2];
    var s5 := Step(s4, Finish(1, false));
    assert s5.open == [2] && s5.overlapErrors == 1 && s5.depth == 1 && s5.flag == Off && s5.handlers == {1};
    assert s5.scopes == map[2 := Scope(Off, 1, true)];
    assert [2][..0] == [];
  }

  lemma RunNext(s: State, events: seq<Event>, e: Event)
    ensures Run(s, events + [e]) == Step(Run(s, events), e)
  {
    assert (events + [e])[..|events|] == events;
  }

  lemma OneScope() returns (events: seq<Event>)
    ensures events == [Start(1), Resume(1)]
    ensures Run(Initial(On), events) == State(1, Off, {1}, [], map[1 := Scope(On, 0, true)], [1], {1}, [], [], [], 0, 0)
  {
    RunNext(Initial(On), [], Start(1));
    events := [] + [Start(1)];
    RunNext(Initial(On), events, Resume(1));
    events := events + [Resume(1)];
  }

  lemma TwoScopes() returns (events: seq<Event>)
    ensures events == [Start(1), Resume(1), Start(2), Resume(2)]
    ensures Run(Initial(On), events) == State(2, Off, {1}, [], map[1 := Scope(On, 0, true), 2 := Scope(Off, 1, true)],
                                              [1, 2], {1, 2}, [], [], [], 0, 0)
  {
    events := OneScope();
    RunNext(Initial(On), events, Start(2));
    events := events + [Start(2)];
    RunNext(Initial(On), events, Resume(2));
    events := events + [Resume(2)];
  }

  /** An error reported inside two scopes is lost when the outer one ends first. */
  lemma OverlapCanLoseAnError()
    ensures Run(Initial(On), [Start(1), Resume(1), Start(2), Resume(2), Uncaught(7), Finish(1, false)]).dropped == [7]
  {
    var events := TwoScopes();
    RunNext(Initial(On), events, Uncaught(7));
    CopiesAre(7, 1);
    assert Copies(7, 1) == Copies(7, 0) + [7] == [7];
    assert Run(Initial(On), events + [Uncaught(7)]).thrownErrors == [7];
    RunNext(Initial(On), events + [Uncaught(7)], Finish(1, false));
    assert events + [Uncaught(7)] + [Finish(1, false)]
           == [Start(1), Resume(1), Start(2), Resume(2), Uncaught(7), Finish(1, false)];
  }

  /** An error reported in a scope that then fails is still held when no scope is open. */
  lemma FailureLeavesAnErrorHeld()
    ensures var s := Run(Initial(On), [Start(1), Resume(1), Uncaught(7), Finish(1, true)]);
            s.open == [] && s.overlapErrors == 0 && s.thrownErrors == [7]
  {
    var events := OneScope();
    RunNext(Initial(On), events, Uncaught(7));
    var s3 := Run(Initial(On), events + [Uncaught(7)]);
    OneReport(Run(Initial(On), events), s3);
    RunNext(Initial(On), events + [Uncaught(7)], Finish(1, true));
    assert events + [Uncaught(7)] + [Finish(1, true)] == [Start(1), Resume(1), Uncaught(7), Finish(1, true)];
    FailedEnd(s3);
  }

  lemma OneReport(s2: State, s3: State)
    requires s2 == State(1, Off, {1}, [], map[1 := Scope(On, 0, true)], [1], {1}, [], [], [], 0, 0)
    requires s3 == Step(s2, Uncaught(7))
    ensures s3 == State(1, Off, {1}, [7], map[1 := Scope(On, 0, true)], [1], {1}, [7], [], [], 0, 0)
  {
    assert Copies(7, 1) == Copies(7, 0) + [7] == [7];
  }

  lemma FailedEnd(s3: State)
    requires s3 == State(1, Off, {1}, [7], map[1 := Scope(On, 0, true)], [1], {1}, [7], [], [], 0, 0)
    ensures var s := Step(s3, Finish(1, true)); s.open == [] && s.overlapErrors == 0 && s.thrownErrors == [7]
  {
    assert [1][..0] == [];
  }

  // ----- The module's variables, changed in place by each synchronous piece of a scope -----

  class Runtime {
    var actingUpdatesScopeDepth: int
    var isActEnvironment: Flag
    var handlers: set<ScopeId>
    var thrownErrors: seq<Error>

    constructor (flag: Flag)
      ensures Shows(Initial(flag))
    {
      actingUpdatesScopeDepth, isActEnvironment, handlers, thrownErrors := 0, flag, {}, [];
    }

    /** The variables have the values they have in `s`. */
    predicate Shows(s: State)
      reads this
    {
      && actingUpdatesScopeDepth == s.depth && isActEnvironment == s.flag
      && handlers == s.handlers && thrownErrors == s.thrownErrors
    }

    /** From the call up to the first await. */
    method Enter(id: ScopeId, ghost s: State) returns (scope: Scope)
      requires Shows(s) && Enabled(s, Start(id))
      modifies this
      ensures var s1 := Step(s, Start(id)); Shows(s1) && scope == s1.scopes[id]
    {
      scope := Scope(isActEnvironment, actingUpdatesScopeDepth, false);
      actingUpdatesScopeDepth := actingUpdatesScopeDepth + 1;
      if actingUpdatesScopeDepth == 1 {
        isActEnvironment := Off;
      }
    }

    /** After the first await. */
    method Listen(id: ScopeId, ghost s: State)
      requires Shows(s) && Enabled(s, Resume(id))
      modifies this
      ensures Shows(Step(s, Resume(id)))
    {
      if actingUpdatesScopeDepth == 1 {
        handlers := handlers + {id};
      }
    }

    /** Rethrowing and the `finally` block; `overlap` says that the overlap error is thrown instead. */
    method Leave(id: ScopeId, scope: Scope, failed: bool, ghost s: State) returns (overlap: bool, rethrown: seq<Error>)
      requires Shows(s) && Enabled(s, Finish(id, failed)) && scope == s.scopes[id]
      modifies this
      ensures var s1 := Step(s, Finish(id, failed));
              && Shows(s1) && s1.rethrown == s.rethrown + rethrown
              && (overlap <==> s1.overlapErrors == s.overlapErrors + 1)
    {
      rethrown := [];
      if !failed && |thrownErrors| > 0 {
        rethrown := thrownErrors;
        thrownErrors := [];
      }
      var depth := actingUpdatesScopeDepth;
      if depth == 1 {
        handlers := handlers - {id};
        isActEnvironment := scope.previousFlag;
      }
      actingUpdatesScopeDepth := depth - 1;
      overlap := actingUpdatesScopeDepth != scope.previousDepth;
      if overlap {
        rethrown := [];
      }
    }
  }
}
