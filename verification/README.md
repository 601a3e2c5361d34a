# Verified models of the repository's tools and runtime helpers

This project models nine pieces of the repository whose correctness is not visible from any one function body,
and proves what they are for. Each piece has its own modules; `Wrappers` and `Text` hold what they share.

**Loop guard** (`LoopLanguage`, `LoopGuard`, `LoopGuardRefinement`, `LoopGuardTheorems`, `LoopGuardCounts`,
`LoopGuardNames`, `LoopGuardVisitor`). The Babel plugin gives every loop a counter and makes its body fail once the
counter passes a limit. The modelled language has assignments, blocks, `if`, `while`, `do`-`while`, `for`, labels, `break`, `continue`,
`throw`, `try`/`catch` and `try`/`finally`; `Exec` gives its meaning with fuel, where `Timeout` stands for a run that
has not ended yet. `Limited` is the intended meaning of a guarded program, written without counters and by plain
recursion: each entry of a loop may start limit + 1 bodies. Everything follows from the refinement of `Limited` by the
rewritten program. The guard compares before it increments (`iterator++ > max`), so limit + 1 bodies pass.

**Event dispatch** (`EventPath`, `Dispatch`, `DispatchInvariants`, `DispatchOrder`, `DispatchTheorems`,
`DispatchStops`, `DispatchProgress`, `DispatchFailures`, `EventObjects`). The forked DOM dispatch that yields to
microtasks between handlers, after section 2.9 of the WHATWG DOM Standard. A world holds listener lists, events and any number of dispatches in flight. One action is one
synchronous piece: a dispatch moving on, a callback or anybody else adding or removing a listener, setting a stop flag
or starting another dispatch. A run is any list of actions, so the theorems hold for every interleaving.
`EventObjects` holds the same operations on objects whose fields and arrays are changed in place.

**Gate pragma** (`GateTokens`, `GateGrammar`, `GateParser`, `GatePrinter`, `GateTexts`, `GateCondition`). The tokenizer and the
recursive-descent parser of `@gate` comments. The grammar is a datatype of derivation trees with the tokens each one
derives; the parser is compared with it, not with itself.

**Printer and diff** (`PropertyPrinter`, `PropertyReader`, `PropertyReading`, `PropertyDiff`, `PropertyDiffLines`,
`PropertyDiffMeaning`, `PropertyWidth`, `PropertyList`, `PropertyFuel`, `PropertyEnds`, `PropertyCycles`). The
performance track's description of a value and its structural diff of two objects, over a heap of objects that may be
cyclic, ending in a list of lines that is changed in place. `PropertyReader` reads lines back without knowing the heap:
a line's depth, key and description, and the deeper lines below it.

**Console format** (`ConsoleFormat`), **commit messages** (`CommitWrap`), **act scopes** (`ActScopes`), **component
frames** (`FrameSearch`) and **anonymizing** (`Anonymize`, `AnonymizeNames`).

The code was followed where the repository says something else, or where it does something surprising:

- The grammar in the comment of the gate parser lets `!` stand only before a primary; the code lets it repeat
  (`scripts/babel/transform-test-gate-pragma.js:196`), and so does the model. `||` and `&&` share one level.
- A commit message whose first word is longer than 80 characters starts with an empty line. The wrap has the fewest
  possible lines exactly when the first word is no longer than 80 characters.
- The diff's second loop does not count the properties that it leaves by `continue`
  (`packages/shared/DevjsPerformanceTrackProperties.js:450`), so its width limit bounds only the others.
  `DiffIsCutExactly` says where it is cut off; `WideClosuresAreCompared` gives objects of any width for which it is not.
- The stop-immediate flag is looked at only when a callback returns
  (`packages/internal-test-utils/simulateBrowserEventDispatch.js:358`). Set in the pause between two handlers, it does not stop the next one. At most one more listener runs, and
  none exactly when no copied handler ahead is registered and of that pass. `FlagInThePauseIsTooLate` gives such a run.
- When `act` scopes overlap, the overlap error thrown in `finally` replaces the errors collected so far
  (`OverlapCanLoseAnError`), and the environment flag and an error handler can stay behind for good (`OverlapCanLeak`).
  A scope that fails leaves the collected errors held, and the next scope that succeeds throws them
  (`FailureLeavesAnErrorHeld`). `ErrorsAreConserved` and `CleanUpIsExact` say exactly which runs lose or leave what.
- An event keeps its dispatch flag, and can never be dispatched again, exactly when some node on its path is assigned
  to a slot that is not its parent (`MisplacedNodeSticks`). It is the only way for an event to get stuck.
- Some values are printed without end: a promise settled with itself, an array of entries that is one of its own
  values, and, from depth 3 on, an element that is one of its own props. `PrintingEndsExactly` and `DiffEndsExactly`
  say which values and which pairs of objects have an end, and `TrappedExactlyByLasso` how to find out.
- A name that only one of the anonymizing visitors keeps is split in two: `name` stays as a JSX attribute and is
  renamed as an identifier.

Sections of standards that the models follow: 2.2 and 2.9 of the WHATWG DOM Standard (stop flags, dispatching) and
2.2 of the WHATWG Console Standard (format specifiers).

## Model

| member | source | states |
|---|---|---|
| `LoopGuardTheorems.MeaningPreserved` | scripts/babel/transform-prevent-infinite-loops.js:24-70 | If the guarded program ends with no error recorded, the original program ends as well, with the same outcome, the same values of all its own variables and the same sequence of assignments to them. |
| `LoopGuardTheorems.GuardedAlwaysTerminates` | scripts/babel/transform-prevent-infinite-loops.js:24-70 | The guarded program ends from every start state, whatever its source does, within fuel (limit + 2) per level of loop nesting. |
| `LoopGuardTheorems.EveryInfiniteLoopIsCaught` | scripts/jest/setupTests.js:53-67 | A program that never ends leaves the error recorded in the final state of its guarded run, even if it catches the error itself. |
| `LoopGuardTheorems.RecordsExactlyOverruns` | scripts/babel/transform-prevent-infinite-loops.js:24-33 | An error is recorded if and only if the original does not end in that fuel or some entry of a loop starts more than limit + 1 bodies. |
| `LoopGuardTheorems.GuardedRefinesLimited` | scripts/babel/transform-prevent-infinite-loops.js:37-70 | As far as the source program can see, the guarded program is the counter-free limited meaning: same outcome, same variables, same recorded error. |
| `LoopGuardTheorems.LimitedKeepsLoopError` | scripts/babel/transform-prevent-infinite-loops.js:22-31 | Once recorded, the error stays recorded through every statement, including catch and finally. |
| `LoopGuardTheorems.Unlimited` | scripts/babel/transform-prevent-infinite-loops.js:24-33 | A limited run that ends without a recorded error is the unlimited run, and that run stayed within the limit at every entry of every loop. |
| `LoopGuardTheorems.WithinIsLimited` | scripts/babel/transform-prevent-infinite-loops.js:24-33 | A source run that ends with every loop entry within the limit is also the limited run, and records nothing. |
| `LoopGuardCounts.PassesAtMostPower` | scripts/babel/transform-prevent-infinite-loops.js:39-70 | In a whole run a loop nested d deep is let past its guard at most (limit + 1)^d times. |
| `LoopGuardCounts.CountsLoop` | scripts/babel/transform-prevent-infinite-loops.js:53-70 | An entry of a loop whose counter stands at k lets at most limit + 1 - k bodies through, and each adds at most its own quota for the loops inside. |
| `LoopGuardCounts.DepthRange` | scripts/babel/transform-prevent-infinite-loops.js:53-58 | The names that the rewrite makes counters of are exactly a range of unused names. |
| `LoopGuardNames.OneCounterPerLoop` | scripts/babel/transform-prevent-infinite-loops.js:37-70 | The guards of a rewritten statement have the next unused names in program order, each exactly once, and as many as the source has loops. |
| `LoopGuardRefinement.Refines` | scripts/babel/transform-prevent-infinite-loops.js:37-70 | Each statement, once its pushed counters are 0, does what its limited meaning does and touches no other name of the host program or of other scopes. |
| `LoopGuardRefinement.RefinesScope` | scripts/babel/transform-prevent-infinite-loops.js:53-58 | A block sets the counters pushed to it to 0 whenever it is entered, so no condition on the state before it is needed. |
| `LoopGuardRefinement.RefinesLoop` | scripts/babel/transform-prevent-infinite-loops.js:60-70 | A loop entered with its counter at k behaves as the loop that has started k bodies of this entry. |
| `LoopGuardRefinement.GuardStep` | scripts/babel/transform-prevent-infinite-loops.js:24-33 | The guard adds one to the counter; it lets the body run when the old value is at most the limit, otherwise it records a RangeError and throws the same one. |
| `LoopGuardVisitor.Visitor.Visit` | scripts/babel/transform-prevent-infinite-loops.js:37-71 | The visitor, with its shared supply of names and its list of declarators pushed to the enclosing scope, makes the tree that the theorems are about. |
| `LoopGuardVisitor.Visitor.VisitLoopBody` | scripts/babel/transform-prevent-infinite-loops.js:64-70 | The guard becomes the first statement of the body, and a body that is no block becomes a block of its own. |
| `LoopGuardVisitor.Visitor.VisitProgram` | scripts/babel/transform-prevent-infinite-loops.js:35-72 | A whole file is rewritten as the theorems assume, with the top-level counters declared first. |
| `LoopGuardVisitor.MaxIterations` | scripts/babel/transform-prevent-infinite-loops.js:16-50 | The limit is the positive global setting if there is one, otherwise 5000 in test files and 6000 elsewhere; it is never 0. |
| `LoopLanguage.FuelMonotone` | scripts/babel/transform-prevent-infinite-loops.js:24-33 | The language itself: a run that ended is unchanged by more fuel, so "ends" and its result are well defined. |
| `DispatchTheorems.DispatchRunsExactlyOnce` | packages/internal-test-utils/simulateBrowserEventDispatch.js:199-225 | Over any interleaving: a listener on the path whose turn is still to come, added before or during the dispatch, that keeps its registration until its turn and is cut off by no stop flag runs in that dispatch exactly once, in its own pass and at its own struct. |
| `DispatchOrder.DispatchOrderHolds` | packages/internal-test-utils/simulateBrowserEventDispatch.js:199-298 | In every reachable world every listener ran on its own node and in its own pass, seeing that struct's phase, current target, related target and visible target; of one dispatch, all capture listeners come from the root down, then the others from the target up, at one node in the order in which they were registered, and none twice; structs without target are skipped in the second pass of an event that does not bubble. |
| `DispatchOrder.OnceRunsAtMostOnce` | packages/internal-test-utils/simulateBrowserEventDispatch.js:295-317 | A once listener runs at most once over every interleaving of any number of dispatches, those of its own callback included. |
| `DispatchOrder.EventIsIdleOrInFlight` | packages/internal-test-utils/simulateBrowserEventDispatch.js:43-60 | In every reachable world an event is idle, with no dispatch flag, phase, path or current target, or has exactly one dispatch in flight, or was left over by the slot error. |
| `DispatchOrder.RunKeepsInv` | packages/internal-test-utils/simulateBrowserEventDispatch.js:43-367 | All invariants of listener lists, once listeners, events and the order of invocations survive any run. |
| `DispatchStops.StopPropagationStops` | packages/internal-test-utils/simulateBrowserEventDispatch.js:262-266 | Once the stop flag is set while a struct is served, whatever the dispatch runs from then on it runs at that struct and in that pass. |
| `DispatchStops.StoppedIsSilentExactly` | packages/internal-test-utils/simulateBrowserEventDispatch.js:262-304 | A dispatch whose stop flag is set runs nothing more, whatever happens, if and only if at the struct it serves no copied handler ahead is registered and of this pass, or a callback is about to return to a set stop-immediate flag. |
| `DispatchStops.StopBetweenStructsSilences` | packages/internal-test-utils/simulateBrowserEventDispatch.js:264-266 | A stop flag set between two structs ends the listeners of the whole dispatch. |
| `DispatchStops.StopImmediateSilencesExactly` | packages/internal-test-utils/simulateBrowserEventDispatch.js:297-363 | Called at any moment of a dispatch, stopImmediatePropagation silences it for good if and only if it is not called in the pause before a copied handler that is still registered and of this pass. |
| `DispatchStops.StopImmediateLeavesAtMostOne` | packages/internal-test-utils/simulateBrowserEventDispatch.js:358-363 | Called at any moment, it leaves at most one more listener of that dispatch to run. |
| `DispatchStops.StopImmediateSilences` | packages/internal-test-utils/simulateBrowserEventDispatch.js:358-360 | A callback that calls it on its event is the last listener that its dispatch runs. |
| `DispatchStops.FlagInThePauseIsTooLate` | packages/internal-test-utils/simulateBrowserEventDispatch.js:301-363 | A reachable run in which it is called between two handlers and the second one still runs. |
| `DispatchTheorems.AddedListenerMissesPass` | packages/internal-test-utils/simulateBrowserEventDispatch.js:294-304 | A listener added while the dispatch serves a struct does not run there in that pass. |
| `DispatchTheorems.EndedEventCanBeDispatchedAgain` | packages/internal-test-utils/simulateBrowserEventDispatch.js:228-239 | The step that ends a dispatch clears phase, path, current target and all flags, clears target and related target exactly when that was found necessary at the start, and changes nothing else, so that an initialized event is accepted again. |
| `DispatchProgress.EveryDispatchEnds` | packages/internal-test-utils/simulateBrowserEventDispatch.js:199-239 | In every infinite schedule that moves the dispatch on again and again, it ends after finitely many steps and its event is at rest, even if callbacks add listeners or start dispatches without end. |
| `DispatchProgress.AdvanceComesNearer` | packages/internal-test-utils/simulateBrowserEventDispatch.js:199-225 | Each step of a dispatch leaves fewer structs to serve, or fewer turns of the copied list, or ends it with a reset event. |
| `DispatchInvariants.StepKeepsOnce` | packages/internal-test-utils/simulateBrowserEventDispatch.js:301-317 | After every step each registration is in one list and there once, and no once listener that ran is registered. |
| `DispatchInvariants.StepKeepsEvents` | packages/internal-test-utils/simulateBrowserEventDispatch.js:43-60 | After every step each dispatch in flight is at a position inside its event's path, its event shows that struct's phase, target and node while it is served, and no two dispatches have the same run number. |
| `DispatchInvariants.StartFacts` | packages/internal-test-utils/simulateBrowserEventDispatch.js:43-57 | A dispatch is refused exactly when the event is uninitialized, dispatching or in a phase; otherwise it fails on a slot with the flag left set, is done at once and reset, or runs over a path that starts with a target and has no node twice. |
| `EventPath.StartExactly` | packages/internal-test-utils/simulateBrowserEventDispatch.js:43-190 | A dispatch is refused exactly when the event is not at rest; it is over at once exactly when the target is what its related target looks like from there and is not the related target itself; else it fails or runs as building the path does, and will clear the targets exactly when the outermost struct that shows its target has that or the related target in a shadow tree. |
| `DispatchFailures.DispatchFailsExactly` | packages/internal-test-utils/simulateBrowserEventDispatch.js:102-106 | A dispatch leaves its event stuck if and only if the event is accepted, there is a path to build, and some node on the way up is assigned to a slot that is not its parent. |
| `DispatchFailures.WellSlottedNeverSticks` | packages/internal-test-utils/simulateBrowserEventDispatch.js:102-118 | If every assigned node has a slot for its parent in the trees of all dispatches of a run, every event is idle or in flight after it. |
| `DispatchFailures.StuckForGood` | packages/internal-test-utils/simulateBrowserEventDispatch.js:43-55 | A stuck event stays stuck over every run: each later dispatch of it is refused. |
| `DispatchFailures.MisplacedNodeSticks` | packages/internal-test-utils/simulateBrowserEventDispatch.js:97-106 | A tree of two nodes and a run of two steps after which an event is stuck. |
| `EventPath.BuiltPathClimbs` | packages/internal-test-utils/simulateBrowserEventDispatch.js:77-172 | Path building ends; the path climbs parent by parent from the target, repeats no node, gives each struct its own node or no target, and stops only at a root or at the retargeted related target. |
| `EventPath.BuiltPathStructs` | packages/internal-test-utils/simulateBrowserEventDispatch.js:116-165 | A struct above the first hides its target if and only if its node is in the same tree as the nearest target shown below it; every struct has the related target as seen from its node, knows whether its node is in a shadow tree, and whether it was entered through a slot of a closed tree. |
| `EventPath.BuildPathFailsExactly` | packages/internal-test-utils/simulateBrowserEventDispatch.js:102-118 | Building a path fails if and only if some node on the way up is assigned to a slot that is not its parent. |
| `EventPath.BuiltPathIsClimb` | packages/internal-test-utils/simulateBrowserEventDispatch.js:100-172 | A path that is built holds exactly the nodes of the climb, in order. |
| `EventPath.VisibleTargetIsNearest` | packages/internal-test-utils/simulateBrowserEventDispatch.js:253-260 | The backward scan always succeeds and finds the target of the nearest struct at or below the one served. |
| `EventPath.LastShownIsOutermost` | packages/internal-test-utils/simulateBrowserEventDispatch.js:174-184 | The scan for the struct that decides whether targets are cleared succeeds and finds the outermost struct with a target. |
| `EventObjects.EventImpl.PopulatePath` | packages/internal-test-utils/simulateBrowserEventDispatch.js:95-172 | The loop that climbs from the target builds that path in place, or stops with the internal error and leaves what it has built. |
| `EventObjects.EventImpl.BeginDispatch` | packages/internal-test-utils/simulateBrowserEventDispatch.js:43-190 | Refusing, failing, ending at once or getting ready for the first listener leaves the event's fields as the state machine says. |
| `EventObjects.EventImpl.FindLastShown` | packages/internal-test-utils/simulateBrowserEventDispatch.js:174-184 | The loop finds that struct. |
| `EventObjects.EventImpl.OpenStruct` | packages/internal-test-utils/simulateBrowserEventDispatch.js:199-209 | Before its listeners a struct sets phase, visible target and related target; it is served, with itself as current target, only when the stop flag is clear. |
| `EventObjects.EventImpl.EndDispatch` | packages/internal-test-utils/simulateBrowserEventDispatch.js:228-239 | The fields after a dispatch. |
| `EventObjects.ListenerList.TakeTurn` | packages/internal-test-utils/simulateBrowserEventDispatch.js:297-317 | A copied handler is called exactly when it is still registered and belongs to this pass; if it is a once listener it is already gone from the list then. |
| `EventObjects.ListenerList.Splice` | packages/internal-test-utils/simulateBrowserEventDispatch.js:315-317 | The first occurrence of the listener goes, everything else keeps its order. |
| `GateGrammar.ParserIsExact` | scripts/babel/transform-test-gate-pragma.js:141-239 | Soundness and completeness with the tree: the parser returns a derivation if and only if that derivation derives exactly the token list. |
| `GateGrammar.Unambiguous` | scripts/babel/transform-test-gate-pragma.js:145-232 | A token list has at most one derivation, so the left-associated tree is the only one. |
| `GateGrammar.AcceptsExactlyTheDerivable` | scripts/babel/transform-test-gate-pragma.js:234-238 | A token list is accepted, with no token left over, if and only if the grammar derives it. |
| `GateTexts.ParsesExactly` | scripts/babel/transform-test-gate-pragma.js:27-239 | A pragma is accepted as a condition if and only if its text spells out a derivation of that condition: its tokens, each in one of its spellings, with white space but line breaks in between, and then nothing, a line break or a comment. |
| `GateTexts.LexedIsRendered` | scripts/babel/transform-test-gate-pragma.js:27-139 | A text that is tokenized is nothing but spellings of its tokens and white space, up to a line break or a comment; any other character or an open quote is an error. |
| `GateTexts.SpelledIsRead` | scripts/babel/transform-test-gate-pragma.js:27-239 | A condition written out with every parenthesis, with its literal operators and quotes, is read as that condition. |
| `GateGrammar.FindsE` | scripts/babel/transform-test-gate-pragma.js:145-166 | Every chain of && and || is read as left-associated, whatever stops it behind. |
| `GateGrammar.FindsB` | scripts/babel/transform-test-gate-pragma.js:168-189 | Every chain of comparisons is read as left-associated, whatever follows. |
| `GatePrinter.RoundTrip` | scripts/babel/transform-test-gate-pragma.js:27-239 | Printing a condition with minimal parentheses, with any white space but line breaks between tokens and any comment or further line behind, then tokenizing and parsing gives back the same condition. |
| `GatePrinter.PrintThenParse` | scripts/babel/transform-test-gate-pragma.js:27-239 | The same for every choice of spelling: either quote that the string does without, == or ===, != or !==. |
| `GatePrinter.MinimalE` | scripts/babel/transform-test-gate-pragma.js:145-232 | The printed form has the fewest tokens of all derivations of the same condition. |
| `GatePrinter.RenderedIsRead` | scripts/babel/transform-test-gate-pragma.js:27-139 | The tokenizer gives back any token list in which operands and operators alternate, with or without spaces in between. |
| `GateTokens.Tokenize` | scripts/babel/transform-test-gate-pragma.js:27-139 | The loop over the characters produces the tokens of the lexeme-by-lexeme specification, or its error. |
| `GateTokens.ReadString` | scripts/babel/transform-test-gate-pragma.js:32-66 | A string ends at the first matching quote; without one it is an error. |
| `GateParser.Parser.ParseExpression` | scripts/babel/transform-test-gate-pragma.js:145-166 | With the shared cursor the method builds the condition of the derivation, leaves the cursor behind it, and fails with the same error. |
| `GateParser.Parser.ParsePrimary` | scripts/babel/transform-test-gate-pragma.js:203-232 | The same for literals, names, strings and groups, including the errors for a missing token or parenthesis. |
| `GateParser.ParseGate` | scripts/babel/transform-test-gate-pragma.js:141-239 | Tokenizing and parsing a pragma together. |
| `GateCondition.BuildGateCondition` | scripts/babel/transform-test-gate-pragma.js:241-266 | It fails if and only if some comment that starts with "@gate " once trimmed has a condition that does not parse, with the first such error; it is no condition if and only if no comment starts so; and otherwise the condition holds exactly when the condition of every such comment holds, parsed from position 6 on. |
| `GateCondition.AllGatesMustHold` | scripts/babel/transform-test-gate-pragma.js:256-262 | The joined condition is truthy exactly when every single gate is. |
| `GateCondition.CollectFailsEarly` | scripts/babel/transform-test-gate-pragma.js:243-254 | Comments after one that does not parse make no difference. |
| `Text.TrimExactly` | scripts/babel/transform-test-gate-pragma.js:244-245 | Trimming takes all the white space off both ends of a text and nothing else. |
| `PropertyDiff.DiffExact` | packages/shared/DevjsPerformanceTrackProperties.js:298-453 | The diff returns true if and only if both objects have the same keys, each pair of values is identical, or, above depth 3 and not the top-level children, two plain objects or two arrays of equal $$typeof that are no elements and are equal in the same sense, or functions with equal name, length and source, and neither loop hits its width limit. |
| `PropertyDiffLines.DiffReported` | packages/shared/DevjsPerformanceTrackProperties.js:298-453 | Lines that were there stay. If the result is true, every appended line carries the unchanged marker; if it is false, at least one line was appended. |
| `PropertyDiffMeaning.RemovedAreGone` | packages/shared/DevjsPerformanceTrackProperties.js:307-326 | The first loop appends one removed-line for each key that is gone, in order and at its depth, for the first 101 keys, and a note exactly when there are more. |
| `PropertyDiffMeaning.LoopSays` | packages/shared/DevjsPerformanceTrackProperties.js:328-451 | The second loop appends for each property in turn what the literal cases say: an added-line for a new key, nothing for an identical value, a pair of lines for the top-level children or for an element whose props changed, one marked line for a closure of the same function, a marked line with the nested diff below it for containers of the same kind, reworded exactly when nothing at all changed inside, and else the old and the new value as printed. |
| `PropertyDiffMeaning.TurnSays` | packages/shared/DevjsPerformanceTrackProperties.js:341-448 | The same for one turn of the loop, with the conditions of the cases written out. |
| `PropertyEnds.DiffEndsExactly` | packages/shared/DevjsPerformanceTrackProperties.js:298-453 | For every heap and every pair of objects: the diff ends if and only if no value that it prints is in a trap, a set of values at depths from each of which printing goes on to another one of the set. |
| `PropertyDiffLines.DiffTerminates` | packages/shared/DevjsPerformanceTrackProperties.js:354-411 | On cyclic heaps of plain objects, other objects and arrays without entry tuples it ends within one nested call per level of depth. |
| `PropertyDiff.RemovedExact` | packages/shared/DevjsPerformanceTrackProperties.js:307-326 | The first loop keeps "equal" exactly when no key is gone and there are at most 101 keys. |
| `PropertyDiff.KeptStep` | packages/shared/DevjsPerformanceTrackProperties.js:329-451 | One turn of the second loop keeps "equal" exactly when this property is equal in both objects, and counts it exactly when it is new, identical, or has both of its values printed. |
| `PropertyWidth.DiffIsCutExactly` | packages/shared/DevjsPerformanceTrackProperties.js:328-451 | The second loop is cut off if and only if more than 100 counted properties come before some property; it then has compared those up to the first such one, adds one line and is not equal. Otherwise the diff is that of the loop without a limit. |
| `PropertyWidth.WideClosuresAreCompared` | packages/shared/DevjsPerformanceTrackProperties.js:413-436 | Two objects with n closures of one function under the same keys: the second loop compares all n of them, for every n, with one line each. |
| `PropertyPrinter.AddValueBounded` | packages/shared/DevjsPerformanceTrackProperties.js:92-292 | On such heaps, cyclic or not, printing a value at indent i ends and appends between 1 and V(i) lines, V(i) = 1 from 3 on and 2 + 100 V(i + 1) below. |
| `PropertyPrinter.AddObjectBounded` | packages/shared/DevjsPerformanceTrackProperties.js:58-83 | Printing the properties of an object appends at most one value's lines for each of 100 properties, and one line more. |
| `PropertyPrinter.AddValueExtends` | packages/shared/DevjsPerformanceTrackProperties.js:92-292 | For every value, whenever printing ends, all lines that were there are unchanged and at least one was added, even through the rewriting of a promise's line. |
| `PropertyReading.PrintedValueIsRead` | packages/shared/DevjsPerformanceTrackProperties.js:92-292 | Reading the lines of a printed value back gives one entry with its key that says of the value what there is to say: null, undefined, true and false as words, other values as the host writes them, a promise with what it settled to, an array of entries with its first hundred keys and values, and down to depth 3 an object with the name of its kind and its first hundred public properties. |
| `PropertyReading.PrintedObjectIsRead` | packages/shared/DevjsPerformanceTrackProperties.js:58-83 | Reading the lines of an object back gives its first hundred public properties in order, each with its key and its value, and a note exactly when there are a hundred or more. |
| `PropertyReading.PrintedElementIsRead` | packages/shared/DevjsPerformanceTrackProperties.js:117-163 | From depth 3 on an element is a line that opens it, its key, its first hundred props but the children and the private ones, and a line that closes it and tells whether there are children. |
| `PropertyPrinter.GetArrayKind` | packages/shared/DevjsPerformanceTrackProperties.js:25-56 | The one-pass loop classifies as stated over the whole of the first hundred items: all of them entry tuples, all of them simple primitives, none at all, or else complex. |
| `PropertyFuel.MoreFuelSameLines` | packages/shared/DevjsPerformanceTrackProperties.js:92-292 | A printing that ends has one result, whatever bound on nested calls it is run under. |
| `PropertyEnds.PrintingEndsExactly` | packages/shared/DevjsPerformanceTrackProperties.js:92-292 | For every heap and every value: printing it at a depth ends if and only if it is in no trap at that depth. Printing goes on to the value of a settled promise at the same depth, and one deeper to the first hundred public properties, the first hundred entries, or the key and the first hundred props of an element. |
| `PropertyCycles.TrappedExactlyByLasso` | packages/shared/DevjsPerformanceTrackProperties.js:92-292 | With finitely many values to reach, a value is in a trap if and only if a walk of at most four visits for each of these values comes back to a value it has passed, at the same depth or both from depth 3 on. |
| `PropertyEnds.RankedEnds` | packages/shared/DevjsPerformanceTrackProperties.js:92-292 | Where printing always goes on to something of lower rank, as on heaps without cycles, every value is printed to an end, within its rank. |
| `PropertyEnds.ShallowElementEnds` | packages/shared/DevjsPerformanceTrackProperties.js:113-123 | Above depth 3 an element ends without any nested call, whatever it holds. |
| `PropertyEnds.SelfEntryNeverEnds` | packages/shared/DevjsPerformanceTrackProperties.js:179-203 | An array of entries that is the value of one of its entries is in a trap at every depth. |
| `PropertyEnds.SelfElementNeverEnds` | packages/shared/DevjsPerformanceTrackProperties.js:117-158 | An element that is one of its own props is in a trap from depth 3 on. |
| `PropertyEnds.SelfPromiseDiffNeverEnds` | packages/shared/DevjsPerformanceTrackProperties.js:440-443 | A diff in which a promise settled with itself went away never ends. |
| `PropertyFuel.SelfPromiseNeverEnds` | packages/shared/DevjsPerformanceTrackProperties.js:206-223 | A promise fulfilled with itself is never printed to an end. |
| `PropertyList.Properties.AddValueToProperties` | packages/shared/DevjsPerformanceTrackProperties.js:92-292 | The method on the shared list of lines appends in place what the specification says. |
| `PropertyList.Properties.AddSettled` | packages/shared/DevjsPerformanceTrackProperties.js:206-246 | A settled promise prints its value first and then rewrites that value's first line where it stands. |
| `PropertyList.Properties.AddObjectToProperties` | packages/shared/DevjsPerformanceTrackProperties.js:58-83 | The loop over the properties, with its count and its break. |
| `PropertyList.Properties.AddObjectDiffToProperties` | packages/shared/DevjsPerformanceTrackProperties.js:298-453 | The diff in place: verdict and lines are those of the specification that is proved exact. |
| `PropertyList.Properties.NoteNested` | packages/shared/DevjsPerformanceTrackProperties.js:389-410 | A nested diff goes under a line of its own, which is rewritten only if the nested diff is equal and appended nothing. |
| `ConsoleFormat.NormalizingPreservesMeaning` | packages/shared/normalizeConsoleFormat.js:18-55 | The normalized string prints what the original prints with the same arguments, followed by each unused argument after a space. |
| `ConsoleFormat.NormalizedCount` | packages/shared/normalizeConsoleFormat.js:18-55 | The normalized string scans to exactly one specifier per argument from firstArg on, also when the input ends in a lone percent sign. |
| `ConsoleFormat.NormalizingIsIdempotent` | packages/shared/normalizeConsoleFormat.js:18-55 | Normalizing again with the same arguments returns the string unchanged. |
| `ConsoleFormat.EscapedPrints` | packages/shared/normalizeConsoleFormat.js:21-44 | Doubling the percent signs of specifiers without an argument does not change what is printed, whatever is put behind. |
| `ConsoleFormat.SpecifierLetters` | packages/shared/normalizeConsoleFormat.js:25-32 | The letters that take an argument are exactly O, c, d, f, i, o and s. |
| `ConsoleFormat.EscapeSpecifiers` | packages/shared/normalizeConsoleFormat.js:18-44 | The scanning loop with its pending slice computes the escaped string and the number of arguments taken. |
| `ConsoleFormat.NormalizeConsoleFormat` | packages/shared/normalizeConsoleFormat.js:13-56 | Both loops together compute the string that these theorems are about. |
| `CommitWrap.WrapIsLossless` | compiler/scripts/update-commit-message.js:42-62 | Without its line breaks the result is the trimmed message and one space. |
| `CommitWrap.ResultHasTheseLines` | compiler/scripts/update-commit-message.js:50-62 | Split at its line breaks, the result is the lines that the words were cut into, each word with a space after it. |
| `CommitWrap.BreaksBecomeSpaces` | compiler/scripts/update-commit-message.js:42-42 | Each break between pieces of text, whether \r\n, \n or \r, becomes one space. |
| `CommitWrap.GreedyLinesFit` | compiler/scripts/update-commit-message.js:50-61 | Every line has at most 80 characters without its trailing space, or is one longer word; all words are there in order. |
| `CommitWrap.WrapIsOptimal` | compiler/scripts/update-commit-message.js:50-62 | The lines fit and hold the words in order, and no other split into lines that fit has fewer lines if and only if the first word has at most 80 characters. |
| `CommitWrap.GreedyIsOptimal` | compiler/scripts/update-commit-message.js:50-59 | Leaving out an empty line before a long first word, no split of the words into lines that fit has fewer lines, long words or not. |
| `CommitWrap.LinesFromStart` | compiler/scripts/update-commit-message.js:52-57 | The result is the greedy lines, after one empty line exactly when the first word is too long. |
| `CommitWrap.FormatCommitMessage` | compiler/scripts/update-commit-message.js:38-63 | The loop over the words builds those lines. |
| `ActScopes.DepthCountsOpenScopes` | packages/internal-test-utils/internalAct.js:74-76 | Over every interleaving the depth is the number of scopes that started and have not finished. |
| `ActScopes.OverlapErrorsAreExactlyOutOfOrder` | packages/internal-test-utils/internalAct.js:184-194 | A run raises no overlap error if and only if every scope that finished was the last one started. |
| `ActScopes.FinishedScopesCleanUp` | packages/internal-test-utils/internalAct.js:169-184 | In a run without overlap errors in which all scopes have finished, the environment flag has its initial value, no handler is registered and the depth is 0. |
| `ActScopes.CleanUpIsExact` | packages/internal-test-utils/internalAct.js:169-184 | Over every run in which all scopes have finished: the flag is as it was if and only if it was off at first or no scope that started inside another one was the last to end; the handlers left are exactly those of scopes that had registered one and ended before another open scope; no error is held for a later scope if and only if none was recorded after the last scope that ended without failing. |
| `ActScopes.ErrorsAreConserved` | packages/internal-test-utils/internalAct.js:94-195 | Over every run each error recorded by a handler is rethrown once, still held, or dropped once. Some are dropped if and only if a scope that did not fail ends out of its place while errors are held; otherwise they are rethrown in order. Some are still held if and only if one was recorded after the last scope that ended without failing. |
| `ActScopes.EveryHandlerRecords` | packages/internal-test-utils/internalAct.js:94-114 | An uncaught error is recorded once by each registered handler. |
| `ActScopes.OverlapCanLoseAnError` | packages/internal-test-utils/internalAct.js:160-194 | A run of two overlapping scopes in which a reported error is dropped. |
| `ActScopes.FailureLeavesAnErrorHeld` | packages/internal-test-utils/internalAct.js:116-184 | A run without overlap errors after which no scope is open and a reported error is still held. |
| `ActScopes.OverlapCanLeak` | packages/internal-test-utils/internalAct.js:169-195 | A concrete overlapping run after which no scope is open, yet the flag is off and a handler is registered. |
| `ActScopes.StepKeepsInv` | packages/internal-test-utils/internalAct.js:74-195 | Every start, resumption, uncaught error and end of a scope keeps the counts, and keeps the nesting of the remembered depths as long as scopes ended in order. |
| `ActScopes.Runtime.Enter` | packages/internal-test-utils/internalAct.js:74-81 | The piece up to the first await, on the module's own variables. |
| `ActScopes.Runtime.Listen` | packages/internal-test-utils/internalAct.js:94-114 | The piece after the first await: only the outermost scope registers its handler. |
| `ActScopes.Runtime.Leave` | packages/internal-test-utils/internalAct.js:160-195 | Rethrowing and the finally block: which error leaves, what is restored, and when the overlap error is raised. |
| `FrameSearch.FindFrame` | packages/shared/DevjsComponentStackFrame.js:208-281 | The search ends with both cursors in bounds and in lockstep. It returns a line exactly when there is a first mismatch that is not at (1, 1) and a later position where the control is exhausted or the lines differ again; the line is the sample's at the first such position. |
| `FrameSearch.FrameIsUnique` | packages/shared/DevjsComponentStackFrame.js:243-281 | There is at most one such pair of positions. |
| `FrameSearch.FindStart` | packages/shared/DevjsComponentStackFrame.js:213-242 | The start: the first root line of both stacks, or the last sample line and the last control line equal to it. |
| `FrameSearch.CursorsStart` | packages/shared/DevjsComponentStackFrame.js:213-242 | The cursors start at the first lines that name DetermineComponentFrameRoot, or, where one stack has none, at the last sample line and the last control line equal to it. |
| `FrameSearch.ContainsExactly` | packages/shared/DevjsComponentStackFrame.js:217-223 | A line names the root exactly when the name occurs somewhere in it. |
| `FrameSearch.NextMismatch` | packages/shared/DevjsComponentStackFrame.js:253-277 | The inner loop, from a first mismatch on. |
| `FrameSearch.ComponentLineIsFound` | packages/shared/DevjsComponentStackFrame.js:209-277 | When the root lines of the two stacks differ, the same frames of the call stand above both, and above these the sample has the component's line, the search returns the component's line and nothing else can be its result. |
| `Anonymize.RenamingIsInjective` | compiler/scripts/anonymize.js:159-193 | Over any order of visits two occurrences outside the kept names get the same new name exactly when their old names are the same, and no new name is a kept one. |
| `Anonymize.SameAfterwards` | compiler/scripts/anonymize.js:159-193 | Of all occurrences, kept ones included, two read the same afterwards exactly when they did before and both or neither of them were left alone. |
| `Anonymize.NewNamesAreDistinct` | compiler/scripts/anonymize.js:168-190 | All generated names differ, over all styles and indices. |
| `AnonymizeNames.NewNameIsNumbered` | compiler/scripts/anonymize.js:165-191 | At its first visit a name becomes Component and an upper-case hexadecimal numeral or c and a lower-case one in JSX, and useV for hooks, V for names with a capital letter and v for others with a lower-case one elsewhere; the numeral is the number of names renamed before. |
| `Anonymize.NewNamesAreNotKept` | compiler/scripts/anonymize.js:60-147 | No generated name is a tag, hook or global name that is left alone. |
| `Anonymize.HexInjective` | compiler/scripts/anonymize.js:169-170 | Different indices have different hexadecimal numerals. |
| `Anonymize.NamesStay` | compiler/scripts/anonymize.js:164-172 | A name given at one visit is the one given at every later visit. |
| `Anonymize.Anonymizer.VisitIdentifier` | compiler/scripts/anonymize.js:175-193 | The visitor with the shared index and map: the new name, the new entry and the next index. |
| `Anonymize.Anonymizer.VisitJsxIdentifier` | compiler/scripts/anonymize.js:159-174 | The same for names in JSX, with their own styles and kept names. |

## Left out

- LoopGuardTheorems.MeaningPreserved: the language has no calls, closures, generators, `switch`, `for`-`in` or `for`-`of`; with calls a guarded program need not end, since recursion has no guard.
- LoopGuardVisitor.Visitor.Visit: returns the new node where the plugin replaces it in the tree; Babel's choice of the enclosing scope is taken as "the nearest block, or the loop body it is made into".
- Declarations of the program's own variables, a scope of their own for catch parameters and compound expressions beyond the listed ones: names are unique integers, as after renaming.
- A change of `global.__MAX_ITERATIONS__` while the program runs: the limit is one constant per run.
- Number arithmetic is on unbounded integers and NaN: the counters stay far below the point where doubles lose units.
- EventPath.BuiltPathClimbs: parent, slot, shadow and retarget lookups of jsdom are total functions over an acyclic tree; each dispatch may see another tree, but the tree does not change while its path is built.
- DispatchTheorems.DispatchRunsExactlyOnce: a callback is any list of actions before its dispatch moves on; its exception is swallowed at `reportException`, which is not modelled.
- DispatchProgress.EveryDispatchEnds: the model also pauses before a struct, before its first handler and after a handler that is passed over, where the source goes on at once, and other dispatches may move on while a callback runs. All theorems about runs hold for these interleavings too, which include those of the source.
- Activation behaviour, touch targets, the passive flag, `window._currentEvent` and wrapper objects: none of them decides which listener runs.
- `addEventListener`'s rule against registering the same callback twice, and `preventDefault`: not part of the dispatcher.
- The override of the target for legacy callers: `simulateEventDispatch` never passes it.
- The visitor that wraps tests in gate calls, and `getComments`: they move syntax around a condition that is already built.
- GateCondition.AllGatesMustHold: loose equality of two values is a parameter, since the host language defines it.
- GateParser.ParseGate: an empty pragma fails on a missing token in the source too, there as a TypeError, here as `UnexpectedEnd`.
- PropertyPrinter.AddValueBounded: promises, elements and entry tuples are outside the bound, because their recursion is not limited by indent; what holds of them is stated in AddValueExtends and PrintingEndsExactly.
- PropertyReading.PrintedValueIsRead: keys that begin with a no-break space, or with the printed prefix, are left out, since their lines cannot be told from deeper or prefixed ones; so are values below which an element is printed in several lines, since its closing line has no depth.
- PropertyList.Properties.AddValueToProperties: depth of nested calls is bounded by fuel; MoreFuelSameLines says that the bound does not change a result. Lines are values, so that one entry can be held twice is not captured.
- Prototype chains, getters, proxies and keys that are not enumerable: membership is in an object's own list of keys.
- The text of JSON, numbers, symbols and component names: functions of the value, left open.
- Characters are those of `string`; UTF-16 code units are not told apart from characters outside the first plane.
- `filterMsg` and the requests to the hosting service in the commit script: input and output only.
- ActScopes.ErrorsAreConserved: flushing Scheduler work, timers and the checks before a scope starts are left out; a scope's own work only ends in success or failure.
- `serverAct`: it repeats the protocol of `act` with other flushing.
- FrameSearch.FindFrame: an index into the sample's lines; rewriting the found line, the cache, `reentry` and the fallback to a name are left out.
- Anonymize.RenamingIsInjective: whether a first letter is its own upper case is a parameter; replacement of texts and literals is random and left out.
