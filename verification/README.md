# Nymph: models and proofs

Nymph compiles to JavaScript and ships its own persistent runtime. This project models the parts of it with the most
intricate state and proves what they are for. Each part is its own group of modules.

- **Activation planner** (`Hir`, `StateTable`, `Planning`, `Simulation*`, `DirectExpressions`, `PlannerCorrectness`,
  `PlanSafety`, `ActivationPlanner`, `Iteration`, `EvaluationReports`). Expression trees have a big-step meaning, with a
  trace of calls and cleanups; state tables have a step meaning. Planning is written twice: as functions, which the
  simulation proof follows, and as the mutating planner, whose methods are proved to do what the functions say. The main
  theorem is an equivalence for all bodies, hosts and arguments. A second theorem ties the planner's static cleanup depth
  to the scopes open at run time. What evaluation itself means for loops over iterators, managed bindings, conditions and
  failures is stated on its own, with the variants and traces written out.
- **Pattern compiler** (`Patterns`, `PatternCompiler`, `MatchForms`). A reference matcher, the compiled tests with their
  decision variables and paths, and both lowerings of `match`.
- **Activation runtime** (`Activation`, `ActivationCalls`, `ActivationDriver`, `StateTransition`). The driver over a stack
  of frames with nested cleanup scopes, as a step function with theorems over every run and as a class working in place;
  what a call hands its callee and gives back to its caller; and the commit of a state-loop transition.
- **Task runtime** (`Tasks`, `TaskReports`, `TaskProgress`, `TaskRuntime`). Executions as atomic steps between awaits: the
  theorems hold for every interleaving, and no interleaving gets stuck.
- **Hash tries, equality and hashing** (`HashBits`, `Structural`, `HashTrie`, `StructuralLaws`, `EqualityLaws`, `HashMap`,
  `Denotation`, `HashSpread`, `HashLoops`). Equality and hashing recurse through maps, and maps compare keys by equality,
  so the laws are proved by one induction on size. Every value denotes a mathematical one, and equality is equality of
  what is denoted. Bit counting is proved on machine words.
- **Persistent vectors** (`PersistentVector`, `VectorBuilding`) and checked powers (`Integers`). Every operation yields
  the one canonical vector of its sequence.
- **Transaction journal** (`Journal`, `TransactionJournal`). A nested undo log over a heap of objects, arrays and maps.
- **Edit groups** (`Utf8`, `Edits`). Replacements by byte span, accepted in any order, applied all or not at all to
  well-formed UTF-8.
- **Editor workers** (`Documents`, `Workers`, `WorkerLoop`). A worker's mirror of the open documents, reconciled to owner
  snapshots, over whole queues of tasks with failures and panics.

`Values` and `Ordering` hold what several parts share.

Three statements carry a condition that deserves a word:

- The planner's equivalence is for bodies whose binders do not shadow, because a statement is planned after the lets that
  follow it are in scope. Lowering renames a binder that collides (`crates/nymph-sema/src/stable_lowering.rs:2587-2620`),
  so this holds of what is planned; `PlannerCorrectness.ShadowingBreaksThePlan` shows what happens otherwise.
- A journaled write can be undone if and only if it is `Reversible`: an array's length must not be assigned below its
  elements through the property write, and a frozen array must not be spliced. `Journal.ShorterLengthIsNotUndone` is a
  concrete failure; the runtime's own way of changing a length avoids it.
- A state-loop commit conserves cleanups if and only if the acquired scope holds exactly the replacement handles.

The untitled-version condition of the workers is not an assumption: the owner drops stale untitled changes itself, and
`Documents.RunMovesForward` proves what follows for every run.

## Model

| member | source | states |
|---|---|---|
| PlannerCorrectness.PlannedTableRunsTheBody | crates/nymph-codegen/src/emit.rs:440-1411 | The planned table, entered at state 0, halts with an outcome after a trace of calls and cleanups if and only if big-step evaluation of the body has that outcome after that trace, for every host, arguments and well-formed body: blocks, lets with and without cleanups, if, eager and short-circuit operators, match with guards, labelled blocks, `for`, state loops, break, both continues, returns, calls and defects |
| PlannerCorrectness.RunToTheEnd | crates/nymph-codegen/src/emit.rs:440-453 | Forward half with step counts: a body that does not end within `fuel` iterations keeps the table running for at least that many steps, so neither side can end alone |
| SimulationProof.SimulateExpr | crates/nymph-codegen/src/emit.rs:621-897 | Simulation for one expression in any planning context: the states planned for it store its value and go on at `next`, or leave for exactly the loop, block, return or defect its evaluation leaves for, writing only slots of its own |
| SimulationProof.SimulateIterations | crates/nymph-codegen/src/emit.rs:1216-1280 | A state loop runs pass after pass as the source loop does: the header slots hold the current bindings at every pass, and continue, break and fallthrough leave at the right place |
| SimulationProof.SimulateReplacements | crates/nymph-codegen/src/emit.rs:1283-1361 | Replacements of a transition are evaluated in order over the old bindings only, whatever earlier ones computed, each into its scratch slot; no binding changes until all are known |
| SimulationProof.SimulateArms | crates/nymph-codegen/src/emit.rs:1413-1479 | The chained states of a match try the arms in order and commit to the first whose pattern matches and whose guard holds |
| SimulationProof.SimulatePasses | crates/nymph-codegen/src/emit.rs:1091-1214 | The planned `for` takes steps from its iterator, matches the item against the pattern, runs the body and goes on, as evaluation does |
| Iteration.PassTakesItemAndNext | crates/nymph-codegen/src/emit.rs:1091-1214 | With the variants written out: a step that yields an item and an iterator runs the body with the pattern matched against that item, takes the next step with that iterator, and turns a break into the `some` variant holding its value |
| Iteration.ExhaustionEnds | crates/nymph-codegen/src/emit.rs:1091-1214 | Any other step ends the loop with the `none` variant |
| Iteration.ItemsAreVisitedInOrder | crates/nymph-codegen/src/emit.rs:1091-1214 | A loop over iterators that yield these items calls its visitor on each of them in that order, each before the next is asked for |
| Iteration.PlannedLoopVisitsInOrder | crates/nymph-codegen/src/emit.rs:1091-1214 | The table planned for that loop makes exactly these calls and halts with the `none` variant |
| EvaluationReports.FailuresAreReported | crates/nymph-codegen/src/emit.rs:934-1023 | Every evaluation throws exactly when a call, an operator or a cleanup raised something, and throws all of it in the order it was raised; once something was raised only cleanups run |
| EvaluationReports.PlannedTableReports | crates/nymph-codegen/src/emit.rs:440-453 | A planned table finishes only when nothing was raised and is defected with everything that was |
| EvaluationReports.LetClosesOnce | crates/nymph-codegen/src/emit.rs:976-1023 | A managed binding is closed once, with its value, after everything behind it and whatever that came to |
| EvaluationReports.BooleansChoose | crates/nymph-codegen/src/emit.rs:1064-1088 | A condition that is the boolean true takes one branch of an `if` or a short circuit, false the other |
| EvaluationReports.OperatorAnswers | crates/nymph-codegen/src/emit.rs:889-897 | An eager operator gives what is computed from both operands, or throws what that raises |
| PlannerCorrectness.ShadowingBreaksThePlan | crates/nymph-codegen/src/emit.rs:1016-1020 | Without the no-shadowing condition the theorem fails: a callable that passes its parameter to a call and then binds a local of that name hands the call the unset local |
| PlanSafety.EveryStateIsPlanned | crates/nymph-codegen/src/emit.rs:485-501 | Every number a plan hands out is filled by the time it is finished, every jump lands on a state of the plan, and every state is entered at the depth it was planned for |
| PlanSafety.OpenScopesAreTheStaticDepth | crates/nymph-codegen/src/emit.rs:934-974 | In every configuration a run reaches, the number of open cleanup scopes is the static depth of the state, whatever the host answers and whatever fails |
| PlanSafety.FillSound | crates/nymph-codegen/src/emit.rs:491-501 | Filling a reserved state with code planned around it keeps every state of the plan sound |
| DirectExpressions.ExprIsDirect | crates/nymph-codegen/src/emit.rs:231-396 | An expression that needs no split evaluates without calls or cleanups and only from the names it may see, so storing it in one state is enough |
| ActivationPlanner.PlanActivation | crates/nymph-codegen/src/emit.rs:440-453 | The planner as it works, with its scopes, loops, reserved and filled states, returns a table for which the equivalence holds for all hosts and arguments |
| ActivationPlanner.ActivationPlanner.PlanExpr | crates/nymph-codegen/src/emit.rs:621-897 | Planning an expression by mutation extends the plan exactly as the planning function does and leaves scopes, loops, blocks and depth as they were |
| ActivationPlanner.ActivationPlanner.PlanBlock | crates/nymph-codegen/src/emit.rs:934-974 | A block opens and closes its own scope, and a cleanup scope when a let of it is managed |
| ActivationPlanner.ActivationPlanner.PlanStatements | crates/nymph-codegen/src/emit.rs:976-1023 | Statements are planned last first; an expression statement after the lets that follow it |
| ActivationPlanner.ActivationPlanner.PlanReturn | crates/nymph-codegen/src/emit.rs:1025-1062 | A block return unwinds to the depth of its block and stores there; a callable return unwinds nothing itself |
| ActivationPlanner.ActivationPlanner.PlanMatch | crates/nymph-codegen/src/emit.rs:1413-1479 | Arms are planned last first, each falling back to the one after it |
| ActivationPlanner.ActivationPlanner.PlanStateLoop | crates/nymph-codegen/src/emit.rs:1216-1281 | A state loop gets its header slots, a reserved head, and a body planned with the loop as a target |
| ActivationPlanner.ActivationPlanner.PlanStateTransition | crates/nymph-codegen/src/emit.rs:1283-1379 | A transition is planned as snapshot, replacements in order, and one commit |
| ActivationPlanner.ActivationPlanner.PlanFor | crates/nymph-codegen/src/emit.rs:1091-1214 | A `for` is planned around a reserved head that is filled when its body is known |
| ActivationPlanner.ActivationPlanner.FillState | crates/nymph-codegen/src/emit.rs:491-501 | A reserved number is filled once, and only then |
| ActivationPlanner.ActivationPlanner.Finish | crates/nymph-codegen/src/emit.rs:440-453 | The body is planned, state 0 is filled, and no entry of the table is empty |
| PatternCompiler.PatCorrect | crates/nymph-codegen/src/emit.rs:6250-6513 | For every pattern with linear names whose union sides bind the same names, and every value of its type: the compiled test reads only what is there, is true exactly when the reference matcher succeeds, and then each binding reads the matcher's value through the decisions, whatever later tests decide |
| PatternCompiler.UnionCorrect | crates/nymph-codegen/src/emit.rs:6442-6513 | A union tries its left side first and its decision variable selects, for every binding, the side that matched |
| PatternCompiler.PatOwns | crates/nymph-codegen/src/emit.rs:6250-6513 | The decisions of a compiled pattern are distinct and drawn from its own range of the counter |
| PatternCompiler.ListPartsCorrect | crates/nymph-codegen/src/emit.rs:6341-6408 | Prefix and suffix elements of a list pattern are read only behind its length test, and the rest clause binds what lies between them |
| PatternCompiler.MapCorrect | crates/nymph-codegen/src/emit.rs:6409-6433 | A map key is read only behind a presence test, and the rest is the map without the named keys |
| PatternCompiler.RangeRuns | crates/nymph-codegen/src/emit.rs:6516-6552 | A range test agrees with membership in the range, for open and closed ends |
| Patterns.NumbersInRange | crates/nymph-codegen/src/emit.rs:6516-6552 | Membership in each kind of range, spelled out with the comparison of numbers |
| Patterns.TextsCompare | crates/nymph-codegen/src/emit.rs:6516-6552 | Text bounds compare by the first character in which the texts differ |
| Patterns.RangesKeepKind | crates/nymph-codegen/src/emit.rs:6516-6552 | A payload lies in no range with a bound of another kind |
| Patterns.MapRestIs | crates/nymph-codegen/src/emit.rs:6425-6429 | The rest clause of a map pattern binds exactly the entries whose key no entry of the pattern names |
| Patterns.MatchBindsNames | crates/nymph-codegen/src/emit.rs:6250-6513 | A successful match binds exactly the names of the pattern |
| MatchForms.BlockPicksFirstArm | crates/nymph-codegen/src/emit.rs:5954-6024 | The labelled block, with its testless unguarded last arm, has the outcome of the first arm whose pattern matches and whose guard holds, as the planned form does; the fallback needs the match to cover the value |
| MatchForms.ArmTested | crates/nymph-codegen/src/emit.rs:6578-6644 | The test of an emitted arm, with its decisions declared anew, selects the arm exactly when the pattern matches and declares the matcher's bindings |
| MatchForms.AttemptStoresTheMatch | crates/nymph-codegen/src/emit.rs:1446-1474 | The match an attempt state emits fills the pattern's slots as the pattern action of the state table is defined to |
| MatchForms.AttemptTellsTheMatch | crates/nymph-codegen/src/emit.rs:1446-1474 | Its value tells whether the pattern matched |
| Activation.CleanupsRunOnceLatestFirst | crates/nymph-codegen/src/activation_runtime.js:224-431 | In every run of the driver, whatever state functions do, however the activation is resumed or cancelled and whichever cleanups fail: a cleanup that runs is the latest registered one still open, and when the activation has ended each registered cleanup has run exactly once and nothing else has |
| Activation.DefectsAreReportedInRunOrder | crates/nymph-codegen/src/activation_runtime.js:230-312 | The reported defect is the one raised, if any, followed by every cleanup failure since in the order the cleanups ran; an activation that has not failed has no failed cleanup behind it |
| Activation.StepKeeps | crates/nymph-codegen/src/activation_runtime.js:336-431 | Every step keeps the invariant of a run: the history replays to what the frames hold, the report is complete, and only the root frame has no result slot |
| Activation.ReportedInOrder | crates/nymph-codegen/src/activation_runtime.js:230-235 | Joining failures one at a time gives nothing, the single defect, or one aggregate whose errors are those of the first defect followed by all others in order |
| Activation.EveryFailureIsReported | crates/nymph-codegen/src/activation_runtime.js:230-312 | Unless an owner finalises under another primary defect, no failed cleanup of the whole run is missing from the report: it is what was raised, if anything was, with every failure in run order behind it |
| ActivationDriver.ActivationDriver.CloseScope | crates/nymph-codegen/src/activation_runtime.js:237-249 | Cleanups of one scope run from its end and their failures join the primary defect in that order |
| ActivationDriver.ActivationDriver.UnwindScopes | crates/nymph-codegen/src/activation_runtime.js:237-249 | Scopes above the depth are popped and run, innermost first |
| ActivationDriver.ActivationDriver.UnwindActivation | crates/nymph-codegen/src/activation_runtime.js:292-297 | All frames are popped and run, top first, and the defect carries every failure |
| ActivationDriver.ActivationDriver.Dispatch | crates/nymph-codegen/src/activation_runtime.js:345-420 | Each terminal (push, tail call, return, suspend, resume, defect) moves the frame stack as the step function says |
| ActivationDriver.ActivationDriver.Drive | crates/nymph-codegen/src/activation_runtime.js:336-431 | Driving calls the top frame until the activation is no longer active; the state is that of the corresponding run |
| ActivationDriver.ActivationDriver.ResumeWith | crates/nymph-codegen/src/activation_runtime.js:314-327 | A suspension is settled at most once |
| ActivationDriver.ActivationDriver.CancelWith | crates/nymph-codegen/src/activation_runtime.js:328-333 | A suspension is cancelled at most once, unwinding everything under the reason given |
| ActivationDriver.ActivationDriver.ThrowActivationDefect | crates/nymph-codegen/src/activation_runtime.js:299-304 | A defect unwinds the activation at once unless an execution owns it |
| ActivationDriver.ActivationDriver.FinalizeDefect | crates/nymph-codegen/src/activation_runtime.js:310-312 | A pending defect is finalised by unwinding everything under the owner's primary defect |
| ActivationCalls.CallGivesBack | crates/nymph-codegen/src/activation_runtime.js:336-431 | A call from push to return: whatever runs above the caller in between, tail calls, suspensions and further calls included, when the frame that stands for the call gives a value and nothing failed, the caller goes on at the state it named with the value in the slot it named, its other locals and the frames below as they were |
| ActivationCalls.ActivationFinishesWith | crates/nymph-codegen/src/activation_runtime.js:369-389 | The value the last frame gives is what the activation finishes with, unless a cleanup failed |
| ActivationCalls.OnlyAGivenValueFinishes | crates/nymph-codegen/src/activation_runtime.js:369-391 | Nothing but the value of the last frame finishes an activation |
| ActivationCalls.ValueIsGiven | crates/nymph-codegen/src/activation_runtime.js:369-391 | A return, or a tail call answered outside, pops its frame and writes the value where the frame below reserved a slot |
| ActivationCalls.QuietEndGives | crates/nymph-codegen/src/activation_runtime.js:384-391 | A return fails only if a cleanup of its frame does |
| ActivationCalls.PushStarts | crates/nymph-codegen/src/activation_runtime.js:345-368 | A pushed callable starts in state 0 with argument `i` in slot `i` and one empty scope; a call answered outside writes the answer at once |
| ActivationCalls.TailStarts | crates/nymph-codegen/src/activation_runtime.js:369-382 | A tail call starts the callee in the place of its caller, for whoever waited for the caller |
| ActivationCalls.ResumeGoesOn | crates/nymph-codegen/src/activation_runtime.js:392-395 | Resuming writes the value and goes on |
| ActivationCalls.SuspensionGoesOn | crates/nymph-codegen/src/activation_runtime.js:314-327 | A suspension hands out the value of its effect; settling it writes the result and goes on where the suspension said |
| ActivationCalls.RaisedIsReported | crates/nymph-codegen/src/activation_runtime.js:299-312 | What is raised, by a terminal, by something outside, by an impossible operation, by cancelling or by an owner, is what is reported, with cleanup failures behind it |
| ActivationCalls.OperationOnScopes | crates/nymph-codegen/src/activation_runtime.js:162-265 | Registering adds to the innermost scope, entering opens one, unwinding and leaving close exactly those above the depth; nothing else of the frame changes |
| StateTransition.TransitionFrame.CommitStateTransition | crates/nymph-codegen/src/activation_runtime.js:171-208 | The whole outcome of a state-loop commit: on success each replaced cleanup ran and its place holds the new one; on failure the replaced and the acquired cleanups ran and only untouched ones remain; an inactive cleanup changes nothing in the header |
| StateTransition.CommitConserves | crates/nymph-codegen/src/activation_runtime.js:171-208 | A successful commit loses no cleanup and holds none twice if and only if the acquired scope held exactly the replacement handles |
| StateTransition.FailureConserves | crates/nymph-codegen/src/activation_runtime.js:171-208 | A failed commit has run every replaced and every acquired cleanup once and still holds exactly the others |
| StateTransition.SortDescending | crates/nymph-codegen/src/activation_runtime.js:194 | Slots are removed from the highest down |
| Tasks.CancelledNeverProduces | crates/nymph-codegen/src/task_runtime.js:162-194 | In every interleaving, an execution whose cancel runs before it settles never settles as produced |
| Tasks.FailuresComeAfterChildren | crates/nymph-codegen/src/task_runtime.js:168-194 | In every interleaving, an execution that settles as cancelled or defected does so, and closes the frames it retained, only after every child it adopted has settled |
| Tasks.OnlyCancelledChildrenAreAwaited | crates/nymph-codegen/src/task_runtime.js:146-160 | A failing execution waits only for children that have been cancelled or are settled |
| Tasks.SettlementsAreFixed | crates/nymph-codegen/src/task_runtime.js:185-193 | Settlement numbers are unique, and neither a number nor an outcome ever changes once assigned |
| Tasks.FirstSettlementStaysFirst | crates/nymph-codegen/src/task_runtime.js:346-374 | A select that began with no handle settled picks, whenever its callback runs, a handle with the smallest settlement number of all, and later settlements never overtake it |
| Tasks.StepKeeps | crates/nymph-codegen/src/task_runtime.js:113-195 | Every atomic step of any execution keeps the invariant of the world |
| Tasks.NoDefectIsLost | crates/nymph-codegen/src/task_runtime.js:32-50 | The defect an owner reports contains its own and every defect a child reports: the child's defect or, when it was cancelled on the way, each of those its cancellation collected |
| Tasks.CancelledExactly | crates/nymph-codegen/src/task_runtime.js:26-50 | An execution settles as cancelled if and only if it failed by cancellation, no child reports anything else and no cleanup failed |
| Tasks.NothingIsAdded | crates/nymph-codegen/src/task_runtime.js:32-50 | Nothing but what children report joins the defect of their owner, and all of it comes behind |
| TaskReports.SpawnedIsAdopted | crates/nymph-codegen/src/task_runtime.js:113-144 | A spawned child starts uncancelled, is its owner's last child, and counts as adopted after any further steps |
| TaskReports.ChildDefectsAreReported | crates/nymph-codegen/src/task_runtime.js:150-194 | In every interleaving a settled failure carries each defect that any child it ever adopted reports; one settled as cancelled has only children that report nothing but cancellation |
| TaskReports.OwnDefectIsReported | crates/nymph-codegen/src/task_runtime.js:168-194 | What an execution fails with is in what it settles with, whatever its children and cleanups add |
| TaskReports.CleanupFailuresAreReported | crates/nymph-codegen/src/task_runtime.js:178-188 | The failures of retained cleanups are reported last, all of them in order |
| TaskReports.RetainedFramesAreClosedOnce | crates/nymph-codegen/src/task_runtime.js:168-194 | In every interleaving, frames that a failure keeps back are closed exactly once by the time the execution has settled, and none are closed otherwise |
| TaskReports.ProductIsDelivered | crates/nymph-codegen/src/task_runtime.js:174-194 | A recipe that completes and was not cancelled settles with its value, for good |
| TaskReports.OnlyCompletionProduces | crates/nymph-codegen/src/task_runtime.js:168-194 | Nothing else settles as produced |
| TaskProgress.EveryoneCanSettle | crates/nymph-codegen/src/task_runtime.js:146-194 | Joining cannot deadlock: from every world an interleaving reaches, whatever failed and whoever was cancelled, there are steps after which every execution has settled |
| TaskRuntime.TaskRuntime.Cancel | crates/nymph-codegen/src/task_runtime.js:162-166 | Cancelling raises the flag of exactly the executions reached from it through unsettled children that were not aborted yet; every other execution, and everything else of these, stays as it was |
| Tasks.CancelReaches | crates/nymph-codegen/src/task_runtime.js:146-166 | Cancelling one execution marks exactly those below it; below each one newly marked every child ends aborted or settled |
| TaskRuntime.TaskRuntime.JoinChildren | crates/nymph-codegen/src/task_runtime.js:150-160 | Joining cancels the children, takes over their list and empties it |
| TaskRuntime.TaskRuntime.JoinDone | crates/nymph-codegen/src/task_runtime.js:168-194 | When the children are in, what is pending is closed and the outcome decided |
| TaskRuntime.TaskRuntime.FirstSettlement | crates/nymph-codegen/src/task_runtime.js:346-374 | The callback finds a settled handle with the smallest number, and none exactly when none is settled |
| HashBits.PopcountCounts | crates/nymph-codegen/src/hashmap_runtime.js:409-413 | The multiply-and-shift population count is the number of set bits, for every 32-bit word |
| HashBits.RankCounts | crates/nymph-codegen/src/hashmap_runtime.js:434-447 | The child index is the number of set bits below the child's own bit |
| HashBits.ChunksDecide | crates/nymph-codegen/src/hashmap_runtime.js:415-432 | Distinct 32-bit hashes differ at one of the seven levels, so merging ends |
| HashMap.MergePlaced | crates/nymph-codegen/src/hashmap_runtime.js:415-432 | Merging two subtrees of different hashes under a shared path gives a well-placed bitmap holding the entries of both |
| HashMap.SetUpdates | crates/nymph-codegen/src/hashmap_runtime.js:449-493 | Setting keeps the trie well-formed, replaces the entry of an equal key or adds one, and reports an insertion exactly when no equal key was there |
| HashMap.DeleteRemoves | crates/nymph-codegen/src/hashmap_runtime.js:495-529 | Deleting keeps the trie well-formed and removes exactly the entry of an equal key; when none is there the tree is unchanged |
| StructuralLaws.GetFinds | crates/nymph-codegen/src/hashmap_runtime.js:434-447 | Level by level, lookup finds what a search through all entries finds |
| StructuralLaws.TreeApart | crates/nymph-codegen/src/hashmap_runtime.js:531-542 | No two entries of a well-formed trie have equal keys |
| HashMap.MapIsFinite | crates/nymph-codegen/src/hashmap_runtime.js:558-566 | The size is the number of keys, pairwise unequal; a key is found exactly when an equal one is present, with its value |
| HashMap.SetRefines | crates/nymph-codegen/src/hashmap_runtime.js:567-571 | After a set, equal keys find the new value and every other key what it found before; the size grows exactly when the key is new |
| HashMap.DeleteRefines | crates/nymph-codegen/src/hashmap_runtime.js:572-576 | After a delete, equal keys find nothing and every other key what it found before; the old value is handed back |
| Denotation.LookupIsApplication | crates/nymph-codegen/src/hashmap_runtime.js:558-566 | A lookup applies the finite map a trie denotes; the size is the size of that map |
| Denotation.SetDenotes | crates/nymph-codegen/src/hashmap_runtime.js:567-571 | Setting is update of the map denoted |
| Denotation.DeleteDenotes | crates/nymph-codegen/src/hashmap_runtime.js:572-576 | Deleting is removal from the map denoted |
| EqualityLaws.EqualityIsAnEquivalence | crates/nymph-codegen/src/hashmap_runtime.js:288-346 | Structural equality is reflexive, symmetric and transitive on all float-free values, with maps nested in maps and maps as keys |
| EqualityLaws.EqualValuesHashAlike | crates/nymph-codegen/src/hashmap_runtime.js:348-389 | Equal values, for which see `Denotation.EqualityIsSameMeaning`, have equal hashes: an int and a uint of one number, and maps built in different orders |
| Denotation.EqualityIsSameMeaning | crates/nymph-codegen/src/hashmap_runtime.js:288-346 | Two values are equal if and only if they denote the same: numbers by integer value whatever the box, payloads by kind and text, lists and tuples pointwise, nominals by tag, identity and members, maps as finite maps |
| Denotation.NumbersMeet | crates/nymph-codegen/src/hashmap_runtime.js:296-300 | An int and a uint are equal, either way round, if and only if they hold the same number |
| Denotation.MapsAreExtensional | crates/nymph-codegen/src/hashmap_runtime.js:303-323 | Maps are equal if and only if they are as large and find equal values, or nothing, under every key |
| HashSpread.SmallIntegersDiffer | crates/nymph-codegen/src/hashmap_runtime.js:194-205 | Different integers below two to the 32nd have different hashes |
| HashSpread.SignTells | crates/nymph-codegen/src/hashmap_runtime.js:194-205 | A number and its negative have different hashes |
| HashSpread.PayloadsDiffer | crates/nymph-codegen/src/hashmap_runtime.js:153-161 | Payloads that differ in one character have different hashes |
| HashSpread.SequencesDiffer | crates/nymph-codegen/src/hashmap_runtime.js:163-170 | Lists and tuples that differ in one item of another hash have different hashes |
| HashSpread.NominalsDiffer | crates/nymph-codegen/src/hashmap_runtime.js:378-386 | Structs and variants that differ in one member of another hash have different hashes |
| HashSpread.IdentitiesDiffer | crates/nymph-codegen/src/hashmap_runtime.js:378-386 | Those of two types whose identities differ in one character have different hashes |
| HashSpread.KeyHashIs | crates/nymph-codegen/src/hashmap_runtime.js:207-214 | The 32 bits a key is filed under bring both halves of its hash together |
| EqualityLaws.UnorderedAgrees | crates/nymph-codegen/src/hashmap_runtime.js:172-192 | The unordered combination depends only on which hashes there are, not on their order |
| HashLoops.UnorderedHash | crates/nymph-codegen/src/hashmap_runtime.js:172-192 | The loop over running sums computes the unordered combination, the same for every permutation |
| HashLoops.FromEntries | crates/nymph-codegen/src/hashmap_runtime.js:550-557 | Building a map from entries finds, for every key, the value of its last equal entry; it denotes the entries set one after the other |
| Denotation.MapsInAnyOrder | crates/nymph-codegen/src/hashmap_runtime.js:550-557 | Maps made from the same entries in any order are equal and hash alike |
| PersistentVector.AppendIsCanonical | crates/nymph-codegen/src/list_runtime.js:110-125 | Appending to the vector of a sequence gives, structurally, the vector of the longer sequence, for every length |
| PersistentVector.AppendAll | crates/nymph-codegen/src/list_runtime.js:85-90 | Appending items one at a time from empty gives, structurally, their canonical vector |
| PersistentVector.HeightIsSmallest | crates/nymph-codegen/src/list_runtime.js:43-56 | The height of the vector of a sequence is the smallest whose trie has room for its leaves: the leaves number at most 32 to the height and, above height one, more than 32 to the height below |
| PersistentVector.HeightRisesWhenFull | crates/nymph-codegen/src/list_runtime.js:110-125 | Appending adds a root level if and only if the tail is full and the leaves number exactly 32 to the height; the test on the count and the shift finds exactly that |
| PersistentVector.GetReads | crates/nymph-codegen/src/list_runtime.js:96-109 | Reading a vector at an index reads the sequence; outside it nothing is read |
| PersistentVector.ReplaceIsCanonical | crates/nymph-codegen/src/list_runtime.js:127-145 | Replacing an item gives the vector of the updated sequence; an index outside is refused |
| VectorBuilding.FromLeaves | crates/nymph-codegen/src/list_runtime.js:43-56 | Level-by-level grouping ends in the root and shift of the canonical vector |
| VectorBuilding.ListTransient.Freeze | crates/nymph-codegen/src/list_runtime.js:193-203 | A frozen transient is structurally the vector of appending its items one at a time; a second freeze is refused |
| VectorBuilding.ListTransient.Append | crates/nymph-codegen/src/list_runtime.js:188-191 | Items are added until the transient is frozen |
| VectorBuilding.FromItems | crates/nymph-codegen/src/list_runtime.js:85-90 | Bulk construction equals appending |
| VectorBuilding.LeafFor | crates/nymph-codegen/src/list_runtime.js:96-103 | The leaf of an index is the tail or the leaf its digits lead to |
| VectorBuilding.Slice | crates/nymph-codegen/src/list_runtime.js:147-167 | A slice is the canonical vector of exactly the items at positions from the start on and before the end, whatever the bounds |
| VectorBuilding.AlignedLeaf | crates/nymph-codegen/src/list_runtime.js:147-167 | A reused aligned leaf is a full leaf of the trie, never the tail |
| VectorBuilding.ListSlice | crates/nymph-codegen/src/box_rt.rs:165-180 | With negative, absent, inclusive and checked bounds a list slice selects exactly the items between the positions named, or is refused exactly when a checked bound is outside |
| VectorBuilding.SelectionIs | crates/nymph-codegen/src/list_runtime.js:147-149 | What a slice selects in each case: nothing for bounds in the wrong order or a start past the end, the items from the start on for an end past the list, from the first for a start before it |
| Integers.PowerIsExact | crates/nymph-codegen/src/box_rt.rs:147-154 | A result box accepts a power if and only if the exponent is not negative and the exact power is in its range, and then holds that power, for int and for uint |
| Journal.RollbackRestores | crates/nymph-codegen/src/hashmap_runtime.js:24-45 | Whatever is done inside a transaction, with further transactions nested to any depth, committed or rolled back, and any reversible writes between them, rolling it back restores the heap it began with |
| Journal.UndoneExactly | crates/nymph-codegen/src/hashmap_runtime.js:46-109 | Undoing the entry of a write restores the heap if and only if the write is reversible, a condition checkable before the write |
| Journal.ShorterLengthIsNotUndone | crates/nymph-codegen/src/hashmap_runtime.js:46-57 | Assigning a shorter length through the property write loses elements for good: the failing family's concrete case |
| Journal.LengthWriteIsReversible | crates/nymph-codegen/src/hashmap_runtime.js:91-95 | Changing a length the runtime's way drops the same elements but can be undone |
| Journal.PushWriteIsReversible | crates/nymph-codegen/src/hashmap_runtime.js:84-90 | Pushing appends the items and can be undone |
| Journal.WriteLeaves | crates/nymph-codegen/src/hashmap_runtime.js:46-102 | What each write leaves: the property, the element positions, the length, the prototype or the entry it is about reads as written and everything else as before; a refused write changes nothing |
| Journal.StepKeeps | crates/nymph-codegen/src/hashmap_runtime.js:24-45 | Every begin, commit, rollback and reversible write keeps the entries of every open transaction able to restore its beginning |
| TransactionJournal.TransactionJournal.Commit | crates/nymph-codegen/src/hashmap_runtime.js:27-32 | An inner commit hands its entries to the transaction around it |
| TransactionJournal.TransactionJournal.Rollback | crates/nymph-codegen/src/hashmap_runtime.js:33-42 | A rollback runs the entries backwards, nothing throws, and the heap is that of the matching begin |
| TransactionJournal.TransactionJournal.Perform | crates/nymph-codegen/src/hashmap_runtime.js:43-83 | A write is journaled before it happens, also when it is then refused |
| Edits.NewSourceEdit | crates/nymph-diagnostics/src/lib.rs:93-129 | Replacements are accepted if and only if the source is named, there is one, every span is ordered and all spans are pairwise apart, whatever order they come in; accepted ones are kept strictly increasing; each error names what is wrong |
| Edits.InputOrderIsForgotten | crates/nymph-diagnostics/src/lib.rs:93-129 | Two accepted edits with the same replacements in different input orders are the same edit |
| Edits.NewEditGroup | crates/nymph-diagnostics/src/lib.rs:161-182 | A group is accepted if and only if it has a title, a source, and names no source twice; its sources are ordered by project, then by module |
| Edits.Validate | crates/nymph-diagnostics/src/lib.rs:207-248 | Validation succeeds if and only if the snapshots are distinct and every source is there at its version with every span in bounds and on character boundaries; otherwise it reports the first thing wrong |
| Edits.ApplyToText | crates/nymph-diagnostics/src/lib.rs:265-271 | Applying the replacements from last to first in place equals one left-to-right substitution, every intermediate replacement being on boundaries |
| Edits.StillFits | crates/nymph-diagnostics/src/lib.rs:265-271 | Edits made further right leave every span further left in bounds and on character boundaries |
| Edits.SubstituteIsText | crates/nymph-diagnostics/src/lib.rs:265-276 | The edited text is well-formed UTF-8 |
| Edits.Apply | crates/nymph-diagnostics/src/lib.rs:256-279 | Applying is atomic: every source of the group is edited, or no text is produced and the validation error is returned |
| Edits.Migrate | crates/nymph-diagnostics/src/lib.rs:93-279 | Constructing an edit for each draft, grouping them and applying the group: what the constructors return can always be applied, and it succeeds if and only if title, sources, replacements and snapshots are all acceptable; then there is one edited text for each draft, in the order of the sources |
| Edits.InputOrderDecidesNothing | crates/nymph-diagnostics/src/lib.rs:93-182 | Whatever order the drafts and the replacements of each come in, the same edited texts come out |
| Edits.AcceptanceIgnoresOrder | crates/nymph-diagnostics/src/lib.rs:93-182 | Reordered drafts are accepted or refused alike |
| Utf8.SplitsAtBoundaries | crates/nymph-diagnostics/src/lib.rs:237-244 | Well-formed text falls into well-formed halves exactly at its character boundaries |
| Utf8.TextIsEncoded | crates/nymph-diagnostics/src/lib.rs:237-244 | Well-formed text is the encoding of some sequence of code points |
| Utf8.EncodedIsText | crates/nymph-diagnostics/src/lib.rs:237-244 | Every encoding of code points is well-formed text |
| Ordering.LessIs | crates/nymph-diagnostics/src/lib.rs:161-182 | Identities are ordered by the first character in which they differ |
| Documents.DocumentStore.Open | crates/nymph-lsp/src/document_store.rs:44-55 | Opening begins a lifecycle at a new revision |
| Documents.DocumentStore.ChangeFull | crates/nymph-lsp/src/document_store.rs:61-71 | Only an open document changes, at a new revision, within its lifecycle |
| Documents.DocumentStore.SetBuildProfile | crates/nymph-lsp/src/document_store.rs:122-129 | The revision advances exactly when the profile changes |
| Documents.RunMovesForward | crates/nymph-lsp/src/server.rs:1386-1454 | In every run of notifications each later table differs from an earlier one only by documents reopened since, or changed since within one lifecycle with a risen version when untitled |
| Documents.RevisionsTellWhichIsLater | crates/nymph-lsp/src/document_store.rs:23-28 | Of any two snapshots of one run the one with the larger revision is the later table, and equal revisions mean equal tables |
| Documents.OwnerHoldsTheBuffers | crates/nymph-lsp/src/server.rs:1386-1454 | After every run of notifications the owner holds exactly the buffers left open, each with the text and version of its last opening or counting change |
| Documents.OwnerHasTheProfile | crates/nymph-lsp/src/server.rs:1386-1454 | After every run of notifications the owner has the profile configured last |
| Documents.UntitledScheme | crates/nymph-lsp/src/compiler_state.rs:269-276 | The untitled scheme is recognised whatever its case |
| Workers.ListInUpdateOrder | crates/nymph-lsp/src/document_store.rs:98-109 | The chosen documents are listed by strictly increasing update revision; the tie-break is never needed |
| Workers.WorkerState.Synchronize | crates/nymph-lsp/src/analysis_scheduler.rs:146-156 | After a successful synchronize the worker's table has the same URIs, texts and versions as the snapshot, updated in the same order, and its compiler the same profile; any failure invalidates it |
| Workers.WorkerState.SynchronizeInner | crates/nymph-lsp/src/analysis_scheduler.rs:158-229 | The incremental path and reconstruction both end in step with the snapshot |
| Workers.WorkerState.CloseRemoved | crates/nymph-lsp/src/analysis_scheduler.rs:175-188 | Documents the snapshot lacks are closed, latest updated first, and nothing else changes |
| Workers.WorkerState.Update | crates/nymph-lsp/src/analysis_scheduler.rs:190-225 | One differing document is changed, opened, or closed and reopened, never dropped by the untitled rule |
| Workers.WorkerState.Reconstruct | crates/nymph-lsp/src/analysis_scheduler.rs:242-266 | Starting over opens every document in the owner's order |
| Workers.WorkerState.CompilerChange | crates/nymph-lsp/src/compiler_state.rs:264-286 | An untitled change that does not raise the version, or one of a closed document, is ignored |
| Workers.StaleChangeWouldDiverge | crates/nymph-lsp/src/server.rs:1408-1419 | If the owner took an untitled change that does not raise the version, the worker would drop it and fall out of step |
| WorkerLoop.RunTask | crates/nymph-lsp/src/analysis_scheduler.rs:341-366 | A task is answered from a table in step with the one it was issued for; an error or a panic invalidates the worker |
| WorkerLoop.RunTasks | crates/nymph-lsp/src/analysis_scheduler.rs:341-366 | Over every queue of tasks, whatever fails or panics in between and whatever it leaves behind, an answered task was answered from its own snapshot, and a task nothing disturbs is answered |

## Left out

- Planner: HIR forms that are emitted without splitting (member access, construction, closures and the rest) appear only
  as atomic operands, eager operators and opaque calls; tail calls and the frames of enclosing closures are not modelled.
- Planner: a temporary is its slot, where the planner goes through a named temporary; the slots of pattern names follow
  their occurrence, where the planner sorts them; neither is observable in a run.
- Planner: a cleanup is a named closer applied to the binding, and a defect is the list of what failed.
- Planner: managed state-loop bindings, whose acquired scope the planner's static depth does not count, are covered by
  the commit in `StateTransition` only.
- Planner: the step of a `for` is always a generated call, plain continue never targets a state loop, and continue with
  replacements always does, as name lowering produces them.
- Pattern compiler: values are assumed to have the shape the pattern's type promises; that covered matches are exhaustive
  is for the type checker to decide and is a condition on the value here.
- Pattern compiler: literal patterns compare payloads; emission of JavaScript text and of fresh names is not modelled.
- Driver: state functions are any sequence of scope operations followed by a terminal; rendering and activations started
  inside a cleanup are not modelled, and a cleanup that suspends counts as failing.
- Driver: frames are values in a stack; member lookup, receivers and source positions are left out.
- Tasks: defects are compared by value, where the runtime compares object identity.
- Tasks: the one snapshot a task context joins, handles already settled when a select begins, promise plumbing and
  checkpoints inside a recipe are left out; spawning and adopting a child is one step.
- Hash tries: floats, the hash cache, proxies, and maps changed while they are compared are left out. The identity
  shortcut of equality is left out as reflexivity makes it redundant. No canonical shape of the trie is claimed.
- Hash tries: lists are sequences inside values, where the runtime holds persistent vectors.
- Hash tries: that maps with different entries hash differently is not claimed; for every other kind of value a change in
  one place is shown to change the hash.
- Vectors: indices are unbounded naturals with shifts as division and remainder, faithful below two to the 31st; property
  indexing through proxies, map, join and sharing of frozen nodes are left out.
- Journal: getters, setters, non-configurable properties, prototype cycles, enumeration order and freezing inside a
  transaction are left out.
- Edits: spans are unbounded; the diagnostics around an edit group are left out.
- Edits.SortByKey: insertion sort where the library sorts stably; replacements with equal keys are rejected, so the order
  among them is never seen.
- Workers: the compiler session behind a worker, its authoritative overlays and what it reads from disk are left out;
  each of its operations either succeeds or reports an error after the table has changed.
- Workers: threads, channels and queue limits are left out, and so is the loop's early end when no one receives results;
  revision counters are unbounded.
- Checked powers: shifts, divisions and float conversions are left out.
