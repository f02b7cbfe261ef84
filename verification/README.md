# Verified models of the orchestration kernels

This project models the algorithmic kernels of an agent-orchestration platform in Dafny and
proves what each of them promises, for every input, every run and every interleaving. One
module stands for one source component; code that works by updating state is a class or a
loop proved against a specification function, and the promises are lemmas about that function.

- **LineDiff**: the hook editor's line diff. It fills a flattened table of 32-bit cells in place
  and walks it; the preview is an exact edit script, and a shortest one exactly when the table
  was built or the two texts share no line.
- **TaskGraph**, **TaskMachine**: the multi-task driver: select, claim, execute, close, then the
  SKIPPED fixpoint. The environment (kill polls, lease claims, executions) is arbitrary and indexed
  by turn; the task states and the table of legal moves say what a human can do, while one task
  executes, to the others.
- **TokenBucket**, **Dispatch**: the rate limiter's exact law over real time, and the worker pool
  as interleaved steps over one shared index, composed into a bound on sends in any interval.
- **Schema**, **Proposing**, **CostUnits**: the JSON-Schema validator, the strict-mode rewriting
  it gives meaning to, the bounded repair loop that uses it, and the single re-route.
- **TaskHierarchy**, **TaskParser**, **TaskBlocks**: the two-level task-list parser as a line-driven
  state machine, the same parser as mutable state, and the printer with its round trip. A line is a
  datatype (root, child, bad checkbox, fence, evidence, metadata, text, blank).
- **TaskDetails**, **TaskEdits**, **TaskRenumber**, **TaskBlockAlone**: where each line below a checkbox
  goes, which edits of a list leave what it says as it was, up to line numbers, and the parsing of one
  root's block by itself.
- **OutcomeRouting**, **OutcomeStats**: the reorder by outcome, the exploration swap, the
  shadow pick, the fold of the event log and the per-round cache of that fold.
- **Breaker**, **Pagination**, **UsageWindows**, **SecretDrain**, **TermSession**: the circuit
  breaker, keyset paging, greedy usage windows, the secret-drain loop and terminal sessions.
- **FusionResolve**, **FusionReviews**, **FusionRun**: the resolve rules and the panel pipeline,
  with judge independence as a two-run property.
- **StableSort**, **Common**: a stable sort by comparator and shared vocabulary.

Where the code and its own comments or tests promise different things, the model follows the code:

- A task whose lease was refused *can* be labelled SKIPPED: exactly when one of its dependencies,
  satisfied when it was claimed, no longer is at the end (`TaskGraph.RefusedIsSkippedExactly`). The
  table allows that when the pending package of a finished task is rejected, or the task is ended by
  hand, while another one executes (`TaskGraph.RefusedCanBeSkipped`, `TaskMachine.HumanMovesOf`).
- A task can also be left out of a run without any claim, when it was ended by hand before it started
  (`TaskGraph.WithheldMeansRefused`).
- The drain's budget backstop is described as something normal operation never hits. It is
  reachable exactly when more paths can be evicted than the budget counts, so with more than
  twenty accumulated paths (`SecretDrain.BackstopExactly`).
- Dissent is to be every finding not raised by all candidates, but the code counts raisings, so
  a candidate that repeats a finding can hide another's silence (`FusionReviews.DissentExactly`).
- Paging loses records tied with the last one of a page (`Pagination.FixedStore`,
  `Pagination.TieIsLost`).
- Past the size cap of its table the diff preview is no shortest script, unless the texts share no
  line (`LineDiff.PreviewIsMinimal`, `LineDiff.CapCostsMinimality`).
- The strict rewriting forgets required keys that are not declared, and a null cannot be filled
  in where an optional key's enum leaves null out or the key has no type
  (`Schema.DropNullsPreserves`, `Schema.FillNullsPreserves`).
- A printed block reads back exactly when it says something and no stored value begins with a
  marker word (`TaskBlocks.RoundTrip`, `TaskBlocks.GluedMarkerIsLost`).
- A closed breaker can stand at its threshold: a failure that reaches it opens, but a success never
  does (`Breaker.SuccessNeverTrips`, `Breaker.ThresholdByASuccess`, `Breaker.ThresholdIsReached`).
- A cross-lineage panel is diverse only if the profile's lineages are: a lineage named twice seats
  the same adapter twice (`FusionRun.PanelIsDiverse`, `FusionRun.RepeatedLineageSeatsTwice`).
- The shadow recorder reads the order after the exploration swap, so on a tie it names the runner-up
  instead of the adapter ranked first (`OutcomeStats.RecorderNamesTheWinner`).
- The terminal ring's constant is named in bytes; it bounds the string's code units.

Everything that comes from outside is a parameter: clocks, ids, tickets, the filesystem, the
adapters' answers, lease claims, kill polls, hashes, and the choice of which worker moves next.

## Model

| member | source | states |
|---|---|---|
| LineDiff.LinesRoundTrip | console/backend/src/surfaces.ts:85-87 | splitting a text into lines loses nothing, so texts are equal exactly when their line lists are |
| LineDiff.LinesIsTheSplit | console/backend/src/surfaces.ts:85-86 | the lines are the only list without a newline in any element that joins back to the text |
| LineDiff.LongestIsMaximum | console/backend/src/surfaces.ts:95-101 | a table value is the maximum length of a common subsequence: no common subsequence is longer and one of that length exists |
| LineDiff.PreviewIsExact | console/backend/src/surfaces.ts:84-121 | whichever branch answers, both texts are interleavings of one common kept list with the removed and the added lines |
| LineDiff.PreviewIsMinimal | console/backend/src/surfaces.ts:84-121 | the preview is a shortest edit script if and only if it came from the table, or the inputs are equal, or the two texts share no line |
| LineDiff.CapCostsMinimality | console/backend/src/surfaces.ts:88-92 | past the cap, n and n + 1 blank lines with n at least 1000 get a preview that is not the shortest |
| LineDiff.ShortcutAgreesWithWalk | console/backend/src/surfaces.ts:87-87 | the equal-input shortcut is what the table and walk would have answered |
| LineDiff.RemovesWhenItCan | console/backend/src/surfaces.ts:110-117 | among shortest scripts: of two different first lines the walk removes the old one if some longest common subsequence does without it, and adds the new one only otherwise |
| LineDiff.CellAt | console/backend/src/surfaces.ts:97-99 | flattened indices stay in bounds and address the intended pair of suffixes |
| LineDiff.FillTable | console/backend/src/surfaces.ts:93-101 | the in-place double loop leaves every cell with its longest-common-subsequence length, in 32 bits |
| LineDiff.ComparedCells | console/backend/src/surfaces.ts:111-111 | the two cells the walk compares hold the values of the two shorter problems |
| LineDiff.JsonDiffPreview | console/backend/src/surfaces.ts:84-122 | the imperative diff computes exactly the specified preview |
| TaskGraph.SelectsFirstEligible | core/src/graph/select.ts:39-49 | the first not-started task in file order whose dependencies are all satisfied, and none exactly when no task is eligible |
| TaskGraph.SelectNextTask | core/src/graph/select.ts:39-49 | the selection loop meets that specification |
| TaskGraph.DependencySafety | console/backend/src/loop-run.ts:1599-1637 | over every run and environment each task executes at most once, and only on a log where all its dependencies stand satisfied |
| TaskGraph.DependenciesEndSatisfied | console/backend/src/loop-run.ts:1599-1637 | when no execution takes a satisfied dependency back, every dependency of a claimed task is still satisfied at the end; it has executed too, when only executed tasks are logged satisfied |
| TaskGraph.TableMeansEarned | console/backend/src/loop-run.ts:850-888 | if what an execution lets be logged of other tasks follows the transition table, only tasks that executed are ever logged in a satisfied state |
| TaskGraph.ClaimsAreTurns | console/backend/src/loop-run.ts:1599-1637 | each turn claims one task, none that was closed and none twice |
| TaskGraph.ClaimsClose | console/backend/src/loop-run.ts:1608-1637 | the closed tasks are exactly those claimed, and those with an outcome exactly the ones whose claim was won |
| TaskGraph.RunIsItsClaims | console/backend/src/loop-run.ts:1599-1637 | the log is what the executions of the won claims logged, in order, with one start and one held-out sample for each |
| TaskGraph.OutcomesAreReturned | console/backend/src/loop-run.ts:1630-1632 | the outcome recorded for a task is the one its own execution returned |
| TaskGraph.KillStopsTheRun | console/backend/src/loop-run.ts:1599-1606 | the run is killed if and only if the poll at its last turn says so, and no earlier poll did |
| TaskGraph.RunIsComplete | console/backend/src/loop-run.ts:1588-1637 | on an acyclic graph without a kill, a task lacks an outcome exactly when a dependency path leads to an unsatisfied executed task or to one the environment withheld |
| TaskGraph.WithheldMeansRefused | console/backend/src/loop-run.ts:1608-1626 | in any run a task is closed without an outcome if and only if it was claimed and that claim, in some turn of the run, was lost; a task is withheld if and only if that happened or a state of it was logged though it was never claimed, by the table only because it was ended by hand |
| TaskGraph.RefusedIsNeverSkipped | console/backend/src/loop-run.ts:1642-1662 | a lease-refused task is never SKIPPED when no execution takes a satisfied dependency back and only executed tasks are logged satisfied |
| TaskGraph.RefusedIsSkippedExactly | console/backend/src/loop-run.ts:1642-1662 | when only executed tasks are logged satisfied, a lease-refused task is SKIPPED if and only if some dependency of its own is not satisfied at the end |
| TaskGraph.RefusedCanBeSkipped | console/backend/src/loop-run.ts:1642-1662 | there is a run allowed by the transition table in which a refused task ends SKIPPED: its dependency is rejected at review while a third task executes |
| TaskGraph.UnreachableIsLeast | console/backend/src/loop-run.ts:1646-1662 | path unreachability is contained in every labelling the fixpoint loop would leave alone |
| TaskGraph.DeadIsUnreachable | console/backend/src/loop-run.ts:1651-1656 | and it is closed itself: a task with a dead dependency has such a path |
| TaskGraph.SkippedIgnoresFileOrder | console/backend/src/loop-run.ts:1642-1649 | the labels depend on which tasks the graph holds and not on their order |
| TaskGraph.ComputeSkipped | console/backend/src/loop-run.ts:1646-1662 | the in-place iteration terminates with exactly the unreachable tasks |
| TaskGraph.Summarise | console/backend/src/loop-run.ts:1671-1674 | the run reports the most severe state, kill outranking all, and the summed iterations |
| TaskGraph.RunTaskGraph | console/backend/src/loop-run.ts:1580-1684 | the driver loop as written agrees with the run the lemmas are about; each row says what the won execution of that task returned, or SKIPPED exactly when a dead dependency path starts there, or NOT_STARTED |
| TaskMachine.HumanMovesOf | core/src/orchestrator/machine.ts:44-113 | a human can move a satisfied dependency by approving or rejecting one under review and by ending any that is neither approved nor completed, and in no other way |
| TaskMachine.SatisfiedFromPassing | core/src/graph/select.ts:9-22 | the states that satisfy a dependency are exactly those on the way from passed to completed |
| TaskMachine.PassesInTheEnd | core/src/orchestrator/machine.ts:60-78 | from proposed a task can reach passed after any number of failed gates, each followed by diagnosis and repair |
| TaskMachine.EndsAre | core/src/orchestrator/machine.ts:44-113 | no trigger leads out of exactly six states |
| TokenBucket.ExactLaw | aal/src/ratelimit.ts:22-47 | a fresh bucket grants a whole ordered request sequence if and only if no sub-run exceeds the capacity by more than a thousandth of the refill per second for each millisecond it lasts |
| TokenBucket.NextGrant | aal/src/ratelimit.ts:35-47 | after any history of grants, refusals and readings, the next request is granted if and only if it keeps the law together with the earlier grants |
| TokenBucket.GrantsAloneMatter | aal/src/ratelimit.ts:26-47 | refused calls and readings leave no trace on what follows |
| TokenBucket.AnyClockKeepsBounds | aal/src/ratelimit.ts:26-33 | the level stays between zero and capacity, even under a clock that jumps back |
| TokenBucket.IntervalBound | aal/src/ratelimit.ts:22-43 | in any interval the grants exceed the capacity by at most a thousandth of the refill per second for each of its milliseconds |
| TokenBucket.SecondBound | aal/src/ratelimit.ts:22-43 | grants in any thousand milliseconds total at most capacity plus one second of refill, after any calls |
| TokenBucket.EmptiedBucket | aal/src/ratelimit.ts:26-43 | a bucket emptied at t grants n at u if and only if (u - t) * refill is at least 1000 n |
| TokenBucket.OneTokenASecond | aal/src/ratelimit.ts:28-30 | with one token a second, a second take is refused at 1 and at 999 milliseconds and granted at 1000 |
| TokenBucket.Bucket.TryTake | aal/src/ratelimit.ts:36-43 | the method moves the object exactly as the specification and takes nothing on refusal |
| TokenBucket.Bucket.Available | aal/src/ratelimit.ts:44-47 | a reading refills and consumes nothing |
| Dispatch.EffectiveMaxParallel | aal/src/dispatch.ts:60-60 | the largest number both the limit and the ceiling allow, or one when they allow none |
| Dispatch.StepKeepsInv | aal/src/dispatch.ts:120-127 | every interleaved step keeps: claims unique, holders distinct, answers in their own slots, nothing claimed lost |
| Dispatch.EveryItemItsOwnOutcome | aal/src/dispatch.ts:81-134 | in every finished interleaving slot i holds item i's own outcome whatever the others did, and each item was sent exactly once |
| Dispatch.InFlightBound | aal/src/dispatch.ts:120-131 | items in flight are distinct and at most min(effective limit, batch size) at every moment of one call |
| Dispatch.PoolFills | aal/src/dispatch.ts:60-60 | and the bound is reached: some interleaving has that many items in hand at once |
| Dispatch.NeverStuck | aal/src/dispatch.ts:120-132 | an unfinished batch always has an enabled step |
| Dispatch.OnlyRefusalsWait | aal/src/dispatch.ts:93-107 | every step other than a refused poll makes strict progress |
| Dispatch.SendRateBound | aal/src/dispatch.ts:85-108 | sends of a batch to a bucketed target in any interval exceed the capacity by at most a thousandth of the refill per second for each of its milliseconds, other callers of the bucket included |
| Dispatch.DispatchCall.ClaimNext | aal/src/dispatch.ts:120-124 | the shared index is read and advanced in one step of the model |
| Dispatch.DispatchCall.PollBucket | aal/src/dispatch.ts:93-107 | one turn of the wait takes a token from the shared bucket object and sends exactly when granted |
| Dispatch.DispatchCall.AskFor | aal/src/dispatch.ts:93-107 | one call on a shared bucket object answers and moves it as its whole call history says |
| Dispatch.DispatchCall.Settle | aal/src/dispatch.ts:109-125 | an outcome, failure included, goes to the item's own slot and no other |
| Schema.ValidMeansConforms | aal/src/repair.ts:37-69 | the collected error list is empty exactly when the value conforms |
| Schema.ErrorsAreTheViolations | aal/src/repair.ts:37-69 | an issue is reported if and only if the value commits it there: a wrong type hides the rest of its node, and a field is reported under its key |
| Schema.TypesMean | aal/src/repair.ts:26-32 | which values each type name admits |
| Schema.KeywordsMean | aal/src/repair.ts:37-69 | an enum admits the listed primitives and never an object or array, and without an object type required keys go unchecked |
| Schema.ValidateAgainstSchema | aal/src/repair.ts:37-69 | the recursive validator reports exactly the specified errors, in order |
| Schema.StrictifyForCodex | adapters/src/codex-live.ts:60-87 | the loop over properties builds exactly the strict schema |
| Schema.StrictAtEveryNode | adapters/src/codex-live.ts:60-87 | at every node that object nodes reach through properties and array nodes through items: an object node forbids additional properties and requires exactly its keys in order, a property not required before is nullable, and nothing else changes |
| Schema.StrictifyIsIdempotent | adapters/src/codex-live.ts:72-75 | a second rewriting changes nothing |
| Schema.NullableMeans | adapters/src/codex-live.ts:69-76 | making a node nullable admits null beside what it admitted, enums aside |
| Schema.StrictObject | adapters/src/codex-live.ts:63-82 | an object node and its strict form ask the same of an object field by field |
| Schema.DropNullsPreserves | adapters/src/codex-live.ts:60-87 | a strict-valid value with its optional nulls dropped is valid under the original if and only if the undeclared required keys are there |
| Schema.FillNullsPreserves | adapters/src/codex-live.ts:60-87 | a valid value with null filled in at its missing optional keys is strict-valid if and only if the enums there list null and its untyped optional keys hold only null |
| Schema.StrictMeansTheSame | adapters/src/codex-live.ts:60-87 | both directions for every schema that declares what it requires and types what it makes optional |
| Schema.DropThenFill | adapters/src/codex-live.ts:60-87 | on strict-valid values, dropping and filling again is the identity |
| Proposing.RepairIs | aal/src/repair.ts:85-107 | the loop ends with the first conforming response, the last allowed one, or the first failure; each request saw the errors before it and every response is charged |
| Proposing.ProposeWithRepair | aal/src/repair.ts:85-107 | the loop as written computes that outcome |
| Proposing.SendWithOneReroute | aal/src/source.ts:371-435 | at most two distinct keys are asked, none the data policy refuses, the second only after the first failed, and the breaker hears of exactly the successes and those failures |
| TaskHierarchy.RunKeeps | scripts/spec_trace.py:156-282 | after every accepted line the roots are well formed, placed on their own lines in increasing order, and the modes exclusive |
| TaskHierarchy.AcceptedIsSound | scripts/spec_trace.py:121-285 | in an accepted list ids are unique without leading zeros, children lie under their own root, and node lines strictly increase |
| TaskHierarchy.ModesNeverOverlap | scripts/spec_trace.py:160-177 | a fence and an evidence block are never open at once |
| TaskHierarchy.FencesAreOpaque | scripts/spec_trace.py:167-177 | replacing lines inside an open fence by any that do not close it changes nothing |
| TaskEdits.FencedBlockIsBlank | scripts/spec_trace.py:167-177 | a fence, what is inside, and the next fence of that character at least as long read like so many blank lines |
| TaskEdits.UnclosedFenceIsRefused | scripts/spec_trace.py:281-284 | a fence without such a line after it refuses the list |
| TaskEdits.EvidenceIsOpaque | scripts/spec_trace.py:160-165 | replacing what an evidence block keeps (blank lines, deeper ones, bullets beside it) by anything else it keeps changes nothing |
| TaskDetails.RootLineAddsItsRoot | scripts/spec_trace.py:179-199 | a root line is accepted if and only if its number is new and has no leading zero, and adds one root with what its own line says |
| TaskDetails.ChildLineAddsItsChild | scripts/spec_trace.py:201-230 | a child line is accepted if and only if its id is new, without leading zeros, of the root above, and that root has no evidence yet; it adds one child |
| TaskDetails.OnlyCheckboxesAreRefused | scripts/spec_trace.py:232-238 | only checkboxes that are looked at are refused, and malformed ones always |
| TaskDetails.MetaReachesItsOwner | scripts/spec_trace.py:254-279 | a metadata line adds its values to the root at indent 2 and the last child at indent 4, to a root without children at any indent, and changes nothing else |
| TaskDetails.EvidenceReachesItsOwner | scripts/spec_trace.py:240-252 | evidence is noted on the owner found by the same indents, and opens a block exactly when there is one |
| TaskDetails.OtherLinesChangeNothing | scripts/spec_trace.py:160-279 | every other line leaves the tree as it is |
| TaskDetails.ApplyingMeans | scripts/spec_trace.py:110-119 | requirements and dependencies accumulate in order, and the first verify and batch texts that say something stay |
| TaskEdits.MetadataBelowItsCheckbox | scripts/spec_trace.py:199-230 | metadata on a checkbox line may stand on a line of its own below it, at the owner's indent: the same list up to line numbers, or refused at the same line for the same reason |
| TaskEdits.ContinuesExactly | scripts/spec_trace.py:262-270 | a line of text continues the metadata above it if and only if it is no bullet and indented as far as that metadata began |
| TaskEdits.SplitMetadata | scripts/spec_trace.py:262-270 | where metadata is broken onto a continuation line does not matter |
| TaskEdits.StrayMetadataIsBlank | scripts/spec_trace.py:254-274 | metadata at an indent without an owner reads like a blank line |
| TaskRenumber.ParseAlike | scripts/spec_trace.py:121-285 | line numbers are only carried along: texts in states equal up to numbering that end in the same lines parse alike |
| TaskHierarchy.BlocksTile | scripts/spec_trace.py:296-304 | the root blocks in order are the text from the first root to the end |
| TaskHierarchy.RootTaskBlock | scripts/spec_trace.py:296-304 | the lookup returns the block of the root with that id, the only one, and nothing when there is none |
| TaskBlockAlone.BlockParsesAlone | scripts/spec_trace.py:296-304 | parsing one root's block by itself gives that one root, lines counted from the block's start |
| TaskParser.Parser.Accept | scripts/spec_trace.py:156-280 | one line moves the mutable parser exactly as the specified step |
| TaskParser.Parser.FlushMetadata | scripts/spec_trace.py:140-146 | pending metadata is applied to its owner once and cleared |
| TaskParser.ParseTaskHierarchy | scripts/spec_trace.py:121-285 | the mutable parser run over all lines agrees with the specification, errors and their lines included |
| TaskBlocks.PlainValuesSurvive | scripts/spec_trace.py:84-90 | values that hold no marker word are found again one by one in their printed form |
| TaskBlocks.RootRoundTrip | scripts/spec_trace.py:471-483 | re-reading one printed root gives the same head and metadata, children's requirements folded in, if and only if every value is plain |
| TaskBlocks.RoundTrip | scripts/spec_trace.py:471-483 | re-parsing the printed roots of an accepted list gives them all back in order if and only if every root is printable |
| TaskBlocks.GluedMarkerIsLost | scripts/spec_trace.py:84-90 | one accepted line whose value begins with a glued marker word does not read back |
| TaskBlocks.PrintingIsStable | scripts/spec_trace.py:471-483 | printing what was read back prints the same |
| TaskBlocks.IterTaskBlocks | scripts/spec_trace.py:471-483 | the printing loop yields one specified line for each root of an accepted list |
| TaskBlocks.PrintedInOrder | scripts/spec_trace.py:474-483 | the order on a printed line: headline, the root's requirements, its children's, verify, dependencies, batch |
| TaskBlocks.ChildrenInOrder | scripts/spec_trace.py:475-477 | requirements are taken child by child, each one's in order |
| OutcomeRouting.ReorderIsOutcomeOrder | aal/src/router.ts:99-123 | the reorder pins unrated slots and puts the rated adapters into the rated slots by descending rate, ties in original order |
| OutcomeRouting.OutcomeOrderIsUnique | aal/src/router.ts:89-98 | it is the only permutation that does |
| OutcomeRouting.BetterRatesFirst | aal/src/router.ts:99-123 | along the rated slots of the reordered list the success rates never rise, compared as fractions of the counts |
| OutcomeRouting.RatesAreFractions | aal/src/router.ts:106-111 | an adapter is rated if and only if it has attempts, and rates compare by cross-multiplying the counts |
| OutcomeRouting.KeysTellApart | aal/src/breaker.ts:42-43 | adapters whose ids hold no @ share a key only as the same version of the same adapter |
| OutcomeRouting.ReorderByOutcome | aal/src/router.ts:99-123 | the copied array after the writes is that order, with the rated positions |
| OutcomeRouting.SwapWithRatedRunnerUp | aal/src/router.ts:132-143 | only the adapters of rank 0 and 1 change places, and nothing without a second rated one |
| OutcomeRouting.ShadowNamesTheWinner | aal/src/shadow.ts:35-49 | given the list the reorder is given, the recorder names exactly the adapter the reorder puts into the first rated slot |
| OutcomeRouting.HashPercent | aal/src/router.ts:82-87 | the running remainder is the whole digest modulo 100 |
| OutcomeStats.FoldIgnoresOrderAndRepetition | aal/src/shadow.ts:107-144 | logs with the same events, in any order and multiplicity, fold to the same statistics |
| OutcomeStats.ReviewingWithinAttempts | aal/src/shadow.ts:137-142 | an adapter never reached review more often than it was tried |
| OutcomeStats.IrrelevantEvents | aal/src/shadow.ts:124-136 | events other than routes and reaching review leave the fold alone |
| OutcomeStats.ComputeShadowOutcomeStats | aal/src/shadow.ts:107-144 | the loops compute the count of distinct task instances, and of those that reached review, for each adapter |
| OutcomeStats.RoundStatsCache.Get | console/backend/src/loop-run.ts:192-203 | a read answers the fold of the log if the cache is empty or still agrees with it |
| OutcomeStats.OutcomeEligible | aal/src/router.ts:194-219 | the wrapper's order, and exactly what it leaves in the log, faults included |
| OutcomeStats.DecidedIs | aal/src/router.ts:194-203 | a frozen round keeps the order it was given, exploration never happens at zero percent and always at a hundred with a runner-up, and then exchanges the first two ranks alone |
| OutcomeStats.ActiveEligible | console/backend/src/loop-run.ts:230-274 | in the active stack both reads equal the fold of the log at that moment, despite the appends between them, the returned order is unchanged by the recorder, and the recorder's choice is the adapter ranked first exactly when no tied exploration swap came between |
| OutcomeStats.RecorderNamesTheWinner | aal/src/router.ts:132-143 | given the order after the exploration swap, the recorder names the adapter ranked first if and only if there was no swap with a tied runner-up of another key, and otherwise that runner-up |
| Breaker.StepKeeps | aal/src/breaker.ts:81-146 | every call keeps the key's history legal and its state what the history says |
| Breaker.HistoryDecides | aal/src/breaker.ts:81-146 | after every run the history alone decides the next status and whether a request is let through: always while closed, once in each half-open episode, never while open |
| Breaker.FailuresAreCounted | aal/src/breaker.ts:89-93 | the failures of a window are the outcomes in it that failed |
| Breaker.RunIsLegal | aal/src/breaker.ts:81-146 | over every run transitions form an unbroken legal walk from closed, and while closed the window is the last outcomes since the last close |
| Breaker.OpensExactlyWhenTripped | aal/src/breaker.ts:126-146 | a closed breaker opens exactly on a failure that leaves a full window at or above the threshold |
| Breaker.TripsComparesRates | aal/src/breaker.ts:89-93 | a window trips exactly when it is full and its failure rate is at or above the threshold |
| Breaker.KeysAreIndependent | aal/src/breaker.ts:65-74 | a key's state depends on that key's own calls and clock readings alone |
| Breaker.OneProbePerEpisode | aal/src/breaker.ts:107-110 | between two admitted probes of any run the breaker changed state |
| Breaker.CooldownElapses | aal/src/breaker.ts:81-87 | every half-open episode begins at least openMs after the opening it follows |
| Breaker.SuccessNeverTrips | aal/src/breaker.ts:113-124 | below the threshold, a call leaves a closed breaker closed and at the threshold if and only if it records a success that makes the window trip |
| Breaker.ThresholdByASuccess | aal/src/breaker.ts:113-146 | over every run, a key closed at the threshold has a success as the last outcome recorded since it closed |
| Breaker.ThresholdIsReached | aal/src/breaker.ts:113-124 | one failure and one success leave a window of two there at a threshold of a half |
| Breaker.EmitsLegalWalks | aal/src/breaker.ts:65-146 | over every run of calls on any keys, the emitted transitions of each key are an unbroken legal walk from closed |
| Breaker.CircuitBreaker.Allow | aal/src/breaker.ts:102-111 | the method moves the map, answers and emits as the specified step |
| Breaker.CircuitBreaker.Success | aal/src/breaker.ts:113-124 | likewise for a recorded success |
| Breaker.CircuitBreaker.Failure | aal/src/breaker.ts:126-146 | likewise for a recorded failure |
| Pagination.PageIs | console/backend/src/pagination.ts:70-113 | a page is ascending, past the cursor and within the limit, and every present record past the cursor is on it or past its own cursor |
| Pagination.NamedPageIs | console/backend/src/pagination.ts:70-86 | pages of the first kind are in name order |
| Pagination.CreatedPageIs | console/backend/src/pagination.ts:88-113 | pages of the second kind are oldest first, by id where two were created at once |
| Pagination.NoKeyTwice | console/backend/src/pagination.ts:70-113 | following cursors while the store changes arbitrarily between reads, served keys strictly rise |
| Pagination.PresentIsServedOnce | console/backend/src/pagination.ts:70-113 | every record present at every read is served exactly once by a traversal that reaches the last page |
| Pagination.FixedStore | console/backend/src/pagination.ts:75-85 | on a fixed store the pages concatenate to the sorted list if and only if no boundary separates equal keys, and with unique keys there are as many as expected |
| Pagination.TieIsLost | console/backend/src/pagination.ts:75-85 | two records with one key, one to a page: the second is never served |
| Pagination.PageCountIsCeiling | console/backend/src/pagination.ts:78-84 | the expected number of pages is max(1, ceil(n / limit)) |
| UsageWindows.FiveHourWindows | console/backend/src/usage.ts:27-55 | the loop computes the greedy windows of the parsed timestamps, sorted or not |
| UsageWindows.CountsSum | console/backend/src/usage.ts:31-53 | the counts sum to the number of parsed timestamps |
| UsageWindows.WindowsAreFaithful | console/backend/src/usage.ts:23-55 | on sorted timestamps windows are ordered and disjoint, open at a timestamp, and count exactly the timestamps inside |
| UsageWindows.EachMomentInOneWindow | console/backend/src/usage.ts:23-55 | each timestamp lies in one window and in no other |
| UsageWindows.GreedyIsLeast | console/backend/src/usage.ts:23-55 | the windows cover the timestamps and no covering family of half-open intervals of that length is smaller |
| UsageWindows.CurrentWindowTakesTheNextPrompt | console/backend/src/usage.ts:67-70 | the current window reported is the one a prompt sent now would be counted in, and none is reported exactly when that prompt opens its own |
| UsageWindows.EstimateCounts | console/backend/src/usage.ts:67-92 | the weekly counts are the windows that started in the last seven days and the timestamps from the reset up to now |
| UsageWindows.TimesInOrder | console/backend/src/usage.ts:31-36 | the timestamps that parse, in the order of the entries |
| UsageWindows.AtMost34Windows | console/backend/src/usage.ts:71-72 | on sorted timestamps up to now, the last seven days never show more than thirty-four windows |
| UsageWindows.ResetIsTheLatest | console/backend/src/usage.ts:83-87 | the reset reported is the only moment of the weekly rhythm whose week holds now |
| SecretDrain.FreshIs | aal/src/source.ts:118-130 | the accumulated paths are exactly the normalised requests that are not evicted, each once |
| SecretDrain.FreshInOrder | aal/src/source.ts:118-130 | they stand in the order in which they were first asked for |
| SecretDrain.AccumulatedSeedPaths | aal/src/source.ts:118-130 | the loop keeps the last twenty of them in request order |
| SecretDrain.EvictOne | aal/src/source.ts:232-236 | evicting a path removes it from the accumulated paths and changes nothing else |
| SecretDrain.EvictionsAreFresh | aal/src/source.ts:220-244 | whatever the scanner blames, at most the budget is evicted: fresh paths, each once, never a literal seed |
| SecretDrain.DrainAttempts | aal/src/source.ts:212-262 | each path evicted is the one the scanner blamed in the build without those before it, and the drain ends for the reason it gives |
| SecretDrain.BackstopExactly | aal/src/source.ts:214-233 | some scanner reaches the backstop if and only if more paths are evictable than the budget counts; never with twenty or fewer, always with more when no literal seed is among them |
| SecretDrain.ProposalSource.BuildDraining | aal/src/source.ts:212-262 | the drain loop ends and evicts as specified and leaves readRequested as it was; over a run no path is evicted twice |
| TermSession.RingReflects | console/backend/src/term.ts:120-123 | over any run a session's ring is the last 65536 characters of everything it put out |
| TermSession.RingIsTheEnd | console/backend/src/term.ts:121-121 | so it is all of the output, or its last 65536 characters |
| TermSession.AttachThenTap | console/backend/src/term.ts:134-156 | the attach buffer, the output until the tap is added, and what the tap hears are the end of the output; added in the same turn they are contiguous |
| TermSession.HearsEverything | console/backend/src/term.ts:120-123 | a tap that stays on hears everything its session puts out |
| TermSession.OffHearsNothing | console/backend/src/term.ts:151-156 | a tap that is off hears nothing until it is added again |
| TermSession.DropsTheTap | console/backend/src/term.ts:155-155 | and dropping a tap turns it off |
| TermSession.SingleWriter | console/backend/src/term.ts:158-164 | a write is accepted if and only if the id names a live session and the ticket is the one issued last for it |
| TermSession.TakeoverHolds | console/backend/src/term.ts:134-142 | a superseded ticket cannot write again until issued again |
| TermSession.RedeemsExactly | console/backend/src/term.ts:144-149 | a ticket redeems if and only if it is outstanding, for that session, and not expired |
| TermSession.TicketLivesForItsTtl | console/backend/src/term.ts:105-149 | a ticket just issued redeems if and only if no more than its time to live, in seconds, has passed |
| TermSession.RedeemsAtMostOnce | console/backend/src/term.ts:105-149 | successful redemptions never exceed issues: at most one for a ticket issued once |
| TermSession.ToldReflects | console/backend/src/term.ts:158-173 | over any run a terminal receives exactly the accepted writes in order and is kept at the last size asked of it while alive |
| TermSession.SizeIsTracked | console/backend/src/term.ts:166-183 | the terminal is always left at the tracked size, repaint nudges included |
| TermSession.ResizesExactly | console/backend/src/term.ts:166-173 | a resize is accepted if and only if the session is live and the size not empty, and the terminal is told that size |
| TermSession.NudgesExactly | console/backend/src/term.ts:175-183 | a repaint nudge of a live terminal of more than one row takes one row off and puts it back |
| TermSession.TermManager.Reattach | console/backend/src/term.ts:134-142 | the method issues, takes over and returns the ring as specified |
| TermSession.TermManager.RedeemTicket | console/backend/src/term.ts:144-149 | the ticket is consumed whatever the answer |
| TermSession.TermManager.WriteTo | console/backend/src/term.ts:158-164 | a refused write reaches no terminal |
| TermSession.TermManager.PtyData | console/backend/src/term.ts:120-123 | data is kept in the ring and given to exactly the taps that are on |
| FusionResolve.CodeDiffWinner | aal/src/fusion/resolve.ts:54-65 | the winner is the first gate-green candidate's result with its whole action list; there is one exactly when a candidate is green |
| FusionResolve.ResolveTests | aal/src/fusion/resolve.ts:72-90 | the nested loops compute the first-by-path union of the green candidates' writes |
| FusionResolve.TestUnionIs | aal/src/fusion/resolve.ts:72-90 | each write is a green candidate's, each path written by one is there exactly once, with the first write |
| FusionResolve.AllWritesInOrder | aal/src/fusion/resolve.ts:76-82 | first means candidate by candidate |
| FusionResolve.WritesInOrder | aal/src/fusion/resolve.ts:77-80 | and within a candidate in the order of its actions |
| FusionResolve.ResolveHypotheses | aal/src/fusion/resolve.ts:113-126 | the loops compute the ranked first-by-statement union |
| FusionResolve.RankingIs | aal/src/fusion/resolve.ts:113-126 | every statement once, fewest probes first, ties in order of first appearance |
| FusionResolve.HypothesesInOrder | aal/src/fusion/resolve.ts:113-122 | hypotheses come candidate by candidate, each one's in order |
| FusionResolve.PlanWinner | aal/src/fusion/resolve.ts:192-202 | the plan that wins is the first candidate's, whole |
| FusionReviews.ResolveReviews | aal/src/fusion/resolve.ts:153-183 | the loops over the map of entries compute the specified ensemble |
| FusionReviews.AnyoneIsHeard | aal/src/fusion/resolve.ts:146-171 | a finding survives if and only if some candidate raised it, and is reported once |
| FusionReviews.EnsembleSaysWho | aal/src/fusion/resolve.ts:153-183 | findings are reported in order of first appearance, and each report and dissent names its raisings in order and the severities and blockings as they first came up |
| FusionReviews.RaisingsInOrder | aal/src/fusion/resolve.ts:153-163 | raisings come candidate by candidate, and within one in the order of its findings |
| FusionReviews.MarksAreClashes | aal/src/fusion/resolve.ts:168-171 | a finding is marked if and only if two raisings of it differ in severity or blocking, and the escalation marker is up if and only if some finding is |
| FusionReviews.DissentExactly | aal/src/fusion/resolve.ts:172-175 | dissent is recorded if and only if the repeats are fewer than the silent candidates, and so is right exactly then or when nobody was silent |
| FusionReviews.RepeatHidesDissent | aal/src/fusion/resolve.ts:153-163 | a candidate raising a finding twice hides that the other was silent |
| FusionRun.PanelFits | aal/src/fusion/run.ts:173-181 | the panel is the largest up to the profile's size whose estimates fit the cap, and refused exactly when two do not fit |
| FusionRun.PanelIsDiverse | aal/src/fusion/run.ts:102-143 | a self panel seats the first eligible adapter with the profile's seeds, no two alike; a cross-lineage panel seats the first eligible adapter of each lineage it uses, and its slots are pairwise different if and only if those lineages are |
| FusionRun.PanelIsSeated | aal/src/fusion/run.ts:118-143 | a panel can be seated if and only if the seeds used suffice and differ, or each lineage used has an eligible adapter |
| FusionRun.RepeatedLineageSeatsTwice | aal/src/fusion/run.ts:132-142 | a profile naming a lineage twice gets the same adapter in both slots |
| FusionRun.RunFusion | aal/src/fusion/run.ts:168-184 | the pipeline's pre-checks and panel lead to the specified outcome |
| FusionRun.RunPanel | aal/src/fusion/run.ts:224-368 | from the panel's answers on, likewise: gates, judge round, resolution, escalations |
| FusionRun.CollectCandidates | aal/src/fusion/run.ts:224-268 | the loop collects candidates and usage up to the first invalid response |
| FusionRun.NoneIsDropped | aal/src/fusion/run.ts:224-268 | every response becomes a candidate if and only if all answers can be accepted; otherwise the call ends as an invalid response |
| FusionRun.AcceptedExactly | aal/src/fusion/run.ts:224-268 | the answers are accepted if and only if none is refused as invalid, every cost is finite and not negative, and the costs together are within the limit |
| FusionRun.UsageIsTheSum | aal/src/fusion/run.ts:225-241 | usage is the sum of the candidates' non-negative costs, within the finite limit |
| FusionRun.UsageOfACall | aal/src/fusion/run.ts:168-298 | over a whole call usage is the candidates' costs plus the judge's, which is charged only when its estimate was affordable, within the limit; nothing when the pre-checks refuse |
| FusionRun.WinnerOrReason | aal/src/fusion/run.ts:270-367 | a call has a winner or a reason and never both, no dissent without a winner, and a winner only from two or more candidates by the artifact's own rule |
| FusionRun.JudgeCannotMove | aal/src/fusion/run.ts:285-323 | for code_diff, tests and hypotheses, two runs differing in the judge alone that both avoid the invalid-response escalation agree on winner, reason and dissent |
| FusionRun.JudgeIsBlind | aal/src/fusion/run.ts:145-157 | the judge is shown each candidate's place, result and actions, and nothing else of it |
| FusionRun.GateDecides | aal/src/fusion/run.ts:270-283 | code_diff and tests have a winner if and only if two or more candidates came of the panel and the gate runner passed one |
| FusionRun.PlanIsFirstResponse | aal/src/fusion/run.ts:312-335 | a plan that wins is the answer of the first slot that responded, whole |
| FusionRun.DeliberationIs | aal/src/fusion/run.ts:285-367 | what is said of the deliberation agrees with whether a valid judgement was had and why the call ended |
| FusionRun.PlanNeedsTheJudge | aal/src/fusion/run.ts:168-323 | a whole call for plan or reviews has a winner if and only if its budget is valid, two candidates or more came of its panel with no invalid answer, and an affordable judge round was valid |
| FusionRun.CodeDiffIsOneAnswer | aal/src/fusion/run.ts:274-283 | a code_diff winner of the pipeline is the whole action list of one answer the gate runner passed |
| StableSort.SortIsStable | aal/src/router.ts:112-112 | elements no comparison separates keep their order |

## Left out

- Input and output of every kind: files, SQLite, git, child processes, sockets, routes, live adapters, PTY spawning; their results are parameters.
- `proposeWithRepair` request text and ids, the response's other fields, and the diagnostician, provenance, canary and write-allowlist checks of `propose`.
- The rest of `surfaces.ts`: redaction, hook validation, retention, confirmation tokens (hashes).
- TaskGraph.RunTaskGraph: exceptions thrown by an execution, git hygiene, lease renewal and calibration; the log is this run's slice of it, so the frozen sequence number does not appear.
- TaskMachine.HumanMovesOf: the reasons of a refused move, resuming a paused task, and steering of the executing task; what a task's own execution logs of it is unconstrained.
- TokenBucket.ExactLaw: over reals, without floating-point rounding.
- Dispatch.SendRateBound: rate observations and their observers are not modelled; the sleep between polls is any delay.
- Dispatch.NeverStuck: progress against a bucket that never refills is not promised by the code.
- Schema.ValidMeansConforms: schema nodes that are not objects, `undefined` values, keys inherited from a prototype and the messages' wording.
- TaskHierarchy.AcceptedIsSound: regular expressions, runs of white space inside a line, a `Depends on:` split across two lines, and the several sub-reasons of a bad checkbox.
- TaskParser.Parser.Accept: a node is a value inside its root, so aliases of a node are not captured; the sets of ids are derived from the roots.
- OutcomeRouting.HashPercent: sha256 itself; the digest is any sequence of hex digits.
- OutcomeStats.ActiveEligible: the router below is a parameter; a non-recording peek differs only in appending nothing.
- Breaker.CircuitBreaker.Failure: the clock is read once in a call.
- Pagination.PageIs: a key's place in the collation order is a pair of reals, which every countable order fits; encoding a cursor is injective and malformed cursors are not modelled.
- UsageWindows.CurrentWindowTakesTheNextPrompt: the calibrated percentage and the texts of an estimate.
- SecretDrain.FreshIs: normalising a path is an arbitrary partial function.
- TermSession.RingReflects: audit entries, the spawned command, and the list of sessions.
- FusionResolve.RankingIs: lifting hypotheses and findings out of an untrusted result, with its defaults; the model starts from the lifted lists.
- FusionRun.RunFusion: log events and evidence blobs other than dissent and the kind of deliberation reference; the judge's analysis content.
- Small members whose claims are settled by one branch: eligibility, scheduling and guard predicates, issue and routing configuration, cost scripts, `control-center.ts`.
