# Deterministic machinery of the legacy converter: models and proofs

The repository converts Pro*C/Tuxedo sources to Go, Python and C#. Between its generators sits machinery whose
results must not depend on chance: graph searches over service calls, text surgery on generated bodies, a worker
pool, packing under token budgets, resumable merges and name assignment. This project models that machinery in
Dafny and proves what it keeps.

| file | models |
|---|---|
| `ServiceGraph.dfy`, `TpDeps.dfy` | reachability and call distance; the in-place transitive closure over service dependencies and its scores |
| `Slicer.dfy`, `Packer.dfy`, `TokenBudget.dfy`, `Chains.dfy` | the line scanner, statement units, else-chains, brace pads; packing units into fragments; token estimates and the slice budget; when a chain stays in one fragment |
| `TxWrap.dfy`, `TxThread.dfy`, `TxBodies.dfy` | the transaction repair: return rewriting with a statement semantics, threading the handle, the gate; bodies worked through it |
| `WorkerPool.dfy` | the semaphore-bounded pool as a state machine over every interleaving |
| `BodyGate.dfy` | the terminating-statement check against an execution semantics, and the terminal-return repair |
| `CallArgs.dfy`, `IfChain.dfy` | bracket matching, argument splitting, the block reader and the if/else-if/else parser |
| `StoreCall.dfy`, `QueryReplace.dfy` | the line-range splice with its accounting |
| `ArtifactMerge.dfy`, `MarkerText.dfy` | the resumable controller merge over ledger and file, and its strip markers as text |
| `Numerals.dfy`, `Delimited.dfy`, `Rescore.dfy`, `FormulaText.dfy` | numerals and column letters; the CSV shell with formulas, its loader, and the re-scoring fixpoint; a reader of the formula text |
| `BatchPairing.dfy` | cursor and statement pairing |
| `Naming.dfy` | suffix search, pins, draft and plan agreement, endpoint and row names |
| `AxisRanking.dfy` | stable ranking of dispatch axes and their registry |
| `Text.dfy`, `Sorting.dfy`, `Options.dfy` | lines, trimming, searching; what `sort.Slice` promises; an option type |

Code that loops over state is a method (a class where the source has one) proved equal to a function of its inputs
or old state; what the source promises is then proved about that function.

## Where the code does less than its comments say

* Depth in `internal/analyzer/tpdeps.go` is called the shortest call distance. Searches read lists that earlier
  searches extended, so a depth can be smaller (`TpDeps.ShortenedDepth`); `TpDeps.DepthsTrueIff` says exactly when it
  is right.
* The slice budget in `internal/convert/chunk.go` is called hard. The cap on the number of chunks lets the last one
  overflow (`Packer.BudgetOverflows`); `Packer.BudgetHardIff` gives the condition.
* Gluing is said to keep chains whole. On the units of a view it does nothing (`Chains.GlueIdle`), and a cut inside an
  if body splits its chain (`Chains.ChainStillSplit`); `Chains.ChainsWholeIff` says for which views none can be split.
* Brace pads are said to cover text that closes blocks opened before it. A line that closes and reopens gets none
  (`Slicer.PadsMissDip`); `Slicer.PadsCoverIff` gives the condition.
* The terminating-statement check accepts a loop that a break leaves (`BodyGate.GateAcceptsLeavingLoop`);
  `BodyGate.TerminatesIff` and `BodyGate.StrictGateIsSound` give the condition and the repaired check.
* The transaction repair is said to answer the transaction gate. It drops the first value of a two-value return, so a
  store call written there is lost (`TxBodies.FirstValueCallLost`), and the gate searches for the context a call was
  given, not the default it was threaded with (`TxBodies.EmptyContextFails`); `TxThread.GatePassesIff` gives the
  condition. The data of a return that names something else is lost with it (`TxWrap.OtherResultLost`);
  `TxWrap.SameDataIff` gives the condition. A return inside a one-line block is not rewritten
  (`TxBodies.InlineReturnStays`); `TxWrap.RewritePrinted` covers returns on lines of their own.
* A rejected placeholder is stripped by a name prefix. With names where one continues another, an accepted body can
  be dropped while its unit is recorded as appended (`ArtifactMerge.PrefixLosesBody`);
  `ArtifactMerge.AppendedNeverPlaceholderIff` shows that prefix-free names are exactly what it takes. A run that
  dies before saving its ledger can do the same to any unit (`ArtifactMerge.BrokenRunLosesUnit`);
  `ArtifactMerge.BrokenRunKeepsIff` and `ArtifactMerge.AgreesThroughoutIff` say exactly when it does not.
* Re-scoring skips a row whose file name starts with `#`; `Rescore.RescoreIsFixpointIff` says which weights that loses.
* "The first proposal keeps its name" fails when a renamed collision takes a later proposal's name
  (`Naming.FirstProposerKeepsIff`).

## Model

| member | source | states |
|---|---|---|
| TpDeps.ResolveTpDeps | internal/analyzer/tpdeps.go:171-220 | For every report of the run: the dependency keys are exactly the services reachable from its direct targets through uniquely resolved files (its own service only if it did not resolve to its own file); direct entries have depth 1, and every other entry its distance in the graph of the lists finished before this report and the direct lists of the rest, so between 2 and the true distance; direct entries stay as often as they were listed, self calls aside, and every other service is there once; list sorted; scores, unresolved count, priced function files and total as `Finished` says. Whatever the order of the reports. |
| TpDeps.ExpandClosure | internal/analyzer/tpdeps.go:225-289 | One breadth-first search over the lists as earlier searches left them: finds every reachable service once, at its shortest distance in the graph of those lists; own entries are dropped, the list sorted, the scores folded; terminates by unseen services, then queue length; never reads the list it grows. |
| TpDeps.SearchFinds | internal/analyzer/tpdeps.go:225-261 | The search as a function finds exactly the services reachable beyond the direct targets, each at its shortest distance in the graph of the lists it reads. |
| TpDeps.SearchIsFinal | internal/analyzer/tpdeps.go:225-289 | Whatever earlier searches appended, the resulting list is the one determined by the direct targets of all reports alone. |
| TpDeps.OrderIsShortcuts | internal/analyzer/tpdeps.go:198-220 | At every turn of the pass, the lists finished so far add to the graph of direct targets nothing but shortcuts of real call chains. |
| TpDeps.PassGraph | internal/analyzer/tpdeps.go:198-220 | The graph a turn reads is determined by the direct targets and the number of reports finished before it. |
| TpDeps.DepthsTrueIff | internal/analyzer/tpdeps.go:247-258 | In terms of direct targets and report order alone: all depths of a finished list are the true call distances exactly when no list finished before it, as far as its search follows them, holds a service more than one call beyond the file the list belongs to. |
| TpDeps.ShortenedDepth | internal/analyzer/tpdeps.go:158-220 | The documented "depth is the shortest call distance" fails: a calls b, b calls c, c calls d; with the report of b first, the pass leaves d at depth two in the list of a, three calls away. |
| TpDeps.DirectKept | internal/analyzer/tpdeps.go:262-271 | An entry survives the self-call filter exactly when it is not the report itself, or names it without having resolved to it. |
| TpDeps.DepScoreIsReachableSum | internal/analyzer/tpdeps.go:278-288 | The dependency score is the sum of the own scores of the distinct reachable files, plus the surplus of direct names that differ in case only; the surplus is zero when direct names are distinct ignoring case. |
| TpDeps.SeedQueue | internal/analyzer/tpdeps.go:226-238 | The queue starts with each distinct direct target once, the own service counted as seen. |
| TpDeps.ReadList | internal/analyzer/tpdeps.go:247-260 | Reading one file appends exactly its unseen, foreign targets to the own list and to the queue, and touches no other list. |
| TpDeps.FinishClosure | internal/analyzer/tpdeps.go:262-288 | The list is a sorted permutation without self entries; score and unresolved count are sums over it. |
| TpDeps.ResolveDirect | internal/analyzer/tpdeps.go:178-197 | Every direct entry is matched to the one file whose stem is its service, ignoring case, or left unresolved when there is none or several. |
| TpDeps.ResolveIsDirect | internal/analyzer/tpdeps.go:178-197 | Resolving skeleton entries keeps their keys and leaves well-resolved direct targets. |
| TpDeps.ResolveAll | internal/analyzer/tpdeps.go:191-197 | The first pass resolves every report and changes nothing else. |
| TpDeps.ExpandAll | internal/analyzer/tpdeps.go:198-220 | The second pass leaves every report finished although its searches read lists that earlier turns extended. |
| TpDeps.IndexByFile | internal/analyzer/tpdeps.go:172-177 | The index holds the last report of each file. |
| TpDeps.IndexByStem | internal/analyzer/tpdeps.go:172-177 | The index holds, for every stem, the reports of that stem in order. |
| TpDeps.GroupByFile | internal/analyzer/tpdeps.go:294-309 | External functions grouped by defining file: the files are those resolved, foreign and known; each lists its function names in call order. |
| TpDeps.PriceFiles | internal/analyzer/tpdeps.go:310-316 | One priced entry a file, whatever the order of the map. |
| TpDeps.RollFnFiles | internal/analyzer/tpdeps.go:294-323 | One entry for every defining file, with its own score and function names, sorted by file; the score is the sum of one own score a file. |
| ServiceGraph.ShortcutsKeepReach | internal/analyzer/tpdeps.go:158-170 | Adding shortcuts of existing call chains does not change what is reachable. |
| ServiceGraph.ShortcutsNeverLengthen | internal/analyzer/tpdeps.go:158-170 | Shortcuts never lengthen a shortest distance. |
| ServiceGraph.DistancesSurviveIff | internal/analyzer/tpdeps.go:158-170 | Shortest distances survive exactly when no edge of the grown graph skips a level. |
| ServiceGraph.ShortcutShortensDepth | internal/analyzer/tpdeps.go:158-170 | In any graphs where b calls c alone, c calls d alone and the grown list of b holds d, d is three calls away and read at two. |
| ServiceGraph.LabellingIsDistance | internal/analyzer/tpdeps.go:226-261 | A labelling kept by the search (roots one, successors at most one more, every label realised) is the shortest distance of exactly the reachable services. |
| Slicer.SliceScanner.ScanLine | internal/convert/chunk.go:159-208 | One line changes the scanner state as the character function says: braces, strings, character literals, block and line comments. |
| Slicer.PeekCode | internal/convert/chunk.go:237-241 | The lookahead stops at the first line that shows code under its comments. |
| Slicer.EndsUnit | internal/convert/chunk.go:229-252 | A unit ends with a line exactly when a statement ends there outside comments and no closing brace or else follows. |
| Slicer.SplitStatements | internal/convert/chunk.go:220-258 | The units are the maximal runs of lines between such boundaries, and what is left. |
| Slicer.SplitLossless | internal/convert/chunk.go:210-219 | Newline-joining the units gives the view back, for every view. |
| Slicer.UnitsCoded | internal/convert/chunk.go:226-252 | Every unit but the last holds a line of code. |
| Slicer.CodeUnderComments | internal/convert/chunk.go:305-315 | A trimmed line ending in a semicolon or brace still shows code once its leading comments are stripped. |
| Slicer.CodeDecides | internal/convert/chunk.go:268-283 | Appending to a unit with code changes neither that it has code nor whether it starts with an else-continuation. |
| Slicer.ScanContinuation | internal/convert/chunk.go:268-283 | The continuation test decides on the first line that shows code. |
| Slicer.GlueChainUnits | internal/convert/chunk.go:290-300 | Continuation units are merged into the unit in front of them, others start a new one. |
| Slicer.GlueLossless | internal/convert/chunk.go:285-300 | Gluing keeps the newline-joined text. |
| Slicer.GlueHeads | internal/convert/chunk.go:285-300 | After gluing, no unit but the first starts with an else-continuation, and all but the last have code. |
| Slicer.BracePads | internal/convert/chunk.go:1043-1060 | The opening pad is the depth of the deepest dip at a line end, the closing pad that plus the final depth. |
| Slicer.PrefixLeast | internal/convert/chunk.go:1043-1060 | The opening pad is the least number of braces that keeps every line end at depth zero or more. |
| Slicer.PadsBalance | internal/convert/chunk.go:1043-1060 | The closing pad is never negative, so its clamp never acts; padded on both sides the fragment ends at depth zero exactly when it ends outside strings and comments or nothing had to be closed. |
| Slicer.PadsCoverIff | internal/convert/chunk.go:1039-1060 | For every text, the computed pads keep every character of the padded fragment at depth zero or more exactly when the lowest depth at any character is the lowest at a line end. |
| Slicer.PadsMissDip | internal/convert/chunk.go:1039-1060 | Depth is sampled at line ends only: `}else{` gets no pad although it first closes a block, and its padded fragment goes below depth zero. |
| Slicer.DepthShift | internal/convert/chunk.go:159-208 | Scanning from a deeper start gives the same states, that much deeper. |
| Packer.GroupFragments | internal/convert/chunk.go:325-376 | The chunks are the joined groups of the packing function, for every budget and charge. |
| Packer.AimFor | internal/convert/chunk.go:339-353 | So many chunks of the budget hold the mass and no fewer do, as far as there are units; so many chunks of the target hold it but for less than one of them each; at least one of both. |
| Packer.AimUnique | internal/convert/chunk.go:339-353 | Only one number of chunks and one target meet that description. |
| Packer.WeighUnits | internal/convert/chunk.go:332-338 | A unit weighs its text, one newline and its extras; the total is their sum. |
| Packer.GroupsPack | internal/convert/chunk.go:317-376 | Every unit is in exactly one group, in order; no group is empty; there are at most n groups; a group over the budget is a single unit or the n-th group. |
| Packer.FewGroups | internal/convert/chunk.go:317-324 | There are at most as many groups as units, and at most the least number that could hold the total weight. |
| Packer.BudgetHardIff | internal/convert/chunk.go:359-368 | The budget is kept by every group of several units exactly when the packing that always enforces it needs no more groups than planned. |
| Packer.BudgetOverflows | internal/convert/chunk.go:359-368 | "The budget is hard" fails for three units of weight 1206 under the least slice budget of 2000: the second fragment weighs 2412. |
| Packer.HardGroupsFit | internal/convert/chunk.go:359-368 | Without the cap on the count, no group of several units exceeds the budget, and the packing is still lossless. |
| Packer.GroupsWithinIff | internal/convert/chunk.go:359-368 | Every group, of one unit or several, is within the budget exactly when the packing that always enforces it needs no more groups than planned and no unit alone outweighs it. |
| Packer.CapBites | internal/convert/chunk.go:359-371 | Capped and uncapped packing agree until the cap is reached; past it the capped one is left with an open group of several units over the budget. |
| Packer.JoinFlatten | internal/convert/chunk.go:355-375 | Joining the joined groups is joining the units. |
| Packer.FragmentHeads | internal/convert/chunk.go:285-300 | Cut between glued units, no fragment but the first starts with an else-continuation. |
| Packer.FragmentsOfView | internal/convert/chunk.go:573-574 | Split, glue and pack together: the fragments reproduce the view exactly and none after the first starts with an else-continuation. |
| Packer.FragmentsLossless | internal/convert/chunk.go:210-219 | Newline-joining the fragments gives the view back, whatever the budget and the charges. |
| Packer.FragmentsStartCleanly | internal/convert/chunk.go:260-267 | No fragment after the first starts with an else-continuation. |
| Chains.ChainsWholeIff | internal/convert/chunk.go:260-300 | For every view: whatever is charged and whatever the budget from a given one up, no else-continuation is parted from the line that opened its chain, exactly when no statement unit ends between the two. |
| Chains.WholeUnitsIff | internal/convert/chunk.go:220-258 | The same for the units: every continuation shares its opener's unit exactly when no unit ends between them. |
| Chains.JoinedKeepsTogether | internal/convert/chunk.go:285-300 | Fragments joined from units keep together every two lines that a unit held together. |
| Chains.EachAlone | internal/convert/chunk.go:355-371 | Under a budget that no unit meets, every unit becomes its own fragment. |
| Chains.GlueIdle | internal/convert/chunk.go:226-300 | Gluing changes nothing on the units of any view: the lookahead never lets a unit end before a continuation. |
| Chains.ChainStillSplit | internal/convert/chunk.go:285-289 | "Can never split a chain across fragments" fails: with the least budget that is chunked and two long constants, a cut inside the body of an if leaves its else in the next fragment. |
| TokenBudget.CountLeast | internal/budget/budget.go:41-61 | The estimate is the least number of tokens whose characters hold the text, also for a zero ratio. |
| TokenBudget.ContextFitsIff | internal/budget/budget.go:102-126 | Every response within the dynamic ceiling fits the model context beside prompt and reserve exactly when the prompt leaves room for one token. |
| TokenBudget.OccursInJoin | internal/convert/chunk.go:411-467 | A newline-free needle occurs in two newline-joined texts exactly when it occurs in one of them. |
| TokenBudget.LineLocalIff | internal/convert/chunk.go:411-467 | Only newline-free needles have that property. |
| TokenBudget.ItemsAreLineLocal | internal/convert/chunk.go:500-552 | The items built from one-line constants, codes, helpers, stubs and signatures have newline-free needles. |
| TokenBudget.ExtrasSubadditive | internal/convert/chunk.go:527-552 | Extras of joined texts are at most the sum, and at least the larger, of the extras of the parts. |
| TokenBudget.ChargeCovers | internal/convert/chunk.go:520-552 | A fragment with its own filtered extras never outweighs what its units were charged. |
| TokenBudget.FragmentWithinBudget | internal/convert/chunk.go:554-573 | A fragment within the slice budget, with extras, contract, notes and framing, is estimated within the chunk share of the prompt ceiling, and alone within three quarters of a positive output ceiling. |
| TokenBudget.ViewWithinCeilings | internal/convert/chunk.go:554-574 | From the view to the ceilings: all fragments of a view keep to both shares when its units pack within the slice budget. |
| TokenBudget.ShareIff | internal/convert/chunk.go:554-557 | The chunk share is seventy percent of the prompt ceiling exactly when that ceiling is at least two tokens. |
| TokenBudget.ChunkPromptsPass | internal/budget/budget.go:76-82 | Every prompt no longer than fragment, extras, contract, notes and the framing allowance passes the input check, exactly when the prompt ceiling is positive. |
| TxWrap.RewriteReturn | internal/convert/chunk.go:899-913 | The rewritten return line, computed with the scan for the top-level comma. |
| TxWrap.RewriteKeepsError | internal/convert/chunk.go:894-913 | A two-value return becomes a return of exactly its second value, a bare return one of the named error, and the result is again a return line. |
| TxWrap.FirstValueGoes | internal/convert/chunk.go:894-913 | The first value disappears from the text, whatever it is. |
| TxWrap.RewritePrinted | internal/convert/chunk.go:1003-1006 | Rewriting the lines of a printed body one by one is rewriting its statements: returns, other statements of one or more lines, if chains with any number of arms and with or without an else, switches and loops. |
| TxWrap.ClosurePrinted | internal/convert/chunk.go:1003-1015 | The closure text of such a body is the printed closure: rewritten statements and, unless the last code line returns, a final return of nil. |
| TxWrap.LastCodeLine | internal/convert/chunk.go:1007-1013 | The tail is the last line with code. |
| TxWrap.WrapLines | internal/convert/chunk.go:1003-1015 | The closure lines of a body. |
| TxWrap.WrapPreserves | internal/convert/chunk.go:915-931 | Over a statement semantics in which conditions are asked in order, switches are left by break and run through by fallthrough, and the wrapper commits exactly when its closure returns nil: same error on every execution, commit exactly when the original error is nil, then the accumulated data, else nil data; a body that runs off its end commits and delivers; panics and non-termination are kept. |
| TxWrap.FallingHasNoTail | internal/convert/chunk.go:1007-1015 | A body that can run off its end does not end in a return line, so its closure gets one. |
| TxWrap.SameDataIff | internal/convert/chunk.go:915-931 | By the text alone: the wrapped method delivers the original's data on every successful run, in every language that honours the declared names and the listed error expressions, exactly when every return control can come to names the data, is bare, or returns a listed error. |
| TxWrap.SafeKeepsData | internal/convert/chunk.go:915-931 | One direction for every type of state, value and error. |
| TxWrap.OtherResultLost | internal/convert/chunk.go:894-913 | A body that returns any other value with a nil error has no such guarantee. |
| TxThread.ThreadCalls | internal/convert/chunk.go:979-1002 | All tx calls are threaded in turn. |
| TxThread.ThreadAllIdempotent | internal/convert/chunk.go:979-1002 | After all passes, threading any of the calls again, in any order, changes nothing. |
| TxThread.ThreadIdempotent | internal/convert/chunk.go:979-1002 | The same for one pass over any head. |
| TxThread.PassLeavesNoSite | internal/convert/chunk.go:979-1002 | A pass leaves no site of its own call open and opens none of another call. |
| TxThread.ReachesStays | internal/convert/chunk.go:979-1002 | Threading one call never undoes a site of another: it stays open or becomes threaded. |
| TxThread.NeedleStays | internal/convert/chunk.go:979-1002 | A threaded site survives the passes of all other calls. |
| TxThread.ReachedWhenThreaded | internal/convert/chunk.go:979-1002 | A call with an open or threaded site carries the handle after its own pass. |
| TxThread.ReachesAll | internal/convert/chunk.go:979-1002 | After all passes every listed call that had a site carries the handle. |
| TxThread.WrapperContext | internal/convert/chunk.go:959-978 | The wrapper context is the one most calls use, the first of those in name order. |
| TxThread.HasTxLocal | internal/convert/chunk.go:827-848 | The body declares `tx` after `var` at a line start, or names it before the first `:=` of a line. |
| TxThread.AssignsTxIff | internal/convert/chunk.go:838-846 | The left side names `tx` exactly when it stands there as a word of its own, digits before it aside. |
| TxThread.WrapTxBody | internal/convert/chunk.go:932-1023 | Declines exactly when the wrapper is partly there, no call takes a handle or the body declares its own; else the text is the wrapper around the threaded, rewritten body. |
| TxThread.RepairedPreserves | internal/convert/chunk.go:932-1023 | Where the threaded body is the print of some statements, the repaired text is the wrapper around the print of their closure, and it preserves them: their error, a commit exactly when it is nil, panics and non-termination. |
| TxBodies.PlainBodyRepaired | internal/convert/chunk.go:932-1023 | The same from the body text itself, for laid-out bodies without a call of their own. |
| TxBodies.ElseIfPreserved | internal/convert/chunk.go:932-1023 | For any two conditions and three returns: an else-if chain with a return behind it is rewritten arm by arm and preserved. |
| TxBodies.ChainRuns | internal/convert/chunk.go:915-931 | The second condition of such a chain is asked only where the first fails. |
| TxBodies.ElseIfExample | internal/convert/chunk.go:932-1023 | `return nil, err` under the first condition, `return data, nil` under the second: the first way rolls back with its error, the second commits the data. |
| TxBodies.SwitchPreserved | internal/convert/chunk.go:932-1023 | For any three cases with returns: the switch is rewritten case by case, the closure gets a return behind it, and it is preserved. |
| TxBodies.SwitchRuns | internal/convert/chunk.go:915-931 | The chosen case ends the method; where none is chosen control goes on behind the switch. |
| TxBodies.CheckedExample | internal/convert/chunk.go:932-1023 | A statement, a call checked in the header of an if, and no return at the end: the call gets the handle, the check rolls back with its error, running off the end commits the data. |
| TxThread.TxGateErrs | internal/convert/pipeline.go:1697-1723 | No error exactly when the gate passes; one error for a missing wrapper, and one for each name whose judged call is not in the text. |
| TxThread.GatePassesIff | internal/convert/pipeline.go:1689-1723 | The gate passes on a repaired body exactly when every judged call, written with its own context, is in what the closure keeps of some threaded line, or in the opening line of the wrapper. |
| TxThread.RepairPassesGate | internal/convert/pipeline.go:1689-1723 | The repaired body passes the gate when every judged call names its context, has a site, open or threaded, and no return drops it. |
| TxBodies.InlineReturnStays | internal/convert/chunk.go:894-913 | "Method returns mapped into closure returns" fails for a return inside a one-line block: it keeps both values. |
| TxBodies.FirstValueCallLost | internal/convert/pipeline.go:1689-1723 | A call in the first value of a return has a site, is threaded and dropped: the gate rejects the repaired body. |
| TxBodies.EmptyContextFails | internal/convert/pipeline.go:1717-1719 | A call without a context is threaded under the default one and searched for without any: the gate rejects the repaired body. |
| WorkerPool.RunIndexed | internal/common/pool.go:15-31 | Under any scheduler the slots are those of the sequential run. |
| WorkerPool.InFlightBound | internal/common/pool.go:8-31 | Never more than max(1, workers) bodies in flight, in any reachable state. |
| WorkerPool.NeverStuck | internal/common/pool.go:15-31 | Until the call returns some step is enabled. |
| WorkerPool.EveryScheduleReturns | internal/common/pool.go:15-31 | Every schedule returns after exactly 7n+1 steps. |
| WorkerPool.ReturnsSequentialResult | internal/common/pool.go:15-31 | On return every body started and ended exactly once and every slot holds its own result. |
| WorkerPool.OneWorkerIsSequential | internal/common/pool.go:8-14 | With one worker the bodies run strictly in index order without overlap. |
| WorkerPool.RenderDBUnits | internal/convert/pipeline.go:2275-2296 | The rendered values, or the first error in unit order, do not depend on the schedule. |
| BodyGate.FlowExact | internal/convert/bodygate.go:219-259 | The static outcome set of a statement is exactly the set of outcomes its executions can have. |
| BodyGate.TerminatesIff | internal/convert/bodygate.go:236-259 | An accepted statement never completes normally exactly when no reachable break escapes it. |
| BodyGate.TerminatesFlow | internal/convert/bodygate.go:236-259 | The same, with labels in scope, on the static outcomes. |
| BodyGate.GateAcceptsLeavingLoop | internal/convert/bodygate.go:253-254 | The gate accepts `for { break }`, which completes normally: the loop case omits the no-break condition of section "Terminating statements" of the Go Language Specification. |
| BodyGate.StrictGateIsSound | internal/convert/bodygate.go:236-259 | With that condition restored an accepted statement never completes normally. |
| BodyGate.RepairIdempotent | internal/convert/bodygate.go:470-479 | Appending the terminal return twice is appending it once, and afterwards the gate is content. |
| BodyGate.RepairAgrees | internal/convert/bodygate.go:470-479 | The repaired body does what the body did wherever that did not fall off the end, and returns where it did. |
| BodyGate.RepairedFallsOffIff | internal/convert/bodygate.go:470-479 | A repaired body still falls off its end exactly when it is empty or its accepted last statement is left by a reachable break. |
| CallArgs.SplitTopArgs | internal/convert/seamrewrite.go:463-500 | The parts between top-level commas, outside brackets, strings and character literals. |
| CallArgs.JoinSplit | internal/convert/seamrewrite.go:463-500 | Comma-joining the parts gives the text back, for every text. |
| CallArgs.PartsAreAtoms | internal/convert/seamrewrite.go:463-500 | Splitting a part gives that part alone. |
| CallArgs.SplitJoin | internal/convert/seamrewrite.go:463-500 | Splitting a join of top-comma-free parts that end neutrally gives the parts. |
| CallArgs.DepthZeroComma | internal/convert/chunk.go:859-892 | Minus one exactly when there is one part, otherwise the length of the first part. |
| CallArgs.BalancedParens | internal/convert/seamrewrite.go:426-460 | Finds the first position where the brackets opened at the start are closed, and the text between. |
| CallArgs.FindCloseFirst | internal/convert/seamrewrite.go:426-460 | That position closes the bracket and none before it does. |
| CallArgs.FindCloseLocal | internal/convert/seamrewrite.go:426-460 | Matching depends on the characters from the opening to the closing bracket alone. |
| CallArgs.ArgsOf | internal/convert/seamrewrite.go:416-422 | The arguments rejoin to the text between the brackets and none splits further. |
| IfChain.StringBraceBody | internal/convert/fmlprobe.go:238-290 | Succeeds exactly when a balanced block starts at the brace, and returns the shortest one. |
| IfChain.EndsBlockUnique | internal/convert/fmlprobe.go:238-290 | A balanced block starting at a brace has one end. |
| IfChain.EndsBlockLocal | internal/convert/fmlprobe.go:238-290 | A block is read from its own characters alone. |
| IfChain.SkipSpaceComments | internal/convert/fmlprobe.go:213-235 | Where the run of white space and comments ends. |
| IfChain.ParseIfArm | internal/convert/fmlprobe.go:337-349 | One condition and block, as the grammar reads them. |
| IfChain.ParseIfChain | internal/convert/fmlprobe.go:295-334 | The arms and the end of an if / else if / else chain, as the grammar reads it. |
| IfChain.ParsePrint | internal/convert/fmlprobe.go:295-334 | Printing a non-empty chain of balanced arms inside any text and parsing there returns exactly those arms and their end. |
| StoreCall.RenderCall | internal/budget/budget.go:142-161 | The one-line call; where the arguments are balanced expressions, its first parenthesis matches its last character, the called name stands before it, and between them, split at top-level commas, context, handle and arguments. |
| StoreCall.CallTextInjective | internal/budget/budget.go:142-161 | Two such calls are written alike exactly when they call the same name and pass the same things. |
| QueryReplace.ReplaceQueries | internal/budget/replace.go:51-106 | For some order of the queries by start line: the spliced view, or the fault of the first query that has one; a view exactly for resolved, pairwise disjoint ranges inside the source. |
| QueryReplace.CheckRanges | internal/budget/replace.go:57-76 | Accepts exactly resolved ranges inside the source that start after the one before ends; otherwise names the first fault in checking order. |
| QueryReplace.SpliceRanges | internal/budget/replace.go:78-105 | One pass over the sorted ranges builds the view, its reports and its totals. |
| QueryReplace.SucceedsIff | internal/budget/replace.go:40-76 | Succeeds exactly on resolved, pairwise disjoint ranges inside the source, none given twice. |
| QueryReplace.OrderIndependent | internal/budget/replace.go:51-76 | Success, and on success the view, do not depend on the order of the queries. |
| QueryReplace.SpliceIsBottomUp | internal/budget/replace.go:78-105 | The splice equals replacing one range at a time, the lowest in the file first. |
| QueryReplace.SpliceLayout | internal/budget/replace.go:80-100 | The k-th report gives the line of the k-th call in the view, and right above it stand, unchanged, the lines since the query before. |
| QueryReplace.ViewTail | internal/budget/replace.go:103-103 | Below the last call stand the remaining lines. |
| QueryReplace.ViewLinesAreLines | internal/budget/replace.go:80-105 | The view lines are lines of the rewritten source exactly when no call line holds a newline. |
| QueryReplace.CharsBalance | internal/budget/replace.go:89-105 | The rewritten source is as long as the source less what was replaced plus what replaced it. |
| QueryReplace.TotalsAreSums | internal/budget/replace.go:89-101 | The totals are the sums over the reports. |
| ArtifactMerge.Conversion.WriteArtifact | internal/convert/pipeline.go:2011-2082 | Placeholder out, deterministic body yields, a live method wins, otherwise append; nothing is written on a failure before the write. |
| ArtifactMerge.Conversion.VisitController | internal/convert/pipeline.go:370-424 | One unit: resume, deterministic mode or model mode, with ledger and result lists. |
| ArtifactMerge.Conversion.RunControllers | internal/convert/pipeline.go:370-425 | All units in plan order. |
| ArtifactMerge.MergeSound | internal/convert/pipeline.go:2005-2034 | A write never stacks a second method of one name, nor a foreign mark. |
| ArtifactMerge.AlwaysSound | internal/convert/pipeline.go:2005-2034 | Over any history of runs, broken runs, tree deletions and ledger clearings the file never holds two methods of one name. |
| ArtifactMerge.DropsAcceptedIff | internal/convert/pipeline.go:2018-2034 | One write drops an accepted body exactly when it is for that very method, goes through, and some text in the file carries the method's deterministic mark. |
| ArtifactMerge.AcceptedSurvives | internal/convert/pipeline.go:370-425 | After any history, an accepted body on disk survives every further run. |
| ArtifactMerge.VisitAllAgrees | internal/convert/pipeline.go:370-425 | A complete run over prefix-free names keeps file and ledger in agreement, and every unit it leaves appended has its accepted body on disk. |
| ArtifactMerge.CompleteAgrees | internal/convert/pipeline.go:370-425 | File and saved ledger agree after any history of complete runs and clean-ups over prefix-free names. |
| ArtifactMerge.AppendedNeverPlaceholderIff | internal/convert/pipeline.go:2119-2137 | Over every history of complete runs, no unit recorded as appended has a kept placeholder, exactly when no unit name is a proper prefix of another. |
| ArtifactMerge.PrefixLosesBody | internal/convert/pipeline.go:2018-2034 | Four complete runs after which a unit is recorded as appended while only its placeholder is there: its accepted body was dropped without an error. |
| ArtifactMerge.BrokenRunKeepsIff | internal/convert/pipeline.go:371-425 | From an agreeing state, a run that dies before the ledger is saved keeps the agreement exactly when it came to no unit that is recorded as appended, has no accepted body on disk and got a rejected reply that was kept. |
| ArtifactMerge.BrokenRunHarmlessIff | internal/convert/pipeline.go:371-425 | Whatever the model replies, such a run is harmless exactly when it makes no model calls or every appended unit it comes to has its accepted body on disk. |
| ArtifactMerge.AgreesThroughoutIff | internal/convert/pipeline.go:371-425 | File and ledger agree after every event of a history exactly when each of its broken runs was harmless where it happened. |
| ArtifactMerge.NeverPlaceholderIffEmpty | internal/convert/pipeline.go:371-381 | Over all histories with broken runs, "no appended unit has a kept placeholder" holds exactly for the empty plan. |
| ArtifactMerge.BrokenRunLosesUnit | internal/convert/pipeline.go:371-381 | In every plan, for each unit: a run that dies before the ledger is saved can leave it appended with a placeholder that no later run retries. |
| ArtifactMerge.CallsExactly | internal/convert/pipeline.go:371-381 | In agreement with its ledger a unit costs a model call exactly when it is not appended with its accepted body on disk. |
| ArtifactMerge.ResumeIsIdle | internal/convert/pipeline.go:371-381 | With every unit appended and on disk, a run of either kind changes nothing and calls nothing. |
| MarkerText.StripIsBlockStrip | internal/convert/pipeline.go:2119-2137 | On the text of a whole file the strip cuts the first placeholder whose name starts with the given one; for a longer name the rest of that name stays behind as a line. |
| MarkerText.StripUndoesAppend | internal/convert/pipeline.go:2113-2137 | Stripping undoes appending a placeholder when no placeholder's name in the file continues this one. |
| Numerals.AtoiItoa | internal/analyzer/analyzer.go:657-735 | Numbers read back as written. |
| Numerals.RenderColumn | internal/analyzer/analyzer.go:589-599 | The letters of a column, by the decrement and divide loop. |
| Numerals.ColumnOfLetters | internal/analyzer/analyzer.go:589-599 | The base-26 reading of a column's letters is the column. |
| Numerals.LettersOfColumn | internal/analyzer/analyzer.go:589-599 | Every string of capital letters names exactly one column. |
| Numerals.ColLettersInjective | internal/analyzer/analyzer.go:589-599 | Different columns have different letters. |
| Rescore.AnalyzeFacts | internal/analyzer/analyzer.go:225-289 | External functions classified, weights summed, score and tier computed. |
| Rescore.WriteCsv | internal/analyzer/analyzer.go:448-587 | The records: marks line, marks cells, header, one row a report. |
| Rescore.LoadOptionsCsv | internal/analyzer/analyzer.go:611-691 | Marks and weights read record by record, or the first error. |
| Rescore.LoadMarksLine | internal/analyzer/analyzer.go:743-778 | The marks of a comment line, or its first error; other comments change nothing. |
| Rescore.LoadMarksRow | internal/analyzer/analyzer.go:700-738 | The marks of the cells above the header, or the first bad cell. |
| Rescore.FormulasAgree | internal/analyzer/analyzer.go:534-541 | Evaluating the score, tier and total formulas on the sheet, references resolved by column letters, gives the computed score, tier and total. |
| FormulaText.SheetReadsIff | internal/analyzer/analyzer.go:448-587 | The written records, formula texts parsed again, are the sheet they were written from exactly when no text cell of a row starts with an equals sign. |
| FormulaText.FormulaReads | internal/analyzer/analyzer.go:534-541 | A formula written as sums of products grouped to the left reads back as itself. |
| FormulaText.WrittenFormulasAgree | internal/analyzer/analyzer.go:534-541 | Read back and evaluated, the emitted text gives the computed score, tier and total. |
| Rescore.MarksLineLoads | internal/analyzer/analyzer.go:740-778 | The comment line carries all marks. |
| Rescore.MarksRowLoads | internal/analyzer/analyzer.go:693-738 | The marks cells carry all marks, whatever the comment line said. |
| Rescore.FnCellLoads | internal/analyzer/analyzer.go:663-685 | A cell of external functions loads back as their weights, the last of a name winning. |
| Rescore.LoadedWeights | internal/analyzer/analyzer.go:601-691 | The loaded weights are the effective weights of the functions on rows not taken for comments, and no others. |
| Rescore.LoadRecovers | internal/analyzer/analyzer.go:601-691 | Loading an analysis' own CSV recovers its marks and those weights. |
| Rescore.RescoreIsFixpointIff | internal/analyzer/analyzer.go:601-691 | Re-analysis under the loaded options reproduces every report exactly when each external function is on a row not taken for a comment or weighs what its tier weighs. |
| Rescore.RescoreIsFixpoint | internal/analyzer/analyzer.go:601-691 | With no file name starting with a number sign, re-scoring is a fixpoint. |
| BatchPairing.Build | internal/batchflow/batchflow.go:126-174 | Groups and steps of a batch body, by the claiming loop. |
| BatchPairing.FindNearest | internal/batchflow/batchflow.go:139-151 | The covering cursor declared last before the statement, by the best-so-far loop. |
| BatchPairing.NearestIsNearest | internal/batchflow/batchflow.go:139-151 | A cursor is found exactly when one serves, and none that serves is declared after it. |
| BatchPairing.FullOverlapIff | internal/batchflow/batchflow.go:144-147 | The overlap equals the number of distinct binds exactly when every bind is a fetched column, ignoring case. |
| BatchPairing.ClaimsPair | internal/batchflow/batchflow.go:134-161 | Every pair is a cursor and a statement whose nearest cursor it is; no statement is claimed twice. |
| BatchPairing.PlacedOnce | internal/batchflow/batchflow.go:163-175 | Every query is exactly once a group's cursor, a group's statement or a step; flattened queries without a cursor name are placed nowhere. |
| BatchPairing.AllPlacedIff | internal/batchflow/batchflow.go:163-175 | Every query is placed exactly when every flattened one carries a cursor name. |
| BatchPairing.PairedByNearest | internal/batchflow/batchflow.go:124-161 | The binds of a paired statement are columns of its cursor, which precedes it, and no covering cursor is declared in between. |
| BatchPairing.LeftBehind | internal/batchflow/batchflow.go:152-161 | A coverable statement left as a step lost its nearest cursor to an earlier statement. |
| BatchPairing.SimpleIff | internal/batchflow/batchflow.go:193-205 | The shape is simple exactly when there are queries and they are the two of every group and nothing else. |
| Naming.FindName | internal/csplan/plan.go:619-622 | The base, or the base with the least free suffix; the unbounded loop ends because each turn uses up a taken name. |
| Naming.FirstFreeLeast | internal/csplan/plan.go:619-622 | The search skips taken names only, and at most as many as there are. |
| Naming.QueryNamesInOrder | internal/csplan/plan.go:610-626 | A name for every non-duplicate query, in order. |
| Naming.AssignUniqueQueryNames | internal/csplan/plan.go:631-649 | Names rewritten in place, pins reserved first. |
| Naming.AssignedUnique | internal/csplan/plan.go:628-649 | Pinned queries keep their plan; unpinned names differ from each other and from every pin. |
| Naming.DraftAgreesWithPlan | internal/csplan/plan.go:605-626 | On the same order and without pins the draft and the plan give the same names. |
| Naming.DraftDistinct | internal/csdraft/draft.go:187-206 | The draft's names are pairwise distinct. |
| Naming.PinsRoundTrip | internal/csdraft/draft.go:187-206 | Fed back as pins the draft's names are kept to the letter, in any plan order. |
| Naming.DraftQueryOrder | internal/csdraft/draft.go:211-246 | Slice queries first, resolved to what they repeat, then the rest. |
| Naming.DraftOrderComplete | internal/csdraft/draft.go:208-246 | No query is listed twice and every non-duplicate one is listed. |
| Naming.DraftCanonicalIff | internal/csdraft/draft.go:208-246 | The draft's order holds distinct originals only exactly when no slice entry stands for a duplicate. |
| Naming.DraftOrderAgrees | internal/csdraft/draft.go:187-246 | Then the draft's names, in its own order, are pairwise distinct and are the plan's. |
| Naming.UniqueEndpointName | cmd/tuxconv/ainames.go:192-211 | Base, base with token, or base with the least free number; the result is free and registered. |
| Naming.DedupeEndpointNames | cmd/tuxconv/ainames.go:220-233 | Proposals made unique in order, in place. |
| Naming.DedupedDistinct | cmd/tuxconv/ainames.go:213-233 | Non-empty final names are pairwise distinct; empty proposals stay empty and others do not become so. |
| Naming.FirstProposerKeepsIff | cmd/tuxconv/ainames.go:213-219 | "The first proposal keeps its name" holds for all tokens exactly when no two earlier entries collide on a proper prefix of it. |
| Naming.DedupeRowNames | cmd/tuxconv/ainames.go:145-184 | Row names cleared in place where another shape has claimed them. |
| Naming.SharedRowsAgree | cmd/tuxconv/ainames.go:139-184 | Queries that end with one row name have the same columns, and the first claimant keeps it. |
| AxisRanking.SortStable | internal/flow/axes.go:338-354 | Insertion that places an element after all that are not greater. |
| AxisRanking.StableSortRanks | internal/flow/axes.go:318-354 | Stable sorting refines any relation the elements came in: elements that tie keep it. |
| AxisRanking.ListCandidates | internal/flow/axes.go:330-355 | The candidates: three recognizer groups by their rubrics, stably by nest depth. |
| AxisRanking.FindNest | internal/flow/axes.go:305-316 | The least depth among the guards whose depth is known, reached by one of them; zero when none is known. |
| AxisRanking.CandidatesLexicographic | internal/flow/axes.go:318-355 | Candidates are ordered by nest depth, then recognizer priority, then that recognizer's rubric. |
| AxisRanking.CandidatesQualify | internal/flow/axes.go:179-216 | A candidate is listed exactly when the statistics of its recognizer hold an entry it comes from, with positive weight, two guard sites and two domain values at least. |
| AxisRanking.RankedAxes | internal/flow/axes.go:374-407 | The registered axes are candidates at increasing positions. |
| AxisRanking.RegistryCompatible | internal/flow/axes.go:368-407 | Any two registered axes differ in key, and the later one's reference and alias are not among those the earlier one stands for. |
| AxisRanking.RegistryComplete | internal/flow/axes.go:368-407 | A candidate with a key is registered or an axis registered before it is incompatible with it. |
| AxisRanking.RankZeroIsBestIff | internal/flow/axes.go:357-374 | Rank zero is the slicer's axis exactly when that axis has a key. |

## Left out

- Parsing, emitters, templates, formatting and type checks of generated Go: the merge assumes that text with a stray identifier at top level does not format, and that nothing else about a body makes formatting move a marker.
- File, directory, YAML, logging and model-client input and output: a model call is an answer chosen from outside; reading the generated file is assumed to succeed.
- Mapping renames in the ledger: units are identified by name, so an identifier reused under another name is not covered.
- The fn-helper path of the merge, including its placeholder for failed deterministic bodies: what counts as replaceable there depends on code that is not part of this model.
- `tpDepSkeletons`: direct entries are given, one or more a service; grouping call sites by service adds no hard property. The `Reasons` text is an opaque string.
- `stripLeadingArmChain`, `fixRuneLiterals`, `repairControllerBody`, `braceBlockLines` and `rewriteLegacySeams`: line rewriters around the parsers that are modelled.
- `classifyAxisKinds`, guard-site counting and the harvest of axis statistics: entries arrive with weight, guard sites and axis.
- CSV quoting and regular-expression engines: records are sequences of strings, recognised line shapes are predicates or needle searches.
- Machine integers: counts, weights and marks are unbounded, so a numeral beyond 64 bits, which the loader rejects, is accepted here.
- Bytes: texts are sequences of characters, lengths count characters, and lower-casing is that of ASCII letters.
- Stack use and panics inside pool bodies: a body runs to its end.
- TxWrap.WrapPreserves: leaves the outcome open where a return calls a function with several results, reads the first value of a return without effects, assumes that `data` is not shadowed, and that a commit, once decided, succeeds.
- TxWrap.RewritePrinted: covers returns that stand on one line of their own; a return inside a one-line block, one written over several lines and one in a function literal are not statements of the printed form.
- TxThread.ThreadCalls: a vertical tab counts as white space behind a call head; the regular expressions of the source do not take it for such.
- TxThread.RepairedPreserves: speaks of the threaded body as the original; what a call does with the handle it is given is not modelled.
- Chains.ChainsWholeIff: the opener of a continuation is the last code line before it that stands below the depth its brace closes (before a bare else, no deeper than the else), as the scanner counts depth at line starts.
- BodyGate.FlowExact: goto and fallthrough are not in the statement language, and executions that never end are cut after any number of turns.
- TpDeps.ResolveTpDeps: assumes distinct reports with non-empty file names, and direct entries as the skeletons make them.
- TokenBudget.FragmentWithinBudget: the extras are the five filters of the grouping; the wording around them is counted as the framing constant, as the source does.
- Rescore.RescoreIsFixpointIff: assumes identifiers as function names, no file called `file`, and no file name that is itself a marks line.
- ArtifactMerge.AcceptedSurvives: assumes that no model output carries a deterministic mark; `ArtifactMerge.DropsAcceptedIff` shows what happens otherwise.
- MarkerText.StripIsBlockStrip: assumes identifiers as names and no strip marker inside a body; the source neutralises markers in rejected payloads only.
- BatchPairing.Build: the truncate statement noted beside a step, the spans, drops and logs of the flow are not modelled.
- Naming.DedupeRowNames: takes the pins in the sorted order the source walks them.
