# Verified model of the RLM runtime and its research tooling

This Dafny project models the parts of the repository where order, sharing, failure and arithmetic
interact, and proves what they keep. `dafny verify dfyconfig.toml` checks all of it. Modules follow the
source's components:

- **The run protocol** (`ledger.dfy`, `slots.dfy`, `engine*.dfy`). One run is a growing list of
  activities (branches and model calls) over one append-only trace and one ledger. A step moves one
  activity, so a sequence of steps is any interleaving of the threads of a run at any recursion depth.
  Clock readings, backends, executors and cells are choices carried by the steps. Invariants of every
  reachable state give the tree shape of the trace, the settling of calls, the budgets, slot safety,
  deadlock freedom and termination.
- **The worker process** (`executor_output.dfy`, `executor_cell.dfy`, `executor_ipc.dfy`). Output capture
  over one shared budget; host calls and final submissions of an adversarial cell, with the latch for the
  first fatal host failure; the two-process lock step over a pipe that may close.
- **Bounded encoders and graph walks** (`observation*.dfy`, `strict_json.dfy`, `structure_*.dfy`). The greedy
  observation with its binary search over a test that is not monotone, exactly when that search finds the
  longest prefix, and the text whose length is measured; the strict-JSON check on a heap that may be cyclic;
  the dependency walk, the isomorphism index and the stratified selection.
- **Resumable schedulers** (`queue.dfy`, `queue_runs.dfy`, `dose.dfy`, `benchmark.dfy`,
  `benchmark_summary.dfy`). Passes of the job queue and whole runs of passes that may die at any move; dose
  training stopped and resumed; benchmark campaigns of crashes and resumes.
- **Agreement and exact arithmetic** (`agreement.dfy`, `taskgen.dfy`, `mcnemar.dfy`).

Methods with loops or fields are proved against specification functions, and the theorems are lemmas
about those functions. `common.dfy` and `sorting.dfy` hold shared lemmas on sums and sorting. Every lemma
switches automatic induction off, so each inductive proof is the one written in its body.

## Where the code differs from what one might expect

- The prefix search does not always find the longest prefix that fits. Where the omitted characters of a
  field and of the whole table both count down from a power of ten, one more character of cost one shortens
  the encoding: a hole in the curve of lengths (`ShorterExactlyAtHoles`). When the whole text does not fit,
  the answer falls short exactly when the longest prefix fills the budget just past such a hole and the
  search measures the hole; without holes it is always the longest (`NoHoleNoMiss`). When the whole fits,
  the search finds it exactly when it has one character or still fits without its last (`WholeFoundExactly`).
  `SearchCanMissTwo` and `SearchCanMissTheWhole` give inputs with the full list of candidates.
- `Ledger.record_response` adds a response's tokens before it compares the total with the budget, so a
  refused response still counts and every later one is refused too (`TokenBudgetIsSticky`).
- The worker does not latch a host error whose record names `InvalidRequestError`, and it compares
  names only: a record of that type is not latched whoever raised it. A frame that does not decode is
  not latched either (`RepairableExactly`).
- Model calls are bounded by max_turns * (1 + max_subcalls): a subcall pays either for one leaf call or for one
  child branch, so the leaf calls need no separate term.
- A lane that the slots do not list has its capacity counted within one dispatch only, so each pass may add
  to it (`UnlistedLaneOverfills`). A lane holds over all passes exactly when it is listed
  (`ListedLanesHoldExactly`).
- A dispatcher that dies after starting a job's process and before unlinking its pending file may start the
  job again (`JobStartsTwice`). The next pass does so exactly when the death tore that job's launch, its lane
  has room and its prerequisites are done (`RestartsExactly`); with unique names each further start is paid
  for by one such death (`StartsCounted`). Nothing is ever lost (`CrashLosesNothing`).
- The generator's lookup answer is the first matching purchase in log order and the aggregator's is the
  earliest one. They agree exactly when these are the same (`LookupAgreesExactly`), which the generator
  ensures by leaving one match.

## Model

| member | source | states |
|---|---|---|
| `RunLedger.UsageFrom` | src/rlm/ledger.py:232-256 | a usage object is accepted exactly when it is absent, or an object with three non-negative counts whose total is the sum; absence is one unreported call |
| `RunLedger.Ledger.constructor` | src/rlm/ledger.py:32-51 | a new ledger holds zero counters and max_parallel free permits |
| `RunLedger.Ledger.ReserveModelCall` | src/rlm/ledger.py:59-70 | past the deadline or at the limit it raises and changes nothing; otherwise it returns the new count |
| `RunLedger.Ledger.ReserveSubcalls` | src/rlm/ledger.py:72-94 | all or nothing: a batch that would exceed the limit reserves nothing |
| `RunLedger.Ledger.RecordResponse` | src/rlm/ledger.py:135-161 | tokens are added before the budget is compared; malformed usage and unreported usage under a budget add nothing |
| `RunLedger.Ledger.TryAcquire` | src/rlm/ledger.py:107-109 | takes a permit exactly when one is free, the protocol's acquire |
| `RunLedger.Ledger.Enter` | src/rlm/ledger.py:113-121 | counts one more active call and the new peak unless the deadline has passed |
| `RunLedger.Ledger.Leave` | src/rlm/ledger.py:124-126 | counts one active call fewer, the protocol's leave |
| `RunLedger.Ledger.Release` | src/rlm/ledger.py:127-127 | gives a permit back, never beyond the initial value, the protocol's release |
| `RunLedger.HistoryBalances` | src/rlm/ledger.py:59-161 | over every history of operations the counters equal the granted reservations, the input and output tokens of the well-formed reports and the silent responses, column by column, and both budgets hold |
| `RunLedger.CallNumbersAreConsecutive` | src/rlm/ledger.py:59-70 | call numbers are the consecutive positions of the granted reservations, without gap or repetition |
| `RunLedger.SubcallsGrantedExactly` | src/rlm/ledger.py:72-94 | in every history a batch is granted exactly when its size is not negative, the deadline is not past and all of it fits, and is otherwise told the first of these reasons |
| `RunLedger.UnusableReports` | src/rlm/ledger.py:135-147 | in every history a malformed report is refused as such, and a missing one is refused exactly under a token budget |
| `RunLedger.RecordedWithinBudget` | src/rlm/ledger.py:143-160 | a well-formed response is refused for tokens exactly when everything billed so far exceeds the budget |
| `RunLedger.TokenBudgetIsSticky` | src/rlm/ledger.py:148-160 | once a response is refused for tokens, none is ever accepted again |
| `SlotProtocol.SlotSafety` | src/rlm/ledger.py:96-127 | for any interleaving, free permits plus holders equal the limit, active calls are the threads inside a call and at most the holders, and the peak is the largest active count ever reached |
| `SlotProtocol.SomeHolderCanStep` | src/rlm/ledger.py:96-127 | if a thread waits and no permit is free, some holder can move |
| `SlotProtocol.StepEffort` | src/rlm/ledger.py:96-127 | every move inside a use of a slot lowers a bounded measure |
| `SlotProtocol.Drains` | src/rlm/ledger.py:104-127 | once no new use starts, at most five moves a thread remain and then every permit is back, whatever deadlines hit between acquire and enter |
| `SlotProtocol.DeadlineStopsCalls` | src/rlm/ledger.py:104-127 | once the deadline is past no use of a slot begins and no thread reaches the backend |
| `SlotProtocol.UseGivesBack` | src/rlm/ledger.py:96-127 | with a free permit a thread goes all the way round, in time or cut short by the deadline, and the slot comes back as it was |
| `EngineInvariants.CallEffect` | src/rlm/engine.py:755-840 | each step of a model call keeps the trace grammar: request, response, failure, each caused by the one before |
| `EngineInvariants.BranchEffect` | src/rlm/engine.py:342-651 | each step of a branch emits an event with an earlier cause of an allowed kind and keeps the branch's place in the trace |
| `EngineInvariants.AnswerPairs` | src/rlm/engine.py:398-416 | a controller answer adds one request/response pair to the conversation's causal path |
| `EngineInvariants.LocalWaits` | src/rlm/engine.py:842-875 | a branch stops waiting only for settled activities and starts waiting only for one it creates |
| `EngineRuns.StepKeeps` | src/rlm/engine.py:119-209 | every step of a run keeps the whole invariant and lowers the termination measure |
| `EngineRuns.TraceIsOneTree` | src/rlm/engine.py:134-195 | the trace of every run is one tree rooted at run.started, with parents emitted before children |
| `EngineRuns.CallsSettleExactlyOnce` | src/rlm/engine.py:769-840 | in a finished run every model request has a response, a failure, or a response then a failure, and nothing more |
| `EngineRuns.ResponsesFollowRequests` | src/rlm/engine.py:795-804 | a response is the direct child of its own request |
| `EngineRuns.SuccessCountsTurns` | src/rlm/engine.py:164-171 | on success the path from run.completed to the root passes exactly `turns` controller requests and as many responses of the root branch |
| `EngineRuns.FailureNamesItsCause` | src/rlm/engine.py:187-195 | run.failed hangs under run.started or under the very event its error carried, an abort decision or the model failure with the same record |
| `EngineRuns.FirstFailureIsFirst` | src/rlm/engine.py:842-875 | a batch surfaces the failure of its first failing child in request order |
| `EngineRuns.FateKept` | src/rlm/engine.py:1008-1014 | a branch bound to a host failure stays bound to it at every step |
| `EngineRuns.FatalFailureSurfaces` | src/rlm/engine.py:462-501 | once a cell has latched a failure the branch creates nothing more and stays bound to it, record and causal parent unchanged, unless its execution never reports: it times out, loses its worker or is torn down |
| `EngineRuns.ReportedFailureSurfaces` | src/rlm/engine.py:462-501 | once the execution has reported the failure the branch ends in it and in no other |
| `EngineRuns.ChildFailureBinds` | src/rlm/engine.py:842-875 | when all children of a host call have ended and the first that failed did so with anything but a malformed request, then on every continuation the branch creates nothing more and never completes: it ends in that failure, or in one of its own executor |
| `EngineRuns.RepairableCallResumes` | src/rlm/engine.py:842-875 | when the first failure names a malformed request, or no child failed, the cell goes on with nothing latched |
| `EngineRuns.FreeCellGoesOn` | src/rlm/engine.py:466-501 | such a cell may call the host again while calls and subcalls remain, and may submit and complete |
| `EngineRuns.DenialDecides` | src/rlm/engine.py:653-749 | a host operation refused without children binds the cell to its error exactly when it does not name a malformed request |
| `EngineRuns.DenialPossible` | src/rlm/engine.py:653-749 | a cell with nothing latched may be refused any operation, one that reserved its subcall as long as subcalls remain |
| `EngineRuns.BranchFollowsItsCells` | src/rlm/engine.py:501-612 | over every run a branch completes only on a cell that submitted and was accepted, decides about a fault only after one, and begins another turn only after a quiet cell or, when faults are repaired, after a fault |
| `EngineRuns.BatchesAreNarrow` | src/rlm/engine.py:857-870 | over every run a host call never has more children under way than requests, or than model calls may run at once |
| `EngineRuns.BudgetsHold` | src/rlm/engine.py:653-882 | at every point depth is at most max_depth, branches at most 1 + max_subcalls, calls at most max_model_calls and max_turns * (1 + max_subcalls) |
| `EngineRuns.SpentIsCharged` | src/rlm/engine.py:670-749 | each charged branch or leaf pays for at most max_turns calls |
| `EngineRuns.RunsTerminate` | src/rlm/engine.py:342-875 | every run has at most a stated number of steps, whatever the schedule and the environment |
| `EngineRuns.SlotsComeHome` | src/rlm/engine.py:785-793 | slots and active calls always match the activities, and a finished run has returned every permit |
| `EngineRuns.NeverDeadlocks` | src/rlm/engine.py:785-875 | while a run is open some activity can step, without failing except where a limit or an abort leaves nothing else |
| `OutputCapture.OutputBudget.Take` | src/rlm/executor.py:286-294 | accepts as much as still fits |
| `OutputCapture.BoundedStringIO.Write` | src/rlm/executor.py:311-325 | appends the cleaned prefix that fits, counts all of it and reports the full length |
| `OutputCapture.CleanExactly` | src/rlm/executor.py:316-320 | cleaning keeps every character but surrogates, turns each of those into one question mark, and leaves none |
| `OutputCapture.BoundedStringIO.Truncated` | src/rlm/executor.py:330-338 | reports exactly when something was dropped, with original = retained + omitted |
| `OutputCapture.WriteExtends` | src/rlm/executor.py:311-325 | one write adds to its own channel exactly its share of the cut stream and nothing to the others |
| `OutputCapture.CellCapture.WriteOn` | src/rlm/executor.py:804-808 | one write keeps all four captures equal to what the stream prescribes |
| `OutputCapture.CellCapture.Capture` | src/rlm/executor.py:804-877 | for any interleaving of writes the retained text is the first max_chars characters of the stream |
| `OutputCapture.ChannelKeepsPrefix` | src/rlm/executor.py:297-338 | each channel keeps a prefix of its own stream |
| `HostCalls.RecordRoundTrip` | src/rlm/errors.py:28-86 | a well-formed error record decodes from its encoding to itself |
| `HostCalls.DecodeIsExact` | src/rlm/errors.py:44-86 | the decoder accepts exactly the encodings of well-formed records |
| `HostCalls.AcceptRoundTrip` | src/rlm/executor.py:153-162 | the worker accepts the host's error frame, with its own record, exactly when record and causal parent are well formed |
| `HostCalls.AcceptIsExact` | src/rlm/executor.py:153-162 | the worker accepts exactly the frames that encode a well-formed error |
| `HostCalls.FailureRoundTrip` | src/rlm/executor.py:224-243 | both crossings together give back the original record and causal parent |
| `HostCalls.FailureIsExact` | src/rlm/executor.py:224-243 | the host takes a failure from exactly the frames of a kind and a well-formed error, with that kind, record and parent |
| `HostCalls.ReadExactly` | src/rlm/executor.py:1085-1111 | a result is refused exactly when its failure field is neither null nor such a frame; a failure outranks an exception, which outranks a submission |
| `HostCalls.Worker.Call` | src/rlm/executor.py:491-538 | a latched worker sends nothing; otherwise the id advances, the request is framed if it can be, and only a fatal error is latched |
| `HostCalls.Worker.Submit` | src/rlm/executor.py:650-677 | only the first valid final of a cell is kept |
| `HostCalls.AfterStep` | src/rlm/executor.py:491-538 | the state after a cell's operations, described by its first fatal failure, first final and live calls, advances by one operation at a time |
| `HostCalls.SentIncreases` | src/rlm/executor.py:495-506 | ids on the wire strictly increase |
| `HostCalls.Worker.RunCell` | src/rlm/executor.py:794-900 | after the first fatal failure nothing reaches the host, that failure is reported and no submission survives; without one the first valid final survives exactly when the cell ends without an exception |
| `HostCalls.Execute` | src/rlm/executor.py:1092-1111 | end to end, the engine receives what the cell did: the first fatal failure with its own record and parent, or none |
| `HostCalls.SubmissionExactly` | src/rlm/executor.py:650-677 | the engine receives the text or the response of the first valid final exactly when no operation was fatal and no exception escaped, and nothing exactly when there is no valid final or one of these holds |
| `HostCalls.FatalExactly` | src/rlm/executor.py:513-535 | an operation is fatal exactly when its framed request was answered by an acceptable error that does not name a malformed request |
| `HostCalls.KindExactly` | src/rlm/executor.py:525-534 | the failure kind is infrastructure exactly for the code of an internal error, on the wire and at the host |
| `HostCalls.RepairableExactly` | src/rlm/executor.py:521-535 | exactly which replies stay repairable |
| `HostCalls.NothingAfterFatalMatters` | src/rlm/executor.py:491-494 | whatever a cell does after its first fatal failure changes nothing |
| `LockStep.StepSound` | src/rlm/executor.py:993-1116 | every move of host or worker keeps the lock-step invariant |
| `LockStep.AlwaysInStep` | src/rlm/executor.py:495-512 | at most one frame in flight, no unexpected frame, a reply carries the outstanding id, ids never repeat across cells, every EXECUTE ends in one result or one forced close |
| `LockStep.ExactlyOneSideMoves` | src/rlm/executor.py:1008-1116 | during a cell exactly one side may move, between cells neither |
| `LockStep.HostIsNeverTrapped` | src/rlm/executor.py:1009-1020 | whatever run led to a dead worker, at most two moves remain, and when none remains the cell has ended by a result on its way or by a forced close |
| `LockStep.CellsEnd` | src/rlm/executor.py:993-1116 | until the next cell is begun any run has at most seven moves, four more for each host call and one for each failed request |
| `LockStep.CellCompletes` | src/rlm/executor.py:495-512 | from between two cells any cell with any host calls runs to its result: the calls that can be sent get their numbers in order, and nothing stays in flight |
| `LockStep.DeathCloses` | src/rlm/executor.py:1129-1144 | whenever the worker dies within a cell the host can close by force, which ends that cell |
| `LockStep.ClosedStaysClosed` | src/rlm/executor.py:1129-1144 | after a forced close nothing is begun or answered |
| `Observation.ProbeBrackets` | src/rlm/observation.py:133-149 | the search's answer fits or is zero, and it is the whole text or its successor does not fit, for any test |
| `Observation.MaxPrefixThatFits` | src/rlm/observation.py:125-149 | the loop over deep copies computes the search on the real measure |
| `Observation.SizeOfProper` | src/rlm/observation.py:184-192 | the encoded length of a partly shown field as a constant, its shown cost and the digits of two counts |
| `ObservationText.LengthIsTextLength` | src/rlm/observation.py:157-192 | the measured length is that of the text written for the envelope, the total, the table and the members |
| `ObservationText.TextReads` | src/rlm/observation.py:191-192 | a text is written in the characters charged for it and reads back as itself |
| `ObservationText.NumeralReads` | src/rlm/observation.py:184-188 | a count is written in as many characters as it has digits and reads back as itself |
| `Observation.TwoMoreNeverShorter` | src/rlm/observation.py:184-192 | from one shown character on, two or more further characters never shorten the encoding |
| `Observation.OneMoreSavesAtMostOne` | src/rlm/observation.py:184-192 | one further character saves at most one |
| `Observation.FitIsNearlyMonotone` | src/rlm/observation.py:125-149 | a length that does not fit rules out every longer proper prefix but its successor |
| `Observation.SearchIsNearlyBest` | src/rlm/observation.py:125-149 | the answer fits, its successor does not, and the best proper prefix is at most two longer |
| `PrefixSearch.CandidatesWait` | src/rlm/observation.py:84-118 | when a text candidate's turn comes it is wholly omitted, as the search assumes |
| `PrefixSearch.ShorterExactlyAtHoles` | src/rlm/observation.py:184-192 | one further character shortens the encoding, by one, exactly when it has cost one and both counts leave a power of ten |
| `PrefixSearch.SearchIsLongestExactly` | src/rlm/observation.py:125-149 | for every layout, table and text: the answer is the longest fitting length exactly when, if the whole fits, it has at most one character or fits without its last, and otherwise the longest does not fill the budget just past a hole that the search measures |
| `PrefixSearch.ProperFoundExactly` | src/rlm/observation.py:133-149 | the second half of that condition, for any curve of lengths that falls only at holes |
| `PrefixSearch.WholeFoundExactly` | src/rlm/observation.py:133-149 | the first half, for any such curve |
| `PrefixSearch.NoHoleNoMiss` | src/rlm/observation.py:125-149 | a text that has no hole and does not fit whole is cut at the longest prefix that fits |
| `PrefixSearch.ShownIsLongestExactly` | src/rlm/observation.py:90-149 | the finished observation shows of a text candidate the longest prefix that fits at its turn exactly under that condition |
| `PrefixSearch.SearchCanMissTwo` | src/rlm/observation.py:71-149 | an input with all candidates, its skeleton within budget, where two characters of stdout fit and none is shown |
| `PrefixSearch.SearchCanMissTheWhole` | src/rlm/observation.py:71-149 | such an input where all of stdout fits and none of it is shown |
| `Observation.TryPrefix` | src/rlm/observation.py:136-145 | a candidate is measured on a deep copy; the value is left alone |
| `Observation.Show` | src/rlm/observation.py:106-114 | the value updated in place has the length of the copy that was measured |
| `Observation.Accept` | src/rlm/observation.py:93-105 | structured fields are accepted whole or not at all, text by the search |
| `Observation.GreedyAccounts` | src/rlm/observation.py:90-114 | at every point shown plus omitted is each candidate's length, what is shown is a prefix, structured fields are all or nothing |
| `Observation.StructuredShownExactly` | src/rlm/observation.py:93-114 | the finished observation shows a structured candidate, whole, exactly when the value with all of it shown and its entry gone fits at its turn |
| `Observation.TextShownExactly` | src/rlm/observation.py:104-114 | of a text candidate it shows the prefix that the search finds at its turn |
| `Observation.FillCandidate` | src/rlm/observation.py:90-114 | deciding one candidate keeps the value within budget and the stated total equal to the table's sum |
| `Observation.ControllerObservation` | src/rlm/observation.py:21-118 | it raises exactly for a non-positive budget or a skeleton that is too large; otherwise the value is the greedy fill and encodes within max_chars |
| `StrictJson.Checker.Check` | src/rlm/json.py:24-48 | the check computes the verdict and leaves the active set as it found it |
| `StrictJson.Checker.ContainerError` | src/rlm/json.py:51-67 | a list is an error if it is active, else by its first bad item |
| `StrictJson.Checker.ObjectError` | src/rlm/json.py:70-92 | a dict is an error if it is active, else by its first bad key or value |
| `StrictJson.PassMeansClean` | src/rlm/json.py:24-92 | when the check passes every path met from there is free of problems and of repeated containers |
| `StrictJson.FailMeansDirty` | src/rlm/json.py:24-92 | when it fails there is a path that shows why |
| `StrictJson.AcceptsExactlyStrictJson` | src/rlm/json.py:15-92 | on any heap with sharing and cycles, no error exactly when everything reachable is a null, boolean, number that is finite, valid string, list, or dict whose keys are all valid strings, and no container reaches itself |
| `StrictJson.ReportIsTrue` | src/rlm/json.py:24-92 | the path in an error leads to an object that has the reported problem: a lone surrogate, a non-finite number, a value of another type, a key of that kind, or a container above itself |
| `DependencyGraph.Walk.Visit` | experiments/teaching_transfer_20261014/structure.py:16-30 | a visit finishes the item, finds a real cycle, or finds too many reachable items, and it terminates |
| `DependencyGraph.Walk.VisitIngredients` | experiments/teaching_transfer_20261014/structure.py:27-29 | every ingredient is finished and its edge drawn |
| `DependencyGraph.MeetingActive` | experiments/teaching_transfer_20261014/structure.py:17-18 | meeting an active item is a cycle through the root's reach |
| `DependencyGraph.FinishedMeansAcyclic` | experiments/teaching_transfer_20261014/structure.py:32-36 | when the root is finished everything reachable is acyclic and nodes and edges are exactly the reachable ones |
| `DependencyGraph.Build` | experiments/teaching_transfer_20261014/structure.py:11-36 | a graph is returned exactly when everything reachable is acyclic and within max_nodes; its nodes, edges and kinds are then exactly those of the recipes; refusals are justified |
| `StructureIndexing.BucketIsInvariant` | experiments/teaching_transfer_20261014/structure.py:39-44 | isomorphic kind-labelled graphs have the same bucket |
| `StructureIndexing.OneBucketSufficesExactly` | experiments/teaching_transfer_20261014/structure.py:53-57 | looking in one bucket agrees with a full scan, for all collections, exactly when the bucket is invariant |
| `StructureIndexing.IsoTransitive` | experiments/teaching_transfer_20261014/structure.py:51-57 | isomorphism composes |
| `StructureIndexing.BucketDecides` | experiments/teaching_transfer_20261014/structure.py:53-57 | what is found in one bucket decides for everything ever added |
| `StructureIndexing.StructureIndex.Contains` | experiments/teaching_transfer_20261014/structure.py:53-57 | finds exactly what a scan of every graph ever offered would |
| `StructureIndexing.StructureIndex.Add` | experiments/teaching_transfer_20261014/structure.py:59-63 | stores a graph exactly when it is new, keeping one representative per class |
| `Selection.PicksAreNovel` | experiments/teaching_transfer_20261014/structure.py:74-79 | picks are pairwise non-isomorphic and new |
| `Selection.PicksInOrder` | experiments/teaching_transfer_20261014/structure.py:70-79 | picks keep hash order |
| `Selection.PassedOverIsKnown` | experiments/teaching_transfer_20261014/structure.py:75-79 | a row passed over before the quota is isomorphic to something taken or picked earlier |
| `Selection.ShortOnlyWhenExhausted` | experiments/teaching_transfer_20261014/structure.py:80-81 | a stratum falls short only when fewer than `count` novel classes are left |
| `Selection.StratumIsExact` | experiments/teaching_transfer_20261014/structure.py:69-82 | a stratum's picks are at most `count` rows of its depth, in hash order, from the candidates |
| `Selection.SelectionIsExact` | experiments/teaching_transfer_20261014/structure.py:66-83 | in a successful selection the slice of each stratum has exactly `count` rows, all of its depth, in hash order, from the candidates |
| `Selection.ShortageIsReal` | experiments/teaching_transfer_20261014/structure.py:80-81 | an error names the first stratum that fell short, and no `count` new pairwise non-isomorphic rows of its depth exist beside what was already taken |
| `Selection.SelectionIsNovel` | experiments/teaching_transfer_20261014/structure.py:66-83 | the whole selection is pairwise non-isomorphic across strata and avoids everything excluded |
| `Selection.Select` | experiments/teaching_transfer_20261014/structure.py:66-83 | the loops over one growing index compute that selection, every stratum in its place, or report the first short stratum |
| `Selection.Fill` | experiments/teaching_transfer_20261014/structure.py:74-79 | the inner loop computes one stratum's picks |
| `JobQueue.Queue.Add` | experiments/ops/queue.py:157-159 | a job is filed under its name |
| `JobQueue.Queue.Running` | experiments/ops/queue.py:54-66 | exactly the exited jobs move to done |
| `JobQueue.Queue.DispatchOnce` | experiments/ops/queue.py:124-150 | one pass computes the specified dispatch and the list of starts |
| `JobQueue.LineIsGood` | experiments/ops/queue.py:129-135 | the line holds each parseable pending job once, by descending priority |
| `JobQueue.NothingIsLost` | experiments/ops/queue.py:54-150 | a pass keeps every file, done jobs done, and each file in one directory if it was in one before |
| `JobQueue.CapacityHolds` | experiments/ops/queue.py:128-139 | at every point of a pass, from any directories, a listed lane is within its capacity or no fuller than before |
| `JobQueue.CapacityExactly` | experiments/ops/queue.py:69-74 | a lane's capacity is what the slots file says of it, else 3 and 4 for the two listed lanes, else one job |
| `JobQueue.UnlistedLaneOverfills` | experiments/ops/queue.py:138-139 | however full a lane missing from the slots is, a pass adds one more job to it |
| `JobQueue.ListedLanesHoldExactly` | experiments/ops/queue.py:128-139 | a lane ends every pass within its capacity or no fuller than before exactly when the slots list it |
| `JobQueue.StartsExactly` | experiments/ops/queue.py:135-148 | a job starts exactly when at its turn its lane has room, counting what ran and what started since, and each name it waits for is done |
| `JobQueue.ReadyStarts` | experiments/ops/queue.py:135-148 | for files under their own names: a parseable job starts exactly when at its turn its lane has room and every job it waits for is in the done directory |
| `JobQueue.StartsAreReady` | experiments/ops/queue.py:136-148 | a job starts only when all its `after` jobs are done |
| `JobQueue.LeftForAReason` | experiments/ops/queue.py:137-141 | a parseable job left pending has a lane without room at the end of the pass, or waits for a job not in the done directory |
| `JobQueue.OvertakenOnlyWhenBlocked` | experiments/ops/queue.py:135-148 | a job overtaken on its lane by a lower priority waits for a job not in the done directory |
| `QueueRuns.RunIsSafe` | experiments/ops/queue.py:54-170 | over any run of adds, also of names used before, unparseable files, exits, passes and deaths at any move, no name is lost, listed lanes hold their capacity, and everything started had its prerequisites done |
| `QueueRuns.CyclesNeverStart` | experiments/ops/queue.py:140-141 | jobs on a dependency cycle, or behind one, never start in any run, wherever passes die |
| `QueueRuns.MovesMakeTheDispatch` | experiments/ops/queue.py:57-147 | the write-then-unlink moves add up to the pass |
| `QueueRuns.CrashLosesNothing` | experiments/ops/queue.py:64-147 | a pass that dies after any move, or between starting a process, writing its copy and unlinking the old one, still holds every job with its content |
| `QueueRuns.CrashDoublesOnlyTheCopied` | experiments/ops/queue.py:57-147 | such a death leaves at most one file in two directories, the one whose copy was written and not yet unlinked |
| `QueueRuns.JobStartsTwice` | experiments/ops/queue.py:139-147 | an input where the pass after a death starts a living job again |
| `QueueRuns.RestartsExactly` | experiments/ops/queue.py:128-147 | the pass after a death starts a begun job again exactly when the death tore its launch, its turn comes, its lane has room and its prerequisites are done |
| `QueueRuns.StartsCounted` | experiments/ops/queue.py:54-170 | over any run with unique names, the starts of an added job, plus one while it is pending, are one more than the deaths that tore its launch |
| `QueueRuns.NoneStartsTwice` | experiments/ops/queue.py:54-170 | with unique names and no such death no job starts twice |
| `QueueRuns.UniqueRunIsCoherent` | experiments/ops/queue.py:54-170 | with unique names all copies of a job are the same job, and without deaths each has one copy |
| `DoseSchedule.ListBatches` | experiments/teaching_second_fit_20261015/dose_common.py:99-105 | the generator's loops list the specified batches, or the state is refused |
| `DoseSchedule.AdvanceExactly` | experiments/teaching_second_fit_20261015/dose_common.py:108-122 | a step is accepted exactly from a valid state before the end, with both counters and the right row count, and its result is valid |
| `DoseSchedule.ScheduleAfterStep` | experiments/teaching_second_fit_20261015/dose_common.py:99-122 | the schedule after a step is the tail of the schedule before it |
| `DoseSchedule.TrainKeepsCourse` | experiments/teaching_second_fit_20261015/dose_common.py:99-122 | a stopped session performs a prefix of its schedule, never drifts, and its receipts account for its rows and tokens |
| `DoseSchedule.ResumingIsSeamless` | experiments/teaching_second_fit_20261015/dose_common.py:99-122 | stopped and resumed any number of times, a run performs the batches of one schedule in order |
| `DoseSchedule.EpochCoversOrder` | experiments/teaching_second_fit_20261015/dose_common.py:101-105 | the batches of an epoch concatenate to its order, a permutation of the rows |
| `DoseSchedule.EpochCounts` | experiments/teaching_second_fit_20261015/dose_common.py:104-105 | batch sizes are full but for the last |
| `DoseSchedule.EpochsTokens` | experiments/teaching_second_fit_20261015/dose_common.py:125-141 | over whole epochs each row's tokens count once an epoch |
| `DoseSchedule.StepFixesPlace` | experiments/teaching_second_fit_20261015/dose_common.py:80-91 | in a valid state the step fixes epoch and cursor |
| `DoseSchedule.DoseCheckPassesExactly` | experiments/teaching_second_fit_20261015/dose_common.py:125-141 | however a run was interrupted, the dose check at an endpoint passes exactly when the epochs since the start are done |
| `DoseSchedule.DoseCheckExactly` | experiments/teaching_second_fit_20261015/dose_common.py:125-141 | on any state and receipts the check passes exactly for two or three epochs done: the step, the counters, one receipt a step from 24 on with 16 or 14 rows, and the tokens |
| `DoseSchedule.ExperimentNumbers` | experiments/teaching_second_fit_20261015/dose_common.py:126-138 | for 366 rows, batches of 16 and 3 epochs: 23 steps, 22 batches of 16 and one of 14, endpoints 46 and 69 only |
| `DoseSchedule.BothEndpoints` | experiments/teaching_second_fit_20261015/dose_common.py:125-141 | the two endpoints with 8820 tokens an epoch, under any interruptions |
| `Benchmark.NormalizeTargets` | benchmarks/oolong.py:476-488 | accepts exactly one target of each condition and returns them in the fixed order |
| `Benchmark.Completed` | benchmarks/oolong.py:957-963 | an accepted list has a key for every record, and the keys are those of the records |
| `Benchmark.Runner.RunComparisons` | benchmarks/oolong.py:933-994 | validates the checkpoint, then calls, records and stores each missing arm in order |
| `Benchmark.Runner.CallAll` | benchmarks/oolong.py:964-993 | the two loops perform the arms in canonical order until a death |
| `Benchmark.ReadCompleted` | benchmarks/oolong.py:957-963 | the validation loop reports the first fault or the completed keys |
| `Benchmark.CanonicalMeans` | benchmarks/oolong.py:964-976 | the canonical line has each requested key once |
| `Benchmark.NextArm` | benchmarks/oolong.py:972-976 | the next arm is skipped exactly when its record is already there, and otherwise is the next of the line |
| `Benchmark.SignedIsValid` | benchmarks/oolong.py:839-876 | a record signed for a requested arm passes every check |
| `Benchmark.ValidExactly` | benchmarks/oolong.py:849-876 | a record passes exactly when it is signed and carries the id, the episode and the prompt of a requested comparison under its own condition |
| `Benchmark.OwnIsAccepted` | benchmarks/oolong.py:903-963 | a checkpoint the runner wrote is always accepted again |
| `Benchmark.AttemptExtends` | benchmarks/oolong.py:933-994 | an attempt keeps what is stored, extends it in canonical order and makes one call a record, plus one if it dies |
| `Benchmark.CampaignIsSafe` | benchmarks/oolong.py:933-994 | over any crashes and resumes the store is a duplicate-free prefix of the canonical order and calls are at most keys plus deaths |
| `Benchmark.UninterruptedList` | benchmarks/oolong.py:957-994 | what an uninterrupted run returns, with or without an output file |
| `Benchmark.ResumedEqualsUninterrupted` | benchmarks/oolong.py:945-994 | with the same answers the final list is that of an uninterrupted run |
| `Benchmark.FinishedIsExactlyTheRequest` | benchmarks/oolong.py:849-994 | from any checkpoint at all, a finished run has one valid record for each requested key and no other, and a refusal touches nothing |
| `Benchmark.ResumesExactly` | benchmarks/oolong.py:839-963 | a stored checkpoint is resumed exactly when it is the sealed list, for these comparisons and targets, of records signed for requested arms, no arm twice |
| `Benchmark.CompletedExactly` | benchmarks/oolong.py:839-963 | the records pass validation exactly when each is one signed for a requested arm and no arm occurs twice |
| `BenchmarkSummary.Summarize` | benchmarks/oolong.py:1004-1074 | the loops compute the specified counts, or the first error |
| `BenchmarkSummary.Gather` | benchmarks/oolong.py:1009-1023 | counts by condition and the last record of each pair under each condition |
| `BenchmarkSummary.Classify` | benchmarks/oolong.py:1037-1049 | the counts of valid, unpaired and failing pairs are the sizes of those sets |
| `BenchmarkSummary.PairKindExactly` | benchmarks/oolong.py:1037-1049 | a pair is valid exactly when its last records under both conditions have scores and did not fail, and failing exactly when there are both and one failed |
| `BenchmarkSummary.GroupCounts` | benchmarks/oolong.py:1016-1020 | a group counts its records, those without failure that have a score, and those that failed |
| `BenchmarkSummary.SummaryAddsUp` | benchmarks/oolong.py:1056-1074 | pairs = valid + unpaired + failing; each condition is listed with the counts of its own records; these and the records without a condition are all records, and none is both scored and failed |
| `BenchmarkSummary.FinishedRunIsPaired` | benchmarks/oolong.py:1021-1046 | in the summary of a finished run every requested comparison is one pair with both records |
| `EventAnswers.FillFirstBuys` | experiments/selective_recursion_20261019/taskgen.py:144-147 | the dictionary loop that generator and aggregator share, from different starting days |
| `EventAnswers.FirstBuysAreFirst` | experiments/selective_recursion_20261019/taskgen.py:143-147 | it gives each buyer the earliest day, as long as no day exceeds the start |
| `EventAnswers.OfHeard` | experiments/selective_recursion_20261019/run_sweep.py:332-333 | selecting purchases or returns commutes with shifting days and reordering |
| `EventAnswers.AnswersAgree` | experiments/selective_recursion_20261019/run_sweep.py:322-349 | on four question types the aggregator gives the generator's answer from the events with days shifted by one, in any order |
| `EventAnswers.AnswersAreTrue` | experiments/selective_recursion_20261019/taskgen.py:125-150 | the generator's answers are the true ones: the buyers, the buyers of both, the units bought less those returned, those who returned after a purchase, and the day of the first purchase listed |
| `EventAnswers.LookupAgreesExactly` | experiments/selective_recursion_20261019/run_sweep.py:328-331 | on the fifth they agree exactly when the first match is also the earliest |
| `TaskEvents.PlantLookup` | experiments/selective_recursion_20261019/taskgen.py:239-245 | after the repair the person asked about has exactly one purchase of the item, the first event |
| `TaskEvents.BreakTie` | experiments/selective_recursion_20261019/taskgen.py:246-259 | the leader it returns is the one alphabetically first among those with the highest total, and afterwards nobody else has as much |
| `TaskEvents.Leaders` | experiments/selective_recursion_20261019/taskgen.py:252-254 | the first of the people with the highest total, and whether it is shared |
| `TaskEvents.PlantReturns` | experiments/selective_recursion_20261019/taskgen.py:260-269 | planted returns match purchases of the item at the start: for one type by someone else on the same day, for the other by the buyer on a later day unless the purchase is on the last one; nothing else changes |
| `TaskEvents.MakeEvents` | experiments/selective_recursion_20261019/taskgen.py:225-269 | for all draws: events in range, every repair's guarantee, a purchase of the item, and a raise exactly for a repair of no events |
| `TaskEvents.RepairsSurviveShuffling` | experiments/selective_recursion_20261019/taskgen.py:270-270 | every guarantee holds in any order |
| `TaskEvents.LookupTaskAgrees` | experiments/selective_recursion_20261019/taskgen.py:239-270 | on a generated lookup task generator and aggregator agree |
| `McNemar.ExactlySize` | experiments/selective_recursion_20261019/e60_analysis.py:21-21 | the binomial coefficient counts the outcome patterns |
| `McNemar.TwoTails` | experiments/selective_recursion_20261019/e60_analysis.py:21-21 | the two tails of a row make up the whole row |
| `McNemar.PValueIsExact` | experiments/selective_recursion_20261019/e60_analysis.py:19-21 | the p-value is the fraction of equally likely patterns at least as lopsided as the one observed |
| `McNemar.PValueRange` | experiments/selective_recursion_20261019/e39_analysis.py:127-131 | the p-value lies in (0, 1], is symmetric, and is below 1 exactly when the counts differ by at least 2 |

## Left out

- Interrupts (`BaseException` that is not `Exception`) in the engine: cancelling queued work on a keyboard interrupt is not modelled; every child of a batch settles.
- The stages of `IPythonExecutor.close`, startup, process groups and signals: a forced close is one step that shuts the pipe, and the graceful shutdown exchange is absent.
- Deadlines as numbers in the engine: whether a clock check fails is a choice of the environment, so per-action deadlines and timeouts appear only as possible failures.
- Trace files, disabled tracing and manifest contents: the trace is an append-only list and an event's id is its position.
- `RunLedger.Ledger.TryAcquire`: one attempt without the waiting time; waiting for a permit is the thread's phase in `SlotProtocol`.
- Threads a cell starts itself: the worker's thread check refuses them and the cell is one sequence of operations.
- `OutputCapture.CellCapture.Capture`: the final strip of trailing newlines from the display text is not modelled.
- `HostCalls.DecodeIsExact`: strict-JSON checks inside a record's body and details are the subject of `StrictJson` and are not repeated here.
- JSON text, Unicode encodings and SHA-256: encodings are measured or treated as injective, and a digest is the value it seals; a change that keeps the digest is out of reach of the model.
- The order of an observation's encoded keys: it does not change the encoded length.
- Python's recursion limit in the JSON check and in the dependency walk.
- `StructureIndexing.BucketIsInvariant`: the bucket is the multiset that the sorted tuple lists, so the sort itself is not modelled.
- The library's isomorphism test: it is specified as the existence of a bijection that keeps kinds and edges.
- Hash ranks in the selection: any ranking of rows; ties are ordered as listed.
- Queue idle alarm, environment and process ids: which jobs are alive is an input of each pass, and a file write is atomic.
- `QueueRuns.RunIsSafe`: capacities are fixed over the run; a single pass is covered for changed capacities by `JobQueue.CapacityHolds`.
- `QueueRuns.StartsCounted`: with a name added again its two jobs cannot be told apart by file, so starts are counted for unique names.
- Optimizer, random state and timing in the dose schedule; a session stops only between steps, where the checkpoint is written.
- Fields of a checkpoint that its loader does not look at, such as the schema version.
- Request building, response auditing, budgets and scoring of benchmark records: a call returns an outcome, and its failure and score are inputs.
- Mean scores, deltas and rounding in the benchmark summary: floating-point reporting.
- Question text, templates, distractors and the extraction of events from text: the target items and person are parameters, and the events heard are the true ones shifted and reordered.
- The answers of the question types that only the held-out split asks: their repairs are modelled, the answers are not.
- Confidence intervals in the first analysis script: random resampling.
