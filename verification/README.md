# Verified model of the chain engine and its stores

The repository is a job server. This project models its chain engine and the stores around it
in Dafny and proves what its design relies on: that the local cycle checks keep the whole
sequence store acyclic, that an accepted chain expands and runs to an end, that late
subscribers miss no event, that runtime values cannot steer the prompt resolver, that the
re-slug migration renames the sequence graph and otherwise leaves it alone, and that the
smaller scanners and ordered stores keep their promises. `dafny verify dfyconfig.toml` checks
everything.

## How the modules follow the program

| module | models |
|---|---|
| `Prelude`, `Ordering`, `Decimal`, `Tokens` | shared notions: options and results, string order, decimal formatting, the token patterns |
| `Digraph`, `CycleCheck`, `WildcardCheck` | `check_for_cycles` of `app/chain/sequences.py` and of `app/wildcards.py` |
| `ChainModels`, `SequenceStore`, `Envelope` | sequences, the three writers of their store, ids |
| `Expander`, `Expansion`, `Placement`, `Numbering` | `_renumber_top_level` and `_expand_steps` of `app/chain/executor.py` |
| `ChainRun`, `StepDirs`, `WholeRun` | the step loop of `execute_chain_job`, step directories, and store, expansion and run together |
| `EventBus`, `JobQueue` | `app/chain/events.py`, `app/job_queue.py` |
| `PromptTemplate` | `app/prompt_template.py` |
| `LegacyRewrite`, `RewriteMeaning`, `Migrate`, `MigrateReferences` | `app/cruddables/migrate.py`, and what its rewrite means to the resolver |
| `JsonText`, `Structured` | `app/chain/structured.py` against the grammar of RFC 8259 |
| `Tickets`, `TextDiff`, `MemoryFile` | `app/tickets/store.py`, `app/textdiff/diff.py`, `app/memory/store.py` |

Objects the program updates in place are classes here (`Search`, `Store`, `Bus`, `Queue`,
`Renderer`, `Ticket`, `TicketStore`), in-place list updates work on arrays or fields, and each
loop of the program is a loop with invariants proved against a specification function. What
the program's world decides is a parameter: clocks, fresh UUIDs, random draws, the alternative
a weighted pick returns, what a step runner returns, the answers of `json.loads`, of the YAML
reader, of SHA-256 and of the sequence matcher. Python integers are unbounded, like Dafny's.

Concurrency is modelled as steps between two awaits: `EventBus.Op` and `JobQueue.Op` list them,
and the theorems quantify over every list of operations. `Bus` and `Queue` are the same steps
as methods, each proved equal to its step.

## Where the code does less than its comments say

- Inlined numbers are `outer * 1000 + inner` and a nested call does not add the enclosing
  offset. With numbers up to 999 they are distinct exactly when no two leaves of the call tree
  agree in innermost call and own number (`DistinctIff`): so they are with one level of calls
  over lists with distinct numbers (`OneLevelIsDistinct`), but not always with two
  (`TwoLevelsCollide`). Inlined blocks run after all plain top-level steps (`RunOrder`), not
  "ahead of any later top-level numbers".
- A goto may name a step that is a sequence call; the checks accept it, but that number is
  gone after the expansion. At any nesting the run knows exactly the numbers of the leaves
  (`NumberInTableIff`) and is lost exactly when it stands at another one (`LostIffNoLeaf`);
  `GotosFindIff` says for which chains no goto leads there. `GotoToCallIsLost` is a
  chain that always ends there; `WholeRunIsSafe` excludes such gotos.
- The depth guard of 20 can fire on an acyclic store: exactly on a chain of more than 20 calls
  (`DepthGuardIff`), so only with more than 20 sequences (`AcyclicStoreNeverTooDeep`, tight by
  `LongChainTooDeep`).
- `subscribe` returns without reading its queue when the bus closes during the replay. Such a
  subscriber can never go live (`ReplayingIsNeverLive`), and one that keeps reading a closed bus
  gets everything exactly when it was live or nothing was emitted since its snapshot
  (`ReaderGetsEverythingIff`); `CloseDuringReplayLosesEvents` loses an event.
- `duplicate_sequence` runs no cycle check. The copy keeps the store acyclic exactly when
  nothing the original reaches already refers to the new id (`CopyAcyclicIff`); `CopyCanCloseACycle`
  is a store where something does.
- A profile import in replace mode keeps whatever repeated ids the profile has (`Store.Import`).
- The queue keeps its promises throughout a run if and only if stops and restarts stay apart
  (`DisciplinedIffPromise`); without that a wakeup can find both lanes empty
  (`DoubleStopEmptyPop`) or two runners can be active (`RestartDuringStopRunsTwo`).
- The `%%name%%` rewrite is called idempotent; it is exactly on texts without a "wedge"
  (`IdempotentIff`), in particular without four percent signs in a row, and not on
  `%%%%x%%%%` (`NotIdempotent`).
- The rewrite is also called cosmetic, since the resolver reads both notations. A name that
  holds a brace makes no brace token (`NewTokenIff`), and a token of an unknown wildcard stays
  visible in its new form. On texts that keep the notations apart and have no wedge, text and
  rewrite render alike exactly when every name met is known (`MigratedRendersAlikeIff`).
- The migration can give a sequence an id that some dangling reference already names. The
  renaming is a graph isomorphism exactly when that does not happen (`IsomorphicIffNoCapture`),
  and the result is acyclic exactly when no such capture closes a cycle (`AcyclicAfterIff`);
  `CaptureCanCloseACycle` is one that does.
- `reorder_tickets` compares sets, so it accepts a list that names an id twice; the priorities
  are then no permutation (`ReorderShown`). `update_ticket` can write any priority
  (`UpdateKeepsPermutationIff`).

## Model

| member | source | states |
|---|---|---|
| Digraph.AcyclicIffNoLasso | app/chain/sequences.py:84-123 | a graph is acyclic exactly when no node reaches a cycle: what the check decides per root is what the store needs |
| Digraph.LocalCheckSuffices | app/chain/sequences.py:241-261 | if a graph differs from an acyclic one only at some nodes, checking from those nodes decides acyclicity of the whole |
| Digraph.AcyclicWalkIsShort | app/chain/executor.py:115-116 | a chain of references in an acyclic store visits each sequence at most once |
| CycleCheck.Search.Dfs | app/chain/sequences.py:108-120 | without a find the node ends black, the path is restored and earlier colours are kept; a find is a walk that ends on a node already on it |
| CycleCheck.CheckFrom | app/chain/sequences.py:105-123 | sound and complete: reports a path exactly when a cycle of known ids is reachable from the root, and the path is such a walk |
| WildcardCheck.CheckForCycles | app/wildcards.py:85-118 | the same over lower-cased wildcard names, the last of several equal names counting |
| WildcardCheck.LastNameCounts | app/wildcards.py:85-118 | the nodes are the lower-cased names in use, each with the references of the last wildcard of that name |
| ChainModels.DepsAreCalls | app/chain/sequences.py:88-103 | the check follows exactly the calls of a sequence, through any alternative or the shorthand field |
| ChainModels.DirectDeps | app/chain/sequences.py:88-103 | the loop computes the references in order |
| ChainModels.WithoutSplits | app/chain/sequences.py:266-272 | deleting from a joined list deletes from each part and keeps their order |
| ChainModels.WithoutOne | app/chain/sequences.py:266-272 | a single entry goes exactly when it has the id |
| SequenceStore.NormalizeKeepsCalls | app/chain/sequences.py:126-140 | hoisting shorthand fields changes no reference |
| SequenceStore.NormalizedIsStored | app/chain/sequences.py:126-140 | a step is stored in exactly one way: a positive number stays, any other becomes the position, without alternatives the shorthand becomes the one, all else is kept; steps that may be stored are stored as they are |
| SequenceStore.ValidateSteps | app/chain/sequences.py:143-178 | accepts exactly lists with distinct positive numbers, weights of at least one, and gotos that either fall through or name a step of the list |
| SequenceStore.CheckForCycles | app/chain/sequences.py:84-123 | on a list of entries, the last entry with an id counting: a path exactly when a cycle is reachable |
| SequenceStore.ByIdIsLast | app/chain/sequences.py:84-123 | of several entries with one id the check reads the last |
| SequenceStore.PutCheckSuffices | app/chain/sequences.py:234-263 | after one entry was replaced or appended in an acyclic store, the check from its id decides for the whole store |
| SequenceStore.Store.Save | app/chain/sequences.py:221-263 | stores the steps, numbers and alternatives as above, under the first entry with the name or a fresh id, exactly when they are well formed, capable and no cycle is reachable from the id, which on an acyclic store means that the result is acyclic; well-formed steps are stored unchanged; each refusal has its error and changes nothing; ids stay unique |
| SequenceStore.Store.Upsert | app/chain/sequences.py:308-337 | the same under the document's own id, without the capability check; the document replaces the first entry with the id but for its creation time |
| SequenceStore.Store.Delete | app/chain/sequences.py:266-272 | removes the id, keeps the order of the rest, acyclicity and unique ids |
| SequenceStore.WithoutKeeps | app/chain/sequences.py:266-272 | the lengths differ exactly when the id was there, and unique ids stay unique |
| SequenceStore.CopyAcyclicIff | app/chain/sequences.py:275-301 | copying a node under a new id keeps a graph acyclic exactly when nothing the original reaches refers to the new id |
| SequenceStore.CopyCanCloseACycle | app/chain/sequences.py:275-301 | a store of one sequence whose duplicate closes a cycle |
| SequenceStore.Store.Duplicate | app/chain/sequences.py:275-301 | appends the copy with fresh name and id, unchecked, to any store; an acyclic one with unique ids stays acyclic exactly under that condition |
| SequenceStore.UniqueName | app/chain/sequences.py:34-40 | the base name when free, else its least free numbered variant; the search ends |
| SequenceStore.UpsertById | app/profiles/importer.py:63-67 | the loop over the dict gives the merged list in key order |
| SequenceStore.MergedIsById | app/profiles/importer.py:63-67 | a merge has unique ids and holds for each id the last entry written with it |
| SequenceStore.MergedIsMerge | app/profiles/importer.py:63-67 | the merged list holds each id once, in the order in which the ids first occur, with the last entry of that id |
| SequenceStore.ImportCheckSuffices | app/profiles/importer.py:159-166 | in both modes the checks from the imported ids decide acyclicity of the final list |
| SequenceStore.Store.Import | app/profiles/importer.py:159-166 | installs the final list exactly when no cycle is reachable from an imported id, which for a replacement, or a merge into an acyclic store, means that the list is acyclic; else changes nothing; ids unique exactly in merge mode or when the profile's are |
| Envelope.SlugifyIsSlug | app/cruddables/envelope.py:24-33 | every text yields a well-formed slug, and a slug is its own slug |
| Envelope.SlugifyJoinsWords | app/cruddables/envelope.py:24-33 | the slug is made of the runs of letters and digits of the lower-cased text, in order, joined by underscores; `item` when there are none |
| Envelope.LowerByAlphabet | app/cruddables/envelope.py:31-31 | lower-casing takes each capital to the small letter at its place in the alphabet and nothing else |
| Envelope.UniqueId | app/cruddables/envelope.py:36-43 | terminates for every set of taken ids with the base, or the base, an underscore and the least number from 2 on that gives something free |
| Expander.RenumberTopLevel | app/chain/executor.py:160-178 | refuses duplicate user numbers before any change; otherwise keeps user numbers and fills each gap with the least positive number in use neither before nor by the user |
| Expander.FilledDistinct | app/chain/executor.py:160-178 | afterwards all numbers are positive and pairwise distinct |
| Expander.FilledInRange | app/chain/executor.py:160-178 | a filled number is at most the number of steps, so at most 999 steps with user numbers up to 999 stay in 1..999 |
| Expansion.ExpandSteps | app/chain/executor.py:100-157 | the recursion with its loop, errors in order, equals the specification of the expansion |
| Expansion.FirstBadCall | app/chain/executor.py:134-147 | the first call that cannot be followed decides the error, whatever comes behind: no id, no such sequence, or a sequence with a step of unknown kind or a cap or weight below one |
| Expansion.CallIsInlined | app/chain/executor.py:134-156 | a call that can be followed is replaced by the expansion of what it names, under its own number or, without one, the count of steps flattened so far plus one |
| Expansion.FollowedIsChecked | app/chain/executor.py:134-147 | every call the expansion follows out of a stored sequence is a reference the cycle check saw |
| Expansion.DepthGuardIff | app/chain/executor.py:115-157 | an expansion succeeds if and only if every call met names a stored sequence that can be built and no chain of calls is deeper than 21 minus the depth; when the calls resolve the guard fires if and only if there is such a chain, and otherwise still only on one |
| Expansion.CallsDownIsWalk | app/chain/executor.py:134-154 | such a chain, through first alternatives, is a walk of references the cycle check saw |
| Expansion.AcyclicStoreNeverTooDeep | app/chain/executor.py:115-116 | on an acyclic store of at most 20 sequences the guard never fires |
| Expansion.ExpandedHasNoCalls | app/chain/executor.py:100-157 | a successful expansion holds no call |
| Placement.ExpandedArePlaced | app/chain/executor.py:118-157 | the k-th flattened step is the k-th leaf of the call tree, named along its path and numbered by its innermost call |
| Placement.AllLeavesListed | app/chain/executor.py:118-157 | no leaf is missing |
| Placement.LeavesSorted | app/chain/executor.py:118-157 | the leaves come in depth-first order, each once |
| Placement.FlattenedAreStored | app/chain/executor.py:118-157 | read off the store itself: the flattened steps are the plain steps reached through first alternatives, in depth-first order; a top-level step is unchanged; a stored one keeps id, kind, visit cap and all its alternatives, or the shorthand as the one, goto targets moved with the number, and is named by the names on its way joined by arrows |
| Numbering.PlacedNumber | app/chain/executor.py:124-147 | at any nesting a leaf's number is 1000 times its innermost call's number plus its own, when the numbers of the chain and of what it calls are positive, as the checks leave them |
| Numbering.PlacedTarget | app/chain/executor.py:126-130 | likewise the target of a goto: 1000 times the number of its innermost call plus the target it names |
| Numbering.RunOrder | app/chain/executor.py:304-305 | of two leaves, the one of the lower innermost call comes first, plain top-level steps before every call, and by own number within a call |
| Numbering.DistinctIff | app/chain/executor.py:124-147 | at any nesting, with numbers in 1..999: all flattened numbers are distinct if and only if no two different leaves agree in both the number of the innermost call and their own |
| Numbering.OneLevelIsDistinct | app/chain/executor.py:124-147 | so they are with one level of calls and distinct numbers in 1..999 in each list |
| Numbering.TwoLevelsCollide | app/chain/executor.py:144-145 | with two levels the same number can be given twice |
| Numbering.GotoStaysInItsCall | app/chain/executor.py:126-130 | a goto to a sibling step is rewritten to the number of the copy made by the same call, at any nesting |
| Numbering.LongChainTooDeep | app/chain/executor.py:115-116 | an acyclic chain of more than 20 sequences makes the guard fire |
| ChainRun.NoStepLost | app/chain/executor.py:304-304 | with distinct numbers the table of the run holds every flattened step |
| ChainRun.LastCounts | app/chain/executor.py:304-304 | the table knows exactly the numbers of the list; of several steps with one number it holds the last |
| ChainRun.ProgramIsValid | app/chain/executor.py:304-305 | the table's numbers in ascending order, each once |
| ChainRun.IterationGoes | app/chain/executor.py:329-376 | every way an iteration can end: missing step, cap, budget, a goto by the alternative drawn, a failing runner, and otherwise on to the least number of the table above the present one, or the end when there is none |
| ChainRun.IterationRecords | app/chain/executor.py:378-653 | every invocation gets a directory, failing or not; a completed one records what was read and written, by the kind of its step; nothing else is recorded |
| ChainRun.FinishedRanAll | app/chain/executor.py:329-653 | a finished run without gotos has run the numbers of the table in ascending order, each once |
| ChainRun.StraightRun | app/chain/executor.py:329-653 | and at every moment before, the first numbers of the table, one for each iteration |
| ChainRun.StraightRunFinishes | app/chain/executor.py:329-653 | with no failing runner and at most 2000 steps it does finish, after one iteration for each step |
| ChainRun.StepKeeps | app/chain/executor.py:338-653 | one iteration keeps the loop invariant and adds one to the total |
| ChainRun.RunKeeps | app/chain/executor.py:337-653 | at every loop head, whatever is drawn and returned: total runs = sum of visits = iterations, and for each non-goto step visits = invocations = recorded inputs = recorded outputs |
| ChainRun.RunEnds | app/chain/executor.py:346-357 | a run makes at most min(2000, sum of visit caps) + 1 iterations |
| ChainRun.TokensReadNewest | app/prompt_template.py:153-174 | `{{n_output}}` reads the newest completed run of step n, and the text handed on is the newest LLM output |
| ChainRun.NoMissingTarget | app/chain/executor.py:339-344 | if every goto names a step of the table, the missing-target branch is never taken |
| ChainRun.Execute | app/chain/executor.py:296-653 | the loop equals the run, ends within the bound, and leaves without a step only on an empty chain |
| ChainRun.Iterate | app/chain/executor.py:338-376 | the caps, the budget, the pick and the gotos of one iteration |
| ChainRun.Invoke | app/chain/executor.py:378-653 | the counters and lists around a step runner, failing or not, per step type |
| StepDirs.DirNameInjective | app/chain/executor.py:378-386 | the directory name determines step number and invocation, whatever the sanitized ids are |
| StepDirs.StepIdIs | app/chain/executor.py:19-21 | the id part of the name: the step's id, else its name, else its number, unsafe characters replaced one by one, at most 64 kept |
| StepDirs.RunDirsDistinct | app/chain/executor.py:378-387 | all step directories of a run are distinct, however it ends, that of a failing invocation included |
| Decimal.PaddedInjective | app/chain/executor.py:382-384 | zero padding loses nothing |
| Decimal.PaddedReads | app/chain/executor.py:382-384 | a padded number is at least as long as the width, not padded beyond it, and its digits read as the number |
| WholeRun.GotosFindSteps | app/chain/executor.py:126-130 | when no goto of the chain or of the sequences it calls names a call, the number every goto was rewritten to is in the table of the run, at any nesting |
| WholeRun.NumberInTableIff | app/chain/executor.py:133-147 | at any nesting the table of the run knows a number if and only if some leaf of the call tree has it |
| WholeRun.LostIffNoLeaf | app/chain/executor.py:338-344 | whenever a run stands at a number, whatever led there, the next iteration ends on a missing step if and only if no leaf has that number |
| WholeRun.LostIffNotPlain | app/chain/executor.py:338-344 | in particular, at a number up to 999: exactly when no plain top-level step carries it |
| WholeRun.GotosFindIff | app/chain/executor.py:126-147 | at any nesting the gotos of the flattened list all name numbers of it if and only if each goto, counted in its own call, leads to a leaf; the same holds of the gotos of the run when the flattened numbers are distinct |
| WholeRun.GotoFindsItsCopy | app/chain/executor.py:124-147 | at any nesting, when the flattened numbers are distinct, the table holds at the rewritten target of a goto the copy of the named step made by the same call |
| WholeRun.TargetsExistIff | app/chain/executor.py:126-147 | in particular, with one level of calls, distinct numbers and targets in 1..999: exactly when the gotos of every list name plain steps of that list |
| WholeRun.TopLevelTargetIff | app/chain/executor.py:133-147 | a top-level number survives the expansion exactly when a step that is no call carries it |
| WholeRun.GotoToCallIsLost | app/chain/executor.py:339-344 | a chain that always ends on a missing step: a goto to the call behind it |
| WholeRun.WholeRunIsSafe | app/chain/executor.py:280-653 | over an acyclic store of at most 20 sequences, when no goto of the chain or of what it calls names a call: no depth error, no missing target, and an end within the bound |
| WholeRun.RunOrderShape | app/chain/executor.py:304-305 | the order of the run is the plain top-level steps, then the inlined steps in one contiguous block for each number of an innermost call, rising within it |
| EventBus.NoGapNoDuplicate | app/chain/events.py:61-126 | in every interleaving before and after its start, an uncapped running subscriber has had, still holds or has queued exactly the events emitted from the 5000th before its start on; the history is always the last min(seq, 5000) events |
| EventBus.StartsWithHistory | app/chain/events.py:96-108 | a subscriber starts with the whole history as its snapshot and is capped exactly when eight uncapped ones are running; nothing changes that later |
| EventBus.EmittedAre | app/chain/events.py:61-79 | the events of a run are its emits before the close, with their kinds and payloads, numbered from one |
| EventBus.PullYieldsNext | app/chain/events.py:109-126 | one read yields the next event the subscriber has not had, as long as there is one it may still see; else it ends on a closed bus, ends when capped, or waits |
| EventBus.OverStaysOver | app/chain/events.py:124-126 | what is over delivers nothing more and is not registered |
| EventBus.LeavingEnds | app/chain/events.py:124-126 | a consumer that leaves ends its subscription with what it has got |
| EventBus.FinishedDelivery | app/chain/events.py:110-126 | what each ending means: at the sentinel everything emitted since the snapshot; cut off during the replay exactly the snapshot, complete only if nothing was emitted since |
| EventBus.ReaderGetsEverythingIff | app/chain/events.py:109-126 | on a closed bus a subscriber that keeps reading ends with everything emitted since its snapshot if and only if it is live or nothing was emitted since |
| EventBus.ReplayingIsNeverLive | app/chain/events.py:110-113 | a subscriber still replaying when the bus is closed never goes live, whatever happens next: it replays, is cut off, or is dropped |
| EventBus.LiveIsNeverCutOff | app/chain/events.py:112-126 | a subscriber that has reached the live phase stays live, reads the sentinel or is dropped, whatever happens next |
| EventBus.LiveGetsEverything | app/chain/events.py:114-123 | on a closed bus a live subscriber ends at the sentinel with everything emitted since its snapshot, after as many reads as its queue is long |
| EventBus.CloseDuringReplayLosesEvents | app/chain/events.py:112-113 | such a loss happens |
| EventBus.QueueHead | app/chain/events.py:114-123 | the head of a live subscriber's queue is its next event, never one of the snapshot, and the sentinel comes last |
| EventBus.Bus.EmitEvent | app/chain/events.py:61-79 | numbering, bounded history, one entry for each registered queue, the returned event appended to what was emitted; on a closed bus nothing |
| EventBus.Bus.Subscribe | app/chain/events.py:96-108 | snapshot of the whole history and registration in one step, or a capped subscriber |
| EventBus.Bus.Resume | app/chain/events.py:109-126 | one resumption of the generator yields at most one event and equals the step |
| EventBus.Bus.Abandon | app/chain/events.py:124-126 | a dropped generator is unregistered |
| EventBus.Bus.CloseBus | app/chain/events.py:128-136 | sets the flag once and wakes every registered queue |
| JobQueue.RunKeepsQueue | app/job_queue.py:99-134 | in every interleaving, per lane: enqueued = popped followed by still queued; permits follow from queued entries, stops, exits and empty wakeups |
| JobQueue.PopIsLeast | app/job_queue.py:188-190 | the entry taken is the least queued by (priority, arrival), nothing else leaves, and a low entry leaves only when no high one is queued |
| JobQueue.EnqueuedAre | app/job_queue.py:99-109 | the entries ever queued are the enqueues of the run, each with its id and lane, in order |
| JobQueue.StepOfWorkers | app/job_queue.py:61-207 | in every interleaving: a worker with a permit exits if a stop is set, waits again on empty lanes, else takes the least entry and runs that one exactly if it is still queued on disk; a running one waits again exactly when its runner is done; workers appear only at a start or enqueue without one |
| JobQueue.RunsOnce | app/job_queue.py:181-207 | nothing is taken twice, what runs was taken, and no entry runs in two workers |
| JobQueue.PendingStep | app/job_queue.py:104-134 | an id is pending from its enqueue until it is cancelled or an entry of that id is taken |
| JobQueue.DisciplinedIffPromise | app/job_queue.py:61-134 | the queue keeps its promise (permits = queued entries plus one while a stop waits for its worker, no empty wakeup, one worker, no lost wakeup) at every moment of a run if and only if no stop is issued during a stop and no worker started between the exit of a stopped worker and the end of that stop |
| JobQueue.AllowedIffExact | app/job_queue.py:61-134 | one step out of a good state keeps the permits exact if and only if the discipline allows it |
| JobQueue.SingleWorkerQueue | app/job_queue.py:61-134 | a disciplined run keeps the promise: exact permits, no empty wakeup, one worker, no lost wakeup |
| JobQueue.DoubleStopEmptyPop | app/job_queue.py:191-193 | two overlapping stops lead to an empty wakeup |
| JobQueue.RestartDuringStopRunsTwo | app/job_queue.py:81-84 | a restart between a worker's exit and the end of its stop leads to two runners |
| JobQueue.Queue.Start | app/job_queue.py:61-68 | a worker is created exactly when none is alive |
| JobQueue.Queue.EnqueueJob | app/job_queue.py:99-109 | one more entry in its lane and one permit, the worker started when needed |
| JobQueue.Queue.Cancel | app/job_queue.py:123-134 | only the pending set changes |
| JobQueue.Queue.Wake | app/job_queue.py:181-207 | exit, empty wakeup, skip of a cancelled job, or the next runner |
| JobQueue.Queue.RunnerReturns | app/job_queue.py:201-207 | the end of a runner, failed or not, makes its worker wait for the next permit |
| JobQueue.Queue.BeginStop | app/job_queue.py:70-79 | the stop flag and one extra permit |
| JobQueue.Queue.FinishStop | app/job_queue.py:80-84 | the worker is forgotten once it has finished |
| PromptTemplate.NonInterference | app/prompt_template.py:177-234 | for fixed template, libraries, draws and names in scope there is one skeleton of literals and holes that every rendering fills: no runtime value changes which tokens are expanded |
| PromptTemplate.LimitIsIrrelevant | app/prompt_template.py:177-231 | depth is the number of names on the path, so all limits above the number of names give the same result |
| PromptTemplate.CapNeverReached | app/prompt_template.py:42-42 | with at most 15 names the limit of 16 is never reached |
| PromptTemplate.CapIsTight | app/prompt_template.py:202-209 | with 16 names the limit of 16 can leave a token unexpanded that a limit of 17 expands |
| PromptTemplate.Renderer.ResolveText | app/prompt_template.py:177-200 | the closures compute the specification, draws and tracked tokens included |
| PromptTemplate.Renderer.Substitute | app/prompt_template.py:183-200 | one left-to-right pass that never reads what it substituted |
| PromptTemplate.Renderer.Wildcard | app/prompt_template.py:202-209 | unknown or visited names stay, else one draw is expanded |
| PromptTemplate.Renderer.ContextItem | app/prompt_template.py:220-231 | literal fallback, visited slugs stay, else the content is expanded |
| PromptTemplate.ChainTokenRenders | app/prompt_template.py:153-200 | between plain texts a brace token becomes the input, previous output, context, printed step index or step name it names, a key in scope, the newest input or output of a numbered step; an unknown one vanishes when final and stays otherwise; each replacement is tracked |
| PromptTemplate.VariableRenders | app/prompt_template.py:211-218 | a variable becomes its value, or its name when final, or stays |
| PromptTemplate.WildcardTokenRenders | app/prompt_template.py:202-209 | a wildcard token becomes the entry drawn, under the stripped lower-cased name; an unknown or empty one stays |
| PromptTemplate.LegacyTokenRenders | app/prompt_template.py:183-209 | `%%name%%` likewise |
| PromptTemplate.ContextTokenRenders | app/prompt_template.py:220-231 | a context item is found by key or lower-cased key and becomes its content; a missing one its name when final |
| LegacyRewrite.IdempotentIff | app/cruddables/migrate.py:54-58 | the rewrite is idempotent on a text exactly when it meets no kept pair of percent signs directly before a token and closed later |
| LegacyRewrite.IdempotentWithoutFour | app/cruddables/migrate.py:54-58 | in particular on every text without four percent signs in a row |
| LegacyRewrite.NotIdempotent | app/cruddables/migrate.py:50-58 | and not on `%%%%x%%%%` |
| LegacyRewrite.RewritesToken | app/cruddables/migrate.py:54-58 | behind text without percent signs `%%name%%` becomes `{{wc.name}}`, the name stripped, and the rest is rewritten by itself |
| RewriteMeaning.NewTokenIff | app/cruddables/migrate.py:51-58 | the new token is a wildcard token of the same name exactly when the name holds no brace |
| RewriteMeaning.RewrittenRendersAlike | app/cruddables/migrate.py:51-58 | between plain texts both notations render to the entry drawn for the same key |
| RewriteMeaning.MigratedRendersAlikeIff | app/cruddables/migrate.py:51-58 | a text that keeps the notations apart and has no wedge renders to the same text before and after the rewrite exactly when every name met is known, and then with the same draws, whatever tokens the entries hold |
| LegacyRewrite.DeepRewrite | app/cruddables/migrate.py:61-86 | the recursion over documents with its counter |
| LegacyRewrite.DeepRewritesTexts | app/cruddables/migrate.py:61-86 | exactly the string leaves are rewritten, each by itself; keys, order and shape stay; the count is that of the leaves that changed |
| LegacyRewrite.DeepIdempotentIff | app/cruddables/migrate.py:61-86 | the lift is idempotent exactly when every string leaf is |
| LegacyRewrite.CountsChanges | app/cruddables/migrate.py:61-86 | the count is zero exactly when nothing changed |
| Migrate.FreshIdIsNoUuid | app/cruddables/migrate.py:47-49 | no id the migration assigns looks like a UUID of section 4 of RFC 9562 |
| Migrate.UuidIffGrouped | app/cruddables/migrate.py:47-49 | the pattern takes exactly five groups of 8, 4, 4, 4 and 12 hexadecimal digits joined by dashes, with or without a final newline |
| Migrate.SortMigrating | app/cruddables/migrate.py:249-249 | exactly the documents with a UUID, each once, oldest first, then by old id |
| Migrate.OrderedByAge | app/cruddables/migrate.py:249-249 | spelled out: by creation time, then by old id, each compared as text |
| Ordering.FirstDifference | app/cruddables/migrate.py:249-249 | texts compare by their first difference, a proper prefix being less |
| Migrate.PlanType | app/cruddables/migrate.py:242-260 | kept ids stay; each other document gets the fresh id for its slug given all ids in use at that point; the renaming reports exactly those |
| Migrate.RenamedTo | app/cruddables/migrate.py:242-260 | a renamed document gets the slug of its name, or the fallback for a blank name, or the first numbered variant of it that neither a kept document has nor one renamed before |
| Migrate.FinalIds | app/cruddables/migrate.py:242-260 | final ids are pairwise distinct exactly when the kept ones were, and none looks like a UUID |
| Migrate.SecondRunChangesNothing | app/cruddables/migrate.py:20-22 | a second plan renames nothing |
| Migrate.ReferenceFollows | app/cruddables/migrate.py:266-273 | a reference to any document becomes its final id |
| MigrateReferences.ApplySequenceRefs | app/cruddables/migrate.py:276-288 | every document is rewritten in place to its renamed form, also when nothing is to rename |
| MigrateReferences.RemapStepRefs | app/cruddables/migrate.py:266-287 | shorthand fields and every alternative of a step |
| MigrateReferences.MigrateSequences | app/cruddables/migrate.py:321-328 | plan, order of the result (kept first) and references together |
| MigrateReferences.MigratedDocuments | app/cruddables/migrate.py:227-288 | kept documents first, the renamed ones behind, each group in store order; nothing changes in a document but its id and its references |
| MigrateReferences.MigratedIds | app/cruddables/migrate.py:242-260 | entries without a UUID keep their id; any other gets the first free variant of the slug of its own name |
| MigrateReferences.DepsFollow | app/cruddables/migrate.py:276-288 | the references of a rewritten sequence are the renamed references |
| MigrateReferences.MigrationRenamesGraph | app/cruddables/migrate.py:227-288 | unique ids stay unique and the graph of the store is renamed injectively, node by node and reference by reference |
| MigrateReferences.IsomorphicIffNoCapture | app/cruddables/migrate.py:227-288 | a renamed graph has the same edges exactly when no dangling reference is captured; a reference-closed graph has none to capture |
| MigrateReferences.AcyclicAfterIff | app/cruddables/migrate.py:227-288 | the renamed graph is acyclic if and only if no cycle of the old one can be walked along references and captured references: acyclicity is never gained, and lost exactly when a capture closes a cycle |
| MigrateReferences.MigrationKeepsAcyclic | app/cruddables/migrate.py:227-288 | both conditions for every migration of a store with unique ids; a reference-closed store keeps edges and acyclicity |
| MigrateReferences.CaptureCanCloseACycle | app/cruddables/migrate.py:227-288 | a capture can close a cycle |
| MigrateReferences.ContextFollows | app/cruddables/migrate.py:271-287 | a step that names a context item, on an alternative or in its shorthand fields, names it by its new id afterwards |
| MigrateReferences.SecondMigrationChangesNothing | app/cruddables/migrate.py:20-22 | a second migration of sequences and context items renames nothing and changes no id, no reference and no position |
| Structured.ExtractBalanced | app/chain/structured.py:30-64 | the text from the first opening bracket to the first place its kind balances, strings skipped, or nothing when there is none |
| Structured.ExtractsPrinted | app/chain/structured.py:30-64 | for any prefix without opening brackets, any object or array by sections 4 to 7 of RFC 8259 and any suffix, exactly the printed value |
| Structured.ExtractsByCount | app/chain/structured.py:30-64 | in a text without strings only brackets of the first kind count, whatever others stand between |
| Structured.FirstFenceDecides | app/chain/structured.py:20-27 | if any fence is closed, the first one is: the search needs no second attempt |
| Structured.FencedText | app/chain/structured.py:20-27 | text between fences, tagged or not, is what remains |
| Structured.FencesAndTags | app/chain/structured.py:20-20 | a fence is three back quotes, a tag the word json in small or in capital letters |
| Structured.Unfenced | app/chain/structured.py:20-27 | without a fence that another one closes the whole text, trimmed, remains |
| Structured.ParseJsonOutput | app/chain/structured.py:87-122 | the first of at most three candidates that can be read and has the right shape, else the complaint about the last |
| Structured.ParsesInOrder | app/chain/structured.py:87-122 | the stripped text, then what is between the fences, then the first balanced span of that; the last there is gives the complaint |
| Structured.JudgedBy | app/chain/structured.py:67-84 | a candidate is accepted exactly when it can be read, has the shape and, as an object, the required keys; else unreadable, wrong shape, or just the missing keys |
| Structured.ChatterIsRecovered | app/chain/structured.py:87-122 | a readable value wrapped in chatter is found unless an earlier candidate was acceptable |
| Tickets.ListedIsListing | app/tickets/store.py:32-33 | the shown list holds each id once, ordered by priority, then creation time, then position |
| Tickets.ListingIsListed | app/tickets/store.py:32-33 | and is the only such list |
| Tickets.ListedByKey | app/tickets/store.py:32-33 | spelled out: by priority, then creation time as text, then position |
| Tickets.TicketStore.List | app/tickets/store.py:36-37 | the objects in that order |
| Tickets.CreateAppends | app/tickets/store.py:44-66 | creating appends to the list and keeps the priorities a permutation |
| Tickets.TicketStore.Create | app/tickets/store.py:44-66 | refuses blank titles; else one ticket with priority = length at the end |
| Tickets.DeleteRemoves | app/tickets/store.py:87-95 | deleting takes one id out of the list, moves no other, and restores a permutation from any priorities |
| Tickets.DeletionRows | app/tickets/store.py:87-95 | one row goes, the others keep order and content, and their priority becomes their place in the list |
| Tickets.TicketStore.Delete | app/tickets/store.py:87-95 | that, in place, through the sorted aliases; nothing when the id is unknown |
| Tickets.ReorderShown | app/tickets/store.py:98-116 | the list is exactly the given order (ids at their last place), and the priorities are a permutation exactly when no id is given twice |
| Tickets.ReorderRows | app/tickets/store.py:98-116 | each row changes only its priority, to the last position of its id, and its update time exactly with it |
| Tickets.TicketStore.Reorder | app/tickets/store.py:98-116 | accepts exactly lists with the same set of ids, else changes nothing; update times change only with the priority |
| Tickets.UpdateKeepsPermutationIff | app/tickets/store.py:69-84 | writing a priority keeps a permutation exactly when the value was there already |
| TextDiff.WordsLossless | app/textdiff/diff.py:61-62 | the words concatenate to the text, none empty or mixed, white space and text in turn |
| TextDiff.WordsUnique | app/textdiff/diff.py:61-62 | such a list is what its text is split into |
| TextDiff.BuildHunks | app/textdiff/diff.py:70-82 | one hunk for each opcode, of its kind and with the words it covers; for opcodes covering both word lists, before-sides rebuild the old text and after-sides the new one |
| TextDiff.MakeProposal | app/textdiff/diff.py:85-105 | the proposal holds both texts, the hash of the old one and hunks between them |
| TextDiff.ApplyProposal | app/textdiff/diff.py:108-139 | conflict exactly when not forced and the hashes differ; full accept gives the new text, partial accept the chosen sides |
| TextDiff.AcceptNoneOrAll | app/textdiff/diff.py:131-139 | accepting no change gives the old text, every change the new one |
| TextDiff.AcceptOneMore | app/textdiff/diff.py:131-139 | accepting one more change replaces that hunk's text and nothing before or behind it |
| TextDiff.RenderInline | app/textdiff/diff.py:142-159 | without insertions the segments read as the old text, without deletions as the new one; none is empty |
| TextDiff.ShownInOrder | app/textdiff/diff.py:142-159 | hunk after hunk, each in the colour of its kind, the deletion of a replacement before its insertion, empty sides left out |
| MemoryFile.Split | app/memory/store.py:96-112 | metadata up to the first closing fence, the tolerated file of front matter only, or the error |
| MemoryFile.RoundTripIff | app/memory/store.py:87-112 | splitting what was written returns the same parts exactly when the metadata ends its last line and holds no later fence line, or the body is empty and no closing fence occurs |
| MemoryFile.AnyBodySurvives | app/memory/store.py:87-112 | then every body survives, fence lines included |

## Left out

- HTTP routes, request models, user interface, logging, disk access and foreign processes: transport or outside the logic modelled here.
- The bus registry of the job queue (`create_bus`, `close_bus`, `_sweep`): a map with expiry times, only easy members. `stop` closing those buses is left out with it.
- Flat documents with top-level `steps`, `steps_of`, `vars_of` and `_normalize` of the sequence store: entries are modelled in their envelope shape, an absent string being the empty one; tags, update times of sequences and content versions are not kept.
- Texts of error messages: errors are constructors, and the cycle error carries the path instead of the names along it.
- Weights and probabilities of random picks: a draw is any index.
- The patterns that find wildcard references in entry texts (`_extract_refs`): the references of a wildcard are given.
- Lower-casing is that of ASCII letters; case folding of other alphabets is not modelled.
- The JSON, YAML and hashing libraries and `difflib`: they enter as functions; the matcher is required to return opcodes that cover both word lists.
- Events replayed from disk (`app/chain/sse.py`): it lists directories by name and is no copy of the live stream.
- ChainRun: prompts, artifacts and status files of a run are not modelled; a runner returns any input and output text or fails, and for an LLM step a failure is taken to come before its input is recorded.
- Migrate.PlanType: works on ids, names and creation times; the text rewrite of the documents is `LegacyRewrite` and runs before it. De-duplication of prompt_pal documents and the slug base of prompt_pal keys are left out.
- MigrateReferences.MigrationRenamesGraph: needs unique ids, which merges and the other writers keep; for a store that repeats an id the last renaming counts and no isomorphism is claimed. Avatar files are left out.
- Structured.ParseJsonOutput: the blank test and the trimming use the white space of `str.strip`; the schema is its type and required keys, the only parts the source reads.
- Tickets.TicketStore.Create: requires that the new UUID is not in the store. Other fields of `update_ticket`, a missing priority and `next_ticket` are left out.
- PromptTemplate.Renderer: a step number in a token is written in ASCII digits; the source's pattern takes decimal digits of other scripts as well.
- PromptTemplate.CapNeverReached: counts a context item by its id and requires that every item has one, as the context store assigns one to each.
- RewriteMeaning.MigratedRendersAlikeIff: does not say what becomes of a text in which the two notations overlap or the pass meets a wedge, and compares renderings without tracking, since tracked tokens keep their notation.
- JobQueue.Queue: a method ends at each await of the source, so `stop` and the worker loop are split; cancellation of the worker task itself is left out.
- EventBus.Bus: a generator is resumed by `Resume`; a queue that is full cannot occur, since the queues are unbounded.
- Uploads, packs, image prompts, voice presets and the remaining stores: plain create, read, update and delete.
