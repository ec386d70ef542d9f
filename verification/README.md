# Verified models of the scripts and the loop modules

This project models, in Dafny, the parts of the repository that have real state, recursion or protocol structure, and
proves what they are for. Every module names the source file it follows. `dafny verify dfyconfig.toml` checks all of it.

What is modelled:

- **Translation sync** (`scripts/control-ui-i18n.ts`). `LocaleTree` flattens locale bundles and rebuilds them,
  `LocaleReadBack` says which flat maps survive that, `Batching` packs pending keys, `BatchTranslation` halves batches
  that timed out, `BatchAttempts` says what each attempt decides, and `PendingTranslation` joins the batches. `SyncPlan` is
  one run's decisions as functions of the files, `SyncKeys` tells what they come to for each key, `SyncLocale` is the run
  itself as methods over a workspace and a provider, and `SyncFixpoint` proves that a second run has nothing to do.
  `Collation` sorts by an arbitrary total order. `OutputCapture` keeps the tail of a child's output.
- **Parent signals and child runs** (same file). `SignalRelay` is the event machine over any number of runs,
  `ChildRun` the handlers that update a run's closure variables and the set that all runs share, and the parent process
  that follows the machine event by event.
- **The outer loop** (`loop-modules/`). `GateRunner` runs the gate commands, `LoopModel` is a run as a function of the
  answers it gets, `LoopTurns` the same run told turn by turn, `LoopCrash` a machine of atomic file steps that can stop
  anywhere, `LoopOverlap` two runs on the same files, and `OuterLoop` the run as methods over the goal's files, with every
  file operation recorded as an event of the machine.
- **Scanners** (`scripts/check-temp-path-guardrails.ts`, `scripts/native-app-i18n.ts`). `ArgumentScanner` finds a closing
  parenthesis and splits arguments, `ArgumentText` prints the calls it finds, `StringLiterals` reads Swift and Kotlin
  literals and extracts them, and `LiteralEdges` says what they do with other escapes and with what is no literal.
- **The worker pool** (`scripts/check-temp-path-guardrails.ts`): `WorkerPool`, workers over one shared index.
- **Mobile releases** (`scripts/mobile-release-ref.ts`): `ReleaseVersion` and `ReleaseNames`, versions,
  codes and ref names; `ReleaseRecorder`, concurrent recorders over one remote, and `ReleaseOutcomes`, how they end.
- **Package checks** (`scripts/openclaw-npm-postpublish-verify.ts`): `ImportGraph`, a worklist over relative imports,
  and `ImportPaths`, where they lead; `DistListing`, a bounded traversal of the dist folder, and `DistOrder`, its order.
- **Path patterns** (`scripts/check-policy-config-coverage.ts`): `PathPattern`.
- **Line splitting** (`scripts/bench-gateway-restart.ts`): `LineSplitter`.

`Text`, `Sequences` and `Wrappers` hold the string operations, the sequence facts and the result types that several modules share.

The model provider, the inner loop, the gate commands, the evaluator, the remote, the disk and the schedulers are
parameters: functions from what is asked to what is answered, or sequences of events in any order.

## Where the code does less than it looks

These are results: each is a counterexample and the exact condition under which the code does meet the property.

- A child run that fails without having timed out and without a relayed signal is rejected without a look at its process
  group, which may live on (`RejectionWithoutCheck`). `RunsAreSafe` says exactly when the group was checked on.
- A relayed signal can be lost: a run started after the signal holds the re-raise back, and when it ends normally it leaves
  the set without asking for the re-raise (`SignalCanBeLost`). A signalled run whose child closes only later still asks
  for it; `SignalLostIff` says exactly when a signal is lost for good.
- A resumed loop hands its evaluator an empty history (`ResumeCanDiffer`). Whatever the evaluator, resuming is continuing
  exactly when at the abort nothing had been evaluated yet or nothing will be (`AlwaysContinuesIff`).
- The runtime record is written in place: a crash in the middle leaves a goal that nothing can run again
  (`TornRecordEndsTheGoal`). `CanProceedIff` says exactly which goals can get any further.
- A crash between the last save and the record leaves a completed goal recorded as something else for good, and an error
  there records it as failed (`RecordStaysStale`, `CompletedButFailed`). `RecordIff` says exactly when the record is right.
- Nothing locks a goal: a second run can complete it, and the first one then overwrites the completed state whose
  completion is already recorded (`OverlapLosesCompletion`). `OverlapSafeIff` says exactly when a second run may begin
  beside a first one: when that one can save no more.
- A patch of three digits makes a version code longer, and longer codes compare as greater: 2025.1.100 is released before
  2025.2.1 and has the greater code (`LongPatchOvertakes`). `OrderAgreesIff` says exactly when the orders agree.
- Inserting a key clobbers another one exactly when one's path is a prefix of the other's (`RebuildKeepsAllIff`), and a key
  that begins with a dot never comes back from the written bundle (`DotLedIsLost`). `FixpointIff` says that a sync leaves
  work for the next one exactly for sources with such keys; with a provider it leaves none for the run after that
  (`TwoProviderRunsSettle`).
- A reply that misses an item is an error that names its key. When that key has the words "timed out" in it, the error is
  taken for a time-out, and the batch is halved instead of being tried again (`MissingTimesOutIff`).
- An empty literal followed by a quote is no literal but the start of a triple quote (`ReadUndoesPrint` has both cases).

## Model

| member | source | states |
|---|---|---|
| LocaleTree.FlattenTranslations | scripts/control-ui-i18n.ts:385-395 | the recursive loop computes the flattening, dotted keys in insertion order |
| LocaleTree.FlattenDistinct | scripts/control-ui-i18n.ts:385-395 | whatever the tree, no key occurs twice in its flattening |
| LocaleTree.FlattenReadsLast | scripts/control-ui-i18n.ts:385-395 | whatever the tree, a key of its flattening has the last of the texts whose joined keys are that key |
| LocaleTree.RebuildTree | scripts/control-ui-i18n.ts:1669-1672 | inserting entry by entry, in order |
| LocaleTree.LookupSetPath | scripts/control-ui-i18n.ts:397-412 | after an insertion its path reads the value, every path comparable with it reads nothing, all others read what they did |
| LocaleTree.RebuildFlatten | scripts/control-ui-i18n.ts:385-412 | flattening and rebuilding are inverse for trees with non-empty dot-free keys and no empty subtrees, order included |
| LocaleTree.RebuildTranslated | scripts/control-ui-i18n.ts:1669-1672 | translated values under the source's keys give a tree of the source's shape whose flattening is those keys with those values |
| LocaleTree.RebuildReads | scripts/control-ui-i18n.ts:397-412 | an entry is read back from the rebuilt tree unless a later key's path is comparable with its own |
| LocaleTree.RebuildKeepsAllIff | scripts/control-ui-i18n.ts:397-412 | no insertion clobbers an earlier one if and only if no key's path is a prefix of another's |
| LocaleReadBack.FaithfulReadsBack | scripts/control-ui-i18n.ts:1669-1672 | when no key begins with a dot and no path is a prefix of another's, the written bundle flattens back to every entry |
| LocaleReadBack.ClobberedIsLost | scripts/control-ui-i18n.ts:397-412 | where no key begins with a dot, an entry whose path is comparable with a later one's is missing from the flattened bundle |
| LocaleReadBack.DotLedStandsIn | scripts/control-ui-i18n.ts:385-412 | with the keys a, a.b and .a the clobbered a is read back as the text of .a |
| LocaleReadBack.DotLedIsLost | scripts/control-ui-i18n.ts:385-412 | an entry whose key begins with a dot is missing from it, whatever the other entries |
| LocaleReadBack.WellFormedIsFaithful | scripts/control-ui-i18n.ts:385-412 | the keys of a well-formed source are never prefixes of each other |
| LocaleReadBack.ReadBackByKeys | scripts/control-ui-i18n.ts:385-412 | whether a key comes back from a bundle depends only on the keys the bundle is built from, not on the texts |
| Collation.SortSorts | scripts/control-ui-i18n.ts:1678-1680 | sorting gives an ordered list of the same elements |
| Collation.SortSame | scripts/control-ui-i18n.ts:1678-1680 | the sorted fallback list depends on its members only |
| Batching.BuildTranslationBatches | scripts/control-ui-i18n.ts:1309-1333 | the batches hold the items in order, each has 1 to 20 items and, if several, keeps the running budget; no other such partition has fewer batches |
| Batching.GreedyStaysAhead | scripts/control-ui-i18n.ts:1309-1333 | greedy packing, even started later in the items, needs no more batches than any other packing |
| Batching.GreedyUnique | scripts/control-ui-i18n.ts:1309-1333 | no other packing in which no batch could have taken the next item exists |
| Batching.RunningIsEstimate | scripts/control-ui-i18n.ts:976-978 | the running counter of a batch is its estimate plus two per item |
| Batching.BatchEstimate | scripts/control-ui-i18n.ts:1316-1325 | a batch of several items keeps its estimate, plus two per item, within the budget |
| BatchTranslation.TranslateBatch | scripts/control-ui-i18n.ts:1432-1494 | the retry loop with its recursive halving does exactly the modelled prompts and returns the modelled result |
| BatchTranslation.ReadItems | scripts/control-ui-i18n.ts:1449-1457 | reading a reply ends at the first item it does not cover with a non-blank text |
| BatchTranslation.PromptsBounded | scripts/control-ui-i18n.ts:1432-1494 | n items cost at least one and at most 4n - 2 prompts |
| BatchTranslation.DepthBounded | scripts/control-ui-i18n.ts:1466-1481 | splits are nested at most ceil(log2 n) deep |
| BatchTranslation.CeilLog2Is | scripts/control-ui-i18n.ts:1467-1480 | the depth bound is the exponent of the least power of two not below n |
| BatchTranslation.TranslateMeaning | scripts/control-ui-i18n.ts:1450-1481 | a returned map has exactly the items' keys, each with a non-blank text from one of the prompts sent, whose reply was accepted for a run of the items that holds the key: it covered every one of them |
| BatchTranslation.FailureMeaning | scripts/control-ui-i18n.ts:1460-1493 | a batch fails with the error of the last prompt sent, which was put for consecutive items: a single one that timed out, or a second attempt whose first one failed without a time-out as well |
| BatchAttempts.AttemptsDecide | scripts/control-ui-i18n.ts:1440-1493 | an answered prompt ends a batch; one that fails without a time-out is put once more for the same items, and its second outcome counts; a time-out of either attempt halves several items, the longer half first, and ends a single one |
| BatchAttempts.SplitIff | scripts/control-ui-i18n.ts:1466-1485 | a batch is split if and only if it has several items and its first attempt, or its second after a plain failure, timed out |
| BatchAttempts.HalvesAnswered | scripts/control-ui-i18n.ts:1466-1481 | halves that are both answered come back together, after three prompts |
| BatchAttempts.MissingIs | scripts/control-ui-i18n.ts:1450-1455 | the error of a reply that misses items names the first of them |
| BatchAttempts.TimeoutIff | scripts/control-ui-i18n.ts:935-937 | a time-out is told by the words timed out anywhere in the message, in any case |
| BatchAttempts.MissingTimesOutIff | scripts/control-ui-i18n.ts:1450-1485 | a reply that misses an item is taken for a time-out if and only if the key of the first one missed has those words |
| PendingTranslation.FailureIsLasting | scripts/control-ui-i18n.ts:1594-1637 | no batch is asked for behind one that failed |
| PendingTranslation.AllMeaning | scripts/control-ui-i18n.ts:1594-1624 | all batches together bring exactly the pending keys, each with a text from a reply that was accepted for items of its batch |
| SyncLocale.LoadTranslationMemory | scripts/control-ui-i18n.ts:543-562 | the memory has the loadable lines, a later line replacing an earlier one with its key |
| SyncLocale.BuildTranslationMemoryByTextHash | scripts/control-ui-i18n.ts:574-586 | under each text hash the last usable entry of the locale |
| SyncLocale.DecideKey | scripts/control-ui-i18n.ts:1529-1570 | one key's four-way decision and what it does to texts, memory, pending and fallback lists |
| SyncLocale.DecisionPass | scripts/control-ui-i18n.ts:1529-1570 | the pass decides every key from the files read, though it writes copies into the memory while it reads it |
| SyncLocale.TranslatePending | scripts/control-ui-i18n.ts:1572-1637 | the provider is asked for the pending items in the greedy batches, one after the other, up to the first that failed; if none did, every pending key has its text, stored in the texts and in the memory |
| SyncLocale.FallbackPass | scripts/control-ui-i18n.ts:1646-1660 | keys without a translation fall back to the source text and are listed |
| SyncLocale.HasPlaceholderParity | scripts/control-ui-i18n.ts:455-481 | every final text has its source text's placeholders |
| SyncLocale.BuildBundle | scripts/control-ui-i18n.ts:1669-1672 | the bundle is the decided texts inserted in source order |
| SyncLocale.Translate | scripts/control-ui-i18n.ts:1529-1660 | the passes together give each key its decided text, the fallback list and the next memory |
| SyncLocale.Finish | scripts/control-ui-i18n.ts:1720-1765 | changed means that some file differs; the files are written only if they changed and writing was asked for |
| SyncLocale.Sync | scripts/control-ui-i18n.ts:1503-1765 | the provider is asked for the pending items only, with a provider only; what it answers decides whether the run is skipped, throws, finds placeholders that differ, or completes with exactly the expected files, and all but the last leave the disk alone |
| SyncLocale.SyncTwice | scripts/control-ui-i18n.ts:1503-1765 | after a written provider run no key is a fallback, whatever the source; where the source's keys survive being written, a second run sends no prompt, finds nothing changed and leaves the disk as it is |
| SyncLocale.AuthErrorIff | scripts/control-ui-i18n.ts:939-947 | an authentication error is told by four texts, in any case of their letters |
| SyncFixpoint.FallbacksAre | scripts/control-ui-i18n.ts:1538-1660 | a key is listed as a fallback at most once, and exactly when its text is one |
| SyncFixpoint.RenderLoad | scripts/control-ui-i18n.ts:543-572 | a written memory is loaded back entry by entry, and written again it gives the same file |
| SyncFixpoint.NoNewText | scripts/control-ui-i18n.ts:1545-1554 | without a provider a run adds copies only, so no text hash becomes known |
| SyncFixpoint.DecideAgain | scripts/control-ui-i18n.ts:1529-1570 | on the written files every key is decided for reuse, with the text it got, and is marked exactly if that text was a fallback |
| SyncFixpoint.SyncIsFixpoint | scripts/control-ui-i18n.ts:1503-1703 | run again at any later time, on the files it wrote, a sync has nothing pending and expects exactly those files |
| SyncFixpoint.ProviderLeavesNoFallback | scripts/control-ui-i18n.ts:1572-1660 | for any source, after a provider run in which every batch succeeded the fallback list is empty |
| SyncFixpoint.FixpointIff | scripts/control-ui-i18n.ts:1529-1672 | with a provider or without, whatever the locale's files and the translations, a run leaves nothing pending for the next one, if and only if no source key begins with a dot and no source key's path is a prefix of another's |
| SyncFixpoint.SourceCanClobber | scripts/control-ui-i18n.ts:397-412 | the source with the keys a and a.b is one that does leave something |
| SyncFixpoint.SourceCanLoseDot | scripts/control-ui-i18n.ts:386-387 | and so is the source with the one key .a |
| SyncFixpoint.TwoProviderRunsSettle | scripts/control-ui-i18n.ts:1529-1672 | for any source, after two provider runs, the second on the files that the first wrote, nothing is pending any more |
| SyncKeys.LoadTmReads | scripts/control-ui-i18n.ts:543-562 | a loaded memory has under a key the last line with that key and a text that is not blank |
| SyncKeys.CachedIsKept | scripts/control-ui-i18n.ts:1537-1543 | a key with a translation of its own keeps it, its fallback mark and its entry, unless it is marked and there is a provider |
| SyncKeys.TextIsReused | scripts/control-ui-i18n.ts:1545-1554 | failing that, a key that is marked or missing from the old bundle takes the last usable translation of its text, is no fallback any more, and gets a copy of the entry |
| SyncKeys.ExistingIsKept | scripts/control-ui-i18n.ts:1556-1562 | failing that, it keeps the old text and its mark, unless it is marked and there is a provider |
| SyncKeys.PendingIff | scripts/control-ui-i18n.ts:1529-1570 | and it is pending if and only if none of this gave it a text |
| SyncKeys.PendingInOrder | scripts/control-ui-i18n.ts:1529-1570 | pending items come in the order of the source |
| SyncKeys.GoodRunIff | scripts/control-ui-i18n.ts:1572-1637 | a provider run has what it needs if and only if it has a text that is not blank for each of these keys |
| SyncKeys.PendingIsTranslated | scripts/control-ui-i18n.ts:1594-1624 | with a provider such a key takes its text, is no fallback, and gets a new entry with these fields |
| SyncKeys.PendingFallsBack | scripts/control-ui-i18n.ts:1646-1660 | without one it keeps the source text and is listed as a fallback |
| SyncKeys.OtherEntriesStay | scripts/control-ui-i18n.ts:1545-1624 | what the memory holds under no source key stays |
| SyncKeys.ListedKeys | scripts/control-ui-i18n.ts:1678-1680 | the fallbacks listed are source keys, in order, none twice |
| SyncKeys.MetaCounts | scripts/control-ui-i18n.ts:1681-1703 | the metadata counts the source keys and, as translated, all that are not listed |
| SyncKeys.MetaMeaning | scripts/control-ui-i18n.ts:1674-1703 | locale, source, provider in use or last known, and a date that is kept if nothing else is new |
| OutputCapture.CaptureIsTail | scripts/control-ui-i18n.ts:1002-1013 | in any chunking the last characters are kept, as many as allowed, and all others counted |
| SignalRelay.HandleKeepsInv | scripts/control-ui-i18n.ts:1031-1243 | every handler keeps the invariant of its run |
| SignalRelay.EventsChange | scripts/control-ui-i18n.ts:1100-1243 | field by field, which events change what is kept of a run |
| SignalRelay.SettlesIff | scripts/control-ui-i18n.ts:1143-1243 | a promise is settled by a failed start, by the end of a child that nothing waits for, or by the time-out's timer behind it; a time-out comes before a failure, a failure before cut output |
| SignalRelay.AsksIff | scripts/control-ui-i18n.ts:1100-1241 | a run asks for the re-raise, becoming done, if and only if its signalled group is found dead or sent SIGKILL |
| SignalRelay.TimerChanges | scripts/control-ui-i18n.ts:1111-1205 | what sets, replaces and clears the one kill timer |
| SignalRelay.WaitingChanges | scripts/control-ui-i18n.ts:1111-1241 | what makes a run wait for its group, and what its child's end then notes |
| SignalRelay.OutcomeIsFinal | scripts/control-ui-i18n.ts:1143-1157 | a settled promise is never settled again |
| SignalRelay.ExecutionIsSafe | scripts/control-ui-i18n.ts:1022-1243 | for any number of runs and any order of events the invariants hold and every re-raise so far was justified |
| SignalRelay.ReraiseIsJustified | scripts/control-ui-i18n.ts:1022-1029 | at a re-raise every run ever started is either registered, has seen a signal and is done, its group found dead or sent SIGKILL, or had settled without one |
| SignalRelay.AsksForRelayed | scripts/control-ui-i18n.ts:1100-1241 | a run that asks, asks for the signal relayed to its group |
| SignalRelay.ReraisedIsRelayed | scripts/control-ui-i18n.ts:1022-1241 | in any course of events, every signal re-raised is the one relayed by the run whose event re-raised it, and an earlier event of the course brought it to that run |
| SignalRelay.RunsAreSafe | scripts/control-ui-i18n.ts:1143-1241 | a run settles at most once, never resolves after a time-out, and when settled by its child's end its group was found dead or sent SIGKILL if and only if it had timed out or a signal had been relayed |
| SignalRelay.RejectionWithoutCheck | scripts/control-ui-i18n.ts:1158-1241 | a plain failure is rejected while its process group lives |
| SignalRelay.ReraiseMissedIff | scripts/control-ui-i18n.ts:1022-1029 | the last objection to a re-raise goes away without one if and only if the event is no parent signal and its run had not seen one before |
| SignalRelay.SignalMissedIff | scripts/control-ui-i18n.ts:1022-1157 | over any course of events, from a moment on in which some run objects until none does, the signal is not re-raised in that time if and only if the last event is the end of a run that was never signalled |
| SignalRelay.NothingMoreIff | scripts/control-ui-i18n.ts:1222-1241 | once nobody objects, nothing that these runs can still do re-raises a signal, if and only if the child of every signalled run has closed |
| SignalRelay.SignalLostIff | scripts/control-ui-i18n.ts:1022-1241 | a signal is lost for good, neither re-raised until nobody objects nor ever after, if and only if the last objection ended with a run that was never signalled and the children of all signalled runs have closed |
| SignalRelay.SignalCanBeLost | scripts/control-ui-i18n.ts:1143-1241 | two runs and one signal after which nobody objects and no later event of these runs re-raises it |
| ChildRun.ParentSignals.MaybeReraise | scripts/control-ui-i18n.ts:1022-1029 | re-raises exactly when no registered run objects |
| ChildRun.Run.constructor | scripts/control-ui-i18n.ts:1048-1130 | a new run is registered and listens |
| ChildRun.Run.SettleWith | scripts/control-ui-i18n.ts:1143-1157 | settles once, stops timers and handlers, leaves the set unless a signal was relayed |
| ChildRun.Run.CloseWith | scripts/control-ui-i18n.ts:1158-1186 | the outcome of an ended child: time-out, failure, truncation or success |
| ChildRun.Run.SignalHandler | scripts/control-ui-i18n.ts:1100-1127 | relays the signal, is done at once if the group is dead, or sets the kill timer |
| ChildRun.Run.FireKillTimer | scripts/control-ui-i18n.ts:1116-1199 | SIGKILL; a relayed signal is done, a timed-out run that was closed is finished |
| ChildRun.Run.KillTimerHandler | scripts/control-ui-i18n.ts:1116-1199 | the same with the re-raise it asks for and who is left in the shared set |
| ChildRun.Run.TimeoutHandler | scripts/control-ui-i18n.ts:1187-1205 | marks the time-out and sets a kill timer unless one is running |
| ChildRun.Run.CloseHandler | scripts/control-ui-i18n.ts:1222-1241 | waits for a living group, is done for a relayed signal, or finishes; and who is left in the shared set |
| ChildRun.Run.ErrorHandler | scripts/control-ui-i18n.ts:1212-1216 | a spawn error settles the run |
| ChildRun.NobodyIsReady | scripts/control-ui-i18n.ts:1022-1029 | nobody in the shared set objects if and only if no run of the machine does |
| ChildRun.Parent.Happen | scripts/control-ui-i18n.ts:1022-1243 | after any event the run objects, the shared set and the signals re-raised are those of the machine after that event |
| GateRunner.Check | loop-modules/gate-runner.ts:53-101 | the loop's result: all details up to where it stops, and the first failure |
| GateRunner.CheckParallel | loop-modules/gate-runner.ts:121-152 | passes exactly when all commands do, else reports the first failure, with all details |
| GateRunner.CheckMeaning | loop-modules/gate-runner.ts:53-101 | a check passes if and only if every command does; a failed one reports command, exit code, output and error output of the first that failed, whether it stops there or goes on; the details are the results in order up to where it stops |
| LoopModel.RunAccounts | loop-modules/outer-loop.ts:128-226 | turns are bounded by the limit; tokens grow by exactly the turns' costs; turns are evaluations plus gate failures unless the run failed; a token limit is overshot by less than the last turn's cost |
| LoopModel.AbortSplits | loop-modules/outer-loop.ts:129-132 | up to where it stops, an aborted run is the run that was not aborted |
| LoopModel.SameRunIff | loop-modules/outer-loop.ts:183-199 | runs from one state with two histories are equal if and only if all their turns are |
| LoopModel.AbortThenResumeIff | loop-modules/outer-loop.ts:106-248 | for a given evaluator, abort and resume is the uninterrupted run, lists joined, if and only if the turns after the abort do not depend on the evaluations before it |
| LoopModel.AlwaysContinuesIff | loop-modules/outer-loop.ts:106-248 | it is, for every evaluator that answered so far as it did, if and only if at the abort nothing had been evaluated yet or nothing will be, which inner loop, gates and saves alone decide |
| LoopModel.ResumeIsContinue | loop-modules/outer-loop.ts:106-248 | any number of aborts and resumes gives the uninterrupted run's state, status, evaluations, gate failures and costs, for an evaluator whose answers do not depend on its own history |
| LoopModel.ResumeCanDiffer | loop-modules/outer-loop.ts:183-199 | an evaluator that does depend on it makes a resumed run end differently |
| LoopTurns.RunTells | loop-modules/outer-loop.ts:128-239 | every run is a sequence of turns: the inner loop gets the state with the conversation so far and its answer is the conversation from then on, turns and tokens are counted, gates and verdicts are noted in order, each turn began within the budgets and was saved, and what ended the run has its status and its saved state |
| LoopTurns.TellsIff | loop-modules/outer-loop.ts:106-239 | and what is told in this way is a run from its first moment if and only if it is the modelled one |
| LoopCrash.NextKeepsInv | loop-modules/outer-loop.ts:112-239 | every step, crashes and errors included, keeps the invariant |
| LoopCrash.LastSaveIsKept | loop-modules/state-file.ts:25-45 | since a rename comes after the whole temporary file was written, what loads is the state that the last completed save meant to keep, and a completed one rests on that turn's gates |
| LoopCrash.CrashSafety | loop-modules/state-file.ts:25-45 | for every interleaving: loading gives the state of the last completed save and is never torn, memory is at most one turn ahead, a persisted completion has an ok verdict and passed gates, a completed record has a completed state |
| LoopCrash.SavedTurnsGrow | loop-modules/state-file.ts:38-45 | a step leaves the saved state or replaces it by one that is one turn further |
| LoopCrash.CompletionIsFinal | loop-modules/outer-loop.ts:114-122 | nothing changes the state of a completed goal |
| LoopCrash.CanProceedIff | loop-modules/outer-loop.ts:112-226 | from an idle goal some course of events changes the saved state if and only if the goal is not completed and its record can be read |
| LoopCrash.StuckForever | loop-modules/goal-manager.ts:97-120 | a goal that cannot begin a run never can again |
| LoopCrash.TornRecordEndsTheGoal | loop-modules/goal-manager.ts:97-120 | a crash inside the first record write ends the goal for good |
| LoopCrash.RecordStaysStale | loop-modules/outer-loop.ts:201-236 | a crash or an error between the save of a completed state and the end of the record's write leaves the record behind for good |
| LoopCrash.RecordIff | loop-modules/outer-loop.ts:201-236 | in every course of events, once a completed goal is idle its record says completed if and only if neither came there |
| LoopCrash.CompletedButFailed | loop-modules/outer-loop.ts:201-236 | an error there records a completed goal as failed |
| LoopOverlap.OneAtATimeIsSafe | loop-modules/outer-loop.ts:106-125 | two runs of one goal that take turns keep what a single one keeps |
| LoopOverlap.OverlapSafeIff | loop-modules/outer-loop.ts:106-239 | beside a first run, as it stands now, a second one can never bring a goal to be recorded as completed with a state that is not, if and only if the first run can save no more |
| LoopOverlap.OverlapLosesCompletion | loop-modules/outer-loop.ts:106-125 | with the first run at its gates it can: a completed state is overwritten after its completion is recorded |
| OuterLoop.GoalFiles.Save | loop-modules/state-file.ts:38-45 | temporary file, then rename; a failed write leaves the saved state |
| OuterLoop.GoalFiles.UpdateStatus | loop-modules/goal-manager.ts:97-120 | the record is rewritten in place |
| OuterLoop.GoalFiles.DoTurn | loop-modules/outer-loop.ts:145-225 | one turn has the modelled result, and the state on disk is its state if it was kept |
| OuterLoop.GoalFiles.FinishTurn | loop-modules/outer-loop.ts:166-225 | gates, then the evaluator only if they passed |
| OuterLoop.GoalFiles.Judge | loop-modules/outer-loop.ts:183-225 | the verdict decides what is saved, recorded and returned |
| OuterLoop.GoalFiles.Loop | loop-modules/outer-loop.ts:128-239 | the loop's result is the modelled run, and every step of it is a step of the crash machine |
| OuterLoop.GoalFiles.Run | loop-modules/outer-loop.ts:106-239 | a completed goal is left alone, one without a record is refused, any other gives the modelled run, its saved state and its status on disk |
| ArgumentScanner.FindMatchingParen | scripts/check-temp-path-guardrails.ts:73-96 | the position where the depth first reaches zero, and none if and only if there is none |
| ArgumentScanner.SplitTopLevelArguments | scripts/check-temp-path-guardrails.ts:98-162 | the trimmed pieces between top-level commas, a blank last one dropped |
| ArgumentScanner.PiecesRejoin | scripts/check-temp-path-guardrails.ts:98-162 | rejoined with commas the raw pieces are the source |
| ArgumentScanner.PiecesUnique | scripts/check-temp-path-guardrails.ts:98-162 | they are the only list of complete pieces that joins to the source, and any such list is what splitting gives |
| ArgumentScanner.ArgumentsOfJoin | scripts/check-temp-path-guardrails.ts:98-162 | complete arguments come back trimmed from their join, all but a blank last one |
| ArgumentScanner.ScannersAgree | scripts/check-temp-path-guardrails.ts:47-162 | up to the parenthesis found, the splitter has the matcher's quote state and its depth minus one, and its clamp at zero never fires |
| ArgumentScanner.FoundSliceIsBalanced | scripts/check-temp-path-guardrails.ts:73-162 | the slice given to the splitter ends unquoted at depth zero |
| ArgumentText.PrintedIsComplete | scripts/check-temp-path-guardrails.ts:47-162 | a printed argument is complete, whatever commas, brackets and escapes stand between its single, double or template quotes and inside its round, square and curly groups |
| ArgumentText.PrintedCloses | scripts/check-temp-path-guardrails.ts:73-96 | printed code behind an opening parenthesis is closed by the one printed behind it and by no other, whatever follows |
| ArgumentText.ArgumentsOfCall | scripts/check-temp-path-guardrails.ts:193-198 | matcher and splitter together find the arguments of a printed call, wherever it stands |
| StringLiterals.ReadSwiftStringLiteral | scripts/native-app-i18n.ts:272-336 | the index loop reads what the token-by-token reader reads, and where it ends |
| StringLiterals.ReadKotlinStringLiteral | scripts/native-app-i18n.ts:338-402 | the same for Kotlin, whose interpolations are looked for before escapes |
| StringLiterals.ReadInside | scripts/native-app-i18n.ts:287-310 | the inner loop finds the bracket that brings the depth to zero outside strings |
| StringLiterals.FindClosingBrace | scripts/native-app-i18n.ts:239-270 | a block's closing brace by the same rules as a Kotlin interpolation's |
| StringLiterals.ExtractKotlinStringLiterals | scripts/native-app-i18n.ts:404-420 | the literals read one behind the other up to the end or the first quote that opens none |
| StringLiterals.BodyMoves | scripts/native-app-i18n.ts:287-310 | nested brackets and strings with escapes leave the scan's state as it was, whatever follows |
| StringLiterals.ReadUndoesPrint | scripts/native-app-i18n.ts:272-402 | texts printed with escapes and balanced interpolations printed as they are, read back: decoded texts, verbatim interpolations, the literal's whole length; nothing if and only if a triple quote was formed |
| StringLiterals.ClosingBraceFound | scripts/native-app-i18n.ts:239-270 | the closing brace of a printed block is the last one printed |
| StringLiterals.ExtractFindsAll | scripts/native-app-i18n.ts:404-420 | from literals with quote-free text in between every literal is extracted, in order, with value and position |
| StringLiterals.PrintedReadsAt | scripts/native-app-i18n.ts:338-402 | a printed literal in a source is read there, if and only if it does not form a triple quote |
| LiteralEdges.EscapesAre | scripts/native-app-i18n.ts:314-326 | n, r and t behind a backslash stand for their characters, a quote, a backslash and in Kotlin a dollar for themselves; any other escape is kept |
| LiteralEdges.DollarReads | scripts/native-app-i18n.ts:344-350 | a dollar that opens no interpolation is read as it is |
| LiteralEdges.MarksAre | scripts/native-app-i18n.ts:281-350 | interpolations and their groups are written with a backslash and round brackets in Swift, with a dollar and curly ones in Kotlin |
| LiteralEdges.UnfinishedIsNone | scripts/native-app-i18n.ts:272-402 | a literal that runs into the end of the text, into a last backslash or into an unclosed interpolation is none |
| LiteralEdges.BodyEndsInQuote | scripts/native-app-i18n.ts:272-402 | whatever is read as a literal ends with a quote |
| LiteralEdges.ExtractStops | scripts/native-app-i18n.ts:404-420 | the extraction stops at the first quote at which no literal ending in time is read, with all literals before it |
| WorkerPool.Pool.Take | scripts/check-temp-path-guardrails.ts:233-243 | a worker takes the next index or returns |
| WorkerPool.Pool.Receive | scripts/check-temp-path-guardrails.ts:244-254 | a worker fills its place in the output, or leaves it for an unreadable file |
| WorkerPool.ScheduleIndependence | scripts/check-temp-path-guardrails.ts:223-263 | for every number of workers and every schedule: index k is the k-th taken, so taken by exactly one worker, and once all have returned the output is the readable files in the order of the paths |
| WorkerPool.ReadableAre | scripts/check-temp-path-guardrails.ts:233-262 | the result has one file for every path that is not empty and can be read, with its relative name and its source, in the order of the paths |
| WorkerPool.RunsAreShort | scripts/check-temp-path-guardrails.ts:232-257 | no schedule of workers that have not returned has more than two steps a path and one a worker |
| WorkerPool.ReadRuntimeSourceFiles | scripts/check-temp-path-guardrails.ts:223-263 | whatever the scheduler chooses, the result is the readable files in input order |
| ReleaseVersion.ParseUndoesShow | scripts/mobile-release-ref.ts:31 | year.month.patch is read as year, month and patch |
| ReleaseVersion.ShowUndoesParse | scripts/mobile-release-ref.ts:160-166 | and whatever is accepted is such a text |
| ReleaseVersion.ValidCodes | scripts/mobile-release-ref.ts:181-197 | valid for a version are exactly the codes prefix01 to prefix99, apart from white space around them |
| ReleaseVersion.CodeDeterminesVersion | scripts/mobile-release-ref.ts:176-197 | no code is valid for two versions |
| ReleaseVersion.RefsAreFaithful | scripts/mobile-release-ref.ts:199-213 | two valid releases have the same ref if and only if platform, version and build or code are the same |
| ReleaseVersion.OrderAgreesIff | scripts/mobile-release-ref.ts:176-197 | numeric order of two codes is the order of their releases if and only if the patches have the same width or the wider one is the later version's |
| ReleaseVersion.ShortPatchesOrder | scripts/mobile-release-ref.ts:176-197 | with patches of at most two digits numeric order is the order of year, month, patch, suffix |
| ReleaseVersion.LongPatchOvertakes | scripts/mobile-release-ref.ts:176-197 | 2025.1.100 has a greater code than the later 2025.2.1 |
| ReleaseNames.VersionIff | scripts/mobile-release-ref.ts:31 | a version is accepted if and only if it is 20dd, a month of one or two digits and a patch, both without leading zeros, joined by dots |
| ReleaseNames.RefIs | scripts/mobile-release-ref.ts:160-213 | which inputs have a ref, which ref it is for iOS and for Android, and which error the others get |
| ReleaseRecorder.NextKeepsInv | scripts/mobile-release-ref.ts:225-326 | every step of every recorder keeps what all recorders know about the remote |
| ReleaseRecorder.RefsNeverChange | scripts/mobile-release-ref.ts:257-313 | a ref once set keeps its SHA through any later events |
| ReleaseRecorder.RecordersAgree | scripts/mobile-release-ref.ts:278-326 | all reports of one ref, by recording or resolving, give the same SHA, and so does a later resolve |
| ReleaseRecorder.SuccessIsReported | scripts/mobile-release-ref.ts:278-313 | a recorder that succeeds reports its own SHA, which the remote then holds |
| ReleaseRecorder.OutcomeIff | scripts/mobile-release-ref.ts:278-313 | an attempt whose remote operations went through succeeds if and only if the remote holds its SHA; the check behind an acknowledged push never fails |
| ReleaseRecorder.RetryIsDecided | scripts/mobile-release-ref.ts:257-285 | once the ref is set, every attempt with its SHA is already recorded and every other one refused, whatever happens meanwhile |
| ReleaseRecorder.FailedPushMayHaveRecorded | scripts/mobile-release-ref.ts:287-304 | a push seen to fail can have set the ref, and its retry succeeds |
| ReleaseRecorder.OnlyAskedIsRecorded | scripts/mobile-release-ref.ts:287-293 | nothing is recorded under a ref but what a recorder was asked to record there |
| ReleaseOutcomes.AttemptDecides | scripts/mobile-release-ref.ts:257-313 | whatever others do in between, what the remote held at the look and at the push and which operations went through decide the outcome |
| ReleaseOutcomes.AttemptRecords | scripts/mobile-release-ref.ts:287-304 | a push that arrived where no ref was has set it, acknowledged or not |
| ReleaseRecorder.Remote.PreflightMobileReleaseRef | scripts/mobile-release-ref.ts:257-276 | an invalid name touches nothing; otherwise available, already recorded or refused, as the machine's look |
| ReleaseRecorder.Remote.RecordMobileReleaseRef | scripts/mobile-release-ref.ts:278-313 | look, push with lease and check, stopping where the machine stops, with its outcome |
| ReleaseRecorder.Remote.ResolveMobileReleaseRef | scripts/mobile-release-ref.ts:315-326 | what the remote holds, or that it holds nothing |
| ImportGraph.ResolveInstalledDistRelativeImport | scripts/openclaw-npm-postpublish-verify.ts:535-569 | the first of the seven candidates that is inside dist and exists, for relative specifiers only |
| ImportGraph.FirstUsableIs | scripts/openclaw-npm-postpublish-verify.ts:555-566 | a usable candidate is taken if none before it is |
| ImportGraph.FirstUsableFound | scripts/openclaw-npm-postpublish-verify.ts:555-568 | none is taken if and only if none is usable |
| ImportGraph.CollectInstalledPluginSdkZodArtifactErrors | scripts/openclaw-npm-postpublish-verify.ts:571-624 | ends on any import graph; no error if and only if every file reachable from the entry is present, regular, not too large, parseable and free of zod; an error names a reachable file and its fault |
| ImportGraph.ClosedContains | scripts/openclaw-npm-postpublish-verify.ts:578-621 | a set with the entry that is closed under imports contains all that is reachable |
| ImportGraph.StaysInside | scripts/openclaw-npm-postpublish-verify.ts:555-566 | whatever is reachable, other than the entry, exists inside dist |
| ImportPaths.ResolvesTo | scripts/openclaw-npm-postpublish-verify.ts:535-569 | a relative specifier leads to the first usable one of seven files, written out, in the folder as many levels up as it has double dots |
| ImportPaths.WalkNormalizes | scripts/openclaw-npm-postpublish-verify.ts:544 | going down and up again, single dots and doubled slashes lead nowhere |
| ImportPaths.UsableIff | scripts/openclaw-npm-postpublish-verify.ts:555-564 | usable is what exists strictly below the dist folder, not below a name that begins with two dots |
| ImportPaths.ImportsZodIff | scripts/openclaw-npm-postpublish-verify.ts:605-606 | an import of zod is one whose first part is zod |
| DistListing.ListDistJavaScriptFiles | scripts/openclaw-npm-postpublish-verify.ts:455-513 | all modules in the order found, or, if and only if they exceed the limit, the first ones, one more than allowed |
| DistListing.ListedMeaning | scripts/openclaw-npm-postpublish-verify.ts:467-505 | a file is listed if and only if a path of folders leads to it, none of whose steps is skipped |
| DistListing.DistListedOnce | scripts/openclaw-npm-postpublish-verify.ts:467-505 | if no folder has two entries of one name, no file is listed twice |
| DistOrder.ListedInOrder | scripts/openclaw-npm-postpublish-verify.ts:467-505 | a folder's own modules come first, in reading order, then all that is below its folders, from the last folder to the first |
| PathPattern.MatchesIffSegmentation | scripts/check-policy-config-coverage.ts:209-232 | a pattern matches if and only if the value splits into runs, one per part: any run for `**`, one part for `*`, an equal part for a literal |
| PathPattern.MatchesConcat | scripts/check-policy-config-coverage.ts:209-232 | p1 ++ p2 matches if and only if some cut of the value matches both |
| PathPattern.MatchesReversed | scripts/check-policy-config-coverage.ts:209-232 | matching is the same read backwards |
| PathPattern.StarsCollapse | scripts/check-policy-config-coverage.ts:214-224 | two `**` in a row say no more than one |
| PathPattern.PathMatchesIff | scripts/check-policy-config-coverage.ts:203-207 | the same meaning on dotted strings |
| LineSplitter.SplitExists | scripts/bench-gateway-restart.ts:965-971 | a split's lines, each with LF or CRLF, and its carry are the text |
| LineSplitter.SplitUnique | scripts/bench-gateway-restart.ts:965-971 | and no other such split is |
| LineSplitter.SplitAppend | scripts/bench-gateway-restart.ts:965-971 | splitting commutes with cutting the text anywhere, also inside a CRLF |
| LineSplitter.ChunkInvariant | scripts/bench-gateway-restart.ts:965-971 | any chunking gives the lines and the carry of the whole text |
| LineSplitter.StreamBuffer.OnChunk | scripts/bench-gateway-restart.ts:1259-1262 | after any chunk the delivered lines and the buffer are the split of all text received |
| LineSplitter.StreamBuffer.Flush | scripts/bench-gateway-restart.ts:973-989 | only a partial flush delivers the carry, as one last line |

## Left out

- File formats: locale modules, metadata, memory lines and JSON are values here, and the formatter that writes them is left out.
- Objects with integer-like keys or a key named __proto__, whose order or meaning JavaScript changes.
- `setNestedValue` walks a cursor and assigns in place; it is modelled on values, and no object is shared between trees there.
- Hashing, collation and placeholder extraction are parameters: cache keys are injective and non-empty, the order is total.
- The environment of a sync (provider, model, budget) stays the same between the two runs; several locales are synced independently.
- Lower case is modelled for ASCII letters only, which is where the texts searched for in error messages lie.
- `LocaleReadBack.ClobberedIsLost`: leaves out maps with a key that begins with a dot, because such a key can be read back under a clobbered one's name (`DotLedStandsIn`).
- Texts of prompts and progress messages, client creation and reset, delays between attempts.
- Windows branches of the process supervision, errors other than a missing group when signalling, and the reuse of group ids.
- Each listener of a parent signal is its own event of `SignalRelay`; a real signal reaches all listeners one after the other.
- UTF-8 characters cut by chunk boundaries, and the millisecond stamps given to line handlers.
- Timestamps, durations, message contents, prompt assembly, event callbacks, checkpoints and status summaries of the outer loop.
- In `OuterLoop` a state save can fail and the inner loop and the evaluator can throw, but a failing write of the runtime record occurs only in `LoopCrash`; gate commands do not throw.
- Reading the state file fails only when it does not exist.
- In `LoopOverlap` the first run is not started again; the one that is beside it may be, any number of times.
- Surrogate pairs in the argument splitter, which walks code points where the model walks characters.
- The regular expressions that find UI strings and calls, comment stripping, triple-quoted literals and their indentation.
- In `WorkerPool` a worker may also be interrupted between two indices; the source only lets go of it while it reads a file.
- Git itself: the remote is a map with an atomic create-if-absent, commits are resolved before, and no writer other than recorders exists.
- The command line of the release script and its checks of the working directory.
- Symbolic links, and what `existsSync` and `lstatSync` say about a path, are given by the disk of `ImportGraph`; parsing is a parameter.
- Folders that cannot be opened in the listing of the dist folder.
- The trace semantics of the restart probe, the policy coverage report, and the other release checks: orchestration and reporting.
- `automation-scheduler.ts` and `worktree-manager.ts`: load-then-save over files without a guard, and thin wrappers around git.
