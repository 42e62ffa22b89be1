# Verification of the release and translation tooling

A Dafny model of the scripts in this repository that hold real algorithms, with proofs of what
they are for. `dafny verify dfyconfig.toml` checks everything.

Where a script changes things step by step, so does the model: the child process runners and the
quote scanner are classes, the sync, batching, polling, scanning and graph loops are methods with
`while` or `for` loops. Each such method is proved equal to a function of its inputs (`Sync`,
`Translate`, `Greedy`, `Step`, `Scan`, ...) or to a property stated outright, and the lemmas are
about those functions and hold for every input and every run. What a script cannot control is
left arbitrary: the language model's answers, the order in which workers or records come, the
events a child process raises and when, the parse of a file, the moment of a crash.

| file | what it models |
|---|---|
| `TranslationBatches`, `BatchTranslation`, `TranslationKeys`, `TranslationSync`, `SyncConvergence`, `SyncRuns` | one locale's synchronisation with English in `scripts/control-ui-i18n.ts`, from the files on disk to the files on disk |
| `ProcessSupervisor`, `CommandSupervisor`, `OutputCapture` | the two child process runners and their bounded output tails |
| `ArgumentScanner`, `ReadPool` | the quote-aware call scanner and the concurrent file reader of the temp path guardrail |
| `RestartProbe`, `RestartSamples`, `ProcessTree`, `LineFraming` | the gateway restart benchmark |
| `ImportClosure`, with `Reachability` | the self-containedness check of an installed package |
| `LabelBatches`, `LabelCheckpoints` | paging, batching and checkpoints of the label audit |
| `SparkleBuild` | build numbers of calendar versions |
| `Wrappers`, `Text` | `Option` and `Result`; trimming, searching and decimal numerals |

The main results, in words:

- **Synchronising converges in one run.** After a completed run, with or without a provider, the
  next run over the same source changes nothing and asks nothing (`SyncConverges`). The ledger of
  keys left in English is exact precisely when the source's keys can be nested and read back
  (`LedgerIsExact`).
- **Batching is optimal and translating is bounded.** No order-preserving grouping under the same
  limits uses fewer prompts; a hostile provider can cause at most 4n - 2 prompts for n texts and a
  split depth of the rounded-up binary logarithm of n, and one that causes both exists.
- **The process runners settle at most once**, in every sequence of events. The locale tool's kills
  only after asking and waiting and reports success only with the whole output; the release checks'
  kills at once, always settles after its timeout, and resolves with the tail of the output.
- **Scanning a call undoes printing it**, framing ignores how a stream is cut, and concurrent
  reading equals reading in order under every interleaving.
- **Graph walks are exact** on any graph, cycles included.

Facts found on the way, with the member that states each:

- `--force` has no effect on a locale run: the branch it guards is unreachable (`ForceIsInert`).
- The batching loop charges 2 characters more per text than the estimate of a whole prompt, so
  measured by that estimate its batches are not always the fewest (`EstimateWouldAllowFewer`).
  `FewestByEstimateExactly` says when they are, and `FewestWithoutGap` gives a test on the items.
- A missing translation for a key whose name contains "timed out" is handled as a timeout, since
  errors are told apart by their message only (`MissingKeyReadsAsTimeout`, `KeyNamedLikeATimeout`).
- A child's error event raised inside the timeout's own signal leaves a kill timer armed after the
  promise has settled, and the kill then happens (`SettlingLeavesTimer`,
  `TimeoutCanKillAfterSettling`). The second runner has the same gap (`TimeoutCanOutliveSettling`).
- The second runner reports success with only the tail of the output (`SuccessMayBeTruncated`,
  `TruncatedSuccess`); the first rejects that.
- Checkpoints are written in place, so a crash during a save can lose all of them
  (`TornSaveCanLose`); `LosesExactlyWhenTorn` says at which steps of which runs it does.
- A fractional issue limit rounds up (`FetchOpenLabelItemBatches`), and a flush that is not asked to hand
  over partial lines does nothing (`LineFraming.LineBuffers.Flush`).

## Model

| member | source | states |
|---|---|---|
| `TranslationBatches.BuildTranslationBatches` | scripts/control-ui-i18n.ts:1266-1290 | the batches concatenate to the items in order, hold 1 to 20 items each, stay within the budget unless they are one item, and no other such partition has fewer |
| `TranslationBatches.GreedyIsFewest` | scripts/control-ui-i18n.ts:1266-1290 | for any items and budget the batches hold the items in order, are admissible, and are the fewest that do and are |
| `TranslationBatches.ClosesIs` | scripts/control-ui-i18n.ts:1273-1276 | the two tests close the open batch exactly when it is not admissible with one more item |
| `TranslationBatches.PackConserves` | scripts/control-ui-i18n.ts:1266-1290 | under any limit that single items meet and parts of a batch inherit, from any open batch, nothing is lost, reordered or repeated and every batch meets it |
| `TranslationBatches.PackStaysAhead` | scripts/control-ui-i18n.ts:1272-1283 | under any such limit the greedy pass never falls behind any partition that meets it, wherever that one's cuts are |
| `TranslationBatches.EstimateIsBelowLoopCost` | scripts/control-ui-i18n.ts:970-972 | the size of a whole prompt is the sum the loop charges less 2 per item |
| `TranslationBatches.FewestByEstimateExactly` | scripts/control-ui-i18n.ts:970-972 | the batches are the fewest by the prompt estimate if and only if the same pass charging by that estimate makes as many; otherwise it makes fewer |
| `TranslationBatches.FewestWithoutGap` | scripts/control-ui-i18n.ts:970-972 | they are if no 2 to 20 neighbouring items fit one prompt by the estimate but not by the loop's sum |
| `TranslationBatches.GapOfTwo` | scripts/control-ui-i18n.ts:1272-1283 | any two items that do get two batches and are not the fewest |
| `TranslationBatches.EstimateWouldAllowFewer` | scripts/control-ui-i18n.ts:1272-1283 | two such items |
| `BatchTranslation.ReadReply` | scripts/control-ui-i18n.ts:1406-1423 | a reply is accepted exactly when it has a text that is not blank for every item; otherwise the error names the first item without one, and its message alone decides whether it is a timeout |
| `BatchTranslation.FirstMissingAt` | scripts/control-ui-i18n.ts:1408-1414 | the key reported is that of the first item without a usable translation |
| `BatchTranslation.MissingKeyReadsAsTimeout` | scripts/control-ui-i18n.ts:1408-1423 | an answer is handled as a timeout if and only if it is incomplete and the first key it omits contains the timeout phrase |
| `BatchTranslation.KeyNamedLikeATimeout` | scripts/control-ui-i18n.ts:1408-1423 | two items of which an empty answer is a timeout or not depending on which comes first |
| `BatchTranslation.AcceptedReplies` | scripts/control-ui-i18n.ts:1406-1416 | a reply is accepted if and only if it answers every item with a text that is not blank, and the translation is then its text for each item's key, word for word |
| `BatchTranslation.RefusedReplies` | scripts/control-ui-i18n.ts:1408-1423 | any other reply is an error with the provider's own message or naming the first item that went without, and is a timeout if and only if that message has the phrase in it |
| `BatchTranslation.AskingIsFaithful` | scripts/control-ui-i18n.ts:1407-1416 | whatever the provider, what a prompt translates is what its reply says |
| `BatchTranslation.TranslateBatch` | scripts/control-ui-i18n.ts:1389-1451 | the retry loop with its splitting makes the prompts, in the order and with the result, of the specification `Translate` |
| `BatchTranslation.TranslateIsBounded` | scripts/control-ui-i18n.ts:1397-1450 | against any oracle: 1 to 4n - 2 prompts, and a split depth of at most any d with n <= 2^d |
| `BatchTranslation.TranslateIsTotal` | scripts/control-ui-i18n.ts:1397-1450 | a translation that is returned has exactly the items' keys, nothing blank, and for each key a value that the provider's reply to a prompt of this very call, which asked for that key, holds for it |
| `BatchTranslation.SecondAttempt` | scripts/control-ui-i18n.ts:1397-1449 | after an error that is no timeout the same items are asked for once more |
| `BatchTranslation.TwoHalves` | scripts/control-ui-i18n.ts:1423-1439 | after a timeout the two halves are asked for, the larger one first, and their translations joined |
| `BatchTranslation.GivesUpWhenHopeless` | scripts/control-ui-i18n.ts:1440-1450 | a batch gives up only at a timeout of a single item or an error on the second attempt, which is the last prompt made, and with that reply's message |
| `BatchTranslation.HopelessIsFinal` | scripts/control-ui-i18n.ts:1440-1450 | at such a reply nothing more is asked for |
| `BatchTranslation.BoundsAreTight` | scripts/control-ui-i18n.ts:1397-1450 | a provider that garbles first answers and lets second ones time out reaches both bounds for every n |
| `BatchTranslation.WorstProviderDoes` | scripts/control-ui-i18n.ts:929-931 | such a provider exists |
| `TranslationKeys.FlattenTranslations` | scripts/control-ui-i18n.ts:382-392 | the recursive loop computes the flat form `Flatten` |
| `TranslationKeys.FlattenIsSound` | scripts/control-ui-i18n.ts:382-392 | each flat entry is the text at some path of the object whose dotted form is the key |
| `TranslationKeys.FlattenIsComplete` | scripts/control-ui-i18n.ts:382-392 | every path with a text has its dotted key in the flat form |
| `TranslationKeys.GetAfterSet` | scripts/control-ui-i18n.ts:394-409 | setting a dotted key sets its path, removes every path above and below it and leaves all others alone |
| `TranslationKeys.SplitPrefix` | scripts/control-ui-i18n.ts:395 | one key's segments start another's exactly when the keys are equal or one is the other followed by a dot |
| `TranslationKeys.BuildNestedMap` | scripts/control-ui-i18n.ts:1626-1629 | the rebuilding loop computes `Rebuild` |
| `TranslationKeys.RoundTrip` | scripts/control-ui-i18n.ts:382-409 | nesting a flat map and flattening it again gives it back if and only if no key begins with a dot and none is a dotted prefix of another |
| `TranslationKeys.RoundTripIsRecoverable` | scripts/control-ui-i18n.ts:382-409 | merely keeping all keys already takes such keys |
| `TranslationKeys.PlainSourceIsRecoverable` | scripts/control-ui-i18n.ts:1468-1469 | a source object whose field names are neither empty nor dotted has such keys |
| `TranslationSync.BuildTranslationMemoryByTextHash` | scripts/control-ui-i18n.ts:570-582 | for every order of the records the loop computes the lookup by text |
| `TranslationSync.ByTextHashIs` | scripts/control-ui-i18n.ts:570-582 | a text is found exactly when some eligible record has it, and what is found is such a record |
| `TranslationSync.LastRecordWins` | scripts/control-ui-i18n.ts:575-580 | of several eligible records of a text the last one is found |
| `TranslationSync.DecideKeys` | scripts/control-ui-i18n.ts:1482-1527 | the deciding loop, which adds to the memory it reads, computes the key by key plan; what that plan comes to is stated, without it, by `LedgerIsExact` and `PendingIsToFind` |
| `TranslationSync.PlanKeepsOthers` | scripts/control-ui-i18n.ts:1486-1527 | deciding keys touches no memory record, value or ledger entry of any other key |
| `TranslationSync.AbsorbBatch` | scripts/control-ui-i18n.ts:1559-1578 | taking over a batch's translations computes `Absorb` |
| `TranslationSync.TranslateBatchInto` | scripts/control-ui-i18n.ts:1552-1591 | one batch is taken over in full, or its error handed on with nothing taken over |
| `TranslationSync.TranslatePending` | scripts/control-ui-i18n.ts:1530-1579 | the batches are translated in turn until one gives up |
| `TranslationSync.FillPending` | scripts/control-ui-i18n.ts:1603-1617 | filling in what is still missing computes `Fill` |
| `TranslationSync.SyncLocale` | scripts/control-ui-i18n.ts:1460-1723 | for every provider the whole run, its outcome, the files it leaves and its number of prompts are those of `Sync`; what they come to is stated by `SyncConverges`, `LedgerIsExact`, `RunEnds`, `CheckingReports` and `AsksOnlyForWhatItMustFind` |
| `SyncConvergence.SyncConverges` | scripts/control-ui-i18n.ts:1460-1723 | the run after a completed, writing run reports no change, leaves every file as it is, reports the same fallbacks and makes no prompt, whatever its options, record order and provider, unless it brings in a provider the first run lacked |
| `SyncConvergence.RunSettles` | scripts/control-ui-i18n.ts:1603-1712 | a completed, writing run leaves files that agree with each other and with the source, with an empty ledger if it had a provider |
| `SyncConvergence.NextDiskIsSettled` | scripts/control-ui-i18n.ts:1624-1660 | writing out values in tune with the memory gives such files, and the locale file reads back as those values |
| `SyncConvergence.SettledIsStable` | scripts/control-ui-i18n.ts:1486-1699 | files that agree in this way, however they came about, are left alone without a prompt |
| `SyncConvergence.LedgerIsExact` | scripts/control-ui-i18n.ts:1460-1723 | after a completed, writing run the values' keys are the source's keys and the counts add up; each value comes from its own record, a record of its text or the value it had, as the rules say, and otherwise, if no text is known for it, from a reply of the provider that asked for that key, or without a provider from English; a key is in the ledger exactly by its rule, with a provider never; its record is the new one, a copy or the old one by its rule, and no other record changes; and the files name their translator: all this if and only if the source's keys can be nested and read back |
| `SyncConvergence.PendsExactly` | scripts/control-ui-i18n.ts:1494-1526 | a key is left to be found exactly if no record has its text and it is a fallback to be refreshed or has neither record nor value |
| `SyncConvergence.WithoutProvider` | scripts/control-ui-i18n.ts:1486-1617 | without a provider every key ends with the value and ledger entry its rule gives, in tune with its memory record |
| `SyncConvergence.WithProvider` | scripts/control-ui-i18n.ts:1486-1617 | with one, every pending key ends with a text the provider gave for it, no key in the ledger, whatever the force option |
| `SyncConvergence.BatchesAdd` | scripts/control-ui-i18n.ts:1551-1579 | translated batches give every item a value its record agrees with and change nothing that concerns other keys |
| `SyncConvergence.FillInEnglish` | scripts/control-ui-i18n.ts:1603-1617 | pending keys without an existing value read in English and enter the ledger, all others are kept |
| `SyncConvergence.ForceChangesNothing` | scripts/control-ui-i18n.ts:1603-1617 | the values, memory and ledger a run ends with do not depend on the force option |
| `SyncConvergence.ForceIsInert` | scripts/control-ui-i18n.ts:1603-1699 | neither does anything else about the run |
| `SyncConvergence.RunIsBounded` | scripts/control-ui-i18n.ts:1529-1601 | a run makes at most four prompts per pending key less two per batch attempted, the one that gives up included, and none without a provider |
| `SyncConvergence.OnlyWritesWhatItReports` | scripts/control-ui-i18n.ts:1580-1723 | a run reports having written exactly when a file changed; one that throws, skips for want of credentials or is not to write changes none |
| `SyncRuns.InputsAre` | scripts/control-ui-i18n.ts:1468-1480 | a run reads the records that have a translation, the last ledger, the flat locale file, and for each text the last record in reading order |
| `SyncRuns.CacheKeysAreApart` | scripts/control-ui-i18n.ts:339-350 | records of different providers, models, languages, keys or texts have different cache keys |
| `SyncRuns.PendingIsToFind` | scripts/control-ui-i18n.ts:1486-1527 | exactly the keys a text must be found for are pending, in the source's order |
| `SyncRuns.AsksOnlyForWhatItMustFind` | scripts/control-ui-i18n.ts:1529-1579 | whatever providers would say about anything else, a run goes the same: it asks for nothing but the keys it must find |
| `SyncRuns.BatchesGiveUp` | scripts/control-ui-i18n.ts:1551-1591 | the batches fail only at a hopeless reply to the last prompt, with its message |
| `SyncRuns.RunEnds` | scripts/control-ui-i18n.ts:1580-1624 | a run is skipped exactly for an error of credentials where that is allowed, throws for the provider's last message or for a mismatch of placeholders in its values, and else is done |
| `SyncRuns.AuthErrorsAre` | scripts/control-ui-i18n.ts:933-941 | an error is one of credentials exactly when its message in lower case has one of the four phrases in it |
| `SyncRuns.WrittenPlaceholdersAgree` | scripts/control-ui-i18n.ts:452-478 | in every locale file written each text has exactly the placeholders of its source text |
| `SyncRuns.CheckingReports` | scripts/control-ui-i18n.ts:1677-1722 | a run that checks or does not write makes the same prompts, ends alike and reports a change exactly when a writing run would make one |
| `OutputCapture.CaptureIsTail` | scripts/control-ui-i18n.ts:998-1009 | for every way of cutting the output into chunks both captures keep its last units, and in the counting one kept and dropped units add up to all of them |
| `OutputCapture.AppendKeepsTail` | scripts/control-ui-i18n.ts:998-1009 | appending to the capture of a text gives the capture of the longer text |
| `OutputCapture.CommandAppendKeepsTail` | scripts/openclaw-cross-os-release-checks.ts:3680-3695 | so does the three-branch version |
| `ProcessSupervisor.Supervisor.constructor` | scripts/control-ui-i18n.ts:1036-1100 | the runner starts with its timeout armed and the platform's signal handlers installed |
| `ProcessSupervisor.Supervisor.SettleOnce` | scripts/control-ui-i18n.ts:1112-1123 | the first settlement disarms both timers and removes all handlers, later ones do nothing |
| `ProcessSupervisor.NotedKeeps` | scripts/control-ui-i18n.ts:1070-1076 | the note of a refused signal counts as output: stderr stays the tail of all chunks and notes, and all else that holds of a run goes on holding |
| `ProcessSupervisor.Supervisor.SendSignal` | scripts/control-ui-i18n.ts:1064-1086 | the signal reaches the group or, with the refusal noted in stderr, the child alone, whose error event may come at once |
| `ProcessSupervisor.Supervisor.Finish` | scripts/control-ui-i18n.ts:1124-1152 | a close settles by timeout, failure, lost output or success, in this order |
| `ProcessSupervisor.Supervisor.HandleTimeout` | scripts/control-ui-i18n.ts:1167-1171 | the whole effect of the timeout is that of its step |
| `ProcessSupervisor.Supervisor.StartKillGrace` | scripts/control-ui-i18n.ts:1153-1166 | the grace window opens once, its timer armed for its length |
| `ProcessSupervisor.Supervisor.HandleKillGrace` | scripts/control-ui-i18n.ts:1158-1165 | that of the kill timer is that of its step, including a close put off |
| `ProcessSupervisor.Supervisor.HandleClose` | scripts/control-ui-i18n.ts:1188-1194 | a close is put off exactly in the grace window with the group alive |
| `ProcessSupervisor.Supervisor.HandleError` | scripts/control-ui-i18n.ts:1178-1182 | the first error event settles with that error |
| `ProcessSupervisor.Supervisor.HandleParentSignal` | scripts/control-ui-i18n.ts:1087-1095 | a signal to the tool is passed on once |
| `ProcessSupervisor.Supervisor.HandleStdout` | scripts/control-ui-i18n.ts:1172-1174 | output is captured, before and after settling, its tail kept as `EveryRunIsSafe` says |
| `ProcessSupervisor.Supervisor.HandleStderr` | scripts/control-ui-i18n.ts:1175-1177 | so is stderr, its tail kept as `EveryRunIsSafe` says |
| `ProcessSupervisor.EveryRunIsSafe` | scripts/control-ui-i18n.ts:1023-1195 | in every sequence of events: at most one settlement, no SIGKILL but after the runner's own SIGTERM and the grace window, an unsettled run whose close was put off has its kill timer armed, both captures are the tails of what had come, and a resolved run did not time out and gives the tails of what had come when it settled, all of stdout if the child exited with 0 |
| `ProcessSupervisor.StepKeeps` | scripts/control-ui-i18n.ts:1023-1195 | every single event keeps all of that |
| `ProcessSupervisor.SettlesAsItShould` | scripts/control-ui-i18n.ts:1064-1194 | in every open run an event settles it or leaves it open as it should: errors at once, also those raised while signalling; a close, unless put off, with a timeout, a failure, too much output or the child's own exit code and the tails of what it wrote; the kill after a close was put off |
| `ProcessSupervisor.RecordsAsItShould` | scripts/control-ui-i18n.ts:1064-1177 | every event sends exactly the signal it should, when it should, and every chunk and note is recorded |
| `ProcessSupervisor.HearsAll` | scripts/control-ui-i18n.ts:1172-1177 | what a run has heard is what the child wrote, and its clock the time that went by |
| `ProcessSupervisor.TimeoutIsOnTime` | scripts/control-ui-i18n.ts:1167-1171 | an open run has timed out exactly when its timeout fires at or after the time it was given |
| `ProcessSupervisor.RelaysTheFirst` | scripts/control-ui-i18n.ts:1087-1100 | a signal to the tool is sent on to the child, that signal and once: the first in the run, while it is open, and no other |
| `ProcessSupervisor.SettledIsFinal` | scripts/control-ui-i18n.ts:1112-1123 | no later event changes the result or how much output it is about |
| `ProcessSupervisor.ResolvesWithOutput` | scripts/control-ui-i18n.ts:1124-1152 | whatever comes later, a promise that resolved gives the tails of what stdout and stderr had got at the very event that settled it, all of stdout if the child exited with 0 |
| `ProcessSupervisor.SettlingLeavesTimer` | scripts/control-ui-i18n.ts:1112-1171 | settling leaves no timer and no handler, except the kill timer if and only if the settling event is the timeout itself, the child's error being raised inside its signal |
| `ProcessSupervisor.SettledRunsAreQuiet` | scripts/control-ui-i18n.ts:1112-1171 | in runs where that never happens a settled run has no timer and no handler left |
| `ProcessSupervisor.TimeoutCanKillAfterSettling` | scripts/control-ui-i18n.ts:1153-1171 | for every configuration a run in which it happens and a SIGKILL follows |
| `ProcessSupervisor.CloseSettles` | scripts/control-ui-i18n.ts:1153-1194 | a close settles at once unless the group is alive in the grace window, and then the due kill timer sends one SIGKILL and settles without resolving |
| `ProcessSupervisor.ResolvesExactly` | scripts/control-ui-i18n.ts:1124-1152 | a close before the timeout resolves if and only if the child exited with 0 and all its stdout was kept, or failed where failures are acceptable |
| `ProcessSupervisor.OpenWithoutTimers` | scripts/control-ui-i18n.ts:1153-1194 | a promise open without any timer means the child was killed and its close not reported yet |
| `CommandSupervisor.CommandRun.constructor` | scripts/openclaw-cross-os-release-checks.ts:3720-3797 | the second runner starts with its timeout armed, if it has one, and its heartbeat on |
| `CommandSupervisor.CommandRun.FinalizeOnce` | scripts/openclaw-cross-os-release-checks.ts:3742-3750 | the first settlement clears all three timers, later ones do nothing |
| `CommandSupervisor.CommandRun.HandleTimeout` | scripts/openclaw-cross-os-release-checks.ts:3771-3787 | the timeout kills at once and arms the bounded wait |
| `CommandSupervisor.CommandRun.HandleKillWait` | scripts/openclaw-cross-os-release-checks.ts:3777-3785 | the end of the wait settles with an error |
| `CommandSupervisor.CommandRun.HandleClose` | scripts/openclaw-cross-os-release-checks.ts:3817-3844 | a close settles by timeout, failure or success, unless a signal is being forwarded, with the code `CloseReportsCode` states |
| `CommandSupervisor.CommandRun.HandleError` | scripts/openclaw-cross-os-release-checks.ts:3812-3815 | an error event settles with that error and unregisters the child |
| `CommandSupervisor.CommandRun.HandleStdout` | scripts/openclaw-cross-os-release-checks.ts:3801-3805 | output is captured, its tail kept as `EveryRunIsSafe` says |
| `CommandSupervisor.CommandRun.HandleStderr` | scripts/openclaw-cross-os-release-checks.ts:3806-3810 | so is stderr, its tail kept as `EveryRunIsSafe` says |
| `CommandSupervisor.EveryRunIsSafe` | scripts/openclaw-cross-os-release-checks.ts:3705-3846 | in every sequence of events: at most one settlement, one kill and only by the timeout, the kill wait armed from the timeout until settled, both captures are the tails of what had come, and a resolved run did not time out and gives the tails of what had come when it settled |
| `CommandSupervisor.StepKeeps` | scripts/openclaw-cross-os-release-checks.ts:3705-3846 | every single event keeps all of that |
| `CommandSupervisor.AlwaysSettles` | scripts/openclaw-cross-os-release-checks.ts:3771-3787 | from any point of a run with a timeout, the two timers coming due settle it, whatever the child does |
| `CommandSupervisor.SettlesAsItShould` | scripts/openclaw-cross-os-release-checks.ts:3742-3844 | in every open run an event settles it or leaves it open as it should |
| `CommandSupervisor.CloseReportsCode` | scripts/openclaw-cross-os-release-checks.ts:3817-3844 | a close of any open run in which no signal is forwarded reports a timeout if there was one; else it resolves if and only if the command succeeded or was not to be checked, and the code reported is the child's own, 1 standing for none |
| `CommandSupervisor.RecordsAsItShould` | scripts/openclaw-cross-os-release-checks.ts:3771-3820 | every chunk is recorded, the timeout kills once and has a wait of 15 seconds follow, and the child is unregistered at its error or close |
| `CommandSupervisor.HearsAll` | scripts/openclaw-cross-os-release-checks.ts:3801-3810 | what a run has heard is what the child wrote, and its clock the time that went by |
| `CommandSupervisor.TimeoutIsOnTime` | scripts/openclaw-cross-os-release-checks.ts:3771-3787 | an open run has timed out exactly when its timeout fires at or after the time it was given |
| `CommandSupervisor.SettledIsFinal` | scripts/openclaw-cross-os-release-checks.ts:3742-3750 | no later event changes the result or how much output it is about |
| `CommandSupervisor.ResolvesWithTail` | scripts/openclaw-cross-os-release-checks.ts:3822-3843 | whatever comes later, a promise that resolved gives the tails of what stdout and stderr had got at the very event that settled it |
| `CommandSupervisor.SettlingLeavesTimer` | scripts/openclaw-cross-os-release-checks.ts:3730-3787 | settling leaves no timer unless it happens inside the timeout's own kill |
| `CommandSupervisor.TimeoutCanOutliveSettling` | scripts/openclaw-cross-os-release-checks.ts:3771-3787 | for every timeout a run in which it does |
| `CommandSupervisor.SuccessMayBeTruncated` | scripts/openclaw-cross-os-release-checks.ts:3817-3844 | exit code 0 resolves with the whole stdout if and only if it fits the limit, with its tail otherwise |
| `CommandSupervisor.TruncatedSuccess` | scripts/openclaw-cross-os-release-checks.ts:3680-3695 | every output longer than the limit can be reported as a success with its tail only |
| `ArgumentScanner.QuoteScanState.BeginQuotedSection` | scripts/check-temp-path-guardrails.ts:46-52 | exactly the three quote characters open a quoted section |
| `ArgumentScanner.QuoteScanState.ConsumeQuotedChar` | scripts/check-temp-path-guardrails.ts:54-70 | a character is consumed exactly inside quotes and moves the quote state as `Advance` does |
| `ArgumentScanner.FindMatchingParen` | scripts/check-temp-path-guardrails.ts:72-95 | for every text, the first position at which the code after the parenthesis has closed it, and -1 if and only if there is none |
| `ArgumentScanner.SplitTopLevelArguments` | scripts/check-temp-path-guardrails.ts:97-161 | the loop with its counters and quote record computes the scan `Scan` and its trimmed pieces |
| `ArgumentScanner.SplitConserves` | scripts/check-temp-path-guardrails.ts:97-161 | for every text the untrimmed pieces joined with commas are the text |
| `ArgumentScanner.DepthsAre` | scripts/check-temp-path-guardrails.ts:104-149 | for every text, however unbalanced, the three counters tell how much higher it is in brackets of their kind than at its lowest, stray closing ones not counting |
| `ArgumentScanner.CutsExactly` | scripts/check-temp-path-guardrails.ts:103-156 | every text is cut exactly at its commas of code outside all open brackets, and nothing else is dropped |
| `ArgumentScanner.SplitInvertsPrint` | scripts/check-temp-path-guardrails.ts:97-161 | any list of arguments built from code, escaped quoted strings and nested groups, blank ones included and however padded, comes back trimmed, except that a blank last one is dropped |
| `ArgumentScanner.TrailingCommaIsDropped` | scripts/check-temp-path-guardrails.ts:157-160 | a trailing comma adds no argument |
| `ArgumentScanner.LevelArguments` | scripts/check-temp-path-guardrails.ts:72-95 | a printed argument list never closes a parenthesis it did not open and ends outside quotes |
| `ArgumentScanner.ReadCall` | scripts/check-temp-path-guardrails.ts:72-161 | whatever stands around a printed call, its closing parenthesis is found and its arguments are recovered |
| `ReadPool.ReadRuntimeSourceFiles` | scripts/check-temp-path-guardrails.ts:222-262 | for every interleaving of the workers, at most 24, the pool terminates, hands out 0, 1, 2, ... once each and returns what reading the paths in order returns |
| `ReadPool.ClaimKeepsProgress` | scripts/check-temp-path-guardrails.ts:232-241 | a worker taking an index keeps what is known of all workers |
| `ReadPool.ReadKeepsProgress` | scripts/check-temp-path-guardrails.ts:242-252 | so does a worker whose read returns |
| `ReadPool.KeepDefined` | scripts/check-temp-path-guardrails.ts:261 | leaving out entries never written gives the sequential result |
| `ReadPool.FilesAre` | scripts/check-temp-path-guardrails.ts:238-261 | the files returned are those of exactly the readable, named paths, in their order, each with its relative path and the source read |
| `ProcessTree.Index` | scripts/bench-gateway-restart.ts:947-964 | the two maps hold each process's children in order and its last listed CPU time |
| `ProcessTree.TreeIs` | scripts/bench-gateway-restart.ts:949-964 | a process is below another exactly when a row with a CPU time says so, process 0 being below none |
| `ProcessTree.CpuTimesAre` | scripts/bench-gateway-restart.ts:957-960 | a process has a time exactly when some row gives one, and then the last such row's |
| `ProcessTree.SumTree` | scripts/bench-gateway-restart.ts:969-983 | the stack loop visits exactly the processes reachable from the root, each counted once |
| `ProcessTree.ReadProcessTreeCpuMs` | scripts/bench-gateway-restart.ts:935-984 | for every listing, cyclic or repeating, a total is given exactly for a listed root and is the sum over the reachable non-zero processes |
| `LineFraming.SplitIsSplit` | scripts/bench-gateway-restart.ts:1065-1071 | putting the line ends back gives the text, no part has a line feed, and a CR before an LF always belongs to the line end |
| `LineFraming.SplitIsUnique` | scripts/bench-gateway-restart.ts:1065-1071 | only one list of lines does that |
| `LineFraming.SplitAppend` | scripts/bench-gateway-restart.ts:1065-1071 | splitting a longer text continues from the last part of the shorter one, also between CR and LF |
| `LineFraming.ChunksDoNotMatter` | scripts/bench-gateway-restart.ts:1065-1071 | for every way of cutting a stream, the lines and the carry are those of splitting it whole |
| `LineFraming.LineBuffers.OnChunk` | scripts/bench-gateway-restart.ts:1355-1366 | the lines of the two streams, arriving in any order, are those of each stream's own output |
| `LineFraming.LineBuffers.Flush` | scripts/bench-gateway-restart.ts:1073-1090 | a partial flush hands over exactly the unfinished lines, stdout first; any other does nothing |
| `RestartProbe.StateKeyIsInjective` | scripts/bench-gateway-restart.ts:659 | the key the loop compares tells all attempts apart |
| `RestartProbe.WaitForRestartProbe` | scripts/bench-gateway-restart.ts:622-707 | for every trace the loop ends at the first recovery or stop and not before; transitions are the trace with adjacent equal states merged, downtime is given exactly when a 200 follows a non-200 and is the time between the first of each, and the recovery time is given exactly when the service came back or was never seen down and once seen up |
| `RestartProbe.Observe` | scripts/bench-gateway-restart.ts:655-683 | after one more attempt the variables tell whether it is a recovery; if not they fit all attempts so far, otherwise the result they make reports them |
| `RestartProbe.GoesOn` | scripts/bench-gateway-restart.ts:640-696 | an attempt ends the loop with a true report if it is the first recovery, and otherwise the loop goes on with variables true of all attempts |
| `RestartProbe.Stops` | scripts/bench-gateway-restart.ts:640-654 | the tests before an attempt stop the loop exactly when they should, with a true report |
| `RestartProbe.TransitionsReplay` | scripts/bench-gateway-restart.ts:660-674 | after any number of attempts the last transition tells the current state, and none repeats the one before |
| `RestartProbe.TransitionsAre` | scripts/bench-gateway-restart.ts:660-674 | there is one transition for each attempt whose state is new, in order, with its time and state |
| `RestartProbe.FirstErrorIs` | scripts/bench-gateway-restart.ts:675-677 | the first error is the status or kind of the first attempt that is not a 200 |
| `RestartProbe.DowntimeIsNotNegative` | scripts/bench-gateway-restart.ts:684-694 | a downtime reported from attempts in order of time is not negative |
| `RestartSamples.RunGatewaySample` | scripts/bench-gateway-restart.ts:1368-1512 | only the last iteration can have failed and then gives the sample its code, the code is the first thing that went wrong from start-up to cleanup, and a child gone before a restart leaves no iteration for it |
| `RestartSamples.FirstFailureIs` | scripts/bench-gateway-restart.ts:1368-1512 | a sample's code is that of the first check that fails in the list of all of them, from start-up through every round to the teardown |
| `RestartSamples.RoundFailureIs` | scripts/bench-gateway-restart.ts:1123-1146 | a round fails with the first of its seven checks that does |
| `RestartSamples.FailedOnce` | scripts/bench-gateway-restart.ts:492-497 | a sample adds one to the numerator if it failed and nothing otherwise |
| `RestartSamples.FailuresAreSamples` | scripts/bench-gateway-restart.ts:492-502 | failed iterations and samples failed outside them together number the failed samples |
| `RestartSamples.UnitsAre` | scripts/bench-gateway-restart.ts:493-498 | the units are the iterations of all samples and one more for each sample that failed although none of its iterations did |
| `RestartSamples.FirstCodeIsASamples` | scripts/bench-gateway-restart.ts:499-502 | falling back to the iterations never finds a code the samples do not have, and there are at least as many units as failed samples |
| `RestartSamples.SummaryCountsSamples` | scripts/bench-gateway-restart.ts:492-517 | the summary's numerator is the number of failed samples and its code the first failed sample's |
| `RestartSamples.SummaryIsFair` | scripts/bench-gateway-restart.ts:492-517 | the rate lies between 0 and 1, and is positive, and a code given, exactly when some sample failed |
| `RestartSamples.BenchmarkFailsWithSome` | scripts/bench-gateway-restart.ts:1591-1595 | the benchmark fails exactly when some sample of some case failed |
| `ImportClosure.ResolveInstalledDistRelativeImport` | scripts/openclaw-npm-postpublish-verify.ts:227-261 | what an import resolves to lies inside the distribution and exists |
| `ImportClosure.FirstInstalledIs` | scripts/openclaw-npm-postpublish-verify.ts:247-258 | it is the first candidate that does, and there is none exactly when no candidate does |
| `ImportClosure.FollowImports` | scripts/openclaw-npm-postpublish-verify.ts:297-312 | the first zod import of a file ends the check; without one all resolved imports are followed, which are those `ImportsAre` states |
| `ImportClosure.ImportsAre` | scripts/openclaw-npm-postpublish-verify.ts:227-261 | a file leads to another in the graph that is walked if and only if it parses and has a relative import whose first candidate that exists inside the distribution is that file |
| `ImportClosure.CheckFile` | scripts/openclaw-npm-postpublish-verify.ts:277-312 | checking a file finds its fault and where its imports lead |
| `ImportClosure.FaultIs` | scripts/openclaw-npm-postpublish-verify.ts:277-312 | a file has no fault if and only if it is there, sound, parses and imports neither zod nor anything below it; its fault is the first that applies, naming the file and the first such import |
| `ImportClosure.WalkImports` | scripts/openclaw-npm-postpublish-verify.ts:267-316 | the worklist visits only reachable files, all of them if it finds no fault |
| `ImportClosure.CollectInstalledPluginSdkZodArtifactErrors` | scripts/openclaw-npm-postpublish-verify.ts:263-316 | on any finite, possibly cyclic package the check terminates, looks only inside the distribution, and returns no error if and only if every file linked from the entry by relative imports is there, sound, parses and does not import zod; an error is the fault of a linked file |
| `ImportClosure.ReachableIsLinked` | scripts/openclaw-npm-postpublish-verify.ts:267-312 | reachable in the graph is the same as linked by a chain of imports |
| `ImportClosure.GraphIsInstalled` | scripts/openclaw-npm-postpublish-verify.ts:247-258 | every edge of the import graph leads to a file inside the distribution |
| `ImportClosure.ReachableIsInstalled` | scripts/openclaw-npm-postpublish-verify.ts:277-279 | only the entry can be missing, as the message of that error assumes |
| `LabelBatches.FetchOpenLabelItemBatches` | scripts/label-open-issues.ts:528-588 | for any pages and limit the batches are the first wanted items cut every 500, numbered from 1, each with the count fetched by then |
| `LabelBatches.TakePage` | scripts/label-open-issues.ts:554-570 | a page is taken over in order as far as the limit allows and no further |
| `LabelBatches.EmitOne` | scripts/label-open-issues.ts:558-569 | one more node keeps the batches and the open rest those of the items fetched |
| `LabelBatches.LastBatch` | scripts/label-open-issues.ts:580-587 | the rest, if any, makes the one batch that may be short |
| `LabelBatches.FetchedPage` | scripts/label-open-issues.ts:543-578 | after one more page, what was taken starts what is offered and leaves out nothing the limit still allows |
| `LabelBatches.FetchedAll` | scripts/label-open-issues.ts:543-578 | when the loop ends, exactly the wanted items were taken |
| `LabelBatches.WantedIsUnique` | scripts/label-open-issues.ts:543-557 | the count the two limit tests stop at is the only one below which all counts are below the limit |
| `LabelBatches.OfferedIs` | scripts/label-open-issues.ts:554-577 | what the pages offer are all nodes of the pages up to the first that has no next one, in order |
| `LabelCheckpoints.RunAudit` | scripts/label-open-issues.ts:846-983 | the batch loop with its skips, saves and interruption computes `Audit`; what that comes to is stated by `RunsAsFarAsPaid` |
| `LabelCheckpoints.RunsAsFarAsPaid` | scripts/label-open-issues.ts:846-983 | for every plan, torn or not, dry or not: a run is interrupted if and only if it has fewer steps than its batches call for, one for every pending item and one for each save; with enough it has processed and saved exactly all items; with fewer it stops where they run out, with exactly the items and saves paid for, unless the save it stops in is torn |
| `LabelCheckpoints.AuditBatchIs` | scripts/label-open-issues.ts:851-906 | what one batch makes of any run: nothing if nothing is pending, an interruption in its items or its save, or all processed and saved |
| `LabelCheckpoints.ProcessAllSteps` | scripts/label-open-issues.ts:859-901 | items are processed in order, a step each |
| `LabelCheckpoints.FilterPending` | scripts/label-open-issues.ts:851 | the items done before are skipped |
| `LabelCheckpoints.PendingAppend` | scripts/label-open-issues.ts:851 | item by item, the order kept |
| `LabelCheckpoints.EveryRunIsSafe` | scripts/label-open-issues.ts:846-983 | wherever a run is interrupted: what is saved was loaded or processed, a dry run saves nothing, everything processed is saved between batches, and unless the save itself is torn at most one batch of finished work is lost |
| `LabelCheckpoints.CheckpointsGrow` | scripts/label-open-issues.ts:903-906 | successive checkpoints of one run only grow, up to a torn save |
| `LabelCheckpoints.CompleteRunSavesAll` | scripts/label-open-issues.ts:846-983 | a completed run saves all it was given and keeps all it loaded |
| `LabelCheckpoints.CheckpointsAreSafe` | scripts/label-open-issues.ts:370-412 | over any sequence of runs and crashes no number is saved that was not there or processed, none is lost without a torn save, and dry runs change nothing |
| `LabelCheckpoints.LosesExactlyWhenTorn` | scripts/label-open-issues.ts:401-404 | a run loses checkpoints if and only if there are some, it is not a dry run, and it is interrupted, after exactly as many steps as lead to a save by the batches and what was loaded, by a save that is torn |
| `LabelCheckpoints.UnreadableWhenDue` | scripts/label-open-issues.ts:858-906 | a torn run leaves an unreadable file exactly when its steps lead to a save |
| `LabelCheckpoints.TornSaveCanLose` | scripts/label-open-issues.ts:401-404 | any file with checkpoints can lose all of them to one new item |
| `SparkleBuild.FloorsAreFields` | scripts/sparkle-build.ts:37-52 | the concatenated digits are the date, the date times 10, and the date times 100 plus the lane |
| `SparkleBuild.ParsePad2` | scripts/sparkle-build.ts:37-51 | appending a number padded to two digits multiplies by 100 and adds it |
| `SparkleBuild.BuildsFollowVersions` | scripts/sparkle-build.ts:14-57 | builds of any two version texts compare as dates first and lanes second, and are equal exactly when both are |
| `SparkleBuild.ReleaseBeatsSuffixed` | scripts/sparkle-build.ts:40-49 | a version without suffix has a higher build than every suffixed one of its date |
| `SparkleBuild.ParseInvertsRender` | scripts/sparkle-build.ts:12-36 | every date from year 1000 on and every suffix is read back from its text |
| `SparkleBuild.LanesBeatLegacyFloors` | scripts/sparkle-build.ts:37-51 | a lane build exceeds the legacy floors of all versions if and only if its year is 1000 or later |
| `SparkleBuild.LaneIs` | scripts/sparkle-build.ts:40-49 | a suffix that ends in a numeral has that number as its lane, at most 89, and any other has lane 1 |
| `SparkleBuild.ParsesExactly` | scripts/sparkle-build.ts:12-36 | a text is a version if and only if it spells a four-digit year, a month and a day of one or two digits each and a suffix on one line, and it is that one |

## Left out

- The file system, git, gh, HTTP, language model calls, sockets and real processes: events and answers are arbitrary parameters.
- SHA-256: a cache key is its four parts, so that different parts give different keys; the digest of a text may be any function.
- The sync compares parsed files, not their text; time stamps, `source_path`, the glossary file, rendering, formatting and sorting are not modelled, the ledger is a set, and the order of memory records is arbitrary.
- Source and flattened keys are those of plain objects: JavaScript's ordering of integer-like names and names with a meaning on every object are not modelled.
- A source whose keys cannot be nested and read back: convergence is stated for the others; `LedgerIsExact` shows that such a source has no exact ledger.
- `TranslationKeys.SetNestedValue`: works on lists of fields as values, so objects shared between callers are not modelled.
- Retry delays, progress logging, prompt texts and the closing of provider clients: they affect no result.
- The last part of `syncLocale`, from the placeholder test to the writing, is a function (`TranslationSync.Finish`), since it has no loop of its own; writing the four files is one step.
- `ProcessSupervisor.Step`: a second error event, which would have no listener, has no effect here; the texts of errors and the wording put in front of a truncated output are not modelled; the tool raising a passed-on signal against itself ends the run.
- `CommandSupervisor.Step`: the log stream, the heartbeat's text and the process exit after a forwarded signal are not modelled; killing the child is one step.
- That signalling a child alone can raise its error event at once is taken from how Node reports such failures; nothing else about Node is assumed.
- `OutputCapture.CommandAppendKeepsTail`: units are one byte each; what decoding makes of a multi-byte character cut in two is not modelled.
- `ArgumentScanner.SplitTopLevelArguments`: characters are units; a character outside the basic plane is appended whole in the source, which gives the same text.
- The TypeScript and acorn parsers, the temp path patterns, path joining and normalising: a file's imports and an import's candidates are arbitrary functions.
- `ReadPool.ReadRuntimeSourceFiles`: the answer to a read may depend on its path and position, not on when it is asked.
- The initial health probe, trace and log parsing, resource slopes and number summaries of the restart benchmark.
- `RestartProbe.WaitForRestartProbe`: time is an integer given with each attempt; whether the deadline has passed is the end of the trace.
- `ProcessTree.ReadProcessTreeCpuMs`: CPU times are whole milliseconds; reading a listing row is not modelled.
- Counters, classification and the labels put on issues; a pull request that already has the skill label counts as processed like any other.
- The state file's format: it is readable or not, and a torn write leaves it unreadable.
- The command line of the build number script, and everything reached through imports of other files (connected components, publish plans, mobile versions).
