# Goyais hub: a verified model

This project models the core of the Goyais hub (`services/hub`, written in Go) in Dafny and proves
properties of the model. `dafny verify dfyconfig.toml` checks all of it.

The hub keeps conversations with coding agents. A conversation has a queue of runs of which at most one
is active, messages, and snapshots it can be rolled back to. Runs report the files they change; these
reports are merged per run and, at the same time, folded into a change ledger that can be committed or
discarded. All of it is told to clients as a stream of events.

## How it is modelled

- **State that the hub changes in place is a class.** `QueueState.AppState`, `Ledger.ChangeLedger`,
  `ChangeSets.SessionChanges`, `Restore.WorkingTree`, `EventStore.EventStore` with its `Channel`s,
  `Frames.Pipe`, `ProjectConfig.ConfigTable` and `Policy.Authorizer` hold the fields, and their methods are
  the locked sections and loops of the code. Each method is proved to do what a function on values says.
- **The functions on values** (`QueueModel`, `Ledger.Upsert`, `ChangeSets.Applied`, `EventStream.Next`, ...)
  say what one section does. The theorems are about them: invariants over every run, refinement of one
  form by another, round trips, and exact conditions where a property fails.
- **A loop over a Go map** takes its entries in any order. Where the order can show in the result, the
  method is told by a relation, and `ProjectConfig.CleaningIsDeterminedExactly` says when it does.

| files | about |
|---|---|
| `QueueModel`, `QueueInvariant`, `QueueSteps`, `QueueRuns`, `QueueUndo`, `QueueSnapshots`, `QueueState` | the run queue with snapshots and rollback |
| `QueueEffects`, `QueueFates` | what every step of the queue leads to, and how runs end |
| `Paths`, `Diffs`, `DiffSummary` | paths, diff items and their merge |
| `Ledger`, `LedgerChange`, `LedgerRebuild`, `LedgerInterleave` | the change ledger, incremental and rebuilt |
| `RollbackLedger`, `LedgerRuns`, `RollbackTree` | what a rollback leaves in the ledger and in the files |
| `ChangeSets`, `ChangeVersions`, `ChangeOverlap`, `ChangeHistory` | commit and discard with an optimistic version, and the event log |
| `Restore`, `Undo` | discarding changes in a working tree |
| `EventStream`, `EventStore` | event log, subscribers and channels |
| `Frames`, `Decimal` | Content-Length frames |
| `TaskMetadata`, `TaskFields` | metadata of run tasks, and how it is read |
| `ProjectConfig`, `Policy`, `Selection`, `Paging`, `Names`, `Ordering`, `Text`, `Basics` | smaller algorithms and what they share |

## What is assumed

- Ids that the hub draws at random (`exec_`, `cs_`, `sub_`, ...) are new and have no blanks. They are inputs
  of the steps (a diff item brings the id it would draw, `drawnId`); the sets `issued` and `drawn` and the
  predicate `Fresh` say that they are new, also with regard to ids of things that were deleted.
- Time stamps of snapshots are numbers of seconds; other time stamps are left out or inputs.
- Run ids reach the queue without blanks around them, so trimming them again does nothing.
- One step is one section that holds the state lock. Events that such a section appends are steps of
  `ChangeVersions` and `EventStream`, not of the queue.

## What the proofs found

Where the code does not do what one would expect, the model follows the code and a lemma says when.

- The queue trusts late runtime events. After a conversation stop, an approval request of the stopped run
  revives it beside the run that took its place (`QueueSteps.LateEventRevivesStoppedRun`); exactly such
  events break the invariant (`QueueSteps.ProjectEventKeepsExactly`).
- Snapshots that name deleted runs can survive a rollback, and `QueueSnapshots.NoneStaleAfterExactly` says
  exactly when: snapshots of the same second (`QueueRuns.StaleSnapshotSurvives`), or all later ones when the
  rollback goes to a message without a snapshot (`QueueSnapshots.AnswerRollbackLeavesStale`). Otherwise none
  ever does (`QueueSnapshots.NeverStaleOverRuns`), and a rollback to a stale one still cuts to a prefix
  (`QueueRuns.RollbackIsTruncation`).
- The diffs kept per run keep the last blob from before, the ledger the first, so a rebuild can differ
  (`LedgerRebuild.RebuildAgreesExactly`), and so it can when runs interleave
  (`LedgerInterleave.InterleavedAgreesExactly`, over whole runs `LedgerRuns.RollbackOverRunsExactly`).
- A rollback in a project without version control undoes files with the first blob of the whole set, so it can
  undo the work of kept runs, too (`RollbackTree.RollbackRestoresTreeExactly`, `RollbackTree.KeptWorkIsLost`).
- A replay of the event log after a restart loses what a rollback had kept
  (`ChangeVersions.ReplayAfterRollbackExactly`): diffs per run are only filled in after the replay.
- Nothing reserves a version: until something moves it, more commits that expect it are accepted
  (`ChangeOverlap.SecondCommitAcceptedExactly`, `ChangeOverlap.OneVersionCommittedTwice`). Diffs that arrive
  while a commit's driver works are lost unless they only repeat what is there
  (`ChangeOverlap.LateDiffsAreLostExactly`, `ChangeOverlap.LateRunIsLostExactly`).
- A rollback after a commit brings committed entries of the kept runs back
  (`RollbackLedger.CommittedEntriesReturnExactly`).
- A file that was made and then modified with an accurate blob stays after a discard; a file whose blob was
  never carried is removed (`Undo.MadeFilesAreRemovedExactly`, `Undo.LostWithoutBlob`). Where a file and a
  directory took each other's place, a discard fails (`Undo.FileBecameDirectoryFails`,
  `Undo.DirectoryBecameFileFails`).
- Path normalisation is not idempotent (`Paths.NormalizePathStableExactly`, `Paths.NormalizePathNotStable`).
- A threshold given for a default model that is not in the list of models is dropped
  (`ProjectConfig.DefaultThresholdExactly`).
- The shipped policy against high-risk administration by non-admins does not depend on the role, so it
  denies admins, too (`Policy.DenyNonAdminsAppliesExactly`, `Policy.DenyNonAdminsDeniesAdmins`).
- Task states `running` and `executing` change places each time they are read
  (`TaskMetadata.StateReadTwiceExactly`).

## Model

| member | source | states |
|---|---|---|
| QueueRuns.InvariantOverRuns | services/hub/internal/httpapi/handlers_execution_flow.go:228-469 | after any sequence of hub steps from the empty hub, every conversation lists its live runs once, in increasing queue index, with at most one ongoing run, everything before it over and everything after it queued or over, and the status is idle exactly when no run is active |
| QueueRuns.RollbackIsTruncation | services/hub/internal/httpapi/handlers_execution_flow.go:366-469 | a successful rollback cuts the order list to a prefix, deletes exactly the runs behind it, keeps the others and every other conversation and all open questions unchanged, keeps the active run exactly when it is in the prefix, leaves running or idle accordingly, and keeps the messages of the snapshot gone back to and the snapshots not later than it; stored, stale and made-up snapshots alike |
| QueueRuns.ActivationOrder | services/hub/internal/httpapi/handlers_execution_flow.go:848-886 | first in, first out: between two rollbacks, over any run, the runs that become active have strictly increasing queue indices |
| QueueRuns.SubmitIsLast | services/hub/internal/httpapi/handlers_composer_input.go:375-447 | a new run goes behind all others, with an index above theirs, and becomes active exactly when none was |
| QueueRuns.SubmitStatusExactly | services/hub/internal/httpapi/handlers_composer_input.go:438-443 | the status written is the derived one exactly when the run could start at once; behind an active run the code writes that the conversation waits |
| QueueUndo.RollbackRestoresSubmit | services/hub/internal/httpapi/handlers_execution_flow.go:366-469 | a rollback to a message that started a run undoes everything after that submit, whatever steps those were: order list and messages are those right after it, and the listed runs are the ones there were, in their places |
| QueueRuns.RollbackTwice | services/hub/internal/httpapi/handlers_execution_flow.go:432-449 | a second rollback to the same stored snapshot, at whatever time, changes nothing |
| QueueRuns.RollbackWithoutSnapshot | services/hub/internal/httpapi/handlers_execution_flow.go:897-949 | without a stored snapshot a rollback keeps the messages up to the given one and exactly the runs whose index is at most the one the message stands for, or all of them when it stands for none |
| QueueSnapshots.NoneStaleAfterExactly | services/hub/internal/httpapi/handlers_execution_flow.go:432-444 | after a rollback no stored snapshot names a deleted run exactly when, among those not later than the snapshot gone back to, none did before and none names more runs than that one has left |
| QueueSnapshots.FallbackPrunesNothing | services/hub/internal/httpapi/handlers_execution_flow.go:897-969 | a rollback without a stored snapshot is dated now, so it prunes nothing and leaves a stale snapshot exactly when there was one or one names more runs than are kept |
| QueueSnapshots.NeverStaleOverRuns | services/hub/internal/httpapi/handlers_execution_flow.go:961-969 | over any run with snapshots of a conversation in different seconds and rollbacks to stored snapshots only, no snapshot ever names a deleted run, and later ones name at least as many runs |
| QueueSnapshots.AnswerRollbackLeavesStale | services/hub/internal/httpapi/handlers_execution_flow.go:897-969 | a case where one does in another second: a question answered, a run submitted, a rollback to the answer |
| QueueRuns.StaleSnapshotSurvives | services/hub/internal/httpapi/handlers_execution_flow.go:961-969 | a case in the same second: two submits and a rollback to the first leave the second snapshot, which names the deleted run |
| QueueRuns.StepKeeps | services/hub/internal/httpapi/handlers_run_control.go:101-380 | every step whose ids are new and whose event is timely keeps the invariant |
| QueueFates.FateOverRuns | services/hub/internal/httpapi/run_event_projector.go:258-297 | how a run stands follows from the steps alone: over any run of timely steps it is completed, failed or cancelled exactly as the last step that ended it says (it finished; it erred or could not be started; it was stopped, denied or its conversation stopped), and one that no step ended is not over |
| QueueEffects.ControlOutcomeExactly | services/hub/internal/httpapi/handlers_run_control.go:101-331 | which controls are accepted, by action, state, lane and answer, and exactly which refusal the others get; a refusal changes nothing |
| QueueEffects.ControlLeadsTo | services/hub/internal/httpapi/handlers_run_control.go:141-305 | the state after every accepted control: a stop, or a denial of a run that does not wait for approval, cancels; a run that waits for approval or input goes on executing; a queued one becomes pending; a pending or executing one stays |
| QueueEffects.ControlLetsRun | services/hub/internal/httpapi/handlers_run_control.go:154-380 | an accepted control that does not cancel gives its run the lane and touches no other run; an answer becomes a message of the user that stands for the run |
| QueueEffects.ControlCancels | services/hub/internal/httpapi/handlers_run_control.go:264-305 | cancelling the active run hands the lane to the first queued run behind it, or leaves the conversation idle; cancelling a queued one changes no other run |
| QueueEffects.EventLeadsTo | services/hub/internal/httpapi/run_event_projector.go:258-297 | the state every runtime event gives its run |
| QueueEffects.EventAdvances | services/hub/internal/httpapi/run_event_projector.go:258-388 | an event that ends the active run hands its lane on; any other changes no other run and no conversation |
| QueueEffects.EventAsks | services/hub/internal/httpapi/run_event_projector.go:227-297 | the open questions after an event: asked, resolved or closed with the run, and no question of another run touched |
| QueueEffects.DerivedExactly | services/hub/internal/httpapi/handlers_execution_flow.go:862-872 | the derived status: running with an active run, else waiting exactly when a listed run is queued, else idle |
| QueueEffects.FailLeadsTo | services/hub/internal/httpapi/run_execution_dispatcher.go:433-473 | a run that could not be started fails and hands its lane on, unless it is over |
| QueueEffects.StopLeadsTo | services/hub/internal/httpapi/handlers_execution_flow.go:228-270 | a conversation stop cancels the active run alone and hands its lane on; without one it changes nothing |
| QueueEffects.SubmitLeadsTo | services/hub/internal/httpapi/handlers_composer_input.go:375-447 | a submit makes one run, one beyond the largest index, one message and one snapshot of both lists, and touches nothing else |
| QueueEffects.CommandLeadsTo | services/hub/internal/httpapi/handlers_composer_input.go:604-647 | a command leaves a message of the user and one of the system, neither of which stands for a run, and a snapshot |
| QueueEffects.CreateLeadsTo | services/hub/internal/httpapi/handlers_project_conversations_config.go:147-168 | a new conversation is idle and empty, and nothing else changes |
| QueueEffects.DeleteLeadsTo | services/hub/internal/httpapi/handlers_conversation_by_id.go:272-297 | deleting a conversation deletes exactly its runs and touches nothing of the others |
| QueueEffects.SyncLeadsTo | services/hub/internal/httpapi/handlers_project_conversations_config.go:329-387 | which conversations and which runs get which model, and which runs start again |
| QueueEffects.RollbackOutcomeExactly | services/hub/internal/httpapi/handlers_execution_flow.go:338-364 | which rollbacks are refused, and how; a refused one changes nothing |
| QueueEffects.StandsFor | services/hub/internal/httpapi/handlers_execution_flow.go:905-927 | a message stands for its own index or, without one, for the largest among the messages up to it |
| QueueEffects.RollbackKeepsOthers | services/hub/internal/httpapi/handlers_execution_flow.go:427-469 | every control of a run of another conversation, also the answer to its open question, gets the outcome it would have got before the rollback |
| QueueInvariant.SubmitKeeps | services/hub/internal/httpapi/handlers_composer_input.go:375-447 | submit keeps the queue invariant |
| QueueInvariant.CommandKeeps | services/hub/internal/httpapi/handlers_composer_input.go:604-647 | a command result keeps the queue invariant; its snapshot names the current runs |
| QueueSteps.StopKeeps | services/hub/internal/httpapi/handlers_execution_flow.go:228-270 | stopping a conversation keeps the queue invariant |
| QueueSteps.FailKeeps | services/hub/internal/httpapi/run_execution_dispatcher.go:433-473 | failing a run that could not be started keeps the queue invariant |
| QueueSteps.ControlKeeps | services/hub/internal/httpapi/handlers_run_control.go:123-380 | every run control keeps the queue invariant, although stop starts the next run before it writes the cancelled one |
| QueueSteps.CancelEndsRun | services/hub/internal/httpapi/handlers_run_control.go:264-305 | cancelling while the queue advances first is the same as ending the run first |
| QueueSteps.ControlTargets | services/hub/internal/httpapi/handlers_run_control.go:141-305 | an accepted control acts on the active run or cancels a queued one, and cancels exactly when it is a stop or the denial of a run that does not wait for approval |
| QueueSteps.ControlSettlesQuestion | services/hub/internal/httpapi/handlers_run_control.go:372-377 | an accepted control leaves no open question of its run and no other question touched |
| QueueSteps.StopLeavesQuestion | services/hub/internal/httpapi/handlers_execution_flow.go:235-258 | stopping a conversation leaves the open question of the stopped run, but no answer to it is accepted any more |
| QueueSteps.ProjectEventKeepsExactly | services/hub/internal/httpapi/run_event_projector.go:258-297 | a projected runtime event keeps the invariant exactly when it does not make a run other than the active one ongoing |
| QueueSteps.LateEventRevivesStoppedRun | services/hub/internal/httpapi/run_event_projector.go:275-283 | the code has no such guard: after a stop, a late approval request of the stopped run leaves two ongoing runs |
| QueueSteps.ChosenSnapshotFits | services/hub/internal/httpapi/handlers_execution_flow.go:888-949 | whichever snapshot a rollback chooses, its live runs are a prefix of the order list |
| QueueSteps.CutKeepsSnapshot | services/hub/internal/httpapi/handlers_execution_flow.go:444-444 | a snapshot that fitted the order list fits it after it was cut |
| QueueSteps.RollbackKeeps | services/hub/internal/httpapi/handlers_execution_flow.go:366-469 | rollback keeps the queue invariant |
| QueueSteps.SyncKeeps | services/hub/internal/httpapi/handlers_project_conversations_config.go:329-387 | rewriting the model of all live runs of a project keeps the queue invariant |
| QueueSteps.DeleteKeeps | services/hub/internal/httpapi/handlers_conversation_by_id.go:272-297 | deleting a conversation keeps the queue invariant of all others |
| QueueState.AppState.DeriveNextQueueIndex | services/hub/internal/httpapi/handlers_execution_flow.go:848-860 | the loop returns one more than the largest index in the order list |
| QueueState.AppState.DeriveState | services/hub/internal/httpapi/handlers_execution_flow.go:862-872 | running with an active run, else waiting exactly when some listed run is queued, else idle |
| QueueState.AppState.StartNextQueued | services/hub/internal/httpapi/handlers_execution_flow.go:874-886 | the first queued run of the order list becomes pending, and nothing else changes |
| QueueState.AppState.CreateSession | services/hub/internal/httpapi/handlers_project_conversations_config.go:147-168 | a new conversation is idle, without runs, messages or snapshots, and nothing else changes |
| QueueState.AppState.SubmitRun | services/hub/internal/httpapi/handlers_composer_input.go:375-447 | the whole new state of the hub after a submit |
| QueueState.AppState.AppendCommandResult | services/hub/internal/httpapi/handlers_composer_input.go:604-647 | the whole new state after a command result, or the missing conversation |
| QueueState.AppState.StopSession | services/hub/internal/httpapi/handlers_execution_flow.go:228-270 | the whole new state after a stop |
| QueueState.AppState.FailExecutionAndAdvanceQueue | services/hub/internal/httpapi/run_execution_dispatcher.go:433-473 | the whole new state after a failed start; nothing changes for an unknown or finished run |
| QueueState.AppState.ProjectRuntimeEvent | services/hub/internal/httpapi/run_event_projector.go:227-297 | the whole new state after a runtime event, including the questions; `QueueEffects.EventLeadsTo`, `EventAdvances` and `EventAsks` say what it is |
| QueueState.AppState.ControlRun | services/hub/internal/httpapi/handlers_run_control.go:101-380 | the whole new state and the outcome of every control in every state, including all refusals; `QueueEffects.ControlOutcomeExactly`, `ControlLeadsTo`, `ControlLetsRun` and `ControlCancels` say what they are |
| QueueState.AppState.FindStoredSnapshot | services/hub/internal/httpapi/handlers_execution_flow.go:888-895 | the latest snapshot of a message |
| QueueState.AppState.BuildSnapshotFromMessages | services/hub/internal/httpapi/handlers_execution_flow.go:897-949 | the snapshot made up from the messages when none is stored |
| QueueState.AppState.MaxQueueIndexOfMessages | services/hub/internal/httpapi/handlers_execution_flow.go:951-959 | the largest queue index of the messages, -1 for none |
| QueueInvariant.MaxMessageIndexBounds | services/hub/internal/httpapi/handlers_execution_flow.go:951-959 | no message carries a larger index than that, and some message carries it unless none does |
| QueueState.AppState.PruneSnapshots | services/hub/internal/httpapi/handlers_execution_flow.go:961-969 | the snapshots up to the given second, in order |
| QueueState.AppState.RollbackSession | services/hub/internal/httpapi/handlers_execution_flow.go:312-469 | the whole new state and outcome of a rollback; `QueueRuns.RollbackIsTruncation` and `QueueEffects.RollbackOutcomeExactly` say what they are |
| QueueState.AppState.SyncModelConfig | services/hub/internal/httpapi/handlers_project_conversations_config.go:329-387 | the whole new state after a model change, whatever order the maps yield |
| QueueState.AppState.DeleteSession | services/hub/internal/httpapi/handlers_conversation_by_id.go:272-297 | the whole new state after a deletion |
| Paths.NormalizedExactly | services/hub/internal/httpapi/handlers_execution_flow.go:782-788 | what a normalised path is: blanks around dropped, backslashes read as slashes, the components resolved, a leading slash kept, `.` for nothing left |
| Paths.RulesOfCleaning | services/hub/internal/httpapi/handlers_execution_flow.go:782-788 | anywhere in a path, empty components and `.` say nothing, `..` takes back the component before it and at a root says nothing; what no rule shortens stays |
| Paths.NormalizePathStableExactly | services/hub/internal/httpapi/handlers_execution_flow.go:782-788 | normalising a path twice is normalising it once exactly when, of the components left after resolving dots, the first starts without a blank (or a slash stands before it) and the last ends without one |
| Paths.NormalizePathNotStable | services/hub/internal/httpapi/handlers_execution_flow.go:782-788 | the path `a/../ b` is a case where it is not |
| Diffs.MergeDiffItems | services/hub/internal/httpapi/handlers_execution_events_internal.go:136-172 | the loop with its index map computes the merge of the normalised items |
| Diffs.NormalizeExactly | services/hub/internal/httpapi/handlers_execution_events_internal.go:100-134 | only an item without a path is dropped; the others get the drawn id and `File changed` where they say nothing, one of three change types and counts from 0 on |
| Diffs.NormalizeTwice | services/hub/internal/httpapi/handlers_execution_events_internal.go:100-134 | normalising a diff item is idempotent |
| Diffs.MergeAssociative | services/hub/internal/httpapi/handlers_execution_events_internal.go:136-172 | merging is associative |
| Diffs.MergeIdentity | services/hub/internal/httpapi/handlers_execution_events_internal.go:136-172 | what a merge produced is left alone by merging with nothing on either side |
| Diffs.MergeBatches | services/hub/internal/httpapi/handlers_execution_events_internal.go:136-172 | the result does not depend on the batches in which items arrive |
| DiffSummary.MergeContents | services/hub/internal/httpapi/handlers_execution_events_internal.go:136-172 | one item a path in first-seen order, each with the first id, the last change type, summary and counts, and the last blobs that were not empty |
| DiffSummary.BlobsExactly | services/hub/internal/httpapi/handlers_execution_events_internal.go:153-158 | which item the first and the last blobs of a path come from, told by positions |
| Ledger.ChangeLedger.UpsertEntry | services/hub/internal/httpapi/change_set_service.go:587-635 | the new entries and pending id after one diff item reached the ledger |
| Ledger.UpsertAllUnique | services/hub/internal/httpapi/change_set_service.go:598-634 | the ledger never holds two entries for one path |
| Ledger.LedgerDescribes | services/hub/internal/httpapi/change_set_service.go:587-635 | one entry a path in first-seen order, with the last run, message, change type, summary and counts, the first blob from before and the last from after |
| LedgerRebuild.RebuildAgreesExactly | services/hub/internal/httpapi/change_set_service.go:553-635 | the ledger rebuilt from the diffs kept per run equals the incremental one, entry for entry in order, exactly when for every path the first run that carries a blob from before ends with the blob it began with |
| LedgerRebuild.OneBlobSettles | services/hub/internal/httpapi/change_set_service.go:609-611 | in particular when no run changes its mind about a blob |
| LedgerRebuild.TwoBlobsDiffer | services/hub/internal/httpapi/handlers_execution_events_internal.go:153-155 | a run with two different first blobs makes the ledgers differ |
| LedgerInterleave.LedgersEqualExactly | services/hub/internal/httpapi/change_set_service.go:587-635 | two sequences of regular touches give one ledger exactly when they show the paths in one order and, path by path, have the same last touch, the same first blob from before and the same last blob from after |
| LedgerInterleave.OfRunIsItsChunk | services/hub/internal/httpapi/change_set_service.go:568-582 | an interleaving of runs is a log that has, run by run, the parsed events of that run in their order |
| LedgerInterleave.InterleavedAgreesExactly | services/hub/internal/httpapi/change_set_service.go:553-635 | however the events of the runs interleaved, the rebuilt ledger equals the incremental one exactly when the log shows the paths in the order of the runs and, for every path, the same run comes last, the first blob from before is the one the rebuild keeps and the last blob from after is the last in queue order |
| LedgerInterleave.LaterRunOvertakenDiffers | services/hub/internal/httpapi/change_set_service.go:568-582 | so an interleaving in which a run that is earlier in the queue touches a path last makes the ledgers differ |
| LedgerRebuild.RunDiffsMerge | services/hub/internal/httpapi/execution_events_store.go:16-38 | the diffs kept for a run are the merge of all items of its events |
| RollbackLedger.AppendFollows | services/hub/internal/httpapi/execution_events_store.go:12-38 | appending a diff event keeps the stored diffs of its run in step with its events |
| RollbackLedger.RollbackRebuildsExactly | services/hub/internal/httpapi/handlers_execution_flow.go:432-493 | after a rollback the ledger holds what folding only the kept runs' diff events gives, exactly when the kept runs settle every path; those events are a prefix of the log |
| RollbackLedger.CommittedEntriesReturnExactly | services/hub/internal/httpapi/change_set_service.go:553-585 | a commit leaves no entries but keeps the diffs, so after a later rollback a path is listed again exactly when a kept run has a diff for it, committed or not |
| LedgerRuns.AlwaysInStep | services/hub/internal/httpapi/execution_events_store.go:12-47 | over any run of queue steps, diff events, rollbacks and deletions, the diffs kept per run are what the events of the run merge to, and the log has for every run exactly its events |
| LedgerRuns.LogInterleaves | services/hub/internal/httpapi/execution_events_store.go:12-47 | in every reachable state the log of a conversation interleaves the events of its listed runs |
| LedgerRuns.RollbackOverRunsExactly | services/hub/internal/httpapi/handlers_execution_flow.go:432-493 | after any such run, a rollback leaves in the ledger what folding the touches of the kept runs in the order they came would give, exactly when they behave as if run by run: paths in that order, the same last run, the blob from before that the rebuild keeps, the same last blob from after |
| RollbackTree.EntriesToUndo | services/hub/internal/httpapi/handlers_execution_flow.go:393-400 | the loop selects the entries whose last run is deleted |
| RollbackTree.RollbackRestoresTreeExactly | services/hub/internal/httpapi/handlers_execution_flow.go:393-426 | the files after a rollback are those the kept runs had left if and only if, for every entry a deleted run touched last, nothing is in the way and either no kept edit carried a blob and undoing the deleted runs' edits alone would give the file back, or the first blob a kept edit carried still is the file |
| RollbackTree.KeptWorkIsLost | services/hub/internal/httpapi/change_set_service.go:609-611 | so a file that a kept run changed, and carried a blob for, goes back to before the kept runs |
| RollbackTree.RollbackParts | services/hub/internal/httpapi/handlers_execution_flow.go:375-392 | the runs a rollback deletes are those behind a prefix of the order list, so edits that came run by run are parted by it |
| ChangeSets.SessionChanges.CollectDiffRuns | services/hub/internal/httpapi/handlers_execution_flow.go:687-719 | the runs with diffs: those of the order list in order, then any others, each once |
| ChangeSets.SessionChanges.Rebuild | services/hub/internal/httpapi/change_set_service.go:553-585 | a new ledger with a new id, the old checkpoint and the entries of the diffs kept for the listed runs, then for any others of the conversation; under the queue invariant the order list alone decides |
| ChangeSets.SessionChanges.ApplyEvent | services/hub/internal/httpapi/change_set_service.go:481-551 | the new ledger after every kind of event |
| ChangeSets.SessionChanges.AppendEvent | services/hub/internal/httpapi/execution_events_store.go:12-47 | the event is logged, its diffs are kept for its run, and the ledger follows |
| ChangeSets.SessionChanges.BeginChange | services/hub/internal/httpapi/change_set_service.go:245-274 | the answer of the first section of commit and discard: busy, conflict, nothing pending, or the entries accepted; `ChangeOverlap.AnswersExactly` says when which |
| ChangeSets.SessionChanges.FinishCommit | services/hub/internal/httpapi/change_set_service.go:285-319 | the ledger and log after the second section of a commit |
| ChangeSets.SessionChanges.FinishDiscard | services/hub/internal/httpapi/change_set_service.go:393-409 | the ledger and log after the second section of a discard |
| ChangeSets.SessionChanges.BuildChangeSet | services/hub/internal/httpapi/change_set_service.go:659-717 | what is shown: id, sorted entries, and what may be done |
| ChangeSets.SessionChanges.RunsPending | services/hub/internal/httpapi/change_set_service.go:727-745 | busy exactly when some listed run is not over |
| ChangeSets.CheckpointTripExactly | services/hub/internal/httpapi/change_set_service.go:641-657 | a checkpoint survives its trip through the event payload exactly when it has an id and no field has blanks at its ends |
| ChangeSets.CommittedCheckpointIsKept | services/hub/internal/httpapi/change_set_service.go:44-120 | the checkpoints both drivers make survive it |
| ChangeSets.CommitIsItsEventExactly | services/hub/internal/httpapi/change_set_service.go:286-318 | the direct update of a commit followed by its event is the event alone, exactly when the checkpoint has an id or was there before |
| ChangeSets.DiscardIsItsEvent | services/hub/internal/httpapi/change_set_service.go:394-408 | the same for a discard, always |
| ChangeSets.CanCommitExactly | services/hub/internal/httpapi/change_set_service.go:689-704 | the advertised CanCommit holds exactly when a commit with the shown id would be accepted in that state, and no other id would be |
| ChangeSets.ShownIsCommitted | services/hub/internal/httpapi/change_set_service.go:672-678 | the shown entries are the committed ones in display order |
| ChangeSets.BusyExactlyWhenActive | services/hub/internal/httpapi/change_set_service.go:727-745 | under the queue invariant a change set is busy exactly when a run is active, that is, when the conversation is not idle |
| ChangeVersions.SameIdSameEntries | services/hub/internal/httpapi/change_set_service.go:481-551 | optimistic versions are sound: over any run, with commits and discards interleaving at will, two states with one pending id have the same entries |
| ChangeVersions.AcceptedCommitsWhatWasShown | services/hub/internal/httpapi/change_set_service.go:258-274 | an accepted commit takes exactly the entries shown earlier with its id |
| ChangeVersions.UnmovedIdClearsWhatWasCommitted | services/hub/internal/httpapi/change_set_service.go:276-290 | if the id did not move while the driver worked, exactly the committed entries are cleared |
| ChangeOverlap.MovesExactly | services/hub/internal/httpapi/change_set_service.go:481-551 | which steps give the change set a new id |
| ChangeOverlap.UnmovedExactly | services/hub/internal/httpapi/change_set_service.go:481-551 | an id that has moved never comes back: over any run, the id is that of an earlier moment exactly when no step since has moved it |
| ChangeOverlap.SecondCommitAcceptedExactly | services/hub/internal/httpapi/change_set_service.go:252-274 | over any run, after a commit was accepted another one that expects the same id is accepted exactly when no step since has moved the id and no run is pending, and then it takes the same entries; finishing the first one moves it |
| ChangeOverlap.AnswersExactly | services/hub/internal/httpapi/change_set_service.go:252-274 | over any run, to one who expects the id shown at an earlier moment: busy exactly when a run is pending; else conflict exactly when a step since has moved the id; else nothing pending exactly when nothing was shown; else the entries that were shown |
| ChangeOverlap.BlankIsRefused | services/hub/internal/httpapi/change_set_service.go:252-262 | a blank expected id is answered busy or conflict, and a discard answered that nothing is pending had no entries |
| ChangeOverlap.OneVersionCommittedTwice | services/hub/internal/httpapi/change_set_service.go:252-274 | from every reachable ledger on which a commit is accepted, two commits of its version with ids of their own are allowed steps and both work on all its entries |
| ChangeOverlap.FirstDiffCanBeCommitted | services/hub/internal/httpapi/change_set_service.go:481-527 | such a ledger is reached with the first diff event that has an item |
| ChangeOverlap.LateItem | services/hub/internal/httpapi/change_set_service.go:587-635 | a single diff item adds the entry of a new path, changes that of a known one, and nothing else |
| LedgerChange.AppliedExactly | services/hub/internal/httpapi/change_set_service.go:587-635 | what touches do to a ledger that has entries: each entry gets the last fields, its first blob from before and the last from after, in its place, and new paths come behind |
| LedgerChange.UnchangedExactly | services/hub/internal/httpapi/change_set_service.go:587-635 | touches leave a ledger as it is exactly when, path by path, they repeat the run, message, fields and blobs of the entry there is |
| ChangeOverlap.LateDiffsAreCleared | services/hub/internal/httpapi/change_set_service.go:274-290 | a diff event while the driver of a commit works is allowed, reaches the ledger, and is cleared by the finish |
| ChangeOverlap.LateDiffsAreLostExactly | services/hub/internal/httpapi/change_set_service.go:274-290 | what the finish clears is what was committed exactly when the event only repeated what the entries said |
| ChangeOverlap.LateRunIsLostExactly | services/hub/internal/httpapi/change_set_service.go:274-290 | an event of a run that no committed entry names is lost exactly when it has a diff: then an entry of that run is cleared that was not committed |
| ChangeOverlap.UniqueOverRuns | services/hub/internal/httpapi/change_set_service.go:598-634 | over any run the entries of the ledger have different paths |
| ChangeVersions.LedgerIsFoldOfLog | services/hub/internal/httpapi/change_set_service.go:481-527 | without rollbacks the ledger is a fold of the event log, however commits and discards interleave |
| ChangeVersions.ReplayAfterRollbackExactly | services/hub/internal/httpapi/state_execution_domain.go:85-95 | replaying the log after a restart agrees with a ledger that was rolled back exactly when the rollback kept no entry |
| ChangeHistory.PendingDescribes | services/hub/internal/httpapi/change_set_service.go:481-635 | over any run, commits and discards interleaving at will, the pending entries are one for every path reported since the last finished commit or discard, or since the last rollback from the diffs it kept, in the order reported, each with what was reported last, the first blob from before and the last from after |
| ChangeHistory.CheckpointExactly | services/hub/internal/httpapi/change_set_service.go:285-290 | over any run, the checkpoint is that of the last finished commit; discards and rollbacks keep it |
| ChangeHistory.ShownTells | services/hub/internal/httpapi/change_set_service.go:659-717 | id, checkpoint and entries of what is shown, and of what a commit or discard takes |
| ChangeHistory.JobsTell | services/hub/internal/httpapi/change_set_service.go:252-319 | which commits and discards are at work after every step, and what a finished one logs |
| Restore.WorkingTree.RestorePaths | services/hub/internal/httpapi/change_set_service.go:1049-1087 | the working tree and error after a discard, entry by entry up to the first failure |
| Restore.TargetStaysInside | services/hub/internal/httpapi/handlers_execution_flow.go:790-807 | a path never leads outside the project root |
| Restore.TargetExactly | services/hub/internal/httpapi/handlers_execution_flow.go:790-807 | where a path that goes up and down leads, and that it is refused exactly when it ends outside the root or in a first component that begins with two dots |
| Restore.TargetOfPlainPath | services/hub/internal/httpapi/handlers_execution_flow.go:790-807 | an ordinary relative path leads to its own components |
| Restore.SucceedsExactly | services/hub/internal/httpapi/change_set_service.go:1049-1087 | a discard succeeds exactly when every entry is possible in its turn (the path is valid, the blob decodes, no directory in the place of a file to write, no file above), and then has the effects of all |
| Restore.FailsExactly | services/hub/internal/httpapi/change_set_service.go:1049-1087 | a discard that fails ends at the first entry that is not possible in its turn, with the error of that entry and the effects of those before it |
| Restore.SucceedsAtOnceExactly | services/hub/internal/httpapi/change_set_service.go:1049-1087 | for entries apart from each other: exactly when every entry by itself is possible in the tree there is |
| Restore.LeavesProper | services/hub/internal/httpapi/change_set_service.go:1049-1087 | no file is ever a directory, and what is above a file is a directory, also after a discard that failed |
| Restore.OrderDoesNotMatter | services/hub/internal/httpapi/change_set_service.go:1050-1085 | neither success nor result depends on the order of entries that are apart from each other |
| Restore.UntouchedStays | services/hub/internal/httpapi/change_set_service.go:1050-1085 | places at or below no entry keep their contents |
| Restore.LastTouchDecides | services/hub/internal/httpapi/change_set_service.go:1050-1085 | the last entry that touches a place decides what is there afterwards |
| Undo.DiscardSucceedsExactly | services/hub/internal/httpapi/change_set_service.go:1049-1087 | with accurate blobs a discard goes through exactly when every entry stays inside the project and, in its turn, nothing is in its way: no directory where a file is to be written, no file above |
| Undo.DiscardUndoesExactly | services/hub/internal/httpapi/change_set_service.go:587-635 | with accurate blobs, after any edits and once a discard went through, the file of an entry that no other leads to or above is again as it was when the set began exactly when the first blob carried for it is that; without any, when it was absent, or, after a deletion, when it did not change |
| Undo.DiscardRestoresTreeExactly | services/hub/internal/httpapi/change_set_service.go:587-635 | the whole pending set, entries apart from each other: a discard goes through and gives back exactly the files that were there when the set began if and only if every entry undoes its file, no directory took the place of a file to write and no file lies above one to remove |
| Undo.FileBecameDirectoryFails | services/hub/internal/httpapi/change_set_service.go:1079-1084 | the discard fails when a file with a blob was replaced by a directory and no entry before leads to its place or above |
| Undo.DirectoryBecameFileFails | services/hub/internal/httpapi/change_set_service.go:1079-1084 | it fails, too, when a directory was replaced by a file and no entry before the one of something that lay in it leads to that file or above |
| Undo.ExistingFilesAreUndone | services/hub/internal/httpapi/change_set_service.go:1059-1084 | a file whose first edit carries its blob is undone whatever follows |
| Undo.MadeFilesAreRemovedExactly | services/hub/internal/httpapi/change_set_service.go:1060-1074 | a file that the set made is removed exactly when none of its edits carried a blob and no last deletion left it behind |
| Undo.LostWithoutBlob | services/hub/internal/httpapi/change_set_service.go:1066-1073 | a file whose blob was never carried is lost, unless nothing changed it |
| EventStream.StreamsWithoutGaps | services/hub/internal/httpapi/execution_events_store.go:39-72 | over any interleaving of append, connect, receive, disconnect and deletion, backlog, delivered and buffered events are an in-order subsequence of the log since the backlog began, and all of it exactly when the 32 slots were never full at an event |
| EventStream.ClosedAtMostOnce | services/hub/internal/httpapi/execution_events_store.go:74-88 | every channel is closed at most once, exactly when its subscriber left, and gets nothing after that |
| EventStream.SinceTells | services/hub/internal/runtime/application/event_stream.go:18-48 | where a backlog begins: with the first event for a client that names none, right behind the last event of the id it names, with the first one after a notice when that is not there |
| EventStream.ReconnectTakesUp | services/hub/internal/runtime/application/event_stream.go:18-48 | a client that returns with its last event id takes up right behind it exactly when that event is still in the history; otherwise it gets all of it and is told so |
| EventStream.TwoStaysAreOneExactly | services/hub/internal/httpapi/handlers_conversation_events.go:58-104 | a stay that is taken up behind the last event delivered in an earlier one continues it without a gap exactly when no gap was among what was delivered before and the new channel never overflowed |
| EventStream.ReturningContinuesExactly | services/hub/internal/httpapi/handlers_conversation_events.go:58-104 | the same over any run, for a client that returns with the id of the last event it was given while that event is in the history |
| EventStream.NotOverflowedIsGapFree | services/hub/internal/httpapi/execution_events_store.go:49-54 | a channel that never overflowed has delivered without a gap; one that did may have, when its client left before the gap |
| EventStream.HistoryExactly | services/hub/internal/httpapi/execution_events_store.go:10-47 | over any run, the history is the last 2000 events since the conversation was last deleted |
| EventStream.OverflowsExactly | services/hub/internal/httpapi/execution_events_store.go:49-72 | an event is lost to a client exactly when 32 events wait in its channel |
| EventStream.NumberingRestarts | services/hub/internal/runtime/application/event_append.go:44-46 | numbering starts anew with the first event after a deletion |
| EventStream.SequenceIncreases | services/hub/internal/runtime/application/event_append.go:44-46 | events are numbered 1, 2, 3 and so on while callers leave the numbering to the store |
| EventStore.EventStore.Append | services/hub/internal/httpapi/execution_events_store.go:33-55 | history, sequence number and every subscriber's channel after an append; no send reaches a closed channel |
| EventStore.EventStore.Connect | services/hub/internal/httpapi/handlers_conversation_events.go:58-70 | the backlog with its resync notice, and a fresh open channel, in one section |
| EventStore.GreetingIsStretchOfLog | services/hub/internal/httpapi/handlers_conversation_events.go:58-70 | what a client is greeted with is the log from the start of its backlog to the moment it joined, after a notice if it lost its place |
| EventStore.Channel.TrySend | services/hub/internal/httpapi/execution_events_store.go:49-54 | a full channel drops the event, any other takes it last; the channel must be open |
| EventStore.Channel.Receive | services/hub/internal/httpapi/handlers_conversation_events.go:95-103 | the oldest event, and the end only when the channel is empty and closed |
| EventStore.EventStore.PositionAfterId | services/hub/internal/runtime/application/event_stream.go:28-36 | where the events after an id begin |
| EventStore.EventStore.Unregister | services/hub/internal/httpapi/execution_events_store.go:74-88 | the channel is closed and forgotten; an unknown subscriber is left alone |
| EventStore.EventStore.DeleteConversation | services/hub/internal/httpapi/handlers_conversation_by_id.go:285-296 | the history is gone and every subscriber's channel closed once |
| Decimal.SignsAndZeros | services/hub/internal/httpapi/mcp_probe_stdio.go:158-163 | signs are read, leading zeros skipped, and numbers beyond 64 bits are none |
| Decimal.PrintParses | services/hub/internal/httpapi/mcp_probe_stdio.go:108-163 | a printed number parses to itself exactly when it fits 64 bits |
| Frames.FrameRoundTripExactly | services/hub/internal/httpapi/mcp_probe_stdio.go:103-189 | a body comes back as written and nothing past it is read, exactly when it has 1 to 1048576 bytes; otherwise the length is refused |
| Frames.FramesRoundTrip | services/hub/internal/httpapi/mcp_probe_stdio.go:103-189 | many frames in a row are read back in order |
| Frames.FirstAnswerIsRead | services/hub/internal/httpapi/mcp_probe_stdio.go:116-141 | reading by id returns the result of the first body with that id, or its error when it carries one (response objects: section 5 of the JSON-RPC 2.0 specification), and leaves the stream at the next frame |
| Frames.AnswersExactly | services/hub/internal/httpapi/mcp_probe_stdio.go:128-141 | what one body is answered with: skipped, its result, or its error |
| Frames.LengthsRead | services/hub/internal/httpapi/mcp_probe_stdio.go:157-172 | a length header in any case, with blanks around its number, is read as that number; below 1 or above 1048576 it is refused |
| Frames.OneHeader | services/hub/internal/httpapi/mcp_probe_stdio.go:150-174 | a header that is not the length is passed over, a later length replaces an earlier one, and a bad one refuses the frame |
| Frames.OtherHeaders | services/hub/internal/httpapi/mcp_probe_stdio.go:157-172 | only a line that begins with `content-length:`, in whatever case, is a length |
| Frames.BrokenFrames | services/hub/internal/httpapi/mcp_probe_stdio.go:157-187 | a frame without a length, or cut off, ends the stream with its error |
| Frames.OthersAreSkipped | services/hub/internal/httpapi/mcp_probe_stdio.go:128-135 | bodies with other ids, without id, or that do not decode are dropped |
| Frames.FrameIsStretchOfInput | services/hub/internal/httpapi/mcp_probe_stdio.go:143-181 | whatever the headers, a frame read is a stretch of the input right before the rest, of a length in range |
| Frames.LooseIds | services/hub/internal/httpapi/mcp_probe_stdio.go:191-206 | a fractional id counts as its integer part and a text of digits as its number |
| Frames.Pipe.Write | services/hub/internal/httpapi/mcp_probe_stdio.go:103-114 | what is written for a body |
| Frames.Pipe.ReadLength | services/hub/internal/httpapi/mcp_probe_stdio.go:150-174 | the header loop: the last length counts, a bad one ends it, a blank line closes it |
| Frames.Pipe.ReadBody | services/hub/internal/httpapi/mcp_probe_stdio.go:143-189 | one frame, or the error and what is left of the input |
| Frames.Pipe.ReadResponseById | services/hub/internal/httpapi/mcp_probe_stdio.go:116-141 | the reply or the error that ended the stream, and what is left of the input |
| TaskMetadata.OrderOfEventsDoesNotMatter | services/hub/internal/httpapi/handlers_run_tasks.go:292-334 | with distinct keys, any permutation of the events gives the same metadata |
| TaskMetadata.EqualKeysKeepOrder | services/hub/internal/httpapi/handlers_run_tasks.go:298-307 | with equal keys the stored order decides |
| TaskMetadata.TaskDependsOnItsEvents | services/hub/internal/httpapi/handlers_run_tasks.go:309-332 | the metadata of a run task comes from its own events alone, and exists exactly when there is one |
| TaskMetadata.StateIsLastSet | services/hub/internal/httpapi/handlers_run_tasks.go:340-410 | the state is the one set by the last event that sets one |
| TaskFields.FieldsAreLastGiven | services/hub/internal/httpapi/handlers_run_tasks.go:309-410 | each field of a task (dependencies, priority, retries, their maximum, artifact, last error) is the last one its events give, in the order of the events |
| TaskFields.ParallelIsLastGiven | services/hub/internal/httpapi/handlers_run_tasks.go:309-334 | the number of parallel tasks is the last positive one given by any event |
| TaskFields.NumbersRead | services/hub/internal/httpapi/handlers_run_tasks.go:448-507 | numbers lose what is behind the point; texts are read as decimal numbers |
| TaskFields.ListsRead | services/hub/internal/httpapi/handlers_run_tasks.go:509-535 | a list keeps its texts, trimmed, no blanks, each once |
| TaskFields.TextsRead | services/hub/internal/httpapi/handlers_run_tasks.go:509-535 | a text is the list of the parts between its commas |
| TaskFields.TasksRead | services/hub/internal/httpapi/handlers_run_tasks.go:610-620 | an event is about the id it names, else the one its nested object names, else its run |
| TaskMetadata.StateReadTwiceExactly | services/hub/internal/httpapi/handlers_run_tasks.go:424-446 | a state that was read reads as itself except `running` and `executing`, which change places |
| TaskMetadata.DeriveRunTaskGraphMetadata | services/hub/internal/httpapi/handlers_run_tasks.go:292-334 | the loop computes the fold of the sorted events |
| Names.UniqueTrimmedElements | services/hub/internal/httpapi/handlers_run_tasks.go:537-552 | a cleaned list has every non-blank name, trimmed, once |
| Names.UniqueTrimmedTwice | services/hub/internal/httpapi/authz_store_project_configs.go:306-321 | cleaning twice is cleaning once |
| ProjectConfig.SanitizeModelTokenThresholds | services/hub/internal/httpapi/authz_store_project_configs.go:287-304 | kept keys trimmed, for allowed ids with positive values only, whatever order the map yields |
| ProjectConfig.CleaningIsDeterminedExactly | services/hub/internal/httpapi/authz_store_project_configs.go:293-302 | the result depends on chance exactly when two kept keys trim alike and carry different values |
| ProjectConfig.NormalizingNormalizes | services/hub/internal/httpapi/authz_store_project_configs.go:259-285 | unique ids with the default among them, positive thresholds for ids only |
| ProjectConfig.FieldsTell | services/hub/internal/httpapi/authz_store_project_configs.go:259-285 | every field of a normalised configuration, told from the one given |
| ProjectConfig.ThresholdsTell | services/hub/internal/httpapi/authz_store_project_configs.go:287-304 | a model has a threshold exactly when it was listed and a positive one was given for it, and then one of those given |
| ProjectConfig.DefaultThresholdExactly | services/hub/internal/httpapi/authz_store_project_configs.go:259-285 | the default is always among the models, but it has a threshold afterwards exactly when it was listed and a positive one was given for it |
| ProjectConfig.NormalIsFixed | services/hub/internal/httpapi/authz_store_project_configs.go:259-285 | a normalised configuration normalises to itself and to nothing else |
| ProjectConfig.ConfigTable.Upsert | services/hub/internal/httpapi/authz_store_project_configs.go:75-128 | the returned configuration is normalised and is what the table now holds for its project |
| ProjectConfig.ConfigTable.Get | services/hub/internal/httpapi/authz_store_project_configs.go:10-73 | reading returns exactly what the last write of that project returned |
| Policy.Authorizer.Authorize | services/hub/internal/httpapi/authorization_engine.go:59-182 | a request is granted exactly when session, workspace, role, permission and, for writes, policies let it pass, and every refusal has its reason; all but failures to load are audited, once |
| Policy.Authorizer.AskPolicies | services/hub/internal/httpapi/authorization_engine.go:147-174 | the early-exit loop grants exactly when some enabled matching policy allows and none denies |
| Policy.EvaluateExpression | services/hub/internal/httpapi/authorization_engine.go:213-231 | an expression holds exactly when all operators of all fields match, in whatever order the maps yield them |
| Policy.PolicyOrderDoesNotMatter | services/hub/internal/httpapi/authorization_engine.go:148-165 | the order of policies does not matter |
| Policy.AddingPolicies | services/hub/internal/httpapi/authorization_engine.go:147-174 | adding a policy that denies never grants, adding one that allows never takes a grant away |
| Policy.BeforePoliciesJustified | services/hub/internal/httpapi/authorization_engine.go:59-136 | what is decided before the policies is justified by session, workspace, role and permission, told by membership, and the policies are asked exactly when all of these let the request pass and it needs one |
| Policy.MorePermissions | services/hub/internal/httpapi/authorization_engine.go:333-343 | adding permissions to a role never takes a grant away |
| Policy.OperatorsMean | services/hub/internal/httpapi/authorization_engine.go:263-305 | what each operator says of texts and lists of names |
| Policy.FourPartsHold | services/hub/internal/httpapi/authorization_engine.go:184-211 | a policy applies only where its subject, resource, action and context all hold |
| Policy.NoReference | services/hub/internal/httpapi/authorization_engine.go:233-261 | a text stands for a value of the environment only as `$group.name` of one that is there |
| Policy.PrintedForms | services/hub/internal/httpapi/authorization_engine.go:307-331 | lists are compared as they are printed: in brackets, parted by blanks |
| Policy.RolesComparePrinted | services/hub/internal/httpapi/authorization_engine.go:263-316 | `eq` on the list of roles holds exactly for the role in brackets, and `neq` for every other text |
| Policy.DenyNonAdminsAppliesExactly | services/hub/internal/httpapi/authz_defaults.go:149-177 | the shipped denial for non-admins applies exactly to the listed actions of high or critical risk in the session's own workspace, whatever the role |
| Policy.DenyNonAdminsDeniesAdmins | services/hub/internal/httpapi/authz_defaults.go:149-177 | so where it is in force such administration is denied to admins as well |
| Selection.ValidateSelected | services/hub/internal/httpapi/handlers_composer_input.go:751-800 | the loops compute the verdict and the sorted ids of every kind |
| Selection.AcceptedExactly | services/hub/internal/httpapi/handlers_composer_input.go:763-787 | a selection is accepted exactly when every entry is a capability id and, kind by kind, it equals the mentions as sets |
| Selection.AcceptedIds | services/hub/internal/httpapi/handlers_composer_input.go:789-799 | what is returned are the mentioned ids of a kind, each once, strictly increasing |
| Selection.SortUniqueStrings | services/hub/internal/httpapi/handlers_composer_input.go:815-834 | the sorted list of the distinct trimmed names |
| Selection.SplitIdExactly | services/hub/internal/httpapi/handlers_composer_input.go:848-915 | exactly which texts are capability ids, and of which kind and id |
| Selection.IdRoundTripExactly | services/hub/internal/httpapi/handlers_composer_input.go:897-915 | a capability id splits into what it was built from exactly when that was not blank |
| Paging.PaginateAny | services/hub/internal/httpapi/pagination.go:35-54 | the page, copied, and the cursor of the next one |
| Paging.ParseCursorLimit | services/hub/internal/httpapi/pagination.go:14-33 | start and limit with their defaults and bounds |
| Paging.AskedFor | services/hub/internal/httpapi/pagination.go:14-33 | a printed number is read as the start it is and as a limit of at most 100, with 20 for 0 |
| Paging.FollowShowsAll | services/hub/internal/httpapi/pagination.go:35-54 | following the cursors ends and shows exactly the list, each item once and in order |
| Paging.PageSize | services/hub/internal/httpapi/pagination.go:22-48 | a page has 1 to 100 items unless the list ends before |

## Left out

- Repository reads that fill in missing conversations, runs and projects, with the order helpers of run
  control that only serve them: the model has the in-memory state alone.
- QueueState.AppState.RollbackSession: whether the project is known and whether its files could be restored
  are inputs; `RollbackTree` has the restore of a project without git, and the git commands of the others are
  not part of this model.
- QueueState.AppState.ProjectRuntimeEvent: which queue event a runtime event stands for is an input; buffering
  of output text, assistant messages and token counts are left out.
- QueueState.AppState.SyncModelConfig: the model a configuration resolves to is an input, and the counters of
  the result are left out.
- Hook policies, hook records, auditing of the queue's handlers, tracing and HTTP decoding.
- Message texts, names, modes, permission levels and display-only fields; entry ids and creation times of
  ledger entries, and with them the display order of two entries whose paths differ only in blanks.
- Ledger.ChangeLedger.UpsertEntry: the message of a run is part of the diff as it reaches the ledger; looking it
  up in the run table is left to the caller.
- ChangeVersions.LedgerIsFoldOfLog: is about the whole event log; the store keeps the last 2000 events.
- The git driver, the export archive, the entries digest and the wording of suggested commit messages.
- Restore.WorkingTree.RestorePaths: permissions and symbolic links are not modelled, and
  blobs are decoded by a function that is an input (base64, section 4 of RFC 4648); `Undo` assumes that it
  inverts the encoding for files that are not empty.
- Undo.DiscardRestoresTreeExactly, like `RollbackTree.RollbackRestoresTreeExactly`: for entries none of whose
  paths lies at or below another's; what happens otherwise is told entry by entry, in turn, by
  `Undo.DiscardSucceedsExactly`, `Undo.DiscardUndoesExactly` and `Restore.LastTouchDecides`.
- RollbackTree.RollbackRestoresTreeExactly: for edits that came run by run, kept runs first.
- LedgerRuns.RollbackOverRunsExactly: for events of runs there are, with paths in normal form.
- Frames.Pipe.ReadResponseById: decoding a JSON body is an input, and time-outs are left out; blanks in headers
  are those of ASCII.
- Text.Lower: letters outside ASCII that fold to a letter outside ASCII are left as they are.
- TaskMetadata.DeriveRunTaskGraphMetadata: a number comes with the text Go prints it as; the graph built from
  the metadata is not part of this model.
- ProjectConfig.ConfigTable.Get: JSON columns are lossless; errors of the database and the workspace list with
  its defaults are left out.
- Policy.Authorizer.Authorize: how Go prints a value that is neither text nor a list is an input; the table of
  action specifications is an input, too, with each action's permission key equal to its name.
- Selection.ValidateSelected: the texts of the two errors, and resolving the ids to resources and files.
- Model and MCP network probes, catalog files, the desktop and mobile apps.
