# Busman: verified model of its transfer, storage and browsing logic

Busman moves, replays and deletes messages through a broker that can lose acknowledgments, and keeps
credentials in files and an operating-system keyring that can fail. This project models that logic in
Dafny and proves what it promises. Everything outside the repository's code chooses freely: a broker
call may take effect and still report an error, a filesystem or keyring call may fail, a goroutine may
run at any point, Stop may be pressed at any step, and the process may die between any two durable steps.

| files | part of the repository |
|---|---|
| `OperationOutcome`, `TransferProtocol`, `TransferInvariant`, `TransferRuns`, `TransferDoubt`, `TransferTermination`, `TransferOrder`, `TransferStop`, `TransferSuccess` | bulk move and delete: drain loops, settlement pool, counters, terminal status |
| `MessageIds`, `Packing`, `Batching` | generated message ids and compatible batches |
| `RunRegistry`, `RunProgress`, `SessionDrain` | cancellable runs and regular handlers, stop and work contexts, handler slots; draining sessions |
| `TargetAction`, `SingleScan`, `LockRenewer`, `KeyedGate` | the single-message action, its scan, its lock renewer and the gate that serialises scans |
| `ConfigModel`, `ConfigCommit`, `KeyStore`, `CredentialReading`, `CredentialMigration`, `OneConnection`, `CredentialStore` | the credential store: formats, two-file commit, key cache, migrations |
| `LineReader`, `Redaction` | framing and log redaction in the Rust process |
| `SessionState`, `SequenceNumbers`, `Peeking`, `MessageStore`, `Loading`, `EntityCounts` | front-end logic beside the worker code it must agree with |

How the parts are built:

* Concurrent protocols (transfer, renewer, gate, run registry, loading pages) are state machines whose events are the
  sections the source makes atomic; theorems quantify over every sequence of events. The critical
  sections themselves are also methods of a class, proved equal to the step they stand for.
* Sequential code that changes state is a class or a method with loops. Failing calls are
  nondeterministic choices, and logs of what was sent, abandoned, visited or made durable are results
  that the contracts speak about.
* The store runs on `ConfigCommit.Machine`, which records every durable state it passes through; a
  contract over that history is a statement about every crash point.

The store's claims hold while at most one call of an operation fails (`Fine`, `Good`). `Candidates` are
all configs a load could come back with, because a primary whose read fails for a moment gives way to
the backup; `Good` holds every one of them to the promise.

## Findings

* `unknown` is exact. A run reports it if and only if some run nobody but the broker could tell apart
  from it leaves source and destination in disagreement (`TransferDoubt.UnknownIffDeniable`).
* Migrating one entry deletes the keyring entry of a migrated connection without looking for another
  connection that refers to the same entry; that connection then loses its credential
  (`ConfigModel.SharedReferenceLosesCredential`). Which files this happens to can be seen before the
  call: `ConfigModel.OneEntryHarmlessIff` for a per-connection file, `ConfigModel.OneMoreHarmlessIff` for
  an encrypted one. The full load checks for it by itself. The one-entry methods are proved for every
  file; what they keep after the deletion is claimed where that condition holds.
* An answer to "load more" is shown even if the list was cleared or reset since the button was pressed:
  it carries the cursor of that moment. `Loading.ClearedWhileAwaited` is a run that ends with a message
  shown and the one before it missing. Over all runs `Loading.CoveredIffFresh` says exactly when the list
  stays a beginning of each subqueue.
* Replacing the backup on Windows removes it first. `ConfigCommit.BackupGapHarmlessIff` says exactly when
  dying in that gap loses nothing; every caller runs `load_disk_config` first, which makes it so.
* The check that source and destination differ compares names exactly, while the scan gate folds their
  case. On a broker that ignores case, `SessionDrain.SelfFeedingSlipsThroughIff` says exactly which
  self-feeding moves pass, and `SessionDrain.SelfFeedingExample` is one.
* If the lock renewer fails, or the work context ends, between an acknowledged send and the settlement,
  the target is neither completed nor abandoned: `TargetAction.Perform` ends with `[Send]` exactly then,
  and the status is `unknown`. Because the target stays registered until the action has returned, a
  renewal that fails by then makes a finished action an error and unhandled; one that fails later, or an
  abandon that does, makes it an error that says so. `SingleScan.Scan` has the exact conditions
  (`TellsOfAction`), `SingleScan.FinishedYetAnError` a case.
* Generated message ids are equal exactly when their calls are a multiple of 2^64 apart, the clock reads
  the same and the same is kept of the originals (`MessageIds.IdsDistinct`).
* A stopped peek or search can still answer with its result, because only runs with a status look at the
  request context again (`RunRegistry.SuccessIff`).
* Deleting an entity takes its count away but not its last request: the count comes back exactly when
  that request is answered afterwards (`EntityCounts.ComesBackIff`).
* A per-connection entry that has a reference and also a non-empty plaintext environment makes the
  one-entry migration fail without harm, while the full load lets the environment override.

## Model

| member | source | states |
|---|---|---|
| OperationOutcome.TotalSplits | src-tauri/worker-go/operation_outcome.go:61-73 | a snapshot's total is each source plus the total of the others, in whatever order the map is visited |
| OperationOutcome.TotalRecorded | src-tauri/worker-go/operation_outcome.go:46-59 | recording moves the grand total by exactly the recorded delta |
| OperationOutcome.OperationTracker.Record | src-tauri/worker-go/operation_outcome.go:46-59 | the source named, and no other, holds its old counters plus the four numbers recorded |
| OperationOutcome.OperationTracker.Snapshot | src-tauri/worker-go/operation_outcome.go:61-73 | the loop returns a copy of all sources and their sum |
| OperationOutcome.OperationTracker.Finish | src-tauri/worker-go/operation_outcome.go:75-91 | success exactly without an error; with one, unknown exactly if an acknowledgment is missing, otherwise stopped exactly for a cancellation and error exactly for anything else; the code is cancelled exactly for a cancellation, acknowledgment-unknown exactly for an unknown status without one, operation-failed exactly for the status error |
| TransferInvariant.StepKeeps | src-tauri/worker-go/handlers_transfer.go:16-46 | every event of a drain, worker or broker keeps counters equal to the worker's own sets, the truth between acknowledged and asked, and each message in one pair of hands |
| TransferInvariant.DispatchedOnce | src-tauri/worker-go/handlers.go:835-868 | a complete call is only ever dispatched for a message that has had none |
| TransferInvariant.NilMeansAllSettled | src-tauri/worker-go/handlers.go:868-882 | the pool returns no error only when every message of the batch was completed |
| TransferRuns.CountersBracketTruth | src-tauri/worker-go/operation_outcome.go:10-73 | in every reachable state and source: sent <= accepted <= sent + sendUnconfirmed, the same for settled and removed, all non-negative, and removed within accepted for a move |
| TransferRuns.TotalDominates | src-tauri/worker-go/operation_outcome.go:61-91 | why comparing only totals is enough: each source's doubt is at most the total doubt |
| TransferRuns.StatusIsSound | src-tauri/worker-go/operation_outcome.go:75-91 | over every run with any interleaving, Stop and lost acknowledgments: a status other than unknown means the broker did exactly what was confirmed, and a move accepted exactly what it removed |
| TransferRuns.ReportedTotalIsSettled | src-tauri/worker-go/handlers_move.go:166-245 | the number of moved or deleted messages returned is the number of acknowledged settlements |
| TransferDoubt.StepForgets | src-tauri/worker-go/handlers.go:841-853 | no step reads whether an unacknowledged complete took effect |
| TransferDoubt.UnknownIffDeniable | src-tauri/worker-go/operation_outcome.go:75-91 | unknown is reported if and only if an indistinguishable run of the same job contradicts its counts |
| TransferTermination.EveryScheduleEnds | src-tauri/worker-go/handlers_move.go:166-245 | a drain of q messages takes at most 30q + 1 worker steps in any schedule |
| TransferTermination.PoolNeverStuck | src-tauri/worker-go/handlers.go:819-882 | a settlement pool that has not been joined can always take a step |
| TransferTermination.NeverStuck | src-tauri/worker-go/handlers_drain.go:81-147 | until its drain has ended, a source can move on without the broker's help |
| TransferSuccess.SuccessIsPossible | src-tauri/worker-go/handlers_move.go:166-245 | every job can succeed: from any queues some run ends without an error, with every message settled and gone, and at the destination if it was to be moved |
| TransferOrder.OneWorkerSettlesInOrder | src-tauri/worker-go/handlers.go:829-882 | with one worker, in every reachable state of a whole drain and once it has ended in any way: what is dispatched or settled is a beginning of the receive order across all batches, and everything before the last of it is settled |
| TransferOrder.NothingForgotten | src-tauri/worker-go/handlers_drain.go:81-147 | a drain that ended without an error settled exactly a beginning of what it found, and the rest is still in the queue, untouched |
| TransferOrder.LimitsKept | src-tauri/worker-go/handlers.go:828-882 | in every reachable state at most a batch of messages is out of the queue and unsettled, and no more complete calls are in flight than workers were asked for |
| TransferStop.StopEndsIntake | src-tauri/worker-go/handlers_drain.go:81-147 | under Stop no step takes a message from the queue, sends one that was not being sent, or touches one outside the current batch |
| TransferStop.HaltedDecidesNoMore | src-tauri/worker-go/handlers.go:835-868 | once scheduling is over, by Stop or by a failed complete, no worker decides to complete another message |
| TransferStop.StopStops | src-tauri/worker-go/handlers_transfer.go:16-46 | Stop at any moment of any run, and any continuation: the queue stays as it was, the destination accepts nothing but what was being sent, the source loses nothing but what was sent (move) or already decided on (delete) |
| TransferStop.StoppedRunSaysSo | src-tauri/worker-go/operation_outcome.go:75-91 | success exactly if every drain ended well and Stop was not pressed; a stopped run says stopped, or unknown if an acknowledgment is missing |
| MessageIds.DistinctCountersDistinctIds | src-tauri/worker-go/handlers_transfer.go:63-77 | ids with different counter values differ, for any originals and any clock |
| MessageIds.IdsDistinct | src-tauri/worker-go/handlers_transfer.go:61-77 | two ids of one process are equal if and only if their calls are a multiple of 2^64 apart, the clock is the same and the same is kept of the originals; any two of 2^64 consecutive ids differ |
| MessageIds.SameIdIff | src-tauri/worker-go/handlers_transfer.go:63-77 | counter value, clock and the kept part of the original can be read off an id, whatever the original contains |
| MessageIds.IdFits | src-tauri/worker-go/handlers_transfer.go:68-77 | an id never exceeds 128 bytes and keeps as long a beginning of the original as fits |
| Packing.SendPrepared | src-tauri/worker-go/handlers_transfer.go:199-263 | batches are offered in order as a prefix, non-empty, fitting, of one affinity, ending only where the affinity changes or the next message does not fit; the messages settled with the batches are the ones they were made from, in order; every ending is explained by the calls made, and a failed one is the last |
| Packing.CutsUnique | src-tauri/worker-go/handlers_transfer.go:224-256 | these rules determine the batches: any two lists that obey them agree |
| Packing.CutsEach | src-tauri/worker-go/handlers_transfer.go:224-256 | each batch is a slice of the input, non-empty, fitting and of one affinity |
| Batching.AffinityFailsIff | src-tauri/worker-go/handlers_transfer.go:133-173 | a conflict exactly when session and partition key differ, a missing session exactly when one is required and there is none, and never a missing id |
| Batching.OutboundLosesNothing | src-tauri/worker-go/handlers_transfer.go:79-111 | any two messages that go out alike were alike, id included, even when a new id was generated |
| Batching.OutboundKeeps | src-tauri/worker-go/handlers_transfer.go:79-111 | body, session and partition key go out as they came in; without a new id so do id and properties; with one, one property holds the old id, if there was one, and all others are kept |
| Batching.SentAreReceived | src-tauri/worker-go/handlers_transfer.go:185-197 | the k-th message offered carries body, session and partition key of the k-th received |
| Batching.RegeneratedIdsDistinct | src-tauri/worker-go/handlers_transfer.go:63-111 | on a duplicate-detecting destination all outbound ids of a receive differ |
| Batching.KeylessTravelAlone | src-tauri/worker-go/handlers_transfer.go:160-169 | on a partitioned, duplicate-detecting destination a message without session and partition key is alone in its batch |
| Batching.Prepare | src-tauri/worker-go/handlers_transfer.go:185-197 | all outbound messages, or the first message that has no valid affinity and why |
| Batching.SendInCompatibleBatches | src-tauri/worker-go/handlers_transfer.go:175-263 | one bad affinity anywhere means no call is made; otherwise what Packing.SendPrepared says of the prepared messages, each of which carries its own received content |
| RunRegistry.ActiveRuns.RegisterRun | src-tauri/worker-go/main.go:182-200 | registers a new, queued, unstopped run exactly when the id is given and free, and otherwise changes nothing |
| RunRegistry.ActiveRuns.CancelRun | src-tauri/worker-go/main.go:213-224 | answers yes exactly if the id is registered, and then that run is stopped and no other run changes; otherwise nothing changes |
| RunRegistry.ActiveRuns.FinishRun | src-tauri/worker-go/main.go:202-211 | frees the id exactly if it is still its own, and ends the request context and the work context; no other run changes |
| RunRegistry.AlwaysSafe | src-tauri/worker-go/main.go:182-354 | in every interleaving: one listed run per id, a cancel reaches exactly it, runs and regular handlers together hold no more than the slots, one answer per finished run, and nothing left over when all are over |
| RunRegistry.StopSparesWork | src-tauri/worker-go/main.go:182-224 | in every reachable state, stopped or not, a run's work context is alive until the run has answered, left its slot and the table, and is over afterwards |
| RunRegistry.SuccessIff | src-tauri/worker-go/main.go:306-335 | a run answers success exactly when its handler returned no error and it was not stopped, or was stopped but is a peek or search; a stopped run with a status answers stopped or unknown |
| RunRegistry.AnswerMeans | src-tauri/worker-go/main.go:301-335 | every answer, case by case: with a status the one of its counters and of its error, to which a stopped run adds a cancellation; without one a result, an error, or cancelled |
| RunRegistry.FoundIsStopped | src-tauri/worker-go/main.go:213-224 | a cancel that found its run can always stop it, and then only that run changes |
| RunRegistry.StopIsHeard | src-tauri/worker-go/main.go:213-336 | in every continuation after its stop a run stays stopped, and one with a status that had not answered by then answers stopped or unknown |
| RunProgress.NeverStuck | src-tauri/worker-go/main.go:301-354 | until everything is over some run or regular handler can take its next step, and there are at most five such steps per request |
| SessionDrain.EmptyAgainMeans | src-tauri/worker-go/handlers.go:802-816 | the set of empty sessions in plain words: the latest visit to the session consumed nothing |
| SessionDrain.ConsumeAvailableSessions | src-tauri/worker-go/handlers.go:762-817 | ends for any broker; total is the sum reported, it is exactly what is missing unless a drain failed and never more; the way it ends is that of the last call made, and no call follows a failed one; the repeat error names the first session found empty twice with nothing consumed in between, and only that |
| SessionDrain.SelfFeedingSlipsThroughIff | src-tauri/worker-go/handlers_move.go:49-59 | exactly which self-feeding moves pass when the broker ignores case |
| SessionDrain.SelfFeedingExample | src-tauri/worker-go/handlers_move.go:49-59 | a concrete one |
| TargetAction.CompleteTarget | src-tauri/worker-go/handlers_single.go:595-607 | one complete call unless the context was over, in which case nothing is recorded; settled exactly if it was acknowledged, unconfirmed exactly if it was lost; counters still bracket the truth |
| TargetAction.SendThenComplete | src-tauri/worker-go/handlers_single.go:616-650 | which calls are made, given what was acknowledged and when the work context ended: completion only after an acknowledged send, an abandon when the send was not made or not acknowledged |
| TargetAction.Perform | src-tauri/worker-go/handlers_single.go:566-655 | a message that is not the one peeked, a Stop, an unknown action or a missing sender means one abandon and nothing else; otherwise which calls are made, given what became of each and when the work context ended, with counters and truth to match; exactly when the target is neither completed nor abandoned; a failure that is not unknown means the broker did nothing |
| SingleScan.AbandonHeld | src-tauri/worker-go/handlers_single.go:218-278 | exactly one attempt per held message, in order when one at a time, and exactly those the broker let fail are reported |
| SingleScan.Search | src-tauri/worker-go/handlers_single.go:354-422 | the loop up to the find: it ends exactly when the last round gives cause to, never earlier or later, the causes being a lock lost, Stop, a failed receive, the target found, or nothing received as often in a row as allowed; requests stay within budget, batch size and single credit |
| SingleScan.ScanLoop | src-tauri/worker-go/handlers_single.go:354-469 | what is held is what was received, less the first delivery of the target; the error is the cause of the last round, or of the action |
| SingleScan.Scan | src-tauri/worker-go/handlers_single.go:299-470 | on every exit path each delivery is handed once to the action or abandoned once, never both; scanned counts them; without a find the error is the cause of the last round, or of what could not be given back, and no error means the target was not received; a finished action is an error exactly when the renewer or an abandon failed, and unhandled exactly when the renewer had failed by the check after the action |
| SingleScan.OnlyThePeekedMessage | src-tauri/worker-go/handlers_single.go:547-615 | whatever the action, a delivery with another sequence number, message id or session id than peeked, or after Stop, is given back untouched and nothing is counted |
| SingleScan.FinishedYetAnError | src-tauri/worker-go/handlers_single.go:443-462 | a moved and settled target reported as an unhandled error |
| LockRenewer.RemoveGoneIff | src-tauri/worker-go/handlers_single.go:186-196 | removing the first occurrence unregisters a message exactly when it was registered once |
| LockRenewer.AddAllKeeps | src-tauri/worker-go/handlers_single.go:173-184 | add registers every message and none twice |
| LockRenewer.Renewer.ContainsLocked | src-tauri/worker-go/handlers_single.go:164-171 | finds exactly the registered messages |
| LockRenewer.Renewer.Add | src-tauri/worker-go/handlers_single.go:173-184 | the loop is the Add step of the protocol |
| LockRenewer.Renewer.Unregister | src-tauri/worker-go/handlers_single.go:186-200 | the locked part is the Unregister step, and says whether it must wait |
| LockRenewer.Renewer.FinishRenewal | src-tauri/worker-go/handlers_single.go:133-147 | clears the renewal and records an error exactly for a registered message of a live context |
| LockRenewer.StepKeeps | src-tauri/worker-go/handlers_single.go:106-200 | every step keeps messages distinct, gone messages unregistered and returned messages out of renewal |
| LockRenewer.NothingAfterReturn | src-tauri/worker-go/handlers_single.go:106-200 | once unregister has returned, no renewal of the message is in flight or begins and no error is recorded for it, in any continuation that does not add it again |
| LockRenewer.ErrorsAreForRegistered | src-tauri/worker-go/handlers_single.go:133-143 | an error is recorded only for a message registered when its renewal ended |
| LockRenewer.WaitsForOneCallOnly | src-tauri/worker-go/handlers_single.go:197-199 | unregister never waits for an exited goroutine, and at most for the call in flight |
| LockRenewer.FailureIsNeverLost | src-tauri/worker-go/handlers_single.go:130-158 | a failed renewal of a message still registered, in a live context, is recorded, ends the action's context and the goroutine; any other ending of a call records nothing, and ends the goroutine exactly if it failed in a context that was over |
| LockRenewer.RoundRenewsAll | src-tauri/worker-go/handlers_single.go:110-158 | in every continuation of a tick: once the round is over, every message registered at the tick and not unregistered meanwhile has had a renewal call |
| KeyedGate.SourceOperations.Enlist | src-tauri/worker-go/single_message_sources.go:39-50 | joins the users of the key's gate, making one if needed |
| KeyedGate.SourceOperations.Forget | src-tauri/worker-go/single_message_sources.go:51-58 | leaves the users and takes the key away with the last |
| KeyedGate.StepKeeps | src-tauri/worker-go/single_message_sources.go:39-71 | every step keeps the user counts equal to the live clients, one gate per key and one token per full gate |
| KeyedGate.AlwaysSafe | src-tauri/worker-go/single_message_sources.go:39-71 | in every interleaving: one holder per key, one gate for all live clients of a key, a key in the table exactly while someone is live on it |
| KeyedGate.NoDeadlock | src-tauri/worker-go/single_message_sources.go:59-71 | only a queued client can be blocked, and then another client past the same gate can run |
| ConfigModel.PersistedMeans | src-tauri/src/store.rs:1223-1275 | what is written means exactly the runtime config it was made from |
| ConfigModel.CredentialMeans | src-tauri/src/store.rs:507-668 | where a credential comes from in each format, in literal versions and entry names, an environment in the file overriding the one in the keyring |
| ConfigModel.UnusedEntriesFrame | src-tauri/src/store.rs:723-818 | deleting entries nobody refers to changes no credential |
| ConfigModel.PartialMigrationMeans | src-tauri/src/store.rs:723-818 | moving some entries into the bundle keeps every connection's credential |
| ConfigModel.EntryAddedMeans | src-tauri/src/store.rs:820-903 | encrypting one more connection keeps every connection's credential |
| ConfigModel.DeletingRefsHarmlessIff | src-tauri/src/store.rs:723-903 | deleting entries keeps what an encrypted config means exactly when no connection still takes its credential from one |
| ConfigModel.OneEntryHarmlessIff | src-tauri/src/store.rs:723-818 | seen on a per-connection file before the call: migrating one entry and deleting what moved out keeps every credential if and only if no connection left behind has its keyring entry among them |
| ConfigModel.OneMoreHarmlessIff | src-tauri/src/store.rs:820-903 | the same for one connection of an encrypted file |
| ConfigModel.SharedReferenceLosesCredential | src-tauri/src/store.rs:723-818 | a concrete config in which a shared reference loses a credential |
| ConfigCommit.ReplaceBackup | src-tauri/src/store.rs:1549-1561 | states passed through; on Windows an existing backup is really gone for one of them |
| ConfigCommit.ReplacePrimary | src-tauri/src/store.rs:1499-1547 | states passed through, and the old primary back after a single failure |
| ConfigCommit.CrashAtomic | src-tauri/src/store.rs:1289-1344 | wherever a commit is cut short the next load reads exactly the old or exactly the new config |
| ConfigCommit.RollBack | src-tauri/src/store.rs:1370-1428 | after a single failure both files are as before |
| ConfigCommit.WriteConfig | src-tauri/src/store.rs:1289-1344 | every intermediate state is in transit; success leaves both files new; a reported error whose rollback went through leaves both as they were |
| ConfigCommit.RestoreFromBackup | src-tauri/src/store.rs:1430-1447 | recovery never reaches a state whose load could read anything new |
| ConfigCommit.LoadDiskConfig | src-tauri/src/store.rs:468-505 | without a failing call it returns what the files say and changes nothing; it returns the backup instead of a valid primary only after a failed read |
| ConfigCommit.BackupGapHarmlessIff | src-tauri/src/store.rs:1549-1561 | exactly when dying between removing and replacing the backup changes nothing |
| KeyStore.MasterKeyOf | src-tauri/src/store.rs:1017-1051 | a cached key is the keyring's; a fresh key only when the keyring has none and no readable config holds a blob |
| KeyStore.RollbackNewMasterKey | src-tauri/src/store.rs:1063-1082 | taking a new key back leaves every readable config sound |
| KeyStore.Commit | src-tauri/src/store.rs:1084-1140 | at every crash point all readable configs stay sound; success leaves both files new; a reported error leaves both files as they were and the store allowed no more than before |
| KeyStore.DeleteReferences | src-tauri/src/store.rs:1084-1140 | old entries go only when unused, each deletion may fail, nothing readable changes its meaning |
| CredentialReading.HydrateLegacy | src-tauri/src/store.rs:507-573 | the runtime config is exactly what the file means; without a failing call it is returned exactly when every connection has its credential in the file or alone in its keyring entry |
| CredentialReading.HydrateEncrypted | src-tauri/src/store.rs:580-668 | the runtime config is exactly what the file and its bundle mean; without a failing call it is returned exactly when the bundle opens, every connection is in order and no entry is left over |
| CredentialStore.PublicConfigExists | src-tauri/src/store.rs:417-466 | accepts exactly the files whose ids are distinct and whose connections fit their format |
| CredentialMigration.WriteAll | src-tauri/src/store.rs:1084-1221 | what migrating and saving share: the config written means the runtime config and nothing else, succeeds exactly when ids are distinct and a key can be had, and otherwise takes a new key back and leaves files and meaning as they were |
| CredentialMigration.MigrateConfig | src-tauri/src/store.rs:1084-1140 | at every crash point the store still means the same; afterwards both files need nothing but the bundle, and without a failing call the old entries are gone |
| OneConnection.MigrateOneEntry | src-tauri/src/store.rs:723-818 | for every file: the answer is the promised credential, both files hold the stripped connections, success without a failing call is characterised exactly; every state on the way keeps the promise if nothing left behind needs what is deleted, and in any case up to the deletion and when it fails |
| OneConnection.LoadOneEncrypted | src-tauri/src/store.rs:820-903 | the same for one connection of an encrypted file, success characterised exactly |
| CredentialStore.Load | src-tauri/src/store.rs:343-381 | full load at every crash point and with one failing call keeps the meaning and returns it; without a failing call it succeeds exactly when the store is loadable, returns exactly what the file it starts from means, the store means just that afterwards, and nothing is left to migrate |
| CredentialStore.LoadConnection | src-tauri/src/store.rs:686-721 | one credential in any format from any file, with its own exact success condition; the store keeps its promise if no readable config shares a moved reference, or if it reports an error |
| CredentialStore.Save | src-tauri/src/store.rs:1175-1221 | success means exactly the saved config, a reported error means what the store meant before, an interruption one of the two; without a failing call it succeeds exactly on an encrypted store with distinct ids and a key that may be used |
| CredentialStore.ActiveKeepsCredentials | src-tauri/src/store.rs:276-319 | changing the active connection changes no credential |
| CredentialStore.SetActive | src-tauri/src/store.rs:276-319 | only the active connection changes, at every crash point, and nothing if an error is reported; without a failing call it succeeds exactly for a public store and a known connection |
| CredentialStore.RunAny | src-tauri/src/store.rs:276-381 | any operations in any order, each cut short anywhere: keys and configs stay coherent, and the store means what the operations that were not refused made of it; without shared references loading never loses anything; given up exactly for an operation with two failing calls or a load of a shared reference |
| CredentialStore.LoadsPermitNothing | src-tauri/src/store.rs:276-381 | as long as only loads went through or were interrupted, the store means what it meant at first |
| LineReader.ReadBoundedLine | src-tauri/src/commands/worker.rs:364-417 | the result is the first line of the stream however it is chunked, with at most the limit kept and exactly that line consumed |
| LineReader.ReadAll | src-tauri/src/commands/worker.rs:364-417 | the sequence of results is the recursive split of the whole stream |
| LineReader.FramesComeBack | src-tauri/src/commands/worker.rs:364-417 | frames written one per line are read back one by one; an oversized one is reported and skipped alone |
| LineReader.LinesRejoin | src-tauri/src/commands/worker.rs:364-417 | lines joined by newlines are the stream when none is too long |
| Redaction.RedactSecrets | src-tauri/src/commands/worker.rs:110-135 | the in-place loops compute the recursive redaction |
| Redaction.PassCleans | src-tauri/src/commands/worker.rs:118-131 | after a pass every occurrence of its marker is followed by the mask and then a semicolon or the end |
| Redaction.PassReplacesValues | src-tauri/src/commands/worker.rs:118-131 | a pass replaces only values, each right after an occurrence of its marker up to a semicolon or the end, and touches nothing else |
| Redaction.PassKeepsClean | src-tauri/src/commands/worker.rs:115-133 | the second pass does not undo the first |
| Redaction.RedactedIsClean | src-tauri/src/commands/worker.rs:110-135 | no value survives behind either marker |
| Redaction.RedactIsStable | src-tauri/src/commands/worker.rs:110-135 | exactly the strings without a value to hide are unchanged; redacting twice is redacting once |
| Redaction.OccursIff | src-tauri/src/commands/worker.rs:115-131 | a marker occurs where its letters stand, in any case |
| Redaction.RedactedHides | src-tauri/src/commands/worker.rs:110-135 | in literal words: whatever follows an occurrence of either key name in the result is the mask and then a semicolon or the end |
| SessionState.DecodeEncode | src-tauri/worker-go/handlers_session_state.go:93-107 | decoding an encoding gives the bytes back |
| SessionState.EncodeDecode | src-tauri/worker-go/handlers_session_state.go:79-91 | strict decoding accepts nothing but encodings |
| SessionState.SessionStateBase64ByteLength | src/utils/sessionState.ts:13-32 | the loop decides canonical form and limit and returns the decoded length |
| SessionState.CanonicalIffDecodes | src/utils/sessionState.ts:13-32 | checking symbols, padding and trailing bits accepts exactly what strict decoding accepts, with its length |
| SessionState.CheckIsRight | src/utils/sessionState.ts:1-32 | the check returns n exactly for the canonical encoding of some n bytes within the limit |
| SessionState.WorkerAcceptsEncodings | src-tauri/worker-go/handlers_session_state.go:79-91 | the worker accepts a text as a state exactly when it is that state's encoding and within the limit, line ends included |
| SessionState.BothSidesAgree | src-tauri/worker-go/handlers_session_state.go:15-91 | front end and worker agree on every text, and an accepted text leaves room in the frame |
| SessionState.SymbolsAreTheAlphabet | src/utils/sessionState.ts:4-11 | the sextets are the places in the alphabet of base64, and nothing else is a symbol |
| SessionState.QuantumIsNumber | src-tauri/worker-go/handlers_session_state.go:93-107 | four symbols are the base-64 digits of the number three bytes make |
| SequenceNumbers.DecimalIsCanonical | src/utils/sequenceNumber.ts:1-16 | the text of a number is canonical and names it |
| SequenceNumbers.CanonicalIsDecimal | src/utils/sequenceNumber.ts:4-16 | a canonical text is the text of its value |
| SequenceNumbers.CompareIsOrder | src/utils/sequenceNumber.ts:46-52 | comparing texts is comparing numbers, and equal means the same text |
| SequenceNumbers.IncrementMatchesWorker | src/utils/sequenceNumber.ts:54-58 | the front end steps to the same next number as the worker and stops at the same one |
| SequenceNumbers.IncrementIsNext | src/utils/sequenceNumber.ts:54-58 | the increment is the least greater number |
| SequenceNumbers.NormalizeIsExact | src/utils/sequenceNumber.ts:23-34 | what is normalised is canonical, in range and exactly the number given |
| SequenceNumbers.ParseIff | src/utils/sequenceNumber.ts:6-16 | a text is accepted exactly if it is canonical and at most the largest 64-bit number, and refused with its own reason otherwise |
| SequenceNumbers.NormalizeIff | src/utils/sequenceNumber.ts:23-34 | exactly canonical texts in range and whole numbers that are exact in the front end are accepted |
| Peeking.PeekMessagesForSource | src-tauri/worker-go/handlers_browse.go:277-337 | the page is the first count messages at or after the cursor, up to the first the cursor cannot pass; requests are bounded, and it fails exactly if the last one did |
| Peeking.PageOfNumbered | src-tauri/worker-go/handlers_browse.go:277-337 | on a numbered source it is simply the first count messages |
| MessageStore.FitMessages | src/store/messageSlice.ts:35-43 | the longest beginning that fits both budgets |
| MessageStore.ComputeMaxSeqNums | src/store/peekCursors.ts:5-18 | each cursor is the largest sequence number of its subqueue |
| MessageStore.MaxSequenceMeans | src/store/peekCursors.ts:5-18 | a cursor is carried by a message of its subqueue and by none larger, and is missing exactly if none carries a number |
| MessageStore.Store.SetPeekResults | src/store/messageSlice.ts:48-55 | replaces the list by a prefix; bytes are the sum, budgets hold, cursors are those of the accepted |
| MessageStore.Store.AppendPeekResults | src/store/messageSlice.ts:56-64 | appends a prefix, all of it unless a budget is reached; bytes, budgets and cursors stay right |
| MessageStore.Store.RemovePeekedMessage | src/store/appStore.ts:711-734 | removes the first match and its bytes and leaves the cursors |
| MessageStore.CursorStands | src/store/peekCursors.ts:5-18 | one past the cursor is exactly where the accepted beginning of a source ends |
| Loading.CoveredIffFresh | src/components/Explorer/Toolbar.tsx:116-292 | over every run of presses, answers in any order, clearing, removing, selecting, switching and new messages: what was accepted of each subqueue is a beginning of it if and only if, since the list was last emptied or replaced, every page appended was asked for from where the list ended then |
| Loading.StepCovers | src/components/Explorer/Toolbar.tsx:232-288 | the same for one event, in both directions |
| Loading.ClearedWhileAwaited | src/components/Explorer/MessageGrid.tsx:164 | a run in which clearing while a page is awaited leaves a gap |
| Loading.UndisturbedIsCovered | src/components/Explorer/Toolbar.tsx:116-292 | with one request at a time and nothing but removals meanwhile there is never a gap or a repeat |
| Loading.FreshAnswerProgresses | src/components/Explorer/Toolbar.tsx:232-288 | such an answer brings new messages or completes the subqueue unless a budget cuts it |
| Loading.NotAskedMeansComplete | src/components/Explorer/Toolbar.tsx:232-276 | a subqueue that is not asked for is complete, or nothing of it was loaded in a single mode |
| Loading.BrowseBrings | src/components/Explorer/Toolbar.tsx:116-163 | a browse brings the first messages of each subqueue the mode wants, the dead letters last |
| Loading.AsksOnlyWanted | src/components/Explorer/Toolbar.tsx:232-276 | load more asks a subqueue at most once, only one the mode wants, never behind the last number, and without a cursor only when both are wanted |
| Loading.Loader.PressBrowse | src/components/Explorer/Toolbar.tsx:116-163 | empties the list before the request is sent, and remembers entity and generation |
| Loading.Loader.PressMore | src/components/Explorer/Toolbar.tsx:186-279 | both cursors are those of the press; nothing is asked behind the last number |
| Loading.Loader.Answer | src/components/Explorer/Toolbar.tsx:164-288 | an answer is shown if generation and selection still match and dropped otherwise, whatever happened to the list meanwhile |
| Loading.Loader.Select | src/store/appStore.ts:406-437 | another entity resets the list, the same one does not |
| Loading.Loader.SwitchConnection | src/store/appStore.ts:340-362 | a new generation with nothing selected or shown |
| EntityCounts.CountStore.FetchCounts | src/hooks/useEntityList.ts:45-93 | a batch is issued exactly when there is something to count and none is loading |
| EntityCounts.CountStore.RefreshEntityCount | src/hooks/useEntityList.ts:140-151 | a single refresh becomes the latest request of its key |
| EntityCounts.CountStore.Answer | src/hooks/useEntityList.ts:66-80 | an answer writes exactly the keys it is the latest request for, in its own generation |
| EntityCounts.AnswerMeans | src/hooks/useEntityList.ts:66-80 | key by key: what an answer shows, with the number it brought, what it marks as failed, and that every other key stays |
| EntityCounts.CountStore.Settle | src/hooks/useEntityList.ts:85-87 | the loading counter goes down only in its own generation and is never clamped |
| EntityCounts.CountStore.RemoveEntity | src/store/appStore.ts:516-549 | takes away the counts that belong to the entity and nothing else |
| EntityCounts.ComesBackIff | src/hooks/useEntityList.ts:66-80 | a count that is not shown comes back with an answer exactly if that is the last request for its key, in its generation |
| EntityCounts.CountStore.Happens | src/store/appStore.ts:340-549 | whatever happens next, deletion included, a count changes only by the latest request of its key, and loading equals the open batches of the generation, at most one |
| EntityCounts.CountStore.Run | src/hooks/useEntityList.ts:45-169 | over any run without a switch of connection, a key shown at two moments never shows an older request at the later one, even if it was deleted and came back in between |

## Left out

- The Azure SDK, AMQP and admin calls: an abstract broker decides effects and results; it keeps queue order and distinct sequence numbers and nothing else produces messages meanwhile.
- Real time, tickers, wait times and rates: a timeout is a call that fails. Wait lengths are kept only in `SessionDrain`.
- Sealing, key derivation and JSON text: a sealed bundle opens under its key and no other; a file either holds a config or does not parse.
- Unix permissions, fsync, endpoint metadata in the stored config and the details of legacy-artifact cleanup: cleanup is one step that may fail.
- Two failing calls in one store operation (a commit fails and its rollback fails too): the code only reports these, and nothing is claimed.
- The in-place `take` of plaintext fields while migrating: connections are values, so aliasing of disk and runtime connections is not captured.
- Goroutine stacks and the reuse of the `batchSources` slice between batches: each batch gets its own sequence.
- Deleted and recreated entities as sources of messages: in `Loading` an entity's subqueues only grow; messages that leave the queue are not followed.
- The buttons' own `busy` state is per component and not modelled: `Loading` allows any number of awaited requests.
- Session drains inside a bulk run: the transfer state machine treats them as a drain with one settlement worker; `SessionDrain` models the loop over sessions itself.
- The single-message action is not part of the transfer state machine; `TargetAction` proves its own status sound. Its replay-run marker property is left out.
- Deferred and scheduled messages, and accepting a session for one message: they lead to the same action or to an error before it.
- The marks a batch answer sets one key at a time in one synchronous block are one update.
- The identity of the gate objects and of pending stop calls is a number; `SourceOperations` and `ActiveRuns` hold the locked sections, the channel and context steps are events.
- LockRenewer.ReachedInv: the renewer's `stop` waits for the goroutine to leave; that it leaves needs fairness of select and is not stated.
- Replay-return observation, selection, event log, rates, notifications, dialogs and all rendering.
- Thin commands, validation by regular expressions, exit codes and the updater: plumbing without state.
