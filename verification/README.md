# A verified model of goREgo

goREgo is a remote-execution node for Bazel. It has a scheduler with a pool of
workers, a two-tier content store with an LRU janitor, a Merkle-tree stager and
uploader, streaming transfer of blobs, persistent worker processes, and a cluster
that forwards requests between nodes. This project models those parts in Dafny and
proves what they keep over every input, every run and every interleaving.

Where the code works by concurrent steps, the model is a transition system: a
state, a set of actions with guards, and runs of any length (`IsRun`). Where the
code is an object with methods, the model is a class, and its methods are proved to
compute the same functions the transition system uses. Calls into the operating
system, the network and foreign libraries become parameters or arbitrary choices; a
class with a `healthy` constant may fail anywhere when it is false and nowhere when
it is true.

| files | what they model |
|---|---|
| `SchedulerCore`, `SchedulerObject` | the scheduler's table, subscribers and queue; its methods |
| `SchedulerSystem`, `SchedulerConservation`, `SchedulerWakeup`, `SchedulerLoad`, `SchedulerDone`, `SchedulerHistory`, `SchedulerStall` | the scheduler, its workers and the update loops of its clients, run together |
| `MerkleModel`, `MerkleUpload`, `MerkleStage`, `MerkleRoundTrip`, `ActionOutputs` | uploading a tree, staging it, and the action result |
| `ProxyStore`, `ActionCacheHistory`, `LocalPublish` | the two tiers, the action cache, publication by rename |
| `Eviction`, `Debounce` | the janitor |
| `Readers`, `ResourceNames`, `ByteStreamRead`, `ByteStreamWrite` | ByteStream |
| `Framing`, `PersistentWorkers`, `PersistentCommands`, `PersistentManager` | persistent worker processes |
| `OperationNames`, `PeerChoice`, `Routing` | the cluster |

## Results that differ from what the code is for

Several things one would expect of this code are false of it. The code is modelled
as it is, and each item names the exact condition and an instance where it fails.

- *Completed is final.* False: a cancelled task stays queued, and its worker's first
  update revives it (`CancelledTaskIsRevived`). `done` falls at a step exactly when
  that step is such an update (`FallsBackExactly`), so at most once per operation.
- *The last snapshot a client is sent is done.* Exactly when the operation was already
  Completed at the handler's last look (`LastSnapshotExactly`,
  `LastSnapshotMayNotBeDone`): the snapshot precedes the test of the state.
- *A waiting handler is woken.* Never again exactly when its channel is empty and its
  registration or its record is gone (`StallsExactly`, `DeletedOperationStallsHandler`).
- *`executingCount` counts executing records.* Exactly while no executing operation
  has been deleted (`CountMatchesIffNoExecutingDelete`, `DeletedExecutionStaysCounted`).
- *A successful `Put` means the remote has the blob.* Exactly unless it was skipped and
  nothing before had carried that hash to the remote (`PutSuccessMeansRemote`,
  `OrphanPutReportsSuccess`).
- *Every publication is followed by a cleanup.* A Put that fails between its rename and
  its notification may leave none; exactly when is `UncleanedExactly`
  (`AbandonedGoesUnnoticed`).
- *Publication is atomic.* A rename publishes the Put's own file, and so all of its
  bytes, exactly when its temporary name was not handed out again before it renamed
  (`RenameExactly`, `AtomicPublication`); otherwise the blob is whatever the last owner
  of the name has written so far (`TearsExactly`, `ReusedNameTears`).
- *Eviction is invisible.* Exactly for digests that state the right size and whose hash
  some event had carried to the remote (`EvictionInvisibleExactly`,
  `WrongSizeSeesEviction`, `OrphanSeesEviction`).
- *Every blob of a cached result is in the remote.* Exactly when each was carried there;
  one that was not was only ever skipped, after an upload that orphaned it
  (`AllInRemoteExactly`).
- *An upload records the executable bits of its files.* A local store links a file it does
  not have, which clears the mode of its inode. A bit is recorded exactly unless the inode
  was cleared before, or an earlier name of it was linked (`BitKeptExactly`,
  `OutputBitExactly`, `SecondNameKeepsBit`).
- *A staged file has its own executable bit.* On the hard-link path exactly as
  `UploadThenStage` says; `SharedContentSharesBit` is the other case.
- *A persistent worker's result answers the caller's own request.* While no two readers
  have torn the worker's output, exactly when no cancelled call has left a reader on it
  (`OwnAnswerExactly`, `CancelledCallMisleadsNext`, `OrphanMisleads`).
- *A wait makes at most one hop.* With truthful tables (`OneHop`); in general exactly as
  `OneHopExactly` says. It ends within as many nodes as there are or never
  (`EndsOrCircles`), and stale tables can make it circle (`StaleTablesLoop`).
- *An operation can be waited for from anywhere.* A forwarded operation is named after
  the node that forwarded it, and is not found there (`ExecuteThenWait`,
  `ForwardedIsNotFound`).
- *A name routes back to its node.* Exactly when the node ID has no colon
  (`OperationNames.NameRoundTrip`, `ColonMisroutes`).
- *A compressed upload that the store accepted succeeds.* Exactly when its compressed
  form is not empty (`Upload`, `EmptyUploadFails`); a committed size of zero is read as
  failure.

## Model

| member | source | states |
|---|---|---|
| SchedulerObject.Channel.TrySend | pkg/scheduler/scheduler.go:306-314 | a notification is appended unless ten are buffered, in which case it is dropped |
| SchedulerObject.Channel.Close | pkg/scheduler/scheduler.go:289-303 | closing keeps what is buffered, and is only asked of an open channel |
| SchedulerObject.Scheduler.Enqueue | pkg/scheduler/scheduler.go:80-128 | a full queue is refused with nothing changed; otherwise a new task with these arguments is at the end of the queue, its record is in the table under the name returned, and the answer is a queued operation that is not done |
| SchedulerObject.Scheduler.Dequeue | pkg/scheduler/scheduler.go:131-138 | tasks leave in the order they were accepted, and nothing else changes |
| SchedulerObject.Scheduler.NotifySubscribers | pkg/scheduler/scheduler.go:306-314 | every subscriber of the name is sent to once, no other channel is touched |
| SchedulerObject.Scheduler.UpdateState | pkg/scheduler/scheduler.go:141-162 | the object's method is the transition system's update: record, executing count and notifications together, or nothing for an unknown name |
| SchedulerObject.Scheduler.Complete | pkg/scheduler/scheduler.go:165-185 | as the transition system's completion with a response |
| SchedulerObject.Scheduler.Fail | pkg/scheduler/scheduler.go:188-208 | as the transition system's completion with an error |
| SchedulerObject.Scheduler.GetOperation | pkg/scheduler/scheduler.go:211-221 | NotFound exactly for an unknown name; otherwise name and metadata of the tracked record, done exactly if it is Completed, and then its own error or, without one, its own response |
| SchedulerObject.Scheduler.CancelOperation | pkg/scheduler/scheduler.go:240-260 | which cancels are refused and how, and the new state of an accepted one |
| SchedulerObject.Scheduler.DeleteOperation | pkg/scheduler/scheduler.go:263-273 | the record goes, its subscribers and the executing count stay |
| SchedulerObject.Scheduler.Subscribe | pkg/scheduler/scheduler.go:276-286 | a fresh channel is registered last, and already holds a message if the operation is tracked |
| SchedulerObject.Scheduler.Unsubscribe | pkg/scheduler/scheduler.go:288-303 | exactly this channel leaves the list and is closed |
| SchedulerObject.Scheduler.CleanupExpired | pkg/scheduler/scheduler.go:349-360 | a record and its subscriber list survive unless it is completed and was last updated before the retention period, whatever order the table is walked in |
| SchedulerConservation.RunConserves | pkg/scheduler/scheduler.go:80-138 | every state of every run keeps the FIFO, one-owner and record-placement invariants |
| SchedulerConservation.OnePlace | pkg/execution/worker.go:95-142 | in every run each accepted task is in the queue, in exactly one worker's hands, or finished, and in only one of these |
| SchedulerConservation.QueuedHasTask | pkg/scheduler/scheduler.go:95-128 | a record still Queued has its task in the queue or with a worker that has not started it |
| SchedulerConservation.FirstUpdateFindsRecord | pkg/scheduler/scheduler.go:115-128 | the window between sending a task and inserting its record is never visible to the worker's first update |
| SchedulerWakeup.RunWired | pkg/scheduler/scheduler.go:276-314 | every state of every run keeps the registration, message and wake-up invariants |
| SchedulerWakeup.NoLostWakeup | pkg/server/execution.go:165-181 | while an operation is Completed no registered handler that has not seen it is stuck: it has a message or is about to test |
| SchedulerWakeup.ClosedSteps | pkg/scheduler/scheduler.go:288-303 | no step sends on a closed channel or reopens it |
| SchedulerWakeup.ChannelDiscipline | pkg/scheduler/scheduler.go:276-314 | over every run: no send on a closed channel, no double close, the subscription's own send never finds a full buffer |
| SchedulerLoad.ExecutingCountExact | pkg/scheduler/scheduler.go:141-208 | in every state of every run the count is the executing records plus those deleted while executing, and never negative |
| SchedulerLoad.RemovedExecutingHistory | pkg/scheduler/scheduler.go:263-273 | the leaked part is empty exactly while no executing operation has been deleted |
| SchedulerLoad.CountMatchesIffNoExecutingDelete | pkg/scheduler/scheduler.go:263-273 | the count is right if and only if no executing operation was ever deleted |
| SchedulerLoad.LoadBound | pkg/scheduler/scheduler.go:379-388 | reported load is the queue, the executing records and the operations deleted while executing; it never exceeds queue capacity plus pool size plus the last of these |
| SchedulerDone.RunOutcomes | pkg/scheduler/scheduler.go:165-208 | in every run a completed record has a result or an error, a cancelled one keeps its error, a finished one stays done |
| SchedulerDone.DoneCarriesOutcome | pkg/scheduler/scheduler.go:317-346 | every done snapshot carries a response or an error, and an error once a cancel has succeeded, even after a worker ran it |
| SchedulerDone.DoneAfterFinish | pkg/execution/worker.go:118-142 | once its worker has finished, an operation is done for as long as it is tracked |
| SchedulerDone.FallsBackExactly | pkg/scheduler/scheduler.go:141-162 | `done` falls at a step if and only if that step is the worker's first update of an operation that is already done |
| SchedulerDone.FallsBackAtMostOnce | pkg/scheduler/scheduler.go:141-162 | over a whole run `done` falls at most once per operation, and not before its worker has started |
| SchedulerDone.CancelledTaskIsRevived | pkg/scheduler/scheduler.go:240-260 | a reachable state and step at which an operation that was cancelled becomes not done |
| SchedulerDone.DeletedExecutionStaysCounted | pkg/scheduler/scheduler.go:263-273 | a reachable state that tracks nothing and counts one execution |
| SchedulerDone.LastSnapshotMayNotBeDone | pkg/server/execution.go:169-181 | a reachable state in which a client's loop has ended and its last snapshot was not done |
| SchedulerDone.TurnExactly | pkg/server/execution.go:169-181 | for every look of a handler and the test that follows it: the snapshot sent is done if and only if the operation is Completed at the look, and the loop ends if and only if it is Completed at the test |
| SchedulerDone.LastSnapshotExactly | pkg/server/execution.go:169-181 | every handler whose loop has ended did so in such a turn; its last snapshot is not done if and only if the operation was not Completed at the look, and it then became done in between, while tracked |
| SchedulerHistory.RunHistory | pkg/scheduler/scheduler.go:95-208 | in every run every field of a tracked record follows from what happened to its operation: the task accepted under its name, its worker's start, and what was reported for it, each the last of its kind |
| SchedulerHistory.SnapshotExactly | pkg/scheduler/scheduler.go:317-346 | in every run a snapshot has the operation's name and action digest, is done if and only if something was reported for the operation and its worker has not started since, and then carries the last error reported or, if there was none, the last response |
| SchedulerHistory.FinishShown | pkg/execution/worker.go:118-142 | every snapshot after a worker finished its operation is done, and carries exactly the worker's error; or exactly its response, unless an error was reported before or the operation was completed from the cache since |
| SchedulerHistory.CancelShown | pkg/scheduler/scheduler.go:240-260 | every done snapshot after a cancel carries Canceled, unless the worker has run the operation all the same and failed, and then exactly that failure |
| SchedulerHistory.ExpiresExactly | pkg/scheduler/scheduler.go:349-360 | in every run a cleanup removes an operation if and only if it is done, by what was reported for it, and the last thing that happened to it is longer ago than the retention period |
| SchedulerStall.StrandedForever | pkg/scheduler/scheduler.go:263-273 | a handler of a removed operation that waits at an empty channel never receives again |
| SchedulerStall.StallsExactly | pkg/server/execution.go:165-181 | a waiting handler of an accepted operation can never receive again, however the run goes on, if and only if its channel is empty and its registration or its record is gone |
| SchedulerStall.DeletedOperationStallsHandler | pkg/scheduler/scheduler.go:263-273 | a reachable state with such a handler |
| OperationNames.ParseOperationNodeID | pkg/scheduler/scheduler.go:398-414 | the name splits at its first colon, after the optional prefix, and is all ID if there is none |
| OperationNames.NamePrinted | pkg/scheduler/scheduler.go:80-93 | the text of every name |
| OperationNames.SplitsUnique | pkg/scheduler/scheduler.go:398-414 | there is only one such split |
| OperationNames.NameRoundTrip | pkg/scheduler/scheduler.go:80-93 | a printed name parses back to its node ID and UUID if and only if the node ID has no colon, or, without a node ID, the UUID has none and is not empty |
| OperationNames.ColonMisroutes | pkg/scheduler/scheduler.go:398-414 | every node ID that contains a colon is cut at its first one |
| OperationNames.OverrideWins | pkg/scheduler/scheduler.go:81-93 | an override, not the scheduler's own ID, is what the name carries |
| MerkleUpload.UploadBlob | pkg/execution/worker.go:847-853 | on success the store holds these bytes under their digest; nothing stored before changes |
| MerkleUpload.UploadFile | pkg/execution/worker.go:821-845 | the same for the content of a file; the mode of its inode is cleared at most when the store can link it and did not have the blob |
| MerkleUpload.BuildDirectoryProto | pkg/execution/worker.go:880-939 | the proto and the children list of the whole listing, each file with the mode it had when it was reached, with every file and subdirectory proto stored; only files whose blob was missing lose their mode; it fails only if listing, reading or storing does |
| MerkleUpload.BuildTree | pkg/execution/worker.go:855-878 | the Tree of the files as they were when reached, its root digest, and everything staging that digest will fetch is stored |
| MerkleStage.StageFile | pkg/execution/worker.go:355-410 | a copy with the right bit or a hard link, which CAS files become executable, and success on a healthy system exactly when the blob exists |
| MerkleStage.StageFiles | pkg/execution/worker.go:320-330 | below the target exactly the listed files appear |
| MerkleStage.StageSymlinks | pkg/execution/worker.go:332-338 | exactly the listed symlinks are added |
| MerkleStage.StageSubdirectories | pkg/execution/worker.go:340-350 | exactly the subdirectories, recursively, are added |
| MerkleStage.StageDirectory | pkg/execution/worker.go:309-353 | the file system below the target is the image of what the store says the digest stands for, nothing outside changes, and it succeeds on a healthy system exactly when all of it can be fetched |
| MerkleRoundTrip.ListingCanonical | pkg/execution/worker.go:880-939 | every uploaded proto is canonical: lists strictly sorted by name, no name in two lists |
| MerkleRoundTrip.UploadedUnfolds | pkg/execution/worker.go:855-878 | the store unfolds the root digest to exactly the uploaded tree |
| MerkleRoundTrip.LookupAgrees | pkg/execution/worker.go:309-353 | looking a path up in the unfolded protos agrees with looking it up in the original tree |
| MerkleRoundTrip.RoundTrip | pkg/execution/worker.go:309-410 | path by path, the staged tree is the uploaded tree: kinds, contents, link targets |
| MerkleRoundTrip.BitKeptExactly | pkg/storage/local.go:240-248 | path by path, an upload records the executable bit of a file if and only if the file is not executable, or its inode was not cleared before and no earlier name of it was linked; content and links are always recorded as they are |
| MerkleRoundTrip.SecondNameKeepsBit | pkg/storage/local.go:240-248 | of two names of an executable file the second is recorded as executable if and only if the upload did not link the first |
| MerkleRoundTrip.UploadThenStage | pkg/execution/worker.go:855-939 | upload followed by staging rebuilds every tree below the target, as the upload found it, and changes nothing else; each file staged as a hard link has its recorded bit if and only if that is set or nothing made its content executable; only files whose blob was missing lose their mode; healthy systems never fail |
| MerkleRoundTrip.ExecDigestsExact | pkg/execution/worker.go:355-410 | a CAS file is made executable exactly when some file of the tree has that content and is executable |
| MerkleRoundTrip.HardlinkedExecExact | pkg/execution/worker.go:363-389 | the same, for one staged path and the CAS files the staging made executable |
| MerkleRoundTrip.SharedContentSharesBit | pkg/execution/worker.go:363-389 | uploading and staging two files of the same content, one executable, makes the other executable too where it is a hard link |
| ActionOutputs.TreeComplete | pkg/execution/worker.go:855-939 | each uploaded Tree is closed under its directory digests, canonical, and all files it names are stored |
| ActionOutputs.UploadOutputs | pkg/execution/worker.go:689-819 | exit code; a digest for each stream that is not empty, with that stream behind it; one entry for each declared path with a file, in order, with the bytes of the file behind its digest and its bit, and one for each with a directory, whose tree digest leads to a closed Tree and whose root digest to its root, which unfolds path by path to what is there; on a healthy store it fails exactly when some declared output is not of an allowed kind |
| ActionOutputs.ReportExactly | pkg/execution/worker.go:689-819 | the same for any upload that stored the declared outputs |
| ActionOutputs.OutputBitExactly | pkg/execution/worker.go:689-819 | an output file is recorded as executable if and only if it is, its inode was not cleared before, and no output uploaded earlier linked it, whichever list declares it |
| ActionOutputs.AllowedExactly | pkg/execution/worker.go:706-816 | the condition for success, path by path |
| ActionOutputs.ResultBacked | pkg/execution/worker.go:689-819 | every digest the result names is stored and every output directory has a complete tree behind it |
| ActionOutputs.FinishAction | pkg/execution/worker.go:231-243 | a cache entry appears only for exit code 0 without skipping, is this action's result, as UploadOutputs describes it, and names only stored digests |
| ProxyStore.Proxy.LocalPut | pkg/storage/local.go:157-209 | only data of the declared size is committed, and success implies commitment |
| ProxyStore.Proxy.Has | pkg/proxy/proxy.go:114-138 | present exactly when either tier has the hash; healthy tiers never fail |
| ProxyStore.Proxy.Get | pkg/proxy/proxy.go:140-181 | what is returned is now local and came from one of the tiers; a healthy proxy gives exactly the two-tier answer |
| ProxyStore.Proxy.Put | pkg/proxy/proxy.go:183-217 | skipped, with nothing changed, on a local hit; otherwise success means both tiers have these bytes; when a healthy proxy fails |
| ProxyStore.Proxy.PutImpl | pkg/proxy/proxy.go:219-265 | the new state for every combination of outcomes; the remote takes nothing unless the local half succeeded |
| ProxyStore.Proxy.PutFile | pkg/proxy/proxy.go:48-112 | success means the remote accepted an attempt and has these bytes; without giving up early it fails only after as many attempts as configured; a failed upload leaves the local blob behind |
| ProxyStore.LocalContained | pkg/proxy/proxy.go:183-265 | in every run local blobs are remote blobs or orphans of a failed upload |
| ProxyStore.ContentsKept | pkg/proxy/proxy.go:140-265 | if every upload is genuine, both tiers hold for each hash the bytes it stands for |
| ProxyStore.OrphanHistory | pkg/proxy/proxy.go:219-265 | there are no orphans exactly while no upload failed after its local commit |
| ProxyStore.TwoTierRefinesRemote | pkg/proxy/proxy.go:114-181 | without orphans both stores together answer as the remote alone, before and after any eviction |
| ProxyStore.EvictionInvisibleExactly | pkg/proxy/proxy.go:114-181 | in every run, evicting a blob leaves the answer for a digest unchanged if and only if the digest states the right size and some event had carried the hash to the remote; for Has the size does not matter |
| ProxyStore.WrongSizeSeesEviction | pkg/proxy/proxy.go:140-181 | a run after which a digest with a wrong size is answered until the blob is evicted |
| ProxyStore.OrphanSeesEviction | pkg/proxy/proxy.go:114-181 | the same for a blob whose upload failed after its local commit |
| ProxyStore.RemoteHistory | pkg/proxy/proxy.go:48-265 | in every run the remote has a hash if and only if some earlier event carried it there |
| ProxyStore.OrphanFrom | pkg/proxy/proxy.go:219-265 | in every run a hash is an orphan if and only if some upload of it failed after its local commit |
| ProxyStore.PutSuccessMeansRemote | pkg/proxy/proxy.go:183-217 | in every run, after a write that reported success the remote lacks the blob if and only if the write was skipped and nothing before had carried that hash to the remote; an earlier upload then orphaned it |
| ProxyStore.AllInRemoteExactly | pkg/proxy/proxy.go:48-265 | in every run, blobs whose uploads were all reported to have succeeded are all in the remote if and only if some event carried each; one that is missing was only reported by skipped writes, after an upload that orphaned it |
| ProxyStore.OrphanPutReportsSuccess | pkg/proxy/proxy.go:183-265 | a run in which a Put succeeds and the remote never has the blob |
| ActionCacheHistory.EveryValueWasRemote | pkg/proxy/proxy.go:267-339 | in every interleaving each cached and each returned result was held by the remote at or before that moment |
| ActionCacheHistory.ReturnsExactly | pkg/proxy/proxy.go:267-339 | in every run a hit returns what the local cache has, a fetch returns what the remote had for its key when it was asked, and nothing else returns a value; what is written to the local cache is that value, or the one an update gave the remote |
| ActionCacheHistory.LocalMayLagBehindRemote | pkg/proxy/proxy.go:267-310 | a run, without failures, that leaves an outdated result in the local cache |
| LocalPublish.RunSound | pkg/storage/local.go:157-209 | every state of every run keeps file ownership, write progress and which Put each file belongs to |
| LocalPublish.RenameExactly | pkg/storage/local.go:180-200 | in every run, a rename publishes the Put's own file if and only if no temporary file was created under its name before, while it had yet to rename |
| LocalPublish.PutOutcome | pkg/storage/local.go:157-209 | in every run a Put has succeeded if and only if it has set the mode of its blob, and a Put that got that far had published a file under its hash |
| LocalPublish.TempRemoved | pkg/storage/local.go:165-200 | the step that renames a Put's file, or ends the Put, leaves nothing under its temporary name |
| LocalPublish.AtomicPublication | pkg/storage/local.go:157-209 | under any interleaving of writers, failures, readers and removals, a blob path is absent or due to a rename; it holds all the bytes of that writer, as many as it declared, unless its name was reused, and then, and only then, what the last owner of the name has written so far |
| LocalPublish.TearsExactly | pkg/storage/local.go:157-209 | a writer whose name was reused by a file that is still there can go on to publish that file if and only if its own data has the declared size |
| LocalPublish.ReusedNameTears | pkg/storage/local.go:157-209 | for every blob that is not empty, a run that leaves its path with the bytes of no writer of that hash |
| LocalPublish.OpenBlobNeverChanges | pkg/storage/local.go:76-89 | an open blob reads the same complete bytes for as long as it is held, replaced or removed, unless the name of its writer was reused; then what the last owner of the name has written by then |
| Eviction.CacheDir.Walk | pkg/janitor/janitor.go:45-53 | every file once, in an arbitrary order, unless the walk fails |
| Eviction.CacheDir.Remove | pkg/janitor/janitor.go:55-57 | exactly that file goes, unless it cannot be removed |
| Eviction.SortByAccessTime | pkg/janitor/janitor.go:175-178 | a permutation, oldest first |
| Eviction.SumPermutation | pkg/janitor/janitor.go:152-178 | the total size does not depend on the order |
| Eviction.EvictOldest | pkg/janitor/janitor.go:180-195 | as Cleanup, for a sorted listing |
| Eviction.Cleanup | pkg/janitor/janitor.go:148-198 | nothing changes if the walk fails; otherwise exactly the evicted files go; they are old enough; survivors older than an evicted file could not be removed; the tracked total is what remains; it ends within the limit or with nothing left to evict; nothing goes once within the limit |
| Debounce.NoLostCleanup | pkg/janitor/janitor.go:91-141 | in every interleaving a notification stays on its way until a cleanup starts |
| Debounce.NoSpontaneousCleanup | pkg/janitor/janitor.go:106-141 | without a notification no cleanup starts |
| Debounce.QuietMeansCleaned | pkg/storage/local.go:193-209 | at quiescence a cleanup has started after a publication if and only if a notification was on its way when it happened or was given after it |
| Debounce.UncleanedExactly | pkg/storage/local.go:193-209 | at quiescence a publication has gone without a cleanup if and only if the janitor was at rest when it happened and every publisher under way then or later failed between its rename and its notification |
| Debounce.CleanedIfNoneAbandoned | pkg/janitor/janitor.go:91-141 | if no publisher fails that late, a cleanup has started after every publication |
| Debounce.WaitsForNewTimer | pkg/janitor/janitor.go:117-137 | a cleanup that starts after a notification was handled waits for the timer armed for it to fire, unless a callback of an old timer had already started when that was stopped |
| Debounce.AbandonedGoesUnnoticed | pkg/storage/local.go:193-201 | a run that publishes a blob and comes to rest without a cleanup |
| Debounce.AbandonedMayBeCleaned | pkg/storage/local.go:193-201 | a run in which such a blob is cleaned up after, thanks to an earlier publication |
| Debounce.SettlesAlone | pkg/janitor/janitor.go:106-141 | quiet is exactly when nothing but a publication can happen, and every other step reduces the work left |
| Debounce.BoundedAfterLastPublish | pkg/janitor/janitor.go:106-141 | after the last publication the janitor takes a bounded number of steps |
| ResourceNames.ParseComplete | pkg/server/bytestream.go:36-64 | a name that matches is parsed to the groups of any match (so they are unique), unless its size exceeds an int64 |
| ResourceNames.ParseExactly | pkg/server/bytestream.go:36-64 | parsing succeeds if and only if the regular expression matches and the size is below 2^63 |
| ResourceNames.NamesPrinted | pkg/storage/remote.go:109-178 | the text of every read and write name |
| ResourceNames.NameRoundTrip | pkg/storage/remote.go:109-178 | every printed read or write name parses back to its digest and kind, whatever the instance name; negative sizes are the exception |
| ByteStreamRead.Skip | pkg/server/bytestream.go:110-124 | skipping moves by exactly the offset, and fails only past the end or on a read failure |
| ByteStreamRead.SendUpTo | pkg/server/bytestream.go:128-157 | the responses are consecutive bytes from the current position, end at the limit or the end, and each fits the buffer |
| ByteStreamRead.ServeRead | pkg/server/bytestream.go:71-158 | which status when, failures of the store included; a success carries exactly the bytes from the offset on, up to the limit or the end, of what is stored, in responses of at most 64 KiB; a failure a prefix of them, whatever the sizes of the reads; past the end it fails exactly where it cannot seek |
| ByteStreamRead.Fetch | pkg/storage/remote.go:109-163 | asking for a digest by its printed name delivers exactly the stored blob, compressed or not |
| ByteStreamWrite.SendStream | pkg/storage/remote.go:209-271 | the name is in the first message only, offsets are the running sums, one empty last message finishes, the payload is the content; a failure to read or to send never finishes |
| ByteStreamWrite.Put | pkg/storage/remote.go:165-271 | against any server, a function of the messages it got: success if and only if the reply to what was sent passes, where a broken stream still asks for the reply and unreadable data never does |
| ByteStreamWrite.Receive | pkg/server/bytestream.go:175-232 | for any messages: the payload up to the first that finishes and whether one does, or the message whose data the store no longer takes, where the handler stays |
| ByteStreamWrite.ServeWrite | pkg/server/bytestream.go:160-256 | for any messages: InvalidArgument and nothing stored if and only if the first has no name, a positive offset, or a name that does not match the write expression with a size below 2^63; the handler blocks if and only if the store stops before the end of the data, and at which message; otherwise the store is given the payload, decompressed for a compressed name, under the digest in the name, and it succeeds exactly when the store accepts, with the bytes received as committed size |
| ByteStreamWrite.StartsExactly | pkg/server/bytestream.go:185-200 | which first messages start a write, and for which digest and kind |
| ByteStreamWrite.Upload | pkg/storage/remote.go:165-287 | client and server together: a store is given exactly the data under exactly the digest or nothing, and on a stream that does not break the client succeeds if and only if the store accepted and the committed size passes |
| ByteStreamWrite.EmptyUploadFails | pkg/storage/remote.go:279-287 | an upload the store accepts and the client reports as failed |
| Framing.LengthRoundTrip | pkg/execution/persistent.go:327-343 | the length read is the length written modulo 2^32 |
| Framing.FrameBytes | pkg/execution/persistent.go:319-334 | the four bytes before a message are the base-256 digits of its length modulo 2^32, least significant first |
| Framing.FrameExactly | pkg/execution/persistent.go:321-355 | a message survives framing if and only if it is shorter than 2^32 bytes |
| Framing.FramesRoundTrip | pkg/execution/persistent.go:321-355 | back-to-back frames read back as the same messages |
| Framing.TruncatedTail | pkg/execution/persistent.go:338-355 | a stream cut inside a frame gives the whole frames and an error, never a shortened message |
| Framing.WriteProto | pkg/execution/persistent.go:321-334 | if there is room, the stream grows by the four digits of the length, least significant first, and the message; otherwise by a prefix of that |
| Framing.ReadProto | pkg/execution/persistent.go:338-355 | whatever the sizes of the reads, the next b0 + 256 b1 + 65536 b2 + 16777216 b3 bytes after the first four, exactly when there are as many |
| Framing.ReadMessages | pkg/execution/persistent.go:338-355 | reading to the end of a stream gives the messages of its frames and whether it ended between two |
| PersistentWorkers.RunInv | pkg/execution/persistent.go:106-317 | every state of every run keeps the process, mutex and response-accounting invariants |
| PersistentWorkers.OwnAnswerExactly | pkg/execution/persistent.go:282-317 | in every run, with cancellations, what is returned from output that is not torn answers the caller's own request if and only if no cancelled call has left a reader on that worker |
| PersistentWorkers.ResultsAnswerOwnRequests | pkg/execution/persistent.go:106-142 | in every run without cancellations every result answers its own request |
| PersistentWorkers.OrphanMisleads | pkg/execution/persistent.go:296-306 | from any such state the run can go on to hand the caller another call's answer |
| PersistentWorkers.CancelledCallMisleadsNext | pkg/execution/persistent.go:117-139 | a run that cancels one call and gives the next one its answer |
| PersistentWorkers.RetriedOnce | pkg/execution/persistent.go:106-142 | over all processes ever started, each of a call's two attempts is written at most once |
| PersistentWorkers.ProcessesAccounted | pkg/execution/persistent.go:162-278 | in every run each live process is registered under its key, and every registered or failing key has a restart command |
| PersistentWorkers.ShutdownKillsAll | pkg/execution/persistent.go:145-159 | after Shutdown no process is alive and none is registered; those that were have both pipes closed and were waited for |
| PersistentWorkers.ReadersGoOn | pkg/execution/persistent.go:291-316 | in every run a call that reads from a worker whose output has ended is given a response or the end |
| PersistentCommands.StartedBy | pkg/execution/persistent.go:162-278 | at every step of every run a process keeps its key and command; a new one has those of the call that asked for it or, at a restart, the restart command of the key |
| PersistentCommands.RestartExactly | pkg/execution/persistent.go:80-92 | in every run the restart command of a key is the one last set for it or, if none was, the one that started its first process; there is none exactly while neither has happened |
| PersistentWorkers.GotReuses | pkg/execution/persistent.go:162-190 | a registered worker is always reused: the branch for an exited process is never taken |
| PersistentManager.Manager.SetRestartCommand | pkg/execution/persistent.go:80-92 | exactly this key's command is replaced |
| PersistentManager.Manager.StartWorker | pkg/execution/persistent.go:231-278 | a new process with this key and command is registered; a restart command that was set earlier is kept, otherwise this one is stored; a failed start changes nothing |
| PersistentManager.Manager.GetOrCreateWorker | pkg/execution/persistent.go:162-190 | the method is the transition system's step, for every pool, and keeps every live process registered |
| PersistentManager.Manager.RestartWorker | pkg/execution/persistent.go:194-227 | the method is the transition system's step; the old process is dead, closed and waited for; a new one runs the restart command |
| PersistentManager.Manager.Shutdown | pkg/execution/persistent.go:145-159 | walking the table in any order kills exactly the registered workers and empties it |
| PeerChoice.LessTransitive | pkg/cluster/cluster.go:258-263 | comparing load ratios is transitive, zero and negative capacities included |
| PeerChoice.Manager.SelectBestPeer | pkg/cluster/cluster.go:234-276 | in any map order: nothing exactly when no peer has fewer tasks than it can run and, cross-multiplied with the capacities, fewer than the local node; otherwise such a peer, and no peer with room has fewer tasks for its capacity; a local node without capacity included |
| PeerChoice.LighterExactly | pkg/cluster/cluster.go:251-263 | the comparison of quotients agrees with the comparison of cross-multiplied loads |
| PeerChoice.Manager.GetPeerByNodeID | pkg/cluster/cluster.go:279-287 | the peer of that ID, and never the local node |
| PeerChoice.Manager.NotifyMsg | pkg/cluster/cluster.go:323-359 | only the sender's entry changes, never the local node's; it has the port it gossips and its host, or, for a bind address, the host it was known by; when every peer stays diallable |
| PeerChoice.Manager.NotifyJoin | pkg/cluster/cluster.go:384-412 | the node's entry is its metadata with a bind address replaced by its gossip host, or a stand-in without capacity if the metadata does not decode |
| PeerChoice.Manager.NotifyLeave | pkg/cluster/cluster.go:415-425 | exactly that entry goes |
| PeerChoice.Manager.NotifyUpdate | pkg/cluster/cluster.go:428-450 | as NotifyJoin, but undecodable metadata changes nothing |
| Routing.EnqueuedOnce | pkg/server/execution.go:84-262 | under arbitrary peer tables a request reaches at most two nodes and is enqueued at most once in the cluster, by the last of them, under a name determined by the first |
| Routing.NodeIDUnique | pkg/scheduler/scheduler.go:398-414 | the node a wait is routed by is the one the name splits off |
| Routing.OneHop | pkg/server/execution.go:271-299 | with truthful tables a wait makes at most one hop, and ends at the node the name is prefixed with |
| Routing.OneHopExactly | pkg/server/execution.go:271-359 | a wait makes at most one hop from everywhere if and only if its name has no node ID or no table entry for that ID leads to another clustered node with a reachable entry of its own |
| Routing.EndsOrCircles | pkg/server/execution.go:271-359 | from every node a wait ends within as many nodes as there are, or it never ends |
| Routing.StaleTablesLoop | pkg/server/execution.go:334-359 | a cluster in which a wait makes any number of hops |
| Routing.FoundExactly | pkg/server/execution.go:271-305 | an operation is found from a node that knows its prefix if and only if the prefix is its holder's ID |
| Routing.ExecuteThenWait | pkg/server/execution.go:84-305 | the one operation a client starts, and that a later wait finds it if and only if the first node did not forward, the second answered from its cache, or the second was the first |
| Routing.ForwardedIsNotFound | pkg/server/execution.go:84-305 | two nodes that know each other, and a forwarded operation its first node cannot find |
| Routing.KeptIsFound | pkg/server/execution.go:84-305 | in the same cluster, an operation its first node keeps is found there |

## Left out

- The sandbox, `runCommand`, input mounts and output-directory creation: operating-system work around a command.
- The services in `operations.go`, `actioncache.go` and `server.go`: they pass requests on.
- Configuration, telemetry, logging, gossip transport and DNS discovery; only delivered messages and arbitrary tables appear.
- Fetching actions and commands before execution (`execute` up to its tail), and the cache lookup of the Execute service (`server/execution.go`) beyond its answer in `Routing`.
- `ListOperations`, which only walks the table.
- `NullStore`, and remotes that do not implement the action cache.
- Singleflight: it shares one call's outcome among callers, and a shared call is one step here.
- The steps of `LocalStore.PutFile` between its link and its rename, and files that change while they are uploaded or after they were linked; what it does to blobs is in `ProxyStore`, what it does to modes in `MerkleUpload`.
- The access-time update of `LocalStore.Get`; access times are inputs of `Eviction`.
- Real time: timers fire at any moment, and the retention and age limits compare given numbers.
- Context cancellation of `Janitor.Run` and of the scheduler's and servers' streams, except that any call may fail.
- zstd itself: compression is a function with an inverse. Whether the encoder's output can be empty is left open.
- The contents of persistent-worker messages beyond which request a response answers; a worker answers in order, once each.
- Execution metadata, timestamps in results and the int32 truncation of exit codes.
- Digests of file trees are assumed free of collisions, and path names to be single components.
- PeerChoice.Manager.SelectBestPeer: compares exact quotients; two float64 quotients that differ by rounding only may compare as equal in the program.
- PersistentWorkers.OwnAnswerExactly: nothing is claimed of output that two readers have torn; what it decodes to, if it decodes, is left open.
- Routing.EnqueuedOnce: a stream that fails to open is taken to have delivered nothing.
- SchedulerObject.Scheduler.Dequeue: answers at once that the queue is empty where the program waits, and leaves waiting and its cancellation to the steps of the transition system.
- MerkleStage.StageFile: only for a target that does not exist, which is what staging into a fresh directory gives it; overwriting an existing file on the copy path is not modelled.
- MerkleStage.StageFiles: only for directories whose children have distinct names, as the protocol demands of them; the second of two equal names would overwrite the first.
- MerkleStage.StageSymlinks: only for distinct names, as StageFiles.
- MerkleStage.StageSubdirectories: only for distinct names, as StageFiles.
- MerkleStage.StageDirectory: only for distinct names, a fresh target directory, and a digest that unfolds to a finite tree.
- The gRPC handler loops after a request is routed: they are the reader steps of `SchedulerSystem`.
