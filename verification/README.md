# A verified model of the libgitops storage stack

libgitops keeps API objects in files: it watches a directory for changes, keeps an index from
object keys to file paths, runs transactions on a git clone of such a directory, and frames
YAML streams. This project models the four parts of it that carry state across calls, and
proves what each keeps over whole runs.

* **File watching** (`FileEvents`, `EventConcat`, `MovePairing`, `Batcher`, `FileWatcher`,
  `WatcherRuns`). Raw events are filtered, swallowed once per `Suspend`, gathered per path under a
  debounce timer, rewritten by a table of prefixes, and converted; rename halves are paired by
  cookie, or turn into a DELETE and a MODIFY when their timers run out. Proved: what rewriting does
  to the meaning of a list of events, and the conservation of events and rename halves over every
  interleaving of arrivals, suspensions, timers and releases.
* **The path index** (`PathIndex`, `MappedStorage`, `WatchStorage`, `WatchSync`, `RenameOutcomes`,
  `Pipeline`, `PipelineGap`). The watch storage turns file updates into changes of the index and
  events for a subscriber. Proved: which operations keep the index the exact inverse of the
  directory; that a subscriber knows the index's keys; that a rename ends in one index however its
  halves are delivered; and that with all delays of the pipeline the index tracks the disk once the
  queues are empty, with the exact condition for it.
* **The git protocol** (`GitRepo`, `ObjectStorage`, `GitStorage` for the code call by call;
  `GitProtocol`, `GitOrder`, `GitFunction`, `GitHistory`, `GitProgress`, `GitIndex`, `GitGap` for the
  interleavings). Any number of threads pull and run transactions over one lock, one worktree, one
  bounded commit channel and one index, while a sync loop receives commits. Proved: a free lock means
  a clean main on every exit path; the steps of each thread come in the order of the code; a commit
  lands on a branch of its own and holds what the operations of its function left; announcements
  follow HEAD; nothing deadlocks; and the index equals the one computed from main once things are at
  rest.
* **Framing and file storage** (`Frames`, `FrameWriter`, `FrameReader`, `FrameRoundTrip`, `Paths`,
  `FileTree`, `RawStorage`). Proved: reading back what was written into a buffer gives exactly the
  frames whose write succeeded; the reader's result and its buffer sizes for every buffer size;
  that paths determine keys; and that a directory tree refines a map.

Objects that the code updates in place are classes, with methods proved against functions; the
state machines and the theorems about runs are over those functions. What the environment does (a
file found or not, a pull's result, a timer, an error of the operating system) is a parameter of a
method or a step of a run. `dafny verify dfyconfig.toml` checks everything.

## Where the code does less than one might expect

* Rewriting events can lose a deletion: a file that exists, is rewritten, and is deleted before the
  debounce timer fires gives MODIFY + DELETE, which is rewritten to nothing.
  `EventConcat.ConcatenationMeaning` says for which lists of events this happens.
  `Pipeline.EventuallyTracks` and `Pipeline.TimelyTracksExactly` say when it makes the index wrong,
  and `PipelineGap` has a run in which it does and one in which late handling saves it.
* The index can end up wrong for main in four ways, and stay so until the next successful sync: a Pull
  brings main to the commit announced last, which is not announced again; a sync sees the worktree of
  a transaction that then fails; a transaction removes mappings and fails, so the files come back but
  the mappings do not; and the walk of a sync fails. `GitGap` has a run of each from every start.
  `GitIndex.RightIffSeen` says of any run when the index is right, by what the last successful sync
  saw and what was deleted since; `GitIndex.PullKeepsIndexRight`, `GitIndex.SyncOnBranch` and
  `GitIndex.TransactionLeavesMain` say it of the first three by themselves. Without them since the last
  sync it is right (`GitIndex.IndexMatchesMain`).
* The object of a DELETE event is a stand-in without a namespace, so the default identification by
  namespace and name fails on it. A subscriber has to read its UID (`WatchStorage.WhatEventsTell`).
* A clone that is cancelled is reported as success, and a storage is then made over a directory with
  nothing checked out (`GitStorage.TransactionStorage.NewGitStorage`).
* `GenericRawStorage.GetKey` rejects the paths of its own keys if the base directory, cleaned, is
  `/` or `.`; see `Paths.GetKeyRecovers`.
* `combinedEvent`'s comment says a negative output stands for no event; in the code an output of
  zero does too, and the model follows the code.

## Model

| member | source | states |
|---|---|---|
| FileEvents.ReplayLast | pkg/util/watcher/filewatcher.go:214-220 | whether a file is present after a list of its events is decided by the last event alone |
| EventConcat.FirstMatch | pkg/util/watcher/filewatcher.go:28-44 | a row is chosen only if it is in the table and matches a prefix; none is chosen only if no row matches |
| EventConcat.Rewrite | pkg/util/watcher/filewatcher.go:319-332 | rewriting ends for every table whose rows shrink their match, never lengthens the list, and ends in a list that no row matches |
| EventConcat.RewriteIdempotent | pkg/util/watcher/filewatcher.go:319-332 | rewriting twice is rewriting once |
| EventConcat.TableOrderIrrelevant | pkg/util/watcher/filewatcher.go:46-53 | two tables of the same rows, no two of which can match one list, rewrite every list alike |
| EventConcat.CombinedEventsAnyOrder | pkg/util/watcher/filewatcher.go:46-53 | the watcher's own table is such a table, so its order does not matter |
| EventConcat.RewritePrefixFirst | pkg/util/watcher/filewatcher.go:319-332 | a list rewritten before more events are appended has the normal form of the whole list |
| EventConcat.TableStep | pkg/util/watcher/filewatcher.go:46-53 | one step of the watcher's table removes one or two leading events and leaves the rest of the list, and there is no step exactly when it removes none |
| EventConcat.ConcatenatedIsSuffix | pkg/util/watcher/filewatcher.go:319-332 | the rewritten list is a suffix of the input |
| EventConcat.ConcatenatedKeepsRenames | pkg/util/watcher/filewatcher.go:319-332 | every rename half survives rewriting, in order |
| EventConcat.CollapsesIffCancelling | pkg/util/watcher/filewatcher.go:319-332 | a list is rewritten to nothing if and only if it has no rename half, each write is followed at once by a delete, and each delete that does not follow a write is followed at once by a write |
| EventConcat.CancellingEndsInDelete | pkg/util/watcher/filewatcher.go:48-53 | such a list, unless empty, ends in a delete |
| EventConcat.ConcatenationMeaning | pkg/util/watcher/filewatcher.go:48-53 | the rewritten list leaves the file present or absent as the whole list does, if and only if the list is empty, or the file was absent before, or the kinds of its events do not cancel out in that way |
| EventConcat.LostDelete | pkg/util/watcher/filewatcher.go:48-53 | the input for which it does not: a rewrite and a delete of an existing file |
| MovePairing.CachesStayGood | pkg/util/watcher/filewatcher.go:243-289 | over every run the cache holds only rename halves, each under its own cookie |
| MovePairing.HalvesConserved | pkg/util/watcher/filewatcher.go:243-314 | halves received equal twice the MOVEs, plus the timeout updates, plus the halves still cached |
| MovePairing.MoveCarriesDestination | pkg/util/watcher/filewatcher.go:293-314 | with at most one FROM and one TO per cookie, every MOVE carries the TO path of a received pair, whichever half came first, and every other update is the timeout of a received half |
| Batcher.BatchWriter.constructor | pkg/util/sync/batcher.go:11-17 | a new batcher is empty, with no timer |
| Batcher.BatchWriter.Load | pkg/util/sync/batcher.go:33-35 | finds the value stored for the key, if any |
| Batcher.BatchWriter.Store | pkg/util/sync/batcher.go:40-48 | stores the value and leaves a timer running; a flush already waiting stays |
| Batcher.BatchWriter.TimerFires | pkg/util/sync/batcher.go:80-85 | one more flush waits to be received, and nothing stored is forgotten |
| Batcher.BatchWriter.ProcessBatch | pkg/util/sync/batcher.go:60-69 | hands out all that is stored and empties the map; once closed hands out nothing; keeps that what is stored has a timer or a flush on its way |
| FileWatcher.ExtMeaning | pkg/util/watcher/dir_traversal.go:42-60 | the extension by which a path is valid runs from the last dot of the last component to the end, and there is none without such a dot |
| FileWatcher.Watching.constructor | pkg/util/watcher/filewatcher.go:88-106 | a new watcher has nothing suspended, gathered, cached or sent |
| FileWatcher.Watching.MonitorOne | pkg/util/watcher/filewatcher.go:126-164 | one event: directories and files whose extension is not listed change nothing; a delete under a suspended DELETE and a write under a suspended MODIFY only end the suspension; any other is appended to the list of its path and starts the timer |
| FileWatcher.Watching.MoveHalf | pkg/util/watcher/filewatcher.go:293-314 | the first half of a cookie is cached; the second takes it out and makes one MOVE to the TO path |
| FileWatcher.Watching.IncompleteMove | pkg/util/watcher/filewatcher.go:262-280 | a timeout sends DELETE for a FROM half and MODIFY for a TO half, and takes the half out of the cache |
| FileWatcher.Watching.ConcatenateEvents | pkg/util/watcher/filewatcher.go:319-350 | the updates are those of the fully rewritten list, converted in order with the rename halves paired on the way |
| FileWatcher.Watching.SendAll | pkg/util/watcher/filewatcher.go:174-176 | all updates are sent in order |
| FileWatcher.Watching.DispatchBatch | pkg/util/watcher/filewatcher.go:172-179 | the stream grows by the updates of every path of the batch, in the order of the traversal |
| FileWatcher.Watching.DispatchOne | pkg/util/watcher/filewatcher.go:166-187 | one flush is received, the whole batch dispatched and the map emptied; false and no change once closed |
| WatcherRuns.EventsConserved | pkg/util/watcher/filewatcher.go:131-191 | over every run and for each path the accepted events are the lists dispatched, concatenated, followed by the pending list |
| WatcherRuns.DropsBoundedBySuspends | pkg/util/watcher/filewatcher.go:145-150 | over every run each arrival is accepted or dropped, and the drops, with a suspension still in force, are at most the Suspend calls |
| WatcherRuns.DropsExactly | pkg/util/watcher/filewatcher.go:145-150 | over every run an arrival is dropped if and only if it is a delete and the last Suspend was of DELETE, or a write and the last Suspend was of MODIFY, and nothing of that kind has arrived since |
| WatcherRuns.BatchAlwaysReleased | pkg/util/sync/batcher.go:40-85 | over every run a map that is not empty has a running timer or a waiting flush |
| WatcherRuns.MoveBalance | pkg/util/watcher/filewatcher.go:293-314 | one half makes the cache one larger, or one smaller together with one MOVE |
| WatcherRuns.DispatchBalance | pkg/util/watcher/filewatcher.go:166-187 | dispatching a batch turns its rename halves and those cached into two per MOVE and those then cached |
| WatcherRuns.RenameHalvesConserved | pkg/util/watcher/filewatcher.go:243-350 | over every run of the whole watcher the rename halves dispatched are two per MOVE, one per timeout, and the cache |
| WatcherRuns.RunFollows | pkg/util/watcher/filewatcher.go:166-350 | over every run the cache is that of pairing, and the updates sent are an interleaving of the MOVEs and timeouts that pairing makes, in their order, and the converted plain events |
| WatcherRuns.TimeoutSends | pkg/util/watcher/filewatcher.go:262-280 | in any run a timeout sends one update for the path of the cached half, DELETE if that was moved from there and MODIFY if to there |
| WatcherRuns.HalvesAccounted | pkg/util/watcher/filewatcher.go:126-187 | over every run the rename halves accepted are those dispatched and those pending, each as often |
| WatcherRuns.NoHalfIsLost | pkg/util/watcher/filewatcher.go:126-350 | over every run the rename halves of valid files that arrived are the pending ones, two per MOVE, one per timeout, and the cache; a Suspend drops none |
| WatcherRuns.HalvesAccepted | pkg/util/watcher/filewatcher.go:145-150 | a Suspend drops no rename half |
| WatcherRuns.MovesCarryDestination | pkg/util/watcher/filewatcher.go:293-350 | over every run of the whole watcher in which each cookie arrives in at most one FROM and one TO, every MOVE sent is of two halves that arrived and carries the TO path |
| WatcherRuns.TwoHalvesOnly | pkg/util/watcher/filewatcher.go:126-350 | if just two rename halves arrive and nothing is left to do, the watcher has sent what pairing makes of them and nothing else |
| PathIndex.MappingsMeaning | pkg/storage/transaction/git.go:132-161 | a walk maps a key if and only if some file holds it, and to the last such file of the walk |
| PathIndex.ExactIsUnique | pkg/storage/mappedrawstorage.go:148-177 | a directory has at most one exact index |
| PathIndex.WalkIsExact | pkg/storage/transaction/git.go:132-161 | the index of a walk is the exact inverse of the directory if and only if no two files hold the same key |
| MappedStorage.MappedRawStorage.RealPath | pkg/storage/mappedrawstorage.go:51-60 | finds the path of a mapped key and rejects any other as not tracked |
| MappedStorage.MappedRawStorage.Read | pkg/storage/mappedrawstorage.go:63-70 | returns the content of the key's file; errors if the key is not mapped or its file is gone |
| MappedStorage.MappedRawStorage.Exists | pkg/storage/mappedrawstorage.go:72-79 | true if and only if the key is mapped and its file is there |
| MappedStorage.MappedRawStorage.Write | pkg/storage/mappedrawstorage.go:81-90 | only writes the file of a mapped key, and never changes the index |
| MappedStorage.MappedRawStorage.Delete | pkg/storage/mappedrawstorage.go:93-110 | removes file and mapping together; a file already gone is no error; a failed removal keeps both |
| MappedStorage.MappedRawStorage.List | pkg/storage/mappedrawstorage.go:112-123 | lists exactly the mapped keys of the group and kind, whatever their version, each once |
| MappedStorage.MappedRawStorage.GetKey | pkg/storage/mappedrawstorage.go:148-156 | finds some key mapped to the path, and none only if there is none |
| WatchStorage.WhatEventsTell | pkg/storage/watch/storage.go:148-203 | the object of a DELETE is a stand-in whose key only its UID tells, and which cannot be identified by name; all other events carry the object of the file |
| WatchStorage.InitialEventsAre | pkg/storage/watch/storage.go:109-126 | at the start there is one MODIFY for every file that holds an object, and none for any other, in the order of the files |
| WatchStorage.Monitoring.RegisterFiles | pkg/storage/watch/storage.go:109-126 | the index becomes that of the walk, and one MODIFY is sent per file that decodes, if there is a stream to send to |
| WatchStorage.Monitoring.HandleOne | pkg/storage/watch/storage.go:128-205 | one file update changes the index and, if there is one, the stream as its decisions say, for the file as it is now and whichever key the reverse lookup found; a changed file is told as CREATE if nothing was mapped to its path and else as MODIFY, a removed one as DELETE with its stand-in, a moved one not at all |
| WatchSync.ExactIffBenign | pkg/storage/watch/storage.go:128-205 | one operation handled at once keeps the index exact if and only if keys stay unique, the rewritten file keeps its key, and no rename replaces a tracked file |
| WatchSync.LearnInitial | pkg/storage/watch/storage.go:109-126 | a subscriber replaying the initial MODIFYs knows exactly the keys of the index |
| WatchSync.LearnStep | pkg/storage/watch/storage.go:128-205 | after any benign operation a subscriber that knew the index's keys, and reads the UID of a DELETE, still does |
| WatchSync.OperationsAreTold | pkg/storage/watch/storage.go:128-205 | of a benign operation is told: a CREATE of an object written whose key is new to the index, a MODIFY of one whose key is not, a DELETE with its stand-in of one removed, and nothing else |
| WatchSync.IndexAndSubscriberFollow | pkg/storage/watch/storage.go:109-204 | through every run of benign creates, rewrites, deletes and renames the index is the exact inverse of the directory, and the subscriber knows exactly its keys |
| WatchSync.CreatedIffUnknown | pkg/storage/watch/storage.go:109-205 | through every such run the initial events come first and are all MODIFYs, and from then on an event is a CREATE if and only if the subscriber does not know its key |
| RenameOutcomes.StatesOfTwoHalves | pkg/util/watcher/filewatcher.go:262-314 | all states that two halves of a cookie and their timers can lead to |
| RenameOutcomes.ThreeOutcomes | pkg/util/watcher/filewatcher.go:262-314 | a rename becomes one MOVE, or DELETE and MODIFY in either order, and nothing else |
| RenameOutcomes.RenameEndsInOneIndex | pkg/storage/watch/storage.go:142-194 | a rename of a tracked file to an untracked path ends in the same index, exact for the new directory, however its halves arrive, pair or time out |
| RenameOutcomes.WatchedRenameEndsInOneIndex | pkg/util/watcher/filewatcher.go:126-350 | the same for the updates of the whole watcher, for every run in which the two halves arrive, in either order, and nothing is left to do |
| Pipeline.DispatchPerPath | pkg/util/watcher/filewatcher.go:166-187 | what a released batch sends for a path is that path's own list, rewritten and converted, whatever the order of the traversal |
| Pipeline.LostMeaning | pkg/util/watcher/filewatcher.go:48-53 | a path is lost, its events in the last batch cancelling out though those before left the file there, just when it is absent but was last left present |
| Pipeline.ConsistentRelease | pkg/util/watcher/filewatcher.go:319-350 | releasing a path's events keeps what is on its way and what is indexed consistent with the disk and with how the path was last left |
| Pipeline.ConsistentHandle | pkg/storage/watch/storage.go:128-205 | so does handling one update late, with the file as it is by then |
| Pipeline.StepInv | pkg/storage/watch/storage.go:128-205 | every step of the pipeline keeps the invariant of every path |
| Pipeline.RunInv | pkg/util/watcher/filewatcher.go:126-187 | the invariant holds in every state of every run |
| Pipeline.FoundIsTracked | pkg/storage/watch/storage.go:148-192 | over every run a path is in the index just when its file was found, at the start or when a MODIFY of it was handled, and no DELETE of it was handled since |
| Pipeline.EventuallyTracks | pkg/storage/watch/storage.go:128-205 | for every interleaving of creates, rewrites, deletes, timers, releases and late handling: once all queues are empty every file on disk is in the index, a wrong mapping is of a lost path, and the index maps exactly the files on disk if and only if no lost path was found |
| Pipeline.TimelyTracksExactly | pkg/storage/watch/storage.go:128-205 | if updates are handled before files change again, the index then maps exactly the files on disk if and only if no path is lost |
| PipelineGap.RewriteThenDeleteIsLost | pkg/util/watcher/filewatcher.go:48-53 | from every quiet state with a right index, a rewrite and a delete under one timer lose a path and leave a mapping for a file that is gone |
| PipelineGap.LateHandlingSaves | pkg/storage/watch/storage.go:166-189 | from every quiet state with a right index there is a run that loses a path and still ends with the index right, because an update was handled too late to map it |
| GitRepo.GitDirectory.constructor | pkg/gitdir/gitdir.go:106-139 | nothing is cloned, noted or announced yet |
| GitRepo.GitDirectory.UseClone | pkg/gitdir/gitdir.go:286-299 | after a clone main is checked out at its commit, which is announced if HEAD can be read |
| GitRepo.GitDirectory.StartCheckoutLoop | pkg/gitdir/gitdir.go:180-300 | a clone done before is left alone; after a clone main is checked out and clean and its commit announced; one that fails or times out is an error, one that is cancelled is none but leaves nothing to read |
| GitRepo.GitDirectory.VerifyWrite | pkg/gitdir/gitdir.go:238-248 | an error exactly if nothing was cloned yet or there is no way to authenticate |
| GitRepo.GitDirectory.ObserveCommit | pkg/gitdir/gitdir.go:380-384 | the commit is noted and sent as soon as the channel has room, so the last one sent is lastCommit |
| GitRepo.GitDirectory.Pull | pkg/gitdir/gitdir.go:302-348 | moves the branch and the worktree even when reported as timed out, announces HEAD if it differs from the last commit and otherwise nothing, tells timeout, cancellation and failure apart, a cancellation being no error, and frees the lock on every path |
| GitRepo.GitDirectory.CheckoutNewBranch | pkg/gitdir/gitdir.go:350-360 | HEAD moves to a branch that did not exist, at the old HEAD; any failure is an error, and an existing branch is left alone |
| GitRepo.GitDirectory.CheckoutMainBranch | pkg/gitdir/gitdir.go:362-377 | afterwards main is checked out and the worktree is main's tree |
| GitRepo.GitDirectory.Commit | pkg/gitdir/gitdir.go:390-443 | a clean worktree commits nothing; otherwise the branch moves to the commit, whatever becomes of the push, and it is announced just if the push is reported as done |
| ObjectStorage.GenericStorage.Get | pkg/storage/storage.go:129-136 | succeeds if and only if the key is mapped, its file is there and can be read, and decodes |
| ObjectStorage.GenericStorage.Write | pkg/storage/storage.go:150-170 | succeeds only for a mapped key and changes its file only |
| ObjectStorage.GenericStorage.Create | pkg/storage/storage.go:172-184 | succeeds if and only if the object is identified, mapped and without a file yet, and writes that file only |
| ObjectStorage.GenericStorage.Update | pkg/storage/storage.go:186-198 | succeeds if and only if the object is identified and stored, and writes its file only |
| ObjectStorage.GenericStorage.Patch | pkg/storage/storage.go:201-213 | succeeds if and only if the object is stored and can be read and written and the patch applies, and writes its file only |
| ObjectStorage.GenericStorage.Delete | pkg/storage/storage.go:216-218 | succeeds exactly for a mapped key whose file is gone or can be removed, and removes file and mapping of that key only; failure changes nothing |
| ObjectStorage.GenericStorage.WalkKind | pkg/storage/storage.go:387-410 | visits stored objects of the kind only, with their contents; all of them, unless reading or visiting one fails, which stops the walk with an error |
| ObjectStorage.GenericStorage.Perform | pkg/storage/storage.go:172-218 | the operations of a function take effect one after another, a failed one having none |
| ObjectStorage.OperationsStayMapped | pkg/storage/mappedrawstorage.go:81-110 | any operations, failing or not, cost the index at most the keys deleted, bind no key anew, and touch no file but those of mapped keys |
| ObjectStorage.FilesAfter | pkg/storage/storage.go:172-218 | after any operations a file has some content if and only if the last create, update, patch or delete that changed the file put it there, or none changed it and it had it before |
| ObjectStorage.MappingsAfter | pkg/storage/mappedrawstorage.go:93-110 | a mapping is lost just by a delete of its key that succeeds, and none is added or changed |
| GitStorage.CommittedAsPut | pkg/storage/transaction/git.go:102-113 | on a path that the commit covers it holds exactly what the last operation that changed the file put there, or what was there before if none did |
| GitStorage.TransactionStorage.NewGitStorage | pkg/storage/transaction/git.go:19-42 | a storage is made if and only if the clone succeeds or was there or is cancelled, and the first walk succeeds; its index is that of the walk |
| GitStorage.TransactionStorage.ComputeMappings | pkg/storage/transaction/git.go:132-161 | the index is that of the walk, exact if and only if keys are unique |
| GitStorage.TransactionStorage.Sync | pkg/storage/transaction/git.go:66-74 | the index becomes the one computed from the worktree; a failed walk leaves it as it was |
| GitStorage.TransactionStorage.SyncOnce | pkg/storage/transaction/git.go:53-64 | one commit leaves the channel, and the index is recomputed without taking the lock |
| GitStorage.TransactionStorage.InBranch | pkg/storage/transaction/git.go:102-129 | succeeds exactly if the function, the commit, its push and any pull request do, a clean worktree needing no commit; a commit is made just if the function ends well and has changed the worktree, moves only the branch, and holds on every staged path what the worktree does; it is announced just if it is pushed |
| GitStorage.TransactionStorage.CheckoutAndRun | pkg/storage/transaction/git.go:97-129 | succeeds exactly if the checkout and what runs on the branch do; without a successful checkout nothing runs and the index stays; on success the branch is at main or at a commit of what the operations left; the lock is still held and main has not moved |
| GitStorage.TransactionStorage.Suspended | pkg/storage/transaction/git.go:89-129 | on every exit path main is checked out and clean before the lock is free |
| GitStorage.TransactionStorage.Transaction | pkg/storage/transaction/git.go:76-130 | succeeds exactly if the initial Pull, the checkout, the function, the commit, its push and any pull request do, a cancelled Pull or push counting as success and a clean worktree needing no commit; on every exit path the lock is free, main is clean and where the initial Pull left it, and the index is as before or as the function's operations left it, without at most the keys deleted; a failed function leaves no commit; success means a new branch, at main if the operations left the worktree as it was and otherwise at a commit that holds on every staged path what they left there |
| GitProtocol.LockStep | pkg/gitdir/gitdir.go:192-198 | every step of every thread keeps mutual exclusion: exactly the thread named by the lock is between taking it and giving it back |
| GitProtocol.HolderStep | pkg/storage/transaction/git.go:86-92 | every step that is not a start belongs to the holder of the lock, or makes its thread the holder of the free lock |
| GitProtocol.PlaceStep | pkg/storage/transaction/git.go:86-129 | every step keeps HEAD and the worktree where the holder's program point says: off main only between checkout and restore |
| GitProtocol.MainStep | pkg/storage/transaction/git.go:86-129 | so every step of every thread keeps both |
| GitProtocol.FreeLockMeansCleanMain | pkg/storage/transaction/git.go:86-129 | over every interleaving of pulls, transactions and syncs, on every exit path: when the lock is free the worktree is on main and clean |
| GitHistory.OnlyFetchMovesMain | pkg/gitdir/gitdir.go:302-377 | no step but the pull of a Pull moves local main |
| GitHistory.CommitsLandOnOwnBranches | pkg/storage/transaction/git.go:97-113 | over every interleaving each transaction commit is on a branch other than main, made by the committing thread, on which no other transaction commits, and which stays at that commit |
| GitHistory.BodyStartsOnFreshBranch | pkg/storage/transaction/git.go:97-103 | the function of a transaction starts on a branch that did not exist, at main's commit |
| GitHistory.AnnouncementsFollowHead | pkg/gitdir/gitdir.go:302-461 | over every interleaving the last hash sent is lastCommit; a Pull that compared heads returns with HEAD announced, also after an earlier one that was reported as timed out; no hash is sent twice in a row |
| GitOrder.StepsComeInOrder | pkg/storage/transaction/git.go:76-130 | over every interleaving the steps of each thread come in the order of the code: only a Pull that compared HEAD or was cancelled, and was that of a transaction, leads on to the lock and the checkout; a failed checkout, function, commit or push leads straight to the restore; only a push reported as done leads to an announcement |
| GitFunction.FunctionStep | pkg/storage/transaction/git.go:102-104 | while a thread runs its function each of its steps is an operation on the storage, and no step of another thread changes the worktree, the index or a branch, if there is no sync |
| GitFunction.FunctionIsItsOperations | pkg/storage/transaction/git.go:102-104 | so whatever the others do, worktree and index are as the operations of the function, one after another, leave them |
| GitFunction.CommitTaken | pkg/gitdir/gitdir.go:390-415 | a commit is made just if the worktree is not that of the branch, and it moves the branch of the transaction only |
| GitFunction.CommitHasItsOperations | pkg/storage/transaction/git.go:97-113 | and every file in it is as the last operation of the function that changed it left it, or as it was when the function began |
| GitProgress.AlwaysSomeStep | pkg/storage/transaction/git.go:53-98 | while anything is under way some step is possible that brings the end nearer; a send blocked under the lock waits only for the sync loop, which never takes the lock |
| GitProgress.NoDeadlock | pkg/storage/transaction/git.go:53-98 | in every reachable state with an unfinished Pull or transaction some step is possible, for any channel capacity of at least one |
| GitProgress.NoReacquire | pkg/gitdir/gitdir.go:192-198 | no thread waits for the lock it holds |
| GitProgress.CanFinish | pkg/storage/transaction/git.go:53-130 | from every state that keeps the invariants a bounded run without new starts finishes all that was started |
| GitProgress.NeverStuck | pkg/storage/transaction/git.go:53-130 | so every run can be completed |
| GitIndex.IndexMatchesMain | pkg/storage/transaction/git.go:53-130 | after every run: with the lock free, the channel drained, no sync pending and main's head announced last, the index is the one computed from main's tree, provided that the last sync succeeded and saw main's mappings, and since then no Pull moved main to the commit announced last and a transaction that deleted got announced; earlier failures do not matter |
| GitIndex.IndexIsExact | pkg/storage/transaction/git.go:132-161 | under the same conditions that index is the exact inverse of main's tree if and only if its keys are unique |
| GitIndex.IndexIsWhatWasSeen | pkg/storage/transaction/git.go:53-74 | after every run the index is that of the tree the last successful sync saw, without the keys deleted since |
| GitIndex.RightIffSeen | pkg/storage/transaction/git.go:53-74 | so after every run it is right for main if and only if that tree, without those keys, has main's mappings |
| GitIndex.TransactionLeavesMain | pkg/storage/transaction/git.go:86-113 | from the end of its initial Pull to its end, with no sync and no other thread taking the lock in between, a transaction leaves main and the files of the worktree as they were, and the index without the keys removed; the index is the same if and only if nothing was deleted |
| GitIndex.LockedTransactionLeavesMain | pkg/storage/transaction/git.go:90-129 | the same from Suspend to Resume whatever other threads do, with no sync in between |
| GitIndex.PullKeepsIndexRight | pkg/gitdir/gitdir.go:340-345 | with the index right before, once a Pull has been acted on it is right for the new main if and only if the commit pulled is not the one announced last or the two trees have the same mappings |
| GitIndex.SyncOnBranch | pkg/storage/transaction/git.go:53-74 | a sync while a transaction that then fails has the worktree on its branch: all comes to rest with a right index if and only if the worktree had main's mappings |
| GitGap.AbortedDeleteIsLost | pkg/storage/transaction/git.go:86-104 | from every start there is a run in which a transaction deletes and fails, and all comes to rest with a wrong index |
| GitGap.SyncOnBranchIsWrong | pkg/storage/transaction/git.go:53-104 | one in which a sync sees the worktree of a transaction that fails |
| GitGap.MergedCommitIsSilent | pkg/gitdir/gitdir.go:340-345 | one in which main is brought to a transaction's own commit, announced before |
| GitGap.FailedWalkIsStale | pkg/storage/transaction/git.go:56-62 | and one in which the walk of the last sync fails |
| Frames.BlankMeaning | pkg/serializer/frame_reader.go:126 | a frame says nothing if all its bytes are tabs, newlines, vertical tabs, form feeds, carriage returns and spaces |
| Frames.MarkerMeaning | pkg/serializer/frame_reader.go:58-60 | a line that starts with three dashes is a marker if and only if it ends there or white space follows |
| Frames.SplitJoin | pkg/serializer/frame_reader.go:58-60 | streams of whole lines can be split into documents separately |
| Frames.SplitUnmarked | pkg/serializer/frame_reader.go:58-60 | text without a marker line is one document |
| Frames.SplitSeparator | pkg/serializer/frame_writer.go:84-89 | the separator in front of a stream opens one more document |
| Frames.SplitMakesDocuments | pkg/serializer/frame_reader.go:58-60 | the documents of any stream have no marker lines and end their last lines, but for the last document of a stream that does not |
| FrameWriter.ByteWriter.constructor | pkg/serializer/frame_writer.go:104-106 | nothing is written yet |
| FrameWriter.ByteWriter.Write | pkg/serializer/frame_writer.go:114-128 | if there is room all bytes are appended after those written so far, and otherwise none is and nothing changes; bytes beyond the end are untouched |
| FrameWriter.YamlWriter.constructor | pkg/serializer/frame_writer.go:68-73 | no separator is due yet |
| FrameWriter.YamlWriter.Write | pkg/serializer/frame_writer.go:82-100 | fails if and only if there is no room for the frame and, after a first success, the four bytes of the separator before it; what is appended is the separator if due and the frame, or on failure at most the separator; a failed frame does not count as written |
| FrameWriter.YamlWriter.WriteEach | pkg/serializer/frame_writer.go:82-128 | a session of writes, failures included, appends what each appends and returns the frames that succeeded |
| FrameWriter.RoomForAll | pkg/serializer/frame_writer.go:82-128 | a session writes every frame if and only if there is room for all frames and the separators between them |
| FrameWriter.YamlWriter.WriteFrameList | pkg/serializer/frame_utils.go:28-37 | no error if and only if the frames and the separators between them all fit; then they are what is appended; at the first error it stops, having tried just the frames up to that one |
| FrameWriter.StopsAtFirstFailure | pkg/serializer/frame_utils.go:28-37 | later frames cannot make up for a failed one |
| FrameReader.DocumentReader.Read | pkg/serializer/frame_reader.go:103-110 | the framer delivers a document, or fills the buffer and reports it as short |
| FrameReader.NextFrameMeaning | pkg/serializer/frame_reader.go:111-132 | the next frame is the first document that says something, unless an oversized one comes before it, and at the end there is none |
| FrameReader.FramesReader.ReadFrame | pkg/serializer/frame_reader.go:95-143 | returns the next document that is not blank, whole, for every buffer size; overflow exactly at an oversized document; closes at the end; no buffer is larger than the larger of the buffer size and twice the maximum |
| FrameReader.FramesReader.ReadFrameList | pkg/serializer/frame_utils.go:10-25 | returns all frames up to the end, or the first error, with the same bound on buffers; it ends |
| FrameReader.AllFramesRead | pkg/serializer/frame_utils.go:10-25 | without an oversized document the list is all documents that are not blank, in order |
| FrameReader.OverflowExactly | pkg/serializer/frame_reader.go:111-115 | overflow is reported if and only if there is an oversized document |
| FrameReader.ListMeaning | pkg/serializer/frame_utils.go:10-25 | a list that is read is that of the documents that are not blank, none of them oversized |
| FrameReader.ErrorsAreReported | pkg/serializer/frame_utils.go:10-25 | without an oversized document any end but the end of the stream is the error of the list |
| FrameRoundTrip.ExtendHolds | pkg/serializer/frame_writer.go:82-128 | after every write, failed or not, the bytes hold the frames written and otherwise only empty documents |
| FrameRoundTrip.SessionHolds | pkg/serializer/frame_writer.go:82-128 | so they do after any session |
| FrameRoundTrip.OpenEnd | pkg/serializer/frame_writer.go:82-128 | so they do if the last frame ends no line and nothing was written after it |
| FrameRoundTrip.RoundTrip | pkg/serializer/frame_reader.go:95-143 | reading the bytes of any session gives exactly the frames whose write succeeded, if and only if each of these says something, fits, has no marker line, and ends its last line or is the last thing written |
| FrameRoundTrip.WriteThenRead | pkg/serializer/frame_utils.go:10-37 | the same through the writers, the buffer and the readers themselves, for any frames and every size of either buffer; all frames are written if and only if they and the separators between them fit, and frames that can be carried and fit come back complete |
| Paths.SplitOfJoin | pkg/storage/rawstorage.go:186-208 | splitting undoes joining for components without slashes |
| Paths.CleanIdempotent | pkg/storage/rawstorage.go:186-208 | a cleaned path is clean |
| Paths.CleanKeepsMeaning | pkg/storage/rawstorage.go:72-74 | walked component by component from any directory, going up at each `..`, the cleaned path leads where the path leads |
| Paths.CleanHasNoDetours | pkg/storage/rawstorage.go:72-74 | of the components of a cleaned path none is empty or a dot, and none is `..` but at the front of a path that is not rooted |
| Paths.DownAndUp | pkg/storage/rawstorage.go:72-74 | a component followed by `..` leaves nothing |
| Paths.KeyPathForm | pkg/storage/rawstorage.go:72-74 | the path of a key is the cleaned base directory with kind, identifier and metadata file |
| Paths.KeyPathBelow | pkg/storage/rawstorage.go:72-74 | below a clean directory the path of a key is the directory, the kind, the identifier and `metadata` with the extension, joined by slashes |
| Paths.KeyPathInjective | pkg/storage/rawstorage.go:72-74 | different keys have different paths, for every base directory |
| Paths.GetKeyRecovers | pkg/storage/rawstorage.go:186-208 | the key of a key's path is that key, unless the cleaned base directory is the root or the current directory, and then it is rejected |
| Paths.GetKeyExactly | pkg/storage/rawstorage.go:186-208 | a path has a key if and only if it lies below the base directory by at least two components, and these are its kind and identifier |
| RawStorage.PutTidy | pkg/storage/rawstorage.go:111-127 | writing keeps the layout of one directory and one file per object |
| RawStorage.PutRefines | pkg/storage/rawstorage.go:111-127 | writing changes the stored map at its key and nowhere else |
| RawStorage.DropTidy | pkg/storage/rawstorage.go:129-141 | deleting keeps the layout |
| RawStorage.DropRefines | pkg/storage/rawstorage.go:129-141 | deleting removes its key and disturbs no other |
| RawStorage.EntriesAreIds | pkg/storage/rawstorage.go:143-160 | the directory of a kind has exactly the stored identifiers as entries |
| RawStorage.TreeRefinesMap | pkg/storage/rawstorage.go:111-141 | any sequence of writes and deletes does to the tree what it does to a map |
| RawStorage.GenericRawStorage.Exists | pkg/storage/rawstorage.go:102-109 | true if and only if the group and version are supported and the map has the key |
| RawStorage.GenericRawStorage.Read | pkg/storage/rawstorage.go:88-100 | reads what the map holds, from the file at the path of the key; rejects an unsupported group or version, and a key not stored |
| RawStorage.GenericRawStorage.Write | pkg/storage/rawstorage.go:111-127 | updates the map at the key and writes the file at its path, making directories as needed; rejects an unsupported group or version |
| RawStorage.GenericRawStorage.Delete | pkg/storage/rawstorage.go:129-141 | removes the key from the map; errors, changing nothing, if it is not stored or not supported |
| RawStorage.GenericRawStorage.List | pkg/storage/rawstorage.go:143-160 | lists each stored key of the kind exactly once; an error if the kind has no directory |
| RawStorage.GenericRawStorage.GetKey | pkg/storage/rawstorage.go:186-208 | the loop over components decides whether the base directory is a prefix and names the two components after it |

## Left out

Assumptions on granularity:

- Atomic steps: Load followed by Store, Range followed by the reset of the map, pairing and
  timeout of a rename half, and a pull's move of branch and worktree are one step each; the code
  does not enforce all of that. Data races below these steps are not modelled.
- The cache of rename halves is one variable of the package; the model has one per watcher.
- Wall-clock durations: a timer may run out at any time.
- A transaction's function is assumed to return, with a result when it returns no error. A failed
  checkout of a new branch may leave the branch, HEAD and the worktree changed.
- GitRepo.GitDirectory.CheckoutMainBranch: the forced checkout and clean of main are assumed to
  succeed once the repository can be written to; their error is ignored and nothing tries again.
- RawStorage.GenericRawStorage.Write: calls to the operating system that fail on a tidy tree, such as
  on a full disk, are not modelled; they can leave a directory without its file behind.
- RawStorage.GenericRawStorage.Delete: the same for a removal that fails half way.
- What a transaction's function computes is not modelled, only the operations it makes on the storage.
- `GitStorage` states a transaction call by call and `GitProtocol` step by step. Both are over the
  functions of `GitRepo` for what each git operation does and over the operations of `ObjectStorage`
  (`GitFunction.FunctionIsItsOperations`), but no lemma maps a whole call to a run.
- Which paths a commit covers is up to go-git: `staged` is a parameter of a commit.
- A git directory whose clone succeeded but whose HEAD could not be read is modelled for the calls of
  `GitRepo`; `GitProtocol` starts from a clone whose commit was announced.

Parts of the repository:

- inotify, go-git, HTTP, SSH and the providers of pull requests: results are parameters or steps.
- The splitter of YAML documents is a library that is not part of this model; documents are divided
  at marker lines as in section 9.1.2 of YAML 1.2 and keep their own newlines. Document end markers
  (`...`) and white space outside ASCII are not modelled. JSON framing is not modelled.
- Encoding, decoding, patching and conversion of objects: their results are parameters. A file
  either holds an object with a key or does not decode; objects that decode but cannot be
  identified are assumed not to occur.
- Excluded directories of the watcher: a path is valid if its extension is listed, which is also all
  that the code's check comes to. Paths of events are taken to be clean.
- Identifiers and kinds of more than one path component in `GenericRawStorage`; checksums, content
  types, metadata listings, filters, `Cleanup` and the closing of watchers beyond `BatchWriter`.
- The random suffix of a branch name ending in a dash: the full name is given.
- `kindKeyPath` is used as the address of the kind's directory, and the directory of a path is the
  path without its last component.
- The commented-out packages `pkg/storage/cache` and `pkg/storage/sync`, comments of YAML documents,
  generated code and the sample applications.

Properties stated under conditions:

- Pipeline.EventuallyTracks: no renames and no Suspend, and one fixed key per path.
- GitIndex.IndexMatchesMain: the conditions in its row, on the last sync and the steps since;
  `GitIndex.RightIffSeen` has none.
- GitIndex.TransactionLeavesMain: no other thread takes the lock between the end of the Pull and
  Suspend, since it could move main; `GitIndex.LockedTransactionLeavesMain` does without.
