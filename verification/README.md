# ArcaneDB: a model of its transactions, storage and log, with proofs

ArcaneDB is a transactional store. This project models its hard core in Dafny and proves what that core is for.

- **Commit protocol** (`Occ*`, `TxnContext`). Transactions buffer writes, put locked intents on the pages, take a commit
  timestamp, validate what they read, and stamp or abort their intents. The protocol is a step machine over shared
  version lists, the timestamp oracle, a lock map, the snapshot tracker and the log; a run is any interleaving of the
  steps of any number of transactions, under any of the three lock managers. The main results are serializability in
  commit timestamp order, closed and stable snapshots, repeatable reads, aborts that leave no trace, and exactly when
  commits can fail to end. `TxnContext` has the loops of CommitOrAbort as methods whose rounds are the machine's steps.
- **Pages** (`Versions`, `DeltaNode`, `DeltaPage`, `DeltaTheorems`, `PageRefinement`). A page is a chain of delta nodes.
  Its reads and writes, including compaction, refine one version list per key, and the chain stays short.
- **Snapshot tracker** (`LinkRing`, `LinkBuf`, `Snapshot*`). The lock-free link buffer is a step machine over its loads,
  stores and compare-and-swaps. Run beside the commit protocol, and kept inside its window of one lap, it yields runs of
  the protocol, so a snapshot taken from its tail reads a serial execution.
- **Lock table** (`LockTable`, `LockRefinement`). Queueing and waking refine the plain lock map the protocol uses, also in
  joint runs with it.
- **Log and recovery** (`LogRecords`, `LogSegments`, `SealRace`, `LogStore*`, `Recovery*`). Appenders, sealers and the io
  thread are a step machine over a ring of segments; the file is always a beginning of the log in LSN order, a reader of
  any cut of it finds exactly the whole records, and replaying any beginning of the protocol's log rebuilds the pages.
  The races inside sealing one segment have a machine of their own.
- **Keys and rows** (`Lex`, `Words`, `SortKey`, `SortKeyCodec`, `RowCodec`, `Rows`). Encoded keys compare as the tuples
  they encode; keys and rows read back as written.
- **Cache and routing** (`HandleTable`, `LruCache`, `InternalPage`).

Steps are atomic accesses and memory is sequentially consistent throughout. Transactions are named by their read
timestamp, which the oracle hands out once; runs stop before timestamps exceed the largest one. Timestamps, offsets and
LSNs are unbounded numbers except where a width is written out (lock bit, control word, record and row lengths).

## Where the code falls short of its intent

These are modelled as the code has them, with the exact condition under which the intent holds.

- Sealing a log segment keeps its "no writers" flag across failed compare-and-swaps, so the io thread can be handed a
  segment with a writer inside (`SealRace.EarlyIoExact`, `LogSegments.StaleFlagSchedulesIo`), and it writes the valid size
  only after the hand-over, so the io thread can read zero (`SealRace.StaleSizeExact`, `SealRace.LateWriterMeetsIo`). The
  log store machine takes a seal as one step, in which the flag is right and the valid size is set before the io thread
  can look.
- `AdvanceSegmentIndex_` loops while its compare-and-swap succeeds: one increment with two segments or more, endless
  with one (`LogStoreTheorems.AdvanceSegmentIndex`, `LogStoreTheorems.OneSegmentSpins`).
- The persistent LSN is read from the next segment before that segment need have been given its new start LSN. It never
  runs ahead of the file, but it can lag behind it (`LogStoreTheorems.PersistExact`) and move backwards
  (`LogStorePersist.PersistMovesBack`, `LogStorePersist.PersistFallsBack`); what it once promised stays readable
  (`LogStoreTheorems.DurableRecord`).
- A batch longer than a segment is never accepted, and its appender tries for ever (`LogStoreAppend.OversizeNeverFits`);
  every other batch that finds no room can have the segment sealed (`LogStoreAppend.ReplyMeans`).
- Validation waits for foreign intents while its own stand, so transactions that each read what another writes can wait for
  one another for ever (`OccDeadlock.WriteSkewDeadlocks`, `OccProgress.DeadlockForever`). Nothing else keeps commits from
  ending (`OccProgress.NobodyCanGoOn`, `OccProgress.CommitIsBounded`, `OccProgress.Drains`).
- Publishing a timestamp stores a link in the buffer whether or not it is less than a lap ahead of the tail, and only
  taking a snapshot moves the tail. Inside that window, `ts < tail + slots`, snapshots are right
  (`SnapshotRefinement.TrackedSnapshotReads`). Outside it the tail can pass timestamps that are not published, exactly
  under the condition of `LinkBuf.LinkOutsideWindow` and `SnapshotWindow.PublishOutsideWindow`; one slow commit and a
  lap of begins are enough (`SnapshotInput.SlowCommitPassed`).
- A failed validation never publishes its commit timestamp. Snapshots stop at it while publishing stays inside the window
  (`SnapshotWindow.WindowCloses`, `SnapshotWindow.LostCommitHoldsTail`), and pass it once the timestamp a lap later is
  published (`SnapshotWindow.LapPassesLostCommit`).
- Negative float keys are encoded like their absolute values (`SortKey.FloatColumnExact`,
  `SortKeyCodec.ValueRoundTrip`).
- A row of 2^16 bytes or more has a wrong length field (`RowCodec.AsSliceExact`), and a sort key of that length is cut short
  (`RowCodec.SortKeysExact`).
- UpdateCharge on an entry that has left the cache spoils the usage (`LruCache.RechargedExact`).

## Model

| member | source | states |
|---|---|---|
| `TxnTs.LockRoundTrip` | src/common/type.h:33-41 | marking a timestamp locked and taking the mark off are inverse up to the largest timestamp, and the mark never collides with a plain timestamp |
| `Versions.VisiblePastIntent` | src/btree/page/versioned_delta_node.h:256-262 | an intent on top of a list is invisible at every timestamp a reader can have |
| `Versions.PrunedVisible` | src/btree/page/versioned_delta_node.cpp:51-54 | leaving out aborted versions changes what is visible at no timestamp |
| `Versions.VisibleStep` | src/btree/page/versioned_delta_node.h:179-198 | in a falling list the version visible at a timestamp is the one stamped with it, or the one visible just below it |
| `OccPages.StepKeeps` | src/txn/txn_context_occ.cpp:112-160 | every step of any transaction, under each of the three lock managers, keeps the protocol's invariant and changes each list in one of five permitted ways |
| `OccPages.RunHolds` | src/txn/txn_context_occ.cpp:112-160 | the invariant holds in every state of every interleaving |
| `OccPages.InstallFindsUnlocked` | src/txn/txn_context_occ.cpp:196-218 | an intent that is written never covers a foreign intent, by the intent check or by the lock table |
| `OccSteps.AgreementIsValid` | src/txn/txn_context_occ.cpp:220-245 | a validated key held, just below the commit timestamp, the value that was read |
| `OccInv.SettledStays` | src/txn/txn_context_occ.cpp:130-158 | a point in time that no transaction can still write below gives the same read after any permitted change |
| `OccTheorems.SettledValue` | src/txn/txn_context_occ.cpp:149-150 | at such a point the table holds what executing the commits one after the other left |
| `OccTheorems.CommitReplays` | src/txn/txn_context_occ.cpp:137-150 | executing a committed transaction after all commits with smaller timestamps reproduces every read it made and leaves its writes |
| `OccTheorems.Serializable` | src/txn/txn_context_occ.cpp:112-160 | in every reachable state of every interleaving the committed transactions, executed serially in commit timestamp order, reproduce all their reads and the table's contents; every transaction that returned Commit is among them, and the operations executed are those its user asked for, in order |
| `OccRequests.OpsAreRequests` | src/txn/txn_context_occ.cpp:25-88 | over every run a transaction's record has one operation for each call of its user, in order: a write with the value that was asked for, a read of the key that was asked for |
| `OccRequests.LogHasOutcomes` | src/txn/txn_context_occ.cpp:137-150 | over every run the log has a commit record of a transaction exactly if it is among the commits under that timestamp, an abort record exactly if it met a conflict or failed validation, and never a second outcome record |
| `OccTheorems.SerialOrderIsRealTime` | src/txn/txn_manager_occ.h:48-59 | in every run, a transaction that begins after another was given its commit timestamp, and so after that one returned Commit, gets a larger one whenever it commits |
| `OccTheorems.SettledForever` | src/btree/page/versioned_bwtree_page.cpp:155-173 | from a settled point on, no later state of the run changes a read at it |
| `OccTheorems.SnapshotReads` | src/txn/snapshot_manager.h:126-132 | a read-only transaction sees, in any later state and at any key, the serial execution up to its snapshot; ignoring locks it never waits, respecting them it waits or reads the same |
| `OccTheorems.VersionLists` | src/btree/page/versioned_bwtree_page.cpp:257-287 | in every reachable state timestamps fall strictly from newest to oldest, aborted versions aside, and only the newest version can be locked, by the one transaction in flight that still has to resolve it |
| `OccTheorems.RepeatableRead` | src/txn/txn_context_occ.cpp:54-88 | two reads of a key at any two steps of any run each give the transaction's own buffered write if there is one; if neither finds one, both give the same version and value and leave the same stamp in the read set, whoever commits in between |
| `OccTheorems.ValidationExact` | src/txn/txn_context_occ.cpp:220-245 | validating a key passes exactly if a read at the commit timestamp gives the version that a read at the read timestamp gives, or neither gives a row |
| `OccReads.CommitsBelowReadAreInstalled` | src/txn/txn_context_occ.cpp:130-137 | when a read timestamp is handed out, every write of every commit below it is on its page, stamped or as the newest, locked version that makes a reader wait |
| `OccTheorems.ResolutionFindsIntent` | src/btree/page/versioned_bwtree_page.cpp:214-225 | stamping or aborting always finds the transaction's own intent, newest and locked, so SetTs never reaches its failure |
| `OccTheorems.AbortLeavesNoTrace` | src/txn/txn_context_occ.cpp:130-147 | after an abort no version of the transaction is locked or carries its timestamp anywhere, and no read by anybody depends on the aborted versions left behind |
| `OccProgress.CommitIsBounded` | src/txn/txn_context_occ.cpp:112-160 | in every run, committing or aborting takes at most twice the writes, once the reads and three steps of the transaction's own, whatever others do in between |
| `OccProgress.NobodyCanGoOn` | src/txn/txn_context_occ.cpp:220-245 | in every reachable state no committing transaction has a step of its own to take exactly if each waits, on every key it has left to validate, for another of them |
| `OccProgress.DeadlockForever` | src/btree/page/versioned_bwtree_page.cpp:140-152 | transactions that wait for one another like this still do in every later state: their validation never ends |
| `OccProgress.Drains` | src/txn/txn_context_occ.cpp:112-160 | from every reachable state, with timestamps to spare, the committing transactions can run on by themselves until all have ended but those that wait for one another for ever |
| `OccDeadlock.WriteSkewDeadlocks` | src/txn/txn_context_occ.cpp:130-147 | under each lock manager, two transactions that each read what the other writes reach such a state |
| `TxnContext.ForeignIntent` | src/btree/page/versioned_bwtree_page.cpp:82-85 | an intent found under a write is a conflict, and is somebody else's |
| `TxnContext.ValidateRound` | src/txn/txn_context_occ.cpp:220-243 | a validating read sees through the transaction's own intent, and agrees exactly if the version it read is still the newest |
| `TxnContext.TxnContextOCC.WriteIntents` | src/txn/txn_context_occ.cpp:196-218 | all writes are installed exactly if no key carries a foreign intent; otherwise those already installed are marked aborted and nothing else changes |
| `TxnContext.TxnContextOCC.ValidateRead` | src/txn/txn_context_occ.cpp:220-245 | the answer is yes exactly if no foreign intent is on a key that was read and the whole read set is still current; no only if some read is stale; otherwise it waits for a foreign intent |
| `TxnContext.TxnContextOCC.CommitIntents` | src/txn/txn_context_occ.cpp:247-254 | every intent carries the commit timestamp afterwards, and no other version changes |
| `TxnContext.TxnContextOCC.ResolveIntents` | src/txn/txn_context_occ.cpp:181-194 | every intent of the set is marked aborted, and no other version changes |
| `TxnContext.TxnContextOCC.ValidateAndResolve` | src/txn/txn_context_occ.cpp:137-159 | once all intents are written the transaction commits exactly if its reads are current and meet no foreign intent; every list is known in each of the three outcomes |
| `TxnContext.TxnContextOCC.CommitOrAbort` | src/txn/txn_context_occ.cpp:112-160 | left alone, the transaction commits exactly if no key it wrote or read carries a foreign intent and every read is current; it waits only for a foreign intent on a key it read; in every outcome every list is known |
| `DeltaNode.LowerBound` | src/btree/page/versioned_delta_node.h:145-151 | the index that separates smaller sort keys from the others |
| `DeltaNode.Find` | src/btree/page/versioned_delta_node.h:152-162 | the row of a key, or none |
| `DeltaNode.GetRow` | src/btree/page/versioned_delta_node.h:142-199 | the node's answer is the read of the node's own version list for the key, lock handling included |
| `DeltaNode.SetTs` | src/btree/page/versioned_delta_node.h:209-241 | the newest version of the key gets the timestamp if the node has it and it is locked, and the two other cases are told apart; every other list of the node stays |
| `DeltaPage.Builder.AddDeltaNode` | src/btree/page/versioned_delta_node.cpp:47-60 | the node's live versions are appended, per key, after those of newer nodes |
| `DeltaPage.Builder.GenerateDeltaNode` | src/btree/page/versioned_delta_node.cpp:62-87 | the node built is sorted and has, for every key, exactly the collected versions in order |
| `DeltaPage.ChainReadIsListRead` | src/btree/page/versioned_bwtree_page.cpp:155-173 | walking the chain node by node gives the read of the concatenated version lists |
| `DeltaPage.Page.GetRowOnce` | src/btree/page/versioned_bwtree_page.cpp:155-173 | status and version are those of one read of the key's version list |
| `DeltaPage.Page.CheckRowLocked` | src/btree/page/versioned_bwtree_page.cpp:175-193 | true exactly if the key's newest version is somebody else's intent |
| `DeltaPage.Page.SetRow` | src/btree/page/versioned_bwtree_page.cpp:69-103 | refused exactly on a checked foreign intent; otherwise the list of the key gains the version and at most aborted versions are lost anywhere |
| `DeltaPage.Page.DeleteRow` | src/btree/page/versioned_bwtree_page.cpp:105-139 | the same for a deletion marker |
| `DeltaPage.Page.Compaction` | src/btree/page/versioned_bwtree_page.cpp:27-48 | a beginning of the chain becomes one node with the same live versions, and the merge goes on exactly as long as the size rule says |
| `DeltaTheorems.CompactionRule` | src/btree/page/versioned_bwtree_page.cpp:27-60 | no compaction up to sixteen nodes or when disabled; beyond, each node merged has one row or fewer than twice the rows merged so far, and the node it stops at has more than one and at least twice those of the merged node |
| `DeltaTheorems.CompactedIsClean` | src/btree/page/versioned_delta_node.cpp:47-60 | the merged node has exactly the versions of the merged nodes that are not aborted |
| `DeltaTheorems.ForcedWriteIsOneNode` | src/btree/page/versioned_bwtree_page.cpp:37-60 | a write with compaction forced leaves one node, with every live version of every key in order |
| `DeltaPage.Page.SetTs` | src/btree/page/versioned_bwtree_page.cpp:195-226 | succeeds exactly if the key's newest version is there and locked; then that version gets the timestamp, no other list and no node size changes, and otherwise nothing does |
| `DeltaTheorems.CompactionPreservesReads` | src/btree/page/versioned_bwtree_page.cpp:27-60 | full or partial compaction gives every key, timestamp, owner and lock setting the same status and version as before |
| `DeltaTheorems.BuriedLockChangesReads` | src/btree/page/versioned_delta_node.cpp:49-58 | without the rule that only the newest version may be locked, compaction can change a read |
| `DeltaTheorems.WriteKeepsShort` | src/btree/page/versioned_bwtree_page.cpp:50-60 | a write keeps the chain single-row nodes above nodes that at least double, or within sixteen nodes |
| `DeltaTheorems.ShortChainBound` | src/btree/page/versioned_bwtree_page.cpp:37-60 | such a chain has at most sixteen nodes, or at most one more than the binary logarithm of the number of distinct keys |
| `DeltaTheorems.ChainStaysShort` | src/btree/page/versioned_bwtree_page.cpp:27-60 | a page built from empty by any writes and stamps, with compaction enabled, meets that bound after every call |
| `PageRefinement.WriteIntent` | src/btree/page/versioned_bwtree_page.cpp:69-103 | a page write is one install step of the protocol, followed by a compaction step |
| `PageRefinement.StampIntent` | src/btree/page/versioned_bwtree_page.cpp:195-226 | a page stamp is one stamp step of the protocol |
| `PageRefinement.AbortIntent` | src/btree/page/versioned_bwtree_page.cpp:195-226 | a page stamp with the aborted mark is one abort step of the protocol |
| `PageRefinement.ReadThroughPage` | src/btree/page/versioned_bwtree_page.cpp:155-173 | a page read returns what the protocol's read of the key returns |
| `LockTable.StepKeeps` | src/common/lock_table.cpp:20-43 | an entry counts its waiters, stays while it has any, and without waiters is locked |
| `LockTable.StepRefines` | src/common/lock_table.cpp:20-43 | every access is a step of a plain map from keys to holders: taken only when free, released only by the holder, unchanged by queueing |
| `LockTable.WaiterHasEntry` | src/common/lock_table.cpp:73-87 | a waiter never finds its entry erased, and can take the key as soon as nobody holds it |
| `LockTable.LockChecks` | src/common/lock_table.cpp:29-32 | a transaction that locks each key once at most never meets its own entry, and the check on the waiter count holds exactly if fewer than 255 transactions wait for the key |
| `LockRefinement.RunAgrees` | src/common/lock_table.cpp:20-87 | in every joint run of the protocol and the lock tables, the entries and the protocol's lock map agree on every key of every table |
| `LockRefinement.LockAccessIsProtocolStep` | src/common/lock_table.cpp:20-87 | a lock taken is a write the protocol allows, an unlock is the protocol's unlock, and queueing is nothing to it |
| `LinkBuf.StepKeeps` | src/util/linkbuf.h:312-397 | every atomic access of every thread keeps the buffer's invariant |
| `LinkBuf.TailSafety` | src/util/linkbuf.h:375-390 | under all interleavings at most one thread is past the swap, its check on the tail holds, and every position below the tail, or about to be passed, has been linked |
| `LinkBuf.TailMonotone` | src/util/linkbuf.h:387-390 | the tail never moves back |
| `LinkBuf.SwapWins` | src/util/linkbuf.h:343-356 | a swap that succeeds finds the tail still where the thread read it, and nobody else inside |
| `LinkBuf.LapAhead` | src/util/linkbuf.h:327-335 | a slot a lap ahead of a position proves that the tail has passed the position |
| `LinkBuf.WalkFollowsLink` | src/util/linkbuf.h:272-282 | the walk moves only from a linked position to the next one, despite slots left over from earlier laps |
| `LinkBuf.GivesUpWithReason` | src/util/linkbuf.h:320-372 | in every run, a thread that returns without moving the tail found it without a link or already moved on, or another thread is moving it, or the thread has used up its retries |
| `LinkBuf.AloneLands` | src/util/linkbuf.h:312-397 | from any slots whatever, a thread that runs alone puts the tail where following the raw slot values ends |
| `LinkBuf.AloneReachesHole` | src/util/linkbuf.h:312-397 | from any reachable state without a lock held, a thread that runs alone puts the tail on the first position not linked |
| `LinkBuf.LinkOutsideWindow` | src/util/linkbuf.h:260-270 | after a link a lap or more ahead, a thread alone stops at the first hole if the overwritten slot lies behind it and jumps past the link otherwise; it passes only linked positions exactly in the first case, or if the window was full and the link the next position |
| `LinkRing.LapLanding` | src/util/linkbuf.h:327-390 | the same on the ring of slots: where advancing lands, and that it is the first hole exactly under that condition |
| `LinkRing.RingLinked` | src/util/linkbuf.h:260-270 | a new link keeps the ring in order exactly if it is less than a lap ahead of the tail |
| `LinkRing.LinkBuffer.AddLink` | src/util/linkbuf.h:260-270 | the slot is overwritten whatever is there, and the ring still tells every linked position of the window from the others exactly if the position was in the window |
| `LinkRing.LinkBuffer.AdvanceTail` | src/util/linkbuf.h:312-397 | run alone on any slots, the tail lands where the slot values lead; if every link was added in the window, on the first position not linked |
| `SnapshotRefinement.ConstructorReady` | src/txn/snapshot_manager.h:117-124 | linking position 0 and advancing leaves the tail at 1, as the constructor checks |
| `SnapshotRefinement.PublishedOnce` | src/txn/txn_manager_occ.h:48-63 | no timestamp is handed to the tracker twice |
| `SnapshotRefinement.BufferStep` | src/util/linkbuf.h:375-390 | storing the tail passes only timestamps that were published |
| `SnapshotRefinement.RunProjects` | src/txn/snapshot_manager.h:115-136 | every joint run of the transactions and of the threads inside the buffer that publishes inside the window is a run of the protocol |
| `SnapshotRefinement.TrackedSnapshotReads` | src/txn/snapshot_manager.h:128-132 | as long as every timestamp was published less than a lap ahead of the tail, a snapshot taken from the buffer's tail reads the serial execution up to it in every later joint state, and the tail never moves back |
| `SnapshotRefinement.TailReachesClock` | src/txn/snapshot_manager.h:126-132 | the tail can catch up with the oracle exactly if no timestamp from the tail on awaits publication or was lost to a failed validation |
| `SnapshotWindow.SnapshotReachesClock` | src/txn/snapshot_manager.h:126-132 | if no timestamp is owed and no thread holds the buffer's lock, any idle thread that runs alone brings the snapshot up to the oracle's clock |
| `SnapshotWindow.WindowCloses` | src/txn/txn_context_occ.cpp:137-147 | after a failed validation with commit timestamp d, the tail stays at or below d while publishing stays inside the window, and nothing from d plus a lap on can be published inside it |
| `SnapshotWindow.LostCommitHoldsTail` | src/txn/txn_context_occ.cpp:137-147 | once the tail stands at d it stays there while every published timestamp is below d plus a lap |
| `SnapshotWindow.LapPassesLostCommit` | src/util/linkbuf.h:327-356 | with the tail at d, publishing d plus a lap makes the next advance pass d, which is never published |
| `SnapshotWindow.PublishOutsideWindow` | src/txn/snapshot_manager.h:126-132 | a timestamp published outside the window: where the next advance puts the snapshot, and exactly when everything below it is published |
| `SnapshotInput.SlowCommitPassed` | src/txn/snapshot_manager.h:126-132 | a run with four slots in which one commit is in flight while three transactions begin, and the snapshot passes the commit |
| `Recovery.OccRecovery.SetRow` | src/txn/occ_recovery.cpp:79-103 | a write record puts its version on top and counts it |
| `Recovery.OccRecovery.SetTs` | src/txn/occ_recovery.cpp:105-115 | a stamp record restamps the newest version, which must be locked, and counts it off |
| `Recovery.OccRecovery.Recover` | src/txn/occ_recovery.cpp:22-56 | the loop succeeds exactly if replaying the whole log does, with the same pages and map |
| `RecoveryTheorems.StepTracks` | src/btree/page/versioned_bwtree_page.cpp:81-98 | after every protocol step the log replays to the live pages, up to aborted versions, with the right counters |
| `RecoveryTheorems.OpenIntentsAreHeld` | src/txn/occ_recovery.cpp:136-149 | the recovered locked versions of a transaction are exactly the intents it still had to resolve |
| `RecoveryTheorems.CrashRecovery` | src/txn/occ_recovery.cpp:22-56 | any beginning of the log of any run replays, every stamp record finding its locked version and every counter check holding, to an earlier state of the run: same live versions, same reads, each counter the number of the transaction's open intents, and a transaction in the map exactly from its begin record to its last resolved intent |
| `RecoveryTheorems.CompactingRecovery` | src/txn/occ_recovery.cpp:79-115 | compaction during the replay fails no record, and changes no map entry and no read |
| `LogRecords.PeekFrame` | src/log_store/posix_log_store/log_record.h:31-40 | a framed record at the front of any bytes is read back whole with its LSN, unless it is empty |
| `LogRecords.PeekTorn` | src/log_store/posix_log_store/posix_log_store.cpp:244-283 | a proper beginning of a framed record shows no record |
| `LogRecords.TornTail` | src/log_store/posix_log_store/posix_log_store.cpp:244-295 | any byte prefix of a framed log reads back as exactly the records that lie whole in it |
| `LogRecords.WholeIsLongest` | src/log_store/posix_log_store/posix_log_store.cpp:244-295 | those are the longest run of non-empty records that fits |
| `LogRecords.WholeEntries` | src/log_store/posix_log_store/log_record.h:31-40 | each has its own data and the LSN it was given, which is its byte position |
| `LogRecords.FrameAllConcat` | src/log_store/posix_log_store/posix_log_store.cpp:132-141 | batches framed one after the other are the records framed in one go |
| `LogRecords.PosixLogReader.constructor` | src/log_store/posix_log_store/posix_log_store.cpp:297-308 | the reader starts before all the records that the file holds whole |
| `LogRecords.PosixLogReader.PeekNext` | src/log_store/posix_log_store/posix_log_store.cpp:244-283 | the reader stands before exactly the records the remaining bytes hold |
| `LogRecords.PosixLogReader.GetNextLogRecord` | src/log_store/posix_log_store/posix_log_store.cpp:287-295 | returns the first of the records ahead and leaves the others ahead |
| `LogRecords.ReadLog` | src/log_store/posix_log_store/posix_log_store.cpp:285-295 | reading until there is no next record gives all the records, in order |
| `LogSegments.UnpackPack` | src/log_store/posix_log_store/log_segment.h:261-291 | state, writer count and offset survive packing into one word |
| `LogSegments.PackUnpack` | src/log_store/posix_log_store/log_segment.h:261-291 | every word is the packing of its fields |
| `LogSegments.WordOps` | src/log_store/posix_log_store/log_segment.h:267-291 | each operation on the word changes its own field and no other, as long as that field does not overflow |
| `LogSegments.IncrSpills` | src/log_store/posix_log_store/log_segment.h:277-279 | one writer too many turns an open segment into a sealed one without writers: the limit check is needed |
| `LogSegments.LogSegment.TryReserveLogBuffer` | src/log_store/posix_log_store/log_segment.h:64-97 | succeeds exactly if the segment is open, the bytes fit and a writer is to spare, with the old offset as the answer; asks for a seal exactly if it is open and they do not fit; the fields change only on success |
| `LogSegments.LogSegment.OnWriterExit` | src/log_store/posix_log_store/log_segment.h:105-123 | the writer count falls and the last writer out of a sealed segment hands it over |
| `LogSegments.LogSegment.FreeSegment` | src/log_store/posix_log_store/log_segment.h:130-135 | the segment is free and holds no valid bytes |
| `LogSegments.LogSegment.OpenLogSegment` | src/log_store/posix_log_store/log_segment.h:142-148 | the segment is open and empty from the given LSN |
| `LogSegments.LogSegment.TrySealLogSegment` | src/log_store/posix_log_store/log_segment.h:158-188 | undisturbed, an open segment that is not empty is sealed at its end LSN, and handed over at once if it has no writers |
| `LogSegments.SealLoop` | src/log_store/posix_log_store/log_segment.h:158-179 | under contention io is scheduled if any round saw no writers |
| `SealRace.EarlyIoExact` | src/log_store/posix_log_store/log_segment.h:105-184 | over every interleaving of loads, swaps, reservations and exits, a step puts a segment with a writer inside into io exactly if it is the sealing thread's own hand-over and a writer reserved between a round of the same call that saw no writers and the winning swap, and has not left |
| `SealRace.StaleSizeExact` | src/log_store/posix_log_store/log_segment.h:178-186 | the io thread reads the sealed offset exactly if the sealing thread has written the valid size by then, and zero otherwise |
| `SealRace.SealedIsHandedOver` | src/log_store/posix_log_store/log_segment.h:105-184 | in every reachable state a sealed segment without writers has a thread that is about to hand it over: none is forgotten |
| `SealRace.LateWriterMeetsIo` | src/log_store/posix_log_store/log_segment.h:158-188 | a run of eight steps in which both happen |
| `LogSegments.StaleFlagSchedulesIo` | src/log_store/posix_log_store/log_segment.h:163-184 | a writer that enters between two rounds is still inside when the segment is handed to the io thread |
| `LogStoreSteps.StepKeeps` | src/log_store/posix_log_store/posix_log_store.cpp:104-242 | every access of appenders, sealers and the io thread keeps the log store's invariant |
| `LogStoreSteps.RunHolds` | src/log_store/posix_log_store/posix_log_store.cpp:104-242 | the invariant holds in every state of every interleaving |
| `LogStoreTheorems.OneOpenSegment` | src/log_store/posix_log_store/log_segment.h:219-233 | at most one segment is open, and none while the next is being opened |
| `LogStoreTheorems.IoSegmentIsComplete` | src/log_store/posix_log_store/log_segment.h:116-122 | a segment handed to the io thread has no appender inside and holds exactly the next bytes of the log |
| `LogStoreTheorems.ControlsFit` | src/log_store/posix_log_store/log_segment.h:308-326 | in every reachable state the fields of every control word are within their widths |
| `LogStoreTheorems.ChecksHold` | src/log_store/posix_log_store/log_segment.h:130-148 | no check fails: batches fit their reserved bytes, whoever leaves was counted, the io thread frees its own segment, the segment being opened is free |
| `LogStoreTheorems.ReservationsTile` | src/log_store/posix_log_store/log_segment.h:64-97 | every reservation takes the LSNs right after all earlier ones, inside its segment, and nothing else moves the end of the log |
| `LogStoreAppend.RecordsAreRequests` | src/log_store/posix_log_store/posix_log_store.cpp:104-168 | the records of the log are exactly those of the appenders, batch by batch in the order of their reservations |
| `LogStoreAppend.ReplyMeans` | src/log_store/posix_log_store/posix_log_store.cpp:115-155 | in every reachable state a batch is let in exactly if the segment is open, has a writer to spare and has room; told to seal, the appender can exactly if the segment is not empty, hence always if the batch fits an empty segment |
| `LogStoreAppend.OversizeNeverFits` | src/log_store/posix_log_store/posix_log_store.cpp:104-168 | a batch longer than a segment is never let in, and an open empty segment asks for a seal that cannot happen |
| `LogStoreTheorems.FileIsPrefix` | src/log_store/posix_log_store/posix_log_store.cpp:176-210 | the file is always a beginning of the records in LSN order, and the persistent LSN lies within it |
| `LogStoreTheorems.CrashRead` | src/log_store/posix_log_store/posix_log_store.cpp:244-283 | whatever beginning of the file survives, the reader finds exactly the records whole in it |
| `LogStoreTheorems.DurableRecord` | src/log_store/posix_log_store/posix_log_store.cpp:204-214 | a record whose end LSN the persistent LSN had reached in some state is read back after a crash in any later state, from every cut of the file at or after that LSN |
| `LogStoreAppend.AppendedIsRead` | src/log_store/posix_log_store/posix_log_store.cpp:124-142 | once the persistent LSN has reached the end LSN an appender was told for a record, every later crash leaves that record to be read, with its data, at the start LSN it was told |
| `LogStoreTheorems.PersistExact` | src/log_store/posix_log_store/posix_log_store.cpp:204-210 | the persistent LSN stored after a flush is the whole file exactly if the next segment's start LSN is already set; otherwise it is smaller |
| `LogStorePersist.PersistMovesBack` | src/log_store/posix_log_store/posix_log_store.cpp:209-214 | a flush moves the persistent LSN backwards exactly if the next segment has not been given its new start LSN and the persistent LSN is the start LSN, other than zero, of the segment just flushed |
| `LogStorePersist.PersistFallsBack` | src/log_store/posix_log_store/posix_log_store.cpp:209-214 | with two segments any batch written twice takes the persistent LSN from the end of the first batch back to zero |
| `LogStoreTheorems.AdvanceSegmentIndex` | src/log_store/posix_log_store/posix_log_store.h:129-136 | with two segments or more the loop ends after one increment |
| `LogStoreTheorems.OneSegmentSpins` | src/log_store/posix_log_store/posix_log_store.h:129-136 | with one segment a round changes nothing and asks for another |
| `SortKey.BigEndianOrder` | src/property/sort_key/sort_key_encoding.cpp:112-118 | words compare as their big-endian bytes, and are equal exactly when those are |
| `SortKey.GroupOrder` | src/property/sort_key/sort_key_encoding.cpp:155-165 | unequal groups of eight compare as the strings they begin, zero bytes and padding included |
| `SortKey.StringOrder` | src/property/sort_key/sort_key_encoding.cpp:152-166 | unequal strings have encodings that differ before either ends and compare as the strings do |
| `SortKey.ValueOrder` | src/property/sort_key/comparable_buf_writer.h:24-44 | unequal values of a type have encodings that differ before either ends and compare as the values do |
| `SortKey.OrderEmbedding` | src/property/sort_key/comparable_buf_writer.h:24-44 | byte order of encoded tuples is the lexicographic order of the tuples, for all int, bool, string and non-negative float columns |
| `SortKey.PrefixFree` | src/property/sort_key/comparable_buf_writer.h:24-44 | no encoded value is the beginning of another |
| `SortKey.FloatColumnExact` | src/property/sort_key/sort_key_encoding.cpp:130-150 | two floats of either width are encoded in order, both ways round, exactly if they are equal or their sum is positive |
| `SortKey.NegationCollides` | src/property/sort_key/sort_key_encoding.cpp:130-139 | a float and its negation have the same encoding |
| `SortKeyCodec.StringRoundTrip` | src/property/sort_key/sort_key_encoding.cpp:79-96 | a string is read back from the front of any bytes that begin with its encoding |
| `SortKeyCodec.ValueRoundTrip` | src/property/sort_key/comparable_buf_reader.h:27-64 | a value is read back as written exactly if it is not a float with its sign bit set, and the reader stands right after it in any case |
| `SortKeyCodec.SkipExact` | src/property/sort_key/comparable_buf_reader.h:66-91 | skipping k values leaves the encoding of the others; skipping too many fails |
| `SortKeyCodec.RoundTrip` | src/property/sort_key/sort_key.h:84-95 | traversing an encoded tuple gives the tuple |
| `SortKeyCodec.EncodeInjective` | src/property/sort_key/sort_key.h:98-110 | keys are equal as bytes exactly if they are equal as tuples |
| `SortKeyCodec.PutComparableString` | src/property/sort_key/sort_key_encoding.cpp:152-166 | the loop appends the string's encoding |
| `SortKeyCodec.GetComparableString` | src/property/sort_key/sort_key_encoding.cpp:79-96 | the loop reads the string at the front, or fails where the bytes run out |
| `SortKeyCodec.ComparableBufWriter.WriteValue` | src/property/sort_key/comparable_buf_writer.h:24-44 | the buffer gains the value's encoding |
| `SortKeyCodec.MakeSortKeys` | src/property/sort_key/sort_key.h:124-130 | the key is the encoding of the tuple |
| `SortKeyCodec.ComparableBufReader.SkipK` | src/property/sort_key/comparable_buf_reader.h:66-91 | the reader stands where skipping value by value puts it, or reports the failed check |
| `RowCodec.SlotAt` | src/property/schema.cpp:83-112 | the slot of a column starts at the schema's cached offset and points at the column's own string bytes |
| `RowCodec.NormalRoundTrip` | src/property/row/row.cpp:106-157 | every non-key column of a row below 2^16 bytes reads back as written, wherever the row lies in a buffer |
| `RowCodec.SortKeysExact` | src/property/row/row.cpp:21-24 | the sort key of a row is the encoding of its key columns and nothing after it, whatever follows, if and only if that is shorter than 2^16 bytes |
| `RowCodec.RowsBySortKey` | src/property/row/row.cpp:21-24 | two rows have the same sort key exactly if their key columns are equal, and it orders rows as their key columns do, whatever the other columns |
| `RowCodec.SortKeyRoundTrip` | src/property/row/row.cpp:159-201 | a key column reads back as written exactly if it is not a float with its sign bit set |
| `RowCodec.AsSliceExact` | src/property/row/row.cpp:220-224 | the row's own slice is exactly what was written if and only if that is below 2^16 bytes |
| `Rows.Schema.constructor` | src/property/schema.cpp:20-33 | the column index and the offset cache agree with the columns |
| `Rows.Schema.BuildOffsetCacheForRow` | src/property/schema.cpp:83-107 | each cached offset is the total width of the non-key columns before it |
| `Rows.SerializeColumns` | src/property/row/row.cpp:52-91 | slots with running string offsets, and the strings after them |
| `Rows.Serialize` | src/property/row/row.cpp:26-95 | the bytes of the row layout |
| `Rows.GetProp` | src/property/row/row.cpp:12-19 | the column with the id, read as a key or as a normal column |
| `Rows.SerializeThenGet` | src/property/row/row.cpp:12-95 | serializing and reading any column gives back its value, exactly but for negative float keys |
| `HandleTable.HandleTable.Lookup` | src/cache/lru_cache.h:72-74 | what the map holds under the name |
| `HandleTable.HandleTable.Insert` | src/cache/lru_cache.h:76-90 | the map with the name bound to the new handle, across a resize, and the handle it had before |
| `HandleTable.HandleTable.Remove` | src/cache/lru_cache.h:92-100 | the map without the name, and the handle it had |
| `HandleTable.MaskIsRemainder` | src/cache/lru_cache.h:112-113 | masking a hash with a power of two less one is its remainder |
| `HandleTable.HandleTable.Resize` | src/cache/lru_cache.h:120-144 | the same map in the least power of two of buckets, from four on, that is not below the number of entries |
| `LruCache.ReferencedGood` | src/cache/lru_cache.h:222-228 | taking a reference keeps table, lists, counts and usage in step |
| `LruCache.ReleasedGood` | src/cache/lru_cache.h:230-242 | dropping a client's reference does too, and frees the entry exactly if it was the last of all |
| `LruCache.ErasedGood` | src/cache/lru_cache.h:316-328 | taking an entry out of the cache does too, and frees it exactly if no client holds it |
| `LruCache.EvictedGood` | src/cache/lru_cache.h:335-350 | eviction takes from the old end only, leaves entries in use alone and frees exactly what it takes |
| `LruCache.RechargedExact` | src/cache/lru_cache.h:170-174 | changing a charge keeps the usage right exactly on entries still cached, unless the charge stays |
| `LruCache.WithoutUnlinks` | src/cache/lru_cache.h:244-248 | removing an entry from a list leaves all others where they were |
| `LruCache.LRUCache.Lookup` | src/cache/lru_cache.h:259-268 | the entry under the name with one more reference, or nothing changed; it leaves the eviction list and all others keep their order, and no entry changes its name, charge or place in the table |
| `LruCache.LRUCache.Release` | src/cache/lru_cache.h:270-274 | the deleter is called once, and only when neither a client nor the cache refers to the entry; the last reference to a cached entry puts it last in the eviction list, which stays in the order of last releases over any sequence of calls |
| `LruCache.LRUCache.FinishErase` | src/cache/lru_cache.h:316-328 | out of its list with all others in order, out of the usage, one reference less |
| `LruCache.LRUCache.EvictOldest` | src/cache/lru_cache.h:335-344 | the entry evicted is the one released longest ago |
| `LruCache.LRUCache.DoPrune` | src/cache/lru_cache.h:335-350 | evicts a beginning of the eviction list with its names, never more than needed once one is gone, until the usage fits or nothing is evictable |
| `LruCache.LRUCache.Insert` | src/cache/lru_cache.h:281-314 | the new entry has the given name and charge and is held by the caller, replaces one of the same name, and then a beginning of the eviction list goes until the usage fits or nothing is evictable; everything else keeps its order, name and charge |
| `LruCache.LRUCache.UpdateCharge` | src/cache/lru_cache.h:170-174 | charge and usage change by the same amount, on any handle; the cache stays in step exactly if the entry is still cached or the charge stays |
| `InternalPage.RouteUnique` | src/btree/page/internal_page.cpp:20-33 | in an ascending page a key routes to one row |
| `InternalPage.RouteExists` | src/btree/page/internal_page.cpp:20-33 | a key routes to some row exactly if it is not below the first |
| `InternalPage.InternalRows.GetPageId` | src/btree/page/internal_page.cpp:20-33 | the page of the last row at or before the key, refused exactly below the first row |
| `InternalPage.InternalRows.Split` | src/btree/page/internal_page.cpp:35-62 | row by row, the new rows bring their page ids and sort keys in place of the row of the old key, the first keeping its lower bound; with the three refusals; the page stays ascending exactly if the new rows fit |
| `InternalPage.InternalRows.SplitThenGet` | src/btree/page/internal_page.cpp:20-62 | after a split a key of the split interval is answered with the page of the new row for it, any other key as before |
| `InternalPage.SplitAscending` | src/btree/page/internal_page.cpp:54-61 | rows stay ascending exactly if the new separators ascend inside the split interval |
| `InternalPage.SplitRoutes` | src/btree/page/internal_page.cpp:54-61 | a proper split changes routing only inside the interval it splits, where the page of the last new row not above the key, or else of the first, takes over |
| `InternalPage.MinimumKept` | src/btree/page/internal_page.cpp:51-57 | over any sequence of splits the smallest key stays the one the page was first given |
| `InternalPage.EveryKeyRoutesOnce` | src/btree/page/internal_page.cpp:20-62 | over any sequence of proper splits rows ascend, and a key routes to exactly one row if it is at least that smallest key and to none otherwise |
| `InternalPage.RouteIsLastAssigned` | src/btree/page/internal_page.cpp:20-62 | over any sequence of proper splits a key goes to the page, and from the lower bound, that the last split to cover it gave it |

## Left out

- OccTheorems.Serializable: read-write transactions read with ignore_lock unset, as their callers leave it; the option is modelled for read-only reads.
- OccTheorems.SnapshotReads: one page read of one key is one step; a reader that keeps an old delta chain while the page moves on is not modelled.
- TxnContext.TxnContextOCC.CommitOrAbort: no other transaction steps in between, so a wait for a foreign intent is an outcome; interleavings are the business of the step machine.
- DeltaTheorems.ChainStaysShort: writes carry a timestamp other than the aborted mark, as every writer in the repository does.
- DeltaNode.GetRow: rows are values with their sort key; byte offsets and the deleted bit inside the node buffer are not modelled.
- LinkBuf.StepKeeps: links go from a position to the next one, the only ones the tracker adds, and the ring has two slots or more; slot_index is the remainder.
- SnapshotRefinement.TrackedSnapshotReads: holds for runs in which every timestamp was published less than a lap ahead of the tail, which nothing in the code checks; what happens otherwise is stated by SnapshotWindow.PublishOutsideWindow.
- SnapshotRefinement.RunProjects: for the same runs.
- LockTable.WaiterHasEntry: fairness and deadlock are not treated; LockFor is not modelled.
- LockRefinement.RunAgrees: a lock table serves one table name, and taking a lock and buffering the write it is for are one step.
- Recovery.OccRecovery.Recover: counters are unbounded, and records are values; the byte format of log entries and the transaction ids they carry in place of read timestamps are not modelled.
- LogStoreSteps.StepKeeps: the seal, and a writer's exit with its hand-over, are single steps; their races are modelled on one segment, in SealRace, and not carried into the log store. Waiting, notification and file errors are not modelled.
- LogStoreTheorems.IoSegmentIsComplete: for that atomic seal; with the code's own seal it can fail, as SealRace.EarlyIoExact and SealRace.StaleSizeExact say.
- LogSegments.LogSegment.TrySealLogSegment: nobody else touches the word in between; SealRace has the contended call.
- LogSegments.LogSegment.OnWriterExit: nobody else touches the word between the exit and the hand-over.
- SealRace.EarlyIoExact: one segment from its opening to the io thread's read; a valid size written after the segment is free again is not followed into the next lap.
- LogRecords.TornTail: words are copied little-endian, and an LSN comes back modulo 2^64.
- SortKey.OrderEmbedding: floats are bit patterns compared as sign and magnitude, so not-a-number patterns have no special place.
- LruCache.LRUCache.Insert: handles are numbered and the two linked lists are sequences; pointers between nodes are not modelled. Sharding by hash is left out.
- InternalPage.InternalRows.Split: copy-on-write publication of the rows is left out.
- The order in which pages append to the log relative to one another: each page write appends its record in the same step.
- RangeFilter and row iterators, which do not read at a timestamp.
- The two snapshot managers that no transaction manager uses, one set under a mutex and one sharded.
- Page snapshots on disk, the flusher and dirty-page bookkeeping.
- Buffer pool and single flight: one page object per page id is taken for granted.
- WaitForPersist and its 32-bit copy of the LSN.
- OccProgress.NobodyCanGoOn: keys may be validated in any order; the code takes them in the order of its map and waits at the first that is blocked, so it can also wait where another key would go through.
- Fairness of scheduling, and progress of locking and of reads by running transactions.
- The two-phase-locking context, the older cache and page modules, the key-value page store, the graph layer, thread pool, timers, monitors and benchmarks.
- Memory ordering weaker than sequential consistency.
