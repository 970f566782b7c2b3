# NeuG transaction core in Dafny

A model of the parts of the NeuG graph database on which its data depends, with proofs about
them. `dafny verify dfyconfig.toml` checks everything. Nothing here executes the original
program.

| part | files | form |
|---|---|---|
| shared definitions | `Common` | option and result types, the timestamp limit |
| MVCC transaction protocol | `Gate`, `Timeline`, `TimelineProof`, `Store`, `Protocol`, `Protocol*`, `History`, `Theorems`, `Progress`, `ExclusiveProgress`, `Visibility` | state machine over any number of threads |
| packed gate word, completion ring | `GateWord`, `TimestampWindow` | 64-bit arithmetic; classes over an array |
| explicit transactions of the service | `ServiceTransactions`, `Service*` | state machine over any number of threads |
| copy-on-write storage | `CowState`, `CowEdges`, `EdgeOffsets`, `CowSchema`, `CowColumns`, `CowRebuild`, `CowTables`, `CowMirror`, `CowDelete`, `CowRows`, `CowProperties`, `CowEffects`, `CowStorage` | class with a modelled heap |
| lists of properties | `PropertyLists` | functions over the vectors of a table; loops |
| redo log and replay | `Redo`, `RedoProof`, `RedoEffects`, `RedoChanges`, `RedoIntegrity`, `RedoOffsets` | functions over a graph value |
| WAL parsing and ingestion | `WalIngest` | loops |
| recovery of a crashed database | `Recovery` | joins the protocol and `WalIngest` |
| MD5 | `Bits`, `Md5Spec`, `Md5Transform`, `Md5` | specification and class over arrays |
| data types and their archive | `DataTypes`, `TypeCodec`, `TypeArchive` | recursive functions; two classes |

## The protocol

`Protocol.State` holds the gate word, the timeline (`write_ts_`, `read_ts_`, the completion
ring, the advance lock, the installed generation, the published view), the store (snapshots by
generation, WAL, checkpoint) and one program counter per thread. `Protocol.Step` is one atomic
access by one thread: a load, CAS, fetch_add, store, lock operation, WAL append or snapshot
switch of a snapshot read, an insert, a TP or AP copy-on-write update, a bulk checkpoint
commit, a manual checkpoint with timeline reset, a compaction, an exclusive operation or the
lifecycle seal. Every deadline may expire at every point where the code looks at it, every
append may fail, every transaction may abort. `Protocol.Crash` ends all threads and reopens the
database from checkpoint and WAL, provided the WAL is readable: every timestamp that recovery
looks up has a slot in the parser's insert list. A run (`Protocol.IsRun`) is any sequence of
these.

`Recovery` ties the crash step to the code. For every reachable state and every order of the
records on disk, the loops of `WalIngest` succeed exactly when the crash step is possible, and
then rebuild exactly what the crash step publishes.

A snapshot is a set of facts stamped with the timestamp that wrote them. `Store.Serial` is the
reference: the facts after applying the committed writes of a log one after the other in
timestamp order. `Store.Vis` is what a reader with a timestamp sees in a snapshot.

The proof is layered. `Gate.Event` and `Timeline.Event` describe what one thread may do to the
gate and to the timeline, and each keeps an invariant of its own for any number of threads.
`ProtocolRefines` shows that every protocol step is such an event, `ProtocolSafety` adds the
store, and `Theorems` reads off the results for all reachable states. `Progress` and
`ExclusiveProgress` show that the machine is not stuck: a thread that runs alone from any
reachable quiescent state gets through, whatever it does, and what it has done is then published.

Assumptions:

- atomics are sequentially consistent, and a wait is a step that changes nothing;
- an append that returns false has written nothing, one that returns true is durable;
- applying an insert in place succeeds once its record is durable;
- publishing a checkpoint is one step;
- graph contents are abstract facts, so that the physical position of a fact plays no part here
  (positions are the subject of `CowStorage`, `EdgeOffsets`, `RedoProof` and `RedoOffsets`);
- timestamps are below the 32-bit limit, at which the code refuses new reservations.

## What turned out differently from the design's promise

Each of these keeps the code as it is, gives an input on which the promise fails, and proves
when it holds.

- `OperationGate` counts a speculative reader before it looks at the count. With the count at
  its limit the increment carries into the inserter count or the phase:
  `GateWord.AddReaderIff`, `GateWord.ExhaustedReaderCarries`. With fewer than 2^31 threads it
  cannot happen: `GateWord.PackedWordRefines`.
- `ServiceTransactionManager::Close` waits for pending begins, but a begin that it refused is
  settled before its transaction is rolled back, and another call of `Close` is not waited for,
  so that `Close` can return earlier: `ServiceTheorems.CloseEndsTransactionsIff`,
  `ServiceTheorems.CloseCanReturnBeforeRollback`. What a caller can rely on beforehand is
  `ServiceTheorems.CalmCloseEndsTransactions`. An `Open` between the two halves of `Close` lets
  it return with a registered transaction: `ServiceTheorems.OpenDefeatsClose`.
- The insert list of the WAL parser has 4096 slots and grows only with insert records, but
  ingestion looks up every timestamp between two updates. An aborted timestamp beyond the list
  is looked up out of range, and such a database is reachable: `WalIngest.Recover`,
  `Recovery.RecoverDatabase`, `Recovery.CrashIffRecoverable`, `Recovery.UnreadableIsReachable`.
  So the crash theorems are about a database whose WAL is readable; any other cannot be reopened.
- `CowGraphStorage::DeleteEdgesImpl` counts visible entries and uses the count as a raw offset,
  and it searches the other half of every edge before it deletes any, so that two edges that
  look alike share one: `EdgeOffsets.DeleteEdgesIff`, `EdgeOffsets.DeletedEntryShiftsCount`,
  `EdgeOffsets.ParallelEdgesLeaveHalf`.
- Redo records name a deleted edge by its offset. Inserts of concurrent transactions reach a
  list in an order that replay does not repeat: `RedoOffsets.RemovalReplaysIff`,
  `RedoOffsets.AllRemovalsReplayIff`, `RedoOffsets.LaterInsertFirst`,
  `Progress.LaterInsertAppliedFirst`.
- Equality of data types ignores varchar lengths, while the archive keeps them:
  `DataTypes.EqualIffErased`, `DataTypes.LengthsAreIgnored`.
- A committed insert is not visible when its commit returns if an older timestamp is still
  unfinished, or is finished and its thread waits for the lock: `Visibility.VisibleIff`,
  `Visibility.ReturnIsVisibleIff`, `Visibility.ReturnsBeforeVisible`,
  `Visibility.FinishedAndNotVisible`.
- A list of properties to delete may repeat a name. The flags of a vertex table are then erased
  once too often, and an edge table is taken for a rebuilt one, so that a shared block counts as
  detached. Harmless for a vertex table is a list in which no repeated name has a property behind
  it that stays: `PropertyLists.DeletedIs`, `CowColumns.FreshDropIff`, `CowColumns.EdgeDropIff`,
  `PropertyLists.RepeatedNameLosesFlag`, `CowColumns.HarmfulListWritesBase`,
  `CowColumns.RepeatedNameWritesDirectory`. A list of properties to add may repeat one as well:
  `PropertyLists.AddedIsGoodIff`, `PropertyLists.RepeatedAddLosesColumn`.

## Model

| member | source | states |
|---|---|---|
| `Gate.EventKeepsInv` | src/transaction/operation_gate.cc:38-76 | For any number of threads, every admission, speculative admission, roll-back, release, phase change and drain keeps the ledger: reader and inserter counts equal the threads counted, a closed phase has one owner, and what a drained owner relies on stays true |
| `Gate.ReleaseNeverUnderflows` | src/transaction/operation_gate.cc:125-176 | A thread that was counted always finds a count to give back |
| `Gate.OwnerIsUnique` | src/transaction/operation_gate.cc:177-256 | A closed phase has exactly one owner, and the owner sees the phase it entered |
| `GateWord.FieldsJoin` | include/neug/transaction/operation_gate.h:33-56 | A 64-bit word is determined by its phase, inserter and reader fields, all in range |
| `GateWord.PackIsInjective` | include/neug/transaction/operation_gate.h:33-61 | Two gate states with the same packed word are equal |
| `GateWord.AddReaderIff` | src/transaction/operation_gate.cc:38-76 | fetch_add of a reader changes only the reader field, by one, if and only if that field is below its maximum |
| `GateWord.ExhaustedReaderCarries` | src/transaction/operation_gate.cc:38-76 | At the maximum the addition wraps the reader field and carries into the inserter field, or through it into the phase |
| `GateWord.RollBackRestores` | src/transaction/operation_gate.cc:52-75 | Subtracting what was added restores the whole word, carried or not |
| `GateWord.ReleaseReaderIff` | src/transaction/operation_gate.cc:125-135 | A release changes only the reader field if and only if that field is not zero |
| `GateWord.ReleaseInserterIff` | src/transaction/operation_gate.cc:165-175 | A release changes only the inserter field if and only if that field is not zero |
| `GateWord.ChangePhase` | include/neug/transaction/operation_gate.h:58-61 | A phase change leaves both counts alone |
| `GateWord.CountsArePacked` | src/transaction/operation_gate.cc:38-256 | On counts that fit before and after, each access (fetch_add, fetch_sub, CAS of a count, CAS of the phase) does to the packed word what it does to the counts |
| `GateWord.StepCounts` | src/transaction/operation_gate.cc:38-336 | Every step of the protocol does to the counts what the access of its program point prescribes: fetch_add for a speculative reader, fetch_sub for roll-backs and releases, CAS from the word seen for inserters, phases and the seal, a load everywhere else |
| `GateWord.PackedWordRefines` | src/transaction/operation_gate.cc:38-336 | With fewer than 2^31 threads, in every reachable state, every step of the protocol is the one access to the packed word that its program point prescribes, and no field overflows |
| `TimelineProof.EventKeepsInv` | src/transaction/version_manager.cc:46-222 | For any number of threads, every atomic access of reservation, completion, advance and reset keeps the timeline invariant: bounds, ring contents, distinct owners, complete coverage of the timestamps above the frontier, no lost advance |
| `TimelineProof.DecisionOk` | src/transaction/version_manager.cc:46-83 | The window test keeps its bound in spite of a stale candidate and of unsigned wrap-around, and reports a full window only when it is full |
| `TimelineProof.ReserveMoves` | src/transaction/version_manager.cc:46-83 | Reservation keeps the invariant, and the branch that reports a broken invariant is not taken |
| `TimelineProof.MarkHitsEmptySlot` | src/transaction/timestamp_window.cc:37-40 | The slot of an unfinished timestamp is empty |
| `TimelineProof.FrontierIsTight` | src/transaction/version_manager.cc:182-222 | With no completion in flight, the view is at the frontier, and the successor of the frontier is the smallest unfinished timestamp, or `write_ts_` |
| `TimelineProof.AloneIsTight` | src/transaction/version_manager.cc:228-239 | With nobody else in the timeline, one's own timestamp is the successor of the frontier, so the window is not full |
| `TimelineProof.ResetDone` | src/transaction/version_manager.cc:312-331 | The last store of a reset re-establishes the invariant with write 1, read 0, an empty ring and a view at 0 |
| `TimestampWindow.TimestampWindow.constructor` | src/transaction/timestamp_window.cc:22-27 | A new window holds no completion |
| `TimestampWindow.TimestampWindow.Init` | src/transaction/timestamp_window.cc:31-35 | Clearing slot by slot leaves no completion |
| `TimestampWindow.TimestampWindow.MarkCompleted` | src/transaction/timestamp_window.cc:37-40 | Within the window above a frontier, the completions recorded afterwards are exactly those before and the new one; without that bound, those of the same slot are lost and no others |
| `TimestampWindow.TimestampWindow.Clear` | src/transaction/timestamp_window.cc:46-50 | Removes this completion, keeps every other one, and leaves a reused slot alone |
| `TimestampWindow.MarkLosesNothing` | src/transaction/timestamp_window.cc:37-40 | Within the window, marking loses no completion above the frontier |
| `TimestampWindow.Frontier.Advance` | src/transaction/version_manager.cc:201-222 | The frontier passes exactly the completed run that starts at its successor, takes it out of the ring, keeps the rest, and is published with the installed generation |
| `ProtocolRefines.StepKeepsGate` | src/transaction/operation_gate.cc:38-399 | Every protocol step keeps the gate ledger |
| `ProtocolRefines.StepKeepsLine` | src/transaction/version_manager.cc:46-375 | Every protocol step keeps the timeline invariant |
| `ProtocolSafety.StepKeepsInv` | src/transaction/version_manager.cc:105-375 | Every step of every thread keeps gate, timeline and store invariants together |
| `ProtocolSafety.OpenedInv` | src/transaction/version_manager.cc:105-123 | A database opened from a checkpoint and a WAL satisfies the invariant |
| `ProtocolSafety.RecoveredIsSerial` | src/main/neug_db.cc:532-607 | The serial execution of the WAL on the checkpoint is the persistent part of the serial state at every timestamp from the last durable one on |
| `ProtocolSafety.CrashKeepsInv` | src/main/neug_db.cc:532-607 | Reopening after a crash at any moment at which the WAL is readable gives a state that satisfies the invariant |
| `ProtocolSafety.RunInv` | src/transaction/version_manager.cc:105-375 | The invariant holds in every state of every run, crashes included |
| `History.CommitsStay` | src/transaction/mvcc_insert_transaction.cc:160-198 | No step of the running system changes or removes a committed write |
| `Theorems.AdmissionsAreConserved` | src/transaction/operation_gate.cc:38-176 | In every reachable state the reader field is the number of admitted and speculative readers, the inserter field the number of admitted inserters, and the phase is open exactly when nobody owns it; so every failed, timed-out or finished operation has given back what it took |
| `Theorems.OwnersExclude` | src/transaction/operation_gate.cc:177-336 | There is one owner; beside an owner that drained inserts nobody inserts or holds a timestamp; beside an exclusive one nobody reads |
| `Theorems.NoBrokenState` | src/transaction/version_manager.cc:46-83 | The exceptions for a broken timestamp invariant and a failed phase transition are unreachable, and only inserts can find the window full |
| `Theorems.TimestampsAreUnique` | src/transaction/version_manager.cc:46-83 | No two threads hold one timestamp, and a held timestamp is above the frontier and below `write_ts_` |
| `Theorems.ReservationIsNew` | src/transaction/version_manager.cc:46-83 | A reservation takes the old `write_ts_`, which is above every timestamp held, completed, passed or committed |
| `Theorems.CompletionHitsFreeSlot` | src/transaction/timestamp_window.cc:37-40 | In every reachable state a completion is about to write a free slot |
| `Theorems.FrontierIsMaximal` | src/transaction/version_manager.cc:182-222 | Between completions the published frontier is as far as it can be |
| `Theorems.LeaseShowsSerialState` | src/transaction/read_snapshot_lease.cc:48-70 | Whenever a read lease is held, its snapshot at its timestamp is the serial execution of all writes up to that timestamp, and its generation is the one installed by the last update at or below it, even if an update published between view load and pin |
| `Theorems.LeaseIsStable` | src/transaction/read_snapshot_lease.cc:48-80 | A lease shows one unchanging state for as long as it is held, in every run |
| `Theorems.PublishedPairMatches` | src/transaction/version_manager.cc:201-222 | Outside an exclusive operation, the published pair names the generation installed by the last update at or below the published timestamp, and that snapshot shows the serial state |
| `Theorems.ViewIsMonotone` | src/transaction/version_manager.cc:201-222 | Within a timeline, frontier and view never go back |
| `Theorems.PublishedBeforeReopen` | src/transaction/version_manager.cc:298-310 | Before the gate reopens after an update, everything handed out is finished and visible in the published view |
| `Theorems.UncommittedLeavesNoTrace` | src/transaction/snapshot_cow_write_transaction.cc:94-132 | Before its commit, and so when it aborts, a transaction has no record in the log, WAL or checkpoint and no fact in the current snapshot |
| `Theorems.QuiescentIsClean` | src/transaction/version_manager.cc:247-375 | Once every thread has returned, by success, failure, deadline or abort, the gate is open and empty, no timestamp is unfinished, the ring is empty, the lock is free, and the published snapshot is the serial execution of all commits |
| `Theorems.ResetStartsFresh` | src/transaction/version_manager.cc:312-331 | A timeline reset ends with write 1, read 0, an empty ring, a view at 0 and a current snapshot that equals the checkpoint |
| `Theorems.CheckpointKeepsFacts` | src/main/checkpoint_coordinator.cc:88-111 | A manual checkpoint holds exactly the persistent facts of all commits and empties the WAL |
| `Theorems.CrashKeepsCommits` | src/main/checkpoint_coordinator.cc:113-205 | After a crash at any moment at which the WAL is readable, recovery publishes exactly the persistent part of the serial execution of all committed writes: no commit is lost, nothing aborted comes back |
| `Theorems.CrashExtendsReads` | src/transaction/mvcc_insert_transaction.cc:160-198 | What recovery of a readable WAL publishes is what any reader had been shown before the crash, extended by the later commits, without the temporary facts |
| `Recovery.AppendsAreFresh` | src/transaction/mvcc_insert_transaction.cc:160-198 | In every reachable state, a step that appends to the WAL writes under the timestamp it holds, which has no record yet, and keeps all other records and their kinds |
| `Recovery.OnDiskParses` | src/transaction/wal/local_wal_parser.cc:87-122 | In every reachable state, the records on disk, in any order, have positive and pairwise different timestamps below `write_ts_` |
| `Recovery.RecoverDatabase` | src/main/neug_db.cc:532-607 | In every reachable state and for every order of the records on disk, parsing and ingesting succeeds if and only if every timestamp without an update record, up to the last record, has a slot in the insert list; then it rebuilds the persistent part of all commits, and reopening with it is the crash step |
| `Recovery.CrashIffRecoverable` | src/main/neug_db.cc:532-607 | A reachable database can be reopened after a crash if and only if it meets that condition |
| `Recovery.UnreadableIsReachable` | src/transaction/wal/local_wal_parser.cc:146-148 | A run of 4096 aborts and one committed update reaches a database that cannot be reopened after a crash |
| `Progress.InsertGetsThrough` | src/transaction/mvcc_insert_transaction.cc:160-198 | From every reachable quiescent state, an insert of any facts that runs alone commits, and exactly these facts are added to what is published when it returns |
| `Progress.UpdateGetsThrough` | src/transaction/snapshot_cow_write_transaction.cc:94-125 | From every reachable quiescent state, any update that runs alone commits, and its write is applied to what is published when it returns |
| `Progress.AbortGetsThrough` | src/transaction/snapshot_cow_write_transaction.cc:127-132 | From every reachable quiescent state, an update that is given up uses one timestamp, publishes it, and leaves the store as it was |
| `Progress.LaterInsertAppliedFirst` | src/transaction/mvcc_insert_transaction.cc:160-198 | From every reachable quiescent state, two inserts get to a point where both are committed, the later one is in the current snapshot and the earlier one is not |
| `Progress.ReadGetsThrough` | src/transaction/read_snapshot_lease.cc:48-70 | From every reachable quiescent state, a reader that runs alone gets a lease at its first attempt, on the serial execution of all commits |
| `ExclusiveProgress.ExclusiveWriteGetsThrough` | src/transaction/current_cow_write_transaction.cc:58-161 | From every reachable quiescent state, an exclusive write that runs alone commits by each of its three ways: its write is applied to what is published when it returns, and is in the WAL, nowhere durable for a write of temporary facts only, or in a new checkpoint with an empty WAL |
| `ExclusiveProgress.CheckpointGetsThrough` | src/main/checkpoint_coordinator.cc:88-111 | From every reachable quiescent state, a manual checkpoint that runs alone ends with the persistent part of what was published in the checkpoint and published, an empty WAL, and timestamps that start over |
| `ExclusiveProgress.CompactionGetsThrough` | src/transaction/in_place_compaction_transaction.cc:45-82 | From every reachable quiescent state, a compaction that runs alone resets every timestamp of the current snapshot, logs its empty record, and leaves what is published as it was |
| `ExclusiveProgress.ExclusiveGetsThrough` | src/transaction/operation_gate.cc:373-421 | From every reachable quiescent state, an exclusive operation that runs alone gets its lease, with everybody else kept out, and gives it back with nothing changed |
| `ExclusiveProgress.SealGetsThrough` | src/transaction/version_manager.cc:125-142 | The lifecycle seal of a quiescent database closes the gate and takes the advance lock, and undoing it leaves everything as it was |
| `ExclusiveProgress.CanBeGivenUp` | src/transaction/current_cow_write_transaction.cc:132-136 | A transaction that holds its timestamp and is not committed can be given up at every point, except while it waits for the readers to leave |
| `ExclusiveProgress.WaiterGetsOut` | src/transaction/operation_gate.cc:78-123 | In every reachable state, a thread that is still waiting when its deadline expires gets out by its own steps and has changed neither timeline nor store |
| `Visibility.VisibleIff` | src/transaction/version_manager.cc:182-222 | In every reachable state, a timestamp is visible to new readers if and only if no thread with a timestamp up to it and above the frontier is before its check of the frontier, and no scan for a timestamp up to it is going on |
| `Visibility.ReturnIsVisibleIff` | src/transaction/version_manager.cc:182-222 | When a commit returns, it is visible if and only if no thread holds a timestamp up to it and above the frontier, or waits for the lock with one |
| `Visibility.FinishedIsVisibleIff` | src/transaction/version_manager.cc:182-222 | Between completions a finished timestamp is visible to new readers if and only if no smaller one is unfinished |
| `Visibility.ReturnsBeforeVisible` | src/transaction/version_manager.cc:182-222 | From every reachable quiescent state: an insert has returned, is committed and is not visible, while an older one is being applied |
| `Visibility.FinishedAndNotVisible` | src/transaction/version_manager.cc:182-222 | The same with every timestamp marked completed, while the thread of the older one waits for the lock |
| `ServiceSafety.StepKeepsInv` | src/server/service_transaction_manager.cc:90-352 | Every critical section, entry lock and context operation of Begin, Execute, Commit, Rollback, Close, Open and the reaper, and an exception while a begin registers, keeps the registry invariant |
| `ServiceSafety.RunInv` | src/server/service_transaction_manager.cc:90-352 | The registry invariant holds in every state of every run |
| `ServiceTheorems.CapacityHolds` | src/server/service_transaction_manager.cc:90-169 | Registered transactions and pending begins never exceed the limit, and the pending counter is the number of begins in progress |
| `ServiceTheorems.FatalChecksHold` | src/server/service_transaction_manager.cc:90-245 | The fatal checks on the pending counter and on the context before a commit cannot fire |
| `ServiceTheorems.FateIsFinal` | src/server/service_transaction_manager.cc:213-275 | Once a transaction is committed or rolled back it stays so, whatever requests, reaper and shutdown do |
| `ServiceRequests.RequestServes` | src/server/service_transaction_manager.cc:171-305 | In every run, a thread that came in with one operation on one entry passes only the points of that operation, on that entry, until it returns |
| `ServiceRequests.OnlyCommitCommits` | src/server/service_transaction_manager.cc:213-245 | In every run, a step that makes a transaction committed belongs to a thread that came in with a commit request for it |
| `ServiceRequests.OthersNeverCommit` | src/server/service_transaction_manager.cc:171-258 | In every run, no step of a thread inside a rollback or an execution makes any transaction committed |
| `ServiceRequests.RequestEnds` | src/server/service_transaction_manager.cc:171-258 | In every run, when a request that had its entry locked returns: a rollback has left the transaction decided and unregistered, a commit of an open transaction too; after a rollback or an execution it is committed if and only if it was so when the entry was locked |
| `ServiceProgress.CommitGetsThrough` | src/server/service_transaction_manager.cc:213-245 | From every reachable quiescent state, a commit that runs alone can end with the open transaction committed and unregistered and nothing else changed; one that must be rolled back is left as it is |
| `ServiceProgress.RollbackGetsThrough` | src/server/service_transaction_manager.cc:246-257 | From every reachable quiescent state, a rollback that runs alone ends an open transaction without a commit, unregisters it whatever its state, and changes nothing else |
| `ServiceProgress.ExecuteGetsThrough` | src/server/service_transaction_manager.cc:171-211 | A statement that runs alone can leave everything in the manager as it was |
| `ServiceProgress.ExpiredGetsThrough` | src/server/service_transaction_manager.cc:287-305 | A request that finds its transaction expired when it locks it, and a statement or commit that is past the limit when it ends or is prepared, rolls it back and unregisters it |
| `ServiceProgress.FailedStatementGetsThrough` | src/server/service_transaction_manager.cc:171-211 | A failed statement leaves the transaction registered, rolled back, and good for a rollback only |
| `ServiceProgress.FailedCommitGetsThrough` | src/server/service_transaction_manager.cc:213-245 | A failed commit leaves the transaction rolled back and unregistered |
| `ServiceProgress.BeginGetsThrough` | src/server/service_transaction_manager.cc:90-169 | From every reachable quiescent state that accepts and has room, a begin that runs alone registers a new open transaction under any free identifier |
| `ServiceProgress.ReapGetsThrough` | src/server/service_transaction_manager.cc:329-352 | The reaper alone rolls back and unregisters a transaction that it finds expired, and changes nothing else |
| `ServiceProgress.CloseGetsThrough` | src/server/service_transaction_manager.cc:259-275 | From every reachable quiescent state, a close that runs alone ends every registered transaction, empties the registry and stops the manager |
| `ServiceTheorems.QuiescentRegistry` | src/server/service_transaction_manager.cc:90-352 | When nobody is inside the manager, no begin is pending, no entry is locked, every undecided transaction is registered, no finished one is, and a decided one that still is registered is rollback-only |
| `ServiceTheorems.CloseEmptiesRegistry` | src/server/service_transaction_manager.cc:259-275 | Close returns with nothing registered and nothing pending, unless Open was called meanwhile |
| `ServiceTheorems.CloseEndsTransactionsIff` | src/server/service_transaction_manager.cc:90-169 | When Close returns and nobody called Open meanwhile, a transaction is still open if and only if a refused begin has not reached its rollback or another call of Close still has one to roll back |
| `ServiceTheorems.CalmCloseEndsTransactions` | src/server/service_transaction_manager.cc:259-275 | In every run: if nothing is pending, no refused begin is left and no other Close is busy when Close empties the registry, and nobody calls Open before it returns, no transaction is open when it returns |
| `ServiceTheorems.CloseCanReturnBeforeRollback` | src/server/service_transaction_manager.cc:259-275 | A run in which Close returns while a refused begin's transaction is open |
| `ServiceTheorems.OpenDefeatsClose` | src/server/service_transaction_manager.cc:259-286 | A run in which Open overtakes Close, which returns with a transaction registered |
| `CowEdges.FindHalf` | src/storages/csr/csr_view_utils.cc:48-95 | The search for the other half of an edge finds the first visible entry of that neighbour with the same timestamp and property whenever there is one; a single entry of the neighbour is taken without a look; it fails only on no entry or several |
| `CowEdges.FindIs` | src/storages/csr/csr_view_utils.cc:48-95 | What is found is visible and of the right neighbour, and is the first one with the key if the list holds the key |
| `CowEdges.ExchangeMirrors` | src/storages/graph/edge_table.cc:590-594 | Changing both halves of one edge alike keeps every edge of every type stored in both lists |
| `CowEdges.HalfUpdate` | src/storages/csr/mutable_csr.cc:395-417 | Replacing one entry of a list exchanges exactly its share of the visible entries per neighbour |
| `CowEdges.KillAt` | src/storages/csr/mutable_csr.cc:395-417 | Deleting by offset marks the entry at the offset, if it is visible, and changes nothing else |
| `CowEdges.SetPropAt` | include/neug/storages/csr/nbr.h:90-93 | Writing a bundled property by offset gives the entry there the value and the writer's timestamp, and changes nothing else |
| `CowStorage.CowGraphStorage.constructor` | include/neug/transaction/cow_graph_storage.h:40-51 | A fresh clone shares every block with the base graph |
| `CowStorage.CowGraphStorage.DetachVertexTableForInsert` | src/transaction/cow_graph_storage.cc:987-1012 | Indexer, timestamps and all columns are private afterwards, and the graph shown is the same |
| `CowStorage.CowGraphStorage.DetachVertexTableForDelete` | src/transaction/cow_graph_storage.cc:1014-1036 | Timestamps and vector columns are private afterwards, and the graph shown is the same |
| `CowStorage.CowGraphStorage.DetachEdgeTableForInsert` | src/transaction/cow_graph_storage.cc:1051-1082 | Both CSR directories and all property columns are private afterwards, and the graph shown is the same |
| `CowStorage.CowGraphStorage.DetachAdjlists` | src/transaction/cow_graph_storage.cc:1130-1145 | Both adjacency lists of an edge are private afterwards, and the graph shown is the same |
| `CowStorage.CowGraphStorage.DetachIncidentEdgeTablesForResize` | src/transaction/cow_graph_storage.cc:1147-1167 | Every CSR with the label on either side is private afterwards, intra-label ones included |
| `CowStorage.CowGraphStorage.EnsureVertexCapacity` | src/storages/graph/vertex_table.cc:244-257 | Every buffer of the table moves to a new private block and the old private one is freed; the graph shown is the same and no block of the base graph is touched |
| `CowStorage.CowGraphStorage.EnsureCapacity` | src/storages/graph/property_graph.cc:133-178 | The same for the table of a label and every CSR with the label on either side |
| `CowStorage.CowGraphStorage.EnsureEdgeCapacity` | src/storages/graph/edge_table.cc:685-703 | The same for the property columns of an edge type |
| `CowStorage.CowGraphStorage.FetchEdges` | src/transaction/cow_graph_storage.cc:174-254 | The edges collected are exactly the visible edges at the vertex, in both roles, over all labels |
| `CowStorage.CowGraphStorage.PrepareVertexDelete` | src/transaction/cow_graph_storage.cc:1185-1210 | Both lists of every visible edge at the vertex are private afterwards |
| `CowStorage.CowGraphStorage.AddVertex` | src/transaction/cow_graph_storage.cc:685-737 | Refuses a wrong property count and the key of a valid vertex; otherwise key, timestamp and properties stand in the row of the key (its old one, or the next), and nothing else changes |
| `CowStorage.CowGraphStorage.UpdateVertexProperty` | src/transaction/cow_graph_storage.cc:909-942 | Writes exactly one cell if and only if vertex and column are valid |
| `CowStorage.CowGraphStorage.AddEdge` | src/transaction/cow_graph_storage.cc:768-808 | Throws on an invalid end of a persistent edge; otherwise one entry at the end of each list, carrying the bundled property or the number of the new property row, through a resize of the property table where it is full; every edge stays stored in both lists |
| `CowStorage.CowGraphStorage.DeleteEdge` | src/transaction/cow_graph_storage.cc:877-907 | Marks the entries at the two offsets, reports invalid ends and offsets, and keeps every edge in both lists if the offsets name one edge |
| `CowStorage.CowGraphStorage.DeleteEdges` | src/transaction/cow_graph_storage.cc:810-875 | Marks the entries at the collected offsets of both lists and nothing else, or reports invalid ends and a half that is not found; if every edge is in both lists, no invisible entry stands before one of these edges and no two look alike, no edge between the two is left in either list and all others stay in both |
| `CowStorage.CowGraphStorage.UpdateEdgeProperty` | src/transaction/cow_graph_storage.cc:944-985 | Writes both list entries of a bundled property or one cell of the property table, and rejects offsets of deleted entries |
| `CowStorage.CowGraphStorage.DeleteVertex` | src/transaction/cow_graph_storage.cc:739-766 | Only entries of edges at the vertex are marked, and none of its own stays visible; if every edge is stored in both lists, the deletion succeeds, no list of another vertex still names the vertex, and all remaining edges are in both lists |
| `CowStorage.CowGraphStorage.CreateVertexType` | src/transaction/cow_graph_storage.cc:261-302 | An empty private table under a free label; everything else reads as before; the places stay in step if and only if the list repeats no name |
| `CowStorage.CowGraphStorage.CreateEdgeType` | src/transaction/cow_graph_storage.cc:308-361 | Empty private lists and columns if the type is new and both ends exist; it is temporary if and only if so asked; everything else reads as before; the places stay in step if and only if the list repeats no name |
| `CowStorage.CowGraphStorage.AddVertexProperties` | src/transaction/cow_graph_storage.cc:363-387 | Refuses names that exist; otherwise private columns behind the others, each with its default in every row; the invariant holds afterwards if and only if the list repeats no name |
| `CowStorage.CowGraphStorage.DeleteVertexProperties` | src/transaction/cow_graph_storage.cc:475-519 | Refuses names that do not exist; otherwise every other column holds what it held, under its name, and everything else reads as before; the flags are those left after the numbers are erased from the largest down; the invariant holds afterwards if the list is harmless, and fails if it is not and the last column that stays belongs to the base graph |
| `CowStorage.CowGraphStorage.RenameVertexProperties` | src/transaction/cow_graph_storage.cc:424-446 | Refuses names that do not exist; otherwise, pair by pair, the first property with the old name gets the new one and nothing else is different; no block and no flag changes; the invariant holds afterwards if and only if the names are different |
| `CowStorage.CowGraphStorage.RenameEdgeProperties` | src/transaction/cow_graph_storage.cc:448-473 | The same for an edge type, where a pair whose old name an earlier pair has renamed away throws, with the pairs before it applied |
| `CowStorage.CowGraphStorage.AddEdgeProperties` | src/transaction/cow_graph_storage.cc:389-422 | Refuses names that exist, throws on a repeated one; otherwise, whether properties stand in the lists or in a table before and after, every vertex keeps its edges in order, each edge has the value of every old property, and its default for every new one where every entry names a row; nothing of another type changes; isolation, both lists and the rows of all tables are kept |
| `CowStorage.CowGraphStorage.AddEdgeColumns` | src/transaction/cow_graph_storage.cc:389-422 | Private property columns behind the others, each with its default in every row |
| `CowStorage.CowGraphStorage.DropEdgeColumns` | src/transaction/cow_graph_storage.cc:571-597 | Every vertex keeps its edges in order with the values of the other columns; the invariant holds afterwards if and only if the list repeats no name, or directories and remaining columns are private already |
| `CowStorage.CowGraphStorage.DeleteEdgeProperties` | src/transaction/cow_graph_storage.cc:521-597 | Refuses names that do not exist; otherwise, whether the other properties stand in the lists or in a table before and after, every vertex keeps its edges in order, and each edge has the value of every remaining property; both lists and the rows of all tables are kept, the fatal check of a rebuild cannot fire where all entries name rows, and the invariant holds afterwards exactly as for the two cases |
| `CowStorage.CowGraphStorage.Rebuild` | src/storages/graph/edge_table.cc:1030-1159 | An edge type is replaced by fresh private lists of both directions and a fresh property table; everything else reads as before; the detached flags are reset where a property is deleted and kept where one is added, and stand for private blocks in both cases |
| `CowStorage.CowGraphStorage.Unbundle` | src/storages/graph/edge_table.cc:1086-1159 | Adding properties to a bundled type: every vertex keeps its edges in order, each with the value of its old property, now in the first column, and with the defaults in the new ones; every edge is in both lists afterwards |
| `CowStorage.CowGraphStorage.Refill` | src/storages/graph/edge_table.cc:1030-1159 | A first bundled property, or the deletion of all: every vertex keeps its edges in order, each with the one value; every edge is in both lists afterwards |
| `CowStorage.CowGraphStorage.Bundle` | src/storages/graph/edge_table.cc:1057-1084 | The column that is left becomes bundled: every vertex keeps its edges in order, each with the value of that column, if and only if every entry names a row of it |
| `CowRebuild.AliveIff` | include/neug/storages/csr/mutable_csr.h:155-187 | Exactly the entries that are not deleted are exported |
| `CowRebuild.EntriesVisible` | include/neug/storages/csr/csr_base.h:100-103 | Every entry of a rebuilt list is visible at every timestamp |
| `CowRebuild.RebuildKeeps` | src/storages/graph/edge_table.cc:1030-1159 | If the exported edges read the same before and after, so do the lists of every vertex, entry by entry |
| `CowRebuild.RebuildMirrors` | src/storages/graph/edge_table.cc:1140-1159 | A rebuilt edge type has every edge in both lists, whatever it was before |
| `CowRebuild.RowsFit` | src/storages/graph/edge_table.cc:1062-1069 | Where all tables are in order, every entry that is not deleted names a row of every column of its type |
| `CowStorage.CowGraphStorage.DeleteVertexType` | src/transaction/cow_graph_storage.cc:599-656 | The table of the label and every edge table that touches it are gone; everything else reads as before |
| `CowStorage.CowGraphStorage.DeleteEdgeType` | src/transaction/cow_graph_storage.cc:658-683 | Lists and columns of the type are gone; everything else reads as before |
| `CowStorage.CowGraphStorage.ApplyChange` | src/transaction/cow_graph_storage.cc:256-683 | Every schema operation succeeds exactly under its condition and has its effect on schema, lists and columns; one whose lists do no harm keeps the isolation invariant, flags and schema in step, every entry naming a row, and every edge in both lists |
| `CowStorage.CowGraphStorage.Apply` | src/transaction/cow_graph_storage.cc:256-985 | Every operation has its effect on cells, lists and schema, succeeds exactly under its condition and leaves everything else alone; every operation, schema changes with harmless lists included, keeps the isolation invariant: a detached flag is set only for a private block of a part that the schema names; it keeps every entry naming a row of its property table; it keeps every edge in both lists if its offsets name one edge, or if the edges it deletes between two vertices are deletable |
| `CowStorage.CowGraphStorage.Run` | src/transaction/cow_graph_storage.cc:256-1210 | After every sequence of operations, up to the first list of properties with a harmful repetition, each operation has had its effect on what the ones before it left, each block of the base graph is as it was, every entry still names a row of its property table, and every edge is in both lists if the offsets of each operation named one edge |
| `PropertyLists.DeletedIs` | src/transaction/cow_graph_storage.cc:475-519 | For every list: schema names, table names, name index and columns agree and are those of the other properties; the flags agree with them if and only if no name that the list repeats has a property behind it that stays |
| `PropertyLists.ErasedDown` | src/transaction/cow_graph_storage.cc:504-513 | Erasing flags by number from the largest down leaves the flags of the other columns if and only if no number that occurs twice has one above it that stays, and too few otherwise |
| `PropertyLists.DistinctIsHarmless` | src/transaction/cow_graph_storage.cc:475-519 | A list without repetitions is harmless |
| `PropertyLists.RepeatedIsHarmful` | src/transaction/cow_graph_storage.cc:475-519 | A repeated name with a property behind it that stays is not |
| `PropertyLists.ResetsIff` | src/transaction/cow_graph_storage.cc:579-586 | An edge type that has a property table before and after is taken for a rebuilt one if and only if the list repeats a name |
| `PropertyLists.AddedIsGoodIff` | src/utils/property/table.cc:101-130 | Adding new properties keeps schema, table, index and flags in step if and only if the list repeats no name |
| `PropertyLists.RenamedIsGoodIff` | src/utils/property/table.cc:132-143 | Renaming keeps them in step if and only if the new name is not the name of another property |
| `PropertyLists.RepeatedNameLosesFlag` | src/transaction/cow_graph_storage.cc:475-519 | Deleting one of two properties by a list that names it twice leaves a column without a flag |
| `PropertyLists.RepeatedAddLosesColumn` | src/utils/property/table.cc:101-161 | Adding one name twice and deleting it twice leaves a column that no name leads to |
| `CowColumns.FreshDropIff` | src/transaction/cow_graph_storage.cc:475-519 | In a clone that has not detached a table, a flag stands for a private column after a deletion if and only if the list is harmless |
| `CowColumns.ListDropIff` | src/transaction/cow_graph_storage.cc:475-519 | In every clone a harmless list leaves right flags; after any other the last column that stays counts as detached |
| `CowColumns.EdgeDropIff` | src/transaction/cow_graph_storage.cc:571-597 | After a deletion from a property table that stays, the flags are right if and only if the list repeats no name or everything is private already |
| `CowColumns.HarmfulListWritesBase` | src/transaction/cow_graph_storage.cc:475-519 | After a harmful list in a clone that shares the table, the next write to the last column changes the base graph |
| `CowColumns.RepeatedNameWritesDirectory` | src/transaction/cow_graph_storage.cc:571-597 | After a repeated name in a clone that shares the directory, detaching a list changes the base graph |
| `CowColumns.RenamesToIff` | src/storages/graph/schema.cc:295-311 | The names after a list of pairs are those at the end of a chain in which each pair renames the first property of its old name and nothing else, and no others |
| `CowColumns.AppliedIs` | src/storages/graph/schema.cc:523-543 | For an edge type the pairs are applied up to the first one whose old name is not there any more |
| `CowColumns.RenamedEverywhere` | src/utils/property/table.cc:132-143 | Schema and table have the same names after renaming |
| `EdgeOffsets.MatchedOffsets` | src/transaction/cow_graph_storage.cc:824-841 | The offsets collected before anything is deleted: the rank of each match among the visible entries, and what the search finds for it in the other list |
| `EdgeOffsets.OutDeletesIff` | src/transaction/cow_graph_storage.cc:810-875 | The outgoing list loses exactly the visible entries of the neighbour if and only if no invisible entry stands before one of them |
| `EdgeOffsets.InDeletesIff` | src/transaction/cow_graph_storage.cc:810-875 | If both lists hold the same edges, the incoming list loses exactly the visible entries of the neighbour if and only if no two of the edges have the same timestamp and property |
| `EdgeOffsets.DeleteEdgesIff` | src/transaction/cow_graph_storage.cc:810-875 | If both lists hold the same edges, exactly the visible edges between the two vertices are deleted from both if and only if no invisible entry stands before one of them in the outgoing list and no two of them look alike; every half is found |
| `EdgeOffsets.DeletedEntryShiftsCount` | src/transaction/cow_graph_storage.cc:810-875 | With one deleted entry in front, another vertex's edge is deleted from the outgoing list, while the incoming half of the right one goes |
| `EdgeOffsets.ParallelEdgesLeaveHalf` | src/transaction/cow_graph_storage.cc:810-875 | Of two parallel edges that look alike, both outgoing halves are deleted and one incoming half stays |
| `RedoProof.OpAgrees` | src/transaction/transaction_utils.cc:158-493 | For every operation that succeeds, replaying what it logged commutes with dropping the temporary types, although numeric labels differ, properties logged by number were added, renamed and deleted before, and lists were rebuilt so that offsets moved |
| `RedoProof.ExecKeeps` | src/transaction/cow_graph_storage.cc:256-985 | Every operation keeps names and keys unique and edge types at temporary vertex types temporary |
| `RedoProof.RebuiltList` | include/neug/storages/csr/mutable_csr.h:155-187 | A rebuilt list holds the entries that were not deleted, in their order |
| `RedoProof.ReplayRefinesExecution` | src/transaction/transaction_utils.cc:158-493 | For every transaction that commits, replaying its log on the persistent part of the graph it started from succeeds and gives the persistent part of the graph it produced |
| `RedoProof.ReplayWal` | src/transaction/transaction_utils.cc:158-163 | The loop over the records computes the replay |
| `RedoEffects.AddVertexEffect` | src/storages/graph/property_graph.cc:1414-1422 | Exactly one row is written, live, with key and properties: behind the others, or where the same key was deleted; every other row and every entry of every list reads as before |
| `RedoEffects.SetVertexEffect` | src/storages/graph/property_graph.cc:1450-1460 | Exactly one cell of a live row is written |
| `RedoEffects.DeleteVertexEffect` | src/storages/graph/property_graph.cc:751-774 | The row is no longer live; in both directions and for every edge type, exactly the entries that stand at the vertex or name it are marked deleted; every other row and entry reads as before |
| `RedoEffects.DeleteMissingVertex` | src/storages/graph/property_graph.cc:753-755 | Deleting a vertex that is not there succeeds and changes nothing |
| `RedoEffects.AddEdgeEffect` | src/storages/graph/property_graph.cc:1424-1448 | Exactly one entry appears at the end of each of the two lists, naming the other end, with the properties |
| `RedoEffects.DeleteEdgeEffect` | src/storages/graph/property_graph.cc:777-789 | Exactly the entries at the two offsets are marked deleted |
| `RedoEffects.SetEdgeEffect` | src/storages/graph/property_graph.cc:1462-1481 | Exactly one property of the two entries is written, which are not deleted |
| `RedoEffects.CreateVertexTypeEffect` | src/storages/graph/property_graph.cc:244-333 | A new type without vertices under a name that was free; everything else reads as before |
| `RedoEffects.CreateEdgeTypeEffect` | src/storages/graph/property_graph.cc:335-417 | A new type without edges between types that exist, temporary if asked or if one of its ends is; everything else reads as before |
| `RedoEffects.DropVertexTypeEffect` | src/storages/graph/property_graph.cc:655-692 | The type and every edge type with it at either end are gone, and no other |
| `RedoEffects.DropEdgeTypeEffect` | src/storages/graph/property_graph.cc:702-713 | The edge type is gone, and no other |
| `RedoChanges.ChangeVertexTypeEffect` | src/storages/graph/property_graph.cc:419-593 | Every vertex of the type keeps its key and stays as live as it was; new properties have their defaults behind the old ones, deleted ones are gone by name and no others, renamed ones keep their values |
| `RedoChanges.ChangeInPlace` | src/storages/graph/property_graph.cc:449-648 | An edge type that is not rebuilt keeps every entry at its place, with values changed in the same way |
| `RedoChanges.ChangeRebuilds` | src/storages/graph/edge_table.cc:1030-1159 | A rebuilt edge type keeps the undeleted edges of every list in their order, with values changed in the same way, and its incoming lists are its outgoing lists read backwards |
| `RedoChanges.DeletedOrder` | src/storages/graph/schema.cc:313-344 | Properties that stay keep their order |
| `RedoChanges.RenamedOne` | src/storages/graph/schema.cc:295-311 | One pair renames the first property of its old name and no other |
| `RedoChanges.RenamedThen` | src/storages/graph/schema.cc:295-311 | A list of pairs is applied one after the other |
| `RedoIntegrity.ExecSucceedsIff` | src/transaction/cow_graph_storage.cc:256-985 | Every operation succeeds if and only if the types, live vertices, entries and properties that it needs are there, names are free where they must be, and lists have the right length |
| `RedoIntegrity.ExecKeepsIntegrity` | src/transaction/cow_graph_storage.cc:256-985 | Every operation keeps the integrity of the graph: an undeleted edge stands at a live vertex and names one, in both directions |
| `RedoIntegrity.DeletedVertexIsGone` | src/transaction/cow_graph_storage.cc:739-766 | After a deletion the vertex is not there, and no undeleted entry of any edge type stands at it or names it, in either direction |
| `RedoIntegrity.ExecKeepsAligned` | src/transaction/cow_graph_storage.cc:256-985 | Every operation keeps one value for every property of every vertex and edge |
| `RedoIntegrity.TransactionKeepsIntegrity` | src/transaction/cow_graph_storage.cc:256-985 | Every transaction keeps unique names and keys, one value for every property, and the integrity of the graph |
| `RedoOffsets.RemovalReplaysIff` | src/transaction/transaction_utils.cc:306-324 | On a list that inserts filled in any order, a removal logged by its offset leaves the same entries on replay if and only if as many entries as the offset says come before it in timestamp order |
| `RedoOffsets.AllRemovalsReplayIff` | src/transaction/transaction_utils.cc:306-324 | Every offset of a list replays to the same edge if and only if the list is in timestamp order |
| `RedoOffsets.ReplayedAt` | src/transaction/transaction_utils.cc:158-163 | Replay in timestamp order puts every entry behind exactly those that precede it in that order |
| `RedoOffsets.LaterInsertFirst` | src/transaction/transaction_utils.cc:306-324 | Inserts 5 and 6 reach a list in the opposite order; the removal of the entry of 6 replays as the removal of that of 5 |
| `WalIngest.SortUpdates` | src/transaction/wal/local_wal_parser.cc:116-121 | Ascending by timestamp, with exactly the given records |
| `WalIngest.Parse` | src/transaction/wal/local_wal_parser.cc:87-122 | From records in any order: the ascending updates, each insert in the slot of its timestamp, at least 4096 slots, the largest timestamp |
| `WalIngest.IngestRange` | src/main/neug_db.cc:109-129 | Replays each timestamp of the range once, in order, if and only if the range lies inside the insert list or is empty |
| `WalIngest.IngestWals` | src/main/neug_db.cc:577-607 | Applies exactly the timestamps base+1 to max(base, last), each once and in increasing order, gives the serial execution of the log and returns max(base, last), if and only if no timestamp looked up is beyond the insert list |
| `WalIngest.LogIsRecords` | src/transaction/wal/local_wal_parser.cc:87-122 | The log that is replayed is the set of WAL records, each under its own timestamp |
| `WalIngest.Recover` | src/main/neug_db.cc:532-607 | Parsing and ingesting a set of records succeeds if and only if no gap in the timestamps lies beyond the insert list, and then gives the serial execution of the records above the base |
| `WalIngest.AbortedGapBreaksRecovery` | src/transaction/wal/local_wal_parser.cc:146-148 | One update at 4097 and nothing else does not meet the condition under which recovery succeeds |
| `Md5Transform.CoreFunctions` | src/utils/md5.cc:58-61 | F1 to F4 are the functions F, G, H and I of section 3.4 of RFC 1321 |
| `Md5Transform.StepIsNewA` | src/utils/md5.cc:63-64 | The step macro is the operation of section 3.4 of RFC 1321 |
| `Md5Transform.FourStepsIsRound` | src/utils/md5.cc:66-144 | Four unrolled steps are four operations on rotating registers |
| `Md5Transform.FirstRound` | src/utils/md5.cc:72-87 | The sixteen steps are round 1 of the standard |
| `Md5Transform.SecondRound` | src/utils/md5.cc:89-104 | The sixteen steps are round 2 of the standard |
| `Md5Transform.ThirdRound` | src/utils/md5.cc:106-121 | The sixteen steps are round 3 of the standard |
| `Md5Transform.FourthRound` | src/utils/md5.cc:123-138 | The sixteen steps are round 4 of the standard |
| `Md5Transform.Transform` | src/utils/md5.cc:66-145 | The state after a block is the block function of section 3.4 of RFC 1321 |
| `Md5.CounterStep` | src/utils/md5.cc:156-166 | The two-word counter with its carry is the bit length modulo 2^64 |
| `Md5.TailLength` | src/utils/md5.cc:156-170 | The number of buffered bytes read off the low word is the message length modulo 64 |
| `Md5.Md5.constructor` | include/neug/utils/md5.h:60-62 | A fresh object has no message in progress |
| `Md5.Md5.MD5Init` | src/utils/md5.cc:146-154 | The state is that of the empty message |
| `Md5.Md5.MD5Update` | src/utils/md5.cc:156-197 | However a message is cut into updates, the state is that of the whole message |
| `Md5.Md5.Pad` | src/utils/md5.cc:199-225 | The padding is that of section 3.1 of RFC 1321, through an extra block when the last has no room |
| `Md5.Md5.MD5Final` | src/utils/md5.cc:199-234 | The result is the digest of everything added, by sections 3.1 to 3.5 of RFC 1321 |
| `Md5.Md5.Add` | include/neug/utils/md5.h:95-101 | Starts a message or continues it |
| `Md5.Md5.Finish` | include/neug/utils/md5.h:106-114 | The digest of the message in progress, or the previous result |
| `Md5.HashChunks` | src/utils/md5.cc:156-234 | For every split of a message, the result is the digest of the whole |
| `DataTypes.CheckNames` | src/common/types.cc:166-195 | Accepts exactly names that are all blank, or all given and different |
| `DataTypes.EqualIffErased` | src/common/extra_type_info.cc:41-189 | Two types are equal if and only if they agree up to varchar lengths |
| `DataTypes.LengthsAreIgnored` | src/common/extra_type_info.cc:152-157 | Varchars of different lengths compare equal, also inside a list |
| `TypeCodec.RoundTrip` | src/common/types.cc:487-572 | At any depth, decoding an encoding followed by any suffix gives the same type, with lengths and field names, and leaves exactly the suffix |
| `TypeCodec.Layout` | src/common/types.cc:487-522 | An encoding is the type id, a byte 0 or 1, and behind a 1 the child of a list, the child and the size of an array, the length of a varchar, or the counted children and counted names of a struct; sizes are eight bytes, the least significant first |
| `TypeCodec.LeadingByte` | include/neug/common/types.h:62-79 | The first byte is 25 for a varchar with a length, 100 for a struct, 101 for a list, 108 for an array |
| `TypeCodec.ChildAt` | src/common/types.cc:500-502 | The children of a struct stand one behind the other |
| `TypeCodec.NameAt` | src/common/types.cc:503-507 | Field names stand one behind the other, each behind its length |
| `TypeCodec.DecodedIsBuilt` | src/common/types.cc:524-572 | Whatever decodes is a type that the factories build and the encoder supports |
| `TypeCodec.DecodeEncodeDecode` | src/common/types.cc:487-572 | Encoding what was decoded and decoding again gives the same |
| `TypeArchive.InArchive.Add` | src/common/types.cc:487-522 | Appends the encoding if and only if the type has no map or graph information |
| `TypeArchive.InArchive.AddChildren` | src/common/types.cc:500-502 | Appends the encodings of all children, or stops at the first that is not supported |
| `TypeArchive.OutArchive.Read` | src/common/types.cc:524-572 | Consumes exactly one encoding, or reports that there is none |
| `TypeArchive.OutArchive.ReadStruct` | src/common/types.cc:535-553 | Consumes children and names, and builds a struct with or without names |
| `TypeArchive.WriteAndRead` | src/common/types.cc:487-572 | Writing a type and reading it back gives the type and leaves what followed |

## Left out

- Memory orders weaker than sequential consistency, back-off, yield and sleep: waiting steps change nothing.
- `PropertyGraph`, CSR and column internals beyond the vertex table, adjacency list and property column operations of `CowStorage`; indexes and vector payloads.
- `SnapshotGuard`, the snapshot slot pool and the move operations of the leases: a pin is the generation it names.
- `UpdateTimestampLease` and `CurrentGraphWriteGuard` as objects: their order of calls is part of the protocol's program points.
- Provisional vertex ids of concurrent inserts: the write set of an insert is fixed at its commit.
- Liveness under contention: that a wait ends or a lease is eventually granted; `Progress`, `ExclusiveProgress` and `ServiceProgress` cover a thread that runs alone.
- Theorems.CheckpointKeepsFacts: temporary facts do not survive a manual checkpoint in this model; how connections recreate temporary labels is not modelled.
- Theorems.PublishedPairMatches: says nothing while an exclusive operation is between replacing the current snapshot and publishing; no reader is admitted then, by `Theorems.OwnersExclude`.
- ServiceTheorems.FateIsFinal: real time is not modelled; an entry may expire at every point where the code looks at the clock, and identifiers are arbitrary.
- WalIngest.Parse: does not model files and memory mapping; records have positive, pairwise different timestamps, which `Recovery.OnDiskParses` proves of every reachable state.
- CowEdges.FindHalf: models adjacency lists with timestamps; on a list without them the code never accepts one of several candidates.
- CowStorage.CowGraphStorage.EnsureCapacity: that private buffers move is modelled, their capacities are not; whether a table is full is a parameter.
- CowStorage.CowGraphStorage.Unbundle: the code may leave the flag of the first column unset although its block is private, which costs a copy later; here it is set.
- CowStorage.CowGraphStorage.AddEdgeProperties: that a new property reads its default is stated where every entry names a row of the property table, which every operation keeps.
- CowStorage.CowGraphStorage.DeleteVertexProperties: the primary key, which cannot be deleted, is not among the properties here.
- CowStorage.CowGraphStorage.Run: a statement that throws half-way leaves its partial effect in the clone, never in the base graph.
- RedoProof.ReplayRefinesExecution: covers creating and dropping types, adding, renaming and deleting lists of vertex and edge properties with the rebuilt lists that follow, and all vertex and edge operations; indexes and projected graphs are not part of it, and a list that adds one vertex property twice fails here. Graphs are values, and dropping a type renumbers the ones after it. Deleting a vertex marks every entry that names it, which is what `CowStorage.CowGraphStorage.DeleteVertex` proves of lists that mirror each other.
- ServiceTheorems.CalmCloseEndsTransactions: goes one way, because a begin in progress when Close starts may also be accepted or rolled back in time; the condition at the return of Close is exact in `ServiceTheorems.CloseEndsTransactionsIff`.
- ServiceTheorems.FatalChecksHold: no exception is modelled after a begin has given its pending count back, where only an allocation for the answer could fail.
- RedoIntegrity.ExecKeepsIntegrity: offsets of an edge operation may name two different edges, so that both directions of one edge agree is the subject of `CowStorage`, not of this graph.
- RedoChanges.ChangeVertexTypeEffect: deleted properties are matched by name where no two have the same name; renaming can make two of them equal.
- ServiceRequests.RequestEnds: a rollback can find a transaction that another request has committed and not yet removed, and reports success; that is what the code does.
- RedoOffsets.RemovalReplaysIff: a deleted entry keeps its place and counts as an entry; compaction, which removes such entries, is not modelled.
- Bulk and batch operations of `BulkCowGraphStorage`, whose commit is the bulk checkpoint of the protocol.
- `GNode` and `GRel` type information appears in equality only; the archive rejects it.
- `DigestToBase16`, which only formats, and big-endian hosts, on which MD5 would reverse bytes.
- Query planning and execution, HTTP and BRPC transports, JSON, connections, and the Python tooling.
