# Vsector: the durable shard and the protocols that move and copy it

A Dafny model of the part of Vsector that decides whether data survives: the shard's
write-ahead log, MemTable, SSTables and crash recovery; the export and import of a shard; the
eight-state migration protocol with its version guard, rollback, ownership commit and source
deletion; lifecycle, membership and the durable metadata file; in-process replication and its
health view; placement and routing; and the exact distributed top-k of flat indexes.

The code that works by updating objects is modelled by classes with the same fields, whose methods
are proved against functions of the old state. The theorems are proved about those functions and
about whole histories of them.

## How it is organised

| file | what it holds |
|---|---|
| `Wrappers`, `Ordering` | options and results; string order, `sorted(...)`, uniqueness of sorted lists |
| `Records` | vector records, the JSON documents they travel as, the WAL payload parser |
| `Crc32`, `Wal` | the CRC-32 of the frames; the frame codec, torn tails, damage, rotation, reopening |
| `Segments`, `Recovery` | MemTable, SSTables and the store over them; recovery from tables and log |
| `Ingest` | one shard's write path, flushes, crashes and restarts over a log read in append order, refined to a plain map |
| `ShardOnDisk` | the same shard over the segment files it really has, with the bytes a crash leaves in them: when they are such a log, and what is lost when they are not |
| `RecordOnDisk` | the same for one id at a time, over logs that read entries in any number of segments |
| `Transfer`, `Durability` | export, digest, import, verify, discard; how log, process and storage root fit together |
| `Protocol` | the control plane as a pure state machine: shards, members, migrations, storage roots, faults and crashes |
| `StaleGuard` | what each step may touch, and the version guard as a compare-and-swap |
| `ControlLaws` | what the control plane promises in terms of its records alone: who may own a shard, which moves there are, exactly when each call goes through |
| `MigrationSafety` | the invariants of migration records over runs |
| `DataSafety` | data follows ownership |
| `CarefulMigration`, `DrainingMigration` | no write behind the copy, no loss; a DRAINING shard takes none |
| `MigrationProgress` | an undisturbed migration goes through |
| `MigrationLimits`, `MigrationRuns` | where the code loses data, one lemma for each cause, and the losses as runs from an empty cluster |
| `ControlObjects`, `MigrationManager`, `LifecycleManagers` | the metadata objects, the store with its file, and the managers as the source has them, proved to be the state machine and to write what it puts |
| `Rebalance` | the rebalancing recommendation and its potential |
| `Persistence` | the document of the metadata file: three kinds of record in one key space; what each call puts |
| `DurablePlane` | the control plane with its file: calls, deaths inside calls, restarts, writes that fail |
| `Replication`, `Replica` | delivery and health; convergence of a replica with its primary |
| `HashRing`, `Router` | rendezvous hashing, the virtual-node ring; selection, write gate, decisions |
| `TopK`, `Query` | the theory of top-k lists; the flat index and the fan-out query |

## What holds, and what does not

Main results, hardest first:

- **Crash refinement over the files.** A process dies at any byte of a frame or inside an SSTable, and the next one
  opens segment 0 and appends behind whatever is there. In every *orderly* history, one in which nothing is logged behind
  a torn tail or in front of a segment that is read later, an acknowledged state of an id outlives every crash and
  restart (`ShardOnDisk.AcknowledgedWritesSurvive`), and where processes wrote what they logged a fetch serves the plain
  id-to-record map of the operations (`ShardOnDisk.FetchServesThePlainMap`, `ShardOnDisk.FetchServesThePlainMapExactly`).
  The theorems of `Ingest` are about the log as it is read; `ShardOnDisk.RunIsLogical` is the refinement that connects them.
  Orderly is not a promise of the code: a history is orderly when every death fell on a frame boundary and left
  entries in segment 0 alone (`ShardOnDisk.BoundaryDeathsAreOrderly`, `ShardOnDisk.DeathLeavesSaneIff`), and over files in
  any condition `ShardOnDisk.NextWriteIsInOrderIff` and `ShardOnDisk.NextOperationSurvivesIff` say exactly when the next
  acknowledged operation survives.
  What later segments hold matters only to the ids they mention: `RecordOnDisk.AcknowledgedRecordSurvives` and
  `RecordOnDisk.FetchServesLastOperation` say the same id by id, of every history that logs nothing in front of a torn
  segment and no operation on that id in front of a segment that has one on it, however many segments read entries.
- **Data follows ownership** through every interleaving of migrations, lifecycle calls, membership
  calls, writers, faults, and processes that die behind any single durable write of a copy, cancel
  or commit, one shard at a time (`DataSafety.DataFollowsOwnership`), exactly when the two digests agree at the commit
  (`DataSafety.HandoverKeepsDataIff`). Of a migration whose calls no process died in, in any state of its shard, they agree if and
  only if the source then holds what it held at the copy (`CarefulMigration.CarefulCommitKeepsDataIff`): if no write was
  admitted behind the copy, a migration that reads COMPLETED lost none (`CarefulMigration.QuietCopyLosesNothing`,
  `CarefulMigration.CarefulRunsKeepData`). On a shard that is DRAINING when its migration is created the write gate admits none:
  whatever happened to other shards, no acknowledged write is lost
  (`DrainingMigration.NoAcknowledgedWriteIsLost`, `DrainingMigration.WholeCallsLoseNothing`).
- **The file is the control plane.** Every call of the managers writes what the state machine takes it to put, and what it puts
  last is what it leaves (`DurablePlane.StepEndsInPut`). In every history of calls, deaths inside calls, restarts
  and failed writes a restart loads the last put that was written (`DurablePlane.RestartAnywhere`, `DurablePlane.FileIsCurrent`);
  where the writes succeed such a history is one of the state machine, so that all its theorems are about what
  is read back (`DurablePlane.WrittenRunIsARun`, `DurablePlane.DataFollowsTheFile`).
- **An undisturbed migration goes through** (`MigrationProgress.UndisturbedMigrationCompletes`): the safety theorems are
  not about runs that never happen.
- **The stale guard is a compare-and-swap** for all interleavings (`StaleGuard.CommitSeesTheShardOfItsCreation`,
  `StaleGuard.CompletedMeansUntouched`).
- **Who may own a shard.** At every step of every history whoever comes to own a shard is a member that is not REMOVED, and of this
  cluster if a migration brings it in (`ControlLaws.NewOwnersAreMembers`, `ControlLaws.CreationsAreBetweenMembers`,
  `ControlLaws.CommitRefusesStrangers`), and stands apart from the replicas (`ControlLaws.OwnersStandApart`); end states of
  shards and members stay (`ControlLaws.EndStatesStay`). `ControlLaws` says of each call of the state machine, without its
  definitions, exactly when it goes through and what it leaves.
- **The managers are the state machine**: each call of the imperative managers over shared mutable
  objects answers and changes the world exactly as the pure step does, and writes the file as the step says.
- **Exact characterisations**: WAL cut and damage, appends to a reopened log, digest verification, restart of
  the metadata file, replica convergence, health after delivery, selection over lists in any order, ring membership,
  merged top-k.

Where an unconditional statement is false of the code, the model keeps the code, a lemma gives the
family of inputs on which it fails, and the condition under which it holds is proved:

- A record re-sent with unchanged vector keeps its (version, checksum), because the checksum covers
  the vector alone; a restart then serves the flushed older copy (`Ingest.SameKeyServesStale`;
  `Ingest.RestartIsExactIff` says exactly when a restart is exact), and a replica that holds a flushed copy of a
  deleted id ignores the new record (`Replica.StaleDeliveryIsReachable`; `Replica.ReplicaConvergesIff` is exact).
- A reopened log appends behind a torn frame, which can swallow what follows (`Wal.TornFrameSwallowsAppend`), so that an
  acknowledged write is gone after the next restart (`ShardOnDisk.TornTailLosesAcknowledgedWrite`), and it appends to
  segment 0, in front of later segments, so that an acknowledged delete can be undone
  (`ShardOnDisk.RestartOverSegmentsUndoesDelete`). `Wal.AppendReadsBackIff`, `Wal.CutTakesAppendsIff` and
  `Wal.WriteReadsBackIff` are exact.
- Verification without a recorded digest checks nothing, so a process that dies inside `start_copy` leads to a
  commit over a torn import (`MigrationLimits.TornCopyIsCommitted`).
- A process that dies inside `cancel`, between discarding the target and storing CANCELLED, leaves a VERIFYING
  migration over an empty target that can still be committed (`MigrationLimits.CutCancelIsCommitted`).
- An ACTIVE shard keeps taking writes behind its copy, and the commit drops them
  (`MigrationLimits.WriteBehindTheCopyIsLost`).
  `MigrationRuns` shows these three losses as runs from an empty cluster.
- The store swallows a write of its file that fails (vsector/sharding/etcd.py:131-136), so a commit whose shard was not written
  still removes the source (vsector/sharding/migration.py:458-460), and the next process reads an owner with nothing
  (`MigrationRuns.UnwrittenCommitLoses`). `DurablePlane.CommitFileIff` and `DurablePlane.CutCommitFileIff` are exact.
- A migration that reads FAILED can have taken its shard over: the process died behind the put of the owner, and the
  operator failed the rest (`MigrationRuns.FailedMigrationTookOver`; `MigrationSafety.UnfinishedMigrationsChangedNothing` is exact).
- Two nodes on one directory: finalizing the source deletes the target (`MigrationLimits.CommitKeepsTargetIff` is exact).
- The lifecycle module's documentation says that a failed persistence rolls the shard back and that an invalid
  operation leaves it untouched (vsector/sharding/lifecycle.py:4-9). The code of `change_owner` restores owner and
  replicas but not the version (vsector/sharding/lifecycle.py:114-117), and `create` assigns owner and replicas before
  it validates them (vsector/sharding/lifecycle.py:46-50). A `create` refused for an object that the store holds already
  changes the store and not the file, although no write failed; `LifecycleManagers.ShardLifecycleManager.Create` says exactly when. The
  model follows the code.
- A shard whose id starts with a reserved key prefix comes back from the metadata file as a migration
  (`Persistence.ReservedShardBecomesMigration`; `Persistence.RestartIsInvisibleIff` is exact).
- A replica listed twice can hide a failure from the health view (`Replication.HealthAgreesIff` is exact).
- On equal hash scores the choice goes by list order and the ranking by name (`HashRing.ChoiceHeadsRankingIff` is
  exact), and routers that list the shards in different orders can admit two writers (`Router.TieAdmitsTwo`;
  `Router.OrderFreeIff` is exact); so can a router with a stale shard list (`Router.StaleListAdmitsTwoIff`).
- A search never returns a row that scores -1e8 or less, which is how it drops what its filter refused
  (vsector/index/flat.py:53-62); it loses no row that passes the filter exactly when all those score above it
  (`Query.LosesNothingIff`).
- `FlatIndex.add` compares no lengths: metadata that is too short raises in the middle and leaves the lists out of step
  (`Query.FlatIndex.Add`); a deletion over such lists can raise behind the ids it has cut, and a search behind its filter
  (`Query.FlatIndex.Delete`, `Query.FlatIndex.Search`).
- A recommendation across a gap of one moves a shard between members that are already level
  (`Rebalance.GapOneIsLevel`) and leaves the potential as it was.

Assumptions: JSON encoding and decoding round-trip; the SHA-256 digest of an export does not collide
(it is modelled by the canonical content it is computed from); storage roots of different nodes are
different directories where a theorem says `Separate`; hash scores are distinct where a theorem says
`DistinctScores`, and one is the greatest where it says `HasWinner`. CRC-32 is the
real function, not an assumption. Payloads fit a frame, and clock values the eight bytes of one. Calls of one manager
are atomic except where a crash is a step of its own: behind each durable write of a commit, inside a copy, inside a cancel.
The state machine of `Protocol` keeps what the store holds. Its crashes take a put that returned to be in the file; `DurablePlane`
drops that assumption, lets any write of the file fail, and says when the two are the same.
Clocks, the environment's refusals (a put, a copy, a read-back or a cleanup that raises), which writes of the
metadata file succeed, and the outcome of each delivery are parameters.

## Model

The first 102 rows are the main theorems and the operations they are about, in the order of the list above. Behind them come the lemmas and
methods they rest on, file by file, and at the end, from `Wal.Log.Append` on, the operations that only set or read a field, with
what they keep in place; they are there so that every operation has its row.

| member | source | states |
|---|---|---|
| `ShardOnDisk.AcknowledgedWritesSurvive` | vsector/storage/recovery.py:1-17 | in every orderly history, for an id whose operations are all written out, what a fetch serves of it before and after any flushes, deaths at any byte and restarts, until the next operation on it, are both there with the same version and the same checksum, or neither; `RecordOnDisk.AcknowledgedRecordSurvives` says it id by id of histories that log over entries in several segments |
| `ShardOnDisk.FetchServesThePlainMap` | vsector/storage/recovery.py:74-127 | in every orderly history whose processes wrote what they logged, the record a fetch serves and that of the plain map are both there with the same version and the same checksum, or neither |
| `ShardOnDisk.FetchServesThePlainMapExactly` | vsector/storage/recovery.py:74-127 | and exactly the plain map, when keys identify records |
| `RecordOnDisk.AcknowledgedRecordSurvives` | vsector/storage/recovery.py:1-17 | for one id and any number of segments with entries: if nothing is ever logged in front of a torn segment, nor an operation on this id in front of a segment that has one on it, what a fetch serves of the id before and after flushes, deaths at any byte and restarts, until the next operation on it, are both there with the same version and the same checksum, or neither |
| `RecordOnDisk.FetchServesLastOperation` | vsector/storage/recovery.py:74-127 | in such a history in which no death dropped an operation on the id, the record a fetch of it serves and that of the plain map are both there with the same version and the same checksum, or neither |
| `ShardOnDisk.RunIsLogical` | vsector/ingest/service.py:38-55 | an orderly history over files, in which nothing is logged behind a torn tail or in front of a later segment, is a history over the list of payloads |
| `ShardOnDisk.NextWriteIsInOrderIff` | vsector/storage/wal.py:44-107 | over files in any condition, the next acknowledged write is found behind everything by the next process if and only if its segment ends on a frame boundary and no later segment reads an entry |
| `ShardOnDisk.NextOperationSurvivesIff` | vsector/storage/wal.py:44-107 | into a segment that ends on a boundary, an acknowledged operation decides its id for the next process if and only if no later segment decides it otherwise |
| `ShardOnDisk.BoundaryDeathsAreOrderly` | vsector/storage/wal.py:44-68 | a history is orderly if every death in it fell on a frame boundary and left entries in segment 0 alone, whatever else happened; one process alone always is |
| `ShardOnDisk.DeathLeavesSaneIff` | vsector/storage/wal.py:44-68 | a death leaves a log of whole segments fit for appends if and only if it fell on a frame boundary and only segment 0 reads entries |
| `ShardOnDisk.TornTailLosesAcknowledgedWrite` | vsector/storage/wal.py:52-68 | a history from a fresh directory in which a record acknowledged behind a torn tail is gone after the next restart |
| `ShardOnDisk.RestartOverSegmentsUndoesDelete` | vsector/storage/wal.py:44-50 | a history in which a delete acknowledged after a restart over two segments is undone by the next restart |
| `DataSafety.DataFollowsOwnership` | vsector/sharding/migration.py:433-470 | for each shard by itself, over every history cut behind any single durable write: the owner on record holds all that the shard should contain, if each commit on that shard would have passed a recheck and no owner change went by hand |
| `DataSafety.HandoverKeepsDataIff` | vsector/sharding/migration.py:433-470 | the new owner holds what the old one held if and only if the two digests agreed right before the commit |
| `CarefulMigration.CarefulCommitKeepsDataIff` | vsector/sharding/migration.py:366-441 | for any writes at any time, to a shard in any state, the commit of a careful migration (no process died inside a cancel of it, and a digest is on record) would pass a recheck of the digests if and only if the source then holds what it held at the copy step |
| `CarefulMigration.QuietCopyLosesNothing` | vsector/sharding/migration.py:366-470 | if a careful migration ever reads COMPLETED and no write was admitted while it was behind its copy, one commit took the shard over and the new owner then held exactly what the old one held right before; writes before the copy are free, and the shard may be ACTIVE throughout |
| `CarefulMigration.CarefulRunsKeepData` | vsector/sharding/migration.py:359-470 | over every history that is careful with one shard and admits no write behind a copy of it, the owner on record always holds its full content, without any recheck |
| `DrainingMigration.NoAcknowledgedWriteIsLost` | vsector/sharding/migration.py:359-470 | if a migration created on a DRAINING shard ever reads COMPLETED, one commit took the shard over, the new owner then held exactly what the old one held at the creation, and no write was admitted in between; care is asked of calls on this migration alone, the rest of the history is free |
| `DrainingMigration.WholeCallsLoseNothing` | vsector/sharding/migration.py:359-470 | the same with no condition but that no process died inside a call on this migration |
| `DurablePlane.RestartAnywhere` | vsector/sharding/etcd.py:112-136 | at every moment of every history of calls, deaths inside calls and restarts in which no shard gets a reserved id, whatever writes failed, the file is the document of the last put that was written, and the next process loads exactly what was put then |
| `DurablePlane.FileIsCurrent` | vsector/sharding/etcd.py:125-136 | behind every call whose last put was written, every death and every restart the file says what the store holds; a call that puts nothing leaves it so |
| `DurablePlane.WrittenRunIsARun` | vsector/sharding/etcd.py:103-136 | a history with restarts whose writes succeed is a history of the state machine, so every theorem about runs holds of what is loaded from the file |
| `DurablePlane.DataFollowsTheFile` | vsector/sharding/migration.py:433-470 | in such a history, if each commit on a shard would have passed a recheck, the owner the next process will read for it has its full content |
| `DurablePlane.CommitFileIff` | vsector/sharding/etcd.py:131-136 | a commit whose target holds what the source held, over any outcomes of its three writes: which owner the next process reads, and that this owner has the content if and only if the write of the shard or of COMPLETED succeeded or there was nothing to lose |
| `DurablePlane.CutCommitFileIff` | vsector/sharding/migration.py:458-470 | the same of a process that dies between the removal of the source and the put of COMPLETED: the write of the shard alone decides |
| `MigrationRuns.UnwrittenCommitLoses` | vsector/sharding/etcd.py:125-136 | a run from an empty cluster in which the file takes no write from the commit on: the commit completes and removes the source, and the next process reads the source as owner, with nothing there |
| `StaleGuard.CommitSeesTheShardOfItsCreation` | vsector/sharding/migration.py:252-279 | if a migration ever changes its shard, the shard record was the same at every moment since the creation: no transition, owner change or other commit came in between |
| `StaleGuard.CompletedMeansUntouched` | vsector/sharding/migration.py:252-279 | a migration that reads COMPLETED took its shard over in one commit, and from the creation to that commit the shard record was the same at every moment |
| `StaleGuard.RunMovesForward` | vsector/sharding/shard.py:63-74 | over any history every shard record is unchanged or has a greater version |
| `ControlLaws.NewOwnersAreMembers` | vsector/sharding/migration.py:415-456 | at every step of every history, crashes included: whoever comes to own a shard is a node on record that is not REMOVED and none of the replicas; if a migration brings it in, that was VERIFYING with this target, the node is of this cluster, the replicas kept are members and are the other old ones, the old owner was the source, the shard is ACTIVE or DRAINING, and nothing else of it but its version, by one, changes |
| `ControlLaws.OwnersStandApart` | vsector/sharding/shard.py:82-93 | over every history each shard has an owner, which is not among its replicas |
| `ControlLaws.CreationsAreBetweenMembers` | vsector/sharding/migration.py:299-341 | every migration record that appears in any history came from a creation, and its source and target were then two different nodes on record, not REMOVED, of this cluster |
| `ControlLaws.CommitRefusesStrangers` | vsector/sharding/migration.py:432-432 | a commit whose target is not on record, REMOVED or of another cluster changes nothing and raises the target error |
| `ControlLaws.CommittedIff` | vsector/sharding/migration.py:415-470 | exactly when a commit hands its shard over, in terms of the records alone, and what it then leaves of records and storage for every outcome of the cleanup |
| `ControlLaws.EndStatesStay` | vsector/sharding/shard.py:47-54 | over every history an OFFLINE or RETIRED shard stays so, none comes back to CREATING or SPLITTING or changes its namespace; a REMOVED member stays as it is, none joins twice or changes its cluster |
| `MigrationProgress.UndisturbedMigrationCompletes` | vsector/sharding/migration.py:299-470 | from any world in which nothing stands in the way the five calls succeed in turn; the target then owns the shard with the source's content, the source's root is gone, the record is COMPLETED and finalized |
| `MigrationProgress.SuccessesAreARun` | vsector/sharding/migration.py:299-470 | such calls are a history of the state machine, and one that is careful with the shard, whatever its state |
| `MigrationSafety.RunKeepsAtomicInv` | vsector/sharding/migration.py:366-470 | over runs of whole calls no record rests in COMMITTING, and from COPYING to COMPLETED both digests are there and equal |
| `MigrationSafety.StepKeepsOneLive` | vsector/sharding/migration.py:320-326 | at most one migration per shard is in progress, interrupted calls included |
| `MigrationSafety.TerminalAbsorbs` | vsector/sharding/migration.py:95-104 | a terminal record is the same at every later moment of any history |
| `MigrationSafety.UnfinishedMigrationsChangedNothing` | vsector/sharding/migration.py:287-297 | a call on a migration that ended FAILED or CANCELLED changed a shard record if and only if it was a commit whose process died behind the put of the owner; in any history, crashes of other calls included |
| `MigrationRuns.FailedMigrationTookOver` | vsector/sharding/migration.py:441-456 | a run from an empty cluster whose migration reads FAILED and whose shard belongs to its target |
| `MigrationRuns.LateWriteIsLost` | vsector/sharding/migration.py:58-58 | a run from an empty cluster to COMPLETED in which an admitted write is not at the new owner |
| `MigrationRuns.TornCopyLoses` | vsector/sharding/migration.py:366-413 | a run from an empty cluster to COMPLETED in which a process died inside the copy and the new owner has nothing |
| `MigrationRuns.CutCancelLoses` | vsector/sharding/migration.py:472-487 | a run from an empty cluster to COMPLETED in which a process died inside a cancel and the new owner has nothing |
| `MigrationLimits.CommitKeepsTargetIff` | vsector/sharding/migration.py:458-466 | an admitted commit keeps what the target held if and only if source and target have different directories or there was nothing to keep |
| `MigrationManager.ShardMigrationManager.CreateMigration` | vsector/sharding/migration.py:299-341 | answers and changes the world as the state machine's step, checks in the same order, and puts what `DurablePlane` takes the step to put; `ControlLaws.CreatedIff` says of that step, in terms of the records alone, exactly when it adds one |
| `MigrationManager.ShardMigrationManager.Prepare` | vsector/sharding/migration.py:345-357 | over shared mutable objects, answers and changes the world as the state machine's step, and puts what `DurablePlane` takes the step to put |
| `MigrationManager.ShardMigrationManager.StartCopy` | vsector/sharding/migration.py:359-392 | answers and changes records and roots as the state machine's step, with the copy that landed an exact image, and puts what `DurablePlane` takes the step to put |
| `MigrationManager.ShardMigrationManager.Verify` | vsector/sharding/migration.py:394-413 | answers and changes the world as the state machine's step, and puts what `DurablePlane` takes the step to put |
| `MigrationManager.ShardMigrationManager.Commit` | vsector/sharding/migration.py:415-470 | answers and changes shards, records and roots as the state machine's step, and puts what `DurablePlane` takes the step to put; `ControlLaws.CommittedIff` says of that step exactly when it hands over |
| `MigrationManager.ShardMigrationManager.Cancel` | vsector/sharding/migration.py:472-487 | answers and changes the world as the state machine's step, and puts what `DurablePlane` takes the step to put |
| `MigrationManager.ShardMigrationManager.ForceFail` | vsector/sharding/migration.py:489-494 | answers and changes the world as the state machine's step, and puts what `DurablePlane` takes the step to put |
| `LifecycleManagers.ShardLifecycleManager.Create` | vsector/sharding/lifecycle.py:44-57 | the object, the store, the answer and the puts in every case, and success exactly for an owner that is a member, not REMOVED and none of the replicas: a refusal leaves the object as it was asked for, a put that raises leaves it in CREATING; an object the store already holds is changed there at once, another is put over what was there only if nothing raised. A store that was saved is still what its file says if and only if the call succeeded or left its own object as it was |
| `LifecycleManagers.ShardLifecycleManager.Transition` | vsector/sharding/lifecycle.py:59-69 | for any shard object, held or not: the declared transition with its version, put, or the shard exactly as before; for the store's own object this is the state machine's step |
| `LifecycleManagers.ShardLifecycleManager.ChangeOwner` | vsector/sharding/lifecycle.py:85-118 | for any shard object, held or not: owner and replicas of a DRAINING shard change together and are put, every refusal leaves it alone, and a put that raises leaves only the version bumped; for the store's own object this is the state machine's step |
| `Wal.WriteReadsBackIff` | vsector/storage/wal.py:44-107 | the next write of a process over any files, rotation included, is read back behind everything, whatever the clock says, if and only if the segment it goes to ends on a frame boundary and no later segment reads an entry |
| `Wal.AppendReadsBackIff` | vsector/storage/wal.py:52-68 | over any bytes on disk: an append is read back behind everything the segment held, whatever the clock says, if and only if the segment ends on a frame boundary |
| `Wal.CutTakesAppendsIff` | vsector/storage/wal.py:52-68 | a segment cut at any byte takes appends if and only if the cut fell on a frame boundary |
| `Wal.CutReadsWholeFrames` | vsector/storage/wal.py:116-134 | a segment cut at any byte reads back as exactly the entries whose frames were whole |
| `Wal.DamagedBytesDropOneEntry` | vsector/storage/wal.py:126-131 | damage to up to four neighbouring payload bytes drops that entry and no other |
| `Wal.SaneWrites` | vsector/storage/wal.py:70-114 | on a log whose open and later segments end on boundaries, and of which only the open one reads entries, every batch lands behind everything in its order and the log stays so, whatever rotates |
| `Wal.Log.ReadAll` | vsector/storage/wal.py:116-134 | flushes and reads all files; on a sane log that is everything that was there and then every appended entry, in append order, for any batching and rotation |
| `Recovery.LastOperationDecides` | vsector/storage/recovery.py:82-100 | for every id in the log its last operation alone decides; the SSTables decide only for the others; records and tombstones never overlap |
| `Recovery.Recover` | vsector/storage/recovery.py:74-127 | the lists are the replay over the durable records; the MemTable gains exactly the final records that no table has, or has with another version or another checksum, and the counters are how many those are and how many entries were read |
| `Ingest.RestartIsExactIff` | vsector/storage/recovery.py:102-114 | a restart serves the replayed records themselves if and only if no durable record clashes with another of the same key |
| `Ingest.SameKeyServesStale` | vsector/storage/recovery.py:102-114 | a run in which new metadata on an unchanged vector is served before a restart and gone after it |
| `Ingest.FlushAfterRecovery` | vsector/storage/recovery.py:102-127 | flushing what recovery rebuilt and recovering again gives the same state with nothing left to rebuild |
| `Transfer.VerificationIsExactIff` | vsector/sharding/transfer.py:180-202 | with the source's digest, verification accepts exactly the true images of the source; without one, everything |
| `Transfer.ImportIsImage` | vsector/sharding/transfer.py:148-178 | the records then tombstones an import logs, over one table of the records, recover to exactly the export, and the tables alone hold its records |
| `Durability.ImportedShardServesTheExport` | vsector/sharding/transfer.py:148-178 | a node that opens an imported shard serves exactly the exported records, with nothing to recover from the log |
| `Durability.AcknowledgedWriteChangesContent` | vsector/ingest/service.py:163-241 | over files whose log takes appends, an acknowledged operation does to the content an export would find exactly what the operation says |
| `Persistence.RestartIsInvisibleIff` | vsector/sharding/etcd.py:112-136 | loading what was written gives back the same store if and only if no shard id starts with a reserved prefix |
| `Persistence.ReservedShardBecomesMigration` | vsector/sharding/etcd.py:112-123 | a shard under the migration prefix comes back as a PENDING migration of nothing |
| `Replica.ReplicaConvergesIff` | vsector/sharding/replication.py:168-214 | through any flushes and restarts of either side the replica agrees with its primary after every step if and only if no delivery was stale |
| `Replica.ReplicaOnDiskConvergesIff` | vsector/sharding/replication.py:168-214 | the same equivalence over the log files and tables of both sides, where each side logs only on a log that takes appends |
| `Replica.RedeliveryChangesNothing` | vsector/sharding/replication.py:168-214 | delivering the last operation again changes nothing served, stored or tombstoned, and for an upsert nothing at all |
| `Replica.StaleDeliveryIsReachable` | vsector/sharding/replication.py:168-197 | a run of a pair from two fresh contexts (upsert, table flush, delete, the same key again) after which the primary serves the record and the replica does not |
| `Replication.HealthAgreesIff` | vsector/sharding/replication.py:315-388 | the view agrees with every delivery, whatever its outcomes, if and only if the replicas are distinct |
| `Replication.HealthAgreesWithDelivery` | vsector/sharding/replication.py:315-388 | for distinct replicas, right after a delivery, ready exactly when the result succeeded and degraded exactly when some replica failed |
| `Router.SingleWriter` | vsector/sharding/router.py:143-158 | two nodes for which `RouteWrite` succeeds on one record are the same node, for routers that cached the same shard objects in any order, when one of those has the greatest score alone |
| `Router.OrderFreeIff` | vsector/sharding/router.py:100-123 | the selection is independent of the order in which the shards are listed if and only if one of them has the greatest score alone |
| `Router.TieAdmitsTwo` | vsector/sharding/router.py:100-158 | on a tie at the top two routers that were given the shards in opposite orders each admit another owner |
| `Router.StaleListAdmitsTwoIff` | vsector/sharding/router.py:81-92 | beside a list from before a shard was added, an up-to-date router admits another writer exactly for the records whose score the new shard wins |
| `Router.DecisionAgreesWithGate` | vsector/sharding/router.py:143-259 | LOCAL exactly when the write gate admits the local node, REMOTE exactly when another node owns the shard, UNAVAILABLE with the gate's own reason |
| `Router.GateIsWriteAdmitted` | vsector/sharding/router.py:143-177 | the gate of upserts admits a node exactly when the migration theorems say a write is admitted, and the gate of deletes, which skips the membership, exactly when they say a delete is |
| `Router.LivingShardsAreQueried` | vsector/sharding/router.py:160-162 | a query reaches every listed shard that takes a write or a delete, and every one whose migration would be let through |
| `HashRing.JoinMovesOnlyToJoiner` | vsector/sharding/hash_ring.py:25-44 | a joining node takes a key exactly when it outscores the choice; every other key stays |
| `HashRing.KeysAreIndependent` | vsector/sharding/hash_ring.py:33-44 | for any two different keys and any two of the nodes, none with a `#` in its name, some hash sends the one key to the one node and the other key to the other |
| `HashRing.LeaveMovesToSecond` | vsector/sharding/hash_ring.py:29-50 | a leaving node's keys each go to the second of its ranking; every other key stays; the choice is the first of the ranking |
| `HashRing.ChoiceHeadsRankingIff` | vsector/sharding/hash_ring.py:33-50 | the choice of one node is the first of the ranking if and only if no node with the same score has a greater name |
| `HashRing.JoinThenLeaveRestoresIff` | vsector/sharding/hash_ring.py:64-76 | joining and leaving again restores the ring if and only if the node's points were free |
| `HashRing.JoinsCommuteIff` | vsector/sharding/hash_ring.py:64-69 | the order of two joins is invisible if and only if they share no point |
| `Query.RunQuery` | vsector/query/engine.py:68-184 | the results are the best k of the rows of all shards together that pass the filter and score above -1e8, of all that pass it if those all score above it, however the rows are spread; none scores lower; errors exactly for an unknown namespace or a wrong dimension |
| `Query.FlatIndex.Search` | vsector/index/flat.py:44-63 | over lists in step the best k of the rows that pass the filter and score above -1e8, and as many as there are, for any scores; the best k of all rows that pass it if those all score above -1e8; no row is ever returned that does not. Over any other lists the best positions, as `Query.SlotsIff` gives them, raising where one of those has no row |
| `Query.LosesNothingIff` | vsector/index/flat.py:53-62 | a search is over every row that passes its filter if and only if all those rows score above -1e8 |
| `TopK.MergeIsExact` | vsector/query/engine.py:139-147 | the best of any number of per-shard top-k lists are the best of all the shards' rows |
| `TopK.ScoresAreDetermined` | vsector/query/engine.py:146-147 | any two top-k lists of the same rows have the same scores in the same order |
| `Rebalance.RecommendationLowersPotential` | vsector/sharding/migration.py:498-547 | following a recommendation lowers the sum of squared loads by twice the gap less one |
| `Rebalance.FollowingEnds` | vsector/sharding/migration.py:498-547 | whatever recommendations are followed, moves across a gap of two or more are at most half the first potential |
| `Rebalance.RecommendationIsAdmitted` | vsector/sharding/migration.py:299-341 | a recommendation passes every check of a creation when the members share the cluster and the shard has no migration in progress |
| `Rebalance.Recommend` | vsector/sharding/migration.py:515-546 | an ACTIVE or DRAINING shard of the namespace that a most loaded member owns, for a least loaded other; none exactly when no member with two or more such shards has more than another, and then no recommendation would be sound and no two members differ by more than one |
| `Rebalance.LoadCounts` | vsector/sharding/migration.py:515-535 | the load of a member is the number of ACTIVE and DRAINING shards of the namespace that it owns |
| `Records.PayloadRoundTrip` | vsector/storage/recovery.py:42-71 | every payload a writer produces (bare record, import envelope, tombstone) parses back as the operation it stands for; a tombstone of the empty id is the one that does not |
| `Records.ParsedOpsAreValid` | vsector/storage/recovery.py:42-71 | whatever the bytes, a parsed operation names a non-empty id and carries a valid record |
| `Records.ParsesIff` | vsector/storage/recovery.py:42-71 | for any JSON, which payloads are which delete and which upsert: the markers, the nesting, a non-empty id, a version of at least one |
| `Crc32.DetectsBurst` | vsector/storage/wal.py:126-131 | any change confined to four neighbouring bytes changes the checksum, for data of any length |
| `Crc32.RegisterInjective` | vsector/storage/wal.py:126-131 | from two registers the same data never leads to the same register |
| `Crc32.CheckValues` | vsector/storage/wal.py:91-96 | the checksum of no data is 0, and that of the bytes FF FF FF FE is 0x88F8CF69 |
| `Wal.PackRoundTrip` | vsector/storage/wal.py:91-107 | the fixed-width header fields read back as the numbers written |
| `Wal.FrameLayout` | vsector/storage/wal.py:19-20 | each byte of a frame: length, checksum and timestamp, most significant byte first, then the payload |
| `Wal.ParseEncode` | vsector/storage/wal.py:116-134 | the frames of any entries, before any bytes, parse as those entries and then the rest |
| `Wal.FittingIsMaximal` | vsector/storage/wal.py:116-134 | the number of whole frames before a cut is the largest prefix that fits |
| `Wal.DamagedPayload` | vsector/storage/wal.py:126-131 | a payload replaced by one with another checksum costs that entry and no other |
| `Wal.TornFrameSwallowsAppend` | vsector/storage/wal.py:52-68 | where the whole appended frame fits into the missing part of a torn one, it is lost inside it |
| `Wal.WriteKeepsOrderIff` | vsector/storage/wal.py:44-107 | a frame written to a segment that ends on a boundary is read behind everything if and only if later segments hold nothing but copies of it |
| `Wal.WholeLogsLoseNothing` | vsector/storage/wal.py:70-134 | where every segment ends on a boundary no entry is ever lost or doubled, wherever the frames go |
| `Wal.TornIsWholeIff` | vsector/storage/wal.py:91-107 | the first bytes of a frame, written to a whole segment, leave it whole only if there are none |
| `Wal.TornWriteReadsNothing` | vsector/storage/wal.py:116-134 | a torn frame adds nothing that is read, in whatever segment it is |
| `Wal.Log.constructor` | vsector/storage/wal.py:34-68 | a process opens any directory, torn and damaged bytes included, at segment 0 |
| `Wal.Log.Write` | vsector/storage/wal.py:91-107 | one frame goes to the end of the open segment, or of the next if it would take the open one over the limit, over any files |
| `Wal.Log.Flush` | vsector/storage/wal.py:109-114 | the whole buffer is written out, entry by entry; on a sane log it lands behind everything in its order and the log stays sane; from the last segment on every segment stays within the limit or holds one frame |
| `Wal.Log.WriteBatch` | vsector/storage/wal.py:91-107 | the write-out loop computes the specified files |
| `Wal.Log.ParseFile` | vsector/storage/wal.py:116-134 | the offset-advancing loop computes the specified parse of any bytes |
| `Wal.Log.ReadSegments` | vsector/storage/wal.py:116-134 | segments are read in order, each on its own |
| `Segments.SegmentStore.Flush` | vsector/storage/segment.py:116-129 | an empty MemTable writes nothing; another becomes one more SSTable that stands for exactly its content |
| `Segments.SegmentStore.Put` | vsector/storage/segment.py:111-114 | the record is stored, and exactly when the threshold is reached the whole MemTable moves to a new SSTable |
| `Segments.SegmentStore.Get` | vsector/storage/segment.py:142-153 | serves the MemTable, else the newest table with the id, whatever the scan order |
| `Segments.SegmentStore.DurableRecordsById` | vsector/storage/segment.py:155-162 | the loop over all tables leaves, for every id, the record of the newest table |
| `Recovery.ReplayLog` | vsector/storage/recovery.py:82-100 | the loop over the entries computes the specified replay |
| `Recovery.Collect` | vsector/storage/recovery.py:102-114 | lists every final record once, and those that no table has under their id, or has with another version or another checksum |
| `Ingest.RecoverInto` | vsector/ingest/service.py:38-55 | a fresh store recovers to the specified reopened state |
| `Ingest.WriteKeepsInv` | vsector/ingest/service.py:163-183 | an upsert makes its record the truth about its id and keeps the invariant that what is served agrees with what is durable |
| `Ingest.RemoveKeepsInv` | vsector/ingest/service.py:226-241 | a delete leaves its id without a record and keeps the invariant |
| `Ingest.FlushKeepsInv` | vsector/storage/segment.py:116-129 | flushing the MemTable at any moment changes nothing that is served or true |
| `Ingest.RestartKeepsInv` | vsector/ingest/service.py:38-55 | over a log read in append order, a restart keeps the truth about every id that no lost entry mentions |
| `Ingest.CrashInFlushKeepsInv` | vsector/storage/segment.py:45-66 | a process that dies while it writes an SSTable, the MemTable cleared and any first lines of the table on disk, changes nothing that is served or true beyond the lost log entries |
| `Ingest.RunKeepsInv` | vsector/ingest/service.py:38-55 | over such logs, the invariant holds after every event of every history |
| `Ingest.AcknowledgedStateSurvives` | vsector/storage/recovery.py:1-17 | over such logs, an acknowledged state of an id survives flushes, crashes with lost log tails and restarts, until the next operation on it: the records served before and after have the same version and checksum; `ShardOnDisk.AcknowledgedWritesSurvive` says it of the files |
| `Ingest.FetchRefinesPlainMap` | vsector/storage/recovery.py:74-127 | over such logs, in every history a fetch serves a record of the version and checksum the plain map has for the id, or none if that has none; `ShardOnDisk.FetchServesThePlainMap` says it of the files |
| `Ingest.FetchIsPlainMap` | vsector/storage/recovery.py:74-127 | over such logs, when id, version and checksum determine the record, a fetch serves exactly the plain map; `ShardOnDisk.FetchServesThePlainMapExactly` says it of the files |
| `Ingest.ServedIsTruth` | vsector/ingest/service.py:286-295 | under the same condition what is served is exactly what the durable pieces say, and never fabricated |
| `ShardOnDisk.StepIsLogical` | vsector/ingest/service.py:38-55 | as long as the log takes what is waiting, one event over segment files with any bytes does exactly what it does over the list of payloads, a death at any byte of a frame or inside an SSTable included |
| `ShardOnDisk.ShardContext.constructor` | vsector/ingest/service.py:38-55 | a new process over any files and tables holds what recovery makes of them |
| `ShardOnDisk.ShardContext.Upsert` | vsector/ingest/service.py:163-183 | one record: the upsert step over the files, followed by a MemTable flush when the store was full |
| `ShardOnDisk.ShardContext.Delete` | vsector/ingest/service.py:226-241 | one id: the delete step, whether or not the id was held |
| `RecordOnDisk.WriteAllFor` | vsector/storage/wal.py:44-114 | over segments that end on boundaries from the open one on, any batch, whatever rotates: of an id the batch does not mention the last operation read stays, and of one that no later segment mentions the batch is read last |
| `RecordOnDisk.StepFor` | vsector/ingest/service.py:38-55 | one event over the files, for one id: what is served agrees with the durable pieces, an operation on the id becomes their truth, and else only a death that drops an operation never written changes it |
| `RecordOnDisk.OrderlyOnEveryId` | vsector/storage/recovery.py:1-17 | an orderly history meets the condition of `RecordOnDisk.AcknowledgedRecordSurvives` for every id |
| `Durability.CutFileIsARestart` | vsector/storage/wal.py:116-134 | the first read of a single log file cut at any byte behind the last flush is that of a restart with some whole entries kept |
| `Durability.ContextStepOnContent` | vsector/ingest/service.py:163-241 | a write changes the shard's content as its operation says; a flush, a sync, a clean restart or a death inside a table flush changes nothing |
| `Transfer.DigestInjective` | vsector/sharding/transfer.py:53-65 | equal digests mean equal records and equal tombstones |
| `Transfer.ComputeDigestCorrect` | vsector/sharding/transfer.py:53-65 | the digest depends on the content alone, not on the order of the lists |
| `Transfer.SeparateIff` | vsector/sharding/transfer.py:113-115 | nodes are kept apart exactly when no two were given one directory and none was given the default one of another |
| `Transfer.LogicalIsSane` | vsector/sharding/transfer.py:127-146 | the recovered content of any well-formed root has records under their ids, disjoint from its tombstones |
| `Transfer.ShardTransferProvider.ExportShard` | vsector/sharding/transfer.py:127-146 | the export carries exactly the recovered content of the source root, with its digest, and changes nothing |
| `Transfer.ShardTransferProvider.ImportShard` | vsector/sharding/transfer.py:148-178 | whatever the target held, it becomes an exact image of the export; no other root changes |
| `Transfer.ShardTransferProvider.VerifyShard` | vsector/sharding/transfer.py:180-202 | succeeds if and only if both target digests are the expected one or none is expected, and returns the target's digest |
| `StaleGuard.EnterShape` | vsector/sharding/migration.py:252-285 | a step is let through only for a migration in the expected state whose shard still is as captured; otherwise at most that record changes |
| `StaleGuard.EnterStops` | vsector/sharding/migration.py:252-297 | a refused step leaves the world as it was or the migration FAILED |
| `StaleGuard.CallShape` | vsector/sharding/migration.py:345-496 | every call on a migration, cut short or not, changes that record alone or hands its shard to its target, and only a commit does the latter |
| `StaleGuard.CreateShape` | vsector/sharding/migration.py:299-341 | a creation adds one PENDING record that captures owner and version of a migratable shard with no other migration in progress, or changes nothing |
| `StaleGuard.RunKeepsSubject` | vsector/sharding/migration.py:76-104 | a migration never changes its shard, source, target or captured version |
| `StaleGuard.OnlyHandOversComplete` | vsector/sharding/migration.py:415-470 | a record comes to read COMPLETED only in the commit that hands its shard over |
| `ControlLaws.CreatedIff` | vsector/sharding/migration.py:299-341 | a creation adds a record exactly when the shard is there, in that namespace, ACTIVE or DRAINING, owner and target are two members of this cluster that are not REMOVED, no other migration of it is in progress and the put returns; the record it adds, and no change otherwise |
| `ControlLaws.EnterIff` | vsector/sharding/migration.py:252-285 | a step is let through exactly when its record is in the expected state and the shard there, ACTIVE or DRAINING, with the captured owner and version; else it answers why and a stale record reads FAILED |
| `ControlLaws.CommitFallsBack` | vsector/sharding/migration.py:433-456 | a commit that is let through and refused by the ownership checks or the put of the shard leaves shards and storage and reads FAILED |
| `ControlLaws.CutCommitLeaves` | vsector/sharding/migration.py:441-470 | what a process that dies inside a commit leaves of record, shard and storage, behind each of its durable writes |
| `ControlLaws.PreparedIff` | vsector/sharding/migration.py:345-357 | the answer and the world for every state, staleness and outcome of the put |
| `ControlLaws.CopiedIff` | vsector/sharding/migration.py:359-392 | the same of a copy: the source is exported, the target's root is what the copy left, no other root changes |
| `ControlLaws.CopyEndsIff` | vsector/sharding/migration.py:366-392 | a copy that began goes through exactly when export, import, read-back, check and put do, and any other reads FAILED |
| `ControlLaws.VerifiedIff` | vsector/sharding/migration.py:394-413 | a verification goes through exactly when the target is read, has the recorded digest if there is one, and the put returns; what it records |
| `ControlLaws.CancelledIff` | vsector/sharding/migration.py:472-487 | exactly the migrations up to VERIFYING can be cancelled, and from COPYING on the target's root goes |
| `ControlLaws.FailedIff` | vsector/sharding/migration.py:489-494 | exactly the migrations that have not ended can be failed, and storage stays |
| `ControlLaws.FailsIff` | vsector/sharding/migration.py:287-297 | a failure is recorded on any record and ends those that have not ended |
| `ControlLaws.DeclaredMoves` | vsector/sharding/migration.py:95-104 | the moves of shards, members and migrations are the declared ones and no other |
| `ControlLaws.ShardStepIsDeclared` | vsector/sharding/shard.py:63-74 | whatever the step, a shard stays on record and its state moves as declared, in a lifecycle call alone |
| `ControlLaws.NodeStepIsDeclared` | vsector/cluster/node.py:41-49 | whatever the step, a member stays on record and changes by a declared move of a membership call alone |
| `ControlLaws.AddedIff` | vsector/sharding/lifecycle.py:44-57 | a shard is added in CREATING under an owner that is a member and none of its replicas, or not at all; the errors in their order |
| `ControlLaws.MovedShardIff` | vsector/sharding/lifecycle.py:59-69 | exactly the declared moves of a known shard go through |
| `ControlLaws.ReownedIff` | vsector/sharding/lifecycle.py:85-118 | an owner changes by hand exactly while the shard is DRAINING, to a member that is none of the replicas; what a put that raises leaves |
| `ControlLaws.MembersIff` | vsector/cluster/membership.py:99-126 | a member registers once, in this cluster, and moves as declared, within it |
| `ControlLaws.WritesAreAtTheOwner` | vsector/sharding/router.py:143-177 | in every history a write reaches storage only at the owner of an ACTIVE shard, an upsert only at one that is a member and not REMOVED |
| `ControlLaws.AdmittedIff` | vsector/sharding/router.py:143-177 | and exactly such nodes are admitted |
| `MigrationSafety.DeadEnds` | vsector/sharding/migration.py:95-104 | terminal records never change and an interrupted commit can only be failed |
| `MigrationProgress.CopyDone` | vsector/sharding/migration.py:376-392 | a copy whose import landed as an exact image of the source always verifies, and records both digests |
| `DataSafety.CallEffect` | vsector/sharding/migration.py:345-496 | every call touches at most one storage root: the target's before the hand-over, the source's with it |
| `DataSafety.StepKeepsAnchored` | vsector/sharding/migration.py:252-279 | a shard's migration in progress has the shard's owner as its source, unless its commit was cut short |
| `DataSafety.StepKeepsFaithful` | vsector/sharding/migration.py:415-470 | one step keeps the owner on record of a shard in possession of its full content |
| `CarefulMigration.VerifiedIsContent` | vsector/sharding/transfer.py:180-202 | a target that passed verification against the source's digest holds the source's content |
| `CarefulMigration.OthersLeaveContent` | vsector/sharding/router.py:143-177 | for a shard with a migration in progress, nothing but an admitted write at that very node and the calls of that migration changes what a node stores, whatever the state of the shard |
| `CarefulMigration.StepKeepsCourse` | vsector/sharding/migration.py:359-413 | one step of a careful migration in progress: the target goes on holding what was exported, and the call that leaves PREPARING exports what the source holds then |
| `CarefulMigration.StaysOnCourse` | vsector/sharding/migration.py:299-413 | from its creation to the moment it is let through to take ownership, source, target and shard record of a careful migration are as captured, there is one copy step, and the target holds what that step exported |
| `CarefulMigration.VerifiedHoldsExport` | vsector/sharding/migration.py:366-441 | whenever a careful migration is let through to take ownership, its target holds what the source held at the copy step, whatever was written since, to a shard in any state |
| `CarefulMigration.SourceRests` | vsector/sharding/migration.py:359-441 | a source without an admitted write keeps its content over any steps, other migrations, crashes and control calls included, up to the commit |
| `CarefulMigration.VerifiedHoldsContent` | vsector/sharding/migration.py:366-441 | with a digest on record and no write admitted behind the copy, the target at the commit holds what the source then holds, ACTIVE shards included |
| `CarefulMigration.WholeCallsAreCareful` | vsector/sharding/migration.py:359-494 | a migration in whose calls no process died is careful |
| `CarefulMigration.CarefulIsRechecked` | vsector/sharding/migration.py:415-441 | in a history that is careful with a shard, every commit on it would pass the recheck |
| `DrainingMigration.DrainingIsQuiet` | vsector/sharding/router.py:143-177 | a shard that was DRAINING at the creation takes no write as long as that migration would be let through |
| `DrainingMigration.DrainingRunIsCareful` | vsector/sharding/migration.py:299-494 | a history that migrates a shard only out of DRAINING and calls its migrations with care admits no write behind a copy, whatever is written when |
| `MigrationLimits.CommitHandsOverWhatItFinds` | vsector/sharding/migration.py:415-470 | a commit that is let through makes the target the owner of whatever its root holds |
| `MigrationLimits.WriteBehindTheCopyIsLost` | vsector/sharding/migration.py:58-58 | an acknowledged write to an ACTIVE shard behind its copy is gone after the commit |
| `MigrationLimits.TornCopyIsCommitted` | vsector/sharding/migration.py:366-413 | a process that dies inside start_copy leaves a migration that verifies and commits a torn import |
| `MigrationLimits.CutCancelIsCommitted` | vsector/sharding/migration.py:472-487 | a process that dies inside cancel, before CANCELLED is stored, leaves a migration that commits an empty target |
| `MigrationRuns.ReadyIsReached` | vsector/sharding/migration.py:299-413 | from an empty cluster a run of enabled steps reaches a prepared, and then a verified, migration of an ACTIVE shard that holds a record |
| `Persistence.ShardRoundTrip` | vsector/sharding/etcd.py:76-97 | a shard's document decodes to the shard, its state included |
| `Persistence.NodeRoundTrip` | vsector/sharding/etcd.py:62-73 | a node's document decodes to the node |
| `Persistence.MigrationRoundTrip` | vsector/sharding/etcd.py:37-59 | a migration's document decodes to the migration, digests and error included |
| `Persistence.UnknownStates` | vsector/sharding/etcd.py:37-83 | exactly a missing or unknown state is taken for ACTIVE, of a migration for PENDING |
| `Persistence.MissingFields` | vsector/sharding/etcd.py:37-97 | what documents decode to that leave fields out, and which of the two names of the owner counts |
| `Persistence.DocumentKeys` | vsector/sharding/etcd.py:125-136 | members and migrations are filed under their prefixes, shards under their ids |
| `Persistence.RestartReads` | vsector/sharding/etcd.py:112-136 | for any contents and any order of the file, what a restart reads under each key |
| `Persistence.DocumentTellsShards` | vsector/sharding/etcd.py:125-136 | two stores with the same document agree on every shard outside the reserved keys |
| `ControlObjects.InMemoryEtcd.constructor` | vsector/sharding/etcd.py:103-123 | a new process holds, as objects of its own, exactly what the items of the file gave before the first that raises |
| `ControlObjects.InMemoryEtcd.Load` | vsector/sharding/etcd.py:112-123 | the same of the loading loop |
| `ControlObjects.InMemoryEtcd.Persist` | vsector/sharding/etcd.py:125-136 | one write of everything held; the file is its document, or as before when the write fails |
| `DurablePlane.StepEndsInPut` | vsector/sharding/migration.py:345-496 | every call of the control plane, cut short by a death or not, whose puts return: the last thing it puts is everything it leaves, and if it puts nothing it changes nothing that is kept |
| `DurablePlane.CallKeepsFile` | vsector/sharding/etcd.py:125-136 | of the store object after any such call: the file is the document of what it holds if the last write of the call succeeded, or if the call put nothing and it was before |
| `DurablePlane.WrittenFileIsCurrent` | vsector/sharding/etcd.py:112-136 | as long as every write succeeded the file is the document of the control plane, a restart changes nothing, and a death leaves what the state machine says |
| `MigrationManager.ShardMigrationManager.Require` | vsector/sharding/migration.py:232-285 | returns the stored record in the expected state, or the refusal the state machine gives |
| `MigrationManager.ShardMigrationManager.AssertSourceValid` | vsector/sharding/migration.py:252-279 | returns the live shard of a current migration; a stale one is failed and put first, and nothing else changes |
| `MigrationManager.ShardMigrationManager.Move` | vsector/sharding/migration.py:376-379 | after export and import the target is an exact image of the source's content, whose digest is returned |
| `MigrationManager.ShardMigrationManager.CheckCopy` | vsector/sharding/migration.py:380-392 | the read-back records the target's digest only when it verifies, and fails the migration otherwise; either is put |
| `MigrationManager.ShardMigrationManager.TakeOwnership` | vsector/sharding/migration.py:441-456 | the shard is handed over as a whole and put when all checks and the put pass, and is exactly as before otherwise |
| `MigrationManager.ShardMigrationManager.Finish` | vsector/sharding/migration.py:458-470 | COMPLETED whatever the cleanup does, and put behind it; finalized exactly when the source was removed |
| `MigrationManager.ShardMigrationManager.DiscardImport` | vsector/sharding/migration.py:479-484 | the target's root goes exactly when something may have been copied and the shard exists |
| `LifecycleManagers.ClusterMembershipManager.BootstrapLocalNode` | vsector/cluster/membership.py:141-162 | whichever of the two puts raises: a new node ends ACTIVE, JOINING or unregistered, a JOINING one is activated or as before, any other and every other node is left exactly as it was; the one or two puts are given |
| `Rebalance.PickHeaviest` | vsector/sharding/migration.py:519-526 | the most loaded member, of several the one with the least id |
| `Rebalance.PickLightest` | vsector/sharding/migration.py:529-532 | the least loaded other member, of several the one with the least id |
| `Rebalance.PickShard` | vsector/sharding/migration.py:535-535 | the owner's movable shard with the least id |
| `Rebalance.RecommendRebalance` | vsector/sharding/migration.py:498-547 | sound recommendations, at most one for each namespace in order, and every namespace without one is level |
| `Rebalance.GapOneIsLevel` | vsector/sharding/migration.py:525-534 | a recommendation across a gap of one finds the members level already |
| `Ordering.LessByFirstDifference` | vsector/sharding/hash_ring.py:46-50 | names are ordered as Python orders strings: a proper prefix first, else by the first difference |
| `Replication.InProcessReplicaTransport.RecordNode` | vsector/sharding/replication.py:294-313 | the health records go on saying, for every replica, exactly what its deliveries came to |
| `Replication.InProcessReplicaTransport.Deliver` | vsector/sharding/replication.py:357-388 | one delivery to each replica in order is made and recorded; success counts the primary as one acknowledgement, degraded means some replica failed |
| `Replication.InProcessReplicaTransport.ReplicationHealth` | vsector/sharding/replication.py:315-354 | reads, and changes nothing: each replica healthy iff its latest delivery succeeded or it has none, available iff not faulted, counters equal to the deliveries made |
| `Replication.ViewCounts` | vsector/sharding/replication.py:315-354 | a view counts exactly the replicas whose latest delivery did not fail, and exactly those that are not faulted |
| `Replication.LatestIs` | vsector/sharding/replication.py:294-313 | the latest delivery to a replica is the one behind which there is no other to it |
| `Replication.CountIs` | vsector/sharding/replication.py:294-313 | the counters of a replica are how many deliveries to it went through, and how many did not |
| `Replication.RepeatedReplicaHidesFailure` | vsector/sharding/replication.py:357-379 | a replica listed twice whose first delivery alone fails leaves the view undegraded |
| `Replication.AggregateReplication` | vsector/sharding/replication.py:391-402 | a request succeeds iff it has results and all succeeded, is degraded iff some was or failed, and names each failed replica once, sorted |
| `Replica.DeliveredIsPerformed` | vsector/sharding/replication.py:168-214 | the payloads a primary delivers carry the operation it performed |
| `Replica.CarriesIff` | vsector/sharding/replication.py:168-214 | for any JSON, which delivered payloads carry which record, enveloped or bare, and which id |
| `Replica.ServedAfter` | vsector/sharding/replication.py:168-214 | what a replica serves after a delivery, for every id; a stale upsert leaves its id deleted |
| `Replica.StepAgreesIff` | vsector/sharding/replication.py:168-214 | one step keeps primary and replica in agreement if and only if it is not a stale delivery |
| `Replica.ReplicaEndpoint.ApplyUpsert` | vsector/sharding/replication.py:168-197 | an unreadable payload changes nothing, nor does a record whose version and checksum are both those the store has under its id; any other is written and made durable |
| `Replica.ReplicaEndpoint.ApplyDelete` | vsector/sharding/replication.py:200-214 | the tombstone is applied and made durable |
| `HashRing.ChoiceDependsOnSet` | vsector/sharding/hash_ring.py:33-44 | with distinct scores the choice depends on the set of nodes alone |
| `HashRing.RankedRanks` | vsector/sharding/hash_ring.py:46-50 | for any node list the ranking is a permutation of it in descending order of score, names breaking ties, and lists no node twice if the list does not |
| `HashRing.RendezvousHash.GetNode` | vsector/sharding/hash_ring.py:33-44 | the first of the nodes whose `hash(key + "#" + node)` is greatest; an error exactly for no nodes |
| `HashRing.RendezvousHash.GetNodes` | vsector/sharding/hash_ring.py:46-50 | as many nodes as the slice takes for `n` of either sign, each as often as listed at most, descending by `hash(key + "#" + node)` with the greater name first among equals, and every node left out ranks below every one returned |
| `HashRing.JoinTakesOnlyForItself` | vsector/sharding/hash_ring.py:64-69 | a joining node takes ring positions for itself alone, colliding points included |
| `HashRing.LeaveMovesOnlyItsOwn` | vsector/sharding/hash_ring.py:71-76 | a leaving node gives up its own positions; every other keeps its owner |
| `HashRing.Bisect` | vsector/sharding/hash_ring.py:82-85 | how many sorted keys are not above a position |
| `HashRing.ConsistentHashRing.AddNode` | vsector/sharding/hash_ring.py:64-69 | every point of the node is its own, the other points as before, the key list sorted |
| `HashRing.ConsistentHashRing.RemoveNode` | vsector/sharding/hash_ring.py:71-76 | the ring without every point of the node, the key list sorted |
| `HashRing.ConsistentHashRing.GetNode` | vsector/sharding/hash_ring.py:78-85 | the owner of the least point above the hash of the key, or of the least of all if there is none above; an error exactly for an empty ring |
| `Router.ShardRouter.GetShardsCached` | vsector/sharding/router.py:81-92 | the cached list while it lives, else all shards of the namespace, and that is cached |
| `Router.ShardRouter.Select` | vsector/sharding/router.py:100-123 | the shard whose id is the first of greatest `hash(key + "#" + id)` over a cached HRW whose nodes are the ids of the cached list; an error exactly for no shard with an id |
| `Router.SelectionsAgree` | vsector/sharding/router.py:100-123 | two routers that cached the same shards, in any order and with any HRW caches, select the same shard when one has the greatest score alone |
| `Router.ShardRouter.RouteWrite` | vsector/sharding/router.py:143-158 | the selected shard, which is ACTIVE and owned by the caller and, where a membership is wired in, by a member that is not REMOVED; else the gate's refusal of the selected shard |
| `Router.RefusalReasons` | vsector/sharding/router.py:143-158 | every reason a write is refused for, in its order, in terms of state, owner, membership and caller |
| `Router.ShardRouter.RouteWriteDecision` | vsector/sharding/router.py:181-259 | the decision for the selected shard |
| `Router.DecisionReasons` | vsector/sharding/router.py:181-259 | for every mode the reason of a decision and its kind, in terms of state, owner and membership: a read is not served exactly in the four states that are neither ACTIVE nor DRAINING |
| `Router.ShardRouter.Writable` | vsector/sharding/router.py:164-177 | all shards if the node may write every one of them, else the refusal of some one |
| `Router.ShardRouter.RouteForQuery` | vsector/sharding/router.py:160-162 | each shard of the cached list that is ACTIVE or DRAINING, once, and no other |
| `TopK.PruningIsExact` | vsector/query/engine.py:139-147 | replacing some rows by their own top k changes nothing about the top k of all |
| `TopK.SortByScore` | vsector/query/engine.py:146-146 | a descending permutation of the hits |
| `TopK.PrefixIsTopK` | vsector/query/engine.py:146-162 | the first k of a sorted list are the top k of its rows |
| `Query.EligibleFrom` | vsector/index/flat.py:44-63 | every result is a row of the index that passes the filter, with that row's score, which is above -1e8 |
| `Query.SlotsIff` | vsector/index/flat.py:47-62 | over lists of any lengths, when a filtered search raises, how many positions are ranked, which row and which score each has |
| `Query.TruncateAfloat` | vsector/index/flat.py:53-62 | truncating and then dropping the sunk rows is dropping and then truncating |
| `Query.FlatIndex.Add` | vsector/index/flat.py:19-30 | for lists of any lengths what each field becomes, the lookup table included: vectors that are no table of the right width change nothing, metadata that runs out raises behind the id it is missing for; lists in step stay so exactly when ids and vectors are as many and metadata covers them, and then the rows are appended |
| `Query.FlatIndex.Delete` | vsector/index/flat.py:32-40 | for lists of any lengths what each field becomes, and where a list that is too short raises in the middle; over lists in step every row of every given id goes, the others stay in order, and each id maps to its last position |
| `Query.KeptHasNone` | vsector/index/flat.py:32-40 | after a deletion exactly the rows of other ids remain |
| `Query.SearchShard` | vsector/query/engine.py:102-111 | a shard's own top k; nothing for a shard without a context |
| `Query.Merge` | vsector/query/engine.py:146-162 | sorting, over-fetching and truncating gives the top k of the candidates |
| `Wal.Log.Append` | vsector/storage/wal.py:75-79 | the entry joins the buffer, at the end, and no file changes |
| `Wal.Log.RotateIfNeeded` | vsector/storage/wal.py:70-73 | the next segment is opened exactly when the entry would take the open one over the limit, with what it already holds, and no byte changes |
| `Segments.MemTable.Put` | vsector/storage/segment.py:22-24 | the table with the record under its id, every other id unchanged |
| `Segments.MemTable.Get` | vsector/storage/segment.py:26-28 | the record held under the id, if any |
| `Segments.MemTable.Delete` | vsector/storage/segment.py:30-32 | the table without the id |
| `Segments.MemTable.SnapshotAndClear` | vsector/storage/segment.py:45-49 | every record once, in some order, and an empty table behind |
| `ControlObjects.Shard.Transition` | vsector/sharding/shard.py:63-74 | a declared transition bumps the version; any other leaves the shard untouched |
| `ControlObjects.Shard.ValidateOwnership` | vsector/sharding/shard.py:82-93 | an owner is required and must not be among the replicas |
| `ControlObjects.ShardMigration.Transition` | vsector/sharding/migration.py:106-116 | a declared transition bumps the version; any other leaves the record untouched |
| `ControlObjects.InMemoryEtcd.Put` | vsector/sharding/etcd.py:138-141 | the shard is held under its id and everything held was put, or nothing changed when the put raised |
| `ControlObjects.InMemoryEtcd.PutNode` | vsector/sharding/etcd.py:162-165 | the node is held under its id and everything held was put, or nothing changed when the put raised |
| `ControlObjects.InMemoryEtcd.PutMigration` | vsector/sharding/etcd.py:182-185 | the migration is held under its id and everything held was put, or nothing changed when the put raised |
| `ControlObjects.InMemoryEtcd.Delete` | vsector/sharding/etcd.py:151-154 | the shard is gone and everything held was put |
| `MigrationManager.ShardMigrationManager.Fail` | vsector/sharding/migration.py:287-297 | the record is FAILED where that is allowed and carries the error, even when the put raises; exactly a put that returned wrote the file |
| `MigrationManager.ShardMigrationManager.Advance` | vsector/sharding/migration.py:345-357 | the record moved on and was put, or exactly as before when the put raised |
| `MigrationManager.ShardMigrationManager.ValidateReplicas` | vsector/cluster/membership.py:81-84 | accepts exactly lists of known members that are not removed |
| `LifecycleManagers.ClusterMembershipManager.Register` | vsector/cluster/membership.py:99-112 | a new JOINING member of this cluster; a known node or another cluster is refused; put exactly when it succeeds |
| `LifecycleManagers.ClusterMembershipManager.Transition` | vsector/cluster/membership.py:114-126 | a declared membership move with its version, or nothing; put exactly when it succeeds |
| `Replication.InProcessReplicaTransport.HealNode` | vsector/sharding/replication.py:280-281 | healing clears the fault and leaves health to the next delivery |
| `Replication.InProcessReplicaTransport.FailNode` | vsector/sharding/replication.py:277-278 | a fault changes no health record |
| `Replica.ReplicaEndpoint.Contains` | vsector/sharding/replication.py:240-242 | an id is contained exactly when it would be served |
| `ShardOnDisk.ShardContext.Fetch` | vsector/ingest/service.py:286-295 | serves the store's record unless the id is tombstoned |
| `ShardOnDisk.ShardContext.FlushWal` | vsector/ingest/service.py:193-195 | everything logged is written out frame by frame, nothing else changes |
| `ShardOnDisk.ShardContext.FlushSegments` | vsector/ingest/service.py:197-200 | a table flush step and nothing else |
| `Transfer.ShardTransferProvider.FinalizeSource` | vsector/sharding/transfer.py:204-207 | removes the source's root and no other |
| `Transfer.ShardTransferProvider.DiscardTarget` | vsector/sharding/transfer.py:209-213 | removes the target's root and no other, whoever owns the shard |
| `HashRing.RendezvousHash.AddNode` | vsector/sharding/hash_ring.py:25-27 | appends a new node, once |
| `HashRing.RendezvousHash.RemoveNode` | vsector/sharding/hash_ring.py:29-31 | drops the node, the others in place |
| `HashRing.DroppedIs` | vsector/sharding/hash_ring.py:29-31 | the first occurrence of the node goes, and everything else stays in its place |
| `Router.ListByNamespace` | vsector/sharding/etcd.py:147-149 | each shard of the namespace, once |
| `Router.ShardRouter.Invalidate` | vsector/sharding/router.py:94-98 | both caches forget the namespace and nothing else |
| `Protocol.Without` | vsector/sharding/migration.py:442-442 | the replicas kept at a hand-over are exactly the others |
| `Protocol.WithoutKeepsOrder` | vsector/sharding/migration.py:442-442 | the replicas kept at a hand-over keep their order and their number |

## Left out

- REST, gRPC, WebSocket, Kafka, SDKs, CLI, authentication, metrics, logging, configuration and deployment: input/output or thin wrappers.
- `Etcd3Store`, Postgres, S3 tiering and multi-region code: foreign services or simulated acknowledgements.
- HNSW, IVF-PQ and ScaNN indexes: the search is inside foreign libraries or approximate.
- The query cache, cross-encoder and MMR re-ranking, query timeouts, the include flags of a query, and the language of metadata filters, which is a predicate here.
- Floating-point rounding of scores: scores are real numbers.
- Shard split and filter deletes: the first moves no data, the second scans stale copies.
- The WAL's background thread, fsync failure, direct I/O and retention: taking a batch and writing it is one step.
- WAL segment names: segments are in the order of their numbers, which the six-digit names keep up to a million segments; SSTable names are distinct, although they have millisecond resolution.
- Cold SSTables: tables are hot only.
- JSON text, UUIDs and record validation: an encode/decode pair that round-trips. A stored metadata document whose fields have other JSON types than the ones written ends the load here, where the source may carry the value along.
- The contents of a live index after re-upserts: the store, not the index, refines the plain map.
- Timestamps and texts of errors, `vector_count`, `max_vectors` and `created_at`.
- In `MigrationManager` and `LifecycleManagers` node records are values in the store, not shared objects.
- In `DurablePlane` no put raises, because the store with a file swallows its failed writes; what a put that raises leaves in memory is in the contracts of the managers.
- `DurablePlane` has no `create` of a shard the store already holds: `Protocol` creates fresh ids, and `LifecycleManagers.ShardLifecycleManager.Create` says what that call does to store and file.
- A process that dies inside `write_text` of the metadata file (vsector/sharding/etcd.py:134): the file is then no JSON, and the next load drops everything. A write succeeds as a whole or leaves the file as it was here.
- A loss of power behind a rotation: `_flush_batch` syncs the open segment alone (vsector/storage/wal.py:91-107), so frames it wrote before it rotated may not be on the disk. A process that dies loses no bytes it wrote here.
- In `Replication` what each endpoint raises is an input; `Replica` models what an endpoint does.
- In `Router` the cached rendezvous hash is held as its node list, and whether a cached list is still alive is an input.
- In `HashRing` the point of a virtual node is a function of the node and its number.
- In `Query` partial sorting by numpy is a sort and a prefix.
- Deleting a shard record and creating another under the same id: ids of new shards are fresh in `Protocol`, so the stale guard is not claimed across it.
- `change_owner` moves ownership without data, so a call that gives the shard in question another owner is outside `DataFollowsOwnership` and `CarefulRunsKeepData`; it is inside the stale-guard theorems, `QuietCopyLosesNothing` and `NoAcknowledgedWriteIsLost`.
- An SSTable cut inside a line: every later start over it raises while reading the table, until it is removed by hand. A table cut between lines is modelled.
- Queries over a `FlatIndex` whose lists are out of step: `RunQuery` takes indexes in step, as all of the source's own additions leave them.
- StepKeepsFaithful: takes the digests to agree at a commit, because the code does not check them again there; HandoverKeepsDataIff says this is exactly what is needed.
- CarefulRunsKeepData: leaves out processes that die inside a cancel, commits without a recorded digest, and writes admitted behind a copy, on the shard in question, because the code loses data on each (CutCancelIsCommitted, TornCopyIsCommitted, WriteBehindTheCopyIsLost).
- QuietCopyLosesNothing: leaves out the same three, on the migration in question; CarefulCommitKeepsDataIff lets writes fall anywhere.
- NoAcknowledgedWriteIsLost: leaves out the first two, on the migration in question; the third does not happen.
- DataFollowsTheFile: is about histories whose writes succeed, because the code loses data where the write of an owner fails (UnwrittenCommitLoses).
- AcknowledgedWritesSurvive: is about orderly histories, because the code loses acknowledged writes in others (TornTailLosesAcknowledgedWrite, RestartOverSegmentsUndoesDelete).
- AcknowledgedRecordSurvives: asks the same for one id, because an operation in front of a later one on the same id is undone (RestartOverSegmentsUndoesDelete), and one behind a torn frame can be swallowed (TornTailLosesAcknowledgedWrite).
