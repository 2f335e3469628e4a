# A verified model of a session-based knowledge-graph store

This project models three parts of the repository and proves what they promise.

**The durable session store.** Every mutation is checked, appended to a write-ahead log and then
applied; snapshots name the log generation and the position they cover; truncation renames an
empty log of the next generation over the old one; start-up restores the newest snapshot and
replays the rest. `DurableProtocol` is that protocol as a state machine over a disk that may lose
whatever was not synced. Every write, sync, rename and directory sync is a step, any of them can
fail, and a crash can fall between any two. `DurableInvariant`, `DurableSteps`, `DurableSafety`
and `DurableRuns` prove what holds over all runs; `DurableFindings` gives the runs in which the
promise is broken; `LogBytes` is the log object and shows that scanning bytes is reading tokens,
wherever the bytes are cut.

**The store beneath it.** `StoreContents` says what each operation does to the rows, embeddings
and counters. `StoreInvariant`, `StoreWrites` and `StoreRuns` prove referential integrity,
conservation of the usage counters, quotas, two-phase and bulk writes; `StoreRows` says what row a
write leaves, field by field, and `StoreOutcomes` exactly when an operation succeeds. `SessionStores.SessionStore`
is the object with its secondary indexes and vector indexes, proved against those operations;
`StoreTables`, `StoreBatches`, `StoreBulk` and `StoreSnapshots` hold its loops. `Sessions` ties
the store to the log: a prepared record always applies again, over whole runs, and what recovery
gives for a session is what that session's own records say.
`SessionFindings` has the inputs for which the store's own promises fail.

**The vector index.** `PriorityQueues`, `LayerSearch`, `HnswLinks`, `HnswInsert`, `HnswGrowth`,
`HnswRemove`, `HnswIntegrity` and `HnswIndex` are the layered graph and the brute-force index it
speeds up; `HnswGrowth` shows what stays reachable as the graph grows, and `HnswFindings` what does not. `IndexCodec` is its file
format and `IndexLayout` where its numbers lie.

**The graph algorithms.** `Modularity`, `LocalMoving`, `Leiden`, `Hierarchy`, `Splits`, `Subgraphs`
and `WeightedGraphs` are community detection; `Traversal` and `Components` are breadth-first search
and connected components over the neighbour relation of `RelationGraph`.

Random levels, shuffles, the order in which maps are walked, the outcome of every system call and
the clock are left open or passed in, so each statement holds for every choice.

## Where the code does not keep the promise

- Truncation that fails after its rename: the store goes on acknowledging into a file that has lost
  its name. If a caller asked for the snapshot it stays healthy; if it was an automatic one the
  mark comes only after the lock is released, and a write can slip in before it.
  `DurableSafety.CrashLosesExactly` says when a crash loses acknowledged records;
  `DurableRuns.NothingAckedIsLost` and `NamelessWriteIsLost` that writing to such a file is the one
  cause; `DurableRuns.OnlyBeforeTheMark` that with automatic snapshots alone it happens only between
  the failure and its mark. `DurableFindings.AcknowledgedThenLost` is a run of either kind.
- A crash that cuts the log exactly before a newline: start-up succeeds, and the next record joins
  the unfinished line. `DurableRuns.JoinedLineRefuses` shows that recovery then refuses;
  `DurableFindings.AcknowledgedThenRefused` and `SnapshotThenRefused` are such runs, the second by
  a snapshot whose position is not the start of a line.
- A record of 64 MiB or more is written and acknowledged but cannot be read back:
  `LogBytes.ScanIsReadLines` and `ScansExactly` give the exact condition on the bytes,
  `DurableFindings.TooLongThenRefused` is such a run.
- `DurableSafety.CarefulRefusesExactly` says what is left if starts check for a line end and records
  are checked before they are logged: a torn last record, or one too long.
- Community replacement is logged before it is checked. `SessionFindings.ReplacementRefusedExactly`
  says when the check then fails, `RefusedReplacementPoisons` that no start succeeds afterwards, and
  `LoggedThenRefused` is such a run from an empty store, at the memory quota.
- Rebuilding an index fails and rolls back exactly when `HnswIndex.CanRebuild` does not hold:
  `HnswIndex.HNSWIndex.Rebuild`. With links disabled and two or more nodes it always does.
- A vector that is added may not be found: when all the neighbours it chose are full, none of them
  keeps the link back, because their lists are cut down before it is in the graph.
  `HnswFindings.FoundExactly` is the exact condition, `FourthIsLost` an index of four vectors;
  `HnswGrowth.InsertedStaysReachable` and `FewAreRoomy` say when it cannot happen.
- A community that cannot be divided is left whole though it is not connected exactly when it has no
  weight inside (two nodes or more and a total of zero): `Leiden.Unsplittable`, proved of every
  unsplit community in `Leiden.DisconnectedIsDivided`.
- Updating a description does not adjust the memory estimate and may lose an index entry:
  `SessionStores.SessionStore.UpdateEntityDescription` says exactly when the store stays right, and
  `SessionFindings.UpdatedPastQuota` is a store that passes its quota unnoticed.
- A logged row with links of its own is taken in as it is: `StoreWrites.ApplyKeeps` and
  `ApplyAllKeeps` show that the links then have no counterpart.

## Model

| member | source | states |
|---|---|---|
| `DurableSafety.CrashSafety` | pkg/engine/durable.go:387-531 | After a crash at any point of any run, recovery refuses or gives the in-order application of a prefix of the records written; the prefix has every flushed record, or, where the file written to had lost its name, every record the newest surviving snapshot covers |
| `DurableSafety.CrashLosesExactly` | pkg/engine/durable.go:297-353 | Under `every_write` a crash loses an acknowledged record if and only if it finds the process writing to a renamed-over file and the newest surviving snapshot does not cover the record |
| `DurableSafety.AtMostOneUnacknowledged` | pkg/engine/durable.go:734-760 | In one process the records written are the acknowledged operations in order and at most one more, none more while the store is healthy and idle, when its state is the application of them all |
| `DurableSafety.RefusesExactly` | pkg/engine/durable.go:387-446 | Recovery refuses if and only if the file is torn, the position is not a line start, the lines from there do not parse, a record there is too long, or a record does not apply; generations and offsets never make it refuse |
| `DurableSafety.CarefulRefusesExactly` | pkg/engine/durable.go:122-180 | If every start found the log at a line end and every logged record applied where it was logged, recovery refuses if and only if the last record is torn or one after the newest snapshot is too long |
| `DurableSafety.CarefulRefusesOnlyTorn` | pkg/engine/durable.go:413-424 | If besides every record is short enough to be read back, recovery refuses if and only if the last record is torn |
| `DurableSafety.ReadsWhenLegible` | pkg/engine/durable.go:413-427 | The scanner reads a file exactly when it is whole lines, the last perhaps without its newline, each short enough, and not torn |
| `DurableRuns.NothingAckedIsLost` | pkg/engine/durable.go:235-255 | Under `every_write`, if no record is written to a file that has lost its name, whatever was acknowledged by any moment is at the head of the history at every later one, across crashes and restarts |
| `DurableRuns.NamelessWriteIsLost` | pkg/engine/durable.go:325-348 | Any record written to a file that has lost its name, and applied, is acknowledged, and a crash right then loses it while recovery succeeds |
| `DurableRuns.OnlyBeforeTheMark` | pkg/engine/durable.go:545-580 | If only automatic snapshots truncate, such a write happens only between a failed truncation and the mark its caller still owes |
| `DurableRuns.RefusedRecordPoisons` | pkg/engine/durable.go:945-960 | A record logged unchecked that does not apply: once flushed, no start succeeds, whatever crash and whatever else follows |
| `DurableRuns.PoisonIsForever` | pkg/engine/durable.go:945-960 | Once a flushed record does not apply, no later start succeeds |
| `DurableRuns.JoinedLineRefuses` | pkg/engine/durable.go:235-255 | A record written after a start on an unfinished line makes every later recovery that still has it refuse, acknowledged or not |
| `DurableSteps.OffsetResolves` | pkg/engine/durable.go:494-531 | Whenever the process is down, the newest snapshot's generation is the log's or one behind and its offset lies in the flushed part, so replay has a place to start |
| `DurableSteps.RecoveryIsHistory` | pkg/engine/durable.go:433-492 | What recovery gives, if anything, is the in-order application of the whole surviving history |
| `DurableSteps.RunKeeps` | pkg/engine/durable.go:582-636 | The invariant of disk, process and history holds along every run |
| `DurableSteps.CrashKeeps` | pkg/engine/durable.go:297-353 | A crash at any step keeps the invariant, whichever cut of the file and side of an unsynced rename survives |
| `DurableSteps.ReopenKeeps` | pkg/engine/durable.go:336-352 | Closing the old log and opening the new one keeps every snapshot in place, as does failing to |
| `DurableProtocol.RecoverSessions` | pkg/engine/durable.go:433-492 | The start-up loop computes the recovery the theorems speak of |
| `DurableFindings.AcknowledgedThenLost` | pkg/engine/durable.go:325-348 | A run, with requested or with automatic snapshots only, whose truncation fails after its rename and in which the second acknowledged record is lost while recovery succeeds |
| `DurableFindings.AcknowledgedThenRefused` | pkg/engine/durable.go:413-421 | A run in which an acknowledged record shares a line with an unfinished one and recovery refuses |
| `DurableFindings.SnapshotThenRefused` | pkg/engine/durable.go:402-410 | A run in which a snapshot records a position that is not a line start and recovery refuses |
| `DurableFindings.TooLongThenRefused` | pkg/engine/durable.go:413-424 | A run in which an acknowledged record is too long to be read back and recovery refuses though nothing is torn |
| `DurableLog.ReplayConcat` | pkg/engine/durable.go:439-444 | Replaying in two stretches is replaying the whole |
| `DurableLog.ReadLinesSound` | pkg/engine/durable.go:413-427 | What the scanner reads is all the records of the file, in order |
| `LogBytes.SessionWAL.Append` | pkg/engine/durable.go:235-255 | Appends the record's line as far as it was written; succeeds if it was written whole and, under `every_write`, synced; on the protocol's file this is its step of writing, or of failing to |
| `LogBytes.SessionWAL.Sync` | pkg/engine/durable.go:257-265 | If the sync succeeds every record of the protocol's file is flushed, and what is reported flushed is on disk |
| `LogBytes.SessionWAL.Truncate` | pkg/engine/durable.go:297-353 | Becomes the protocol's empty file of the next generation, or stays the file it was |
| `LogBytes.SessionWAL.Position` | pkg/engine/durable.go:369-381 | Where the protocol's file ends, unless it is torn; reading from there later refuses unless that is the end of a line, and otherwise reads what was added since |
| `LogBytes.SessionWAL.ReadFrom` | pkg/engine/durable.go:387-431 | Refuses an offset past the end or not after a newline, otherwise scans line by line; from the byte where a token of the protocol's file begins it is the protocol's reading |
| `LogBytes.ScanIsReadLines` | pkg/engine/durable.go:413-427 | Scanning the bytes of any records and newlines, perhaps with part of a record after them, is reading them one by one, refusing those too long |
| `LogBytes.ScansExactly` | pkg/engine/durable.go:413-427 | Bytes can be read back if and only if they are whole lines, the last perhaps without its newline, with no part of a record after them and no record too long |
| `LogBytes.CrashIsCut` | pkg/engine/durable.go:235-255 | Whatever beginning of the bytes a crash leaves, if it has those that were on disk, holds a cut that the protocol allows, and reads as it |
| `LogBytes.AppendIsStep` | pkg/engine/durable.go:235-255 | However many bytes of a line are written, the file is as after one of the protocol's steps |
| `LogBytes.ReadBytesIsReadFrom` | pkg/engine/durable.go:387-431 | Reading from the byte where a token begins is the protocol's reading from that token |
| `LogBytes.BoundaryBytes` | pkg/engine/durable.go:402-410 | The byte before an offset is a newline exactly when the offset follows a whole line |
| `Sessions.PreparedApplies` | pkg/engine/durable.go:762-943 | Each logged operation is prepared exactly when the direct one would succeed, and its record then applies to the same contents as the direct one |
| `Sessions.ReplayIsPerSession` | pkg/engine/durable.go:673-711 | Replaying a history succeeds if and only if the records of each session apply in order to an empty one; then exactly the sessions named are there, and each holds the in-order fold of the operations of its own records |
| `Sessions.ReplayedIsWellFormed` | pkg/engine/durable.go:673-711 | Every session that any replay gives is well-formed |
| `Sessions.PreparedStepIsCareful` | pkg/engine/durable.go:734-760 | At any point of a run of the engine, logging a prepared operation meets the condition under which recovery refuses only torn or too long records |
| `Sessions.PreparedRunsAreSafe` | pkg/engine/durable.go:433-446 | Over any run of the engine, with crashes and restarts, in which what is logged was prepared there and starts find a line end: recovery refuses if and only if a record is torn or too long; what it gives, and what an idle healthy engine has in memory, is well-formed and holds for each session exactly what was logged for it |
| `SessionFindings.ReplacementRefusedExactly` | pkg/store/canonical_apply.go:786-845 | A community replacement is refused if and only if ids, members or embeddings are not in order or its growth passes the memory quota |
| `SessionFindings.RefusedReplacementPoisons` | pkg/engine/durable.go:945-960 | Logging a replacement the session would refuse means, once it is flushed, that no start of the engine ever succeeds again |
| `SessionFindings.LoggedThenRefused` | pkg/engine/durable.go:945-960 | A run from an empty store in which an acknowledged entity fills the memory quota, a replacement is logged and refused, and recovery refuses too |
| `SessionFindings.UpdatedPastQuota` | pkg/store/session_store.go:735-757 | A new store at its memory quota, one byte past it after an update, whose counter still says it is at the quota |
| `Sessions.EmptySessionsDoNotMatter` | pkg/engine/engine.go:270-298 | Sessions made by refused writes and never logged change neither what applies nor its effect |
| `StoreRuns.ReachableIsWellFormed` | pkg/store/session_store.go:378-1147 | After any sequence of operations on a new store, keys are unique, references live, links symmetric, embeddings sized and of live rows, counters ahead of every id, and no positive quota exceeded |
| `StoreRuns.StepKeepsWellFormed` | pkg/store/session_store.go:378-1147 | Every operation keeps the contents well-formed |
| `StoreRuns.StepKeepsQuotas` | pkg/types/session.go:100-215 | Every operation keeps the usage within the positive quotas |
| `StoreRuns.ReplaceKeepsQuotas` | pkg/store/canonical_apply.go:837-845 | Holding only the growth in memory against the quota keeps the whole within it |
| `StoreRuns.IdsAreNotReused` | pkg/types/types.go:26-44 | The id of a deleted document, text unit, entity or relationship never names another row, whatever is done later |
| `StoreRuns.ReachableIsNamed` | pkg/store/session_store.go:64-69 | No reachable store holds an entity with an empty external id |
| `StoreWrites.TwoPhaseIsDirect` | pkg/store/canonical_apply.go:92-660 | Preparing fails exactly when writing directly does, and applying what was prepared reaches the contents the direct write reaches |
| `StoreRows.AddStores` | pkg/store/session_store.go:378-906 | A successful write leaves, under the id it returns, a row with the fields of its input, the title normalised, a zero weight read as one, no links and the given time, with its embedding; every other row and embedding is as before |
| `StoreRows.PreparedStores` | pkg/store/canonical_apply.go:92-660 | The same for a row prepared in one store and applied in any later one |
| `StoreRows.BulkStores` | pkg/store/session_store.go:1326-1563 | A bulk write leaves a row for every input, in order under consecutive ids, and everything else as before |
| `StoreRows.CommunityStored` | pkg/store/session_store.go:1099-1147 | A community is stored as given, with its embedding, and nothing else changes |
| `StoreRows.ReplacementStored` | pkg/store/canonical_apply.go:847-886 | A replacement leaves exactly the given communities, each under its id with its embedding, and nothing else changes |
| `StoreRows.BaseEstimates` | pkg/store/session_store.go:176-222 | The estimates of rows whose fields are all empty |
| `StoreRows.TextEstimates` | pkg/store/session_store.go:164-213 | A byte more in a text of a document or relationship adds one, and nothing else counts |
| `StoreRows.EmbeddedEstimates` | pkg/store/session_store.go:164-202 | The same for text units and entities, with four for each entry of the embedding; links are free |
| `StoreRows.CommunityEstimates` | pkg/store/session_store.go:220-222 | The same for communities, with eight for each member |
| `StoreOutcomes.AddSucceeds` | pkg/store/session_store.go:378-906 | A write succeeds if and only if its input is named and refers to live rows, no row has its external id, title, or ends and kind, its embedding is of the right length and finite, and its own count and size fit the quotas that are set |
| `StoreOutcomes.DocumentGoes` | pkg/store/session_store.go:449-469 | A document is deleted if and only if no text unit is of it, and it alone goes |
| `StoreOutcomes.TextUnitGoes` | pkg/store/session_store.go:585-612 | A text unit is deleted if and only if no entity is linked to it, with its embedding and alone |
| `StoreOutcomes.EntityGoes` | pkg/store/session_store.go:761-793 | An entity is deleted if and only if it has no text unit, ends no relationship and is in no community, with its embedding and alone |
| `StoreOutcomes.RelationshipGoes` | pkg/store/session_store.go:991-1031 | A relationship is deleted if and only if no community lists it, and it alone goes |
| `StoreOutcomes.LinkStores` | pkg/store/session_store.go:620-639 | Linking succeeds for live rows; each lists the other afterwards, once, and nothing else changes |
| `StoreWrites.BulkIsIteration` | pkg/store/session_store.go:1326-1563 | A bulk write of one kind equals the single writes in order under consecutive ids, failing whole if one would fail; the quota check on the total admits each step and conversely |
| `StoreWrites.BatchIsIteration` | pkg/store/canonical_apply.go:165-728 | Rows apply one after the other exactly when each applies to the contents as they were and no two clash |
| `StoreWrites.ApplyKeeps` | pkg/store/canonical_apply.go:137-660 | Applying a logged row moves the usage by its estimate, and keeps the contents well-formed if and only if the row is linked to nothing |
| `StoreWrites.ApplyAllKeeps` | pkg/store/canonical_apply.go:165-728 | The same for a batch of rows of one kind |
| `StoreWrites.AddKeeps` | pkg/store/session_store.go:378-906 | A direct write keeps the contents well-formed and the usage within the quotas |
| `StoreInvariant.DeleteEntityKeeps` | pkg/store/session_store.go:761-793 | Deleting an entity that nothing names keeps every reference live |
| `StoreInvariant.DeleteEntityUsage` | pkg/store/session_store.go:761-793 | Deleting an entity releases one entity and exactly its estimate |
| `StoreInvariant.DeleteRelationshipKeeps` | pkg/store/session_store.go:991-1031 | Deleting a relationship no community lists keeps the contents well-formed |
| `StoreInvariant.DeleteDocumentKeeps` | pkg/store/session_store.go:449-469 | Deleting a document without text units keeps the contents well-formed |
| `StoreInvariant.DeleteTextUnitKeeps` | pkg/store/session_store.go:585-612 | Deleting an unlinked text unit keeps the contents well-formed |
| `StoreInvariant.LinkKeeps` | pkg/store/session_store.go:620-639 | Linking keeps both link lists symmetric and duplicate-free |
| `StoreViews.RelKeyInjective` | pkg/store/session_store.go:860-862 | Distinct source, target and type have distinct key strings, whatever characters the type has |
| `StoreViews.ViewIsConsistent` | pkg/engine/engine.go:1487-1523 | A store with right indexes gives the traversals consistent edge lists and a symmetric neighbour relation |
| `SessionStores.SessionStore.AddDocument` | pkg/store/session_store.go:378-403 | Does the operation on the contents under a fresh id, or fails and changes nothing; indexes and usage stay right |
| `SessionStores.SessionStore.AddTextUnit` | pkg/store/session_store.go:500-540 | The same, for a text unit of a live document with an optional embedding |
| `SessionStores.SessionStore.AddEntity` | pkg/store/session_store.go:665-707 | The same, for an entity with a free title and external id |
| `SessionStores.SessionStore.AddRelationship` | pkg/store/session_store.go:865-906 | The same, for a relationship between live entities with a free key |
| `SessionStores.SessionStore.AddCommunity` | pkg/store/session_store.go:1099-1147 | The same, for a community of live members |
| `SessionStores.SessionStore.PrepareDocument` | pkg/store/canonical_apply.go:92-106 | Computes the prepared document of the specification, or refuses with it, and changes nothing |
| `SessionStores.SessionStore.PrepareTextUnit` | pkg/store/canonical_apply.go:213-233 | The same, for a text unit |
| `SessionStores.SessionStore.PrepareEntity` | pkg/store/canonical_apply.go:374-395 | The same, for an entity |
| `SessionStores.SessionStore.PrepareRelationship` | pkg/store/canonical_apply.go:547-573 | The same, for a relationship |
| `SessionStores.SessionStore.ApplyDocument` | pkg/store/canonical_apply.go:137-163 | Puts the logged document in, or fails and changes nothing; indexes and usage stay right |
| `SessionStores.SessionStore.ApplyTextUnit` | pkg/store/canonical_apply.go:272-308 | The same, taking the row back if the vector index refuses its embedding; the store stays right if and only if the row has no links |
| `SessionStores.SessionStore.ApplyEntity` | pkg/store/canonical_apply.go:440-476 | The same, for an entity |
| `SessionStores.SessionStore.ApplyRelationship` | pkg/store/canonical_apply.go:622-660 | The same, for a relationship |
| `SessionStores.SessionStore.DeleteDocumentChecked` | pkg/store/session_store.go:449-469 | Deletes a document without text units, or fails and changes nothing |
| `SessionStores.SessionStore.DeleteTextUnitChecked` | pkg/store/session_store.go:585-612 | Deletes an unlinked text unit, its embedding and index entry, or fails and changes nothing |
| `SessionStores.SessionStore.DeleteEntityChecked` | pkg/store/session_store.go:761-793 | Deletes an entity with no links, relationships or communities, or fails and changes nothing |
| `SessionStores.SessionStore.DeleteRelationshipChecked` | pkg/store/session_store.go:991-1031 | Deletes a relationship no community lists, or fails and changes nothing |
| `SessionStores.SessionStore.DeleteCommunityChecked` | pkg/store/session_store.go:1214-1238 | Deletes a community, its embedding and index entry, or fails and changes nothing |
| `SessionStores.SessionStore.ValidateDeleteDocument` | pkg/store/canonical_apply.go:730-740 | Passes exactly when the deletion would succeed |
| `SessionStores.SessionStore.ValidateDeleteTextUnit` | pkg/store/canonical_apply.go:742-753 | Passes exactly when the deletion would succeed |
| `SessionStores.SessionStore.ValidateDeleteEntity` | pkg/store/canonical_apply.go:755-772 | Passes exactly when the deletion would succeed |
| `SessionStores.SessionStore.ValidateDeleteRelationship` | pkg/store/canonical_apply.go:774-784 | Passes exactly when the deletion would succeed |
| `SessionStores.SessionStore.CommunityReferencesEntity` | pkg/store/session_store.go:1176-1185 | True exactly when some community lists the entity |
| `SessionStores.SessionStore.CommunityReferencesRelationship` | pkg/store/session_store.go:1187-1196 | True exactly when some community lists the relationship |
| `SessionStores.SessionStore.LinkTextUnitToEntity` | pkg/store/session_store.go:620-639 | Adds each to the other's list once, or fails and changes nothing |
| `SessionStores.SessionStore.UpdateEntityDescription` | pkg/store/session_store.go:735-757 | What becomes of the row, the embedding and the index; the store stays right if and only if the description and embedding passed take as much as those they replace and no embedding is lost to a refused one |
| `SessionStores.SessionStore.ReplaceCommunities` | pkg/store/canonical_apply.go:786-886 | Replaces all communities, indexes, embeddings and usage at once, or fails and changes nothing |
| `SessionStores.SessionStore.ClearCommunities` | pkg/store/session_store.go:1246-1259 | Leaves no community and right usage |
| `SessionStores.SessionStore.RecalculateSessionUsage` | pkg/store/session_store.go:270-288 | Sets the counters to the table sizes and the sum of all estimates |
| `SessionStores.SessionStore.CheckAdmission` | pkg/store/session_store.go:231-253 | Passes exactly when each growing count and the memory stay within its positive quota |
| `SessionStores.SessionStore.RecordAdmission` | pkg/store/session_store.go:255-268 | Adds the growth to the counters |
| `SessionStores.SessionStore.Release` | pkg/types/session.go:147-205 | With right counters the decrements are exact and the clamps at zero never act |
| `SessionStores.SessionStore.PrepareEntitiesBatch` | pkg/store/canonical_apply.go:397-438 | Computes the prepared batch of the specification, or refuses with it |
| `SessionStores.SessionStore.MSetEntitiesAtomic` | pkg/store/session_store.go:1416-1472 | All entities under consecutive ids, or no change |
| `SessionStores.SessionStore.ApplyEntitiesBatch` | pkg/store/canonical_apply.go:478-545 | The logged entities one after the other, or no change, as when there is not one embedding for each; the store stays right if and only if no row has links |
| `SessionStores.SessionStore.PrepareRelationshipsBatch` | pkg/store/canonical_apply.go:575-620 | Computes the prepared batch of the specification, or refuses with it |
| `SessionStores.SessionStore.MSetRelationshipsAtomic` | pkg/store/session_store.go:1474-1531 | All relationships under consecutive ids, or no change |
| `SessionStores.SessionStore.ApplyRelationshipsBatch` | pkg/store/canonical_apply.go:662-728 | The logged relationships one after the other, or no change |
| `SessionStores.SessionStore.RebuildVectorIndices` | pkg/store/session_store.go:1282-1316 | The vector indexes hold exactly the embeddings again; the contents are unchanged |
| `SessionStores.SessionStore.Snapshot` | pkg/store/session_store.go:1625-1669 | The snapshot lists every row once and has all embeddings and counters |
| `SessionStores.SessionStore.RestoreFromSnapshot` | pkg/store/session_store.go:1672-1785 | Restoring a snapshot of well-formed contents with named entities gives those contents back, with right indexes and usage, in whatever order the lists are |
| `StoreSnapshots.SnapshotDetermines` | pkg/store/session_store.go:1625-1669 | A snapshot is of one contents only |
| `StoreBulk.RollbackEntities` | pkg/store/session_store.go:1549-1563 | Takes out exactly the given rows and embeddings and leaves the indexes right |
| `StoreBulk.InsertEntities` | pkg/store/canonical_apply.go:513-531 | All rows one after the other, or the table's rows and embeddings as before |
| `StoreBulk.CheckEntities` | pkg/store/session_store.go:1420-1446 | The loop with its seen-sets passes exactly when every input is valid and no two clash, and gives the total estimate |
| `StoreBulk.CheckRelationships` | pkg/store/session_store.go:1478-1506 | The same, for relationships |
| `StoreBatches.CheckReplacement` | pkg/store/canonical_apply.go:790-835 | Passes exactly when ids and external ids are separate and every member live, and gives the total estimate |
| `StoreTables.InsertTextUnit` | pkg/store/canonical_apply.go:291-304 | Row, indexes and embedding go in together; a refused embedding leaves rows and embeddings as before |
| `StoreTables.RemoveRelationship` | pkg/store/session_store.go:1001-1025 | Takes the row out of the table, both unique indexes and both edge lists |
| `StoreTables.ValidateOptionalEmbedding` | pkg/store/session_store.go:71-84 | Accepts no embedding, or one of the right length whose entries are finite |
| `Tables.GroupDrop` | pkg/store/session_store.go:429-446 | Splicing an id out of its group keeps the grouping exact, whether or not an emptied group is deleted |
| `Tables.RemoveID` | pkg/store/session_store.go:569-582 | Removes the first occurrence of the id |
| `PriorityQueues.PriorityQueue.Push` | pkg/vector/index.go:925-928 | Adds the item; keeps heap order, and also the weaker root-is-maximum |
| `PriorityQueues.PriorityQueue.Pop` | pkg/vector/index.go:930-942 | Takes the root, the maximum of a heap, and keeps heap order |
| `PriorityQueues.PriorityQueue.PopWorst` | pkg/vector/index.go:951-965 | Takes a least item and keeps the root the maximum |
| `PriorityQueues.PriorityQueue.BubbleUp` | pkg/vector/index.go:967-976 | Restores heap order, or root-is-maximum, after an item grew |
| `PriorityQueues.PriorityQueue.BubbleDown` | pkg/vector/index.go:978-999 | Restores heap order after an item shrank |
| `PriorityQueues.CutKeepsRootMax` | pkg/vector/index.go:951-965 | Splicing out a least item keeps the root the maximum, though it can break heap order |
| `PriorityQueues.CutBreaksHeapOrder` | pkg/vector/index.go:951-965 | A heap of seven whose order is broken by splicing out its least item, so that the search cannot rely on more than its root |
| `LayerSearch.SearchLayerClosest` | pkg/vector/index.go:206-233 | Ends at a live node reachable from the entry, at least as close, that no live friend beats |
| `LayerSearch.SearchLayer` | pkg/vector/index.go:236-303 | Distinct live reachable nodes, at most max(ef, 1); no node examined and no live friend of the first result is closer than the first; all of the reachable ones if ef has room |
| `HnswLinks.SelectNeighbors` | pkg/vector/index.go:306-334 | All candidates if they fit, else the closest live ones, closest first, as many as fit, none twice |
| `HnswLinks.LinkedBack` | pkg/vector/index.go:176-187 | The list with the new node appended while it has fewer than 2m entries, else the m closest of its live entries |
| `HnswLinks.ConnectBack` | pkg/vector/index.go:176-187 | Every chosen neighbour that has the level names the new node if its list had fewer than 2m entries, else keeps the m closest of its live entries; no other list changes |
| `HnswInsert.InsertNode` | pkg/vector/index.go:136-202 | Adds exactly the node; on each of its levels up to the old top its list is chosen from what a search finds from the end of the descent, or from the first neighbour one level up, and exactly the nodes in it are linked back; no other list changes; the entry point moves only to a higher node |
| `HnswInsert.ListIsClosest` | pkg/vector/index.go:165-174 | If efConstruction has room for all reachable nodes, the new node lists the closest of them, as many as m |
| `HnswGrowth.InsertedStaysReachable` | pkg/vector/index.go:165-187 | If no list on level 0 is full, a node that led to every node leads to every node afterwards, the new one included, and if each node led to every other so does each afterwards |
| `HnswGrowth.InsertedStaysWhole` | pkg/vector/index.go:165-195 | Insertion leaves no dangling link or orphan where there was none |
| `HnswGrowth.InsertedStaysNeat` | pkg/vector/index.go:165-187 | Lists on level 0 stay without repetition |
| `HnswGrowth.FewAreRoomy` | pkg/vector/index.go:180-186 | With at most 2m nodes and no dangling or repeated entries, no list on level 0 is full |
| `HnswGrowth.GrowsWell` | pkg/vector/index.go:136-202 | A graph of at most 2m + 1 nodes grown from nothing is connected on level 0 |
| `HnswFindings.NamedExactly` | pkg/vector/index.go:176-187 | A neighbour names the new node afterwards if and only if the new node chose it, it has the level and its list had fewer than 2m entries: a list that overflows is cut down before the new node is in the graph |
| `HnswFindings.FoundExactly` | pkg/vector/index.go:176-195 | The new node can be reached from another on level 0 if and only if one of the neighbours it chose had fewer than 2m entries there |
| `HnswFindings.FourthIsLost` | pkg/vector/index.go:176-195 | A sound connected graph of three vectors, with m of one, into which a fourth is added that no search starting elsewhere reaches |
| `HnswFindings.ThreeIsGrown` | pkg/vector/index.go:123-203 | Adding three vectors in turn gives that graph |
| `HnswRemove.RemoveNode` | pkg/vector/index.go:391-450 | Keeps the structure, removes exactly the node, forgets it in every list it named back, adds links only between nodes it had named, and leaves each of those full or linked to all the others; the entry point moves only if it was removed |
| `HnswRemove.ReconnectNeighbors` | pkg/vector/index.go:453-523 | Only adds links among the affected nodes; afterwards each of them has no room left or names every other |
| `HnswRemove.HighestNode` | pkg/vector/index.go:434-446 | A live node of greatest level |
| `HnswIntegrity.ValidateIntegrity` | pkg/vector/index.go:832-888 | Passes exactly the indexes with a live entry, right sizes, few dangling links and few orphans |
| `HnswIntegrity.WholePasses` | pkg/vector/index.go:832-888 | An index without dangling links or orphans passes |
| `HnswIntegrity.LinklessFails` | pkg/vector/index.go:832-888 | With no links and more than one node, validation fails |
| `HnswIndex.RandomLevel` | pkg/vector/index.go:108-114 | However the tosses fall, the loop ends at zero or at most at the configured maximum |
| `HnswIndex.HNSWIndex.Add` | pkg/vector/index.go:123-203 | Fails on a wrong length or a used id and changes nothing; otherwise adds exactly the vector, at a drawable level, linked as insertion links it; keeps the graph whole and, while there is room on level 0, everything reachable, the new vector included |
| `HnswIndex.HNSWIndex.Remove` | pkg/vector/index.go:391-450 | Removes exactly the vector, keeps the structure, and links what it had named among themselves as far as there is room |
| `HnswIndex.HNSWIndex.Search` | pkg/vector/index.go:337-388 | Descends level by level from the entry point, each time to a reachable node no friend beats; then live nodes reachable from where that ends, in descending similarity; the best score is at least that of the entry point and is that of a node no friend beats; the exact top k of all reachable ones when ef has room |
| `HnswIndex.HNSWIndex.Rebuild` | pkg/vector/index.go:717-820 | Succeeds if and only if vectors fit, levels are allowed and links are possible; then the vectors are the same and the index sound, for m of at least one without dangling links or orphans, and connected on level 0 if it has at most 2m + 1 vectors; otherwise nothing changes |
| `HnswIndex.BruteForceIndex.Search` | pkg/vector/index.go:1057-1088 | The exact top k of all vectors, in descending similarity |
| `HnswIndex.SearchRefinesBruteForce` | pkg/vector/index.go:337-388 | With room for all and all reachable, layered and brute-force search give the same scores place by place, and the same ids where scores differ |
| `Ranking.TopScoresAgree` | pkg/vector/index.go:1057-1088 | Any two exact top-k lists have the same scores |
| `Ranking.TakeTop` | pkg/vector/index.go:1075-1087 | Sorting and cutting gives an exact top k |
| `IndexCodec.FileRoundTrip` | pkg/vector/index.go:560-699 | Loading what was saved gives the index back if it lies within the loader's bounds and nothing otherwise, for every order of the nodes |
| `IndexLayout.FileLayout` | pkg/vector/index.go:564-579 | Dimension, node count, entry id and top level lie at bytes 0, 4, 8 and 16 of the file, least significant byte first, the nodes from byte 20 on |
| `IndexLayout.NodeLayout` | pkg/vector/index.go:582-598 | A node is its id in eight bytes, its level in four, its vector entries in four each, then its lists |
| `IndexLayout.ListLayout` | pkg/vector/index.go:600-609 | A list is its length in four bytes and its ids in eight each |
| `IndexCodec.Save` | pkg/vector/index.go:560-613 | Writes the file of the format, the nodes in some order |
| `IndexCodec.Load` | pkg/vector/index.go:616-699 | Reads exactly what the format says, or refuses |
| `Modularity.MoveChangesQuality` | pkg/graph/graph.go:471-517 | Moving a node changes modularity by exactly twice the gain |
| `Modularity.AttachmentFromLists` | pkg/graph/graph.go:479-508 | The sums over a member list are the node's attachment to the community |
| `LocalMoving.Partition.ModularityGain` | pkg/graph/graph.go:471-517 | Computes the gain |
| `LocalMoving.Partition.MoveNode` | pkg/graph/graph.go:520-533 | Both structures of the partition change together; modularity changes by twice the gain |
| `LocalMoving.Partition.BestMove` | pkg/graph/graph.go:430-446 | No neighbouring community offers more than the one chosen |
| `LocalMoving.Partition.TryMove` | pkg/graph/graph.go:427-452 | An accepted move raises modularity by more than twice the threshold; a refused one means joining no neighbour gains enough |
| `LocalMoving.Partition.MoveNodes` | pkg/graph/graph.go:415-456 | A pass that reports improvement raised modularity by more than twice the threshold; one that does not changed nothing and found every node settled |
| `LocalMoving.Partition.Run` | pkg/graph/graph.go:345-351 | Repeated passes end with every node settled, or with every pass having raised modularity by more than twice the threshold; no community reaches over two components if none did |
| `LocalMoving.MoveStaysComponentwise` | pkg/graph/graph.go:420-446 | Joining a neighbour's community never joins two components |
| `LocalMoving.SettledOfSamePartition` | pkg/graph/graph.go:430-446 | Whether every node is settled does not depend on how communities are numbered |
| `LocalMoving.Partition.Collect` | pkg/graph/graph.go:353-362 | The non-empty member lists are a partition whose classes are the communities |
| `LocalMoving.InitializeCommunities` | pkg/graph/graph.go:402-412 | Every node alone, in both structures |
| `WeightedGraphs.BuildGraph` | pkg/graph/graph.go:366-399 | Adjacency from the latest relationship of each pair, strengths and total from all |
| `WeightedGraphs.BuiltIsClosed` | pkg/graph/graph.go:366-399 | The adjacency built is symmetric and closed |
| `WeightedGraphs.StrengthsSumToTwiceTotal` | pkg/graph/graph.go:383-398 | Strengths add up to twice the total weight |
| `Leiden.Clustering.ComputeCommunities` | pkg/graph/graph.go:336-363 | A partition of the nodes, no list holding nodes of two components, that is settled or better than all apart by more than twice the threshold for each pass allowed; strictly better if a pass is allowed and some node gains enough by joining a neighbour |
| `Leiden.Clustering.LeidenOnSubset` | pkg/graph/graph.go:183-333 | The same for a subset in its cut-down graph, at the resolution of the level; undivided only if the subset is connected inside or has no weight inside |
| `Leiden.ResolutionSteps` | pkg/graph/graph.go:221-222 | From level to level the resolution changes by the configured factor |
| `Leiden.OneListIsUnsplittable` | pkg/graph/graph.go:183-333 | A clustering that puts a subset in one list found it connected |
| `Leiden.Clustering.ComputeHierarchicalCommunities` | pkg/graph/graph.go:94-180 | A nested hierarchy: disjoint non-empty communities on each level, children partitioning their parent into smaller parts, at most the configured levels; only node sets of the minimum size are divided, each into the lists of a good clustering of its own graph at its level; a set of that size above the last level that is not divided is connected inside or has no weight inside |
| `Leiden.DisconnectedIsDivided` | pkg/graph/graph.go:120-140 | A large enough node set above the last level that is disconnected and has weight inside is divided, the whole node set included |
| `Splits.SplitKeepsThorough` | pkg/graph/graph.go:142-173 | Entering a split leaves every community divided as asked, too small, too deep, waiting or indivisible |
| `Splits.DroppingKeepsThorough` | pkg/graph/graph.go:124-140 | So does dropping a task that is too deep, too small or indivisible |
| `Splits.NewTasksComplete` | pkg/graph/graph.go:165-172 | Every part of the minimum size above the last level is queued |
| `Subgraphs.BuildSubgraph` | pkg/graph/graph.go:188-214 | Rows cut down to the subset, with their sums and half their total |
| `Subgraphs.SubgraphTotal` | pkg/graph/graph.go:198-214 | Twice the total of a cut-down graph is the weight between the nodes of the subset |
| `Subgraphs.SubgraphIsClosed` | pkg/graph/graph.go:188-214 | Cutting a symmetric graph down leaves it symmetric and closed |
| `Hierarchy.SplitKeepsNested` | pkg/graph/graph.go:142-173 | Entering a split keeps the hierarchy nested |
| `Hierarchy.SplitMakesLighter` | pkg/graph/graph.go:120-177 | Every split makes the work queue lighter |
| `Traversal.BFSTraversal` | pkg/graph/graph.go:674-762 | Every hop is the true distance even when cut short; not cut short, exactly the nodes within reach; a forest with one step per node found |
| `Components.ConnectedComponents` | pkg/graph/graph.go:831-877 | Every listed node in exactly one component, sharing it exactly with the nodes a path inside the set joins it to |

## Left out

- Floating point: `float64` sums in the graph code are reals; a `float32` is its bit pattern, similarity an abstract real-valued function of two vectors, never NaN; rounding and the vectorised variants are not modelled.
- Integer width: ids, counters and sizes do not wrap around.
- Concurrency inside a store or index: every method is atomic under its lock; the periodic sync of the log and the late mark of a failed automatic snapshot are steps that can fall anywhere.
- The file system: names found in a directory after a crash count as on disk, snapshot names reach the disk in the order they were made, and the creation of the first log file is durable. Only the rename over the log can be undone by a crash.
- JSON: a record is one line that decodes to itself; no proper beginning of it, nor it with the beginning of another after it, decodes. Strings that are not valid UTF-8, which the encoder replaces, are outside this.
- Log headers, header-less logs, version-1 snapshots, requested snapshot paths and temporary files are not part of this model.
- Clocks: creation times are passed in, one for each operation, so that the rows of one batch share theirs; last access, time to live and expiry are not modelled, nor are document status and attributes and the provenance lists of relationships.
- Snapshot names are taken to sort by time, with no two alike.
- LogBytes.SessionWAL.Append: how many bytes were written and whether the sync succeeded are given by the caller as the outcome of the system calls.
- LogBytes.SessionWAL.Truncate: only how the object comes out of it, and not if it is left closed; the steps, and a crash between them, are in `DurableProtocol`.
- Operations that are never logged (links, description updates, single communities, deletion of a session) appear in the store but not in the log.
- SessionStores.SessionStore.RestoreFromSnapshot: nothing is stated for snapshots that are not of a well-formed store, which the code does not check.
- The bulk methods for documents and text units: covered by `StoreWrites.BulkIsIteration` on the contents; their loops repeat those for entities and relationships.
- The store's vector indexes appear in it as the map from id to vector that `HnswIndex` proves them to keep; the session's counters are fields of the store; quotas do not change.
- Each table of the store with its indexes is a value that the methods replace; nodes of the vector index are values in a map, so sharing of node objects is not modelled.
- The inlined local moving of `leidenOnSubset` goes through the same class as `ComputeCommunities`; adding and rebuilding share one insertion; `selectNeighborsForReconnect` shares `SelectNeighbors`.
- IndexCodec.Load: a failed load says only that it failed; the partly overwritten receiver is not modelled.
- HnswIndex.RandomLevel: the distribution of levels is not modelled, any level up to the maximum is allowed.
- PageRank, betweenness, community summaries, recall of the vector index and its load-or-rebuild entry point.
- The server, client pool, wire protocol, TLS, authentication, rate limits, command line, backup package, caches and metrics.
