# latlng, modelled and proved

A Dafny model of the latlng engine: an in-memory geospatial store with a
write-ahead log, secondary indexes, optimistic concurrency per collection,
geofences, search, log-shipping replication and rate limits. `dafny verify
dfyconfig.toml` checks all of it.

## What is modelled

- **Log, replay and concurrency.** `Catalog` is the replay interpreter as a
  function on the database. `Protocol` is the live engine as a transition
  system: any number of threads, the shared and exclusive gate, cells with locks
  and versions, reserve, append (which may fail) and apply as separate steps,
  unlogged sweeps, log rewrites, a clock and restarts. `Agreement`, `Batches`,
  `Invariant`, `Steps`, `Exclusive` and `ExclusiveSteps` prove that every step
  keeps one invariant; `History` says how memory and log drift apart over a run and
  `Durability` draws the conclusions, `Volatile` compares
  the shortcut for backends without a log. `Limits` shows where the promise
  fails, and exactly when.
- **The engine in place.** `Fields`, `FieldIndexes`, `Spatial` and `Collections`
  are the mutable collection and its derived indexes; `Engine` is the catalog of
  such collections and the interpreter that updates it in place; `LiveCommands`
  has the commands one at a time on it and `Effects` what each of them does, told
  from the request and the object it finds; `Maintenance`, `Sweep` and `Shrink` are
  build, sweep, logged expiry and log rewrite. All are proved against `Catalog`,
  `Protocol` and `Compaction`.
- **Replication.** `Replication` has the leader's reader and stream, the
  follower, and every run of an unreliable network between them.
- **Search.** `Clauses` and `Filters` are expressions and filters, `Expressions`
  what an expression means that was written from comparisons; `FieldQuery` is
  the indexed scan against the full scan, `FastQuery` its shortcut for limited
  queries, `Paging` sorting and cursors.
- **Geofences.** `Fences` is the inside/outside machine and `FenceMeaning` says
  what inside is; `Roaming` and `PairTable` are the pair table, `Routing` and
  `Registry` the registry.
- **Codecs and limits.** `Geohash`, `JsonPath`, `RateLimiter`, `Principals`.

Foreign code is a function-valued parameter: glob and regex matching, number
and JSON parsing, GeoJSON geometry, distances and containment (`Geometry.Env`,
`Filters.SearchEnv`, `Fences.FenceEnv`), the choice a hash map makes when it is
iterated, the permutation a library selection leaves, and whether an append
succeeds. Clocks are arguments. Floating-point numbers are reals.

## Hypotheses

- The backend stores the log and an append is all or nothing. It may fail at
  any time, and batches may be appended in any order; a restart also needs the
  last entry to carry the highest number, which every shipped backend enforces
  by refusing a batch that does not continue its last sequence.
- The clock does not run backwards.
- In the runs of `Durability`, sets store geometries that have an envelope and
  edits leave documents that have one (`Protocol.Stores`,
  `Protocol.LosesEnvelope`); a document can pass validation without one.
- Cell versions stay below the saturation point of the counter.
- In runs of a roaming fence no EXPIRE, PERSIST or edit brings back an object that
  is past its deadline (`PairTable.Fades`); `PairTable.SilentSourceIff` and
  `PairTable.SilentTargetIff` say exactly when one may.
- Fence events are delivered one at a time. Runtime fence state is not logged
  and is no part of what replay rebuilds.
- Parsing a printed number gives the number back (`FieldQuery.Lawful`).

`Limits`, `LiveCommands` and `Replication` say what happens without the hypotheses
on geometries and versions.

## What the proofs found

- A rewrite drops expired objects from the log but not from memory. A later
  PERSIST, EXPIRE or edit revives such an object in memory only, and a restart
  loses it: `Durability.AppendRecoversIff`, `Limits.PersistedObjectIsLost`.
- A set is logged before its geometry is found not to be indexable, and the
  error exit of an upsert has already removed the old object's index entries:
  `Limits.SetReplayableIff`, `Collections.Collection.Upsert`. An edit has the
  same gap where the object has a deadline: `Limits.EditAgreesIff`.
- An edit that leaves a valid document without an envelope, such as a MultiPoint
  without points, changes the object and not the version, so that a plan made
  before it is accepted. So is one where the counter is saturated, and in no
  other case: `Limits.StalePlanAcceptedIff`, `Limits.EmptiedShapeIsOverlooked`.
- A follower sweeps on its own clock without logging; a later PERSIST or EXPIRE
  of the leader then finds nothing: `Replication.RecordAgreesIff`,
  `Replication.SweptObjectStaysLost`.
- A replicated batch with an unreplayable record is stored while the counter
  stays behind, for good: `Replication.FollowerHasPrefix`,
  `Replication.StuckForGood`, `Replication.CounterFallsBehind`.
- Pairs of an object past its deadline outlive it in the roaming table, and its
  return is then not announced: `PairTable.StrayIff`, `PairTable.TableExactIff`,
  `PairTable.NodwellAnnouncesArrivals`, `PairTable.ReturnIsMissed`. A PERSIST that
  brings it back raises no event and leaves the table wrong:
  `PairTable.SilentSourceIff`, `PairTable.PersistedVanIsWrong`.
- A roaming fence whose collection is its own target misses the side of the
  objects that watch the one that moved: `PairTable.SameCollectionExactIff`,
  `PairTable.PartingIsMissed`.
- The numeric index does not see numbers stored as text, which the full scan
  does: `FieldQuery.IndexedScanIff`, `FieldQuery.TextNumberIsMissed`.
- A range with its bounds exchanged makes the ordered map panic:
  `FieldQuery.PanicsIff`, `FieldQuery.BackwardsRangePanics`.
- The shortcut for limited queries takes a field without numbers as answered,
  where the ordinary query falls back to a scan: `FastQuery.FastResultsIff`,
  `FastQuery.AbsentFieldIsMissed`.
- A cursor of 2^32 or more wraps: `Paging.CursorsCompleteIff`.
- Idle eviction of rate-limit buckets hands out extra bursts where ten minutes
  do not refill a bucket: `Principals.EvictionUnobservableIff`. Above 16384
  buckets eviction does so for every configuration:
  `Principals.CrowdingOutGrantsAgain`.

## Model

| member | source | states |
|---|---|---|
| `Durability.CrashRecovery` | crates/latlng-core/src/lib.rs:848-874 | In every run of any number of writers, exclusive commands, sweeps, rewrites at any time, failed appends and restarts, at every point: replaying the log and dropping what is due gives the live database with the same drop, a logged but unapplied command counted as done, unless some append revived a dropped object and no restart, rewrite or flush came since; even then replay invents and alters nothing; no record makes it fail |
| `Durability.AppendRecoversIff` | crates/latlng-core/src/admin.rs:194-198 | In every run in which nothing revived is outstanding, an append keeps rebuilding exact for all later times if and only if it is not a PERSIST, EXPIRE or edit that prolongs an object a rewrite has dropped from the log and memory still holds |
| `Durability.RecoversIff` | crates/latlng-core/src/lib.rs:848-874 | In every run, whatever was revived, rebuilding is exact from now on if and only if no object alive in memory is missing from the replayed log |
| `Durability.RevivedWasDue` | crates/latlng-core/src/commands.rs:378-407 | Only an object past its deadline can be revived: commands on other objects never cost recovery |
| `History.RevivedIff` | crates/latlng-core/src/admin.rs:194-198 | In every run from the empty engine the state counts as revived if and only if some append revived an object and no restart, rewrite or flush came since |
| `History.DroppedIff` | crates/latlng-core/src/util.rs:53-74 | In every run it counts as drifted if and only if a sweep, a restart or a rewrite with due objects dropped some and nothing was rebuilt since |
| `History.DriftExplained` | crates/latlng-core/src/admin.rs:194-198 | What each single step does to the two |
| `Durability.ReplayIsLive` | crates/latlng-core/src/restore.rs:19-210 | In every run, while nothing was dropped without a log entry since the last rebuild and no writer is between append and apply, replay in append order and replay in sequence order both give exactly the live catalog |
| `Durability.NoLostUpdate` | crates/latlng-core/src/commands.rs:68-88 | In every run, a writer that holds its cell lock planned from the object as it stands, its cell is the one the catalog names (never dropped, renamed away or flushed), no other writer holds that cell, and once logged it never takes the retry branch |
| `Durability.RetryFree` | crates/latlng-core/src/commands.rs:234-254 | In every state the invariant allows, the branch that logs and then finds the object missing is unreachable and the commit bumps the version |
| `Durability.StepKeeps` | crates/latlng-core/src/commands.rs:4-768 | Every step of the transition system keeps the invariant |
| `Durability.RunKeeps` | crates/latlng-core/src/commands.rs:4-768 | The invariant holds after every run |
| `Durability.InitInv` | crates/latlng-core/src/lib.rs:848-874 | An empty engine satisfies the invariant |
| `Durability.LocalStepKeeps` | crates/latlng-core/src/commands.rs:32-88 | Every step of a local writer keeps the invariant |
| `Durability.ExclusiveStepKeeps` | crates/latlng-core/src/commands.rs:90-140 | Every step under the exclusive gate keeps the invariant |
| `Steps.StartKeeps` | crates/latlng-core/src/commands.rs:4-11 | Entering a local command keeps the invariant |
| `Steps.FindCellKeeps` | crates/latlng-core/src/engine.rs:16-38 | Finding the cell under the gate keeps the invariant |
| `Steps.PlanKeeps` | crates/latlng-core/src/commands.rs:32-66 | Planning from a read of the cell keeps the invariant |
| `Steps.LockKeeps` | crates/latlng-core/src/commands.rs:68-71 | The version check under the cell lock turns a plan into one made from the current object |
| `Steps.ReserveKeeps` | crates/latlng-core/src/internals.rs:35-43 | Reserving numbers keeps reservations disjoint and above everything logged |
| `Steps.AppendKeeps` | crates/latlng-core/src/internals.rs:181-194 | Appending a batch, in whatever order writers get there, keeps the log in correspondence with the live state, the batch counted as done |
| `Steps.AppendOrdered` | crates/latlng-core/src/internals.rs:181-194 | An appended batch is out of sequence order only with records of other collections |
| `Steps.MutateKeeps` | crates/latlng-core/src/commands.rs:72-86 | Applying the logged command makes the pending effect real and nothing else |
| `Steps.NeverRetries` | crates/latlng-core/src/commands.rs:234-254 | A logged command is applied to the object it was planned for |
| `ExclusiveSteps.ReserveXKeeps` | crates/latlng-core/src/internals.rs:35-43 | An exclusive reservation keeps the invariant |
| `ExclusiveSteps.AppendXKeeps` | crates/latlng-core/src/persistence.rs:37-58 | An exclusive append keeps the invariant |
| `ExclusiveSteps.MutateXKeeps` | crates/latlng-core/src/commands.rs:675-768 | Create, drop, rename, flush and fence changes keep the invariant |
| `ExclusiveSteps.ClearLogKeeps` | crates/latlng-core/src/admin.rs:4-12 | Clearing the log after a flush keeps the invariant |
| `ExclusiveSteps.GcKeeps` | crates/latlng-core/src/util.rs:53-74 | A sweep that logs nothing keeps the invariant, up to objects due by then |
| `ExclusiveSteps.ShrinkKeeps` | crates/latlng-core/src/admin.rs:194-198 | A log rewrite at any time keeps the invariant, up to objects due by then |
| `ExclusiveSteps.RestartKeeps` | crates/latlng-core/src/lib.rs:848-874 | A restart at any point, from the log in either order, re-establishes the invariant |
| `Exclusive.XEffectAgrees` | crates/latlng-core/src/commands.rs:675-768 | An exclusive command has the same effect in memory and when its batch is replayed |
| `Exclusive.ViewOfApplyX` | crates/latlng-core/src/commands.rs:675-768 | What an exclusive command does to names and cells is its effect on the database |
| `Exclusive.RenameAgrees` | crates/latlng-core/src/commands.rs:741-768 | Rename, including onto an existing name, agrees with its replay |
| `Agreement.CommitProceeds` | crates/latlng-core/src/commands.rs:72-88 | A planned command applied to the object it was planned for never retries and bumps the version |
| `Agreement.CommitAgreesIff` | crates/latlng-core/src/commands.rs:72-88 | Applying it agrees with replaying its batch if and only if it does not prolong an object that only memory still has |
| `Agreement.EditFolds` | crates/latlng-core/src/commands.rs:509-560 | Replaying an edit with its PERSIST gives the edited document without a deadline, and nothing where the object is missing |
| `Agreement.CommitKeepsOk` | crates/latlng-core/src/commands.rs:72-88 | Committed objects stay under their own id and indexable |
| `Agreement.AgreePurged` | crates/latlng-core/src/util.rs:53-74 | Agreement is equality once everything due is removed |
| `Agreement.AgreeExactly` | crates/latlng-core/src/restore.rs:19-210 | Agreement without sweeps is equality |
| `Batches.LocalBatchAgrees` | crates/latlng-core/src/internals.rs:109-138 | A batch with its webhook records replays to the committed state |
| `Batches.WebhooksDoNothing` | crates/latlng-core/src/restore.rs:12-16 | Webhook records in a batch do not change the database |
| `Batches.ReplayAppended` | crates/latlng-core/src/persistence.rs:37-58 | Appending a batch extends the replay by that batch |
| `Catalog.SequenceOrderReplay` | crates/latlng-core/src/restore.rs:19-210 | Replay in append order equals replay in sequence order when entries out of order are independent |
| `Catalog.IndependentCommute` | crates/latlng-core/src/restore.rs:19-210 | Records on different collections, and webhook records with anything, commute |
| `Catalog.ReplayConcat` | crates/latlng-core/src/restore.rs:3-17 | Replay of a concatenation is replay of the parts in turn |
| `Limits.PersistedObjectIsLost` | crates/latlng-core/src/commands.rs:378-407 | An expired object dropped by a rewrite and revived by PERSIST is live in memory and gone after a restart |
| `Limits.SetReplayableIff` | crates/latlng-core/src/commands.rs:72-82 | What a set logs is replayable if and only if its geometry has an envelope; otherwise the call fails after logging and memory is unchanged |
| `Limits.EditAgreesIff` | crates/latlng-core/src/commands.rs:509-560 | An edit agrees with its replay if and only if the edited document has an envelope or there was no deadline to clear |
| `Limits.StalePlanAcceptedIff` | crates/latlng-core/src/commands.rs:68-71 | After another writer has changed the planned object, a plan from before passes the version check if and only if the counter was saturated or that writer's edit left a document without an envelope |
| `Limits.ChangeBumpsIff` | crates/latlng-core/src/commands.rs:552-558 | A command that changes an object bumps the version if and only if it is not such an edit |
| `Limits.EmptiedShapeIsOverlooked` | crates/latlng-core/src/commands.rs:540-558 | A JSET that empties a MultiPoint goes unnoticed, and the plan made before it takes the lock |
| `Compaction.SnapshotReplay` | crates/latlng-core/src/persistence.rs:60-122 | Replaying the snapshot rebuilds exactly the database without expired objects, with empty collections and every channel and hook |
| `Compaction.RewriteNumbers` | crates/latlng-core/src/persistence.rs:124-178 | The rewritten log is contiguous, starts at 1 or later and ends at max(last sequence, record count), where the counter is left |
| `Compaction.CollectionRecordsReplayable` | crates/latlng-core/src/persistence.rs:60-104 | Every record of a snapshot is replayable |
| `Shrink.FieldEntries` | crates/latlng-core/src/util.rs:39-47 | The entries are the fields in key order |
| `Shrink.ObjectsSnapshot` | crates/latlng-core/src/persistence.rs:67-104 | One collection: its create record, then its unexpired objects in key order |
| `Shrink.CollectionsSnapshot` | crates/latlng-core/src/persistence.rs:60-104 | All collections in name order |
| `Shrink.SnapshotBaseLogRecords` | crates/latlng-core/src/persistence.rs:60-122 | The loops build exactly the snapshot |
| `Shrink.RewriteLogSnapshot` | crates/latlng-core/src/persistence.rs:124-178 | The rewritten entries carry the records in order under contiguous ascending numbers, without underflow |
| `Shrink.Aofshrink` | crates/latlng-core/src/admin.rs:194-198 | The rewritten log replays to the database without its expired objects and the counter never falls behind the log it replaces |
| `Order.Sort` | crates/latlng-core/src/persistence.rs:63-64 | Names in ascending order, each once |
| `Engine.Store.ApplyRecord` | crates/latlng-core/src/restore.rs:3-210 | In place, the interpreter does exactly `Apply`, keeps every index of every collection exact, and fails if and only if the record stores a geometry without an envelope |
| `Engine.Store.ApplySet` | crates/latlng-core/src/restore.rs:91-102 | A persisted set creates the collection if needed and upserts |
| `Engine.Store.ApplyUpdate` | crates/latlng-core/src/restore.rs:41-173 | Every other object command changes an existing collection or nothing |
| `Engine.Store.EditDocument` | crates/latlng-core/src/restore.rs:129-173 | A JSON edit on replay stores the document and refreshes its spatial entry |
| `Engine.Store.RenameCollection` | crates/latlng-core/src/restore.rs:51-64 | The renamed cell replaces whatever had the new name; indexes stay exact |
| `Engine.Store.DropCollection` | crates/latlng-core/src/restore.rs:48-50 | Dropping removes the name only |
| `Engine.Store.EnsureCollection` | crates/latlng-core/src/engine.rs:28-38 | A missing collection is created empty, an existing one kept |
| `Engine.Store.Restore` | crates/latlng-core/src/lib.rs:855-859 | The whole log, oldest first, gives its replay, and succeeds if and only if every record is replayable |
| `Engine.Store.KeyedView` | crates/latlng-core/src/lib.rs:383-398 | Objects stay stored under their own ids |
| `Maintenance.Build` | crates/latlng-core/src/lib.rs:848-874 | A built engine holds the purged replay of the log, exact indexes, and continues after the last sequence |
| `Maintenance.Gc` | crates/latlng-core/src/util.rs:53-74 | The sweep of all collections in any order is the purge, indexes exact |
| `Maintenance.RemoveAll` | crates/latlng-core/src/util.rs:65-69 | Removing a list of ids removes exactly them |
| `Sweep.ExpireDue` | crates/latlng-core/src/admin.rs:25-56 | A sweep deletes min(max, number due) objects, only due ones, earliest first in each collection, logging each with its webhook records; below `max` nothing due remains anywhere; read-only does nothing; a failing append leaves a logged prefix |
| `Sweep.DelExclusive` | crates/latlng-core/src/commands.rs:609-649 | A delete and its webhook records are logged and applied together, not at all if the append fails, and nothing happens on a missing object |
| `Sweep.SweepIsLogged` | crates/latlng-core/src/admin.rs:25-56 | The log any sweep leaves replays to the database it leaves |
| `Sweep.NextExpiry` | crates/latlng-core/src/admin.rs:83-96 | The earliest deadline of any object, none if there is none |
| `Collections.Collection.Upsert` | crates/latlng-core/src/lib.rs:383-398 | Success keeps all indexes exact; the error exit leaves the objects alone and keeps the invariant if and only if the old object had nothing indexed |
| `Collections.Collection.Remove` | crates/latlng-core/src/lib.rs:400-410 | Removal keeps all indexes exact |
| `Collections.Collection.SetExpiry` | crates/latlng-core/src/lib.rs:436-448 | A new deadline keeps all indexes exact |
| `Collections.Collection.InsertFields` | crates/latlng-core/src/lib.rs:460-468 | Field updates keep all indexes exact |
| `Collections.Collection.ReplaceGeo` | crates/latlng-core/src/lib.rs:424-432 | The geometry is replaced and its entry dropped if it cannot be indexed |
| `Collections.Collection.EditGeo` | crates/latlng-core/src/lib.rs:416-421 | The replay form of an edit keeps all indexes exact |
| `Collections.Collection.DueExpirations` | crates/latlng-core/src/lib.rs:451-458 | The first `max` due ids in deadline order |
| `Collections.Collection.NearbyIds` | crates/latlng-index/src/lib.rs:272-312 | The index answers the brute-force distance filter over all objects, each id once |
| `Collections.WithoutEntries` | crates/latlng-core/src/lib.rs:384-391 | Taking an object out of the indexes while it stays stored is right if and only if it had no entries |
| `Collections.DuePrefixMeans` | crates/latlng-core/src/lib.rs:451-458 | The due ids have deadlines at most now, ascending, ties by id; what is left out is not due, or as many as asked for were taken that are no later |
| `Collections.WithinDistanceMeans` | crates/latlng-index/src/lib.rs:701-708 | A point is near if it is within the distance, another geometry if the centre of its envelope is, a string never |
| `Geometry.CenterIsMidway` | crates/latlng-geo/src/lib.rs:153-155 | The centre of a box is as far from its lower as from its upper edges |
| `Geometry.EnvelopeMeans` | crates/latlng-geo/src/lib.rs:324-332 | The envelope of a point is that point, of a box the box, of a hash exactly the places of its cell; which geometries have none and which are an error |
| `FieldIndexing.FieldIndexes.InsertObject` | crates/latlng-core/src/lib.rs:562-583 | Adds exactly the entries of the object |
| `FieldIndexing.FieldIndexes.RemoveObject` | crates/latlng-core/src/lib.rs:585-596 | Removes exactly the entries of the object and leaves no empty bucket |
| `FieldIndexing.RemoveId` | crates/latlng-core/src/lib.rs:781-804 | Removes one entry and prunes emptied buckets |
| `FieldIndexing.ExactIsUnique` | crates/latlng-core/src/lib.rs:562-596 | The exact indexes are a function of the objects |
| `Spatial.SpatialIndex.Insert` | crates/latlng-index/src/lib.rs:253-263 | Replaces the entry; a geometry without an envelope leaves none |
| `Spatial.SpatialIndex.Remove` | crates/latlng-index/src/lib.rs:265-270 | Removes the entry and its tree node |
| `Spatial.SpatialIndex.NearbyIds` | crates/latlng-index/src/lib.rs:272-312 | Exactly the entries within the distance, each once |
| `Fields.UpdatesMeaning` | crates/latlng-core/src/util.rs:19-27 | After updates a field has its last mentioned value, a zero removes it, others are kept |
| `Fields.ApplyFieldUpdates` | crates/latlng-core/src/util.rs:19-27 | The loop computes the specified updates |
| `Fields.FieldEntriesToMap` | crates/latlng-core/src/util.rs:3-9 | The loop computes the map of the entries, later ones winning |
| `Fields.EntriesRoundTrip` | crates/latlng-core/src/util.rs:39-47 | Writing fields as entries and reading them back is the identity |
| `FieldQuery.CandidateIds` | crates/latlng-core/src/lib.rs:598-619 | The intersection of all usable answers, or a panic if and only if some answer panics |
| `FieldQuery.IndexedScanIff` | crates/latlng-core/src/lib.rs:598-766 | The indexed query answers and equals the full scan if and only if no filter is a backwards range and every live match stores the filtered fields in the type compared |
| `FieldQuery.FullScanMeans` | crates/latlng-core/src/queries.rs:211-330 | What a query is to find: the objects that have time left, are strings where only strings are searched, and meet every filter |
| `FieldQuery.IndexedScanIsFullScan` | crates/latlng-core/src/lib.rs:598-766 | If no range is backwards and every live object stores a filtered field with the type compared, or does not store it at all, the query through the index is the filter over all live objects |
| `FieldQuery.MissingNeverMatches` | crates/latlng-core/src/lib.rs:758-766 | If the index answers a filter, no object without the field meets it |
| `FieldQuery.MissingNeverMatchesIn` | crates/latlng-core/src/lib.rs:725-755 | The same of WHEREIN |
| `FieldQuery.PanicsIff` | crates/latlng-core/src/lib.rs:699-723 | The query panics if and only if some filter is a top-level range with its start above its end on a field stored as a number |
| `FieldQuery.BackwardsRangePanics` | crates/latlng-core/src/lib.rs:699-723 | A valid query that matches nothing and panics |
| `FieldQuery.WhereAnswerIff` | crates/latlng-core/src/lib.rs:699-723 | A matching object is in the index answer if and only if it stores the field in the type compared |
| `FieldQuery.WhereInAnswerIff` | crates/latlng-core/src/lib.rs:725-755 | The same for WHEREIN |
| `FieldQuery.TextNumberIsMissed` | crates/latlng-index/src/lib.rs:738-755 | A number stored as text matches a range but is never found through the index |
| `FastQuery.FastResultsIff` | crates/latlng-core/src/lib.rs:474-522 | The shortcut returns min(limit, matches) distinct matches if and only if the filter it chooses is not a backwards range and covers every live match or at least as many as the limit |
| `FastQuery.FastResultsAreFull` | crates/latlng-core/src/lib.rs:474-522 | Under the same condition on options and objects the shortcut declines or returns as many distinct matches as asked for and there are |
| `FastQuery.FastIndexedResults` | crates/latlng-core/src/lib.rs:474-522 | Declines, panics, or returns min(limit, matches visited) distinct matches among the ids of the chosen filter |
| `FastQuery.VisitCandidateIds` | crates/latlng-core/src/lib.rs:621-639 | Visits the ids of the first usable WHERE filter, else of the first usable WHEREIN filter, each once |
| `FastQuery.VisitRange` | crates/latlng-core/src/lib.rs:641-664 | Visits exactly the ids of the buckets in range, each once |
| `FastQuery.VisitedIff` | crates/latlng-core/src/lib.rs:641-697 | A matching object is visited if and only if the chosen filter compares the type it stores |
| `FastQuery.BucketsAreDisjoint` | crates/latlng-core/src/lib.rs:641-681 | No id is in two buckets of a field |
| `FastQuery.AbsentFieldIsMissed` | crates/latlng-core/src/lib.rs:651-653 | On a field stored only as text the ordinary query finds the match and the shortcut returns nothing |
| `Clauses.SameClauses` | crates/latlng-index/src/lib.rs:766-824 | Validator and evaluator split any expression into the same clauses |
| `Filters.CheckedClauseEvaluates` | crates/latlng-index/src/lib.rs:826-864 | A clause passes validation if and only if it evaluates on every object |
| `Filters.ValidateExpression` | crates/latlng-index/src/lib.rs:798-824 | The loop finds the first invalid clause |
| `Filters.EvaluateExpression` | crates/latlng-index/src/lib.rs:766-796 | The short-circuiting loop computes the specified outcome |
| `Filters.ValidatedMeaning` | crates/latlng-index/src/lib.rs:766-824 | A validated expression means: some branch has all its clauses true |
| `Filters.ValidatedNeverFails` | crates/latlng-index/src/lib.rs:124-134 | Validated options never fail on any object, and a match is the conjunction of all filters |
| `Expressions.ClauseMeans` | crates/latlng-index/src/lib.rs:826-888 | Evaluating `path op text`, with any blanks around the operator and the text in quotes or not, is for each of the seven operators the comparison of what the path resolves to with the text: as numbers, with infinities beyond every number and what is no number as 0; as renderings for `==` and `!=`; `=~` as a pattern, or the error if it is none |
| `Expressions.ExpressionMeans` | crates/latlng-index/src/lib.rs:766-824 | An expression written as alternatives of comparisons joined by `&&` is valid and evaluates to whether some alternative has all its comparisons true, on every object |
| `Expressions.SplitGlued` | crates/latlng-index/src/lib.rs:766-796 | Splitting at a doubled character undoes gluing |
| `Expressions.ClausesOfConjunction` | crates/latlng-index/src/lib.rs:776-786 | The clauses of a written conjunction are its comparisons, in order |
| `Expressions.BranchesOfDisjunction` | crates/latlng-index/src/lib.rs:766-775 | The branches of a written disjunction are its conjunctions, in order |
| `Expressions.ResolvesHeight` | crates/latlng-index/src/lib.rs:891-895 | `z` is the height of a point that has one |
| `Expressions.ResolvesField` | crates/latlng-index/src/lib.rs:897-905 | A path that names a stored field resolves to it, whatever dots are in it |
| `Expressions.ResolvesNested` | crates/latlng-index/src/lib.rs:907-911 | A path into a field that holds a document resolves to the member there |
| `Expressions.ResolvesDocument` | crates/latlng-index/src/lib.rs:913-922 | A path that names no field resolves to the member of the object's own document |
| `Expressions.ResolvesMissing` | crates/latlng-index/src/lib.rs:913-921 | A plain name that is no field and not in the document reads as 0 |
| `Expressions.RangeMeans` | crates/latlng-index/src/lib.rs:738-748 | A range holds of the number a value stands for, both ends included, and of nothing that is no number |
| `Expressions.TextMeans` | crates/latlng-index/src/lib.rs:738-764 | Text filters and WHEREIN compare the rendering of the value |
| `Paging.SortCandidatesForPage` | crates/latlng-index/src/lib.rs:590-613 | In place, selecting the page boundary and sorting the page gives the page of the full sort; the rest is a permutation |
| `Paging.PageSorted` | crates/latlng-index/src/lib.rs:590-609 | Select-then-sort equals sort-then-slice |
| `Paging.PrefixIsRanked` | crates/latlng-index/src/lib.rs:571-588 | A sorted prefix that precedes everything else is unique |
| `Paging.RankedSorts` | crates/latlng-index/src/lib.rs:567-588 | The reference list is sorted by distance then id, or reversed |
| `Paging.RankedOrder` | crates/latlng-index/src/lib.rs:571-588 | In the ascending result distances never decrease and equal or absent distances come in id order; in the descending result both are reversed |
| `Order.LessMeans` | crates/latlng-index/src/lib.rs:571-588 | Ids are ordered by the first character in which they differ, a proper prefix first |
| `Paging.RankedKeeps` | crates/latlng-index/src/lib.rs:567-569 | The reference list is a permutation |
| `Paging.RankedIgnoresOrder` | crates/latlng-index/src/lib.rs:571-588 | The order in which candidates are found does not matter |
| `Paging.ApplySearchOptions` | crates/latlng-index/src/lib.rs:417-473 | A call returns the cursor page of the full sorted matches, the next cursor and the count, of all matches or of the page, each truncated to 32 bits |
| `Paging.CursorsCompleteIff` | crates/latlng-index/src/lib.rs:431-435 | Following cursors ends with all matches in order, each once, if and only if no page boundary before the last match is 2^32 or more |
| `Paging.FollowCursors` | crates/latlng-index/src/lib.rs:417-473 | A client following cursors for any number of requests collects the specified pages, whatever order each request finds the matches in; when it stops and no boundary wraps it has all matches in order, each once |
| `Fences.StaticFenceVisits` | crates/latlng-geofence/src/lib.rs:794-877 | In every serialized run, per object: detect values are ((Outside or Cross)* Enter Inside* Exit)* or a prefix, and the flag is the membership last evaluated |
| `Fences.EventFollows` | crates/latlng-geofence/src/lib.rs:805-836 | One evaluated event moves between inside and outside as its detect value says |
| `Fences.FiltersOnlyHide` | crates/latlng-geofence/src/lib.rs:838-844 | Detect and command filters change no state over a run and only drop events |
| `Fences.UnfilteredReportsTrace` | crates/latlng-geofence/src/lib.rs:838-877 | Without filters a fence reports exactly the trace |
| `Fences.OtherEventsKeep` | crates/latlng-geofence/src/lib.rs:801-803 | Events about other objects, and errors, leave the flag alone |
| `FenceMeaning.StaticEvaluationMeans` | crates/latlng-geofence/src/lib.rs:794-877 | One evaluation with validated filters: it fails if and only if the geometry cannot be placed, or a move outside cannot be compared with the boundary; else the flag is whether the object passes the filters and is contained in the area (within), meets it (intersects) or is at most so far away (nearby), and the event is the verdict on flag before, flag after and crossing, if the fence wants it |
| `FenceMeaning.FlagIsPosition` | crates/latlng-geofence/src/lib.rs:794-836 | In every run of events the flag of every object says whether the last evaluated event about it left it in the fence |
| `FenceMeaning.SetIsFlagged` | crates/latlng-geofence/src/lib.rs:1156-1202 | After every evaluated set, in every run, the object is flagged if and only if it passes the filters and the geometry condition holds |
| `FenceMeaning.NearMeans` | crates/latlng-geofence/src/lib.rs:1105-1123 | A target is near a source if and only if the source passes the filters, the pattern names the target, they are two objects, and both are points at most so far apart |
| `FenceMeaning.AnnouncedMeans` | crates/latlng-geofence/src/lib.rs:1006-1034 | A roaming fence emits what its filters want, and with NODWELL only pairs that are new |
| `Roaming.ReconcileSourcePairs` | crates/latlng-geofence/src/lib.rs:967-1034 | The source's pairs become exactly its near targets; events are the due ones, each once; fails if and only if its filters fail |
| `Roaming.ReconcileTargetPair` | crates/latlng-geofence/src/lib.rs:1037-1091 | One pair is present exactly if near now, and announced if due |
| `Roaming.ReconcileTarget` | crates/latlng-geofence/src/lib.rs:934-964 | All pairs of a changed target are reconciled, or the evaluation fails if some source's filters do |
| `Roaming.ClearSourcePairs` | crates/latlng-geofence/src/lib.rs:1093-1103 | Exactly the pairs of the source go |
| `Roaming.EvaluateRoaming` | crates/latlng-geofence/src/lib.rs:880-964 | Next pairs and events as sets; an error if and only if a consulted filter fails |
| `PairTable.TableExactIff` | crates/latlng-geofence/src/lib.rs:880-1103 | For a cross-collection fence registered first, after every run of set, fset and del on either collection, unlogged sweeps, deadline changes, edits and passing time, the table is exactly the pairs of objects not past their deadlines that are filtered, tracked, distinct and within reach if and only if no pair is stranded |
| `PairTable.StrayIff` | crates/latlng-geofence/src/lib.rs:880-1103 | In every run, the table holds a pair with a lapsed or missing member if and only if some move let a member of a pair in the table lapse, swept it, or stored one past its deadline beside a near one, and no later change of the source, or of the target while the source is live, decided the pair anew |
| `PairTable.TableIsExact` | crates/latlng-geofence/src/lib.rs:880-1103 | After every run in which nothing lapses, is swept, or is stored past its deadline, the table is exactly the near pairs |
| `PairTable.StrayAfterMove` | crates/latlng-geofence/src/lib.rs:880-1103 | What one move does to a pair with a lapsed or missing member |
| `PairTable.TableTracksLivePairs` | crates/latlng-geofence/src/lib.rs:880-1103 | After every run, a pair of objects not past their deadlines is in the table if and only if they are filtered, tracked, distinct and within reach |
| `PairTable.StepKeepsTracking` | crates/latlng-geofence/src/lib.rs:880-1103 | One change, evaluated on the objects not past their deadlines, keeps the table right on those and never fails with validated filters |
| `PairTable.StepExactIff` | crates/latlng-geofence/src/lib.rs:880-1103 | After a change the table is exactly the near pairs if and only if the change clears every pair of a lapsed object and does not store one itself |
| `PairTable.SilenceKeepsTracking` | crates/latlng-core/src/util.rs:53-74 | Sweeping, edits and deadline changes that bring nothing back, and time keep it right |
| `PairTable.SilentSourceIff` | crates/latlng-core/src/commands.rs:378-407 | A new deadline or an edit of a source keeps the table right if and only if the source had not lapsed, stays lapsed, or its left-over pairs are still the near ones |
| `PairTable.SilentTargetIff` | crates/latlng-core/src/commands.rs:378-407 | The same for a target |
| `PairTable.PersistedVanIsWrong` | crates/latlng-core/src/commands.rs:378-407 | A concrete run in which a PERSIST makes the table wrong |
| `PairTable.AnnouncesDuePairs` | crates/latlng-geofence/src/lib.rs:1006-1034 | A change announces exactly the near pairs of the changed object, each once, if its filters allow; with NODWELL only those not in the table |
| `PairTable.NodwellAnnouncesArrivals` | crates/latlng-geofence/src/lib.rs:1006-1091 | With NODWELL an allowed event for a pair is emitted if and only if it goes from not near to near and is not left over in the table; an arrival that is had a lapsed member |
| `PairTable.ReturnIsMissed` | crates/latlng-core/src/internals.rs:62-75 | A concrete run: a van lapses, its depot moves away, the pair stays in the table, and the return of the van is not announced |
| `PairTable.SameCollectionExactIff` | crates/latlng-geofence/src/lib.rs:906-932 | A fence on its own collection keeps its table exact if and only if no other object comes near to or stops being near the changed one and no pair of a lapsed object is stored |
| `PairTable.PartingIsMissed` | crates/latlng-geofence/src/lib.rs:906-932 | A concrete fleet in which every evaluation leaves the table wrong |
| `Routing.RoutingIsExact` | crates/latlng-geofence/src/lib.rs:498-567 | Evaluating only the routed names gives the states and the multiset of events of evaluating every registered fence in any order |
| `Routing.IrrelevantIsSilent` | crates/latlng-geofence/src/lib.rs:756-792 | A fence that does not watch the collection keeps its state and is silent |
| `Routing.AddNameKeepsExact` | crates/latlng-geofence/src/lib.rs:641-681 | Registering keeps a routing index exact, duplicate-free and without empty lists |
| `Routing.RemoveNameKeepsExact` | crates/latlng-geofence/src/lib.rs:655-754 | Unregistering keeps a routing index exact and drops emptied lists |
| `Registry.FenceTable.Set` | crates/latlng-geofence/src/lib.rs:284-298 | Replaces a fence with a fresh state; both indexes stay exact |
| `Registry.FenceTable.Delete` | crates/latlng-geofence/src/lib.rs:300-309 | Removes a fence; both indexes stay exact |
| `Registry.FenceTable.DeleteMatching` | crates/latlng-geofence/src/lib.rs:311-323 | Removes exactly the matching fences and counts them |
| `Registry.FenceTable.RelevantNames` | crates/latlng-geofence/src/lib.rs:609-623 | Exactly the watching fences, each once |
| `Registry.FenceTable.HasRelevant` | crates/latlng-geofence/src/lib.rs:477-482 | True if and only if some fence watches the collection |
| `Registry.FenceTable.Prepare` | crates/latlng-geofence/src/lib.rs:498-567 | Evaluates exactly the watching fences, counting errors and collecting updates and events |
| `Registry.FenceTable.ApplyUpdates` | crates/latlng-geofence/src/lib.rs:574-591 | Applies the updates in order |
| `Registry.ApplyAllIsNextFences` | crates/latlng-geofence/src/lib.rs:574-591 | Applying the collected updates is evaluating each fence on its own |
| `Registry.FenceTable.Evaluate` | crates/latlng-geofence/src/lib.rs:484-496 | Prepare and apply: every fence ends as its own evaluation says and the indexes stay exact |
| `Registry.BrokenFenceIsAbsent` | crates/latlng-geofence/src/lib.rs:514-545 | A fence that cannot be evaluated keeps its state; the registry without it gives the same events and leaves every other fence in the same state |
| `Registry.GeofenceRegistry.EvaluateMutation` | crates/latlng-geofence/src/lib.rs:484-591 | Channels then hooks, routed exactly; the exclusive-path set is unchanged |
| `Registry.GeofenceRegistry.Refresh` | crates/latlng-geofence/src/lib.rs:697-716 | Recomputes exactly the collections of fences that roam between collections |
| `Registry.CrossIsJoined` | crates/latlng-geofence/src/lib.rs:697-716 | A collection needs the exclusive path if and only if some channel or hook roams from it to another collection, or from another to it |
| `Registry.GeofenceRegistry.SetChannel` | crates/latlng-geofence/src/lib.rs:284-298 | Keeps both tables exact and the exclusive-path set exact |
| `Registry.GeofenceRegistry.DelChannel` | crates/latlng-geofence/src/lib.rs:300-309 | The same for removal |
| `Registry.GeofenceRegistry.PdelChannel` | crates/latlng-geofence/src/lib.rs:311-323 | The same for removal by pattern |
| `Registry.GeofenceRegistry.SetHook` | crates/latlng-geofence/src/lib.rs:356-376 | The same for hooks |
| `Registry.GeofenceRegistry.DelHook` | crates/latlng-geofence/src/lib.rs:378-387 | The same for hook removal |
| `Registry.GeofenceRegistry.PdelHook` | crates/latlng-geofence/src/lib.rs:389-401 | The same for hook removal by pattern |
| `Registry.GeofenceRegistry.ClearAll` | crates/latlng-geofence/src/lib.rs:460-470 | Empties everything and keeps it exact |
| `Registry.GeofenceRegistry.RequiresExclusive` | crates/latlng-geofence/src/lib.rs:472-475 | True if and only if some fence roams between this collection and another |
| `Registry.GeofenceRegistry.HasSideEffects` | crates/latlng-geofence/src/lib.rs:477-482 | True if and only if some channel or hook watches the collection |
| `Registry.ShortcutIsFullPath` | crates/latlng-core/src/commands.rs:13-30 | Where no fence watches the collection, evaluating all of them changes nothing and emits nothing, so the volatile shortcut is the full path |
| `Geohash.EncodeGeohash` | crates/latlng-geo/src/lib.rs:650-688 | The loop computes the specified hash and ends |
| `Geohash.DecodeGeohashBbox` | crates/latlng-geo/src/lib.rs:690-723 | The loop computes the specified cell, or none |
| `Geohash.EncodeThenDecodeContains` | crates/latlng-geo/src/lib.rs:650-723 | For every in-range point and precision, the cell of its hash contains it |
| `Geohash.DecodeThenEncode` | crates/latlng-geo/src/lib.rs:650-723 | For every valid hash, encoding the centre of its cell at its length gives it back |
| `Geohash.ExtensionShrinks` | crates/latlng-geo/src/lib.rs:690-723 | Extending a hash only shrinks its cell |
| `Geohash.HashCellSize` | crates/latlng-geo/src/lib.rs:690-723 | The cell of n letters is 360/2^ceil(5n/2) by 180/2^floor(5n/2) |
| `Geohash.DecodableExactly` | crates/latlng-geo/src/lib.rs:695-699 | A string decodes if and only if all its letters are in the alphabet |
| `JsonPath.SetJsonPath` | crates/latlng-geo/src/lib.rs:744-794 | The cursor loop computes the specified assignment |
| `JsonPath.DeleteJsonPath` | crates/latlng-geo/src/lib.rs:796-836 | The cursor loop computes the specified deletion |
| `JsonPath.SegmentsOfJoined` | crates/latlng-geo/src/lib.rs:730-733 | The segments of names joined by dots are the names that are not empty, in order: leading, trailing and doubled dots change nothing |
| `JsonPath.SegmentsOfNames` | crates/latlng-geo/src/lib.rs:730-733 | The segments of proper names joined by dots are the names |
| `JsonPath.DollarIgnored` | crates/latlng-geo/src/lib.rs:730-730 | A dollar sign in front changes nothing |
| `JsonPath.IndexOfDecimal` | crates/latlng-geo/src/lib.rs:736-739 | A decimal number is read as that array index, if a machine word holds it |
| `JsonPath.SetThenGet` | crates/latlng-geo/src/lib.rs:725-794 | After a successful set, get returns the new value |
| `JsonPath.FailedSetChangesNothing` | crates/latlng-geo/src/lib.rs:744-794 | A failed set leaves the document unchanged although it creates intermediates on the way |
| `JsonPath.SetIntoEmptySucceeds` | crates/latlng-geo/src/lib.rs:744-794 | Any path can be set in an empty object |
| `JsonPath.SetFrame` | crates/latlng-geo/src/lib.rs:744-794 | A set changes no location whose path diverges |
| `JsonPath.NestedUnlessDiverging` | crates/latlng-geo/src/lib.rs:744-794 | Paths that do not diverge name the same, an enclosing or an enclosed location |
| `JsonPath.DeletesExactlyWhatResolves` | crates/latlng-geo/src/lib.rs:796-836 | A delete succeeds if and only if the path is non-empty and resolves |
| `JsonPath.UnsuccessfulDeleteChangesNothing` | crates/latlng-geo/src/lib.rs:796-836 | A delete that returns false or an error changes nothing |
| `JsonPath.DeleteThenSetRestores` | crates/latlng-geo/src/lib.rs:744-836 | Deleting a member and setting it back restores the document |
| `JsonPath.DeleteMemberFrame` | crates/latlng-geo/src/lib.rs:796-836 | Deleting a member changes no diverging location |
| `JsonPath.DeleteElementShifts` | crates/latlng-geo/src/lib.rs:796-836 | Deleting an array element shifts the later ones |
| `RateLimiter.GlobalRateLimiter.Allow` | crates/latlng-http/src/middleware.rs:44-59 | One call refills to the cap, then takes a token if there is one |
| `RateLimiter.WindowBound` | crates/latlng-http/src/middleware.rs:44-59 | In every run, the calls allowed between any two calls are at most burst + rate * elapsed |
| `RateLimiter.SlowCallersPass` | crates/latlng-http/src/middleware.rs:44-59 | A caller that never exceeds the rate is never refused |
| `RateLimiter.PrincipalRateLimiter.Allow` | crates/latlng-http/src/middleware.rs:92-111 | Cleans up when due or over the limit, then serves the principal from its bucket or a full one; the table never holds more than 16385 buckets |
| `RateLimiter.PrincipalRateLimiter.Cleanup` | crates/latlng-http/src/middleware.rs:114-131 | Idle buckets go, then as many of the least recently used as exceed the limit; the rest are untouched |
| `Principals.RunSimulates` | crates/latlng-http/src/middleware.rs:92-148 | If ten minutes of refill fill a bucket, every run within the size limit decides as a limiter that never evicts |
| `Principals.EvictionUnobservableIff` | crates/latlng-http/src/middleware.rs:75-148 | For every configuration, eviction is unobservable in runs within the size limit if and only if rate * 600 >= burst |
| `Principals.Serve` | crates/latlng-http/src/middleware.rs:92-111 | The in-place limiter serving a run makes the specified decisions |
| `Principals.OwnBucket` | crates/latlng-http/src/middleware.rs:133-148 | Without eviction each principal is served by a bucket of its own |
| `Principals.PrincipalBound` | crates/latlng-http/src/middleware.rs:92-148 | Where ten minutes of refill fill a bucket, in runs within the size limit, each principal is granted at most burst + rate * elapsed in any stretch of requests |
| `Principals.CrowdingOutGrantsAgain` | crates/latlng-http/src/middleware.rs:114-131 | Over the limit, for every configuration, a principal that spent its burst is granted a call before a token has flowed in, once 16384 others have called |
| `Principals.SecondBurst` | crates/latlng-http/src/middleware.rs:114-131 | After ten idle minutes a second full burst is granted, whatever the rate |
| `Replication.StorageEntriesAfter` | crates/latlng-core/src/admin.rs:142-157 | The entries after a number, at most max(1, limit), in order |
| `Replication.ReplicationStream.Next` | crates/latlng-capnp/src/streams.rs:109-145 | Consecutive batches neither skip nor repeat an entry |
| `Replication.Follower.ApplyReplicatedEntries` | crates/latlng-core/src/admin.rs:168-192 | A batch is accepted only if it continues the log; a refused or unstored batch changes nothing; one with an unreplayable record is stored, applied up to that record, and does not advance the counter |
| `Replication.FollowerHasPrefix` | crates/latlng-core/src/admin.rs:142-192 | In every run with lost, repeated, stale or reordered batches the follower's log is a prefix of the leader's, and its counter the length of it if and only if every record in it can be replayed |
| `Replication.DeliveryKeepsStepIff` | crates/latlng-core/src/admin.rs:168-192 | A delivery keeps counter and log in step if and only if it is refused or all of it can be replayed |
| `Replication.DeliveryContinues` | crates/latlng-core/src/admin.rs:168-182 | Only a stored batch with ascending numbers that continues the counter and lies above the log changes the follower, and it ends the log |
| `Replication.StuckForGood` | crates/latlng-core/src/admin.rs:173-182 | Once behind, the follower refuses every later batch |
| `Replication.CounterFallsBehind` | crates/latlng-core/src/admin.rs:182-189 | A concrete run in which a geohash that does not decode leaves the counter behind the log |
| `Replication.FollowerReplaysPrefix` | crates/latlng-core/src/admin.rs:168-192 | Without deadlines in the history, the follower's database is always the replay of its log up to the first record that cannot be replayed |
| `Replication.RecordAgreesIff` | crates/latlng-core/src/admin.rs:184-190 | With deadlines, a record keeps the follower in agreement with its log if and only if it does not extend the life of an object that only one of them still has |
| `Replication.AcceptedAgrees` | crates/latlng-core/src/admin.rs:168-192 | A batch without such records leaves the follower equal to the replay of its log once both drop what is due |
| `Replication.SweptObjectStaysLost` | crates/latlng-core/src/admin.rs:190-190 | A concrete history in which the follower loses an object the leader keeps |
| `Replication.CatchUp` | crates/latlng-core/src/admin.rs:142-192 | A follower fed from its own position ends with the whole log if and only if all of it can be replayed; otherwise it ends behind a prefix |
| `Volatile.ShortcutIsFullSet` | crates/latlng-core/src/commands.rs:13-30 | The shortcut leaves the cell, its version and the sequence counter as the uninterrupted full path does |
| `PairTable.EventsDescribePairs` | crates/latlng-geofence/src/lib.rs:1124-1154 | Every event carries the moving object as it now is, its target and their distance, which is within reach |
| `Compaction.ReplayedFencesEvaluable` | crates/latlng-core/src/util.rs:157-169 | Whatever was replayed, every registered definition is evaluable, so a snapshot skips none |
| `LiveCommands.Database.Execute` | crates/latlng-core/src/commands.rs:90-140 | One command at a time, in place: refused or not stored, nothing changes; otherwise the batch is logged, the database is its effect, all indexes are exact and the log still replays to memory; a set that cannot be indexed fails after logging, keeps the objects, and keeps the indexes if and only if the old object had no entries; an edit that cannot be is stored with exact indexes and agrees with the log if and only if there was no deadline |
| `LiveCommands.Database.Plan` | crates/latlng-core/src/commands.rs:92-102 | Reads the object and decides as the command's condition says |
| `LiveCommands.Database.Apply` | crates/latlng-core/src/commands.rs:130-136 | Applies the planned command in place, indexes exact |
| `LiveCommands.EditObject` | crates/latlng-core/src/commands.rs:550-556 | Replaces the document and clears a deadline, or stops after the replacement if it cannot be indexed |
| `LiveCommands.UnstorableReplays` | crates/latlng-core/src/commands.rs:540-558 | Logging an accepted edit extends the replay by its effect if and only if its document has an envelope or there was no deadline to clear |
| `LiveCommands.ExecuteReplays` | crates/latlng-core/src/commands.rs:109-136 | Logging an accepted command extends the replay by its effect |
| `LiveCommands.CommitReplays` | crates/latlng-core/src/commands.rs:90-140 | Replaying the logged batch is applying the planned command |
| `LiveCommands.BuildBatch` | crates/latlng-core/src/internals.rs:109-138 | The batch is the commands, then the webhook records |
| `LiveCommands.Database.CreateCollection` | crates/latlng-core/src/commands.rs:675-686 | Creates an empty collection, or refuses an existing one; the log still replays to memory |
| `LiveCommands.Database.DropCollection` | crates/latlng-core/src/commands.rs:688-731 | Drops the collection, or refuses a missing one; the log still replays to memory |
| `LiveCommands.Database.RenameCollection` | crates/latlng-core/src/commands.rs:741-768 | Renames, refusing a missing source and, if asked, an existing target; the log still replays to memory |
| `Effects.SetAcceptedIff` | crates/latlng-core/src/commands.rs:41-46 | NX is refused if and only if the object is there, XX if and only if it is not, a plain SET never |
| `Effects.SetMeans` | crates/latlng-core/src/commands.rs:48-56 | After an accepted SET the object has the id, geometry and deadline of the request (now plus 1000 times the seconds, capped at 64 bits; none if none is asked for); a field not mentioned looks up as before, a mentioned one has its last value or is gone if that is 0; nothing else changes |
| `Effects.UpdateAcceptedIff` | crates/latlng-core/src/commands.rs:192-232 | DEL, FSET, EXPIRE and PERSIST are accepted if and only if the object is there |
| `Effects.DelMeans` | crates/latlng-core/src/commands.rs:142-190 | DEL removes that object and changes nothing else |
| `Effects.FsetMeans` | crates/latlng-core/src/commands.rs:192-255 | FSET keeps id, geometry and deadline; the fields change by last mention as for SET; nothing else changes |
| `Effects.ExpireMeans` | crates/latlng-core/src/commands.rs:319-356 | EXPIRE sets the deadline and nothing else |
| `Effects.PersistMeans` | crates/latlng-core/src/commands.rs:378-407 | PERSIST clears the deadline and nothing else |
| `Effects.EditAcceptedIff` | crates/latlng-core/src/commands.rs:509-548 | JSET and JDEL are refused if and only if there is no document, the path does not lead anywhere, or the result is no valid geometry |
| `Effects.EditMeans` | crates/latlng-core/src/commands.rs:427-560 | An accepted edit stores the edited document, and clears the deadline if the document has an envelope; id, fields and everything else stay |
| `Effects.SetLivesUntil` | crates/latlng-core/src/commands.rs:48-50 | An object set with a lifetime is dropped by a sweep if and only if that many milliseconds have passed |
| `Effects.ExpireLivesUntil` | crates/latlng-core/src/commands.rs:319-356 | The same of EXPIRE, for every moment; after PERSIST no sweep drops the object |
| `Effects.DeadlineIsFixed` | crates/latlng-core/src/commands.rs:325-345 | In every step of any number of threads: EXPIRE counts from when it finds the collection, a set from its latest plan, and nothing, not even another attempt, moves a counted deadline |
| `Effects.ExclusiveAcceptedIff` | crates/latlng-core/src/commands.rs:675-768 | CREATE is refused if and only if the collection exists, DROP and RENAME if and only if it does not, RENAMENX also if the new name exists; a fence if and only if it cannot be evaluated |
| `Effects.RenameMeans` | crates/latlng-core/src/commands.rs:741-768 | The collection is under the new name with all its objects, in place of what was there; the old name is free; no other collection and no fence changes |
| `Effects.CreateDropMean` | crates/latlng-core/src/commands.rs:675-731 | CREATE adds one empty collection, DROP removes one, and no other lookup changes |
| `Effects.FencesMean` | crates/latlng-geofence/src/lib.rs:284-401 | Setting, deleting and deleting by pattern change exactly the lookups of the channels or hooks they name |

## Left out

- HTTP, WebSocket and Cap'n Proto handlers, OpenAPI, wasm bindings, configuration and metrics: plumbing over libraries.
- Authentication and permission checks: library cryptography and lookups.
- Storage backends, the webhook queue, subscriber mailboxes and lock implementations: only the contracts the engine uses are modelled.
- The R-tree, polygon clipping, circle and sector polygons, tiles and GeoJSON geometry: foreign or floating-point geometry, kept as functions.
- Legacy log commands Set and Expire, which read the clock at replay and are never written.
- `expire_exclusive` and `persist_exclusive`, which no caller reaches.
- The HTTP route that composes snapshot and rewrite outside the gate; the gated rewrite is modelled.
- Full resynchronisation of a fresh follower after a rewrite.
- Webhook identifiers, retry bookkeeping and event publication to subscribers.
- Clipping and projection of results.
- The unsorted shortcut for limited id-only queries over spatial candidates; its field-index form is `FastQuery.FastIndexedResults`.
- Concurrent local writers in fence runs: fence state is applied after the cell lock is released.
- Fence events of a dropped collection, which are all planned from one starting state, and renames of a watched collection, which raise none.
- NaN and rounding: numbers are reals.
- Engine.Store.ApplyRecord: fence definitions are kept as maps here; the registry's indexes and state are in `Registry`.
- Protocol and its steps work on values: cells, locks and the log are fields of a state, because the interleavings are what is proved.
