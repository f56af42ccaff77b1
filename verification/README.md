# Verified model of ysync

ysync is a collaborative text editor: every browser tab holds a replica of the document, edits it without asking
anyone, and exchanges operations with a server that numbers, fans out and stores them. This project models its
four connected parts in Dafny and proves what they promise.

**The replica** (`Ids`, `Ops`, `Order`, `Arrival`, `Tree`, `Document`, `Delivery`, `Convergence`, `Edits`,
`EditorContents`, `Replica`, `Runs`, `Stability`). A replica is a linked list of characters with an index by id, a
buffer of ops that wait for a character, a counter, tombstones, and one last-writer-wins clock per mark.
`Document.dfy` says what each operation does to the abstract state, a list of ids with a cell each; `Replica.dfy`
has the class with its pointers, loops and in-place updates, and proves every method against those functions. On
top of that: which list the greater-id scan builds, that the whole state is a function of the set of delivered
ops, that runs of any number of replicas converge, and what local edits do to the visible text.

**Snapshots, compaction, storage and recovery** (`Snapshots`, `IdReuse`, `FreshIds`, `Batches`, `Keys`, `SqlRows`,
`Stores`, `Databases`, `Rooms`, `ServerRoom`, `ServerProcess`, `Recovery`, `Histories`). What survives a snapshot, why
compaction cannot be noticed in a document, exactly when an id is given out again after a restart, how rooms answer
replicas that come back, what a process shows after a crash, and that a room rebuilt from its store answers as
completely as the old one. There are two stores, the one in memory and the one in Postgres; `Databases` has where they
differ, and everything about crashes and runs is proved for both.

**The reconnect protocol** (`Wire`, `Clients`, `WebClient`, `RoomManagement`, `Session`, `Simulation`,
`ClientSimulation`, `Reconnect`, `Progress`, `SettledSteps`, `Settlement`, `Uniqueness`, `Lossless`, `PubSub`,
`Fanout`). `WebClient`, `ServerRoom` and `RoomManagement` have the objects with their fields; their methods are proved
against transition functions, and `Session` runs these functions as a state machine around `ServerProcess`: edits,
sends, batches applied at increasing numbers, broadcasts, appends, acknowledgements, errors, disconnects, joins
answered by a sync or a snapshot, flushes, reloads, snapshots with garbage collection, and crashes after which the
room is rebuilt from the store. A message of a client that was written to a socket may reach the server at any later
time, any number of times, or never; messages of the server arrive in order until the connection breaks. `Simulation`
and `ClientSimulation` prove that the handlers of the objects are steps of this machine: whatever a handler leaves in
the room, in the store, on the sockets or in the client is what the named steps lead to. `Reconnect` says what holds
in all runs, `Progress` that every client can always hand over what it has and everyone can come to rest, `Settlement`
what documents show in runs whose restarts bring no id back, `Uniqueness` when no id is issued twice, `Lossless` when
nothing is lost and everything can be recovered. `Fanout` has several processes behind one broker and one counter.

**The editor binding** (`Editor`). Deltas of the editor become index-based edits, and the edits become ops.

## What the proofs brought to light

- The scan needs no assumption about ids to converge: two ready inserts commute for any two different ids. That every
  id is greater than its origin's is needed for something else: for such ids the list is the pre-order walk of the
  origin tree (`Tree.BuiltExactlyPreOrder`), and no smaller id ever stands between a character and one typed after it
  (`Tree.SubtreesStayTogether`). Other ids can violate both (`Tree.NonCausalIdsSplitSubtrees`).
- `localInsert` and `apply` of the op it returns agree iff nothing in the buffer waits for the new id: only
  `apply` releases what waits. An index beyond the end has no left neighbour, so `localInsert` then types at the
  very front.
- A replica can give out exactly those ids of its own that are above its counter (`IdReuse.IdComesBackIff`), and a
  restart does not always restore the counter. Without compaction it can lose the ids of own ops that are buffered
  after the restart, and no others (`IdReuse.UncompactedBufferDecides`); from a compacted snapshot also those of own
  format ops on deleted characters (`IdReuse.NoIdComesBackIff`). A compacted snapshot is safe for every replica iff
  the counter is still witnessed by an id in the list or on the clock of a living character
  (`IdReuse.CompactedSnapshotIff`; `Snapshots.CompactedSnapshotReissuesAnId` has an input).
- For documents an id of a format op on a deleted character may come back: they still agree
  (`Settlement.CleanRunsSettle`). For the store in memory it may not: it never forgets a key, so an insert under such an
  id is acknowledged but never stored (`Recovery.ReissuedInsertIsNeverStored`). Postgres forgets the keys of the rows
  that a snapshot covers, so there it is stored (`Databases.StoredAfterCoverIff`).
- A delete has the key of the insert that it targets (packages/crdt/src/op.ts:33-39). The outbox keeps one op per
  key, so an insert that is deleted while it is unacknowledged leaves the outbox and is not sent again if its message
  was lost (`Clients.DeleteEvictsItsInsert`). If it was not lost, its acknowledgement takes the queued delete out of
  the outbox (`Clients.AckTakesTheQueuedDelete`). And the store keeps the first op per key, so a delete is not stored
  while its character is, and the text is back after a crash (`Recovery.DeletedTextComesBack`). In every run an op
  whose key no other op has is in its creator's outbox or can be recovered after a crash, unless it was buffered when a
  snapshot was taken (`Reconnect.UncontestedSurvive`). That the keys of one client are distinct is not enough for this:
  another client may delete its characters (`Reconnect.OutboxOrStored`, `Reconnect.NoOpIsLost`).
- Storing a snapshot in Postgres does not raise the number of the document, only appending does. If a snapshot is stored
  before the last batch that it covers, and the process crashes before that one is appended, a replica that lacks the
  batch is told that it lacks nothing (`Databases.LateAppendWithholdsTheSnapshot`, `Databases.SnapshotIsSentIff`).
- The record that a client stores is not rewritten when a broadcast comes in. After a reload an own op can thus wait
  for a character that is not in the record; its id then counts for nothing and is given out again
  (`Clients.ReloadReissuesAnId`). The same happens to a character that was typed and deleted offline: the next one
  gets its id and is hidden everywhere else by the old delete (`Clients.ReloadRevivesADelete`).
- A room assigns the number of each batch instead of raising its own. Its answers to returning replicas are all
  complete iff no op that it was fed has a number above its own (`Rooms.AnswersAreCompleteIff`;
  `Rooms.SmallerNumberHidesABatch` has an input for which they are not).
- A room rebuilt from the store lacks the batches whose ops were stored before under another number, as happens when
  an outbox is flushed twice. Its answers are complete nevertheless (`Histories.RebuiltAnswers`).

## Conventions

- Maps that the program keys by the string of an id are keyed by the id here; `Keys.KeysAreInjective` shows that this
  is the same thing. The store keeps its set of key strings.
- An absent attributes record and an empty one are one value, the empty set of marks. Counters are unbounded.
- A snapshot is a value: its clocks are copies, as they are once a snapshot has crossed the wire or the database.
- What the counter, the broker and the database answer comes in as a parameter. Joining and creating a room are each
  one step; a snapshot is taken, stored, and followed by the cut of the log in three.
- Every lemma states `{:induction false}`, so that the induction in its body is the proof.

## Model

| member | source | states |
|---|---|---|
| Ids.CompareSigns | packages/crdt/src/opId.ts:8-17 | comparing two ids gives zero exactly for equal ids, and swapping them swaps the sign |
| Ids.LessIsStrictTotalOrder | packages/crdt/src/opId.ts:8-12 | the order of ids is irreflexive, asymmetric, transitive and total |
| Ids.CompareDecides | packages/crdt/src/opId.ts:8-12 | the smaller counter is less; under equal counters that id whose name is smaller where the two names first differ, or ends there |
| Order.PlaceCommutes | packages/crdt/src/rga.ts:287-314 | two ready inserts give the same list in either order, whatever their ids, as long as they differ |
| Order.PlaceKeepsOrder | packages/crdt/src/rga.ts:298-312 | an insertion swaps no two ids that are there and lands behind its origin |
| Arrival.ArrivalOrderIrrelevant | packages/crdt/src/rga.ts:286-314 | any two orders of arrival in which every origin comes first weave the same list |
| Arrival.BuiltUnique | packages/crdt/src/rga.ts:286-314 | an origin tree has one list only that the scan can build from it |
| Tree.BuiltExactlyPreOrder | packages/crdt/src/rga.ts:286-314 | for causal ids a list is what the scan builds iff it is the pre-order walk of the origin tree, siblings by descending id |
| Tree.SubtreesStayTogether | packages/crdt/src/rga.ts:286-314 | for causal ids, between a character and one typed after it there are only greater ids |
| Tree.SiblingsDescend | packages/crdt/src/rga.ts:298-312 | for causal ids, of two characters typed after the same one that with the greater id stands first |
| Tree.NonCausalIdsSplitSubtrees | packages/crdt/src/rga.ts:302-305 | an id smaller than its origin's lets the scan leave an unrelated smaller id between a character and the one typed after it |
| Document.StepShrinks | packages/crdt/src/rga.ts:68-106 | a turn of the apply loop either lowers queued plus buffered ops, or keeps their number and shortens the queue, so that the loop ends |
| Delivery.ApplyExact | packages/crdt/src/rga.ts:67-107 | delivering one more op, new or repeated, leaves the replica exactly as the set of delivered ops demands: list, cells, clocks, buffer and counter |
| Delivery.ApplyAllExact | packages/crdt/src/rga.ts:109-111 | the same for every sequence of deliveries |
| Delivery.EffectsAndPendingDisjoint | packages/crdt/src/rga.ts:270-284 | no op is both in effect and buffered |
| Convergence.InListIffChainDelivered | packages/crdt/src/rga.ts:72-87 | an insert is in the list iff the inserts of its whole origin chain were delivered |
| Convergence.BufferedIffSubjectMissing | packages/crdt/src/rga.ts:88-104 | a delivered op is buffered iff the character that it is about is not in the list |
| Convergence.Determined | packages/crdt/src/rga.ts:66-107 | two replicas that were given the same ops have the same order, tombstones, marks, clocks, counter and buffered ops |
| Convergence.StrongConvergence | packages/crdt/src/rga.ts:66-111 | any two delivery sequences with the same set of ops, in any order and with any repetitions, lead to the same document |
| Convergence.ListIsPreOrder | packages/crdt/src/rga.ts:286-314 | after any deliveries of causal ops the list is the pre-order walk of the origin tree |
| Convergence.GreaterNameFirst | packages/crdt/src/rga.ts:298-312 | of two characters typed at the head under one counter, that of the replica with the greater name stands first in every order of delivery |
| Convergence.ReapplyChangesNothing | packages/crdt/src/rga.ts:66-74 | applying an op again that is in effect changes nothing at all |
| Convergence.LastWriterWins | packages/crdt/src/rga.ts:183-199 | a mark of a character is what the format op for it with the greatest id says, whatever came in when and how often |
| Convergence.TypedMarksStay | packages/crdt/src/rga.ts:183-199 | a mark that no format op is about is what the insert said |
| Runs.IdsOfARun | packages/crdt/src/rga.ts:264-268 | along every run of typing, deleting, formatting, deliveries and restarts, ids are unique, greater than the ids they refer to, and refer to issued inserts |
| Runs.RunsConverge | packages/crdt/src/rga.ts:42-111 | in every run, two replicas with the same ops hold the same document and contents, and every list is a pre-order walk |
| Stability.OrderIsStable | packages/crdt/src/rga.ts:56-107 | through any deliveries, edits and compactions no character leaves, revives or changes sides with another, and each stands behind its origin |
| Edits.LocalInsertAgrees | packages/crdt/src/rga.ts:42-54 | typing and applying the returned op do the same iff nothing buffered waits for the new id |
| Edits.LocalDeleteAgrees | packages/crdt/src/rga.ts:57-64 | deleting and applying the returned op do the same |
| Edits.LocalFormatAgrees | packages/crdt/src/rga.ts:162-181 | formatting and applying the returned ops do the same |
| Edits.NextIdIsNew | packages/crdt/src/rga.ts:264-268 | the next id is greater than every id in the list and on every clock |
| Edits.LocalFormatWins | packages/crdt/src/rga.ts:186-199 | a local format op outranks every decision on record |
| Edits.LocalInsertSplices | packages/crdt/src/rga.ts:42-54 | within the text the new attributed character lands exactly at its index; out of range it lands at the front |
| Edits.LocalDeleteRemoves | packages/crdt/src/rga.ts:57-64 | exactly the character at the index disappears, and it throws iff there is none |
| Edits.LocalFormatPatches | packages/crdt/src/rga.ts:162-181 | exactly the requested marks of the characters in range change; text and length stay |
| EditorContents.ContentsShowTheDocument | packages/crdt/src/rga.ts:128-153 | the runs spell out every visible character with exactly its marks and end in a newline; runs are maximal if no character is empty |
| EditorContents.ReadIsTheText | packages/crdt/src/rga.ts:113-153 | the text of a replica is the text of its runs, in order, without the newline |
| Replica.Rga.constructor | packages/crdt/src/rga.ts:38-40 | a new replica represents the empty document |
| Replica.Rga.NextId | packages/crdt/src/rga.ts:264-268 | the counter goes up by one and is paired with the replica's name |
| Replica.Rga.BufferOn | packages/crdt/src/rga.ts:270-277 | the op is queued last under its key and nothing else changes |
| Replica.Rga.TakeBuffered | packages/crdt/src/rga.ts:279-284 | everything under the key is handed out in order and removed |
| Replica.Rga.FindGap | packages/crdt/src/rga.ts:298-305 | walking the pointers stops exactly where the scan on the abstract list stops |
| Replica.Rga.LinkIn | packages/crdt/src/rga.ts:307-312 | relinking two pointers inserts the node at that position of the abstract list |
| Replica.Rga.Integrate | packages/crdt/src/rga.ts:287-314 | the heap then represents the list with the new id placed by the scan |
| Replica.Rga.ApplyFormatOp | packages/crdt/src/rga.ts:186-199 | one node's marks and clock become the abstract last-writer-wins decision, all other nodes keep theirs |
| Replica.Rga.Apply | packages/crdt/src/rga.ts:67-107 | the loop terminates and leaves the heap in the state that the drained queue leads to |
| Replica.Rga.ApplyAll | packages/crdt/src/rga.ts:109-111 | the ops take effect one after the other |
| Replica.Rga.FindNodeAtPosition | packages/crdt/src/rga.ts:316-334 | the node found is the one with that index among the visible ids; none outside the range |
| Replica.Rga.Read | packages/crdt/src/rga.ts:114-124 | the loop returns the text of the visible characters in list order |
| Replica.Rga.GetContentsForEditor | packages/crdt/src/rga.ts:128-153 | the loop returns the coalesced runs of the abstract document |
| Replica.Rga.LocalInsert | packages/crdt/src/rga.ts:42-54 | the op is anchored at the left neighbour of the index, and the heap represents the list with it |
| Replica.Rga.LocalDelete | packages/crdt/src/rga.ts:57-64 | the node at the index is marked and named by the op, or nothing happens and the exception is reported |
| Replica.Rga.LocalFormat | packages/crdt/src/rga.ts:162-181 | one op with a fresh id per character in range and mark, each in effect at once, stopping at the end of the text |
| Replica.Rga.ToSnapshot | packages/crdt/src/rga.ts:201-216 | the listing has every node of the list in order with its whole cell |
| Replica.Rga.FromSnapshot | packages/crdt/src/rga.ts:219-249 | relinking the listing gives its list and index, an empty buffer, and the greatest counter among node and clock ids |
| Replica.Rga.CompactTombstones | packages/crdt/src/rga.ts:252-262 | every tombstone keeps its id and origin and loses value, marks and clock; everything else stays |
| Snapshots.ResumeIsIdentity | packages/crdt/src/rga.ts:201-249 | a snapshot restores the very same replica iff nothing was buffered and the counter is witnessed by an id that is still there; the counter never grows |
| Snapshots.ResumeExact | packages/crdt/src/rga.ts:218-249 | an uncompacted replica resumes with the exact counter, as one that was given all but the buffered ops |
| Snapshots.CompactionIsInvisible | packages/crdt/src/rga.ts:251-262 | compacting at any moments of any later life changes no emitted op, no text and no contents |
| Snapshots.PayloadIsErased | packages/crdt/src/rga.ts:251-262 | documents that differ only in what their tombstones carried have one and the same compacted snapshot, in which tombstones carry nothing |
| Snapshots.CompactedSnapshotReissuesAnId | packages/crdt/src/rga.ts:218-262 | a replica restored from a compacted snapshot can give out an id that was in use |
| Snapshots.HoldsDetermines | packages/crdt/src/rga.ts:252-262 | documents given the same ops look the same even if some were compacted |
| Snapshots.HoldsSnapshot | packages/crdt/src/rga.ts:201-249 | a snapshot of any replica, compacted or not, shows all ops but those buffered when it was taken |
| IdReuse.IdComesBackIff | packages/crdt/src/rga.ts:264-268 | through whatever it receives and types, a replica can give out an id iff the id carries its name and is above its counter |
| IdReuse.NoIdComesBackIff | packages/crdt/src/rga.ts:218-249 | for a replica given some ops, compacted or not, no id of its own among them comes back iff its counter reaches those of its own that are buffered or format deleted characters |
| IdReuse.UncompactedBufferDecides | packages/crdt/src/rga.ts:218-249 | without compaction the buffered ops alone decide that |
| IdReuse.CompactedSnapshotIff | packages/crdt/src/rga.ts:201-262 | no id of any replica that a compacted snapshot has seen comes back after a restore iff the counter is witnessed by an id in the list or on the clock of a living character |
| FreshIds.CoveredIff | packages/crdt/src/rga.ts:218-249 | the ids of a replica are covered, up to format ops on deleted characters, iff those of its buffered ops are |
| FreshIds.EditsSettle | packages/crdt/src/rga.ts:42-54 | edits equal the delivery of their ops as long as these are coherent with all that was issued, and keep the document exactly what its ops amount to |
| FreshIds.EditsCover | packages/crdt/src/rga.ts:264-268 | if the ids of a replica's own ops are covered, no insert and no decision about a mark that its edits issue shares its id with another op, and the ids stay covered |
| Keys.KeysAreInjective | packages/crdt/src/opId.ts:19-21 | two ids with the same key are the same id, whatever characters the replica names contain |
| Keys.KeyRoundTrip | packages/crdt/src/opId.ts:19-29 | a key reads back as its id iff the replica name contains no '@' |
| Keys.SameKey | packages/crdt/src/op.ts:33-39 | two ops have one key iff they go by one id, a delete by that of its target |
| SqlRows.RowRoundTrip | apps/server/src/persistence/PrismaPersistenceStore.ts:25-90 | a stored op reads back as itself iff no replica name in it contains an '@' |
| SqlRows.ReadBatches | apps/server/src/persistence/PrismaPersistenceStore.ts:93-105 | reading rows back gives maximal batches of exactly the ops in the rows |
| Batches.GroupBySeq | apps/server/src/persistence/InMemoryPersistenceStore.ts:21-32 | the loop cuts the rows into non-empty batches, neighbours with different numbers, that list the same rows again |
| Batches.GroupingIsUnique | apps/server/src/persistence/InMemoryPersistenceStore.ts:20-32 | there is only one such grouping |
| Batches.AscendingRowsMakeIncreasingBatches | apps/server/src/persistence/InMemoryPersistenceStore.ts:20-32 | rows in ascending order give batches with strictly increasing numbers |
| Batches.FlattenRows | apps/server/src/room.ts:27-28 | flattening the batches gives the ops of the rows in order |
| Stores.InMemoryPersistenceStore.Load | apps/server/src/persistence/InMemoryPersistenceStore.ts:38-48 | the snapshot, its number, the grouped rows and the latest number of the document; an unknown document is empty |
| Stores.InMemoryPersistenceStore.AppendOps | apps/server/src/persistence/InMemoryPersistenceStore.ts:50-64 | the ops whose keys are free become rows, the latest number is raised, other documents stay |
| Stores.InMemoryPersistenceStore.WriteSnapshot | apps/server/src/persistence/InMemoryPersistenceStore.ts:66-76 | the snapshot replaces the old one and the rows up to its number go, while their keys stay taken |
| Stores.LoadIsDetermined | apps/server/src/persistence/InMemoryPersistenceStore.ts:38-48 | a stored document has one load result only |
| Stores.SaveKeeps | apps/server/src/persistence/InMemoryPersistenceStore.ts:58-63 | an op is in the rows afterwards iff its key was free or it was there before |
| Stores.SaveAllKeeps | apps/server/src/persistence/InMemoryPersistenceStore.ts:50-64 | appending loses no row, takes all keys of the batch, and drops an op only if another holds its key |
| Databases.LoadFromPostgres | apps/server/src/persistence/PrismaPersistenceStore.ts:116-152 | the rows above the snapshot are read in order of number and grouped; the result is what was stored iff the document has no entry or no replica name in those rows contains an '@' |
| Databases.LoadsOnce | apps/server/src/persistence/PrismaPersistenceStore.ts:135-152 | a stored document has one load result in either store, and from Postgres its batches have strictly increasing numbers |
| Databases.SortedIsStable | apps/server/src/persistence/PrismaPersistenceStore.ts:140-143 | rows under one number are read in the order in which they came in |
| Databases.StoringReads | apps/server/src/persistence/PrismaPersistenceStore.ts:155-183 | appending loses no row that can be read, and adds only ops of the batch under its number |
| Databases.StoringReaches | apps/server/src/persistence/PrismaPersistenceStore.ts:155-183 | an appended op whose key is free can be read then if its number is above the snapshot's |
| Databases.WritingReads | apps/server/src/persistence/PrismaPersistenceStore.ts:185-199 | storing a snapshot leaves exactly the readable rows above its number |
| Databases.StoredAfterCoverIff | apps/server/src/persistence/PrismaPersistenceStore.ts:185-199 | an op appended after a snapshot is in the rows iff it is in one that is left or its key is free: never used in memory, in no row that is left in Postgres |
| Databases.SnapshotIsSentIff | apps/server/src/persistence/PrismaPersistenceStore.ts:185-199 | after loading, every replica below the snapshot's number is sent the snapshot iff the document's number is not below it |
| Databases.LateAppendWithholdsTheSnapshot | apps/server/src/persistence/PrismaPersistenceStore.ts:185-199 | with the last batch not appended, a replica at the document's number is told that it lacks nothing although the loaded snapshot has more |
| Rooms.OpsSinceIsTheRest | apps/server/src/room.ts:37-45 | the answer and what has a number up to the asked one make up all that the room was fed; there is none iff the number is below both floor and room |
| Rooms.CatchUp | apps/server/src/room.ts:36-45 | a replica with everything up to its number shows the room's document after the answer, or after the snapshot when there is no answer |
| Rooms.LifeServes | apps/server/src/room.ts:36-102 | through any batches with numbers that never go down, snapshots and compactions a room shows what it was given and logs everything above its floor |
| Rooms.CatchUpAnyTime | apps/server/src/room.ts:36-45 | so at any moment of the life of a room a replica with everything up to its number catches up |
| Rooms.LogIsComplete | apps/server/src/room.ts:81-97 | the log holds every batch above the floor |
| Rooms.FeedServes | apps/server/src/room.ts:81-86 | a batch with no smaller number keeps the room's document, log and bound exact |
| Rooms.RaiseFloorServes | apps/server/src/room.ts:93-97 | raising the floor keeps the log complete above it |
| Rooms.CountsSinceSnapshot | apps/server/src/room.ts:81-97 | through any life the count that decides when a snapshot is due is that of the ops that came in after the last one |
| Rooms.HydratedServes | apps/server/src/room.ts:24-34 | a rebuilt room shows what its snapshot shows and the batches, and logs them |
| Rooms.AnswersAreCompleteIff | apps/server/src/room.ts:36-45 | all answers from the floor up are complete iff no op was fed under a number above the room's |
| Rooms.SmallerNumberHidesABatch | apps/server/src/room.ts:81-86 | after batches under 2 and 1, a replica at 1 is told that it lacks nothing, although it lacks the first |
| ServerRoom.Room.Hydrate | apps/server/src/room.ts:24-34 | the object is the rebuilt room of the specification, without sockets |
| ServerRoom.Room.GetOpsSince | apps/server/src/room.ts:37-45 | the loop returns the specified answer |
| ServerRoom.Room.Join | apps/server/src/room.ts:48-52 | the socket is registered, the one it replaces is returned, the document is untouched |
| ServerRoom.Room.Leave | apps/server/src/room.ts:55-58 | a replaced socket that closes late does not evict its successor |
| ServerRoom.Room.ApplyOps | apps/server/src/room.ts:81-86 | the ops are applied, logged as one batch and counted, and the number is adopted |
| ServerRoom.Room.AdvanceCoverageFloor | apps/server/src/room.ts:93-97 | floor, log and count after a durable snapshot |
| ServerRoom.Room.CompactTombstones | apps/server/src/room.ts:100-102 | every tombstone of the room's document is emptied, and nothing else changes |
| ServerRoom.Room.Snapshot | apps/server/src/room.ts:76-78 | the listing of the room's document |
| ServerRoom.Room.SendTo | apps/server/src/room.ts:104-109 | an open socket of that replica gets the message, nobody else does |
| ServerRoom.Room.Broadcast | apps/server/src/room.ts:111-119 | each open socket but the sender's gets the message once, each other socket gets nothing |
| Recovery.RecoveryIsExact | apps/server/src/roomManager.ts:75-107 | at any moment of any run on either store a fresh process shows exactly what the stored snapshot shows and the rows that it reads hold, never more than the crashed one was given, even if batches are appended after the snapshot that covers them |
| Recovery.DurableIsRecovered | apps/server/src/roomManager.ts:206-208 | on either store an op that was appended or covered is shown by a fresh process unless it was buffered when a snapshot was taken or another durable op has its key |
| Recovery.NothingDurableIsLost | apps/server/src/room.ts:24-34 | on either store, with one op per key and no buffered ops when snapshots are taken, it shows exactly the ops that were appended or covered by a snapshot |
| Recovery.DeleteIsNeverStored | apps/server/src/persistence/InMemoryPersistenceStore.ts:58-63 | while the key of an insert is taken, appending its delete adds no row; in memory it stays taken |
| Recovery.DeletedTextComesBack | apps/server/src/persistence/InMemoryPersistenceStore.ts:50-64 | text that was typed, deleted and appended is visible again after loading |
| Recovery.ReissuedInsertIsNeverStored | apps/server/src/persistence/InMemoryPersistenceStore.ts:58-73 | an insert under an id that comes back from a compacted snapshot adds no row to the store in memory, so it is gone after a crash |
| Histories.AnswerIsComplete | apps/server/src/room.ts:37-45 | the answer to a client and the batches up to its number make up everything the server has |
| Histories.RebuiltAnswers | apps/server/src/room.ts:24-34 | a room rebuilt from the rows and the snapshot of either store answers as completely for what could be recovered, although the store keeps every op under one number only |
| Histories.ServerTraced | apps/server/src/roomManager.ts:326-337 | appends, snapshots, cuts of the log and crashes keep room, log, rows and snapshot in step with the history |
| PubSub.InMemoryBroker.Publish | apps/server/src/pubsub/InMemoryPubSubBus.ts:7-11 | every handler of the channel is called once with the message, and no other |
| PubSub.InMemoryBroker.Subscribe | apps/server/src/pubsub/InMemoryPubSubBus.ts:13-20 | the handler joins those of its channel |
| PubSub.InMemoryPubSubBus.Subscribe | apps/server/src/pubsub/InMemoryPubSubBus.ts:39-42 | a bus remembers one handler per channel and passes it on |
| PubSub.InMemoryPubSubBus.Unsubscribe | apps/server/src/pubsub/InMemoryPubSubBus.ts:44-50 | a bus takes back its own handler and disturbs no other subscription |
| PubSub.InMemorySeqCounter.Next | apps/server/src/seq/InMemorySeqAllocator.ts:7-11 | each call gives the next number of its document and disturbs no other document |
| RoomManagement.RoomManager.GetOrCreateRoom | apps/server/src/roomManager.ts:75-126 | the room in memory, or the one rebuilt from the stored document and subscribed to both channels; if loading or subscribing fails there is no room, and a first subscription stays if the second fails |
| RoomManagement.RoomManager.Follow | apps/server/src/roomManager.ts:109-116 | the process hears the document's channel and then its presence channel, and no other subscription changes |
| RoomManagement.ChannelsAreApart | apps/server/src/roomManager.ts:43-49 | no two documents share a channel, and batches and presence do not either |
| RoomManagement.RoomManager.Join | apps/server/src/roomManager.ts:129-154 | the socket is registered, the open one that it replaces is closed, and the reply is the specified sync or snapshot |
| RoomManagement.RoomManager.ApplyBatch | apps/server/src/roomManager.ts:168-219 | with a number the batch is applied, broadcast to all but its sender and published, and the sender hears whether it was stored; without a number nothing happens, to the counter and the broker neither, but for an error to the sender |
| RoomManagement.RoomManager.ApplyNumbered | apps/server/src/roomManager.ts:186-218 | applied and broadcast, published to every handler of the channel, stored; the sender's open socket gets one acknowledgement of exactly the batch if it was stored and one error if not, and whatever is acknowledged has its keys in the store |
| RoomManagement.RoomManager.ApplyClientOp | apps/server/src/roomManager.ts:168-219 | the same for the room that was found or loaded; without a room nothing is applied, sent, published or stored |
| RoomManagement.RoomManager.HandleRemoteOp | apps/server/src/roomManager.ts:274-306 | its own echo changes nothing and tells nobody, without a room nothing happens; any other batch is applied, broadcast to all and stored |
| RoomManagement.RoomManager.BeginSnapshot | apps/server/src/roomManager.ts:331-333 | the room is compacted and listed under its number |
| RoomManagement.RoomManager.EndSnapshot | apps/server/src/roomManager.ts:334-335 | the listing is stored and the log cut at its number; batches that came in since stay |
| RoomManagement.RoomManager.SnapshotRoom | apps/server/src/roomManager.ts:326-337 | with nothing in between, the compacted document is stored under the room's number and the log is cut there |
| Fanout.AppliedExactlyOnce | apps/server/src/roomManager.ts:274-284 | no process applies a published batch twice, and each has applied it unless it is still on its way there |
| Fanout.QuietSitesAgree | apps/server/src/roomManager.ts:168-198 | with nothing on its way, every process has applied every published batch and all show the same document, whatever the order of arrival |
| Clients.PutKeepsAllIff | apps/web/src/lib/documentClient.ts:285-290 | queueing an op keeps the whole outbox iff no other op in it has the same key |
| Clients.PutTakesThePlace | apps/web/src/lib/documentClient.ts:285-290 | an op takes the place in the outbox of the one with its key, or comes last |
| Clients.RemoveAllIs | apps/web/src/lib/documentClient.ts:217-224 | an acknowledgement removes exactly the ops that go by its ids |
| Clients.RemoveClosesUp | apps/web/src/lib/documentClient.ts:219-223 | the other ops keep their order when one goes |
| Clients.AckKeepsTheRestIff | apps/web/src/lib/documentClient.ts:217-224 | an acknowledgement leaves everything in the outbox that is not in its batch iff no op of the batch has the key of another one there |
| Clients.DeleteEvictsItsInsert | apps/web/src/lib/documentClient.ts:285-290 | an insert followed by its delete leaves the outbox, which keeps the delete only |
| Clients.AckTakesTheQueuedDelete | apps/web/src/lib/documentClient.ts:217-224 | the acknowledgement of an insert removes its queued delete, so that this is not sent again |
| Clients.ReloadReissuesAnId | apps/web/src/lib/documentClient.ts:98-108 | after a reload with an own op buffered, a later insert can get the id of that op and evict it |
| Clients.ReloadRevivesADelete | apps/web/src/lib/documentClient.ts:98-108 | after typing and deleting offline and a reload, the next character gets the deleted one's id: it shows locally, and nowhere its op is delivered after the delete |
| WebClient.DocumentClient.constructor | apps/web/src/lib/documentClient.ts:88-112 | the replica is the stored record with the stored outbox applied on top, and the number is that of the record |
| WebClient.DocumentClient.OnOpen | apps/web/src/lib/documentClient.ts:123-130 | a new connection asks for what comes after the client's number |
| WebClient.DocumentClient.HandleServerMessage | apps/web/src/lib/documentClient.ts:187-227 | document, outbox, number and stored record after each of the four messages that carry ops or acknowledgements, an error changes none of them; on an open connection a reply to a join makes the client send its whole outbox in one message, and nothing else makes it send |
| WebClient.DocumentClient.PersistDocumentState | apps/web/src/lib/documentClient.ts:253-259 | the record gets the number and the listing of the document |
| WebClient.DocumentClient.ApplyLocalEdits | apps/web/src/lib/documentClient.ts:273-293 | all edits on the replica, then their ops into the outbox, then out in one message on an open connection; if one throws, nothing is queued or sent |
| WebClient.DocumentClient.FlushOutbox | apps/web/src/lib/documentClient.ts:297-301 | an open connection gets the whole outbox in one message, an empty outbox sends nothing |
| Reconnect.ReconnectSafety | apps/web/src/lib/documentClient.ts:53-57 | in every run on either store, crashes included, every created op is in the outbox or durable unless its creator made another op under its key; durable ops are what a fresh server shows, but for key clashes and what was buffered at a snapshot; the client was given all it created and every batch up to its acknowledged number, but for its own clashes and what a record or snapshot that it came to use lacked |
| Reconnect.OutboxOrStored | apps/web/src/lib/documentClient.ts:217-224 | a client whose own ops have distinct keys has each of them in its outbox, or the server appended it or stored it in a snapshot, whatever became of it there |
| Reconnect.UncontestedSurvive | apps/web/src/lib/documentClient.ts:53-57 | in every run each created op is in its creator's outbox or shown by a fresh server, unless it shares its key with another op of any client or was buffered when a snapshot was taken |
| Reconnect.NoOpIsLost | apps/web/src/lib/documentClient.ts:53-57 | if the ops of all clients have distinct keys, each of them is in its creator's outbox or would be shown by a fresh server, whatever was reloaded or crashed, unless it was buffered when a snapshot was taken |
| Reconnect.MessagesCanBeApplied | apps/server/src/roomManager.ts:168-186 | no snapshot that is being written or stored ever stands in the way of numbering a message of a client |
| Progress.ReplyMakesItSend | apps/web/src/lib/documentClient.ts:188-211 | a client that reads the reply to its join has sent its whole outbox |
| Progress.EveryOutboxDrains | apps/web/src/lib/documentClient.ts:297-301 | from every reachable state on either store, a client can reconnect and hand over its outbox: it is empty then, every op of it is durable, and can be recovered unless it was buffered at a snapshot or shares its key; the client has adopted the number of its batch |
| Progress.EveryoneCanRest | apps/web/src/lib/documentClient.ts:53-57 | from every reachable state, without another edit, all clients can be brought to have nothing unread and nothing unacknowledged; all that was created is then durable or shares its key, and each was given all the server has but for what records and snapshots lacked |
| Simulation.ServeOps | apps/server/src/roomManager.ts:168-219 | handling a batch that a client sent leaves room, store and sockets as applying it, storing it and acknowledging it in the protocol does; without the store it is applied and refused, without a number only refused |
| Simulation.BatchIsSession | apps/server/src/roomManager.ts:186-219 | the same of the specified values, step by step |
| Simulation.ServeJoin | apps/server/src/roomManager.ts:129-154 | a join and its reply are the join of the protocol, whatever older socket was registered and closed |
| Simulation.ServeLeave | apps/server/src/roomManager.ts:157-159 | a connection that closes is the disconnect of the protocol, and one that was replaced before is nothing |
| Simulation.ServeSnapshot | apps/server/src/roomManager.ts:326-337 | a snapshot is taken and stored and the log cut as in the protocol |
| Simulation.EndIsSession | apps/server/src/roomManager.ts:334-335 | storing a snapshot that was taken earlier and cutting the log at its number, with anything in between, are steps of the protocol |
| Simulation.ServeStart | apps/server/src/roomManager.ts:75-126 | a process without the room that loads it serves the net after a crash |
| ClientSimulation.EditText | apps/web/src/lib/documentClient.ts:273-293 | edits that throw nothing are the edit of the protocol, and what is written was sent there |
| ClientSimulation.ReadMessage | apps/web/src/lib/documentClient.ts:187-227 | reading the next message is the receive of the protocol, and the client sends what the protocol sends |
| ClientSimulation.Open | apps/web/src/lib/documentClient.ts:123-130 | an open connection is the connect of the protocol |
| ClientSimulation.Close | apps/web/src/lib/documentClient.ts:136-144 | a closed one is the disconnect |
| ClientSimulation.LoadAgain | apps/web/src/lib/documentClient.ts:88-112 | a new client object from record and outbox is the reload of the protocol |
| Session.AckedIsDurable | apps/web/src/lib/documentClient.ts:217-224 | an acknowledgement takes out of the outbox only ops that are durable or share their key with one |
| Session.CrashStepInv | apps/server/src/roomManager.ts:75-107 | a crash and the rebuild from the store leave every client safe with respect to what could be recovered |
| Session.AnsweredInv | apps/server/src/roomManager.ts:129-154 | the reply to a join, followed by what is broadcast later, brings a client every batch that it lacks |
| Session.ReceivedInv | apps/web/src/lib/documentClient.ts:187-228 | no message, in whatever order acknowledgements come, makes a client unsafe, in memory or on disk |
| Session.RestartedInv | apps/web/src/lib/documentClient.ts:88-112 | a reload keeps a client safe, in whatever order its outbox is listed |
| Settlement.CleanRunsSettle | apps/server/src/roomManager.ts:129-219 | if the own ids of a client are covered whenever it is reloaded or gets a snapshot, no insert and no decision about a mark shares its id with another, every document is what the ops given to it amount to, through compactions and crashes of the server, and a client that is done shows the server's document |
| Settlement.CleanIff | apps/web/src/lib/documentClient.ts:98-108 | for a client that has all it created, its ids are covered after a restart iff the own ops in its buffer are within reach of its counter |
| Settlement.SteadyRunsSettle | apps/server/src/roomManager.ts:129-219 | if edits are coherent with what was issued, and a client that restarts was given its own ops or covers their ids, every document is what the ops given to it amount to, and a client that is done shows the server's document |
| Lossless.NothingIsLost | apps/web/src/lib/documentClient.ts:53-57 | if the ops of each client have distinct keys, nothing is buffered when records and snapshots are written or sent, and the server does not crash or keys are distinct over all clients, then every created op is in its creator's outbox or at the server, every client has all it created and every batch up to its number, its document is what these amount to, and a client without messages and unacknowledged ops shows the server's document once that has all that was ever applied |
| Lossless.EverythingIsRecoverable | apps/server/src/roomManager.ts:206-208 | with distinct keys over all clients and such empty buffers, every created op is in its creator's outbox or shown by a fresh server, at any moment |
| Uniqueness.StrictIff | packages/crdt/src/rga.ts:264-268 | a restart is strict iff none of the ids the client gave out can come back after it |
| Uniqueness.NoIdIsIssuedTwice | packages/crdt/src/rga.ts:264-268 | if every restart of a client is strict, no two ops of any clients share an id, and only a delete shares the key of another op |
| Editor.ToFormatMark | apps/web/src/lib/deltaToEdits.ts:34-41 | exactly the attributes that are true |
| Editor.PatchRestyles | apps/web/src/lib/deltaToEdits.ts:45-53 | patching the marks entry by entry does what the editor does with the attributes, boolean marks only |
| Editor.DeltaToEdits | apps/web/src/lib/deltaToEdits.ts:55-92 | the loops emit the specified edits, the cursor included, for every kind of entry |
| Editor.ApplyEditsShow | apps/web/src/lib/documentClient.ts:273-284 | for any edits the visible characters change as the edits say, and a throw comes iff a delete has no character |
| Editor.TranslationPreservesMeaning | apps/web/src/lib/deltaToEdits.ts:55-92 | an in-bounds delta never throws and leaves exactly the characters and marks that retain, insert and delete mean |

## Left out

- Editor.TranslationPreservesMeaning: deltas without embeds and within the text; for all other edits `Editor.ApplyEditsShow` says what happens.
- Editor.DeltaToEdits: characters are UTF-16 units, so a character outside the basic plane is not modelled; attribute values are true, false, null or anything else.
- Keys.KeyRoundTrip: of the numerals that JavaScript reads as numbers only decimal digits and the empty string are modelled; keys contain no others.
- SqlRows.RowRoundTrip: an id with a NaN counter is modelled as no op at all.
- RoomManagement.RoomManager.ApplyNumbered: a failing counter, broker or store is a parameter, and the store object is the one in memory; of the one in Postgres there are functions on what a document has stored (`Databases`), not the class and its transactions.
- RoomManagement.RoomManager.GetOrCreateRoom: presence messages are not modelled, only the subscription to their channel.
- Recovery.ReissuedInsertIsNeverStored: holds of the store in memory; `writeSnapshot` of the one in Postgres deletes rows and frees their keys (apps/server/src/persistence/PrismaPersistenceStore.ts:185-199).
- Recovery.RecoveryIsExact: appends that are under way at a crash are lost; while a snapshot is being written no batch arrives under a number that it covers, as in one process, and no second snapshot is written. With Postgres no batch arrives later under such a number either, a snapshot is stored only after the batch under its number or a later one (for what happens otherwise see `Databases.SnapshotIsSentIff`), and rows read back as they were written (`Databases.LoadFromPostgres` has when).
- Reconnect.MessagesCanBeApplied: message parsing and the check that a client has joined are not modelled; the server rejects an op message without ops, as an edit that formats nothing sends, and one that comes before the join (packages/protocol/src/messages.ts:37, apps/server/src/server.ts:111).
- Reconnect.ReconnectSafety: one server process that numbers batches without gaps, with a counter that survives crashes; a client has one live connection, and its writes to the browser's database are done before the next reload. An edit batch that throws is not part of a run; in-bounds deltas never throw.
- Session.AnsweredInv: joining is one step, so the reply is the first message on a new connection; in the server the socket is registered shortly before the reply is written.
- Simulation.ServeOps: the room is in memory and the store is the one in memory; batches of other processes (`HandleRemoteOp`) have no step in the protocol, which has one process.
- Progress.EveryoneCanRest: says that rest can be reached, not that it will be; no scheduler is modelled.
- Fanout.AppliedExactlyOnce: all processes are subscribed before the first batch, and the broker loses nothing. A process that publishes and fails in between is not modelled.
- PubSub.InMemoryBroker.Publish: handlers are identified by numbers and their calls are recorded, not nested.
- The op messages' limit of 2000 ops, message parsing and the shape checks of the protocol package.
- Presence, heartbeats, expiry sweeps, idle eviction timers, backoff, logging, configuration and rendering.
- Sockets, Express, Redis, Postgres and IndexedDB themselves; the races inside room creation between load and subscription.
- Catch-up by number across several processes, where numbers of a room can go back: only agreement of documents is claimed there.
- Mark names that are properties of every JavaScript object, counters beyond 2^53, two tabs with one replica name.
