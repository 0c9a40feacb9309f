# Bionic-graph: a verified model of its storage engine, query core and replication

The repository is a graph database: a block store with an in-memory index, a redo log, a Gremlin-style query
engine, and a master that broadcasts writes to workers. This project models the state machines at its core in
Dafny and proves what each of them is for. `dafny verify dfyconfig.toml` verifies everything.

## What is modelled

**Spreading activation** (`SpreadingActivation.dfy`, `BreadthFirst.dfy`, `ScoreRanking.dfy`, `TraverseStep.dfy`). The `traverse`
step is a FIFO relaxation loop that re-inserts a vertex whenever its score improves. Two specifications are independent of the loop.
Its scores are the maximum, over all walks from a seed that are short enough and stay active at every hop, of the product of decay and
edge strength. What it records is the sequence of running maxima of all these walks in breadth-first order, although the loop goes on
from improving walks only. The loop terminates because the queue is layered by depth. The ranked list is sorted by score, and the first
item of each vertex carries its best score; but `dedup_by_key` removes only *adjacent* repeats, although the code calls the step a
dedup. Each vertex is listed once exactly when among the running maxima no item of another vertex is ranked between two items of one
vertex. That fails whenever equal seeds do not stand together, as for two edges of one vertex that are piped in, and can fail for
distinct seeds, which a run of the loop on a concrete graph shows. When equal seeds do stand together it holds if the depth limit is 0,
or if all edges multiply the score by the same factor of at most 1, as they do by default.

**The `out` step** (`OutSearch.dfy`). The search pops from the end of its frontier, so it runs depth first with a
depth counter that suits breadth first. It is sound for every depth limit; it is complete on every graph exactly
for the limits 0, 1 and 2, and for a given graph as soon as the limit reaches the number of reachable vertices.

**Broadcast queue and workers** (`QueueProtocol.dfy`, `BroadcastQueue.dfy`, `GraphModel.dfy`, `EntityRuns.dfy`,
`RepeatedCreates.dfy`, `WorkerReplay.dfy`, `Replication.dfy`, `Convergence.dfy`). The queue keeps files per worker, rolls over at a
limit, retries when no answer below 500 comes back, and after a restart resumes at a file boundary, so it falls back by at most the
limit. Each operation of the queue is one step of a five-event protocol; over all runs of the protocol the delivered positions are an
initial segment, nothing undelivered is removed, and without a restart entries are answered once and in order, and repeated only while
an answer is missing. A worker therefore carries out operations more than once. The law that mostly makes this harmless is that an
operation carried out ahead of its turn leaves no trace once its turn comes. For every log of a master, every file limit and every
worker it is proved exactly when all runs of the queue that drain the log end with the worker equal to the master and without an
operation that stopped half way: no self-loop is created on a vertex less than the limit after a hard delete of it, and every edge create
is on the right side of a border that looks back no further than the limit. If edge ids keep their end points the border reads: when
the last delete within the limit to hit the id of a new edge is a soft delete of an end point, some later operation updates or deletes
the edge or deletes an end point. The proof gives the diverging runs step by step: the consumer catches up, one file takes the next
entries, they are delivered, and a restart delivers them again. With one entry per file every log converges.
Three short logs show what happens beyond these conditions: soft-deleting a vertex, reviving it and linking it; using an edge id again
with other end points; and a self-loop on a vertex that was hard-deleted before. The second needs no client-chosen ids: a graph is
opened with the greatest edge id plus one (`src/graph/graph.rs:285-300`), so hard-deleting an end point of the newest edge and reopening
gives its id out again, while the queue files survive. (When the newest edge itself was hard-deleted, the border holds: that delete
removes the new edge as well.) A stopped delete need not leave a difference: the third log ends in the master's state all the same, while
a renamed vertex that is hard-deleted, created again and linked to itself keeps its old name.

**Block cache** (`BlockCache.dfy`). A sharded write-back cache with an LRU list and dirty flags refines a flat map
from block numbers to contents, with loads and flushes that may fail at any point.

**Record store** (`Bytes.dfy`, `ChunkAllocator.dfy`, `RecordLayout.dfy`, `RecordBlock.dfy`, `BlockAllocation.dfy`,
`RecordStore.dfy`). A block's bitmap is exactly the disjoint union of its records' extents through writes, frees, header updates and
copy-on-write updates, so the start-up scan lands on record starts only and reads back what was written. In a file of
many blocks the free list chooses the block; it is treated as advisory: choosing terminates and is safe whatever the list holds, only
blocks without room for two chunks stay marked full, also when records are released, an update may move a record to another block, and
every other record stays.
The allocator's comment says that everything behind the cursor is free. After the cursor wrapped to 0 it is not: the allocation then
looks at the first run of the block only, and two records that fill a block, one of them freed, make it refuse two chunks beside 253
free ones.

**Redo log** (`RedoLog.dfy`, `LogWriter.dfy`). The frame format with an arbitrary checksum, replay of torn and
of arbitrary files, and the writer with batching, rotation, renewal and close. The writer's flush
handler is the flush of the graph's block cache: whenever a log file was deleted, the data file holds all that the cache shows.
An entry of more than 1 MiB can be written but not read back: replay stops there, so the log is inverted exactly when no
entry is larger.

**Recovery** (`Recovery.dfy`, `GraphRefinement.dfy`, `LoggedGraph.dfy`). A running graph emits one log entry
per changed record. Its operations do to its records what the replicated model says, the cascade of a vertex delete over outgoing and
then incoming edges included: it stops half way exactly on a hard delete of a vertex with a self-loop, which it lists twice. A soft
delete is logged like a hard one, so replay rebuilds the live view, not the soft-deleted records. Start-up fails
exactly when the log updates a record after that record's own logged delete, which a running graph allows because an update brings
a soft-deleted record back. The next id is fresh after recovery exactly when no surviving id exceeds both the last created id and all
ids updated after that create; creates with given ids can violate this.
A rotation is different (`StaleReplay.dfy`, `ReplayedFile.dfy`, `RotationRecovery.dfy`): an operation changes its records before it
appends its entry, so when the flush of an entry, or of an import's batch, makes the log rotate, the data file holds these changes already
and the new log repeats them. A replayed update raises a rank once more. A replayed edge create writes a second record, and the first one's
adjacency entries stay listed to the end of the start: a replayed delete of an end point cascades over them, ends half way where the edge
is gone, and leaves the vertex; or it deletes the edge that has the id by then. The replay is followed exactly for every run and
every order of the lists, through such deletes and beyond. When the cascades are in the log as a whole, a start that succeeds
shows the running graph's live records wherever the log ends, up to ranks raised again, exactly if the first entry is not an edge create
or no later entry deletes one of its end points while that vertex, or the edge again, is live. After a batch the same holds for every edge
it created, as far as live vertices are deleted. If the rotation cuts a cascade, a self-loop deleted before it brings the vertex back.
The record that a replayed create left behind stays in the file: deleted afterwards, the vertex or edge is back after two starts.

**Time travel** (`TimeTravel.dfy`). History-recording updates keep the newest superseded versions, and a read as of a time
is characterised for every time. A soft delete or a metadata edit moves the modification time that also stamps the current
version, a metadata edit to any time; which reads are right afterwards, and what the others find, is proved for every moved stamp.

**Indexes** (`MemoryIndex.dfy`, `RankQuery.dfy`, `TokenIndex.dfy`). Id, rank and adjacency indexes hold the current
pointers of the records and nothing else, through every operation; the top-ranked query and the prefix search
are proved against their plain meaning. A metadata edit of a soft-deleted record lists it again in the rank index.

**Query look-ahead** (`QueryRewrite.dfy`). `V` followed by `has` or `hasNot` reads the property index. The rewritten
query gives the same list exactly when the index answers for every vertex that is not deleted. Creates and hard deletes keep the
index in agreement with the records. An update re-indexes under the old pointer if it carries properties and not at all otherwise, and
moves the record; either way agreement survives exactly when the record has nothing indexable afterwards.

**Token references** (`TokenRefs.dfy`). Segments on disk, split at a payload limit, plus a buffer: references are
conserved, and batching stores the same multiset as immediate writes.

**Graph synchronisation** (`GraphSync.dfy`). The commands a master computes from a worker's graph list make the
worker's graphs, descriptions, configurations and default the master's, and computing again then sends nothing.

`Options.dfy`, `Numbers.dfy`, `Sequences.dfy` and `Sets.dfy` hold shared definitions.

## Assumptions

Scores, decay and strengths are reals, not floats. Queue appends are atomic, file stamps increase, removing a spent queue file succeeds,
and the file limit stays the same over restarts. Serialization
is an injective encoding with an inverse; the checksum is any function. A failed load or flush leaves the disk block
it concerns as it was. Time stamps of successive updates of one record do not decrease. Ids stay below their 32-bit limit.
An answered delivery is taken as carried out. The worker's handler answers 200 even when the call it proxies fails with 500 or 502
(`src/cluster/server.rs:194-205`); such an entry is counted as delivered although the worker did not carry it out, and
convergence is not claimed for it. A hard delete that stopped half way on the master itself is answered with an error and not queued.

## Model

| member | source | states |
|---|---|---|
| TraverseStep.Traverse | src/graph/gremlin.rs:1472-1690 | Terminates for non-negative decay and strengths; every vertex's score is the maximum over active walks within the depth limit, 0 if none; the results are recorded as the running maxima of these walks; the ranked list descends, holds seeds with 1 and scores of active walks that reach the minimum, and a vertex's first item is its best; it names each vertex once iff nothing is ranked between two running maxima of one vertex; the listed vertices are those of the ranked ones that have a record; an edge is reported iff it can be crossed, both ends reach the minimum score and it has a record |
| SpreadingActivation.Activate | src/graph/gremlin.rs:1551-1640 | The relaxation loop ends with exactly the best scores and exactly the crossable edges; the recorded results are the seeds and then scores of active walks that rise for every vertex |
| SpreadingActivation.WalkIsCovered | src/graph/gremlin.rs:1554-1640 | Once every queue entry is processed, each active walk is dominated by an entry at its end that is no deeper and scores no less |
| SpreadingActivation.ProcessedIsBest | src/graph/gremlin.rs:1574-1580 | A finished frontier makes the recorded score of every vertex the maximum over walks |
| SpreadingActivation.ProcessedCrossesAll | src/graph/gremlin.rs:1562-1571 | A finished frontier has crossed every edge that some active walk with depth left can take |
| SpreadingActivation.TurnKeeps | src/graph/gremlin.rs:1555-1639 | Popping one entry and spreading it over both adjacency lists keeps all invariants and the layers of the queue, loses nothing recorded, and finishes the entry |
| SpreadingActivation.Loop | src/graph/gremlin.rs:1541-1640 | The loop terminates, and its states are turn by turn those of the run from the seeds until the queue is exhausted |
| SpreadingActivation.RunKeeps | src/graph/gremlin.rs:1552-1640 | In every state of a run the invariants hold and all entries popped so far are finished |
| TraverseStep.RankedFirst | src/graph/gremlin.rs:1647-1649 | After the descending sort and the adjacent dedup the first item of each vertex has its best score if that reaches the minimum, a seed otherwise keeps 1, and other vertices are absent |
| ScoreRanking.SortIsSortedPermutation | src/graph/gremlin.rs:1648 | The stable sort gives a descending permutation |
| ScoreRanking.SortOrder | src/graph/gremlin.rs:1648 | The sort is stable: the sorted list reads the input by falling score and, for equal scores, in the order of recording |
| ScoreRanking.EachOnceIff | src/graph/gremlin.rs:1647-1649 | Sorting and removing adjacent repeats names each vertex once iff no item of another vertex is ranked between two items of one vertex |
| ScoreRanking.RankedDescends | src/graph/gremlin.rs:1647-1649 | The deduplicated list still descends and holds recorded items only |
| ScoreRanking.DedupKeepsFirst | src/graph/gremlin.rs:1649 | Dropping adjacent repeats never drops the first item of a vertex |
| ScoreRanking.DedupUniqueIffGrouped | src/graph/gremlin.rs:1647-1649 | The deduplicated list is free of repeats iff the items of each vertex were contiguous |
| ScoreRanking.EachOnceWhen | src/graph/gremlin.rs:1647-1649 | Of results that start with the seeds and rise for every vertex, the ranked list names each vertex once only if equal seeds stand together, and if so whenever no score lies between two scores of another vertex |
| BreadthFirst.RecordsAreMaxima | src/graph/gremlin.rs:1541-1640 | The loop, which goes on from improving walks only, records exactly the running maxima of all active walks within the depth limit in breadth-first order |
| BreadthFirst.WalksAreActive | src/graph/gremlin.rs:1554-1640 | The breadth-first list holds exactly the active walks of at most the given length |
| BreadthFirst.Prune | src/graph/gremlin.rs:1574-1580 | Going on from the improving walks of a list gives the same maxima as going on from all of them |
| BreadthFirst.ListsEachOnceIff | src/graph/gremlin.rs:1541-1649 | For every graph, seeds and parameters: each vertex is listed once iff among the running maxima of the active walks nothing is ranked between two scores of one vertex |
| TraverseStep.ListsEachOnceWhen | src/graph/gremlin.rs:1541-1649 | Conditions that need no list of walks: equal seeds together is necessary; with depth limit 0 it is exact, and it suffices if no score of an active walk lies between two scores of another vertex |
| TraverseStep.UniformListsEachOnceIff | src/graph/gremlin.rs:1541-1649 | When every edge multiplies the score by the same factor of at most 1, each vertex is listed once iff equal seeds stand together, for every depth limit, threshold and minimum |
| TraverseStep.TraverseSeedsApart | src/graph/gremlin.rs:1483-1690 | Whatever the graph and the parameters, equal seeds that are apart leave a vertex listed twice |
| TraverseStep.EdgesOfOneVertexAreApart | src/graph/gremlin.rs:1485-1495 | Two edges of one vertex piped into the step give such seeds |
| TraverseStep.LateRun | src/graph/gremlin.rs:1541-1640 | On a concrete graph with the distinct seeds 1 and 5 every run of the loop records vertex 2 with 0.1 and later 0.5, and vertex 4 with 0.3 |
| TraverseStep.LateImprovementRepeatsVertex | src/graph/gremlin.rs:1541-1690 | The step lists vertex 2 twice on that graph |
| TraverseStep.ReportedIff | src/graph/gremlin.rs:1660-1672 | Filtering crossed edges by the recorded scores of their ends is filtering by best scores |
| OutSearch.SearchFrom | src/graph/gremlin.rs:1080-1095 | The stack loop terminates on every graph and computes the specified search |
| OutSearch.StepOut | src/graph/gremlin.rs:1075-1096 | Targets of all input vertices, in input order, each with its own visited set |
| OutSearch.FoundIsSound | src/graph/gremlin.rs:1080-1095 | Only vertices within the depth limit, each once, never the start |
| OutSearch.FoundIsCompleteNear | src/graph/gremlin.rs:1084-1094 | Vertices within two edges, and within the limit, are never missed |
| OutSearch.ShortResultIsComplete | src/graph/gremlin.rs:1084-1094 | A result shorter than the depth limit is the whole reachable set |
| OutSearch.DeepLimitIsComplete | src/graph/gremlin.rs:1084-1094 | A limit of at least the number of reachable vertices finds all of them |
| OutSearch.CompleteIffShallow | src/graph/gremlin.rs:1073-1096 | The search returns everything within its limit on every graph iff the limit is at most 2 |
| QueueProtocol.RunKeepsOk | src/cluster/broadcast_queue.rs:95-147 | In every run restart point, next delivery, furthest delivery and log end stay in order, and the next delivery is at most the file limit behind the restart point |
| QueueProtocol.FallbackIsBounded | src/cluster/broadcast_queue.rs:245-281 | In every run a restart falls back by at most the file limit |
| QueueProtocol.DeliveredIsInitialSegment | src/cluster/broadcast_queue.rs:286-327 | In every run the positions that reached the worker, answered or not, are exactly an initial segment of what was enqueued |
| QueueProtocol.InOrderWithoutRestart | src/cluster/broadcast_queue.rs:286-327 | Without a restart every entry is answered exactly once and in order; what reaches the worker never goes back and is at most one entry ahead of the answers |
| QueueProtocol.ExactlyOnceWithoutRestart | src/cluster/broadcast_queue.rs:286-327 | Without a restart or a lost answer every entry reaches the worker exactly once and in order |
| QueueProtocol.TrimmedWasDelivered | src/cluster/broadcast_queue.rs:333-345 | Everything before the restart point was delivered, so no undelivered entry's file is removed |
| BroadcastQueue.Queue.constructor | src/cluster/broadcast_queue.rs:84-90 | An empty queue, with a file limit of at least 1 |
| BroadcastQueue.Queue.Enqueue | src/cluster/broadcast_queue.rs:95-147 | Rolls over when needed and appends; the new state and the invariant hold even when opening or writing fails |
| BroadcastQueue.Queue.PrepareNext | src/cluster/broadcast_queue.rs:333-354 | Drops only spent leading files, returns exactly the next undelivered entry, leaves other workers alone |
| BroadcastQueue.Queue.Drop | src/cluster/broadcast_queue.rs:335-342 | Removing a spent file moves the restart point at most to the next delivery |
| BroadcastQueue.Queue.Acknowledge | src/cluster/broadcast_queue.rs:310-317 | A successful delivery advances one worker by one entry |
| BroadcastQueue.Queue.DeliverOnce | src/cluster/broadcast_queue.rs:300-324 | One turn of the consumer: it picks the next undelivered entry and is one trim step followed by a deliver step if the answer is below 500, an attempt step if the worker carried the entry out without such an answer, no step if it was not reached |
| BroadcastQueue.AttemptViews | src/cluster/broadcast_queue.rs:318-321 | An attempt without an answer is one attempt step of its worker; the position stays |
| BroadcastQueue.Queue.Restart | src/cluster/broadcast_queue.rs:245-281 | Rebuilding from the directory restores the lists with nothing consumed |
| BroadcastQueue.Queue.ScanDirectory | src/cluster/broadcast_queue.rs:246-263 | Groups leftover files by target and drops empty ones |
| BroadcastQueue.EnqueueViews | src/cluster/broadcast_queue.rs:130-146 | An enqueue is one protocol step of its worker iff the append succeeded, and no step of any other |
| BroadcastQueue.DropViews | src/cluster/broadcast_queue.rs:335-345 | A file removal is one enabled trim step of its worker |
| BroadcastQueue.DeliveryViews | src/cluster/broadcast_queue.rs:310-317 | A delivery is one deliver step of its worker |
| BroadcastQueue.RestartViews | src/cluster/broadcast_queue.rs:245-281 | A restart is one restart step of every worker: delivery resumes at the first entry of the oldest file |
| BroadcastQueue.NextEntry | src/cluster/broadcast_queue.rs:347-353 | The entry at the consumed count of the first file is the log entry at the delivery position |
| BroadcastQueue.QueueSafety | src/cluster/broadcast_queue.rs:95-147 | A worker's log is the removed prefix plus the files on disk in order, all of the removed part was delivered, and no file exceeds the limit or holds another worker's entries |
| BroadcastQueue.SortedListing | src/cluster/broadcast_queue.rs:265-272 | Sorting any listing of a worker's files by stamp gives the order in which they were filled |
| WorkerReplay.RepeatIsAbsorbed | src/graph/crud.rs:136-196 | An operation carried out early, at any earlier point of the log, leaves no trace once its turn comes; an edge create provided it can be repeated from there |
| EntityRuns.VertexAbsorbs | src/graph/crud.rs:144-158 | The same for one vertex id and every operation, creates included, which a second delivery rejects as a collision |
| EntityRuns.EdgeAbsorbs | src/graph/crud.rs:262-276 | The same for one edge id and every operation but a create that takes effect, across cascades and reuse of the id |
| EntityRuns.VertexCreateRepeats | src/graph/crud.rs:144-158 | A vertex create can be repeated from every earlier point of every log |
| RepeatedCreates.RepeatsWellIff | src/graph/crud.rs:251-276 | Repeating an edge create from one point ends as the master does iff the edge is removed before or after the create, or what the operations before it overwrite is overwritten again or was the same |
| RepeatedCreates.BorderIff | src/graph/crud.rs:251-276 | For every file limit: the border holds iff the create can be repeated from every point to which a restart can fall back; ids used again with other end points included |
| RepeatedCreates.BorderWithFixedEnds | src/graph/crud.rs:672-697 | For an id that keeps its end points: iff the last delete within the limit to hit it before the create is not a soft delete of an end point, or a later operation updates or deletes the edge or deletes an end point |
| WorkerReplay.WorkerCatchesUp | src/cluster/broadcast_queue.rs:245-327 | For logs within the borders of the file limit the worker can, in every run, catch up from every point to which a restart could fall back |
| WorkerReplay.WorkerIsGood | src/cluster/broadcast_queue.rs:245-327 | If no self-loop is created within the limit after a hard delete of its vertex, no operation that reaches the worker stops half way, in any run |
| WorkerReplay.DrainedWorkerEqualsMaster | src/cluster/broadcast_queue.rs:245-327 | Once drained the worker's vertices and edges are the master's and nothing stopped half way, after any number of restarts and lost answers, for all logs that meet the two exact conditions of the file limit |
| Convergence.ConvergesIff | src/cluster/broadcast_queue.rs:95-354 | For every log of a master, file limit and worker: all runs of the queue that drain it end in the master's state without stopping half way iff no self-loop is created within the limit after a hard delete of its vertex and every edge create is within its border; for all runs of the protocol it is the same condition |
| Convergence.SingleEntryFilesConverge | src/cluster/broadcast_queue.rs:84-90 | With one entry per file every log of a master converges |
| Convergence.ConvergesIffWithFixedEnds | src/cluster/broadcast_queue.rs:95-354 | The same with the border in plain terms when edge ids keep their end points |
| Convergence.ReusedEdgeIdDiverges | src/graph/crud.rs:251-276 | An edge id created again with other end points: this log of three converges iff a file takes fewer than three entries |
| Convergence.LateEdgeDiverges | src/graph/crud.rs:672-697 | An edge created on a vertex that was soft-deleted and revived: this log of three converges iff a file takes fewer than three entries |
| Convergence.LateLoopStops | src/graph/crud.rs:701-703 | A self-loop created next after a hard delete of its vertex: some run delivers the delete again so that it stops half way iff a file takes more than one entry |
| Convergence.StoppedDeleteHeals | src/graph/crud.rs:804-828 | Whatever the order of the lists, that log delivered again after the stopped delete ends in the master's state |
| Convergence.StoppedDeleteKeepsName | src/graph/crud.rs:804-828 | A vertex renamed, hard-deleted, created again and linked to itself: delivered again from the start, the delete stops and the worker keeps the old name |
| Replication.DrainedReplicaEqualsMaster | src/cluster/broadcast_queue.rs:95-354 | In every consistent state of the queue a drained worker equals its master and none of its operations stopped half way, for all logs that meet the two exact conditions of the queue's own file limit |
| Replication.ReachableIsConsistent | src/cluster/broadcast_queue.rs:95-354 | Every state that calls of the queue lead to, from an empty queue, is consistent and keeps its limit |
| Replication.Redelivers | src/cluster/broadcast_queue.rs:245-327 | The calls that make a worker repeat any stretch of at most the limit: keep up to its beginning, fill one file, deliver it, restart, deliver it again |
| Replication.RunOfRequests | src/cluster/broadcast_queue.rs:95-105 | The queue's runs, seen through the requests they carry, are runs of the protocol with the same limit |
| Bytes.LeRoundTrip | src/storage/types.rs:298-332 | Little-endian fields decode to what was encoded |
| ChunkAllocator.SetBit | src/storage/block_allocator.rs:155-163 | Changes exactly one of the 256 bits |
| ChunkAllocator.AllocChunks | src/storage/block_allocator.rs:33-76 | Takes the window behind the cursor if clear, else the first clear run of the scanned prefix, else nothing; cursor wrap and zero counts included |
| ChunkAllocator.FirstRun | src/storage/block_allocator.rs:53-75 | The one-pass scan finds the first clear run within its limit, or none exists |
| ChunkAllocator.FreeChunks | src/storage/block_allocator.rs:81-86 | Clears exactly the given run |
| ChunkAllocator.IsBlockFull | src/storage/block_allocator.rs:92-100 | Full iff no two neighbouring data chunks are clear |
| ChunkAllocator.ChunksNeeded | src/storage/block_allocator.rs:142-145 | The least number of chunks that holds the bytes, capped at 255 |
| ChunkAllocator.AllocatedRunIsFresh | src/storage/block_allocator.rs:39-76 | A run handed out was wholly clear, avoids the header chunk, and is all that was taken |
| ChunkAllocator.NoneIff | src/storage/block_allocator.rs:39-76 | Nothing is allocated iff the window is unavailable and the scanned prefix has no clear run |
| ChunkAllocator.BlankBlockAllocates | src/storage/block_allocator.rs:39-51 | A never used block can take any run |
| ChunkAllocator.WrappedCursorSeesFirstRunOnly | src/storage/block_allocator.rs:27-76 | Once the cursor wrapped to 0, an allocation succeeds iff the run at chunk 1 is clear, whatever is free further on, against the comment on the cursor |
| ChunkAllocator.FreedTailIsMissed | src/storage/block_allocator.rs:27-86 | From a blank block: taking 2 and 253 chunks and freeing the 253 leaves a block that refuses 2 |
| RecordLayout.HeaderRoundTrip | src/storage/types.rs:298-332 | Decoding an encoded record header gives it back, for all field values of their widths |
| RecordBlock.Block.Write | src/graph/crud.rs:1568-1596 | Within one block: stores a record in a fresh extent and leaves every other record's bytes as they were; refuses exactly what is too large or finds no room there |
| RecordBlock.Block.Reserve | src/storage/block_allocator.rs:33-76 | The reserved extent is disjoint from every live record and the bitmap is again their exact union |
| RecordBlock.Block.Read | src/graph/crud.rs:1599-1604 | Reads back the header and payload originally written |
| RecordBlock.Block.Free | src/graph/crud.rs:1068-1080 | Releases exactly the record's extent |
| RecordBlock.Block.UpdateHeader | src/graph/crud.rs:1528-1541 | Changes one record's header and nothing else |
| RecordBlock.Block.Rewrite | src/graph/crud.rs:514-560 | Within one block: the new version is placed clear of all live records before the old one is released |
| RecordBlock.AddKeepsLayout | src/graph/crud.rs:1593-1594 | Adding a clear run keeps the bitmap equal to the disjoint union of extents |
| RecordBlock.RemoveKeepsLayout | src/storage/block_allocator.rs:81-86 | So does removing one |
| RecordBlock.StoredDecodes | src/storage/types.rs:298-332 | The stored image of a record decodes to its header and payload |
| RecordBlock.Scan | src/storage/memory_index_builder.rs:52-157 | The start-up walk visits exactly the live records of a block, in order, and decodes each as written |
| RecordBlock.ReadRecord | src/storage/memory_index_builder.rs:62-89 | At a record start the walk decodes it and jumps by exactly its extent |
| RecordBlock.SetBitStartsRecord | src/storage/memory_index_builder.rs:57-69 | At a boundary a set bit is always the first chunk of a record |
| RecordStore.Store.Write | src/graph/crud.rs:1568-1596 | In a file of many blocks the free list's retry loop places the record where none lay and no other record changes; only what exceeds a block is refused; the first listed block takes it if it has room where the allocator looks; only blocks without room for two chunks are marked full |
| RecordStore.Store.Rewrite | src/graph/crud.rs:514-560 | Copy-on-write across blocks: the record moves from its old place to the new one and every other record stays |
| RecordStore.Store.Read | src/graph/crud.rs:1599-1604 | Reads back what was written at that place |
| RecordStore.Store.Free | src/graph/crud.rs:1068-1092 | Takes exactly one record out of the file and gives its chunks back, the free list included |
| RecordStore.Store.ScanAll | src/storage/memory_index_builder.rs:52-157 | The walk over the blocks lists the live records of each, in order, as written |
| RecordStore.ScanReportsLive | src/storage/memory_index_builder.rs:52-157 | Such a listing reports a record at a place iff it is live there with that header and payload |
| BlockAllocation.BitmapFile.AllocNewBlocks | src/storage/bitmap_file.rs:115-131 | Lists the appended blocks behind the old ones and keeps the old bitmap |
| BlockAllocation.BitmapFile.MarkPartial | src/storage/bitmap_file.rs:163-170 | Inserts the block at one place, any on an unsorted list, unless it was found; then trims the list to its limit |
| BlockAllocation.BitmapFile.MarkFull | src/storage/bitmap_file.rs:134-141 | Sets one bit, takes the block off the list for good and refills behind the kept blocks |
| BlockAllocation.BitmapFile.MarkFree | src/storage/bitmap_file.rs:144-159 | Clears the mark of a block that was marked full and lists it, trimming the list; any other block is left as it is |
| BlockAllocation.BitmapFile.ScanForFreeBlocks | src/storage/bitmap_file.rs:211-226 | Appends the first blocks from the scan position on that are not full, as many as the list lacks |
| BlockAllocation.ClearFromIsFirst | src/storage/bitmap_file.rs:211-226 | Those are ascending, not full, at or after the position, and all of them if fewer than asked for |
| BlockAllocation.ChunkStore.Settle | src/graph/crud.rs:997-1007 | A block with no two neighbouring clear chunks is marked full, leaves the list, and the list is refilled; any other block is put back on the list, which is then trimmed to its limit |
| BlockAllocation.ChunkStore.TryBlock | src/graph/crud.rs:989-1001 | Succeeds iff the block has room where the allocator looks, and changes that block's header only; a block never used always has room |
| BlockAllocation.ChunkStore.AllocateChunks | src/graph/crud.rs:967-1026 | Terminates for any free-list contents and returns a wholly clear run; no other block changes; the first listed block is used if it has room; only blocks without room for two chunks stay marked full |
| BlockAllocation.ChunkStore.Release | src/graph/crud.rs:1068-1092 | Clears exactly the run; a block marked full that has room again is unmarked and listed, any other stays listed or not as it was; only blocks without room for two chunks stay marked full |
| BlockCache.LastCleanIsLast | src/storage/block_cache.rs:70-73 | The victim scan finds the least recently used clean block |
| BlockCache.VictimIsCleanIfPossible | src/storage/block_cache.rs:70-73 | A dirty block is chosen only if every cached block is dirty, and something is chosen unless nothing is cached |
| BlockCache.WithoutLists | src/storage/block_cache.rs:77 | Removing a block keeps the LRU list a duplicate-free permutation of the keys |
| BlockCache.TouchLists | src/storage/block_cache.rs:66 | So does moving one to the front |
| BlockCache.BlockShard.EvictOne | src/storage/block_cache.rs:67-81 | Evicts exactly the chosen block; the view is unchanged even when the write-back fails |
| BlockCache.BlockShard.EnsureLoaded | src/storage/block_cache.rs:38-49 | Makes room and loads, with failure at any point; the view is unchanged and the shard stays within capacity |
| BlockCache.BlockShard.FindVictim | src/storage/block_cache.rs:70-73 | The backwards walk computes the specified victim |
| BlockCache.BlockShard.WithBlock | src/storage/block_cache.rs:50-52 | Changes one block of the shard's view and marks it dirty |
| BlockCache.BlockShard.FlushDirty | src/storage/block_cache.rs:56-63 | On success every cached block is clean and on disk; a failure keeps all dirty marks |
| BlockCache.ShardedBlockCache.constructor | src/storage/block_cache.rs:88-91 | Shows the data file as it is |
| BlockCache.ShardedBlockCache.WithBlock | src/storage/block_cache.rs:108-116 | The flat view changes at the written block only, and not at all on failure |
| BlockCache.ShardedBlockCache.WriteBlock | src/storage/block_cache.rs:119-128 | The written block reads as written, all others as before |
| BlockCache.ShardedBlockCache.ReadBlock | src/storage/block_cache.rs:95-105 | Returns the flat view and does not change it |
| BlockCache.ShardedBlockCache.FlushDirty | src/storage/block_cache.rs:138-147 | When all shards flush, the data file equals the flat view |
| RedoLog.OfCode | src/storage/types.rs:127-145 | Inverse of the operation codes; other bytes are unknown |
| RedoLog.ReplayFile | src/storage/redo_log.rs:515-589 | The read loop delivers exactly what the specification of replay says, errors included |
| RedoLog.ReadEntry | src/storage/redo_log.rs:517-576 | One turn: short header, length limit, short data, short or wrong checksum, unknown type |
| RedoLog.ReplayLog | src/storage/redo_log.rs:507-594 | Files in order; a torn file moves on to the next, an unknown type ends replay |
| RedoLog.FirstOfEncoding | src/storage/redo_log.rs:193-210 | An intact frame is read back as written, unless its data exceed 1 MiB |
| RedoLog.FirstOfTorn | src/storage/redo_log.rs:519-556 | Any proper prefix of a frame ends replay quietly |
| RedoLog.SurvivorsIsGreatest | src/storage/redo_log.rs:507-594 | The entries counted as surviving are the longest list wholly contained in the prefix and before any oversized one |
| RedoLog.TornLogReplaysWholeEntries | src/storage/redo_log.rs:507-594 | Of any byte prefix of a log, replay delivers exactly the surviving entries, in order |
| RedoLog.ReplayInvertsEncoding | src/storage/redo_log.rs:193-210 | Replay inverts the encoding of a log iff no entry is over 1 MiB |
| RedoLog.ReplayedEntriesAreInTheFile | src/storage/redo_log.rs:514-589 | Whatever a file holds, the replayed entries re-encode to its first bytes |
| LogWriter.Writer.Rotate | src/storage/redo_log.rs:768-802 | The old file is deleted only after a successful flush of the block cache, so the data file then equals the cache's flat view; a failed flush changes neither file nor entries; the view never changes |
| LogWriter.Writer.RunHandler | src/graph/graph.rs:325-337 | The cache's flush: on success the data file equals the flat view; after a failure every block of it is old or current; the view never changes |
| LogWriter.Writer.MakeRoom | src/storage/redo_log.rs:781-802 | Rotates by age, then by size; afterwards the batch fits or the file is empty, and if the file changed the data file equals the cache's view |
| LogWriter.Writer.Flush | src/storage/redo_log.rs:726-812 | Writes the pending frames in order after making room; on failure they stay pending; nothing is lost or reordered; when a file was deleted the data file equals the cache's view |
| LogWriter.Writer.Append | src/storage/redo_log.rs:217-266 | The frame joins the log at its end: written before the call returns, or buffered while batching; when a file was deleted the data file equals the cache's view |
| LogWriter.Writer.ReceiveBatch | src/storage/redo_log.rs:659-665 | A batch joins the pending frames in order; a large one is written at once |
| LogWriter.Writer.FlushBatch | src/storage/redo_log.rs:373-386 | Sends the buffer and waits; the order of all frames is kept |
| LogWriter.Writer.EndBatch | src/storage/redo_log.rs:388-393 | The same, and batching ends without dropping a frame |
| LogWriter.Writer.Renew | src/storage/redo_log.rs:676-694 | One empty file remains; frames still pending stay pending |
| LogWriter.Writer.Close | src/graph/graph.rs:383-397 | After a successful close the data file equals the cache's view, the log is one empty file and nothing is pending |
| LogWriter.EmptyFilesDoNotMatter | src/storage/redo_log.rs:507-514 | Empty files left by failed rotations do not disturb replay in any listing order |
| LogWriter.CrashKeepsWrittenEntries | src/storage/redo_log.rs:804-809 | A crash during a write leaves a directory that replays to all written entries and a prefix of the pending ones |
| Recovery.RedoTracks | src/graph/crud.rs:833-892 | Replaying one entry keeps the replayed table in step; it fails iff the entry updates a record whose delete is in the log |
| Recovery.RedoStoreTracks | src/graph/crud.rs:833-892 | The same for the whole store, with the cascade of a replayed vertex delete |
| Recovery.NothingLeftToCascade | src/graph/crud.rs:804-828 | When a vertex delete is replayed its edges are gone already |
| Recovery.RecoveryRebuildsLiveView | src/graph/crud.rs:833-962 | From the snapshot, the log of any run rebuilds the same live records, end points and ranks; start-up fails iff the run updated a record after its logged delete |
| Recovery.SameLiveView | src/graph/crud.rs:319-328 | Tables in step show the same live records |
| Recovery.RecoveredIdsAreFresh | src/graph/crud.rs:835-843 | A sufficient case: creates in id order |
| Recovery.RecoveredIdsAreFreshIff | src/graph/crud.rs:835-863 | For every run: after recovery the next id exceeds every id in use iff nothing was created or no surviving id exceeds both the last created id and all ids updated after that create |
| Recovery.ListingRepeatsLoops | src/graph/crud.rs:804-818 | The outgoing and then incoming edges of a vertex list an edge twice iff the vertex has a self-loop |
| Recovery.OutOfOrderCreatesReuseAnId | src/graph/crud.rs:136-165 | Two creates out of id order leave a recovered allocator that gives out an id in use |
| StaleReplay.RedoStoreFollows | src/graph/crud.rs:833-892 | Replaying one entry on a graph with stale adjacency entries keeps it in step with the running graph, up to ranks that are ahead, ids that are lost and vertices that are kept, each given exactly; it fails iff the entry updates a lost record |
| StaleReplay.ReplayFollows | src/graph/graph.rs:308-315 | The same for every run from any such state, whatever the order of the adjacency lists |
| StaleReplay.RemovesReach | src/graph/crud.rs:804-828 | A cascade deletes its listed edges up to the first that is not there, or not there any more |
| StaleReplay.DeleteShows | src/graph/crud.rs:867-870 | After a replayed vertex delete the vertex is shown iff its cascade ended half way and it was live before, and the edges listed up to there are gone, live ones too |
| StaleReplay.CleanAfterIff | src/graph/crud.rs:833-892 | Of all entries only a vertex delete can make the start show other live records, and it does iff its cascade ends half way while the vertex is live or deletes a live edge |
| StaleReplay.WrongIffEndLive | src/graph/crud.rs:804-828 | With the entries of one edge left listed a vertex delete goes wrong iff it deletes an end point while that vertex, or an edge of that id, is live |
| StaleReplay.WrongIffLoopLeft | src/graph/crud.rs:804-828 | With none left listed it goes wrong iff the vertex is live and has a self-loop that was deleted before the log begins |
| RotationRecovery.RecoveryAfterRotation | src/storage/redo_log.rs:768-802 | From the data file of a rotation that has the changes of the first entry, or of a batch of creates and updates: start-up fails iff the run updated a record that the replay had lost; else, wherever the log ends, the start shows the running graph's live records up to ranks raised twice iff no vertex delete goes wrong |
| RotationRecovery.RotationAtEdgeCreate | src/graph/crud.rs:226-243 | If the first entry is an edge create: it shows them at every end of the log iff no later entry deletes an end point of the edge while that vertex, or the edge again, is live |
| RotationRecovery.RotationInBatch | src/graph/batch.rs:224-231 | After a batch: not if an end point of an edge it created is deleted while it is live, and always if none is deleted |
| RotationRecovery.RotationElsewhere | src/storage/redo_log.rs:768-802 | If the first entry is any other: iff no live vertex is deleted that has a self-loop from before the log; always when all cascades are in the log |
| RotationRecovery.FirstRedoes | src/storage/redo_log.rs:804-809 | When only a part of the batch reached the new log: a record written in that part has the fields of its end, any other those of the whole batch; ranks go on from the batch's last ones until one is set |
| RotationRecovery.StaleEdgeRevivesVertex | src/graph/crud.rs:804-828 | Linking two vertices where the log rotates, then soft-deleting the edge and one vertex: the start shows that vertex as live |
| ReplayedFile.RedoShapes | src/graph/crud.rs:226-238 | Replay of an edge entry on records at pointers does what the image does: a create that meets the id leaves the record behind for good, any other entry reaches the current record only |
| ReplayedFile.ListingsAreTimes | src/storage/memory_index.rs:362-381 | As the index lists every record in the file at both ends, it lists the current edges and those left behind, once for each end |
| ReplayedFile.NextStart | src/storage/memory_index_builder.rs:52-157 | The next start shows the record left behind iff the current one lies before it in the scan or was deleted |
| ReplayedFile.DeletedIsBack | src/storage/memory_index_builder.rs:52-157 | A vertex or edge whose create was replayed onto its record and that is deleted afterwards is back, as it was at the rotation, after the next start |
| LoggedGraph.Graph.CreateVertex | src/graph/crud.rs:87-131 | A fresh id, rank 1, and one create entry |
| LoggedGraph.Graph.CreateVertexWithId | src/graph/crud.rs:136-196 | Rejects a taken id without effect, else creates and keeps the allocator ahead |
| LoggedGraph.Graph.CreateEdge | src/graph/crud.rs:199-246 | A fresh edge id with its end points and one create entry |
| LoggedGraph.Graph.CreateEdgeWithId | src/graph/crud.rs:251-316 | Rejects a taken id without effect, else creates and keeps the allocator ahead; refines the model's edge create |
| LoggedGraph.Graph.GetVertex | src/graph/crud.rs:319-339 | Finds exactly live vertices and logs the raised rank |
| LoggedGraph.Graph.UpdateVertexMeta | src/graph/crud.rs:367-412 | Sets the rank and logs exactly when the rank or the access time changes; the replicated state does not change |
| LoggedGraph.Graph.UpdateVertex | src/graph/crud.rs:465-568 | Replaces the patched fields, raises the rank, revives a soft-deleted vertex, logs the full payload; refines the model's update |
| LoggedGraph.Graph.UpdateEdge | src/graph/crud.rs:571-667 | The same for an edge, whose end points stay |
| LoggedGraph.Graph.DeleteEdge | src/graph/crud.rs:741-798 | Soft or hard delete of one edge, logged alike; refines the model's edge delete |
| LoggedGraph.Graph.CascadeDeleteEdges | src/graph/crud.rs:804-828 | Over outgoing and then incoming edges: succeeds iff it is not a hard delete of a vertex with a self-loop, and then leaves the model's closed form; edges of other vertices never change |
| LoggedGraph.Graph.DeleteVertex | src/graph/crud.rs:672-736 | Succeeds iff the vertex exists and it is not a hard delete with a self-loop; refines the model's vertex delete; afterwards no live edge meets the vertex |
| LoggedGraph.Graph.Restart | src/graph/graph.rs:270-315 | Reopening and replaying gives the live view of the running graph, or fails exactly on a late update; the next ids are fresh exactly under the condition of `Recovery.RecoveredIdsAreFreshIff` |
| LoggedGraph.Graph.RestartAfterRotation | src/graph/graph.rs:270-315 | The same from what a rotation left, at any entry and with any batch of creates and updates, under the exact conditions of `RotationRecovery.RecoveryAfterRotation` |
| LoggedGraph.ReplayLog | src/graph/graph.rs:308-315 | The replay loop, which ends at the first error |
| GraphRefinement.CascadeShows | src/graph/crud.rs:804-828 | What a completed cascade leaves is the closed form of the replicated model, hard and soft |
| GraphRefinement.DeleteVertexRefines | src/graph/crud.rs:672-736 | A vertex delete succeeds exactly when the model accepts it and has its effect unless it stops half way, missing vertices included |
| GraphRefinement.UpdateEdgeRefines | src/graph/crud.rs:571-667 | The same for an edge update |
| GraphRefinement.CreateEdgeRefines | src/graph/crud.rs:251-276 | The same for an edge create |
| TimeTravel.Record.Update | src/graph/crud.rs:506-539 | Pushes the superseded payload under the modification time, wherever that was moved to, and trims the history to its limit, if history is recorded, and leaves the history alone otherwise; without moved stamps and with every update recorded the history is the newest superseded versions |
| TimeTravel.Record.ReadAt | src/graph/crud.rs:1385-1440 | The read loop computes the specified answer for every record state |
| TimeTravel.Record.ReadVersion | src/graph/crud.rs:1385-1440 | Finds the last version stamped at or before the time, from the oldest kept version on and before creation |
| TimeTravel.LastAtIsLatest | src/graph/crud.rs:1406-1418 | The specification picks the latest version not after the time, and none iff all are later |
| TimeTravel.ReadFindsLastVersion | src/graph/crud.rs:1385-1440 | All read times: nothing before creation, the right version from the oldest kept one on, the current payload in between |
| TimeTravel.MovedStampReads | src/graph/crud.rs:367-412 | For every stamp to which a soft delete or metadata edit moved the modification time: which reads find what they should, and what all others find |
| TimeTravel.MovedStampReadsRightIff | src/graph/crud.rs:683-688 | With payloads that all differ a read finds what it should iff it is one of those cases |
| TimeTravel.Record.ReadMoved | src/graph/crud.rs:1385-1440 | The read loop of a record after soft deletes and metadata edits |
| TimeTravel.EarlierStampShowsTooMuch | src/graph/crud.rs:396-400 | Versions of 1 and 10 and an access time set to 3: a read at 5 finds the version of 10 instead of that of 1 |
| TimeTravel.DeleteShowsEarlierVersion | src/graph/crud.rs:683-688 | Versions of 1 and 10 and a soft delete at 20: a read at 15 finds the version of 1 instead of that of 10 |
| MemoryIndex.AdjacencyMirrors | src/storage/memory_index.rs:362-381 | An edge record is listed once at its source and once at its target, under its current pointer |
| MemoryIndex.PushIndexes | src/storage/memory_index.rs:232-234 | Pushing a new pair keeps lists exact and free of repeats |
| MemoryIndex.DropIndexes | src/storage/memory_index.rs:237-244 | Removing a pair keeps them exact |
| MemoryIndex.Index.CreateVertex | src/graph/crud.rs:108-118 | A new vertex record enters the id and rank indexes; all indexes stay exact |
| MemoryIndex.Index.CreateEdge | src/graph/crud.rs:226-238 | A new edge record also enters both adjacency lists |
| MemoryIndex.Index.Touch | src/graph/crud.rs:1345-1361 | A read moves the record to its raised rank |
| MemoryIndex.Index.UpdateVertex | src/graph/crud.rs:541-554 | The record's new pointer replaces the old one in every index |
| MemoryIndex.Index.UpdateEdge | src/graph/crud.rs:641-657 | The same, adjacency included |
| MemoryIndex.Index.RemoveEdge | src/storage/memory_index.rs:374-381 | Dropping by far end and pointer removes exactly one edge record's entries |
| MemoryIndex.Index.SoftDelete | src/graph/crud.rs:690-694 | A soft-deleted record leaves the rank index only |
| MemoryIndex.Index.HardDeleteVertex | src/graph/crud.rs:718-734 | A hard-deleted vertex leaves every index |
| MemoryIndex.Index.HardDeleteEdge | src/graph/crud.rs:779-795 | A hard-deleted edge leaves every index |
| MemoryIndex.Index.SetRank | src/graph/crud.rs:384-394 | The indexes stay exact iff the record is live or the rank does not change |
| RankQuery.TopPointers | src/storage/memory_index.rs:264-281 | The limit-length prefix of the listing by falling rank at or above the minimum |
| RankQuery.ListingIsRanked | src/storage/memory_index.rs:264-281 | That listing holds the live records at or above the minimum, once each, by falling rank |
| RankQuery.TopAreHighest | src/storage/memory_index.rs:264-281 | No record left out outranks one returned |
| TokenIndex.PrefixKeysAreAnInterval | src/storage/memory_index.rs:163-175 | Keys with a prefix form an interval of the lexicographic order that begins at the prefix |
| TokenIndex.TokenMap.SearchPrefix | src/storage/memory_index.rs:165-175 | Stopping at the first key without the prefix equals filtering all keys |
| QueryRewrite.Execute | src/graph/gremlin.rs:242-543 | The loop with look-ahead returns the list of the plain step chain, for any steps, where the index answers |
| QueryRewrite.LookAhead | src/graph/gremlin.rs:279-306 | Reads the posted, or the other, vertices in id order; declines when nothing is posted or the text is empty |
| QueryRewrite.LookAheadIsExactIff | src/graph/gremlin.rs:387-421 | A taken look-ahead equals the two plain steps iff every vertex that is not deleted is posted exactly when it matches |
| QueryRewrite.AgreementAnswersStrings | src/graph/gremlin.rs:279-306 | With an index in agreement, string values and a non-empty string query the look-ahead is exact |
| QueryRewrite.NumberPostedAsText | src/graph/gremlin.rs:1775-1787 | A number stored under the key breaks it for a string of the number's digits |
| QueryRewrite.IndexProperties | src/graph/crud.rs:39-48 | Posts exactly the indexable properties under the pointer |
| QueryRewrite.UnindexProperties | src/graph/crud.rs:62-71 | Takes exactly those back |
| QueryRewrite.CreateKeepsAgreement | src/graph/crud.rs:108-118 | A create keeps index and records in agreement |
| QueryRewrite.HardDeleteKeepsAgreement | src/graph/crud.rs:724-731 | So does a hard delete |
| QueryRewrite.Reindex | src/graph/crud.rs:496-503 | With properties the old ones are taken back and the new ones posted, under the old pointer; without properties the index is not touched |
| QueryRewrite.UpdateKeepsAgreementIff | src/graph/crud.rs:496-554 | Every update, with properties or without, keeps agreement iff the record has nothing to index afterwards; the moved record is never posted |
| QueryRewrite.RenameLosesPosting | src/graph/crud.rs:541-554 | An update of the name alone leaves an indexed property posted under the freed pointer and the record unposted |
| TokenRefs.TokenStore.AddImmediate | src/graph/crud.rs:1236-1341 | Adds exactly one reference to the token's segments, in the first one, a new one, or as a new token |
| TokenRefs.TokenStore.AddBatch | src/graph/crud.rs:1152-1230 | Adds exactly the batch, in one write or one by one |
| TokenRefs.TokenStore.Add | src/graph/token_batch.rs:40-74 | Stored and pending together gain exactly the reference, buffered or not |
| TokenRefs.TokenStore.FlushBatch | src/graph/token_batch.rs:78-103 | A successful flush moves pending references to disk and conserves them |
| TokenRefs.TokenStore.EndBatch | src/graph/token_batch.rs:106-110 | Ends batching with everything held stored |
| TokenRefs.TokenStore.AddAll | src/graph/crud.rs:1141-1147 | Batched and immediate additions store the same multiset |
| TokenRefs.Group | src/graph/token_batch.rs:88-91 | Grouping by token keeps every token's references |
| GraphSync.ComputeCommands | src/cluster/server.rs:100-160 | The loops compute the specified commands |
| GraphSync.ForGraphSyncs | src/cluster/server.rs:108-138 | One graph's commands bring it in line and leave others alone |
| GraphSync.DeletesRemove | src/cluster/server.rs:141-148 | Deletes remove exactly what the master lacks and keep a default the master has |
| GraphSync.SyncMakesEqual | src/cluster/server.rs:100-160 | After the commands graphs, descriptions and configurations are the master's, and the default if it exists there; computing again sends at most a default that could not be set |
| GraphSync.PutFinds | src/graph/graph_registry.rs:151-159 | Updating changes what one name finds |
| GraphSync.RemoveFinds | src/graph/graph_registry.rs:135-143 | Removing a name removes all its entries and no other |
| GraphSync.PushFinds | src/graph/graph_registry.rs:121-132 | Registering adds one name behind the others |
| GraphSync.GraphManager.Delete | src/graph_manager.rs:176-195 | Removes the graph, and the first remaining one becomes the default if the default went |
| GraphSync.GraphManager.UpdateMeta | src/graph_manager.rs:165-173 | Changes the first entry of that name |
| GraphSync.GraphManager.SetDefault | src/graph_manager.rs:153-162 | Refuses a name that is not registered |
| GraphSync.GraphManager.ApplyCommands | src/main.rs:16-59 | Applies the commands in order, ignoring those that fail |
| GraphSync.GraphManager.Heartbeat | src/main.rs:16-59 | One exchange makes the worker match the master |

## Left out

- HTTP routing, forwarding, the cluster handlers, web search, the language-model proxy, the document store, settings and the user interface: input and output plumbing.
- Files, direct I/O, fsync, clocks and serialization formats: assumed as stated above. A queue line that is torn in the middle of an append is not modelled.
- Concurrency: each state machine is driven by one client at a time; lock stripes, the timed flush checker and concurrent log appends are not part of this model.
- The label filters of `out`, `in` and `both`, and the `in` direction itself: the search is the same on the reversed graph.
- The look-aheads for count, has-key, has-label and limit, and those on edges; the look-ahead also ignores a limit written on `V`, and `QueryRewrite` has no such limit.
- Edge variants of vertex operations where they are the same code with another table (`get_edge`, `update_edge_meta`, `create_edge_with_id`, edge properties, edge time travel).
- The access-time index, label indexes, name indexes and saved index files.
- Insertion into the token map's ordered tree: the tree is taken as sorted by key, and segments are values without pointers.
- A crash between individual block writes of one flush: recovery starts from a whole snapshot.
- The status and time stamp fields of the block header; only its cursor and bitmap take part in allocation.
- OutSearch.DeepLimitIsComplete: counts the start among the reachable vertices.
- TokenRefs.TokenStore.FlushBatch: a write that fails part-way drops the references not yet written, so conservation is stated for successful flushes.
- GraphSync.SyncMakesEqual: white space in names is tab, newline, carriage return and space only; a graph's files are represented by its configuration.
- Unsigned 32-bit wrap-around of id counters: ids are unbounded naturals. Rank wrap-around is modelled.
- TraverseStep.ListsEachOnceWhen: its condition on scores suffices and is not necessary; `BreadthFirst.ListsEachOnceIff` is exact.
- TraverseStep.Traverse: the order of the reported edges and their mean scores are not modelled, and what is piped in besides vertices is passed through.
- Recovery.RecoveredIdsAreFresh: a sufficient case; `Recovery.RecoveredIdsAreFreshIff` is exact.
- RotationRecovery.RecoveryAfterRotation: batches hold creates, updates and rank changes only, as imports do; the rank index, which lists the record left behind too, is not followed.
- RotationRecovery.RotationInBatch: deletes of an end point that is not live can go wrong or not, depending on the order of the lists; `StaleReplay.CleanAfterIff` is exact for each.
- Convergence.LateLoopStops: is about stopping half way. For which logs a worker differs from its master after a delete that stopped is not characterised; `Convergence.ConvergesIff` asks for both, equality and no stop.
- LoggedGraph.Graph.Restart: a log that was renewed, not rotated; `LoggedGraph.Graph.RestartAfterRotation` is about rotations.
- LogWriter.Writer.Flush: a write or sync of the log file that fails is not modelled; the frames then stay pending behind whatever was written of them.
- LogWriter.Writer.Append: neither is the same failure here, nor the moment between opening a log and its first renewal.
- RecordBlock.Block.Write: one block; `RecordStore.Store.Write` goes on to other blocks.
- RecordBlock.Block.Rewrite: one block; `RecordStore.Store.Rewrite` moves records across blocks.
- LoggedGraph.Graph.UpdateVertexMeta: access times themselves are not part of the records; replay of creates does not recover them.
- TimeTravel.Record.Update: which reads are right after an update without history is not stated; `TimeTravel.Record.ReadAt` says what they find.
- QueryRewrite.Execute: look-aheads of `has` and `hasNot` on vertices at the present time only.
