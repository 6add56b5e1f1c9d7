# Verified model of the deduplicating chunk store

The indicer stores evidence files as chunks of a fixed size. A pool of workers
hashes the chunks, packs them into containers of at most 1 GB through a
concurrent writer, records where each chunk went in a database or in a block
index on disk, and a restore puts any byte range back together through a
two-tier read cache. This project models that path in Dafny and proves what it
is for: what was stored comes back.

`dafny verify dfyconfig.toml` checks everything.

## How the pieces fit

| file | part of the system |
|---|---|
| `Basics.dfy`, `Text.dfy` | bytes, codecs, `bytes.Split`, `strconv` integers |
| `Keys.dfy`, `Metadata.dfy` | database keys, index recovery, the names of evidence files, `path\|offset\|size` values and their routing |
| `ChunkFiles.dfy` | the file a single chunk is written to, outside containers |
| `Packing.dfy` | next-fit packing, as a function on chunk sequences |
| `ContainerFiles.dfy`, `Containers.dfy`, `ContainerManagement.dfy`, `ContainerRuns.dfy` | container files; `doWrite` with its rotations and compressions as a function, any call allowed to fail; the manager's methods proved to compute it; whole runs of one manager |
| `WriteQueue.dfy`, `ConcurrentContainers.dfy` | the producers / writer / `Close` protocol over any sequential object, and over the file-level `doWrite` |
| `ReadCache.dfy` | the memory and disk cache for compressed containers |
| `BlockCodec.dfy`, `BlockIndex.dfy`, `BlockManagement.dfy` | the block file format, the index as a ledger of entries, and the buffered manager that refines it |
| `RangeTrim.dfy` | cutting a byte range out of aligned chunks |
| `WorkerPool.dfy` | the dispatcher of a store and its workers |
| `StoreLedger.dfy` | sequences of stores with one file per chunk, stopped anywhere and retried |
| `StorePipeline.dfy`, `StoreProtocol.dfy` | one container-mode store: what it records, and its step machine of workers, queue, writer and commits |
| `StoreDedup.dfy` | which chunks that machine writes and which it does not |
| `StorePool.dfy` | that machine under the dispatcher of `WorkerPool.dfy` |
| `StoreRun.dfy` | the store as methods over the manager objects, proved to take the machine's steps |
| `RoundTrip.dfy` | the restore of any range, and what a store before it makes that come to |

The main results:

* `RoundTrip.EveryStoreRestores`: whatever the interleaving of dispatcher,
  workers, queue and writer, the early commits and the calls that failed, once a
  store has flushed and both closes have succeeded a range restores to exactly
  its bytes if and only if it is not one of two kinds the trimming gets wrong
  and, unless there is nothing to read, the file's hash holds no `|||:` and the
  directory of flat-mode containers no `|`. `RoundTrip.StoreThenRestore` is the
  same over the methods, for every cache size.
* `StoreProtocol.SuccessExactlyWhen`: a store whose workers are done succeeds
  exactly when the final flush of the index and the final sync, close and
  compression of the last container go through; then its directory holds the
  compressed containers, packed next-fit, and nothing else.
* `StoreDedup.StoredChunkIsNotWritten` and `StoreDedup.EachChunkOnce`: a worker
  whose chunk is in the database when it pings never writes it, and when every
  ping comes in time no chunk is written twice.
* `StorePool.CalmStoreSucceeds`: a store in which nothing fails never gets stuck;
  from any state it reaches, it can go on to its flush, and then it succeeds.
* `ConcurrentContainers.ProducersReadBack`: in every interleaving of producers,
  the writer and `Close`, whichever file operations fail, a producer answered
  with a `(path, offset, size)` reads back its own chunk from then on, after the
  final close too.
* `ContainerRuns.SuccessesArePermanent`, `ContainerRuns.RunLayout` and
  `ContainerRuns.CalmRun`: the same for one manager's writes in sequence, with the
  containers on disk being exactly those of the packing, and fewer container
  files than twice the bins of any packing when nothing fails.
  `ContainerRuns.WriteAll` is that run on the manager object.
* `Containers.CompressIsSafe`: after every single file operation of a
  compression, and on every exit, the container still reads as before; it succeeds
  exactly when no call it needs fails, and then leaves the compressed form alone.
* `ReadCache.Replay`: over any run of the cache the answers are right, and the
  memory changes between calls by what least-recently-used eviction needs and by
  nothing else.
* `WriteQueue.RunsRefineTheObject`, `WriteQueue.Progress`,
  `WriteQueue.RunsTerminate`: the concurrent writer answers like the sequential
  one in queue order, never deadlocks and always ends.
* `Packing.TwiceOptimal` and, for container files under any interleaving,
  `ConcurrentContainers.ConcurrentTwiceOptimal`.
* `BlockIndex.IndexRefinesLog`: after a close without error, a lookup answers
  with the first entry ever logged for the hash; `BlockIndex.CloseWritesOnce`:
  exactly when the files then hold each logged entry once.
* `StoreLedger.RangeRestorableIff` and `StoreLedger.InverseIffAgreed`: over any
  sequence of interrupted and retried stores with one file per chunk, exactly
  when a range of a completed file restores to its bytes and exactly when forward
  and reverse relations agree. `StoreLedger.RunsOnlyGrow` and
  `StoreLedger.StoreCompletes`: a completed file stays completed, and any file
  whose chunks can be encoded can be brought there.

## What the model assumes

* A codec decodes what it encoded; either direction may refuse an input.
  Chunk hashes do not collide on the chunks being stored, and in the
  one-file-per-chunk layout neither do blob file names; there a blob's path is
  the database directory followed by a pipe-free rest that ends in `.blob`.
* A container's path is the blobs directory followed by a pipe-free name;
  names are distinct up to a limit of container numbers, and a file has at most
  that many chunks. Paths are shorter than 65536 bytes: operating systems refuse
  to open longer ones, so no such path is ever issued.
* A manager starts on a directory without containers: numbering restarts at 0
  for every manager, so a second store in container mode on one database is
  outside the model.
* An append to a container or a block file writes everything or nothing.
* The chunk size does not change during the life of a database.
* Clocks, OS failures, scheduling, the spare capacity of Go slices and the
  order `sort.Slice` gives to equal times are parameters or left open, and the
  theorems hold for all of them.
* Database values survive being written and read. Out of quick mode that
  always holds; in quick mode it means that the value is not itself a frame
  that decompresses to something else (`StorePipeline.NodeRoundTrip`).

## Where the code does not do what it is meant to do

* Range trimming is wrong for two families of ranges; `RangeTrim.RangeIsExact`
  gives the exact condition. With the default chunk size they include a 255 KB
  file at the end of a 255.5 KB image (`RangeTrim.LastFileOfSmallImage`) and a
  1 KB file across the first chunk boundary of a 1 MB image
  (`RangeTrim.ShortFileAcrossBoundary`). Whole evidence files and ranges that
  start on a chunk boundary or span at least one chunk are not affected.
* The hash a store writes into its relation keys is cut at the first `|||:` of
  the raw evidence hash, the hash a restore looks for at the first `E|||:`. The
  two agree exactly when the hash contains no `|||:` (`Keys.HashAgreement`); for
  a SHA3-256 value that begins with those four bytes they are the empty string
  and the whole value (`Keys.SeparatorFirstIsCut`), and a completed file with
  that hash is lost (`StoreLedger.SeparatorFirstIsLost`). Files whose hashes are
  cut to one name also share relation keys, and their forward and reverse
  relations agree only where their chunks do (`StoreLedger.InverseIffAgreed`), as
  for two files whose hashes both begin with the separator
  (`StoreLedger.SeparatorFirstIsNotInverse`).
* With a database directory that holds a `|`, such as `/a|b`, the metadata of a
  flat-mode container is read back as the name of an old-style chunk file
  (`Metadata.PipedDirectory`), which is not there
  (`StorePipeline.ChunkLostFlat`). With exactly two pipes, such as `/a|b|c`, the
  path of a chunk file of the one-file-per-chunk layout is read as container
  metadata that does not parse (`Metadata.TwicePipedDirectory`), and no completed
  file with a byte in it restores (`StoreLedger.RestorableIffWhole`).
* In hierarchical mode the ping before a write looks for a key that is never set,
  so nothing is deduplicated: every chunk of every file is written again
  (`StoreDedup.IndexedStoreWritesEvery`).
* A flush of the block index whose `Sync` fails keeps its entries pending
  although they were written, and the deferred close writes them again
  (`BlockIndex.SyncFailureWritesTwice`). An addition does so exactly when it comes
  to a flush and the `Sync` of that flush fails (`BlockIndex.StepKeepsOnce`), and
  a file ends up with each entry once exactly when no call before the last close
  did (`BlockIndex.CloseWritesOnce`). Lookups do not notice
  (`BlockIndex.FlushKeepsAgreement`).
* A flush that stops inside an entry leaves the bytes of that entry in the file,
  and the entries a later flush appends are read from the wrong place
  (`BlockCodec.TornEntryMisleads`). What stood before it is still found
  (`BlockCodec.SearchAppend`), and the store that met the error reports it.

Two conditions the parts have by themselves cannot arise in the system: a block
entry with a path of 65536 bytes (`BlockCodec.EntryRoundTrip`), because such a
path cannot be opened, and an empty read past the end of a container, on which
the read paths differ (`ReadCache.PathsAgree`), because stored chunks are never
empty and neither is what encoding makes of them.

The comment at `lib/fio/blockindex.go:253` speaks of four hash bytes per block
identifier; the code uses one, and the model follows the code
(`BlockIndex.BlockFileOf`). `CONTAINER_MANAGER_CURRENT.md` describes compression
as writing `.blob.zst` directly; the code writes a temporary file and renames
it, and the model follows the code.

## Model

| member | source | states |
|---|---|---|
| RoundTrip.EveryStoreRestores | lib/store/store.go:100-205 | container mode end to end, flat or hierarchical: in every interleaving of dispatcher, workers, queue, writer and commits, whatever fails on the way, a store that has flushed and closed without error leaves what a restore needs: a range comes back as exactly its evidence bytes if and only if it is not exceptional and, unless there is nothing to read, the hash holds no separator and the flat-mode directory no pipe |
| RoundTrip.StoreThenRestore | lib/store/store.go:100-205 | the same over the methods: the store takes the decisions of the given schedule first, succeeds exactly when the run it made ends without error, and then a restore through a cache of any size gives the range's bytes under exactly that condition; a store without failures succeeds |
| RoundTrip.RestoredExactlyWhen | lib/store/restore.go:99-161 | what a restore from a delivered store writes equals the range under exactly that condition |
| RoundTrip.RestoreLoop | lib/store/restore.go:131-157 | through the cache, the loop writes the concatenation of the trimmed pieces an uncached reader would get, or stops at the first that fails |
| RoundTrip.Restore | lib/store/restore.go:117-161 | a restore with a cache of any size writes what it would write without one |
| RoundTrip.RestoredOfReadable | lib/store/restore.go:131-157 | where every index is readable the output is what the range plan says of the evidence |
| RoundTrip.ReadThroughCache | lib/fio/container.go:363-412 | the cached read returns what the uncached one does, failures included, except that an empty read may succeed where it would not; a compressed container goes through the cache and changes it as one read does, anything else leaves it alone |
| RoundTrip.ReadIndex | lib/dbio/dbio.go:194-253 | relation key, chunk key or block index, then container or old-style chunk file: the cached lookup of an index gives what the uncached one gives |
| StoreRun.Store | lib/store/store.go:100-186 | the store is a run of the step machine that begins with the given schedule, with all workers done or ended by an error; it reports success exactly when no decision failed, the index flushed and the last container was synced, closed and compressed; it has then delivered the file's chunks, relations and reverse relations, nothing under any other name, and the compressed containers alone; a calm store succeeds |
| StoreRun.TakeTurn | lib/store/store.go:187-205 | on the real managers a scheduling decision does what the step machine says, and fails exactly when it does |
| StoreRun.RunSchedule | lib/store/store.go:187-205 | a whole schedule on the real managers is the machine's run by the same decisions |
| StoreRun.LaunchWorkers | lib/store/store.go:145-157 | one worker per index 0, C, 2C, ... below the size, and no other |
| StoreProtocol.SendTurnOk | lib/fio/container.go:91-115 | a step of a worker's call keeps run, queue and containers in order; a worker records the location it was answered with, which is its own chunk's |
| StoreProtocol.ServeTurnOk | lib/fio/container.go:119-134 | a step of the writer keeps everything recorded so far valid, whichever request it serves and whatever fails in it |
| StoreRun.WriterTurn | lib/fio/container.go:119-134 | the writer's step of the protocol is the method doWrite on the real manager |
| StoreRun.RecordTurn | lib/dbio/dbio.go:124-128 | in hierarchical mode the location goes to the block index, as the ledger's addition says, and to no database key |
| StoreProtocol.BatchStepOk | lib/store/store.go:206-241 | pings against the database alone, batch writes of chunk, relation and reverse relation keep every recorded fact true, whatever is still only in the batch; the reverse relation written is the one found with the file added |
| StoreProtocol.AnswerIsTicket | lib/dbio/dbio.go:118-134 | the location a worker was answered with is a ticket for its chunk, with offset and size in the int64 range |
| StoreProtocol.SomeoneCanMove | lib/fio/container.go:98-134 | while a worker waits in its call, the call or the writer can take a step |
| StoreRun.FinishWorkers | lib/store/store.go:168-175 | from any state of a run the workers finish, by decisions appended to those taken so far, unless one of them ends the store with an error |
| StoreRun.CloseQueue | lib/fio/container.go:227-236 | with all workers done, the gate closes, the writer drains and exits, every accepted request is answered and no container changes |
| StoreRun.Conclude | lib/store/store.go:113-134 | the flush and the two deferred closes, index first, on the real managers give the machine's outcome, whose success StoreProtocol.SuccessExactlyWhen characterises |
| StoreProtocol.TakeKeepsOrder | lib/store/store.go:187-241 | whatever decision is taken next, possible or not, failing or not, workers, queue, containers and index stay in order; when nothing fails no decision ends the store |
| StoreProtocol.EndsExactlyWhen | lib/store/store.go:187-205 | a decision ends the store with an error exactly when it records a location, comes to a flush of the index and the flush fails, or is the answer of a call with a failure |
| StoreProtocol.SuccessExactlyWhen | lib/store/store.go:109-134 | with all workers done, success is: the index has nothing pending or its flush goes through, and, unless the file is empty, the last container is synced, closed and compressed without a failing call; then the directory holds the compressed containers of the next-fit packing and nothing else, fewer than twice the bins of any packing |
| StoreProtocol.WorkerCanMove | lib/store/store.go:187-205 | a worker that is not done always has a decision that brings the store closer to its end |
| StoreProtocol.ClosingKeepsContainers | lib/fio/container.go:227-236 | in every interleaving of the close and the writer after the last call, the containers stay as they were |
| StoreProtocol.EveryRunDelivers | lib/store/store.go:100-186 | every run from the start that ends with all workers done succeeds exactly when neither close meets an error, however the queue is closed; it has then delivered the file and left the compressed containers alone in their directory; when nothing fails it succeeds |
| StorePool.EveryStoreDelivers | lib/store/store.go:100-186 | the same under the dispatcher: at most max + 1 workers are at work until one fails, the batch is flushed only when all are done, and after a flush the store succeeds exactly when neither close meets an error, and has then delivered the file |
| StorePool.FewAtWork | lib/store/store.go:158-166 | workers that have begun and are not done are at most max + 1 |
| StorePool.FlushedMeansDone | lib/store/store.go:168-177 | the flush is reached only with every worker of the file done |
| StorePool.CalmStoreSucceeds | lib/store/store.go:100-186 | when nothing fails, any run in which no worker has reported an error extends to one that flushes, closes without error and has delivered the file |
| StoreDedup.StoredChunkIsNotWritten | lib/store/store.go:206-215 | from any reached state in which a worker is about to ping and its chunk's key is in the database, no later state has it past a call of the manager, in the queue, or recording a location |
| StoreDedup.StoredRelationIsNotSet | lib/store/store.go:216-225 | nor does a worker set a relation that is in the database when it pings |
| StoreDedup.EachChunkOnce | lib/store/store.go:206-215 | in a run whose pings all come after the commit of what other workers have written of the same chunk, no two tickets are for chunks of one hash |
| StoreDedup.IndexedStoreWritesEvery | lib/store/store.go:206-215 | in hierarchical mode every done worker has written its chunk, whatever was written before |
| StorePipeline.NodeRoundTrip | lib/dbio/dbio.go:142-147 | a database value comes back if and only if it was compressed or does not decompress to something else |
| StorePipeline.TicketIsTheChunk | lib/store/store.go:206-215 | best-effort dedup is safe: any ticket recorded for a chunk's hash reads back that very chunk |
| StorePipeline.AdvanceKeepsRun | lib/store/store.go:187-205 | one worker's step leaves every other worker's facts true |
| StorePipeline.CommitKeepsRun | lib/store/store.go:177-181 | committing any prefix of the batch early loses nothing |
| StorePipeline.RelationReadable | lib/store/store.go:216-225 | whatever stands under a file's relation key is the hash of that file's chunk at that index |
| StorePipeline.OthersAreLost | lib/store/restore.go:132-136 | under any other name than the stored one a lookup finds no relation |
| StorePipeline.OldStyleReads | lib/dbio/dbio.go:194-204 | a chunk key holding the path of a chunk file, not with two pipes, reads as the chunk that file was written for, whatever the block index says |
| StorePipeline.MetadataReads | lib/dbio/dbio.go:206-217 | metadata with a pipe-free path under the chunk key is followed into its container, whatever the block index says |
| StorePipeline.IndexedReads | lib/dbio/dbio.go:219-253 | without a chunk key the block index is asked; what it finds is followed, and a miss is an error |
| ChunkFiles.ChonkReadsBack | lib/fio/fio.go:12-49 | reading a chunk file gives the chunk it was written for |
| StorePipeline.ChunkReadableFlat | lib/dbio/dbio.go:194-217 | in flat mode below a pipe-free directory the metadata under a chunk key leads to the chunk |
| StorePipeline.ChunkLostFlat | lib/dbio/dbio.go:200-204 | below a directory with a pipe it names an old-style chunk file that does not exist |
| StorePipeline.ChunkReadableIndexed | lib/dbio/dbio.go:219-227 | in hierarchical mode the first index entry of a hash leads to the chunk |
| StorePipeline.NoChunkKeysInHierarchicalMode | lib/dbio/dbio.go:124-128 | hierarchical mode never puts a chunk key into the database, so the index is always the one consulted |
| StorePipeline.ReverseUnder | lib/store/store.go:226-241 | whatever stands under a reverse relation key of the file lists the file and nothing else |
| StorePipeline.FinishedIsDelivered | lib/store/store.go:168-181 | once every worker is done and batch and index are settled, every index is readable, or lost where the metadata does not parse, its reverse relation lists the file, and no other name has relations |
| ContainerRuns.WriteAll | lib/fio/container.go:119-258 | one manager from creation to close: responses, the directory after each write and the one after the close are those of the run, and each success reads back from every one of these directories from its own on |
| ContainerRuns.SuccessesArePermanent | lib/fio/container.go:137-258 | with any faults, a triple issued for a request reads back its chunk in every later state of the run, and after a close at any point |
| ContainerRuns.RunIsSound | lib/fio/container.go:119-178 | after any number of writes the manager is sound and every success so far is backed by a ticket for its own chunk; if all succeeded, as they do without faults, the packing is next-fit and the directory tidy |
| ContainerRuns.RunLayout | lib/fio/container.go:181-258 | after the close the containers on disk are those of the packing and no others |
| ContainerRuns.SuccessfulRun | lib/fio/container.go:137-258 | when every write and the close succeed, whatever else failed, the packing is next-fit and the directory holds each container's compressed form, nothing else that was not there before, and fewer files than twice the bins of any packing |
| ContainerRuns.CalmRun | lib/fio/container.go:137-258 | without faults every write and the close succeed, so that holds |
| ContainerRuns.WriteChunks | lib/fio/container.go:119-134 | the writer's loop on the manager object computes the run: the manager's state, the responses in order, and the directory after each write |
| ContainerRuns.FewFiles | lib/fio/container.go:191-195 | when every container is compressed there are no more container files than containers |
| ContainerRuns.TidyCloses | lib/fio/container.go:238-254 | closing a run of successes without an error leaves fewer container files than twice the bins of any packing |
| Containers.WriteOutcome | lib/fio/container.go:137-178 | a success is one next-fit placement and one ticket with its slot, and leaves only the last container uncompressed and no other file; a failure issues none and moves no chunk; it succeeds exactly when the chunk encodes and no call needed for it fails |
| Containers.CreatedOutcome | lib/fio/container.go:181-224 | succeeds exactly when nothing it needs fails; then the old container's compressed form stands alone and an empty one is open; every failing exit leaves all earlier chunks readable |
| Containers.CompressIsSafe | lib/fio/container.go:261-347 | after every file operation, on every exit, reading through the container's path gives its original bytes, and no file outside its three names changes; it succeeds exactly when no call it needs fails and the encoder accepts, and then blob and temporary file are gone and the compressed file is there |
| Containers.TempIsCleared | lib/fio/container.go:281-334 | whatever fails in a compression, if the cleanup goes through no temporary file stays |
| Containers.WritingTidies | lib/fio/container.go:137-224 | a write that succeeds leaves each container in one file, compressed unless it is the last, and adds no other file |
| Containers.ShelvedOutcome | lib/fio/container.go:182-195 | syncing, closing and compressing loses no ticket, succeeds exactly when nothing it needs fails, and then leaves the compressed form alone; a failed sync changes nothing, any other failure leaves the handle closed |
| Containers.ClosedOutcome | lib/fio/container.go:238-254 | the final close keeps every ticket; it succeeds exactly when no container is open or the open one can be synced, closed and compressed, and then leaves its compressed form alone |
| ContainerManagement.ContainerManager.constructor | lib/fio/container.go:76-88 | a new manager on a directory without containers is sound and has issued nothing |
| ContainerManagement.ContainerManager.DoWrite | lib/fio/container.go:137-178 | the method computes the write function, and so has its guarantees |
| ContainerManagement.ContainerManager.EnsureRoom | lib/fio/container.go:150-155 | a new container exactly when there is none or the chunk does not fit |
| ContainerManagement.ContainerManager.AppendToCurrent | lib/fio/container.go:157-178 | the append adds the chunk at the old offset of the current container and touches nothing else |
| ContainerManagement.ContainerManager.CreateNewContainer | lib/fio/container.go:181-224 | the old container is compressed, the next number opened; every failing exit leaves all earlier chunks readable |
| ContainerManagement.ContainerManager.ShelveCurrent | lib/fio/container.go:182-197 | succeeds exactly when nothing it needs fails; then the compressed form stands alone; on failure the manager is still sound |
| ContainerManagement.ContainerManager.CompressContainer | lib/fio/container.go:261-347 | the trace lists every directory from the first to the last, one file operation apart, and in each the container's path gives its original bytes |
| ContainerManagement.ContainerManager.WriteTemp | lib/fio/container.go:271-323 | the same for the first part, whichever call fails; on success a faithful compressed copy stands beside the untouched blob |
| ContainerManagement.ContainerManager.SwapIn | lib/fio/container.go:325-347 | the same for the second part: moving the compressed file into place never leaves the path without its content; it succeeds exactly when none of its three calls fails, and then neither blob nor temporary file is left |
| ContainerManagement.ContainerManager.Finalize | lib/fio/container.go:227-258 | the final close compresses the last container and reports every failure on the way; a second close does nothing |
| ContainerManagement.ContainerManager.IssuedReadable | lib/fio/container.go:363-412 | in every sound state every ticket reads back its chunk |
| Containers.TicketReads | lib/fio/container.go:363-412 | a ticket for bytes the containers hold reads back its chunk, from a blob or from its compressed form |
| Containers.OpenedIsSound | lib/fio/container.go:198-224 | opening the next container disturbs no issued ticket |
| Containers.AppendedIsSound | lib/fio/container.go:157-178 | appending disturbs no issued ticket |
| ContainerFiles.NamesApart | lib/fio/container.go:198-204 | blob, compressed and temporary names of different containers never meet |
| ContainerFiles.ReadsContent | lib/fio/container.go:349-412 | a window inside a container reads the same whether the file behind the path is a blob or compressed |
| ContainerFiles.StepUnseenElsewhere | lib/fio/container.go:261-347 | no step of a compression is seen through another container's path |
| ContainerFiles.ReplacedIsSafe | lib/fio/container.go:335-346 | removing the blob once its compressed form is in place changes no read |
| Packing.PlaceKeeps | lib/fio/container.go:157-178 | a chunk's slot still holds it after any later chunk |
| Packing.SlotsArePermanent | lib/fio/container.go:150-178 | the slot given out for chunk i holds chunk i in the final packing |
| Packing.PackingConserves | lib/fio/container.go:150-178 | packing loses, duplicates and reorders nothing |
| Packing.PackingInvariant | lib/fio/container.go:150-155 | no container of more than one chunk exceeds the limit, and two neighbours always do together |
| Packing.TwiceOptimal | lib/fio/container.go:150-155 | next-fit opens fewer than twice as many containers as any packing of the same chunks |
| Packing.LoadsAreBytes | lib/fio/container.go:150-155 | the loads of any assignment of chunks to bins add up to the bytes of the chunks |
| WriteQueue.StepKeepsInv | lib/fio/container.go:91-134 | every step of every goroutine keeps the protocol's invariant: lock counts, never more than 1000 requests queued, who holds which response |
| WriteQueue.RunsRefineTheObject | lib/fio/container.go:91-134 | in every run nothing is sent on a closed queue, each accepted request is queued once, and its one response is the sequential object's in queue order |
| WriteQueue.ClosedAcceptsNothing | lib/fio/container.go:98-105 | once the closed flag is set the queue's history is the same in every later state |
| WriteQueue.LateCallsAreRefused | lib/fio/container.go:98-105 | a call that has not taken the read lock when Close asks for the write lock is never accepted in any later state |
| WriteQueue.DrainedMeansAnswered | lib/fio/container.go:227-236 | the close passes its drain only when every accepted request has its answer |
| WriteQueue.Progress | lib/fio/container.go:98-134 | no deadlock: full queue, held read locks and a pending close notwithstanding, some step is enabled until all are done |
| WriteQueue.MeasureDecreases | lib/fio/container.go:98-134 | every step lowers a measure |
| WriteQueue.RunsTerminate | lib/fio/container.go:227-236 | a run has at most 8 steps per request plus one per close call plus 9, and one that cannot go on has finished everything |
| ConcurrentContainers.SequentialWrites | lib/fio/container.go:119-134 | the file-level writer over the queue stays sound, and each of its successes is backed by a ticket for that job's chunk |
| ConcurrentContainers.RunsAreBacked | lib/fio/container.go:91-134 | in every state any interleaving reaches, each served producer's success is backed by a ticket for its own chunk |
| ConcurrentContainers.ProducersReadBack | lib/fio/container.go:91-134 | under any interleaving and any faults each served producer's path, offset and size read back its own chunk, after the final close too |
| ConcurrentContainers.FinishedRunIsTidy | lib/fio/container.go:91-258 | in every interleaving in which all accepted requests were written and the close succeeds, the directory holds the compressed containers of the next-fit packing and nothing else new |
| ConcurrentContainers.TicketsComeFromJobs | lib/fio/container.go:119-178 | every ticket is for the chunk of a job served, and where no two jobs have chunks of one hash no two tickets do |
| ConcurrentContainers.ConcurrentTwiceOptimal | lib/fio/container.go:91-258 | in every finished interleaving without faults every accepted request was written, and after the close the container files are fewer than twice the bins of any packing |
| ReadCache.PathsAgree | lib/fio/container_cache.go:72-156 | memory and stream agree on every window; the temporary file agrees if and only if the read is not empty or starts inside the container |
| ReadCache.ContainerReadCache.ReadFromCompressed | lib/fio/container_cache.go:72-115 | the result does not depend on what is cached; a hit renews the access time; a container within the budget is loaded: survivors keep data and times, victims are no newer than they, none goes when it would fit, and with the last victim back the budget would not hold; a larger one goes to a temporary file; nothing else changes |
| ReadCache.ContainerReadCache.ReadAround | lib/fio/container_cache.go:85-115 | the disk and streaming paths return what the container holds, and only the disk path of a cache that is on makes a temporary file |
| ReadCache.ContainerReadCache.DecompressToDisk | lib/fio/container_cache.go:185-230 | the temporary file holds the decompressed container; a container that has one gets no second, the others keep theirs; it fails exactly when there is none to decompress |
| ReadCache.ContainerReadCache.LoadAndCache | lib/fio/container_cache.go:232-276 | caches exactly what fits the budget and then returns it, evicting only as many of the least recently used containers as that needs |
| ReadCache.ContainerReadCache.Insert | lib/fio/container_cache.go:261-276 | the accounted size equals the cached bytes and is within the budget even if that was lowered; victims are the oldest, and no more than needed |
| ReadCache.ContainerReadCache.Evict | lib/fio/container_cache.go:278-299 | victims go oldest first, none newer than a survivor, until the new entry fits and not beyond |
| ReadCache.ContainerReadCache.GetCached | lib/fio/container_cache.go:158-172 | a hit returns the container's content and only renews its access time |
| ReadCache.ContainerReadCache.Disable | lib/fio/container_cache.go:54-70 | nothing stays cached or on disk, the account is zero, the budget stays |
| ReadCache.SortByAccess | lib/fio/container_cache.go:283-290 | every cache entry once, in order of access time |
| ReadCache.TotalWithout | lib/fio/container_cache.go:292-298 | removing an entry lowers the total by exactly its length |
| ReadCache.SurvivorIsNewer | lib/fio/container_cache.go:287-298 | an entry beyond the eviction point is at least as new as every victim |
| ReadCache.Replay | lib/fio/container_cache.go:42-299 | over any sequence of enabling, disabling, resizing and reading, every non-empty read returns what the container holds, the account equals the cached bytes after every call, and from call to call memory, temporary files and budget change by exactly what that call is for |
| BlockCodec.EntryRoundTrip | lib/fio/blockindex.go:195-221 | a serialised entry reads back whole if and only if its path is shorter than 65536 bytes |
| BlockCodec.LaterBytesWeighMore | lib/fio/blockindex.go:203-216 | each byte of an integer field weighs 256 times the byte before it |
| BlockCodec.ParseInvertsSerialize | lib/fio/blockindex.go:131-221 | parsing inverts serialising for every list of entries |
| BlockCodec.CutFile | lib/fio/blockindex.go:131-172 | on a file cut at any byte the search sees exactly the entries wholly before the cut, and reports not found only if the cut is on a boundary, a read error otherwise |
| BlockCodec.SearchIsFirstMatch | lib/fio/blockindex.go:131-172 | on an intact file the search is first match |
| BlockCodec.SearchAppend | lib/fio/blockindex.go:131-172 | whatever bytes follow intact entries, a search answers from those entries first, and from the bytes only when no entry matches |
| BlockCodec.TornEntryMisleads | lib/fio/blockindex.go:195-221 | a flush that stops after an entry's hash and is repeated whole: for the hash of 64 zeros the lookup finds an empty path at offset 0 |
| BlockCodec.SearchBlockFile | lib/fio/blockindex.go:131-172 | the cursor loop is that search |
| BlockCodec.BytesEqual | lib/fio/blockindex.go:278-288 | true exactly for equal byte strings |
| BlockIndex.BlockFileOf | lib/fio/blockindex.go:249-265 | two hashes share a block file if and only if their first bytes agree |
| BlockIndex.AddKeepsExact | lib/fio/blockindex.go:57-102 | without I/O failures each block file plus the pending block is exactly that block's sub-log in order, with fewer than 1000 entries pending |
| BlockIndex.AddKeepsAgreement | lib/fio/blockindex.go:57-102 | with any I/O failures each block file plus the pending block still answers first matches like its sub-log |
| BlockIndex.FlushKeepsAgreement | lib/fio/blockindex.go:175-224 | a flush, kept pending or not, changes no first match |
| BlockIndex.AddSucceedsIff | lib/fio/blockindex.go:57-102 | an addition reports an error exactly when it comes to a flush and the flush fails |
| BlockIndex.StepKeepsOnce | lib/fio/blockindex.go:57-102 | from a ledger that holds each logged entry once, a call keeps it so if and only if it is neither an addition that comes to a flush whose sync fails nor a close that writes; whether it comes to a flush is told from the pending block before the call |
| BlockIndex.RunHoldsOnce | lib/fio/blockindex.go:57-246 | after any additions and closes with any failures, file and pending block hold each logged entry once, in order, if and only if no call of the run was such a one |
| BlockIndex.CloseWritesOnce | lib/fio/blockindex.go:57-246 | after a last close without error the files alone do, under the same condition on the run before it |
| BlockIndex.SyncFailureWritesTwice | lib/fio/blockindex.go:223-235 | a flush whose sync fails, then a close: the entries stand twice in the file |
| BlockIndex.CleanRunLogsAll | lib/fio/blockindex.go:57-102 | in a run without failures every added entry is logged in call order |
| BlockIndex.RunsAgree | lib/fio/blockindex.go:57-102 | any run of additions and closes with any failures keeps the agreement |
| BlockIndex.CleanRunsAreExact | lib/fio/blockindex.go:57-102 | any run of additions without failures keeps exactness |
| BlockIndex.CloseSettles | lib/fio/blockindex.go:227-246 | a close without error leaves the files alone answering for the whole log |
| BlockIndex.LookupIsFirstLogged | lib/fio/blockindex.go:105-128 | on settled files a lookup is the first logged entry of the hash, or not found |
| BlockIndex.IndexRefinesLog | lib/fio/blockindex.go:57-246 | from an empty index, after any run and one close without error, lookup is first match in the log |
| BlockManagement.BlockManager.AddChunkMetadata | lib/fio/blockindex.go:57-102 | the buffered manager moves exactly as the ledger does, and its log grows by the entry unless the switch to its block failed |
| BlockManagement.BlockManager.FlushBlock | lib/fio/blockindex.go:175-224 | the block's file grows by its serialised entries, and nothing else changes |
| BlockManagement.BlockManager.Close | lib/fio/blockindex.go:227-246 | a close without error leaves every logged entry in the files |
| BlockManagement.BlockManager.GetChunkMetadata | lib/fio/blockindex.go:105-128 | reads the hash's block file and nothing pending |
| BlockManagement.WriteEntries | lib/fio/blockindex.go:195-221 | the write loop appends the serialised entries in order |
| RangeTrim.RangeIsExact | lib/dbio/dbio.go:162-180 | the restored bytes equal the range if and only if neither exceptional case holds, for every size, chunk size and range |
| RangeTrim.AlignedOrLong | lib/store/restore.go:131-157 | a range that starts on a chunk boundary or spans a chunk is never exceptional |
| RangeTrim.ExceptionalCases | lib/dbio/dbio.go:168-178 | in the exceptional cases the restore panics or writes more bytes than asked for |
| RangeTrim.WholeFileIsExact | lib/store/restore.go:131-157 | whole files always come back |
| RangeTrim.LastFileOfSmallImage | lib/dbio/dbio.go:168-178 | with the default chunk size, a 255 KB file at the end of a 255.5 KB image does not restore to its bytes |
| RangeTrim.ShortFileAcrossBoundary | lib/dbio/dbio.go:168-178 | nor does a 1 KB file across the first chunk boundary of a 1 MB image |
| RangeTrim.AlignDown | lib/util/util.go:182-187 | the multiple of the chunk size at or below the start, less than a chunk away |
| RangeTrim.OutputOfPlan | lib/store/restore.go:131-157 | a loop over pieces that are the plan's writes the plan's output |
| WorkerPool.StepKeepsInv | lib/store/store.go:145-175 | every step keeps the ranges a partition so far and the counts of workers and results right |
| WorkerPool.Unaccounted | lib/store/store.go:158-166 | at most max + 1 workers are unaccounted for, at most max after an early error return |
| WorkerPool.AbandonedWorkersFinish | lib/store/store.go:140-175 | no worker is left blocked on its send after the dispatcher has gone |
| WorkerPool.Progress | lib/store/store.go:145-181 | the pool never gets stuck before it is over and all workers have reported |
| WorkerPool.FlushedMeansCovered | lib/store/store.go:145-181 | the flush is reached only when every byte lies in one launched range whose worker succeeded, and the ranges do not overlap |
| WorkerPool.PoolTheorem | lib/store/store.go:145-181 | from the start, every schedule is bounded and safe, ends only when the pool is over, and has covered the file exactly whenever it has flushed |
| StoreLedger.StepKeepsInv | lib/store/store.go:187-241 | every atomic step of an attempt keeps the ledger's invariant |
| StoreLedger.CommitKeepsInv | lib/store/store.go:177-181 | a batch write may commit at any time |
| StoreLedger.CompleteKeepsInv | cli/cmdstore.go:189-194 | marking a file completed is only reached with every index settled |
| StoreLedger.BlobWriteKeeps | lib/fio/fio.go:12-32 | rewriting a chunk's blob leaves every good blob good |
| StoreLedger.StepsOnlyGrow | lib/store/store.go:226-241 | no store removes a file from a reverse entry, drops a chunk or changes a relation |
| StoreLedger.RunsOnlyGrow | lib/store/store.go:63-93 | over any history no chunk, relation or reverse member is lost, and a completed file stays completed however often it is stored again |
| StoreLedger.CompletedIsNotBegun | lib/store/store.go:63-70 | storing a completed file again changes neither database nor blobs and begins no attempt |
| StoreLedger.AttemptCompletes | lib/store/store.go:145-181 | an attempt whose chunks can be encoded goes on to mark its file completed unless it is stopped |
| StoreLedger.StoreCompletes | lib/store/store.go:63-70 | from any state without an attempt under way a file can be stored to completion |
| StoreLedger.StoredBlobIsNotRewritten | lib/store/store.go:206-215 | once a chunk is in the database and no worker is about to write it, its blob stays as it is over any further history |
| StoreLedger.InverseIffAgreed | lib/store/store.go:216-241 | when no attempt under a stored name is unfinished, relation (name, i) is c if and only if the name is in the reverse entry (c, i), for all c, exactly if the files stored under the name have one chunk at i |
| StoreLedger.SharedNameInverseIff | lib/store/store.go:216-241 | for two completed files stored under one name, relation and reverse entries at an index both have are inverse if and only if their chunks there are equal |
| StoreLedger.SeparatorFirstIsNotInverse | lib/store/store.go:216-241 | two files whose hashes begin with the separator, alone and completed, differing at an index: their relations there are not inverse |
| StoreLedger.RelationsAreInverse | lib/store/store.go:216-241 | so for a completed file whose hash holds no separator, relation (f, i) is c if and only if f is in the reverse entry (c, i) |
| StoreLedger.CompletedReads | lib/fio/fio.go:34-49 | below a directory without exactly two pipes, every index of a completed file whose stored name is its own reads back its chunk under the name sought |
| StoreLedger.NothingReads | lib/dbio/dbio.go:200-214 | below a directory with exactly two pipes no index of any file reads back |
| StoreLedger.RangeRestorableIff | lib/store/restore.go:99-157 | over any run of interrupted and retried stores, unless another file is stored under the name sought, a range of a completed file restores to exactly its bytes if and only if it is not exceptional and, unless there is nothing to read, the hash holds no separator and the directory not exactly two pipes |
| StoreLedger.CompletedIsRestorable | lib/store/restore.go:99-157 | over any run of interrupted and retried stores, below a directory without exactly two pipes, a completed file whose hash holds no separator restores to its bytes, whatever other files are stored |
| StoreLedger.RestorableIffWhole | lib/store/restore.go:99-157 | so a completed file restores as a whole if and only if it is empty, or its hash holds no separator and the directory not exactly two pipes |
| StoreLedger.SeparatorFirstIsLost | lib/store/restore.go:109-136 | the completed file whose hash begins with the separator, alone in its database, does not restore |
| Keys.ChonkKeyInjective | lib/util/util.go:140-159 | equal chunk keys come from equal hashes |
| Keys.RelationKeyInjective | lib/util/util.go:140-159 | equal relation keys come from equal hashes and indices, whatever the hashes' lengths and bytes |
| Keys.ReverseKeyInjective | lib/util/util.go:140-159 | the same for reverse relation keys |
| Keys.KeysApart | lib/cnst/const.go:43-48 | chunk, relation and reverse relation keys never coincide |
| Keys.RelationIndexRecovered | lib/near/infile.go:213-216 | split and digit filter recover the index of a relation key, whatever bytes the hash holds or ends in |
| Keys.ReverseIndexRecovered | lib/near/infile.go:354-356 | the same for reverse relation keys |
| Keys.HashAgreement | lib/structs/inputfile.go:73-75 | store and restore use the same hash, and the whole one, if and only if it does not contain the namespace separator |
| Keys.StoredUnderNothing | lib/structs/inputfile.go:73-75 | every hash that begins with the separator is stored under the empty name |
| Keys.SeparatorFirstIsCut | lib/structs/inputfile.go:73-75 | a 32-byte hash that begins with the separator is stored under the empty name and sought under the whole hash |
| Keys.WholeNamesAreOwn | lib/structs/inputfile.go:73-75 | no file of the same hash length shares the stored name of a file whose hash holds no separator |
| Metadata.RoundTrip | lib/dbio/dbio.go:130-134 | printed metadata parses to the same triple if and only if the path has no pipe; otherwise it is taken for an old-style file name |
| Metadata.LegacyRouting | lib/dbio/dbio.go:200-204 | an old-style value is routed as one if and only if it does not hold exactly two pipes |
| Metadata.PipedDirectory | lib/dbio/dbio.go:131-134 | with one pipe in the database directory, container metadata reads as an old-style file name |
| Metadata.TwicePipedNode | lib/dbio/dbio.go:200-214 | a value with exactly two pipes that does not end in a digit does not parse |
| Metadata.TwicePipedDirectory | lib/dbio/dbio.go:200-214 | with two pipes in it, an old-style file name reads as metadata that does not parse |
| Text.ParseFormatted | lib/dbio/dbio.go:207-214 | parsing inverts printing on the int64 range and refuses everything outside it |
| Text.SplitCount | lib/dbio/dbio.go:200-201 | splitting gives one piece more than there are separators |

## Left out

- Badger, zstd, AES-GCM, SHA3, msgpack and memory mapping: their internals; they appear as maps, codecs and hashes.
- CLI, API server, generated protobuf, uploads, listing, reports and progress bars: plumbing and output.
- Container-mode stores after the first on one database: container names repeat, so the code does not keep the earlier containers apart.
- Quick mode with one file per chunk: reading keeps nothing when unsealing fails, so no round trip holds there.
- Search counting and NeAr analysis: the first has no completeness to state, the second rests on floating point and map order; only NeAr's key parsing is modelled.
- Partition and exFAT parsing, and the metadata of logical files: a restore here takes any start and size inside an evidence file.
- Concurrent readers of the cache: each read runs alone, so the races between its lock sections are not modelled.
- I/O errors on the cache's temporary files and on reading a container that exists.
- Whether decompressing an empty container yields a nil slice, which would send it to the disk path; the bytes read are the same.
- Partial disk writes, power loss, concurrent stores on one database, and changing the chunk size.
- int64 overflow in `offset + size`, in file positions and in index arithmetic: these are unbounded integers; key indices and stored offsets and sizes are bounded to int64.
- Whether an unopened and an absent block file differ: both read as not found.
- ReadCache.ContainerReadCache.ReadAround: gives one decoding result per container to all paths, so a malformed container whose streamed prefix could still be read counts as unreadable.
- ReadCache.ContainerReadCache.Disable: removal of the temporary directory itself is not modelled, only of the files in it.
- BlockManagement.BlockManager.FlushBlock: writes all entries or none; what a write error half way through leaves is told by BlockCodec.SearchAppend and BlockCodec.TornEntryMisleads, and is not a step of the ledger.
- BlockIndex.AddKeepsAgreement: flushes write all entries or none.
- BlockIndex.FlushKeepsAgreement: flushes write all entries or none.
- BlockIndex.RunsAgree: flushes write all entries or none.
- BlockIndex.IndexRefinesLog: flushes write all entries or none.
- ReadCache.ContainerReadCache.DecompressToDisk: fails only when there is no container to decompress, not when a temporary file cannot be written.
- StoreRun.Store: starts all workers before the first decision; runs under the dispatcher, with its limit on workers in flight, are those of the StorePool module, and each of them is one of these.
- StoreLedger.StepKeepsInv: chunk numbers stand for byte indices in the keys, and database values are typed rather than printed.
- WorkerPool.StepKeepsInv: results may be received in any order, which includes the channel's.
