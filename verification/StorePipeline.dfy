/** What one container-mode store puts into the database, the batch and the
    block index (lib/store/store.go, lib/dbio/dbio.go), and why it is enough to
    read every chunk of the file back. */
module StorePipeline {
  import opened Basics
  import opened RangeTrim
  import opened ContainerFiles
  import opened BlockCodec
  import C = Containers
  import CF = ChunkFiles
  import BI = BlockIndex
  import K = Keys
  import M = Metadata
  import Text

  /** SetBatchNode and GetNode: values are compressed unless in quick mode, and
      reading tries to decompress either way. */
  datatype Nodes = Nodes(quick: bool, encode: bytes -> bytes, decode: bytes -> Option<bytes>) {
    function Put(v: bytes): bytes {
      if quick then v else encode(v)
    }

    function Get(raw: bytes): bytes {
      match decode(raw)
      case Some(v) => v
      case None => raw
    }

    ghost predicate Keeps(v: bytes) {
      Get(Put(v)) == v
    }

    ghost predicate Inverse() {
      forall x :: decode(encode(x)) == Some(x)
    }
  }

  /** A node value comes back exactly when it was compressed, or does not itself
      decompress to something else. */
  lemma NodeRoundTrip(nodes: Nodes, v: bytes)
    requires nodes.Inverse()
    ensures nodes.Keeps(v) <==> !nodes.quick || nodes.decode(v) == None || nodes.decode(v) == Some(v)
  {}

  /** The surroundings of a store: container writer, the directory and the names
      of its containers, chunk hash, node values, how a set of file names is
      encoded, the two codecs of an old-style chunk file, block directory, index
      mode and chunk size. */
  datatype Env = Env(containers: C.Env, root: bytes, name: nat -> bytes, hash: bytes -> bytes, nodes: Nodes,
                     encodeNames: set<bytes> -> bytes, comp: Codec, seal: Codec,
                     dir: bytes, hierarchical: bool, chunk: nat)
  {
    /** Container names are pipe-free, as base64 is, below the root; a path of
        65536 bytes cannot be opened, so none is ever issued. */
    ghost predicate Assumed() {
      && containers.Assumed() && chunk > 0
      && (forall x :: |hash(x)| == HASH_LENGTH)
      && (forall i: nat | i <= containers.limit :: containers.base(i) == root + name(i) && M.PIPE !in name(i))
      && (forall i: nat, o, z | i <= containers.limit :: nodes.Keeps(M.Print(containers.Blob(i), o, z)))
      && (forall i: nat | i <= containers.limit :: |containers.Blob(i)| < 65536)
    }

    /** The chunk metadata in the database, if any, parses back. */
    predicate MetadataParses() {
      hierarchical || M.PIPE !in root
    }
  }

  lemma PipeOnlyInRoot(env: Env, i: nat)
    requires env.Assumed() && i <= env.containers.limit
    ensures M.PIPE in env.containers.Blob(i) <==> M.PIPE in env.root
  {
    assert env.containers.Blob(i) == env.root + env.name(i) + BLOBEXT;
  }

  /** The file being stored, under the hash its relation keys carry. */
  datatype Job = Job(evidence: bytes, fhash: bytes) {
    predicate InFile(env: Env, k: nat) {
      k * env.chunk < |evidence|
    }

    function ChunkOf(env: Env, k: nat): bytes
      requires InFile(env, k)
    {
      ChunkAt(evidence, env.chunk, k * env.chunk)
    }

    function HashOf(env: Env, k: nat): bytes
      requires InFile(env, k)
    {
      env.hash(ChunkOf(env, k))
    }

    /** The chunk's hash survives as a node value, and the chunk encodes to a Go-sized slice. */
    ghost predicate ChunkFits(env: Env, k: nat)
      requires InFile(env, k)
    {
      && env.nodes.Keeps(HashOf(env, k))
      && var y := env.containers.codec.enc(ChunkOf(env, k)); y.Some? ==> |y.value| <= INT64_MAX
    }

    /** The file has a Go size, each of its chunks fits, and different ones have different hashes. */
    ghost predicate Assumed(env: Env) {
      && |evidence| <= INT64_MAX
      && (forall k: nat | InFile(env, k) :: ChunkFits(env, k))
      && (forall i: nat, k: nat | InFile(env, i) && InFile(env, k) ::
            HashOf(env, i) == HashOf(env, k) ==> ChunkOf(env, i) == ChunkOf(env, k))
    }

    /** The file has no more than n chunks. */
    ghost predicate ChunksUpTo(env: Env, n: nat) {
      forall k: nat | InFile(env, k) :: k < n
    }

    ghost predicate IsChunk(env: Env, x: bytes) {
      env.chunk > 0 && exists k :: InFile(env, k) && ChunkOf(env, k) == x
    }
  }

  /** A database or batch entry. */
  datatype Entry =
    | ChunkEntry(h: bytes, path: bytes, offset: int, size: int)
    | RelEntry(fhash: bytes, k: nat, h: bytes)
    | RevEntry(h: bytes, k: nat, names: set<bytes>)

  function KeyOf(env: Env, e: Entry): bytes {
    match e
    case ChunkEntry(h, _, _, _) => K.ChonkKey(h)
    case RelEntry(fhash, k, _) => K.RelationKey(fhash, k * env.chunk)
    case RevEntry(h, k, _) => K.ReverseKey(h, k * env.chunk)
  }

  function ValueOf(env: Env, e: Entry): bytes {
    match e
    case ChunkEntry(_, path, offset, size) => env.nodes.Put(M.Print(path, offset, size))
    case RelEntry(_, _, h) => env.nodes.Put(h)
    case RevEntry(_, _, names) => env.nodes.Put(env.encodeNames(names))
  }

  type Db = map<bytes, Entry>

  /** The database as bytes under keys. */
  function Raw(env: Env, db: Db): map<bytes, bytes> {
    map key | key in db :: ValueOf(env, db[key])
  }

  function CommitAll(env: Env, db: Db, batch: seq<Entry>): Db {
    if batch == [] then db
    else CommitAll(env, db, batch[..|batch| - 1])[KeyOf(env, batch[|batch| - 1]) := batch[|batch| - 1]]
  }

  /** A worker's next action. */
  datatype Worker =
    | Ping | Write | Record(path: bytes, offset: nat, size: nat) | PingRel | SetRel | SetRev | Done
  {
    /** The chunk has been recorded. */
    predicate Recorded() {
      PingRel? || SetRel? || SetRev? || Done?
    }

    /** The relation has been set. */
    predicate Related() {
      SetRev? || Done?
    }
  }

  datatype Run = Run(db: Db, batch: seq<Entry>, workers: seq<Worker>)

  // ----- what the entries mean -----

  ghost predicate Says(env: Env, job: Job, t: C.Ticket, h: bytes, path: bytes, offset: int, size: int) {
    t.path == path && t.offset == offset && t.size == size && job.IsChunk(env, t.data) && env.hash(t.data) == h
  }

  /** Some ticket issued for a chunk of the file with this hash says path, offset, size. */
  ghost predicate TicketFor(env: Env, job: Job, issued: seq<C.Ticket>, h: bytes, path: bytes, offset: int, size: int) {
    && IsInt64(offset) && IsInt64(size)
    && exists i :: 0 <= i < |issued| && Says(env, job, issued[i], h, path, offset, size)
  }

  ghost predicate EntryOk(env: Env, job: Job, issued: seq<C.Ticket>, e: Entry) {
    match e
    case ChunkEntry(h, path, offset, size) => !env.hierarchical && TicketFor(env, job, issued, h, path, offset, size)
    case RelEntry(fhash, k, h) => fhash == job.fhash && job.InFile(env, k) && h == job.HashOf(env, k)
    case RevEntry(h, k, names) => job.InFile(env, k) && h == job.HashOf(env, k) && names == {job.fhash}
  }

  ghost predicate DbOk(env: Env, job: Job, issued: seq<C.Ticket>, db: Db) {
    forall key | key in db :: KeyOf(env, db[key]) == key && EntryOk(env, job, issued, db[key])
  }

  ghost predicate BatchOk(env: Env, job: Job, issued: seq<C.Ticket>, batch: seq<Entry>) {
    forall i | 0 <= i < |batch| :: EntryOk(env, job, issued, batch[i])
  }

  ghost predicate LogOk(env: Env, job: Job, issued: seq<C.Ticket>, log: seq<TypedEntry>) {
    forall i | 0 <= i < |log| :: TicketFor(env, job, issued, log[i].hash, log[i].path, log[i].offset, log[i].size)
  }

  ghost predicate InStore(env: Env, run: Run, key: bytes) {
    key in run.db || exists i :: 0 <= i < |run.batch| && KeyOf(env, run.batch[i]) == key
  }

  ghost predicate HasChunk(env: Env, job: Job, run: Run, log: seq<TypedEntry>, k: nat)
    requires job.InFile(env, k)
  {
    InStore(env, run, K.ChonkKey(job.HashOf(env, k))) || exists i :: 0 <= i < |log| && log[i].hash == job.HashOf(env, k)
  }

  ghost predicate WorkerOk(env: Env, job: Job, run: Run, issued: seq<C.Ticket>, log: seq<TypedEntry>, k: nat)
    requires k < |run.workers| && job.InFile(env, k)
  {
    var w := run.workers[k];
    && (w.Record? ==> TicketFor(env, job, issued, job.HashOf(env, k), w.path, w.offset, w.size))
    && (w.Recorded() ==> HasChunk(env, job, run, log, k))
    && (w.Related() ==> InStore(env, run, K.RelationKey(job.fhash, k * env.chunk)))
    && (w.Done? ==> InStore(env, run, K.ReverseKey(job.HashOf(env, k), k * env.chunk)))
  }

  ghost predicate RunOk(env: Env, job: Job, run: Run, issued: seq<C.Ticket>, log: seq<TypedEntry>) {
    && (forall k: nat :: k < |run.workers| <==> job.InFile(env, k))
    && DbOk(env, job, issued, run.db) && BatchOk(env, job, issued, run.batch) && LogOk(env, job, issued, log)
    && (forall k: nat | k < |run.workers| :: WorkerOk(env, job, run, issued, log, k))
  }

  // ----- steps -----

  lemma TicketsGrow(env: Env, job: Job, issued: seq<C.Ticket>, more: seq<C.Ticket>,
                    h: bytes, path: bytes, offset: int, size: int)
    requires TicketFor(env, job, issued, h, path, offset, size)
    ensures TicketFor(env, job, issued + more, h, path, offset, size)
  {
    var i :| 0 <= i < |issued| && Says(env, job, issued[i], h, path, offset, size);
    assert (issued + more)[i] == issued[i];
  }

  /** Issuing tickets keeps everything recorded so far. */
  lemma IssuingKeepsRun(env: Env, job: Job, run: Run, issued: seq<C.Ticket>, more: seq<C.Ticket>, log: seq<TypedEntry>)
    requires RunOk(env, job, run, issued, log)
    ensures RunOk(env, job, run, issued + more, log)
  {
    var all := issued + more;
    forall e: Entry | EntryOk(env, job, issued, e) ensures EntryOk(env, job, all, e) {
      if e.ChunkEntry? { TicketsGrow(env, job, issued, more, e.h, e.path, e.offset, e.size); }
    }
    forall i | 0 <= i < |log| ensures TicketFor(env, job, all, log[i].hash, log[i].path, log[i].offset, log[i].size) {
      TicketsGrow(env, job, issued, more, log[i].hash, log[i].path, log[i].offset, log[i].size);
    }
    forall k: nat | k < |run.workers| ensures WorkerOk(env, job, run, all, log, k) {
      assert WorkerOk(env, job, run, issued, log, k);
      var w := run.workers[k];
      if w.Record? { TicketsGrow(env, job, issued, more, job.HashOf(env, k), w.path, w.offset, w.size); }
    }
  }

  /** Worker k goes on to `next`, adding entries to the batch and to the log. */
  function Advance(run: Run, k: nat, next: Worker, more: seq<Entry>): Run
    requires k < |run.workers|
  {
    Run(run.db, run.batch + more, run.workers[k := next])
  }

  lemma StoreGrows(env: Env, run: Run, k: nat, next: Worker, more: seq<Entry>, key: bytes)
    requires k < |run.workers|
    ensures InStore(env, run, key) ==> InStore(env, Advance(run, k, next, more), key)
    ensures forall i | 0 <= i < |more| :: InStore(env, Advance(run, k, next, more), KeyOf(env, more[i]))
  {
    var t := Advance(run, k, next, more);
    if InStore(env, run, key) && key !in run.db {
      var i :| 0 <= i < |run.batch| && KeyOf(env, run.batch[i]) == key;
      assert t.batch[i] == run.batch[i];
    }
    forall i | 0 <= i < |more| ensures InStore(env, t, KeyOf(env, more[i])) {
      assert t.batch[|run.batch| + i] == more[i];
    }
  }

  lemma AdvanceKeepsOther(env: Env, job: Job, run: Run, issued: seq<C.Ticket>, log: seq<TypedEntry>,
                          k: nat, next: Worker, more: seq<Entry>, logged: seq<TypedEntry>, i: nat)
    requires k < |run.workers| && i < |run.workers| && i != k
    requires job.InFile(env, i) && WorkerOk(env, job, run, issued, log, i)
    ensures WorkerOk(env, job, Advance(run, k, next, more), issued, log + logged, i)
  {
    StoreGrows(env, run, k, next, more, K.ChonkKey(job.HashOf(env, i)));
    StoreGrows(env, run, k, next, more, K.RelationKey(job.fhash, i * env.chunk));
    StoreGrows(env, run, k, next, more, K.ReverseKey(job.HashOf(env, i), i * env.chunk));
    if run.workers[i].Recorded() && !InStore(env, run, K.ChonkKey(job.HashOf(env, i))) {
      var n :| 0 <= n < |log| && log[n].hash == job.HashOf(env, i);
      assert (log + logged)[n] == log[n];
    }
  }

  /** A step that leaves worker k in order and adds only good entries keeps the run in order. */
  lemma AdvanceKeepsRun(env: Env, job: Job, run: Run, issued: seq<C.Ticket>, log: seq<TypedEntry>,
                        k: nat, next: Worker, more: seq<Entry>, logged: seq<TypedEntry>)
    requires RunOk(env, job, run, issued, log) && k < |run.workers|
    requires BatchOk(env, job, issued, more) && LogOk(env, job, issued, logged)
    requires WorkerOk(env, job, Advance(run, k, next, more), issued, log + logged, k)
    ensures RunOk(env, job, Advance(run, k, next, more), issued, log + logged)
  {
    var t := Advance(run, k, next, more);
    forall i: nat | i < |t.workers| ensures WorkerOk(env, job, t, issued, log + logged, i) {
      if i != k { AdvanceKeepsOther(env, job, run, issued, log, k, next, more, logged, i); }
    }
    assert BatchOk(env, job, issued, t.batch);
  }

  /** Commit the first n batch entries. */
  function CommitSome(env: Env, run: Run, n: nat): Run
    requires n <= |run.batch|
  {
    run.(db := CommitAll(env, run.db, run.batch[..n]), batch := run.batch[n..])
  }

  lemma {:induction false} CommitAllOk(env: Env, job: Job, issued: seq<C.Ticket>, db: Db, batch: seq<Entry>)
    requires DbOk(env, job, issued, db) && BatchOk(env, job, issued, batch)
    ensures DbOk(env, job, issued, CommitAll(env, db, batch))
    ensures db.Keys <= CommitAll(env, db, batch).Keys
    ensures forall i | 0 <= i < |batch| :: KeyOf(env, batch[i]) in CommitAll(env, db, batch)
  {
    if batch != [] {
      CommitAllOk(env, job, issued, db, batch[..|batch| - 1]);
      forall i | 0 <= i < |batch| - 1 ensures KeyOf(env, batch[i]) in CommitAll(env, db, batch) {
        assert batch[..|batch| - 1][i] == batch[i];
      }
    }
  }

  /** A batch entry is in the store after a commit, whether it was among the first n or not. */
  lemma EntryStays(env: Env, job: Job, issued: seq<C.Ticket>, run: Run, n: nat, i: nat)
    requires DbOk(env, job, issued, run.db) && BatchOk(env, job, issued, run.batch)
    requires n <= |run.batch| && i < |run.batch|
    ensures InStore(env, CommitSome(env, run, n), KeyOf(env, run.batch[i]))
  {
    if i < n {
      CommitAllOk(env, job, issued, run.db, run.batch[..n]);
      assert run.batch[..n][i] == run.batch[i];
    } else {
      assert CommitSome(env, run, n).batch[i - n] == run.batch[i];
    }
  }

  lemma CommitKeepsStore(env: Env, job: Job, issued: seq<C.Ticket>, run: Run, n: nat, key: bytes)
    requires DbOk(env, job, issued, run.db) && BatchOk(env, job, issued, run.batch) && n <= |run.batch|
    requires InStore(env, run, key)
    ensures InStore(env, CommitSome(env, run, n), key)
  {
    if key in run.db {
      CommitAllOk(env, job, issued, run.db, run.batch[..n]);
    } else {
      var i :| 0 <= i < |run.batch| && KeyOf(env, run.batch[i]) == key;
      EntryStays(env, job, issued, run, n, i);
    }
  }

  lemma CommitKeepsRun(env: Env, job: Job, run: Run, issued: seq<C.Ticket>, log: seq<TypedEntry>, n: nat)
    requires RunOk(env, job, run, issued, log) && n <= |run.batch|
    ensures RunOk(env, job, CommitSome(env, run, n), issued, log)
  {
    var t := CommitSome(env, run, n);
    CommitAllOk(env, job, issued, run.db, run.batch[..n]);
    forall k: nat | k < |t.workers| ensures WorkerOk(env, job, t, issued, log, k) {
      assert WorkerOk(env, job, run, issued, log, k);
      if run.workers[k].Recorded() && InStore(env, run, K.ChonkKey(job.HashOf(env, k))) {
        CommitKeepsStore(env, job, issued, run, n, K.ChonkKey(job.HashOf(env, k)));
      }
      if run.workers[k].Related() {
        CommitKeepsStore(env, job, issued, run, n, K.RelationKey(job.fhash, k * env.chunk));
      }
      if run.workers[k].Done? {
        CommitKeepsStore(env, job, issued, run, n, K.ReverseKey(job.HashOf(env, k), k * env.chunk));
      }
    }
  }

  // ----- reading back -----

  /** GetChonkNode up to the container read: the database first, then the block index. */
  function Locate(env: Env, db: map<bytes, bytes>, blocks: map<bytes, bytes>, h: bytes): M.Route {
    if K.ChonkKey(h) in db then M.Parse(env.nodes.Get(db[K.ChonkKey(h)]))
    else match BI.Lookup(env.dir, blocks, h)
      case Found(path, offset, size) => M.InContainer(path, offset, size)
      case _ => M.Malformed
  }

  /** What a store leaves behind: database, block index files, container files. */
  datatype Stored = Stored(db: map<bytes, bytes>, blocks: map<bytes, bytes>, files: Files)

  /** The nodes an index of a file leads to: its relation, then its chunk's entry. */
  function Find(env: Env, s: Stored, fhash: bytes, index: nat): Option<M.Route> {
    var relKey := K.RelationKey(fhash, index);
    if relKey !in s.db then None else Some(Locate(env, s.db, s.blocks, env.nodes.Get(s.db[relKey])))
  }

  /** GetNode on the relation key, then GetChonkNode, without a cache. None is an error. */
  function IndexValue(env: Env, s: Stored, fhash: bytes, index: nat): Option<bytes> {
    match Find(env, s, fhash, index)
    case None => None
    case Some(Malformed) => None
    case Some(Legacy(file)) => if file in s.files then Some(CF.ReadChonk(env.comp, env.seal, s.files[file])) else None
    case Some(InContainer(path, offset, size)) =>
      ReadChunk(s.files, env.containers.zip, env.containers.codec, path, offset, size)
  }

  /** The relation of the index names a chunk of this hash. */
  predicate LeadsTo(env: Env, s: Stored, fhash: bytes, index: nat, h: bytes) {
    var relKey := K.RelationKey(fhash, index);
    relKey in s.db && env.nodes.Get(s.db[relKey]) == h
  }

  /** The database has this value under the chunk's key. */
  predicate Holds(env: Env, s: Stored, h: bytes, node: bytes) {
    K.ChonkKey(h) in s.db && env.nodes.Get(s.db[K.ChonkKey(h)]) == node
  }

  /** The first format: a chunk key that holds the path of a chunk file reads as the
      chunk that file was written for, whatever else the database and the block
      index say. */
  lemma OldStyleReads(env: Env, s: Stored, fhash: bytes, index: nat, h: bytes, file: bytes, x: bytes)
    requires env.comp.Faithful() && env.seal.Faithful()
    requires LeadsTo(env, s, fhash, index, h) && Holds(env, s, h, file) && Text.Count(file, M.PIPE) != 2
    requires file in s.files && CF.WriteChonk(env.comp, env.seal, x) == Some(s.files[file])
    ensures IndexValue(env, s, fhash, index) == Some(x)
  {
    M.LegacyRouting(file);
    CF.ChonkReadsBack(env.comp, env.seal, x);
  }

  /** The second: metadata under the chunk key is followed into its container,
      whatever the block index says. */
  lemma MetadataReads(env: Env, s: Stored, fhash: bytes, index: nat, h: bytes, path: bytes, offset: int, size: int)
    requires LeadsTo(env, s, fhash, index, h) && Holds(env, s, h, M.Print(path, offset, size))
    requires M.PIPE !in path && IsInt64(offset) && IsInt64(size)
    ensures IndexValue(env, s, fhash, index) ==
            ReadChunk(s.files, env.containers.zip, env.containers.codec, path, offset, size)
  {
    M.RoundTrip(path, offset, size);
  }

  /** The third: without a chunk key the block index is asked, and what it finds is
      followed; when it finds nothing the read fails. */
  lemma IndexedReads(env: Env, s: Stored, fhash: bytes, index: nat, h: bytes)
    requires LeadsTo(env, s, fhash, index, h) && K.ChonkKey(h) !in s.db
    ensures match BI.Lookup(env.dir, s.blocks, h)
            case Found(path, offset, size) =>
              IndexValue(env, s, fhash, index) ==
              ReadChunk(s.files, env.containers.zip, env.containers.codec, path, offset, size)
            case _ => IndexValue(env, s, fhash, index) == None
  {}

  /** The relation of an index leads to a chunk entry, and that to the chunk. */
  ghost predicate Readable(env: Env, job: Job, s: Stored, k: nat)
    requires job.InFile(env, k)
  {
    IndexValue(env, s, job.fhash, k * env.chunk) == Some(job.ChunkOf(env, k))
  }

  /** The lookup fails before any container is read. */
  ghost predicate Lost(env: Env, s: Stored, fhash: bytes, index: nat) {
    match Find(env, s, fhash, index)
    case None => true
    case Some(Malformed) => true
    case Some(Legacy(file)) => file !in s.files
    case Some(InContainer(_, _, _)) => false
  }

  ghost predicate DeliveredAt(env: Env, job: Job, s: Stored, k: nat)
    requires job.InFile(env, k)
  {
    if env.MetadataParses() then Readable(env, job, s, k) else Lost(env, s, job.fhash, k * env.chunk)
  }

  /** The reverse relation of a chunk at its index lists the file, and nothing else. */
  ghost predicate ReverseAt(env: Env, job: Job, s: Stored, k: nat)
    requires job.InFile(env, k)
  {
    var key := K.ReverseKey(job.HashOf(env, k), k * env.chunk);
    key in s.db && s.db[key] == env.nodes.Put(env.encodeNames({job.fhash}))
  }

  /** What a successful store leaves: the file's chunks, unless the metadata does
      not parse, its reverse relations, and no relation of any other file. */
  ghost predicate Delivered(env: Env, job: Job, s: Stored) {
    && (forall k: nat | job.InFile(env, k) :: DeliveredAt(env, job, s, k) && ReverseAt(env, job, s, k))
    && (forall fhash, index: nat | fhash != job.fhash && index <= INT64_MAX :: Lost(env, s, fhash, index))
  }

  /** A ticket for a chunk's hash reads back that very chunk, since hashes do not collide. */
  lemma TicketIsTheChunk(env: Env, job: Job, s: C.State, x: bytes, path: bytes, offset: int, size: int)
    requires env.Assumed() && job.Assumed(env) && job.IsChunk(env, x)
    requires C.Sound(env.containers, s) && TicketFor(env, job, s.issued, env.hash(x), path, offset, size)
    ensures ReadChunk(s.files, env.containers.zip, env.containers.codec, path, offset, size) == Some(x)
    ensures (M.PIPE in path <==> M.PIPE in env.root) && |path| < 65536
    ensures env.nodes.Keeps(M.Print(path, offset, size))
  {
    var i :| 0 <= i < |s.issued| && Says(env, job, s.issued[i], env.hash(x), path, offset, size);
    var t := s.issued[i];
    C.TicketReads(env.containers, t, s.files, s.ids, s.packed);
    PipeOnlyInRoot(env, s.ids[t.slot.container]);
  }

  lemma SameRelation(env: Env, job: Job, e: Entry, fhash: bytes, index: int)
    requires e.RelEntry? && job.InFile(env, e.k) && |job.evidence| <= INT64_MAX && 0 <= index <= INT64_MAX
    requires KeyOf(env, e) == K.RelationKey(fhash, index)
    ensures e.fhash == fhash && e.k * env.chunk == index
  {
    K.RelationKeyInjective(e.fhash, e.k * env.chunk, fhash, index);
  }

  lemma KeyIsRelation(env: Env, e: Entry, fhash: bytes, index: int)
    requires KeyOf(env, e) == K.RelationKey(fhash, index)
    ensures e.RelEntry?
  {
    if !e.RelEntry? { K.KeysApart(e.h, fhash, index, e.h, if e.RevEntry? then e.k * env.chunk else 0); }
  }

  /** Whatever stands under a relation key is a relation of the file at that index. */
  lemma RelationEntry(env: Env, job: Job, issued: seq<C.Ticket>, db: Db, fhash: bytes, index: nat) returns (e: Entry)
    requires |job.evidence| <= INT64_MAX && DbOk(env, job, issued, db) && index <= INT64_MAX
    requires K.RelationKey(fhash, index) in db
    ensures e == db[K.RelationKey(fhash, index)] && e.RelEntry? && EntryOk(env, job, issued, e)
    ensures e.fhash == fhash == job.fhash && e.k * env.chunk == index
  {
    var key := K.RelationKey(fhash, index);
    e := db[key];
    assert KeyOf(env, e) == key && EntryOk(env, job, issued, e);
    KeyIsRelation(env, e, fhash, index);
    SameRelation(env, job, e, fhash, index);
  }

  lemma SameMultiple(a: nat, b: nat, m: nat)
    requires m > 0 && a * m == b * m
    ensures a == b
  {
    assert (a - b) * m == 0;
  }

  lemma RelationReadable(env: Env, job: Job, issued: seq<C.Ticket>, db: Db, k: nat)
    requires env.chunk > 0 && DbOk(env, job, issued, db) && job.InFile(env, k)
    requires |job.evidence| <= INT64_MAX && job.ChunkFits(env, k)
    requires K.RelationKey(job.fhash, k * env.chunk) in db
    ensures env.nodes.Get(Raw(env, db)[K.RelationKey(job.fhash, k * env.chunk)]) == job.HashOf(env, k)
  {
    var key := K.RelationKey(job.fhash, k * env.chunk);
    var e := RelationEntry(env, job, issued, db, job.fhash, k * env.chunk);
    SameMultiple(e.k, k, env.chunk);
    assert Raw(env, db)[key] == ValueOf(env, e) == env.nodes.Put(job.HashOf(env, k));
  }

  /** No other file's relations are in the database. */
  lemma OthersAreLost(env: Env, job: Job, issued: seq<C.Ticket>, db: Db, s: Stored, fhash: bytes, index: nat)
    requires job.Assumed(env) && DbOk(env, job, issued, db) && s.db == Raw(env, db)
    requires fhash != job.fhash && index <= INT64_MAX
    ensures Lost(env, s, fhash, index)
  {
    if K.RelationKey(fhash, index) in db {
      var e := RelationEntry(env, job, issued, db, fhash, index);
    }
  }

  lemma KeyIsChunk(env: Env, e: Entry, h: bytes)
    requires KeyOf(env, e) == K.ChonkKey(h)
    ensures e.ChunkEntry? && e.h == h
  {
    if e.ChunkEntry? {
      K.ChonkKeyInjective(e.h, h);
    } else {
      K.KeysApart(h, if e.RelEntry? then e.fhash else [], e.k * env.chunk, e.h, e.k * env.chunk);
    }
  }

  /** Whatever stands under a chunk key is the metadata of a ticket for that hash. */
  lemma ChunkEntryUnder(env: Env, job: Job, issued: seq<C.Ticket>, db: Db, h: bytes) returns (e: Entry)
    requires DbOk(env, job, issued, db) && K.ChonkKey(h) in db
    ensures e == db[K.ChonkKey(h)] && e.ChunkEntry? && e.h == h && EntryOk(env, job, issued, e)
  {
    var key := K.ChonkKey(h);
    e := db[key];
    assert KeyOf(env, e) == key && EntryOk(env, job, issued, e);
    KeyIsChunk(env, e, h);
  }

  /** A chunk on record has a ticket. */
  lemma ChunkHasTicket(env: Env, job: Job, run: Run, issued: seq<C.Ticket>, log: seq<TypedEntry>, k: nat)
    requires DbOk(env, job, issued, run.db) && BatchOk(env, job, issued, run.batch) && LogOk(env, job, issued, log)
    requires job.InFile(env, k) && HasChunk(env, job, run, log, k)
    ensures issued != []
  {
    var h := job.HashOf(env, k);
    if K.ChonkKey(h) in run.db {
      var e := ChunkEntryUnder(env, job, issued, run.db, h);
    } else if InStore(env, run, K.ChonkKey(h)) {
      var i :| 0 <= i < |run.batch| && KeyOf(env, run.batch[i]) == K.ChonkKey(h);
      KeyIsChunk(env, run.batch[i], h);
      assert EntryOk(env, job, issued, run.batch[i]);
    } else {
      var i :| 0 <= i < |log| && log[i].hash == h;
      assert TicketFor(env, job, issued, log[i].hash, log[i].path, log[i].offset, log[i].size);
    }
  }

  lemma ChunkReadableFlat(env: Env, s: C.State, job: Job, db: Db, x: bytes)
    requires env.Assumed() && job.Assumed(env) && job.IsChunk(env, x) && M.PIPE !in env.root
    requires C.Sound(env.containers, s) && DbOk(env, job, s.issued, db)
    requires K.ChonkKey(env.hash(x)) in db
    ensures var r := M.Parse(env.nodes.Get(Raw(env, db)[K.ChonkKey(env.hash(x))]));
            r.InContainer? &&
            ReadChunk(s.files, env.containers.zip, env.containers.codec, r.path, r.offset, r.size) == Some(x)
  {
    var e := ChunkEntryUnder(env, job, s.issued, db, env.hash(x));
    TicketIsTheChunk(env, job, s, x, e.path, e.offset, e.size);
    M.RoundTrip(e.path, e.offset, e.size);
  }

  lemma ContainerNamesEnd(env: Env, p: bytes)
    requires C.ContainerNamed(env.containers, p)
    ensures p != [] && !Text.IsDigit(p[|p| - 1])
  {
    var i: nat :| i <= env.containers.limit
                  && (p == env.containers.Blob(i) || p == CompressedPath(env.containers.Blob(i))
                      || p == TempPath(env.containers.Blob(i)));
    BlobNames(env.containers.base(i));
  }

  lemma MetadataIsNoFile(env: Env, files: Files, path: bytes, offset: int, size: int)
    requires C.OnlyContainers(env.containers, files)
    ensures M.Print(path, offset, size) !in files
  {
    var node := M.Print(path, offset, size);
    M.PrintEndsInDigit(path, offset, size);
    if node in files { ContainerNamesEnd(env, node); }
  }

  /** With a pipe in the directory the metadata names an old-style file that is not there. */
  lemma ChunkLostFlat(env: Env, s: C.State, job: Job, db: Db, x: bytes)
    requires env.Assumed() && job.Assumed(env) && job.IsChunk(env, x) && M.PIPE in env.root
    requires C.Sound(env.containers, s) && C.OnlyContainers(env.containers, s.files) && DbOk(env, job, s.issued, db)
    requires K.ChonkKey(env.hash(x)) in db
    ensures var r := M.Parse(env.nodes.Get(Raw(env, db)[K.ChonkKey(env.hash(x))])); r.Legacy? && r.file !in s.files
  {
    var e := ChunkEntryUnder(env, job, s.issued, db, env.hash(x));
    TicketIsTheChunk(env, job, s, x, e.path, e.offset, e.size);
    M.RoundTrip(e.path, e.offset, e.size);
    MetadataIsNoFile(env, s.files, e.path, e.offset, e.size);
  }

  lemma NoChunkKeysInHierarchicalMode(env: Env, job: Job, issued: seq<C.Ticket>, db: Db, h: bytes)
    requires env.hierarchical && DbOk(env, job, issued, db)
    ensures K.ChonkKey(h) !in db
  {
    if K.ChonkKey(h) in db {
      var e := ChunkEntryUnder(env, job, issued, db, h);
    }
  }

  /** Every path logged is short enough to be read back. */
  lemma LoggedFits(env: Env, job: Job, s: C.State, log: seq<TypedEntry>, i: nat)
    requires env.Assumed() && C.Sound(env.containers, s) && LogOk(env, job, s.issued, log) && i < |log|
    ensures log[i].Fits()
  {
    var e := log[i];
    assert TicketFor(env, job, s.issued, e.hash, e.path, e.offset, e.size);
    var n :| 0 <= n < |s.issued| && Says(env, job, s.issued[n], e.hash, e.path, e.offset, e.size);
    assert C.Honest(env.containers, s.issued[n], s.ids, s.packed);
  }

  /** The first logged entry of the hash leads to the chunk. */
  lemma ChunkReadableIndexed(env: Env, job: Job, s: C.State, log: seq<TypedEntry>, l: BI.Ledger, x: bytes)
    requires env.Assumed() && job.Assumed(env) && job.IsChunk(env, x)
    requires C.Sound(env.containers, s) && LogOk(env, job, s.issued, log)
    requires BI.Settled(env.dir, l, log) && BI.FromLog(l, log)
    requires exists i :: 0 <= i < |log| && log[i].hash == env.hash(x)
    ensures var r := BI.Lookup(env.dir, BI.FilesOf(l.stored), env.hash(x));
            r.Found? &&
            ReadChunk(s.files, env.containers.zip, env.containers.codec, r.path, r.offset, r.size) == Some(x)
  {
    forall i | 0 <= i < |log| ensures log[i].Fits() { LoggedFits(env, job, s, log, i); }
    BI.LookupIsFirstLogged(env.dir, l, log, env.hash(x));
    var m := FirstMatch(log, env.hash(x)).value;
    TicketIsTheChunk(env, job, s, x, m.path, m.offset, m.size);
  }

  /** After a successful run, committed and closed, every chunk of the file is
      readable, or lost when the metadata does not parse. */
  lemma FinishedIndex(env: Env, job: Job, run: Run, s: C.State, log: seq<TypedEntry>, l: BI.Ledger, k: nat)
    requires env.Assumed() && job.Assumed(env) && C.Sound(env.containers, s) && RunOk(env, job, run, s.issued, log)
    requires C.OnlyContainers(env.containers, s.files)
    requires run.batch == [] && job.InFile(env, k) && run.workers[k].Done?
    requires if env.hierarchical then BI.Settled(env.dir, l, log) && BI.FromLog(l, log) else log == []
    ensures DeliveredAt(env, job, Stored(Raw(env, run.db), BI.FilesOf(l.stored), s.files), k)
  {
    assert WorkerOk(env, job, run, s.issued, log, k);
    RelationReadable(env, job, s.issued, run.db, k);
    var x := job.ChunkOf(env, k);
    if env.hierarchical {
      NoChunkKeysInHierarchicalMode(env, job, s.issued, run.db, env.hash(x));
      ChunkReadableIndexed(env, job, s, log, l, x);
    } else if M.PIPE !in env.root {
      ChunkReadableFlat(env, s, job, run.db, x);
    } else {
      ChunkLostFlat(env, s, job, run.db, x);
    }
  }

  lemma KeyIsReverse(env: Env, e: Entry, h: bytes, index: int)
    requires KeyOf(env, e) == K.ReverseKey(h, index)
    ensures e.RevEntry?
  {
    if !e.RevEntry? {
      K.KeysApart(e.h, if e.RelEntry? then e.fhash else [], if e.RelEntry? then e.k * env.chunk else 0, h, index);
    }
  }

  lemma ReverseUnder(env: Env, job: Job, issued: seq<C.Ticket>, db: Db, k: nat)
    requires DbOk(env, job, issued, db) && job.InFile(env, k)
    requires K.ReverseKey(job.HashOf(env, k), k * env.chunk) in db
    ensures Raw(env, db)[K.ReverseKey(job.HashOf(env, k), k * env.chunk)] ==
            env.nodes.Put(env.encodeNames({job.fhash}))
  {
    var key := K.ReverseKey(job.HashOf(env, k), k * env.chunk);
    var e := db[key];
    assert KeyOf(env, e) == key && EntryOk(env, job, issued, e);
    KeyIsReverse(env, e, job.HashOf(env, k), k * env.chunk);
  }

  lemma FinishedIsDelivered(env: Env, job: Job, run: Run, s: C.State, log: seq<TypedEntry>, l: BI.Ledger)
    requires env.Assumed() && job.Assumed(env) && C.Sound(env.containers, s) && RunOk(env, job, run, s.issued, log)
    requires C.OnlyContainers(env.containers, s.files)
    requires run.batch == [] && forall k: nat | k < |run.workers| :: run.workers[k].Done?
    requires if env.hierarchical then BI.Settled(env.dir, l, log) && BI.FromLog(l, log) else log == []
    ensures Delivered(env, job, Stored(Raw(env, run.db), BI.FilesOf(l.stored), s.files))
  {
    var stored := Stored(Raw(env, run.db), BI.FilesOf(l.stored), s.files);
    forall k: nat | job.InFile(env, k) ensures DeliveredAt(env, job, stored, k) && ReverseAt(env, job, stored, k) {
      FinishedIndex(env, job, run, s, log, l, k);
      assert WorkerOk(env, job, run, s.issued, log, k);
      ReverseUnder(env, job, s.issued, run.db, k);
    }
    forall fhash, index: nat | fhash != job.fhash && index <= INT64_MAX ensures Lost(env, stored, fhash, index) {
      OthersAreLost(env, job, s.issued, run.db, stored, fhash, index);
    }
  }
}
