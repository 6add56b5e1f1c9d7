/** Storing evidence files one file per chunk (lib/store/store.go,
    lib/fio/fio.go, cli/cmdstore.go): attempts run one after the other, their
    workers interleave, the batch commits when it likes, and an attempt may stop
    between any two steps and be retried. */
module StoreLedger {
  import opened Basics
  import opened Metadata
  import opened RangeTrim
  import CF = ChunkFiles
  import K = Keys
  import Text

  /** The evidence behind each file hash, what a store names it by and a restore
      looks it up by, chunk hashing, the blob directory and the paths of blobs in
      it, the two codecs of a blob, and the chunk size. */
  datatype Env = Env(file: bytes -> bytes, name: bytes -> bytes, sought: bytes -> bytes,
                     hash: bytes -> bytes, root: bytes, blobName: bytes -> bytes, comp: Codec, seal: Codec, chunk: nat)
  {
    /** The names are those of GetHash and getEvidenceFileMeta, which cut a hash short. */
    ghost predicate Cuts() {
      && (forall f :: name(f) == K.StoredHash(K.EvidenceId(f)))
      && (forall f :: sought(f) == K.RestoredHash(K.EvidenceId(f)))
    }

    /** Chunk k of file f exists; it starts at index k * chunk. */
    predicate InFile(f: bytes, k: nat) {
      k * chunk < |file(f)|
    }

    function ChunkOf(f: bytes, k: nat): bytes
      requires InFile(f, k)
    {
      ChunkAt(file(f), chunk, k * chunk)
    }

    ghost predicate KnownChunk(x: bytes) {
      chunk > 0 && exists f, k :: InFile(f, k) && ChunkOf(f, k) == x
    }

    /** Hashing and blob naming do not collide on the chunks of the files. */
    ghost predicate Assumed() {
      && chunk > 0 && comp.Faithful() && seal.Faithful()
      && (forall x, y | KnownChunk(x) && KnownChunk(y) :: hash(x) == hash(y) ==> x == y)
      && (forall x, y | KnownChunk(x) && KnownChunk(y) :: blobName(hash(x)) == blobName(hash(y)) ==> hash(x) == hash(y))
    }

    /** A path below the root, which ends in .blob and is otherwise base64. */
    predicate BelowRoot(path: bytes) {
      && |root| < |path| && path[..|root|] == root
      && PIPE !in path[|root|..] && !Text.IsDigit(path[|path| - 1])
    }

    ghost predicate Rooted() {
      forall h :: BelowRoot(blobName(h))
    }

    /** Below the root a blob path is told from container metadata. */
    predicate PathsRoute() {
      Text.Count(root, PIPE) != 2
    }

    function HashOf(f: bytes, k: nat): bytes
      requires InFile(f, k)
    {
      hash(ChunkOf(f, k))
    }

    /** WriteChonk's bytes for a chunk; None when sealing fails. */
    function Blob(x: bytes): Option<bytes> {
      CF.WriteChonk(comp, seal, x)
    }

    function ReadChonk(blob: bytes): bytes {
      CF.ReadChonk(comp, seal, blob)
    }
  }

  /** Evidence nodes stand under the whole file hash; relations and the
      members of reverse relations are stored names. Relation and
      reverse-relation keys carry the chunk's number for its index. */
  datatype Db = Db(chunks: map<bytes, bytes>, rel: map<(bytes, nat), bytes>,
                   rev: map<(bytes, nat), set<bytes>>, completed: map<bytes, bool>)
  {
    /** The files some attempt was made for. */
    function Begun(): set<bytes> {
      completed.Keys
    }

    function Rev(h: bytes, k: nat): set<bytes> {
      if (h, k) in rev then rev[(h, k)] else {}
    }
  }

  datatype Write =
    | PutChunk(h: bytes, path: bytes)
    | PutRel(name: bytes, k: nat, h: bytes)
    | PutRev(h: bytes, k: nat, names: set<bytes>)

  /** A worker's next action. */
  datatype Worker =
    | PingChunk | WriteBlob | SetChunk | PingRel | SetRel | ReadRev | SetRev(names: set<bytes>) | Reported
  {
    function Rank(): nat {
      match this
      case PingChunk => 0
      case WriteBlob => 1
      case SetChunk => 2
      case PingRel => 3
      case SetRel => 4
      case ReadRev => 5
      case SetRev(_) => 6
      case Reported => 7
    }
  }

  datatype Job = Job(f: bytes, workers: seq<Worker>, pending: set<Write>, flushed: bool)

  datatype State = State(db: Db, blobs: map<bytes, bytes>, job: Option<Job>)

  const EMPTY: State := State(Db(map[], map[], map[], map[]), map[], None)

  datatype Step =
    | Begin(f: bytes, workers: nat)
    | Work(k: nat)
    | Commit(w: Write)
    | Flush
    | Complete
    | Stop

  function Commits(db: Db, w: Write): Db {
    match w
    case PutChunk(h, path) => db.(chunks := db.chunks[h := path])
    case PutRel(name, k, h) => db.(rel := db.rel[(name, k) := h])
    case PutRev(h, k, names) => db.(rev := db.rev[(h, k) := names])
  }

  /** An attempt starts with one worker per chunk; pending writes may reach the
      database one by one at any time, and Flush returns when all have. */
  ghost predicate Enabled(env: Env, s: State, step: Step) {
    match step
    case Begin(f, n) => s.job.None? && |f| == K.FILE_HASH_LENGTH && (forall k: nat :: k < n <==> env.InFile(f, k))
    case Work(k) =>
      && s.job.Some? && k < |s.job.value.workers| && env.InFile(s.job.value.f, k)
      && !s.job.value.workers[k].Reported?
      && (s.job.value.workers[k].WriteBlob? ==> env.Blob(env.ChunkOf(s.job.value.f, k)).Some?)
    case Commit(w) => s.job.Some? && w in s.job.value.pending
    case Flush =>
      && s.job.Some? && s.job.value.pending == {}
      && forall k | 0 <= k < |s.job.value.workers| :: s.job.value.workers[k].Reported?
    case Complete => s.job.Some? && s.job.value.flushed
    case Stop => s.job.Some?
  }

  /** A worker's next action (storeWorker, processChonk, processRel,
      processRevRel): where it stands then, and what it has put into the batch. */
  function Move(env: Env, db: Db, f: bytes, w: Worker, k: nat): (Worker, set<Write>)
    requires env.InFile(f, k)
  {
    var h, name := env.HashOf(f, k), env.name(f);
    match w
    case PingChunk => (if h in db.chunks then PingRel else WriteBlob, {})
    case WriteBlob => (SetChunk, {})
    case SetChunk => (PingRel, {PutChunk(h, env.blobName(h))})
    case PingRel => (if (name, k) in db.rel then ReadRev else SetRel, {})
    case SetRel => (ReadRev, {PutRel(name, k, h)})
    case ReadRev => (SetRev(db.Rev(h, k) + {name}), {})
    case SetRev(names) => (Reported, {PutRev(h, k, names)})
    case Reported => (Reported, {})
  }

  function BlobsAfter(env: Env, blobs: map<bytes, bytes>, f: bytes, w: Worker, k: nat): map<bytes, bytes>
    requires env.InFile(f, k) && (w.WriteBlob? ==> env.Blob(env.ChunkOf(f, k)).Some?)
  {
    if w.WriteBlob? then blobs[env.blobName(env.HashOf(f, k)) := env.Blob(env.ChunkOf(f, k)).value] else blobs
  }

  function WorkOn(env: Env, s: State, k: nat): State
    requires s.job.Some? && k < |s.job.value.workers| && env.InFile(s.job.value.f, k)
    requires s.job.value.workers[k].WriteBlob? ==> env.Blob(env.ChunkOf(s.job.value.f, k)).Some?
  {
    var j := s.job.value;
    var (next, writes) := Move(env, s.db, j.f, j.workers[k], k);
    State(s.db, BlobsAfter(env, s.blobs, j.f, j.workers[k], k),
          Some(Job(j.f, j.workers[k := next], j.pending + writes, j.flushed)))
  }

  function Apply(env: Env, s: State, step: Step): State
    requires Enabled(env, s, step)
  {
    match step
    case Begin(f, n) =>
      if f in s.db.completed && s.db.completed[f] then s
      else
        State(s.db.(completed := s.db.completed[f := false]), s.blobs, Some(Job(f, seq(n, _ => PingChunk), {}, false)))
    case Work(k) => WorkOn(env, s, k)
    case Commit(w) =>
      s.(db := Commits(s.db, w), job := Some(s.job.value.(pending := s.job.value.pending - {w})))
    case Flush => s.(job := Some(s.job.value.(flushed := true)))
    case Complete => s.(db := s.db.(completed := s.db.completed[s.job.value.f := true]), job := None)
    case Stop => s.(job := None)
  }

  // ----- what every database and batch entry means -----

  /** The blob of a chunk hash is there and reads back as a file's chunk with that hash. */
  ghost predicate BlobOk(env: Env, blobs: map<bytes, bytes>, h: bytes) {
    && env.blobName(h) in blobs
    && env.KnownChunk(env.ReadChonk(blobs[env.blobName(h)]))
    && env.hash(env.ReadChonk(blobs[env.blobName(h)])) == h
  }

  ghost predicate IsChunk(env: Env, f: bytes, k: nat, h: bytes) {
    env.InFile(f, k) && env.HashOf(f, k) == h
  }

  /** Some file begun under this name has this chunk. */
  ghost predicate Owned(env: Env, begun: set<bytes>, name: bytes, k: nat, h: bytes) {
    exists g :: g in begun && env.name(g) == name && IsChunk(env, g, k, h)
  }

  ghost predicate AllOwned(env: Env, begun: set<bytes>, names: set<bytes>, k: nat, h: bytes) {
    forall n | n in names :: Owned(env, begun, n, k, h)
  }

  /** A pending write says something true and undoes nothing the database says. */
  ghost predicate WriteOk(env: Env, blobs: map<bytes, bytes>, db: Db, w: Write) {
    match w
    case PutChunk(h, path) => path == env.blobName(h) && BlobOk(env, blobs, h)
    case PutRel(name, k, h) => (name, k) !in db.rel && Owned(env, db.Begun(), name, k, h)
    case PutRev(h, k, names) => AllOwned(env, db.Begun(), names, k, h) && db.Rev(h, k) <= names
  }

  ghost predicate ChunksOk(env: Env, blobs: map<bytes, bytes>, db: Db) {
    forall h | h in db.chunks :: db.chunks[h] == env.blobName(h) && BlobOk(env, blobs, h)
  }

  ghost predicate RelsOk(env: Env, db: Db) {
    forall key | key in db.rel :: Owned(env, db.Begun(), key.0, key.1, db.rel[key])
  }

  ghost predicate RevsOk(env: Env, db: Db) {
    forall key | key in db.rev :: AllOwned(env, db.Begun(), db.rev[key], key.1, key.0)
  }

  ghost predicate HashesOk(db: Db) {
    forall f | f in db.completed :: |f| == K.FILE_HASH_LENGTH
  }

  /** Every node an index of a stored file asks for is in the database. */
  ghost predicate Settled(env: Env, db: Db, f: bytes, k: nat)
    requires env.InFile(f, k)
  {
    var h := env.HashOf(f, k);
    h in db.chunks && (env.name(f), k) in db.rel && env.name(f) in db.Rev(h, k)
  }

  ghost predicate CompletedOk(env: Env, db: Db) {
    forall f, k: nat | f in db.completed && db.completed[f] && env.InFile(f, k) :: Settled(env, db, f, k)
  }

  ghost predicate RevOnItsWay(db: Db, pending: set<Write>, name: bytes, k: nat, h: bytes) {
    name in db.Rev(h, k) || exists names :: PutRev(h, k, names) in pending && name in names
  }

  /** How far a worker is, and what that has put on its way. */
  ghost predicate WorkerOk(env: Env, blobs: map<bytes, bytes>, db: Db, f: bytes, pending: set<Write>, w: Worker, k: nat)
    requires env.InFile(f, k)
  {
    var h, name := env.HashOf(f, k), env.name(f);
    && (w.SetChunk? ==> BlobOk(env, blobs, h))
    && (w.Rank() >= 3 ==> h in db.chunks || PutChunk(h, env.blobName(h)) in pending)
    && (w.SetRel? ==> (name, k) !in db.rel)
    && (w.Rank() >= 5 ==> (name, k) in db.rel || PutRel(name, k, h) in pending)
    && (w.SetRev? ==> name in w.names && db.Rev(h, k) <= w.names && AllOwned(env, db.Begun(), w.names, k, h))
    && (w.Reported? ==> RevOnItsWay(db, pending, name, k, h))
  }

  /** A relation or reverse entry in the batch is the job's own, put there by a
      worker that is past putting it. */
  ghost predicate WriteOwn(env: Env, f: bytes, workers: seq<Worker>, w: Write) {
    match w
    case PutChunk(_, _) => true
    case PutRel(name, k, h) => name == env.name(f) && IsChunk(env, f, k, h) && k < |workers| && workers[k].Rank() >= 5
    case PutRev(h, k, _) => k < |workers| && workers[k].Reported?
  }

  /** The batch holds at most one reverse entry per index. */
  ghost predicate RevWritesApart(pending: set<Write>) {
    forall v, w | v in pending && w in pending && v.PutRev? && w.PutRev? && v.k == w.k :: v == w
  }

  ghost predicate WritesOk(env: Env, blobs: map<bytes, bytes>, db: Db, f: bytes, pending: set<Write>,
                           workers: seq<Worker>) {
    && (forall w | w in pending :: WriteOk(env, blobs, db, w) && WriteOwn(env, f, workers, w))
    && RevWritesApart(pending)
  }

  ghost predicate WorkersOk(env: Env, blobs: map<bytes, bytes>, db: Db, f: bytes, pending: set<Write>,
                            workers: seq<Worker>) {
    && (forall k: nat :: k < |workers| <==> env.InFile(f, k))
    && (forall k: nat | k < |workers| :: WorkerOk(env, blobs, db, f, pending, workers[k], k))
  }

  ghost predicate JobOk(env: Env, blobs: map<bytes, bytes>, db: Db, j: Job) {
    && j.f in db.Begun()
    && WritesOk(env, blobs, db, j.f, j.pending, j.workers)
    && WorkersOk(env, blobs, db, j.f, j.pending, j.workers)
    && (j.flushed ==> j.pending == {} && forall k: nat | k < |j.workers| :: j.workers[k].Reported?)
  }

  ghost predicate Inv(env: Env, s: State) {
    && ChunksOk(env, s.blobs, s.db) && RelsOk(env, s.db) && RevsOk(env, s.db) && HashesOk(s.db)
    && CompletedOk(env, s.db)
    && (s.job.Some? ==> JobOk(env, s.blobs, s.db, s.job.value))
  }

  // ----- a worker's action -----

  lemma BlobReadsBack(env: Env, x: bytes)
    requires env.Assumed() && env.Blob(x).Some?
    ensures env.ReadChonk(env.Blob(x).value) == x
  {
    CF.ChonkReadsBack(env.comp, env.seal, x);
  }

  /** Writing the blob of one chunk leaves every blob that was good, good. */
  lemma BlobWriteKeeps(env: Env, blobs: map<bytes, bytes>, x: bytes, h: bytes)
    requires env.Assumed() && env.Blob(x).Some? && env.KnownChunk(x)
    ensures var after := blobs[env.blobName(env.hash(x)) := env.Blob(x).value];
            && BlobOk(env, after, env.hash(x))
            && (BlobOk(env, blobs, h) ==> BlobOk(env, after, h))
  {
    BlobReadsBack(env, x);
  }

  ghost predicate BlobsKept(env: Env, before: map<bytes, bytes>, after: map<bytes, bytes>) {
    forall h | BlobOk(env, before, h) :: BlobOk(env, after, h)
  }

  lemma BlobsAfterKept(env: Env, blobs: map<bytes, bytes>, f: bytes, w: Worker, k: nat)
    requires env.Assumed() && env.InFile(f, k) && (w.WriteBlob? ==> env.Blob(env.ChunkOf(f, k)).Some?)
    ensures var after := BlobsAfter(env, blobs, f, w, k);
            BlobsKept(env, blobs, after) && (w.WriteBlob? ==> BlobOk(env, after, env.HashOf(f, k)))
  {
    if w.WriteBlob? {
      var x := env.ChunkOf(f, k);
      BlobWriteKeeps(env, blobs, x, env.hash(x));
      forall h | BlobOk(env, blobs, h) ensures BlobOk(env, BlobsAfter(env, blobs, f, w, k), h) {
        BlobWriteKeeps(env, blobs, x, h);
      }
    }
  }

  /** More blobs and a fuller batch leave a worker's standing. */
  lemma WorkerStays(env: Env, before: map<bytes, bytes>, after: map<bytes, bytes>, db: Db, f: bytes,
                    pending: set<Write>, more: set<Write>, w: Worker, k: nat)
    requires env.InFile(f, k) && BlobsKept(env, before, after) && WorkerOk(env, before, db, f, pending, w, k)
    ensures WorkerOk(env, after, db, f, pending + more, w, k)
  {
    var h, name := env.HashOf(f, k), env.name(f);
    if w.Reported? && name !in db.Rev(h, k) {
      var names :| PutRev(h, k, names) in pending && name in names;
      assert PutRev(h, k, names) in pending + more;
    }
  }

  lemma RevNamesOwned(env: Env, db: Db, k: nat, h: bytes)
    requires RevsOk(env, db)
    ensures AllOwned(env, db.Begun(), db.Rev(h, k), k, h)
  {
    var key := (h, k);
    if key in db.rev { assert AllOwned(env, db.Begun(), db.rev[key], key.1, key.0); }
  }

  lemma WorkerMoves(env: Env, before: map<bytes, bytes>, after: map<bytes, bytes>, db: Db, f: bytes,
                    pending: set<Write>, w: Worker, k: nat)
    requires env.InFile(f, k) && BlobsKept(env, before, after) && WorkerOk(env, before, db, f, pending, w, k)
    requires w.WriteBlob? ==> BlobOk(env, after, env.HashOf(f, k))
    requires f in db.Begun() && RevsOk(env, db)
    ensures var (next, writes) := Move(env, db, f, w, k); WorkerOk(env, after, db, f, pending + writes, next, k)
  {
    var h, name := env.HashOf(f, k), env.name(f);
    var (next, writes) := Move(env, db, f, w, k);
    WorkerStays(env, before, after, db, f, pending, writes, w, k);
    if w.ReadRev? {
      assert Owned(env, db.Begun(), name, k, h) by { assert IsChunk(env, f, k, h); }
      RevNamesOwned(env, db, k, h);
    }
  }

  lemma MoveWrites(env: Env, blobs: map<bytes, bytes>, db: Db, f: bytes, pending: set<Write>,
                   workers: seq<Worker>, k: nat, v: Write)
    requires env.InFile(f, k) && k < |workers| && WorkerOk(env, blobs, db, f, pending, workers[k], k) && f in db.Begun()
    requires v in Move(env, db, f, workers[k], k).1
    ensures WriteOk(env, blobs, db, v)
    ensures WriteOwn(env, f, workers[k := Move(env, db, f, workers[k], k).0], v)
  {
    assert IsChunk(env, f, k, env.HashOf(f, k));
  }

  lemma WriteStays(env: Env, before: map<bytes, bytes>, after: map<bytes, bytes>, db: Db, f: bytes,
                   workers: seq<Worker>, k: nat, next: Worker, v: Write)
    requires k < |workers| && BlobsKept(env, before, after) && !workers[k].Reported?
    requires workers[k].Rank() >= 5 ==> next.Rank() >= 5
    requires WriteOk(env, before, db, v) && WriteOwn(env, f, workers, v)
    ensures WriteOk(env, after, db, v) && WriteOwn(env, f, workers[k := next], v)
  {}

  lemma MoveKeepsApart(env: Env, db: Db, f: bytes, pending: set<Write>, workers: seq<Worker>, k: nat)
    requires env.InFile(f, k) && k < |workers| && !workers[k].Reported? && RevWritesApart(pending)
    requires forall w | w in pending :: WriteOwn(env, f, workers, w)
    ensures RevWritesApart(pending + Move(env, db, f, workers[k], k).1)
  {}

  lemma WorkKeepsWorkers(env: Env, before: map<bytes, bytes>, after: map<bytes, bytes>, db: Db, f: bytes,
                         pending: set<Write>, workers: seq<Worker>, k: nat)
    requires WorkersOk(env, before, db, f, pending, workers) && k < |workers| && f in db.Begun() && RevsOk(env, db)
    requires BlobsKept(env, before, after) && (workers[k].WriteBlob? ==> BlobOk(env, after, env.HashOf(f, k)))
    ensures var (next, writes) := Move(env, db, f, workers[k], k);
            WorkersOk(env, after, db, f, pending + writes, workers[k := next])
  {
    var (next, writes) := Move(env, db, f, workers[k], k);
    var all := workers[k := next];
    forall i: nat | i < |all| ensures WorkerOk(env, after, db, f, pending + writes, all[i], i) {
      if i == k { WorkerMoves(env, before, after, db, f, pending, workers[k], k); }
      else { WorkerStays(env, before, after, db, f, pending, writes, workers[i], i); }
    }
  }

  lemma WriteFollowsBlobs(env: Env, before: map<bytes, bytes>, after: map<bytes, bytes>, db: Db, v: Write)
    requires BlobsKept(env, before, after) && WriteOk(env, before, db, v)
    ensures WriteOk(env, after, db, v)
  {}

  lemma WorkKeepsWrites(env: Env, before: map<bytes, bytes>, after: map<bytes, bytes>, db: Db, f: bytes,
                        pending: set<Write>, workers: seq<Worker>, k: nat)
    requires WritesOk(env, before, db, f, pending, workers) && env.InFile(f, k) && k < |workers| && f in db.Begun()
    requires WorkerOk(env, before, db, f, pending, workers[k], k) && !workers[k].Reported?
    requires BlobsKept(env, before, after)
    ensures var (next, writes) := Move(env, db, f, workers[k], k);
            WritesOk(env, after, db, f, pending + writes, workers[k := next])
  {
    var (next, writes) := Move(env, db, f, workers[k], k);
    forall v | v in pending + writes
      ensures WriteOk(env, after, db, v) && WriteOwn(env, f, workers[k := next], v)
    {
      if v in writes {
        MoveWrites(env, before, db, f, pending, workers, k, v);
        WriteFollowsBlobs(env, before, after, db, v);
      } else {
        WriteStays(env, before, after, db, f, workers, k, next, v);
      }
    }
    MoveKeepsApart(env, db, f, pending, workers, k);
  }

  lemma WorkKeepsInv(env: Env, s: State, k: nat)
    requires env.Assumed() && Inv(env, s) && Enabled(env, s, Work(k))
    ensures Inv(env, WorkOn(env, s, k))
  {
    var j := s.job.value;
    var after := BlobsAfter(env, s.blobs, j.f, j.workers[k], k);
    BlobsAfterKept(env, s.blobs, j.f, j.workers[k], k);
    WorkKeepsWorkers(env, s.blobs, after, s.db, j.f, j.pending, j.workers, k);
    WorkKeepsWrites(env, s.blobs, after, s.db, j.f, j.pending, j.workers, k);
  }

  // ----- a pending write reaches the database -----

  lemma CommitKeepsDb(env: Env, blobs: map<bytes, bytes>, db: Db, w: Write)
    requires ChunksOk(env, blobs, db) && RelsOk(env, db) && RevsOk(env, db) && WriteOk(env, blobs, db, w)
    ensures ChunksOk(env, blobs, Commits(db, w)) && RelsOk(env, Commits(db, w)) && RevsOk(env, Commits(db, w))
  {}

  /** The database only gains: keys stay, relations keep their value, reverse entries only grow. */
  ghost predicate Grows(d: Db, e: Db) {
    && d.chunks.Keys <= e.chunks.Keys && d.Begun() <= e.Begun()
    && (forall f | f in d.completed && d.completed[f] :: f in e.completed && e.completed[f])
    && (forall key | key in d.rel :: key in e.rel && e.rel[key] == d.rel[key])
    && (forall h, k: nat :: d.Rev(h, k) <= e.Rev(h, k))
  }

  lemma CommitGrows(env: Env, blobs: map<bytes, bytes>, db: Db, w: Write)
    requires WriteOk(env, blobs, db, w)
    ensures Grows(db, Commits(db, w))
  {}

  lemma GrowthKeepsCompleted(env: Env, d: Db, e: Db)
    requires CompletedOk(env, d) && Grows(d, e)
    requires forall f | f in e.completed && e.completed[f] :: f in d.completed && d.completed[f]
    ensures CompletedOk(env, e)
  {
    forall f, k: nat | f in e.completed && e.completed[f] && env.InFile(f, k) ensures Settled(env, e, f, k) {
      assert Settled(env, d, f, k);
      assert d.Rev(env.HashOf(f, k), k) <= e.Rev(env.HashOf(f, k), k);
    }
  }

  lemma CommitKeepsWorker(env: Env, blobs: map<bytes, bytes>, db: Db, f: bytes, pending: set<Write>,
                          workers: seq<Worker>, v: Write, k: nat)
    requires env.InFile(f, k) && k < |workers| && WorkerOk(env, blobs, db, f, pending, workers[k], k)
    requires v in pending && WriteOk(env, blobs, db, v) && WriteOwn(env, f, workers, v)
    ensures WorkerOk(env, blobs, Commits(db, v), f, pending - {v}, workers[k], k)
  {
    var h, name := env.HashOf(f, k), env.name(f);
    CommitGrows(env, blobs, db, v);
    assert db.Rev(h, k) <= Commits(db, v).Rev(h, k);
    if workers[k].Reported? && name !in Commits(db, v).Rev(h, k) {
      var names :| PutRev(h, k, names) in pending && name in names;
      assert PutRev(h, k, names) in pending - {v};
    }
  }

  lemma CommitKeepsWrite(env: Env, blobs: map<bytes, bytes>, db: Db, f: bytes, pending: set<Write>,
                         workers: seq<Worker>, v: Write, w: Write)
    requires v in pending && w in pending && v != w && RevWritesApart(pending)
    requires WriteOk(env, blobs, db, v) && WriteOwn(env, f, workers, v)
    requires WriteOk(env, blobs, db, w) && WriteOwn(env, f, workers, w)
    ensures WriteOk(env, blobs, Commits(db, v), w)
  {}

  lemma CommitKeepsInv(env: Env, s: State, v: Write)
    requires Inv(env, s) && Enabled(env, s, Commit(v))
    ensures Inv(env, Apply(env, s, Commit(v)))
  {
    var t := Apply(env, s, Commit(v));
    var j, j' := s.job.value, t.job.value;
    CommitKeepsDb(env, s.blobs, s.db, v);
    CommitGrows(env, s.blobs, s.db, v);
    GrowthKeepsCompleted(env, s.db, t.db);
    forall w | w in j'.pending ensures WriteOk(env, t.blobs, t.db, w) {
      CommitKeepsWrite(env, s.blobs, s.db, j.f, j.pending, j.workers, v, w);
    }
    forall k: nat | k < |j'.workers| ensures WorkerOk(env, t.blobs, t.db, j.f, j'.pending, j'.workers[k], k) {
      CommitKeepsWorker(env, s.blobs, s.db, j.f, j.pending, j.workers, v, k);
    }
  }

  // ----- starting, completing, stopping -----

  /** Whoever begins more files, chunks keep their owners. */
  lemma OwnersStay(env: Env, begun: set<bytes>, more: set<bytes>)
    requires begun <= more
    ensures forall name, k, h | Owned(env, begun, name, k, h) :: Owned(env, more, name, k, h)
  {}

  lemma BeginKeepsInv(env: Env, s: State, f: bytes, n: nat)
    requires Inv(env, s) && Enabled(env, s, Begin(f, n))
    ensures Inv(env, Apply(env, s, Begin(f, n)))
  {
    var t := Apply(env, s, Begin(f, n));
    OwnersStay(env, s.db.Begun(), t.db.Begun());
    GrowthKeepsCompleted(env, s.db, t.db);
  }

  /** When everything reported is committed, each index of the file is settled. */
  /** Once an attempt has flushed, every index of its file is in the database. */
  lemma FlushedIsSettled(env: Env, blobs: map<bytes, bytes>, db: Db, j: Job, k: nat)
    requires JobOk(env, blobs, db, j) && j.flushed && env.InFile(j.f, k)
    ensures Settled(env, db, j.f, k)
  {
    assert k < |j.workers| && WorkerOk(env, blobs, db, j.f, j.pending, j.workers[k], k);
  }

  lemma SettledStays(env: Env, d: Db, e: Db, f: bytes, k: nat)
    requires env.InFile(f, k) && Settled(env, d, f, k)
    requires e.chunks == d.chunks && e.rel == d.rel && e.rev == d.rev
    ensures Settled(env, e, f, k)
  {}

  lemma CompleteKeepsInv(env: Env, s: State)
    requires Inv(env, s) && Enabled(env, s, Complete)
    ensures Inv(env, Apply(env, s, Complete))
  {
    var t := Apply(env, s, Complete);
    var j := s.job.value;
    forall f, k: nat | f in t.db.completed && t.db.completed[f] && env.InFile(f, k) ensures Settled(env, t.db, f, k) {
      if f == j.f { FlushedIsSettled(env, s.blobs, s.db, j, k); }
      SettledStays(env, s.db, t.db, f, k);
    }
  }

  lemma FlushKeepsInv(env: Env, s: State)
    requires Inv(env, s) && Enabled(env, s, Flush)
    ensures Inv(env, Apply(env, s, Flush))
  {
    assert Apply(env, s, Flush).db == s.db;
  }

  lemma StopKeepsInv(env: Env, s: State)
    requires Inv(env, s) && Enabled(env, s, Stop)
    ensures Inv(env, Apply(env, s, Stop))
  {
    assert Apply(env, s, Stop).db == s.db;
  }

  lemma StepKeepsInv(env: Env, s: State, step: Step)
    requires env.Assumed() && Inv(env, s) && Enabled(env, s, step)
    ensures Inv(env, Apply(env, s, step))
  {
    match step
    case Begin(f, n) => BeginKeepsInv(env, s, f, n);
    case Work(k) => WorkKeepsInv(env, s, k);
    case Commit(w) => CommitKeepsInv(env, s, w);
    case Flush => FlushKeepsInv(env, s);
    case Complete => CompleteKeepsInv(env, s);
    case Stop => StopKeepsInv(env, s);
  }

  /** No step takes a file out of a reverse entry, drops a chunk or changes a relation. */
  lemma StepsOnlyGrow(env: Env, s: State, step: Step)
    requires Inv(env, s) && Enabled(env, s, step)
    ensures Grows(s.db, Apply(env, s, step).db)
  {
    if step.Commit? { CommitGrows(env, s.blobs, s.db, step.w); }
  }

  // ----- whole histories -----

  ghost predicate IsRun(env: Env, s: State, steps: seq<Step>, t: State)
    decreases |steps|
  {
    if steps == [] then s == t
    else Enabled(env, s, steps[0]) && IsRun(env, Apply(env, s, steps[0]), steps[1..], t)
  }

  lemma {:induction false} RunKeepsInv(env: Env, s: State, steps: seq<Step>, t: State)
    requires env.Assumed() && Inv(env, s) && IsRun(env, s, steps, t)
    ensures Inv(env, t)
    decreases |steps|
  {
    if steps != [] {
      StepKeepsInv(env, s, steps[0]);
      RunKeepsInv(env, Apply(env, s, steps[0]), steps[1..], t);
    }
  }

  lemma GrowsOn(c: Db, d: Db, e: Db)
    requires Grows(c, d) && Grows(d, e)
    ensures Grows(c, e)
  {
    forall h, k: nat ensures c.Rev(h, k) <= e.Rev(h, k) { assert c.Rev(h, k) <= d.Rev(h, k) <= e.Rev(h, k); }
    forall key | key in c.rel ensures key in e.rel && e.rel[key] == c.rel[key] { assert d.rel[key] == c.rel[key]; }
  }

  /** No history loses a chunk, a relation or a member of a reverse entry, and a
      file that is completed stays completed, however often it is stored again. */
  lemma {:induction false} RunsOnlyGrow(env: Env, s: State, steps: seq<Step>, t: State)
    requires env.Assumed() && Inv(env, s) && IsRun(env, s, steps, t)
    ensures Grows(s.db, t.db)
    decreases |steps|
  {
    if steps != [] {
      var next := Apply(env, s, steps[0]);
      StepKeepsInv(env, s, steps[0]);
      StepsOnlyGrow(env, s, steps[0]);
      RunsOnlyGrow(env, next, steps[1..], t);
      GrowsOn(s.db, next.db, t.db);
    }
  }

  /** Storing a completed file again does nothing: no attempt is begun, and there is
      nothing to stop. */
  lemma CompletedIsNotBegun(env: Env, s: State, f: bytes, n: nat)
    requires Enabled(env, s, Begin(f, n)) && f in s.db.completed && s.db.completed[f]
    ensures var t := Apply(env, s, Begin(f, n));
            t.db == s.db && t.blobs == s.blobs && t.job.None? && !Enabled(env, t, Stop)
  {}

  // ----- an attempt that is not stopped completes -----

  function RanksLeft(workers: seq<Worker>): nat {
    if workers == [] then 0 else RanksLeft(workers[..|workers| - 1]) + 7 - workers[|workers| - 1].Rank()
  }

  lemma {:induction false} RanksUpdate(workers: seq<Worker>, k: nat, w: Worker)
    requires k < |workers|
    ensures RanksLeft(workers[k := w]) == RanksLeft(workers) + workers[k].Rank() - w.Rank()
  {
    var n := |workers| - 1;
    if k == n {
      assert workers[k := w][..n] == workers[..n];
    } else {
      assert workers[k := w][..n] == workers[..n][k := w];
      RanksUpdate(workers[..n], k, w);
    }
  }

  /** Actions to take, writes to commit, the flush. */
  function ToDo(j: Job): nat {
    2 * RanksLeft(j.workers) + |j.pending| + if j.flushed then 0 else 1
  }

  lemma MoveRaises(env: Env, db: Db, f: bytes, w: Worker, k: nat)
    requires env.InFile(f, k) && !w.Reported?
    ensures Move(env, db, f, w, k).0.Rank() > w.Rank() && |Move(env, db, f, w, k).1| <= 1
  {}

  lemma UnionSize(a: set<Write>, b: set<Write>)
    ensures |a + b| <= |a| + |b|
  {
    assert a + b == a + (b - a);
  }

  lemma WorkLowersToDo(env: Env, s: State, k: nat)
    requires Inv(env, s) && Enabled(env, s, Work(k))
    ensures var t := Apply(env, s, Work(k)); t.job.Some? && t.job.value.f == s.job.value.f
    ensures ToDo(Apply(env, s, Work(k)).job.value) < ToDo(s.job.value)
  {
    var j := s.job.value;
    var (next, writes) := Move(env, s.db, j.f, j.workers[k], k);
    MoveRaises(env, s.db, j.f, j.workers[k], k);
    RanksUpdate(j.workers, k, next);
    UnionSize(j.pending, writes);
  }

  lemma CommitLowersToDo(env: Env, s: State, w: Write)
    requires Enabled(env, s, Commit(w))
    ensures var t := Apply(env, s, Commit(w)); t.job.Some? && t.job.value.f == s.job.value.f
    ensures ToDo(Apply(env, s, Commit(w)).job.value) < ToDo(s.job.value)
  {}

  /** Its next step: commit what is pending, let a worker act, flush. */
  lemma NextStep(env: Env, s: State) returns (step: Step)
    requires Inv(env, s) && s.job.Some? && !s.job.value.flushed
    requires forall k: nat | env.InFile(s.job.value.f, k) :: env.Blob(env.ChunkOf(s.job.value.f, k)).Some?
    ensures Enabled(env, s, step) && Apply(env, s, step).job.Some? && Apply(env, s, step).job.value.f == s.job.value.f
    ensures ToDo(Apply(env, s, step).job.value) < ToDo(s.job.value)
  {
    var j := s.job.value;
    if j.pending != {} {
      var w :| w in j.pending;
      step := Commit(w);
      CommitLowersToDo(env, s, w);
    } else if k :| 0 <= k < |j.workers| && !j.workers[k].Reported? {
      step := Work(k);
      WorkLowersToDo(env, s, k);
    } else {
      step := Flush;
    }
  }

  /** An attempt whose chunks can be encoded and sealed goes on to mark its file
      completed, unless it is stopped. */
  lemma {:induction false} AttemptCompletes(env: Env, s: State) returns (steps: seq<Step>, t: State)
    requires env.Assumed() && Inv(env, s) && s.job.Some?
    requires forall k: nat | env.InFile(s.job.value.f, k) :: env.Blob(env.ChunkOf(s.job.value.f, k)).Some?
    ensures IsRun(env, s, steps, t) && t.job.None?
    ensures var f := s.job.value.f; f in t.db.completed && t.db.completed[f]
    decreases ToDo(s.job.value)
  {
    var j := s.job.value;
    if j.flushed {
      t := Apply(env, s, Complete);
      steps := [Complete];
      assert IsRun(env, t, [], t) && [Complete][1..] == [];
    } else {
      var step := NextStep(env, s);
      StepKeepsInv(env, s, step);
      var rest;
      rest, t := AttemptCompletes(env, Apply(env, s, step));
      steps := [step] + rest;
      assert steps[1..] == rest;
    }
  }

  /** So a file whose chunks can be encoded can be stored to completion at any time
      no other attempt is under way, and that again and again. */
  lemma StoreCompletes(env: Env, s: State, f: bytes, n: nat) returns (steps: seq<Step>, t: State)
    requires env.Assumed() && Inv(env, s) && Enabled(env, s, Begin(f, n))
    requires forall k: nat | env.InFile(f, k) :: env.Blob(env.ChunkOf(f, k)).Some?
    ensures steps != [] && steps[0] == Begin(f, n) && IsRun(env, s, steps, t)
    ensures t.job.None? && f in t.db.completed && t.db.completed[f]
  {
    var begun := Apply(env, s, Begin(f, n));
    StepKeepsInv(env, s, Begin(f, n));
    if begun.job.None? {
      steps, t := [Begin(f, n)], begun;
      assert IsRun(env, begun, [], begun) && steps[1..] == [];
    } else {
      var rest;
      rest, t := AttemptCompletes(env, begun);
      steps := [Begin(f, n)] + rest;
      assert steps[1..] == rest;
    }
  }

  // ----- a chunk on record is not written again -----

  ghost predicate NoneWriting(env: Env, f: bytes, workers: seq<Worker>, h: bytes) {
    forall k: nat | k < |workers| && IsChunk(env, f, k, h) :: !workers[k].WriteBlob? && !workers[k].SetChunk?
  }

  /** The chunk is in the database, and no worker is about to write it. */
  ghost predicate OnRecord(env: Env, s: State, h: bytes) {
    h in s.db.chunks && (s.job.Some? ==> NoneWriting(env, s.job.value.f, s.job.value.workers, h))
  }

  lemma KnownName(env: Env, s: State, f: bytes, k: nat, h: bytes)
    requires env.Assumed() && Inv(env, s) && h in s.db.chunks && env.InFile(f, k) && env.HashOf(f, k) != h
    ensures env.blobName(env.HashOf(f, k)) != env.blobName(h)
  {
    assert BlobOk(env, s.blobs, h);
    assert env.KnownChunk(env.ChunkOf(f, k));
  }

  lemma MoveSpares(env: Env, db: Db, f: bytes, workers: seq<Worker>, k: nat, h: bytes)
    requires env.InFile(f, k) && k < |workers| && h in db.chunks && NoneWriting(env, f, workers, h)
    ensures NoneWriting(env, f, workers[k := Move(env, db, f, workers[k], k).0], h)
  {
    if IsChunk(env, f, k, h) { assert !workers[k].WriteBlob? && !workers[k].SetChunk?; }
  }

  lemma WorkSparesBlob(env: Env, s: State, k: nat, h: bytes)
    requires env.Assumed() && Inv(env, s) && Enabled(env, s, Work(k)) && OnRecord(env, s, h)
    ensures env.blobName(h) in s.blobs && env.blobName(h) in Apply(env, s, Work(k)).blobs
    ensures Apply(env, s, Work(k)).blobs[env.blobName(h)] == s.blobs[env.blobName(h)]
  {
    var j := s.job.value;
    assert BlobOk(env, s.blobs, h);
    if IsChunk(env, j.f, k, h) {
      assert !j.workers[k].WriteBlob?;
    } else {
      KnownName(env, s, j.f, k, h);
    }
  }

  lemma StepSparesBlob(env: Env, s: State, step: Step, h: bytes)
    requires env.Assumed() && Inv(env, s) && Enabled(env, s, step) && OnRecord(env, s, h)
    ensures OnRecord(env, Apply(env, s, step), h)
    ensures env.blobName(h) in s.blobs && env.blobName(h) in Apply(env, s, step).blobs
    ensures Apply(env, s, step).blobs[env.blobName(h)] == s.blobs[env.blobName(h)]
  {
    assert BlobOk(env, s.blobs, h);
    if step.Work? {
      MoveSpares(env, s.db, s.job.value.f, s.job.value.workers, step.k, h);
      WorkSparesBlob(env, s, step.k, h);
    }
  }

  /** Over any further history, retries and other files included, the blob of a
      chunk that is on record is never written again. */
  lemma {:induction false} StoredBlobIsNotRewritten(env: Env, s: State, steps: seq<Step>, t: State, h: bytes)
    requires env.Assumed() && Inv(env, s) && IsRun(env, s, steps, t) && OnRecord(env, s, h)
    ensures OnRecord(env, t, h)
    ensures env.blobName(h) in s.blobs && env.blobName(h) in t.blobs
    ensures t.blobs[env.blobName(h)] == s.blobs[env.blobName(h)]
    decreases |steps|
  {
    assert BlobOk(env, s.blobs, h);
    if steps != [] {
      StepKeepsInv(env, s, steps[0]);
      StepSparesBlob(env, s, steps[0], h);
      StoredBlobIsNotRewritten(env, Apply(env, s, steps[0]), steps[1..], t, h);
    }
  }

  // ----- the two directions of the relations -----

  /** The relation of a name at an index and the reverse entries that list the
      name there say the same. */
  ghost predicate InverseAt(db: Db, name: bytes, k: nat) {
    forall h :: ((name, k) in db.rel && db.rel[(name, k)] == h) <==> name in db.Rev(h, k)
  }

  /** All files begun under the name have one and the same chunk at the index. */
  ghost predicate AgreeAt(env: Env, begun: set<bytes>, name: bytes, k: nat) {
    forall g, h | Owned(env, begun, name, k, g) && Owned(env, begun, name, k, h) :: g == h
  }

  /** No attempt under the name is left unfinished. */
  ghost predicate AllDone(env: Env, db: Db, name: bytes) {
    forall g | g in db.completed && env.name(g) == name :: db.completed[g]
  }

  lemma OwnedIsSettled(env: Env, s: State, name: bytes, k: nat, h: bytes)
    requires Inv(env, s) && AllDone(env, s.db, name) && Owned(env, s.db.Begun(), name, k, h)
    ensures (name, k) in s.db.rel && name in s.db.Rev(h, k)
  {
    var g :| g in s.db.Begun() && env.name(g) == name && IsChunk(env, g, k, h);
    assert Settled(env, s.db, g, k);
  }

  lemma RelIsOwned(env: Env, s: State, name: bytes, k: nat)
    requires Inv(env, s) && (name, k) in s.db.rel
    ensures Owned(env, s.db.Begun(), name, k, s.db.rel[(name, k)])
  {
    var key := (name, k);
    assert Owned(env, s.db.Begun(), key.0, key.1, s.db.rel[key]);
  }

  lemma RevIsOwned(env: Env, s: State, name: bytes, k: nat, h: bytes)
    requires Inv(env, s) && name in s.db.Rev(h, k)
    ensures Owned(env, s.db.Begun(), name, k, h)
  {
    RevNamesOwned(env, s.db, k, h);
  }

  lemma InverseNeedsAgreement(env: Env, s: State, name: bytes, k: nat)
    requires Inv(env, s) && AllDone(env, s.db, name) && InverseAt(s.db, name, k)
    ensures AgreeAt(env, s.db.Begun(), name, k)
  {
    forall g, h | Owned(env, s.db.Begun(), name, k, g) && Owned(env, s.db.Begun(), name, k, h) ensures g == h {
      OwnedIsSettled(env, s, name, k, g);
      OwnedIsSettled(env, s, name, k, h);
    }
  }

  lemma AgreementGivesInverse(env: Env, s: State, name: bytes, k: nat)
    requires Inv(env, s) && AllDone(env, s.db, name) && AgreeAt(env, s.db.Begun(), name, k)
    ensures InverseAt(s.db, name, k)
  {
    if (name, k) in s.db.rel {
      RelIsOwned(env, s, name, k);
      OwnedIsSettled(env, s, name, k, s.db.rel[(name, k)]);
    }
    forall h | name in s.db.Rev(h, k) ensures (name, k) in s.db.rel && s.db.rel[(name, k)] == h {
      RevIsOwned(env, s, name, k, h);
      OwnedIsSettled(env, s, name, k, h);
      RelIsOwned(env, s, name, k);
    }
  }

  /** After any history of attempts that left none unfinished under a name, the
      forward and the reverse relations of the name are inverse at an index if
      and only if the files stored under it have one chunk there. */
  lemma InverseIffAgreed(env: Env, steps: seq<Step>, t: State, name: bytes, k: nat)
    requires env.Assumed() && IsRun(env, EMPTY, steps, t) && AllDone(env, t.db, name)
    ensures InverseAt(t.db, name, k) <==> AgreeAt(env, t.db.Begun(), name, k)
  {
    RunKeepsInv(env, EMPTY, steps, t);
    if InverseAt(t.db, name, k) { InverseNeedsAgreement(env, t, name, k); }
    if AgreeAt(env, t.db.Begun(), name, k) { AgreementGivesInverse(env, t, name, k); }
  }

  /** The file is stored and sought under one name, which no other file bears. */
  ghost predicate OwnName(env: Env, db: Db, f: bytes) {
    env.sought(f) == env.name(f) && forall g | g in db.completed && env.name(g) == env.name(f) :: g == f
  }

  /** A hash without the separator is a name of its own. */
  lemma WholeNameIsOwn(env: Env, db: Db, f: bytes)
    requires env.Cuts() && f in db.completed && !Text.Contains(f, K.NS_SEPARATOR)
    requires forall g | g in db.completed :: |g| == K.FILE_HASH_LENGTH
    ensures env.name(f) == f && OwnName(env, db, f)
  {
    K.HashAgreement(f);
    forall g | g in db.completed && env.name(g) == env.name(f) ensures g == f { K.WholeNamesAreOwn(f, g); }
  }

  lemma OwnNameAgrees(env: Env, db: Db, f: bytes, k: nat)
    requires f in db.completed && OwnName(env, db, f)
    ensures AgreeAt(env, db.Begun(), env.name(f), k)
    ensures db.completed[f] ==> AllDone(env, db, env.name(f))
  {}

  /** So the relations of a completed file are inverse at every index unless its
      hash holds the separator: index k of f is chunk hash h exactly when f is
      listed under (h, k). */
  lemma RelationsAreInverse(env: Env, steps: seq<Step>, t: State, f: bytes, k: nat, h: bytes)
    requires env.Assumed() && env.Cuts() && IsRun(env, EMPTY, steps, t)
    requires f in t.db.completed && t.db.completed[f] && !Text.Contains(f, K.NS_SEPARATOR)
    ensures ((f, k) in t.db.rel && t.db.rel[(f, k)] == h) <==> f in t.db.Rev(h, k)
  {
    RunKeepsInv(env, EMPTY, steps, t);
    WholeNameIsOwn(env, t.db, f);
    OwnNameAgrees(env, t.db, f, k);
    AgreementGivesInverse(env, t, f, k);
  }

  /** Two files stored under one name, as any whose hashes begin with the
      separator are: at an index both have, their relations are inverse if and only
      if their chunks there are the same. */
  lemma SharedNameInverseIff(env: Env, steps: seq<Step>, t: State, f: bytes, g: bytes, k: nat)
    requires env.Assumed() && IsRun(env, EMPTY, steps, t) && t.db.completed == map[f := true, g := true]
    requires env.name(f) == env.name(g) && env.InFile(f, k) && env.InFile(g, k)
    ensures InverseAt(t.db, env.name(f), k) <==> env.ChunkOf(f, k) == env.ChunkOf(g, k)
  {
    InverseIffAgreed(env, steps, t, env.name(f), k);
    assert IsChunk(env, f, k, env.HashOf(f, k)) && IsChunk(env, g, k, env.HashOf(g, k));
    assert Owned(env, t.db.Begun(), env.name(f), k, env.HashOf(f, k));
    assert Owned(env, t.db.Begun(), env.name(f), k, env.HashOf(g, k));
    assert env.KnownChunk(env.ChunkOf(f, k)) && env.KnownChunk(env.ChunkOf(g, k));
  }

  /** For instance these two: once both are completed, the relation of the empty
      name at an index where they differ is not what the reverse entries say. */
  lemma SeparatorFirstIsNotInverse(env: Env, steps: seq<Step>, t: State, k: nat)
    requires env.Assumed() && env.Cuts() && IsRun(env, EMPTY, steps, t)
    requires t.db.completed == map[K.SEPARATOR_FIRST := true, K.SEPARATOR_FIRST_TOO := true]
    requires env.InFile(K.SEPARATOR_FIRST, k) && env.InFile(K.SEPARATOR_FIRST_TOO, k)
    requires env.ChunkOf(K.SEPARATOR_FIRST, k) != env.ChunkOf(K.SEPARATOR_FIRST_TOO, k)
    ensures !InverseAt(t.db, [], k)
  {
    K.StoredUnderNothing(seq(28, _ => 0));
    K.StoredUnderNothing(seq(28, _ => 1));
    SharedNameInverseIff(env, steps, t, K.SEPARATOR_FIRST, K.SEPARATOR_FIRST_TOO, k);
  }

  // ----- restoring -----

  /** GetChonkNode for a node of the one-file-per-chunk format, and the relation lookup before it. */
  function ReadIndex(env: Env, s: State, sought: bytes, k: nat): Option<bytes> {
    if (sought, k) !in s.db.rel then None
    else
      var h := s.db.rel[(sought, k)];
      if h !in s.db.chunks then None
      else match Parse(s.db.chunks[h])
        case Legacy(path) => if path in s.blobs then Some(env.ReadChonk(s.blobs[path])) else None
        case _ => None
  }

  /** A blob path is routed by the pipes of the database directory. */
  lemma BlobRoute(env: Env, h: bytes)
    requires env.Rooted()
    ensures env.PathsRoute() ==> Parse(env.blobName(h)) == Legacy(env.blobName(h))
    ensures !env.PathsRoute() ==> Parse(env.blobName(h)) == Malformed
  {
    var path, n := env.blobName(h), |env.root|;
    assert env.BelowRoot(path);
    assert path == env.root + path[n..];
    Text.CountAppend(env.root, path[n..], PIPE);
    Text.CountZero(path[n..], PIPE);
    if env.PathsRoute() { LegacyRouting(path); } else { TwicePipedNode(path); }
  }

  lemma CompletedReads(env: Env, s: State, f: bytes, k: nat)
    requires env.Assumed() && env.Rooted() && env.PathsRoute() && Inv(env, s)
    requires f in s.db.completed && s.db.completed[f] && env.InFile(f, k) && OwnName(env, s.db, f)
    ensures ReadIndex(env, s, env.sought(f), k) == Some(env.ChunkOf(f, k))
  {
    assert Settled(env, s.db, f, k);
    var h := env.HashOf(f, k);
    RelIsOwned(env, s, env.name(f), k);
    assert s.db.rel[(env.name(f), k)] == h;
    BlobRoute(env, h);
    assert BlobOk(env, s.blobs, h);
  }

  /** What the restore loop writes at an index; None for a failed lookup or a panic. */
  function PieceOf(env: Env, s: State, f: bytes, plan: Plan, index: nat): Option<bytes>
    requires env.chunk > 0
  {
    match ReadIndex(env, s, env.sought(f), index / env.chunk)
    case None => None
    case Some(data) => plan.Cut(data, index)
  }

  /** restoreData over this store for a range of a file. */
  function RestoreRange(env: Env, s: State, f: bytes, start: nat, size: nat, spare: int -> bytes): Option<bytes>
    requires env.chunk > 0
  {
    var plan := PlanFor(env.chunk, start, size, spare);
    Output((index: nat) => PieceOf(env, s, f, plan, index), env.chunk, plan.End(), plan.dbstart)
  }

  /** And for the whole file. */
  function RestoreFile(env: Env, s: State, f: bytes, spare: int -> bytes): Option<bytes>
    requires env.chunk > 0
  {
    RestoreRange(env, s, f, 0, |env.file(f)|, spare)
  }

  ghost predicate AllRead(env: Env, s: State, f: bytes) {
    forall k: nat | env.InFile(f, k) :: ReadIndex(env, s, env.sought(f), k) == Some(env.ChunkOf(f, k))
  }

  lemma PieceOfPlan(env: Env, s: State, f: bytes, plan: Plan, index: nat)
    requires plan.chunk == env.chunk > 0 && AllRead(env, s, f)
    requires Aligned(index, env.chunk) && index < |env.file(f)|
    ensures PieceOf(env, s, f, plan, index) == plan.PieceAt(env.file(f), index)
  {
    var k: nat :| Times(k, env.chunk) == index;
    MultipleDivides(k, env.chunk);
    assert env.InFile(f, k);
  }

  lemma RestoreFollowsPlan(env: Env, s: State, f: bytes, start: nat, size: nat, spare: int -> bytes)
    requires env.chunk > 0 && AllRead(env, s, f) && start + size <= |env.file(f)|
    ensures RestoreRange(env, s, f, start, size, spare) ==
            PlanFor(env.chunk, start, size, spare).All(env.file(f))
  {
    var plan := PlanFor(env.chunk, start, size, spare);
    var pieces: nat -> Option<bytes> := (index: nat) => PieceOf(env, s, f, plan, index);
    forall i: nat | Aligned(i, plan.chunk) && i < plan.End() ensures pieces(i) == plan.PieceAt(env.file(f), i) {
      PieceOfPlan(env, s, f, plan, i);
    }
    StartAligned(start, env.chunk);
    OutputOfPlan(pieces, env.file(f), plan, plan.dbstart);
  }

  lemma CompletedIsRead(env: Env, steps: seq<Step>, t: State, f: bytes)
    requires env.Assumed() && env.Cuts() && env.Rooted() && env.PathsRoute() && IsRun(env, EMPTY, steps, t)
    requires f in t.db.completed && t.db.completed[f] && !Text.Contains(f, K.NS_SEPARATOR)
    ensures AllRead(env, t, f)
  {
    RunKeepsInv(env, EMPTY, steps, t);
    WholeNameIsOwn(env, t.db, f);
    forall k: nat | env.InFile(f, k) ensures ReadIndex(env, t, env.sought(f), k) == Some(env.ChunkOf(f, k)) {
      CompletedReads(env, t, f, k);
    }
  }

  lemma NotStored(env: Env, s: State, name: bytes, k: nat)
    requires Inv(env, s) && forall g | g in s.db.completed :: env.name(g) != name
    ensures (name, k) !in s.db.rel
  {
    if (name, k) in s.db.rel { RelIsOwned(env, s, name, k); }
  }

  /** Below a directory with two pipes no chunk is ever read back. */
  lemma NothingReads(env: Env, s: State, sought: bytes, k: nat)
    requires Inv(env, s) && env.Rooted() && !env.PathsRoute()
    ensures ReadIndex(env, s, sought, k) == None
  {
    if (sought, k) in s.db.rel { BlobRoute(env, s.db.rel[(sought, k)]); }
  }

  /** A loop with something to read fails when its first lookup does. */
  lemma FirstReadFails(env: Env, s: State, f: bytes, start: nat, size: nat, spare: int -> bytes)
    requires env.chunk > 0 && !EmptyLoop(env.chunk, start, size)
    requires ReadIndex(env, s, env.sought(f), AlignDown(start, env.chunk) / env.chunk) == None
    ensures RestoreRange(env, s, f, start, size, spare) == None
  {
    AlignedStart(start, env.chunk);
  }

  lemma NamesAgree(env: Env, f: bytes)
    requires env.Cuts()
    ensures env.name(f) == env.sought(f) <==> !Text.Contains(f, K.NS_SEPARATOR)
  {
    K.HashAgreement(f);
  }

  /** After any history of attempts, stopped and retried anywhere: unless some
      other file happens to be stored under the name sought, restoring a range of
      a file marked completed gives exactly its bytes if and only if the range is
      not one of the two exceptional kinds and, unless there is nothing to read,
      the file's hash holds no separator and the database directory not exactly
      two pipes. */
  lemma RangeRestorableIff(env: Env, steps: seq<Step>, t: State, f: bytes, start: nat, size: nat, spare: int -> bytes)
    requires env.Assumed() && env.Cuts() && env.Rooted() && IsRun(env, EMPTY, steps, t)
    requires f in t.db.completed && t.db.completed[f] && start + size <= |env.file(f)|
    requires forall g | g in t.db.completed && g != f :: env.name(g) != env.sought(f)
    ensures RestoreRange(env, t, f, start, size, spare) == Some(env.file(f)[start..start + size]) <==>
            !Exceptional(|env.file(f)|, env.chunk, start, size)
            && (EmptyLoop(env.chunk, start, size) || (!Text.Contains(f, K.NS_SEPARATOR) && env.PathsRoute()))
  {
    RunKeepsInv(env, EMPTY, steps, t);
    NamesAgree(env, f);
    AlignedStart(start, env.chunk);
    var first: nat := AlignDown(start, env.chunk) / env.chunk;
    if EmptyLoop(env.chunk, start, size) {
      assert env.file(f)[start..start] == [];
    } else if !env.PathsRoute() || Text.Contains(f, K.NS_SEPARATOR) {
      if !env.PathsRoute() {
        NothingReads(env, t, env.sought(f), first);
      } else {
        NotStored(env, t, env.sought(f), first);
      }
      FirstReadFails(env, t, f, start, size, spare);
    } else {
      CompletedIsRead(env, steps, t, f);
      RestoreFollowsPlan(env, t, f, start, size, spare);
      RangeIsExact(env.file(f), env.chunk, start, size, spare);
    }
  }

  /** So a completed file restores as a whole if and only if it is empty, or its
      hash holds no separator and the directory not exactly two pipes. */
  lemma RestorableIffWhole(env: Env, steps: seq<Step>, t: State, f: bytes, spare: int -> bytes)
    requires env.Assumed() && env.Cuts() && env.Rooted() && IsRun(env, EMPTY, steps, t)
    requires f in t.db.completed && t.db.completed[f]
    requires forall g | g in t.db.completed && g != f :: env.name(g) != env.sought(f)
    ensures RestoreFile(env, t, f, spare) == Some(env.file(f)) <==>
            env.file(f) == [] || (!Text.Contains(f, K.NS_SEPARATOR) && env.PathsRoute())
  {
    var n := |env.file(f)|;
    RangeRestorableIff(env, steps, t, f, 0, n, spare);
    AlignedOrLong(n, env.chunk, 0, n);
    assert env.file(f)[0..0 + n] == env.file(f);
  }

  /** Completed implies restorable, whatever else is stored: a file whose hash
      holds no separator yields its bytes below such a directory. */
  lemma CompletedIsRestorable(env: Env, steps: seq<Step>, t: State, f: bytes, spare: int -> bytes)
    requires env.Assumed() && env.Cuts() && env.Rooted() && env.PathsRoute() && IsRun(env, EMPTY, steps, t)
    requires f in t.db.completed && t.db.completed[f] && !Text.Contains(f, K.NS_SEPARATOR)
    ensures RestoreFile(env, t, f, spare) == Some(env.file(f))
  {
    RunKeepsInv(env, EMPTY, steps, t);
    WholeNameIsOwn(env, t.db, f);
    RestorableIffWhole(env, steps, t, f, spare);
  }

  /** For instance a file whose hash begins with the separator, alone in its database. */
  lemma SeparatorFirstIsLost(env: Env, steps: seq<Step>, t: State, spare: int -> bytes)
    requires env.Assumed() && env.Cuts() && env.Rooted() && IsRun(env, EMPTY, steps, t)
    requires t.db.completed == map[K.SEPARATOR_FIRST := true] && env.file(K.SEPARATOR_FIRST) != []
    ensures RestoreFile(env, t, K.SEPARATOR_FIRST, spare) == None
  {
    K.SeparatorFirstIsCut();
    RunKeepsInv(env, EMPTY, steps, t);
    NotStored(env, t, K.SEPARATOR_FIRST, AlignDown(0, env.chunk) / env.chunk);
    FirstReadFails(env, t, K.SEPARATOR_FIRST, 0, |env.file(K.SEPARATOR_FIRST)|, spare);
  }
}
