/** The end of the path of container mode: restore any range of a stored file
    through the read cache (lib/store/restore.go), and what the store before it
    (StoreProtocol.dfy, StorePool.dfy, StoreRun.dfy) makes that come to. */
module RoundTrip {
  import opened Basics
  import opened RangeTrim
  import opened ContainerFiles
  import opened StorePipeline
  import opened StoreProtocol
  import opened StoreRun
  import CC = ConcurrentContainers
  import CF = ChunkFiles
  import RC = ReadCache
  import K = Keys
  import SP = StorePool
  import Text

  /** ReadChunkFromContainer with the cache on: what the uncached read returns,
      except that an empty read past the end may succeed. */
  method ReadThroughCache(env: Env, cache: RC.ContainerReadCache, files: Files,
                          path: bytes, offset: int, size: int, now: nat)
    returns (r: Option<bytes>)
    requires cache.Valid() && cache.Coherent(files) && cache.zip == env.containers.zip
    modifies cache
    ensures cache.Valid() && cache.Coherent(files)
    ensures size != 0 || ReadChunk(files, env.containers.zip, env.containers.codec, path, offset, size).Some? ==>
              r == ReadChunk(files, env.containers.zip, env.containers.codec, path, offset, size)
    ensures if offset >= 0 && size >= 0 && HasSuffix(Resolve(files, path), BLOBZSTEXT)
            then RC.ReadMoves(files, cache.zip, old(cache.Books()), cache.Books(), Resolve(files, path), now)
            else cache.Books() == old(cache.Books())
  {
    if size < 0 || offset < 0 { return None; }
    var p := Resolve(files, path);
    if HasSuffix(p, BLOBZSTEXT) {
      var encoded := cache.ReadFromCompressed(files, p, offset, size, now);
      return Decode(env.containers.codec, encoded);
    }
    if p !in files { return None; }
    return Decode(env.containers.codec, ReadAt(files[p], offset, size));
  }

  /** The nodes lead to an empty window, for which the cache may answer more than the file. */
  predicate EmptyWindow(env: Env, s: Stored, fhash: bytes, index: nat) {
    var r := Find(env, s, fhash, index);
    r.Some? && r.value.InContainer? && r.value.size == 0
  }

  /** The cache makes no difference to this index. */
  predicate Plain(env: Env, s: Stored, fhash: bytes, index: nat) {
    IndexValue(env, s, fhash, index).Some? || !EmptyWindow(env, s, fhash, index)
  }

  /** GetNode on the relation key, then GetChonkNode, through the cache. */
  method ReadIndex(env: Env, cache: RC.ContainerReadCache, s: Stored, fhash: bytes, index: nat, now: nat)
    returns (r: Option<bytes>)
    requires cache.Valid() && cache.Coherent(s.files) && cache.zip == env.containers.zip
    modifies cache
    ensures cache.Valid() && cache.Coherent(s.files)
    ensures Plain(env, s, fhash, index) ==> r == IndexValue(env, s, fhash, index)
  {
    var relKey := K.RelationKey(fhash, index);
    if relKey !in s.db { return None; }
    var chash := env.nodes.Get(s.db[relKey]);
    match Locate(env, s.db, s.blocks, chash)
    case InContainer(path, offset, size) =>
      r := ReadThroughCache(env, cache, s.files, path, offset, size, now);
    case Legacy(file) =>
      return if file in s.files then Some(CF.ReadChonk(env.comp, env.seal, s.files[file])) else None;
    case Malformed => return None;
  }

  // ----- the restore loop -----

  /** What restoreData's loop writes at an index: GetChonkData on the value read
      there, without a cache. None is an error or a panic. */
  function PieceOf(env: Env, s: Stored, fhash: bytes, plan: Plan, index: nat): Option<bytes> {
    match IndexValue(env, s, fhash, index)
    case None => None
    case Some(d) => plan.Cut(d, index)
  }

  function Pieces(env: Env, s: Stored, fhash: bytes, plan: Plan): nat -> Option<bytes> {
    (index: nat) => PieceOf(env, s, fhash, plan, index)
  }

  /** restoreData's output. */
  function Restored(env: Env, s: Stored, fhash: bytes, plan: Plan): Option<bytes>
    requires plan.chunk > 0
  {
    Output(Pieces(env, s, fhash, plan), plan.chunk, plan.End(), plan.dbstart)
  }

  /** The cache makes no difference to any index the loop may visit. */
  ghost predicate PlainUpTo(env: Env, s: Stored, fhash: bytes, end: nat) {
    forall index: nat {:trigger Plain(env, s, fhash, index)} | Aligned(index, env.chunk) && index < end ::
      Plain(env, s, fhash, index)
  }

  /** The pieces are those of this restore; the loop need not look inside. */
  ghost predicate PieceAt(env: Env, s: Stored, fhash: bytes, plan: Plan, pieces: nat -> Option<bytes>, index: nat) {
    pieces(index) == PieceOf(env, s, fhash, plan, index)
  }

  /** One round of the loop: read the chunk at an index and trim it (GetChonkData). */
  method ReadPiece(env: Env, cache: RC.ContainerReadCache, s: Stored, fhash: bytes, plan: Plan, index: nat, now: nat,
                   ghost pieces: nat -> Option<bytes>)
    returns (r: Option<bytes>)
    requires cache.Valid() && cache.Coherent(s.files) && cache.zip == env.containers.zip
    requires PlainUpTo(env, s, fhash, plan.End()) && Aligned(index, env.chunk) && index < plan.End()
    requires forall i: nat :: PieceAt(env, s, fhash, plan, pieces, i)
    modifies cache
    ensures cache.Valid() && cache.Coherent(s.files)
    ensures r == pieces(index)
  {
    assert Plain(env, s, fhash, index) && PieceAt(env, s, fhash, plan, pieces, index);
    var data := ReadIndex(env, cache, s, fhash, index, now);
    if data.None? { return None; }
    return plan.Cut(data.value, index);
  }

  /** The loop of restoreData. */
  method RestoreLoop(env: Env, cache: RC.ContainerReadCache, s: Stored, fhash: bytes, plan: Plan, now: int -> nat,
                     ghost pieces: nat -> Option<bytes>)
    returns (r: Option<bytes>)
    requires cache.Valid() && cache.Coherent(s.files) && cache.zip == env.containers.zip
    requires plan.chunk == env.chunk > 0 && Aligned(plan.dbstart, env.chunk)
    requires PlainUpTo(env, s, fhash, plan.End()) && forall i: nat :: PieceAt(env, s, fhash, plan, pieces, i)
    modifies cache
    ensures cache.Valid()
    ensures r == Output(pieces, env.chunk, plan.End(), plan.dbstart)
  {
    var dst: bytes := [];
    var restoreIndex: nat := plan.dbstart;
    ghost var end := plan.End();
    TrackEnds(pieces, env.chunk, end, plan.dbstart, dst, restoreIndex);
    while restoreIndex < plan.End()
      invariant cache.Valid() && cache.Coherent(s.files)
      invariant Aligned(restoreIndex, env.chunk)
      invariant OnTrack(pieces, env.chunk, end, plan.dbstart, dst, restoreIndex)
      decreases plan.End() - restoreIndex
    {
      NextAligned(restoreIndex, env.chunk);
      NextPiece(pieces, env.chunk, end, plan.dbstart, dst, restoreIndex);
      var piece := ReadPiece(env, cache, s, fhash, plan, restoreIndex, now(restoreIndex), pieces);
      if piece.None? { return None; }
      dst := dst + piece.value;
      restoreIndex := restoreIndex + env.chunk;
    }
    TrackEnds(pieces, env.chunk, end, plan.dbstart, dst, restoreIndex);
    return Some(dst);
  }

  /** restoreData: None stands for an error or a run-time panic. */
  method Restore(env: Env, s: Stored, fhash: bytes, start: nat, size: nat, cacheSize: int,
                 now: int -> nat, spare: int -> bytes)
    returns (r: Option<bytes>)
    requires env.chunk > 0 && PlainUpTo(env, s, fhash, start + size)
    ensures r == Restored(env, s, fhash, PlanFor(env.chunk, start, size, spare))
  {
    var dbstart: nat := 0;
    if start > 0 { dbstart := AlignDown(start, env.chunk); }
    StartAligned(start, env.chunk);
    var plan := Plan(env.chunk, start, size, dbstart, spare);
    var cache := new RC.ContainerReadCache(env.containers.zip);
    cache.SetSize(cacheSize);
    cache.Enable();
    r := RestoreLoop(env, cache, s, fhash, plan, now, Pieces(env, s, fhash, plan));
    cache.Disable();
  }

  // ----- what the output is -----

  lemma ReadablePiece(env: Env, job: Job, s: Stored, plan: Plan, index: nat)
    requires plan.chunk == env.chunk > 0 && Aligned(index, env.chunk) && index < |job.evidence|
    requires forall k: nat | job.InFile(env, k) :: Readable(env, job, s, k)
    ensures PieceOf(env, s, job.fhash, plan, index) == plan.PieceAt(job.evidence, index)
  {
    var k: nat :| Times(k, env.chunk) == index;
    assert job.InFile(env, k) && Readable(env, job, s, k);
  }

  lemma RestoredOfReadable(env: Env, job: Job, s: Stored, plan: Plan)
    requires plan.Ok(job.evidence) && plan.chunk == env.chunk && Aligned(plan.dbstart, env.chunk)
    requires forall k: nat | job.InFile(env, k) :: Readable(env, job, s, k)
    ensures Restored(env, s, job.fhash, plan) == plan.All(job.evidence)
  {
    var pieces := Pieces(env, s, job.fhash, plan);
    forall i: nat | Aligned(i, plan.chunk) && i < plan.End() ensures pieces(i) == plan.PieceAt(job.evidence, i) {
      ReadablePiece(env, job, s, plan, i);
    }
    OutputOfPlan(pieces, job.evidence, plan, plan.dbstart);
  }

  /** The file was stored under the name restore looks for, and its metadata parses. */
  predicate Reachable(env: Env, fhash: bytes) {
    !Text.Contains(fhash, K.NS_SEPARATOR) && env.MetadataParses()
  }

  ghost predicate NoneUpTo(env: Env, s: Stored, fhash: bytes, end: nat) {
    forall index: nat | Aligned(index, env.chunk) && index < end :: IndexValue(env, s, fhash, index) == None
  }

  lemma DeliveredIsPlain(env: Env, job: Job, s: Stored, fhash: bytes)
    requires env.Assumed() && job.Assumed(env) && Delivered(env, job, s)
    ensures PlainUpTo(env, s, fhash, |job.evidence|)
    ensures fhash != job.fhash || !env.MetadataParses() ==> NoneUpTo(env, s, fhash, |job.evidence|)
  {
    forall index: nat | Aligned(index, env.chunk) && index < |job.evidence|
      ensures Plain(env, s, fhash, index)
      ensures fhash != job.fhash || !env.MetadataParses() ==> IndexValue(env, s, fhash, index) == None
    {
      var k: nat :| Times(k, env.chunk) == index;
      if fhash == job.fhash {
        assert job.InFile(env, k) && DeliveredAt(env, job, s, k);
      } else {
        assert Lost(env, s, fhash, index);
      }
    }
  }

  /** What restoring a range of a stored file comes to. */
  lemma RestoredExactlyWhen(env: Env, evidence: bytes, fhash: bytes, s: Stored,
                            start: nat, size: nat, spare: int -> bytes)
    requires var job := JobOf(evidence, fhash); env.Assumed() && job.Assumed(env) && Delivered(env, job, s)
    requires start + size <= |evidence|
    ensures var sought := K.RestoredHash(K.EvidenceId(fhash));
            Restored(env, s, sought, PlanFor(env.chunk, start, size, spare)) == Some(evidence[start..start + size])
            <==>
            !Exceptional(|evidence|, env.chunk, start, size)
            && (EmptyLoop(env.chunk, start, size) || Reachable(env, fhash))
  {
    var job, sought := JobOf(evidence, fhash), K.RestoredHash(K.EvidenceId(fhash));
    var plan := PlanFor(env.chunk, start, size, spare);
    K.HashAgreement(fhash);
    AlignedStart(start, env.chunk);
    StartAligned(start, env.chunk);
    if EmptyLoop(env.chunk, start, size) {
      assert evidence[start..start] == [];
    } else if Reachable(env, fhash) {
      forall k: nat | job.InFile(env, k) ensures Readable(env, job, s, k) { assert DeliveredAt(env, job, s, k); }
      RestoredOfReadable(env, job, s, plan);
      RangeIsExact(evidence, env.chunk, start, size, spare);
    } else {
      DeliveredIsPlain(env, job, s, sought);
      assert IndexValue(env, s, sought, plan.dbstart) == None;
    }
  }

  /** Container mode from end to end, flat or hierarchical, quick or not: whatever
      the interleaving of dispatcher, workers, queue and writer, the early commits
      and the faults survived, if a store comes to its flush and to two closes
      without error, restoring a range gives exactly the evidence bytes of that
      range if and only if the range is not one of the two exceptional kinds and,
      unless there is nothing to read, the hash holds no separator and the
      directory of flat-mode containers no pipe. */
  lemma EveryStoreRestores(env: Env, evidence: bytes, fhash: bytes, cfg: CC.Writer, weather: Weather, first: Live,
                           max: nat, turns: seq<SP.Turn>, t: SP.Joint, start: nat, size: nat, spare: int -> bytes)
    requires var job := JobOf(evidence, fhash);
             && env.Assumed() && job.Assumed(env) && job.ChunksUpTo(env, env.containers.limit) && max > 0
             && IsStart(env, job, weather, cfg, first)
             && var pool := SP.PoolOf(env, job, max);
                SP.Turns(pool, Taker(env, job, cfg, weather), SP.Start(pool, first), turns) == Some(t)
    requires t.pool.phase.Flushed? && Outcome(env, weather, t.live).Some?
    requires start + size <= |evidence|
    ensures var sought := K.RestoredHash(K.EvidenceId(fhash));
            Restored(env, Outcome(env, weather, t.live).value, sought, PlanFor(env.chunk, start, size, spare)) ==
            Some(evidence[start..start + size])
            <==>
            !Exceptional(|evidence|, env.chunk, start, size)
            && (EmptyLoop(env.chunk, start, size) || Reachable(env, fhash))
  {
    SP.EveryStoreDelivers(env, JobOf(evidence, fhash), cfg, weather, first, max, turns, t);
    RestoredExactlyWhen(env, evidence, fhash, Outcome(env, weather, t.live).value, start, size, spare);
  }

  /** The same over the methods: a store under a given schedule, then a restore
      through a cache of any size. A store in which nothing fails reports success. */
  method StoreThenRestore(env: Env, evidence: bytes, fhash: bytes, weather: Weather, schedule: seq<Event>,
                          start: nat, size: nat, cacheSize: int, now: int -> nat, spare: int -> bytes)
    returns (stored: bool, restored: Option<bytes>, ghost cfg: CC.Writer, ghost first: Live, ghost events: seq<Event>)
    requires env.Assumed() && JobOf(evidence, fhash).Assumed(env)
    requires JobOf(evidence, fhash).ChunksUpTo(env, env.containers.limit)
    requires start + size <= |evidence|
    ensures var job := JobOf(evidence, fhash);
            && IsStart(env, job, weather, cfg, first) && schedule <= events
            && var s := Plays(Taker(env, job, cfg, weather), first, events);
               stored <==> s.Some? && ClosesWell(env, job, weather, s.value)
    ensures stored ==>
              (restored == Some(evidence[start..start + size]) <==>
               !Exceptional(|evidence|, env.chunk, start, size)
               && (EmptyLoop(env.chunk, start, size) || Reachable(env, fhash)))
    ensures stored && Reachable(env, fhash) && (start % env.chunk == 0 || size >= env.chunk) ==>
              restored == Some(evidence[start..start + size])
    ensures Calm(env, weather) ==> stored
  {
    var job := JobOf(evidence, fhash);
    var s;
    s, cfg, first, events := Store(env, job, weather, schedule);
    if s.None? { return false, None, cfg, first, events; }
    var sought := K.RestoredHash(K.EvidenceId(fhash));
    DeliveredIsPlain(env, job, s.value, sought);
    RestoredExactlyWhen(env, evidence, fhash, s.value, start, size, spare);
    if start % env.chunk == 0 || size >= env.chunk { AlignedOrLong(|evidence|, env.chunk, start, size); }
    restored := Restore(env, s.value, sought, start, size, cacheSize, now, spare);
    stored := true;
  }
}
