/** One container-mode store (storeEvidenceData in lib/store/store.go) as a step
    machine: workers that interleave as they like, their chunk writes going
    through the manager's queue to its writer, early commits, and what every
    such run leaves once both closes have succeeded. */
module StoreProtocol {
  import opened Basics
  import opened StorePipeline
  import opened BlockCodec
  import C = Containers
  import CC = ConcurrentContainers
  import R = ContainerRuns
  import Q = WriteQueue
  import BI = BlockIndex
  import K = Keys

  type Queue = Q.State<C.State, C.Response>

  /** The job of a file with this hash: its relations carry the stored hash. */
  function JobOf(evidence: bytes, fhash: bytes): Job {
    Job(evidence, K.StoredHash(K.EvidenceId(fhash)))
  }

  /** What the operating system does to each worker's container write and index
      record and to the two closes. */
  datatype Weather = Weather(writes: nat -> C.Faults, records: nat -> BI.FlushIo,
                             atClose: C.Faults, blockClose: BI.FlushIo)

  /** Nothing fails, and the encoders accept every input. */
  ghost predicate Calm(env: Env, weather: Weather) {
    && (forall k: nat :: R.NoFaults(env.containers, weather.writes(k)))
    && (forall k: nat :: weather.records(k).Fine?)
    && R.NoFaults(env.containers, weather.atClose) && weather.blockClose.Fine?
  }

  /** One scheduling decision: worker k takes an action of its own, or a step of
      its call of WriteChunkToContainer; the writer takes a step; or the batch
      commits its first n entries. */
  datatype Event = Act(k: nat) | Send(k: nat) | Serve | Commit(n: nat)

  function Rank(w: Worker): nat {
    match w
    case Ping => 0
    case Write => 1
    case Record(_, _, _) => 2
    case PingRel => 3
    case SetRel => 4
    case SetRev => 5
    case Done => 6
  }

  /** Actions the workers still have to take. */
  function Left(workers: seq<Worker>): nat {
    if workers == [] then 0 else Left(workers[..|workers| - 1]) + 6 - Rank(workers[|workers| - 1])
  }

  lemma {:induction false} LeftUpdate(workers: seq<Worker>, k: nat, w: Worker)
    requires k < |workers|
    ensures Left(workers[k := w]) == Left(workers) + Rank(workers[k]) - Rank(w)
  {
    var n := |workers| - 1;
    if k == n {
      assert workers[k := w][..n] == workers[..n];
    } else {
      assert workers[k := w][..n] == workers[..n][k := w];
      LeftUpdate(workers[..n], k, w);
    }
  }

  // ----- the run and the queue together -----

  /** A worker's call: not made before its ping, under way while it writes, over after. */
  predicate InPhase(w: Worker, p: Q.Producer<C.Response>) {
    match w
    case Ping => p.Start?
    case Write => !p.Over() && !p.Refusing?
    case _ => p.Start? || (p.Served? && p.resp.Written?)
  }

  ghost predicate Phases(workers: seq<Worker>, q: Queue) {
    |q.producers| == |workers| && forall k | 0 <= k < |workers| :: InPhase(workers[k], q.producers[k])
  }

  /** The writer of this job's chunks, one request per worker. */
  ghost predicate Serves(env: Env, job: Job, cfg: CC.Writer, n: nat) {
    && CC.Writes(env.containers, cfg) && cfg.init == C.Start(map[]) && |cfg.reqs| == n <= env.containers.limit
    && forall k | 0 <= k < n :: job.InFile(env, k) && cfg.reqs[k].data == job.ChunkOf(env, k)
  }

  ghost predicate Reached(cfg: CC.Writer, q: Queue) {
    exists steps :: Q.IsRun(cfg, Q.Initial(cfg, 1), steps, q)
  }

  lemma ReachedIsSafe(cfg: CC.Writer, q: Queue)
    requires Reached(cfg, q)
    ensures Q.Inv(cfg, q) && Q.Measure(q) >= 0
  {
    var steps :| Q.IsRun(cfg, Q.Initial(cfg, 1), steps, q);
    Q.InitialInv(cfg, 1);
    Q.RunKeepsInv(cfg, Q.Initial(cfg, 1), steps, q);
    Q.MeasureNonNegative(cfg, q);
  }

  lemma StepIsReached(cfg: CC.Writer, q: Queue, step: Q.Step)
    requires Reached(cfg, q) && Q.Enabled(cfg, q, step)
    ensures Reached(cfg, Q.Apply(cfg, q, step))
    ensures Q.Inv(cfg, q) && Q.Measure(Q.Apply(cfg, q, step)) < Q.Measure(q)
  {
    var steps :| Q.IsRun(cfg, Q.Initial(cfg, 1), steps, q);
    Q.RunSnoc(cfg, Q.Initial(cfg, 1), steps, q, step);
    ReachedIsSafe(cfg, q);
    Q.MeasureDecreases(cfg, q, step);
  }

  /** What the queue protocol guarantees of the containers in a state it reaches. */
  lemma ReachedIsSound(env: Env, job: Job, cfg: CC.Writer, q: Queue, n: nat)
    requires Serves(env, job, cfg, n) && Reached(cfg, q)
    ensures C.Sound(env.containers, q.obj) && C.OnlyContainers(env.containers, q.obj.files)
    ensures q.obj.containerIndex <= |q.answers| <= |q.sent| <= n == |q.producers|
    ensures forall k | 0 <= k < n && q.producers[k].Served? && q.producers[k].resp.Written? ::
              R.BackedBy(q.obj.issued, q.producers[k].resp, cfg.reqs[k].data)
  {
    var steps :| Q.IsRun(cfg, Q.Initial(cfg, 1), steps, q);
    CC.RunsAreBacked(env.containers, cfg, 1, steps, q);
  }

  /** Without faults every call is answered with a location. */
  lemma CalmIsWritten(env: Env, job: Job, cfg: CC.Writer, q: Queue, n: nat)
    requires Serves(env, job, cfg, n) && Reached(cfg, q) && R.NoFaultsIn(env.containers, cfg.reqs)
    ensures q.obj.handle != C.DeadFile
    ensures forall k | 0 <= k < |q.producers| && q.producers[k].Served? :: q.producers[k].resp.Written?
  {
    var steps :| Q.IsRun(cfg, Q.Initial(cfg, 1), steps, q);
    CC.RunsAreTidy(env.containers, cfg, 1, steps, q);
    Q.RunsRefineTheObject(cfg, 1, steps, q);
  }

  /** Workers, queue and containers are in order. */
  ghost predicate LiveOk(env: Env, job: Job, cfg: CC.Writer, run: Run, q: Queue, log: seq<TypedEntry>) {
    && Serves(env, job, cfg, |run.workers|) && Reached(cfg, q) && q.shutdown.Unused? && |q.closers| == 1
    && Phases(run.workers, q)
    && RunOk(env, job, run, q.obj.issued, log)
    && (!env.hierarchical ==> log == [])
  }

  // ----- a worker's own actions -----

  /** GetReverseRelationNode, with the empty map for a missing node. */
  function NamesUnder(db: Db, key: bytes): set<bytes> {
    if key in db && db[key].RevEntry? then db[key].names else {}
  }

  /** processChonk's and processRel's pings, and the settings that only touch
      the batch: the worker's next state and the entries it adds. */
  function BatchMove(env: Env, job: Job, run: Run, k: nat): (Worker, seq<StorePipeline.Entry>)
    requires k < |run.workers| && job.InFile(env, k)
  {
    var h := job.HashOf(env, k);
    match run.workers[k]
    case Ping => (if K.ChonkKey(h) in run.db then PingRel else Write, [])
    case Record(path, offset, size) => (PingRel, [ChunkEntry(h, path, offset, size)])
    case PingRel => (if K.RelationKey(job.fhash, k * env.chunk) in run.db then SetRev else SetRel, [])
    case SetRel => (SetRev, [RelEntry(job.fhash, k, h)])
    case SetRev => (Done, [RevEntry(h, k, NamesUnder(run.db, K.ReverseKey(h, k * env.chunk)) + {job.fhash})])
    case w => (w, [])
  }

  function BatchStep(env: Env, job: Job, run: Run, k: nat): Run
    requires k < |run.workers| && job.InFile(env, k)
  {
    var (next, more) := BatchMove(env, job, run, k);
    Advance(run, k, next, more)
  }

  /** Worker k is at an action that only touches database and batch. */
  predicate AtBatchMove(env: Env, run: Run, k: nat) {
    && k < |run.workers| && !run.workers[k].Write? && !run.workers[k].Done?
    && (run.workers[k].Record? ==> !env.hierarchical)
  }

  lemma NamesAreOwn(env: Env, job: Job, issued: seq<C.Ticket>, db: Db, key: bytes)
    requires DbOk(env, job, issued, db)
    ensures NamesUnder(db, key) + {job.fhash} == {job.fhash}
  {
    if key in db { assert EntryOk(env, job, issued, db[key]); }
  }

  lemma BatchMoveEntries(env: Env, job: Job, run: Run, issued: seq<C.Ticket>, log: seq<TypedEntry>, k: nat)
    requires AtBatchMove(env, run, k) && job.InFile(env, k) && WorkerOk(env, job, run, issued, log, k)
    requires DbOk(env, job, issued, run.db)
    ensures BatchOk(env, job, issued, BatchMove(env, job, run, k).1)
    ensures Rank(BatchMove(env, job, run, k).0) > Rank(run.workers[k])
  {
    NamesAreOwn(env, job, issued, run.db, K.ReverseKey(job.HashOf(env, k), k * env.chunk));
  }

  lemma BatchMoveWorker(env: Env, job: Job, run: Run, issued: seq<C.Ticket>, log: seq<TypedEntry>, k: nat)
    requires AtBatchMove(env, run, k) && job.InFile(env, k) && WorkerOk(env, job, run, issued, log, k)
    ensures WorkerOk(env, job, BatchStep(env, job, run, k), issued, log, k)
  {
    var chunkKey, relKey := K.ChonkKey(job.HashOf(env, k)), K.RelationKey(job.fhash, k * env.chunk);
    var (next, more) := BatchMove(env, job, run, k);
    var t := Advance(run, k, next, more);
    StoreGrows(env, run, k, next, more, chunkKey);
    StoreGrows(env, run, k, next, more, relKey);
    assert run.workers[k].Record? ==> KeyOf(env, more[0]) == chunkKey;
    assert run.workers[k].SetRel? ==> KeyOf(env, more[0]) == relKey;
    assert run.workers[k].SetRev? ==> KeyOf(env, more[0]) == K.ReverseKey(job.HashOf(env, k), k * env.chunk);
    assert next.Recorded() ==> HasChunk(env, job, t, log, k);
    assert next.Related() ==> InStore(env, t, relKey);
  }

  lemma BatchStepOk(env: Env, job: Job, run: Run, issued: seq<C.Ticket>, log: seq<TypedEntry>, k: nat)
    requires RunOk(env, job, run, issued, log) && AtBatchMove(env, run, k)
    ensures RunOk(env, job, BatchStep(env, job, run, k), issued, log)
  {
    assert WorkerOk(env, job, run, issued, log, k);
    BatchMoveEntries(env, job, run, issued, log, k);
    BatchMoveWorker(env, job, run, issued, log, k);
    var (next, more) := BatchMove(env, job, run, k);
    assert log + [] == log;
    AdvanceKeepsRun(env, job, run, issued, log, k, next, more, []);
  }

  lemma BatchTurnOk(env: Env, job: Job, cfg: CC.Writer, run: Run, q: Queue, log: seq<TypedEntry>, k: nat)
    requires LiveOk(env, job, cfg, run, q, log) && AtBatchMove(env, run, k)
    ensures LiveOk(env, job, cfg, BatchStep(env, job, run, k), q, log)
    ensures Left(BatchStep(env, job, run, k).workers) < Left(run.workers)
  {
    assert WorkerOk(env, job, run, q.obj.issued, log, k);
    BatchStepOk(env, job, run, q.obj.issued, log, k);
    BatchMoveEntries(env, job, run, q.obj.issued, log, k);
    LeftUpdate(run.workers, k, BatchMove(env, job, run, k).0);
  }

  /** A block index entry that was accepted. */
  lemma LoggedOk(env: Env, job: Job, cfg: CC.Writer, run: Run, q: Queue, log: seq<TypedEntry>, k: nat, e: TypedEntry)
    requires LiveOk(env, job, cfg, run, q, log) && env.hierarchical && k < |run.workers|
    requires run.workers[k].Record? && e.hash == job.HashOf(env, k)
    requires run.workers[k].path == e.path && run.workers[k].offset == e.offset && run.workers[k].size == e.size
    ensures LiveOk(env, job, cfg, Advance(run, k, PingRel, []), q, log + [e])
    ensures Left(run.workers[k := PingRel]) < Left(run.workers)
  {
    assert WorkerOk(env, job, run, q.obj.issued, log, k);
    assert (log + [e])[|log|] == e;
    AdvanceKeepsRun(env, job, run, q.obj.issued, log, k, PingRel, [], [e]);
    LeftUpdate(run.workers, k, PingRel);
  }

  // ----- a step of a call, and of the writer -----

  /** After a producer's step: a worker whose call was answered goes on to record the answer. */
  function AfterSend(run: Run, q: Queue, k: nat): Run
    requires k < |run.workers| && k < |q.producers|
  {
    match q.producers[k]
    case Served(_, Written(path, offset, size)) => Advance(run, k, Record(path, offset, size), [])
    case _ => run
  }

  predicate CanSend(run: Run, q: Queue, k: nat) {
    k < |run.workers| && run.workers[k].Write? && Q.ProducerCan(q, k)
  }

  /** The call is answered, and with a failure. */
  predicate Failed(q: Queue, k: nat) {
    k < |q.producers| && q.producers[k].Served? && q.producers[k].resp.WriteFailed?
  }

  /** A backed answer is what worker k may record. */
  lemma AnswerIsTicket(env: Env, job: Job, s: C.State, r: C.Response, k: nat)
    requires C.Sound(env.containers, s) && job.Assumed(env) && env.chunk > 0 && job.InFile(env, k)
    requires r.Written? && R.BackedBy(s.issued, r, job.ChunkOf(env, k))
    ensures TicketFor(env, job, s.issued, job.HashOf(env, k), r.path, r.offset, r.size)
  {
    var n :| 0 <= n < |s.issued| && s.issued[n].path == r.path && s.issued[n].offset == r.offset
             && s.issued[n].size == r.size && s.issued[n].data == job.ChunkOf(env, k);
    assert C.Honest(env.containers, s.issued[n], s.ids, s.packed);
    assert job.ChunkFits(env, k) && job.IsChunk(env, job.ChunkOf(env, k));
    assert Says(env, job, s.issued[n], job.HashOf(env, k), r.path, r.offset, r.size);
  }

  lemma SendKeepsPhases(cfg: CC.Writer, run: Run, q: Queue, k: nat)
    requires Q.Inv(cfg, q) && q.shutdown.Unused? && Phases(run.workers, q) && CanSend(run, q, k)
    ensures !Failed(Q.ProducerStep(q, k), k) ==>
              Phases(AfterSend(run, Q.ProducerStep(q, k), k).workers, Q.ProducerStep(q, k))
  {
    var t := Q.ProducerStep(q, k);
    forall i | 0 <= i < |run.workers| && i != k ensures t.producers[i] == q.producers[i] {}
    assert InPhase(run.workers[k], q.producers[k]);
  }

  lemma AnswerIsRecorded(env: Env, job: Job, run: Run, s: C.State, log: seq<TypedEntry>, r: C.Response, k: nat)
    requires C.Sound(env.containers, s) && job.Assumed(env) && env.chunk > 0 && RunOk(env, job, run, s.issued, log)
    requires k < |run.workers| && run.workers[k].Write?
    requires r.Written? && R.BackedBy(s.issued, r, job.ChunkOf(env, k))
    ensures var next := Advance(run, k, Record(r.path, r.offset, r.size), []);
            RunOk(env, job, next, s.issued, log) && Left(next.workers) < Left(run.workers)
  {
    AnswerIsTicket(env, job, s, r, k);
    assert log + [] == log;
    AdvanceKeepsRun(env, job, run, s.issued, log, k, Record(r.path, r.offset, r.size), [], []);
    LeftUpdate(run.workers, k, Record(r.path, r.offset, r.size));
  }

  /** One step of worker k's call of WriteChunkToContainer. */
  lemma SendTurnOk(env: Env, job: Job, cfg: CC.Writer, run: Run, q: Queue, log: seq<TypedEntry>, k: nat)
    requires env.chunk > 0 && job.Assumed(env) && LiveOk(env, job, cfg, run, q, log) && CanSend(run, q, k)
    ensures var t := Q.ProducerStep(q, k);
            && Reached(cfg, t) && Q.Measure(t) < Q.Measure(q)
            && (!Failed(t, k) ==> LiveOk(env, job, cfg, AfterSend(run, t, k), t, log))
            && Left(AfterSend(run, t, k).workers) <= Left(run.workers)
  {
    var t := Q.ProducerStep(q, k);
    StepIsReached(cfg, q, Q.ByProducer(k));
    SendKeepsPhases(cfg, run, q, k);
    ReachedIsSound(env, job, cfg, t, |run.workers|);
    if t.producers[k].Served? && t.producers[k].resp.Written? {
      AnswerIsRecorded(env, job, run, t.obj, log, t.producers[k].resp, k);
    }
  }

  /** One step of the writer, whatever it serves. */
  lemma ServeTurnOk(env: Env, job: Job, cfg: CC.Writer, run: Run, q: Queue, log: seq<TypedEntry>)
    requires LiveOk(env, job, cfg, run, q, log) && Q.WriterCan(cfg, q)
    ensures LiveOk(env, job, cfg, run, Q.WriterStep(cfg, q), log)
    ensures Q.Measure(Q.WriterStep(cfg, q)) < Q.Measure(q)
    ensures q.writer.Working? ==> C.Sound(env.containers, q.obj) && q.obj.containerIndex < env.containers.limit
  {
    var t := Q.WriterStep(cfg, q);
    StepIsReached(cfg, q, Q.ByWriter);
    ReachedIsSound(env, job, cfg, q, |run.workers|);
    if q.writer.Working? {
      var req := cfg.reqs[q.sent[q.taken - 1]];
      var (obj, r) := cfg.step(q.obj, req);
      assert C.WriteWell(env.containers, q.obj, req, obj, r);
      var more := if r.Written? then [C.TicketOf(env.containers, q.obj, req.data, r)] else [];
      assert obj.issued == q.obj.issued + more;
      IssuingKeepsRun(env, job, run, q.obj.issued, more, log);
    }
  }

  /** Committing the first n batch entries early. */
  lemma CommitTurnOk(env: Env, job: Job, cfg: CC.Writer, run: Run, q: Queue, log: seq<TypedEntry>, n: nat)
    requires LiveOk(env, job, cfg, run, q, log) && n <= |run.batch|
    ensures LiveOk(env, job, cfg, CommitSome(env, run, n), q, log)
  {
    CommitKeepsRun(env, job, run, q.obj.issued, log, n);
  }

  /** While some worker is not done, it can act, or its call or the writer can move. */
  lemma SomeoneCanMove(env: Env, job: Job, cfg: CC.Writer, run: Run, q: Queue, log: seq<TypedEntry>, k: nat)
    requires LiveOk(env, job, cfg, run, q, log) && k < |run.workers| && run.workers[k].Write?
    ensures Q.WriterCan(cfg, q) || CanSend(run, q, k)
  {
    ReachedIsSafe(cfg, q);
    assert InPhase(run.workers[k], q.producers[k]);
    if !Q.WriterCan(cfg, q) { Q.ProducerProgress(cfg, q, k); }
  }

  // ----- the whole state, and one scheduling decision -----

  /** Workers, database and batch; the queue with the containers behind it; the
      block index and the log of what it accepted. */
  datatype Live = Live(run: Run, q: Queue, ledger: BI.Ledger, log: seq<TypedEntry>)

  ghost predicate InOrder(env: Env, job: Job, cfg: CC.Writer, s: Live) {
    && LiveOk(env, job, cfg, s.run, s.q, s.log)
    && BI.Agrees(env.dir, s.ledger, s.log) && BI.FromLog(s.ledger, s.log)
  }

  /** Worker k has a block index entry to add. */
  predicate AtRecord(env: Env, job: Job, run: Run, k: nat) {
    && env.hierarchical && k < |run.workers| && run.workers[k].Record? && job.InFile(env, k)
    && |job.HashOf(env, k)| == HASH_LENGTH && IsInt64(run.workers[k].offset) && IsInt64(run.workers[k].size)
  }

  function EntryFor(env: Env, job: Job, run: Run, k: nat): TypedEntry
    requires AtRecord(env, job, run, k)
  {
    BlockCodec.Entry(job.HashOf(env, k), run.workers[k].path, run.workers[k].offset, run.workers[k].size)
  }

  /** SetBatchChonkNode's AddChunkMetadata in hierarchical mode. */
  function TakeRecord(env: Env, job: Job, s: Live, k: nat, io: BI.FlushIo): Option<Live>
    requires AtRecord(env, job, s.run, k)
  {
    var e := EntryFor(env, job, s.run, k);
    var a := BI.Add(env.dir, s.ledger, e, io);
    if a.ok then Some(Live(Advance(s.run, k, PingRel, []), s.q, a.ledger, s.log + [e])) else None
  }

  /** Worker k takes an action of its own, if it has one. */
  function TakeAct(env: Env, job: Job, s: Live, k: nat, io: BI.FlushIo): Option<Live> {
    if AtRecord(env, job, s.run, k) then TakeRecord(env, job, s, k, io)
    else if AtBatchMove(env, s.run, k) && job.InFile(env, k) then Some(s.(run := BatchStep(env, job, s.run, k)))
    else Some(s)
  }

  /** A step of worker k's call; an answer that is a failure ends the store. */
  function TakeSend(s: Live, k: nat): Option<Live> {
    if !CanSend(s.run, s.q, k) then Some(s)
    else
      var t := Q.ProducerStep(s.q, k);
      if Failed(t, k) then None else Some(s.(run := AfterSend(s.run, t, k), q := t))
  }

  function TakeServe(cfg: CC.Writer, s: Live): Live {
    if Q.WriterCan(cfg, s.q) then s.(q := Q.WriterStep(cfg, s.q)) else s
  }

  function TakeCommit(env: Env, s: Live, n: nat): Live {
    if n <= |s.run.batch| then s.(run := CommitSome(env, s.run, n)) else s
  }

  /** One scheduling decision: one that is not possible changes nothing, and
      None is an error that ends the store. */
  function Take(env: Env, job: Job, cfg: CC.Writer, weather: Weather, s: Live, e: Event): Option<Live> {
    match e
    case Act(k) => TakeAct(env, job, s, k, weather.records(k))
    case Send(k) => TakeSend(s, k)
    case Serve => Some(TakeServe(cfg, s))
    case Commit(n) => Some(TakeCommit(env, s, n))
  }

  lemma RecordingWorker(env: Env, job: Job, cfg: CC.Writer, s: Live, k: nat)
    requires env.Assumed() && InOrder(env, job, cfg, s) && env.hierarchical
    requires k < |s.run.workers| && s.run.workers[k].Record?
    ensures AtRecord(env, job, s.run, k)
  {
    assert WorkerOk(env, job, s.run, s.q.obj.issued, s.log, k);
  }

  lemma TakeRecordOk(env: Env, job: Job, cfg: CC.Writer, s: Live, k: nat, io: BI.FlushIo)
    requires InOrder(env, job, cfg, s) && AtRecord(env, job, s.run, k)
    ensures var t := TakeRecord(env, job, s, k, io);
            && (t.Some? ==> InOrder(env, job, cfg, t.value) && Left(t.value.run.workers) < Left(s.run.workers))
            && (io.Fine? ==> t.Some?)
  {
    var e := EntryFor(env, job, s.run, k);
    BI.OkMeansLogged(env.dir, s.ledger, e, io);
    BI.FineSucceeds(env.dir, s.ledger, e);
    BI.AddKeepsAgreement(env.dir, s.ledger, s.log, e, io);
    BI.AddKeepsFromLog(env.dir, s.ledger, s.log, e, io);
    LoggedOk(env, job, cfg, s.run, s.q, s.log, k, e);
  }

  lemma TakeActOk(env: Env, job: Job, cfg: CC.Writer, s: Live, k: nat, io: BI.FlushIo)
    requires env.Assumed() && InOrder(env, job, cfg, s)
    ensures var t := TakeAct(env, job, s, k, io);
            && (t.Some? ==> InOrder(env, job, cfg, t.value))
            && (t.Some? && k < |s.run.workers| && !s.run.workers[k].Write? && !s.run.workers[k].Done? ==>
                  Left(t.value.run.workers) < Left(s.run.workers) && t.value.q == s.q)
            && (io.Fine? ==> t.Some?)
  {
    if AtRecord(env, job, s.run, k) {
      TakeRecordOk(env, job, cfg, s, k, io);
    } else if k < |s.run.workers| {
      if s.run.workers[k].Record? && env.hierarchical { RecordingWorker(env, job, cfg, s, k); }
      if AtBatchMove(env, s.run, k) { BatchTurnOk(env, job, cfg, s.run, s.q, s.log, k); }
    }
  }

  lemma TakeSendOk(env: Env, job: Job, cfg: CC.Writer, s: Live, k: nat)
    requires env.Assumed() && job.Assumed(env) && InOrder(env, job, cfg, s)
    ensures var t := TakeSend(s, k);
            && (t.Some? ==> InOrder(env, job, cfg, t.value) && Left(t.value.run.workers) <= Left(s.run.workers))
            && (t.Some? && CanSend(s.run, s.q, k) ==> Q.Measure(t.value.q) < Q.Measure(s.q))
            && (R.NoFaultsIn(env.containers, cfg.reqs) ==> t.Some?)
  {
    if CanSend(s.run, s.q, k) {
      var t := Q.ProducerStep(s.q, k);
      SendTurnOk(env, job, cfg, s.run, s.q, s.log, k);
      if R.NoFaultsIn(env.containers, cfg.reqs) { CalmIsWritten(env, job, cfg, t, |s.run.workers|); }
    }
  }

  lemma TakeServeOk(env: Env, job: Job, cfg: CC.Writer, s: Live)
    requires InOrder(env, job, cfg, s)
    ensures InOrder(env, job, cfg, TakeServe(cfg, s)) && TakeServe(cfg, s).run == s.run
    ensures Q.WriterCan(cfg, s.q) ==> Q.Measure(TakeServe(cfg, s).q) < Q.Measure(s.q)
  {
    if Q.WriterCan(cfg, s.q) { ServeTurnOk(env, job, cfg, s.run, s.q, s.log); }
  }

  lemma TakeCommitOk(env: Env, job: Job, cfg: CC.Writer, s: Live, n: nat)
    requires InOrder(env, job, cfg, s)
    ensures InOrder(env, job, cfg, TakeCommit(env, s, n))
  {
    if n <= |s.run.batch| { CommitTurnOk(env, job, cfg, s.run, s.q, s.log, n); }
  }

  /** Every decision keeps workers, queue, containers and index in order. */
  lemma TakeKeepsOrder(env: Env, job: Job, cfg: CC.Writer, weather: Weather, s: Live, e: Event)
    requires env.Assumed() && job.Assumed(env) && InOrder(env, job, cfg, s)
    ensures var t := Take(env, job, cfg, weather, s, e);
            && (t.Some? ==> InOrder(env, job, cfg, t.value))
            && (Calm(env, weather) && R.NoFaultsIn(env.containers, cfg.reqs) ==> t.Some?)
  {
    match e
    case Act(k) => TakeActOk(env, job, cfg, s, k, weather.records(k));
    case Send(k) => TakeSendOk(env, job, cfg, s, k);
    case Serve => TakeServeOk(env, job, cfg, s);
    case Commit(n) => TakeCommitOk(env, job, cfg, s, n);
  }

  /** Actions of workers and steps of calls still to come. */
  function LeftToDo(s: Live): int {
    Left(s.run.workers) + Q.Measure(s.q)
  }

  /** A decision that gets worker k further, or the writer while k waits for it. */
  function MoveFor(cfg: CC.Writer, run: Run, q: Queue, k: nat): Event
    requires k < |run.workers|
  {
    if !run.workers[k].Write? then Act(k) else if Q.WriterCan(cfg, q) then Serve else Send(k)
  }

  /** A worker that is not done is never stuck. */
  lemma WorkerCanMove(env: Env, job: Job, cfg: CC.Writer, weather: Weather, s: Live, k: nat)
    requires env.Assumed() && job.Assumed(env) && InOrder(env, job, cfg, s)
    requires k < |s.run.workers| && !s.run.workers[k].Done?
    ensures var t := Take(env, job, cfg, weather, s, MoveFor(cfg, s.run, s.q, k));
            t.Some? ==> LeftToDo(t.value) < LeftToDo(s)
  {
    if !s.run.workers[k].Write? {
      TakeActOk(env, job, cfg, s, k, weather.records(k));
    } else {
      SomeoneCanMove(env, job, cfg, s.run, s.q, s.log, k);
      if Q.WriterCan(cfg, s.q) {
        TakeServeOk(env, job, cfg, s);
      } else {
        TakeSendOk(env, job, cfg, s, k);
      }
    }
  }

  /** A decision ends the store exactly when it is the recording of a location that
      comes to a flush of the block index and the flush fails, or the step in which
      a call is answered with a failure. */
  lemma EndsExactlyWhen(env: Env, job: Job, cfg: CC.Writer, weather: Weather, s: Live, e: Event)
    ensures Take(env, job, cfg, weather, s, e).None? <==>
            match e
            case Act(k) =>
              AtRecord(env, job, s.run, k) && !weather.records(k).Fine? &&
              BI.Flushes(env.dir, s.ledger, EntryFor(env, job, s.run, k))
            case Send(k) => CanSend(s.run, s.q, k) && Failed(Q.ProducerStep(s.q, k), k)
            case _ => false
  {
    if e.Act? && AtRecord(env, job, s.run, e.k) {
      BI.AddSucceedsIff(env.dir, s.ledger, EntryFor(env, job, s.run, e.k), weather.records(e.k));
    }
  }

  // ----- whole runs -----

  type Taking = (Live, Event) -> Option<Live>

  function Taker(env: Env, job: Job, cfg: CC.Writer, weather: Weather): Taking {
    (s: Live, e: Event) => Take(env, job, cfg, weather, s, e)
  }

  /** The state after a sequence of decisions, if none of them ended the store. */
  function Plays(take: Taking, start: Live, events: seq<Event>): Option<Live> {
    if events == [] then Some(start)
    else
      match Plays(take, start, events[..|events| - 1])
      case None => None
      case Some(s) => take(s, events[|events| - 1])
  }

  lemma PlaysSnoc(take: Taking, start: Live, events: seq<Event>, s: Live, e: Event)
    requires Plays(take, start, events) == Some(s)
    ensures Plays(take, start, events + [e]) == take(s, e)
  {
    assert (events + [e])[..|events|] == events;
  }

  /** What holds of every decision taken in order. */
  ghost predicate KeepsOrder(env: Env, job: Job, cfg: CC.Writer, weather: Weather, take: Taking) {
    forall s, e | InOrder(env, job, cfg, s) ::
      && (take(s, e).Some? ==> InOrder(env, job, cfg, take(s, e).value))
      && (Calm(env, weather) && R.NoFaultsIn(env.containers, cfg.reqs) ==> take(s, e).Some?)
  }

  lemma TakerKeepsOrder(env: Env, job: Job, cfg: CC.Writer, weather: Weather)
    requires env.Assumed() && job.Assumed(env)
    ensures KeepsOrder(env, job, cfg, weather, Taker(env, job, cfg, weather))
  {
    var take := Taker(env, job, cfg, weather);
    forall s, e | InOrder(env, job, cfg, s)
      ensures take(s, e).Some? ==> InOrder(env, job, cfg, take(s, e).value)
      ensures Calm(env, weather) && R.NoFaultsIn(env.containers, cfg.reqs) ==> take(s, e).Some?
    {
      TakeKeepsOrder(env, job, cfg, weather, s, e);
    }
  }

  lemma {:induction false} RunsKeepOrder(env: Env, job: Job, cfg: CC.Writer, weather: Weather, take: Taking,
                                         start: Live, events: seq<Event>)
    requires KeepsOrder(env, job, cfg, weather, take) && InOrder(env, job, cfg, start)
    ensures Plays(take, start, events).Some? ==> InOrder(env, job, cfg, Plays(take, start, events).value)
    ensures Calm(env, weather) && R.NoFaultsIn(env.containers, cfg.reqs) ==> Plays(take, start, events).Some?
  {
    if events != [] { RunsKeepOrder(env, job, cfg, weather, take, start, events[..|events| - 1]); }
  }

  /** Before the first decision: one worker per chunk, each about to ping, an idle
      queue over an empty directory, and the requests the workers may make. */
  ghost predicate IsStart(env: Env, job: Job, weather: Weather, cfg: CC.Writer, s: Live) {
    && s == Live(Run(map[], [], s.run.workers), Q.Initial(cfg, 1), BI.EMPTY, [])
    && (forall k: nat :: k < |s.run.workers| <==> job.InFile(env, k))
    && (forall k | 0 <= k < |s.run.workers| :: s.run.workers[k] == Ping)
    && cfg == CC.WriterOf(env.containers, map[], cfg.reqs) && |cfg.reqs| == |s.run.workers|
    && forall k | 0 <= k < |cfg.reqs| :: cfg.reqs[k] == C.Request(job.ChunkOf(env, k), weather.writes(k))
  }

  lemma StartIsLive(env: Env, job: Job, cfg: CC.Writer, workers: seq<Worker>)
    requires env.Assumed() && CC.Writes(env.containers, cfg) && cfg.init == C.Start(map[])
    requires |cfg.reqs| == |workers| && job.ChunksUpTo(env, env.containers.limit)
    requires forall k: nat :: k < |workers| <==> job.InFile(env, k)
    requires forall k | 0 <= k < |workers| :: workers[k] == Ping && cfg.reqs[k].data == job.ChunkOf(env, k)
    ensures LiveOk(env, job, cfg, Run(map[], [], workers), Q.Initial(cfg, 1), [])
  {
    assert Q.IsRun(cfg, Q.Initial(cfg, 1), [], Q.Initial(cfg, 1));
    if workers != [] { assert job.InFile(env, |workers| - 1); }
    forall k: nat | k < |workers| ensures WorkerOk(env, job, Run(map[], [], workers), [], [], k) {}
  }

  lemma StartIsInOrder(env: Env, job: Job, weather: Weather, cfg: CC.Writer, s: Live)
    requires env.Assumed() && job.ChunksUpTo(env, env.containers.limit) && IsStart(env, job, weather, cfg, s)
    ensures InOrder(env, job, cfg, s)
    ensures Calm(env, weather) ==> R.NoFaultsIn(env.containers, cfg.reqs)
  {
    CC.WriterWrites(env.containers, map[], cfg.reqs);
    StartIsLive(env, job, cfg, s.run.workers);
  }

  // ----- the closes -----

  ghost predicate NoneUnderWay(q: Queue) {
    forall k | 0 <= k < |q.producers| :: q.producers[k].Start? || q.producers[k].Served?
  }

  /** Every accepted call has been answered, and the writer is between requests. */
  lemma NothingPending(cfg: CC.Writer, q: Queue)
    requires Q.Inv(cfg, q) && NoneUnderWay(q)
    ensures |q.answers| == |q.sent| == q.taken && (q.writer.Receiving? || q.writer.Exited?)
  {
    if q.sent != [] {
      var last := |q.sent| - 1;
      assert Q.PlaceOk(q, last);
      assert Q.ProducerOk(q, q.sent[last]);
    }
  }

  ghost predicate AllDone(run: Run) {
    forall k | 0 <= k < |run.workers| :: run.workers[k].Done?
  }

  /** When all workers are done no call of the manager is under way. */
  lemma DoneMeansAnswered(run: Run, q: Queue)
    requires Phases(run.workers, q) && AllDone(run)
    ensures NoneUnderWay(q)
  {
    forall k | 0 <= k < |q.producers| ensures q.producers[k].Start? || q.producers[k].Served? {
      assert InPhase(run.workers[k], q.producers[k]);
    }
  }

  /** The steps of Close and of the writer, without any new call. */
  ghost predicate OnlyCloses(steps: seq<Q.Step>) {
    forall i | 0 <= i < |steps| :: !steps[i].ByProducer?
  }

  /** However Close and the writer interleave, closing the queue after the last
      call leaves the containers as they were. */
  lemma {:induction false} ClosingKeepsContainers(cfg: CC.Writer, q: Queue, steps: seq<Q.Step>, t: Queue)
    requires Q.Inv(cfg, q) && NoneUnderWay(q) && OnlyCloses(steps) && Q.IsRun(cfg, q, steps, t)
    ensures t.obj == q.obj && NoneUnderWay(t)
    decreases |steps|
  {
    if steps != [] {
      NothingPending(cfg, q);
      Q.StepKeepsInv(cfg, q, steps[0]);
      ClosingKeepsContainers(cfg, Q.Apply(cfg, q, steps[0]), steps[1..], t);
    }
  }

  /** The end of storeEvidenceData: flush the batch, then the deferred closes of
      the block index and of the containers. None when either reports an error. */
  function Outcome(env: Env, weather: Weather, s: Live): Option<Stored> {
    var done := CommitSome(env, s.run, |s.run.batch|);
    var (ledger, indexed) := BI.CloseLedger(s.ledger, weather.blockClose);
    var (containers, finalized) := C.Closed(env.containers, s.q.obj, weather.atClose);
    if indexed && finalized then Some(Stored(Raw(env, done.db), BI.FilesOf(ledger.stored), containers.files)) else None
  }

  /** When all workers are done every request that was queued has been written. */
  lemma DoneMeansWritten(cfg: CC.Writer, run: Run, q: Queue)
    requires Q.Inv(cfg, q) && Phases(run.workers, q) && AllDone(run)
    ensures |q.answers| == |q.sent| && R.AllWritten(q.answers)
  {
    DoneMeansAnswered(run, q);
    NothingPending(cfg, q);
    forall j | 0 <= j < |q.answers| ensures q.answers[j].Written? {
      assert Q.PlaceOk(q, j) && Q.ProducerOk(q, q.sent[j]);
      assert InPhase(run.workers[q.sent[j]], q.producers[q.sent[j]]);
    }
  }

  /** The chunks that were queued, in queue order. */
  ghost function Queued(cfg: CC.Writer, q: Queue): seq<bytes>
    requires forall i | 0 <= i < |q.sent| :: q.sent[i] < |cfg.reqs|
  {
    CC.Chunks(cfg.reqs, q.sent)
  }

  /** So the manager is tidy, whatever failed without failing a write. */
  lemma DoneMeansTidy(env: Env, job: Job, cfg: CC.Writer, s: Live)
    requires InOrder(env, job, cfg, s) && AllDone(s.run)
    ensures Q.Requests(cfg, s.q.sent) && C.Sound(env.containers, s.q.obj)
    ensures R.Tidy(env.containers, {}, s.q.obj, Queued(cfg, s.q))
  {
    ReachedIsSafe(cfg, s.q);
    DoneMeansWritten(cfg, s.run, s.q);
    var steps :| Q.IsRun(cfg, Q.Initial(cfg, 1), steps, s.q);
    CC.RunsAreTidy(env.containers, cfg, 1, steps, s.q);
    var chunks := Queued(cfg, s.q);
    assert chunks[..|chunks|] == chunks;
    assert cfg.init.files.Keys == {};
  }

  lemma TicketsNeedContainers(env: C.Env, s: C.State)
    requires C.Sound(env, s) && s.issued != []
    ensures s.handle != C.NoFile
  {
    assert C.Honest(env, s.issued[0], s.ids, s.packed);
  }

  lemma NothingIsNotPacked(env: Env, s: C.State)
    requires R.Tidy(env.containers, {}, s, []) && C.Sound(env.containers, s)
    ensures s.handle == C.NoFile
  {}

  /** A file that is not empty has left a container open. */
  lemma SomethingIsOpen(env: Env, job: Job, cfg: CC.Writer, s: Live)
    requires env.Assumed() && InOrder(env, job, cfg, s) && AllDone(s.run)
    ensures s.q.obj.handle == if job.evidence != [] then C.OpenFile else C.NoFile
  {
    DoneMeansTidy(env, job, cfg, s);
    if job.evidence != [] {
      assert job.InFile(env, 0) && WorkerOk(env, job, s.run, s.q.obj.issued, s.log, 0);
      ChunkHasTicket(env, job, s.run, s.q.obj.issued, s.log, 0);
      TicketsNeedContainers(env.containers, s.q.obj);
    } else {
      assert !job.InFile(env, 0);
      ReachedIsSound(env, job, cfg, s.q, |s.run.workers|);
      assert s.q.sent == [] && Queued(cfg, s.q) == [];
      NothingIsNotPacked(env, s.q.obj);
    }
  }

  /** Neither of the deferred closes meets an error. */
  ghost predicate ClosesWell(env: Env, job: Job, weather: Weather, s: Live) {
    && (s.ledger.HasPending() ==> weather.blockClose.Fine?)
    && (job.evidence != [] ==> C.CanShelve(env.containers, s.q.obj, weather.atClose))
  }

  /** A store whose workers are done succeeds exactly when the index has nothing
      left to flush or flushes it, and the last container, if there is one, is
      synced, closed and compressed. Then the directory holds the compressed
      containers, packed next-fit, and nothing else. */
  lemma SuccessExactlyWhen(env: Env, job: Job, cfg: CC.Writer, weather: Weather, s: Live)
    requires env.Assumed() && InOrder(env, job, cfg, s) && AllDone(s.run)
    ensures Outcome(env, weather, s).Some? <==> ClosesWell(env, job, weather, s)
    ensures Q.Requests(cfg, s.q.sent)
    ensures Outcome(env, weather, s).Some? ==>
              R.TidyEnd(env.containers, {}, s.q.obj, Queued(cfg, s.q), Outcome(env, weather, s).value.files)
  {
    DoneMeansTidy(env, job, cfg, s);
    SomethingIsOpen(env, job, cfg, s);
    C.ClosedOutcome(env.containers, s.q.obj, weather.atClose);
    if Outcome(env, weather, s).Some? {
      R.TidyEnds(env.containers, {}, s.q.obj, Queued(cfg, s.q), weather.atClose);
    }
  }

  lemma LedgerCloses(env: Env, job: Job, cfg: CC.Writer, s: Live, io: BI.FlushIo)
    requires InOrder(env, job, cfg, s) && BI.CloseLedger(s.ledger, io).1
    ensures var l := BI.CloseLedger(s.ledger, io).0; BI.Settled(env.dir, l, s.log) && BI.FromLog(l, s.log)
  {
    BI.CloseSettles(env.dir, s.ledger, s.log, io);
    if s.ledger.HasPending() { BI.FlushKeepsFromLog(s.ledger, s.log, io); }
  }

  /** Once all workers are done and both closes report no error, the file is delivered. */
  lemma DoneIsDelivered(env: Env, job: Job, cfg: CC.Writer, weather: Weather, s: Live)
    requires env.Assumed() && job.Assumed(env) && InOrder(env, job, cfg, s) && AllDone(s.run)
    ensures Outcome(env, weather, s).Some? ==> Delivered(env, job, Outcome(env, weather, s).value)
    ensures Calm(env, weather) && R.NoFaultsIn(env.containers, cfg.reqs) ==> Outcome(env, weather, s).Some?
  {
    CommitTurnOk(env, job, cfg, s.run, s.q, s.log, |s.run.batch|);
    var done := CommitSome(env, s.run, |s.run.batch|);
    ReachedIsSound(env, job, cfg, s.q, |s.run.workers|);
    if R.NoFaultsIn(env.containers, cfg.reqs) { CalmIsWritten(env, job, cfg, s.q, |s.run.workers|); }
    C.ClosedOutcome(env.containers, s.q.obj, weather.atClose);
    BI.CloseFine(s.ledger);
    if Outcome(env, weather, s).Some? {
      LedgerCloses(env, job, cfg, s, weather.blockClose);
      FinishedIsDelivered(env, job, done, C.Closed(env.containers, s.q.obj, weather.atClose).0, s.log,
                          BI.CloseLedger(s.ledger, weather.blockClose).0);
    }
  }

  /** Every run of the store: in whatever order the workers act and send, the
      writer serves and the batch commits, and however the queue is then closed,
      a run that ends with all workers done succeeds exactly when neither close
      meets an error, and then has delivered the file and left the compressed
      containers alone in their directory. A run in which nothing fails does end so. */
  lemma EveryRunDelivers(env: Env, job: Job, cfg: CC.Writer, weather: Weather, start: Live, events: seq<Event>,
                         s: Live, closing: seq<Q.Step>, t: Queue)
    requires env.Assumed() && job.Assumed(env) && job.ChunksUpTo(env, env.containers.limit)
    requires IsStart(env, job, weather, cfg, start)
    requires Plays(Taker(env, job, cfg, weather), start, events) == Some(s) && AllDone(s.run)
    requires OnlyCloses(closing) && Q.IsRun(cfg, s.q, closing, t)
    ensures Outcome(env, weather, s.(q := t)) == Outcome(env, weather, s)
    ensures Outcome(env, weather, s).Some? ==> Delivered(env, job, Outcome(env, weather, s).value)
    ensures Outcome(env, weather, s).Some? <==> ClosesWell(env, job, weather, s)
    ensures Outcome(env, weather, s).Some? ==>
              R.OnlyCompressed(env.containers, Outcome(env, weather, s).value.files, s.q.obj.ids, {})
    ensures Calm(env, weather) ==> Outcome(env, weather, s).Some?
  {
    StartIsInOrder(env, job, weather, cfg, start);
    TakerKeepsOrder(env, job, cfg, weather);
    RunsKeepOrder(env, job, cfg, weather, Taker(env, job, cfg, weather), start, events);
    ReachedIsSafe(cfg, s.q);
    DoneMeansAnswered(s.run, s.q);
    ClosingKeepsContainers(cfg, s.q, closing, t);
    DoneIsDelivered(env, job, cfg, weather, s);
    SuccessExactlyWhen(env, job, cfg, weather, s);
  }

  /** And when nothing fails no decision ends the store early. */
  lemma CalmRunsGoOn(env: Env, job: Job, cfg: CC.Writer, weather: Weather, start: Live, events: seq<Event>)
    requires env.Assumed() && job.Assumed(env) && job.ChunksUpTo(env, env.containers.limit)
    requires IsStart(env, job, weather, cfg, start) && Calm(env, weather)
    ensures Plays(Taker(env, job, cfg, weather), start, events).Some?
  {
    StartIsInOrder(env, job, weather, cfg, start);
    TakerKeepsOrder(env, job, cfg, weather);
    RunsKeepOrder(env, job, cfg, weather, Taker(env, job, cfg, weather), start, events);
  }
}
