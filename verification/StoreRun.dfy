/** The store of module StoreProtocol on the real objects: storeEvidenceData as
    methods over a container manager and a block manager, proved to take the
    protocol's steps under any schedule. */
module StoreRun {
  import opened Basics
  import opened StorePipeline
  import opened StoreProtocol
  import opened BlockCodec
  import C = Containers
  import CM = ContainerManagement
  import CC = ConcurrentContainers
  import Q = WriteQueue
  import R = ContainerRuns
  import BI = BlockIndex
  import BM = BlockManagement
  import K = Keys

  lemma LaterIndex(i: nat, k: nat, m: nat)
    requires i <= k
    ensures i * m <= k * m
  {}

  /** The chunking loop: one worker per index 0, C, 2C, ... below the size. */
  method LaunchWorkers(env: Env, job: Job) returns (workers: seq<Worker>)
    requires env.chunk > 0
    ensures forall k: nat :: k < |workers| <==> job.InFile(env, k)
    ensures forall k | 0 <= k < |workers| :: workers[k] == Ping
  {
    workers := [];
    var storeIndex := 0;
    while storeIndex < |job.evidence|
      invariant storeIndex == |workers| * env.chunk
      invariant forall k: nat | k < |workers| :: job.InFile(env, k)
      invariant forall k | 0 <= k < |workers| :: workers[k] == Ping
      decreases |job.evidence| - storeIndex
    {
      workers := workers + [Ping];
      storeIndex := storeIndex + env.chunk;
    }
    forall k: nat | k >= |workers| ensures !job.InFile(env, k) { LaterIndex(|workers|, k, env.chunk); }
  }

  /** What the protocol sees of the two managers and the rest of the store. */
  ghost function LiveOf(run: Run, q: Queue, bm: BM.BlockManager): Live
    reads bm
  {
    Live(run, q, bm.View(), bm.log)
  }

  ghost predicate Ready(env: Env, job: Job, cfg: CC.Writer, run: Run, q: Queue,
                        cm: CM.ContainerManager, bm: BM.BlockManager)
    reads cm, bm
  {
    && cfg == CC.WriterOf(env.containers, map[], cfg.reqs) && InOrder(env, job, cfg, LiveOf(run, q, bm))
    && cm.Valid() && cm.env == env.containers && !cm.finalized && cm.View() == q.obj
    && bm.Valid() && bm.dir == env.dir
  }

  /** AddChunkMetadata under the chunk's key: a success has logged the entry. */
  method LogEntry(bm: BM.BlockManager, e: TypedEntry, io: BI.FlushIo) returns (ok: bool)
    requires bm.Valid() && |e.hash| == HASH_LENGTH && IsInt64(e.offset) && IsInt64(e.size)
    modifies bm
    ensures bm.Valid()
    ensures (bm.View(), ok) == (BI.Add(bm.dir, old(bm.View()), e, io).ledger, BI.Add(bm.dir, old(bm.View()), e, io).ok)
    ensures ok ==> bm.log == old(bm.log) + [e]
  {
    assert K.ChonkKey(e.hash)[5..] == e.hash;
    assert e == BlockCodec.Entry(e.hash, e.path, e.offset, e.size);
    BI.OkMeansLogged(bm.dir, bm.View(), e, io);
    ok := bm.AddChunkMetadata(K.ChonkKey(e.hash), e.path, e.offset, e.size, io);
  }

  /** SetBatchChonkNode's AddChunkMetadata in hierarchical mode. */
  method RecordTurn(env: Env, job: Job, cfg: CC.Writer, run: Run, q: Queue, io: BI.FlushIo,
                    cm: CM.ContainerManager, bm: BM.BlockManager, k: nat)
    returns (next: Run, ok: bool)
    requires Ready(env, job, cfg, run, q, cm, bm) && AtRecord(env, job, run, k)
    modifies bm
    ensures ok == TakeRecord(env, job, old(LiveOf(run, q, bm)), k, io).Some?
    ensures ok ==> TakeRecord(env, job, old(LiveOf(run, q, bm)), k, io).value == LiveOf(next, q, bm)
    ensures ok ==> Ready(env, job, cfg, next, q, cm, bm)
  {
    TakeRecordOk(env, job, cfg, LiveOf(run, q, bm), k, io);
    ok := LogEntry(bm, EntryFor(env, job, run, k), io);
    next := Advance(run, k, PingRel, []);
  }

  /** Worker k takes an action of its own. */
  method ActTurn(env: Env, job: Job, cfg: CC.Writer, run: Run, q: Queue, io: BI.FlushIo,
                 cm: CM.ContainerManager, bm: BM.BlockManager, k: nat)
    returns (next: Run, ok: bool)
    requires env.Assumed() && Ready(env, job, cfg, run, q, cm, bm)
    modifies bm
    ensures ok == TakeAct(env, job, old(LiveOf(run, q, bm)), k, io).Some?
    ensures ok ==> TakeAct(env, job, old(LiveOf(run, q, bm)), k, io).value == LiveOf(next, q, bm)
    ensures ok ==> Ready(env, job, cfg, next, q, cm, bm)
  {
    if AtRecord(env, job, run, k) {
      next, ok := RecordTurn(env, job, cfg, run, q, io, cm, bm, k);
    } else {
      TakeActOk(env, job, cfg, LiveOf(run, q, bm), k, io);
      next := if AtBatchMove(env, run, k) && job.InFile(env, k) then BatchStep(env, job, run, k) else run;
      ok := true;
    }
  }

  method WriterTurn(cfg: CC.Writer, q: Queue, cm: CM.ContainerManager) returns (t: Queue)
    requires cfg == CC.WriterOf(cm.env, map[], cfg.reqs) && Q.WriterCan(cfg, q)
    requires cm.Valid() && cm.View() == q.obj && (q.writer.Working? ==> cm.containerIndex < cm.env.limit)
    modifies cm
    ensures t == Q.WriterStep(cfg, q) && cm.Valid() && cm.View() == t.obj && cm.finalized == old(cm.finalized)
  {
    t := Q.WriterStep(cfg, q);
    if q.writer.Working? {
      var req := cfg.reqs[q.sent[q.taken - 1]];
      var r := cm.DoWrite(req.data, req.faults);
      assert req == C.Request(req.data, req.faults);
      assert (cm.View(), r) == cfg.step(q.obj, req);
    }
  }

  /** The writer's step is doWrite on the real manager. */
  method ServeTurn(env: Env, job: Job, cfg: CC.Writer, run: Run, q: Queue,
                   cm: CM.ContainerManager, bm: BM.BlockManager)
    returns (t: Queue)
    requires Ready(env, job, cfg, run, q, cm, bm)
    modifies cm
    ensures LiveOf(run, t, bm) == TakeServe(cfg, old(LiveOf(run, q, bm))) && Ready(env, job, cfg, run, t, cm, bm)
  {
    t := q;
    if Q.WriterCan(cfg, q) {
      ServeTurnOk(env, job, cfg, run, q, bm.log);
      t := WriterTurn(cfg, q, cm);
    }
  }

  /** A step of worker k's call; an answer that is a failure ends the store. */
  method SendTurn(env: Env, job: Job, cfg: CC.Writer, run: Run, q: Queue,
                  cm: CM.ContainerManager, bm: BM.BlockManager, k: nat)
    returns (next: Run, t: Queue, ok: bool)
    requires env.Assumed() && job.Assumed(env) && Ready(env, job, cfg, run, q, cm, bm)
    ensures ok == TakeSend(LiveOf(run, q, bm), k).Some?
    ensures ok ==> TakeSend(LiveOf(run, q, bm), k).value == LiveOf(next, t, bm)
    ensures ok ==> Ready(env, job, cfg, next, t, cm, bm)
  {
    next, t, ok := run, q, true;
    if CanSend(run, q, k) {
      SendTurnOk(env, job, cfg, run, q, bm.log, k);
      t := Q.ProducerStep(q, k);
      next, ok := AfterSend(run, t, k), !Failed(t, k);
    }
  }

  /** One scheduling decision is the protocol's. */
  method TakeTurn(env: Env, job: Job, cfg: CC.Writer, run: Run, q: Queue, weather: Weather,
                  cm: CM.ContainerManager, bm: BM.BlockManager, e: Event, ghost take: Taking)
    returns (next: Run, t: Queue, ok: bool)
    requires env.Assumed() && job.Assumed(env) && Ready(env, job, cfg, run, q, cm, bm)
    requires take == Taker(env, job, cfg, weather)
    modifies cm, bm
    ensures ok == take(old(LiveOf(run, q, bm)), e).Some?
    ensures ok ==> take(old(LiveOf(run, q, bm)), e).value == LiveOf(next, t, bm)
    ensures ok ==> Ready(env, job, cfg, next, t, cm, bm)
  {
    next, t, ok := run, q, true;
    match e
    case Commit(n) =>
      TakeCommitOk(env, job, cfg, LiveOf(run, q, bm), n);
      if n <= |run.batch| { next := CommitSome(env, run, n); }
    case Act(k) => next, ok := ActTurn(env, job, cfg, run, q, weather.records(k), cm, bm, k);
    case Send(k) => next, t, ok := SendTurn(env, job, cfg, run, q, cm, bm, k);
    case Serve => t := ServeTurn(env, job, cfg, run, q, cm, bm);
  }

  /** The objects are where the run from `start` by these events has come to, or
      the run has been ended by an error. */
  ghost predicate OnRun(env: Env, job: Job, cfg: CC.Writer, take: Taking, start: Live, events: seq<Event>,
                        run: Run, q: Queue, cm: CM.ContainerManager, bm: BM.BlockManager, ok: bool)
    reads cm, bm
  {
    && (ok ==> Plays(take, start, events) == Some(LiveOf(run, q, bm)) && Ready(env, job, cfg, run, q, cm, bm))
    && (!ok ==> Plays(take, start, events) == None)
  }

  /** The decisions of the schedule, until one of them fails. */
  method RunSchedule(env: Env, job: Job, cfg: CC.Writer, first: Run, idle: Queue, weather: Weather,
                     cm: CM.ContainerManager, bm: BM.BlockManager, schedule: seq<Event>, ghost take: Taking)
    returns (run: Run, q: Queue, ok: bool)
    requires env.Assumed() && job.Assumed(env) && Ready(env, job, cfg, first, idle, cm, bm)
    requires take == Taker(env, job, cfg, weather)
    modifies cm, bm
    ensures OnRun(env, job, cfg, take, old(LiveOf(first, idle, bm)), schedule, run, q, cm, bm, ok)
  {
    ghost var start := LiveOf(first, idle, bm);
    run, q, ok := first, idle, true;
    for i := 0 to |schedule|
      invariant OnRun(env, job, cfg, take, start, schedule[..i], run, q, cm, bm, ok)
    {
      assert schedule[..i + 1][..i] == schedule[..i];
      if ok { run, q, ok := TakeTurn(env, job, cfg, run, q, weather, cm, bm, schedule[i], take); }
    }
    assert schedule[..|schedule|] == schedule;
  }

  /** What the schedule has left to do is done: the workers always finish, unless
      an error ends the store. */
  method FinishWorkers(env: Env, job: Job, cfg: CC.Writer, run: Run, q: Queue, weather: Weather,
                       cm: CM.ContainerManager, bm: BM.BlockManager,
                       ghost take: Taking, ghost start: Live, ghost past: seq<Event>)
    returns (done: Run, t: Queue, ok: bool, ghost events: seq<Event>)
    requires env.Assumed() && job.Assumed(env) && take == Taker(env, job, cfg, weather)
    requires OnRun(env, job, cfg, take, start, past, run, q, cm, bm, true)
    modifies cm, bm
    ensures OnRun(env, job, cfg, take, start, events, done, t, cm, bm, ok) && past <= events
    ensures ok ==> AllDone(done)
  {
    done, t, ok, events := run, q, true, past;
    while ok && exists k | 0 <= k < |done.workers| :: !done.workers[k].Done?
      invariant OnRun(env, job, cfg, take, start, events, done, t, cm, bm, ok) && past <= events
      decreases ok, LeftToDo(LiveOf(done, t, bm))
    {
      var k: nat :| k < |done.workers| && !done.workers[k].Done?;
      ghost var s := LiveOf(done, t, bm);
      ReachedIsSafe(cfg, t);
      WorkerCanMove(env, job, cfg, weather, s, k);
      var e := MoveFor(cfg, done, t, k);
      PlaysSnoc(take, start, events, s, e);
      events := events + [e];
      done, t, ok := TakeTurn(env, job, cfg, done, t, weather, cm, bm, e, take);
    }
  }

  // ----- the closes -----

  /** The queue's part of Close: take the gate, shut the queue, wait for the
      writer. The containers stay as they are. */
  method CloseQueue(cfg: CC.Writer, q: Queue) returns (t: Queue)
    requires Reached(cfg, q) && q.shutdown.Unused? && |q.closers| == 1
    requires NoneUnderWay(q)
    ensures Reached(cfg, t) && t.shutdown.Finishing? && t.obj == q.obj
    ensures t.closed && t.queueClosed && t.writer.Exited? && |t.answers| == |t.sent|
  {
    ReachedIsSafe(cfg, q);
    StepIsReached(cfg, q, Q.Call(0));
    t := Q.Called(q, 0);
    while !t.shutdown.Finishing?
      invariant Reached(cfg, t) && t.obj == q.obj && t.producers == q.producers
      invariant !t.shutdown.Unused? && !t.shutdown.Spent?
      decreases Q.Measure(t)
    {
      ReachedIsSafe(cfg, t);
      NothingPending(cfg, t);
      if Q.WriterCan(cfg, t) {
        StepIsReached(cfg, t, Q.ByWriter);
        t := Q.WriterStep(cfg, t);
      } else {
        Q.WriterRests(cfg, t);
        StepIsReached(cfg, t, Q.ByShutdown);
        t := Q.ShutdownStep(t);
      }
    }
    ReachedIsSafe(cfg, t);
  }

  /** The end of storeEvidenceData: flush the batch, then the deferred closes
      of the block index and of the containers. */
  method Conclude(env: Env, job: Job, cfg: CC.Writer, run: Run, q: Queue, weather: Weather,
                  cm: CM.ContainerManager, bm: BM.BlockManager)
    returns (r: Option<Stored>)
    requires Ready(env, job, cfg, run, q, cm, bm) && AllDone(run)
    modifies cm, bm
    ensures r == Outcome(env, weather, old(LiveOf(run, q, bm)))
  {
    var done := CommitSome(env, run, |run.batch|);
    var indexed := bm.Close(weather.blockClose);
    DoneMeansAnswered(run, q);
    var drained := CloseQueue(cfg, q);
    var finalized := cm.Finalize(weather.atClose);
    return if indexed && finalized then Some(Stored(Raw(env, done.db), bm.files, cm.files)) else None;
  }

  /** How a store ends: with the outcome of a run in which all workers are done,
      or with the error that ended the run. */
  ghost predicate Ends(env: Env, weather: Weather, take: Taking, start: Live, events: seq<Event>, r: Option<Stored>) {
    match Plays(take, start, events)
    case None => r == None
    case Some(s) => AllDone(s.run) && r == Outcome(env, weather, s)
  }

  /** The rest of the store, once its objects are there. */
  method RunStore(env: Env, job: Job, cfg: CC.Writer, workers: seq<Worker>, weather: Weather, schedule: seq<Event>,
                  cm: CM.ContainerManager, bm: BM.BlockManager, ghost take: Taking)
    returns (r: Option<Stored>, ghost events: seq<Event>)
    requires env.Assumed() && job.Assumed(env) && take == Taker(env, job, cfg, weather)
    requires Ready(env, job, cfg, Run(map[], [], workers), Q.Initial(cfg, 1), cm, bm)
    modifies cm, bm
    ensures schedule <= events
    ensures Ends(env, weather, take, old(LiveOf(Run(map[], [], workers), Q.Initial(cfg, 1), bm)), events, r)
  {
    ghost var start := LiveOf(Run(map[], [], workers), Q.Initial(cfg, 1), bm);
    events := schedule;
    var run, q, ok := RunSchedule(env, job, cfg, Run(map[], [], workers), Q.Initial(cfg, 1), weather, cm, bm, schedule,
                                  take);
    if ok { run, q, ok, events := FinishWorkers(env, job, cfg, run, q, weather, cm, bm, take, start, schedule); }
    if !ok { return None, events; }
    r := Conclude(env, job, cfg, run, q, weather, cm, bm);
  }

  /** storeEvidenceData in container mode, under any schedule: what the schedule
      leaves undone is done afterwards. None for any error: one that ended the run,
      or one of the two closes. */
  method Store(env: Env, job: Job, weather: Weather, schedule: seq<Event>)
    returns (r: Option<Stored>, ghost cfg: CC.Writer, ghost start: Live, ghost events: seq<Event>)
    requires env.Assumed() && job.Assumed(env) && job.ChunksUpTo(env, env.containers.limit)
    ensures IsStart(env, job, weather, cfg, start) && schedule <= events
    ensures Ends(env, weather, Taker(env, job, cfg, weather), start, events, r)
    ensures r.Some? ==> Delivered(env, job, r.value)
    ensures var s := Plays(Taker(env, job, cfg, weather), start, events);
            && (r.Some? <==> s.Some? && ClosesWell(env, job, weather, s.value))
            && (r.Some? ==> R.OnlyCompressed(env.containers, r.value.files, s.value.q.obj.ids, {}))
    ensures Calm(env, weather) ==> r.Some?
  {
    var cm := new CM.ContainerManager(env.containers, map[]);
    var bm := new BM.BlockManager(env.dir);
    var workers := LaunchWorkers(env, job);
    var reqs := seq(|workers|, k requires 0 <= k < |workers| => C.Request(job.ChunkOf(env, k), weather.writes(k)));
    var writer := CC.WriterOf(env.containers, map[], reqs);
    cfg, start := writer, LiveOf(Run(map[], [], workers), Q.Initial(writer, 1), bm);
    StartIsInOrder(env, job, weather, cfg, start);
    ghost var take := Taker(env, job, cfg, weather);
    r, events := RunStore(env, job, writer, workers, weather, schedule, cm, bm, take);
    if Calm(env, weather) { CalmRunsGoOn(env, job, cfg, weather, start, events); }
    if Plays(take, start, events).Some? {
      var s := Plays(take, start, events).value;
      EveryRunDelivers(env, job, cfg, weather, start, events, s, [], s.q);
    }
  }
}
