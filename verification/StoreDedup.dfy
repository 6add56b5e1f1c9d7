/** What the ping of a chunk's key spares (processChonk in lib/store/store.go):
    over all runs, which chunks are written and which are not. */
module StoreDedup {
  import opened Basics
  import opened StorePipeline
  import opened StoreProtocol
  import CC = ConcurrentContainers
  import Q = WriteQueue
  import BI = BlockIndex
  import K = Keys

  // ----- what a decision does to the workers and their calls -----

  /** A worker's own action, given whether its chunk and its relation are in the database. */
  predicate ActsTo(w: Worker, next: Worker, known: bool, linked: bool) {
    match w
    case Ping => if known then next.PingRel? else next.Write?
    case Record(_, _, _) => next.PingRel?
    case PingRel => if linked then next.SetRev? else next.SetRel?
    case SetRel => next.SetRev?
    case SetRev => next.Done?
    case _ => false
  }

  ghost predicate OnlyAt(before: seq<Worker>, after: seq<Worker>, j: nat) {
    |after| == |before| && forall i | 0 <= i < |before| && i != j :: after[i] == before[i]
  }

  ghost predicate Acts(env: Env, job: Job, s: Live, t: Live, j: nat) {
    && t.q == s.q && t.run.db == s.run.db && OnlyAt(s.run.workers, t.run.workers, j)
    && (j < |s.run.workers| && t.run.workers[j] != s.run.workers[j] ==>
          && job.InFile(env, j)
          && ActsTo(s.run.workers[j], t.run.workers[j], K.ChonkKey(job.HashOf(env, j)) in s.run.db,
                    K.RelationKey(job.fhash, j * env.chunk) in s.run.db))
  }

  /** A step of worker j's call. */
  ghost predicate Calls(s: Live, t: Live, j: nat) {
    && j < |s.run.workers| && s.run.workers[j].Write? && t.run.db == s.run.db && OnlyAt(s.run.workers, t.run.workers, j)
    && |t.q.producers| == |s.q.producers| && j < |s.q.producers| && !t.q.producers[j].Start?
    && (forall i | 0 <= i < |s.q.producers| && i != j :: t.q.producers[i] == s.q.producers[i])
    && (t.run.workers[j].Write?
        || (t.run.workers[j].Record? && t.q.producers[j].Served? && t.q.producers[j].resp.Written?))
  }

  ghost predicate Rests(s: Live, t: Live) {
    t.run.workers == s.run.workers && t.q.producers == s.q.producers && s.run.db.Keys <= t.run.db.Keys
  }

  ghost predicate Moves(env: Env, job: Job, s: Live, t: Live, e: Event) {
    match e
    case Act(j) => Acts(env, job, s, t, j)
    case Send(j) => t == s || Calls(s, t, j)
    case _ => Rests(s, t)
  }

  lemma BatchActs(env: Env, job: Job, s: Live, j: nat)
    requires AtBatchMove(env, s.run, j) && job.InFile(env, j)
    ensures Acts(env, job, s, s.(run := BatchStep(env, job, s.run, j)), j)
  {}

  lemma RecordActs(env: Env, job: Job, s: Live, j: nat, io: BI.FlushIo)
    requires AtRecord(env, job, s.run, j) && TakeRecord(env, job, s, j, io).Some?
    ensures Acts(env, job, s, TakeRecord(env, job, s, j, io).value, j)
  {}

  lemma SendCalls(cfg: CC.Writer, s: Live, j: nat)
    requires Q.Inv(cfg, s.q) && TakeSend(s, j).Some? && CanSend(s.run, s.q, j)
    ensures Calls(s, TakeSend(s, j).value, j)
  {}

  lemma TakeMoves(env: Env, job: Job, cfg: CC.Writer, weather: Weather, s: Live, e: Event)
    requires InOrder(env, job, cfg, s) && Take(env, job, cfg, weather, s, e).Some?
    ensures Moves(env, job, s, Take(env, job, cfg, weather, s, e).value, e)
  {
    match e
    case Act(j) =>
      if AtRecord(env, job, s.run, j) {
        RecordActs(env, job, s, j, weather.records(j));
      } else if AtBatchMove(env, s.run, j) && job.InFile(env, j) {
        BatchActs(env, job, s, j);
      }
    case Send(j) =>
      ReachedIsSafe(cfg, s.q);
      if CanSend(s.run, s.q, j) { SendCalls(cfg, s, j); }
    case Serve =>
    case Commit(n) =>
      if n <= |s.run.batch| { CommitAllOk(env, job, s.q.obj.issued, s.run.db, s.run.batch[..n]); }
  }

  // ----- a chunk that is on record is not written -----

  /** Worker k's chunk is in the database, and k has not set out to write it. */
  ghost predicate Spared(env: Env, job: Job, s: Live, k: nat) {
    && job.InFile(env, k) && k < |s.run.workers| && k < |s.q.producers|
    && K.ChonkKey(job.HashOf(env, k)) in s.run.db
    && s.q.producers[k].Start? && (s.run.workers[k].Ping? || s.run.workers[k].Recorded())
  }

  /** Worker k's relation is in the database, and k is not about to set it. */
  ghost predicate Linked(env: Env, job: Job, s: Live, k: nat) {
    && k < |s.run.workers| && K.RelationKey(job.fhash, k * env.chunk) in s.run.db
    && (s.run.workers[k].PingRel? || s.run.workers[k].Related())
  }

  ghost predicate Keeps(env: Env, job: Job, s: Live, t: Live, k: nat) {
    && (Spared(env, job, s, k) ==> Spared(env, job, t, k))
    && (Linked(env, job, s, k) ==> Linked(env, job, t, k))
  }

  lemma MovesKeep(env: Env, job: Job, s: Live, t: Live, e: Event, k: nat)
    requires Moves(env, job, s, t, e)
    ensures Keeps(env, job, s, t, k)
  {}

  lemma TakeKeeps(env: Env, job: Job, cfg: CC.Writer, weather: Weather, s: Live, e: Event, k: nat)
    requires InOrder(env, job, cfg, s) && Take(env, job, cfg, weather, s, e).Some?
    ensures Keeps(env, job, s, Take(env, job, cfg, weather, s, e).value, k)
  {
    TakeMoves(env, job, cfg, weather, s, e);
    MovesKeep(env, job, s, Take(env, job, cfg, weather, s, e).value, e, k);
  }

  ghost predicate KeepsSpared(env: Env, job: Job, cfg: CC.Writer, take: Taking, k: nat) {
    forall s, e | InOrder(env, job, cfg, s) && take(s, e).Some? :: Keeps(env, job, s, take(s, e).value, k)
  }

  lemma {:induction false} RunsKeep(env: Env, job: Job, cfg: CC.Writer, weather: Weather, take: Taking,
                                    s: Live, events: seq<Event>, k: nat)
    requires KeepsOrder(env, job, cfg, weather, take) && KeepsSpared(env, job, cfg, take, k)
    requires InOrder(env, job, cfg, s) && Plays(take, s, events).Some?
    ensures Keeps(env, job, s, Plays(take, s, events).value, k)
  {
    if events != [] {
      var before := events[..|events| - 1];
      RunsKeep(env, job, cfg, weather, take, s, before, k);
      RunsKeepOrder(env, job, cfg, weather, take, s, before);
    }
  }

  /** A worker that pings while its chunk's key is in the database never writes the
      chunk: in every later state it has made no call of the manager, its request
      is not in the queue and has never been, and it is at no action that records
      a location. */
  lemma StoredChunkIsNotWritten(env: Env, job: Job, cfg: CC.Writer, weather: Weather, s: Live, events: seq<Event>,
                                t: Live, k: nat)
    requires env.Assumed() && job.Assumed(env) && InOrder(env, job, cfg, s)
    requires k < |s.run.workers| && s.run.workers[k].Ping?
    requires job.InFile(env, k) && K.ChonkKey(job.HashOf(env, k)) in s.run.db
    requires Plays(Taker(env, job, cfg, weather), s, events) == Some(t)
    ensures Spared(env, job, t, k) && k !in t.q.sent
  {
    var take := Taker(env, job, cfg, weather);
    TakerKeepsOrder(env, job, cfg, weather);
    forall u, e | InOrder(env, job, cfg, u) && take(u, e).Some? ensures Keeps(env, job, u, take(u, e).value, k) {
      TakeKeeps(env, job, cfg, weather, u, e, k);
    }
    assert InPhase(s.run.workers[k], s.q.producers[k]);
    RunsKeep(env, job, cfg, weather, take, s, events, k);
    RunsKeepOrder(env, job, cfg, weather, take, s, events);
    ReachedIsSafe(cfg, t.q);
    forall i | 0 <= i < |t.q.sent| ensures t.q.sent[i] != k { assert Q.PlaceOk(t.q, i); }
  }

  /** Nor is a relation set again that is in the database when its worker pings. */
  lemma StoredRelationIsNotSet(env: Env, job: Job, cfg: CC.Writer, weather: Weather, s: Live, events: seq<Event>,
                               t: Live, k: nat)
    requires env.Assumed() && job.Assumed(env) && InOrder(env, job, cfg, s)
    requires k < |s.run.workers| && s.run.workers[k].PingRel?
    requires K.RelationKey(job.fhash, k * env.chunk) in s.run.db
    requires Plays(Taker(env, job, cfg, weather), s, events) == Some(t)
    ensures Linked(env, job, t, k) && !t.run.workers[k].SetRel?
  {
    var take := Taker(env, job, cfg, weather);
    TakerKeepsOrder(env, job, cfg, weather);
    forall u, e | InOrder(env, job, cfg, u) && take(u, e).Some? ensures Keeps(env, job, u, take(u, e).value, k) {
      TakeKeeps(env, job, cfg, weather, u, e, k);
    }
    RunsKeep(env, job, cfg, weather, take, s, events, k);
  }

  // ----- one ticket per chunk -----

  /** Worker k has set out to write its chunk. */
  predicate SetOut(s: Live, k: nat) {
    k < |s.run.workers| && k < |s.q.producers| &&
    (s.run.workers[k].Write? || s.run.workers[k].Record? || !s.q.producers[k].Start?)
  }

  predicate SameChunk(env: Env, job: Job, i: nat, k: nat) {
    job.InFile(env, i) && job.InFile(env, k) && job.HashOf(env, i) == job.HashOf(env, k)
  }

  /** No two workers of one chunk have set out to write it. */
  ghost predicate OneEach(env: Env, job: Job, s: Live) {
    forall i: nat, k: nat | i != k && SameChunk(env, job, i, k) && SetOut(s, i) :: !SetOut(s, k)
  }

  /** A ping finds what other workers have written of the same chunk: it is committed by then. */
  ghost predicate PingsInTime(env: Env, job: Job, s: Live, e: Event) {
    e.Act? && e.k < |s.run.workers| && s.run.workers[e.k].Ping? ==>
      forall i: nat | i != e.k && SameChunk(env, job, i, e.k) && SetOut(s, i) ::
        K.ChonkKey(job.HashOf(env, e.k)) in s.run.db
  }

  /** Every ping of the run does. */
  ghost predicate InTime(env: Env, job: Job, take: Taking, start: Live, events: seq<Event>) {
    forall n | 0 <= n < |events| ::
      match Plays(take, start, events[..n])
      case Some(s) => PingsInTime(env, job, s, events[n])
      case None => true
  }

  lemma SetsOutByPing(env: Env, job: Job, s: Live, t: Live, e: Event, k: nat)
    requires Moves(env, job, s, t, e) && Phases(s.run.workers, s.q) && !SetOut(s, k) && SetOut(t, k)
    ensures e == Act(k) && k < |s.run.workers| && s.run.workers[k].Ping?
    ensures job.InFile(env, k) && K.ChonkKey(job.HashOf(env, k)) !in s.run.db
  {
    if k < |s.run.workers| { assert InPhase(s.run.workers[k], s.q.producers[k]); }
  }

  lemma StepKeepsOneEach(env: Env, job: Job, cfg: CC.Writer, weather: Weather, s: Live, e: Event)
    requires InOrder(env, job, cfg, s) && Take(env, job, cfg, weather, s, e).Some?
    requires OneEach(env, job, s) && PingsInTime(env, job, s, e)
    ensures OneEach(env, job, Take(env, job, cfg, weather, s, e).value)
  {
    var t := Take(env, job, cfg, weather, s, e).value;
    TakeMoves(env, job, cfg, weather, s, e);
    forall i: nat, k: nat | i != k && SameChunk(env, job, i, k) && SetOut(t, i) && SetOut(t, k) ensures false {
      if !SetOut(s, i) { SetsOutByPing(env, job, s, t, e, i); }
      if !SetOut(s, k) { SetsOutByPing(env, job, s, t, e, k); }
      assert SameChunk(env, job, k, i);
    }
  }

  ghost predicate KeepsOneEach(env: Env, job: Job, cfg: CC.Writer, take: Taking) {
    forall s, e | InOrder(env, job, cfg, s) && take(s, e).Some?
                  && OneEach(env, job, s) && PingsInTime(env, job, s, e) ::
      OneEach(env, job, take(s, e).value)
  }

  lemma {:induction false} RunsKeepOneEach(env: Env, job: Job, cfg: CC.Writer, weather: Weather, take: Taking,
                                           start: Live, events: seq<Event>)
    requires KeepsOrder(env, job, cfg, weather, take) && KeepsOneEach(env, job, cfg, take)
    requires InOrder(env, job, cfg, start) && OneEach(env, job, start) && InTime(env, job, take, start, events)
    requires Plays(take, start, events).Some?
    ensures OneEach(env, job, Plays(take, start, events).value)
  {
    if events != [] {
      var before := events[..|events| - 1];
      forall n | 0 <= n < |before| ensures before[..n] == events[..n] && before[n] == events[n] {}
      assert InTime(env, job, take, start, before);
      RunsKeepOneEach(env, job, cfg, weather, take, start, before);
      RunsKeepOrder(env, job, cfg, weather, take, start, before);
    }
  }

  lemma QueuedHaveSetOut(env: Env, job: Job, cfg: CC.Writer, s: Live, i: nat)
    requires InOrder(env, job, cfg, s) && i < |s.q.sent|
    ensures s.q.sent[i] < |cfg.reqs| && SetOut(s, s.q.sent[i])
    ensures job.InFile(env, s.q.sent[i]) && cfg.reqs[s.q.sent[i]].data == job.ChunkOf(env, s.q.sent[i])
  {
    ReachedIsSafe(cfg, s.q);
    assert Q.PlaceOk(s.q, i);
  }

  lemma OneEachMeansApart(env: Env, job: Job, cfg: CC.Writer, s: Live)
    requires InOrder(env, job, cfg, s) && OneEach(env, job, s)
    ensures CC.TicketsApart(s.q.obj.issued, env.hash)
  {
    var steps :| Q.IsRun(cfg, Q.Initial(cfg, 1), steps, s.q);
    Q.RunsRefineTheObject(cfg, 1, steps, s.q);
    CC.RunsAreBacked(env.containers, cfg, 1, steps, s.q);
    var n := |s.q.answers|;
    forall i, j | 0 <= i < j < n
      ensures env.hash(cfg.reqs[s.q.sent[i]].data) != env.hash(cfg.reqs[s.q.sent[j]].data)
    {
      QueuedHaveSetOut(env, job, cfg, s, i);
      QueuedHaveSetOut(env, job, cfg, s, j);
      assert s.q.sent[i] != s.q.sent[j];
      assert !SameChunk(env, job, s.q.sent[i], s.q.sent[j]);
    }
    CC.TicketsComeFromJobs(env.containers, cfg, s.q.sent, n, env.hash);
  }

  /** So each chunk is written once: when every ping comes after the commit of what
      other workers have written of the same chunk, no two tickets of the store are
      for chunks of one hash. */
  lemma EachChunkOnce(env: Env, job: Job, cfg: CC.Writer, weather: Weather, start: Live, events: seq<Event>, t: Live)
    requires env.Assumed() && job.Assumed(env) && job.ChunksUpTo(env, env.containers.limit)
    requires IsStart(env, job, weather, cfg, start)
    requires InTime(env, job, Taker(env, job, cfg, weather), start, events)
    requires Plays(Taker(env, job, cfg, weather), start, events) == Some(t)
    ensures CC.TicketsApart(t.q.obj.issued, env.hash)
  {
    var take := Taker(env, job, cfg, weather);
    StartIsInOrder(env, job, weather, cfg, start);
    TakerKeepsOrder(env, job, cfg, weather);
    forall s, e | InOrder(env, job, cfg, s) && take(s, e).Some? && OneEach(env, job, s) && PingsInTime(env, job, s, e)
      ensures OneEach(env, job, take(s, e).value)
    {
      StepKeepsOneEach(env, job, cfg, weather, s, e);
    }
    RunsKeepOneEach(env, job, cfg, weather, take, start, events);
    RunsKeepOrder(env, job, cfg, weather, take, start, events);
    OneEachMeansApart(env, job, cfg, t);
  }

  // ----- with the block index nothing is spared -----

  /** Every worker past its write has made the call and been answered with a location. */
  ghost predicate NoneSkipped(s: Live) {
    |s.q.producers| == |s.run.workers| &&
    forall k | 0 <= k < |s.run.workers| && (s.run.workers[k].Record? || s.run.workers[k].Recorded()) ::
      s.q.producers[k].Served? && s.q.producers[k].resp.Written?
  }

  lemma MovesSkipNone(env: Env, job: Job, s: Live, t: Live, e: Event)
    requires Moves(env, job, s, t, e) && NoneSkipped(s)
    requires forall k: nat | job.InFile(env, k) :: K.ChonkKey(job.HashOf(env, k)) !in s.run.db
    ensures NoneSkipped(t)
  {}

  lemma StepSkipsNone(env: Env, job: Job, cfg: CC.Writer, weather: Weather, s: Live, e: Event)
    requires env.hierarchical && InOrder(env, job, cfg, s) && NoneSkipped(s)
    requires Take(env, job, cfg, weather, s, e).Some?
    ensures NoneSkipped(Take(env, job, cfg, weather, s, e).value)
  {
    TakeMoves(env, job, cfg, weather, s, e);
    forall k: nat | job.InFile(env, k) ensures K.ChonkKey(job.HashOf(env, k)) !in s.run.db {
      NoChunkKeysInHierarchicalMode(env, job, s.q.obj.issued, s.run.db, job.HashOf(env, k));
    }
    MovesSkipNone(env, job, s, Take(env, job, cfg, weather, s, e).value, e);
  }

  ghost predicate SkipsNone(env: Env, job: Job, cfg: CC.Writer, take: Taking) {
    forall s, e | InOrder(env, job, cfg, s) && NoneSkipped(s) && take(s, e).Some? :: NoneSkipped(take(s, e).value)
  }

  lemma {:induction false} RunsSkipNone(env: Env, job: Job, cfg: CC.Writer, weather: Weather, take: Taking,
                                        start: Live, events: seq<Event>)
    requires KeepsOrder(env, job, cfg, weather, take) && SkipsNone(env, job, cfg, take)
    requires InOrder(env, job, cfg, start) && NoneSkipped(start) && Plays(take, start, events).Some?
    ensures NoneSkipped(Plays(take, start, events).value)
  {
    if events != [] {
      RunsSkipNone(env, job, cfg, weather, take, start, events[..|events| - 1]);
      RunsKeepOrder(env, job, cfg, weather, take, start, events[..|events| - 1]);
    }
  }

  lemma ServedIsQueued(cfg: CC.Writer, q: Queue, k: nat)
    requires Q.Inv(cfg, q) && k < |q.producers| && q.producers[k].Served?
    ensures k in q.sent
  {
    assert Q.ProducerOk(q, k);
  }

  /** In hierarchical mode the pings look for chunk keys that no store ever sets:
      every worker that is done has written its chunk, whatever was written before. */
  lemma IndexedStoreWritesEvery(env: Env, job: Job, cfg: CC.Writer, weather: Weather, start: Live,
                                events: seq<Event>, t: Live, k: nat)
    requires env.Assumed() && job.Assumed(env) && job.ChunksUpTo(env, env.containers.limit) && env.hierarchical
    requires IsStart(env, job, weather, cfg, start)
    requires Plays(Taker(env, job, cfg, weather), start, events) == Some(t)
    requires k < |t.run.workers| && t.run.workers[k].Done?
    ensures k in t.q.sent && k < |t.q.producers| && t.q.producers[k].Served? && t.q.producers[k].resp.Written?
  {
    var take := Taker(env, job, cfg, weather);
    StartIsInOrder(env, job, weather, cfg, start);
    TakerKeepsOrder(env, job, cfg, weather);
    forall s, e | InOrder(env, job, cfg, s) && NoneSkipped(s) && take(s, e).Some?
      ensures NoneSkipped(take(s, e).value)
    {
      StepSkipsNone(env, job, cfg, weather, s, e);
    }
    RunsSkipNone(env, job, cfg, weather, take, start, events);
    RunsKeepOrder(env, job, cfg, weather, take, start, events);
    ReachedIsSafe(cfg, t.q);
    ServedIsQueued(cfg, t.q, k);
  }
}
