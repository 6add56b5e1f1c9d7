/** The store's workers under the dispatcher that launches and collects them
    (lib/store/store.go): the two step machines together. */
module StorePool {
  import opened Basics
  import opened StorePipeline
  import opened StoreProtocol
  import CC = ConcurrentContainers
  import P = WorkerPool
  import R = ContainerRuns

  /** The dispatcher with its channel, and everything the workers do. */
  datatype Joint = Joint(pool: P.Pool, live: Live)

  /** A step of the pool, or a decision of the store. */
  datatype Turn = Dispatch(step: P.Step) | Work(e: Event)

  function PoolOf(env: Env, job: Job, max: nat): P.Config {
    P.Config(0, |job.evidence|, env.chunk, max)
  }

  function Start(pool: P.Config, live: Live): Joint {
    Joint(P.Initial(pool), live)
  }

  predicate Running(pool: P.Pool, k: nat) {
    k < |pool.workers| && pool.workers[k].Running?
  }

  predicate ReportedWell(pool: P.Pool, k: nat) {
    k < |pool.workers| && (pool.workers[k] == P.Reported(true) || pool.workers[k] == P.Collected(true))
  }

  predicate IsDone(run: Run, k: nat) {
    k < |run.workers| && run.workers[k].Done?
  }

  /** Only a running worker acts or sends, and it reports success only when done.
      It may report an error at any time. */
  predicate Enabled(pool: P.Config, take: Taking, s: Joint, turn: Turn) {
    match turn
    case Dispatch(step) =>
      P.Enabled(pool, s.pool, step) && (step.Report? && step.ok ==> IsDone(s.live.run, step.k))
    case Work(e) =>
      take(s.live, e).Some? && (e.Act? || e.Send? ==> Running(s.pool, e.k))
  }

  function Apply(pool: P.Config, take: Taking, s: Joint, turn: Turn): Joint
    requires Enabled(pool, take, s, turn)
  {
    match turn
    case Dispatch(step) => s.(pool := P.Apply(pool, s.pool, step))
    case Work(e) => s.(live := take(s.live, e).value)
  }

  /** The state after a sequence of turns. None if one of them was not enabled. */
  function Turns(pool: P.Config, take: Taking, start: Joint, turns: seq<Turn>): Option<Joint> {
    if turns == [] then Some(start)
    else
      match Turns(pool, take, start, turns[..|turns| - 1])
      case None => None
      case Some(s) =>
        var turn := turns[|turns| - 1];
        if Enabled(pool, take, s, turn) then Some(Apply(pool, take, s, turn)) else None
  }

  /** The decisions of the store among the turns. */
  function Events(turns: seq<Turn>): seq<Event> {
    if turns == [] then []
    else
      Events(turns[..|turns| - 1]) + match turns[|turns| - 1] case Work(e) => [e] case Dispatch(_) => []
  }

  /** A decision changes the state of no worker but its own, and none that is done. */
  ghost predicate IsLocal(take: Taking) {
    forall s, e | take(s, e).Some? ::
      && |take(s, e).value.run.workers| == |s.run.workers|
      && forall i: nat | i < |s.run.workers| && (s.run.workers[i].Done? || !((e.Act? || e.Send?) && e.k == i)) ::
           take(s, e).value.run.workers[i] == s.run.workers[i]
  }

  lemma TakerIsLocal(env: Env, job: Job, cfg: CC.Writer, weather: Weather)
    ensures IsLocal(Taker(env, job, cfg, weather))
  {}

  /** The pool is in order, workers that have not been launched have done nothing,
      and those that reported success are done. */
  ghost predicate JointOk(env: Env, job: Job, pool: P.Config, s: Joint) {
    && P.Inv(pool, s.pool) && |s.pool.workers| <= |s.live.run.workers|
    && (forall k: nat :: k < |s.live.run.workers| <==> job.InFile(env, k))
    && (forall k: nat | ReportedWell(s.pool, k) :: IsDone(s.live.run, k))
    && (forall k: nat | |s.pool.workers| <= k < |s.live.run.workers| :: s.live.run.workers[k].Ping?)
  }

  lemma DispatchKeepsOk(env: Env, job: Job, max: nat, take: Taking, s: Joint, step: P.Step)
    requires JointOk(env, job, PoolOf(env, job, max), s)
    requires Enabled(PoolOf(env, job, max), take, s, Dispatch(step))
    ensures JointOk(env, job, PoolOf(env, job, max), Apply(PoolOf(env, job, max), take, s, Dispatch(step)))
  {
    var pool := PoolOf(env, job, max);
    P.StepKeepsInv(pool, s.pool, step);
    var t := P.Apply(pool, s.pool, step);
    if step.Launch? { assert job.InFile(env, |s.pool.workers|); }
    forall k: nat | ReportedWell(t, k) ensures IsDone(s.live.run, k) {
      assert ReportedWell(s.pool, k) || step == P.Report(k, true);
    }
  }

  lemma WorkKeepsOk(env: Env, job: Job, pool: P.Config, take: Taking, s: Joint, e: Event)
    requires IsLocal(take) && JointOk(env, job, pool, s) && Enabled(pool, take, s, Work(e))
    ensures JointOk(env, job, pool, Apply(pool, take, s, Work(e)))
  {
    var t := take(s.live, e).value;
    forall k: nat | ReportedWell(s.pool, k) ensures IsDone(t.run, k) {
      assert IsDone(s.live.run, k);
    }
  }

  lemma {:induction false} TurnsKeepOk(env: Env, job: Job, max: nat, take: Taking, start: Joint, turns: seq<Turn>)
    requires IsLocal(take) && JointOk(env, job, PoolOf(env, job, max), start)
    ensures var t := Turns(PoolOf(env, job, max), take, start, turns);
            t.Some? ==> JointOk(env, job, PoolOf(env, job, max), t.value)
                        && Plays(take, start.live, Events(turns)) == Some(t.value.live)
  {
    var pool := PoolOf(env, job, max);
    if turns == [] {
    } else {
      var before, turn := turns[..|turns| - 1], turns[|turns| - 1];
      TurnsKeepOk(env, job, max, take, start, before);
      if Turns(pool, take, start, turns).Some? {
        var s := Turns(pool, take, start, before).value;
        match turn
        case Dispatch(step) =>
          DispatchKeepsOk(env, job, max, take, s, step);
          assert Events(turns) == Events(before);
        case Work(e) =>
          WorkKeepsOk(env, job, pool, take, s, e);
          PlaysSnoc(take, start.live, Events(before), s.live, e);
      }
    }
  }

  /** The batch is flushed only when every worker of the file is done. */
  lemma FlushedMeansDone(env: Env, job: Job, max: nat, s: Joint)
    requires JointOk(env, job, PoolOf(env, job, max), s) && s.pool.phase.Flushed?
    ensures AllDone(s.live.run)
  {
    P.SomeCounted(s.pool.workers);
    assert !job.InFile(env, |s.pool.workers|);
    forall k | 0 <= k < |s.live.run.workers| ensures s.live.run.workers[k].Done? {
      assert ReportedWell(s.pool, k);
    }
  }

  predicate AtWork(w: Worker) {
    !w.Ping? && !w.Done?
  }

  function CountAtWork(workers: seq<Worker>, n: nat): nat
    requires n <= |workers|
  {
    if n == 0 then 0 else CountAtWork(workers, n - 1) + if AtWork(workers[n - 1]) then 1 else 0
  }

  lemma {:induction false} AtWorkIsUnaccounted(env: Env, job: Job, pool: P.Config, s: Joint, n: nat)
    requires JointOk(env, job, pool, s) && !s.pool.phase.Failed? && n <= |s.pool.workers|
    ensures CountAtWork(s.live.run.workers, n) <=
            P.CountRunning(s.pool.workers[..n]) + P.CountReported(s.pool.workers[..n])
  {
    if n != 0 {
      AtWorkIsUnaccounted(env, job, pool, s, n - 1);
      assert s.pool.workers[..n][..n - 1] == s.pool.workers[..n - 1];
      assert s.pool.workers[n - 1].Collected? ==> ReportedWell(s.pool, n - 1);
      assert ReportedWell(s.pool, n - 1) ==> IsDone(s.live.run, n - 1);
    }
  }

  lemma {:induction false} UnlaunchedAreIdle(env: Env, job: Job, pool: P.Config, s: Joint, n: nat)
    requires JointOk(env, job, pool, s) && |s.pool.workers| <= n <= |s.live.run.workers|
    ensures CountAtWork(s.live.run.workers, n) == CountAtWork(s.live.run.workers, |s.pool.workers|)
  {
    if n > |s.pool.workers| { UnlaunchedAreIdle(env, job, pool, s, n - 1); }
  }

  /** Before an error, no more than max + 1 workers have begun and are not done. */
  lemma FewAtWork(env: Env, job: Job, pool: P.Config, s: Joint)
    requires JointOk(env, job, pool, s) && !s.pool.phase.Failed?
    ensures CountAtWork(s.live.run.workers, |s.live.run.workers|) <= pool.max + 1
  {
    AtWorkIsUnaccounted(env, job, pool, s, |s.pool.workers|);
    UnlaunchedAreIdle(env, job, pool, s, |s.live.run.workers|);
    assert s.pool.workers[..|s.pool.workers|] == s.pool.workers;
    P.Unaccounted(pool, s.pool);
  }

  /** The whole store: in every interleaving of dispatcher, workers, queue, writer
      and commits, at most max + 1 workers are at work until one fails; the batch
      is flushed only when all are done; the store succeeds exactly when neither of
      the closes that follow meets an error; and then the file is delivered and the
      directory holds the compressed containers alone. */
  lemma EveryStoreDelivers(env: Env, job: Job, cfg: CC.Writer, weather: Weather, start: Live, max: nat,
                           turns: seq<Turn>, t: Joint)
    requires env.Assumed() && job.Assumed(env) && job.ChunksUpTo(env, env.containers.limit) && max > 0
    requires IsStart(env, job, weather, cfg, start)
    requires var pool := PoolOf(env, job, max);
             Turns(pool, Taker(env, job, cfg, weather), Start(pool, start), turns) == Some(t)
    ensures !t.pool.phase.Failed? ==> CountAtWork(t.live.run.workers, |t.live.run.workers|) <= max + 1
    ensures t.pool.phase.Flushed? ==> AllDone(t.live.run)
    ensures t.pool.phase.Flushed? ==> (Outcome(env, weather, t.live).Some? <==> ClosesWell(env, job, weather, t.live))
    ensures t.pool.phase.Flushed? && Outcome(env, weather, t.live).Some? ==>
              var stored := Outcome(env, weather, t.live).value;
              Delivered(env, job, stored) && R.OnlyCompressed(env.containers, stored.files, t.live.q.obj.ids, {})
  {
    var pool, take := PoolOf(env, job, max), Taker(env, job, cfg, weather);
    TakerIsLocal(env, job, cfg, weather);
    TurnsKeepOk(env, job, max, take, Start(pool, start), turns);
    if !t.pool.phase.Failed? { FewAtWork(env, job, pool, t); }
    if t.pool.phase.Flushed? {
      FlushedMeansDone(env, job, max, t);
      EveryRunDelivers(env, job, cfg, weather, start, Events(turns), t.live, [], t.live.q);
    }
  }

  // ----- a store in which nothing fails comes to its flush -----

  /** No worker has reported an error. */
  predicate AllWell(pool: P.Pool) {
    && !pool.phase.Failed?
    && forall k | 0 <= k < |pool.workers| ::
         pool.workers[k] != P.Reported(false) && pool.workers[k] != P.Collected(false)
  }

  function Remaining(pool: P.Config, s: Joint): int {
    P.Measure(pool, s.pool) + LeftToDo(s.live)
  }

  /** A running worker that is not done has a decision that gets the store further. */
  lemma WorkGoesOn(env: Env, job: Job, cfg: CC.Writer, weather: Weather, max: nat, s: Joint, k: nat)
    requires env.Assumed() && job.Assumed(env) && InOrder(env, job, cfg, s.live)
    requires Calm(env, weather) && R.NoFaultsIn(env.containers, cfg.reqs)
    requires Running(s.pool, k) && k < |s.live.run.workers| && !IsDone(s.live.run, k)
    ensures var pool, take := PoolOf(env, job, max), Taker(env, job, cfg, weather);
            var turn := Work(MoveFor(cfg, s.live.run, s.live.q, k));
            && Enabled(pool, take, s, turn) && Apply(pool, take, s, turn).pool == s.pool
            && Remaining(pool, Apply(pool, take, s, turn)) < Remaining(pool, s)
  {
    WorkerCanMove(env, job, cfg, weather, s.live, k);
    TakeKeepsOrder(env, job, cfg, weather, s.live, MoveFor(cfg, s.live.run, s.live.q, k));
  }

  lemma DispatchGoesOn(pool: P.Config, take: Taking, s: Joint, step: P.Step)
    requires P.Inv(pool, s.pool) && P.Enabled(pool, s.pool, step) && AllWell(s.pool)
    requires step.Report? ==> step.ok && IsDone(s.live.run, step.k)
    ensures Enabled(pool, take, s, Dispatch(step)) && AllWell(Apply(pool, take, s, Dispatch(step)).pool)
    ensures Remaining(pool, Apply(pool, take, s, Dispatch(step))) < Remaining(pool, s)
  {
    P.MeasureDecreases(pool, s.pool, step);
  }

  lemma NextTurn(env: Env, job: Job, cfg: CC.Writer, weather: Weather, max: nat, s: Joint) returns (turn: Turn)
    requires env.Assumed() && job.Assumed(env) && InOrder(env, job, cfg, s.live)
    requires Calm(env, weather) && R.NoFaultsIn(env.containers, cfg.reqs)
    requires JointOk(env, job, PoolOf(env, job, max), s) && AllWell(s.pool) && !s.pool.phase.Flushed?
    ensures var pool, take := PoolOf(env, job, max), Taker(env, job, cfg, weather);
            && Enabled(pool, take, s, turn) && AllWell(Apply(pool, take, s, turn).pool)
            && Remaining(pool, Apply(pool, take, s, turn)) < Remaining(pool, s)
  {
    var pool, take := PoolOf(env, job, max), Taker(env, job, cfg, weather);
    var step := P.Progress(pool, s.pool);
    if step.Report? && !IsDone(s.live.run, step.k) {
      WorkGoesOn(env, job, cfg, weather, max, s, step.k);
      turn := Work(MoveFor(cfg, s.live.run, s.live.q, step.k));
    } else {
      DispatchGoesOn(pool, take, s, step);
      turn := Dispatch(step);
    }
  }

  lemma TurnKeepsOk(env: Env, job: Job, cfg: CC.Writer, weather: Weather, max: nat, s: Joint, turn: Turn)
    requires env.Assumed() && job.Assumed(env) && InOrder(env, job, cfg, s.live)
    requires JointOk(env, job, PoolOf(env, job, max), s)
    requires Enabled(PoolOf(env, job, max), Taker(env, job, cfg, weather), s, turn)
    ensures var t := Apply(PoolOf(env, job, max), Taker(env, job, cfg, weather), s, turn);
            InOrder(env, job, cfg, t.live) && JointOk(env, job, PoolOf(env, job, max), t)
  {
    match turn
    case Dispatch(step) => DispatchKeepsOk(env, job, max, Taker(env, job, cfg, weather), s, step);
    case Work(e) =>
      TakerIsLocal(env, job, cfg, weather);
      WorkKeepsOk(env, job, PoolOf(env, job, max), Taker(env, job, cfg, weather), s, e);
      TakeKeepsOrder(env, job, cfg, weather, s.live, e);
  }

  lemma TurnsSnoc(pool: P.Config, take: Taking, start: Joint, turns: seq<Turn>, s: Joint, turn: Turn)
    requires Turns(pool, take, start, turns) == Some(s) && Enabled(pool, take, s, turn)
    ensures Turns(pool, take, start, turns + [turn]) == Some(Apply(pool, take, s, turn))
  {
    assert (turns + [turn])[..|turns|] == turns;
  }

  lemma RemainingIsNat(env: Env, job: Job, cfg: CC.Writer, pool: P.Config, s: Joint)
    requires InOrder(env, job, cfg, s.live)
    ensures Remaining(pool, s) >= 0
  {
    ReachedIsSafe(cfg, s.live.q);
  }

  /** When nothing fails the store always comes to its flush: any run in which no
      worker has reported an error goes on to one that has flushed the batch. */
  lemma {:induction false} CalmStoreFlushes(env: Env, job: Job, cfg: CC.Writer, weather: Weather, max: nat,
                                            start: Joint, turns: seq<Turn>, s: Joint)
    returns (all: seq<Turn>, t: Joint)
    requires env.Assumed() && job.Assumed(env) && InOrder(env, job, cfg, s.live)
    requires Calm(env, weather) && R.NoFaultsIn(env.containers, cfg.reqs)
    requires JointOk(env, job, PoolOf(env, job, max), s) && AllWell(s.pool)
    requires Turns(PoolOf(env, job, max), Taker(env, job, cfg, weather), start, turns) == Some(s)
    ensures turns <= all && t.pool.phase.Flushed?
    ensures Turns(PoolOf(env, job, max), Taker(env, job, cfg, weather), start, all) == Some(t)
    decreases Remaining(PoolOf(env, job, max), s)
  {
    if s.pool.phase.Flushed? { return turns, s; }
    var pool, take := PoolOf(env, job, max), Taker(env, job, cfg, weather);
    var turn := NextTurn(env, job, cfg, weather, max, s);
    var next := Apply(pool, take, s, turn);
    TurnKeepsOk(env, job, cfg, weather, max, s, turn);
    TurnsSnoc(pool, take, start, turns, s, turn);
    RemainingIsNat(env, job, cfg, pool, next);
    all, t := CalmStoreFlushes(env, job, cfg, weather, max, start, turns + [turn], next);
  }

  /** So a store in which nothing fails succeeds: from any state it reaches, with
      no error reported, it goes on to a flush, and then both closes succeed. */
  lemma CalmStoreSucceeds(env: Env, job: Job, cfg: CC.Writer, weather: Weather, start: Live, max: nat,
                          turns: seq<Turn>, s: Joint)
    returns (all: seq<Turn>, t: Joint)
    requires env.Assumed() && job.Assumed(env) && job.ChunksUpTo(env, env.containers.limit) && max > 0
    requires IsStart(env, job, weather, cfg, start) && Calm(env, weather) && AllWell(s.pool)
    requires var pool := PoolOf(env, job, max);
             Turns(pool, Taker(env, job, cfg, weather), Start(pool, start), turns) == Some(s)
    ensures turns <= all && t.pool.phase.Flushed?
    ensures var pool := PoolOf(env, job, max);
            Turns(pool, Taker(env, job, cfg, weather), Start(pool, start), all) == Some(t)
    ensures Outcome(env, weather, t.live).Some? && Delivered(env, job, Outcome(env, weather, t.live).value)
  {
    var pool, take := PoolOf(env, job, max), Taker(env, job, cfg, weather);
    StartIsInOrder(env, job, weather, cfg, start);
    TakerIsLocal(env, job, cfg, weather);
    TakerKeepsOrder(env, job, cfg, weather);
    TurnsKeepOk(env, job, max, take, Start(pool, start), turns);
    RunsKeepOrder(env, job, cfg, weather, take, start, Events(turns));
    all, t := CalmStoreFlushes(env, job, cfg, weather, max, Start(pool, start), turns, s);
    TurnsKeepOk(env, job, max, take, Start(pool, start), all);
    FlushedMeansDone(env, job, max, t);
    EveryRunDelivers(env, job, cfg, weather, start, Events(all), t.live, [], t.live.q);
  }
}
