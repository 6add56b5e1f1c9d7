/** The chunking loop and worker pool of storeEvidenceData (lib/store/store.go),
    as a step machine: the dispatcher launches a worker per chunk, throttles at
    max, collects one result each, and leaves at the first error. */
module WorkerPool {
  import opened Basics

  datatype Config = Config(start: nat, size: nat, chunk: nat, max: nat) {
    /** GetMaxThreadCount is at least one, and chunks are not empty. */
    predicate Ok() {
      chunk > 0 && max > 0
    }
  }

  /** A worker computes, then its result sits in the channel, then the dispatcher has it. */
  datatype Worker = Running | Reported(ok: bool) | Collected(ok: bool)

  datatype Phase = Launching | Throttling | Collecting | Flushed | Failed

  datatype Range = Range(lo: nat, hi: nat)

  datatype Pool = Pool(next: nat, ranges: seq<Range>, workers: seq<Worker>, active: int, phase: Phase)

  datatype Step = Launch | StopLaunching | Report(k: nat, ok: bool) | Receive(k: nat) | Flush

  function CountRunning(ws: seq<Worker>): nat {
    if ws == [] then 0 else CountRunning(ws[..|ws| - 1]) + if ws[|ws| - 1].Running? then 1 else 0
  }

  function CountReported(ws: seq<Worker>): nat {
    if ws == [] then 0 else CountReported(ws[..|ws| - 1]) + if ws[|ws| - 1].Reported? then 1 else 0
  }

  lemma {:induction false} CountsUpdate(ws: seq<Worker>, i: nat, w: Worker)
    requires i < |ws|
    ensures CountRunning(ws[i := w]) + (if ws[i].Running? then 1 else 0) ==
            CountRunning(ws) + (if w.Running? then 1 else 0)
    ensures CountReported(ws[i := w]) + (if ws[i].Reported? then 1 else 0) ==
            CountReported(ws) + (if w.Reported? then 1 else 0)
  {
    var n := |ws| - 1;
    if i == n {
      assert ws[i := w][..n] == ws[..n];
    } else {
      assert ws[i := w][..n] == ws[..n][i := w];
      CountsUpdate(ws[..n], i, w);
    }
  }

  lemma {:induction false} SomeCounted(ws: seq<Worker>)
    ensures CountRunning(ws) > 0 <==> exists k :: 0 <= k < |ws| && ws[k].Running?
    ensures CountReported(ws) > 0 <==> exists k :: 0 <= k < |ws| && ws[k].Reported?
  {
    if ws != [] {
      var n := |ws| - 1;
      SomeCounted(ws[..n]);
      assert forall k | 0 <= k < n :: ws[..n][k] == ws[k];
      assert ws[n] == ws[n];
    }
  }

  function Initial(cfg: Config): Pool {
    Pool(cfg.start, [], [], 0, Launching)
  }

  /** A worker can put its result into the channel while it holds fewer than max;
      the dispatcher waits for a result while throttling or collecting. */
  predicate Enabled(cfg: Config, s: Pool, step: Step) {
    match step
    case Launch => s.phase.Launching? && s.next < cfg.size
    case StopLaunching => s.phase.Launching? && s.next >= cfg.size
    case Report(k, _) => k < |s.workers| && s.workers[k].Running? && CountReported(s.workers) < cfg.max
    case Receive(k) =>
      && k < |s.workers| && s.workers[k].Reported?
      && (s.phase.Throttling? || (s.phase.Collecting? && s.active > 0))
    case Flush => s.phase.Collecting? && s.active == 0
  }

  function Apply(cfg: Config, s: Pool, step: Step): Pool
    requires Enabled(cfg, s, step)
  {
    match step
    case Launch =>
      var buffsize := if cfg.size - s.next <= cfg.chunk then cfg.size - s.next else cfg.chunk;
      Pool(s.next + cfg.chunk, s.ranges + [Range(s.next, s.next + buffsize)], s.workers + [Running], s.active + 1,
           if s.active + 1 > cfg.max then Throttling else Launching)
    case StopLaunching => s.(phase := Collecting)
    case Report(k, ok) => s.(workers := s.workers[k := Reported(ok)])
    case Receive(k) =>
      var t := s.(workers := s.workers[k := Collected(s.workers[k].ok)]);
      if !s.workers[k].ok then t.(phase := Failed)
      else t.(active := s.active - 1, phase := if s.phase.Throttling? then Launching else Collecting)
    case Flush => s.(phase := Flushed)
  }

  function RangeOf(cfg: Config, k: nat): Range {
    Range(cfg.start + k * cfg.chunk, Min(cfg.start + k * cfg.chunk + cfg.chunk, cfg.size))
  }

  /** Range k is the k-th chunk, and the loop index stands behind the last one. */
  ghost predicate RangesOk(cfg: Config, s: Pool) {
    && |s.ranges| == |s.workers|
    && s.next == cfg.start + |s.ranges| * cfg.chunk
    && (forall k: nat | k < |s.ranges| :: s.ranges[k] == RangeOf(cfg, k) && s.ranges[k].lo < cfg.size)
  }

  /** Unaccounted workers are those running or with a result in the channel. */
  ghost predicate BooksOk(cfg: Config, s: Pool) {
    && CountReported(s.workers) <= cfg.max
    && CountRunning(s.workers) + CountReported(s.workers) == (if s.phase.Failed? then s.active - 1 else s.active)
    && (match s.phase
        case Throttling => s.active == cfg.max + 1
        case Failed => 0 < s.active <= cfg.max + 1
        case Flushed => s.active == 0
        case _ => s.active <= cfg.max)
  }

  ghost predicate NoErrorYet(s: Pool) {
    !s.phase.Failed? ==> forall k: nat | k < |s.workers| && s.workers[k].Collected? :: s.workers[k].ok
  }

  ghost predicate Inv(cfg: Config, s: Pool) {
    && cfg.Ok() && RangesOk(cfg, s) && BooksOk(cfg, s) && NoErrorYet(s)
    && (s.phase.Collecting? || s.phase.Flushed? ==> s.next >= cfg.size)
  }

  lemma LaunchKeepsRanges(cfg: Config, s: Pool)
    requires cfg.Ok() && RangesOk(cfg, s) && Enabled(cfg, s, Launch)
    ensures RangesOk(cfg, Apply(cfg, s, Launch))
  {
    var t := Apply(cfg, s, Launch);
    var n := |s.ranges|;
    assert (n + 1) * cfg.chunk == n * cfg.chunk + cfg.chunk;
    assert t.ranges[n] == RangeOf(cfg, n);
    forall k: nat | k < |t.ranges| ensures t.ranges[k] == RangeOf(cfg, k) && t.ranges[k].lo < cfg.size {
      if k < n { assert s.ranges[k] == RangeOf(cfg, k); }
    }
  }

  lemma StepKeepsBooks(cfg: Config, s: Pool, step: Step)
    requires Inv(cfg, s) && Enabled(cfg, s, step)
    ensures BooksOk(cfg, Apply(cfg, s, step))
  {
    match step
    case Launch => assert (s.workers + [Running])[..|s.workers|] == s.workers;
    case Report(k, ok) => CountsUpdate(s.workers, k, Reported(ok));
    case Receive(k) => CountsUpdate(s.workers, k, Collected(s.workers[k].ok));
    case _ =>
  }

  lemma StepKeepsInv(cfg: Config, s: Pool, step: Step)
    requires Inv(cfg, s) && Enabled(cfg, s, step)
    ensures Inv(cfg, Apply(cfg, s, step))
  {
    StepKeepsBooks(cfg, s, step);
    if step.Launch? { LaunchKeepsRanges(cfg, s); }
  }

  /** At most max + 1 workers are ever unaccounted for; after an early return at
      most max results are outstanding. */
  lemma Unaccounted(cfg: Config, s: Pool)
    requires Inv(cfg, s)
    ensures CountRunning(s.workers) + CountReported(s.workers) <= cfg.max + 1
    ensures s.phase.Failed? ==> CountRunning(s.workers) + CountReported(s.workers) <= cfg.max
  {}

  /** So no worker is left blocked on its send once the dispatcher has gone. */
  lemma AbandonedWorkersFinish(cfg: Config, s: Pool, k: nat, ok: bool)
    requires Inv(cfg, s) && (s.phase.Failed? || s.phase.Flushed?)
    requires k < |s.workers| && s.workers[k].Running?
    ensures Enabled(cfg, s, Report(k, ok))
  {
    SomeCounted(s.workers);
  }

  /** Deadlock freedom: until the dispatcher has returned, it or a worker can
      move; afterwards every running worker can. */
  lemma Progress(cfg: Config, s: Pool) returns (step: Step)
    requires Inv(cfg, s) && (!(s.phase.Failed? || s.phase.Flushed?) || CountRunning(s.workers) > 0)
    ensures Enabled(cfg, s, step) && (step.Report? ==> step.ok)
  {
    SomeCounted(s.workers);
    if s.phase.Launching? {
      return if s.next < cfg.size then Launch else StopLaunching;
    }
    if s.phase.Collecting? && s.active == 0 { return Flush; }
    if (s.phase.Throttling? || s.phase.Collecting?) && CountReported(s.workers) > 0 {
      var k :| 0 <= k < |s.workers| && s.workers[k].Reported?;
      return Receive(k);
    }
    var k :| 0 <= k < |s.workers| && s.workers[k].Running?;
    return Report(k, true);
  }

  lemma DivideOffset(x: nat, chunk: nat) returns (k: nat)
    requires chunk > 0
    ensures k * chunk <= x < k * chunk + chunk
  {
    k := x / chunk;
  }

  lemma DistinctMultiples(i: nat, j: nat, chunk: nat)
    requires i < j
    ensures i * chunk + chunk <= j * chunk
  {
    assert j * chunk == (i + 1) * chunk + (j - i - 1) * chunk;
    assert (i + 1) * chunk == i * chunk + chunk;
  }

  /** A worker that reported success had this offset in its range. */
  ghost predicate Stored(s: Pool, x: int) {
    exists k: nat :: k < |s.ranges| && k < |s.workers| && s.ranges[k].lo <= x < s.ranges[k].hi
                     && s.workers[k] == Collected(true)
  }

  ghost predicate Apart(s: Pool) {
    forall i: nat, j: nat | i < j < |s.ranges| :: s.ranges[i].hi <= s.ranges[j].lo
  }

  lemma FlushedRangesApart(cfg: Config, s: Pool)
    requires Inv(cfg, s)
    ensures Apart(s)
  {
    forall i: nat, j: nat | i < j < |s.ranges| ensures s.ranges[i].hi <= s.ranges[j].lo {
      DistinctMultiples(i, j, cfg.chunk);
      assert s.ranges[i] == RangeOf(cfg, i) && s.ranges[j] == RangeOf(cfg, j);
    }
  }

  /** A successful store: every byte offset lies in the range of exactly one
      launched worker, and every worker reported success. */
  lemma FlushedMeansCovered(cfg: Config, s: Pool, x: nat)
    requires Inv(cfg, s) && s.phase.Flushed? && cfg.start <= x < cfg.size
    ensures Stored(s, x) && Apart(s)
  {
    FlushedRangesApart(cfg, s);
    var k := DivideOffset(x - cfg.start, cfg.chunk);
    if k >= |s.ranges| && |s.ranges| < k { DistinctMultiples(|s.ranges|, k, cfg.chunk); }
    assert k < |s.ranges|;
    assert s.ranges[k] == RangeOf(cfg, k);
    SomeCounted(s.workers);
    assert s.workers[k] == Collected(true);
  }

  // ----- whole runs -----

  function PhaseRank(p: Phase): nat {
    match p
    case Launching => 2
    case Throttling => 2
    case Collecting => 1
    case _ => 0
  }

  function Measure(cfg: Config, s: Pool): nat {
    (if s.next < cfg.size then 3 * (cfg.size - s.next) else 0)
    + 2 * CountRunning(s.workers) + CountReported(s.workers) + PhaseRank(s.phase)
  }

  lemma MeasureDecreases(cfg: Config, s: Pool, step: Step)
    requires Inv(cfg, s) && Enabled(cfg, s, step)
    ensures Measure(cfg, Apply(cfg, s, step)) < Measure(cfg, s)
  {
    match step
    case Launch => assert (s.workers + [Running])[..|s.workers|] == s.workers;
    case Report(k, ok) => CountsUpdate(s.workers, k, Reported(ok));
    case Receive(k) => CountsUpdate(s.workers, k, Collected(s.workers[k].ok));
    case _ =>
  }

  ghost predicate IsRun(cfg: Config, s: Pool, steps: seq<Step>, t: Pool)
    decreases |steps|
  {
    if steps == [] then s == t
    else Enabled(cfg, s, steps[0]) && IsRun(cfg, Apply(cfg, s, steps[0]), steps[1..], t)
  }

  lemma {:induction false} RunsAreSafe(cfg: Config, s: Pool, steps: seq<Step>, t: Pool)
    requires Inv(cfg, s) && IsRun(cfg, s, steps, t)
    ensures Inv(cfg, t)
    ensures |steps| + Measure(cfg, t) <= Measure(cfg, s)
    decreases |steps|
  {
    if steps != [] {
      StepKeepsInv(cfg, s, steps[0]);
      MeasureDecreases(cfg, s, steps[0]);
      RunsAreSafe(cfg, Apply(cfg, s, steps[0]), steps[1..], t);
    }
  }

  /** From the start: every interleaving of dispatcher and workers is finite, stays
      within the books, gets stuck only when the dispatcher has returned and no
      worker is still running, and flushes only what covers the file exactly. */
  lemma PoolTheorem(cfg: Config, steps: seq<Step>, t: Pool)
    requires cfg.Ok() && cfg.start <= cfg.size && IsRun(cfg, Initial(cfg), steps, t)
    ensures |steps| <= 3 * (cfg.size - cfg.start) + 2
    ensures CountRunning(t.workers) + CountReported(t.workers) <= cfg.max + 1
    ensures (forall step :: !Enabled(cfg, t, step)) ==>
              (t.phase.Failed? || t.phase.Flushed?) && forall k | 0 <= k < |t.workers| :: !t.workers[k].Running?
    ensures t.phase.Flushed? ==> Apart(t) && forall x | cfg.start <= x < cfg.size :: Stored(t, x)
  {
    RunsAreSafe(cfg, Initial(cfg), steps, t);
    SomeCounted(t.workers);
    if !(t.phase.Failed? || t.phase.Flushed?) || CountRunning(t.workers) > 0 {
      var step := Progress(cfg, t);
    }
    if t.phase.Flushed? {
      FlushedRangesApart(cfg, t);
      forall x | cfg.start <= x < cfg.size ensures Stored(t, x) { FlushedMeansCovered(cfg, t, x); }
    }
  }
}
