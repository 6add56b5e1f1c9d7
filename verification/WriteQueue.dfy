/** The concurrent write path (lib/fio/container.go): N producers send through
    a bounded queue under a read lock, one writer drains the queue, and Close
    shuts it down once. Modelled as a step machine over any sequential object;
    every interleaving answers like the object run alone in queue order. */
module WriteQueue {
  import opened Basics

  const QUEUE_CAPACITY: nat := 1000

  /** The sequential object behind the writer (doWrite), and the producers' requests. */
  datatype Config<!S, !Req, !Resp> = Config(init: S, step: (S, Req) -> (S, Resp), reqs: seq<Req>)

  /** A WriteChunkToContainer call. Checking to Sent hold the read lock. From
      Sent on, place is the request's position among all that were ever queued. */
  datatype Producer<Resp> =
    | Start | Checking | Refusing | Refused | Sending
    | Sent(place: nat) | Waiting(place: nat) | Served(place: nat, resp: Resp)
  {
    predicate HoldsReadLock() {
      Checking? || Refusing? || Sending? || Sent?
    }

    predicate Accepted() {
      Sent? || Waiting? || Served?
    }

    predicate Over() {
      Refused? || Served?
    }
  }

  /** The writerLoop goroutine; the request in its hands is the last one taken off the queue. */
  datatype Writer = Receiving | Working | Replying | Exited

  function Rank<Resp>(p: Producer<Resp>): nat {
    match p
    case Start => 8
    case Checking => 7
    case Sending => 6
    case Refusing => 1
    case Sent(_) => 2
    case Waiting(_) => 1
    case _ => 0
  }

  /** The body of Close under closeOnce. */
  datatype Shutdown = Unused | Entered | LockWanted | Locked | FlagSet | QueueShut | Draining | Finishing | Spent {
    predicate WriteLocked() {
      Locked? || FlagSet? || QueueShut?
    }

    /** How far the body has come. */
    function Rank(): nat {
      match this
      case Unused => 0
      case Entered => 1
      case LockWanted => 2
      case Locked => 3
      case FlagSet => 4
      case QueueShut => 5
      case Draining => 6
      case Finishing => 7
      case Spent => 8
    }
  }

  /** A Close call: before the once, running its body, or returned. */
  datatype Closer = Calling | InBody | Returned

  /** The queue is the log of everything sent with the count already taken off;
      answers holds the responses computed so far, in that order. */
  datatype State<S, Resp> = State(
    producers: seq<Producer<Resp>>, replies: seq<Option<Resp>>,
    sent: seq<nat>, taken: nat, queueClosed: bool, closed: bool,
    writer: Writer, obj: S, answers: seq<Resp>,
    shutdown: Shutdown, runner: nat, closers: seq<Closer>, panicked: bool)
  {
    /** How many responses have been put into their callers' channels. */
    function Replied(): int {
      if writer.Replying? then |answers| - 1 else |answers|
    }

    predicate QueueEmpty() {
      taken >= |sent|
    }
  }

  datatype Step = ByProducer(p: nat) | ByWriter | ByShutdown | Call(c: nat) | Skip(c: nat)

  function Initial<S, Req, Resp>(cfg: Config<S, Req, Resp>, closers: nat): State<S, Resp> {
    State(seq(|cfg.reqs|, _ => Start), seq(|cfg.reqs|, _ => None), [], 0, false, false,
          Receiving, cfg.init, [], Unused, 0, seq(closers, _ => Calling), false)
  }

  /** May producer p take its next step? A wanted or held write lock keeps new
      readers out; a full queue blocks the sender, who keeps its read lock. */
  predicate ProducerCan<S, Resp>(s: State<S, Resp>, p: nat) {
    p < |s.producers| && p < |s.replies| &&
    match s.producers[p]
    case Start => !s.shutdown.LockWanted? && !s.shutdown.WriteLocked()
    case Sending => s.queueClosed || |s.sent| - s.taken < QUEUE_CAPACITY
    case Waiting(_) => s.replies[p].Some?
    case Refused => false
    case Served(_, _) => false
    case _ => true
  }

  function ProducerStep<S, Resp>(s: State<S, Resp>, p: nat): State<S, Resp>
    requires ProducerCan(s, p)
  {
    match s.producers[p]
    case Start => s.(producers := s.producers[p := Checking])
    case Checking => s.(producers := s.producers[p := if s.closed then Refusing else Sending])
    case Refusing => s.(producers := s.producers[p := Refused])
    case Sending =>
      s.(producers := s.producers[p := Sent(|s.sent|)], sent := s.sent + [p], panicked := s.panicked || s.queueClosed)
    case Sent(place) => s.(producers := s.producers[p := Waiting(place)])
    case Waiting(place) =>
      s.(producers := s.producers[p := Served(place, s.replies[p].value)], replies := s.replies[p := None])
    case _ => s
  }

  predicate WriterCan<S, Req, Resp>(cfg: Config<S, Req, Resp>, s: State<S, Resp>) {
    match s.writer
    case Receiving => !s.QueueEmpty() || s.queueClosed
    case Working => 0 < s.taken <= |s.sent| && s.sent[s.taken - 1] < |cfg.reqs|
    case Replying =>
      && s.answers != [] && 0 < s.taken <= |s.sent| && s.sent[s.taken - 1] < |s.replies|
      && s.replies[s.sent[s.taken - 1]].None?
    case Exited => false
  }

  function WriterStep<S, Req, Resp>(cfg: Config<S, Req, Resp>, s: State<S, Resp>): State<S, Resp>
    requires WriterCan(cfg, s)
  {
    match s.writer
    case Receiving => if s.QueueEmpty() then s.(writer := Exited) else s.(taken := s.taken + 1, writer := Working)
    case Working =>
      var (obj, resp) := cfg.step(s.obj, cfg.reqs[s.sent[s.taken - 1]]);
      s.(obj := obj, answers := s.answers + [resp], writer := Replying)
    case Replying =>
      s.(replies := s.replies[s.sent[s.taken - 1] := Some(s.answers[|s.answers| - 1])], writer := Receiving)
    case Exited => s
  }

  ghost predicate NoReaders<S, Resp>(s: State<S, Resp>) {
    forall p | 0 <= p < |s.producers| :: !s.producers[p].HoldsReadLock()
  }

  ghost predicate ShutdownCan<S, Resp>(s: State<S, Resp>) {
    match s.shutdown
    case Unused => false
    case LockWanted => NoReaders(s)
    case Draining => s.writer.Exited?
    case Finishing => s.runner < |s.closers|
    case Spent => false
    case _ => true
  }

  function ShutdownStep<S, Resp>(s: State<S, Resp>): State<S, Resp>
    requires s.shutdown.Finishing? ==> s.runner < |s.closers|
  {
    match s.shutdown
    case Entered => s.(shutdown := LockWanted)
    case LockWanted => s.(shutdown := Locked)
    case Locked => s.(shutdown := FlagSet, closed := true)
    case FlagSet => s.(shutdown := QueueShut, queueClosed := true, panicked := s.panicked || s.queueClosed)
    case QueueShut => s.(shutdown := Draining)
    case Draining => s.(shutdown := Finishing)
    case Finishing => s.(shutdown := Spent, closers := s.closers[s.runner := Returned])
    case _ => s
  }

  /** Close call c enters the once. */
  function Called<S, Resp>(s: State<S, Resp>, c: nat): State<S, Resp>
    requires c < |s.closers|
  {
    s.(closers := s.closers[c := InBody], runner := c, shutdown := Entered)
  }

  ghost predicate Enabled<S, Req, Resp>(cfg: Config<S, Req, Resp>, s: State<S, Resp>, step: Step) {
    match step
    case ByProducer(p) => ProducerCan(s, p)
    case ByWriter => WriterCan(cfg, s)
    case ByShutdown => ShutdownCan(s)
    case Call(c) => c < |s.closers| && s.closers[c].Calling? && s.shutdown.Unused?
    case Skip(c) => c < |s.closers| && s.closers[c].Calling? && s.shutdown.Spent?
  }

  ghost function Apply<S, Req, Resp>(cfg: Config<S, Req, Resp>, s: State<S, Resp>, step: Step): State<S, Resp>
    requires Enabled(cfg, s, step)
  {
    match step
    case ByProducer(p) => ProducerStep(s, p)
    case ByWriter => WriterStep(cfg, s)
    case ByShutdown => ShutdownStep(s)
    case Call(c) => Called(s, c)
    case Skip(c) => s.(closers := s.closers[c := Returned])
  }

  // ----- the sequential reading -----

  ghost predicate Requests<S, Req, Resp>(cfg: Config<S, Req, Resp>, jobs: seq<nat>) {
    forall i | 0 <= i < |jobs| :: jobs[i] < |cfg.reqs|
  }

  /** The object and the responses when these requests run alone, one after the other. */
  function Sequential<S, Req, Resp>(cfg: Config<S, Req, Resp>, jobs: seq<nat>): (S, seq<Resp>)
    requires forall i | 0 <= i < |jobs| :: jobs[i] < |cfg.reqs|
  {
    if jobs == [] then (cfg.init, [])
    else
      var (obj, answers) := Sequential(cfg, jobs[..|jobs| - 1]);
      var (next, resp) := cfg.step(obj, cfg.reqs[jobs[|jobs| - 1]]);
      (next, answers + [resp])
  }

  // ----- the invariant -----

  /** Where a producer's request and its one response are. */
  ghost predicate ProducerOk<S, Resp>(s: State<S, Resp>, p: nat)
    requires p < |s.producers| && p < |s.replies|
  {
    && (s.producers[p].Accepted() ==> s.producers[p].place < |s.sent| && s.sent[s.producers[p].place] == p)
    && match s.producers[p]
       case Served(k, resp) => k < s.Replied() && k < |s.answers| && resp == s.answers[k] && s.replies[p].None?
       case Sent(k) => s.replies[p] == (if k < s.Replied() && k < |s.answers| then Some(s.answers[k]) else None)
       case Waiting(k) => s.replies[p] == (if k < s.Replied() && k < |s.answers| then Some(s.answers[k]) else None)
       case _ => s.replies[p].None?
  }

  /** The k-th request ever queued belongs to an accepted producer that knows its place. */
  ghost predicate PlaceOk<S, Resp>(s: State<S, Resp>, k: nat)
    requires k < |s.sent|
  {
    s.sent[k] < |s.producers| && s.producers[s.sent[k]].Accepted() && s.producers[s.sent[k]].place == k
  }

  ghost predicate Counts<S, Resp>(s: State<S, Resp>) {
    && s.taken <= |s.sent| <= s.taken + QUEUE_CAPACITY
    && match s.writer
       case Receiving => s.taken == |s.answers|
       case Working => s.taken == |s.answers| + 1
       case Replying => s.taken == |s.answers| > 0
       case Exited => s.taken == |s.answers| == |s.sent| && s.queueClosed
  }

  ghost predicate Traffic<S, Req, Resp>(cfg: Config<S, Req, Resp>, s: State<S, Resp>) {
    && |s.producers| == |s.replies| == |cfg.reqs|
    && Counts(s)
    && (forall p: nat | p < |s.producers| :: ProducerOk(s, p))
    && (forall k: nat | k < |s.sent| :: PlaceOk(s, k))
  }

  /** The object and the answers are those of the sequential run over the processed requests. */
  ghost predicate Refines<S, Req, Resp>(cfg: Config<S, Req, Resp>, s: State<S, Resp>) {
    && |s.answers| <= |s.sent| && Requests(cfg, s.sent)
    && Sequential(cfg, s.sent[..|s.answers|]) == (s.obj, s.answers)
  }

  /** What each stage of the shutdown guarantees. */
  ghost predicate Gate<S, Resp>(s: State<S, Resp>) {
    && !s.panicked
    && (s.shutdown.WriteLocked() ==> NoReaders(s))
    && (s.closed <==> s.shutdown.Rank() >= 4)
    && (s.queueClosed <==> s.shutdown.Rank() >= 5)
    && (s.closed ==> forall p | 0 <= p < |s.producers| :: !s.producers[p].Sending? && !s.producers[p].Sent?)
    && (s.shutdown.Rank() >= 7 ==> s.writer.Exited?)
  }

  /** closeOnce: one closer runs the body, and all wait for it. */
  ghost predicate Once<S, Resp>(s: State<S, Resp>) {
    && (s.shutdown.Unused? ==> forall c | 0 <= c < |s.closers| :: s.closers[c].Calling?)
    && (s.shutdown.Spent? ==> forall c | 0 <= c < |s.closers| :: !s.closers[c].InBody?)
    && (!s.shutdown.Unused? && !s.shutdown.Spent? ==>
          && s.runner < |s.closers|
          && forall c | 0 <= c < |s.closers| :: if c == s.runner then s.closers[c].InBody? else s.closers[c].Calling?)
  }

  ghost predicate Inv<S, Req, Resp>(cfg: Config<S, Req, Resp>, s: State<S, Resp>) {
    Traffic(cfg, s) && Refines(cfg, s) && Gate(s) && Once(s)
  }

  lemma InitialInv<S, Req, Resp>(cfg: Config<S, Req, Resp>, closers: nat)
    ensures Inv(cfg, Initial(cfg, closers))
  {
    var s := Initial(cfg, closers);
    assert s.sent[..0] == [];
  }

  lemma ProducerKeepsProducer<S, Resp>(s: State<S, Resp>, p: nat, q: nat)
    requires |s.producers| == |s.replies| && Counts(s) && Gate(s) && ProducerCan(s, p)
    requires q < |s.producers| && ProducerOk(s, q) && ProducerOk(s, p)
    ensures ProducerOk(ProducerStep(s, p), q)
  {
    if p != q {
      var t := ProducerStep(s, p);
      assert t.producers[q] == s.producers[q] && t.replies[q] == s.replies[q];
    }
  }

  lemma ProducerKeepsPlace<S, Resp>(s: State<S, Resp>, p: nat, k: nat)
    requires ProducerCan(s, p) && k < |ProducerStep(s, p).sent|
    requires k < |s.sent| ==> PlaceOk(s, k)
    ensures PlaceOk(ProducerStep(s, p), k)
  {}

  lemma ProducerKeepsTraffic<S, Req, Resp>(cfg: Config<S, Req, Resp>, s: State<S, Resp>, p: nat)
    requires Traffic(cfg, s) && Gate(s) && ProducerCan(s, p)
    ensures Traffic(cfg, ProducerStep(s, p))
  {
    var t := ProducerStep(s, p);
    forall q: nat | q < |t.producers| ensures ProducerOk(t, q) {
      ProducerKeepsProducer(s, p, q);
    }
    forall k: nat | k < |t.sent| ensures PlaceOk(t, k) {
      ProducerKeepsPlace(s, p, k);
    }
  }

  lemma WriterKeepsProducer<S, Req, Resp>(cfg: Config<S, Req, Resp>, s: State<S, Resp>, q: nat)
    requires |s.producers| == |s.replies| && Counts(s) && WriterCan(cfg, s)
    requires q < |s.producers| && ProducerOk(s, q) && (s.writer.Replying? ==> PlaceOk(s, s.taken - 1))
    ensures ProducerOk(WriterStep(cfg, s), q)
  {}

  lemma WriterKeepsTraffic<S, Req, Resp>(cfg: Config<S, Req, Resp>, s: State<S, Resp>)
    requires Traffic(cfg, s) && WriterCan(cfg, s)
    ensures Traffic(cfg, WriterStep(cfg, s))
  {
    var t := WriterStep(cfg, s);
    forall k: nat | k < |t.sent| ensures PlaceOk(t, k) { assert PlaceOk(s, k); }
    forall q: nat | q < |t.producers| ensures ProducerOk(t, q) {
      WriterKeepsProducer(cfg, s, q);
    }
  }

  lemma ProducerKeepsGate<S, Req, Resp>(cfg: Config<S, Req, Resp>, s: State<S, Resp>, p: nat)
    requires Gate(s) && ProducerCan(s, p)
    ensures Gate(ProducerStep(s, p))
  {}

  lemma WriterKeepsGate<S, Req, Resp>(cfg: Config<S, Req, Resp>, s: State<S, Resp>)
    requires Gate(s) && WriterCan(cfg, s)
    ensures Gate(WriterStep(cfg, s))
  {}

  lemma ShutdownKeepsGate<S, Resp>(s: State<S, Resp>)
    requires Gate(s) && ShutdownCan(s)
    ensures Gate(ShutdownStep(s))
  {}

  lemma ProducerKeepsRefinement<S, Req, Resp>(cfg: Config<S, Req, Resp>, s: State<S, Resp>, p: nat)
    requires Traffic(cfg, s) && Refines(cfg, s) && ProducerCan(s, p)
    ensures Refines(cfg, ProducerStep(s, p))
  {
    var t := ProducerStep(s, p);
    assert t.sent[..|s.answers|] == s.sent[..|s.answers|];
  }

  lemma WriterKeepsRefinement<S, Req, Resp>(cfg: Config<S, Req, Resp>, s: State<S, Resp>)
    requires Traffic(cfg, s) && Refines(cfg, s) && WriterCan(cfg, s)
    ensures Refines(cfg, WriterStep(cfg, s))
  {
    if s.writer.Working? {
      var n := |s.answers|;
      assert s.sent[..n + 1][..n] == s.sent[..n];
      assert s.sent[..n + 1][n] == s.sent[s.taken - 1];
    }
  }

  lemma ClosersKeepOnce<S, Req, Resp>(cfg: Config<S, Req, Resp>, s: State<S, Resp>, step: Step)
    requires Once(s) && Enabled(cfg, s, step) && (step.Call? || step.Skip?)
    ensures Once(Apply(cfg, s, step))
  {}

  lemma ShutdownKeepsOnce<S, Resp>(s: State<S, Resp>)
    requires Once(s) && ShutdownCan(s)
    ensures Once(ShutdownStep(s))
  {}

  lemma OthersKeepTraffic<S, Req, Resp>(cfg: Config<S, Req, Resp>, s: State<S, Resp>, step: Step)
    requires Traffic(cfg, s) && Enabled(cfg, s, step) && !step.ByProducer? && !step.ByWriter?
    requires Gate(s)
    ensures Traffic(cfg, Apply(cfg, s, step))
  {
    var t := Apply(cfg, s, step);
    forall q: nat | q < |t.producers| ensures ProducerOk(t, q) { assert ProducerOk(s, q); }
    forall k: nat | k < |t.sent| ensures PlaceOk(t, k) { assert PlaceOk(s, k); }
  }

  lemma ProducerKeepsInv<S, Req, Resp>(cfg: Config<S, Req, Resp>, s: State<S, Resp>, p: nat)
    requires Inv(cfg, s) && ProducerCan(s, p)
    ensures Inv(cfg, ProducerStep(s, p))
  {
    ProducerKeepsTraffic(cfg, s, p);
    ProducerKeepsGate(cfg, s, p);
    ProducerKeepsRefinement(cfg, s, p);
  }

  lemma WriterKeepsInv<S, Req, Resp>(cfg: Config<S, Req, Resp>, s: State<S, Resp>)
    requires Inv(cfg, s) && WriterCan(cfg, s)
    ensures Inv(cfg, WriterStep(cfg, s))
  {
    WriterKeepsTraffic(cfg, s);
    WriterKeepsGate(cfg, s);
    WriterKeepsRefinement(cfg, s);
  }

  lemma ShutdownKeepsInv<S, Req, Resp>(cfg: Config<S, Req, Resp>, s: State<S, Resp>)
    requires Inv(cfg, s) && ShutdownCan(s)
    ensures Inv(cfg, ShutdownStep(s))
  {
    OthersKeepTraffic(cfg, s, ByShutdown);
    ShutdownKeepsGate(s);
    ShutdownKeepsOnce(s);
  }

  lemma StepKeepsInv<S, Req, Resp>(cfg: Config<S, Req, Resp>, s: State<S, Resp>, step: Step)
    requires Inv(cfg, s) && Enabled(cfg, s, step)
    ensures Inv(cfg, Apply(cfg, s, step))
  {
    match step
    case ByProducer(p) => ProducerKeepsInv(cfg, s, p);
    case ByWriter => WriterKeepsInv(cfg, s);
    case ByShutdown => ShutdownKeepsInv(cfg, s);
    case _ =>
      OthersKeepTraffic(cfg, s, step);
      ClosersKeepOnce(cfg, s, step);
  }

  // ----- progress -----

  /** Nothing left to do: every call has returned, and if anyone closes, the shutdown is complete. */
  ghost predicate AllOver<S, Resp>(s: State<S, Resp>) {
    && (forall p | 0 <= p < |s.producers| :: s.producers[p].Over())
    && (forall c | 0 <= c < |s.closers| :: s.closers[c].Returned?)
    && s.taken == |s.sent| == |s.answers|
    && (s.closers != [] ==> s.shutdown.Spent? && s.writer.Exited?)
  }

  lemma WriterRests<S, Req, Resp>(cfg: Config<S, Req, Resp>, s: State<S, Resp>)
    requires Inv(cfg, s) && !WriterCan(cfg, s)
    ensures s.taken == |s.sent| == |s.answers| && s.Replied() == |s.answers|
    ensures s.writer.Exited? || (s.writer.Receiving? && !s.queueClosed)
  {
    if s.taken > 0 {
      assert PlaceOk(s, s.taken - 1);
      assert ProducerOk(s, s.sent[s.taken - 1]);
    }
  }

  /** Some producer can move when the writer rests, unless all are over or wait for the gate. */
  lemma ProducerProgress<S, Req, Resp>(cfg: Config<S, Req, Resp>, s: State<S, Resp>, p: nat)
    requires Inv(cfg, s) && !WriterCan(cfg, s) && p < |s.producers| && !s.producers[p].Over()
    ensures ProducerCan(s, p) || (s.producers[p].Start? && (s.shutdown.LockWanted? || s.shutdown.WriteLocked()))
  {
    assert ProducerOk(s, p);
    WriterRests(cfg, s);
  }

  lemma ProducerProgressOrOver<S, Req, Resp>(cfg: Config<S, Req, Resp>, s: State<S, Resp>, p: nat)
    requires Inv(cfg, s) && !WriterCan(cfg, s) && p < |s.producers|
    ensures ProducerCan(s, p) || s.producers[p].Over() ||
            (s.producers[p].Start? && (s.shutdown.LockWanted? || s.shutdown.WriteLocked()))
  {
    if !s.producers[p].Over() { ProducerProgress(cfg, s, p); }
  }

  /** Deadlock freedom: until everything is over, some step is enabled. */
  lemma Progress<S, Req, Resp>(cfg: Config<S, Req, Resp>, s: State<S, Resp>) returns (step: Step)
    requires Inv(cfg, s) && !AllOver(s)
    ensures Enabled(cfg, s, step)
  {
    if WriterCan(cfg, s) { return ByWriter; }
    WriterRests(cfg, s);
    if p: nat :| p < |s.producers| && ProducerCan(s, p) { return ByProducer(p); }
    forall p: nat | p < |s.producers| ensures !s.producers[p].HoldsReadLock() { ProducerProgressOrOver(cfg, s, p); }
    if ShutdownCan(s) { return ByShutdown; }
    forall p: nat | p < |s.producers| ensures s.producers[p].Over() { ProducerProgressOrOver(cfg, s, p); }
    assert s.shutdown.Unused? || s.shutdown.Spent?;
    var c :| 0 <= c < |s.closers| && !s.closers[c].Returned?;
    return if s.shutdown.Unused? then Call(c) else Skip(c);
  }

  // ----- termination -----

  function Ranks<Resp>(ps: seq<Producer<Resp>>): nat {
    if ps == [] then 0 else Ranks(ps[..|ps| - 1]) + Rank(ps[|ps| - 1])
  }

  lemma {:induction false} RanksUpdate<Resp>(ps: seq<Producer<Resp>>, i: nat, p: Producer<Resp>)
    requires i < |ps|
    ensures Ranks(ps[i := p]) == Ranks(ps) - Rank(ps[i]) + Rank(p)
  {
    var n := |ps| - 1;
    if i == n {
      assert ps[i := p][..n] == ps[..n];
    } else {
      assert ps[i := p][..n] == ps[..n][i := p];
      RanksUpdate(ps[..n], i, p);
    }
  }

  function Waits(cs: seq<Closer>): nat {
    if cs == [] then 0 else Waits(cs[..|cs| - 1]) + if cs[|cs| - 1].Calling? then 1 else 0
  }

  lemma {:induction false} WaitsUpdate(cs: seq<Closer>, i: nat, c: Closer)
    requires i < |cs|
    ensures Waits(cs[i := c]) == Waits(cs) - (if cs[i].Calling? then 1 else 0) + (if c.Calling? then 1 else 0)
  {
    var n := |cs| - 1;
    if i == n {
      assert cs[i := c][..n] == cs[..n];
    } else {
      assert cs[i := c][..n] == cs[..n][i := c];
      WaitsUpdate(cs[..n], i, c);
    }
  }

  function WriterRank(w: Writer): nat {
    match w
    case Working => 3
    case Replying => 2
    case Receiving => 1
    case Exited => 0
  }

  /** Steps still possible: each producer's, the writer's for everything queued, the shutdown's, the closers'. */
  function Measure<S, Resp>(s: State<S, Resp>): int {
    Ranks(s.producers) + 3 * (|s.sent| - s.taken) + WriterRank(s.writer) + (8 - s.shutdown.Rank()) + Waits(s.closers)
  }

  lemma ProducerLowersMeasure<S, Resp>(s: State<S, Resp>, p: nat)
    requires ProducerCan(s, p)
    ensures Measure(ProducerStep(s, p)) < Measure(s)
  {
    RanksUpdate(s.producers, p, ProducerStep(s, p).producers[p]);
  }

  lemma ShutdownLowersMeasure<S, Resp>(s: State<S, Resp>)
    requires ShutdownCan(s) && Once(s)
    ensures Measure(ShutdownStep(s)) < Measure(s)
  {
    if s.shutdown.Finishing? { WaitsUpdate(s.closers, s.runner, Returned); }
  }

  lemma MeasureDecreases<S, Req, Resp>(cfg: Config<S, Req, Resp>, s: State<S, Resp>, step: Step)
    requires Once(s) && Enabled(cfg, s, step)
    ensures Measure(Apply(cfg, s, step)) < Measure(s)
  {
    match step
    case ByProducer(p) => ProducerLowersMeasure(s, p);
    case Call(c) => WaitsUpdate(s.closers, c, InBody);
    case Skip(c) => WaitsUpdate(s.closers, c, Returned);
    case ByShutdown => ShutdownLowersMeasure(s);
    case ByWriter =>
  }

  // ----- whole runs -----

  ghost predicate IsRun<S, Req, Resp>(cfg: Config<S, Req, Resp>, s: State<S, Resp>, steps: seq<Step>, t: State<S, Resp>)
    decreases |steps|
  {
    if steps == [] then s == t
    else Enabled(cfg, s, steps[0]) && IsRun(cfg, Apply(cfg, s, steps[0]), steps[1..], t)
  }

  lemma {:induction false} RunKeepsInv<S, Req, Resp>(
      cfg: Config<S, Req, Resp>, s: State<S, Resp>, steps: seq<Step>, t: State<S, Resp>)
    requires Inv(cfg, s) && IsRun(cfg, s, steps, t)
    ensures Inv(cfg, t)
    ensures |steps| + Measure(t) <= Measure(s)
    decreases |steps|
  {
    if steps != [] {
      StepKeepsInv(cfg, s, steps[0]);
      MeasureDecreases(cfg, s, steps[0]);
      RunKeepsInv(cfg, Apply(cfg, s, steps[0]), steps[1..], t);
    }
  }

  /** One step more of a run. */
  lemma {:induction false} RunSnoc<S, Req, Resp>(
      cfg: Config<S, Req, Resp>, s: State<S, Resp>, steps: seq<Step>, t: State<S, Resp>, step: Step)
    requires IsRun(cfg, s, steps, t) && Enabled(cfg, t, step)
    ensures IsRun(cfg, s, steps + [step], Apply(cfg, t, step))
    decreases |steps|
  {
    if steps == [] {
      assert ([] + [step])[1..] == [];
    } else {
      assert (steps + [step])[1..] == steps[1..] + [step];
      RunSnoc(cfg, Apply(cfg, s, steps[0]), steps[1..], t, step);
    }
  }

  /** In every state any interleaving reaches: the queued requests have been
      answered, in queue order, as the object alone would answer them; every
      producer that got a response got the one at its place, and no two share
      a place; nothing panicked. */
  lemma RunsRefineTheObject<S, Req, Resp>(cfg: Config<S, Req, Resp>, closers: nat, steps: seq<Step>, t: State<S, Resp>)
    requires IsRun(cfg, Initial(cfg, closers), steps, t)
    ensures !t.panicked
    ensures |t.answers| <= |t.sent| && Requests(cfg, t.sent) && NoDup(t.sent)
    ensures Sequential(cfg, t.sent[..|t.answers|]) == (t.obj, t.answers)
    ensures forall p | 0 <= p < |t.producers| && t.producers[p].Served? ::
              && t.producers[p].place < |t.answers| && t.sent[t.producers[p].place] == p
              && t.producers[p].resp == t.answers[t.producers[p].place]
  {
    InitialInv(cfg, closers);
    RunKeepsInv(cfg, Initial(cfg, closers), steps, t);
    forall p | 0 <= p < |t.producers| && t.producers[p].Served?
      ensures t.producers[p].place < |t.answers| && t.sent[t.producers[p].place] == p
      ensures t.producers[p].resp == t.answers[t.producers[p].place]
    {
      assert ProducerOk(t, p);
    }
    forall i, j | 0 <= i < j < |t.sent| ensures t.sent[i] != t.sent[j] {
      assert PlaceOk(t, i) && PlaceOk(t, j);
    }
  }

  lemma ClosedStepAcceptsNothing<S, Req, Resp>(cfg: Config<S, Req, Resp>, s: State<S, Resp>, step: Step)
    requires Inv(cfg, s) && s.closed && Enabled(cfg, s, step)
    ensures Apply(cfg, s, step).closed && Apply(cfg, s, step).sent == s.sent
  {}

  /** Once closed, nothing more is accepted in any later state. */
  lemma {:induction false} ClosedAcceptsNothing<S, Req, Resp>(
      cfg: Config<S, Req, Resp>, s: State<S, Resp>, steps: seq<Step>, t: State<S, Resp>)
    requires Inv(cfg, s) && s.closed && IsRun(cfg, s, steps, t)
    ensures t.closed && t.sent == s.sent
    decreases |steps|
  {
    if steps != [] {
      StepKeepsInv(cfg, s, steps[0]);
      ClosedStepAcceptsNothing(cfg, s, steps[0]);
      ClosedAcceptsNothing(cfg, Apply(cfg, s, steps[0]), steps[1..], t);
    }
  }

  /** Close has asked for the lock and the call has not begun, or it has found the gate closed. */
  predicate TooLate<S, Resp>(s: State<S, Resp>, p: nat) {
    p < |s.producers| && s.shutdown.Rank() >= 2 &&
    (s.producers[p].Start?
     || (s.closed && (s.producers[p].Checking? || s.producers[p].Refusing? || s.producers[p].Refused?)))
  }

  lemma StepKeepsLate<S, Req, Resp>(cfg: Config<S, Req, Resp>, s: State<S, Resp>, step: Step, p: nat)
    requires Inv(cfg, s) && Enabled(cfg, s, step) && TooLate(s, p)
    ensures TooLate(Apply(cfg, s, step), p)
  {}

  /** A call that has not begun when Close asks for the lock is never accepted. */
  lemma {:induction false} LateCallsAreRefused<S, Req, Resp>(
      cfg: Config<S, Req, Resp>, s: State<S, Resp>, steps: seq<Step>, t: State<S, Resp>, p: nat)
    requires Inv(cfg, s) && IsRun(cfg, s, steps, t) && TooLate(s, p)
    ensures TooLate(t, p) && !t.producers[p].Accepted() && p !in t.sent
    decreases |steps|
  {
    if steps == [] {
      forall i | 0 <= i < |t.sent| ensures t.sent[i] != p { assert PlaceOk(t, i); }
    } else {
      StepKeepsInv(cfg, s, steps[0]);
      StepKeepsLate(cfg, s, steps[0], p);
      LateCallsAreRefused(cfg, Apply(cfg, s, steps[0]), steps[1..], t, p);
    }
  }

  /** When Close gets past its drain, every accepted request has its answer in
      its channel or its hands, and the object has seen them all. */
  lemma DrainedMeansAnswered<S, Req, Resp>(cfg: Config<S, Req, Resp>, s: State<S, Resp>, p: nat)
    requires Inv(cfg, s) && (s.shutdown.Finishing? || s.shutdown.Spent?)
    ensures Sequential(cfg, s.sent) == (s.obj, s.answers)
    ensures p < |s.producers| && s.producers[p].Accepted() ==>
              && s.producers[p].place < |s.answers|
              && (if s.producers[p].Served? then Some(s.producers[p].resp) else s.replies[p]) ==
                 Some(s.answers[s.producers[p].place])
  {
    assert s.sent[..|s.answers|] == s.sent;
    if p < |s.producers| { assert ProducerOk(s, p); }
  }

  lemma MeasureNonNegative<S, Req, Resp>(cfg: Config<S, Req, Resp>, s: State<S, Resp>)
    requires Inv(cfg, s)
    ensures Measure(s) >= 0
  {}

  lemma {:induction false} InitialRanks<Resp>(n: nat)
    ensures Ranks(seq(n, _ => Producer<Resp>.Start)) == 8 * n
  {
    if n != 0 {
      InitialRanks<Resp>(n - 1);
      assert seq(n, _ => Producer<Resp>.Start)[..n - 1] == seq(n - 1, _ => Producer<Resp>.Start);
    }
  }

  lemma {:induction false} InitialWaits(n: nat)
    ensures Waits(seq(n, _ => Calling)) == n
  {
    if n != 0 {
      InitialWaits(n - 1);
      assert seq(n, _ => Calling)[..n - 1] == seq(n - 1, _ => Calling);
    }
  }

  /** Every run ends, and a run that cannot go on has served or refused every
      producer and returned every closer. */
  lemma RunsTerminate<S, Req, Resp>(cfg: Config<S, Req, Resp>, closers: nat, steps: seq<Step>, t: State<S, Resp>)
    requires IsRun(cfg, Initial(cfg, closers), steps, t)
    ensures |steps| <= 8 * |cfg.reqs| + closers + 9
    ensures (forall step :: !Enabled(cfg, t, step)) ==> AllOver(t)
  {
    var s := Initial(cfg, closers);
    InitialInv(cfg, closers);
    RunKeepsInv(cfg, s, steps, t);
    InitialRanks<Resp>(|cfg.reqs|);
    InitialWaits(closers);
    MeasureNonNegative(cfg, t);
    if !AllOver(t) {
      var step := Progress(cfg, t);
    }
  }
}
