/** The queue protocol over the file-level write: what concurrent producers of a
    ContainerManager can rely on, whichever calls fail. */
module ConcurrentContainers {
  import opened Basics
  import opened ContainerFiles
  import C = Containers
  import P = Packing
  import R = ContainerRuns
  import Q = WriteQueue

  type Writer = Q.Config<C.State, C.Request, C.Response>

  /** A manager on a directory of these files, with the requests its producers will make. */
  function WriterOf(env: C.Env, files: Files, reqs: seq<C.Request>): Writer {
    Q.Config(C.Start(files), R.Writer(env), reqs)
  }

  /** From a sound and tidy start, each step guarantees what a write guarantees. */
  ghost predicate Writes(env: C.Env, cfg: Writer) {
    && C.Sound(env, cfg.init) && cfg.init.containerIndex == 0 && cfg.init.issued == []
    && R.Tidy(env, cfg.init.files.Keys, cfg.init, [])
    && R.Guarantees(env, cfg.step)
  }

  lemma WriterWrites(env: C.Env, files: Files, reqs: seq<C.Request>)
    requires env.Assumed() && C.NoOthers(env, files, [])
    ensures Writes(env, WriterOf(env, files, reqs))
  {
    R.WriterGuarantees(env);
  }

  /** The chunks of the requests, in the order of the jobs. */
  function Chunks(reqs: seq<C.Request>, jobs: seq<nat>): (chunks: seq<bytes>)
    requires forall i | 0 <= i < |jobs| :: jobs[i] < |reqs|
    ensures |chunks| == |jobs|
  {
    seq(|jobs|, i requires 0 <= i < |jobs| => reqs[jobs[i]].data)
  }

  /** The first n jobs, one after the other. */
  lemma {:induction false} SequentialWrites(env: C.Env, cfg: Writer, jobs: seq<nat>, n: nat)
    requires Writes(env, cfg) && n <= |jobs| <= env.limit && forall i | 0 <= i < |jobs| :: jobs[i] < |cfg.reqs|
    ensures var (s, answers) := Q.Sequential(cfg, jobs[..n]);
            && C.Sound(env, s) && s.containerIndex <= n && |answers| == n
            && (C.OnlyContainers(env, cfg.init.files) ==> C.OnlyContainers(env, s.files))
            && R.Backed(s.issued, Chunks(cfg.reqs, jobs), answers)
  {
    if n != 0 {
      var (s, answers) := Q.Sequential(cfg, jobs[..n - 1]);
      var req := cfg.reqs[jobs[n - 1]];
      SequentialWrites(env, cfg, jobs, n - 1);
      assert jobs[..n][..n - 1] == jobs[..n - 1];
      var (t, r) := cfg.step(s, req);
      R.BackedGoesOn(env, s, Chunks(cfg.reqs, jobs), answers, req, t, r);
    }
  }

  /** The ticket is for the chunk of one of the first n jobs. */
  ghost predicate ForJob(reqs: seq<C.Request>, jobs: seq<nat>, n: nat, t: C.Ticket) {
    exists i :: 0 <= i < n <= |jobs| && jobs[i] < |reqs| && reqs[jobs[i]].data == t.data
  }

  /** No two of the first n jobs have chunks of one hash. */
  ghost predicate JobsApart(reqs: seq<C.Request>, jobs: seq<nat>, n: nat, hash: bytes -> bytes)
    requires n <= |jobs| && forall i | 0 <= i < |jobs| :: jobs[i] < |reqs|
  {
    forall i, j | 0 <= i < j < n :: hash(reqs[jobs[i]].data) != hash(reqs[jobs[j]].data)
  }

  ghost predicate TicketsApart(issued: seq<C.Ticket>, hash: bytes -> bytes) {
    forall a, b | 0 <= a < b < |issued| :: hash(issued[a].data) != hash(issued[b].data)
  }

  /** Every ticket is for one of the first n jobs, and no two are for chunks of one hash. */
  ghost predicate TicketsFor(reqs: seq<C.Request>, jobs: seq<nat>, n: nat, hash: bytes -> bytes,
                             issued: seq<C.Ticket>)
  {
    && (forall a | 0 <= a < |issued| :: ForJob(reqs, jobs, n, issued[a]))
    && TicketsApart(issued, hash)
  }

  lemma OneMoreTicket(reqs: seq<C.Request>, jobs: seq<nat>, n: nat, hash: bytes -> bytes,
                      issued: seq<C.Ticket>, t: C.Ticket)
    requires 0 < n <= |jobs| && forall i | 0 <= i < |jobs| :: jobs[i] < |reqs|
    requires JobsApart(reqs, jobs, n, hash) && TicketsFor(reqs, jobs, n - 1, hash, issued)
    requires t.data == reqs[jobs[n - 1]].data
    ensures TicketsFor(reqs, jobs, n, hash, issued) && TicketsFor(reqs, jobs, n, hash, issued + [t])
  {
    forall a | 0 <= a < |issued| ensures hash(issued[a].data) != hash(t.data) && ForJob(reqs, jobs, n, issued[a]) {
      assert ForJob(reqs, jobs, n - 1, issued[a]);
    }
    assert ForJob(reqs, jobs, n, t);
  }

  lemma IssuesOne(env: C.Env, s: C.State, req: C.Request, t: C.State, r: C.Response) returns (k: C.Ticket)
    requires C.WriteWell(env, s, req, t, r)
    ensures k.data == req.data && t.issued == if r.Written? then s.issued + [k] else s.issued
  {
    k := if r.Written? then C.TicketOf(env, s, req.data, r) else C.Ticket(P.Slot(0, 0), [], 0, 0, [], req.data);
  }

  /** The tickets issued for the first n jobs are for those jobs' chunks, each for
      another job: where no two jobs have chunks of one hash, no two tickets do. */
  lemma {:induction false} TicketsComeFromJobs(env: C.Env, cfg: Writer, jobs: seq<nat>, n: nat, hash: bytes -> bytes)
    requires Writes(env, cfg) && n <= |jobs| <= env.limit && forall i | 0 <= i < |jobs| :: jobs[i] < |cfg.reqs|
    requires JobsApart(cfg.reqs, jobs, n, hash)
    ensures TicketsFor(cfg.reqs, jobs, n, hash, Q.Sequential(cfg, jobs[..n]).0.issued)
  {
    if n != 0 {
      var s := Q.Sequential(cfg, jobs[..n - 1]).0;
      SequentialWrites(env, cfg, jobs, n - 1);
      TicketsComeFromJobs(env, cfg, jobs, n - 1, hash);
      assert jobs[..n][..n - 1] == jobs[..n - 1];
      var req := cfg.reqs[jobs[n - 1]];
      var (t, r) := cfg.step(s, req);
      var k := IssuesOne(env, s, req, t, r);
      OneMoreTicket(cfg.reqs, jobs, n, hash, s.issued, k);
    }
  }

  lemma StepStaysTidy(env: C.Env, cfg: Writer, jobs: seq<nat>, n: nat, s: C.State)
    requires Writes(env, cfg) && n < |jobs| <= env.limit && forall i | 0 <= i < |jobs| :: jobs[i] < |cfg.reqs|
    requires C.Sound(env, s) && s.containerIndex <= n && cfg.step(s, cfg.reqs[jobs[n]]).1.Written?
    requires R.Tidy(env, cfg.init.files.Keys, s, Chunks(cfg.reqs, jobs)[..n])
    ensures R.Tidy(env, cfg.init.files.Keys, cfg.step(s, cfg.reqs[jobs[n]]).0, Chunks(cfg.reqs, jobs)[..n + 1])
  {
    var req := cfg.reqs[jobs[n]];
    var (t, r) := cfg.step(s, req);
    R.StillTidy(env, cfg.init.files.Keys, s, Chunks(cfg.reqs, jobs), n, req.faults, t, r);
  }

  /** As long as every write succeeds the manager stays tidy; and without faults every write does. */
  lemma {:induction false} SequentialIsTidy(env: C.Env, cfg: Writer, jobs: seq<nat>, n: nat)
    requires Writes(env, cfg) && n <= |jobs| <= env.limit && forall i | 0 <= i < |jobs| :: jobs[i] < |cfg.reqs|
    ensures var (s, answers) := Q.Sequential(cfg, jobs[..n]);
            && (R.AllWritten(answers) ==> R.Tidy(env, cfg.init.files.Keys, s, Chunks(cfg.reqs, jobs)[..n]))
            && (R.NoFaultsIn(env, cfg.reqs) ==> R.AllWritten(answers))
  {
    if n != 0 {
      var (s, answers) := Q.Sequential(cfg, jobs[..n - 1]);
      SequentialWrites(env, cfg, jobs, n - 1);
      SequentialIsTidy(env, cfg, jobs, n - 1);
      assert jobs[..n][..n - 1] == jobs[..n - 1];
      var r := cfg.step(s, cfg.reqs[jobs[n - 1]]).1;
      R.AllWrittenSnoc(answers, r);
      if R.NoFaultsIn(env, cfg.reqs) { C.CalmWriteSucceeds(env, s, cfg.reqs[jobs[n - 1]]); }
      if R.AllWritten(answers) && r.Written? { StepStaysTidy(env, cfg, jobs, n - 1, s); }
    }
  }

  lemma {:induction false} DistinctBelow(s: seq<nat>, n: nat)
    requires NoDup(s) && forall i | 0 <= i < |s| :: s[i] < n
    ensures |s| <= n
  {
    assert s != [] ==> s[0] < n;
    if n != 0 && exists i :: 0 <= i < |s| && s[i] == n - 1 {
      var i :| 0 <= i < |s| && s[i] == n - 1;
      var rest := s[..i] + s[i + 1..];
      forall a, b | 0 <= a < b < |rest| ensures rest[a] != rest[b] {
        var a', b' := if a < i then a else a + 1, if b < i then b else b + 1;
        assert rest[a] == s[a'] && rest[b] == s[b'];
      }
      forall a | 0 <= a < |rest| ensures rest[a] < n - 1 {
        var a' := if a < i then a else a + 1;
        assert rest[a] == s[a'] && s[a'] != s[i];
      }
      DistinctBelow(rest, n - 1);
    } else if n != 0 {
      DistinctBelow(s, n - 1);
    }
  }

  /** In every state an interleaving reaches, the object is sound and every
      success answered so far is backed by a ticket for its own chunk. */
  lemma RunsAreBacked(env: C.Env, cfg: Writer, closers: nat, steps: seq<Q.Step>, t: Q.State<C.State, C.Response>)
    requires Writes(env, cfg) && |cfg.reqs| <= env.limit && Q.IsRun(cfg, Q.Initial(cfg, closers), steps, t)
    ensures C.Sound(env, t.obj) && t.obj.containerIndex <= |t.answers| <= |t.sent| <= |cfg.reqs| == |t.producers|
    ensures C.OnlyContainers(env, cfg.init.files) ==> C.OnlyContainers(env, t.obj.files)
    ensures forall p | 0 <= p < |t.producers| && t.producers[p].Served? && t.producers[p].resp.Written? ::
              R.BackedBy(t.obj.issued, t.producers[p].resp, cfg.reqs[p].data)
  {
    Q.RunsRefineTheObject(cfg, closers, steps, t);
    Q.InitialInv(cfg, closers);
    Q.RunKeepsInv(cfg, Q.Initial(cfg, closers), steps, t);
    DistinctBelow(t.sent, |cfg.reqs|);
    var n := |t.answers|;
    SequentialWrites(env, cfg, t.sent, n);
    forall p | 0 <= p < |t.producers| && t.producers[p].Served? && t.producers[p].resp.Written?
      ensures R.BackedBy(t.obj.issued, t.producers[p].resp, cfg.reqs[p].data)
    {
      var k := t.producers[p].place;
      assert t.answers[k] == t.producers[p].resp && Chunks(cfg.reqs, t.sent)[k] == cfg.reqs[p].data;
    }
  }

  /** However producers, writer and closers interleave, and whatever calls fail:
      a producer that was answered with a path, an offset and a size reads back
      its own chunk, in every state from then on and after the final close. */
  lemma ProducersReadBack(env: C.Env, files: Files, reqs: seq<C.Request>, closers: nat, steps: seq<Q.Step>,
                          t: Q.State<C.State, C.Response>, atClose: C.Faults, p: nat)
    requires env.Assumed() && C.NoOthers(env, files, []) && |reqs| <= env.limit
    requires var cfg := WriterOf(env, files, reqs); Q.IsRun(cfg, Q.Initial(cfg, closers), steps, t)
    requires p < |t.producers| && t.producers[p].Served? && t.producers[p].resp.Written?
    ensures p < |reqs| && R.ReadsBack(env, t.obj.files, t.producers[p].resp, reqs[p].data)
    ensures R.ReadsBack(env, C.Closed(env, t.obj, atClose).0.files, t.producers[p].resp, reqs[p].data)
  {
    WriterWrites(env, files, reqs);
    RunsAreBacked(env, WriterOf(env, files, reqs), closers, steps, t);
    R.BackedReads(env, t.obj, t.producers[p].resp, reqs[p].data);
    C.ClosedOutcome(env, t.obj, atClose);
    R.BackedReads(env, C.Closed(env, t.obj, atClose).0, t.producers[p].resp, reqs[p].data);
  }

  lemma RunsAreTidy(env: C.Env, cfg: Writer, closers: nat, steps: seq<Q.Step>, t: Q.State<C.State, C.Response>)
    requires Writes(env, cfg) && |cfg.reqs| <= env.limit && Q.IsRun(cfg, Q.Initial(cfg, closers), steps, t)
    ensures C.Sound(env, t.obj) && |t.answers| <= |t.sent| && Q.Requests(cfg, t.sent)
    ensures R.AllWritten(t.answers) ==>
              R.Tidy(env, cfg.init.files.Keys, t.obj, Chunks(cfg.reqs, t.sent)[..|t.answers|])
    ensures R.NoFaultsIn(env, cfg.reqs) ==> R.AllWritten(t.answers)
  {
    Q.RunsRefineTheObject(cfg, closers, steps, t);
    RunsAreBacked(env, cfg, closers, steps, t);
    DistinctBelow(t.sent, |cfg.reqs|);
    SequentialIsTidy(env, cfg, t.sent, |t.answers|);
  }

  /** Once everything is over: if every accepted request was written and the close
      succeeds, whatever else failed, the directory holds the compressed containers
      of the next-fit packing and nothing else that is new. */
  lemma FinishedRunIsTidy(env: C.Env, files: Files, reqs: seq<C.Request>, closers: nat, steps: seq<Q.Step>,
                          t: Q.State<C.State, C.Response>, atClose: C.Faults)
    requires env.Assumed() && C.NoOthers(env, files, []) && |reqs| <= env.limit
    requires var cfg := WriterOf(env, files, reqs); Q.IsRun(cfg, Q.Initial(cfg, closers), steps, t)
    requires |t.answers| == |t.sent| && forall i | 0 <= i < |t.sent| :: t.sent[i] < |reqs|
    requires R.AllWritten(t.answers) && C.Closed(env, t.obj, atClose).1
    ensures R.TidyEnd(env, files.Keys, t.obj, Chunks(reqs, t.sent), C.Closed(env, t.obj, atClose).0.files)
  {
    WriterWrites(env, files, reqs);
    RunsAreTidy(env, WriterOf(env, files, reqs), closers, steps, t);
    var chunks := Chunks(reqs, t.sent);
    assert chunks[..|chunks|] == chunks;
    R.TidyEnds(env, files.Keys, t.obj, chunks, atClose);
  }

  /** And when nothing fails every accepted request was written, the close succeeds,
      and the container files are fewer than twice the bins of any packing of the
      accepted chunks. */
  lemma ConcurrentTwiceOptimal(env: C.Env, reqs: seq<C.Request>, closers: nat, steps: seq<Q.Step>,
                               t: Q.State<C.State, C.Response>, atClose: C.Faults)
    requires env.Assumed() && |reqs| <= env.limit && R.NoFaultsIn(env, reqs) && R.NoFaults(env, atClose)
    requires var cfg := WriterOf(env, map[], reqs); Q.IsRun(cfg, Q.Initial(cfg, closers), steps, t)
    requires Q.AllOver(t) && t.sent != [] && forall i | 0 <= i < |t.sent| :: t.sent[i] < |reqs|
    ensures R.AllWritten(t.answers) && C.Closed(env, t.obj, atClose).1
    ensures R.FewerThanTwice(env, C.Closed(env, t.obj, atClose).0.files, R.Encoded(env, Chunks(reqs, t.sent)))
  {
    WriterWrites(env, map[], reqs);
    RunsAreTidy(env, WriterOf(env, map[], reqs), closers, steps, t);
    var chunks := Chunks(reqs, t.sent);
    assert chunks[..|chunks|] == chunks;
    R.SomeEncoded(env, chunks);
    var others: set<bytes> := {};
    R.CalmCloses(env, others, t.obj, chunks, atClose);
    R.TidyCloses(env, others, t.obj, chunks, atClose);
  }
}
