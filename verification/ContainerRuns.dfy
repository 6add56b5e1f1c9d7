/** One manager's whole life: a sequence of writes, each with its own faults,
    and the final Close. */
module ContainerRuns {
  import opened Basics
  import opened ContainerFiles
  import opened Packing
  import opened Containers
  import opened ContainerManagement

  ghost predicate BackedBy(issued: seq<Ticket>, r: Response, chunk: bytes)
    requires r.Written?
  {
    exists n :: 0 <= n < |issued| && issued[n].path == r.path && issued[n].offset == r.offset
                && issued[n].size == r.size && issued[n].data == chunk
  }

  /** Every success so far is backed by a ticket for its chunk. */
  ghost predicate Backed(issued: seq<Ticket>, chunks: seq<bytes>, responses: seq<Response>) {
    |responses| <= |chunks| &&
    forall i | 0 <= i < |responses| && responses[i].Written? :: BackedBy(issued, responses[i], chunks[i])
  }

  /** The response reads back its chunk from these files. */
  ghost predicate ReadsBack(env: Env, files: Files, r: Response, chunk: bytes)
    requires r.Written?
  {
    ReadChunk(files, env.zip, env.codec, r.path, r.offset, r.size) == Some(chunk)
  }

  lemma BackedReads(env: Env, s: State, r: Response, chunk: bytes)
    requires Sound(env, s) && r.Written? && BackedBy(s.issued, r, chunk)
    ensures ReadsBack(env, s.files, r, chunk)
  {
    var n :| 0 <= n < |s.issued| && s.issued[n].path == r.path && s.issued[n].offset == r.offset
             && s.issued[n].size == r.size && s.issued[n].data == chunk;
    TicketReads(env, s.issued[n], s.files, s.ids, s.packed);
  }

  lemma BackedStaysReadable(env: Env, s: State, r: Response, chunk: bytes, atClose: Faults)
    requires env.Assumed() && Sound(env, s) && r.Written? && BackedBy(s.issued, r, chunk)
    ensures ReadsBack(env, s.files, r, chunk) && ReadsBack(env, Closed(env, s, atClose).0.files, r, chunk)
  {
    ClosedOutcome(env, s, atClose);
    BackedReads(env, s, r, chunk);
    BackedReads(env, Closed(env, s, atClose).0, r, chunk);
  }

  lemma OneMoreBacked(before: seq<Ticket>, t: Ticket, chunks: seq<bytes>, responses: seq<Response>, r: Response)
    requires Backed(before, chunks, responses) && |responses| < |chunks|
    requires r == Written(t.path, t.offset, t.size) && t.data == chunks[|responses|]
    ensures Backed(before + [t], chunks, responses + [r])
  {
    var issued, all := before + [t], responses + [r];
    forall i | 0 <= i < |all| && all[i].Written? ensures BackedBy(issued, all[i], chunks[i]) {
      if i < |responses| {
        var n :| 0 <= n < |before| && before[n].path == responses[i].path && before[n].offset == responses[i].offset
                 && before[n].size == responses[i].size && before[n].data == chunks[i];
        assert issued[n] == before[n];
      } else {
        assert issued[|before|] == t;
      }
    }
  }

  /** What the chunk codec makes of the chunks it accepts. */
  function Encoded(env: Env, chunks: seq<bytes>): seq<bytes> {
    if chunks == [] then []
    else
      Encoded(env, chunks[..|chunks| - 1]) +
      match env.codec.enc(chunks[|chunks| - 1]) case Some(y) => [y] case None => []
  }

  lemma EncodedSnoc(env: Env, chunks: seq<bytes>, n: nat)
    requires n < |chunks|
    ensures env.codec.enc(chunks[n]).Some? ==>
              Encoded(env, chunks[..n + 1]) == Encoded(env, chunks[..n]) + [env.codec.enc(chunks[n]).value]
    ensures env.codec.enc(chunks[n]).Some? ==>
              var packed := PlaceAll(Encoded(env, chunks[..n]), MAX_CONTAINER_SIZE);
              PlaceAll(Encoded(env, chunks[..n + 1]), MAX_CONTAINER_SIZE) ==
              Place(packed, env.codec.enc(chunks[n]).value, MAX_CONTAINER_SIZE)
  {
    assert chunks[..n + 1][..n] == chunks[..n];
    if env.codec.enc(chunks[n]).Some? {
      var e, y := Encoded(env, chunks[..n]), env.codec.enc(chunks[n]).value;
      assert (e + [y])[..|e|] == e;
    }
  }

  ghost predicate NoFaults(env: Env, faults: Faults) {
    faults.fails == {} && env.CannotFail()
  }

  ghost predicate NoFaultsIn(env: Env, reqs: seq<Request>) {
    forall i | 0 <= i < |reqs| :: NoFaults(env, reqs[i].faults)
  }

  // ----- how many files a run leaves -----

  ghost predicate IsContainerFile(env: Env, p: bytes) {
    exists i: nat :: 0 < i <= env.limit && (p == env.Blob(i) || p == CompressedPath(env.Blob(i)))
  }

  ghost function ContainerFileNames(env: Env, files: Files): set<bytes> {
    set p | p in files && IsContainerFile(env, p)
  }

  ghost function CompressedNames(env: Env, ids: seq<nat>): set<bytes> {
    set k | 0 <= k < |ids| :: CompressedPath(env.Blob(ids[k]))
  }

  lemma {:induction false} FewNames(env: Env, ids: seq<nat>)
    ensures |CompressedNames(env, ids)| <= |ids|
  {
    if ids != [] {
      var n := |ids| - 1;
      FewNames(env, ids[..n]);
      assert CompressedNames(env, ids) == CompressedNames(env, ids[..n]) + {CompressedPath(env.Blob(ids[n]))};
    }
  }

  lemma SubsetIsSmaller(a: set<bytes>, b: set<bytes>)
    requires a <= b
    ensures |a| <= |b|
  {
    assert b == a + (b - a);
  }

  /** When every container is shut, there are no more container files than containers. */
  lemma FewFiles(env: Env, s: State)
    requires Sound(env, s) && ShutUpTo(env, s.files, s.ids, |s.ids|)
    ensures |ContainerFileNames(env, s.files)| <= |s.packed|
  {
    forall p | p in ContainerFileNames(env, s.files) ensures p in CompressedNames(env, s.ids) {
      var i: nat :| 0 < i <= env.limit && (p == env.Blob(i) || p == CompressedPath(env.Blob(i)));
      assert i !in s.ids ==> Absent(env, s.files, i);
      var k :| 0 <= k < |s.ids| && s.ids[k] == i;
      assert p == CompressedPath(env.Blob(s.ids[k]));
    }
    assert ContainerFileNames(env, s.files) <= CompressedNames(env, s.ids);
    SubsetIsSmaller(ContainerFileNames(env, s.files), CompressedNames(env, s.ids));
    FewNames(env, s.ids);
  }

  /** There are fewer than twice as many container files as any packing of the chunks has bins. */
  ghost predicate FewerThanTwice(env: Env, files: Files, encoded: seq<bytes>) {
    forall bin, bins: nat | IsPacking(encoded, bin, bins, MAX_CONTAINER_SIZE) ::
      |ContainerFileNames(env, files)| <= 2 * bins - 1
  }

  ghost predicate AllWritten(responses: seq<Response>) {
    forall i | 0 <= i < |responses| :: responses[i].Written?
  }

  /** What a run whose every write succeeded has come to: the next-fit packing, its
      containers compressed but for the open one, and no file besides them that
      was not there before. */
  ghost predicate Tidy(env: Env, others: set<bytes>, s: State, chunks: seq<bytes>) {
    && s.handle != DeadFile && s.packed == PlaceAll(Encoded(env, chunks), MAX_CONTAINER_SIZE)
    && LastOpen(env, s) && HasAll(env, s) && Extra(env, s) <= others
  }

  /** The directory holds the compressed form of each container, and nothing else
      but what was there before. */
  ghost predicate OnlyCompressed(env: Env, files: Files, ids: seq<nat>, others: set<bytes>) {
    CompressedNames(env, ids) <= files.Keys <= others + CompressedNames(env, ids)
  }

  lemma ShutMeansCompressed(env: Env, s: State, others: set<bytes>)
    requires s.handle != OpenFile && HasAll(env, s) && Extra(env, s) <= others
    ensures OnlyCompressed(env, s.files, s.ids, others)
  {
    forall p | p in CompressedNames(env, s.ids) ensures p in s.files {
      var k: nat :| k < |s.ids| && CompressedPath(env.Blob(s.ids[k])) == p;
      assert Stands(env, s, k);
    }
    forall p | p in s.files && p !in others ensures p in CompressedNames(env, s.ids) {
      assert p !in Extra(env, s);
      var k: nat :| k < |s.ids| && FileName(env, s.ids, false, k) == p;
    }
  }

  /** Closing a tidy run without an error leaves the compressed containers alone. */
  lemma TidyShuts(env: Env, others: set<bytes>, s: State, chunks: seq<bytes>, faults: Faults)
    requires env.Assumed() && Sound(env, s) && Tidy(env, others, s, chunks) && Closed(env, s, faults).1
    ensures OnlyCompressed(env, Closed(env, s, faults).0.files, s.ids, others)
    ensures |ContainerFileNames(env, Closed(env, s, faults).0.files)| <= |s.packed|
  {
    ClosedOutcome(env, s, faults);
    var t := Closed(env, s, faults).0;
    ShutMeansCompressed(env, t, others);
    FewFiles(env, t);
  }

  /** And few of them. */
  lemma TidyCloses(env: Env, others: set<bytes>, s: State, chunks: seq<bytes>, faults: Faults)
    requires env.Assumed() && Sound(env, s) && Tidy(env, others, s, chunks) && Closed(env, s, faults).1
    requires Encoded(env, chunks) != []
    ensures FewerThanTwice(env, Closed(env, s, faults).0.files, Encoded(env, chunks))
  {
    TidyShuts(env, others, s, chunks, faults);
    var t := Closed(env, s, faults).0;
    forall bin, bins: nat | IsPacking(Encoded(env, chunks), bin, bins, MAX_CONTAINER_SIZE)
      ensures |ContainerFileNames(env, t.files)| <= 2 * bins - 1
    {
      TwiceOptimal(Encoded(env, chunks), MAX_CONTAINER_SIZE, bin, bins);
    }
  }

  /** Without faults the close of a tidy run does not fail. */
  lemma CalmCloses(env: Env, others: set<bytes>, s: State, chunks: seq<bytes>, faults: Faults)
    requires env.Assumed() && Sound(env, s) && Tidy(env, others, s, chunks) && NoFaults(env, faults)
    ensures Closed(env, s, faults).1
  {
    ClosedOutcome(env, s, faults);
  }

  /** A write that issues its ticket, or fails and issues none, keeps every success backed. */
  lemma BackedGoesOn(env: Env, s: State, chunks: seq<bytes>, responses: seq<Response>, req: Request,
                     t: State, r: Response)
    requires Backed(s.issued, chunks, responses) && |responses| < |chunks| && req.data == chunks[|responses|]
    requires WriteWell(env, s, req, t, r)
    ensures Backed(t.issued, chunks, responses + [r])
  {
    if r.Written? { OneMoreBacked(s.issued, TicketOf(env, s, req.data, r), chunks, responses, r); }
  }

  /** One next-fit placement more. */
  lemma StillTidy(env: Env, others: set<bytes>, s: State, chunks: seq<bytes>, n: nat, faults: Faults,
                  t: State, r: Response)
    requires n < |chunks| && Tidy(env, others, s, chunks[..n]) && r.Written?
    requires WriteWell(env, s, Request(chunks[n], faults), t, r)
    ensures Tidy(env, others, t, chunks[..n + 1])
  {
    EncodedSnoc(env, chunks, n);
  }

  // ----- whole runs -----

  type Writing = (State, Request) -> (State, Response)

  function Writer(env: Env): Writing {
    (s: State, req: Request) => Write(env, s, req)
  }

  /** Each step from a sound manager guarantees what a write guarantees. */
  ghost predicate Guarantees(env: Env, write: Writing) {
    forall s, req | Sound(env, s) && s.containerIndex < env.limit ::
      WriteWell(env, s, req, write(s, req).0, write(s, req).1)
  }

  lemma WriterGuarantees(env: Env)
    requires env.Assumed()
    ensures Guarantees(env, Writer(env))
  {
    forall s, req | Sound(env, s) && s.containerIndex < env.limit
      ensures WriteWell(env, s, req, Writer(env)(s, req).0, Writer(env)(s, req).1)
    {
      WriteOutcome(env, s, req);
    }
  }

  function Data(reqs: seq<Request>): (chunks: seq<bytes>)
    ensures |chunks| == |reqs| && forall i | 0 <= i < |reqs| :: chunks[i] == reqs[i].data
  {
    seq(|reqs|, i requires 0 <= i < |reqs| => reqs[i].data)
  }

  /** The manager and its answers after the first n requests. */
  function Played(write: Writing, start: State, reqs: seq<Request>, n: nat): (State, seq<Response>)
    requires n <= |reqs|
  {
    if n == 0 then (start, [])
    else
      var (s, responses) := Played(write, start, reqs, n - 1);
      var (t, r) := write(s, reqs[n - 1]);
      (t, responses + [r])
  }

  /** A new manager on a directory of these files, which holds no containers. */
  ghost predicate Fresh(env: Env, start: State) {
    env.Assumed() && start == Start(start.files) && NoOthers(env, start.files, [])
  }

  /** A sound manager whose every success is backed, and tidy if all succeeded. */
  ghost predicate RunOk(env: Env, others: set<bytes>, reqs: seq<Request>, s: State, responses: seq<Response>) {
    && Sound(env, s) && s.containerIndex <= |responses| <= |reqs| && Backed(s.issued, Data(reqs), responses)
    && (AllWritten(responses) ==> Tidy(env, others, s, Data(reqs)[..|responses|]))
    && (NoFaultsIn(env, reqs) ==> AllWritten(responses))
  }

  lemma StartIsOk(env: Env, reqs: seq<Request>, start: State)
    requires Fresh(env, start)
    ensures RunOk(env, start.files.Keys, reqs, start, [])
  {}

  lemma AllWrittenSnoc(responses: seq<Response>, r: Response)
    ensures AllWritten(responses + [r]) <==> AllWritten(responses) && r.Written?
  {
    assert (responses + [r])[|responses|] == r;
    assert forall i | 0 <= i < |responses| :: (responses + [r])[i] == responses[i];
  }

  lemma TidyGoesOn(env: Env, others: set<bytes>, reqs: seq<Request>, s: State, responses: seq<Response>,
                   t: State, r: Response)
    requires |responses| < |reqs| && RunOk(env, others, reqs, s, responses)
    requires WriteWell(env, s, reqs[|responses|], t, r)
    ensures AllWritten(responses + [r]) ==> Tidy(env, others, t, Data(reqs)[..|responses| + 1])
    ensures NoFaultsIn(env, reqs) ==> AllWritten(responses + [r])
  {
    var n := |responses|;
    AllWrittenSnoc(responses, r);
    if AllWritten(responses) && r.Written? { StillTidy(env, others, s, Data(reqs), n, reqs[n].faults, t, r); }
    if NoFaultsIn(env, reqs) { CalmWriteSucceeds(env, s, reqs[n]); }
  }

  lemma RunGoesOn(env: Env, others: set<bytes>, reqs: seq<Request>, s: State, responses: seq<Response>,
                  t: State, r: Response)
    requires |responses| < |reqs| && RunOk(env, others, reqs, s, responses)
    requires WriteWell(env, s, reqs[|responses|], t, r)
    ensures RunOk(env, others, reqs, t, responses + [r])
  {
    BackedGoesOn(env, s, Data(reqs), responses, reqs[|responses|], t, r);
    TidyGoesOn(env, others, reqs, s, responses, t, r);
  }

  lemma {:induction false} RunIsSound(env: Env, write: Writing, start: State, reqs: seq<Request>, n: nat)
    requires Fresh(env, start) && Guarantees(env, write) && n <= |reqs| <= env.limit
    ensures |Played(write, start, reqs, n).1| == n
    ensures RunOk(env, start.files.Keys, reqs, Played(write, start, reqs, n).0, Played(write, start, reqs, n).1)
  {
    if n == 0 {
      StartIsOk(env, reqs, start);
    } else {
      RunIsSound(env, write, start, reqs, n - 1);
      var (s, responses) := Played(write, start, reqs, n - 1);
      var (t, r) := write(s, reqs[n - 1]);
      RunGoesOn(env, start.files.Keys, reqs, s, responses, t, r);
    }
  }

  lemma RunHasRoom(env: Env, write: Writing, start: State, reqs: seq<Request>, n: nat)
    requires Fresh(env, start) && Guarantees(env, write) && n <= |reqs| <= env.limit
    ensures Played(write, start, reqs, n).0.containerIndex <= n == |Played(write, start, reqs, n).1|
  {
    RunIsSound(env, write, start, reqs, n);
  }

  /** The answer to request i, when the run has got that far. */
  function AnswerOf(write: Writing, start: State, reqs: seq<Request>, i: nat): Response
    requires i < |reqs|
  {
    write(Played(write, start, reqs, i).0, reqs[i]).1
  }

  /** Answers are never taken back. */
  lemma {:induction false} AnswersStay(write: Writing, start: State, reqs: seq<Request>, i: nat, n: nat)
    requires i < n <= |reqs|
    ensures |Played(write, start, reqs, n).1| == n
    ensures Played(write, start, reqs, n).1[i] == AnswerOf(write, start, reqs, i)
  {
    if n == i + 1 {
      if i != 0 { AnswersStay(write, start, reqs, 0, n - 1); }
    } else {
      AnswersStay(write, start, reqs, i, n - 1);
    }
  }

  /** A success stays backed for the rest of the run. */
  lemma SuccessStaysBacked(env: Env, write: Writing, start: State, reqs: seq<Request>, i: nat, n: nat)
    requires Fresh(env, start) && Guarantees(env, write) && i < n <= |reqs| <= env.limit
    requires AnswerOf(write, start, reqs, i).Written?
    ensures var s := Played(write, start, reqs, n).0;
            Sound(env, s) && BackedBy(s.issued, AnswerOf(write, start, reqs, i), reqs[i].data)
  {
    RunIsSound(env, write, start, reqs, n);
    AnswersStay(write, start, reqs, i, n);
    assert Backed(Played(write, start, reqs, n).0.issued, Data(reqs), Played(write, start, reqs, n).1);
  }

  /** Issued triples are permanent: a (path, offset, size) handed out for request i
      reads back its chunk from the directory as it stands after that write, after
      every later write with its rotations and compressions, and after a Close at
      any of these points, whatever calls fail in between. */
  lemma SuccessesArePermanent(env: Env, start: State, reqs: seq<Request>, i: nat, n: nat, atClose: Faults)
    requires Fresh(env, start) && i < n <= |reqs| <= env.limit
    requires AnswerOf(Writer(env), start, reqs, i).Written?
    ensures var (s, r) := (Played(Writer(env), start, reqs, n).0, AnswerOf(Writer(env), start, reqs, i));
            && ReadsBack(env, s.files, r, reqs[i].data)
            && ReadsBack(env, Closed(env, s, atClose).0.files, r, reqs[i].data)
  {
    WriterGuarantees(env);
    SuccessStaysBacked(env, Writer(env), start, reqs, i, n);
    BackedStaysReadable(env, Played(Writer(env), start, reqs, n).0, AnswerOf(Writer(env), start, reqs, i),
                        reqs[i].data, atClose);
  }

  /** After the Close the containers on disk are those of the manager's packing,
      and no others. */
  lemma RunLayout(env: Env, start: State, reqs: seq<Request>, atClose: Faults)
    requires Fresh(env, start) && |reqs| <= env.limit
    ensures var s := Played(Writer(env), start, reqs, |reqs|).0;
            var left := Closed(env, s, atClose).0.files;
            Laid(env, left, s.ids, s.packed) && Numbered(s.ids, env.limit) && NoOthers(env, left, s.ids)
  {
    WriterGuarantees(env);
    RunIsSound(env, Writer(env), start, reqs, |reqs|);
    ClosedOutcome(env, Played(Writer(env), start, reqs, |reqs|).0, atClose);
  }

  lemma SomeEncoded(env: Env, chunks: seq<bytes>)
    requires env.CannotFail() && chunks != []
    ensures Encoded(env, chunks) != []
  {}

  /** The next-fit packing, each container's compressed form and nothing else new,
      and fewer of them than twice the bins of any packing. */
  ghost predicate TidyEnd(env: Env, others: set<bytes>, s: State, chunks: seq<bytes>, left: Files) {
    && s.packed == PlaceAll(Encoded(env, chunks), MAX_CONTAINER_SIZE)
    && OnlyCompressed(env, left, s.ids, others)
    && (Encoded(env, chunks) != [] ==> FewerThanTwice(env, left, Encoded(env, chunks)))
  }

  lemma TidyEnds(env: Env, others: set<bytes>, s: State, chunks: seq<bytes>, atClose: Faults)
    requires env.Assumed() && Sound(env, s) && Tidy(env, others, s, chunks) && Closed(env, s, atClose).1
    ensures TidyEnd(env, others, s, chunks, Closed(env, s, atClose).0.files)
  {
    TidyShuts(env, others, s, chunks, atClose);
    if Encoded(env, chunks) != [] { TidyCloses(env, others, s, chunks, atClose); }
  }

  /** When every write and the close succeed, whatever else failed, the directory
      holds the compressed containers of the next-fit packing and nothing else new. */
  lemma SuccessfulRun(env: Env, start: State, reqs: seq<Request>, atClose: Faults)
    requires Fresh(env, start) && |reqs| <= env.limit
    requires AllWritten(Played(Writer(env), start, reqs, |reqs|).1)
    requires Closed(env, Played(Writer(env), start, reqs, |reqs|).0, atClose).1
    ensures var s := Played(Writer(env), start, reqs, |reqs|).0;
            TidyEnd(env, start.files.Keys, s, Data(reqs), Closed(env, s, atClose).0.files)
  {
    var (s, responses) := Played(Writer(env), start, reqs, |reqs|);
    WriterGuarantees(env);
    RunIsSound(env, Writer(env), start, reqs, |reqs|);
    assert Data(reqs)[..|reqs|] == Data(reqs);
    TidyEnds(env, start.files.Keys, s, Data(reqs), atClose);
  }

  /** And without faults they do. */
  lemma CalmRun(env: Env, start: State, reqs: seq<Request>, atClose: Faults)
    requires Fresh(env, start) && |reqs| <= env.limit && NoFaultsIn(env, reqs) && NoFaults(env, atClose)
    ensures var (s, responses) := Played(Writer(env), start, reqs, |reqs|);
            && AllWritten(responses) && Closed(env, s, atClose).1
            && TidyEnd(env, start.files.Keys, s, Data(reqs), Closed(env, s, atClose).0.files)
  {
    var (s, responses) := Played(Writer(env), start, reqs, |reqs|);
    WriterGuarantees(env);
    RunIsSound(env, Writer(env), start, reqs, |reqs|);
    assert Data(reqs)[..|reqs|] == Data(reqs);
    CalmCloses(env, start.files.Keys, s, Data(reqs), atClose);
    TidyEnds(env, start.files.Keys, s, Data(reqs), atClose);
  }

  /** Snapshot j is the directory after write j. */
  ghost predicate SnapshotsOf(write: Writing, start: State, reqs: seq<Request>, snapshots: seq<Files>) {
    |snapshots| <= |reqs| &&
    forall j | 0 <= j < |snapshots| :: snapshots[j] == Played(write, start, reqs, j + 1).0.files
  }

  lemma OneMoreSnapshot(write: Writing, start: State, reqs: seq<Request>, snapshots: seq<Files>, files: Files)
    requires SnapshotsOf(write, start, reqs, snapshots) && |snapshots| < |reqs|
    requires files == Played(write, start, reqs, |snapshots| + 1).0.files
    ensures SnapshotsOf(write, start, reqs, snapshots + [files])
  {}

  lemma OneMorePlayed(write: Writing, start: State, reqs: seq<Request>, s: State, responses: seq<Response>,
                      t: State, r: Response)
    requires |responses| < |reqs| && (s, responses) == Played(write, start, reqs, |responses|)
    requires (t, r) == write(s, reqs[|responses|])
    ensures (t, responses + [r]) == Played(write, start, reqs, |responses| + 1)
  {}

  /** One turn of the writer's loop. */
  method Serve(cm: ContainerManager, req: Request, ghost write: Writing) returns (r: Response)
    requires cm.Valid() && cm.containerIndex < cm.env.limit && write == Writer(cm.env)
    modifies cm
    ensures cm.Valid() && cm.finalized == old(cm.finalized)
    ensures (cm.View(), r) == write(old(cm.View()), req)
  {
    r := cm.DoWrite(req.data, req.faults);
  }

  /** The writer's loop, one request after another, computes the run. */
  method WriteChunks(cm: ContainerManager, reqs: seq<Request>)
    returns (responses: seq<Response>, snapshots: seq<Files>)
    requires cm.Valid() && Fresh(cm.env, cm.View()) && !cm.finalized && |reqs| <= cm.env.limit
    modifies cm
    ensures cm.Valid() && !cm.finalized && |snapshots| == |reqs|
    ensures (cm.View(), responses) == Played(Writer(cm.env), old(cm.View()), reqs, |reqs|)
    ensures SnapshotsOf(Writer(cm.env), old(cm.View()), reqs, snapshots)
  {
    responses, snapshots := [], [];
    ghost var start, write := cm.View(), Writer(cm.env);
    WriterGuarantees(cm.env);
    for n := 0 to |reqs|
      invariant cm.Valid() && !cm.finalized && |snapshots| == n
      invariant (cm.View(), responses) == Played(write, start, reqs, n)
      invariant SnapshotsOf(write, start, reqs, snapshots)
    {
      RunHasRoom(cm.env, write, start, reqs, n);
      ghost var before := cm.View();
      var r := Serve(cm, reqs[n], write);
      OneMorePlayed(write, start, reqs, before, responses, cm.View(), r);
      OneMoreSnapshot(write, start, reqs, snapshots, cm.files);
      responses, snapshots := responses + [r], snapshots + [cm.files];
    }
  }

  /** Success i reads back from every snapshot from its own on. */
  ghost predicate Permanent(env: Env, snapshots: seq<Files>, reqs: seq<Request>, responses: seq<Response>)
    requires |responses| == |reqs| && |snapshots| == |reqs| + 1
  {
    forall i, j | 0 <= i < |reqs| && i <= j <= |reqs| && responses[i].Written? ::
      ReadsBack(env, snapshots[j], responses[i], reqs[i].data)
  }

  lemma SnapshotReads(env: Env, write: Writing, start: State, reqs: seq<Request>, snapshots: seq<Files>,
                      responses: seq<Response>, left: Files, atClose: Faults, i: nat, j: nat)
    requires Fresh(env, start) && Guarantees(env, write) && |snapshots| == |responses| == |reqs| <= env.limit
    requires SnapshotsOf(write, start, reqs, snapshots) && responses == Played(write, start, reqs, |reqs|).1
    requires left == Closed(env, Played(write, start, reqs, |reqs|).0, atClose).0.files
    requires i < |reqs| && i <= j <= |reqs| && responses[i].Written?
    ensures ReadsBack(env, (snapshots + [left])[j], responses[i], reqs[i].data)
  {
    AnswersStay(write, start, reqs, i, |reqs|);
    if j < |reqs| {
      SuccessStaysBacked(env, write, start, reqs, i, j + 1);
      BackedReads(env, Played(write, start, reqs, j + 1).0, responses[i], reqs[i].data);
      assert (snapshots + [left])[j] == Played(write, start, reqs, j + 1).0.files;
    } else {
      SuccessStaysBacked(env, write, start, reqs, i, |reqs|);
      BackedStaysReadable(env, Played(write, start, reqs, |reqs|).0, responses[i], reqs[i].data, atClose);
      assert (snapshots + [left])[j] == left;
    }
  }

  lemma SnapshotsArePermanent(env: Env, write: Writing, start: State, reqs: seq<Request>, snapshots: seq<Files>,
                              responses: seq<Response>, left: Files, atClose: Faults)
    requires Fresh(env, start) && Guarantees(env, write) && |snapshots| == |responses| == |reqs| <= env.limit
    requires SnapshotsOf(write, start, reqs, snapshots) && responses == Played(write, start, reqs, |reqs|).1
    requires left == Closed(env, Played(write, start, reqs, |reqs|).0, atClose).0.files
    ensures Permanent(env, snapshots + [left], reqs, responses)
  {
    forall i, j | 0 <= i < |reqs| && i <= j <= |reqs| && responses[i].Written?
      ensures ReadsBack(env, (snapshots + [left])[j], responses[i], reqs[i].data)
    {
      SnapshotReads(env, write, start, reqs, snapshots, responses, left, atClose, i, j);
    }
  }

  /** One manager from its creation to its Close: it answers and leaves the
      directories as the run says, so everything proved of the run holds of it. */
  method WriteAll(env: Env, files: Files, reqs: seq<Request>, atClose: Faults)
    returns (responses: seq<Response>, snapshots: seq<Files>)
    requires Fresh(env, Start(files)) && |reqs| <= env.limit
    ensures |responses| == |reqs| && |snapshots| == |reqs| + 1
    ensures var (s, answers) := Played(Writer(env), Start(files), reqs, |reqs|);
            responses == answers && snapshots[|reqs|] == Closed(env, s, atClose).0.files
    ensures SnapshotsOf(Writer(env), Start(files), reqs, snapshots[..|reqs|])
    ensures Permanent(env, snapshots, reqs, responses)
  {
    var cm := new ContainerManager(env, files);
    responses, snapshots := WriteChunks(cm, reqs);
    WriterGuarantees(env);
    RunIsSound(env, Writer(env), Start(files), reqs, |reqs|);
    var closed := cm.Finalize(atClose);
    SnapshotsArePermanent(env, Writer(env), Start(files), reqs, snapshots, responses, cm.files, atClose);
    assert (snapshots + [cm.files])[..|reqs|] == snapshots;
    snapshots := snapshots + [cm.files];
  }
}
