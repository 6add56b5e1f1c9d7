/** The block index manager (lib/fio/blockindex.go): entries are buffered in
    one pending block and appended to one file per hash prefix. */
module BlockIndex {
  import opened Basics
  import opened BlockCodec

  const CHUNKS_PER_BLOCK: nat := 1000
  const CHONK_NAMESPACE_LENGTH: nat := 5
  const BLOCK_PREFIX: bytes := [98, 108, 111, 99, 107, 95]    // block_
  const BLOCK_INDEX_EXT: bytes := [46, 98, 105, 100, 120]     // .bidx

  function HexDigit(n: nat): byte
    requires n < 16
  {
    if n < 10 then 48 + n else 87 + n
  }

  /** getBlockID: the first byte of the hash, printed with "%x". */
  function BlockId(hash: bytes): bytes {
    if hash == [] then [] else [HexDigit(hash[0] / 16), HexDigit(hash[0] % 16)]
  }

  function BlockFile(dir: bytes, hash: bytes): bytes {
    dir + BLOCK_PREFIX + BlockId(hash) + BLOCK_INDEX_EXT
  }

  /** Two chunk hashes share a block file exactly when their first bytes agree. */
  lemma BlockFileOf(dir: bytes, a: bytes, b: bytes)
    requires |a| > 0 && |b| > 0
    ensures BlockFile(dir, a) == BlockFile(dir, b) <==> a[0] == b[0]
  {
    var n := |dir| + 6;
    assert BlockFile(dir, a)[n..n + 2] == BlockId(a) && BlockFile(dir, b)[n..n + 2] == BlockId(b);
    if BlockId(a) == BlockId(b) {
      assert BlockId(a)[0] == BlockId(b)[0] && BlockId(a)[1] == BlockId(b)[1];
      assert a[0] == 16 * (a[0] / 16) + a[0] % 16;
      assert b[0] == 16 * (b[0] / 16) + b[0] % 16;
    }
  }

  datatype Block = Block(file: bytes, entries: seq<TypedEntry>)

  /** How a flush ends: done, file not opened, or written but Sync reported an error. */
  datatype FlushIo = Fine | OpenFails | SyncFails

  /** The entries behind each block file, and the pending block. */
  datatype Ledger = Ledger(stored: map<bytes, seq<TypedEntry>>, pending: Option<Block>) {
    function Stored(file: bytes): seq<TypedEntry> {
      if file in stored then stored[file] else []
    }

    function Pending(file: bytes): seq<TypedEntry> {
      if pending.Some? && pending.value.file == file then pending.value.entries else []
    }

    function HasPending(): bool {
      pending.Some? && pending.value.entries != []
    }

    /** flushBlock on the pending block, which stays in place. */
    function Flush(io: FlushIo): (Ledger, bool)
      requires pending.Some?
    {
      if pending.value.entries == [] then (this, true)
      else if io.OpenFails? then (this, false)
      else
        var b := pending.value;
        (Ledger(stored[b.file := Stored(b.file) + b.entries], pending), io.Fine?)
    }

    /** The pending block after AddChunkMetadata's first half: flushed away when it is another file's. */
    function SwitchTo(file: bytes, io: FlushIo): (Ledger, bool) {
      if pending.Some? && pending.value.file == file then (this, true)
      else
        var (flushed, ok) := if HasPending() then Flush(io) else (this, true);
        if ok then (flushed.(pending := Some(Block(file, []))), true) else (flushed, false)
    }

    function Append(e: TypedEntry): Ledger
      requires pending.Some?
    {
      this.(pending := Some(Block(pending.value.file, pending.value.entries + [e])))
    }

    function FlushIfFull(io: FlushIo): (Ledger, bool)
      requires pending.Some?
    {
      if |pending.value.entries| < CHUNKS_PER_BLOCK then (this, true)
      else
        var (flushed, ok) := Flush(io);
        if ok then (flushed.(pending := None), true) else (flushed, false)
    }
  }

  datatype Added = Added(ledger: Ledger, ok: bool, logged: bool)

  /** AddChunkMetadata: at most one flush happens per call. */
  function Add(dir: bytes, l: Ledger, e: TypedEntry, io: FlushIo): Added {
    var (switched, ok) := l.SwitchTo(BlockFile(dir, e.hash), io);
    if !ok then Added(switched, false, false)
    else
      var (full, done) := switched.Append(e).FlushIfFull(io);
      Added(full, done, true)
  }

  function CloseLedger(l: Ledger, io: FlushIo): (Ledger, bool) {
    if l.HasPending() then l.Flush(io) else (l, true)
  }

  // ----- what the ledger means, told from the plain log of accepted entries -----

  function SubLog(dir: bytes, log: seq<TypedEntry>, file: bytes): seq<TypedEntry> {
    if log == [] then []
    else
      var e := log[|log| - 1];
      SubLog(dir, log[..|log| - 1], file) + if BlockFile(dir, e.hash) == file then [e] else []
  }

  lemma SubLogSnoc(dir: bytes, log: seq<TypedEntry>, e: TypedEntry, file: bytes)
    ensures SubLog(dir, log + [e], file) ==
            SubLog(dir, log, file) + if BlockFile(dir, e.hash) == file then [e] else []
  {
    assert (log + [e])[..|log|] == log;
  }

  /** Every block file followed by the pending block is that file's sub-log, in order. */
  ghost predicate Once(dir: bytes, l: Ledger, log: seq<TypedEntry>) {
    forall file :: l.Stored(file) + l.Pending(file) == SubLog(dir, log, file)
  }

  ghost predicate Exact(dir: bytes, l: Ledger, log: seq<TypedEntry>) {
    && Once(dir, l, log)
    && (l.pending.Some? ==> 0 < |l.pending.value.entries| < CHUNKS_PER_BLOCK)
  }

  /** Weaker, but kept even by failed flushes and repeated Close: lookups over
      file and pending block give the first entry logged. */
  ghost predicate Agrees(dir: bytes, l: Ledger, log: seq<TypedEntry>) {
    forall h: bytes :: FirstMatch(l.Stored(BlockFile(dir, h)) + l.Pending(BlockFile(dir, h)), h) == FirstMatch(log, h)
  }

  lemma {:induction false} FirstMatchAppend(a: seq<Entry>, b: seq<Entry>, h: bytes)
    ensures FirstMatch(a + b, h) == if FirstMatch(a, h).Some? then FirstMatch(a, h) else FirstMatch(b, h)
  {
    if a == [] {
      assert a + b == b;
    } else {
      assert (a + b)[1..] == a[1..] + b;
      FirstMatchAppend(a[1..], b, h);
    }
  }

  /** Writing the pending entries out, kept pending or not, changes no first match. */
  lemma FlushKeepsAgreement(dir: bytes, l: Ledger, log: seq<TypedEntry>, io: FlushIo)
    requires l.pending.Some? && Agrees(dir, l, log)
    ensures Agrees(dir, l.Flush(io).0, log)
    ensures l.Flush(io).1 ==> Agrees(dir, l.Flush(io).0.(pending := None), log)
  {
    var b := l.pending.value;
    var l' := l.Flush(io).0;
    forall h: bytes
      ensures FirstMatch(l'.Stored(BlockFile(dir, h)) + l'.Pending(BlockFile(dir, h)), h) == FirstMatch(log, h)
      ensures l.Flush(io).1 ==> FirstMatch(l'.Stored(BlockFile(dir, h)), h) == FirstMatch(log, h)
    {
      var file := BlockFile(dir, h);
      FirstMatchAppend(l.Stored(file), l.Pending(file), h);
      FirstMatchAppend(l'.Stored(file), l'.Pending(file), h);
    }
    forall h: bytes ensures l'.Stored(BlockFile(dir, h)) + [] == l'.Stored(BlockFile(dir, h)) {}
    assert forall h: bytes :: l'.(pending := None).Stored(BlockFile(dir, h)) == l'.Stored(BlockFile(dir, h));
  }

  /** A flush that wrote everything but whose Sync failed, then a Close: the entries stand twice. */
  lemma SyncFailureWritesTwice(l: Ledger)
    requires l.HasPending()
    ensures var b := l.pending.value;
            && !l.Flush(SyncFails).1
            && CloseLedger(l.Flush(SyncFails).0, Fine).0.Stored(b.file) == l.Stored(b.file) + b.entries + b.entries
  {}

  lemma SwitchKeepsAgreement(dir: bytes, l: Ledger, log: seq<TypedEntry>, file: bytes, io: FlushIo)
    requires Agrees(dir, l, log)
    ensures Agrees(dir, l.SwitchTo(file, io).0, log)
    ensures l.SwitchTo(file, io).1 ==>
              l.SwitchTo(file, io).0.pending.Some? && l.SwitchTo(file, io).0.pending.value.file == file
  {
    if l.HasPending() { FlushKeepsAgreement(dir, l, log, io); }
    var (l', ok) := l.SwitchTo(file, io);
    if ok && !(l.pending.Some? && l.pending.value.file == file) {
      forall h: bytes
        ensures FirstMatch(l'.Stored(BlockFile(dir, h)) + l'.Pending(BlockFile(dir, h)), h) == FirstMatch(log, h)
      {
        var f := BlockFile(dir, h);
        assert l'.Pending(f) == [] && l'.Stored(f) + [] == l'.Stored(f);
        if l.HasPending() {
          assert l.Flush(io).0.(pending := None).Stored(f) + l.Flush(io).0.(pending := None).Pending(f) == l'.Stored(f);
        } else {
          assert l.Stored(f) + l.Pending(f) == l.Stored(f);
        }
      }
    }
  }

  lemma AppendMoves(l: Ledger, e: TypedEntry, file: bytes)
    requires l.pending.Some?
    ensures l.Append(e).Stored(file) + l.Append(e).Pending(file) ==
            l.Stored(file) + l.Pending(file) + if l.pending.value.file == file then [e] else []
  {}

  lemma AppendAnswers(dir: bytes, held: seq<Entry>, log: seq<TypedEntry>, e: TypedEntry, h: bytes)
    requires FirstMatch(held, h) == FirstMatch(log, h)
    ensures FirstMatch(held + if BlockFile(dir, e.hash) == BlockFile(dir, h) then [e] else [], h) ==
            FirstMatch(log + [e], h)
  {
    FirstMatchAppend(log, [e], h);
    if BlockFile(dir, e.hash) == BlockFile(dir, h) {
      FirstMatchAppend(held, [e], h);
    } else {
      assert held + [] == held && e.hash != h;
    }
  }

  lemma AppendKeepsAgreement(dir: bytes, l: Ledger, log: seq<TypedEntry>, e: TypedEntry)
    requires Agrees(dir, l, log) && l.pending.Some? && l.pending.value.file == BlockFile(dir, e.hash)
    ensures Agrees(dir, l.Append(e), log + [e])
  {
    var l' := l.Append(e);
    forall h: bytes
      ensures FirstMatch(l'.Stored(BlockFile(dir, h)) + l'.Pending(BlockFile(dir, h)), h) == FirstMatch(log + [e], h)
    {
      var file := BlockFile(dir, h);
      AppendMoves(l, e, file);
      AppendAnswers(dir, l.Stored(file) + l.Pending(file), log, e, h);
    }
  }

  lemma AddKeepsAgreement(dir: bytes, l: Ledger, log: seq<TypedEntry>, e: TypedEntry, io: FlushIo)
    requires Agrees(dir, l, log)
    ensures Agrees(dir, Add(dir, l, e, io).ledger, if Add(dir, l, e, io).logged then log + [e] else log)
  {
    SwitchKeepsAgreement(dir, l, log, BlockFile(dir, e.hash), io);
    var (switched, ok) := l.SwitchTo(BlockFile(dir, e.hash), io);
    if ok {
      AppendKeepsAgreement(dir, switched, log, e);
      FlushKeepsAgreement(dir, switched.Append(e), log + [e], io);
    }
  }

  lemma FlushMoves(l: Ledger, io: FlushIo, file: bytes)
    requires l.pending.Some?
    ensures l.Flush(io).1 ==> l.Flush(io).0.Stored(file) == l.Stored(file) + l.Pending(file)
    ensures io.Fine? ==> l.Flush(io).1
    ensures io.OpenFails? ==> l.Flush(io).0 == l
  {}

  lemma SwitchMoves(l: Ledger, to: bytes, io: FlushIo, file: bytes)
    requires io.SyncFails? && l.HasPending() ==> l.pending.value.file == to
    ensures var (l', ok) := l.SwitchTo(to, io);
            && (io.Fine? ==> ok)
            && (ok ==> l'.pending.Some? && l'.pending.value.file == to)
            && l'.Stored(file) + l'.Pending(file) == l.Stored(file) + l.Pending(file)
  {
    if l.HasPending() { FlushMoves(l, io, file); }
  }

  /** Without an I/O failure nothing is refused. */
  lemma FineSucceeds(dir: bytes, l: Ledger, e: TypedEntry)
    ensures Add(dir, l, e, Fine).ok
  {}

  lemma CloseFine(l: Ledger)
    ensures CloseLedger(l, Fine).1
  {}

  lemma OkMeansLogged(dir: bytes, l: Ledger, e: TypedEntry, io: FlushIo)
    ensures Add(dir, l, e, io).ok ==> Add(dir, l, e, io).logged
  {}

  lemma FillMoves(l: Ledger, io: FlushIo, file: bytes)
    requires l.pending.Some?
    requires io.SyncFails? ==> |l.pending.value.entries| < CHUNKS_PER_BLOCK
    ensures var (l', ok) := l.FlushIfFull(io);
            (io.Fine? ==> ok) && l'.Stored(file) + l'.Pending(file) == l.Stored(file) + l.Pending(file)
  {
    FlushMoves(l, io, file);
  }

  /** Without failures the block files and the pending block are exactly the sub-logs. */
  lemma AddKeepsExact(dir: bytes, l: Ledger, log: seq<TypedEntry>, e: TypedEntry)
    requires Exact(dir, l, log)
    ensures Add(dir, l, e, Fine).ok
    ensures Exact(dir, Add(dir, l, e, Fine).ledger, log + [e])
  {
    var l' := Add(dir, l, e, Fine).ledger;
    var to := BlockFile(dir, e.hash);
    var switched := l.SwitchTo(to, Fine).0;
    SwitchMoves(l, to, Fine, to);
    forall file ensures l'.Stored(file) + l'.Pending(file) == SubLog(dir, log + [e], file) {
      SubLogSnoc(dir, log, e, file);
      SwitchMoves(l, to, Fine, file);
      AppendMoves(switched, e, file);
      FillMoves(switched.Append(e), Fine, file);
    }
  }

  // ----- whole runs -----

  datatype Op = OpAdd(e: TypedEntry, io: FlushIo) | OpClose(io: FlushIo)

  const EMPTY: Ledger := Ledger(map[], None)

  function Step(dir: bytes, l: Ledger, log: seq<TypedEntry>, op: Op): (Ledger, seq<TypedEntry>) {
    match op
    case OpAdd(e, io) =>
      var a := Add(dir, l, e, io);
      (a.ledger, if a.logged then log + [e] else log)
    case OpClose(io) => (CloseLedger(l, io).0, log)
  }

  /** The ledger and the log after any sequence of operations on a new index. */
  function Play(dir: bytes, ops: seq<Op>): (Ledger, seq<TypedEntry>) {
    if ops == [] then (EMPTY, [])
    else
      var (l, log) := Play(dir, ops[..|ops| - 1]);
      Step(dir, l, log, ops[|ops| - 1])
  }

  lemma {:induction false} RunsAgree(dir: bytes, ops: seq<Op>)
    ensures Agrees(dir, Play(dir, ops).0, Play(dir, ops).1)
  {
    if ops != [] {
      RunsAgree(dir, ops[..|ops| - 1]);
      var (l, log) := Play(dir, ops[..|ops| - 1]);
      match ops[|ops| - 1]
      case OpAdd(e, io) => AddKeepsAgreement(dir, l, log, e, io);
      case OpClose(io) =>
        if l.HasPending() { FlushKeepsAgreement(dir, l, log, io); }
    }
  }

  ghost predicate CleanAdds(ops: seq<Op>) {
    forall i | 0 <= i < |ops| :: ops[i].OpAdd? && ops[i].io.Fine?
  }

  lemma {:induction false} CleanRunsAreExact(dir: bytes, ops: seq<Op>)
    requires CleanAdds(ops)
    ensures Exact(dir, Play(dir, ops).0, Play(dir, ops).1)
    ensures |Play(dir, ops).1| == |ops|
  {
    if ops == [] {
    } else {
      var before, last := ops[..|ops| - 1], ops[|ops| - 1];
      CleanRunsAreExact(dir, before);
      AddKeepsExact(dir, Play(dir, before).0, Play(dir, before).1, last.e);
    }
  }

  /** A clean run logs every added entry, in call order. */
  lemma {:induction false} CleanRunLogsAll(dir: bytes, ops: seq<Op>, i: nat)
    requires CleanAdds(ops) && i < |ops|
    ensures |Play(dir, ops).1| == |ops| && Play(dir, ops).1[i] == ops[i].e
  {
    var before, last := ops[..|ops| - 1], ops[|ops| - 1];
    CleanRunsAreExact(dir, before);
    AddKeepsExact(dir, Play(dir, before).0, Play(dir, before).1, last.e);
    assert Play(dir, ops).1 == Play(dir, before).1 + [last.e];
    if i < |before| { CleanRunLogsAll(dir, before, i); }
  }

  // ----- each entry once: exactly when -----

  /** Whether adding e comes to a flush: told from the ledger before the call. */
  predicate Flushes(dir: bytes, l: Ledger, e: TypedEntry) {
    if l.pending.Some? && l.pending.value.file == BlockFile(dir, e.hash)
    then |l.pending.value.entries| + 1 >= CHUNKS_PER_BLOCK
    else l.HasPending()
  }

  /** The calls that write entries and keep them pending: an addition whose flush
      is written but not synced, and every Close that gets to write. */
  predicate Repeats(dir: bytes, l: Ledger, op: Op) {
    match op
    case OpAdd(e, io) => io.SyncFails? && Flushes(dir, l, e)
    case OpClose(io) => !io.OpenFails? && l.HasPending()
  }

  ghost predicate Repeated(dir: bytes, ops: seq<Op>) {
    exists i :: 0 <= i < |ops| && Repeats(dir, Play(dir, ops[..i]).0, ops[i])
  }

  /** An addition reports an error exactly when it comes to a flush and the flush fails. */
  lemma AddSucceedsIff(dir: bytes, l: Ledger, e: TypedEntry, io: FlushIo)
    ensures Add(dir, l, e, io).ok <==> io.Fine? || !Flushes(dir, l, e)
  {}

  /** How many entries of a file are on disk or pending. */
  function Held(l: Ledger, file: bytes): nat {
    |l.Stored(file)| + |l.Pending(file)|
  }

  lemma FlushHolds(l: Ledger, io: FlushIo, file: bytes)
    requires l.pending.Some?
    ensures var (l', ok) := l.Flush(io);
            && Held(l', file) >= Held(l, file)
            && (ok ==> |l'.Stored(file)| == Held(l, file))
            && (io.SyncFails? ==> Held(l', file) == Held(l, file) + |l.Pending(file)|)
  {}

  lemma SwitchHolds(l: Ledger, to: bytes, io: FlushIo, file: bytes)
    ensures Held(l.SwitchTo(to, io).0, file) >= Held(l, file)
    ensures l.SwitchTo(to, io).1 ==>
              l.SwitchTo(to, io).0.pending.Some? && l.SwitchTo(to, io).0.pending.value.file == to
  {
    if l.HasPending() { FlushHolds(l, io, file); }
  }

  lemma AppendHolds(l: Ledger, e: TypedEntry, file: bytes)
    requires l.pending.Some?
    ensures Held(l.Append(e), file) == Held(l, file) + if l.pending.value.file == file then 1 else 0
  {}

  lemma FillHolds(l: Ledger, io: FlushIo, file: bytes)
    requires l.pending.Some?
    ensures Held(l.FlushIfFull(io).0, file) >= Held(l, file)
    ensures io.SyncFails? && |l.pending.value.entries| >= CHUNKS_PER_BLOCK && file == l.pending.value.file ==>
              Held(l.FlushIfFull(io).0, file) > Held(l, file)
  {
    FlushHolds(l, io, file);
  }

  /** An addition holds at least what it logs, and more in the pending block's file when it repeats. */
  lemma AddHolds(dir: bytes, l: Ledger, e: TypedEntry, io: FlushIo, file: bytes)
    ensures var a := Add(dir, l, e, io);
            var more := if a.logged && BlockFile(dir, e.hash) == file then 1 else 0;
            && Held(a.ledger, file) >= Held(l, file) + more
            && (Repeats(dir, l, OpAdd(e, io)) && l.pending.Some? && file == l.pending.value.file ==>
                  Held(a.ledger, file) > Held(l, file) + more)
  {
    var to := BlockFile(dir, e.hash);
    SwitchHolds(l, to, io, file);
    var (switched, ok) := l.SwitchTo(to, io);
    if ok {
      AppendHolds(switched, e, file);
      FillHolds(switched.Append(e), io, file);
    } else {
      FlushHolds(l, io, file);
    }
  }

  lemma StepHolds(dir: bytes, l: Ledger, log: seq<TypedEntry>, op: Op, file: bytes)
    ensures var (l', log') := Step(dir, l, log, op);
            && Held(l', file) - |SubLog(dir, log', file)| >= Held(l, file) - |SubLog(dir, log, file)|
            && (Repeats(dir, l, op) && l.pending.Some? && file == l.pending.value.file ==>
                  Held(l', file) - |SubLog(dir, log', file)| > Held(l, file) - |SubLog(dir, log, file)|)
  {
    match op
    case OpAdd(e, io) =>
      AddHolds(dir, l, e, io, file);
      SubLogSnoc(dir, log, e, file);
    case OpClose(io) =>
      if l.HasPending() { FlushHolds(l, io, file); }
  }

  /** An addition that does not repeat moves entries about and appends its own. */
  lemma AddMoves(dir: bytes, l: Ledger, e: TypedEntry, io: FlushIo, file: bytes)
    requires !Repeats(dir, l, OpAdd(e, io))
    ensures var a := Add(dir, l, e, io);
            a.ledger.Stored(file) + a.ledger.Pending(file) ==
            l.Stored(file) + l.Pending(file) + if a.logged && BlockFile(dir, e.hash) == file then [e] else []
  {
    var to := BlockFile(dir, e.hash);
    SwitchMoves(l, to, io, file);
    var (switched, ok) := l.SwitchTo(to, io);
    if ok {
      AppendMoves(switched, e, file);
      FillMoves(switched.Append(e), io, file);
    }
  }

  /** One call keeps each entry once if and only if it is not a repeating one. */
  lemma StepKeepsOnce(dir: bytes, l: Ledger, log: seq<TypedEntry>, op: Op)
    requires Once(dir, l, log)
    ensures Once(dir, Step(dir, l, log, op).0, Step(dir, l, log, op).1) <==> !Repeats(dir, l, op)
  {
    var (l', log') := Step(dir, l, log, op);
    if Repeats(dir, l, op) {
      var file := l.pending.value.file;
      StepHolds(dir, l, log, op, file);
      assert |l.Stored(file) + l.Pending(file)| == |SubLog(dir, log, file)|;
      assert |l'.Stored(file) + l'.Pending(file)| != |SubLog(dir, log', file)|;
    } else {
      forall file ensures l'.Stored(file) + l'.Pending(file) == SubLog(dir, log', file) {
        assert l.Stored(file) + l.Pending(file) == SubLog(dir, log, file);
        if op.OpAdd? {
          AddMoves(dir, l, op.e, op.io, file);
          SubLogSnoc(dir, log, op.e, file);
        }
      }
    }
  }

  function Excess(dir: bytes, ops: seq<Op>, file: bytes): int {
    Held(Play(dir, ops).0, file) - |SubLog(dir, Play(dir, ops).1, file)|
  }

  lemma {:induction false} ExcessGrows(dir: bytes, ops: seq<Op>, n: nat, file: bytes)
    requires n <= |ops|
    ensures Excess(dir, ops, file) >= Excess(dir, ops[..n], file) >= 0
  {
    if ops == [] {
      assert ops[..n] == [];
    } else {
      var before := ops[..|ops| - 1];
      StepHolds(dir, Play(dir, before).0, Play(dir, before).1, ops[|ops| - 1], file);
      ExcessGrows(dir, before, if n < |ops| then n else 0, file);
      assert ops[..n] == if n < |ops| then before[..n] else ops;
    }
  }

  lemma {:induction false} UnrepeatedRunIsOnce(dir: bytes, ops: seq<Op>)
    requires !Repeated(dir, ops)
    ensures Once(dir, Play(dir, ops).0, Play(dir, ops).1)
  {
    if ops == [] {
    } else {
      var before := ops[..|ops| - 1];
      assert !Repeated(dir, before) by {
        forall i | 0 <= i < |before| ensures before[..i] == ops[..i] && before[i] == ops[i] {}
      }
      UnrepeatedRunIsOnce(dir, before);
      StepKeepsOnce(dir, Play(dir, before).0, Play(dir, before).1, ops[|ops| - 1]);
    }
  }

  lemma RepeatExceeds(dir: bytes, ops: seq<Op>, op: Op) returns (file: bytes)
    requires Repeats(dir, Play(dir, ops).0, op)
    ensures Excess(dir, ops + [op], file) > Excess(dir, ops, file)
  {
    var (l, log) := Play(dir, ops);
    file := l.pending.value.file;
    StepHolds(dir, l, log, op, file);
    assert (ops + [op])[..|ops|] == ops;
  }

  lemma InitAndLast(ops: seq<Op>)
    requires ops != []
    ensures ops[..|ops| - 1] + [ops[|ops| - 1]] == ops
  {}

  lemma LastStepGrows(dir: bytes, ops: seq<Op>, file: bytes)
    requires ops != []
    ensures Excess(dir, ops, file) >= Excess(dir, ops[..|ops| - 1], file)
  {
    var (l, log) := Play(dir, ops[..|ops| - 1]);
    StepHolds(dir, l, log, ops[|ops| - 1], file);
  }

  lemma {:induction false} RepeatedRunExceeds(dir: bytes, ops: seq<Op>, i: nat) returns (file: bytes)
    requires i < |ops| && Repeats(dir, Play(dir, ops[..i]).0, ops[i])
    ensures Excess(dir, ops, file) > 0
  {
    var before := ops[..|ops| - 1];
    if i == |ops| - 1 {
      InitAndLast(ops);
      file := RepeatExceeds(dir, before, ops[i]);
      ExcessGrows(dir, before, 0, file);
    } else {
      assert before[..i] == ops[..i];
      file := RepeatedRunExceeds(dir, before, i);
      LastStepGrows(dir, ops, file);
    }
  }

  /** After any additions and closes with any failures, each logged entry is held
      once, in order, if and only if no call of the run was a repeating one. */
  lemma RunHoldsOnce(dir: bytes, ops: seq<Op>)
    ensures Once(dir, Play(dir, ops).0, Play(dir, ops).1) <==> !Repeated(dir, ops)
  {
    if Repeated(dir, ops) {
      var i :| 0 <= i < |ops| && Repeats(dir, Play(dir, ops[..i]).0, ops[i]);
      var file := RepeatedRunExceeds(dir, ops, i);
      var (l, log) := Play(dir, ops);
      assert |l.Stored(file) + l.Pending(file)| > |SubLog(dir, log, file)|;
    } else {
      UnrepeatedRunIsOnce(dir, ops);
    }
  }

  /** The block files themselves hold each logged entry once, in order. */
  ghost predicate WrittenOnce(dir: bytes, l: Ledger, log: seq<TypedEntry>) {
    forall file :: l.Stored(file) == SubLog(dir, log, file)
  }

  lemma CloseWritesAll(dir: bytes, l: Ledger, log: seq<TypedEntry>, io: FlushIo)
    requires CloseLedger(l, io).1
    ensures WrittenOnce(dir, CloseLedger(l, io).0, log) <==> Once(dir, l, log)
  {
    var l' := CloseLedger(l, io).0;
    forall file ensures l'.Stored(file) == l.Stored(file) + l.Pending(file) {
      if l.HasPending() { FlushMoves(l, io, file); }
    }
  }

  /** After a last close without error so do the files, under the same condition
      on the run before it. */
  lemma CloseWritesOnce(dir: bytes, ops: seq<Op>, io: FlushIo)
    requires CloseLedger(Play(dir, ops).0, io).1
    ensures WrittenOnce(dir, CloseLedger(Play(dir, ops).0, io).0, Play(dir, ops).1) <==> !Repeated(dir, ops)
  {
    RunHoldsOnce(dir, ops);
    CloseWritesAll(dir, Play(dir, ops).0, Play(dir, ops).1, io);
  }

  /** GetChunkMetadata on a set of block files; a missing file is an error like any other miss. */
  function Lookup(dir: bytes, files: map<bytes, bytes>, hash: bytes): SearchResult {
    var file := BlockFile(dir, hash);
    if file !in files then NotFound else Search(files[file], hash)
  }

  function FilesOf(stored: map<bytes, seq<TypedEntry>>): map<bytes, bytes> {
    map file | file in stored :: SerializeAll(stored[file])
  }

  ghost predicate Settled(dir: bytes, l: Ledger, log: seq<TypedEntry>) {
    forall h: bytes :: FirstMatch(l.Stored(BlockFile(dir, h)), h) == FirstMatch(log, h)
  }

  /** A Close that reports no error leaves nothing that only the pending block knows. */
  lemma CloseSettles(dir: bytes, l: Ledger, log: seq<TypedEntry>, io: FlushIo)
    requires Agrees(dir, l, log)
    ensures Agrees(dir, CloseLedger(l, io).0, log)
    ensures CloseLedger(l, io).1 ==> Settled(dir, CloseLedger(l, io).0, log)
  {
    if l.HasPending() {
      FlushKeepsAgreement(dir, l, log, io);
      var done := l.Flush(io).0.(pending := None);
      forall h: bytes | l.Flush(io).1
        ensures FirstMatch(l.Flush(io).0.Stored(BlockFile(dir, h)), h) == FirstMatch(log, h)
      {
        var file := BlockFile(dir, h);
        assert done.Stored(file) + done.Pending(file) == l.Flush(io).0.Stored(file);
      }
    } else {
      forall h: bytes ensures FirstMatch(l.Stored(BlockFile(dir, h)), h) == FirstMatch(log, h) {
        assert l.Stored(BlockFile(dir, h)) + l.Pending(BlockFile(dir, h)) == l.Stored(BlockFile(dir, h));
      }
    }
  }

  /** Nothing is in a file or pending that was not logged. */
  ghost predicate FromLog(l: Ledger, log: seq<TypedEntry>) {
    && (forall file, i | file in l.stored && 0 <= i < |l.stored[file]| :: l.stored[file][i] in log)
    && (l.pending.Some? ==> forall i | 0 <= i < |l.pending.value.entries| :: l.pending.value.entries[i] in log)
  }

  lemma FlushKeepsFromLog(l: Ledger, log: seq<TypedEntry>, io: FlushIo)
    requires l.pending.Some? && FromLog(l, log)
    ensures FromLog(l.Flush(io).0, log)
  {}

  lemma AddKeepsFromLog(dir: bytes, l: Ledger, log: seq<TypedEntry>, e: TypedEntry, io: FlushIo)
    requires FromLog(l, log)
    ensures FromLog(Add(dir, l, e, io).ledger, if Add(dir, l, e, io).logged then log + [e] else log)
  {
    if l.HasPending() { FlushKeepsFromLog(l, log, io); }
    var (switched, ok) := l.SwitchTo(BlockFile(dir, e.hash), io);
    assert FromLog(switched, log);
    if ok {
      assert FromLog(switched.Append(e), log + [e]);
      FlushKeepsFromLog(switched.Append(e), log + [e], io);
    }
  }

  lemma {:induction false} RunsFromLog(dir: bytes, ops: seq<Op>)
    ensures FromLog(Play(dir, ops).0, Play(dir, ops).1)
  {
    if ops != [] {
      RunsFromLog(dir, ops[..|ops| - 1]);
      var (l, log) := Play(dir, ops[..|ops| - 1]);
      match ops[|ops| - 1]
      case OpAdd(e, io) => AddKeepsFromLog(dir, l, log, e, io);
      case OpClose(io) => if l.HasPending() { FlushKeepsFromLog(l, log, io); }
    }
  }

  lemma {:induction false} PlayedFits(dir: bytes, ops: seq<Op>)
    requires forall i | 0 <= i < |ops| && ops[i].OpAdd? :: ops[i].e.Fits()
    ensures AllFit(Play(dir, ops).1)
  {
    if ops != [] { PlayedFits(dir, ops[..|ops| - 1]); }
  }

  lemma LookupIsFirstLogged(dir: bytes, l: Ledger, log: seq<TypedEntry>, hash: bytes)
    requires Settled(dir, l, log) && FromLog(l, log) && AllFit(log)
    ensures Lookup(dir, FilesOf(l.stored), hash) == Answer(FirstMatch(log, hash))
  {
    var file := BlockFile(dir, hash);
    if file in l.stored {
      var es := l.stored[file];
      forall i | 0 <= i < |es| ensures es[i].Fits() { assert es[i] in log; }
      SearchIsFirstMatch(es, hash);
    }
  }

  /** The block index refines its log: after any additions, failed flushes and
      closes, a last Close without an error makes every lookup return the first
      entry logged for the hash, and fail when there is none. */
  lemma IndexRefinesLog(dir: bytes, ops: seq<Op>, io: FlushIo, hash: bytes)
    requires forall i | 0 <= i < |ops| && ops[i].OpAdd? :: ops[i].e.Fits()
    requires CloseLedger(Play(dir, ops).0, io).1
    ensures Lookup(dir, FilesOf(CloseLedger(Play(dir, ops).0, io).0.stored), hash) ==
            Answer(FirstMatch(Play(dir, ops).1, hash))
  {
    var (l, log) := Play(dir, ops);
    RunsAgree(dir, ops);
    RunsFromLog(dir, ops);
    PlayedFits(dir, ops);
    CloseSettles(dir, l, log, io);
    if l.HasPending() { FlushKeepsFromLog(l, log, io); }
    LookupIsFirstLogged(dir, CloseLedger(l, io).0, log, hash);
  }
}
