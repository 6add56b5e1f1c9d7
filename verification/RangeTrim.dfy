/** Putting a byte range back together from aligned chunks: GetChonkData's
    trimming (lib/dbio/dbio.go) inside restoreData's loop (lib/store/restore.go). */
module RangeTrim {
  import opened Basics

  /** A Go byte slice: what it shows, and the bytes between its length and its capacity. */
  datatype Slice = Slice(shown: bytes, spare: bytes) {
    /** s[lo:], or None for the run-time panic. */
    function From(lo: int): Option<Slice> {
      if 0 <= lo <= |shown| then Some(Slice(shown[lo..], spare)) else None
    }

    /** s[:hi], which may reach into the spare capacity. */
    function UpTo(hi: int): Option<Slice> {
      if 0 <= hi <= |shown| + |spare| then Some(Slice((shown + spare)[..hi], (shown + spare)[hi..])) else None
    }
  }

  lemma MultipleHasNoRest(q: nat, chunk: nat)
    requires chunk > 0
    ensures (q * chunk) % chunk == 0
  {
    var x := q * chunk;
    var d := q - x / chunk;
    assert d * chunk == x % chunk;
  }

  lemma RoundedDown(start: nat, chunk: nat)
    requires chunk > 0
    ensures (start / chunk) * chunk <= start < (start / chunk) * chunk + chunk
    ensures ((start / chunk) * chunk) % chunk == 0
  {
    var q := start / chunk;
    assert start == chunk * q + start % chunk;
    MultipleHasNoRest(q, chunk);
  }

  /** GetDBStartOffset. */
  function AlignDown(start: nat, chunk: nat): (a: nat)
    requires chunk > 0
    ensures a <= start < a + chunk && a % chunk == 0
  {
    if start == 0 then 0
    else
      RoundedDown(start, chunk);
      (start / chunk) * chunk
  }

  lemma MultipleDivides(q: nat, chunk: nat)
    requires chunk > 0
    ensures (q * chunk) / chunk == q
  {
    MultipleHasNoRest(q, chunk);
    var d := q - (q * chunk) / chunk;
    assert d * chunk == 0;
  }

  /** The stored chunk of an evidence file that starts at an index. */
  function ChunkAt(evidence: bytes, chunk: nat, index: nat): bytes
    requires index <= |evidence|
  {
    evidence[index..Min(index + chunk, |evidence|)]
  }

  /** GetChonkData on the slice GetChonkNode returned; None is a slice-bounds panic. */
  function Trim(node: Slice, chunk: nat, index: int, start: int, size: int, dbstart: int, end: int): Option<Slice> {
    var front := if index == dbstart then node.From(start - index) else Some(node);
    match front
    case None => None
    case Some(data) =>
      if size < |data.shown| then data.UpTo(size)
      else if index + chunk > end then data.UpTo(end - index)
      else Some(data)
  }

  function Shown(s: Option<Slice>): Option<bytes> {
    match s
    case None => None
    case Some(slice) => Some(slice.shown)
  }

  /** The spare capacity behind the chunk read at an index. */
  function SpareAt(spare: int -> bytes, index: int): bytes {
    spare(index)
  }

  /** A restore: which range, in chunks of what size, from which chunk on; spare
      gives the capacity each chunk read happens to have. */
  datatype Plan = Plan(chunk: nat, start: nat, size: nat, dbstart: nat, spare: int -> bytes) {
    predicate Ok(evidence: bytes) {
      chunk > 0 && start + size <= |evidence| && dbstart <= start < dbstart + chunk
    }

    function End(): nat {
      start + size
    }

    /** What the restore loop writes of the data read at an index. */
    function Cut(data: bytes, index: nat): Option<bytes> {
      Shown(Trim(Slice(data, SpareAt(spare, index)), chunk, index, start, size, dbstart, End()))
    }

    /** What it writes for the file's own chunk there. */
    function PieceAt(evidence: bytes, index: nat): Option<bytes>
      requires index <= |evidence|
    {
      Cut(ChunkAt(evidence, chunk, index), index)
    }

    /** What it writes from an index on. */
    function From(evidence: bytes, index: nat): Option<bytes>
      requires Ok(evidence)
      decreases End() - index
    {
      if index >= End() then Some([])
      else match PieceAt(evidence, index)
        case None => None
        case Some(piece) =>
          match From(evidence, index + chunk)
          case None => None
          case Some(rest) => Some(piece + rest)
    }

    /** What the whole restore writes. */
    function All(evidence: bytes): Option<bytes>
      requires Ok(evidence)
    {
      From(evidence, dbstart)
    }

    /** The range ends with the file inside the first chunk, but does not start with it. */
    predicate EndsInFirstChunk(n: nat) {
      start != dbstart && End() == n && End() < dbstart + chunk
    }

    /** A short range runs into a second chunk that is longer than the range. */
    predicate SecondChunkTooLong(n: nat) {
      start != dbstart && size < chunk && End() > dbstart + chunk && size < n - (dbstart + chunk)
    }
  }

  function PlanFor(chunk: nat, start: nat, size: nat, spare: int -> bytes): (p: Plan)
    requires chunk > 0
    ensures forall evidence: bytes | start + size <= |evidence| :: p.Ok(evidence)
  {
    Plan(chunk, start, size, AlignDown(start, chunk), spare)
  }

  /** The two situations in which the trimming goes wrong, told from the numbers alone. */
  predicate Exceptional(n: nat, chunk: nat, start: nat, size: nat)
    requires chunk > 0
  {
    var dbstart := AlignDown(start, chunk);
    var end := start + size;
    && start != dbstart
    && ((end == n && end < dbstart + chunk)
        || (size < chunk && end > dbstart + chunk && size < n - (dbstart + chunk)))
  }

  /** The loop writes nothing and needs nothing. */
  predicate EmptyLoop(chunk: nat, start: nat, size: nat)
    requires chunk > 0
  {
    size == 0 && start % chunk == 0
  }

  lemma Join(s: bytes, lo: nat, mid: nat, hi: nat)
    requires lo <= mid <= hi <= |s|
    ensures s[lo..mid] + s[mid..hi] == s[lo..hi]
    ensures s[hi..hi] == []
  {}

  /** Behind the first chunk a piece is right as long as size does not cut it short. */
  lemma LaterPiece(p: Plan, evidence: bytes, index: nat)
    requires p.Ok(evidence) && p.dbstart < index < p.End() && p.size >= Min(p.chunk, |evidence| - index)
    ensures p.PieceAt(evidence, index) == Some(evidence[index..Min(index + p.chunk, p.End())])
  {
    var data := ChunkAt(evidence, p.chunk, index);
    if index + p.chunk > p.End() {
      assert (data + SpareAt(p.spare, index))[..p.End() - index] == evidence[index..p.End()];
    }
  }

  lemma {:induction false} LaterPieces(p: Plan, evidence: bytes, index: nat)
    requires p.Ok(evidence) && p.dbstart < index
    requires index < p.End() ==> p.size >= Min(p.chunk, |evidence| - index)
    ensures p.From(evidence, index) == Some(evidence[Min(index, p.End())..p.End()])
    decreases p.End() - index
  {
    if index < p.End() {
      LaterPiece(p, evidence, index);
      LaterPieces(p, evidence, index + p.chunk);
    }
    Join(evidence, Min(index, p.End()), Min(index + p.chunk, p.End()), p.End());
  }

  /** The first piece is cut at the front by the offset into the chunk, and at
      the back by whichever test fires. */
  lemma FirstPiece(p: Plan, evidence: bytes)
    requires p.Ok(evidence)
    ensures var piece := p.PieceAt(evidence, p.dbstart);
            if p.EndsInFirstChunk(|evidence|) then piece.None? || |piece.value| > p.size
            else piece == Some(evidence[p.start..Min(p.dbstart + p.chunk, p.End())])
  {
    var data := ChunkAt(evidence, p.chunk, p.dbstart)[p.start - p.dbstart..];
    var spare := SpareAt(p.spare, p.dbstart);
    assert data == evidence[p.start..Min(p.dbstart + p.chunk, |evidence|)];
    if p.size < |data| {
      assert (data + spare)[..p.size] == evidence[p.start..p.End()];
    } else if p.dbstart + p.chunk > p.End() && p.dbstart == p.start {
      assert (data + spare)[..p.End() - p.dbstart] == data;
    }
  }

  lemma SecondPieceTooLong(p: Plan, evidence: bytes)
    requires p.Ok(evidence) && p.SecondChunkTooLong(|evidence|)
    ensures p.From(evidence, p.dbstart + p.chunk).Some? && |p.From(evidence, p.dbstart + p.chunk).value| == p.size
  {
    var b := p.dbstart + p.chunk;
    var data := ChunkAt(evidence, p.chunk, b);
    assert |(data + SpareAt(p.spare, b))[..p.size]| == p.size;
    assert p.From(evidence, b + p.chunk) == Some([]);
  }

  lemma RegularCase(p: Plan, evidence: bytes)
    requires p.Ok(evidence) && !p.EndsInFirstChunk(|evidence|) && !p.SecondChunkTooLong(|evidence|)
    ensures p.All(evidence) == Some(evidence[p.start..p.End()])
  {
    if p.dbstart < p.End() {
      FirstPiece(p, evidence);
      LaterPieces(p, evidence, p.dbstart + p.chunk);
    }
    Join(evidence, p.start, Min(p.dbstart + p.chunk, p.End()), p.End());
  }

  /** In the exceptional cases the output is a panic or longer than the range. */
  lemma ExceptionalCases(p: Plan, evidence: bytes)
    requires p.Ok(evidence) && (p.EndsInFirstChunk(|evidence|) || p.SecondChunkTooLong(|evidence|))
    ensures p.All(evidence).None? || |p.All(evidence).value| > p.size
  {
    FirstPiece(p, evidence);
    if !p.EndsInFirstChunk(|evidence|) { SecondPieceTooLong(p, evidence); }
  }

  /** Restoring a range gives exactly the evidence bytes of the range if and
      only if neither exceptional case applies, whatever spare capacity the
      chunk reads came with. */
  lemma RangeIsExact(evidence: bytes, chunk: nat, start: nat, size: nat, spare: int -> bytes)
    requires chunk > 0 && start + size <= |evidence|
    ensures PlanFor(chunk, start, size, spare).All(evidence) == Some(evidence[start..start + size])
            <==> !Exceptional(|evidence|, chunk, start, size)
  {
    var p, n := PlanFor(chunk, start, size, spare), |evidence|;
    if p.EndsInFirstChunk(n) || p.SecondChunkTooLong(n) {
      ExceptionalCases(p, evidence);
    } else {
      RegularCase(p, evidence);
    }
  }

  /** In particular nothing goes wrong for aligned starts or ranges of at least a chunk. */
  lemma AlignedOrLong(n: nat, chunk: nat, start: nat, size: nat)
    requires chunk > 0 && (start % chunk == 0 || size >= chunk)
    ensures !Exceptional(n, chunk, start, size)
  {
    assert start == (start / chunk) * chunk + start % chunk;
  }

  const DEFAULT_CHUNK: nat := 262144

  /** A file of 255 KB in the first chunk of a 255.5 KB image that it ends: its
      restore panics or writes more than the file. */
  lemma LastFileOfSmallImage(image: bytes, spare: int -> bytes)
    requires |image| == 261632
    ensures PlanFor(DEFAULT_CHUNK, 512, 261120, spare).All(image) != Some(image[512..261632])
  {
    RangeIsExact(image, DEFAULT_CHUNK, 512, 261120, spare);
  }

  /** A file of 1 KB across the first chunk boundary of a 1 MB image: the same. */
  lemma ShortFileAcrossBoundary(image: bytes, spare: int -> bytes)
    requires |image| == 1048576
    ensures PlanFor(DEFAULT_CHUNK, 261632, 1024, spare).All(image) != Some(image[261632..262656])
  {
    RangeIsExact(image, DEFAULT_CHUNK, 261632, 1024, spare);
  }

  lemma WholeFileIsExact(p: Plan, evidence: bytes)
    requires p.Ok(evidence) && p.start == 0 && p.dbstart == 0 && p.size == |evidence|
    ensures p.All(evidence) == Some(evidence)
  {
    RegularCase(p, evidence);
    assert evidence[0..|evidence|] == evidence;
  }

  // ----- the loop over pieces -----

  function Prepend(dst: bytes, rest: Option<bytes>): Option<bytes> {
    match rest
    case None => None
    case Some(more) => Some(dst + more)
  }

  /** The pieces at index, index + chunk, ... below end, one after the other. */
  function Output(pieces: nat -> Option<bytes>, chunk: nat, end: nat, index: nat): Option<bytes>
    requires chunk > 0
    decreases end - index
  {
    if index >= end then Some([])
    else
      match pieces(index)
      case None => None
      case Some(piece) => Prepend(piece, Output(pieces, chunk, end, index + chunk))
  }

  function Times(k: nat, chunk: nat): nat {
    k * chunk
  }

  /** An index the chunking loop visits. */
  ghost predicate Aligned(index: nat, chunk: nat) {
    exists k: nat :: Times(k, chunk) == index
  }

  lemma DivideOffset(start: nat, chunk: nat) returns (k: nat)
    requires chunk > 0
    ensures k * chunk == AlignDown(start, chunk)
  {
    k := if start == 0 then 0 else start / chunk;
  }

  lemma StartAligned(start: nat, chunk: nat)
    requires chunk > 0
    ensures Aligned(AlignDown(start, chunk), chunk)
  {
    var k := DivideOffset(start, chunk);
    assert Times(k, chunk) == AlignDown(start, chunk);
  }

  lemma NextAligned(index: nat, chunk: nat)
    requires Aligned(index, chunk)
    ensures Aligned(index + chunk, chunk)
  {
    var k: nat :| Times(k, chunk) == index;
    assert Times(k + 1, chunk) == index + chunk;
  }

  lemma AlignedStart(start: nat, chunk: nat)
    requires chunk > 0
    ensures start % chunk == 0 <==> AlignDown(start, chunk) == start
  {
    assert start == (start / chunk) * chunk + start % chunk;
  }

  /** What is written, followed by what is still to come, is the whole output. */
  predicate OnTrack(pieces: nat -> Option<bytes>, chunk: nat, end: nat, start: nat, dst: bytes, index: nat)
    requires chunk > 0
  {
    Output(pieces, chunk, end, start) == Prepend(dst, Output(pieces, chunk, end, index))
  }

  lemma NextPiece(pieces: nat -> Option<bytes>, chunk: nat, end: nat, start: nat, dst: bytes, index: nat)
    requires chunk > 0 && index < end && OnTrack(pieces, chunk, end, start, dst, index)
    ensures pieces(index).None? ==> Output(pieces, chunk, end, start) == None
    ensures pieces(index).Some? ==> OnTrack(pieces, chunk, end, start, dst + pieces(index).value, index + chunk)
  {
    var rest := Output(pieces, chunk, end, index + chunk);
    if pieces(index).Some? && rest.Some? {
      assert dst + (pieces(index).value + rest.value) == dst + pieces(index).value + rest.value;
    }
  }

  lemma TrackEnds(pieces: nat -> Option<bytes>, chunk: nat, end: nat, start: nat, dst: bytes, index: nat)
    requires chunk > 0
    ensures OnTrack(pieces, chunk, end, start, [], start)
    ensures index >= end && OnTrack(pieces, chunk, end, start, dst, index) ==>
              Output(pieces, chunk, end, start) == Some(dst)
  {
    var whole := Output(pieces, chunk, end, start);
    if whole.Some? { assert [] + whole.value == whole.value; }
    assert dst + [] == dst;
  }

  /** Pieces that are the plan's make the plan's output. */
  lemma {:induction false} OutputOfPlan(pieces: nat -> Option<bytes>, evidence: bytes, plan: Plan, index: nat)
    requires plan.Ok(evidence) && Aligned(index, plan.chunk)
    requires forall i: nat {:trigger pieces(i)} | Aligned(i, plan.chunk) && i < plan.End() ::
               pieces(i) == plan.PieceAt(evidence, i)
    ensures Output(pieces, plan.chunk, plan.End(), index) == plan.From(evidence, index)
    decreases plan.End() - index
  {
    if index < plan.End() {
      assert pieces(index) == plan.PieceAt(evidence, index);
      NextAligned(index, plan.chunk);
      OutputOfPlan(pieces, evidence, plan, index + plan.chunk);
    }
  }
}
