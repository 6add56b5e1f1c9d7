/** Container files on disk (lib/fio/container.go): their names, how a path
    issued for a .blob finds the .blob.zst that replaced it, and what a read
    of an (offset, size) window returns. */
module ContainerFiles {
  import opened Basics

  const BLOBEXT: bytes := [46, 98, 108, 111, 98]                        // .blob
  const BLOBZSTEXT: bytes := [46, 98, 108, 111, 98, 46, 122, 115, 116]  // .blob.zst
  const TMPEXT: bytes := [46, 116, 109, 112]                            // .tmp

  type Files = map<bytes, bytes>

  predicate HasSuffix(s: bytes, suffix: bytes) {
    |suffix| <= |s| && s[|s| - |suffix|..] == suffix
  }

  function TrimSuffix(s: bytes, suffix: bytes): bytes {
    if HasSuffix(s, suffix) then s[..|s| - |suffix|] else s
  }

  function CompressedPath(path: bytes): bytes {
    TrimSuffix(path, BLOBEXT) + BLOBZSTEXT
  }

  function TempPath(path: bytes): bytes {
    CompressedPath(path) + TMPEXT
  }

  /** createNewContainer's path for a base name. */
  function BlobPath(base: bytes): bytes {
    base + BLOBEXT
  }

  lemma BlobNames(base: bytes)
    ensures HasSuffix(BlobPath(base), BLOBEXT) && !HasSuffix(BlobPath(base), BLOBZSTEXT)
    ensures CompressedPath(BlobPath(base)) == base + BLOBZSTEXT
    ensures HasSuffix(CompressedPath(BlobPath(base)), BLOBZSTEXT)
  {
    var p := BlobPath(base);
    assert p[|base|..] == BLOBEXT && p[..|base|] == base;
    assert p[|p| - 1] == 98 && BLOBZSTEXT[8] == 116;
    if |BLOBZSTEXT| <= |p| { assert p[|p| - 9..][8] == p[|p| - 1]; }
    assert (base + BLOBZSTEXT)[|base|..] == BLOBZSTEXT;
  }

  lemma CompressedIsLonger(path: bytes)
    ensures |path| < |CompressedPath(path)| < |TempPath(path)|
    ensures HasSuffix(CompressedPath(path), BLOBZSTEXT)
  {
    assert CompressedPath(path)[|TrimSuffix(path, BLOBEXT)|..] == BLOBZSTEXT;
  }

  /** The blob, compressed and temporary names of different containers never meet. */
  lemma NamesApart(a: bytes, b: bytes)
    ensures BlobPath(a) != CompressedPath(BlobPath(b))
    ensures BlobPath(a) != TempPath(BlobPath(b))
    ensures CompressedPath(BlobPath(a)) != TempPath(BlobPath(b))
    ensures a != b ==> BlobPath(a) != BlobPath(b) && CompressedPath(BlobPath(a)) != CompressedPath(BlobPath(b))
  {
    BlobNames(a);
    BlobNames(b);
    var p, z, t := BlobPath(a), CompressedPath(BlobPath(b)), TempPath(BlobPath(b));
    assert p[|p| - 1] == 98 && z[|z| - 1] == 116 && t[|t| - 1] == 112;
    var za := CompressedPath(BlobPath(a));
    assert za[|za| - 1] == 116;
    assert BlobPath(a)[..|a|] == a && BlobPath(b)[..|b|] == b;
    assert za[..|a|] == a && z[..|b|] == b;
  }

  /** resolveContainerPath. */
  function Resolve(files: Files, path: bytes): bytes {
    if HasSuffix(path, BLOBZSTEXT) then path
    else if path !in files && CompressedPath(path) in files then CompressedPath(path)
    else path
  }

  /** The compressed form stands alone: no blob, and no temporary file left over. */
  ghost predicate CompressedAlone(files: Files, path: bytes) {
    path !in files && CompressedPath(path) in files && TempPath(path) !in files
  }

  /** The uncompressed bytes of the container a path leads to. */
  function Content(files: Files, zip: Codec, path: bytes): Option<bytes> {
    var p := Resolve(files, path);
    if p !in files then None
    else if HasSuffix(p, BLOBZSTEXT) then zip.dec(files[p])
    else Some(files[p])
  }

  datatype ReadResult = Read(data: bytes) | OutOfRange | Failed

  /** The window of a container, as extractEncodedChunk cuts it from memory. */
  function Window(content: bytes, offset: int, size: int): ReadResult
    requires 0 <= offset && 0 <= size
  {
    if offset + size > |content| then OutOfRange else Read(content[offset..offset + size])
  }

  /** os.File.ReadAt: an empty buffer is filled whatever the offset. */
  function ReadAt(content: bytes, offset: int, size: int): ReadResult
    requires 0 <= offset && 0 <= size
  {
    if size == 0 then Read([]) else Window(content, offset, size)
  }

  /** ReadChunkFromContainer up to decoding, with the cache switched off. */
  function ReadEncoded(files: Files, zip: Codec, path: bytes, offset: int, size: int): ReadResult {
    if size < 0 || offset < 0 then Failed
    else
      var p := Resolve(files, path);
      if p !in files then Failed
      else if HasSuffix(p, BLOBZSTEXT) then
        match zip.dec(files[p])
        case None => Failed
        case Some(content) => Window(content, offset, size)
      else ReadAt(files[p], offset, size)
  }

  function Decode(codec: Codec, r: ReadResult): Option<bytes> {
    if r.Read? then codec.dec(r.data) else None
  }

  /** ReadChunkFromContainer. */
  function ReadChunk(files: Files, zip: Codec, codec: Codec, path: bytes, offset: int, size: int): Option<bytes> {
    Decode(codec, ReadEncoded(files, zip, path, offset, size))
  }

  /** A window inside the container's content reads the same in either format. */
  lemma ReadsContent(files: Files, zip: Codec, path: bytes, offset: nat, size: nat)
    requires Content(files, zip, path).Some?
    requires offset + size <= |Content(files, zip, path).value|
    ensures ReadEncoded(files, zip, path, offset, size) ==
            Read(Content(files, zip, path).value[offset..offset + size])
  {
    if size == 0 {
      assert Content(files, zip, path).value[offset..offset] == [];
    }
  }

  /** g differs from f at most around one path. */
  ghost predicate SameElsewhere(f: Files, g: Files, path: bytes) {
    forall q | q != path && q != CompressedPath(path) && q != TempPath(path) ::
      (q in g <==> q in f) && (q in f ==> g[q] == f[q])
  }

  /** One directory operation: a file written (which creates it), removed or renamed. */
  datatype FileOp =
    | WriteFile(path: bytes, data: bytes)
    | RemoveFile(path: bytes)
    | RenameFile(from: bytes, to: bytes)

  function Perform(f: Files, op: FileOp): Files {
    match op
    case WriteFile(path, data) => f[path := data]
    case RemoveFile(path) => f - {path}
    case RenameFile(from, to) => if from in f then (f - {from})[to := f[from]] else f
  }

  ghost predicate OneOp(f: Files, g: Files) {
    exists op :: g == Perform(f, op)
  }

  /** Where a trace of directories leads. */
  function After(f: Files, trace: seq<Files>): Files {
    if trace == [] then f else trace[|trace| - 1]
  }

  /** Every directory of the trace is one operation away from the one before it; the last is g. */
  ghost predicate Linked(f: Files, trace: seq<Files>, g: Files) {
    (forall i | 0 <= i < |trace| :: OneOp(([f] + trace)[i], trace[i])) && After(f, trace) == g
  }

  lemma LinkedSnoc(f: Files, trace: seq<Files>, op: FileOp)
    requires Linked(f, trace, After(f, trace))
    ensures var g := Perform(After(f, trace), op); Linked(f, trace + [g], g)
  {
    var g := Perform(After(f, trace), op);
    forall i | 0 <= i < |trace| + 1 ensures OneOp(([f] + (trace + [g]))[i], (trace + [g])[i]) {
      if i < |trace| { assert OneOp(([f] + trace)[i], trace[i]); }
    }
  }

  lemma LinkedJoin(f: Files, head: seq<Files>, tail: seq<Files>)
    requires Linked(f, head, After(f, head)) && Linked(After(f, head), tail, After(After(f, head), tail))
    ensures Linked(f, head + tail, After(After(f, head), tail))
  {
    var all := head + tail;
    forall i | 0 <= i < |all| ensures OneOp(([f] + all)[i], all[i]) {
      if i < |head| { assert OneOp(([f] + head)[i], head[i]); }
      else {
        var g := After(f, head);
        assert OneOp(([g] + tail)[i - |head|], tail[i - |head|]);
      }
    }
  }

  /** What every step of a compression keeps: only files around one path change,
      and reading through that path gives the content it gave before. */
  ghost predicate SafeStep(f: Files, g: Files, zip: Codec, path: bytes) {
    Content(g, zip, path) == Content(f, zip, path) && SameElsewhere(f, g, path)
  }

  ghost predicate AllSafe(f: Files, trace: seq<Files>, zip: Codec, path: bytes) {
    forall i | 0 <= i < |trace| :: SafeStep(f, trace[i], zip, path)
  }

  /** So no other container notices the step. */
  lemma StepUnseenElsewhere(f: Files, g: Files, zip: Codec, base: bytes, other: bytes)
    requires SafeStep(f, g, zip, BlobPath(base))
    ensures Content(g, zip, BlobPath(other)) == Content(f, zip, BlobPath(other))
    ensures base != other && BlobPath(other) !in f && CompressedPath(BlobPath(other)) !in f ==>
              BlobPath(other) !in g && CompressedPath(BlobPath(other)) !in g
  {
    if base != other {
      NamesApart(base, other);
      NamesApart(other, base);
    }
  }

  /** The blob itself is untouched so far. */
  ghost predicate Shielded(f: Files, g: Files, path: bytes) {
    path in f && path in g && g[path] == f[path] && SameElsewhere(f, g, path)
  }

  lemma ShieldedIsSafe(f: Files, g: Files, zip: Codec, path: bytes)
    requires Shielded(f, g, path)
    ensures SafeStep(f, g, zip, path)
  {}

  /** The four changes made while the blob still stands. */
  lemma ShieldedSteps(f: Files, g: Files, path: bytes, data: bytes)
    requires Shielded(f, g, path)
    ensures Shielded(f, g[TempPath(path) := data], path)
    ensures Shielded(f, g - {TempPath(path)}, path)
    ensures Shielded(f, g - {CompressedPath(path)}, path)
    ensures Shielded(f, (g - {TempPath(path)})[CompressedPath(path) := data], path)
  {
    CompressedIsLonger(path);
  }

  /** The last change: the blob goes once its compressed form stands in for it. */
  lemma ReplacedIsSafe(f: Files, g: Files, zip: Codec, path: bytes)
    requires Shielded(f, g, path) && !HasSuffix(path, BLOBZSTEXT)
    requires CompressedPath(path) in g && zip.dec(g[CompressedPath(path)]) == Some(f[path])
    ensures SafeStep(f, g - {path}, zip, path)
  {
    CompressedIsLonger(path);
  }
}
