/** doWrite as a function on the manager's state (lib/fio/container.go): append
    processed chunks, rotate and compress containers, finalise the last one,
    with any file operation allowed to fail. */
module Containers {
  import opened Basics
  import opened ContainerFiles
  import opened Packing

  const MAX_CONTAINER_SIZE: nat := 0x4000_0000

  /** The operating-system calls a single write, rotation or close can fail in. */
  datatype Op =
    | SyncCurrent | CloseCurrent
    | OpenSource | CreateTemp | NewWriter | CopyAll | FinishWriter | SyncTemp | CloseTemp | CloseSource
    | RemoveStale | RenameTemp | RemoveOriginal | Cleanup
    | MakeDir | OpenNew | AppendChunk

  /** The calls a compression cannot do without. */
  const COMPRESS_OPS: set<Op> := {OpenSource, CreateTemp, NewWriter, CopyAll, FinishWriter, SyncTemp, CloseTemp,
                                  CloseSource, RemoveStale, RenameTemp, RemoveOriginal}

  /** And those that shelving a container cannot do without. */
  const SHELVE_OPS: set<Op> := {SyncCurrent, CloseCurrent} + COMPRESS_OPS

  /** Which calls fail, and what a copy that fails leaves in the temporary file. */
  datatype Faults = Faults(fails: set<Op>, partial: bytes)

  /** currentFile: nil, open for appending, or closed by a rotation that then failed. */
  datatype Handle = NoFile | OpenFile | DeadFile

  /** A WriteRequest, with what goes wrong while it is served. */
  datatype Request = Request(data: bytes, faults: Faults)

  datatype Response = Written(path: bytes, offset: nat, size: nat) | WriteFailed

  /** An issued (path, offset, size), with the chunk it was issued for. */
  datatype Ticket = Ticket(slot: Slot, path: bytes, offset: nat, size: nat, encoded: bytes, data: bytes)

  /** What a manager is built over: base names by container number, distinct up
      to a limit, the container codec and the chunk codec. */
  datatype Env = Env(base: nat -> bytes, limit: nat, zip: Codec, codec: Codec) {
    /** Different numbers have different names, and what either codec encodes it decodes. */
    ghost predicate Assumed() {
      && (forall i: nat, j: nat | i <= limit && j <= limit :: base(i) == base(j) ==> i == j)
      && zip.Faithful() && codec.Faithful()
    }

    function Blob(i: nat): bytes {
      BlobPath(base(i))
    }

    ghost predicate CannotFail() {
      zip.Total() && codec.Total()
    }
  }

  /** The manager's fields, with the packing its containers amount to, the
      number each container's file carries, and the tickets issued. */
  datatype State = State(files: Files, currentContainer: bytes, handle: Handle, currentOffset: nat, containerIndex: nat,
                         ids: seq<nat>, packed: Packed, issued: seq<Ticket>)

  /** NewContainerManager on these files. */
  function Start(files: Files): State {
    State(files, [], NoFile, 0, 0, [], [], [])
  }

  // ----- the code -----

  /** The os.Remove of a failed compression's temporary file, whose own error is ignored. */
  function Dropped(f: Files, path: bytes, faults: Faults): seq<Files> {
    if Cleanup in faults.fails then [] else [f - {TempPath(path)}]
  }

  predicate Copies(zip: Codec, content: bytes, faults: Faults) {
    && NewWriter !in faults.fails && CopyAll !in faults.fails && FinishWriter !in faults.fails
    && zip.enc(content).Some?
  }

  /** The first part of compressContainer, writing the temporary file: the
      directory after each operation, and whether it went well. */
  function WriteTempTrace(zip: Codec, f: Files, path: bytes, faults: Faults): (seq<Files>, bool) {
    if OpenSource in faults.fails || path !in f || CreateTemp in faults.fails then ([], false)
    else
      var copied := Copies(zip, f[path], faults);
      var created := f[TempPath(path) := []];
      var written := created[TempPath(path) := if copied then zip.enc(f[path]).value else faults.partial];
      if !copied || SyncTemp in faults.fails || CloseTemp in faults.fails || CloseSource in faults.fails
      then ([created, written] + Dropped(written, path, faults), false)
      else ([created, written], true)
  }

  /** The second part: move the temporary file into place and drop the blob. */
  function SwapInTrace(f: Files, path: bytes, faults: Faults): (seq<Files>, bool) {
    if RemoveStale in faults.fails then (Dropped(f, path, faults), false)
    else
      var cleared := f - {CompressedPath(path)};
      if RenameTemp in faults.fails then ([cleared] + Dropped(cleared, path, faults), false)
      else
        var moved := Perform(cleared, RenameFile(TempPath(path), CompressedPath(path)));
        if RemoveOriginal in faults.fails then ([cleared, moved], false)
        else ([cleared, moved, moved - {path}], true)
  }

  predicate NothingToCompress(path: bytes) {
    path == [] || HasSuffix(path, BLOBZSTEXT)
  }

  /** compressContainer. */
  function CompressTrace(zip: Codec, f: Files, path: bytes, faults: Faults): (seq<Files>, bool) {
    if NothingToCompress(path) then ([], true)
    else
      var (written, ok) := WriteTempTrace(zip, f, path, faults);
      if !ok then (written, false)
      else
        var (moved, done) := SwapInTrace(After(f, written), path, faults);
        (written + moved, done)
  }

  /** Sync, close and compress the open container. A failed Sync leaves it open. */
  function Shelved(env: Env, s: State, faults: Faults): (State, bool) {
    if SyncCurrent in faults.fails then (s, false)
    else if CloseCurrent in faults.fails then (s.(handle := DeadFile), false)
    else
      var (trace, ok) := CompressTrace(env.zip, s.files, s.currentContainer, faults);
      (s.(files := After(s.files, trace), handle := DeadFile,
          currentContainer := if ok && !NothingToCompress(s.currentContainer) then CompressedPath(s.currentContainer)
                              else s.currentContainer), ok)
  }

  function Opened(env: Env, s: State): State {
    var path := env.Blob(s.containerIndex);
    s.(files := s.files[path := []], currentContainer := path, handle := OpenFile, currentOffset := 0,
       ids := s.ids + [s.containerIndex], packed := s.packed + [[]])
  }

  /** The next number, its directory and its file. */
  function OpenedNext(env: Env, s: State, faults: Faults): (State, bool) {
    var next := s.(containerIndex := s.containerIndex + 1);
    if MakeDir in faults.fails || OpenNew in faults.fails then (next, false) else (Opened(env, next), true)
  }

  /** createNewContainer, where shelving the open container gives `shelved`. */
  function Created(env: Env, s: State, faults: Faults, shelved: (State, bool)): (State, bool) {
    match s.handle
    case NoFile => OpenedNext(env, s, faults)
    case DeadFile => (s, false)
    case OpenFile => if shelved.1 then OpenedNext(env, shelved.0, faults) else shelved
  }

  /** doWrite's test for a new container. */
  function WithRoom(env: Env, s: State, size: nat, faults: Faults, shelved: (State, bool)): (State, bool) {
    if s.handle == NoFile || s.currentOffset + size > MAX_CONTAINER_SIZE then Created(env, s, faults, shelved)
    else (s, true)
  }

  function AppendLast(packed: Packed, chunk: bytes): Packed {
    if packed == [] then [[chunk]]
    else packed[..|packed| - 1] + [packed[|packed| - 1] + [chunk]]
  }

  function Extended(f: Files, path: bytes, more: bytes): Files {
    f[path := (if path in f then f[path] else []) + more]
  }

  /** The slot behind everything in the last container. */
  function NextSlot(s: State): Slot {
    Slot(if s.packed == [] then 0 else |s.packed| - 1, s.currentOffset)
  }

  /** The append at the end of doWrite, all or nothing. */
  function Appended(s: State, encoded: bytes, data: bytes): State {
    var t := Ticket(NextSlot(s), s.currentContainer, s.currentOffset, |encoded|, encoded, data);
    s.(files := Extended(s.files, s.currentContainer, encoded), currentOffset := s.currentOffset + |encoded|,
       packed := AppendLast(s.packed, encoded), issued := s.issued + [t])
  }

  /** The rest of doWrite, once the container is chosen. */
  function Stored(t: State, room: bool, encoded: bytes, req: Request): (State, Response) {
    if !room || t.handle != OpenFile || AppendChunk in req.faults.fails then (t, WriteFailed)
    else (Appended(t, encoded, req.data), Written(t.currentContainer, t.currentOffset, |encoded|))
  }

  /** doWrite, where shelving the open container, if it comes to that, gives `shelved`. */
  function WriteVia(env: Env, s: State, req: Request, shelved: (State, bool)): (State, Response) {
    match env.codec.enc(req.data)
    case None => (s, WriteFailed)
    case Some(encoded) =>
      var (t, room) := WithRoom(env, s, |encoded|, req.faults, shelved);
      Stored(t, room, encoded, req)
  }

  /** doWrite. */
  function Write(env: Env, s: State, req: Request): (State, Response) {
    WriteVia(env, s, req, Shelved(env, s, req.faults))
  }

  /** What Close does with the last container once the queue is drained. */
  function Closed(env: Env, s: State, faults: Faults): (State, bool) {
    match s.handle
    case NoFile => (s, true)
    case DeadFile => (s, false)
    case OpenFile => Shelved(env, s, faults)
  }

  // ----- what keeps tickets valid -----

  /** Container k of the packing lives in the file numbered ids[k]. */
  ghost predicate Laid(env: Env, files: Files, ids: seq<nat>, packed: Packed) {
    && |ids| == |packed|
    && forall k | 0 <= k < |ids| :: Content(files, env.zip, env.Blob(ids[k])) == Some(Concat(packed[k]))
  }

  ghost predicate Numbered(ids: seq<nat>, index: nat) {
    && (forall i, j | 0 <= i < j < |ids| :: ids[i] < ids[j])
    && (forall k | 0 <= k < |ids| :: 0 < ids[k] <= index)
  }

  ghost predicate Absent(env: Env, files: Files, j: nat) {
    env.Blob(j) !in files && CompressedPath(env.Blob(j)) !in files
  }

  /** No file carries a container number that no container of the packing has. */
  ghost predicate NoOthers(env: Env, files: Files, ids: seq<nat>) {
    forall j: nat | 0 < j <= env.limit && j !in ids :: Absent(env, files, j)
  }

  ghost predicate Honest(env: Env, t: Ticket, ids: seq<nat>, packed: Packed) {
    && Holds(packed, t.slot, t.encoded)
    && t.slot.container < |ids|
    && t.path == env.Blob(ids[t.slot.container])
    && t.offset == t.slot.offset && t.size == |t.encoded|
    && t.offset <= MAX_CONTAINER_SIZE
    && env.codec.enc(t.data) == Some(t.encoded) && env.codec.dec(t.encoded) == Some(t.data)
  }

  ghost predicate AllHonest(env: Env, issued: seq<Ticket>, ids: seq<nat>, packed: Packed) {
    forall i | 0 <= i < |issued| :: Honest(env, issued[i], ids, packed)
  }

  /** The open file is the last container's blob, and the offset is its length. */
  ghost predicate Current(env: Env, s: State) {
    && (s.handle == NoFile ==> s.packed == [])
    && (s.handle == OpenFile ==>
          && s.packed != [] && |s.ids| == |s.packed| && s.ids[|s.ids| - 1] == s.containerIndex
          && s.currentContainer == env.Blob(s.containerIndex)
          && s.currentContainer in s.files
          && s.files[s.currentContainer] == Concat(s.packed[|s.packed| - 1])
          && s.currentOffset == Size(s.packed[|s.packed| - 1]))
  }

  ghost predicate Sound(env: Env, s: State) {
    && Laid(env, s.files, s.ids, s.packed)
    && Numbered(s.ids, s.containerIndex) && s.containerIndex <= env.limit
    && NoOthers(env, s.files, s.ids)
    && AllHonest(env, s.issued, s.ids, s.packed)
    && Current(env, s)
  }

  /** A ticket for bytes the laid-out containers hold reads back its chunk. */
  lemma TicketReads(env: Env, t: Ticket, files: Files, ids: seq<nat>, packed: Packed)
    requires Laid(env, files, ids, packed) && Honest(env, t, ids, packed)
    ensures ReadChunk(files, env.zip, env.codec, t.path, t.offset, t.size) == Some(t.data)
  {
    ReadsContent(files, env.zip, t.path, t.offset, t.size);
  }

  // ----- compressing a container -----

  /** The trace leads from g one operation at a time, and each directory on the
      way gives what f gave. */
  ghost predicate SafeTrace(f: Files, g: Files, trace: seq<Files>, zip: Codec, path: bytes) {
    AllSafe(f, trace, zip, path) && Linked(g, trace, After(g, trace)) && SafeStep(f, After(g, trace), zip, path)
  }

  lemma SafeSnoc(f: Files, g: Files, trace: seq<Files>, zip: Codec, path: bytes, op: FileOp)
    requires SafeTrace(f, g, trace, zip, path)
    requires SafeStep(f, Perform(After(g, trace), op), zip, path)
    ensures SafeTrace(f, g, trace + [Perform(After(g, trace), op)], zip, path)
  {
    LinkedSnoc(g, trace, op);
  }

  lemma SafeDrop(f: Files, g: Files, trace: seq<Files>, zip: Codec, path: bytes, faults: Faults)
    requires SafeTrace(f, g, trace, zip, path) && Shielded(f, After(g, trace), path)
    ensures SafeTrace(f, g, trace + Dropped(After(g, trace), path, faults), zip, path)
  {
    if Cleanup in faults.fails {
      assert trace + [] == trace;
    } else {
      ShieldedSteps(f, After(g, trace), path, []);
      ShieldedIsSafe(f, Perform(After(g, trace), RemoveFile(TempPath(path))), zip, path);
      SafeSnoc(f, g, trace, zip, path, RemoveFile(TempPath(path)));
    }
  }

  lemma WriteTempIsSafe(zip: Codec, f: Files, path: bytes, faults: Faults)
    ensures SafeTrace(f, f, WriteTempTrace(zip, f, path, faults).0, zip, path)
    ensures WriteTempTrace(zip, f, path, faults).1 ==>
              var g := After(f, WriteTempTrace(zip, f, path, faults).0);
              Shielded(f, g, path) && TempPath(path) in g && zip.enc(f[path]) == Some(g[TempPath(path)])
  {
    assert SafeTrace(f, f, [], zip, path);
    if !(OpenSource in faults.fails || path !in f || CreateTemp in faults.fails) {
      var copied := Copies(zip, f[path], faults);
      var content := if copied then zip.enc(f[path]).value else faults.partial;
      var created := Perform(f, WriteFile(TempPath(path), []));
      var written := Perform(created, WriteFile(TempPath(path), content));
      assert Shielded(f, f, path);
      ShieldedSteps(f, f, path, []);
      ShieldedIsSafe(f, created, zip, path);
      SafeSnoc(f, f, [], zip, path, WriteFile(TempPath(path), []));
      ShieldedSteps(f, created, path, content);
      ShieldedIsSafe(f, written, zip, path);
      SafeSnoc(f, f, [created], zip, path, WriteFile(TempPath(path), content));
      assert [] + [created] == [created] && [created] + [written] == [created, written];
      SafeDrop(f, f, [created, written], zip, path, faults);
    }
  }

  lemma WriteTempSucceeds(zip: Codec, f: Files, path: bytes, faults: Faults)
    ensures WriteTempTrace(zip, f, path, faults).1 <==>
            path in f && zip.enc(f[path]).Some? &&
            faults.fails !! {OpenSource, CreateTemp, NewWriter, CopyAll, FinishWriter, SyncTemp, CloseTemp, CloseSource}
  {}

  /** The rename, and the removal of the blob after it. */
  lemma MovedIsSafe(zip: Codec, f: Files, g: Files, cleared: Files, path: bytes)
    requires zip.Faithful() && !HasSuffix(path, BLOBZSTEXT)
    requires SafeTrace(f, g, [cleared], zip, path) && Shielded(f, cleared, path)
    requires TempPath(path) in cleared && zip.enc(f[path]) == Some(cleared[TempPath(path)])
    ensures var moved := Perform(cleared, RenameFile(TempPath(path), CompressedPath(path)));
            && SafeTrace(f, g, [cleared, moved], zip, path)
            && SafeTrace(f, g, [cleared, moved, moved - {path}], zip, path)
            && CompressedAlone(moved - {path}, path)
  {
    CompressedIsLonger(path);
    var rename := RenameFile(TempPath(path), CompressedPath(path));
    var moved := Perform(cleared, rename);
    ShieldedSteps(f, cleared, path, cleared[TempPath(path)]);
    ShieldedIsSafe(f, moved, zip, path);
    SafeSnoc(f, g, [cleared], zip, path, rename);
    assert [cleared] + [moved] == [cleared, moved];
    ReplacedIsSafe(f, moved, zip, path);
    SafeSnoc(f, g, [cleared, moved], zip, path, RemoveFile(path));
    assert [cleared, moved] + [moved - {path}] == [cleared, moved, moved - {path}];
  }

  /** From a directory that shields the blob beside a faithful compressed copy. */
  lemma SwapInIsSafe(zip: Codec, f: Files, g: Files, path: bytes, faults: Faults)
    requires zip.Faithful() && !HasSuffix(path, BLOBZSTEXT) && Shielded(f, g, path)
    requires TempPath(path) in g && zip.enc(f[path]) == Some(g[TempPath(path)])
    ensures SafeTrace(f, g, SwapInTrace(g, path, faults).0, zip, path)
    ensures SwapInTrace(g, path, faults).1 ==>
              CompressedAlone(After(g, SwapInTrace(g, path, faults).0), path)
    ensures SwapInTrace(g, path, faults).1 <==> faults.fails !! {RemoveStale, RenameTemp, RemoveOriginal}
  {
    CompressedIsLonger(path);
    ShieldedIsSafe(f, g, zip, path);
    assert SafeTrace(f, g, [], zip, path);
    if RemoveStale in faults.fails {
      SafeDrop(f, g, [], zip, path, faults);
      assert [] + Dropped(g, path, faults) == Dropped(g, path, faults);
    } else {
      var stale := RemoveFile(CompressedPath(path));
      var cleared := Perform(g, stale);
      ShieldedSteps(f, g, path, []);
      ShieldedIsSafe(f, cleared, zip, path);
      SafeSnoc(f, g, [], zip, path, stale);
      assert [] + [cleared] == [cleared];
      if RenameTemp in faults.fails {
        SafeDrop(f, g, [cleared], zip, path, faults);
      } else {
        MovedIsSafe(zip, f, g, cleared, path);
      }
    }
  }

  lemma AfterJoin(f: Files, head: seq<Files>, tail: seq<Files>)
    ensures After(f, head + tail) == After(After(f, head), tail)
  {
    if tail == [] { assert head + tail == head; }
  }

  lemma TracesJoin(f: Files, g: Files, head: seq<Files>, tail: seq<Files>, zip: Codec, path: bytes)
    requires SafeTrace(f, g, head, zip, path) && SafeTrace(f, After(g, head), tail, zip, path)
    ensures SafeTrace(f, g, head + tail, zip, path) && After(g, head + tail) == After(After(g, head), tail)
  {
    AfterJoin(g, head, tail);
    LinkedJoin(g, head, tail);
  }

  /** compressContainer: after every operation and on every exit, reading through
      the path gives the original bytes, and nothing else has changed. It succeeds
      exactly when no call it needs fails, and then leaves the compressed form alone. */
  lemma CompressIsSafe(zip: Codec, f: Files, path: bytes, faults: Faults)
    requires zip.Faithful()
    ensures SafeTrace(f, f, CompressTrace(zip, f, path, faults).0, zip, path)
    ensures CompressTrace(zip, f, path, faults).1 && !NothingToCompress(path) ==>
              CompressedAlone(After(f, CompressTrace(zip, f, path, faults).0), path)
    ensures !NothingToCompress(path) ==>
              (CompressTrace(zip, f, path, faults).1 <==>
               path in f && zip.enc(f[path]).Some? && faults.fails !! COMPRESS_OPS)
  {
    if !NothingToCompress(path) {
      var (written, ok) := WriteTempTrace(zip, f, path, faults);
      WriteTempIsSafe(zip, f, path, faults);
      WriteTempSucceeds(zip, f, path, faults);
      if ok {
        var g := After(f, written);
        SwapInIsSafe(zip, f, g, path, faults);
        TracesJoin(f, f, written, SwapInTrace(g, path, faults).0, zip, path);
      }
    }
  }

  /** When the cleanup goes through, no exit leaves a temporary file behind. */
  lemma TempIsCleared(zip: Codec, f: Files, path: bytes, faults: Faults)
    requires Cleanup !in faults.fails && TempPath(path) !in f
    ensures TempPath(path) !in After(f, CompressTrace(zip, f, path, faults).0)
  {
    CompressedIsLonger(path);
    var (written, ok) := WriteTempTrace(zip, f, path, faults);
    if ok && !NothingToCompress(path) { AfterJoin(f, written, SwapInTrace(After(f, written), path, faults).0); }
  }

  lemma StepKeepsLaid(env: Env, f: Files, g: Files, ids: seq<nat>, packed: Packed, i: nat)
    requires env.Assumed() && Laid(env, f, ids, packed) && SafeStep(f, g, env.zip, env.Blob(i))
    requires i <= env.limit && Numbered(ids, env.limit)
    ensures Laid(env, g, ids, packed)
  {
    forall k | 0 <= k < |ids| ensures Content(g, env.zip, env.Blob(ids[k])) == Some(Concat(packed[k])) {
      StepUnseenElsewhere(f, g, env.zip, env.base(i), env.base(ids[k]));
    }
  }

  lemma StepKeepsNoOthers(env: Env, f: Files, g: Files, ids: seq<nat>, i: nat)
    requires env.Assumed() && NoOthers(env, f, ids) && SafeStep(f, g, env.zip, env.Blob(i))
    requires i <= env.limit && i in ids
    ensures NoOthers(env, g, ids)
  {
    forall j: nat | 0 < j <= env.limit && j !in ids ensures Absent(env, g, j) {
      assert Absent(env, f, j);
      StepUnseenElsewhere(f, g, env.zip, env.base(i), env.base(j));
    }
  }

  /** Any step of a compression, and giving up after it, leaves a sound state. */
  lemma ShelvedIsSound(env: Env, s: State, g: Files, current: bytes)
    requires env.Assumed() && Sound(env, s) && s.handle == OpenFile
    requires SafeStep(s.files, g, env.zip, s.currentContainer)
    ensures Sound(env, s.(files := g, handle := DeadFile, currentContainer := current))
  {
    StepKeepsLaid(env, s.files, g, s.ids, s.packed, s.containerIndex);
    StepKeepsNoOthers(env, s.files, g, s.ids, s.containerIndex);
  }

  /** No call that shelving needs fails, and the encoder accepts the container. */
  ghost predicate CanShelve(env: Env, s: State, faults: Faults) {
    faults.fails !! SHELVE_OPS && s.currentContainer in s.files && env.zip.enc(s.files[s.currentContainer]).Some?
  }

  /** Shelving issues nothing, loses nothing, and compresses exactly when nothing
      it needs fails. */
  ghost predicate ShelvedWell(env: Env, s: State, faults: Faults, t: State, ok: bool) {
    && Sound(env, t) && t.handle == (if SyncCurrent in faults.fails then OpenFile else DeadFile)
    && (SyncCurrent in faults.fails ==> t == s)
    && t.containerIndex == s.containerIndex && t.ids == s.ids && t.packed == s.packed && t.issued == s.issued
    && (ok ==> CompressedAlone(t.files, s.currentContainer))
    && (t.files == s.files || SafeStep(s.files, t.files, env.zip, s.currentContainer))
    && (ok <==> CanShelve(env, s, faults))
    && (Cleanup !in faults.fails && TempPath(s.currentContainer) !in s.files ==>
          TempPath(s.currentContainer) !in t.files)
  }

  /** The same, told from what the compression has come to. */
  lemma ShelvedAfter(env: Env, s: State, faults: Faults, g: Files, ok: bool)
    requires env.Assumed() && Sound(env, s) && s.handle == OpenFile && faults.fails !! {SyncCurrent, CloseCurrent}
    requires SafeStep(s.files, g, env.zip, s.currentContainer) && (ok ==> CompressedAlone(g, s.currentContainer))
    requires ok <==> env.zip.enc(s.files[s.currentContainer]).Some? && faults.fails !! COMPRESS_OPS
    requires Cleanup !in faults.fails && TempPath(s.currentContainer) !in s.files ==> TempPath(s.currentContainer) !in g
    ensures var current := if ok then CompressedPath(s.currentContainer) else s.currentContainer;
            ShelvedWell(env, s, faults, s.(files := g, handle := DeadFile, currentContainer := current), ok)
  {
    ShelvedIsSound(env, s, g, if ok then CompressedPath(s.currentContainer) else s.currentContainer);
  }

  lemma UnshelvedOutcome(env: Env, s: State, faults: Faults, handle: Handle)
    requires Sound(env, s) && s.handle == OpenFile && !(faults.fails !! {SyncCurrent, CloseCurrent})
    requires handle == if SyncCurrent in faults.fails then OpenFile else DeadFile
    ensures ShelvedWell(env, s, faults, s.(handle := handle), false)
  {}

  lemma ShelvedOutcome(env: Env, s: State, faults: Faults)
    requires env.Assumed() && Sound(env, s) && s.handle == OpenFile
    ensures ShelvedWell(env, s, faults, Shelved(env, s, faults).0, Shelved(env, s, faults).1)
  {
    var path := s.currentContainer;
    if SyncCurrent in faults.fails {
      UnshelvedOutcome(env, s, faults, OpenFile);
    } else if CloseCurrent in faults.fails {
      UnshelvedOutcome(env, s, faults, DeadFile);
    } else {
      BlobNames(env.base(s.containerIndex));
      CompressIsSafe(env.zip, s.files, path, faults);
      if Cleanup !in faults.fails && TempPath(path) !in s.files { TempIsCleared(env.zip, s.files, path, faults); }
      var (trace, ok) := CompressTrace(env.zip, s.files, path, faults);
      ShelvedAfter(env, s, faults, After(s.files, trace), ok);
    }
  }

  // ----- opening a container -----

  /** Writing the blob numbered `index` is not seen under any other number. */
  lemma BlobWriteUnseen(env: Env, f: Files, index: nat, content: bytes, k: nat)
    requires env.Assumed() && k != index && k <= env.limit && index <= env.limit
    ensures Content(f[env.Blob(index) := content], env.zip, env.Blob(k)) == Content(f, env.zip, env.Blob(k))
    ensures Absent(env, f, k) ==> Absent(env, f[env.Blob(index) := content], k)
  {
    assert env.base(k) != env.base(index);
    NamesApart(env.base(k), env.base(index));
    NamesApart(env.base(index), env.base(k));
  }

  lemma BlobWriteSeen(env: Env, f: Files, index: nat, content: bytes)
    ensures Content(f[env.Blob(index) := content], env.zip, env.Blob(index)) == Some(content)
  {
    BlobNames(env.base(index));
  }

  /** The files after the next container's blob was created, and the packing with an empty container more. */
  lemma OpenedLayout(env: Env, files: Files, ids: seq<nat>, packed: Packed, index: nat)
    requires env.Assumed() && Laid(env, files, ids, packed) && 0 < index <= env.limit && Numbered(ids, index - 1)
    ensures Laid(env, files[env.Blob(index) := []], ids + [index], packed + [[]])
  {
    var g, all, more := files[env.Blob(index) := []], ids + [index], packed + [[]];
    forall k | 0 <= k < |all| ensures Content(g, env.zip, env.Blob(all[k])) == Some(Concat(more[k])) {
      if k < |ids| { BlobWriteUnseen(env, files, index, [], ids[k]); }
      else { BlobWriteSeen(env, files, index, []); }
    }
  }

  lemma WrittenHasNoOthers(env: Env, files: Files, ids: seq<nat>, index: nat, content: bytes)
    requires env.Assumed() && NoOthers(env, files, ids) && index <= env.limit
    ensures NoOthers(env, files[env.Blob(index) := content], ids + [index])
    ensures index in ids ==> NoOthers(env, files[env.Blob(index) := content], ids)
  {
    var g := files[env.Blob(index) := content];
    forall j: nat | 0 < j <= env.limit && j !in ids && j != index ensures Absent(env, g, j) {
      assert Absent(env, files, j);
      BlobWriteUnseen(env, files, index, content, j);
    }
  }

  lemma OpenedTickets(env: Env, issued: seq<Ticket>, ids: seq<nat>, packed: Packed, index: nat)
    requires AllHonest(env, issued, ids, packed) && |ids| == |packed|
    ensures AllHonest(env, issued, ids + [index], packed + [[]])
  {
    forall i | 0 <= i < |issued| ensures Honest(env, issued[i], ids + [index], packed + [[]]) {
      assert Honest(env, issued[i], ids, packed);
    }
  }

  /** Opening the next container adds an empty one and disturbs nothing. */
  lemma OpenedIsSound(env: Env, s: State)
    requires env.Assumed() && Sound(env, s) && s.handle != OpenFile && s.containerIndex < env.limit
    ensures Sound(env, Opened(env, s.(containerIndex := s.containerIndex + 1)))
  {
    var t := Opened(env, s.(containerIndex := s.containerIndex + 1));
    var index := t.containerIndex;
    OpenedLayout(env, s.files, s.ids, s.packed, index);
    WrittenHasNoOthers(env, s.files, s.ids, index, []);
    OpenedTickets(env, s.issued, s.ids, s.packed, index);
  }

  lemma OpenedNextOutcome(env: Env, s: State, faults: Faults)
    requires env.Assumed() && Sound(env, s) && s.handle != OpenFile && s.containerIndex < env.limit
    ensures var (t, ok) := OpenedNext(env, s, faults);
            && Sound(env, t) && t.containerIndex == s.containerIndex + 1 && t.issued == s.issued
            && (if ok then t.handle == OpenFile && t.packed == s.packed + [[]] && t.currentOffset == 0
                else t.handle == s.handle && t.packed == s.packed)
            && t.files == (if ok then s.files[env.Blob(s.containerIndex + 1) := []] else s.files)
            && (ok <==> faults.fails !! {MakeDir, OpenNew})
  {
    OpenedIsSound(env, s);
  }

  /** No call that opening a new container needs fails. */
  ghost predicate CanCreate(env: Env, s: State, faults: Faults) {
    && s.handle != DeadFile && faults.fails !! {MakeDir, OpenNew}
    && (s.handle == OpenFile ==> CanShelve(env, s, faults))
  }

  /** One empty container more or none, and nothing else lost. */
  ghost predicate CreatedWell(env: Env, s: State, t: State, ok: bool) {
    && Sound(env, t) && t.containerIndex <= s.containerIndex + 1 && t.issued == s.issued
    && (if ok then t.handle == OpenFile && t.packed == s.packed + [[]] && t.currentOffset == 0
        else t.packed == s.packed)
    && (s.handle == DeadFile ==> !ok && t.handle == DeadFile)
    && (ok && s.handle == OpenFile ==> CompressedAlone(t.files, s.currentContainer))
  }

  /** What `shelved` must be when it matters. */
  ghost predicate Shelves(env: Env, s: State, faults: Faults, shelved: (State, bool)) {
    s.handle == OpenFile ==> ShelvedWell(env, s, faults, shelved.0, shelved.1)
  }

  lemma CreatedAfterShelving(env: Env, s: State, faults: Faults, shelved: (State, bool))
    requires env.Assumed() && Sound(env, s) && s.handle == OpenFile && s.containerIndex < env.limit
    requires Shelves(env, s, faults, shelved)
    ensures var (t, ok) := Created(env, s, faults, shelved);
            CreatedWell(env, s, t, ok) && (ok <==> CanCreate(env, s, faults))
  {
    if shelved.1 {
      OpenedNextOutcome(env, shelved.0, faults);
      assert env.base(s.containerIndex) != env.base(s.containerIndex + 1);
      NamesApart(env.base(s.containerIndex + 1), env.base(s.containerIndex));
      NamesApart(env.base(s.containerIndex), env.base(s.containerIndex + 1));
    }
  }

  /** createNewContainer. */
  lemma CreatedOutcome(env: Env, s: State, faults: Faults, shelved: (State, bool))
    requires env.Assumed() && Sound(env, s) && s.containerIndex < env.limit && Shelves(env, s, faults, shelved)
    ensures var (t, ok) := Created(env, s, faults, shelved);
            && CreatedWell(env, s, t, ok)
            && (ok <==> CanCreate(env, s, faults))
  {
    match s.handle
    case OpenFile => CreatedAfterShelving(env, s, faults, shelved);
    case NoFile => OpenedNextOutcome(env, s, faults);
    case DeadFile =>
  }

  // ----- appending a chunk -----

  lemma AppendedLayout(env: Env, s: State, chunk: bytes)
    requires env.Assumed() && Sound(env, s) && s.handle == OpenFile
    ensures var g := Extended(s.files, s.currentContainer, chunk);
            Laid(env, g, s.ids, AppendLast(s.packed, chunk)) && NoOthers(env, g, s.ids)
  {
    var content := s.files[s.currentContainer] + chunk;
    var g := s.files[s.currentContainer := content];
    var packed' := AppendLast(s.packed, chunk);
    ConcatSnoc(s.packed[|s.packed| - 1], chunk);
    forall k | 0 <= k < |s.ids| ensures Content(g, env.zip, env.Blob(s.ids[k])) == Some(Concat(packed'[k])) {
      if k < |s.ids| - 1 { BlobWriteUnseen(env, s.files, s.containerIndex, content, s.ids[k]); }
      else { BlobWriteSeen(env, s.files, s.containerIndex, content); }
    }
    WrittenHasNoOthers(env, s.files, s.ids, s.containerIndex, content);
  }

  /** A chunk keeps its slot when another is appended behind it. */
  lemma AppendKeeps(packed: Packed, slot: Slot, chunk: bytes, later: bytes)
    requires packed != [] && Holds(packed, slot, chunk)
    ensures Holds(AppendLast(packed, later), slot, chunk)
  {
    var n := |packed| - 1;
    if slot.container == n {
      ConcatSnoc(packed[n], later);
      assert AppendLast(packed, later)[n] == packed[n] + [later];
    } else {
      assert AppendLast(packed, later)[slot.container] == packed[slot.container];
    }
  }

  lemma AppendPuts(packed: Packed, chunk: bytes)
    requires packed != []
    ensures Holds(AppendLast(packed, chunk), Slot(|packed| - 1, Size(packed[|packed| - 1])), chunk)
  {
    var n := |packed| - 1;
    ConcatSnoc(packed[n], chunk);
    assert AppendLast(packed, chunk)[n] == packed[n] + [chunk];
  }

  lemma AppendedTickets(env: Env, s: State, encoded: bytes, data: bytes)
    requires Sound(env, s) && s.handle == OpenFile && s.currentOffset <= MAX_CONTAINER_SIZE
    requires env.codec.enc(data) == Some(encoded) && env.codec.dec(encoded) == Some(data)
    ensures var t := Appended(s, encoded, data); AllHonest(env, t.issued, t.ids, t.packed)
  {
    var t := Appended(s, encoded, data);
    AppendPuts(s.packed, encoded);
    forall i | 0 <= i < |t.issued| ensures Honest(env, t.issued[i], t.ids, t.packed) {
      if i < |s.issued| {
        assert Honest(env, s.issued[i], s.ids, s.packed);
        AppendKeeps(s.packed, s.issued[i].slot, s.issued[i].encoded, encoded);
      }
    }
  }

  lemma AppendedIsSound(env: Env, s: State, encoded: bytes, data: bytes)
    requires env.Assumed() && Sound(env, s) && s.handle == OpenFile && s.currentOffset <= MAX_CONTAINER_SIZE
    requires env.codec.enc(data) == Some(encoded)
    ensures Sound(env, Appended(s, encoded, data))
  {
    AppendedLayout(env, s, encoded);
    AppendedTickets(env, s, encoded, data);
    ConcatSnoc(s.packed[|s.packed| - 1], encoded);
  }

  lemma PlaceOpened(packed: Packed, chunk: bytes)
    ensures AppendLast(packed + [[]], chunk) == packed + [[chunk]]
    ensures Concat([]) == []
  {
    assert [] + [chunk] == [chunk];
  }

  // ----- a whole write -----

  /** Appending now is what next-fit does with the chunk. */
  ghost predicate ReadyFor(s: State, t: State, encoded: bytes) {
    && AppendLast(t.packed, encoded) == Place(s.packed, encoded, MAX_CONTAINER_SIZE)
    && NextSlot(t) == SlotFor(s.packed, encoded, MAX_CONTAINER_SIZE)
  }

  lemma FreshIsReady(s: State, t: State, encoded: bytes)
    requires t.packed == s.packed + [[]] && t.currentOffset == 0 && Overruns(s.packed, encoded, MAX_CONTAINER_SIZE)
    ensures ReadyFor(s, t, encoded)
  {
    PlaceOpened(s.packed, encoded);
  }

  lemma FittingIsReady(env: Env, s: State, encoded: bytes)
    requires Current(env, s) && s.handle == OpenFile && s.currentOffset + |encoded| <= MAX_CONTAINER_SIZE
    ensures ReadyFor(s, s, encoded)
  {}

  /** An open container takes the chunk, or a new one can be opened for it. */
  ghost predicate HasRoom(env: Env, s: State, size: nat, faults: Faults) {
    if s.handle == NoFile || s.currentOffset + size > MAX_CONTAINER_SIZE then CanCreate(env, s, faults)
    else s.handle == OpenFile
  }

  lemma WithRoomOutcome(env: Env, s: State, encoded: bytes, faults: Faults, shelved: (State, bool))
    requires env.Assumed() && Sound(env, s) && s.containerIndex < env.limit && Shelves(env, s, faults, shelved)
    ensures var (t, ok) := WithRoom(env, s, |encoded|, faults, shelved);
            && Sound(env, t) && t.containerIndex <= s.containerIndex + 1 && t.issued == s.issued
            && (t.packed == s.packed || t.packed == s.packed + [[]])
            && (ok && t.handle == OpenFile ==> ReadyFor(s, t, encoded))
            && (s.handle == DeadFile ==> t.handle == DeadFile)
            && (ok && t.handle == OpenFile <==> HasRoom(env, s, |encoded|, faults))
  {
    if s.handle == NoFile || s.currentOffset + |encoded| > MAX_CONTAINER_SIZE {
      CreatedOutcome(env, s, faults, shelved);
      var (t, ok) := Created(env, s, faults, shelved);
      if ok { FreshIsReady(s, t, encoded); }
    } else if s.handle == OpenFile {
      FittingIsReady(env, s, encoded);
    }
  }

  /** The ticket a write issues: the next-fit slot, with the response's path. */
  function TicketOf(env: Env, s: State, data: bytes, r: Response): Ticket
    requires r.Written? && env.codec.enc(data).Some?
  {
    var encoded := env.codec.enc(data).value;
    Ticket(SlotFor(s.packed, encoded, MAX_CONTAINER_SIZE), r.path, r.offset, r.size, encoded, data)
  }

  /** One next-fit placement, and one new ticket that says where. */
  ghost predicate WroteWell(env: Env, s: State, data: bytes, t: State, r: Response)
    requires r.Written?
  {
    && env.codec.enc(data).Some? && t.handle == OpenFile
    && t.packed == Place(s.packed, env.codec.enc(data).value, MAX_CONTAINER_SIZE)
    && t.issued == s.issued + [TicketOf(env, s, data, r)]
    && r.offset == TicketOf(env, s, data, r).slot.offset
    && r.size == |env.codec.enc(data).value|
  }

  lemma AppendedWell(env: Env, s: State, t: State, encoded: bytes, data: bytes)
    requires env.Assumed() && Sound(env, t) && t.handle == OpenFile && env.codec.enc(data) == Some(encoded)
    requires ReadyFor(s, t, encoded) && t.issued == s.issued
    ensures Sound(env, Appended(t, encoded, data))
    ensures WroteWell(env, s, data, Appended(t, encoded, data), Written(t.currentContainer, t.currentOffset, |encoded|))
  {
    AppendedIsSound(env, t, encoded, data);
  }

  /** A success is one next-fit placement and one new ticket; a failure issues
      nothing and loses nothing. */
  ghost predicate AnsweredWell(env: Env, s: State, data: bytes, t: State, r: Response) {
    match r
    case Written(_, _, _) => WroteWell(env, s, data, t, r)
    case WriteFailed => t.issued == s.issued && (t.packed == s.packed || t.packed == s.packed + [[]])
  }

  lemma StoredOutcome(env: Env, s: State, t: State, room: bool, encoded: bytes, req: Request)
    requires env.Assumed() && Sound(env, t) && env.codec.enc(req.data) == Some(encoded) && t.issued == s.issued
    requires t.packed == s.packed || t.packed == s.packed + [[]]
    requires room && t.handle == OpenFile ==> ReadyFor(s, t, encoded)
    ensures var (u, r) := Stored(t, room, encoded, req);
            && Sound(env, u) && u.containerIndex == t.containerIndex && u.handle == t.handle
            && AnsweredWell(env, s, req.data, u, r)
            && (r.Written? <==> room && t.handle == OpenFile && AppendChunk !in req.faults.fails)
  {
    if room && t.handle == OpenFile && AppendChunk !in req.faults.fails {
      AppendedWell(env, s, t, encoded, req.data);
      assert AnsweredWell(env, s, req.data, Stored(t, room, encoded, req).0, Stored(t, room, encoded, req).1);
    }
  }

  // ----- which files there are -----

  ghost predicate ContainerNamed(env: Env, p: bytes) {
    exists i: nat :: i <= env.limit
                     && (p == env.Blob(i) || p == CompressedPath(env.Blob(i)) || p == TempPath(env.Blob(i)))
  }

  /** Every file is a container's, or what a compression left of one. */
  ghost predicate OnlyContainers(env: Env, files: Files) {
    forall p | p in files :: ContainerNamed(env, p)
  }

  lemma StepNamesContainers(env: Env, f: Files, g: Files, i: nat)
    requires i <= env.limit && SameElsewhere(f, g, env.Blob(i)) && OnlyContainers(env, f)
    ensures OnlyContainers(env, g)
  {
    forall p | p in g ensures ContainerNamed(env, p) {
      if p == env.Blob(i) || p == CompressedPath(env.Blob(i)) || p == TempPath(env.Blob(i)) {
      } else {
        assert p in f;
      }
    }
  }

  lemma BlobNamesContainers(env: Env, f: Files, i: nat, content: bytes)
    requires i <= env.limit && OnlyContainers(env, f)
    ensures OnlyContainers(env, f[env.Blob(i) := content])
  {
    assert ContainerNamed(env, env.Blob(i));
  }

  lemma ShelvedNamesContainers(env: Env, s: State, faults: Faults, t: State, ok: bool)
    requires ShelvedWell(env, s, faults, t, ok) && Sound(env, s) && s.handle == OpenFile && OnlyContainers(env, s.files)
    ensures OnlyContainers(env, t.files)
  {
    if t.files != s.files { StepNamesContainers(env, s.files, t.files, s.containerIndex); }
  }

  lemma CreatedNamesContainers(env: Env, s: State, faults: Faults, shelved: (State, bool))
    requires Sound(env, s) && s.containerIndex < env.limit && Shelves(env, s, faults, shelved)
    requires OnlyContainers(env, s.files)
    ensures OnlyContainers(env, Created(env, s, faults, shelved).0.files)
  {
    if s.handle == OpenFile {
      ShelvedNamesContainers(env, s, faults, shelved.0, shelved.1);
      BlobNamesContainers(env, shelved.0.files, s.containerIndex + 1, []);
    } else {
      BlobNamesContainers(env, s.files, s.containerIndex + 1, []);
    }
  }

  lemma StoredNamesContainers(env: Env, t: State, room: bool, encoded: bytes, req: Request)
    requires Sound(env, t) && OnlyContainers(env, t.files)
    ensures OnlyContainers(env, Stored(t, room, encoded, req).0.files)
  {
    if t.handle == OpenFile {
      BlobNamesContainers(env, t.files, t.containerIndex, t.files[t.currentContainer] + encoded);
    }
  }

  lemma WriteViaNamesContainers(env: Env, s: State, req: Request, shelved: (State, bool))
    requires env.Assumed() && Sound(env, s) && s.containerIndex < env.limit && Shelves(env, s, req.faults, shelved)
    requires OnlyContainers(env, s.files)
    ensures OnlyContainers(env, WriteVia(env, s, req, shelved).0.files)
  {
    var e := env.codec.enc(req.data);
    if e.Some? {
      WithRoomOutcome(env, s, e.value, req.faults, shelved);
      CreatedNamesContainers(env, s, req.faults, shelved);
      var (t, room) := WithRoom(env, s, |e.value|, req.faults, shelved);
      StoredNamesContainers(env, t, room, e.value, req);
    }
  }

  // ----- which files successful writes leave -----

  /** The blobs of the first n containers have given way to their compressed forms. */
  ghost predicate ShutUpTo(env: Env, files: Files, ids: seq<nat>, n: int) {
    n <= |ids| && forall k | 0 <= k < n :: env.Blob(ids[k]) !in files
  }

  /** Every container but the open one is shut. */
  ghost predicate LastOpen(env: Env, s: State) {
    ShutUpTo(env, s.files, s.ids, if s.handle == OpenFile then |s.ids| - 1 else |s.ids|)
  }

  /** Writing another container's blob reopens none. */
  lemma WriteKeepsShut(env: Env, files: Files, ids: seq<nat>, n: int, index: nat, content: bytes)
    requires env.Assumed() && ShutUpTo(env, files, ids, n) && index <= env.limit
    requires forall k | 0 <= k < n :: ids[k] <= env.limit && ids[k] != index
    ensures ShutUpTo(env, files[env.Blob(index) := content], ids, n)
  {
    forall k | 0 <= k < n ensures env.Blob(ids[k]) !in files[env.Blob(index) := content] {
      assert env.base(ids[k]) != env.base(index);
      NamesApart(env.base(ids[k]), env.base(index));
    }
  }

  lemma LastIsShut(env: Env, f: Files, g: Files, ids: seq<nat>, index: nat)
    requires env.Assumed() && index <= env.limit && Numbered(ids, index) && ids != [] && ids[|ids| - 1] == index
    requires ShutUpTo(env, f, ids, |ids| - 1) && SameElsewhere(f, g, env.Blob(index)) && env.Blob(index) !in g
    ensures ShutUpTo(env, g, ids, |ids|)
  {
    forall k | 0 <= k < |ids| ensures env.Blob(ids[k]) !in g {
      if k < |ids| - 1 {
        assert env.base(ids[k]) != env.base(index);
        NamesApart(env.base(ids[k]), env.base(index));
      }
    }
  }

  /** The file container k stands in: compressed, unless it is the last one and open. */
  ghost function FileName(env: Env, ids: seq<nat>, open: bool, k: nat): bytes
    requires k < |ids|
  {
    if open && k == |ids| - 1 then env.Blob(ids[k]) else CompressedPath(env.Blob(ids[k]))
  }

  ghost function FileNames(env: Env, ids: seq<nat>, open: bool): set<bytes> {
    set k: nat | k < |ids| :: FileName(env, ids, open, k)
  }

  ghost predicate Stands(env: Env, s: State, k: nat)
    requires k < |s.ids|
  {
    FileName(env, s.ids, s.handle == OpenFile, k) in s.files
  }

  /** Each container's file is there. */
  ghost predicate HasAll(env: Env, s: State) {
    forall k: nat | k < |s.ids| :: Stands(env, s, k)
  }

  /** The files that are no container's. */
  ghost function Extra(env: Env, s: State): set<bytes> {
    s.files.Keys - FileNames(env, s.ids, s.handle == OpenFile)
  }

  /** What a success does to the directory: it still holds each container once,
      uncompressed only while open, and nothing else that it did not hold before. */
  ghost predicate Tidies(env: Env, s: State, t: State) {
    && (LastOpen(env, s) ==> LastOpen(env, t))
    && (HasAll(env, s) ==> HasAll(env, t) && Extra(env, t) <= Extra(env, s))
  }

  lemma NamesOfOthers(env: Env, ids: seq<nat>, index: nat, k: nat)
    requires env.Assumed() && index <= env.limit && k < |ids| && ids[k] <= env.limit && ids[k] != index
    ensures var p := CompressedPath(env.Blob(ids[k]));
            p != env.Blob(index) && p != CompressedPath(env.Blob(index)) && p != TempPath(env.Blob(index))
  {
    assert env.base(ids[k]) != env.base(index);
    NamesApart(env.base(ids[k]), env.base(index));
    NamesApart(env.base(index), env.base(ids[k]));
  }

  lemma ShelvingKeepsStanding(env: Env, s: State, t: State, k: nat)
    requires env.Assumed() && s.handle == OpenFile && Numbered(s.ids, s.containerIndex) && s.containerIndex <= env.limit
    requires k < |s.ids| && s.ids[|s.ids| - 1] == s.containerIndex && s.currentContainer == env.Blob(s.containerIndex)
    requires Stands(env, s, k)
    requires t.ids == s.ids && t.handle != OpenFile && CompressedAlone(t.files, s.currentContainer)
    requires SameElsewhere(s.files, t.files, s.currentContainer)
    ensures Stands(env, t, k)
  {
    if k < |t.ids| - 1 { NamesOfOthers(env, s.ids, s.containerIndex, k); }
  }

  lemma ShelvingHasAll(env: Env, s: State, t: State)
    requires env.Assumed() && s.handle == OpenFile && Numbered(s.ids, s.containerIndex) && s.containerIndex <= env.limit
    requires s.ids != [] && s.ids[|s.ids| - 1] == s.containerIndex && HasAll(env, s)
    requires s.currentContainer == env.Blob(s.containerIndex)
    requires t.ids == s.ids && t.handle != OpenFile && CompressedAlone(t.files, s.currentContainer)
    requires SameElsewhere(s.files, t.files, s.currentContainer)
    ensures HasAll(env, t)
  {
    forall k: nat | k < |t.ids| ensures Stands(env, t, k) { ShelvingKeepsStanding(env, s, t, k); }
  }

  lemma ShelvingAddsNothing(env: Env, s: State, t: State)
    requires s.handle == OpenFile && s.ids != [] && s.ids[|s.ids| - 1] == s.containerIndex
    requires s.currentContainer == env.Blob(s.containerIndex)
    requires t.ids == s.ids && t.handle != OpenFile && CompressedAlone(t.files, s.currentContainer)
    requires SameElsewhere(s.files, t.files, s.currentContainer)
    ensures Extra(env, t) <= Extra(env, s)
  {
    var last := |s.ids| - 1;
    assert FileName(env, t.ids, false, last) == CompressedPath(s.currentContainer);
    forall p | p in Extra(env, t) ensures p in Extra(env, s) {
      assert p in s.files;
      forall k: nat | k < |s.ids| ensures FileName(env, s.ids, true, k) != p {
        assert FileName(env, t.ids, false, k) in FileNames(env, t.ids, false);
        if k == last { assert FileName(env, s.ids, true, k) == s.currentContainer; }
      }
    }
  }

  lemma ShelvingTidies(env: Env, s: State, faults: Faults, t: State)
    requires env.Assumed() && Sound(env, s) && s.handle == OpenFile && ShelvedWell(env, s, faults, t, true)
    ensures Tidies(env, s, t)
  {
    if LastOpen(env, s) { LastIsShut(env, s.files, t.files, s.ids, s.containerIndex); }
    if HasAll(env, s) { ShelvingHasAll(env, s, t); }
    ShelvingAddsNothing(env, s, t);
  }

  lemma OpeningHasAll(env: Env, s: State, t: State, index: nat)
    requires s.handle != OpenFile && HasAll(env, s) && t.handle == OpenFile && t.ids == s.ids + [index]
    requires t.files == s.files[env.Blob(index) := []]
    ensures HasAll(env, t)
  {
    forall k: nat | k < |t.ids| ensures Stands(env, t, k) {
      if k < |s.ids| { assert Stands(env, s, k) && FileName(env, s.ids, false, k) == FileName(env, t.ids, true, k); }
    }
  }

  lemma OpeningAddsNothing(env: Env, s: State, t: State, index: nat)
    requires s.handle != OpenFile && t.handle == OpenFile && t.ids == s.ids + [index]
    requires t.files == s.files[env.Blob(index) := []]
    ensures Extra(env, t) <= Extra(env, s)
  {
    assert FileName(env, t.ids, true, |s.ids|) == env.Blob(index);
    forall p | p in Extra(env, t) ensures p in Extra(env, s) {
      forall k: nat | k < |s.ids| ensures FileName(env, s.ids, false, k) != p {
        assert FileName(env, s.ids, false, k) == FileName(env, t.ids, true, k);
        assert FileName(env, t.ids, true, k) in FileNames(env, t.ids, true);
      }
    }
  }

  lemma OpeningTidies(env: Env, s: State, faults: Faults)
    requires env.Assumed() && Sound(env, s) && s.handle != OpenFile && s.containerIndex < env.limit
    requires OpenedNext(env, s, faults).1
    ensures Tidies(env, s, OpenedNext(env, s, faults).0)
  {
    var t := OpenedNext(env, s, faults).0;
    var index := s.containerIndex + 1;
    if LastOpen(env, s) { WriteKeepsShut(env, s.files, s.ids, |s.ids|, index, []); }
    if HasAll(env, s) { OpeningHasAll(env, s, t, index); }
    OpeningAddsNothing(env, s, t, index);
  }

  lemma AppendingTidies(env: Env, s: State, encoded: bytes, data: bytes)
    requires env.Assumed() && Sound(env, s) && s.handle == OpenFile
    ensures Tidies(env, s, Appended(s, encoded, data))
  {
    var t := Appended(s, encoded, data);
    assert t.files.Keys == s.files.Keys;
    if HasAll(env, s) {
      forall k: nat | k < |t.ids| ensures Stands(env, t, k) { assert Stands(env, s, k); }
    }
  }

  lemma CreatingTidies(env: Env, s: State, faults: Faults, shelved: (State, bool))
    requires env.Assumed() && Sound(env, s) && s.containerIndex < env.limit && Shelves(env, s, faults, shelved)
    requires Created(env, s, faults, shelved).1
    ensures Tidies(env, s, Created(env, s, faults, shelved).0)
  {
    if s.handle == OpenFile {
      ShelvingTidies(env, s, faults, shelved.0);
      OpeningTidies(env, shelved.0, faults);
    } else {
      OpeningTidies(env, s, faults);
    }
  }

  /** A write that succeeds leaves only the last container uncompressed, and no
      file that was not there and is no container's. */
  lemma WritingTidies(env: Env, s: State, req: Request, shelved: (State, bool))
    requires env.Assumed() && Sound(env, s) && s.containerIndex < env.limit && Shelves(env, s, req.faults, shelved)
    requires WriteVia(env, s, req, shelved).1.Written?
    ensures Tidies(env, s, WriteVia(env, s, req, shelved).0)
  {
    var encoded := env.codec.enc(req.data).value;
    var (t, room) := WithRoom(env, s, |encoded|, req.faults, shelved);
    WithRoomOutcome(env, s, encoded, req.faults, shelved);
    if t != s { CreatingTidies(env, s, req.faults, shelved); }
    AppendingTidies(env, t, encoded, req.data);
  }

  /** Nothing that doWrite needs for this chunk fails. */
  ghost predicate CanWrite(env: Env, s: State, req: Request) {
    && env.codec.enc(req.data).Some? && AppendChunk !in req.faults.fails
    && HasRoom(env, s, |env.codec.enc(req.data).value|, req.faults)
  }

  /** What a write guarantees, whatever fails in it. */
  ghost predicate WriteWell(env: Env, s: State, req: Request, t: State, r: Response) {
    && Sound(env, t) && t.containerIndex <= s.containerIndex + 1
    && AnsweredWell(env, s, req.data, t, r)
    && (OnlyContainers(env, s.files) ==> OnlyContainers(env, t.files))
    && (s.handle == DeadFile ==> r.WriteFailed? && t.handle == DeadFile)
    && (r.Written? <==> CanWrite(env, s, req))
    && (r.Written? ==> Tidies(env, s, t))
  }

  lemma WriteViaOutcome(env: Env, s: State, req: Request, shelved: (State, bool))
    requires env.Assumed() && Sound(env, s) && s.containerIndex < env.limit && Shelves(env, s, req.faults, shelved)
    ensures WriteWell(env, s, req, WriteVia(env, s, req, shelved).0, WriteVia(env, s, req, shelved).1)
  {
    if WriteVia(env, s, req, shelved).1.Written? { WritingTidies(env, s, req, shelved); }
    if OnlyContainers(env, s.files) { WriteViaNamesContainers(env, s, req, shelved); }
    var e := env.codec.enc(req.data);
    if e.Some? {
      WithRoomOutcome(env, s, e.value, req.faults, shelved);
      var (t, room) := WithRoom(env, s, |e.value|, req.faults, shelved);
      StoredOutcome(env, s, t, room, e.value, req);
    }
  }

  lemma WriteOutcome(env: Env, s: State, req: Request)
    requires env.Assumed() && Sound(env, s) && s.containerIndex < env.limit
    ensures WriteWell(env, s, req, Write(env, s, req).0, Write(env, s, req).1)
  {
    if s.handle == OpenFile { ShelvedOutcome(env, s, req.faults); }
    WriteViaOutcome(env, s, req, Shelved(env, s, req.faults));
  }

  /** A write in which nothing fails succeeds, unless an earlier failure has closed the file. */
  lemma CalmWriteSucceeds(env: Env, s: State, req: Request)
    requires Sound(env, s) && s.handle != DeadFile && req.faults.fails == {} && env.CannotFail()
    ensures CanWrite(env, s, req)
  {}

  /** What closing guarantees, whatever fails in it. */
  ghost predicate ClosedWell(env: Env, s: State, faults: Faults, t: State, ok: bool) {
    && Sound(env, t) && t.issued == s.issued && t.ids == s.ids && t.packed == s.packed
    && t.containerIndex == s.containerIndex
    && (OnlyContainers(env, s.files) ==> OnlyContainers(env, t.files))
    && (ok && s.packed != [] ==> CompressedAlone(t.files, s.currentContainer))
    && (ok <==> s.handle == NoFile || (s.handle == OpenFile && CanShelve(env, s, faults)))
    && (ok ==> t.handle != OpenFile && Tidies(env, s, t))
  }

  lemma ClosedOutcome(env: Env, s: State, faults: Faults)
    requires env.Assumed() && Sound(env, s)
    ensures ClosedWell(env, s, faults, Closed(env, s, faults).0, Closed(env, s, faults).1)
  {
    if s.handle == OpenFile {
      ShelvedOutcome(env, s, faults);
      var (t, ok) := Shelved(env, s, faults);
      if OnlyContainers(env, s.files) { ShelvedNamesContainers(env, s, faults, t, ok); }
      if ok { ShelvingTidies(env, s, faults, t); }
    }
  }
}
