/** The container manager (lib/fio/container.go): the methods step by step,
    each proved to compute what module Containers says. */
module ContainerManagement {
  import opened Basics
  import opened ContainerFiles
  import opened Packing
  import opened Containers

  class ContainerManager {
    const env: Env
    var files: Files
    var currentContainer: bytes
    var handle: Handle
    var currentOffset: nat
    var containerIndex: nat
    var finalized: bool
    ghost var ids: seq<nat>
    ghost var packed: Packed
    ghost var issued: seq<Ticket>

    ghost function View(): State
      reads this
    {
      State(files, currentContainer, handle, currentOffset, containerIndex, ids, packed, issued)
    }

    ghost predicate Valid()
      reads this
    {
      env.Assumed() && Sound(env, View())
    }

    /** A new manager on a database directory that holds no containers. */
    constructor (env: Env, files: Files)
      requires env.Assumed() && NoOthers(env, files, [])
      ensures Valid() && this.env == env && !finalized
      ensures View() == Start(files)
    {
      this.env, this.files := env, files;
      currentContainer, handle, currentOffset, containerIndex := [], NoFile, 0, 0;
      finalized, ids, packed, issued := false, [], [], [];
    }

    /** os.Remove on the temporary file, whose own error the source ignores. */
    method RemoveTemp(path: bytes, faults: Faults) returns (ghost trace: seq<Files>)
      modifies this`files
      ensures trace == Dropped(old(files), path, faults) && files == After(old(files), trace)
    {
      trace := [];
      if Cleanup !in faults.fails {
        files := files - {TempPath(path)};
        trace := [files];
      }
    }

    /** The first part of compressContainer: write the temporary file. The trace
        lists the directory after every operation on it. */
    method WriteTemp(path: bytes, faults: Faults) returns (ok: bool, ghost trace: seq<Files>)
      modifies this`files
      ensures (trace, ok) == WriteTempTrace(env.zip, old(files), path, faults)
      ensures Linked(old(files), trace, files) && AllSafe(old(files), trace, env.zip, path)
      ensures ok ==> Shielded(old(files), files, path) && TempPath(path) in files
                     && env.zip.enc(old(files)[path]) == Some(files[TempPath(path)])
    {
      trace := [];
      WriteTempIsSafe(env.zip, files, path, faults);
      if OpenSource in faults.fails || path !in files || CreateTemp in faults.fails { return false, trace; }
      var zipped := env.zip.enc(files[path]);
      files := files[TempPath(path) := []];
      trace := [files];
      var copied := zipped.Some? && faults.fails !! {NewWriter, CopyAll, FinishWriter};
      files := files[TempPath(path) := if copied then zipped.value else faults.partial];
      trace := [trace[0], files];
      if !copied || SyncTemp in faults.fails || CloseTemp in faults.fails || CloseSource in faults.fails {
        ghost var dropped := RemoveTemp(path, faults);
        return false, trace + dropped;
      }
      return true, trace;
    }

    /** The second part: move the temporary file into place and drop the blob.
        f is the directory compressContainer started from. */
    method SwapIn(path: bytes, faults: Faults, ghost f: Files) returns (ok: bool, ghost trace: seq<Files>)
      requires env.zip.Faithful() && !HasSuffix(path, BLOBZSTEXT)
      requires Shielded(f, files, path) && TempPath(path) in files
      requires env.zip.enc(f[path]) == Some(files[TempPath(path)])
      modifies this`files
      ensures (trace, ok) == SwapInTrace(old(files), path, faults)
      ensures Linked(old(files), trace, files) && AllSafe(f, trace, env.zip, path)
      ensures ok ==> CompressedAlone(files, path)
      ensures ok <==> faults.fails !! {RemoveStale, RenameTemp, RemoveOriginal}
    {
      SwapInIsSafe(env.zip, f, files, path, faults);
      if RemoveStale in faults.fails {
        trace := RemoveTemp(path, faults);
        return false, trace;
      }
      files := files - {CompressedPath(path)};
      trace := [files];
      if RenameTemp in faults.fails {
        ghost var dropped := RemoveTemp(path, faults);
        return false, trace + dropped;
      }
      CompressedIsLonger(path);
      files := (files - {TempPath(path)})[CompressedPath(path) := files[TempPath(path)]];
      trace := [trace[0], files];
      if RemoveOriginal in faults.fails { return false, trace; }
      files := files - {path};
      return true, [trace[0], trace[1], files];
    }

    /** compressContainer. The trace lists the directory after every operation on
        it: reading through the path gives the original bytes throughout. */
    method CompressContainer(path: bytes, faults: Faults) returns (ok: bool, ghost trace: seq<Files>)
      requires env.zip.Faithful()
      modifies this`files, this`currentContainer
      ensures (trace, ok) == CompressTrace(env.zip, old(files), path, faults)
      ensures Linked(old(files), trace, files) && AllSafe(old(files), trace, env.zip, path)
      ensures ok && !NothingToCompress(path) ==> CompressedAlone(files, path)
      ensures !NothingToCompress(path) ==>
                (ok <==> path in old(files) && env.zip.enc(old(files)[path]).Some? && faults.fails !! COMPRESS_OPS)
      ensures currentContainer == if ok && old(currentContainer) == path && !NothingToCompress(path)
                                  then CompressedPath(path) else old(currentContainer)
    {
      CompressIsSafe(env.zip, files, path, faults);
      ghost var f := files;
      trace := [];
      if path == [] || HasSuffix(path, BLOBZSTEXT) { return true, trace; }
      ok, trace := WriteTemp(path, faults);
      if !ok { return; }
      ghost var rest;
      ok, rest := SwapIn(path, faults, f);
      AfterJoin(f, trace, rest);
      trace := trace + rest;
      if ok && currentContainer == path { currentContainer := CompressedPath(path); }
    }

    /** Sync, close and compress the open container; afterwards its handle is
        closed, whatever failed (a failed Sync leaves it open). */
    method ShelveCurrent(faults: Faults) returns (ok: bool)
      requires Valid() && handle == OpenFile
      modifies this`files, this`currentContainer, this`handle
      ensures Valid() && (View(), ok) == Shelved(env, old(View()), faults)
      ensures ShelvedWell(env, old(View()), faults, View(), ok)
    {
      ShelvedOutcome(env, View(), faults);
      if SyncCurrent in faults.fails { return false; }
      if CloseCurrent in faults.fails {
        handle := DeadFile;
        return false;
      }
      ghost var trace;
      ok, trace := CompressContainer(currentContainer, faults);
      handle := DeadFile;
    }

    /** The rest of createNewContainer: the next number, its directory and its file. */
    method OpenNext(faults: Faults) returns (ok: bool)
      requires Valid() && handle != OpenFile && containerIndex < env.limit
      modifies this`files, this`currentContainer, this`handle, this`currentOffset, this`containerIndex
      modifies this`ids, this`packed
      ensures Valid() && (View(), ok) == OpenedNext(env, old(View()), faults)
    {
      OpenedNextOutcome(env, View(), faults);
      ghost var next := View().(containerIndex := containerIndex + 1);
      containerIndex := containerIndex + 1;
      if MakeDir in faults.fails || OpenNew in faults.fails { return false; }
      currentContainer, currentOffset, handle := env.Blob(containerIndex), 0, OpenFile;
      files := files[currentContainer := []];
      ids, packed := ids + [containerIndex], packed + [[]];
      assert View() == Opened(env, next);
      return true;
    }

    /** createNewContainer: on success the old container is compressed and the next one open. */
    method CreateNewContainer(faults: Faults) returns (ok: bool)
      requires Valid() && containerIndex < env.limit
      modifies this`files, this`currentContainer, this`handle, this`currentOffset, this`containerIndex
      modifies this`ids, this`packed
      ensures Valid() && (View(), ok) == Created(env, old(View()), faults, Shelved(env, old(View()), faults))
      ensures CreatedWell(env, old(View()), View(), ok)
      ensures ok <==> CanCreate(env, old(View()), faults)
    {
      if handle == OpenFile { ShelvedOutcome(env, View(), faults); }
      CreatedOutcome(env, View(), faults, Shelved(env, View(), faults));
      if handle != NoFile {
        if handle == DeadFile { return false; }
        ok := ShelveCurrent(faults);
        if !ok { return; }
      }
      ok := OpenNext(faults);
    }

    /** The append at the end of doWrite, all or nothing. */
    method AppendToCurrent(encoded: bytes, ghost data: bytes)
      requires Valid() && handle == OpenFile && currentOffset <= MAX_CONTAINER_SIZE
      requires env.codec.enc(data) == Some(encoded)
      modifies this`files, this`currentOffset, this`packed, this`issued
      ensures Valid() && View() == Appended(old(View()), encoded, data)
    {
      AppendedIsSound(env, View(), encoded, data);
      issued := issued + [Ticket(NextSlot(View()), currentContainer, currentOffset, |encoded|, encoded, data)];
      packed := AppendLast(packed, encoded);
      files := files[currentContainer := files[currentContainer] + encoded];
      currentOffset := currentOffset + |encoded|;
    }

    /** doWrite's test for a new container. */
    method EnsureRoom(encoded: bytes, faults: Faults) returns (ok: bool)
      requires Valid() && containerIndex < env.limit
      modifies this`files, this`currentContainer, this`handle, this`currentOffset, this`containerIndex
      modifies this`ids, this`packed
      ensures Valid()
      ensures (View(), ok) == WithRoom(env, old(View()), |encoded|, faults, Shelved(env, old(View()), faults))
      ensures ok && handle == OpenFile ==> ReadyFor(old(View()), View(), encoded)
      ensures ok ==> handle != NoFile
    {
      if handle == OpenFile { ShelvedOutcome(env, View(), faults); }
      WithRoomOutcome(env, View(), encoded, faults, Shelved(env, View(), faults));
      if handle == NoFile || currentOffset + |encoded| > MAX_CONTAINER_SIZE {
        ok := CreateNewContainer(faults);
      } else {
        ok := true;
      }
    }

    /** doWrite. A success is one next-fit placement and one new ticket; a
        failure issues nothing and loses nothing. */
    method DoWrite(data: bytes, faults: Faults) returns (r: Response)
      requires Valid() && containerIndex < env.limit
      modifies this`files, this`currentContainer, this`handle, this`currentOffset, this`containerIndex,
               this`ids, this`packed, this`issued
      ensures (View(), r) == Write(env, old(View()), Request(data, faults))
      ensures Valid() && WriteWell(env, old(View()), Request(data, faults), View(), r)
    {
      WriteOutcome(env, View(), Request(data, faults));
      var encoded := env.codec.enc(data);
      if encoded.None? { return WriteFailed; }
      var room := EnsureRoom(encoded.value, faults);
      if !room || handle == DeadFile || AppendChunk in faults.fails { return WriteFailed; }
      var offset := currentOffset;
      AppendToCurrent(encoded.value, data);
      return Written(currentContainer, offset, |encoded.value|);
    }

    /** The finalisation Close runs once the queue is drained; later calls do nothing. */
    method Finalize(faults: Faults) returns (ok: bool)
      requires Valid()
      modifies this`files, this`currentContainer, this`handle, this`finalized
      ensures Valid() && finalized
      ensures if old(finalized) then ok && View() == old(View()) else (View(), ok) == Closed(env, old(View()), faults)
      ensures !old(finalized) ==> ClosedWell(env, old(View()), faults, View(), ok)
    {
      ClosedOutcome(env, View(), faults);
      if finalized { return true; }
      finalized := true;
      if handle == NoFile { return true; }
      if handle == DeadFile { return false; }
      ok := ShelveCurrent(faults);
    }

    /** Every ticket ever issued reads back its chunk in every state the manager reaches. */
    lemma IssuedReadable(i: nat)
      requires Valid() && i < |issued|
      ensures ReadChunk(files, env.zip, env.codec, issued[i].path, issued[i].offset, issued[i].size) ==
              Some(issued[i].data)
    {
      TicketReads(env, issued[i], files, ids, packed);
    }
  }
}
