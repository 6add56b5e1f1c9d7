/** The object that owns the pending block and the block files, proved against
    the ledger of module BlockIndex. */
module BlockManagement {
  import opened Basics
  import opened BlockCodec
  import opened BlockIndex

  lemma WrittenSoFar(entries: seq<TypedEntry>, i: nat)
    requires i < |entries|
    ensures SerializeAll(entries[..i + 1]) == SerializeAll(entries[..i]) + Serialize(entries[i])
  {
    SerializeAppend(entries[..i], [entries[i]]);
    assert entries[..i + 1] == entries[..i] + [entries[i]];
    assert [entries[i]][1..] == [];
    assert Serialize(entries[i]) + [] == Serialize(entries[i]);
  }

  /** The write loop of flushBlock: hash, offset, size, path length and path of every entry. */
  method WriteEntries(file: bytes, entries: seq<TypedEntry>) returns (out: bytes)
    ensures out == file + SerializeAll(entries)
  {
    out := file;
    assert entries[..0] == [];
    for i := 0 to |entries|
      invariant out == file + SerializeAll(entries[..i])
    {
      var e := entries[i];
      WrittenSoFar(entries, i);
      ConcatAssoc(file, SerializeAll(entries[..i]), Serialize(e));
      out := out + (e.hash + Le(8, ToUnsigned(e.offset)) + Le(8, ToUnsigned(e.size)) + Le(2, |e.path|) + e.path);
    }
    assert entries[..|entries|] == entries;
  }

  lemma FilesOfUpdate(stored: map<bytes, seq<TypedEntry>>, file: bytes, entries: seq<TypedEntry>)
    ensures FilesOf(stored[file := entries]) == FilesOf(stored)[file := SerializeAll(entries)]
  {}

  class BlockManager {
    const dir: bytes
    var files: map<bytes, bytes>
    var currentBlock: Option<Block>
    var chunkCount: nat
    ghost var stored: map<bytes, seq<TypedEntry>>
    ghost var log: seq<TypedEntry>

    ghost function View(): Ledger
      reads this
    {
      Ledger(stored, currentBlock)
    }

    /** The files hold what the ledger says, and the ledger answers for the log. */
    ghost predicate Valid()
      reads this
    {
      && files == FilesOf(stored)
      && (currentBlock.Some? ==> chunkCount == |currentBlock.value.entries|)
      && Agrees(dir, View(), log) && FromLog(View(), log)
    }

    constructor (dir: bytes)
      ensures Valid() && this.dir == dir
      ensures View() == EMPTY && log == []
    {
      this.dir := dir;
      files, currentBlock, chunkCount := map[], None, 0;
      stored, log := map[], [];
    }

    /** flushBlock: appends the pending entries to their file. */
    method FlushBlock(io: FlushIo) returns (ok: bool)
      requires currentBlock.Some? && chunkCount == |currentBlock.value.entries|
      requires files == FilesOf(stored)
      modifies this`files, this`stored
      ensures (View(), ok) == old(View()).Flush(io)
      ensures files == FilesOf(stored)
    {
      var block := currentBlock.value;
      if chunkCount == 0 { return true; }
      if io.OpenFails? { return false; }
      ghost var before := View().Stored(block.file);
      var out := WriteEntries(if block.file in files then files[block.file] else [], block.entries);
      SerializeAppend(before, block.entries);
      FilesOfUpdate(stored, block.file, before + block.entries);
      files := files[block.file := out];
      stored := stored[block.file := before + block.entries];
      return io.Fine?;
    }

    /** The first half of AddChunkMetadata: a pending block of another file is flushed away. */
    method SwitchTo(file: bytes, io: FlushIo) returns (ok: bool)
      requires currentBlock.Some? ==> chunkCount == |currentBlock.value.entries|
      requires files == FilesOf(stored)
      modifies this`files, this`stored, this`currentBlock, this`chunkCount
      ensures (View(), ok) == old(View()).SwitchTo(file, io)
      ensures currentBlock.Some? ==> chunkCount == |currentBlock.value.entries|
      ensures files == FilesOf(stored)
    {
      if currentBlock == None || currentBlock.value.file != file {
        if currentBlock.Some? && chunkCount > 0 {
          ok := FlushBlock(io);
          if !ok { return; }
        }
        currentBlock, chunkCount := Some(Block(file, [])), 0;
      }
      return true;
    }

    /** The end of AddChunkMetadata: a full block is flushed away. */
    method FlushIfFull(io: FlushIo) returns (ok: bool)
      requires currentBlock.Some? && chunkCount == |currentBlock.value.entries|
      requires files == FilesOf(stored)
      modifies this`files, this`stored, this`currentBlock
      ensures (View(), ok) == old(View()).FlushIfFull(io)
      ensures currentBlock.Some? ==> chunkCount == |currentBlock.value.entries|
      ensures files == FilesOf(stored)
    {
      if chunkCount >= CHUNKS_PER_BLOCK {
        ok := FlushBlock(io);
        if !ok { return; }
        currentBlock := None;
      }
      return true;
    }

    /** AddChunkMetadata. */
    method AddChunkMetadata(key: bytes, path: bytes, offset: int, size: int, io: FlushIo) returns (ok: bool)
      requires Valid()
      requires |key| == CHONK_NAMESPACE_LENGTH + HASH_LENGTH && IsInt64(offset) && IsInt64(size)
      modifies this
      ensures Valid()
      ensures var e := Entry(key[CHONK_NAMESPACE_LENGTH..], path, offset, size);
              var a := Add(dir, old(View()), e, io);
              View() == a.ledger && ok == a.ok && log == if a.logged then old(log) + [e] else old(log)
    {
      var e: TypedEntry := Entry(key[CHONK_NAMESPACE_LENGTH..], path, offset, size);
      AddKeepsAgreement(dir, View(), log, e, io);
      AddKeepsFromLog(dir, View(), log, e, io);
      ok := SwitchTo(BlockFile(dir, e.hash), io);
      if !ok { return; }
      currentBlock := Some(Block(currentBlock.value.file, currentBlock.value.entries + [e]));
      chunkCount := chunkCount + 1;
      log := log + [e];
      ok := FlushIfFull(io);
    }

    method Close(io: FlushIo) returns (ok: bool)
      requires Valid()
      modifies this
      ensures Valid() && log == old(log)
      ensures (View(), ok) == CloseLedger(old(View()), io)
      ensures ok ==> Settled(dir, View(), log)
    {
      ok := true;
      CloseSettles(dir, View(), log, io);
      if View().HasPending() { FlushKeepsFromLog(View(), log, io); }
      if currentBlock.Some? && chunkCount > 0 {
        ok := FlushBlock(io);
      }
    }

    /** GetChunkMetadata: reads the block file only, never the pending block. */
    method GetChunkMetadata(key: bytes) returns (r: SearchResult)
      requires |key| == CHONK_NAMESPACE_LENGTH + HASH_LENGTH
      ensures r == Lookup(dir, files, key[CHONK_NAMESPACE_LENGTH..])
    {
      var hash := key[CHONK_NAMESPACE_LENGTH..];
      var file := BlockFile(dir, hash);
      if file !in files { return NotFound; }
      r := SearchBlockFile(files[file], hash);
    }
  }
}
