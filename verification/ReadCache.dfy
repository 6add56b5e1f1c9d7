/** The two-tier container read cache (lib/fio/container_cache.go): whole
    containers decompressed into memory under a byte budget, others into
    temporary files, and a streaming read when the cache is off. */
module ReadCache {
  import opened Basics
  import opened ContainerFiles

  const DEFAULT_MAX_CACHE_SIZE: int := 0x8000_0000

  datatype Cached = Cached(data: bytes, lastAccess: nat)

  /** containerEntry: what eviction sorts. */
  datatype Access = Access(path: bytes, lastAccess: nat, size: nat)

  type Memory = map<bytes, Cached>

  // ----- the three read paths over one container's bytes -----

  /** streamReadCompressedChunk: discard offset bytes if there are any to discard, then read size. */
  function StreamRead(content: bytes, offset: nat, size: nat): ReadResult {
    if offset > 0 && offset > |content| then OutOfRange
    else if size > |content[offset..]| then OutOfRange
    else Read(content[offset..][..size])
  }

  /** Memory and stream agree on every window. The temporary file agrees too,
      except for an empty window past the end, which only it allows. */
  lemma PathsAgree(content: bytes, offset: nat, size: nat)
    ensures StreamRead(content, offset, size) == Window(content, offset, size)
    ensures ReadAt(content, offset, size) == Window(content, offset, size) <==> size > 0 || offset <= |content|
  {
    if offset + size <= |content| {
      assert content[offset..][..size] == content[offset..offset + size];
    }
  }

  /** What a read of a compressed container means, whatever is cached. */
  function ReadCompressed(files: Files, zip: Codec, path: bytes, offset: nat, size: nat): ReadResult {
    if path !in files then Failed
    else match zip.dec(files[path])
      case None => Failed
      case Some(content) => Window(content, offset, size)
  }

  /** No reader can tell what is cached, except by an empty read past the end
      of a container that went to a temporary file. */
  ghost predicate Transparent(files: Files, zip: Codec, path: bytes, offset: nat, size: nat, r: ReadResult) {
    || r == ReadCompressed(files, zip, path, offset, size)
    || (size == 0 && r == Read([]) && ReadCompressed(files, zip, path, offset, size) == OutOfRange)
  }

  // ----- byte accounting -----

  ghost function Total(m: Memory): nat {
    if m == map[] then 0
    else
      assert m.Keys != {};
      var p :| p in m;
      |m[p].data| + Total(m - {p})
  }

  lemma Shrinks(m: Memory, p: bytes)
    requires p in m
    ensures |m - {p}| < |m|
  {
    assert (m - {p}).Keys == m.Keys - {p};
    assert |m.Keys - {p}| < |m.Keys|;
    assert |m| == |m.Keys| && |m - {p}| == |(m - {p}).Keys|;
  }

  lemma {:induction false} TotalWithout(m: Memory, p: bytes)
    requires p in m
    ensures Total(m) == |m[p].data| + Total(m - {p})
    decreases |m|
  {
    assert m.Keys != {};
    var q :| q in m && Total(m) == |m[q].data| + Total(m - {q});
    if q != p {
      assert |m - {q}| < |m| by { Shrinks(m, q); }
      assert |m - {p}| < |m| by { Shrinks(m, p); }
      TotalWithout(m - {q}, p);
      TotalWithout(m - {p}, q);
      assert m - {q} - {p} == m - {p} - {q};
    }
  }

  lemma TotalWith(m: Memory, p: bytes, c: Cached)
    ensures p !in m ==> Total(m[p := c]) == Total(m) + |c.data|
    ensures p in m && c.data == m[p].data ==> Total(m[p := c]) == Total(m)
  {
    TotalWithout(m[p := c], p);
    if p in m {
      TotalWithout(m, p);
      assert m[p := c] - {p} == m - {p};
    } else {
      assert m[p := c] - {p} == m;
    }
  }

  // ----- eviction order -----

  ghost predicate ByAccess(entries: seq<Access>) {
    forall i, j | 0 <= i < j < |entries| :: entries[i].lastAccess <= entries[j].lastAccess
  }

  function Paths(entries: seq<Access>): set<bytes> {
    set i | 0 <= i < |entries| :: entries[i].path
  }

  lemma PathsSnoc(entries: seq<Access>, e: Access)
    ensures Paths(entries + [e]) == Paths(entries) + {e.path}
  {
    var a := entries + [e];
    forall p | p in Paths(entries) + {e.path} ensures p in Paths(a) {
      if p == e.path { assert a[|entries|].path == p; }
      else {
        var k :| 0 <= k < |entries| && entries[k].path == p;
        assert a[k].path == p;
      }
    }
  }

  /** Distinct cache entries with their recorded times and sizes. */
  ghost predicate Taken(entries: seq<Access>, m: Memory) {
    && (forall i, j | 0 <= i < j < |entries| :: entries[i].path != entries[j].path)
    && (forall i | 0 <= i < |entries| ::
          && entries[i].path in m
          && entries[i] == Access(entries[i].path, m[entries[i].path].lastAccess, |m[entries[i].path].data|))
  }

  ghost predicate Describes(entries: seq<Access>, m: Memory) {
    Taken(entries, m) && Paths(entries) == m.Keys
  }

  lemma {:induction false} LeastRecentExists(m: Memory, keys: set<bytes>)
    requires keys != {} && keys <= m.Keys
    ensures exists p :: p in keys && forall q | q in keys :: m[p].lastAccess <= m[q].lastAccess
    decreases |keys|
  {
    var p :| p in keys;
    if keys != {p} {
      assert keys - {p} != {};
      LeastRecentExists(m, keys - {p});
      var r :| r in keys - {p} && forall q | q in keys - {p} :: m[r].lastAccess <= m[q].lastAccess;
      if m[r].lastAccess <= m[p].lastAccess {
        assert forall q | q in keys :: m[r].lastAccess <= m[q].lastAccess;
      } else {
        assert forall q | q in keys :: m[p].lastAccess <= m[q].lastAccess;
      }
    } else {
      assert forall q | q in keys :: q == p;
    }
  }

  /** Sorting so far: the entries taken are no newer than any left. */
  ghost predicate Sorting(entries: seq<Access>, m: Memory, left: set<bytes>) {
    && Taken(entries, m) && ByAccess(entries)
    && left <= m.Keys && Paths(entries) == m.Keys - left
    && (forall i, p | 0 <= i < |entries| && p in left :: entries[i].lastAccess <= m[p].lastAccess)
  }

  lemma SortingStep(entries: seq<Access>, m: Memory, left: set<bytes>, p: bytes)
    requires Sorting(entries, m, left) && p in left && forall q | q in left :: m[p].lastAccess <= m[q].lastAccess
    ensures Sorting(entries + [Access(p, m[p].lastAccess, |m[p].data|)], m, left - {p})
  {
    var e := Access(p, m[p].lastAccess, |m[p].data|);
    PathsSnoc(entries, e);
    forall i | 0 <= i < |entries| ensures entries[i].path != p {
      assert entries[i].path in Paths(entries);
    }
  }

  /** The cache entries sorted by last access, equal times in any order. */
  method SortByAccess(m: Memory) returns (entries: seq<Access>)
    ensures ByAccess(entries) && Describes(entries, m)
  {
    entries := [];
    var left := m.Keys;
    while left != {}
      invariant Sorting(entries, m, left)
      decreases |left|
    {
      LeastRecentExists(m, left);
      var p :| p in left && forall q | q in left :: m[p].lastAccess <= m[q].lastAccess;
      SortingStep(entries, m, left, p);
      entries := entries + [Access(p, m[p].lastAccess, |m[p].data|)];
      left := left - {p};
    }
  }

  /** Evicting one more entry of the sorted list. */
  lemma EvictStep(m: Memory, entries: seq<Access>, i: nat)
    requires Describes(entries, m) && i < |entries|
    ensures var rest := m - Paths(entries[..i]); var p := entries[i].path;
            && p in rest && Total(rest) == entries[i].size + Total(rest - {p})
            && rest - {p} == m - Paths(entries[..i + 1])
  {
    var p := entries[i].path;
    assert p !in Paths(entries[..i]);
    assert entries[..i + 1] == entries[..i] + [entries[i]];
    PathsSnoc(entries[..i], entries[i]);
    TotalWithout(m - Paths(entries[..i]), p);
  }

  /** No victim was used more recently than a survivor. */
  ghost predicate NoNewer(victims: seq<Access>, survivors: Memory) {
    forall i, p | 0 <= i < |victims| && p in survivors :: victims[i].lastAccess <= survivors[p].lastAccess
  }

  lemma SurvivorIsNewer(m: Memory, entries: seq<Access>, k: nat, i: nat, p: bytes)
    requires ByAccess(entries) && Describes(entries, m) && i < k <= |entries|
    requires p in m && p !in Paths(entries[..k])
    ensures entries[i].lastAccess <= m[p].lastAccess
  {
    assert p in Paths(entries);
    forall n | 0 <= n < k ensures entries[n].path != p {
      assert entries[..k][n].path in Paths(entries[..k]);
    }
    var j :| 0 <= j < |entries| && entries[j].path == p;
  }

  lemma PrefixTaken(m: Memory, entries: seq<Access>, k: nat)
    requires ByAccess(entries) && Taken(entries, m) && k <= |entries|
    ensures ByAccess(entries[..k]) && Taken(entries[..k], m)
  {}

  lemma VictimsOf(m: Memory, entries: seq<Access>, k: nat)
    requires ByAccess(entries) && Describes(entries, m) && k <= |entries|
    ensures NoNewer(entries[..k], m - Paths(entries[..k]))
    ensures k == |entries| ==> m - Paths(entries[..k]) == map[]
  {
    if k == |entries| { assert entries[..k] == entries; }
    var rest := m - Paths(entries[..k]);
    forall i, p | 0 <= i < k && p in rest ensures entries[..k][i].lastAccess <= rest[p].lastAccess {
      SurvivorIsNewer(m, entries, k, i, p);
    }
  }

  // ----- what a call does to the books -----

  /** The last to be evicted: no victim is newer, and with it back the budget would not hold. */
  ghost predicate LastVictim(m: Memory, t: Memory, v: bytes, budget: int) {
    && v in m && v !in t
    && (forall w | w in m && w !in t :: m[w].lastAccess <= m[v].lastAccess)
    && Total(t) + |m[v].data| > budget
  }

  /** A container is loaded beside m: the survivors stay as they were, every victim
      is as old as any of them, none goes that need not, and the budget holds. */
  ghost predicate Loaded(m: Memory, t: Memory, path: bytes, c: Cached, budget: int) {
    && path in t && t[path] == c && Total(t) <= budget
    && (forall q | q in t && q != path :: q in m && t[q] == m[q])
    && (forall v, q | v in m && v !in t && q in t && q != path :: m[v].lastAccess <= m[q].lastAccess)
    && (m.Keys <= t.Keys || exists v :: LastVictim(m, t, v, budget))
    && (Total(m) + |c.data| <= budget ==> m.Keys <= t.Keys)
  }

  /** Whether the cache is on, what is in memory, what the account says, which
      containers are in temporary files, and the budget. */
  datatype Book = Book(on: bool, memory: Memory, size: int, onDisk: set<bytes>, budget: int) {
    ghost predicate Right() {
      size == Total(memory)
    }
  }

  /** One read: a hit renews the access time; a container within the budget is
      loaded; a larger one goes to a temporary file; and nothing else changes. */
  ghost predicate ReadMoves(files: Files, zip: Codec, before: Book, after: Book, path: bytes, now: nat) {
    var content := if path in files then zip.dec(files[path]) else None;
    && after.on == before.on && after.budget == before.budget
    && if !before.on then after == before
       else if path in before.memory then
         after == before.(memory := before.memory[path := before.memory[path].(lastAccess := now)])
       else if content.None? then after == before
       else if |content.value| <= before.budget then
         && Loaded(before.memory, after.memory, path, Cached(content.value, now), before.budget)
         && after.Right() && after.onDisk == before.onDisk
       else after == before.(onDisk := before.onDisk + {path})
  }

  lemma InsertedIsLoaded(m: Memory, victims: seq<Access>, path: bytes, c: Cached, budget: int)
    requires var t := (m - Paths(victims))[path := c];
             && path !in m && ByAccess(victims) && Taken(victims, m) && NoNewer(victims, m - Paths(victims))
             && Total(t) <= budget && (Total(m) + |c.data| <= budget ==> victims == [])
             && (victims != [] ==> Total(t) + victims[|victims| - 1].size > budget)
    ensures Loaded(m, (m - Paths(victims))[path := c], path, c, budget)
  {
    var t := (m - Paths(victims))[path := c];
    forall v | v in m && v !in t ensures exists i :: 0 <= i < |victims| && victims[i].path == v {
      assert v in Paths(victims);
    }
    if victims != [] {
      var last := victims[|victims| - 1];
      assert last.path in Paths(victims);
      assert LastVictim(m, t, last.path, budget);
    }
  }

  class ContainerReadCache {
    const zip: Codec
    var memory: Memory
    var disk: map<bytes, nat>       // container path -> temporary file
    var temp: map<nat, bytes>       // temporary files by the number CreateTemp gave them
    var nextTemp: nat
    var on: bool
    var maxCacheSize: int
    var currentCacheSize: int

    ghost predicate Valid()
      reads this
    {
      && currentCacheSize == Total(memory)
      && (forall p | p in disk :: disk[p] in temp)
      && (forall n | n in temp :: n < nextTemp)
      && (!on ==> memory == map[] && disk == map[])
    }

    /** Whatever is cached is the decompressed content of the container as it is on disk. */
    ghost predicate Coherent(files: Files)
      reads this
    {
      && (forall p | p in memory :: p in files && zip.dec(files[p]) == Some(memory[p].data))
      && (forall p | p in disk :: p in files && disk[p] in temp && zip.dec(files[p]) == Some(temp[disk[p]]))
    }

    ghost function Books(): Book
      reads this
    {
      Book(on, memory, currentCacheSize, disk.Keys, maxCacheSize)
    }

    constructor (zip: Codec)
      ensures Valid() && this.zip == zip && !on && maxCacheSize == DEFAULT_MAX_CACHE_SIZE
      ensures memory == map[] && disk == map[] && currentCacheSize == 0
    {
      this.zip := zip;
      memory, disk, temp, nextTemp := map[], map[], map[], 0;
      on, maxCacheSize, currentCacheSize := false, DEFAULT_MAX_CACHE_SIZE, 0;
    }

    method Enable()
      requires Valid()
      modifies this`on
      ensures Valid() && on
    {
      on := true;
    }

    method SetSize(sizeBytes: int)
      requires Valid()
      modifies this`maxCacheSize
      ensures Valid() && maxCacheSize == sizeBytes
    {
      maxCacheSize := sizeBytes;
    }

    method Disable()
      requires Valid()
      modifies this
      ensures Valid() && !on && memory == map[] && disk == map[] && temp == map[]
      ensures currentCacheSize == 0 && maxCacheSize == old(maxCacheSize)
    {
      on, memory, currentCacheSize, disk, temp := false, map[], 0, map[], map[];
    }

    /** The deletion loop over the sorted entries; k of them go. */
    method EvictInOrder(entries: seq<Access>, needed: nat) returns (k: nat)
      requires currentCacheSize == Total(memory) && Describes(entries, memory)
      modifies this`memory, this`currentCacheSize
      ensures currentCacheSize == Total(memory)
      ensures k <= |entries| && memory == old(memory) - Paths(entries[..k])
      ensures k < |entries| ==> currentCacheSize + needed <= maxCacheSize
      ensures k > 0 ==> currentCacheSize + entries[k - 1].size + needed > maxCacheSize
    {
      k := 0;
      ghost var before := memory;
      assert memory == before - Paths(entries[..0]);
      while k < |entries|
        invariant k <= |entries|
        invariant memory == before - Paths(entries[..k])
        invariant currentCacheSize == Total(memory)
        invariant k > 0 ==> currentCacheSize + entries[k - 1].size + needed > maxCacheSize
      {
        if currentCacheSize + needed <= maxCacheSize { break; }
        EvictStep(before, entries, k);
        memory := memory - {entries[k].path};
        currentCacheSize := currentCacheSize - entries[k].size;
        k := k + 1;
      }
    }

    /** evictLRUContainers: drops least recently used containers until the new
        one fits, and no further. */
    method Evict(needed: nat) returns (ghost victims: seq<Access>)
      requires currentCacheSize == Total(memory)
      modifies this`memory, this`currentCacheSize
      ensures currentCacheSize == Total(memory)
      ensures memory == old(memory) - Paths(victims)
      ensures ByAccess(victims) && Taken(victims, old(memory))
      ensures NoNewer(victims, memory)
      ensures memory == map[] || currentCacheSize + needed <= maxCacheSize
      ensures old(currentCacheSize) + needed <= maxCacheSize ==> victims == []
      ensures victims != [] ==> currentCacheSize + victims[|victims| - 1].size + needed > maxCacheSize
    {
      victims := [];
      assert memory == memory - Paths([]);
      if currentCacheSize + needed <= maxCacheSize { return; }
      ghost var before := memory;
      var entries := SortByAccess(memory);
      var k := EvictInOrder(entries, needed);
      VictimsOf(before, entries, k);
      PrefixTaken(before, entries, k);
      victims := entries[..k];
    }

    method DecompressToDisk(files: Files, path: bytes) returns (r: Option<nat>)
      requires Valid() && Coherent(files) && on
      modifies this`disk, this`temp, this`nextTemp
      ensures Valid() && Coherent(files)
      ensures r == None <==> path !in files || zip.dec(files[path]) == None
      ensures r.Some? ==> r.value in temp && temp[r.value] == zip.dec(files[path]).value
      ensures if r.Some? && path !in old(disk) then
                r.value !in old(temp) && disk == old(disk)[path := r.value] &&
                temp == old(temp)[r.value := zip.dec(files[path]).value]
              else disk == old(disk) && temp == old(temp)
    {
      if path in disk { return Some(disk[path]); }
      if path !in files { return None; }
      var content := zip.dec(files[path]);
      if content.None? { return None; }
      var name := nextTemp;
      nextTemp := nextTemp + 1;
      temp := temp[name := content.value];
      disk := disk[path := name];
      return Some(name);
    }

    /** Make room, then cache: the budget holds again even if it was lowered meanwhile,
        and putting the last victim back would break it. */
    method Insert(path: bytes, c: Cached) returns (ghost victims: seq<Access>)
      requires currentCacheSize == Total(memory) && path !in memory && |c.data| <= maxCacheSize
      modifies this`memory, this`currentCacheSize
      ensures currentCacheSize == Total(memory) <= maxCacheSize
      ensures memory == (old(memory) - Paths(victims))[path := c]
      ensures ByAccess(victims) && Taken(victims, old(memory)) && NoNewer(victims, old(memory) - Paths(victims))
      ensures victims != [] ==> currentCacheSize + victims[|victims| - 1].size > maxCacheSize
      ensures Loaded(old(memory), memory, path, c, maxCacheSize)
    {
      ghost var before := memory;
      victims := Evict(|c.data|);
      assert memory == map[] ==> Total(memory) == 0;
      TotalWith(memory, path, c);
      memory := memory[path := c];
      currentCacheSize := currentCacheSize + |c.data|;
      InsertedIsLoaded(before, victims, path, c, maxCacheSize);
    }

    /** loadAndCacheDecompressedContainer: Some(None) stands for "not cached, no error". */
    method LoadAndCache(files: Files, path: bytes, now: nat) returns (r: Option<Option<bytes>>)
      requires Valid() && Coherent(files)
      modifies this`memory, this`currentCacheSize
      ensures Valid() && Coherent(files)
      ensures r == None <==> on && (path !in files || zip.dec(files[path]) == None)
      ensures r.Some? && r.value.Some? ==>
                path in files && zip.dec(files[path]) == Some(r.value.value) && path in memory
      ensures on && path in files && zip.dec(files[path]).Some? && |zip.dec(files[path]).value| <= maxCacheSize ==>
                r.Some? && r.value.Some?
      ensures path in old(memory) || path !in memory ==> memory == old(memory)
      ensures memory.Keys <= old(memory).Keys + {path}
      ensures path in memory && path !in old(memory) ==>
                currentCacheSize <= maxCacheSize && memory[path].lastAccess == now
      ensures path !in old(memory) ==>
                (path in memory <==> r.Some? && r.value.Some?) &&
                (path in memory ==> |zip.dec(files[path]).value| <= maxCacheSize)
      ensures r.Some? && r.value.Some? && path !in old(memory) ==>
                Loaded(old(memory), memory, path, Cached(r.value.value, now), maxCacheSize)
    {
      if !on { return Some(None); }
      if path !in files { return None; }
      var content := zip.dec(files[path]);
      if content.None? { return None; }
      if path in memory { return Some(Some(memory[path].data)); }
      if |content.value| > maxCacheSize { return Some(None); }
      ghost var victims := Insert(path, Cached(content.value, now));
      return Some(content);
    }

    /** getCachedDecompressedContainer. */
    method GetCached(files: Files, path: bytes, now: nat) returns (r: Option<bytes>)
      requires Valid() && Coherent(files)
      modifies this`memory
      ensures Valid() && Coherent(files)
      ensures r.Some? <==> on && path in old(memory)
      ensures r.Some? ==> path in files && zip.dec(files[path]) == r
      ensures memory == if r.Some? then old(memory)[path := old(memory)[path].(lastAccess := now)] else old(memory)
    {
      if !on || path !in memory { return None; }
      TotalWith(memory, path, memory[path].(lastAccess := now));
      memory := memory[path := memory[path].(lastAccess := now)];
      return Some(memory[path].data);
    }

    /** The half of readFromCompressedContainer for a container that is not in memory. */
    method ReadAround(files: Files, path: bytes, offset: nat, size: nat) returns (r: ReadResult)
      requires Valid() && Coherent(files)
      modifies this`disk, this`temp, this`nextTemp
      ensures Valid() && Coherent(files)
      ensures Transparent(files, zip, path, offset, size, r)
      ensures disk.Keys == if on && path in files && zip.dec(files[path]).Some? then old(disk).Keys + {path}
                           else old(disk).Keys
    {
      if on {
        var file := DecompressToDisk(files, path);
        if file.None? { return Failed; }
        PathsAgree(temp[file.value], offset, size);
        return ReadAt(temp[file.value], offset, size);
      }
      if path !in files { return Failed; }
      var content := zip.dec(files[path]);
      if content.None? { return Failed; }
      PathsAgree(content.value, offset, size);
      return StreamRead(content.value, offset, size);
    }

    /** readFromCompressedContainer. */
    method ReadFromCompressed(files: Files, path: bytes, offset: nat, size: nat, now: nat) returns (r: ReadResult)
      requires Valid() && Coherent(files)
      modifies this`memory, this`currentCacheSize, this`disk, this`temp, this`nextTemp
      ensures Valid() && Coherent(files)
      ensures Transparent(files, zip, path, offset, size, r)
      ensures ReadMoves(files, zip, old(Books()), Books(), path, now)
      ensures memory.Keys <= old(memory).Keys || currentCacheSize <= maxCacheSize
      ensures path in memory ==> memory[path].lastAccess == now
      ensures on && path in files && zip.dec(files[path]).Some? && |zip.dec(files[path]).value| <= maxCacheSize ==>
                path in memory
    {
      var cached := GetCached(files, path, now);
      if cached.Some? { return Window(cached.value, offset, size); }
      var loaded := LoadAndCache(files, path, now);
      if loaded.None? { return Failed; }
      if loaded.value.Some? { return Window(loaded.value.value, offset, size); }
      r := ReadAround(files, path, offset, size);
    }
  }

  // ----- whole runs -----

  datatype Op =
    | Enable
    | Disable
    | SetSize(sizeBytes: int)
    | ReadWindow(path: bytes, offset: nat, size: nat, now: nat)

  /** The right answer to one call: nothing for a switch, and for a non-empty
      read what the container holds. */
  ghost predicate Answers(files: Files, zip: Codec, op: Op, r: Option<ReadResult>) {
    match op
    case ReadWindow(path, offset, size, _) =>
      r.Some? && (size > 0 ==> r.value == ReadCompressed(files, zip, path, offset, size))
    case _ => r == None
  }

  ghost predicate Moves(files: Files, zip: Codec, op: Op, before: Book, after: Book) {
    match op
    case Enable => after == before.(on := true)
    case Disable => after == Book(false, map[], 0, {}, before.budget)
    case SetSize(sizeBytes) => after == before.(budget := sizeBytes)
    case ReadWindow(path, _, _, now) => ReadMoves(files, zip, before, after, path, now)
  }

  /** Only a read loads containers, and after loading the budget holds, even if it was lowered before. */
  ghost predicate WithinBudget(op: Op, before: Book, after: Book) {
    && (op.ReadWindow? ==> after.budget == before.budget)
    && (!(after.memory.Keys <= before.memory.Keys) ==> op.ReadWindow? && after.size <= after.budget)
  }

  method Call(cache: ContainerReadCache, files: Files, op: Op) returns (r: Option<ReadResult>, book: Book)
    requires cache.Valid() && cache.Coherent(files)
    modifies cache
    ensures cache.Valid() && cache.Coherent(files)
    ensures Answers(files, cache.zip, op, r)
    ensures book == cache.Books() && book.Right()
    ensures Moves(files, cache.zip, op, old(cache.Books()), book)
    ensures WithinBudget(op, old(cache.Books()), book)
  {
    r := None;
    match op {
      case Enable => cache.Enable();
      case Disable => cache.Disable();
      case SetSize(sizeBytes) => cache.SetSize(sizeBytes);
      case ReadWindow(path, offset, size, now) =>
        var read := cache.ReadFromCompressed(files, path, offset, size, now);
        r := Some(read);
    }
    book := Book(cache.on, cache.memory, cache.currentCacheSize, cache.disk.Keys, cache.maxCacheSize);
  }

  /** Any sequence of switching, resizing and reading over unchanging files:
      every non-empty read returns what the container holds, the account is
      right after every call, no call leaves a newly loaded container in a memory
      above the budget, and between the calls the memory changes by what a least
      recently used cache needs and by nothing more. */
  method Replay(files: Files, zip: Codec, ops: seq<Op>) returns (results: seq<Option<ReadResult>>, books: seq<Book>)
    ensures |results| == |ops| && forall i | 0 <= i < |ops| :: Answers(files, zip, ops[i], results[i])
    ensures |books| == |ops| + 1 && books[0] == Book(false, map[], 0, {}, DEFAULT_MAX_CACHE_SIZE)
    ensures forall i | 0 <= i < |books| :: books[i].Right()
    ensures forall i | 0 <= i < |ops| :: Moves(files, zip, ops[i], books[i], books[i + 1])
    ensures forall i | 0 <= i < |ops| :: WithinBudget(ops[i], books[i], books[i + 1])
  {
    var cache := new ContainerReadCache(zip);
    results, books := [], [Book(false, map[], 0, {}, DEFAULT_MAX_CACHE_SIZE)];
    for n := 0 to |ops|
      invariant cache.Valid() && cache.Coherent(files) && cache.zip == zip && fresh(cache)
      invariant |results| == n && forall i | 0 <= i < n :: Answers(files, zip, ops[i], results[i])
      invariant |books| == n + 1 && books[0] == Book(false, map[], 0, {}, DEFAULT_MAX_CACHE_SIZE)
      invariant books[n] == cache.Books()
      invariant forall i | 0 <= i <= n :: books[i].Right()
      invariant forall i | 0 <= i < n :: Moves(files, zip, ops[i], books[i], books[i + 1])
      invariant forall i | 0 <= i < n :: WithinBudget(ops[i], books[i], books[i + 1])
    {
      var r, book := Call(cache, files, ops[n]);
      results, books := results + [r], books + [book];
    }
  }
}
