/** The binary entry format of a block index file (lib/fio/blockindex.go):
    64-byte hash, little-endian int64 offset and size, uint16 path length, path. */
module BlockCodec {
  import opened Basics

  const HASH_LENGTH: nat := 64
  const HEADER_LENGTH: nat := 82
  const TWO64: int := 0x1_0000_0000_0000_0000

  datatype Entry = Entry(hash: bytes, path: bytes, offset: int, size: int) {
    /** What Go's types guarantee of a ChunkMetadata value. */
    predicate Typed() {
      |hash| == HASH_LENGTH && IsInt64(offset) && IsInt64(size)
    }

    /** The path length survives the uint16 field. */
    predicate Fits() {
      |path| < 65536
    }
  }

  type TypedEntry = e: Entry | e.Typed() witness Entry(seq(64, _ => 0), [], 0, 0)

  /** The n low-order base-256 digits of v, least significant first. */
  function Le(n: nat, v: nat): (s: bytes)
    ensures |s| == n
  {
    if n == 0 then [] else [v % 256] + Le(n - 1, v / 256)
  }

  function UnLe(s: bytes): nat {
    if s == [] then 0 else s[0] + 256 * UnLe(s[1..])
  }

  lemma {:induction false} ZerosAreZero(s: bytes)
    requires forall i | 0 <= i < |s| :: s[i] == 0
    ensures UnLe(s) == 0
  {
    if s != [] { ZerosAreZero(s[1..]); }
  }

  function Pow256(n: nat): (p: nat)
    ensures p > 0
  {
    if n == 0 then 1 else 256 * Pow256(n - 1)
  }

  lemma DivisionIsUnique(v: nat, m: nat, q: nat, r: nat)
    requires m > 0 && v == m * q + r && r < m
    ensures v % m == r
  {
    var d, e := v / m, v % m;
    assert v == m * d + e;
    assert d < q ==> m * (d + 1) <= m * q;
    assert d > q ==> m * (q + 1) <= m * d;
  }

  lemma Shift(v: nat, m: nat)
    requires m > 0
    ensures v % (256 * m) == v % 256 + 256 * ((v / 256) % m)
  {
    var q, r := (v / 256) / m, (v / 256) % m;
    assert v == 256 * (q * m + r) + v % 256;
    assert v == (256 * m) * q + (256 * r + v % 256);
    assert 0 <= 256 * r + v % 256 < 256 * m;
    DivisionIsUnique(v, 256 * m, q, 256 * r + v % 256);
  }

  lemma {:induction false} LeInverts(n: nat, v: nat)
    ensures UnLe(Le(n, v)) == v % Pow256(n)
  {
    if n != 0 {
      LeInverts(n - 1, v / 256);
      assert Le(n, v)[1..] == Le(n - 1, v / 256);
      Shift(v, Pow256(n - 1));
    }
  }

  /** Each byte of a field weighs 256 times the one before it: the lowest stands first. */
  lemma {:induction false} LaterBytesWeighMore(s: bytes, last: byte)
    ensures UnLe(s + [last]) == UnLe(s) + Pow256(|s|) * last
  {
    if s == [] {
      assert UnLe([last]) == last + 256 * UnLe([]);
    } else {
      var p := Pow256(|s| - 1);
      LaterBytesWeighMore(s[1..], last);
      assert (s + [last])[1..] == s[1..] + [last];
      assert 256 * (p * last) == (256 * p) * last;
    }
  }

  lemma Pow8()
    ensures Pow256(2) == 65536 && Pow256(8) == TWO64
  {
    assert Pow256(4) == 0x1_0000_0000;
  }

  /** Two's complement, as binary.Write and binary.Read see an int64. */
  function ToUnsigned(v: int): (u: nat)
    requires IsInt64(v)
  {
    if v < 0 then v + TWO64 else v
  }

  function ToSigned(u: int): int {
    if u <= INT64_MAX then u else u - TWO64
  }

  function Serialize(e: TypedEntry): (s: bytes)
    ensures |s| == HEADER_LENGTH + |e.path|
  {
    e.hash + Le(8, ToUnsigned(e.offset)) + Le(8, ToUnsigned(e.size)) + Le(2, |e.path|) + e.path
  }

  function SerializeAll(es: seq<TypedEntry>): bytes {
    if es == [] then [] else Serialize(es[0]) + SerializeAll(es[1..])
  }

  /** One entry off the front of a file; None when the file ends inside it. */
  function ReadEntry(f: bytes): (r: Option<Entry>)
    ensures r.Some? ==> |f| >= HEADER_LENGTH + |r.value.path|
  {
    if |f| < HEADER_LENGTH then None
    else
      var length := UnLe(f[80..82]);
      if |f| < HEADER_LENGTH + length then None
      else Some(Entry(f[..64], f[HEADER_LENGTH..HEADER_LENGTH + length],
                      ToSigned(UnLe(f[64..72])), ToSigned(UnLe(f[72..80]))))
  }

  datatype SearchResult = Found(path: bytes, offset: int, size: int) | NotFound | ReadError

  /** What searchBlockFile answers on a file with these bytes. */
  function Search(f: bytes, target: bytes): SearchResult
    decreases |f|
  {
    if f == [] then NotFound
    else match ReadEntry(f)
      case None => ReadError
      case Some(e) =>
        if e.hash == target then Found(e.path, e.offset, e.size)
        else Search(f[HEADER_LENGTH + |e.path|..], target)
  }

  /** Every entry of a file, or None when the file ends inside an entry. */
  function ParseAll(f: bytes): Option<seq<Entry>>
    decreases |f|
  {
    if f == [] then Some([])
    else match ReadEntry(f)
      case None => None
      case Some(e) =>
        match ParseAll(f[HEADER_LENGTH + |e.path|..])
        case None => None
        case Some(rest) => Some([e] + rest)
  }

  lemma SignedRoundTrip(v: int)
    requires IsInt64(v)
    ensures ToSigned(UnLe(Le(8, ToUnsigned(v)))) == v
  {
    Pow8();
    LeInverts(8, ToUnsigned(v));
  }

  lemma LengthField(n: nat)
    ensures UnLe(Le(2, n)) == n % 65536
  {
    Pow8();
    LeInverts(2, n);
  }

  lemma HeaderSlices(h: bytes, o: bytes, z: bytes, n: bytes, path: bytes, rest: bytes)
    requires |h| == 64 && |o| == 8 && |z| == 8 && |n| == 2
    ensures var f := h + o + z + n + path + rest;
            f[..64] == h && f[64..72] == o && f[72..80] == z && f[80..82] == n
  {}

  /** The header fields of a serialised entry, with whatever follows it. */
  lemma HeaderOf(e: TypedEntry, rest: bytes)
    ensures var f := Serialize(e) + rest;
            f[..64] == e.hash && ToSigned(UnLe(f[64..72])) == e.offset &&
            ToSigned(UnLe(f[72..80])) == e.size && UnLe(f[80..82]) == |e.path| % 65536
  {
    HeaderSlices(e.hash, Le(8, ToUnsigned(e.offset)), Le(8, ToUnsigned(e.size)), Le(2, |e.path|), e.path, rest);
    SignedRoundTrip(e.offset);
    SignedRoundTrip(e.size);
    LengthField(|e.path|);
  }

  /** An entry comes back whole exactly when its path length fits the uint16. */
  lemma EntryRoundTrip(e: TypedEntry, rest: bytes)
    ensures ReadEntry(Serialize(e) + rest) == Some(e) <==> e.Fits()
    ensures e.Fits() ==> (Serialize(e) + rest)[HEADER_LENGTH + |e.path|..] == rest
  {
    HeaderOf(e, rest);
    var f := Serialize(e) + rest;
    if e.Fits() {
      assert |e.path| % 65536 == |e.path|;
      assert f[HEADER_LENGTH..HEADER_LENGTH + |e.path|] == e.path;
    } else {
      assert |e.path| % 65536 < |e.path|;
    }
  }

  ghost predicate AllFit(es: seq<TypedEntry>) {
    forall i | 0 <= i < |es| :: es[i].Fits()
  }

  lemma {:induction false} ParseInvertsSerialize(es: seq<TypedEntry>)
    requires AllFit(es)
    ensures ParseAll(SerializeAll(es)) == Some(es)
  {
    if es != [] {
      EntryRoundTrip(es[0], SerializeAll(es[1..]));
      ParseInvertsSerialize(es[1..]);
      assert [es[0]] + es[1..] == es;
    }
  }

  lemma ConcatAssoc(a: bytes, b: bytes, c: bytes)
    ensures a + (b + c) == a + b + c
  {}

  lemma {:induction false} SerializeAppend(es: seq<TypedEntry>, more: seq<TypedEntry>)
    ensures SerializeAll(es + more) == SerializeAll(es) + SerializeAll(more)
  {
    if es == [] {
      assert es + more == more;
    } else {
      SerializeAppend(es[1..], more);
      assert (es + more)[1..] == es[1..] + more && (es + more)[0] == es[0];
      ConcatAssoc(Serialize(es[0]), SerializeAll(es[1..]), SerializeAll(more));
    }
  }

  /** The first entry logged for a hash. */
  function FirstMatch(es: seq<Entry>, hash: bytes): (r: Option<Entry>)
    ensures r.Some? ==> r.value in es && r.value.hash == hash
    ensures r.None? ==> forall e | e in es :: e.hash != hash
  {
    if es == [] then None
    else if es[0].hash == hash then Some(es[0])
    else FirstMatch(es[1..], hash)
  }

  function Answer(m: Option<Entry>): SearchResult {
    match m
    case None => NotFound
    case Some(e) => Found(e.path, e.offset, e.size)
  }

  /** How many leading entries lie wholly before the cut. */
  function WholeBefore(es: seq<TypedEntry>, cut: nat): (k: nat)
    ensures k <= |es|
  {
    if es == [] || cut < |Serialize(es[0])| then 0
    else 1 + WholeBefore(es[1..], cut - |Serialize(es[0])|)
  }

  /** The answer a file cut at `cut` owes, told from the log and the entries before the cut. */
  function CutAnswer(es: seq<TypedEntry>, cut: nat, target: bytes): SearchResult {
    var whole := es[..WholeBefore(es, cut)];
    if FirstMatch(whole, target).Some? then Answer(FirstMatch(whole, target))
    else if cut == |SerializeAll(whole)| then NotFound
    else ReadError
  }

  lemma CutAnswerStep(es: seq<TypedEntry>, cut: nat, target: bytes)
    requires es != [] && cut >= |Serialize(es[0])|
    ensures CutAnswer(es, cut, target) ==
            if es[0].hash == target then Answer(Some(es[0]))
            else CutAnswer(es[1..], cut - |Serialize(es[0])|, target)
  {
    var k := WholeBefore(es, cut);
    assert es[..k][1..] == es[1..][..k - 1];
  }

  lemma CutEntry(e: TypedEntry, rest: bytes, cut: nat)
    requires e.Fits() && 0 < cut < |Serialize(e)|
    ensures ReadEntry((Serialize(e) + rest)[..cut]) == None
  {
    var f := Serialize(e) + rest;
    HeaderOf(e, rest);
    if cut >= HEADER_LENGTH {
      assert f[..cut][80..82] == f[80..82];
    }
  }

  /** A file cut anywhere: the search sees exactly the whole entries, and says
      "not found" only when the cut is on an entry boundary. */
  lemma {:induction false} CutFile(es: seq<TypedEntry>, cut: nat, target: bytes)
    requires AllFit(es) && cut <= |SerializeAll(es)|
    ensures Search(SerializeAll(es)[..cut], target) == CutAnswer(es, cut, target)
  {
    if es == [] {
    } else if cut < |Serialize(es[0])| {
      assert es[..0] == [];
      if cut != 0 {
        CutEntry(es[0], SerializeAll(es[1..]), cut);
      }
    } else {
      var e, rest := es[0], es[1..];
      var left := cut - |Serialize(e)|;
      CutFile(rest, left, target);
      CutAnswerStep(es, cut, target);
      EntryRoundTrip(e, SerializeAll(rest)[..left]);
      assert SerializeAll(es)[..cut] == Serialize(e) + SerializeAll(rest)[..left];
    }
  }

  lemma {:induction false} WholeBeforeAll(es: seq<TypedEntry>)
    ensures WholeBefore(es, |SerializeAll(es)|) == |es|
  {
    if es != [] { WholeBeforeAll(es[1..]); }
  }

  /** On an intact file the search is a first-match lookup. */
  lemma SearchIsFirstMatch(es: seq<TypedEntry>, target: bytes)
    requires AllFit(es)
    ensures Search(SerializeAll(es), target) == Answer(FirstMatch(es, target))
  {
    var file := SerializeAll(es);
    CutFile(es, |file|, target);
    WholeBeforeAll(es);
    assert file[..|file|] == file && es[..|es|] == es;
  }

  /** Whatever follows intact entries, a write that stopped half way included, the
      search answers from them first. */
  lemma {:induction false} SearchAppend(es: seq<TypedEntry>, more: bytes, target: bytes)
    requires AllFit(es)
    ensures Search(SerializeAll(es) + more, target) ==
            if FirstMatch(es, target).Some? then Answer(FirstMatch(es, target)) else Search(more, target)
  {
    if es == [] {
      assert SerializeAll(es) + more == more;
    } else {
      var e, rest := es[0], es[1..];
      SearchAppend(rest, more, target);
      EntryRoundTrip(e, SerializeAll(rest) + more);
      ConcatAssoc(Serialize(e), SerializeAll(rest), more);
    }
  }

  /** But what is written behind a torn entry is misread: a flush that stops after
      the hash and is then repeated whole, say, for the hash of 64 zeros. */
  lemma TornEntryMisleads(e: TypedEntry)
    requires e.hash == seq(HASH_LENGTH, _ => 0)
    ensures Search(e.hash + Serialize(e), e.hash) == Found([], 0, 0)
  {
    var f := e.hash + Serialize(e);
    assert forall i | 0 <= i < 128 :: f[i] == 0;
    ZerosAreZero(f[64..72]);
    ZerosAreZero(f[72..80]);
    ZerosAreZero(f[80..82]);
    assert f[..64] == e.hash && f[82..82] == [];
  }

  lemma FieldsAt(file: bytes, pos: nat, pathLen: nat)
    requires pos + 82 + pathLen <= |file| && pathLen == UnLe(file[pos + 80..pos + 82])
    ensures ReadEntry(file[pos..]) ==
            Some(Entry(file[pos..pos + 64], file[pos + 82..pos + 82 + pathLen],
                       ToSigned(UnLe(file[pos + 64..pos + 72])), ToSigned(UnLe(file[pos + 72..pos + 80]))))
  {
    var f := file[pos..];
    assert f[..64] == file[pos..pos + 64];
    assert f[64..72] == file[pos + 64..pos + 72];
    assert f[72..80] == file[pos + 72..pos + 80];
    assert f[80..82] == file[pos + 80..pos + 82];
    assert f[82..82 + pathLen] == file[pos + 82..pos + 82 + pathLen];
  }

  method BytesEqual(a: bytes, b: bytes) returns (same: bool)
    ensures same <==> a == b
  {
    if |a| != |b| { return false; }
    for i := 0 to |a|
      invariant a[..i] == b[..i]
    {
      if a[i] != b[i] { return false; }
    }
    return true;
  }

  /** searchBlockFile: reads the file entry by entry from a cursor. */
  method SearchBlockFile(file: bytes, target: bytes) returns (r: SearchResult)
    ensures r == Search(file, target)
  {
    var pos := 0;
    while true
      invariant 0 <= pos <= |file|
      invariant Search(file, target) == Search(file[pos..], target)
      decreases |file| - pos
    {
      ghost var f := file[pos..];
      if pos == |file| { return NotFound; }
      if pos + 64 > |file| { return ReadError; }
      var storedHash := file[pos..pos + 64];
      if pos + 72 > |file| { return ReadError; }
      var offset := ToSigned(UnLe(file[pos + 64..pos + 72]));
      if pos + 80 > |file| { return ReadError; }
      var size := ToSigned(UnLe(file[pos + 72..pos + 80]));
      if pos + 82 > |file| { return ReadError; }
      var pathLen := UnLe(file[pos + 80..pos + 82]);
      if pos + 82 + pathLen > |file| {
        assert f[80..82] == file[pos + 80..pos + 82];
        return ReadError;
      }
      var path := file[pos + 82..pos + 82 + pathLen];
      FieldsAt(file, pos, pathLen);
      var same := BytesEqual(storedHash, target);
      if same { return Found(path, offset, size); }
      assert f[82 + pathLen..] == file[pos + 82 + pathLen..];
      pos := pos + 82 + pathLen;
    }
  }
}
