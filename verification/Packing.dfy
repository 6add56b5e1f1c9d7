/** How chunks fall into containers (lib/fio/container.go, doWrite): a chunk
    goes behind the last one unless it would overrun the limit, and then opens
    a new container. */
module Packing {
  import opened Basics

  type Packed = seq<seq<bytes>>

  function Size(container: seq<bytes>): nat {
    |Concat(container)|
  }

  predicate Overruns(cs: Packed, chunk: bytes, cap: nat) {
    cs == [] || Size(cs[|cs| - 1]) + |chunk| > cap
  }

  /** The containers after one more chunk. */
  function Place(cs: Packed, chunk: bytes, cap: nat): (r: Packed)
    ensures |cs| <= |r| <= |cs| + 1 && r != []
  {
    if Overruns(cs, chunk, cap) then cs + [[chunk]]
    else cs[..|cs| - 1] + [cs[|cs| - 1] + [chunk]]
  }

  datatype Slot = Slot(container: nat, offset: nat)

  /** Where Place puts the chunk. */
  function SlotFor(cs: Packed, chunk: bytes, cap: nat): (s: Slot)
    ensures s.offset == 0 || s.offset + |chunk| <= cap
  {
    if Overruns(cs, chunk, cap) then Slot(|cs|, 0) else Slot(|cs| - 1, Size(cs[|cs| - 1]))
  }

  function PlaceAll(chunks: seq<bytes>, cap: nat): Packed {
    if chunks == [] then [] else Place(PlaceAll(chunks[..|chunks| - 1], cap), chunks[|chunks| - 1], cap)
  }

  /** The chunk's bytes stand in the container the slot names, at its offset. */
  ghost predicate Holds(cs: Packed, slot: Slot, chunk: bytes) {
    && slot.container < |cs|
    && slot.offset + |chunk| <= Size(cs[slot.container])
    && Concat(cs[slot.container])[slot.offset..slot.offset + |chunk|] == chunk
  }

  lemma PlacePuts(cs: Packed, chunk: bytes, cap: nat)
    ensures Holds(Place(cs, chunk, cap), SlotFor(cs, chunk, cap), chunk)
  {
    if Overruns(cs, chunk, cap) {
      assert Concat([chunk]) == chunk by {
        ConcatSnoc([], chunk);
        assert [] + [chunk] == [chunk];
      }
      assert Place(cs, chunk, cap)[|cs|] == [chunk];
    } else {
      ConcatSnoc(cs[|cs| - 1], chunk);
      assert Place(cs, chunk, cap)[|cs| - 1] == cs[|cs| - 1] + [chunk];
    }
  }

  /** Slots are permanent: later chunks never move or change an earlier one. */
  lemma PlaceKeeps(cs: Packed, slot: Slot, chunk: bytes, later: bytes, cap: nat)
    requires Holds(cs, slot, chunk)
    ensures Holds(Place(cs, later, cap), slot, chunk)
  {
    if !Overruns(cs, later, cap) && slot.container == |cs| - 1 {
      ConcatSnoc(cs[|cs| - 1], later);
    }
  }

  lemma {:induction false} SlotsArePermanent(chunks: seq<bytes>, i: nat, cap: nat)
    requires i < |chunks|
    ensures Holds(PlaceAll(chunks, cap), SlotFor(PlaceAll(chunks[..i], cap), chunks[i], cap), chunks[i])
  {
    var before, last := chunks[..|chunks| - 1], chunks[|chunks| - 1];
    if i == |chunks| - 1 {
      PlacePuts(PlaceAll(before, cap), last, cap);
    } else {
      assert before[..i] == chunks[..i];
      SlotsArePermanent(before, i, cap);
      PlaceKeeps(PlaceAll(before, cap), SlotFor(PlaceAll(chunks[..i], cap), chunks[i], cap), chunks[i], last, cap);
    }
  }

  function Flatten(cs: Packed): seq<bytes> {
    if cs == [] then [] else Flatten(cs[..|cs| - 1]) + cs[|cs| - 1]
  }

  /** Nothing is lost, duplicated or reordered by packing. */
  lemma {:induction false} PackingConserves(chunks: seq<bytes>, cap: nat)
    ensures Flatten(PlaceAll(chunks, cap)) == chunks
  {
    if chunks != [] {
      var before, last := chunks[..|chunks| - 1], chunks[|chunks| - 1];
      PackingConserves(before, cap);
      var cs := PlaceAll(before, cap);
      var r := Place(cs, last, cap);
      if Overruns(cs, last, cap) {
        assert r[..|r| - 1] == cs;
      } else {
        assert r[..|r| - 1] == cs[..|cs| - 1];
      }
    }
  }

  /** A container is filled or holds one oversized chunk. */
  ghost predicate WithinLimit(c: seq<bytes>, cap: nat) {
    c != [] && (Size(c) <= cap || |c| == 1)
  }

  /** Container k was left because the first chunk of the next did not fit. */
  ghost predicate LeftFull(cs: Packed, k: nat, cap: nat)
    requires k + 1 < |cs|
  {
    cs[k + 1] != [] && Size(cs[k]) + |cs[k + 1][0]| > cap
  }

  /** Containers k and k + 1 together exceed the limit. */
  ghost predicate PairExceeds(cs: Packed, k: nat, cap: nat)
    requires k + 1 < |cs|
  {
    Size(cs[k]) + Size(cs[k + 1]) > cap
  }

  /** What next-fit guarantees of every container and of every neighbouring pair. */
  ghost predicate NextFit(cs: Packed, cap: nat) {
    && (forall k | 0 <= k < |cs| :: WithinLimit(cs[k], cap))
    && (forall k: nat | k + 1 < |cs| :: LeftFull(cs, k, cap))
  }

  lemma PlaceKeepsNextFit(cs: Packed, chunk: bytes, cap: nat)
    requires NextFit(cs, cap)
    ensures NextFit(Place(cs, chunk, cap), cap)
  {
    var r := Place(cs, chunk, cap);
    if Overruns(cs, chunk, cap) {
      forall k: nat | k + 1 < |r| ensures LeftFull(r, k, cap) {
        if k + 1 < |cs| { assert LeftFull(cs, k, cap); }
      }
    } else {
      ConcatSnoc(cs[|cs| - 1], chunk);
      assert WithinLimit(cs[|cs| - 1], cap);
      forall k: nat | k + 1 < |r| ensures LeftFull(r, k, cap) {
        assert LeftFull(cs, k, cap);
      }
    }
  }

  lemma FirstChunkCounts(c: seq<bytes>)
    requires c != []
    ensures |c[0]| <= Size(c)
  {
    if |c| == 1 {
      assert c[..0] == [];
    } else {
      FirstChunkCounts(c[..|c| - 1]);
    }
  }

  /** A container only exceeds the limit when it holds one oversized chunk, and
      two neighbours always exceed it together. */
  lemma {:induction false} PackingInvariant(chunks: seq<bytes>, cap: nat)
    ensures NextFit(PlaceAll(chunks, cap), cap)
    ensures forall k: nat | k + 1 < |PlaceAll(chunks, cap)| :: PairExceeds(PlaceAll(chunks, cap), k, cap)
  {
    if chunks != [] {
      PackingInvariant(chunks[..|chunks| - 1], cap);
      PlaceKeepsNextFit(PlaceAll(chunks[..|chunks| - 1], cap), chunks[|chunks| - 1], cap);
    }
    var cs := PlaceAll(chunks, cap);
    forall k: nat | k + 1 < |cs| ensures PairExceeds(cs, k, cap) {
      assert LeftFull(cs, k, cap);
      FirstChunkCounts(cs[k + 1]);
    }
  }

  // ----- the bound against every other packing -----

  function Bytes(chunks: seq<bytes>): nat {
    if chunks == [] then 0 else Bytes(chunks[..|chunks| - 1]) + |chunks[|chunks| - 1]|
  }

  /** What a packing that sends chunk i to bin[i] puts into bin b. */
  function Load(chunks: seq<bytes>, bin: seq<nat>, b: nat): nat
    requires |bin| == |chunks|
  {
    if chunks == [] then 0
    else
      var n := |chunks| - 1;
      Load(chunks[..n], bin[..n], b) + if bin[n] == b then |chunks[n]| else 0
  }

  ghost predicate IsPacking(chunks: seq<bytes>, bin: seq<nat>, bins: nat, cap: nat) {
    && |bin| == |chunks|
    && (forall i | 0 <= i < |bin| :: bin[i] < bins)
    && (forall b: nat | b < bins :: Load(chunks, bin, b) <= cap)
  }

  function Loads(chunks: seq<bytes>, bin: seq<nat>, bins: nat): nat
    requires |bin| == |chunks|
  {
    if bins == 0 then 0 else Loads(chunks, bin, bins - 1) + Load(chunks, bin, bins - 1)
  }

  lemma {:induction false} LoadsSnoc(chunks: seq<bytes>, bin: seq<nat>, bins: nat)
    requires |bin| == |chunks| && chunks != []
    ensures var n := |chunks| - 1;
            Loads(chunks, bin, bins) == Loads(chunks[..n], bin[..n], bins) + if bin[n] < bins then |chunks[n]| else 0
  {
    if bins != 0 { LoadsSnoc(chunks, bin, bins - 1); }
  }

  lemma {:induction false} NoLoads(bins: nat)
    ensures Loads([], [], bins) == 0
  {
    if bins != 0 { NoLoads(bins - 1); }
  }

  lemma {:induction false} LoadsAreBytes(chunks: seq<bytes>, bin: seq<nat>, bins: nat)
    requires |bin| == |chunks| && forall i | 0 <= i < |bin| :: bin[i] < bins
    ensures Loads(chunks, bin, bins) == Bytes(chunks)
  {
    if chunks == [] {
      NoLoads(bins);
    } else {
      var n := |chunks| - 1;
      LoadsSnoc(chunks, bin, bins);
      LoadsAreBytes(chunks[..n], bin[..n], bins);
    }
  }

  lemma {:induction false} LoadsBounded(chunks: seq<bytes>, bin: seq<nat>, bins: nat, cap: nat)
    requires |bin| == |chunks| && forall b: nat | b < bins :: Load(chunks, bin, b) <= cap
    ensures Loads(chunks, bin, bins) <= bins * cap
  {
    if bins != 0 {
      LoadsBounded(chunks, bin, bins - 1, cap);
      assert bins * cap == (bins - 1) * cap + cap;
    }
  }

  lemma {:induction false} BytesAppend(a: seq<bytes>, b: seq<bytes>)
    ensures Bytes(a + b) == Bytes(a) + Bytes(b)
  {
    if b == [] {
      assert a + b == a;
    } else {
      assert (a + b)[..|a + b| - 1] == a + b[..|b| - 1];
      BytesAppend(a, b[..|b| - 1]);
    }
  }

  lemma {:induction false} SizeIsBytes(c: seq<bytes>)
    ensures Size(c) == Bytes(c)
  {
    if c != [] { SizeIsBytes(c[..|c| - 1]); }
  }

  lemma LastTwo(cs: Packed)
    requires |cs| >= 2
    ensures Bytes(Flatten(cs)) == Bytes(Flatten(cs[..|cs| - 2])) + Size(cs[|cs| - 2]) + Size(cs[|cs| - 1])
  {
    var n := |cs|;
    assert cs[..n - 1][..n - 2] == cs[..n - 2];
    BytesAppend(Flatten(cs[..n - 2]), cs[n - 2]);
    BytesAppend(Flatten(cs[..n - 1]), cs[n - 1]);
    SizeIsBytes(cs[n - 2]);
    SizeIsBytes(cs[n - 1]);
  }

  lemma HalfStep(n: nat, front: nat, pair: nat, c: nat)
    requires n >= 2 && front >= ((n - 2) / 2) * c && pair >= c
    ensures front + pair >= (n / 2) * c
  {
    assert n / 2 == (n - 2) / 2 + 1;
    assert (n / 2) * c == ((n - 2) / 2) * c + c;
  }

  /** Taking containers in pairs, each pair holds more than the limit. */
  lemma {:induction false} PairsFill(cs: Packed, cap: nat)
    requires forall k: nat | k + 1 < |cs| :: PairExceeds(cs, k, cap)
    ensures Bytes(Flatten(cs)) >= (|cs| / 2) * (cap + 1)
  {
    if |cs| >= 2 {
      var front := cs[..|cs| - 2];
      forall k: nat | k + 1 < |front| ensures PairExceeds(front, k, cap) {
        assert PairExceeds(cs, k, cap);
      }
      PairsFill(front, cap);
      LastTwo(cs);
      assert PairExceeds(cs, |cs| - 2, cap);
      HalfStep(|cs|, Bytes(Flatten(front)), Size(cs[|cs| - 2]) + Size(cs[|cs| - 1]), cap + 1);
    }
  }

  lemma HalfBelow(half: nat, bins: nat, cap: nat)
    requires half * (cap + 1) <= bins * cap && bins > 0
    ensures half < bins
  {
    assert half >= bins ==> half * (cap + 1) >= bins * (cap + 1);
    assert bins * (cap + 1) == bins * cap + bins;
  }

  /** Next-fit opens fewer than twice as many containers as any packing of the same chunks. */
  lemma TwiceOptimal(chunks: seq<bytes>, cap: nat, bin: seq<nat>, bins: nat)
    requires IsPacking(chunks, bin, bins, cap) && chunks != []
    ensures |PlaceAll(chunks, cap)| <= 2 * bins - 1
  {
    var cs := PlaceAll(chunks, cap);
    assert bin[0] < bins;
    PackingInvariant(chunks, cap);
    PackingConserves(chunks, cap);
    PairsFill(cs, cap);
    LoadsAreBytes(chunks, bin, bins);
    LoadsBounded(chunks, bin, bins, cap);
    HalfBelow(|cs| / 2, bins, cap);
  }
}
