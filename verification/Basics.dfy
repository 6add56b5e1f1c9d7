/** Bytes, options and the sequence facts the other modules share. */
module Basics {
  type byte = x: int | 0 <= x < 256
  type bytes = seq<byte>

  datatype Option<+T> = None | Some(value: T)

  const INT64_MIN: int := -0x8000_0000_0000_0000
  const INT64_MAX: int := 0x7fff_ffff_ffff_ffff

  predicate IsInt64(v: int) {
    INT64_MIN <= v <= INT64_MAX
  }

  function Min(a: int, b: int): int {
    if a <= b then a else b
  }

  ghost predicate NoDup<T(!new)>(s: seq<T>) {
    forall i, j | 0 <= i < j < |s| :: s[i] != s[j]
  }

  /** The bytes of all parts, in order. */
  function Concat(parts: seq<bytes>): bytes {
    if parts == [] then [] else Concat(parts[..|parts| - 1]) + parts[|parts| - 1]
  }

  lemma ConcatSnoc(parts: seq<bytes>, last: bytes)
    ensures Concat(parts + [last]) == Concat(parts) + last
  {
    assert (parts + [last])[..|parts|] == parts;
  }

  /** A codec's two directions; None is a reported error. */
  datatype Codec = Codec(enc: bytes -> Option<bytes>, dec: bytes -> Option<bytes>) {
    /** Whatever was encoded without an error decodes to itself. */
    ghost predicate Faithful() {
      forall x :: enc(x).Some? ==> dec(enc(x).value) == Some(x)
    }

    /** Encoding never fails. */
    ghost predicate Total() {
      forall x :: enc(x).Some?
    }
  }
}
