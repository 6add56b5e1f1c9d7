/** Database keys (lib/util/util.go, lib/structs/inputfile.go): how they are
    put together, and what can be recovered from them. */
module Keys {
  import opened Basics
  import opened Text

  const SEPARATOR: bytes := [124, 124, 124]                   // |||
  const NS_SEPARATOR: bytes := [124, 124, 124, 58]            // |||:
  const EVIDENCE_NS: bytes := [69, 124, 124, 124, 58]         // E|||:
  const RELATION_NS: bytes := [82, 124, 124, 124, 58]         // R|||:
  const CHONK_NS: bytes := [67, 124, 124, 124, 58]            // C|||:
  const REVERSE_NS: bytes := [208, 175, 124, 124, 124, 58]    // Я|||: in UTF-8

  function ChonkKey(chash: bytes): bytes {
    CHONK_NS + chash
  }

  function RelationKey(fhash: bytes, index: int): bytes {
    RELATION_NS + fhash + SEPARATOR + FormatInt(index)
  }

  function ReverseKey(chash: bytes, index: int): bytes {
    REVERSE_NS + chash + SEPARATOR + FormatInt(index)
  }

  function EvidenceId(fhash: bytes): bytes {
    EVIDENCE_NS + fhash
  }

  lemma ChonkKeyInjective(a: bytes, b: bytes)
    requires ChonkKey(a) == ChonkKey(b)
    ensures a == b
  {
    assert ChonkKey(a)[5..] == a && ChonkKey(b)[5..] == b;
  }

  /** The three kinds of key never meet. */
  lemma KeysApart(c: bytes, f: bytes, i: int, d: bytes, j: int)
    ensures ChonkKey(c) != RelationKey(f, i)
    ensures ChonkKey(c) != ReverseKey(d, j)
    ensures RelationKey(f, i) != ReverseKey(d, j)
  {
    assert ChonkKey(c)[0] == 67 && RelationKey(f, i)[0] == 82 && ReverseKey(d, j)[0] == 208;
  }

  function DigitsOnly(s: bytes): (d: bytes)
    ensures AllDigits(d)
  {
    if s == [] then []
    else DigitsOnly(s[..|s| - 1]) + if IsDigit(s[|s| - 1]) then [s[|s| - 1]] else []
  }

  /** GetNumber: drop everything but digits, then parse. */
  function GetNumber(s: bytes): Option<int> {
    ParseInt(DigitsOnly(s))
  }

  lemma {:induction false} DigitsOnlyOf(pipes: bytes, digits: bytes)
    requires AllDigits(digits) && forall i | 0 <= i < |pipes| :: !IsDigit(pipes[i])
    ensures DigitsOnly(pipes + digits) == digits
  {
    var s := pipes + digits;
    if digits != [] {
      assert s[..|s| - 1] == pipes + digits[..|digits| - 1];
      DigitsOnlyOf(pipes, digits[..|digits| - 1]);
    } else if pipes != [] {
      assert s[..|s| - 1] == pipes[..|pipes| - 1] + [];
      DigitsOnlyOf(pipes[..|pipes| - 1], []);
    }
  }

  /** The index read back from a relation or reverse-relation key, as the
      analyser does it: split on the separator, take the last piece, GetNumber. */
  function IndexOfKey(key: bytes): Option<int> {
    var pieces := Split(key, SEPARATOR);
    GetNumber(pieces[|pieces| - 1])
  }

  lemma KeyLayout(head: bytes, digits: bytes)
    requires AllDigits(digits)
    ensures var key := head + SEPARATOR + digits;
            OccursAt(key, SEPARATOR, |head|) && forall q | OccursAt(key, SEPARATOR, q) :: q <= |head|
  {
    var key := head + SEPARATOR + digits;
    assert key[|head|..|head| + 3] == SEPARATOR;
    forall q | OccursAt(key, SEPARATOR, q) ensures q <= |head| {
      assert key[q..q + 3][2] == key[q + 2];
      assert key[q + 2] == 124;
      assert forall k | |head| + 3 <= k < |key| :: IsDigit(key[k]);
    }
  }

  /** The last piece of a key: at most two pipes left over from the head, then the digits. */
  lemma LastPieceOfKey(head: bytes, digits: bytes) returns (pipes: bytes)
    requires AllDigits(digits)
    ensures forall i | 0 <= i < |pipes| :: pipes[i] == 124
    ensures var pieces := Split(head + SEPARATOR + digits, SEPARATOR);
            pieces[|pieces| - 1] == pipes + digits
  {
    var key := head + SEPARATOR + digits;
    KeyLayout(head, digits);
    var p := LastPiece(key, SEPARATOR, 0);
    pipes := key[p..|head| + 3];
    assert key[p..] == pipes + digits;
    assert |head| < p;
  }

  /** Recovery works whatever bytes the head ends in, separators included. */
  lemma IndexRecovered(head: bytes, index: int)
    requires 0 <= index <= INT64_MAX
    ensures IndexOfKey(head + SEPARATOR + FormatInt(index)) == Some(index)
  {
    var digits := FormatInt(index);
    var pipes := LastPieceOfKey(head, digits);
    assert forall i | 0 <= i < |pipes| :: !IsDigit(pipes[i]);
    DigitsOnlyOf(pipes, digits);
    ParseFormatted(index);
  }

  lemma RelationIndexRecovered(fhash: bytes, index: int)
    requires 0 <= index <= INT64_MAX
    ensures IndexOfKey(RelationKey(fhash, index)) == Some(index)
  {
    IndexRecovered(RELATION_NS + fhash, index);
  }

  lemma ReverseIndexRecovered(chash: bytes, index: int)
    requires 0 <= index <= INT64_MAX
    ensures IndexOfKey(ReverseKey(chash, index)) == Some(index)
  {
    IndexRecovered(REVERSE_NS + chash, index);
  }

  lemma HeadOf(ns: bytes, hash: bytes, tail: bytes)
    ensures var key := ns + hash + SEPARATOR + tail;
            |key| == |ns| + |hash| + 3 + |tail| && key[|ns|..|ns| + |hash|] == hash
  {}

  /** Equal keys come from equal pairs, whatever the hashes' lengths and bytes. */
  lemma RelationKeyInjective(f: bytes, i: int, g: bytes, j: int)
    requires 0 <= i <= INT64_MAX && 0 <= j <= INT64_MAX && RelationKey(f, i) == RelationKey(g, j)
    ensures f == g && i == j
  {
    RelationIndexRecovered(f, i);
    RelationIndexRecovered(g, j);
    HeadOf(RELATION_NS, f, FormatInt(i));
    HeadOf(RELATION_NS, g, FormatInt(j));
  }

  lemma ReverseKeyInjective(c: bytes, i: int, d: bytes, j: int)
    requires 0 <= i <= INT64_MAX && 0 <= j <= INT64_MAX && ReverseKey(c, i) == ReverseKey(d, j)
    ensures c == d && i == j
  {
    ReverseIndexRecovered(c, i);
    ReverseIndexRecovered(d, j);
    HeadOf(REVERSE_NS, c, FormatInt(i));
    HeadOf(REVERSE_NS, d, FormatInt(j));
  }

  /** InputFile.GetHash: the hash the store pipeline puts into relation keys. */
  function StoredHash(id: bytes): bytes {
    var pieces := Split(id, NS_SEPARATOR);
    if |pieces| > 1 then pieces[1] else []
  }

  /** getEvidenceFileMeta: the hash restore looks relation keys up with. */
  function RestoredHash(id: bytes): bytes {
    var pieces := Split(id, EVIDENCE_NS);
    if |pieces| > 1 then pieces[1] else []
  }

  /** Both pieces are the hash up to its first separator; the separators differ. */
  lemma {:induction false} SecondPiece(fhash: bytes)
    ensures var i := IndexFrom(EvidenceId(fhash), NS_SEPARATOR, 5);
            StoredHash(EvidenceId(fhash)) == if i == -1 then fhash else fhash[..i - 5]
    ensures var i := IndexFrom(EvidenceId(fhash), EVIDENCE_NS, 5);
            RestoredHash(EvidenceId(fhash)) == if i == -1 then fhash else fhash[..i - 5]
  {
    var id := EvidenceId(fhash);
    assert id[0..5] == EVIDENCE_NS && id[1..5] == NS_SEPARATOR;
    assert OccursAt(id, EVIDENCE_NS, 0) && OccursAt(id, NS_SEPARATOR, 1);
    assert !OccursAt(id, NS_SEPARATOR, 0) by { assert id[0..4][0] == 69; }
    IndexIs(id, NS_SEPARATOR, 0, 1);
    IndexIs(id, EVIDENCE_NS, 0, 0);
    assert id[5..] == fhash;
    var i := IndexFrom(id, NS_SEPARATOR, 5);
    var j := IndexFrom(id, EVIDENCE_NS, 5);
    assert i != -1 ==> id[5..i] == fhash[..i - 5];
    assert j != -1 ==> id[5..j] == fhash[..j - 5];
    assert Split(id, NS_SEPARATOR) == [id[0..1]] + SplitFrom(id, NS_SEPARATOR, 5);
    assert Split(id, EVIDENCE_NS) == [id[0..0]] + SplitFrom(id, EVIDENCE_NS, 5);
  }

  lemma ContainsShifted(fhash: bytes)
    ensures Contains(fhash, NS_SEPARATOR) <==> IndexFrom(EvidenceId(fhash), NS_SEPARATOR, 5) != -1
  {
    var id := EvidenceId(fhash);
    var i := IndexFrom(id, NS_SEPARATOR, 5);
    FirstOccurrence(id, NS_SEPARATOR, 5);
    if i != -1 {
      assert fhash[i - 5..i - 5 + 4] == id[i..i + 4];
      assert OccursAt(fhash, NS_SEPARATOR, i - 5);
    } else if Contains(fhash, NS_SEPARATOR) {
      var k :| 0 <= k <= |fhash| && OccursAt(fhash, NS_SEPARATOR, k);
      assert id[k + 5..k + 9] == fhash[k..k + 4];
      assert OccursAt(id, NS_SEPARATOR, k + 5);
    }
  }

  /** Where the longer separator occurs, the shorter one does too, one byte later. */
  lemma SeparatorsDiffer(fhash: bytes)
    ensures var i := IndexFrom(EvidenceId(fhash), NS_SEPARATOR, 5);
            var j := IndexFrom(EvidenceId(fhash), EVIDENCE_NS, 5);
            j != -1 ==> i != -1 && i != j
  {
    var id := EvidenceId(fhash);
    var i := IndexFrom(id, NS_SEPARATOR, 5);
    var j := IndexFrom(id, EVIDENCE_NS, 5);
    FirstOccurrence(id, NS_SEPARATOR, 5);
    FirstOccurrence(id, EVIDENCE_NS, 5);
    if j != -1 {
      assert id[j + 1..j + 5] == id[j..j + 5][1..];
      assert OccursAt(id, NS_SEPARATOR, j + 1);
      assert id[j..j + 5][0] == id[j];
      assert i != -1 ==> id[i..i + 4][0] == id[i];
    }
  }

  /** Store and restore name an evidence file by the same hash exactly when
      the hash holds no namespace separator; then it is the whole hash. */
  lemma HashAgreement(fhash: bytes)
    ensures StoredHash(EvidenceId(fhash)) == fhash <==> !Contains(fhash, NS_SEPARATOR)
    ensures StoredHash(EvidenceId(fhash)) == RestoredHash(EvidenceId(fhash)) <==> !Contains(fhash, NS_SEPARATOR)
  {
    SecondPiece(fhash);
    ContainsShifted(fhash);
    SeparatorsDiffer(fhash);
    var i := IndexFrom(EvidenceId(fhash), NS_SEPARATOR, 5);
    var j := IndexFrom(EvidenceId(fhash), EVIDENCE_NS, 5);
    assert i != -1 ==> |fhash[..i - 5]| == i - 5 < |fhash|;
    assert j != -1 ==> |fhash[..j - 5]| == j - 5;
  }

  const FILE_HASH_LENGTH: nat := 32

  /** A SHA3-256 value that begins with the separator: the store names the
      file by the empty string, a restore by the whole value. */
  const SEPARATOR_FIRST: bytes := NS_SEPARATOR + seq(28, _ => 0)

  /** Another one; the store names it by the same empty string. */
  const SEPARATOR_FIRST_TOO: bytes := NS_SEPARATOR + seq(28, _ => 1)

  /** Every hash that begins with the separator is stored under the empty name. */
  lemma StoredUnderNothing(tail: bytes)
    ensures StoredHash(EvidenceId(NS_SEPARATOR + tail)) == []
  {
    var f := NS_SEPARATOR + tail;
    var id := EvidenceId(f);
    SecondPiece(f);
    assert OccursAt(id, NS_SEPARATOR, 5) by { assert id[5..9] == NS_SEPARATOR; }
    IndexIs(id, NS_SEPARATOR, 5, 5);
  }

  lemma SeparatorFirstIsCut()
    ensures |SEPARATOR_FIRST| == FILE_HASH_LENGTH
    ensures StoredHash(EvidenceId(SEPARATOR_FIRST)) == []
    ensures RestoredHash(EvidenceId(SEPARATOR_FIRST)) == SEPARATOR_FIRST
  {
    var f := SEPARATOR_FIRST;
    var id := EvidenceId(f);
    SecondPiece(f);
    StoredUnderNothing(seq(28, _ => 0));
    assert forall k | 0 <= k < |f| :: f[k] != 69;
    forall j | 5 <= j ensures !OccursAt(id, EVIDENCE_NS, j) {
      if j + 5 <= |id| {
        assert id[j] == f[j - 5];
        assert id[j..j + 5][0] == id[j] && EVIDENCE_NS[0] == 69;
      }
    }
    FirstOccurrence(id, EVIDENCE_NS, 5);
  }

  /** A cut name is shorter than the hash, so no file of whole name shares it. */
  lemma WholeNamesAreOwn(f: bytes, g: bytes)
    requires |f| == |g| && !Contains(f, NS_SEPARATOR)
    requires StoredHash(EvidenceId(f)) == StoredHash(EvidenceId(g))
    ensures f == g
  {
    HashAgreement(f);
    SecondPiece(g);
    FirstOccurrence(EvidenceId(g), NS_SEPARATOR, 5);
  }
}
