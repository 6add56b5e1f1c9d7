/** The byte-text helpers of Go that the store relies on: first occurrence,
    splitting on a separator, and printing and parsing of decimal int64. */
module Text {
  import opened Basics

  const ZERO: byte := 48
  const PLUS: byte := 43
  const MINUS: byte := 45

  /** sep stands in s at position i. */
  predicate OccursAt(s: bytes, sep: bytes, i: int) {
    0 <= i <= |s| - |sep| && s[i..i + |sep|] == sep
  }

  predicate Contains(s: bytes, sep: bytes) {
    exists i | 0 <= i <= |s| :: OccursAt(s, sep, i)
  }

  /** The first position at or after `from` where sep occurs, or -1. */
  function IndexFrom(s: bytes, sep: bytes, from: nat): (i: int)
    requires from <= |s| && sep != []
    ensures i == -1 || from <= i <= |s| - |sep|
    decreases |s| - from
  {
    if from + |sep| > |s| then -1
    else if OccursAt(s, sep, from) then from
    else IndexFrom(s, sep, from + 1)
  }

  lemma {:induction false} FirstOccurrence(s: bytes, sep: bytes, from: nat)
    requires from <= |s| && sep != []
    ensures var i := IndexFrom(s, sep, from);
            && (i != -1 ==> OccursAt(s, sep, i))
            && forall j | from <= j && (i == -1 || j < i) :: !OccursAt(s, sep, j)
    decreases |s| - from
  {
    if from + |sep| <= |s| && !OccursAt(s, sep, from) {
      FirstOccurrence(s, sep, from + 1);
    }
  }

  /** Nothing before i, something at i: that is what IndexFrom finds. */
  lemma {:induction false} IndexIs(s: bytes, sep: bytes, from: nat, i: nat)
    requires from <= i && sep != [] && OccursAt(s, sep, i)
    requires forall j | from <= j < i :: !OccursAt(s, sep, j)
    ensures IndexFrom(s, sep, from) == i
    decreases i - from
  {
    if from < i { IndexIs(s, sep, from + 1, i); }
  }

  /** The pieces of s[from..] between non-overlapping occurrences of sep, leftmost first. */
  function SplitFrom(s: bytes, sep: bytes, from: nat): (pieces: seq<bytes>)
    requires from <= |s| && sep != []
    ensures |pieces| > 0
    decreases |s| - from
  {
    var i := IndexFrom(s, sep, from);
    if i == -1 then [s[from..]] else [s[from..i]] + SplitFrom(s, sep, i + |sep|)
  }

  function Split(s: bytes, sep: bytes): (pieces: seq<bytes>)
    requires sep != []
    ensures |pieces| > 0
  {
    SplitFrom(s, sep, 0)
  }

  /** The last piece starts where the text starts or right behind a separator,
      and there is no separator after that. */
  lemma {:induction false} LastPiece(s: bytes, sep: bytes, from: nat) returns (p: nat)
    requires from <= |s| && sep != []
    ensures from <= p <= |s|
    ensures SplitFrom(s, sep, from)[|SplitFrom(s, sep, from)| - 1] == s[p..]
    ensures forall j | p <= j :: !OccursAt(s, sep, j)
    ensures p == from || (from <= p - |sep| && OccursAt(s, sep, p - |sep|))
    decreases |s| - from
  {
    FirstOccurrence(s, sep, from);
    var i := IndexFrom(s, sep, from);
    if i == -1 {
      p := from;
    } else {
      p := LastPiece(s, sep, i + |sep|);
    }
  }

  function Count(s: bytes, b: byte): nat {
    if s == [] then 0 else Count(s[..|s| - 1], b) + if s[|s| - 1] == b then 1 else 0
  }

  lemma {:induction false} CountAppend(s: bytes, t: bytes, b: byte)
    ensures Count(s + t, b) == Count(s, b) + Count(t, b)
  {
    if t == [] {
      assert s + t == s;
    } else {
      CountAppend(s, t[..|t| - 1], b);
      assert (s + t)[..|s + t| - 1] == s + t[..|t| - 1];
    }
  }

  lemma {:induction false} CountZero(s: bytes, b: byte)
    ensures Count(s, b) == 0 <==> b !in s
  {
    if s != [] {
      CountZero(s[..|s| - 1], b);
      assert s == s[..|s| - 1] + [s[|s| - 1]];
    }
  }

  lemma OccursSingle(s: bytes, b: byte, i: nat)
    requires i < |s|
    ensures OccursAt(s, [b], i) <==> s[i] == b
  {
    assert s[i..i + 1] == [s[i]];
  }

  lemma NoneUpTo(s: bytes, b: byte, from: nat, to: nat)
    requires from <= to <= |s| && forall j | from <= j < to :: !OccursAt(s, [b], j)
    ensures Count(s[from..to], b) == 0
  {
    forall j | from <= j < to ensures s[j] != b { OccursSingle(s, b, j); }
    CountZero(s[from..to], b);
  }

  lemma CountAround(s: bytes, b: byte, from: nat, i: nat)
    requires from <= i < |s| && s[i] == b
    ensures Count(s[from..], b) == Count(s[from..i], b) + 1 + Count(s[i + 1..], b)
  {
    assert [b][..0] == [];
    CountAppend(s[from..i], [b], b);
    CountAppend(s[from..i] + [b], s[i + 1..], b);
    assert s[from..] == s[from..i] + [b] + s[i + 1..];
  }

  /** Splitting on one byte gives one piece more than that byte has occurrences. */
  lemma {:induction false} SplitCount(s: bytes, b: byte, from: nat)
    requires from <= |s|
    ensures |SplitFrom(s, [b], from)| == 1 + Count(s[from..], b)
    decreases |s| - from
  {
    FirstOccurrence(s, [b], from);
    var i := IndexFrom(s, [b], from);
    if i == -1 {
      NoneUpTo(s, b, from, |s|);
      assert s[from..|s|] == s[from..];
    } else {
      OccursSingle(s, b, i);
      NoneUpTo(s, b, from, i);
      CountAround(s, b, from, i);
      SplitCount(s, b, i + 1);
    }
  }

  predicate IsDigit(b: byte) {
    ZERO <= b < ZERO + 10
  }

  predicate AllDigits(s: bytes) {
    forall i | 0 <= i < |s| :: IsDigit(s[i])
  }

  function Digits(n: nat): (s: bytes)
    ensures s != [] && AllDigits(s)
  {
    if n < 10 then [ZERO + n] else Digits(n / 10) + [ZERO + n % 10]
  }

  function DigitsValue(s: bytes): nat
    requires AllDigits(s)
  {
    if s == [] then 0 else DigitsValue(s[..|s| - 1]) * 10 + (s[|s| - 1] - ZERO)
  }

  lemma {:induction false} DigitsInvert(n: nat)
    ensures DigitsValue(Digits(n)) == n
  {
    if n < 10 {
      assert Digits(n)[..0] == [];
    } else {
      DigitsInvert(n / 10);
      assert Digits(n)[..|Digits(n)| - 1] == Digits(n / 10);
    }
  }

  /** strconv.AppendInt in base 10, also what "%d" prints. */
  function FormatInt(v: int): (s: bytes)
    ensures s != []
    ensures forall i | 0 <= i < |s| :: IsDigit(s[i]) || s[i] == MINUS
  {
    if v < 0 then [MINUS] + Digits(-v) else Digits(v)
  }

  /** strconv.ParseInt(s, 10, 64); None stands for its syntax and range errors. */
  function ParseInt(s: bytes): (r: Option<int>)
    ensures r.Some? ==> IsInt64(r.value)
  {
    var negative := s != [] && s[0] == MINUS;
    var digits := if s != [] && (s[0] == MINUS || s[0] == PLUS) then s[1..] else s;
    if digits == [] || !AllDigits(digits) then None
    else
      var v := (if negative then -1 else 1) * DigitsValue(digits);
      if IsInt64(v) then Some(v) else None
  }

  lemma NoNumber(s: bytes)
    requires s == [] || !IsDigit(s[|s| - 1])
    ensures ParseInt(s) == None
  {
    if |s| > 1 { assert s[1..][|s| - 2] == s[|s| - 1]; }
  }

  lemma ParseFormatted(v: int)
    ensures ParseInt(FormatInt(v)) == if IsInt64(v) then Some(v) else None
  {
    DigitsInvert(if v < 0 then -v else v);
    if v < 0 {
      assert FormatInt(v)[1..] == Digits(-v);
    } else {
      assert IsDigit(Digits(v)[0]);
    }
  }
}
