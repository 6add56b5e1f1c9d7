/** The chunk metadata node (lib/dbio/dbio.go): printed as "path|offset|size",
    parsed back, and told apart from a legacy node that holds a file path. */
module Metadata {
  import opened Basics
  import opened Text

  const PIPE: byte := 124

  function Print(path: bytes, offset: int, size: int): bytes {
    path + [PIPE] + FormatInt(offset) + [PIPE] + FormatInt(size)
  }

  datatype Route =
    | Legacy(file: bytes)
    | InContainer(path: bytes, offset: int, size: int)
    | Malformed

  /** The routing half of GetChonkNode, for a node found in the database. */
  function Parse(node: bytes): Route {
    var parts := Split(node, [PIPE]);
    if |parts| != 3 then Legacy(node)
    else match ParseInt(parts[1])
      case None => Malformed
      case Some(offset) =>
        match ParseInt(parts[2])
        case None => Malformed
        case Some(size) => InContainer(parts[0], offset, size)
  }

  lemma PrintEndsInDigit(path: bytes, offset: int, size: int)
    ensures var node := Print(path, offset, size); node != [] && IsDigit(node[|node| - 1])
  {
    var z := FormatInt(size);
    assert Print(path, offset, size)[|Print(path, offset, size)| - 1] == z[|z| - 1];
  }

  lemma FormatHasNoPipe(v: int)
    ensures PIPE !in FormatInt(v)
  {
    assert !IsDigit(PIPE) && PIPE != MINUS;
  }

  /** A pipe-free stretch followed by a pipe is one piece. */
  lemma PieceUpTo(s: bytes, from: nat, to: nat)
    requires from <= to < |s| && s[to] == PIPE && PIPE !in s[from..to]
    ensures SplitFrom(s, [PIPE], from) == [s[from..to]] + SplitFrom(s, [PIPE], to + 1)
  {
    OccursSingle(s, PIPE, to);
    forall j | from <= j < to ensures !OccursAt(s, [PIPE], j) {
      assert s[j] == s[from..to][j - from];
      OccursSingle(s, PIPE, j);
    }
    IndexIs(s, [PIPE], from, to);
  }

  lemma LastPieceFree(s: bytes, from: nat)
    requires from <= |s| && PIPE !in s[from..]
    ensures SplitFrom(s, [PIPE], from) == [s[from..]]
  {
    SplitCount(s, PIPE, from);
    CountZero(s[from..], PIPE);
  }

  lemma Slices(path: bytes, o: bytes, z: bytes)
    ensures var node := path + [PIPE] + o + [PIPE] + z; var q := |path| + 1 + |o|;
            && node[0..|path|] == path && node[|path|] == PIPE && node[|path| + 1..q] == o
            && node[q] == PIPE && node[q + 1..] == z
  {}

  /** Two pipes and no other make three pieces. */
  lemma ThreePieces(node: bytes, a: nat, b: nat)
    requires a < b < |node| && node[a] == PIPE && node[b] == PIPE
    requires PIPE !in node[0..a] && PIPE !in node[a + 1..b] && PIPE !in node[b + 1..]
    ensures Split(node, [PIPE]) == [node[0..a], node[a + 1..b], node[b + 1..]]
  {
    assert SplitFrom(node, [PIPE], b + 1) == [node[b + 1..]] by { LastPieceFree(node, b + 1); }
    assert SplitFrom(node, [PIPE], a + 1) == [node[a + 1..b]] + [node[b + 1..]] by { PieceUpTo(node, a + 1, b); }
    assert SplitFrom(node, [PIPE], 0) == [node[0..a]] + ([node[a + 1..b]] + [node[b + 1..]]) by {
      PieceUpTo(node, 0, a);
    }
  }

  lemma PrintedPieces(path: bytes, offset: int, size: int)
    requires PIPE !in path
    ensures Split(Print(path, offset, size), [PIPE]) == [path, FormatInt(offset), FormatInt(size)]
  {
    var o, z := FormatInt(offset), FormatInt(size);
    Slices(path, o, z);
    FormatHasNoPipe(offset);
    FormatHasNoPipe(size);
    ThreePieces(Print(path, offset, size), |path|, |path| + 1 + |o|);
  }

  lemma PrintedPieceCount(path: bytes, offset: int, size: int)
    ensures |Split(Print(path, offset, size), [PIPE])| == 3 + Count(path, PIPE)
  {
    var o, z := FormatInt(offset), FormatInt(size);
    FormatHasNoPipe(offset);
    FormatHasNoPipe(size);
    CountZero(o, PIPE);
    CountZero(z, PIPE);
    var node := Print(path, offset, size);
    SplitCount(node, PIPE, 0);
    assert node[0..] == node;
    assert Count([PIPE], PIPE) == 1 by { assert [PIPE][..0] == []; }
    CountAppend(path, [PIPE], PIPE);
    CountAppend(path + [PIPE], o, PIPE);
    CountAppend(path + [PIPE] + o, [PIPE], PIPE);
    CountAppend(path + [PIPE] + o + [PIPE], z, PIPE);
  }

  /** Printed metadata parses back to the triple exactly for pipe-free paths;
      with a pipe in the path the node is read as a legacy file name. */
  lemma RoundTrip(path: bytes, offset: int, size: int)
    requires IsInt64(offset) && IsInt64(size)
    ensures Parse(Print(path, offset, size)) == InContainer(path, offset, size) <==> PIPE !in path
    ensures PIPE in path ==> Parse(Print(path, offset, size)) == Legacy(Print(path, offset, size))
  {
    if PIPE !in path {
      PrintedPieces(path, offset, size);
      ParseFormatted(offset);
      ParseFormatted(size);
    } else {
      PrintedPieceCount(path, offset, size);
      CountZero(path, PIPE);
    }
  }

  /** A legacy node is read as its own file name exactly when it does not hold two pipes. */
  lemma LegacyRouting(file: bytes)
    ensures Parse(file) == Legacy(file) <==> Count(file, PIPE) != 2
    ensures PIPE !in file ==> Parse(file) == Legacy(file)
  {
    SplitCount(file, PIPE, 0);
    assert file[0..] == file;
    CountZero(file, PIPE);
  }

  /** And a node with two pipes that does not end in a digit does not parse at all. */
  lemma TwicePipedNode(file: bytes)
    requires Count(file, PIPE) == 2 && file != [] && !IsDigit(file[|file| - 1])
    ensures Parse(file) == Malformed
  {
    SplitCount(file, PIPE, 0);
    assert file[0..] == file;
    var p := LastPiece(file, [PIPE], 0);
    assert file[p..] != [] ==> file[p..][|file| - p - 1] == file[|file| - 1];
    NoNumber(file[p..]);
  }

  const PIPED_DIR: bytes := [47, 97, 124, 98, 47]             // /a|b/
  const TWICE_PIPED_DIR: bytes := [47, 97, 124, 98, 124, 99, 47]   // /a|b|c/

  /** A database directory with a pipe: container metadata is read as a legacy file name. */
  lemma PipedDirectory(name: bytes, offset: int, size: int)
    requires IsInt64(offset) && IsInt64(size)
    ensures Parse(Print(PIPED_DIR + name, offset, size)) == Legacy(Print(PIPED_DIR + name, offset, size))
  {
    assert (PIPED_DIR + name)[2] == PIPE;
    RoundTrip(PIPED_DIR + name, offset, size);
  }

  /** A database directory with two pipes: a legacy file name is read as metadata that does not parse. */
  lemma TwicePipedDirectory(name: bytes)
    requires PIPE !in name
    ensures Parse(TWICE_PIPED_DIR + name) == Malformed
  {
    var file := TWICE_PIPED_DIR + name;
    assert file[2] == PIPE && file[4] == PIPE;
    assert file[0..2] == [47, 97] && file[3..4] == [98] && file[5..] == [99, 47] + name;
    ThreePieces(file, 2, 4);
    assert ParseInt([98]) == None;
  }
}
