/** The one-file-per-chunk format (lib/fio/fio.go): a chunk is compressed and
    sealed into a file of its own. */
module ChunkFiles {
  import opened Basics

  /** WriteChonk's bytes for a chunk, out of quick mode; None when sealing fails. */
  function WriteChonk(comp: Codec, seal: Codec, x: bytes): Option<bytes> {
    match comp.enc(x)
    case None => None
    case Some(y) => seal.enc(y)
  }

  /** ReadChonk: an unsealing or decoding error is swallowed. */
  function ReadChonk(comp: Codec, seal: Codec, blob: bytes): bytes {
    var data := match seal.dec(blob) case Some(d) => d case None => [];
    match comp.dec(data) case Some(d) => d case None => data
  }

  /** A chunk file reads back the chunk it was written for. */
  lemma ChonkReadsBack(comp: Codec, seal: Codec, x: bytes)
    requires comp.Faithful() && seal.Faithful() && WriteChonk(comp, seal, x).Some?
    ensures ReadChonk(comp, seal, WriteChonk(comp, seal, x).value) == x
  {}
}
