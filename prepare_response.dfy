/**
 * The dBFT PrepareResponse payload: a message that carries one 32-byte
 * preparation hash and serialises as exactly those 32 bytes.
 */
module Consensus {
  import opened Bytes
  import opened Wrappers
  import opened BinIO

  /** The wire form of a preparation hash: its raw bytes, fixed width. */
  function EncodeHash(h: Hash): (bytes: seq<byte>)
    ensures |bytes| == HashLength
  {
    h
  }

  /** Reads a preparation hash at position pos of data, if 32 bytes are there. */
  function DecodeHash(data: seq<byte>, pos: nat): (r: Option<Hash>)
    ensures r.Some? <==> pos + HashLength <= |data|
  {
    if pos + HashLength <= |data| then Some(data[pos..pos + HashLength]) else None
  }

  /** Decoding, at its own offset, the bytes encoded for h inside any stream gives h back. */
  lemma DecodeEncodeHash(prefix: seq<byte>, h: Hash, suffix: seq<byte>)
    ensures DecodeHash(prefix + EncodeHash(h) + suffix, |prefix|) == Some(h)
  {
  }

  /** Encoding a decoded hash reproduces exactly the 32 bytes it was read from. */
  lemma EncodeDecodeHash(data: seq<byte>, pos: nat)
    requires DecodeHash(data, pos).Some?
    ensures pos + HashLength <= |data|
    ensures EncodeHash(DecodeHash(data, pos).value) == data[pos..pos + HashLength]
  {
  }

  /** Two payloads encode to the same bytes exactly when they carry the same hash. */
  lemma EncodeHashInjective(h1: Hash, h2: Hash)
    ensures EncodeHash(h1) == EncodeHash(h2) <==> h1 == h2
    ensures |EncodeHash(h1)| == |EncodeHash(h2)|
  {
  }

  /** prepareResponse: the receiver whose one field the decoder and the setter overwrite. */
  class PrepareResponse {
    var preparationHash: Hash

    /** A fresh payload holds the zero hash, Go's zero value for the field. */
    constructor ()
      ensures preparationHash == ZeroHash
    {
      preparationHash := ZeroHash;
    }

    /** The getter: a pure read of the stored hash. */
    function PreparationHash(): (h: Hash)
      reads this
      ensures h == preparationHash
    {
      preparationHash
    }

    /** Overwrites the preparation hash and nothing else. */
    method SetPreparationHash(h: Hash)
      modifies this`preparationHash
      ensures PreparationHash() == h
    {
      preparationHash := h;
    }

    /** Appends the 32 hash bytes to the writer; the payload itself is untouched. */
    method EncodeBinary(w: BinWriter)
      modifies w
      ensures w.buf == old(w.buf) + EncodeHash(preparationHash)
      ensures |w.buf| == |old(w.buf)| + HashLength
      ensures unchanged(this)
    {
      w.WriteBytes(preparationHash);
    }

    /**
     * Reads 32 bytes from the reader into the preparation hash. On success the
     * reader has advanced by exactly 32 bytes and the field holds them in order;
     * the read fails (sets the reader's error flag) when it was already failed
     * or fewer than 32 bytes remain.
     */
    method DecodeBinary(r: BinReader)
      requires r.Valid()
      modifies this, r
      ensures r.Valid()
      ensures r.err <==> old(r.err) || old(r.Remaining()) < HashLength
      ensures !r.err ==> r.pos == old(r.pos) + HashLength
      ensures !r.err ==> DecodeHash(r.data, old(r.pos)) == Some(preparationHash)
    {
      preparationHash := r.ReadBytes(preparationHash);
    }
  }

  /**
   * Set, encode into an empty writer, decode from a reader over the written
   * bytes into a fresh payload: the getter returns the original hash, the read
   * succeeds, and it consumes the whole 32-byte encoding.
   */
  method RoundTrip(h: Hash) returns (decoded: Hash, failed: bool, consumed: nat, written: nat)
    ensures !failed && decoded == h
    ensures consumed == written == HashLength
  {
    var p := new PrepareResponse();
    p.SetPreparationHash(h);
    var w := new BinWriter();
    p.EncodeBinary(w);
    written := |w.buf|;
    var r := new BinReader(w.buf);
    var q := new PrepareResponse();
    q.DecodeBinary(r);
    DecodeEncodeHash([], h, []);
    assert [] + EncodeHash(h) + [] == w.buf;
    failed := r.err;
    decoded := q.PreparationHash();
    consumed := r.pos;
  }

  /** Setting the same hash twice leaves the payload as setting it once does. */
  method SetTwiceIsSetOnce(h: Hash) returns (twice: Hash, once: Hash)
    ensures twice == once == h
  {
    var p := new PrepareResponse();
    p.SetPreparationHash(h);
    p.SetPreparationHash(h);
    var q := new PrepareResponse();
    q.SetPreparationHash(h);
    twice, once := p.PreparationHash(), q.PreparationHash();
  }
}
