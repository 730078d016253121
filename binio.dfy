/**
 * The binary writer and reader the payloads serialise through. Only the two
 * operations a fixed-width payload uses are modelled: appending raw bytes to a
 * growing buffer, and reading a fixed number of raw bytes from an input at a
 * read position, with a sticky error flag for a short read.
 */
module BinIO {
  import opened Bytes

  /** Output side: a byte buffer that only grows. */
  class BinWriter {
    var buf: seq<byte>

    constructor ()
      ensures buf == []
    {
      buf := [];
    }

    /** Appends b to the buffer, in order. */
    method WriteBytes(b: seq<byte>)
      modifies this
      ensures buf == old(buf) + b
    {
      buf := buf + b;
    }
  }

  /** Input side: a fixed input, a read position into it, and a sticky error flag. */
  class BinReader {
    const data: seq<byte>
    var pos: nat
    var err: bool

    ghost predicate Valid()
      reads this
    {
      pos <= |data|
    }

    /** Number of bytes not yet consumed. */
    function Remaining(): (n: nat)
      reads this
      requires Valid()
      ensures pos + n == |data|
    {
      |data| - pos
    }

    constructor (input: seq<byte>)
      ensures Valid() && data == input && pos == 0 && !err
    {
      data := input;
      pos := 0;
      err := false;
    }

    /**
     * Fills a destination of |dest| bytes from the input. Once the error flag
     * is set, or when fewer than |dest| bytes remain, the read fails and sets
     * the flag; what a failed read leaves in the destination is not promised.
     */
    method ReadBytes(dest: seq<byte>) returns (filled: seq<byte>)
      requires Valid()
      modifies this
      ensures Valid() && |filled| == |dest|
      ensures err <==> old(err) || old(Remaining()) < |dest|
      ensures !err ==> pos == old(pos) + |dest| && filled == data[old(pos)..pos]
    {
      if err || |data| - pos < |dest| {
        err := true;
        filled := dest;
      } else {
        filled := data[pos..pos + |dest|];
        pos := pos + |dest|;
      }
    }
  }
}
