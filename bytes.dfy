/** Byte strings and the fixed-size hash types used by the node. */
module Bytes {

  /** An unsigned 8-bit value. */
  type byte = b: int | 0 <= b < 0x100

  /** Width of go-ethereum's common.Hash. */
  const HashLength: nat := 32

  /** Width of a 160-bit script hash (util.Uint160). */
  const Uint160Length: nat := 20

  /** common.Hash: exactly 32 bytes. */
  type Hash = s: seq<byte> | |s| == 32 witness seq(32, _ => 0)

  /** util.Uint160, represented by its 20 bytes in big-endian order (what BytesBE returns). */
  type Uint160 = s: seq<byte> | |s| == 20 witness seq(20, _ => 0)

  /** The zero value of common.Hash. */
  const ZeroHash: Hash := seq(32, _ => 0)
}
