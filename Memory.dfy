/**
  Bytes, the memory of the drawing process read as one byte sequence indexed by
  address, and the ways a screenshot can fail.
*/
module Memory {
  import opened Wrappers

  type byte = x: int | 0 <= x < 256

  /** Why taking a screenshot failed. */
  datatype Error =
    | NoXochitlProcess                // `pidof xochitl` printed no pid
    | MapsUnreadable                  // `/proc/<pid>/maps` could not be read
    | NoCard0Mapping                  // no maps line mentions `/dev/dri/card0`
    | InvalidMemoryRange              // the address range does not split into two parts at '-'
    | InvalidAddress                  // a hexadecimal address did not parse as a u64
    | ReadFailed                      // `/proc/<pid>/mem` is missing or holds too few bytes
    | LengthUnderflow                 // a header length below 2 (the source's `length - 2` underflows)
    | NoProgress                      // a header length of exactly 2 (the source's loop never ends)
    | EncodeFailed                    // the image library failed

  /** `seek(pos)` then `read_exact` of `n` bytes. */
  function ReadExact(mem: seq<byte>, pos: nat, n: nat): (r: Result<seq<byte>, Error>)
    ensures r.Success? <==> pos + n <= |mem|
    ensures r.Success? ==> |r.value| == n && forall i | 0 <= i < n :: r.value[i] == mem[pos + i]
    ensures r.Failure? ==> r.error == ReadFailed
  {
    if pos + n <= |mem| then Success(mem[pos..pos + n]) else Failure(ReadFailed)
  }

  /** A 32-bit little-endian unsigned integer. */
  function LittleEndian32(b: seq<byte>): (v: nat)
    requires |b| >= 4
    ensures v < 0x1_0000_0000
  {
    b[0] as int + b[1] as int * 0x100 + b[2] as int * 0x1_0000 + b[3] as int * 0x100_0000
  }

  /** The inverse of `LittleEndian32`: the four bytes of `v`, least significant first. */
  function LittleEndianBytes(v: nat): (b: seq<byte>)
    requires v < 0x1_0000_0000
    ensures |b| == 4
  {
    [v % 0x100, (v / 0x100) % 0x100, (v / 0x1_0000) % 0x100, v / 0x100_0000]
  }

  /** Encoding a length and decoding it gives it back. */
  lemma LittleEndianRoundTrip(v: nat)
    requires v < 0x1_0000_0000
    ensures LittleEndian32(LittleEndianBytes(v)) == v
  {
  }
}
