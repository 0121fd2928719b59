/** Bytes on the wire, and the fixed-width big- and little-endian fields made of them. */
module Bytes {

  newtype byte = n: int | 0 <= n < 256

  datatype Option<+T> = None | Some(value: T)

  /** The low byte of `n`. */
  function U8(n: int): (b: byte)
    ensures b as int == n % 256
  {
    (n % 256) as byte
  }

  /** `htons`, as bytes. */
  function Be16(n: int): (s: seq<byte>)
    ensures |s| == 2
  {
    [U8(n / 256), U8(n)]
  }

  function De16(s: seq<byte>): (n: int)
    requires |s| == 2
    ensures 0 <= n < 0x1_0000
  {
    s[0] as int * 256 + s[1] as int
  }

  lemma Be16RoundTrip(n: int)
    ensures De16(Be16(n)) == n % 0x1_0000
  {
  }

  /** An 8-bit machine word as a byte, and back. */
  function FromWord(v: bv8): byte { v as byte }

  function ToWord(b: byte): bv8 { b as bv8 }

  lemma WordRoundTrip(v: bv8)
    ensures ToWord(FromWord(v)) == v
  {
  }

  /** A 32-bit word, most significant byte first. */
  function Be32(v: bv32): (s: seq<byte>)
    ensures |s| == 4
  {
    [FromWord(((v >> 24) & 0xFF) as bv8), FromWord(((v >> 16) & 0xFF) as bv8),
     FromWord(((v >> 8) & 0xFF) as bv8), FromWord((v & 0xFF) as bv8)]
  }

  function De32(s: seq<byte>): bv32
    requires |s| == 4
  {
    Word32(ToWord(s[0]), ToWord(s[1]), ToWord(s[2]), ToWord(s[3]))
  }

  function Word32(a: bv8, b: bv8, c: bv8, d: bv8): bv32
  {
    (a as bv32 << 24) | (b as bv32 << 16) | (c as bv32 << 8) | d as bv32
  }

  lemma Be32RoundTrip(v: bv32)
    ensures De32(Be32(v)) == v
  {
    WordRoundTrip(((v >> 24) & 0xFF) as bv8);
    WordRoundTrip(((v >> 16) & 0xFF) as bv8);
    WordRoundTrip(((v >> 8) & 0xFF) as bv8);
    WordRoundTrip((v & 0xFF) as bv8);
    Word32Parts(v);
  }

  lemma Word32Parts(v: bv32)
    ensures Word32(((v >> 24) & 0xFF) as bv8, ((v >> 16) & 0xFF) as bv8, ((v >> 8) & 0xFF) as bv8, (v & 0xFF) as bv8)
        == v
  {
  }

  function HighByte(v: bv16): byte { FromWord(((v >> 8) & 0xFF) as bv8) }

  function LowByte(v: bv16): byte { FromWord((v & 0xFF) as bv8) }

  function Word16(high: byte, low: byte): bv16 { Join16(ToWord(high), ToWord(low)) }

  function Join16(high: bv8, low: bv8): bv16 { (high as bv16 << 8) | low as bv16 }

  lemma Word16RoundTrip(v: bv16)
    ensures Word16(HighByte(v), LowByte(v)) == v
  {
    WordRoundTrip(((v >> 8) & 0xFF) as bv8);
    WordRoundTrip((v & 0xFF) as bv8);
    Join16Parts(v);
  }

  lemma Join16Parts(v: bv16)
    ensures Join16(((v >> 8) & 0xFF) as bv8, (v & 0xFF) as bv8) == v
  {
  }
}
