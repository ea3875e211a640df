/** Fixed-width integers and the one wire primitive the decoder reads itself:
    the little-endian 32-bit vector count (`binary.LittleEndian.Uint32`).
    Also the two's-complement reinterpretations the request side applies to
    its unsigned arguments (`int32(limit)`, `int64(lt)`). */
module Wire {

  /** An octet; Go's `byte`. */
  type Byte = x: int | 0 <= x < 256
  type Bytes = seq<Byte>

  const Two31: int := 0x8000_0000
  const Two32: int := 0x1_0000_0000
  const Two63: int := 0x8000_0000_0000_0000
  const Two64: int := 0x1_0000_0000_0000_0000

  type uint32 = x: int | 0 <= x < Two32
  type uint64 = x: int | 0 <= x < Two64
  type int32 = x: int | -Two31 <= x < Two31
  type int64 = x: int | -Two63 <= x < Two63

  /** The byte strings of `parts`, one after another. */
  function Concat(parts: seq<Bytes>): Bytes {
    if |parts| == 0 then [] else parts[0] + Concat(parts[1..])
  }

  /** The four little-endian bytes of `n`, least significant first. */
  function EncodeUint32LE(n: uint32): (b: Bytes)
    ensures |b| == 4
  {
    [(n % 256) as Byte,
     (n / 256 % 256) as Byte,
     (n / 256 / 256 % 256) as Byte,
     (n / 256 / 256 / 256) as Byte]
  }

  /** A byte value plus 256 times anything splits back into its two parts. */
  lemma DivModByte(a: int, q: int)
    requires 0 <= a < 256
    ensures (a + 256 * q) % 256 == a
    ensures (a + 256 * q) / 256 == q
  {
  }

  /** The value of four bytes, least significant first. */
  function LittleEndian4(b0: Byte, b1: Byte, b2: Byte, b3: Byte): (n: uint32)
    ensures EncodeUint32LE(n) == [b0, b1, b2, b3]
  {
    var h2 := b2 as int + 256 * (b3 as int);
    var h1 := b1 as int + 256 * h2;
    var n := b0 as int + 256 * h1;
    DivModByte(b0 as int, h1);
    DivModByte(b1 as int, h2);
    DivModByte(b2 as int, b3 as int);
    n
  }

  /** `binary.LittleEndian.Uint32(data)`: the unsigned value of the first four
      bytes, least significant first. The Go routine panics on fewer than four
      bytes, so its callers guarantee them. */
  function ReadUint32LE(data: Bytes): (n: uint32)
    requires |data| >= 4
    ensures EncodeUint32LE(n) == data[..4]
  {
    LittleEndian4(data[0], data[1], data[2], data[3])
  }

  /** Reading back the encoding of a count yields that count, whatever follows it. */
  lemma ReadEncodeUint32LE(n: uint32, rest: Bytes)
    ensures ReadUint32LE(EncodeUint32LE(n) + rest) == n
  {
  }

  /** `int32(x)` on a Go `uint32`: the same 32 bits read as a signed number. */
  function Int32Of(x: uint32): (r: int32)
    ensures (x - r) % Two32 == 0
    ensures r < 0 <==> x >= Two31
  {
    if x < Two31 then x else x - Two32
  }

  /** `uint32(x)` on a Go `int32`: the inverse reinterpretation. */
  function Uint32Of(x: int32): (r: uint32)
    ensures (r - x) % Two32 == 0
  {
    if x >= 0 then x else x + Two32
  }

  /** `int64(x)` on a Go `uint64`. */
  function Int64Of(x: uint64): (r: int64)
    ensures (x - r) % Two64 == 0
    ensures r < 0 <==> x >= Two63
  {
    if x < Two63 then x else x - Two64
  }

  /** `uint64(x)` on a Go `int64`. */
  function Uint64Of(x: int64): (r: uint64)
    ensures (r - x) % Two64 == 0
  {
    if x >= 0 then x else x + Two64
  }

  /** Two's-complement reinterpretation loses nothing in either direction. */
  lemma Int32RoundTrip(x: uint32, y: int32)
    ensures Uint32Of(Int32Of(x)) == x
    ensures Int32Of(Uint32Of(y)) == y
  {
  }

  lemma Int64RoundTrip(x: uint64, y: int64)
    ensures Uint64Of(Int64Of(x)) == x
    ensures Int64Of(Uint64Of(y)) == y
  {
  }
}
