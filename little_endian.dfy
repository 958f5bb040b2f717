/** Rust's `from_le_bytes` / `to_le_bytes` for the integer widths the
    protocol uses, and `f32` as an opaque 32-bit pattern. */
module LittleEndian {
  import opened Bytes

  type U8 = x: int | 0 <= x < 0x100
  type U16 = x: int | 0 <= x < 0x1_0000
  type U32 = x: int | 0 <= x < 0x1_0000_0000
  type U64 = x: int | 0 <= x < 0x1_0000_0000_0000_0000
  type I32 = x: int | -0x8000_0000 <= x < 0x8000_0000

  /** 256 to the power `n`: the number of values `n` bytes can hold. */
  function Pow256(n: nat): (r: nat)
    ensures r >= 1
  {
    if n == 0 then 1 else 256 * Pow256(n - 1)
  }

  /** The unsigned value of a little-endian byte string (least significant byte first). */
  function LeValue(b: seq<Byte>): (r: nat)
    ensures r < Pow256(|b|)
  {
    if |b| == 0 then 0 else b[0] + 256 * LeValue(b[1..])
  }

  /** The `width` least significant bytes of `n`, least significant first. */
  function LeBytes(n: nat, width: nat): (r: seq<Byte>)
    ensures |r| == width
  {
    if width == 0 then [] else [n % 256] + LeBytes(n / 256, width - 1)
  }

  /** Decoding the encoding of a value that fits gives the value back. */
  lemma {:induction false} LeValueOfLeBytes(n: nat, width: nat)
    requires n < Pow256(width)
    ensures LeValue(LeBytes(n, width)) == n
  {
    if width > 0 {
      assert n / 256 < Pow256(width - 1);
      LeValueOfLeBytes(n / 256, width - 1);
      assert LeBytes(n, width)[1..] == LeBytes(n / 256, width - 1);
    }
  }

  /** Encoding the decoded value gives the same bytes back. */
  lemma {:induction false} LeBytesOfLeValue(b: seq<Byte>)
    ensures LeBytes(LeValue(b), |b|) == b
  {
    if |b| > 0 {
      LeBytesOfLeValue(b[1..]);
      var n := LeValue(b);
      assert n % 256 == b[0] && n / 256 == LeValue(b[1..]);
    }
  }

  /** Each byte contributes independently: two byte strings decode equally only if equal. */
  lemma LeValueInjective(a: seq<Byte>, b: seq<Byte>)
    requires |a| == |b| && LeValue(a) == LeValue(b)
    ensures a == b
  {
    LeBytesOfLeValue(a);
    LeBytesOfLeValue(b);
  }

  /** `u32::from_le_bytes` */
  function U32FromLe(b: Bytes4): (r: U32)
    ensures r == LeValue(b)
  {
    assert Pow256(4) == 0x1_0000_0000;
    LeValue(b)
  }

  /** `u64::from_le_bytes` */
  function U64FromLe(b: Bytes8): (r: U64)
    ensures r == LeValue(b)
  {
    assert Pow256(8) == 0x1_0000_0000_0000_0000;
    LeValue(b)
  }

  /** `u32::to_le_bytes` */
  function U32ToLe(x: U32): (r: Bytes4)
    ensures U32FromLe(r) == x
  {
    assert Pow256(4) == 0x1_0000_0000;
    LeValueOfLeBytes(x, 4);
    LeBytes(x, 4)
  }

  /** `i32::from_le_bytes`: the two's-complement reading of the 32-bit pattern. */
  function I32FromLe(b: Bytes4): (r: I32)
    ensures 0 <= r ==> r == LeValue(b)
    ensures r < 0 ==> r + 0x1_0000_0000 == LeValue(b)
  {
    var u := U32FromLe(b);
    if u < 0x8000_0000 then u else u - 0x1_0000_0000
  }

  /** `i32::to_le_bytes` */
  function I32ToLe(x: I32): (r: Bytes4)
    ensures I32FromLe(r) == x
  {
    U32ToLe(if x >= 0 then x else x + 0x1_0000_0000)
  }

  /** Every 4-byte pattern is the encoding of exactly the `i32` it decodes to. */
  lemma I32ToLeOfFromLe(b: Bytes4)
    ensures I32ToLe(I32FromLe(b)) == b
  {
    LeValueInjective(I32ToLe(I32FromLe(b)), b);
  }

  /** An `f32`, kept as its IEEE-754 bit pattern; no float arithmetic is modelled. */
  datatype F32 = F32(bits: U32)

  /** `f32::from_le_bytes`: `f32::from_bits(u32::from_le_bytes(b))`. */
  function F32FromLe(b: Bytes4): (r: F32)
    ensures r.bits == LeValue(b)
  {
    F32(U32FromLe(b))
  }

  /** `f32::to_le_bytes`: the bytes of `x.to_bits()`, least significant first. */
  function F32ToLe(x: F32): (r: Bytes4)
    ensures LeValue(r) == x.bits
  {
    U32ToLe(x.bits)
  }

  /** A float survives being sent as bytes and read back (bit-for-bit). */
  lemma F32FromToLe(x: F32)
    ensures F32FromLe(F32ToLe(x)) == x
  {
  }

  /** Reading four bytes as a float and writing it back gives the same bytes. */
  lemma F32ToFromLe(b: Bytes4)
    ensures F32ToLe(F32FromLe(b)) == b
  {
    LeValueInjective(F32ToLe(F32FromLe(b)), b);
  }
}
