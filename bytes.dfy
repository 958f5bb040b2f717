/** Fixed-width byte arrays and the `ResponseManip` helpers that take them
    apart and put them back together. */
module Bytes {

  /** Rust's `u8`. */
  type Byte = b: int | 0 <= b < 256

  type Bytes1 = s: seq<Byte> | |s| == 1 witness [0]
  type Bytes2 = s: seq<Byte> | |s| == 2 witness [0, 0]
  type Bytes4 = s: seq<Byte> | |s| == 4 witness [0, 0, 0, 0]
  type Bytes8 = s: seq<Byte> | |s| == 8 witness [0, 0, 0, 0, 0, 0, 0, 0]

  /** `[0; n]` */
  function Zeros(n: nat): (r: seq<Byte>)
    ensures |r| == n && forall i :: 0 <= i < n ==> r[i] == 0
  {
    seq(n, _ => 0)
  }

  /** `combine`: splits `dest` at `|data1|` and copies `data1` into the left
      part and `data2` into the right part. `copy_from_slice` panics unless
      the lengths agree, so the caller must supply a buffer of exactly
      `|data1| + |data2|` bytes. Returns the same buffer. */
  method Combine(data1: seq<Byte>, data2: seq<Byte>, dest: array<Byte>) returns (out: array<Byte>)
    requires dest.Length == |data1| + |data2|
    modifies dest
    ensures out == dest
    ensures dest[..|data1|] == data1 && dest[|data1|..] == data2
    ensures dest[..] == data1 + data2
  {
    var n := |data1|;
    // left.copy_from_slice(data1)
    var i := 0;
    while i < n
      invariant 0 <= i <= n
      invariant forall k :: 0 <= k < i ==> dest[k] == data1[k]
    {
      dest[i] := data1[i];
      i := i + 1;
    }
    // right.copy_from_slice(data2)
    var j := 0;
    while j < |data2|
      invariant 0 <= j <= |data2|
      invariant forall k :: 0 <= k < n ==> dest[k] == data1[k]
      invariant forall k :: 0 <= k < j ==> dest[n + k] == data2[k]
    {
      dest[n + j] := data2[j];
      j := j + 1;
    }
    assert dest[..] == data1 + data2;
    out := dest;
  }

  /** `split`: cuts a slice at half its length (the second part takes the odd byte). */
  function Split(data: seq<Byte>): (r: (seq<Byte>, seq<Byte>))
    ensures |r.0| == |data| / 2 && |r.1| == |data| - |data| / 2
    ensures r.0 + r.1 == data
  {
    var half := |data| / 2;
    (data[..half], data[half..])
  }

  /** `combine_32`: a fresh zeroed 8-byte buffer filled through `Combine`. */
  method Combine32(data1: Bytes4, data2: Bytes4) returns (r: Bytes8)
    ensures r == data1 + data2 && r[..4] == data1 && r[4..] == data2
    ensures Split32(r) == (data1, data2)
  {
    var dest := new Byte[8](_ => 0);
    var _ := Combine(data1, data2, dest);
    r := dest[..];
  }

  /** `combine_16` */
  method Combine16(data1: Bytes2, data2: Bytes2) returns (r: Bytes4)
    ensures r == data1 + data2 && r[..2] == data1 && r[2..] == data2
    ensures Split16(r) == (data1, data2)
  {
    var dest := new Byte[4](_ => 0);
    var _ := Combine(data1, data2, dest);
    r := dest[..];
  }

  /** `combine_8` */
  method Combine8(data1: Bytes1, data2: Bytes1) returns (r: Bytes2)
    ensures r == data1 + data2 && r[..1] == data1 && r[1..] == data2
    ensures Split8(r) == (data1, data2)
  {
    var dest := new Byte[2](_ => 0);
    var _ := Combine(data1, data2, dest);
    r := dest[..];
  }

  /** `split_32`; the two `try_into().unwrap()` never panic since both halves have 4 bytes. */
  function Split32(data: Bytes8): (r: (Bytes4, Bytes4))
    ensures r.0 == data[..4] && r.1 == data[4..]
    ensures r.0 + r.1 == data
  {
    var (sp1, sp2) := Split(data);
    (sp1, sp2)
  }

  /** `split_16` */
  function Split16(data: Bytes4): (r: (Bytes2, Bytes2))
    ensures r.0 == data[..2] && r.1 == data[2..]
    ensures r.0 + r.1 == data
  {
    var (sp1, sp2) := Split(data);
    (sp1, sp2)
  }

  /** `split_8` */
  function Split8(data: Bytes2): (r: (Bytes1, Bytes1))
    ensures r.0 == data[..1] && r.1 == data[1..]
    ensures r.0 + r.1 == data
  {
    var (sp1, sp2) := Split(data);
    (sp1, sp2)
  }
}
