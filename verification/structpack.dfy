/** The parts of Python's `struct` module the envelope uses: format `q`
    (an 8-byte signed integer) and format `8s` (an 8-byte string field).
    Neither format string has a byte-order prefix, so Python uses the
    machine's native order; this model fixes that order to little-endian. */
module StructPack {
  import opened Results

  type byte = x: int | 0 <= x < 256

  const INT64_MIN: int := -0x8000_0000_0000_0000
  const INT64_MAX: int := 0x7FFF_FFFF_FFFF_FFFF
  const TWO_TO_THE_64: int := 0x1_0000_0000_0000_0000

  /** `struct.error: argument out of range`. */
  datatype StructError = ArgumentOutOfRange(n: int)

  function Pow256(k: nat): (r: nat)
    ensures r >= 1
  {
    if k == 0 then 1 else 256 * Pow256(k - 1)
  }

  /** The `width` low-order bytes of `x`, least significant first. */
  function ToLittleEndian(x: nat, width: nat): (r: seq<byte>)
    ensures |r| == width
  {
    if width == 0 then [] else [x % 256] + ToLittleEndian(x / 256, width - 1)
  }

  /** The unsigned number a little-endian byte string denotes. */
  function FromLittleEndian(b: seq<byte>): (x: nat)
    ensures x < Pow256(|b|)
  {
    if |b| == 0 then 0 else b[0] + 256 * FromLittleEndian(b[1..])
  }

  lemma {:induction false} FromToLittleEndian(x: nat, width: nat)
    requires x < Pow256(width)
    ensures FromLittleEndian(ToLittleEndian(x, width)) == x
    decreases width
  {
    if width > 0 {
      var r := ToLittleEndian(x, width);
      assert r[1..] == ToLittleEndian(x / 256, width - 1);
      FromToLittleEndian(x / 256, width - 1);
    }
  }

  lemma {:induction false} ToFromLittleEndian(b: seq<byte>)
    ensures ToLittleEndian(FromLittleEndian(b), |b|) == b
    decreases |b|
  {
    if |b| > 0 {
      var x := FromLittleEndian(b);
      assert x % 256 == b[0] && x / 256 == FromLittleEndian(b[1..]);
      ToFromLittleEndian(b[1..]);
    }
  }

  /** The value of an 8-byte two's-complement little-endian field. */
  function UnpackInt64(b: seq<byte>): (n: int)
    requires |b| == 8
    ensures INT64_MIN <= n <= INT64_MAX
  {
    assert Pow256(8) == TWO_TO_THE_64;
    var u := FromLittleEndian(b);
    if u > INT64_MAX then u - TWO_TO_THE_64 else u
  }

  /** `struct.pack('q', n)`: eight bytes of two's complement, or
      `struct.error` when `n` does not fit in 64 signed bits. */
  function PackInt64(n: int): (r: Result<seq<byte>, StructError>)
    ensures r.Success? <==> INT64_MIN <= n <= INT64_MAX
    ensures r.Success? ==> |r.value| == 8 && UnpackInt64(r.value) == n
  {
    if n < INT64_MIN || n > INT64_MAX then Failure(ArgumentOutOfRange(n))
    else
      assert Pow256(8) == TWO_TO_THE_64;
      var u := if n < 0 then n + TWO_TO_THE_64 else n;
      FromToLittleEndian(u, 8);
      Success(ToLittleEndian(u, 8))
  }

  /** Every 8-byte field is the packing of the number it holds, so
      `unpack` and `pack` are inverse on both sides. */
  lemma PackUnpackInt64(b: seq<byte>)
    requires |b| == 8
    ensures PackInt64(UnpackInt64(b)) == Success(b)
  {
    assert Pow256(8) == TWO_TO_THE_64;
    ToFromLittleEndian(b);
  }

  /** `struct.pack('8s', s)`: `s` cut to 8 bytes or padded with zero bytes. */
  function FixedBytes(s: seq<byte>, size: nat): (r: seq<byte>)
    ensures |r| == size
    ensures |s| >= size ==> r == s[..size]
    ensures |s| < size ==> r[..|s|] == s && forall i :: |s| <= i < size ==> r[i] == 0
  {
    if |s| >= size then s[..size] else s + seq(size - |s|, _ => 0)
  }
}
