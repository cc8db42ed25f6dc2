/**
 * Little-endian fixed-width integers, the byte order of every number in a
 * BSON document and in the wire protocol's headers.  Java's `int` and `long`
 * are two's complement, so decoding yields signed values and encoding takes
 * a value modulo 2^32 or 2^64.
 */
module LittleEndian {

  /** An octet; Java's signed `byte` is read from it by `SignedByte` where the sign matters. */
  newtype byte = x: int | 0 <= x < 256

  const TWO_31: int := 0x8000_0000
  const TWO_32: int := 0x1_0000_0000
  const TWO_63: int := 0x8000_0000_0000_0000
  const TWO_64: int := 0x1_0000_0000_0000_0000

  predicate IsInt32(x: int) { -TWO_31 <= x < TWO_31 }
  predicate IsInt64(x: int) { -TWO_63 <= x < TWO_63 }

  function Pow256(n: nat): (r: nat)
    ensures r > 0
  {
    if n == 0 then 1 else 256 * Pow256(n - 1)
  }

  lemma Pow256Values()
    ensures Pow256(4) == TWO_32 && Pow256(8) == TWO_64
  {
  }

  /** The unsigned number whose little-endian representation is `s`. */
  function Unsigned(s: seq<byte>): (r: nat)
    ensures r < Pow256(|s|)
  {
    if s == [] then 0 else s[0] as nat + 256 * Unsigned(s[1..])
  }

  /** The `width` low-order bytes of `n`, least significant first. */
  function UnsignedBytes(n: nat, width: nat): (s: seq<byte>)
    ensures |s| == width
  {
    if width == 0 then [] else [(n % 256) as byte] + UnsignedBytes(n / 256, width - 1)
  }

  lemma {:induction false} UnsignedOfBytes(n: nat, width: nat)
    requires n < Pow256(width)
    ensures Unsigned(UnsignedBytes(n, width)) == n
  {
    if width > 0 {
      assert n / 256 < Pow256(width - 1);
      UnsignedOfBytes(n / 256, width - 1);
      var s := UnsignedBytes(n, width);
      assert s[1..] == UnsignedBytes(n / 256, width - 1);
      assert s[0] as nat == n % 256;
    }
  }

  /** Java's `(int)` narrowing: the int32 congruent to `x` modulo 2^32. */
  function Wrap32(x: int): (r: int)
    ensures IsInt32(r) && (r - x) % TWO_32 == 0
    ensures IsInt32(x) ==> r == x
  {
    var u := x % TWO_32;
    if u < TWO_31 then u else u - TWO_32
  }

  /** `ByteBuffer.getInt` in little-endian order. */
  function Int32Of(s: seq<byte>): (x: int)
    requires |s| == 4
    ensures IsInt32(x)
  {
    Pow256Values();
    var u := Unsigned(s);
    if u < TWO_31 then u else u - TWO_32
  }

  /** `ByteBuffer.getLong` in little-endian order. */
  function Int64Of(s: seq<byte>): (x: int)
    requires |s| == 8
    ensures IsInt64(x)
  {
    Pow256Values();
    var u := Unsigned(s);
    if u < TWO_63 then u else u - TWO_64
  }

  /** `ByteBuffer.putInt` in little-endian order. */
  function Int32Bytes(x: int): (s: seq<byte>)
    ensures |s| == 4
  {
    UnsignedBytes(x % TWO_32, 4)
  }

  /** `ByteBuffer.putLong` in little-endian order. */
  function Int64Bytes(x: int): (s: seq<byte>)
    ensures |s| == 8
  {
    UnsignedBytes(x % TWO_64, 8)
  }

  lemma Int32RoundTrip(x: int)
    requires IsInt32(x)
    ensures Int32Of(Int32Bytes(x)) == x
  {
    Pow256Values();
    UnsignedOfBytes(x % TWO_32, 4);
  }

  lemma Int64RoundTrip(x: int)
    requires IsInt64(x)
    ensures Int64Of(Int64Bytes(x)) == x
  {
    Pow256Values();
    UnsignedOfBytes(x % TWO_64, 8);
  }
}
