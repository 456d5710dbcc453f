/** Byte strings and the fixed-size integers of encoding/binary. */
module Bytes {

  type Byte = b: int | 0 <= b < 256
  type Bytes = seq<Byte>

  function Pow256(n: nat): (r: nat)
    ensures r >= 1
  {
    if n == 0 then 1 else 256 * Pow256(n - 1)
  }

  /** Big endian, `size` bytes; the high part of a larger number is cut off. */
  function BigEndian(x: nat, size: nat): (bs: Bytes)
    ensures |bs| == size
  {
    if size == 0 then [] else BigEndian(x / 256, size - 1) + [x % 256]
  }

  function FromBigEndian(bs: Bytes): (x: nat)
  {
    if bs == [] then 0 else FromBigEndian(bs[..|bs| - 1]) * 256 + bs[|bs| - 1]
  }

  function LittleEndian(x: nat, size: nat): (bs: Bytes)
    ensures |bs| == size
  {
    if size == 0 then [] else [x % 256] + LittleEndian(x / 256, size - 1)
  }

  lemma {:induction false} BigEndianReadsBack(x: nat, size: nat)
    requires x < Pow256(size)
    ensures FromBigEndian(BigEndian(x, size)) == x
  {
    if size > 0 {
      BigEndianReadsBack(x / 256, size - 1);
      var bs := BigEndian(x, size);
      assert bs[..|bs| - 1] == BigEndian(x / 256, size - 1);
    }
  }

  const INT64_LIMIT := 0x8000_0000_0000_0000
  const UINT64_LIMIT := 0x1_0000_0000_0000_0000

  lemma Pow256Values()
    ensures Pow256(1) == 0x100 && Pow256(2) == 0x1_0000 && Pow256(4) == 0x1_0000_0000
    ensures Pow256(8) == UINT64_LIMIT
  {
    assert Pow256(3) == 0x100_0000;
    assert Pow256(5) == 0x100_0000_0000;
    assert Pow256(6) == 0x1_0000_0000_0000;
    assert Pow256(7) == 0x100_0000_0000_0000;
  }

  predicate IsInt64(x: int) {
    -INT64_LIMIT <= x < INT64_LIMIT
  }

  /** uint64 of an int64, and back. */
  function ToUint64(x: int): nat
    requires IsInt64(x)
  {
    if x >= 0 then x else x + UINT64_LIMIT
  }

  function FromUint64(x: nat): int {
    if x < INT64_LIMIT then x else x - UINT64_LIMIT
  }
}
