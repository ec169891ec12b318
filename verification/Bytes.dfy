/** Bytes inside the words of a page, little-endian, and byte accesses through a
    page table. */
module Bytes {
  import opened X86

  type Byte = b: int | 0 <= b < 256

  function FromBytes(bs: seq<Byte>): (w: nat)
  {
    if bs == [] then 0 else bs[0] + 256 * FromBytes(bs[1..])
  }

  function ToBytes(w: nat, n: nat): (bs: seq<Byte>)
    ensures |bs| == n
    decreases n
  {
    if n == 0 then [] else [w % 256] + ToBytes(w / 256, n - 1)
  }

  lemma {:induction false} BytesRoundTrip(bs: seq<Byte>)
    ensures ToBytes(FromBytes(bs), |bs|) == bs
    decreases |bs|
  {
    if bs != [] {
      BytesRoundTrip(bs[1..]);
      DivMod(FromBytes(bs), 256, FromBytes(bs[1..]), bs[0]);
    }
  }

  function Pow256(n: nat): (p: nat)
  {
    if n == 0 then 1 else 256 * Pow256(n - 1)
  }

  lemma {:induction false} FromBytesBound(bs: seq<Byte>)
    ensures FromBytes(bs) < Pow256(|bs|)
    decreases |bs|
  {
    if bs != [] {
      FromBytesBound(bs[1..]);
    }
  }

  lemma EightBytes(bs: seq<Byte>)
    requires |bs| == 8
    ensures FromBytes(bs) < 0x1_0000_0000_0000_0000
  {
    FromBytesBound(bs);
    assert Pow256(4) == 0x1_0000_0000;
    assert Pow256(8) == 256 * 256 * 256 * 256 * Pow256(4);
  }

  function GetByte(pg: Page, o: nat): Byte
    requires o < 4096
  {
    ToBytes(pg[o / 8], 8)[o % 8]
  }

  function PutByte(pg: Page, o: nat, b: Byte): Page
    requires o < 4096
  {
    var bs := ToBytes(pg[o / 8], 8)[o % 8 := b];
    EightBytes(bs);
    pg[o / 8 := FromBytes(bs)]
  }

  lemma PutThenGet(pg: Page, o: nat, b: Byte, i: nat)
    requires o < 4096 && i < 4096
    ensures GetByte(PutByte(pg, o, b), i) == if i == o then b else GetByte(pg, i)
  {
    var bs := ToBytes(pg[o / 8], 8)[o % 8 := b];
    EightBytes(bs);
    BytesRoundTrip(bs);
    hide ToBytes, FromBytes;
    if i / 8 == o / 8 {
      assert i % 8 == o % 8 <==> i == o;
    }
  }
}
