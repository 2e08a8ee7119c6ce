/** Byte strings, big-endian integers and the flattening of byte-string lists. */
module Bytes {

  type byte = x: nat | x < 256

  const MAX_UINT64: nat := 0xFFFF_FFFF_FFFF_FFFF

  /** 256 to the power n. */
  function Pow256(n: nat): nat {
    if n == 0 then 1 else 256 * Pow256(n - 1)
  }

  /** The low `width` bytes of n, most significant first. */
  function ToBE(n: nat, width: nat): (bs: seq<byte>)
    ensures |bs| == width
  {
    if width == 0 then [] else ToBE(n / 256, width - 1) + [n % 256]
  }

  function FromBE(bs: seq<byte>): nat {
    if bs == [] then 0 else 256 * FromBE(bs[..|bs| - 1]) + bs[|bs| - 1]
  }

  lemma {:induction false} FromToBE(n: nat, width: nat)
    requires n < Pow256(width)
    ensures FromBE(ToBE(n, width)) == n
  {
    if width == 0 {
    } else {
      FromToBE(n / 256, width - 1);
      assert ToBE(n, width)[..width - 1] == ToBE(n / 256, width - 1);
    }
  }

  lemma {:induction false} ToFromBE(bs: seq<byte>)
    ensures FromBE(bs) < Pow256(|bs|)
    ensures ToBE(FromBE(bs), |bs|) == bs
  {
    if bs == [] {
    } else {
      ToFromBE(bs[..|bs| - 1]);
      assert bs == bs[..|bs| - 1] + [bs[|bs| - 1]];
    }
  }

  /** The fewest bytes that hold n, most significant first; no bytes for zero. */
  function MinBE(n: nat): seq<byte> {
    if n == 0 then [] else MinBE(n / 256) + [n % 256]
  }

  lemma {:induction false} FromMinBE(n: nat)
    ensures FromBE(MinBE(n)) == n
    ensures n != 0 ==> MinBE(n) != [] && MinBE(n)[0] != 0
  {
    if n == 0 {
    } else {
      FromMinBE(n / 256);
      assert MinBE(n)[..|MinBE(n)| - 1] == MinBE(n / 256);
    }
  }

  lemma {:induction false} MinBEWidth(n: nat, width: nat)
    requires n < Pow256(width)
    ensures |MinBE(n)| <= width
  {
    if n == 0 || width == 0 {
    } else {
      MinBEWidth(n / 256, width - 1);
    }
  }

  /** A byte string without a leading zero is the shortest form of its value. */
  lemma {:induction false} MinFromBE(bs: seq<byte>)
    requires bs != [] ==> bs[0] != 0
    ensures MinBE(FromBE(bs)) == bs
    ensures bs != [] ==> FromBE(bs) != 0
  {
    if bs == [] {
    } else {
      var front, last := bs[..|bs| - 1], bs[|bs| - 1];
      MinFromBE(front);
      assert bs == front + [last];
      assert FromBE(bs) / 256 == FromBE(front) && FromBE(bs) % 256 == last;
    }
  }

  lemma Pow256Values()
    ensures Pow256(1) == 0x100 && Pow256(2) == 0x1_0000 && Pow256(4) == 0x1_0000_0000
    ensures Pow256(8) == 0x1_0000_0000_0000_0000
  {
    assert Pow256(2) == 0x1_0000;
    assert Pow256(4) == 0x1_0000_0000;
    assert Pow256(6) == 0x1_0000_0000_0000;
  }

  /** The bytes of plain characters. */
  function Ascii(text: string): (bs: seq<byte>)
    requires forall i :: 0 <= i < |text| ==> text[i] as int < 128
    ensures |bs| == |text|
  {
    seq(|text|, i requires 0 <= i < |text| => text[i] as byte)
  }

  lemma {:induction false} FromBEFront(bs: seq<byte>)
    requires bs != []
    ensures FromBE(bs) == bs[0] * Pow256(|bs| - 1) + FromBE(bs[1..])
  {
    var n := |bs| - 1;
    if n == 0 {
      assert bs[..0] == [] && bs[1..] == [];
    } else {
      FromBEFront(bs[..n]);
      assert bs[..n][1..] == bs[1..][..n - 1];
      assert 256 * (bs[0] * Pow256(n - 1)) == bs[0] * Pow256(n);
    }
  }
}
