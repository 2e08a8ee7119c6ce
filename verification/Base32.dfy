/** Regrouping bytes into five-bit digits and back, without a checksum. */
module Base32 {
  import opened Wrappers
  import opened Bytes

  type digit = d: nat | d < 32

  function Pow2(n: nat): nat
    ensures Pow2(n) > 0
  {
    if n == 0 then 1 else 2 * Pow2(n - 1)
  }

  /** The low `width` base-32 digits of n, most significant first. */
  function ToDigits(n: nat, width: nat): (ds: seq<digit>)
    ensures |ds| == width
  {
    if width == 0 then [] else ToDigits(n / 32, width - 1) + [n % 32]
  }

  function FromDigits(ds: seq<digit>): nat {
    if ds == [] then 0 else 32 * FromDigits(ds[..|ds| - 1]) + ds[|ds| - 1]
  }

  /** Regroups digits into bytes. What is left over must be at most four bits, all of them zero. */
  function ConvertBits(ds: seq<digit>): Option<seq<byte>> {
    var spare := 5 * |ds| % 8;
    if spare > 4 || FromDigits(ds) % Pow2(spare) != 0 then None
    else Some(ToBE(FromDigits(ds) / Pow2(spare), 5 * |ds| / 8))
  }

  /** How many digits hold n bytes, and how many bits of the last digit are left over. */
  function DigitCount(n: nat): nat {
    (8 * n + 4) / 5
  }

  function Padding(n: nat): nat {
    5 * DigitCount(n) - 8 * n
  }

  /** The digits of a byte string, padded with zero bits. */
  function Digits(bs: seq<byte>): (ds: seq<digit>)
    ensures |ds| == DigitCount(|bs|)
  {
    ToDigits(FromBE(bs) * Pow2(Padding(|bs|)), DigitCount(|bs|))
  }

  lemma {:induction false} Pow2Sum(a: nat, b: nat)
    ensures Pow2(a + b) == Pow2(a) * Pow2(b)
  {
    if a > 0 {
      Pow2Sum(a - 1, b);
      assert Pow2(a + b) == 2 * Pow2(a - 1 + b);
    }
  }

  /** Five more bits, and eight more. */
  lemma MoreBits(n: nat)
    ensures Pow2(n + 5) == 32 * Pow2(n) && Pow2(n + 8) == 256 * Pow2(n)
  {
    assert Pow2(n + 2) == 4 * Pow2(n);
    assert Pow2(n + 4) == 4 * Pow2(n + 2);
    assert Pow2(n + 6) == 4 * Pow2(n + 4);
    assert Pow2(n + 8) == 4 * Pow2(n + 6);
    assert Pow2(n + 5) == 2 * Pow2(n + 4);
  }

  lemma {:induction false} Pow256IsPow2(n: nat)
    ensures Pow256(n) == Pow2(8 * n)
  {
    if n > 0 {
      Pow256IsPow2(n - 1);
      MoreBits(8 * (n - 1));
    }
  }

  lemma {:induction false} FromToDigits(n: nat, width: nat)
    requires n < Pow2(5 * width)
    ensures FromDigits(ToDigits(n, width)) == n
  {
    if width > 0 {
      MoreBits(5 * (width - 1));
      FromToDigits(n / 32, width - 1);
      assert ToDigits(n, width)[..width - 1] == ToDigits(n / 32, width - 1);
    }
  }

  lemma {:induction false} ToFromDigits(ds: seq<digit>)
    ensures ToDigits(FromDigits(ds), |ds|) == ds
  {
    if ds != [] {
      ToFromDigits(ds[..|ds| - 1]);
      assert ds == ds[..|ds| - 1] + [ds[|ds| - 1]];
    }
  }

  lemma SmallPowers()
    ensures Pow2(0) == 1 && Pow2(1) == 2 && Pow2(2) == 4 && Pow2(3) == 8 && Pow2(4) == 16
  {
    assert Pow2(2) == 4;
  }

  /** Shifting by at most four bits, and back. */
  lemma Shift(a: nat, k: nat)
    requires k <= 4
    ensures a * Pow2(k) % Pow2(k) == 0 && a * Pow2(k) / Pow2(k) == a
    ensures a % Pow2(k) == 0 ==> a / Pow2(k) * Pow2(k) == a
  {
    SmallPowers();
    hide Pow2;
    var p := Pow2(k);
    if p == 1 {
    } else if p == 2 {
    } else if p == 4 {
    } else if p == 8 {
    }
  }

  lemma ShiftOrder(a: nat, b: nat, k: nat)
    ensures a < b <==> a * Pow2(k) < b * Pow2(k)
  {
    var p := Pow2(k);
    hide Pow2;
    if a < b {
      assert (b - a) * p > 0;
    } else {
      assert (a - b) * p >= 0;
    }
  }

  lemma CountDigits(n: nat)
    ensures 5 * DigitCount(n) == 8 * n + Padding(n) && Padding(n) <= 4
    ensures 5 * DigitCount(n) / 8 == n && 5 * DigitCount(n) % 8 == Padding(n)
  {
  }

  lemma CountBytes(m: nat)
    requires 5 * m % 8 <= 4
    ensures DigitCount(5 * m / 8) == m && Padding(5 * m / 8) == 5 * m % 8
  {
  }

  lemma PaddedBelow(bs: seq<byte>)
    ensures FromBE(bs) * Pow2(Padding(|bs|)) < Pow2(5 * DigitCount(|bs|))
  {
    hide FromBE, ToBE, Pow2, DigitCount, Padding;
    CountDigits(|bs|);
    ToFromBE(bs);
    Pow256IsPow2(|bs|);
    Pow2Sum(8 * |bs|, Padding(|bs|));
    ShiftOrder(FromBE(bs), Pow2(8 * |bs|), Padding(|bs|));
  }

  /** The digits of a byte string regroup into it. */
  lemma ConvertBitsOfDigits(bs: seq<byte>)
    ensures ConvertBits(Digits(bs)) == Some(bs)
  {
    hide FromBE, ToBE, FromDigits, ToDigits, Pow2, DigitCount, Padding;
    CountDigits(|bs|);
    PaddedBelow(bs);
    FromToDigits(FromBE(bs) * Pow2(Padding(|bs|)), DigitCount(|bs|));
    Shift(FromBE(bs), Padding(|bs|));
    ToFromBE(bs);
  }

  /** Digits that regroup into bytes are the digits of those bytes. */
  lemma DigitsUnique(ds: seq<digit>)
    requires ConvertBits(ds).Some?
    ensures Digits(ConvertBits(ds).value) == ds
  {
    hide FromBE, ToBE, FromDigits, ToDigits, Pow2, DigitCount, Padding;
    var spare, n := 5 * |ds| % 8, 5 * |ds| / 8;
    CountBytes(|ds|);
    Shift(FromDigits(ds), spare);
    ValueBelow(ds);
    FromToBE(FromDigits(ds) / Pow2(spare), n);
    ToFromDigits(ds);
  }

  lemma ValueBelow(ds: seq<digit>)
    requires 5 * |ds| % 8 <= 4 && FromDigits(ds) % Pow2(5 * |ds| % 8) == 0
    ensures FromDigits(ds) / Pow2(5 * |ds| % 8) < Pow256(5 * |ds| / 8)
  {
    hide FromDigits, Pow2, Pow256;
    var spare, n := 5 * |ds| % 8, 5 * |ds| / 8;
    DigitsBelow(ds);
    Shift(FromDigits(ds), spare);
    Pow2Sum(8 * n, spare);
    Pow256IsPow2(n);
    ShiftOrder(FromDigits(ds) / Pow2(spare), Pow2(8 * n), spare);
  }

  lemma {:induction false} DigitsBelow(ds: seq<digit>)
    ensures FromDigits(ds) < Pow2(5 * |ds|)
  {
    if ds != [] {
      DigitsBelow(ds[..|ds| - 1]);
      MoreBits(5 * (|ds| - 1));
    }
  }
}
