/** The presence-flag helpers `getBit` and `updateBit` on 8-bit flag bytes. */
module Bits {
  /** The k-th binary digit of x (digit 0 is the least significant). */
  function Digit(x: nat, k: nat): (d: nat)
  {
    if k == 0 then x % 2 else Digit(x / 2, k - 1)
  }

  /**
   * getBit: 1 when bit `pos` of `n` is set, else 0; that is, the pos-th
   * binary digit of n read as a number.
   */
  function GetBit(n: bv8, pos: nat): (b: int)
    requires pos < 8
    ensures b == Digit(n as int, pos)
  {
    DigitIsBinary(n as int, pos);
    assert (n & (1 << pos) != 0) <==> ((n >> pos) & 1 == 1);
    DigitIsBit(n, pos);
    if n & (1 << pos) == 0 then 0 else 1
  }

  /** A binary digit is 0 or 1. */
  lemma {:induction false} DigitIsBinary(x: nat, k: nat)
    ensures Digit(x, k) <= 1
  {
    if k > 0 {
      DigitIsBinary(x / 2, k - 1);
    }
  }

  /** Shifting right by k and masking the low bit reads the k-th binary digit. */
  lemma {:induction false} DigitIsBit(n: bv8, k: nat)
    requires k < 8
    ensures ((n >> k) & 1 == 1) <==> Digit(n as int, k) == 1
  {
    if k == 0 {
      assert (n & 1 == 1) <==> n as int % 2 == 1;
    } else {
      DigitIsBit(n >> 1, k - 1);
      assert n >> k == (n >> 1) >> (k - 1);
      assert (n >> 1) as int == n as int / 2;
    }
  }

  /**
   * updateBit: n with bit `pos` forced to `v`. That bit then reads back as v
   * and every other bit of n is left as it was.
   */
  function UpdateBit(n: bv8, pos: nat, v: bool): (r: bv8)
    requires pos < 8
    ensures GetBit(r, pos) == (if v then 1 else 0)
    ensures forall q :: 0 <= q < 8 && q != pos ==> GetBit(r, q) == GetBit(n, q)
  {
    var r := (n & !(1 << pos)) | ((if v then 1 else 0) << pos);
    forall q | 0 <= q < 8
      ensures GetBit(r, q) == if q == pos then (if v then 1 else 0) else GetBit(n, q)
    {
      UpdateOnlyTouches(n, pos, v, q);
    }
    r
  }

  /** Clearing and then setting bit `pos` changes that bit only. */
  lemma UpdateOnlyTouches(n: bv8, pos: nat, v: bool, q: nat)
    requires pos < 8 && q < 8
    ensures var r := (n & !(1 << pos)) | ((if v then 1 else 0) << pos);
      (r & (1 << q) != 0) <==> if q == pos then v else n & (1 << q) != 0
  {
  }
}
