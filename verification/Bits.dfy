/** Bitwise operations on unsigned numbers. A left shift is a multiplication and
    a right shift a division by a power of two; this says when `|` is addition. */
module Bits {

  /** `x ^ y` and `x | y`, bit by bit from the lowest. */
  function Xor(x: nat, y: nat): nat {
    if x == 0 && y == 0 then 0 else (if x % 2 == y % 2 then 0 else 1) + 2 * Xor(x / 2, y / 2)
  }

  function Or(x: nat, y: nat): nat {
    if x == 0 && y == 0 then 0 else (if x % 2 == 0 && y % 2 == 0 then 0 else 1) + 2 * Or(x / 2, y / 2)
  }

  lemma {:induction false} XorZero(x: nat, y: nat)
    ensures Xor(x, y) == 0 <==> x == y
  {
    if x > 0 || y > 0 {
      XorZero(x / 2, y / 2);
      assert x == x / 2 * 2 + x % 2 && y == y / 2 * 2 + y % 2;
    }
  }

  lemma {:induction false} OrZero(x: nat, y: nat)
    ensures Or(x, y) == 0 <==> x == 0 && y == 0
  {
    if x > 0 || y > 0 { OrZero(x / 2, y / 2); }
  }

  function Pow2(k: nat): nat {
    if k == 0 then 1 else 2 * Pow2(k - 1)
  }

  lemma {:induction false} OrNothing(x: nat)
    ensures Or(x, 0) == x
  {
    if x > 0 { OrNothing(x / 2); }
  }

  /** Fields that do not overlap are put together by addition. */
  lemma {:induction false} OrAdds(high: nat, low: nat, k: nat)
    requires low < Pow2(k)
    ensures Or(high * Pow2(k), low) == high * Pow2(k) + low
  {
    if k == 0 {
      OrNothing(high);
    } else {
      OrAdds(high, low / 2, k - 1);
      Doubled(high, Pow2(k - 1));
      OrDoubled(high * Pow2(k - 1), low);
    }
  }

  lemma Doubled(high: nat, p: nat)
    ensures high * (2 * p) == 2 * (high * p)
  {
  }

  lemma OrDoubled(x: nat, low: nat)
    ensures Or(2 * x, low) == low % 2 + 2 * Or(x, low / 2)
  {
    assert 2 * x / 2 == x && 2 * x % 2 == 0;
    if x == 0 && low == 0 { assert Or(0, 0) == 0; }
  }

  lemma Powers()
    ensures Pow2(2) == 4 && Pow2(4) == 16 && Pow2(6) == 64 && Pow2(8) == 256 && Pow2(16) == 65536
  {
    assert Pow2(10) == 1024;
  }
}
