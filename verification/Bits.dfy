/** Bits of natural numbers. */
module Bits {

  /** Bitwise and. */
  function And(a: nat, b: nat): (r: nat)
    ensures r <= b
  {
    if a == 0 || b == 0 then 0 else 2 * And(a / 2, b / 2) + (a % 2) * (b % 2)
  }

  /** Bitwise or. */
  function Or(a: nat, b: nat): nat
    decreases a + b
  {
    if a == 0 then b else if b == 0 then a
    else 2 * Or(a / 2, b / 2) + (if a % 2 == 1 || b % 2 == 1 then 1 else 0)
  }

  /** All ones: 2^k - 1. */
  predicate IsMask(n: nat) { n == 0 || (n % 2 == 1 && IsMask(n / 2)) }

  lemma MaskDoubles(n: nat)
    requires IsMask(n)
    ensures IsMask(n * 2 + 1)
  {
    assert (n * 2 + 1) / 2 == n && (n * 2 + 1) % 2 == 1;
  }

  function Pow2(k: nat): (p: nat)
    ensures p > 0
  {
    if k == 0 then 1 else 2 * Pow2(k - 1)
  }

  lemma {:induction false} MaskIsPower(n: nat) returns (k: nat)
    requires IsMask(n)
    ensures n + 1 == Pow2(k)
  {
    if n == 0 {
      k := 0;
    } else {
      k := MaskIsPower(n / 2);
      k := k + 1;
    }
  }

  /** The mask of a table selects its slot as the remainder of the hash by the number of slots. */
  lemma {:induction false} SlotIsRemainder(hash: nat, max: nat)
    requires IsMask(max)
    ensures And(hash, max) == hash % (max + 1)
  {
    if hash != 0 && max != 0 {
      SlotIsRemainder(hash / 2, max / 2);
      HalfRemainder(hash, max / 2 + 1);
    }
  }

  lemma HalfRemainder(a: nat, b: nat)
    requires b > 0
    ensures a % (2 * b) == 2 * (a / 2 % b) + a % 2
  {
    var q, r := a / 2 / b, a / 2 % b;
    assert a == (2 * b) * q + (2 * r + a % 2);
    DivMod(a, 2 * b, q, 2 * r + a % 2);
  }

  lemma DivMod(a: nat, b: nat, q: nat, r: nat)
    requires b > 0 && a == b * q + r && r < b
    ensures a % b == r
  {
    Multiple(b, a / b - q);
    assert b * (a / b - q) == b * (a / b) - b * q;
  }

  lemma Multiple(b: int, d: int)
    requires b > 0
    ensures d >= 1 ==> b * d >= b
    ensures d <= -1 ==> b * d <= -b
  {
  }
}
