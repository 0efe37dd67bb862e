/** The size a buffer grows to. */
module JsonGrow {
  import opened Bits

  function Shifted(x: nat, k: nat): nat { if k == 0 then x else Shifted(x / 2, k - 1) }

  /** The number of bits. */
  function Len(x: nat): nat { if x == 0 then 0 else 1 + Len(x / 2) }

  /** The leading `m` bits, or all if there are fewer, are ones. */
  predicate Lead(x: nat, m: nat) { if Len(x) <= m then IsMask(x) else Lead(x / 2, m) }

  /** `pow2gt`, for arguments from 1 to 2^30. */
  function Pow2gt(x: nat): nat
    requires x > 0
  {
    var a := x - 1;
    var b := Or(a, Shifted(a, 1));
    var c := Or(b, Shifted(b, 2));
    var d := Or(c, Shifted(c, 4));
    var e := Or(d, Shifted(d, 8));
    Or(e, Shifted(e, 16)) + 1
  }

  lemma {:induction false} LenShifted(x: nat, k: nat)
    ensures Len(Shifted(x, k)) == if Len(x) <= k then 0 else Len(x) - k
  {
    if k > 0 {
      LenShifted(x / 2, k - 1);
    }
  }

  lemma OrHalf(a: nat, b: nat)
    ensures Or(a, b) / 2 == Or(a / 2, b / 2)
    ensures Or(a, b) % 2 == if a % 2 == 1 || b % 2 == 1 then 1 else 0
  {
    if b == 0 {
      assert Or(a / 2, 0) == a / 2;
    }
  }

  lemma ShiftedHalf(x: nat, k: nat)
    ensures Shifted(x, k) / 2 == Shifted(x / 2, k)
  {
    if k > 0 {
      ShiftedHalf(x / 2, k - 1);
    }
  }

  lemma {:induction false} LenOr(a: nat, b: nat)
    requires Len(b) <= Len(a)
    ensures Len(Or(a, b)) == Len(a)
    decreases a
  {
    if a > 0 && b > 0 {
      LenOr(a / 2, b / 2);
    }
  }

  lemma {:induction false} OnesLead(x: nat, k: nat, m: nat)
    requires Lead(x, m) && Len(x) <= k + m
    ensures IsMask(Shifted(x, k))
    decreases k
  {
    if Len(x) <= m {
      OnesShifted(x, k);
    } else {
      OnesLead(x / 2, k - 1, m);
    }
  }

  lemma {:induction false} OnesShifted(x: nat, k: nat)
    requires IsMask(x)
    ensures IsMask(Shifted(x, k))
  {
    if k > 0 {
      OnesShifted(x / 2, k - 1);
    }
  }

  /** All the lower bits come from `b`, the others are ones already. */
  lemma {:induction false} OnesOr(a: nat, b: nat, k: nat)
    requires IsMask(Shifted(a, k)) && IsMask(b) && Len(b) >= k && Len(b) <= Len(a)
    ensures IsMask(Or(a, b))
    decreases a + b
  {
    if a > 0 && b > 0 {
      OrHalf(a, b);
      if k > 0 {
        OnesOr(a / 2, b / 2, k - 1);
      } else {
        OnesOr(a / 2, b / 2, 0);
      }
    }
  }

  /** Twice as many leading ones. */
  lemma {:induction false} LeadDoubles(x: nat, m: nat)
    requires Lead(x, m) && m > 0
    ensures Lead(Or(x, Shifted(x, m)), 2 * m) && Len(Or(x, Shifted(x, m))) == Len(x)
    decreases x
  {
    var b := Shifted(x, m);
    LenShifted(x, m);
    LenOr(x, b);
    if Len(x) > 2 * m {
      LeadDoubles(x / 2, m);
      OrHalf(x, b);
      ShiftedHalf(x, m);
    } else if Len(x) <= m {
      assert b == 0;
    } else {
      OnesLead(x, Len(x) - m, m);
      OnesLead(x, m, m);
      OnesOr(x, b, Len(x) - m);
    }
  }

  lemma {:induction false} OnesIsPower(x: nat)
    requires IsMask(x)
    ensures x + 1 == Pow2(Len(x))
  {
    if x > 0 {
      OnesIsPower(x / 2);
    }
  }

  lemma {:induction false} LenBounds(x: nat)
    ensures x < Pow2(Len(x)) && (x > 0 ==> Pow2(Len(x) - 1) <= x)
  {
    if x > 0 {
      LenBounds(x / 2);
    }
  }

  lemma {:induction false} LeadOne(x: nat)
    ensures Lead(x, 1)
  {
    if x > 1 {
      LeadOne(x / 2);
    }
  }

  lemma {:induction false} PowMonotone(i: nat, j: nat)
    ensures Pow2(i) < Pow2(j) <==> i < j
  {
    if i > 0 && j > 0 {
      PowMonotone(i - 1, j - 1);
    }
  }

  /** The shifts set all bits below the highest one. */
  lemma Smeared(a: nat)
    requires Len(a) <= 30
    ensures Pow2gt(a + 1) > 0 && IsMask(Pow2gt(a + 1) - 1) && Len(Pow2gt(a + 1) - 1) == Len(a)
  {
    hide Or, Shifted, Lead, Len, IsMask;
    LeadOne(a);
    LeadDoubles(a, 1);
    var b := Or(a, Shifted(a, 1));
    LeadDoubles(b, 2);
    var c := Or(b, Shifted(b, 2));
    LeadDoubles(c, 4);
    var d := Or(c, Shifted(c, 4));
    LeadDoubles(d, 8);
    var e := Or(d, Shifted(d, 8));
    LeadDoubles(e, 16);
    LeadAll(Or(e, Shifted(e, 16)));
  }

  /** It is the least power of two that is not below the argument. */
  lemma Pow2gtIsLeast(x: nat) returns (k: nat)
    requires 0 < x <= 0x4000_0000
    ensures Pow2gt(x) == Pow2(k) && x <= Pow2(k)
    ensures forall j: nat | x <= Pow2(j) :: k <= j
    ensures Pow2gt(x) <= 0x4000_0000
  {
    hide Pow2gt, Len, IsMask, Pow2;
    k := Len(x - 1);
    LenBounds(x - 1);
    AtMost30(x - 1);
    Smeared(x - 1);
    OnesIsPower(Pow2gt(x) - 1);
    forall j: nat | x <= Pow2(j) ensures k <= j {
      if k > 0 && x > 1 {
        PowMonotone(k - 1, j);
      }
      LenZero(x - 1);
    }
  }

  lemma LenZero(x: nat)
    ensures Len(x) == 0 <==> x == 0
  {
  }

  lemma LeadAll(x: nat)
    requires Lead(x, 32) && Len(x) <= 32
    ensures IsMask(x)
  {
  }

  lemma AtMost30(a: nat)
    requires a < 0x4000_0000
    ensures Len(a) <= 30 && Pow2(Len(a)) <= 0x4000_0000
  {
    assert Pow2(10) == 1024;
    Pow2Adds(10, 10);
    Pow2Adds(20, 10);
    LenBounds(a);
    if a > 0 {
      PowMonotone(Len(a) - 1, 30);
    }
    PowMonotone(30, Len(a));
  }

  lemma {:induction false} Pow2Adds(i: nat, j: nat)
    ensures Pow2(i + j) == Pow2(i) * Pow2(j)
  {
    if j > 0 {
      Pow2Adds(i, j - 1);
    }
  }
}
