/** Shifts and bitwise or on naturals. */
module Bits {
  function Or(a: nat, b: nat): nat {
    if a == 0 then b else 2 * Or(a / 2, b / 2) + if a % 2 == 1 || b % 2 == 1 then 1 else 0
  }

  function ShiftLeft(a: nat, k: nat): nat {
    if k == 0 then a else 2 * ShiftLeft(a, k - 1)
  }

  /** Below the low bit of the other, a bitwise or is a sum. */
  lemma {:induction false} OrIsSum(a: nat, k: nat, b: nat)
    requires b < ShiftLeft(1, k)
    ensures Or(ShiftLeft(a, k), b) == ShiftLeft(a, k) + b
  {
    if k == 0 {
      OrZero(a);
    } else {
      OrIsSum(a, k - 1, b / 2);
    }
  }

  lemma {:induction false} OrZero(a: nat)
    ensures Or(a, 0) == a
  {
    if a != 0 {
      OrZero(a / 2);
    }
  }

  lemma {:induction false} ShiftIsTimes(a: nat, k: nat)
    ensures ShiftLeft(a, k) == a * ShiftLeft(1, k)
  {
    if k > 0 {
      ShiftIsTimes(a, k - 1);
    }
  }

  lemma {:induction false} ShiftTwice(a: nat, j: nat, k: nat)
    ensures ShiftLeft(ShiftLeft(a, j), k) == ShiftLeft(a, j + k)
  {
    if k > 0 {
      ShiftTwice(a, j, k - 1);
    }
  }

  lemma {:induction false} OrOfShifts(a: nat, b: nat, k: nat)
    ensures Or(ShiftLeft(a, k), ShiftLeft(b, k)) == ShiftLeft(Or(a, b), k)
  {
    if k > 0 {
      OrOfShifts(a, b, k - 1);
    }
  }

  /** a << 8 | b */
  lemma Join8(a: nat, b: nat)
    requires b < 0x100
    ensures Or(ShiftLeft(a, 8), b) == 0x100 * a + b
  {
    assert ShiftLeft(1, 8) == 0x100;
    OrIsSum(a, 8, b);
    ShiftIsTimes(a, 8);
  }

  /** a << 16 | b */
  lemma Join16(a: nat, b: nat)
    requires b < 0x1_0000
    ensures Or(ShiftLeft(a, 16), b) == 0x1_0000 * a + b
  {
    assert ShiftLeft(1, 8) == 0x100;
    ShiftTwice(1, 8, 8);
    ShiftIsTimes(0x100, 8);
    OrIsSum(a, 16, b);
    ShiftIsTimes(a, 16);
  }

  /** a << 32 | b << 16 | c */
  lemma Join32(a: nat, b: nat, c: nat)
    requires c < 0x1_0000
    ensures Or(Or(ShiftLeft(a, 32), ShiftLeft(b, 16)), c) == 0x1_0000 * Or(ShiftLeft(a, 16), b) + c
  {
    ShiftTwice(a, 16, 16);
    OrOfShifts(ShiftLeft(a, 16), b, 16);
    Join16(Or(ShiftLeft(a, 16), b), c);
  }
}
