/** Checked integer power: the shortcuts taken before multiplying never change what the result box accepts. */
module Integers {
  const INT_MIN := -0x8000_0000_0000_0000
  const INT_MAX := 0x7fff_ffff_ffff_ffff
  const UINT_MAX := 0xffff_ffff_ffff_ffff

  datatype Checked = Exact(value: int) | RangeError

  function Power(value: int, exponent: nat): int {
    if exponent == 0 then 1 else value * Power(value, exponent - 1)
  }

  /** What a box accepts: exact integers of its own range. */
  function Payload(value: int, min: int, max: int): Checked {
    if value < min || value > max then RangeError else Exact(value)
  }

  function CheckedPower(value: int, exponent: int): Checked {
    if exponent < 0 then RangeError
    else if exponent == 0 then Exact(1)
    else if value == 0 || value == 1 then Exact(value)
    else if value == -1 then Exact(if exponent % 2 == 0 then 1 else -1)
    else if exponent >= 64 then RangeError
    else Exact(Power(value, exponent))
  }

  function Boxed(raw: Checked, min: int, max: int): Checked {
    if raw.RangeError? then raw else Payload(raw.value, min, max)
  }

  function Abs(value: int): nat { if value < 0 then -value else value }

  lemma {:induction false} UnitPowers(exponent: nat)
    ensures Power(1, exponent) == 1
    ensures exponent > 0 ==> Power(0, exponent) == 0
    ensures Power(-1, exponent) == if exponent % 2 == 0 then 1 else -1
  {
    if exponent > 0 { UnitPowers(exponent - 1); }
  }

  lemma {:induction false} GrowsByDoubling(value: int, exponent: nat)
    requires value <= -2 || value >= 2
    ensures Abs(Power(value, exponent)) >= Power(2, exponent) > 0
  {
    if exponent > 0 {
      GrowsByDoubling(value, exponent - 1);
      Doubles(value, Power(value, exponent - 1));
    }
  }

  lemma Doubles(value: int, p: int)
    requires value <= -2 || value >= 2
    ensures Abs(value * p) >= 2 * Abs(p)
  {
    if p >= 0 {
      if value >= 2 { assert value * p >= 2 * p; } else { assert -value * p >= 2 * p; }
    } else {
      if value >= 2 { assert value * -p >= 2 * -p; } else { assert -value * -p >= 2 * -p; }
    }
  }

  lemma {:induction false} PowersOfTwoGrow(small: nat, large: nat)
    requires small <= large
    ensures 0 < Power(2, small) <= Power(2, large)
    decreases large
  {
    if small < large { PowersOfTwoGrow(small, large - 1); } else if small > 0 { PowersOfTwoGrow(small - 1, small - 1); }
  }

  lemma {:induction false} PowersMultiply(a: nat, b: nat)
    ensures Power(2, a + b) == Power(2, a) * Power(2, b)
    decreases b
  {
    if b > 0 {
      PowersMultiply(a, b - 1);
      var p, q := Power(2, a), Power(2, b - 1);
      assert p * (2 * q) == 2 * (p * q);
    }
  }

  lemma WordSize()
    ensures Power(2, 64) == UINT_MAX + 1
  {
    assert Power(2, 8) == 256;
    PowersMultiply(8, 8);
    PowersMultiply(16, 16);
    PowersMultiply(32, 32);
  }

  /** For both integer types, and every exponent, the boxed power is the exact one or a range error. */
  lemma PowerIsExact(value: int, exponent: int, min: int, max: int)
    requires (min == INT_MIN && max == INT_MAX) || (min == 0 && max == UINT_MAX)
    ensures Boxed(CheckedPower(value, exponent), min, max) ==
            if exponent >= 0 && min <= Power(value, exponent) <= max then Exact(Power(value, exponent)) else RangeError
  {
    if exponent >= 0 {
      UnitPowers(exponent);
      if exponent >= 64 && !(-1 <= value <= 1) {
        GrowsByDoubling(value, exponent);
        PowersOfTwoGrow(64, exponent);
        WordSize();
      }
    }
  }
}
