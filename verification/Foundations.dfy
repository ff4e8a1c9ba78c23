// What every other module shares: option values, the machine's integer
// ranges, and the two roundings of a quotient with the facts about them.

module Foundations {

  datatype Option<+T> = None | Some(value: T)
  {
    function Or(other: T): T {
      if Some? then value else other
    }
  }

  const U16_MAX: nat := 0xFFFF
  const U64_MAX: nat := 0xFFFF_FFFF_FFFF_FFFF
  const U128_MAX: nat := 0xFFFF_FFFF_FFFF_FFFF_FFFF_FFFF_FFFF_FFFF
  const I64_MAX: nat := 0x7FFF_FFFF_FFFF_FFFF
  const I64_MIN: int := -0x8000_0000_0000_0000

  type u128 = x: nat | x <= U128_MAX
  type u64 = x: nat | x <= U64_MAX

  function Min(a: int, b: int): int {
    if a <= b then a else b
  }

  function Max(a: int, b: int): int {
    if a >= b then a else b
  }

  /** `saturating_add` on u128. */
  function SaturatingAdd(a: nat, b: nat): u128 {
    Min(a + b, U128_MAX)
  }

  /** `saturating_sub`, for any unsigned width. */
  function SaturatingSub(a: nat, b: nat): nat {
    if a >= b then a - b else 0
  }

  /** A decimal's `to_u128_floor` and `to_u128_ceil` give nothing outside the u128 range. */
  function ToU128(x: nat): Option<u128> {
    if x <= U128_MAX then Some(x) else None
  }

  function CeilDiv(a: nat, b: nat): nat
    requires b > 0
  {
    (a + b - 1) / b
  }

  /** The quotient is characterised by its bounds. */
  lemma QuotientUnique(a: int, b: int, q: int)
    requires b > 0
    requires q * b <= a < (q + 1) * b
    ensures a / b == q
  {
    var p := a / b;
    assert p * b <= a < p * b + b;
    assert p >= q by {
      if p + 1 <= q {
        BothTimes(p + 1, q, b);
      }
    }
    assert p <= q by {
      if q + 1 <= p {
        BothTimes(q + 1, p, b);
      }
    }
  }

  /** The two sides of a comparison may be scaled together. */
  lemma Scaled(x: int, y: int, m: int)
    requires m > 0
    ensures x <= y <==> x * m <= y * m
    ensures x < y <==> x * m < y * m
  {
    if x <= y {
      BothTimes(x, y, m);
    }
    if x < y {
      BothTimes(x + 1, y, m);
    }
    if y < x {
      BothTimes(y + 1, x, m);
    }
  }

  lemma Regroup(a: int, b: int, c: int)
    ensures a * b * c == a * (b * c) == b * (a * c) == (a * c) * b
  {
  }

  lemma BothTimes(x: int, y: int, b: int)
    requires x <= y && b > 0
    ensures x * b <= y * b
  {
  }

  /** Rounding down is the largest integer below a quotient. */
  lemma FloorIsGreatestBelow(a: nat, b: nat, q: nat)
    requires b > 0
    ensures q <= a / b <==> q * b <= a
  {
    var p := a / b;
    assert p * b <= a < p * b + b;
    if q <= p {
      assert q * b <= p * b;
    } else {
      assert (p + 1) * b <= q * b;
    }
  }

  /** Rounding up is the smallest integer above a quotient. */
  lemma CeilIsLeastAbove(a: nat, b: nat, q: nat)
    requires b > 0
    ensures CeilDiv(a, b) <= q <==> a <= q * b
  {
    FloorIsGreatestBelow(a + b - 1, b, q + 1);
    assert (q + 1) * b == q * b + b;
  }
}
