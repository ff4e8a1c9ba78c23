// Byte strings and big-endian integers.

module Bytes {
  import opened Foundations

  type byte = x: nat | x < 256
  type bytes = seq<byte>

  function Pow256(k: nat): nat
    ensures Pow256(k) > 0
  {
    if k == 0 then 1 else 256 * Pow256(k - 1)
  }

  /** The low `width` bytes of n, most significant first. */
  function BigEndian(n: nat, width: nat): (b: bytes)
    ensures |b| == width
  {
    if width == 0 then [] else BigEndian(n / 256, width - 1) + [n % 256]
  }

  function FromBigEndian(b: bytes): nat {
    if b == [] then 0 else 256 * FromBigEndian(b[..|b| - 1]) + b[|b| - 1]
  }

  function Zeros(n: nat): (b: bytes)
    ensures |b| == n
  {
    seq(n, i => 0)
  }

  /** Reading back what was written loses only what does not fit. */
  lemma {:induction false} BigEndianRoundTrip(n: nat, width: nat)
    ensures FromBigEndian(BigEndian(n, width)) == n % Pow256(width)
  {
    if width > 0 {
      BigEndianRoundTrip(n / 256, width - 1);
      assert BigEndian(n, width)[..width - 1] == BigEndian(n / 256, width - 1);
      DigitSplit(n, Pow256(width - 1));
    }
  }

  lemma DigitSplit(n: nat, m: nat)
    requires m > 0
    ensures n % (256 * m) == 256 * (n / 256 % m) + n % 256
  {
    var q := n / 256 / m;
    var r := 256 * (n / 256 % m) + n % 256;
    assert n / 256 == q * m + n / 256 % m;
    assert n == q * (256 * m) + r;
    assert 0 <= r < 256 * m;
    ModUnique(n, 256 * m, q, r);
  }

  lemma ModUnique(n: nat, d: nat, q: nat, r: nat)
    requires d > 0 && n == q * d + r && r < d
    ensures n % d == r
  {
    QuotientUnique(n, d, q);
  }

  lemma {:induction false} FromBigEndianConcat(a: bytes, b: bytes)
    ensures FromBigEndian(a + b) == FromBigEndian(a) * Pow256(|b|) + FromBigEndian(b)
  {
    if b == [] {
      assert a + b == a;
    } else {
      var init := b[..|b| - 1];
      FromBigEndianConcat(a, init);
      assert (a + b)[..|a + b| - 1] == a + init;
      assert FromBigEndian(a) * Pow256(|b|) == 256 * (FromBigEndian(a) * Pow256(|init|));
    }
  }

  lemma {:induction false} ZerosReadZero(n: nat)
    ensures FromBigEndian(Zeros(n)) == 0
  {
    if n > 0 {
      ZerosReadZero(n - 1);
      assert Zeros(n)[..n - 1] == Zeros(n - 1);
    }
  }

  /** Dropping leading bytes of a written integer keeps its low bytes. */
  lemma {:induction false} BigEndianDrop(n: nat, width: nat, keep: nat)
    requires keep <= width
    ensures BigEndian(n, width)[width - keep..] == BigEndian(n, keep)
  {
    if keep > 0 {
      BigEndianDrop(n / 256, width - 1, keep - 1);
      assert BigEndian(n, width)[width - keep..]
          == BigEndian(n / 256, width - 1)[(width - 1) - (keep - 1)..] + [n % 256];
    }
  }
}
