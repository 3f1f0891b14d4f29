/** The masks and ors of C++'s uint64_t, on naturals.  A shift by k bits is a
    multiplication (modulo 2^64) or a division by 2^k. */
module Bits {

  function Pow2(k: nat): (p: nat)
    ensures p > 0
  {
    if k == 0 then 1 else 2 * Pow2(k - 1)
  }

  /** What is left in a uint64_t. */
  function Wrap(n: int): nat { n % 0x1_0000_0000_0000_0000 }

  function Or(a: nat, b: nat): nat {
    if a == 0 then b else if b == 0 then a
    else 2 * Or(a / 2, b / 2) + if a % 2 == 1 || b % 2 == 1 then 1 else 0
  }

  function And(a: nat, b: nat): nat {
    if a == 0 || b == 0 then 0
    else 2 * And(a / 2, b / 2) + if a % 2 == 1 && b % 2 == 1 then 1 else 0
  }

  lemma ModHalf(a: nat, p: nat)
    requires p > 0
    ensures a % (2 * p) == 2 * (a / 2 % p) + a % 2
  {
    var q, r := a / 2 / p, a / 2 % p;
    assert a / 2 == q * p + r;
    assert a == q * (2 * p) + (2 * r + a % 2);
    DivModUnique(a, 2 * p, q, 2 * r + a % 2);
  }

  lemma MulAtLeast(x: int, d: int)
    requires x >= 1 && d >= 0
    ensures x * d >= d
  {
    assert x * d == (x - 1) * d + d;
  }

  lemma DivModUnique(a: nat, d: nat, q: nat, r: nat)
    requires d > 0 && a == q * d + r && r < d
    ensures a / d == q && a % d == r
  {
    var q', r' := a / d, a % d;
    var k := q - q';
    assert k * d == q * d - q' * d == r' - r;
    if k >= 1 {
      MulAtLeast(k, d);
    } else if k <= -1 {
      MulAtLeast(-k, d);
    }
  }

  /** Masking with the k lowest bits set keeps the remainder modulo 2^k. */
  lemma {:induction false} AndMask(a: nat, k: nat)
    ensures And(a, Pow2(k) - 1) == a % Pow2(k)
  {
    if k > 0 {
      AndMask(a / 2, k - 1);
      AndStep(a, Pow2(k - 1), Pow2(k));
    }
  }

  lemma AndStep(a: nat, p: nat, d: nat)
    requires p > 0 && d == 2 * p && And(a / 2, p - 1) == a / 2 % p
    ensures And(a, d - 1) == a % d
  {
    if a > 0 {
      ModHalf(a, p);
      assert (d - 1) / 2 == p - 1 && (d - 1) % 2 == 1;
    }
  }

  lemma HalfMultiple(a: nat, p: nat)
    requires p > 0 && a % (2 * p) == 0
    ensures a % 2 == 0 && a / 2 % p == 0
  {
    ModHalf(a, p);
  }

  /** Or-ing a number below 2^k into a multiple of 2^k adds it. */
  lemma {:induction false} OrDisjoint(a: nat, b: nat, k: nat)
    requires a % Pow2(k) == 0 && b < Pow2(k)
    ensures Or(a, b) == a + b
  {
    if k > 0 && a > 0 && b > 0 {
      HalfMultiple(a, Pow2(k - 1));
      OrDisjoint(a / 2, b / 2, k - 1);
    }
  }

  /** Or-ing below a number shifted left by k bits. */
  lemma OrShifted(x: nat, p: nat, b: nat, k: nat)
    requires p == Pow2(k) && b < p
    ensures Or(x * p, b) == x * p + b
  {
    DivModUnique(x * p, p, x, 0);
    OrDisjoint(x * p, b, k);
  }

  lemma {:induction false} OrCommutes(a: nat, b: nat)
    ensures Or(a, b) == Or(b, a)
  {
    if a > 0 && b > 0 { OrCommutes(a / 2, b / 2); }
  }

  lemma {:induction false} PowAdd(j: nat, k: nat)
    ensures Pow2(j + k) == Pow2(j) * Pow2(k)
  {
    if j > 0 { PowAdd(j - 1, k); }
  }

  /** The powers the UUID layout uses. */
  lemma Powers()
    ensures Pow2(2) == 4 && Pow2(4) == 0x10 && Pow2(12) == 0x1000 && Pow2(14) == 0x4000
    ensures Pow2(16) == 0x1_0000 && Pow2(32) == 0x1_0000_0000 && Pow2(48) == 0x1_0000_0000_0000
    ensures Pow2(62) == 0x4000_0000_0000_0000
  {
    assert Pow2(16) == 0x1_0000;
    PowAdd(16, 16);
    PowAdd(16, 32);
    PowAdd(14, 48);
  }

  /** 2^2, 2^4, 2^12, 2^14, 2^16, 2^32, 2^48 or 2^62: the field widths of a UUID. */
  predicate IsFieldPower(p: nat) {
    || p == 4 || p == 0x10 || p == 0x1000 || p == 0x4000 || p == 0x1_0000 || p == 0x1_0000_0000
    || p == 0x1_0000_0000_0000 || p == 0x4000_0000_0000_0000
  }

  lemma FieldWidth(p: nat) returns (k: nat)
    requires IsFieldPower(p)
    ensures p == Pow2(k)
  {
    Powers();
    k := if p == 4 then 2 else if p == 0x10 then 4 else if p == 0x1000 then 12 else if p == 0x4000 then 14
         else if p == 0x1_0000 then 16 else if p == 0x1_0000_0000 then 32
         else if p == 0x1_0000_0000_0000 then 48 else 62;
  }

  lemma Mask(n: nat, p: nat)
    requires IsFieldPower(p)
    ensures And(n, p - 1) == n % p
  {
    var k := FieldWidth(p);
    AndMask(n, k);
  }

  lemma MaskBelow(n: nat, p: nat)
    requires IsFieldPower(p) && n < p
    ensures And(n, p - 1) == n
  {
    Mask(n, p);
    DivModUnique(n, p, 0, n);
  }

  lemma OrField(x: nat, p: nat, b: nat)
    requires IsFieldPower(p) && b < p
    ensures Or(x * p, b) == x * p + b
  {
    var k := FieldWidth(p);
    OrShifted(x, p, b, k);
  }
}
