/** Bitwise operations on unsigned words, written on their binary digits. */
module Bits {

  function Pow2(k: nat): (r: nat)
    ensures r > 0
  {
    if k == 0 then 1 else 2 * Pow2(k - 1)
  }

  ghost predicate IsPow2(n: nat) {
    exists k: nat :: Pow2(k) == n
  }

  /** normalize.h: the least power of two that is at least `s`. Up to 2^31 no
      doubling leaves the 32-bit words; NormalizeEnds covers the rest. */
  method Normalize(s: nat) returns (norm: nat)
    ensures IsPow2(norm) && s <= norm && (norm == 1 || norm < 2 * s)
  {
    norm := 1;
    ghost var k := 0;
    while norm < s
      invariant norm == Pow2(k) && (norm == 1 || norm < 2 * s)
    {
      norm := 2 * norm;
      k := k + 1;
    }
  }

  /** `norm` after k doublings of a 32-bit word. */
  function Doubled(k: nat): nat {
    if k == 0 then 1 else 2 * Doubled(k - 1) % WORD
  }

  lemma {:induction false} DoublingsWrap(k: nat)
    ensures Doubled(k) == if k < 32 then Pow2(k) else 0
  {
    if k == 0 {
    } else {
      DoublingsWrap(k - 1);
      OneDoubling(k);
    }
  }

  lemma OneDoubling(k: nat)
    requires k > 0
    ensures k < 32 ==> 2 * Pow2(k - 1) % WORD == Pow2(k)
    ensures k == 32 ==> 2 * Pow2(k - 1) % WORD == 0
  {
    WordSize();
    assert Pow2(k) == 2 * Pow2(k - 1);
    if k < 32 {
      Pow2Grows(k, 31);
      assert Pow2(32) == 2 * Pow2(31);
    }
  }

  /** On 32-bit words the loop of normalize ends if and only if its argument is
      at most 2^31: beyond that the doublings wrap to 0 first. */
  lemma NormalizeEnds(s: nat)
    requires s < WORD
    ensures (exists k: nat :: s <= Doubled(k)) <==> s <= WORD / 2
  {
    WordSize();
    DoublingsWrap(31);
    assert Pow2(32) == 2 * Pow2(31);
    forall k: nat ensures Doubled(k) <= WORD / 2 {
      DoublingsWrap(k);
      if k < 32 { Pow2Grows(k, 31); }
    }
  }

  /** Bit `k` of `w`. */
  function Bit(w: nat, k: nat): bool
    decreases k
  {
    if k == 0 then w % 2 == 1 else Bit(w / 2, k - 1)
  }

  function And(w: nat, m: nat): nat
    decreases w
  {
    if w == 0 || m == 0 then 0
    else 2 * And(w / 2, m / 2) + (if w % 2 == 1 && m % 2 == 1 then 1 else 0)
  }

  function Or(w: nat, m: nat): nat
    decreases w
  {
    if w == 0 then m
    else 2 * Or(w / 2, m / 2) + (if w % 2 == 1 || m % 2 == 1 then 1 else 0)
  }

  /** `w & ~m`. */
  function AndNot(w: nat, m: nat): nat
    decreases w
  {
    if w == 0 then 0
    else 2 * AndNot(w / 2, m / 2) + (if w % 2 == 1 && m % 2 == 0 then 1 else 0)
  }

  lemma {:induction false} BitOfZero(k: nat)
    ensures !Bit(0, k)
  {
    if k == 0 {
    } else {
      BitOfZero(k - 1);
    }
  }

  lemma {:induction false} BitOfOr(w: nat, m: nat, k: nat)
    ensures Bit(Or(w, m), k) <==> Bit(w, k) || Bit(m, k)
    decreases k
  {
    if w == 0 {
      BitOfZero(k);
    } else if k > 0 {
      BitOfOr(w / 2, m / 2, k - 1);
      assert Or(w, m) / 2 == Or(w / 2, m / 2);
    }
  }

  lemma {:induction false} BitOfAndNot(w: nat, m: nat, k: nat)
    ensures Bit(AndNot(w, m), k) <==> Bit(w, k) && !Bit(m, k)
    decreases k
  {
    if w == 0 {
      BitOfZero(k);
    } else if k > 0 {
      BitOfAndNot(w / 2, m / 2, k - 1);
      assert AndNot(w, m) / 2 == AndNot(w / 2, m / 2);
    }
  }

  /** A power of two has one bit. */
  lemma {:induction false} BitOfPow2(j: nat, k: nat)
    ensures Bit(Pow2(j), k) <==> j == k
    decreases k
  {
    if j > 0 {
      assert Pow2(j) / 2 == Pow2(j - 1) && Pow2(j) % 2 == 0;
      if k == 0 {
      } else {
        BitOfPow2(j - 1, k - 1);
      }
    } else if k > 0 {
      BitOfZero(k - 1);
    }
  }

  /** Masking with a power of two tests one bit. */
  lemma {:induction false} AndPow2(w: nat, k: nat)
    ensures And(w, Pow2(k)) != 0 <==> Bit(w, k)
    decreases k
  {
    if w == 0 {
      BitOfZero(k);
    } else if k > 0 {
      assert Pow2(k) / 2 == Pow2(k - 1) && Pow2(k) % 2 == 0;
      AndPow2(w / 2, k - 1);
    } else {
      assert And(w / 2, 0) == 0;
    }
  }

  ghost predicate Masks(x: nat, n: nat) {
    n > 0 && And(x, n - 1) == x % n
  }

  lemma MasksNext(x: nat, n: nat)
    requires Masks(x / 2, n) && x > 0
    ensures Masks(x, 2 * n)
  {
    HalvedAnd(x, n);
    HalvedRemainder(x, n);
  }

  lemma {:induction false} MasksPower(x: nat, k: nat)
    ensures Masks(x, Pow2(k))
    decreases k
  {
    if k > 0 && x > 0 {
      hide Masks;
      MasksPower(x / 2, k - 1);
      MasksNext(x, Pow2(k - 1));
    }
  }

  /** Masking with one less than a power of two takes the remainder. */
  lemma AndMask(x: nat, k: nat)
    ensures And(x, Pow2(k) - 1) == x % Pow2(k)
  {
    MasksPower(x, k);
  }

  lemma HalvedAnd(x: nat, n: nat)
    requires x > 0 && n > 0
    ensures And(x, 2 * n - 1) == 2 * And(x / 2, n - 1) + x % 2
  {
    assert (2 * n - 1) / 2 == n - 1 && (2 * n - 1) % 2 == 1;
  }

  lemma HalvedRemainder(x: nat, m: nat)
    requires m > 0
    ensures x % (2 * m) == 2 * ((x / 2) % m) + x % 2
  {
    var q, r := (x / 2) / m, (x / 2) % m;
    assert x / 2 == q * m + r;
    assert x == q * (2 * m) + (2 * r + x % 2);
    DivUnique(x, 2 * m, q, 2 * r + x % 2);
  }

  lemma AtLeastOnce(a: int, d: nat)
    requires a >= 1
    ensures a * d >= d
  {
    assert a * d == (a - 1) * d + d;
  }

  lemma Distribute(a: int, b: int, d: int)
    ensures (a - b) * d == a * d - b * d
  {}

  lemma DivUnique(x: nat, d: nat, q: nat, r: nat)
    requires d > 0 && r < d && x == q * d + r
    ensures x % d == r && x / d == q
  {
    var q', r' := x / d, x % d;
    assert q' * d + r' == x;
    Distribute(q, q', d);
    Distribute(q', q, d);
    if q > q' { AtLeastOnce(q - q', d); } else if q < q' { AtLeastOnce(q' - q, d); }
  }

  lemma {:induction false} PowerSum(a: nat, b: nat)
    ensures Pow2(a + b) == Pow2(a) * Pow2(b)
  {
    if a == 0 {
    } else {
      PowerSum(a - 1, b);
      assert Pow2(a) * Pow2(b) == 2 * (Pow2(a - 1) * Pow2(b));
    }
  }

  lemma {:induction false} Pow2Grows(j: nat, k: nat)
    requires j <= k
    ensures Pow2(j) <= Pow2(k)
  {
    if j >= k {
    } else {
      Pow2Grows(j, k - 1);
    }
  }

  /** One past the largest 32-bit unsigned word. */
  const WORD: nat := 0x1_0000_0000

  lemma WordSize()
    ensures Pow2(32) == WORD
  {
    assert Pow2(8) == 256;
    PowerSum(8, 8);
    PowerSum(16, 16);
  }
}
