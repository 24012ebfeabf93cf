/** The kernel's mask arithmetic on 32-bit words: IS_ALIGNED and ALIGN, and what they mean when
    the step is a power of two. */
module Masks {

  const WORD: nat := 0x1_0000_0000

  /** Bitwise and. */
  function And(x: nat, y: nat): nat {
    if x == 0 || y == 0 then 0 else (x % 2) * (y % 2) + 2 * And(x / 2, y / 2)
  }

  function Pow2(k: nat): (p: nat)
    ensures p > 0
  {
    if k == 0 then 1 else 2 * Pow2(k - 1)
  }

  ghost predicate IsPow2(a: nat) {
    exists k: nat :: a == Pow2(k)
  }

  /** IS_ALIGNED(x, a): no bit of x under the mask a - 1. */
  predicate IsAligned(x: nat, a: nat)
    requires a > 0
  {
    And(x, a - 1) == 0
  }

  /** ALIGN(x, a) on 32-bit words: (x + (a - 1)) & ~(a - 1), the sum wrapping around. */
  function Align(x: nat, a: nat): nat
    requires 0 < a <= WORD
  {
    And((x + (a - 1)) % WORD, WORD - a)
  }

  /** The least multiple of a that is at least x. */
  function Ceiling(x: nat, a: nat): (c: nat)
    requires a > 0
    ensures c % a == 0 && x <= c < x + a
  {
    CeilingFacts(x, a);
    (x + a - 1) / a * a
  }

  lemma CeilingFacts(x: nat, a: nat)
    requires a > 0
    ensures var c := (x + a - 1) / a * a; c % a == 0 && x <= c < x + a
  {
    var y := x + a - 1;
    assert y == y / a * a + y % a;
    MultipleMod(y / a, a);
  }

  lemma MultipleMod(q: nat, a: nat)
    requires a > 0
    ensures (q * a) % a == 0
  {
    DivModUnique(q * a, a, q, 0);
  }

  lemma MulMono(i: int, j: int, a: nat)
    ensures i <= j ==> i * a <= j * a
  {
    if i <= j { assert (j - i) * a >= 0; }
  }

  lemma DivModUnique(x: int, a: nat, q: int, r: nat)
    requires a > 0 && x == q * a + r && r < a
    ensures x / a == q && x % a == r
  {
    var d := q - x / a;
    assert x == x / a * a + x % a;
    assert d * a == x % a - r by {
      assert d * a == q * a - x / a * a;
    }
    MulMono(1, d, a);
    MulMono(d, -1, a);
  }

  /** Two multiples of a less than a apart are in order. */
  lemma MultiplesApart(m: nat, c: nat, a: nat)
    requires a > 0 && m % a == 0 && c % a == 0 && c < m + a
    ensures c <= m
  {
    var q, p := m / a, c / a;
    assert m == q * a && c == p * a;
    MulMono(q + 1, p, a);
    MulMono(p, q, a);
    assert (q + 1) * a == q * a + a;
  }

  /** Any multiple of a that is at least x is at least the ceiling. */
  lemma CeilingLeast(x: nat, a: nat, m: nat)
    requires a > 0 && m % a == 0 && x <= m
    ensures Ceiling(x, a) <= m
  {
    MultiplesApart(m, Ceiling(x, a), a);
  }

  lemma ModHalves(x: nat, m: nat)
    requires m > 0
    ensures x % (2 * m) == x % 2 + 2 * ((x / 2) % m)
  {
    var y := x / 2;
    assert y == y / m * m + y % m;
    assert x == 2 * y + x % 2;
    assert x == (y / m) * (2 * m) + (2 * (y % m) + x % 2) by {
      assert 2 * (y / m * m) == (y / m) * (2 * m);
    }
    DivModUnique(x, 2 * m, y / m, 2 * (y % m) + x % 2);
  }

  lemma AndOddMask(x: nat, y: nat)
    ensures And(x, 2 * y + 1) == x % 2 + 2 * And(x / 2, y)
  {
    assert (2 * y + 1) % 2 == 1 && (2 * y + 1) / 2 == y;
  }

  /** Masking with 2^k - 1 keeps the remainder. */
  lemma {:induction false} LowMask(x: nat, k: nat)
    ensures And(x, Pow2(k) - 1) == x % Pow2(k)
    decreases k
  {
    if k > 0 {
      var m := Pow2(k - 1);
      calc {
        And(x, Pow2(k) - 1);
        { assert Pow2(k) - 1 == 2 * (m - 1) + 1; }
        And(x, 2 * (m - 1) + 1);
        { AndOddMask(x, m - 1); }
        x % 2 + 2 * And(x / 2, m - 1);
        { LowMask(x / 2, k - 1); }
        x % 2 + 2 * ((x / 2) % m);
        { ModHalves(x, m); }
        x % (2 * m);
      }
    }
  }

  /** Masking a word of n bits with 2^n - 2^k takes the remainder off. */
  lemma {:induction false} HighMask(x: nat, n: nat, k: nat)
    requires k <= n && x < Pow2(n)
    ensures Pow2(k) <= Pow2(n) && And(x, Pow2(n) - Pow2(k)) == x - x % Pow2(k)
    decreases n
  {
    if k == 0 {
      LowMask(x, n);
      SmallMod(x, Pow2(n));
    } else {
      HighMask(x / 2, n - 1, k - 1);
      ModHalves(x, Pow2(k - 1));
    }
  }

  lemma SmallMod(x: nat, m: nat)
    requires x < m
    ensures x % m == x
  {
  }

  lemma {:induction false} Pow2Grows(i: nat, j: nat)
    ensures i < j ==> Pow2(i) < Pow2(j)
    decreases j
  {
    if i < j { Pow2Grows(i, j - 1); }
  }

  lemma WordIsPow2(k: nat)
    requires Pow2(k) <= WORD
    ensures WORD == Pow2(32) && k <= 32
  {
    assert Pow2(8) == 0x100;
    assert Pow2(16) == 0x1_0000;
    assert Pow2(24) == 0x100_0000;
    assert Pow2(32) == WORD;
    Pow2Grows(32, k);
  }

  /** IS_ALIGNED means divisible. */
  lemma AlignedIsDivisible(x: nat, a: nat)
    requires IsPow2(a)
    ensures IsAligned(x, a) <==> x % a == 0
  {
    var k: nat :| a == Pow2(k);
    LowMask(x, k);
  }

  lemma AlignByRemainder(x: nat, a: nat)
    requires x < WORD && IsPow2(a) && a <= WORD
    ensures WORD % a == 0
    ensures var y := (x + a - 1) % WORD; Align(x, a) == y - y % a
  {
    var k: nat :| a == Pow2(k);
    WordIsPow2(k);
    PowDividesWord(k, 32);
    HighMask((x + (a - 1)) % WORD, 32, k);
  }

  /** What is left of a sum past the last word is less than a step. */
  lemma WrappedRemainder(y: nat, a: nat)
    requires 0 < a <= WORD <= y < WORD + a
    ensures y % WORD == y - WORD && (y - WORD) % a == y - WORD
  {
    SmallMod(y - WORD, WORD);
    SmallMod(y - WORD, a);
    DivModUnique(y, WORD, 1, y - WORD);
  }

  /** ALIGN means round up to a multiple, but for the one multiple that is no longer a word. */
  lemma AlignIsCeiling(x: nat, a: nat)
    requires x < WORD && IsPow2(a) && a <= WORD
    ensures Align(x, a) == Ceiling(x, a) % WORD
    ensures Ceiling(x, a) <= WORD
  {
    CeilingIs(x, a);
    AlignByRemainder(x, a);
    CeilingLeast(x, a, WORD);
    WrapCeiling(x + a - 1, Ceiling(x, a), a);
  }

  lemma CeilingIs(x: nat, a: nat)
    requires a > 0
    ensures Ceiling(x, a) == (x + a - 1) - (x + a - 1) % a
  {
    var y := x + a - 1;
    assert y == y / a * a + y % a;
  }

  lemma WrapCeiling(y: nat, c: nat, a: nat)
    requires 0 < a <= WORD && WORD % a == 0 && y < WORD + a && c == y - y % a && c % a == 0 && c <= WORD
    ensures y % WORD - (y % WORD) % a == c % WORD
  {
    if y < WORD {
      SmallMod(y, WORD);
      SmallMod(c, WORD);
    } else {
      MultiplesApart(c, WORD, a);
      WrappedRemainder(y, a);
    }
  }

  lemma {:induction false} PowDividesWord(k: nat, n: nat)
    requires k <= n
    ensures Pow2(n) % Pow2(k) == 0
    decreases n
  {
    if k < n {
      PowDividesWord(k, n - 1);
      var m, q := Pow2(k), Pow2(n - 1) / Pow2(k);
      assert Pow2(n - 1) == q * m;
      assert Pow2(n) == (2 * q) * m;
      MultipleMod(2 * q, m);
    } else {
      MultipleMod(1, Pow2(k));
    }
  }
}
