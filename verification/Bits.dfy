// Bit arithmetic the engine relies on: the ALIGN macro and the ring mask,
// written on unsigned machine words and refined to integer arithmetic.
module Bits {

  const WORD: nat := 0x1_0000_0000_0000_0000

  function Pow2(k: nat): (p: nat)
    ensures p >= 1
  {
    if k == 0 then 1 else 2 * Pow2(k - 1)
  }

  // Bitwise conjunction of two unsigned numbers.
  function And(x: nat, y: nat): nat {
    if x == 0 || y == 0 then 0
    else 2 * And(x / 2, y / 2) + (if x % 2 == 1 && y % 2 == 1 then 1 else 0)
  }

  // Complement of a 64-bit word.
  function Complement(x: nat): (c: int)
    requires x < WORD
  {
    WORD - 1 - x
  }

  // ALIGN(size, alignment): both the addition and the complement are 64-bit.
  function AlignUp(x: nat, a: nat): nat
    requires 0 < a <= WORD
  {
    And((x + (a - 1)) % WORD, Complement(a - 1))
  }

  ghost predicate IsPow2(a: nat) {
    exists k: nat :: a == Pow2(k)
  }

  lemma MulAtLeast(d: nat, n: int)
    requires n >= 1
    ensures d * n >= d
  {
    assert d * n == d * (n - 1) + d;
    assert d * (n - 1) >= 0;
  }

  lemma FactorPositive(d: nat, n: int)
    requires d * n > 0
    ensures n >= 1
  {
  }

  lemma DivModUnique(x: int, d: nat, q: int, r: int)
    requires 0 <= r < d && x == d * q + r
    ensures x / d == q && x % d == r
  {
    var q' := x / d;
    assert x == d * q' + x % d;
    assert d * (q - q') == d * q - d * q';
    assert d * (q' - q) == d * q' - d * q;
    if q > q' { MulAtLeast(d, q - q'); }
    if q < q' { MulAtLeast(d, q' - q); }
  }

  // x rounded down to a multiple of d.
  lemma FloorMultiple(x: int, d: nat)
    requires d > 0
    ensures (x - x % d) % d == 0 && x - d < x - x % d <= x
  {
    var q := x / d;
    assert x == d * q + x % d;
    DivModUnique(x - x % d, d, q, 0);
  }

  lemma MultiplesApart(m: int, r: int, d: nat)
    requires d > 0 && m % d == 0 && r % d == 0 && m < r
    ensures m + d <= r
  {
    var i, j := r / d, m / d;
    assert r == d * i && m == d * j;
    assert d * (i - j) == d * i - d * j;
    FactorPositive(d, i - j);
    MulAtLeast(d, i - j);
  }

  lemma ModOfDouble(x: nat, p: nat)
    requires p > 0
    ensures x % (2 * p) == 2 * ((x / 2) % p) + x % 2
  {
    var y := x / 2;
    var q, r := y / p, y % p;
    assert x == 2 * y + x % 2 && y == p * q + r;
    assert (2 * p) * q == 2 * (p * q);
    DivModUnique(x, 2 * p, q, 2 * r + x % 2);
  }

  // The ring index `b & mask` with mask = size - 1 is b modulo the size.
  lemma {:induction false} AndMaskIsMod(x: nat, k: nat)
    ensures And(x, Pow2(k) - 1) == x % Pow2(k)
  {
    if k == 0 {
    } else {
      var p := Pow2(k - 1);
      var m := 2 * p - 1;
      AndMaskIsMod(x / 2, k - 1);
      ModOfDouble(x, p);
      assert m / 2 == p - 1 && m % 2 == 1;
      if x == 0 {
        assert x % (2 * p) == 0;
      }
    }
  }

  // Masking with m and with its complement split a word in two.
  lemma {:induction false} AndComplementSplits(w: nat, x: nat, m: nat)
    requires x < Pow2(w) && m < Pow2(w)
    ensures And(x, m) + And(x, Pow2(w) - 1 - m) == x
  {
    if w == 0 {
    } else {
      var c := Pow2(w) - 1 - m;
      assert c / 2 == Pow2(w - 1) - 1 - m / 2 && c % 2 == 1 - m % 2;
      AndComplementSplits(w - 1, x / 2, m / 2);
      AndHalves(x, m);
      AndHalves(x, c);
    }
  }

  lemma AndHalves(x: nat, y: nat)
    ensures And(x, y) == 2 * And(x / 2, y / 2) + (if x % 2 == 1 && y % 2 == 1 then 1 else 0)
  {
  }

  lemma {:induction false} Pow2Add(a: nat, b: nat)
    ensures Pow2(a + b) == Pow2(a) * Pow2(b)
  {
    if a == 0 {
    } else {
      Pow2Add(a - 1, b);
      assert 2 * (Pow2(a - 1) * Pow2(b)) == (2 * Pow2(a - 1)) * Pow2(b);
    }
  }

  lemma {:induction false} Pow2Monotone(a: nat, b: nat)
    requires a <= b
    ensures Pow2(a) <= Pow2(b)
  {
    if a == b {
    } else {
      Pow2Monotone(a, b - 1);
    }
  }

  lemma Pow2Values()
    ensures Pow2(4) == 16 && Pow2(6) == 64 && Pow2(12) == 4096 && Pow2(16) == 0x1_0000
    ensures Pow2(31) == 0x8000_0000 && Pow2(32) == 0x1_0000_0000 && Pow2(64) == WORD
  {
    assert Pow2(2) == 4;
    Pow2Add(2, 2); Pow2Add(2, 4); Pow2Add(6, 6); Pow2Add(4, 12);
    Pow2Add(16, 16); Pow2Add(32, 32);
    assert Pow2(32) == 2 * Pow2(31);
  }

  lemma WordHolds(a: nat, k: nat)
    requires a == Pow2(k) && k <= 64
    ensures a <= WORD == Pow2(64)
  {
    Pow2Values();
    Pow2Monotone(k, 64);
  }

  lemma MaskSplitsWord(y: nat, m: nat)
    requires y < WORD && m < WORD
    ensures And(y, m) + And(y, Complement(m)) == y
  {
    WordHolds(1, 0);
    AndComplementSplits(64, y, m);
  }

  // Clearing the low bits of a word rounds it down.
  lemma ClearLowBits(y: nat, a: nat, k: nat)
    requires y < WORD && a == Pow2(k) && k <= 64
    ensures a <= WORD && And(y, Complement(a - 1)) == y - y % a
  {
    WordHolds(a, k);
    AndMaskIsMod(y, k);
    MaskSplitsWord(y, a - 1);
  }

  lemma AlignUpRoundsDown(x: nat, a: nat, k: nat)
    requires a == Pow2(k) && k <= 64
    ensures a <= WORD
    ensures AlignUp(x, a) == (x + (a - 1)) % WORD - ((x + (a - 1)) % WORD) % a
  {
    ClearLowBits((x + (a - 1)) % WORD, a, k);
  }

  lemma RoundedWord(x: nat, a: nat, y: nat)
    requires 0 < a <= WORD && x < WORD && y == (x + (a - 1)) % WORD
    ensures x + (a - 1) < WORD ==> y == x + (a - 1)
    ensures x + (a - 1) >= WORD ==> y - y % a == 0
  {
    if x + (a - 1) >= WORD {
      DivModUnique(x + (a - 1), WORD, 1, x + (a - 1) - WORD);
      DivModUnique(y, a, 0, y);
    }
  }

  // For a power of two the macro rounds up to the least multiple not below x,
  // exactly when the 64-bit addition does not wrap.
  lemma AlignUpSpec(x: nat, a: nat, k: nat)
    requires x < WORD && a == Pow2(k) && k <= 64
    ensures a <= WORD
    ensures x + (a - 1) < WORD ==> x <= AlignUp(x, a) < x + a && AlignUp(x, a) % a == 0
    ensures x + (a - 1) >= WORD ==> AlignUp(x, a) == 0
  {
    AlignUpRoundsDown(x, a, k);
    var y := (x + (a - 1)) % WORD;
    RoundedWord(x, a, y);
    FloorMultiple(y, a);
  }

  lemma AlignUpIsLeast(x: nat, a: nat, k: nat, m: nat)
    requires x + (a - 1) < WORD && a == Pow2(k) && k <= 64
    requires m % a == 0 && m >= x
    ensures a <= WORD && AlignUp(x, a) <= m
  {
    AlignUpSpec(x, a, k);
    if m < AlignUp(x, a) {
      MultiplesApart(m, AlignUp(x, a), a);
    }
  }
}
