/** Bitwise operations on words of a given width, as numbers. */
module Bits {

  function Pow2(k: nat): (r: nat)
    ensures r > 0
  {
    if k == 0 then 1 else 2 * Pow2(k - 1)
  }

  /** The lowest `k` bits: what a word of `k` bits keeps of a number. */
  function Low(x: nat, k: nat): (r: nat)
    ensures r < Pow2(k) && r <= x
  {
    if k == 0 then 0 else x % 2 + 2 * Low(x / 2, k - 1)
  }

  /** The bitwise and of two words of `w` bits. */
  function And(a: nat, b: nat, w: nat): (r: nat)
    ensures r < Pow2(w)
  {
    if w == 0 then 0 else (if a % 2 == 1 && b % 2 == 1 then 1 else 0) + 2 * And(a / 2, b / 2, w - 1)
  }

  /** The bitwise complement of a word of `w` bits. */
  function Not(a: nat, w: nat): nat
    requires a < Pow2(w)
  {
    Pow2(w) - 1 - a
  }

  /** A multiple of `2^k`: the lowest `k` bits are clear. */
  ghost predicate Aligned(a: nat, k: nat) { Low(a, k) == 0 }

  lemma {:induction false} Pow2Grows(j: nat, k: nat)
    requires j <= k
    ensures Pow2(j) <= Pow2(k)
    decreases k
  {
    if j < k { Pow2Grows(j, k - 1); }
  }

  /** A word keeps all of a number that fits. */
  lemma {:induction false} LowOfSmall(x: nat, k: nat)
    requires x < Pow2(k)
    ensures Low(x, k) == x
    decreases k
  {
    if k > 0 { LowOfSmall(x / 2, k - 1); }
  }

  lemma {:induction false} LowCleared(x: nat, k: nat)
    ensures Aligned(x - Low(x, k), k)
    decreases k
  {
    if k > 0 {
      LowCleared(x / 2, k - 1);
      var half := x / 2 - Low(x / 2, k - 1);
      assert x - Low(x, k) == 2 * half;
      assert (2 * half) / 2 == half && (2 * half) % 2 == 0;
    }
  }

  lemma AndEven(x: nat, b: nat, w: nat)
    requires w > 0
    ensures And(x, 2 * b, w) == 2 * And(x / 2, b, w - 1)
  {
    assert (2 * b) % 2 == 0 && (2 * b) / 2 == b;
  }

  lemma AndOdd(x: nat, b: nat, w: nat)
    requires w > 0
    ensures And(x, 2 * b + 1, w) == x % 2 + 2 * And(x / 2, b, w - 1)
  {
    assert (2 * b + 1) % 2 == 1 && (2 * b + 1) / 2 == b;
  }

  lemma {:induction false} MaskKeeps(x: nat, k: nat, w: nat, mask: nat)
    requires k <= w && x < Pow2(w) && mask + Pow2(k) == Pow2(w)
    ensures And(x, mask, w) == x - Low(x, k)
    decreases w
  {
    if w > 0 && k == 0 {
      var half := Pow2(w - 1) - 1;
      assert mask == 2 * half + 1;
      MaskKeeps(x / 2, 0, w - 1, half);
      AndOdd(x, half, w);
    } else if w > 0 {
      var half := MaskHalf(k, w, mask);
      MaskKeeps(x / 2, k - 1, w - 1, half);
      AndEven(x, half, w);
    }
  }

  lemma MaskHalf(k: nat, w: nat, mask: nat) returns (half: nat)
    requires 0 < k <= w && mask + Pow2(k) == Pow2(w)
    ensures mask == 2 * half && half + Pow2(k - 1) == Pow2(w - 1)
  {
    half := Pow2(w - 1) - Pow2(k - 1);
  }

  /** Masking with the complement of `2^k - 1` clears the lowest `k` bits. */
  lemma MaskHigh(x: nat, k: nat, w: nat)
    requires k <= w && x < Pow2(w)
    ensures Pow2(k) - 1 < Pow2(w)
    ensures And(x, Not(Pow2(k) - 1, w), w) == x - Low(x, k)
  {
    Pow2Grows(k, w);
    MaskKeeps(x, k, w, Not(Pow2(k) - 1, w));
  }

  /** Masking with `2^k - 1` leaves the lowest `k` bits. */
  lemma {:induction false} MaskLow(x: nat, k: nat, w: nat, mask: nat)
    requires k <= w && mask + 1 == Pow2(k)
    ensures And(x, mask, w) == Low(x, k)
    decreases w
  {
    if k == 0 {
      MaskNone(x, w);
    } else {
      var half := Pow2(k - 1) - 1;
      assert mask == 2 * half + 1;
      MaskLow(x / 2, k - 1, w - 1, half);
      AndOdd(x, half, w);
    }
  }

  lemma {:induction false} MaskNone(x: nat, w: nat)
    ensures And(x, 0, w) == 0
    decreases w
  {
    if w > 0 { MaskNone(x / 2, w - 1); }
  }

  // ---------------------------------------------------------------- rounding up

  /** Rounding up by a mask, in words of `w` bits: add `align - 1`, clear the lowest bits. */
  function RoundUp(addr: nat, align: nat, w: nat): nat
    requires 0 < align <= Pow2(w)
  {
    And(Low(addr + align - 1, w), Not(align - 1, w), w)
  }

  lemma RoundUpIs(addr: nat, k: nat, w: nat, x: nat, r: nat)
    requires k <= w && x == addr + Pow2(k) - 1 < Pow2(w) && r == x - Low(x, k)
    ensures 0 < Pow2(k) <= Pow2(w) && RoundUp(addr, Pow2(k), w) == r
  {
    Pow2Grows(k, w);
    LowOfSmall(x, w);
    MaskHigh(x, k, w);
  }

  /** Without wrap-around, rounding up gives the least aligned address that is not below. */
  lemma RoundUpAligns(addr: nat, k: nat, w: nat) returns (r: nat)
    requires k <= w && addr + Pow2(k) - 1 < Pow2(w)
    ensures 0 < Pow2(k) <= Pow2(w) && r == RoundUp(addr, Pow2(k), w)
    ensures Aligned(r, k) && addr <= r < addr + Pow2(k)
    ensures forall a: nat :: addr <= a && Aligned(a, k) ==> r <= a
  {
    var x := addr + Pow2(k) - 1;
    r := x - Low(x, k);
    RoundUpIs(addr, k, w, x, r);
    LowCleared(x, k);
    forall a: nat | addr <= a && Aligned(a, k) ensures r <= a { ClearedIsLeast(addr, k, a); }
  }

  lemma {:induction false} ClearedIsLeast(addr: nat, k: nat, a: nat)
    requires addr <= a && Aligned(a, k)
    ensures var x := addr + Pow2(k) - 1; x - Low(x, k) <= a
    decreases k
  {
    if k > 0 {
      var half := (addr + 1) / 2;
      ClearedIsLeast(half, k - 1, a / 2);
      var x := addr + Pow2(k) - 1;
      assert x / 2 == half + Pow2(k - 1) - 1;
    }
  }

  // ---------------------------------------------------------------- bits and remainders

  lemma NotNegative(a: nat, m: nat)
    ensures a * m >= 0
  {
  }

  lemma MulStep(a: nat, b: nat, m: nat)
    ensures a < b ==> a * m + m <= b * m
    ensures a <= b ==> a * m <= b * m
  {
    if a < b {
      var d := b - a - 1;
      NotNegative(d, m);
      assert (a + 1 + d) * m == a * m + m + d * m;
    }
  }

  lemma QuotientOf(x: nat, m: nat)
    requires m > 0
    ensures x == (x / m) * m + x % m
  {
  }

  /** Quotient and remainder are unique. */
  lemma Remainder(x: nat, m: nat, q: nat, r: nat)
    requires m > 0 && r < m && x == q * m + r
    ensures x % m == r && x / m == q
  {
    QuotientOf(x, m);
    MulStep(q, x / m, m);
    MulStep(x / m, q, m);
  }

  /** The lowest `k` bits are the remainder by `2^k`. */
  lemma {:induction false} LowIsRemainder(x: nat, k: nat)
    ensures Low(x, k) == x % Pow2(k)
    decreases k
  {
    if k > 0 {
      LowIsRemainder(x / 2, k - 1);
      var m := Pow2(k - 1);
      var q, r := (x / 2) / m, (x / 2) % m;
      QuotientOf(x / 2, m);
      assert 2 * (q * m) == q * (2 * m);
      Remainder(x, 2 * m, q, 2 * r + x % 2);
    }
  }
}
