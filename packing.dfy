/** Packed words: the consumers build result words as `(f & (2^n - 1)) << k` terms
  * added together, and build masks one `1 << n` bit at a time. This module connects
  * the bit-level operators of `Bits` to arithmetic, so that a packed word can be
  * read as a sum of fields and each field recovered by division and remainder. */
module Packing {

  import opened Bits

  /** The powers of two the consumers' shifts and masks use. */
  lemma Pow2Values()
    ensures Pow2(0) == 1 && Pow2(1) == 2 && Pow2(2) == 4 && Pow2(3) == 8
    ensures Pow2(4) == 0x10 && Pow2(5) == 0x20 && Pow2(6) == 0x40 && Pow2(7) == 0x80
    ensures Pow2(8) == 0x100 && Pow2(9) == 0x200 && Pow2(10) == 0x400 && Pow2(11) == 0x800
    ensures Pow2(12) == 0x1000 && Pow2(13) == 0x2000 && Pow2(14) == 0x4000 && Pow2(15) == 0x8000
    ensures Pow2(16) == 0x1_0000 && Pow2(17) == 0x2_0000 && Pow2(18) == 0x4_0000 && Pow2(19) == 0x8_0000
    ensures Pow2(20) == 0x10_0000 && Pow2(21) == 0x20_0000 && Pow2(22) == 0x40_0000 && Pow2(23) == 0x80_0000
    ensures Pow2(24) == 0x100_0000 && Pow2(25) == 0x200_0000 && Pow2(26) == 0x400_0000 && Pow2(27) == 0x800_0000
    ensures Pow2(28) == 0x1000_0000 && Pow2(29) == 0x2000_0000 && Pow2(30) == 0x4000_0000 && Pow2(31) == 0x8000_0000
    ensures Pow2(32) == WORD
  {
    Pow2Step(0); Pow2Step(4); Pow2Step(8); Pow2Step(12);
    Pow2Step(16); Pow2Step(20); Pow2Step(24); Pow2Step(28);
    assert Pow2(1) == 2;
    assert Pow2(2) == 4;
    assert Pow2(3) == 8;
    assert Pow2(5) == 2 * Pow2(4);
    assert Pow2(6) == 2 * Pow2(5);
    assert Pow2(7) == 2 * Pow2(6);
    assert Pow2(9) == 2 * Pow2(8);
    assert Pow2(10) == 2 * Pow2(9);
    assert Pow2(11) == 2 * Pow2(10);
    assert Pow2(13) == 2 * Pow2(12);
    assert Pow2(14) == 2 * Pow2(13);
    assert Pow2(15) == 2 * Pow2(14);
    assert Pow2(17) == 2 * Pow2(16);
    assert Pow2(18) == 2 * Pow2(17);
    assert Pow2(19) == 2 * Pow2(18);
    assert Pow2(21) == 2 * Pow2(20);
    assert Pow2(22) == 2 * Pow2(21);
    assert Pow2(23) == 2 * Pow2(22);
    assert Pow2(25) == 2 * Pow2(24);
    assert Pow2(26) == 2 * Pow2(25);
    assert Pow2(27) == 2 * Pow2(26);
    assert Pow2(29) == 2 * Pow2(28);
    assert Pow2(30) == 2 * Pow2(29);
    assert Pow2(31) == 2 * Pow2(30);
    assert Pow2(32) == 2 * Pow2(31);
  }

  /** Adding to a 32-bit remainder and wrapping again is adding and wrapping once. */
  lemma WrapAdd(x: nat, s: nat)
    ensures (x % WORD + s) % WORD == (x + s) % WORD
  {
    var q, r := x / WORD, x % WORD;
    var q2, r2 := (r + s) / WORD, (r + s) % WORD;
    assert x + s == r2 + WORD * (q + q2);
    DivModUnique(x + s, WORD, r2, q + q2);
  }

  /** Quotient and remainder are determined by any decomposition `x == a + p * h`
    * with `a < p`. */
  lemma DivModUnique(x: nat, p: nat, a: nat, h: nat)
    requires 0 < p && a < p && x == a + p * h
    ensures x % p == a && x / p == h
  {
    var q, r := x / p, x % p;
    assert x == r + p * q;
    MulGap(p, q, h);
    MulGap(p, h, q);
  }

  /** A larger factor adds at least one more `p`. */
  lemma MulGap(p: nat, q: nat, h: nat)
    ensures q < h ==> p * q + p <= p * h
  {
    if q < h {
      var d: nat := h - q - 1;
      assert p * h == p * q + p + p * d;
    }
  }

  lemma {:induction false} Pow2Add(k: nat, n: nat)
    ensures Pow2(k + n) == Pow2(k) * Pow2(n)
    decreases k
  {
    if k > 0 {
      Pow2Add(k - 1, n);
      assert Pow2(k + n) == 2 * Pow2(k - 1 + n);
      assert Pow2(k) * Pow2(n) == 2 * (Pow2(k - 1) * Pow2(n));
    }
  }

  /** `x & (2^n - 1)` is the remainder of `x` by `2^n`, and `x >> n` the quotient. */
  lemma LowBits(x: nat, n: nat)
    ensures And(x, Pow2(n) - 1) == x % Pow2(n)
    ensures Shr(x, n) == x / Pow2(n)
  {
    LowHigh(x, n);
    DivModUnique(x, Pow2(n), And(x, Pow2(n) - 1), Shr(x, n));
  }

  /** A number whose lowest n bits are clear is a multiple of 2^n. */
  lemma LowClear(x: nat, n: nat)
    requires forall i :: 0 <= i < n ==> !Bit(x, i)
    ensures x % Pow2(n) == 0
  {
    var low := And(x, Pow2(n) - 1);
    LowBits(x, n);
    forall i | 0 <= i < n
      ensures Bit(low, i) == Bit(0, i)
    {
      BitAnd(x, Pow2(n) - 1, i);
      BitZero(i);
    }
    Ext(low, 0, n);
  }

  lemma DoubleMod(y: nat)
    ensures Dbl(y % WORD) == (2 * y) % WORD
  {
    var q, r := y / WORD, y % WORD;
    assert y == r + WORD * q;
    if r < 0x8000_0000 {
      DivModUnique(2 * y, WORD, 2 * r, 2 * q);
    } else {
      DivModUnique(2 * y, WORD, 2 * r - WORD, 2 * q + 1);
    }
  }

  /** `x << k` on a `uint32_t` is `x * 2^k` modulo 2^32. */
  lemma {:induction false} ShlMod(x: Word, k: nat)
    ensures Shl(x, k) == (x * Pow2(k)) % WORD
    decreases k
  {
    if k == 0 {
      assert x * Pow2(0) == x;
    } else {
      ShlMod(x, k - 1);
      var y := x * Pow2(k - 1);
      DoubleMod(y);
      assert Pow2(k) == 2 * Pow2(k - 1);
      MulDouble(x, Pow2(k - 1));
    }
  }

  lemma MulDouble(x: nat, p: nat)
    ensures x * (2 * p) == 2 * (x * p)
  {
  }

  /** A shift that loses no bit multiplies. */
  lemma ShlFits(x: Word, k: nat)
    requires x * Pow2(k) < WORD
    ensures Shl(x, k) == x * Pow2(k)
  {
    ShlMod(x, k);
  }

  /** `(x >> k) & (2^n - 1)`, the n-bit field of `x` at bit k, is `x / 2^k % 2^n`. */
  lemma FieldBits(x: nat, k: nat, n: nat)
    ensures And(Shr(x, k), Pow2(n) - 1) == x / Pow2(k) % Pow2(n)
  {
    LowBits(x, k);
    LowBits(x / Pow2(k), n);
  }

  /** `x & ((2^n - 1) << k)` keeps the n-bit field at bit k in place. */
  lemma {:induction false} AndField(x: nat, k: nat, n: nat)
    ensures And(x, (Pow2(n) - 1) * Pow2(k)) == x / Pow2(k) % Pow2(n) * Pow2(k)
    decreases k
  {
    if k == 0 {
      LowBits(x, n);
    } else {
      var a, b, q := Pow2(n) - 1, Pow2(k - 1), Pow2(n);
      var p := Pow2(k);
      assert p == 2 * b;
      AndField(x / 2, k - 1, n);
      var f := x / 2 / b % q;
      AndDouble(x, a * b);
      DivDiv(x, b);
      AndFieldStep(x, a, b, f, And(x / 2, a * b));
    }
  }

  /** `x & 2m` is twice `(x / 2) & m`. */
  lemma AndDouble(x: nat, m: nat)
    ensures And(x, 2 * m) == 2 * And(x / 2, m)
  {
    if x != 0 && m != 0 {
      DivModUnique(2 * m, 2, 0, m);
      assert And(x, 2 * m) == 2 * And(x / 2, (2 * m) / 2) + 0;
    } else if m == 0 {
      assert And(x / 2, m) == 0;
    } else {
      assert x / 2 == 0 && And(x / 2, m) == 0;
    }
  }

  lemma AndFieldStep(x: nat, a: nat, b: nat, f: nat, h: nat)
    requires h == f * b
    ensures 2 * h == f * (2 * b) && a * (2 * b) == 2 * (a * b)
  {
  }

  lemma Mul2(a: nat, b: nat)
    ensures a * (2 * b) == 2 * (a * b)
  {
  }

  lemma DivDiv(x: nat, p: nat)
    requires p > 0
    ensures x / 2 / p == x / (2 * p)
  {
    var q, r := x / 2, x % 2;
    var q2, r2 := q / p, q % p;
    assert x == r + 2 * (r2 + p * q2);
    Mul2(p, q2);
    DivModUnique(x, 2 * p, r + 2 * r2, q2);
  }

  /** A field placed at bit k above `lo < 2^k` and below `hi` comes back out by
    * shifting down and cutting to n bits. */
  lemma FieldOf(lo: nat, f: nat, hi: nat, k: nat, n: nat)
    requires lo < Pow2(k) && f < Pow2(n)
    ensures (lo + f * Pow2(k) + hi * Pow2(k + n)) / Pow2(k) % Pow2(n) == f
    ensures (lo + f * Pow2(k) + hi * Pow2(k + n)) % Pow2(k) == lo
  {
    Pow2Add(k, n);
    var p, q := Pow2(k), Pow2(n);
    var x := lo + f * p + hi * (p * q);
    Distrib(p, q, f, hi);
    DivModUnique(x, p, lo, f + q * hi);
    DivModUnique(f + q * hi, q, f, hi);
  }

  lemma Distrib(p: nat, q: nat, f: nat, hi: nat)
    ensures f * p + hi * (p * q) == p * (f + q * hi)
  {
  }

  // ---------------------------------------------------------------------------
  // Masks built one bit at a time

  /** The number whose bit i is set exactly when `bs[i]` holds. */
  function MaskOf(bs: seq<bool>): nat
    decreases |bs|
  {
    if bs == [] then 0
    else MaskOf(bs[..|bs| - 1]) + (if bs[|bs| - 1] then Pow2(|bs| - 1) else 0)
  }

  /** No bit at or above `|bs|` is set. */
  lemma {:induction false} MaskOfBound(bs: seq<bool>)
    ensures MaskOf(bs) < Pow2(|bs|)
    decreases |bs|
  {
    if bs != [] {
      MaskOfBound(bs[..|bs| - 1]);
    }
  }

  /** Bit j of `MaskOf(bs)` is `bs[j]`, and no bit at or above `|bs|` is set. */
  lemma {:induction false} MaskOfBits(bs: seq<bool>)
    ensures MaskOf(bs) < Pow2(|bs|)
    ensures forall j: nat :: Bit(MaskOf(bs), j) <==> j < |bs| && bs[j]
    decreases |bs|
  {
    if bs == [] {
      forall j: nat
        ensures !Bit(0, j)
      {
        BitZero(j);
      }
    } else {
      var n := |bs| - 1;
      var front := bs[..n];
      MaskOfBits(front);
      var m := MaskOf(front);
      forall j: nat
        ensures Bit(MaskOf(bs), j) <==> j < |bs| && bs[j]
      {
        if bs[n] {
          AddPow2Bit(m, n, j);
        } else if j == n {
          BitHigh(m, n, j);
        }
      }
    }
  }

  /** Adding `2^n` to a number below `2^n` sets bit n and keeps the others. */
  lemma AddPow2Bit(m: nat, n: nat, j: nat)
    requires m < Pow2(n)
    ensures Bit(m + Pow2(n), j) <==> Bit(m, j) || j == n
  {
    BitHigh(m, n, n);
    AndPow2(m, n);
    AddDisjoint(m, Pow2(n));
    BitOrN(m, Pow2(n), j);
    AndPow2(Pow2(n), j);
    SinglePow2(n, j);
  }

  /** `2^n` has exactly bit n set. */
  lemma {:induction false} SinglePow2(n: nat, j: nat)
    ensures Bit(Pow2(n), j) <==> j == n
    decreases n
  {
    if n == 0 {
      if j > 0 {
        BitZero(j - 1);
      }
    } else if j > 0 {
      SinglePow2(n - 1, j - 1);
    }
  }

  /** `m |= 1 << n` with `m < 2^n`, as the mask loops do it: the same as adding `2^n`. */
  lemma OrBit(m: Word, n: nat)
    requires n < 32 && m < Pow2(n)
    ensures Pow2(n) < WORD && m + Pow2(n) < WORD
    ensures Or(m, Shl(1, n)) == m + Pow2(n)
  {
    Pow2Word();
    Pow2Mono(n + 1, 32);
    assert Pow2(n + 1) == 2 * Pow2(n);
    ShlFits(1, n);
    BitHigh(m, n, n);
    AndPow2(m, n);
    AddDisjoint(m, Pow2(n));
  }

  lemma {:induction false} Pow2Mono(a: nat, b: nat)
    requires a <= b
    ensures Pow2(a) <= Pow2(b)
    decreases b - a
  {
    if a < b {
      Pow2Mono(a, b - 1);
    }
  }

  /** `MaskOf` of the first `n + 1` flags, for a mask loop's step. */
  lemma MaskOfStep(bs: seq<bool>, n: nat)
    requires n < |bs|
    ensures MaskOf(bs[..n + 1]) == MaskOf(bs[..n]) + (if bs[n] then Pow2(n) else 0)
  {
    assert bs[..n + 1][..n] == bs[..n];
  }
}
