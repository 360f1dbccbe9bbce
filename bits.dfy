/** 32-bit unsigned words (C++ `uint32_t`) and the bit-level operators applied to them.
  * A word is a natural number below 2^32.  Every operator is defined bit by bit, by
  * recursion on halving, so that its properties follow from per-bit lemmas and
  * extensionality (`Ext`): two words with the same 32 bits are equal. */
module Bits {

  const WORD: nat := 0x1_0000_0000

  /** `uint32_t` */
  type Word = x: int | 0 <= x < WORD

  const FULL: Word := 0xFFFF_FFFF

  /** `uint8_t` */
  type Byte = x: int | 0 <= x < 0x100

  /** `uint16_t` */
  type U16 = x: int | 0 <= x < 0x1_0000

  function Pow2(n: nat): (p: nat)
    ensures p >= 1
    decreases n
  {
    if n == 0 then 1 else 2 * Pow2(n - 1)
  }

  /** Bit `i` of `x` is set. */
  predicate Bit(x: nat, i: nat)
    decreases i
  {
    if i == 0 then x % 2 == 1 else Bit(x / 2, i - 1)
  }

  /** `a & b` */
  function And(a: nat, b: nat): (r: nat)
    ensures r <= a && r <= b
    decreases a
  {
    if a == 0 || b == 0 then 0
    else 2 * And(a / 2, b / 2) + (if a % 2 == 1 && b % 2 == 1 then 1 else 0)
  }

  /** `a | b` on natural numbers. */
  function OrN(a: nat, b: nat): nat
    decreases a
  {
    if a == 0 then b
    else if b == 0 then a
    else 2 * OrN(a / 2, b / 2) + (if a % 2 == 1 || b % 2 == 1 then 1 else 0)
  }

  /** `a | b` on words. */
  function Or(a: Word, b: Word): (r: Word)
    ensures r == OrN(a, b)
  {
    Pow2Word();
    OrBound(a, b, 32);
    OrN(a, b)
  }

  /** `~x` */
  function Not(x: Word): Word
  {
    FULL - x
  }

  /** `x >> k` */
  function Shr(x: nat, k: nat): (r: nat)
    ensures r <= x
    decreases k
  {
    if k == 0 then x else Shr(x / 2, k - 1)
  }

  /** `y << 1` on a `uint32_t`: bit 31 is lost. */
  function Dbl(y: Word): Word
  {
    if y < 0x8000_0000 then 2 * y else 2 * y - WORD
  }

  /** `x << k` on a `uint32_t`: bits moved past bit 31 are lost. */
  function Shl(x: Word, k: nat): Word
    decreases k
  {
    if k == 0 then x else Dbl(Shl(x, k - 1))
  }

  /** Number of trailing zero bits of a positive number. */
  function TzPos(m: nat): nat
    requires m > 0
    decreases m
  {
    if m % 2 == 1 then 0 else 1 + TzPos(m / 2)
  }

  /** Number of trailing zero bits of a word; 32 for the zero word. */
  function Tz(m: Word): (k: nat)
    ensures k <= 32
  {
    if m == 0 then 32 else Pow2Word(); TzPosBound(m, 32); TzPos(m)
  }

  /** The field under mask `m` of `d`, moved down to bit 0: `(d & m) >> ctz(m)`. */
  function Extract(d: nat, m: Word): nat
  {
    Shr(And(d, m), Tz(m))
  }

  /** `d` with the field under mask `m` replaced by `v`:
    * `((v << ctz(m)) & m) | (d & ~m)`. */
  function Insert(d: Word, v: Word, m: Word): Word
  {
    Or(And(Shl(v, Tz(m)), m), And(d, Not(m)))
  }

  // ---------------------------------------------------------------------------
  // Basic facts

  lemma Pow2Word()
    ensures Pow2(32) == WORD
  {
    Pow2Step(0); Pow2Step(4); Pow2Step(8); Pow2Step(12);
    Pow2Step(16); Pow2Step(20); Pow2Step(24); Pow2Step(28);
  }

  lemma Pow2Step(n: nat)
    ensures Pow2(n + 4) == 16 * Pow2(n)
  {
    assert Pow2(n + 4) == 2 * Pow2(n + 3);
    assert Pow2(n + 3) == 2 * Pow2(n + 2);
    assert Pow2(n + 2) == 2 * Pow2(n + 1);
  }

  lemma {:induction false} BitZero(i: nat)
    ensures !Bit(0, i)
    decreases i
  {
    if i > 0 {
      BitZero(i - 1);
    }
  }

  /** A number below 2^n has no bit at position n or above. */
  lemma {:induction false} BitHigh(x: nat, n: nat, i: nat)
    requires x < Pow2(n) && n <= i
    ensures !Bit(x, i)
    decreases n
  {
    if n == 0 {
      BitZero(i);
    } else {
      BitHigh(x / 2, n - 1, i - 1);
    }
  }

  /** Extensionality: numbers below 2^n that agree on their lowest n bits are equal. */
  lemma {:induction false} Ext(a: nat, b: nat, n: nat)
    requires a < Pow2(n) && b < Pow2(n)
    requires forall i :: 0 <= i < n ==> Bit(a, i) == Bit(b, i)
    ensures a == b
    decreases n
  {
    if n > 0 {
      assert Bit(a, 0) == Bit(b, 0);
      forall i | 0 <= i < n - 1
        ensures Bit(a / 2, i) == Bit(b / 2, i)
      {
        assert Bit(a, i + 1) == Bit(b, i + 1);
      }
      Ext(a / 2, b / 2, n - 1);
    }
  }

  /** Two words with the same 32 bits are equal. */
  lemma WordExt(a: Word, b: Word)
    requires forall i :: 0 <= i < 32 ==> Bit(a, i) == Bit(b, i)
    ensures a == b
  {
    Pow2Word();
    Ext(a, b, 32);
  }

  lemma {:induction false} BitAnd(a: nat, b: nat, i: nat)
    ensures Bit(And(a, b), i) == (Bit(a, i) && Bit(b, i))
    decreases i
  {
    if a == 0 || b == 0 {
      BitZero(i);
    } else if i > 0 {
      BitAnd(a / 2, b / 2, i - 1);
    }
  }

  lemma {:induction false} BitOrN(a: nat, b: nat, i: nat)
    ensures Bit(OrN(a, b), i) == (Bit(a, i) || Bit(b, i))
    decreases i
  {
    if a == 0 || b == 0 {
      BitZero(i);
    } else {
      HalfParts(OrN(a, b), OrN(a / 2, b / 2), if a % 2 == 1 || b % 2 == 1 then 1 else 0);
      if i > 0 {
        BitOrN(a / 2, b / 2, i - 1);
      }
    }
  }

  /** `2c + d` with `d` a bit halves to `c` and leaves `d`. */
  lemma HalfParts(x: nat, c: nat, d: nat)
    requires x == 2 * c + d && d < 2
    ensures x / 2 == c && x % 2 == d
  {
  }

  lemma BitOr(a: Word, b: Word, i: nat)
    ensures Bit(Or(a, b), i) == (Bit(a, i) || Bit(b, i))
  {
    BitOrN(a, b, i);
  }

  lemma {:induction false} OrBound(a: nat, b: nat, n: nat)
    requires a < Pow2(n) && b < Pow2(n)
    ensures OrN(a, b) < Pow2(n)
    decreases n
  {
    if n > 0 && a != 0 && b != 0 {
      OrBound(a / 2, b / 2, n - 1);
    }
  }

  /** Bits of `Pow2(n) - 1 - x`, the complement of x within n bits. */
  lemma {:induction false} BitComplement(x: nat, n: nat, i: nat)
    requires x < Pow2(n) && i < n
    ensures Bit(Pow2(n) - 1 - x, i) == !Bit(x, i)
    decreases n
  {
    var q := Pow2(n - 1);
    var y := Pow2(n) - 1 - x;
    assert y == 2 * (q - 1 - x / 2) + (1 - x % 2);
    ComplementHalves(y, q - 1 - x / 2, 1 - x % 2);
    if i > 0 {
      BitComplement(x / 2, n - 1, i - 1);
    }
  }

  /** The quotient and remainder by 2 of `2 * h + b` for a bit b. */
  lemma ComplementHalves(y: int, h: int, b: int)
    requires y == 2 * h + b && 0 <= b < 2
    ensures y / 2 == h && y % 2 == b
  {
  }

  lemma BitNot(x: Word, i: nat)
    requires i < 32
    ensures Bit(Not(x), i) == !Bit(x, i)
  {
    Pow2Word();
    BitComplement(x, 32, i);
  }

  lemma BitFull(i: nat)
    ensures Bit(FULL, i) == (i < 32)
  {
    Pow2Word();
    if i < 32 {
      BitComplement(0, 32, i);
      BitZero(i);
    } else {
      BitHigh(FULL, 32, i);
    }
  }

  lemma {:induction false} BitShr(x: nat, k: nat, i: nat)
    ensures Bit(Shr(x, k), i) == Bit(x, i + k)
    decreases k
  {
    if k > 0 {
      BitShr(x / 2, k - 1, i);
      assert Bit(x, i + k) == Bit(x / 2, i + k - 1);
    }
  }

  /** A word has no bit at position 32 or above. */
  lemma WordHigh(x: Word, i: nat)
    requires 32 <= i
    ensures !Bit(x, i)
  {
    Pow2Word();
    BitHigh(x, 32, i);
  }

  /** Taking away a higher power of two leaves the lower bits alone. */
  lemma {:induction false} BitSubPow2(x: nat, n: nat, j: nat)
    requires Pow2(n) <= x && j < n
    ensures Bit(x - Pow2(n), j) == Bit(x, j)
    decreases j
  {
    assert Pow2(n) == 2 * Pow2(n - 1);
    if j > 0 {
      assert (x - Pow2(n)) / 2 == x / 2 - Pow2(n - 1);
      BitSubPow2(x / 2, n - 1, j - 1);
    }
  }

  lemma BitDbl(y: Word, i: nat)
    ensures Bit(Dbl(y), i) == (0 < i < 32 && Bit(y, i - 1))
  {
    Pow2Word();
    assert Pow2(32) == 2 * Pow2(31);
    if i > 0 {
      if y < 0x8000_0000 {
        assert Dbl(y) / 2 == y;
        if i >= 32 {
          BitHigh(y, 31, i - 1);
        }
      } else {
        assert Dbl(y) / 2 == y - Pow2(31);
        if i < 32 {
          BitSubPow2(y, 31, i - 1);
        } else {
          BitHigh(y - Pow2(31), 31, i - 1);
        }
      }
    }
  }

  lemma {:induction false} BitShl(x: Word, k: nat, i: nat)
    ensures Bit(Shl(x, k), i) == (k <= i < 32 && Bit(x, i - k))
    decreases k
  {
    if k == 0 {
      if i >= 32 {
        WordHigh(x, i);
      }
    } else {
      BitDbl(Shl(x, k - 1), i);
      if i > 0 {
        BitShl(x, k - 1, i - 1);
      }
    }
  }

  /** A positive number below 2^n has fewer than n trailing zeros. */
  lemma {:induction false} TzPosBound(m: nat, n: nat)
    requires 0 < m < Pow2(n)
    ensures TzPos(m) < n
    decreases n
  {
    if m % 2 == 0 {
      TzPosBound(m / 2, n - 1);
    }
  }

  /** Bits below the trailing-zero count are clear. */
  lemma {:induction false} TzPosBelow(m: nat, i: nat)
    requires m > 0 && i < TzPos(m)
    ensures !Bit(m, i)
    decreases m
  {
    if i > 0 {
      TzPosBelow(m / 2, i - 1);
    }
  }

  // ---------------------------------------------------------------------------
  // Masked fields

  /** Reading back the field just written gives the value cut to the field's width:
    * `v & (m >> ctz(m))`. */
  lemma ExtractInsert(d: Word, v: Word, m: Word)
    ensures Extract(Insert(d, v, m), m) == And(v, Shr(m, Tz(m)))
  {
    forall i | 0 <= i < 32
      ensures Bit(Extract(Insert(d, v, m), m), i) == Bit(And(v, Shr(m, Tz(m))), i)
    {
      ExtractInsertBit(d, v, m, i);
    }
    WordExt(Extract(Insert(d, v, m), m), And(v, Shr(m, Tz(m))));
  }

  lemma ExtractInsertBit(d: Word, v: Word, m: Word, i: nat)
    requires i < 32
    ensures Bit(Extract(Insert(d, v, m), m), i) == Bit(And(v, Shr(m, Tz(m))), i)
  {
    var k := Tz(m);
    var w := Insert(d, v, m);
    var j := i + k;
    assert Extract(w, m) == Shr(And(w, m), k);
    BitShr(And(w, m), k, i);
    BitAnd(w, m, j);
    BitAnd(v, Shr(m, k), i);
    BitShr(m, k, i);
    if j < 32 {
      InsertBit(d, v, m, j);
      BitShl(v, k, j);
      assert j - k == i;
      assert Bit(Shl(v, k), j) == Bit(v, i);
    } else {
      WordHigh(m, j);
    }
  }

  /** A field value read out of a word already fits the field: cutting it to the
    * field's width changes nothing. */
  lemma ExtractFits(d: Word, m: Word)
    ensures Extract(d, m) <= d
    ensures And(Extract(d, m), Shr(m, Tz(m))) == Extract(d, m)
  {
    var k := Tz(m);
    var e := Extract(d, m);
    forall i | 0 <= i < 32
      ensures Bit(And(e, Shr(m, k)), i) == Bit(e, i)
    {
      BitAnd(e, Shr(m, k), i);
      BitShr(And(d, m), k, i);
      BitAnd(d, m, i + k);
      BitShr(m, k, i);
    }
    WordExt(And(e, Shr(m, k)), e);
  }

  /** Bit j of a read-modify-write result: the shifted value under the mask, the old
    * word elsewhere. */
  lemma InsertBit(d: Word, v: Word, m: Word, j: nat)
    requires j < 32
    ensures Bit(Insert(d, v, m), j) ==
      if Bit(m, j) then Bit(Shl(v, Tz(m)), j) else Bit(d, j)
  {
    BitOr(And(Shl(v, Tz(m)), m), And(d, Not(m)), j);
    BitAnd(Shl(v, Tz(m)), m, j);
    BitAnd(d, Not(m), j);
    BitNot(m, j);
  }

  /** Writing back the field just read leaves the word as it was. */
  lemma InsertExtract(d: Word, m: Word)
    ensures Insert(d, Extract(d, m), m) == d
  {
    forall j | 0 <= j < 32
      ensures Bit(Insert(d, Extract(d, m), m), j) == Bit(d, j)
    {
      InsertExtractBit(d, m, j);
    }
    WordExt(Insert(d, Extract(d, m), m), d);
  }

  lemma InsertExtractBit(d: Word, m: Word, j: nat)
    requires j < 32
    ensures Bit(Insert(d, Extract(d, m), m), j) == Bit(d, j)
  {
    InsertBit(d, Extract(d, m), m, j);
    if Bit(m, j) {
      ShlExtractBit(d, m, j);
    }
  }

  /** Under the mask, shifting the extracted field back up restores the word's bit. */
  lemma ShlExtractBit(d: Word, m: Word, j: nat)
    requires j < 32 && Bit(m, j)
    ensures Bit(Shl(Extract(d, m), Tz(m)), j) == Bit(d, j)
  {
    TzAtMost(m, j);
    ShlShrBit(And(d, m), Tz(m), j);
    BitAnd(d, m, j);
  }

  lemma ShlShrBit(a: Word, k: nat, j: nat)
    requires k <= j < 32
    ensures Bit(Shl(Shr(a, k), k), j) == Bit(a, j)
  {
    BitShl(Shr(a, k), k, j);
    BitShr(a, k, j - k);
  }

  /** No bit outside the mask changes. */
  lemma InsertOutside(d: Word, v: Word, m: Word)
    ensures And(Insert(d, v, m), Not(m)) == And(d, Not(m))
  {
    forall j | 0 <= j < 32
      ensures Bit(And(Insert(d, v, m), Not(m)), j) == Bit(And(d, Not(m)), j)
    {
      InsertBit(d, v, m, j);
      BitAnd(Insert(d, v, m), Not(m), j);
      BitAnd(d, Not(m), j);
      BitNot(m, j);
    }
    WordExt(And(Insert(d, v, m), Not(m)), And(d, Not(m)));
  }

  /** Under the mask the word holds `(v << ctz(m)) & m`. */
  lemma InsertInside(d: Word, v: Word, m: Word)
    ensures And(Insert(d, v, m), m) == And(Shl(v, Tz(m)), m)
  {
    forall j | 0 <= j < 32
      ensures Bit(And(Insert(d, v, m), m), j) == Bit(And(Shl(v, Tz(m)), m), j)
    {
      InsertBit(d, v, m, j);
      BitAnd(Insert(d, v, m), m, j);
      BitAnd(Shl(v, Tz(m)), m, j);
    }
    WordExt(And(Insert(d, v, m), m), And(Shl(v, Tz(m)), m));
  }

  /** `&` is commutative. */
  lemma AndComm(a: Word, b: Word)
    ensures And(a, b) == And(b, a)
  {
    forall i | 0 <= i < 32
      ensures Bit(And(a, b), i) == Bit(And(b, a), i)
    {
      BitAnd(a, b, i);
      BitAnd(b, a, i);
    }
    WordExt(And(a, b), And(b, a));
  }

  lemma AndFull(x: Word)
    ensures And(x, FULL) == x
  {
    forall i | 0 <= i < 32
      ensures Bit(And(x, FULL), i) == Bit(x, i)
    {
      BitAnd(x, FULL, i);
      BitFull(i);
    }
    WordExt(And(x, FULL), x);
  }

  /** With the full mask the field is the whole word. */
  lemma FullMask(d: Word, v: Word)
    ensures Tz(FULL) == 0
    ensures Extract(d, FULL) == d
    ensures Insert(d, v, FULL) == v
  {
    AndFull(d);
    AndFull(v);
    assert Not(FULL) == 0;
    assert And(d, 0) == 0;
    assert OrN(v, 0) == v;
  }

  /** Adding two words with no common bit is the same as or-ing them. */
  lemma {:induction false} AddDisjoint(a: nat, b: nat)
    requires And(a, b) == 0
    ensures a + b == OrN(a, b)
    decreases a
  {
    if a != 0 && b != 0 {
      assert And(a / 2, b / 2) == 0;
      AddDisjoint(a / 2, b / 2);
    }
  }

  /** A set bit bounds the trailing-zero count. */
  lemma TzAtMost(m: Word, j: nat)
    requires Bit(m, j)
    ensures Tz(m) <= j
  {
    if m == 0 {
      BitZero(j);
    } else if j < Tz(m) {
      TzPosBelow(m, j);
    }
  }

  /** A non-zero word has its lowest set bit at `ctz`. */
  lemma TzAt(m: Word)
    requires m != 0
    ensures Tz(m) < 32 && Bit(m, Tz(m))
  {
    Pow2Word();
    TzPosBound(m, 32);
    TzPosAt(m);
  }

  lemma {:induction false} TzPosAt(m: nat)
    requires m > 0
    ensures Bit(m, TzPos(m))
    decreases m
  {
    if m % 2 == 0 {
      TzPosAt(m / 2);
    }
  }

  /** A second write of the same field overrides the first. */
  lemma InsertTwice(d: Word, v: Word, w: Word, m: Word)
    ensures Insert(Insert(d, v, m), w, m) == Insert(d, w, m)
  {
    forall j | 0 <= j < 32
      ensures Bit(Insert(Insert(d, v, m), w, m), j) == Bit(Insert(d, w, m), j)
    {
      InsertBit(Insert(d, v, m), w, m, j);
      InsertBit(d, v, m, j);
      InsertBit(d, w, m, j);
    }
    WordExt(Insert(Insert(d, v, m), w, m), Insert(d, w, m));
  }

  /** Saving a field, overwriting it and writing the saved value back restores the
    * whole word. */
  lemma SaveRestore(d: Word, v: Word, m: Word)
    ensures Insert(Insert(d, v, m), Extract(d, m), m) == d
  {
    InsertTwice(d, v, Extract(d, m), m);
    InsertExtract(d, m);
  }

  /** `x & (2^n - 1)` and `x >> n` split `x` into its low n bits and the rest, so
    * `x & (2^n - 1) == x % 2^n` and `x >> n == x / 2^n`. */
  lemma LowHigh(x: nat, n: nat)
    ensures And(x, Pow2(n) - 1) < Pow2(n)
    ensures And(x, Pow2(n) - 1) + Pow2(n) * Shr(x, n) == x
  {
    LowBelow(x, n);
    LowAndHigh(x, n);
    ScaleIsProduct(Shr(x, n), n);
  }

  lemma {:induction false} LowBelow(x: nat, n: nat)
    ensures And(x, Pow2(n) - 1) < Pow2(n)
    decreases n
  {
    if n > 0 {
      LowBelow(x / 2, n - 1);
      AndLowStep(x, n);
    }
  }

  /** `h << n` without a bound: h doubled n times. */
  function Scale(h: nat, n: nat): nat
    decreases n
  {
    if n == 0 then h else 2 * Scale(h, n - 1)
  }

  /** Doubling n times multiplies by 2^n. */
  lemma {:induction false} ScaleIsProduct(h: nat, n: nat)
    ensures Scale(h, n) == Pow2(n) * h
    decreases n
  {
    if n > 0 {
      ScaleIsProduct(h, n - 1);
      assert 2 * (Pow2(n - 1) * h) == (2 * Pow2(n - 1)) * h;
    }
  }

  lemma {:induction false} LowAndHigh(x: nat, n: nat)
    ensures And(x, Pow2(n) - 1) + Scale(Shr(x, n), n) == x
    decreases n
  {
    if n > 0 {
      calc {
        And(x, Pow2(n) - 1) + Scale(Shr(x, n), n);
      == { AndLowStep(x, n); assert Shr(x, n) == Shr(x / 2, n - 1); }
        2 * And(x / 2, Pow2(n - 1) - 1) + x % 2 + 2 * Scale(Shr(x / 2, n - 1), n - 1);
      ==
        2 * (And(x / 2, Pow2(n - 1) - 1) + Scale(Shr(x / 2, n - 1), n - 1)) + x % 2;
      == { LowAndHigh(x / 2, n - 1); }
        2 * (x / 2) + x % 2;
      ==
        x;
      }
    } else {
      assert Pow2(n) - 1 == 0;
      assert And(x, Pow2(n) - 1) == 0;
      assert Scale(Shr(x, n), n) == x;
    }
  }

  /** The low n bits of x are its lowest bit below the low n - 1 bits of x / 2. */
  lemma AndLowStep(x: nat, n: nat)
    requires n > 0
    ensures And(x, Pow2(n) - 1) == 2 * And(x / 2, Pow2(n - 1) - 1) + x % 2
  {
    assert (Pow2(n) - 1) / 2 == Pow2(n - 1) - 1 && (Pow2(n) - 1) % 2 == 1;
  }

  /** One more step of a right shift halves the value. */
  lemma {:induction false} ShrStep(x: nat, k: nat)
    ensures Shr(x, k + 1) == Shr(x, k) / 2
    decreases k
  {
    if k > 0 {
      ShrStep(x / 2, k - 1);
    }
  }

  /** `x & 1` is the lowest bit. */
  lemma AndOne(x: nat)
    ensures And(x, 1) == x % 2
  {
    if x != 0 {
      assert And(x / 2, 0) == 0;
    }
  }

  /** `v & (1 << i)` is `1 << i` when bit i is set and 0 otherwise. */
  lemma {:induction false} AndPow2(v: nat, i: nat)
    ensures And(v, Pow2(i)) == if Bit(v, i) then Pow2(i) else 0
    decreases i
  {
    if i == 0 {
      AndOne(v);
    } else if v == 0 {
      BitZero(i);
    } else {
      assert Pow2(i) / 2 == Pow2(i - 1) && Pow2(i) % 2 == 0;
      AndPow2(v / 2, i - 1);
    }
  }

  /** Number of set bits among bits 0 .. n-1. */
  function CountBits(v: nat, n: nat): (c: nat)
    ensures c <= n
    decreases n
  {
    if n == 0 then 0 else CountBits(v, n - 1) + (if Bit(v, n - 1) then 1 else 0)
  }

  /** No bit below n is set exactly when the count is zero. */
  lemma {:induction false} CountBitsZero(v: nat, n: nat)
    ensures CountBits(v, n) == 0 <==> forall i :: 0 <= i < n ==> !Bit(v, i)
    decreases n
  {
    if n > 0 {
      CountBitsZero(v, n - 1);
      assert CountBits(v, n) == CountBits(v, n - 1) + (if Bit(v, n - 1) then 1 else 0);
      assert (forall i :: 0 <= i < n ==> !Bit(v, i)) <==>
        (forall i :: 0 <= i < n - 1 ==> !Bit(v, i)) && !Bit(v, n - 1);
    }
  }

  /** Every bit below n is set exactly when the count is n. */
  lemma {:induction false} CountBitsAll(v: nat, n: nat)
    ensures CountBits(v, n) == n <==> forall i :: 0 <= i < n ==> Bit(v, i)
    decreases n
  {
    if n > 0 {
      CountBitsAll(v, n - 1);
      assert CountBits(v, n) == CountBits(v, n - 1) + (if Bit(v, n - 1) then 1 else 0);
      assert (forall i :: 0 <= i < n ==> Bit(v, i)) <==>
        (forall i :: 0 <= i < n - 1 ==> Bit(v, i)) && Bit(v, n - 1);
    }
  }

  /** Counting over more bits never gives fewer. */
  lemma {:induction false} CountBitsMono(v: nat, a: nat, b: nat)
    requires a <= b
    ensures CountBits(v, a) <= CountBits(v, b)
    decreases b - a
  {
    if a < b {
      CountBitsMono(v, a, b - 1);
    }
  }
}
