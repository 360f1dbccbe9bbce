/** The VFAT-selection idioms the consumer modules share: bit `n` of a 24-bit VFAT mask
  * set means VFAT `n` is masked off, `(mask >> n) & 0x1` tests it, and
  * `~mask & 0xFFFFFF` (`notmask`) has exactly the unmasked VFATs' bits set. */
module Selection {

  import opened Bits
  import opened Packing

  /** `(x >> k) & 0x1` is 1 exactly when bit k of x is set, and 0 otherwise. */
  lemma ShrAndOne(x: nat, k: nat)
    ensures And(Shr(x, k), 1) == if Bit(x, k) then 1 else 0
  {
    AndOne(Shr(x, k));
    BitShr(x, k, 0);
  }

  /** `0xFFFFFF` has bits 0 to 23 set and no other. */
  lemma Low24Bits(i: nat)
    ensures Bit(0xff_ffff, i) <==> i < 24
  {
    Pow2Values();
    if i < 24 {
      BitComplement(0, 24, i);
      BitZero(i);
    } else {
      BitHigh(0xff_ffff, 24, i);
    }
  }

  /** `~mask & 0xFFFFFF`. */
  function NotMask(mask: Word): (r: Word)
    ensures r <= 0xff_ffff
  {
    And(Not(mask), 0xff_ffff)
  }

  /** Bit v of `notmask` is set iff v is one of the 24 VFAT positions and is not masked. */
  lemma NotMaskBits(mask: Word, v: nat)
    ensures Bit(NotMask(mask), v) <==> v < 24 && !Bit(mask, v)
  {
    BitAnd(Not(mask), 0xff_ffff, v);
    Low24Bits(v);
    if v < 24 {
      BitNot(mask, v);
    }
  }

  /** `(notmask & goodVFATs) == notmask`, the test that every unmasked VFAT is good. */
  predicate AllGood(mask: Word, good: Word)
  {
    And(NotMask(mask), good) == NotMask(mask)
  }

  /** Every VFAT position below 24 is masked or good. */
  predicate UnmaskedGood(mask: Word, good: Word)
  {
    forall v: nat :: v < 24 && !Bit(mask, v) ==> Bit(good, v)
  }

  /** The test passes iff every VFAT position below 24 is masked or good. */
  lemma AllGoodIff(mask: Word, good: Word)
    ensures AllGood(mask, good) <==> UnmaskedGood(mask, good)
  {
    var nm := NotMask(mask);
    if AllGood(mask, good) {
      forall v: nat | v < 24 && !Bit(mask, v)
        ensures Bit(good, v)
      {
        NotMaskBits(mask, v);
        BitAnd(nm, good, v);
      }
    }
    if UnmaskedGood(mask, good) {
      var a: Word := And(nm, good);
      forall i | 0 <= i < 32
        ensures Bit(a, i) == Bit(nm, i)
      {
        NotMaskBits(mask, i);
        BitAnd(nm, good, i);
        if Bit(nm, i) {
          assert i < 24 && !Bit(mask, i);
          assert Bit(good, i);
        }
      }
      WordExt(a, nm);
      assert AllGood(mask, good);
    }
  }

  /** The positions below n whose mask bit is clear, in ascending order: the VFATs a
    * loop `for (n = 0; n < N; ++n) if (!((mask >> n) & 0x1)) …` visits. */
  function Unmasked(mask: nat, n: nat): (vs: seq<nat>)
    ensures forall k :: 0 <= k < |vs| ==> vs[k] < n
    decreases n
  {
    if n == 0 then []
    else Unmasked(mask, n - 1) + (if Bit(mask, n - 1) then [] else [n - 1])
  }

  /** The positions selected are exactly the unmasked ones below n, each once, in
    * ascending order. */
  lemma {:induction false} UnmaskedMembers(mask: nat, n: nat)
    ensures forall v: nat :: v in Unmasked(mask, n) <==> v < n && !Bit(mask, v)
    ensures forall i, j :: 0 <= i < j < |Unmasked(mask, n)| ==> Unmasked(mask, n)[i] < Unmasked(mask, n)[j]
    decreases n
  {
    if n > 0 {
      UnmaskedMembers(mask, n - 1);
    }
  }
}
