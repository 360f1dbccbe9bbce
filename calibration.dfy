/** The calibration routines of src/calibration_routines.cpp: the single-channel mask
  * and its restore, the calibration pulse configuration, the VFAT mask table of the
  * s-bit rate scan, the read-outs of the threshold and s-bit rate scans, the cluster
  * word of the s-bit mapping check and the data layout of the DAC scan. */
module Calibration {

  import opened Wrappers
  import opened Bits
  import opened Packing
  import opened Text
  import opened Registers
  import opened HwConstants
  import opened Selection
  import Amc
  import Vfat3
  import Optohybrid

  // ---------------------------------------------------------------------------
  // checkSbitMappingWithCalPulse: the cluster word

  /** `(cluster >> 12) & 0x7`, the cluster size field. */
  function ClusterSize(cluster: Word): (s: nat)
    ensures s == cluster / 0x1000 % 8
  {
    Pow2Values();
    FieldBits(cluster, 12, 3);
    And(Shr(cluster, 12), 7)
  }

  /** `cluster & 0x7ff`, the s-bit address field. */
  function SbitAddress(cluster: Word): (a: nat)
    ensures a == cluster % 0x800
  {
    Pow2Values();
    LowBits(cluster, 11);
    And(cluster, 0x7ff)
  }

  /** The word stored for one cluster read while VFAT `vfatN` channel `chan` is pulsed:
    * `((size & 0x7) << 27) + ((isValid & 0x1) << 26) + ((vfatObserved & 0x1f) << 21) +
    * ((vfatN & 0x1f) << 16) + ((sbitObserved & 0xff) << 8) + (chan & 0xff)`. The
    * observed VFAT is an `int` that is negative for the addresses 1920 to 2047; its
    * `& 0x1f` is the remainder modulo 32. No term overflows and the sum stays below
    * 2^30, so the `uint32_t` additions do not wrap. */
  function ClusterWord(c: Consts, cluster: Word, vfatN: Word, chan: nat): Word
  {
    var addr := SbitAddress(cluster);
    var valid := if addr < c.sbitsPerOh then 1 else 0;
    ClusterSize(cluster) * 0x800_0000 + valid * 0x400_0000 + (Amc.VfatPos(addr) % 32) * 0x20_0000 +
    (vfatN % 32) * 0x1_0000 + (addr % 64 % 0x100) * 0x100 + chan % 0x100
  }

  /** The fields of the cluster word are where the documentation of
    * `checkSbitMappingWithCalPulse` puts them: bits 0-7 the channel pulsed, 8-15 the
    * s-bit observed, 16-20 the VFAT pulsed, 21-25 the VFAT observed, bit 26 whether
    * the address is valid and bits 27-29 the cluster size. */
  lemma ClusterWordFields(c: Consts, cluster: Word, vfatN: Word, chan: nat)
    ensures var w := ClusterWord(c, cluster, vfatN, chan); var addr := cluster % 0x800;
      w < 0x4000_0000 &&
      w % 0x100 == chan % 0x100 &&
      w / 0x100 % 0x100 == addr % 64 &&
      w / 0x1_0000 % 0x20 == vfatN % 32 &&
      w / 0x20_0000 % 0x20 == Amc.VfatPos(addr) % 32 &&
      (w / 0x400_0000 % 2 == 1 <==> addr < c.sbitsPerOh) &&
      w / 0x800_0000 == cluster / 0x1000 % 8
  {
    var addr := cluster % 0x800;
    var f1 := addr % 64;
    assert addr % 64 % 0x100 == f1 by {
      DivModUnique(f1, 0x100, f1, 0);
    }
    ClusterFields(chan % 0x100, f1, vfatN % 32, Amc.VfatPos(addr) % 32,
      if addr < c.sbitsPerOh then 1 else 0, cluster / 0x1000 % 8);
  }

  /** The six fields at bits 0, 8, 16, 21, 26 and 27 come back from their sum. */
  lemma ClusterFields(f0: nat, f1: nat, f2: nat, f3: nat, f4: nat, f5: nat)
    requires f0 < 0x100 && f1 < 0x100 && f2 < 0x20 && f3 < 0x20 && f4 < 2 && f5 < 8
    ensures var w := f5 * 0x800_0000 + f4 * 0x400_0000 + f3 * 0x20_0000 + f2 * 0x1_0000 + f1 * 0x100 + f0;
      w < 0x4000_0000 && w % 0x100 == f0 && w / 0x100 % 0x100 == f1 &&
      w / 0x1_0000 % 0x20 == f2 && w / 0x20_0000 % 0x20 == f3 &&
      w / 0x400_0000 % 2 == f4 && w / 0x800_0000 == f5
  {
    var w := f5 * 0x800_0000 + f4 * 0x400_0000 + f3 * 0x20_0000 + f2 * 0x1_0000 + f1 * 0x100 + f0;
    assert w == f0 + 0x100 * (f1 + 0x100 * (f2 + 0x20 * (f3 + 0x20 * (f4 + 2 * f5))));
    DivModUnique(w, 0x100, f0, f1 + 0x100 * (f2 + 0x20 * (f3 + 0x20 * (f4 + 2 * f5))));
    DivModUnique(w / 0x100, 0x100, f1, f2 + 0x20 * (f3 + 0x20 * (f4 + 2 * f5)));
    DivModUnique(w, 0x1_0000, f0 + 0x100 * f1, f2 + 0x20 * (f3 + 0x20 * (f4 + 2 * f5)));
    DivModUnique(w / 0x1_0000, 0x20, f2, f3 + 0x20 * (f4 + 2 * f5));
    DivModUnique(w, 0x20_0000, f0 + 0x100 * f1 + 0x1_0000 * f2, f3 + 0x20 * (f4 + 2 * f5));
    DivModUnique(w / 0x20_0000, 0x20, f3, f4 + 2 * f5);
    DivModUnique(w, 0x400_0000, f0 + 0x100 * f1 + 0x1_0000 * f2 + 0x20_0000 * f3, f4 + 2 * f5);
    DivModUnique(w / 0x400_0000, 2, f4, f5);
    DivModUnique(w, 0x800_0000, f0 + 0x100 * f1 + 0x1_0000 * f2 + 0x20_0000 * f3 + 0x400_0000 * f4, f5);
  }

  /** The trigger-pad block `addr / 64` of an address, as `VfatPos` reads it:
    * `3 * (7 - pos % 8) + pos / 8` for the VFAT at `pos`. */
  function PadBlock(pos: nat): nat
  {
    3 * (7 - pos % 8) + pos / 8
  }

  lemma PadBlockInjective(p: nat, q: nat)
    requires p < 24 && q < 24 && PadBlock(p) == PadBlock(q)
    ensures p == q
  {
    DivModUnique(PadBlock(p), 3, p / 8, 7 - p % 8);
    DivModUnique(PadBlock(q), 3, q / 8, 7 - q % 8);
  }

  /** For the 1536 valid addresses, the observed VFAT `7 - addr/192 + ((addr%192)/64)*8`
    * is one of 0 to 23 and depends on the 64-pad block `addr / 64` alone, and different
    * blocks give different VFATs: a bijection from the 24 blocks onto the 24 VFATs. */
  lemma ObservedVfatBijective(a1: nat, a2: nat)
    requires a1 < 1536 && a2 < 1536
    ensures 0 <= Amc.VfatPos(a1) < 24
    ensures Amc.VfatPos(a1) == Amc.VfatPos(a2) <==> a1 / 64 == a2 / 64
  {
    Amc.ValidAddrNamesPad(a1);
    Amc.ValidAddrNamesPad(a2);
    var p1: nat, p2: nat := Amc.VfatPos(a1), Amc.VfatPos(a2);
    DivModUnique(a1, 64, a1 % 64, PadBlock(p1));
    DivModUnique(a2, 64, a2 % 64, PadBlock(p2));
    if a1 / 64 == a2 / 64 {
      PadBlockInjective(p1, p2);
    }
  }

  /** Every VFAT is observed for some valid address: the first pad of its block. */
  lemma ObservedVfatOnto(v: nat)
    requires v < 24
    ensures Amc.SbitAddr(v, 0) < 1536 && Amc.VfatPos(Amc.SbitAddr(v, 0)) == v
  {
    Amc.PadAddrValid(v, 0);
  }

  // ---------------------------------------------------------------------------
  // dacScan: the monitored DACs, the data word and its index

  /** `vfat3DACAndSize`: for each monitor selection, the DAC register scanned and its
    * minimum and maximum value. */
  const DAC_TABLE: map<nat, (string, nat, nat)> := map[
    1 := ("CFG_CAL_DAC", 0, 0xff), 2 := ("CFG_BIAS_PRE_I_BIT", 0, 0xff),
    3 := ("CFG_BIAS_PRE_I_BLCC", 0, 0x3f), 4 := ("CFG_BIAS_PRE_I_BSF", 0, 0x3f),
    5 := ("CFG_BIAS_SH_I_BFCAS", 0, 0xff), 6 := ("CFG_BIAS_SH_I_BDIFF", 0, 0xff),
    7 := ("CFG_BIAS_SD_I_BDIFF", 0, 0xff), 8 := ("CFG_BIAS_SD_I_BFCAS", 0, 0xff),
    9 := ("CFG_BIAS_SD_I_BSF", 0, 0x3f), 10 := ("CFG_BIAS_CFD_DAC_1", 0, 0x3f),
    11 := ("CFG_BIAS_CFD_DAC_2", 0, 0x3f), 12 := ("CFG_HYST", 0, 0x3f),
    14 := ("CFG_THR_ARM_DAC", 0, 0xff), 15 := ("CFG_THR_ZCC_DAC", 0, 0xff),
    33 := ("CFG_CAL_DAC", 0, 0xff), 34 := ("CFG_BIAS_PRE_VREF", 0, 0xff),
    35 := ("CFG_THR_ARM_DAC", 0, 0xff), 36 := ("CFG_THR_ZCC_DAC", 0, 0xff),
    39 := ("CFG_VREF_ADC", 0, 0x3)]

  /** The table lookup that starts `dacScan`: an unknown selection throws
    * `std::runtime_error`. */
  function DacSelection(dacSelect: nat): (r: Result<(string, nat, nat)>)
    ensures r.Ok? <==> dacSelect in DAC_TABLE
    ensures r.Ok? ==> r.value == DAC_TABLE[dacSelect] && r.value.1 == 0 && r.value.2 in {0x3, 0x3f, 0xff}
    ensures r.Err? ==> r.error == RuntimeError(BadArgument)
  {
    if dacSelect in DAC_TABLE then Ok(DAC_TABLE[dacSelect]) else Err(RuntimeError(BadArgument))
  }

  /** `((ohN & 0xf) << 23) + ((vfatN & 0x1f) << 18) + ((adc & 0x3ff) << 8) +
    * (dacVal & 0xff)`; a masked VFAT's word leaves out the ADC term, which is this word
    * with `adc` 0. */
  function DacWord(ohN: nat, vfatN: nat, adc: Word, dacVal: nat): Word
  {
    (ohN % 16) * 0x80_0000 + (vfatN % 32) * 0x4_0000 + (adc % 0x400) * 0x100 + dacVal % 0x100
  }

  /** The fields of the DAC scan word are where the documentation of `dacScan` puts
    * them: bits 7:0 the DAC value, 17:8 the ADC value, 22:18 the VFAT, 26:23 the link. */
  lemma DacWordFields(ohN: nat, vfatN: nat, adc: Word, dacVal: nat)
    ensures var w := DacWord(ohN, vfatN, adc, dacVal);
      w < 0x800_0000 &&
      w % 0x100 == dacVal % 0x100 &&
      w / 0x100 % 0x400 == adc % 0x400 &&
      w / 0x4_0000 % 0x20 == vfatN % 32 &&
      w / 0x80_0000 == ohN % 16
  {
    var w := DacWord(ohN, vfatN, adc, dacVal);
    var f0, f1, f2, f3 := dacVal % 0x100, adc % 0x400, vfatN % 32, ohN % 16;
    assert w == f0 + 0x100 * (f1 + 0x400 * (f2 + 0x20 * f3));
    DivModUnique(w, 0x100, f0, f1 + 0x400 * (f2 + 0x20 * f3));
    DivModUnique(w / 0x100, 0x400, f1, f2 + 0x20 * f3);
    DivModUnique(w, 0x4_0000, f0 + 0x100 * f1, f2 + 0x20 * f3);
    DivModUnique(w / 0x4_0000, 0x20, f2, f3);
    DivModUnique(w, 0x80_0000, f0 + 0x100 * f1 + 0x4_0000 * f2, f3);
  }

  /** The size of the result vector as written, `VFATS_PER_OH * nDacValues` with
    * `nDacValues = (dacMax - dacMin + 1) / dacStep`. */
  function DacDataSizeAsWritten(c: Consts, dacMin: nat, dacMax: nat, dacStep: nat): nat
    requires dacMin <= dacMax && dacStep > 0
  {
    c.vfatsPerOh * ((dacMax - dacMin + 1) / dacStep)
  }

  /** The index as written, `vfatN*(dacMax-dacMin+1)/dacStep + (dacVal-dacMin)/dacStep`:
    * the product is divided, not `nDacValues` multiplied. */
  function DacIndexAsWritten(vfatN: nat, dacVal: nat, dacMin: nat, dacMax: nat, dacStep: nat): int
    requires dacMin <= dacMax && dacMin <= dacVal && dacStep > 0
  {
    vfatN * (dacMax - dacMin + 1) / dacStep + (dacVal - dacMin) / dacStep
  }

  /** The DAC values the loop `for (dacVal = dacMin; dacVal <= dacMax; dacVal += dacStep)`
    * visits: `dacMin + k * dacStep` for k below this count. */
  function DacSteps(dacMin: nat, dacMax: nat, dacStep: nat): (n: nat)
    requires dacMin <= dacMax && dacStep > 0
    ensures n >= 1
  {
    (dacMax - dacMin) / dacStep + 1
  }

  /** The index the layout intends: one row of `DacSteps` entries per VFAT, entry k of
    * the row for the k-th DAC value. */
  function DacIndex(vfatN: nat, dacVal: nat, dacMin: nat, dacMax: nat, dacStep: nat): nat
    requires dacMin <= dacMax && dacMin <= dacVal && dacStep > 0
  {
    vfatN * DacSteps(dacMin, dacMax, dacStep) + (dacVal - dacMin) / dacStep
  }

  /** Every (VFAT, visited DAC value) pair has its own index inside the vector: the
    * index is below `VFATS_PER_OH * DacSteps` and gives the pair back. */
  lemma DacIndexLayout(c: Consts, vfatN: nat, k: nat, dacMin: nat, dacMax: nat, dacStep: nat)
    requires dacMin <= dacMax && dacStep > 0
    requires vfatN < c.vfatsPerOh && k < DacSteps(dacMin, dacMax, dacStep)
    ensures dacMin + k * dacStep <= dacMax
    ensures var i := DacIndex(vfatN, dacMin + k * dacStep, dacMin, dacMax, dacStep);
      i < c.vfatsPerOh * DacSteps(dacMin, dacMax, dacStep) &&
      i / DacSteps(dacMin, dacMax, dacStep) == vfatN && i % DacSteps(dacMin, dacMax, dacStep) == k
  {
    var n := DacSteps(dacMin, dacMax, dacStep);
    var q := (dacMax - dacMin) / dacStep;
    assert k <= q;
    assert k * dacStep <= q * dacStep <= dacMax - dacMin by {
      MulMono(k, q, dacStep);
    }
    DivModUnique(k * dacStep, dacStep, 0, k);
    var i := vfatN * n + k;
    DivModUnique(i, n, k, vfatN);
    MulMono(vfatN + 1, c.vfatsPerOh, n);
  }

  lemma MulMono(a: nat, b: nat, m: nat)
    requires a <= b
    ensures a * m <= b * m
  {
    MulGap(m, a, b);
  }

  /** When `dacStep` divides `dacMax - dacMin + 1`, the index and the size as written
    * are the intended ones, so every index lies inside the vector and distinct pairs
    * get distinct indices. */
  lemma DacIndexAgrees(c: Consts, vfatN: nat, k: nat, dacMin: nat, dacMax: nat, dacStep: nat)
    requires dacMin <= dacMax && dacStep > 0 && (dacMax - dacMin + 1) % dacStep == 0
    ensures DacDataSizeAsWritten(c, dacMin, dacMax, dacStep) == c.vfatsPerOh * DacSteps(dacMin, dacMax, dacStep)
    ensures dacMin + k * dacStep <= dacMax ==>
      DacIndexAsWritten(vfatN, dacMin + k * dacStep, dacMin, dacMax, dacStep) ==
      DacIndex(vfatN, dacMin + k * dacStep, dacMin, dacMax, dacStep)
  {
    var len := dacMax - dacMin + 1;
    var q := len / dacStep;
    assert len == dacStep * q;
    assert q >= 1;
    DivModUnique(len - 1, dacStep, dacStep - 1, q - 1);
    assert DacSteps(dacMin, dacMax, dacStep) == q;
    assert vfatN * len == dacStep * (vfatN * q);
    DivModUnique(vfatN * len, dacStep, 0, vfatN * q);
  }

  /** With a step that does not divide the range the vector is too short and rows
    * overlap: scanning `CFG_CAL_DAC` (0 to 0xff) of 24 VFATs in steps of 3 visits 86
    * values but sizes the vector for 24 * 85 = 2040 words, VFAT 23 at 255 asks for
    * index 2047, so `.at` throws `std::out_of_range`, and VFAT 0 at 255 and VFAT 1 at
    * 0 share index 85. */
  lemma DacScanOverrunsAsWritten(c: Consts)
    requires c.vfatsPerOh == 24
    ensures DacSteps(0, 0xff, 3) == 86 && DacDataSizeAsWritten(c, 0, 0xff, 3) == 2040
    ensures DacIndexAsWritten(23, 0xff, 0, 0xff, 3) == 2047
    ensures DacIndexAsWritten(0, 0xff, 0, 0xff, 3) == DacIndexAsWritten(1, 0, 0, 0xff, 3) == 85
  {
  }

  // ---------------------------------------------------------------------------
  // sbitRateScan: the VFAT mask table

  /** `vfatMask2vfatN`: the masks that leave exactly one VFAT unmasked, and that VFAT. */
  const VFAT_MASK_TO_N: map<Word, nat> := map[
    0xfffffe := 0, 0xfffffd := 1, 0xfffffb := 2, 0xfffff7 := 3,
    0xffffef := 4, 0xffffdf := 5, 0xffffbf := 6, 0xffff7f := 7,
    0xfffeff := 8, 0xfffdff := 9, 0xfffbff := 10, 0xfff7ff := 11,
    0xffefff := 12, 0xffdfff := 13, 0xffbfff := 14, 0xff7fff := 15,
    0xfeffff := 16, 0xfdffff := 17, 0xfbffff := 18, 0xf7ffff := 19,
    0xefffff := 20, 0xdfffff := 21, 0xbfffff := 22, 0x7fffff := 23]

  /** `~(0x1 << n) & 0xffffff`, the mask of VFAT n alone. */
  function SingleVfatMask(n: nat): Word
    requires n < 24
  {
    Pow2Values();
    Pow2Mono(n, 24);
    And(Not(Shl(1, n)), 0xff_ffff)
  }

  /** `1 << n` is `2^n`, below `2^24`, for the 24 VFAT positions. */
  lemma VfatBitValue(n: nat)
    requires n < 24
    ensures Shl(1, n) == Pow2(n) && Pow2(n) < 0x100_0000 && Pow2(24) == 0x100_0000
  {
    Pow2Values();
    Pow2Mono(n + 1, 24);
    ShlFits(1, n);
  }

  /** Bit i of the single-VFAT mask of n is bit i of `0xffffff - 2^n`. */
  lemma SingleVfatMaskBit(n: nat, i: nat)
    requires n < 24 && i < 32
    ensures Pow2(n) < 0x100_0000 && Bit(SingleVfatMask(n), i) == Bit(0xff_ffff - Pow2(n), i)
  {
    VfatBitValue(n);
    BitAnd(Not(Pow2(n)), 0xff_ffff, i);
    BitNot(Pow2(n), i);
    Low24Bits(i);
    if i < 24 {
      BitComplement(Pow2(n), 24, i);
    } else {
      BitHigh(0xff_ffff - Pow2(n), 24, i);
    }
  }

  /** The mask of VFAT n alone is `0xffffff - 2^n`. */
  lemma SingleVfatMaskValue(n: nat)
    requires n < 24
    ensures SingleVfatMask(n) == 0xff_ffff - Pow2(n)
  {
    VfatBitValue(n);
    var x: Word := 0xff_ffff - Pow2(n);
    forall i | 0 <= i < 32
      ensures Bit(SingleVfatMask(n), i) == Bit(x, i)
    {
      SingleVfatMaskBit(n, i);
    }
    WordExt(SingleVfatMask(n), x);
  }

  /** Exactly VFAT n is used under the mask of VFAT n alone. */
  lemma SingleVfatMaskSelects(n: nat, v: nat)
    requires n < 24
    ensures Vfat3.Used(SingleVfatMask(n), v) <==> v == n
  {
    VfatBitValue(n);
    var m := SingleVfatMask(n);
    NotMaskBits(m, v);
    BitAnd(Not(Pow2(n)), 0xff_ffff, v);
    SinglePow2(n, v);
    Low24Bits(v);
    if v < 24 {
      BitNot(Pow2(n), v);
    }
  }

  /** The entries for VFATs 0 to 5: `0xffffff - 2^n` maps to n. */
  lemma MaskEntries0(n: nat)
    requires n < 6
    ensures 0xff_ffff - Pow2(n) in VFAT_MASK_TO_N && VFAT_MASK_TO_N[0xff_ffff - Pow2(n)] == n
  {
    Pow2Values();
    assert n == 0 || n == 1 || n == 2 || n == 3 || n == 4 || n == 5;
  }

  lemma MaskEntries6(n: nat)
    requires 6 <= n < 12
    ensures 0xff_ffff - Pow2(n) in VFAT_MASK_TO_N && VFAT_MASK_TO_N[0xff_ffff - Pow2(n)] == n
  {
    Pow2Values();
    assert n == 6 || n == 7 || n == 8 || n == 9 || n == 10 || n == 11;
  }

  lemma MaskEntries12(n: nat)
    requires 12 <= n < 18
    ensures 0xff_ffff - Pow2(n) in VFAT_MASK_TO_N && VFAT_MASK_TO_N[0xff_ffff - Pow2(n)] == n
  {
    Pow2Values();
    assert n == 12 || n == 13 || n == 14 || n == 15 || n == 16 || n == 17;
  }

  lemma MaskEntries18(n: nat)
    requires 18 <= n < 24
    ensures 0xff_ffff - Pow2(n) in VFAT_MASK_TO_N && VFAT_MASK_TO_N[0xff_ffff - Pow2(n)] == n
  {
    Pow2Values();
    assert n == 18 || n == 19 || n == 20 || n == 21 || n == 22 || n == 23;
  }

  /** Every key of the table is `0xffffff - 2^n` for its entry n. */
  lemma MaskKeys(m: Word)
    requires m in VFAT_MASK_TO_N
    ensures VFAT_MASK_TO_N[m] < 24 && m == 0xff_ffff - Pow2(VFAT_MASK_TO_N[m])
  {
    Pow2Values();
  }

  /** The table holds exactly the 24 single-VFAT masks, each mapped to its VFAT. */
  lemma MaskTableIsSingleVfatMasks(m: Word, n: nat)
    requires n < 24
    ensures SingleVfatMask(n) in VFAT_MASK_TO_N && VFAT_MASK_TO_N[SingleVfatMask(n)] == n
    ensures m in VFAT_MASK_TO_N ==> VFAT_MASK_TO_N[m] < 24 && m == SingleVfatMask(VFAT_MASK_TO_N[m])
  {
    SingleVfatMaskValue(n);
    if n < 6 {
      MaskEntries0(n);
    } else if n < 12 {
      MaskEntries6(n);
    } else if n < 18 {
      MaskEntries12(n);
    } else {
      MaskEntries18(n);
    }
    if m in VFAT_MASK_TO_N {
      MaskKeys(m);
      SingleVfatMaskValue(VFAT_MASK_TO_N[m]);
    }
  }

  /** Looking a mask up in the table: a key is the single-VFAT mask of its entry, and
    * the single-VFAT mask of n is a key with entry n. */
  lemma MaskLookup(m: Word)
    ensures m in VFAT_MASK_TO_N ==> VFAT_MASK_TO_N[m] < 24 && m == SingleVfatMask(VFAT_MASK_TO_N[m])
    ensures forall n: nat :: n < 24 && m == SingleVfatMask(n) ==> m in VFAT_MASK_TO_N && VFAT_MASK_TO_N[m] == n
  {
    MaskTableIsSingleVfatMasks(m, 0);
    forall n: nat | n < 24 && m == SingleVfatMask(n)
      ensures m in VFAT_MASK_TO_N && VFAT_MASK_TO_N[m] == n
    {
      MaskTableIsSingleVfatMasks(m, n);
    }
  }

  /** The VFAT `sbitRateScan` scans: the table's entry for the mask, or 23 minus it
    * when `invertVFATPos` is set; a mask not in the table throws `std::runtime_error`.
    * So exactly the 24 single-VFAT masks are accepted. */
  function VfatOfMask(vfatMask: Word, invert: bool): (r: Result<nat>)
    ensures forall n: nat :: n < 24 && vfatMask == SingleVfatMask(n) ==> r == Ok(if invert then 23 - n else n)
    ensures r.Ok? ==> r.value < 24 && vfatMask == SingleVfatMask(if invert then 23 - r.value else r.value)
    ensures r.Err? ==> r.error == RuntimeError(BadArgument)
  {
    MaskLookup(vfatMask);
    if vfatMask in VFAT_MASK_TO_N then
      var n := VFAT_MASK_TO_N[vfatMask];
      Ok(if invert then 23 - n else n)
    else
      Err(RuntimeError(BadArgument))
  }
}
