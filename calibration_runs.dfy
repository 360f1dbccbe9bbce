/** The register-writing routines of src/calibration_routines.cpp: the calibration
  * pulse configuration, the single-channel mask and its restore, the read-outs of
  * the threshold scan and the parallel s-bit rate scan, the s-bit counter settings
  * saved and restored around that scan, the target of the s-bit rate scan and the
  * result vector of the DAC scan. */
module CalibrationRuns {

  import opened Wrappers
  import opened Bits
  import opened Packing
  import opened Text
  import opened Registers
  import opened HwConstants
  import opened Selection
  import Vfat3
  import Optohybrid
  import Calibration
  import Amc
  import ErrorCounters

  // ---------------------------------------------------------------------------
  // Writing the blocks of the used VFATs

  /** The writes of the used VFATs among the first n, in VFAT order: VFAT v's writes
    * are `blocks[v]`. */
  function UsedPlan(blocks: seq<seq<(string, Word)>>, mask: Word, n: nat): seq<(string, Word)>
    requires n <= |blocks|
    decreases n
  {
    if n == 0 then []
    else UsedPlan(blocks, mask, n - 1) + (if Vfat3.Used(mask, n - 1) then blocks[n - 1] else [])
  }

  /** A write is in the plan iff it is among the writes of a used VFAT. */
  lemma {:induction false} UsedPlanMembers(blocks: seq<seq<(string, Word)>>, mask: Word, n: nat)
    requires n <= |blocks|
    ensures forall w :: w in UsedPlan(blocks, mask, n) <==> exists v :: 0 <= v < n && Vfat3.Used(mask, v) && w in blocks[v]
    decreases n
  {
    if n > 0 {
      UsedPlanMembers(blocks, mask, n - 1);
      var last := if Vfat3.Used(mask, n - 1) then blocks[n - 1] else [];
      forall w
        ensures w in UsedPlan(blocks, mask, n) <==> exists v :: 0 <= v < n && Vfat3.Used(mask, v) && w in blocks[v]
      {
        assert w in UsedPlan(blocks, mask, n) <==> w in UsedPlan(blocks, mask, n - 1) || w in last;
        if w in last {
          assert Vfat3.Used(mask, n - 1) && w in blocks[n - 1];
        }
      }
    }
  }

  /** `for (vfatN = 0; vfatN < VFATS_PER_OH; ++vfatN) if ((notmask >> vfatN) & 0x1) …`:
    * the `writeReg` calls of every used VFAT, stopping at the first that throws. */
  method WriteUsed(hw: Hardware, mask: Word, blocks: seq<seq<(string, Word)>>) returns (r: Result<()>)
    modifies hw`mem, hw`faults, hw`trace
    ensures hw.mem.Keys == old(hw.mem).Keys
    ensures r.Ok? ==> Performed(old(hw.mem), hw.mem, hw.table, Effects(old(hw.trace)), Effects(hw.trace),
                                UsedPlan(blocks, mask, |blocks|))
    ensures r.Err? ==> r.error.RuntimeError?
  {
    ghost var m0 := hw.mem;
    ghost var e0 := Effects(hw.trace);
    PerformedNothing(m0, hw.table, e0);
    var v := 0;
    while v < |blocks|
      invariant 0 <= v <= |blocks|
      invariant hw.mem.Keys == m0.Keys
      invariant Performed(m0, hw.mem, hw.table, e0, Effects(hw.trace), UsedPlan(blocks, mask, v))
    {
      ghost var m1 := hw.mem;
      ghost var e1 := Effects(hw.trace);
      var w := UsedTurn(hw, mask, blocks, v);
      if w.Err? {
        return Err(w.error);
      }
      PerformedStep(m0, m1, hw.mem, hw.table, e0, e1, Effects(hw.trace), UsedPlan(blocks, mask, v),
                    if Vfat3.Used(mask, v) then blocks[v] else []);
      v := v + 1;
    }
    r := Ok(());
  }

  /** VFAT v's turn: its writes if it is used, none otherwise. */
  method UsedTurn(hw: Hardware, mask: Word, blocks: seq<seq<(string, Word)>>, v: nat) returns (r: Result<()>)
    requires v < |blocks|
    modifies hw`mem, hw`faults, hw`trace
    ensures hw.mem.Keys == old(hw.mem).Keys
    ensures r.Ok? ==> Performed(old(hw.mem), hw.mem, hw.table, Effects(old(hw.trace)), Effects(hw.trace),
                                if Vfat3.Used(mask, v) then blocks[v] else [])
    ensures r.Err? ==> r.error.RuntimeError?
  {
    if Vfat3.Used(mask, v) {
      r := hw.WriteRegs(blocks[v]);
    } else {
      PerformedNothing(hw.mem, hw.table, Effects(hw.trace));
      r := Ok(());
    }
  }

  // ---------------------------------------------------------------------------
  // confCalPulse

  /** `VFATCalibrationMode`. */
  const CAL_DISABLED: Word := 0
  const CAL_VOLTAGE: Word := 1
  const CAL_CURRENT: Word := 2

  /** The branch `confCalPulse` takes. */
  datatype CalBranch = Rejected | DisableAll | PerChannel

  /** The guards as written: `ch >= 128` throws, so the guard `ch >= 128 && toggleOn`
    * and the disable-all branch `ch == 128 && !toggleOn` after it are never reached. */
  function CalBranchAsWritten(ch: nat, toggleOn: bool): (b: CalBranch)
    ensures b == Rejected <==> ch >= 128
    ensures b != DisableAll
  {
    if ch >= 128 then Rejected
    else if ch >= 128 && toggleOn then Rejected
    else if ch == 128 && !toggleOn then DisableAll
    else PerChannel
  }

  /** The guards as the messages describe them: a channel above 128 is invalid,
    * channel 128 means all channels, which may be disabled but not enabled. */
  function CalBranchCorrected(ch: nat, toggleOn: bool): (b: CalBranch)
    ensures b == PerChannel <==> ch < 128
    ensures b == DisableAll <==> ch == 128 && !toggleOn
    ensures ch < 128 ==> b == CalBranchAsWritten(ch, toggleOn)
  {
    if ch > 128 then Rejected
    else if ch == 128 && toggleOn then Rejected
    else if ch == 128 then DisableAll
    else PerChannel
  }

  function CalPulseName(ohN: nat, v: nat, ch: nat): string
  {
    Vfat3.ChannelName(ohN, v, ch) + ".CALPULSE_ENABLE"
  }

  function CalModeName(ohN: nat, v: nat): string
  {
    Optohybrid.VfatReg(ohN, v, "CFG_CAL_MODE")
  }

  /** The calibration mode a VFAT is left in. */
  function CalMode(toggleOn: bool, currentPulse: bool): (m: Word)
    ensures m == CAL_CURRENT <==> toggleOn && currentPulse
    ensures m == CAL_VOLTAGE <==> toggleOn && !currentPulse
    ensures m == CAL_DISABLED <==> !toggleOn
  {
    if !toggleOn then CAL_DISABLED else if currentPulse then CAL_CURRENT else CAL_VOLTAGE
  }

  /** Write i of a VFAT's block for channel ch. */
  function CalWrite(ohN: nat, v: nat, ch: nat, toggleOn: bool, currentPulse: bool, calScale: Word, i: nat): (string, Word)
  {
    if i == 0 then (CalPulseName(ohN, v, ch), if toggleOn then 1 else 0)
    else if i == 1 then (CalModeName(ohN, v), CalMode(toggleOn, currentPulse))
    else if i == 2 then (Optohybrid.VfatReg(ohN, v, "CFG_CAL_FS"), calScale)
    else (Optohybrid.VfatReg(ohN, v, "CFG_CAL_DUR"), 0)
  }

  /** One used VFAT's writes for channel ch: the channel's pulse enable, then the
    * mode, and with a current pulse also the scale factor and a zero duration. */
  function CalBlock(ohN: nat, v: nat, ch: nat, toggleOn: bool, currentPulse: bool, calScale: Word): (ws: seq<(string, Word)>)
    ensures |ws| == if toggleOn && currentPulse then 4 else 2
    ensures ws[0] == (CalPulseName(ohN, v, ch), if toggleOn then 1 else 0)
    ensures ws[1] == (CalModeName(ohN, v), CalMode(toggleOn, currentPulse))
    ensures |ws| == 4 ==> ws[2] == (Optohybrid.VfatReg(ohN, v, "CFG_CAL_FS"), calScale) &&
                          ws[3] == (Optohybrid.VfatReg(ohN, v, "CFG_CAL_DUR"), 0)
  {
    var n := if toggleOn && currentPulse then 4 else 2;
    seq(n, i requires 0 <= i < n => CalWrite(ohN, v, ch, toggleOn, currentPulse, calScale, i))
  }

  function CalBlocks(c: Consts, ohN: nat, ch: nat, toggleOn: bool, currentPulse: bool, calScale: Word): (bs: seq<seq<(string, Word)>>)
    ensures |bs| == c.vfatsPerOh
    ensures forall v :: 0 <= v < c.vfatsPerOh ==> bs[v] == CalBlock(ohN, v, ch, toggleOn, currentPulse, calScale)
  {
    seq(c.vfatsPerOh, v requires 0 <= v < c.vfatsPerOh => CalBlock(ohN, v, ch, toggleOn, currentPulse, calScale))
  }

  /** Write i of a VFAT's block when all channels are disabled: the 128 pulse enables
    * cleared, then the mode. */
  function DisableWrite(ohN: nat, v: nat, i: nat): (string, Word)
  {
    if i < 128 then (CalPulseName(ohN, v, i), 0) else (CalModeName(ohN, v), CAL_DISABLED)
  }

  function DisableBlock(ohN: nat, v: nat): (ws: seq<(string, Word)>)
    ensures |ws| == 129
    ensures forall i :: 0 <= i < 128 ==> ws[i] == (CalPulseName(ohN, v, i), 0)
    ensures ws[128] == (CalModeName(ohN, v), CAL_DISABLED)
  {
    seq(129, i requires 0 <= i < 129 => DisableWrite(ohN, v, i))
  }

  function DisableBlocks(c: Consts, ohN: nat): (bs: seq<seq<(string, Word)>>)
    ensures |bs| == c.vfatsPerOh
    ensures forall v :: 0 <= v < c.vfatsPerOh ==> bs[v] == DisableBlock(ohN, v)
  {
    seq(c.vfatsPerOh, v requires 0 <= v < c.vfatsPerOh => DisableBlock(ohN, v))
  }

  /** `confCalPulse(ohN, vfatMask, ch, toggleOn, currentPulse, calScaleFactor)` as
    * written: every `ch >= 128` throws before anything is written; otherwise each used
    * VFAT gets its block for channel ch. */
  method ConfCalPulseAsWritten(hw: Hardware, c: Consts, ohN: nat, mask: Word, ch: nat, toggleOn: bool,
                               currentPulse: bool, calScale: Word) returns (r: Result<()>)
    modifies hw`mem, hw`faults, hw`trace
    ensures hw.mem.Keys == old(hw.mem).Keys
    ensures ch >= 128 ==> r == Err(RuntimeError(BadArgument)) && hw.mem == old(hw.mem) && hw.trace == old(hw.trace)
    ensures r.Ok? ==> ch < 128 && Performed(old(hw.mem), hw.mem, hw.table, Effects(old(hw.trace)), Effects(hw.trace),
      UsedPlan(CalBlocks(c, ohN, ch, toggleOn, currentPulse, calScale), mask, c.vfatsPerOh))
    ensures r.Err? ==> r.error.RuntimeError?
  {
    match CalBranchAsWritten(ch, toggleOn)
    case PerChannel =>
      r := WriteUsed(hw, mask, CalBlocks(c, ohN, ch, toggleOn, currentPulse, calScale));
    case _ =>
      r := Err(RuntimeError(BadArgument));
  }

  /** `confCalPulse` with the guards it evidently intends: channel 128 with
    * `toggleOn` false clears the pulse enable of all 128 channels of every used VFAT
    * and disables its calibration mode. */
  method ConfCalPulse(hw: Hardware, c: Consts, ohN: nat, mask: Word, ch: nat, toggleOn: bool,
                      currentPulse: bool, calScale: Word) returns (r: Result<()>)
    modifies hw`mem, hw`faults, hw`trace
    ensures hw.mem.Keys == old(hw.mem).Keys
    ensures CalBranchCorrected(ch, toggleOn) == Rejected ==>
      r == Err(RuntimeError(BadArgument)) && hw.mem == old(hw.mem) && hw.trace == old(hw.trace)
    ensures r.Ok? && ch < 128 ==> Performed(old(hw.mem), hw.mem, hw.table, Effects(old(hw.trace)), Effects(hw.trace),
      UsedPlan(CalBlocks(c, ohN, ch, toggleOn, currentPulse, calScale), mask, c.vfatsPerOh))
    ensures r.Ok? && ch >= 128 ==> (ch == 128 && !toggleOn &&
      Performed(old(hw.mem), hw.mem, hw.table, Effects(old(hw.trace)), Effects(hw.trace),
                UsedPlan(DisableBlocks(c, ohN), mask, c.vfatsPerOh)))
    ensures r.Err? ==> r.error.RuntimeError?
  {
    match CalBranchCorrected(ch, toggleOn)
    case PerChannel =>
      r := WriteUsed(hw, mask, CalBlocks(c, ohN, ch, toggleOn, currentPulse, calScale));
    case DisableAll =>
      r := WriteUsed(hw, mask, DisableBlocks(c, ohN));
    case Rejected =>
      r := Err(RuntimeError(BadArgument));
  }

  // ---------------------------------------------------------------------------
  // setSingleChanMask and applyChanMask

  /** `GEM_AMC.OH.OH<ohN>.GEB.VFAT<v>.VFAT_CHANNELS.CHANNEL<chan>.MASK`. */
  function MaskName(ohN: nat, v: nat, chan: nat): string
  {
    Vfat3.ChannelName(ohN, v, chan) + ".MASK"
  }

  /** Channel ch is unmasked, every other channel masked. */
  function ChanMaskValue(ch: nat, chan: nat): (x: Word)
    ensures x == 0 <==> chan == ch
    ensures x <= 1
  {
    if chan == ch then 0 else 1
  }

  function SingleChanWrite(ohN: nat, v: nat, ch: nat, chan: nat): (string, Word)
  {
    (MaskName(ohN, v, chan), ChanMaskValue(ch, chan))
  }

  /** The 128 mask writes of `setSingleChanMask(ohN, vfatN, ch)`, channel by channel. */
  function SingleChanPlan(ohN: nat, v: nat, ch: nat): (ws: seq<(string, Word)>)
    ensures |ws| == 128
    ensures forall chan :: 0 <= chan < 128 ==> ws[chan] == SingleChanWrite(ohN, v, ch, chan)
  {
    seq(128, chan requires 0 <= chan < 128 => SingleChanWrite(ohN, v, ch, chan))
  }

  predicate MasksMapped(keys: set<Word>, table: map<string, Descriptor>, ohN: nat, v: nat, k: nat)
  {
    forall chan :: 0 <= chan < k ==> Mapped(keys, table, MaskName(ohN, v, chan))
  }

  predicate MasksReadable(mem: map<Word, Word>, table: map<string, Descriptor>, ohN: nat, v: nat, k: nat)
  {
    forall chan :: 0 <= chan < k ==> Readable(mem, table, MaskName(ohN, v, chan))
  }

  /** The 128 mask nodes of VFAT v have different addresses. */
  predicate MasksDistinct(table: map<string, Descriptor>, ohN: nat, v: nat)
  {
    forall c1, c2 :: 0 <= c1 < c2 < 128 && MaskName(ohN, v, c1) in table && MaskName(ohN, v, c2) in table ==>
      table[MaskName(ohN, v, c1)].address != table[MaskName(ohN, v, c2)].address
  }

  function MaskAddr(table: map<string, Descriptor>, ohN: nat, v: nat, chan: nat): Word
    requires MaskName(ohN, v, chan) in table
  {
    table[MaskName(ohN, v, chan)].address
  }

  /** What `setSingleChanMask` as written saves for the first k channels: each
    * address with the `readReg` value of its mask node, the field under the mask. */
  function SavedFields(mem: map<Word, Word>, table: map<string, Descriptor>, ohN: nat, v: nat, k: nat): map<Word, Word>
    requires MasksReadable(mem, table, ohN, v, k)
    decreases k
  {
    if k == 0 then map[]
    else SavedFields(mem, table, ohN, v, k - 1)[MaskAddr(table, ohN, v, k - 1) := RegValue(mem, table, MaskName(ohN, v, k - 1))]
  }

  /** The words at the first k mask addresses: what a restore must write back. */
  function SavedWords(mem: map<Word, Word>, table: map<string, Descriptor>, ohN: nat, v: nat, k: nat): map<Word, Word>
    requires MasksMapped(mem.Keys, table, ohN, v, k)
    decreases k
  {
    if k == 0 then map[]
    else SavedWords(mem, table, ohN, v, k - 1)[MaskAddr(table, ohN, v, k - 1) := mem[MaskAddr(table, ohN, v, k - 1)]]
  }

  /** The saved words are memory restricted to the mask addresses. */
  lemma {:induction false} SavedWordsRestrict(mem: map<Word, Word>, table: map<string, Descriptor>, ohN: nat, v: nat, k: nat)
    requires MasksMapped(mem.Keys, table, ohN, v, k)
    ensures forall b :: b in SavedWords(mem, table, ohN, v, k) <==> exists chan :: 0 <= chan < k && b == MaskAddr(table, ohN, v, chan)
    ensures forall b :: b in SavedWords(mem, table, ohN, v, k) ==> b in mem && SavedWords(mem, table, ohN, v, k)[b] == mem[b]
    decreases k
  {
    if k > 0 {
      SavedWordsRestrict(mem, table, ohN, v, k - 1);
    }
  }

  /** With unmasked mask nodes, the `readReg` value is the whole word, so what is saved
    * is what a restore must write back. */
  lemma {:induction false} FullMasksSaveWords(mem: map<Word, Word>, table: map<string, Descriptor>, ohN: nat, v: nat, k: nat)
    requires MasksReadable(mem, table, ohN, v, k)
    requires forall chan :: 0 <= chan < k ==> table[MaskName(ohN, v, chan)].mask == FULL
    ensures SavedFields(mem, table, ohN, v, k) == SavedWords(mem, table, ohN, v, k)
    decreases k
  {
    if k > 0 {
      FullMasksSaveWords(mem, table, ohN, v, k - 1);
      var a := MaskAddr(table, ohN, v, k - 1);
      FullMask(mem[a], 0);
    }
  }

  /** The plan's registers are the mask nodes. */
  lemma PlanMapped(keys: set<Word>, table: map<string, Descriptor>, ohN: nat, v: nat, ch: nat)
    requires MasksMapped(keys, table, ohN, v, 128)
    ensures AllMapped(keys, table, SingleChanPlan(ohN, v, ch))
  {
    var plan := SingleChanPlan(ohN, v, ch);
    forall i | 0 <= i < |plan|
      ensures Mapped(keys, table, plan[i].0)
    {
      assert plan[i].0 == MaskName(ohN, v, i);
    }
  }

  /** A mapped mask plan has its 128 mask nodes mapped. */
  lemma MappedPlanMasks(keys: set<Word>, table: map<string, Descriptor>, ohN: nat, v: nat, ch: nat)
    requires AllMapped(keys, table, SingleChanPlan(ohN, v, ch))
    ensures MasksMapped(keys, table, ohN, v, 128)
  {
    var plan := SingleChanPlan(ohN, v, ch);
    forall chan | 0 <= chan < 128
      ensures Mapped(keys, table, MaskName(ohN, v, chan))
    {
      assert plan[chan].0 == MaskName(ohN, v, chan);
    }
  }

  /** A memory that differs from m0 only where `saved` holds m0's own words gives m0
    * back once `saved` is written over it. */
  lemma Restores(m0: map<Word, Word>, m1: map<Word, Word>, saved: map<Word, Word>)
    requires m1.Keys == m0.Keys && saved.Keys <= m0.Keys
    requires forall b :: b in saved ==> saved[b] == m0[b]
    requires forall b :: b in m0 && b !in saved ==> m1[b] == m0[b]
    ensures m1 + saved == m0
  {
  }

  /** An address the saved words leave out is not written by the plan. */
  lemma OffPlan(m0: map<Word, Word>, table: map<string, Descriptor>, ohN: nat, v: nat, ch: nat, b: Word)
    requires MasksMapped(m0.Keys, table, ohN, v, 128) && b !in SavedWords(m0, table, ohN, v, 128)
    ensures forall i :: 0 <= i < 128 ==> table[SingleChanPlan(ohN, v, ch)[i].0].address != b
  {
    var plan := SingleChanPlan(ohN, v, ch);
    SavedWordsRestrict(m0, table, ohN, v, 128);
    forall i | 0 <= i < 128
      ensures table[plan[i].0].address != b
    {
      assert plan[i].0 == MaskName(ohN, v, i);
      assert MaskAddr(table, ohN, v, i) in SavedWords(m0, table, ohN, v, 128);
    }
  }

  /** Writing the saved words over the memory left by the raw mask writes gives the
    * memory before them back. */
  lemma RawRestore(m0: map<Word, Word>, table: map<string, Descriptor>, ohN: nat, v: nat, ch: nat)
    requires MasksMapped(m0.Keys, table, ohN, v, 128)
    ensures AllMapped(m0.Keys, table, SingleChanPlan(ohN, v, ch))
    ensures RawWriteAll(m0, table, SingleChanPlan(ohN, v, ch)) + SavedWords(m0, table, ohN, v, 128) == m0
  {
    var plan := SingleChanPlan(ohN, v, ch);
    var saved := SavedWords(m0, table, ohN, v, 128);
    PlanMapped(m0.Keys, table, ohN, v, ch);
    var m1 := RawWriteAll(m0, table, plan);
    SavedWordsRestrict(m0, table, ohN, v, 128);
    forall b | b in m0 && b !in saved
      ensures m1[b] == m0[b]
    {
      OffPlan(m0, table, ohN, v, ch, b);
      RawWriteAllOutside(m0, table, plan, b);
    }
    Restores(m0, m1, saved);
  }

  /** The same for the masked writes `writeReg` makes. */
  lemma MaskedRestore(m0: map<Word, Word>, table: map<string, Descriptor>, ohN: nat, v: nat, ch: nat)
    requires MasksMapped(m0.Keys, table, ohN, v, 128)
    ensures AllMapped(m0.Keys, table, SingleChanPlan(ohN, v, ch))
    ensures WriteAll(m0, table, SingleChanPlan(ohN, v, ch)) + SavedWords(m0, table, ohN, v, 128) == m0
  {
    var plan := SingleChanPlan(ohN, v, ch);
    var saved := SavedWords(m0, table, ohN, v, 128);
    PlanMapped(m0.Keys, table, ohN, v, ch);
    var m1 := WriteAll(m0, table, plan);
    SavedWordsRestrict(m0, table, ohN, v, 128);
    forall b | b in m0 && b !in saved
      ensures m1[b] == m0[b]
    {
      OffPlan(m0, table, ohN, v, ch, b);
      WriteAllOutside(m0, table, plan, b);
    }
    Restores(m0, m1, saved);
  }

  /** The first k channels of `setSingleChanMask` as written: their raw writes made,
    * and, when the mask nodes have different addresses, their fields saved. */
  predicate FieldsSavedSoFar(m0: map<Word, Word>, m: map<Word, Word>, table: map<string, Descriptor>,
                             e0: seq<Event>, e: seq<Event>, ohN: nat, v: nat, ch: nat, k: nat, saved: map<Word, Word>)
  {
    k <= 128 && RawPerformed(m0, m, table, e0, e, SingleChanPlan(ohN, v, ch)[..k]) &&
    (MasksDistinct(table, ohN, v) ==> MasksReadable(m0, table, ohN, v, k) && saved == SavedFields(m0, table, ohN, v, k))
  }

  /** `setSingleChanMask(ohN, vfatN, ch)` as written: for each of the 128 channels,
    * `getAddress` of its mask node, `readReg` of the node saved under that address,
    * and `writeRawAddress` of 0 for channel ch and 1 for the others, the whole word. */
  method SetSingleChanMaskAsWritten(hw: Hardware, ohN: nat, v: nat, ch: nat) returns (r: Result<map<Word, Word>>)
    modifies hw`mem, hw`faults, hw`trace
    ensures hw.mem.Keys == old(hw.mem).Keys
    ensures r.Ok? ==> RawPerformed(old(hw.mem), hw.mem, hw.table, Effects(old(hw.trace)), Effects(hw.trace), SingleChanPlan(ohN, v, ch))
    ensures r.Ok? && MasksDistinct(hw.table, ohN, v) ==>
      MasksReadable(old(hw.mem), hw.table, ohN, v, 128) && r.value == SavedFields(old(hw.mem), hw.table, ohN, v, 128)
    ensures r.Ok? && ChannelMaskNodes(old(hw.mem).Keys, hw.table, ohN, v) ==>
      forall chan :: 0 <= chan < 128 ==> ChanUnmasked(hw.mem, hw.table, ohN, v, chan)
    ensures r.Err? ==> r.error.RuntimeError?
  {
    ghost var m0 := hw.mem;
    ghost var e0 := Effects(hw.trace);
    RawPerformedNothing(m0, hw.table, e0);
    var saved: map<Word, Word> := map[];
    var chan := 0;
    while chan < 128
      invariant 0 <= chan <= 128
      invariant hw.mem.Keys == m0.Keys
      invariant FieldsSavedSoFar(m0, hw.mem, hw.table, e0, Effects(hw.trace), ohN, v, ch, chan, saved)
    {
      var x := FieldSaveStep(hw, ohN, v, ch, chan, saved, m0, e0);
      if x.Err? {
        return Err(x.error);
      }
      saved := x.value;
      chan := chan + 1;
    }
    assert SingleChanPlan(ohN, v, ch)[..128] == SingleChanPlan(ohN, v, ch);
    if ChannelMaskNodes(m0.Keys, hw.table, ohN, v) {
      AsWrittenMasksNothing(m0, hw.table, ohN, v, ch);
    }
    r := Ok(saved);
  }

  /** Channel `chan` of `setSingleChanMask` as written. */
  method FieldSaveStep(hw: Hardware, ohN: nat, v: nat, ch: nat, chan: nat, saved: map<Word, Word>,
                       ghost m0: map<Word, Word>, ghost e0: seq<Event>) returns (r: Result<map<Word, Word>>)
    requires chan < 128 && hw.mem.Keys == m0.Keys
    requires FieldsSavedSoFar(m0, hw.mem, hw.table, e0, Effects(hw.trace), ohN, v, ch, chan, saved)
    modifies hw`mem, hw`faults, hw`trace
    ensures hw.mem.Keys == m0.Keys
    ensures r.Ok? ==> FieldsSavedSoFar(m0, hw.mem, hw.table, e0, Effects(hw.trace), ohN, v, ch, chan + 1, r.value)
    ensures r.Err? ==> r.error.RuntimeError?
  {
    var plan := SingleChanPlan(ohN, v, ch);
    var name := MaskName(ohN, v, chan);
    var a := hw.GetAddress(name);
    if a.Err? {
      return Err(a.error);
    }
    var x := hw.Get(name);
    if x.Err? {
      return Err(x.error);
    }
    ghost var m1 := hw.mem;
    ghost var e1 := Effects(hw.trace);
    var w := hw.SetRaw(a.value, ChanMaskValue(ch, chan));
    if w.Err? {
      return Err(w.error);
    }
    FieldSaveAdvance(m0, m1, hw.mem, hw.table, e0, e1, Effects(hw.trace), ohN, v, ch, chan, saved, x.value);
    r := Ok(saved[a.value := x.value]);
  }

  /** One channel of `setSingleChanMask` as written extends what the first `chan`
    * channels did: the raw write of its value joins the plan, and its field, unchanged
    * by the earlier writes when the addresses differ, joins the saved map. */
  lemma FieldSaveAdvance(m0: map<Word, Word>, m1: map<Word, Word>, m2: map<Word, Word>, table: map<string, Descriptor>,
                         e0: seq<Event>, e1: seq<Event>, e2: seq<Event>, ohN: nat, v: nat, ch: nat, chan: nat,
                         saved: map<Word, Word>, x: Word)
    requires chan < 128 && m1.Keys == m0.Keys
    requires FieldsSavedSoFar(m0, m1, table, e0, e1, ohN, v, ch, chan, saved)
    requires Readable(m1, table, MaskName(ohN, v, chan)) && x == RegValue(m1, table, MaskName(ohN, v, chan))
    requires m2 == m1[MaskAddr(table, ohN, v, chan) := ChanMaskValue(ch, chan)]
    requires e2 == e1 + [RawWrite(MaskAddr(table, ohN, v, chan), ChanMaskValue(ch, chan))]
    ensures FieldsSavedSoFar(m0, m2, table, e0, e2, ohN, v, ch, chan + 1, saved[MaskAddr(table, ohN, v, chan) := x])
  {
    var plan := SingleChanPlan(ohN, v, ch);
    var name := MaskName(ohN, v, chan);
    RawWriteOne(m1, table, name, ChanMaskValue(ch, chan));
    assert plan[chan] == (name, ChanMaskValue(ch, chan));
    RawPerformedStep(m0, m1, m2, table, e0, e1, e2, plan[..chan], [plan[chan]]);
    assert plan[..chan] + [plan[chan]] == plan[..chan + 1];
    if MasksDistinct(table, ohN, v) {
      forall i | 0 <= i < |plan[..chan]|
        ensures table[plan[..chan][i].0].address != MaskAddr(table, ohN, v, chan)
      {
        assert plan[..chan][i].0 == MaskName(ohN, v, i);
      }
      RawWriteAllOutside(m0, table, plan[..chan], MaskAddr(table, ohN, v, chan));
    }
  }

  /** The first k channels of the corrected `setSingleChanMask`: their mask fields
    * written, and, when the mask nodes have different addresses, their words saved. */
  predicate WordsSavedSoFar(m0: map<Word, Word>, m: map<Word, Word>, table: map<string, Descriptor>,
                            e0: seq<Event>, e: seq<Event>, ohN: nat, v: nat, ch: nat, k: nat, saved: map<Word, Word>)
  {
    k <= 128 && Performed(m0, m, table, e0, e, SingleChanPlan(ohN, v, ch)[..k]) &&
    MasksMapped(m0.Keys, table, ohN, v, k) &&
    (MasksDistinct(table, ohN, v) ==> saved == SavedWords(m0, table, ohN, v, k))
  }

  /** `setSingleChanMask` as it is evidently meant: the whole word at each mask
    * address saved with `readRawAddress`, so that `applyChanMask` can write it back,
    * and the mask field alone set with `writeReg`. */
  method SetSingleChanMask(hw: Hardware, ohN: nat, v: nat, ch: nat) returns (r: Result<map<Word, Word>>)
    modifies hw`mem, hw`faults, hw`trace
    ensures hw.mem.Keys == old(hw.mem).Keys
    ensures r.Ok? ==> Performed(old(hw.mem), hw.mem, hw.table, Effects(old(hw.trace)), Effects(hw.trace), SingleChanPlan(ohN, v, ch))
    ensures r.Ok? ==> MasksMapped(old(hw.mem).Keys, hw.table, ohN, v, 128)
    ensures r.Ok? && MasksDistinct(hw.table, ohN, v) ==> r.value == SavedWords(old(hw.mem), hw.table, ohN, v, 128)
    ensures r.Err? ==> r.error.RuntimeError?
  {
    ghost var m0 := hw.mem;
    ghost var e0 := Effects(hw.trace);
    PerformedNothing(m0, hw.table, e0);
    var saved: map<Word, Word> := map[];
    var chan := 0;
    while chan < 128
      invariant 0 <= chan <= 128
      invariant hw.mem.Keys == m0.Keys
      invariant WordsSavedSoFar(m0, hw.mem, hw.table, e0, Effects(hw.trace), ohN, v, ch, chan, saved)
    {
      var x := WordSaveStep(hw, ohN, v, ch, chan, saved, m0, e0);
      if x.Err? {
        return Err(x.error);
      }
      saved := x.value;
      chan := chan + 1;
    }
    assert SingleChanPlan(ohN, v, ch)[..128] == SingleChanPlan(ohN, v, ch);
    r := Ok(saved);
  }

  /** Channel `chan` of the corrected `setSingleChanMask`. */
  method WordSaveStep(hw: Hardware, ohN: nat, v: nat, ch: nat, chan: nat, saved: map<Word, Word>,
                      ghost m0: map<Word, Word>, ghost e0: seq<Event>) returns (r: Result<map<Word, Word>>)
    requires chan < 128 && hw.mem.Keys == m0.Keys
    requires WordsSavedSoFar(m0, hw.mem, hw.table, e0, Effects(hw.trace), ohN, v, ch, chan, saved)
    modifies hw`mem, hw`faults, hw`trace
    ensures hw.mem.Keys == m0.Keys
    ensures r.Ok? ==> WordsSavedSoFar(m0, hw.mem, hw.table, e0, Effects(hw.trace), ohN, v, ch, chan + 1, r.value)
    ensures r.Err? ==> r.error.RuntimeError?
  {
    var plan := SingleChanPlan(ohN, v, ch);
    var name := MaskName(ohN, v, chan);
    var a := hw.GetAddress(name);
    if a.Err? {
      return Err(a.error);
    }
    var x := hw.GetRaw(a.value);
    if x.Err? {
      return Err(x.error);
    }
    ghost var m1 := hw.mem;
    ghost var e1 := Effects(hw.trace);
    var w := hw.Set(name, ChanMaskValue(ch, chan));
    if w.Err? {
      return Err(w.error);
    }
    WordSaveAdvance(m0, m1, hw.mem, hw.table, e0, e1, Effects(hw.trace), ohN, v, ch, chan, saved, x.value);
    r := Ok(saved[a.value := x.value]);
  }

  /** One channel of the corrected `setSingleChanMask` extends what the first `chan`
    * channels did: the write of its field joins the plan, and its word, unchanged by
    * the earlier writes when the addresses differ, joins the saved map. */
  lemma WordSaveAdvance(m0: map<Word, Word>, m1: map<Word, Word>, m2: map<Word, Word>, table: map<string, Descriptor>,
                        e0: seq<Event>, e1: seq<Event>, e2: seq<Event>, ohN: nat, v: nat, ch: nat, chan: nat,
                        saved: map<Word, Word>, x: Word)
    requires chan < 128 && m1.Keys == m0.Keys
    requires WordsSavedSoFar(m0, m1, table, e0, e1, ohN, v, ch, chan, saved)
    requires Mapped(m1.Keys, table, MaskName(ohN, v, chan)) && x == m1[MaskAddr(table, ohN, v, chan)]
    requires m2 == RegWritten(m1, table, MaskName(ohN, v, chan), ChanMaskValue(ch, chan))
    requires e2 == e1 + [Write(MaskName(ohN, v, chan), ChanMaskValue(ch, chan))]
    ensures WordsSavedSoFar(m0, m2, table, e0, e2, ohN, v, ch, chan + 1, saved[MaskAddr(table, ohN, v, chan) := x])
  {
    var plan := SingleChanPlan(ohN, v, ch);
    var name := MaskName(ohN, v, chan);
    WriteOne(m1, table, name, ChanMaskValue(ch, chan));
    assert plan[chan] == (name, ChanMaskValue(ch, chan));
    PerformedStep(m0, m1, m2, table, e0, e1, e2, plan[..chan], [plan[chan]]);
    assert plan[..chan] + [plan[chan]] == plan[..chan + 1];
    if MasksDistinct(table, ohN, v) {
      forall i | 0 <= i < |plan[..chan]|
        ensures table[plan[..chan][i].0].address != MaskAddr(table, ohN, v, chan)
      {
        assert plan[..chan][i].0 == MaskName(ohN, v, i);
      }
      WriteAllOutside(m0, table, plan[..chan], MaskAddr(table, ohN, v, chan));
    }
  }

  // ---------------------------------------------------------------------------
  // applyChanMask

  /** The raw writes that put back `saved` in the order `order`. */
  function RestoreWrites(saved: map<Word, Word>, order: seq<Word>): (es: seq<Event>)
    requires forall i :: 0 <= i < |order| ==> order[i] in saved
    decreases |order|
  {
    if order == [] then []
    else RestoreWrites(saved, order[..|order| - 1]) + [RawWrite(order[|order| - 1], saved[order[|order| - 1]])]
  }

  /** `applyChanMask(chMasks)`: `writeRawAddress(address, word)` for every entry of the
    * map, each address once, in the unspecified iteration order of an
    * `std::unordered_map`, returned here as `order`. */
  method ApplyChanMask(hw: Hardware, saved: map<Word, Word>) returns (r: Result<()>, ghost order: seq<Word>)
    modifies hw`mem, hw`faults, hw`trace
    ensures hw.mem.Keys == old(hw.mem).Keys
    ensures r.Ok? ==> saved.Keys <= old(hw.mem).Keys && hw.mem == old(hw.mem) + saved
    ensures r.Ok? ==> (forall a :: a in order <==> a in saved) && (forall i, j :: 0 <= i < j < |order| ==> order[i] != order[j])
    ensures r.Ok? ==> Effects(hw.trace) == Effects(old(hw.trace)) + RestoreWrites(saved, order)
    ensures r.Err? ==> r.error.RuntimeError?
  {
    ghost var m0 := hw.mem;
    ghost var e0 := Effects(hw.trace);
    var todo := saved.Keys;
    ghost var done: set<Word> := {};
    order := [];
    while todo != {}
      invariant done + todo == saved.Keys && done !! todo
      invariant hw.mem.Keys == m0.Keys
      invariant Applied(m0, hw.mem, saved, done, e0, Effects(hw.trace), order)
      decreases todo
    {
      var a :| a in todo;
      r := ApplyOne(hw, saved, a, m0, e0, done, order);
      if r.Err? {
        return;
      }
      order := order + [a];
      todo := todo - {a};
      done := done + {a};
    }
    Overlaid(m0, hw.mem, saved);
    r := Ok(());
  }

  /** One entry of `applyChanMask`: `writeRawAddress(a, saved[a])`. */
  method ApplyOne(hw: Hardware, saved: map<Word, Word>, a: Word, ghost m0: map<Word, Word>, ghost e0: seq<Event>,
                  ghost done: set<Word>, ghost order: seq<Word>) returns (r: Result<()>)
    requires Applied(m0, hw.mem, saved, done, e0, Effects(hw.trace), order) && a in saved && a !in done
    modifies hw`mem, hw`faults, hw`trace
    ensures hw.mem.Keys == m0.Keys
    ensures r.Ok? ==> Applied(m0, hw.mem, saved, done + {a}, e0, Effects(hw.trace), order + [a])
    ensures r.Err? ==> r.error.RuntimeError?
  {
    ghost var m1 := hw.mem;
    ghost var e1 := Effects(hw.trace);
    r := hw.SetRaw(a, saved[a]);
    if r.Ok? {
      ApplyAdvance(m0, m1, hw.mem, saved, done, e0, e1, Effects(hw.trace), order, a);
    }
  }

  /** The entries `done` of `saved` written back, each once, in the order `order`. */
  ghost predicate Applied(m0: map<Word, Word>, m: map<Word, Word>, saved: map<Word, Word>, done: set<Word>,
                    e0: seq<Event>, e: seq<Event>, order: seq<Word>)
  {
    done <= saved.Keys && done <= m0.Keys && m.Keys == m0.Keys &&
    (forall a :: a in order <==> a in done) &&
    (forall i, j :: 0 <= i < j < |order| ==> order[i] != order[j]) &&
    (forall a :: a in m0 ==> m[a] == if a in done then saved[a] else m0[a]) &&
    e == e0 + RestoreWrites(saved, order)
  }

  /** Writing back one more entry of `saved`. */
  lemma ApplyAdvance(m0: map<Word, Word>, m1: map<Word, Word>, m2: map<Word, Word>, saved: map<Word, Word>, done: set<Word>,
                     e0: seq<Event>, e1: seq<Event>, e2: seq<Event>, order: seq<Word>, a: Word)
    requires Applied(m0, m1, saved, done, e0, e1, order)
    requires a in saved && a !in done && a in m1
    requires m2 == m1[a := saved[a]] && e2 == e1 + [RawWrite(a, saved[a])]
    ensures Applied(m0, m2, saved, done + {a}, e0, e2, order + [a])
  {
    assert (order + [a])[..|order|] == order;
    assert RestoreWrites(saved, order + [a]) == RestoreWrites(saved, order) + [RawWrite(a, saved[a])];
    Associative(e0, RestoreWrites(saved, order), [RawWrite(a, saved[a])]);
  }

  /** A memory that holds `saved` on its keys and `m0` elsewhere is `m0 + saved`. */
  lemma Overlaid(m0: map<Word, Word>, m: map<Word, Word>, saved: map<Word, Word>)
    requires saved.Keys <= m0.Keys && m.Keys == m0.Keys
    requires forall a :: a in m0 ==> m[a] == if a in saved then saved[a] else m0[a]
    ensures m == m0 + saved
  {
  }

  // ---------------------------------------------------------------------------
  // What the saved masks restore

  lemma Pow2Of14()
    ensures Pow2(14) == 0x4000
  {
    Pow2Values();
  }

  /** `0x4000` has bit 14 set and no other. */
  lemma Mask14Bits(j: nat)
    ensures Bit(0x4000, j) <==> j == 14
  {
    Pow2Of14();
    SinglePow2(14, j);
  }

  lemma Mask14Shift()
    ensures Tz(0x4000) == 14 && Shr(0x4000, 14) == 1
  {
    Mask14Bits(14);
    TzAt(0x4000);
    Mask14Bits(Tz(0x4000));
    Pow2Of14();
    LowBits(0x4000, 14);
  }

  lemma Bit14FieldBit(w: Word, i: nat)
    ensures Bit(Extract(w, 0x4000), i) == (i == 0 && Bit(w, 14))
  {
    Mask14Shift();
    BitShr(And(w, 0x4000), 14, i);
    BitAnd(w, 0x4000, i + 14);
    Mask14Bits(i + 14);
  }

  /** The mask field of a VFAT3 channel register is bit 14 (mask `0x4000`): its value
    * is that bit of the word. */
  lemma Bit14Field(w: Word)
    ensures Extract(w, 0x4000) == if Bit(w, 14) then 1 else 0
  {
    var f := Extract(w, 0x4000);
    var b: Word := if Bit(w, 14) then 1 else 0;
    forall i | 0 <= i < 32
      ensures Bit(f, i) == Bit(b, i)
    {
      Bit14FieldBit(w, i);
      SinglePow2(0, i);
      BitZero(i);
    }
    WordExt(f, b);
  }

  /** A word below `0x4000`, such as the 0 or 1 that `setSingleChanMask` as written
    * writes, has its bit-14 field clear: the channel reads as unmasked. */
  lemma SmallWordUnmasked(x: Word)
    requires x < 0x4000
    ensures Extract(x, 0x4000) == 0
  {
    Pow2Of14();
    BitHigh(x, 14, 14);
    Bit14Field(x);
  }

  /** The 128 mask nodes of VFAT v are in the table with address in `keys` and the
    * channel register's mask field, bit 14. */
  predicate ChannelMaskNodes(keys: set<Word>, table: map<string, Descriptor>, ohN: nat, v: nat)
  {
    MasksMapped(keys, table, ohN, v, 128) && MasksDistinct(table, ohN, v) &&
    forall chan :: 0 <= chan < 128 ==> table[MaskName(ohN, v, chan)].mask == 0x4000
  }

  /** The writes of one mask plan go to 128 different addresses. */
  lemma PlanDistinct(keys: set<Word>, table: map<string, Descriptor>, ohN: nat, v: nat, ch: nat)
    requires MasksMapped(keys, table, ohN, v, 128) && MasksDistinct(table, ohN, v)
    ensures AllMapped(keys, table, SingleChanPlan(ohN, v, ch)) && DistinctTargets(keys, table, SingleChanPlan(ohN, v, ch))
  {
    var plan := SingleChanPlan(ohN, v, ch);
    PlanMapped(keys, table, ohN, v, ch);
    forall i, j | 0 <= i < j < |plan|
      ensures table[plan[i].0].address != table[plan[j].0].address
    {
      assert plan[i].0 == MaskName(ohN, v, i) && plan[j].0 == MaskName(ohN, v, j);
    }
  }

  /** The corrected `setSingleChanMask` leaves channel ch unmasked and masks every
    * other channel of the VFAT. */
  lemma ChanMasksSet(m0: map<Word, Word>, table: map<string, Descriptor>, ohN: nat, v: nat, ch: nat)
    requires ChannelMaskNodes(m0.Keys, table, ohN, v)
    ensures AllMapped(m0.Keys, table, SingleChanPlan(ohN, v, ch))
    ensures forall chan :: 0 <= chan < 128 ==>
      RegValue(WriteAll(m0, table, SingleChanPlan(ohN, v, ch)), table, MaskName(ohN, v, chan)) == ChanMaskValue(ch, chan)
  {
    PlanDistinct(m0.Keys, table, ohN, v, ch);
    forall chan | 0 <= chan < 128
      ensures RegValue(WriteAll(m0, table, SingleChanPlan(ohN, v, ch)), table, MaskName(ohN, v, chan)) == ChanMaskValue(ch, chan)
    {
      ChanMaskSetAt(m0, table, ohN, v, ch, chan);
    }
  }

  lemma ChanMaskSetAt(m0: map<Word, Word>, table: map<string, Descriptor>, ohN: nat, v: nat, ch: nat, chan: nat)
    requires chan < 128 && ChannelMaskNodes(m0.Keys, table, ohN, v)
    requires AllMapped(m0.Keys, table, SingleChanPlan(ohN, v, ch)) && DistinctTargets(m0.Keys, table, SingleChanPlan(ohN, v, ch))
    ensures RegValue(WriteAll(m0, table, SingleChanPlan(ohN, v, ch)), table, MaskName(ohN, v, chan)) == ChanMaskValue(ch, chan)
  {
    var plan := SingleChanPlan(ohN, v, ch);
    assert plan[chan] == (MaskName(ohN, v, chan), ChanMaskValue(ch, chan));
    WriteAllReads(m0, table, plan, chan);
    ExtractInsert(m0[MaskAddr(table, ohN, v, chan)], ChanMaskValue(ch, chan), 0x4000);
    Mask14Shift();
    AndOne(ChanMaskValue(ch, chan));
  }

  /** `setSingleChanMask` as written masks no channel at all: the raw 1 it writes to
    * a channel register clears that register's bit-14 mask field. */
  lemma AsWrittenMasksNothing(m0: map<Word, Word>, table: map<string, Descriptor>, ohN: nat, v: nat, ch: nat)
    requires ChannelMaskNodes(m0.Keys, table, ohN, v)
    ensures AllMapped(m0.Keys, table, SingleChanPlan(ohN, v, ch))
    ensures forall chan :: 0 <= chan < 128 ==>
      RegValue(RawWriteAll(m0, table, SingleChanPlan(ohN, v, ch)), table, MaskName(ohN, v, chan)) == 0
  {
    var plan := SingleChanPlan(ohN, v, ch);
    PlanDistinct(m0.Keys, table, ohN, v, ch);
    forall chan | 0 <= chan < 128
      ensures RegValue(RawWriteAll(m0, table, plan), table, MaskName(ohN, v, chan)) == 0
    {
      assert plan[chan] == (MaskName(ohN, v, chan), ChanMaskValue(ch, chan));
      RawWriteAllReads(m0, table, plan, chan);
      SmallWordUnmasked(ChanMaskValue(ch, chan));
    }
  }

  /** Each mask address of the first k channels is saved, with the field its node held. */
  lemma {:induction false} SavedFieldsAt(mem: map<Word, Word>, table: map<string, Descriptor>, ohN: nat, v: nat, k: nat, chan: nat)
    requires MasksReadable(mem, table, ohN, v, k) && MasksDistinct(table, ohN, v) && chan < k <= 128
    ensures MaskAddr(table, ohN, v, chan) in SavedFields(mem, table, ohN, v, k)
    ensures SavedFields(mem, table, ohN, v, k)[MaskAddr(table, ohN, v, chan)] == RegValue(mem, table, MaskName(ohN, v, chan))
    decreases k
  {
    if chan < k - 1 {
      SavedFieldsAt(mem, table, ohN, v, k - 1, chan);
    }
  }

  /** What `setSingleChanMask` as written saves from bit-14 mask nodes is 0 or 1. */
  lemma {:induction false} SavedFieldsSmall(mem: map<Word, Word>, table: map<string, Descriptor>, ohN: nat, v: nat, k: nat)
    requires MasksReadable(mem, table, ohN, v, k) && k <= 128
    requires forall chan :: 0 <= chan < k ==> table[MaskName(ohN, v, chan)].mask == 0x4000
    ensures forall a :: a in SavedFields(mem, table, ohN, v, k) ==> SavedFields(mem, table, ohN, v, k)[a] <= 1
    decreases k
  {
    if k > 0 {
      SavedFieldsSmall(mem, table, ohN, v, k - 1);
      Bit14Field(mem[MaskAddr(table, ohN, v, k - 1)]);
    }
  }

  /** Writing back what the corrected `setSingleChanMask` saved puts every channel
    * register of the VFAT back as it was, whatever the scan wrote in between. */
  lemma RestoreMasksExact(m0: map<Word, Word>, m1: map<Word, Word>, table: map<string, Descriptor>, ohN: nat, v: nat)
    requires MasksMapped(m0.Keys, table, ohN, v, 128)
    ensures forall chan :: 0 <= chan < 128 ==>
      MaskAddr(table, ohN, v, chan) in m1 + SavedWords(m0, table, ohN, v, 128) &&
      (m1 + SavedWords(m0, table, ohN, v, 128))[MaskAddr(table, ohN, v, chan)] == m0[MaskAddr(table, ohN, v, chan)]
  {
    SavedWordsRestrict(m0, table, ohN, v, 128);
  }

  /** Writing back what `setSingleChanMask` as written saved leaves every channel of
    * the VFAT unmasked, whatever its mask was before: each saved value is the 0 or 1
    * of the mask field, written back raw over the whole channel register. */
  lemma AsWrittenRestoreUnmasks(m0: map<Word, Word>, m1: map<Word, Word>, table: map<string, Descriptor>, ohN: nat, v: nat)
    requires MasksReadable(m0, table, ohN, v, 128) && ChannelMaskNodes(m0.Keys, table, ohN, v)
    ensures forall chan :: 0 <= chan < 128 ==>
      MaskAddr(table, ohN, v, chan) in m1 + SavedFields(m0, table, ohN, v, 128) &&
      RegValue(m1 + SavedFields(m0, table, ohN, v, 128), table, MaskName(ohN, v, chan)) == 0
  {
    forall chan | 0 <= chan < 128
      ensures MaskAddr(table, ohN, v, chan) in m1 + SavedFields(m0, table, ohN, v, 128)
      ensures RegValue(m1 + SavedFields(m0, table, ohN, v, 128), table, MaskName(ohN, v, chan)) == 0
    {
      var a := MaskAddr(table, ohN, v, chan);
      SavedFieldsAt(m0, table, ohN, v, 128, chan);
      Bit14Field(m0[a]);
      SmallWordUnmasked(RegValue(m0, table, MaskName(ohN, v, chan)));
    }
  }

  // ---------------------------------------------------------------------------
  // genScan

  /** The checks `genScan` makes before it writes anything: every unmasked VFAT in
    * sync, then a current pulse only with a calibration scale factor of two bits. */
  method GenScanGuard(hw: Hardware, c: Consts, ohN: nat, mask: Word, currentPulse: bool, calScale: Word) returns (r: Result<()>)
    requires Valid(c)
    modifies hw`faults, hw`trace
    ensures r.Ok? ==> (Vfat3.LinkReadable(hw.mem, hw.table, ohN, c.vfatsPerOh) &&
      UnmaskedGood(mask, Vfat3.GoodVfats(hw.mem, hw.table, ohN, c.vfatsPerOh)) && !(currentPulse && calScale > 3))
    ensures currentPulse && calScale > 3 ==> r.Err?
    ensures r.Err? ==> r.error.RuntimeError?
    ensures Effects(hw.trace) == Effects(old(hw.trace))
  {
    r := Vfat3.RequireSynced(hw, c, ohN, mask);
    if r.Ok? && currentPulse && calScale > 3 {
      r := Err(RuntimeError(BadArgument));
    }
  }

  function GoodEventsName(v: nat): string
  {
    "GEM_AMC.GEM_TESTS.VFAT_DAQ_MONITOR.VFAT" + Dec(v) + ".GOOD_EVENTS_COUNT"
  }

  const L1A_COUNTER := "GEM_AMC.TTC.CMD_COUNTERS.L1A"

  /** The addresses of the good-event counters of VFATs 0 to n - 1. */
  function DaqAddrs(table: map<string, Descriptor>, n: nat): (addrs: seq<Word>)
    requires forall v :: 0 <= v < n ==> GoodEventsName(v) in table
    ensures |addrs| == n && forall v :: 0 <= v < n ==> addrs[v] == table[GoodEventsName(v)].address
  {
    seq(n, v requires 0 <= v < n => table[GoodEventsName(v)].address)
  }

  /** `getAddress` of the L1A counter and then of the good-event counter of each of the
    * VFATs, in VFAT order; the first unknown name throws. */
  method DaqMonAddresses(hw: Hardware, c: Consts) returns (r: Result<seq<Word>>)
    ensures r.Ok? <==> L1A_COUNTER in hw.table && forall v :: 0 <= v < c.vfatsPerOh ==> GoodEventsName(v) in hw.table
    ensures r.Ok? ==> r.value == DaqAddrs(hw.table, c.vfatsPerOh)
    ensures r.Err? ==> r.error == RuntimeError(NotFound)
  {
    var l1 := hw.GetAddress(L1A_COUNTER);
    if l1.Err? {
      return Err(l1.error);
    }
    var addrs: seq<Word> := [];
    var v := 0;
    while v < c.vfatsPerOh
      invariant v <= c.vfatsPerOh && |addrs| == v
      invariant forall u :: 0 <= u < v ==> GoodEventsName(u) in hw.table && addrs[u] == hw.table[GoodEventsName(u)].address
    {
      var a := hw.GetAddress(GoodEventsName(v));
      if a.Err? {
        return Err(a.error);
      }
      addrs := addrs + [a.value];
      v := v + 1;
    }
    r := Ok(addrs);
  }

  /** Every used VFAT's counter address is in memory. */
  predicate UsedMapped(mem: map<Word, Word>, mask: Word, addrs: seq<Word>)
  {
    forall v :: 0 <= v < |addrs| && Vfat3.Used(mask, v) ==> addrs[v] in mem
  }

  /** The word `genScan` reports for VFAT v at one DAC value: its counter, or 0 when
    * it is masked. */
  function ScanWord(mem: map<Word, Word>, mask: Word, addrs: seq<Word>, v: nat): Word
    requires v < |addrs| && UsedMapped(mem, mask, addrs)
  {
    if Vfat3.Used(mask, v) then mem[addrs[v]] else 0
  }

  /** The readout at one DAC value: `readRawAddress` of each used VFAT's counter and 0
    * for each masked one, one word per VFAT in VFAT order. */
  method ScanReadout(hw: Hardware, mask: Word, addrs: seq<Word>) returns (r: Result<seq<Word>>)
    modifies hw`faults, hw`trace
    ensures r.Ok? ==> (UsedMapped(hw.mem, mask, addrs) && |r.value| == |addrs| &&
      forall v :: 0 <= v < |addrs| ==> r.value[v] == ScanWord(hw.mem, mask, addrs, v))
    ensures r.Err? ==> r.error.RuntimeError?
    ensures Effects(hw.trace) == Effects(old(hw.trace))
  {
    var row: seq<Word> := [];
    var v := 0;
    while v < |addrs|
      invariant v <= |addrs| && |row| == v
      invariant forall u :: 0 <= u < v && Vfat3.Used(mask, u) ==> addrs[u] in hw.mem
      invariant forall u :: 0 <= u < v ==> row[u] == if Vfat3.Used(mask, u) then hw.mem[addrs[u]] else 0
      invariant Effects(hw.trace) == Effects(old(hw.trace))
    {
      if !Vfat3.Used(mask, v) {
        row := row + [0];
      } else {
        var x := hw.GetRaw(addrs[v]);
        if x.Err? {
          return Err(x.error);
        }
        row := row + [x.value];
      }
      v := v + 1;
    }
    r := Ok(row);
  }

  /** The DAC values `for (dacVal = dacMin; dacVal <= dacMax; dacVal += dacStep)` visits. */
  function DacValues(dacMin: nat, dacMax: nat, dacStep: nat): (vs: seq<nat>)
    requires dacStep > 0
    ensures forall i :: 0 <= i < |vs| ==> vs[i] == dacMin + i * dacStep && vs[i] <= dacMax
    ensures dacMin + |vs| * dacStep > dacMax
    decreases dacMax + 1 - dacMin
  {
    if dacMin > dacMax then []
    else
      var rest := DacValues(dacMin + dacStep, dacMax, dacStep);
      DacValuesCons(dacMin, dacMax, dacStep, rest);
      [dacMin] + rest
  }

  /** The values from `dacMin + dacStep` on, with `dacMin` in front, are the values
    * from `dacMin` on. */
  lemma DacValuesCons(dacMin: nat, dacMax: nat, dacStep: nat, rest: seq<nat>)
    requires dacMin <= dacMax
    requires forall i :: 0 <= i < |rest| ==> rest[i] == dacMin + dacStep + i * dacStep && rest[i] <= dacMax
    requires dacMin + dacStep + |rest| * dacStep > dacMax
    ensures forall i :: 0 <= i < |rest| + 1 ==> ([dacMin] + rest)[i] == dacMin + i * dacStep && ([dacMin] + rest)[i] <= dacMax
    ensures dacMin + (|rest| + 1) * dacStep > dacMax
  {
    forall i | 0 <= i < |rest| + 1
      ensures ([dacMin] + rest)[i] == dacMin + i * dacStep
    {
      if i > 0 {
        StepMore(i - 1, dacStep);
      }
    }
    StepMore(|rest|, dacStep);
  }

  /** The DAC counter of the source's loop after k steps from dacMin; each step is
    * `dacVal += dacStep` on `uint32_t`. */
  function DacAtAsWritten(dacMin: Word, dacStep: Word, k: nat): Word
    decreases k
  {
    if k == 0 then dacMin else ErrorCounters.Add32(DacAtAsWritten(dacMin, dacStep, k - 1), dacStep)
  }

  /** As written, the counter after k steps is dacMin + k * dacStep modulo 2^32, so
    * with dacMax = 0xFFFFFFFF the guard `dacVal <= dacMax` holds after every step and
    * the loop never ends. */
  lemma {:induction false} DacLoopWrapsAsWritten(dacMin: Word, dacMax: Word, dacStep: Word, k: nat)
    requires dacMax == 0xFFFF_FFFF
    ensures DacAtAsWritten(dacMin, dacStep, k) == (dacMin + k * dacStep) % WORD
    ensures DacAtAsWritten(dacMin, dacStep, k) <= dacMax
  {
    if k > 0 {
      DacLoopWrapsAsWritten(dacMin, dacMax, dacStep, k - 1);
      var before := dacMin + (k - 1) * dacStep;
      StepMore(k - 1, dacStep);
      WrapAdd(before, dacStep);
    }
  }

  /** When dacMax + dacStep fits in 32 bits the counter never wraps: after k steps it is
    * the k-th of the values `DacValues` lists, and after the last of them it is above
    * dacMax, so the loop as written visits exactly those values. */
  lemma {:induction false} DacCounterNoWrap(dacMin: Word, dacMax: Word, dacStep: Word, k: nat)
    requires dacStep > 0 && dacMax + dacStep < WORD && k <= |DacValues(dacMin, dacMax, dacStep)|
    ensures DacAtAsWritten(dacMin, dacStep, k) == dacMin + k * dacStep
    ensures k < |DacValues(dacMin, dacMax, dacStep)| ==> DacAtAsWritten(dacMin, dacStep, k) == DacValues(dacMin, dacMax, dacStep)[k]
    ensures k == |DacValues(dacMin, dacMax, dacStep)| ==> DacAtAsWritten(dacMin, dacStep, k) > dacMax
  {
    if k > 0 {
      DacCounterNoWrap(dacMin, dacMax, dacStep, k - 1);
      StepMore(k - 1, dacStep);
    }
  }

  /** As written, dacMin = 5, dacMax = 10, dacStep = 0xFFFFFFFF visits 5, 4, 3, 2, 1, 0
    * before the counter wraps to 0xFFFFFFFF and the loop ends; the intended values are
    * 5 alone. */
  lemma DacLoopWrapExample()
    ensures forall k :: 0 <= k <= 5 ==> DacAtAsWritten(5, 0xFFFF_FFFF, k) == 5 - k
    ensures DacAtAsWritten(5, 0xFFFF_FFFF, 6) == 0xFFFF_FFFF > 10
    ensures DacValues(5, 10, 0xFFFF_FFFF) == [5]
  {
    forall k | 0 <= k <= 5
      ensures DacAtAsWritten(5, 0xFFFF_FFFF, k) == 5 - k
    {
      DacWrapDown(k);
    }
    DacWrapDown(5);
    assert DacValues(5 + 0xFFFF_FFFF, 10, 0xFFFF_FFFF) == [];
  }

  /** Adding 0xFFFFFFFF modulo 2^32 is subtracting 1. */
  lemma {:induction false} DacWrapDown(k: nat)
    requires k <= 5
    ensures DacAtAsWritten(5, 0xFFFF_FFFF, k) == 5 - k
  {
    if k > 0 {
      DacWrapDown(k - 1);
      assert (5 - (k - 1) + 0xFFFF_FFFF) % WORD == 5 - k;
    }
  }

  lemma StepMore(k: nat, step: nat)
    ensures k * step + step == (k + 1) * step
  {
  }

  /** Word j of rows of width w laid end to end, when word k*w + j' is the row's j'. */
  lemma RowPosition(j: nat, k: nat, w: nat)
    requires k * w <= j < k * w + w
    ensures j % w == j - k * w && j / w == k
  {
    DivModUnique(j, w, j - k * w, k);
  }

  const DAQ_MON_CTRL := "GEM_AMC.GEM_TESTS.VFAT_DAQ_MONITOR.CTRL."
  const TTC_CTRL := "GEM_AMC.TTC.CTRL."
  const TTC_GENERATOR := "GEM_AMC.TTC.GENERATOR."

  /** `dacMonConf(ohN, ch)`: stop and reset the DAQ monitor, select the link, then count
    * the OR of all channels (ch above 127) or channel ch alone. */
  function DacMonConfPlan(ohN: Word, ch: nat): (ws: seq<(string, Word)>)
    ensures ch > 127 ==> |ws| == 4 && ws[3] == (DAQ_MON_CTRL + "VFAT_CHANNEL_GLOBAL_OR", 1)
    ensures ch <= 127 ==> (|ws| == 5 && ws[3] == (DAQ_MON_CTRL + "VFAT_CHANNEL_SELECT", ch) &&
      ws[4] == (DAQ_MON_CTRL + "VFAT_CHANNEL_GLOBAL_OR", 0))
  {
    [(DAQ_MON_CTRL + "ENABLE", 0), (DAQ_MON_CTRL + "RESET", 1), (DAQ_MON_CTRL + "OH_SELECT", ohN)] +
    (if ch > 127 then [(DAQ_MON_CTRL + "VFAT_CHANNEL_GLOBAL_OR", 1)]
     else [(DAQ_MON_CTRL + "VFAT_CHANNEL_SELECT", ch), (DAQ_MON_CTRL + "VFAT_CHANNEL_GLOBAL_OR", 0)])
  }

  /** `dacMonConf(ohN, ch)`, stopping at the first write that throws. */
  method DacMonConf(hw: Hardware, ohN: Word, ch: nat) returns (r: Result<()>)
    modifies hw`mem, hw`faults, hw`trace
    ensures hw.mem.Keys == old(hw.mem).Keys
    ensures r.Ok? ==> Performed(old(hw.mem), hw.mem, hw.table, Effects(old(hw.trace)), Effects(hw.trace), DacMonConfPlan(ohN, ch))
    ensures r.Err? ==> r.error.RuntimeError?
  {
    r := hw.WriteRegs(DacMonConfPlan(ohN, ch));
  }

  /** The TTC set-up before the DAC loop: with external triggers, L1As blocked and
    * the counters reset; otherwise the generator's L1A count and a resync. */
  function TtcConfPlan(extTrig: bool, nevts: Word): (ws: seq<(string, Word)>)
    ensures |ws| == 2
  {
    if extTrig then [(TTC_CTRL + "L1A_ENABLE", 0), (TTC_CTRL + "CNT_RESET", 1)]
    else [(TTC_GENERATOR + "CYCLIC_L1A_COUNT", nevts), (TTC_GENERATOR + "SINGLE_RESYNC", 1)]
  }

  /** What the DAC loop of one `genScan` call keeps fixed: the link, the VFAT mask, the
    * register scanned, the trigger source and the number of VFATs. */
  datatype ScanConf = ScanConf(ohN: nat, mask: Word, scanReg: string, extTrig: bool, n: nat)

  /** The scan register of each of the first n VFATs, set to d. */
  function CfgBlocks(ohN: nat, scanReg: string, d: Word, n: nat): (bs: seq<seq<(string, Word)>>)
    ensures |bs| == n && forall v :: 0 <= v < n ==> bs[v] == [(Optohybrid.VfatReg(ohN, v, "CFG_" + scanReg), d)]
  {
    seq(n, v requires 0 <= v < n => [(Optohybrid.VfatReg(ohN, v, "CFG_" + scanReg), d)])
  }

  /** The triggers of one DAC step: with external triggers the counters reset and L1As
    * let through and blocked again; otherwise one start of the cyclic generator. */
  function TriggerPlan(extTrig: bool): (ws: seq<(string, Word)>)
  {
    if extTrig then [(TTC_CTRL + "CNT_RESET", 1), (TTC_CTRL + "L1A_ENABLE", 1), (TTC_CTRL + "L1A_ENABLE", 0)]
    else [(TTC_GENERATOR + "CYCLIC_START", 1)]
  }

  /** The DAQ monitor reset and enabled, after the scan registers of a DAC step. */
  const MONITOR_ON: seq<(string, Word)> := [(DAQ_MON_CTRL + "RESET", 1), (DAQ_MON_CTRL + "ENABLE", 1)]

  /** The first writes of one DAC step: the scan register of each used VFAT, then the
    * DAQ monitor reset and enabled. */
  function CfgPlan(g: ScanConf, d: Word): seq<(string, Word)>
  {
    UsedPlan(CfgBlocks(g.ohN, g.scanReg, d, g.n), g.mask, g.n) + MONITOR_ON
  }

  /** The last writes of one DAC step: the triggers, then the DAQ monitor stopped. */
  function StepEnd(extTrig: bool): seq<(string, Word)>
  {
    TriggerPlan(extTrig) + [(DAQ_MON_CTRL + "ENABLE", 0)]
  }

  /** The writes of the DAC step at d, before its read-out: the scan register of each
    * used VFAT, the DAQ monitor reset and enabled, the triggers, the monitor stopped. */
  function StepPlan(g: ScanConf, d: Word): seq<(string, Word)>
  {
    CfgPlan(g, d) + StepEnd(g.extTrig)
  }

  /** The writes of the DAC steps at the values vs, in order. */
  function StepsPlan(g: ScanConf, vs: seq<Word>): seq<(string, Word)>
    decreases |vs|
  {
    if vs == [] then [] else StepsPlan(g, vs[..|vs| - 1]) + StepPlan(g, vs[|vs| - 1])
  }

  lemma StepsPlanSnoc(g: ScanConf, vs: seq<Word>, d: Word)
    ensures StepsPlan(g, vs + [d]) == StepsPlan(g, vs) + StepPlan(g, d)
  {
    assert (vs + [d])[..|vs|] == vs;
  }

  /** The writes up to step k are those before it, then step k's own. */
  lemma StepsPlanAt(g: ScanConf, vs: seq<Word>, k: nat)
    requires k < |vs|
    ensures StepsPlan(g, vs[..k + 1]) == StepsPlan(g, vs[..k]) + StepPlan(g, vs[k])
  {
    assert vs[..k + 1][..k] == vs[..k];
  }

  /** `mems[k]` is the memory the read-out of step k is taken from: m1, the memory
    * before the loop, after the writes of steps 0 to k. */
  predicate StepMems(mems: seq<map<Word, Word>>, m1: map<Word, Word>, table: map<string, Descriptor>, g: ScanConf, vs: seq<Word>)
    decreases |vs|
  {
    |mems| == |vs| &&
    (vs != [] ==>
      StepMems(mems[..|mems| - 1], m1, table, g, vs[..|vs| - 1]) &&
      AllMapped(m1.Keys, table, StepsPlan(g, vs)) && mems[|mems| - 1] == WriteAll(m1, table, StepsPlan(g, vs)))
  }

  /** Recording the memory after one more step keeps StepMems. */
  lemma AppendStepMem(mems: seq<map<Word, Word>>, m1: map<Word, Word>, table: map<string, Descriptor>, g: ScanConf,
                      vs: seq<Word>, d: Word, m: map<Word, Word>)
    requires StepMems(mems, m1, table, g, vs)
    requires AllMapped(m1.Keys, table, StepsPlan(g, vs + [d])) && m == WriteAll(m1, table, StepsPlan(g, vs + [d]))
    ensures StepMems(mems + [m], m1, table, g, vs + [d])
  {
    assert (mems + [m])[..|mems|] == mems;
    assert (vs + [d])[..|vs|] == vs;
  }

  /** The memory of step k, read out of StepMems. */
  lemma {:induction false} StepMemAt(mems: seq<map<Word, Word>>, m1: map<Word, Word>, table: map<string, Descriptor>, g: ScanConf,
                                     vs: seq<Word>, k: nat)
    requires StepMems(mems, m1, table, g, vs) && k < |vs|
    ensures AllMapped(m1.Keys, table, StepsPlan(g, vs[..k + 1])) && mems[k] == WriteAll(m1, table, StepsPlan(g, vs[..k + 1]))
    decreases |vs|
  {
    if k < |vs| - 1 {
      StepMemAt(mems[..|mems| - 1], m1, table, g, vs[..|vs| - 1], k);
      assert vs[..|vs| - 1][..k + 1] == vs[..k + 1];
    } else {
      assert vs[..k + 1] == vs;
    }
  }

  /** `out` holds one read-out per memory of mems, laid end to end: word j is VFAT
    * `j % |addrs|` as read from `mems[j / |addrs|]`. */
  predicate ScanReadouts(out: seq<Word>, mems: seq<map<Word, Word>>, mask: Word, addrs: seq<Word>)
    requires |addrs| > 0
  {
    |out| == |mems| * |addrs| &&
    forall j :: 0 <= j < |out| ==>
      j / |addrs| < |mems| && UsedMapped(mems[j / |addrs|], mask, addrs) &&
      out[j] == ScanWord(mems[j / |addrs|], mask, addrs, j % |addrs|)
  }

  /** Appending the read-out of one more memory keeps the layout. */
  lemma AppendStep(out: seq<Word>, row: seq<Word>, mems: seq<map<Word, Word>>, m: map<Word, Word>, mask: Word, addrs: seq<Word>)
    requires |addrs| > 0 && ScanReadouts(out, mems, mask, addrs) && UsedMapped(m, mask, addrs)
    requires |row| == |addrs| && forall v :: 0 <= v < |row| ==> row[v] == ScanWord(m, mask, addrs, v)
    ensures ScanReadouts(out + row, mems + [m], mask, addrs)
  {
    var n := |addrs|;
    var ms := mems + [m];
    assert |out + row| == |ms| * n;
    forall j | 0 <= j < |out + row|
      ensures j / n < |ms| && UsedMapped(ms[j / n], mask, addrs) && (out + row)[j] == ScanWord(ms[j / n], mask, addrs, j % n)
    {
      if j >= |out| {
        RowPosition(j, |mems|, n);
      }
    }
  }

  /** The first writes of one DAC step, stopping at the first that throws. */
  method StepConfigure(hw: Hardware, g: ScanConf, d: Word) returns (r: Result<()>)
    modifies hw`mem, hw`faults, hw`trace
    ensures hw.mem.Keys == old(hw.mem).Keys
    ensures r.Ok? ==> Performed(old(hw.mem), hw.mem, hw.table, Effects(old(hw.trace)), Effects(hw.trace), CfgPlan(g, d))
    ensures r.Err? ==> r.error.RuntimeError?
  {
    ghost var m0, e0 := hw.mem, Effects(hw.trace);
    r := WriteUsed(hw, g.mask, CfgBlocks(g.ohN, g.scanReg, d, g.n));
    if r.Ok? {
      ghost var m1, e1 := hw.mem, Effects(hw.trace);
      r := hw.WriteRegs(MONITOR_ON);
      if r.Ok? {
        PerformedStep(m0, m1, hw.mem, hw.table, e0, e1, Effects(hw.trace), UsedPlan(CfgBlocks(g.ohN, g.scanReg, d, g.n), g.mask, g.n),
                      MONITOR_ON);
      }
    }
  }

  /** The triggers of one DAC step, the read after them and the monitor's stop: with
    * external triggers the L1A counter is read once L1As are blocked again, otherwise
    * the generator's ENABLE after the start. */
  method StepTrigger(hw: Hardware, g: ScanConf, l1: Word) returns (r: Result<()>)
    modifies hw`mem, hw`faults, hw`trace
    ensures hw.mem.Keys == old(hw.mem).Keys
    ensures r.Ok? ==> Performed(old(hw.mem), hw.mem, hw.table, Effects(old(hw.trace)), Effects(hw.trace), StepEnd(g.extTrig))
    ensures r.Err? ==> r.error.RuntimeError?
  {
    ghost var m0, e0 := hw.mem, Effects(hw.trace);
    r := hw.WriteRegs(TriggerPlan(g.extTrig));
    if r.Ok? {
      if g.extTrig {
        var x := hw.GetRaw(l1);
        r := if x.Ok? then Ok(()) else Err(x.error);
      } else {
        var x := hw.Get(TTC_GENERATOR + "ENABLE");
        r := if x.Ok? then Ok(()) else Err(x.error);
      }
      if r.Ok? {
        ghost var m1, e1 := hw.mem, Effects(hw.trace);
        r := hw.WriteRegs([(DAQ_MON_CTRL + "ENABLE", 0)]);
        if r.Ok? {
          PerformedStep(m0, m1, hw.mem, hw.table, e0, e1, Effects(hw.trace), TriggerPlan(g.extTrig), [(DAQ_MON_CTRL + "ENABLE", 0)]);
        }
      }
    }
  }

  /** The writes of one DAC step: the configuration for d, then the trigger. */
  method StepWrites(hw: Hardware, g: ScanConf, l1: Word, d: Word) returns (r: Result<()>)
    modifies hw`mem, hw`faults, hw`trace
    ensures hw.mem.Keys == old(hw.mem).Keys
    ensures r.Ok? ==> Performed(old(hw.mem), hw.mem, hw.table, Effects(old(hw.trace)), Effects(hw.trace), StepPlan(g, d))
    ensures r.Err? ==> r.error.RuntimeError?
  {
    ghost var ms, es := hw.mem, Effects(hw.trace);
    r := StepConfigure(hw, g, d);
    if r.Err? {
      return;
    }
    ghost var mc, ec := hw.mem, Effects(hw.trace);
    r := StepTrigger(hw, g, l1);
    if r.Ok? {
      PerformedStep(ms, mc, hw.mem, hw.table, es, ec, Effects(hw.trace), CfgPlan(g, d), StepEnd(g.extTrig));
    }
  }

  /** One DAC step after the steps vs: its writes, then the read-out. */
  method GenStep(hw: Hardware, g: ScanConf, addrs: seq<Word>, l1: Word, d: Word,
                 ghost m1: map<Word, Word>, ghost e1: seq<Event>, ghost vs: seq<Word>) returns (r: Result<seq<Word>>)
    requires Performed(m1, hw.mem, hw.table, e1, Effects(hw.trace), StepsPlan(g, vs))
    modifies hw`mem, hw`faults, hw`trace
    ensures hw.mem.Keys == old(hw.mem).Keys
    ensures r.Ok? ==> Performed(m1, hw.mem, hw.table, e1, Effects(hw.trace), StepsPlan(g, vs + [d]))
    ensures r.Ok? ==> (UsedMapped(hw.mem, g.mask, addrs) && |r.value| == |addrs| &&
      forall v :: 0 <= v < |addrs| ==> r.value[v] == ScanWord(hw.mem, g.mask, addrs, v))
    ensures r.Err? ==> r.error.RuntimeError?
  {
    ghost var ms, es := hw.mem, Effects(hw.trace);
    var w := StepWrites(hw, g, l1, d);
    if w.Err? {
      return Err(w.error);
    }
    PerformedStep(m1, ms, hw.mem, hw.table, e1, es, Effects(hw.trace), StepsPlan(g, vs), StepPlan(g, d));
    StepsPlanSnoc(g, vs, d);
    r := ScanReadout(hw, g.mask, addrs);
  }

  /** One DAC step of the loop of `genScan`, its read-out appended to out. */
  method ScanStep(hw: Hardware, g: ScanConf, addrs: seq<Word>, l1: Word, d: Word, ghost m1: map<Word, Word>, ghost e1: seq<Event>,
                  ghost done: seq<Word>, ghost mems: seq<map<Word, Word>>, out: seq<Word>) returns (r: Result<seq<Word>>)
    requires |addrs| > 0 && hw.mem.Keys == m1.Keys
    requires Performed(m1, hw.mem, hw.table, e1, Effects(hw.trace), StepsPlan(g, done))
    requires StepMems(mems, m1, hw.table, g, done) && ScanReadouts(out, mems, g.mask, addrs)
    modifies hw`mem, hw`faults, hw`trace
    ensures hw.mem.Keys == m1.Keys
    ensures r.Ok? ==> Performed(m1, hw.mem, hw.table, e1, Effects(hw.trace), StepsPlan(g, done + [d]))
    ensures r.Ok? ==> StepMems(mems + [hw.mem], m1, hw.table, g, done + [d])
    ensures r.Ok? ==> ScanReadouts(r.value, mems + [hw.mem], g.mask, addrs)
    ensures r.Err? ==> r.error.RuntimeError?
  {
    var row := GenStep(hw, g, addrs, l1, d, m1, e1, done);
    if row.Err? {
      return Err(row.error);
    }
    AppendStep(out, row.value, mems, hw.mem, g.mask, addrs);
    AppendStepMem(mems, m1, hw.table, g, done, d, hw.mem);
    r := Ok(out + row.value);
  }

  /** The DAC values visited so far grow by the current one. */
  lemma DacValuesAdvance(dacMin: nat, dacMax: nat, dacStep: nat, done: seq<nat>, dacVal: nat)
    requires dacStep > 0 && dacVal <= dacMax
    requires DacValues(dacMin, dacMax, dacStep) == done + DacValues(dacVal, dacMax, dacStep)
    ensures DacValues(dacMin, dacMax, dacStep) == (done + [dacVal]) + DacValues(dacVal + dacStep, dacMax, dacStep)
  {
    DacValuesUnfold(dacVal, dacMax, dacStep);
  }

  /** Once past dacMax, the DAC values visited are all of them. */
  lemma DacValuesDone(dacMin: nat, dacMax: nat, dacStep: nat, done: seq<nat>, dacVal: nat)
    requires dacStep > 0 && dacVal > dacMax
    requires DacValues(dacMin, dacMax, dacStep) == done + DacValues(dacVal, dacMax, dacStep)
    ensures DacValues(dacMin, dacMax, dacStep) == done
  {
    assert done + [] == done;
  }

  /** The DAC loop of `genScan`: at each DAC value the step's writes, then one read-out
    * appended to the output; mems records the memory each read-out is taken from. */
  method ScanSteps(hw: Hardware, g: ScanConf, addrs: seq<Word>, l1: Word, dacMin: Word, dacMax: Word, dacStep: Word)
    returns (r: Result<seq<Word>>, ghost mems: seq<map<Word, Word>>)
    requires |addrs| > 0 && dacStep > 0 && dacMax + dacStep < WORD
    modifies hw`mem, hw`faults, hw`trace
    ensures hw.mem.Keys == old(hw.mem).Keys
    ensures r.Ok? ==> Performed(old(hw.mem), hw.mem, hw.table, Effects(old(hw.trace)), Effects(hw.trace),
                                StepsPlan(g, DacValues(dacMin, dacMax, dacStep)))
    ensures r.Ok? ==> StepMems(mems, old(hw.mem), hw.table, g, DacValues(dacMin, dacMax, dacStep))
    ensures r.Ok? ==> ScanReadouts(r.value, mems, g.mask, addrs)
    ensures r.Err? ==> r.error.RuntimeError?
  {
    ghost var m1, e1 := hw.mem, Effects(hw.trace);
    PerformedNothing(m1, hw.table, e1);
    var out: seq<Word> := [];
    var dacVal: Word := dacMin;
    ghost var done: seq<Word> := [];
    mems := [];
    while dacVal <= dacMax
      invariant DacValues(dacMin, dacMax, dacStep) == done + DacValues(dacVal, dacMax, dacStep)
      invariant hw.mem.Keys == m1.Keys
      invariant Performed(m1, hw.mem, hw.table, e1, Effects(hw.trace), StepsPlan(g, done))
      invariant StepMems(mems, m1, hw.table, g, done)
      invariant ScanReadouts(out, mems, g.mask, addrs)
      decreases dacMax + dacStep - dacVal
    {
      DacValuesAdvance(dacMin, dacMax, dacStep, done, dacVal);
      var next := ScanStep(hw, g, addrs, l1, dacVal, m1, e1, done, mems, out);
      if next.Err? {
        return Err(next.error), mems;
      }
      out := next.value;
      mems := mems + [hw.mem];
      done := done + [dacVal];
      dacVal := ErrorCounters.Add32(dacVal, dacStep);
    }
    DacValuesDone(dacMin, dacMax, dacStep, done, dacVal);
    r := Ok(out);
  }

  /** The scan register of VFAT v in a `genScan` over g. */
  function CfgName(g: ScanConf, v: nat): string
  {
    Optohybrid.VfatReg(g.ohN, v, "CFG_" + g.scanReg)
  }

  /** VFAT v's scan register is in the table and shares its word with no other
    * register a DAC step writes. */
  predicate CfgApart(table: map<string, Descriptor>, g: ScanConf, v: nat)
  {
    CfgName(g, v) in table &&
    var a := table[CfgName(g, v)].address;
    (forall u :: 0 <= u < g.n && u != v && CfgName(g, u) in table ==> table[CfgName(g, u)].address != a) &&
    (forall i :: 0 <= i < |MONITOR_ON| && MONITOR_ON[i].0 in table ==> table[MONITOR_ON[i].0].address != a) &&
    (forall i :: 0 <= i < |StepEnd(g.extTrig)| && StepEnd(g.extTrig)[i].0 in table ==> table[StepEnd(g.extTrig)[i].0].address != a)
  }

  /** The scan-register write of VFAT u, if u is used, leaves VFAT v's word with d
    * inserted under its mask when u is v, and as it was otherwise. */
  lemma CfgBlockWord(m: map<Word, Word>, table: map<string, Descriptor>, g: ScanConf, d: Word, u: nat, v: nat)
    requires u < g.n && v < g.n && CfgApart(table, g, v) && table[CfgName(g, v)].address in m
    requires var blocks := CfgBlocks(g.ohN, g.scanReg, d, g.n);
      AllMapped(m.Keys, table, if Vfat3.Used(g.mask, u) then blocks[u] else [])
    ensures var blocks := CfgBlocks(g.ohN, g.scanReg, d, g.n); var a := table[CfgName(g, v)].address;
      WriteAll(m, table, if Vfat3.Used(g.mask, u) then blocks[u] else [])[a] ==
        if u == v && Vfat3.Used(g.mask, v) then Insert(m[a], d, table[CfgName(g, v)].mask) else m[a]
  {
    var blocks := CfgBlocks(g.ohN, g.scanReg, d, g.n);
    var last := if Vfat3.Used(g.mask, u) then blocks[u] else [];
    if last != [] {
      assert last == [(CfgName(g, u), d)];
      assert Mapped(m.Keys, table, last[0].0);
      assert last[..0] == [];
      assert WriteAll(m, table, last) == RegWritten(m, table, CfgName(g, u), d);
    }
  }

  /** The scan-register writes of the used VFATs among the first n leave VFAT v's word
    * with d inserted under its mask when v is one of them, and as it was otherwise. */
  lemma {:induction false} UsedCfgWord(mem: map<Word, Word>, table: map<string, Descriptor>, g: ScanConf, d: Word, n: nat, v: nat)
    requires n <= g.n && v < g.n && CfgApart(table, g, v) && table[CfgName(g, v)].address in mem
    requires AllMapped(mem.Keys, table, UsedPlan(CfgBlocks(g.ohN, g.scanReg, d, g.n), g.mask, n))
    ensures var a := table[CfgName(g, v)].address;
      WriteAll(mem, table, UsedPlan(CfgBlocks(g.ohN, g.scanReg, d, g.n), g.mask, n))[a] ==
        if v < n && Vfat3.Used(g.mask, v) then Insert(mem[a], d, table[CfgName(g, v)].mask) else mem[a]
    decreases n
  {
    if n > 0 {
      var blocks := CfgBlocks(g.ohN, g.scanReg, d, g.n);
      var front := UsedPlan(blocks, g.mask, n - 1);
      var last := if Vfat3.Used(g.mask, n - 1) then blocks[n - 1] else [];
      assert UsedPlan(blocks, g.mask, n) == front + last;
      WriteAllSplit(mem, table, front, last);
      UsedCfgWord(mem, table, g, d, n - 1, v);
      CfgBlockWord(WriteAll(mem, table, front), table, g, d, n - 1, v);
    }
  }

  /** One DAC step at d leaves VFAT v's word with d inserted under its mask when v is
    * used, and as it was when v is masked. */
  lemma StepCfgWord(mem: map<Word, Word>, table: map<string, Descriptor>, g: ScanConf, d: Word, v: nat)
    requires v < g.n && CfgApart(table, g, v) && table[CfgName(g, v)].address in mem
    requires AllMapped(mem.Keys, table, StepPlan(g, d))
    ensures var a := table[CfgName(g, v)].address;
      WriteAll(mem, table, StepPlan(g, d))[a] ==
        if Vfat3.Used(g.mask, v) then Insert(mem[a], d, table[CfgName(g, v)].mask) else mem[a]
  {
    WriteAllSplit(mem, table, CfgPlan(g, d), StepEnd(g.extTrig));
    CfgPlanWord(mem, table, g, d, v);
    WriteAllOutside(WriteAll(mem, table, CfgPlan(g, d)), table, StepEnd(g.extTrig), table[CfgName(g, v)].address);
  }

  lemma CfgPlanWord(mem: map<Word, Word>, table: map<string, Descriptor>, g: ScanConf, d: Word, v: nat)
    requires v < g.n && CfgApart(table, g, v) && table[CfgName(g, v)].address in mem
    requires AllMapped(mem.Keys, table, CfgPlan(g, d))
    ensures var a := table[CfgName(g, v)].address;
      WriteAll(mem, table, CfgPlan(g, d))[a] ==
        if Vfat3.Used(g.mask, v) then Insert(mem[a], d, table[CfgName(g, v)].mask) else mem[a]
  {
    var used := UsedPlan(CfgBlocks(g.ohN, g.scanReg, d, g.n), g.mask, g.n);
    WriteAllSplit(mem, table, used, MONITOR_ON);
    UsedCfgWord(mem, table, g, d, g.n, v);
    WriteAllOutside(WriteAll(mem, table, used), table, MONITOR_ON, table[CfgName(g, v)].address);
  }

  /** At the read-out of step k of a `genScan`, a used VFAT's scan register holds the
    * step's DAC value vs[k], cut to the register's width, whatever the steps before
    * wrote. */
  lemma ReadoutScanValue(mems: seq<map<Word, Word>>, m1: map<Word, Word>, table: map<string, Descriptor>, g: ScanConf,
                         vs: seq<Word>, k: nat, v: nat)
    requires StepMems(mems, m1, table, g, vs) && k < |vs|
    requires v < g.n && Vfat3.Used(g.mask, v) && CfgApart(table, g, v) && table[CfgName(g, v)].address in m1
    ensures table[CfgName(g, v)].address in mems[k]
    ensures var msk := table[CfgName(g, v)].mask; RegValue(mems[k], table, CfgName(g, v)) == And(vs[k], Shr(msk, Tz(msk)))
  {
    StepMemAt(mems, m1, table, g, vs, k);
    var before := vs[..k];
    StepsPlanAt(g, vs, k);
    WriteAllSplit(m1, table, StepsPlan(g, before), StepPlan(g, vs[k]));
    var w := WriteAll(m1, table, StepsPlan(g, before));
    StepCfgWord(w, table, g, vs[k], v);
    ReadAfterWrite(w, table, CfgName(g, v), vs[k]);
  }

  /** The DAC steps leave a masked VFAT's scan register as they found it. */
  lemma {:induction false} MaskedStepsWord(m1: map<Word, Word>, table: map<string, Descriptor>, g: ScanConf, vs: seq<Word>, v: nat)
    requires v < g.n && !Vfat3.Used(g.mask, v) && CfgApart(table, g, v) && table[CfgName(g, v)].address in m1
    requires AllMapped(m1.Keys, table, StepsPlan(g, vs))
    ensures WriteAll(m1, table, StepsPlan(g, vs))[table[CfgName(g, v)].address] == m1[table[CfgName(g, v)].address]
    decreases |vs|
  {
    if vs != [] {
      var front := vs[..|vs| - 1];
      WriteAllSplit(m1, table, StepsPlan(g, front), StepPlan(g, vs[|vs| - 1]));
      MaskedStepsWord(m1, table, g, front, v);
      StepCfgWord(WriteAll(m1, table, StepsPlan(g, front)), table, g, vs[|vs| - 1], v);
    }
  }

  /** A masked VFAT's scan register is left as the DAC loop found it, at every read-out. */
  lemma MaskedScanUntouched(mems: seq<map<Word, Word>>, m1: map<Word, Word>, table: map<string, Descriptor>,
                            g: ScanConf, vs: seq<Word>, k: nat, v: nat)
    requires StepMems(mems, m1, table, g, vs) && k < |vs|
    requires v < g.n && !Vfat3.Used(g.mask, v) && CfgApart(table, g, v) && table[CfgName(g, v)].address in m1
    ensures table[CfgName(g, v)].address in mems[k]
    ensures mems[k][table[CfgName(g, v)].address] == m1[table[CfgName(g, v)].address]
  {
    StepMemAt(mems, m1, table, g, vs, k);
    MaskedStepsWord(m1, table, g, vs[..k + 1], v);
  }

  /** `confCalPulse` as `genScan` calls it, when `useCalPulse` is set: the writes it
    * makes on success. */
  function CalPlan(c: Consts, ohN: nat, mask: Word, ch: nat, useCalPulse: bool, toggleOn: bool, currentPulse: bool,
                   calScale: Word): seq<(string, Word)>
  {
    if useCalPulse then UsedPlan(CalBlocks(c, ohN, ch, toggleOn, currentPulse, calScale), mask, c.vfatsPerOh) else []
  }

  /** `confCalPulse` as `genScan` calls it, when asked for by useCalPulse. */
  method CalPulseStep(hw: Hardware, c: Consts, ohN: nat, mask: Word, ch: nat, useCalPulse: bool, toggleOn: bool,
                      currentPulse: bool, calScale: Word) returns (r: Result<()>)
    modifies hw`mem, hw`faults, hw`trace
    ensures hw.mem.Keys == old(hw.mem).Keys
    ensures r.Ok? ==> Performed(old(hw.mem), hw.mem, hw.table, Effects(old(hw.trace)), Effects(hw.trace),
      CalPlan(c, ohN, mask, ch, useCalPulse, toggleOn, currentPulse, calScale))
    ensures r.Err? ==> r.error.RuntimeError?
  {
    if useCalPulse {
      r := ConfCalPulseAsWritten(hw, c, ohN, mask, ch, toggleOn, currentPulse, calScale);
    } else {
      PerformedNothing(hw.mem, hw.table, Effects(hw.trace));
      r := Ok(());
    }
  }

  /** The TTC set-up of `genScan`, then `dacMonConf`. */
  method TrigConf(hw: Hardware, ohN: nat, ch: nat, nevts: Word, extTrig: bool) returns (r: Result<()>)
    requires ohN < 0x1_0000
    modifies hw`mem, hw`faults, hw`trace
    ensures hw.mem.Keys == old(hw.mem).Keys
    ensures r.Ok? ==> Performed(old(hw.mem), hw.mem, hw.table, Effects(old(hw.trace)), Effects(hw.trace),
      TtcConfPlan(extTrig, nevts) + DacMonConfPlan(ohN, ch))
    ensures r.Err? ==> r.error.RuntimeError?
  {
    ghost var m0, e0 := hw.mem, Effects(hw.trace);
    r := hw.WriteRegs(TtcConfPlan(extTrig, nevts));
    if r.Err? {
      return;
    }
    ghost var m1, e1 := hw.mem, Effects(hw.trace);
    r := DacMonConf(hw, ohN, ch);
    if r.Ok? {
      PerformedStep(m0, m1, hw.mem, hw.table, e0, e1, Effects(hw.trace), TtcConfPlan(extTrig, nevts), DacMonConfPlan(ohN, ch));
    }
  }

  /** The writes of `genScan` before its DAC loop: the calibration pulse switched on
    * when asked for, the TTC set-up and `dacMonConf`. */
  function GenPrelude(c: Consts, ohN: nat, mask: Word, ch: nat, useCalPulse: bool, currentPulse: bool, calScale: Word,
                      nevts: Word, extTrig: bool): seq<(string, Word)>
    requires ohN < WORD
  {
    CalPlan(c, ohN, mask, ch, useCalPulse, true, currentPulse, calScale) + TtcConfPlan(extTrig, nevts) + DacMonConfPlan(ohN, ch)
  }

  /** `genScan` from its checks to its output. The checks come first; then the
    * calibration pulse is switched on when asked for, the counter addresses are looked
    * up, the TTC and the DAQ monitor are set up; then, at each DAC value, the step's
    * writes and one word per VFAT read from the memory they leave, VFAT-major within
    * the step (the good-event counter of each used VFAT, 0 for each masked one);
    * finally the pulse is switched off again. Memory before the loop is m1. */
  method GenScan(hw: Hardware, c: Consts, ohN: nat, mask: Word, ch: nat, useCalPulse: bool, currentPulse: bool,
                 calScale: Word, nevts: Word, dacMin: Word, dacMax: Word, dacStep: Word, scanReg: string, extTrig: bool)
    returns (r: Result<seq<Word>>, ghost m1: map<Word, Word>, ghost mems: seq<map<Word, Word>>)
    requires Valid(c) && ohN < 0x1_0000 && dacStep > 0 && dacMax + dacStep < WORD
    modifies hw`mem, hw`faults, hw`trace
    ensures hw.mem.Keys == old(hw.mem).Keys
    ensures currentPulse && calScale > 3 ==> r.Err? && hw.mem == old(hw.mem)
    ensures r.Ok? ==> (Vfat3.LinkReadable(old(hw.mem), hw.table, ohN, c.vfatsPerOh) &&
      UnmaskedGood(mask, Vfat3.GoodVfats(old(hw.mem), hw.table, ohN, c.vfatsPerOh)) && !(currentPulse && calScale > 3))
    ensures r.Ok? ==> (L1A_COUNTER in hw.table && forall v :: 0 <= v < c.vfatsPerOh ==> GoodEventsName(v) in hw.table)
    ensures r.Ok? ==> var pre := GenPrelude(c, ohN, mask, ch, useCalPulse, currentPulse, calScale, nevts, extTrig);
      AllMapped(old(hw.mem).Keys, hw.table, pre) && m1 == WriteAll(old(hw.mem), hw.table, pre)
    ensures r.Ok? ==> Performed(old(hw.mem), hw.mem, hw.table, Effects(old(hw.trace)), Effects(hw.trace),
      GenPrelude(c, ohN, mask, ch, useCalPulse, currentPulse, calScale, nevts, extTrig) +
      StepsPlan(ScanConf(ohN, mask, scanReg, extTrig, c.vfatsPerOh), DacValues(dacMin, dacMax, dacStep)) +
      CalPlan(c, ohN, mask, ch, useCalPulse, false, currentPulse, calScale))
    ensures r.Ok? ==> StepMems(mems, m1, hw.table, ScanConf(ohN, mask, scanReg, extTrig, c.vfatsPerOh), DacValues(dacMin, dacMax, dacStep))
    ensures r.Ok? ==> ScanReadouts(r.value, mems, mask, DaqAddrs(hw.table, c.vfatsPerOh))
    ensures r.Err? ==> r.error.RuntimeError?
  {
    m1 := hw.mem;
    var g := GenScanGuard(hw, c, ohN, mask, currentPulse, calScale);
    if g.Err? {
      return Err(g.error), m1, [];
    }
    r, m1, mems := GenScanRun(hw, c, ohN, mask, ch, useCalPulse, currentPulse, calScale, nevts, dacMin, dacMax, dacStep, scanReg, extTrig);
  }

  /** `genScan` after its checks. */
  method GenScanRun(hw: Hardware, c: Consts, ohN: nat, mask: Word, ch: nat, useCalPulse: bool, currentPulse: bool,
                    calScale: Word, nevts: Word, dacMin: Word, dacMax: Word, dacStep: Word, scanReg: string, extTrig: bool)
    returns (r: Result<seq<Word>>, ghost m1: map<Word, Word>, ghost mems: seq<map<Word, Word>>)
    requires Valid(c) && ohN < 0x1_0000 && dacStep > 0 && dacMax + dacStep < WORD
    modifies hw`mem, hw`faults, hw`trace
    ensures hw.mem.Keys == old(hw.mem).Keys
    ensures r.Ok? ==> (L1A_COUNTER in hw.table && forall v :: 0 <= v < c.vfatsPerOh ==> GoodEventsName(v) in hw.table)
    ensures r.Ok? ==> var pre := GenPrelude(c, ohN, mask, ch, useCalPulse, currentPulse, calScale, nevts, extTrig);
      AllMapped(old(hw.mem).Keys, hw.table, pre) && m1 == WriteAll(old(hw.mem), hw.table, pre)
    ensures r.Ok? ==> Performed(old(hw.mem), hw.mem, hw.table, Effects(old(hw.trace)), Effects(hw.trace),
      GenPrelude(c, ohN, mask, ch, useCalPulse, currentPulse, calScale, nevts, extTrig) +
      StepsPlan(ScanConf(ohN, mask, scanReg, extTrig, c.vfatsPerOh), DacValues(dacMin, dacMax, dacStep)) +
      CalPlan(c, ohN, mask, ch, useCalPulse, false, currentPulse, calScale))
    ensures r.Ok? ==> StepMems(mems, m1, hw.table, ScanConf(ohN, mask, scanReg, extTrig, c.vfatsPerOh), DacValues(dacMin, dacMax, dacStep))
    ensures r.Ok? ==> ScanReadouts(r.value, mems, mask, DaqAddrs(hw.table, c.vfatsPerOh))
    ensures r.Err? ==> r.error.RuntimeError?
  {
    ghost var m0, e0 := hw.mem, Effects(hw.trace);
    m1 := hw.mem;
    var pre, r1 := GenSetUp(hw, c, ohN, mask, ch, useCalPulse, currentPulse, calScale, nevts, extTrig);
    if r1.Err? {
      return Err(r1.error), m1, [];
    }
    m1 := hw.mem;
    ghost var e1 := Effects(hw.trace);
    var g := ScanConf(ohN, mask, scanReg, extTrig, c.vfatsPerOh);
    var out;
    out, mems := ScanSteps(hw, g, pre.1, pre.0, dacMin, dacMax, dacStep);
    if out.Err? {
      return Err(out.error), m1, mems;
    }
    ghost var steps := StepsPlan(g, DacValues(dacMin, dacMax, dacStep));
    ghost var prelude := GenPrelude(c, ohN, mask, ch, useCalPulse, currentPulse, calScale, nevts, extTrig);
    PerformedStep(m0, m1, hw.mem, hw.table, e0, e1, Effects(hw.trace), prelude, steps);
    ghost var m2, e2 := hw.mem, Effects(hw.trace);
    var off := CalPulseStep(hw, c, ohN, mask, ch, useCalPulse, false, currentPulse, calScale);
    if off.Err? {
      return Err(off.error), m1, mems;
    }
    PerformedStep(m0, m2, hw.mem, hw.table, e0, e2, Effects(hw.trace), prelude + steps,
                  CalPlan(c, ohN, mask, ch, useCalPulse, false, currentPulse, calScale));
    r := Ok(out.value);
  }

  /** The part of `genScan` before its DAC loop: the calibration pulse on when asked
    * for, the addresses of the L1A counter and of the counters read, the TTC set-up
    * and `dacMonConf`. */
  method GenSetUp(hw: Hardware, c: Consts, ohN: nat, mask: Word, ch: nat, useCalPulse: bool, currentPulse: bool,
                  calScale: Word, nevts: Word, extTrig: bool) returns (a: (Word, seq<Word>), r: Result<()>)
    requires ohN < 0x1_0000
    modifies hw`mem, hw`faults, hw`trace
    ensures hw.mem.Keys == old(hw.mem).Keys
    ensures r.Ok? ==> (L1A_COUNTER in hw.table && forall v :: 0 <= v < c.vfatsPerOh ==> GoodEventsName(v) in hw.table)
    ensures r.Ok? ==> a.0 == hw.table[L1A_COUNTER].address && a.1 == DaqAddrs(hw.table, c.vfatsPerOh)
    ensures r.Ok? ==> Performed(old(hw.mem), hw.mem, hw.table, Effects(old(hw.trace)), Effects(hw.trace),
      GenPrelude(c, ohN, mask, ch, useCalPulse, currentPulse, calScale, nevts, extTrig))
    ensures r.Err? ==> r.error.RuntimeError?
  {
    a := (0, []);
    ghost var m0, e0 := hw.mem, Effects(hw.trace);
    var p := CalPulseStep(hw, c, ohN, mask, ch, useCalPulse, true, currentPulse, calScale);
    if p.Err? {
      return a, Err(p.error);
    }
    ghost var cal := CalPlan(c, ohN, mask, ch, useCalPulse, true, currentPulse, calScale);
    var l1 := hw.GetAddress(L1A_COUNTER);
    var addrs := DaqMonAddresses(hw, c);
    if addrs.Err? {
      return a, Err(addrs.error);
    }
    a := (l1.value, addrs.value);
    ghost var m1, e1 := hw.mem, Effects(hw.trace);
    r := TrigConf(hw, ohN, ch, nevts, extTrig);
    if r.Ok? {
      PerformedStep(m0, m1, hw.mem, hw.table, e0, e1, Effects(hw.trace), cal, TtcConfPlan(extTrig, nevts) + DacMonConfPlan(ohN, ch));
      Associative(cal, TtcConfPlan(extTrig, nevts), DacMonConfPlan(ohN, ch));
    }
  }

  function TrigRateName(ohN: nat): string
  {
    "GEM_AMC.TRIGGER.OH" + Dec(ohN) + ".TRIGGER_RATE"
  }

  lemma DacValuesUnfold(dacVal: nat, dacMax: nat, dacStep: nat)
    requires dacStep > 0 && dacVal <= dacMax
    ensures DacValues(dacVal, dacMax, dacStep) == [dacVal] + DacValues(dacVal + dacStep, dacMax, dacStep)
  {
  }

  // ---------------------------------------------------------------------------
  // sbitRateScan

  function VfatMaskReg(ohN: nat): string
  {
    "GEM_AMC.OH.OH" + Dec(ohN) + ".FPGA.TRIG.CTRL.VFAT_MASK"
  }

  /** The scan register `CFG_<scanReg>` of VFAT vfatN on link ohN. */
  function ScanRegName(ohN: nat, vfatN: nat, scanReg: string): string
  {
    Optohybrid.VfatReg(ohN, vfatN, "CFG_" + scanReg)
  }

  /** The writes of the DAC loop of `sbitRateScan`: the scan register set to each DAC value
    * in turn. */
  function RatePlan(name: string, vs: seq<Word>): (ws: seq<(string, Word)>)
    ensures |ws| == |vs|
    decreases |vs|
  {
    if vs == [] then [] else RatePlan(name, vs[..|vs| - 1]) + [(name, vs[|vs| - 1])]
  }

  lemma RatePlanSnoc(name: string, vs: seq<Word>, x: Word)
    ensures RatePlan(name, vs + [x]) == RatePlan(name, vs) + [(name, x)]
  {
    assert (vs + [x])[..|vs|] == vs;
  }

  /** However many DAC values the loop has written, the memory holds the last one in the
    * scan register and is otherwise as it was: each write overrides the one before. */
  lemma {:induction false} RatePlanLast(m0: map<Word, Word>, table: map<string, Descriptor>, name: string, vs: seq<Word>)
    requires |vs| > 0 && AllMapped(m0.Keys, table, RatePlan(name, vs))
    ensures Mapped(m0.Keys, table, name)
    ensures WriteAll(m0, table, RatePlan(name, vs)) == RegWritten(m0, table, name, vs[|vs| - 1])
    decreases |vs|
  {
    var ws := RatePlan(name, vs);
    var init := vs[..|vs| - 1];
    assert ws[|ws| - 1] == (name, vs[|vs| - 1]);
    assert Mapped(m0.Keys, table, ws[|ws| - 1].0);
    assert ws[..|ws| - 1] == RatePlan(name, init);
    if init != [] {
      assert AllMapped(m0.Keys, table, RatePlan(name, init)) by {
        assert forall i :: 0 <= i < |ws| - 1 ==> ws[..|ws| - 1][i] == ws[i];
      }
      RatePlanLast(m0, table, name, init);
      RegWrittenTwice(m0, table, name, init[|init| - 1], vs[|vs| - 1]);
    }
  }

  /** The readings of the DAC loop of `sbitRateScan` so far: one per value done, the
    * trigger-rate word once the scan register holds that value. */
  ghost predicate RatesRead(out: map<nat, Word>, done: seq<Word>, m0: map<Word, Word>, table: map<string, Descriptor>,
                      name: string, addr: Word)
  {
    (forall x :: x in out <==> x in done) &&
    forall x :: x in out ==> (x < WORD && Mapped(m0.Keys, table, name) && addr in m0 &&
      out[x] == RegWritten(m0, table, name, x)[addr])
  }

  /** One pass of the DAC loop of `sbitRateScan`. */
  method RateStep(hw: Hardware, name: string, addr: Word, dacVal: Word, ghost m0: map<Word, Word>, ghost e0: seq<Event>,
                  ghost done: seq<Word>, out: map<nat, Word>) returns (r: Result<map<nat, Word>>)
    requires Performed(m0, hw.mem, hw.table, e0, Effects(hw.trace), RatePlan(name, done))
    requires RatesRead(out, done, m0, hw.table, name, addr)
    modifies hw`mem, hw`faults, hw`trace
    ensures hw.mem.Keys == old(hw.mem).Keys
    ensures r.Ok? ==> Performed(m0, hw.mem, hw.table, e0, Effects(hw.trace), RatePlan(name, done + [dacVal]))
    ensures r.Ok? ==> RatesRead(r.value, done + [dacVal], m0, hw.table, name, addr)
    ensures r.Err? ==> r.error.RuntimeError?
  {
    var s := hw.SetAfter(name, dacVal, m0, e0, RatePlan(name, done));
    if s.Err? {
      return Err(s.error);
    }
    RatePlanSnoc(name, done, dacVal);
    RatePlanLast(m0, hw.table, name, done + [dacVal]);
    var w := hw.GetRaw(addr);
    if w.Err? {
      return Err(w.error);
    }
    r := Ok(out[dacVal := w.value]);
  }

  /** The DAC loop of `sbitRateScan`: at each DAC value the scan register is written, then
    * the word at the trigger-rate address is read, from the memory that write leaves. */
  method RateLoop(hw: Hardware, name: string, addr: Word, dacMin: Word, dacMax: Word, dacStep: Word) returns (r: Result<map<nat, Word>>)
    requires dacStep > 0 && dacMax + dacStep < WORD
    modifies hw`mem, hw`faults, hw`trace
    ensures hw.mem.Keys == old(hw.mem).Keys
    ensures r.Ok? ==> Performed(old(hw.mem), hw.mem, hw.table, Effects(old(hw.trace)), Effects(hw.trace),
                                RatePlan(name, DacValues(dacMin, dacMax, dacStep)))
    ensures r.Ok? ==> forall x :: x in r.value <==> x in DacValues(dacMin, dacMax, dacStep)
    ensures r.Ok? ==> forall x :: x in r.value ==> (x < WORD && Mapped(old(hw.mem).Keys, hw.table, name) && addr in old(hw.mem) &&
      r.value[x] == RegWritten(old(hw.mem), hw.table, name, x)[addr])
    ensures r.Err? ==> r.error.RuntimeError?
  {
    ghost var m0, e0 := hw.mem, Effects(hw.trace);
    PerformedNothing(m0, hw.table, e0);
    var out: map<nat, Word> := map[];
    var dacVal := dacMin;
    ghost var done: seq<Word> := [];
    while dacVal <= dacMax
      invariant hw.mem.Keys == m0.Keys
      invariant Performed(m0, hw.mem, hw.table, e0, Effects(hw.trace), RatePlan(name, done))
      invariant RatesRead(out, done, m0, hw.table, name, addr)
      invariant DacValues(dacMin, dacMax, dacStep) == done + DacValues(dacVal, dacMax, dacStep)
      decreases dacMax + dacStep - dacVal
    {
      var next := RateStep(hw, name, addr, dacVal, m0, e0, done, out);
      DacValuesAdvance(dacMin, dacMax, dacStep, done, dacVal);
      if next.Err? {
        return Err(next.error);
      }
      out := next.value;
      done := done + [dacVal];
      dacVal := ErrorCounters.Add32(dacVal, dacStep);
    }
    DacValuesDone(dacMin, dacMax, dacStep, done, dacVal);
    r := Ok(out);
  }

  /** The set-up of the DAC loop of `sbitRateScan`: look up the trigger-rate and trigger
    * VFAT mask addresses, save the mask word and write vfatMask over it, then take the
    * VFATs out of slow-control-only mode. Returns the two addresses and the saved word. */
  method RatePrepare(hw: Hardware, ohN: nat, vfatMask: Word) returns (r: Result<(Word, Word, Word)>)
    modifies hw`mem, hw`faults, hw`trace
    ensures hw.mem.Keys == old(hw.mem).Keys
    ensures r.Ok? ==> (TrigRateName(ohN) in hw.table && VfatMaskReg(ohN) in hw.table &&
      r.value.0 == hw.table[TrigRateName(ohN)].address && r.value.1 == hw.table[VfatMaskReg(ohN)].address &&
      r.value.1 in old(hw.mem) && r.value.2 == old(hw.mem)[r.value.1] &&
      Mapped(old(hw.mem).Keys, hw.table, Amc.SC_ONLY_MODE) &&
      hw.mem == RegWritten(old(hw.mem)[r.value.1 := vfatMask], hw.table, Amc.SC_ONLY_MODE, 0))
    ensures r.Err? ==> r.error.RuntimeError?
  {
    var t := hw.GetAddress(TrigRateName(ohN));
    if t.Err? {
      return Err(t.error);
    }
    var ma := hw.GetAddress(VfatMaskReg(ohN));
    if ma.Err? {
      return Err(ma.error);
    }
    var orig := hw.GetRaw(ma.value);
    if orig.Err? {
      return Err(orig.error);
    }
    var w := hw.SetRaw(ma.value, vfatMask);
    if w.Err? {
      return Err(w.error);
    }
    var sc := hw.Set(Amc.SC_ONLY_MODE, 0);
    if sc.Err? {
      return Err(sc.error);
    }
    r := Ok((t.value, ma.value, orig.value));
  }

  /** The middle of `sbitRateScan`: the set-up above, the scan register written and the
    * trigger rate read at each DAC value, then the saved channel masks reapplied and the
    * VFAT mask word written back. m1 is the memory the loop starts from, m2 the one it
    * leaves. */
  method RateRun(hw: Hardware, ohN: nat, vfatN: nat, vfatMask: Word, scanReg: string, saved: map<Word, Word>,
                 dacMin: Word, dacMax: Word, dacStep: Word)
    returns (r: Result<map<nat, Word>>, ghost m1: map<Word, Word>, ghost m2: map<Word, Word>)
    requires dacStep > 0 && dacMax + dacStep < WORD
    modifies hw`mem, hw`faults, hw`trace
    ensures hw.mem.Keys == old(hw.mem).Keys
    ensures r.Ok? ==> RateSetup(old(hw.mem), m1, m2, hw.mem, hw.table, ohN, vfatN, vfatMask, scanReg, saved,
                                DacValues(dacMin, dacMax, dacStep))
    ensures r.Ok? ==> forall x :: x in r.value <==> x in DacValues(dacMin, dacMax, dacStep)
    ensures r.Ok? ==> forall x :: x in r.value ==> (x < WORD && Mapped(m1.Keys, hw.table, ScanRegName(ohN, vfatN, scanReg)) &&
      hw.table[TrigRateName(ohN)].address in m1 &&
      r.value[x] == RegWritten(m1, hw.table, ScanRegName(ohN, vfatN, scanReg), x)[hw.table[TrigRateName(ohN)].address])
    ensures r.Err? ==> r.error.RuntimeError?
  {
    m1, m2 := hw.mem, hw.mem;
    var p := RatePrepare(hw, ohN, vfatMask);
    if p.Err? {
      return Err(p.error), m1, m2;
    }
    var (t, ma, orig) := p.value;
    m1 := hw.mem;
    var out := RateLoop(hw, ScanRegName(ohN, vfatN, scanReg), t, dacMin, dacMax, dacStep);
    if out.Err? {
      return Err(out.error), m1, m2;
    }
    m2 := hw.mem;
    if saved != map[] {  // applying an empty map writes nothing
      var a, _ := ApplyChanMask(hw, saved);
      if a.Err? {
        return Err(a.error), m1, m2;
      }
    }
    var back := hw.SetRaw(ma, orig);
    if back.Err? {
      return Err(back.error), m1, m2;
    }
    r := Ok(out.value);
  }

  /** vfatMask names one VFAT (after the optional inversion) and that VFAT is synced. */
  predicate ScanTarget(mem: map<Word, Word>, table: map<string, Descriptor>, c: Consts, ohN: nat, vfatMask: Word, invert: bool)
    requires Valid(c)
  {
    Calibration.VfatOfMask(vfatMask, invert).Ok? &&
    Vfat3.LinkReadable(mem, table, ohN, c.vfatsPerOh) &&
    Bit(Vfat3.GoodVfats(mem, table, ohN, c.vfatsPerOh), Calibration.VfatOfMask(vfatMask, invert).value)
  }

  /** The channel masks of VFAT vfatN before the scan: untouched when ch is 128;
    * otherwise written raw by `setSingleChanMask` as written, whose saved `.MASK`
    * fields are returned. */
  predicate ChanSetup(m0: map<Word, Word>, chanMem: map<Word, Word>, table: map<string, Descriptor>,
                      ohN: nat, vfatN: nat, ch: nat, saved: map<Word, Word>)
  {
    (ch == 128 ==> saved == map[] && chanMem == m0) &&
    (ch != 128 ==>
      AllMapped(m0.Keys, table, SingleChanPlan(ohN, vfatN, ch)) &&
      chanMem == RawWriteAll(m0, table, SingleChanPlan(ohN, vfatN, ch)) &&
      (MasksDistinct(table, ohN, vfatN) ==>
        MasksReadable(m0, table, ohN, vfatN, 128) && saved == SavedFields(m0, table, ohN, vfatN, 128)))
  }

  /** Channel register `chan` of VFAT v is present and its `.MASK` field is clear. */
  predicate ChanUnmasked(mem: map<Word, Word>, table: map<string, Descriptor>, ohN: nat, v: nat, chan: nat)
  {
    Mapped(mem.Keys, table, MaskName(ohN, v, chan)) && RegValue(mem, table, MaskName(ohN, v, chan)) == 0
  }

  /** What `sbitRateScan` as written leaves in the channel registers of VFAT v: after the
    * set-up (chanMem) every channel is unmasked, and after the restore (mem) every channel
    * is unmasked except one sharing its word with the register `other`. */
  predicate ChannelsLeftUnmasked(chanMem: map<Word, Word>, mem: map<Word, Word>, table: map<string, Descriptor>,
                                 ohN: nat, v: nat, other: string)
  {
    (forall chan :: 0 <= chan < 128 ==> ChanUnmasked(chanMem, table, ohN, v, chan)) &&
    (forall chan :: 0 <= chan < 128 ==>
      (ChanUnmasked(mem, table, ohN, v, chan) ||
       (other in table && MaskName(ohN, v, chan) in table && MaskAddr(table, ohN, v, chan) == table[other].address)))
  }

  /** The memories of `sbitRateScan` after its channel set-up: the DAC loop starts from m1,
    * chanMem with vfatMask over the trigger VFAT mask word and slow-control-only mode off;
    * it leaves m2, which holds its writes of the scan register; the scan ends with m3,
    * the saved channel words and the old mask word written over m2. */
  predicate RateSetup(chanMem: map<Word, Word>, m1: map<Word, Word>, m2: map<Word, Word>, m3: map<Word, Word>,
                      table: map<string, Descriptor>, ohN: nat, vfatN: nat, vfatMask: Word, scanReg: string,
                      saved: map<Word, Word>, vs: seq<Word>)
  {
    TrigRateName(ohN) in table && VfatMaskReg(ohN) in table &&
    table[VfatMaskReg(ohN)].address in chanMem && Mapped(chanMem.Keys, table, Amc.SC_ONLY_MODE) &&
    m1 == RegWritten(chanMem[table[VfatMaskReg(ohN)].address := vfatMask], table, Amc.SC_ONLY_MODE, 0) &&
    AllMapped(m1.Keys, table, RatePlan(ScanRegName(ohN, vfatN, scanReg), vs)) &&
    m2 == WriteAll(m1, table, RatePlan(ScanRegName(ohN, vfatN, scanReg), vs)) &&
    saved.Keys <= chanMem.Keys &&
    m3 == (m2 + saved)[table[VfatMaskReg(ohN)].address := chanMem[table[VfatMaskReg(ohN)].address]]
  }

  /** `sbitRateScan`: vfatMask must select exactly one VFAT and that VFAT must be synced;
    * when ch is not 128 every channel of the VFAT but ch is masked for the scan and the
    * saved masks are written back afterwards. The link number is a `uint16_t`, but
    * `setSingleChanMask` takes it as a `uint8_t`, so the channel masks are those of link
    * `ohN % 256` while everything else uses ohN itself. */
  method SbitRateScan(hw: Hardware, c: Consts, ohN: nat, vfatMask: Word, ch: nat, dacMin: Word, dacMax: Word, dacStep: Word,
                      scanReg: string, invert: bool)
    returns (r: Result<map<nat, Word>>, saved: map<Word, Word>, ghost chanMem: map<Word, Word>, ghost m1: map<Word, Word>,
             ghost m2: map<Word, Word>)
    requires Valid(c)
    requires ohN < 0x1_0000 && dacMax < 0x1_0000 && 0 < dacStep < 0x1_0000
    modifies hw`mem, hw`faults, hw`trace
    ensures hw.mem.Keys == old(hw.mem).Keys
    ensures Calibration.VfatOfMask(vfatMask, invert).Err? ==>
      (r == Err(RuntimeError(BadArgument)) && hw.mem == old(hw.mem) && Effects(hw.trace) == Effects(old(hw.trace)))
    ensures r.Ok? ==> ScanTarget(old(hw.mem), hw.table, c, ohN, vfatMask, invert)
    ensures r.Ok? ==> ChanSetup(old(hw.mem), chanMem, hw.table, ohN % 256, Calibration.VfatOfMask(vfatMask, invert).value, ch, saved)
    ensures r.Ok? ==> RateSetup(chanMem, m1, m2, hw.mem, hw.table, ohN, Calibration.VfatOfMask(vfatMask, invert).value, vfatMask,
                                scanReg, saved, DacValues(dacMin, dacMax, dacStep))
    ensures r.Ok? ==> forall x :: x in r.value <==> x in DacValues(dacMin, dacMax, dacStep)
    ensures r.Ok? ==> forall x :: x in r.value ==>
      var name := ScanRegName(ohN, Calibration.VfatOfMask(vfatMask, invert).value, scanReg);
      x < WORD && Mapped(m1.Keys, hw.table, name) && TrigRateName(ohN) in hw.table && hw.table[TrigRateName(ohN)].address in m1 &&
      r.value[x] == RegWritten(m1, hw.table, name, x)[hw.table[TrigRateName(ohN)].address]
    ensures r.Ok? && ch != 128 && ChannelMaskNodes(old(hw.mem).Keys, hw.table, ohN % 256, Calibration.VfatOfMask(vfatMask, invert).value) ==>
      ChannelsLeftUnmasked(chanMem, hw.mem, hw.table, ohN % 256, Calibration.VfatOfMask(vfatMask, invert).value, VfatMaskReg(ohN))
    ensures r.Err? ==> r.error.RuntimeError?
  {
    saved := map[];
    chanMem, m1, m2 := hw.mem, hw.mem, hw.mem;
    var vfatN := Calibration.VfatOfMask(vfatMask, invert);
    if vfatN.Err? {
      return Err(vfatN.error), saved, chanMem, m1, m2;
    }
    var good := Vfat3.VfatSyncCheck(hw, c, ohN, 0xff00_0000);
    if good.Err? {
      return Err(good.error), saved, chanMem, m1, m2;
    }
    if !Bit(good.value, vfatN.value) {
      return Err(RuntimeError(UnsyncedVfat)), saved, chanMem, m1, m2;
    }
    ghost var m0 := hw.mem;
    if ch != 128 {
      var sm := SetSingleChanMaskAsWritten(hw, ohN % 256, vfatN.value, ch);
      if sm.Err? {
        return Err(sm.error), saved, chanMem, m1, m2;
      }
      saved := sm.value;
    }
    chanMem := hw.mem;
    r, m1, m2 := RateRun(hw, ohN, vfatN.value, vfatMask, scanReg, saved, dacMin, dacMax, dacStep);
    if r.Ok? && ch != 128 && ChannelMaskNodes(m0.Keys, hw.table, ohN % 256, vfatN.value) {
      var a := hw.table[VfatMaskReg(ohN)].address;
      SbitRateScanUnmasksChannels(m0, m2, hw.mem, hw.table, ohN % 256, vfatN.value, a, chanMem[a]);
    }
  }

  /** After `sbitRateScan` the trigger VFAT mask word is back as it was before the scan,
    * provided, when a single channel was scanned, no channel register of the VFAT on link
    * `ohN % 256`, the one `setSingleChanMask` masks, shares its word. */
  lemma SbitRateScanKeepsVfatMask(m0: map<Word, Word>, chanMem: map<Word, Word>, m1: map<Word, Word>, m2: map<Word, Word>,
                                  m3: map<Word, Word>, table: map<string, Descriptor>, ohN: nat, vfatN: nat, ch: nat,
                                  vfatMask: Word, scanReg: string, saved: map<Word, Word>, vs: seq<Word>)
    requires ChanSetup(m0, chanMem, table, ohN % 256, vfatN, ch, saved)
    requires RateSetup(chanMem, m1, m2, m3, table, ohN, vfatN, vfatMask, scanReg, saved, vs)
    requires ch == 128 || forall chan :: 0 <= chan < 128 && MaskName(ohN % 256, vfatN, chan) in table ==>
      MaskAddr(table, ohN % 256, vfatN, chan) != table[VfatMaskReg(ohN)].address
    ensures table[VfatMaskReg(ohN)].address in m0 && m3[table[VfatMaskReg(ohN)].address] == m0[table[VfatMaskReg(ohN)].address]
  {
    var a := table[VfatMaskReg(ohN)].address;
    if ch != 128 {
      var plan := SingleChanPlan(ohN % 256, vfatN, ch);
      assert forall i :: 0 <= i < |plan| ==> table[plan[i].0].address == MaskAddr(table, ohN % 256, vfatN, i);
      RawWriteAllOutside(m0, table, plan, a);
    }
  }

  /** After `sbitRateScan` of a single channel as written, which leaves memory as the scan
    * left it with the saved `.MASK` fields and then the old VFAT mask word a written over
    * it, every channel register of the VFAT outside a is unmasked, whatever its mask was
    * before the scan. */
  lemma SbitRateScanUnmasksChannels(m0: map<Word, Word>, m1: map<Word, Word>, m2: map<Word, Word>,
                                    table: map<string, Descriptor>, ohN: nat, vfatN: nat, a: Word, x: Word)
    requires MasksReadable(m0, table, ohN, vfatN, 128) && ChannelMaskNodes(m0.Keys, table, ohN, vfatN)
    requires m2 == (m1 + SavedFields(m0, table, ohN, vfatN, 128))[a := x]
    ensures forall chan :: 0 <= chan < 128 ==>
      MaskAddr(table, ohN, vfatN, chan) == a || ChanUnmasked(m2, table, ohN, vfatN, chan)
  {
    AsWrittenRestoreUnmasks(m0, m1, table, ohN, vfatN);
  }
}
