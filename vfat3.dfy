/** The VFAT3 functions of src/vfat3.cpp: the link sync check, the ADC monitor
  * selection (`CFG_4`), reading and writing the 128 channel registers of each VFAT
  * and reading the chip IDs. Register calls are `readReg`, `writeReg`, `getAddress`,
  * `readRawAddress` and `writeRawAddress` of src/utils.cpp. */
module Vfat3 {

  import opened Wrappers
  import opened Bits
  import opened Packing
  import opened Text
  import opened Registers
  import opened HwConstants
  import opened ErrorCounters
  import opened Selection
  import Amc
  import Optohybrid

  // ---------------------------------------------------------------------------
  // vfatSyncCheck

  function LinkGoodName(ohN: nat, v: nat): string
  {
    "GEM_AMC.OH_LINKS.OH" + Dec(ohN) + ".VFAT" + Dec(v) + ".LINK_GOOD"
  }

  /** The link status registers of the first n VFATs of link ohN can be read. */
  predicate LinkReadable(mem: map<Word, Word>, table: map<string, Descriptor>, ohN: nat, n: nat)
  {
    forall v :: 0 <= v < n ==> Readable(mem, table, LinkGoodName(ohN, v)) && Readable(mem, table, Amc.SyncName(ohN, v))
  }

  /** VFAT v is good when its link is up and it has seen no sync error. */
  predicate Good(mem: map<Word, Word>, table: map<string, Descriptor>, ohN: nat, v: nat)
    requires Readable(mem, table, LinkGoodName(ohN, v)) && Readable(mem, table, Amc.SyncName(ohN, v))
  {
    RegValue(mem, table, LinkGoodName(ohN, v)) != 0 && RegValue(mem, table, Amc.SyncName(ohN, v)) == 0
  }

  function GoodFlags(mem: map<Word, Word>, table: map<string, Descriptor>, ohN: nat, n: nat): (bs: seq<bool>)
    requires LinkReadable(mem, table, ohN, n)
    ensures |bs| == n
  {
    seq(n, v requires 0 <= v < n => Good(mem, table, ohN, v))
  }

  /** The `goodVFATs` word of `vfatSyncCheck`. */
  function GoodVfats(mem: map<Word, Word>, table: map<string, Descriptor>, ohN: nat, n: nat): Word
    requires LinkReadable(mem, table, ohN, n) && n <= 24
  {
    MaskOfBound(GoodFlags(mem, table, ohN, n));
    Pow2Values();
    Pow2Mono(n, 24);
    MaskOf(GoodFlags(mem, table, ohN, n))
  }

  /** Bit v of `goodVFATs` is set iff v is one of the VFATs, its LINK_GOOD is not 0 and
    * its SYNC_ERR_CNT is 0; no other bit is set. */
  lemma GoodVfatsBits(mem: map<Word, Word>, table: map<string, Descriptor>, ohN: nat, n: nat)
    requires LinkReadable(mem, table, ohN, n) && n <= 24
    ensures GoodVfats(mem, table, ohN, n) < Pow2(n)
    ensures GoodVfats(mem, table, ohN, n) <= 0xff_ffff
    ensures forall v: nat :: Bit(GoodVfats(mem, table, ohN, n), v) <==> v < n && Good(mem, table, ohN, v)
  {
    MaskOfBits(GoodFlags(mem, table, ohN, n));
    Pow2Values();
    Pow2Mono(n, 24);
  }

  /** One more VFAT: its bit is or-ed in when it is good. */
  lemma GoodVfatsStep(mem: map<Word, Word>, table: map<string, Descriptor>, ohN: nat, n: nat)
    requires LinkReadable(mem, table, ohN, n + 1) && n < 24
    ensures LinkReadable(mem, table, ohN, n)
    ensures GoodVfats(mem, table, ohN, n) < Pow2(n) < WORD
    ensures GoodVfats(mem, table, ohN, n + 1) ==
      if Good(mem, table, ohN, n) then Or(GoodVfats(mem, table, ohN, n), Shl(1, n)) else GoodVfats(mem, table, ohN, n)
  {
    var bs := GoodFlags(mem, table, ohN, n + 1);
    assert bs[..n] == GoodFlags(mem, table, ohN, n);
    MaskOfStep(bs, n);
    assert bs[..n + 1] == bs;
    MaskOfBound(bs[..n]);
    Pow2Values();
    Pow2Mono(n, 24);
    OrBit(GoodVfats(mem, table, ohN, n), n);
  }

  /** `vfatSyncCheck(ohN, mask)`: LINK_GOOD and SYNC_ERR_CNT of every VFAT, in VFAT
    * order. The mask only decides whether a warning is logged, so it does not appear
    * in the result. */
  method VfatSyncCheck(hw: Hardware, c: Consts, ohN: nat, mask: Word) returns (r: Result<Word>)
    requires Valid(c)
    modifies hw`faults, hw`trace
    ensures r.Ok? ==> LinkReadable(hw.mem, hw.table, ohN, c.vfatsPerOh) && r.value == GoodVfats(hw.mem, hw.table, ohN, c.vfatsPerOh)
    ensures r.Err? ==> r.error.RuntimeError?
    ensures Effects(hw.trace) == Effects(old(hw.trace))
  {
    var good: Word := 0;
    var vfatN := 0;
    while vfatN < c.vfatsPerOh
      invariant 0 <= vfatN <= c.vfatsPerOh
      invariant LinkReadable(hw.mem, hw.table, ohN, vfatN)
      invariant good == GoodVfats(hw.mem, hw.table, ohN, vfatN)
      invariant Effects(hw.trace) == Effects(old(hw.trace))
    {
      var g := LinkStatus(hw, ohN, vfatN);
      if g.Err? {
        return Err(g.error);
      }
      GoodVfatsStep(hw.mem, hw.table, ohN, vfatN);
      if g.value {
        good := Or(good, Shl(1, vfatN));
      }
      vfatN := vfatN + 1;
    }
    r := Ok(good);
  }

  /** The two reads for one VFAT. */
  method LinkStatus(hw: Hardware, ohN: nat, v: nat) returns (r: Result<bool>)
    modifies hw`faults, hw`trace
    ensures r.Ok? ==> (Readable(hw.mem, hw.table, LinkGoodName(ohN, v)) && Readable(hw.mem, hw.table, Amc.SyncName(ohN, v)) &&
      (r.value <==> Good(hw.mem, hw.table, ohN, v)))
    ensures r.Err? ==> r.error.RuntimeError?
    ensures Effects(hw.trace) == Effects(old(hw.trace))
  {
    var linkGood := hw.Get(LinkGoodName(ohN, v));
    if linkGood.Err? {
      return Err(linkGood.error);
    }
    var linkErrors := hw.Get(Amc.SyncName(ohN, v));
    if linkErrors.Err? {
      return Err(linkErrors.error);
    }
    r := Ok(linkGood.value != 0 && linkErrors.value == 0);
  }

  /** The check the operations below make: every unmasked VFAT is in sync, else
    * `UnsyncedVfat`. */
  method RequireSynced(hw: Hardware, c: Consts, ohN: nat, mask: Word) returns (r: Result<()>)
    requires Valid(c)
    modifies hw`faults, hw`trace
    ensures r.Ok? ==> (LinkReadable(hw.mem, hw.table, ohN, c.vfatsPerOh) &&
      UnmaskedGood(mask, GoodVfats(hw.mem, hw.table, ohN, c.vfatsPerOh)))
    ensures r.Err? ==> r.error.RuntimeError?
    ensures Effects(hw.trace) == Effects(old(hw.trace))
  {
    var good := VfatSyncCheck(hw, c, ohN, Optohybrid.DEFAULT_MASK);
    if good.Err? {
      return Err(good.error);
    }
    AllGoodIff(mask, good.value);
    if !AllGood(mask, good.value) {
      return Err(RuntimeError(UnsyncedVfat));
    }
    r := Ok(());
  }

  /** A VFAT that should be used is good: with at most 24 VFATs this is the test
    * `(goodVFATs >> vfatN) & 0x1` on an unmasked VFAT. */
  lemma SyncedMeansGood(mem: map<Word, Word>, table: map<string, Descriptor>, c: Consts, ohN: nat, mask: Word, v: nat)
    requires Valid(c) && v < c.vfatsPerOh && !Bit(mask, v)
    requires LinkReadable(mem, table, ohN, c.vfatsPerOh) && UnmaskedGood(mask, GoodVfats(mem, table, ohN, c.vfatsPerOh))
    ensures Good(mem, table, ohN, v)
  {
    GoodVfatsBits(mem, table, ohN, c.vfatsPerOh);
    assert Bit(GoodVfats(mem, table, ohN, c.vfatsPerOh), v);
  }

  // ---------------------------------------------------------------------------
  // configureVFAT3DACMonitor

  /** `(vref << 8) + (gain << 7) + dacSelect` on `uint32_t`. */
  function Cfg4(vref: Word, gain: Word, dacSelect: Word): Word
  {
    Add32(Add32(Shl(vref, 8), Shl(gain, 7)), dacSelect)
  }

  /** With a 1-bit gain and a 7-bit selection the word is the three fields side by
    * side, and each can be read back: the selection in bits 0 to 6, the gain in bit 7,
    * the reference voltage from bit 8 up. */
  lemma Cfg4Fields(vref: Word, gain: Word, dacSelect: Word)
    requires vref < 0x100_0000 && gain <= 1 && dacSelect < 0x80
    ensures Cfg4(vref, gain, dacSelect) == vref * 0x100 + gain * 0x80 + dacSelect
    ensures Cfg4(vref, gain, dacSelect) % 0x80 == dacSelect
    ensures Cfg4(vref, gain, dacSelect) / 0x80 % 2 == gain
    ensures Cfg4(vref, gain, dacSelect) / 0x100 == vref
  {
    Pow2Values();
    ShlFits(vref, 8);
    ShlFits(gain, 7);
    var w := vref * 0x100 + gain * 0x80 + dacSelect;
    DivModUnique(w, 0x80, dacSelect, vref * 2 + gain);
    DivModUnique(vref * 2 + gain, 2, gain, vref);
    DivModUnique(w, 0x100, gain * 0x80 + dacSelect, vref);
  }

  /** A selection of 0x80 or more is not checked and runs into the gain bit. */
  lemma Cfg4SelectionOverflows()
    ensures Cfg4(0, 1, 0) == Cfg4(0, 0, 0x80)
  {
    Pow2Values();
    ShlFits(1, 7);
    ShlFits(0, 8);
    ShlFits(0, 7);
  }

  function Cfg4Name(ohN: nat, v: nat): string
  {
    Optohybrid.VfatReg(ohN, v, "CFG_4")
  }

  /** The `CFG_4` writes over the first n VFAT positions: each unmasked VFAT gets its
    * own reference voltage and gain with `dacSelect`, in VFAT order. */
  function Cfg4Plan(ohN: nat, mask: Word, vrefs: seq<Word>, gains: seq<Word>, dacSelect: Word, n: nat): (ws: seq<(string, Word)>)
    requires n <= |vrefs| && n <= |gains|
    decreases n
  {
    if n == 0 then []
    else
      var last := if Bit(NotMask(mask), n - 1) then [(Cfg4Name(ohN, n - 1), Cfg4(vrefs[n - 1], gains[n - 1], dacSelect))] else [];
      Cfg4Plan(ohN, mask, vrefs, gains, dacSelect, n - 1) + last
  }

  /** The plan writes `CFG_4` of exactly the unmasked VFATs, in ascending order, each
    * with the word built from that VFAT's values. */
  lemma {:induction false} Cfg4Targets(ohN: nat, mask: Word, vrefs: seq<Word>, gains: seq<Word>, dacSelect: Word, n: nat)
    requires n <= |vrefs| && n <= |gains| && n <= 24
    ensures var ws := Cfg4Plan(ohN, mask, vrefs, gains, dacSelect, n);
      |ws| == |Unmasked(mask, n)| &&
      forall k :: 0 <= k < |ws| ==>
        ws[k] == (Cfg4Name(ohN, Unmasked(mask, n)[k]), Cfg4(vrefs[Unmasked(mask, n)[k]], gains[Unmasked(mask, n)[k]], dacSelect))
    decreases n
  {
    if n > 0 {
      Cfg4Targets(ohN, mask, vrefs, gains, dacSelect, n - 1);
      NotMaskBits(mask, n - 1);
    }
  }

  /** Both broadcast reads found release 1 or 3, and `okV` and `okG` say which of
    * their register reads succeeded. */
  predicate MonitorRead(mem: map<Word, Word>, table: map<string, Descriptor>, c: Consts, ohN: nat, mask: Word,
                        okV: seq<bool>, okG: seq<bool>)
  {
    Readable(mem, table, Optohybrid.RELEASE_MAJOR) &&
    var fw := RegValue(mem, table, Optohybrid.RELEASE_MAJOR);
    (fw == 1 || fw == 3) && |okV| == c.vfatsPerOh && |okG| == c.vfatsPerOh &&
    Optohybrid.ReadsOk(mem, table, fw, ohN, "CFG_VREF_ADC", mask, okV) &&
    Optohybrid.ReadsOk(mem, table, fw, ohN, "CFG_MON_GAIN", mask, okG)
  }

  /** The `CFG_4` plan for the values the two broadcast reads return on mem. */
  function MonitorPlan(mem: map<Word, Word>, table: map<string, Descriptor>, c: Consts, ohN: nat, mask: Word, dacSelect: Word,
                       okV: seq<bool>, okG: seq<bool>): seq<(string, Word)>
    requires MonitorRead(mem, table, c, ohN, mask, okV, okG)
  {
    var fw := RegValue(mem, table, Optohybrid.RELEASE_MAJOR);
    Cfg4Plan(ohN, mask, Optohybrid.BroadcastData(mem, table, fw, ohN, "CFG_VREF_ADC", mask, okV),
             Optohybrid.BroadcastData(mem, table, fw, ohN, "CFG_MON_GAIN", mask, okG), dacSelect, c.vfatsPerOh)
  }

  /** `configureVFAT3DACMonitor(ohN, mask, dacSelect)`: nothing is written unless every
    * unmasked VFAT is in sync; then each unmasked VFAT's `CFG_4` selects `dacSelect`
    * and keeps its reference voltage and gain. */
  method ConfigureVFAT3DACMonitor(hw: Hardware, c: Consts, ohN: nat, mask: Word, dacSelect: Word)
    returns (r: Result<()>, ghost okV: seq<bool>, ghost okG: seq<bool>)
    requires Valid(c)
    modifies hw`mem, hw`faults, hw`trace
    ensures hw.mem.Keys == old(hw.mem).Keys
    ensures r.Ok? ==> (LinkReadable(old(hw.mem), hw.table, ohN, c.vfatsPerOh) &&
      UnmaskedGood(mask, GoodVfats(old(hw.mem), hw.table, ohN, c.vfatsPerOh)) &&
      MonitorRead(old(hw.mem), hw.table, c, ohN, mask, okV, okG) &&
      Performed(old(hw.mem), hw.mem, hw.table, Effects(old(hw.trace)), Effects(hw.trace),
                MonitorPlan(old(hw.mem), hw.table, c, ohN, mask, dacSelect, okV, okG)))
    ensures r.Err? ==> r.error.RuntimeError?
    ensures (LinkReadable(old(hw.mem), hw.table, ohN, c.vfatsPerOh) &&
      !UnmaskedGood(mask, GoodVfats(old(hw.mem), hw.table, ohN, c.vfatsPerOh))) ==>
      r.Err? && hw.mem == old(hw.mem) && Effects(hw.trace) == Effects(old(hw.trace))
  {
    okV, okG := [], [];
    var synced := RequireSynced(hw, c, ohN, mask);
    if synced.Err? {
      return Err(synced.error), okV, okG;
    }
    var vrefs, gains;
    vrefs, okV := Optohybrid.BroadcastRead(hw, c, ohN, "CFG_VREF_ADC", mask);
    if vrefs.Err? {
      return Err(vrefs.error), okV, okG;
    }
    gains, okG := Optohybrid.BroadcastRead(hw, c, ohN, "CFG_MON_GAIN", mask);
    if gains.Err? {
      return Err(gains.error), okV, okG;
    }
    r := WriteCfg4(hw, c, ohN, mask, vrefs.value.data, gains.value.data, dacSelect);
  }

  /** The loop of `CFG_4` writes. */
  method WriteCfg4(hw: Hardware, c: Consts, ohN: nat, mask: Word, vrefs: seq<Word>, gains: seq<Word>, dacSelect: Word)
    returns (r: Result<()>)
    requires c.vfatsPerOh <= |vrefs| && c.vfatsPerOh <= |gains|
    modifies hw`mem, hw`faults, hw`trace
    ensures hw.mem.Keys == old(hw.mem).Keys
    ensures r.Ok? ==> Performed(old(hw.mem), hw.mem, hw.table, Effects(old(hw.trace)), Effects(hw.trace),
                                Cfg4Plan(ohN, mask, vrefs, gains, dacSelect, c.vfatsPerOh))
    ensures r.Err? ==> r.error.RuntimeError?
  {
    ghost var m0 := hw.mem;
    ghost var e0 := Effects(hw.trace);
    PerformedNothing(m0, hw.table, e0);
    var vfatN := 0;
    while vfatN < c.vfatsPerOh
      invariant 0 <= vfatN <= c.vfatsPerOh
      invariant hw.mem.Keys == m0.Keys
      invariant Performed(m0, hw.mem, hw.table, e0, Effects(hw.trace), Cfg4Plan(ohN, mask, vrefs, gains, dacSelect, vfatN))
    {
      r := WriteCfg4One(hw, ohN, mask, vrefs, gains, dacSelect, vfatN, m0, e0);
      if r.Err? {
        return;
      }
      vfatN := vfatN + 1;
    }
    r := Ok(());
  }

  /** One VFAT position of the `CFG_4` loop. */
  method WriteCfg4One(hw: Hardware, ohN: nat, mask: Word, vrefs: seq<Word>, gains: seq<Word>, dacSelect: Word, vfatN: nat,
                      ghost m0: map<Word, Word>, ghost e0: seq<Event>) returns (r: Result<()>)
    requires vfatN < |vrefs| && vfatN < |gains|
    requires Performed(m0, hw.mem, hw.table, e0, Effects(hw.trace), Cfg4Plan(ohN, mask, vrefs, gains, dacSelect, vfatN))
    modifies hw`mem, hw`faults, hw`trace
    ensures hw.mem.Keys == old(hw.mem).Keys
    ensures r.Ok? ==> Performed(m0, hw.mem, hw.table, e0, Effects(hw.trace), Cfg4Plan(ohN, mask, vrefs, gains, dacSelect, vfatN + 1))
    ensures r.Err? ==> r.error.RuntimeError?
  {
    var plan := Cfg4Plan(ohN, mask, vrefs, gains, dacSelect, vfatN);
    if !Bit(NotMask(mask), vfatN) {
      assert plan + [] == plan;
      return Ok(());
    }
    ghost var m1 := hw.mem;
    ghost var e1 := Effects(hw.trace);
    var name := Cfg4Name(ohN, vfatN);
    var word := Cfg4(vrefs[vfatN], gains[vfatN], dacSelect);
    r := hw.Set(name, word);
    if r.Ok? {
      WriteOne(m1, hw.table, name, word);
      PerformedStep(m0, m1, hw.mem, hw.table, e0, e1, Effects(hw.trace), plan, [(name, word)]);
    }
  }

  // ---------------------------------------------------------------------------
  // The channel registers

  /** `GEM_AMC.OH.OH<ohN>.GEB.VFAT<v>.VFAT_CHANNELS.CHANNEL<ch>`. */
  function ChannelName(ohN: nat, v: nat, ch: nat): string
  {
    Optohybrid.VfatReg(ohN, v, "VFAT_CHANNELS.CHANNEL" + Dec(ch))
  }

  /** Position of channel ch of VFAT v in the channel data: `vfatN*128 + chan`. */
  function Idx(v: nat, ch: nat): nat
  {
    v * 128 + ch
  }

  /** The first k channel registers of VFAT v are in the table and served. */
  predicate ChannelsMapped(mem: map<Word, Word>, table: map<string, Descriptor>, ohN: nat, v: nat, k: nat)
  {
    forall ch :: 0 <= ch < k ==> Mapped(mem.Keys, table, ChannelName(ohN, v, ch))
  }

  /** The words at the addresses of the first k channel registers of VFAT v. */
  function ChannelWords(mem: map<Word, Word>, table: map<string, Descriptor>, ohN: nat, v: nat, k: nat): (ws: seq<Word>)
    requires ChannelsMapped(mem, table, ohN, v, k)
    ensures |ws| == k
  {
    seq(k, ch requires 0 <= ch < k => mem[table[ChannelName(ohN, v, ch)].address])
  }

  /** 128 zeros, the entries of a masked VFAT. */
  function Zeros(): (z: seq<Word>)
    ensures |z| == 128 && forall ch :: 0 <= ch < 128 ==> z[ch] == 0
  {
    seq(128, _ => 0)
  }

  /** Bit v of `notmask`, the loops' test that VFAT v is used. */
  predicate Used(mask: Word, v: nat)
  {
    Bit(NotMask(mask), v)
  }

  /** With at most 24 VFATs, a VFAT is used iff its mask bit is clear. */
  lemma UsedIff(mask: Word, v: nat)
    requires v < 24
    ensures Used(mask, v) <==> !Bit(mask, v)
  {
    NotMaskBits(mask, v);
  }

  /** The channels of every used VFAT among the first n are mapped. */
  predicate UsedMapped(mem: map<Word, Word>, table: map<string, Descriptor>, ohN: nat, mask: Word, n: nat)
  {
    forall v :: 0 <= v < n && Used(mask, v) ==> ChannelsMapped(mem, table, ohN, v, 128)
  }

  /** Every used VFAT among the first k is good, by the sync check over all n. */
  predicate UsedSynced(mem: map<Word, Word>, table: map<string, Descriptor>, ohN: nat, mask: Word, k: nat, n: nat)
    requires n <= 24
  {
    forall v :: 0 <= v < k && Used(mask, v) ==> LinkReadable(mem, table, ohN, n) && Bit(GoodVfats(mem, table, ohN, n), v)
  }

  /** What `getChannelRegistersVFAT3` returns for the first n VFATs: 128 words per VFAT,
    * zeros for a masked one. */
  function ChannelTable(mem: map<Word, Word>, table: map<string, Descriptor>, ohN: nat, mask: Word, n: nat): (ws: seq<Word>)
    requires UsedMapped(mem, table, ohN, mask, n)
    ensures |ws| == 128 * n
    decreases n
  {
    if n == 0 then []
    else
      var block := if Used(mask, n - 1) then ChannelWords(mem, table, ohN, n - 1, 128) else Zeros();
      ChannelTable(mem, table, ohN, mask, n - 1) + block
  }

  /** Entry `vfatN*128 + chan` is channel chan of VFAT vfatN: its register's word when
    * the VFAT is used, 0 when masked. */
  lemma {:induction false} ChannelTableAt(mem: map<Word, Word>, table: map<string, Descriptor>, ohN: nat, mask: Word, n: nat)
    requires UsedMapped(mem, table, ohN, mask, n)
    ensures forall v, ch :: 0 <= v < n && 0 <= ch < 128 ==>
      Idx(v, ch) < 128 * n &&
      ChannelTable(mem, table, ohN, mask, n)[Idx(v, ch)] ==
        if Used(mask, v) then mem[table[ChannelName(ohN, v, ch)].address] else 0
    decreases n
  {
    if n > 0 {
      ChannelTableAt(mem, table, ohN, mask, n - 1);
      var front := ChannelTable(mem, table, ohN, mask, n - 1);
      var t := ChannelTable(mem, table, ohN, mask, n);
      forall v, ch | 0 <= v < n && 0 <= ch < 128
        ensures Idx(v, ch) < 128 * n
        ensures t[Idx(v, ch)] == if Used(mask, v) then mem[table[ChannelName(ohN, v, ch)].address] else 0
      {
        if v < n - 1 {
          assert t[Idx(v, ch)] == front[Idx(v, ch)];
        } else {
          assert Idx(v, ch) == |front| + ch;
        }
      }
    }
  }

  /** `getChannelRegistersVFAT3(ohN, vfatMask)`: for each used VFAT, in order, the sync
    * check runs and must find it good, then its 128 channel words are read. */
  method GetChannelRegistersVFAT3(hw: Hardware, c: Consts, ohN: nat, mask: Word) returns (r: Result<seq<Word>>)
    requires Valid(c)
    modifies hw`faults, hw`trace
    ensures r.Ok? ==> (UsedMapped(hw.mem, hw.table, ohN, mask, c.vfatsPerOh) &&
      UsedSynced(hw.mem, hw.table, ohN, mask, c.vfatsPerOh, c.vfatsPerOh) &&
      r.value == ChannelTable(hw.mem, hw.table, ohN, mask, c.vfatsPerOh))
    ensures r.Err? ==> r.error.RuntimeError?
    ensures Effects(hw.trace) == Effects(old(hw.trace))
  {
    var out: seq<Word> := [];
    var vfatN := 0;
    while vfatN < c.vfatsPerOh
      invariant 0 <= vfatN <= c.vfatsPerOh
      invariant UsedMapped(hw.mem, hw.table, ohN, mask, vfatN)
      invariant UsedSynced(hw.mem, hw.table, ohN, mask, vfatN, c.vfatsPerOh)
      invariant out == ChannelTable(hw.mem, hw.table, ohN, mask, vfatN)
      invariant Effects(hw.trace) == Effects(old(hw.trace))
    {
      var block := ReadVfat(hw, c, ohN, mask, vfatN);
      if block.Err? {
        return Err(block.error);
      }
      ChannelTableStep(hw.mem, hw.table, ohN, mask, vfatN, c.vfatsPerOh);
      out := out + block.value;
      vfatN := vfatN + 1;
    }
    r := Ok(out);
  }

  /** One VFAT more. */
  lemma ChannelTableStep(mem: map<Word, Word>, table: map<string, Descriptor>, ohN: nat, mask: Word, v: nat, n: nat)
    requires n <= 24 && v < n
    requires UsedMapped(mem, table, ohN, mask, v) && UsedSynced(mem, table, ohN, mask, v, n)
    requires Used(mask, v) ==> (ChannelsMapped(mem, table, ohN, v, 128) && LinkReadable(mem, table, ohN, n) &&
      Bit(GoodVfats(mem, table, ohN, n), v))
    ensures UsedMapped(mem, table, ohN, mask, v + 1) && UsedSynced(mem, table, ohN, mask, v + 1, n)
    ensures ChannelTable(mem, table, ohN, mask, v + 1) == ChannelTable(mem, table, ohN, mask, v) +
      if Used(mask, v) then ChannelWords(mem, table, ohN, v, 128) else Zeros()
  {
  }

  /** One VFAT of `getChannelRegistersVFAT3`: zeros when masked, else the sync check
    * and the channel reads. */
  method ReadVfat(hw: Hardware, c: Consts, ohN: nat, mask: Word, v: nat) returns (r: Result<seq<Word>>)
    requires Valid(c)
    modifies hw`faults, hw`trace
    ensures r.Ok? && Used(mask, v) ==> (ChannelsMapped(hw.mem, hw.table, ohN, v, 128) &&
      LinkReadable(hw.mem, hw.table, ohN, c.vfatsPerOh) && Bit(GoodVfats(hw.mem, hw.table, ohN, c.vfatsPerOh), v) &&
      r.value == ChannelWords(hw.mem, hw.table, ohN, v, 128))
    ensures r.Ok? && !Used(mask, v) ==> r.value == Zeros()
    ensures r.Err? ==> r.error.RuntimeError?
    ensures Effects(hw.trace) == Effects(old(hw.trace))
  {
    if !Used(mask, v) {
      return Ok(Zeros());
    }
    var good := VfatSyncCheck(hw, c, ohN, Optohybrid.DEFAULT_MASK);
    if good.Err? {
      return Err(good.error);
    }
    if !Bit(good.value, v) {
      return Err(RuntimeError(UnsyncedVfat));
    }
    r := ReadChannels(hw, ohN, v);
  }

  /** The 128 channel reads of one VFAT: `getAddress`, then `readRawAddress`. */
  method ReadChannels(hw: Hardware, ohN: nat, v: nat) returns (r: Result<seq<Word>>)
    modifies hw`faults, hw`trace
    ensures r.Ok? ==> ChannelsMapped(hw.mem, hw.table, ohN, v, 128) && r.value == ChannelWords(hw.mem, hw.table, ohN, v, 128)
    ensures r.Err? ==> r.error.RuntimeError?
    ensures Effects(hw.trace) == Effects(old(hw.trace))
  {
    var words: seq<Word> := [];
    var chan := 0;
    while chan < 128
      invariant 0 <= chan <= 128
      invariant ChannelsMapped(hw.mem, hw.table, ohN, v, chan)
      invariant words == ChannelWords(hw.mem, hw.table, ohN, v, chan)
      invariant Effects(hw.trace) == Effects(old(hw.trace))
    {
      var addr := hw.GetAddress(ChannelName(ohN, v, chan));
      if addr.Err? {
        return Err(addr.error);
      }
      var x := hw.GetRaw(addr.value);
      if x.Err? {
        return Err(x.error);
      }
      words := words + [x.value];
      chan := chan + 1;
    }
    r := Ok(words);
  }

  // ---------------------------------------------------------------------------
  // Writing the channel registers, VFAT by VFAT

  /** The raw writes of the VFATs whose `written` flag is set, in VFAT order: VFAT v's
    * writes are `blocks[v]`. */
  function SetPlan(blocks: seq<seq<(string, Word)>>, written: seq<bool>): seq<(string, Word)>
    requires |written| <= |blocks|
    decreases |written|
  {
    if written == [] then []
    else
      var v := |written| - 1;
      SetPlan(blocks, written[..v]) + (if written[v] then blocks[v] else [])
  }

  lemma SetPlanSnoc(blocks: seq<seq<(string, Word)>>, written: seq<bool>, b: bool)
    requires |written| < |blocks|
    ensures SetPlan(blocks, written + [b]) == SetPlan(blocks, written) + (if b then blocks[|written|] else [])
  {
    assert (written + [b])[..|written|] == written;
  }

  /** VFAT v's turn, from (m0, e0) to (m1, e1): its writes `block` were made iff it is
    * used and the sync check made at the start of its turn found it good, and nothing
    * else was written. */
  predicate Turn(c: Consts, ohN: nat, mask: Word, block: seq<(string, Word)>, v: nat, table: map<string, Descriptor>,
                 m0: map<Word, Word>, m1: map<Word, Word>, e0: seq<Event>, e1: seq<Event>, written: bool)
    requires Valid(c)
  {
    (written <==> Used(mask, v) && LinkReadable(m0, table, ohN, c.vfatsPerOh) && Bit(GoodVfats(m0, table, ohN, c.vfatsPerOh), v)) &&
    RawPerformed(m0, m1, table, e0, e1, if written then block else [])
  }

  /** The turns of the first |written| VFATs: turn v runs from mids[v], logs[v] to
    * mids[v + 1], logs[v + 1]. */
  predicate Turns(c: Consts, ohN: nat, mask: Word, blocks: seq<seq<(string, Word)>>, table: map<string, Descriptor>,
                  mids: seq<map<Word, Word>>, logs: seq<seq<Event>>, written: seq<bool>)
    requires Valid(c)
  {
    |written| <= |blocks| && |mids| == |written| + 1 && |logs| == |written| + 1 &&
    forall v :: 0 <= v < |written| ==> Turn(c, ohN, mask, blocks[v], v, table, mids[v], mids[v + 1], logs[v], logs[v + 1], written[v])
  }

  lemma TurnsSnoc(c: Consts, ohN: nat, mask: Word, blocks: seq<seq<(string, Word)>>, table: map<string, Descriptor>,
                  mids: seq<map<Word, Word>>, logs: seq<seq<Event>>, written: seq<bool>,
                  m: map<Word, Word>, e: seq<Event>, b: bool)
    requires Valid(c) && Turns(c, ohN, mask, blocks, table, mids, logs, written) && |written| < |blocks|
    requires Turn(c, ohN, mask, blocks[|written|], |written|, table, mids[|written|], m, logs[|written|], e, b)
    ensures Turns(c, ohN, mask, blocks, table, mids + [m], logs + [e], written + [b])
  {
    var mids', logs', written' := mids + [m], logs + [e], written + [b];
    forall v | 0 <= v < |written'|
      ensures Turn(c, ohN, mask, blocks[v], v, table, mids'[v], mids'[v + 1], logs'[v], logs'[v + 1], written'[v])
    {
      if v < |written| {
        assert mids'[v] == mids[v] && mids'[v + 1] == mids[v + 1];
        assert logs'[v] == logs[v] && logs'[v + 1] == logs[v + 1] && written'[v] == written[v];
      }
    }
  }

  /** The first |written| turns of a channel-register setter, from (m0, e0) to (m, e):
    * chained, and altogether the plan of the VFATs written so far. */
  predicate SetSoFar(c: Consts, ohN: nat, mask: Word, blocks: seq<seq<(string, Word)>>, table: map<string, Descriptor>,
                     m0: map<Word, Word>, m: map<Word, Word>, e0: seq<Event>, e: seq<Event>,
                     mids: seq<map<Word, Word>>, logs: seq<seq<Event>>, written: seq<bool>)
    requires Valid(c)
  {
    Turns(c, ohN, mask, blocks, table, mids, logs, written) &&
    mids[0] == m0 && mids[|written|] == m && logs[0] == e0 && logs[|written|] == e &&
    RawPerformed(m0, m, table, e0, e, SetPlan(blocks, written))
  }

  /** A whole run: one turn per VFAT. */
  predicate SetDone(c: Consts, ohN: nat, mask: Word, blocks: seq<seq<(string, Word)>>, table: map<string, Descriptor>,
                    m0: map<Word, Word>, m1: map<Word, Word>, e0: seq<Event>, e1: seq<Event>,
                    mids: seq<map<Word, Word>>, logs: seq<seq<Event>>, written: seq<bool>)
    requires Valid(c)
  {
    |written| == c.vfatsPerOh && |blocks| == c.vfatsPerOh &&
    SetSoFar(c, ohN, mask, blocks, table, m0, m1, e0, e1, mids, logs, written)
  }

  lemma SetSoFarNothing(c: Consts, ohN: nat, mask: Word, blocks: seq<seq<(string, Word)>>, table: map<string, Descriptor>,
                        m0: map<Word, Word>, e0: seq<Event>)
    requires Valid(c)
    ensures SetSoFar(c, ohN, mask, blocks, table, m0, m0, e0, e0, [m0], [e0], [])
  {
    RawPerformedNothing(m0, table, e0);
  }

  /** One more turn extends a run. */
  lemma SetSoFarSnoc(c: Consts, ohN: nat, mask: Word, blocks: seq<seq<(string, Word)>>, table: map<string, Descriptor>,
                     m0: map<Word, Word>, m: map<Word, Word>, e0: seq<Event>, e: seq<Event>,
                     mids: seq<map<Word, Word>>, logs: seq<seq<Event>>, written: seq<bool>,
                     m': map<Word, Word>, e': seq<Event>, b: bool)
    requires Valid(c) && |written| < |blocks| && SetSoFar(c, ohN, mask, blocks, table, m0, m, e0, e, mids, logs, written)
    requires Turn(c, ohN, mask, blocks[|written|], |written|, table, m, m', e, e', b)
    ensures SetSoFar(c, ohN, mask, blocks, table, m0, m', e0, e', mids + [m'], logs + [e'], written + [b])
  {
    TurnsSnoc(c, ohN, mask, blocks, table, mids, logs, written, m', e', b);
    SetPlanSnoc(blocks, written, b);
    RawPerformedStep(m0, m, m', table, e0, e, e', SetPlan(blocks, written), if b then blocks[|written|] else []);
  }

  // ---------------------------------------------------------------------------
  // setChannelRegistersVFAT3Simple

  /** VFAT v's raw writes: channel ch gets `chanRegData[vfatN*128 + chan]`. */
  function SimpleBlock(ohN: nat, data: seq<Word>, v: nat): (ws: seq<(string, Word)>)
    requires Idx(v, 128) <= |data|
    ensures |ws| == 128
    ensures forall ch :: 0 <= ch < 128 ==> ws[ch] == (ChannelName(ohN, v, ch), data[Idx(v, ch)])
  {
    seq(128, ch requires 0 <= ch < 128 => (ChannelName(ohN, v, ch), data[Idx(v, ch)]))
  }

  function SimpleBlocks(ohN: nat, data: seq<Word>, n: nat): (bs: seq<seq<(string, Word)>>)
    requires |data| == 128 * n
    ensures |bs| == n
  {
    seq(n, v requires 0 <= v < n => SimpleBlock(ohN, data, v))
  }

  /** The 128 channel registers of VFAT v have different addresses. */
  predicate ChannelsDistinct(table: map<string, Descriptor>, ohN: nat, v: nat)
  {
    forall ch, ch' :: 0 <= ch < ch' < 128 && ChannelName(ohN, v, ch) in table && ChannelName(ohN, v, ch') in table ==>
      table[ChannelName(ohN, v, ch)].address != table[ChannelName(ohN, v, ch')].address
  }

  /** After a VFAT's turn wrote it, its channel registers read back the data given for
    * it (when the table gives its channels different addresses): the setter and
    * `getChannelRegistersVFAT3` agree. */
  lemma SimpleReadsBack(c: Consts, ohN: nat, mask: Word, data: seq<Word>, v: nat, table: map<string, Descriptor>,
                        m0: map<Word, Word>, m1: map<Word, Word>, e0: seq<Event>, e1: seq<Event>)
    requires Valid(c) && Idx(v, 128) <= |data| && ChannelsDistinct(table, ohN, v)
    requires Turn(c, ohN, mask, SimpleBlock(ohN, data, v), v, table, m0, m1, e0, e1, true)
    ensures ChannelsMapped(m1, table, ohN, v, 128)
    ensures ChannelWords(m1, table, ohN, v, 128) == data[Idx(v, 0)..Idx(v, 128)]
  {
    var ws := SimpleBlock(ohN, data, v);
    assert DistinctTargets(m0.Keys, table, ws);
    forall ch | 0 <= ch < 128
      ensures m1[table[ChannelName(ohN, v, ch)].address] == data[Idx(v, ch)]
    {
      RawWriteAllReads(m0, table, ws, ch);
    }
  }

  /** `setChannelRegistersVFAT3Simple(ohN, chanRegData, vfatMask)`: data of the wrong
    * size is refused before anything is written; then, VFAT by VFAT, a used VFAT that
    * the sync check finds good gets its 128 words, each by `getAddress` and
    * `writeRawAddress`, and a VFAT that is masked or not good is skipped. */
  method SetChannelRegistersVFAT3Simple(hw: Hardware, c: Consts, ohN: nat, data: seq<Word>, mask: Word)
    returns (r: Result<()>, ghost written: seq<bool>, ghost mids: seq<map<Word, Word>>, ghost logs: seq<seq<Event>>)
    requires Valid(c)
    modifies hw`mem, hw`faults, hw`trace
    ensures hw.mem.Keys == old(hw.mem).Keys
    ensures |data| != 128 * c.vfatsPerOh ==> (r == Err(RuntimeError(BadSize)) && hw.mem == old(hw.mem) &&
      Effects(hw.trace) == Effects(old(hw.trace)))
    ensures r.Ok? ==> (|data| == 128 * c.vfatsPerOh &&
      SetDone(c, ohN, mask, SimpleBlocks(ohN, data, c.vfatsPerOh), hw.table, old(hw.mem), hw.mem,
              Effects(old(hw.trace)), Effects(hw.trace), mids, logs, written))
    ensures r.Err? ==> r.error.RuntimeError?
  {
    written, mids, logs := [], [hw.mem], [Effects(hw.trace)];
    if |data| != 128 * c.vfatsPerOh {
      return Err(RuntimeError(BadSize)), written, mids, logs;
    }
    ghost var blocks := SimpleBlocks(ohN, data, c.vfatsPerOh);
    ghost var m0 := hw.mem;
    ghost var e0 := Effects(hw.trace);
    SetSoFarNothing(c, ohN, mask, blocks, hw.table, m0, e0);
    var vfatN := 0;
    while vfatN < c.vfatsPerOh
      invariant 0 <= vfatN <= c.vfatsPerOh && |written| == vfatN
      invariant hw.mem.Keys == m0.Keys
      invariant SetSoFar(c, ohN, mask, blocks, hw.table, m0, hw.mem, e0, Effects(hw.trace), mids, logs, written)
    {
      ghost var m1 := hw.mem;
      ghost var e1 := Effects(hw.trace);
      var b;
      b := SimpleTurn(hw, c, ohN, mask, data, vfatN);
      if b.Err? {
        return Err(b.error), written, mids, logs;
      }
      SetSoFarSnoc(c, ohN, mask, blocks, hw.table, m0, m1, e0, e1, mids, logs, written, hw.mem, Effects(hw.trace), b.value);
      written, mids, logs := written + [b.value], mids + [hw.mem], logs + [Effects(hw.trace)];
      vfatN := vfatN + 1;
    }
    r := Ok(());
  }

  /** One VFAT's turn of `setChannelRegistersVFAT3Simple`; the result says whether it
    * was written. */
  method SimpleTurn(hw: Hardware, c: Consts, ohN: nat, mask: Word, data: seq<Word>, v: nat) returns (r: Result<bool>)
    requires Valid(c) && Idx(v, 128) <= |data|
    modifies hw`mem, hw`faults, hw`trace
    ensures hw.mem.Keys == old(hw.mem).Keys
    ensures r.Ok? ==> Turn(c, ohN, mask, SimpleBlock(ohN, data, v), v, hw.table, old(hw.mem), hw.mem,
                           Effects(old(hw.trace)), Effects(hw.trace), r.value)
    ensures r.Err? ==> r.error.RuntimeError?
  {
    RawPerformedNothing(hw.mem, hw.table, Effects(hw.trace));
    if !Used(mask, v) {
      return Ok(false);
    }
    var good := VfatSyncCheck(hw, c, ohN, Optohybrid.DEFAULT_MASK);
    if good.Err? {
      return Err(good.error);
    }
    if !Bit(good.value, v) {
      return Ok(false);
    }
    var w := hw.WriteRawRegs(SimpleBlock(ohN, data, v));
    if w.Err? {
      return Err(w.error);
    }
    r := Ok(true);
  }

  // ---------------------------------------------------------------------------
  // setChannelRegistersVFAT3: the channel register layout

  /** The settings of one channel: calibration pulse enable, channel mask, and the
    * zero crossing and arming comparator trims with their polarities. */
  datatype ChannelConfig = ChannelConfig(cal: Word, mask: Word, zccPol: Word, zcc: Word, armPol: Word, arm: Word)

  /** Every field fits its place in the register: the flags are one bit, the trims six. */
  predicate Fits(cfg: ChannelConfig)
  {
    cfg.cal <= 1 && cfg.mask <= 1 && cfg.zccPol <= 1 && cfg.zcc <= 0x3f && cfg.armPol <= 1 && cfg.arm <= 0x3f
  }

  /** `(cal << 15) + (mask << 14) + (zccPol << 13) + (zcc << 7) + (armPol << 6) + arm`
    * in 32-bit arithmetic. */
  function ChannelWord(cfg: ChannelConfig): Word
  {
    Add32(Add32(Add32(Add32(Add32(Shl(cfg.cal, 15), Shl(cfg.mask, 14)), Shl(cfg.zccPol, 13)), Shl(cfg.zcc, 7)),
                Shl(cfg.armPol, 6)), cfg.arm)
  }

  /** The fields of a channel register word. */
  function Unpack(w: Word): (cfg: ChannelConfig)
    ensures Fits(cfg)
  {
    var q1 := w / 0x40;
    var q2 := q1 / 2;
    var q3 := q2 / 0x40;
    var q4 := q3 / 2;
    var q5 := q4 / 2;
    ChannelConfig(q5 % 2, q4 % 2, q3 % 2, q2 % 0x40, q1 % 2, w % 0x40)
  }

  /** With every field in its place, the word is a 16-bit value laid out field by field. */
  lemma ChannelWordValue(cfg: ChannelConfig)
    requires Fits(cfg)
    ensures ChannelWord(cfg) == cfg.arm + 0x40 * (cfg.armPol + 2 * (cfg.zcc + 0x40 * (cfg.zccPol + 2 * (cfg.mask + 2 * cfg.cal))))
    ensures ChannelWord(cfg) < 0x1_0000
  {
    Pow2Values();
    ShlFits(cfg.cal, 15);
    ShlFits(cfg.mask, 14);
    ShlFits(cfg.zccPol, 13);
    ShlFits(cfg.zcc, 7);
    ShlFits(cfg.armPol, 6);
  }

  /** Unpacking a packed register gives back its settings. */
  lemma UnpackPack(cfg: ChannelConfig)
    requires Fits(cfg)
    ensures Unpack(ChannelWord(cfg)) == cfg
  {
    ChannelWordValue(cfg);
    var w := ChannelWord(cfg);
    var h4 := cfg.mask + 2 * cfg.cal;
    var h3 := cfg.zccPol + 2 * h4;
    var h2 := cfg.zcc + 0x40 * h3;
    var h1 := cfg.armPol + 2 * h2;
    DivModUnique(w, 0x40, cfg.arm, h1);
    DivModUnique(h1, 2, cfg.armPol, h2);
    DivModUnique(h2, 0x40, cfg.zcc, h3);
    DivModUnique(h3, 2, cfg.zccPol, h4);
    DivModUnique(h4, 2, cfg.mask, cfg.cal);
    DivModUnique(cfg.cal, 2, cfg.cal, 0);
  }

  /** Every 16-bit register is the packing of its own fields. */
  lemma PackUnpack(w: Word)
    requires w < 0x1_0000
    ensures ChannelWord(Unpack(w)) == w
  {
    var q1 := w / 0x40;
    var q2 := q1 / 2;
    var q3 := q2 / 0x40;
    var q4 := q3 / 2;
    var q5 := q4 / 2;
    var cfg := Unpack(w);
    assert q5 < 2;
    assert cfg == ChannelConfig(q5, q4 % 2, q3 % 2, q2 % 0x40, q1 % 2, w % 0x40);
    Reassemble(w, cfg.arm, q1, cfg.armPol, q2, cfg.zcc, q3, cfg.zccPol, q4, cfg.mask, cfg.cal);
    ChannelWordValue(cfg);
  }

  /** Five quotient-remainder steps put back together. */
  lemma Reassemble(w: nat, r0: nat, q1: nat, r1: nat, q2: nat, r2: nat, q3: nat, r3: nat, q4: nat, r4: nat, q5: nat)
    requires w == r0 + 0x40 * q1 && q1 == r1 + 2 * q2 && q2 == r2 + 0x40 * q3 && q3 == r3 + 2 * q4 && q4 == r4 + 2 * q5
    ensures w == r0 + 0x40 * (r1 + 2 * (r2 + 0x40 * (r3 + 2 * (r4 + 2 * q5))))
  {
  }

  /** The flags are not range-checked: a mask value of 2 sets the calibration pulse bit. */
  lemma ChannelFlagsOverlap()
    ensures ChannelWord(ChannelConfig(0, 2, 0, 0, 0, 0)) == ChannelWord(ChannelConfig(1, 0, 0, 0, 0, 0))
  {
    Pow2Values();
    ShlFits(2, 14);
    ShlFits(1, 15);
    ShlFits(0, 15);
    ShlFits(0, 14);
    ShlFits(0, 13);
    ShlFits(0, 7);
    ShlFits(0, 6);
  }

  // ---------------------------------------------------------------------------
  // setChannelRegistersVFAT3

  /** The six per-channel vectors, each indexed by `vfatN*128 + chan`. */
  datatype ChannelData = ChannelData(calEnable: seq<Word>, masks: seq<Word>, trimARM: seq<Word>,
                                     trimARMPol: seq<Word>, trimZCC: seq<Word>, trimZCCPol: seq<Word>)

  /** The five vectors besides `calEnable` have at least len entries. */
  predicate OthersCover(d: ChannelData, len: nat)
  {
    len <= |d.masks| && len <= |d.trimARM| && len <= |d.trimARMPol| && len <= |d.trimZCC| && len <= |d.trimZCCPol|
  }

  predicate Covers(d: ChannelData, len: nat)
  {
    len <= |d.calEnable| && OthersCover(d, len)
  }

  function ConfigAt(d: ChannelData, i: nat): ChannelConfig
    requires Covers(d, i + 1)
  {
    ChannelConfig(d.calEnable[i], d.masks[i], d.trimZCCPol[i], d.trimZCC[i], d.trimARMPol[i], d.trimARM[i])
  }

  /** The trims are within [0x0, 0x3F]; a channel whose trims are not is skipped. */
  predicate TrimsInRange(cfg: ChannelConfig)
  {
    cfg.arm <= 0x3f && cfg.zcc <= 0x3f
  }

  /** The channels below k of VFAT v whose trims are in range, in ascending order. */
  function InRangeChannels(d: ChannelData, v: nat, k: nat): (chs: seq<nat>)
    requires k <= 128 && Covers(d, Idx(v, 128))
    ensures forall j :: 0 <= j < |chs| ==> chs[j] < k
    decreases k
  {
    if k == 0 then []
    else InRangeChannels(d, v, k - 1) + (if TrimsInRange(ConfigAt(d, Idx(v, k - 1))) then [k - 1] else [])
  }

  /** Channel ch of VFAT v gets the packing of its own settings. */
  function ChannelEntry(ohN: nat, d: ChannelData, v: nat, ch: nat): (string, Word)
    requires ch < 128 && Covers(d, Idx(v, 128))
  {
    (ChannelName(ohN, v, ch), ChannelWord(ConfigAt(d, Idx(v, ch))))
  }

  /** The write to channel ch of VFAT v, if its trims are in range. */
  function ChannelWrites(ohN: nat, d: ChannelData, v: nat, ch: nat): seq<(string, Word)>
    requires ch < 128 && Covers(d, Idx(v, 128))
  {
    if TrimsInRange(ConfigAt(d, Idx(v, ch))) then [ChannelEntry(ohN, d, v, ch)] else []
  }

  /** The writes to the first k channels of VFAT v: each channel in range gets its
    * packed register, in channel order. */
  function ChannelPlan(ohN: nat, d: ChannelData, v: nat, k: nat): seq<(string, Word)>
    requires k <= 128 && Covers(d, Idx(v, 128))
    decreases k
  {
    if k == 0 then [] else ChannelPlan(ohN, d, v, k - 1) + ChannelWrites(ohN, d, v, k - 1)
  }

  /** The channels selected are exactly those whose trims are in range, each once, in
    * ascending order. */
  lemma {:induction false} InRangeChannelsMembers(d: ChannelData, v: nat, k: nat)
    requires k <= 128 && Covers(d, Idx(v, 128))
    ensures forall ch: nat :: ch in InRangeChannels(d, v, k) <==> ch < k && TrimsInRange(ConfigAt(d, Idx(v, ch)))
    ensures forall i, j :: 0 <= i < j < |InRangeChannels(d, v, k)| ==> InRangeChannels(d, v, k)[i] < InRangeChannels(d, v, k)[j]
    decreases k
  {
    if k > 0 {
      InRangeChannelsMembers(d, v, k - 1);
    }
  }

  /** The j-th write goes to the j-th channel in range, with the packing of that
    * channel's own settings. */
  lemma {:induction false} ChannelPlanAt(ohN: nat, d: ChannelData, v: nat, k: nat)
    requires k <= 128 && Covers(d, Idx(v, 128))
    ensures |ChannelPlan(ohN, d, v, k)| == |InRangeChannels(d, v, k)|
    ensures forall j :: 0 <= j < |ChannelPlan(ohN, d, v, k)| ==>
      ChannelPlan(ohN, d, v, k)[j] == ChannelEntry(ohN, d, v, InRangeChannels(d, v, k)[j])
    decreases k
  {
    if k > 0 {
      ChannelPlanAt(ohN, d, v, k - 1);
      var ws, ws' := ChannelPlan(ohN, d, v, k - 1), ChannelPlan(ohN, d, v, k);
      var chs, chs' := InRangeChannels(d, v, k - 1), InRangeChannels(d, v, k);
      if TrimsInRange(ConfigAt(d, Idx(v, k - 1))) {
        assert ws' == ws + [ChannelEntry(ohN, d, v, k - 1)];
        assert chs' == chs + [k - 1];
        forall j | 0 <= j < |ws'|
          ensures ws'[j] == ChannelEntry(ohN, d, v, chs'[j])
        {
          if j < |ws| {
            assert ws'[j] == ws[j] && chs'[j] == chs[j];
          }
        }
      } else {
        assert ws' == ws && chs' == chs;
      }
    }
  }

  function FullBlocks(ohN: nat, d: ChannelData, n: nat): (bs: seq<seq<(string, Word)>>)
    requires Covers(d, 128 * n)
    ensures |bs| == n
  {
    seq(n, v requires 0 <= v < n => ChannelPlan(ohN, d, v, 128))
  }

  /** `setChannelRegistersVFAT3(ohN, calEnable, masks, trimARM, trimARMPol, trimZCC,
    * trimZCCPol, vfatMask)`: only `calEnable`'s size is checked, and one of the wrong
    * size is refused before anything is written; then, VFAT by VFAT, a used VFAT that
    * the sync check finds good has each channel's address looked up and, when its
    * trims are in range, its packed register written; other VFATs are skipped. */
  method SetChannelRegistersVFAT3(hw: Hardware, c: Consts, ohN: nat, d: ChannelData, mask: Word)
    returns (r: Result<()>, ghost written: seq<bool>, ghost mids: seq<map<Word, Word>>, ghost logs: seq<seq<Event>>)
    requires Valid(c) && OthersCover(d, 128 * c.vfatsPerOh)
    modifies hw`mem, hw`faults, hw`trace
    ensures hw.mem.Keys == old(hw.mem).Keys
    ensures |d.calEnable| != 128 * c.vfatsPerOh ==> (r == Err(RuntimeError(BadSize)) && hw.mem == old(hw.mem) &&
      Effects(hw.trace) == Effects(old(hw.trace)))
    ensures r.Ok? ==> (Covers(d, 128 * c.vfatsPerOh) &&
      SetDone(c, ohN, mask, FullBlocks(ohN, d, c.vfatsPerOh), hw.table, old(hw.mem), hw.mem,
              Effects(old(hw.trace)), Effects(hw.trace), mids, logs, written))
    ensures r.Err? ==> r.error.RuntimeError?
  {
    written, mids, logs := [], [hw.mem], [Effects(hw.trace)];
    if |d.calEnable| != 128 * c.vfatsPerOh {
      return Err(RuntimeError(BadSize)), written, mids, logs;
    }
    ghost var blocks := FullBlocks(ohN, d, c.vfatsPerOh);
    ghost var m0 := hw.mem;
    ghost var e0 := Effects(hw.trace);
    SetSoFarNothing(c, ohN, mask, blocks, hw.table, m0, e0);
    var vfatN := 0;
    while vfatN < c.vfatsPerOh
      invariant 0 <= vfatN <= c.vfatsPerOh && |written| == vfatN
      invariant hw.mem.Keys == m0.Keys
      invariant SetSoFar(c, ohN, mask, blocks, hw.table, m0, hw.mem, e0, Effects(hw.trace), mids, logs, written)
    {
      ghost var m1 := hw.mem;
      ghost var e1 := Effects(hw.trace);
      var b;
      b := FullTurn(hw, c, ohN, mask, d, vfatN);
      if b.Err? {
        return Err(b.error), written, mids, logs;
      }
      SetSoFarSnoc(c, ohN, mask, blocks, hw.table, m0, m1, e0, e1, mids, logs, written, hw.mem, Effects(hw.trace), b.value);
      written, mids, logs := written + [b.value], mids + [hw.mem], logs + [Effects(hw.trace)];
      vfatN := vfatN + 1;
    }
    r := Ok(());
  }

  /** One VFAT's turn of `setChannelRegistersVFAT3`; the result says whether it was
    * written. A written VFAT has all 128 channel registers in the table, whether or not
    * their trims were in range. */
  method FullTurn(hw: Hardware, c: Consts, ohN: nat, mask: Word, d: ChannelData, v: nat) returns (r: Result<bool>)
    requires Valid(c) && Covers(d, Idx(v, 128))
    modifies hw`mem, hw`faults, hw`trace
    ensures hw.mem.Keys == old(hw.mem).Keys
    ensures r.Ok? ==> Turn(c, ohN, mask, ChannelPlan(ohN, d, v, 128), v, hw.table, old(hw.mem), hw.mem,
                           Effects(old(hw.trace)), Effects(hw.trace), r.value)
    ensures r.Ok? && r.value ==> ChannelsKnown(hw.table, ohN, v, 128)
    ensures r.Err? ==> r.error.RuntimeError?
  {
    RawPerformedNothing(hw.mem, hw.table, Effects(hw.trace));
    if !Used(mask, v) {
      return Ok(false);
    }
    var good := VfatSyncCheck(hw, c, ohN, Optohybrid.DEFAULT_MASK);
    if good.Err? {
      return Err(good.error);
    }
    if !Bit(good.value, v) {
      return Ok(false);
    }
    var w := WriteChannels(hw, ohN, d, v);
    if w.Err? {
      return Err(w.error);
    }
    r := Ok(true);
  }

  /** The first k channel registers of VFAT v are in the address table. */
  predicate ChannelsKnown(table: map<string, Descriptor>, ohN: nat, v: nat, k: nat)
  {
    forall ch :: 0 <= ch < k ==> ChannelName(ohN, v, ch) in table
  }

  /** The channel loop of one VFAT. */
  method WriteChannels(hw: Hardware, ohN: nat, d: ChannelData, v: nat) returns (r: Result<()>)
    requires Covers(d, Idx(v, 128))
    modifies hw`mem, hw`faults, hw`trace
    ensures hw.mem.Keys == old(hw.mem).Keys
    ensures r.Ok? ==> ChannelsKnown(hw.table, ohN, v, 128)
    ensures r.Ok? ==> RawPerformed(old(hw.mem), hw.mem, hw.table, Effects(old(hw.trace)), Effects(hw.trace),
                                   ChannelPlan(ohN, d, v, 128))
    ensures r.Err? ==> r.error.RuntimeError?
  {
    ghost var m0, e0 := hw.mem, Effects(hw.trace);
    RawPerformedNothing(m0, hw.table, e0);
    var chan := 0;
    while chan < 128
      invariant 0 <= chan <= 128
      invariant hw.mem.Keys == m0.Keys
      invariant ChannelsKnown(hw.table, ohN, v, chan)
      invariant RawPerformed(m0, hw.mem, hw.table, e0, Effects(hw.trace), ChannelPlan(ohN, d, v, chan))
    {
      var s := ChannelStep(hw, ohN, d, v, chan, m0, e0);
      if s.Err? {
        return Err(s.error);
      }
      chan := chan + 1;
    }
    r := Ok(());
  }

  /** One channel: look up its address, then write its packed register if its trims
    * are in range. */
  method ChannelStep(hw: Hardware, ohN: nat, d: ChannelData, v: nat, ch: nat, ghost m0: map<Word, Word>, ghost e0: seq<Event>)
    returns (r: Result<()>)
    requires ch < 128 && Covers(d, Idx(v, 128)) && ChannelsKnown(hw.table, ohN, v, ch)
    requires RawPerformed(m0, hw.mem, hw.table, e0, Effects(hw.trace), ChannelPlan(ohN, d, v, ch))
    modifies hw`mem, hw`faults, hw`trace
    ensures hw.mem.Keys == old(hw.mem).Keys
    ensures r.Ok? ==> ChannelsKnown(hw.table, ohN, v, ch + 1)
    ensures r.Ok? ==> RawPerformed(m0, hw.mem, hw.table, e0, Effects(hw.trace), ChannelPlan(ohN, d, v, ch + 1))
    ensures r.Err? ==> r.error.RuntimeError?
  {
    var name := ChannelName(ohN, v, ch);
    var addr := hw.GetAddress(name);
    if addr.Err? {
      return Err(addr.error);
    }
    ghost var m1, e1 := hw.mem, Effects(hw.trace);
    assert ChannelsKnown(hw.table, ohN, v, ch + 1);
    var cfg := ConfigAt(d, Idx(v, ch));
    if !TrimsInRange(cfg) {
      assert ChannelWrites(ohN, d, v, ch) == [];
      RawPerformedNothing(hw.mem, hw.table, Effects(hw.trace));
    } else {
      assert ChannelWrites(ohN, d, v, ch) == [(name, ChannelWord(cfg))];
      var w := hw.SetRaw(addr.value, ChannelWord(cfg));
      if w.Err? {
        return Err(w.error);
      }
      RawWriteOne(m1, hw.table, name, ChannelWord(cfg));
    }
    RawPerformedStep(m0, m1, hw.mem, hw.table, e0, e1, Effects(hw.trace), ChannelPlan(ohN, d, v, ch), ChannelWrites(ohN, d, v, ch));
    r := Ok(());
  }

  // ---------------------------------------------------------------------------
  // getVFAT3ChipIDs

  /** What `decodeChipID` makes of a raw chip ID: the decoded 16-bit ID, a decoding
    * failure (reported as `std::runtime_error`), or a code larger than the Reed-Muller
    * RM(2,5) decoder accepts (reported as `std::out_of_range`). */
  datatype Decoding = Decoded(id: Word) | Undecodable | BeyondMax

  /** The placeholder entry of a masked VFAT. */
  const MASKED_CHIP_ID: Word := 0xdead_dead

  function ChipIdName(ohN: nat, v: nat): string
  {
    Optohybrid.VfatReg(ohN, v, "HW_CHIP_ID")
  }

  predicate ChipsReadable(mem: map<Word, Word>, table: map<string, Descriptor>, ohN: nat, mask: Word, n: nat)
  {
    forall v :: 0 <= v < n && Used(mask, v) ==> Readable(mem, table, ChipIdName(ohN, v))
  }

  /** No used VFAT's chip ID is beyond what the decoder accepts. */
  predicate ChipsDecodable(mem: map<Word, Word>, table: map<string, Descriptor>, ohN: nat, mask: Word, n: nat,
                           decode: Word -> Decoding)
    requires ChipsReadable(mem, table, ohN, mask, n)
  {
    forall v :: 0 <= v < n && Used(mask, v) ==> !decode(RegValue(mem, table, ChipIdName(ohN, v))).BeyondMax?
  }

  /** The entry of a used VFAT: the raw ID when asked for or when decoding fails, else
    * the decoded ID as a 16-bit value. */
  function ChipEntry(raw: Word, dec: Decoding, rawID: bool): Word
  {
    match dec
    case Decoded(id) => if rawID then raw else id % 0x1_0000
    case _ => raw
  }

  /** The chip IDs of the first n VFAT positions, with `0xdeaddead` for a masked VFAT. */
  function ChipIDs(mem: map<Word, Word>, table: map<string, Descriptor>, ohN: nat, mask: Word, rawID: bool,
                   decode: Word -> Decoding, n: nat): (ids: seq<Word>)
    requires ChipsReadable(mem, table, ohN, mask, n)
    ensures |ids| == n
  {
    seq(n, v requires 0 <= v < n => ChipAt(mem, table, ohN, mask, rawID, decode, v))
  }

  function ChipAt(mem: map<Word, Word>, table: map<string, Descriptor>, ohN: nat, mask: Word, rawID: bool,
                  decode: Word -> Decoding, v: nat): Word
    requires Used(mask, v) ==> Readable(mem, table, ChipIdName(ohN, v))
  {
    if Used(mask, v) then
      var raw := RegValue(mem, table, ChipIdName(ohN, v));
      ChipEntry(raw, decode(raw), rawID)
    else MASKED_CHIP_ID
  }

  /** Entry v of the result: `0xdeaddead` when VFAT v is masked; its raw chip ID when
    * `rawID` is set or decoding fails; otherwise its decoded ID, below 0x10000. */
  lemma ChipIDsEntries(mem: map<Word, Word>, table: map<string, Descriptor>, ohN: nat, mask: Word, rawID: bool,
                       decode: Word -> Decoding, n: nat, v: nat)
    requires n <= 24 && v < n && ChipsReadable(mem, table, ohN, mask, n)
    ensures Used(mask, v) <==> !Bit(mask, v)
    ensures !Used(mask, v) ==> ChipIDs(mem, table, ohN, mask, rawID, decode, n)[v] == 0xdead_dead
    ensures Used(mask, v) && (rawID || !decode(RegValue(mem, table, ChipIdName(ohN, v))).Decoded?) ==>
      ChipIDs(mem, table, ohN, mask, rawID, decode, n)[v] == RegValue(mem, table, ChipIdName(ohN, v))
    ensures Used(mask, v) && !rawID && decode(RegValue(mem, table, ChipIdName(ohN, v))).Decoded? ==>
      (ChipIDs(mem, table, ohN, mask, rawID, decode, n)[v] == decode(RegValue(mem, table, ChipIdName(ohN, v))).id % 0x1_0000 &&
       ChipIDs(mem, table, ohN, mask, rawID, decode, n)[v] < 0x1_0000)
  {
    UsedIff(mask, v);
  }

  /** `getVFAT3ChipIDs(ohN, vfatMask, rawID)`: every unmasked VFAT must be in sync, else
    * `std::runtime_error` and nothing is read; then one entry per VFAT position, a
    * used VFAT's from its `HW_CHIP_ID` register. A chip ID beyond the decoder's range
    * ends the call with `std::out_of_range`. `decodeChipID`'s Reed-Muller decoder is
    * the parameter `decode`. */
  method GetVFAT3ChipIDs(hw: Hardware, c: Consts, ohN: nat, mask: Word, rawID: bool, decode: Word -> Decoding)
    returns (r: Result<seq<Word>>)
    requires Valid(c)
    modifies hw`faults, hw`trace
    ensures Effects(hw.trace) == Effects(old(hw.trace))
    ensures r.Ok? ==> (LinkReadable(hw.mem, hw.table, ohN, c.vfatsPerOh) &&
      UnmaskedGood(mask, GoodVfats(hw.mem, hw.table, ohN, c.vfatsPerOh)) &&
      ChipsReadable(hw.mem, hw.table, ohN, mask, c.vfatsPerOh) &&
      ChipsDecodable(hw.mem, hw.table, ohN, mask, c.vfatsPerOh, decode) &&
      r.value == ChipIDs(hw.mem, hw.table, ohN, mask, rawID, decode, c.vfatsPerOh))
    ensures r.Err? ==> r.error.RuntimeError? || r.error == OutOfRange(AboveMaximum)
  {
    var s := RequireSynced(hw, c, ohN, mask);
    if s.Err? {
      return Err(s.error);
    }
    var ids: seq<Word> := [];
    var vfatN := 0;
    while vfatN < c.vfatsPerOh
      invariant 0 <= vfatN <= c.vfatsPerOh
      invariant LinkReadable(hw.mem, hw.table, ohN, c.vfatsPerOh)
      invariant UnmaskedGood(mask, GoodVfats(hw.mem, hw.table, ohN, c.vfatsPerOh))
      invariant ChipsReadable(hw.mem, hw.table, ohN, mask, vfatN)
      invariant ChipsDecodable(hw.mem, hw.table, ohN, mask, vfatN, decode)
      invariant ids == ChipIDs(hw.mem, hw.table, ohN, mask, rawID, decode, vfatN)
      invariant Effects(hw.trace) == Effects(old(hw.trace))
    {
      var e := ChipStep(hw, ohN, mask, rawID, decode, vfatN);
      if e.Err? {
        return Err(e.error);
      }
      ChipIDsSnoc(hw.mem, hw.table, ohN, mask, rawID, decode, vfatN);
      ids := ids + [e.value];
      vfatN := vfatN + 1;
    }
    r := Ok(ids);
  }

  /** One VFAT position of `getVFAT3ChipIDs`. */
  method ChipStep(hw: Hardware, ohN: nat, mask: Word, rawID: bool, decode: Word -> Decoding, v: nat) returns (r: Result<Word>)
    modifies hw`faults, hw`trace
    ensures Effects(hw.trace) == Effects(old(hw.trace))
    ensures r.Ok? ==> (Used(mask, v) ==> Readable(hw.mem, hw.table, ChipIdName(ohN, v)) &&
                                         !decode(RegValue(hw.mem, hw.table, ChipIdName(ohN, v))).BeyondMax?)
    ensures r.Ok? ==> r.value == ChipAt(hw.mem, hw.table, ohN, mask, rawID, decode, v)
    ensures r.Err? ==> r.error.RuntimeError? || r.error == OutOfRange(AboveMaximum)
  {
    if !Used(mask, v) {
      return Ok(MASKED_CHIP_ID);
    }
    var id := hw.Get(ChipIdName(ohN, v));
    if id.Err? {
      return Err(id.error);
    }
    if decode(id.value).BeyondMax? {
      return Err(OutOfRange(AboveMaximum));
    }
    r := Ok(ChipEntry(id.value, decode(id.value), rawID));
  }

  lemma ChipIDsSnoc(mem: map<Word, Word>, table: map<string, Descriptor>, ohN: nat, mask: Word, rawID: bool,
                    decode: Word -> Decoding, n: nat)
    requires ChipsReadable(mem, table, ohN, mask, n)
    requires Used(mask, n) ==> Readable(mem, table, ChipIdName(ohN, n)) && !decode(RegValue(mem, table, ChipIdName(ohN, n))).BeyondMax?
    requires ChipsDecodable(mem, table, ohN, mask, n, decode)
    ensures ChipsReadable(mem, table, ohN, mask, n + 1) && ChipsDecodable(mem, table, ohN, mask, n + 1, decode)
    ensures ChipIDs(mem, table, ohN, mask, rawID, decode, n + 1) ==
            ChipIDs(mem, table, ohN, mask, rawID, decode, n) + [ChipAt(mem, table, ohN, mask, rawID, decode, n)]
  {
    assert ChipsReadable(mem, table, ohN, mask, n + 1);
  }
}
