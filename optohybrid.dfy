/** The OptoHybrid functions of src/optohybrid.cpp: broadcast writes and reads over the
  * unmasked VFATs of a link, run and sleep mode, the scan-controller guards and the
  * stopping of calibration pulses. Their register calls go through a transaction
  * handle (`localArgs`) whose calls behave as `readReg`, `writeReg` and `writeRawReg`
  * of src/utils.cpp. */
module Optohybrid {

  import opened Wrappers
  import opened Bits
  import opened Text
  import opened Registers
  import opened HwConstants
  import opened Packing
  import opened Selection

  const RELEASE_MAJOR: string := "GEM_AMC.GEM_SYSTEM.RELEASE.MAJOR"

  /** The mask the RPC wrappers use when the request has none: VFATs 0 to 23 selected. */
  const DEFAULT_MASK: Word := 0xFF00_0000

  // ---------------------------------------------------------------------------
  // Register names

  /** `GEM_AMC.OH.OH<ohN>.GEB.VFAT<v>.<reg>`, a VFAT register of v3 firmware. */
  function VfatReg(ohN: nat, v: nat, reg: string): string
  {
    "GEM_AMC.OH.OH" + Dec(ohN) + ".GEB.VFAT" + Dec(v) + "." + reg
  }

  /** `GEM_AMC.OH.OH<ohN>.GEB.VFATS.VFAT<v>.<reg>`, a VFAT register of v2b firmware. */
  function V2VfatReg(ohN: nat, v: nat, reg: string): string
  {
    "GEM_AMC.OH.OH" + Dec(ohN) + ".GEB.VFATS.VFAT" + Dec(v) + "." + reg
  }

  /** `GEM_AMC.OH.OH<ohN>.GEB.Broadcast`, the v2b broadcast module. */
  function BroadcastBase(ohN: nat): string
  {
    "GEM_AMC.OH.OH" + Dec(ohN) + ".GEB.Broadcast"
  }

  /** The request's mask, or `0xFF000000` when it has none; the default selects every
    * one of the 24 VFAT positions. */
  function RequestMask(mask: Option<Word>): (m: Word)
    ensures mask.Some? ==> m == mask.value
    ensures mask.None? ==> forall v: nat :: v < 24 ==> !Bit(m, v)
  {
    if mask.Some? then mask.value
    else
      assert forall v: nat :: v < 24 ==> !Bit(DEFAULT_MASK, v) by {
        forall v: nat | v < 24
          ensures !Bit(DEFAULT_MASK, v)
        {
          DefaultMaskBit(v);
        }
      }
      DEFAULT_MASK
  }

  /** Bit v of `0xFF000000` is set iff 24 <= v < 32. */
  lemma DefaultMaskBit(v: nat)
    ensures Bit(DEFAULT_MASK, v) <==> 24 <= v < 32
  {
    assert DEFAULT_MASK == Not(0xff_ffff);
    Low24Bits(v);
    if v < 32 {
      BitNot(0xff_ffff, v);
    } else {
      Pow2Word();
      BitHigh(DEFAULT_MASK, 32, v);
    }
  }

  // ---------------------------------------------------------------------------
  // broadcastWriteLocal

  /** The v2b broadcast: reset the module, set the mask, issue the request. */
  function V2BroadcastPlan(ohN: nat, reg: string, value: Word, mask: Word): (ws: seq<(string, Word)>)
    ensures |ws| == 3
  {
    [(BroadcastBase(ohN) + ".Reset", 0), (BroadcastBase(ohN) + ".Mask", mask),
     (BroadcastBase(ohN) + ".Request." + reg, value)]
  }

  /** The v3 broadcast over the first n VFAT positions: `value` to `reg` of each
    * unmasked one, in ascending order. */
  function BroadcastPlan(ohN: nat, reg: string, value: Word, mask: Word, n: nat): (ws: seq<(string, Word)>)
    decreases n
  {
    if n == 0 then []
    else BroadcastPlan(ohN, reg, value, mask, n - 1) + (if Bit(mask, n - 1) then [] else [(VfatReg(ohN, n - 1, reg), value)])
  }

  /** The v3 broadcast writes `value` to the register of exactly the unmasked VFATs,
    * one write each, in ascending VFAT order. */
  lemma {:induction false} BroadcastTargets(ohN: nat, reg: string, value: Word, mask: Word, n: nat)
    ensures var ws := BroadcastPlan(ohN, reg, value, mask, n);
      |ws| == |Unmasked(mask, n)| &&
      forall k :: 0 <= k < |ws| ==> ws[k] == (VfatReg(ohN, Unmasked(mask, n)[k], reg), value)
    decreases n
  {
    if n > 0 {
      BroadcastTargets(ohN, reg, value, mask, n - 1);
    }
  }

  /** What `broadcastWriteLocal` did from (m0, e0) to (m1, e1), given the firmware
    * release read from m0: the v2b plan as raw writes, the v3 plan as `writeReg`
    * calls, and nothing for any other release. */
  predicate Broadcasted(m0: map<Word, Word>, m1: map<Word, Word>, table: map<string, Descriptor>,
                        e0: seq<Event>, e1: seq<Event>, c: Consts, ohN: nat, reg: string, value: Word, mask: Word)
    requires Readable(m0, table, RELEASE_MAJOR)
  {
    var fw := RegValue(m0, table, RELEASE_MAJOR);
    (fw == 1 ==> RawPerformed(m0, m1, table, e0, e1, V2BroadcastPlan(ohN, reg, value, mask))) &&
    (fw == 3 ==> Performed(m0, m1, table, e0, e1, BroadcastPlan(ohN, reg, value, mask, c.vfatsPerOh))) &&
    (fw != 1 && fw != 3 ==> m1 == m0 && e1 == e0)
  }

  /** `broadcastWriteLocal(ohN, regName, value, mask)`. The v2b branch's wait for the
    * broadcast to finish is not modelled. */
  method BroadcastWrite(hw: Hardware, c: Consts, ohN: nat, reg: string, value: Word, mask: Word) returns (r: Result<()>)
    modifies hw`mem, hw`faults, hw`trace
    ensures hw.mem.Keys == old(hw.mem).Keys
    ensures r.Ok? ==> (Readable(old(hw.mem), hw.table, RELEASE_MAJOR) &&
      Broadcasted(old(hw.mem), hw.mem, hw.table, Effects(old(hw.trace)), Effects(hw.trace), c, ohN, reg, value, mask))
    ensures r.Err? ==> r.error.RuntimeError?
  {
    var fw := hw.Get(RELEASE_MAJOR);
    if fw.Err? {
      return Err(fw.error);
    }
    if fw.value == 1 {
      r := V2Broadcast(hw, ohN, reg, value, mask);
    } else if fw.value == 3 {
      r := V3Broadcast(hw, c, ohN, reg, value, mask);
    } else {
      r := Ok(());
    }
  }

  /** The v2b branch: three raw writes, stopping at the first that fails. */
  method V2Broadcast(hw: Hardware, ohN: nat, reg: string, value: Word, mask: Word) returns (r: Result<()>)
    modifies hw`mem, hw`faults, hw`trace
    ensures hw.mem.Keys == old(hw.mem).Keys
    ensures r.Ok? ==> RawPerformed(old(hw.mem), hw.mem, hw.table, Effects(old(hw.trace)), Effects(hw.trace),
                                   V2BroadcastPlan(ohN, reg, value, mask))
    ensures r.Err? ==> r.error.RuntimeError?
  {
    r := hw.WriteRawRegs(V2BroadcastPlan(ohN, reg, value, mask));
  }

  /** The v3 branch: one `writeReg` per unmasked VFAT. */
  method V3Broadcast(hw: Hardware, c: Consts, ohN: nat, reg: string, value: Word, mask: Word) returns (r: Result<()>)
    modifies hw`mem, hw`faults, hw`trace
    ensures hw.mem.Keys == old(hw.mem).Keys
    ensures r.Ok? ==> Performed(old(hw.mem), hw.mem, hw.table, Effects(old(hw.trace)), Effects(hw.trace),
                                BroadcastPlan(ohN, reg, value, mask, c.vfatsPerOh))
    ensures r.Err? ==> r.error.RuntimeError?
  {
    ghost var m0 := hw.mem;
    ghost var e0 := Effects(hw.trace);
    PerformedNothing(m0, hw.table, e0);
    var vfatN := 0;
    while vfatN < c.vfatsPerOh
      invariant 0 <= vfatN <= c.vfatsPerOh
      invariant hw.mem.Keys == m0.Keys
      invariant Performed(m0, hw.mem, hw.table, e0, Effects(hw.trace), BroadcastPlan(ohN, reg, value, mask, vfatN))
    {
      r := BroadcastOne(hw, ohN, reg, value, mask, vfatN, m0, e0);
      if r.Err? {
        return;
      }
      vfatN := vfatN + 1;
    }
    r := Ok(());
  }

  /** One VFAT position of the v3 broadcast. */
  method BroadcastOne(hw: Hardware, ohN: nat, reg: string, value: Word, mask: Word, vfatN: nat,
                      ghost m0: map<Word, Word>, ghost e0: seq<Event>) returns (r: Result<()>)
    requires Performed(m0, hw.mem, hw.table, e0, Effects(hw.trace), BroadcastPlan(ohN, reg, value, mask, vfatN))
    modifies hw`mem, hw`faults, hw`trace
    ensures hw.mem.Keys == old(hw.mem).Keys
    ensures r.Ok? ==> Performed(m0, hw.mem, hw.table, e0, Effects(hw.trace), BroadcastPlan(ohN, reg, value, mask, vfatN + 1))
    ensures r.Err? ==> r.error.RuntimeError?
  {
    var plan := BroadcastPlan(ohN, reg, value, mask, vfatN);
    if Bit(mask, vfatN) {
      assert plan + [] == plan;
      return Ok(());
    }
    ghost var m1 := hw.mem;
    ghost var e1 := Effects(hw.trace);
    var name := VfatReg(ohN, vfatN, reg);
    r := hw.Set(name, value);
    if r.Ok? {
      WriteOne(m1, hw.table, name, value);
      PerformedStep(m0, m1, hw.mem, hw.table, e0, e1, Effects(hw.trace), plan, [(name, value)]);
    }
  }

  // ---------------------------------------------------------------------------
  // broadcastReadLocal

  /** The register of VFAT i that `broadcastReadLocal` reads for firmware release fw. */
  function ReadName(fw: Word, ohN: nat, i: nat, reg: string): string
  {
    if fw == 1 then V2VfatReg(ohN, i, reg) else VfatReg(ohN, i, reg)
  }

  /** The registers of the unmasked VFATs among the first n can be read. */
  predicate BroadcastReadable(mem: map<Word, Word>, table: map<string, Descriptor>, fw: Word, ohN: nat, reg: string,
                              mask: Word, n: nat)
  {
    forall i :: 0 <= i < n && !Bit(mask, i) ==> Readable(mem, table, ReadName(fw, ohN, i, reg))
  }

  /** The `outData` of `broadcastReadLocal`: 0 for a masked VFAT, the register's value
    * for an unmasked one. */
  function BroadcastValues(mem: map<Word, Word>, table: map<string, Descriptor>, fw: Word, ohN: nat, reg: string,
                           mask: Word, n: nat): (vs: seq<Word>)
    requires BroadcastReadable(mem, table, fw, ohN, reg, mask, n)
    ensures |vs| == n
    ensures forall i :: 0 <= i < n && Bit(mask, i) ==> vs[i] == 0
    ensures forall i :: 0 <= i < n && !Bit(mask, i) ==> vs[i] == RegValue(mem, table, ReadName(fw, ohN, i, reg))
  {
    seq(n, i requires 0 <= i < n => if Bit(mask, i) then 0 else RegValue(mem, table, ReadName(fw, ohN, i, reg)))
  }

  /** One more VFAT position read. */
  lemma BroadcastValuesStep(mem: map<Word, Word>, table: map<string, Descriptor>, fw: Word, ohN: nat, reg: string,
                            mask: Word, n: nat)
    requires BroadcastReadable(mem, table, fw, ohN, reg, mask, n + 1)
    ensures BroadcastReadable(mem, table, fw, ohN, reg, mask, n)
    ensures BroadcastValues(mem, table, fw, ohN, reg, mask, n + 1) ==
      BroadcastValues(mem, table, fw, ohN, reg, mask, n) +
      [if Bit(mask, n) then 0 else RegValue(mem, table, ReadName(fw, ohN, n, reg))]
  {
    var a := BroadcastValues(mem, table, fw, ohN, reg, mask, n + 1);
    var b := BroadcastValues(mem, table, fw, ohN, reg, mask, n);
    assert a[..n] == b;
  }

  /** What `readReg(la, name)` returns for a read that fails; `broadcastReadLocal`
    * raises its "error" string for any entry holding it. */
  const READ_FAILED: Word := 0xdead_dead

  /** `outData` of `broadcastReadLocal`, and whether it set the "error" string. */
  datatype BroadcastOut = BroadcastOut(data: seq<Word>, error: bool)

  /** `oks[i]` says the read of VFAT i succeeded; such a register can be read. */
  predicate ReadsOk(mem: map<Word, Word>, table: map<string, Descriptor>, fw: Word, ohN: nat, reg: string,
                    mask: Word, oks: seq<bool>)
  {
    forall i :: 0 <= i < |oks| && oks[i] && !Bit(mask, i) ==> Readable(mem, table, ReadName(fw, ohN, i, reg))
  }

  /** Entry i of `outData`: 0 when masked, the register's value when its read
    * succeeded, `READ_FAILED` otherwise. */
  function ReadEntry(mem: map<Word, Word>, table: map<string, Descriptor>, fw: Word, ohN: nat, reg: string,
                     mask: Word, i: nat, ok: bool): Word
    requires ok && !Bit(mask, i) ==> Readable(mem, table, ReadName(fw, ohN, i, reg))
  {
    if Bit(mask, i) then 0 else if ok then RegValue(mem, table, ReadName(fw, ohN, i, reg)) else READ_FAILED
  }

  /** `outData` for the reads that succeeded as `oks` says. */
  function BroadcastData(mem: map<Word, Word>, table: map<string, Descriptor>, fw: Word, ohN: nat, reg: string,
                         mask: Word, oks: seq<bool>): (vs: seq<Word>)
    requires ReadsOk(mem, table, fw, ohN, reg, mask, oks)
    ensures |vs| == |oks|
  {
    seq(|oks|, i requires 0 <= i < |oks| => ReadEntry(mem, table, fw, ohN, reg, mask, i, oks[i]))
  }

  /** Some unmasked entry holds `READ_FAILED`. */
  predicate Flagged(data: seq<Word>, mask: Word)
  {
    exists i :: 0 <= i < |data| && !Bit(mask, i) && data[i] == READ_FAILED
  }

  /** When every read succeeds the data are the registers' values. */
  lemma BroadcastDataAllRead(mem: map<Word, Word>, table: map<string, Descriptor>, fw: Word, ohN: nat, reg: string,
                             mask: Word, oks: seq<bool>)
    requires ReadsOk(mem, table, fw, ohN, reg, mask, oks)
    requires forall i :: 0 <= i < |oks| ==> oks[i]
    ensures BroadcastReadable(mem, table, fw, ohN, reg, mask, |oks|)
    ensures BroadcastData(mem, table, fw, ohN, reg, mask, oks) == BroadcastValues(mem, table, fw, ohN, reg, mask, |oks|)
  {
  }

  /** A failed read leaves `READ_FAILED` in its entry and raises the "error" string. */
  lemma FailedReadFlagged(mem: map<Word, Word>, table: map<string, Descriptor>, fw: Word, ohN: nat, reg: string,
                          mask: Word, oks: seq<bool>, i: nat)
    requires ReadsOk(mem, table, fw, ohN, reg, mask, oks)
    requires i < |oks| && !oks[i] && !Bit(mask, i)
    ensures BroadcastData(mem, table, fw, ohN, reg, mask, oks)[i] == READ_FAILED
    ensures Flagged(BroadcastData(mem, table, fw, ohN, reg, mask, oks), mask)
  {
    assert BroadcastData(mem, table, fw, ohN, reg, mask, oks)[i] == READ_FAILED;
  }

  /** `broadcastReadLocal(outData, ohN, regName, mask)`. Each unmasked VFAT's register
    * is read in turn; a failed read leaves `READ_FAILED` in its entry, raises the
    * "error" string and the loop goes on. A release other than 1 or 3 (a failed read
    * of it included) leaves the C++ with an uninitialised register base; the model
    * stops there. `oks` says which reads succeeded. */
  method BroadcastRead(hw: Hardware, c: Consts, ohN: nat, reg: string, mask: Word)
    returns (r: Result<BroadcastOut>, ghost oks: seq<bool>)
    modifies hw`faults, hw`trace
    ensures r.Ok? ==> (Readable(hw.mem, hw.table, RELEASE_MAJOR) &&
      var fw := RegValue(hw.mem, hw.table, RELEASE_MAJOR);
      (fw == 1 || fw == 3) && |oks| == c.vfatsPerOh && ReadsOk(hw.mem, hw.table, fw, ohN, reg, mask, oks) &&
      r.value.data == BroadcastData(hw.mem, hw.table, fw, ohN, reg, mask, oks))
    ensures r.Ok? ==> (r.value.error <==> Flagged(r.value.data, mask))
    ensures r.Ok? && Readable(hw.mem, hw.table, RELEASE_MAJOR) ==> RegValue(hw.mem, hw.table, RELEASE_MAJOR) in {1, 3}
    ensures r.Err? ==> r.error == RuntimeError(BadVersion)
    ensures Effects(hw.trace) == Effects(old(hw.trace))
  {
    oks := [];
    var fw := hw.Get(RELEASE_MAJOR);
    if fw.Err? || (fw.value != 1 && fw.value != 3) {
      return Err(RuntimeError(BadVersion)), oks;
    }
    var out: seq<Word> := [];
    var error := false;
    var i := 0;
    while i < c.vfatsPerOh
      invariant 0 <= i <= c.vfatsPerOh && |oks| == i
      invariant ReadsOk(hw.mem, hw.table, fw.value, ohN, reg, mask, oks)
      invariant out == BroadcastData(hw.mem, hw.table, fw.value, ohN, reg, mask, oks)
      invariant error <==> Flagged(out, mask)
      invariant Effects(hw.trace) == Effects(old(hw.trace))
    {
      var ok := true;
      var v: Word := 0;
      if !Bit(mask, i) {
        var x := hw.Get(ReadName(fw.value, ohN, i, reg));
        if x.Ok? {
          v := x.value;
        } else {
          ok, v := false, READ_FAILED;
        }
        if v == READ_FAILED {
          error := true;
        }
      }
      BroadcastDataSnoc(hw.mem, hw.table, fw.value, ohN, reg, mask, oks, ok);
      FlaggedSnoc(out, mask, v);
      out := out + [v];
      oks := oks + [ok];
      i := i + 1;
    }
    r := Ok(BroadcastOut(out, error));
  }

  lemma BroadcastDataSnoc(mem: map<Word, Word>, table: map<string, Descriptor>, fw: Word, ohN: nat, reg: string,
                          mask: Word, oks: seq<bool>, ok: bool)
    requires ReadsOk(mem, table, fw, ohN, reg, mask, oks)
    requires ok && !Bit(mask, |oks|) ==> Readable(mem, table, ReadName(fw, ohN, |oks|, reg))
    ensures ReadsOk(mem, table, fw, ohN, reg, mask, oks + [ok])
    ensures BroadcastData(mem, table, fw, ohN, reg, mask, oks + [ok]) ==
      BroadcastData(mem, table, fw, ohN, reg, mask, oks) + [ReadEntry(mem, table, fw, ohN, reg, mask, |oks|, ok)]
  {
    ReadsOkSnoc(mem, table, fw, ohN, reg, mask, oks, ok);
    var o1 := oks + [ok];
    var whole := BroadcastData(mem, table, fw, ohN, reg, mask, o1);
    var front := BroadcastData(mem, table, fw, ohN, reg, mask, oks);
    assert forall i :: 0 <= i < |oks| ==> o1[i] == oks[i];
    assert whole[..|oks|] == front;
  }

  lemma ReadsOkSnoc(mem: map<Word, Word>, table: map<string, Descriptor>, fw: Word, ohN: nat, reg: string,
                    mask: Word, oks: seq<bool>, ok: bool)
    requires ReadsOk(mem, table, fw, ohN, reg, mask, oks)
    requires ok && !Bit(mask, |oks|) ==> Readable(mem, table, ReadName(fw, ohN, |oks|, reg))
    ensures ReadsOk(mem, table, fw, ohN, reg, mask, oks + [ok])
  {
    var o1 := oks + [ok];
    assert forall i :: 0 <= i < |oks| ==> o1[i] == oks[i];
  }

  lemma FlaggedSnoc(data: seq<Word>, mask: Word, v: Word)
    ensures Flagged(data + [v], mask) <==> Flagged(data, mask) || (!Bit(mask, |data|) && v == READ_FAILED)
  {
    var d1 := data + [v];
    if Flagged(data, mask) {
      var i :| 0 <= i < |data| && !Bit(mask, i) && data[i] == READ_FAILED;
      assert d1[i] == data[i];
    }
    if !Bit(mask, |data|) && v == READ_FAILED {
      assert d1[|data|] == v;
    }
    if Flagged(d1, mask) {
      var i :| 0 <= i < |d1| && !Bit(mask, i) && d1[i] == READ_FAILED;
      if i < |data| {
        assert data[i] == d1[i];
      }
    }
  }

  // ---------------------------------------------------------------------------
  // setAllVFATsToRunModeLocal, setAllVFATsToSleepModeLocal

  /** The register and value that put every VFAT in run mode (or sleep mode, `run`
    * false) for firmware release fw: CFG_RUN = 1/0 for v3, ContReg0 = 0x37/0x36 for v2b. */
  function ModeWrite(fw: Word, run: bool): (string, Word)
  {
    if fw == 3 then ("CFG_RUN", if run then 1 else 0)
    else ("ContReg0", if run then 0x37 else 0x36)
  }

  /** The broadcast of the mode register: exactly the broadcast its release calls for,
    * and nothing for a release other than 1 or 3. */
  predicate ModeSet(m0: map<Word, Word>, m1: map<Word, Word>, table: map<string, Descriptor>,
                    e0: seq<Event>, e1: seq<Event>, c: Consts, ohN: nat, mask: Word, run: bool)
    requires Readable(m0, table, RELEASE_MAJOR)
  {
    var fw := RegValue(m0, table, RELEASE_MAJOR);
    var (reg, value) := ModeWrite(fw, run);
    (fw == 3 ==> Performed(m0, m1, table, e0, e1, BroadcastPlan(ohN, reg, value, mask, c.vfatsPerOh))) &&
    (fw == 1 ==> RawPerformed(m0, m1, table, e0, e1, V2BroadcastPlan(ohN, reg, value, mask))) &&
    (fw != 1 && fw != 3 ==> m1 == m0 && e1 == e0)
  }

  /** Both mode setters: the release is read (the transaction-handle `fw_version_check`
    * only logs an unexpected one), then the mode register is broadcast. */
  method SetMode(hw: Hardware, c: Consts, ohN: nat, mask: Word, run: bool) returns (r: Result<()>)
    modifies hw`mem, hw`faults, hw`trace
    ensures r.Ok? ==> (Readable(old(hw.mem), hw.table, RELEASE_MAJOR) &&
      ModeSet(old(hw.mem), hw.mem, hw.table, Effects(old(hw.trace)), Effects(hw.trace), c, ohN, mask, run))
    ensures r.Err? ==> r.error.RuntimeError?
  {
    var fw := hw.Get(RELEASE_MAJOR);
    if fw.Err? {
      return Err(fw.error);
    }
    if fw.value == 3 || fw.value == 1 {
      var (reg, value) := ModeWrite(fw.value, run);
      r := BroadcastWrite(hw, c, ohN, reg, value, mask);
    } else {
      r := Ok(());
    }
  }

  /** `setAllVFATsToRunModeLocal(ohN, mask)`. */
  method SetAllVFATsToRunMode(hw: Hardware, c: Consts, ohN: nat, mask: Word) returns (r: Result<()>)
    modifies hw`mem, hw`faults, hw`trace
    ensures r.Ok? ==> (Readable(old(hw.mem), hw.table, RELEASE_MAJOR) &&
      ModeSet(old(hw.mem), hw.mem, hw.table, Effects(old(hw.trace)), Effects(hw.trace), c, ohN, mask, true))
    ensures r.Err? ==> r.error.RuntimeError?
  {
    r := SetMode(hw, c, ohN, mask, true);
  }

  /** `setAllVFATsToSleepModeLocal(ohN, mask)`. */
  method SetAllVFATsToSleepMode(hw: Hardware, c: Consts, ohN: nat, mask: Word) returns (r: Result<()>)
    modifies hw`mem, hw`faults, hw`trace
    ensures r.Ok? ==> (Readable(old(hw.mem), hw.table, RELEASE_MAJOR) &&
      ModeSet(old(hw.mem), hw.mem, hw.table, Effects(old(hw.trace)), Effects(hw.trace), c, ohN, mask, false))
    ensures r.Err? ==> r.error.RuntimeError?
  {
    r := SetMode(hw, c, ohN, mask, false);
  }

  // ---------------------------------------------------------------------------
  // configureScanModuleLocal, startScanModuleLocal

  /** `GEM_AMC.OH.OH<ohN>.ScanController.ULTRA` or `….THLAT`. */
  function ScanBase(ohN: nat, useUltra: bool): string
  {
    "GEM_AMC.OH.OH" + Dec(ohN) + ".ScanController" + (if useUltra then ".ULTRA" else ".THLAT")
  }

  /** How a scan-controller call ended: it went ahead, or it only set the response's
    * "error" string because a scan was running or the configuration was in error. */
  datatype ScanOutcome = Proceeded | AlreadyRunning | ConfigError

  /** The parameters of `configureScanModuleLocal`. */
  datatype ScanConf = ScanConf(vfatN: Word, scanmode: Word, useUltra: bool, mask: Word, ch: Word,
                               nevts: Word, dacMin: Word, dacMax: Word, dacStep: Word)

  /** The register of the k-th parameter write: CONF.MODE, then CONF.MASK (ultra) or
    * CONF.CHIP, then CONF.CHAN, CONF.NTRIGS, CONF.MIN, CONF.MAX, CONF.STEP. */
  function ConfSuffix(useUltra: bool, k: nat): string
    requires k < 7
  {
    [".CONF.MODE", if useUltra then ".CONF.MASK" else ".CONF.CHIP", ".CONF.CHAN", ".CONF.NTRIGS",
     ".CONF.MIN", ".CONF.MAX", ".CONF.STEP"][k]
  }

  /** The value of the k-th parameter write. */
  function ConfValue(s: ScanConf, k: nat): Word
    requires k < 7
  {
    [s.scanmode, if s.useUltra then s.mask else s.vfatN, s.ch, s.nevts, s.dacMin, s.dacMax, s.dacStep][k]
  }

  function ConfWrite(base: string, s: ScanConf, k: nat): (string, Word)
    requires k < 7
  {
    (base + ConfSuffix(s.useUltra, k), ConfValue(s, k))
  }

  function ConfPlan(base: string, s: ScanConf): (ws: seq<(string, Word)>)
    ensures |ws| == 7
  {
    seq(7, k requires 0 <= k < 7 => ConfWrite(base, s, k))
  }

  /** Distinct suffixes make distinct names. */
  lemma SuffixesDiffer(base: string, x: string, y: string)
    requires x != y
    ensures base + x != base + y
  {
    assert (base + x)[|base|..] == x;
    assert (base + y)[|base|..] == y;
  }

  /** The configuration writes CONF.MASK in ultra mode and CONF.CHIP otherwise, never
    * both: exactly one write names either register, and it carries the mask or the
    * VFAT number. */
  lemma MaskOrChip(base: string, s: ScanConf, k: nat)
    requires k < 7
    ensures ConfWrite(base, s, k).0 == base + ".CONF.MASK" <==> s.useUltra && k == 1
    ensures ConfWrite(base, s, k).0 == base + ".CONF.CHIP" <==> !s.useUltra && k == 1
    ensures k == 1 ==> ConfWrite(base, s, k).1 == if s.useUltra then s.mask else s.vfatN
  {
    var x := ConfSuffix(s.useUltra, k);
    if x != ".CONF.MASK" {
      SuffixesDiffer(base, x, ".CONF.MASK");
    }
    if x != ".CONF.CHIP" {
      SuffixesDiffer(base, x, ".CONF.CHIP");
    }
  }

  /** From m0 to m1: the controller's RESET written raw with 1, then the parameter
    * writes, and nothing else. */
  predicate Configured(m0: map<Word, Word>, m1: map<Word, Word>, table: map<string, Descriptor>,
                       e0: seq<Event>, e1: seq<Event>, base: string, s: ScanConf)
  {
    var reset := [(base + ".RESET", 1)];
    AllMapped(m0.Keys, table, reset) &&
    var m := RawWriteAll(m0, table, reset);
    var e := e0 + RawWritesOf(table, reset);
    RawPerformed(m0, m, table, e0, e, reset) && Performed(m, m1, table, e, e1, ConfPlan(base, s))
  }

  /** `configureScanModuleLocal(ohN, vfatN, scanmode, useUltra, mask, ch, nevts, dacMin,
    * dacMax, dacStep)`: nothing happens while MONITOR.STATUS is not 0; otherwise the
    * module is reset and configured. */
  method ConfigureScanModule(hw: Hardware, ohN: nat, s: ScanConf) returns (r: Result<ScanOutcome>)
    modifies hw`mem, hw`faults, hw`trace
    ensures r.Ok? ==> Readable(old(hw.mem), hw.table, ScanBase(ohN, s.useUltra) + ".MONITOR.STATUS")
    ensures r.Ok? ==> (r.value == AlreadyRunning <==>
      RegValue(old(hw.mem), hw.table, ScanBase(ohN, s.useUltra) + ".MONITOR.STATUS") > 0)
    ensures r.Ok? ==> r.value != ConfigError
    ensures r.Ok? && r.value == AlreadyRunning ==> hw.mem == old(hw.mem) && Effects(hw.trace) == Effects(old(hw.trace))
    ensures r.Ok? && r.value == Proceeded ==>
      Configured(old(hw.mem), hw.mem, hw.table, Effects(old(hw.trace)), Effects(hw.trace), ScanBase(ohN, s.useUltra), s)
    ensures r.Err? ==> r.error.RuntimeError?
  {
    var base := ScanBase(ohN, s.useUltra);
    var status := hw.Get(base + ".MONITOR.STATUS");
    if status.Err? {
      return Err(status.error);
    }
    if status.value > 0 {
      return Ok(AlreadyRunning);
    }
    ghost var e0 := Effects(hw.trace);
    ghost var m0 := hw.mem;
    var w := hw.SetRawReg(base + ".RESET", 1);
    if w.Err? {
      return Err(w.error);
    }
    ghost var m1 := hw.mem;
    ghost var e1 := Effects(hw.trace);
    w := hw.WriteRegs(ConfPlan(base, s));
    if w.Err? {
      return Err(w.error);
    }
    assert RawPerformed(m0, m1, hw.table, e0, e1, [(base + ".RESET", 1)]);
    r := Ok(Proceeded);
  }

  /** `startScanModuleLocal(ohN, useUltra)`: nothing happens while MONITOR.STATUS is
    * not 0 or MONITOR.ERROR is not 0; otherwise START is written with 1, and the two
    * monitor registers are read back (and read again for the log when the start did
    * not take). */
  method StartScanModule(hw: Hardware, ohN: nat, useUltra: bool) returns (r: Result<ScanOutcome>)
    modifies hw`mem, hw`faults, hw`trace
    ensures r.Ok? ==> Readable(old(hw.mem), hw.table, ScanBase(ohN, useUltra) + ".MONITOR.STATUS")
    ensures r.Ok? ==> (r.value == AlreadyRunning <==>
      RegValue(old(hw.mem), hw.table, ScanBase(ohN, useUltra) + ".MONITOR.STATUS") > 0)
    ensures r.Ok? && r.value != AlreadyRunning ==> (Readable(old(hw.mem), hw.table, ScanBase(ohN, useUltra) + ".MONITOR.ERROR") &&
      (r.value == ConfigError <==> RegValue(old(hw.mem), hw.table, ScanBase(ohN, useUltra) + ".MONITOR.ERROR") > 0))
    ensures r.Ok? && r.value != Proceeded ==> hw.mem == old(hw.mem) && Effects(hw.trace) == Effects(old(hw.trace))
    ensures r.Ok? && r.value == Proceeded ==>
      Performed(old(hw.mem), hw.mem, hw.table, Effects(old(hw.trace)), Effects(hw.trace), [(ScanBase(ohN, useUltra) + ".START", 1)])
    ensures r.Err? ==> r.error.RuntimeError?
  {
    var base := ScanBase(ohN, useUltra);
    var status := hw.Get(base + ".MONITOR.STATUS");
    if status.Err? {
      return Err(status.error);
    }
    if status.value > 0 {
      return Ok(AlreadyRunning);
    }
    var error := hw.Get(base + ".MONITOR.ERROR");
    if error.Err? {
      return Err(error.error);
    }
    if error.value > 0 {
      return Ok(ConfigError);
    }
    ghost var m0 := hw.mem;
    var w := hw.Set(base + ".START", 1);
    if w.Err? {
      return Err(w.error);
    }
    WriteOne(m0, hw.table, base + ".START", 1);
    var checked := StartReadBack(hw, base);
    if checked.Err? {
      return Err(checked.error);
    }
    r := Ok(Proceeded);
  }

  /** The reads after START: MONITOR.ERROR, then MONITOR.STATUS when the error is 0
    * (`||` stops early); when the scan did not start both are read once more for the
    * log. Nothing is written. */
  method StartReadBack(hw: Hardware, base: string) returns (r: Result<bool>)
    modifies hw`faults, hw`trace
    ensures r.Ok? ==> Readable(hw.mem, hw.table, base + ".MONITOR.ERROR")
    ensures r.Ok? ==> (r.value <==> (RegValue(hw.mem, hw.table, base + ".MONITOR.ERROR") == 0 &&
      Readable(hw.mem, hw.table, base + ".MONITOR.STATUS") && RegValue(hw.mem, hw.table, base + ".MONITOR.STATUS") != 0))
    ensures r.Err? ==> r.error.RuntimeError?
    ensures Effects(hw.trace) == Effects(old(hw.trace))
  {
    var error := hw.Get(base + ".MONITOR.ERROR");
    if error.Err? {
      return Err(error.error);
    }
    var started := false;
    if error.value == 0 {
      var status := hw.Get(base + ".MONITOR.STATUS");
      if status.Err? {
        return Err(status.error);
      }
      started := status.value != 0;
    }
    if !started {
      var e := hw.Get(base + ".MONITOR.ERROR");
      if e.Err? {
        return Err(e.error);
      }
      var st := hw.Get(base + ".MONITOR.STATUS");
      if st.Err? {
        return Err(st.error);
      }
    }
    r := Ok(started);
  }

  // ---------------------------------------------------------------------------
  // stopCalPulse2AllChannelsLocal

  /** The register of channel ch of VFAT v that stopping the calibration pulse touches:
    * the v2b `ChanReg<ch>`, whose bits above the 6-bit trim are cleared, or the v3
    * `CALPULSE_ENABLE` bit, which is written with 0. */
  function ChanName(fw: Word, ohN: nat, v: nat, ch: nat): string
  {
    if fw == 1 then V2VfatReg(ohN, v, "VFATChannels.ChanReg" + Dec(ch))
    else VfatReg(ohN, v, "VFAT_CHANNELS.CHANNEL" + Dec(ch) + ".CALPULSE_ENABLE")
  }

  /** The registers the loop `for (chan = lo; chan < upto; ++chan)` touches for VFAT v;
    * on release 1 a channel above 127 is only logged. */
  function ChanNames(fw: Word, ohN: nat, v: nat, lo: nat, upto: nat): seq<string>
    decreases upto
  {
    if upto <= lo then []
    else ChanNames(fw, ohN, v, lo, upto - 1) + (if fw == 1 && upto - 1 > 127 then [] else [ChanName(fw, ohN, v, upto - 1)])
  }

  /** The channels touched are lo, lo + 1, … up to `upto` (exclusive), cut at 128 on
    * release 1. */
  lemma {:induction false} ChanNamesAt(fw: Word, ohN: nat, v: nat, lo: nat, upto: nat)
    ensures var top := if fw == 1 && upto > 128 then 128 else upto;
      var names := ChanNames(fw, ohN, v, lo, upto);
      |names| == (if top <= lo then 0 else top - lo) &&
      forall k :: 0 <= k < |names| ==> names[k] == ChanName(fw, ohN, v, lo + k)
    decreases upto
  {
    if upto > lo {
      ChanNamesAt(fw, ohN, v, lo, upto - 1);
    }
  }

  /** All registers touched for the first n VFAT positions, VFAT by VFAT, channels
    * lo to hi inclusive, masked VFATs skipped. */
  function StopNames(fw: Word, ohN: nat, mask: Word, n: nat, lo: nat, hi: nat): seq<string>
    decreases n
  {
    if n == 0 then []
    else StopNames(fw, ohN, mask, n - 1, lo, hi) + (if Bit(mask, n - 1) then [] else ChanNames(fw, ohN, n - 1, lo, hi + 1))
  }

  /** `0x3f & value`: the 6-bit trim DAC of a v2b channel register. */
  function Trim(x: Word): (t: Word)
    ensures t <= 0x3f
  {
    Pow2Values();
    AndPow2(x, 6);
    And(0x3f, x)
  }

  /** The trim keeps bits 0 to 5 of the channel register and clears all others, among
    * them the calibration-pulse bit 6. */
  lemma TrimBits(x: Word, i: nat)
    ensures Bit(Trim(x), i) <==> i < 6 && Bit(x, i)
  {
    Pow2Values();
    BitAnd(0x3f, x, i);
    if i < 6 {
      BitComplement(0, 6, i);
      BitZero(i);
    } else {
      BitHigh(0x3f, 6, i);
    }
  }

  predicate NamesMapped(keys: set<Word>, table: map<string, Descriptor>, names: seq<string>)
  {
    forall i :: 0 <= i < |names| ==> Mapped(keys, table, names[i])
  }

  /** Memory after one v2b channel register is read and written back trimmed. */
  function TrimOne(mem: map<Word, Word>, table: map<string, Descriptor>, name: string): (m: map<Word, Word>)
    requires Mapped(mem.Keys, table, name)
    ensures m.Keys == mem.Keys
  {
    RegWritten(mem, table, name, Trim(RegValue(mem, table, name)))
  }

  /** Memory after the channel registers `names` are trimmed one after the other; each
    * read sees the writes before it. */
  function TrimFold(mem: map<Word, Word>, table: map<string, Descriptor>, names: seq<string>): (m: map<Word, Word>)
    requires NamesMapped(mem.Keys, table, names)
    ensures m.Keys == mem.Keys
    decreases |names|
  {
    if names == [] then mem else TrimFold(TrimOne(mem, table, names[0]), table, names[1..])
  }

  /** The `writeReg` calls of that trimming. */
  function TrimWrites(mem: map<Word, Word>, table: map<string, Descriptor>, names: seq<string>): (es: seq<Event>)
    requires NamesMapped(mem.Keys, table, names)
    ensures |es| == |names|
    decreases |names|
  {
    if names == [] then []
    else [Write(names[0], Trim(RegValue(mem, table, names[0])))] + TrimWrites(TrimOne(mem, table, names[0]), table, names[1..])
  }

  /** Every value the trimming writes fits the 6-bit trim field, and it goes to the
    * register of the same position in `names`. */
  lemma {:induction false} TrimWritesBounded(mem: map<Word, Word>, table: map<string, Descriptor>, names: seq<string>)
    requires NamesMapped(mem.Keys, table, names)
    ensures forall k :: 0 <= k < |names| ==>
      TrimWrites(mem, table, names)[k].Write? && TrimWrites(mem, table, names)[k].name == names[k] &&
      TrimWrites(mem, table, names)[k].value <= 0x3f
    decreases |names|
  {
    if names != [] {
      TrimWritesBounded(TrimOne(mem, table, names[0]), table, names[1..]);
      var es := TrimWrites(mem, table, names);
      assert es[1..] == TrimWrites(TrimOne(mem, table, names[0]), table, names[1..]);
      forall k | 1 <= k < |names|
        ensures es[k] == es[1..][k - 1] && names[k] == names[1..][k - 1]
      {
      }
    }
  }

  /** Trimming one more register at the end. */
  lemma {:induction false} TrimFoldSnoc(mem: map<Word, Word>, table: map<string, Descriptor>, names: seq<string>, n: string)
    requires NamesMapped(mem.Keys, table, names) && Mapped(mem.Keys, table, n)
    ensures NamesMapped(mem.Keys, table, names + [n])
    ensures TrimFold(mem, table, names + [n]) == TrimOne(TrimFold(mem, table, names), table, n)
    ensures TrimWrites(mem, table, names + [n]) ==
      TrimWrites(mem, table, names) + [Write(n, Trim(RegValue(TrimFold(mem, table, names), table, n)))]
    decreases |names|
  {
    var ns := names + [n];
    assert NamesMapped(mem.Keys, table, ns) by {
      forall i | 0 <= i < |ns|
        ensures Mapped(mem.Keys, table, ns[i])
      {
        if i < |names| {
          assert ns[i] == names[i];
        }
      }
    }
    if names == [] {
      assert ns[1..] == [];
    } else {
      var m := TrimOne(mem, table, names[0]);
      assert ns[0] == names[0] && ns[1..] == names[1..] + [n];
      TrimFoldSnoc(m, table, names[1..], n);
    }
  }

  /** `names` written with 0, in order. */
  function ZeroPlan(names: seq<string>): (ws: seq<(string, Word)>)
    ensures |ws| == |names|
    ensures forall k :: 0 <= k < |ws| ==> ws[k] == (names[k], 0)
  {
    seq(|names|, k requires 0 <= k < |names| => (names[k], 0))
  }

  /** From (m0, e0) to (m1, e1) the registers `names` were handled as release fw
    * handles them: read and written back trimmed on release 1, written with 0
    * otherwise. */
  predicate Stopped(fw: Word, m0: map<Word, Word>, m1: map<Word, Word>, table: map<string, Descriptor>,
                    e0: seq<Event>, e1: seq<Event>, names: seq<string>)
  {
    if fw == 1 then
      AllReadable(m0, table, names) && NamesMapped(m0.Keys, table, names) &&
      m1 == TrimFold(m0, table, names) && e1 == e0 + TrimWrites(m0, table, names)
    else Performed(m0, m1, table, e0, e1, ZeroPlan(names))
  }

  lemma StoppedNothing(fw: Word, m: map<Word, Word>, table: map<string, Descriptor>, e: seq<Event>)
    ensures Stopped(fw, m, m, table, e, e, [])
  {
    PerformedNothing(m, table, e);
    assert ZeroPlan([]) == [];
  }

  /** Handling one more register. */
  lemma StoppedSnoc(fw: Word, m0: map<Word, Word>, m1: map<Word, Word>, m2: map<Word, Word>, table: map<string, Descriptor>,
                    e0: seq<Event>, e1: seq<Event>, e2: seq<Event>, names: seq<string>, n: string)
    requires Stopped(fw, m0, m1, table, e0, e1, names) && m1.Keys == m0.Keys
    requires fw == 1 ==> (Readable(m1, table, n) && m2 == TrimOne(m1, table, n) &&
      e2 == e1 + [Write(n, Trim(RegValue(m1, table, n)))])
    requires fw != 1 ==> Performed(m1, m2, table, e1, e2, [(n, 0)])
    ensures Stopped(fw, m0, m2, table, e0, e2, names + [n])
  {
    if fw == 1 {
      TrimFoldSnoc(m0, table, names, n);
      var ns := names + [n];
      forall i | 0 <= i < |ns|
        ensures Readable(m0, table, ns[i])
      {
        if i < |names| {
          assert ns[i] == names[i];
        }
      }
      Associative(e0, TrimWrites(m0, table, names), [Write(n, Trim(RegValue(m1, table, n)))]);
    } else {
      PerformedStep(m0, m1, m2, table, e0, e1, e2, ZeroPlan(names), [(n, 0)]);
      assert ZeroPlan(names) + [(n, 0)] == ZeroPlan(names + [n]);
    }
  }

  /** What `stopCalPulse2AllChannelsLocal` did from (m0, e0) to (m1, e1), given the
    * release read from m0: every channel register from chMin to chMax of every
    * unmasked VFAT handled as that release handles it, and nothing for a release
    * other than 1 or 3. */
  predicate CalPulseStopped(m0: map<Word, Word>, m1: map<Word, Word>, table: map<string, Descriptor>, e0: seq<Event>,
                            e1: seq<Event>, c: Consts, ohN: nat, mask: Word, chMin: Word, chMax: Word)
    requires Readable(m0, table, RELEASE_MAJOR)
  {
    var fw := RegValue(m0, table, RELEASE_MAJOR);
    (fw == 1 || fw == 3 ==> Stopped(fw, m0, m1, table, e0, e1, StopNames(fw, ohN, mask, c.vfatsPerOh, chMin, chMax))) &&
    (fw != 1 && fw != 3 ==> m1 == m0 && e1 == e0)
  }

  /** `++chan` on the source's uint32 channel counter. */
  function NextChanAsWritten(chan: Word): Word
  {
    (chan + 1) % WORD
  }

  /** The channel counter of the source's loop after k increments from chMin. */
  function ChanAtAsWritten(chMin: Word, k: nat): Word
    decreases k
  {
    if k == 0 then chMin else NextChanAsWritten(ChanAtAsWritten(chMin, k - 1))
  }

  /** As written, with ch_max = 0xFFFFFFFF the guard `chan <= ch_max` holds after any
    * number of increments, since the counter wraps from 0xFFFFFFFF to 0: the loop
    * never ends. */
  lemma {:induction false} ChanLoopEndlessAsWritten(chMin: Word, chMax: Word, k: nat)
    requires chMax == 0xFFFF_FFFF
    ensures ChanAtAsWritten(chMin, k) == (chMin + k) % WORD
    ensures ChanAtAsWritten(chMin, k) <= chMax
  {
    if k > 0 {
      ChanLoopEndlessAsWritten(chMin, chMax, k - 1);
      WrapAdd(chMin + k - 1, 1);
    }
  }

  /** `stopCalPulse2AllChannelsLocal(ohN, mask, ch_min, ch_max)`, with the channel loop
    * visiting ch_min to ch_max once each for every ch_max, 0xFFFFFFFF included. */
  method StopCalPulse2AllChannels(hw: Hardware, c: Consts, ohN: nat, mask: Word, chMin: Word, chMax: Word)
    returns (r: Result<()>)
    modifies hw`mem, hw`faults, hw`trace
    ensures hw.mem.Keys == old(hw.mem).Keys
    ensures r.Ok? ==> (Readable(old(hw.mem), hw.table, RELEASE_MAJOR) &&
      CalPulseStopped(old(hw.mem), hw.mem, hw.table, Effects(old(hw.trace)), Effects(hw.trace), c, ohN, mask, chMin, chMax))
    ensures r.Err? ==> r.error.RuntimeError?
  {
    var fw := hw.Get(RELEASE_MAJOR);
    if fw.Err? {
      return Err(fw.error);
    }
    if fw.value == 1 || fw.value == 3 {
      r := StopAll(hw, c, fw.value, ohN, mask, chMin, chMax);
    } else {
      r := Ok(());
    }
  }

  /** The loop over the VFAT positions. */
  method StopAll(hw: Hardware, c: Consts, fw: Word, ohN: nat, mask: Word, chMin: Word, chMax: Word) returns (r: Result<()>)
    modifies hw`mem, hw`faults, hw`trace
    ensures hw.mem.Keys == old(hw.mem).Keys
    ensures r.Ok? ==> Stopped(fw, old(hw.mem), hw.mem, hw.table, Effects(old(hw.trace)), Effects(hw.trace),
                              StopNames(fw, ohN, mask, c.vfatsPerOh, chMin, chMax))
    ensures r.Err? ==> r.error.RuntimeError?
  {
    ghost var m0 := hw.mem;
    ghost var e0 := Effects(hw.trace);
    StoppedNothing(fw, m0, hw.table, e0);
    var vfatN := 0;
    while vfatN < c.vfatsPerOh
      invariant 0 <= vfatN <= c.vfatsPerOh
      invariant hw.mem.Keys == m0.Keys
      invariant Stopped(fw, m0, hw.mem, hw.table, e0, Effects(hw.trace), StopNames(fw, ohN, mask, vfatN, chMin, chMax))
    {
      if !Bit(mask, vfatN) {
        r := StopVfat(hw, fw, ohN, mask, vfatN, chMin, chMax, m0, e0);
        if r.Err? {
          return;
        }
      } else {
        ghost var done := StopNames(fw, ohN, mask, vfatN, chMin, chMax);
        assert done + [] == done;
      }
      vfatN := vfatN + 1;
    }
    r := Ok(());
  }

  /** The loop over the channels of one unmasked VFAT. */
  method StopVfat(hw: Hardware, fw: Word, ohN: nat, mask: Word, vfatN: nat, chMin: Word, chMax: Word,
                  ghost m0: map<Word, Word>, ghost e0: seq<Event>) returns (r: Result<()>)
    requires !Bit(mask, vfatN) && hw.mem.Keys == m0.Keys
    requires Stopped(fw, m0, hw.mem, hw.table, e0, Effects(hw.trace), StopNames(fw, ohN, mask, vfatN, chMin, chMax))
    modifies hw`mem, hw`faults, hw`trace
    ensures hw.mem.Keys == old(hw.mem).Keys
    ensures r.Ok? ==> Stopped(fw, m0, hw.mem, hw.table, e0, Effects(hw.trace), StopNames(fw, ohN, mask, vfatN + 1, chMin, chMax))
    ensures r.Err? ==> r.error.RuntimeError?
  {
    ghost var before := StopNames(fw, ohN, mask, vfatN, chMin, chMax);
    assert before + [] == before;
    var chan: nat := chMin;
    while chan <= chMax
      invariant chMin <= chan && (chan <= chMax + 1 || chan == chMin)
      invariant hw.mem.Keys == m0.Keys
      invariant Stopped(fw, m0, hw.mem, hw.table, e0, Effects(hw.trace), before + ChanNames(fw, ohN, vfatN, chMin, chan))
      decreases chMax + 1 - chan
    {
      r := StopChannel(hw, fw, ohN, vfatN, chMin, chan, m0, e0, before);
      if r.Err? {
        return;
      }
      chan := chan + 1;
    }
    r := Ok(());
  }

  /** The names touched up to channel chan + 1 extend those up to chan by that
    * channel's register, unless release 1 skips it. */
  lemma ChanNamesSnoc(fw: Word, ohN: nat, v: nat, lo: nat, chan: nat, before: seq<string>)
    requires lo <= chan
    ensures fw == 1 && chan > 127 ==>
      before + ChanNames(fw, ohN, v, lo, chan + 1) == before + ChanNames(fw, ohN, v, lo, chan)
    ensures !(fw == 1 && chan > 127) ==>
      before + ChanNames(fw, ohN, v, lo, chan + 1) == (before + ChanNames(fw, ohN, v, lo, chan)) + [ChanName(fw, ohN, v, chan)]
  {
    var a := ChanNames(fw, ohN, v, lo, chan);
    if fw == 1 && chan > 127 {
      assert ChanNames(fw, ohN, v, lo, chan + 1) == a + [];
    } else {
      Associative(before, a, [ChanName(fw, ohN, v, chan)]);
    }
  }

  /** One channel: on release 1 a channel above 127 is only logged, others are read
    * and written back trimmed; on release 3 the channel's pulse enable is cleared. */
  method StopChannel(hw: Hardware, fw: Word, ohN: nat, vfatN: nat, chMin: nat, chan: nat,
                     ghost m0: map<Word, Word>, ghost e0: seq<Event>, ghost before: seq<string>) returns (r: Result<()>)
    requires chMin <= chan && hw.mem.Keys == m0.Keys
    requires Stopped(fw, m0, hw.mem, hw.table, e0, Effects(hw.trace), before + ChanNames(fw, ohN, vfatN, chMin, chan))
    modifies hw`mem, hw`faults, hw`trace
    ensures hw.mem.Keys == old(hw.mem).Keys
    ensures r.Ok? ==> Stopped(fw, m0, hw.mem, hw.table, e0, Effects(hw.trace), before + ChanNames(fw, ohN, vfatN, chMin, chan + 1))
    ensures r.Err? ==> r.error.RuntimeError?
  {
    ChanNamesSnoc(fw, ohN, vfatN, chMin, chan, before);
    if fw == 1 && chan > 127 {
      return Ok(());
    }
    ghost var done := before + ChanNames(fw, ohN, vfatN, chMin, chan);
    var name := ChanName(fw, ohN, vfatN, chan);
    if fw == 1 {
      r := TrimChannel(hw, name, m0, e0, done);
    } else {
      r := ClearChannel(hw, fw, name, m0, e0, done);
    }
  }

  /** A v2b channel register read and written back trimmed. */
  method TrimChannel(hw: Hardware, name: string, ghost m0: map<Word, Word>, ghost e0: seq<Event>, ghost done: seq<string>)
    returns (r: Result<()>)
    requires hw.mem.Keys == m0.Keys && Stopped(1, m0, hw.mem, hw.table, e0, Effects(hw.trace), done)
    modifies hw`mem, hw`faults, hw`trace
    ensures hw.mem.Keys == old(hw.mem).Keys
    ensures r.Ok? ==> Stopped(1, m0, hw.mem, hw.table, e0, Effects(hw.trace), done + [name])
    ensures r.Err? ==> r.error.RuntimeError?
  {
    ghost var m1 := hw.mem;
    ghost var e1 := Effects(hw.trace);
    var x := hw.Get(name);
    if x.Err? {
      return Err(x.error);
    }
    r := hw.Set(name, Trim(x.value));
    if r.Ok? {
      StoppedSnoc(1, m0, m1, hw.mem, hw.table, e0, e1, Effects(hw.trace), done, name);
    }
  }

  /** A v3 channel's pulse enable written with 0. */
  method ClearChannel(hw: Hardware, fw: Word, name: string, ghost m0: map<Word, Word>, ghost e0: seq<Event>,
                      ghost done: seq<string>) returns (r: Result<()>)
    requires fw != 1 && hw.mem.Keys == m0.Keys && Stopped(fw, m0, hw.mem, hw.table, e0, Effects(hw.trace), done)
    modifies hw`mem, hw`faults, hw`trace
    ensures hw.mem.Keys == old(hw.mem).Keys
    ensures r.Ok? ==> Stopped(fw, m0, hw.mem, hw.table, e0, Effects(hw.trace), done + [name])
    ensures r.Err? ==> r.error.RuntimeError?
  {
    ghost var m1 := hw.mem;
    ghost var e1 := Effects(hw.trace);
    r := hw.Set(name, 0);
    if r.Ok? {
      WriteOne(m1, hw.table, name, 0);
      StoppedSnoc(fw, m0, m1, hw.mem, hw.table, e0, e1, Effects(hw.trace), done, name);
    }
  }
}
