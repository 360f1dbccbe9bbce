/** The GBT functions of src/gbt.cpp: a single GBT register write through the IC
  * slow-control core, the write of a whole GBT configuration, the write of one VFAT's
  * phase, and the phase scan. */
module Gbt {

  import opened Wrappers
  import opened Bits
  import opened Text
  import opened ErrorCounters
  import opened Registers
  import opened HwConstants
  import Amc
  import Packing

  const IC: string := "GEM_AMC.SLOW_CONTROL.IC."
  const NUM_OF_OH: string := "GEM_AMC.GEM_SYSTEM.CONFIG.NUM_OF_OH"

  // ---------------------------------------------------------------------------
  // writeGBTReg

  /** The checks of `writeGBTReg`: the GBT must exist and the address must be one of
    * the CONFIG_SIZE writable ones; the link number is not checked. */
  function RegCheck(c: Consts, gbtN: Word, address: U16): (r: Result<()>)
    ensures r.Ok? <==> gbtN < c.gbtsPerOh && address < c.configSize
    ensures r.Err? ==> r.error == RangeError(BadArgument)
  {
    if gbtN >= c.gbtsPerOh then Err(RangeError(BadArgument))
    else if address >= c.configSize then Err(RangeError(BadArgument))
    else Ok(())
  }

  /** `linkN = ohN*GBTS_PER_OH + gbtN` in 32-bit arithmetic. */
  function LinkNumber(c: Consts, ohN: Word, gbtN: Word): Word
  {
    (ohN * c.gbtsPerOh + gbtN) % WORD
  }

  /** When no wrap-around happens, the link number tells the OptoHybrid and the GBT
    * apart: distinct (ohN, gbtN) pairs select distinct links. */
  lemma LinkNumberDecodes(c: Consts, ohN: Word, gbtN: Word)
    requires c.gbtsPerOh >= 1 && gbtN < c.gbtsPerOh && ohN * c.gbtsPerOh + gbtN < WORD
    ensures LinkNumber(c, ohN, gbtN) / c.gbtsPerOh == ohN
    ensures LinkNumber(c, ohN, gbtN) % c.gbtsPerOh == gbtN
  {
    var x := ohN * c.gbtsPerOh + gbtN;
    Packing.DivModUnique(x, WORD, x, 0);
    Packing.DivModUnique(x, c.gbtsPerOh, gbtN, ohN);
  }

  /** The k-th write of `writeGBTReg`. */
  function IcWrite(c: Consts, ohN: Word, gbtN: Word, address: U16, value: Byte, k: nat): (string, Word)
    requires k < 5
  {
    if k == 0 then (IC + "READ_WRITE_LENGTH", 1)
    else if k == 1 then (IC + "GBTX_LINK_SELECT", LinkNumber(c, ohN, gbtN))
    else if k == 2 then (IC + "ADDRESS", address)
    else if k == 3 then (IC + "WRITE_DATA", value)
    else (IC + "EXECUTE_WRITE", 1)
  }

  /** The five writes of `writeGBTReg`, in order. */
  function RegWrites(c: Consts, ohN: Word, gbtN: Word, address: U16, value: Byte): seq<(string, Word)>
  {
    seq(5, k requires 0 <= k < 5 => IcWrite(c, ohN, gbtN, address, value, k))
  }

  /** A GBT register write is one byte (LENGTH = 1) sent to the selected link: the
    * address and the data are set before EXECUTE_WRITE, which comes last and only
    * once. */
  lemma RegWritesOrder(c: Consts, ohN: Word, gbtN: Word, address: U16, value: Byte)
    ensures var ws := RegWrites(c, ohN, gbtN, address, value);
      |ws| == 5 && ws[0] == (IC + "READ_WRITE_LENGTH", 1) &&
      ws[1] == (IC + "GBTX_LINK_SELECT", LinkNumber(c, ohN, gbtN)) &&
      ws[2] == (IC + "ADDRESS", address as Word) && ws[3] == (IC + "WRITE_DATA", value as Word) &&
      ws[4] == (IC + "EXECUTE_WRITE", 1) &&
      forall k :: 0 <= k < 4 ==> ws[k].0 != IC + "EXECUTE_WRITE"
  {
    var ws := RegWrites(c, ohN, gbtN, address, value);
    forall k | 0 <= k < 4
      ensures ws[k].0 != IC + "EXECUTE_WRITE"
    {
      assert ws[k].0[|IC|] != (IC + "EXECUTE_WRITE")[|IC|];
    }
  }

  /** `writeGBTReg(ohN, gbtN, address, value)`: the range checks, and only if they pass
    * the five IC writes. */
  method WriteGBTReg(hw: Hardware, c: Consts, ohN: Word, gbtN: Word, address: U16, value: Byte) returns (r: Result<()>)
    modifies hw`mem, hw`faults, hw`trace
    ensures hw.mem.Keys == old(hw.mem).Keys
    ensures RegCheck(c, gbtN, address).Err? ==>
      r == RegCheck(c, gbtN, address) && hw.mem == old(hw.mem) && Effects(hw.trace) == Effects(old(hw.trace))
    ensures r.Ok? ==> (RegCheck(c, gbtN, address).Ok? &&
      Performed(old(hw.mem), hw.mem, hw.table, Effects(old(hw.trace)), Effects(hw.trace), RegWrites(c, ohN, gbtN, address, value)))
    ensures r.Err? ==> r.error.RangeError? || r.error.RuntimeError?
  {
    var check := RegCheck(c, gbtN, address);
    if check.Err? {
      return check;
    }
    r := hw.WriteRegs(RegWrites(c, ohN, gbtN, address, value));
  }

  // ---------------------------------------------------------------------------
  // writeGBTConfig

  /** The writes of the first `n` registers of a configuration, address by address. */
  function ConfigPlan(c: Consts, ohN: Word, gbtN: Word, config: seq<Byte>, n: nat): seq<(string, Word)>
    requires n <= |config| && n <= 0x1_0000
    decreases n
  {
    if n == 0 then [] else ConfigPlan(c, ohN, gbtN, config, n - 1) + RegWrites(c, ohN, gbtN, n - 1, config[n - 1])
  }

  /** The configuration is written in ascending address order: the five writes at
    * position 5a are the write of `config[a]` to address a. */
  lemma {:induction false} ConfigPlanShape(c: Consts, ohN: Word, gbtN: Word, config: seq<Byte>, n: nat)
    requires n <= |config| && n <= 0x1_0000
    ensures |ConfigPlan(c, ohN, gbtN, config, n)| == 5 * n
    ensures forall a :: 0 <= a < n ==>
      ConfigPlan(c, ohN, gbtN, config, n)[5 * a..5 * a + 5] == RegWrites(c, ohN, gbtN, a, config[a])
    decreases n
  {
    if n > 0 {
      ConfigPlanShape(c, ohN, gbtN, config, n - 1);
      var p := ConfigPlan(c, ohN, gbtN, config, n - 1);
      var q := RegWrites(c, ohN, gbtN, n - 1, config[n - 1]);
      forall a | 0 <= a < n
        ensures (p + q)[5 * a..5 * a + 5] == RegWrites(c, ohN, gbtN, a, config[a])
      {
        if a < n - 1 {
          assert (p + q)[5 * a..5 * a + 5] == p[5 * a..5 * a + 5];
        } else {
          assert (p + q)[5 * a..5 * a + 5] == q;
        }
      }
    }
  }

  /** `writeGBTConfig(ohN, gbtN, config)`: ohN is checked against NUM_OF_OH and gbtN
    * against GBTS_PER_OH before anything is written; then `config[a]` is written to
    * every address a from 0 to CONFIG_SIZE - 1 in turn. */
  method WriteGBTConfig(hw: Hardware, c: Consts, ohN: Word, gbtN: Word, config: seq<Byte>) returns (r: Result<()>)
    requires Valid(c) && |config| == c.configSize
    modifies hw`mem, hw`faults, hw`trace
    ensures hw.mem.Keys == old(hw.mem).Keys
    ensures Readable(old(hw.mem), hw.table, NUM_OF_OH) && ohN >= RegValue(old(hw.mem), hw.table, NUM_OF_OH) ==>
      r.Err? && hw.mem == old(hw.mem)
    ensures gbtN >= c.gbtsPerOh ==> r.Err? && hw.mem == old(hw.mem)
    ensures r.Ok? ==> (Readable(old(hw.mem), hw.table, NUM_OF_OH) && ohN < RegValue(old(hw.mem), hw.table, NUM_OF_OH) &&
      gbtN < c.gbtsPerOh &&
      Performed(old(hw.mem), hw.mem, hw.table, Effects(old(hw.trace)), Effects(hw.trace), ConfigPlan(c, ohN, gbtN, config, |config|)))
    ensures r.Err? ==> r.error.RangeError? || r.error.RuntimeError?
  {
    var ohMax := hw.Get(NUM_OF_OH);
    if ohMax.Err? {
      return Err(ohMax.error);
    }
    if ohN >= ohMax.value {
      return Err(RangeError(BadArgument));
    }
    if gbtN >= c.gbtsPerOh {
      return Err(RangeError(BadArgument));
    }
    r := WriteConfigWords(hw, c, ohN, gbtN, config);
  }

  /** The loop of `writeGBTConfig`: one `writeGBTReg` per address, in ascending order,
    * stopping at the first failure. */
  method WriteConfigWords(hw: Hardware, c: Consts, ohN: Word, gbtN: Word, config: seq<Byte>) returns (r: Result<()>)
    requires c.configSize <= 0x1_0000 && |config| == c.configSize && gbtN < c.gbtsPerOh
    modifies hw`mem, hw`faults, hw`trace
    ensures hw.mem.Keys == old(hw.mem).Keys
    ensures r.Ok? ==> Performed(old(hw.mem), hw.mem, hw.table, Effects(old(hw.trace)), Effects(hw.trace), ConfigPlan(c, ohN, gbtN, config, |config|))
    ensures r.Err? ==> r.error.RangeError? || r.error.RuntimeError?
  {
    ghost var m0 := hw.mem;
    ghost var e0 := Effects(hw.trace);
    PerformedNothing(m0, hw.table, e0);
    var address := 0;
    while address < c.configSize
      invariant 0 <= address <= c.configSize
      invariant hw.mem.Keys == m0.Keys
      invariant Performed(m0, hw.mem, hw.table, e0, Effects(hw.trace), ConfigPlan(c, ohN, gbtN, config, address))
    {
      var w := WriteConfigWord(hw, c, ohN, gbtN, config, address, m0, e0);
      if w.Err? {
        return w;
      }
      address := address + 1;
    }
    r := Ok(());
  }

  /** One pass of that loop: the write of `config[address]` extends the plan done so far. */
  method WriteConfigWord(hw: Hardware, c: Consts, ohN: Word, gbtN: Word, config: seq<Byte>, address: nat,
                         ghost m0: map<Word, Word>, ghost e0: seq<Event>) returns (r: Result<()>)
    requires gbtN < c.gbtsPerOh && address < |config| && address < c.configSize <= 0x1_0000
    requires Performed(m0, hw.mem, hw.table, e0, Effects(hw.trace), ConfigPlan(c, ohN, gbtN, config, address))
    modifies hw`mem, hw`faults, hw`trace
    ensures hw.mem.Keys == old(hw.mem).Keys
    ensures r.Ok? ==> Performed(m0, hw.mem, hw.table, e0, Effects(hw.trace), ConfigPlan(c, ohN, gbtN, config, address + 1))
    ensures r.Err? ==> r.error.RangeError? || r.error.RuntimeError?
  {
    ghost var m1 := hw.mem;
    ghost var e1 := Effects(hw.trace);
    r := WriteGBTReg(hw, c, ohN, gbtN, address, config[address]);
    if r.Ok? {
      PerformedStep(m0, m1, hw.mem, hw.table, e0, e1, Effects(hw.trace),
                    ConfigPlan(c, ohN, gbtN, config, address), RegWrites(c, ohN, gbtN, address, config[address]));
    }
  }

  // ---------------------------------------------------------------------------
  // writeGBTPhase

  /** The e-link mapping tables of hw_constants.h: the GBT each VFAT hangs off, the
    * e-link of each VFAT, and the three phase registers of each e-link. */
  datatype Elinks = Elinks(vfatToGbt: seq<Word>, vfatToElink: seq<nat>, elinkToRegisters: seq<seq<U16>>)

  /** The tables have an entry for every VFAT, and every e-link has three registers
    * (the sizes of the C++ arrays). */
  predicate ValidElinks(c: Consts, e: Elinks)
  {
    |e.vfatToGbt| >= c.vfatsPerOh && |e.vfatToElink| >= c.vfatsPerOh &&
    forall v :: 0 <= v < c.vfatsPerOh ==>
      e.vfatToElink[v] < |e.elinkToRegisters| && |e.elinkToRegisters[e.vfatToElink[v]]| >= 3
  }

  /** The address of the `regN`-th phase register of VFAT `vfatN`. */
  function PhaseRegister(c: Consts, e: Elinks, vfatN: nat, regN: nat): U16
    requires ValidElinks(c, e) && vfatN < c.vfatsPerOh && regN < 3
  {
    e.elinkToRegisters[e.vfatToElink[vfatN]][regN]
  }

  /** The writes of the first `k` phase registers. */
  function PhasePlan(c: Consts, e: Elinks, ohN: Word, vfatN: nat, phase: Byte, k: nat): seq<(string, Word)>
    requires ValidElinks(c, e) && vfatN < c.vfatsPerOh && k <= 3
    decreases k
  {
    if k == 0 then []
    else PhasePlan(c, e, ohN, vfatN, phase, k - 1) + RegWrites(c, ohN, e.vfatToGbt[vfatN], PhaseRegister(c, e, vfatN, k - 1), phase)
  }

  /** The phase goes, the same value each time, to the three phase registers of the
    * VFAT's e-link, all on the GBT the VFAT is mapped to. */
  lemma PhasePlanShape(c: Consts, e: Elinks, ohN: Word, vfatN: nat, phase: Byte)
    requires ValidElinks(c, e) && vfatN < c.vfatsPerOh
    ensures PhasePlan(c, e, ohN, vfatN, phase, 3) ==
      RegWrites(c, ohN, e.vfatToGbt[vfatN], PhaseRegister(c, e, vfatN, 0), phase) +
      RegWrites(c, ohN, e.vfatToGbt[vfatN], PhaseRegister(c, e, vfatN, 1), phase) +
      RegWrites(c, ohN, e.vfatToGbt[vfatN], PhaseRegister(c, e, vfatN, 2), phase)
  {
    var w0 := RegWrites(c, ohN, e.vfatToGbt[vfatN], PhaseRegister(c, e, vfatN, 0), phase);
    assert PhasePlan(c, e, ohN, vfatN, phase, 1) == [] + w0;
    assert [] + w0 == w0;
  }

  /** The writes of `writeGBTPhase(ohN, vfatN, phase)` for the VFATs 0 to n - 1, in
    * VFAT order. */
  function PhasesPlan(c: Consts, e: Elinks, ohN: Word, phase: Byte, n: nat): seq<(string, Word)>
    requires ValidElinks(c, e) && n <= c.vfatsPerOh
    decreases n
  {
    if n == 0 then [] else PhasesPlan(c, e, ohN, phase, n - 1) + PhasePlan(c, e, ohN, n - 1, phase, 3)
  }

  /** Adding a VFAT appends its three register writes. */
  lemma PhasesPlanSnoc(c: Consts, e: Elinks, ohN: Word, phase: Byte, n: nat)
    requires ValidElinks(c, e) && n < c.vfatsPerOh
    ensures PhasesPlan(c, e, ohN, phase, n + 1) == PhasesPlan(c, e, ohN, phase, n) + PhasePlan(c, e, ohN, n, phase, 3)
  {
  }

  /** The scan sets the VFATs one after the other: the writes of the VFATs below v,
    * then VFAT v's own `writeGBTPhase` writes, begin the writes of every VFAT. */
  lemma {:induction false} PhasesPlanAt(c: Consts, e: Elinks, ohN: Word, phase: Byte, n: nat, v: nat)
    requires ValidElinks(c, e) && n <= c.vfatsPerOh && v < n
    ensures PhasesPlan(c, e, ohN, phase, v) + PhasePlan(c, e, ohN, v, phase, 3) <= PhasesPlan(c, e, ohN, phase, n)
    decreases n
  {
    PhasesPlanSnoc(c, e, ohN, phase, n - 1);
    if v < n - 1 {
      PhasesPlanAt(c, e, ohN, phase, n - 1, v);
      var a := PhasesPlan(c, e, ohN, phase, n - 1);
      var b := PhasePlan(c, e, ohN, n - 1, phase, 3);
      assert a <= a + b;
    }
  }

  /** `writeGBTPhase(ohN, vfatN, phase)`: ohN, vfatN and the phase are checked in that
    * order before anything is written; then the phase goes to the three registers. */
  method WriteGBTPhase(hw: Hardware, c: Consts, e: Elinks, ohN: Word, vfatN: Word, phase: Byte) returns (r: Result<()>)
    requires ValidElinks(c, e)
    modifies hw`mem, hw`faults, hw`trace
    ensures hw.mem.Keys == old(hw.mem).Keys
    ensures Readable(old(hw.mem), hw.table, NUM_OF_OH) && ohN >= RegValue(old(hw.mem), hw.table, NUM_OF_OH) ==>
      r.Err? && hw.mem == old(hw.mem)
    ensures vfatN >= c.vfatsPerOh || CheckPhase(c, phase).Err? ==> r.Err? && hw.mem == old(hw.mem)
    ensures r.Ok? ==> (Readable(old(hw.mem), hw.table, NUM_OF_OH) && ohN < RegValue(old(hw.mem), hw.table, NUM_OF_OH) &&
      vfatN < c.vfatsPerOh && CheckPhase(c, phase).Ok? &&
      Performed(old(hw.mem), hw.mem, hw.table, Effects(old(hw.trace)), Effects(hw.trace), PhasePlan(c, e, ohN, vfatN, phase, 3)))
    ensures r.Err? ==> r.error.RangeError? || r.error.RuntimeError?
  {
    var ohMax := hw.Get(NUM_OF_OH);
    if ohMax.Err? {
      return Err(ohMax.error);
    }
    if ohN >= ohMax.value {
      return Err(RangeError(BadArgument));
    }
    if vfatN >= c.vfatsPerOh {
      return Err(RangeError(BadArgument));
    }
    var check := CheckPhase(c, phase);
    if check.Err? {
      return check;
    }
    var gbtN := e.vfatToGbt[vfatN];
    ghost var m0 := hw.mem;
    ghost var e0 := Effects(hw.trace);
    PerformedNothing(m0, hw.table, e0);
    var regN := 0;
    while regN < 3
      invariant 0 <= regN <= 3
      invariant hw.mem.Keys == m0.Keys
      invariant Performed(m0, hw.mem, hw.table, e0, Effects(hw.trace), PhasePlan(c, e, ohN, vfatN, phase, regN))
    {
      ghost var m1 := hw.mem;
      ghost var e1 := Effects(hw.trace);
      var regAddress := e.elinkToRegisters[e.vfatToElink[vfatN]][regN];
      var w := WriteGBTReg(hw, c, ohN, gbtN, regAddress, phase);
      if w.Err? {
        return w;
      }
      PerformedStep(m0, m1, hw.mem, hw.table, e0, e1, Effects(hw.trace),
                    PhasePlan(c, e, ohN, vfatN, phase, regN), RegWrites(c, ohN, gbtN, regAddress, phase));
      regN := regN + 1;
    }
    r := Ok(());
  }

  // ---------------------------------------------------------------------------
  // scanGBTPhases

  /** The phases the scan visits: `phaseMin`, `phaseMin + phaseStep`, ... up to
    * `phaseMax`. */
  function ScanPhases(lo: nat, hi: nat, step: nat): (ps: seq<nat>)
    requires step > 0
    decreases hi + 1 - lo
  {
    if lo > hi then [] else [lo] + ScanPhases(lo + step, hi, step)
  }

  /** The visited phases are the ones at a whole number of steps from `phaseMin`, up
    * to `phaseMax`. */
  lemma {:induction false} ScanPhasesAre(lo: nat, hi: nat, step: nat, p: nat)
    requires step > 0
    ensures p in ScanPhases(lo, hi, step) <==> lo <= p <= hi && (p - lo) % step == 0
    decreases hi + 1 - lo
  {
    if lo <= hi {
      ScanPhasesAre(lo + step, hi, step, p);
      if p >= lo + step {
        Packing.DivModUnique(p - lo, step, (p - lo - step) % step, (p - lo - step) / step + 1);
      } else if lo < p {
        Packing.DivModUnique(p - lo, step, p - lo, 0);
      }
    }
  }

  /** Every visited phase is at least `phaseMin`. */
  lemma {:induction false} ScanPhasesAbove(lo: nat, hi: nat, step: nat)
    requires step > 0
    ensures forall q :: q in ScanPhases(lo, hi, step) ==> lo <= q <= hi
    decreases hi + 1 - lo
  {
    if lo <= hi {
      ScanPhasesAbove(lo + step, hi, step);
    }
  }

  /** What one link reset of the scan found: the phase, for each VFAT whether all
    * four checks passed, for each VFAT the error sums its checks read, and the
    * memory those reads saw. */
  datatype Rep = Rep(phase: nat, goods: seq<bool>, sums: seq<seq<Word>>, mem: map<Word, Word>)

  /** Every error sum of `sums` is the summed counters `repeatedRegRead` reads from `mem`. */
  predicate SumsRead(sums: seq<seq<Word>>, mem: map<Word, Word>, table: map<string, Descriptor>)
  {
    forall v, i :: 0 <= v < |sums| && 0 <= i < |sums[v]| ==>
      AllReadable(mem, table, CounterNames()) && sums[v][i] == Amc.CountersRead(mem, table).sum
  }

  /** The record's memory has the link reset written, and its error sums are the
    * counters read from that memory. */
  predicate ReadFrom(x: Rep, table: map<string, Descriptor>)
  {
    Mapped(x.mem.Keys, table, LINK_RESET) && x.mem == RegWritten(x.mem, table, LINK_RESET, 1) &&
    SumsRead(x.sums, x.mem, table)
  }

  /** Every record of the log was read from a memory with the keys `keys`. */
  ghost predicate LogRead(log: seq<Rep>, table: map<string, Descriptor>, keys: set<Word>)
  {
    forall j :: 0 <= j < |log| ==> ReadFrom(log[j], table) && log[j].mem.Keys == keys
  }

  lemma LogReadSnoc(log: seq<Rep>, x: Rep, table: map<string, Descriptor>, keys: set<Word>)
    requires LogRead(log, table, keys) && ReadFrom(x, table) && x.mem.Keys == keys
    ensures LogRead(log + [x], table, keys)
  {
    forall j | 0 <= j < |log| + 1
      ensures ReadFrom((log + [x])[j], table) && (log + [x])[j].mem.Keys == keys
    {
      if j < |log| {
        assert (log + [x])[j] == log[j];
      }
    }
  }

  /** The four checks of a VFAT were all made and all read no errors. */
  predicate Passed(sums: seq<Word>)
  {
    |sums| == 4 && forall i :: 0 <= i < 4 ==> sums[i] == 0
  }

  /** The checks of one VFAT as the scan makes them: in order, stopping at the first
    * that reads errors; the VFAT is good exactly when all four read none. */
  predicate Verdict(good: bool, sums: seq<Word>)
  {
    1 <= |sums| <= 4 && (forall i :: 0 <= i < |sums| - 1 ==> sums[i] == 0) &&
    (|sums| < 4 ==> sums[|sums| - 1] != 0) && (good <==> Passed(sums))
  }

  /** One link reset's record holds a verdict for each of the `nv` VFATs. */
  predicate Checked(x: Rep, nv: nat)
  {
    |x.goods| == nv && |x.sums| == nv && forall v :: 0 <= v < nv ==> Verdict(x.goods[v], x.sums[v])
  }

  /** Every record of the log holds the verdicts of `nv` VFATs. */
  predicate LogChecked(log: seq<Rep>, nv: nat)
  {
    forall i :: 0 <= i < |log| ==> Checked(log[i], nv)
  }

  /** Independent of the good flags: the link resets at phase `p` after which the four
    * checks of VFAT `v` all read no errors. */
  function Passes(log: seq<Rep>, v: nat, p: nat): nat
    decreases |log|
  {
    if log == [] then 0
    else
      var last := log[|log| - 1];
      Passes(log[..|log| - 1], v, p) + (if last.phase == p && v < |last.sums| && Passed(last.sums[v]) then 1 else 0)
  }

  /** On a log of verdicts, a VFAT's tally at a phase is the number of resets at that
    * phase after which all four of its checks read zero. */
  lemma {:induction false} TallyCountsPasses(log: seq<Rep>, nv: nat, v: nat, p: nat)
    requires LogChecked(log, nv) && v < nv
    ensures Tally(log, v, p) == Passes(log, v, p)
    decreases |log|
  {
    if log != [] {
      var init := log[..|log| - 1];
      assert LogChecked(init, nv) by {
        forall i | 0 <= i < |init|
          ensures Checked(init[i], nv)
        {
          assert init[i] == log[i];
        }
      }
      TallyCountsPasses(init, nv, v, p);
      assert Checked(log[|log| - 1], nv);
    }
  }

  lemma LogCheckedSnoc(log: seq<Rep>, x: Rep, nv: nat)
    requires LogChecked(log, nv) && Checked(x, nv)
    ensures LogChecked(log + [x], nv)
  {
    forall i | 0 <= i < |log| + 1
      ensures Checked((log + [x])[i], nv)
    {
      if i < |log| {
        assert (log + [x])[i] == log[i];
      }
    }
  }

  /** The number of link resets done at phase `p`. */
  function Reps(log: seq<Rep>, p: nat): nat
    decreases |log|
  {
    if log == [] then 0 else Reps(log[..|log| - 1], p) + (if log[|log| - 1].phase == p then 1 else 0)
  }

  /** The number of link resets at phase `p` after which VFAT `v` passed. */
  function Tally(log: seq<Rep>, v: nat, p: nat): nat
    decreases |log|
  {
    if log == [] then 0
    else
      var last := log[|log| - 1];
      Tally(log[..|log| - 1], v, p) + (if last.phase == p && v < |last.goods| && last.goods[v] then 1 else 0)
  }

  /** A VFAT cannot pass at a phase more often than the phase was tried. */
  lemma {:induction false} TallyAtMostReps(log: seq<Rep>, v: nat, p: nat)
    ensures Tally(log, v, p) <= Reps(log, p)
    decreases |log|
  {
    if log != [] {
      TallyAtMostReps(log[..|log| - 1], v, p);
    }
  }

  lemma RepsStep(log: seq<Rep>, x: Rep, p: nat)
    ensures (log + [x])[..|log|] == log
    ensures Reps(log + [x], p) == Reps(log, p) + (if x.phase == p then 1 else 0)
    ensures forall v: nat :: Tally(log + [x], v, p) == Tally(log, v, p) + (if x.phase == p && v < |x.goods| && x.goods[v] then 1 else 0)
  {
    assert (log + [x])[..|log|] == log;
  }

  /** The VFAT indices 0 to nv - 1. */
  function Range(nv: nat): (vs: seq<nat>)
    ensures |vs| == nv && forall v :: 0 <= v < nv ==> vs[v] == v
  {
    seq(nv, v requires 0 <= v < nv => v)
  }

  lemma RangeMembers(nv: nat)
    ensures forall v: nat :: v in Range(nv) <==> v < nv
  {
    forall v: nat
      ensures v in Range(nv) <==> v < nv
    {
      if v < nv {
        assert Range(nv)[v] == v;
      }
    }
  }

  /** The result map: for each VFAT, the 16 tallies from phase 0 to phase 15. */
  function Table(log: seq<Rep>, nv: nat): (t: map<nat, seq<nat>>)
    ensures forall v: nat :: v in t <==> v < nv
    ensures forall v :: v in t ==> |t[v]| == 16
  {
    RangeMembers(nv);
    map v | v in Range(nv) :: seq(16, p requires 0 <= p < 16 => Tally(log, v, p))
  }

  /** The map the scan starts from: 16 zeroes for each of the first `n` VFATs. */
  function Zeroes(n: nat): map<nat, seq<nat>>
  {
    map v | v in Range(n) :: seq(16, _ => 0)
  }

  lemma ZeroesStep(n: nat)
    ensures Zeroes(n + 1) == Zeroes(n)[n := seq(16, _ => 0)]
  {
    RangeMembers(n);
    RangeMembers(n + 1);
  }

  /** Before any link reset every tally is 0. */
  lemma ZeroesAreEmptyTable(nv: nat)
    ensures Zeroes(nv) == Table([], nv)
  {
    var t := Table([], nv);
    forall v | v in t
      ensures t[v] == seq(16, _ => 0)
    {
    }
  }

  /** Every tally is bounded by the resets at its phase, and vanishes at a phase
    * without resets. */
  lemma TableBound(log: seq<Rep>, nv: nat, n: nat, ps: seq<nat>, v: nat, p: nat)
    requires forall q :: Reps(log, q) == if q in ps then n else 0
    requires v in Table(log, nv) && p < 16
    ensures Table(log, nv)[v][p] <= n && (p !in ps ==> Table(log, nv)[v][p] == 0)
  {
    assert Table(log, nv)[v][p] == Tally(log, v, p);
    assert Reps(log, p) == if p in ps then n else 0;
    TallyAtMostReps(log, v, p);
  }

  /** The shape and bounds of a finished scan's result map. */
  lemma ScanResult(log: seq<Rep>, nv: nat, n: nat, ps: seq<nat>, t: map<nat, seq<nat>>)
    requires forall q :: Reps(log, q) == if q in ps then n else 0
    requires t == Table(log, nv)
    ensures forall v: nat :: v in t <==> v < nv
    ensures forall v: nat :: v in t ==> |t[v]| == 16
    ensures forall v: nat, p: nat :: v in t && p < 16 ==> t[v][p] <= n
    ensures forall v: nat, p: nat :: v in t && p < 16 && p !in ps ==> t[v][p] == 0
  {
    forall v: nat, p: nat | v in t && p < 16
      ensures t[v][p] <= n
    {
      TableBound(log, nv, n, ps, v, p);
    }
    forall v: nat, p: nat | v in t && p < 16 && p !in ps
      ensures t[v][p] == 0
    {
      TableBound(log, nv, n, ps, v, p);
    }
  }

  /** `++results[vfatN][phase]` for every VFAT that passed. */
  function AddGoods(results: map<nat, seq<nat>>, goods: seq<bool>, phase: nat): map<nat, seq<nat>>
  {
    map v | v in results ::
      if v < |goods| && goods[v] && phase < |results[v]| then results[v][phase := results[v][phase] + 1] else results[v]
  }

  lemma TableStep(log: seq<Rep>, nv: nat, x: Rep)
    requires x.phase < 16 && |x.goods| == nv
    ensures Table(log + [x], nv) == AddGoods(Table(log, nv), x.goods, x.phase)
  {
    var t1 := Table(log + [x], nv);
    var t2 := AddGoods(Table(log, nv), x.goods, x.phase);
    forall v | v in t1
      ensures t1[v] == t2[v]
    {
      forall p | 0 <= p < 16
        ensures t1[v][p] == t2[v][p]
      {
        RepsStep(log, x, p);
      }
    }
  }

  /** `repeatedRegRead(name, true, nReads)` reduced to the summed error count the scan
    * looks at. */
  method ReadErrorSum(hw: Hardware, name: string, nReads: Word) returns (r: Result<Word>)
    modifies hw`mem, hw`faults, hw`trace
    ensures r.Ok? ==> Amc.AfterReset(old(hw.mem), hw.mem, hw.table) && r.value == Amc.CountersRead(hw.mem, hw.table).sum
    ensures r.Err? ==> r.error.RuntimeError?
  {
    var x := Amc.ReadCounters(hw, name, true, nReads);
    if x.Err? {
      return Err(x.error);
    }
    r := Ok(x.value.sum);
  }

  /** One more `repeatedRegRead` after the first of a check: the link reset it writes
    * is already in memory, so memory is as it was and every earlier sum is read again. */
  method ReadAgain(hw: Hardware, name: string, nReads: Word, ghost m0: map<Word, Word>, ghost sums: seq<Word>)
    returns (r: Result<Word>)
    requires |sums| == 0 ==> hw.mem == m0
    requires |sums| > 0 ==> Amc.AfterReset(m0, hw.mem, hw.table)
    requires forall i :: 0 <= i < |sums| ==> sums[i] == Amc.CountersRead(hw.mem, hw.table).sum
    modifies hw`mem, hw`faults, hw`trace
    ensures r.Ok? ==> Amc.AfterReset(m0, hw.mem, hw.table) && r.value == Amc.CountersRead(hw.mem, hw.table).sum
    ensures r.Ok? ==> forall i :: 0 <= i < |sums| ==> sums[i] == Amc.CountersRead(hw.mem, hw.table).sum
    ensures r.Err? ==> r.error.RuntimeError?
  {
    ghost var m := hw.mem;
    r := ReadErrorSum(hw, name, nReads);
    if r.Ok? && |sums| > 0 {
      RegWrittenTwice(m0, hw.table, LINK_RESET, 1, 1);
      assert hw.mem == m;
    }
  }

  /** The repeated reads that make up one VFAT's check at one phase, stopping at the
    * first that reports errors. `sums` are the error sums the reads returned. */
  method CheckVfat(hw: Hardware, ohN: Word, vfatN: nat, nReads: Word) returns (r: Result<bool>, ghost sums: seq<Word>)
    modifies hw`mem, hw`faults, hw`trace
    ensures r.Ok? ==> Verdict(r.value, sums)
    ensures r.Ok? ==> Amc.AfterReset(old(hw.mem), hw.mem, hw.table)
    ensures r.Ok? ==> forall i :: 0 <= i < |sums| ==> sums[i] == Amc.CountersRead(hw.mem, hw.table).sum
    ensures r.Err? ==> r.error.RuntimeError?
  {
    var vfRegBase := "GEM_AMC.OH.OH" + Dec(ohN) + ".GEB.VFAT" + Dec(vfatN);
    var names := [Amc.SyncName(ohN, vfatN), vfRegBase + ".CFG_RUN", vfRegBase + ".HW_ID_VER", vfRegBase + ".HW_ID"];
    sums := [];
    var k := 0;
    while k < 4
      invariant 0 <= k <= 4 && |sums| == k
      invariant forall i :: 0 <= i < k ==> sums[i] == 0
      invariant k > 0 ==> Amc.AfterReset(old(hw.mem), hw.mem, hw.table)
      invariant k == 0 ==> hw.mem == old(hw.mem)
      invariant forall i :: 0 <= i < k ==> sums[i] == Amc.CountersRead(hw.mem, hw.table).sum
    {
      var x := ReadAgain(hw, names[k], nReads, old(hw.mem), sums);
      if x.Err? {
        return Err(x.error), sums;
      }
      sums := sums + [x.value];
      if x.value != 0 {
        assert !Passed(sums) by { assert sums[k] != 0; }
        return Ok(false), sums;
      }
      k := k + 1;
    }
    assert Passed(sums);
    r := Ok(true);
  }

  /** One link reset's checks of every VFAT, in VFAT order. */
  method CheckAll(hw: Hardware, ohN: Word, nv: nat, nReads: Word) returns (r: Result<seq<bool>>, ghost sums: seq<seq<Word>>)
    modifies hw`mem, hw`faults, hw`trace
    ensures r.Ok? ==> |r.value| == nv && |sums| == nv
    ensures r.Ok? ==> forall v :: 0 <= v < nv ==> Verdict(r.value[v], sums[v])
    ensures r.Ok? && nv == 0 ==> hw.mem == old(hw.mem)
    ensures r.Ok? && nv > 0 ==> Amc.AfterReset(old(hw.mem), hw.mem, hw.table)
    ensures r.Ok? ==> SumsRead(sums, hw.mem, hw.table)
    ensures r.Err? ==> r.error.RuntimeError?
  {
    var goods: seq<bool> := [];
    sums := [];
    var vfatN := 0;
    while vfatN < nv
      invariant 0 <= vfatN <= nv && |goods| == vfatN && |sums| == vfatN
      invariant forall v :: 0 <= v < vfatN ==> Verdict(goods[v], sums[v])
      invariant vfatN == 0 ==> hw.mem == old(hw.mem)
      invariant vfatN > 0 ==> Amc.AfterReset(old(hw.mem), hw.mem, hw.table)
      invariant SumsRead(sums, hw.mem, hw.table)
    {
      ghost var m := hw.mem;
      var g, s := CheckVfat(hw, ohN, vfatN, nReads);
      if g.Err? {
        return Err(g.error), sums;
      }
      if vfatN > 0 {
        // the checks after the first write the link reset again, which leaves memory as it was
        Amc.ResetTwice(old(hw.mem), m, hw.mem, hw.table);
      }
      SumsReadSnoc(sums, s, hw.mem, hw.table);
      goods := goods + [g.value];
      sums := sums + [s];
      vfatN := vfatN + 1;
    }
    r := Ok(goods);
  }

  lemma SumsReadSnoc(sums: seq<seq<Word>>, s: seq<Word>, mem: map<Word, Word>, table: map<string, Descriptor>)
    requires SumsRead(sums, mem, table)
    requires AllReadable(mem, table, CounterNames())
    requires forall i :: 0 <= i < |s| ==> s[i] == Amc.CountersRead(mem, table).sum
    ensures SumsRead(sums + [s], mem, table)
  {
    forall v, i | 0 <= v < |sums| + 1 && 0 <= i < |(sums + [s])[v]|
      ensures (sums + [s])[v][i] == Amc.CountersRead(mem, table).sum
    {
      if v < |sums| {
        assert (sums + [s])[v] == sums[v];
      }
    }
  }

  /** Every VFAT's phase set to `phase`, in VFAT order: a success performed the
    * `writeGBTPhase` writes of every VFAT, one VFAT after the other. */
  method SetPhases(hw: Hardware, c: Consts, e: Elinks, ohN: Word, phase: Byte) returns (r: Result<()>)
    requires c.vfatsPerOh <= 24 && ValidElinks(c, e)
    modifies hw`mem, hw`faults, hw`trace
    ensures hw.mem.Keys == old(hw.mem).Keys
    ensures r.Ok? ==> Performed(old(hw.mem), hw.mem, hw.table, Effects(old(hw.trace)), Effects(hw.trace),
                                PhasesPlan(c, e, ohN, phase, c.vfatsPerOh))
    ensures r.Err? ==> r.error.RangeError? || r.error.RuntimeError?
  {
    ghost var m0 := hw.mem;
    ghost var e0 := Effects(hw.trace);
    PerformedNothing(m0, hw.table, e0);
    var vfatN := 0;
    while vfatN < c.vfatsPerOh
      invariant 0 <= vfatN <= c.vfatsPerOh
      invariant hw.mem.Keys == m0.Keys
      invariant Performed(m0, hw.mem, hw.table, e0, Effects(hw.trace), PhasesPlan(c, e, ohN, phase, vfatN))
    {
      r := SetPhase(hw, c, e, ohN, phase, vfatN, m0, e0);
      if r.Err? {
        return;
      }
      vfatN := vfatN + 1;
    }
    r := Ok(());
  }

  /** One pass of the VFAT loop: VFAT vfatN's phase writes follow those done before. */
  method SetPhase(hw: Hardware, c: Consts, e: Elinks, ohN: Word, phase: Byte, vfatN: nat,
                  ghost m0: map<Word, Word>, ghost e0: seq<Event>) returns (r: Result<()>)
    requires c.vfatsPerOh <= 24 && ValidElinks(c, e) && vfatN < c.vfatsPerOh
    requires Performed(m0, hw.mem, hw.table, e0, Effects(hw.trace), PhasesPlan(c, e, ohN, phase, vfatN))
    modifies hw`mem, hw`faults, hw`trace
    ensures hw.mem.Keys == old(hw.mem).Keys
    ensures r.Ok? ==> Performed(m0, hw.mem, hw.table, e0, Effects(hw.trace), PhasesPlan(c, e, ohN, phase, vfatN + 1))
    ensures r.Err? ==> r.error.RangeError? || r.error.RuntimeError?
  {
    ghost var e1 := Effects(hw.trace);
    r := WriteGBTPhase(hw, c, e, ohN, vfatN as Word, phase);
    if r.Ok? {
      PhasesPlanSnoc(c, e, ohN, phase, vfatN);
      PerformedStep(m0, old(hw.mem), hw.mem, hw.table, e0, e1, Effects(hw.trace),
                    PhasesPlan(c, e, ohN, phase, vfatN), PhasePlan(c, e, ohN, vfatN, phase, 3));
    }
  }

  /** One link reset followed by the checks of every VFAT; `x` records what they found
    * and the memory they read. */
  method ResetAndCheck(hw: Hardware, ohN: Word, nv: nat, phase: nat, nReads: Word) returns (r: Result<seq<bool>>, ghost x: Rep)
    modifies hw`mem, hw`faults, hw`trace
    ensures r.Ok? ==> x.phase == phase && x.goods == r.value && Checked(x, nv)
    ensures r.Ok? ==>
      Mapped(old(hw.mem).Keys, hw.table, LINK_RESET) && hw.mem == RegWritten(old(hw.mem), hw.table, LINK_RESET, 1)
    ensures r.Ok? ==> x.mem == hw.mem && ReadFrom(x, hw.table)
    ensures r.Err? ==> r.error.RuntimeError?
  {
    ghost var m := hw.mem;
    var w := hw.Set(LINK_RESET, 1);
    if w.Err? {
      return Err(w.error), Rep(phase, [], [], hw.mem);
    }
    var goods, sums := CheckAll(hw, ohN, nv, nReads);
    if goods.Err? {
      return Err(goods.error), Rep(phase, [], [], hw.mem);
    }
    // the checks write the link reset again, which leaves memory as it was
    RegWrittenTwice(m, hw.table, LINK_RESET, 1, 1);
    r, x := goods, Rep(phase, goods.value, sums, hw.mem);
  }

  /** `nResets` link resets at one phase, each followed by the checks of every VFAT. */
  method ScanPhase(hw: Hardware, c: Consts, ohN: Word, nResets: Word, phase: nat, nReads: Word,
                   results: map<nat, seq<nat>>, ghost log: seq<Rep>)
    returns (r: Result<map<nat, seq<nat>>>, ghost log': seq<Rep>)
    requires phase < 16 && results == Table(log, c.vfatsPerOh) && LogChecked(log, c.vfatsPerOh)
    requires LogRead(log, hw.table, hw.mem.Keys)
    modifies hw`mem, hw`faults, hw`trace
    ensures r.Ok? ==> r.value == Table(log', c.vfatsPerOh) && LogChecked(log', c.vfatsPerOh)
    ensures r.Ok? ==> forall p :: Reps(log', p) == Reps(log, p) + (if p == phase then nResets else 0)
    ensures r.Ok? ==> |log'| == |log| + nResets && log'[..|log|] == log
    ensures r.Ok? && nResets == 0 ==> hw.mem == old(hw.mem)
    ensures r.Ok? && nResets > 0 ==>
      Mapped(old(hw.mem).Keys, hw.table, LINK_RESET) && hw.mem == RegWritten(old(hw.mem), hw.table, LINK_RESET, 1)
    ensures r.Ok? ==> forall j :: |log| <= j < |log'| ==> log'[j].phase == phase && log'[j].mem == hw.mem
    ensures r.Ok? ==> LogRead(log', hw.table, old(hw.mem).Keys)
    ensures r.Err? ==> r.error.RuntimeError?
  {
    var res := results;
    log' := log;
    var repN := 0;
    while repN < nResets
      invariant 0 <= repN <= nResets
      invariant res == Table(log', c.vfatsPerOh) && LogChecked(log', c.vfatsPerOh)
      invariant forall p :: Reps(log', p) == Reps(log, p) + (if p == phase then repN else 0)
      invariant |log'| == |log| + repN && log'[..|log|] == log
      invariant repN == 0 ==> hw.mem == old(hw.mem)
      invariant repN > 0 ==>
        Mapped(old(hw.mem).Keys, hw.table, LINK_RESET) && hw.mem == RegWritten(old(hw.mem), hw.table, LINK_RESET, 1)
      invariant forall j :: |log| <= j < |log'| ==> log'[j].phase == phase && log'[j].mem == hw.mem
      invariant LogRead(log', hw.table, old(hw.mem).Keys)
    {
      var goods, x := ResetAndCheck(hw, ohN, c.vfatsPerOh, phase, nReads);
      if goods.Err? {
        return Err(goods.error), log';
      }
      if repN > 0 {
        // one more link reset after the first leaves memory as it was
        RegWrittenTwice(old(hw.mem), hw.table, LINK_RESET, 1, 1);
      }
      LogReadSnoc(log', x, hw.table, old(hw.mem).Keys);
      assert (log' + [x])[..|log|] == log'[..|log|];
      TableStep(log', c.vfatsPerOh, x);
      forall p
        ensures Reps(log' + [x], p) == Reps(log', p) + (if p == phase then 1 else 0)
      {
        RepsStep(log', x, p);
      }
      LogCheckedSnoc(log', x, c.vfatsPerOh);
      res := AddGoods(res, goods.value, phase);
      log' := log' + [x];
      repN := repN + 1;
    }
    r := Ok(res);
  }

  /** `scanGBTPhases(ohN, nResets, phaseMin, phaseMax, phaseStep, nVerificationReads)`.
    * The result has one entry per VFAT, each with 16 tallies; the tally of a phase
    * counts the link resets after which all four checks of the VFAT passed, so it is
    * at most `nResets`, and it is 0 for every phase the scan does not visit. */
  method ScanGBTPhases(hw: Hardware, c: Consts, e: Elinks, ohN: Word, nResets: Word,
                       phaseMin: Byte, phaseMax: Byte, phaseStep: Byte, nVerificationReads: Word)
    returns (r: Result<map<nat, seq<nat>>>, ghost log: seq<Rep>)
    requires Valid(c) && ValidElinks(c, e) && c.phaseMax < 16 && phaseStep > 0
    modifies hw`mem, hw`faults, hw`trace
    ensures Readable(old(hw.mem), hw.table, NUM_OF_OH) && ohN >= RegValue(old(hw.mem), hw.table, NUM_OF_OH) ==>
      r.Err? && hw.mem == old(hw.mem)
    ensures CheckPhase(c, phaseMin).Err? || CheckPhase(c, phaseMax).Err? ==> r.Err? && hw.mem == old(hw.mem)
    ensures r.Ok? ==> r.value == Table(log, c.vfatsPerOh) && LogChecked(log, c.vfatsPerOh)
    ensures r.Ok? ==> forall p :: Reps(log, p) == if p in ScanPhases(phaseMin, phaseMax, phaseStep) then nResets else 0
    ensures r.Ok? ==> forall j :: 0 <= j < |log| ==> ReadFrom(log[j], hw.table) && log[j].mem.Keys == old(hw.mem).Keys
    ensures r.Ok? && log != [] ==> log[|log| - 1].mem == hw.mem
    ensures r.Ok? ==> forall v: nat, p: nat :: v in r.value && p < 16 ==> r.value[v][p] == Passes(log, v, p)
    ensures r.Ok? ==> (forall v: nat :: v in r.value <==> v < c.vfatsPerOh)
    ensures r.Ok? ==> forall v: nat :: v in r.value ==> |r.value[v]| == 16
    ensures r.Ok? ==> forall v: nat, p: nat :: v in r.value && p < 16 ==> r.value[v][p] <= nResets
    ensures r.Ok? ==> forall v: nat, p: nat :: v in r.value && p < 16 && p !in ScanPhases(phaseMin, phaseMax, phaseStep) ==>
      r.value[v][p] == 0
    ensures r.Err? ==> r.error.RangeError? || r.error.RuntimeError?
  {
    log := [];
    var ohMax := hw.Get(NUM_OF_OH);
    if ohMax.Err? {
      return Err(ohMax.error), log;
    }
    if ohN >= ohMax.value {
      return Err(RangeError(BadArgument)), log;
    }
    var check := CheckPhase(c, phaseMin);
    if check.Err? {
      return Err(check.error), log;
    }
    check := CheckPhase(c, phaseMax);
    if check.Err? {
      return Err(check.error), log;
    }
    var results := EmptyResults(c.vfatsPerOh);
    var res;
    res, log := ScanRange(hw, c, e, ohN, nResets, phaseMin, phaseMax, phaseStep, nVerificationReads, results);
    if res.Err? {
      return Err(res.error), log;
    }
    ScanResult(log, c.vfatsPerOh, nResets, ScanPhases(phaseMin, phaseMax, phaseStep), res.value);
    forall v: nat, p: nat | v in res.value && p < 16
      ensures res.value[v][p] == Passes(log, v, p)
    {
      assert res.value[v][p] == Tally(log, v, p);
      TallyCountsPasses(log, c.vfatsPerOh, v, p);
    }
    r := Ok(res.value);
  }

  /** `results[vfatN] = std::vector<int>(16, 0)` for each VFAT. */
  method EmptyResults(nv: nat) returns (results: map<nat, seq<nat>>)
    ensures results == Table([], nv)
  {
    results := map[];
    var vfatN := 0;
    while vfatN < nv
      invariant 0 <= vfatN <= nv && results == Zeroes(vfatN)
    {
      ZeroesStep(vfatN);
      results := results[vfatN := seq(16, _ => 0)];
      vfatN := vfatN + 1;
    }
    ZeroesAreEmptyTable(nv);
  }

  /** m1 is m0 after the `writeGBTPhase` writes of every VFAT at `phase`. */
  predicate PhasesWritten(m0: map<Word, Word>, m1: map<Word, Word>, table: map<string, Descriptor>,
                          c: Consts, e: Elinks, ohN: Word, phase: Byte)
    requires ValidElinks(c, e)
  {
    AllMapped(m0.Keys, table, PhasesPlan(c, e, ohN, phase, c.vfatsPerOh)) &&
    m1 == WriteAll(m0, table, PhasesPlan(c, e, ohN, phase, c.vfatsPerOh))
  }

  /** The records of the log from `from` on are at `phase`, each read from `phased`
    * with the link reset written. */
  predicate ReadAfterPhase(log: seq<Rep>, from: nat, phased: map<Word, Word>, table: map<string, Descriptor>, phase: nat)
  {
    from <= |log| && Mapped(phased.Keys, table, LINK_RESET) &&
    forall x :: x in log[from..] ==> x.phase == phase && x.mem == RegWritten(phased, table, LINK_RESET, 1)
  }

  /** One pass of the phase loop went from m0 to `phased` by the phase writes, and its
    * records, from `from` on, were read after them. */
  predicate PhasePass(m0: map<Word, Word>, phased: map<Word, Word>, table: map<string, Descriptor>,
                      c: Consts, e: Elinks, ohN: Word, phase: nat, nResets: nat, log: seq<Rep>, from: nat)
    requires ValidElinks(c, e) && phase < 16
  {
    PhasesWritten(m0, phased, table, c, e, ohN, phase as Byte) &&
    (nResets > 0 ==> ReadAfterPhase(log, from, phased, table, phase))
  }

  /** One pass of the phase loop: every VFAT set to the phase, then the phase scanned.
    * `phased` is the memory the phase writes leave; every record of the pass was read
    * from it with the link reset written. */
  method ScanAt(hw: Hardware, c: Consts, e: Elinks, ohN: Word, nResets: Word, phase: nat, nReads: Word,
                results: map<nat, seq<nat>>, ghost log: seq<Rep>)
    returns (r: Result<map<nat, seq<nat>>>, ghost log': seq<Rep>, ghost phased: map<Word, Word>)
    requires c.vfatsPerOh <= 24 && ValidElinks(c, e) && phase < 16
    requires results == Table(log, c.vfatsPerOh) && LogChecked(log, c.vfatsPerOh) && LogRead(log, hw.table, hw.mem.Keys)
    modifies hw`mem, hw`faults, hw`trace
    ensures r.Ok? ==> PhasePass(old(hw.mem), phased, hw.table, c, e, ohN, phase, nResets, log', |log|)
    ensures r.Ok? ==> hw.mem.Keys == old(hw.mem).Keys
    ensures r.Ok? ==> r.value == Table(log', c.vfatsPerOh) && LogChecked(log', c.vfatsPerOh)
    ensures r.Ok? ==> forall p :: Reps(log', p) == Reps(log, p) + (if p == phase then nResets else 0)
    ensures r.Ok? ==> |log'| == |log| + nResets && LogRead(log', hw.table, old(hw.mem).Keys)
    ensures r.Ok? && nResets > 0 ==> log'[|log'| - 1].mem == hw.mem
    ensures r.Err? ==> r.error.RangeError? || r.error.RuntimeError?
  {
    phased := hw.mem;
    var s := SetPhases(hw, c, e, ohN, phase as Byte);
    if s.Err? {
      return Err(s.error), log, phased;
    }
    phased := hw.mem;
    var sr;
    sr, log' := ScanPhase(hw, c, ohN, nResets, phase, nReads, results, log);
    if sr.Err? {
      return Err(sr.error), log', phased;
    }
    r := sr;
  }

  /** A pass at a phase the scan has not visited yet adds that phase to the visited ones. */
  lemma RepsAfterPass(log: seq<Rep>, log': seq<Rep>, done: seq<nat>, phase: nat, nResets: nat)
    requires forall q :: q in done ==> q < phase
    requires forall p :: Reps(log, p) == if p in done then nResets else 0
    requires forall p :: Reps(log', p) == Reps(log, p) + (if p == phase then nResets else 0)
    ensures forall p :: Reps(log', p) == if p in done + [phase] then nResets else 0
  {
    forall p
      ensures Reps(log', p) == if p in done + [phase] then nResets else 0
    {
      assert p in done + [phase] <==> p in done || p == phase;
    }
  }

  /** One turn of the phase loop: the pass at `phase` added to the records of the phases
    * visited so far, `done`, all below `phase`. */
  method ScanNext(hw: Hardware, c: Consts, e: Elinks, ohN: Word, nResets: Word, phase: nat, nReads: Word,
                  results: map<nat, seq<nat>>, ghost log: seq<Rep>, ghost done: seq<nat>, ghost keys: set<Word>)
    returns (r: Result<map<nat, seq<nat>>>, ghost log': seq<Rep>)
    requires c.vfatsPerOh <= 24 && ValidElinks(c, e) && phase < 16
    requires forall q :: q in done ==> q < phase
    requires results == Table(log, c.vfatsPerOh) && LogChecked(log, c.vfatsPerOh)
    requires forall p :: Reps(log, p) == if p in done then nResets else 0
    requires LogRead(log, hw.table, keys) && hw.mem.Keys == keys
    requires nResets == 0 ==> log == []
    modifies hw`mem, hw`faults, hw`trace
    ensures r.Ok? ==> r.value == Table(log', c.vfatsPerOh) && LogChecked(log', c.vfatsPerOh)
    ensures r.Ok? ==> forall p :: Reps(log', p) == if p in done + [phase] then nResets else 0
    ensures r.Ok? ==> LogRead(log', hw.table, keys) && hw.mem.Keys == keys
    ensures r.Ok? && nResets == 0 ==> log' == []
    ensures r.Ok? && log' != [] ==> log'[|log'| - 1].mem == hw.mem
    ensures r.Err? ==> r.error.RangeError? || r.error.RuntimeError?
  {
    ghost var phased;
    r, log', phased := ScanAt(hw, c, e, ohN, nResets, phase, nReads, results, log);
    if r.Ok? {
      RepsAfterPass(log, log', done, phase, nResets);
    }
  }

  /** The phase loop of the scan: set every VFAT to the phase, then scan it. */
  method ScanRange(hw: Hardware, c: Consts, e: Elinks, ohN: Word, nResets: Word,
                   phaseMin: Byte, phaseMax: Byte, phaseStep: Byte, nReads: Word,
                   results0: map<nat, seq<nat>>)
    returns (r: Result<map<nat, seq<nat>>>, ghost log: seq<Rep>)
    requires c.vfatsPerOh <= 24 && ValidElinks(c, e) && phaseMax < 16 && phaseStep > 0
    requires results0 == Table([], c.vfatsPerOh)
    modifies hw`mem, hw`faults, hw`trace
    ensures r.Ok? ==> r.value == Table(log, c.vfatsPerOh) && LogChecked(log, c.vfatsPerOh)
    ensures r.Ok? ==> forall p :: Reps(log, p) == if p in ScanPhases(phaseMin, phaseMax, phaseStep) then nResets else 0
    ensures r.Ok? ==> LogRead(log, hw.table, old(hw.mem).Keys)
    ensures r.Ok? && log != [] ==> log[|log| - 1].mem == hw.mem
    ensures r.Err? ==> r.error.RangeError? || r.error.RuntimeError?
  {
    log := [];
    var results := results0;
    ghost var done: seq<nat> := [];
    var phase: nat := phaseMin;
    ScanPhasesAbove(phaseMin, phaseMax, phaseStep);
    while phase <= phaseMax
      invariant ScanPhases(phaseMin, phaseMax, phaseStep) == done + ScanPhases(phase, phaseMax, phaseStep)
      invariant forall q :: q in done ==> q < phase
      invariant results == Table(log, c.vfatsPerOh) && LogChecked(log, c.vfatsPerOh)
      invariant forall p :: Reps(log, p) == if p in done then nResets else 0
      invariant LogRead(log, hw.table, old(hw.mem).Keys)
      invariant hw.mem.Keys == old(hw.mem).Keys
      invariant nResets == 0 ==> log == []
      invariant log != [] ==> log[|log| - 1].mem == hw.mem
      decreases phaseMax + 1 - phase
    {
      var sr;
      sr, log := ScanNext(hw, c, e, ohN, nResets, phase, nReads, results, log, done, old(hw.mem).Keys);
      if sr.Err? {
        return Err(sr.error), log;
      }
      results := sr.value;
      assert ScanPhases(phase, phaseMax, phaseStep) == [phase] + ScanPhases(phase + phaseStep, phaseMax, phaseStep);
      done := done + [phase];
      phase := phase + phaseStep;
    }
    assert done == ScanPhases(phaseMin, phaseMax, phaseStep);
    r := Ok(results);
  }
}
