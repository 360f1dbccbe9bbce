/** The parallel s-bit rate scan of src/calibration_routines.cpp
  * (`sbitRateScanParallel`): the trigger-rate addresses and their read-out, the
  * single-channel masks of the selected links, the DAC loop and the counter
  * settings saved and restored around it. */
module ParallelScans {

  import opened Wrappers
  import opened Bits
  import opened Packing
  import opened Text
  import opened Registers
  import opened HwConstants
  import opened Selection
  import opened CalibrationRuns
  import Vfat3
  import Optohybrid
  import Calibration
  import Amc
  import ErrorCounters

  // ---------------------------------------------------------------------------
  // sbitRateScanParallel: addresses and readout

  function SbitCountName(ohN: nat, v: nat): string
  {
    "GEM_AMC.OH.OH" + Dec(ohN) + ".FPGA.TRIG.CNT.VFAT" + Dec(v) + "_SBITS"
  }

  /** The rate registers of link ohN are all in the table. */
  predicate RateNamed(table: map<string, Descriptor>, n: nat, ohN: nat)
  {
    TrigRateName(ohN) in table && forall v :: 0 <= v < n ==> SbitCountName(ohN, v) in table
  }

  /** The rate addresses of one link: its n VFAT s-bit counters, then its trigger rate. */
  function RateRow(table: map<string, Descriptor>, n: nat, ohN: nat): (row: seq<Word>)
    requires RateNamed(table, n, ohN)
    ensures |row| == n + 1 && row[n] == table[TrigRateName(ohN)].address
    ensures forall v :: 0 <= v < n ==> row[v] == table[SbitCountName(ohN, v)].address
  {
    seq(n, v requires 0 <= v < n => table[SbitCountName(ohN, v)].address) + [table[TrigRateName(ohN)].address]
  }

  predicate RatesNamed(table: map<string, Descriptor>, c: Consts, ohMask: Word)
  {
    forall oh :: 0 <= oh < c.ohPerAmc && Bit(ohMask, oh) ==> RateNamed(table, c.vfatsPerOh, oh)
  }

  /** `ohTrigRateAddr`: a row of addresses for each selected link, none for the others. */
  function RateRows(table: map<string, Descriptor>, c: Consts, ohMask: Word): (rows: seq<seq<Word>>)
    requires RatesNamed(table, c, ohMask)
    ensures |rows| == c.ohPerAmc
    ensures forall oh :: 0 <= oh < c.ohPerAmc ==> rows[oh] == if Bit(ohMask, oh) then RateRow(table, c.vfatsPerOh, oh) else []
  {
    seq(c.ohPerAmc, oh requires 0 <= oh < c.ohPerAmc => if Bit(ohMask, oh) then RateRow(table, c.vfatsPerOh, oh) else [])
  }

  /** One link's rate addresses: `getAddress` of the trigger rate, then of each VFAT's
    * s-bit counter. */
  method RateAddresses(hw: Hardware, c: Consts, ohN: nat) returns (r: Result<seq<Word>>)
    ensures r.Ok? <==> RateNamed(hw.table, c.vfatsPerOh, ohN)
    ensures r.Ok? ==> r.value == RateRow(hw.table, c.vfatsPerOh, ohN)
    ensures r.Err? ==> r.error == RuntimeError(NotFound)
  {
    var t := hw.GetAddress(TrigRateName(ohN));
    if t.Err? {
      return Err(t.error);
    }
    var row: seq<Word> := [];
    var v := 0;
    while v < c.vfatsPerOh
      invariant v <= c.vfatsPerOh && |row| == v
      invariant forall u :: 0 <= u < v ==> SbitCountName(ohN, u) in hw.table && row[u] == hw.table[SbitCountName(ohN, u)].address
    {
      var a := hw.GetAddress(SbitCountName(ohN, v));
      if a.Err? {
        return Err(a.error);
      }
      row := row + [a.value];
      v := v + 1;
    }
    r := Ok(row + [t.value]);
  }

  /** The address loop of `sbitRateScanParallel`, link by link. */
  method AllRateAddresses(hw: Hardware, c: Consts, ohMask: Word) returns (r: Result<seq<seq<Word>>>)
    ensures r.Ok? <==> RatesNamed(hw.table, c, ohMask)
    ensures r.Ok? ==> r.value == RateRows(hw.table, c, ohMask)
    ensures r.Err? ==> r.error == RuntimeError(NotFound)
  {
    var rows: seq<seq<Word>> := [];
    var oh := 0;
    while oh < c.ohPerAmc
      invariant oh <= c.ohPerAmc && |rows| == oh
      invariant forall u :: 0 <= u < oh && Bit(ohMask, u) ==> RateNamed(hw.table, c.vfatsPerOh, u)
      invariant forall u :: 0 <= u < oh ==> rows[u] == if Bit(ohMask, u) then RateRow(hw.table, c.vfatsPerOh, u) else []
    {
      var row: seq<Word> := [];
      if Bit(ohMask, oh) {
        var x := RateAddresses(hw, c, oh);
        if x.Err? {
          return Err(x.error);
        }
        row := x.value;
      }
      rows := rows + [row];
      oh := oh + 1;
    }
    r := Ok(rows);
  }

  /** The addresses one link's readout needs are in memory. */
  predicate LinkMapped(mem: map<Word, Word>, n: nat, mask: Word, row: seq<Word>)
  {
    |row| == n + 1 && UsedMapped(mem, mask, row[..n]) && row[n] in mem
  }

  /** One link's words at one DAC value: the s-bit counter of each used VFAT, 0 for
    * each masked one, then the link's trigger rate. */
  function LinkWords(mem: map<Word, Word>, n: nat, mask: Word, row: seq<Word>): (ws: seq<Word>)
    requires LinkMapped(mem, n, mask, row)
    ensures |ws| == n + 1 && ws[n] == mem[row[n]]
    ensures forall v :: 0 <= v < n ==> ws[v] == ScanWord(mem, mask, row[..n], v)
  {
    seq(n, v requires 0 <= v < n => ScanWord(mem, mask, row[..n], v)) + [mem[row[n]]]
  }

  predicate LinksMapped(mem: map<Word, Word>, n: nat, ohMask: Word, masks: seq<Word>, rows: seq<seq<Word>>, k: nat)
  {
    k <= |masks| && k <= |rows| &&
    forall oh :: 0 <= oh < k && Bit(ohMask, oh) ==> LinkMapped(mem, n, masks[oh], rows[oh])
  }

  /** `outData[dacVal]`: the words of every selected link among the first k, in link order. */
  function ParallelWords(mem: map<Word, Word>, n: nat, ohMask: Word, masks: seq<Word>, rows: seq<seq<Word>>, k: nat): seq<Word>
    requires LinksMapped(mem, n, ohMask, masks, rows, k)
    decreases k
  {
    if k == 0 then []
    else
      var tail := if Bit(ohMask, k - 1) then LinkWords(mem, n, masks[k - 1], rows[k - 1]) else [];
      ParallelWords(mem, n, ohMask, masks, rows, k - 1) + tail
  }

  /** Each selected link contributes n + 1 words. */
  lemma {:induction false} ParallelWordsLength(mem: map<Word, Word>, n: nat, ohMask: Word, masks: seq<Word>, rows: seq<seq<Word>>, k: nat)
    requires LinksMapped(mem, n, ohMask, masks, rows, k)
    ensures |ParallelWords(mem, n, ohMask, masks, rows, k)| == (n + 1) * CountBits(ohMask, k)
    decreases k
  {
    if k > 0 {
      ParallelWordsLength(mem, n, ohMask, masks, rows, k - 1);
      var b := CountBits(ohMask, k - 1);
      MulSucc(n + 1, b);
    }
  }

  lemma MulSucc(a: nat, b: nat)
    ensures a * (b + 1) == a * b + a
  {
  }

  /** The readout of one link at one DAC value. */
  method LinkReadout(hw: Hardware, n: nat, mask: Word, row: seq<Word>) returns (r: Result<seq<Word>>)
    requires |row| == n + 1
    modifies hw`faults, hw`trace
    ensures r.Ok? ==> LinkMapped(hw.mem, n, mask, row) && r.value == LinkWords(hw.mem, n, mask, row)
    ensures r.Err? ==> r.error.RuntimeError?
    ensures Effects(hw.trace) == Effects(old(hw.trace))
  {
    var ws := ScanReadout(hw, mask, row[..n]);
    if ws.Err? {
      return Err(ws.error);
    }
    var t := hw.GetRaw(row[n]);
    if t.Err? {
      return Err(t.error);
    }
    r := Ok(ws.value + [t.value]);
  }

  /** The readout loop of `sbitRateScanParallel` at one DAC value. */
  method ParallelReadout(hw: Hardware, c: Consts, ohMask: Word, masks: seq<Word>, rows: seq<seq<Word>>) returns (r: Result<seq<Word>>)
    requires |masks| == c.ohPerAmc && |rows| == c.ohPerAmc
    requires forall oh :: 0 <= oh < c.ohPerAmc && Bit(ohMask, oh) ==> |rows[oh]| == c.vfatsPerOh + 1
    modifies hw`faults, hw`trace
    ensures r.Ok? ==> ScanRow(hw.mem, c, ohMask, masks, rows, r.value)
    ensures r.Err? ==> r.error.RuntimeError?
    ensures Effects(hw.trace) == Effects(old(hw.trace))
  {
    var out: seq<Word> := [];
    var oh := 0;
    while oh < c.ohPerAmc
      invariant oh <= c.ohPerAmc
      invariant LinksMapped(hw.mem, c.vfatsPerOh, ohMask, masks, rows, oh)
      invariant Effects(hw.trace) == Effects(old(hw.trace))
      invariant out == ParallelWords(hw.mem, c.vfatsPerOh, ohMask, masks, rows, oh)
    {
      if Bit(ohMask, oh) {
        var ws := LinkReadout(hw, c.vfatsPerOh, masks[oh], rows[oh]);
        if ws.Err? {
          return Err(ws.error);
        }
        out := out + ws.value;
      }
      oh := oh + 1;
    }
    ParallelWordsLength(hw.mem, c.vfatsPerOh, ohMask, masks, rows, c.ohPerAmc);
    r := Ok(out);
  }

  /** w is `outData[dacVal]` read from mem: every selected link's words, n + 1 of them per link. */
  predicate ScanRow(mem: map<Word, Word>, c: Consts, ohMask: Word, masks: seq<Word>, rows: seq<seq<Word>>, w: seq<Word>)
  {
    LinksMapped(mem, c.vfatsPerOh, ohMask, masks, rows, c.ohPerAmc) &&
    w == ParallelWords(mem, c.vfatsPerOh, ohMask, masks, rows, c.ohPerAmc) &&
    |w| == (c.vfatsPerOh + 1) * CountBits(ohMask, c.ohPerAmc)
  }

  // ---------------------------------------------------------------------------
  // sbitRateScanParallel: the s-bit counter settings

  function SbitCntReg(ohN: nat, suffix: string): string
  {
    "GEM_AMC.OH.OH" + Dec(ohN) + ".FPGA.TRIG.CNT.SBIT_CNT_" + suffix
  }

  function PersistReg(ohN: nat): string { SbitCntReg(ohN, "PERSIST") }
  function TimeMaxReg(ohN: nat): string { SbitCntReg(ohN, "TIME_MAX") }

  /** The register the restore writes the saved TIME_MAX to, as written. */
  function MaxRegAsWritten(ohN: nat): string { SbitCntReg(ohN, "MAX") }

  /** The restore's target is not the register the value was saved from. */
  lemma MaxRegIsNotTimeMax(ohN: nat)
    ensures MaxRegAsWritten(ohN) != TimeMaxReg(ohN)
  {
    assert |MaxRegAsWritten(ohN)| + 5 == |TimeMaxReg(ohN)|;
  }

  /** `static_cast<uint32_t>(0x02638e98*waitTime)`: waitTime seconds of 40.079 MHz
    * bunch crossings, modulo 2^32 (exact up to 107 seconds). */
  function TimeMaxValue(waitTime: Word): (t: Word)
    ensures waitTime <= 107 ==> t == 40079000 * waitTime
  {
    (0x02638e98 * waitTime) % WORD
  }

  /** The writes before the scan: counters not persistent, counting window waitTime. */
  function CounterSetup(ohN: nat, waitTime: Word): seq<(string, Word)>
  {
    [(PersistReg(ohN), 0), (TimeMaxReg(ohN), TimeMaxValue(waitTime))]
  }

  /** One selected link of the save loop: `readReg` of PERSIST and TIME_MAX, then the
    * setup writes of `CounterSetup`. */
  method SaveSbitCounters(hw: Hardware, ohN: nat, waitTime: Word) returns (r: Result<(Word, Word)>)
    modifies hw`mem, hw`faults, hw`trace
    ensures hw.mem.Keys == old(hw.mem).Keys
    ensures r.Ok? ==> (Readable(old(hw.mem), hw.table, PersistReg(ohN)) && Readable(old(hw.mem), hw.table, TimeMaxReg(ohN)) &&
      r.value == (RegValue(old(hw.mem), hw.table, PersistReg(ohN)), RegValue(old(hw.mem), hw.table, TimeMaxReg(ohN))) &&
      Performed(old(hw.mem), hw.mem, hw.table, Effects(old(hw.trace)), Effects(hw.trace), CounterSetup(ohN, waitTime)))
    ensures r.Err? ==> r.error.RuntimeError?
  {
    var p := hw.Get(PersistReg(ohN));
    if p.Err? {
      return Err(p.error);
    }
    var t := hw.Get(TimeMaxReg(ohN));
    if t.Err? {
      return Err(t.error);
    }
    var w := hw.WriteRegs(CounterSetup(ohN, waitTime));
    if w.Err? {
      return Err(w.error);
    }
    r := Ok((p.value, t.value));
  }

  /** The restore writes as written: PERSIST, and the saved TIME_MAX to `…SBIT_CNT_MAX`. */
  function CounterRestoreAsWritten(ohN: nat, saved: (Word, Word)): seq<(string, Word)>
  {
    [(PersistReg(ohN), saved.0), (MaxRegAsWritten(ohN), saved.1)]
  }

  /** The restore writes as evidently intended: PERSIST and TIME_MAX. */
  function CounterRestore(ohN: nat, saved: (Word, Word)): seq<(string, Word)>
  {
    [(PersistReg(ohN), saved.0), (TimeMaxReg(ohN), saved.1)]
  }

  /** One selected link of the restore loop as written. */
  method RestoreSbitCountersAsWritten(hw: Hardware, ohN: nat, saved: (Word, Word)) returns (r: Result<()>)
    modifies hw`mem, hw`faults, hw`trace
    ensures hw.mem.Keys == old(hw.mem).Keys
    ensures MaxRegAsWritten(ohN) !in hw.table ==> r.Err?
    ensures r.Ok? ==> Performed(old(hw.mem), hw.mem, hw.table, Effects(old(hw.trace)), Effects(hw.trace), CounterRestoreAsWritten(ohN, saved))
    ensures r.Err? ==> r.error.RuntimeError?
  {
    r := hw.WriteRegs(CounterRestoreAsWritten(ohN, saved));
    if r.Ok? {
      assert CounterRestoreAsWritten(ohN, saved)[1].0 == MaxRegAsWritten(ohN);
    }
  }

  /** One selected link of the restore loop as evidently intended. */
  method RestoreSbitCounters(hw: Hardware, ohN: nat, saved: (Word, Word)) returns (r: Result<()>)
    modifies hw`mem, hw`faults, hw`trace
    ensures hw.mem.Keys == old(hw.mem).Keys
    ensures r.Ok? ==> Performed(old(hw.mem), hw.mem, hw.table, Effects(old(hw.trace)), Effects(hw.trace), CounterRestore(ohN, saved))
    ensures r.Err? ==> r.error.RuntimeError?
  {
    r := hw.WriteRegs(CounterRestore(ohN, saved));
  }

  /** PERSIST and TIME_MAX of link ohN are readable in m0 and mapped to two different
    * addresses. */
  predicate CountersApart(m0: map<Word, Word>, table: map<string, Descriptor>, ohN: nat)
  {
    Readable(m0, table, PersistReg(ohN)) && Readable(m0, table, TimeMaxReg(ohN)) &&
    table[PersistReg(ohN)].address != table[TimeMaxReg(ohN)].address
  }

  /** A field written with the value read from it reads that value back. */
  lemma FieldBack(d: Word, m: Word, x: Word)
    ensures Extract(Insert(d, Extract(x, m), m), m) == Extract(x, m)
  {
    ExtractInsert(d, Extract(x, m), m);
    ExtractFits(x, m);
  }

  /** The corrected restore puts PERSIST and TIME_MAX back as they were saved, whatever
    * the scan left in memory. */
  lemma CounterRoundTrip(m0: map<Word, Word>, m1: map<Word, Word>, table: map<string, Descriptor>, ohN: nat)
    requires CountersApart(m0, table, ohN) && m1.Keys == m0.Keys
    ensures AllMapped(m1.Keys, table, CounterRestore(ohN, (RegValue(m0, table, PersistReg(ohN)), RegValue(m0, table, TimeMaxReg(ohN)))))
    ensures var m2 := WriteAll(m1, table, CounterRestore(ohN, (RegValue(m0, table, PersistReg(ohN)), RegValue(m0, table, TimeMaxReg(ohN)))));
      RegValue(m2, table, PersistReg(ohN)) == RegValue(m0, table, PersistReg(ohN)) &&
      RegValue(m2, table, TimeMaxReg(ohN)) == RegValue(m0, table, TimeMaxReg(ohN))
  {
    var p, t := PersistReg(ohN), TimeMaxReg(ohN);
    var ws := CounterRestore(ohN, (RegValue(m0, table, p), RegValue(m0, table, t)));
    assert ws[0].0 == p && ws[1].0 == t;
    WriteAllReads(m1, table, ws, 0);
    WriteAllReads(m1, table, ws, 1);
    FieldBack(m1[table[p].address], table[p].mask, m0[table[p].address]);
    FieldBack(m1[table[t].address], table[t].mask, m0[table[t].address]);
  }

  /** As written, TIME_MAX does not get its saved value back: when `…SBIT_CNT_MAX` is a
    * register of its own, the restore leaves TIME_MAX with the counting window the
    * setup wrote, whatever it was before. */
  lemma AsWrittenTimeMaxKept(m0: map<Word, Word>, m1: map<Word, Word>, table: map<string, Descriptor>, ohN: nat,
                             waitTime: Word, saved: (Word, Word))
    requires CountersApart(m0, table, ohN) && Mapped(m0.Keys, table, MaxRegAsWritten(ohN))
    requires table[MaxRegAsWritten(ohN)].address != table[TimeMaxReg(ohN)].address
    requires AllMapped(m0.Keys, table, CounterSetup(ohN, waitTime)) && m1 == WriteAll(m0, table, CounterSetup(ohN, waitTime))
    ensures AllMapped(m1.Keys, table, CounterRestoreAsWritten(ohN, saved))
    ensures var d := table[TimeMaxReg(ohN)];
      RegValue(WriteAll(m1, table, CounterRestoreAsWritten(ohN, saved)), table, TimeMaxReg(ohN)) ==
      And(TimeMaxValue(waitTime), Shr(d.mask, Tz(d.mask)))
  {
    var t := TimeMaxReg(ohN);
    var a := table[t].address;
    var setup := CounterSetup(ohN, waitTime);
    var ws := CounterRestoreAsWritten(ohN, saved);
    assert setup[0].0 == PersistReg(ohN) && setup[1].0 == t;
    assert ws[0].0 == PersistReg(ohN) && ws[1].0 == MaxRegAsWritten(ohN);
    WriteAllReads(m0, table, setup, 1);
    WriteAllOutside(m1, table, ws, a);
    ExtractInsert(m0[a], TimeMaxValue(waitTime), table[t].mask);
  }

  // ---------------------------------------------------------------------------
  // sbitRateScanParallel

  /** Every selected link's VFAT mask can be derived. */
  predicate LinksSynced(mem: map<Word, Word>, table: map<string, Descriptor>, c: Consts, ohMask: Word)
  {
    forall oh :: 0 <= oh < c.ohPerAmc && Bit(ohMask, oh) ==> Amc.SyncReadable(mem, table, oh, c.vfatsPerOh)
  }

  /** `vfatmask`: the VFAT mask of each selected link, 0 for the others. */
  function LinkMasks(mem: map<Word, Word>, table: map<string, Descriptor>, c: Consts, ohMask: Word): (ms: seq<Word>)
    requires Valid(c) && LinksSynced(mem, table, c, ohMask)
    ensures |ms| == c.ohPerAmc
    ensures forall oh :: 0 <= oh < c.ohPerAmc ==>
      ms[oh] == if Bit(ohMask, oh) then Amc.VfatMask(mem, table, oh, c.vfatsPerOh) else 0
  {
    seq(c.ohPerAmc, oh requires 0 <= oh < c.ohPerAmc => LinkMask(mem, table, c, ohMask, oh))
  }

  function LinkMask(mem: map<Word, Word>, table: map<string, Descriptor>, c: Consts, ohMask: Word, oh: nat): Word
    requires Valid(c) && LinksSynced(mem, table, c, ohMask) && oh < c.ohPerAmc
  {
    if Bit(ohMask, oh) then
      Amc.VfatMaskBits(mem, table, oh, c.vfatsPerOh);
      Amc.VfatMask(mem, table, oh, c.vfatsPerOh)
    else 0
  }

  /** The setup writes of the save loop, link by link. */
  function SetupPlan(ohMask: Word, k: nat, waitTime: Word): seq<(string, Word)>
    decreases k
  {
    if k == 0 then []
    else SetupPlan(ohMask, k - 1, waitTime) + (if Bit(ohMask, k - 1) then CounterSetup(k - 1, waitTime) else [])
  }

  /** The writes of the restore loop as written, link by link. */
  function RestorePlanAsWritten(ohMask: Word, k: nat, saved: map<nat, (Word, Word)>): seq<(string, Word)>
    requires forall oh :: 0 <= oh < k && Bit(ohMask, oh) ==> oh in saved
    decreases k
  {
    if k == 0 then []
    else
      var tail := if Bit(ohMask, k - 1) then CounterRestoreAsWritten(k - 1, saved[k - 1]) else [];
      RestorePlanAsWritten(ohMask, k - 1, saved) + tail
  }

  /** x holds link u's PERSIST and TIME_MAX settings as they read when the save loop
    * reaches u, after the setup writes of the links before it. */
  predicate SavedAt(m0: map<Word, Word>, table: map<string, Descriptor>, ohMask: Word, waitTime: Word, u: nat, x: (Word, Word))
  {
    AllMapped(m0.Keys, table, SetupPlan(ohMask, u, waitTime)) &&
    var m := WriteAll(m0, table, SetupPlan(ohMask, u, waitTime));
    Readable(m, table, PersistReg(u)) && Readable(m, table, TimeMaxReg(u)) &&
    x == (RegValue(m, table, PersistReg(u)), RegValue(m, table, TimeMaxReg(u)))
  }

  /** The save loop: each selected link's settings saved and its setup written. */
  method SaveAllSbitCounters(hw: Hardware, c: Consts, ohMask: Word, waitTime: Word) returns (r: Result<map<nat, (Word, Word)>>)
    modifies hw`mem, hw`faults, hw`trace
    ensures hw.mem.Keys == old(hw.mem).Keys
    ensures r.Ok? ==> forall oh: nat :: oh in r.value <==> oh < c.ohPerAmc && Bit(ohMask, oh)
    ensures r.Ok? ==> forall oh: nat :: oh in r.value ==> SavedAt(old(hw.mem), hw.table, ohMask, waitTime, oh, r.value[oh])
    ensures r.Ok? ==> Performed(old(hw.mem), hw.mem, hw.table, Effects(old(hw.trace)), Effects(hw.trace), SetupPlan(ohMask, c.ohPerAmc, waitTime))
    ensures r.Err? ==> r.error.RuntimeError?
  {
    ghost var m0 := hw.mem;
    ghost var e0 := Effects(hw.trace);
    PerformedNothing(m0, hw.table, e0);
    var saved: map<nat, (Word, Word)> := map[];
    var oh := 0;
    while oh < c.ohPerAmc
      invariant oh <= c.ohPerAmc && hw.mem.Keys == m0.Keys
      invariant forall u: nat :: u in saved <==> u < oh && Bit(ohMask, u)
      invariant forall u: nat :: u in saved ==> SavedAt(m0, hw.table, ohMask, waitTime, u, saved[u])
      invariant Performed(m0, hw.mem, hw.table, e0, Effects(hw.trace), SetupPlan(ohMask, oh, waitTime))
    {
      var x := SaveTurn(hw, ohMask, oh, waitTime, m0, e0);
      if x.Err? {
        return Err(x.error);
      }
      if Bit(ohMask, oh) {
        saved := saved[oh := x.value];
      }
      oh := oh + 1;
    }
    r := Ok(saved);
  }

  /** Link oh of the save loop: `SaveSbitCounters` when it is selected, nothing otherwise. */
  method SaveTurn(hw: Hardware, ohMask: Word, oh: nat, waitTime: Word, ghost m0: map<Word, Word>, ghost e0: seq<Event>)
    returns (r: Result<(Word, Word)>)
    requires Performed(m0, hw.mem, hw.table, e0, Effects(hw.trace), SetupPlan(ohMask, oh, waitTime))
    modifies hw`mem, hw`faults, hw`trace
    ensures hw.mem.Keys == old(hw.mem).Keys
    ensures r.Ok? ==> Performed(m0, hw.mem, hw.table, e0, Effects(hw.trace), SetupPlan(ohMask, oh + 1, waitTime))
    ensures r.Ok? && Bit(ohMask, oh) ==> SavedAt(m0, hw.table, ohMask, waitTime, oh, r.value)
    ensures r.Err? ==> r.error.RuntimeError?
  {
    ghost var m1 := hw.mem;
    ghost var e1 := Effects(hw.trace);
    var plan := SetupPlan(ohMask, oh, waitTime);
    if Bit(ohMask, oh) {
      r := SaveSbitCounters(hw, oh, waitTime);
      if r.Ok? {
        PerformedStep(m0, m1, hw.mem, hw.table, e0, e1, Effects(hw.trace), plan, CounterSetup(oh, waitTime));
      }
    } else {
      PerformedNothing(m1, hw.table, e1);
      PerformedStep(m0, m1, m1, hw.table, e0, e1, e1, plan, []);
      r := Ok((0, 0));
    }
  }

  /** The restore loop as written. */
  method RestoreAllSbitCountersAsWritten(hw: Hardware, c: Consts, ohMask: Word, saved: map<nat, (Word, Word)>) returns (r: Result<()>)
    requires forall oh :: 0 <= oh < c.ohPerAmc && Bit(ohMask, oh) ==> oh in saved
    modifies hw`mem, hw`faults, hw`trace
    ensures hw.mem.Keys == old(hw.mem).Keys
    ensures r.Ok? ==> Performed(old(hw.mem), hw.mem, hw.table, Effects(old(hw.trace)), Effects(hw.trace),
      RestorePlanAsWritten(ohMask, c.ohPerAmc, saved))
    ensures r.Err? ==> r.error.RuntimeError?
  {
    ghost var m0 := hw.mem;
    ghost var e0 := Effects(hw.trace);
    PerformedNothing(m0, hw.table, e0);
    var oh := 0;
    while oh < c.ohPerAmc
      invariant oh <= c.ohPerAmc && hw.mem.Keys == m0.Keys
      invariant Performed(m0, hw.mem, hw.table, e0, Effects(hw.trace), RestorePlanAsWritten(ohMask, oh, saved))
    {
      r := RestoreTurn(hw, ohMask, oh, saved, m0, e0);
      if r.Err? {
        return;
      }
      oh := oh + 1;
    }
    r := Ok(());
  }

  /** Link oh of the restore loop as written. */
  method RestoreTurn(hw: Hardware, ohMask: Word, oh: nat, saved: map<nat, (Word, Word)>, ghost m0: map<Word, Word>, ghost e0: seq<Event>)
    returns (r: Result<()>)
    requires forall u :: 0 <= u <= oh && Bit(ohMask, u) ==> u in saved
    requires Performed(m0, hw.mem, hw.table, e0, Effects(hw.trace), RestorePlanAsWritten(ohMask, oh, saved))
    modifies hw`mem, hw`faults, hw`trace
    ensures hw.mem.Keys == old(hw.mem).Keys
    ensures r.Ok? ==> Performed(m0, hw.mem, hw.table, e0, Effects(hw.trace), RestorePlanAsWritten(ohMask, oh + 1, saved))
    ensures r.Err? ==> r.error.RuntimeError?
  {
    ghost var m1 := hw.mem;
    ghost var e1 := Effects(hw.trace);
    var plan := RestorePlanAsWritten(ohMask, oh, saved);
    if Bit(ohMask, oh) {
      r := RestoreSbitCountersAsWritten(hw, oh, saved[oh]);
      if r.Ok? {
        PerformedStep(m0, m1, hw.mem, hw.table, e0, e1, Effects(hw.trace), plan, CounterRestoreAsWritten(oh, saved[oh]));
      }
    } else {
      PerformedNothing(m1, hw.table, e1);
      PerformedStep(m0, m1, m1, hw.table, e0, e1, e1, plan, []);
      r := Ok(());
    }
  }

  /** The writes before the DAC loop: slow-control-only mode off, then the counter setup. */
  function ScanWrites(ohMask: Word, k: nat, waitTime: Word): seq<(string, Word)>
  {
    [(Amc.SC_ONLY_MODE, 0)] + SetupPlan(ohMask, k, waitTime)
  }

  /** The memory the DAC loop reads: m0 after the writes before it. */
  predicate ScanSetup(m0: map<Word, Word>, m1: map<Word, Word>, table: map<string, Descriptor>, ohMask: Word, k: nat, waitTime: Word)
  {
    AllMapped(m0.Keys, table, ScanWrites(ohMask, k, waitTime)) && m1 == WriteAll(m0, table, ScanWrites(ohMask, k, waitTime))
  }

  /** The writes before the DAC loop, with the counter settings they save. */
  method ScanPrepare(hw: Hardware, c: Consts, ohMask: Word, waitTime: Word) returns (r: Result<map<nat, (Word, Word)>>)
    modifies hw`mem, hw`faults, hw`trace
    ensures hw.mem.Keys == old(hw.mem).Keys
    ensures r.Ok? ==> forall oh: nat :: oh in r.value <==> oh < c.ohPerAmc && Bit(ohMask, oh)
    ensures r.Ok? ==> Performed(old(hw.mem), hw.mem, hw.table, Effects(old(hw.trace)), Effects(hw.trace), ScanWrites(ohMask, c.ohPerAmc, waitTime))
    ensures r.Err? ==> r.error.RuntimeError?
  {
    ghost var m0 := hw.mem;
    ghost var e0 := Effects(hw.trace);
    var w := hw.Set(Amc.SC_ONLY_MODE, 0);
    if w.Err? {
      return Err(w.error);
    }
    WriteOne(m0, hw.table, Amc.SC_ONLY_MODE, 0);
    ghost var m1 := hw.mem;
    ghost var e1 := Effects(hw.trace);
    r := SaveAllSbitCounters(hw, c, ohMask, waitTime);
    if r.Ok? {
      PerformedStep(m0, m1, hw.mem, hw.table, e0, e1, Effects(hw.trace), [(Amc.SC_ONLY_MODE, 0)], SetupPlan(ohMask, c.ohPerAmc, waitTime));
    }
  }

  /** The restore loop as written, after the writes plan. */
  method ScanRestore(hw: Hardware, c: Consts, ohMask: Word, saved: map<nat, (Word, Word)>,
                     ghost m0: map<Word, Word>, ghost e0: seq<Event>, ghost plan: seq<(string, Word)>) returns (r: Result<()>)
    requires forall oh: nat :: oh in saved <==> oh < c.ohPerAmc && Bit(ohMask, oh)
    requires Performed(m0, hw.mem, hw.table, e0, Effects(hw.trace), plan)
    modifies hw`mem, hw`faults, hw`trace
    ensures hw.mem.Keys == old(hw.mem).Keys
    ensures r.Ok? ==> Performed(m0, hw.mem, hw.table, e0, Effects(hw.trace), plan + RestorePlanAsWritten(ohMask, c.ohPerAmc, saved))
    ensures r.Err? ==> r.error.RuntimeError?
  {
    ghost var m1 := hw.mem;
    ghost var e1 := Effects(hw.trace);
    r := RestoreAllSbitCountersAsWritten(hw, c, ohMask, saved);
    if r.Ok? {
      PerformedStep(m0, m1, hw.mem, hw.table, e0, e1, Effects(hw.trace), plan, RestorePlanAsWritten(ohMask, c.ohPerAmc, saved));
    }
  }

  /** The part of `sbitRateScanParallel` after the rate addresses: slow-control-only mode
    * off and the counter setup (leaving scanMem), the DAC loop, then the counter restore
    * as written. */
  method ParallelRun(hw: Hardware, c: Consts, ohMask: Word, masks: seq<Word>, rows: seq<seq<Word>>, scanReg: string,
                     dacMin: Word, dacMax: Word, dacStep: Word, waitTime: Word)
    returns (r: Result<map<nat, seq<Word>>>, saved: map<nat, (Word, Word)>, ghost scanMem: map<Word, Word>)
    requires |masks| == c.ohPerAmc && |rows| == c.ohPerAmc
    requires forall oh :: 0 <= oh < c.ohPerAmc && Bit(ohMask, oh) ==> |rows[oh]| == c.vfatsPerOh + 1
    requires dacStep > 0 && dacMax + dacStep < WORD
    modifies hw`mem, hw`faults, hw`trace
    ensures hw.mem.Keys == old(hw.mem).Keys
    ensures r.Ok? ==> ScanSetup(old(hw.mem), scanMem, hw.table, ohMask, c.ohPerAmc, waitTime)
    ensures r.Ok? ==> forall oh: nat :: oh in saved <==> oh < c.ohPerAmc && Bit(ohMask, oh)
    ensures r.Ok? ==> ParRead(r.value, DacValues(dacMin, dacMax, dacStep), scanMem, hw.table, c, ohMask, masks, rows, scanReg)
    ensures r.Ok? ==> Performed(old(hw.mem), hw.mem, hw.table, Effects(old(hw.trace)), Effects(hw.trace),
      ScanWrites(ohMask, c.ohPerAmc, waitTime) +
      (ParPlan(c, ohMask, masks, scanReg, DacValues(dacMin, dacMax, dacStep)) + RestorePlanAsWritten(ohMask, c.ohPerAmc, saved)))
    ensures r.Err? ==> r.error.RuntimeError?
  {
    scanMem := hw.mem;
    ghost var m0, e0 := hw.mem, Effects(hw.trace);
    var sv := ScanPrepare(hw, c, ohMask, waitTime);
    if sv.Err? {
      return Err(sv.error), map[], scanMem;
    }
    saved := sv.value;
    scanMem := hw.mem;
    ghost var e1 := Effects(hw.trace);
    var out := ParallelScan(hw, c, ohMask, masks, rows, scanReg, dacMin, dacMax, dacStep);
    if out.Err? {
      return Err(out.error), saved, scanMem;
    }
    ghost var scan := ParPlan(c, ohMask, masks, scanReg, DacValues(dacMin, dacMax, dacStep));
    var rs := ScanRestore(hw, c, ohMask, saved, scanMem, e1, scan);
    if rs.Err? {
      return Err(rs.error), saved, scanMem;
    }
    PerformedStep(m0, scanMem, hw.mem, hw.table, e0, e1, Effects(hw.trace), ScanWrites(ohMask, c.ohPerAmc, waitTime),
                  scan + RestorePlanAsWritten(ohMask, c.ohPerAmc, saved));
    r := Ok(out.value);
  }

  // ---------------------------------------------------------------------------
  // sbitRateScanParallel: VFAT masks and single-channel masks

  /** The writes `setSingleChanMask` makes for each of the n VFATs of link oh. */
  function ChanBlocks(oh: nat, ch: nat, n: nat): (bs: seq<seq<(string, Word)>>)
    ensures |bs| == n && forall v :: 0 <= v < n ==> bs[v] == SingleChanPlan(oh, v, ch)
  {
    seq(n, v requires 0 <= v < n => SingleChanPlan(oh, v, ch))
  }

  /** The single-channel mask writes for the used VFATs below u of link oh; none when
    * channel 128 (all channels) is asked for. */
  function LinkChanPlan(oh: nat, mask: Word, ch: nat, n: nat, u: nat): seq<(string, Word)>
    requires u <= n
  {
    if ch == 128 then [] else UsedPlan(ChanBlocks(oh, ch, n), mask, u)
  }

  /** The single-channel mask writes of the selected links below k, link by link. */
  function ChanLinksPlan(ohMask: Word, masks: seq<Word>, ch: nat, n: nat, k: nat): seq<(string, Word)>
    requires k <= |masks|
    decreases k
  {
    if k == 0 then []
    else ChanLinksPlan(ohMask, masks, ch, n, k - 1) + (if Bit(ohMask, k - 1) then LinkChanPlan(k - 1, masks[k - 1], ch, n, n) else [])
  }

  /** The writes below link k depend only on the masks of the links below k. */
  lemma {:induction false} ChanLinksPlanPrefix(ohMask: Word, masks: seq<Word>, more: seq<Word>, ch: nat, n: nat, k: nat)
    requires k <= |masks|
    ensures ChanLinksPlan(ohMask, masks + more, ch, n, k) == ChanLinksPlan(ohMask, masks, ch, n, k)
    decreases k
  {
    if k > 0 {
      ChanLinksPlanPrefix(ohMask, masks, more, ch, n, k - 1);
      assert (masks + more)[k - 1] == masks[k - 1];
    }
  }

  /** The single-channel mask writes made before VFAT v of link oh is reached. */
  function ChanPrefix(ohMask: Word, masks: seq<Word>, ch: nat, n: nat, oh: nat, v: nat): seq<(string, Word)>
    requires oh < |masks| && v <= n
  {
    ChanLinksPlan(ohMask, masks, ch, n, oh) + LinkChanPlan(oh, masks[oh], ch, n, v)
  }

  /** `vfatmask[oh]` as the first loop reads it: `getOHVFATMask` of a selected link, in
    * the memory the single-channel masks of the links before it leave; 0 otherwise. */
  predicate MaskSeen(m0: map<Word, Word>, table: map<string, Descriptor>, c: Consts, ohMask: Word, ch: nat, masks: seq<Word>, oh: nat)
    requires oh < |masks|
  {
    var plan := ChanLinksPlan(ohMask, masks, ch, c.vfatsPerOh, oh);
    AllMapped(m0.Keys, table, plan) &&
    (Bit(ohMask, oh) ==> Amc.SyncReadable(RawWriteAll(m0, table, plan), table, oh, c.vfatsPerOh) &&
                         masks[oh] == Amc.VfatMask(RawWriteAll(m0, table, plan), table, oh, c.vfatsPerOh)) &&
    (!Bit(ohMask, oh) ==> masks[oh] == 0)
  }

  /** VFAT p.1 of link p.0 gets a single-channel mask: a channel other than 128 was asked
    * for, the link is selected and the VFAT is not masked. */
  predicate ChanMasked(c: Consts, ohMask: Word, masks: seq<Word>, ch: nat, p: (nat, nat))
  {
    ch != 128 && p.0 < |masks| && p.1 < c.vfatsPerOh && Bit(ohMask, p.0) && Vfat3.Used(masks[p.0], p.1)
  }

  /** p comes before VFAT u of link k in the loop order. */
  predicate Before(p: (nat, nat), k: nat, u: nat)
  {
    p.0 < k || (p.0 == k && p.1 < u)
  }

  /** `origVFATmasks[p.0][p.1]`: what `setSingleChanMask` as written saves for the VFAT,
    * each channel register's address with the `.MASK` field it held in the memory the
    * writes before it leave (when the VFAT's channel registers have distinct addresses). */
  ghost predicate ChanSaved(x: map<Word, Word>, m0: map<Word, Word>, table: map<string, Descriptor>,
                            c: Consts, ohMask: Word, masks: seq<Word>, ch: nat, p: (nat, nat))
  {
    p.0 < |masks| && p.1 < c.vfatsPerOh &&
    var plan := ChanPrefix(ohMask, masks, ch, c.vfatsPerOh, p.0, p.1);
    AllMapped(m0.Keys, table, plan) && MasksMapped(m0.Keys, table, p.0, p.1, 128) &&
    (MasksDistinct(table, p.0, p.1) ==>
      MasksReadable(RawWriteAll(m0, table, plan), table, p.0, p.1, 128) &&
      x == SavedFields(RawWriteAll(m0, table, plan), table, p.0, p.1, 128))
  }

  /** The VFATs before VFAT u of link k that get a single-channel mask. */
  function ChanKeys(c: Consts, ohMask: Word, masks: seq<Word>, ch: nat, k: nat, u: nat): (ks: set<(nat, nat)>)
    ensures forall p :: p in ks <==> ChanMasked(c, ohMask, masks, ch, p) && Before(p, k, u)
  {
    set oh: nat, v: nat | oh <= k && v < c.vfatsPerOh && ChanMasked(c, ohMask, masks, ch, (oh, v)) && Before((oh, v), k, u) :: (oh, v)
  }

  /** The saved channel masks of all VFATs before VFAT u of link k. */
  ghost predicate ChansSaved(saved: map<(nat, nat), map<Word, Word>>, m0: map<Word, Word>, table: map<string, Descriptor>,
                             c: Consts, ohMask: Word, masks: seq<Word>, ch: nat, k: nat, u: nat)
  {
    saved.Keys == ChanKeys(c, ohMask, masks, ch, k, u) &&
    (forall p :: p in saved ==> ChanSaved(saved[p], m0, table, c, ohMask, masks, ch, p))
  }

  /** Appending link k's mask keeps what is known about the links before it. */
  lemma MasksGrow(m0: map<Word, Word>, table: map<string, Descriptor>, c: Consts, ohMask: Word, ch: nat, masks: seq<Word>,
                  m: Word, saved: map<(nat, nat), map<Word, Word>>)
    requires forall u :: 0 <= u < |masks| ==> MaskSeen(m0, table, c, ohMask, ch, masks, u)
    requires ChansSaved(saved, m0, table, c, ohMask, masks, ch, |masks|, 0)
    ensures ChanLinksPlan(ohMask, masks + [m], ch, c.vfatsPerOh, |masks|) == ChanLinksPlan(ohMask, masks, ch, c.vfatsPerOh, |masks|)
    ensures forall u :: 0 <= u < |masks| ==> MaskSeen(m0, table, c, ohMask, ch, masks + [m], u)
    ensures ChansSaved(saved, m0, table, c, ohMask, masks + [m], ch, |masks|, 0)
  {
    var n := c.vfatsPerOh;
    var masks1 := masks + [m];
    forall u | 0 <= u <= |masks|
      ensures ChanLinksPlan(ohMask, masks1, ch, n, u) == ChanLinksPlan(ohMask, masks, ch, n, u)
    {
      ChanLinksPlanPrefix(ohMask, masks, [m], ch, n, u);
    }
    forall u | 0 <= u < |masks|
      ensures MaskSeen(m0, table, c, ohMask, ch, masks1, u)
    {
      assert masks1[u] == masks[u];
      assert MaskSeen(m0, table, c, ohMask, ch, masks, u);
    }
    forall p | p in saved
      ensures ChanSaved(saved[p], m0, table, c, ohMask, masks1, ch, p)
    {
      assert ChanSaved(saved[p], m0, table, c, ohMask, masks, ch, p);
      assert masks1[p.0] == masks[p.0];
      assert ChanPrefix(ohMask, masks1, ch, n, p.0, p.1) == ChanPrefix(ohMask, masks, ch, n, p.0, p.1);
    }
    forall p: (nat, nat) | Before(p, |masks|, 0)
      ensures ChanMasked(c, ohMask, masks1, ch, p) == ChanMasked(c, ohMask, masks, ch, p)
    {
      assert masks1[p.0] == masks[p.0];
    }
  }

  /** The channel masks of VFAT v of link k saved: what was saved before stays, and v is added. */
  lemma ChansSavedAdd(saved: map<(nat, nat), map<Word, Word>>, m0: map<Word, Word>, table: map<string, Descriptor>,
                      c: Consts, ohMask: Word, masks: seq<Word>, ch: nat, k: nat, v: nat, x: map<Word, Word>)
    requires ChansSaved(saved, m0, table, c, ohMask, masks, ch, k, v)
    requires ChanMasked(c, ohMask, masks, ch, (k, v))
    requires ChanSaved(x, m0, table, c, ohMask, masks, ch, (k, v))
    ensures ChansSaved(saved[(k, v) := x], m0, table, c, ohMask, masks, ch, k, v + 1)
  {
    var s1 := saved[(k, v) := x];
    ChanKeysAdd(c, ohMask, masks, ch, k, v);
    assert s1.Keys == saved.Keys + {(k, v)};
    forall p | p in s1
      ensures ChanSaved(s1[p], m0, table, c, ohMask, masks, ch, p)
    {
      if p != (k, v) {
        assert s1[p] == saved[p];
      }
    }
  }

  /** One more VFAT that gets a single-channel mask. */
  lemma ChanKeysAdd(c: Consts, ohMask: Word, masks: seq<Word>, ch: nat, k: nat, v: nat)
    requires ChanMasked(c, ohMask, masks, ch, (k, v))
    ensures ChanKeys(c, ohMask, masks, ch, k, v + 1) == ChanKeys(c, ohMask, masks, ch, k, v) + {(k, v)}
  {
  }

  /** VFAT v of link k skipped: nothing saved for it. */
  lemma ChansSavedSkip(saved: map<(nat, nat), map<Word, Word>>, m0: map<Word, Word>, table: map<string, Descriptor>,
                       c: Consts, ohMask: Word, masks: seq<Word>, ch: nat, k: nat, v: nat)
    requires ChansSaved(saved, m0, table, c, ohMask, masks, ch, k, v)
    requires !ChanMasked(c, ohMask, masks, ch, (k, v))
    ensures ChansSaved(saved, m0, table, c, ohMask, masks, ch, k, v + 1)
  {
  }

  /** After the last VFAT of link k, the next link. */
  lemma ChansSavedNext(saved: map<(nat, nat), map<Word, Word>>, m0: map<Word, Word>, table: map<string, Descriptor>,
                       c: Consts, ohMask: Word, masks: seq<Word>, ch: nat, k: nat)
    requires ChansSaved(saved, m0, table, c, ohMask, masks, ch, k, c.vfatsPerOh)
    ensures ChansSaved(saved, m0, table, c, ohMask, masks, ch, k + 1, 0)
  {
  }

  /** Link k not selected, or all channels asked for: nothing saved for it. */
  lemma ChansSavedNone(saved: map<(nat, nat), map<Word, Word>>, m0: map<Word, Word>, table: map<string, Descriptor>,
                       c: Consts, ohMask: Word, masks: seq<Word>, ch: nat, k: nat)
    requires ChansSaved(saved, m0, table, c, ohMask, masks, ch, k, 0)
    requires !Bit(ohMask, k) || ch == 128
    ensures ChansSaved(saved, m0, table, c, ohMask, masks, ch, k + 1, 0)
  {
  }

  /** `setSingleChanMask` as written after the writes plan, with what it saves stated on
    * the memory plan leaves. */
  method SetSingleChanMaskAfter(hw: Hardware, oh: nat, v: nat, ch: nat, ghost m0: map<Word, Word>, ghost e0: seq<Event>,
                                ghost plan: seq<(string, Word)>) returns (r: Result<map<Word, Word>>)
    requires RawPerformed(m0, hw.mem, hw.table, e0, Effects(hw.trace), plan)
    modifies hw`mem, hw`faults, hw`trace
    ensures hw.mem.Keys == old(hw.mem).Keys
    ensures r.Ok? ==> RawPerformed(m0, hw.mem, hw.table, e0, Effects(hw.trace), plan + SingleChanPlan(oh, v, ch))
    ensures r.Ok? ==> AllMapped(m0.Keys, hw.table, plan) && MasksMapped(m0.Keys, hw.table, oh, v, 128)
    ensures r.Ok? && MasksDistinct(hw.table, oh, v) ==>
      MasksReadable(RawWriteAll(m0, hw.table, plan), hw.table, oh, v, 128) &&
      r.value == SavedFields(RawWriteAll(m0, hw.table, plan), hw.table, oh, v, 128)
    ensures r.Err? ==> r.error.RuntimeError?
  {
    ghost var m1, e1 := hw.mem, Effects(hw.trace);
    r := SetSingleChanMaskAsWritten(hw, oh, v, ch);
    if r.Ok? {
      RawPerformedStep(m0, m1, hw.mem, hw.table, e0, e1, Effects(hw.trace), plan, SingleChanPlan(oh, v, ch));
      MappedPlanMasks(m1.Keys, hw.table, oh, v, ch);
      assert m1 == RawWriteAll(m0, hw.table, plan);
    }
  }

  /** `setSingleChanMask` on used VFAT v of link oh, after the writes before it. */
  method SaveChanMask(hw: Hardware, c: Consts, ohMask: Word, ch: nat, masks: seq<Word>, oh: nat, v: nat,
                      ghost m0: map<Word, Word>, ghost e0: seq<Event>) returns (r: Result<map<Word, Word>>)
    requires oh < |masks| && v < c.vfatsPerOh && ch != 128 && Vfat3.Used(masks[oh], v)
    requires RawPerformed(m0, hw.mem, hw.table, e0, Effects(hw.trace), ChanPrefix(ohMask, masks, ch, c.vfatsPerOh, oh, v))
    modifies hw`mem, hw`faults, hw`trace
    ensures hw.mem.Keys == old(hw.mem).Keys
    ensures r.Ok? ==> ChanSaved(r.value, m0, hw.table, c, ohMask, masks, ch, (oh, v))
    ensures r.Ok? ==> RawPerformed(m0, hw.mem, hw.table, e0, Effects(hw.trace), ChanPrefix(ohMask, masks, ch, c.vfatsPerOh, oh, v + 1))
    ensures r.Err? ==> r.error.RuntimeError?
  {
    ghost var plan := ChanPrefix(ohMask, masks, ch, c.vfatsPerOh, oh, v);
    ChanPrefixStep(ohMask, masks, ch, c.vfatsPerOh, oh, v);
    r := SetSingleChanMaskAfter(hw, oh, v, ch, m0, e0, plan);
  }

  /** VFAT v of link oh, the last of masks: `setSingleChanMask` when it is used. */
  method ChanMaskVfat(hw: Hardware, c: Consts, ohMask: Word, ch: nat, masks: seq<Word>, acc: map<(nat, nat), map<Word, Word>>,
                      v: nat, ghost m0: map<Word, Word>, ghost e0: seq<Event>) returns (r: Result<map<(nat, nat), map<Word, Word>>>)
    requires |masks| > 0 && Bit(ohMask, |masks| - 1) && ch != 128 && v < c.vfatsPerOh
    requires ChansSaved(acc, m0, hw.table, c, ohMask, masks, ch, |masks| - 1, v)
    requires RawPerformed(m0, hw.mem, hw.table, e0, Effects(hw.trace), ChanPrefix(ohMask, masks, ch, c.vfatsPerOh, |masks| - 1, v))
    modifies hw`mem, hw`faults, hw`trace
    ensures hw.mem.Keys == old(hw.mem).Keys
    ensures r.Ok? ==> ChansSaved(r.value, m0, hw.table, c, ohMask, masks, ch, |masks| - 1, v + 1)
    ensures r.Ok? ==> RawPerformed(m0, hw.mem, hw.table, e0, Effects(hw.trace), ChanPrefix(ohMask, masks, ch, c.vfatsPerOh, |masks| - 1, v + 1))
    ensures r.Err? ==> r.error.RuntimeError?
  {
    var oh: nat := |masks| - 1;
    if Vfat3.Used(masks[oh], v) {
      var sm := SaveChanMask(hw, c, ohMask, ch, masks, oh, v, m0, e0);
      if sm.Err? {
        return Err(sm.error);
      }
      ChansSavedAdd(acc, m0, hw.table, c, ohMask, masks, ch, oh, v, sm.value);
      var acc1 := acc[(oh, v) := sm.value];
      r := Ok(acc1);
    } else {
      ChanPrefixSkip(ohMask, masks, ch, c.vfatsPerOh, oh, v);
      ChansSavedSkip(acc, m0, hw.table, c, ohMask, masks, ch, oh, v);
      r := Ok(acc);
    }
  }

  /** The single-channel masks of the used VFATs of link oh, the last of masks. */
  method ChanMaskVfats(hw: Hardware, c: Consts, ohMask: Word, ch: nat, masks: seq<Word>, saved: map<(nat, nat), map<Word, Word>>,
                       ghost m0: map<Word, Word>, ghost e0: seq<Event>) returns (r: Result<map<(nat, nat), map<Word, Word>>>)
    requires |masks| > 0 && Bit(ohMask, |masks| - 1) && ch != 128
    requires ChansSaved(saved, m0, hw.table, c, ohMask, masks, ch, |masks| - 1, 0)
    requires RawPerformed(m0, hw.mem, hw.table, e0, Effects(hw.trace), ChanLinksPlan(ohMask, masks, ch, c.vfatsPerOh, |masks| - 1))
    modifies hw`mem, hw`faults, hw`trace
    ensures hw.mem.Keys == old(hw.mem).Keys
    ensures r.Ok? ==> ChansSaved(r.value, m0, hw.table, c, ohMask, masks, ch, |masks|, 0)
    ensures r.Ok? ==> RawPerformed(m0, hw.mem, hw.table, e0, Effects(hw.trace), ChanLinksPlan(ohMask, masks, ch, c.vfatsPerOh, |masks|))
    ensures r.Err? ==> r.error.RuntimeError?
  {
    var oh: nat := |masks| - 1;
    var acc := saved;
    ChanPrefixEnds(ohMask, masks, ch, c.vfatsPerOh, oh);
    var v := 0;
    while v < c.vfatsPerOh
      invariant v <= c.vfatsPerOh
      invariant ChansSaved(acc, m0, hw.table, c, ohMask, masks, ch, oh, v)
      invariant RawPerformed(m0, hw.mem, hw.table, e0, Effects(hw.trace), ChanPrefix(ohMask, masks, ch, c.vfatsPerOh, oh, v))
    {
      var x := ChanMaskVfat(hw, c, ohMask, ch, masks, acc, v, m0, e0);
      if x.Err? {
        return Err(x.error);
      }
      acc := x.value;
      v := v + 1;
    }
    ChansSavedNext(acc, m0, hw.table, c, ohMask, masks, ch, oh);
    r := Ok(acc);
  }

  /** Before the first VFAT of link oh, the writes of the links before it; after the
    * last, those of the links up to oh. */
  lemma ChanPrefixEnds(ohMask: Word, masks: seq<Word>, ch: nat, n: nat, oh: nat)
    requires oh < |masks| && Bit(ohMask, oh) && ch != 128
    ensures ChanPrefix(ohMask, masks, ch, n, oh, 0) == ChanLinksPlan(ohMask, masks, ch, n, oh)
    ensures ChanPrefix(ohMask, masks, ch, n, oh, n) == ChanLinksPlan(ohMask, masks, ch, n, oh + 1)
  {
    assert ChanPrefix(ohMask, masks, ch, n, oh, 0) == ChanLinksPlan(ohMask, masks, ch, n, oh) + [];
  }

  /** The writes before VFAT v + 1 of link oh, when v is used: those before v, then v's. */
  lemma ChanPrefixStep(ohMask: Word, masks: seq<Word>, ch: nat, n: nat, oh: nat, v: nat)
    requires oh < |masks| && v < n && ch != 128 && Vfat3.Used(masks[oh], v)
    ensures ChanPrefix(ohMask, masks, ch, n, oh, v + 1) == ChanPrefix(ohMask, masks, ch, n, oh, v) + SingleChanPlan(oh, v, ch)
  {
    var blocks := ChanBlocks(oh, ch, n);
    assert UsedPlan(blocks, masks[oh], v + 1) == UsedPlan(blocks, masks[oh], v) + blocks[v];
  }

  /** The writes before VFAT v + 1 of link oh, when v is masked: those before v. */
  lemma ChanPrefixSkip(ohMask: Word, masks: seq<Word>, ch: nat, n: nat, oh: nat, v: nat)
    requires oh < |masks| && v < n && ch != 128 && !Vfat3.Used(masks[oh], v)
    ensures ChanPrefix(ohMask, masks, ch, n, oh, v + 1) == ChanPrefix(ohMask, masks, ch, n, oh, v)
  {
    var blocks := ChanBlocks(oh, ch, n);
    assert UsedPlan(blocks, masks[oh], v + 1) == UsedPlan(blocks, masks[oh], v) + [];
  }

  /** What the first loop knows after reading link |masks|'s mask m from mem. */
  lemma MaskTaken(m0: map<Word, Word>, mem: map<Word, Word>, table: map<string, Descriptor>, c: Consts, ohMask: Word, ch: nat,
                  masks: seq<Word>, m: Word, saved: map<(nat, nat), map<Word, Word>>)
    requires forall u :: 0 <= u < |masks| ==> MaskSeen(m0, table, c, ohMask, ch, masks, u)
    requires ChansSaved(saved, m0, table, c, ohMask, masks, ch, |masks|, 0)
    requires AllMapped(m0.Keys, table, ChanLinksPlan(ohMask, masks, ch, c.vfatsPerOh, |masks|))
    requires mem == RawWriteAll(m0, table, ChanLinksPlan(ohMask, masks, ch, c.vfatsPerOh, |masks|))
    requires Bit(ohMask, |masks|) ==> Amc.SyncReadable(mem, table, |masks|, c.vfatsPerOh) && m == Amc.VfatMask(mem, table, |masks|, c.vfatsPerOh)
    requires !Bit(ohMask, |masks|) ==> m == 0
    ensures ChanLinksPlan(ohMask, masks + [m], ch, c.vfatsPerOh, |masks|) == ChanLinksPlan(ohMask, masks, ch, c.vfatsPerOh, |masks|)
    ensures forall u :: 0 <= u <= |masks| ==> MaskSeen(m0, table, c, ohMask, ch, masks + [m], u)
    ensures ChansSaved(saved, m0, table, c, ohMask, masks + [m], ch, |masks|, 0)
  {
    MasksGrow(m0, table, c, ohMask, ch, masks, m, saved);
    assert MaskSeen(m0, table, c, ohMask, ch, masks + [m], |masks|);
  }

  /** A link not selected, or all channels asked for: no single-channel mask writes. */
  lemma ChanLinksPlanSkip(ohMask: Word, masks: seq<Word>, ch: nat, n: nat, k: nat)
    requires k < |masks| && (!Bit(ohMask, k) || ch == 128)
    ensures ChanLinksPlan(ohMask, masks, ch, n, k + 1) == ChanLinksPlan(ohMask, masks, ch, n, k)
  {
    assert ChanLinksPlan(ohMask, masks, ch, n, k + 1) == ChanLinksPlan(ohMask, masks, ch, n, k) + [];
  }

  /** The VFAT mask of link |masks| when it is selected, 0 otherwise. */
  method LinkMaskRead(hw: Hardware, c: Consts, ohMask: Word, ch: nat, masks: seq<Word>, saved: map<(nat, nat), map<Word, Word>>,
                      ghost m0: map<Word, Word>, ghost e0: seq<Event>) returns (r: Result<Word>)
    requires Valid(c)
    requires forall u :: 0 <= u < |masks| ==> MaskSeen(m0, hw.table, c, ohMask, ch, masks, u)
    requires ChansSaved(saved, m0, hw.table, c, ohMask, masks, ch, |masks|, 0)
    requires RawPerformed(m0, hw.mem, hw.table, e0, Effects(hw.trace), ChanLinksPlan(ohMask, masks, ch, c.vfatsPerOh, |masks|))
    modifies hw`mem, hw`faults, hw`trace
    ensures hw.mem.Keys == old(hw.mem).Keys
    ensures r.Ok? ==> forall u :: 0 <= u <= |masks| ==> MaskSeen(m0, hw.table, c, ohMask, ch, masks + [r.value], u)
    ensures r.Ok? ==> ChansSaved(saved, m0, hw.table, c, ohMask, masks + [r.value], ch, |masks|, 0)
    ensures r.Ok? ==> RawPerformed(m0, hw.mem, hw.table, e0, Effects(hw.trace), ChanLinksPlan(ohMask, masks + [r.value], ch, c.vfatsPerOh, |masks|))
    ensures r.Err? ==> r.error.RuntimeError?
  {
    var oh := |masks|;
    var m: Word := 0;
    if Bit(ohMask, oh) {
      var x := Amc.GetOHVFATMask(hw, c, oh);
      if x.Err? {
        return Err(x.error);
      }
      m := x.value;
    }
    MaskTaken(m0, hw.mem, hw.table, c, ohMask, ch, masks, m, saved);
    r := Ok(m);
  }

  /** Link |masks| of the first loop: its VFAT mask when it is selected, then, unless ch
    * is 128, the single-channel masks of its used VFATs. */
  method ChanMaskTurn(hw: Hardware, c: Consts, ohMask: Word, ch: nat, masks: seq<Word>, saved: map<(nat, nat), map<Word, Word>>,
                      ghost m0: map<Word, Word>, ghost e0: seq<Event>)
    returns (r: Result<(seq<Word>, map<(nat, nat), map<Word, Word>>)>)
    requires Valid(c)
    requires forall u :: 0 <= u < |masks| ==> MaskSeen(m0, hw.table, c, ohMask, ch, masks, u)
    requires ChansSaved(saved, m0, hw.table, c, ohMask, masks, ch, |masks|, 0)
    requires RawPerformed(m0, hw.mem, hw.table, e0, Effects(hw.trace), ChanLinksPlan(ohMask, masks, ch, c.vfatsPerOh, |masks|))
    modifies hw`mem, hw`faults, hw`trace
    ensures hw.mem.Keys == old(hw.mem).Keys
    ensures r.Ok? ==> |r.value.0| == |masks| + 1 && r.value.0[..|masks|] == masks
    ensures r.Ok? ==> forall u :: 0 <= u <= |masks| ==> MaskSeen(m0, hw.table, c, ohMask, ch, r.value.0, u)
    ensures r.Ok? ==> ChansSaved(r.value.1, m0, hw.table, c, ohMask, r.value.0, ch, |masks| + 1, 0)
    ensures r.Ok? ==> RawPerformed(m0, hw.mem, hw.table, e0, Effects(hw.trace), ChanLinksPlan(ohMask, r.value.0, ch, c.vfatsPerOh, |masks| + 1))
    ensures r.Err? ==> r.error.RuntimeError?
  {
    var oh := |masks|;
    var x := LinkMaskRead(hw, c, ohMask, ch, masks, saved, m0, e0);
    if x.Err? {
      return Err(x.error);
    }
    var masks1 := masks + [x.value];
    assert masks1[..oh] == masks;
    if Bit(ohMask, oh) && ch != 128 {
      var s := ChanMaskVfats(hw, c, ohMask, ch, masks1, saved, m0, e0);
      if s.Err? {
        return Err(s.error);
      }
      r := Ok((masks1, s.value));
    } else {
      ChanLinksPlanSkip(ohMask, masks1, ch, c.vfatsPerOh, oh);
      ChansSavedNone(saved, m0, hw.table, c, ohMask, masks1, ch, oh);
      r := Ok((masks1, saved));
    }
  }

  /** The first loop of `sbitRateScanParallel`: each selected link's VFAT mask and,
    * unless ch is 128, a single-channel mask on each of its used VFATs, whose original
    * channel masks it saves. */
  method ChanMaskLinks(hw: Hardware, c: Consts, ohMask: Word, ch: nat)
    returns (r: Result<(seq<Word>, map<(nat, nat), map<Word, Word>>)>)
    requires Valid(c)
    modifies hw`mem, hw`faults, hw`trace
    ensures hw.mem.Keys == old(hw.mem).Keys
    ensures r.Ok? ==> MasksTaken(old(hw.mem), Effects(old(hw.trace)), hw.table, c, ohMask, ch, r.value.0, r.value.1,
                                 hw.mem, Effects(hw.trace))
    ensures r.Ok? && ch == 128 ==>
      LinksSynced(old(hw.mem), hw.table, c, ohMask) && r.value.0 == LinkMasks(old(hw.mem), hw.table, c, ohMask)
    ensures r.Err? ==> r.error.RuntimeError?
  {
    ghost var m0, e0 := hw.mem, Effects(hw.trace);
    RawPerformedNothing(m0, hw.table, e0);
    var masks: seq<Word> := [];
    var saved: map<(nat, nat), map<Word, Word>> := map[];
    while |masks| < c.ohPerAmc
      invariant |masks| <= c.ohPerAmc && hw.mem.Keys == m0.Keys
      invariant forall u :: 0 <= u < |masks| ==> MaskSeen(m0, hw.table, c, ohMask, ch, masks, u)
      invariant ChansSaved(saved, m0, hw.table, c, ohMask, masks, ch, |masks|, 0)
      invariant RawPerformed(m0, hw.mem, hw.table, e0, Effects(hw.trace), ChanLinksPlan(ohMask, masks, ch, c.vfatsPerOh, |masks|))
      decreases c.ohPerAmc - |masks|
    {
      var x := ChanMaskTurn(hw, c, ohMask, ch, masks, saved, m0, e0);
      if x.Err? {
        return Err(x.error);
      }
      masks, saved := x.value.0, x.value.1;
    }
    if ch == 128 {
      AllChannelsMasks(m0, hw.table, c, ohMask, masks, c.ohPerAmc);
    }
    r := Ok((masks, saved));
  }

  /** With all channels (ch 128) the first loop writes nothing and reads every selected
    * link's mask from the memory it starts with. */
  lemma {:induction false} AllChannelsMasks(m0: map<Word, Word>, table: map<string, Descriptor>, c: Consts, ohMask: Word,
                                            masks: seq<Word>, k: nat)
    requires Valid(c) && |masks| == c.ohPerAmc && k <= c.ohPerAmc
    requires forall oh :: 0 <= oh < c.ohPerAmc ==> MaskSeen(m0, table, c, ohMask, 128, masks, oh)
    ensures ChanLinksPlan(ohMask, masks, 128, c.vfatsPerOh, k) == []
    ensures k == c.ohPerAmc ==> LinksSynced(m0, table, c, ohMask) && masks == LinkMasks(m0, table, c, ohMask)
    decreases k
  {
    if k > 0 {
      AllChannelsMasks(m0, table, c, ohMask, masks, k - 1);
    }
    if k == c.ohPerAmc {
      forall oh | 0 <= oh < c.ohPerAmc
        ensures ChanLinksPlan(ohMask, masks, 128, c.vfatsPerOh, oh) == []
      {
        AllChannelsMasks(m0, table, c, ohMask, masks, oh);
      }
      assert RawWriteAll(m0, table, []) == m0;
      forall oh | 0 <= oh < c.ohPerAmc
        ensures Bit(ohMask, oh) ==> Amc.SyncReadable(m0, table, oh, c.vfatsPerOh)
        ensures Bit(ohMask, oh) ==> masks[oh] == Amc.VfatMask(m0, table, oh, c.vfatsPerOh)
        ensures !Bit(ohMask, oh) ==> masks[oh] == 0
      {
        assert MaskSeen(m0, table, c, ohMask, 128, masks, oh);
      }
      assert LinksSynced(m0, table, c, ohMask);
    }
  }

  // ---------------------------------------------------------------------------
  // sbitRateScanParallel: the DAC loop

  /** The scan register of each of the n VFATs of link oh set to d, one block per VFAT. */
  function CfgLinkBlocks(oh: nat, scanReg: string, d: Word, n: nat): (bs: seq<seq<(string, Word)>>)
    ensures |bs| == n && forall v :: 0 <= v < n ==> bs[v] == [(ScanRegName(oh, v, scanReg), d)]
  {
    seq(n, v requires 0 <= v < n => [(ScanRegName(oh, v, scanReg), d)])
  }

  /** The scan register writes of one DAC value for the selected links below k. */
  function CfgLinksPlan(ohMask: Word, masks: seq<Word>, scanReg: string, d: Word, n: nat, k: nat): seq<(string, Word)>
    requires k <= |masks|
    decreases k
  {
    if k == 0 then []
    else
      CfgLinksPlan(ohMask, masks, scanReg, d, n, k - 1) +
      (if Bit(ohMask, k - 1) then UsedPlan(CfgLinkBlocks(k - 1, scanReg, d, n), masks[k - 1], n) else [])
  }

  function CntResetName(oh: nat): string
  {
    "GEM_AMC.OH.OH" + Dec(oh) + ".FPGA.TRIG.CNT.RESET"
  }

  /** The counter resets of the selected links below k. */
  function ResetLinksPlan(ohMask: Word, k: nat): seq<(string, Word)>
    decreases k
  {
    if k == 0 then []
    else ResetLinksPlan(ohMask, k - 1) + (if Bit(ohMask, k - 1) then [(CntResetName(k - 1), 1)] else [])
  }

  /** The writes at DAC value d: the scan registers of every used VFAT of every selected
    * link, then each selected link's counter reset. */
  function ParStepPlan(c: Consts, ohMask: Word, masks: seq<Word>, scanReg: string, d: Word): seq<(string, Word)>
    requires |masks| == c.ohPerAmc
  {
    CfgLinksPlan(ohMask, masks, scanReg, d, c.vfatsPerOh, c.ohPerAmc) + ResetLinksPlan(ohMask, c.ohPerAmc)
  }

  /** The writes of the DAC loop over the values vs. */
  function ParPlan(c: Consts, ohMask: Word, masks: seq<Word>, scanReg: string, vs: seq<Word>): seq<(string, Word)>
    requires |masks| == c.ohPerAmc
    decreases |vs|
  {
    if vs == [] then []
    else ParPlan(c, ohMask, masks, scanReg, vs[..|vs| - 1]) + ParStepPlan(c, ohMask, masks, scanReg, vs[|vs| - 1])
  }

  lemma ParPlanSnoc(c: Consts, ohMask: Word, masks: seq<Word>, scanReg: string, vs: seq<Word>, d: Word)
    requires |masks| == c.ohPerAmc
    ensures ParPlan(c, ohMask, masks, scanReg, vs + [d]) == ParPlan(c, ohMask, masks, scanReg, vs) + ParStepPlan(c, ohMask, masks, scanReg, d)
  {
    assert (vs + [d])[..|vs|] == vs;
  }

  /** `outData[done[i]]` is read from the memory the loop's writes up to done[i] leave. */
  ghost predicate ParReadAt(out: map<nat, seq<Word>>, done: seq<Word>, m1: map<Word, Word>, table: map<string, Descriptor>,
                            c: Consts, ohMask: Word, masks: seq<Word>, rows: seq<seq<Word>>, scanReg: string, i: nat)
    requires |masks| == c.ohPerAmc && i < |done|
  {
    var plan := ParPlan(c, ohMask, masks, scanReg, done[..i + 1]);
    done[i] in out && AllMapped(m1.Keys, table, plan) &&
    ScanRow(WriteAll(m1, table, plan), c, ohMask, masks, rows, out[done[i]])
  }

  /** `outData` holds a row for each DAC value of done, each read after that value's writes. */
  ghost predicate ParRead(out: map<nat, seq<Word>>, done: seq<Word>, m1: map<Word, Word>, table: map<string, Descriptor>,
                          c: Consts, ohMask: Word, masks: seq<Word>, rows: seq<seq<Word>>, scanReg: string)
    requires |masks| == c.ohPerAmc
  {
    (forall x :: x in out <==> x in done) &&
    forall i :: 0 <= i < |done| ==> ParReadAt(out, done, m1, table, c, ohMask, masks, rows, scanReg, i)
  }

  /** A new DAC value's row added to the rows read before it. */
  lemma ParReadAdd(out: map<nat, seq<Word>>, done: seq<Word>, m1: map<Word, Word>, table: map<string, Descriptor>,
                   c: Consts, ohMask: Word, masks: seq<Word>, rows: seq<seq<Word>>, scanReg: string, d: Word, row: seq<Word>)
    requires |masks| == c.ohPerAmc
    requires ParRead(out, done, m1, table, c, ohMask, masks, rows, scanReg)
    requires forall i :: 0 <= i < |done| ==> done[i] < d
    requires AllMapped(m1.Keys, table, ParPlan(c, ohMask, masks, scanReg, done + [d]))
    requires ScanRow(WriteAll(m1, table, ParPlan(c, ohMask, masks, scanReg, done + [d])), c, ohMask, masks, rows, row)
    ensures ParRead(out[d := row], done + [d], m1, table, c, ohMask, masks, rows, scanReg)
  {
    var done1 := done + [d];
    var out1 := out[d := row];
    forall i | 0 <= i < |done1|
      ensures ParReadAt(out1, done1, m1, table, c, ohMask, masks, rows, scanReg, i)
    {
      if i < |done| {
        assert done1[..i + 1] == done[..i + 1];
        assert ParReadAt(out, done, m1, table, c, ohMask, masks, rows, scanReg, i);
      } else {
        assert done1[..i + 1] == done1;
      }
    }
  }

  /** The scan register writes at DAC value d, link by link. */
  method ParCfgWrites(hw: Hardware, c: Consts, ohMask: Word, masks: seq<Word>, scanReg: string, d: Word) returns (r: Result<()>)
    requires |masks| == c.ohPerAmc
    modifies hw`mem, hw`faults, hw`trace
    ensures hw.mem.Keys == old(hw.mem).Keys
    ensures r.Ok? ==> Performed(old(hw.mem), hw.mem, hw.table, Effects(old(hw.trace)), Effects(hw.trace),
                                CfgLinksPlan(ohMask, masks, scanReg, d, c.vfatsPerOh, c.ohPerAmc))
    ensures r.Err? ==> r.error.RuntimeError?
  {
    ghost var m0, e0 := hw.mem, Effects(hw.trace);
    PerformedNothing(m0, hw.table, e0);
    var oh := 0;
    while oh < c.ohPerAmc
      invariant oh <= c.ohPerAmc && hw.mem.Keys == m0.Keys
      invariant Performed(m0, hw.mem, hw.table, e0, Effects(hw.trace), CfgLinksPlan(ohMask, masks, scanReg, d, c.vfatsPerOh, oh))
    {
      ghost var plan := CfgLinksPlan(ohMask, masks, scanReg, d, c.vfatsPerOh, oh);
      ghost var m1, e1 := hw.mem, Effects(hw.trace);
      if Bit(ohMask, oh) {
        var blocks := CfgLinkBlocks(oh, scanReg, d, c.vfatsPerOh);
        var w := WriteUsed(hw, masks[oh], blocks);
        if w.Err? {
          return Err(w.error);
        }
        PerformedStep(m0, m1, hw.mem, hw.table, e0, e1, Effects(hw.trace), plan, UsedPlan(blocks, masks[oh], c.vfatsPerOh));
      } else {
        PerformedNothing(m1, hw.table, e1);
        PerformedStep(m0, m1, m1, hw.table, e0, e1, e1, plan, []);
      }
      oh := oh + 1;
    }
    r := Ok(());
  }

  /** The counter resets at one DAC value, link by link. */
  method ParResets(hw: Hardware, c: Consts, ohMask: Word) returns (r: Result<()>)
    modifies hw`mem, hw`faults, hw`trace
    ensures hw.mem.Keys == old(hw.mem).Keys
    ensures r.Ok? ==> Performed(old(hw.mem), hw.mem, hw.table, Effects(old(hw.trace)), Effects(hw.trace), ResetLinksPlan(ohMask, c.ohPerAmc))
    ensures r.Err? ==> r.error.RuntimeError?
  {
    ghost var m0, e0 := hw.mem, Effects(hw.trace);
    PerformedNothing(m0, hw.table, e0);
    var oh := 0;
    while oh < c.ohPerAmc
      invariant oh <= c.ohPerAmc && hw.mem.Keys == m0.Keys
      invariant Performed(m0, hw.mem, hw.table, e0, Effects(hw.trace), ResetLinksPlan(ohMask, oh))
    {
      r := ResetTurn(hw, ohMask, oh, m0, e0);
      if r.Err? {
        return;
      }
      oh := oh + 1;
    }
    r := Ok(());
  }

  /** Link oh's counter reset, when it is selected. */
  method ResetTurn(hw: Hardware, ohMask: Word, oh: nat, ghost m0: map<Word, Word>, ghost e0: seq<Event>) returns (r: Result<()>)
    requires Performed(m0, hw.mem, hw.table, e0, Effects(hw.trace), ResetLinksPlan(ohMask, oh))
    modifies hw`mem, hw`faults, hw`trace
    ensures hw.mem.Keys == old(hw.mem).Keys
    ensures r.Ok? ==> Performed(m0, hw.mem, hw.table, e0, Effects(hw.trace), ResetLinksPlan(ohMask, oh + 1))
    ensures r.Err? ==> r.error.RuntimeError?
  {
    var plan := ResetLinksPlan(ohMask, oh);
    if Bit(ohMask, oh) {
      assert ResetLinksPlan(ohMask, oh + 1) == plan + [(CntResetName(oh), 1)];
      r := hw.SetAfter(CntResetName(oh), 1, m0, e0, plan);
    } else {
      assert ResetLinksPlan(ohMask, oh + 1) == plan + [];
      assert plan + [] == plan;
      r := Ok(());
    }
  }

  /** The writes of one pass of the DAC loop, after those of the values done. */
  method ParWrites(hw: Hardware, c: Consts, ohMask: Word, masks: seq<Word>, scanReg: string, d: Word,
                   ghost m1: map<Word, Word>, ghost e1: seq<Event>, ghost done: seq<Word>) returns (r: Result<()>)
    requires |masks| == c.ohPerAmc
    requires Performed(m1, hw.mem, hw.table, e1, Effects(hw.trace), ParPlan(c, ohMask, masks, scanReg, done))
    modifies hw`mem, hw`faults, hw`trace
    ensures hw.mem.Keys == old(hw.mem).Keys
    ensures r.Ok? ==> Performed(m1, hw.mem, hw.table, e1, Effects(hw.trace), ParPlan(c, ohMask, masks, scanReg, done + [d]))
    ensures r.Err? ==> r.error.RuntimeError?
  {
    ghost var m2, e2 := hw.mem, Effects(hw.trace);
    r := ParCfgWrites(hw, c, ohMask, masks, scanReg, d);
    if r.Err? {
      return;
    }
    ghost var m3, e3 := hw.mem, Effects(hw.trace);
    r := ParResets(hw, c, ohMask);
    if r.Err? {
      return;
    }
    ParStepDone(m1, m2, m3, hw.mem, hw.table, e1, e2, e3, Effects(hw.trace), c, ohMask, masks, scanReg, done, d);
  }

  /** The writes of the values done, then the scan registers and the counter resets at d,
    * are the writes of done + [d]. */
  lemma ParStepDone(m1: map<Word, Word>, m2: map<Word, Word>, m3: map<Word, Word>, m4: map<Word, Word>,
                    table: map<string, Descriptor>, e1: seq<Event>, e2: seq<Event>, e3: seq<Event>, e4: seq<Event>,
                    c: Consts, ohMask: Word, masks: seq<Word>, scanReg: string, done: seq<Word>, d: Word)
    requires |masks| == c.ohPerAmc
    requires Performed(m1, m2, table, e1, e2, ParPlan(c, ohMask, masks, scanReg, done))
    requires Performed(m2, m3, table, e2, e3, CfgLinksPlan(ohMask, masks, scanReg, d, c.vfatsPerOh, c.ohPerAmc))
    requires Performed(m3, m4, table, e3, e4, ResetLinksPlan(ohMask, c.ohPerAmc))
    ensures Performed(m1, m4, table, e1, e4, ParPlan(c, ohMask, masks, scanReg, done + [d]))
  {
    PerformedStep(m2, m3, m4, table, e2, e3, e4, CfgLinksPlan(ohMask, masks, scanReg, d, c.vfatsPerOh, c.ohPerAmc),
                  ResetLinksPlan(ohMask, c.ohPerAmc));
    PerformedStep(m1, m2, m4, table, e1, e2, e4, ParPlan(c, ohMask, masks, scanReg, done), ParStepPlan(c, ohMask, masks, scanReg, d));
    ParPlanSnoc(c, ohMask, masks, scanReg, done, d);
  }

  /** One pass of the DAC loop: the writes at d, the wait (not modelled), then the row read. */
  method ParStep(hw: Hardware, c: Consts, ohMask: Word, masks: seq<Word>, rows: seq<seq<Word>>, scanReg: string, d: Word,
                 ghost m1: map<Word, Word>, ghost e1: seq<Event>, ghost done: seq<Word>) returns (r: Result<seq<Word>>)
    requires |masks| == c.ohPerAmc && |rows| == c.ohPerAmc
    requires forall oh :: 0 <= oh < c.ohPerAmc && Bit(ohMask, oh) ==> |rows[oh]| == c.vfatsPerOh + 1
    requires Performed(m1, hw.mem, hw.table, e1, Effects(hw.trace), ParPlan(c, ohMask, masks, scanReg, done))
    modifies hw`mem, hw`faults, hw`trace
    ensures hw.mem.Keys == old(hw.mem).Keys
    ensures r.Ok? ==> Performed(m1, hw.mem, hw.table, e1, Effects(hw.trace), ParPlan(c, ohMask, masks, scanReg, done + [d]))
    ensures r.Ok? ==> ScanRow(hw.mem, c, ohMask, masks, rows, r.value)
    ensures r.Err? ==> r.error.RuntimeError?
  {
    var w := ParWrites(hw, c, ohMask, masks, scanReg, d, m1, e1, done);
    if w.Err? {
      return Err(w.error);
    }
    r := ParallelReadout(hw, c, ohMask, masks, rows);
  }

  /** The DAC loop of `sbitRateScanParallel`: at each DAC value the scan registers and
    * counter resets, then `outData[dacVal]` read from the memory they leave. */
  method ParallelScan(hw: Hardware, c: Consts, ohMask: Word, masks: seq<Word>, rows: seq<seq<Word>>, scanReg: string,
                      dacMin: Word, dacMax: Word, dacStep: Word) returns (r: Result<map<nat, seq<Word>>>)
    requires |masks| == c.ohPerAmc && |rows| == c.ohPerAmc
    requires forall oh :: 0 <= oh < c.ohPerAmc && Bit(ohMask, oh) ==> |rows[oh]| == c.vfatsPerOh + 1
    requires dacStep > 0 && dacMax + dacStep < WORD
    modifies hw`mem, hw`faults, hw`trace
    ensures hw.mem.Keys == old(hw.mem).Keys
    ensures r.Ok? ==> Performed(old(hw.mem), hw.mem, hw.table, Effects(old(hw.trace)), Effects(hw.trace),
                                ParPlan(c, ohMask, masks, scanReg, DacValues(dacMin, dacMax, dacStep)))
    ensures r.Ok? ==> ParRead(r.value, DacValues(dacMin, dacMax, dacStep), old(hw.mem), hw.table, c, ohMask, masks, rows, scanReg)
    ensures r.Err? ==> r.error.RuntimeError?
  {
    ghost var m1, e1 := hw.mem, Effects(hw.trace);
    PerformedNothing(m1, hw.table, e1);
    var out: map<nat, seq<Word>> := map[];
    var dacVal := dacMin;
    ghost var done: seq<Word> := [];
    while dacVal <= dacMax
      invariant DacValues(dacMin, dacMax, dacStep) == done + DacValues(dacVal, dacMax, dacStep)
      invariant forall i :: 0 <= i < |done| ==> done[i] < dacVal
      invariant hw.mem.Keys == m1.Keys
      invariant Performed(m1, hw.mem, hw.table, e1, Effects(hw.trace), ParPlan(c, ohMask, masks, scanReg, done))
      invariant ParRead(out, done, m1, hw.table, c, ohMask, masks, rows, scanReg)
      decreases dacMax + dacStep - dacVal
    {
      DacValuesAdvance(dacMin, dacMax, dacStep, done, dacVal);
      var row := ParStep(hw, c, ohMask, masks, rows, scanReg, dacVal, m1, e1, done);
      if row.Err? {
        return Err(row.error);
      }
      ParReadAdd(out, done, m1, hw.table, c, ohMask, masks, rows, scanReg, dacVal, row.value);
      out := out[dacVal := row.value];
      done := done + [dacVal];
      dacVal := ErrorCounters.Add32(dacVal, dacStep);
    }
    DacValuesDone(dacMin, dacMax, dacStep, done, dacVal);
    r := Ok(out);
  }

  // ---------------------------------------------------------------------------
  // sbitRateScanParallel: the channel masks restored, and the whole scan

  /** `origVFATmasks[p.0][p.1]`, an empty map for an entry never set. */
  function SavedOr(saved: map<(nat, nat), map<Word, Word>>, p: (nat, nat)): (s: map<Word, Word>)
    ensures p in saved ==> s == saved[p]
    ensures p !in saved ==> s == map[]
  {
    if p in saved then saved[p] else map[]
  }

  /** The memory after `applyChanMask` of the saved words of each used VFAT below u of link oh. */
  function RestoreLink(m: map<Word, Word>, saved: map<(nat, nat), map<Word, Word>>, oh: nat, mask: Word, u: nat): map<Word, Word>
    decreases u
  {
    if u == 0 then m
    else
      var m1 := RestoreLink(m, saved, oh, mask, u - 1);
      if Vfat3.Used(mask, u - 1) then m1 + SavedOr(saved, (oh, u - 1)) else m1
  }

  /** The memory after the channel-mask restore of the selected links below k; nothing is
    * restored when all channels (128) were scanned. */
  function RestoreChans(m: map<Word, Word>, saved: map<(nat, nat), map<Word, Word>>, c: Consts, ohMask: Word,
                        masks: seq<Word>, ch: nat, k: nat): map<Word, Word>
    requires k <= |masks|
    decreases k
  {
    if k == 0 || ch == 128 then m
    else
      var m1 := RestoreChans(m, saved, c, ohMask, masks, ch, k - 1);
      if Bit(ohMask, k - 1) then RestoreLink(m1, saved, k - 1, masks[k - 1], c.vfatsPerOh) else m1
  }

  /** `applyChanMask(origVFATmasks[oh][vfat])` for each used VFAT of link oh. */
  method RestoreLinkChans(hw: Hardware, c: Consts, saved: map<(nat, nat), map<Word, Word>>, oh: nat, mask: Word)
    returns (r: Result<()>)
    modifies hw`mem, hw`faults, hw`trace
    ensures hw.mem.Keys == old(hw.mem).Keys
    ensures r.Ok? ==> hw.mem == RestoreLink(old(hw.mem), saved, oh, mask, c.vfatsPerOh)
    ensures r.Ok? ==> Effects(old(hw.trace)) <= Effects(hw.trace)
    ensures r.Err? ==> r.error.RuntimeError?
  {
    ghost var m0, e0 := hw.mem, Effects(hw.trace);
    var v := 0;
    while v < c.vfatsPerOh
      invariant v <= c.vfatsPerOh && hw.mem.Keys == m0.Keys
      invariant hw.mem == RestoreLink(m0, saved, oh, mask, v)
      invariant e0 <= Effects(hw.trace)
    {
      if Vfat3.Used(mask, v) {
        var a, _ := ApplyChanMask(hw, SavedOr(saved, (oh, v)));
        if a.Err? {
          return Err(a.error);
        }
      }
      v := v + 1;
    }
    r := Ok(());
  }

  /** The last loop of `sbitRateScanParallel`: unless ch is 128, every selected link's used
    * VFATs get their saved channel masks back. When `saved` is what the first loop saved
    * from m0, every channel of those VFATs ends unmasked (the restore as written). */
  method RestoreChanMasks(hw: Hardware, c: Consts, ohMask: Word, masks: seq<Word>, ch: nat,
                          saved: map<(nat, nat), map<Word, Word>>, ghost m0: map<Word, Word>) returns (r: Result<()>)
    requires |masks| == c.ohPerAmc
    modifies hw`mem, hw`faults, hw`trace
    ensures hw.mem.Keys == old(hw.mem).Keys
    ensures r.Ok? ==> hw.mem == RestoreChans(old(hw.mem), saved, c, ohMask, masks, ch, c.ohPerAmc)
    ensures r.Ok? && ch != 128 && ChansSaved(saved, m0, hw.table, c, ohMask, masks, ch, c.ohPerAmc, 0) &&
            MaskedVfatNodes(m0.Keys, hw.table, c, ohMask, masks, ch) ==>
      ChannelsUnmasked(hw.mem, hw.table, c, ohMask, masks, ch)
    ensures r.Ok? ==> Effects(old(hw.trace)) <= Effects(hw.trace)
    ensures ch == 128 ==> r.Ok? && hw.mem == old(hw.mem) && Effects(hw.trace) == Effects(old(hw.trace))
    ensures r.Err? ==> r.error.RuntimeError?
  {
    ghost var mr, e0 := hw.mem, Effects(hw.trace);
    if ch == 128 {
      assert RestoreChans(mr, saved, c, ohMask, masks, ch, c.ohPerAmc) == mr;
      return Ok(());
    }
    var oh := 0;
    while oh < c.ohPerAmc
      invariant oh <= c.ohPerAmc && hw.mem.Keys == mr.Keys
      invariant hw.mem == RestoreChans(mr, saved, c, ohMask, masks, ch, oh)
      invariant e0 <= Effects(hw.trace)
    {
      if Bit(ohMask, oh) {
        var a := RestoreLinkChans(hw, c, saved, oh, masks[oh]);
        if a.Err? {
          return Err(a.error);
        }
      }
      oh := oh + 1;
    }
    if ChansSaved(saved, m0, hw.table, c, ohMask, masks, ch, c.ohPerAmc, 0) && MaskedVfatNodes(m0.Keys, hw.table, c, ohMask, masks, ch) {
      ParallelUnmasksChannels(m0, mr, hw.table, c, ohMask, ch, masks, saved);
    }
    r := Ok(());
  }

  /** What `sbitRateScanParallel` goes through, named for its contract: the link masks, the
    * saved channel masks, the memory and write log after the single-channel masks, the
    * memory after the counter setup, and the memory and write log after the counter restore. */
  datatype ParRun = ParRun(masks: seq<Word>, chans: map<(nat, nat), map<Word, Word>>, chanMem: map<Word, Word>,
                           chanLog: seq<Event>, scanMem: map<Word, Word>, restMem: map<Word, Word>, restLog: seq<Event>)

  /** The first loop's results: each link's mask as read, the saved channel masks, and the
    * memory and write log its raw single-channel mask writes leave. */
  ghost predicate MasksTaken(m0: map<Word, Word>, e0: seq<Event>, table: map<string, Descriptor>, c: Consts, ohMask: Word,
                             ch: nat, masks: seq<Word>, chans: map<(nat, nat), map<Word, Word>>, m1: map<Word, Word>, e1: seq<Event>)
  {
    |masks| == c.ohPerAmc &&
    (forall oh :: 0 <= oh < c.ohPerAmc ==> MaskSeen(m0, table, c, ohMask, ch, masks, oh)) &&
    ChansSaved(chans, m0, table, c, ohMask, masks, ch, c.ohPerAmc, 0) &&
    RawPerformed(m0, m1, table, e0, e1, ChanLinksPlan(ohMask, masks, ch, c.vfatsPerOh, c.ohPerAmc))
  }

  /** Every `writeReg` of `sbitRateScanParallel` after the single-channel masks, up to the
    * counter restore, in order. */
  function ParallelPlan(c: Consts, ohMask: Word, masks: seq<Word>, scanReg: string, dacMin: Word, dacMax: Word,
                        dacStep: Word, waitTime: Word, saved: map<nat, (Word, Word)>): seq<(string, Word)>
    requires |masks| == c.ohPerAmc && dacStep > 0 && dacMax < WORD
    requires forall oh :: 0 <= oh < c.ohPerAmc && Bit(ohMask, oh) ==> oh in saved
  {
    ScanWrites(ohMask, c.ohPerAmc, waitTime) +
    (ParPlan(c, ohMask, masks, scanReg, DacValues(dacMin, dacMax, dacStep)) + RestorePlanAsWritten(ohMask, c.ohPerAmc, saved))
  }

  /** The scan part of `sbitRateScanParallel` once the channel masks are set: look up
    * the rate addresses of each selected link, then run the scan and restore the
    * counters as written. */
  method LookUpAndScan(hw: Hardware, c: Consts, ohMask: Word, masks: seq<Word>, scanReg: string,
                       dacMin: Word, dacMax: Word, dacStep: Word, waitTime: Word)
    returns (r: Result<map<nat, seq<Word>>>, saved: map<nat, (Word, Word)>, ghost scanMem: map<Word, Word>)
    requires Valid(c) && |masks| == c.ohPerAmc
    requires dacMax < 0x1_0000 && 0 < dacStep < 0x1_0000
    modifies hw`mem, hw`faults, hw`trace
    ensures hw.mem.Keys == old(hw.mem).Keys
    ensures r.Ok? ==> RatesNamed(hw.table, c, ohMask)
    ensures r.Ok? ==> ScanSetup(old(hw.mem), scanMem, hw.table, ohMask, c.ohPerAmc, waitTime)
    ensures r.Ok? ==> forall oh: nat :: oh in saved <==> oh < c.ohPerAmc && Bit(ohMask, oh)
    ensures r.Ok? ==> ParRead(r.value, DacValues(dacMin, dacMax, dacStep), scanMem, hw.table, c, ohMask, masks,
                              RateRows(hw.table, c, ohMask), scanReg)
    ensures r.Ok? ==> Performed(old(hw.mem), hw.mem, hw.table, Effects(old(hw.trace)), Effects(hw.trace),
                                ParallelPlan(c, ohMask, masks, scanReg, dacMin, dacMax, dacStep, waitTime, saved))
    ensures r.Err? ==> r.error.RuntimeError?
  {
    scanMem, saved := hw.mem, map[];
    var rows := AllRateAddresses(hw, c, ohMask);
    if rows.Err? {
      return Err(rows.error), saved, scanMem;
    }
    r, saved, scanMem := ParallelRun(hw, c, ohMask, masks, rows.value, scanReg, dacMin, dacMax, dacStep, waitTime);
  }

  /** `sbitRateScanParallel` once the link mask is accepted, up to the restore of the
    * channel masks: read each selected link's VFAT mask and, unless ch is 128, mask all
    * channels but ch on its used VFATs; look up the rate addresses; run the scan; restore
    * the counters as written. `masks` and `chans` are what the channel-mask restore needs. */
  method ScanAcceptedLinks(hw: Hardware, c: Consts, ch: nat, dacMin: Word, dacMax: Word, dacStep: Word, scanReg: string,
                           ohMask: Word, waitTime: Word)
    returns (r: Result<map<nat, seq<Word>>>, saved: map<nat, (Word, Word)>, masks: seq<Word>,
             chans: map<(nat, nat), map<Word, Word>>, ghost run: ParRun)
    requires Valid(c)
    requires dacMax < 0x1_0000 && 0 < dacStep < 0x1_0000 && ohMask <= 0xfff
    modifies hw`mem, hw`faults, hw`trace
    ensures hw.mem.Keys == old(hw.mem).Keys
    ensures r.Ok? ==> RatesNamed(hw.table, c, ohMask)
    ensures r.Ok? ==> MasksTaken(old(hw.mem), Effects(old(hw.trace)), hw.table, c, ohMask, ch, run.masks, run.chans,
                                 run.chanMem, run.chanLog)
    ensures r.Ok? && ch == 128 ==> LinksSynced(old(hw.mem), hw.table, c, ohMask) && run.masks == LinkMasks(old(hw.mem), hw.table, c, ohMask)
    ensures r.Ok? ==> ScanSetup(run.chanMem, run.scanMem, hw.table, ohMask, c.ohPerAmc, waitTime)
    ensures r.Ok? ==> forall oh: nat :: oh in saved <==> oh < c.ohPerAmc && Bit(ohMask, oh)
    ensures r.Ok? ==> ParRead(r.value, DacValues(dacMin, dacMax, dacStep), run.scanMem, hw.table, c, ohMask, run.masks,
                              RateRows(hw.table, c, ohMask), scanReg)
    ensures r.Ok? ==> Performed(run.chanMem, run.restMem, hw.table, run.chanLog, run.restLog,
                                ParallelPlan(c, ohMask, run.masks, scanReg, dacMin, dacMax, dacStep, waitTime, saved))
    ensures r.Ok? ==> hw.mem == run.restMem && Effects(hw.trace) == run.restLog
    ensures r.Ok? ==> masks == run.masks && chans == run.chans && |masks| == c.ohPerAmc
    ensures r.Err? ==> r.error.RuntimeError?
  {
    run := ParRun([], map[], hw.mem, Effects(hw.trace), hw.mem, hw.mem, Effects(hw.trace));
    saved, masks, chans := map[], [], map[];
    ghost var m0, e0 := hw.mem, Effects(hw.trace);
    var cm := ChanMaskLinks(hw, c, ohMask, ch);
    if cm.Err? {
      return Err(cm.error), saved, masks, chans, run;
    }
    masks, chans := cm.value.0, cm.value.1;
    ghost var chanMem, e1 := hw.mem, Effects(hw.trace);
    var out;
    ghost var scanMem;
    out, saved, scanMem := LookUpAndScan(hw, c, ohMask, masks, scanReg, dacMin, dacMax, dacStep, waitTime);
    if out.Err? {
      return Err(out.error), saved, masks, chans, run;
    }
    run := ParRun(masks, chans, chanMem, e1, scanMem, hw.mem, Effects(hw.trace));
    r := Ok(out.value);
  }

  /** `sbitRateScanParallel`: reject more than 12 links; read each selected link's VFAT
    * mask and, unless ch is 128, mask all channels but ch on its used VFATs; look up the
    * rate addresses; run the scan; restore the counters as written, then the channel masks. */
  method SbitRateScanParallel(hw: Hardware, c: Consts, ch: nat, dacMin: Word, dacMax: Word, dacStep: Word, scanReg: string,
                              ohMask: Word, waitTime: Word)
    returns (r: Result<map<nat, seq<Word>>>, saved: map<nat, (Word, Word)>, ghost run: ParRun)
    requires Valid(c)
    requires dacMax < 0x1_0000 && 0 < dacStep < 0x1_0000
    modifies hw`mem, hw`faults, hw`trace
    ensures hw.mem.Keys == old(hw.mem).Keys
    ensures ohMask > 0xfff ==> (r == Err(RuntimeError(BadArgument)) && hw.mem == old(hw.mem) &&
      Effects(hw.trace) == Effects(old(hw.trace)))
    ensures r.Ok? ==> ohMask <= 0xfff && RatesNamed(hw.table, c, ohMask)
    ensures r.Ok? ==> MasksTaken(old(hw.mem), Effects(old(hw.trace)), hw.table, c, ohMask, ch, run.masks, run.chans,
                                 run.chanMem, run.chanLog)
    ensures r.Ok? && ch == 128 ==> LinksSynced(old(hw.mem), hw.table, c, ohMask) && run.masks == LinkMasks(old(hw.mem), hw.table, c, ohMask)
    ensures r.Ok? ==> ScanSetup(run.chanMem, run.scanMem, hw.table, ohMask, c.ohPerAmc, waitTime)
    ensures r.Ok? ==> forall oh: nat :: oh in saved <==> oh < c.ohPerAmc && Bit(ohMask, oh)
    ensures r.Ok? ==> ParRead(r.value, DacValues(dacMin, dacMax, dacStep), run.scanMem, hw.table, c, ohMask, run.masks,
                              RateRows(hw.table, c, ohMask), scanReg)
    ensures r.Ok? ==> Performed(run.chanMem, run.restMem, hw.table, run.chanLog, run.restLog,
                                ParallelPlan(c, ohMask, run.masks, scanReg, dacMin, dacMax, dacStep, waitTime, saved))
    ensures r.Ok? ==> hw.mem == RestoreChans(run.restMem, run.chans, c, ohMask, run.masks, ch, c.ohPerAmc)
    ensures r.Ok? && ch != 128 && MaskedVfatNodes(old(hw.mem).Keys, hw.table, c, ohMask, run.masks, ch) ==>
      ChannelsUnmasked(hw.mem, hw.table, c, ohMask, run.masks, ch)
    ensures r.Ok? ==> run.restLog <= Effects(hw.trace)
    ensures r.Ok? && ch == 128 ==> hw.mem == run.restMem && Effects(hw.trace) == run.restLog
    ensures r.Err? ==> r.error.RuntimeError?
  {
    if ohMask > 0xfff {
      run := ParRun([], map[], hw.mem, Effects(hw.trace), hw.mem, hw.mem, Effects(hw.trace));
      return Err(RuntimeError(BadArgument)), map[], run;
    }
    var masks, chans;
    r, saved, masks, chans, run := ScanAcceptedLinks(hw, c, ch, dacMin, dacMax, dacStep, scanReg, ohMask, waitTime);
    if r.Err? {
      return;
    }
    var rc := RestoreChanMasks(hw, c, ohMask, masks, ch, chans, old(hw.mem));
    if rc.Err? {
      return Err(rc.error), saved, run;
    }
  }

  /** Every VFAT that gets a single-channel mask has its 128 channel registers as mask
    * nodes on bit 14, at different addresses in keys. */
  ghost predicate MaskedVfatNodes(keys: set<Word>, table: map<string, Descriptor>, c: Consts, ohMask: Word, masks: seq<Word>, ch: nat)
  {
    forall p :: ChanMasked(c, ohMask, masks, ch, p) ==> ChannelMaskNodes(keys, table, p.0, p.1)
  }

  /** Every channel of every VFAT that gets a single-channel mask is unmasked in mem. */
  ghost predicate ChannelsUnmasked(mem: map<Word, Word>, table: map<string, Descriptor>, c: Consts, ohMask: Word, masks: seq<Word>, ch: nat)
  {
    forall p, chan :: ChanMasked(c, ohMask, masks, ch, p) && 0 <= chan < 128 ==> ChanUnmasked(mem, table, p.0, p.1, chan)
  }

  /** Every word the saved channel masks hold is 0 or 1. */
  ghost predicate SavedSmall(saved: map<(nat, nat), map<Word, Word>>)
  {
    forall p, a :: p in saved && a in saved[p] ==> saved[p][a] <= 1
  }

  /** Address a holds 0 or 1 in m. */
  predicate SmallAt(m: map<Word, Word>, a: Word)
  {
    a in m && m[a] <= 1
  }

  /** Restoring 0/1 words keeps every 0/1 word and leaves each restored address 0 or 1. */
  lemma {:induction false} RestoreLinkSmall(m: map<Word, Word>, saved: map<(nat, nat), map<Word, Word>>, oh: nat, mask: Word, u: nat)
    requires SavedSmall(saved)
    ensures forall a :: SmallAt(m, a) ==> SmallAt(RestoreLink(m, saved, oh, mask, u), a)
    ensures forall v, a :: 0 <= v < u && Vfat3.Used(mask, v) && a in SavedOr(saved, (oh, v)) ==>
        SmallAt(RestoreLink(m, saved, oh, mask, u), a)
    decreases u
  {
    if u > 0 {
      RestoreLinkSmall(m, saved, oh, mask, u - 1);
      if Vfat3.Used(mask, u - 1) {
        OverlaySmall(RestoreLink(m, saved, oh, mask, u - 1), SavedOr(saved, (oh, u - 1)));
      }
    }
  }

  /** Writing 0/1 words over m keeps every 0/1 word of m. */
  lemma OverlaySmall(m: map<Word, Word>, s: map<Word, Word>)
    requires forall a :: a in s ==> s[a] <= 1
    ensures forall a :: SmallAt(m, a) || a in s ==> SmallAt(m + s, a)
  {
  }

  /** The same over the selected links below k. */
  lemma {:induction false} RestoreChansSmall(m: map<Word, Word>, saved: map<(nat, nat), map<Word, Word>>, c: Consts,
                                             ohMask: Word, masks: seq<Word>, ch: nat, k: nat)
    requires SavedSmall(saved) && k <= |masks| && ch != 128
    ensures forall a :: SmallAt(m, a) ==> SmallAt(RestoreChans(m, saved, c, ohMask, masks, ch, k), a)
    ensures forall oh, v, a ::
      0 <= oh < k && Bit(ohMask, oh) && 0 <= v < c.vfatsPerOh && Vfat3.Used(masks[oh], v) && a in SavedOr(saved, (oh, v)) ==>
        SmallAt(RestoreChans(m, saved, c, ohMask, masks, ch, k), a)
    decreases k
  {
    if k > 0 {
      var m1 := RestoreChans(m, saved, c, ohMask, masks, ch, k - 1);
      RestoreChansSmall(m, saved, c, ohMask, masks, ch, k - 1);
      if Bit(ohMask, k - 1) {
        RestoreLinkSmall(m1, saved, k - 1, masks[k - 1], c.vfatsPerOh);
      }
    }
  }

  /** `sbitRateScanParallel` of a single channel as written ends with every channel of
    * every VFAT it touched unmasked, whatever the masks were before the scan: each saved
    * `.MASK` field is 0 or 1, and writing it back as a whole word clears bit 14. */
  lemma ParallelUnmasksChannels(m0: map<Word, Word>, m: map<Word, Word>, table: map<string, Descriptor>, c: Consts,
                                ohMask: Word, ch: nat, masks: seq<Word>, saved: map<(nat, nat), map<Word, Word>>)
    requires ch != 128 && |masks| == c.ohPerAmc
    requires ChansSaved(saved, m0, table, c, ohMask, masks, ch, c.ohPerAmc, 0)
    requires MaskedVfatNodes(m0.Keys, table, c, ohMask, masks, ch)
    ensures ChannelsUnmasked(RestoreChans(m, saved, c, ohMask, masks, ch, c.ohPerAmc), table, c, ohMask, masks, ch)
  {
    var mf := RestoreChans(m, saved, c, ohMask, masks, ch, c.ohPerAmc);
    ChansSavedSmall(saved, m0, table, c, ohMask, masks, ch);
    RestoreChansSmall(m, saved, c, ohMask, masks, ch, c.ohPerAmc);
    forall p, chan | ChanMasked(c, ohMask, masks, ch, p) && 0 <= chan < 128
      ensures ChanUnmasked(mf, table, p.0, p.1, chan)
    {
      ChanEndsUnmasked(mf, saved, m0, table, c, ohMask, masks, ch, p, chan);
    }
  }

  /** A channel of a VFAT the first loop touched is unmasked in mf when every address
    * saved for the VFAT holds 0 or 1 there. */
  lemma ChanEndsUnmasked(mf: map<Word, Word>, saved: map<(nat, nat), map<Word, Word>>, m0: map<Word, Word>,
                         table: map<string, Descriptor>, c: Consts, ohMask: Word, masks: seq<Word>, ch: nat,
                         p: (nat, nat), chan: nat)
    requires ChansSaved(saved, m0, table, c, ohMask, masks, ch, c.ohPerAmc, 0)
    requires MaskedVfatNodes(m0.Keys, table, c, ohMask, masks, ch)
    requires ChanMasked(c, ohMask, masks, ch, p) && chan < 128 && |masks| == c.ohPerAmc
    requires forall a :: a in SavedOr(saved, (p.0, p.1)) ==> SmallAt(mf, a)
    ensures ChanUnmasked(mf, table, p.0, p.1, chan)
  {
    assert p in saved;
    ChanSavedCovers(saved[p], m0, table, c, ohMask, masks, ch, p, chan);
    SmallUnmasked(mf, table, p.0, p.1, chan);
  }

  /** Every word the first loop saves is 0 or 1 when the VFATs it touches are bit-14 mask nodes. */
  lemma ChansSavedSmall(saved: map<(nat, nat), map<Word, Word>>, m0: map<Word, Word>, table: map<string, Descriptor>,
                        c: Consts, ohMask: Word, masks: seq<Word>, ch: nat)
    requires ChansSaved(saved, m0, table, c, ohMask, masks, ch, c.ohPerAmc, 0)
    requires MaskedVfatNodes(m0.Keys, table, c, ohMask, masks, ch)
    ensures SavedSmall(saved)
  {
    forall p | p in saved
      ensures forall a :: a in saved[p] ==> saved[p][a] <= 1
    {
      assert ChanMasked(c, ohMask, masks, ch, p);
      ChanSavedSmall(saved[p], m0, table, c, ohMask, masks, ch, p);
    }
  }

  /** What `setSingleChanMask` as written saves for a VFAT of bit-14 mask nodes is 0 or 1. */
  lemma ChanSavedSmall(x: map<Word, Word>, m0: map<Word, Word>, table: map<string, Descriptor>,
                       c: Consts, ohMask: Word, masks: seq<Word>, ch: nat, p: (nat, nat))
    requires ChanSaved(x, m0, table, c, ohMask, masks, ch, p) && ChannelMaskNodes(m0.Keys, table, p.0, p.1)
    ensures forall a :: a in x ==> x[a] <= 1
  {
    var plan := ChanPrefix(ohMask, masks, ch, c.vfatsPerOh, p.0, p.1);
    SavedFieldsSmall(RawWriteAll(m0, table, plan), table, p.0, p.1, 128);
  }

  /** What `setSingleChanMask` as written saves holds an entry at the address of each of
    * the VFAT's 128 channel registers. */
  lemma ChanSavedCovers(x: map<Word, Word>, m0: map<Word, Word>, table: map<string, Descriptor>,
                        c: Consts, ohMask: Word, masks: seq<Word>, ch: nat, p: (nat, nat), chan: nat)
    requires ChanSaved(x, m0, table, c, ohMask, masks, ch, p) && ChannelMaskNodes(m0.Keys, table, p.0, p.1) && chan < 128
    ensures MaskName(p.0, p.1, chan) in table && MaskAddr(table, p.0, p.1, chan) in x
  {
    var plan := ChanPrefix(ohMask, masks, ch, c.vfatsPerOh, p.0, p.1);
    SavedFieldsAt(RawWriteAll(m0, table, plan), table, p.0, p.1, 128, chan);
  }

  /** A channel register on bit 14 whose word is 0 or 1 is unmasked. */
  lemma SmallUnmasked(m: map<Word, Word>, table: map<string, Descriptor>, oh: nat, v: nat, chan: nat)
    requires MaskName(oh, v, chan) in table && table[MaskName(oh, v, chan)].mask == 0x4000
    requires SmallAt(m, MaskAddr(table, oh, v, chan))
    ensures ChanUnmasked(m, table, oh, v, chan)
  {
    SmallWordUnmasked(m[MaskAddr(table, oh, v, chan)]);
  }
}
