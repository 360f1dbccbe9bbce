/** `dacScan` of src/calibration_routines.cpp: after the selection and sync checks, the
  * ADC register of each unmasked VFAT is located and, at every DAC value, read 100 times
  * and averaged; an array of one word per (VFAT, DAC value) holds the results. */
module DacScans {

  import opened Wrappers
  import opened Bits
  import opened Packing
  import opened Text
  import opened Registers
  import opened HwConstants
  import Selection
  import Vfat3
  import Calibration
  import Optohybrid
  import Amc
  import CalibrationRuns

  /** The ADC register of VFAT v: `ADC1` with the external reference, `ADC0` otherwise,
    * followed by the suffix ("", "_CACHED" or "_UPDATE"). */
  function AdcName(ohN: nat, v: nat, ext: bool, suffix: string): string
  {
    "GEM_AMC.OH.OH" + Dec(ohN) + ".GEB.VFAT" + Dec(v) + (if ext then ".ADC1" else ".ADC0") + suffix
  }

  /** Where one VFAT's ADC is read: the cached register and the address whose read
    * refreshes it, or the plain register with `update` 0. The scan reads `update`
    * whenever the shared cache flag is set, so a plain VFAT before a cached last one
    * refreshes from 0, where the source's address is uninitialised. */
  datatype AdcSource = AdcSource(cached: bool, addr: Word, update: Word)

  /** The address lookup of one VFAT: `_CACHED` is used when it exists, and then
    * `_UPDATE` must exist too; otherwise the plain register must exist. */
  function AdcSourceOf(table: map<string, Descriptor>, ohN: nat, v: nat, ext: bool): (r: Result<AdcSource>)
    ensures r.Ok? && r.value.cached <==> AdcName(ohN, v, ext, "_CACHED") in table && AdcName(ohN, v, ext, "_UPDATE") in table
    ensures r.Ok? && !r.value.cached <==> AdcName(ohN, v, ext, "_CACHED") !in table && AdcName(ohN, v, ext, "") in table
    ensures r.Ok? && r.value.cached ==> (r.value.addr == table[AdcName(ohN, v, ext, "_CACHED")].address &&
      r.value.update == table[AdcName(ohN, v, ext, "_UPDATE")].address)
    ensures r.Ok? && !r.value.cached ==> r.value.addr == table[AdcName(ohN, v, ext, "")].address
    ensures r.Err? ==> r.error == RuntimeError(NotFound)
  {
    if AdcName(ohN, v, ext, "_CACHED") in table then
      if AdcName(ohN, v, ext, "_UPDATE") in table then
        Ok(AdcSource(true, table[AdcName(ohN, v, ext, "_CACHED")].address, table[AdcName(ohN, v, ext, "_UPDATE")].address))
      else Err(RuntimeError(NotFound))
    else if AdcName(ohN, v, ext, "") in table then Ok(AdcSource(false, table[AdcName(ohN, v, ext, "")].address, 0))
    else Err(RuntimeError(NotFound))
  }

  /** Every unmasked VFAT below n has its ADC register in the table. */
  predicate SourcesFound(table: map<string, Descriptor>, ohN: nat, mask: Word, ext: bool, n: nat)
  {
    forall v :: 0 <= v < n && Vfat3.Used(mask, v) ==> AdcSourceOf(table, ohN, v, ext).Ok?
  }

  /** The source of VFAT v as the lookup loop leaves it: found for an unmasked VFAT,
    * unused (plain register at 0) for a masked one. */
  function SourceAt(table: map<string, Descriptor>, ohN: nat, mask: Word, ext: bool, v: nat): AdcSource
    requires Vfat3.Used(mask, v) ==> AdcSourceOf(table, ohN, v, ext).Ok?
  {
    if Vfat3.Used(mask, v) then AdcSourceOf(table, ohN, v, ext).value else AdcSource(false, 0, 0)
  }

  /** `foundADCCached` after the lookup loop over the first k VFATs: one flag, overwritten
    * by each unmasked VFAT, so the last one decides; false when none is unmasked. */
  function LastCached(table: map<string, Descriptor>, ohN: nat, mask: Word, ext: bool, k: nat): bool
    requires SourcesFound(table, ohN, mask, ext, k)
    decreases k
  {
    if k == 0 then false
    else if Vfat3.Used(mask, k - 1) then AdcSourceOf(table, ohN, k - 1, ext).value.cached
    else LastCached(table, ohN, mask, ext, k - 1)
  }

  /** When every unmasked VFAT has the same kind of ADC register, the flag is that kind. */
  lemma {:induction false} LastCachedUniform(table: map<string, Descriptor>, ohN: nat, mask: Word, ext: bool, k: nat, kind: bool)
    requires SourcesFound(table, ohN, mask, ext, k)
    requires exists v :: 0 <= v < k && Vfat3.Used(mask, v)
    requires forall v :: 0 <= v < k && Vfat3.Used(mask, v) ==> AdcSourceOf(table, ohN, v, ext).value.cached == kind
    ensures LastCached(table, ohN, mask, ext, k) == kind
    decreases k
  {
    if !Vfat3.Used(mask, k - 1) {
      var v :| 0 <= v < k && Vfat3.Used(mask, v);
      assert v < k - 1;
      LastCachedUniform(table, ohN, mask, ext, k - 1, kind);
    }
  }

  /** The address loop of `dacScan`: the ADC source of each unmasked VFAT and the
    * final `foundADCCached`. */
  method AdcSources(hw: Hardware, c: Consts, ohN: nat, mask: Word, ext: bool) returns (r: Result<(seq<AdcSource>, bool)>)
    ensures r.Ok? <==> SourcesFound(hw.table, ohN, mask, ext, c.vfatsPerOh)
    ensures r.Ok? ==> (|r.value.0| == c.vfatsPerOh &&
      (forall v :: 0 <= v < c.vfatsPerOh ==> r.value.0[v] == SourceAt(hw.table, ohN, mask, ext, v)) &&
      r.value.1 == LastCached(hw.table, ohN, mask, ext, c.vfatsPerOh))
    ensures r.Err? ==> r.error == RuntimeError(NotFound)
  {
    var srcs: seq<AdcSource> := [];
    var cached := false;
    var v := 0;
    while v < c.vfatsPerOh
      invariant v <= c.vfatsPerOh && |srcs| == v
      invariant SourcesFound(hw.table, ohN, mask, ext, v)
      invariant forall u :: 0 <= u < v ==> srcs[u] == SourceAt(hw.table, ohN, mask, ext, u)
      invariant cached == LastCached(hw.table, ohN, mask, ext, v)
    {
      var s := AdcSource(false, 0, 0);
      if Vfat3.Used(mask, v) {
        var x := AdcSourceOf(hw.table, ohN, v, ext);
        if x.Err? {
          return Err(x.error);
        }
        s := x.value;
        cached := x.value.cached;
      }
      srcs := srcs + [s];
      v := v + 1;
    }
    r := Ok((srcs, cached));
  }

  const N_READS: nat := 100

  /** The average of `nReads` reads of the same word w: the `uint32_t` sum wraps, then is
    * divided by `nReads`. */
  function AdcAverage(w: Word): (a: Word)
    ensures a <= w
  {
    ((N_READS * w) % WORD) / N_READS
  }

  /** Below 42949673 the sum does not wrap and the average is the word read; the ADC
    * registers are 10 bits wide. */
  lemma AdcAverageExact(w: Word)
    requires w < 42949673
    ensures AdcAverage(w) == w
  {
    assert N_READS * w < WORD;
  }

  /** Adding one more read to a wrapped sum of i reads gives the wrapped sum of i + 1. */
  lemma WrapStep(i: nat, w: Word)
    ensures ((i * w) % WORD + w) % WORD == ((i + 1) * w) % WORD
  {
    var q := (i * w) / WORD;
    assert i * w == q * WORD + (i * w) % WORD;
    assert (i + 1) * w == q * WORD + ((i * w) % WORD + w);
    ModShift(q, (i * w) % WORD + w);
  }

  lemma ModShift(q: nat, x: nat)
    ensures (q * WORD + x) % WORD == x % WORD
  {
    var r := x % WORD;
    var d := x / WORD;
    assert q * WORD + x == (q + d) * WORD + r;
    DivModUnique(q * WORD + x, WORD, r, q + d);
  }

  /** The averaging loop of one VFAT: with the cache flag set, each of the 100 reads is
    * preceded by a read of the refresh address. */
  method AverageRead(hw: Hardware, src: AdcSource, cached: bool) returns (r: Result<Word>)
    modifies hw`faults, hw`trace
    ensures r.Ok? ==> src.addr in hw.mem && (cached ==> src.update in hw.mem) && r.value == AdcAverage(hw.mem[src.addr])
    ensures r.Err? ==> r.error.RuntimeError?
    ensures Effects(hw.trace) == Effects(old(hw.trace))
  {
    var sum: Word := 0;
    var i := 0;
    while i < N_READS
      invariant i <= N_READS
      invariant i > 0 ==> src.addr in hw.mem && (cached ==> src.update in hw.mem) && sum == (i * hw.mem[src.addr]) % WORD
      invariant i == 0 ==> sum == 0
      invariant Effects(hw.trace) == Effects(old(hw.trace))
    {
      if cached {
        var u := hw.GetRaw(src.update);
        if u.Err? {
          return Err(u.error);
        }
      }
      var x := hw.GetRaw(src.addr);
      if x.Err? {
        return Err(x.error);
      }
      WrapStep(i, x.value);
      sum := (sum + x.value) % WORD;
      i := i + 1;
    }
    r := Ok(sum / N_READS);
  }

  /** The sources the lookup loop leaves for the first n VFATs. */
  function SourcesOf(table: map<string, Descriptor>, ohN: nat, mask: Word, ext: bool, n: nat): (srcs: seq<AdcSource>)
    requires SourcesFound(table, ohN, mask, ext, n)
    ensures |srcs| == n && forall v :: 0 <= v < n ==> srcs[v] == SourceAt(table, ohN, mask, ext, v)
  {
    seq(n, v requires 0 <= v < n => SourceAt(table, ohN, mask, ext, v))
  }

  /** The k-th DAC value the loop visits. */
  function DacAt(dacMin: nat, dacStep: nat, k: nat): nat
  {
    dacMin + k * dacStep
  }

  /** Cell (v, j) of an n-row table with `steps` columns stored row after row: its index
    * is inside the array and gives (v, j) back. */
  function CellIndex(v: nat, j: nat, steps: nat): nat
  {
    v * steps + j
  }

  lemma Cell(v: nat, j: nat, n: nat, steps: nat)
    requires v < n && j < steps
    ensures CellIndex(v, j, steps) < n * steps
    ensures CellIndex(v, j, steps) / steps == v && CellIndex(v, j, steps) % steps == j
  {
    DivModUnique(v * steps + j, steps, j, v);
    MulGap(steps, v, n);
  }

  /** The row and column of index i in a table with `steps` columns. */
  function RowCol(i: nat, steps: nat): (rc: (nat, nat))
    requires steps > 0
    ensures rc.1 < steps && i == CellIndex(rc.0, rc.1, steps)
  {
    (i / steps, i % steps)
  }

  /** Conversely every index below n * steps is the cell of its quotient and remainder. */
  lemma CellOf(i: nat, n: nat, steps: nat)
    requires i < n * steps
    ensures steps > 0 && i / steps < n && i == CellIndex(i / steps, i % steps, steps)
  {
    if steps == 0 {
      assert false;
    }
    var v := i / steps;
    if v >= n {
      MulGap(steps, n - 1, v);
      assert false;
    }
  }

  /** What the DAC loop of one `dacScan` call keeps fixed: the link, the VFAT mask, the
    * DAC register scanned, the ADC source of each VFAT and the DAC range and step. */
  datatype DacScanConf = DacScanConf(ohN: nat, mask: Word, reg: string, srcs: seq<AdcSource>,
                                     dacMin: Word, dacMax: Word, dacStep: Word)

  /** The ranges the DAC table holds (at most 8 bits) and a `uint16_t` step that is not 0. */
  predicate Ranged(g: DacScanConf)
  {
    0 < g.dacStep < 0x1_0000 && g.dacMin <= g.dacMax <= 0xff
  }

  /** The number of DAC values the loop visits. */
  function Steps(g: DacScanConf): nat
    requires Ranged(g)
  {
    Calibration.DacSteps(g.dacMin, g.dacMax, g.dacStep)
  }

  /** The size of the result vector as written: `VFATS_PER_OH * ((dacMax-dacMin+1)/dacStep)`. */
  function Size(g: DacScanConf): nat
    requires Ranged(g)
  {
    |g.srcs| * ((g.dacMax - g.dacMin + 1) / g.dacStep)
  }

  /** The step divides the width of the range. */
  predicate Divisible(g: DacScanConf)
    requires Ranged(g)
  {
    (g.dacMax - g.dacMin + 1) % g.dacStep == 0
  }

  /** The index as written, `vfatN*(dacMax-dacMin+1)/dacStep+(dacVal-dacMin)/dacStep`; in
    * the ranges of the DAC table the `uint32_t` product does not wrap. */
  function AsWrittenIndex(g: DacScanConf, v: nat, d: nat): (i: nat)
    requires Ranged(g) && g.dacMin <= d
    ensures i == Calibration.DacIndexAsWritten(v, d, g.dacMin, g.dacMax, g.dacStep)
  {
    QuotientsNat(v, g.dacMax - g.dacMin + 1, d - g.dacMin, g.dacStep);
    v * (g.dacMax - g.dacMin + 1) / g.dacStep + (d - g.dacMin) / g.dacStep
  }

  lemma QuotientsNat(v: nat, w: nat, q: nat, s: nat)
    requires s > 0
    ensures v * w / s + q / s >= 0
  {
    var p: nat := v * w;
    assert p / s >= 0;
  }

  /** The k-th DAC value the loop visits. */
  function DacAtW(g: DacScanConf, k: nat): (d: Word)
    requires Ranged(g) && k < Steps(g)
    ensures g.dacMin <= d <= g.dacMax && d == DacAt(g.dacMin, g.dacStep, k)
  {
    DacStepsExit(g.dacMin, g.dacMax, g.dacStep, k);
    DacAt(g.dacMin, g.dacStep, k)
  }

  /** The DAC register `reg` of VFAT v, `GEM_AMC.OH.OH<ohN>.GEB.VFAT<v>.<reg>`. */
  function DacRegName(ohN: nat, v: nat, reg: string): string
  {
    Optohybrid.VfatReg(ohN, v, reg)
  }

  /** The DAC register of each of the first n VFATs, set to d. */
  function DacBlocks(ohN: nat, reg: string, d: Word, n: nat): (bs: seq<seq<(string, Word)>>)
    ensures |bs| == n && forall v :: 0 <= v < n ==> bs[v] == [(DacRegName(ohN, v, reg), d)]
  {
    seq(n, v requires 0 <= v < n => [(DacRegName(ohN, v, reg), d)])
  }

  /** The writes of the column at DAC value d up to VFAT u: the DAC register of each
    * used VFAT below u. */
  function ColumnPlan(g: DacScanConf, d: Word, u: nat): seq<(string, Word)>
    requires u <= |g.srcs|
  {
    CalibrationRuns.UsedPlan(DacBlocks(g.ohN, g.reg, d, |g.srcs|), g.mask, u)
  }

  /** The write of VFAT v in a column: its DAC register when it is used, nothing when
    * it is masked. */
  function CellPlan(g: DacScanConf, d: Word, v: nat): seq<(string, Word)>
  {
    if Vfat3.Used(g.mask, v) then [(DacRegName(g.ohN, v, g.reg), d)] else []
  }

  lemma ColumnPlanStep(g: DacScanConf, d: Word, v: nat)
    requires v < |g.srcs|
    ensures ColumnPlan(g, d, v + 1) == ColumnPlan(g, d, v) + CellPlan(g, d, v)
  {
  }

  /** The writes of the first k columns of the loop. */
  function LoopPlan(g: DacScanConf, k: nat): seq<(string, Word)>
    requires Ranged(g) && k <= Steps(g)
    decreases k
  {
    if k == 0 then [] else LoopPlan(g, k - 1) + ColumnPlan(g, DacAtW(g, k - 1), |g.srcs|)
  }

  /** The word stored for VFAT v at dacVal: a masked VFAT's carries ADC value 0. */
  function DacEntry(mem: map<Word, Word>, ohN: nat, mask: Word, srcs: seq<AdcSource>, v: nat, dacVal: nat): Word
    requires v < |srcs| && (Vfat3.Used(mask, v) ==> srcs[v].addr in mem)
  {
    Calibration.DacWord(ohN, v, if Vfat3.Used(mask, v) then AdcAverage(mem[srcs[v].addr]) else 0, dacVal)
  }

  /** The errors of `dacScan`: a failed register access, or `std::out_of_range` from
    * `dacScanData.at(idx)`. */
  predicate DacError(e: Error)
  {
    e.RuntimeError? || e == OutOfRange(BeyondRange)
  }

  /** One VFAT at one DAC value: for a used VFAT, its DAC register written and its ADC
    * averaged; then the word stored at the index as written, which throws when the
    * index is past the vector. */
  method CellStore(hw: Hardware, data: array<Word>, g: DacScanConf, cached: bool, v: nat, d: Word) returns (r: Result<()>)
    requires Ranged(g) && v < |g.srcs| && g.dacMin <= d
    modifies data, hw`mem, hw`faults, hw`trace
    ensures hw.mem.Keys == old(hw.mem).Keys
    ensures r.Ok? ==> Performed(old(hw.mem), hw.mem, hw.table, Effects(old(hw.trace)), Effects(hw.trace), CellPlan(g, d, v))
    ensures r.Ok? ==> ((Vfat3.Used(g.mask, v) ==> g.srcs[v].addr in hw.mem) && AsWrittenIndex(g, v, d) < data.Length &&
      data[..] == old(data[..])[AsWrittenIndex(g, v, d) := DacEntry(hw.mem, g.ohN, g.mask, g.srcs, v, d)])
    ensures AsWrittenIndex(g, v, d) >= data.Length ==> r.Err?
    ensures r.Err? ==> DacError(r.error)
  {
    ghost var m0, e0 := hw.mem, Effects(hw.trace);
    var adc: Word := 0;
    if Vfat3.Used(g.mask, v) {
      PerformedNothing(m0, hw.table, e0);
      var w := hw.SetAfter(DacRegName(g.ohN, v, g.reg), d, m0, e0, []);
      if w.Err? {
        return Err(w.error);
      }
      var a := AverageRead(hw, g.srcs[v], cached);
      if a.Err? {
        return Err(a.error);
      }
      adc := a.value;
    } else {
      PerformedNothing(hw.mem, hw.table, Effects(hw.trace));
    }
    var idx := AsWrittenIndex(g, v, d);
    if idx >= data.Length {
      return Err(OutOfRange(BeyondRange));
    }
    data[idx] := Calibration.DacWord(g.ohN, v, adc, d);
    r := Ok(());
  }

  /** The cell of VFAT u in column k holds its entry, read from the memory the column's
    * writes leave once that VFAT's own is made; cm is the memory at the column's start. */
  predicate CellHolds(data: seq<Word>, cm: map<Word, Word>, table: map<string, Descriptor>, g: DacScanConf,
                      steps: nat, k: nat, u: nat, d: Word)
    requires u < |g.srcs|
  {
    AllMapped(cm.Keys, table, ColumnPlan(g, d, u + 1)) && (Vfat3.Used(g.mask, u) ==> g.srcs[u].addr in cm) &&
    CellIndex(u, k, steps) < |data| &&
    data[CellIndex(u, k, steps)] == DacEntry(WriteAll(cm, table, ColumnPlan(g, d, u + 1)), g.ohN, g.mask, g.srcs, u, d)
  }

  /** The cells of VFATs below v in column k hold their entries. */
  predicate ColumnPrefix(data: seq<Word>, cm: map<Word, Word>, table: map<string, Descriptor>, g: DacScanConf,
                         steps: nat, k: nat, v: nat, d: Word)
    requires v <= |g.srcs|
  {
    forall u :: 0 <= u < v ==> CellHolds(data, cm, table, g, steps, k, u, d)
  }

  /** Outside column k, data is as it was. */
  predicate OtherColumns(data: seq<Word>, data0: seq<Word>, steps: nat, k: nat)
    requires steps > 0
  {
    |data| == |data0| && forall i :: 0 <= i < |data| && i % steps != k ==> data[i] == data0[i]
  }

  /** When the step divides the range, the index as written is the cell of the layout:
    * row v, column k, `Steps` columns, inside a vector of `|srcs| * Steps` words. */
  lemma AgreesAt(g: DacScanConf, v: nat, k: nat)
    requires Ranged(g) && Divisible(g) && k < Steps(g)
    ensures Size(g) == |g.srcs| * Steps(g)
    ensures AsWrittenIndex(g, v, DacAtW(g, k)) == CellIndex(v, k, Steps(g))
  {
    var d := DacAtW(g, k);
    var c := Consts(0, |g.srcs|, 0, 0, 0, 0, 0, 0, 0, 0);
    Calibration.DacIndexAgrees(c, v, k, g.dacMin, g.dacMax, g.dacStep);
    assert d - g.dacMin == k * g.dacStep;
    DivModUnique(k * g.dacStep, g.dacStep, 0, k);
  }

  /** When the step does not divide the range, the last VFAT's index at the last DAC
    * value is past the vector: `(n-1)*L/s + q >= n*q` for q = L/s, the loop making q + 1
    * steps. */
  lemma OverrunUnlessDivisible(g: DacScanConf)
    requires Ranged(g) && !Divisible(g) && |g.srcs| > 0
    ensures AsWrittenIndex(g, |g.srcs| - 1, DacAtW(g, Steps(g) - 1)) >= Size(g)
  {
    var n, s := |g.srcs|, g.dacStep;
    var len := g.dacMax - g.dacMin + 1;
    var q := len / s;
    assert Steps(g) == q + 1 by {
      var rem := len % s;
      assert len == s * q + rem && 1 <= rem < s;
      DivModUnique(len - 1, s, rem - 1, q);
    }
    var d := DacAtW(g, q);
    assert (d - g.dacMin) / s == q by {
      assert d - g.dacMin == s * q;
      DivModUnique(s * q, s, 0, q);
    }
    OverrunArith(n, len, s);
    assert AsWrittenIndex(g, n - 1, d) == ((n - 1) * len) / s + q;
  }

  /** `((n-1)*len)/s + len/s >= n*(len/s)`: the as-written start of the last row is
    * never before the intended one. */
  lemma OverrunArith(n: nat, len: nat, s: nat)
    requires s > 0 && n >= 1
    ensures ((n - 1) * len) / s + len / s >= n * (len / s)
  {
    var n1: nat := n - 1;
    var q := len / s;
    assert len >= s * q;
    var m := n1 * q;
    assert len * n1 >= (s * q) * n1 by {
      Calibration.MulMono(s * q, len, n1);
    }
    assert n1 * (s * q) == m * s;
    DivLower(n1 * len, s, m);
    assert n * q == m + q;
  }

  /** A quotient is at least m when the dividend is at least m times the divisor. */
  lemma DivLower(x: nat, s: nat, m: nat)
    requires s > 0 && x >= m * s
    ensures x / s >= m
  {
    var xq, xr := x / s, x % s;
    assert x == s * xq + xr;
    if xq < m {
      MulGap(s, xq, m);
      assert false;
    }
  }

  /** Storing VFAT v's entry at its cell of column k extends the prefix and keeps the
    * other columns. */
  lemma ColumnAdvance(data: seq<Word>, data0: seq<Word>, cm: map<Word, Word>, table: map<string, Descriptor>, g: DacScanConf,
                      steps: nat, k: nat, v: nat, d: Word, m: map<Word, Word>)
    requires k < steps && v < |g.srcs| && |data| == |g.srcs| * steps
    requires ColumnPrefix(data, cm, table, g, steps, k, v, d) && OtherColumns(data, data0, steps, k)
    requires AllMapped(cm.Keys, table, ColumnPlan(g, d, v + 1)) && m == WriteAll(cm, table, ColumnPlan(g, d, v + 1))
    requires Vfat3.Used(g.mask, v) ==> g.srcs[v].addr in m
    ensures CellIndex(v, k, steps) < |data|
    ensures var data1 := data[CellIndex(v, k, steps) := DacEntry(m, g.ohN, g.mask, g.srcs, v, d)];
      ColumnPrefix(data1, cm, table, g, steps, k, v + 1, d) && OtherColumns(data1, data0, steps, k)
  {
    Cell(v, k, |g.srcs|, steps);
    var i := CellIndex(v, k, steps);
    var data1 := data[i := DacEntry(m, g.ohN, g.mask, g.srcs, v, d)];
    forall u | 0 <= u < v
      ensures CellHolds(data1, cm, table, g, steps, k, u, d)
    {
      Cell(u, k, |g.srcs|, steps);
      assert CellIndex(u, k, steps) != i;
      assert CellHolds(data, cm, table, g, steps, k, u, d);
    }
    assert m.Keys == cm.Keys;
    assert CellHolds(data1, cm, table, g, steps, k, v, d);
  }

  /** The inner loop of `dacScan`: one DAC value, every VFAT. Its writes are the
    * column's plan; when the step divides the range, each VFAT's word lands in its
    * cell of column k and the other columns are left alone; in any case the last
    * VFAT's index was inside the vector. */
  method FillColumn(hw: Hardware, data: array<Word>, g: DacScanConf, cached: bool, k: nat, d: Word) returns (r: Result<()>)
    requires Ranged(g) && k < Steps(g) && d == DacAtW(g, k) && data.Length == Size(g)
    modifies data, hw`mem, hw`faults, hw`trace
    ensures hw.mem.Keys == old(hw.mem).Keys
    ensures r.Ok? ==> Performed(old(hw.mem), hw.mem, hw.table, Effects(old(hw.trace)), Effects(hw.trace), ColumnPlan(g, d, |g.srcs|))
    ensures r.Ok? && Divisible(g) ==> (ColumnPrefix(data[..], old(hw.mem), hw.table, g, Steps(g), k, |g.srcs|, d) &&
      OtherColumns(data[..], old(data[..]), Steps(g), k))
    ensures r.Ok? && |g.srcs| > 0 ==> AsWrittenIndex(g, |g.srcs| - 1, d) < data.Length
    ensures r.Err? ==> DacError(r.error)
  {
    ghost var m0, e0 := hw.mem, Effects(hw.trace);
    PerformedNothing(m0, hw.table, e0);
    var v := 0;
    while v < |g.srcs|
      invariant v <= |g.srcs| && hw.mem.Keys == m0.Keys
      invariant Performed(m0, hw.mem, hw.table, e0, Effects(hw.trace), ColumnPlan(g, d, v))
      invariant Divisible(g) ==> (ColumnPrefix(data[..], m0, hw.table, g, Steps(g), k, v, d) &&
        OtherColumns(data[..], old(data[..]), Steps(g), k))
      invariant v > 0 ==> AsWrittenIndex(g, v - 1, d) < data.Length
    {
      ghost var mb, eb, before := hw.mem, Effects(hw.trace), data[..];
      r := CellStore(hw, data, g, cached, v, d);
      if r.Err? {
        return;
      }
      PerformedStep(m0, mb, hw.mem, hw.table, e0, eb, Effects(hw.trace), ColumnPlan(g, d, v), CellPlan(g, d, v));
      ColumnPlanStep(g, d, v);
      if Divisible(g) {
        AgreesAt(g, v, k);
        ColumnAdvance(before, old(data[..]), m0, hw.table, g, Steps(g), k, v, d, hw.mem);
      }
      v := v + 1;
    }
    r := Ok(());
  }

  /** Column k is filled, from the memory the first k columns' writes leave. */
  predicate ColumnDone(data: seq<Word>, m1: map<Word, Word>, table: map<string, Descriptor>, g: DacScanConf, k: nat)
    requires Ranged(g) && k < Steps(g)
  {
    AllMapped(m1.Keys, table, LoopPlan(g, k)) &&
    ColumnPrefix(data, WriteAll(m1, table, LoopPlan(g, k)), table, g, Steps(g), k, |g.srcs|, DacAtW(g, k))
  }

  /** Columns 0 to kk - 1 are filled. */
  predicate ColumnsDone(data: seq<Word>, m1: map<Word, Word>, table: map<string, Descriptor>, g: DacScanConf, kk: nat)
    requires Ranged(g) && kk <= Steps(g)
  {
    forall k :: 0 <= k < kk ==> ColumnDone(data, m1, table, g, k)
  }

  /** A filled column other than kk survives a fill of column kk. */
  lemma ColumnKept(data: seq<Word>, data1: seq<Word>, cm: map<Word, Word>, table: map<string, Descriptor>, g: DacScanConf,
                   steps: nat, k: nat, kk: nat, d: Word)
    requires k < steps && k != kk && |data| == |g.srcs| * steps
    requires ColumnPrefix(data, cm, table, g, steps, k, |g.srcs|, d)
    requires OtherColumns(data1, data, steps, kk)
    ensures ColumnPrefix(data1, cm, table, g, steps, k, |g.srcs|, d)
  {
    forall u | 0 <= u < |g.srcs|
      ensures CellHolds(data1, cm, table, g, steps, k, u, d)
    {
      Cell(u, k, |g.srcs|, steps);
      var i := CellIndex(u, k, steps);
      assert i % steps != kk;
      assert data1[i] == data[i];
      assert CellHolds(data, cm, table, g, steps, k, u, d);
    }
  }

  /** Filling column kk while keeping the others extends the filled columns by one. */
  lemma ColumnsAdvance(data: seq<Word>, data1: seq<Word>, m1: map<Word, Word>, table: map<string, Descriptor>, g: DacScanConf, kk: nat)
    requires Ranged(g) && kk < Steps(g) && |data| == |g.srcs| * Steps(g)
    requires ColumnsDone(data, m1, table, g, kk)
    requires OtherColumns(data1, data, Steps(g), kk)
    requires ColumnDone(data1, m1, table, g, kk)
    ensures ColumnsDone(data1, m1, table, g, kk + 1)
  {
    forall k | 0 <= k < kk
      ensures ColumnDone(data1, m1, table, g, k)
    {
      assert ColumnDone(data, m1, table, g, k);
      ColumnKept(data, data1, WriteAll(m1, table, LoopPlan(g, k)), table, g, Steps(g), k, kk, DacAtW(g, k));
    }
  }

  /** The k-th visited DAC value, `DacAt(dacMin, dacStep, k)`, is in range exactly for the
    * first `DacSteps` values of k. */
  lemma DacStepsExit(dacMin: nat, dacMax: nat, dacStep: nat, k: nat)
    requires dacMin <= dacMax && dacStep > 0
    ensures DacAt(dacMin, dacStep, k) <= dacMax <==> k < Calibration.DacSteps(dacMin, dacMax, dacStep)
  {
    var q := (dacMax - dacMin) / dacStep;
    var rem := (dacMax - dacMin) % dacStep;
    assert dacMax - dacMin == q * dacStep + rem;
    if k <= q {
      MulGap(dacStep, k, q + 1);
      assert k * dacStep <= q * dacStep;
    } else {
      MulGap(dacStep, q, k);
      assert (q + 1) * dacStep <= k * dacStep;
    }
  }

  lemma NextDacValue(dacMin: nat, dacStep: nat, k: nat)
    ensures DacAt(dacMin, dacStep, k) + dacStep == DacAt(dacMin, dacStep, k + 1)
  {
  }

  /** One pass of the DAC loop: column k filled, the filled columns and the writes
    * extended by one. */
  method FillStep(hw: Hardware, data: array<Word>, g: DacScanConf, cached: bool, k: nat,
                  ghost m1: map<Word, Word>, ghost e1: seq<Event>) returns (r: Result<()>)
    requires Ranged(g) && k < Steps(g) && data.Length == Size(g)
    requires Performed(m1, hw.mem, hw.table, e1, Effects(hw.trace), LoopPlan(g, k))
    requires Divisible(g) ==> ColumnsDone(data[..], m1, hw.table, g, k)
    modifies data, hw`mem, hw`faults, hw`trace
    ensures hw.mem.Keys == old(hw.mem).Keys
    ensures r.Ok? ==> Performed(m1, hw.mem, hw.table, e1, Effects(hw.trace), LoopPlan(g, k + 1))
    ensures r.Ok? && Divisible(g) ==> ColumnsDone(data[..], m1, hw.table, g, k + 1)
    ensures r.Ok? && k + 1 == Steps(g) && |g.srcs| > 0 ==> Divisible(g)
    ensures r.Err? ==> DacError(r.error)
  {
    ghost var mk, ek, before := hw.mem, Effects(hw.trace), data[..];
    var d := DacAtW(g, k);
    r := FillColumn(hw, data, g, cached, k, d);
    if r.Err? {
      return;
    }
    PerformedStep(m1, mk, hw.mem, hw.table, e1, ek, Effects(hw.trace), LoopPlan(g, k), ColumnPlan(g, d, |g.srcs|));
    if Divisible(g) {
      AgreesAt(g, 0, k);
      ColumnsAdvance(before, data[..], m1, hw.table, g, k);
    } else if k + 1 == Steps(g) && |g.srcs| > 0 {
      OverrunUnlessDivisible(g);
      assert false;
    }
  }

  /** The DAC loop of `dacScan` over a result vector sized and indexed as written. It
    * completes only when the step divides the range; then every column is filled,
    * each word in its cell of the layout, and the writes are the loop's plan. */
  method FillScan(hw: Hardware, g: DacScanConf, cached: bool) returns (r: Result<array<Word>>)
    requires Ranged(g) && |g.srcs| > 0
    modifies hw`mem, hw`faults, hw`trace
    ensures hw.mem.Keys == old(hw.mem).Keys
    ensures r.Ok? ==> (fresh(r.value) && r.value.Length == Size(g) && Divisible(g) &&
      Performed(old(hw.mem), hw.mem, hw.table, Effects(old(hw.trace)), Effects(hw.trace), LoopPlan(g, Steps(g))) &&
      ColumnsDone(r.value[..], old(hw.mem), hw.table, g, Steps(g)))
    ensures r.Err? ==> DacError(r.error)
  {
    ghost var m1, e1 := hw.mem, Effects(hw.trace);
    PerformedNothing(m1, hw.table, e1);
    var data := new Word[Size(g)];
    var dacVal := g.dacMin;
    var k := 0;
    DacStepsExit(g.dacMin, g.dacMax, g.dacStep, 0);
    while dacVal <= g.dacMax
      invariant k <= Steps(g) && dacVal == DacAt(g.dacMin, g.dacStep, k)
      invariant dacVal <= g.dacMax <==> k < Steps(g)
      invariant hw.mem.Keys == m1.Keys && data.Length == Size(g)
      invariant Performed(m1, hw.mem, hw.table, e1, Effects(hw.trace), LoopPlan(g, k))
      invariant Divisible(g) ==> ColumnsDone(data[..], m1, hw.table, g, k)
      invariant k == Steps(g) ==> Divisible(g)
      decreases g.dacMax + g.dacStep - dacVal
    {
      var step := FillStep(hw, data, g, cached, k, m1, e1);
      if step.Err? {
        return Err(step.error);
      }
      DacStepsExit(g.dacMin, g.dacMax, g.dacStep, k + 1);
      NextDacValue(g.dacMin, g.dacStep, k);
      dacVal := dacVal + g.dacStep;
      k := k + 1;
    }
    r := Ok(data);
  }

  /** Once all columns are filled, every word of the vector is the entry of its VFAT
    * (the row) at its DAC value (the column), read from the memory the loop had made
    * by then: nothing is left unwritten. */
  lemma EveryCellFilled(data: seq<Word>, m1: map<Word, Word>, table: map<string, Descriptor>, g: DacScanConf, i: nat)
    requires Ranged(g) && |data| == |g.srcs| * Steps(g) && i < |data|
    requires ColumnsDone(data, m1, table, g, Steps(g))
    ensures RowCol(i, Steps(g)).0 < |g.srcs|
    ensures var (v, k) := RowCol(i, Steps(g));
      AllMapped(m1.Keys, table, LoopPlan(g, k)) &&
      CellHolds(data, WriteAll(m1, table, LoopPlan(g, k)), table, g, Steps(g), k, v, DacAtW(g, k)) &&
      i == CellIndex(v, k, Steps(g))
  {
    CellOf(i, |g.srcs|, Steps(g));
    var (v, k) := RowCol(i, Steps(g));
    assert ColumnDone(data, m1, table, g, k);
  }

  /** When a used VFAT's ADC is read in column k, its DAC register holds the k-th DAC
    * value, cut to the register's width: the read follows that VFAT's own write. */
  lemma DacRegisterAtRead(cm: map<Word, Word>, table: map<string, Descriptor>, g: DacScanConf, d: Word, v: nat)
    requires v < |g.srcs| && Vfat3.Used(g.mask, v)
    requires AllMapped(cm.Keys, table, ColumnPlan(g, d, v + 1))
    ensures var m := WriteAll(cm, table, ColumnPlan(g, d, v + 1)); var name := DacRegName(g.ohN, v, g.reg);
      name in table && table[name].address in m &&
      RegValue(m, table, name) == And(d, Shr(table[name].mask, Tz(table[name].mask)))
  {
    var name := DacRegName(g.ohN, v, g.reg);
    var plan := ColumnPlan(g, d, v + 1);
    ColumnPlanStep(g, d, v);
    WriteAllSplit(cm, table, ColumnPlan(g, d, v), CellPlan(g, d, v));
    var w := WriteAll(cm, table, ColumnPlan(g, d, v));
    assert CellPlan(g, d, v)[..0] == [];
    assert Mapped(w.Keys, table, CellPlan(g, d, v)[0].0);
    assert WriteAll(w, table, CellPlan(g, d, v)) == RegWritten(w, table, name, d);
    ReadAfterWrite(w, table, name, d);
  }

  /** The memories and write logs `dacScan` passes through before its DAC loop: after
    * blocking L1As, after taking the VFATs out of run mode, after configuring the DAC
    * monitor, after leaving slow-control-only mode, after putting the VFATs in run
    * mode. */
  datatype DacRun = DacRun(ma: map<Word, Word>, mb: map<Word, Word>, mc: map<Word, Word>, md: map<Word, Word>,
                           me: map<Word, Word>, mf: map<Word, Word>,
                           ea: seq<Event>, eb: seq<Event>, ec: seq<Event>, ed: seq<Event>, ee: seq<Event>, ef: seq<Event>,
                           okV: seq<bool>, okG: seq<bool>)

  const L1A_ENABLE := "GEM_AMC.TTC.CTRL.L1A_ENABLE"

  /** The first half of the set-up of `dacScan`, from (m0, e0) to (run.mb, run.eb):
    * L1A_ENABLE 0, then the `CFG_RUN` 0 broadcast. */
  predicate Quiesced(m0: map<Word, Word>, table: map<string, Descriptor>, e0: seq<Event>, run: DacRun, c: Consts,
                     ohN: nat, mask: Word)
  {
    Mapped(m0.Keys, table, L1A_ENABLE) && run.ma == RegWritten(m0, table, L1A_ENABLE, 0) && run.ea == e0 + [Write(L1A_ENABLE, 0)] &&
    Readable(run.ma, table, Optohybrid.RELEASE_MAJOR) &&
    Optohybrid.Broadcasted(run.ma, run.mb, table, run.ea, run.eb, c, ohN, "CFG_RUN", 0, mask)
  }

  /** The second half, from (run.mb, run.eb) to (run.me, run.ee): `configureVFAT3DACMonitor`,
    * SC_ONLY_MODE 0, then the `CFG_RUN` 1 broadcast. */
  predicate Armed(table: map<string, Descriptor>, run: DacRun, c: Consts, ohN: nat, mask: Word, dacSelect: Word)
  {
    Vfat3.MonitorRead(run.mb, table, c, ohN, mask, run.okV, run.okG) &&
    Performed(run.mb, run.mc, table, run.eb, run.ec, Vfat3.MonitorPlan(run.mb, table, c, ohN, mask, dacSelect, run.okV, run.okG)) &&
    Mapped(run.mc.Keys, table, Amc.SC_ONLY_MODE) && run.md == RegWritten(run.mc, table, Amc.SC_ONLY_MODE, 0) &&
    run.ed == run.ec + [Write(Amc.SC_ONLY_MODE, 0)] &&
    Readable(run.md, table, Optohybrid.RELEASE_MAJOR) &&
    Optohybrid.Broadcasted(run.md, run.me, table, run.ed, run.ee, c, ohN, "CFG_RUN", 1, mask)
  }

  /** The whole set-up of `dacScan`. */
  predicate DacPrelude(m0: map<Word, Word>, table: map<string, Descriptor>, e0: seq<Event>, run: DacRun, c: Consts,
                       ohN: nat, mask: Word, dacSelect: Word)
  {
    Quiesced(m0, table, e0, run, c, ohN, mask) && Armed(table, run, c, ohN, mask, dacSelect)
  }

  /** Blocking L1As and taking the VFATs out of run mode. */
  method DacQuiesce(hw: Hardware, c: Consts, ohN: nat, mask: Word) returns (r: Result<()>, ghost run: DacRun)
    requires Valid(c)
    modifies hw`mem, hw`faults, hw`trace
    ensures hw.mem.Keys == old(hw.mem).Keys
    ensures r.Ok? ==> (Quiesced(old(hw.mem), hw.table, Effects(old(hw.trace)), run, c, ohN, mask) &&
      run.mb == hw.mem && run.eb == Effects(hw.trace))
    ensures r.Err? ==> r.error.RuntimeError?
  {
    run := DacRun(hw.mem, hw.mem, hw.mem, hw.mem, hw.mem, hw.mem, [], [], [], [], [], [], [], []);
    var w := hw.Set(L1A_ENABLE, 0);
    if w.Err? {
      return Err(w.error), run;
    }
    run := run.(ma := hw.mem, ea := Effects(hw.trace));
    r := Optohybrid.BroadcastWrite(hw, c, ohN, "CFG_RUN", 0, mask);
    run := run.(mb := hw.mem, eb := Effects(hw.trace));
  }

  /** Configuring the DAC monitor, leaving slow-control-only mode and putting the VFATs
    * in run mode; run0 holds the memories of the first half. */
  method DacArm(hw: Hardware, c: Consts, ohN: nat, mask: Word, dacSelect: Word, ghost run0: DacRun) returns (r: Result<()>, ghost run: DacRun)
    requires Valid(c) && run0.mb == hw.mem && run0.eb == Effects(hw.trace)
    modifies hw`mem, hw`faults, hw`trace
    ensures hw.mem.Keys == old(hw.mem).Keys
    ensures run.ma == run0.ma && run.mb == run0.mb && run.ea == run0.ea && run.eb == run0.eb
    ensures r.Ok? ==> (Armed(hw.table, run, c, ohN, mask, dacSelect) && run.me == hw.mem && run.ee == Effects(hw.trace))
    ensures r.Err? ==> r.error.RuntimeError?
  {
    run := run0;
    var w, okV, okG := Vfat3.ConfigureVFAT3DACMonitor(hw, c, ohN, mask, dacSelect);
    if w.Err? {
      return Err(w.error), run;
    }
    run := run.(mc := hw.mem, ec := Effects(hw.trace), okV := okV, okG := okG);
    w := hw.Set(Amc.SC_ONLY_MODE, 0);
    if w.Err? {
      return Err(w.error), run;
    }
    run := run.(md := hw.mem, ed := Effects(hw.trace));
    r := Optohybrid.BroadcastWrite(hw, c, ohN, "CFG_RUN", 1, mask);
    run := run.(me := hw.mem, ee := Effects(hw.trace));
  }

  /** The set-up writes of `dacScan`, stopping at the first that throws. */
  method DacSetUp(hw: Hardware, c: Consts, ohN: nat, mask: Word, dacSelect: Word) returns (r: Result<()>, ghost run: DacRun)
    requires Valid(c)
    modifies hw`mem, hw`faults, hw`trace
    ensures hw.mem.Keys == old(hw.mem).Keys
    ensures r.Ok? ==> (DacPrelude(old(hw.mem), hw.table, Effects(old(hw.trace)), run, c, ohN, mask, dacSelect) &&
      run.me == hw.mem && run.ee == Effects(hw.trace))
    ensures r.Err? ==> r.error.RuntimeError?
  {
    r, run := DacQuiesce(hw, c, ohN, mask);
    if r.Err? {
      return;
    }
    ghost var m0, e0 := old(hw.mem), Effects(old(hw.trace));
    assert Quiesced(m0, hw.table, e0, run, c, ohN, mask);
    r, run := DacArm(hw, c, ohN, mask, dacSelect, run);
  }

  /** `dacScan`: the DAC selection must be known and every unmasked VFAT synced; each
    * unmasked VFAT's ADC register is found; the set-up writes are made; then the DAC
    * loop over the vector as written, which completes only when the step divides the
    * range, each word in its cell of the layout; finally the VFATs leave run mode.
    * run records the memories and write logs between the stages. */
  method DacScan(hw: Hardware, c: Consts, ohN: nat, dacSelect: Word, dacStep: Word, vfatMask: Word, ext: bool)
    returns (r: Result<array<Word>>, ghost run: DacRun)
    requires Valid(c) && 0 < dacStep < 0x1_0000
    modifies hw`mem, hw`faults, hw`trace
    ensures hw.mem.Keys == old(hw.mem).Keys
    ensures Calibration.DacSelection(dacSelect).Err? ==> r == Err(RuntimeError(BadArgument)) && hw.mem == old(hw.mem)
    ensures r.Ok? ==> (Calibration.DacSelection(dacSelect).Ok? &&
      Vfat3.LinkReadable(old(hw.mem), hw.table, ohN, c.vfatsPerOh) &&
      Selection.UnmaskedGood(vfatMask, Vfat3.GoodVfats(old(hw.mem), hw.table, ohN, c.vfatsPerOh)) &&
      SourcesFound(hw.table, ohN, vfatMask, ext, c.vfatsPerOh))
    ensures r.Ok? ==> (fresh(r.value) &&
      var (name, lo, hi) := Calibration.DacSelection(dacSelect).value;
      var g := DacScanConf(ohN, vfatMask, name, SourcesOf(hw.table, ohN, vfatMask, ext, c.vfatsPerOh), lo, hi, dacStep);
      Ranged(g) && Divisible(g) && r.value.Length == Size(g) &&
      DacPrelude(old(hw.mem), hw.table, Effects(old(hw.trace)), run, c, ohN, vfatMask, dacSelect) &&
      Performed(run.me, run.mf, hw.table, run.ee, run.ef, LoopPlan(g, Steps(g))) &&
      ColumnsDone(r.value[..], run.me, hw.table, g, Steps(g)) &&
      Readable(run.mf, hw.table, Optohybrid.RELEASE_MAJOR) &&
      Optohybrid.Broadcasted(run.mf, hw.mem, hw.table, run.ef, Effects(hw.trace), c, ohN, "CFG_RUN", 0, vfatMask))
    ensures r.Err? ==> DacError(r.error)
  {
    run := DacRun(hw.mem, hw.mem, hw.mem, hw.mem, hw.mem, hw.mem, [], [], [], [], [], [], [], []);
    var sel := Calibration.DacSelection(dacSelect);
    if sel.Err? {
      return Err(sel.error), run;
    }
    var sync := Vfat3.RequireSynced(hw, c, ohN, vfatMask);
    if sync.Err? {
      return Err(sync.error), run;
    }
    var found := AdcSources(hw, c, ohN, vfatMask, ext);
    if found.Err? {
      return Err(found.error), run;
    }
    var (srcs, cached) := found.value;
    var (name, lo, hi) := sel.value;
    assert srcs == SourcesOf(hw.table, ohN, vfatMask, ext, c.vfatsPerOh);
    var g := DacScanConf(ohN, vfatMask, name, srcs, lo, hi, dacStep);
    r, run := DacScanRun(hw, c, g, cached, dacSelect);
  }

  /** `dacScan` after its checks. */
  method DacScanRun(hw: Hardware, c: Consts, g: DacScanConf, cached: bool, dacSelect: Word) returns (r: Result<array<Word>>, ghost run: DacRun)
    requires Valid(c) && Ranged(g) && |g.srcs| == c.vfatsPerOh
    modifies hw`mem, hw`faults, hw`trace
    ensures hw.mem.Keys == old(hw.mem).Keys
    ensures r.Ok? ==> (fresh(r.value) && Divisible(g) && r.value.Length == Size(g) &&
      DacPrelude(old(hw.mem), hw.table, Effects(old(hw.trace)), run, c, g.ohN, g.mask, dacSelect) &&
      Performed(run.me, run.mf, hw.table, run.ee, run.ef, LoopPlan(g, Steps(g))) &&
      ColumnsDone(r.value[..], run.me, hw.table, g, Steps(g)) &&
      Readable(run.mf, hw.table, Optohybrid.RELEASE_MAJOR) &&
      Optohybrid.Broadcasted(run.mf, hw.mem, hw.table, run.ef, Effects(hw.trace), c, g.ohN, "CFG_RUN", 0, g.mask))
    ensures r.Err? ==> DacError(r.error)
  {
    var s;
    s, run := DacSetUp(hw, c, g.ohN, g.mask, dacSelect);
    if s.Err? {
      return Err(s.error), run;
    }
    r := FillScan(hw, g, cached);
    if r.Err? {
      return;
    }
    run := run.(mf := hw.mem, ef := Effects(hw.trace));
    var w := Optohybrid.BroadcastWrite(hw, c, g.ohN, "CFG_RUN", 0, g.mask);
    if w.Err? {
      return Err(w.error), run;
    }
  }
}
