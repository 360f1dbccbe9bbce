/** The system-monitor read-out of getmonOHSysmon on v3 firmware
  * (src/daq_monitor.cpp), which writes a link's ADC control registers while it reads
  * them: an optional reset of the alarm counters, the six alarms, then the ADC is
  * enabled, each sensor is selected by its address and read, and the ADC is disabled. */
module SysmonV3 {

  import opened Wrappers
  import opened Bits
  import opened Text
  import opened Registers
  import opened Monitoring

  /** The alarms, then the sensors, of a link. */
  const V3_TAILS: seq<string> :=
    [".OVERTEMP", ".CNT_OVERTEMP", ".VCCAUX_ALARM", ".CNT_VCCAUX_ALARM", ".VCCINT_ALARM", ".CNT_VCCINT_ALARM",
     ".FPGA_CORE_TEMP", ".FPGA_CORE_1V0", ".FPGA_CORE_2V5_IO"]

  /** Key i of link oh is `OH<oh>` and tail i; it is read from the link's ADC control
    * block, the alarms as plain fields and the sensors as `(x >> 6) & 0x3ff`. */
  const V3_LAYOUT: Layout :=
    Layout("OH", V3_TAILS,
           [
            ("GEM_AMC.OH.OHOH", ".FPGA.ADC.CTRL.OVERTEMP"),
            ("GEM_AMC.OH.OHOH", ".FPGA.ADC.CTRL.CNT_OVERTEMP"),
            ("GEM_AMC.OH.OHOH", ".FPGA.ADC.CTRL.VCCAUX_ALARM"),
            ("GEM_AMC.OH.OHOH", ".FPGA.ADC.CTRL.CNT_VCCAUX_ALARM"),
            ("GEM_AMC.OH.OHOH", ".FPGA.ADC.CTRL.VCCINT_ALARM"),
            ("GEM_AMC.OH.OHOH", ".FPGA.ADC.CTRL.CNT_VCCINT_ALARM"),
            ("GEM_AMC.OH.OHOH", ".FPGA.ADC.CTRL.FPGA_CORE_TEMP"),
            ("GEM_AMC.OH.OHOH", ".FPGA.ADC.CTRL.FPGA_CORE_1V0"),
            ("GEM_AMC.OH.OHOH", ".FPGA.ADC.CTRL.FPGA_CORE_2V5_IO")
           ],
           [Field, Field, Field, Field, Field, Field, Sysmon, Sysmon, Sysmon])

  lemma V3Sound()
    ensures V3Shaped(V3_LAYOUT)
  {
  }

  /** The shape the loop needs: nine distinct keys per link. */
  predicate V3Shaped(lay: Layout)
  {
    WellLaid(lay) && |lay.tails| == 9
  }

  /** The ADC control block of link oh, `"GEM_AMC.OH.OH" + keyName + ".FPGA.ADC.CTRL"`. */
  function AdcCtrl(oh: nat): string
  {
    "GEM_AMC.OH.OHOH" + Dec(oh) + ".FPGA.ADC.CTRL"
  }

  function Offset(doReset: bool): nat
  {
    if doReset then 1 else 0
  }

  /** Step j of a selected link: RESET = 1 when doReset is set, the six alarm reads,
    * ENABLE = 1, then for each sensor k in turn ADR_IN = k and the sensor's read, then
    * ENABLE = 0. */
  function ScriptStep(lay: Layout, oh: nat, doReset: bool, j: nat): Step
    requires V3Shaped(lay)
  {
    StepAfter(lay, oh, j - Offset(doReset), j < Offset(doReset))
  }

  /** Step q after the optional reset, or the reset itself. */
  function StepAfter(lay: Layout, oh: nat, q: int, reset: bool): Step
    requires V3Shaped(lay)
  {
    if reset then Put(AdcCtrl(oh) + ".RESET", 1)
    else if 0 <= q < 6 then Take(LProbe(lay, oh, q))
    else if q == 6 then Put(AdcCtrl(oh) + ".ENABLE", 1)
    else if 6 < q < 13 && (q - 7) % 2 == 0 then Put(AdcCtrl(oh) + ".ADR_IN", (q - 7) / 2)
    else if 6 < q < 13 then Take(LProbe(lay, oh, 6 + (q - 7) / 2))
    else Put(AdcCtrl(oh) + ".ENABLE", 0)
  }

  /** The steps of a selected link, in order. */
  function Script(lay: Layout, oh: nat, doReset: bool): (ss: seq<Step>)
    requires V3Shaped(lay)
    ensures |ss| == Offset(doReset) + 14
  {
    seq(Offset(doReset) + 14, j requires 0 <= j => ScriptStep(lay, oh, doReset, j))
  }

  /** Where read i of the layout sits in the script. */
  function ReadAt(doReset: bool, i: nat): nat
  {
    Offset(doReset) + (if i < 6 then i else 2 * i - 4)
  }

  /** Which read of the layout step j is. */
  function ReadIndex(doReset: bool, j: nat): int
  {
    if j < Offset(doReset) + 6 then j - Offset(doReset) else 6 + (j - Offset(doReset) - 7) / 2
  }

  /** The reads of the script are the nine probes of the layout, each sensor read right
    * after the ADR_IN write that selects the sensor, and the script ends with
    * ENABLE = 0. */
  lemma ScriptShape(lay: Layout, oh: nat, doReset: bool, i: nat)
    requires V3Shaped(lay) && i < 9
    ensures ReadAt(doReset, i) < |Script(lay, oh, doReset)|
    ensures Script(lay, oh, doReset)[ReadAt(doReset, i)] == Take(LProbe(lay, oh, i))
    ensures 6 <= i ==> Script(lay, oh, doReset)[ReadAt(doReset, i) - 1] == Put(AdcCtrl(oh) + ".ADR_IN", i - 6)
    ensures Script(lay, oh, doReset)[|Script(lay, oh, doReset)| - 1] == Put(AdcCtrl(oh) + ".ENABLE", 0)
  {
    if 6 <= i {
      var q := ReadAt(doReset, i) - Offset(doReset) - 7;
      assert q == 2 * (i - 6) + 1;
      assert q % 2 == 1 && q / 2 == i - 6;
      var p := q - 1;
      assert p % 2 == 0 && p / 2 == i - 6;
    }
  }

  /** Every read of the script is one of the layout's, at its place. */
  lemma ScriptReads(lay: Layout, oh: nat, doReset: bool, j: nat)
    requires V3Shaped(lay) && j < |Script(lay, oh, doReset)| && Script(lay, oh, doReset)[j].Take?
    ensures 0 <= ReadIndex(doReset, j) < 9 && ReadAt(doReset, ReadIndex(doReset, j)) == j
    ensures Script(lay, oh, doReset)[j] == Take(LProbe(lay, oh, ReadIndex(doReset, j)))
  {
    var d := Offset(doReset);
    if d + 6 <= j {
      var q := j - d - 7;
      assert q % 2 == 1;
      assert 2 * (q / 2) + 1 == q;
    }
  }

  lemma ScriptDistinct(lay: Layout, oh: nat, doReset: bool)
    requires V3Shaped(lay)
    ensures DistinctTakes(Script(lay, oh, doReset))
  {
    var ss := Script(lay, oh, doReset);
    forall i, j | 0 <= i < j < |ss| && ss[i].Take? && ss[j].Take?
      ensures ss[i].probe.key != ss[j].probe.key
    {
      ScriptReads(lay, oh, doReset, i);
      ScriptReads(lay, oh, doReset, j);
      var a, b := ReadIndex(doReset, i), ReadIndex(doReset, j);
      assert a != b;
      if a < b {
        assert lay.tails[a] != lay.tails[b];
      } else {
        assert lay.tails[b] != lay.tails[a];
      }
      KeysDiffer(lay.prefix, oh, oh, lay.tails[a], lay.tails[b]);
    }
  }

  /** The script fills exactly the link's keys. */
  lemma ScriptKeys(lay: Layout, oh: nat, doReset: bool)
    requires V3Shaped(lay)
    ensures TakeKeys(Script(lay, oh, doReset)) == LinkKeys(lay, oh)
  {
    var ss := Script(lay, oh, doReset);
    forall k | k in TakeKeys(ss)
      ensures k in LinkKeys(lay, oh)
    {
      var j :| 0 <= j < |ss| && ss[j].Take? && ss[j].probe.key == k;
      ScriptReads(lay, oh, doReset, j);
    }
    forall k | k in LinkKeys(lay, oh)
      ensures k in TakeKeys(ss)
    {
      var i :| 0 <= i < 9 && k == LKey(lay, oh, i);
      ScriptShape(lay, oh, doReset, i);
    }
  }

  // ---------------------------------------------------------------------------
  // The loop over links

  /** What the loop has done so far: whether every step could be made, the map, the
    * memory and the writes. */
  datatype Outcome = Outcome(ok: bool, values: map<string, Word>, mem: map<Word, Word>, writes: seq<(string, Word)>)

  /** The links below n one after the other: a masked link fills its nine keys with
    * 0xdeaddead, a selected one runs its script on the memory the links before it
    * left. */
  function SysmonRun(mem: map<Word, Word>, table: map<string, Descriptor>, lay: Layout, ohMask: nat, doReset: bool, n: nat): (o: Outcome)
    requires V3Shaped(lay)
    ensures o.mem.Keys == mem.Keys
    decreases n
  {
    if n == 0 then Outcome(true, map[], mem, [])
    else LinkStep(SysmonRun(mem, table, lay, ohMask, doReset, n - 1), table, lay, ohMask, doReset, n - 1)
  }

  /** Link oh after the links before it. */
  function LinkStep(o: Outcome, table: map<string, Descriptor>, lay: Layout, ohMask: nat, doReset: bool, oh: nat): (o': Outcome)
    requires V3Shaped(lay)
    ensures o'.mem.Keys == o.mem.Keys
  {
    if !Bit(ohMask, oh) then Outcome(o.ok, o.values + Placeholders(LinkKeys(lay, oh)), o.mem, o.writes)
    else
      Outcome(o.ok && RunOk(o.mem, table, Script(lay, oh, doReset)), o.values + RunValues(o.mem, table, Script(lay, oh, doReset)),
              RunMem(o.mem, table, Script(lay, oh, doReset)), o.writes + RunWrites(Script(lay, oh, doReset)))
  }

  /** What link oh adds to the map. */
  function SysmonPart(mem: map<Word, Word>, table: map<string, Descriptor>, lay: Layout, ohMask: nat, doReset: bool, oh: nat): map<string, Word>
    requires V3Shaped(lay)
  {
    if !Bit(ohMask, oh) then Placeholders(LinkKeys(lay, oh))
    else RunValues(SysmonRun(mem, table, lay, ohMask, doReset, oh).mem, table, Script(lay, oh, doReset))
  }

  lemma SysmonPartKeys(mem: map<Word, Word>, table: map<string, Descriptor>, lay: Layout, ohMask: nat, doReset: bool, oh: nat)
    requires V3Shaped(lay)
    ensures SysmonPart(mem, table, lay, ohMask, doReset, oh).Keys == LinkKeys(lay, oh)
  {
    if Bit(ohMask, oh) {
      RunValuesKeys(SysmonRun(mem, table, lay, ohMask, doReset, oh).mem, table, Script(lay, oh, doReset));
      ScriptKeys(lay, oh, doReset);
    }
  }

  /** Every link of the loop is visited, so its keys are those of a filling sweep. */
  const FILLING := Sweep(false, true, false)

  /** One more link adds its part to the map. */
  lemma SysmonRunNext(mem: map<Word, Word>, table: map<string, Descriptor>, lay: Layout, ohMask: nat, doReset: bool, n: nat)
    requires V3Shaped(lay) && n > 0
    ensures SysmonRun(mem, table, lay, ohMask, doReset, n).values ==
            SysmonRun(mem, table, lay, ohMask, doReset, n - 1).values + SysmonPart(mem, table, lay, ohMask, doReset, n - 1)
  {
  }

  lemma {:induction false} SysmonSpan(mem: map<Word, Word>, table: map<string, Descriptor>, lay: Layout, ohMask: nat, doReset: bool, n: nat)
    requires V3Shaped(lay)
    ensures SysmonRun(mem, table, lay, ohMask, doReset, n).values.Keys == KeySpan(lay, FILLING, ohMask, n)
    decreases n
  {
    if n > 0 {
      SysmonSpan(mem, table, lay, ohMask, doReset, n - 1);
      SysmonPartKeys(mem, table, lay, ohMask, doReset, n - 1);
      SysmonRunNext(mem, table, lay, ohMask, doReset, n);
    }
  }

  /** The map holds nine keys per link of the loop, and no others. */
  lemma SysmonKeys(mem: map<Word, Word>, table: map<string, Descriptor>, lay: Layout, ohMask: nat, doReset: bool, n: nat, k: string)
    requires V3Shaped(lay)
    ensures k in SysmonRun(mem, table, lay, ohMask, doReset, n).values <==>
            exists oh, i :: 0 <= oh < n && 0 <= i < 9 && k == lay.prefix + Dec(oh) + lay.tails[i]
    ensures |SysmonRun(mem, table, lay, ohMask, doReset, n).values| == 9 * n
  {
    SysmonSpan(mem, table, lay, ohMask, doReset, n);
    KeySpanHas(lay, FILLING, ohMask, n, k);
    KeySpanCount(lay, FILLING, ohMask, n);
    EntriesVisited(FILLING, ohMask, n, 9);
  }

  /** Link oh's entries survive the later links. */
  lemma {:induction false} SysmonAt(mem: map<Word, Word>, table: map<string, Descriptor>, lay: Layout, ohMask: nat, doReset: bool,
                                    n: nat, oh: nat, i: nat)
    requires V3Shaped(lay) && oh < n && i < 9
    ensures LKey(lay, oh, i) in SysmonRun(mem, table, lay, ohMask, doReset, n).values
    ensures LKey(lay, oh, i) in SysmonPart(mem, table, lay, ohMask, doReset, oh)
    ensures SysmonRun(mem, table, lay, ohMask, doReset, n).values[LKey(lay, oh, i)] ==
            SysmonPart(mem, table, lay, ohMask, doReset, oh)[LKey(lay, oh, i)]
    decreases n
  {
    var a := SysmonRun(mem, table, lay, ohMask, doReset, n - 1).values;
    var b := SysmonPart(mem, table, lay, ohMask, doReset, n - 1);
    SysmonRunNext(mem, table, lay, ohMask, doReset, n);
    var k := LKey(lay, oh, i);
    SysmonPartKeys(mem, table, lay, ohMask, doReset, n - 1);
    if oh < n - 1 {
      SysmonAt(mem, table, lay, ohMask, doReset, n - 1, oh, i);
      OtherLink(lay, oh, n - 1, i);
      MapLeft(a, b, k);
    } else {
      MapRight(a, b, k);
    }
  }

  /** A masked link's nine keys hold 0xdeaddead. */
  lemma SysmonMasked(mem: map<Word, Word>, table: map<string, Descriptor>, lay: Layout, ohMask: nat, doReset: bool, n: nat, oh: nat, i: nat)
    requires V3Shaped(lay) && oh < n && i < 9 && !Bit(ohMask, oh)
    ensures LKey(lay, oh, i) in SysmonRun(mem, table, lay, ohMask, doReset, n).values
    ensures SysmonRun(mem, table, lay, ohMask, doReset, n).values[LKey(lay, oh, i)] == DEAD
  {
    SysmonAt(mem, table, lay, ohMask, doReset, n, oh, i);
  }

  /** A selected link's key i holds its register read after the steps of the script
    * before it, for a sensor right after the ADR_IN write that selects it. */
  lemma SysmonRead(mem: map<Word, Word>, table: map<string, Descriptor>, lay: Layout, ohMask: nat, doReset: bool, n: nat, oh: nat, i: nat)
    requires V3Shaped(lay) && oh < n && i < 9 && Bit(ohMask, oh)
    ensures LKey(lay, oh, i) in SysmonRun(mem, table, lay, ohMask, doReset, n).values
    ensures var ss := Script(lay, oh, doReset);
      var j := ReadAt(doReset, i);
      j < |ss| &&
      SysmonRun(mem, table, lay, ohMask, doReset, n).values[LKey(lay, oh, i)] ==
        ProbeValue(RunMem(SysmonRun(mem, table, lay, ohMask, doReset, oh).mem, table, ss[..j]), table, LProbe(lay, oh, i)) &&
      (6 <= i ==> ss[j - 1] == Put(AdcCtrl(oh) + ".ADR_IN", i - 6))
  {
    var before := SysmonRun(mem, table, lay, ohMask, doReset, oh).mem;
    var ss := Script(lay, oh, doReset);
    var j := ReadAt(doReset, i);
    SysmonAt(mem, table, lay, ohMask, doReset, n, oh, i);
    ScriptShape(lay, oh, doReset, i);
    ScriptDistinct(lay, oh, doReset);
    RunValuesAt(before, table, ss, j);
  }

  /** A selected link that ran to the end leaves its ADC disabled. */
  lemma SysmonDisables(mem: map<Word, Word>, table: map<string, Descriptor>, lay: Layout, ohMask: nat, doReset: bool, oh: nat)
    requires V3Shaped(lay) && Bit(ohMask, oh) && SysmonRun(mem, table, lay, ohMask, doReset, oh + 1).ok
    ensures Mapped(mem.Keys, table, AdcCtrl(oh) + ".ENABLE")
    ensures RegValue(SysmonRun(mem, table, lay, ohMask, doReset, oh + 1).mem, table, AdcCtrl(oh) + ".ENABLE") == 0
  {
    var before := SysmonRun(mem, table, lay, ohMask, doReset, oh).mem;
    var ss := Script(lay, oh, doReset);
    var last := |ss| - 1;
    var reg := AdcCtrl(oh) + ".ENABLE";
    ScriptShape(lay, oh, doReset, 0);
    assert ss[..last + 1] == ss;
    RunPrefix(before, table, ss, last);
    var prev := RunMem(before, table, ss[..last]);
    assert StepOk(prev, table, ss[last]);
    ReadAfterWrite(prev, table, reg, 0);
  }

  /** Once a step fails, the loop stays failed. */
  lemma {:induction false} SysmonOkBelow(mem: map<Word, Word>, table: map<string, Descriptor>, lay: Layout, ohMask: nat, doReset: bool,
                                         m: nat, n: nat)
    requires V3Shaped(lay) && m <= n && SysmonRun(mem, table, lay, ohMask, doReset, n).ok
    ensures SysmonRun(mem, table, lay, ohMask, doReset, m).ok
    decreases n
  {
    if m < n {
      SysmonOkBelow(mem, table, lay, ohMask, doReset, m, n - 1);
    }
  }

  /** The loop over the links below supOH, stopping at the first register that throws. */
  method SysmonLinks(hw: Hardware, lay: Layout, ohMask: nat, doReset: bool, supOH: nat) returns (r: Result<map<string, Word>>)
    requires V3Shaped(lay)
    modifies hw`mem, hw`faults, hw`trace
    ensures hw.mem.Keys == old(hw.mem).Keys
    ensures r.Ok? ==> var o := SysmonRun(old(hw.mem), hw.table, lay, ohMask, doReset, supOH);
                      o.ok && r.value == o.values && hw.mem == o.mem &&
                      Effects(hw.trace) == Effects(old(hw.trace)) + WritesOf(o.writes)
    ensures r.Err? ==> r.error.RuntimeError?
  {
    ghost var m0, tbl := hw.mem, hw.table;
    ghost var e0 := Effects(hw.trace);
    ghost var cur := SysmonRun(m0, tbl, lay, ohMask, doReset, 0);
    var out: map<string, Word> := map[];
    var oh := 0;
    while oh < supOH
      invariant oh <= supOH && hw.table == tbl
      invariant cur == SysmonRun(m0, tbl, lay, ohMask, doReset, oh)
      invariant cur.ok && out == cur.values && hw.mem == cur.mem
      invariant Effects(hw.trace) == e0 + WritesOf(cur.writes)
    {
      if !Bit(ohMask, oh) {
        out := out + Placeholders(LinkKeys(lay, oh));
      } else {
        var ss := Script(lay, oh, doReset);
        var x := RunSteps(hw, ss);
        if x.Err? {
          return Err(x.error);
        }
        out := out + x.value;
        WritesOfAppend(cur.writes, RunWrites(ss));
        Associative(e0, WritesOf(cur.writes), WritesOf(RunWrites(ss)));
      }
      cur := LinkStep(cur, tbl, lay, ohMask, doReset, oh);
      oh := oh + 1;
    }
    r := Ok(out);
  }
}
