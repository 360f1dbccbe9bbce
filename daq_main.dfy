/** The read-outs of src/daq_monitor.cpp over fixed registers: getmonTTCmain,
  * getmonDAQmain and getmonSCA. */
module DaqMain {

  import opened Wrappers
  import opened Bits
  import opened Text
  import opened Registers
  import opened Monitoring
  import Amc
  import DaqMonitor
  import opened ScaKeys

  // ---------------------------------------------------------------------------
  // Fixed maps

  /** getmonTTCmain: the clock and TTC status. */
  const TTC_PROBES: seq<Probe> := [
    Probe("MMCM_LOCKED", "GEM_AMC.TTC.STATUS.CLK.MMCM_LOCKED", Field),
    Probe("TTC_SINGLE_ERROR_CNT", "GEM_AMC.TTC.STATUS.TTC_SINGLE_ERROR_CNT", Field),
    Probe("BC0_LOCKED", "GEM_AMC.TTC.STATUS.BC0.LOCKED", Field),
    Probe("L1A_ID", "GEM_AMC.TTC.L1A_ID", Field),
    Probe("L1A_RATE", "GEM_AMC.TTC.L1A_RATE", Field)
  ]

  /** getmonDAQmain: the DAQ status and control, in two parts. */
  const DAQ_FLAGS: seq<Probe> := [
    Probe("DAQ_ENABLE", "GEM_AMC.DAQ.CONTROL.DAQ_ENABLE", Field),
    Probe("DAQ_LINK_READY", "GEM_AMC.DAQ.STATUS.DAQ_LINK_RDY", Field),
    Probe("DAQ_LINK_AFULL", "GEM_AMC.DAQ.STATUS.DAQ_LINK_AFULL", Field),
    Probe("DAQ_OFIFO_HAD_OFLOW", "GEM_AMC.DAQ.STATUS.DAQ_OUTPUT_FIFO_HAD_OVERFLOW", Field),
    Probe("L1A_FIFO_HAD_OFLOW", "GEM_AMC.DAQ.STATUS.L1A_FIFO_HAD_OVERFLOW", Field)
  ]
  const DAQ_COUNTS: seq<Probe> := [
    Probe("L1A_FIFO_DATA_COUNT", "GEM_AMC.DAQ.EXT_STATUS.L1A_FIFO_DATA_CNT", Field),
    Probe("DAQ_FIFO_DATA_COUNT", "GEM_AMC.DAQ.EXT_STATUS.DAQ_FIFO_DATA_CNT", Field),
    Probe("EVENT_SENT", "GEM_AMC.DAQ.EXT_STATUS.EVT_SENT", Field),
    Probe("TTS_STATE", "GEM_AMC.DAQ.STATUS.TTS_STATE", Field),
    Probe("INPUT_ENABLE_MASK", "GEM_AMC.DAQ.CONTROL.INPUT_ENABLE_MASK", Field),
    Probe("INPUT_AUTOKILL_MASK", "GEM_AMC.DAQ.STATUS.INPUT_AUTOKILL_MASK", Field)
  ]
  const DAQ_PROBES: seq<Probe> := DAQ_FLAGS + DAQ_COUNTS

  lemma TtcDistinct()
    ensures DistinctKeys(TTC_PROBES)
  {
  }

  lemma FlagsDistinct()
    ensures DistinctKeys(DAQ_FLAGS)
  {
  }

  lemma CountsDistinct()
    ensures DistinctKeys(DAQ_COUNTS)
  {
  }

  lemma DaqPartsApart(i: nat)
    requires i < 5
    ensures forall j :: 0 <= j < 6 ==> DAQ_FLAGS[i].key != DAQ_COUNTS[j].key
  {
  }

  /** Probes with distinct keys on both sides of a join, and no key on both. */
  lemma DistinctJoin(a: seq<Probe>, b: seq<Probe>)
    requires DistinctKeys(a) && DistinctKeys(b)
    requires forall i, j :: 0 <= i < |a| && 0 <= j < |b| ==> a[i].key != b[j].key
    ensures DistinctKeys(a + b)
  {
    var c := a + b;
    forall i, j | 0 <= i < j < |c|
      ensures c[i].key != c[j].key
    {
      if j < |a| {
        assert c[i] == a[i] && c[j] == a[j];
      } else if i < |a| {
        assert c[i] == a[i] && c[j] == b[j - |a|];
      } else {
        assert c[i] == b[i - |a|] && c[j] == b[j - |a|];
      }
    }
  }

  lemma DaqDistinct()
    ensures DistinctKeys(DAQ_PROBES) && |DAQ_PROBES| == 11
  {
    FlagsDistinct();
    CountsDistinct();
    forall i | 0 <= i < 5
      ensures forall j :: 0 <= j < 6 ==> DAQ_FLAGS[i].key != DAQ_COUNTS[j].key
    {
      DaqPartsApart(i);
    }
    DistinctJoin(DAQ_FLAGS, DAQ_COUNTS);
  }

  /** A map of fixed probes with distinct keys has one entry per probe, each key
    * holding its register's value. */
  lemma FixedMap(mem: map<Word, Word>, table: map<string, Descriptor>, ps: seq<Probe>, i: nat)
    requires DistinctKeys(ps) && i < |ps| && ps[i].decode == Field && ProbeReadable(mem, table, ps[i])
    ensures |LinkValues(mem, table, ps)| == |ps|
    ensures ps[i].key in LinkValues(mem, table, ps)
    ensures LinkValues(mem, table, ps)[ps[i].key] == RegValue(mem, table, ps[i].reg)
  {
    KeysOfCount(ps);
    LinkValuesAt(mem, table, ps, i);
  }

  method GetmonTtc(hw: Hardware) returns (r: Result<map<string, Word>>)
    modifies hw`faults, hw`trace
    ensures r.Ok? ==> ProbesReadable(hw.mem, hw.table, TTC_PROBES) && r.value == LinkValues(hw.mem, hw.table, TTC_PROBES)
    ensures r.Err? ==> r.error.RuntimeError?
    ensures Effects(hw.trace) == Effects(old(hw.trace))
  {
    r := ReadProbes(hw, TTC_PROBES);
  }

  method GetmonDaq(hw: Hardware) returns (r: Result<map<string, Word>>)
    modifies hw`faults, hw`trace
    ensures r.Ok? ==> ProbesReadable(hw.mem, hw.table, DAQ_PROBES) && r.value == LinkValues(hw.mem, hw.table, DAQ_PROBES)
    ensures r.Err? ==> r.error.RuntimeError?
    ensures Effects(hw.trace) == Effects(old(hw.trace))
  {
    r := ReadProbes(hw, DAQ_PROBES);
  }

  /** The TTC map has five entries, each holding its register. */
  lemma TtcMap(mem: map<Word, Word>, table: map<string, Descriptor>, i: nat)
    requires i < 5 && ProbesReadable(mem, table, TTC_PROBES)
    ensures |LinkValues(mem, table, TTC_PROBES)| == 5
    ensures TTC_PROBES[i].key in LinkValues(mem, table, TTC_PROBES)
    ensures LinkValues(mem, table, TTC_PROBES)[TTC_PROBES[i].key] == RegValue(mem, table, TTC_PROBES[i].reg)
  {
    TtcDistinct();
    FixedMap(mem, table, TTC_PROBES, i);
  }

  /** The DAQ map has eleven entries, each holding its register. */
  lemma DaqMap(mem: map<Word, Word>, table: map<string, Descriptor>, i: nat)
    requires i < 11 && ProbesReadable(mem, table, DAQ_PROBES)
    ensures |LinkValues(mem, table, DAQ_PROBES)| == 11
    ensures DAQ_PROBES[i].key in LinkValues(mem, table, DAQ_PROBES)
    ensures LinkValues(mem, table, DAQ_PROBES)[DAQ_PROBES[i].key] == RegValue(mem, table, DAQ_PROBES[i].reg)
  {
    DaqDistinct();
    FixedMap(mem, table, DAQ_PROBES, i);
  }

  // ---------------------------------------------------------------------------
  // getmonSCA

  const SCA_READY: string := "GEM_AMC.SLOW_CONTROL.SCA.STATUS.READY"
  const SCA_CRITICAL: string := "GEM_AMC.SLOW_CONTROL.SCA.STATUS.CRITICAL_ERROR"
  /** The register the loop reads on every pass, whatever the link. */
  const SCA_NOT_READY: string := "GEM_AMC.SLOW_CONTROL.SCA.STATUS.NOT_READY_CNT_OH"

  /** The two status entries. */
  function ScaStatus(ready: Word, critical: Word): map<string, Word>
  {
    map[READY_KEY := ready, CRITICAL_KEY := critical]
  }

  /** getmonSCA as written: every pass of the link loop stores the same key, so the
    * map holds one counter at most. */
  function ScaAsWritten(ready: Word, critical: Word, notReady: Word, supOH: nat): map<string, Word>
  {
    if supOH == 0 then ScaStatus(ready, critical)
    else ScaStatus(ready, critical)[COUNTER_KEY := notReady]
  }

  method GetmonScaAsWritten(hw: Hardware) returns (r: Result<map<string, Word>>)
    modifies hw`faults, hw`trace
    ensures r.Ok? ==> Readable(hw.mem, hw.table, Amc.NUM_OF_OH) && Readable(hw.mem, hw.table, SCA_READY) &&
                      Readable(hw.mem, hw.table, SCA_CRITICAL) &&
                      (RegValue(hw.mem, hw.table, Amc.NUM_OF_OH) > 0 ==> Readable(hw.mem, hw.table, SCA_NOT_READY))
    ensures r.Ok? ==> var n := RegValue(hw.mem, hw.table, Amc.NUM_OF_OH);
                      r.value == ScaAsWritten(RegValue(hw.mem, hw.table, SCA_READY), RegValue(hw.mem, hw.table, SCA_CRITICAL),
                                              if n > 0 then RegValue(hw.mem, hw.table, SCA_NOT_READY) else 0, n)
    ensures r.Err? ==> r.error.RuntimeError?
    ensures Effects(hw.trace) == Effects(old(hw.trace))
  {
    var supOH := hw.Get(Amc.NUM_OF_OH);
    if supOH.Err? {
      return Err(supOH.error);
    }
    var ready := hw.Get(SCA_READY);
    if ready.Err? {
      return Err(ready.error);
    }
    var critical := hw.Get(SCA_CRITICAL);
    if critical.Err? {
      return Err(critical.error);
    }
    var out := ScaStatus(ready.value, critical.value);
    var i := 0;
    while i < supOH.value
      invariant i <= supOH.value
      invariant i > 0 ==> Readable(hw.mem, hw.table, SCA_NOT_READY)
      invariant Effects(hw.trace) == Effects(old(hw.trace))
      invariant out == ScaAsWritten(ready.value, critical.value, if i > 0 then RegValue(hw.mem, hw.table, SCA_NOT_READY) else 0, i)
    {
      var x := hw.Get(SCA_NOT_READY);
      if x.Err? {
        return Err(x.error);
      }
      out := out[COUNTER_KEY := x.value];
      i := i + 1;
    }
    r := Ok(out);
  }

  /** As written, the map never holds more than three entries: with two or more links
    * the per-link counters are lost. */
  lemma ScaAsWrittenLoses(ready: Word, critical: Word, notReady: Word, supOH: nat)
    ensures |ScaAsWritten(ready, critical, notReady, supOH)| == (if supOH == 0 then 2 else 3)
    ensures supOH >= 2 ==> |ScaAsWritten(ready, critical, notReady, supOH)| < 2 + supOH
  {
    ScaKeys.StatusKeysApart();
    var m := ScaStatus(ready, critical);
    assert m.Keys == {READY_KEY, CRITICAL_KEY};
    if supOH > 0 {
      assert ScaAsWritten(ready, critical, notReady, supOH).Keys == m.Keys + {COUNTER_KEY};
    }
  }

  /** getmonSCA as intended: the status, and link i's counter under its own key
    * `SCA.STATUS.NOT_READY_CNT_OH<i>` from its own register. */
  method GetmonSca(hw: Hardware) returns (r: Result<map<string, Word>>)
    modifies hw`faults, hw`trace
    ensures r.Ok? ==> Readable(hw.mem, hw.table, Amc.NUM_OF_OH) && Readable(hw.mem, hw.table, SCA_READY) &&
                      Readable(hw.mem, hw.table, SCA_CRITICAL) &&
                      var n := RegValue(hw.mem, hw.table, Amc.NUM_OF_OH);
                      DaqMonitor.GetmonReadable(hw.mem, hw.table, DaqMonitor.NotReady, 0, n) &&
                      r.value == ScaStatus(RegValue(hw.mem, hw.table, SCA_READY), RegValue(hw.mem, hw.table, SCA_CRITICAL)) +
                                 DaqMonitor.Getmon(hw.mem, hw.table, DaqMonitor.NotReady, 0, n)
    ensures r.Err? ==> r.error.RuntimeError?
    ensures Effects(hw.trace) == Effects(old(hw.trace))
  {
    var supOH := hw.Get(Amc.NUM_OF_OH);
    if supOH.Err? {
      return Err(supOH.error);
    }
    var ready := hw.Get(SCA_READY);
    if ready.Err? {
      return Err(ready.error);
    }
    var critical := hw.Get(SCA_CRITICAL);
    if critical.Err? {
      return Err(critical.error);
    }
    DaqMonitor.LayoutsUniform(DaqMonitor.NotReady);
    var links := MonitorLinks(hw, (fw: Word) => DaqMonitor.LayoutOf(DaqMonitor.NotReady, fw),
                              DaqMonitor.SweepOf(DaqMonitor.NotReady), 0, supOH.value);
    if links.Err? {
      return Err(links.error);
    }
    r := Ok(ScaStatus(ready.value, critical.value) + links.value);
  }

  /** As intended, the map holds the two status entries and one counter per link. */
  lemma ScaMap(mem: map<Word, Word>, table: map<string, Descriptor>, ready: Word, critical: Word, n: nat)
    ensures var t := ScaStatus(ready, critical) + DaqMonitor.Getmon(mem, table, DaqMonitor.NotReady, 0, n);
      |t| == 2 + n && t[READY_KEY] == ready && t[CRITICAL_KEY] == critical
  {
    var g := DaqMonitor.Getmon(mem, table, DaqMonitor.NotReady, 0, n);
    var s := ScaStatus(ready, critical);
    DaqMonitor.NotReadyKeys(mem, table, n);
    ScaKeys.StatusKeysApart();
    assert s.Keys == {READY_KEY, CRITICAL_KEY};
    DisjointCount(g.Keys, s.Keys);
    assert (s + g).Keys == s.Keys + g.Keys;
  }
}
