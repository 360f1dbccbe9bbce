/** The `getmon…` read-outs of src/daq_monitor.cpp, each an instance of the link loop
  * of `Monitoring` with its own key tails and registers, and the read-outs that do
  * more: the trigger rate summed over links, the MONITORING_OFF save and restore of
  * the SCA read-out, the system-monitor sequence of v3 firmware that writes while it
  * reads, the SCA status map and the register dump.
  *
  * The file read by getmonCTP7dump is given to the model as its list of lines. */
module DaqMonitor {

  import opened Wrappers
  import opened Bits
  import opened Packing
  import opened Text
  import opened Registers
  import opened Monitoring
  import Amc
  import Sca
  import HwConstants
  import SysmonV3
  import ScaKeys

  // ---------------------------------------------------------------------------
  // The key tails and registers of each read-out

  const TRIGGER_LINK_FIELDS: seq<string> :=
    [".LINK0_MISSED_COMMA_CNT", ".LINK1_MISSED_COMMA_CNT", ".LINK0_OVERFLOW_CNT", ".LINK1_OVERFLOW_CNT",
     ".LINK0_UNDERFLOW_CNT", ".LINK1_UNDERFLOW_CNT", ".LINK0_SBIT_OVERFLOW_CNT", ".LINK1_SBIT_OVERFLOW_CNT"]
  const DAQ_LINK_FIELDS: seq<string> :=
    [".STATUS.EVT_SIZE_ERR", ".STATUS.EVENT_FIFO_HAD_OFLOW", ".STATUS.INPUT_FIFO_HAD_OFLOW",
     ".STATUS.INPUT_FIFO_HAD_UFLOW", ".STATUS.VFAT_TOO_MANY", ".STATUS.VFAT_NO_MARKER"]
  const OH_FIELDS: seq<string> :=
    [".FW_VERSION", ".EVENT_COUNTER", ".EVENT_RATE", ".GTX.TRK_ERR", ".GTX.TRG_ERR", ".GBT.TRK_ERR",
     ".CORR_VFAT_BLK_CNT", ".COUNTERS.SEU", ".STATUS.SEU"]
  /** The registers of OH_FIELDS after the first: block before the link name, tail after it. */
  const OH_REGS: seq<(string, string)> :=
    [("GEM_AMC.DAQ.", ".COUNTERS.EVN"), ("GEM_AMC.DAQ.", ".COUNTERS.EVT_RATE"),
     ("GEM_AMC.OH.", ".COUNTERS.GTX_LINK.TRK_ERR"), ("GEM_AMC.OH.", ".COUNTERS.GTX_LINK.TRG_ERR"),
     ("GEM_AMC.OH.", ".COUNTERS.GBT_LINK.TRK_ERR"), ("GEM_AMC.DAQ.", ".COUNTERS.CORRUPT_VFAT_BLK_CNT"),
     ("GEM_AMC.OH.", ".COUNTERS.SEU"), ("GEM_AMC.OH.", ".STATUS.SEU")]
  const SCA_FIELDS: seq<string> :=
    [".SCA_TEMP", ".BOARD_TEMP1", ".BOARD_TEMP2", ".BOARD_TEMP3", ".BOARD_TEMP4", ".BOARD_TEMP5",
     ".BOARD_TEMP6", ".BOARD_TEMP7", ".BOARD_TEMP8", ".BOARD_TEMP9", ".AVCCN", ".AVTTN", ".1V0_INT",
     ".1V8F", ".1V5", ".2V5_IO", ".3V0", ".1V8", ".VTRX_RSSI2", ".VTRX_RSSI1"]
  const SYSMON_SENSORS: seq<string> := [".FPGA_CORE_TEMP", ".FPGA_CORE_1V0", ".FPGA_CORE_2V5_IO"]
  const SYSMON_ALARMS: seq<string> :=
    [".OVERTEMP", ".CNT_OVERTEMP", ".VCCAUX_ALARM", ".CNT_VCCAUX_ALARM", ".VCCINT_ALARM", ".CNT_VCCINT_ALARM"]
  const GBT_KEYS: seq<string> := [".READY", ".WAS_NOT_READY", ".RX_HAD_OVERFLOW", ".RX_HAD_UNDERFLOW"]
  const GBT_REGS: seq<string> := ["_READY", "_WAS_NOT_READY", "_RX_HAD_OVERFLOW", "_RX_HAD_UNDERFLOW"]
  const VFAT_FIELDS: seq<string> := [".SYNC_ERR_CNT", ".DAQ_EVENT_CNT", ".DAQ_CRC_ERROR_CNT"]

  /** The read-outs that visit the links one by one. */
  datatype Monitor =
    | TriggerRates           // getmonTRIGGERmain: selected links only
    | TriggerLinks           // getmonTRIGGEROHmain
    | DaqLinks               // getmonDAQOHmain
    | OhStatus               // getmonOHmain
    | ScaAdc                 // getmonOHSCAmain
    | SysmonAdc              // getmonOHSysmon on v2B firmware
    | GbtLinks(gbts: nat)    // getmonGBTLink: every link, `gbts` GBTs each
    | VfatLinks(vfats: nat)  // getmonVFATLink: every link, `vfats` VFATs each
    | NotReady               // getmonSCA's per-link counters, as intended

  /** How the loop of each read-out treats the links: getmonGBTLink, getmonVFATLink
    * and getmonSCA have no mask; getmonTRIGGERmain skips a masked link; the others
    * store placeholders for it; getmonOHmain checks the release before a link. */
  function SweepOf(m: Monitor): Sweep
  {
    var every := m.GbtLinks? || m.VfatLinks? || m.NotReady?;
    Sweep(every, !m.TriggerRates? && !every, m.OhStatus?)
  }

  function KeyPrefix(m: Monitor): string
  {
    if m.NotReady? then ScaKeys.COUNTER_KEY else "OH"
  }

  /** The key tails of one link, after its number. */
  function Fields(m: Monitor): seq<string>
  {
    match m
    case TriggerRates => [".TRIGGER_RATE"]
    case TriggerLinks => TRIGGER_LINK_FIELDS
    case DaqLinks => DAQ_LINK_FIELDS
    case OhStatus => OH_FIELDS
    case ScaAdc => SCA_FIELDS
    case SysmonAdc => SYSMON_SENSORS
    case GbtLinks(g) => seq(4 * g, i requires 0 <= i < 4 * g => ".GBT" + Dec(i / 4) + GBT_KEYS[i % 4])
    case VfatLinks(v) => seq(3 * v, i requires 0 <= i < 3 * v => ".VFAT" + Dec(i / 3) + VFAT_FIELDS[i % 3])
    case NotReady => [""]
  }

  /** The register behind key i, as the text before and after the link number; for
    * getmonOHmain's version key it depends on the release `fw` fw_version_check
    * reports. */
  function RegPart(m: Monitor, fw: Word, i: nat): (string, string)
    requires i < |Fields(m)|
  {
    match m
    case TriggerRates => ("GEM_AMC.TRIGGER.OH", Fields(m)[i])
    case TriggerLinks => ("GEM_AMC.TRIGGER.OH", Fields(m)[i])
    case DaqLinks => ("GEM_AMC.DAQ.OH", Fields(m)[i])
    case OhStatus =>
      if i == 0 then
        (if fw == 3 then ("GEM_AMC.OH.OH", ".FPGA.CONTROL.RELEASE.VERSION.MAJOR")
         else ("GEM_AMC.OH.OH", ".STATUS.FW.VERSION"))
      else (OH_REGS[i - 1].0 + "OH", OH_REGS[i - 1].1)
    case ScaAdc => ("GEM_AMC.SLOW_CONTROL.SCA.ADC_MONITORINGOH", Fields(m)[i])
    case SysmonAdc => ("GEM_AMC.OH.OHOH", ".ADC" + Fields(m)[i])
    case GbtLinks(_) => ("GEM_AMC.OH_LINKSOH", ".GBT" + Dec(i / 4) + GBT_REGS[i % 4])
    case VfatLinks(_) => ("GEM_AMC.OH_LINKS.OH", Fields(m)[i])
    case NotReady => ("GEM_AMC.SLOW_CONTROL.SCA.STATUS.NOT_READY_CNT_OH", "")
  }

  /** How the word of key i is obtained: the system-monitor field for the v2B sysmon
    * read-out, the release register read raw for getmonOHmain's version key on v3
    * firmware, the register's field otherwise. */
  function DecodeOf(m: Monitor, fw: Word, i: nat): Decode
  {
    if m.SysmonAdc? then Sysmon else if m.OhStatus? && i == 0 && fw == 3 then Release else Field
  }

  /** The register read for key i of link oh. */
  function RegOf(m: Monitor, fw: Word, oh: nat, i: nat): string
    requires i < |Fields(m)|
  {
    RegPart(m, fw, i).0 + Dec(oh) + RegPart(m, fw, i).1
  }

  function LayoutOf(m: Monitor, fw: Word): (lay: Layout)
    ensures Shaped(lay) && lay.prefix == KeyPrefix(m) && lay.tails == Fields(m)
    ensures forall i :: 0 <= i < |Fields(m)| ==> lay.regs[i] == RegPart(m, fw, i) && lay.decodes[i] == DecodeOf(m, fw, i)
  {
    var f := Fields(m);
    Layout(KeyPrefix(m), f, seq(|f|, i requires 0 <= i < |f| => RegPart(m, fw, i)), seq(|f|, i requires 0 <= i < |f| => DecodeOf(m, fw, i)))
  }

  lemma LayoutsUniform(m: Monitor)
    ensures Uniform((fw: Word) => LayoutOf(m, fw))
  {
  }

  // ---------------------------------------------------------------------------
  // Keys that never collide

  lemma GbtFieldsSound(g: nat)
    ensures SoundTails(Fields(GbtLinks(g)))
  {
    var f := Fields(GbtLinks(g));
    assert SoundTails(GBT_KEYS);
    forall i | 0 <= i < |f|
      ensures Separated(f[i])
    {
      assert f[i] == ".GBT" + Dec(i / 4) + GBT_KEYS[i % 4];
    }
    forall i, j | 0 <= i < j < |f|
      ensures f[i] != f[j]
    {
      BlockTailsDiffer(".GBT", GBT_KEYS, 4, i, j);
    }
  }

  lemma VfatFieldsSound(v: nat)
    ensures SoundTails(Fields(VfatLinks(v)))
  {
    var f := Fields(VfatLinks(v));
    assert SoundTails(VFAT_FIELDS);
    forall i | 0 <= i < |f|
      ensures Separated(f[i])
    {
      assert f[i] == ".VFAT" + Dec(i / 3) + VFAT_FIELDS[i % 3];
    }
    forall i, j | 0 <= i < j < |f|
      ensures f[i] != f[j]
    {
      BlockTailsDiffer(".VFAT", VFAT_FIELDS, 3, i, j);
    }
  }

  lemma ScaFieldsSound()
    ensures SoundTails(SCA_FIELDS)
  {
  }

  lemma OhFieldsSound()
    ensures SoundTails(OH_FIELDS)
  {
  }

  /** Every read-out's key tails start with a dot and are pairwise distinct, so no
    * two of its keys collide. */
  lemma FieldsSound(m: Monitor)
    ensures SoundTails(Fields(m))
  {
    match m
    case GbtLinks(g) => GbtFieldsSound(g);
    case VfatLinks(v) => VfatFieldsSound(v);
    case ScaAdc => ScaFieldsSound();
    case OhStatus => OhFieldsSound();
    case _ =>
  }

  lemma LayoutSound(m: Monitor, fw: Word)
    ensures WellLaid(LayoutOf(m, fw))
  {
    FieldsSound(m);
  }

  // ---------------------------------------------------------------------------
  // The map of a read-out

  /** The map a read-out over links 0 to n - 1 returns from memory mem. */
  function Getmon(mem: map<Word, Word>, table: map<string, Descriptor>, m: Monitor, ohMask: nat, n: nat): map<string, Word>
  {
    Monitored(mem, table, LayoutOf(m, LinkFw(mem, table, SweepOf(m))), SweepOf(m), ohMask, n)
  }

  /** Every register the read-out reads over links 0 to n - 1 can be read. */
  predicate GetmonReadable(mem: map<Word, Word>, table: map<string, Descriptor>, m: Monitor, ohMask: nat, n: nat)
  {
    LinksReadable(mem, table, LayoutOf(m, LinkFw(mem, table, SweepOf(m))), SweepOf(m), ohMask, n)
  }

  /** Key i of link oh holds register RegOf(m, fw, oh, i), decoded as DecodeOf says,
    * when the link is read, and 0xdeaddead when it is masked. */
  lemma GetmonValue(mem: map<Word, Word>, table: map<string, Descriptor>, m: Monitor, ohMask: nat, n: nat, oh: nat, i: nat)
    requires oh < n && i < |Fields(m)| && Visits(SweepOf(m), ohMask, oh)
    ensures var fw := LinkFw(mem, table, SweepOf(m));
      var k := KeyPrefix(m) + Dec(oh) + Fields(m)[i];
      k in Getmon(mem, table, m, ohMask, n) &&
      (Reads(SweepOf(m), ohMask, oh) ==>
         Getmon(mem, table, m, ohMask, n)[k] == ProbeValue(mem, table, Probe(k, RegOf(m, fw, oh, i), DecodeOf(m, fw, i)))) &&
      (!Reads(SweepOf(m), ohMask, oh) ==> Getmon(mem, table, m, ohMask, n)[k] == DEAD)
  {
    var fw := LinkFw(mem, table, SweepOf(m));
    var lay := LayoutOf(m, fw);
    LayoutSound(m, fw);
    MonitoredValue(mem, table, lay, SweepOf(m), ohMask, n, oh, i);
  }

  /** The read-out's keys are exactly the key tails of the links it visits. */
  lemma GetmonKeys(mem: map<Word, Word>, table: map<string, Descriptor>, m: Monitor, ohMask: nat, n: nat, k: string)
    ensures k in Getmon(mem, table, m, ohMask, n) <==>
            exists oh, i :: 0 <= oh < n && 0 <= i < |Fields(m)| && Visits(SweepOf(m), ohMask, oh) &&
                            k == KeyPrefix(m) + Dec(oh) + Fields(m)[i]
  {
    MonitoredKeys(mem, table, LayoutOf(m, LinkFw(mem, table, SweepOf(m))), SweepOf(m), ohMask, n, k);
  }

  /** The map has one entry per key tail of each link visited: every link below n for
    * the read-outs that fill placeholders or have no mask. */
  lemma GetmonCount(mem: map<Word, Word>, table: map<string, Descriptor>, m: Monitor, ohMask: nat, n: nat)
    ensures |Getmon(mem, table, m, ohMask, n).Keys| == Visited(SweepOf(m), ohMask, n) * |Fields(m)|
    ensures !m.TriggerRates? ==> |Getmon(mem, table, m, ohMask, n).Keys| == n * |Fields(m)|
  {
    var fw := LinkFw(mem, table, SweepOf(m));
    LayoutSound(m, fw);
    MonitoredCount(mem, table, LayoutOf(m, fw), SweepOf(m), ohMask, n);
  }

  /** No counter of getmonSCA sits under a status key. */
  lemma NotReadyApart(mem: map<Word, Word>, table: map<string, Descriptor>, n: nat, k: string)
    requires k in Getmon(mem, table, NotReady, 0, n)
    ensures k != ScaKeys.READY_KEY && k != ScaKeys.CRITICAL_KEY
  {
    ScaKeys.StatusKeysApart();
    GetmonKeys(mem, table, NotReady, 0, n, k);
    var p := KeyPrefix(NotReady);
    var oh, i :| 0 <= oh < n && 0 <= i < 1 && k == p + Dec(oh) + Fields(NotReady)[i];
    var t := Dec(oh) + Fields(NotReady)[i];
    assert k == p + t;
    PrefixDiffers(p, t, ScaKeys.READY_KEY, 11);
    PrefixDiffers(p, t, ScaKeys.CRITICAL_KEY, 11);
  }

  /** getmonSCA has one counter per link. */
  lemma NotReadyCount(mem: map<Word, Word>, table: map<string, Descriptor>, n: nat)
    ensures |Getmon(mem, table, NotReady, 0, n).Keys| == n
  {
    var fw := LinkFw(mem, table, SweepOf(NotReady));
    LayoutSound(NotReady, fw);
    MonitoredSingle(mem, table, LayoutOf(NotReady, fw), SweepOf(NotReady), 0, n);
  }

  /** getmonSCA's counters: one per link, none under a status key. */
  lemma NotReadyKeys(mem: map<Word, Word>, table: map<string, Descriptor>, n: nat)
    ensures |Getmon(mem, table, NotReady, 0, n).Keys| == n
    ensures ScaKeys.READY_KEY !in Getmon(mem, table, NotReady, 0, n)
    ensures ScaKeys.CRITICAL_KEY !in Getmon(mem, table, NotReady, 0, n)
  {
    NotReadyCount(mem, table, n);
    if ScaKeys.READY_KEY in Getmon(mem, table, NotReady, 0, n) {
      NotReadyApart(mem, table, n, ScaKeys.READY_KEY);
    }
    if ScaKeys.CRITICAL_KEY in Getmon(mem, table, NotReady, 0, n) {
      NotReadyApart(mem, table, n, ScaKeys.CRITICAL_KEY);
    }
  }

  /** `readReg(NUM_OF_OH)`, then the read-out's loop over the links below it. */
  method RunMonitor(hw: Hardware, m: Monitor, ohMask: nat) returns (r: Result<map<string, Word>>)
    modifies hw`faults, hw`trace
    ensures r.Ok? ==> Readable(hw.mem, hw.table, Amc.NUM_OF_OH) &&
                      GetmonReadable(hw.mem, hw.table, m, ohMask, RegValue(hw.mem, hw.table, Amc.NUM_OF_OH)) &&
                      r.value == Getmon(hw.mem, hw.table, m, ohMask, RegValue(hw.mem, hw.table, Amc.NUM_OF_OH))
    ensures r.Err? ==> r.error.RuntimeError?
    ensures Effects(hw.trace) == Effects(old(hw.trace))
  {
    LayoutsUniform(m);
    r := GetmonLinks(hw, (fw: Word) => LayoutOf(m, fw), SweepOf(m), ohMask);
  }

  // ---------------------------------------------------------------------------
  // The read-outs that are one loop over links

  /** getmonTRIGGEROHmain: the eight trigger-link counters of every link below
    * NUM_OF_OH, 0xdeaddead for a masked one. */
  method GetmonTriggerOh(hw: Hardware, ohMask: U16) returns (r: Result<map<string, Word>>)
    modifies hw`faults, hw`trace
    ensures r.Ok? ==> Readable(hw.mem, hw.table, Amc.NUM_OF_OH) &&
                      GetmonReadable(hw.mem, hw.table, TriggerLinks, ohMask, RegValue(hw.mem, hw.table, Amc.NUM_OF_OH)) &&
                      r.value == Getmon(hw.mem, hw.table, TriggerLinks, ohMask, RegValue(hw.mem, hw.table, Amc.NUM_OF_OH))
    ensures r.Err? ==> r.error.RuntimeError?
    ensures Effects(hw.trace) == Effects(old(hw.trace))
  {
    r := RunMonitor(hw, TriggerLinks, ohMask);
  }

  /** getmonDAQOHmain: the six DAQ status flags of every link. */
  method GetmonDaqOh(hw: Hardware, ohMask: U16) returns (r: Result<map<string, Word>>)
    modifies hw`faults, hw`trace
    ensures r.Ok? ==> Readable(hw.mem, hw.table, Amc.NUM_OF_OH) &&
                      GetmonReadable(hw.mem, hw.table, DaqLinks, ohMask, RegValue(hw.mem, hw.table, Amc.NUM_OF_OH)) &&
                      r.value == Getmon(hw.mem, hw.table, DaqLinks, ohMask, RegValue(hw.mem, hw.table, Amc.NUM_OF_OH))
    ensures r.Err? ==> r.error.RuntimeError?
    ensures Effects(hw.trace) == Effects(old(hw.trace))
  {
    r := RunMonitor(hw, DaqLinks, ohMask);
  }

  /** getmonOHmain: the firmware version and eight counters of every link; each
    * selected link first runs fw_version_check, and its version key is read from the
    * release register on v3 firmware. */
  method GetmonOh(hw: Hardware, ohMask: U16) returns (r: Result<map<string, Word>>)
    modifies hw`faults, hw`trace
    ensures r.Ok? ==> Readable(hw.mem, hw.table, Amc.NUM_OF_OH) &&
                      GetmonReadable(hw.mem, hw.table, OhStatus, ohMask, RegValue(hw.mem, hw.table, Amc.NUM_OF_OH)) &&
                      r.value == Getmon(hw.mem, hw.table, OhStatus, ohMask, RegValue(hw.mem, hw.table, Amc.NUM_OF_OH))
    ensures r.Err? ==> r.error.RuntimeError?
    ensures Effects(hw.trace) == Effects(old(hw.trace))
  {
    r := RunMonitor(hw, OhStatus, ohMask);
  }

  /** As written, getmonOHmain on v3 firmware stores a version word whose low 24 bits
    * are zero for every link it reads: each byte of the release register is shifted
    * into the top byte. */
  lemma OhVersionAsWritten(mem: map<Word, Word>, table: map<string, Descriptor>, ohMask: nat, n: nat, oh: nat)
    requires oh < n && Bit(ohMask, oh) && LinkFw(mem, table, SweepOf(OhStatus)) == 3
    ensures var k := "OH" + Dec(oh) + OH_FIELDS[0];
      k in Getmon(mem, table, OhStatus, ohMask, n) && Getmon(mem, table, OhStatus, ohMask, n)[k] % 0x100_0000 == 0
  {
    var sw := SweepOf(OhStatus);
    assert Reads(sw, ohMask, oh) && Visits(sw, ohMask, oh);
    GetmonValue(mem, table, OhStatus, ohMask, n, oh, 0);
    var k := KeyPrefix(OhStatus) + Dec(oh) + Fields(OhStatus)[0];
    var p := Probe(k, RegOf(OhStatus, 3, oh, 0), Release);
    var v := Getmon(mem, table, OhStatus, ohMask, n)[k];
    assert v == ProbeValue(mem, table, p);
    VersionProbeLow(mem, table, p);
  }

  /** A version probe's word has its low 24 bits zero. */
  lemma VersionProbeLow(mem: map<Word, Word>, table: map<string, Descriptor>, p: Probe)
    requires p.decode == Release
    ensures ProbeValue(mem, table, p) % 0x100_0000 == 0
  {
    if ProbeReadable(mem, table, p) {
      FwVerAsWrittenLowZero(mem[table[p.reg].address]);
    }
  }

  /** `writeReg(LINK_RESET, 1)` when doReset is set. */
  method MaybeResetLinks(hw: Hardware, doReset: bool) returns (r: Result<()>)
    modifies hw`mem, hw`faults, hw`trace
    ensures hw.mem.Keys == old(hw.mem).Keys
    ensures r.Ok? && doReset ==> Mapped(old(hw.mem).Keys, hw.table, LINK_RESET) &&
                                 hw.mem == RegWritten(old(hw.mem), hw.table, LINK_RESET, 1) &&
                                 Effects(hw.trace) == Effects(old(hw.trace)) + [Write(LINK_RESET, 1)]
    ensures !doReset ==> r.Ok? && hw.mem == old(hw.mem) && hw.trace == old(hw.trace)
    ensures r.Err? ==> r.error.RuntimeError?
  {
    r := Ok(());
    if doReset {
      r := hw.Set(LINK_RESET, 1);
    }
  }

  /** getmonGBTLink: the four status flags of each of the link's GBTS_PER_OH GBTs, for
    * every link below NUM_OF_OH whatever the mask, after an optional link reset. */
  method GetmonGbtLink(hw: Hardware, c: HwConstants.Consts, doReset: bool) returns (r: Result<map<string, Word>>)
    modifies hw`mem, hw`faults, hw`trace
    ensures r.Ok? && doReset ==> Mapped(old(hw.mem).Keys, hw.table, LINK_RESET) &&
                                 hw.mem == RegWritten(old(hw.mem), hw.table, LINK_RESET, 1) &&
                                 Effects(hw.trace) == Effects(old(hw.trace)) + [Write(LINK_RESET, 1)]
    ensures r.Ok? && !doReset ==> hw.mem == old(hw.mem) && Effects(hw.trace) == Effects(old(hw.trace))
    ensures r.Ok? ==> Readable(hw.mem, hw.table, Amc.NUM_OF_OH) &&
                      GetmonReadable(hw.mem, hw.table, GbtLinks(c.gbtsPerOh), 0, RegValue(hw.mem, hw.table, Amc.NUM_OF_OH)) &&
                      r.value == Getmon(hw.mem, hw.table, GbtLinks(c.gbtsPerOh), 0, RegValue(hw.mem, hw.table, Amc.NUM_OF_OH))
    ensures r.Err? ==> r.error.RuntimeError?
  {
    var w := MaybeResetLinks(hw, doReset);
    if w.Err? {
      return Err(w.error);
    }
    r := RunMonitor(hw, GbtLinks(c.gbtsPerOh), 0);
  }

  /** getmonVFATLink: the three counters of each of the link's VFATS_PER_OH VFATs, for
    * every link below NUM_OF_OH whatever the mask, after an optional link reset. */
  method GetmonVfatLink(hw: Hardware, c: HwConstants.Consts, doReset: bool) returns (r: Result<map<string, Word>>)
    modifies hw`mem, hw`faults, hw`trace
    ensures r.Ok? && doReset ==> Mapped(old(hw.mem).Keys, hw.table, LINK_RESET) &&
                                 hw.mem == RegWritten(old(hw.mem), hw.table, LINK_RESET, 1) &&
                                 Effects(hw.trace) == Effects(old(hw.trace)) + [Write(LINK_RESET, 1)]
    ensures r.Ok? && !doReset ==> hw.mem == old(hw.mem) && Effects(hw.trace) == Effects(old(hw.trace))
    ensures r.Ok? ==> Readable(hw.mem, hw.table, Amc.NUM_OF_OH) &&
                      GetmonReadable(hw.mem, hw.table, VfatLinks(c.vfatsPerOh), 0, RegValue(hw.mem, hw.table, Amc.NUM_OF_OH)) &&
                      r.value == Getmon(hw.mem, hw.table, VfatLinks(c.vfatsPerOh), 0, RegValue(hw.mem, hw.table, Amc.NUM_OF_OH))
    ensures r.Err? ==> r.error.RuntimeError?
  {
    var w := MaybeResetLinks(hw, doReset);
    if w.Err? {
      return Err(w.error);
    }
    r := RunMonitor(hw, VfatLinks(c.vfatsPerOh), 0);
  }

  // ---------------------------------------------------------------------------
  // getmonTRIGGERmain: the summed rate, then the selected links

  const OR_TRIGGER_RATE: string := "GEM_AMC.TRIGGER.STATUS.OR_TRIGGER_RATE"

  /** NUM_OF_OH, then the summed trigger rate, then the rate of each selected link. */
  method GetmonTrigger(hw: Hardware, ohMask: U16) returns (r: Result<map<string, Word>>)
    modifies hw`faults, hw`trace
    ensures r.Ok? ==> Readable(hw.mem, hw.table, Amc.NUM_OF_OH) && Readable(hw.mem, hw.table, OR_TRIGGER_RATE) &&
                      var n := RegValue(hw.mem, hw.table, Amc.NUM_OF_OH);
                      GetmonReadable(hw.mem, hw.table, TriggerRates, ohMask, n) &&
                      r.value == map["OR_TRIGGER_RATE" := RegValue(hw.mem, hw.table, OR_TRIGGER_RATE)] +
                                 Getmon(hw.mem, hw.table, TriggerRates, ohMask, n)
    ensures r.Err? ==> r.error.RuntimeError?
    ensures Effects(hw.trace) == Effects(old(hw.trace))
  {
    var supOH := hw.Get(Amc.NUM_OF_OH);
    if supOH.Err? {
      return Err(supOH.error);
    }
    var rate := hw.Get(OR_TRIGGER_RATE);
    if rate.Err? {
      return Err(rate.error);
    }
    LayoutsUniform(TriggerRates);
    var links := MonitorLinks(hw, (fw: Word) => LayoutOf(TriggerRates, fw), SweepOf(TriggerRates), ohMask, supOH.value);
    if links.Err? {
      return Err(links.error);
    }
    r := Ok(map["OR_TRIGGER_RATE" := rate.value] + links.value);
  }

  /** The summed rate is never overwritten by a link's key, and the map has one entry
    * per selected link below n besides it. */
  lemma TriggerMap(mem: map<Word, Word>, table: map<string, Descriptor>, ohMask: nat, n: nat, v: Word)
    ensures var t := map["OR_TRIGGER_RATE" := v] + Getmon(mem, table, TriggerRates, ohMask, n);
      "OR_TRIGGER_RATE" in t && t["OR_TRIGGER_RATE"] == v &&
      |t.Keys| == 1 + Visited(SweepOf(TriggerRates), ohMask, n)
  {
    var g := Getmon(mem, table, TriggerRates, ohMask, n);
    GetmonKeys(mem, table, TriggerRates, ohMask, n, "OR_TRIGGER_RATE");
    assert "OR_TRIGGER_RATE" !in g;
    GetmonCount(mem, table, TriggerRates, ohMask, n);
    var t := map["OR_TRIGGER_RATE" := v] + g;
    assert t.Keys == {"OR_TRIGGER_RATE"} + g.Keys;
    DisjointCount({"OR_TRIGGER_RATE"}, g.Keys);
  }

  // ---------------------------------------------------------------------------
  // getmonOHSCAmain: MONITORING_OFF around the SCA read-out

  /** `(~ohMask) & 0x3ff`: monitoring stays switched off for the ten links whose mask
    * bit is clear, and is switched on for the selected ones. */
  function MonitoringOffMask(ohMask: U16): (w: Word)
    ensures w <= 0x3ff
    ensures forall i :: 0 <= i < 10 ==> (Bit(w, i) <==> !Bit(ohMask, i))
  {
    MonitoringOffBits(ohMask);
    And(Not(ohMask), 0x3ff)
  }

  lemma MonitoringOffBits(x: U16)
    ensures forall i :: 0 <= i < 10 ==> (Bit(And(Not(x), 0x3ff), i) <==> !Bit(x, i))
  {
    Pow2Values();
    forall i | 0 <= i < 10
      ensures Bit(And(Not(x), 0x3ff), i) <==> !Bit(x, i)
    {
      BitAnd(Not(x), 0x3ff, i);
      BitNot(x, i);
      BitComplement(0, 10, i);
      BitZero(i);
    }
  }

  /** getmonOHSCAmain: when MONITORING_OFF exists, its field is saved and set to
    * `(~ohMask) & 0x3ff`; the SCA ADC values of every link are read (0xdeaddead for a
    * masked one); then the saved field is written back. */
  method GetmonOhSca(hw: Hardware, ohMask: U16) returns (r: Result<map<string, Word>>)
    modifies hw`mem, hw`faults, hw`trace
    ensures hw.mem.Keys == old(hw.mem).Keys
    ensures r.Ok? && Sca.MONITORING_OFF !in hw.table ==>
      hw.mem == old(hw.mem) && Effects(hw.trace) == Effects(old(hw.trace)) &&
      Readable(hw.mem, hw.table, Amc.NUM_OF_OH) &&
      GetmonReadable(hw.mem, hw.table, ScaAdc, ohMask, RegValue(hw.mem, hw.table, Amc.NUM_OF_OH)) &&
      r.value == Getmon(hw.mem, hw.table, ScaAdc, ohMask, RegValue(hw.mem, hw.table, Amc.NUM_OF_OH))
    ensures r.Ok? && Sca.MONITORING_OFF in hw.table ==>
      Readable(old(hw.mem), hw.table, Sca.MONITORING_OFF) &&
      var saved := RegValue(old(hw.mem), hw.table, Sca.MONITORING_OFF);
      var during := RegWritten(old(hw.mem), hw.table, Sca.MONITORING_OFF, MonitoringOffMask(ohMask));
      Readable(during, hw.table, Amc.NUM_OF_OH) &&
      GetmonReadable(during, hw.table, ScaAdc, ohMask, RegValue(during, hw.table, Amc.NUM_OF_OH)) &&
      r.value == Getmon(during, hw.table, ScaAdc, ohMask, RegValue(during, hw.table, Amc.NUM_OF_OH)) &&
      hw.mem == RegWritten(during, hw.table, Sca.MONITORING_OFF, saved) &&
      RegValue(hw.mem, hw.table, Sca.MONITORING_OFF) == saved &&
      Effects(hw.trace) == Effects(old(hw.trace)) +
        [Write(Sca.MONITORING_OFF, MonitoringOffMask(ohMask)), Write(Sca.MONITORING_OFF, saved)]
    ensures r.Err? ==> r.error.RuntimeError?
  {
    var hasOff := Sca.MONITORING_OFF in hw.table;
    var saved: Word := FULL;
    if hasOff {
      var x := hw.Get(Sca.MONITORING_OFF);
      if x.Err? {
        return Err(x.error);
      }
      saved := x.value;
      var w := hw.Set(Sca.MONITORING_OFF, MonitoringOffMask(ohMask));
      if w.Err? {
        return Err(w.error);
      }
    }
    ghost var during, e1 := hw.mem, Effects(hw.trace);
    var vals := RunMonitor(hw, ScaAdc, ohMask);
    if vals.Err? {
      return Err(vals.error);
    }
    if hasOff {
      var w := hw.Set(Sca.MONITORING_OFF, saved);
      if w.Err? {
        return Err(w.error);
      }
      FieldRestored(old(hw.mem), during, hw.table, Sca.MONITORING_OFF);
      assert Effects(hw.trace) == e1 + [Write(Sca.MONITORING_OFF, saved)];
    }
    r := Ok(vals.value);
  }

  // ---------------------------------------------------------------------------
  // getmonOHSysmon

  /** getmonOHSysmon on v2B firmware: the three system-monitor sensors of every link,
    * each `(readReg(...) >> 6) & 0x3ff`. */
  lemma SysmonAdcBound(mem: map<Word, Word>, table: map<string, Descriptor>, ohMask: nat, n: nat, oh: nat, i: nat)
    requires oh < n && i < 3
    ensures var k := "OH" + Dec(oh) + SYSMON_SENSORS[i];
      k in Getmon(mem, table, SysmonAdc, ohMask, n) &&
      (Bit(ohMask, oh) ==> Getmon(mem, table, SysmonAdc, ohMask, n)[k] <= 0x3ff) &&
      (Bit(ohMask, oh) && Readable(mem, table, RegOf(SysmonAdc, 0, oh, i)) ==>
         Getmon(mem, table, SysmonAdc, ohMask, n)[k] == SysmonField(RegValue(mem, table, RegOf(SysmonAdc, 0, oh, i))))
      && (!Bit(ohMask, oh) ==> Getmon(mem, table, SysmonAdc, ohMask, n)[k] == DEAD)
  {
    GetmonValue(mem, table, SysmonAdc, ohMask, n, oh, i);
  }

  /** getmonOHSysmon: NUM_OF_OH, then fw_version_check; v3 firmware runs the
    * system-monitor sequence of `SysmonV3` on every link, v2B firmware reads the three
    * sensors of every selected link. */
  method GetmonSysmon(hw: Hardware, ohMask: U16, doReset: bool) returns (r: Result<map<string, Word>>)
    modifies hw`mem, hw`faults, hw`trace
    ensures hw.mem.Keys == old(hw.mem).Keys
    ensures r.Ok? ==> Readable(old(hw.mem), hw.table, Amc.NUM_OF_OH) && Readable(old(hw.mem), hw.table, Amc.RELEASE_MAJOR)
    ensures r.Ok? && RegValue(old(hw.mem), hw.table, Amc.RELEASE_MAJOR) == 3 ==>
              var o := SysmonV3.SysmonRun(old(hw.mem), hw.table, SysmonV3.V3_LAYOUT, ohMask, doReset,
                                          RegValue(old(hw.mem), hw.table, Amc.NUM_OF_OH));
              o.ok && r.value == o.values && hw.mem == o.mem && Effects(hw.trace) == Effects(old(hw.trace)) + WritesOf(o.writes)
    ensures r.Ok? && RegValue(old(hw.mem), hw.table, Amc.RELEASE_MAJOR) != 3 ==>
              var n := RegValue(hw.mem, hw.table, Amc.NUM_OF_OH);
              RegValue(hw.mem, hw.table, Amc.RELEASE_MAJOR) == 1 && hw.mem == old(hw.mem) &&
              GetmonReadable(hw.mem, hw.table, SysmonAdc, ohMask, n) && r.value == Getmon(hw.mem, hw.table, SysmonAdc, ohMask, n) &&
              Effects(hw.trace) == Effects(old(hw.trace))
    ensures r.Err? ==> r.error.RuntimeError?
  {
    var supOH := hw.Get(Amc.NUM_OF_OH);
    if supOH.Err? {
      return Err(supOH.error);
    }
    var fw := Amc.FwVersionCheck(hw);
    if fw.Err? {
      return Err(fw.error);
    }
    if fw.value == 3 {
      SysmonV3.V3Sound();
      r := SysmonV3.SysmonLinks(hw, SysmonV3.V3_LAYOUT, ohMask, doReset, supOH.value);
    } else {
      LayoutsUniform(SysmonAdc);
      r := MonitorLinks(hw, (fw: Word) => LayoutOf(SysmonAdc, fw), SweepOf(SysmonAdc), ohMask, supOH.value);
    }
  }
}
