/** The machinery shared by the monitoring maps of src/daq_monitor.cpp. Each
  * `getmon…` function builds a `std::map<std::string, uint32_t>` key by key: for
  * every optical link below the AMC's NUM_OF_OH it either reads a fixed list of
  * registers into keys named after the link, or, when the link is masked out, stores
  * the placeholder 0xdeaddead under the same keys without touching the hardware.
  * Here are the words stored (the firmware version word of getmonOHmain, the
  * system-monitor ADC field), the keys and why they never collide, a register read
  * into a key (a probe), and the loop over links for any layout of a link's keys. */
module Monitoring {

  import opened Wrappers
  import opened Bits
  import opened Packing
  import opened Text
  import opened Registers
  import Amc
  import Sca

  /** The placeholder stored for every key of a masked link. */
  const DEAD: Word := 0xdead_dead


  // ---------------------------------------------------------------------------
  // The words stored in the maps

  /** A system-monitor reading: `(raw >> 6) & 0x3ff`. */
  function SysmonField(raw: Word): (v: Word)
    ensures v <= 0x3ff
  {
    And(Shr(raw, 6), 0x3ff)
  }

  /** The system-monitor value is the 10-bit field that starts at bit 6. */
  lemma SysmonFieldBits(raw: Word)
    ensures SysmonField(raw) == raw / 0x40 % 0x400
  {
    Pow2Values();
    FieldBits(raw, 6, 10);
  }

  /** The firmware version word of getmonOHmain, as written: the four bytes of the
    * release register are masked in place and shifted up by 24, 16, 8 and 0 bits,
    * so on a 32-bit word each of them ends in bits 24 to 31. */
  function FwVerAsWritten(fwreg: Word): Word
  {
    Or(Or(Or(Shl(And(fwreg, 0xff), 24), Shl(And(fwreg, 0xff00), 16)), Shl(And(fwreg, 0xff_0000), 8)),
       And(fwreg, 0xff00_0000))
  }

  /** A multiple of 2^j has no bit below j. */
  lemma NoLowBit(x: Word, c: nat, j: nat, i: nat)
    requires x == c * Pow2(j) && i < j
    ensures !Bit(x, i)
  {
    assert c <= x by {
      Pow2Mono(0, j);
    }
    ShlFits(c, j);
    BitShl(c, j, i);
  }

  /** Byte k / 8 of a word masked in place is that byte times 2^k. */
  lemma MaskedByte(fwreg: Word, k: nat)
    requires k == 8 || k == 16 || k == 24
    ensures And(fwreg, 0xff * Pow2(k)) == fwreg / Pow2(k) % 0x100 * Pow2(k)
  {
    Pow2Values();
    AndField(fwreg, k, 8);
  }

  lemma OrLow(a: Word, b: Word, c: Word, d: Word, i: nat)
    requires !Bit(a, i) && !Bit(b, i) && !Bit(c, i) && !Bit(d, i)
    ensures !Bit(Or(Or(Or(a, b), c), d), i)
  {
    BitOr(a, b, i);
    BitOr(Or(a, b), c, i);
    BitOr(Or(Or(a, b), c), d, i);
  }

  /** A masked byte shifted by s lands at bit k + s or above. */
  lemma ShiftedByteLow(fwreg: Word, k: nat, s: nat, i: nat)
    requires k == 8 || k == 16 || k == 24
    requires i < k + s
    ensures !Bit(Shl(And(fwreg, 0xff * Pow2(k)), s), i)
  {
    var x := And(fwreg, 0xff * Pow2(k));
    MaskedByte(fwreg, k);
    BitShl(x, s, i);
    if s <= i {
      NoLowBit(x, fwreg / Pow2(k) % 0x100, k, i - s);
    }
  }

  /** No bit below 24 survives in the as-written version word. */
  lemma FwVerAsWrittenLowBit(fwreg: Word, i: nat)
    requires i < 24
    ensures !Bit(FwVerAsWritten(fwreg), i)
  {
    Pow2Values();
    BitShl(And(fwreg, 0xff), 24, i);
    ShiftedByteLow(fwreg, 8, 16, i);
    ShiftedByteLow(fwreg, 16, 8, i);
    ShiftedByteLow(fwreg, 24, 0, i);
    assert Shl(And(fwreg, 0xff00_0000), 0) == And(fwreg, 0xff00_0000);
    OrLow(Shl(And(fwreg, 0xff), 24), Shl(And(fwreg, 0xff00), 16), Shl(And(fwreg, 0xff_0000), 8),
          And(fwreg, 0xff00_0000), i);
  }

  /** As written, the low 24 bits of the version word are always zero. */
  lemma FwVerAsWrittenLowZero(fwreg: Word)
    ensures FwVerAsWritten(fwreg) % 0x100_0000 == 0
  {
    forall i | 0 <= i < 24
      ensures !Bit(FwVerAsWritten(fwreg), i)
    {
      FwVerAsWrittenLowBit(fwreg, i);
    }
    LowClear(FwVerAsWritten(fwreg), 24);
    Pow2Values();
  }

  /** The version word the byte shuffle evidently means: the bytes of the release
    * register in the opposite order. */
  function FwVersion(fwreg: Word): (v: Word)
    ensures Sca.ByteOf(v, 0) == Sca.ByteOf(fwreg, 3) && Sca.ByteOf(v, 1) == Sca.ByteOf(fwreg, 2)
    ensures Sca.ByteOf(v, 2) == Sca.ByteOf(fwreg, 1) && Sca.ByteOf(v, 3) == Sca.ByteOf(fwreg, 0)
    ensures Sca.ByteSwap(v) == fwreg
  {
    Sca.BytesOfFromBytes(Sca.ByteOf(fwreg, 3), Sca.ByteOf(fwreg, 2), Sca.ByteOf(fwreg, 1), Sca.ByteOf(fwreg, 0));
    Sca.ByteSwapTwice(fwreg);
    Sca.ByteSwap(fwreg)
  }

  /** Whenever the release register has a non-zero byte above the lowest (release
    * 0x00010203, say: 0x03000000 as written, 0x03020100 swapped), the as-written word
    * is not the byte swap. */
  lemma FwVerAsWrittenDiffers(fwreg: Word)
    requires fwreg >= 0x100
    ensures FwVerAsWritten(fwreg) != FwVersion(fwreg)
  {
    FwVerAsWrittenLowZero(fwreg);
    var b0: nat, b1: nat, b2: nat, b3: nat := Sca.ByteOf(fwreg, 0), Sca.ByteOf(fwreg, 1), Sca.ByteOf(fwreg, 2), Sca.ByteOf(fwreg, 3);
    Sca.BytesCompose(fwreg);
    var v := FwVersion(fwreg);
    assert v == Sca.FromBytes(b3, b2, b1, b0);
    DivModUnique(v, 0x100_0000, b3 + 0x100 * b2 + 0x1_0000 * b1, b0);
  }

  // ---------------------------------------------------------------------------
  // Keys named after a link

  /** A key's tail after the link number: empty, or starting with a dot. */
  predicate Separated(s: string)
  {
    s == [] || s[0] == '.'
  }

  /** The length of the run of decimal digits a string starts with. */
  function DigitRun(w: string): (n: nat)
    ensures n <= |w|
    ensures forall i :: 0 <= i < n ==> '0' <= w[i] <= '9'
    ensures n < |w| ==> !('0' <= w[n] <= '9')
  {
    if w == [] || !('0' <= w[0] <= '9') then 0 else 1 + DigitRun(w[1..])
  }

  /** The digits of a number end where its separated tail begins. */
  lemma {:induction false} DigitRunOf(x: string, s: string)
    requires forall i :: 0 <= i < |x| ==> '0' <= x[i] <= '9'
    requires Separated(s)
    ensures DigitRun(x + s) == |x|
    decreases |x|
  {
    if x != [] {
      assert (x + s)[1..] == x[1..] + s;
      DigitRunOf(x[1..], s);
    }
  }

  /** A link number followed by a separated tail can be read back: both are
    * determined by the key. */
  lemma DecSplit(a: nat, b: nat, s: string, t: string)
    requires Dec(a) + s == Dec(b) + t && Separated(s) && Separated(t)
    ensures a == b && s == t
  {
    var x, y := Dec(a), Dec(b);
    DigitRunOf(x, s);
    DigitRunOf(y, t);
    assert x == (x + s)[..|x|];
    assert y == (y + t)[..|y|];
    DecInjective(a, b);
    assert s == (x + s)[|x|..];
  }

  /** Keys with a common prefix, a link number and a separated tail are equal only
    * for the same link and the same tail. */
  lemma KeysApart(p: string, a: nat, b: nat, s: string, t: string)
    requires p + Dec(a) + s == p + Dec(b) + t && Separated(s) && Separated(t)
    ensures a == b && s == t
  {
    assert Dec(a) + s == (p + Dec(a) + s)[|p|..];
    assert Dec(b) + t == (p + Dec(b) + t)[|p|..];
    DecSplit(a, b, s, t);
  }

  // ---------------------------------------------------------------------------
  // Probes: a key, the register it comes from, and how the word is obtained

  datatype Decode =
    | Field    // readReg: the field under the register's mask
    | Sysmon   // readReg, then the system-monitor field
    | Release  // readRawReg, then the version word

  datatype Probe = Probe(key: string, reg: string, decode: Decode)

  /** The register of a probe can be read: with its permission for readReg, and by
    * address alone for readRawReg. */
  predicate ProbeReadable(mem: map<Word, Word>, table: map<string, Descriptor>, p: Probe)
  {
    if p.decode.Release? then p.reg in table && table[p.reg].address in mem
    else Readable(mem, table, p.reg)
  }

  /** The word a probe stores. */
  function ProbeValue(mem: map<Word, Word>, table: map<string, Descriptor>, p: Probe): Word
  {
    if !ProbeReadable(mem, table, p) then 0
    else match p.decode
    case Field => RegValue(mem, table, p.reg)
    case Sysmon => SysmonField(RegValue(mem, table, p.reg))
    case Release => FwVerAsWritten(mem[table[p.reg].address])
  }

  predicate ProbesReadable(mem: map<Word, Word>, table: map<string, Descriptor>, ps: seq<Probe>)
  {
    forall i :: 0 <= i < |ps| ==> ProbeReadable(mem, table, ps[i])
  }

  function KeysOf(ps: seq<Probe>): set<string>
  {
    set i | 0 <= i < |ps| :: ps[i].key
  }

  predicate DistinctKeys(ps: seq<Probe>)
  {
    forall i, j :: 0 <= i < j < |ps| ==> ps[i].key != ps[j].key
  }

  /** The map the probes fill one key after the other. */
  function LinkValues(mem: map<Word, Word>, table: map<string, Descriptor>, ps: seq<Probe>): (r: map<string, Word>)
    ensures r.Keys == KeysOf(ps)
    decreases |ps|
  {
    if ps == [] then map[]
    else
      var q := ps[..|ps| - 1];
      assert KeysOf(ps) == KeysOf(q) + {ps[|ps| - 1].key};
      LinkValues(mem, table, q)[ps[|ps| - 1].key := ProbeValue(mem, table, ps[|ps| - 1])]
  }

  /** With distinct keys, every probe's key holds that probe's word. */
  lemma {:induction false} LinkValuesAt(mem: map<Word, Word>, table: map<string, Descriptor>, ps: seq<Probe>, i: nat)
    requires DistinctKeys(ps) && i < |ps|
    ensures LinkValues(mem, table, ps)[ps[i].key] == ProbeValue(mem, table, ps[i])
    decreases |ps|
  {
    var q := ps[..|ps| - 1];
    if i < |ps| - 1 {
      assert q[i] == ps[i];
      LinkValuesAt(mem, table, q, i);
    }
  }

  /** The placeholder map over a set of keys. */
  function Placeholders(keys: set<string>): (r: map<string, Word>)
    ensures r.Keys == keys
    ensures forall k :: k in r ==> r[k] == DEAD
  {
    map k | k in keys :: DEAD
  }

  /** `readReg` or `readRawReg` of one probe. */
  method ReadProbe(hw: Hardware, p: Probe) returns (r: Result<Word>)
    modifies hw`faults, hw`trace
    ensures r.Ok? ==> ProbeReadable(hw.mem, hw.table, p) && r.value == ProbeValue(hw.mem, hw.table, p)
    ensures r.Err? ==> r.error.RuntimeError?
    ensures Effects(hw.trace) == Effects(old(hw.trace))
  {
    if p.decode.Release? {
      var x := hw.ReadRawReg(p.reg);
      if x.Err? {
        return Err(x.error);
      }
      EffectsSnoc(old(hw.trace), RawRead(hw.table[p.reg].address));
      r := Ok(FwVerAsWritten(x.value));
    } else {
      var x := hw.Get(p.reg);
      if x.Err? {
        return Err(x.error);
      }
      r := Ok(if p.decode.Sysmon? then SysmonField(x.value) else x.value);
    }
  }

  /** One more probe read, at the end of the ones already read. */
  lemma ProbesSnoc(mem: map<Word, Word>, table: map<string, Descriptor>, ps: seq<Probe>, i: nat)
    requires i < |ps| && ProbesReadable(mem, table, ps[..i]) && ProbeReadable(mem, table, ps[i])
    ensures ProbesReadable(mem, table, ps[..i + 1])
    ensures LinkValues(mem, table, ps[..i + 1]) ==
            LinkValues(mem, table, ps[..i])[ps[i].key := ProbeValue(mem, table, ps[i])]
  {
    assert ps[..i + 1][..i] == ps[..i];
  }

  /** The probes read in order into the map; the first failure is thrown. */
  method ReadProbes(hw: Hardware, ps: seq<Probe>) returns (r: Result<map<string, Word>>)
    modifies hw`faults, hw`trace
    ensures r.Ok? ==> ProbesReadable(hw.mem, hw.table, ps) && r.value == LinkValues(hw.mem, hw.table, ps)
    ensures r.Err? ==> r.error.RuntimeError?
    ensures Effects(hw.trace) == Effects(old(hw.trace))
  {
    var out: map<string, Word> := map[];
    var i := 0;
    while i < |ps|
      invariant i <= |ps|
      invariant ProbesReadable(hw.mem, hw.table, ps[..i])
      invariant out == LinkValues(hw.mem, hw.table, ps[..i])
      invariant Effects(hw.trace) == Effects(old(hw.trace))
    {
      var x := ReadProbe(hw, ps[i]);
      if x.Err? {
        return Err(x.error);
      }
      ProbesSnoc(hw.mem, hw.table, ps, i);
      out := out[ps[i].key := x.value];
      i := i + 1;
    }
    assert ps[..i] == ps;
    r := Ok(out);
  }


  // ---------------------------------------------------------------------------
  // Keys that never collide

  /** Key tails that start with a dot and are pairwise distinct. */
  predicate SoundTails(fs: seq<string>)
  {
    (forall i :: 0 <= i < |fs| ==> Separated(fs[i])) &&
    (forall i, j :: 0 <= i < j < |fs| ==> fs[i] != fs[j])
  }

  lemma KeysDiffer(p: string, a: nat, b: nat, s: string, t: string)
    requires Separated(s) && Separated(t) && (a != b || s != t)
    ensures p + Dec(a) + s != p + Dec(b) + t
  {
    if p + Dec(a) + s == p + Dec(b) + t {
      KeysApart(p, a, b, s, t);
    }
  }

  /** Two tails of a numbered block, `head + Dec(i / w) + tails[i % w]`, differ for i != j. */
  lemma BlockTailsDiffer(head: string, tails: seq<string>, w: nat, i: nat, j: nat)
    requires SoundTails(tails) && |tails| == w && i != j
    ensures w > 0 ==> head + Dec(i / w) + tails[i % w] != head + Dec(j / w) + tails[j % w]
  {
    if w > 0 {
      DivModApart(i, j, w);
      if i % w != j % w {
        if i % w < j % w {
          assert tails[i % w] != tails[j % w];
        } else {
          assert tails[j % w] != tails[i % w];
        }
      }
      KeysDiffer(head, i / w, j / w, tails[i % w], tails[j % w]);
    }
  }

  /** Distinct numbers differ in their quotient or in their remainder. */
  lemma DivModApart(i: nat, j: nat, w: nat)
    requires w > 0 && i != j
    ensures i / w != j / w || i % w != j % w
  {
    assert i == w * (i / w) + i % w && j == w * (j / w) + j % w;
  }

  // ---------------------------------------------------------------------------
  // The loop over links

  /** How a monitor lays out link oh: key i is `prefix + Dec(oh) + tails[i]`, and it
    * holds register `regs[i].0 + Dec(oh) + regs[i].1` decoded as `decodes[i]`. */
  datatype Layout = Layout(prefix: string, tails: seq<string>, regs: seq<(string, string)>, decodes: seq<Decode>)

  predicate Shaped(lay: Layout)
  {
    |lay.regs| == |lay.tails| && |lay.decodes| == |lay.tails|
  }

  /** A layout whose keys never collide. */
  predicate WellLaid(lay: Layout)
  {
    Shaped(lay) && SoundTails(lay.tails)
  }

  function LKey(lay: Layout, oh: nat, i: nat): string
    requires i < |lay.tails|
  {
    lay.prefix + Dec(oh) + lay.tails[i]
  }

  function LProbe(lay: Layout, oh: nat, i: nat): Probe
    requires Shaped(lay) && i < |lay.tails|
  {
    Probe(LKey(lay, oh, i), lay.regs[i].0 + Dec(oh) + lay.regs[i].1, lay.decodes[i])
  }

  function LinkProbes(lay: Layout, oh: nat): (ps: seq<Probe>)
    requires Shaped(lay)
    ensures |ps| == |lay.tails|
    ensures forall i :: 0 <= i < |ps| ==> ps[i] == LProbe(lay, oh, i)
  {
    seq(|lay.tails|, i requires 0 <= i < |lay.tails| => LProbe(lay, oh, i))
  }

  /** The keys of link oh. */
  function LinkKeys(lay: Layout, oh: nat): set<string>
  {
    set i | 0 <= i < |lay.tails| :: LKey(lay, oh, i)
  }

  /** How the loop treats the links: `every` reads all of them whatever the mask,
    * `fills` stores placeholders for a masked one, `checked` runs fw_version_check
    * before a link is read. */
  datatype Sweep = Sweep(every: bool, fills: bool, checked: bool)

  /** Link oh is read: `(ohMask >> oh) & 0x1`, or a loop without a mask. */
  predicate Reads(sw: Sweep, ohMask: nat, oh: nat)
  {
    sw.every || Bit(ohMask, oh)
  }

  /** Link oh gets keys in the map. */
  predicate Visits(sw: Sweep, ohMask: nat, oh: nat)
  {
    Reads(sw, ohMask, oh) || sw.fills
  }

  /** The release major version fw_version_check accepts. */
  predicate FwAccepted(mem: map<Word, Word>, table: map<string, Descriptor>)
  {
    Readable(mem, table, Amc.RELEASE_MAJOR) && Amc.FwMajor(RegValue(mem, table, Amc.RELEASE_MAJOR)).Ok?
  }

  /** The release the layout of getmonOHmain depends on. */
  function LinkFw(mem: map<Word, Word>, table: map<string, Descriptor>, sw: Sweep): Word
  {
    if sw.checked && Readable(mem, table, Amc.RELEASE_MAJOR) then RegValue(mem, table, Amc.RELEASE_MAJOR) else 0
  }

  predicate LinkReadable(mem: map<Word, Word>, table: map<string, Descriptor>, lay: Layout, sw: Sweep, oh: nat)
    requires Shaped(lay)
  {
    ProbesReadable(mem, table, LinkProbes(lay, oh)) && (sw.checked ==> FwAccepted(mem, table))
  }

  predicate LinksReadable(mem: map<Word, Word>, table: map<string, Descriptor>, lay: Layout, sw: Sweep, ohMask: nat, n: nat)
    requires Shaped(lay)
  {
    forall oh :: 0 <= oh < n && Reads(sw, ohMask, oh) ==> LinkReadable(mem, table, lay, sw, oh)
  }

  /** What link oh adds to the map. */
  function LinkPart(mem: map<Word, Word>, table: map<string, Descriptor>, lay: Layout, sw: Sweep, ohMask: nat, oh: nat): map<string, Word>
    requires Shaped(lay)
  {
    if Reads(sw, ohMask, oh) then LinkValues(mem, table, LinkProbes(lay, oh))
    else if sw.fills then Placeholders(LinkKeys(lay, oh))
    else map[]
  }

  /** The map after links 0 to n - 1. */
  function Monitored(mem: map<Word, Word>, table: map<string, Descriptor>, lay: Layout, sw: Sweep, ohMask: nat, n: nat): map<string, Word>
    requires Shaped(lay)
    decreases n
  {
    if n == 0 then map[] else Monitored(mem, table, lay, sw, ohMask, n - 1) + LinkPart(mem, table, lay, sw, ohMask, n - 1)
  }

  // ---------------------------------------------------------------------------
  // What the map holds

  lemma ProbeKeys(lay: Layout, oh: nat)
    requires Shaped(lay)
    ensures KeysOf(LinkProbes(lay, oh)) == LinkKeys(lay, oh)
  {
    var ps := LinkProbes(lay, oh);
    forall k | k in LinkKeys(lay, oh)
      ensures k in KeysOf(ps)
    {
      var i :| 0 <= i < |lay.tails| && k == LKey(lay, oh, i);
      assert ps[i].key == k;
    }
  }

  /** The keys of one link are pairwise distinct. */
  lemma ProbeKeysDistinct(lay: Layout, oh: nat)
    requires WellLaid(lay)
    ensures DistinctKeys(LinkProbes(lay, oh))
  {
    var ps := LinkProbes(lay, oh);
    forall i, j | 0 <= i < j < |ps|
      ensures ps[i].key != ps[j].key
    {
      KeysDiffer(lay.prefix, oh, oh, lay.tails[i], lay.tails[j]);
    }
  }

  /** No key of link oh belongs to another link. */
  lemma OtherLink(lay: Layout, oh: nat, o: nat, i: nat)
    requires WellLaid(lay) && i < |lay.tails| && o != oh
    ensures LKey(lay, oh, i) !in LinkKeys(lay, o)
  {
    forall j | 0 <= j < |lay.tails|
      ensures LKey(lay, o, j) != LKey(lay, oh, i)
    {
      KeysDiffer(lay.prefix, o, oh, lay.tails[j], lay.tails[i]);
    }
  }

  /** Probes with distinct keys have as many keys as probes. */
  lemma {:induction false} KeysOfCount(ps: seq<Probe>)
    requires DistinctKeys(ps)
    ensures |KeysOf(ps)| == |ps|
    decreases |ps|
  {
    if ps != [] {
      var q := ps[..|ps| - 1];
      assert DistinctKeys(q);
      assert KeysOf(ps) == KeysOf(q) + {ps[|ps| - 1].key};
      assert ps[|ps| - 1].key !in KeysOf(q);
      KeysOfCount(q);
    }
  }

  lemma LinkPartKeys(mem: map<Word, Word>, table: map<string, Descriptor>, lay: Layout, sw: Sweep, ohMask: nat, oh: nat)
    requires Shaped(lay)
    ensures LinkPart(mem, table, lay, sw, ohMask, oh).Keys == if Visits(sw, ohMask, oh) then LinkKeys(lay, oh) else {}
  {
    ProbeKeys(lay, oh);
  }

  lemma MapLeft(a: map<string, Word>, b: map<string, Word>, k: string)
    requires k in a && k !in b
    ensures k in a + b && (a + b)[k] == a[k]
  {
  }

  lemma MapRight(a: map<string, Word>, b: map<string, Word>, k: string)
    requires k in b
    ensures k in a + b && (a + b)[k] == b[k]
  {
  }

  /** Link oh's entries survive the later links. */
  lemma MonitoredAt(mem: map<Word, Word>, table: map<string, Descriptor>, lay: Layout, sw: Sweep,
                    ohMask: nat, n: nat, oh: nat, i: nat)
    requires WellLaid(lay)
    requires oh < n && i < |lay.tails| && Visits(sw, ohMask, oh)
    ensures LKey(lay, oh, i) in Monitored(mem, table, lay, sw, ohMask, n)
    ensures LKey(lay, oh, i) in LinkPart(mem, table, lay, sw, ohMask, oh)
    ensures Monitored(mem, table, lay, sw, ohMask, n)[LKey(lay, oh, i)] ==
            LinkPart(mem, table, lay, sw, ohMask, oh)[LKey(lay, oh, i)]
  {
    var parts := Parts(mem, table, lay, sw, ohMask, n);
    MonitoredIsUnion(mem, table, lay, sw, ohMask, n);
    LinkPartKeys(mem, table, lay, sw, ohMask, oh);
    forall o | oh < o < n
      ensures LKey(lay, oh, i) !in parts[o]
    {
      NotInOtherLink(mem, table, lay, sw, ohMask, oh, o, i);
    }
    UnionAt(parts, oh, LKey(lay, oh, i));
  }

  /** The maps of links 0 to n - 1. */
  function Parts(mem: map<Word, Word>, table: map<string, Descriptor>, lay: Layout, sw: Sweep, ohMask: nat, n: nat):
    (ps: seq<map<string, Word>>)
    requires Shaped(lay)
    ensures |ps| == n && forall o :: 0 <= o < n ==> ps[o] == LinkPart(mem, table, lay, sw, ohMask, o)
  {
    seq(n, (o: int) requires 0 <= o => LinkPart(mem, table, lay, sw, ohMask, o))
  }

  /** Maps merged in order, a later one winning on a shared key. */
  function UnionOf(parts: seq<map<string, Word>>): map<string, Word>
    decreases |parts|
  {
    if parts == [] then map[] else UnionOf(parts[..|parts| - 1]) + parts[|parts| - 1]
  }

  /** A key of map j that no later map holds keeps map j's value in the merge. */
  lemma {:induction false} UnionAt(parts: seq<map<string, Word>>, j: nat, k: string)
    requires j < |parts| && k in parts[j]
    requires forall o :: j < o < |parts| ==> k !in parts[o]
    ensures k in UnionOf(parts) && UnionOf(parts)[k] == parts[j][k]
    decreases |parts|
  {
    var front := parts[..|parts| - 1];
    if j < |parts| - 1 {
      assert forall o :: j < o < |front| ==> front[o] == parts[o];
      UnionAt(front, j, k);
    }
  }

  /** The monitor's map is the merge of the links' maps. */
  lemma {:induction false} MonitoredIsUnion(mem: map<Word, Word>, table: map<string, Descriptor>, lay: Layout, sw: Sweep,
                                            ohMask: nat, n: nat)
    requires Shaped(lay)
    ensures Monitored(mem, table, lay, sw, ohMask, n) == UnionOf(Parts(mem, table, lay, sw, ohMask, n))
    decreases n
  {
    if n > 0 {
      MonitoredIsUnion(mem, table, lay, sw, ohMask, n - 1);
      assert Parts(mem, table, lay, sw, ohMask, n)[..n - 1] == Parts(mem, table, lay, sw, ohMask, n - 1);
    }
  }

  /** Link o's entries leave out the keys of every other link. */
  lemma NotInOtherLink(mem: map<Word, Word>, table: map<string, Descriptor>, lay: Layout, sw: Sweep,
                       ohMask: nat, oh: nat, o: nat, i: nat)
    requires WellLaid(lay) && i < |lay.tails| && o != oh
    ensures LKey(lay, oh, i) !in LinkPart(mem, table, lay, sw, ohMask, o)
  {
    LinkPartKeys(mem, table, lay, sw, ohMask, o);
    OtherLink(lay, oh, o, i);
  }

  /** A read link's key holds its register's value, decoded; a masked link's key holds
    * 0xdeaddead. */
  lemma MonitoredValue(mem: map<Word, Word>, table: map<string, Descriptor>, lay: Layout, sw: Sweep,
                       ohMask: nat, n: nat, oh: nat, i: nat)
    requires WellLaid(lay)
    requires oh < n && i < |lay.tails| && Visits(sw, ohMask, oh)
    ensures LKey(lay, oh, i) in Monitored(mem, table, lay, sw, ohMask, n)
    ensures Reads(sw, ohMask, oh) ==>
              Monitored(mem, table, lay, sw, ohMask, n)[LKey(lay, oh, i)] == ProbeValue(mem, table, LProbe(lay, oh, i))
    ensures !Reads(sw, ohMask, oh) ==> Monitored(mem, table, lay, sw, ohMask, n)[LKey(lay, oh, i)] == DEAD
  {
    MonitoredAt(mem, table, lay, sw, ohMask, n, oh, i);
    if Reads(sw, ohMask, oh) {
      ProbeKeysDistinct(lay, oh);
      LinkValuesAt(mem, table, LinkProbes(lay, oh), i);
    }
  }

  /** The keys of the links visited below n. */
  function KeySpan(lay: Layout, sw: Sweep, ohMask: nat, n: nat): set<string>
  {
    if n == 0 then {} else KeySpan(lay, sw, ohMask, n - 1) + (if Visits(sw, ohMask, n - 1) then LinkKeys(lay, n - 1) else {})
  }

  lemma {:induction false} MonitoredSpan(mem: map<Word, Word>, table: map<string, Descriptor>, lay: Layout, sw: Sweep,
                                         ohMask: nat, n: nat)
    requires Shaped(lay)
    ensures Monitored(mem, table, lay, sw, ohMask, n).Keys == KeySpan(lay, sw, ohMask, n)
    decreases n
  {
    if n > 0 {
        MonitoredSpan(mem, table, lay, sw, ohMask, n - 1);
      LinkPartKeys(mem, table, lay, sw, ohMask, n - 1);
    }
  }

  lemma {:induction false} KeySpanHas(lay: Layout, sw: Sweep, ohMask: nat, n: nat, k: string)
    ensures k in KeySpan(lay, sw, ohMask, n) <==>
            exists oh, i :: 0 <= oh < n && 0 <= i < |lay.tails| && Visits(sw, ohMask, oh) && k == lay.prefix + Dec(oh) + lay.tails[i]
    decreases n
  {
    if n > 0 {
      KeySpanHas(lay, sw, ohMask, n - 1, k);
      var last := if Visits(sw, ohMask, n - 1) then LinkKeys(lay, n - 1) else {};
      assert KeySpan(lay, sw, ohMask, n) == KeySpan(lay, sw, ohMask, n - 1) + last;
      if k in last {
        var i :| 0 <= i < |lay.tails| && k == LKey(lay, n - 1, i);
        assert 0 <= n - 1 < n && Visits(sw, ohMask, n - 1) && k == lay.prefix + Dec(n - 1) + lay.tails[i];
      }
      if exists i :: 0 <= i < |lay.tails| && Visits(sw, ohMask, n - 1) && k == lay.prefix + Dec(n - 1) + lay.tails[i] {
        var i :| 0 <= i < |lay.tails| && Visits(sw, ohMask, n - 1) && k == lay.prefix + Dec(n - 1) + lay.tails[i];
        assert k == LKey(lay, n - 1, i);
      }
    }
  }

  /** The map's keys are exactly the keys of the visited links. */
  lemma MonitoredKeys(mem: map<Word, Word>, table: map<string, Descriptor>, lay: Layout, sw: Sweep,
                      ohMask: nat, n: nat, k: string)
    requires Shaped(lay)
    ensures k in Monitored(mem, table, lay, sw, ohMask, n) <==>
            exists oh, i :: 0 <= oh < n && 0 <= i < |lay.tails| && Visits(sw, ohMask, oh) && k == lay.prefix + Dec(oh) + lay.tails[i]
  {
    MonitoredSpan(mem, table, lay, sw, ohMask, n);
    KeySpanHas(lay, sw, ohMask, n, k);
  }

  /** The number of links visited below n. */
  function Visited(sw: Sweep, ohMask: nat, n: nat): (c: nat)
    ensures c <= n
    ensures sw.every || sw.fills ==> c == n
  {
    if n == 0 then 0 else Visited(sw, ohMask, n - 1) + (if Visits(sw, ohMask, n - 1) then 1 else 0)
  }

  lemma LinkKeysCount(lay: Layout, oh: nat)
    requires WellLaid(lay)
    ensures |LinkKeys(lay, oh)| == |lay.tails|
  {
    ProbeKeys(lay, oh);
    ProbeKeysDistinct(lay, oh);
    KeysOfCount(LinkProbes(lay, oh));
  }

  /** Link o's keys are not among the keys of the links below it. */
  lemma {:induction false} SpanBelow(lay: Layout, sw: Sweep, ohMask: nat, n: nat, o: nat, i: nat)
    requires WellLaid(lay) && n <= o && i < |lay.tails|
    ensures LKey(lay, o, i) !in KeySpan(lay, sw, ohMask, n)
    decreases n
  {
    if n > 0 {
      SpanBelow(lay, sw, ohMask, n - 1, o, i);
      OtherLink(lay, o, n - 1, i);
    }
  }

  /** The entries of the links visited below n, with w keys per link. */
  function Entries(sw: Sweep, ohMask: nat, n: nat, w: nat): nat
  {
    if n == 0 then 0 else Entries(sw, ohMask, n - 1, w) + (if Visits(sw, ohMask, n - 1) then w else 0)
  }

  lemma {:induction false} EntriesVisited(sw: Sweep, ohMask: nat, n: nat, w: nat)
    ensures Entries(sw, ohMask, n, w) == Visited(sw, ohMask, n) * w
    decreases n
  {
    if n > 0 {
      EntriesVisited(sw, ohMask, n - 1, w);
      assert (Visited(sw, ohMask, n - 1) + 1) * w == Visited(sw, ohMask, n - 1) * w + w;
    }
  }

  lemma DisjointCount(a: set<string>, b: set<string>)
    requires forall k :: k in b ==> k !in a
    ensures |a + b| == |a| + |b|
  {
    assert a * b == {};
  }

  lemma {:induction false} KeySpanCount(lay: Layout, sw: Sweep, ohMask: nat, n: nat)
    requires WellLaid(lay)
    ensures |KeySpan(lay, sw, ohMask, n)| == Entries(sw, ohMask, n, |lay.tails|)
    decreases n
  {
    if n > 0 {
      KeySpanCount(lay, sw, ohMask, n - 1);
      if Visits(sw, ohMask, n - 1) {
        var b := LinkKeys(lay, n - 1);
        forall k | k in b
          ensures k !in KeySpan(lay, sw, ohMask, n - 1)
        {
          var i :| 0 <= i < |lay.tails| && k == LKey(lay, n - 1, i);
          SpanBelow(lay, sw, ohMask, n - 1, n - 1, i);
        }
        LinkKeysCount(lay, n - 1);
        DisjointCount(KeySpan(lay, sw, ohMask, n - 1), b);
      }
    }
  }

  /** The map holds one entry per key tail of every visited link. */
  lemma MonitoredCount(mem: map<Word, Word>, table: map<string, Descriptor>, lay: Layout, sw: Sweep, ohMask: nat, n: nat)
    requires WellLaid(lay)
    ensures |Monitored(mem, table, lay, sw, ohMask, n).Keys| == Visited(sw, ohMask, n) * |lay.tails|
  {
    MonitoredSpan(mem, table, lay, sw, ohMask, n);
    KeySpanCount(lay, sw, ohMask, n);
    EntriesVisited(sw, ohMask, n, |lay.tails|);
  }

  /** A sweep over every link of a layout with one key tail has one entry per link. */
  lemma MonitoredSingle(mem: map<Word, Word>, table: map<string, Descriptor>, lay: Layout, sw: Sweep, ohMask: nat, n: nat)
    requires WellLaid(lay) && |lay.tails| == 1 && (sw.every || sw.fills)
    ensures |Monitored(mem, table, lay, sw, ohMask, n).Keys| == n
  {
    MonitoredCount(mem, table, lay, sw, ohMask, n);
  }

  // ---------------------------------------------------------------------------
  // The loop as code

  /** Layouts, one per release, that differ only in the registers they read. */
  predicate Uniform(layOf: Word -> Layout)
  {
    forall fw: Word :: Shaped(layOf(fw)) && layOf(fw).prefix == layOf(0).prefix && layOf(fw).tails == layOf(0).tails
  }

  /** The layout a read-out uses on memory mem. */
  function LayoutAt(mem: map<Word, Word>, table: map<string, Descriptor>, layOf: Word -> Layout, sw: Sweep): Layout
  {
    layOf(LinkFw(mem, table, sw))
  }

  /** Layouts with the same prefix and tails give the same keys. */
  lemma LinkKeysAlike(a: Layout, b: Layout, oh: nat)
    requires a.prefix == b.prefix && a.tails == b.tails
    ensures LinkKeys(a, oh) == LinkKeys(b, oh)
  {
    forall k | k in LinkKeys(a, oh)
      ensures k in LinkKeys(b, oh)
    {
      var i :| 0 <= i < |a.tails| && k == LKey(a, oh, i);
      assert k == LKey(b, oh, i);
    }
    forall k | k in LinkKeys(b, oh)
      ensures k in LinkKeys(a, oh)
    {
      var i :| 0 <= i < |b.tails| && k == LKey(b, oh, i);
      assert k == LKey(a, oh, i);
    }
  }

  /** One more link in the loop. */
  lemma LinksStep(mem: map<Word, Word>, table: map<string, Descriptor>, lay: Layout, sw: Sweep, ohMask: nat, oh: nat)
    requires Shaped(lay) && LinksReadable(mem, table, lay, sw, ohMask, oh)
    requires Reads(sw, ohMask, oh) ==> LinkReadable(mem, table, lay, sw, oh)
    ensures LinksReadable(mem, table, lay, sw, ohMask, oh + 1)
    ensures Monitored(mem, table, lay, sw, ohMask, oh + 1) == Monitored(mem, table, lay, sw, ohMask, oh) + LinkPart(mem, table, lay, sw, ohMask, oh)
  {
  }

  /** One link: placeholders or nothing when it is masked, else fw_version_check when
    * the read-out asks for it, then the link's registers in order. */
  method MonitorLink(hw: Hardware, layOf: Word -> Layout, sw: Sweep, ohMask: nat, oh: nat) returns (r: Result<map<string, Word>>)
    requires Uniform(layOf)
    modifies hw`faults, hw`trace
    ensures var lay := LayoutAt(hw.mem, hw.table, layOf, sw);
      r.Ok? ==> (Reads(sw, ohMask, oh) ==> LinkReadable(hw.mem, hw.table, lay, sw, oh)) &&
                r.value == LinkPart(hw.mem, hw.table, lay, sw, ohMask, oh)
    ensures r.Err? ==> r.error.RuntimeError?
    ensures Effects(hw.trace) == Effects(old(hw.trace))
  {
    if !Reads(sw, ohMask, oh) {
      LinkKeysAlike(layOf(0), LayoutAt(hw.mem, hw.table, layOf, sw), oh);
      return Ok(if sw.fills then Placeholders(LinkKeys(layOf(0), oh)) else map[]);
    }
    var fw: Word := 0;
    if sw.checked {
      var v := Amc.FwVersionCheck(hw);
      if v.Err? {
        return Err(v.error);
      }
      fw := v.value;
    }
    assert layOf(fw) == LayoutAt(hw.mem, hw.table, layOf, sw);
    var vals := ReadProbes(hw, LinkProbes(layOf(fw), oh));
    if vals.Err? {
      return Err(vals.error);
    }
    r := Ok(vals.value);
  }

  /** The loop over links 0 to supOH - 1; nothing is written. */
  method MonitorLinks(hw: Hardware, layOf: Word -> Layout, sw: Sweep, ohMask: nat, supOH: nat) returns (r: Result<map<string, Word>>)
    requires Uniform(layOf)
    modifies hw`faults, hw`trace
    ensures var lay := LayoutAt(hw.mem, hw.table, layOf, sw);
      r.Ok? ==> LinksReadable(hw.mem, hw.table, lay, sw, ohMask, supOH) &&
                r.value == Monitored(hw.mem, hw.table, lay, sw, ohMask, supOH)
    ensures r.Err? ==> r.error.RuntimeError?
    ensures Effects(hw.trace) == Effects(old(hw.trace))
  {
    ghost var mem, table := hw.mem, hw.table;
    ghost var lay := LayoutAt(mem, table, layOf, sw);
    var out: map<string, Word> := map[];
    var oh := 0;
    while oh < supOH
      invariant oh <= supOH && hw.mem == mem && hw.table == table
      invariant LinksReadable(mem, table, lay, sw, ohMask, oh)
      invariant out == Monitored(mem, table, lay, sw, ohMask, oh)
      invariant Effects(hw.trace) == Effects(old(hw.trace))
    {
      var part := MonitorLink(hw, layOf, sw, ohMask, oh);
      if part.Err? {
        return Err(part.error);
      }
      LinksStep(mem, table, lay, sw, ohMask, oh);
      out := out + part.value;
      oh := oh + 1;
    }
    r := Ok(out);
  }

  /** `supOH = readReg(NUM_OF_OH)`, then the loop over links 0 to supOH - 1. */
  method GetmonLinks(hw: Hardware, layOf: Word -> Layout, sw: Sweep, ohMask: nat) returns (r: Result<map<string, Word>>)
    requires Uniform(layOf)
    modifies hw`faults, hw`trace
    ensures r.Ok? ==> Readable(hw.mem, hw.table, Amc.NUM_OF_OH)
    ensures r.Ok? ==> var lay := LayoutAt(hw.mem, hw.table, layOf, sw);
      var n := RegValue(hw.mem, hw.table, Amc.NUM_OF_OH);
      LinksReadable(hw.mem, hw.table, lay, sw, ohMask, n) && r.value == Monitored(hw.mem, hw.table, lay, sw, ohMask, n)
    ensures r.Err? ==> r.error.RuntimeError?
    ensures Effects(hw.trace) == Effects(old(hw.trace))
  {
    var supOH := hw.Get(Amc.NUM_OF_OH);
    if supOH.Err? {
      return Err(supOH.error);
    }
    r := MonitorLinks(hw, layOf, sw, ohMask, supOH.value);
  }

  // ---------------------------------------------------------------------------
  // Read-outs that write

  /** One step of a read-out that also writes: a register write, or a probe read. */
  datatype Step = Put(reg: string, value: Word) | Take(probe: Probe)

  predicate StepOk(mem: map<Word, Word>, table: map<string, Descriptor>, s: Step)
  {
    match s
    case Put(reg, _) => Mapped(mem.Keys, table, reg)
    case Take(p) => ProbeReadable(mem, table, p)
  }

  /** The memory after one step: a write changes its register's field. */
  function StepMem(mem: map<Word, Word>, table: map<string, Descriptor>, s: Step): (m: map<Word, Word>)
    ensures m.Keys == mem.Keys
  {
    if s.Put? && Mapped(mem.Keys, table, s.reg) then RegWritten(mem, table, s.reg, s.value) else mem
  }

  /** The memory after the steps, one after the other. */
  function RunMem(mem: map<Word, Word>, table: map<string, Descriptor>, ss: seq<Step>): (m: map<Word, Word>)
    ensures m.Keys == mem.Keys
    decreases |ss|
  {
    if ss == [] then mem else StepMem(RunMem(mem, table, ss[..|ss| - 1]), table, ss[|ss| - 1])
  }

  /** Every step can be made on the memory the earlier ones left. */
  predicate RunOk(mem: map<Word, Word>, table: map<string, Descriptor>, ss: seq<Step>)
    decreases |ss|
  {
    ss == [] ||
    (RunOk(mem, table, ss[..|ss| - 1]) && StepOk(RunMem(mem, table, ss[..|ss| - 1]), table, ss[|ss| - 1]))
  }

  /** The map the reads fill, each on the memory the earlier steps left. */
  function RunValues(mem: map<Word, Word>, table: map<string, Descriptor>, ss: seq<Step>): map<string, Word>
    decreases |ss|
  {
    if ss == [] then map[]
    else
      var before := ss[..|ss| - 1];
      var s := ss[|ss| - 1];
      if s.Take? then RunValues(mem, table, before)[s.probe.key := ProbeValue(RunMem(mem, table, before), table, s.probe)]
      else RunValues(mem, table, before)
  }

  /** The writes among the steps, in order. */
  function RunWrites(ss: seq<Step>): seq<(string, Word)>
    decreases |ss|
  {
    if ss == [] then []
    else RunWrites(ss[..|ss| - 1]) + (if ss[|ss| - 1].Put? then [(ss[|ss| - 1].reg, ss[|ss| - 1].value)] else [])
  }

  lemma WritesOfSnoc(ws: seq<(string, Word)>, w: (string, Word))
    ensures WritesOf(ws + [w]) == WritesOf(ws) + [Write(w.0, w.1)]
  {
    assert (ws + [w])[..|ws|] == ws;
  }

  lemma RunPrefix(mem: map<Word, Word>, table: map<string, Descriptor>, ss: seq<Step>, i: nat)
    requires i < |ss|
    ensures RunMem(mem, table, ss[..i + 1]) == StepMem(RunMem(mem, table, ss[..i]), table, ss[i])
    ensures RunOk(mem, table, ss[..i + 1]) <==> RunOk(mem, table, ss[..i]) && StepOk(RunMem(mem, table, ss[..i]), table, ss[i])
    ensures RunValues(mem, table, ss[..i + 1]) ==
            if ss[i].Take? then RunValues(mem, table, ss[..i])[ss[i].probe.key := ProbeValue(RunMem(mem, table, ss[..i]), table, ss[i].probe)]
            else RunValues(mem, table, ss[..i])
    ensures ss[i].Put? ==> RunWrites(ss[..i + 1]) == RunWrites(ss[..i]) + [(ss[i].reg, ss[i].value)]
    ensures ss[i].Take? ==> RunWrites(ss[..i + 1]) == RunWrites(ss[..i])
  {
    assert ss[..i + 1][..i] == ss[..i];
  }

  /** The read-out's state after one more step that did not throw. */
  lemma RunAdvance(m0: map<Word, Word>, table: map<string, Descriptor>, ss: seq<Step>, i: nat,
                   m: map<Word, Word>, m': map<Word, Word>, out: map<string, Word>, v: Word)
    requires i < |ss|
    requires RunOk(m0, table, ss[..i]) && m == RunMem(m0, table, ss[..i]) && out == RunValues(m0, table, ss[..i])
    requires StepOk(m, table, ss[i]) && m' == StepMem(m, table, ss[i])
    requires ss[i].Take? ==> v == ProbeValue(m, table, ss[i].probe)
    ensures RunOk(m0, table, ss[..i + 1]) && m' == RunMem(m0, table, ss[..i + 1])
    ensures RunValues(m0, table, ss[..i + 1]) == if ss[i].Take? then out[ss[i].probe.key := v] else out
    ensures ss[i].Put? ==> RunWrites(ss[..i + 1]) == RunWrites(ss[..i]) + [(ss[i].reg, ss[i].value)]
    ensures ss[i].Take? ==> RunWrites(ss[..i + 1]) == RunWrites(ss[..i])
  {
    RunPrefix(m0, table, ss, i);
  }

  /** `writeReg` or a probe's read. */
  method DoStep(hw: Hardware, s: Step) returns (r: Result<Word>)
    modifies hw`mem, hw`faults, hw`trace
    ensures hw.mem.Keys == old(hw.mem).Keys
    ensures r.Ok? ==> StepOk(old(hw.mem), hw.table, s) && hw.mem == StepMem(old(hw.mem), hw.table, s)
    ensures r.Ok? && s.Take? ==> r.value == ProbeValue(old(hw.mem), hw.table, s.probe)
    ensures r.Ok? && s.Put? ==> Effects(hw.trace) == Effects(old(hw.trace)) + [Write(s.reg, s.value)]
    ensures s.Take? ==> Effects(hw.trace) == Effects(old(hw.trace))
    ensures r.Err? ==> r.error.RuntimeError?
  {
    match s
    case Put(reg, v) =>
      var w := hw.Set(reg, v);
      if w.Err? {
        return Err(w.error);
      }
      r := Ok(v);
    case Take(p) =>
      r := ReadProbe(hw, p);
  }

  /** The steps in order, stopping at the first that throws. */
  method RunSteps(hw: Hardware, ss: seq<Step>) returns (r: Result<map<string, Word>>)
    modifies hw`mem, hw`faults, hw`trace
    ensures hw.mem.Keys == old(hw.mem).Keys
    ensures r.Ok? ==> RunOk(old(hw.mem), hw.table, ss) && hw.mem == RunMem(old(hw.mem), hw.table, ss) &&
                      r.value == RunValues(old(hw.mem), hw.table, ss) &&
                      Effects(hw.trace) == Effects(old(hw.trace)) + WritesOf(RunWrites(ss))
    ensures r.Err? ==> r.error.RuntimeError?
  {
    ghost var m0 := hw.mem;
    ghost var e0 := Effects(hw.trace);
    var out: map<string, Word> := map[];
    var i := 0;
    while i < |ss|
      invariant i <= |ss| && hw.mem.Keys == m0.Keys
      invariant RunOk(m0, hw.table, ss[..i]) && hw.mem == RunMem(m0, hw.table, ss[..i])
      invariant out == RunValues(m0, hw.table, ss[..i])
      invariant Effects(hw.trace) == e0 + WritesOf(RunWrites(ss[..i]))
    {
      ghost var m := hw.mem;
      var x := DoStep(hw, ss[i]);
      if x.Err? {
        return Err(x.error);
      }
      RunAdvance(m0, hw.table, ss, i, m, hw.mem, out, x.value);
      if ss[i].Take? {
        out := out[ss[i].probe.key := x.value];
      } else {
        var ws := RunWrites(ss[..i]);
        WritesOfSnoc(ws, (ss[i].reg, ss[i].value));
        Associative(e0, WritesOf(ws), [Write(ss[i].reg, ss[i].value)]);
      }
      i := i + 1;
    }
    assert ss[..i] == ss;
    r := Ok(out);
  }

  /** Writing one list of registers after another logs their concatenation. */
  lemma {:induction false} WritesOfAppend(a: seq<(string, Word)>, b: seq<(string, Word)>)
    ensures WritesOf(a + b) == WritesOf(a) + WritesOf(b)
    decreases |b|
  {
    if b == [] {
      assert a + b == a;
    } else {
      var front := b[..|b| - 1];
      assert (a + b)[..|a + b| - 1] == a + front;
      WritesOfAppend(a, front);
      var last := b[|b| - 1];
      Associative(WritesOf(a), WritesOf(front), [Write(last.0, last.1)]);
    }
  }

  /** The keys the reads of some steps fill. */
  function TakeKeys(ss: seq<Step>): set<string>
  {
    set j | 0 <= j < |ss| && ss[j].Take? :: ss[j].probe.key
  }

  /** No two reads of the steps fill the same key. */
  predicate DistinctTakes(ss: seq<Step>)
  {
    forall i, j :: 0 <= i < j < |ss| && ss[i].Take? && ss[j].Take? ==> ss[i].probe.key != ss[j].probe.key
  }

  /** The map of a read-out that writes has one key per read. */
  lemma {:induction false} RunValuesKeys(mem: map<Word, Word>, table: map<string, Descriptor>, ss: seq<Step>)
    ensures RunValues(mem, table, ss).Keys == TakeKeys(ss)
    decreases |ss|
  {
    if ss != [] {
      var q := ss[..|ss| - 1];
      RunValuesKeys(mem, table, q);
      assert forall j :: 0 <= j < |q| ==> q[j] == ss[j];
      assert TakeKeys(ss) == TakeKeys(q) + (if ss[|ss| - 1].Take? then {ss[|ss| - 1].probe.key} else {});
    }
  }

  /** With distinct keys, a read's key holds the word it read on the memory the steps
    * before it left. */
  lemma {:induction false} RunValuesAt(mem: map<Word, Word>, table: map<string, Descriptor>, ss: seq<Step>, j: nat)
    requires DistinctTakes(ss) && j < |ss| && ss[j].Take?
    ensures ss[j].probe.key in RunValues(mem, table, ss)
    ensures RunValues(mem, table, ss)[ss[j].probe.key] == ProbeValue(RunMem(mem, table, ss[..j]), table, ss[j].probe)
    decreases |ss|
  {
    var q := ss[..|ss| - 1];
    if j < |ss| - 1 {
      assert q[j] == ss[j];
      assert q[..j] == ss[..j];
      assert DistinctTakes(q);
      RunValuesAt(mem, table, q, j);
    } else {
      assert q == ss[..j];
    }
  }
}
