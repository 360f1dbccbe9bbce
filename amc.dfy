/** The AMC functions of src/amc.cpp: the firmware release check, the VFAT masks
  * derived from the sync-error counters, the s-bit monitor read-out and the
  * aggregation of repeated register reads. */
module Amc {

  import opened Wrappers
  import opened Bits
  import opened Packing
  import opened Text
  import opened ErrorCounters
  import opened Registers
  import opened HwConstants

  const RELEASE_MAJOR: string := "GEM_AMC.GEM_SYSTEM.RELEASE.MAJOR"
  const NUM_OF_OH: string := "GEM_AMC.GEM_SYSTEM.CONFIG.NUM_OF_OH"

  // ---------------------------------------------------------------------------
  // fw_version_check

  /** The decision of `fw_version_check` on the release major version `v`. */
  function FwMajor(v: Word): (r: Result<Word>)
    ensures r.Ok? <==> v == 1 || v == 3
    ensures r.Ok? ==> r.value == v
    ensures r.Err? ==> r.error == RuntimeError(BadVersion)
  {
    if v == 1 || v == 3 then Ok(v) else Err(RuntimeError(BadVersion))
  }

  /** `fw_version_check`: 1 (v2B electronics) or 3 (v3 electronics), and an error for
    * any other release. */
  method FwVersionCheck(hw: Hardware) returns (r: Result<Word>)
    modifies hw`faults, hw`trace
    ensures (Readable(hw.mem, hw.table, RELEASE_MAJOR) && r == FwMajor(RegValue(hw.mem, hw.table, RELEASE_MAJOR))) ||
            (r.Err? && r.error.RuntimeError?)
    ensures r.Ok? ==> Readable(hw.mem, hw.table, RELEASE_MAJOR) && r.value == RegValue(hw.mem, hw.table, RELEASE_MAJOR)
    ensures Effects(hw.trace) == Effects(old(hw.trace))
  {
    var x := hw.Get(RELEASE_MAJOR);
    if x.Err? {
      return Err(x.error);
    }
    r := FwMajor(x.value);
  }

  // ---------------------------------------------------------------------------
  // getOHVFATMask, getOHVFATMaskMultiLink

  function SyncName(ohN: nat, vfatN: nat): string
  {
    "GEM_AMC.OH_LINKS.OH" + Dec(ohN) + ".VFAT" + Dec(vfatN) + ".SYNC_ERR_CNT"
  }

  /** The sync-error counters of the first `n` VFATs of link `ohN` can be read. */
  predicate SyncReadable(mem: map<Word, Word>, table: map<string, Descriptor>, ohN: nat, n: nat)
  {
    forall v :: 0 <= v < n ==> Readable(mem, table, SyncName(ohN, v))
  }

  /** For each of the first `n` VFATs of link `ohN`: has it seen sync errors? */
  function SyncFlags(mem: map<Word, Word>, table: map<string, Descriptor>, ohN: nat, n: nat): (bs: seq<bool>)
    requires SyncReadable(mem, table, ohN, n)
    ensures |bs| == n
  {
    seq(n, v requires 0 <= v < n => RegValue(mem, table, SyncName(ohN, v)) > 0)
  }

  /** The mask `getOHVFATMask(ohN)` builds. */
  function VfatMask(mem: map<Word, Word>, table: map<string, Descriptor>, ohN: nat, n: nat): nat
    requires SyncReadable(mem, table, ohN, n)
  {
    MaskOf(SyncFlags(mem, table, ohN, n))
  }

  /** Bit v of the mask is set iff v is one of the VFATs and its SYNC_ERR_CNT is not 0;
    * no other bit is set, so with at most 24 VFATs the mask fits in 0xffffff. */
  lemma VfatMaskBits(mem: map<Word, Word>, table: map<string, Descriptor>, ohN: nat, n: nat)
    requires SyncReadable(mem, table, ohN, n)
    ensures VfatMask(mem, table, ohN, n) < Pow2(n)
    ensures n <= 24 ==> VfatMask(mem, table, ohN, n) <= 0xff_ffff
    ensures forall v: nat :: Bit(VfatMask(mem, table, ohN, n), v) <==>
      v < n && RegValue(mem, table, SyncName(ohN, v)) > 0
  {
    MaskOfBits(SyncFlags(mem, table, ohN, n));
    if n <= 24 {
      Pow2Values();
      Pow2Mono(n, 24);
    }
  }

  lemma SyncFlagsStep(mem: map<Word, Word>, table: map<string, Descriptor>, ohN: nat, n: nat)
    requires SyncReadable(mem, table, ohN, n + 1)
    ensures SyncFlags(mem, table, ohN, n + 1)[..n] == SyncFlags(mem, table, ohN, n)
  {
  }

  /** One more VFAT: its bit is or-ed in when its counter is not 0. */
  lemma VfatMaskStep(mem: map<Word, Word>, table: map<string, Descriptor>, ohN: nat, n: nat)
    requires SyncReadable(mem, table, ohN, n + 1) && n < 24
    ensures VfatMask(mem, table, ohN, n) < Pow2(n) < WORD
    ensures VfatMask(mem, table, ohN, n + 1) ==
      if RegValue(mem, table, SyncName(ohN, n)) > 0 then Or(VfatMask(mem, table, ohN, n), Shl(1, n))
      else VfatMask(mem, table, ohN, n)
  {
    var bs := SyncFlags(mem, table, ohN, n + 1);
    SyncFlagsStep(mem, table, ohN, n);
    MaskOfStep(bs, n);
    assert bs[..n + 1] == bs;
    MaskOfBound(bs[..n]);
    Pow2Values();
    Pow2Mono(n, 24);
    OrBit(VfatMask(mem, table, ohN, n), n);
  }

  /** `getOHVFATMask(ohN)`: one read per VFAT, in VFAT order. */
  method GetOHVFATMask(hw: Hardware, c: Consts, ohN: nat) returns (r: Result<Word>)
    requires Valid(c)
    modifies hw`faults, hw`trace
    ensures r.Ok? ==> SyncReadable(hw.mem, hw.table, ohN, c.vfatsPerOh) && r.value == VfatMask(hw.mem, hw.table, ohN, c.vfatsPerOh)
    ensures r.Err? ==> r.error.RuntimeError?
    ensures Effects(hw.trace) == Effects(old(hw.trace))
  {
    var mask: Word := 0;
    var vfatN := 0;
    while vfatN < c.vfatsPerOh
      invariant 0 <= vfatN <= c.vfatsPerOh
      invariant SyncReadable(hw.mem, hw.table, ohN, vfatN)
      invariant mask == VfatMask(hw.mem, hw.table, ohN, vfatN)
      invariant Effects(hw.trace) == Effects(old(hw.trace))
    {
      var x := hw.Get(SyncName(ohN, vfatN));
      if x.Err? {
        return Err(x.error);
      }
      VfatMaskStep(hw.mem, hw.table, ohN, vfatN);
      if x.value > 0 {
        mask := Or(mask, Shl(1, vfatN));
      }
      vfatN := vfatN + 1;
    }
    r := Ok(mask);
  }

  /** The masks of every selected link among the first `sup` can be read. */
  predicate MasksReadable(mem: map<Word, Word>, table: map<string, Descriptor>, ohMask: Word, sup: nat, n: nat)
  {
    forall oh :: 0 <= oh < sup && Bit(ohMask, oh) ==> SyncReadable(mem, table, oh, n)
  }

  /** What `getOHVFATMaskMultiLink(ohMask)` returns: one entry per supported link,
    * 0xffffff (every VFAT masked) for a link outside `ohMask`. */
  function VfatMasks(mem: map<Word, Word>, table: map<string, Descriptor>, ohMask: Word, sup: nat, n: nat): seq<nat>
    requires MasksReadable(mem, table, ohMask, sup, n)
  {
    seq(sup, oh requires 0 <= oh < sup => if Bit(ohMask, oh) then VfatMask(mem, table, oh, n) else 0xff_ffff)
  }

  /** There is one entry per supported link; an unselected link masks all 24 VFATs and
    * a selected link masks exactly its VFATs with sync errors. */
  lemma VfatMasksEntries(mem: map<Word, Word>, table: map<string, Descriptor>, ohMask: Word, sup: nat, n: nat)
    requires MasksReadable(mem, table, ohMask, sup, n)
    ensures |VfatMasks(mem, table, ohMask, sup, n)| == sup
    ensures forall oh, v: nat :: 0 <= oh < sup && !Bit(ohMask, oh) && v < 24 ==> Bit(VfatMasks(mem, table, ohMask, sup, n)[oh], v)
    ensures forall oh, v: nat :: 0 <= oh < sup && Bit(ohMask, oh) ==>
      (Bit(VfatMasks(mem, table, ohMask, sup, n)[oh], v) <==> v < n && RegValue(mem, table, SyncName(oh, v)) > 0)
  {
    forall oh, v: nat | 0 <= oh < sup && !Bit(ohMask, oh) && v < 24
      ensures Bit(VfatMasks(mem, table, ohMask, sup, n)[oh], v)
    {
      AllOnes24(v);
    }
    forall oh, v: nat | 0 <= oh < sup && Bit(ohMask, oh)
      ensures Bit(VfatMasks(mem, table, ohMask, sup, n)[oh], v) <==> v < n && RegValue(mem, table, SyncName(oh, v)) > 0
    {
      VfatMaskBits(mem, table, oh, n);
    }
  }

  /** 0xffffff has bits 0 to 23 set. */
  lemma AllOnes24(v: nat)
    requires v < 24
    ensures Bit(0xff_ffff, v)
  {
    Pow2Values();
    AllOnesBits(24, v);
  }

  /** 2^n - 1 has bits 0 to n - 1 set. */
  lemma {:induction false} AllOnesBits(n: nat, v: nat)
    requires v < n
    ensures Bit(Pow2(n) - 1, v)
    decreases v
  {
    if v > 0 {
      assert (Pow2(n) - 1) / 2 == Pow2(n - 1) - 1;
      AllOnesBits(n - 1, v - 1);
    }
  }

  lemma VfatMasksStep(mem: map<Word, Word>, table: map<string, Descriptor>, ohMask: Word, i: nat, n: nat, v: nat)
    requires MasksReadable(mem, table, ohMask, i, n)
    requires Bit(ohMask, i) ==> SyncReadable(mem, table, i, n) && v == VfatMask(mem, table, i, n)
    requires !Bit(ohMask, i) ==> v == 0xff_ffff
    ensures MasksReadable(mem, table, ohMask, i + 1, n)
    ensures VfatMasks(mem, table, ohMask, i + 1, n) == VfatMasks(mem, table, ohMask, i, n) + [v]
  {
  }

  /** `getOHVFATMaskMultiLink(ohMask)`: NUM_OF_OH is read and each supported link is
    * visited in order. */
  method GetOHVFATMaskMultiLink(hw: Hardware, c: Consts, ohMask: Word) returns (r: Result<seq<nat>>)
    requires Valid(c)
    modifies hw`faults, hw`trace
    ensures r.Ok? ==> (Readable(hw.mem, hw.table, NUM_OF_OH) &&
      MasksReadable(hw.mem, hw.table, ohMask, RegValue(hw.mem, hw.table, NUM_OF_OH), c.vfatsPerOh) &&
      r.value == VfatMasks(hw.mem, hw.table, ohMask, RegValue(hw.mem, hw.table, NUM_OF_OH), c.vfatsPerOh))
    ensures r.Err? ==> r.error.RuntimeError?
    ensures Effects(hw.trace) == Effects(old(hw.trace))
  {
    var sup := hw.Get(NUM_OF_OH);
    if sup.Err? {
      return Err(sup.error);
    }
    var masks: seq<nat> := [];
    var ohN := 0;
    while ohN < sup.value
      invariant 0 <= ohN <= sup.value
      invariant MasksReadable(hw.mem, hw.table, ohMask, ohN, c.vfatsPerOh)
      invariant masks == VfatMasks(hw.mem, hw.table, ohMask, ohN, c.vfatsPerOh)
      invariant Effects(hw.trace) == Effects(old(hw.trace))
    {
      var v: nat := 0xff_ffff;
      if Bit(ohMask, ohN) {
        var x := GetOHVFATMask(hw, c, ohN);
        if x.Err? {
          return Err(x.error);
        }
        v := x.value;
      }
      VfatMasksStep(hw.mem, hw.table, ohMask, ohN, c.vfatsPerOh, v);
      masks := masks + [v];
      ohN := ohN + 1;
    }
    r := Ok(masks);
  }

  // ---------------------------------------------------------------------------
  // sbitReadOut

  const SBIT_MONITOR: string := "GEM_AMC.TRIGGER.SBIT_MONITOR."
  const SC_ONLY_MODE: string := "GEM_AMC.GEM_SYSTEM.VFAT3.SC_ONLY_MODE"
  const NCLUSTERS: nat := 8

  /** The L1A delay kept: values above 0xfff are cut to 0xfff. */
  function ClampL1A(raw: Word): Word
  {
    if raw > 0xfff then 0xfff else raw
  }

  /** The stored word `((l1ADelay & 0x1fff) << 14) + ((clusterSize & 0x7) << 11) +
    * (sbitAddr & 0x7ff)` for a cluster register value, as written. */
  function SbitWord(l1a: Word, cluster: Word): Word
  {
    var sbitAddr := And(cluster, 0x7ff);
    var clusterSize := And(Shr(cluster, 12), 0x7);
    Add32(Add32(Shl(And(l1a, 0x1fff), 14), Shl(And(clusterSize, 0x7), 11)), And(sbitAddr, 0x7ff))
  }

  lemma L1APart(l1a: Word)
    requires l1a <= 0xfff
    ensures Shl(And(l1a, 0x1fff), 14) == l1a * 0x4000
  {
    LowBits(l1a, 13);
    Pow2Values();
    var m := And(l1a, 0x1fff);
    DivModUnique(l1a, 0x2000, l1a, 0);
    assert m == l1a;
    ShlFits(m, 14);
  }

  lemma SizePart(cluster: Word)
    ensures cluster / 0x1000 % 8 < 8
    ensures Shl(And(And(Shr(cluster, 12), 0x7), 0x7), 11) == cluster / 0x1000 % 8 * 0x800
  {
    var size: nat := cluster / 0x1000 % 8;
    FieldBits(cluster, 12, 3);
    LowBits(size, 3);
    Pow2Values();
    var f := And(Shr(cluster, 12), 0x7);
    assert f == size;
    var g := And(f, 0x7);
    DivModUnique(size, 8, size, 0);
    assert g == size;
    ShlFits(g, 11);
  }

  lemma AddrPart(cluster: Word)
    ensures And(And(cluster, 0x7ff), 0x7ff) == cluster % 0x800
  {
    Pow2Values();
    var m := And(cluster, 0x7ff);
    LowBits(cluster, 11);
    assert m == cluster % 0x800;
    LowBits(m, 11);
    DivModUnique(m, 0x800, m, 0);
  }

  lemma AddrOf(cluster: Word)
    ensures And(cluster, 0x7ff) == cluster % 0x800
  {
    LowBits(cluster, 11);
    Pow2Values();
  }

  /** With a delay of at most 0xfff the stored word is the sum of three disjoint fields. */
  lemma SbitWordSum(l1a: Word, cluster: Word)
    requires l1a <= 0xfff
    ensures SbitWord(l1a, cluster) == cluster % 0x800 + cluster / 0x1000 % 8 * 0x800 + l1a * 0x4000
  {
    L1APart(l1a);
    SizePart(cluster);
    AddrPart(cluster);
  }

  /** The stored word is L1A delay * 2^14 + size * 2^11 + address with the three fields
    * disjoint: bits [10:0] give back the cluster's address bits [10:0], bits [13:11] its
    * size bits [14:12], bits [25:14] the clamped delay, and nothing is set above. */
  lemma SbitWordFields(raw: Word, cluster: Word)
    ensures var w := SbitWord(ClampL1A(raw), cluster);
      w < 0x400_0000 &&
      w % 0x800 == cluster % 0x800 &&
      w / 0x800 % 8 == cluster / 0x1000 % 8 &&
      w / 0x4000 == ClampL1A(raw) && ClampL1A(raw) <= 0xfff
  {
    var l1a := ClampL1A(raw);
    var addr, size := cluster % 0x800, cluster / 0x1000 % 8;
    SbitWordSum(l1a, cluster);
    ThreeFields(SbitWord(l1a, cluster), addr, size, l1a);
  }

  /** A word made of an 11-bit, a 3-bit and a 12-bit field gives each field back. */
  lemma ThreeFields(w: nat, addr: nat, size: nat, l1a: nat)
    requires addr < 0x800 && size < 8 && l1a <= 0xfff && w == addr + size * 0x800 + l1a * 0x4000
    ensures w < 0x400_0000 && w % 0x800 == addr && w / 0x800 % 8 == size && w / 0x4000 == l1a
  {
    DivModUnique(w, 0x800, addr, size + 8 * l1a);
    DivModUnique(size + 8 * l1a, 8, size, l1a);
    DivModUnique(w, 0x4000, addr + size * 0x800, l1a);
  }

  /** The address test as written, `sbitAddr < ((24*64)-1)`. */
  predicate ClusterValidAsWritten(addr: nat)
  {
    addr < 24 * 64 - 1
  }

  /** The documented test: an address names one of the 1536 s-bits. */
  predicate ClusterValid(addr: nat)
  {
    addr < 24 * 64
  }

  /** The VFAT position of an s-bit address, `7 - int(addr/192) + int((addr%192)/64)*8`. */
  function VfatPos(addr: nat): int
  {
    7 - addr / 192 + (addr % 192) / 64 * 8
  }

  /** The address of trigger pad `pad` of the VFAT at `pos`. */
  function SbitAddr(pos: nat, pad: nat): nat
    requires pos < 24 && pad < 64
  {
    (7 - pos % 8) * 192 + pos / 8 * 64 + pad
  }

  /** Each valid address names a VFAT position 0..23 and a trigger pad 0..63, and is
    * the address of that pad. */
  lemma ValidAddrNamesPad(addr: nat)
    requires ClusterValid(addr)
    ensures 0 <= VfatPos(addr) < 24 && SbitAddr(VfatPos(addr), addr % 64) == addr
  {
    var q: nat := addr / 192;
    var rr: nat := addr % 192;
    var sl: nat := rr / 64;
    var pad: nat := rr % 64;
    assert q < 8 && sl < 3;
    DivModUnique(addr, 64, pad, 3 * q + sl);
    var pos: nat := 7 - q + sl * 8;
    DivModUnique(pos, 8, 7 - q, sl);
  }

  /** Each (VFAT position, trigger pad) pair has a valid address, and that address
    * gives the pair back. */
  lemma PadAddrValid(pos: nat, pad: nat)
    requires pos < 24 && pad < 64
    ensures ClusterValid(SbitAddr(pos, pad)) && VfatPos(SbitAddr(pos, pad)) == pos && SbitAddr(pos, pad) % 64 == pad
  {
    var u: nat := pos % 8;
    var sl: nat := pos / 8;
    var a := SbitAddr(pos, pad);
    assert a == (7 - u) * 192 + sl * 64 + pad;
    DivModUnique(a, 192, sl * 64 + pad, 7 - u);
    DivModUnique(sl * 64 + pad, 64, pad, sl);
    DivModUnique(a, 64, pad, (7 - u) * 3 + sl);
  }

  /** The test as written drops address 1535, the last trigger pad of VFAT 16. */
  lemma LastSbitRejected()
    ensures ClusterValid(1535) && !ClusterValidAsWritten(1535)
    ensures VfatPos(1535) == 16 && 1535 % 64 == 63
  {
  }

  /** A cluster register value whose address field passes the test as written; such
    * an address is also valid by the documented test. */
  predicate ValidCluster(cluster: Word)
    ensures ValidCluster(cluster) ==> ClusterValid(cluster % 0x800)
  {
    ClusterValidAsWritten(cluster % 0x800)
  }

  /** A batch of stored words one of which holds a valid address. */
  predicate BatchHasValid(ws: seq<Word>)
  {
    exists i :: 0 <= i < |ws| && ValidCluster(ws[i])
  }

  /** What `storedSbits` always satisfies: whole batches of 8 words, each with a valid
    * cluster, every word's delay field at most 0xfff and nothing above bit 25. */
  predicate Stored(ws: seq<Word>)
  {
    |ws| % NCLUSTERS == 0 &&
    (forall b :: 0 <= b < |ws| / NCLUSTERS ==> BatchHasValid(ws[NCLUSTERS * b..NCLUSTERS * b + NCLUSTERS])) &&
    (forall j :: 0 <= j < |ws| ==> ws[j] < 0x400_0000 && ws[j] / 0x4000 <= 0xfff)
  }

  /** Appending a batch of 8 words with a valid cluster keeps `Stored`. */
  lemma StoredAppend(ws: seq<Word>, batch: seq<Word>)
    requires Stored(ws) && |batch| == NCLUSTERS && BatchHasValid(batch)
    requires forall j :: 0 <= j < |batch| ==> batch[j] < 0x400_0000 && batch[j] / 0x4000 <= 0xfff
    ensures Stored(ws + batch)
  {
    var all := ws + batch;
    var k := |ws| / NCLUSTERS;
    assert |all| / NCLUSTERS == k + 1;
    forall b | 0 <= b < |all| / NCLUSTERS
      ensures BatchHasValid(all[NCLUSTERS * b..NCLUSTERS * b + NCLUSTERS])
    {
      if b < k {
        assert all[NCLUSTERS * b..NCLUSTERS * b + NCLUSTERS] == ws[NCLUSTERS * b..NCLUSTERS * b + NCLUSTERS];
      } else {
        assert all[NCLUSTERS * b..NCLUSTERS * b + NCLUSTERS] == batch;
      }
    }
  }

  /** The address field of w decodes to a VFAT position 0..23 and a trigger pad
    * 0..63 that give the address back. */
  predicate NamesPad(w: Word)
  {
    0 <= VfatPos(w % 0x800) < 24 && SbitAddr(VfatPos(w % 0x800), w % 0x800 % 64) == w % 0x800
  }

  /** Each batch `sbitReadOut` stores has a word whose address field decodes to a
    * VFAT position 0..23 and a trigger pad 0..63 that give the address back. */
  lemma StoredDecodes(ws: seq<Word>, b: nat)
    requires Stored(ws) && b < |ws| / NCLUSTERS
    ensures exists j :: NCLUSTERS * b <= j < NCLUSTERS * b + NCLUSTERS && NamesPad(ws[j])
  {
    var batch := ws[NCLUSTERS * b..NCLUSTERS * b + NCLUSTERS];
    assert BatchHasValid(batch);
    var i :| 0 <= i < |batch| && ValidCluster(batch[i]);
    var j := NCLUSTERS * b + i;
    assert batch[i] == ws[j];
    ValidAddrNamesPad(ws[j] % 0x800);
  }

  /** Every address of `addrs` is backed by memory. */
  predicate AllIn(mem: map<Word, Word>, addrs: seq<Word>)
  {
    forall i :: 0 <= i < |addrs| ==> addrs[i] in mem
  }

  /** The values of the cluster registers at `addrs`. */
  function ClusterValues(mem: map<Word, Word>, addrs: seq<Word>): (cs: seq<Word>)
    requires AllIn(mem, addrs)
    ensures |cs| == |addrs|
  {
    seq(|addrs|, i requires 0 <= i < |addrs| => mem[addrs[i]])
  }

  lemma ClusterValuesStep(mem: map<Word, Word>, addrs: seq<Word>, i: nat)
    requires i < |addrs| && AllIn(mem, addrs[..i]) && addrs[i] in mem
    ensures AllIn(mem, addrs[..i + 1])
    ensures ClusterValues(mem, addrs[..i + 1]) == ClusterValues(mem, addrs[..i]) + [mem[addrs[i]]]
  {
  }

  lemma HasValidStep(cs: seq<Word>, c: Word)
    ensures BatchHasValid(cs + [c]) <==> BatchHasValid(cs) || ValidCluster(c)
  {
    if ValidCluster(c) {
      assert (cs + [c])[|cs|] == c;
    }
    if BatchHasValid(cs) {
      var i :| 0 <= i < |cs| && ValidCluster(cs[i]);
      assert (cs + [c])[i] == cs[i];
    }
  }

  /** The words one read-out of the monitor produces. */
  function BatchWords(l1a: Word, cs: seq<Word>): (ws: seq<Word>)
    ensures |ws| == |cs|
  {
    seq(|cs|, i requires 0 <= i < |cs| => SbitWord(l1a, cs[i]))
  }

  /** A batch is kept when one of its words is valid, which is when one of the
    * clusters it was built from is. */
  lemma BatchWordsValid(raw: Word, cs: seq<Word>)
    ensures var ws := BatchWords(ClampL1A(raw), cs);
      (BatchHasValid(ws) <==> BatchHasValid(cs)) &&
      forall j :: 0 <= j < |ws| ==> ws[j] < 0x400_0000 && ws[j] / 0x4000 <= 0xfff
  {
    var ws := BatchWords(ClampL1A(raw), cs);
    forall i | 0 <= i < |cs|
      ensures ws[i] % 0x800 == cs[i] % 0x800 && ws[i] < 0x400_0000 && ws[i] / 0x4000 <= 0xfff
    {
      SbitWordFields(raw, cs[i]);
    }
    assert forall i :: 0 <= i < |cs| ==> (ValidCluster(ws[i]) <==> ValidCluster(cs[i]));
  }

  lemma BatchStep(l1a: Word, cs: seq<Word>, c: Word)
    ensures BatchWords(l1a, cs + [c]) == BatchWords(l1a, cs) + [SbitWord(l1a, c)]
  {
  }

  /** Every word has its delay field at most 0xfff and nothing set above bit 25. */
  predicate InRange(ws: seq<Word>)
  {
    forall j :: 0 <= j < |ws| ==> ws[j] < 0x400_0000 && ws[j] / 0x4000 <= 0xfff
  }

  /** The inner loop of one pass: read the eight clusters in order, pack each into a
    * stored word with delay `l1ADelay`, and note whether one of them is valid. */
  method ReadClusters(hw: Hardware, l1ADelay: Word, clusterAddrs: seq<Word>) returns (r: Result<(seq<Word>, bool)>)
    requires |clusterAddrs| == NCLUSTERS
    modifies hw`faults, hw`trace
    ensures r.Ok? ==> (AllIn(hw.mem, clusterAddrs) &&
      r.value.0 == BatchWords(l1ADelay, ClusterValues(hw.mem, clusterAddrs)) &&
      (r.value.1 <==> BatchHasValid(ClusterValues(hw.mem, clusterAddrs))))
    ensures r.Err? ==> r.error.RuntimeError?
    ensures Effects(hw.trace) == Effects(old(hw.trace))
  {
    var anyValid := false;
    var temp: seq<Word> := [];
    var cs: seq<Word> := [];
    var cluster := 0;
    while cluster < NCLUSTERS
      invariant 0 <= cluster <= NCLUSTERS
      invariant AllIn(hw.mem, clusterAddrs[..cluster]) && cs == ClusterValues(hw.mem, clusterAddrs[..cluster])
      invariant temp == BatchWords(l1ADelay, cs)
      invariant anyValid <==> BatchHasValid(cs)
      invariant Effects(hw.trace) == Effects(old(hw.trace))
    {
      var x := ReadCluster(hw, l1ADelay, clusterAddrs, cluster, temp, cs, anyValid);
      if x.Err? {
        return Err(x.error);
      }
      temp, cs, anyValid := x.value.0, x.value.1, x.value.2;
      cluster := cluster + 1;
    }
    assert clusterAddrs[..NCLUSTERS] == clusterAddrs;
    r := Ok((temp, anyValid));
  }

  /** One pass of that loop: cluster register `cluster` read, packed and tested. */
  method ReadCluster(hw: Hardware, l1ADelay: Word, clusterAddrs: seq<Word>, cluster: nat,
                     temp: seq<Word>, cs: seq<Word>, anyValid: bool)
    returns (r: Result<(seq<Word>, seq<Word>, bool)>)
    requires cluster < |clusterAddrs|
    requires AllIn(hw.mem, clusterAddrs[..cluster]) && cs == ClusterValues(hw.mem, clusterAddrs[..cluster])
    requires temp == BatchWords(l1ADelay, cs) && (anyValid <==> BatchHasValid(cs))
    modifies hw`faults, hw`trace
    ensures r.Ok? ==> (AllIn(hw.mem, clusterAddrs[..cluster + 1]) &&
      r.value.1 == ClusterValues(hw.mem, clusterAddrs[..cluster + 1]) &&
      r.value.0 == BatchWords(l1ADelay, r.value.1) && (r.value.2 <==> BatchHasValid(r.value.1)))
    ensures r.Err? ==> r.error.RuntimeError?
    ensures Effects(hw.trace) == Effects(old(hw.trace))
  {
    var x := hw.GetRaw(clusterAddrs[cluster]);
    if x.Err? {
      return Err(x.error);
    }
    var thisCluster := x.value;
    var sbitAddr := And(thisCluster, 0x7ff);
    AddrOf(thisCluster);
    ClusterValuesStep(hw.mem, clusterAddrs, cluster);
    HasValidStep(cs, thisCluster);
    BatchStep(l1ADelay, cs, thisCluster);
    r := Ok((temp + [SbitWord(l1ADelay, thisCluster)], cs + [thisCluster], anyValid || ClusterValidAsWritten(sbitAddr)));
  }

  /** The reads of one pass of the acquisition loop: the delay, clamped, then the
    * eight clusters. The words are in range and the flag says whether the batch holds
    * a valid cluster. */
  method ReadBatch(hw: Hardware, l1aAddr: Word, clusterAddrs: seq<Word>) returns (r: Result<(seq<Word>, bool)>)
    requires |clusterAddrs| == NCLUSTERS
    modifies hw`faults, hw`trace
    ensures r.Ok? ==> (l1aAddr in hw.mem && AllIn(hw.mem, clusterAddrs) &&
      r.value.0 == BatchWords(ClampL1A(hw.mem[l1aAddr]), ClusterValues(hw.mem, clusterAddrs)) &&
      (r.value.1 <==> BatchHasValid(ClusterValues(hw.mem, clusterAddrs))) &&
      (r.value.1 <==> BatchHasValid(r.value.0)) && InRange(r.value.0))
    ensures r.Err? ==> r.error.RuntimeError?
    ensures Effects(hw.trace) == Effects(old(hw.trace))
  {
    var d := hw.GetRaw(l1aAddr);
    if d.Err? {
      return Err(d.error);
    }
    r := ReadClusters(hw, ClampL1A(d.value), clusterAddrs);
    if r.Ok? {
      BatchWordsValid(d.value, ClusterValues(hw.mem, clusterAddrs));
    }
  }

  /** The acquisition loop: at least one pass, each resetting the monitor and keeping
    * its eight words when a cluster is valid. The wall clock is the parameter
    * `rounds`: the number of passes after which the elapsed time exceeds the
    * acquisition time. */
  method Acquire(hw: Hardware, resetAddr: Word, l1aAddr: Word, clusterAddrs: seq<Word>, rounds: nat)
    returns (r: Result<seq<Word>>)
    requires |clusterAddrs| == NCLUSTERS
    modifies hw`mem, hw`faults, hw`trace
    ensures hw.mem.Keys == old(hw.mem).Keys
    ensures r.Ok? ==> Stored(r.value) && resetAddr in old(hw.mem) && hw.mem == old(hw.mem)[resetAddr := 1]
    ensures r.Err? ==> r.error.RuntimeError?
  {
    var storedSbits: seq<Word> := [];
    var passes := 0;
    var acquire := true;
    while acquire
      invariant hw.mem.Keys == old(hw.mem).Keys
      invariant Stored(storedSbits)
      invariant passes == 0 ==> acquire && hw.mem == old(hw.mem)
      invariant passes > 0 ==> resetAddr in old(hw.mem) && hw.mem == old(hw.mem)[resetAddr := 1]
      invariant acquire ==> passes <= rounds || passes == 0
      decreases (if acquire then 1 else 0) + rounds - passes
    {
      var w := hw.SetRaw(resetAddr, 1);
      if w.Err? {
        return Err(w.error);
      }
      var x := ReadBatch(hw, l1aAddr, clusterAddrs);
      if x.Err? {
        return Err(x.error);
      }
      if x.value.1 {
        StoredAppend(storedSbits, x.value.0);
        storedSbits := storedSbits + x.value.0;
      }
      passes := passes + 1;
      if passes >= rounds {
        acquire := false;
      }
    }
    r := Ok(storedSbits);
  }

  /** The cluster register names, CLUSTER0 to CLUSTER7. */
  function ClusterName(i: nat): string
  {
    SBIT_MONITOR + "CLUSTER" + Dec(i)
  }

  /** The set-up of `sbitReadOut`: select the link, look up the monitor's addresses,
    * take the VFATs out of slow-control-only mode. */
  method SbitSetup(hw: Hardware, ohN: Word) returns (r: Result<(Word, Word, seq<Word>)>)
    modifies hw`mem, hw`faults, hw`trace
    ensures hw.mem.Keys == old(hw.mem).Keys
    ensures r.Ok? ==> (Mapped(old(hw.mem).Keys, hw.table, SBIT_MONITOR + "OH_SELECT") &&
      Mapped(old(hw.mem).Keys, hw.table, SC_ONLY_MODE) &&
      hw.mem == RegWritten(RegWritten(old(hw.mem), hw.table, SBIT_MONITOR + "OH_SELECT", ohN), hw.table, SC_ONLY_MODE, 0))
    ensures r.Ok? ==> (SBIT_MONITOR + "RESET" in hw.table && r.value.0 == hw.table[SBIT_MONITOR + "RESET"].address &&
      SBIT_MONITOR + "L1A_DELAY" in hw.table && r.value.1 == hw.table[SBIT_MONITOR + "L1A_DELAY"].address &&
      |r.value.2| == NCLUSTERS &&
      forall i :: 0 <= i < NCLUSTERS ==> ClusterName(i) in hw.table && r.value.2[i] == hw.table[ClusterName(i)].address)
    ensures r.Err? ==> r.error.RuntimeError?
  {
    var s := hw.Set(SBIT_MONITOR + "OH_SELECT", ohN);
    if s.Err? {
      return Err(s.error);
    }
    var resetAddr := hw.GetAddress(SBIT_MONITOR + "RESET");
    if resetAddr.Err? {
      return Err(resetAddr.error);
    }
    var l1aAddr := hw.GetAddress(SBIT_MONITOR + "L1A_DELAY");
    if l1aAddr.Err? {
      return Err(l1aAddr.error);
    }
    var clusterAddrs: seq<Word> := [];
    var i := 0;
    while i < NCLUSTERS
      invariant 0 <= i <= NCLUSTERS && |clusterAddrs| == i
      invariant forall k :: 0 <= k < i ==> ClusterName(k) in hw.table && clusterAddrs[k] == hw.table[ClusterName(k)].address
      invariant hw.mem == RegWritten(old(hw.mem), hw.table, SBIT_MONITOR + "OH_SELECT", ohN)
    {
      var a := hw.GetAddress(ClusterName(i));
      if a.Err? {
        return Err(a.error);
      }
      clusterAddrs := clusterAddrs + [a.value];
      i := i + 1;
    }
    var s2 := hw.Set(SC_ONLY_MODE, 0);
    if s2.Err? {
      return Err(s2.error);
    }
    r := Ok((resetAddr.value, l1aAddr.value, clusterAddrs));
  }

  /** `sbitReadOut(ohN, acquireTime)`, with the elapsed time as `rounds` (see
    * `Acquire`): the result is whole batches of eight words, each batch holding a
    * valid cluster. */
  method SbitReadOut(hw: Hardware, ohN: Word, rounds: nat) returns (r: Result<seq<Word>>)
    modifies hw`mem, hw`faults, hw`trace
    ensures hw.mem.Keys == old(hw.mem).Keys
    ensures r.Ok? ==> Stored(r.value)
    ensures r.Ok? ==> (Mapped(old(hw.mem).Keys, hw.table, SBIT_MONITOR + "OH_SELECT") &&
      Mapped(old(hw.mem).Keys, hw.table, SC_ONLY_MODE) && SBIT_MONITOR + "RESET" in hw.table &&
      hw.mem == RegWritten(RegWritten(old(hw.mem), hw.table, SBIT_MONITOR + "OH_SELECT", ohN), hw.table, SC_ONLY_MODE, 0)
                [hw.table[SBIT_MONITOR + "RESET"].address := 1])
    ensures r.Err? ==> r.error.RuntimeError?
  {
    var a := SbitSetup(hw, ohN);
    if a.Err? {
      return Err(a.error);
    }
    r := Acquire(hw, a.value.0, a.value.1, a.value.2, rounds);
  }

  // ---------------------------------------------------------------------------
  // repeatedRegRead (the RPC)

  /** The counters of `regList`, added up in list order from the zero counters. */
  function SumList(es: seq<ErrCnt>): ErrCnt
    decreases |es|
  {
    if es == [] then Zero() else Plus(SumList(es[..|es| - 1]), es[|es| - 1])
  }

  /** Summing two lists one after the other is adding their sums. */
  lemma {:induction false} SumListAppend(a: seq<ErrCnt>, b: seq<ErrCnt>)
    ensures SumList(a + b) == Plus(SumList(a), SumList(b))
    decreases |b|
  {
    if b == [] {
      assert a + b == a;
      ZeroIsUnit(SumList(a));
    } else {
      var n := |b| - 1;
      assert (a + b)[..|a + b| - 1] == a + b[..n];
      SumListAppend(a, b[..n]);
      PlusAssociates(SumList(a), SumList(b[..n]), b[n]);
    }
  }

  /** The seven keys of the result map. */
  function ErrorKeys(): set<string>
  {
    {"CRC_ERROR_CNT", "PACKET_ERROR_CNT", "BITSTUFFING_ERROR_CNT", "TIMEOUT_ERROR_CNT",
     "AXI_STROBE_ERROR_CNT", "SUM", "TRANSACTION_CNT"}
  }

  /** The result map of `repeatedRegRead`. */
  function ErrorMap(e: ErrCnt): (m: map<string, Word>)
    ensures m.Keys == ErrorKeys()
  {
    map["CRC_ERROR_CNT" := e.crc, "PACKET_ERROR_CNT" := e.packet, "BITSTUFFING_ERROR_CNT" := e.bitstuffing,
        "TIMEOUT_ERROR_CNT" := e.timeout, "AXI_STROBE_ERROR_CNT" := e.axiStrobe, "SUM" := e.sum,
        "TRANSACTION_CNT" := e.nTransactions]
  }

  /** The map loses nothing: two counter sets with the same map are equal; an empty
    * list gives seven zeros. */
  lemma ErrorMapFaithful(a: ErrCnt, b: ErrCnt)
    ensures ErrorMap(a) == ErrorMap(b) ==> a == b
    ensures forall k :: k in ErrorKeys() ==> ErrorMap(SumList([]))[k] == 0
  {
    if ErrorMap(a) == ErrorMap(b) {
      assert ErrorMap(a)["CRC_ERROR_CNT"] == ErrorMap(b)["CRC_ERROR_CNT"];
      assert ErrorMap(a)["PACKET_ERROR_CNT"] == ErrorMap(b)["PACKET_ERROR_CNT"];
      assert ErrorMap(a)["BITSTUFFING_ERROR_CNT"] == ErrorMap(b)["BITSTUFFING_ERROR_CNT"];
      assert ErrorMap(a)["TIMEOUT_ERROR_CNT"] == ErrorMap(b)["TIMEOUT_ERROR_CNT"];
      assert ErrorMap(a)["AXI_STROBE_ERROR_CNT"] == ErrorMap(b)["AXI_STROBE_ERROR_CNT"];
      assert ErrorMap(a)["SUM"] == ErrorMap(b)["SUM"];
      assert ErrorMap(a)["TRANSACTION_CNT"] == ErrorMap(b)["TRANSACTION_CNT"];
    }
  }

  /** One call's counters as `utils::repeatedRegRead` returns them on memory `mem`. */
  function CountersRead(mem: map<Word, Word>, table: map<string, Descriptor>): ErrCnt
    requires AllReadable(mem, table, CounterNames())
  {
    var v := CountersOf(Values(mem, table, CounterNames()));
    v.(sum := Total(v) % WORD)
  }

  lemma IsCountersRead(e: ErrCnt, mem: map<Word, Word>, table: map<string, Descriptor>)
    requires AllReadable(mem, table, CounterNames())
    requires e.(sum := 0) == CountersOf(Values(mem, table, CounterNames()))
    requires e.sum == Total(CountersOf(Values(mem, table, CounterNames()))) % WORD
    ensures e == CountersRead(mem, table)
  {
  }

  /** The counters one call returns are `sumErrors` as written applied to the six
    * registers read: the five error counts added modulo 2^32, exact when they fit. */
  lemma CountersReadSummed(mem: map<Word, Word>, table: map<string, Descriptor>)
    requires AllReadable(mem, table, CounterNames())
    ensures var v := CountersOf(Values(mem, table, CounterNames()));
      CountersRead(mem, table) == SumErrorsAsWritten(v) &&
      (Total(v) < WORD ==> CountersRead(mem, table).sum == Total(v) == SumErrorsIntended(v).sum)
  {
    var v := CountersOf(Values(mem, table, CounterNames()));
    SumErrorsAsWrittenWraps(v);
    if Total(v) < WORD {
      SumErrorsAgrees(v);
    }
  }

  /** After `m0`, memory `m1` is the link reset written and nothing else, and every
    * counter register can be read from it. */
  predicate AfterReset(m0: map<Word, Word>, m1: map<Word, Word>, table: map<string, Descriptor>)
  {
    Mapped(m0.Keys, table, LINK_RESET) && m1 == RegWritten(m0, table, LINK_RESET, 1) &&
    AllReadable(m1, table, CounterNames())
  }

  /** `utils::repeatedRegRead(name, breakOnFailure, nReads)` as the list version sees
    * it: a link reset, then the counters read back. */
  method ReadCounters(hw: Hardware, name: string, breakOnFailure: bool, nReads: Word) returns (r: Result<ErrCnt>)
    modifies hw`mem, hw`faults, hw`trace
    ensures r.Ok? ==> AfterReset(old(hw.mem), hw.mem, hw.table) && r.value == CountersRead(hw.mem, hw.table)
    ensures r.Err? ==> r.error.RuntimeError?
  {
    ghost var tries, good;
    r, tries, good := hw.RepeatedRegRead(name, breakOnFailure, nReads);
    if r.Ok? {
      IsCountersRead(r.value, hw.mem, hw.table);
    }
  }

  /** `amc::repeatedRegRead(regList, breakOnFailure, nReads)`: `utils::repeatedRegRead`
    * for each register in order, the results added up. `parts` are the results. */
  method RepeatedRegReadList(hw: Hardware, regList: seq<string>, breakOnFailure: bool, nReads: Word)
    returns (r: Result<map<string, Word>>, ghost parts: seq<ErrCnt>)
    modifies hw`mem, hw`faults, hw`trace
    ensures r.Ok? ==> |parts| == |regList| && r.value == ErrorMap(SumList(parts))
    ensures r.Ok? && regList == [] ==> hw.mem == old(hw.mem) && r.value == ErrorMap(Zero())
    ensures r.Ok? && regList != [] ==> (AfterReset(old(hw.mem), hw.mem, hw.table) &&
      forall i :: 0 <= i < |parts| ==> parts[i] == CountersRead(hw.mem, hw.table))
    ensures r.Err? ==> r.error.RuntimeError?
  {
    var vfatErrs := Zero();
    parts := [];
    ghost var cr := Zero();
    var i := 0;
    while i < |regList|
      invariant 0 <= i <= |regList| && |parts| == i
      invariant vfatErrs == SumList(parts)
      invariant i == 0 ==> hw.mem == old(hw.mem)
      invariant i > 0 ==> AfterReset(old(hw.mem), hw.mem, hw.table) && cr == CountersRead(hw.mem, hw.table)
      invariant Repeats(parts, cr)
    {
      var x := ReadNext(hw, regList[i], breakOnFailure, nReads, old(hw.mem), i == 0);
      if x.Err? {
        return Err(x.error), parts;
      }
      cr := x.value;
      vfatErrs := Plus(vfatErrs, x.value);
      assert (parts + [x.value])[..i] == parts;
      RepeatsAppend(parts, cr, x.value);
      parts := parts + [x.value];
      i := i + 1;
    }
    r := Ok(ErrorMap(vfatErrs));
  }

  /** Every element of `parts` is `e`. */
  ghost predicate Repeats(parts: seq<ErrCnt>, e: ErrCnt)
  {
    forall j :: 0 <= j < |parts| ==> parts[j] == e
  }

  lemma RepeatsAppend(parts: seq<ErrCnt>, e: ErrCnt, x: ErrCnt)
    requires Repeats(parts, e) && (parts == [] || x == e)
    ensures Repeats(parts + [x], x)
  {
    assert forall j :: 0 <= j < |parts| ==> (parts + [x])[j] == parts[j];
  }

  /** One register of the list: the first read resets the link; a later one writes the
    * same reset again, which leaves memory as it was. */
  method ReadNext(hw: Hardware, name: string, breakOnFailure: bool, nReads: Word, ghost m0: map<Word, Word>, first: bool)
    returns (r: Result<ErrCnt>)
    requires first ==> hw.mem == m0
    requires !first ==> AfterReset(m0, hw.mem, hw.table)
    modifies hw`mem, hw`faults, hw`trace
    ensures r.Ok? ==> AfterReset(m0, hw.mem, hw.table) && r.value == CountersRead(hw.mem, hw.table)
    ensures r.Ok? && !first ==> hw.mem == old(hw.mem)
    ensures r.Err? ==> r.error.RuntimeError?
  {
    r := ReadCounters(hw, name, breakOnFailure, nReads);
    if r.Ok? && !first {
      ResetTwice(m0, old(hw.mem), hw.mem, hw.table);
    }
  }

  /** Writing LINK_RESET = 1 a second time changes nothing. */
  lemma ResetTwice(m0: map<Word, Word>, m1: map<Word, Word>, m2: map<Word, Word>, table: map<string, Descriptor>)
    requires AfterReset(m0, m1, table) && AfterReset(m1, m2, table)
    ensures m2 == m1
  {
    var d := table[LINK_RESET];
    InsertTwice(m0[d.address], 1, 1, d.mask);
  }
}
