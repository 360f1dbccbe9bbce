/** The BLASTER RAM of src/amc/blaster_ram.cpp: three configuration RAMs (GBT,
  * OptoHybrid, VFAT) whose sizes are read from status registers, read and written as
  * whole regions or link by link, with a dense cursor walking the caller's buffer. */
module Blaster {

  import opened Wrappers
  import opened Bits
  import opened Text
  import opened ErrorCounters
  import opened Registers
  import opened HwConstants

  /** `BLASTERType`: one of the three RAMs, all of them (`ALL`), or any other value
    * of the underlying `uint8_t`. */
  datatype BlasterType = GBT | OptoHybrid | VFAT | ALL | Other

  /** The three RAMs. */
  datatype Region = GbtRam | OhRam | VfatRam

  function TypeOf(g: Region): BlasterType
  {
    match g
    case GbtRam => GBT
    case OhRam => OptoHybrid
    case VfatRam => VFAT
  }

  predicate IsRegion(t: BlasterType)
  {
    t.GBT? || t.OptoHybrid? || t.VFAT?
  }

  function RegionOf(t: BlasterType): (g: Region)
    requires IsRegion(t)
    ensures TypeOf(g) == t
  {
    if t.GBT? then GbtRam else if t.OptoHybrid? then OhRam else VfatRam
  }

  const STATUS: string := "GEM_AMC.CONFIG_BLASTER.STATUS."
  const RAM: string := "GEM_AMC.CONFIG_BLASTER.RAM"

  /** The status register holding a RAM's size in words. */
  function SizeReg(g: Region): string
  {
    match g
    case GbtRam => STATUS + "GBT_RAM_SIZE"
    case OhRam => STATUS + "OH_RAM_SIZE"
    case VfatRam => STATUS + "VFAT_RAM_SIZE"
  }

  /** The node `readConfRAM` reads a whole RAM from. */
  function ConfName(g: Region): string
  {
    match g
    case GbtRam => RAM + ".GBT"
    case OhRam => RAM + ".OH_FPGA"
    case VfatRam => RAM + ".VFAT"
  }

  /** The node `read*ConfRAM` and `write*ConfRAM` transfer a whole RAM through. */
  function FullName(g: Region): string
  {
    match g
    case GbtRam => RAM + ".GBT"
    case OhRam => RAM + ".OH"
    case VfatRam => RAM + ".VFAT"
  }

  function LinkPrefix(g: Region): string
  {
    match g
    case GbtRam => RAM + ".GBT_OH"
    case OhRam => RAM + ".OH_FPGA_OH"
    case VfatRam => RAM + ".VFAT_OH"
  }

  /** The node of link `n` within a RAM. */
  function LinkName(g: Region, n: nat): string
  {
    LinkPrefix(g) + Dec(n)
  }

  /** Different links have different nodes. */
  lemma LinkNamesDistinct(g: Region, a: nat, b: nat)
    requires a != b
    ensures LinkName(g, a) != LinkName(g, b)
  {
    var p := LinkPrefix(g);
    if LinkName(g, a) == LinkName(g, b) {
      assert (p + Dec(a))[|p|..] == Dec(a);
      assert (p + Dec(b))[|p|..] == Dec(b);
      DecInjective(a, b);
    }
  }

  /** Words of one link's block within a RAM. */
  function PerBlock(c: Consts, g: Region): (n: Word)
    requires Valid(c)
  {
    match g
    case GbtRam => c.gbtSingleRamSize * c.gbtsPerOh
    case OhRam => c.ohSingleRamSize
    case VfatRam => c.vfatSingleRamSize * c.vfatsPerOh
  }

  /** `ohMask == 0x0 || ohMask == 0xfff`: the whole RAM in one transfer. */
  predicate IsFullMask(mask: U16)
  {
    mask == 0 || mask == 0xfff
  }

  // ---------------------------------------------------------------------------
  // RAM sizes (`getRAMMaxSize`, `checkBLOBSize`)

  predicate SizeReadable(mem: map<Word, Word>, table: map<string, Descriptor>, g: Region)
  {
    Readable(mem, table, SizeReg(g))
  }

  function RegionSize(mem: map<Word, Word>, table: map<string, Descriptor>, g: Region): Word
    requires SizeReadable(mem, table, g)
  {
    RegValue(mem, table, SizeReg(g))
  }

  /** The size registers `getRAMMaxSize(t)` reads can all be read. */
  predicate TypeReadable(mem: map<Word, Word>, table: map<string, Descriptor>, t: BlasterType)
  {
    match t
    case ALL => SizeReadable(mem, table, GbtRam) && SizeReadable(mem, table, OhRam) && SizeReadable(mem, table, VfatRam)
    case Other => true
    case _ => SizeReadable(mem, table, RegionOf(t))
  }

  /** What `getRAMMaxSize(t)` returns: a RAM's size register, or for `ALL` the three
    * added in 32-bit arithmetic. */
  function Capacity(mem: map<Word, Word>, table: map<string, Descriptor>, t: BlasterType): Word
    requires TypeReadable(mem, table, t) && !t.Other?
  {
    if t.ALL? then
      Add32(Add32(RegionSize(mem, table, GbtRam), RegionSize(mem, table, OhRam)), RegionSize(mem, table, VfatRam))
    else RegionSize(mem, table, RegionOf(t))
  }

  /** The `ALL` size is the sum of the three sizes when that sum fits in 32 bits. */
  lemma CapacityAll(mem: map<Word, Word>, table: map<string, Descriptor>)
    requires TypeReadable(mem, table, ALL)
    ensures var total := RegionSize(mem, table, GbtRam) + RegionSize(mem, table, OhRam) + RegionSize(mem, table, VfatRam);
      (total < WORD ==> Capacity(mem, table, ALL) == total) &&
      Capacity(mem, table, ALL) == total % WORD
  {
  }

  /** The three sizes of `ALL` add up without wrapping around. */
  predicate SizesFit(mem: map<Word, Word>, table: map<string, Descriptor>)
  {
    TypeReadable(mem, table, ALL) ==>
      RegionSize(mem, table, GbtRam) + RegionSize(mem, table, OhRam) + RegionSize(mem, table, VfatRam) < WORD
  }

  /** The `readReg` of one RAM's size register. */
  method ReadSize(hw: Hardware, g: Region) returns (r: Result<Word>)
    modifies hw`faults, hw`trace
    ensures r.Ok? ==> SizeReadable(hw.mem, hw.table, g) && r.value == RegionSize(hw.mem, hw.table, g)
    ensures r.Err? ==> r.error.RuntimeError?
    ensures Effects(hw.trace) == Effects(old(hw.trace))
  {
    r := hw.ReadReg(SizeReg(g));
  }

  /** `getRAMMaxSize(t)`: one `readReg` per RAM; another type throws `std::range_error`. */
  method RAMMaxSize(hw: Hardware, t: BlasterType) returns (r: Result<Word>)
    modifies hw`faults, hw`trace
    ensures t.Other? ==> r == Err(RangeError(BadType))
    ensures r.Ok? ==> !t.Other? && TypeReadable(hw.mem, hw.table, t) && r.value == Capacity(hw.mem, hw.table, t)
    ensures r.Err? && !t.Other? ==> r.error.RuntimeError?
    ensures Effects(hw.trace) == Effects(old(hw.trace))
  {
    if t.Other? {
      return Err(RangeError(BadType));
    }
    if t != ALL {
      r := ReadSize(hw, RegionOf(t));
      return;
    }
    var g := ReadSize(hw, GbtRam);
    if g.Err? {
      return Err(g.error);
    }
    var o := ReadSize(hw, OhRam);
    if o.Err? {
      return Err(o.error);
    }
    var v := ReadSize(hw, VfatRam);
    if v.Err? {
      return Err(v.error);
    }
    r := Ok(Add32(Add32(g.value, o.value), v.value));
  }

  /** `checkBLOBSize(t, sz)`: whether `sz` is exactly `getRAMMaxSize(t)`. */
  method CheckBLOBSize(hw: Hardware, t: BlasterType, sz: nat) returns (r: Result<bool>)
    modifies hw`faults, hw`trace
    ensures t.Other? ==> r == Err(RangeError(BadType))
    ensures r.Ok? ==> !t.Other? && TypeReadable(hw.mem, hw.table, t) && (r.value <==> sz == Capacity(hw.mem, hw.table, t))
    ensures r.Err? && !t.Other? ==> r.error.RuntimeError?
    ensures Effects(hw.trace) == Effects(old(hw.trace))
  {
    var cap := RAMMaxSize(hw, t);
    if cap.Err? {
      return Err(cap.error);
    }
    r := Ok(sz == cap.value);
  }

  // ---------------------------------------------------------------------------
  // Base addresses (`getRAMBaseAddr`)

  /** Words of one part (one GBT, one VFAT) of a link's block. */
  function PartSize(c: Consts, g: Region): nat
  {
    match g
    case GbtRam => c.gbtSingleRamSize
    case OhRam => 0
    case VfatRam => c.vfatSingleRamSize
  }

  /** Number of parts in a link's block; the OptoHybrid RAM has no parts. */
  function Parts(c: Consts, g: Region): nat
  {
    match g
    case GbtRam => c.gbtsPerOh
    case OhRam => 256
    case VfatRam => c.vfatsPerOh
  }

  /** `getRAMBaseAddr(t, ohN, partN)`: the address of part `partN` of link `ohN`'s block.
    * A link beyond `OH_PER_AMC` is refused first, then a GBT or VFAT part beyond the
    * parts of a link (both `std::range_error`); the OptoHybrid RAM ignores `partN`;
    * any other type, and an unknown node, throw `std::runtime_error`. */
  function RAMBaseAddr(table: map<string, Descriptor>, c: Consts, t: BlasterType, ohN: Byte, partN: Byte): (r: Result<Word>)
    requires Valid(c)
    ensures ohN >= c.ohPerAmc ==> r == Err(RangeError(BadArgument))
    ensures ohN < c.ohPerAmc && !IsRegion(t) ==> r == Err(RuntimeError(BadType))
    ensures ohN < c.ohPerAmc && IsRegion(t) ==>
      var g := RegionOf(t);
      var name := LinkName(g, ohN);
      (partN >= Parts(c, g) ==> r == Err(RangeError(BadArgument))) &&
      (partN < Parts(c, g) && name !in table ==> r == Err(RuntimeError(NotFound))) &&
      (partN < Parts(c, g) && name in table ==> r == Ok(Add32(table[name].address, (PartSize(c, g) * partN) % WORD)))
  {
    if ohN > c.ohPerAmc - 1 then Err(RangeError(BadArgument))
    else if !IsRegion(t) then Err(RuntimeError(BadType))
    else
      var g := RegionOf(t);
      if g != OhRam && partN > Parts(c, g) - 1 then Err(RangeError(BadArgument))
      else
        var name := LinkName(g, ohN);
        if name !in table then Err(RuntimeError(NotFound))
        else Ok(Add32(table[name].address, (PartSize(c, g) * partN) % WORD))
  }

  /** The OptoHybrid RAM has one block per link: `partN` does not matter. */
  lemma BaseAddrIgnoresPart(table: map<string, Descriptor>, c: Consts, ohN: Byte, p: Byte, q: Byte)
    requires Valid(c)
    ensures RAMBaseAddr(table, c, OptoHybrid, ohN, p) == RAMBaseAddr(table, c, OptoHybrid, ohN, q)
  {
  }

  /** Consecutive parts of a link lie one part size apart. */
  lemma BaseAddrStride(table: map<string, Descriptor>, c: Consts, t: BlasterType, ohN: Byte, p: Byte)
    requires Valid(c) && (t.GBT? || t.VFAT?) && p < 255
    requires RAMBaseAddr(table, c, t, ohN, p + 1).Ok?
    ensures RAMBaseAddr(table, c, t, ohN, p).Ok?
    ensures RAMBaseAddr(table, c, t, ohN, p + 1).value ==
      (RAMBaseAddr(table, c, t, ohN, p).value + PartSize(c, RegionOf(t))) % WORD
  {
    var g := RegionOf(t);
    StrideStep(table[LinkName(g, ohN)].address, PartSize(c, g), p);
  }

  /** Offsetting a base address by part `p + 1` is one part size past part `p`. */
  lemma StrideStep(a: Word, k: nat, p: nat)
    ensures Add32(a, (k * (p + 1)) % WORD) == (Add32(a, (k * p) % WORD) + k) % WORD
  {
    assert k * (p + 1) == k * p + k;
    ModAddMod(a, k * p, k);
  }

  lemma ModAddMod(a: nat, x: nat, k: nat)
    ensures (a + (x + k) % WORD) % WORD == ((a + x % WORD) % WORD + k) % WORD
  {
    var u := x % WORD;
    var q := x / WORD;
    assert x == q * WORD + u;
    assert (a + (x + k) % WORD) % WORD == (a + x + k) % WORD by {
      ModPlus(a, x + k);
    }
    assert ((a + u) % WORD + k) % WORD == (a + u + k) % WORD by {
      ModPlus(k, a + u);
    }
    assert (a + u + k) % WORD == (a + x + k) % WORD by {
      ModShift(a + u + k, q);
    }
  }

  lemma ModPlus(a: nat, y: nat)
    ensures (a + y % WORD) % WORD == (a + y) % WORD
  {
    var q := y / WORD;
    assert y == q * WORD + y % WORD;
    ModShift(a + y % WORD, q);
  }

  lemma {:induction false} ModShift(z: nat, q: nat)
    ensures (z + q * WORD) % WORD == z % WORD
    decreases q
  {
    if q > 0 {
      ModShift(z, q - 1);
      assert z + q * WORD == (z + (q - 1) * WORD) + WORD;
    }
  }

  // ---------------------------------------------------------------------------
  // Buffers

  function Zeros(n: nat): (z: seq<Word>)
    ensures |z| == n && forall i :: 0 <= i < n ==> z[i] == 0
  {
    seq(n, _ => 0)
  }

  /** `ws` copied into `blob` from index `at` on, as `readBlock` fills a buffer. */
  function Place(blob: seq<Word>, at: nat, ws: seq<Word>): (b: seq<Word>)
    requires at + |ws| <= |blob|
    ensures |b| == |blob|
    ensures forall i :: 0 <= i < |b| ==> b[i] == if at <= i < at + |ws| then ws[i - at] else blob[i]
  {
    blob[..at] + ws + blob[at + |ws|..]
  }

  /** `k` blocks of `pb` words: `k * pb`, built by repeated addition. */
  function Slots(k: nat, pb: nat): (n: nat)
    decreases k
  {
    if k == 0 then 0 else Slots(k - 1, pb) + pb
  }

  lemma {:induction false} SlotsProduct(k: nat, pb: nat)
    ensures Slots(k, pb) == k * pb
    decreases k
  {
    if k > 0 {
      SlotsProduct(k - 1, pb);
      assert k * pb == (k - 1) * pb + pb;
    }
  }

  lemma {:induction false} SlotsMono(a: nat, b: nat, pb: nat)
    requires a <= b
    ensures Slots(a, pb) <= Slots(b, pb)
    decreases b - a
  {
    if a < b {
      SlotsMono(a, b - 1, pb);
    }
  }

  /** Slots of the links selected below `a` fit in those selected below `b`, for `a <= b`. */
  lemma SelectedMono(mask: U16, a: nat, b: nat, pb: nat)
    requires a <= b
    ensures Slots(CountBits(mask, a), pb) <= Slots(CountBits(mask, b), pb)
  {
    CountBitsMono(mask, a, b);
    SlotsMono(CountBits(mask, a), CountBits(mask, b), pb);
  }

  /** Each of the blocks has at most `pb` words. */
  predicate BlocksWithin(blocks: seq<seq<Word>>, pb: nat)
  {
    forall k :: 0 <= k < |blocks| ==> |blocks[k]| <= pb
  }

  /** A zeroed buffer of `cap` words after the blocks of links `0 .. n-1` whose mask
    * bit is set were copied in, one after the other, `pb` words apart. */
  function Gather(blocks: seq<seq<Word>>, mask: U16, pb: nat, n: nat, cap: nat): (b: seq<Word>)
    requires n <= |blocks| && BlocksWithin(blocks, pb) && Slots(CountBits(mask, n), pb) <= cap
    ensures |b| == cap
    decreases n
  {
    if n == 0 then Zeros(cap)
    else
      SelectedMono(mask, n - 1, n, pb);
      var before := Gather(blocks, mask, pb, n - 1, cap);
      if Bit(mask, n - 1) then Place(before, Slots(CountBits(mask, n - 1), pb), blocks[n - 1])
      else before
  }

  /** One more link: its block is copied at the cursor when its mask bit is set, and the
    * cursor moves on by `pb`. */
  lemma GatherNext(blocks: seq<seq<Word>>, mask: U16, pb: nat, n: nat, cap: nat)
    requires n < |blocks| && BlocksWithin(blocks, pb) && Slots(CountBits(mask, n + 1), pb) <= cap
    ensures Slots(CountBits(mask, n), pb) <= cap
    ensures Slots(CountBits(mask, n + 1), pb) == Slots(CountBits(mask, n), pb) + if Bit(mask, n) then pb else 0
    ensures Gather(blocks, mask, pb, n + 1, cap) ==
      if Bit(mask, n) then Place(Gather(blocks, mask, pb, n, cap), Slots(CountBits(mask, n), pb), blocks[n])
      else Gather(blocks, mask, pb, n, cap)
  {
    SelectedMono(mask, n, n + 1, pb);
  }

  /** One step of the gathering: only the slots of link `n-1`'s block can change. */
  lemma GatherStep(blocks: seq<seq<Word>>, mask: U16, pb: nat, n: nat, cap: nat, i: nat)
    requires 0 < n <= |blocks| && BlocksWithin(blocks, pb) && Slots(CountBits(mask, n), pb) <= cap
    requires i < cap && (i < Slots(CountBits(mask, n - 1), pb) || Slots(CountBits(mask, n), pb) <= i)
    ensures Slots(CountBits(mask, n - 1), pb) <= cap
    ensures Gather(blocks, mask, pb, n, cap)[i] == Gather(blocks, mask, pb, n - 1, cap)[i]
  {
    SelectedMono(mask, n - 1, n, pb);
  }

  /** The block of link `n-1`, when selected, is copied to the slot after those of the
    * links selected before it. */
  lemma GatherLast(blocks: seq<seq<Word>>, mask: U16, pb: nat, n: nat, cap: nat, j: nat)
    requires 0 < n <= |blocks| && BlocksWithin(blocks, pb) && Slots(CountBits(mask, n), pb) <= cap
    requires Bit(mask, n - 1) && j < |blocks[n - 1]|
    ensures Slots(CountBits(mask, n - 1), pb) + j < cap
    ensures Gather(blocks, mask, pb, n, cap)[Slots(CountBits(mask, n - 1), pb) + j] == blocks[n - 1][j]
  {
  }

  /** The dense cursor: the block of selected link `k` starts at `popcount(mask below
    * k)` slots of `pb` words. */
  lemma {:induction false} GatherBlock(blocks: seq<seq<Word>>, mask: U16, pb: nat, n: nat, cap: nat, k: nat, j: nat)
    requires n <= |blocks| && BlocksWithin(blocks, pb) && Slots(CountBits(mask, n), pb) <= cap
    requires k < n && Bit(mask, k) && j < |blocks[k]|
    ensures Slots(CountBits(mask, k), pb) + j < cap
    ensures Gather(blocks, mask, pb, n, cap)[Slots(CountBits(mask, k), pb) + j] == blocks[k][j]
    decreases n
  {
    if k == n - 1 {
      GatherLast(blocks, mask, pb, n, cap, j);
    } else {
      SelectedMono(mask, n - 1, n, pb);
      SelectedMono(mask, k + 1, n - 1, pb);
      GatherBlock(blocks, mask, pb, n - 1, cap, k, j);
      GatherStep(blocks, mask, pb, n, cap, Slots(CountBits(mask, k), pb) + j);
    }
  }

  /** Past the selected links' blocks the buffer keeps its zeros. */
  lemma {:induction false} GatherTail(blocks: seq<seq<Word>>, mask: U16, pb: nat, n: nat, cap: nat, i: nat)
    requires n <= |blocks| && BlocksWithin(blocks, pb) && Slots(CountBits(mask, n), pb) <= i < cap
    ensures Gather(blocks, mask, pb, n, cap)[i] == 0
    decreases n
  {
    if n > 0 {
      SelectedMono(mask, n - 1, n, pb);
      GatherTail(blocks, mask, pb, n - 1, cap, i);
      GatherStep(blocks, mask, pb, n, cap, i);
    }
  }

  /** The words `readBlock` leaves for each link's node in a RAM. */
  function LinkBlocks(mem: map<Word, Word>, table: map<string, Descriptor>, g: Region, pb: Word, n: nat)
    : (blocks: seq<seq<Word>>)
    ensures |blocks| == n && BlocksWithin(blocks, pb)
    ensures forall k :: 0 <= k < n ==> blocks[k] == BlockWords(mem, table, LinkName(g, k), pb)
  {
    seq(n, k requires 0 <= k < n => BlockWords(mem, table, LinkName(g, k), pb))
  }

  /** The blocks of the links a partial mask selects fit in a RAM of `cap` words (the
    * buffer is sized by the RAM; writing past it is undefined behaviour). */
  predicate LinksFit(c: Consts, g: Region, mask: U16, cap: nat)
    requires Valid(c)
  {
    IsFullMask(mask) || Slots(CountBits(mask, c.ohPerAmc), PerBlock(c, g)) <= cap
  }

  /** The same condition stated with a product: `popcount(mask) * perblk <= cap`. */
  lemma LinksFitProduct(c: Consts, g: Region, mask: U16, cap: nat)
    requires Valid(c)
    ensures LinksFit(c, g, mask, cap) <==> IsFullMask(mask) || CountBits(mask, c.ohPerAmc) * PerBlock(c, g) <= cap
  {
    SlotsProduct(CountBits(mask, c.ohPerAmc), PerBlock(c, g));
  }

  /** What `read*ConfRAM(mask)` returns, on a RAM of `cap` words. */
  function RegionImage(mem: map<Word, Word>, table: map<string, Descriptor>, c: Consts, g: Region,
                       mask: U16, cap: Word): (b: seq<Word>)
    requires Valid(c) && LinksFit(c, g, mask, cap)
    ensures |b| == cap
  {
    if IsFullMask(mask) then Place(Zeros(cap), 0, BlockWords(mem, table, FullName(g), cap))
    else Gather(LinkBlocks(mem, table, g, PerBlock(c, g), c.ohPerAmc), mask, PerBlock(c, g), c.ohPerAmc, cap)
  }

  /** A full mask reads the whole RAM, or nothing when its node is unknown. */
  lemma FullImage(mem: map<Word, Word>, table: map<string, Descriptor>, c: Consts, g: Region, mask: U16, cap: Word)
    requires Valid(c) && IsFullMask(mask)
    ensures var b := RegionImage(mem, table, c, g, mask, cap);
      var ws := BlockWords(mem, table, FullName(g), cap);
      (|ws| == cap ==> b == ws) && (ws == [] ==> b == Zeros(cap))
  {
  }

  /** With a partial mask, selected link `k`'s block sits `popcount(mask below k)`
    * slots of `perblk` words into the buffer (`Slots(n, pb) == n * pb`, lemma
    * `SlotsProduct`). */
  lemma PartialImageBlock(mem: map<Word, Word>, table: map<string, Descriptor>, c: Consts, g: Region,
                          mask: U16, cap: Word, k: nat, j: nat)
    requires Valid(c) && !IsFullMask(mask) && LinksFit(c, g, mask, cap)
    requires k < c.ohPerAmc && Bit(mask, k) && j < |BlockWords(mem, table, LinkName(g, k), PerBlock(c, g))|
    ensures Slots(CountBits(mask, k), PerBlock(c, g)) + j < cap
    ensures RegionImage(mem, table, c, g, mask, cap)[Slots(CountBits(mask, k), PerBlock(c, g)) + j] ==
            BlockWords(mem, table, LinkName(g, k), PerBlock(c, g))[j]
  {
    PartialImage(mem, table, c, g, mask, cap);
    GatheredImageBlock(mem, table, g, mask, PerBlock(c, g), c.ohPerAmc, cap, k, j, RegionImage(mem, table, c, g, mask, cap));
  }

  /** `GatheredBlock` read through a buffer equal to the gathered one. */
  lemma GatheredImageBlock(mem: map<Word, Word>, table: map<string, Descriptor>, g: Region,
                           mask: U16, pb: Word, n: nat, cap: Word, k: nat, j: nat, img: seq<Word>)
    requires Slots(CountBits(mask, n), pb) <= cap
    requires k < n && Bit(mask, k) && j < |BlockWords(mem, table, LinkName(g, k), pb)|
    requires img == Gather(LinkBlocks(mem, table, g, pb, n), mask, pb, n, cap)
    ensures Slots(CountBits(mask, k), pb) + j < cap
    ensures img[Slots(CountBits(mask, k), pb) + j] == BlockWords(mem, table, LinkName(g, k), pb)[j]
  {
    GatheredBlock(mem, table, g, mask, pb, n, cap, k, j);
    ImageAt(img, Gather(LinkBlocks(mem, table, g, pb, n), mask, pb, n, cap),
            Slots(CountBits(mask, k), pb) + j, BlockWords(mem, table, LinkName(g, k), pb)[j]);
  }

  /** An element read through an equal sequence. */
  lemma ImageAt(img: seq<Word>, b: seq<Word>, i: nat, w: Word)
    requires img == b && i < |b| && b[i] == w
    ensures img[i] == w
  {
  }

  /** `GatherBlock` for the blocks of the links' nodes. */
  lemma GatheredBlock(mem: map<Word, Word>, table: map<string, Descriptor>, g: Region,
                      mask: U16, pb: Word, n: nat, cap: Word, k: nat, j: nat)
    requires Slots(CountBits(mask, n), pb) <= cap
    requires k < n && Bit(mask, k) && j < |BlockWords(mem, table, LinkName(g, k), pb)|
    ensures Slots(CountBits(mask, k), pb) + j < cap
    ensures Gather(LinkBlocks(mem, table, g, pb, n), mask, pb, n, cap)[Slots(CountBits(mask, k), pb) + j] ==
            BlockWords(mem, table, LinkName(g, k), pb)[j]
  {
    GatherBlock(LinkBlocks(mem, table, g, pb, n), mask, pb, n, cap, k, j);
  }

  /** With a partial mask the image gathers the links' blocks. */
  lemma PartialImage(mem: map<Word, Word>, table: map<string, Descriptor>, c: Consts, g: Region, mask: U16, cap: Word)
    requires Valid(c) && !IsFullMask(mask) && LinksFit(c, g, mask, cap)
    ensures RegionImage(mem, table, c, g, mask, cap) ==
      Gather(LinkBlocks(mem, table, g, PerBlock(c, g), c.ohPerAmc), mask, PerBlock(c, g), c.ohPerAmc, cap)
  {
  }

  /** With a partial mask, everything after the selected links' blocks is zero. */
  lemma PartialImageTail(mem: map<Word, Word>, table: map<string, Descriptor>, c: Consts, g: Region,
                         mask: U16, cap: Word, i: nat)
    requires Valid(c) && !IsFullMask(mask) && LinksFit(c, g, mask, cap)
    requires Slots(CountBits(mask, c.ohPerAmc), PerBlock(c, g)) <= i < cap
    ensures RegionImage(mem, table, c, g, mask, cap)[i] == 0
  {
    var pb := PerBlock(c, g);
    var blocks := LinkBlocks(mem, table, g, pb, c.ohPerAmc);
    GatherTail(blocks, mask, pb, c.ohPerAmc, cap, i);
  }

  /** `(0x1 << oh) & ohMask` is non-zero exactly when bit `oh` of the mask is set. */
  lemma LinkSelected(mask: U16, oh: nat)
    ensures (And(mask, Pow2(oh)) != 0) == Bit(mask, oh)
  {
    AndPow2(mask, oh);
  }

  // ---------------------------------------------------------------------------
  // Reads

  /** `readGBTConfRAM`, `readOptoHybridConfRAM` and `readVFATConfRAM` (one body for the
    * three RAMs): the size is read and a zeroed buffer of that size allocated; mask 0
    * or 0xfff reads the whole RAM, any other mask reads `perblk` words of each selected
    * link, in ascending link order, into consecutive slots of the buffer. */
  method ReadRegionRAM(hw: Hardware, c: Consts, g: Region, mask: U16) returns (r: Result<seq<Word>>)
    requires Valid(c)
    requires SizeReadable(hw.mem, hw.table, g) ==> LinksFit(c, g, mask, RegionSize(hw.mem, hw.table, g))
    modifies hw`faults, hw`trace
    ensures r.Ok? ==> (SizeReadable(hw.mem, hw.table, g) &&
                       r.value == RegionImage(hw.mem, hw.table, c, g, mask, RegionSize(hw.mem, hw.table, g)))
    ensures r.Err? ==> r.error.RuntimeError? || r.error.RangeError?
    ensures Effects(hw.trace) == Effects(old(hw.trace))
  {
    var size := ReadSize(hw, g);
    if size.Err? {
      return Err(size.error);
    }
    var cap := size.value;
    if mask == 0 || mask == 0xfff {
      var rd := ReadWords(hw, FullName(g), cap);
      if rd.Err? {
        return Err(rd.error);
      }
      return Ok(Place(Zeros(cap), 0, rd.value));
    }
    r := ReadLinks(hw, g, mask, PerBlock(c, g), c.ohPerAmc, cap);
  }

  /** `readBlock(name, buf, size)` at offset 0: the words it leaves in the buffer. */
  method ReadWords(hw: Hardware, name: string, size: Word) returns (r: Result<seq<Word>>)
    modifies hw`faults, hw`trace
    ensures r.Ok? ==> r.value == BlockWords(hw.mem, hw.table, name, size)
    ensures r.Err? ==> r.error.RuntimeError? || r.error.RangeError?
    ensures Effects(hw.trace) == Effects(old(hw.trace))
  {
    var rd := hw.ReadBlock(name, size, 0);
    if rd.Err? {
      return Err(rd.error);
    }
    r := Ok(rd.value.1);
  }

  /** The link loop of `read*ConfRAM`: for each link below `nLinks` whose mask bit is
    * set, `perblk` words read into the buffer at the cursor, which then advances. */
  method ReadLinks(hw: Hardware, g: Region, mask: U16, pb: Word, nLinks: nat, cap: Word)
    returns (r: Result<seq<Word>>)
    requires Slots(CountBits(mask, nLinks), pb) <= cap
    modifies hw`faults, hw`trace
    ensures r.Ok? ==> r.value == Gather(LinkBlocks(hw.mem, hw.table, g, pb, nLinks), mask, pb, nLinks, cap)
    ensures r.Err? ==> r.error.RuntimeError? || r.error.RangeError?
    ensures Effects(hw.trace) == Effects(old(hw.trace))
  {
    ghost var blocks := LinkBlocks(hw.mem, hw.table, g, pb, nLinks);
    var blob := Zeros(cap);
    var cursor := 0;
    var oh := 0;
    SelectedMono(mask, 0, nLinks, pb);
    while oh < nLinks
      invariant oh <= nLinks
      invariant Slots(CountBits(mask, oh), pb) <= cap
      invariant cursor == Slots(CountBits(mask, oh), pb)
      invariant blob == Gather(blocks, mask, pb, oh, cap)
      invariant Effects(hw.trace) == Effects(old(hw.trace))
    {
      SelectedMono(mask, oh + 1, nLinks, pb);
      var step := ReadLink(hw, g, mask, pb, nLinks, cap, oh, blob, cursor);
      if step.Err? {
        return Err(step.error);
      }
      blob, cursor := step.value.0, step.value.1;
      oh := oh + 1;
    }
    r := Ok(blob);
  }

  /** One pass of that loop: link `oh`'s block is read in at the cursor when its mask
    * bit is set. */
  method ReadLink(hw: Hardware, g: Region, mask: U16, pb: Word, nLinks: nat, cap: Word, oh: nat,
                  blob: seq<Word>, cursor: nat)
    returns (r: Result<(seq<Word>, nat)>)
    requires oh < nLinks && Slots(CountBits(mask, oh + 1), pb) <= cap
    requires cursor == Slots(CountBits(mask, oh), pb)
    requires Slots(CountBits(mask, oh), pb) <= cap
    requires blob == Gather(LinkBlocks(hw.mem, hw.table, g, pb, nLinks), mask, pb, oh, cap)
    modifies hw`faults, hw`trace
    ensures r.Ok? ==> (r.value.1 == Slots(CountBits(mask, oh + 1), pb) &&
      r.value.0 == Gather(LinkBlocks(hw.mem, hw.table, g, pb, nLinks), mask, pb, oh + 1, cap))
    ensures r.Err? ==> r.error.RuntimeError? || r.error.RangeError?
    ensures Effects(hw.trace) == Effects(old(hw.trace))
  {
    ghost var blocks := LinkBlocks(hw.mem, hw.table, g, pb, nLinks);
    GatherNext(blocks, mask, pb, oh, cap);
    LinkSelected(mask, oh);
    if And(mask, Pow2(oh)) != 0 {
      var rd := ReadWords(hw, LinkName(g, oh), pb);
      if rd.Err? {
        return Err(rd.error);
      }
      assert rd.value == blocks[oh];
      r := Ok((Place(blob, cursor, rd.value), cursor + pb));
    } else {
      r := Ok((blob, cursor));
    }
  }

  // ---------------------------------------------------------------------------
  // `readConfRAM`

  /** What `readConfRAM(t, getRAMMaxSize(t))` returns: a zeroed buffer of the RAM's
    * size with the words of its node read in, and for `ALL` the three RAMs one after
    * the other. */
  function ConfImage(mem: map<Word, Word>, table: map<string, Descriptor>, t: BlasterType): (b: seq<Word>)
    requires TypeReadable(mem, table, t) && !t.Other?
    decreases if t.ALL? then 1 else 0
  {
    if t.ALL? then ConfImage(mem, table, GBT) + ConfImage(mem, table, OptoHybrid) + ConfImage(mem, table, VFAT)
    else
      var g := RegionOf(t);
      var cap := RegionSize(mem, table, g);
      Place(Zeros(cap), 0, BlockWords(mem, table, ConfName(g), cap))
  }

  /** A RAM's image has the RAM's size; the image of `ALL` has the size `getRAMMaxSize`
    * reports exactly when the three sizes add up without wrapping around. */
  lemma ConfImageSize(mem: map<Word, Word>, table: map<string, Descriptor>, t: BlasterType)
    requires TypeReadable(mem, table, t) && !t.Other?
    ensures t.ALL? ==> (|ConfImage(mem, table, t)| ==
      RegionSize(mem, table, GbtRam) + RegionSize(mem, table, OhRam) + RegionSize(mem, table, VfatRam))
    ensures (!t.ALL? || SizesFit(mem, table)) ==> |ConfImage(mem, table, t)| == Capacity(mem, table, t)
  {
    if t.ALL? {
      assert TypeReadable(mem, table, GBT) && TypeReadable(mem, table, OptoHybrid) && TypeReadable(mem, table, VFAT);
    }
  }

  /** `readConfRAM(t, blob_sz)`: `blob_sz` must be `getRAMMaxSize(t)` (a `runtime_error`
    * otherwise; an undeclared type is refused with a `range_error` by the size lookup);
    * a single RAM is read into a zeroed buffer of its size, `ALL` reads the three RAMs
    * in turn and concatenates them. */
  method ReadConfRAM(hw: Hardware, t: BlasterType, blobSz: nat) returns (r: Result<seq<Word>>)
    modifies hw`faults, hw`trace
    ensures t.Other? ==> r == Err(RangeError(BadType))
    ensures r.Ok? ==> (!t.Other? && TypeReadable(hw.mem, hw.table, t) && blobSz == Capacity(hw.mem, hw.table, t) &&
                       r.value == ConfImage(hw.mem, hw.table, t))
    ensures r.Err? && !t.Other? ==> r.error.RuntimeError? || r.error.RangeError?
    ensures Effects(hw.trace) == Effects(old(hw.trace))
    decreases if t.ALL? then 2 else 0
  {
    var ok := CheckBLOBSize(hw, t, blobSz);
    if ok.Err? {
      return Err(ok.error);
    }
    if !ok.value {
      return Err(RuntimeError(BadSize));
    }
    if t.ALL? {
      r := ReadAllConfRAM(hw);
      return;
    }
    var g := RegionOf(t);
    var cap := ReadSize(hw, g);
    if cap.Err? {
      return Err(cap.error);
    }
    var rd := ReadWords(hw, ConfName(g), cap.value);
    if rd.Err? {
      return Err(rd.error);
    }
    r := Ok(Place(Zeros(cap.value), 0, rd.value));
  }

  /** The `ALL` branch of `readConfRAM`: each RAM read with its own size, appended in
    * the order GBT, OptoHybrid, VFAT. */
  method ReadAllConfRAM(hw: Hardware) returns (r: Result<seq<Word>>)
    modifies hw`faults, hw`trace
    ensures r.Ok? ==> TypeReadable(hw.mem, hw.table, ALL) && r.value == ConfImage(hw.mem, hw.table, ALL)
    ensures r.Err? ==> r.error.RuntimeError? || r.error.RangeError?
    ensures Effects(hw.trace) == Effects(old(hw.trace))
    decreases 1
  {
    var gSize := RAMMaxSize(hw, GBT);
    if gSize.Err? {
      return Err(gSize.error);
    }
    var gBlob := ReadConfRAM(hw, GBT, gSize.value);
    if gBlob.Err? {
      return Err(gBlob.error);
    }
    var oSize := RAMMaxSize(hw, OptoHybrid);
    if oSize.Err? {
      return Err(oSize.error);
    }
    var oBlob := ReadConfRAM(hw, OptoHybrid, oSize.value);
    if oBlob.Err? {
      return Err(oBlob.error);
    }
    var vSize := RAMMaxSize(hw, VFAT);
    if vSize.Err? {
      return Err(vSize.error);
    }
    var vBlob := ReadConfRAM(hw, VFAT, vSize.value);
    if vBlob.Err? {
      return Err(vBlob.error);
    }
    r := Ok(gBlob.value + oBlob.value + vBlob.value);
  }

  // ---------------------------------------------------------------------------
  // Writes

  /** The `writeBlock` calls of the link loop of `write*ConfRAM` over links `0 .. n-1`:
    * each selected link gets the next `pb` words of the caller's buffer. */
  function LinkPlan(g: Region, blob: seq<Word>, mask: U16, pb: Word, n: nat): (plan: seq<(string, seq<Word>)>)
    requires Slots(CountBits(mask, n), pb) <= |blob|
    ensures |plan| == CountBits(mask, n)
    ensures forall i :: 0 <= i < |plan| ==> |plan[i].1| == pb
    decreases n
  {
    if n == 0 then []
    else
      SelectedMono(mask, n - 1, n, pb);
      var before := LinkPlan(g, blob, mask, pb, n - 1);
      var at := Slots(CountBits(mask, n - 1), pb);
      if Bit(mask, n - 1) then before + [(LinkName(g, n - 1), blob[at..at + pb])] else before
  }

  /** The words of a list of blocks, one block after the other. */
  function Flatten(plan: seq<(string, seq<Word>)>): seq<Word>
    decreases |plan|
  {
    if plan == [] then [] else Flatten(plan[..|plan| - 1]) + plan[|plan| - 1].1
  }

  lemma SliceJoin(s: seq<Word>, i: nat, j: nat)
    requires i <= j <= |s|
    ensures s[..i] + s[i..j] == s[..j]
  {
  }

  lemma FlattenSnoc(plan: seq<(string, seq<Word>)>, x: (string, seq<Word>))
    ensures Flatten(plan + [x]) == Flatten(plan) + x.1
  {
    assert (plan + [x])[..|plan|] == plan;
  }

  /** A selected link adds its write to the plan. */
  lemma LinkPlanSelected(g: Region, blob: seq<Word>, mask: U16, pb: Word, n: nat)
    requires Slots(CountBits(mask, n + 1), pb) <= |blob| && Bit(mask, n)
    ensures Slots(CountBits(mask, n), pb) + pb == Slots(CountBits(mask, n + 1), pb)
    ensures var at := Slots(CountBits(mask, n), pb);
      LinkPlan(g, blob, mask, pb, n + 1) == LinkPlan(g, blob, mask, pb, n) + [(LinkName(g, n), blob[at..at + pb])]
  {
  }

  /** A link left out of the mask adds nothing to the plan. */
  lemma LinkPlanSkipped(g: Region, blob: seq<Word>, mask: U16, pb: Word, n: nat)
    requires Slots(CountBits(mask, n + 1), pb) <= |blob| && !Bit(mask, n)
    ensures Slots(CountBits(mask, n), pb) == Slots(CountBits(mask, n + 1), pb)
    ensures LinkPlan(g, blob, mask, pb, n + 1) == LinkPlan(g, blob, mask, pb, n)
  {
  }

  /** One more link: a selected link adds one write to the plan. */
  lemma LinkPlanNext(g: Region, blob: seq<Word>, mask: U16, pb: Word, n: nat)
    requires Slots(CountBits(mask, n + 1), pb) <= |blob|
    ensures Slots(CountBits(mask, n), pb) <= |blob|
    ensures Slots(CountBits(mask, n + 1), pb) == Slots(CountBits(mask, n), pb) + if Bit(mask, n) then pb else 0
    ensures var at := Slots(CountBits(mask, n), pb);
      LinkPlan(g, blob, mask, pb, n + 1) ==
        LinkPlan(g, blob, mask, pb, n) + if Bit(mask, n) then [(LinkName(g, n), blob[at..at + pb])] else []
  {
    SelectedMono(mask, n, n + 1, pb);
  }

  /** The link loop writes the front of the caller's buffer, `popcount(mask) * perblk`
    * words, each exactly once and in order. */
  lemma {:induction false} LinkPlanCovers(g: Region, blob: seq<Word>, mask: U16, pb: Word, n: nat)
    requires Slots(CountBits(mask, n), pb) <= |blob|
    ensures Flatten(LinkPlan(g, blob, mask, pb, n)) == blob[..Slots(CountBits(mask, n), pb)]
    decreases n
  {
    if n > 0 {
      SelectedMono(mask, n - 1, n, pb);
      LinkPlanCovers(g, blob, mask, pb, n - 1);
      if Bit(mask, n - 1) {
        CoversSelected(g, blob, mask, pb, n - 1);
      } else {
        LinkPlanSkipped(g, blob, mask, pb, n - 1);
      }
    }
  }

  lemma CoversSelected(g: Region, blob: seq<Word>, mask: U16, pb: Word, n: nat)
    requires Slots(CountBits(mask, n + 1), pb) <= |blob| && Bit(mask, n)
    requires Slots(CountBits(mask, n), pb) <= |blob|
    requires Flatten(LinkPlan(g, blob, mask, pb, n)) == blob[..Slots(CountBits(mask, n), pb)]
    ensures Flatten(LinkPlan(g, blob, mask, pb, n + 1)) == blob[..Slots(CountBits(mask, n + 1), pb)]
  {
    var at := Slots(CountBits(mask, n), pb);
    LinkPlanSelected(g, blob, mask, pb, n);
    CoversStep(LinkPlan(g, blob, mask, pb, n), LinkPlan(g, blob, mask, pb, n + 1), LinkName(g, n), blob, at,
               Slots(CountBits(mask, n + 1), pb), pb);
  }

  /** A plan one block longer than a plan covering the buffer up to `at` covers it up
    * to the end of that block. */
  lemma CoversStep(before: seq<(string, seq<Word>)>, after: seq<(string, seq<Word>)>, name: string,
                   blob: seq<Word>, at: nat, to: nat, pb: nat)
    requires at + pb == to <= |blob| && Flatten(before) == blob[..at]
    requires after == before + [(name, blob[at..at + pb])]
    ensures Flatten(after) == blob[..to]
  {
    FlattenExtend(before, name, blob, at, pb);
  }

  /** A plan covering the buffer up to `at`, extended by the block from `at`, covers it
    * up to `at + pb`. */
  lemma FlattenExtend(before: seq<(string, seq<Word>)>, name: string, blob: seq<Word>, at: nat, pb: nat)
    requires at + pb <= |blob| && Flatten(before) == blob[..at]
    ensures Flatten(before + [(name, blob[at..at + pb])]) == blob[..at + pb]
  {
    FlattenSnoc(before, (name, blob[at..at + pb]));
    SliceJoin(blob, at, at + pb);
  }

  /** Selected link `k` is written by write number `popcount(mask below k)`, with the
    * `perblk` words at that many slots into the buffer. */
  lemma {:induction false} LinkPlanAt(g: Region, blob: seq<Word>, mask: U16, pb: Word, n: nat, k: nat)
    requires Slots(CountBits(mask, n), pb) <= |blob|
    requires k < n && Bit(mask, k)
    ensures CountBits(mask, k) < CountBits(mask, n)
    ensures Slots(CountBits(mask, k), pb) + pb <= |blob|
    ensures LinkPlan(g, blob, mask, pb, n)[CountBits(mask, k)] ==
      (LinkName(g, k), blob[Slots(CountBits(mask, k), pb)..Slots(CountBits(mask, k), pb) + pb])
    decreases n
  {
    LinkPlanNext(g, blob, mask, pb, n - 1);
    if k < n - 1 {
      CountBitsMono(mask, k + 1, n - 1);
      SelectedMono(mask, k + 1, n - 1, pb);
      LinkPlanAt(g, blob, mask, pb, n - 1, k);
    } else {
      assert |LinkPlan(g, blob, mask, pb, n - 1)| == CountBits(mask, k);
    }
  }

  /** The link loop of `write*ConfRAM`: for each link below `nLinks` whose mask bit is
    * set, the `perblk` words of the buffer from the cursor on go to the link's node and
    * the cursor advances; the `writeBlock` calls are then issued in that order,
    * stopping at the first that throws. */
  method WriteLinks(hw: Hardware, g: Region, blob: seq<Word>, mask: U16, pb: Word, nLinks: nat)
    returns (r: Result<()>)
    requires Slots(CountBits(mask, nLinks), pb) <= |blob|
    modifies hw`mem, hw`faults, hw`trace
    ensures hw.mem.Keys == old(hw.mem).Keys
    ensures r.Ok? ==> (hw.mem == BlocksWritten(old(hw.mem), hw.table, LinkPlan(g, blob, mask, pb, nLinks)) &&
                       Effects(hw.trace) == Effects(old(hw.trace)) + BlockWritesOf(hw.table, LinkPlan(g, blob, mask, pb, nLinks)))
    ensures r.Err? ==> r.error.RuntimeError?
  {
    var plan := LinkWrites(g, blob, mask, pb, nLinks);
    r := hw.WriteBlocks(plan);
  }

  /** The blocks the link loop hands to `writeBlock`, cursor and all. */
  method LinkWrites(g: Region, blob: seq<Word>, mask: U16, pb: Word, nLinks: nat)
    returns (plan: seq<(string, seq<Word>)>)
    requires Slots(CountBits(mask, nLinks), pb) <= |blob|
    ensures plan == LinkPlan(g, blob, mask, pb, nLinks)
  {
    plan := [];
    var cursor := 0;
    var oh := 0;
    SelectedMono(mask, 0, nLinks, pb);
    while oh < nLinks
      invariant oh <= nLinks
      invariant Slots(CountBits(mask, oh), pb) <= |blob|
      invariant cursor == Slots(CountBits(mask, oh), pb)
      invariant plan == LinkPlan(g, blob, mask, pb, oh)
    {
      SelectedMono(mask, oh + 1, nLinks, pb);
      plan, cursor := LinkWrite(g, blob, mask, pb, oh, plan, cursor);
      oh := oh + 1;
    }
  }

  /** One pass of the link loop: link `oh`'s block is added when its mask bit is set. */
  method LinkWrite(g: Region, blob: seq<Word>, mask: U16, pb: Word, oh: nat,
                   plan: seq<(string, seq<Word>)>, cursor: nat)
    returns (plan': seq<(string, seq<Word>)>, cursor': nat)
    requires Slots(CountBits(mask, oh + 1), pb) <= |blob|
    requires Slots(CountBits(mask, oh), pb) <= |blob|
    requires cursor == Slots(CountBits(mask, oh), pb) && plan == LinkPlan(g, blob, mask, pb, oh)
    ensures cursor' == Slots(CountBits(mask, oh + 1), pb) && plan' == LinkPlan(g, blob, mask, pb, oh + 1)
  {
    LinkSelected(mask, oh);
    if And(mask, Pow2(oh)) != 0 {
      LinkPlanSelected(g, blob, mask, pb, oh);
      plan' := plan + [(LinkName(g, oh), blob[cursor..cursor + pb])];
      cursor' := cursor + pb;
    } else {
      LinkPlanSkipped(g, blob, mask, pb, oh);
      plan', cursor' := plan, cursor;
    }
  }

  /** The `writeBlock` calls `write*ConfRAM(blob, mask)` makes. */
  function RegionPlan(c: Consts, g: Region, blob: seq<Word>, mask: U16): seq<(string, seq<Word>)>
    requires Valid(c) && LinksFit(c, g, mask, |blob|)
  {
    if IsFullMask(mask) then [(FullName(g), blob)]
    else LinkPlan(g, blob, mask, PerBlock(c, g), c.ohPerAmc)
  }

  /** `writeGBTConfRAM`, `writeOptoHybridConfRAM` and `writeVFATConfRAM` (one body for
    * the three RAMs): a buffer larger than the RAM is refused with a `range_error`
    * before anything is written; mask 0 or 0xfff writes the whole buffer to the RAM's
    * node, any other mask writes `perblk` words per selected link. */
  method WriteRegionRAM(hw: Hardware, c: Consts, g: Region, blob: seq<Word>, mask: U16) returns (r: Result<()>)
    requires Valid(c)
    requires SizeReadable(hw.mem, hw.table, g) && |blob| <= RegionSize(hw.mem, hw.table, g) ==>
      LinksFit(c, g, mask, |blob|)
    modifies hw`mem, hw`faults, hw`trace
    ensures hw.mem.Keys == old(hw.mem).Keys
    ensures r == Err(RangeError(BadSize)) ==>
      (SizeReadable(old(hw.mem), hw.table, g) && |blob| > RegionSize(old(hw.mem), hw.table, g) && hw.mem == old(hw.mem))
    ensures r.Ok? ==> (SizeReadable(old(hw.mem), hw.table, g) && |blob| <= RegionSize(old(hw.mem), hw.table, g) &&
                       hw.mem == BlocksWritten(old(hw.mem), hw.table, RegionPlan(c, g, blob, mask)) &&
                       Effects(hw.trace) == Effects(old(hw.trace)) + BlockWritesOf(hw.table, RegionPlan(c, g, blob, mask)))
    ensures r.Err? ==> r.error.RuntimeError? || r == Err(RangeError(BadSize))
  {
    var size := ReadSize(hw, g);
    if size.Err? {
      return Err(size.error);
    }
    if |blob| > size.value {
      return Err(RangeError(BadSize));
    }
    if mask == 0 || mask == 0xfff {
      r := hw.WriteBlocks([(FullName(g), blob)]);
    } else {
      r := WriteLinks(hw, g, blob, mask, PerBlock(c, g), c.ohPerAmc);
    }
  }

  /** `writeConfRAM(t, blob)` for a single RAM: `blob` must have exactly the RAM's size
    * and must not be empty (an empty vector has no data), each refused with a
    * `runtime_error` before anything is written; then the whole RAM is written. */
  method WriteConfRegion(hw: Hardware, c: Consts, g: Region, blob: seq<Word>) returns (r: Result<()>)
    requires Valid(c)
    modifies hw`mem, hw`faults, hw`trace
    ensures hw.mem.Keys == old(hw.mem).Keys
    ensures SizeReadable(old(hw.mem), hw.table, g) && |blob| != RegionSize(old(hw.mem), hw.table, g) ==>
      r.Err? && hw.mem == old(hw.mem)
    ensures blob == [] ==> r.Err? && hw.mem == old(hw.mem)
    ensures r.Ok? ==> (SizeReadable(old(hw.mem), hw.table, g) && |blob| == RegionSize(old(hw.mem), hw.table, g) &&
                       hw.mem == BlocksWritten(old(hw.mem), hw.table, [(FullName(g), blob)]) &&
                       Effects(hw.trace) == Effects(old(hw.trace)) + BlockWritesOf(hw.table, [(FullName(g), blob)]))
    ensures r.Err? ==> r.error.RuntimeError? || r.error.RangeError?
  {
    var ok := CheckBLOBSize(hw, TypeOf(g), |blob|);
    if ok.Err? {
      return Err(ok.error);
    }
    if !ok.value {
      return Err(RuntimeError(BadSize));
    }
    if blob == [] {
      return Err(RuntimeError(NoData));
    }
    r := WriteRegionRAM(hw, c, g, blob, 0xfff);
  }
  /** The three slices of an `ALL` buffer, one per RAM, each written as a whole RAM. */
  function AllPlan(blob: seq<Word>, gSize: nat, oSize: nat): seq<(string, seq<Word>)>
    requires gSize + oSize <= |blob|
  {
    [(FullName(GbtRam), blob[..gSize]), (FullName(OhRam), blob[gSize..gSize + oSize]),
     (FullName(VfatRam), blob[gSize + oSize..])]
  }

  /** The `writeBlock` calls `writeConfRAM(t, blob)` makes when it returns normally. */
  function ConfPlan(mem: map<Word, Word>, table: map<string, Descriptor>, t: BlasterType, blob: seq<Word>)
    : seq<(string, seq<Word>)>
    requires TypeReadable(mem, table, t) && !t.Other?
    requires t.ALL? ==> RegionSize(mem, table, GbtRam) + RegionSize(mem, table, OhRam) <= |blob|
  {
    if t.ALL? then AllPlan(blob, RegionSize(mem, table, GbtRam), RegionSize(mem, table, OhRam))
    else [(FullName(RegionOf(t)), blob)]
  }

  /** The writes of `ALL` put every word of the buffer into exactly one RAM, in order. */
  lemma AllPlanCovers(blob: seq<Word>, gSize: nat, oSize: nat)
    requires gSize + oSize <= |blob|
    ensures Flatten(AllPlan(blob, gSize, oSize)) == blob
    ensures |AllPlan(blob, gSize, oSize)[0].1| == gSize && |AllPlan(blob, gSize, oSize)[1].1| == oSize
  {
    var p := AllPlan(blob, gSize, oSize);
    var none: seq<(string, seq<Word>)> := [];
    assert p[..1] == none + [p[0]];
    FlattenSnoc(none, p[0]);
    assert p[..2] == p[..1] + [p[1]];
    FlattenSnoc(p[..1], p[1]);
    assert p == p[..2] + [p[2]];
    FlattenSnoc(p[..2], p[2]);
    assert blob[..gSize] + blob[gSize..gSize + oSize] + blob[gSize + oSize..] == blob;
  }

  /** The memory after a write of `a` then of `b` is the memory after the writes `a + b`. */
  lemma MemStep(now: map<Word, Word>, mid: map<Word, Word>, start: map<Word, Word>, table: map<string, Descriptor>,
                a: seq<(string, seq<Word>)>, b: seq<(string, seq<Word>)>)
    requires now == BlocksWritten(mid, table, b) && mid == BlocksWritten(start, table, a)
    ensures now == BlocksWritten(start, table, a + b)
  {
    BlocksWrittenAppend(start, table, a, b);
  }

  /** The effects of a write of `a` then of `b` are those of the writes `a + b`. */
  lemma EffectStep(now: seq<Event>, mid: seq<Event>, start: seq<Event>, table: map<string, Descriptor>,
                   a: seq<(string, seq<Word>)>, b: seq<(string, seq<Word>)>)
    requires now == mid + BlockWritesOf(table, b) && mid == start + BlockWritesOf(table, a)
    ensures now == start + BlockWritesOf(table, a + b)
  {
    BlocksWrittenAppend(map[], table, a, b);
    Associative(start, BlockWritesOf(table, a), BlockWritesOf(table, b));
  }

  /** `writeConfRAM(t, blob)`, with the `ALL` branch as evidently intended: the size of
    * `blob` must be `getRAMMaxSize(t)` and `blob` must not be empty, each refused with
    * a `runtime_error` (an undeclared type is refused with a `range_error` by the size
    * lookup); a single RAM is written whole; `ALL` writes the first
    * `getRAMMaxSize(GBT)` words to the GBT RAM, the next `getRAMMaxSize(OptoHybrid)`
    * words to the OptoHybrid RAM, and the rest to the VFAT RAM, each through
    * `writeConfRAM` of that RAM. */
  method WriteConfRAM(hw: Hardware, c: Consts, t: BlasterType, blob: seq<Word>) returns (r: Result<()>)
    requires Valid(c)
    requires t.ALL? ==> SizesFit(hw.mem, hw.table)
    modifies hw`mem, hw`faults, hw`trace
    ensures hw.mem.Keys == old(hw.mem).Keys
    ensures t.Other? ==> r == Err(RangeError(BadType)) && hw.mem == old(hw.mem)
    ensures !t.Other? && TypeReadable(old(hw.mem), hw.table, t) && |blob| != Capacity(old(hw.mem), hw.table, t) ==>
      r.Err? && hw.mem == old(hw.mem)
    ensures blob == [] ==> r.Err? && hw.mem == old(hw.mem)
    ensures r.Ok? ==> (!t.Other? && TypeReadable(old(hw.mem), hw.table, t) && |blob| == Capacity(old(hw.mem), hw.table, t) &&
                       hw.mem == BlocksWritten(old(hw.mem), hw.table, ConfPlan(old(hw.mem), hw.table, t, blob)) &&
                       Effects(hw.trace) == Effects(old(hw.trace)) + BlockWritesOf(hw.table, ConfPlan(old(hw.mem), hw.table, t, blob)))
    ensures r.Err? ==> r.error.RuntimeError? || r.error.RangeError?
  {
    if IsRegion(t) {
      r := WriteConfRegion(hw, c, RegionOf(t), blob);
      return;
    }
    var ok := CheckBLOBSize(hw, t, |blob|);
    if ok.Err? {
      return Err(ok.error);
    }
    if !ok.value {
      return Err(RuntimeError(BadSize));
    }
    if blob == [] {
      return Err(RuntimeError(NoData));
    }
    var g := ReadSize(hw, GbtRam);
    if g.Err? {
      return Err(g.error);
    }
    var o := ReadSize(hw, OhRam);
    if o.Err? {
      return Err(o.error);
    }
    r := WriteAllSlices(hw, c, blob, g.value, o.value);
  }

  /** The three recursive `writeConfRAM` calls of the `ALL` branch, as intended. */
  method WriteAllSlices(hw: Hardware, c: Consts, blob: seq<Word>, gSize: Word, oSize: Word) returns (r: Result<()>)
    requires Valid(c) && gSize + oSize <= |blob|
    modifies hw`mem, hw`faults, hw`trace
    ensures hw.mem.Keys == old(hw.mem).Keys
    ensures r.Ok? ==> (hw.mem == BlocksWritten(old(hw.mem), hw.table, AllPlan(blob, gSize, oSize)) &&
                       Effects(hw.trace) == Effects(old(hw.trace)) + BlockWritesOf(hw.table, AllPlan(blob, gSize, oSize)))
    ensures r.Err? ==> r.error.RuntimeError? || r.error.RangeError?
  {
    var p := AllPlan(blob, gSize, oSize);
    assert p == [p[0]] + [p[1]] + [p[2]];
    ghost var m0, e0 := hw.mem, Effects(hw.trace);
    r := WriteConfRegion(hw, c, GbtRam, p[0].1);
    if r.Err? {
      return;
    }
    ghost var m1, e1 := hw.mem, Effects(hw.trace);
    r := WriteConfRegion(hw, c, OhRam, p[1].1);
    if r.Err? {
      return;
    }
    MemStep(hw.mem, m1, m0, hw.table, [p[0]], [p[1]]);
    EffectStep(Effects(hw.trace), e1, e0, hw.table, [p[0]], [p[1]]);
    ghost var m2, e2 := hw.mem, Effects(hw.trace);
    r := WriteConfRegion(hw, c, VfatRam, p[2].1);
    if r.Err? {
      return;
    }
    MemStep(hw.mem, m2, m0, hw.table, [p[0]] + [p[1]], [p[2]]);
    EffectStep(Effects(hw.trace), e2, e0, hw.table, [p[0]] + [p[1]], [p[2]]);
  }

  /** The slice the `ALL` branch of `writeConfRAM` builds for a RAM of `n` words, as
    * written: `resize(n)` leaves `n` zeros, and `insert(begin, iter, iter + n)` then
    * puts the `n` words of the buffer in front of them. */
  function AllSliceAsWritten(blob: seq<Word>, n: nat): (tmp: seq<Word>)
    requires n <= |blob|
    ensures |tmp| == 2 * n
  {
    blob[..n] + Zeros(n)
  }

  /** The slice has the size the RAM's own size check demands only when it is empty, and
    * then it has no data: the recursive `writeConfRAM` call refuses it either way. */
  lemma AllSliceRefused(blob: seq<Word>, n: nat)
    requires n <= |blob|
    ensures |AllSliceAsWritten(blob, n)| == n ==> AllSliceAsWritten(blob, n) == []
  {
  }

  /** `writeConfRAM(t, blob)` as written: the single-RAM branches are those of
    * `WriteConfRAM`; the `ALL` branch hands the GBT RAM a slice twice its size, the
    * recursive call throws, and nothing is ever written. */
  method WriteConfRAMAsWritten(hw: Hardware, c: Consts, t: BlasterType, blob: seq<Word>) returns (r: Result<()>)
    requires Valid(c)
    requires t.ALL? ==> SizesFit(hw.mem, hw.table)
    modifies hw`mem, hw`faults, hw`trace
    ensures hw.mem.Keys == old(hw.mem).Keys
    ensures t.ALL? ==> r.Err? && hw.mem == old(hw.mem)
    ensures !t.ALL? && r.Ok? ==> (!t.Other? && TypeReadable(old(hw.mem), hw.table, t) &&
                                  hw.mem == BlocksWritten(old(hw.mem), hw.table, ConfPlan(old(hw.mem), hw.table, t, blob)))
    ensures r.Err? ==> r.error.RuntimeError? || r.error.RangeError?
  {
    if !t.ALL? {
      r := WriteConfRAM(hw, c, t, blob);
      return;
    }
    var ok := CheckBLOBSize(hw, t, |blob|);
    if ok.Err? {
      return Err(ok.error);
    }
    if !ok.value {
      return Err(RuntimeError(BadSize));
    }
    if blob == [] {
      return Err(RuntimeError(NoData));
    }
    var g := ReadSize(hw, GbtRam);
    if g.Err? {
      return Err(g.error);
    }
    var tmp := AllSliceAsWritten(blob, g.value);
    AllSliceRefused(blob, g.value);
    r := WriteConfRegion(hw, c, GbtRam, tmp);
  }

  /** Writing a whole RAM and reading its node back gives the words written; the GBT
    * and VFAT RAMs are read by `readConfRAM` through the very node they are written
    * through. */
  lemma RegionRoundTrip(mem: map<Word, Word>, table: map<string, Descriptor>, g: Region, blob: seq<Word>)
    requires FullName(g) in table && |blob| < WORD
    requires BlockRejection(table[FullName(g)], |blob|, 0).None?
    requires SpanMapped(mem, table[FullName(g)].address, |blob|)
    ensures BlockWords(BlocksWritten(mem, table, [(FullName(g), blob)]), table, FullName(g), |blob|) == blob
    ensures g != OhRam ==> ConfName(g) == FullName(g)
  {
    var plan := [(FullName(g), blob)];
    var start := table[FullName(g)].address;
    assert plan[..0] == [];
    assert BlocksWritten(mem, table, plan) == WriteSpan(mem, start, blob);
    WriteSpanThenRead(mem, start, blob);
  }
}
