# ctp7_modules: a verified model of the CTP7 register layer and its consumers

ctp7_modules is the control software that runs on the CTP7 board of the GEM detector's
back-end. Its clients reach the front-end chips through named hardware registers:
the AMC, the OptoHybrid links, the VFAT3 chips, the GBT transceivers and the SCA
slow-control chip. This project models the core of that software in Dafny and proves
properties of the model.

The core has four layers.

- **Register access** (`src/utils.cpp`, `include/ctp7_modules/server/utils.h`). An
  address table maps register names to descriptors, which give an address, a mask, a
  size, a mode and permissions. On top of the table sit `readReg` and `writeReg`, which
  apply masks and perform read-modify-write. Raw reads are retried up to ten times.
  Block reads and writes check the descriptor before they transfer. The layer also
  holds the `|`-separated descriptor record, the `repeatedRegRead` link-health loop
  and its error counters.
  - `Registers.Hardware` is a class with four fields:
    - `mem`, the memory-mapped words;
    - `table`, the address table;
    - `faults`, which says for each transport attempt whether it fails;
    - a ghost `trace`, the log of successful calls.
  - Every operation further up reads and writes through this class.
- **The BLASTER RAM codec** (`src/amc/blaster_ram.cpp`). It covers:
  - the sizes of the GBT, OptoHybrid and VFAT configuration RAMs, with ALL as their sum;
  - the exact-size check;
  - the base address of each link's block;
  - full and link-mask-selective reads and writes of a configuration blob.
- **Consumers** (`src/amc.cpp`, `src/amc/sca.cpp`, `src/gbt.cpp`, `src/vfat3.cpp`,
  `src/optohybrid.cpp`, `src/calibration_routines.cpp`, `src/daq_monitor.cpp`,
  `src/amc/ttc.cpp`). These include:
  - VFAT sync and error masks, the s-bit read-out and its cluster words;
  - SCA commands and their byte order;
  - GBT register writes and the elink phase scan;
  - VFAT3 channel-register packing and chip IDs;
  - broadcast reads and writes over the unmasked VFATs;
  - the scan-controller guards;
  - the calibration scans (`genScan`, `sbitRateScan`, `sbitRateScanParallel`,
    `dacScan`) with their save and restore of masks and counters;
  - the monitoring read-outs, which fill maps keyed by register name and put
    `0xdeaddead` under masked links;
  - the TTC phase-shift search and the PLL lock check.
- **Helpers**:
  - `Bits`: words as naturals below 2^32, with bit operations defined by recursion;
  - `Packing`: field arithmetic;
  - `Text`: decimal and hexadecimal rendering, tokenising, joining and splitting;
  - `Wrappers`: a `Result` type whose errors name the exception the source throws;
  - `Selection`: mask predicates.
- **Constants.** `hw_constants.h` is not part of this model. Its constants
  (`OH_PER_AMC`, `VFATS_PER_OH`, the RAM sizes, the phase range and others) are a
  `Consts` parameter, checked by `HwConstants.Valid`.

Operations that loop or change state are methods with loop invariants. Each method is
proved against a specification function, and further lemmas are proved about those
functions. Plans are written as `seq` of `(register, value)` pairs, and `Performed`
relates a plan to the new memory and to the log entries it adds.

Several defects of the source are modelled twice (see "## Findings"). One member
follows the code as written, and a corrected member has the intended property proved
about it. Where a defect changes what a scan writes, the scan runs the code as written:
- `sbitRateScan` and `sbitRateScanParallel` call `setSingleChanMask` as written, so
  every channel of the VFAT ends up unmasked;
- the DAC loops step a 32-bit counter (`ErrorCounters.Add32`).

Where the header comments and the code disagree, the model follows the code.
- include/ctp7_modules/server/utils.h:114-120 says `overflowTest` returns 0xffffffff
  on an overflow, so the error-counter `sum` would saturate. The test never fires, so
  the sum wraps modulo 2^32. `ErrorCounters.SumErrors` models the wrap and
  `SumErrorsIntended` the saturating sum.

`readConfRAM` names the OptoHybrid RAM `.OH_FPGA` while `writeConfRAM` uses `.OH`.
The model keeps both names. Its write-then-read round trip is stated for the GBT and
VFAT regions only.

## Model

| member | source | states |
|---|---|---|
| ErrorCounters.Add32 | include/ctp7_modules/server/utils.h:103-111 | the `uint32_t` sum each field of `operator+` takes: a + b when it fits, a + b - 2^32 otherwise |
| ErrorCounters.Sub32 | include/ctp7_modules/server/utils.h:125 | the `uint32_t` difference `overflowTest` takes: a - b, or a - b + 2^32 below zero |
| ErrorCounters.ZeroIsUnit | include/ctp7_modules/server/utils.h:95-111 | the default-constructed counters are a unit of `operator+` on both sides |
| ErrorCounters.PlusCommutes | include/ctp7_modules/server/utils.h:103-111 | `operator+` does not depend on the order of its operands |
| ErrorCounters.Add32Associates | include/ctp7_modules/server/utils.h:103-111 | wrapping addition is associative |
| ErrorCounters.PlusAssociates | include/ctp7_modules/server/utils.h:103-111 | `operator+` is associative, so a fold over the per-read counters does not depend on grouping |
| ErrorCounters.OverflowNeverDetected | include/ctp7_modules/server/utils.h:123-130 | `(a+b)-b != a` never holds in 32-bit arithmetic: `overflowTest` as written is plain wrapping addition |
| ErrorCounters.OverflowTestWraps | include/ctp7_modules/server/utils.h:123-130 | the input that shows it: 0xffffffff plus 1 gives 0, not 0xffffffff |
| ErrorCounters.OverflowTest | include/ctp7_modules/server/utils.h:113-130 | the documented behaviour: a + b when it fits, 0xffffffff otherwise |
| ErrorCounters.OverflowTestAgrees | include/ctp7_modules/server/utils.h:113-130 | without overflow the code and the documentation agree; with overflow the code's result is below the saturated one |
| ErrorCounters.TermsTotal | include/ctp7_modules/server/utils.h:132-138 | the five counters `sumErrors` adds, together with `sum`, make up the total |
| ErrorCounters.AccumulateAsWrittenWraps | include/ctp7_modules/server/utils.h:132-138 | adding counters one by one with `overflowTest` as written keeps the running total modulo 2^32 |
| ErrorCounters.AccumulateIntendedSaturates | include/ctp7_modules/server/utils.h:113-138 | adding them with the documented `overflowTest` gives the total clamped to 0xffffffff |
| ErrorCounters.SumErrorsAsWrittenWraps | include/ctp7_modules/server/utils.h:132-138 | `sumErrors` as written leaves sum + crc + packet + bitstuffing + timeout + axi_strobe modulo 2^32 in `sum`, and no other field changes |
| ErrorCounters.SumErrors | include/ctp7_modules/server/utils.h:132-138 | the five `overflowTest` steps in order: the new `sum` is the old one plus the five counters modulo 2^32; nothing else changes |
| ErrorCounters.SumErrorsIntended | include/ctp7_modules/server/utils.h:113-138 | the documented `sumErrors`: the total in `sum`, or 0xffffffff once it does not fit; nothing else changes |
| ErrorCounters.SumErrorsAgrees | include/ctp7_modules/server/utils.h:113-138 | when the total fits in 32 bits both versions store the exact total |
| ErrorCounters.SumErrorsWrapsExample | include/ctp7_modules/server/utils.h:123-138 | crc 0xffffffff and packet 1: as written the sum is 0, as documented 0xffffffff |
| Bits.BitShr | src/utils.cpp:127 | bit i of `x >> k` is bit i + k of x |
| Bits.BitShl | src/utils.cpp:414 | bit i of the 32-bit `x << k` is bit i - k of x for k <= i < 32, and clear otherwise |
| Bits.BitAnd | src/utils.cpp:254 | bit i of `a & b` is bit i of a and of b |
| Bits.BitOr | src/utils.cpp:415 | bit i of `a \| b` is bit i of a or of b |
| Bits.BitNot | src/utils.cpp:415 | bit i of `~x` is the complement of bit i of x, for i < 32 |
| Bits.WordExt | src/utils.cpp:252-264 | two words with the same 32 bits are equal |
| Bits.TzAt | src/utils.cpp:255-262 | for a non-zero mask the shift count of the `applyMask` loop is below 32 and lands on the mask's lowest set bit |
| Bits.TzAtMost | src/utils.cpp:406-413 | any set bit of the mask bounds the shift count the `writeReg` loop finds |
| Bits.ExtractInsert | src/utils.cpp:252-424 | reading back a field just written (`writeReg` then `readReg`) gives the value cut to the field's width |
| Bits.ExtractFits | src/utils.cpp:252-264 | a field read by `applyMask` is at most the word and already fits the field |
| Bits.InsertBit | src/utils.cpp:414-415 | bit j of a read-modify-write result is the shifted value's bit under the mask and the old word's bit elsewhere |
| Bits.InsertExtract | src/utils.cpp:252-424 | writing back the field just read leaves the word as it was |
| Bits.InsertOutside | src/utils.cpp:415 | a masked write changes no bit outside the mask |
| Bits.InsertInside | src/utils.cpp:414-415 | under the mask the word holds `(v << ctz(m)) & m` |
| Bits.InsertTwice | src/utils.cpp:392-424 | a second write of the same field overrides the first |
| Bits.SaveRestore | src/utils.cpp:252-424 | saving a field, writing another value and writing the saved one back restores the whole word |
| Bits.FullMask | src/utils.cpp:283-401 | with mask 0xffffffff the field is the whole word, as the unmasked paths of `readReg` and `writeReg` take it |
| Bits.LowHigh | src/utils.cpp:252-264 | `x & (2^n - 1)` and `x >> n` are the remainder and quotient of x by 2^n |
| Bits.AndPow2 | src/utils.cpp:135 | `v & (1 << i)` is `1 << i` when bit i is set and 0 otherwise |
| Bits.CountBitsZero | src/utils.cpp:130-141 | the number of set bits below n is zero exactly when no such bit is set |
| Bits.CountBitsAll | src/utils.cpp:130-141 | the number of set bits below n is n exactly when all of them are set |
| Packing.ShlMod | src/utils.cpp:414 | `x << k` on a `uint32_t` is x * 2^k modulo 2^32 |
| Packing.LowBits | src/utils.cpp:252-264 | `x & (2^n - 1)` is x mod 2^n and `x >> n` is x div 2^n |
| Packing.OrBit | src/vfat3.cpp:106 | `m \| (1 << n)` with m < 2^n is m + 2^n and still fits a word |
| Packing.MaskOfBits | src/vfat3.cpp:102-107 | the mask built one `1 << n` at a time has exactly the flagged positions set |
| Text.Dec | src/vfat3.cpp:103 | `std::to_string`: at least one character, only decimal digits |
| Text.DecRoundTrip | src/vfat3.cpp:103 | reading back a decimal rendering gives the number |
| Text.DecInjective | src/vfat3.cpp:103 | distinct indices give distinct decimal renderings, so the register names built from them are distinct |
| Text.Hex | src/utils.cpp:16-20 | `std::hex` rendering: at least one character, only hexadecimal digits |
| Text.ParseHex | src/utils.cpp:272-274 | `stoull(s, nullptr, 16)` on a field `serialize` writes, a non-empty string of hexadecimal digits: its base-16 value; no value for any other string |
| Text.HexRoundTrip | src/utils.cpp:16-20 | parsing a hexadecimal rendering gives the number back |
| Text.Find | include/ctp7_modules/server/utils.h:54 | the first occurrence of the delimiter, or the end of the string |
| Text.TokensHaveNoDelimiter | include/ctp7_modules/server/utils.h:49-57 | no token of `split` contains the delimiter |
| Text.JoinTokens | include/ctp7_modules/server/utils.h:49-57 | joining the tokens with the delimiter gives back any string that does not end with it |
| Text.TokensOfJoin | include/ctp7_modules/server/utils.h:49-57 | splitting undoes joining for delimiter-free tokens whose last one is not empty |
| Text.TrailingDelimiter | include/ctp7_modules/server/utils.h:54 | a trailing delimiter produces no empty last token |
| Text.Split | include/ctp7_modules/server/utils.h:49-57 | the `getline` loop returns exactly the tokens of s |
| Selection.ShrAndOne | src/vfat3.cpp:102-107 | `(x >> k) & 0x1` is 1 exactly when bit k is set |
| Selection.NotMaskBits | src/vfat3.cpp:111 | bit v of `~mask & 0xFFFFFF` is set exactly for the unmasked VFATs among the 24 |
| Selection.AllGoodIff | src/vfat3.cpp:113 | `(notmask & goodVFATs) == notmask` holds exactly when every unmasked VFAT is good |
| Selection.UnmaskedMembers | src/vfat3.cpp:102 | the positions a masked loop visits are the unmasked ones below n, each once, in ascending order |
| HwConstants.CheckPhase | include/ctp7_modules/common/hw_constants_checks.h:22-32 | returns normally exactly inside [PHASE_MIN, PHASE_MAX]; `range_error` below the minimum, checked first, or above the maximum |
| HwConstants.DocumentedPhases | include/ctp7_modules/common/hw_constants_checks.h:22-32 | with the documented constants exactly the phases 0 to 15 pass |
| Registers.SerializeRoundTrip | src/utils.cpp:27-36 | splitting a `serialize`d node on `\|` gives five fields: address, mask and size parse back from hexadecimal, permission and mode are returned as they were |
| Registers.FirstClear | src/utils.cpp:211-238 | the first attempt of the retry loop the memory service lets through, or 10 when none does |
| Registers.FetchAttempts | src/utils.cpp:211-238 | a retried read makes between 1 and 10 attempts |
| Registers.ReadAfterWrite | src/utils.cpp:266-424 | after `writeReg(name, v)`, `readReg(name)` gives v cut to the field's width, and v itself for an unmasked register |
| Registers.WriteKeepsOtherBits | src/utils.cpp:392-424 | a masked `writeReg` changes no bit of the word outside the mask |
| Registers.WriteBackRestores | src/utils.cpp:266-424 | writing a register's saved value back after overwriting it restores the whole word |
| Registers.WriteAllAppend | src/utils.cpp:392-424 | two lists of `writeReg` calls one after the other are the calls of their concatenation, for memory and log |
| Registers.WriteAllSplit | src/utils.cpp:392-424 | a served list of writes `a + b` is `a` and then `b` |
| Registers.PerformedStep | src/utils.cpp:392-424 | carrying out one plan of writes and then another carries out their concatenation |
| Registers.RegWrittenTwice | src/utils.cpp:392-424 | a second `writeReg` of the same register overrides the first |
| Registers.FieldRestored | src/utils.cpp:266-424 | a register whose saved value is written back reads as it did when saved, whatever was written in between |
| Registers.RawWriteAllAppend | src/utils.cpp:240-244 | two lists of `writeRawReg` calls one after the other are the calls of their concatenation |
| Registers.RawWriteAllReads | src/utils.cpp:240-244 | when no two raw writes share an address, each register's word is the one written to it |
| Registers.RawWriteAllOutside | src/utils.cpp:240-244 | raw writes elsewhere leave the word at a as it was |
| Registers.WriteAllOutside | src/utils.cpp:392-424 | `writeReg` calls on registers at other addresses leave the word at a as it was |
| Registers.WriteAllReads | src/utils.cpp:392-424 | when no two writes share an address, each register's word is its old word with the written field inserted |
| Registers.RawPerformedStep | src/utils.cpp:240-244 | raw writes of one plan and then another carry out their concatenation |
| Registers.EffectsAppend | src/utils.cpp:198-478 | the writes of two call traces one after the other are the writes of each |
| Registers.WriteSpanThenRead | src/utils.cpp:296-478 | after a block write, reading the same span gives the words written, and every other address keeps its word |
| Registers.BlockWithinRange | src/utils.cpp:296-352 | a block that passes the checks is unmasked, is at most one word on a "single" register, and ends within the block's size unless offset + size wrapped |
| Registers.BlockWords | src/utils.cpp:296-352 | what `readBlock` leaves in the buffer: nothing for an unknown name, otherwise size words |
| Registers.BlocksWrittenAppend | src/utils.cpp:426-478 | two lists of `writeBlock` calls one after the other are the calls of their concatenation |
| Registers.Values | src/utils.cpp:266-294 | one `readReg` result per name, each the register's field value |
| Registers.ApplyMask | src/utils.cpp:252-264 | the shift loop returns the field under the mask, `(data & mask) >> ctz(mask)` |
| Registers.ShiftAmount | src/utils.cpp:404-413 | the shift loop of a masked `writeReg` counts the mask's trailing zeros, 32 for the zero mask |
| Registers.BitCheck | src/utils.cpp:123-128 | bit positions above 31 are refused with `invalid_argument`; otherwise the result is 1 exactly when the bit is set |
| Registers.GetNumNonzeroBitsAsWritten | src/utils.cpp:130-141 | as written `(value & (1 << i)) == 1` holds only for i = 0, so the result is value mod 2 |
| Registers.GetNumNonzeroBitsMiscounts | src/utils.cpp:130-141 | the input that shows it: 3 has two set bits, one is counted |
| Registers.GetNumNonzeroBits | src/utils.cpp:130-141 | the documented count: the number of set bits among the 32 |
| Registers.Hardware.GetAddress | src/utils.cpp:164-179 | the address column of the node; unknown names throw `runtime_error` |
| Registers.Hardware.GetMask | src/utils.cpp:181-196 | the mask column of the node; unknown names throw `runtime_error` |
| Registers.Hardware.Fetch | src/utils.cpp:211-238 | up to ten attempts; the word when one of them succeeds, `runtime_error` after ten failures; the attempts used are consumed |
| Registers.Hardware.ReadRawAddress | src/utils.cpp:211-238 | the word at a after up to ten attempts, or `runtime_error`; nothing is written |
| Registers.Hardware.WriteRawAddress | src/utils.cpp:198-209 | exactly one attempt: on success the word at a becomes v, on failure `runtime_error` and memory unchanged |
| Registers.Hardware.ReadRawReg | src/utils.cpp:246-250 | `readRawAddress(getAddress(name))`: unknown names throw before any transfer |
| Registers.Hardware.WriteRawReg | src/utils.cpp:240-244 | `writeRawAddress(getAddress(name), v)`: the whole word, mask ignored; unknown names throw |
| Registers.Hardware.ReadReg | src/utils.cpp:266-294 | unknown names and registers without "r" throw before any transfer; otherwise the word is read with retries and the field under the mask is returned |
| Registers.Hardware.WriteReg | src/utils.cpp:392-424 | unknown names throw; an unmasked register gets v in one attempt; a masked one is read, `((v << ctz) & mask) \| (old & ~mask)` is written; no permission check |
| Registers.Hardware.ReadBlock | src/utils.cpp:296-352 | an unknown name returns 0 and reads nothing; the mask, mode and range checks throw `range_error` in order; otherwise one transfer returns size words from address + offset |
| Registers.Hardware.WriteBlock | src/utils.cpp:426-478 | an unknown name does nothing; the same checks in the same order throw `runtime_error`; otherwise one transfer stores the words |
| Registers.Hardware.WriteBlocks | src/utils.cpp:426-478 | `writeBlock` for each block in turn, stopping at the first that throws; memory as `BlocksWritten` says |
| Registers.Hardware.ReadRegs | src/utils.cpp:266-294 | `readReg` for each name in turn: on success the values of all of them, nothing written |
| Registers.Hardware.WriteRegs | src/utils.cpp:392-424 | `writeReg` for each pair in turn: on success memory and log are those of the whole list |
| Registers.Hardware.ReadRepeatedly | src/utils.cpp:366-376 | `nReads` read attempts, failures ignored unless `breakOnFailure`, which ends the loop at the first one; the successful reads are logged |
| Registers.Hardware.ResetLink | src/utils.cpp:362-363 | the link reset that starts `repeatedRegRead`: 1 written to `LINK_RESET` |
| Registers.Hardware.ReadAndCount | src/utils.cpp:366-389 | the read loop, then the six slow-control counters, with `sum` their five error counters added as `sumErrors` does it, modulo 2^32 |
| Registers.Hardware.RepeatedRegRead | src/utils.cpp:360-390 | the link reset, the read loop, then the six counters summed modulo 2^32, with the trace of every call |
| Registers.Hardware.SetAfter | src/utils.cpp:392-424 | a `writeReg` after the writes `done`: on success `done` and then this write have been carried out |
| Registers.Hardware.WriteRawRegs | src/utils.cpp:240-244 | `writeRawReg` for each pair in turn: on success memory and log are those of the whole list |
| Registers.Hardware.ReadBlockAt | src/utils.cpp:354-358 | the address overload of `readBlock` transfers nothing and returns 0 |
| Registers.Hardware.WriteBlockAt | src/utils.cpp:480-485 | the address overload of `writeBlock` transfers nothing |
| Registers.Hardware.Store | src/utils.cpp:198-209 | one store attempt succeeds exactly when the memory service takes it, and then sets the address to v; a failure changes nothing |
| Registers.Hardware.Get | src/utils.cpp:266-294 | `readReg` as its callers use it: the register's field value, nothing written |
| Registers.Hardware.Set | src/utils.cpp:392-424 | `writeReg` as its callers use it: the register's field is set to v and the write logged; a failure changes nothing |
| Registers.Hardware.SetRawReg | src/utils.cpp:240-244 | `writeRawReg` as its callers use it: the whole word at the register's address becomes v |
| Registers.Hardware.GetRaw | src/utils.cpp:211-238 | `readRawAddress` as its callers use it: the word at the address, nothing written |
| Registers.Hardware.SetRaw | src/utils.cpp:198-209 | `writeRawAddress` as its callers use it: the address is set to v and the write logged |
| Blaster.LinkNamesDistinct | src/amc/blaster_ram.cpp:193-199 | the per-link nodes `..._OH<n>` of different links are different nodes |
| Blaster.CapacityAll | src/amc/blaster_ram.cpp:33-37 | the `ALL` size equals the `uint32_t` sum of the GBT, OptoHybrid and VFAT sizes modulo 2^32, and equals the plain sum when that sum fits |
| Blaster.ReadSize | src/amc/blaster_ram.cpp:27-32 | reading one RAM's size register gives that RAM's size; a failed read is a `runtime_error` |
| Blaster.RAMMaxSize | src/amc/blaster_ram.cpp:23-49 | `getRAMMaxSize`: an undeclared type throws `range_error`; otherwise a success is the type's capacity (for `ALL`, the wrapped sum) |
| Blaster.CheckBLOBSize | src/amc/blaster_ram.cpp:51-56 | true exactly when the size equals `getRAMMaxSize(type)`; the lookup's errors pass through |
| Blaster.RAMBaseAddr | src/amc/blaster_ram.cpp:58-107 | a link beyond `OH_PER_AMC` is a `range_error`, then a GBT or VFAT part beyond a link's parts is one; a missing node or another type is a `runtime_error`; otherwise the node's address plus part times part size, modulo 2^32 |
| Blaster.BaseAddrIgnoresPart | src/amc/blaster_ram.cpp:84-87 | the OptoHybrid base address does not depend on `partN` |
| Blaster.BaseAddrStride | src/amc/blaster_ram.cpp:80-98 | consecutive GBT or VFAT parts of a link are one part size apart, modulo 2^32 |
| Blaster.Place | src/amc/blaster_ram.cpp:197-198 | copying `ws` into a buffer at `at` keeps the buffer's length, puts `ws` in `at .. at+|ws|` and keeps every other word |
| Blaster.SelectedMono | src/amc/blaster_ram.cpp:193-200 | the cursor never moves back: the slots used by links selected below `a` fit in those used below `b` for `a <= b` |
| Blaster.GatherNext | src/amc/blaster_ram.cpp:193-200 | one more link copies its block at the cursor when its mask bit is set and moves the cursor on by `perblk`; an unselected link changes nothing |
| Blaster.GatherStep | src/amc/blaster_ram.cpp:193-200 | a pass of the link loop changes only the slots of that link's block |
| Blaster.GatherBlock | src/amc/blaster_ram.cpp:193-200 | the block of selected link `k` lies at `popcount(mask below k)` slots of `perblk` words |
| Blaster.GatherTail | src/amc/blaster_ram.cpp:188-200 | past the selected links' blocks the buffer keeps the zeros it was allocated with |
| Blaster.LinkBlocks | src/amc/blaster_ram.cpp:193-200 | one block per link, each of at most `perblk` words, the words `readBlock` leaves for that link's node |
| Blaster.LinksFitProduct | src/amc/blaster_ram.cpp:188-200 | the selected blocks fit in the RAM exactly when the mask is full or `popcount(mask) * perblk` is at most the RAM's size |
| Blaster.FullImage | src/amc/blaster_ram.cpp:179-184 | a mask of 0 or 0xfff reads the whole RAM through its node, or leaves zeros when the node's block read gives nothing |
| Blaster.PartialImageBlock | src/amc/blaster_ram.cpp:185-202 | with another mask, selected link `k`'s words sit `popcount(mask below k) * perblk` words into the returned buffer |
| Blaster.PartialImage | src/amc/blaster_ram.cpp:185-202 | with another mask, the returned buffer is the zeroed buffer after the selected links were copied in ascending order |
| Blaster.PartialImageTail | src/amc/blaster_ram.cpp:185-202 | with another mask, every word after the selected links' blocks is zero |
| Blaster.LinkSelected | src/amc/blaster_ram.cpp:194 | `(0x1 << oh) & ohMask` is non-zero exactly when bit `oh` of the mask is set |
| Blaster.ReadRegionRAM | src/amc/blaster_ram.cpp:175-263 | `read*ConfRAM(mask)` returns, on success, the RAM's image for that mask, with the RAM's size |
| Blaster.ReadWords | src/amc/blaster_ram.cpp:183 | the words `readBlock` leaves at the front of the buffer |
| Blaster.ReadLinks | src/amc/blaster_ram.cpp:193-200 | the link loop leaves the buffer equal to the gathered image of all links |
| Blaster.ReadLink | src/amc/blaster_ram.cpp:194-199 | one pass of the link loop: the buffer and cursor after link `oh` are the gathered image and cursor up to `oh + 1` |
| Blaster.ConfImageSize | src/amc/blaster_ram.cpp:144-158 | a RAM's image has the RAM's size; the `ALL` image has the sum of the three sizes, which is `getRAMMaxSize(ALL)` when the sum fits in 32 bits |
| Blaster.ReadConfRAM | src/amc/blaster_ram.cpp:109-173 | an undeclared type is a `range_error`; a success means `blob_sz` was `getRAMMaxSize(t)` and the result is the RAM's whole image, or for `ALL` the three images in the order GBT, OptoHybrid, VFAT |
| Blaster.ReadAllConfRAM | src/amc/blaster_ram.cpp:144-158 | the `ALL` branch returns the GBT, OptoHybrid and VFAT images concatenated |
| Blaster.LinkPlan | src/amc/blaster_ram.cpp:343-350 | the link loop of a write issues one `writeBlock` of `perblk` words per selected link |
| Blaster.LinkPlanSelected | src/amc/blaster_ram.cpp:344-349 | a selected link adds the write of the next `perblk` words of the buffer to its node |
| Blaster.LinkPlanSkipped | src/amc/blaster_ram.cpp:344 | a link not in the mask adds no write and does not move the cursor |
| Blaster.LinkPlanCovers | src/amc/blaster_ram.cpp:341-350 | the writes together cover the first `popcount(mask) * perblk` words of the buffer, each once and in order |
| Blaster.LinkPlanAt | src/amc/blaster_ram.cpp:341-350 | selected link `k` is written by write number `popcount(mask below k)` with the words at that many `perblk` slots into the buffer |
| Blaster.WriteLinks | src/amc/blaster_ram.cpp:341-350 | on success the memory is the old memory after the planned block writes, and the trace gains those writes in order; the address set never changes |
| Blaster.LinkWrites | src/amc/blaster_ram.cpp:341-350 | the loop builds exactly the plan `LinkPlan` |
| Blaster.LinkWrite | src/amc/blaster_ram.cpp:344-349 | one pass of the loop extends the plan and the cursor to link `oh + 1` |
| Blaster.WriteRegionRAM | src/amc/blaster_ram.cpp:327-412 | a buffer larger than the RAM is a `range_error` and writes nothing; a success wrote the whole buffer to the RAM's node (mask 0 or 0xfff) or the link plan, and nothing else |
| Blaster.WriteConfRegion | src/amc/blaster_ram.cpp:265-296 | a single-RAM `writeConfRAM`: a buffer of the wrong size or an empty one writes nothing and fails; a success wrote the whole buffer to the RAM's node |
| Blaster.AllPlanCovers | src/amc/blaster_ram.cpp:297-315 | the intended `ALL` writes put every word of the buffer into exactly one RAM, in order, GBT first with its own size, then OptoHybrid |
| Blaster.MemStep | src/amc/blaster_ram.cpp:297-315 | block writes issued one after the other compose: `a` then `b` is `a + b` |
| Blaster.WriteConfRAM | src/amc/blaster_ram.cpp:265-325 | `writeConfRAM` with the `ALL` branch as intended: an undeclared type, a size other than `getRAMMaxSize(t)` or an empty buffer writes nothing and fails; a success wrote exactly the planned blocks |
| Blaster.WriteAllSlices | src/amc/blaster_ram.cpp:297-315 | the three intended recursive calls of `ALL` together write the GBT, OptoHybrid and VFAT slices of the buffer |
| Blaster.AllSliceAsWritten | src/amc/blaster_ram.cpp:299-301 | the slice built as written has twice the RAM's size |
| Blaster.AllSliceRefused | src/amc/blaster_ram.cpp:299-302 | the slice as written passes the recursive size check only when it is empty, and an empty buffer is refused too |
| Blaster.WriteConfRAMAsWritten | src/amc/blaster_ram.cpp:265-325 | as written, `ALL` always fails and writes nothing; the single-RAM branches behave as intended |
| Blaster.RegionRoundTrip | src/amc/blaster_ram.cpp:339 | writing a whole RAM and reading its node back gives the words written; GBT and VFAT are read back through the same node `readConfRAM` uses |
| Amc.FwMajor | src/amc.cpp:32-43 | release 1 or 3 is accepted and returned; any other value is a `runtime_error` |
| Amc.FwVersionCheck | src/amc.cpp:28-44 | `fw_version_check` returns the RELEASE.MAJOR register when it is 1 or 3; a failed read or another release is a `runtime_error` |
| Amc.SyncFlags | src/amc.cpp:50-59 | one flag per VFAT of the link |
| Amc.VfatMaskBits | src/amc.cpp:46-62 | bit `v` of the mask is set exactly when `v` is one of the VFATs and its SYNC_ERR_CNT is not 0; with 24 VFATs the mask fits in 0xffffff |
| Amc.VfatMaskStep | src/amc.cpp:56-58 | one more VFAT or-s in `1 << vfatN` exactly when its counter is not 0 |
| Amc.GetOHVFATMask | src/amc.cpp:46-62 | `getOHVFATMask(ohN)` returns the sync-error mask of the link's VFATs read in order; a failed read is a `runtime_error` |
| Amc.VfatMasksEntries | src/amc.cpp:77-87 | one entry per supported link: an unselected link masks all 24 VFATs, a selected one exactly its VFATs with sync errors |
| Amc.AllOnes24 | src/amc.cpp:80 | 0xffffff has bits 0 to 23 set |
| Amc.VfatMasksStep | src/amc.cpp:78-87 | each pass appends 0xffffff for an unselected link and the link's mask for a selected one |
| Amc.GetOHVFATMaskMultiLink | src/amc.cpp:64-96 | NUM_OF_OH is read and the result is the list of per-link masks for the supported links; a mask with bits beyond them is only logged |
| Amc.SbitWordSum | src/amc.cpp:146 | with a delay of at most 0xfff the stored word is the sum of the three shifted fields |
| Amc.SbitWordFields | src/amc.cpp:124-146 | the stored word packs the clamped delay in bits 25:14, the cluster size in bits 13:11 and the address in bits 10:0, each given back exactly, and nothing above bit 25 |
| Amc.ThreeFields | src/amc.cpp:146 | an 11-bit, a 3-bit and a 12-bit field packed this way are each recovered |
| Amc.ValidAddrNamesPad | src/amc.cpp:134-136 | every address below 1536 names a VFAT position 0..23 and a pad 0..63 whose address it is |
| Amc.PadAddrValid | src/amc.cpp:134-136 | every (VFAT position, pad) pair has a valid address that gives the pair back |
| Amc.LastSbitRejected | src/amc.cpp:136 | the test as written rejects address 1535, the last pad of VFAT 16, which the documented bound accepts |
| Amc.ValidCluster | src/amc.cpp:133-136 | a cluster that passes the test as written also has a valid address by the documented test |
| Amc.StoredAppend | src/amc.cpp:149-151 | appending an 8-word batch holding a valid cluster keeps the stored words whole batches each with a valid cluster |
| Amc.StoredDecodes | src/amc.cpp:98-160 | every stored batch has a word whose address field decodes to a VFAT position and pad that give the address back |
| Amc.ClusterValues | src/amc.cpp:132-133 | one value per cluster register |
| Amc.HasValidStep | src/amc.cpp:138-143 | the batch flag is set exactly when some cluster read so far is valid |
| Amc.BatchWords | src/amc.cpp:146 | one stored word per cluster |
| Amc.BatchWordsValid | src/amc.cpp:132-151 | a batch is kept exactly when one of the clusters it was built from is valid, and every word is in range |
| Amc.ReadClusters | src/amc.cpp:130-147 | the inner loop reads the eight clusters in order, packs each with the delay, and its flag says whether one is valid |
| Amc.ReadCluster | src/amc.cpp:133-146 | one pass reads, packs and tests cluster register `cluster` |
| Amc.ReadBatch | src/amc.cpp:124-147 | the delay is read and clamped to 0xfff, then the eight clusters are read and packed |
| Amc.Acquire | src/amc.cpp:118-157 | the acquisition loop runs at least once, writes RESET = 1 and nothing else, and keeps whole batches each holding a valid cluster |
| Amc.SbitSetup | src/amc.cpp:101-110 | OH_SELECT is set to `ohN` and SC_ONLY_MODE to 0; the monitor's RESET, L1A_DELAY and eight CLUSTER addresses are those of the table |
| Amc.SbitReadOut | src/amc.cpp:98-160 | `sbitReadOut` makes exactly the two set-up writes and the monitor resets, and returns whole batches of eight words each holding a valid cluster |
| Amc.SumListAppend | src/amc.cpp:165-168 | adding up two lists one after the other is adding their sums with `operator+` |
| Amc.ErrorMap | src/amc.cpp:170-177 | the result map has exactly the seven documented keys |
| Amc.ErrorMapFaithful | src/amc.cpp:170-177 | the map loses nothing: equal maps come from equal counters, and no registers give seven zeros |
| Amc.CountersReadSummed | src/amc.cpp:167 | each per-register result carries `sumErrors` as written: the five error counts added modulo 2^32, exact when they fit |
| Amc.ReadCounters | src/amc.cpp:167 | `utils::repeatedRegRead` as the list version calls it: the link reset, then the counters read back |
| Amc.RepeatedRegReadList | src/amc.cpp:162-180 | `amc::repeatedRegRead` returns the map of the sum of one result per register; an empty list leaves the memory alone and gives zeros; all results equal the counters after the one reset |
| Amc.ReadNext | src/amc.cpp:165-168 | a later register's reset rewrites the same value, so memory is unchanged and the counters are those after the first reset |
| Amc.ResetTwice | src/amc.cpp:165-168 | writing LINK_RESET = 1 a second time changes nothing |
| Gbt.RegCheck | src/gbt.cpp:153-163 | the checks of `writeGBTReg` pass exactly when the GBT exists and the address is below CONFIG_SIZE; otherwise a `range_error` |
| Gbt.LinkNumberDecodes | src/gbt.cpp:168 | without wrap-around, `ohN*GBTS_PER_OH + gbtN` gives `ohN` and `gbtN` back, so distinct pairs select distinct links |
| Gbt.RegWritesOrder | src/gbt.cpp:164-174 | a GBT register write is five IC writes: length 1, link select, address, data, and EXECUTE_WRITE last and once |
| Gbt.WriteGBTReg | src/gbt.cpp:151-176 | a failed check writes nothing; a success performed exactly the five IC writes |
| Gbt.ConfigPlanShape | src/gbt.cpp:113-115 | the configuration writes go in ascending address order, five per address, address `a` getting `config[a]` |
| Gbt.WriteGBTConfig | src/gbt.cpp:96-116 | `ohN` beyond NUM_OF_OH or `gbtN` beyond GBTS_PER_OH fails before anything is written; a success wrote every address of the configuration in order |
| Gbt.WriteConfigWords | src/gbt.cpp:113-115 | the loop performs the configuration plan, stopping at the first failure |
| Gbt.WriteConfigWord | src/gbt.cpp:114 | one pass extends the performed plan by the write of `config[address]` |
| Gbt.PhasePlanShape | src/gbt.cpp:138-147 | the phase goes, unchanged, to the three e-link phase registers of the VFAT on the GBT the VFAT is mapped to |
| Gbt.WriteGBTPhase | src/gbt.cpp:118-149 | `ohN`, `vfatN` and the phase are checked in that order before anything is written; a success performed the three register writes |
| Gbt.ScanPhasesAre | src/gbt.cpp:49 | the visited phases are exactly those at a whole number of steps from `phaseMin`, up to `phaseMax` |
| Gbt.ScanPhasesAbove | src/gbt.cpp:49 | every visited phase lies between `phaseMin` and `phaseMax` |
| Gbt.TallyCountsPasses | src/gbt.cpp:64-88 | a VFAT's tally at a phase is the number of link resets at that phase after which all four of its checks read zero |
| Gbt.TallyAtMostReps | src/gbt.cpp:59-88 | a VFAT cannot pass at a phase more often than the phase was tried |
| Gbt.RepsStep | src/gbt.cpp:59-88 | one more reset adds one attempt at its phase and one pass for each VFAT that passed |
| Gbt.Range | src/gbt.cpp:44 | the VFAT indices 0 to `VFATS_PER_OH - 1` |
| Gbt.Table | src/gbt.cpp:43-46 | the result map has one entry of 16 tallies per VFAT and no other key |
| Gbt.ZeroesAreEmptyTable | src/gbt.cpp:43-46 | before any link reset every tally is 0 |
| Gbt.TableBound | src/gbt.cpp:49-90 | every tally is at most the resets at its phase and is 0 at a phase not visited |
| Gbt.ScanResult | src/gbt.cpp:43-92 | a finished scan's map has an entry of 16 tallies per VFAT, each at most `nResets` and 0 at phases not visited |
| Gbt.TableStep | src/gbt.cpp:87 | recording one reset's verdicts increments exactly the tallies of the passing VFATs at its phase |
| Gbt.ReadErrorSum | src/gbt.cpp:67-69 | `repeatedRegRead(name, true, nReads)` resets the link and returns the counters' sum |
| Gbt.ReadAgain | src/gbt.cpp:74-82 | a further `repeatedRegRead` in a check leaves memory as it was, so every earlier sum is read again |
| Gbt.CheckVfat | src/gbt.cpp:66-87 | the four checks of a VFAT stop at the first that reports errors, the verdict is good exactly when all four sums were 0, and every sum is the summed counters read from the memory after the link reset |
| Gbt.CheckAll | src/gbt.cpp:65-88 | one reset checks every VFAT in order, one verdict each; the first check's reset is the only change to memory, and every sum of every VFAT is the summed counters read from the memory it leaves |
| Gbt.ResetAndCheck | src/gbt.cpp:60-88 | one `LINK_RESET` write followed by the checks of every VFAT: memory is the old one with the reset written, and the record holds the verdicts and the sums read from that memory |
| Gbt.SetPhases | src/gbt.cpp:51-53 | a success performed the `writeGBTPhase` writes of VFATs 0 to VFATS_PER_OH - 1, one VFAT after the other; the address set is unchanged |
| Gbt.SetPhase | src/gbt.cpp:51-53 | one VFAT's `writeGBTPhase`: a success appends that VFAT's writes to those of the VFATs before it; the address set is unchanged |
| Gbt.PhasesPlanAt | src/gbt.cpp:51-53 | VFAT v's three register writes come right after those of the VFATs below it: together they are a prefix of the writes of every VFAT |
| Gbt.ScanPhase | src/gbt.cpp:59-89 | `nResets` link resets at one phase add that many records at that phase and keep the map equal to the tallies of the log; each new record's sums are read from the memory the phase ends with, which is the old one with the reset written |
| Gbt.ScanAt | src/gbt.cpp:49-89 | one pass of the phase loop: `phased` is the memory after the phase writes of every VFAT; the pass adds `nResets` records at that phase, each read from `phased` with the link reset written; the last one read from the memory the pass leaves |
| Gbt.ScanNext | src/gbt.cpp:49-89 | one turn of the phase loop adds `nResets` records at a phase not visited before, each read from its own memory with the reset written |
| Gbt.ScanGBTPhases | src/gbt.cpp:23-94 | `ohN` beyond NUM_OF_OH or a bad phase bound fails before any write; a success returns 16 tallies per VFAT, each the number of resets whose four sums, read from memory after that reset, were 0; at most `nResets`, and 0 at phases not visited |
| Gbt.EmptyResults | src/gbt.cpp:43-46 | the initial map is the table of an empty log |
| Gbt.ScanRange | src/gbt.cpp:49-90 | the phase loop visits exactly the scan's phases, each `nResets` times; every record's sums are the counters read from its own memory, which has the reset written, and the last record was read from the final memory |
| Sca.BytesCompose | src/amc/sca.cpp:9-17 | a word is its four bytes put together |
| Sca.BytesOfFromBytes | src/amc/sca.cpp:9-17 | the bytes of a word made of four bytes are those bytes |
| Sca.FormatIsByteSwap | src/amc/sca.cpp:9-17 | `formatSCAData` reverses the byte order of a 32-bit word |
| Sca.ByteSwapTwice | src/amc/sca.cpp:9-17 | reversing the bytes twice gives the word back |
| Sca.FormatInvolution | src/amc/sca.cpp:9-17 | `formatSCAData` applied twice is the identity |
| Sca.CommandOrder | src/amc/sca.cpp:19-28 | a command is six writes: the link mask, channel, command, length, the data byte-reversed, and EXECUTE = 1 last and only once |
| Sca.RepliesDecode | src/amc/sca.cpp:37-50 | one reply per link: 0 for a link outside the mask, and for a selected link its reply register byte-reversed |
| Sca.RepliesStep | src/amc/sca.cpp:40-50 | each pass appends the entry of one link |
| Sca.SendSCACommand | src/amc/sca.cpp:19-28 | `sendSCACommand` performs the six writes in order and nothing else, stopping at the first that throws |
| Sca.ReadReplies | src/amc/sca.cpp:38-52 | the reply loop returns exactly the per-link reply vector; it writes nothing |
| Sca.SendSCACommandWithReply | src/amc/sca.cpp:30-53 | `sendSCACommandWithReply` performs the six writes, then returns one reply entry per link |
| Sca.SendOne | src/amc/sca.cpp:61-85 | one call of the `switch`, with or without reply |
| Sca.SendsWritesStep | src/amc/sca.cpp:61-85 | sending one more command adds its six writes |
| Sca.SendsWritesManual | src/amc/sca.cpp:22-27 | every write of a command sequence goes to a MANUAL_CONTROL register |
| Sca.SessionBrackets | src/amc/sca.cpp:57-87 | MONITORING_OFF is set to 0xffffffff first and no command of the session writes it afterwards |
| Sca.SessionRestores | src/amc/sca.cpp:57-87 | after a session MONITORING_OFF reads as it did before |
| Sca.SendAll | src/amc/sca.cpp:61-85 | the commands are sent in order, stopping at the first failure; the value is the reply of the last command sent with reply, or empty |
| Sca.WithMonitoringOff | src/amc/sca.cpp:124-147 | the shared session pattern: save MONITORING_OFF, set it to 0xffffffff, send the commands, write the saved value back |
| Sca.SessionStep | src/amc/sca.cpp:57-58 | the session's first write followed by the commands' writes compose into one plan |
| Sca.CaseIndex | src/amc/sca.cpp:61-84 | the case label `cmd` matches, or `default` when it matches none |
| Sca.CtrlFallThrough | src/amc/sca.cpp:61-85 | without `break`, every case from the matched one on is sent in order; the last call, whose reply is returned, is always GET_DATA of `default`; an unmatched command sends GET_DATA alone |
| Sca.ScaCTRLCommand | src/amc/sca.cpp:55-89 | `scaCTRLCommand` is one monitoring-off session of the fall-through commands and returns the GET_DATA reply |
| Sca.ScaI2CCommand | src/amc/sca.cpp:91-110 | `scaI2CCommand` is one session of one command without reply and returns an empty vector |
| Sca.ScaGPIOCommand | src/amc/sca.cpp:112-122 | `scaGPIOCommandLocal` is one session of one GPIO command with reply, and returns that reply |
| Sca.AdcSendsSelect | src/amc/sca.cpp:131-136 | the multiplexer gets the channel number, the current sink the word with exactly bit `ch` set, and the conversion is started last, with reply |
| Sca.ScaADCCommand | src/amc/sca.cpp:124-148 | `scaADCCommand` is one session of the three ADC commands and returns the ADC_GO reply |
| Sca.ResetRestores | src/amc/sca.cpp:175-185 | the reset is sent while the enable mask is `ohMask`, and afterwards the mask reads as before |
| Sca.ScaModuleReset | src/amc/sca.cpp:175-185 | `scaModuleResetLocal` reads the enable mask, then writes `ohMask`, MODULE_RESET = 1 and the saved mask, and nothing else |
| ScaKeys.StatusKeysApart | src/daq_monitor.cpp:377-392 | the READY, CRITICAL_ERROR and SEU counter keys of `getmonSCA` differ in the character after their common prefix |
| Optohybrid.RequestMask | src/optohybrid.cpp:83 | the request's mask when it has one; otherwise `0xFF000000`, which masks none of the 24 VFAT positions |
| Optohybrid.DefaultMaskBit | src/optohybrid.cpp:49 | bit `v` of `0xFF000000` is set exactly when 24 <= v < 32 |
| Optohybrid.V2BroadcastPlan | src/optohybrid.cpp:13-21 | the v2b broadcast is three raw writes |
| Optohybrid.BroadcastTargets | src/optohybrid.cpp:29-38 | on release 3 the broadcast writes `value` to the register of exactly the unmasked VFATs, once each, in ascending order |
| Optohybrid.BroadcastWrite | src/optohybrid.cpp:5-42 | `broadcastWriteLocal`: on release 1 the Reset = 0, Mask and Request raw writes, on release 3 the per-VFAT writes, on another release nothing; a failed transfer is a `runtime_error` |
| Optohybrid.V2Broadcast | src/optohybrid.cpp:13-21 | the v2b branch performs its three raw writes in order, stopping at the first failure |
| Optohybrid.V3Broadcast | src/optohybrid.cpp:29-38 | the v3 branch performs one `writeReg` per unmasked VFAT |
| Optohybrid.BroadcastOne | src/optohybrid.cpp:32-37 | one VFAT position extends the performed plan to the next position |
| Optohybrid.BroadcastValues | src/optohybrid.cpp:68-75 | `outData` has one entry per VFAT: 0 when masked, the register's value otherwise |
| Optohybrid.BroadcastValuesStep | src/optohybrid.cpp:68-75 | each pass appends one VFAT's entry |
| Optohybrid.BroadcastDataAllRead | src/optohybrid.cpp:68-75 | when every read succeeds the data are exactly the registers' values |
| Optohybrid.FailedReadFlagged | src/optohybrid.cpp:72-73 | a failed read leaves `0xdeaddead` in its entry and the "error" string is set |
| Optohybrid.BroadcastRead | src/optohybrid.cpp:56-77 | `broadcastReadLocal` on release 1 or 3 returns one entry per VFAT, 0 when masked and the register's value or `0xdeaddead` otherwise, with the error flag set exactly when an unmasked entry is `0xdeaddead`; nothing is written |
| Optohybrid.BroadcastDataSnoc | src/optohybrid.cpp:68-75 | one more read appends its entry to `outData` |
| Optohybrid.ReadsOkSnoc | src/optohybrid.cpp:68-75 | one more read, successful or not, keeps the reads so far consistent |
| Optohybrid.FlaggedSnoc | src/optohybrid.cpp:73 | the error flag after one more entry is set exactly when it was set or that unmasked entry is `0xdeaddead` |
| Optohybrid.SetMode | src/optohybrid.cpp:101-131 | release 3 broadcasts CFG_RUN, release 1 broadcasts ContReg0, another release does nothing |
| Optohybrid.SetAllVFATsToRunMode | src/optohybrid.cpp:101-115 | run mode: CFG_RUN = 1 on release 3, ContReg0 = 0x37 on release 1 |
| Optohybrid.SetAllVFATsToSleepMode | src/optohybrid.cpp:117-131 | sleep mode: CFG_RUN = 0 on release 3, ContReg0 = 0x36 on release 1 |
| Optohybrid.ConfPlan | src/optohybrid.cpp:259-270 | the configuration is seven writes |
| Optohybrid.MaskOrChip | src/optohybrid.cpp:260-265 | ultra mode writes CONF.MASK with the mask and otherwise CONF.CHIP with the VFAT number, never both |
| Optohybrid.ConfigureScanModule | src/optohybrid.cpp:228-273 | while MONITOR.STATUS is not 0 nothing is written; otherwise the module is reset and the seven configuration writes are made |
| Optohybrid.StartScanModule | src/optohybrid.cpp:372-406 | nothing is written while MONITOR.STATUS or then MONITOR.ERROR is not 0; otherwise START = 1 is the only write |
| Optohybrid.StartReadBack | src/optohybrid.cpp:397-403 | the scan counts as started exactly when MONITOR.ERROR reads 0 and MONITOR.STATUS reads non-zero; nothing is written |
| Optohybrid.ChanNamesAt | src/optohybrid.cpp:508-515 | the channels touched are `ch_min` up to the loop bound, cut at 128 on release 1 |
| Optohybrid.Trim | src/optohybrid.cpp:512 | `0x3f & value` is at most 0x3f |
| Optohybrid.TrimBits | src/optohybrid.cpp:512 | the trim keeps bits 0 to 5 of the channel register and clears the others, the pulse bit 6 among them |
| Optohybrid.TrimWritesBounded | src/optohybrid.cpp:512-513 | every value written back fits the 6-bit trim field and goes to the register it was read from |
| Optohybrid.TrimFoldSnoc | src/optohybrid.cpp:512-513 | trimming one more register reads it after the earlier writes and writes its trimmed value back |
| Optohybrid.ZeroPlan | src/optohybrid.cpp:520-522 | release 3 writes 0 to each channel's CALPULSE_ENABLE, in order |
| Optohybrid.StoppedSnoc | src/optohybrid.cpp:506-523 | handling one more channel register extends the stopped set |
| Optohybrid.ChanLoopEndlessAsWritten | src/optohybrid.cpp:508 | as written, with `ch_max = 0xFFFFFFFF` the `uint32_t` guard `chan <= ch_max` holds after any number of increments, so the loop never ends |
| Optohybrid.StopCalPulse2AllChannels | src/optohybrid.cpp:500-529 | every unmasked VFAT's channels `ch_min..ch_max` are stopped once each: release 1 trims channels up to 127, release 3 clears CALPULSE_ENABLE, another release writes nothing |
| Optohybrid.StopAll | src/optohybrid.cpp:506-523 | the VFAT loop stops the channels of exactly the unmasked VFATs, in order |
| Optohybrid.StopVfat | src/optohybrid.cpp:508-515 | the channel loop of one unmasked VFAT |
| Optohybrid.ChanNamesSnoc | src/optohybrid.cpp:509-514 | one more channel adds its register, except a channel above 127 on release 1 |
| Optohybrid.StopChannel | src/optohybrid.cpp:509-521 | one channel: above 127 on release 1 only logged, otherwise trimmed (release 1) or cleared (release 3) |
| Optohybrid.TrimChannel | src/optohybrid.cpp:512-513 | a v2b channel register is read and written back trimmed |
| Optohybrid.ClearChannel | src/optohybrid.cpp:521 | a v3 channel's CALPULSE_ENABLE is written with 0 |
| Vfat3.GoodFlags | src/vfat3.cpp:102-107 | one flag per VFAT of the link |
| Vfat3.GoodVfatsBits | src/vfat3.cpp:99-123 | bit `v` of `goodVFATs` is set exactly when `v` is one of the VFATs, its LINK_GOOD is not 0 and its SYNC_ERR_CNT is 0; no other bit is set |
| Vfat3.GoodVfatsStep | src/vfat3.cpp:106 | one more VFAT or-s in its bit exactly when it is good |
| Vfat3.VfatSyncCheck | src/vfat3.cpp:99-123 | `vfatSyncCheck` returns the good-VFAT mask read in VFAT order; an unsynced VFAT is only logged; nothing is written |
| Vfat3.LinkStatus | src/vfat3.cpp:104-106 | the two reads of one VFAT say whether it is good |
| Vfat3.RequireSynced | src/vfat3.cpp:129-138 | succeeds only when every unmasked VFAT is good, else a `runtime_error` |
| Vfat3.SyncedMeansGood | src/vfat3.cpp:129-138 | after that check every unmasked VFAT's bit of `goodVFATs` is set |
| Vfat3.Cfg4Fields | src/vfat3.cpp:154 | `(vref << 8) + (gain << 7) + dacSelect` with a 1-bit gain and a 7-bit selection gives each field back |
| Vfat3.Cfg4SelectionOverflows | src/vfat3.cpp:154 | a selection of 0x80 is not checked and reads as a set gain bit |
| Vfat3.Cfg4Targets | src/vfat3.cpp:148-157 | `CFG_4` is written on exactly the unmasked VFATs, in order, each with its own reference voltage and gain |
| Vfat3.ConfigureVFAT3DACMonitor | src/vfat3.cpp:125-160 | an unsynced unmasked VFAT is a `runtime_error` with nothing written; otherwise the two broadcast reads, then the `CFG_4` writes |
| Vfat3.WriteCfg4 | src/vfat3.cpp:148-157 | the loop performs the `CFG_4` plan |
| Vfat3.WriteCfg4One | src/vfat3.cpp:149-156 | one VFAT position extends the performed plan |
| Vfat3.ChannelWords | src/vfat3.cpp:259-270 | one word per channel register |
| Vfat3.Zeros | src/vfat3.cpp:239-245 | a masked VFAT's 128 entries are 0 |
| Vfat3.UsedIff | src/vfat3.cpp:234-239 | with at most 24 VFATs a VFAT is used exactly when its mask bit is clear |
| Vfat3.ChannelTable | src/vfat3.cpp:236-271 | the result has 128 entries per VFAT |
| Vfat3.ChannelTableAt | src/vfat3.cpp:236-271 | entry `vfatN*128 + chan` is that channel's register word for a used VFAT and 0 for a masked one |
| Vfat3.GetChannelRegistersVFAT3 | src/vfat3.cpp:230-274 | each used VFAT must be good by its sync check, else a `runtime_error`; a success returns the channel table and writes nothing |
| Vfat3.ChannelTableStep | src/vfat3.cpp:238-271 | one more VFAT appends its 128 words, or 128 zeros when masked |
| Vfat3.ReadVfat | src/vfat3.cpp:239-270 | one VFAT: zeros when masked, else the sync check and its 128 channel words |
| Vfat3.ReadChannels | src/vfat3.cpp:259-270 | the 128 `getAddress` + `readRawAddress` reads of one VFAT |
| Vfat3.SetPlanSnoc | src/vfat3.cpp:323-350 | a VFAT that was written adds its block to the writes, a skipped one adds nothing |
| Vfat3.TurnsSnoc | src/vfat3.cpp:323-350 | one more VFAT turn extends the record of turns |
| Vfat3.SetSoFarSnoc | src/vfat3.cpp:323-350 | a run of VFAT turns extended by one more turn |
| Vfat3.SimpleBlock | src/vfat3.cpp:342-349 | channel `chan` of VFAT `vfatN` gets `chanRegData[vfatN*128 + chan]` |
| Vfat3.SimpleBlocks | src/vfat3.cpp:323-350 | one block of writes per VFAT |
| Vfat3.SimpleReadsBack | src/vfat3.cpp:342-349 | after a VFAT's turn wrote it, its channels read back the data given for it, so the setter and `getChannelRegistersVFAT3` agree |
| Vfat3.SetChannelRegistersVFAT3Simple | src/vfat3.cpp:311-353 | data of the wrong size is a `runtime_error` with nothing written; then each used VFAT found good gets its 128 words and masked or unsynced VFATs are skipped |
| Vfat3.SimpleTurn | src/vfat3.cpp:324-349 | one VFAT's turn: skipped when masked or unsynced, else its 128 raw writes |
| Vfat3.Unpack | src/vfat3.cpp:422-424 | the fields of a channel word fit their widths |
| Vfat3.ChannelWordValue | src/vfat3.cpp:422-424 | with every field in range the word is a 16-bit value laid out field by field |
| Vfat3.UnpackPack | src/vfat3.cpp:422-424 | unpacking a packed channel register gives back its settings |
| Vfat3.PackUnpack | src/vfat3.cpp:422-424 | every 16-bit register is the packing of its own fields |
| Vfat3.ChannelFlagsOverlap | src/vfat3.cpp:422-424 | the flags are not range-checked: a mask value of 2 sets the calibration bit |
| Vfat3.InRangeChannels | src/vfat3.cpp:396-418 | the channels kept are below the bound |
| Vfat3.InRangeChannelsMembers | src/vfat3.cpp:402-418 | the channels written are exactly those whose trimARM and trimZCC are at most 0x3F, each once, in ascending order |
| Vfat3.ChannelPlanAt | src/vfat3.cpp:396-427 | the j-th write goes to the j-th channel in range with the packing of that channel's settings |
| Vfat3.FullBlocks | src/vfat3.cpp:376-428 | one block of writes per VFAT |
| Vfat3.SetChannelRegistersVFAT3 | src/vfat3.cpp:355-431 | a `calEnable` of the wrong size is a `runtime_error` with nothing written; then each used VFAT found good has its in-range channels written packed; other VFATs are skipped |
| Vfat3.FullTurn | src/vfat3.cpp:377-427 | one VFAT's turn; a written VFAT had all 128 channel addresses looked up |
| Vfat3.WriteChannels | src/vfat3.cpp:396-427 | the channel loop of one VFAT performs its channel plan |
| Vfat3.ChannelStep | src/vfat3.cpp:397-426 | one channel: its address is looked up, and its packed word written when its trims are in range |
| Vfat3.ChipIDs | src/vfat3.cpp:495-526 | one entry per VFAT position |
| Vfat3.ChipIDsEntries | src/vfat3.cpp:495-526 | a masked VFAT's entry is `0xdeaddead`; a used one's is its raw ID when `rawID` is set or decoding fails, else the decoded 16-bit ID |
| Vfat3.GetVFAT3ChipIDs | src/vfat3.cpp:481-529 | an unsynced unmasked VFAT is a `runtime_error` before any chip ID is read; a success returns the chip-ID entries; nothing is written |
| Vfat3.ChipStep | src/vfat3.cpp:496-525 | one VFAT position's entry |
| Vfat3.ChipIDsSnoc | src/vfat3.cpp:495-526 | each pass appends one VFAT's entry |
| Calibration.ClusterSize | src/calibration_routines.cpp:627 | `(cluster >> 12) & 0x7` is bits 14:12 of the cluster word |
| Calibration.SbitAddress | src/calibration_routines.cpp:628 | `cluster & 0x7ff` is bits 10:0 of the cluster word |
| Calibration.ClusterWordFields | src/calibration_routines.cpp:626-638 | the result word holds, as its documentation says, the channel pulsed in bits 7:0, the s-bit observed in 15:8, the VFAT pulsed in 20:16, the VFAT observed in 25:21, the validity in bit 26 and the cluster size in 29:27, each given back exactly |
| Calibration.ClusterFields | src/calibration_routines.cpp:633-638 | six fields of 8, 8, 5, 5, 1 and 3 bits packed at bits 0, 8, 16, 21, 26 and 27 are recovered from their sum |
| Calibration.PadBlockInjective | src/calibration_routines.cpp:630 | different 64-pad blocks give different observed VFATs |
| Calibration.ObservedVfatBijective | src/calibration_routines.cpp:629-630 | for the 1536 valid addresses the observed VFAT `7 - addr/192 + ((addr%192)/64)*8` is in 0..23 and equal for two addresses exactly when they lie in the same 64-pad block |
| Calibration.ObservedVfatOnto | src/calibration_routines.cpp:630 | every VFAT 0..23 is observed for some valid address |
| Calibration.DacSelection | src/calibration_routines.cpp:875-881 | the selection is accepted exactly when it is a key of the DAC table, giving its register, minimum 0 and maximum 0x3, 0x3f or 0xff; otherwise a `runtime_error` |
| Calibration.DacWordFields | src/calibration_routines.cpp:978 | the DAC-scan word holds, as documented, the DAC value in bits 7:0, the ADC value in 17:8, the VFAT in 22:18 and the link in 26:23, each given back |
| Calibration.DacSteps | src/calibration_routines.cpp:951 | the DAC loop visits at least one value |
| Calibration.DacIndexLayout | src/calibration_routines.cpp:951-980 | with the intended row-major layout every (VFAT, visited DAC value) pair has its own index below `VFATS_PER_OH * steps`, which gives the pair back |
| Calibration.DacIndexAgrees | src/calibration_routines.cpp:930-977 | when `dacStep` divides `dacMax - dacMin + 1` the size and index as written are the intended ones |
| Calibration.DacScanOverrunsAsWritten | src/calibration_routines.cpp:930-977 | as written, scanning 0..0xff in steps of 3 sizes the vector 2040 words, asks for index 2047, and gives VFAT 0 at 255 and VFAT 1 at 0 the same index |
| Calibration.VfatBitValue | src/calibration_routines.cpp:317-324 | `1 << n` is 2^n, below 2^24, for the 24 positions |
| Calibration.SingleVfatMaskValue | src/calibration_routines.cpp:317-324 | the mask of VFAT n alone is `0xffffff - 2^n` |
| Calibration.SingleVfatMaskSelects | src/calibration_routines.cpp:317-324 | exactly VFAT n is used under the mask of VFAT n alone |
| Calibration.MaskTableIsSingleVfatMasks | src/calibration_routines.cpp:317-324 | the table holds exactly the 24 single-VFAT masks, each mapped to its own VFAT |
| Calibration.MaskLookup | src/calibration_routines.cpp:317-324 | a key of the table is the single-VFAT mask of its entry, and each single-VFAT mask is a key with its VFAT as entry |
| Calibration.VfatOfMask | src/calibration_routines.cpp:326-336 | exactly the 24 single-VFAT masks are accepted, each giving its VFAT, or 23 minus it with `invertVFATPos`; any other mask is a `runtime_error` |
| CalibrationRuns.UsedPlanMembers | src/calibration_routines.cpp:77-96 | a write is made for the VFAT loop exactly when it belongs to the block of a VFAT n < VFATS_PER_OH whose `notmask` bit is set |
| CalibrationRuns.WriteUsed | src/calibration_routines.cpp:77-96 | the `writeReg` calls of every used VFAT in VFAT order, masked VFATs skipped, stopping at the first that throws; only mapped words change |
| CalibrationRuns.UsedTurn | src/calibration_routines.cpp:78-95 | VFAT v's turn writes its block when its `notmask` bit is set and nothing otherwise |
| CalibrationRuns.CalBranchAsWritten | src/calibration_routines.cpp:56-66 | as written every channel of 128 or more is rejected and the disable-all branch is never taken |
| CalibrationRuns.CalBranchCorrected | src/calibration_routines.cpp:56-76 | with the guards the messages describe, a channel below 128 is pulsed one by one as written, channel 128 with `toggleOn` false disables all, and anything else is rejected |
| CalibrationRuns.CalMode | src/calibration_routines.cpp:80-94 | the mode left is CURRENT exactly for an enabled current pulse, VOLTAGE for an enabled voltage pulse and DISABLED when switched off |
| CalibrationRuns.CalBlock | src/calibration_routines.cpp:80-94 | a used VFAT gets CALPULSE_ENABLE of channel ch set to 1 or 0, then CFG_CAL_MODE, and for an enabled current pulse also CFG_CAL_FS and a zero CFG_CAL_DUR, in that order |
| CalibrationRuns.DisableBlock | src/calibration_routines.cpp:70-73 | the disable-all block clears CALPULSE_ENABLE of the 128 channels in order, then sets CFG_CAL_MODE to DISABLED |
| CalibrationRuns.ConfCalPulseAsWritten | src/calibration_routines.cpp:47-100 | a channel of 128 or more throws with nothing written; otherwise each used VFAT gets its block for channel ch and masked VFATs nothing |
| CalibrationRuns.ConfCalPulse | src/calibration_routines.cpp:47-100 | with the corrected guards, channel 128 with `toggleOn` false writes the disable-all block to every used VFAT, channels below 128 behave as written, and the rest throw with nothing written |
| CalibrationRuns.ChanMaskValue | src/calibration_routines.cpp:28-31 | the value written is 0 exactly for channel ch and 1 for every other channel |
| CalibrationRuns.SingleChanPlan | src/calibration_routines.cpp:27-36 | 128 mask writes, channel by channel from 0 to 127 |
| CalibrationRuns.SavedWordsRestrict | src/calibration_routines.cpp:34 | the saved map has exactly the 128 mask addresses as keys, each holding the memory's word there |
| CalibrationRuns.FullMasksSaveWords | src/calibration_routines.cpp:34-43 | when every `.MASK` node is unmasked the saved `readReg` values are the whole words, so the as-written save is what a restore needs |
| CalibrationRuns.RawRestore | src/calibration_routines.cpp:22-45 | writing the saved words back over the raw mask writes gives the memory before them |
| CalibrationRuns.MaskedRestore | src/calibration_routines.cpp:22-45 | writing the saved words back over the masked mask writes gives the memory before them |
| CalibrationRuns.SetSingleChanMaskAsWritten | src/calibration_routines.cpp:22-38 | as written: the 128 raw writes of 0 for channel ch and 1 for the others; with distinct mask addresses, the returned map holds each node's `readReg` field under its address; when the 128 nodes are bit-14 fields at distinct mapped addresses, every channel of the VFAT reads as unmasked afterwards |
| CalibrationRuns.FieldSaveAdvance | src/calibration_routines.cpp:32-35 | one channel as written adds its raw write to those made and its field to the saved map |
| CalibrationRuns.SetSingleChanMask | src/calibration_routines.cpp:22-38 | as intended: the 128 mask fields set through `writeReg`, and, with distinct mask addresses, the returned map holding each mask address's whole word before the writes |
| CalibrationRuns.WordSaveAdvance | src/calibration_routines.cpp:32-35 | one channel of the corrected save adds its write to those made and its old whole word to the saved map |
| CalibrationRuns.ApplyChanMask | src/calibration_routines.cpp:40-45 | every entry of the map is written back raw, each address exactly once, in some order; the memory afterwards is the old one overlaid with the map |
| CalibrationRuns.ApplyAdvance | src/calibration_routines.cpp:42-44 | one more entry written back keeps the overlay and the order of writes |
| CalibrationRuns.Bit14Field | src/calibration_routines.cpp:32 | the `.MASK` field of a channel register, mask `0x4000`, is bit 14 of the word |
| CalibrationRuns.SmallWordUnmasked | src/calibration_routines.cpp:28-35 | the 0 or 1 written raw has its mask field clear |
| CalibrationRuns.ChanMasksSet | src/calibration_routines.cpp:22-38 | after the corrected writes channel ch reads as unmasked and every other channel of the VFAT as masked |
| CalibrationRuns.AsWrittenMasksNothing | src/calibration_routines.cpp:22-38 | the raw writes as written leave every channel of the VFAT unmasked, channel ch and the other 127 alike |
| CalibrationRuns.SavedFieldsAt | src/calibration_routines.cpp:34 | each mask address of the channels done is saved with its node's field |
| CalibrationRuns.RestoreMasksExact | src/calibration_routines.cpp:22-45 | writing back the corrected save puts every channel register of the VFAT back as it was, whatever the scan wrote in between |
| CalibrationRuns.AsWrittenRestoreUnmasks | src/calibration_routines.cpp:22-45 | writing back the save as written leaves every channel of the VFAT unmasked, whatever its mask was before |
| CalibrationRuns.GenScanGuard | src/calibration_routines.cpp:157-170 | the scan goes on only when every unmasked VFAT is synced and not a current pulse with a scale factor above 3; the second is always an error; nothing is written |
| CalibrationRuns.DaqMonAddresses | src/calibration_routines.cpp:186-192 | the lookup succeeds exactly when the L1A counter and the good-event counters of all VFATs are named, giving their addresses in VFAT order; otherwise a not-found error |
| CalibrationRuns.ScanReadout | src/calibration_routines.cpp:244-263 | one word per VFAT in VFAT order: the good-event counter of a used VFAT, 0 for a masked one |
| CalibrationRuns.DacValues | src/calibration_routines.cpp:207 | the values the DAC loop is evidently meant to visit: the k-th is dacMin + k*dacStep, none is above dacMax, and the next one would be |
| CalibrationRuns.DacLoopWrapsAsWritten | src/calibration_routines.cpp:207 | with a 32-bit counter and dacMax = 0xFFFFFFFF the counter after k steps is `(dacMin + k*dacStep) mod 2^32`, always within the guard, so the loop never ends |
| CalibrationRuns.DacCounterNoWrap | src/calibration_routines.cpp:207 | when dacMax + dacStep < 2^32 the 32-bit counter never wraps: after k steps it is dacMin + k*dacStep, the k-th intended value, and after the last of them it is above dacMax, so the loop stops there |
| CalibrationRuns.DacLoopWrapExample | src/calibration_routines.cpp:207 | dacMin 5, dacMax 10, dacStep 0xFFFFFFFF: the 32-bit counter goes 5, 4, 3, 2, 1, 0 and then 0xFFFFFFFF, so the loop visits six values where the intended list is [5] |
| CalibrationRuns.DacMonConfPlan | src/calibration_routines.cpp:102-113 | stop, reset and select the link, then the global OR for a channel above 127, or the channel and a cleared global OR otherwise |
| CalibrationRuns.DacMonConf | src/calibration_routines.cpp:102-113 | the writes of `dacMonConf` in order, stopping at the first that throws |
| CalibrationRuns.TrigConf | src/calibration_routines.cpp:194-204 | with external triggers L1As blocked and the counters reset, otherwise the generator's L1A count and a resync; then `dacMonConf` |
| CalibrationRuns.StepConfigure | src/calibration_routines.cpp:208-216 | the scan register of each used VFAT set to the DAC value, then the monitor reset and enabled |
| CalibrationRuns.StepTrigger | src/calibration_routines.cpp:218-241 | the trigger writes of one step for external or generated triggers, then the monitor stopped |
| CalibrationRuns.StepWrites | src/calibration_routines.cpp:208-241 | all writes of one DAC step in order |
| CalibrationRuns.GenStep | src/calibration_routines.cpp:207-263 | one step's writes join those made, then one word per VFAT is read from the memory they leave |
| CalibrationRuns.ScanStep | src/calibration_routines.cpp:207-264 | one DAC step appends its read-out, taken from the memory after its writes, to the output |
| CalibrationRuns.DacValuesAdvance | src/calibration_routines.cpp:207 | the values visited so far grow by the current one |
| CalibrationRuns.DacValuesDone | src/calibration_routines.cpp:207 | once past dacMax the loop has visited every value |
| CalibrationRuns.ScanSteps | src/calibration_routines.cpp:207-264 | the DAC loop, stepping its 32-bit counter, visits exactly the intended DAC values when dacMax + dacStep < 2^32, makes every step's writes in order and emits VFATS_PER_OH words per DAC value, each from the memory of its own step |
| CalibrationRuns.ReadoutScanValue | src/calibration_routines.cpp:207-251 | at the read-out of step k a used VFAT's scan register holds that step's DAC value, cut to the register's width |
| CalibrationRuns.MaskedScanUntouched | src/calibration_routines.cpp:208-212 | a masked VFAT's scan register is as the loop found it at every read-out |
| CalibrationRuns.CalPulseStep | src/calibration_routines.cpp:172-184 | `confCalPulse` is called only when the calibration pulse is asked for |
| CalibrationRuns.GenSetUp | src/calibration_routines.cpp:172-204 | the pulse switched on, the counter addresses looked up, the TTC set up and `dacMonConf`, in that order |
| CalibrationRuns.GenScanRun | src/calibration_routines.cpp:172-280 | after the checks, for dacMax + dacStep < 2^32: set-up, DAC loop and pulse switched off, the output laid out step by step |
| CalibrationRuns.GenScan | src/calibration_routines.cpp:138-281 | for dacMax + dacStep < 2^32, a scan that passes the checks makes the set-up writes, every DAC step's writes and the final pulse-off writes in order, and returns VFATS_PER_OH words per DAC value, 0 for each masked VFAT and otherwise the counter read after that step; a bad scale factor is an error with nothing written |
| CalibrationRuns.RatePlanLast | src/calibration_routines.cpp:364-368 | after any number of loop writes the scan register holds the last DAC value and nothing else has changed |
| CalibrationRuns.RateStep | src/calibration_routines.cpp:365-367 | one pass writes the scan register and records the trigger rate read from the memory that write leaves |
| CalibrationRuns.RateLoop | src/calibration_routines.cpp:364-368 | the output has exactly the DAC values visited as keys, each holding the trigger-rate word read after that value was written |
| CalibrationRuns.RatePrepare | src/calibration_routines.cpp:353-361 | the trigger-rate and VFAT mask addresses are looked up, the mask word is saved and overwritten with vfatMask, and slow-control-only mode is cleared |
| CalibrationRuns.RateRun | src/calibration_routines.cpp:353-377 | the set-up, the loop on its 32-bit counter and the restores in order, with the output of the loop |
| CalibrationRuns.SbitRateScan | src/calibration_routines.cpp:304-378 | a mask outside the table throws with nothing written; otherwise the selected VFAT must be synced; `setSingleChanMask` as written, on link `ohN mod 256` since it takes a `uint8_t`, makes its raw writes and saves the `.MASK` fields, while the sync check, the rate and the VFAT mask word use the full `ohN`; the output maps each DAC value to its trigger rate; the saved fields and the VFAT mask word are written back; when ch is not 128 and the channel nodes are bit-14 fields at distinct addresses, every channel is unmasked after the set-up and stays so after the restore, except one sharing the VFAT mask word |
| CalibrationRuns.SbitRateScanKeepsVfatMask | src/calibration_routines.cpp:355-375 | after the scan as written the trigger VFAT mask word is back as before, when ch is 128 or no channel register of link `ohN mod 256` shares its word |
| CalibrationRuns.SbitRateScanUnmasksChannels | src/calibration_routines.cpp:370-375 | writing back the saved bit-14 fields raw and then the VFAT mask word leaves every channel of the VFAT unmasked, except one at the VFAT mask word's address |
| CalibrationRuns.SavedFieldsSmall | src/calibration_routines.cpp:32-34 | the `.MASK` fields `setSingleChanMask` saves from bit-14 nodes are each 0 or 1 |
| DacScans.AdcSourceOf | src/calibration_routines.cpp:904-924 | the `_CACHED` register is used exactly when it exists, and then `_UPDATE` must exist too; otherwise the plain ADC0 or ADC1 register must exist; a missing name is a not-found error |
| DacScans.LastCachedUniform | src/calibration_routines.cpp:899-925 | when all unmasked VFATs have the same kind of ADC register, the final `foundADCCached` is that kind |
| DacScans.AdcSources | src/calibration_routines.cpp:897-925 | the lookup succeeds exactly when every unmasked VFAT's source is found, giving each VFAT's source and the flag the last unmasked VFAT leaves |
| DacScans.AdcAverage | src/calibration_routines.cpp:963-974 | the average of 100 reads of one word, with the `uint32_t` sum wrapping, is at most the word |
| DacScans.AdcAverageExact | src/calibration_routines.cpp:963-974 | for a word below 42949673, which includes every 10-bit ADC value, the sum does not wrap and the average is the word |
| DacScans.WrapStep | src/calibration_routines.cpp:971 | one more read added to a wrapped sum gives the wrapped sum of one more read |
| DacScans.AverageRead | src/calibration_routines.cpp:964-974 | the 100 reads, each after a read of the VFAT's refresh address when the shared `foundADCCached` flag is set (0 for a VFAT with only the plain register), give the average of the ADC word |
| DacScans.SourcesOf | src/calibration_routines.cpp:897-925 | the sources the lookup leaves, one per VFAT |
| DacScans.Cell | src/calibration_routines.cpp:930-931 | a (row, column) pair has its own cell below `rows * steps`, which gives the pair back |
| DacScans.CellOf | src/calibration_routines.cpp:930-931 | every index below `rows * steps` is the cell of its quotient and remainder |
| DacScans.AsWrittenIndex | src/calibration_routines.cpp:956 | the index is `vfatN*(dacMax-dacMin+1)/dacStep + (dacVal-dacMin)/dacStep` as written, and in the ranges of the DAC table the 32-bit product does not wrap |
| DacScans.DacAtW | src/calibration_routines.cpp:951 | the k-th DAC value the loop visits, between dacMin and dacMax |
| DacScans.DacBlocks | src/calibration_routines.cpp:961-962 | the DAC register of each VFAT set to the current DAC value |
| DacScans.CellStore | src/calibration_routines.cpp:952-980 | for a used VFAT the DAC register is written and the ADC averaged; the word goes to the index as written, and an index past the vector is an error, `.at` throwing |
| DacScans.AgreesAt | src/calibration_routines.cpp:930-977 | when the step divides the range the index as written is the cell of row VFAT and column step in a vector of `VFATS_PER_OH * steps` words |
| DacScans.OverrunUnlessDivisible | src/calibration_routines.cpp:930-977 | when the step does not divide the range, the last VFAT's index at the last DAC value is past the vector |
| DacScans.OverrunArith | src/calibration_routines.cpp:956 | the as-written start of the last row is never before the intended one |
| DacScans.ColumnAdvance | src/calibration_routines.cpp:952-980 | storing one VFAT's entry at its cell of the current column extends the column and leaves the other columns alone |
| DacScans.FillColumn | src/calibration_routines.cpp:952-981 | one DAC value over all VFATs makes the column's writes; when the step divides the range each word lands in its cell of that column and the other columns are unchanged |
| DacScans.ColumnKept | src/calibration_routines.cpp:951-982 | filling one column leaves every other filled column as it was |
| DacScans.ColumnsAdvance | src/calibration_routines.cpp:951-982 | filling the next column extends the filled columns by one |
| DacScans.DacStepsExit | src/calibration_routines.cpp:951 | the k-th DAC value is within range exactly for the first `DacSteps` values of k |
| DacScans.FillStep | src/calibration_routines.cpp:951-982 | one pass of the DAC loop fills its column and extends the writes; at the last pass the step must divide the range |
| DacScans.FillScan | src/calibration_routines.cpp:930-982 | the loop completes only when the step divides the range, and then every column is filled and the writes are the loop's plan |
| DacScans.EveryCellFilled | src/calibration_routines.cpp:930-982 | after the loop every word of the vector is the entry of its VFAT at its DAC value, read from the memory at that point, so no word is left unwritten |
| DacScans.DacRegisterAtRead | src/calibration_routines.cpp:961-972 | when a used VFAT's ADC is read its DAC register holds the current DAC value cut to the register's width |
| DacScans.DacQuiesce | src/calibration_routines.cpp:933-935 | L1As blocked, then CFG_RUN 0 broadcast to the unmasked VFATs |
| DacScans.DacArm | src/calibration_routines.cpp:937-942 | the DAC monitor configured, slow-control-only mode cleared, then CFG_RUN 1 broadcast |
| DacScans.DacSetUp | src/calibration_routines.cpp:933-942 | the set-up writes in order, stopping at the first that throws |
| DacScans.DacScanRun | src/calibration_routines.cpp:930-985 | after the checks: set-up, the DAC loop over the vector as written, and the VFATs out of run mode |
| DacScans.DacScan | src/calibration_routines.cpp:869-988 | an unknown DAC selection throws with nothing written; a scan that returns had a known selection, every unmasked VFAT synced and every source found, a step dividing the range, and a vector of `VFATS_PER_OH * steps` words each the packed entry of its VFAT at its DAC value |
| ParallelScans.RateRow | src/calibration_routines.cpp:420-428 | one link's rate addresses: its VFAT s-bit counters in VFAT order, then its trigger rate in slot VFATS_PER_OH |
| ParallelScans.RateRows | src/calibration_routines.cpp:420-430 | a row of addresses for each selected link and none for the others |
| ParallelScans.RateAddresses | src/calibration_routines.cpp:422-429 | one link's lookups succeed exactly when all its names exist, giving its row; otherwise a not-found error |
| ParallelScans.AllRateAddresses | src/calibration_routines.cpp:420-430 | the lookups succeed exactly when every selected link's names exist, giving the rows |
| ParallelScans.LinkWords | src/calibration_routines.cpp:478-488 | one link's words at one DAC value: the s-bit counter of each used VFAT, 0 for each masked one, then the trigger rate |
| ParallelScans.ParallelWordsLength | src/calibration_routines.cpp:477-489 | each selected link contributes VFATS_PER_OH + 1 words, so a row has 25 words per selected link |
| ParallelScans.LinkReadout | src/calibration_routines.cpp:478-488 | one link's words are read from the current memory, nothing written |
| ParallelScans.ParallelReadout | src/calibration_routines.cpp:476-489 | the row at one DAC value is the readout of the selected links in link order, nothing written |
| ParallelScans.MaxRegAsWritten | src/calibration_routines.cpp:497 | the restore writes the saved TIME_MAX to `SBIT_CNT_MAX`, which is not the register it was read from |
| ParallelScans.MaxRegIsNotTimeMax | src/calibration_routines.cpp:441-497 | as written the restore's target differs from the saved register |
| ParallelScans.TimeMaxValue | src/calibration_routines.cpp:445 | `0x02638e98*waitTime` modulo 2^32, which is exactly 40079000 bunch crossings per second up to 107 seconds |
| ParallelScans.SaveSbitCounters | src/calibration_routines.cpp:439-445 | PERSIST and TIME_MAX are read and returned, then PERSIST set to 0 and TIME_MAX to the window |
| ParallelScans.RestoreSbitCountersAsWritten | src/calibration_routines.cpp:495-497 | as written, PERSIST and then `SBIT_CNT_MAX` are written; a missing `SBIT_CNT_MAX` throws |
| ParallelScans.RestoreSbitCounters | src/calibration_routines.cpp:495-497 | as intended, PERSIST and TIME_MAX get their saved values |
| ParallelScans.FieldBack | src/calibration_routines.cpp:440-497 | a field written with the value read from it reads that value back |
| ParallelScans.CounterRoundTrip | src/calibration_routines.cpp:439-497 | the corrected restore puts PERSIST and TIME_MAX back as they were saved, whatever the scan left |
| ParallelScans.AsWrittenTimeMaxKept | src/calibration_routines.cpp:439-497 | as written, when `SBIT_CNT_MAX` is a register of its own, TIME_MAX keeps the window the set-up wrote instead of its saved value |
| ParallelScans.LinkMasks | src/calibration_routines.cpp:397-402 | the VFAT mask of each selected link, 0 for the others |
| ParallelScans.SaveAllSbitCounters | src/calibration_routines.cpp:435-447 | the saved map has exactly the selected links as keys, each with its saved settings, and the set-up writes are made link by link |
| ParallelScans.SaveTurn | src/calibration_routines.cpp:437-446 | a selected link's settings saved and set up, an unselected link untouched |
| ParallelScans.RestoreAllSbitCountersAsWritten | src/calibration_routines.cpp:492-499 | the as-written restore writes of every selected link in link order |
| ParallelScans.RestoreTurn | src/calibration_routines.cpp:493-498 | one link of the as-written restore |
| ParallelScans.ScanPrepare | src/calibration_routines.cpp:432-447 | slow-control-only mode cleared, then the counters saved and set up; the saved map covers exactly the selected links |
| ParallelScans.ScanRestore | src/calibration_routines.cpp:492-499 | the as-written restore writes follow those already made |
| ParallelScans.ParallelRun | src/calibration_routines.cpp:432-499 | the set-up, the DAC loop with its rows read after each step, and the counter restore as written, in order |
| ParallelScans.ChanBlocks | src/calibration_routines.cpp:410-414 | the raw writes `setSingleChanMask` as written makes for each used VFAT of a link |
| ParallelScans.ChanLinksPlanPrefix | src/calibration_routines.cpp:400-417 | the writes before link k depend only on the VFAT masks of the links before it |
| ParallelScans.ChanKeys | src/calibration_routines.cpp:398-414 | the VFATs before a given one that get a single-channel mask |
| ParallelScans.ChansSavedAdd | src/calibration_routines.cpp:413 | a VFAT's saved channel masks are added without disturbing those saved before |
| ParallelScans.ChansSavedSkip | src/calibration_routines.cpp:411-412 | a masked VFAT saves nothing |
| ParallelScans.ChansSavedNone | src/calibration_routines.cpp:400-407 | a link not selected, or channel 128, saves nothing |
| ParallelScans.SetSingleChanMaskAfter | src/calibration_routines.cpp:413 | `setSingleChanMask` as written after earlier raw writes adds its 128 raw writes to them and, with distinct mask addresses, saves the `.MASK` fields of the memory those writes left |
| ParallelScans.SaveChanMask | src/calibration_routines.cpp:413 | one used VFAT's raw mask writes are made as written and its saved `.MASK` fields recorded |
| ParallelScans.ChanMaskVfat | src/calibration_routines.cpp:410-414 | one VFAT of the first loop: `setSingleChanMask` as written when used, nothing when masked |
| ParallelScans.ChanMaskVfats | src/calibration_routines.cpp:407-415 | every used VFAT of a selected link gets the raw mask writes of `setSingleChanMask` as written, in VFAT order, its saved fields recorded |
| ParallelScans.ChanPrefixEnds | src/calibration_routines.cpp:410-414 | the writes of a link start after those of the links before and end with its own |
| ParallelScans.ChanPrefixStep | src/calibration_routines.cpp:413 | a used VFAT adds its mask writes |
| ParallelScans.ChanPrefixSkip | src/calibration_routines.cpp:411-412 | a masked VFAT adds none |
| ParallelScans.MaskTaken | src/calibration_routines.cpp:401-402 | a selected link's VFAT mask is read from the memory the earlier links left, an unselected one is 0 |
| ParallelScans.ChanLinksPlanSkip | src/calibration_routines.cpp:401-407 | a link not selected, or channel 128, makes no mask writes |
| ParallelScans.LinkMaskRead | src/calibration_routines.cpp:401-402 | `getOHVFATMask` of a selected link, 0 for the others |
| ParallelScans.ChanMaskTurn | src/calibration_routines.cpp:400-417 | one link of the first loop: its VFAT mask, then unless channel 128 the raw mask writes of its used VFATs |
| ParallelScans.ChanMaskLinks | src/calibration_routines.cpp:397-417 | the first loop reads each selected link's VFAT mask and, unless channel 128, makes the raw writes of `setSingleChanMask` as written on its used VFATs and saves their `.MASK` fields; with channel 128 every mask is read from the starting memory |
| ParallelScans.AllChannelsMasks | src/calibration_routines.cpp:400-417 | with channel 128 the first loop writes nothing and reads every selected link's mask from the memory it starts with |
| ParallelScans.CfgLinkBlocks | src/calibration_routines.cpp:459-463 | the scan register of each VFAT of a link set to the DAC value |
| ParallelScans.ParPlanSnoc | src/calibration_routines.cpp:449-473 | the writes up to one more DAC value are those before it followed by its own |
| ParallelScans.ParReadAdd | src/calibration_routines.cpp:477-489 | a new DAC value's row joins the rows read before, each keyed by its DAC value |
| ParallelScans.ParCfgWrites | src/calibration_routines.cpp:455-465 | the scan registers of the used VFATs of every selected link, link by link |
| ParallelScans.ParResets | src/calibration_routines.cpp:468-472 | the counter reset of every selected link, link by link |
| ParallelScans.ResetTurn | src/calibration_routines.cpp:469-471 | one selected link's counter reset, nothing for an unselected one |
| ParallelScans.ParWrites | src/calibration_routines.cpp:455-472 | one pass's writes follow those of the values done |
| ParallelScans.ParStepDone | src/calibration_routines.cpp:455-472 | the scan-register and reset writes at a DAC value extend the loop's writes by that value |
| ParallelScans.ParStep | src/calibration_routines.cpp:449-490 | one pass: its writes, then the row read from the memory they leave |
| ParallelScans.ParallelScan | src/calibration_routines.cpp:449-490 | the DAC loop makes each value's writes in order and keys each row, read after those writes, by its DAC value |
| ParallelScans.SavedOr | src/calibration_routines.cpp:398 | a channel-mask map never set is empty |
| ParallelScans.RestoreLinkChans | src/calibration_routines.cpp:505-510 | each used VFAT of a link gets its saved channel words written back |
| ParallelScans.RestoreChanMasks | src/calibration_routines.cpp:501-513 | unless channel 128 every selected link's used VFATs get their saved fields written back raw; when those were saved as written from bit-14 nodes, every channel of those VFATs is left unmasked; with channel 128 nothing is written |
| ParallelScans.ParallelUnmasksChannels | src/calibration_routines.cpp:501-513 | writing back fields saved as written from bit-14 nodes leaves every channel of every scanned VFAT unmasked, whatever memory it starts from |
| ParallelScans.ChansSavedSmall | src/calibration_routines.cpp:413 | every field the first loop saves from bit-14 nodes is 0 or 1 |
| ParallelScans.ChanSavedCovers | src/calibration_routines.cpp:413 | the saved map of a VFAT has an entry for each of its 128 channel addresses |
| ParallelScans.RestoreChansSmall | src/calibration_routines.cpp:503-512 | the restore loop leaves 0 or 1 at every address it writes and at every address that already held one |
| ParallelScans.LookUpAndScan | src/calibration_routines.cpp:419-499 | the rate addresses are looked up, then the set-up, the DAC loop and the counter restore as written, the rows keyed by DAC value |
| ParallelScans.ScanAcceptedLinks | src/calibration_routines.cpp:395-499 | the first loop with `setSingleChanMask` as written, the lookups, the scan and the counter restore as written, in order, with what the channel restore needs |
| ParallelScans.SbitRateScanParallel | src/calibration_routines.cpp:380-516 | more than 12 links throws with nothing written; otherwise the raw mask writes of `setSingleChanMask` as written, every step's writes in order, each DAC value keyed to a row of 25 words per selected link read after its writes, the counters restored as written and the saved fields written back, so that with bit-14 channel nodes every channel of the scanned VFATs ends up unmasked |
| Monitoring.SysmonField | src/daq_monitor.cpp:351 | a system-monitor reading `(raw >> 6) & 0x3ff` is at most 0x3ff |
| Monitoring.SysmonFieldBits | src/daq_monitor.cpp:351 | the reading is the 10-bit field of the raw word that starts at bit 6 |
| Monitoring.MaskedByte | src/daq_monitor.cpp:209-212 | a byte masked in place is that byte times its weight |
| Monitoring.ShiftedByteLow | src/daq_monitor.cpp:209-211 | each masked byte, shifted as written, lands at bit 24 or above |
| Monitoring.FwVerAsWrittenLowBit | src/daq_monitor.cpp:208-212 | no bit below 24 is set in the version word as written |
| Monitoring.FwVerAsWrittenLowZero | src/daq_monitor.cpp:208-212 | as written, the low 24 bits of the version word are always zero |
| Monitoring.FwVersion | src/daq_monitor.cpp:208-212 | the intended version word holds the bytes of the release register in the opposite order, and swapping them again gives the register back |
| Monitoring.FwVerAsWrittenDiffers | src/daq_monitor.cpp:208-212 | whenever the register has a non-zero byte above the lowest, the word as written is not the byte swap |
| Monitoring.DigitRun | src/daq_monitor.cpp:192 | the decimal digits a key starts with end where a non-digit begins |
| Monitoring.DecSplit | src/daq_monitor.cpp:192 | a link number followed by a tail starting with a dot is read back from the key: both are determined by it |
| Monitoring.KeysApart | src/daq_monitor.cpp:192-229 | keys `OH<n>` plus a tail are equal only for the same link and the same tail |
| Monitoring.LinkValues | src/daq_monitor.cpp:28-34 | the map the reads fill has exactly the probes' keys |
| Monitoring.LinkValuesAt | src/daq_monitor.cpp:28-34 | with distinct keys every key holds its own register's word |
| Monitoring.Placeholders | src/daq_monitor.cpp:193-203 | a masked link's keys all hold 0xdeaddead |
| Monitoring.ReadProbe | src/daq_monitor.cpp:207-219 | one key's read: `readReg`, or `readRawReg` for the release register, nothing written |
| Monitoring.ProbesSnoc | src/daq_monitor.cpp:222-229 | one more read adds its key with the word read |
| Monitoring.ReadProbes | src/daq_monitor.cpp:222-229 | the reads in order fill the map; the first failure is thrown |
| Monitoring.BlockTailsDiffer | src/daq_monitor.cpp:162-176 | the keys of a numbered block, such as `GBT<n>` or `VFAT<n>` with their tails, differ for different entries |
| Monitoring.LinkProbes | src/daq_monitor.cpp:192-229 | one read per key tail of the link, in order |
| Monitoring.ProbeKeysDistinct | src/daq_monitor.cpp:192-229 | the keys of one link are pairwise distinct |
| Monitoring.OtherLink | src/daq_monitor.cpp:191-230 | no key of one link belongs to another link |
| Monitoring.KeysOfCount | src/daq_monitor.cpp:192-229 | reads with distinct keys fill as many keys as there are reads |
| Monitoring.MonitoredAt | src/daq_monitor.cpp:191-230 | a link's entries survive the later links |
| Monitoring.UnionAt | src/daq_monitor.cpp:191-230 | a key that no later link fills keeps its value in the merged map |
| Monitoring.MonitoredIsUnion | src/daq_monitor.cpp:191-230 | the read-out's map is the merge of the links' maps |
| Monitoring.NotInOtherLink | src/daq_monitor.cpp:191-230 | a link's entries leave out every other link's keys |
| Monitoring.MonitoredValue | src/daq_monitor.cpp:191-230 | a read link's key holds its register's value, decoded; a masked link's key holds 0xdeaddead |
| Monitoring.KeySpanHas | src/daq_monitor.cpp:191-230 | a key is in the span exactly when it is a visited link's number and one of its tails |
| Monitoring.MonitoredKeys | src/daq_monitor.cpp:191-230 | the map's keys are exactly the keys of the visited links |
| Monitoring.Visited | src/daq_monitor.cpp:51-54 | the number of links visited is at most n, and n when every link is visited or masked links get placeholders |
| Monitoring.SpanBelow | src/daq_monitor.cpp:191-230 | a link's keys are not among those of the links below it |
| Monitoring.KeySpanCount | src/daq_monitor.cpp:191-230 | the span has one key per tail of each visited link |
| Monitoring.MonitoredCount | src/daq_monitor.cpp:191-230 | the map holds one entry per key tail of every visited link |
| Monitoring.MonitoredSingle | src/daq_monitor.cpp:385-389 | a read-out over every link with one key tail has one entry per link |
| Monitoring.LinksStep | src/daq_monitor.cpp:191-230 | one more link adds its entries to the map |
| Monitoring.MonitorLink | src/daq_monitor.cpp:192-229 | a masked link gives placeholders or nothing; a read link runs `fw_version_check` when asked, then its reads in order |
| Monitoring.MonitorLinks | src/daq_monitor.cpp:191-230 | the loop over links 0 to supOH - 1 builds the read-out's map and writes nothing |
| Monitoring.GetmonLinks | src/daq_monitor.cpp:185-233 | `NUM_OF_OH` is read, then the loop over the links below it |
| Monitoring.StepMem | src/daq_monitor.cpp:340-354 | a step keeps the memory's addresses: a write changes its register's field only |
| Monitoring.RunMem | src/daq_monitor.cpp:334-354 | the steps one after another keep the memory's addresses |
| Monitoring.RunPrefix | src/daq_monitor.cpp:334-354 | one more step changes the memory, the reads and the writes as that step does |
| Monitoring.DoStep | src/daq_monitor.cpp:340-351 | a `writeReg` changes its field and is logged; a read returns the word and writes nothing |
| Monitoring.RunSteps | src/daq_monitor.cpp:334-354 | the steps in order, stopping at the first that throws, leave the memory, reads and writes the step function gives |
| Monitoring.RunValuesKeys | src/daq_monitor.cpp:343-351 | the map of a run that writes has one key per read |
| Monitoring.RunValuesAt | src/daq_monitor.cpp:343-351 | with distinct keys a read's key holds the word read on the memory the steps before it left |
| DaqMonitor.LayoutOf | src/daq_monitor.cpp:62-428 | each per-link read-out's key prefix, tails, registers and decodings |
| DaqMonitor.FieldsSound | src/daq_monitor.cpp:62-428 | every read-out's key tails start with a dot and are pairwise distinct, so no two keys collide |
| DaqMonitor.LayoutSound | src/daq_monitor.cpp:62-428 | every read-out's layout is well formed |
| DaqMonitor.GetmonValue | src/daq_monitor.cpp:62-297 | key i of link oh holds its register decoded when the link is read, and 0xdeaddead when it is masked |
| DaqMonitor.GetmonKeys | src/daq_monitor.cpp:62-297 | the keys are exactly the key tails of the links visited |
| DaqMonitor.GetmonCount | src/daq_monitor.cpp:62-297 | one entry per key tail of each link visited, which is every link below NUM_OF_OH for the read-outs with placeholders or no mask |
| DaqMonitor.NotReadyApart | src/daq_monitor.cpp:383-389 | with the intended keys no link counter of getmonSCA sits under a status key |
| DaqMonitor.NotReadyCount | src/daq_monitor.cpp:385-389 | with the intended keys getmonSCA has one counter per link |
| DaqMonitor.NotReadyKeys | src/daq_monitor.cpp:383-389 | one counter per link and none under a status key |
| DaqMonitor.RunMonitor | src/daq_monitor.cpp:64-96 | `NUM_OF_OH` is read, then the read-out's loop; nothing is written |
| DaqMonitor.GetmonTriggerOh | src/daq_monitor.cpp:62-97 | the eight trigger-link counters of every link below NUM_OF_OH, 0xdeaddead for a masked one |
| DaqMonitor.GetmonDaqOh | src/daq_monitor.cpp:118-149 | the six DAQ status flags of every link below NUM_OF_OH, 0xdeaddead for a masked one |
| DaqMonitor.GetmonOh | src/daq_monitor.cpp:183-233 | the firmware version and eight counters of every link; each read link runs `fw_version_check`, and on v3 firmware its version comes from the release register |
| DaqMonitor.OhVersionAsWritten | src/daq_monitor.cpp:206-217 | as written, on v3 firmware every read link's version word has its low 24 bits zero |
| DaqMonitor.VersionProbeLow | src/daq_monitor.cpp:207-212 | a version read has its low 24 bits zero |
| DaqMonitor.MaybeResetLinks | src/daq_monitor.cpp:153-155 | LINK_RESET is written with 1 exactly when doReset is set |
| DaqMonitor.GetmonGbtLink | src/daq_monitor.cpp:151-181 | after the optional link reset, the four status flags of each GBT of every link below NUM_OF_OH, whatever the mask |
| DaqMonitor.GetmonVfatLink | src/daq_monitor.cpp:394-428 | after the optional link reset, the three counters of each VFAT of every link below NUM_OF_OH |
| DaqMonitor.GetmonTrigger | src/daq_monitor.cpp:39-60 | `NUM_OF_OH` first, then the summed trigger rate, then the rate of each selected link below NUM_OF_OH |
| DaqMonitor.TriggerMap | src/daq_monitor.cpp:46-58 | the summed rate is never overwritten by a link's key, and there is one entry per selected link besides it |
| DaqMonitor.MonitoringOffMask | src/daq_monitor.cpp:240 | `(~ohMask) & 0x3ff` is at most 0x3ff and has bit i set for the ten links exactly when link i is not selected |
| DaqMonitor.GetmonOhSca | src/daq_monitor.cpp:235-297 | when MONITORING_OFF exists its field is saved and set to `(~ohMask) & 0x3ff`, the SCA values of every link are read with placeholders for masked links, and the saved field is written back; otherwise nothing is written |
| DaqMonitor.SysmonAdcBound | src/daq_monitor.cpp:356-371 | on v2B firmware the three sensors of every link are present, each selected link's at most 0x3ff and equal to `(readReg(...) >> 6) & 0x3ff` |
| DaqMonitor.GetmonSysmon | src/daq_monitor.cpp:299-375 | `NUM_OF_OH`, then `fw_version_check`; v3 firmware runs the system-monitor steps on every link, v2B firmware reads the three sensors of each selected link and writes nothing |
| DaqMain.DaqDistinct | src/daq_monitor.cpp:103-113 | the eleven DAQ keys are pairwise distinct |
| DaqMain.FixedMap | src/daq_monitor.cpp:28-34 | a fixed read-out with distinct keys has one entry per key, each holding its register |
| DaqMain.GetmonTtc | src/daq_monitor.cpp:24-37 | the five TTC registers read into the map; nothing written |
| DaqMain.GetmonDaq | src/daq_monitor.cpp:99-116 | the eleven DAQ registers read into the map; nothing written |
| DaqMain.TtcMap | src/daq_monitor.cpp:28-36 | the TTC map has five entries, each holding its register |
| DaqMain.DaqMap | src/daq_monitor.cpp:101-115 | the DAQ map has eleven entries, each holding its register |
| DaqMain.GetmonScaAsWritten | src/daq_monitor.cpp:377-392 | as written: `NUM_OF_OH`, the two status registers, and the one counter key read from the one register |
| DaqMain.ScaAsWrittenLoses | src/daq_monitor.cpp:385-389 | as written the map never holds more than three entries, so with two or more links the per-link counters are lost |
| DaqMain.GetmonSca | src/daq_monitor.cpp:377-392 | as intended: the two status entries and link i's counter under its own key from its own register |
| DaqMain.ScaMap | src/daq_monitor.cpp:383-389 | as intended the map holds the two status entries and one counter per link |
| SysmonV3.V3Sound | src/daq_monitor.cpp:324-355 | key i of link oh is `OH<oh>` and tail i, read from the link's ADC control block, alarms as plain fields and sensors as `(x >> 6) & 0x3ff` |
| SysmonV3.Script | src/daq_monitor.cpp:334-354 | a selected link's steps: an optional reset, six alarm reads, ENABLE=1, then ADR_IN and a read for each of three sensors, then ENABLE=0 |
| SysmonV3.ScriptShape | src/daq_monitor.cpp:343-354 | the reads are the nine of the layout, each sensor read right after the ADR_IN write that selects it, and the steps end with ENABLE=0 |
| SysmonV3.ScriptReads | src/daq_monitor.cpp:343-351 | every read of the steps is one of the layout's, at its place |
| SysmonV3.ScriptKeys | src/daq_monitor.cpp:343-351 | the steps fill exactly the link's nine keys |
| SysmonV3.SysmonRun | src/daq_monitor.cpp:324-355 | the links below n one after another keep the memory's addresses |
| SysmonV3.SysmonRunNext | src/daq_monitor.cpp:324-355 | one more link adds its entries to the map |
| SysmonV3.SysmonKeys | src/daq_monitor.cpp:324-355 | the map holds nine keys per link of the loop and no others |
| SysmonV3.SysmonAt | src/daq_monitor.cpp:324-355 | a link's entries survive the later links |
| SysmonV3.SysmonMasked | src/daq_monitor.cpp:326-331 | a masked link's nine keys hold 0xdeaddead |
| SysmonV3.SysmonRead | src/daq_monitor.cpp:343-352 | a selected link's key holds its register read after the steps before it, a sensor right after its ADR_IN write |
| SysmonV3.SysmonDisables | src/daq_monitor.cpp:354 | a selected link that ran to the end leaves its ADC disabled |
| SysmonV3.SysmonOkBelow | src/daq_monitor.cpp:324-355 | once a step fails the loop stays failed |
| SysmonV3.SysmonLinks | src/daq_monitor.cpp:324-355 | the loop over the links below supOH, stopping at the first register that throws, leaves the memory, map and writes of `SysmonRun` |
| Ctp7Dump.Untab | src/daq_monitor.cpp:447 | tabs become spaces and every other character is kept |
| Ctp7Dump.NonEmpty | src/daq_monitor.cpp:452-455 | the tokens kept are the non-empty ones, in order |
| Ctp7Dump.KeptNext | src/daq_monitor.cpp:456-460 | a word is kept exactly when it is the first or the third |
| Ctp7Dump.DumpFields | src/daq_monitor.cpp:448-461 | the tokenising loop keeps the first and third non-empty words of the line |
| Ctp7Dump.DumpEntry | src/daq_monitor.cpp:462 | a line gives its first and third words exactly when it has three, and `out_of_range` otherwise |
| Ctp7Dump.DumpNext | src/daq_monitor.cpp:445-463 | one more line sets its key to its register's value |
| Ctp7Dump.GetmonCtp7Dump | src/daq_monitor.cpp:430-466 | a missing file is an error; otherwise the lines in order, each key set to its register, stopping at a short line with `out_of_range` or at a register that throws |
| Ctp7Dump.DumpKeys | src/daq_monitor.cpp:441-463 | the keys are exactly the first words of the lines |
| Ctp7Dump.DumpLastWins | src/daq_monitor.cpp:462 | a key holds the register of the last line that names it |
| Ctp7Dump.JoinWithout | src/daq_monitor.cpp:452 | a character absent from the words and other than the blank is absent from their join |
| Ctp7Dump.DumpLineRoundTrip | src/daq_monitor.cpp:446-462 | a line of four blank-separated words, in the format of the dump, gives its first word as key and its third as register |
| DaqMonitor.LayoutsUniform | src/daq_monitor.cpp:62-428 | every read-out's layout is well shaped and its key prefix and tails are the same whatever the firmware version |
| DaqMonitor.MonitoringOffBits | src/daq_monitor.cpp:240 | bit i of `(~x) & 0x3ff` is set exactly when bit i of x is clear, for the ten links |
| DaqMain.TtcDistinct | src/daq_monitor.cpp:30-34 | the five TTC keys are pairwise distinct |
| Ttc.LockCount | src/amc/ttc.cpp:556-571 | the lock count of a check is at most its number of attempts |
| Ttc.LockCountExtremes | src/amc/ttc.cpp:556-571 | the count equals the attempts exactly when every reset locked, and is 0 exactly when none did |
| Ttc.PllResets | src/amc/ttc.cpp:560-561 | a check of n attempts writes PA_MANUAL_PLL_RESET = 1 exactly n times |
| Ttc.RelockAttempt | src/amc/ttc.cpp:561-569 | one attempt writes the PLL reset after the writes before it; a failure is an access error |
| Ttc.CheckPllLock | src/amc/ttc.cpp:552-572 | checkPLLLock returns the number of attempts after which PHASE_LOCKED read non-zero, having written the reset once per attempt |
| Ttc.ControlWrites | src/amc/ttc.cpp:40-53 | the twelve control registers of the set-up, with their values |
| Ttc.WriteVerified | src/amc/ttc.cpp:55-70 | each control register is written and read back; on success every read-back held its value, and a mismatch throws at the first register whose read-back differs, after writing exactly the registers up to it |
| Ttc.ReadBackIff | src/amc/ttc.cpp:57-69 | a read-back fails exactly when the register is not readable or the written value does not fit the register's field |
| Ttc.ShiftAt | src/amc/ttc.cpp:112-532 | a shift that breaks the loop has found the best lock and is never part of a scan |
| Ttc.RunFrom | src/amc/ttc.cpp:112-533 | the loop runs at most maxShift shifts, all of them in a scan, and stops early only with the best lock |
| Ttc.RunKeepsRange | src/amc/ttc.cpp:116-163 | the GTH count stays in 0..39 and the MMCM count in 0..0xffff for the whole search |
| Ttc.PllSearchLocks | src/amc/ttc.cpp:315-383 | with the branch as its comment intends, in PLL mode without `relock` or a scan, once every sample is locked the search stops with the best lock exactly 75 - good shifts later |
| Ttc.WriteTurn | src/amc/ttc.cpp:346-361 | a change of direction writes PA_MANUAL_SHIFT_DIR and the opposite PA_GTH_MANUAL_SHIFT_DIR |
| Ttc.WriteTurns | src/amc/ttc.cpp:338-381 | the direction writes of a shift, in order |
| Ttc.ShiftLead | src/amc/ttc.cpp:113-137 | a shift begins with CNT_RESET = 1 and PA_GTH_MANUAL_SHIFT_EN = 1 |
| Ttc.CountReads | src/amc/ttc.cpp:136-165 | the shift-count reads write nothing; a failure is an access error |
| Ttc.StatusReads | src/amc/ttc.cpp:177-182 | the phase and BC0 reads write nothing; a failure is an access error |
| Ttc.LockCheckAfter | src/amc/ttc.cpp:176 | the lock check inside a shift returns its lock count and adds its PLL resets to the writes |
| Ttc.LockSample | src/amc/ttc.cpp:176-182 | the lock check then the status reads: the lock count, and only the PLL resets written |
| Ttc.ShiftOnce | src/amc/ttc.cpp:112-532 | one shift's outcome is the search step's, and its writes are the counter reset, the GTH shift, the PLL resets and the direction writes |
| Ttc.Advance | src/amc/ttc.cpp:112-533 | a shift either ends the search in the state it reaches, or leaves the rest of the search to the following shifts |
| Ttc.PhaseSearch | src/amc/ttc.cpp:112-533 | the main loop returns the search's end state and writes exactly the search's writes |
| Ttc.SearchLoop | src/amc/ttc.cpp:112-533 | the loop of n shifts reaches the search's end state with its writes |
| Ttc.PhaseShiftSetUp | src/amc/ttc.cpp:39-91 | the control registers are written and read back, DISABLE_PHASE_ALIGNMENT = 0 throws, and the search starts from the two shift counts read |
| Ttc.SearchAndReset | src/amc/ttc.cpp:92-547 | the lock check, the search, then MMCM_RESET = 1 exactly when the search found the best lock, and "Unable to find lock" otherwise |
| Ttc.TtcMmcmPhaseShift | src/amc/ttc.cpp:29-550 | ttcMMCMPhaseShift succeeds exactly when the search as written finds the best lock, writing the set-up, the search's writes and MMCM_RESET; its errors are a read-back mismatch, phase alignment off, no lock, or an access error |
| Ttc.PllNoRelockNeverLocksAsWritten | src/amc/ttc.cpp:315-383 | as written, PLL mode without `relock` never finds the best lock, whatever the samples |
| Ttc.PllNoRelockThrowsAsWritten | src/amc/ttc.cpp:315-547 | as written, ttcMMCMPhaseShift in PLL mode without `relock` always ends in "Unable to find lock" |
| Ttc.PllNoRelockLocks | src/amc/ttc.cpp:315-383 | with the branch as intended, the same call with every sample locked finds the best lock after 75 shifts |
| Ttc.CounterRegs | src/amc/ttc.cpp:699-719 | the ten command counters |
| Ttc.CounterOf | src/amc/ttc.cpp:697-727 | commands 1 to 10 select the ten counters in order, every other the L1A counter |
| Ttc.GetTtcCounter | src/amc/ttc.cpp:697-727 | getTTCCounter returns the selected counter's value; the default case first reads all ten; nothing is written |
| Ttc.TtcMmcmReset | src/amc/ttc.cpp:24-27 | ttcMMCMReset writes MMCM_RESET = 1 and nothing else |
| Ttc.TtcCounterReset | src/amc/ttc.cpp:641-644 | ttcCounterReset writes CNT_RESET = 1 and nothing else |
| Ttc.SetL1AEnable | src/amc/ttc.cpp:651-654 | setL1AEnable writes L1A_ENABLE = 1 or 0 and nothing else |
| Ttc.GetL1AEnable | src/amc/ttc.cpp:646-649 | getL1AEnable is whether L1A_ENABLE reads non-zero |
| Ttc.L1AEnableRoundTrip | src/amc/ttc.cpp:646-654 | getL1AEnable after setL1AEnable(enable) gives enable back |
| Ttc.GetTtcErrorCount | src/amc/ttc.cpp:688-694 | the single-error counter when `single`, the double-error counter otherwise |
| Ttc.GetTtcStatus | src/amc/ttc.cpp:675-686 | getTTCStatus returns BC0.LOCKED |
| TtcSearch.GthNext | src/amc/ttc.cpp:116-134 | the GTH count wraps 39 to 0 forward and 0 to 39 back, and stays in 0..39 |
| TtcSearch.MmcmNext | src/amc/ttc.cpp:153-163 | the MMCM count wraps 0xffff to 0 forward and 0 to 0xffff back, and stays in 0..0xffff |
| TtcSearch.GthInverse | src/amc/ttc.cpp:116-134 | in range, a GTH step back undoes a step forward and the other way round |
| TtcSearch.MmcmInverse | src/amc/ttc.cpp:153-163 | in range, an MMCM step back undoes a step forward and the other way round |
| TtcSearch.TableIndexInRange | src/amc/ttc.cpp:100-152 | the table index `gthShiftCnt + 1` stays inside the 41-entry shift table |
| TtcSearch.Start | src/amc/ttc.cpp:90-110 | the search starts from the two counts read, with no lock found and not reversing |
| TtcSearch.Shifted | src/amc/ttc.cpp:116-163 | a shift moves the GTH count, moves the MMCM count exactly where the table says so, and changes nothing else |
| TtcSearch.Reverse | src/amc/ttc.cpp:222-265 | the turn-back search keeps the counters and the unlock flags, and breaks only with the best lock outside a scan |
| TtcSearch.Finish | src/amc/ttc.cpp:296-313 | after the first unlock, the search ends with the best lock, stopping unless scanning |
| TtcSearch.Bc0Step | src/amc/ttc.cpp:198-314 | the BC0 branch keeps the counters and breaks only with the best lock outside a scan |
| TtcSearch.PllStepAsWritten | src/amc/ttc.cpp:315-431 | the PLL branch as written keeps the counters and breaks only with the best lock outside a scan |
| TtcSearch.PllStep | src/amc/ttc.cpp:315-431 | the PLL branch as intended keeps the counters and breaks only with the best lock outside a scan |
| TtcSearch.Tally | src/amc/ttc.cpp:524-532 | the net shift count goes one up, or one down while reversing, and the lock flags are kept |
| TtcSearch.PllBranch | src/amc/ttc.cpp:315-431 | either PLL branch breaks only with the best lock outside a scan |
| TtcSearch.Step | src/amc/ttc.cpp:112-532 | an iteration keeps the shifted counters and breaks only with the best lock outside a scan |
| TtcSearch.StepKeepsRange | src/amc/ttc.cpp:116-163 | the counters stay in their ranges from one iteration to the next |
| TtcSearch.Bc0BeforeUnlock | src/amc/ttc.cpp:199-207 | before the first unlock, an unlocked BC0 sample adds a bad lock and clears the good run; a locked one clears the bad run and adds a good lock |
| TtcSearch.Bc0SampleClearsBest | src/amc/ttc.cpp:199-266 | before the first unlock, a BC0 shift keeps the best lock only when it breaks without `relock` |
| TtcSearch.PllAsWrittenNoRelockStalls | src/amc/ttc.cpp:316-383 | as written, without `relock` a PLL shift never reaches the first unlock, never keeps a best lock, never turns and never breaks |
| TtcSearch.PllAsWrittenUnlockIsLock | src/amc/ttc.cpp:384-410 | as written, after the first unlock an unlocked sample is taken as the next lock, and a locked one changes nothing |
| TtcSearch.PllTurnsBack | src/amc/ttc.cpp:351-361 | as intended, without `relock` the fiftieth locked sample turns the scan back |
| TtcSearch.LockedPllStep | src/amc/ttc.cpp:315-383 | as intended, without `relock` or a scan a locked sample adds a good lock, turning back at the fiftieth and stopping with the best lock at the seventy-fifth |
| TtcSearch.PllNextLockOnLock | src/amc/ttc.cpp:384-410 | as intended, after the first unlock a sample is the next lock exactly when it is locked |
| TtcSearch.PllLikeBc0 | src/amc/ttc.cpp:315-325 | as intended, with `relock` and before the first unlock the PLL branch counts good and bad locks as the BC0 branch does |

## Left out

- The address table's storage is not modelled: the LMDB database, `getenv`, XML loading
  (`update_address_table`, `readRegFromDB`) and `regExists`. The table is a map given to
  `Registers.Hardware`; only the `|`-separated record format is kept.
- The RPC layer is not modelled: the callbacks, `GETLOCALARGS`, the non-`Local`
  wrappers and `readRemoteReg`/`writeRemoteReg`. These only unpack and pack messages.
  The `localArgs` versions of `readReg`/`writeReg` are modelled with the same
  `Registers.Hardware` methods as `utils::readReg`/`utils::writeReg`.
- Logging, `initLogging` and `stdsprintf` messages are not modelled; they change no
  register.
- The cross-process lock around the memory service is not modelled. Each transport
  call is taken as atomic.
- Sleeps and the wall clock are not modelled.
  - Amc.Acquire: the `acquireTime` window of `sbitReadOut` (src/amc.cpp:114-157) is
    replaced by a number of rounds given as a parameter.
- Unbounded hardware polling loops are not modelled, because their ends depend on time:
  - the GTH re-shift loop of `ttcMMCMPhaseShift` (src/amc/ttc.cpp:139-150);
  - the trigger waits of `genScan` (src/calibration_routines.cpp:224-227, 233-237);
  - the v2b broadcast wait of `broadcastWriteLocal` (src/optohybrid.cpp:24-28);
  - the scan-status wait of `getUltraScanResultsLocal`.
  The model goes on as if each wait had ended at once.
- Text.ParseHex gives a value only for a non-empty string of hexadecimal digits, the form
  `serialize` writes with `std::hex` (src/utils.cpp:16-36). `stoull` is more lenient: it
  skips leading whitespace, accepts a sign and a `0x` prefix, and stops at the first
  non-digit ("1g" gives 1). It also throws above 2^64 - 1. The model does not cover
  these cases, because the address table is a map and only `serialize` output is parsed.
- DacScans.AverageRead refreshes a cached ADC by reading the VFAT's own `update` address,
  which is 0 for a VFAT that has only the plain ADC0/ADC1 register.
- DacScans.DacScan keeps `foundADCCached` as one flag, set by the last unmasked VFAT, as
  the source does (src/calibration_routines.cpp:899-925). Suppose the last unmasked VFAT
  has `_CACHED` but an earlier one has only the plain register. The source then reads
  `adcCacheUpdateAddr[vfatN]` for that earlier VFAT (964-968), which was never set; this
  is undefined behaviour. The model reads address 0 there. In the reverse case, where the
  last unmasked VFAT is plain, cached registers are read without a refresh, in the model
  as in the source.
- Blaster.WriteConfRegion, Blaster.WriteConfRAM and Blaster.WriteConfRAMAsWritten take
  `!blob.data()` (src/amc/blaster_ram.cpp:275) to hold exactly for an empty blob. C++ does
  not specify whether an empty vector's `data()` is null. The finding that `ALL` always
  fails depends on this choice when a RAM size is 0, because the slice is then empty.
- Status registers are not modelled as changing on their own. `Registers.Hardware.mem`
  is a memory that only the program writes; only the TTC search takes its firmware
  readings (`Ttc.Readings`) from an oracle indexed by call. As a consequence:
  - a scan's read-outs come from the memory after that step's writes (`mems[k]`), so
    counters that the firmware alone changes read the same at every step;
  - `Amc.Acquire` reads the same eight clusters in every round;
  - the 100 reads that `dacScan` averages return one value;
  - the checks of `Gbt.ScanGBTPhases` cannot differ between resets.
- Floating point is not modelled: the TTC phase means and medians
  (src/amc/ttc.cpp:575-639), `phaseNs`, the `ceil` of `checkSbitMappingWithCalPulse` and
  the `/1000.` of `checkSbitRateWithCalPulse`.
- Loops whose step is 0 never end in the source; the model requires a step above 0:
  - CalibrationRuns.GenScan, CalibrationRuns.SbitRateScan,
    ParallelScans.SbitRateScanParallel and DacScans.DacScan require `dacStep > 0`;
  - `dacScan` also divides by `dacStep` (src/calibration_routines.cpp:929);
  - Gbt.ScanGBTPhases requires `phaseStep > 0` (src/gbt.cpp:49).
- CalibrationRuns.GenScan requires `dacMax + dacStep < 2^32`. The source steps the DAC
  value in `uint32_t` (src/calibration_routines.cpp:207). Without that bound the counter
  wraps. With dacMax = 0xFFFFFFFF the loop never ends, and otherwise it can revisit lower
  values: dacMin 5, dacMax 10 and dacStep 0xFFFFFFFF visit 5, 4, 3, 2, 1, 0. Such scans
  are stated only by CalibrationRuns.DacLoopWrapsAsWritten and DacLoopWrapExample.
- CalibrationRuns.GenScanRun requires `dacMax + dacStep < 2^32`, for the same reason as
  GenScan.
- CalibrationRuns.ScanSteps requires `dacMax + dacStep < 2^32`. It is the DAC loop itself.
  Up to that bound, CalibrationRuns.DacCounterNoWrap shows the 32-bit counter visits the
  intended values.
- Registers.BitCheck takes `bit` as a `nat`, while src/utils.cpp:123 takes an `int`.
  A negative bit, which makes the source's shift undefined, is not modelled.
- The `dacMax < 0x1_0000 && dacStep < 0x1_0000` preconditions are not a restriction.
  They restate the `uint16_t` parameters of `sbitRateScan`, `sbitRateScanParallel` and
  `dacScan` (src/calibration_routines.cpp:307-309, 381-383, 871).
- CalibrationRuns.SbitRateScan requires `ohN < 0x1_0000`, the `uint16_t` parameter of
  src/calibration_routines.cpp:304. The channel masks are then those of link `ohN mod 256`,
  as `setSingleChanMask` takes a `uint8_t` link (src/calibration_routines.cpp:22, 351).
- Blaster.WriteConfRAM and Blaster.WriteConfRAMAsWritten require `SizesFit` for `ALL`:
  the three RAM sizes must add up below 2^32. The source adds them in `uint32_t`, and
  a wrapped sum is not modelled.
- Blaster.WriteRegionRAM requires `LinksFit`: the selected links' blocks, popcount(mask)
  blocks of the per-link size, must fit within the blob. The source does not check this
  (src/amc/blaster_ram.cpp:327-412) and reads past the end of a shorter vector, which is
  undefined behaviour.
- Amc.GetOHVFATMaskMultiLink returns its list for every NUM_OF_OH:
  - when NUM_OF_OH reads 256 or more the source's logging loop (src/amc.cpp:90) never
    ends, because its `uint8_t` counter wraps to 0 before reaching it;
  - for links from 32 on, `ohMask >> ohN` (src/amc.cpp:79) is undefined; the model takes
    their bit as clear and gives them 0xffffff.
- Blaster.ReadRegionRAM requires `LinksFit`: the selected links' blocks must fit the
  buffer. The source writes them into a vector sized by the RAM, and writing past it is
  undefined behaviour.
- Sca.ScaADCCommand and Sca.AdcSends require `ch < 32`. The source shifts `0x1 << ch`
  (src/amc/sca.cpp:134), which is undefined for larger channels.
- Vfat3.SetChannelRegistersVFAT3 requires `OthersCover`: the five vectors besides
  `calEnable` must have an entry for every channel. The source indexes them without a
  bounds check.
- Optohybrid.BroadcastRead stops with `BadVersion` when the release register is not 1
  or 3, or cannot be read. There, the source goes on with an uninitialised register
  base.
- ParallelScans.RestoreChanMasks states the channel-mask memory it leaves exactly. Its
  log is stated only as extending the earlier log, not write by write.
- The chip-ID decoder `decodeChipID` (an external Reed–Muller library) is a function
  parameter of the chip-ID read-out.
- Not modelled, from src/amc/sca.cpp: `readSCAChipIDLocal`, `readSCASEUCounterLocal`,
  `resetSCASEUCounterLocal` and `scaHardResetEnableLocal`. Each is one
  `scaCTRLCommand` with a fixed command code, or one `writeReg`; Sca.ScaCTRLCommand
  covers the command.
- Not modelled, from src/optohybrid.cpp:
  - `biasAllVFATsLocal`, a broadcast write per entry of a parameter table that is not
    part of this model;
  - `loadVT1Local`, `loadTRIMDACLocal` and `configureVFATs`, which are config-file
    readers;
  - `printScanConfigurationLocal` and `statusOHLocal`, which read registers only to log
    them;
  - `getUltraScanResultsLocal`, a polling loop with floating point.
- Not modelled, from src/vfat3.cpp:
  - `configureVFAT3s`, a config-file reader;
  - `statusVFAT3s`, the same read repeated for a fixed list of registers;
  - `readVFAT3ADC`, two broadcast reads with a sleep between them;
  - `readVFAT3ADCMultiLink` and `configureVFAT3DACMonitorMultiLink`, which repeat
    modelled operations over links.
- Not modelled, from src/calibration_routines.cpp:
  - `ttcGenToggle` and `ttcGenConf`, plain register writes;
  - `genChannelScan`, `genScan` once per channel;
  - `dacScanMultiLink`, `dacScan` once per link;
  - `checkSbitRateWithCalPulse`, which is timing and floating point;
  - the pulse loop of `checkSbitMappingWithCalPulse`, whose cluster decode is modelled
    in Calibration.
- Not modelled, from src/amc/ttc.cpp:
  - `ttcModuleReset`, one register write;
  - `getL1AID` and `getL1ARate`, one register read each;
  - `getTTCConfig`, `setTTCConfig` and `getTTCSpyBuffer`, which only return 0 or do
    nothing.
- `getmonVFATLink`'s out-of-sync flag is not modelled. It only selects a log message.

## Findings

| source | as written | input that shows it | evidently intended | confidence | as-written member | corrected member |
|---|---|---|---|---|---|---|
| include/ctp7_modules/server/utils.h:123-138 | `overflowTest` checks `(a+b)-b != a` in `uint32_t`, which never holds, so `sumErrors` wraps | crc 0xffffffff, packet 1, the rest 0: as written the sum is 0 | the sum saturates at 0xffffffff | not executed | ErrorCounters.SumErrorsWrapsExample | ErrorCounters.SumErrorsIntended |
| src/utils.cpp:130-141 | `(value & (1 << i)) == 1` holds only for i = 0, so the count is `value & 1` | value 3 returns 1 | the number of set bits | not executed | Registers.GetNumNonzeroBitsMiscounts | Registers.GetNumNonzeroBits |
| src/amc/blaster_ram.cpp:299-302 | the `ALL` branch passes slices of twice the region size to the recursive size check | any blob of `getRAMMaxSize(ALL)` words is refused | each region gets its own slice | not executed | Blaster.AllSliceRefused | Blaster.WriteConfRAM |
| src/daq_monitor.cpp:208-212 | the masked bytes of the release register are shifted left by 24, 16 and 8 and the top byte is kept in place, so every byte lands in bits 24-31 and bits 0-23 are always zero | release register 0x00010203 gives 0x03000000 | the byte swap 0x03020100 | not executed | Monitoring.FwVerAsWrittenLowZero | Monitoring.FwVersion |
| src/amc/ttc.cpp:326-383 | in PLL mode the turn-back search sits inside `if (relock)`, so without `relock` no sample is acted on | relock, modeBC0 and scan false, every PLL sample locked: "Unable to find lock" | the search as for the BC0 lock, which turns back after 50 good samples | not executed | Ttc.PllNoRelockThrowsAsWritten | Ttc.PllNoRelockLocks |
| src/amc.cpp:136 | a cluster is valid when `sbitAddr < 24*64-1` | s-bit address 1535, the last pad of VFAT 16, is dropped | `sbitAddr < 1536` | not executed | Amc.LastSbitRejected | Amc.PadAddrValid |
| src/calibration_routines.cpp:930-977 | the vector has `24*((dacMax-dacMin+1)/dacStep)` entries and the index is `vfatN*(dacMax-dacMin+1)/dacStep + (dacVal-dacMin)/dacStep` | DAC range 0..255 with step 3: index 2047 of 2040, and VFATs 0 and 1 collide | row-major layout `vfatN*steps + k` | not executed | Calibration.DacScanOverrunsAsWritten | Calibration.DacIndexLayout |
| src/calibration_routines.cpp:497 | the counter restore writes the saved TIME_MAX to `SBIT_CNT_MAX`, not to `TIME_MAX` | any table where `SBIT_CNT_MAX` is its own register: TIME_MAX keeps the scan's window | TIME_MAX gets its saved value back | not executed | ParallelScans.AsWrittenTimeMaxKept | ParallelScans.CounterRoundTrip |
| src/calibration_routines.cpp:22-38 | `setSingleChanMask` saves the masked MASK field and writes it back raw over the whole channel word, clearing bit 14 | any channel ch of a VFAT: no channel ends up masked, during the scan or after the restore (CalibrationRuns.SbitRateScan, ParallelScans.ParallelUnmasksChannels) | mask every channel but ch, and restore the saved words | not executed | CalibrationRuns.AsWrittenMasksNothing | CalibrationRuns.RestoreMasksExact |
| src/calibration_routines.cpp:56-66 | channel 128 or more is rejected before the disable-all branch for channel 128 is reached | ch = 128, `toggleOn` false: throws | channel 128 with `toggleOn` false disables all | not executed | CalibrationRuns.CalBranchAsWritten | CalibrationRuns.CalBranchCorrected |
| src/daq_monitor.cpp:385-389 | every link's counter is stored under the one key `NOT_READY_CNT_OH` | two links: the map keeps three entries | one key per link, `NOT_READY_CNT_OH<n>` | not executed | DaqMain.ScaAsWrittenLoses | DaqMain.ScaMap |
| src/optohybrid.cpp:508 | the channel loop `chan <= ch_max` runs on `uint32_t` | ch_max = 0xFFFFFFFF: the loop never ends | stop at the last channel | not executed | Optohybrid.ChanLoopEndlessAsWritten | Optohybrid.StopCalPulse2AllChannels |
| src/calibration_routines.cpp:207 | the DAC loop `dacVal <= dacMax; dacVal += dacStep` runs on `uint32_t` | dacMax = 0xFFFFFFFF: the loop never ends; dacMin 5, dacMax 10, dacStep 0xFFFFFFFF: it visits 5, 4, 3, 2, 1, 0 (CalibrationRuns.DacLoopWrapExample) | visit dacMin, dacMin + dacStep, … up to dacMax and stop | not executed | CalibrationRuns.DacLoopWrapsAsWritten | CalibrationRuns.DacValues |
