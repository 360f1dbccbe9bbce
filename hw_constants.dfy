/** The hardware constants of the GE1/1 back end (hw_constants.h), which are given to
  * the model as parameters, and the range check of hw_constants_checks.h. */
module HwConstants {

  import opened Wrappers
  import opened Bits

  /** The constants of hw_constants.h that the modelled code uses. */
  datatype Consts = Consts(
    ohPerAmc: nat,           // amc::OH_PER_AMC, OptoHybrid links per AMC
    vfatsPerOh: nat,         // oh::VFATS_PER_OH
    gbtsPerOh: nat,          // gbt::GBTS_PER_OH
    gbtSingleRamSize: nat,   // gbt::GBT_SINGLE_RAM_SIZE, words of one GBT's configuration
    ohSingleRamSize: nat,    // oh::OH_SINGLE_RAM_SIZE
    vfatSingleRamSize: nat,  // vfat::VFAT_SINGLE_RAM_SIZE
    configSize: nat,         // gbt::CONFIG_SIZE, writable GBT registers
    phaseMin: nat,           // gbt::PHASE_MIN
    phaseMax: nat,           // gbt::PHASE_MAX
    sbitsPerOh: nat          // oh::SBITS_PER_OH
  )

  /** What the code takes for granted about the constants: at least one of each unit,
    * link masks that fit a `uint16_t` shift, VFAT masks that fit the 24-bit word
    * `0xffffff`, RAM block sizes that fit a word, and GBT register addresses that fit
    * the `uint16_t` address of `writeGBTReg`. */
  predicate Valid(c: Consts)
  {
    1 <= c.ohPerAmc <= 16 && 1 <= c.vfatsPerOh <= 24 && c.gbtsPerOh >= 1 &&
    c.gbtSingleRamSize * c.gbtsPerOh < WORD && c.ohSingleRamSize < WORD &&
    c.vfatSingleRamSize * c.vfatsPerOh < WORD && c.configSize <= 0x1_0000
  }

  /** The values the documentation gives: 12 links (blaster_ram.h), 24 VFATs and 3 GBTs
    * per link, 366 GBT registers and phases 0 to 15 (gbt.h). */
  predicate Documented(c: Consts)
  {
    c.ohPerAmc == 12 && c.vfatsPerOh == 24 && c.gbtsPerOh == 3 && c.configSize == 366 &&
    c.phaseMin == 0 && c.phaseMax == 15
  }

  /** `gbt::checkPhase(phase)`: returns normally inside `[PHASE_MIN, PHASE_MAX]`, and
    * throws `std::range_error` below the minimum (checked first) or above the maximum. */
  function CheckPhase(c: Consts, phase: Byte): (r: Result<()>)
    ensures r.Ok? <==> c.phaseMin <= phase <= c.phaseMax
    ensures phase < c.phaseMin ==> r == Err(RangeError(BelowMinimum))
    ensures c.phaseMin <= phase && phase > c.phaseMax ==> r == Err(RangeError(AboveMaximum))
  {
    if phase < c.phaseMin then Err(RangeError(BelowMinimum))
    else if phase > c.phaseMax then Err(RangeError(AboveMaximum))
    else Ok(())
  }

  /** With the documented constants exactly the 16 phases 0 to 15 pass. */
  lemma DocumentedPhases(c: Consts, phase: Byte)
    requires Documented(c)
    ensures CheckPhase(c, phase).Ok? <==> phase < 16
  {
  }
}
