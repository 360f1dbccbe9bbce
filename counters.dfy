/** `SlowCtrlErrCntVFAT` (server/utils.h): the error counters of VFAT slow-control
  * transactions, combined field by field in 32-bit unsigned arithmetic. */
module ErrorCounters {

  import opened Bits
  import opened Packing

  /** `a + b` on `uint32_t`. */
  function Add32(a: Word, b: Word): (r: Word)
    ensures a + b < WORD ==> r == a + b
    ensures a + b >= WORD ==> r == a + b - WORD
  {
    (a + b) % WORD
  }

  /** `a - b` on `uint32_t`. */
  function Sub32(a: Word, b: Word): (r: Word)
    ensures a >= b ==> r == a - b
    ensures a < b ==> r == a - b + WORD
  {
    (a - b) % WORD
  }

  datatype ErrCnt = ErrCnt(
    crc: Word,           // GEM_AMC.SLOW_CONTROL.VFAT3.CRC_ERROR_CNT
    packet: Word,        // GEM_AMC.SLOW_CONTROL.VFAT3.PACKET_ERROR_CNT
    bitstuffing: Word,   // GEM_AMC.SLOW_CONTROL.VFAT3.BITSTUFFING_ERROR_CNT
    timeout: Word,       // GEM_AMC.SLOW_CONTROL.VFAT3.TIMEOUT_ERROR_CNT
    axiStrobe: Word,     // GEM_AMC.SLOW_CONTROL.VFAT3.AXI_STROBE_ERROR_CNT
    sum: Word,           // sum of the five counters above
    nTransactions: Word  // GEM_AMC.SLOW_CONTROL.VFAT3.TRANSACTION_CNT
  )

  /** The default constructor. */
  function Zero(): ErrCnt
  {
    ErrCnt(0, 0, 0, 0, 0, 0, 0)
  }

  /** `operator+`: every field, `sum` and `nTransactions` included, added modulo 2^32. */
  function Plus(a: ErrCnt, b: ErrCnt): ErrCnt
  {
    ErrCnt(Add32(a.crc, b.crc), Add32(a.packet, b.packet), Add32(a.bitstuffing, b.bitstuffing),
           Add32(a.timeout, b.timeout), Add32(a.axiStrobe, b.axiStrobe), Add32(a.sum, b.sum),
           Add32(a.nTransactions, b.nTransactions))
  }

  /** The default-constructed counters are the unit of `operator+`, on either side. */
  lemma ZeroIsUnit(e: ErrCnt)
    ensures Plus(Zero(), e) == e && Plus(e, Zero()) == e
  {
  }

  /** `operator+` does not depend on the order of its operands. */
  lemma PlusCommutes(a: ErrCnt, b: ErrCnt)
    ensures Plus(a, b) == Plus(b, a)
  {
  }

  lemma Add32Associates(a: Word, b: Word, c: Word)
    ensures Add32(Add32(a, b), c) == Add32(a, Add32(b, c))
  {
  }

  /** Folding `operator+` over a list does not depend on how the additions are grouped. */
  lemma PlusAssociates(a: ErrCnt, b: ErrCnt, c: ErrCnt)
    ensures Plus(Plus(a, b), c) == Plus(a, Plus(b, c))
  {
    Add32Associates(a.crc, b.crc, c.crc);
    Add32Associates(a.packet, b.packet, c.packet);
    Add32Associates(a.bitstuffing, b.bitstuffing, c.bitstuffing);
    Add32Associates(a.timeout, b.timeout, c.timeout);
    Add32Associates(a.axiStrobe, b.axiStrobe, c.axiStrobe);
    Add32Associates(a.sum, b.sum, c.sum);
    Add32Associates(a.nTransactions, b.nTransactions, c.nTransactions);
  }

  /** `overflowTest(a, b)` as written: the sum `t`, and the check whether `t - b`
    * gives back `a`, both taken in `uint32_t` (modulo 2^32); `0xffffffff` when it
    * does not, `a + b` otherwise. */
  function OverflowTestAsWritten(a: Word, b: Word): Word
  {
    var t := (a + b) % WORD;
    if (t - b) % WORD != a then FULL else (a + b) % WORD
  }

  /** In 32-bit unsigned arithmetic `(a + b) - b == a` always holds, so the saturating
    * branch is dead: `overflowTest` is plain wrap-around addition. */
  lemma OverflowNeverDetected(a: Word, b: Word)
    ensures OverflowTestAsWritten(a, b) == Add32(a, b)
  {
  }

  /** The input that shows it: `0xffffffff + 1` wraps to 0 instead of saturating. */
  lemma OverflowTestWraps()
    ensures OverflowTestAsWritten(FULL, 1) == 0
  {
    OverflowNeverDetected(FULL, 1);
  }

  /** `overflowTest` as its documentation describes it: `a + b`, or `0xffffffff` when
    * the sum does not fit. */
  function OverflowTest(a: Word, b: Word): (r: Word)
    ensures a + b < WORD ==> r == a + b
    ensures a + b >= WORD ==> r == FULL
  {
    if a + b >= WORD then FULL else a + b
  }

  /** Without overflow the two versions agree; with overflow only the intended one
    * saturates. */
  lemma OverflowTestAgrees(a: Word, b: Word)
    ensures a + b < WORD ==> OverflowTestAsWritten(a, b) == OverflowTest(a, b)
    ensures a + b >= WORD ==> OverflowTestAsWritten(a, b) < OverflowTest(a, b)
  {
    OverflowNeverDetected(a, b);
  }

  /** The five counters `sumErrors` adds to `sum`, in the order it adds them. */
  function Terms(e: ErrCnt): (xs: seq<Word>)
    ensures |xs| == 5
  {
    [e.crc, e.packet, e.bitstuffing, e.timeout, e.axiStrobe]
  }

  /** The plain total of a list of counts. */
  function SumOf(xs: seq<Word>): nat
  {
    if |xs| == 0 then 0 else xs[0] + SumOf(xs[1..])
  }

  /** `sum = overflowTest(sum, x)` for each `x` of `xs` in turn, as written. */
  function AccumulateAsWritten(s: Word, xs: seq<Word>): Word
    decreases |xs|
  {
    if |xs| == 0 then s else AccumulateAsWritten(OverflowTestAsWritten(s, xs[0]), xs[1..])
  }

  /** The same accumulation with the saturating `overflowTest`. */
  function AccumulateIntended(s: Word, xs: seq<Word>): Word
    decreases |xs|
  {
    if |xs| == 0 then s else AccumulateIntended(OverflowTest(s, xs[0]), xs[1..])
  }

  /** `sumErrors` as written: `sum` accumulates crc, packet, bitstuffing, timeout and
    * axi_strobe, in that order, with `overflowTest` as written. */
  function SumErrorsAsWritten(e: ErrCnt): ErrCnt
  {
    e.(sum := AccumulateAsWritten(e.sum, Terms(e)))
  }

  /** The true total of the five error counters on top of `sum`. */
  function Total(e: ErrCnt): nat
  {
    e.sum + e.crc + e.packet + e.bitstuffing + e.timeout + e.axiStrobe
  }

  /** A count clamped to `0xffffffff` when it does not fit in 32 bits. */
  function Saturate(t: nat): Word
  {
    if t < WORD then t else FULL
  }

  /** The list `sumErrors` adds holds the five counters, so its total and `sum` make
    * up `Total`. */
  lemma TermsTotal(e: ErrCnt)
    ensures e.sum + SumOf(Terms(e)) == Total(e)
  {
    var xs := Terms(e);
    assert SumOf(xs[4..]) == e.axiStrobe + SumOf(xs[5..]);
    assert SumOf(xs[3..]) == e.timeout + SumOf(xs[4..]);
    assert SumOf(xs[2..]) == e.bitstuffing + SumOf(xs[3..]);
    assert SumOf(xs[1..]) == e.packet + SumOf(xs[2..]);
  }

  /** One `overflowTest` as written on a running total held modulo 2^32. */
  lemma OverflowStep(t: nat, s: Word, b: Word)
    requires s == t % WORD
    ensures OverflowTestAsWritten(s, b) == (t + b) % WORD
  {
    OverflowNeverDetected(s, b);
    WrapAdd(t, b);
  }

  /** Accumulating with `overflowTest` as written keeps the running total modulo 2^32. */
  lemma {:induction false} AccumulateAsWrittenWraps(t: nat, s: Word, xs: seq<Word>)
    requires s == t % WORD
    ensures AccumulateAsWritten(s, xs) == (t + SumOf(xs)) % WORD
    decreases |xs|
  {
    if |xs| > 0 {
      OverflowStep(t, s, xs[0]);
      AccumulateAsWrittenWraps(t + xs[0], OverflowTestAsWritten(s, xs[0]), xs[1..]);
    }
  }

  /** Accumulating with the saturating `overflowTest` gives the running total, clamped. */
  lemma {:induction false} AccumulateIntendedSaturates(s: Word, xs: seq<Word>)
    ensures AccumulateIntended(s, xs) == Saturate(s + SumOf(xs))
    decreases |xs|
  {
    if |xs| > 0 {
      AccumulateIntendedSaturates(OverflowTest(s, xs[0]), xs[1..]);
    }
  }

  /** As written, `sumErrors` leaves the total of the five counters on top of `sum`
    * modulo 2^32, and no other field changes. */
  lemma SumErrorsAsWrittenWraps(e: ErrCnt)
    ensures SumErrorsAsWritten(e).sum == Total(e) % WORD
    ensures SumErrorsAsWritten(e).(sum := e.sum) == e
  {
    AccumulateAsWrittenWraps(e.sum, e.sum, Terms(e));
    TermsTotal(e);
  }

  /** `sumErrors` as written: `sum` is updated step by step with `overflowTest`, which
    * never saturates, so it ends as the total of the five counters on top of `sum`,
    * modulo 2^32; no other field changes. */
  method SumErrors(e: ErrCnt) returns (r: ErrCnt)
    ensures r.(sum := e.sum) == e
    ensures r.sum == Total(e) % WORD
    ensures r == SumErrorsAsWritten(e)
  {
    var sum := e.sum;
    OverflowStep(e.sum, sum, e.crc);
    sum := OverflowTestAsWritten(sum, e.crc);
    OverflowStep(e.sum + e.crc, sum, e.packet);
    sum := OverflowTestAsWritten(sum, e.packet);
    OverflowStep(e.sum + e.crc + e.packet, sum, e.bitstuffing);
    sum := OverflowTestAsWritten(sum, e.bitstuffing);
    OverflowStep(e.sum + e.crc + e.packet + e.bitstuffing, sum, e.timeout);
    sum := OverflowTestAsWritten(sum, e.timeout);
    OverflowStep(e.sum + e.crc + e.packet + e.bitstuffing + e.timeout, sum, e.axiStrobe);
    sum := OverflowTestAsWritten(sum, e.axiStrobe);
    r := e.(sum := sum);
    SumErrorsAsWrittenWraps(e);
  }

  /** `sumErrors` with the saturating `overflowTest` its documentation describes: the
    * total, or `0xffffffff` once it no longer fits; no other field changes. */
  function SumErrorsIntended(e: ErrCnt): (r: ErrCnt)
    ensures r.(sum := e.sum) == e
    ensures r.sum == Saturate(Total(e))
  {
    AccumulateIntendedSaturates(e.sum, Terms(e));
    TermsTotal(e);
    e.(sum := AccumulateIntended(e.sum, Terms(e)))
  }

  /** When nothing overflows, the sum as written is the saturating one. */
  lemma SumErrorsAgrees(e: ErrCnt)
    requires Total(e) < WORD
    ensures SumErrorsAsWritten(e).sum == Total(e) == SumErrorsIntended(e).sum
  {
    SumErrorsAsWrittenWraps(e);
  }

  /** The input that shows the difference: crc 0xffffffff and packet 1 sum to 0 as
    * written, and saturate to 0xffffffff as intended. */
  lemma SumErrorsWrapsExample()
    ensures SumErrorsAsWritten(ErrCnt(FULL, 1, 0, 0, 0, 0, 0)).sum == 0
    ensures SumErrorsIntended(ErrCnt(FULL, 1, 0, 0, 0, 0, 0)).sum == FULL
  {
    SumErrorsAsWrittenWraps(ErrCnt(FULL, 1, 0, 0, 0, 0, 0));
  }
}
