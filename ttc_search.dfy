/** The bookkeeping of ttcMMCMPhaseShift in src/amc/ttc.cpp, one shift at a time: the
  * GTH and MMCM shift counters with their wrap-around, and the lock counting that
  * decides when the scan turns back and when the best lock is found.
  *
  * The register traffic of a shift is in module Ttc; here a shift is a value: the
  * state before it, the lock samples it sees, and the state, the direction changes
  * and the stop decision after it. */
module TtcSearch {

  import opened Bits

  const PLL_LOCK_READ_ATTEMPTS: nat := 10

  /** The three flags of ttcMMCMPhaseShift. */
  datatype Mode = Mode(relock: bool, modeBC0: bool, scan: bool)

  /** The PLL resets of each lock check: ten, unless BC0 mode without a scan, which
    * uses one. */
  function ReadAttempts(m: Mode): Word
  {
    if !m.modeBC0 || m.scan then PLL_LOCK_READ_ATTEMPTS else 1
  }

  /** The number of shifts the loop allows: 7680 + 7680 / 2, or 23040 in a scan. */
  function MaxShift(m: Mode): nat
  {
    if m.scan then 23040 else 7680 + 7680 / 2
  }

  // ---------------------------------------------------------------------------
  // The shift counters

  const GTH_LAST: Word := 39
  const MMCM_LAST: Word := 0xffff

  /** The GTH phase-interpolator count after one shift: forward from 39 to 0, back from
    * 0 to 39, otherwise one step (the forward step is uint32 arithmetic). */
  function GthNext(g: Word, back: bool): (n: Word)
    ensures g <= GTH_LAST ==> n <= GTH_LAST
    ensures back ==> n == (if g == 0 then GTH_LAST else g - 1)
  {
    if !back && g == GTH_LAST then 0
    else if back && g == 0 then GTH_LAST
    else if back then g - 1
    else (g + 1) % WORD
  }

  /** The MMCM shift count after an MMCM step: forward from 0xffff to 0, back from 0 to
    * 0xffff, otherwise one step. */
  function MmcmNext(c: Word, back: bool): (n: Word)
    ensures c <= MMCM_LAST ==> n <= MMCM_LAST
    ensures back ==> n == (if c == 0 then MMCM_LAST else c - 1)
  {
    if !back && c == MMCM_LAST then 0
    else if back && c == 0 then MMCM_LAST
    else if back then c - 1
    else (c + 1) % WORD
  }

  /** Within its range a GTH step back undoes a step forward, and the other way round. */
  lemma GthInverse(g: Word)
    requires g <= GTH_LAST
    ensures GthNext(GthNext(g, false), true) == g
    ensures GthNext(GthNext(g, true), false) == g
  {
  }

  lemma MmcmInverse(c: Word)
    requires c <= MMCM_LAST
    ensures MmcmNext(MmcmNext(c, false), true) == c
    ensures MmcmNext(MmcmNext(c, true), false) == c
  {
  }

  /** mmcmShiftTable: the GTH positions (plus one) after which the MMCM steps too. */
  const MMCM_SHIFT_TABLE: seq<bool> := [
    false, false, false, true, false, false, false,
    false, false, true, false, false, false, false,
    false, true, false, false, false, false, true,
    false, false, false, false, false, true, false,
    false, false, false, false, true, false, false,
    false, false, false, true, false, false]

  /** `mmcmShiftTable[i]`; an index past the 41 entries, which the C++ would read out of
    * bounds, counts as false. */
  function ShiftTable(i: Word): bool
  {
    i < |MMCM_SHIFT_TABLE| && MMCM_SHIFT_TABLE[i]
  }

  /** With the GTH count in its range the table index `gthShiftCnt + 1` stays inside
    * the 41 entries. */
  lemma TableIndexInRange(g: Word, back: bool)
    requires g <= GTH_LAST
    ensures GthNext(g, back) + 1 < |MMCM_SHIFT_TABLE|
  {
  }

  // ---------------------------------------------------------------------------
  // The search state

  /** The loop variables of ttcMMCMPhaseShift other than the loop index. */
  datatype Search = Search(gth: Word, mmcm: Word,
                           firstUnlock: bool, nextLock: bool, bestLock: bool, reversing: bool,
                           good: int, bad: int, sinceLock: int, total: int)

  /** The state before the first shift, from the two shift counts read beforehand. */
  function Start(gth: Word, mmcm: Word): (s: Search)
    ensures s.gth == gth && s.mmcm == mmcm && !s.bestLock && !s.reversing
  {
    Search(gth, mmcm, false, false, false, false, 0, 0, 0, 0)
  }

  /** A change of scan direction: back to normal writes PA_MANUAL_SHIFT_DIR = 1 and
    * PA_GTH_MANUAL_SHIFT_DIR = 0, reversing the opposite. */
  datatype Turn = ToNormal | ToReverse

  /** What one shift leaves: the new state, whether the loop breaks, and the direction
    * changes it wrote, in order. */
  datatype Outcome = Outcome(s: Search, stop: bool, turns: seq<Turn>)

  /** Both states at the same shift position. */
  predicate SamePlace(a: Search, b: Search)
  {
    a.gth == b.gth && a.mmcm == b.mmcm
  }

  /** The counters after the GTH step and, where the table says so, the MMCM step; the
    * direction is that of the scan so far. */
  function Shifted(s: Search): (p: Search)
    ensures p.gth == GthNext(s.gth, s.reversing)
    ensures p.mmcm == (if ShiftTable((p.gth + 1) % WORD) then MmcmNext(s.mmcm, s.reversing) else s.mmcm)
    ensures p.(gth := s.gth, mmcm := s.mmcm) == s
  {
    var g := GthNext(s.gth, s.reversing);
    s.(gth := g, mmcm := if ShiftTable((g + 1) % WORD) then MmcmNext(s.mmcm, s.reversing) else s.mmcm)
  }

  // ---------------------------------------------------------------------------
  // Lock counting

  /** Before the first unlock: a run of good samples grows, a bad one ends it. */
  function Sampled(s: Search, locked: bool): Search
  {
    if locked then s.(bestLock := false, bad := 0, good := s.good + 1)
    else s.(bestLock := false, bad := s.bad + 1, good := 0)
  }

  /** The search for a place to turn back at (`!relock`): a bad sample while reversing
    * returns to the normal direction, `turnAt` good samples reverse it, and `bestAt`
    * good samples while reversing are the best lock, which ends the loop unless
    * scanning, where the search restarts in the normal direction. */
  function Reverse(s1: Search, scan: bool, turnAt: int, bestAt: int): (o: Outcome)
    ensures SamePlace(o.s, s1) && o.s.firstUnlock == s1.firstUnlock && o.s.nextLock == s1.nextLock
    ensures o.stop ==> o.s.bestLock && !scan
  {
    var s2 := if s1.reversing && s1.bad > 0 then s1.(bestLock := false, reversing := false, good := 0)
              else if s1.good == turnAt then s1.(reversing := true)
              else s1;
    var t2 := if s1.reversing && s1.bad > 0 then [ToNormal] else if s1.good == turnAt then [ToReverse] else [];
    if s2.reversing && s2.good == bestAt then
      if scan then Outcome(s2.(bestLock := false, reversing := false, good := 0), false, t2 + [ToNormal])
      else Outcome(s2.(bestLock := true), true, t2)
    else Outcome(s2, false, t2)
  }

  /** After the first unlock: an unlock counts as bad, the first lock after it is the
    * next lock, and every lock counts as good. */
  function Relocked(s: Search, locked: bool): Search
  {
    if !locked then s.(bad := s.bad + 1)
    else if !s.nextLock then s.(nextLock := true, bad := 0, good := s.good + 1)
    else s.(good := s.good + 1)
  }

  /** The search after the first unlock has run long enough: the best lock, which ends
    * the loop unless scanning, where the counting starts over. */
  function Finish(s1: Search, scan: bool): (o: Outcome)
    ensures SamePlace(o.s, s1) && o.s.bestLock && o.turns == [] && o.stop == !scan
  {
    if scan then Outcome(s1.(bestLock := true, nextLock := false, firstUnlock := false, good := 0, bad := 0, sinceLock := 0), false, [])
    else Outcome(s1.(bestLock := true), true, [])
  }

  /** The BC0 branch, `bc0Locked != 0` the sample: with `relock` more than 100 bad
    * samples in a row are the first unlock, without it the scan turns back after 200
    * good samples and has its best lock after 300; after the first unlock, 1920 good
    * samples are the best lock. */
  function Bc0Step(relock: bool, scan: bool, s: Search, locked: bool): (o: Outcome)
    ensures SamePlace(o.s, s)
    ensures o.stop ==> o.s.bestLock && !scan
  {
    if !s.firstUnlock then
      var s1 := Sampled(s, locked);
      if relock then Outcome(if s1.bad > 100 then s1.(firstUnlock := true) else s1, false, [])
      else Reverse(s1, scan, 200, 300)
    else
      var s1 := Relocked(s, locked);
      if s1.good == 1920 then Finish(s1, scan) else Outcome(s1, false, [])
  }

  /** The PLL branch as the source writes it, `pllLockCnt == 10` the sample. The search
    * for a turning point sits inside the `relock` case's else branch, so without
    * `relock` no sample is ever acted on; after the first unlock only unlocked
    * samples are acted on, the first of them counting as the next lock. */
  function PllStepAsWritten(relock: bool, scan: bool, s: Search, pllCnt: nat): (o: Outcome)
    ensures SamePlace(o.s, s)
    ensures o.stop ==> o.s.bestLock && !scan
  {
    var locked := pllCnt >= PLL_LOCK_READ_ATTEMPTS;
    if !s.firstUnlock then
      var s1 := Sampled(s, locked);
      if !relock then Outcome(s1, false, [])
      else if s1.bad > 500 then Outcome(s1.(firstUnlock := true), false, [])
      else Reverse(s1, scan, 50, 75)
    else if !locked then
      var s1 := if s.nextLock then s.(bad := s.bad + 1) else s.(nextLock := true, bad := 0, good := s.good + 1);
      if s1.sinceLock == 1000 then Finish(s1, scan) else Outcome(s1, false, [])
    else Outcome(s, false, [])
  }

  /** The PLL branch "as for the BC0 lock", which its comment announces: with `relock`
    * more than 500 bad samples are the first unlock, without it the scan turns back
    * after 50 good samples and has its best lock after 75; after the first unlock the
    * samples are counted as in the BC0 branch and 1000 shifts since the next lock
    * are the best lock. */
  function PllStep(relock: bool, scan: bool, s: Search, pllCnt: nat): (o: Outcome)
    ensures SamePlace(o.s, s)
    ensures o.stop ==> o.s.bestLock && !scan
  {
    var locked := pllCnt >= PLL_LOCK_READ_ATTEMPTS;
    if !s.firstUnlock then
      var s1 := Sampled(s, locked);
      if relock then Outcome(if s1.bad > 500 then s1.(firstUnlock := true) else s1, false, [])
      else Reverse(s1, scan, 50, 75)
    else
      var s1 := Relocked(s, locked);
      if s1.sinceLock == 1000 then Finish(s1, scan) else Outcome(s1, false, [])
  }

  /** The end of a shift that does not break: one more shift since the next lock, once
    * it is found, and the net shift count one up, or one down while reversing. */
  function Tally(s: Search): (t: Search)
    ensures SamePlace(t, s) && t.bestLock == s.bestLock
    ensures t.total == s.total + (if s.reversing then -1 else 1)
  {
    s.(sinceLock := if s.nextLock then s.sinceLock + 1 else s.sinceLock,
       total := if s.reversing then s.total - 1 else s.total + 1)
  }

  /** Which PLL branch a search runs: the one the source writes, or the one its
    * comment announces. */
  datatype Branch = AsWritten | Intended

  function PllBranch(b: Branch, relock: bool, scan: bool, s: Search, pllCnt: nat): (o: Outcome)
    ensures SamePlace(o.s, s)
    ensures o.stop ==> o.s.bestLock && !scan
  {
    if b == AsWritten then PllStepAsWritten(relock, scan, s, pllCnt) else PllStep(relock, scan, s, pllCnt)
  }

  /** One iteration of the main loop, given the PLL lock count and BC0.LOCKED it reads. */
  function Step(b: Branch, m: Mode, s: Search, pllCnt: nat, bc0: Word): (o: Outcome)
    ensures SamePlace(o.s, Shifted(s))
    ensures o.stop ==> o.s.bestLock && !m.scan
  {
    var p := Shifted(s);
    var o := if m.modeBC0 then Bc0Step(m.relock, m.scan, p, bc0 != 0) else PllBranch(b, m.relock, m.scan, p, pllCnt);
    if o.stop then o else o.(s := Tally(o.s))
  }

  /** The shift counters stay in their ranges from one iteration to the next. */
  lemma StepKeepsRange(b: Branch, m: Mode, s: Search, pllCnt: nat, bc0: Word)
    requires s.gth <= GTH_LAST && s.mmcm <= MMCM_LAST
    ensures Step(b, m, s, pllCnt, bc0).s.gth <= GTH_LAST && Step(b, m, s, pllCnt, bc0).s.mmcm <= MMCM_LAST
  {
    var p := Shifted(s);
    assert p.gth <= GTH_LAST && p.mmcm <= MMCM_LAST;
  }

  /** In BC0 mode before the first unlock, an unlocked sample adds a bad lock and ends
    * the run of good ones, and a locked sample ends the run of bad ones and adds a good
    * lock, unless that good lock completes a scan's reversed search, which starts the
    * count over. */
  lemma Bc0BeforeUnlock(relock: bool, scan: bool, s: Search, bc0: Word)
    requires !s.firstUnlock
    ensures var o := Bc0Step(relock, scan, s, bc0 != 0);
      (bc0 == 0 ==> o.s.bad == s.bad + 1 && o.s.good == 0) &&
      (bc0 != 0 ==> o.s.bad == 0 && (o.s.good == s.good + 1 || (scan && !relock && o.s.good == 0)))
  {
  }

  /** Before the first unlock no lock counts as the best until the search says so:
    * every BC0 sample first clears it. */
  lemma Bc0SampleClearsBest(relock: bool, s: Search, bc0: Word)
    requires !s.firstUnlock
    ensures Bc0Step(relock, false, s, bc0 != 0).s.bestLock ==> !relock && Bc0Step(relock, false, s, bc0 != 0).stop
  {
  }

  // ---------------------------------------------------------------------------
  // The PLL branch as written against the evident intent

  /** As written, without `relock` a PLL-mode shift never reaches the first unlock,
    * never keeps a best lock and never breaks, whatever the lock count. */
  lemma PllAsWrittenNoRelockStalls(scan: bool, s: Search, pllCnt: nat)
    requires !s.firstUnlock
    ensures var o := PllStepAsWritten(false, scan, s, pllCnt);
      !o.s.firstUnlock && !o.s.bestLock && !o.stop && o.turns == []
  {
  }

  /** As written, after the first unlock an unlocked sample counts as the next lock,
    * and a locked one is ignored. */
  lemma PllAsWrittenUnlockIsLock(relock: bool, scan: bool, s: Search)
    requires s.firstUnlock && !s.nextLock && s.sinceLock != 1000
    ensures PllStepAsWritten(relock, scan, s, 0).s.nextLock
    ensures PllStepAsWritten(relock, scan, s, PLL_LOCK_READ_ATTEMPTS) == Outcome(s, false, [])
  {
  }

  /** Intended, without `relock` fifty locked PLL samples turn the scan back. */
  lemma PllTurnsBack(scan: bool, s: Search, pllCnt: nat)
    requires !s.firstUnlock && !s.reversing && s.good == 49 && pllCnt >= PLL_LOCK_READ_ATTEMPTS
    ensures var o := PllStep(false, scan, s, pllCnt);
      o.s.reversing && o.turns == [ToReverse] && o.s.good == 50 && o.s.bad == 0
  {
  }

  /** Intended, in PLL mode without `relock` or a scan, a locked sample before the first
    * unlock adds a good lock, turns back at the fiftieth and stops with the best lock at
    * the seventy-fifth. */
  lemma LockedPllStep(s: Search, pllCnt: nat, bc0: Word)
    requires !s.firstUnlock && s.bad == 0 && 0 <= s.good < 75 && s.reversing == (s.good >= 50)
    requires pllCnt >= PLL_LOCK_READ_ATTEMPTS
    ensures var o := Step(Intended, Mode(false, false, false), s, pllCnt, bc0);
      o.stop == (s.good == 74) && (o.stop ==> o.s.bestLock) &&
      (!o.stop ==> o.s.good == s.good + 1 && o.s.bad == 0 && !o.s.firstUnlock && o.s.reversing == (o.s.good >= 50))
  {
  }

  /** Intended, after the first unlock the first locked sample is the next lock, and an
    * unlocked one is not. */
  lemma PllNextLockOnLock(relock: bool, scan: bool, s: Search, pllCnt: nat)
    requires s.firstUnlock && !s.nextLock && s.sinceLock != 1000
    ensures PllStep(relock, scan, s, pllCnt).s.nextLock <==> pllCnt >= PLL_LOCK_READ_ATTEMPTS
  {
  }

  /** Intended, the PLL branch is the BC0 branch with its own thresholds: before the
    * first unlock both count a sample alike. */
  lemma PllLikeBc0(relock: bool, scan: bool, s: Search, pllCnt: nat)
    requires !s.firstUnlock && relock
    ensures var locked := pllCnt >= PLL_LOCK_READ_ATTEMPTS;
      var o := PllStep(relock, scan, s, pllCnt);
      var b := Bc0Step(relock, scan, s, locked);
      o.s.good == b.s.good && o.s.bad == b.s.bad && o.turns == b.turns == []
  {
  }
}
