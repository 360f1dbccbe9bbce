/** The TTC clock block of src/amc/ttc.cpp: the PLL lock check, the MMCM phase-shift
  * search with its control-register set-up, and the command-counter read-out.
  *
  * The firmware's lock flags change as the clock phase moves, which a memory that only
  * the program writes cannot show: the values of PHASE_LOCKED after each PLL reset and
  * of BC0.LOCKED after each shift come in as `Readings`. Every register write goes
  * through the hardware model. */
module Ttc {

  import opened Wrappers
  import opened Bits
  import opened Text
  import opened Registers
  import opened TtcSearch

  const CNT_RESET: string := "GEM_AMC.TTC.CTRL.CNT_RESET"
  const SHIFT_EN: string := "GEM_AMC.TTC.CTRL.PA_GTH_MANUAL_SHIFT_EN"
  const PLL_RESET: string := "GEM_AMC.TTC.CTRL.PA_MANUAL_PLL_RESET"
  const SHIFT_DIR: string := "GEM_AMC.TTC.CTRL.PA_MANUAL_SHIFT_DIR"
  const GTH_SHIFT_DIR: string := "GEM_AMC.TTC.CTRL.PA_GTH_MANUAL_SHIFT_DIR"
  const MMCM_RESET: string := "GEM_AMC.TTC.CTRL.MMCM_RESET"
  const DISABLE_PHASE_ALIGNMENT: string := "GEM_AMC.TTC.CTRL.DISABLE_PHASE_ALIGNMENT"
  const MMCM_SHIFT_CNT: string := "GEM_AMC.TTC.STATUS.CLK.PA_MANUAL_SHIFT_CNT"
  const GTH_SHIFT_CNT: string := "GEM_AMC.TTC.STATUS.CLK.PA_MANUAL_GTH_SHIFT_CNT"
  const PHASE_LOCKED: string := "GEM_AMC.TTC.STATUS.CLK.PHASE_LOCKED"
  const PHASE_MEAN: string := "GEM_AMC.TTC.STATUS.CLK.TTC_PM_PHASE_MEAN"
  const BC0_LOCKED: string := "GEM_AMC.TTC.STATUS.BC0.LOCKED"
  /** The two status reads of the search that name their register without the
    * `GEM_AMC.` prefix every other read carries; the model reads them as named. */
  const SHORT_MMCM_SHIFT_CNT: string := "TTC.STATUS.CLK.PA_MANUAL_SHIFT_CNT"
  const SHORT_GTH_PHASE_MEAN: string := "TTC.STATUS.CLK.GTH_PM_PHASE_MEAN"

  // ---------------------------------------------------------------------------
  // Firmware readings

  /** What the firmware reports while the search runs: `phaseLocked[c][k]` is
    * PHASE_LOCKED after the k-th PLL reset of the c-th checkPLLLock (call 0 before the
    * loop, call i + 1 in shift i), `bc0Locked[i]` is BC0.LOCKED in shift i. A reading
    * past the end of the record counts as unlocked. */
  datatype Readings = Readings(phaseLocked: seq<seq<bool>>, bc0Locked: seq<Word>)

  /** The readings of one checkPLLLock call. */
  function CallReadings(rd: Readings, call: nat): seq<bool>
  {
    if call < |rd.phaseLocked| then rd.phaseLocked[call] else []
  }

  function Bc0Reading(rd: Readings, i: nat): Word
  {
    if i < |rd.bc0Locked| then rd.bc0Locked[i] else 0
  }

  predicate LockedAt(locked: seq<bool>, k: nat)
  {
    k < |locked| && locked[k]
  }

  /** The number of the first n resets of a call after which the PLL was locked. */
  function LockCount(locked: seq<bool>, n: nat): (c: nat)
    ensures c <= n
  {
    if n == 0 then 0 else LockCount(locked, n - 1) + (if LockedAt(locked, n - 1) then 1 else 0)
  }

  /** The count reaches n exactly when every reset locked, and stays 0 exactly when
    * none did. */
  lemma {:induction false} LockCountExtremes(locked: seq<bool>, n: nat)
    ensures LockCount(locked, n) == n <==> forall k :: 0 <= k < n ==> LockedAt(locked, k)
    ensures LockCount(locked, n) == 0 <==> forall k :: 0 <= k < n ==> !LockedAt(locked, k)
  {
    if n > 0 {
      LockCountExtremes(locked, n - 1);
    }
  }

  /** The writes of checkPLLLock(n): PA_MANUAL_PLL_RESET = 1, n times. */
  function PllResets(n: nat): (ws: seq<(string, Word)>)
    ensures |ws| == n && forall k :: 0 <= k < n ==> ws[k] == (PLL_RESET, 1)
  {
    if n == 0 then [] else PllResets(n - 1) + [(PLL_RESET, 1)]
  }

  /** One more attempt adds one more reset. */
  lemma PllResetsNext(n: nat)
    ensures PllResets(n + 1) == PllResets(n) + [(PLL_RESET, 1)]
  {
  }

  /** One attempt of checkPLLLock after the writes `done`: the PLL reset, then the
    * read of PHASE_LOCKED, whose value the caller takes from the readings. */
  method RelockAttempt(hw: Hardware, ghost m0: map<Word, Word>, ghost e0: seq<Event>, ghost done: seq<(string, Word)>)
    returns (r: Result<()>)
    requires Performed(m0, hw.mem, hw.table, e0, Effects(hw.trace), done)
    modifies hw`mem, hw`faults, hw`trace
    ensures hw.mem.Keys == old(hw.mem).Keys
    ensures r.Ok? ==> Performed(m0, hw.mem, hw.table, e0, Effects(hw.trace), done + [(PLL_RESET, 1)])
    ensures r.Err? ==> AccessError(r.error)
  {
    r := hw.SetAfter(PLL_RESET, 1, m0, e0, done);
    if r.Ok? {
      var x := hw.Get(PHASE_LOCKED);
      if x.Err? {
        r := Err(x.error);
      }
    }
  }

  /** checkPLLLock: each attempt resets the PLL, reads PHASE_LOCKED, and counts the
    * attempt when the PLL then reports locked. */
  method CheckPllLock(hw: Hardware, readAttempts: Word, locked: seq<bool>) returns (r: Result<Word>)
    modifies hw`mem, hw`faults, hw`trace
    ensures hw.mem.Keys == old(hw.mem).Keys
    ensures r.Ok? ==> r.value == LockCount(locked, readAttempts) &&
                      Performed(old(hw.mem), hw.mem, hw.table, Effects(old(hw.trace)), Effects(hw.trace), PllResets(readAttempts))
    ensures r.Err? ==> AccessError(r.error)
  {
    ghost var m0, e0 := hw.mem, Effects(hw.trace);
    PerformedNothing(m0, hw.table, e0);
    var lockCnt := 0;
    var i := 0;
    while i < readAttempts
      invariant i <= readAttempts
      invariant lockCnt == LockCount(locked, i)
      invariant Performed(m0, hw.mem, hw.table, e0, Effects(hw.trace), PllResets(i))
      invariant hw.mem.Keys == m0.Keys
    {
      var w := RelockAttempt(hw, m0, e0, PllResets(i));
      if w.Err? {
        return Err(w.error);
      }
      PllResetsNext(i);
      if LockedAt(locked, i) {
        lockCnt := lockCnt + 1;
      }
      i := i + 1;
    }
    r := Ok(lockCnt);
  }

  // ---------------------------------------------------------------------------
  // The control registers set before the search

  const CTRL: string := "GEM_AMC.TTC.CTRL."

  /** The twelve control registers, in the order they are written. */
  const CONTROL_NAMES: seq<string> := [
    "DISABLE_PHASE_ALIGNMENT", "PA_DISABLE_GTH_PHASE_TRACKING", "PA_MANUAL_OVERRIDE", "PA_MANUAL_SHIFT_DIR",
    "PA_GTH_MANUAL_OVERRIDE", "PA_GTH_MANUAL_SHIFT_DIR", "PA_GTH_MANUAL_SHIFT_STEP", "PA_GTH_MANUAL_SEL_OVERRIDE",
    "PA_GTH_MANUAL_COMBINED", "GTH_TXDLYBYPASS", "PA_MANUAL_PLL_RESET", "CNT_RESET"]

  /** Their values: all 1 but PA_GTH_MANUAL_SHIFT_DIR. */
  const CONTROL_VALUES: seq<Word> := [1, 1, 1, 1, 1, 0, 1, 1, 1, 1, 1, 1]

  function ControlWrites(): (ws: seq<(string, Word)>)
    ensures |ws| == 12
  {
    seq(12, k requires 0 <= k < 12 => (CTRL + CONTROL_NAMES[k], CONTROL_VALUES[k]))
  }

  /** Each of the first n writes of ws read back, right after it was made, the value
    * it wrote. */
  predicate ReadsBack(m0: map<Word, Word>, table: map<string, Descriptor>, ws: seq<(string, Word)>, n: nat)
    requires n <= |ws| && AllMapped(m0.Keys, table, ws[..n])
  {
    forall j :: 0 <= j < n ==> ReadBackOk(m0, table, ws, j)
  }

  predicate ReadBackOk(m0: map<Word, Word>, table: map<string, Descriptor>, ws: seq<(string, Word)>, j: nat)
    requires j < |ws| && AllMapped(m0.Keys, table, ws[..j + 1])
  {
    var m := WriteAll(m0, table, ws[..j + 1]);
    Readable(m, table, ws[j].0) && RegValue(m, table, ws[j].0) == ws[j].1
  }

  lemma PrefixMapped(m0: map<Word, Word>, table: map<string, Descriptor>, ws: seq<(string, Word)>, i: nat, j: nat)
    requires j <= i <= |ws| && AllMapped(m0.Keys, table, ws[..i])
    ensures AllMapped(m0.Keys, table, ws[..j])
  {
    assert forall k :: 0 <= k < j ==> ws[..j][k] == ws[..i][k];
  }

  /** The loop of ttcMMCMPhaseShift over its control registers: write one, read it
    * back, and throw at the first that does not hold its value. */
  method WriteVerified(hw: Hardware, ws: seq<(string, Word)>) returns (r: Result<()>)
    modifies hw`mem, hw`faults, hw`trace
    ensures hw.mem.Keys == old(hw.mem).Keys
    ensures r.Ok? ==> Performed(old(hw.mem), hw.mem, hw.table, Effects(old(hw.trace)), Effects(hw.trace), ws) &&
                      ReadsBack(old(hw.mem), hw.table, ws, |ws|)
    ensures r == Err(RuntimeError(Mismatch)) ==>
              exists k :: 0 <= k < |ws| && Performed(old(hw.mem), hw.mem, hw.table, Effects(old(hw.trace)), Effects(hw.trace), ws[..k + 1]) &&
                          ReadsBack(old(hw.mem), hw.table, ws, k) && !ReadBackOk(old(hw.mem), hw.table, ws, k)
    ensures r.Err? ==> r.error == RuntimeError(Mismatch) || AccessError(r.error)
  {
    ghost var m0, e0 := hw.mem, Effects(hw.trace);
    PerformedNothing(m0, hw.table, e0);
    var i := 0;
    while i < |ws|
      invariant i <= |ws|
      invariant hw.mem.Keys == m0.Keys
      invariant Performed(m0, hw.mem, hw.table, e0, Effects(hw.trace), ws[..i])
      invariant ReadsBack(m0, hw.table, ws, i)
    {
      var w := hw.SetAfter(ws[i].0, ws[i].1, m0, e0, ws[..i]);
      if w.Err? {
        return Err(w.error);
      }
      assert ws[..i] + [(ws[i].0, ws[i].1)] == ws[..i + 1];
      var back := hw.Get(ws[i].0);
      if back.Err? {
        return Err(back.error);
      }
      if back.value != ws[i].1 {
        assert !ReadBackOk(m0, hw.table, ws, i);
        return Err(RuntimeError(Mismatch));
      }
      assert ReadBackOk(m0, hw.table, ws, i);
      forall j | 0 <= j < i + 1
        ensures ReadBackOk(m0, hw.table, ws, j)
      {
        if j < i {
          PrefixMapped(m0, hw.table, ws, i, j + 1);
        }
      }
      i := i + 1;
    }
    assert ws[..i] == ws;
    r := Ok(());
  }

  /** A read-back fails only where the register cannot be read or the value does not
    * fit its field: `readReg` returns the written value cut to the field's width. */
  lemma ReadBackIff(m0: map<Word, Word>, table: map<string, Descriptor>, ws: seq<(string, Word)>, j: nat)
    requires j < |ws| && AllMapped(m0.Keys, table, ws[..j + 1])
    ensures ReadBackOk(m0, table, ws, j) <==>
            Contains(table[ws[j].0].permission, "r") &&
            And(ws[j].1, Shr(table[ws[j].0].mask, Tz(table[ws[j].0].mask))) == ws[j].1
  {
    PrefixMapped(m0, table, ws, j + 1, j);
    WriteRegsStep(m0, table, ws, j);
    var before := WriteAll(m0, table, ws[..j]);
    assert ws[..j + 1][j] == ws[j];
    ReadAfterWrite(before, table, ws[j].0, ws[j].1);
  }

  // ---------------------------------------------------------------------------
  // The phase-shift search

  /** The writes of a change of direction. */
  function TurnOf(t: Turn): seq<(string, Word)>
  {
    [(SHIFT_DIR, ShiftDir(t)), (GTH_SHIFT_DIR, 1 - ShiftDir(t))]
  }

  /** PA_MANUAL_SHIFT_DIR after a change of direction; PA_GTH_MANUAL_SHIFT_DIR is the
    * opposite. */
  function ShiftDir(t: Turn): Word
  {
    if t == ToNormal then 1 else 0
  }

  lemma TurnSplit(done: seq<(string, Word)>, t: Turn)
    ensures done + [(SHIFT_DIR, ShiftDir(t))] + [(GTH_SHIFT_DIR, 1 - ShiftDir(t))] == done + TurnOf(t)
  {
    Associative(done, [(SHIFT_DIR, ShiftDir(t))], [(GTH_SHIFT_DIR, 1 - ShiftDir(t))]);
  }

  function TurnWrites(ts: seq<Turn>): (ws: seq<(string, Word)>)
    ensures |ws| == 2 * |ts|
  {
    if ts == [] then [] else TurnWrites(ts[..|ts| - 1]) + TurnOf(ts[|ts| - 1])
  }

  /** The writes of one shift: the counter reset, the GTH shift, the PLL resets of its
    * lock check, then its changes of direction. */
  function ShiftWrites(m: Mode, o: Outcome): seq<(string, Word)>
  {
    [(CNT_RESET, 1), (SHIFT_EN, 1)] + PllResets(ReadAttempts(m)) + TurnWrites(o.turns)
  }

  /** Shift i, from state s, with the lock samples the readings give it. */
  function ShiftAt(b: Branch, m: Mode, rd: Readings, s: Search, i: nat): (o: Outcome)
    ensures o.stop ==> o.s.bestLock && !m.scan
  {
    Step(b, m, s, LockCount(CallReadings(rd, i + 1), ReadAttempts(m)), Bc0Reading(rd, i))
  }

  /** Where the search ends, the writes it made, and how many shifts it took. */
  datatype Run = Run(s: Search, writes: seq<(string, Word)>, shifts: nat)

  /** The loop from shift i on, after the writes `done` of the shifts before it: it
    * goes up to shift n, or up to the first shift that breaks the loop. The loop breaks
    * before its last shift only when it has found the best lock, and never in a scan. */
  function RunFrom(b: Branch, m: Mode, rd: Readings, s: Search, i: nat, n: nat, done: seq<(string, Word)>): (r: Run)
    requires i <= n
    ensures i <= r.shifts <= n
    ensures m.scan ==> r.shifts == n
    ensures r.shifts < n ==> r.s.bestLock && !m.scan
    decreases n - i
  {
    if i == n then Run(s, done, n)
    else
      var o := ShiftAt(b, m, rd, s, i);
      if o.stop then Run(o.s, done + ShiftWrites(m, o), i + 1)
      else RunFrom(b, m, rd, o.s, i + 1, n, done + ShiftWrites(m, o))
  }

  /** The whole search of ttcMMCMPhaseShift from its starting state. */
  function Search0(b: Branch, m: Mode, rd: Readings, s0: Search): Run
  {
    RunFrom(b, m, rd, s0, 0, MaxShift(m), [])
  }

  /** Started inside their ranges, the GTH count stays in [0, 39] and the MMCM count in
    * [0, 0xffff] for the whole search. */
  lemma {:induction false} RunKeepsRange(b: Branch, m: Mode, rd: Readings, s: Search, i: nat, n: nat, done: seq<(string, Word)>)
    requires i <= n && s.gth <= GTH_LAST && s.mmcm <= MMCM_LAST
    ensures RunFrom(b, m, rd, s, i, n, done).s.gth <= GTH_LAST && RunFrom(b, m, rd, s, i, n, done).s.mmcm <= MMCM_LAST
    decreases n - i
  {
    if i < n {
      var o := ShiftAt(b, m, rd, s, i);
      StepKeepsRange(b, m, s, LockCount(CallReadings(rd, i + 1), ReadAttempts(m)), Bc0Reading(rd, i));
      RunKeepsRange(b, m, rd, o.s, i + 1, n, done + ShiftWrites(m, o));
    }
  }

  /** Shift k sees every PLL reset of its lock check locked. */
  predicate LockedShift(m: Mode, rd: Readings, k: nat)
  {
    LockCount(CallReadings(rd, k + 1), ReadAttempts(m)) >= PLL_LOCK_READ_ATTEMPTS
  }

  /** Intended, PLL mode without `relock` or a scan: once every sample is locked, the
    * search turns back after 50 good samples and stops with the best lock after 75. */
  lemma {:induction false} PllSearchLocks(rd: Readings, s: Search, i: nat, n: nat, done: seq<(string, Word)>)
    requires !s.firstUnlock && s.bad == 0 && 0 <= s.good < 75 && s.reversing == (s.good >= 50)
    requires i + 75 - s.good <= n
    requires forall k :: i <= k < n ==> LockedShift(Mode(false, false, false), rd, k)
    ensures RunFrom(Intended, Mode(false, false, false), rd, s, i, n, done).s.bestLock
    ensures RunFrom(Intended, Mode(false, false, false), rd, s, i, n, done).shifts == i + 75 - s.good
    decreases 75 - s.good
  {
    var m := Mode(false, false, false);
    assert LockedShift(m, rd, i);
    LockedPllStep(s, LockCount(CallReadings(rd, i + 1), ReadAttempts(m)), Bc0Reading(rd, i));
    var o := ShiftAt(Intended, m, rd, s, i);
    if !o.stop {
      PllSearchLocks(rd, o.s, i + 1, n, done + ShiftWrites(m, o));
    }
  }

  /** The writes of a shift, in the order the loop body makes them. */
  lemma ShiftWritesAfter(done: seq<(string, Word)>, m: Mode, o: Outcome)
    ensures done + [(CNT_RESET, 1), (SHIFT_EN, 1)] + PllResets(ReadAttempts(m)) + TurnWrites(o.turns) ==
            done + ShiftWrites(m, o)
  {
    var l: seq<(string, Word)> := [(CNT_RESET, 1), (SHIFT_EN, 1)];
    Associative(done, l, PllResets(ReadAttempts(m)));
    Associative(done, l + PllResets(ReadAttempts(m)), TurnWrites(o.turns));
  }

  /** One change of direction, after the writes `done`. */
  method WriteTurn(hw: Hardware, t: Turn, ghost m0: map<Word, Word>, ghost e0: seq<Event>, ghost done: seq<(string, Word)>)
    returns (r: Result<()>)
    requires Performed(m0, hw.mem, hw.table, e0, Effects(hw.trace), done)
    modifies hw`mem, hw`faults, hw`trace
    ensures hw.mem.Keys == old(hw.mem).Keys
    ensures r.Ok? ==> Performed(m0, hw.mem, hw.table, e0, Effects(hw.trace), done + TurnOf(t))
    ensures r.Err? ==> AccessError(r.error)
  {
    var dir := ShiftDir(t);
    r := hw.SetAfter(SHIFT_DIR, dir, m0, e0, done);
    if r.Err? {
      return;
    }
    r := hw.SetAfter(GTH_SHIFT_DIR, 1 - dir, m0, e0, done + [(SHIFT_DIR, dir)]);
    TurnSplit(done, t);
  }

  /** The direction writes of a shift, after the writes `done`. */
  method WriteTurns(hw: Hardware, ts: seq<Turn>, ghost m0: map<Word, Word>, ghost e0: seq<Event>, ghost done: seq<(string, Word)>)
    returns (r: Result<()>)
    requires Performed(m0, hw.mem, hw.table, e0, Effects(hw.trace), done)
    modifies hw`mem, hw`faults, hw`trace
    ensures hw.mem.Keys == old(hw.mem).Keys
    ensures r.Ok? ==> Performed(m0, hw.mem, hw.table, e0, Effects(hw.trace), done + TurnWrites(ts))
    ensures r.Err? ==> AccessError(r.error)
    decreases |ts|
  {
    if ts == [] {
      assert done + [] == done;
      return Ok(());
    }
    var front, last := ts[..|ts| - 1], ts[|ts| - 1];
    r := WriteTurns(hw, front, m0, e0, done);
    if r.Err? {
      return;
    }
    r := WriteTurn(hw, last, m0, e0, done + TurnWrites(front));
    Associative(done, TurnWrites(front), TurnOf(last));
  }

  /** The start of a shift: the counter reset and the GTH shift, then the reads of the
    * two shift counts and, when the MMCM steps too, of its count under the short
    * name. */
  method ShiftLead(hw: Hardware, s: Search, ghost m0: map<Word, Word>, ghost e0: seq<Event>, ghost done: seq<(string, Word)>)
    returns (r: Result<()>)
    requires Performed(m0, hw.mem, hw.table, e0, Effects(hw.trace), done)
    modifies hw`mem, hw`faults, hw`trace
    ensures hw.mem.Keys == old(hw.mem).Keys
    ensures r.Ok? ==> Performed(m0, hw.mem, hw.table, e0, Effects(hw.trace), done + [(CNT_RESET, 1), (SHIFT_EN, 1)])
    ensures r.Err? ==> AccessError(r.error)
  {
    r := hw.SetAfter(CNT_RESET, 1, m0, e0, done);
    if r.Err? {
      return;
    }
    r := hw.SetAfter(SHIFT_EN, 1, m0, e0, done + [(CNT_RESET, 1)]);
    if r.Err? {
      return;
    }
    assert done + [(CNT_RESET, 1)] + [(SHIFT_EN, 1)] == done + [(CNT_RESET, 1), (SHIFT_EN, 1)];
    r := CountReads(hw, s);
  }

  /** The reads of the two shift counts and, when the MMCM steps too, of its count under
    * the short name. */
  method CountReads(hw: Hardware, s: Search) returns (r: Result<()>)
    modifies hw`faults, hw`trace
    ensures r.Err? ==> AccessError(r.error)
    ensures Effects(hw.trace) == Effects(old(hw.trace))
  {
    var g := hw.Get(GTH_SHIFT_CNT);
    if g.Err? {
      return Err(g.error);
    }
    var c := hw.Get(MMCM_SHIFT_CNT);
    if c.Err? {
      return Err(c.error);
    }
    var p := Shifted(s);
    if ShiftTable((p.gth + 1) % WORD) {
      var x := hw.Get(SHORT_MMCM_SHIFT_CNT);
      if x.Err? {
        return Err(x.error);
      }
    }
    r := Ok(());
  }

  /** The status reads after the lock check: the MMCM phase mean, the GTH phase mean
    * under its short name, and BC0.LOCKED. */
  method StatusReads(hw: Hardware) returns (r: Result<()>)
    modifies hw`faults, hw`trace
    ensures r.Err? ==> AccessError(r.error)
    ensures Effects(hw.trace) == Effects(old(hw.trace))
  {
    var x := hw.Get(PHASE_MEAN);
    if x.Err? {
      return Err(x.error);
    }
    x := hw.Get(SHORT_GTH_PHASE_MEAN);
    if x.Err? {
      return Err(x.error);
    }
    x := hw.Get(BC0_LOCKED);
    if x.Err? {
      return Err(x.error);
    }
    r := Ok(());
  }

  /** checkPLLLock after the writes `done`. */
  method LockCheckAfter(hw: Hardware, readAttempts: Word, locked: seq<bool>,
                     ghost m0: map<Word, Word>, ghost e0: seq<Event>, ghost done: seq<(string, Word)>)
    returns (r: Result<Word>)
    requires Performed(m0, hw.mem, hw.table, e0, Effects(hw.trace), done)
    modifies hw`mem, hw`faults, hw`trace
    ensures hw.mem.Keys == old(hw.mem).Keys
    ensures r.Ok? ==> r.value == LockCount(locked, readAttempts) &&
                      Performed(m0, hw.mem, hw.table, e0, Effects(hw.trace), done + PllResets(readAttempts))
    ensures r.Err? ==> AccessError(r.error)
  {
    ghost var m1, e1 := hw.mem, Effects(hw.trace);
    r := CheckPllLock(hw, readAttempts, locked);
    if r.Ok? {
      PerformedStep(m0, m1, hw.mem, hw.table, e0, e1, Effects(hw.trace), done, PllResets(readAttempts));
    }
  }

  /** The middle of a shift, after the writes `done`: the lock check, then the status
    * reads. */
  method LockSample(hw: Hardware, readAttempts: Word, locked: seq<bool>,
                    ghost m0: map<Word, Word>, ghost e0: seq<Event>, ghost done: seq<(string, Word)>)
    returns (r: Result<Word>)
    requires Performed(m0, hw.mem, hw.table, e0, Effects(hw.trace), done)
    modifies hw`mem, hw`faults, hw`trace
    ensures hw.mem.Keys == old(hw.mem).Keys
    ensures r.Ok? ==> r.value == LockCount(locked, readAttempts) &&
                      Performed(m0, hw.mem, hw.table, e0, Effects(hw.trace), done + PllResets(readAttempts))
    ensures r.Err? ==> AccessError(r.error)
  {
    r := LockCheckAfter(hw, readAttempts, locked, m0, e0, done);
    if r.Err? {
      return;
    }
    var st := StatusReads(hw);
    if st.Err? {
      return Err(st.error);
    }
  }

  /** One iteration of the main loop, shift i, after the writes `done`. */
  method ShiftOnce(hw: Hardware, b: Branch, m: Mode, rd: Readings, s: Search, i: nat,
                   ghost m0: map<Word, Word>, ghost e0: seq<Event>, ghost done: seq<(string, Word)>)
    returns (r: Result<Outcome>)
    requires Performed(m0, hw.mem, hw.table, e0, Effects(hw.trace), done)
    modifies hw`mem, hw`faults, hw`trace
    ensures hw.mem.Keys == old(hw.mem).Keys
    ensures r.Ok? ==> r.value == ShiftAt(b, m, rd, s, i) &&
                      Performed(m0, hw.mem, hw.table, e0, Effects(hw.trace), done + ShiftWrites(m, r.value))
    ensures r.Err? ==> AccessError(r.error)
  {
    var lead := ShiftLead(hw, s, m0, e0, done);
    if lead.Err? {
      return Err(lead.error);
    }
    ghost var d1 := done + [(CNT_RESET, 1), (SHIFT_EN, 1)];
    var cnt := LockSample(hw, ReadAttempts(m), CallReadings(rd, i + 1), m0, e0, d1);
    if cnt.Err? {
      return Err(cnt.error);
    }
    var o := Step(b, m, s, cnt.value, Bc0Reading(rd, i));
    var t := WriteTurns(hw, o.turns, m0, e0, d1 + PllResets(ReadAttempts(m)));
    if t.Err? {
      return Err(t.error);
    }
    ShiftWritesAfter(done, m, o);
    r := Ok(o);
  }

  /** Shift i of the search `R` has reached, after the writes `done`: where the search
    * goes from here. */
  method Advance(hw: Hardware, b: Branch, m: Mode, rd: Readings, s: Search, i: nat, n: nat,
                 ghost m0: map<Word, Word>, ghost e0: seq<Event>, ghost done: seq<(string, Word)>, ghost R: Run)
    returns (r: Result<Outcome>)
    requires i < n && R == RunFrom(b, m, rd, s, i, n, done)
    requires Performed(m0, hw.mem, hw.table, e0, Effects(hw.trace), done)
    modifies hw`mem, hw`faults, hw`trace
    ensures hw.mem.Keys == old(hw.mem).Keys
    ensures r.Ok? ==> Performed(m0, hw.mem, hw.table, e0, Effects(hw.trace), done + ShiftWrites(m, r.value))
    ensures r.Ok? && r.value.stop ==> R.s == r.value.s && R.writes == done + ShiftWrites(m, r.value)
    ensures r.Ok? && !r.value.stop ==> R == RunFrom(b, m, rd, r.value.s, i + 1, n, done + ShiftWrites(m, r.value))
    ensures r.Err? ==> AccessError(r.error)
  {
    r := ShiftOnce(hw, b, m, rd, s, i, m0, e0, done);
  }

  /** The main loop of ttcMMCMPhaseShift: at most MaxShift shifts, ending at the first
    * that breaks. The PLL branch `b` is a parameter so that the loop can be run with
    * the intended branch too; ttcMMCMPhaseShift runs it as written. */
  method PhaseSearch(hw: Hardware, b: Branch, m: Mode, rd: Readings, s0: Search) returns (r: Result<Search>)
    modifies hw`mem, hw`faults, hw`trace
    ensures hw.mem.Keys == old(hw.mem).Keys
    ensures r.Ok? ==> r.value == Search0(b, m, rd, s0).s &&
                      Performed(old(hw.mem), hw.mem, hw.table, Effects(old(hw.trace)), Effects(hw.trace), Search0(b, m, rd, s0).writes)
    ensures r.Err? ==> AccessError(r.error)
  {
    PerformedNothing(hw.mem, hw.table, Effects(hw.trace));
    r := SearchLoop(hw, b, m, rd, s0, MaxShift(m), hw.mem, Effects(hw.trace), Search0(b, m, rd, s0));
  }

  /** The loop of PhaseSearch, for n shifts, whose search is R. */
  method SearchLoop(hw: Hardware, b: Branch, m: Mode, rd: Readings, s0: Search, n: nat,
                    ghost m0: map<Word, Word>, ghost e0: seq<Event>, ghost R: Run) returns (r: Result<Search>)
    requires R == RunFrom(b, m, rd, s0, 0, n, [])
    requires Performed(m0, hw.mem, hw.table, e0, Effects(hw.trace), [])
    modifies hw`mem, hw`faults, hw`trace
    ensures hw.mem.Keys == old(hw.mem).Keys
    ensures r.Ok? ==> r.value == R.s && Performed(m0, hw.mem, hw.table, e0, Effects(hw.trace), R.writes)
    ensures r.Err? ==> AccessError(r.error)
  {
    ghost var done: seq<(string, Word)> := [];
    var s := s0;
    var i := 0;
    while i < n
      invariant i <= n
      invariant hw.mem.Keys == old(hw.mem).Keys
      invariant Performed(m0, hw.mem, hw.table, e0, Effects(hw.trace), done)
      invariant R == RunFrom(b, m, rd, s, i, n, done)
    {
      var o := Advance(hw, b, m, rd, s, i, n, m0, e0, done, R);
      if o.Err? {
        return Err(o.error);
      }
      done := done + ShiftWrites(m, o.value);
      if o.value.stop {
        return Ok(o.value.s);
      }
      s := o.value.s;
      i := i + 1;
    }
    RunEnd(b, m, rd, s, n, done);
    r := Ok(s);
  }

  /** A run with no shift left ends where it stands. */
  lemma RunEnd(b: Branch, m: Mode, rd: Readings, s: Search, n: nat, done: seq<(string, Word)>)
    ensures RunFrom(b, m, rd, s, n, n, done) == Run(s, done, n)
  {
  }

  /** The memory after the control registers are written. */
  function Controlled(m0: map<Word, Word>, table: map<string, Descriptor>): map<Word, Word>
    requires AllMapped(m0.Keys, table, ControlWrites())
  {
    WriteAll(m0, table, ControlWrites())
  }

  /** The set-up of ttcMMCMPhaseShift went through: every control register read back
    * its value, automatic phase alignment reads as disabled, and both shift counts are
    * readable. */
  predicate SetUp(m0: map<Word, Word>, table: map<string, Descriptor>)
  {
    AllMapped(m0.Keys, table, ControlWrites()) && ReadsBack(m0, table, ControlWrites(), |ControlWrites()|) &&
    Readable(Controlled(m0, table), table, DISABLE_PHASE_ALIGNMENT) &&
    RegValue(Controlled(m0, table), table, DISABLE_PHASE_ALIGNMENT) != 0 &&
    Readable(Controlled(m0, table), table, MMCM_SHIFT_CNT) && Readable(Controlled(m0, table), table, GTH_SHIFT_CNT)
  }

  /** The state the search starts from: the two shift counts after the set-up. */
  function StartOf(m0: map<Word, Word>, table: map<string, Descriptor>): Search
    requires SetUp(m0, table)
  {
    var mc := Controlled(m0, table);
    Start(RegValue(mc, table, GTH_SHIFT_CNT), RegValue(mc, table, MMCM_SHIFT_CNT))
  }

  /** The writes of ttcMMCMPhaseShift once set up: the controls, the lock check before the
    * loop, the search, and MMCM_RESET when it found a lock. */
  function PhaseShiftWrites(m: Mode, rd: Readings, m0: map<Word, Word>, table: map<string, Descriptor>): seq<(string, Word)>
    requires SetUp(m0, table)
  {
    var run := Search0(AsWritten, m, rd, StartOf(m0, table));
    ControlWrites() + PllResets(ReadAttempts(m)) + run.writes + (if run.s.bestLock then [(MMCM_RESET, 1)] else [])
  }

  /** The set-up of ttcMMCMPhaseShift: the control registers with their read-back, the
    * check of DISABLE_PHASE_ALIGNMENT, and the reads of the two shift counts. */
  method PhaseShiftSetUp(hw: Hardware) returns (r: Result<Search>)
    modifies hw`mem, hw`faults, hw`trace
    ensures hw.mem.Keys == old(hw.mem).Keys
    ensures r.Ok? ==> SetUp(old(hw.mem), hw.table) && r.value == StartOf(old(hw.mem), hw.table) &&
                      Performed(old(hw.mem), hw.mem, hw.table, Effects(old(hw.trace)), Effects(hw.trace), ControlWrites())
    ensures r.Err? ==> r.error in {RuntimeError(Mismatch), RuntimeError(AlignmentOff)} || AccessError(r.error)
  {
    var w := WriteVerified(hw, ControlWrites());
    if w.Err? {
      return Err(w.error);
    }
    var dis := hw.Get(DISABLE_PHASE_ALIGNMENT);
    if dis.Err? {
      return Err(dis.error);
    }
    if dis.value == 0 {
      return Err(RuntimeError(AlignmentOff));
    }
    var mmcm := hw.Get(MMCM_SHIFT_CNT);
    if mmcm.Err? {
      return Err(mmcm.error);
    }
    var gth := hw.Get(GTH_SHIFT_CNT);
    if gth.Err? {
      return Err(gth.error);
    }
    r := Ok(Start(gth.value, mmcm.value));
  }

  /** What follows the set-up, after its writes `done`: the lock check before the
    * loop, whose count the loop overwrites unread, the search, and MMCM_RESET when it
    * found the best lock. */
  method SearchAndReset(hw: Hardware, b: Branch, m: Mode, rd: Readings, s0: Search,
                        ghost m0: map<Word, Word>, ghost e0: seq<Event>, ghost done: seq<(string, Word)>)
    returns (r: Result<()>)
    requires Performed(m0, hw.mem, hw.table, e0, Effects(hw.trace), done)
    modifies hw`mem, hw`faults, hw`trace
    ensures hw.mem.Keys == old(hw.mem).Keys
    ensures r.Ok? || r == Err(RuntimeError(NoLock)) ==>
              var run := Search0(b, m, rd, s0);
              run.s.bestLock == r.Ok? &&
              Performed(m0, hw.mem, hw.table, e0, Effects(hw.trace),
                        done + PllResets(ReadAttempts(m)) + run.writes + (if run.s.bestLock then [(MMCM_RESET, 1)] else []))
    ensures r.Err? ==> r.error == RuntimeError(NoLock) || AccessError(r.error)
  {
    var c := LockCheckAfter(hw, ReadAttempts(m), CallReadings(rd, 0), m0, e0, done);
    if c.Err? {
      return Err(c.error);
    }
    ghost var d1 := done + PllResets(ReadAttempts(m));
    ghost var m2, e2 := hw.mem, Effects(hw.trace);
    var f := PhaseSearch(hw, b, m, rd, s0);
    if f.Err? {
      return Err(f.error);
    }
    ghost var run := Search0(b, m, rd, s0);
    PerformedStep(m0, m2, hw.mem, hw.table, e0, e2, Effects(hw.trace), d1, run.writes);
    if !f.value.bestLock {
      assert d1 + run.writes + [] == d1 + run.writes;
      return Err(RuntimeError(NoLock));
    }
    r := hw.SetAfter(MMCM_RESET, 1, m0, e0, d1 + run.writes);
  }

  /** ttcMMCMPhaseShift(relock, modeBC0, scan): the set-up, a lock check, the search,
    * then MMCM_RESET when the search found the best lock, and "Unable to find lock"
    * otherwise. */
  method TtcMmcmPhaseShift(hw: Hardware, relock: bool, modeBC0: bool, scan: bool, rd: Readings) returns (r: Result<()>)
    modifies hw`mem, hw`faults, hw`trace
    ensures hw.mem.Keys == old(hw.mem).Keys
    ensures r.Ok? || r == Err(RuntimeError(NoLock)) ==>
              SetUp(old(hw.mem), hw.table) &&
              Search0(AsWritten, Mode(relock, modeBC0, scan), rd, StartOf(old(hw.mem), hw.table)).s.bestLock == r.Ok? &&
              Performed(old(hw.mem), hw.mem, hw.table, Effects(old(hw.trace)), Effects(hw.trace),
                        PhaseShiftWrites(Mode(relock, modeBC0, scan), rd, old(hw.mem), hw.table))
    ensures r.Err? ==> r.error in {RuntimeError(Mismatch), RuntimeError(AlignmentOff), RuntimeError(NoLock)} || AccessError(r.error)
  {
    ghost var m0, e0 := hw.mem, Effects(hw.trace);
    var s0 := PhaseShiftSetUp(hw);
    if s0.Err? {
      return Err(s0.error);
    }
    r := SearchAndReset(hw, AsWritten, Mode(relock, modeBC0, scan), rd, s0.value, m0, e0, ControlWrites());
  }

  /** As written, PLL mode without `relock` never finds the best lock: no shift after
    * i acts on its sample. */
  lemma {:induction false} PllNoRelockNeverLocksAsWritten(m: Mode, rd: Readings, s: Search, i: nat, n: nat,
                                                          done: seq<(string, Word)>)
    requires !m.modeBC0 && !m.relock && i < n && !s.firstUnlock
    ensures !RunFrom(AsWritten, m, rd, s, i, n, done).s.bestLock
    decreases n - i
  {
    var c := LockCount(CallReadings(rd, i + 1), ReadAttempts(m));
    PllAsWrittenNoRelockStalls(m.scan, Shifted(s), c);
    var o := ShiftAt(AsWritten, m, rd, s, i);
    if i + 1 < n {
      PllNoRelockNeverLocksAsWritten(m, rd, o.s, i + 1, n, done + ShiftWrites(m, o));
    }
  }

  /** As written, ttcMMCMPhaseShift in PLL mode without `relock` always ends in "Unable
    * to find lock", however the PLL locks: its search, from the state the set-up
    * leaves, never has the best lock. */
  lemma PllNoRelockThrowsAsWritten(scan: bool, rd: Readings, gth: Word, mmcm: Word)
    ensures !Search0(AsWritten, Mode(false, false, scan), rd, Start(gth, mmcm)).s.bestLock
  {
    PllNoRelockNeverLocksAsWritten(Mode(false, false, scan), rd, Start(gth, mmcm), 0, MaxShift(Mode(false, false, scan)), []);
  }

  /** Intended, the same call with every sample locked finds the best lock after 75
    * shifts. */
  lemma PllNoRelockLocks(rd: Readings, gth: Word, mmcm: Word)
    requires forall k :: 0 <= k < MaxShift(Mode(false, false, false)) ==> LockedShift(Mode(false, false, false), rd, k)
    ensures Search0(Intended, Mode(false, false, false), rd, Start(gth, mmcm)).s.bestLock
    ensures Search0(Intended, Mode(false, false, false), rd, Start(gth, mmcm)).shifts == 75
  {
    PllSearchLocks(rd, Start(gth, mmcm), 0, MaxShift(Mode(false, false, false)), []);
  }

  // ---------------------------------------------------------------------------
  // getTTCCounter

  const CMD_COUNTERS: string := "GEM_AMC.TTC.CMD_COUNTERS."
  const COUNTERS: seq<string> := ["L1A", "BC0", "EC0", "RESYNC", "OC0", "HARD_RESET", "CALPULSE", "START", "STOP", "TEST_SYNC"]

  /** The ten counter registers, in command order. */
  function CounterRegs(): (names: seq<string>)
    ensures |names| == 10
  {
    seq(10, k requires 0 <= k < 10 => CMD_COUNTERS + COUNTERS[k])
  }

  /** The switch of getTTCCounter: commands 1 to 10 name the ten counters in order, any
    * other command the L1A counter. */
  function CounterOf(cmd: Byte): (name: string)
    ensures 1 <= cmd <= 10 ==> name == CounterRegs()[cmd - 1]
    ensures !(1 <= cmd <= 10) ==> name == CounterRegs()[0]
  {
    match cmd
    case 1 => CMD_COUNTERS + "L1A"
    case 2 => CMD_COUNTERS + "BC0"
    case 3 => CMD_COUNTERS + "EC0"
    case 4 => CMD_COUNTERS + "RESYNC"
    case 5 => CMD_COUNTERS + "OC0"
    case 6 => CMD_COUNTERS + "HARD_RESET"
    case 7 => CMD_COUNTERS + "CALPULSE"
    case 8 => CMD_COUNTERS + "START"
    case 9 => CMD_COUNTERS + "STOP"
    case 10 => CMD_COUNTERS + "TEST_SYNC"
    case _ => CMD_COUNTERS + "L1A"
  }

  /** getTTCCounter: the selected counter; the default branch first reads all ten
    * (into a map it discards). */
  method GetTtcCounter(hw: Hardware, cmd: Byte) returns (r: Result<Word>)
    modifies hw`faults, hw`trace
    ensures r.Ok? ==> Readable(hw.mem, hw.table, CounterOf(cmd)) && r.value == RegValue(hw.mem, hw.table, CounterOf(cmd))
    ensures r.Ok? && !(1 <= cmd <= 10) ==> AllReadable(hw.mem, hw.table, CounterRegs())
    ensures r.Err? ==> r.error.RuntimeError?
    ensures Effects(hw.trace) == Effects(old(hw.trace))
  {
    if !(1 <= cmd <= 10) {
      var all := hw.ReadRegs(CounterRegs());
      if all.Err? {
        return Err(all.error);
      }
    }
    r := hw.Get(CounterOf(cmd));
  }

  // ---------------------------------------------------------------------------
  // The one-register operations

  const L1A_ENABLE: string := "GEM_AMC.TTC.CTRL.L1A_ENABLE"
  const SINGLE_ERROR_CNT: string := "GEM_AMC.TTC.STATUS.TTC_SINGLE_ERROR_CNT"
  const DOUBLE_ERROR_CNT: string := "GEM_AMC.TTC.STATUS.TTC_DOUBLE_ERROR_CNT"

  /** ttcMMCMReset: MMCM_RESET = 1. */
  method TtcMmcmReset(hw: Hardware) returns (r: Result<()>)
    modifies hw`mem, hw`faults, hw`trace
    ensures r.Ok? ==> Mapped(old(hw.mem).Keys, hw.table, MMCM_RESET) && hw.mem == RegWritten(old(hw.mem), hw.table, MMCM_RESET, 1) &&
                      Effects(hw.trace) == Effects(old(hw.trace)) + [Write(MMCM_RESET, 1)]
    ensures r.Err? ==> hw.mem == old(hw.mem) && AccessError(r.error)
  {
    r := hw.Set(MMCM_RESET, 1);
  }

  /** ttcCounterReset: CNT_RESET = 1. */
  method TtcCounterReset(hw: Hardware) returns (r: Result<()>)
    modifies hw`mem, hw`faults, hw`trace
    ensures r.Ok? ==> Mapped(old(hw.mem).Keys, hw.table, CNT_RESET) && hw.mem == RegWritten(old(hw.mem), hw.table, CNT_RESET, 1) &&
                      Effects(hw.trace) == Effects(old(hw.trace)) + [Write(CNT_RESET, 1)]
    ensures r.Err? ==> hw.mem == old(hw.mem) && AccessError(r.error)
  {
    r := hw.Set(CNT_RESET, 1);
  }

  /** The word `int(enable)` that setL1AEnable writes. */
  function EnableWord(enable: bool): Word
  {
    if enable then 1 else 0
  }

  /** setL1AEnable(enable): L1A_ENABLE = 1 or 0. */
  method SetL1AEnable(hw: Hardware, enable: bool) returns (r: Result<()>)
    modifies hw`mem, hw`faults, hw`trace
    ensures r.Ok? ==> Mapped(old(hw.mem).Keys, hw.table, L1A_ENABLE) &&
                      hw.mem == RegWritten(old(hw.mem), hw.table, L1A_ENABLE, EnableWord(enable)) &&
                      Effects(hw.trace) == Effects(old(hw.trace)) + [Write(L1A_ENABLE, EnableWord(enable))]
    ensures r.Err? ==> hw.mem == old(hw.mem) && AccessError(r.error)
  {
    r := hw.Set(L1A_ENABLE, EnableWord(enable));
  }

  /** getL1AEnable: whether L1A_ENABLE reads as non-zero. */
  method GetL1AEnable(hw: Hardware) returns (r: Result<bool>)
    modifies hw`faults, hw`trace
    ensures r.Ok? ==> Readable(hw.mem, hw.table, L1A_ENABLE) && r.value == (RegValue(hw.mem, hw.table, L1A_ENABLE) != 0)
    ensures r.Err? ==> AccessError(r.error)
    ensures Effects(hw.trace) == Effects(old(hw.trace))
  {
    var x := hw.Get(L1A_ENABLE);
    if x.Err? {
      return Err(x.error);
    }
    r := Ok(x.value != 0);
  }

  /** getL1AEnable after setL1AEnable(enable) gives back enable, on any register whose
    * mask is not empty: bit 0 of the field always survives the mask. */
  lemma L1AEnableRoundTrip(mem: map<Word, Word>, table: map<string, Descriptor>, enable: bool)
    requires Readable(mem, table, L1A_ENABLE) && table[L1A_ENABLE].mask != 0
    ensures (RegValue(RegWritten(mem, table, L1A_ENABLE, EnableWord(enable)), table, L1A_ENABLE) != 0) == enable
  {
    var mask := table[L1A_ENABLE].mask;
    ReadAfterWrite(mem, table, L1A_ENABLE, EnableWord(enable));
    var f := Shr(mask, Tz(mask));
    if enable {
      TzAt(mask);
      BitShr(mask, Tz(mask), 0);
      assert f % 2 == 1;
      AndOne(f);
      assert f <= mask;
      AndComm(1, f);
    }
  }

  /** getTTCErrorCount(single): the single-error or the double-error counter. */
  method GetTtcErrorCount(hw: Hardware, single: bool) returns (r: Result<Word>)
    modifies hw`faults, hw`trace
    ensures var name := if single then SINGLE_ERROR_CNT else DOUBLE_ERROR_CNT;
      r.Ok? ==> Readable(hw.mem, hw.table, name) && r.value == RegValue(hw.mem, hw.table, name)
    ensures r.Err? ==> AccessError(r.error)
    ensures Effects(hw.trace) == Effects(old(hw.trace))
  {
    if single {
      r := hw.Get(SINGLE_ERROR_CNT);
    } else {
      r := hw.Get(DOUBLE_ERROR_CNT);
    }
  }

  /** getTTCStatus: BC0.LOCKED, standing in for the whole status. */
  method GetTtcStatus(hw: Hardware) returns (r: Result<Word>)
    modifies hw`faults, hw`trace
    ensures r.Ok? ==> Readable(hw.mem, hw.table, BC0_LOCKED) && r.value == RegValue(hw.mem, hw.table, BC0_LOCKED)
    ensures r.Err? ==> AccessError(r.error)
    ensures Effects(hw.trace) == Effects(old(hw.trace))
  {
    r := hw.Get(BC0_LOCKED);
  }
}
