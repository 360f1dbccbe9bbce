/** The Slow Control ASIC interface of src/amc/sca.cpp: SCA data words are re-ordered
  * for the HDLC link, a command is six register writes ending with EXECUTE, replies
  * are read from one register per optical link, and every command sequence runs with
  * the ADC monitoring switched off and restored afterwards.
  *
  * The numeric SCA channel and command codes live in sca_enums.h, which is not part
  * of this model; they are the parameter `Codes`. */
module Sca {

  import opened Wrappers
  import opened Bits
  import opened Packing
  import opened Text
  import opened ErrorCounters
  import opened Registers

  const SCA: string := "GEM_AMC.SLOW_CONTROL.SCA."
  const MANUAL: string := SCA + "MANUAL_CONTROL."
  const MONITORING_OFF: string := SCA + "ADC_MONITORING.MONITORING_OFF"
  const RESET_ENABLE_MASK: string := SCA + "CTRL.SCA_RESET_ENABLE_MASK"
  const MODULE_RESET: string := SCA + "CTRL.MODULE_RESET"

  // ---------------------------------------------------------------------------
  // formatSCAData

  /** `formatSCAData(data)`, term by term as written. */
  function FormatSCAData(data: Word): Word
  {
    Add32(Add32(Add32(Shr(And(data, 0xff00_0000), 24), And(Shr(data, 8), 0xff00)),
                Shl(And(data, 0xff00), 8)),
          Shl(And(data, 0xff), 24))
  }

  /** Byte i of a word, byte 0 the least significant. */
  function ByteOf(d: Word, i: nat): Byte
    requires i < 4
  {
    if i == 0 then d % 0x100
    else if i == 1 then d / 0x100 % 0x100
    else if i == 2 then d / 0x1_0000 % 0x100
    else d / 0x100_0000
  }

  /** The word with bytes b0 (least significant) to b3. */
  function FromBytes(b0: Byte, b1: Byte, b2: Byte, b3: Byte): Word
  {
    b0 + 0x100 * b1 + 0x1_0000 * b2 + 0x100_0000 * b3
  }

  /** A word is its four bytes put together. */
  lemma BytesCompose(d: Word)
    ensures FromBytes(ByteOf(d, 0), ByteOf(d, 1), ByteOf(d, 2), ByteOf(d, 3)) == d
  {
    var q1, q2 := d / 0x100, d / 0x1_0000;
    var b0, b1, b2 := d % 0x100, q1 % 0x100, q2 % 0x100;
    assert d == b0 + 0x100 * q1;
    assert q1 == b1 + 0x100 * (q1 / 0x100);
    DivModUnique(d, 0x1_0000, b0 + 0x100 * b1, q1 / 0x100);
    assert q2 == b2 + 0x100 * (q2 / 0x100);
    DivModUnique(d, 0x100_0000, b0 + 0x100 * b1 + 0x1_0000 * b2, q2 / 0x100);
  }

  /** The bytes of a word put together are the bytes it was made of. */
  lemma BytesOfFromBytes(b0: Byte, b1: Byte, b2: Byte, b3: Byte)
    ensures var d := FromBytes(b0, b1, b2, b3);
      ByteOf(d, 0) == b0 && ByteOf(d, 1) == b1 && ByteOf(d, 2) == b2 && ByteOf(d, 3) == b3
  {
    var d := FromBytes(b0, b1, b2, b3);
    DivModUnique(d, 0x100, b0, b1 + 0x100 * b2 + 0x1_0000 * b3);
    DivModUnique(d, 0x1_0000, b0 + 0x100 * b1, b2 + 0x100 * b3);
    DivModUnique(d, 0x100_0000, b0 + 0x100 * b1 + 0x1_0000 * b2, b3);
    DivModUnique(b1 + 0x100 * b2 + 0x1_0000 * b3, 0x100, b1, b2 + 0x100 * b3);
    DivModUnique(b2 + 0x100 * b3, 0x100, b2, b3);
  }

  /** The four bytes in the opposite order. */
  function ByteSwap(d: Word): Word
  {
    FromBytes(ByteOf(d, 3), ByteOf(d, 2), ByteOf(d, 1), ByteOf(d, 0))
  }

  lemma HighByte(d: Word)
    ensures Shr(And(d, 0xff00_0000), 24) == ByteOf(d, 3)
  {
    Pow2Values();
    var b3: nat := ByteOf(d, 3);
    AndField(d, 24, 8);
    assert And(d, 0xff00_0000) == b3 * 0x100_0000;
    LowBits(b3 * 0x100_0000, 24);
    DivModUnique(b3 * 0x100_0000, 0x100_0000, 0, b3);
  }

  lemma SecondByte(d: Word)
    ensures And(Shr(d, 8), 0xff00) == ByteOf(d, 2) * 0x100
  {
    Pow2Values();
    var q: nat := d / 0x100;
    LowBits(d, 8);
    AndField(q, 8, 8);
    DivDiv256(d);
    assert And(Shr(d, 8), 0xff00) == q / 0x100 % 0x100 * 0x100;
  }

  lemma ThirdByte(d: Word)
    ensures Shl(And(d, 0xff00), 8) == ByteOf(d, 1) * 0x1_0000
  {
    Pow2Values();
    var b1: nat := ByteOf(d, 1);
    AndField(d, 8, 8);
    var x := And(d, 0xff00);
    assert x == b1 * 0x100;
    ShlFits(x, 8);
  }

  lemma LowByte(d: Word)
    ensures Shl(And(d, 0xff), 24) == ByteOf(d, 0) * 0x100_0000
  {
    Pow2Values();
    var b0: nat := ByteOf(d, 0);
    LowBits(d, 8);
    assert And(d, 0xff) == b0;
    ShlFits(b0, 24);
  }

  /** `formatSCAData` reverses the byte order: the firmware's [7:0][15:8][23:16][31:24]
    * layout of the 32-bit HDLC payload. */
  lemma FormatIsByteSwap(d: Word)
    ensures FormatSCAData(d) == ByteSwap(d)
  {
    HighByte(d);
    SecondByte(d);
    ThirdByte(d);
    LowByte(d);
  }

  lemma DivDiv256(d: nat)
    ensures d / 0x100 / 0x100 == d / 0x1_0000
  {
    var q := d / 0x100;
    DivModUnique(d, 0x1_0000, d % 0x100 + 0x100 * (q % 0x100), q / 0x100);
  }

  /** Swapping the bytes twice gives the word back. */
  lemma ByteSwapTwice(d: Word)
    ensures ByteSwap(ByteSwap(d)) == d
  {
    BytesOfFromBytes(ByteOf(d, 3), ByteOf(d, 2), ByteOf(d, 1), ByteOf(d, 0));
    BytesCompose(d);
  }

  /** Applying `formatSCAData` twice is the identity, so a reply formatted on the way
    * in is the firmware's word formatted back. */
  lemma FormatInvolution(d: Word)
    ensures FormatSCAData(FormatSCAData(d)) == d
  {
    FormatIsByteSwap(d);
    FormatIsByteSwap(ByteSwap(d));
    ByteSwapTwice(d);
  }

  // ---------------------------------------------------------------------------
  // Commands

  /** One call of `sendSCACommand` (`reply` false) or `sendSCACommandWithReply`. */
  datatype Send = Send(reply: bool, ch: Byte, cmd: Byte, len: Byte, data: Word)

  /** Write number k of `sendSCACommand(ch, cmd, len, data, ohMask)`. */
  function CommandWrite(s: Send, ohMask: U16, k: nat): (string, Word)
    requires k < 6
  {
    if k == 0 then (MANUAL + "LINK_ENABLE_MASK", ohMask)
    else if k == 1 then (MANUAL + "SCA_CMD.SCA_CMD_CHANNEL", s.ch)
    else if k == 2 then (MANUAL + "SCA_CMD.SCA_CMD_COMMAND", s.cmd)
    else if k == 3 then (MANUAL + "SCA_CMD.SCA_CMD_LENGTH", s.len)
    else if k == 4 then (MANUAL + "SCA_CMD.SCA_CMD_DATA", FormatSCAData(s.data))
    else (MANUAL + "SCA_CMD.SCA_CMD_EXECUTE", 1)
  }

  /** The writes of `sendSCACommand(ch, cmd, len, data, ohMask)`, in order. */
  function CommandWrites(s: Send, ohMask: U16): seq<(string, Word)>
  {
    seq(6, k requires 0 <= k < 6 => CommandWrite(s, ohMask, k))
  }

  /** A command is six writes: the link mask and the four parameters, the data in
    * HDLC byte order, and only then EXECUTE = 1, written once. */
  lemma CommandOrder(s: Send, ohMask: U16)
    ensures var ws := CommandWrites(s, ohMask);
      |ws| == 6 && ws[5] == (MANUAL + "SCA_CMD.SCA_CMD_EXECUTE", 1) &&
      (forall i :: 0 <= i < 5 ==> ws[i].0 != MANUAL + "SCA_CMD.SCA_CMD_EXECUTE") &&
      ws[0].1 == ohMask && ws[1].1 == s.ch && ws[2].1 == s.cmd && ws[3].1 == s.len &&
      FormatSCAData(ws[4].1) == s.data
  {
    FormatInvolution(s.data);
    forall i | 0 <= i < 5
      ensures CommandWrite(s, ohMask, i).0 != MANUAL + "SCA_CMD.SCA_CMD_EXECUTE"
    {
      NotExecute(s, ohMask, i);
    }
  }

  lemma NotExecute(s: Send, ohMask: U16, i: nat)
    requires i < 5
    ensures CommandWrite(s, ohMask, i).0 != MANUAL + "SCA_CMD.SCA_CMD_EXECUTE"
  {
    var n, e := CommandWrite(s, ohMask, i).0, MANUAL + "SCA_CMD.SCA_CMD_EXECUTE";
    if i == 0 {
      assert n[|MANUAL|] != e[|MANUAL|];
    } else {
      assert n[|MANUAL| + 16] != e[|MANUAL| + 16];
    }
  }

  /** The reply register of link `oh`. */
  function ReplyName(oh: nat): string
  {
    MANUAL + "SCA_REPLY_OH" + Dec(oh) + ".SCA_RPY_DATA"
  }

  /** Every selected link's reply register can be read. */
  predicate RepliesReadable(mem: map<Word, Word>, table: map<string, Descriptor>, ohMask: U16, n: nat)
  {
    forall oh :: 0 <= oh < n && Bit(ohMask, oh) ==> Readable(mem, table, ReplyName(oh))
  }

  /** The reply vector: for each of the `n` links the formatted reply when the link is
    * selected, 0 otherwise. */
  function Replies(mem: map<Word, Word>, table: map<string, Descriptor>, ohMask: U16, n: nat): seq<Word>
    requires RepliesReadable(mem, table, ohMask, n)
  {
    seq(n, oh requires 0 <= oh < n => if Bit(ohMask, oh) then FormatSCAData(RegValue(mem, table, ReplyName(oh))) else 0)
  }

  /** `v` is the reply vector read from `mem`. */
  predicate RepliesAre(mem: map<Word, Word>, table: map<string, Descriptor>, ohMask: U16, n: nat, v: seq<Word>)
  {
    RepliesReadable(mem, table, ohMask, n) && v == Replies(mem, table, ohMask, n)
  }

  /** There is one reply per link; a link outside the mask gives 0 and a selected one
    * gives its reply register, formatted back into the firmware's byte order. */
  lemma RepliesDecode(mem: map<Word, Word>, table: map<string, Descriptor>, ohMask: U16, n: nat)
    requires RepliesReadable(mem, table, ohMask, n)
    ensures |Replies(mem, table, ohMask, n)| == n
    ensures forall oh :: 0 <= oh < n && !Bit(ohMask, oh) ==> Replies(mem, table, ohMask, n)[oh] == 0
    ensures forall oh :: 0 <= oh < n && Bit(ohMask, oh) ==>
      FormatSCAData(Replies(mem, table, ohMask, n)[oh]) == RegValue(mem, table, ReplyName(oh))
  {
    forall oh | 0 <= oh < n && Bit(ohMask, oh)
      ensures FormatSCAData(Replies(mem, table, ohMask, n)[oh]) == RegValue(mem, table, ReplyName(oh))
    {
      FormatInvolution(RegValue(mem, table, ReplyName(oh)));
    }
  }

  lemma RepliesStep(mem: map<Word, Word>, table: map<string, Descriptor>, ohMask: U16, i: nat, v: Word)
    requires RepliesReadable(mem, table, ohMask, i)
    requires Bit(ohMask, i) ==> Readable(mem, table, ReplyName(i)) && v == FormatSCAData(RegValue(mem, table, ReplyName(i)))
    requires !Bit(ohMask, i) ==> v == 0
    ensures RepliesReadable(mem, table, ohMask, i + 1)
    ensures Replies(mem, table, ohMask, i + 1) == Replies(mem, table, ohMask, i) + [v]
  {
  }

  /** `sendSCACommand`: the six writes, stopping at the first that throws. */
  method SendSCACommand(hw: Hardware, s: Send, ohMask: U16) returns (r: Result<()>)
    modifies hw`mem, hw`faults, hw`trace
    ensures hw.mem.Keys == old(hw.mem).Keys
    ensures r.Ok? ==> (AllMapped(old(hw.mem).Keys, hw.table, CommandWrites(s, ohMask)) &&
                       hw.mem == WriteAll(old(hw.mem), hw.table, CommandWrites(s, ohMask)) &&
                       Effects(hw.trace) == Effects(old(hw.trace)) + WritesOf(CommandWrites(s, ohMask)))
    ensures r.Err? ==> r.error.RuntimeError?
  {
    r := hw.WriteRegs(CommandWrites(s, ohMask));
  }

  /** The reply loop of `sendSCACommandWithReply`: links 0 to n - 1, a read for each
    * selected one. */
  method ReadReplies(hw: Hardware, ohMask: U16, n: nat) returns (r: Result<seq<Word>>)
    modifies hw`faults, hw`trace
    ensures r.Ok? ==> RepliesAre(hw.mem, hw.table, ohMask, n, r.value)
    ensures r.Err? ==> r.error.RuntimeError?
    ensures Effects(hw.trace) == Effects(old(hw.trace))
  {
    var reply: seq<Word> := [];
    var oh := 0;
    while oh < n
      invariant 0 <= oh <= n
      invariant RepliesReadable(hw.mem, hw.table, ohMask, oh)
      invariant reply == Replies(hw.mem, hw.table, ohMask, oh)
      invariant Effects(hw.trace) == Effects(old(hw.trace))
    {
      var v: Word := 0;
      if Bit(ohMask, oh) {
        var x := hw.Get(ReplyName(oh));
        if x.Err? {
          return Err(x.error);
        }
        v := FormatSCAData(x.value);
      }
      RepliesStep(hw.mem, hw.table, ohMask, oh, v);
      reply := reply + [v];
      oh := oh + 1;
    }
    r := Ok(reply);
  }

  /** `sendSCACommandWithReply`: the command, then one reply entry per link. */
  method SendSCACommandWithReply(hw: Hardware, n: nat, s: Send, ohMask: U16) returns (r: Result<seq<Word>>)
    modifies hw`mem, hw`faults, hw`trace
    ensures hw.mem.Keys == old(hw.mem).Keys
    ensures r.Ok? ==> (AllMapped(old(hw.mem).Keys, hw.table, CommandWrites(s, ohMask)) &&
                       hw.mem == WriteAll(old(hw.mem), hw.table, CommandWrites(s, ohMask)) &&
                       Effects(hw.trace) == Effects(old(hw.trace)) + WritesOf(CommandWrites(s, ohMask)) &&
                       RepliesAre(hw.mem, hw.table, ohMask, n, r.value))
    ensures r.Err? ==> r.error.RuntimeError?
  {
    var w := SendSCACommand(hw, s, ohMask);
    if w.Err? {
      return Err(w.error);
    }
    r := ReadReplies(hw, ohMask, n);
  }

  /** One step of a command sequence: with or without reply, as `s.reply` says. */
  method SendOne(hw: Hardware, n: nat, s: Send, ohMask: U16) returns (r: Result<seq<Word>>)
    modifies hw`mem, hw`faults, hw`trace
    ensures hw.mem.Keys == old(hw.mem).Keys
    ensures r.Ok? ==> (AllMapped(old(hw.mem).Keys, hw.table, CommandWrites(s, ohMask)) &&
                       hw.mem == WriteAll(old(hw.mem), hw.table, CommandWrites(s, ohMask)) &&
                       Effects(hw.trace) == Effects(old(hw.trace)) + WritesOf(CommandWrites(s, ohMask)))
    ensures r.Ok? && s.reply ==> RepliesAre(hw.mem, hw.table, ohMask, n, r.value)
    ensures r.Ok? && !s.reply ==> r.value == []
    ensures r.Err? ==> r.error.RuntimeError?
  {
    if s.reply {
      r := SendSCACommandWithReply(hw, n, s, ohMask);
    } else {
      var w := SendSCACommand(hw, s, ohMask);
      if w.Err? {
        return Err(w.error);
      }
      r := Ok([]);
    }
  }

  // ---------------------------------------------------------------------------
  // Command sequences with the ADC monitoring switched off

  /** The writes of the commands `sends`, one after the other. */
  function SendsWrites(sends: seq<Send>, ohMask: U16): seq<(string, Word)>
    decreases |sends|
  {
    if sends == [] then []
    else SendsWrites(sends[..|sends| - 1], ohMask) + CommandWrites(sends[|sends| - 1], ohMask)
  }

  lemma SendsWritesStep(sends: seq<Send>, i: nat, ohMask: U16)
    requires i < |sends|
    ensures SendsWrites(sends[..i + 1], ohMask) == SendsWrites(sends[..i], ohMask) + CommandWrites(sends[i], ohMask)
  {
    assert sends[..i + 1][..i] == sends[..i];
  }

  /** A MANUAL_CONTROL name differs from MONITORING_OFF right after the common prefix. */
  predicate IsManual(name: string)
  {
    |SCA| < |name| && name[|SCA|] == MANUAL[|SCA|]
  }

  lemma ManualName(suffix: string)
    ensures IsManual(MANUAL + suffix)
  {
    assert (MANUAL + suffix)[|SCA|] == MANUAL[|SCA|];
  }

  lemma CommandWritesManual(s: Send, ohMask: U16)
    ensures forall i :: 0 <= i < |CommandWrites(s, ohMask)| ==> IsManual(CommandWrites(s, ohMask)[i].0)
  {
    ManualName("LINK_ENABLE_MASK");
    ManualName("SCA_CMD.SCA_CMD_CHANNEL");
    ManualName("SCA_CMD.SCA_CMD_COMMAND");
    ManualName("SCA_CMD.SCA_CMD_LENGTH");
    ManualName("SCA_CMD.SCA_CMD_DATA");
    ManualName("SCA_CMD.SCA_CMD_EXECUTE");
  }

  /** Every write of a command sequence goes to a MANUAL_CONTROL register. */
  lemma {:induction false} SendsWritesManual(sends: seq<Send>, ohMask: U16)
    ensures forall i :: 0 <= i < |SendsWrites(sends, ohMask)| ==> IsManual(SendsWrites(sends, ohMask)[i].0)
    decreases |sends|
  {
    if sends != [] {
      SendsWritesManual(sends[..|sends| - 1], ohMask);
      CommandWritesManual(sends[|sends| - 1], ohMask);
    }
  }

  /** The writes a session makes before it restores MONITORING_OFF. */
  function SessionWrites(sends: seq<Send>, ohMask: U16): seq<(string, Word)>
  {
    [(MONITORING_OFF, FULL)] + SendsWrites(sends, ohMask)
  }

  /** MONITORING_OFF is switched to 0xffffffff first, and no command of the session
    * writes it afterwards. */
  lemma SessionBrackets(sends: seq<Send>, ohMask: U16)
    ensures var p := SessionWrites(sends, ohMask);
      p[0] == (MONITORING_OFF, FULL) && forall i :: 0 < i < |p| ==> p[i].0 != MONITORING_OFF
  {
    var p := SessionWrites(sends, ohMask);
    SendsWritesManual(sends, ohMask);
    assert !IsManual(MONITORING_OFF);
    forall i | 0 < i < |p|
      ensures p[i].0 != MONITORING_OFF
    {
      assert p[i] == SendsWrites(sends, ohMask)[i - 1];
    }
  }

  /** What a session with the ADC monitoring off leaves behind when it succeeds, from
    * memory `m0` and write log `e0`: MONITORING_OFF could be read; the session's writes
    * were made and then MONITORING_OFF was written back with the value read; `value` is
    * the reply vector of the last command when it is sent with reply, read before the
    * restore, and empty when no command is sent with reply. */
  predicate SessionOk(m0: map<Word, Word>, m: map<Word, Word>, table: map<string, Descriptor>,
                      e0: seq<Event>, e: seq<Event>, sends: seq<Send>, ohMask: U16, n: nat, value: seq<Word>)
  {
    Readable(m0, table, MONITORING_OFF) &&
    AllMapped(m0.Keys, table, SessionWrites(sends, ohMask)) &&
    var during := WriteAll(m0, table, SessionWrites(sends, ohMask));
    var saved := RegValue(m0, table, MONITORING_OFF);
    m == RegWritten(during, table, MONITORING_OFF, saved) &&
    e == e0 + WritesOf(SessionWrites(sends, ohMask)) + [Write(MONITORING_OFF, saved)] &&
    (|sends| > 0 && sends[|sends| - 1].reply ==>
       RepliesAre(during, table, ohMask, n, value)) &&
    ((forall i :: 0 <= i < |sends| ==> !sends[i].reply) ==> value == [])
  }

  /** After a session MONITORING_OFF reads as it did before it. */
  lemma SessionRestores(m0: map<Word, Word>, m: map<Word, Word>, table: map<string, Descriptor>,
                        e0: seq<Event>, e: seq<Event>, sends: seq<Send>, ohMask: U16, n: nat, value: seq<Word>)
    requires SessionOk(m0, m, table, e0, e, sends, ohMask, n, value)
    ensures Readable(m, table, MONITORING_OFF) && RegValue(m, table, MONITORING_OFF) == RegValue(m0, table, MONITORING_OFF)
  {
    FieldRestored(m0, WriteAll(m0, table, SessionWrites(sends, ohMask)), table, MONITORING_OFF);
  }

  /** The commands `sends` in order, stopping at the first that throws; the value is
    * the reply vector of the last command sent with reply, or empty. */
  method SendAll(hw: Hardware, n: nat, sends: seq<Send>, ohMask: U16) returns (r: Result<seq<Word>>)
    modifies hw`mem, hw`faults, hw`trace
    ensures hw.mem.Keys == old(hw.mem).Keys
    ensures r.Ok? ==> (AllMapped(old(hw.mem).Keys, hw.table, SendsWrites(sends, ohMask)) &&
                       hw.mem == WriteAll(old(hw.mem), hw.table, SendsWrites(sends, ohMask)) &&
                       Effects(hw.trace) == Effects(old(hw.trace)) + WritesOf(SendsWrites(sends, ohMask)))
    ensures r.Ok? && |sends| > 0 && sends[|sends| - 1].reply ==> RepliesAre(hw.mem, hw.table, ohMask, n, r.value)
    ensures r.Ok? && (forall i :: 0 <= i < |sends| ==> !sends[i].reply) ==> r.value == []
    ensures r.Err? ==> r.error.RuntimeError?
  {
    ghost var m0 := hw.mem;
    ghost var e0 := Effects(hw.trace);
    ghost var plan: seq<(string, Word)> := [];
    var result: seq<Word> := [];
    var i := 0;
    while i < |sends|
      invariant 0 <= i <= |sends|
      invariant plan == SendsWrites(sends[..i], ohMask)
      invariant hw.mem.Keys == m0.Keys
      invariant AllMapped(m0.Keys, hw.table, plan)
      invariant hw.mem == WriteAll(m0, hw.table, plan)
      invariant Effects(hw.trace) == e0 + WritesOf(plan)
      invariant i > 0 && sends[i - 1].reply ==> RepliesAre(hw.mem, hw.table, ohMask, n, result)
      invariant (forall j :: 0 <= j < i ==> !sends[j].reply) ==> result == []
    {
      ghost var cw := CommandWrites(sends[i], ohMask);
      ghost var m1 := hw.mem;
      ghost var e1 := Effects(hw.trace);
      var x := SendOne(hw, n, sends[i], ohMask);
      if x.Err? {
        return Err(x.error);
      }
      if sends[i].reply {
        result := x.value;
      }
      assert sends[i].reply ==> RepliesAre(hw.mem, hw.table, ohMask, n, result);
      PlanStep(m0, m1, hw.mem, hw.table, e0, e1, Effects(hw.trace), plan, cw);
      SendsWritesStep(sends, i, ohMask);
      plan := plan + cw;
      i := i + 1;
    }
    assert sends[..i] == sends;
    r := Ok(result);
  }

  /** The pattern shared by `scaCTRLCommand`, `scaI2CCommand`, `scaGPIOCommandLocal` and
    * `scaADCCommand`: MONITORING_OFF is saved and set to 0xffffffff, the commands are
    * sent in order, and MONITORING_OFF is written back. */
  method WithMonitoringOff(hw: Hardware, n: nat, sends: seq<Send>, ohMask: U16) returns (r: Result<seq<Word>>)
    modifies hw`mem, hw`faults, hw`trace
    ensures hw.mem.Keys == old(hw.mem).Keys
    ensures r.Ok? ==> SessionOk(old(hw.mem), hw.mem, hw.table, Effects(old(hw.trace)), Effects(hw.trace), sends, ohMask, n, r.value)
    ensures r.Err? ==> r.error.RuntimeError?
  {
    var saved := hw.Get(MONITORING_OFF);
    if saved.Err? {
      return Err(saved.error);
    }
    var w := hw.Set(MONITORING_OFF, FULL);
    if w.Err? {
      return Err(w.error);
    }
    ghost var m1 := hw.mem;
    ghost var e1 := Effects(hw.trace);
    var x := SendAll(hw, n, sends, ohMask);
    if x.Err? {
      return Err(x.error);
    }
    ghost var m2 := hw.mem;
    ghost var e2 := Effects(hw.trace);
    var w2 := hw.Set(MONITORING_OFF, saved.value);
    if w2.Err? {
      return Err(w2.error);
    }
    SessionStep(old(hw.mem), m1, m2, hw.table, Effects(old(hw.trace)), e1, e2, SendsWrites(sends, ohMask));
    r := x;
  }

  /** The memory and log of a session before its restore write. */
  lemma SessionStep(m0: map<Word, Word>, m1: map<Word, Word>, m2: map<Word, Word>, table: map<string, Descriptor>,
                    e0: seq<Event>, e1: seq<Event>, e2: seq<Event>, ws: seq<(string, Word)>)
    requires Mapped(m0.Keys, table, MONITORING_OFF) && m1 == RegWritten(m0, table, MONITORING_OFF, FULL)
    requires e1 == e0 + [Write(MONITORING_OFF, FULL)]
    requires AllMapped(m1.Keys, table, ws) && m2 == WriteAll(m1, table, ws)
    requires e2 == e1 + WritesOf(ws)
    ensures AllMapped(m0.Keys, table, [(MONITORING_OFF, FULL)] + ws)
    ensures m2 == WriteAll(m0, table, [(MONITORING_OFF, FULL)] + ws)
    ensures e2 == e0 + WritesOf([(MONITORING_OFF, FULL)] + ws)
  {
    WriteOne(m0, table, MONITORING_OFF, FULL);
    WriteAllAppend(m0, table, [(MONITORING_OFF, FULL)], ws);
    Associative(e0, [Write(MONITORING_OFF, FULL)], WritesOf(ws));
  }

  // ---------------------------------------------------------------------------
  // The command functions

  /** The numeric codes of sca_enums.h that the modelled functions use. */
  datatype Codes = Codes(
    ctrl: Byte, adc: Byte, gpio: Byte,  // SCAChannel::CTRL, ADC, GPIO
    ctrlCases: seq<Byte>,               // the ten case labels of scaCTRLCommand's switch, in source order:
                                        // R_ID_V2, R_ID_V1, R_SEU, C_SEU, W_CRB, W_CRC, W_CRD, R_CRB, R_CRC, R_CRD
    getData: Byte,                      // SCACTRLCommand::GET_DATA
    adcWMux: Byte, adcWCurr: Byte, adcGo: Byte)

  /** Case labels of one switch are distinct. */
  predicate ValidCodes(k: Codes)
  {
    |k.ctrlCases| == 10 && forall i, j :: 0 <= i < j < 10 ==> k.ctrlCases[i] != k.ctrlCases[j]
  }

  /** The case label `cmd` matches, 10 for `default`. */
  function CaseIndex(k: Codes, cmd: Byte): (j: nat)
    requires ValidCodes(k)
    ensures j <= 10
    ensures j < 10 ==> k.ctrlCases[j] == cmd
    ensures j == 10 <==> cmd !in k.ctrlCases
  {
    FirstIndex(k.ctrlCases, cmd)
  }

  function FirstIndex(s: seq<Byte>, x: Byte): (j: nat)
    ensures j <= |s|
    ensures j < |s| ==> s[j] == x
    ensures forall i :: 0 <= i < j ==> s[i] != x
    ensures j == |s| <==> x !in s
    decreases |s|
  {
    if s == [] then 0 else if s[0] == x then 0 else 1 + FirstIndex(s[1..], x)
  }

  /** The call under case label j (0 to 9) of `scaCTRLCommand`'s switch. */
  function CaseSend(k: Codes, j: nat, cmd: Byte, len: Byte, data: Word): Send
    requires j < 10
  {
    if j < 2 then Send(true, 0x14, cmd, 1, 1)
    else if j < 4 then Send(true, 0x13, cmd, 1, 0)
    else if j < 7 then Send(false, k.ctrl, cmd, len, data)
    else Send(true, k.ctrl, cmd, len, data)
  }

  /** The calls `scaCTRLCommand(cmd)` makes: no case ends with `break`, so control
    * falls from the matched label through every later one and into `default`. */
  function CtrlSends(k: Codes, cmd: Byte, len: Byte, data: Word): seq<Send>
    requires ValidCodes(k)
  {
    var j := CaseIndex(k, cmd);
    seq(10 - j, i requires 0 <= i < 10 - j => CaseSend(k, j + i, cmd, len, data)) +
    [Send(true, k.ctrl, k.getData, len, data)]
  }

  /** From the matched case on, every later case's command is sent too, in order; the
    * last call, whose reply is returned, is always the GET_DATA of `default`; a
    * command matching no label sends GET_DATA alone. */
  lemma CtrlFallThrough(k: Codes, cmd: Byte, len: Byte, data: Word)
    requires ValidCodes(k)
    ensures var sends := CtrlSends(k, cmd, len, data); var j := CaseIndex(k, cmd);
      |sends| == 11 - j &&
      (forall c :: j <= c < 10 ==> sends[c - j] == CaseSend(k, c, cmd, len, data)) &&
      sends[|sends| - 1] == Send(true, k.ctrl, k.getData, len, data)
    ensures cmd !in k.ctrlCases ==> CtrlSends(k, cmd, len, data) == [Send(true, k.ctrl, k.getData, len, data)]
    ensures cmd in k.ctrlCases ==> CtrlSends(k, cmd, len, data)[0] == CaseSend(k, CaseIndex(k, cmd), cmd, len, data)
  {
  }

  /** `scaCTRLCommand(cmd, ohMask, len, data)`: the fall-through calls in one session;
    * the result is the reply to GET_DATA. */
  method ScaCTRLCommand(hw: Hardware, n: nat, k: Codes, cmd: Byte, ohMask: U16, len: Byte, data: Word)
    returns (r: Result<seq<Word>>)
    requires ValidCodes(k)
    modifies hw`mem, hw`faults, hw`trace
    ensures hw.mem.Keys == old(hw.mem).Keys
    ensures r.Ok? ==> SessionOk(old(hw.mem), hw.mem, hw.table, Effects(old(hw.trace)), Effects(hw.trace), CtrlSends(k, cmd, len, data), ohMask, n, r.value)
    ensures r.Err? ==> r.error.RuntimeError?
  {
    r := WithMonitoringOff(hw, n, CtrlSends(k, cmd, len, data), ohMask);
  }

  /** `scaI2CCommand`: one command without reply in a session; the result is always
    * empty. */
  method ScaI2CCommand(hw: Hardware, n: nat, ch: Byte, cmd: Byte, len: Byte, data: Word, ohMask: U16)
    returns (r: Result<seq<Word>>)
    modifies hw`mem, hw`faults, hw`trace
    ensures hw.mem.Keys == old(hw.mem).Keys
    ensures r.Ok? ==> SessionOk(old(hw.mem), hw.mem, hw.table, Effects(old(hw.trace)), Effects(hw.trace), [Send(false, ch, cmd, len, data)], ohMask, n, r.value)
    ensures r.Err? ==> r.error.RuntimeError?
    ensures r.Ok? ==> r.value == []
  {
    r := WithMonitoringOff(hw, n, [Send(false, ch, cmd, len, data)], ohMask);
  }

  /** `scaGPIOCommandLocal`: one command on the GPIO channel in a session, its reply
    * returned. */
  method ScaGPIOCommand(hw: Hardware, n: nat, k: Codes, cmd: Byte, len: Byte, data: Word, ohMask: U16)
    returns (r: Result<seq<Word>>)
    modifies hw`mem, hw`faults, hw`trace
    ensures hw.mem.Keys == old(hw.mem).Keys
    ensures r.Ok? ==> SessionOk(old(hw.mem), hw.mem, hw.table, Effects(old(hw.trace)), Effects(hw.trace), [Send(true, k.gpio, cmd, len, data)], ohMask, n, r.value)
    ensures r.Err? ==> r.error.RuntimeError?
  {
    r := WithMonitoringOff(hw, n, [Send(true, k.gpio, cmd, len, data)], ohMask);
  }

  /** The three commands of `scaADCCommand(ch)`: select the channel, set the current
    * sink of that channel, start the conversion. */
  function AdcSends(k: Codes, ch: Byte): seq<Send>
    requires ch < 32
  {
    [Send(false, k.adc, k.adcWMux, 4, ch), Send(false, k.adc, k.adcWCurr, 4, Shl(1, ch)), Send(true, k.adc, k.adcGo, 4, 1)]
  }

  /** The multiplexer gets the channel number and the current-sink register the one-hot
    * word with exactly bit `ch` set; the conversion is started last, with reply. */
  lemma AdcSendsSelect(k: Codes, ch: Byte)
    requires ch < 32
    ensures var s := AdcSends(k, ch);
      s[0].data == ch && s[2].reply && !s[0].reply && !s[1].reply &&
      s[1].data == Pow2(ch) && forall j: nat :: Bit(s[1].data, j) <==> j == ch
  {
    OrBit(0, ch);
    assert Or(0, Shl(1, ch)) == Shl(1, ch);
    forall j: nat
      ensures Bit(Pow2(ch), j) <==> j == ch
    {
      SinglePow2(ch, j);
    }
  }

  /** `scaADCCommand(ch, …)`: the three commands in one session; the reply of ADC_GO
    * is returned. */
  method ScaADCCommand(hw: Hardware, n: nat, k: Codes, ch: Byte, ohMask: U16) returns (r: Result<seq<Word>>)
    requires ch < 32
    modifies hw`mem, hw`faults, hw`trace
    ensures hw.mem.Keys == old(hw.mem).Keys
    ensures r.Ok? ==> SessionOk(old(hw.mem), hw.mem, hw.table, Effects(old(hw.trace)), Effects(hw.trace), AdcSends(k, ch), ohMask, n, r.value)
    ensures r.Err? ==> r.error.RuntimeError?
  {
    r := WithMonitoringOff(hw, n, AdcSends(k, ch), ohMask);
  }

  // ---------------------------------------------------------------------------
  // scaModuleResetLocal

  /** The writes of `scaModuleResetLocal(ohMask)` after it saved the reset-enable mask. */
  function ResetPlan(ohMask: U16, saved: Word): seq<(string, Word)>
  {
    [(RESET_ENABLE_MASK, ohMask), (MODULE_RESET, 1), (RESET_ENABLE_MASK, saved)]
  }

  /** The reset is sent while the enable mask selects `ohMask`, and afterwards the mask
    * reads as it did before. */
  lemma ResetRestores(mem: map<Word, Word>, table: map<string, Descriptor>, ohMask: U16)
    requires Readable(mem, table, RESET_ENABLE_MASK) && Mapped(mem.Keys, table, MODULE_RESET)
    ensures var p := ResetPlan(ohMask, RegValue(mem, table, RESET_ENABLE_MASK));
      AllMapped(mem.Keys, table, p) && p[1] == (MODULE_RESET, 1) && p[0] == (RESET_ENABLE_MASK, ohMask as Word) &&
      RegValue(WriteAll(mem, table, p), table, RESET_ENABLE_MASK) == RegValue(mem, table, RESET_ENABLE_MASK)
  {
    var saved := RegValue(mem, table, RESET_ENABLE_MASK);
    var p := ResetPlan(ohMask, saved);
    assert p[..2] == [(RESET_ENABLE_MASK, ohMask as Word), (MODULE_RESET, 1)];
    FieldRestored(mem, WriteAll(mem, table, p[..2]), table, RESET_ENABLE_MASK);
  }

  /** `scaModuleResetLocal(ohMask)`. */
  method ScaModuleReset(hw: Hardware, ohMask: U16) returns (r: Result<()>)
    modifies hw`mem, hw`faults, hw`trace
    ensures hw.mem.Keys == old(hw.mem).Keys
    ensures r.Ok? ==> Readable(old(hw.mem), hw.table, RESET_ENABLE_MASK)
    ensures r.Ok? ==> var p := ResetPlan(ohMask, RegValue(old(hw.mem), hw.table, RESET_ENABLE_MASK));
      AllMapped(old(hw.mem).Keys, hw.table, p) && hw.mem == WriteAll(old(hw.mem), hw.table, p) &&
      Effects(hw.trace) == Effects(old(hw.trace)) + WritesOf(p)
    ensures r.Err? ==> r.error.RuntimeError?
  {
    var saved := hw.Get(RESET_ENABLE_MASK);
    if saved.Err? {
      return Err(saved.error);
    }
    r := hw.WriteRegs(ResetPlan(ohMask, saved.value));
  }
}
