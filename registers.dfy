/** The register transactor of src/utils.cpp: named registers are looked up in an
  * address table, read and written through a memory service that can fail, masked
  * fields are extracted and inserted, and block transfers are validated before the
  * one transfer they make.
  *
  * The memory service is the map `mem` from address to word: an address the
  * service does not serve is absent. Each attempt of a transfer consumes one entry
  * of the fault script `faults`; an attempt fails when its entry is `true` (an
  * exhausted script lets every attempt through) or when an address it touches is
  * not served. The ghost `trace` records, in order, every operation of this layer
  * that succeeded. */
module Registers {

  import opened Wrappers
  import opened Bits
  import opened Text
  import opened ErrorCounters

  /** One node of the address table: the five fields of its `|`-separated record. */
  datatype Descriptor = Descriptor(address: Word, permission: string, mask: Word, mode: string, size: Word)

  /** A successful call of this layer, as the caller made it. */
  datatype Event =
    | Read(name: string)                                // readReg
    | Write(name: string, value: Word)                  // writeReg
    | RawRead(address: Word)                            // readRawAddress
    | RawWrite(address: Word, value: Word)              // writeRawAddress
    | BlockRead(name: string, offset: Word, size: Word) // readBlock
    | BlockWrite(name: string, offset: Word, values: seq<Word>) // writeBlock

  // ---------------------------------------------------------------------------
  // The record format of the address table (`serialize`)

  /** `serialize`: hex address, permission, hex mask, mode and hex size, joined by `|`. */
  function Serialize(n: Descriptor): string
  {
    Join(Fields(n), '|')
  }

  function Fields(n: Descriptor): seq<string>
  {
    [Hex(n.address), n.permission, Hex(n.mask), n.mode, Hex(n.size)]
  }

  lemma HexHasNoBar(x: nat)
    ensures '|' !in Hex(x)
  {
    forall i | 0 <= i < |Hex(x)|
      ensures Hex(x)[i] != '|'
    {
      assert IsHexDigit(Hex(x)[i]);
    }
  }

  /** Splitting a record on `|` gives its five fields back, the hexadecimal ones as
    * strings that parse to the address, the mask and the size, provided the
    * permission and mode strings hold no `|`. */
  lemma SerializeRoundTrip(n: Descriptor)
    requires '|' !in n.permission && '|' !in n.mode
    ensures |Tokens(Serialize(n), '|')| == 5
    ensures ParseHex(Tokens(Serialize(n), '|')[0]) == Some(n.address)
    ensures Tokens(Serialize(n), '|')[1] == n.permission
    ensures ParseHex(Tokens(Serialize(n), '|')[2]) == Some(n.mask)
    ensures Tokens(Serialize(n), '|')[3] == n.mode
    ensures ParseHex(Tokens(Serialize(n), '|')[4]) == Some(n.size)
  {
    HexHasNoBar(n.address);
    HexHasNoBar(n.mask);
    HexHasNoBar(n.size);
    TokensOfJoin(Fields(n), '|');
    HexRoundTrip(n.address);
    HexRoundTrip(n.mask);
    HexRoundTrip(n.size);
  }

  // ---------------------------------------------------------------------------
  // The fault script

  predicate Faulty(f: seq<bool>, i: nat)
  {
    i < |f| && f[i]
  }

  /** The script after `n` attempts. */
  function Drop(f: seq<bool>, n: nat): (g: seq<bool>)
    ensures forall i :: Faulty(g, i) == Faulty(f, n + i)
  {
    if n <= |f| then f[n..] else []
  }

  lemma DropDrop(f: seq<bool>, n: nat, k: nat)
    ensures Drop(Drop(f, n), k) == Drop(f, n + k)
  {
  }

  /** `readRawAddress` gives up after this many failed attempts. */
  const READ_ATTEMPTS: nat := 10

  /** The first attempt, from `i` on, that the script lets through; 10 if none. */
  function FirstClear(f: seq<bool>, i: nat): (k: nat)
    requires i <= READ_ATTEMPTS
    ensures i <= k <= READ_ATTEMPTS
    ensures k < READ_ATTEMPTS ==> !Faulty(f, k)
    ensures forall j :: i <= j < k ==> Faulty(f, j)
    decreases READ_ATTEMPTS - i
  {
    if i == READ_ATTEMPTS then READ_ATTEMPTS else if !Faulty(f, i) then i else FirstClear(f, i + 1)
  }

  /** A retried read of `a` succeeds within ten attempts. */
  predicate FetchOk(mem: map<Word, Word>, f: seq<bool>, a: Word)
  {
    a in mem && FirstClear(f, 0) < READ_ATTEMPTS
  }

  /** How many attempts a retried read of `a` makes: up to the first that succeeds,
    * ten when none does. */
  function FetchAttempts(mem: map<Word, Word>, f: seq<bool>, a: Word): (n: nat)
    ensures 1 <= n <= READ_ATTEMPTS
  {
    if FetchOk(mem, f, a) then FirstClear(f, 0) + 1 else READ_ATTEMPTS
  }

  /** A single-attempt transfer touching only `a` succeeds. */
  predicate StoreOk(mem: map<Word, Word>, f: seq<bool>, a: Word)
  {
    a in mem && !Faulty(f, 0)
  }

  // ---------------------------------------------------------------------------
  // Register values

  /** `readReg(name)` on memory `mem`: the field under the register's mask. */
  function RegValue(mem: map<Word, Word>, table: map<string, Descriptor>, name: string): Word
    requires name in table && table[name].address in mem
  {
    Pow2Word();
    var d := table[name];
    assert Extract(mem[d.address], d.mask) <= And(mem[d.address], d.mask) <= mem[d.address];
    Extract(mem[d.address], d.mask)
  }

  /** `readReg(name)` returns normally on memory `mem`. */
  predicate Readable(mem: map<Word, Word>, table: map<string, Descriptor>, name: string)
  {
    name in table && Contains(table[name].permission, "r") && table[name].address in mem
  }

  /** Memory after `writeReg(name, v)` has written its word. */
  function RegWritten(mem: map<Word, Word>, table: map<string, Descriptor>, name: string, v: Word): (m: map<Word, Word>)
    requires name in table && table[name].address in mem
    ensures m.Keys == mem.Keys
  {
    var d := table[name];
    mem[d.address := Insert(mem[d.address], v, d.mask)]
  }

  /** After `writeReg(name, v)`, `readReg(name)` gives `v` cut to the field's width,
    * `v & (mask >> ctz(mask))`; for an unmasked register it gives `v` itself. */
  lemma ReadAfterWrite(mem: map<Word, Word>, table: map<string, Descriptor>, name: string, v: Word)
    requires name in table && table[name].address in mem
    ensures RegValue(RegWritten(mem, table, name, v), table, name) == And(v, Shr(table[name].mask, Tz(table[name].mask)))
    ensures table[name].mask == FULL ==> RegValue(RegWritten(mem, table, name, v), table, name) == v
  {
    var d := table[name];
    ExtractInsert(mem[d.address], v, d.mask);
    if d.mask == FULL {
      FullMask(mem[d.address], v);
    }
  }

  /** A write through a mask changes no bit outside it. */
  lemma WriteKeepsOtherBits(mem: map<Word, Word>, table: map<string, Descriptor>, name: string, v: Word)
    requires name in table && table[name].address in mem
    ensures var d := table[name];
      And(RegWritten(mem, table, name, v)[d.address], Not(d.mask)) == And(mem[d.address], Not(d.mask))
  {
    var d := table[name];
    InsertOutside(mem[d.address], v, d.mask);
  }

  /** Writing a register's saved value back after overwriting it restores the word. */
  lemma WriteBackRestores(mem: map<Word, Word>, table: map<string, Descriptor>, name: string, v: Word)
    requires name in table && table[name].address in mem
    ensures RegWritten(RegWritten(mem, table, name, v), table, name, RegValue(mem, table, name)) == mem
  {
    var d := table[name];
    SaveRestore(mem[d.address], v, d.mask);
  }

  /** The register `name` is in the table and its address is served. */
  predicate Mapped(keys: set<Word>, table: map<string, Descriptor>, name: string)
  {
    name in table && table[name].address in keys
  }

  predicate AllMapped(keys: set<Word>, table: map<string, Descriptor>, ws: seq<(string, Word)>)
  {
    forall i :: 0 <= i < |ws| ==> Mapped(keys, table, ws[i].0)
  }

  /** Memory after the `writeReg` calls `ws`, in order. */
  function WriteAll(mem: map<Word, Word>, table: map<string, Descriptor>, ws: seq<(string, Word)>): (m: map<Word, Word>)
    requires AllMapped(mem.Keys, table, ws)
    ensures m.Keys == mem.Keys
    decreases |ws|
  {
    if ws == [] then mem
    else
      var last := ws[|ws| - 1];
      var before := WriteAll(mem, table, ws[..|ws| - 1]);
      RegWritten(before, table, last.0, last.1)
  }

  /** One more write: the memory and the writes of the longer prefix. */
  lemma WriteRegsStep(mem: map<Word, Word>, table: map<string, Descriptor>, ws: seq<(string, Word)>, i: nat)
    requires i < |ws| && AllMapped(mem.Keys, table, ws[..i]) && Mapped(mem.Keys, table, ws[i].0)
    ensures AllMapped(mem.Keys, table, ws[..i + 1])
    ensures WriteAll(mem, table, ws[..i + 1]) == RegWritten(WriteAll(mem, table, ws[..i]), table, ws[i].0, ws[i].1)
    ensures WritesOf(ws[..i + 1]) == WritesOf(ws[..i]) + [Write(ws[i].0, ws[i].1)]
  {
    assert ws[..i + 1][..i] == ws[..i];
  }

  function WritesOf(ws: seq<(string, Word)>): (s: seq<Event>)
    ensures |s| == |ws|
    decreases |ws|
  {
    if ws == [] then [] else WritesOf(ws[..|ws| - 1]) + [Write(ws[|ws| - 1].0, ws[|ws| - 1].1)]
  }

  /** Writing two lists of registers one after the other is writing their
    * concatenation. */
  lemma {:induction false} WriteAllAppend(mem: map<Word, Word>, table: map<string, Descriptor>,
                                          a: seq<(string, Word)>, b: seq<(string, Word)>)
    requires AllMapped(mem.Keys, table, a) && AllMapped(mem.Keys, table, b)
    ensures AllMapped(mem.Keys, table, a + b)
    ensures WriteAll(mem, table, a + b) == WriteAll(WriteAll(mem, table, a), table, b)
    ensures WritesOf(a + b) == WritesOf(a) + WritesOf(b)
    decreases |b|
  {
    assert AllMapped(mem.Keys, table, a + b) by {
      forall i | 0 <= i < |a + b|
        ensures Mapped(mem.Keys, table, (a + b)[i].0)
      {
        if i >= |a| {
          assert (a + b)[i] == b[i - |a|];
        }
      }
    }
    if b == [] {
      assert a + b == a;
    } else {
      var front := b[..|b| - 1];
      assert (a + b)[..|a + b| - 1] == a + front;
      assert AllMapped(mem.Keys, table, front);
      WriteAllAppend(mem, table, a, front);
      var last := b[|b| - 1];
      Associative(WritesOf(a), WritesOf(front), [Write(last.0, last.1)]);
    }
  }

  /** Writing `a + b` is writing `a` and then `b`, when `a + b` is served. */
  lemma WriteAllSplit(mem: map<Word, Word>, table: map<string, Descriptor>, a: seq<(string, Word)>, b: seq<(string, Word)>)
    requires AllMapped(mem.Keys, table, a + b)
    ensures AllMapped(mem.Keys, table, a) && AllMapped(mem.Keys, table, b)
    ensures WriteAll(mem, table, a + b) == WriteAll(WriteAll(mem, table, a), table, b)
  {
    assert forall i :: 0 <= i < |a| ==> (a + b)[i] == a[i];
    assert forall i :: 0 <= i < |b| ==> (a + b)[|a| + i] == b[i];
    WriteAllAppend(mem, table, a, b);
  }

  /** Carrying out the writes `ws` after the plan `plan` carries out `plan + ws`. */
  lemma PlanStep(m0: map<Word, Word>, m1: map<Word, Word>, m2: map<Word, Word>, table: map<string, Descriptor>,
                 e0: seq<Event>, e1: seq<Event>, e2: seq<Event>, plan: seq<(string, Word)>, ws: seq<(string, Word)>)
    requires AllMapped(m0.Keys, table, plan) && m1 == WriteAll(m0, table, plan) && e1 == e0 + WritesOf(plan)
    requires AllMapped(m1.Keys, table, ws) && m2 == WriteAll(m1, table, ws) && e2 == e1 + WritesOf(ws)
    ensures AllMapped(m0.Keys, table, plan + ws) && m2 == WriteAll(m0, table, plan + ws) && e2 == e0 + WritesOf(plan + ws)
  {
    WriteAllAppend(m0, table, plan, ws);
    Associative(e0, WritesOf(plan), WritesOf(ws));
  }

  /** From memory `m0` and write log `e0` to `m1` and `e1`, the `writeReg` calls `ws`
    * were carried out in order, and nothing else was written. */
  predicate Performed(m0: map<Word, Word>, m1: map<Word, Word>, table: map<string, Descriptor>,
                      e0: seq<Event>, e1: seq<Event>, ws: seq<(string, Word)>)
  {
    AllMapped(m0.Keys, table, ws) && m1 == WriteAll(m0, table, ws) && e1 == e0 + WritesOf(ws)
  }

  /** A second `writeReg` of the same register overrides the first. */
  lemma RegWrittenTwice(mem: map<Word, Word>, table: map<string, Descriptor>, name: string, a: Word, b: Word)
    requires name in table && table[name].address in mem
    ensures RegWritten(RegWritten(mem, table, name, a), table, name, b) == RegWritten(mem, table, name, b)
  {
    var d := table[name];
    InsertTwice(mem[d.address], a, b, d.mask);
  }

  /** Performing `plan` and then `ws` performs `plan + ws`. */
  lemma PerformedStep(m0: map<Word, Word>, m1: map<Word, Word>, m2: map<Word, Word>, table: map<string, Descriptor>,
                      e0: seq<Event>, e1: seq<Event>, e2: seq<Event>, plan: seq<(string, Word)>, ws: seq<(string, Word)>)
    requires Performed(m0, m1, table, e0, e1, plan) && Performed(m1, m2, table, e1, e2, ws)
    ensures Performed(m0, m2, table, e0, e2, plan + ws)
  {
    assert m1.Keys == m0.Keys;
    PlanStep(m0, m1, m2, table, e0, e1, e2, plan, ws);
  }

  /** Performing no writes leaves memory and log as they are. */
  lemma PerformedNothing(m: map<Word, Word>, table: map<string, Descriptor>, e: seq<Event>)
    ensures Performed(m, m, table, e, e, [])
  {
    assert e + [] == e;
  }

  /** A plan of one write is that write. */
  lemma WriteOne(mem: map<Word, Word>, table: map<string, Descriptor>, name: string, v: Word)
    requires Mapped(mem.Keys, table, name)
    ensures AllMapped(mem.Keys, table, [(name, v)]) && WriteAll(mem, table, [(name, v)]) == RegWritten(mem, table, name, v)
    ensures WritesOf([(name, v)]) == [Write(name, v)]
  {
    assert [(name, v)][..0] == [];
  }

  /** A register whose saved value is written back reads as it did when it was saved,
    * whatever was written in between. */
  lemma FieldRestored(saved: map<Word, Word>, mem: map<Word, Word>, table: map<string, Descriptor>, name: string)
    requires Readable(saved, table, name) && Mapped(mem.Keys, table, name)
    ensures RegValue(RegWritten(mem, table, name, RegValue(saved, table, name)), table, name) == RegValue(saved, table, name)
  {
    var d := table[name];
    ReadAfterWrite(mem, table, name, RegValue(saved, table, name));
    ExtractFits(saved[d.address], d.mask);
  }

  /** Memory after `writeRawAddress(getAddress(name), v)` for each (name, v) of `ws`,
    * in order: the whole word is replaced, whatever the register's mask. */
  function RawWriteAll(mem: map<Word, Word>, table: map<string, Descriptor>, ws: seq<(string, Word)>): (m: map<Word, Word>)
    requires AllMapped(mem.Keys, table, ws)
    ensures m.Keys == mem.Keys
    decreases |ws|
  {
    if ws == [] then mem
    else
      var last := ws[|ws| - 1];
      RawWriteAll(mem, table, ws[..|ws| - 1])[table[last.0].address := last.1]
  }

  function RawWritesOf(table: map<string, Descriptor>, ws: seq<(string, Word)>): (s: seq<Event>)
    requires forall i :: 0 <= i < |ws| ==> ws[i].0 in table
    ensures |s| == |ws|
    ensures forall i :: 0 <= i < |ws| ==> s[i] == RawWrite(table[ws[i].0].address, ws[i].1)
    decreases |ws|
  {
    if ws == [] then []
    else RawWritesOf(table, ws[..|ws| - 1]) + [RawWrite(table[ws[|ws| - 1].0].address, ws[|ws| - 1].1)]
  }

  lemma RawWriteStep(mem: map<Word, Word>, table: map<string, Descriptor>, ws: seq<(string, Word)>, i: nat)
    requires i < |ws| && AllMapped(mem.Keys, table, ws[..i]) && Mapped(mem.Keys, table, ws[i].0)
    ensures AllMapped(mem.Keys, table, ws[..i + 1])
    ensures RawWriteAll(mem, table, ws[..i + 1]) ==
      RawWriteAll(mem, table, ws[..i])[table[ws[i].0].address := ws[i].1]
    ensures RawWritesOf(table, ws[..i + 1]) == RawWritesOf(table, ws[..i]) + [RawWrite(table[ws[i].0].address, ws[i].1)]
  {
    assert ws[..i + 1][..i] == ws[..i];
  }

  /** Raw writes of two lists one after the other are the raw writes of their
    * concatenation. */
  lemma {:induction false} RawWriteAllAppend(mem: map<Word, Word>, table: map<string, Descriptor>,
                                             a: seq<(string, Word)>, b: seq<(string, Word)>)
    requires AllMapped(mem.Keys, table, a) && AllMapped(mem.Keys, table, b)
    ensures AllMapped(mem.Keys, table, a + b)
    ensures RawWriteAll(mem, table, a + b) == RawWriteAll(RawWriteAll(mem, table, a), table, b)
    ensures RawWritesOf(table, a + b) == RawWritesOf(table, a) + RawWritesOf(table, b)
    decreases |b|
  {
    assert AllMapped(mem.Keys, table, a + b) by {
      forall i | 0 <= i < |a + b|
        ensures Mapped(mem.Keys, table, (a + b)[i].0)
      {
        if i >= |a| {
          assert (a + b)[i] == b[i - |a|];
        }
      }
    }
    if b == [] {
      assert a + b == a;
    } else {
      var front := b[..|b| - 1];
      assert (a + b)[..|a + b| - 1] == a + front;
      assert AllMapped(mem.Keys, table, front);
      RawWriteAllAppend(mem, table, a, front);
      var last := b[|b| - 1];
      Associative(RawWritesOf(table, a), RawWritesOf(table, front), [RawWrite(table[last.0].address, last.1)]);
    }
  }

  /** From memory `m0` and write log `e0` to `m1` and `e1`, the raw writes `ws` (each
    * to its register's address, the whole word) were carried out in order and nothing
    * else was written. */
  predicate RawPerformed(m0: map<Word, Word>, m1: map<Word, Word>, table: map<string, Descriptor>,
                         e0: seq<Event>, e1: seq<Event>, ws: seq<(string, Word)>)
  {
    AllMapped(m0.Keys, table, ws) && m1 == RawWriteAll(m0, table, ws) && e1 == e0 + RawWritesOf(table, ws)
  }

  /** No two of the raw writes `ws` go to the same address. */
  predicate DistinctTargets(keys: set<Word>, table: map<string, Descriptor>, ws: seq<(string, Word)>)
    requires AllMapped(keys, table, ws)
  {
    forall i, j :: 0 <= i < j < |ws| ==> table[ws[i].0].address != table[ws[j].0].address
  }

  /** When no two raw writes share an address, each register's word is the one
    * written to it. */
  lemma {:induction false} RawWriteAllReads(mem: map<Word, Word>, table: map<string, Descriptor>, ws: seq<(string, Word)>, k: nat)
    requires AllMapped(mem.Keys, table, ws) && DistinctTargets(mem.Keys, table, ws) && k < |ws|
    ensures RawWriteAll(mem, table, ws)[table[ws[k].0].address] == ws[k].1
    decreases |ws|
  {
    var n := |ws| - 1;
    if k < n {
      var front := ws[..n];
      assert front[k] == ws[k];
      assert AllMapped(mem.Keys, table, front) by {
        forall i | 0 <= i < |front|
          ensures Mapped(mem.Keys, table, front[i].0)
        {
          assert front[i] == ws[i];
        }
      }
      assert DistinctTargets(mem.Keys, table, front) by {
        forall i, j | 0 <= i < j < |front|
          ensures table[front[i].0].address != table[front[j].0].address
        {
          assert front[i] == ws[i] && front[j] == ws[j];
        }
      }
      RawWriteAllReads(mem, table, front, k);
    }
  }

  /** Raw writes to other addresses leave the word at `a` as it was. */
  lemma {:induction false} RawWriteAllOutside(mem: map<Word, Word>, table: map<string, Descriptor>, ws: seq<(string, Word)>, a: Word)
    requires AllMapped(mem.Keys, table, ws) && a in mem
    requires forall i :: 0 <= i < |ws| ==> table[ws[i].0].address != a
    ensures RawWriteAll(mem, table, ws)[a] == mem[a]
    decreases |ws|
  {
    if ws != [] {
      var front := ws[..|ws| - 1];
      assert forall i :: 0 <= i < |front| ==> front[i] == ws[i];
      RawWriteAllOutside(mem, table, front, a);
    }
  }

  /** `writeReg` calls on registers at other addresses leave the word at `a` as it was. */
  lemma {:induction false} WriteAllOutside(mem: map<Word, Word>, table: map<string, Descriptor>, ws: seq<(string, Word)>, a: Word)
    requires AllMapped(mem.Keys, table, ws) && a in mem
    requires forall i :: 0 <= i < |ws| ==> table[ws[i].0].address != a
    ensures WriteAll(mem, table, ws)[a] == mem[a]
    decreases |ws|
  {
    if ws != [] {
      var front := ws[..|ws| - 1];
      assert forall i :: 0 <= i < |front| ==> front[i] == ws[i];
      WriteAllOutside(mem, table, front, a);
    }
  }

  /** When no two registers written share an address, each register's word is its
    * old word with the field written inserted. */
  lemma {:induction false} WriteAllReads(mem: map<Word, Word>, table: map<string, Descriptor>, ws: seq<(string, Word)>, k: nat)
    requires AllMapped(mem.Keys, table, ws) && DistinctTargets(mem.Keys, table, ws) && k < |ws|
    ensures var d := table[ws[k].0]; WriteAll(mem, table, ws)[d.address] == Insert(mem[d.address], ws[k].1, d.mask)
    decreases |ws|
  {
    var n := |ws| - 1;
    var front := ws[..n];
    assert forall i :: 0 <= i < |front| ==> front[i] == ws[i];
    assert AllMapped(mem.Keys, table, front);
    if k < n {
      assert DistinctTargets(mem.Keys, table, front);
      WriteAllReads(mem, table, front, k);
    } else {
      WriteAllOutside(mem, table, front, table[ws[k].0].address);
    }
  }

  /** Performing raw writes `plan` and then `ws` performs `plan + ws`. */
  lemma RawPerformedStep(m0: map<Word, Word>, m1: map<Word, Word>, m2: map<Word, Word>, table: map<string, Descriptor>,
                         e0: seq<Event>, e1: seq<Event>, e2: seq<Event>, plan: seq<(string, Word)>, ws: seq<(string, Word)>)
    requires RawPerformed(m0, m1, table, e0, e1, plan) && RawPerformed(m1, m2, table, e1, e2, ws)
    ensures RawPerformed(m0, m2, table, e0, e2, plan + ws)
  {
    assert m1.Keys == m0.Keys;
    RawWriteAllAppend(m0, table, plan, ws);
    Associative(e0, RawWritesOf(table, plan), RawWritesOf(table, ws));
  }

  /** Performing no raw writes leaves memory and log as they are. */
  lemma RawPerformedNothing(m: map<Word, Word>, table: map<string, Descriptor>, e: seq<Event>)
    ensures RawPerformed(m, m, table, e, e, [])
  {
    assert e + [] == e;
  }

  /** A raw plan of one write is that write. */
  lemma RawWriteOne(mem: map<Word, Word>, table: map<string, Descriptor>, name: string, v: Word)
    requires Mapped(mem.Keys, table, name)
    ensures AllMapped(mem.Keys, table, [(name, v)])
    ensures RawWriteAll(mem, table, [(name, v)]) == mem[table[name].address := v]
    ensures RawWritesOf(table, [(name, v)]) == [RawWrite(table[name].address, v)]
  {
    assert [(name, v)][..0] == [];
  }

  // ---------------------------------------------------------------------------
  // What reached the hardware

  /** The calls that change the hardware: every write, in order. */
  predicate IsEffect(e: Event)
  {
    e.Write? || e.RawWrite? || e.BlockWrite?
  }

  /** The writes of a trace, in order, with the reads dropped. */
  function Effects(t: seq<Event>): seq<Event>
    decreases |t|
  {
    if t == [] then []
    else Effects(t[..|t| - 1]) + (if IsEffect(t[|t| - 1]) then [t[|t| - 1]] else [])
  }

  lemma EffectsSnoc(t: seq<Event>, e: Event)
    ensures Effects(t + [e]) == Effects(t) + (if IsEffect(e) then [e] else [])
  {
    assert (t + [e])[..|t|] == t;
  }

  lemma Associative<T>(a: seq<T>, b: seq<T>, c: seq<T>)
    ensures a + b + c == a + (b + c)
  {
  }

  /** The writes of two traces one after the other are the writes of each. */
  lemma {:induction false} EffectsAppend(a: seq<Event>, b: seq<Event>)
    ensures Effects(a + b) == Effects(a) + Effects(b)
    decreases |b|
  {
    if b == [] {
      assert a + b == a;
    } else {
      var front, e := b[..|b| - 1], b[|b| - 1];
      assert b == front + [e];
      assert a + b == (a + front) + [e];
      EffectsAppend(a, front);
      EffectsSnoc(a + front, e);
      EffectsSnoc(front, e);
      var tail := if IsEffect(e) then [e] else [];
      assert Effects(a) + Effects(front) + tail == Effects(a) + (Effects(front) + tail);
    }
  }

  // ---------------------------------------------------------------------------
  // Block transfers

  /** Address of word `k` of a transfer starting at `start`. */
  function BlockAddr(start: Word, k: nat): Word
  {
    (start + k) % WORD
  }

  predicate SpanMapped(mem: map<Word, Word>, start: Word, n: nat)
  {
    forall k :: 0 <= k < n ==> BlockAddr(start, k) in mem
  }

  /** The `n` words from `start` on. */
  function ReadSpan(mem: map<Word, Word>, start: Word, n: nat): (ws: seq<Word>)
    requires SpanMapped(mem, start, n)
    ensures |ws| == n
    ensures forall k :: 0 <= k < n ==> ws[k] == mem[BlockAddr(start, k)]
  {
    seq(n, k requires 0 <= k < n => mem[BlockAddr(start, k)])
  }

  /** Memory after the words `vs` are stored from `start` on. */
  function WriteSpan(mem: map<Word, Word>, start: Word, vs: seq<Word>): (m: map<Word, Word>)
    ensures m.Keys == mem.Keys
  {
    map a | a in mem :: if (a - start) % WORD < |vs| then vs[(a - start) % WORD] else mem[a]
  }

  /** After a block write, reading the same span gives the words written, and every
    * other address keeps its word. */
  lemma WriteSpanThenRead(mem: map<Word, Word>, start: Word, vs: seq<Word>)
    requires SpanMapped(mem, start, |vs|) && |vs| < WORD
    ensures SpanMapped(WriteSpan(mem, start, vs), start, |vs|)
    ensures ReadSpan(WriteSpan(mem, start, vs), start, |vs|) == vs
    ensures forall a :: a in mem && (a - start) % WORD >= |vs| ==> WriteSpan(mem, start, vs)[a] == mem[a]
  {
    WriteSpanReads(mem, start, vs);
    WriteSpanKeeps(mem, start, vs);
  }

  lemma WriteSpanReads(mem: map<Word, Word>, start: Word, vs: seq<Word>)
    requires SpanMapped(mem, start, |vs|) && |vs| < WORD
    ensures SpanMapped(WriteSpan(mem, start, vs), start, |vs|)
    ensures ReadSpan(WriteSpan(mem, start, vs), start, |vs|) == vs
  {
    var m := WriteSpan(mem, start, vs);
    forall k | 0 <= k < |vs|
      ensures m[BlockAddr(start, k)] == vs[k]
    {
      WriteSpanAt(mem, start, vs, k);
    }
    var ws := ReadSpan(m, start, |vs|);
    assert |ws| == |vs|;
    assert forall k :: 0 <= k < |vs| ==> ws[k] == vs[k];
  }

  lemma WriteSpanKeeps(mem: map<Word, Word>, start: Word, vs: seq<Word>)
    ensures forall a :: a in mem && (a - start) % WORD >= |vs| ==> WriteSpan(mem, start, vs)[a] == mem[a]
  {
    forall a | a in mem && (a - start) % WORD >= |vs|
      ensures WriteSpan(mem, start, vs)[a] == mem[a]
    {
      WriteSpanOutside(mem, start, vs, a);
    }
  }

  lemma WriteSpanOutside(mem: map<Word, Word>, start: Word, vs: seq<Word>, a: Word)
    requires a in mem && (a - start) % WORD >= |vs|
    ensures WriteSpan(mem, start, vs)[a] == mem[a]
  {
  }

  lemma WriteSpanAt(mem: map<Word, Word>, start: Word, vs: seq<Word>, k: nat)
    requires k < |vs| < WORD && BlockAddr(start, k) in mem
    ensures WriteSpan(mem, start, vs)[BlockAddr(start, k)] == vs[k]
  {
    BlockOffset(start, k);
  }

  lemma BlockOffset(start: Word, k: nat)
    requires k < WORD
    ensures (BlockAddr(start, k) - start) % WORD == k
  {
  }

  /** Why a block transfer is refused, checked in this order: a masked register, more
    * than one word of a "single" register, and `offset + size` (in 32-bit arithmetic)
    * past the block's size. */
  function BlockRejection(d: Descriptor, size: Word, offset: Word): Option<Why>
  {
    if d.mask != FULL then Some(MaskedBlock)
    else if Contains(d.mode, "single") && size > 1 then Some(SingleOverrun)
    else if Add32(offset, size) > d.size then Some(BeyondRange)
    else None
  }

  /** A block that passes the checks lies within the block's size, unless
    * `offset + size` wrapped around. */
  lemma BlockWithinRange(d: Descriptor, size: Word, offset: Word)
    requires BlockRejection(d, size, offset).None?
    ensures d.mask == FULL
    ensures Contains(d.mode, "single") ==> size <= 1
    ensures offset + size < WORD ==> offset + size <= d.size
  {
  }

  /** What a `writeBlock` call that ended with `r` adds to the writes. */
  function BlockWriteEffect(table: map<string, Descriptor>, name: string, offset: Word, values: seq<Word>, r: Result<()>): seq<Event>
  {
    if name in table && r.Ok? then [BlockWrite(name, offset, values)] else []
  }

  /** What `readBlock(name, buf, size)` (offset 0) leaves at the front of `buf` when it
    * returns normally: the words of the span, or nothing when the name is unknown. */
  function BlockWords(mem: map<Word, Word>, table: map<string, Descriptor>, name: string, size: Word): (ws: seq<Word>)
    ensures |ws| == 0 || |ws| == size
    ensures name !in table ==> ws == []
  {
    if name in table && BlockRejection(table[name], size, 0).None? && SpanMapped(mem, table[name].address, size)
    then ReadSpan(mem, table[name].address, size)
    else []
  }

  /** Memory after the `writeBlock` calls `bs` (each at offset 0), in order; unknown
    * names write nothing. */
  function BlocksWritten(mem: map<Word, Word>, table: map<string, Descriptor>, bs: seq<(string, seq<Word>)>): (m: map<Word, Word>)
    ensures m.Keys == mem.Keys
    decreases |bs|
  {
    if bs == [] then mem
    else
      var last := bs[|bs| - 1];
      var before := BlocksWritten(mem, table, bs[..|bs| - 1]);
      if last.0 in table then WriteSpan(before, table[last.0].address, last.1) else before
  }

  /** The block writes that reach the hardware when the calls `bs` all return. */
  function BlockWritesOf(table: map<string, Descriptor>, bs: seq<(string, seq<Word>)>): seq<Event>
    decreases |bs|
  {
    if bs == [] then []
    else
      var last := bs[|bs| - 1];
      BlockWritesOf(table, bs[..|bs| - 1]) + (if last.0 in table then [BlockWrite(last.0, 0, last.1)] else [])
  }

  /** Writing two lists of blocks one after the other is writing their concatenation. */
  lemma {:induction false} BlocksWrittenAppend(mem: map<Word, Word>, table: map<string, Descriptor>,
                                               a: seq<(string, seq<Word>)>, b: seq<(string, seq<Word>)>)
    ensures BlocksWritten(mem, table, a + b) == BlocksWritten(BlocksWritten(mem, table, a), table, b)
    ensures BlockWritesOf(table, a + b) == BlockWritesOf(table, a) + BlockWritesOf(table, b)
    decreases |b|
  {
    if b == [] {
      assert a + b == a;
    } else {
      var front := b[..|b| - 1];
      assert (a + b)[..|a + b| - 1] == a + front;
      BlocksWrittenAppend(mem, table, a, front);
      var last := b[|b| - 1];
      var tail := if last.0 in table then [BlockWrite(last.0, 0, last.1)] else [];
      assert BlockWritesOf(table, a) + BlockWritesOf(table, front) + tail ==
             BlockWritesOf(table, a) + (BlockWritesOf(table, front) + tail);
    }
  }

  /** One more block: the memory and the writes of the longer prefix. */
  lemma WriteBlocksStep(mem: map<Word, Word>, table: map<string, Descriptor>, bs: seq<(string, seq<Word>)>, i: nat)
    requires i < |bs|
    ensures BlocksWritten(mem, table, bs[..i + 1]) ==
      (if bs[i].0 in table then WriteSpan(BlocksWritten(mem, table, bs[..i]), table[bs[i].0].address, bs[i].1)
       else BlocksWritten(mem, table, bs[..i]))
    ensures BlockWritesOf(table, bs[..i + 1]) ==
      BlockWritesOf(table, bs[..i]) + (if bs[i].0 in table then [BlockWrite(bs[i].0, 0, bs[i].1)] else [])
  {
    assert bs[..i + 1][..i] == bs[..i];
  }

  const LINK_RESET: string := "GEM_AMC.GEM_SYSTEM.CTRL.LINK_RESET"
  const VFAT3_COUNTERS: string := "GEM_AMC.SLOW_CONTROL.VFAT3."

  /** The counter registers `repeatedRegRead` reads, in the order it reads them. */
  function CounterNames(): seq<string>
  {
    [VFAT3_COUNTERS + "CRC_ERROR_CNT", VFAT3_COUNTERS + "PACKET_ERROR_CNT",
     VFAT3_COUNTERS + "BITSTUFFING_ERROR_CNT", VFAT3_COUNTERS + "TIMEOUT_ERROR_CNT",
     VFAT3_COUNTERS + "AXI_STROBE_ERROR_CNT", VFAT3_COUNTERS + "TRANSACTION_CNT"]
  }

  /** `readReg` returns normally for every name of `names` on memory `mem`. */
  predicate AllReadable(mem: map<Word, Word>, table: map<string, Descriptor>, names: seq<string>)
  {
    forall i :: 0 <= i < |names| ==> Readable(mem, table, names[i])
  }

  /** What `readReg` returns for each name of `names` on memory `mem`. */
  function Values(mem: map<Word, Word>, table: map<string, Descriptor>, names: seq<string>): (vs: seq<Word>)
    requires AllReadable(mem, table, names)
    ensures |vs| == |names| && forall i :: 0 <= i < |names| ==> vs[i] == RegValue(mem, table, names[i])
  {
    seq(|names|, i requires 0 <= i < |names| => RegValue(mem, table, names[i]))
  }

  /** One more name read: the values and the reads of the longer prefix. */
  lemma ReadRegsStep(mem: map<Word, Word>, table: map<string, Descriptor>, names: seq<string>, i: nat)
    requires i < |names| && AllReadable(mem, table, names[..i]) && Readable(mem, table, names[i])
    ensures AllReadable(mem, table, names[..i + 1])
    ensures Values(mem, table, names[..i + 1]) == Values(mem, table, names[..i]) + [RegValue(mem, table, names[i])]
    ensures ReadsOf(names[..i + 1]) == ReadsOf(names[..i]) + [Read(names[i])]
  {
    assert names[..i + 1] == names[..i] + [names[i]];
  }

  lemma {:induction false} ReadsHaveNoEffects(names: seq<string>)
    ensures Effects(ReadsOf(names)) == []
    decreases |names|
  {
    if names != [] {
      var front := names[..|names| - 1];
      ReadsHaveNoEffects(front);
      EffectsSnoc(ReadsOf(front), Read(names[|names| - 1]));
    }
  }

  /** The counters `repeatedRegRead` fills in from its six reads, before any summing. */
  function CountersOf(vs: seq<Word>): ErrCnt
    requires |vs| == 6
  {
    ErrCnt(vs[0], vs[1], vs[2], vs[3], vs[4], 0, vs[5])
  }

  function Repeat(e: Event, n: nat): (s: seq<Event>)
    ensures |s| == n && forall i :: 0 <= i < n ==> s[i] == e
    decreases n
  {
    if n == 0 then [] else Repeat(e, n - 1) + [e]
  }

  function ReadsOf(names: seq<string>): (s: seq<Event>)
    ensures |s| == |names|
    decreases |names|
  {
    if names == [] then [] else ReadsOf(names[..|names| - 1]) + [Read(names[|names| - 1])]
  }

  // ---------------------------------------------------------------------------
  // Pure helpers of utils.cpp

  /** `applyMask(data, mask)`: the loop that shifts `data & mask` down until bit 0 of
    * the mask is set. */
  method ApplyMask(data: Word, mask0: Word) returns (result: Word)
    ensures result == Extract(data, mask0)
  {
    var mask := mask0;
    result := And(data, mask0);
    var i := 0;
    while i < 32
      invariant 0 <= i <= 32 && i <= Tz(mask0)
      invariant mask == Shr(mask0, i)
      invariant result == Shr(And(data, mask0), i)
    {
      if mask % 2 == 1 {  // mask & 1
        break;
      }
      TzStep(mask0, i);
      ShrStep(mask0, i);
      ShrStep(And(data, mask0), i);
      mask := mask / 2;
      result := result / 2;
      i := i + 1;
    }
    if i < 32 {
      BitShr(mask0, i, 0);
      TzAtMost(mask0, i);
    }
  }

  /** The shift loop of a masked `writeReg`: the number of trailing zero bits of the
    * mask, 32 for the zero mask. */
  method ShiftAmount(rmask0: Word) returns (shift: nat)
    ensures shift == Tz(rmask0)
  {
    var rmask := rmask0;
    shift := 0;
    var i := 0;
    while i < 32
      invariant 0 <= i <= 32 && i <= Tz(rmask0)
      invariant shift == i
      invariant rmask == Shr(rmask0, i)
    {
      if rmask % 2 == 1 {  // rmask & 1
        break;
      }
      TzStep(rmask0, i);
      ShrStep(rmask0, i);
      shift := shift + 1;
      rmask := rmask / 2;
      i := i + 1;
    }
    if i < 32 {
      BitShr(rmask0, i, 0);
      TzAtMost(rmask0, i);
    }
  }

  /** A clear bit `i` of the mask at the loop's position moves the trailing-zero bound. */
  lemma TzStep(m: Word, i: nat)
    requires i <= Tz(m) && i < 32 && Shr(m, i) % 2 == 0
    ensures i + 1 <= Tz(m)
  {
    BitShr(m, i, 0);
    if m != 0 {
      TzAt(m);
    }
  }

  /** `bitCheck(word, bit)`: `(word >> bit) & 1`, refusing positions above 31. */
  function BitCheck(word: Word, bit: nat): (r: Result<Word>)
    ensures r.Ok? <==> bit <= 31
    ensures r.Err? ==> r.error == InvalidArgument(BadArgument)
    ensures r.Ok? ==> r.value == (if Bit(word, bit) then 1 else 0)
  {
    if bit > 31 then Err(InvalidArgument(BadArgument))
    else
      AndOne(Shr(word, bit));
      BitShr(word, bit, 0);
      Ok(And(Shr(word, bit), 1))
  }

  /** `getNumNonzeroBits` as written: the test `(value & (1 << i)) == 1` holds only for
    * i == 0, so only bit 0 is counted. */
  method GetNumNonzeroBitsAsWritten(value: Word) returns (n: nat)
    ensures n == value % 2
  {
    n := 0;
    var i := 0;
    while i < 32
      invariant 0 <= i <= 32
      invariant n == if i == 0 then 0 else value % 2
    {
      AndPow2(value, i);
      if And(value, Pow2(i)) == 1 {
        n := n + 1;
      }
      i := i + 1;
    }
  }

  /** The input that shows it: 3 has two set bits, but one is counted. */
  lemma GetNumNonzeroBitsMiscounts()
    ensures CountBits(3, 32) == 2 && 3 % 2 == 1
  {
    assert Bit(3, 0) && Bit(3, 1);
    forall i | 2 <= i < 32
      ensures !Bit(3, i)
    {
      assert 3 < Pow2(2);
      BitHigh(3, 2, i);
    }
    CountBitsFrom(3, 2, 32);
  }

  /** Bits that are all clear from `lo` to `n` add nothing to the count. */
  lemma {:induction false} CountBitsFrom(v: nat, lo: nat, n: nat)
    requires lo <= n && forall i :: lo <= i < n ==> !Bit(v, i)
    ensures CountBits(v, n) == CountBits(v, lo)
    decreases n - lo
  {
    if lo < n {
      CountBitsFrom(v, lo, n - 1);
    }
  }

  /** `getNumNonzeroBits` as documented: the number of set bits of the word. */
  method GetNumNonzeroBits(value: Word) returns (n: nat)
    ensures n == CountBits(value, 32)
  {
    n := 0;
    var i := 0;
    while i < 32
      invariant 0 <= i <= 32
      invariant n == CountBits(value, i)
    {
      AndPow2(value, i);
      if And(value, Pow2(i)) != 0 {
        n := n + 1;
      }
      i := i + 1;
    }
  }

  // ---------------------------------------------------------------------------
  // The hardware

  /** The failures of a single register access: an unknown name, a missing read
    * permission, or a transaction the memory service could not complete. */
  predicate AccessError(e: Error)
  {
    e == RuntimeError(NotFound) || e == RuntimeError(NoReadPermission) || e == RuntimeError(TransportFailure)
  }

  class Hardware {
    var mem: map<Word, Word>
    var table: map<string, Descriptor>
    var faults: seq<bool>
    ghost var trace: seq<Event>

    constructor (mem0: map<Word, Word>, table0: map<string, Descriptor>, faults0: seq<bool>)
      ensures mem == mem0 && table == table0 && faults == faults0 && trace == []
    {
      mem, table, faults, trace := mem0, table0, faults0, [];
    }

    /** `getAddress(name)`: the address column of the table; unknown names throw. */
    function GetAddress(name: string): (r: Result<Word>)
      reads this
      ensures r.Ok? <==> name in table
      ensures r.Ok? ==> r.value == table[name].address
      ensures r.Err? ==> r.error == RuntimeError(NotFound)
    {
      if name in table then Ok(table[name].address) else Err(RuntimeError(NotFound))
    }

    /** `getMask(name)`: the mask column of the table; unknown names throw. */
    function GetMask(name: string): (r: Result<Word>)
      reads this
      ensures r.Ok? <==> name in table
      ensures r.Ok? ==> r.value == table[name].mask
      ensures r.Err? ==> r.error == RuntimeError(NotFound)
    {
      if name in table then Ok(table[name].mask) else Err(RuntimeError(NotFound))
    }

    /** One attempt of the memory service on address `a`. */
    method Attempt(a: Word) returns (ok: bool)
      modifies this`faults
      ensures ok == StoreOk(mem, old(faults), a)
      ensures faults == Drop(old(faults), 1)
    {
      ok := a in mem && !Faulty(faults, 0);
      faults := Drop(faults, 1);
    }

    /** The retry loop of `readRawAddress`: up to ten attempts, the first that succeeds
      * gives the word. */
    method Fetch(a: Word) returns (r: Result<Word>)
      modifies this`faults
      ensures FetchOk(mem, old(faults), a) ==> r == Ok(mem[a])
      ensures !FetchOk(mem, old(faults), a) ==> r == Err(RuntimeError(TransportFailure))
      ensures faults == Drop(old(faults), FetchAttempts(mem, old(faults), a))
    {
      ghost var f0 := faults;
      var tries := 0;
      while true
        invariant 0 <= tries <= 9
        invariant faults == Drop(f0, tries)
        invariant a in mem ==> FirstClear(f0, 0) == FirstClear(f0, tries)
        decreases 9 - tries
      {
        var ok := Attempt(a);
        DropDrop(f0, tries, 1);
        if ok {
          return Ok(mem[a]);
        }
        if tries < 9 {
          tries := tries + 1;
        } else {
          return Err(RuntimeError(TransportFailure));
        }
      }
    }

    /** `readRawAddress(a)`: the word at `a`, after up to ten attempts. */
    method ReadRawAddress(a: Word) returns (r: Result<Word>)
      modifies this`faults, this`trace
      ensures FetchOk(mem, old(faults), a) ==> r == Ok(mem[a]) && trace == old(trace) + [RawRead(a)]
      ensures !FetchOk(mem, old(faults), a) ==> r == Err(RuntimeError(TransportFailure)) && trace == old(trace)
      ensures faults == Drop(old(faults), FetchAttempts(mem, old(faults), a))
      ensures Effects(trace) == Effects(old(trace))
    {
      r := Fetch(a);
      if r.Ok? {
        EffectsSnoc(trace, RawRead(a));
        trace := trace + [RawRead(a)];
      }
    }

    /** One attempt of the memory service storing `v` at `a`. */
    method Store(a: Word, v: Word) returns (r: Result<()>)
      modifies this`mem, this`faults
      ensures r.Ok? <==> StoreOk(old(mem), old(faults), a)
      ensures r.Ok? ==> mem == old(mem)[a := v]
      ensures r.Err? ==> r.error == RuntimeError(TransportFailure) && mem == old(mem)
      ensures faults == Drop(old(faults), 1)
    {
      var ok := Attempt(a);
      if ok {
        mem := mem[a := v];
        r := Ok(());
      } else {
        r := Err(RuntimeError(TransportFailure));
      }
    }

    /** `writeRawAddress(a, v)`: exactly one attempt, no retry. */
    method WriteRawAddress(a: Word, v: Word) returns (r: Result<()>)
      modifies this`mem, this`faults, this`trace
      ensures r.Ok? <==> StoreOk(old(mem), old(faults), a)
      ensures r.Ok? ==> mem == old(mem)[a := v] && trace == old(trace) + [RawWrite(a, v)]
      ensures r.Err? ==> r.error == RuntimeError(TransportFailure) && mem == old(mem) && trace == old(trace)
      ensures faults == Drop(old(faults), 1)
      ensures r.Ok? ==> Effects(trace) == Effects(old(trace)) + [RawWrite(a, v)]
    {
      r := Store(a, v);
      if r.Ok? {
        EffectsSnoc(trace, RawWrite(a, v));
        trace := trace + [RawWrite(a, v)];
      }
    }

    /** `readRawReg(name)`: `readRawAddress(getAddress(name))`. */
    method ReadRawReg(name: string) returns (r: Result<Word>)
      modifies this`faults, this`trace
      ensures name !in table ==> r == Err(RuntimeError(NotFound)) && faults == old(faults) && trace == old(trace)
      ensures name in table ==> var a := table[name].address;
        (FetchOk(mem, old(faults), a) ==> r == Ok(mem[a]) && trace == old(trace) + [RawRead(a)]) &&
        (!FetchOk(mem, old(faults), a) ==> r == Err(RuntimeError(TransportFailure)) && trace == old(trace)) &&
        faults == Drop(old(faults), FetchAttempts(mem, old(faults), a))
    {
      var addr := GetAddress(name);
      if addr.Err? {
        return Err(addr.error);
      }
      r := ReadRawAddress(addr.value);
    }

    /** `writeRawReg(name, v)`: `writeRawAddress(getAddress(name), v)`, mask ignored. */
    method WriteRawReg(name: string, v: Word) returns (r: Result<()>)
      modifies this`mem, this`faults, this`trace
      ensures name !in table ==> r == Err(RuntimeError(NotFound)) && unchanged(this)
      ensures name in table ==> var a := table[name].address;
        (r.Ok? <==> StoreOk(old(mem), old(faults), a)) &&
        (r.Ok? ==> mem == old(mem)[a := v] && trace == old(trace) + [RawWrite(a, v)]) &&
        (r.Err? ==> mem == old(mem) && trace == old(trace)) &&
        faults == Drop(old(faults), 1)
      ensures r.Err? ==> r.error.RuntimeError?
    {
      var addr := GetAddress(name);
      if addr.Err? {
        return Err(addr.error);
      }
      r := WriteRawAddress(addr.value, v);
    }

    /** `readReg(name)`: unknown names and registers without `r` in their permission
      * throw before any transfer; otherwise the word is read with retries and the
      * field under the mask is returned. */
    method ReadReg(name: string) returns (r: Result<Word>)
      modifies this`faults, this`trace
      ensures name !in table ==> r == Err(RuntimeError(NotFound)) && faults == old(faults) && trace == old(trace)
      ensures name in table && !Contains(table[name].permission, "r") ==>
        r == Err(RuntimeError(NoReadPermission)) && faults == old(faults) && trace == old(trace)
      ensures name in table && Contains(table[name].permission, "r") ==> var a := table[name].address;
        (r.Ok? <==> FetchOk(mem, old(faults), a)) &&
        faults == Drop(old(faults), FetchAttempts(mem, old(faults), a))
      ensures r.Ok? ==> (Readable(mem, table, name) && r.value == RegValue(mem, table, name) &&
                         trace == old(trace) + [Read(name)])
      ensures r.Err? ==> trace == old(trace) && AccessError(r.error)
      ensures Effects(trace) == Effects(old(trace))
    {
      if name !in table {
        return Err(RuntimeError(NotFound));
      }
      var d := table[name];
      if !Contains(d.permission, "r") {
        return Err(RuntimeError(NoReadPermission));
      }
      var data := Fetch(d.address);
      if data.Err? {
        return Err(data.error);
      }
      if d.mask != FULL {
        var v := ApplyMask(data.value, d.mask);
        r := Ok(v);
      } else {
        FullMask(data.value, 0);
        r := Ok(data.value);
      }
      EffectsSnoc(trace, Read(name));
      trace := trace + [Read(name)];
    }

    /** `writeReg(name, v)`: unknown names throw; an unmasked register gets `v` in one
      * attempt; a masked one is read (with retries), `((v << ctz) & mask) | (old & ~mask)`
      * is computed and written in one attempt. No permission is checked. */
    method WriteReg(name: string, v: Word) returns (r: Result<()>)
      modifies this`mem, this`faults, this`trace
      ensures name !in table ==> r == Err(RuntimeError(NotFound)) && unchanged(this)
      ensures name in table && table[name].mask == FULL ==> var a := table[name].address;
        (r.Ok? <==> StoreOk(old(mem), old(faults), a)) && faults == Drop(old(faults), 1)
      ensures name in table && table[name].mask != FULL ==> var a := table[name].address;
        var n := FetchAttempts(old(mem), old(faults), a);
        (r.Ok? <==> FetchOk(old(mem), old(faults), a) && StoreOk(old(mem), Drop(old(faults), n), a)) &&
        faults == Drop(old(faults), if FetchOk(old(mem), old(faults), a) then n + 1 else n)
      ensures r.Ok? ==> (name in table && table[name].address in old(mem) &&
                         mem == RegWritten(old(mem), table, name, v) && trace == old(trace) + [Write(name, v)])
      ensures r.Ok? ==> Effects(trace) == Effects(old(trace)) + [Write(name, v)]
      ensures r.Err? ==> mem == old(mem) && trace == old(trace) && AccessError(r.error)
    {
      if name !in table {
        return Err(RuntimeError(NotFound));
      }
      var d := table[name];
      if d.mask == FULL {
        if d.address in mem {
          FullMask(mem[d.address], v);
        }
        r := Store(d.address, v);
      } else {
        var current := Fetch(d.address);
        if current.Err? {
          return Err(current.error);
        }
        var shift := ShiftAmount(d.mask);
        var val := Shl(v, shift);
        val := Or(And(val, d.mask), And(current.value, Not(d.mask)));
        DropDrop(old(faults), FetchAttempts(old(mem), old(faults), d.address), 1);
        r := Store(d.address, val);
      }
      if r.Ok? {
        EffectsSnoc(trace, Write(name, v));
        trace := trace + [Write(name, v)];
      }
    }

    /** `readBlock(name, result, size, offset)`: an unknown name returns 0 and reads
      * nothing; otherwise the checks run in order (each failure a `range_error`) and
      * then one transfer of `size` words from `address + offset` returns `size`. */
    method ReadBlock(name: string, size: Word, offset: Word) returns (r: Result<(Word, seq<Word>)>)
      modifies this`faults, this`trace
      ensures name !in table ==> r == Ok((0, [])) && faults == old(faults) && trace == old(trace)
      ensures name in table && BlockRejection(table[name], size, offset).Some? ==>
        r == Err(RangeError(BlockRejection(table[name], size, offset).value)) &&
        faults == old(faults) && trace == old(trace)
      ensures name in table && BlockRejection(table[name], size, offset).None? ==>
        var start := Add32(table[name].address, offset);
        faults == Drop(old(faults), 1) &&
        (r.Ok? <==> SpanMapped(mem, start, size) && !Faulty(old(faults), 0)) &&
        (r.Ok? ==> r.value == (size, ReadSpan(mem, start, size)) &&
                   trace == old(trace) + [BlockRead(name, offset, size)]) &&
        (r.Err? ==> r == Err(RuntimeError(TransportFailure)) && trace == old(trace))
      ensures Effects(trace) == Effects(old(trace))
    {
      if name !in table {
        return Ok((0, []));
      }
      var d := table[name];
      var why := BlockRejection(d, size, offset);
      if why.Some? {
        return Err(RangeError(why.value));
      }
      var start := Add32(d.address, offset);
      var ok := SpanMapped(mem, start, size) && !Faulty(faults, 0);
      faults := Drop(faults, 1);
      if !ok {
        return Err(RuntimeError(TransportFailure));
      }
      r := Ok((size, ReadSpan(mem, start, size)));
      EffectsSnoc(trace, BlockRead(name, offset, size));
      trace := trace + [BlockRead(name, offset, size)];
    }

    /** `writeBlock(name, values, size, offset)`: an unknown name silently does
      * nothing; otherwise the same checks as `readBlock` run in the same order, each
      * failure a `runtime_error`, and then one transfer stores the words. */
    method WriteBlock(name: string, values: seq<Word>, offset: Word) returns (r: Result<()>)
      requires |values| < WORD
      modifies this`mem, this`faults, this`trace
      ensures name !in table ==> r == Ok(()) && unchanged(this)
      ensures name in table && BlockRejection(table[name], |values|, offset).Some? ==>
        r == Err(RuntimeError(BlockRejection(table[name], |values|, offset).value)) && unchanged(this)
      ensures name in table && BlockRejection(table[name], |values|, offset).None? ==>
        var start := Add32(table[name].address, offset);
        faults == Drop(old(faults), 1) &&
        (r.Ok? <==> SpanMapped(old(mem), start, |values|) && !Faulty(old(faults), 0)) &&
        (r.Ok? ==> mem == WriteSpan(old(mem), start, values) &&
                   trace == old(trace) + [BlockWrite(name, offset, values)]) &&
        (r.Err? ==> r == Err(RuntimeError(TransportFailure)) && mem == old(mem) && trace == old(trace))
      ensures Effects(trace) == Effects(old(trace)) + BlockWriteEffect(table, name, offset, values, r)
    {
      if name !in table {
        return Ok(());
      }
      var d := table[name];
      var why := BlockRejection(d, |values|, offset);
      if why.Some? {
        return Err(RuntimeError(why.value));
      }
      var start := Add32(d.address, offset);
      var ok := SpanMapped(mem, start, |values|) && !Faulty(faults, 0);
      faults := Drop(faults, 1);
      if !ok {
        return Err(RuntimeError(TransportFailure));
      }
      mem := WriteSpan(mem, start, values);
      r := Ok(());
      EffectsSnoc(trace, BlockWrite(name, offset, values));
      trace := trace + [BlockWrite(name, offset, values)];
    }

    /** `writeBlock(name, words, |words|)` at offset 0, as one step of `WriteBlocks`. */
    method WriteWholeBlock(name: string, values: seq<Word>) returns (r: Result<()>)
      requires |values| < WORD
      modifies this`mem, this`faults, this`trace
      ensures mem.Keys == old(mem).Keys
      ensures r.Ok? ==> (mem == (if name in table then WriteSpan(old(mem), table[name].address, values) else old(mem)) &&
                         Effects(trace) == Effects(old(trace)) + (if name in table then [BlockWrite(name, 0, values)] else []))
      ensures r.Err? ==> r.error.RuntimeError?
    {
      r := WriteBlock(name, values, 0);
      if name in table {
        assert Add32(table[name].address, 0) == table[name].address;
      }
    }

    /** `writeBlock(name, words, |words|)` for each block in turn, each at offset 0,
      * stopping at the first that throws. */
    method WriteBlocks(bs: seq<(string, seq<Word>)>) returns (r: Result<()>)
      requires forall i :: 0 <= i < |bs| ==> |bs[i].1| < WORD
      modifies this`mem, this`faults, this`trace
      ensures mem.Keys == old(mem).Keys
      ensures r.Ok? ==> (mem == BlocksWritten(old(mem), table, bs) &&
                         Effects(trace) == Effects(old(trace)) + BlockWritesOf(table, bs))
      ensures r.Err? ==> r.error.RuntimeError?
    {
      var i := 0;
      while i < |bs|
        invariant 0 <= i <= |bs|
        invariant mem.Keys == old(mem).Keys
        invariant mem == BlocksWritten(old(mem), table, bs[..i])
        invariant Effects(trace) == Effects(old(trace)) + BlockWritesOf(table, bs[..i])
      {
        var w := WriteWholeBlock(bs[i].0, bs[i].1);
        if w.Err? {
          return Err(w.error);
        }
        WriteBlocksStep(old(mem), table, bs, i);
        ghost var tail := if bs[i].0 in table then [BlockWrite(bs[i].0, 0, bs[i].1)] else [];
        Associative(Effects(old(trace)), BlockWritesOf(table, bs[..i]), tail);
        i := i + 1;
      }
      assert bs[..i] == bs;
      r := Ok(());
    }

    /** `readReg` for each name in turn, stopping at the first that throws. */
    method ReadRegs(names: seq<string>) returns (r: Result<seq<Word>>)
      modifies this`faults, this`trace
      ensures r.Ok? ==> (AllReadable(mem, table, names) && r.value == Values(mem, table, names) &&
                         trace == old(trace) + ReadsOf(names))
      ensures r.Err? ==> r.error.RuntimeError?
      ensures Effects(trace) == Effects(old(trace))
    {
      var vals: seq<Word> := [];
      var i := 0;
      while i < |names|
        invariant 0 <= i <= |names|
        invariant AllReadable(mem, table, names[..i])
        invariant vals == Values(mem, table, names[..i])
        invariant trace == old(trace) + ReadsOf(names[..i])
      {
        var x := ReadReg(names[i]);
        if x.Err? {
          EffectsAppend(old(trace), ReadsOf(names[..i]));
          ReadsHaveNoEffects(names[..i]);
          return Err(x.error);
        }
        ReadRegsStep(mem, table, names, i);
        vals := vals + [x.value];
        i := i + 1;
      }
      assert names[..i] == names;
      EffectsAppend(old(trace), ReadsOf(names));
      ReadsHaveNoEffects(names);
      r := Ok(vals);
    }

    /** `writeReg` for each (name, value) in turn, stopping at the first that throws. */
    method WriteRegs(ws: seq<(string, Word)>) returns (r: Result<()>)
      modifies this`mem, this`faults, this`trace
      ensures mem.Keys == old(mem).Keys
      ensures r.Ok? ==> (AllMapped(old(mem).Keys, table, ws) && mem == WriteAll(old(mem), table, ws) &&
                         Effects(trace) == Effects(old(trace)) + WritesOf(ws))
      ensures r.Err? ==> r.error.RuntimeError?
    {
      var i := 0;
      while i < |ws|
        invariant 0 <= i <= |ws|
        invariant mem.Keys == old(mem).Keys
        invariant AllMapped(old(mem).Keys, table, ws[..i])
        invariant mem == WriteAll(old(mem), table, ws[..i])
        invariant Effects(trace) == Effects(old(trace)) + WritesOf(ws[..i])
      {
        var w := WriteReg(ws[i].0, ws[i].1);
        if w.Err? {
          return Err(w.error);
        }
        WriteRegsStep(old(mem), table, ws, i);
        Associative(Effects(old(trace)), WritesOf(ws[..i]), [Write(ws[i].0, ws[i].1)]);
        i := i + 1;
      }
      assert ws[..i] == ws;
      r := Ok(());
    }

    /** The read loop of `repeatedRegRead`: `nReads` attempts to read `name`, failures
      * ignored unless `breakOnFailure`, when the loop ends at the first one. */
    method ReadRepeatedly(name: string, breakOnFailure: bool, nReads: Word) returns (ghost tries: nat, ghost good: nat)
      modifies this`faults, this`trace
      ensures good <= tries <= nReads
      ensures !breakOnFailure ==> tries == nReads
      ensures breakOnFailure ==> good == tries == nReads || good + 1 == tries
      ensures trace == old(trace) + Repeat(Read(name), good)
    {
      tries, good := 0, 0;
      var i: nat := 0;
      while i < nReads
        invariant i <= nReads && tries == i && good <= tries
        invariant breakOnFailure ==> good == i
        invariant trace == old(trace) + Repeat(Read(name), good)
      {
        var x := ReadReg(name);
        tries := tries + 1;
        i := i + 1;
        if x.Ok? {
          good := good + 1;
        } else if breakOnFailure {
          break;
        }
      }
    }

    /** The link reset that starts `repeatedRegRead`: 1 written to `LINK_RESET`. */
    method ResetLink() returns (r: Result<()>)
      modifies this`mem, this`faults, this`trace
      ensures r.Ok? ==> (LINK_RESET in table && table[LINK_RESET].address in old(mem) &&
                         mem == RegWritten(old(mem), table, LINK_RESET, 1) &&
                         trace == old(trace) + [Write(LINK_RESET, 1)])
      ensures r.Err? ==> r.error.RuntimeError?
    {
      r := WriteReg(LINK_RESET, 1);
    }

    /** What `repeatedRegRead` does after the link reset: the read loop, then the six
      * VFAT3 slow-control counters with the five error counters summed. */
    method ReadAndCount(name: string, breakOnFailure: bool, nReads: Word)
      returns (r: Result<ErrCnt>, ghost tries: nat, ghost good: nat)
      modifies this`faults, this`trace
      ensures r.Ok? ==> good <= tries <= nReads
      ensures r.Ok? && !breakOnFailure ==> tries == nReads
      ensures r.Ok? && breakOnFailure ==> good == tries == nReads || good + 1 == tries
      ensures r.Ok? ==> trace == old(trace) + Repeat(Read(name), good) + ReadsOf(CounterNames())
      ensures r.Ok? ==> (AllReadable(mem, table, CounterNames()) &&
                         r.value.(sum := 0) == CountersOf(Values(mem, table, CounterNames())) &&
                         r.value.sum == Total(CountersOf(Values(mem, table, CounterNames()))) % WORD)
      ensures r.Err? ==> r.error.RuntimeError?
    {
      tries, good := ReadRepeatedly(name, breakOnFailure, nReads);
      var vals := ReadRegs(CounterNames());
      if vals.Err? {
        return Err(vals.error), tries, good;
      }
      var summed := SumErrors(CountersOf(vals.value));
      r := Ok(summed);
    }

    /** `repeatedRegRead(name, breakOnFailure, nReads)`: a link reset, up to `nReads`
      * reads of `name` (stopping at the first failure when asked to), then the six
      * VFAT3 slow-control counters, with the five error counters summed. The ghost
      * outputs count the attempted and the successful reads of `name`. */
    method RepeatedRegRead(name: string, breakOnFailure: bool, nReads: Word)
      returns (r: Result<ErrCnt>, ghost tries: nat, ghost good: nat)
      modifies this`mem, this`faults, this`trace
      ensures r.Ok? ==> (LINK_RESET in table && table[LINK_RESET].address in old(mem) &&
                         mem == RegWritten(old(mem), table, LINK_RESET, 1))
      ensures r.Ok? ==> good <= tries <= nReads
      ensures r.Ok? && !breakOnFailure ==> tries == nReads
      ensures r.Ok? && breakOnFailure ==> good == tries == nReads || good + 1 == tries
      ensures r.Ok? ==> trace == old(trace) + [Write(LINK_RESET, 1)] + Repeat(Read(name), good) + ReadsOf(CounterNames())
      ensures r.Ok? ==> (AllReadable(mem, table, CounterNames()) &&
                         r.value.(sum := 0) == CountersOf(Values(mem, table, CounterNames())) &&
                         r.value.sum == Total(CountersOf(Values(mem, table, CounterNames()))) % WORD)
      ensures r.Err? ==> r.error.RuntimeError?
    {
      tries, good := 0, 0;
      var w := ResetLink();
      if w.Err? {
        return Err(w.error), tries, good;
      }
      r, tries, good := ReadAndCount(name, breakOnFailure, nReads);
      if r.Ok? {
        assert old(trace) + [Write(LINK_RESET, 1)] + Repeat(Read(name), good) + ReadsOf(CounterNames()) ==
               (old(trace) + [Write(LINK_RESET, 1)]) + Repeat(Read(name), good) + ReadsOf(CounterNames());
      }
    }

    /** `readReg(name)` as the operations built on it use it: the field value, or a
      * runtime error; nothing is written. */
    method Get(name: string) returns (r: Result<Word>)
      modifies this`faults, this`trace
      ensures r.Ok? ==> Readable(mem, table, name) && r.value == RegValue(mem, table, name)
      ensures r.Err? ==> AccessError(r.error)
      ensures Effects(trace) == Effects(old(trace))
    {
      r := ReadReg(name);
    }

    /** `writeReg(name, v)` as the operations built on it use it. */
    method Set(name: string, v: Word) returns (r: Result<()>)
      modifies this`mem, this`faults, this`trace
      ensures mem.Keys == old(mem).Keys
      ensures r.Ok? ==> (Mapped(old(mem).Keys, table, name) && mem == RegWritten(old(mem), table, name, v) &&
                         Effects(trace) == Effects(old(trace)) + [Write(name, v)])
      ensures r.Err? ==> mem == old(mem) && AccessError(r.error)
    {
      r := WriteReg(name, v);
    }

    /** `writeReg(name, v)` after the writes `done`: on success `done` and then this
      * write have been carried out. */
    method SetAfter(name: string, v: Word, ghost m0: map<Word, Word>, ghost e0: seq<Event>, ghost done: seq<(string, Word)>)
      returns (r: Result<()>)
      requires Performed(m0, mem, table, e0, Effects(trace), done)
      modifies this`mem, this`faults, this`trace
      ensures mem.Keys == old(mem).Keys
      ensures r.Ok? ==> Performed(m0, mem, table, e0, Effects(trace), done + [(name, v)])
      ensures r.Err? ==> mem == old(mem) && AccessError(r.error)
    {
      ghost var m1, e1 := mem, Effects(trace);
      r := Set(name, v);
      if r.Ok? {
        WriteOne(m1, table, name, v);
        PerformedStep(m0, m1, mem, table, e0, e1, Effects(trace), done, [(name, v)]);
      }
    }

    /** `writeRawReg(name, v)` as the operations built on it use it: the whole word at
      * the register's address becomes `v`, whatever its mask. */
    method SetRawReg(name: string, v: Word) returns (r: Result<()>)
      modifies this`mem, this`faults, this`trace
      ensures mem.Keys == old(mem).Keys
      ensures r.Ok? ==> RawPerformed(old(mem), mem, table, Effects(old(trace)), Effects(trace), [(name, v)])
      ensures r.Err? ==> mem == old(mem) && r.error.RuntimeError?
    {
      r := WriteRawReg(name, v);
      if r.Ok? {
        EffectsSnoc(old(trace), RawWrite(table[name].address, v));
        RawWriteOne(old(mem), table, name, v);
      }
    }

    /** `readRawAddress(a)` as the operations built on it use it. */
    method GetRaw(a: Word) returns (r: Result<Word>)
      modifies this`faults, this`trace
      ensures r.Ok? ==> a in mem && r.value == mem[a]
      ensures r.Err? ==> r.error.RuntimeError?
      ensures Effects(trace) == Effects(old(trace))
    {
      r := ReadRawAddress(a);
    }

    /** `writeRawAddress(a, v)` as the operations built on it use it. */
    method SetRaw(a: Word, v: Word) returns (r: Result<()>)
      modifies this`mem, this`faults, this`trace
      ensures mem.Keys == old(mem).Keys
      ensures r.Ok? ==> (a in old(mem) && mem == old(mem)[a := v] &&
                         Effects(trace) == Effects(old(trace)) + [RawWrite(a, v)])
      ensures r.Err? ==> mem == old(mem) && r.error.RuntimeError?
    {
      r := WriteRawAddress(a, v);
    }

    /** `writeRawAddress(getAddress(name), v)` for each (name, v) in turn, stopping at
      * the first that throws. */
    method WriteRawRegs(ws: seq<(string, Word)>) returns (r: Result<()>)
      modifies this`mem, this`faults, this`trace
      ensures mem.Keys == old(mem).Keys
      ensures r.Ok? ==> (AllMapped(old(mem).Keys, table, ws) && mem == RawWriteAll(old(mem), table, ws) &&
                         Effects(trace) == Effects(old(trace)) + RawWritesOf(table, ws))
      ensures r.Err? ==> r.error.RuntimeError?
    {
      var i := 0;
      while i < |ws|
        invariant 0 <= i <= |ws|
        invariant mem.Keys == old(mem).Keys
        invariant AllMapped(old(mem).Keys, table, ws[..i])
        invariant mem == RawWriteAll(old(mem), table, ws[..i])
        invariant Effects(trace) == Effects(old(trace)) + RawWritesOf(table, ws[..i])
      {
        var a := GetAddress(ws[i].0);
        if a.Err? {
          return Err(a.error);
        }
        var w := SetRaw(a.value, ws[i].1);
        if w.Err? {
          return Err(w.error);
        }
        RawWriteStep(old(mem), table, ws, i);
        Associative(Effects(old(trace)), RawWritesOf(table, ws[..i]), [RawWrite(a.value, ws[i].1)]);
        i := i + 1;
      }
      assert ws[..i] == ws;
      r := Ok(());
    }

    /** `readBlock(address, …)`: a stub that transfers nothing and returns 0. */
    method ReadBlockAt(address: Word, size: Word, offset: Word) returns (n: Word)
      ensures n == 0
    {
      n := 0;
    }

    /** `writeBlock(address, …)`: a stub that transfers nothing. */
    method WriteBlockAt(address: Word, values: seq<Word>, offset: Word) returns (r: Result<()>)
      ensures r == Ok(())
    {
      r := Ok(());
    }
  }
}
