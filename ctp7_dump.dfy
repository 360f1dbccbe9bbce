/** getmonCTP7dump of src/daq_monitor.cpp: each line of a register dump such as
  * `0x658030f8 r    GEM_AMC.OH_LINKS.OH11.VFAT23.DAQ_CRC_ERROR_CNT    0x00000000`
  * gives a key (its first word, the address) and a register (its third word, the
  * name); the map holds each key's register value, and a later line with the same
  * key replaces an earlier one.
  *
  * Opening the file is left to the caller: the model receives its lines, or None
  * when the file cannot be opened. */
module Ctp7Dump {

  import opened Wrappers
  import opened Bits
  import opened Text
  import opened Registers

  /** `std::replace(line, '\t', ' ')`. */
  function Untab(line: string): (r: string)
    ensures |r| == |line| && '\t' !in r
    ensures forall i :: 0 <= i < |line| && line[i] != '\t' ==> r[i] == line[i]
  {
    seq(|line|, i requires 0 <= i < |line| => if line[i] == '\t' then ' ' else line[i])
  }

  /** The tokens that are not empty, in order. */
  function NonEmpty(ts: seq<string>): (r: seq<string>)
    ensures |r| <= |ts|
    ensures forall i :: 0 <= i < |r| ==> r[i] != [] && r[i] in ts
    decreases |ts|
  {
    if ts == [] then []
    else NonEmpty(ts[..|ts| - 1]) + (if ts[|ts| - 1] == [] then [] else [ts[|ts| - 1]])
  }

  /** The words of a line: the non-empty tokens between its blanks, a tab counting as
    * a blank. */
  function Words(line: string): seq<string>
  {
    NonEmpty(Tokens(Untab(line), ' '))
  }

  /** What the inner loop keeps of the words: those it counts as 0 and 2. */
  function Kept(ws: seq<string>): seq<string>
  {
    (if |ws| > 0 then [ws[0]] else []) + (if |ws| > 2 then [ws[2]] else [])
  }

  /** One more word is kept when it is the first or the third. */
  lemma KeptNext(ws: seq<string>, w: string)
    ensures Kept(ws + [w]) == Kept(ws) + (if |ws| == 0 || |ws| == 2 then [w] else [])
  {
    var v := ws + [w];
    assert |ws| > 0 ==> v[0] == ws[0];
    assert |ws| > 2 ==> v[2] == ws[2];
  }

  /** One more token adds itself to the non-empty ones unless it is empty. */
  lemma NonEmptyNext(ts: seq<string>, k: nat)
    requires k < |ts|
    ensures NonEmpty(ts[..k + 1]) == NonEmpty(ts[..k]) + (if ts[k] == [] then [] else [ts[k]])
  {
    assert ts[..k + 1][..k] == ts[..k];
  }

  /** The tokenising loop of one line: split at blanks, skip empty tokens, keep the
    * words counted 0 and 2. */
  method DumpFields(line: string) returns (tmp: seq<string>)
    ensures tmp == Kept(Words(line))
  {
    var tokens := Split(Untab(line), ' ');
    tmp := [];
    var count := 0;
    var k := 0;
    while k < |tokens|
      invariant k <= |tokens|
      invariant count == |NonEmpty(tokens[..k])|
      invariant tmp == Kept(NonEmpty(tokens[..k]))
    {
      NonEmptyNext(tokens, k);
      if tokens[k] != [] {
        KeptNext(NonEmpty(tokens[..k]), tokens[k]);
        if count == 0 || count == 2 {
          tmp := tmp + [tokens[k]];
        }
        count := count + 1;
      }
      k := k + 1;
    }
    assert tokens[..k] == tokens;
  }

  /** `tmp.at(0)` and `tmp.at(1)` of a line: its first and third words, and
    * std::out_of_range when it has fewer than three. */
  function DumpEntry(line: string): (r: Result<(string, string)>)
    ensures r.Ok? <==> |Words(line)| >= 3
    ensures r.Ok? ==> r.value == (Words(line)[0], Words(line)[2])
    ensures r.Err? ==> r.error == OutOfRange(MissingToken)
  {
    var t := Kept(Words(line));
    if |t| < 2 then Err(OutOfRange(MissingToken)) else Ok((t[0], t[1]))
  }

  /** Every line gives a key and a readable register. */
  predicate DumpReadable(mem: map<Word, Word>, table: map<string, Descriptor>, ls: seq<string>)
  {
    forall i :: 0 <= i < |ls| ==> DumpEntry(ls[i]).Ok? && Readable(mem, table, DumpEntry(ls[i]).value.1)
  }

  /** The map of the lines one after the other, each key holding its register's value. */
  function DumpMap(mem: map<Word, Word>, table: map<string, Descriptor>, ls: seq<string>): map<string, Word>
    requires DumpReadable(mem, table, ls)
    decreases |ls|
  {
    if ls == [] then map[]
    else
      var q := ls[..|ls| - 1];
      assert forall i :: 0 <= i < |q| ==> q[i] == ls[i];
      DumpMap(mem, table, q)[DumpEntry(ls[|ls| - 1]).value.0 := RegValue(mem, table, DumpEntry(ls[|ls| - 1]).value.1)]
  }

  lemma DumpNext(mem: map<Word, Word>, table: map<string, Descriptor>, ls: seq<string>, i: nat)
    requires i < |ls| && DumpReadable(mem, table, ls[..i])
    requires DumpEntry(ls[i]).Ok? && Readable(mem, table, DumpEntry(ls[i]).value.1)
    ensures DumpReadable(mem, table, ls[..i + 1])
    ensures DumpMap(mem, table, ls[..i + 1]) ==
            DumpMap(mem, table, ls[..i])[DumpEntry(ls[i]).value.0 := RegValue(mem, table, DumpEntry(ls[i]).value.1)]
  {
    assert ls[..i + 1][..i] == ls[..i];
  }

  /** getmonCTP7dump: the lines in order, stopping at the first that is short or whose
    * register throws. */
  method GetmonCtp7Dump(hw: Hardware, file: Option<seq<string>>) returns (r: Result<map<string, Word>>)
    modifies hw`faults, hw`trace
    ensures file.None? ==> r == Err(RuntimeError(NoFile))
    ensures r.Ok? ==> file.Some? && DumpReadable(hw.mem, hw.table, file.value) &&
                      r.value == DumpMap(hw.mem, hw.table, file.value)
    ensures r.Err? && r.error.OutOfRange? ==>
              file.Some? && exists i :: 0 <= i < |file.value| && |Words(file.value[i])| < 3
    ensures r.Err? ==> r.error.RuntimeError? || r.error == OutOfRange(MissingToken)
    ensures Effects(hw.trace) == Effects(old(hw.trace))
  {
    if file.None? {
      return Err(RuntimeError(NoFile));
    }
    var ls := file.value;
    var out: map<string, Word> := map[];
    var i := 0;
    while i < |ls|
      invariant i <= |ls|
      invariant DumpReadable(hw.mem, hw.table, ls[..i])
      invariant out == DumpMap(hw.mem, hw.table, ls[..i])
      invariant Effects(hw.trace) == Effects(old(hw.trace))
    {
      var tmp := DumpFields(ls[i]);
      if |tmp| < 2 {
        assert |Words(ls[i])| < 3;
        return Err(OutOfRange(MissingToken));
      }
      var v := hw.Get(tmp[1]);
      if v.Err? {
        return Err(v.error);
      }
      DumpNext(hw.mem, hw.table, ls, i);
      out := out[tmp[0] := v.value];
      i := i + 1;
    }
    assert ls[..i] == ls;
    r := Ok(out);
  }

  /** The first word of each line. */
  function LineKeys(ls: seq<string>): (ks: seq<string>)
    requires forall i :: 0 <= i < |ls| ==> DumpEntry(ls[i]).Ok?
    ensures |ks| == |ls| && forall i :: 0 <= i < |ls| ==> ks[i] == DumpEntry(ls[i]).value.0
  {
    seq(|ls|, (i: int) requires 0 <= i < |ls| => DumpEntry(ls[i]).value.0)
  }

  /** The keys of the map are the first words of the lines that have three. */
  lemma DumpKeys(mem: map<Word, Word>, table: map<string, Descriptor>, ls: seq<string>, k: string)
    requires DumpReadable(mem, table, ls)
    ensures k in DumpMap(mem, table, ls) <==> exists i :: 0 <= i < |ls| && DumpEntry(ls[i]).value.0 == k
  {
    DumpMapKeys(mem, table, ls);
    var ks := LineKeys(ls);
    if k in ks {
      var i :| 0 <= i < |ks| && ks[i] == k;
      assert DumpEntry(ls[i]).value.0 == k;
    }
  }

  lemma {:induction false} DumpMapKeys(mem: map<Word, Word>, table: map<string, Descriptor>, ls: seq<string>)
    requires DumpReadable(mem, table, ls)
    ensures DumpMap(mem, table, ls).Keys == set k | k in LineKeys(ls)
    decreases |ls|
  {
    if ls != [] {
      var q := ls[..|ls| - 1];
      assert forall i :: 0 <= i < |q| ==> q[i] == ls[i];
      DumpMapKeys(mem, table, q);
      assert LineKeys(ls) == LineKeys(q) + [DumpEntry(ls[|ls| - 1]).value.0];
    }
  }

  /** A key holds the register of the last line that names it. */
  lemma {:induction false} DumpLastWins(mem: map<Word, Word>, table: map<string, Descriptor>, ls: seq<string>, j: nat)
    requires DumpReadable(mem, table, ls) && j < |ls|
    requires forall i :: j < i < |ls| ==> DumpEntry(ls[i]).value.0 != DumpEntry(ls[j]).value.0
    ensures DumpEntry(ls[j]).value.0 in DumpMap(mem, table, ls)
    ensures DumpMap(mem, table, ls)[DumpEntry(ls[j]).value.0] == RegValue(mem, table, DumpEntry(ls[j]).value.1)
    decreases |ls|
  {
    var q := ls[..|ls| - 1];
    if j < |ls| - 1 {
      assert q[j] == ls[j];
      assert forall i :: 0 <= i < |q| ==> q[i] == ls[i];
      DumpLastWins(mem, table, q, j);
    }
  }

  /** A character absent from the tokens and other than the delimiter is absent from
    * their join. */
  lemma {:induction false} JoinWithout(ts: seq<string>, d: char, c: char)
    requires c != d && forall i :: 0 <= i < |ts| ==> c !in ts[i]
    ensures c !in Join(ts, d)
    decreases |ts|
  {
    if |ts| > 1 {
      JoinWithout(ts[1..], d, c);
    }
  }

  lemma UntabKeeps(line: string)
    requires '\t' !in line
    ensures Untab(line) == line
  {
  }

  lemma {:induction false} NonEmptyKeeps(ts: seq<string>)
    requires forall i :: 0 <= i < |ts| ==> ts[i] != []
    ensures NonEmpty(ts) == ts
    decreases |ts|
  {
    if ts != [] {
      NonEmptyKeeps(ts[..|ts| - 1]);
    }
  }

  /** A line written as four blank-separated words gives its first word as the key and
    * its third as the register. */
  lemma DumpLineRoundTrip(address: string, perm: string, name: string, value: string)
    requires address != [] && perm != [] && name != [] && value != []
    requires ' ' !in address && ' ' !in perm && ' ' !in name && ' ' !in value
    requires '\t' !in address && '\t' !in perm && '\t' !in name && '\t' !in value
    ensures DumpEntry(Join([address, perm, name, value], ' ')) == Ok((address, name))
  {
    var ts := [address, perm, name, value];
    var line := Join(ts, ' ');
    JoinWithout(ts, ' ', '\t');
    UntabKeeps(line);
    TokensOfJoin(ts, ' ');
    NonEmptyKeeps(ts);
    assert Words(line) == ts;
  }
}
