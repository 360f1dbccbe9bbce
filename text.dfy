/** Strings as the register layer builds and takes them apart: `std::to_string` and
  * `std::hex` renderings of unsigned numbers, `stoull(…, 16)` parsing, and the
  * `split` template of server/utils.h, which tokenises with `std::getline`. */
module Text {

  import opened Wrappers

  // ---------------------------------------------------------------------------
  // Decimal rendering (`std::to_string` of an unsigned value)

  function DecDigit(d: nat): (c: char)
    requires d < 10
    ensures '0' <= c <= '9'
  {
    (48 + d) as char
  }

  /** `std::to_string(n)`: no sign, no leading zeros, "0" for zero. */
  function Dec(n: nat): (s: string)
    ensures |s| >= 1
    ensures forall i :: 0 <= i < |s| ==> '0' <= s[i] <= '9'
    decreases n
  {
    if n < 10 then [DecDigit(n)] else Dec(n / 10) + [DecDigit(n % 10)]
  }

  /** The value of a string of decimal digits. */
  function DecValue(s: string): nat
    decreases |s|
  {
    if s == [] then 0
    else 10 * DecValue(s[..|s| - 1]) + (if '0' <= s[|s| - 1] <= '9' then s[|s| - 1] as int - 48 else 0)
  }

  /** Reading back a decimal rendering gives the number. */
  lemma {:induction false} DecRoundTrip(n: nat)
    ensures DecValue(Dec(n)) == n
    decreases n
  {
    if n >= 10 {
      var s := Dec(n);
      assert s[..|s| - 1] == Dec(n / 10);
      DecRoundTrip(n / 10);
    }
  }

  /** Distinct numbers have distinct decimal renderings, so the register names built
    * from an index (`"OH" + std::to_string(n)`) are distinct. */
  lemma DecInjective(a: nat, b: nat)
    requires Dec(a) == Dec(b)
    ensures a == b
  {
    DecRoundTrip(a);
    DecRoundTrip(b);
  }

  // ---------------------------------------------------------------------------
  // Hexadecimal rendering (`std::hex`) and `stoull(s, nullptr, 16)`

  function HexDigit(d: nat): (c: char)
    requires d < 16
  {
    if d < 10 then (48 + d) as char else (87 + d) as char
  }

  predicate IsHexDigit(c: char)
  {
    '0' <= c <= '9' || 'a' <= c <= 'f' || 'A' <= c <= 'F'
  }

  function HexValue(c: char): (d: nat)
    requires IsHexDigit(c)
    ensures d < 16
  {
    if '0' <= c <= '9' then c as int - 48
    else if 'a' <= c <= 'f' then c as int - 87
    else c as int - 55
  }

  /** `os << std::hex << n`: lower-case digits, no prefix, no leading zeros. */
  function Hex(n: nat): (s: string)
    ensures |s| >= 1
    ensures forall i :: 0 <= i < |s| ==> IsHexDigit(s[i])
    decreases n
  {
    if n < 16 then [HexDigit(n)] else Hex(n / 16) + [HexDigit(n % 16)]
  }

  /** `stoull(s, nullptr, 16)` on a non-empty string of hexadecimal digits, the form
    * `serialize` writes; `None` for every other string. */
  function ParseHex(s: string): (r: Option<nat>)
    ensures r.Some? <==> (|s| >= 1 && forall i :: 0 <= i < |s| ==> IsHexDigit(s[i]))
    decreases |s|
  {
    if s == [] || !IsHexDigit(s[|s| - 1]) then None
    else if |s| == 1 then Some(HexValue(s[0]))
    else match ParseHex(s[..|s| - 1])
      case None => None
      case Some(h) => Some(16 * h + HexValue(s[|s| - 1]))
  }

  /** Parsing a hexadecimal rendering gives the number back. */
  lemma {:induction false} HexRoundTrip(n: nat)
    ensures ParseHex(Hex(n)) == Some(n)
    decreases n
  {
    if n >= 16 {
      var s := Hex(n);
      assert s[..|s| - 1] == Hex(n / 16);
      HexRoundTrip(n / 16);
    }
  }

  // ---------------------------------------------------------------------------
  // Tokenising (`split`, server/utils.h)

  /** Index of the first `d` in `s`; `|s|` when there is none. */
  function Find(s: string, d: char): (i: nat)
    ensures i <= |s|
    ensures i < |s| ==> s[i] == d
    ensures forall j :: 0 <= j < i ==> s[j] != d
    decreases |s|
  {
    if s == [] then 0 else if s[0] == d then 0 else 1 + Find(s[1..], d)
  }

  /** The tokens `std::getline(ss, item, d)` yields one after the other: each
    * delimiter ends a token (possibly empty); the text after the last delimiter is a
    * token only when it is not empty, so a trailing delimiter adds no empty token
    * and the empty string has no token. */
  function Tokens(s: string, d: char): seq<string>
    decreases |s|
  {
    if s == [] then []
    else
      var i := Find(s, d);
      if i == |s| then [s] else [s[..i]] + Tokens(s[i + 1..], d)
  }

  /** The tokens put back together with `d` between them. */
  function Join(ts: seq<string>, d: char): string
    decreases |ts|
  {
    if ts == [] then [] else if |ts| == 1 then ts[0] else ts[0] + [d] + Join(ts[1..], d)
  }

  /** A token never contains the delimiter. */
  lemma {:induction false} TokensHaveNoDelimiter(s: string, d: char)
    ensures forall k :: 0 <= k < |Tokens(s, d)| ==> d !in Tokens(s, d)[k]
    decreases |s|
  {
    if s != [] {
      var i := Find(s, d);
      if i < |s| {
        TokensHaveNoDelimiter(s[i + 1..], d);
        assert d !in s[..i];
      }
    }
  }

  /** Joining the tokens with the delimiter gives back any string that does not end
    * with the delimiter. */
  lemma {:induction false} JoinTokens(s: string, d: char)
    requires s == [] || s[|s| - 1] != d
    ensures Join(Tokens(s, d), d) == s
    decreases |s|
  {
    if s != [] {
      var i := Find(s, d);
      if i < |s| {
        var rest := s[i + 1..];
        assert rest != [];
        JoinTokens(rest, d);
        assert s == s[..i] + [d] + rest;
      }
    }
  }

  /** Splitting undoes joining, for delimiter-free tokens of which the last is not
    * empty. */
  lemma {:induction false} TokensOfJoin(ts: seq<string>, d: char)
    requires |ts| >= 1 && ts[|ts| - 1] != []
    requires forall i :: 0 <= i < |ts| ==> d !in ts[i]
    ensures Tokens(Join(ts, d), d) == ts
    decreases |ts|
  {
    if |ts| == 1 {
      LastToken(ts[0], d);
    } else {
      TokensOfJoin(ts[1..], d);
      TokenThenRest(ts[0], Join(ts[1..], d), d);
      assert [ts[0]] + ts[1..] == ts;
    }
  }

  /** A string that ends with the delimiter loses it: only the text before it comes
    * back. */
  lemma TrailingDelimiter(s: string, d: char)
    requires d !in s
    ensures Tokens(s + [d], d) == [s]
  {
    TokenThenRest(s, [], d);
    assert s + [d] + [] == s + [d];
  }

  /** A delimiter-free prefix ended by the delimiter is the first token. */
  lemma {:induction false} TokenThenRest(item: string, rest: string, d: char)
    requires d !in item
    ensures Tokens(item + [d] + rest, d) == [item] + Tokens(rest, d)
  {
    var s := item + [d] + rest;
    FindAfter(item, rest, d);
    assert s[..|item|] == item;
    assert s[|item| + 1..] == rest;
  }

  lemma {:induction false} FindAfter(item: string, rest: string, d: char)
    requires d !in item
    ensures Find(item + [d] + rest, d) == |item|
    decreases |item|
  {
    if item != [] {
      assert (item + [d] + rest)[1..] == item[1..] + [d] + rest;
      FindAfter(item[1..], rest, d);
    }
  }

  /** A non-empty delimiter-free string is a single token. */
  lemma LastToken(s: string, d: char)
    requires s != [] && d !in s
    ensures Tokens(s, d) == [s]
  {
  }

  /** One character of the getline loop: a delimiter closes the pending token, any
    * other character extends it. */
  lemma SplitStep(item: string, s: string, i: nat, d: char)
    requires i < |s| && d !in item
    ensures s[i] == d ==> Tokens(item + s[i..], d) == [item] + Tokens([] + s[i + 1..], d)
    ensures s[i] != d ==> Tokens(item + s[i..], d) == Tokens((item + [s[i]]) + s[i + 1..], d)
  {
    var rest := s[i + 1..];
    assert s[i..] == [s[i]] + rest;
    assert [] + rest == rest;
    if s[i] == d {
      TokenThenRest(item, rest, d);
      assert item + s[i..] == item + [d] + rest;
    } else {
      assert item + s[i..] == (item + [s[i]]) + rest;
    }
  }

  /** `split(s, d)`: the getline loop, appending one token per delimiter and the
    * non-empty remainder at the end. */
  method Split(s: string, d: char) returns (elems: seq<string>)
    ensures elems == Tokens(s, d)
  {
    elems := [];
    var item: string := [];
    var i := 0;
    assert item + s[i..] == s;
    while i < |s|
      invariant 0 <= i <= |s|
      invariant d !in item
      invariant elems + Tokens(item + s[i..], d) == Tokens(s, d)
    {
      SplitAdvance(elems, item, s, i, d);
      if s[i] == d {
        elems := elems + [item];
        item := [];
      } else {
        item := item + [s[i]];
      }
      i := i + 1;
    }
    assert item + s[i..] == item;
    if item != [] {
      LastToken(item, d);
      elems := elems + [item];
    }
  }

  /** The getline loop's invariant holds after one more character. */
  lemma SplitAdvance(elems: seq<string>, item: string, s: string, i: nat, d: char)
    requires i < |s| && d !in item
    requires elems + Tokens(item + s[i..], d) == Tokens(s, d)
    ensures s[i] == d ==> (elems + [item]) + Tokens([] + s[i + 1..], d) == Tokens(s, d)
    ensures s[i] != d ==> d !in item + [s[i]] && elems + Tokens((item + [s[i]]) + s[i + 1..], d) == Tokens(s, d)
  {
    SplitStep(item, s, i, d);
    if s[i] == d {
      var rest := Tokens([] + s[i + 1..], d);
      assert elems + ([item] + rest) == (elems + [item]) + rest;
    }
  }

  /** `s.find_first_of(t) != npos` for a one-character `t`, `s.rfind(t) != npos`:
    * `t` occurs in `s`. */
  predicate Contains(s: string, t: string)
    decreases |s|
  {
    if |s| < |t| then false else s[..|t|] == t || (s != [] && Contains(s[1..], t))
  }

  /** A string that starts with `p` differs from one that has another character
    * where `p` has its i-th. */
  lemma PrefixDiffers(p: string, t: string, k: string, i: nat)
    requires i < |p| && i < |k| && p[i] != k[i]
    ensures p + t != k
  {
    assert (p + t)[i] == p[i];
  }
}
