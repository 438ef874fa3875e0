/**
 * The pieces of Python's string handling that the harness relies on:
 * `str.strip()`, `str.split()` with no separator, `int(s)` on a decimal
 * literal, and the decimal rendering of an `int` inside an f-string.
 */
module PyText {
  import opened Wrappers

  /** Python's `str.isspace()` for a single character. */
  predicate IsSpace(c: char) {
    || c == ' ' || c == '\t' || c == '\n' || c == '\r' || c == '\U{000B}' || c == '\U{000C}'
    || ('\U{001C}' <= c <= '\U{001F}') || c == '\U{0085}' || c == '\U{00A0}'
    || c == '\U{1680}' || ('\U{2000}' <= c <= '\U{200A}') || c == '\U{2028}' || c == '\U{2029}'
    || c == '\U{202F}' || c == '\U{205F}' || c == '\U{3000}'
  }

  predicate NoSpace(s: string) {
    forall i :: 0 <= i < |s| ==> !IsSpace(s[i])
  }

  predicate AllSpace(s: string) {
    forall i :: 0 <= i < |s| ==> IsSpace(s[i])
  }

  /** A field as `str.split()` produces it: non-empty, no whitespace. */
  predicate IsWord(s: string) {
    |s| > 0 && NoSpace(s)
  }

  // ---------------------------------------------------------------- strip

  function TrimLeft(s: string): string {
    if s != [] && IsSpace(s[0]) then TrimLeft(s[1..]) else s
  }

  function TrimRight(s: string): string {
    if s != [] && IsSpace(s[|s| - 1]) then TrimRight(s[..|s| - 1]) else s
  }

  /** The left trim is a suffix, starts with a non-space, and what it drops is whitespace. */
  lemma {:induction false} TrimLeftShape(s: string)
    ensures var r := TrimLeft(s);
      && |r| <= |s| && r == s[|s| - |r|..]
      && (r == [] || !IsSpace(r[0]))
      && AllSpace(s[..|s| - |r|])
  {
    if s != [] && IsSpace(s[0]) {
      TrimLeftShape(s[1..]);
      var r := TrimLeft(s);
      assert s[1..][|s| - 1 - |r|..] == s[|s| - |r|..];
      forall k | 0 <= k < |s| - |r| ensures IsSpace(s[k]) {
        if k > 0 {
          assert s[k] == s[1..][..|s| - 1 - |r|][k - 1];
        }
      }
    } else {
      assert s[..0] == [];
    }
  }

  /** The right trim is a prefix, ends with a non-space, and what it drops is whitespace. */
  lemma {:induction false} TrimRightShape(s: string)
    ensures var r := TrimRight(s);
      && |r| <= |s| && r == s[..|r|]
      && (r == [] || !IsSpace(r[|r| - 1]))
      && AllSpace(s[|r|..])
  {
    if s != [] && IsSpace(s[|s| - 1]) {
      var front := s[..|s| - 1];
      TrimRightShape(front);
      var r := TrimRight(s);
      assert front[..|r|] == s[..|r|];
      forall k | |r| <= k < |s| ensures IsSpace(s[k]) {
        if k < |s| - 1 {
          assert s[k] == front[|r|..][k - |r|];
        }
      }
    } else {
      assert s[|s|..] == [];
    }
  }

  /** `s.strip()`: leading and trailing whitespace removed. */
  function Strip(s: string): (r: string)
    ensures r == [] || (!IsSpace(r[0]) && !IsSpace(r[|r| - 1]))
    ensures exists i, j :: 0 <= i <= j <= |s| && r == s[i..j] && AllSpace(s[..i]) && AllSpace(s[j..])
  {
    var l := TrimLeft(s);
    TrimLeftShape(s);
    var i := |s| - |l|;
    TrimRightSlice(s, i, l);
    TrimRightShape(l);
    TrimRightFirst(l);
    var j := i + |TrimRight(l)|;
    var r := TrimRight(l);
    assert 0 <= i <= j <= |s| && r == s[i..j] && AllSpace(s[..i]) && AllSpace(s[j..]);
    r
  }

  /** Trimming on the right keeps the first character. */
  lemma TrimRightFirst(s: string)
    ensures TrimRight(s) == [] || TrimRight(s)[0] == s[0]
  {
    TrimRightShape(s);
  }

  /** The right trim of a suffix `l == s[i..]` is the slice `s[i..j]`, and `s[j..]` is all whitespace. */
  lemma TrimRightSlice(s: string, i: nat, l: string)
    requires i <= |s| && l == s[i..]
    ensures var j := i + |TrimRight(l)|;
      j <= |s| && TrimRight(l) == s[i..j] && AllSpace(s[j..])
  {
    var r := TrimRight(l);
    TrimRightShape(l);
    var j := i + |r|;
    assert r == s[i..j] by { assert r == l[..|r|]; }
    assert s[j..] == l[|r|..];
  }

  /** A line is empty after `strip()` exactly when it is all whitespace. */
  lemma {:induction false} StripEmptyIff(s: string)
    ensures Strip(s) == [] <==> AllSpace(s)
  {
    var l := TrimLeft(s);
    TrimLeftShape(s);
    TrimRightShape(l);
    if Strip(s) == [] {
      assert AllSpace(l[0..]);
      assert l == [];
      assert s[..|s| - |l|] == s;
    }
  }

  // ---------------------------------------------------------------- split

  /** The longest prefix of `s` that holds no whitespace. */
  function Word(s: string): (w: string)
    ensures |w| <= |s| && w == s[..|w|]
    ensures NoSpace(w)
    ensures |w| < |s| ==> IsSpace(s[|w|])
    ensures s != [] && !IsSpace(s[0]) ==> |w| > 0
  {
    if s == [] || IsSpace(s[0]) then [] else [s[0]] + Word(s[1..])
  }

  /** `s.split()`: the maximal runs of non-whitespace, in order. */
  function Split(s: string): (fields: seq<string>)
    ensures forall i :: 0 <= i < |fields| ==> IsWord(fields[i])
    decreases |s|
  {
    if s == [] then []
    else if IsSpace(s[0]) then Split(s[1..])
    else
      var w := Word(s);
      [w] + Split(s[|w|..])
  }

  lemma {:induction false} WordOfWordThenSpace(w: string, rest: string)
    requires NoSpace(w)
    requires rest == [] || IsSpace(rest[0])
    ensures Word(w + rest) == w
  {
    if w != [] {
      assert (w + rest)[1..] == w[1..] + rest;
      WordOfWordThenSpace(w[1..], rest);
    }
  }

  lemma {:induction false} SplitAllSpace(s: string)
    requires AllSpace(s)
    ensures Split(s) == []
  {
    if s != [] {
      SplitAllSpace(s[1..]);
    }
  }

  /** Splitting a field followed by one whitespace character and more text. */
  lemma SplitCons(w: string, c: char, rest: string)
    requires IsWord(w) && IsSpace(c)
    ensures Split(w + [c] + rest) == [w] + Split(rest)
  {
    var s := w + [c] + rest;
    assert s == w + ([c] + rest);
    WordOfWordThenSpace(w, [c] + rest);
    assert s[|w|..] == [c] + rest;
    assert ([c] + rest)[1..] == rest;
  }

  /** Splitting a field followed only by whitespace gives that field. */
  lemma SplitLast(w: string, tail: string)
    requires IsWord(w) && AllSpace(tail)
    ensures Split(w + tail) == [w]
  {
    WordOfWordThenSpace(w, tail);
    assert (w + tail)[|w|..] == tail;
    SplitAllSpace(tail);
  }

  lemma {:induction false} WordAppend(s: string, t: string)
    requires t == [] || IsSpace(t[0])
    ensures Word(s + t) == Word(s)
  {
    if s != [] {
      assert (s + t)[1..] == s[1..] + t;
      WordAppend(s[1..], t);
    }
  }

  lemma {:induction false} SplitTrailingSpace(s: string, t: string)
    requires AllSpace(t)
    ensures Split(s + t) == Split(s)
    decreases |s|
  {
    if s == [] {
      assert s + t == t;
      SplitAllSpace(t);
    } else if IsSpace(s[0]) {
      assert (s + t)[1..] == s[1..] + t;
      SplitTrailingSpace(s[1..], t);
    } else {
      var w := Word(s);
      assert (s + t)[0] == s[0];
      if |w| == |s| {
        assert w == s;
        WordOfWordThenSpace(s, t);
        assert (s + t)[|w|..] == t;
        SplitAllSpace(t);
        assert s[|w|..] == [];
      } else {
        WordAppend(s, t);
        assert (s + t)[|w|..] == s[|w|..] + t;
        SplitTrailingSpace(s[|w|..], t);
      }
    }
  }

  lemma {:induction false} SplitTrimLeft(s: string)
    ensures Split(TrimLeft(s)) == Split(s)
  {
    if s != [] && IsSpace(s[0]) {
      SplitTrimLeft(s[1..]);
    }
  }

  lemma {:induction false} SplitTrimRight(s: string)
    ensures Split(TrimRight(s)) == Split(s)
  {
    if s != [] && IsSpace(s[|s| - 1]) {
      var front := s[..|s| - 1];
      SplitTrimRight(front);
      assert s == front + [s[|s| - 1]];
      SplitTrailingSpace(front, [s[|s| - 1]]);
    }
  }

  /** Splitting a stripped line gives the same fields as splitting the line. */
  lemma SplitStrip(s: string)
    ensures Split(Strip(s)) == Split(s)
  {
    SplitTrimLeft(s);
    SplitTrimRight(TrimLeft(s));
  }

  // ---------------------------------------------------------------- int

  predicate IsDigit(c: char) {
    '0' <= c <= '9'
  }

  predicate IsDigits(s: string) {
    |s| > 0 && forall i :: 0 <= i < |s| ==> IsDigit(s[i])
  }

  function DigitsValue(s: string): nat
    requires forall i :: 0 <= i < |s| ==> IsDigit(s[i])
  {
    if s == [] then 0
    else
      assert IsDigit(s[|s| - 1]);
      DigitsValue(s[..|s| - 1]) * 10 + (s[|s| - 1] as int - '0' as int)
  }

  /**
   * `int(s)` for a decimal literal: an optional sign followed by at least
   * one ASCII digit. Anything else is the ValueError path, here None.
   */
  function ParseInt(s: string): (r: Option<int>)
    ensures r.Some? ==> IsWord(s)
  {
    if |s| > 0 && (s[0] == '-' || s[0] == '+') then
      if IsDigits(s[1..]) then
        var n: int := DigitsValue(s[1..]);
        Some(if s[0] == '-' then -n else n)
      else None
    else if IsDigits(s) then Some(DigitsValue(s))
    else None
  }

  function DigitChar(d: nat): (c: char)
    requires d < 10
    ensures IsDigit(c) && c as int - '0' as int == d
  {
    ('0' as int + d) as char
  }

  /** The decimal digits of a natural number, most significant first. */
  function NatToString(n: nat): (r: string)
    ensures IsDigits(r) && DigitsValue(r) == n
  {
    if n < 10 then [DigitChar(n)]
    else
      var p := NatToString(n / 10);
      var r := p + [DigitChar(n % 10)];
      assert r[..|r| - 1] == p;
      r
  }

  /** `f"{n}"` for an `int n`: a minus sign for negatives, then the digits. */
  function IntToString(n: int): (r: string)
    ensures IsWord(r)
    ensures forall i :: 0 <= i < |r| ==> r[i] == '-' || IsDigit(r[i])
  {
    if n < 0 then "-" + NatToString(-n) else NatToString(n)
  }

  /** Parsing the decimal rendering of an integer gives the integer back. */
  lemma ParseIntToString(n: int)
    ensures ParseInt(IntToString(n)) == Some(n)
  {
    var s := IntToString(n);
    if n < 0 {
      assert s[1..] == NatToString(-n);
    } else {
      assert s[0] != '-' && s[0] != '+';
    }
  }
}
