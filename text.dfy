/**
 * String building and reading used across the app: Swift's decimal rendering of
 * integers (`"\(n)"`, `%d`, `%02d`), ASCII lower-casing, and trimming of
 * `CharacterSet.whitespaces` (Unicode category Zs plus horizontal tab).
 */
module Text {

  predicate IsDigit(c: char) { '0' <= c <= '9' }

  predicate AllDigits(s: string) { forall i :: 0 <= i < |s| ==> IsDigit(s[i]) }

  function DigitChar(d: nat): (c: char)
    requires d < 10
    ensures IsDigit(c) && DigitValue(c) == d
  {
    ('0' as int + d) as char
  }

  function DigitValue(c: char): nat
    requires IsDigit(c)
  {
    (c as int) - ('0' as int)
  }

  /** Decimal rendering of a non-negative integer, as `"\(n)"` and `%d` print it. */
  function Dec(n: nat): (s: string)
    ensures 1 <= |s| && AllDigits(s)
    ensures |s| > 1 ==> s[0] != '0'
    ensures n < 10 ==> |s| == 1
    ensures 10 <= n < 100 ==> |s| == 2
    decreases n
  {
    if n < 10 then [DigitChar(n)] else Dec(n / 10) + [DigitChar(n % 10)]
  }

  /** The number a string of decimal digits denotes. */
  function Value(s: string): nat
    requires AllDigits(s)
  {
    if s == [] then 0 else 10 * Value(s[..|s| - 1]) + DigitValue(s[|s| - 1])
  }

  /** Reading back what `Dec` wrote gives the number. */
  lemma {:induction false} ValueOfDec(n: nat)
    ensures Value(Dec(n)) == n
    decreases n
  {
    if n >= 10 {
      var s := Dec(n);
      assert s[..|s| - 1] == Dec(n / 10);
      ValueOfDec(n / 10);
    }
  }

  /** `Dec` is injective: distinct numbers never print alike. */
  lemma DecInjective(m: nat, n: nat)
    requires Dec(m) == Dec(n)
    ensures m == n
  {
    ValueOfDec(m);
    ValueOfDec(n);
  }

  /** Swift's rendering of any `Int`: a minus sign before the magnitude when negative. */
  function IntStr(i: int): (s: string)
    ensures i >= 0 ==> s == Dec(i)
    ensures i < 0 ==> s == "-" + Dec(-i)
  {
    if i < 0 then "-" + Dec(-i) else Dec(i)
  }

  /** `%02d` for a non-negative number: zero-padded to at least two digits. */
  function Pad2(n: nat): (s: string)
    ensures AllDigits(s) && |s| >= 2
    ensures n < 100 ==> |s| == 2
  {
    if n < 10 then "0" + Dec(n) else Dec(n)
  }

  lemma {:induction false} ValueOfPad2(n: nat)
    ensures Value(Pad2(n)) == n
  {
    ValueOfDec(n);
    if n < 10 {
      var s := Pad2(n);
      assert s[..|s| - 1] == "0";
    }
  }

  /** Length of the longest prefix of `s` made of decimal digits. */
  function DigitRun(s: string): (k: nat)
    ensures k <= |s|
    ensures k < |s| ==> !IsDigit(s[k])
  {
    if s == [] || !IsDigit(s[0]) then 0 else 1 + DigitRun(s[1..])
  }

  /** The leading run is made of digits. */
  lemma {:induction false} DigitRunDigits(s: string)
    ensures AllDigits(s[..DigitRun(s)])
  {
    if s != [] && IsDigit(s[0]) {
      DigitRunDigits(s[1..]);
      assert s[..DigitRun(s)] == [s[0]] + s[1..][..DigitRun(s[1..])];
    }
  }

  /** A digit string followed by a non-digit (or nothing) is exactly the leading run. */
  lemma {:induction false} DigitRunOf(d: string, t: string)
    requires AllDigits(d)
    requires t == [] || !IsDigit(t[0])
    ensures DigitRun(d + t) == |d|
  {
    if d != [] {
      assert (d + t)[1..] == d[1..] + t;
      DigitRunOf(d[1..], t);
    } else {
      assert d + t == t;
    }
  }

  /** Reads a leading decimal number off `s`, returning it with the rest of the string. */
  function ReadNat(s: string): (r: (nat, string))
    ensures |r.1| <= |s|
  {
    var k := DigitRun(s);
    DigitRunDigits(s);
    (Value(s[..k]), s[k..])
  }

  /** A run of digits followed by a non-digit (or nothing) reads as the number the run denotes. */
  lemma ReadNatOfDigits(d: string, t: string)
    requires AllDigits(d)
    requires t == [] || !IsDigit(t[0])
    ensures ReadNat(d + t) == (Value(d), t)
  {
    DigitRunOf(d, t);
    assert (d + t)[..|d|] == d;
    assert (d + t)[|d|..] == t;
  }

  lemma ReadNatOfDec(n: nat, t: string)
    requires t == [] || !IsDigit(t[0])
    ensures ReadNat(Dec(n) + t) == (n, t)
  {
    ReadNatOfDigits(Dec(n), t);
    ValueOfDec(n);
  }

  lemma ReadNatOfPad2(n: nat, t: string)
    requires t == [] || !IsDigit(t[0])
    ensures ReadNat(Pad2(n) + t) == (n, t)
  {
    ReadNatOfDigits(Pad2(n), t);
    ValueOfPad2(n);
  }

  // ---- Lower-casing --------------------------------------------------------

  /** ASCII lower-casing of one character. */
  function LowerChar(c: char): (d: char)
    ensures 'A' <= c <= 'Z' ==> d as int == c as int + 32
    ensures !('A' <= c <= 'Z') ==> d == c
  {
    if 'A' <= c <= 'Z' then (c as int + 32) as char else c
  }

  function Lower(s: string): (r: string)
    ensures |r| == |s| && forall i :: 0 <= i < |s| ==> r[i] == LowerChar(s[i])
  {
    seq(|s|, i requires 0 <= i < |s| => LowerChar(s[i]))
  }

  lemma LowerIdempotent(s: string)
    ensures Lower(Lower(s)) == Lower(s)
  {
  }

  // ---- Trimming ------------------------------------------------------------

  /** Members of `CharacterSet.whitespaces`: horizontal tab and the space separators (Zs). */
  predicate IsSpace(c: char)
  {
    c == '\t' || c == ' ' || c == '\U{00A0}' || c == '\U{1680}'
    || ('\U{2000}' <= c <= '\U{200A}') || c == '\U{202F}' || c == '\U{205F}' || c == '\U{3000}'
  }

  predicate AllSpace(s: string) { forall i :: 0 <= i < |s| ==> IsSpace(s[i]) }

  /** Drops leading whitespace. */
  function TrimStart(s: string): (r: string)
    ensures |r| <= |s| && r == s[|s| - |r|..]
    ensures AllSpace(s[..|s| - |r|])
    ensures r == [] || !IsSpace(r[0])
  {
    if s != [] && IsSpace(s[0]) then TrimStart(s[1..]) else s
  }

  /** Drops trailing whitespace. */
  function TrimEnd(s: string): (r: string)
    ensures |r| <= |s| && r == s[..|r|]
    ensures AllSpace(s[|r|..])
    ensures r == [] || !IsSpace(r[|r| - 1])
  {
    if s != [] && IsSpace(s[|s| - 1]) then TrimEnd(s[..|s| - 1]) else s
  }

  /** `trimmingCharacters(in: .whitespaces)`. */
  function Trim(s: string): (r: string)
    ensures r == [] || (!IsSpace(r[0]) && !IsSpace(r[|r| - 1]))
  {
    TrimEnd(TrimStart(s))
  }

  /** A name trims to nothing exactly when it is all whitespace. */
  lemma TrimEmptyIff(s: string)
    ensures Trim(s) == [] <==> AllSpace(s)
  {
    var t := TrimStart(s);
    var i := |s| - |t|;
    if Trim(s) == [] {
      assert t[0..] == t;
      assert t == [];
      assert s[..i] == s;
    } else {
      var r := Trim(s);
      assert r == t[..|r|];
      assert t == s[i..];
      assert !IsSpace(s[i]);
    }
  }

  lemma TrimIdempotent(s: string)
    ensures Trim(Trim(s)) == Trim(s)
  {
  }
}
