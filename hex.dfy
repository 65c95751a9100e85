/**
 * Bytes and their lowercase hexadecimal rendering, as the importer spells a
 * SHA-256 digest: each byte printed with `%02x`, the pieces joined in order.
 */
module Hex {
  import opened Wrappers

  type Byte = b: int | 0 <= b < 256

  /** A SHA-256 digest: 32 bytes. */
  type Digest = d: seq<Byte> | |d| == 32 witness seq(32, i => 0)

  predicate IsHexDigit(c: char) { '0' <= c <= '9' || 'a' <= c <= 'f' }

  function HexDigit(n: nat): (c: char)
    requires n < 16
    ensures IsHexDigit(c) && HexDigitValue(c) == n
  {
    "0123456789abcdef"[n]
  }

  function HexDigitValue(c: char): (n: nat)
    requires IsHexDigit(c)
    ensures n < 16
  {
    if c <= '9' then (c as int) - ('0' as int) else (c as int) - ('a' as int) + 10
  }

  /** `String(format: "%02x", b)`: high nibble first. */
  function ByteHex(b: Byte): (s: string)
    ensures |s| == 2 && IsHexDigit(s[0]) && IsHexDigit(s[1])
    ensures 16 * HexDigitValue(s[0]) + HexDigitValue(s[1]) == b
  {
    [HexDigit(b / 16), HexDigit(b % 16)]
  }

  /** The digest's bytes rendered and joined. */
  function HexString(d: seq<Byte>): (s: string)
    ensures |s| == 2 * |d|
    ensures forall i :: 0 <= i < |s| ==> IsHexDigit(s[i])
  {
    if d == [] then "" else ByteHex(d[0]) + HexString(d[1..])
  }

  /** Byte `i` occupies characters `2i` and `2i + 1`, in digest order. */
  lemma {:induction false} HexStringAt(d: seq<Byte>, i: nat)
    requires i < |d|
    ensures HexString(d)[2 * i .. 2 * i + 2] == ByteHex(d[i])
  {
    if i > 0 {
      HexStringAt(d[1..], i - 1);
      assert HexString(d)[2 * i .. 2 * i + 2] == HexString(d[1..])[2 * (i - 1) .. 2 * (i - 1) + 2];
    }
  }

  /** Reads a lowercase hex string back into bytes; `None` when it is not one. */
  function ParseHex(s: string): (r: Option<seq<Byte>>)
    ensures r.Some? ==> 2 * |r.value| == |s|
    decreases |s|
  {
    if s == [] then Some([])
    else if |s| < 2 || !IsHexDigit(s[0]) || !IsHexDigit(s[1]) then None
    else match ParseHex(s[2..])
      case None => None
      case Some(rest) => Some([16 * HexDigitValue(s[0]) + HexDigitValue(s[1])] + rest)
  }

  /** The rendering loses nothing: parsing it gives the digest back. */
  lemma {:induction false} ParseHexString(d: seq<Byte>)
    ensures ParseHex(HexString(d)) == Some(d)
  {
    if d != [] {
      var s := HexString(d);
      assert s[2..] == HexString(d[1..]);
      ParseHexString(d[1..]);
      assert [d[0]] + d[1..] == d;
    }
  }

  /** Distinct digests never share a hash string. */
  lemma HexStringInjective(d1: seq<Byte>, d2: seq<Byte>)
    requires HexString(d1) == HexString(d2)
    ensures d1 == d2
  {
    ParseHexString(d1);
    ParseHexString(d2);
  }
}
