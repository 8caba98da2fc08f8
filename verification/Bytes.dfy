/**
 Byte strings, their lowercase hex form, and UTF-8.

 A digest is 32 bytes; on disk and in JSON it appears as 64 lowercase hex characters.
 */
module Bytes {

  type byte = x: int | 0 <= x < 256
  type Bytes = seq<byte>
  type Digest = d: Bytes | |d| == 32 witness seq(32, _ => 0)

  /******* Hex *******/

  function HexDigit(n: nat): (c: char)
    requires n < 16
    ensures IsHexDigit(c)
  {
    if n < 10 then ('0' as int + n) as char else ('a' as int + n - 10) as char
  }

  predicate IsHexDigit(c: char) {
    '0' <= c <= '9' || 'a' <= c <= 'f'
  }

  function HexValue(c: char): (n: nat)
    requires IsHexDigit(c)
    ensures n < 16 && HexDigit(n) == c
  {
    if c <= '9' then c as int - '0' as int else c as int - 'a' as int + 10
  }

  predicate AllHex(s: string) {
    forall i | 0 <= i < |s| :: IsHexDigit(s[i])
  }

  /** `hexstr`: lowercase hex, not empty, an even number of digits. */
  predicate IsHexStr(s: string) {
    s != "" && AllHex(s) && |s| % 2 == 0
  }

  /** `hex64`. */
  predicate IsHex64(s: string) {
    |s| == 64 && AllHex(s)
  }

  function Hex(b: Bytes): (s: string)
    ensures |s| == 2 * |b| && AllHex(s)
  {
    if b == [] then "" else [HexDigit(b[0] / 16), HexDigit(b[0] % 16)] + Hex(b[1..])
  }

  function FromHex(s: string): (b: Bytes)
    requires AllHex(s) && |s| % 2 == 0
    ensures 2 * |b| == |s|
  {
    if s == "" then [] else [HexValue(s[0]) * 16 + HexValue(s[1])] + FromHex(s[2..])
  }

  lemma HexDigitInjective(m: nat, n: nat)
    requires m < 16 && n < 16 && HexDigit(m) == HexDigit(n)
    ensures m == n
  {
  }

  lemma {:induction false} HexRoundTrip(b: Bytes)
    ensures FromHex(Hex(b)) == b
  {
    if b != [] {
      HexRoundTrip(b[1..]);
      assert Hex(b)[2..] == Hex(b[1..]);
      HexDigitInjective(b[0] / 16, HexValue(Hex(b)[0]));
      HexDigitInjective(b[0] % 16, HexValue(Hex(b)[1]));
    }
  }

  lemma {:induction false} FromHexRoundTrip(s: string)
    requires AllHex(s) && |s| % 2 == 0
    ensures Hex(FromHex(s)) == s
  {
    if s != "" {
      FromHexRoundTrip(s[2..]);
      var hi, lo := HexValue(s[0]), HexValue(s[1]);
      var b := FromHex(s);
      assert b[1..] == FromHex(s[2..]);
      assert b[0] / 16 == hi && b[0] % 16 == lo;
      assert s == [s[0], s[1]] + s[2..];
    }
  }

  lemma HexInjective(a: Bytes, b: Bytes)
    requires Hex(a) == Hex(b)
    ensures a == b
  {
    HexRoundTrip(a);
    HexRoundTrip(b);
  }

  /******* UTF-8 *******/

  function Utf8Char(c: char): (b: Bytes)
    ensures 1 <= |b| <= 4
    ensures c as int < 0x80 ==> b == [c as int]
  {
    var n := c as int;
    if n < 0x80 then [n]
    else if n < 0x800 then [0xC0 + n / 0x40, 0x80 + n % 0x40]
    else if n < 0x10000 then [0xE0 + n / 0x1000, 0x80 + n / 0x40 % 0x40, 0x80 + n % 0x40]
    else [0xF0 + n / 0x40000, 0x80 + n / 0x1000 % 0x40, 0x80 + n / 0x40 % 0x40, 0x80 + n % 0x40]
  }

  function Utf8(s: string): (b: Bytes)
    ensures |b| >= |s|
  {
    if s == "" then [] else Utf8Char(s[0]) + Utf8(s[1..])
  }

  /** The code point at the head of an encoding, read off the lead byte. */
  function Utf8Head(b: Bytes): (n: int)
    requires b != []
  {
    if b[0] < 0x80 then b[0]
    else if b[0] < 0xE0 then if |b| < 2 then -1 else (b[0] as int - 0xC0) * 0x40 + (b[1] as int - 0x80)
    else if b[0] < 0xF0 then
      if |b| < 3 then -1 else (b[0] as int - 0xE0) * 0x1000 + (b[1] as int - 0x80) * 0x40 + (b[2] as int - 0x80)
    else
      if |b| < 4 then -1
      else (b[0] as int - 0xF0) * 0x40000 + (b[1] as int - 0x80) * 0x1000 + (b[2] as int - 0x80) * 0x40 + (b[3] as int - 0x80)
  }

  lemma Utf8HeadInverts(c: char, rest: Bytes)
    ensures Utf8Head(Utf8Char(c) + rest) == c as int
  {
    var n := c as int;
    assert n / 0x1000 == n / 0x40 / 0x40;
    assert n / 0x40000 == n / 0x1000 / 0x40;
  }

  /** Two texts with one encoding are one text. */
  lemma {:induction false} Utf8Injective(s: string, t: string)
    requires Utf8(s) == Utf8(t)
    ensures s == t
  {
    if s != "" && t != "" {
      Utf8HeadInverts(s[0], Utf8(s[1..]));
      Utf8HeadInverts(t[0], Utf8(t[1..]));
      assert s[0] == t[0];
      var k := |Utf8Char(s[0])|;
      assert Utf8(s)[k..] == Utf8(s[1..]);
      assert Utf8(t)[k..] == Utf8(t[1..]);
      Utf8Injective(s[1..], t[1..]);
      assert s == [s[0]] + s[1..] && t == [t[0]] + t[1..];
    }
  }
}
