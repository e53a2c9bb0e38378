/**
 * `urllib.parse.unquote` with its defaults (`encoding='utf-8'`, `errors='replace'`): the
 * percent-decoding of section 2.1 of RFC 3986, then UTF-8 decoding. The link parser applies
 * it to the display name (main.py:82); `parse_qs` applies it to every query name and value
 * (main.py:77).
 *
 * CPython splits the text into maximal runs of ASCII characters and keeps every other
 * character as it is. For each ASCII run, `%XX` with two hexadecimal digits becomes the
 * byte `XX`; any other `%` stays literal. The bytes are then decoded as UTF-8, and each
 * ill-formed part becomes one U+FFFD. An ill-formed part is a lone bad byte, or the longest
 * prefix of a sequence that could still have been well-formed.
 */
module Percent {

  type Byte = x: int | 0 <= x < 256

  predicate IsAscii(c: char) {
    c as int < 128
  }

  predicate AllAscii(t: string) {
    forall i :: 0 <= i < |t| ==> IsAscii(t[i])
  }

  predicate IsHex(c: char) {
    '0' <= c <= '9' || 'a' <= c <= 'f' || 'A' <= c <= 'F'
  }

  function HexValue(c: char): (v: nat)
    requires IsHex(c)
    ensures v < 16
  {
    if '0' <= c <= '9' then c as nat - '0' as nat
    else if 'a' <= c <= 'f' then c as nat - 'a' as nat + 10
    else c as nat - 'A' as nat + 10
  }

  /** `unquote_to_bytes` on a run of ASCII characters. */
  function UnquoteToBytes(t: string): (bs: seq<Byte>)
    requires AllAscii(t)
    decreases |t|
  {
    if t == [] then []
    else if t[0] == '%' && |t| >= 3 && IsHex(t[1]) && IsHex(t[2]) then
      [HexValue(t[1]) * 16 + HexValue(t[2])] + UnquoteToBytes(t[3..])
    else
      [t[0] as int] + UnquoteToBytes(t[1..])
  }

  /** U+FFFD, what the `replace` error handler puts in place of ill-formed UTF-8. */
  const REPLACEMENT: char := '\U{FFFD}'

  predicate IsContinuation(b: int) {
    0x80 <= b <= 0xBF
  }

  /**
   * The character at the start of `bs` and the number of bytes it takes up, as CPython's
   * UTF-8 decoder sees it. The valid range of the second byte depends on the first byte.
   * This rules out overlong forms, the surrogates D800-DFFF and values above 10FFFF.
   */
  function DecodeOne(bs: seq<Byte>): (r: (char, nat))
    requires bs != []
    ensures 1 <= r.1 <= |bs| && r.1 <= 4
    ensures bs[0] < 0x80 ==> r == (bs[0] as char, 1)
  {
    var b0: int := bs[0];
    var b1: int := if |bs| >= 2 then bs[1] else 0;
    var b2: int := if |bs| >= 3 then bs[2] else 0;
    var b3: int := if |bs| >= 4 then bs[3] else 0;
    if b0 < 0x80 then (b0 as char, 1)
    else if 0xC2 <= b0 <= 0xDF then
      if |bs| < 2 || !IsContinuation(b1) then (REPLACEMENT, 1)
      else (Scalar2(b0, b1), 2)
    else if 0xE0 <= b0 <= 0xEF then
      var lo := if b0 == 0xE0 then 0xA0 else 0x80;
      var hi := if b0 == 0xED then 0x9F else 0xBF;
      if |bs| < 2 || !(lo <= b1 <= hi) then (REPLACEMENT, 1)
      else if |bs| < 3 || !IsContinuation(b2) then (REPLACEMENT, 2)
      else (Scalar3(b0, b1, b2), 3)
    else if 0xF0 <= b0 <= 0xF4 then
      var lo := if b0 == 0xF0 then 0x90 else 0x80;
      var hi := if b0 == 0xF4 then 0x8F else 0xBF;
      if |bs| < 2 || !(lo <= b1 <= hi) then (REPLACEMENT, 1)
      else if |bs| < 3 || !IsContinuation(b2) then (REPLACEMENT, 2)
      else if |bs| < 4 || !IsContinuation(b3) then (REPLACEMENT, 3)
      else (Scalar4(b0, b1, b2, b3), 4)
    else (REPLACEMENT, 1)
  }

  /** The character of a well-formed two-byte sequence. */
  function Scalar2(b0: int, b1: int): char
    requires 0xC2 <= b0 <= 0xDF && IsContinuation(b1)
  {
    ((b0 - 0xC0) * 64 + (b1 - 0x80)) as char
  }

  /** The character of a well-formed three-byte sequence. */
  function Scalar3(b0: int, b1: int, b2: int): char
    requires 0xE0 <= b0 <= 0xEF && IsContinuation(b1) && IsContinuation(b2)
    requires b0 == 0xE0 ==> b1 >= 0xA0
    requires b0 == 0xED ==> b1 <= 0x9F
  {
    ((b0 - 0xE0) * 4096 + (b1 - 0x80) * 64 + (b2 - 0x80)) as char
  }

  /** The character of a well-formed four-byte sequence. */
  function Scalar4(b0: int, b1: int, b2: int, b3: int): char
    requires 0xF0 <= b0 <= 0xF4 && IsContinuation(b1) && IsContinuation(b2) && IsContinuation(b3)
    requires b0 == 0xF0 ==> b1 >= 0x90
    requires b0 == 0xF4 ==> b1 <= 0x8F
  {
    ((b0 - 0xF0) * 262144 + (b1 - 0x80) * 4096 + (b2 - 0x80) * 64 + (b3 - 0x80)) as char
  }

  /** `bytes.decode('utf-8', 'replace')`. */
  function Decode(bs: seq<Byte>): string
    decreases |bs|
  {
    if bs == [] then []
    else
      var (c, n) := DecodeOne(bs);
      [c] + Decode(bs[n..])
  }

  /** The length of the run of ASCII characters that `s` starts with. */
  function AsciiRun(s: string): (n: nat)
    ensures n <= |s| && AllAscii(s[..n])
    ensures n < |s| ==> !IsAscii(s[n])
  {
    if s == [] || !IsAscii(s[0]) then 0
    else
      var n := AsciiRun(s[1..]) + 1;
      assert s[..n] == [s[0]] + s[1..][..n - 1];
      n
  }

  /** `unquote(s)`. */
  function Unquote(s: string): string
    decreases |s|
  {
    if s == [] then []
    else if !IsAscii(s[0]) then [s[0]] + Unquote(s[1..])
    else
      var n := AsciiRun(s);
      Decode(UnquoteToBytes(s[..n])) + Unquote(s[n..])
  }

  /** An ASCII run without `%` decodes to itself. */
  lemma {:induction false} DecodePlainRun(t: string)
    requires AllAscii(t) && '%' !in t
    ensures Decode(UnquoteToBytes(t)) == t
    decreases |t|
  {
    if t != [] {
      var bs := UnquoteToBytes(t);
      assert bs == [t[0] as int] + UnquoteToBytes(t[1..]);
      assert bs[1..] == UnquoteToBytes(t[1..]);
      DecodePlainRun(t[1..]);
    }
  }

  /**
   * A text without `%` is its own `unquote`. CPython returns such a text
   * straight away; this is the proof that the shortcut changes nothing.
   */
  lemma {:induction false} UnquotePlain(s: string)
    requires '%' !in s
    ensures Unquote(s) == s
    decreases |s|
  {
    if s != [] {
      if !IsAscii(s[0]) {
        UnquotePlain(s[1..]);
      } else {
        var n := AsciiRun(s);
        assert '%' !in s[..n] && '%' !in s[n..];
        DecodePlainRun(s[..n]);
        UnquotePlain(s[n..]);
        assert s == s[..n] + s[n..];
      }
    }
  }

  // ---- Percent-encoding, the inverse ----

  /** The UTF-8 encoding of one character. */
  function EncodeChar(c: char): (bs: seq<Byte>)
    ensures 1 <= |bs| <= 4
  {
    var v := c as int;
    if v < 0x80 then [v]
    else if v < 0x800 then [0xC0 + v / 64, 0x80 + v % 64]
    else if v < 0x10000 then [0xE0 + v / 4096, 0x80 + (v / 64) % 64, 0x80 + v % 64]
    else [0xF0 + v / 262144, 0x80 + (v / 4096) % 64, 0x80 + (v / 64) % 64, 0x80 + v % 64]
  }

  /** `s.encode('utf-8')`. */
  function Encode(s: string): seq<Byte> {
    if s == [] then [] else EncodeChar(s[0]) + Encode(s[1..])
  }

  const HEX_DIGITS := "0123456789ABCDEF"

  /** `%XX` for every byte, upper-case hexadecimal. */
  function PercentBytes(bs: seq<Byte>): (t: string)
    ensures AllAscii(t) && |t| == 3 * |bs|
  {
    if bs == [] then []
    else ['%', HEX_DIGITS[bs[0] / 16], HEX_DIGITS[bs[0] % 16]] + PercentBytes(bs[1..])
  }

  /** Percent-encodes every UTF-8 byte of `s`, the strictest form a link can carry. */
  function Quote(s: string): (t: string)
    ensures AllAscii(t) && '#' !in t && '&' !in t && '=' !in t && '+' !in t
  {
    var t := PercentBytes(Encode(s));
    assert forall i :: 0 <= i < |t| ==> t[i] != '#' && t[i] != '&' && t[i] != '=' && t[i] != '+' by {
      PercentBytesAlphabet(Encode(s));
    }
    t
  }

  lemma {:induction false} PercentBytesAlphabet(bs: seq<Byte>)
    ensures forall i :: 0 <= i < |PercentBytes(bs)| ==> PercentBytes(bs)[i] == '%' || PercentBytes(bs)[i] in HEX_DIGITS
  {
    if bs != [] {
      PercentBytesAlphabet(bs[1..]);
      var head := ['%', HEX_DIGITS[bs[0] / 16], HEX_DIGITS[bs[0] % 16]];
      assert PercentBytes(bs) == head + PercentBytes(bs[1..]);
    }
  }

  lemma HexDigitsValue(d: nat)
    requires d < 16
    ensures IsHex(HEX_DIGITS[d]) && HexValue(HEX_DIGITS[d]) == d
  {
  }

  lemma {:induction false} UnquotePercentBytes(bs: seq<Byte>)
    ensures UnquoteToBytes(PercentBytes(bs)) == bs
  {
    if bs != [] {
      var head := ['%', HEX_DIGITS[bs[0] / 16], HEX_DIGITS[bs[0] % 16]];
      assert PercentBytes(bs) == head + PercentBytes(bs[1..]);
      UnquoteTriple(bs[0], PercentBytes(bs[1..]));
      UnquotePercentBytes(bs[1..]);
    }
  }

  /** One `%XX` triple decodes to its byte, whatever follows. */
  lemma UnquoteTriple(b: Byte, rest: string)
    requires AllAscii(rest)
    ensures UnquoteToBytes(['%', HEX_DIGITS[b / 16], HEX_DIGITS[b % 16]] + rest) == [b] + UnquoteToBytes(rest)
  {
    var t := ['%', HEX_DIGITS[b / 16], HEX_DIGITS[b % 16]] + rest;
    HexDigitsValue(b / 16);
    HexDigitsValue(b % 16);
    assert t[3..] == rest;
  }

  /** Decoding the encoding of one character gives that character back, whatever follows. */
  lemma DecodeEncodeChar(c: char, rest: seq<Byte>)
    ensures DecodeOne(EncodeChar(c) + rest) == (c, |EncodeChar(c)|)
  {
    var v := c as int;
    var bs := EncodeChar(c) + rest;
    if v < 0x80 {
    } else if v < 0x800 {
      assert bs[0] == 0xC0 + v / 64 && bs[1] == 0x80 + v % 64;
      DecodeTwo(c, bs);
    } else if v < 0x10000 {
      assert bs[0] == 0xE0 + v / 4096 && bs[1] == 0x80 + (v / 64) % 64 && bs[2] == 0x80 + v % 64;
      DecodeThree(c, bs);
    } else {
      assert bs[0] == 0xF0 + v / 262144 && bs[1] == 0x80 + (v / 4096) % 64;
      assert bs[2] == 0x80 + (v / 64) % 64 && bs[3] == 0x80 + v % 64;
      DecodeFour(c, bs);
    }
  }

  lemma DecodeTwo(c: char, bs: seq<Byte>)
    requires 0x80 <= c as int < 0x800 && |bs| >= 2
    requires bs[0] == 0xC0 + c as int / 64 && bs[1] == 0x80 + c as int % 64
    ensures DecodeOne(bs) == (c, 2)
  {
    Encode2(c as int);
  }

  lemma DecodeThree(c: char, bs: seq<Byte>)
    requires 0x800 <= c as int < 0x10000 && |bs| >= 3
    requires bs[0] == 0xE0 + c as int / 4096 && bs[1] == 0x80 + (c as int / 64) % 64 && bs[2] == 0x80 + c as int % 64
    ensures DecodeOne(bs) == (c, 3)
  {
    Encode3(c as int);
  }

  lemma DecodeFour(c: char, bs: seq<Byte>)
    requires 0x10000 <= c as int && |bs| >= 4
    requires bs[0] == 0xF0 + c as int / 262144 && bs[1] == 0x80 + (c as int / 4096) % 64
    requires bs[2] == 0x80 + (c as int / 64) % 64 && bs[3] == 0x80 + c as int % 64
    ensures DecodeOne(bs) == (c, 4)
  {
    Encode4(c as int);
  }

  lemma Encode2(v: int)
    requires 0x80 <= v < 0x800
    ensures 0xC2 <= 0xC0 + v / 64 <= 0xDF && IsContinuation(0x80 + v % 64)
    ensures Scalar2(0xC0 + v / 64, 0x80 + v % 64) as int == v
  {
  }

  lemma Encode3(v: int)
    requires 0x800 <= v < 0x10000 && !(0xD800 <= v < 0xE000)
    ensures 0xE0 <= 0xE0 + v / 4096 <= 0xEF
    ensures IsContinuation(0x80 + (v / 64) % 64) && IsContinuation(0x80 + v % 64)
    ensures v / 4096 == 0 ==> 0x80 + (v / 64) % 64 >= 0xA0
    ensures v / 4096 == 13 ==> 0x80 + (v / 64) % 64 <= 0x9F
    ensures Scalar3(0xE0 + v / 4096, 0x80 + (v / 64) % 64, 0x80 + v % 64) as int == v
  {
    var q, m := v / 64, v % 64;
    assert v == q * 64 + m;
    assert q == (q / 64) * 64 + q % 64;
    assert q / 64 == v / 4096;
  }

  lemma Encode4(v: int)
    requires 0x10000 <= v < 0x110000
    ensures 0xF0 <= 0xF0 + v / 262144 <= 0xF4
    ensures IsContinuation(0x80 + (v / 4096) % 64)
    ensures IsContinuation(0x80 + (v / 64) % 64) && IsContinuation(0x80 + v % 64)
    ensures v / 262144 == 0 ==> 0x80 + (v / 4096) % 64 >= 0x90
    ensures v / 262144 == 4 ==> 0x80 + (v / 4096) % 64 <= 0x8F
    ensures Scalar4(0xF0 + v / 262144, 0x80 + (v / 4096) % 64, 0x80 + (v / 64) % 64, 0x80 + v % 64) as int == v
  {
    var q, m := v / 64, v % 64;
    var q2, m2 := q / 64, q % 64;
    assert v == q * 64 + m;
    assert q == q2 * 64 + m2;
    assert q2 == (q2 / 64) * 64 + q2 % 64;
    assert q2 == v / 4096;
    assert q2 / 64 == v / 262144;
  }

  /** UTF-8 decoding inverts UTF-8 encoding. */
  lemma {:induction false} DecodeEncode(s: string)
    ensures Decode(Encode(s)) == s
  {
    if s != [] {
      var bs := Encode(s);
      DecodeEncodeChar(s[0], Encode(s[1..]));
      assert bs[|EncodeChar(s[0])|..] == Encode(s[1..]);
      DecodeEncode(s[1..]);
    }
  }

  /** `unquote` inverts `Quote`: a percent-encoded display name comes back unchanged. */
  lemma UnquoteQuote(s: string)
    ensures Unquote(Quote(s)) == s
  {
    var t := Quote(s);
    if t != [] {
      var n := AsciiRun(t);
      assert n == |t|;
      assert t[..n] == t && t[n..] == [];
      UnquotePercentBytes(Encode(s));
      DecodeEncode(s);
    } else {
      DecodeEncode(s);
    }
  }
}
