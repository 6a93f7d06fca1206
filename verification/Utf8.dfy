/**
 The UTF-8 encoding of Unicode scalar values, section 3 of RFC 3629.
 */
module Utf8 {
  import opened Options
  import opened MessageText

  newtype Byte = x: int | 0 <= x < 256

  function EncodeChar(c: char): (bytes: seq<Byte>)
    ensures |bytes| == Width(c)
  {
    var n := c as int;
    if n < 0x80 then [n as Byte]
    else if n < 0x800 then [(0xC0 + n / 64) as Byte, Tail(n)]
    else if n < 0x10000 then [(0xE0 + n / 4096) as Byte, Tail(n / 64), Tail(n)]
    else [(0xF0 + n / 262144) as Byte, Tail(n / 4096), Tail(n / 64), Tail(n)]
  }

  function Tail(n: nat): Byte {
    (0x80 + n % 64) as Byte
  }

  function Encode(s: string): (bytes: seq<Byte>)
    ensures |bytes| == ByteLength(s)
  {
    if s == [] then [] else EncodeChar(s[0]) + Encode(s[1..])
  }

  /** How many bytes the character with this first byte takes. */
  function Length(lead: Byte): nat {
    if lead < 0x80 then 1 else if lead < 0xE0 then 2 else if lead < 0xF0 then 3 else 4
  }

  function Bits(b: Byte): int {
    b as int - 0x80
  }

  function CodePoint(bytes: seq<Byte>): int
    requires bytes != [] && Length(bytes[0]) <= |bytes|
  {
    match Length(bytes[0])
    case 1 => bytes[0] as int
    case 2 => (bytes[0] as int - 0xC0) * 64 + Bits(bytes[1])
    case 3 => (bytes[0] as int - 0xE0) * 4096 + Bits(bytes[1]) * 64 + Bits(bytes[2])
    case _ => (bytes[0] as int - 0xF0) * 262144 + Bits(bytes[1]) * 4096 + Bits(bytes[2]) * 64 + Bits(bytes[3])
  }

  predicate IsScalar(n: int) {
    0 <= n < 0xD800 || 0xE000 <= n < 0x11_0000
  }

  function Decode(bytes: seq<Byte>): Option<string> {
    if bytes == [] then Some([])
    else if Length(bytes[0]) > |bytes| || !IsScalar(CodePoint(bytes)) then None
    else
      match Decode(bytes[Length(bytes[0])..])
      case None => None
      case Some(rest) => Some([CodePoint(bytes) as char] + rest)
  }

  lemma HeadDecodes(c: char, rest: seq<Byte>)
    ensures Length((EncodeChar(c) + rest)[0]) == Width(c) && CodePoint(EncodeChar(c) + rest) == c as int
  {
    var n := c as int;
    var bytes := EncodeChar(c) + rest;
    if n < 0x80 {
    } else if n < 0x800 {
      assert bytes[0] == (0xC0 + n / 64) as Byte && bytes[1] == Tail(n);
    } else if n < 0x10000 {
      assert bytes[0] == (0xE0 + n / 4096) as Byte && bytes[1] == Tail(n / 64) && bytes[2] == Tail(n);
      Digits(n);
    } else {
      assert bytes[0] == (0xF0 + n / 262144) as Byte && bytes[1] == Tail(n / 4096) && bytes[2] == Tail(n / 64) && bytes[3] == Tail(n);
      Digits(n);
    }
  }

  /** A tail byte carries six bits, and the first byte the rest above a mark that tells how many follow. */
  lemma EncodingIs(c: char)
    ensures var b, n := EncodeChar(c), c as int;
            && (forall k | 1 <= k < |b| :: 0x80 <= b[k] as int <= 0xBF)
            && match |b|
               case 1 => b[0] as int == n < 0x80
               case 2 => 0x80 <= n < 0x800 && n == (b[0] as int - 0xC0) * 64 + b[1] as int - 0x80
               case 3 => 0x800 <= n < 0x10000
                         && n == (b[0] as int - 0xE0) * 4096 + (b[1] as int - 0x80) * 64 + b[2] as int - 0x80
               case 4 => 0x10000 <= n
                         && n == (b[0] as int - 0xF0) * 262144 + (b[1] as int - 0x80) * 4096 + (b[2] as int - 0x80) * 64 + b[3] as int - 0x80
               case _ => false
  {
    var b := EncodeChar(c);
    assert b + [] == b;
    HeadDecodes(c, []);
  }

  lemma Digits(n: nat)
    ensures n == n / 4096 * 4096 + n / 64 % 64 * 64 + n % 64
    ensures n == n / 262144 * 262144 + n / 4096 % 64 * 4096 + n / 64 % 64 * 64 + n % 64
  {
    var a := n / 64;
    var b := a / 64;
    assert b == n / 4096 && b / 64 == n / 262144;
    assert n == 64 * a + n % 64 && a == 64 * b + a % 64 && b == 64 * (b / 64) + b % 64;
  }

  lemma {:induction false} DecodeEncode(s: string)
    ensures Decode(Encode(s)) == Some(s)
  {
    if s != [] {
      HeadDecodes(s[0], Encode(s[1..]));
      assert Encode(s)[Width(s[0])..] == Encode(s[1..]);
      DecodeEncode(s[1..]);
      assert IsScalar(s[0] as int) && (s[0] as int) as char == s[0];
      assert s == [s[0]] + s[1..];
    }
  }
}
