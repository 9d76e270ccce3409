/** The hexadecimal digest text of sha1.hpp and `hex_decode` of include/simpletorrent/Util.h. */
module Hex {
  import opened Bytes

  /** A lower-case hexadecimal digit. */
  function HexChar(n: byte): char {
    if n == 0 then '0' else if n == 1 then '1' else if n == 2 then '2' else if n == 3 then '3'
    else if n == 4 then '4' else if n == 5 then '5' else if n == 6 then '6' else if n == 7 then '7'
    else if n == 8 then '8' else if n == 9 then '9' else if n == 10 then 'a' else if n == 11 then 'b'
    else if n == 12 then 'c' else if n == 13 then 'd' else if n == 14 then 'e' else 'f'
  }

  predicate IsHexChar(c: char) {
    '0' <= c <= '9' || 'a' <= c <= 'f' || 'A' <= c <= 'F'
  }

  function HexValue(c: char): byte
    requires IsHexChar(c)
  {
    match c
    case '0' => 0 case '1' => 1 case '2' => 2 case '3' => 3 case '4' => 4
    case '5' => 5 case '6' => 6 case '7' => 7 case '8' => 8 case '9' => 9
    case 'a' => 10 case 'b' => 11 case 'c' => 12 case 'd' => 13 case 'e' => 14 case 'f' => 15
    case 'A' => 10 case 'B' => 11 case 'C' => 12 case 'D' => 13 case 'E' => 14 case _ => 15
  }

  function High(b: byte): byte { b >> 4 }
  function Low(b: byte): byte { b & 0xf }
  function Join(high: byte, low: byte): byte { (high << 4) | low }

  /** Each byte as two digits; a 32-bit word printed with width 8 is its four bytes so printed. */
  function HexString(b: seq<byte>): (r: string)
    ensures |r| == 2 * |b|
  {
    if b == [] then "" else [HexChar(High(b[0])), HexChar(Low(b[0]))] + HexString(b[1..])
  }

  const DIGITS := "0123456789abcdef"

  /** Every byte is printed as its high digit followed by its low digit, in lower case. */
  lemma {:induction false} HexStringAt(b: seq<byte>, k: nat)
    requires k < |b|
    ensures HexString(b)[2 * k] == DIGITS[(b[k] / 16) as int] && HexString(b)[2 * k + 1] == DIGITS[(b[k] % 16) as int]
  {
    hide HexChar, High, Low;
    if k == 0 {
      DigitsOf(b[0]);
    } else {
      HexStringAt(b[1..], k - 1);
    }
  }

  lemma DigitsOf(b: byte)
    ensures HexChar(High(b)) == DIGITS[(b / 16) as int] && HexChar(Low(b)) == DIGITS[(b % 16) as int]
  {
    assert High(b) == b / 16 && Low(b) == b % 16;
  }

  ghost predicate HexDigits(s: string) {
    |s| % 2 == 0 && forall k :: 0 <= k < |s| ==> IsHexChar(s[k])
  }

  /** The bytes that pairs of digits stand for. */
  function HexBytes(s: string): (r: seq<byte>)
    requires HexDigits(s)
    ensures |r| == |s| / 2
  {
    if s == "" then [] else [Join(HexValue(s[0]), HexValue(s[1]))] + HexBytes(s[2..])
  }

  lemma NibbleRoundTrip(n: byte)
    requires n < 16
    ensures IsHexChar(HexChar(n)) && HexValue(HexChar(n)) == n
  {
  }

  lemma ByteRoundTrip(b: byte)
    ensures IsHexChar(HexChar(High(b))) && IsHexChar(HexChar(Low(b)))
    ensures Join(HexValue(HexChar(High(b))), HexValue(HexChar(Low(b)))) == b
  {
    hide HexChar, HexValue, IsHexChar;
    NibbleRoundTrip(High(b));
    NibbleRoundTrip(Low(b));
  }

  /** Decoding the printed digest gives back its bytes. */
  lemma {:induction false} HexRoundTrip(b: seq<byte>)
    ensures HexDigits(HexString(b)) && HexBytes(HexString(b)) == b
  {
    hide HexChar, HexValue, IsHexChar, High, Low, Join;
    if b != [] {
      ByteRoundTrip(b[0]);
      HexRoundTrip(b[1..]);
      var s := HexString(b);
      assert s[2..] == HexString(b[1..]);
      forall k | 0 <= k < |s| ensures IsHexChar(s[k]) {
        if k >= 2 { assert s[k] == HexString(b[1..])[k - 2]; }
      }
    }
  }

  /** `hex_decode`: two digits at a time. */
  method HexDecode(value: string) returns (decoded: seq<byte>)
    requires HexDigits(value)
    ensures decoded == HexBytes(value)
  {
    hide HexValue, IsHexChar, Join;
    decoded := [];
    var i := 0;
    while i < |value|
      invariant 0 <= i <= |value| && i % 2 == 0
      invariant HexDigits(value[i..])
      invariant decoded + HexBytes(value[i..]) == HexBytes(value)
    {
      var rest := value[i..];
      assert rest[2..] == value[i + 2..];
      var decodedByte := Join(HexValue(value[i]), HexValue(value[i + 1]));
      assert HexBytes(rest) == [decodedByte] + HexBytes(rest[2..]);
      decoded := decoded + [decodedByte];
      i := i + 2;
    }
  }
}
