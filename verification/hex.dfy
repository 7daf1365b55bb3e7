/**
 * Lower-case hexadecimal rendering of a byte array, as built by appending
 * `String.format("%02x", b)` for each byte: Java bytes are signed, and `%x`
 * prints a negative byte as its unsigned value (the byte plus 256).
 */
module Hex {
  /** A Java `byte`. */
  type JavaByte = b: int | -128 <= b < 128

  /** The unsigned value `%x` prints for a byte. */
  function Unsigned(b: JavaByte): (u: nat)
    ensures u < 256
    ensures (u - b) % 256 == 0
    ensures b >= 0 ==> u == b
  {
    if b < 0 then b + 256 else b
  }

  predicate IsHexDigit(c: char) {
    '0' <= c <= '9' || 'a' <= c <= 'f'
  }

  function HexDigit(d: nat): (c: char)
    requires d < 16
    ensures IsHexDigit(c)
  {
    if d < 10 then (d + '0' as int) as char else (d - 10 + 'a' as int) as char
  }

  function DigitValue(c: char): (d: nat)
    requires IsHexDigit(c)
    ensures d < 16
    ensures HexDigit(d) == c
  {
    if c <= '9' then c as int - '0' as int else c as int - 'a' as int + 10
  }

  lemma DigitValueOfHexDigit(d: nat)
    requires d < 16
    ensures DigitValue(HexDigit(d)) == d
  {
  }

  /** `String.format("%02x", b)`: two lower-case hexadecimal digits, high nibble first. */
  function FormatByte(b: JavaByte): (s: string)
    ensures |s| == 2 && IsHexDigit(s[0]) && IsHexDigit(s[1])
    ensures 16 * DigitValue(s[0]) + DigitValue(s[1]) == Unsigned(b)
  {
    DigitValueOfHexDigit(Unsigned(b) / 16);
    DigitValueOfHexDigit(Unsigned(b) % 16);
    [HexDigit(Unsigned(b) / 16), HexDigit(Unsigned(b) % 16)]
  }

  /** Reads two hexadecimal digits back as a signed byte. */
  function ParseByte(s: string): (b: JavaByte)
    requires |s| == 2 && IsHexDigit(s[0]) && IsHexDigit(s[1])
    ensures Unsigned(b) == 16 * DigitValue(s[0]) + DigitValue(s[1])
  {
    var v := 16 * DigitValue(s[0]) + DigitValue(s[1]);
    if v >= 128 then v - 256 else v
  }

  lemma ParseFormatByte(b: JavaByte)
    ensures ParseByte(FormatByte(b)) == b
  {
  }

  predicate AllHexDigits(s: string) {
    forall i :: 0 <= i < |s| ==> IsHexDigit(s[i])
  }

  /** The whole array rendered byte after byte. */
  function Encode(bs: seq<JavaByte>): (s: string)
    ensures |s| == 2 * |bs|
    ensures AllHexDigits(s)
  {
    if bs == [] then "" else Encode(bs[..|bs| - 1]) + FormatByte(bs[|bs| - 1])
  }

  /** Reads a string of hexadecimal digit pairs back as bytes. */
  function Decode(s: string): (bs: seq<JavaByte>)
    requires |s| % 2 == 0 && AllHexDigits(s)
    ensures |bs| == |s| / 2
  {
    if s == [] then [] else Decode(s[..|s| - 2]) + [ParseByte(s[|s| - 2..])]
  }

  /** Byte `i` of the array occupies characters `2i` and `2i+1` of its rendering. */
  lemma {:induction false} EncodeAt(bs: seq<JavaByte>, i: nat)
    requires i < |bs|
    ensures Encode(bs)[2 * i..2 * i + 2] == FormatByte(bs[i])
  {
    if i < |bs| - 1 {
      var init := bs[..|bs| - 1];
      EncodeAt(init, i);
      assert init[i] == bs[i];
      assert Encode(bs)[2 * i..2 * i + 2] == Encode(init)[2 * i..2 * i + 2];
    }
  }

  lemma {:induction false} DecodeEncode(bs: seq<JavaByte>)
    ensures Decode(Encode(bs)) == bs
  {
    if bs != [] {
      var init := bs[..|bs| - 1];
      var s := Encode(bs);
      assert s[..|s| - 2] == Encode(init);
      assert s[|s| - 2..] == FormatByte(bs[|bs| - 1]);
      assert Decode(s) == Decode(s[..|s| - 2]) + [ParseByte(s[|s| - 2..])];
      DecodeEncode(init);
      ParseFormatByte(bs[|bs| - 1]);
      assert init + [bs[|bs| - 1]] == bs;
    }
  }

  /** Different byte arrays never render to the same string. */
  lemma EncodeInjective(a: seq<JavaByte>, b: seq<JavaByte>)
    ensures Encode(a) == Encode(b) ==> a == b
  {
    if Encode(a) == Encode(b) {
      DecodeEncode(a);
      DecodeEncode(b);
    }
  }

  /** The `StringBuilder` loop: appends each byte's two digits in turn. */
  method ToHexString(hash: seq<JavaByte>) returns (hexString: string)
    ensures hexString == Encode(hash)
    ensures |hexString| == 2 * |hash| && AllHexDigits(hexString)
  {
    hexString := "";
    for i := 0 to |hash|
      invariant hexString == Encode(hash[..i])
    {
      assert hash[..i + 1][..i] == hash[..i];
      hexString := hexString + FormatByte(hash[i]);
    }
    assert hash[..|hash|] == hash;
  }
}
