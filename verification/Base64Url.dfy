/** Unpadded base64url (RFC 4648 section 5) as Go's RawURLEncoding reads and writes it. */
module Base64Url {
  import opened Wrappers

  type Byte = x: int | 0 <= x < 256

  function Digit(v: int): char
    requires 0 <= v < 64
  {
    if v < 26 then 'A' + v as char
    else if v < 52 then 'a' + (v - 26) as char
    else if v < 62 then '0' + (v - 52) as char
    else if v == 62 then '-'
    else '_'
  }

  function DigitValue(c: char): Option<int> {
    if 'A' <= c <= 'Z' then Some(c as int - 'A' as int)
    else if 'a' <= c <= 'z' then Some(c as int - 'a' as int + 26)
    else if '0' <= c <= '9' then Some(c as int - '0' as int + 52)
    else if c == '-' then Some(62)
    else if c == '_' then Some(63)
    else None
  }

  predicate IsDigit(c: char) {
    DigitValue(c).Some?
  }

  lemma DigitRoundTrip(v: int)
    requires 0 <= v < 64
    ensures DigitValue(Digit(v)) == Some(v)
  {}

  function Encode(b: seq<Byte>): (s: string)
    ensures forall i :: 0 <= i < |s| ==> IsDigit(s[i])
  {
    if |b| == 0 then ""
    else if |b| == 1 then [Digit(b[0] / 4), Digit(b[0] % 4 * 16)]
    else if |b| == 2 then [Digit(b[0] / 4), Digit(b[0] % 4 * 16 + b[1] / 16), Digit(b[1] % 16 * 4)]
    else
      [Digit(b[0] / 4), Digit(b[0] % 4 * 16 + b[1] / 16), Digit(b[1] % 16 * 4 + b[2] / 64), Digit(b[2] % 64)]
      + Encode(b[3..])
  }

  /** The decoder skips line breaks wherever they stand. */
  function SkipBreaks(s: string): string {
    if s == "" then ""
    else if s[0] == '\r' || s[0] == '\n' then SkipBreaks(s[1..])
    else [s[0]] + SkipBreaks(s[1..])
  }

  /** Unused low bits of the last digit are ignored. */
  function DecodeDigits(s: string): Option<seq<Byte>> {
    if |s| == 0 then Some([])
    else if |s| == 1 || !IsDigit(s[0]) || !IsDigit(s[1]) then None
    else
      var v0, v1 := DigitValue(s[0]).value, DigitValue(s[1]).value;
      var first := v0 * 4 + v1 / 16;
      if |s| == 2 then Some([first])
      else if !IsDigit(s[2]) then None
      else
        var v2 := DigitValue(s[2]).value;
        var second := v1 % 16 * 16 + v2 / 4;
        if |s| == 3 then Some([first, second])
        else if !IsDigit(s[3]) then None
        else
          var rest := DecodeDigits(s[4..]);
          if rest.None? then None
          else Some([first, second, v2 % 4 * 64 + DigitValue(s[3]).value] + rest.value)
  }

  function Decode(s: string): Option<seq<Byte>> {
    DecodeDigits(SkipBreaks(s))
  }

  lemma {:induction false} SkipBreaksIdentity(s: string)
    requires forall i :: 0 <= i < |s| ==> IsDigit(s[i])
    ensures SkipBreaks(s) == s
  {
    if s != "" {
      SkipBreaksIdentity(s[1..]);
    }
  }

  lemma BytesFromDigits(x: Byte, y: Byte, z: Byte)
    ensures var v0, v1, v2, v3 := x / 4, x % 4 * 16 + y / 16, y % 16 * 4 + z / 64, z % 64;
            v0 * 4 + v1 / 16 == x && v1 % 16 * 16 + v2 / 4 == y && v2 % 4 * 64 + v3 == z
  {}

  lemma DecodeGroup(s: string, x: Byte, y: Byte, z: Byte, rest: string)
    requires s == [Digit(x / 4), Digit(x % 4 * 16 + y / 16), Digit(y % 16 * 4 + z / 64), Digit(z % 64)] + rest
    requires DecodeDigits(rest).Some?
    ensures DecodeDigits(s) == Some([x, y, z] + DecodeDigits(rest).value)
  {
    DigitRoundTrip(x / 4);
    DigitRoundTrip(x % 4 * 16 + y / 16);
    DigitRoundTrip(y % 16 * 4 + z / 64);
    DigitRoundTrip(z % 64);
    BytesFromDigits(x, y, z);
    assert s[4..] == rest;
  }

  lemma DecodeTail(x: Byte, y: Byte)
    ensures DecodeDigits([Digit(x / 4), Digit(x % 4 * 16)]) == Some([x])
    ensures DecodeDigits([Digit(x / 4), Digit(x % 4 * 16 + y / 16), Digit(y % 16 * 4)]) == Some([x, y])
  {
    DigitRoundTrip(x / 4);
    DigitRoundTrip(x % 4 * 16);
    DigitRoundTrip(x % 4 * 16 + y / 16);
    DigitRoundTrip(y % 16 * 4);
    BytesFromDigits(x, 0, 0);
    BytesFromDigits(x, y, 0);
  }

  lemma {:induction false} DecodeDigitsEncode(b: seq<Byte>)
    ensures DecodeDigits(Encode(b)) == Some(b)
  {
    if |b| == 1 {
      DecodeTail(b[0], 0);
      assert [b[0]] == b;
    } else if |b| == 2 {
      DecodeTail(b[0], b[1]);
      assert [b[0], b[1]] == b;
    } else if |b| > 2 {
      DecodeDigitsEncode(b[3..]);
      DecodeGroup(Encode(b), b[0], b[1], b[2], Encode(b[3..]));
      assert [b[0], b[1], b[2]] + b[3..] == b;
    }
  }

  lemma RoundTrip(b: seq<Byte>)
    ensures Decode(Encode(b)) == Some(b)
  {
    SkipBreaksIdentity(Encode(b));
    DecodeDigitsEncode(b);
  }

  lemma EncodeInjective(a: seq<Byte>, b: seq<Byte>)
    requires Encode(a) == Encode(b)
    ensures a == b
  {
    RoundTrip(a);
    RoundTrip(b);
  }

  /** The test vectors of section 10 of RFC 4648 that fit one group, and the two digits of the URL alphabet of section 5. */
  lemma Vectors()
    ensures Encode([]) == "" && Encode([0x66]) == "Zg" && Encode([0x66, 0x6f]) == "Zm8" && Encode([0x66, 0x6f, 0x6f]) == "Zm9v"
    ensures Encode([0xfb, 0xff]) == "-_8"
  {}
}
