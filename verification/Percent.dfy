/** Percent-encoding with every byte but the ASCII letters and digits escaped (section 2.1 of RFC 3986). */
module Percent {
  import opened Wrappers

  predicate IsAlphanumeric(b: Byte) {
    '0' as int <= b <= '9' as int || 'A' as int <= b <= 'Z' as int || 'a' as int <= b <= 'z' as int
  }

  function HexDigit(n: nat): char
    requires n < 16
  {
    if n < 10 then ('0' as int + n) as char else ('A' as int + n - 10) as char
  }

  function HexValue(c: char): Option<nat> {
    if '0' <= c <= '9' then Some(c as int - '0' as int)
    else if 'A' <= c <= 'F' then Some(c as int - 'A' as int + 10)
    else if 'a' <= c <= 'f' then Some(c as int - 'a' as int + 10)
    else None
  }

  function EncodeByte(b: Byte): string {
    if IsAlphanumeric(b) then [b as char] else ['%', HexDigit(b / 16), HexDigit(b % 16)]
  }

  function Encode(bytes: Bytes): string {
    if bytes == [] then "" else EncodeByte(bytes[0]) + Encode(bytes[1..])
  }

  /** A percent sign that is not followed by two hex digits stands for itself. The text is ASCII. */
  function Decode(s: string): Bytes {
    if s == "" then []
    else if s[0] == '%' && |s| >= 3 && HexValue(s[1]).Some? && HexValue(s[2]).Some? then
      DecodedByte(HexValue(s[1]).value, HexValue(s[2]).value) + Decode(s[3..])
    else [s[0] as int % 256] + Decode(s[1..])
  }

  function DecodedByte(high: nat, low: nat): Bytes {
    [(16 * high + low) % 256]
  }

  lemma HexRoundTrip(n: nat)
    requires n < 16
    ensures HexValue(HexDigit(n)) == Some(n)
  {
  }

  lemma DecodeEscape(high: nat, low: nat, rest: string)
    requires high < 16 && low < 16
    ensures Decode(['%', HexDigit(high), HexDigit(low)] + rest) == DecodedByte(high, low) + Decode(rest)
  {
    HexRoundTrip(high);
    HexRoundTrip(low);
    assert (['%', HexDigit(high), HexDigit(low)] + rest)[3..] == rest;
  }

  lemma DecodeEncodedByte(b: Byte, rest: string)
    ensures Decode(EncodeByte(b) + rest) == [b] + Decode(rest)
  {
    if IsAlphanumeric(b) {
      assert ([b as char] + rest)[1..] == rest;
    } else {
      DecodeEscape(b / 16, b % 16, rest);
    }
  }

  /** Every byte string survives being encoded. */
  lemma {:induction false} DecodeEncode(bytes: Bytes)
    ensures Decode(Encode(bytes)) == bytes
  {
    if bytes != [] {
      DecodeEncode(bytes[1..]);
      DecodeEncodedByte(bytes[0], Encode(bytes[1..]));
      assert [bytes[0]] + bytes[1..] == bytes;
    }
  }

  /** Encoded text is made of letters, digits and percent signs, so no delimiter of an authority occurs in it. */
  lemma {:induction false} EncodedIsPlain(bytes: Bytes, c: char)
    requires c in Encode(bytes)
    ensures c == '%' || '0' <= c <= '9' || 'A' <= c <= 'Z' || 'a' <= c <= 'z'
  {
    if c !in EncodeByte(bytes[0]) {
      EncodedIsPlain(bytes[1..], c);
    }
  }

  // ---------------------------------------------------------------------------
  // Texts that were not made by encoding
  // ---------------------------------------------------------------------------

  /** Hex digits count in either case, and nothing else does. */
  lemma HexValueIff(c: char, n: nat)
    ensures HexValue(c) == Some(n) <==> n < 16 && (c == "0123456789ABCDEF"[n] || c == "0123456789abcdef"[n])
  {
  }

  /** Escapes are written with capital letters. */
  lemma HexDigitIs(n: nat)
    requires n < 16
    ensures HexDigit(n) == "0123456789ABCDEF"[n]
  {
  }

  /** An escape stands for its byte, with digits in either case. */
  lemma EscapeIsDecoded(high: char, low: char, rest: string)
    requires HexValue(high).Some? && HexValue(low).Some?
    ensures Decode(['%', high, low] + rest) == [16 * HexValue(high).value + HexValue(low).value] + Decode(rest)
  {
    assert (['%', high, low] + rest)[3..] == rest;
  }

  /** A character that does not start an escape stands for itself. */
  lemma OthersStandForThemselves(s: string)
    requires s != "" && s[0] as int < 128
    requires s[0] == '%' ==> |s| < 3 || HexValue(s[1]).None? || HexValue(s[2]).None?
    ensures Decode(s) == [s[0] as int] + Decode(s[1..])
  {
  }

  /** Exactly the ASCII letters and digits are left as they are; every other byte takes three characters. */
  lemma OnlyAlphanumericsStay(b: Byte)
    ensures EncodeByte(b) == [b as char] <==> 48 <= b <= 57 || 65 <= b <= 90 || 97 <= b <= 122
    ensures EncodeByte(b) != [b as char] ==>
              EncodeByte(b) == ['%', "0123456789ABCDEF"[b / 16], "0123456789ABCDEF"[b % 16]]
  {
    HexDigitIs(b / 16);
    HexDigitIs(b % 16);
  }
}
