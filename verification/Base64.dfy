/** Base64 with padding (section 4 of RFC 4648). */
module Base64 {
  import opened Wrappers

  function Digit(n: nat): (c: char)
    requires n < 64
    ensures '+' <= c <= 'z' && c != '='
  {
    if n < 26 then ('A' as int + n) as char
    else if n < 52 then ('a' as int + n - 26) as char
    else if n < 62 then ('0' as int + n - 52) as char
    else if n == 62 then '+'
    else '/'
  }

  function DigitValue(c: char): Option<nat> {
    if 'A' <= c <= 'Z' then Some(c as int - 'A' as int)
    else if 'a' <= c <= 'z' then Some(c as int - 'a' as int + 26)
    else if '0' <= c <= '9' then Some(c as int - '0' as int + 52)
    else if c == '+' then Some(62)
    else if c == '/' then Some(63)
    else None
  }

  /** One to three bytes as four characters. */
  function EncodeGroup(g: Bytes): (s: string)
    requires 1 <= |g| <= 3
    ensures |s| == 4 && forall i :: 0 <= i < 4 ==> '+' <= s[i] <= 'z'
  {
    var b0: int := g[0];
    var b1: int := if |g| > 1 then g[1] else 0;
    var b2: int := if |g| > 2 then g[2] else 0;
    [Digit(b0 / 4), Digit(b0 % 4 * 16 + b1 / 16),
     if |g| > 1 then Digit(b1 % 16 * 4 + b2 / 64) else '=',
     if |g| > 2 then Digit(b2 % 64) else '=']
  }

  function Encode(bytes: Bytes): string {
    if bytes == [] then ""
    else if |bytes| <= 3 then EncodeGroup(bytes)
    else EncodeGroup(bytes[..3]) + Encode(bytes[3..])
  }

  function DecodeGroup(s: string): Option<Bytes>
    requires |s| == 4
  {
    var d0, d1, d2, d3 := DigitValue(s[0]), DigitValue(s[1]), DigitValue(s[2]), DigitValue(s[3]);
    if d0.None? || d1.None? then None
    else
      var b0 := (d0.value * 4 + d1.value / 16) % 256;
      if s[2] == '=' && s[3] == '=' then Some([b0])
      else if d2.None? then None
      else
        var b1 := (d1.value * 16 + d2.value / 4) % 256;
        if s[3] == '=' then Some([b0, b1])
        else if d3.None? then None
        else Some([b0, b1, (d2.value * 64 + d3.value) % 256])
  }

  /** A group that is cut off is not text of this kind. */
  function Decode(s: string): Option<Bytes> {
    if s == "" then Some([])
    else if |s| < 4 then None
    else
      var first, rest := DecodeGroup(s[..4]), Decode(s[4..]);
      if first.Some? && rest.Some? then Some(first.value + rest.value) else None
  }

  lemma DigitRoundTrip(n: nat)
    requires n < 64
    ensures DigitValue(Digit(n)) == Some(n)
  {
  }

  lemma FirstBits(b0: Byte, b1: Byte)
    ensures (b0 / 4 * 4 + (b0 % 4 * 16 + b1 / 16) / 16) % 256 == b0
  {
  }

  lemma MiddleBits(b0: Byte, b1: Byte, b2: Byte)
    ensures ((b0 % 4 * 16 + b1 / 16) * 16 + (b1 % 16 * 4 + b2 / 64) / 4) % 256 == b1
  {
    assert (b1 % 16 * 4 + b2 / 64) / 4 == b1 % 16;
  }

  lemma LastBits(b1: Byte, b2: Byte)
    ensures ((b1 % 16 * 4 + b2 / 64) * 64 + b2 % 64) % 256 == b2
  {
  }

  lemma DecodeDigits(d0: nat, d1: nat, d2: nat, d3: nat)
    requires d0 < 64 && d1 < 64 && d2 < 64 && d3 < 64
    ensures DecodeGroup([Digit(d0), Digit(d1), '=', '=']) == Some([(d0 * 4 + d1 / 16) % 256])
    ensures DecodeGroup([Digit(d0), Digit(d1), Digit(d2), '='])
         == Some([(d0 * 4 + d1 / 16) % 256, (d1 * 16 + d2 / 4) % 256])
    ensures DecodeGroup([Digit(d0), Digit(d1), Digit(d2), Digit(d3)])
         == Some([(d0 * 4 + d1 / 16) % 256, (d1 * 16 + d2 / 4) % 256, (d2 * 64 + d3) % 256])
  {
    DigitRoundTrip(d0);
    DigitRoundTrip(d1);
    DigitRoundTrip(d2);
    DigitRoundTrip(d3);
  }

  lemma OneByte(b0: Byte)
    ensures DecodeGroup(EncodeGroup([b0])) == Some([b0])
  {
    FirstBits(b0, 0);
    DecodeDigits(b0 / 4, b0 % 4 * 16, 0, 0);
  }

  lemma TwoBytes(b0: Byte, b1: Byte)
    ensures DecodeGroup(EncodeGroup([b0, b1])) == Some([b0, b1])
  {
    FirstBits(b0, b1);
    MiddleBits(b0, b1, 0);
    var d0: nat, d1: nat, d2: nat := b0 / 4, b0 % 4 * 16 + b1 / 16, b1 % 16 * 4;
    DecodeDigits(d0, d1, d2, 0);
    assert EncodeGroup([b0, b1]) == [Digit(d0), Digit(d1), Digit(d2), '='];
  }

  lemma ThreeBytes(b0: Byte, b1: Byte, b2: Byte)
    ensures DecodeGroup(EncodeGroup([b0, b1, b2])) == Some([b0, b1, b2])
  {
    FirstBits(b0, b1);
    MiddleBits(b0, b1, b2);
    LastBits(b1, b2);
    var d0: nat, d1: nat, d2: nat, d3: nat := b0 / 4, b0 % 4 * 16 + b1 / 16, b1 % 16 * 4 + b2 / 64, b2 % 64;
    DecodeDigits(d0, d1, d2, d3);
    assert EncodeGroup([b0, b1, b2]) == [Digit(d0), Digit(d1), Digit(d2), Digit(d3)];
  }

  lemma GroupRoundTrip(g: Bytes)
    requires 1 <= |g| <= 3
    ensures DecodeGroup(EncodeGroup(g)) == Some(g)
  {
    if |g| == 1 {
      OneByte(g[0]);
      assert g == [g[0]];
    } else if |g| == 2 {
      TwoBytes(g[0], g[1]);
      assert g == [g[0], g[1]];
    } else {
      ThreeBytes(g[0], g[1], g[2]);
      assert g == [g[0], g[1], g[2]];
    }
  }

  /** Every byte string survives being encoded. */
  lemma {:induction false} DecodeEncode(bytes: Bytes)
    ensures Decode(Encode(bytes)) == Some(bytes)
  {
    if bytes != [] {
      var n := if |bytes| <= 3 then |bytes| else 3;
      GroupRoundTrip(bytes[..n]);
      DecodeEncode(bytes[n..]);
      assert bytes[..n] + bytes[n..] == bytes;
      DecodePrefixed(EncodeGroup(bytes[..n]), Encode(bytes[n..]));
      if n == |bytes| {
        assert bytes[..n] == bytes;
        assert EncodeGroup(bytes) + "" == EncodeGroup(bytes);
      }
    }
  }

  lemma DecodePrefixed(group: string, rest: string)
    requires |group| == 4 && DecodeGroup(group).Some? && Decode(rest).Some?
    ensures Decode(group + rest) == Some(DecodeGroup(group).value + Decode(rest).value)
  {
    assert (group + rest)[..4] == group && (group + rest)[4..] == rest;
  }

  /** Encoded text can stand in a header. */
  lemma {:induction false} EncodedIsVisible(bytes: Bytes, i: nat)
    requires i < |Encode(bytes)|
    ensures '+' <= Encode(bytes)[i] <= 'z'
  {
    if i >= 4 {
      EncodedIsVisible(bytes[3..], i - 4);
    }
  }

  // ---------------------------------------------------------------------------
  // The encoding itself
  // ---------------------------------------------------------------------------

  /** The capital letters, the small letters, the ten digits, plus and slash, in this order. */
  lemma DigitIs(n: nat)
    requires n < 64
    ensures 'A' <= Digit(n) <= 'Z' <==> n < 26
    ensures 'a' <= Digit(n) <= 'z' <==> 26 <= n < 52
    ensures '0' <= Digit(n) <= '9' <==> 52 <= n < 62
    ensures Digit(62) == '+' && Digit(63) == '/'
    ensures n < 61 && n != 25 && n != 51 ==> Digit(n + 1) as int == Digit(n) as int + 1
  {
  }

  /** Four digits are the same number as the three bytes. */
  lemma GroupIsNumber(b0: Byte, b1: Byte, b2: Byte, d: seq<nat>)
    requires |d| == 4 && forall i :: 0 <= i < 4 ==> d[i] < 64
    requires 64 * (64 * (64 * d[0] + d[1]) + d[2]) + d[3] == 256 * (256 * b0 + b1) + b2
    ensures EncodeGroup([b0, b1, b2]) == [Digit(d[0]), Digit(d[1]), Digit(d[2]), Digit(d[3])]
  {
    assert d[0] == b0 / 4;
    assert d[1] == b0 % 4 * 16 + b1 / 16;
    assert d[2] == b1 % 16 * 4 + b2 / 64;
    assert d[3] == b2 % 64;
  }

  /** A short group is a group that is filled up with zeros, with one '=' for each byte that is not there. */
  lemma ShortGroups(b0: Byte, b1: Byte)
    ensures EncodeGroup([b0, b1]) == EncodeGroup([b0, b1, 0])[..3] + "="
    ensures EncodeGroup([b0]) == EncodeGroup([b0, 0, 0])[..2] + "=="
  {
  }
}
