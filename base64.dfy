/** Base64 with the alphabet of section 4 of RFC 4648, as the web app uses it:
    `btoa` over a "binary string" (one character per byte), `atob` with the
    forgiving decoder of the WHATWG HTML standard. */
module Base64 {
  import opened Common
  import opened Strings

  /** The 64 digits `A-Z a-z 0-9 + /`. */
  predicate IsDigit(c: char) {
    'A' <= c <= 'Z' || 'a' <= c <= 'z' || '0' <= c <= '9' || c == '+' || c == '/'
  }

  predicate AllDigits(s: string) {
    forall i :: 0 <= i < |s| ==> IsDigit(s[i])
  }

  /** Table 1 of RFC 4648: the character that encodes a 6-bit value. */
  function DigitChar(v: nat): (c: char)
    requires v < 64
    ensures IsDigit(c)
  {
    if v < 26 then ('A' as int + v) as char
    else if v < 52 then ('a' as int + (v - 26)) as char
    else if v < 62 then ('0' as int + (v - 52)) as char
    else if v == 62 then '+'
    else '/'
  }

  /** The 6-bit value a digit encodes. */
  function DigitValue(c: char): (v: nat)
    requires IsDigit(c)
    ensures v < 64 && DigitChar(v) == c
  {
    if 'A' <= c <= 'Z' then c as int - 'A' as int
    else if 'a' <= c <= 'z' then c as int - 'a' as int + 26
    else if '0' <= c <= '9' then c as int - '0' as int + 52
    else if c == '+' then 62
    else 63
  }

  lemma DigitValueOfChar(v: nat)
    requires v < 64
    ensures DigitValue(DigitChar(v)) == v
  {
  }

  /** The number of digits the last, incomplete group of `n % 3` bytes takes. */
  function TailDigits(rem: nat): nat
    requires rem < 3
  {
    if rem == 0 then 0 else rem + 1
  }

  /** The four 6-bit values of a group of three bytes (section 4 of RFC 4648);
      a missing byte of an incomplete group counts as zero. */
  function Sextet0(x0: byte): (v: nat)
    ensures v < 64
  {
    x0 as int / 4
  }

  function Sextet1(x0: byte, x1: byte): (v: nat)
    ensures v < 64
  {
    (x0 as int % 4) * 16 + x1 as int / 16
  }

  function Sextet2(x1: byte, x2: byte): (v: nat)
    ensures v < 64
  {
    (x1 as int % 16) * 4 + x2 as int / 64
  }

  function Sextet3(x2: byte): (v: nat)
    ensures v < 64
  {
    x2 as int % 64
  }

  /** The three bytes a group of four 6-bit values stands for. */
  function Octet0(d0: nat, d1: nat): byte
    requires d0 < 64 && d1 < 64
  {
    (d0 * 4 + d1 / 16) as byte
  }

  function Octet1(d1: nat, d2: nat): byte
    requires d1 < 64 && d2 < 64
  {
    ((d1 % 16) * 16 + d2 / 4) as byte
  }

  function Octet2(d2: nat, d3: nat): byte
    requires d2 < 64 && d3 < 64
  {
    ((d2 % 4) * 64 + d3) as byte
  }

  /** The digits of `b`, three bytes to four digits, without padding. */
  function EncodeGroups(b: seq<byte>): (s: string)
    ensures AllDigits(s)
    ensures |s| % 4 == TailDigits(|b| % 3)
    ensures |b| == 0 <==> |s| == 0
    decreases |b|
  {
    if |b| == 0 then ""
    else if |b| == 1 then
      [DigitChar(Sextet0(b[0])), DigitChar(Sextet1(b[0], 0))]
    else if |b| == 2 then
      [DigitChar(Sextet0(b[0])), DigitChar(Sextet1(b[0], b[1])), DigitChar(Sextet2(b[1], 0))]
    else
      [DigitChar(Sextet0(b[0])), DigitChar(Sextet1(b[0], b[1])),
       DigitChar(Sextet2(b[1], b[2])), DigitChar(Sextet3(b[2]))] + EncodeGroups(b[3..])
  }

  /** The `=` characters that complete the last group. */
  function Padding(n: nat): string
  {
    if n % 3 == 1 then "==" else if n % 3 == 2 then "=" else ""
  }

  /** RFC 4648 base64 of `b` (what `btoa` and `Buffer.toString('base64')` give). */
  function Encode(b: seq<byte>): (s: string)
    ensures |s| % 4 == 0
  {
    EncodeGroups(b) + Padding(|b|)
  }

  /** The bytes a run of digits (no padding) stands for; the bits of an
      incomplete last group that do not fill a byte are dropped. */
  function DecodeDigits(u: string): (b: seq<byte>)
    requires AllDigits(u) && |u| % 4 != 1
    ensures |b| == |u| * 3 / 4
    decreases |u|
  {
    if |u| == 0 then []
    else if |u| == 2 then
      [Octet0(DigitValue(u[0]), DigitValue(u[1]))]
    else if |u| == 3 then
      [Octet0(DigitValue(u[0]), DigitValue(u[1])), Octet1(DigitValue(u[1]), DigitValue(u[2]))]
    else
      [Octet0(DigitValue(u[0]), DigitValue(u[1])), Octet1(DigitValue(u[1]), DigitValue(u[2])),
       Octet2(DigitValue(u[2]), DigitValue(u[3]))] + DecodeDigits(u[4..])
  }

  /** ASCII whitespace, which the forgiving decoder skips. */
  predicate IsAsciiWhitespace(c: char) {
    c == '\t' || c == '\n' || c == '\U{000C}' || c == '\r' || c == ' '
  }

  function RemoveWhitespace(s: string): (t: string)
    ensures forall i :: 0 <= i < |t| ==> !IsAsciiWhitespace(t[i])
    ensures (forall i :: 0 <= i < |s| ==> !IsAsciiWhitespace(s[i])) ==> t == s
  {
    if s == [] then []
    else if IsAsciiWhitespace(s[0]) then RemoveWhitespace(s[1..])
    else [s[0]] + RemoveWhitespace(s[1..])
  }

  /** The text left once the decoder has removed whitespace and the `=`
      padding of a complete last group. */
  function Unpadded(s: string): string
  {
    var t := RemoveWhitespace(s);
    if |t| % 4 == 0 && EndsWith(t, "==") then t[..|t| - 2]
    else if |t| % 4 == 0 && EndsWith(t, "=") then t[..|t| - 1]
    else t
  }

  /** The forgiving-base64 decode of the WHATWG HTML standard (`atob`): None
      where `atob` throws. */
  function Decode(s: string): (r: Option<seq<byte>>)
    ensures r.Some? ==> |r.value| == |Unpadded(s)| * 3 / 4
    ensures |Unpadded(s)| % 4 == 1 ==> r.None?
    ensures s == "" ==> r == Some([])
  {
    var u := Unpadded(s);
    if |u| % 4 == 1 || !AllDigits(u) then None else Some(DecodeDigits(u))
  }

  /** Each byte of a group survives encoding and decoding. */
  lemma FirstOctetRoundTrip(x0: byte, x1: byte)
    ensures Octet0(Sextet0(x0), Sextet1(x0, x1)) == x0
  {
    DivModBy16(x0 as int % 4, x1 as int / 16);
  }

  lemma SecondOctetRoundTrip(x0: byte, x1: byte, x2: byte)
    ensures Octet1(Sextet1(x0, x1), Sextet2(x1, x2)) == x1
  {
    DivModBy16(x0 as int % 4, x1 as int / 16);
    DivModBy4(x1 as int % 16, x2 as int / 64);
  }

  lemma ThirdOctetRoundTrip(x1: byte, x2: byte)
    ensures Octet2(Sextet2(x1, x2), Sextet3(x2)) == x2
  {
    DivModBy4(x1 as int % 16, x2 as int / 64);
  }

  lemma DivModBy16(q: int, r: int)
    requires 0 <= r < 16 && q >= 0
    ensures (q * 16 + r) / 16 == q && (q * 16 + r) % 16 == r
  {
  }

  lemma DivModBy4(q: int, r: int)
    requires 0 <= r < 4 && q >= 0
    ensures (q * 4 + r) / 4 == q && (q * 4 + r) % 4 == r
  {
  }

  lemma OneByteRoundTrip(x0: byte)
    ensures DecodeDigits(EncodeGroups([x0])) == [x0]
  {
    var u := EncodeGroups([x0]);
    FirstOctetRoundTrip(x0, 0);
    DigitValueOfChar(Sextet0(x0));
    DigitValueOfChar(Sextet1(x0, 0));
    assert u == [DigitChar(Sextet0(x0)), DigitChar(Sextet1(x0, 0))];
    assert DigitValue(u[0]) == Sextet0(x0) && DigitValue(u[1]) == Sextet1(x0, 0);
    assert DecodeDigits(u) == [Octet0(DigitValue(u[0]), DigitValue(u[1]))];
  }

  lemma TwoBytesRoundTrip(x0: byte, x1: byte)
    ensures DecodeDigits(EncodeGroups([x0, x1])) == [x0, x1]
  {
    var u := EncodeGroups([x0, x1]);
    FirstOctetRoundTrip(x0, x1);
    SecondOctetRoundTrip(x0, x1, 0);
    DigitValueOfChar(Sextet0(x0));
    DigitValueOfChar(Sextet1(x0, x1));
    DigitValueOfChar(Sextet2(x1, 0));
    assert u == [DigitChar(Sextet0(x0)), DigitChar(Sextet1(x0, x1)), DigitChar(Sextet2(x1, 0))];
  }

  lemma FullGroupStep(b: seq<byte>)
    requires |b| >= 3
    ensures |EncodeGroups(b)| >= 4 && EncodeGroups(b)[4..] == EncodeGroups(b[3..])
    ensures DecodeDigits(EncodeGroups(b)) == b[..3] + DecodeDigits(EncodeGroups(b[3..]))
  {
    var u := EncodeGroups(b);
    FirstOctetRoundTrip(b[0], b[1]);
    SecondOctetRoundTrip(b[0], b[1], b[2]);
    ThirdOctetRoundTrip(b[1], b[2]);
    DigitValueOfChar(Sextet0(b[0]));
    DigitValueOfChar(Sextet1(b[0], b[1]));
    DigitValueOfChar(Sextet2(b[1], b[2]));
    DigitValueOfChar(Sextet3(b[2]));
    assert u[4..] == EncodeGroups(b[3..]);
  }

  lemma {:induction false} DecodeEncodeGroups(b: seq<byte>)
    ensures DecodeDigits(EncodeGroups(b)) == b
    decreases |b|
  {
    if |b| == 0 {
    } else if |b| == 1 {
      OneByteRoundTrip(b[0]);
      assert [b[0]] == b;
    } else if |b| == 2 {
      TwoBytesRoundTrip(b[0], b[1]);
      assert [b[0], b[1]] == b;
    } else {
      FullGroupStep(b);
      DecodeEncodeGroups(b[3..]);
      assert b == b[..3] + b[3..];
    }
  }

  /** Encoded text holds no whitespace, so the decoder keeps all of it. */
  lemma EncodeHasNoWhitespace(b: seq<byte>)
    ensures RemoveWhitespace(Encode(b)) == Encode(b)
  {
    var g := EncodeGroups(b);
    var s := Encode(b);
    forall i | 0 <= i < |s| ensures !IsAsciiWhitespace(s[i]) {
      if i < |g| { assert IsDigit(s[i]); } else { assert s[i] == '='; }
    }
  }

  /** The decoder removes exactly the padding the encoder added. */
  lemma UnpaddedEncode(b: seq<byte>)
    ensures Unpadded(Encode(b)) == EncodeGroups(b)
  {
    EncodeHasNoWhitespace(b);
    if |b| % 3 == 0 {
      UnpaddedNoPadding(b);
    } else if |b| % 3 == 1 {
      UnpaddedTwoPads(b);
    } else {
      UnpaddedOnePad(b);
    }
  }

  lemma UnpaddedNoPadding(b: seq<byte>)
    requires |b| % 3 == 0 && RemoveWhitespace(Encode(b)) == Encode(b)
    ensures Unpadded(Encode(b)) == EncodeGroups(b)
  {
    var g := EncodeGroups(b);
    assert Encode(b) == g;
    if |g| > 0 {
      assert IsDigit(g[|g| - 1]);
      assert !EndsWith(g, "=");
    }
  }

  lemma UnpaddedTwoPads(b: seq<byte>)
    requires |b| % 3 == 1 && RemoveWhitespace(Encode(b)) == Encode(b)
    ensures Unpadded(Encode(b)) == EncodeGroups(b)
  {
    var g := EncodeGroups(b);
    var s := Encode(b);
    assert s == g + "==";
    assert EndsWith(s, "==");
    assert s[..|s| - 2] == g;
  }

  lemma UnpaddedOnePad(b: seq<byte>)
    requires |b| % 3 == 2 && RemoveWhitespace(Encode(b)) == Encode(b)
    ensures Unpadded(Encode(b)) == EncodeGroups(b)
  {
    var g := EncodeGroups(b);
    var s := Encode(b);
    assert s == g + "=";
    assert IsDigit(g[|g| - 1]);
    assert s[|s| - 2] == g[|g| - 1];
    assert !EndsWith(s, "==");
    assert EndsWith(s, "=");
    assert s[..|s| - 1] == g;
  }

  /** Decoding what was encoded gives the bytes back (`atob(btoa(x)) == x`). */
  lemma DecodeEncode(b: seq<byte>)
    ensures Decode(Encode(b)) == Some(b)
  {
    UnpaddedEncode(b);
    DecodeEncodeGroups(b);
  }

  /** A "binary string": `String.fromCharCode` of each byte. */
  function Binary(b: seq<byte>): (s: string)
    ensures |s| == |b|
    ensures forall i :: 0 <= i < |b| ==> s[i] as int == b[i] as int
  {
    seq(|b|, i requires 0 <= i < |b| => (b[i] as int) as char)
  }

  lemma BinaryConcat(a: seq<byte>, b: seq<byte>)
    ensures Binary(a + b) == Binary(a) + Binary(b)
  {
    assert forall i :: 0 <= i < |a + b| ==> Binary(a + b)[i] == (Binary(a) + Binary(b))[i];
  }

  predicate IsBinaryString(s: string) {
    forall i :: 0 <= i < |s| ==> s[i] as int < 256
  }

  /** `charCodeAt` of each character of a binary string. */
  function CharCodes(s: string): (b: seq<byte>)
    requires IsBinaryString(s)
    ensures |b| == |s|
    ensures forall i :: 0 <= i < |s| ==> b[i] as int == s[i] as int
  {
    seq(|s|, i requires 0 <= i < |s| => s[i] as int as byte)
  }

  /** `btoa`: throws on a character above U+00FF. */
  function Btoa(s: string): (r: Result<string>)
    ensures r.Ok? <==> IsBinaryString(s)
    ensures r.Ok? ==> Decode(r.value) == Some(CharCodes(s))
  {
    if IsBinaryString(s) then
      DecodeEncode(CharCodes(s));
      Ok(Encode(CharCodes(s)))
    else Err("Invalid character")
  }

  /** `atob`: the binary string of the decoded bytes, or the exception. */
  function Atob(s: string): (r: Result<string>)
    ensures r.Ok? <==> Decode(s).Some?
    ensures r.Ok? ==> IsBinaryString(r.value)
  {
    match Decode(s)
    case Some(b) => Ok(Binary(b))
    case None => Err("The string to be decoded is not correctly encoded.")
  }

  /** The bytes of a binary string read back give the original bytes. */
  lemma CharCodesOfBinary(b: seq<byte>)
    ensures IsBinaryString(Binary(b)) && CharCodes(Binary(b)) == b
  {
  }

  /** `btoa` of the binary string of some bytes is their base64. */
  lemma BtoaBinary(b: seq<byte>)
    ensures Btoa(Binary(b)) == Ok(Encode(b))
  {
    CharCodesOfBinary(b);
  }

  /** `atob` as bytes: the decoded bytes, or the exception `atob` throws. */
  function AtobBytes(s: string): (r: Result<seq<byte>>)
    ensures r.Ok? <==> Decode(s).Some?
    ensures r.Ok? ==> r.value == Decode(s).value
    ensures r.Err? ==> r.msg == Atob(s).msg
  {
    match Decode(s)
    case Some(b) => Ok(b)
    case None => Err(Atob(s).msg)
  }
}
