/** Bytes, decimal numerals, hexadecimal and UTF-8: the small pieces of Go's
    standard library (`strconv`, `encoding/hex`, `[]byte(s)`) the exporter leans on. */
module Text {
  import opened Wrappers

  newtype byte = x: int | 0 <= x < 256

  predicate IsDigit(c: char) {
    '0' <= c <= '9'
  }

  predicate AllDigits(s: string) {
    forall i :: 0 <= i < |s| ==> IsDigit(s[i])
  }

  function Pow10(n: nat): (r: nat)
    ensures r >= 1
  {
    if n == 0 then 1 else 10 * Pow10(n - 1)
  }

  function DigitChar(d: nat): (c: char)
    requires d < 10
    ensures IsDigit(c) && c as int - '0' as int == d
  {
    ('0' as int + d) as char
  }

  /** The number a string of decimal digits denotes, most significant digit first. */
  function DigitsValue(s: string): nat
    requires AllDigits(s)
  {
    if s == [] then 0 else 10 * DigitsValue(s[..|s| - 1]) + (s[|s| - 1] as int - '0' as int)
  }

  /** `strconv.FormatInt(n, 10)` for a non-negative `n`: the shortest decimal numeral of `n`. */
  function FormatNat(n: nat): (r: string)
    ensures 1 <= |r| && AllDigits(r)
    ensures DigitsValue(r) == n
    ensures r[0] == '0' ==> r == "0"
    decreases n
  {
    if n < 10 then [DigitChar(n)]
    else
      var high := FormatNat(n / 10);
      var r := high + [DigitChar(n % 10)];
      assert r[..|r| - 1] == high;
      r
  }

  /** `strconv.FormatInt(n, 10)`: a minus sign for negative `n`, then the digits of `|n|`. */
  function FormatInt(n: int): (r: string)
    ensures n >= 0 ==> 1 <= |r| && AllDigits(r) && DigitsValue(r) == n && (r[0] == '0' ==> r == "0")
    ensures n < 0 ==> 2 <= |r| && r[0] == '-' && AllDigits(r[1..]) && DigitsValue(r[1..]) == -n && r[1] != '0'
  {
    if n >= 0 then FormatNat(n)
    else
      var digits := FormatNat(-n);
      assert ("-" + digits)[1..] == digits;
      "-" + digits
  }

  predicate IsLowerHexDigit(c: char) {
    '0' <= c <= '9' || 'a' <= c <= 'f'
  }

  predicate IsLowerHex(s: string) {
    forall i :: 0 <= i < |s| ==> IsLowerHexDigit(s[i])
  }

  function HexDigit(d: nat): (c: char)
    requires d < 16
    ensures IsLowerHexDigit(c)
  {
    if d < 10 then ('0' as int + d) as char else ('a' as int + d - 10) as char
  }

  function HexDigitValue(c: char): (d: nat)
    requires IsLowerHexDigit(c)
    ensures d < 16 && HexDigit(d) == c
  {
    if c <= '9' then c as int - '0' as int else c as int - 'a' as int + 10
  }

  /** `hex.EncodeToString`: two lower-case hexadecimal digits per byte, high nibble first. */
  function HexEncode(b: seq<byte>): (r: string)
    ensures |r| == 2 * |b|
    ensures IsLowerHex(r)
  {
    if b == [] then []
    else [HexDigit(b[0] as int / 16), HexDigit(b[0] as int % 16)] + HexEncode(b[1..])
  }

  /** The inverse of `HexEncode`: `None` for an odd length or a character that is
      not a lower-case hexadecimal digit. */
  function HexDecode(s: string): (r: Option<seq<byte>>)
    ensures r.Some? <==> |s| % 2 == 0 && IsLowerHex(s)
    ensures r.Some? ==> 2 * |r.value| == |s|
    decreases |s|
  {
    if s == [] then Some([])
    else if |s| < 2 || !IsLowerHexDigit(s[0]) || !IsLowerHexDigit(s[1]) then None
    else
      match HexDecode(s[2..])
      case None => None
      case Some(rest) => Some([(16 * HexDigitValue(s[0]) + HexDigitValue(s[1])) as byte] + rest)
  }

  /** Decoding undoes encoding. */
  lemma {:induction false} HexDecodeEncode(b: seq<byte>)
    ensures HexDecode(HexEncode(b)) == Some(b)
  {
    if b != [] {
      var s := HexEncode(b);
      assert s[2..] == HexEncode(b[1..]);
      HexDecodeEncode(b[1..]);
      assert b == [b[0]] + b[1..];
    }
  }

  /** Encoding undoes decoding: every even-length lower-case hex string is the
      encoding of exactly one byte sequence. */
  lemma {:induction false} HexEncodeDecode(s: string)
    requires |s| % 2 == 0 && IsLowerHex(s)
    ensures HexEncode(HexDecode(s).value) == s
    decreases |s|
  {
    if s != [] {
      var hi, lo := HexDigitValue(s[0]), HexDigitValue(s[1]);
      var b := (16 * hi + lo) as byte;
      var rest := HexDecode(s[2..]).value;
      assert HexDecode(s).value == [b] + rest;
      assert b as int / 16 == hi && b as int % 16 == lo;
      assert ([b] + rest)[1..] == rest;
      HexEncodeDecode(s[2..]);
      assert s == [s[0], s[1]] + s[2..];
    }
  }

  predicate IsAscii(s: string) {
    forall i :: 0 <= i < |s| ==> s[i] as int < 0x80
  }

  /** A continuation byte of a multi-byte UTF-8 sequence: `10xxxxxx`. */
  predicate IsContinuation(b: byte) {
    0x80 <= b < 0xC0
  }

  /** The number of bytes a UTF-8 sequence has, read off its leading byte. */
  function SequenceLength(lead: byte): nat {
    if lead < 0x80 then 1 else if lead < 0xE0 then 2 else if lead < 0xF0 then 3 else 4
  }

  /** The code point a well-formed UTF-8 sequence of one to four bytes carries: the
      payload bits of the leading byte, then six bits per continuation byte. */
  function RuneValue(r: seq<byte>): int
    requires 1 <= |r| <= 4
  {
    match |r|
    case 1 => r[0] as int
    case 2 => (r[0] as int - 0xC0) * 0x40 + (r[1] as int - 0x80)
    case 3 => (r[0] as int - 0xE0) * 0x1000 + (r[1] as int - 0x80) * 0x40 + (r[2] as int - 0x80)
    case 4 => (r[0] as int - 0xF0) * 0x4_0000 + (r[1] as int - 0x80) * 0x1000
              + (r[2] as int - 0x80) * 0x40 + (r[3] as int - 0x80)
  }

  /** The two-byte sequence `110xxxxx 10xxxxxx` of a code point with eleven significant bits. */
  function TwoByteSequence(n: int): (r: seq<byte>)
    requires 0x80 <= n < 0x800
    ensures |r| == 2 && SequenceLength(r[0]) == 2 && IsContinuation(r[1]) && RuneValue(r) == n
  {
    var hi, lo := n / 0x40, n % 0x40;
    [(0xC0 + hi) as byte, (0x80 + lo) as byte]
  }

  /** The three-byte sequence `1110xxxx 10xxxxxx 10xxxxxx` of a code point with sixteen significant bits. */
  function ThreeByteSequence(n: int): (r: seq<byte>)
    requires 0x800 <= n < 0x1_0000
    ensures |r| == 3 && SequenceLength(r[0]) == 3 && IsContinuation(r[1]) && IsContinuation(r[2])
    ensures RuneValue(r) == n
  {
    var q, lo := n / 0x40, n % 0x40;
    var hi, mid := q / 0x40, q % 0x40;
    [(0xE0 + hi) as byte, (0x80 + mid) as byte, (0x80 + lo) as byte]
  }

  /** The four-byte sequence `11110xxx 10xxxxxx 10xxxxxx 10xxxxxx` of a supplementary-plane code point. */
  function FourByteSequence(n: int): (r: seq<byte>)
    requires 0x1_0000 <= n <= 0x10_FFFF
    ensures |r| == 4 && SequenceLength(r[0]) == 4 && IsContinuation(r[1]) && IsContinuation(r[2])
    ensures IsContinuation(r[3]) && RuneValue(r) == n
  {
    var q, lo := n / 0x40, n % 0x40;
    var p, low := q / 0x40, q % 0x40;
    var hi, high := p / 0x40, p % 0x40;
    [(0xF0 + hi) as byte, (0x80 + high) as byte, (0x80 + low) as byte, (0x80 + lo) as byte]
  }

  /** The UTF-8 encoding of one Unicode scalar value (section 3 of RFC 3629): the shortest
      sequence whose leading byte announces its length, whose other bytes are continuation
      bytes, and whose payload bits spell the code point. */
  function EncodeRune(c: char): (r: seq<byte>)
    ensures 1 <= |r| <= 4
    ensures |r| == 1 <==> c as int < 0x80
    ensures |r| == 2 <==> 0x80 <= c as int < 0x800
    ensures |r| == 3 <==> 0x800 <= c as int < 0x1_0000
    ensures SequenceLength(r[0]) == |r|
    ensures forall i :: 1 <= i < |r| ==> IsContinuation(r[i])
    ensures RuneValue(r) == c as int
  {
    var n := c as int;
    if n < 0x80 then [n as byte]
    else if n < 0x800 then TwoByteSequence(n)
    else if n < 0x1_0000 then ThreeByteSequence(n)
    else FourByteSequence(n)
  }

  /** Go's `[]byte(s)` conversion of a string: its UTF-8 encoding. */
  function Utf8Encode(s: string): (r: seq<byte>)
    ensures |s| <= |r| <= 4 * |s|
    ensures IsAscii(s) ==> |r| == |s| && forall i :: 0 <= i < |s| ==> r[i] as int == s[i] as int
  {
    if s == [] then [] else EncodeRune(s[0]) + Utf8Encode(s[1..])
  }

  /** Distinct strings have distinct UTF-8 encodings: the leading byte of each sequence
      fixes its length, so the encoding splits back into the characters it came from. */
  lemma {:induction false} Utf8EncodeInjective(a: string, b: string)
    ensures Utf8Encode(a) == Utf8Encode(b) ==> a == b
    decreases |a|
  {
    if Utf8Encode(a) == Utf8Encode(b) && a != [] && b != [] {
      var ea, eb := EncodeRune(a[0]), EncodeRune(b[0]);
      var ra, rb := Utf8Encode(a[1..]), Utf8Encode(b[1..]);
      assert ea + ra == eb + rb;
      assert ea[0] == (ea + ra)[0] == (eb + rb)[0] == eb[0];
      assert |ea| == |eb|;
      assert ea == (ea + ra)[..|ea|] == (eb + rb)[..|eb|] == eb;
      assert ra == (ea + ra)[|ea|..] == (eb + rb)[|eb|..] == rb;
      Utf8EncodeInjective(a[1..], b[1..]);
      assert a == [a[0]] + a[1..] && b == [b[0]] + b[1..];
    }
  }
}
