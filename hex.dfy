/** The hexadecimal rendering of a digest: `Array.from(bytes).map(b => b.toString(16)
    .padStart(2, '0')).join('')`. */
module Hex {
  import opened Common

  const HexDigits: string := "0123456789abcdef"

  function DigitChar(d: nat): char
    requires d < 16
  {
    HexDigits[d]
  }

  predicate IsLowerHexChar(c: char)
  {
    ('0' <= c <= '9') || ('a' <= c <= 'f')
  }

  /** `n.toString(16)` for a non-negative integer: lower-case digits, no leading zeros. */
  function Radix16(n: nat): (s: string)
    decreases n
  {
    if n < 16 then [DigitChar(n)] else Radix16(n / 16) + [DigitChar(n % 16)]
  }

  /** `s.padStart(len, fill)` with a one-character filler. */
  function PadStart(s: string, len: nat, fill: char): (r: string)
    decreases len - |s|
  {
    if |s| >= len then s else PadStart([fill] + s, len, fill)
  }

  /** The two characters one byte contributes. */
  function ByteHex(b: Byte): string
  {
    PadStart(Radix16(b), 2, '0')
  }

  /** The joined hex string of a byte sequence. */
  function HexString(bytes: Bytes): string
  {
    if bytes == [] then "" else ByteHex(bytes[0]) + HexString(bytes[1..])
  }

  /** Padding `toString(16)` to two places yields the high and the low nibble of the byte. */
  lemma ByteHexNibbles(b: Byte)
    ensures ByteHex(b) == [DigitChar(b / 16), DigitChar(b % 16)]
  {
    if b < 16 {
      assert Radix16(b) == [DigitChar(b)];
      assert PadStart(Radix16(b), 2, '0') == PadStart(['0', DigitChar(b)], 2, '0');
      assert DigitChar(0) == '0';
    } else {
      assert Radix16(b / 16) == [DigitChar(b / 16)];
    }
  }

  /** The value of a lower-case hex digit. */
  function DigitValue(c: char): (d: nat)
    requires IsLowerHexChar(c)
    ensures d < 16 && DigitChar(d) == c
  {
    if '0' <= c <= '9' then (c as int) - ('0' as int) else (c as int) - ('a' as int) + 10
  }

  /** Reads a hex string back into bytes, two characters per byte. */
  function ParseHex(s: string): (b: Bytes)
    requires |s| % 2 == 0
    requires forall i :: 0 <= i < |s| ==> IsLowerHexChar(s[i])
  {
    if s == [] then [] else [DigitValue(s[0]) * 16 + DigitValue(s[1])] + ParseHex(s[2..])
  }

  lemma DigitRoundTrip(d: nat)
    requires d < 16
    ensures IsLowerHexChar(DigitChar(d)) && DigitValue(DigitChar(d)) == d
  {
    assert HexDigits[d] in "0123456789abcdef";
  }

  /** The digest's hex form has two lower-case hex digits per byte, and reading it back gives
      the digest: nothing is lost or reordered by the `map`/`join`. */
  lemma {:induction false} HexStringRoundTrip(bytes: Bytes)
    ensures |HexString(bytes)| == 2 * |bytes|
    ensures forall i :: 0 <= i < |HexString(bytes)| ==> IsLowerHexChar(HexString(bytes)[i])
    ensures ParseHex(HexString(bytes)) == bytes
    decreases |bytes|
  {
    if bytes != [] {
      var b := bytes[0];
      var h, rest := ByteHex(b), HexString(bytes[1..]);
      ByteHexNibbles(b);
      DigitRoundTrip(b / 16);
      DigitRoundTrip(b % 16);
      HexStringRoundTrip(bytes[1..]);
      var s := h + rest;
      assert HexString(bytes) == s;
      forall i | 0 <= i < |s| ensures IsLowerHexChar(s[i]) {
        if i >= 2 { assert s[i] == rest[i - 2]; }
      }
      assert s[2..] == rest;
      assert [b] + bytes[1..] == bytes;
    }
  }
}
