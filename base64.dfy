/** Base64 as the browser's `btoa` and `atob` apply it to a binary string: the alphabet and
    padding of section 4 of RFC 4648 on the encoding side, and the WHATWG "forgiving-base64
    decode" on the decoding side (ASCII whitespace ignored, padding optional, leftover bits
    dropped). */
module Base64 {
  import opened Common

  /** The character of the base64 alphabet (section 4 of RFC 4648, table 1) for a 6-bit value. */
  function SextetChar(i: nat): (c: char)
    requires i < 64
  {
    if i < 26 then (('A' as int) + i) as char
    else if i < 52 then (('a' as int) + (i - 26)) as char
    else if i < 62 then (('0' as int) + (i - 52)) as char
    else if i == 62 then '+'
    else '/'
  }

  predicate IsSextetChar(c: char)
  {
    ('A' <= c <= 'Z') || ('a' <= c <= 'z') || ('0' <= c <= '9') || c == '+' || c == '/'
  }

  /** The 6-bit value a character of the alphabet stands for. */
  function SextetValue(c: char): (v: nat)
    requires IsSextetChar(c)
    ensures v < 64
    ensures SextetChar(v) == c
  {
    if 'A' <= c <= 'Z' then (c as int) - ('A' as int)
    else if 'a' <= c <= 'z' then (c as int) - ('a' as int) + 26
    else if '0' <= c <= '9' then (c as int) - ('0' as int) + 52
    else if c == '+' then 62
    else 63
  }

  lemma SextetRoundTrip(i: nat)
    requires i < 64
    ensures IsSextetChar(SextetChar(i)) && SextetValue(SextetChar(i)) == i
  {
  }

  /** The four characters for a full group of three bytes. */
  function Group3(x: Byte, y: Byte, z: Byte): (g: string)
    ensures |g| == 4
  {
    [SextetChar(x / 4), SextetChar((x % 4) * 16 + y / 16), SextetChar((y % 16) * 4 + z / 64), SextetChar(z % 64)]
  }

  /** The three characters for a final group of two bytes. */
  function Group2(x: Byte, y: Byte): (g: string)
    ensures |g| == 3
  {
    [SextetChar(x / 4), SextetChar((x % 4) * 16 + y / 16), SextetChar((y % 16) * 4)]
  }

  /** The two characters for a final group of one byte. */
  function Group1(x: Byte): (g: string)
    ensures |g| == 2
  {
    [SextetChar(x / 4), SextetChar((x % 4) * 16)]
  }

  /** The unpadded digits for `b`: four characters per full group of three bytes, and two or
      three for a final group of one or two bytes. */
  function Digits(b: Bytes): (s: string)
    decreases |b|
  {
    if |b| == 0 then ""
    else if |b| == 1 then Group1(b[0])
    else if |b| == 2 then Group2(b[0], b[1])
    else Group3(b[0], b[1], b[2]) + Digits(b[3..])
  }

  /** The '=' characters that complete the last group to four characters. */
  function Padding(n: nat): string
  {
    if n % 3 == 1 then "==" else if n % 3 == 2 then "=" else ""
  }

  /** `btoa(String.fromCharCode(...b))`: the base64 text of a byte sequence. */
  function Encode(b: Bytes): string
  {
    Digits(b) + Padding(|b|)
  }

  /** ASCII whitespace as the forgiving decoder strips it: TAB, LF, FF, CR and SPACE. */
  predicate IsAsciiWhitespace(c: char)
  {
    c == '\t' || c == '\n' || c == '\U{C}' || c == '\r' || c == ' '
  }

  function StripWhitespace(s: string): (r: string)
    ensures forall i :: 0 <= i < |r| ==> !IsAsciiWhitespace(r[i])
  {
    if s == [] then []
    else if IsAsciiWhitespace(s[0]) then StripWhitespace(s[1..])
    else [s[0]] + StripWhitespace(s[1..])
  }

  /** Drops one or two trailing '=' when the length is a multiple of four. */
  function StripPadding(s: string): string
  {
    if |s| % 4 == 0 && |s| >= 2 && s[|s| - 1] == '=' && s[|s| - 2] == '=' then s[..|s| - 2]
    else if |s| % 4 == 0 && |s| >= 1 && s[|s| - 1] == '=' then s[..|s| - 1]
    else s
  }

  predicate AllSextetChars(s: string)
  {
    forall i :: 0 <= i < |s| ==> IsSextetChar(s[i])
  }

  /** The three bytes a group of four alphabet characters stands for. */
  function Ungroup4(s: string): (b: Bytes)
    requires |s| == 4 && AllSextetChars(s)
    ensures |b| == 3
  {
    var c0, c1, c2, c3 := SextetValue(s[0]), SextetValue(s[1]), SextetValue(s[2]), SextetValue(s[3]);
    [c0 * 4 + c1 / 16, (c1 % 16) * 16 + c2 / 4, (c2 % 4) * 64 + c3]
  }

  /** The two bytes of a final group of three characters; the last two bits are dropped. */
  function Ungroup3(s: string): (b: Bytes)
    requires |s| == 3 && AllSextetChars(s)
    ensures |b| == 2
  {
    var c0, c1, c2 := SextetValue(s[0]), SextetValue(s[1]), SextetValue(s[2]);
    [c0 * 4 + c1 / 16, (c1 % 16) * 16 + c2 / 4]
  }

  /** The byte of a final group of two characters; the last four bits are dropped. */
  function Ungroup2(s: string): (b: Bytes)
    requires |s| == 2 && AllSextetChars(s)
    ensures |b| == 1
  {
    var c0, c1 := SextetValue(s[0]), SextetValue(s[1]);
    [c0 * 4 + c1 / 16]
  }

  /** Bytes for a run of alphabet characters whose length is not 1 modulo 4. */
  function DecodeDigits(s: string): (b: Bytes)
    requires |s| % 4 != 1 && AllSextetChars(s)
    decreases |s|
  {
    if |s| == 0 then []
    else if |s| == 2 then Ungroup2(s)
    else if |s| == 3 then Ungroup3(s)
    else Ungroup4(s[..4]) + DecodeDigits(s[4..])
  }

  /** `atob(s)` read back as bytes; None is the InvalidCharacterError that `atob` throws. */
  function Decode(s: string): Option<Bytes>
  {
    var t := StripPadding(StripWhitespace(s));
    if |t| % 4 == 1 then None
    else if !AllSextetChars(t) then None
    else Some(DecodeDigits(t))
  }

  lemma SplitHigh(x: Byte, y: Byte)
    ensures x / 4 < 64 && (x % 4) * 16 + y / 16 < 64
    ensures (x / 4) * 4 + ((x % 4) * 16 + y / 16) / 16 == x
    ensures ((x % 4) * 16 + y / 16) % 16 == y / 16
  {
  }

  lemma SplitLow(y: Byte, z: Byte)
    ensures (y % 16) * 4 + z / 64 < 64
    ensures (y / 16) * 16 + ((y % 16) * 4 + z / 64) / 4 == y
    ensures ((y % 16) * 4 + z / 64) % 4 == z / 64
    ensures (z / 64) * 64 + z % 64 == z
  {
  }

  lemma Group3RoundTrip(x: Byte, y: Byte, z: Byte)
    ensures AllSextetChars(Group3(x, y, z))
    ensures Ungroup4(Group3(x, y, z)) == [x, y, z]
  {
    SplitHigh(x, y);
    SplitLow(y, z);
    var g := Group3(x, y, z);
    SextetRoundTrip(x / 4);
    SextetRoundTrip((x % 4) * 16 + y / 16);
    SextetRoundTrip((y % 16) * 4 + z / 64);
    SextetRoundTrip(z % 64);
  }

  lemma Group2RoundTrip(x: Byte, y: Byte)
    ensures AllSextetChars(Group2(x, y))
    ensures Ungroup3(Group2(x, y)) == [x, y]
  {
    SplitHigh(x, y);
    SplitLow(y, 0);
    SextetRoundTrip(x / 4);
    SextetRoundTrip((x % 4) * 16 + y / 16);
    SextetRoundTrip((y % 16) * 4);
  }

  lemma Group1RoundTrip(x: Byte)
    ensures AllSextetChars(Group1(x))
    ensures Ungroup2(Group1(x)) == [x]
  {
    SplitHigh(x, 0);
    SextetRoundTrip(x / 4);
    SextetRoundTrip((x % 4) * 16);
  }

  /** How many characters the last, incomplete group of digits has for `n` bytes. */
  function DigitsRemainder(n: nat): nat
  {
    if n % 3 == 0 then 0 else n % 3 + 1
  }

  /** Decoding a full group followed by more digits decodes the group, then the rest. */
  lemma DecodeDigitsCons(g: string, rest: string)
    requires |g| == 4 && AllSextetChars(g)
    requires |rest| % 4 != 1 && AllSextetChars(rest)
    ensures AllSextetChars(g + rest) && |g + rest| % 4 != 1
    ensures DecodeDigits(g + rest) == Ungroup4(g) + DecodeDigits(rest)
  {
    var s := g + rest;
    assert s[..4] == g && s[4..] == rest;
    forall i | 0 <= i < |s| ensures IsSextetChar(s[i]) {
      if i >= 4 { assert s[i] == rest[i - 4]; } else { assert s[i] == g[i]; }
    }
  }

  lemma {:induction false} DigitsLength(b: Bytes)
    ensures |Digits(b)| % 4 == DigitsRemainder(|b|)
    decreases |b|
  {
    if |b| >= 3 {
      var k := |Digits(b[3..])|;
      DigitsLength(b[3..]);
      assert |Digits(b)| == 4 + k;
      ShiftRemainders(|b| - 3, k);
    }
  }

  /** Three more bytes leave the remainder as it was; four more characters keep it modulo 4. */
  lemma ShiftRemainders(n: nat, k: nat)
    ensures DigitsRemainder(n + 3) == DigitsRemainder(n)
    ensures (4 + k) % 4 == k % 4
  {
  }

  lemma {:induction false} DigitsAlphabet(b: Bytes)
    ensures AllSextetChars(Digits(b))
    decreases |b|
  {
    if |b| == 1 {
      Group1RoundTrip(b[0]);
    } else if |b| == 2 {
      Group2RoundTrip(b[0], b[1]);
    } else if |b| >= 3 {
      var g, rest := Group3(b[0], b[1], b[2]), Digits(b[3..]);
      Group3RoundTrip(b[0], b[1], b[2]);
      DigitsAlphabet(b[3..]);
      DigitsLength(b[3..]);
      DecodeDigitsCons(g, rest);
    }
  }

  /** Decoding the unpadded digits gives the bytes back. */
  lemma {:induction false} DigitsRoundTrip(b: Bytes)
    ensures |Digits(b)| % 4 == DigitsRemainder(|b|)
    ensures AllSextetChars(Digits(b))
    ensures DecodeDigits(Digits(b)) == b
    decreases |b|
  {
    DigitsLength(b);
    DigitsAlphabet(b);
    if |b| == 1 {
      Group1RoundTrip(b[0]);
    } else if |b| == 2 {
      Group2RoundTrip(b[0], b[1]);
    } else if |b| >= 3 {
      var g, rest := Group3(b[0], b[1], b[2]), Digits(b[3..]);
      Group3RoundTrip(b[0], b[1], b[2]);
      DigitsRoundTrip(b[3..]);
      DecodeDigitsCons(g, rest);
      assert [b[0], b[1], b[2]] + b[3..] == b;
    }
  }

  /** Stripping the padding that `Encode` appends leaves the digits. */
  lemma StripPaddingOfDigits(d: string, n: nat)
    requires AllSextetChars(d) && |d| % 4 == DigitsRemainder(n)
    ensures StripPadding(d + Padding(n)) == d
  {
    var s := d + Padding(n);
    if n % 3 == 0 {
      assert s == d;
      if |d| > 0 { assert IsSextetChar(d[|d| - 1]); }
    } else if n % 3 == 1 {
      assert s[..|s| - 2] == d;
    } else {
      assert s[..|s| - 1] == d;
      assert IsSextetChar(d[|d| - 1]);
      assert s[|s| - 2] == d[|d| - 1];
    }
  }

  /** `atob(btoa(x))` gives back every byte sequence: the round trip of section 4 of RFC 4648
      through the browser's two functions. */
  lemma {:induction false} DecodeEncode(b: Bytes)
    ensures Decode(Encode(b)) == Some(b)
  {
    DigitsRoundTrip(b);
    var d := Digits(b);
    var s := Encode(b);
    EncodeAlphabet(b);
    StripWhitespaceKeeps(s);
    StripPaddingOfDigits(d, |b|);
  }

  /** Text made of alphabet characters and '=' has no whitespace to strip. */
  lemma {:induction false} StripWhitespaceKeeps(s: string)
    requires forall i :: 0 <= i < |s| ==> IsSextetChar(s[i]) || s[i] == '='
    ensures StripWhitespace(s) == s
    decreases |s|
  {
    if s != [] {
      StripWhitespaceKeeps(s[1..]);
      assert [s[0]] + s[1..] == s;
    }
  }

  /** The encoding is whole groups of four characters, each an alphabet character or a
      trailing '='. */
  lemma {:induction false} EncodeAlphabet(b: Bytes)
    ensures |Encode(b)| % 4 == 0
    ensures forall i :: 0 <= i < |Encode(b)| ==> IsSextetChar(Encode(b)[i]) || Encode(b)[i] == '='
  {
    DigitsLength(b);
    DigitsAlphabet(b);
    PaddedGroups(Digits(b), |b|);
  }

  /** Digits of the length `DigitsRemainder(n)` asks for, padded for `n` bytes, fill whole groups. */
  lemma PaddedGroups(d: string, n: nat)
    requires |d| % 4 == DigitsRemainder(n) && AllSextetChars(d)
    ensures |d + Padding(n)| % 4 == 0
    ensures forall i :: 0 <= i < |d + Padding(n)| ==> IsSextetChar((d + Padding(n))[i]) || (d + Padding(n))[i] == '='
  {
    var s := d + Padding(n);
    forall i | 0 <= i < |s| ensures IsSextetChar(s[i]) || s[i] == '=' {
      if i < |d| { assert s[i] == d[i]; }
    }
  }
}
