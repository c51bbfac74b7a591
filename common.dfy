/** Failure-compatible wrappers and the byte type shared by every module. */
module Common {

  /** A byte as JavaScript's Uint8Array holds it. */
  type Byte = x: int | 0 <= x < 256
  type Bytes = seq<Byte>

  /** A value that may be absent (JavaScript's `null` or `undefined` result). */
  datatype Option<+T> = None | Some(value: T)

  /** The outcome of an operation that can throw: the value, or the exception it raises. */
  datatype Result<+T, +E> = Success(value: T) | Failure(error: E)

  const MiB: nat := 1024 * 1024

  /** A browser `File`: its name, its MIME type and its contents; `size` is the byte count. */
  datatype File = File(name: string, mimeType: string, data: Bytes)
  {
    function Size(): nat { |data| }
  }

  /** A browser `Blob` of bytes with a MIME type. */
  datatype Blob = Blob(data: Bytes, mimeType: string)

  /** The first `n` elements of `s`, or all of them when `s` is shorter (Array.prototype.slice(0, n)). */
  function Prefix<T>(s: seq<T>, n: nat): (r: seq<T>)
    ensures |r| == if n <= |s| then n else |s|
    ensures forall i :: 0 <= i < |r| ==> r[i] == s[i]
  {
    if n <= |s| then s[..n] else s
  }

  /** The elements of `s` from position `n` on, or nothing when `s` is shorter (Array.prototype.slice(n)). */
  function Suffix<T>(s: seq<T>, n: nat): (r: seq<T>)
    ensures |r| == if n <= |s| then |s| - n else 0
    ensures forall i :: 0 <= i < |r| ==> r[i] == s[n + i]
  {
    if n <= |s| then s[n..] else []
  }

  /** `parts.join(separator)`. */
  function Join(parts: seq<string>, separator: string): string
  {
    if parts == [] then ""
    else if |parts| == 1 then parts[0]
    else Join(parts[..|parts| - 1], separator) + separator + parts[|parts| - 1]
  }

  /** The character of decimal digit `d`. */
  function DigitChar(d: nat): (c: char)
    requires d < 10
    ensures '0' <= c <= '9'
  {
    (48 + d) as char
  }

  /** The decimal form `String(n)` and template literals give a non-negative integer. */
  function NatToString(n: nat): (s: string)
    ensures |s| >= 1 && (n >= 10 ==> |s| >= 2)
    ensures forall i :: 0 <= i < |s| ==> '0' <= s[i] <= '9'
    decreases n
  {
    if n < 10 then [DigitChar(n)] else NatToString(n / 10) + [DigitChar(n % 10)]
  }

  /** Different numbers print differently. */
  lemma {:induction false} NatToStringInjective(m: nat, n: nat)
    requires NatToString(m) == NatToString(n)
    ensures m == n
    decreases m
  {
    var s := NatToString(m);
    if m >= 10 && n >= 10 {
      assert s[..|s| - 1] == NatToString(m / 10);
      assert NatToString(n)[..|s| - 1] == NatToString(n / 10);
      NatToStringInjective(m / 10, n / 10);
      assert s[|s| - 1] == DigitChar(m % 10) == DigitChar(n % 10);
    } else if m < 10 && n < 10 {
      assert s[0] == DigitChar(m) == DigitChar(n);
    }
  }
}
