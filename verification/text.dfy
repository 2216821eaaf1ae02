/** The string operations of the JavaScript runtime that the driver and the
    wallet rely on: hex encoding and decoding of Node buffers, `String.slice`
    and `toLowerCase`. */
module Text {

  type Byte = x: int | 0 <= x < 256
  type Bytes = seq<Byte>

  predicate IsHexDigit(c: char) {
    '0' <= c <= '9' || 'a' <= c <= 'f' || 'A' <= c <= 'F'
  }

  predicate IsHexString(s: string) {
    forall i :: 0 <= i < |s| ==> IsHexDigit(s[i])
  }

  function DigitValue(c: char): (v: nat)
    requires IsHexDigit(c)
    ensures v < 16
  {
    if '0' <= c <= '9' then c as int - '0' as int
    else if 'a' <= c <= 'f' then c as int - 'a' as int + 10
    else c as int - 'A' as int + 10
  }

  /** The lower-case digit that `Buffer.toString('hex')` writes for `v`. */
  function DigitChar(v: nat): (c: char)
    requires v < 16
    ensures IsHexDigit(c) && DigitValue(c) == v
    ensures !('A' <= c <= 'Z')
  {
    if v < 10 then ('0' as int + v) as char else ('a' as int + v - 10) as char
  }

  /** The byte written as the two hex digits `hi`, `lo`; this is also what
      `Number.parseInt(hi + lo, 16)` yields for two hex digits. */
  function PairValue(hi: char, lo: char): Byte
    requires IsHexDigit(hi) && IsHexDigit(lo)
  {
    DigitValue(hi) * 16 + DigitValue(lo)
  }

  /** `buf.toString('hex')`: two lower-case digits per byte. */
  function ToHex(b: Bytes): (s: string)
    ensures |s| == 2 * |b| && IsHexString(s)
    ensures forall i :: 0 <= i < |s| ==> !('A' <= s[i] <= 'Z')
  {
    if b == [] then ""
    else [DigitChar(b[0] / 16), DigitChar(b[0] % 16)] + ToHex(b[1..])
  }

  /** `Buffer.from(s, 'hex')`: decodes digit pairs from the left and stops at
      the first pair that is not two hex digits; an odd trailing digit is
      dropped. */
  function FromHex(s: string): (b: Bytes)
    ensures |b| <= |s| / 2
  {
    if |s| < 2 || !IsHexDigit(s[0]) || !IsHexDigit(s[1]) then []
    else [PairValue(s[0], s[1])] + FromHex(s[2..])
  }

  /** Decoding what `ToHex` wrote gives back the bytes. */
  lemma {:induction false} FromHexToHex(b: Bytes)
    ensures FromHex(ToHex(b)) == b
  {
    if b != [] {
      var s := ToHex(b);
      assert s[2..] == ToHex(b[1..]);
      assert PairValue(s[0], s[1]) == b[0];
      FromHexToHex(b[1..]);
    }
  }

  /** Re-encoding what `FromHex` decoded from a well-formed hex string of
      even length gives that string in lower case. */
  lemma {:induction false} ToHexFromHex(s: string)
    requires IsHexString(s) && |s| % 2 == 0
    ensures ToHex(FromHex(s)) == ToLower(s)
  {
    if |s| >= 2 {
      var v := PairValue(s[0], s[1]);
      HexPairRoundTrip(s[0], s[1]);
      assert FromHex(s) == [v] + FromHex(s[2..]);
      assert ToHex(FromHex(s)) == [DigitChar(v / 16), DigitChar(v % 16)] + ToHex(FromHex(s[2..]));
      ToHexFromHex(s[2..]);
      ToLowerPair(s);
    }
  }

  /** Lower-casing splits after the first two characters. */
  lemma ToLowerPair(s: string)
    requires |s| >= 2
    ensures ToLower(s) == [LowerChar(s[0]), LowerChar(s[1])] + ToLower(s[2..])
  {
    assert ToLower(s)[2..] == ToLower(s[2..]);
  }

  /** Writing the value of one digit pair gives the pair in lower case. */
  lemma HexPairRoundTrip(hi: char, lo: char)
    requires IsHexDigit(hi) && IsHexDigit(lo)
    ensures DigitChar(PairValue(hi, lo) / 16) == LowerChar(hi)
    ensures DigitChar(PairValue(hi, lo) % 16) == LowerChar(lo)
  {
    var v := PairValue(hi, lo);
    assert v / 16 == DigitValue(hi) && v % 16 == DigitValue(lo);
  }

  /** On a well-formed hex string of even length, `FromHex` decodes every
      digit pair. */
  lemma {:induction false} FromHexPairs(s: string)
    requires IsHexString(s) && |s| % 2 == 0
    ensures |FromHex(s)| == |s| / 2
    ensures forall k :: 0 <= k < |s| / 2 ==> FromHex(s)[k] == PairValue(s[2 * k], s[2 * k + 1])
  {
    if |s| >= 2 {
      var t := s[2..];
      FromHexPairs(t);
      forall k | 1 <= k < |s| / 2
        ensures FromHex(s)[k] == PairValue(s[2 * k], s[2 * k + 1])
      {
        assert FromHex(s)[k] == FromHex(t)[k - 1];
        assert t[2 * (k - 1)] == s[2 * k] && t[2 * (k - 1) + 1] == s[2 * k + 1];
      }
    }
  }

  /** Decoding the first `2 * n` digits of a hex string gives the first `n`
      bytes of decoding all of it. */
  lemma FromHexPrefix(s: string, n: nat)
    requires IsHexString(s) && |s| % 2 == 0 && 2 * n <= |s|
    ensures |FromHex(s)| == |s| / 2
    ensures FromHex(s[..2 * n]) == FromHex(s)[..n]
  {
    FromHexPairs(s);
    FromHexPairs(s[..2 * n]);
  }

  /** `s.slice(start)` for a non-negative `start`. */
  function SliceFrom(s: string, start: nat): (r: string)
    ensures |r| == if start <= |s| then |s| - start else 0
    ensures forall i :: 0 <= i < |r| ==> r[i] == s[start + i]
  {
    if start <= |s| then s[start..] else ""
  }

  /** `s.slice(0, end)` for a non-negative `end`. */
  function SliceTo(s: string, end: nat): (r: string)
    ensures |r| == if end <= |s| then end else |s|
    ensures r <= s
  {
    if end <= |s| then s[..end] else s
  }

  /** `s.slice(-n)` for a positive `n`: the last `n` characters, or all of `s`. */
  function SliceLast(s: string, n: nat): (r: string)
    ensures |r| == if n <= |s| then n else |s|
    ensures forall i :: 0 <= i < |r| ==> r[i] == s[|s| - |r| + i]
  {
    if n <= |s| then s[|s| - n..] else s
  }

  /** `s.startsWith(prefix)`. */
  predicate StartsWith(s: string, prefix: string) {
    prefix <= s
  }

  function LowerChar(c: char): char {
    if 'A' <= c <= 'Z' then (c as int - 'A' as int + 'a' as int) as char else c
  }

  /** `s.toLowerCase()` on the ASCII letters. */
  function ToLower(s: string): (r: string)
    ensures |r| == |s|
    ensures forall i :: 0 <= i < |s| ==> r[i] == LowerChar(s[i])
  {
    seq(|s|, i requires 0 <= i < |s| => LowerChar(s[i]))
  }

  /** A string with no upper-case letter is its own lower-case form. */
  lemma ToLowerFixed(s: string)
    requires forall i :: 0 <= i < |s| ==> !('A' <= s[i] <= 'Z')
    ensures ToLower(s) == s
  {
  }
}
