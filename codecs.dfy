/** The two CPython codecs the binding relies on: decoding native C strings into
  * Python str with errors="replace" (ASCII and UTF-8), and strict UTF-8 encoding
  * of a Python str. These are the interpreter's behaviour, not the binding's, and
  * are given here only so that the values the binding produces are determined. */
module Codecs {
  import opened Base

  const REPLACEMENT: CodePoint := 0xFFFD

  /** ASCII decoding with errors="replace": every byte above 0x7F becomes U+FFFD. */
  function AsciiDecode(raw: seq<byte>): (s: seq<CodePoint>)
    ensures |s| == |raw|
    ensures forall i :: 0 <= i < |raw| && raw[i] < 0x80 ==> s[i] == raw[i]
    ensures forall i :: 0 <= i < |raw| && raw[i] >= 0x80 ==> s[i] == REPLACEMENT
  {
    seq(|raw|, i requires 0 <= i < |raw| => if raw[i] < 0x80 then raw[i] else REPLACEMENT)
  }

  /** Length of the well-formed UTF-8 sequence announced by a lead byte, or 0 when
    * the byte cannot start one (Table 3-7 of the Unicode Standard). */
  function SequenceLength(b: byte): nat
  {
    if b < 0x80 then 1
    else if 0xC2 <= b <= 0xDF then 2
    else if 0xE0 <= b <= 0xEF then 3
    else if 0xF0 <= b <= 0xF4 then 4
    else 0
  }

  predicate IsContinuation(c: byte) { 0x80 <= c <= 0xBF }

  /** The range the second byte must fall in after the given lead byte. */
  predicate SecondByteOk(lead: byte, c: byte)
  {
    if lead == 0xE0 then 0xA0 <= c <= 0xBF
    else if lead == 0xED then 0x80 <= c <= 0x9F
    else if lead == 0xF0 then 0x90 <= c <= 0xBF
    else if lead == 0xF4 then 0x80 <= c <= 0x8F
    else IsContinuation(c)
  }

  /** Length of the longest prefix of s that starts a well-formed sequence (the
    * "maximal subpart"), at most SequenceLength(s[0]). */
  function WellFormedPrefix(s: seq<byte>): (k: nat)
    requires |s| > 0
    ensures k <= SequenceLength(s[0]) && k <= |s|
    ensures SequenceLength(s[0]) > 0 ==> k >= 1
  {
    var n := SequenceLength(s[0]);
    if n <= 1 then n
    else if |s| < 2 || !SecondByteOk(s[0], s[1]) then 1
    else if n == 2 then 2
    else if |s| < 3 || !IsContinuation(s[2]) then 2
    else if n == 3 then 3
    else if |s| < 4 || !IsContinuation(s[3]) then 3
    else 4
  }

  /** The scalar value of a well-formed sequence of length 2, 3 or 4. */
  function ScalarOf(s: seq<byte>): CodePoint
    requires |s| > 0 && 2 <= SequenceLength(s[0]) <= |s|
    requires WellFormedPrefix(s) == SequenceLength(s[0])
  {
    var n := SequenceLength(s[0]);
    var b0: int, b1: int := s[0], s[1];
    if n == 2 then (b0 - 0xC0) * 0x40 + (b1 - 0x80)
    else
      var b2: int := s[2];
      if n == 3 then (b0 - 0xE0) * 0x1000 + (b1 - 0x80) * 0x40 + (b2 - 0x80)
      else
        var b3: int := s[3];
        (b0 - 0xF0) * 0x4_0000 + (b1 - 0x80) * 0x1000 + (b2 - 0x80) * 0x40 + (b3 - 0x80)
  }

  /** UTF-8 decoding with errors="replace": each maximal ill-formed subpart becomes
    * one U+FFFD. */
  function Utf8Decode(raw: seq<byte>): (s: seq<CodePoint>)
    ensures |s| <= |raw|
    decreases |raw|
  {
    if raw == [] then []
    else
      var n := SequenceLength(raw[0]);
      var k := WellFormedPrefix(raw);
      if n == 1 then [raw[0]] + Utf8Decode(raw[1..])
      else if n > 1 && k == n then [ScalarOf(raw)] + Utf8Decode(raw[n..])
      else if k == 0 then [REPLACEMENT] + Utf8Decode(raw[1..])
      else [REPLACEMENT] + Utf8Decode(raw[k..])
  }

  /** Strict UTF-8 encoding: fails (UnicodeEncodeError) on a lone surrogate. */
  function Utf8Encode(s: seq<CodePoint>): (r: Option<seq<byte>>)
    ensures r.Some? <==> forall i :: 0 <= i < |s| ==> !(0xD800 <= s[i] <= 0xDFFF)
    ensures r.Some? ==> |s| <= |r.value| <= 4 * |s|
  {
    if s == [] then Some([])
    else
      var c := s[0];
      var head: Option<seq<byte>> :=
        if c < 0x80 then Some([c])
        else if c < 0x800 then Some([0xC0 + c / 0x40, 0x80 + c % 0x40])
        else if 0xD800 <= c <= 0xDFFF then None
        else if c < 0x1_0000 then Some([0xE0 + c / 0x1000, 0x80 + (c / 0x40) % 0x40, 0x80 + c % 0x40])
        else Some([0xF0 + c / 0x4_0000, 0x80 + (c / 0x1000) % 0x40, 0x80 + (c / 0x40) % 0x40, 0x80 + c % 0x40]);
      match (head, Utf8Encode(s[1..]))
      case (Some(h), Some(t)) => Some(h + t)
      case _ => None
  }

  /** Decoding an all-ASCII byte string gives the same text under both codecs. */
  lemma {:induction false} AsciiAgreesWithUtf8(raw: seq<byte>)
    requires forall i :: 0 <= i < |raw| ==> raw[i] < 0x80
    ensures Utf8Decode(raw) == AsciiDecode(raw)
    decreases |raw|
  {
    if raw != [] {
      AsciiAgreesWithUtf8(raw[1..]);
      assert AsciiDecode(raw) == [raw[0]] + AsciiDecode(raw[1..]);
    }
  }

  /** Encoding then decoding an ASCII-only str gives it back. */
  lemma {:induction false} AsciiRoundTrip(s: seq<CodePoint>)
    requires forall i :: 0 <= i < |s| ==> s[i] < 0x80
    ensures Utf8Encode(s).Some? && Utf8Encode(s).value == s
    ensures Utf8Decode(Utf8Encode(s).value) == s
    decreases |s|
  {
    if s != [] {
      AsciiRoundTrip(s[1..]);
      assert Utf8Encode(s).value == [s[0]] + s[1..];
      assert s == [s[0]] + s[1..];
    }
  }
}
