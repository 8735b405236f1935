/** Basic C-level types shared by the whole model: bytes, code points, optional
  * values, C integer conversions and the allocation-failure oracle. */
module Base {

  /** An unsigned char. */
  type byte = x: int | 0 <= x < 0x100

  /** A Python str element: any code point, lone surrogates included. */
  type CodePoint = x: int | 0 <= x < 0x11_0000

  datatype Option<+T> = None | Some(value: T)

  /** The bytes of a C string up to (not including) its first NUL, as strlen and
    * strdup see it. */
  function UpToNul(s: seq<byte>): (r: seq<byte>)
    ensures |r| <= |s| && r == s[..|r|]
    ensures 0 !in r
    ensures |r| < |s| ==> s[|r|] == 0
  {
    if s == [] || s[0] == 0 then [] else [s[0]] + UpToNul(s[1..])
  }

  /** The code points of a Dafny string literal, for messages the binding builds. */
  function Text(s: string): (r: seq<CodePoint>)
    ensures |r| == |s|
  {
    seq(|s|, i requires 0 <= i < |s| => s[i] as int)
  }

  const LONG_MIN: int := -0x8000_0000_0000_0000
  const LONG_MAX: int := 0x7FFF_FFFF_FFFF_FFFF

  predicate FitsLong(i: int) { LONG_MIN <= i <= LONG_MAX }

  /** PyLong_AsLong: the value when it fits a C long, and -1 (with OverflowError
    * raised) otherwise. */
  function AsLong(i: int): (r: int)
    ensures FitsLong(r)
    ensures !FitsLong(i) ==> r == -1
  {
    if FitsLong(i) then i else -1
  }

  /** Conversion of a C long to a 32-bit C int, wrapping modulo 2^32. */
  function ToCInt(l: int): (r: int)
    ensures -0x8000_0000 <= r < 0x8000_0000
    ensures (l - r) % 0x1_0000_0000 == 0
  {
    (l + 0x8000_0000) % 0x1_0000_0000 - 0x8000_0000
  }
}
