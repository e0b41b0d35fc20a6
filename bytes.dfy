/** PHP values as the Adapter sees them: strings are byte strings and
    integers are 64-bit signed. */
module Bytes {

  /** One byte of a PHP string. */
  newtype byte = b: int | 0 <= b < 0x100

  /** A PHP string: a sequence of bytes with no encoding attached. */
  type Bytes = seq<byte>

  /** A PHP `int` on a 64-bit build (PHP_INT_MIN .. PHP_INT_MAX). */
  newtype int64 = x: int | -0x8000_0000_0000_0000 <= x < 0x8000_0000_0000_0000

  predicate IsAscii(s: string) {
    forall i :: 0 <= i < |s| ==> s[i] as int < 0x80
  }

  /** The bytes of an ASCII text literal, one byte per character. */
  function Ascii(s: string): (r: Bytes)
    requires IsAscii(s)
    ensures |r| == |s|
    ensures forall i :: 0 <= i < |s| ==> r[i] as int == s[i] as int
  {
    if s == [] then [] else [s[0] as int as byte] + Ascii(s[1..])
  }
}
