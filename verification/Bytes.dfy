/** Bytes and machine words, and the texts that are one byte a character. */
module Bytes {

  const U64_LIMIT: nat := 0x1_0000_0000_0000_0000

  newtype byte = b: int | 0 <= b < 0x100

  predicate IsAscii(s: string) {
    forall i | 0 <= i < |s| :: s[i] as int < 0x80
  }

  /** The bytes of a text of ASCII characters. */
  function Ascii(s: string): (bytes: seq<byte>)
    requires IsAscii(s)
    ensures |bytes| == |s| && forall i | 0 <= i < |s| :: bytes[i] as int == s[i] as int
  {
    seq(|s|, i requires 0 <= i < |s| => s[i] as int as byte)
  }
}
