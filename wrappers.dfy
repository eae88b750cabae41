/** Optional values and ASCII text as byte sequences. */
module Wrappers {
  import opened Bits

  datatype Option<T> = None | Some(value: T)

  /** The one-byte code of an ASCII character. */
  function Ch(c: char): byte
    requires c as int < 128
  {
    c as int
  }

  /**
   * The bytes of a string written in the firmware's source: each character's
   * low byte. Every literal the firmware sends is ASCII, where this is the
   * character code itself.
   */
  function Ascii(s: string): (b: seq<byte>)
    ensures |b| == |s|
    ensures forall i :: 0 <= i < |s| ==> b[i] == s[i] as int % 256
    ensures forall i :: 0 <= i < |s| && s[i] as int < 128 ==> b[i] == s[i] as int
  {
    seq(|s|, i requires 0 <= i < |s| => s[i] as int % 256)
  }
}
