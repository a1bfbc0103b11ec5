/** Bytes and the byte strings the codec writes. */
module Bytes {

  /** An octet, as the number a Uint8Array element holds. */
  type byte = b: int | 0 <= b < 256

  /**
   * A JavaScript string as the bytes lib0 writes for it (its UTF-8 form).
   * The model never converts between characters and UTF-8: a text is its bytes.
   */
  type Text = seq<byte>

  /**
   * The bytes of a string literal, one per character. For the ASCII
   * literals of the symbol tables these are exactly their UTF-8 bytes.
   */
  function Ascii(s: string): (t: Text)
    ensures |t| == |s|
    ensures forall i :: 0 <= i < |s| && s[i] < 128 as char ==> t[i] == s[i] as int
  {
    seq(|s|, i requires 0 <= i < |s| => s[i] as int % 256)
  }

  /**
   * The byte a Uint8Array stores for the number n: n modulo 256. Every
   * `writeUint8` goes through this conversion, so a count of 256 is stored as 0.
   */
  function ToUint8(n: int): (b: byte)
    ensures b == n % 256
    ensures 0 <= n < 256 ==> b == n
  {
    n % 256
  }
}
