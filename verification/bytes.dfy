/** Byte-level vocabulary shared by the door-command encoders and the card-reader server. */
module Bytes {

  /** One byte: an element of a Python bytearray, or the one character a serial read returns. */
  type Byte = x: int | 0 <= x < 256

  /** Carriage return and line feed, the terminator of every door command and reader frame. */
  const CR: Byte := 0x0D
  const LF: Byte := 0x0A

  /** A value that may be absent: an empty serial read, or a search that found nothing. */
  datatype Option<+T> = None | Some(value: T)

  /** The bytes of an ASCII string, character by character. */
  function Ascii(s: string): (r: seq<Byte>)
    requires forall i :: 0 <= i < |s| ==> s[i] as int < 256
    ensures |r| == |s|
    ensures forall i :: 0 <= i < |s| ==> r[i] == s[i] as int
  {
    seq(|s|, i requires 0 <= i < |s| => s[i] as int)
  }
}
