/**
 * The two reader frames recorded in tests/fakeGateway.py:40 and :43: STX, twelve
 * hex characters, CR, LF, ETX, read one byte at a time into the server's buffer.
 */
module SampleFrames {
  import opened Bytes
  import opened TestServer

  /** '\x026A0049F63EEB\r\n\x03' */
  const FirstFrame: seq<Byte> :=
    [0x02, 0x36, 0x41, 0x30, 0x30, 0x34, 0x39, 0x46, 0x36, 0x33, 0x45, 0x45, 0x42, 0x0D, 0x0A, 0x03]

  /** '\x026A0049DFB844\r\n\x03' */
  const SecondFrame: seq<Byte> :=
    [0x02, 0x36, 0x41, 0x30, 0x30, 0x34, 0x39, 0x44, 0x46, 0x42, 0x38, 0x34, 0x34, 0x0D, 0x0A, 0x03]

  /** The card values the two frames carry at items 2..11. */
  const FirstValue: seq<Byte> := [0x41, 0x30, 0x30, 0x34, 0x39, 0x46, 0x36, 0x33, 0x45, 0x45]
  const SecondValue: seq<Byte> := [0x41, 0x30, 0x30, 0x34, 0x39, 0x44, 0x46, 0x42, 0x38, 0x34]

  /** The two card values spelled as text. */
  lemma ValuesAsText()
    ensures FirstValue == Ascii("A0049F63EE")
    ensures SecondValue == Ascii("A0049DFB84")
  {
  }

  /** Fed byte by byte, the first frame crosses the threshold only on its last byte. */
  lemma FirstFrameFiresOnLastByte()
    ensures |FirstFrame| == 16
    ensures forall k :: 0 <= k < 16 ==> !PacketCheckFires(FirstFrame[..k])
    ensures PacketCheckFires(FirstFrame)
  {
  }

  /** Fed byte by byte, the second frame also crosses the threshold only on its last byte. */
  lemma SecondFrameFiresOnLastByte()
    ensures |SecondFrame| == 16
    ensures forall k :: 0 <= k < 16 ==> !PacketCheckFires(SecondFrame[..k])
    ensures PacketCheckFires(SecondFrame)
  {
  }

  /** The first frame's line feed is at 14 and its card value is FirstValue, which check_card rejects. */
  lemma FirstFrameValue()
    ensures PacketPass(FirstFrame) == Extracted(16, 14, FirstValue)
    ensures !CheckCard(PacketPass(FirstFrame).value)
  {
    IndexOfFirst(FirstFrame, LF, 14);
    ValueWindowExact(FirstFrame);
    assert Slice(FirstFrame, ValueFrom, ValueTo) == FirstValue;
  }

  /** The second frame's line feed is at 14 and its card value is SecondValue. */
  lemma SecondFrameValue()
    ensures PacketPass(SecondFrame) == Extracted(16, 14, SecondValue)
    ensures !CheckCard(PacketPass(SecondFrame).value)
  {
    IndexOfFirst(SecondFrame, LF, 14);
    ValueWindowExact(SecondFrame);
    assert Slice(SecondFrame, ValueFrom, ValueTo) == SecondValue;
  }
}
