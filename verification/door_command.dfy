/**
 * The 6-byte command the host sends to an access module:
 * module id, opcode, two checksum placeholders, CR, LF.
 * The placeholders are constants; no checksum is ever computed.
 */
module DoorCommand {
  import opened Bytes

  const FrameLength := 6

  /** Every command builder addresses module 1 unless told otherwise. */
  const DefaultModuleId: Byte := 1

  /** Bytes 2 and 3: the "currently unused" checksum. */
  const ChecksumHigh: Byte := 0x55
  const ChecksumLow: Byte := 0xAA

  /** Opcodes: lock ("bad command"), short door access, persistent unlock. */
  const OpLock: Byte := 0x00
  const OpUnlockAccess: Byte := 0x01
  const OpUnlockPersistent: Byte := 0x02

  /** The wire frame addressed to `moduleId` carrying `opcode`. */
  function Frame(moduleId: Byte, opcode: Byte): (r: seq<Byte>)
    ensures IsFrameFor(r, moduleId, opcode)
  {
    [moduleId, opcode, ChecksumHigh, ChecksumLow, CR, LF]
  }

  /** Field-by-field reading of the wire format: what the access module checks byte by byte. */
  predicate IsFrameFor(s: seq<Byte>, moduleId: Byte, opcode: Byte)
  {
    |s| == FrameLength
    && s[0] == moduleId
    && s[1] == opcode
    && s[2] == 0x55 && s[3] == 0xAA
    && s[4] == 0x0D && s[5] == 0x0A
  }

  /** The frame is exactly the sequence whose six fields read as above. */
  lemma FrameIff(s: seq<Byte>, moduleId: Byte, opcode: Byte)
    ensures s == Frame(moduleId, opcode) <==> IsFrameFor(s, moduleId, opcode)
  {
  }

  /** Two frames are equal exactly when they carry the same module id and the same opcode. */
  lemma FrameInjective(m1: Byte, op1: Byte, m2: Byte, op2: Byte)
    ensures Frame(m1, op1) == Frame(m2, op2) <==> m1 == m2 && op1 == op2
  {
  }

  /** For one module, frames with different opcodes differ at byte 1 and nowhere else. */
  lemma FramesDifferOnlyAtOpcode(moduleId: Byte, op1: Byte, op2: Byte)
    requires op1 != op2
    ensures forall i :: 0 <= i < FrameLength ==>
      (Frame(moduleId, op1)[i] != Frame(moduleId, op2)[i] <==> i == 1)
  {
  }
}
