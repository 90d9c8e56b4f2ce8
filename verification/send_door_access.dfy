/** tests/sendDoorAccess.py: the "allow door access" command, which unlocks the door for a short time. */
module SendDoorAccess {
  import opened Bytes
  import opened DoorCommand

  /** unlockDoorAccess: fill a fresh 6-byte array with the short-access command for `moduleId`. */
  method UnlockDoorAccess(moduleId: Byte := DefaultModuleId) returns (command: array<Byte>)
    ensures fresh(command)
    ensures command[..] == Frame(moduleId, OpUnlockAccess)
  {
    command := new Byte[6];
    command[0] := moduleId;
    command[1] := 0x01;
    command[2] := 0x55;
    command[3] := 0xAA;
    command[4] := 0x0D;
    command[5] := 0x0A;
  }

  /** The default call addresses module 1. */
  lemma DefaultAccessCommand()
    ensures Frame(DefaultModuleId, OpUnlockAccess) == [0x01, 0x01, 0x55, 0xAA, 0x0D, 0x0A]
  {
  }

  /** Each access command reads back, field by field, as the module id and opcode 0x01. */
  lemma AccessCommandFields(moduleId: Byte)
    ensures IsFrameFor(Frame(moduleId, OpUnlockAccess), moduleId, 0x01)
  {
    FrameIff(Frame(moduleId, OpUnlockAccess), moduleId, OpUnlockAccess);
  }

  /** Distinct module ids give distinct access commands. */
  lemma AccessCommandsDistinct(m1: Byte, m2: Byte)
    requires m1 != m2
    ensures Frame(m1, OpUnlockAccess) != Frame(m2, OpUnlockAccess)
  {
    FrameInjective(m1, OpUnlockAccess, m2, OpUnlockAccess);
  }
}
