/** tests/sendDoorBad.py: the lock ("bad") command. */
module SendDoorBad {
  import opened Bytes
  import opened DoorCommand

  /** lockDoor: fill a fresh 6-byte array with the lock command for `moduleId`. */
  method LockDoor(moduleId: Byte := DefaultModuleId) returns (command: array<Byte>)
    ensures fresh(command)
    ensures command[..] == Frame(moduleId, OpLock)
  {
    command := new Byte[6];
    command[0] := moduleId;
    command[1] := 0x00;
    command[2] := 0x55;
    command[3] := 0xAA;
    command[4] := 0x0D;
    command[5] := 0x0A;
  }

  /** The default call addresses module 1. */
  lemma DefaultLockCommand()
    ensures Frame(DefaultModuleId, OpLock) == [0x01, 0x00, 0x55, 0xAA, 0x0D, 0x0A]
  {
  }

  /** Each lock command reads back as the module id and opcode 0x00. */
  lemma LockCommandFields(moduleId: Byte)
    ensures IsFrameFor(Frame(moduleId, OpLock), moduleId, 0x00)
  {
    FrameIff(Frame(moduleId, OpLock), moduleId, OpLock);
  }

  /** No lock command, for any module, equals any unlock command, for any module. */
  lemma LockNeverUnlocks(m1: Byte, m2: Byte)
    ensures Frame(m1, OpLock) != Frame(m2, OpUnlockAccess)
    ensures Frame(m1, OpLock) != Frame(m2, OpUnlockPersistent)
  {
    FrameInjective(m1, OpLock, m2, OpUnlockAccess);
    FrameInjective(m1, OpLock, m2, OpUnlockPersistent);
  }
}
