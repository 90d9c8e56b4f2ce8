/** tests/sendDoorUnlock.py: the "unlock door persistently" command. */
module SendDoorUnlock {
  import opened Bytes
  import opened DoorCommand

  /** unlockDoorPesistent: fill a fresh 6-byte array with the persistent-unlock command for `moduleId`. */
  method UnlockDoorPersistent(moduleId: Byte := DefaultModuleId) returns (command: array<Byte>)
    ensures fresh(command)
    ensures command[..] == Frame(moduleId, OpUnlockPersistent)
  {
    command := new Byte[6];
    command[0] := moduleId;
    command[1] := 0x02;
    command[2] := 0x55;
    command[3] := 0xAA;
    command[4] := 0x0D;
    command[5] := 0x0A;
  }

  /** The default call addresses module 1. */
  lemma DefaultPersistentCommand()
    ensures Frame(DefaultModuleId, OpUnlockPersistent) == [0x01, 0x02, 0x55, 0xAA, 0x0D, 0x0A]
  {
  }

  /** Each persistent-unlock command reads back as the module id and opcode 0x02. */
  lemma PersistentCommandFields(moduleId: Byte)
    ensures IsFrameFor(Frame(moduleId, OpUnlockPersistent), moduleId, 0x02)
  {
    FrameIff(Frame(moduleId, OpUnlockPersistent), moduleId, OpUnlockPersistent);
  }

  /** For one module, the persistent unlock and the short access command differ at byte 1 only. */
  lemma PersistentVersusAccess(moduleId: Byte)
    ensures forall i :: 0 <= i < FrameLength ==>
      (Frame(moduleId, OpUnlockPersistent)[i] != Frame(moduleId, OpUnlockAccess)[i] <==> i == 1)
  {
    FramesDifferOnlyAtOpcode(moduleId, OpUnlockPersistent, OpUnlockAccess);
  }
}
