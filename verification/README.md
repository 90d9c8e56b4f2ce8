# mms-access: door commands and card-reader buffer

A Dafny model of the two pieces of sequential logic in the TinkerMill mms-access prototype.

- **Door commands** (`tests/sendDoorAccess.py`, `tests/sendDoorUnlock.py`, `tests/sendDoorBad.py`).
  Each builder fills a fresh 6-byte array with `[moduleId, opcode, 0x55, 0xAA, 0x0D, 0x0A]`.
  The opcodes are 0x01 (short door access), 0x02 (persistent unlock) and 0x00 (lock, the "bad" command).
  Bytes 2 and 3 are constant checksum placeholders. The module `DoorCommand` holds the frame as a pure
  sequence (`Frame`). Each builder is a method that writes an `array<Byte>` index by index, proved equal to
  that sequence. Lemmas read the frame back field by field and show how the three commands differ.
- **Card-reader buffer** (`raspi/testServer.py`). The module globals become the class `TestServer.Server`
  with the field `bufferArray: seq<Byte>`. `HandleData` appends a non-empty read and runs the packet check.
  `CheckPacketPass` tests the loop guard (more than 15 items) and runs one pass of the loop body.
  That pass finds the first line feed (`IndexOf`, Python's `list.index`, which can fail) and reads the
  card value from items 2..11 (`Slice`, Python's clamping slice). `CheckCard` rejects every value.
  `CheckPacketPass` has no `modifies` clause, so the verifier holds it to leaving `bufferArray` unchanged:
  the line that would remove the card read is commented out in the source.
  The loop guard therefore still holds after a pass.
- **Sample frames** (`SampleFrames`): the two 16-byte reader frames recorded in `tests/fakeGateway.py`.
  Each is STX, twelve hex characters, CR, LF, ETX. The lemmas show that each crosses the threshold
  only on its last byte, where its line feed is, and which card value it yields.

Bytes are the subset type `Byte` of `int` (0..255). A serial read is an `Option<Byte>`: `None` is the
empty read that the non-blocking port returns when no byte is waiting.

The source's comments describe behaviour the code does not have; the model follows the code:

- `raspi/testServer.py:45` says the card read is removed from the buffer, but the removal at `:46` is
  commented out, so the buffer is never shrunk;
- `raspi/testServer.py:53` says a card in the list is accepted, but `check_card` returns false for every
  value; `raspi/testServer.py:72` mentions a card list in the configuration, but no code reads it;
- nothing in `raspi/testServer.py` calls `check_card`, and the server never builds or sends a door command;
  the sample-frame lemmas apply `CheckCard` to the window only to show what the stub would answer;
- a Python slice never fails, and under the length guard the `[2:12]` window is always complete.
  The only extraction failure is a buffer with no line feed;
- the `try` at `raspi/testServer.py:38` has its `except` commented out, so the file does not parse
  as written. The model takes the evident body: a missing line feed ends the pass with `MissingLineFeed`,
  after the buffer length has been reported.

## Model

| member | source | states |
|---|---|---|
| `DoorCommand.Frame` | tests/sendDoorAccess.py:19-25 | the command is the six bytes module id, opcode, 0x55, 0xAA, CR, LF, read field by field |
| `DoorCommand.FrameIff` | tests/sendDoorAccess.py:19-25 | a sequence is the command frame for a module id and opcode exactly when it is 6 bytes with the id at 0, the opcode at 1, then 0x55, 0xAA, CR, LF |
| `DoorCommand.FrameInjective` | tests/sendDoorAccess.py:20-21 | two command frames are equal exactly when their module ids and their opcodes are equal |
| `DoorCommand.FramesDifferOnlyAtOpcode` | tests/sendDoorUnlock.py:20-25 | for one module id, frames with different opcodes differ at byte 1 and agree at every other byte |
| `SendDoorAccess.UnlockDoorAccess` | tests/sendDoorAccess.py:17-26 | returns a fresh 6-byte array holding the frame for `moduleId` with opcode 0x01; `moduleId` defaults to 1 and is a byte |
| `SendDoorAccess.DefaultAccessCommand` | tests/sendDoorAccess.py:17-25 | the default call yields `01 01 55 AA 0D 0A` |
| `SendDoorAccess.AccessCommandFields` | tests/sendDoorAccess.py:19-25 | the access command is 6 bytes: module id, 0x01, 0x55, 0xAA, CR, LF |
| `SendDoorAccess.AccessCommandsDistinct` | tests/sendDoorAccess.py:20 | distinct module ids give distinct access commands |
| `SendDoorUnlock.UnlockDoorPersistent` | tests/sendDoorUnlock.py:17-26 | returns a fresh 6-byte array holding the frame for `moduleId` with opcode 0x02; `moduleId` defaults to 1 |
| `SendDoorUnlock.DefaultPersistentCommand` | tests/sendDoorUnlock.py:17-25 | the default call yields `01 02 55 AA 0D 0A` |
| `SendDoorUnlock.PersistentCommandFields` | tests/sendDoorUnlock.py:19-25 | the persistent-unlock command is 6 bytes: module id, 0x02, 0x55, 0xAA, CR, LF |
| `SendDoorUnlock.PersistentVersusAccess` | tests/sendDoorUnlock.py:21 | for the same module id, the persistent unlock differs from the short access command at byte 1 only |
| `SendDoorBad.LockDoor` | tests/sendDoorBad.py:17-26 | returns a fresh 6-byte array holding the frame for `moduleId` with opcode 0x00; `moduleId` defaults to 1 |
| `SendDoorBad.DefaultLockCommand` | tests/sendDoorBad.py:17-25 | the default call yields `01 00 55 AA 0D 0A` |
| `SendDoorBad.LockCommandFields` | tests/sendDoorBad.py:19-25 | the lock command is 6 bytes: module id, 0x00, 0x55, 0xAA, CR, LF |
| `SendDoorBad.LockNeverUnlocks` | tests/sendDoorBad.py:21 | no lock command, for any module id, equals any access or persistent-unlock command, for any module id |
| `TestServer.PacketCheckFires` | raspi/testServer.py:34 | the loop guard: more than 15 items; whenever it holds, the buffer reaches past item 11, so the value window fits |
| `TestServer.IndexOf` | raspi/testServer.py:40 | `list.index`: the result is a position holding the item with no earlier occurrence; it fails exactly when the item is absent |
| `TestServer.IndexOfFirst` | raspi/testServer.py:40 | a position holding the item with no earlier occurrence is the one `list.index` returns |
| `TestServer.Slice` | raspi/testServer.py:44 | a Python slice: an upper bound past the end is clamped to the length, an empty result when the lower bound passes it, and item k is item `lo + k` of the list |
| `TestServer.PacketPass` | raspi/testServer.py:38-44 | one loop pass always reports the buffer length; it fails exactly when the buffer has no LF; otherwise it reports the position of the first LF as the packet length and the `[2:12]` slice as the value |
| `TestServer.ValueWindowExact` | raspi/testServer.py:34-44 | under the more-than-15 guard the value window is exactly 10 items, items 2..11 in arrival order |
| `TestServer.PacketLengthIsFirstLineFeed` | raspi/testServer.py:39-43 | when an LF is present the pass succeeds and the printed length `endIndex - startIndex` is the first LF position |
| `TestServer.CheckCard` | raspi/testServer.py:50-54 | every card value is rejected |
| `TestServer.Server.constructor` | raspi/testServer.py:19 | the buffer starts empty |
| `TestServer.Server.CheckPacketPass` | raspi/testServer.py:34-48 | no pass runs while the buffer holds 15 or fewer items; otherwise the result is one loop pass, and the buffer is left unchanged |
| `TestServer.Server.HandleData` | raspi/testServer.py:24-29 | an empty read leaves the buffer as it was; a non-empty read is appended at the end; a pass runs exactly when the read was non-empty and the buffer now exceeds 15 items |
| `SampleFrames.ValuesAsText` | tests/fakeGateway.py:40-43 | the two expected card values are the text `A0049F63EE` and `A0049DFB84` |
| `SampleFrames.FirstFrameFiresOnLastByte` | tests/fakeGateway.py:40 | the recorded frame is 16 bytes; none of its proper prefixes fires the check, the whole frame does |
| `SampleFrames.SecondFrameFiresOnLastByte` | tests/fakeGateway.py:43 | the second recorded frame is 16 bytes; none of its proper prefixes fires the check, the whole frame does |
| `SampleFrames.FirstFrameValue` | tests/fakeGateway.py:40 | the pass on the first frame finds the LF at 14 and the value `A0049F63EE`, which the `check_card` stub would reject |
| `SampleFrames.SecondFrameValue` | tests/fakeGateway.py:43 | the pass on the second frame finds the LF at 14 and the value `A0049DFB84`, which the `check_card` stub would reject |

## Left out

- TestServer.Server.HandleData: returns after the first pass of `check_packet`. In the source, once the guard holds, the loop never ends, because nothing shrinks the buffer. The model states the one pass and that it keeps the guard true; it does not model the hang.
- `read_from_port` and `main` in `raspi/testServer.py`: the serial read loop, the reader thread, the shared `exitFlag`, `time.sleep` and the keyboard-interrupt handling are concurrency and I/O.
- YAML configuration loading, `serial.Serial` construction and every `write` to the port: foreign library calls. The `main` functions of the three command senders only write the command and print.
- Printed output and diagnostics. The values a pass prints are kept as the fields of its result: the buffer length in both outcomes, the packet length and value when an LF is found.
- Reads longer than one byte. `ser.read()` returns at most one character, so each buffer item is one byte.
- A module id outside 0..255, where Python's `chr` raises: the parameter has the type `Byte`.
- Python 2 distinctions between `str`, `chr` and `bytearray` elements: every byte is an integer in 0..255.
- `tests/fakeGateway.py` as code. Its `main` only reads the port. Its recorded frames are used as sample data.
