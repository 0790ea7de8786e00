/**
 * The firmware's shared header logic: the 5-byte inter-MCU frame, the
 * handler for commands arriving from the other MCU, the keyboard mode
 * globals, and the scan of the 3x3 key matrix plus the rotary switch.
 */
module MainH {
  import opened Types
  import opened Transport

  const PATTERN_CHR_NUM: nat := 2
  const DATA_LENGTH: nat := 3
  const PAYLOAD_LENGTH: nat := PATTERN_CHR_NUM + DATA_LENGTH
  /** The pattern byte `'+'` that opens every frame, twice. */
  const PATTERN_CHR: uint8 := 0x2B

  const HOST_USB_CONN: uint8 := 0x01
  const HOST_USB_DISCONN: uint8 := 0x02
  const TEST_MESSAGE: uint8 := 0x03
  const ACK_REQ: uint8 := 0x04
  const KB_MODE: uint8 := 0x05
  const BATT_UPDATE: uint8 := 0x06
  const ROT_SW_UPDATE: uint8 := 0x07
  const ROT_POS_POSITIVE: uint8 := 0x08
  const ROT_POS_NEGATIVE: uint8 := 0x09
  const IMCU_ACK: uint8 := 0xFF

  const VOL_UP: int := 1
  const VOL_DOWN: int := -1
  const VOL_NONE: int := 0
  const KB_USB: int := 1
  const KB_BT: int := 0

  /** A frame to the other MCU: the pattern twice, the command, its data byte, a zero byte. */
  function Frame(command: uint8, data: uint8): (r: seq<uint8>)
    ensures |r| == PAYLOAD_LENGTH
  {
    [PATTERN_CHR, PATTERN_CHR, command, data, 0]
  }

  /** The receiving side of the frame format: command and data of a well-formed frame. */
  function ParseFrame(bytes: seq<uint8>): Option<(uint8, uint8)> {
    if |bytes| == PAYLOAD_LENGTH && bytes[0] == PATTERN_CHR && bytes[1] == PATTERN_CHR && bytes[4] == 0
    then Some((bytes[2], bytes[3]))
    else None
  }

  /** Every frame parses back to its command and data, and distinct frames stay distinct. */
  lemma FrameRoundTrip(command: uint8, data: uint8, command': uint8, data': uint8)
    ensures ParseFrame(Frame(command, data)) == Some((command, data))
    ensures Frame(command, data) == Frame(command', data') ==> command == command' && data == data'
  {
    assert Frame(command, data)[2] == command && Frame(command, data)[3] == data;
  }

  /** `txInterMcu`: fills the frame buffer and writes its 5 bytes to the UART. */
  method TxInterMcu(t: Stack, command: uint8, data: uint8)
    modifies t
    ensures t.log == old(t.log) + [UartWrite(Frame(command, data))]
  {
    var commandBuffer := new uint8[PAYLOAD_LENGTH](_ => 0);
    commandBuffer[0], commandBuffer[1] := PATTERN_CHR, PATTERN_CHR;
    commandBuffer[PATTERN_CHR_NUM] := command;
    commandBuffer[PATTERN_CHR_NUM + 1] := data;
    assert commandBuffer[..] == Frame(command, data);
    t.Invoke(UartWrite(commandBuffer[..]));
  }

  /** The keyboard mode globals: the mode the other MCU asked for and the mode in force. */
  class Modes {
    var keyboardMode: int
    var currentKbMode: int

    /** Both modes are Bluetooth or USB. */
    ghost predicate Valid()
      reads this
    {
      keyboardMode in {KB_BT, KB_USB} && currentKbMode in {KB_BT, KB_USB}
    }

    constructor ()
      ensures Valid() && keyboardMode == KB_BT && currentKbMode == KB_BT
    {
      keyboardMode, currentKbMode := KB_BT, KB_BT;
    }
  }

  /**
   * `handleComms`: an acknowledgement request is answered with one
   * acknowledgement frame; a keyboard-mode command with data 0 or 1 sets the
   * requested mode; every other command, and any other data, changes nothing.
   */
  method HandleComms(modes: Modes, t: Stack, cmdBuffer: seq<uint8>)
    requires |cmdBuffer| >= 2
    modifies modes, t
    ensures modes.currentKbMode == old(modes.currentKbMode)
    ensures modes.keyboardMode ==
      (if cmdBuffer[0] == KB_MODE && cmdBuffer[1] <= 1 then cmdBuffer[1]
       else old(modes.keyboardMode))
    ensures old(modes.Valid()) ==> modes.Valid()
    ensures t.log == old(t.log) + (if cmdBuffer[0] == ACK_REQ then [UartWrite(Frame(IMCU_ACK, 0))] else [])
  {
    var command := cmdBuffer[0];
    if command == ACK_REQ {
      TxInterMcu(t, IMCU_ACK, 0);
    } else if command == HOST_USB_CONN {
    } else if command == HOST_USB_DISCONN {
    } else if command == KB_MODE {
      if cmdBuffer[1] <= 1 {
        modes.keyboardMode := cmdBuffer[1];
      }
    } else if command == TEST_MESSAGE {
    }
  }

  /** Levels of the three row inputs while one column is driven high. */
  datatype Rows = Rows(row0: bool, row1: bool, row2: bool)

  /** What the scan reads: the rows under each driven column, then the rotary switch. */
  datatype PinLevels = PinLevels(col0: Rows, col1: Rows, col2: Rows, rotSw: bool)

  /**
   * The button word of a scan: column 0 gives bits 1, 2 and 2 (its third key
   * shares bit 2 with its second), column 1 bits 4-6, column 2 bits 7-9, and
   * the rotary switch bit 10. Bits 0, 3 and 11-15 are never set.
   */
  function ButtonStatus(p: PinLevels): (w: bv16)
    ensures w & 0xF809 == 0
    ensures (w & 0x0002 != 0) == p.col0.row0
    ensures (w & 0x0004 != 0) == (p.col0.row1 || p.col0.row2)
    ensures (w & 0x0010 != 0) == p.col1.row0
    ensures (w & 0x0020 != 0) == p.col1.row1
    ensures (w & 0x0040 != 0) == p.col1.row2
    ensures (w & 0x0080 != 0) == p.col2.row0
    ensures (w & 0x0100 != 0) == p.col2.row1
    ensures (w & 0x0200 != 0) == p.col2.row2
    ensures (w & 0x0400 != 0) == p.rotSw
  {
    (if p.col0.row0 then 0x0002 else 0) |
    (if p.col0.row1 || p.col0.row2 then 0x0004 else 0) |
    (if p.col1.row0 then 0x0010 else 0) |
    (if p.col1.row1 then 0x0020 else 0) |
    (if p.col1.row2 then 0x0040 else 0) |
    (if p.col2.row0 then 0x0080 else 0) |
    (if p.col2.row1 then 0x0100 else 0) |
    (if p.col2.row2 then 0x0200 else 0) |
    (if p.rotSw then 0x0400 else 0)
  }

  /** `scanButtons`: drives each column in turn and ORs in the bit of every row that reads high. */
  method ScanButtons(p: PinLevels) returns (status: bv16)
    ensures status == ButtonStatus(p)
  {
    status := 0;
    if p.col0.row0 { status := status | (1 << 1); }
    if p.col0.row1 { status := status | (1 << 2); }
    if p.col0.row2 { status := status | (1 << 2); }

    if p.col1.row0 { status := status | (1 << 4); }
    if p.col1.row1 { status := status | (1 << 5); }
    if p.col1.row2 { status := status | (1 << 6); }

    if p.col2.row0 { status := status | (1 << 7); }
    if p.col2.row1 { status := status | (1 << 8); }
    if p.col2.row2 { status := status | (1 << 9); }

    if p.rotSw { status := status | (1 << 10); }
  }
}
