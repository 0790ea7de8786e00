/**
 * Usage codes and consumer-control report constants of the firmware's key
 * definition header: only the values the report builders and the input tasks use.
 */
module KeyDefs {
  import opened Types

  // Keyboard/keypad usage ids of the number-row keys 1..9 (USB HID usage table, page 0x07).
  const HID_KEY_1: bv8 := 30
  const HID_KEY_2: bv8 := 31
  const HID_KEY_3: bv8 := 32
  const HID_KEY_4: bv8 := 33
  const HID_KEY_5: bv8 := 34
  const HID_KEY_6: bv8 := 35
  const HID_KEY_7: bv8 := 36
  const HID_KEY_8: bv8 := 37
  const HID_KEY_9: bv8 := 38

  // Consumer-control commands understood by the consumer report builder.
  const HID_CONSUMER_POWER: bv8 := 48
  const HID_CONSUMER_ASSIGN_SEL: bv8 := 129
  const HID_CONSUMER_RECALL_LAST: bv8 := 131
  const HID_CONSUMER_CHANNEL_UP: bv8 := 156
  const HID_CONSUMER_CHANNEL_DOWN: bv8 := 157
  const HID_CONSUMER_PLAY: bv8 := 176
  const HID_CONSUMER_PAUSE: bv8 := 177
  const HID_CONSUMER_RECORD: bv8 := 178
  const HID_CONSUMER_FAST_FORWARD: bv8 := 179
  const HID_CONSUMER_REWIND: bv8 := 180
  const HID_CONSUMER_SCAN_NEXT_TRK: bv8 := 181
  const HID_CONSUMER_SCAN_PREV_TRK: bv8 := 182
  const HID_CONSUMER_STOP: bv8 := 183
  const HID_CONSUMER_MUTE: bv8 := 226
  const HID_CONSUMER_VOLUME_UP: bv8 := 233
  const HID_CONSUMER_VOLUME_DOWN: bv8 := 234

  // Values placed in the button nibble of the 2-byte consumer report.
  const HID_CC_RPT_MUTE: bv8 := 1
  const HID_CC_RPT_POWER: bv8 := 2
  const HID_CC_RPT_LAST: bv8 := 3
  const HID_CC_RPT_ASSIGN_SEL: bv8 := 4
  const HID_CC_RPT_PLAY: bv8 := 5
  const HID_CC_RPT_PAUSE: bv8 := 6
  const HID_CC_RPT_RECORD: bv8 := 7
  const HID_CC_RPT_FAST_FWD: bv8 := 8
  const HID_CC_RPT_REWIND: bv8 := 9
  const HID_CC_RPT_SCAN_NEXT_TRK: bv8 := 10
  const HID_CC_RPT_SCAN_PREV_TRK: bv8 := 11
  const HID_CC_RPT_STOP: bv8 := 12

  // Values of the 2-bit channel field.
  const HID_CC_RPT_CHANNEL_UP: bv8 := 0x01
  const HID_CC_RPT_CHANNEL_DOWN: bv8 := 0x03

  // Masks that keep everything but one field of a consumer report byte.
  const HID_CC_RPT_NUMERIC_BITS: bv8 := 0xF0
  const HID_CC_RPT_CHANNEL_BITS: bv8 := 0xCF
  const HID_CC_RPT_VOLUME_BITS: bv8 := 0x3F
  const HID_CC_RPT_BUTTON_BITS: bv8 := 0xF0
  const HID_CC_RPT_SELECTION_BITS: bv8 := 0xCF

  /** Protocol mode the firmware starts in (`hidProtocolMode`'s initialiser). */
  const INITIAL_PROTOCOL_MODE: uint8 := 1
}
