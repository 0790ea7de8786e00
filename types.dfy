/** Machine-width integers and the optional value shared by the whole model. */
module Types {

  /** C `uint8_t` values used as numbers (ids, types, modes, GATT interfaces). */
  type uint8 = x: int | 0 <= x < 0x100

  /** C `uint16_t` values (attribute handles, connection ids, encoder counts). */
  type uint16 = x: int | 0 <= x < 0x1_0000

  /** A Bluetooth device address (`esp_bd_addr_t`, 6 bytes). */
  type Bda = s: seq<bv8> | |s| == 6 witness [0, 0, 0, 0, 0, 0]

  datatype Option<+T> = None | Some(value: T)

  /** Assignment of a wider value to a `uint16_t` lvalue: keeps the low 16 bits. */
  function ToUint16(x: int): (r: uint16)
    requires x >= 0
    ensures x < 0x1_0000 ==> r == x
    ensures 0x1_0000 <= x < 0x2_0000 ==> r == x - 0x1_0000
  {
    x % 0x1_0000
  }

  /** Assignment of a non-negative `int` to a `uint8_t` lvalue: keeps the low 8 bits. */
  function ToUint8(x: int): (r: uint8)
    requires x >= 0
    ensures x < 0x100 ==> r == x
    ensures 0x100 <= x < 0x200 ==> r == x - 0x100
  {
    x % 0x100
  }

  /** Storing an `int8_t` into a `uint8_t` buffer slot: two's complement. */
  function Int8ToByte(x: int): (b: bv8)
    requires -128 <= x < 128
  {
    if x >= 0 then x as bv8 else (x + 256) as bv8
  }
}
