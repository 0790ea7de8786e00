/**
 * The Bluetooth stack, the GPIO driver and the UART seen as one abstract
 * transport: every call the firmware makes into them is appended to a log,
 * and the model's properties are statements about that log.
 */
module Transport {
  import opened Types
  import opened HidPrf

  /** The attribute tables the firmware hands to the stack. */
  datatype AttrTable =
    | BatteryTable
      /** The HID table, with the included-service range it points at when it is requested. */
    | HidTable(inclStart: uint16, inclEnd: uint16)

  /** Direction the keyboard column pins are configured in. */
  datatype PinMode = Output | Input

  datatype Call =
    | ConfigLocalIcon(appearance: uint16)
    | CreateAttrTab(table: AttrTable, gattIf: uint8, numAttrs: nat, instId: nat)
    | StartService(handle: uint16)
    | StopService(handle: uint16)
    | DeleteService(handle: uint16)
    | RegisterGattsCallback
    | AppRegister(appId: uint16)
    | AppUnregister(gattIf: uint8)
    | SetEncryptionNoMitm(bda: Bda)
    | SendIndicate(gattIf: uint8, connId: uint16, handle: uint16, value: seq<bv8>, needConfirm: bool)
    | SetAttrValue(handle: uint16, value: seq<bv8>)
    | GetAttrValue(handle: uint16)
      /** The profile invoking the application's event callback. */
    | AppCallback(event: HidEvent)
    | SetDeviceName(name: string)
    | ConfigAdvData
    | StartAdvertising
    | SecurityRsp(bda: Bda, accept: bool)
    | UartWrite(bytes: seq<uint8>)
    | ConfigColumns(mode: PinMode)

  /** The transport: only its log of calls is observable. */
  class Stack {
    ghost var log: seq<Call>

    constructor ()
      ensures log == []
    {
      log := [];
    }

    method Invoke(c: Call)
      modifies this
      ensures log == old(log) + [c]
    {
      log := log + [c];
    }

    /** `esp_ble_gatts_get_attr_value`: the value it returns is the stack's business. */
    method GetValue(handle: uint16) returns (value: seq<bv8>)
      modifies this
      ensures log == old(log) + [GetAttrValue(handle)]
    {
      log := log + [GetAttrValue(handle)];
      value := [];
    }
  }
}
