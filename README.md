# esp-macropad: BLE HID layer and task logic in Dafny

This project models the firmware of the esp-macropad, an ESP32 macro keypad with nine keys and a rotary encoder. The keypad talks to a host as a Bluetooth LE HID keyboard and consumer-control device. It also talks to a companion microcontroller, which takes over the key matrix in USB mode. The model covers:

- **HidPrf** (`hidd_le_prf_int.dfy`):
  - the attribute index enum of the HID service;
  - the report-length, protocol-mode and report-type constants;
  - the report-mapping and connection-link records;
  - the service engine (`hid_engine`) as a class;
  - the consumer-control read-modify-write macros as methods on a 2-byte array.
- **KeyDefs** (`hid_keydefinition.dfy`): the key and consumer usage constants the builders need.
- **HidDev** (`hid_dev.dfy`):
  - the report registry, with its protocol-mode-scoped lookup;
  - `hid_dev_send_report`;
  - the consumer, keyboard and mouse report builders and senders;
  - profile init and deinit.
- **BleProfile** (`ble_profile.dfy`):
  - the GATT server callback: registration, two-phase battery-then-HID table creation, report-map population, and connect and disconnect with the one-slot connection table;
  - the interface-filtered event dispatcher;
  - the attribute get/set handle guard;
  - callback registration.
- **BtConfig** (`btconfig.dfy`): the HID and GAP event handlers, as a state machine over `hid_conn_id` and `sec_conn`.
- **MainH** (`main_h.dfy`):
  - the 5-byte inter-MCU frame;
  - `handleComms`;
  - `scanButtons` as a function of the pin levels.
- **MainTasks** (`main_tasks.dfy`): one iteration each of `encoder_task`, `keyboard_task` and `kbmode_task`. This covers the volume press/release machine, key collection and the 6-key clamp, and edge-triggered mute.
- **Transport** (`transport.dfy`): every call into the BLE stack, the GPIO driver or the UART goes through a `Stack` object. It only appends the call to a ghost log. Properties are stated as "which calls were made, in which order, with which arguments".

The stateful code takes the form of classes that methods update in place: the engine, the registry, the profile statics, the link flags, and the keyboard modes. Each method is proved against a pure specification function. The GATT callback is specified by `BleProfile.OnGattsEvent`, which acts on a snapshot of all the state it touches. The volume and mute machines are specified by `MainTasks.VolumeTransition` and `MainTasks.MuteEdge`. Lemmas about these functions state the longer-range properties: bring-up order, link lifecycle, the press/release bracketing the host sees, and the `sec_conn` history.

Quirks of the code are modelled as written:
- deallocation always clears slot 0;
- the mouse report's CCCD handle is its value handle;
- 9 report entries are registered but 8 are filled;
- a failed pairing still sets `sec_conn`;
- the COL0/ROW2 key sets bit 2, so key 3 is never reported;
- a failed table creation still starts `handles[0]`.

The HID attribute table has 37 entries (`HIDD_LE_IDX_NB`, main/hidd_le_prf_int.h:126-165).

## Model

| member | source | states |
|---|---|---|
| Types.ToUint16 | main/ble_profile.c:322 | Storing into a `uint16_t` keeps every value below 2^16 unchanged and wraps a value in 2^16..2^17-1 down by 2^16 (the included-service end handle). |
| Types.ToUint8 | main/main.c:55 | Storing into a `uint8_t` keeps every value below 256 unchanged and wraps a value in 256..511 down by 256 (the counter difference). |
| HidPrf.OrdinalBijection | main/hidd_le_prf_int.h:126-165 | The attribute enum is injective: every index maps back to itself through its position. |
| HidPrf.OrdinalOnto | main/hidd_le_prf_int.h:126-165 | Every position 0..36 is the position of exactly the index that `AttrAt` gives, so the enum covers 0..`HIDD_LE_IDX_NB`-1 = 36 with no gap. |
| HidPrf.Engine.Reset | main/ble_profile.c:346-349 | Zeroing the engine clears its interface, the enabled and callback flags, every attribute handle and the connection slot, in place. |
| HidPrf.SetSelection | main/hidd_le_prf_int.h:104-106 | Bits 4-5 of `s[1]` become `x & 3`; the other bits of `s[1]` and every other byte are kept. |
| HidPrf.SetButton | main/hidd_le_prf_int.h:107-109 | The low nibble of `s[1]` becomes that of `x` and `x`'s high bits are OR-ed in. For `x <= 15` the low nibble is `x` and the high nibble is kept. `s[0]` is untouched. |
| HidPrf.SetNumeric | main/hidd_le_prf_int.h:110-112 | `s[0] == x` whatever it held; `s[1]` is untouched. |
| HidPrf.SetChannel | main/hidd_le_prf_int.h:113-115 | Bits 4-5 of `s[0]` become `x & 3`; the other bits and `s[1]` are kept. |
| HidPrf.SetVolumeUp | main/hidd_le_prf_int.h:116-118 | Bits 6-7 of `s[0]` become 01 (0x40); bits 0-5 and `s[1]` are kept. |
| HidPrf.SetVolumeDown | main/hidd_le_prf_int.h:119-121 | Bits 6-7 of `s[0]` become 10 (0x80); bits 0-5 and `s[1]` are kept. |
| HidPrf.ReportLengths | main/hidd_le_prf_int.h:67-92 | Keyboard report 8 bytes (room for 6 keys), mouse 5, consumer 2; Boot mode 0, Report mode 1. |
| HidDev.FirstMatch | main/hid_dev.c:31-41 | The index found is the first entry matching id, type and mode; none is found exactly when no entry matches. |
| HidDev.Registry.Lookup | main/hid_dev.c:31-41 | The lookup scoped by the current protocol mode returns the first matching registered entry, and nothing exactly when none matches. |
| HidDev.Registry.GetReportById | main/hid_dev.c:31-41 | The pointer-walking scan over the registered table returns the lookup's entry. |
| HidDev.Registry.RegisterReports | main/hid_dev.c:43-47 | The table and its length are replaced outright: the entries afterwards are exactly the first `num_reports` of the new array, aliased. |
| HidDev.Registry.SetProtocolMode | main/hid_keydefinition.h:309 | The protocol-mode global becomes the written value; the table is kept. |
| HidDev.SendReport | main/hid_dev.c:49-61 | Exactly one notification, with the matched entry's handle, the length and the data, when the lookup succeeds; no transport call otherwise. |
| HidDev.CcActionOf | main/hid_dev.c:63-134 | Definition: the command table of the builder. Channel up/down set the channel field to 1/3, volume up/down set the volume bits, mute through stop set the button field to their usage codes, and every other command sets nothing. |
| HidDev.ConsumerPayload | main/hid_dev.c:136-143 | The 2-byte consumer report is the effect of the command's action on `[0, 0]` when pressed, and `[0, 0]` on release. |
| HidDev.ConsumerPayloadValues | main/hid_dev.c:63-143 | Release gives `[0,0]`. Volume up gives `[0x40,0]`, volume down `[0x80,0]`, mute `[0,0x01]`, channel up `[0x10,0]` and channel down `[0x30,0]`. An unlisted command gives `[0,0]`. |
| HidDev.CcEffectFromZero | main/hid_dev.c:63-143 | A buffer built from zero is determined by the command: any result with the command's effect is the consumer payload. |
| HidDev.BuildConsumerReport | main/hid_dev.c:63-134 | A non-null buffer is changed by exactly the macro the command selects, applied to its old contents; a null buffer or an unlisted command changes nothing. |
| HidDev.BuildButtonReport | main/hid_dev.c:82-131 | The button-style commands (mute through stop) set the button field of `s[1]` to their usage code; others leave the buffer as it was. |
| HidDev.SendConsumerValue | main/hid_dev.c:136-143 | One send of the consumer payload (zeros on release) as report id 3, Input. |
| HidDev.KeyboardPayload | main/hid_dev.c:151-157 | The 8-byte layout: modifier mask, reserved 0, the keys in order, then zeros. |
| HidDev.FillKeyboardReport | main/hid_dev.c:151-157 | Filling a zeroed buffer with the mask and the key copy loop leaves exactly the keyboard payload. |
| HidDev.SendKeyboardValue | main/hid_dev.c:145-164 | More than 6 keys send nothing; otherwise one send of the keyboard payload as report id 2, Input. |
| HidDev.MousePayload | main/hid_dev.c:189-196 | Definition: the 5-byte mouse report `[button, x, y, 0, 0]`, the moves stored in two's complement. |
| HidDev.SendMouseValue | main/hid_dev.c:189-200 | One send of `[button, x, y, 0, 0]` (5 bytes, signed moves in two's complement) as report id 1, Input. |
| HidDev.ProfileInit | main/hid_dev.c:166-172 | A no-op when enabled; otherwise the engine is zeroed and then enabled. |
| HidDev.ProfileDeinit | main/hid_dev.c:174-186 | Stop, delete, then unregister when enabled with a non-zero service handle; no transport call otherwise. |
| BleProfile.ReportMap | main/ble_profile.c:438-500 | Definition: the 9-entry map `hid_add_id_tbl` leaves. Entries 0-7 are mouse-in, key-in, consumer-in, LED-out, boot keyboard in and out, boot mouse in and feature, each with its report-reference id and type, the value handle of its characteristic, its CCCD handle (the value handle for the mouse, 0 for the last five) and its mode. Entry 8 is all zeros. |
| BleProfile.ReportModeLookups | main/ble_profile.c:438-500 | In Report mode, mouse-in, key-in, consumer-in, LED-out and feature resolve to the value handles of their own characteristics. |
| BleProfile.BootModeLookups | main/ble_profile.c:467-490 | In Boot mode, key-in resolves to the boot keyboard input value, LED-out to the boot keyboard output value and mouse-in to the boot mouse input value. Consumer-in resolves to nothing. |
| BleProfile.ReportMapKeys | main/ble_profile.c:438-500 | The 8 filled entries have pairwise different (id, type, mode) keys, so each request has one candidate. The 9th registered entry is all zeros. The mouse CCCD handle equals its value handle. |
| BleProfile.FirstFree | main/ble_profile.c:355-356 | The slot found is the first not in use; none is found exactly when all are in use. |
| BleProfile.AllocLinks | main/ble_profile.c:351-365 | The first free slot becomes in use and connected, with the connection id and address. Other slots are kept. A full table is unchanged. |
| BleProfile.RegStep | main/ble_profile.c:264-285 | Definition: registration sets the appearance. The HID app stores its interface and, with a callback, fires REG_FINISH then requests the battery table. The battery app, with a callback, fires the battery event. |
| BleProfile.ConnectStep | main/ble_profile.c:291-304 | Definition: connect allocates a link, requests no-MITM encryption, then tells the app when a callback is installed. |
| BleProfile.DisconnectStep | main/ble_profile.c:305-311 | Definition: disconnect tells the app when a callback is installed, then clears slot 0. |
| BleProfile.AttrTabStep | main/ble_profile.c:317-339 | Definition: an OK 5-entry battery table records the included range and requests the HID table. An OK 37-entry table is copied, mapped and registered and the HID service started. Otherwise `handles[0]` is started. |
| BleProfile.OnGattsEvent | main/ble_profile.c:262-344 | Every event keeps the state well formed (37 attribute handles, one link slot, 9-entry map); the lemmas below state its call sequences. |
| BleProfile.IgnoredEvents | main/ble_profile.c:286-290 | Configure, create, close, write and unlisted events change nothing and make no call. |
| BleProfile.SingleLinkLifecycle | main/ble_profile.c:291-311 | Connect fills the one slot. A second connect is dropped. Disconnect frees the slot whatever its id. The next connect fills it again. |
| BleProfile.BringUp | main/ble_profile.c:264-337 | Registering the battery app and then the HID app requests the battery table. Its creation records the included range `[h0, h0+4]`, requests the 37-entry HID table and starts the battery service. The HID table's creation copies the handles, registers the map and starts the HID service. |
| BleProfile.FailedTableStillStarted | main/ble_profile.c:317-337 | A table whose creation failed leaves the state unchanged and still starts `handles[0]`. |
| BleProfile.OneStartPerTableEvent | main/ble_profile.c:330-337 | Every table-created event makes exactly one start-service call, as its last call: `att_tbl[SVC]` for an OK 37-entry table, `handles[0]` otherwise. |
| BleProfile.HidTableOnlyFromBattery | main/ble_profile.c:318-328 | Of all events, the HID table is requested exactly by the OK 5-entry battery-service table event, with the included range `handles[0]` to `handles[0]+4`, 37 entries, on the event's interface. |
| BleProfile.BatteryTableOnlyFromHidReg | main/ble_profile.c:269-275 | Of all events, the battery table is requested exactly by the HID app's registration with a callback installed. |
| BleProfile.RegWithoutCallback | main/ble_profile.c:264-282 | Without a callback a registration only sets the appearance: no REG_FINISH and no table request. The HID app's interface is still stored and nothing else changes. |
| BleProfile.IncludedRange | main/ble_profile.c:318-322 | The included range starts at the battery service handle and ends 4 later, wrapping past 0xFFFF (start+4-0x10000 from 0xFFFC up). |
| BleProfile.HiddLeInit | main/ble_profile.c:346-349 | The engine is zeroed in place. |
| BleProfile.ClcbAlloc | main/ble_profile.c:351-365 | The slot loop leaves exactly `AllocLinks` of the old slots. |
| BleProfile.ClcbDealloc | main/ble_profile.c:367-377 | Slot 0 is cleared whatever the connection id, and the result is true. |
| BleProfile.AddIdTbl | main/ble_profile.c:438-500 | The map array becomes the report map of the engine's handles and is registered, aliased, with count 9; the protocol mode is kept. |
| BleProfile.FillReportModeEntries | main/ble_profile.c:439-465 | Entries 0-3 become the Report-mode entries of the map; the rest are kept. |
| BleProfile.FillBootModeEntries | main/ble_profile.c:467-489 | Entries 4-7 become the Boot-mode entries; the rest are kept. |
| BleProfile.OnRegister | main/ble_profile.c:264-285 | The engine and the calls are those of the registration step. For the HID app this stores the interface, and only with a callback fires REG_FINISH and then requests the 5-entry battery table. For the battery app it fires the battery event. |
| BleProfile.OnConnect | main/ble_profile.c:291-304 | The slot is allocated, then no-MITM encryption is requested, then the app is told. |
| BleProfile.OnDisconnect | main/ble_profile.c:305-311 | The app is told, then slot 0 is cleared. |
| BleProfile.InstallHidTable | main/ble_profile.c:330-334 | The handles are copied into the attribute table, the report map is populated and registered, then the HID service is started. |
| BleProfile.OnAttrTabCreated | main/ble_profile.c:317-339 | The table-created step. A 5-entry OK battery table records the included range and requests the HID table. A 37-entry OK table is installed and its service started. Otherwise `handles[0]` is started. |
| BleProfile.HidGattsCallback | main/ble_profile.c:262-344 | The state and the calls of every event are those of `OnGattsEvent`; no other state changes. |
| BleProfile.Forwarded | main/ble_profile.c:391-411 | Definition: a failed registration is not handed on. Otherwise the event is handed on when addressed to NONE or to the interface stored, which a successful registration has just overwritten. |
| BleProfile.DispatchRules | main/ble_profile.c:388-413 | A successful registration is always forwarded, a failed one never. Other events are forwarded exactly when addressed to NONE or the stored interface. |
| BleProfile.GattsEventHandler | main/ble_profile.c:388-413 | A successful registration overwrites the stored interface. Forwarded events have the callback's effect; dropped ones change nothing and make no call. |
| BleProfile.HiddSetAttrValue | main/ble_profile.c:415-424 | A set reaches the stack exactly when `att_tbl[HID_INFO_VAL] <= handle <= att_tbl[REPORT_REP_REF]`. |
| BleProfile.HiddGetAttrValue | main/ble_profile.c:426-436 | A get reaches the stack, and yields a value, exactly within the same handle range. |
| BleProfile.RegisterCallbacks | main/ble_profile.c:502-511 | A null callback changes nothing. Otherwise it is stored, then the dispatcher is registered, then the battery app, then the HID app. |
| BtConfig.SecConnAfter | main/btconfig.h:79-111 | Definition: a HID disconnect clears `sec_conn`, any authentication completion sets it, every other event keeps it. |
| BtConfig.SecConnHistory | main/btconfig.h:79-111 | After a run of events `sec_conn` holds exactly when some authentication completion has no later disconnection, or it held before and nothing disconnected. |
| BtConfig.FailedPairingMarksSecure | main/btconfig.h:109-121 | A failed authentication completion still sets `sec_conn`. |
| BtConfig.HiddEventCallback | main/btconfig.h:55-93 | Connect sets `hid_conn_id`. Disconnect clears `sec_conn` and restarts advertising. REG_FINISH with OK sets the name and the advertising data. Other events change nothing. |
| BtConfig.GapEventHandler | main/btconfig.h:95-127 | Advertising-data completion starts advertising. A security request is always accepted. Authentication completion sets `sec_conn`. Other events change nothing. |
| MainH.Frame | main/main.h:86-91 | An inter-MCU frame is 5 bytes. |
| MainH.FrameRoundTrip | main/main.h:43-45 | The frame is `[0x2B, 0x2B, command, data, 0]`: parsing it gives back command and data, and different pairs give different frames. |
| MainH.TxInterMcu | main/main.h:86-91 | Exactly one UART write of the frame. |
| MainH.HandleComms | main/main.h:276-293 | KB_MODE sets the requested mode only to 0 or 1. ACK_REQ writes one `(IMCU_ACK, 0)` frame. Every other command changes nothing. |
| MainH.ButtonStatus | main/main.h:152-198 | Bits 0, 3 and 11-15 are never set. Bit 2 is ROW1 or ROW2 of COL0. Bits 1 and 4-9 follow their keys, and bit 10 follows the rotary switch. |
| MainH.ScanButtons | main/main.h:152-198 | The pin-by-pin scan returns `ButtonStatus` of the levels. |
| MainTasks.CounterDifference | main/main.c:36-95 | 0 when unchanged, otherwise the absolute difference truncated to 8 bits. |
| MainTasks.VolumeTransition | main/main.c:36-95 | Definition: the `vol_mode` machine. Unchanged count releases the held key and goes to NONE. Rising count presses up from NONE, releases down then presses up from DOWN, sends nothing in UP, and goes to UP. Falling count mirrors this. |
| MainTasks.EncoderFrames | main/main.c:31-81 | Definition: with logging off, a rotary-switch frame and then a position frame with the truncated difference, negative for a falling count and positive otherwise; nothing with logging on. |
| MainTasks.ReplayAppend | main/main.c:26-102 | Replaying two runs of sends in turn is replaying their concatenation. |
| MainTasks.VolumeTransitionBalanced | main/main.c:36-95 | Each step releases exactly the held volume key before pressing another. The host ends holding the key of the new mode. The new mode follows the direction alone. At most 2 sends. |
| MainTasks.RunVolume | main/main.c:26-102 | The volume mode stays NONE, UP or DOWN over any run of polls. |
| MainTasks.RunVolumeBalanced | main/main.c:26-102 | Over any run of polls the host never sees a double press or a stray release, and ends holding the key of the final mode. |
| MainTasks.ReleaseVolume | main/main.c:36-53 | Unchanged count: UP or DOWN sends the matching release (when gated) and the mode becomes NONE. |
| MainTasks.ReleaseThenPress | main/main.c:67-72 | A release of the old key followed by a press of the new one. |
| MainTasks.TurnVolume | main/main.c:54-95 | Rising or falling count: the mode and the sends are the transition's; sends only when gated. |
| MainTasks.TrackCounter | main/main.c:31-36 | `last_counter` becomes the current count. The truncated difference is returned. Telemetry frames are written only when logging is off. |
| MainTasks.EncoderStep | main/main.c:30-100 | One poll: the mode follows the transition whether or not gated. Sends happen only when `sec_conn` holds in BT mode. The delay is `max(diff, 10)`. |
| MainTasks.PressedButtonsFacts | main/main.c:133-168 | Pressed button indices are strictly ascending, and an index is listed exactly when its bit is set. |
| MainTasks.CollectedPressed | main/main.c:133-168 | The collected keys are the key codes of the pressed buttons, in ascending order. |
| MainTasks.ClampKeys | main/main.c:183-185 | At most 6 keys: up to 6 are kept whole, more are cut to the first six. |
| MainTasks.PressedKeysBounds | main/main.c:133-185 | At most 9 keys are collected and at most 6 survive the clamp, so the >6 rejection never fires. |
| MainTasks.NoButtonsNoKeys | main/main.c:133-186 | With no key bits set the report sent is 8 zeros. |
| MainTasks.ButtonThreeNeverSent | main/main.h:162-164 | Button 3 is never reported, because no pin sets bit 3. |
| MainTasks.KeyCodesDistinct | main/main.c:133-168 | The nine key codes are pairwise different. |
| MainTasks.PressedKeysMembership | main/main.c:133-186 | With at most 6 pressed, a key's code is in the report exactly when its button is pressed. |
| MainTasks.PushIf | main/main.c:133-136 | `key_values[numKeysPressed++] = key` when pressed: the collected prefix grows by the key; otherwise it is unchanged. |
| MainTasks.CollectKeys | main/main.c:129-168 | The collection over the array yields exactly the pressed keys in ascending order. |
| MainTasks.WithMuteBits | main/main.c:173-179 | Setting or clearing bit 10 of the toggle mask controls that bit alone. |
| MainTasks.MuteEdge | main/main.c:169-181 | Definition: when the switch differs from bit 10 of the mask, bit 10 is set or cleared to match and one mute press or release is sent; otherwise nothing. |
| MainTasks.MuteEdgeBits | main/main.c:169-181 | After a poll bit 10 of the mask follows the switch and the other bits are kept. One send exactly when the switch changed, none otherwise. |
| MainTasks.MuteEdgeBalanced | main/main.c:169-181 | The mute sends of a poll are a press on the rising edge and a release on the falling edge. The host ends holding mute exactly when bit 10 is set. |
| MainTasks.RunMuteBalanced | main/main.c:169-181 | Over any run of polls mute is pressed and released alternately, never twice in a row. |
| MainTasks.SendMuteEdge | main/main.c:172-179 | One mute send, and bit 10 of the mask set or cleared to match. |
| MainTasks.MuteStep | main/main.c:169-181 | The mask and sends are those of the mute edge for this status. |
| MainTasks.SendCollected | main/main.c:183-186 | The clamped keys are sent as one keyboard report with no modifiers; whenever a keyboard input report is registered exactly one call is made, so the more-than-6-keys rejection of `hid_send_keyboard_value` is never taken. |
| MainTasks.KeyboardStep | main/main.c:126-193 | When not gated nothing changes. Otherwise the mute edge is sent first, then one keyboard report of the clamped pressed keys (all zeros when none). |
| MainTasks.KbModeStep | main/main.c:196-228 | A differing BT or USB request reconfigures the column pins (outputs or inputs) and takes effect. Nothing happens when the modes agree. |

## Left out

- `uart_event_task` (main/main.c:230-292) is not part of this model: it blocks on a driver queue and reads and flushes the UART. Its command dispatch, `handleComms`, is modelled.
- `battery_task` and `getBatteryVoltage` are not modelled: they are a floating-point ADC conversion.
- `app_main`, `hardwareInit`, `initUart`, `initBT`, `initHID` and `xTaskCreate` are not modelled: they are hardware and RTOS setup.
- The `gpio_set_level` strobes in `scanButtons` are not logged; the scan is modelled as a function of the levels read.
- `vTaskDelay`: only the delay value is computed and returned.
- The infinite task loops are modelled one iteration at a time; concurrency between the tasks and the BLE callback context is modelled as a sequential interleaving of steps and events.
- The contents of the static attribute tables (UUIDs, permissions, lengths, initial values), the HID report descriptor bytes and the advertising structs are not modelled. The battery and HID tables are names in the call log; only their entry counts and index order matter.
- Logging and the unused enums and fields of `hidd_le_prf_int.h` are not modelled.
- `main/hid_dev.h` duplicates the macros and types of `hidd_le_prf_int.h` and is modelled once.
- `ble_profile.h` and the ESP-IDF headers are not part of this model. Their constants are assumed: battery table 5 entries, `PROFILE_NUM` 1, `ESP_GATT_IF_NONE` 0xFF, `ESP_GATT_OK` 0, battery service UUID 0x180F, generic HID appearance 0x03C0.
- `gatts_event_handler`'s loop over `PROFILE_NUM` profiles is modelled for its one slot. The slot's `gatts_cb` is always set, so its null check is left out.
- The application callback `hidd_cb` is a flag plus an `AppCallback` entry in the call log. The handler it points at in `btconfig.h` is modelled separately, as `BtConfig.HiddEventCallback`, and is not invoked synchronously.
- `CONFIG_LOG_DEFAULT_LEVEL == 0` is the `telemetry` parameter of the encoder step.
- BleProfile.OnAttrTabCreated: requires a non-empty handle list, because the failure branch reads `handles[0]`.
- MainTasks.CollectKeys: `key_values` is uninitialised in the source. The model zeroes it; no slot past `numKeysPressed` is ever read.
- The registry keeps the report-map array itself (the C pointer), so later writes to the map are visible through it.
- Several source functions are split into helper methods so that each proof stays small. `encoder_task` becomes TrackCounter, ReleaseVolume, TurnVolume and ReleaseThenPress. `keyboard_task` becomes CollectKeys, MuteStep and SendCollected. `hid_add_id_tbl`, `hid_gatts_callback`, `hid_consumer_build_report` and `hid_send_keyboard_value` are split the same way. Each helper is specified on its own.
- HidDev.SendMouseValue: no inverse decoding of the mouse report is stated; the contract gives its bytes directly.
- MainTasks.EncoderStep: the closing gate can break the host's bracketing. When `sec_conn` drops or the mode leaves BT mid-press, `vol_mode` still changes but no release is sent (and the reverse when the gate opens). The bracketing lemmas are about the transition's sends, not the gated log.
