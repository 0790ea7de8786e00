/**
 * The HID device layer: the report registry (one table of report mappings,
 * looked up by id, type and the current protocol mode), the report builders for
 * keyboard, consumer-control and mouse input reports, the send path that turns
 * a successful lookup into one GATT notification, and profile init/deinit.
 */
module HidDev {
  import opened Types
  import opened KeyDefs
  import opened HidPrf
  import opened Transport

  /** Entry `e` describes report `id` of type `rtype` in protocol mode `mode`. */
  predicate Matches(e: ReportMapping, id: uint8, rtype: uint8, mode: uint8) {
    e.id == id && e.reportType == rtype && e.mode == mode
  }

  /** `j` is the first position of `s` whose entry matches. */
  ghost predicate IsFirstMatch(s: seq<ReportMapping>, j: nat, id: uint8, rtype: uint8, mode: uint8) {
    j < |s| && Matches(s[j], id, rtype, mode) &&
    forall i :: 0 <= i < j ==> !Matches(s[i], id, rtype, mode)
  }

  /** The linear scan of the report table: the first matching position, if any. */
  function FirstMatch(s: seq<ReportMapping>, id: uint8, rtype: uint8, mode: uint8): (r: Option<nat>)
    ensures r.Some? ==> IsFirstMatch(s, r.value, id, rtype, mode)
    ensures r.None? ==> forall j :: 0 <= j < |s| ==> !Matches(s[j], id, rtype, mode)
    decreases |s|
  {
    if |s| == 0 then None
    else if Matches(s[0], id, rtype, mode) then Some(0)
    else match FirstMatch(s[1..], id, rtype, mode)
      case None => None
      case Some(k) => Some(k + 1)
  }

  /**
   * The registry's module state: the registered table (a reference to the
   * caller's array, as the C pointer is), its length, and the global protocol
   * mode that scopes every lookup.
   */
  class Registry {
    var tbl: array?<ReportMapping>
    var len: uint8
    var protocolMode: uint8

    ghost predicate Valid()
      reads this
    {
      (tbl == null ==> len == 0) && (tbl != null ==> len as int <= tbl.Length)
    }

    /** Before registration the table pointer is null and the length 0; the mode starts as Report. */
    constructor ()
      ensures Valid() && tbl == null && len == 0
      ensures protocolMode == INITIAL_PROTOCOL_MODE
    {
      tbl, len := null, 0;
      protocolMode := INITIAL_PROTOCOL_MODE;
    }

    /** The entries a lookup scans. */
    function Entries(): seq<ReportMapping>
      reads this, tbl
      requires Valid()
    {
      if tbl == null then [] else tbl[..len]
    }

    /**
     * The entry a lookup of report `id` of type `rtype` finds: the first
     * registered entry whose id, type and mode equal the requested id, the
     * requested type and the current protocol mode.
     */
    function Lookup(id: uint8, rtype: uint8): (r: Option<ReportMapping>)
      reads this, tbl
      requires Valid()
      ensures r.None? <==> forall j :: 0 <= j < |Entries()| ==> !Matches(Entries()[j], id, rtype, protocolMode)
      ensures r.Some? ==> exists j: nat :: IsFirstMatch(Entries(), j, id, rtype, protocolMode) && Entries()[j] == r.value
    {
      match FirstMatch(Entries(), id, rtype, protocolMode)
      case None => None
      case Some(k) => Some(Entries()[k])
    }

    /** `hid_get_report_by_id`: the scan over the registered table, front to back. */
    method GetReportById(id: uint8, rtype: uint8) returns (r: Option<ReportMapping>)
      requires Valid()
      ensures r == Lookup(id, rtype)
    {
      if tbl == null {
        return None;
      }
      var k := 0;
      var i := len;
      while i > 0
        invariant 0 <= i <= len && k == len - i
        invariant forall j :: 0 <= j < k ==> !Matches(tbl[j], id, rtype, protocolMode)
      {
        if tbl[k].id == id && tbl[k].reportType == rtype && tbl[k].mode == protocolMode {
          assert IsFirstMatch(Entries(), k, id, rtype, protocolMode);
          return Some(tbl[k]);
        }
        i, k := i - 1, k + 1;
      }
      return None;
    }

    /** `hid_dev_register_reports`: the new table and length replace the old ones outright. */
    method RegisterReports(numReports: uint8, p: array<ReportMapping>)
      requires numReports as int <= p.Length
      modifies this
      ensures Valid() && tbl == p && len == numReports
      ensures Entries() == p[..numReports]
      ensures protocolMode == old(protocolMode)
    {
      tbl := p;
      len := numReports;
    }

    /**
     * The host writing the Protocol Mode characteristic: its value pointer is
     * `hidProtocolMode`, and the stack stores the written byte there.
     */
    method SetProtocolMode(mode: uint8)
      modifies this
      ensures protocolMode == mode && tbl == old(tbl) && len == old(len)
    {
      protocolMode := mode;
    }

    /** The transport calls that sending report (`id`, `rtype`) with payload `data` makes. */
    function NotifyCalls(gattIf: uint8, connId: uint16, id: uint8, rtype: uint8, data: seq<bv8>): seq<Call>
      reads this, tbl
      requires Valid()
    {
      match Lookup(id, rtype)
      case None => []
      case Some(e) => [SendIndicate(gattIf, connId, e.handle, data, false)]
    }
  }

  /**
   * `hid_dev_send_report`: exactly one notification, on the matched entry's
   * handle and with the given payload, when the lookup succeeds; no call otherwise.
   */
  method SendReport(reg: Registry, t: Stack, gattIf: uint8, connId: uint16, id: uint8, rtype: uint8, data: seq<bv8>)
    requires reg.Valid()
    modifies t
    ensures t.log == old(t.log) + reg.NotifyCalls(gattIf, connId, id, rtype, data)
    ensures |t.log| <= |old(t.log)| + 1
    ensures |t.log| == |old(t.log)| + 1 <==> reg.Lookup(id, rtype).Some?
  {
    var report := reg.GetReportById(id, rtype);
    if report.Some? {
      t.Invoke(SendIndicate(gattIf, connId, report.value.handle, data, false));
    }
  }

  /** What the consumer report builder does for a command: which field it sets to which value. */
  datatype CcAction = Channel(value: bv8) | VolumeUp | VolumeDown | Button(value: bv8) | NoAction

  /** The command table of `hid_consumer_build_report`; every other command sets nothing. */
  function CcActionOf(cmd: bv8): CcAction {
    if cmd == HID_CONSUMER_CHANNEL_UP then Channel(HID_CC_RPT_CHANNEL_UP)
    else if cmd == HID_CONSUMER_CHANNEL_DOWN then Channel(HID_CC_RPT_CHANNEL_DOWN)
    else if cmd == HID_CONSUMER_VOLUME_UP then VolumeUp
    else if cmd == HID_CONSUMER_VOLUME_DOWN then VolumeDown
    else if cmd == HID_CONSUMER_MUTE then Button(HID_CC_RPT_MUTE)
    else if cmd == HID_CONSUMER_POWER then Button(HID_CC_RPT_POWER)
    else if cmd == HID_CONSUMER_RECALL_LAST then Button(HID_CC_RPT_LAST)
    else if cmd == HID_CONSUMER_ASSIGN_SEL then Button(HID_CC_RPT_ASSIGN_SEL)
    else if cmd == HID_CONSUMER_PLAY then Button(HID_CC_RPT_PLAY)
    else if cmd == HID_CONSUMER_PAUSE then Button(HID_CC_RPT_PAUSE)
    else if cmd == HID_CONSUMER_RECORD then Button(HID_CC_RPT_RECORD)
    else if cmd == HID_CONSUMER_FAST_FORWARD then Button(HID_CC_RPT_FAST_FWD)
    else if cmd == HID_CONSUMER_REWIND then Button(HID_CC_RPT_REWIND)
    else if cmd == HID_CONSUMER_SCAN_NEXT_TRK then Button(HID_CC_RPT_SCAN_NEXT_TRK)
    else if cmd == HID_CONSUMER_SCAN_PREV_TRK then Button(HID_CC_RPT_SCAN_PREV_TRK)
    else if cmd == HID_CONSUMER_STOP then Button(HID_CC_RPT_STOP)
    else NoAction
  }

  /**
   * Report `r` is report `b` with the field of action `a` set: the field's bits
   * hold the new value and every bit outside the field is kept.
   */
  predicate CcEffect(b: seq<bv8>, r: seq<bv8>, a: CcAction)
    requires |b| == HID_CC_IN_RPT_LEN && |r| == HID_CC_IN_RPT_LEN
  {
    match a
    case Channel(x) => r[1] == b[1] && r[0] & 0xCF == b[0] & 0xCF && r[0] & 0x30 == (x & 0x03) << 4
    case VolumeUp => r[1] == b[1] && r[0] & 0x3F == b[0] & 0x3F && r[0] & 0xC0 == 0x40
    case VolumeDown => r[1] == b[1] && r[0] & 0x3F == b[0] & 0x3F && r[0] & 0xC0 == 0x80
    case Button(x) => r[0] == b[0] && r[1] & 0x0F == x & 0x0F && r[1] & 0xF0 == (b[1] & 0xF0) | (x & 0xF0)
    case NoAction => r == b
  }

  /**
   * The consumer report for a command as bytes: all zero for a release or an
   * unknown command, otherwise the one field of the command set in a zero report.
   */
  function ConsumerPayload(cmd: bv8, pressed: bool): (r: seq<bv8>)
    ensures |r| == HID_CC_IN_RPT_LEN
    ensures CcEffect([0, 0], r, if pressed then CcActionOf(cmd) else NoAction)
  {
    if !pressed then [0, 0]
    else match CcActionOf(cmd)
      case Channel(x) => [(x & 0x03) << 4, 0]
      case VolumeUp => [0x40, 0]
      case VolumeDown => [0x80, 0]
      case Button(x) => [0, x]
      case NoAction => [0, 0]
  }

  /** The consumer reports the firmware's commands produce. */
  lemma ConsumerPayloadValues(cmd: bv8)
    ensures ConsumerPayload(cmd, false) == [0, 0]
    ensures ConsumerPayload(HID_CONSUMER_VOLUME_UP, true) == [0x40, 0]
    ensures ConsumerPayload(HID_CONSUMER_VOLUME_DOWN, true) == [0x80, 0]
    ensures ConsumerPayload(HID_CONSUMER_MUTE, true) == [0, 0x01]
    ensures ConsumerPayload(HID_CONSUMER_CHANNEL_UP, true) == [0x10, 0]
    ensures ConsumerPayload(HID_CONSUMER_CHANNEL_DOWN, true) == [0x30, 0]
    ensures CcActionOf(cmd) == NoAction ==> ConsumerPayload(cmd, true) == [0, 0]
  {
  }

  /** Setting a field in a zero report gives exactly the bytes of `ConsumerPayload`. */
  lemma CcEffectFromZero(cmd: bv8, r: seq<bv8>)
    requires |r| == HID_CC_IN_RPT_LEN
    requires CcEffect([0, 0], r, CcActionOf(cmd))
    ensures r == ConsumerPayload(cmd, true)
  {
    match CcActionOf(cmd)
    case Channel(x) =>
      assert r[0] == (r[0] & 0xCF) | (r[0] & 0x30);
    case VolumeUp =>
      assert r[0] == (r[0] & 0x3F) | (r[0] & 0xC0);
    case VolumeDown =>
      assert r[0] == (r[0] & 0x3F) | (r[0] & 0xC0);
    case Button(x) =>
      assert r[1] == (r[1] & 0x0F) | (r[1] & 0xF0);
    case NoAction =>
  }

  /** `hid_consumer_build_report`: sets the field the command's table entry names. */
  method BuildConsumerReport(buffer: array?<bv8>, cmd: bv8)
    requires buffer != null ==> buffer.Length == HID_CC_IN_RPT_LEN
    modifies buffer
    ensures buffer != null ==> CcEffect(old(buffer[..]), buffer[..], CcActionOf(cmd))
  {
    if buffer != null {
      if cmd == HID_CONSUMER_CHANNEL_UP {
        SetChannel(buffer, HID_CC_RPT_CHANNEL_UP);
      } else if cmd == HID_CONSUMER_CHANNEL_DOWN {
        SetChannel(buffer, HID_CC_RPT_CHANNEL_DOWN);
      } else if cmd == HID_CONSUMER_VOLUME_UP {
        SetVolumeUp(buffer);
      } else if cmd == HID_CONSUMER_VOLUME_DOWN {
        SetVolumeDown(buffer);
      } else {
        BuildButtonReport(buffer, cmd);
      }
    }
  }

  /** The button cases of `hid_consumer_build_report`, and its default case. */
  method BuildButtonReport(buffer: array<bv8>, cmd: bv8)
    requires buffer.Length == HID_CC_IN_RPT_LEN
    requires cmd != HID_CONSUMER_CHANNEL_UP && cmd != HID_CONSUMER_CHANNEL_DOWN
    requires cmd != HID_CONSUMER_VOLUME_UP && cmd != HID_CONSUMER_VOLUME_DOWN
    modifies buffer
    ensures CcEffect(old(buffer[..]), buffer[..], CcActionOf(cmd))
  {
    var x: bv8;
    if cmd == HID_CONSUMER_MUTE {
      x := HID_CC_RPT_MUTE;
    } else if cmd == HID_CONSUMER_POWER {
      x := HID_CC_RPT_POWER;
    } else if cmd == HID_CONSUMER_RECALL_LAST {
      x := HID_CC_RPT_LAST;
    } else if cmd == HID_CONSUMER_ASSIGN_SEL {
      x := HID_CC_RPT_ASSIGN_SEL;
    } else if cmd == HID_CONSUMER_PLAY {
      x := HID_CC_RPT_PLAY;
    } else if cmd == HID_CONSUMER_PAUSE {
      x := HID_CC_RPT_PAUSE;
    } else if cmd == HID_CONSUMER_RECORD {
      x := HID_CC_RPT_RECORD;
    } else if cmd == HID_CONSUMER_FAST_FORWARD {
      x := HID_CC_RPT_FAST_FWD;
    } else if cmd == HID_CONSUMER_REWIND {
      x := HID_CC_RPT_REWIND;
    } else if cmd == HID_CONSUMER_SCAN_NEXT_TRK {
      x := HID_CC_RPT_SCAN_NEXT_TRK;
    } else if cmd == HID_CONSUMER_SCAN_PREV_TRK {
      x := HID_CC_RPT_SCAN_PREV_TRK;
    } else if cmd == HID_CONSUMER_STOP {
      x := HID_CC_RPT_STOP;
    } else {
      assert CcActionOf(cmd) == NoAction;
      return;
    }
    assert CcActionOf(cmd) == Button(x);
    SetButton(buffer, x);
  }

  /**
   * `hid_send_consumer_value`: builds the 2-byte report in a zeroed buffer (only
   * for a press) and sends it as report 3, Input.
   */
  method SendConsumerValue(eng: Engine, reg: Registry, t: Stack, connId: uint16, keyCmd: bv8, pressed: bool)
    requires reg.Valid()
    modifies t
    ensures t.log == old(t.log) +
      reg.NotifyCalls(eng.gattIf, connId, HID_RPT_ID_CC_IN, HID_REPORT_TYPE_INPUT, ConsumerPayload(keyCmd, pressed))
  {
    var buffer := new bv8[HID_CC_IN_RPT_LEN](_ => 0);
    assert buffer[..] == [0, 0];
    if pressed {
      BuildConsumerReport(buffer, keyCmd);
      CcEffectFromZero(keyCmd, buffer[..]);
    }
    SendReport(reg, t, eng.gattIf, connId, HID_RPT_ID_CC_IN, HID_REPORT_TYPE_INPUT, buffer[..]);
  }

  /** The 8-byte keyboard input report: modifiers, a reserved zero byte, up to six keys, zero padding. */
  function KeyboardPayload(specialKeyMask: bv8, keys: seq<bv8>): (r: seq<bv8>)
    requires |keys| <= HID_KEYBOARD_IN_RPT_LEN - 2
    ensures |r| == HID_KEYBOARD_IN_RPT_LEN
    ensures r[0] == specialKeyMask && r[1] == 0
    ensures forall j :: 0 <= j < |keys| ==> r[2 + j] == keys[j]
    ensures forall j :: 2 + |keys| <= j < HID_KEYBOARD_IN_RPT_LEN ==> r[j] == 0
  {
    [specialKeyMask, 0] + keys + seq(HID_KEYBOARD_IN_RPT_LEN - 2 - |keys|, _ => 0)
  }

  /** The report-building part of `hid_send_keyboard_value`: modifier byte, reserved byte, keys. */
  method FillKeyboardReport(buffer: array<bv8>, specialKeyMask: bv8, keys: seq<bv8>)
    requires buffer.Length == HID_KEYBOARD_IN_RPT_LEN && |keys| <= HID_KEYBOARD_IN_RPT_LEN - 2
    requires forall j :: 0 <= j < buffer.Length ==> buffer[j] == 0
    modifies buffer
    ensures buffer[..] == KeyboardPayload(specialKeyMask, keys)
  {
    buffer[0] := specialKeyMask;
    var i := 0;
    while i < |keys|
      invariant 0 <= i <= |keys|
      invariant buffer[0] == specialKeyMask && buffer[1] == 0
      invariant forall j :: 0 <= j < i ==> buffer[2 + j] == keys[j]
      invariant forall j :: 2 + i <= j < HID_KEYBOARD_IN_RPT_LEN ==> buffer[j] == 0
    {
      buffer[i + 2] := keys[i];
      i := i + 1;
    }
  }

  /**
   * `hid_send_keyboard_value`: more than six keys are rejected with no call;
   * otherwise the keyboard report is built in place and sent as report 2, Input.
   */
  method SendKeyboardValue(eng: Engine, reg: Registry, t: Stack, connId: uint16, specialKeyMask: bv8, keys: seq<bv8>)
    requires reg.Valid()
    requires |keys| < 0x100
    modifies t
    ensures |keys| > HID_KEYBOARD_IN_RPT_LEN - 2 ==> t.log == old(t.log)
    ensures |keys| <= HID_KEYBOARD_IN_RPT_LEN - 2 ==>
      t.log == old(t.log) + reg.NotifyCalls(eng.gattIf, connId, HID_RPT_ID_KEY_IN, HID_REPORT_TYPE_INPUT,
                                            KeyboardPayload(specialKeyMask, keys))
  {
    if |keys| > HID_KEYBOARD_IN_RPT_LEN - 2 {
      return;
    }
    var buffer := new bv8[HID_KEYBOARD_IN_RPT_LEN](_ => 0);
    FillKeyboardReport(buffer, specialKeyMask, keys);
    SendReport(reg, t, eng.gattIf, connId, HID_RPT_ID_KEY_IN, HID_REPORT_TYPE_INPUT, buffer[..]);
  }

  /** The 5-byte mouse input report: buttons, X and Y deltas as bytes, zero wheel and pan. */
  function MousePayload(mouseButton: bv8, mickeysX: int, mickeysY: int): (r: seq<bv8>)
    requires -128 <= mickeysX < 128 && -128 <= mickeysY < 128
  {
    [mouseButton, Int8ToByte(mickeysX), Int8ToByte(mickeysY), 0, 0]
  }

  /** `hid_send_mouse_value`: sends `[button, x, y, 0, 0]` as report 1, Input. */
  method SendMouseValue(eng: Engine, reg: Registry, t: Stack, connId: uint16, mouseButton: bv8, mickeysX: int, mickeysY: int)
    requires reg.Valid()
    requires -128 <= mickeysX < 128 && -128 <= mickeysY < 128
    modifies t
    ensures t.log == old(t.log) + reg.NotifyCalls(eng.gattIf, connId, HID_RPT_ID_MOUSE_IN, HID_REPORT_TYPE_INPUT,
                                                  MousePayload(mouseButton, mickeysX, mickeysY))
    ensures |MousePayload(mouseButton, mickeysX, mickeysY)| == HID_MOUSE_IN_RPT_LEN
  {
    var buffer := new bv8[HID_MOUSE_IN_RPT_LEN];
    buffer[0] := mouseButton;
    buffer[1] := Int8ToByte(mickeysX);
    buffer[2] := Int8ToByte(mickeysY);
    buffer[3] := 0;
    buffer[4] := 0;
    assert buffer[..] == MousePayload(mouseButton, mickeysX, mickeysY);
    SendReport(reg, t, eng.gattIf, connId, HID_RPT_ID_MOUSE_IN, HID_REPORT_TYPE_INPUT, buffer[..]);
  }

  /** `hid_device_profile_init`: a no-op when enabled; otherwise zeroes the engine and sets `enabled`. */
  method ProfileInit(eng: Engine)
    requires eng.Valid()
    modifies eng, eng.clcb, eng.attTbl
    ensures eng.Valid() && eng.clcb == old(eng.clcb) && eng.attTbl == old(eng.attTbl)
    ensures old(eng.enabled) ==> eng.State() == old(eng.State())
    ensures !old(eng.enabled) ==> eng.enabled && IsZeroState(eng.State().(enabled := false))
  {
    if eng.enabled {
      return;
    }
    eng.Reset();
    eng.enabled := true;
  }

  /**
   * `hid_device_profile_deinit`: stop, delete and unregister, in that order,
   * only when the profile is enabled and the service handle is not 0.
   * The enabled flag itself is left as it is.
   */
  method ProfileDeinit(eng: Engine, t: Stack)
    requires eng.Valid()
    modifies t
    ensures var svc := eng.Handle(Svc);
      t.log == old(t.log) +
        (if eng.enabled && svc != 0 then [StopService(svc), DeleteService(svc), AppUnregister(eng.gattIf)] else [])
  {
    var hiddSvcHdl := eng.attTbl[Ordinal(Svc)];
    if !eng.enabled {
      return;
    }
    if hiddSvcHdl != 0 {
      t.Invoke(StopService(hiddSvcHdl));
      t.Invoke(DeleteService(hiddSvcHdl));
    } else {
      return;
    }
    t.Invoke(AppUnregister(eng.gattIf));
  }
}
