/**
 * The GATT-server side of the HID profile: the dispatcher that routes stack
 * events to the profile, the profile callback that registers the battery and
 * HID attribute tables, tracks the connection link and relays events to the
 * application, the report map built from the HID table's handles, and the
 * guarded attribute accessors.
 */
module BleProfile {
  import opened Types
  import opened HidPrf
  import opened Transport
  import opened HidDev

  /** Status `ESP_GATT_OK`. */
  const ESP_GATT_OK: uint8 := 0
  /** `ESP_GATT_IF_NONE`: an event meant for every profile. */
  const ESP_GATT_IF_NONE: uint8 := 0xFF
  /** Entries of the battery attribute table; its service declaration comes first. */
  const BAS_IDX_NB: nat := 5
  const BAS_IDX_SVC: nat := 0
  const ESP_GATT_UUID_BATTERY_SERVICE_SVC: uint16 := 0x180F
  const ESP_BLE_APPEARANCE_GENERIC_HID: uint16 := 0x03C0

  /** The GATT-server events the profile sees, with the parameters it reads. */
  datatype GattsEvent =
    | RegEvt(status: uint8, appId: uint16)
    | ConfEvt
    | CreateEvt
    | ConnectEvt(connId: uint16, remoteBda: Bda)
    | DisconnectEvt(connId: uint16)
    | CloseEvt
    | WriteEvt
      /** `handles` holds `num_handle` entries; the stack always hands over at least one. */
    | CreatAttrTabEvt(status: uint8, svcUuid: uint16, handles: seq<uint16>)
    | OtherEvt

  predicate EventWellFormed(ev: GattsEvent) {
    ev.CreatAttrTabEvt? ==> |ev.handles| > 0
  }

  /**
   * The report map `hid_add_id_tbl` writes from the HID table's handles. The
   * ninth slot is never written and keeps its zero value.
   */
  function ReportMap(att: seq<uint16>): seq<ReportMapping>
    requires |att| == HIDD_LE_IDX_NB
  {
    [ ReportMapping(att[Ordinal(ReportMouseInVal)], att[Ordinal(ReportMouseInVal)],
                    HID_RPT_ID_MOUSE_IN, HID_REPORT_TYPE_INPUT, HID_PROTOCOL_MODE_REPORT),
      ReportMapping(att[Ordinal(ReportKeyInVal)], att[Ordinal(ReportKeyInCcc)],
                    HID_RPT_ID_KEY_IN, HID_REPORT_TYPE_INPUT, HID_PROTOCOL_MODE_REPORT),
      ReportMapping(att[Ordinal(ReportCcInVal)], att[Ordinal(ReportCcInCcc)],
                    HID_RPT_ID_CC_IN, HID_REPORT_TYPE_INPUT, HID_PROTOCOL_MODE_REPORT),
      ReportMapping(att[Ordinal(ReportLedOutVal)], 0,
                    HID_RPT_ID_LED_OUT, HID_REPORT_TYPE_OUTPUT, HID_PROTOCOL_MODE_REPORT),
      ReportMapping(att[Ordinal(BootKbInReportVal)], 0,
                    HID_RPT_ID_KEY_IN, HID_REPORT_TYPE_INPUT, HID_PROTOCOL_MODE_BOOT),
      ReportMapping(att[Ordinal(BootKbOutReportVal)], 0,
                    HID_RPT_ID_LED_OUT, HID_REPORT_TYPE_OUTPUT, HID_PROTOCOL_MODE_BOOT),
      ReportMapping(att[Ordinal(BootMouseInReportVal)], 0,
                    HID_RPT_ID_MOUSE_IN, HID_REPORT_TYPE_INPUT, HID_PROTOCOL_MODE_BOOT),
      ReportMapping(att[Ordinal(ReportVal)], 0,
                    HID_RPT_ID_FEATURE, HID_REPORT_TYPE_FEATURE, HID_PROTOCOL_MODE_REPORT),
      ZeroMapping ]
  }

  /** The handle a lookup in report map `m` finds, if any. */
  function MapHandle(m: seq<ReportMapping>, id: uint8, rtype: uint8, mode: uint8): Option<uint16> {
    match FirstMatch(m, id, rtype, mode)
    case None => None
    case Some(k) => if k < |m| then Some(m[k].handle) else None
  }

  /**
   * In Report mode every report the firmware sends or receives resolves to the
   * value handle of its own characteristic.
   */
  lemma {:induction false} ReportModeLookups(att: seq<uint16>)
    requires |att| == HIDD_LE_IDX_NB
    ensures var m := ReportMap(att); var mode := HID_PROTOCOL_MODE_REPORT;
      && MapHandle(m, HID_RPT_ID_MOUSE_IN, HID_REPORT_TYPE_INPUT, mode) == Some(att[Ordinal(ReportMouseInVal)])
      && MapHandle(m, HID_RPT_ID_KEY_IN, HID_REPORT_TYPE_INPUT, mode) == Some(att[Ordinal(ReportKeyInVal)])
      && MapHandle(m, HID_RPT_ID_CC_IN, HID_REPORT_TYPE_INPUT, mode) == Some(att[Ordinal(ReportCcInVal)])
      && MapHandle(m, HID_RPT_ID_LED_OUT, HID_REPORT_TYPE_OUTPUT, mode) == Some(att[Ordinal(ReportLedOutVal)])
      && MapHandle(m, HID_RPT_ID_FEATURE, HID_REPORT_TYPE_FEATURE, mode) == Some(att[Ordinal(ReportVal)])
  {
    var m := ReportMap(att);
    var mode := HID_PROTOCOL_MODE_REPORT;
    assert FirstMatch(m, HID_RPT_ID_MOUSE_IN, HID_REPORT_TYPE_INPUT, mode) == Some(0);
    FirstMatchAt(m, 1, HID_RPT_ID_KEY_IN, HID_REPORT_TYPE_INPUT, mode);
    FirstMatchAt(m, 2, HID_RPT_ID_CC_IN, HID_REPORT_TYPE_INPUT, mode);
    FirstMatchAt(m, 3, HID_RPT_ID_LED_OUT, HID_REPORT_TYPE_OUTPUT, mode);
    FirstMatchAt(m, 7, HID_RPT_ID_FEATURE, HID_REPORT_TYPE_FEATURE, mode);
  }

  /**
   * In Boot mode the keyboard and mouse input reports resolve to the boot
   * characteristics, LED output to the boot keyboard output, and the
   * consumer-control report to nothing: it is not sent.
   */
  lemma {:induction false} BootModeLookups(att: seq<uint16>)
    requires |att| == HIDD_LE_IDX_NB
    ensures var m := ReportMap(att); var mode := HID_PROTOCOL_MODE_BOOT;
      && MapHandle(m, HID_RPT_ID_KEY_IN, HID_REPORT_TYPE_INPUT, mode) == Some(att[Ordinal(BootKbInReportVal)])
      && MapHandle(m, HID_RPT_ID_LED_OUT, HID_REPORT_TYPE_OUTPUT, mode) == Some(att[Ordinal(BootKbOutReportVal)])
      && MapHandle(m, HID_RPT_ID_MOUSE_IN, HID_REPORT_TYPE_INPUT, mode) == Some(att[Ordinal(BootMouseInReportVal)])
      && MapHandle(m, HID_RPT_ID_CC_IN, HID_REPORT_TYPE_INPUT, mode) == None
  {
    var m := ReportMap(att);
    var mode := HID_PROTOCOL_MODE_BOOT;
    FirstMatchAt(m, 4, HID_RPT_ID_KEY_IN, HID_REPORT_TYPE_INPUT, mode);
    FirstMatchAt(m, 5, HID_RPT_ID_LED_OUT, HID_REPORT_TYPE_OUTPUT, mode);
    FirstMatchAt(m, 6, HID_RPT_ID_MOUSE_IN, HID_REPORT_TYPE_INPUT, mode);
    forall j | 0 <= j < |m| ensures !Matches(m[j], HID_RPT_ID_CC_IN, HID_REPORT_TYPE_INPUT, mode) {
    }
    NoMatchNone(m, HID_RPT_ID_CC_IN, HID_REPORT_TYPE_INPUT, mode);
  }

  /**
   * The eight written entries carry pairwise different (id, type, mode) keys,
   * so each lookup has at most one candidate; the unwritten ninth entry has
   * report type 0, which no lookup asks for. The mouse entry's CCCD handle is
   * its value handle, as written.
   */
  lemma ReportMapKeys(att: seq<uint16>)
    requires |att| == HIDD_LE_IDX_NB
    ensures var m := ReportMap(att);
      && |m| == HID_NUM_REPORTS && m[8] == ZeroMapping
      && (forall i, j :: 0 <= i < j < 8 ==> (m[i].id, m[i].reportType, m[i].mode) != (m[j].id, m[j].reportType, m[j].mode))
      && m[0].cccdHandle == m[0].handle
  {
  }

  /** A match at `k` with none before it is what the scan returns. */
  lemma FirstMatchAt(s: seq<ReportMapping>, k: nat, id: uint8, rtype: uint8, mode: uint8)
    requires k < |s| && Matches(s[k], id, rtype, mode)
    requires forall i :: 0 <= i < k ==> !Matches(s[i], id, rtype, mode)
    ensures FirstMatch(s, id, rtype, mode) == Some(k)
  {
  }

  /** With no matching entry the scan finds nothing. */
  lemma NoMatchNone(s: seq<ReportMapping>, id: uint8, rtype: uint8, mode: uint8)
    requires forall j :: 0 <= j < |s| ==> !Matches(s[j], id, rtype, mode)
    ensures FirstMatch(s, id, rtype, mode) == None
  {
  }

  /** The first free slot of the connection-link table, if any. */
  function FirstFree(links: seq<ConnectionLink>): (r: Option<nat>)
    ensures r.Some? ==> r.value < |links| && !links[r.value].inUse
    ensures r.Some? ==> forall i :: 0 <= i < r.value ==> links[i].inUse
    ensures r.None? ==> forall i :: 0 <= i < |links| ==> links[i].inUse
    decreases |links|
  {
    if |links| == 0 then None
    else if !links[0].inUse then Some(0)
    else match FirstFree(links[1..])
      case None => None
      case Some(k) => Some(k + 1)
  }

  /**
   * Allocating a link: the first free slot records the connection; with no free
   * slot the table is unchanged and the connection goes unrecorded.
   */
  function AllocLinks(links: seq<ConnectionLink>, connId: uint16, bda: Bda): (r: seq<ConnectionLink>)
    ensures |r| == |links|
    ensures forall i :: 0 <= i < |links| && links[i].inUse ==> r[i] == links[i]
    ensures (forall i :: 0 <= i < |links| ==> links[i].inUse) ==> r == links
    ensures forall k :: 0 <= k < |links| && !links[k].inUse && (forall i :: 0 <= i < k ==> links[i].inUse) ==>
      r == links[k := ConnectionLink(true, connId, true, bda)]
  {
    match FirstFree(links)
    case None => links
    case Some(k) => links[k := ConnectionLink(true, connId, true, bda)]
  }

  /** Deallocating a link: slot 0 is cleared whatever the connection id. */
  function DeallocLinks(links: seq<ConnectionLink>): seq<ConnectionLink>
    requires |links| > 0
  {
    links[0 := FreeLink]
  }

  /** The profile's own statics: report map, included-service range, the profile's interface. */
  class Profile {
    var rptMap: array<ReportMapping>
    var inclStart: uint16
    var inclEnd: uint16
    /** `gatts_profile_instance[PROFILE_APP_IDX].gatts_if`. */
    var profileIf: uint8

    ghost predicate Valid()
      reads this, rptMap
    {
      rptMap.Length == HID_NUM_REPORTS && rptMap[HID_NUM_REPORTS - 1] == ZeroMapping
    }

    constructor ()
      ensures Valid() && fresh(rptMap)
      ensures forall i :: 0 <= i < rptMap.Length ==> rptMap[i] == ZeroMapping
      ensures inclStart == 0 && inclEnd == 0 && profileIf == ESP_GATT_IF_NONE
    {
      rptMap := new ReportMapping[HID_NUM_REPORTS](_ => ZeroMapping);
      inclStart, inclEnd := 0, 0;
      profileIf := ESP_GATT_IF_NONE;
    }
  }

  /** What the profile callback reads and writes, as one value. */
  datatype BleState = BleState(engine: EngineState, rptMap: seq<ReportMapping>,
                               inclStart: uint16, inclEnd: uint16, registered: seq<ReportMapping>)

  ghost predicate WellFormed(s: BleState) {
    |s.engine.links| == HID_MAX_APPS && |s.engine.attTbl| == HIDD_LE_IDX_NB &&
    |s.rptMap| == HID_NUM_REPORTS && s.rptMap[HID_NUM_REPORTS - 1] == ZeroMapping
  }

  ghost function Snap(eng: Engine, prof: Profile, reg: Registry): BleState
    reads eng, eng.clcb, eng.attTbl, prof, prof.rptMap, reg, reg.tbl
    requires reg.Valid()
  {
    BleState(eng.State(), prof.rptMap[..], prof.inclStart, prof.inclEnd, reg.Entries())
  }

  /** The registration event: the HID application's interface is stored in the engine. */
  ghost function RegStep(s: BleState, status: uint8, appId: uint16, gattsIf: uint8): (BleState, seq<Call>) {
    var s1 := if appId == HIDD_APP_ID then s.(engine := s.engine.(gattIf := gattsIf)) else s;
    var hidCalls := if appId == HIDD_APP_ID && s.engine.hasCallback
      then [AppCallback(RegFinish(status)), CreateAttrTab(BatteryTable, gattsIf, BAS_IDX_NB, 0)] else [];
    var batCalls := if appId == BATTRAY_APP_ID && s.engine.hasCallback
      then [AppCallback(BatteryReg(status, gattsIf))] else [];
    (s1, [ConfigLocalIcon(ESP_BLE_APPEARANCE_GENERIC_HID)] + hidCalls + batCalls)
  }

  /** The connection event: a link is allocated, encryption requested, the application told. */
  ghost function ConnectStep(s: BleState, connId: uint16, bda: Bda): (BleState, seq<Call>) {
    (s.(engine := s.engine.(links := AllocLinks(s.engine.links, connId, bda))),
     [SetEncryptionNoMitm(bda)] + (if s.engine.hasCallback then [AppCallback(BleConnect(connId, bda))] else []))
  }

  /** The disconnection event: the application is told, then slot 0 is freed. */
  ghost function DisconnectStep(s: BleState): (BleState, seq<Call>)
    requires |s.engine.links| > 0
  {
    (s.(engine := s.engine.(links := DeallocLinks(s.engine.links))),
     if s.engine.hasCallback then [AppCallback(BleDisconnect)] else [])
  }

  /**
   * The attribute-table event: a created battery table records the included
   * range and requests the HID table; a created HID table is copied into the
   * engine, turned into the report map and registered. A service is started
   * in every case: the HID service, or else the table's first handle.
   */
  ghost function AttrTabStep(s: BleState, status: uint8, svcUuid: uint16, handles: seq<uint16>, gattsIf: uint8)
    : (BleState, seq<Call>)
    requires |handles| > 0
  {
    var battery := |handles| == BAS_IDX_NB && svcUuid == ESP_GATT_UUID_BATTERY_SERVICE_SVC && status == ESP_GATT_OK;
    var s1 := if battery
      then s.(inclStart := handles[BAS_IDX_SVC], inclEnd := ToUint16(handles[BAS_IDX_SVC] + BAS_IDX_NB - 1))
      else s;
    var c1 := if battery then [CreateAttrTab(HidTable(s1.inclStart, s1.inclEnd), gattsIf, HIDD_LE_IDX_NB, 0)] else [];
    if |handles| == HIDD_LE_IDX_NB && status == ESP_GATT_OK then
      (s1.(engine := s1.engine.(attTbl := handles), rptMap := ReportMap(handles), registered := ReportMap(handles)),
       c1 + [StartService(handles[Ordinal(Svc)])])
    else
      (s1, c1 + [StartService(handles[0])])
  }

  /** `hid_gatts_callback` as a state transition: the new state and the calls made. */
  ghost function OnGattsEvent(s: BleState, ev: GattsEvent, gattsIf: uint8): (r: (BleState, seq<Call>))
    requires WellFormed(s) && EventWellFormed(ev)
    ensures WellFormed(r.0)
  {
    match ev
    case RegEvt(status, appId) => RegStep(s, status, appId, gattsIf)
    case ConnectEvt(connId, bda) => ConnectStep(s, connId, bda)
    case DisconnectEvt(_) => DisconnectStep(s)
    case CreatAttrTabEvt(status, svcUuid, handles) => AttrTabStep(s, status, svcUuid, handles, gattsIf)
    case _ => (s, [])
  }

  /** Events the callback does not handle leave the state alone and make no call. */
  lemma IgnoredEvents(s: BleState, gattsIf: uint8)
    requires WellFormed(s)
    ensures OnGattsEvent(s, ConfEvt, gattsIf) == (s, [])
    ensures OnGattsEvent(s, CreateEvt, gattsIf) == (s, [])
    ensures OnGattsEvent(s, CloseEvt, gattsIf) == (s, [])
    ensures OnGattsEvent(s, WriteEvt, gattsIf) == (s, [])
    ensures OnGattsEvent(s, OtherEvt, gattsIf) == (s, [])
  {
  }

  /**
   * The single connection slot: a connection fills the free slot, a second one
   * while it is held goes unrecorded, a disconnection frees it (whatever the
   * id), and the next connection fills it again.
   */
  lemma SingleLinkLifecycle(s: BleState, c1: uint16, b1: Bda, c2: uint16, b2: Bda, c3: uint16, gattsIf: uint8)
    requires WellFormed(s) && !s.engine.links[0].inUse
    ensures var s1 := OnGattsEvent(s, ConnectEvt(c1, b1), gattsIf).0;
      && s1.engine.links == [ConnectionLink(true, c1, true, b1)]
      && OnGattsEvent(s1, ConnectEvt(c2, b2), gattsIf).0.engine.links == s1.engine.links
      && var s2 := OnGattsEvent(s1, DisconnectEvt(c3), gattsIf).0;
      && s2.engine.links == [FreeLink]
      && OnGattsEvent(s2, ConnectEvt(c2, b2), gattsIf).0.engine.links == [ConnectionLink(true, c2, true, b2)]
  {
  }

  /**
   * Bring-up with a callback installed: registering the battery and then the
   * HID application requests the battery table on the HID interface; the
   * battery table's creation records the included range, requests the HID
   * table and starts the battery service; the HID table's creation copies its
   * handles, registers the report map and starts the HID service.
   */
  lemma BringUp(s: BleState, batIf: uint8, hidIf: uint8, bh: seq<uint16>, hh: seq<uint16>, hidUuid: uint16)
    requires WellFormed(s) && s.engine.hasCallback
    requires |bh| == BAS_IDX_NB && |hh| == HIDD_LE_IDX_NB
    ensures var r1 := OnGattsEvent(s, RegEvt(ESP_GATT_OK, BATTRAY_APP_ID), batIf);
      && r1.1 == [ConfigLocalIcon(ESP_BLE_APPEARANCE_GENERIC_HID), AppCallback(BatteryReg(ESP_GATT_OK, batIf))]
      && var r2 := OnGattsEvent(r1.0, RegEvt(ESP_GATT_OK, HIDD_APP_ID), hidIf);
      && r2.0.engine.gattIf == hidIf
      && r2.1 == [ConfigLocalIcon(ESP_BLE_APPEARANCE_GENERIC_HID), AppCallback(RegFinish(ESP_GATT_OK)),
                  CreateAttrTab(BatteryTable, hidIf, BAS_IDX_NB, 0)]
      && var r3 := OnGattsEvent(r2.0, CreatAttrTabEvt(ESP_GATT_OK, ESP_GATT_UUID_BATTERY_SERVICE_SVC, bh), hidIf);
      && r3.0.inclStart == bh[0] && r3.0.inclEnd == ToUint16(bh[0] + BAS_IDX_NB - 1)
      && r3.1 == [CreateAttrTab(HidTable(bh[0], r3.0.inclEnd), hidIf, HIDD_LE_IDX_NB, 0), StartService(bh[0])]
      && var r4 := OnGattsEvent(r3.0, CreatAttrTabEvt(ESP_GATT_OK, hidUuid, hh), hidIf);
      && r4.0.engine.attTbl == hh && r4.0.registered == ReportMap(hh) && r4.0.rptMap == ReportMap(hh)
      && r4.0.inclStart == bh[0] && r4.0.engine.gattIf == hidIf
      && r4.1 == [StartService(hh[Ordinal(Svc)])]
  {
  }

  /**
   * A table whose creation failed is not recorded, and its first handle is
   * still started, as written.
   */
  lemma FailedTableStillStarted(s: BleState, status: uint8, svcUuid: uint16, handles: seq<uint16>, gattsIf: uint8)
    requires WellFormed(s) && status != ESP_GATT_OK && |handles| > 0
    ensures OnGattsEvent(s, CreatAttrTabEvt(status, svcUuid, handles), gattsIf) == (s, [StartService(handles[0])])
  {
    var none: seq<Call> := [];
    assert none + [StartService(handles[0])] == [StartService(handles[0])];
  }

  /** The number of service starts in a run of calls. */
  function StartCount(calls: seq<Call>): nat
    decreases |calls|
  {
    if |calls| == 0 then 0
    else (if calls[0].StartService? then 1 else 0) + StartCount(calls[1..])
  }

  /**
   * Every table-created event starts exactly one service, as its last call:
   * the HID service of a created 37-entry table, or else the table's first
   * handle.
   */
  lemma OneStartPerTableEvent(s: BleState, status: uint8, svcUuid: uint16, handles: seq<uint16>, gattsIf: uint8)
    requires WellFormed(s) && |handles| > 0
    ensures var calls := OnGattsEvent(s, CreatAttrTabEvt(status, svcUuid, handles), gattsIf).1;
      && |calls| > 0 && StartCount(calls) == 1
      && calls[|calls| - 1] == StartService(if |handles| == HIDD_LE_IDX_NB && status == ESP_GATT_OK
                                             then handles[Ordinal(Svc)] else handles[0])
  {
    var calls := OnGattsEvent(s, CreatAttrTabEvt(status, svcUuid, handles), gattsIf).1;
    var last := calls[|calls| - 1];
    assert last.StartService?;
    if |calls| == 2 {
      assert !calls[0].StartService? && calls[1..] == [last] && [last][1..] == [];
      assert StartCount([last]) == 1 + StartCount([]);
    } else {
      assert calls == [last] && calls[1..] == [];
    }
  }

  /** A call requesting the HID attribute table. */
  predicate RequestsHidTable(c: Call) {
    c.CreateAttrTab? && c.table.HidTable?
  }

  /** A call requesting the battery attribute table. */
  predicate RequestsBatteryTable(c: Call) {
    c.CreateAttrTab? && c.table.BatteryTable?
  }

  /**
   * Only a successful 5-entry battery table event requests the HID table, and
   * it always does, pointing the included service at the battery handles.
   */
  lemma HidTableOnlyFromBattery(s: BleState, ev: GattsEvent, gattsIf: uint8)
    requires WellFormed(s) && EventWellFormed(ev)
    ensures var calls := OnGattsEvent(s, ev, gattsIf).1;
      (exists i :: 0 <= i < |calls| && RequestsHidTable(calls[i])) <==>
        (ev.CreatAttrTabEvt? && |ev.handles| == BAS_IDX_NB &&
         ev.svcUuid == ESP_GATT_UUID_BATTERY_SERVICE_SVC && ev.status == ESP_GATT_OK)
    ensures var calls := OnGattsEvent(s, ev, gattsIf).1;
      forall i :: 0 <= i < |calls| && RequestsHidTable(calls[i]) ==>
        ev.CreatAttrTabEvt? && calls[i] ==
          CreateAttrTab(HidTable(ev.handles[0], ToUint16(ev.handles[0] + BAS_IDX_NB - 1)), gattsIf, HIDD_LE_IDX_NB, 0)
  {
    var calls := OnGattsEvent(s, ev, gattsIf).1;
    if ev.CreatAttrTabEvt? && |ev.handles| == BAS_IDX_NB &&
       ev.svcUuid == ESP_GATT_UUID_BATTERY_SERVICE_SVC && ev.status == ESP_GATT_OK {
      assert RequestsHidTable(calls[0]);
    }
  }

  /**
   * Only the HID application's registration with a callback installed
   * requests the battery table, and it always does.
   */
  lemma BatteryTableOnlyFromHidReg(s: BleState, ev: GattsEvent, gattsIf: uint8)
    requires WellFormed(s) && EventWellFormed(ev)
    ensures var calls := OnGattsEvent(s, ev, gattsIf).1;
      (exists i :: 0 <= i < |calls| && RequestsBatteryTable(calls[i])) <==>
        (ev.RegEvt? && ev.appId == HIDD_APP_ID && s.engine.hasCallback)
  {
    var calls := OnGattsEvent(s, ev, gattsIf).1;
    if ev.RegEvt? && ev.appId == HIDD_APP_ID && s.engine.hasCallback {
      assert RequestsBatteryTable(calls[2]);
    }
  }

  /**
   * Without a callback a registration only sets the appearance: no
   * REG_FINISH, no battery table. The HID application's interface is still
   * stored, and nothing else changes.
   */
  lemma RegWithoutCallback(s: BleState, status: uint8, appId: uint16, gattsIf: uint8)
    requires WellFormed(s) && !s.engine.hasCallback
    ensures var r := OnGattsEvent(s, RegEvt(status, appId), gattsIf);
      && r.1 == [ConfigLocalIcon(ESP_BLE_APPEARANCE_GENERIC_HID)]
      && r.0.engine.gattIf == (if appId == HIDD_APP_ID then gattsIf else s.engine.gattIf)
      && r.0 == s.(engine := s.engine.(gattIf := r.0.engine.gattIf))
  {
    var none: seq<Call> := [];
    assert [ConfigLocalIcon(ESP_BLE_APPEARANCE_GENERIC_HID)] + none + none == [ConfigLocalIcon(ESP_BLE_APPEARANCE_GENERIC_HID)];
  }

  /**
   * The included-service range recorded for a battery table: it starts at
   * the service handle and ends four handles later, wrapping past 0xFFFF as
   * the `uint16_t` store does.
   */
  lemma IncludedRange(s: BleState, handles: seq<uint16>, gattsIf: uint8)
    requires WellFormed(s) && |handles| == BAS_IDX_NB
    ensures var s' := OnGattsEvent(s, CreatAttrTabEvt(ESP_GATT_OK, ESP_GATT_UUID_BATTERY_SERVICE_SVC, handles), gattsIf).0;
      && s'.inclStart == handles[0]
      && s'.inclEnd == (if handles[0] < 0xFFFC then handles[0] as int + 4 else handles[0] as int + 4 - 0x1_0000)
  {
  }

  /** `hidd_le_init`: the whole engine is zeroed. */
  method HiddLeInit(eng: Engine)
    requires eng.Valid()
    modifies eng, eng.clcb, eng.attTbl
    ensures eng.Valid() && eng.clcb == old(eng.clcb) && eng.attTbl == old(eng.attTbl)
    ensures IsZeroState(eng.State())
  {
    eng.Reset();
  }

  /** `hidd_clcb_alloc`: the scan for the first free slot. */
  method ClcbAlloc(eng: Engine, connId: uint16, bda: Bda)
    requires eng.Valid()
    modifies eng.clcb
    ensures eng.clcb[..] == AllocLinks(old(eng.clcb[..]), connId, bda)
  {
    var i := 0;
    while i < HID_MAX_APPS
      invariant 0 <= i <= HID_MAX_APPS
      invariant forall j :: 0 <= j < i ==> eng.clcb[j].inUse
      invariant eng.clcb[..] == old(eng.clcb[..])
    {
      if !eng.clcb[i].inUse {
        eng.clcb[i] := ConnectionLink(true, connId, true, bda);
        return;
      }
      i := i + 1;
    }
  }

  /**
   * `hidd_clcb_dealloc`: the loop body runs once, for slot 0, which is zeroed
   * and reported as freed, whatever the connection id.
   */
  method ClcbDealloc(eng: Engine, connId: uint16) returns (freed: bool)
    requires eng.Valid()
    modifies eng.clcb
    ensures freed
    ensures eng.clcb[..] == DeallocLinks(old(eng.clcb[..]))
  {
    eng.clcb[0] := FreeLink;
    return true;
  }

  /** `hid_add_id_tbl`: fills the report map from the handle table and registers it. */
  method AddIdTbl(eng: Engine, prof: Profile, reg: Registry)
    requires eng.Valid() && prof.Valid()
    modifies prof.rptMap, reg
    ensures prof.Valid() && reg.Valid()
    ensures prof.rptMap[..] == ReportMap(eng.attTbl[..])
    ensures reg.tbl == prof.rptMap && reg.len as nat == HID_NUM_REPORTS
    ensures reg.Entries() == ReportMap(eng.attTbl[..])
    ensures reg.protocolMode == old(reg.protocolMode)
  {
    var att := eng.attTbl;
    var m := prof.rptMap;
    FillReportModeEntries(att, m);
    FillBootModeEntries(att, m);
    assert m[..] == ReportMap(att[..]);
    reg.RegisterReports(HID_NUM_REPORTS as uint8, m);
  }

  /** The report-mode half of `hid_add_id_tbl`: entries 0..3. */
  method FillReportModeEntries(att: array<uint16>, m: array<ReportMapping>)
    requires att.Length == HIDD_LE_IDX_NB && m.Length == HID_NUM_REPORTS
    modifies m
    ensures forall k :: 0 <= k < 4 ==> m[k] == ReportMap(att[..])[k]
    ensures forall k :: 4 <= k < HID_NUM_REPORTS ==> m[k] == old(m[k])
  {
    m[0] := ReportMapping(att[Ordinal(ReportMouseInVal)], att[Ordinal(ReportMouseInVal)],
                          HID_RPT_ID_MOUSE_IN, HID_REPORT_TYPE_INPUT, HID_PROTOCOL_MODE_REPORT);
    m[1] := ReportMapping(att[Ordinal(ReportKeyInVal)], att[Ordinal(ReportKeyInCcc)],
                          HID_RPT_ID_KEY_IN, HID_REPORT_TYPE_INPUT, HID_PROTOCOL_MODE_REPORT);
    m[2] := ReportMapping(att[Ordinal(ReportCcInVal)], att[Ordinal(ReportCcInCcc)],
                          HID_RPT_ID_CC_IN, HID_REPORT_TYPE_INPUT, HID_PROTOCOL_MODE_REPORT);
    m[3] := ReportMapping(att[Ordinal(ReportLedOutVal)], 0,
                          HID_RPT_ID_LED_OUT, HID_REPORT_TYPE_OUTPUT, HID_PROTOCOL_MODE_REPORT);
  }

  /** The boot-mode and feature half of `hid_add_id_tbl`: entries 4..7. */
  method FillBootModeEntries(att: array<uint16>, m: array<ReportMapping>)
    requires att.Length == HIDD_LE_IDX_NB && m.Length == HID_NUM_REPORTS
    modifies m
    ensures forall k :: 4 <= k < 8 ==> m[k] == ReportMap(att[..])[k]
    ensures forall k :: 0 <= k < HID_NUM_REPORTS && !(4 <= k < 8) ==> m[k] == old(m[k])
  {
    m[4] := ReportMapping(att[Ordinal(BootKbInReportVal)], 0,
                          HID_RPT_ID_KEY_IN, HID_REPORT_TYPE_INPUT, HID_PROTOCOL_MODE_BOOT);
    m[5] := ReportMapping(att[Ordinal(BootKbOutReportVal)], 0,
                          HID_RPT_ID_LED_OUT, HID_REPORT_TYPE_OUTPUT, HID_PROTOCOL_MODE_BOOT);
    m[6] := ReportMapping(att[Ordinal(BootMouseInReportVal)], 0,
                          HID_RPT_ID_MOUSE_IN, HID_REPORT_TYPE_INPUT, HID_PROTOCOL_MODE_BOOT);
    m[7] := ReportMapping(att[Ordinal(ReportVal)], 0,
                          HID_RPT_ID_FEATURE, HID_REPORT_TYPE_FEATURE, HID_PROTOCOL_MODE_REPORT);
  }

  /** The registration branch of `hid_gatts_callback`. */
  method OnRegister(eng: Engine, prof: Profile, reg: Registry, t: Stack, status: uint8, appId: uint16, gattsIf: uint8)
    requires eng.Valid() && prof.Valid() && reg.Valid()
    modifies eng, t
    ensures eng.Valid() && eng.clcb == old(eng.clcb) && eng.attTbl == old(eng.attTbl)
    ensures Snap(eng, prof, reg) == RegStep(old(Snap(eng, prof, reg)), status, appId, gattsIf).0
    ensures t.log == old(t.log) + RegStep(old(Snap(eng, prof, reg)), status, appId, gattsIf).1
  {
    t.Invoke(ConfigLocalIcon(ESP_BLE_APPEARANCE_GENERIC_HID));
    if appId == HIDD_APP_ID {
      eng.gattIf := gattsIf;
      if eng.hasCallback {
        t.Invoke(AppCallback(RegFinish(status)));
        t.Invoke(CreateAttrTab(BatteryTable, eng.gattIf, BAS_IDX_NB, 0));
      }
    }
    if appId == BATTRAY_APP_ID {
      if eng.hasCallback {
        t.Invoke(AppCallback(BatteryReg(status, gattsIf)));
      }
    }
  }

  /** The connection branch of `hid_gatts_callback`. */
  method OnConnect(eng: Engine, prof: Profile, reg: Registry, t: Stack, connId: uint16, bda: Bda)
    requires eng.Valid() && prof.Valid() && reg.Valid()
    modifies eng.clcb, t
    ensures Snap(eng, prof, reg) == ConnectStep(old(Snap(eng, prof, reg)), connId, bda).0
    ensures t.log == old(t.log) + ConnectStep(old(Snap(eng, prof, reg)), connId, bda).1
  {
    ClcbAlloc(eng, connId, bda);
    t.Invoke(SetEncryptionNoMitm(bda));
    if eng.hasCallback {
      t.Invoke(AppCallback(BleConnect(connId, bda)));
    }
  }

  /** The disconnection branch of `hid_gatts_callback`. */
  method OnDisconnect(eng: Engine, prof: Profile, reg: Registry, t: Stack, connId: uint16)
    requires eng.Valid() && prof.Valid() && reg.Valid()
    modifies eng.clcb, t
    ensures Snap(eng, prof, reg) == DisconnectStep(old(Snap(eng, prof, reg))).0
    ensures t.log == old(t.log) + DisconnectStep(old(Snap(eng, prof, reg))).1
  {
    if eng.hasCallback {
      t.Invoke(AppCallback(BleDisconnect));
    }
    var _ := ClcbDealloc(eng, connId);
  }

  /** The HID table case: the handles are copied into the engine, the report map is built and the service started. */
  method InstallHidTable(eng: Engine, prof: Profile, reg: Registry, t: Stack, handles: seq<uint16>)
    requires eng.Valid() && prof.Valid() && |handles| == HIDD_LE_IDX_NB
    modifies eng.attTbl, prof.rptMap, reg, t
    ensures eng.attTbl[..] == handles
    ensures prof.Valid() && reg.Valid() && prof.rptMap[..] == ReportMap(handles)
    ensures reg.tbl == prof.rptMap && reg.Entries() == ReportMap(handles)
    ensures reg.protocolMode == old(reg.protocolMode)
    ensures t.log == old(t.log) + [StartService(handles[Ordinal(Svc)])]
  {
    forall i | 0 <= i < eng.attTbl.Length {
      eng.attTbl[i] := handles[i];
    }
    assert eng.attTbl[..] == handles;
    AddIdTbl(eng, prof, reg);
    t.Invoke(StartService(eng.attTbl[Ordinal(Svc)]));
  }

  /** The attribute-table branch of `hid_gatts_callback`. */
  method OnAttrTabCreated(eng: Engine, prof: Profile, reg: Registry, t: Stack,
                          status: uint8, svcUuid: uint16, handles: seq<uint16>, gattsIf: uint8)
    requires eng.Valid() && prof.Valid() && reg.Valid() && |handles| > 0
    modifies eng.attTbl, prof, prof.rptMap, reg, t
    ensures prof.Valid() && reg.Valid() && prof.rptMap == old(prof.rptMap)
    ensures prof.profileIf == old(prof.profileIf) && reg.protocolMode == old(reg.protocolMode)
    ensures Snap(eng, prof, reg) == AttrTabStep(old(Snap(eng, prof, reg)), status, svcUuid, handles, gattsIf).0
    ensures t.log == old(t.log) + AttrTabStep(old(Snap(eng, prof, reg)), status, svcUuid, handles, gattsIf).1
  {
    if |handles| == BAS_IDX_NB && svcUuid == ESP_GATT_UUID_BATTERY_SERVICE_SVC && status == ESP_GATT_OK {
      prof.inclStart := handles[BAS_IDX_SVC];
      prof.inclEnd := ToUint16(prof.inclStart + BAS_IDX_NB - 1);
      t.Invoke(CreateAttrTab(HidTable(prof.inclStart, prof.inclEnd), gattsIf, HIDD_LE_IDX_NB, 0));
    }
    if |handles| == HIDD_LE_IDX_NB && status == ESP_GATT_OK {
      InstallHidTable(eng, prof, reg, t, handles);
    } else {
      t.Invoke(StartService(handles[0]));
    }
  }

  /**
   * `hid_gatts_callback`: registration, connection, disconnection and
   * attribute-table events change the state and call the stack and the
   * application as `OnGattsEvent` says; every other event does nothing.
   */
  method HidGattsCallback(eng: Engine, prof: Profile, reg: Registry, t: Stack, ev: GattsEvent, gattsIf: uint8)
    requires eng.Valid() && prof.Valid() && reg.Valid() && EventWellFormed(ev)
    modifies eng, eng.clcb, eng.attTbl, prof, prof.rptMap, reg, t
    ensures eng.Valid() && prof.Valid() && reg.Valid()
    ensures eng.clcb == old(eng.clcb) && eng.attTbl == old(eng.attTbl) && prof.rptMap == old(prof.rptMap)
    ensures prof.profileIf == old(prof.profileIf) && reg.protocolMode == old(reg.protocolMode)
    ensures Snap(eng, prof, reg) == OnGattsEvent(old(Snap(eng, prof, reg)), ev, gattsIf).0
    ensures t.log == old(t.log) + OnGattsEvent(old(Snap(eng, prof, reg)), ev, gattsIf).1
  {
    match ev
    case RegEvt(status, appId) => OnRegister(eng, prof, reg, t, status, appId, gattsIf);
    case ConnectEvt(connId, bda) => OnConnect(eng, prof, reg, t, connId, bda);
    case DisconnectEvt(connId) => OnDisconnect(eng, prof, reg, t, connId);
    case CreatAttrTabEvt(status, svcUuid, handles) =>
      OnAttrTabCreated(eng, prof, reg, t, status, svcUuid, handles, gattsIf);
    case ConfEvt =>
    case CreateEvt =>
    case CloseEvt =>
    case WriteEvt =>
    case OtherEvt =>
  }

  /** Whether the dispatcher hands an event to the profile, given the interface it had stored. */
  function Forwarded(storedIf: uint8, ev: GattsEvent, gattsIf: uint8): bool {
    if ev.RegEvt? && ev.status != ESP_GATT_OK then false
    else
      var stored := if ev.RegEvt? then gattsIf else storedIf;
      gattsIf == ESP_GATT_IF_NONE || gattsIf == stored
  }

  /**
   * Dispatch rules: a successful registration is always handed on, a failed
   * one never; any other event is handed on exactly when it is addressed to
   * every profile or to the stored interface.
   */
  lemma DispatchRules(storedIf: uint8, ev: GattsEvent, gattsIf: uint8)
    ensures ev.RegEvt? && ev.status == ESP_GATT_OK ==> Forwarded(storedIf, ev, gattsIf)
    ensures ev.RegEvt? && ev.status != ESP_GATT_OK ==> !Forwarded(storedIf, ev, gattsIf)
    ensures !ev.RegEvt? ==>
      (Forwarded(storedIf, ev, gattsIf) <==> gattsIf == ESP_GATT_IF_NONE || gattsIf == storedIf)
  {
  }

  /**
   * `gatts_event_handler`: a successful registration stores its interface and a
   * failed one is dropped; the event then reaches the profile callback when it
   * is addressed to every profile or to the stored interface.
   */
  method GattsEventHandler(eng: Engine, prof: Profile, reg: Registry, t: Stack, ev: GattsEvent, gattsIf: uint8)
    returns (forwarded: bool)
    requires eng.Valid() && prof.Valid() && reg.Valid() && EventWellFormed(ev)
    modifies eng, eng.clcb, eng.attTbl, prof, prof.rptMap, reg, t
    ensures eng.Valid() && prof.Valid() && reg.Valid()
    ensures eng.clcb == old(eng.clcb) && eng.attTbl == old(eng.attTbl) && prof.rptMap == old(prof.rptMap)
    ensures reg.protocolMode == old(reg.protocolMode)
    ensures prof.profileIf == (if ev.RegEvt? && ev.status == ESP_GATT_OK then gattsIf else old(prof.profileIf))
    ensures forwarded == Forwarded(old(prof.profileIf), ev, gattsIf)
    ensures forwarded ==> Snap(eng, prof, reg) == OnGattsEvent(old(Snap(eng, prof, reg)), ev, gattsIf).0
    ensures forwarded ==> t.log == old(t.log) + OnGattsEvent(old(Snap(eng, prof, reg)), ev, gattsIf).1
    ensures !forwarded ==> Snap(eng, prof, reg) == old(Snap(eng, prof, reg)) && t.log == old(t.log)
  {
    if ev.RegEvt? {
      if ev.status == ESP_GATT_OK {
        prof.profileIf := gattsIf;
      } else {
        return false;
      }
    }
    if gattsIf == ESP_GATT_IF_NONE || gattsIf == prof.profileIf {
      HidGattsCallback(eng, prof, reg, t, ev, gattsIf);
      forwarded := true;
    } else {
      forwarded := false;
    }
  }

  /** The handle range of the HID service the attribute accessors accept. */
  predicate InHidRange(eng: Engine, handle: uint16)
    reads eng, eng.attTbl
    requires eng.Valid()
  {
    eng.Handle(HidInfoVal) <= handle <= eng.Handle(ReportRepRef)
  }

  /** `hidd_set_attr_value`: forwards the write only for a handle inside the HID range. */
  method HiddSetAttrValue(eng: Engine, t: Stack, handle: uint16, value: seq<bv8>)
    requires eng.Valid()
    modifies t
    ensures t.log == old(t.log) + (if InHidRange(eng, handle) then [SetAttrValue(handle, value)] else [])
  {
    if eng.attTbl[Ordinal(HidInfoVal)] <= handle && eng.attTbl[Ordinal(ReportRepRef)] >= handle {
      t.Invoke(SetAttrValue(handle, value));
    }
  }

  /** `hidd_get_attr_value`: reads the value only for a handle inside the HID range. */
  method HiddGetAttrValue(eng: Engine, t: Stack, handle: uint16) returns (value: Option<seq<bv8>>)
    requires eng.Valid()
    modifies t
    ensures value.Some? <==> InHidRange(eng, handle)
    ensures t.log == old(t.log) + (if InHidRange(eng, handle) then [GetAttrValue(handle)] else [])
  {
    if eng.attTbl[Ordinal(HidInfoVal)] <= handle && eng.attTbl[Ordinal(ReportRepRef)] >= handle {
      var v := t.GetValue(handle);
      value := Some(v);
    } else {
      value := None;
    }
  }

  /**
   * `hid_device_register_callbacks`: without a callback nothing happens;
   * otherwise it is installed, the dispatcher is registered with the stack,
   * and the battery application is registered before the HID application.
   */
  method RegisterCallbacks(eng: Engine, t: Stack, haveCallback: bool)
    modifies eng, t
    ensures eng.gattIf == old(eng.gattIf) && eng.enabled == old(eng.enabled)
    ensures eng.clcb == old(eng.clcb) && eng.attTbl == old(eng.attTbl)
    ensures eng.hasCallback == (old(eng.hasCallback) || haveCallback)
    ensures t.log == old(t.log) +
      (if haveCallback then [RegisterGattsCallback, AppRegister(BATTRAY_APP_ID), AppRegister(HIDD_APP_ID)] else [])
  {
    if haveCallback {
      eng.hasCallback := true;
    } else {
      return;
    }
    t.Invoke(RegisterGattsCallback);
    t.Invoke(AppRegister(BATTRAY_APP_ID));
    t.Invoke(AppRegister(HIDD_APP_ID));
  }
}
