/**
 * The HID-over-GATT profile header: identifiers and lengths, the positional
 * index of the HID attribute table, the report mapping and connection-link
 * records, the service engine singleton, and the read-modify-write macros that
 * set one field of the 2-byte consumer-control report.
 */
module HidPrf {
  import opened Types
  import opened KeyDefs

  const HIDD_APP_ID: uint16 := 0x1812
  const BATTRAY_APP_ID: uint16 := 0x180F

  /** Capacity of the connection-link table. */
  const HID_MAX_APPS: nat := 1
  /** Number of report mappings handed to the report registry. */
  const HID_NUM_REPORTS: nat := 9

  const HID_RPT_ID_MOUSE_IN: uint8 := 1
  const HID_RPT_ID_KEY_IN: uint8 := 2
  const HID_RPT_ID_CC_IN: uint8 := 3
  const HID_RPT_ID_LED_OUT: uint8 := 0
  const HID_RPT_ID_FEATURE: uint8 := 0

  const HID_PROTOCOL_MODE_BOOT: uint8 := 0
  const HID_PROTOCOL_MODE_REPORT: uint8 := 1

  const HID_REPORT_TYPE_INPUT: uint8 := 1
  const HID_REPORT_TYPE_OUTPUT: uint8 := 2
  const HID_REPORT_TYPE_FEATURE: uint8 := 3

  const HID_KEYBOARD_IN_RPT_LEN: nat := 8
  const HID_LED_OUT_RPT_LEN: nat := 1
  const HID_MOUSE_IN_RPT_LEN: nat := 5
  const HID_CC_IN_RPT_LEN: nat := 2

  /** Status value of a successful init (equal to the stack's OK status, 0). */
  const ESP_HIDD_INIT_OK: uint8 := 0

  /** The entries of the HID attribute table, in declaration order. */
  datatype AttrIndex =
    | Svc | InclSvc
    | HidInfoChar | HidInfoVal
    | HidCtnlPtChar | HidCtnlPtVal
    | ReportMapChar | ReportMapVal | ReportMapExtRepRef
    | ProtoModeChar | ProtoModeVal
    | ReportMouseInChar | ReportMouseInVal | ReportMouseInCcc | ReportMouseRepRef
    | ReportKeyInChar | ReportKeyInVal | ReportKeyInCcc | ReportKeyInRepRef
    | ReportLedOutChar | ReportLedOutVal | ReportLedOutRepRef
    | ReportCcInChar | ReportCcInVal | ReportCcInCcc | ReportCcInRepRef
    | BootKbInReportChar | BootKbInReportVal | BootKbInReportNtfCfg
    | BootKbOutReportChar | BootKbOutReportVal
    | BootMouseInReportChar | BootMouseInReportVal | BootMouseInReportNtfCfg
    | ReportChar | ReportVal | ReportRepRef

  /** Number of entries of the HID attribute table (`HIDD_LE_IDX_NB`). */
  const HIDD_LE_IDX_NB: nat := 37

  /**
   * The value the C enumeration gives each index: its position in the attribute
   * table, below the entry count, so that the handle array is indexed positionally.
   */
  function Ordinal(a: AttrIndex): (n: nat)
    ensures n < HIDD_LE_IDX_NB
  {
    match a
    case Svc => 0 case InclSvc => 1
    case HidInfoChar => 2 case HidInfoVal => 3
    case HidCtnlPtChar => 4 case HidCtnlPtVal => 5
    case ReportMapChar => 6 case ReportMapVal => 7 case ReportMapExtRepRef => 8
    case ProtoModeChar => 9 case ProtoModeVal => 10
    case ReportMouseInChar => 11 case ReportMouseInVal => 12
    case ReportMouseInCcc => 13 case ReportMouseRepRef => 14
    case ReportKeyInChar => 15 case ReportKeyInVal => 16
    case ReportKeyInCcc => 17 case ReportKeyInRepRef => 18
    case ReportLedOutChar => 19 case ReportLedOutVal => 20 case ReportLedOutRepRef => 21
    case ReportCcInChar => 22 case ReportCcInVal => 23
    case ReportCcInCcc => 24 case ReportCcInRepRef => 25
    case BootKbInReportChar => 26 case BootKbInReportVal => 27 case BootKbInReportNtfCfg => 28
    case BootKbOutReportChar => 29 case BootKbOutReportVal => 30
    case BootMouseInReportChar => 31 case BootMouseInReportVal => 32
    case BootMouseInReportNtfCfg => 33
    case ReportChar => 34 case ReportVal => 35 case ReportRepRef => 36
  }

  /** The attribute at position `n` of the table, following the declaration order. */
  function AttrAt(n: nat): AttrIndex
    requires n < HIDD_LE_IDX_NB
  {
    match n
    case 0 => Svc
    case 1 => InclSvc
    case 2 => HidInfoChar
    case 3 => HidInfoVal
    case 4 => HidCtnlPtChar
    case 5 => HidCtnlPtVal
    case 6 => ReportMapChar
    case 7 => ReportMapVal
    case 8 => ReportMapExtRepRef
    case 9 => ProtoModeChar
    case 10 => ProtoModeVal
    case 11 => ReportMouseInChar
    case 12 => ReportMouseInVal
    case 13 => ReportMouseInCcc
    case 14 => ReportMouseRepRef
    case 15 => ReportKeyInChar
    case 16 => ReportKeyInVal
    case 17 => ReportKeyInCcc
    case 18 => ReportKeyInRepRef
    case 19 => ReportLedOutChar
    case 20 => ReportLedOutVal
    case 21 => ReportLedOutRepRef
    case 22 => ReportCcInChar
    case 23 => ReportCcInVal
    case 24 => ReportCcInCcc
    case 25 => ReportCcInRepRef
    case 26 => BootKbInReportChar
    case 27 => BootKbInReportVal
    case 28 => BootKbInReportNtfCfg
    case 29 => BootKbOutReportChar
    case 30 => BootKbOutReportVal
    case 31 => BootMouseInReportChar
    case 32 => BootMouseInReportVal
    case 33 => BootMouseInReportNtfCfg
    case 34 => ReportChar
    case 35 => ReportVal
    case _ => ReportRepRef
  }

  /**
   * The enumeration numbers the attributes 0..36 consecutively, in declaration
   * order, with no index used twice.
   */
  lemma OrdinalBijection()
    ensures forall a :: AttrAt(Ordinal(a)) == a
    ensures forall a, b :: Ordinal(a) == Ordinal(b) ==> a == b
  {
    forall a ensures AttrAt(Ordinal(a)) == a {
      match a
      case Svc =>
      case InclSvc =>
      case HidInfoChar =>
      case HidInfoVal =>
      case HidCtnlPtChar =>
      case HidCtnlPtVal =>
      case ReportMapChar =>
      case ReportMapVal =>
      case ReportMapExtRepRef =>
      case ProtoModeChar =>
      case ProtoModeVal =>
      case ReportMouseInChar =>
      case ReportMouseInVal =>
      case ReportMouseInCcc =>
      case ReportMouseRepRef =>
      case ReportKeyInChar =>
      case ReportKeyInVal =>
      case ReportKeyInCcc =>
      case ReportKeyInRepRef =>
      case ReportLedOutChar =>
      case ReportLedOutVal =>
      case ReportLedOutRepRef =>
      case ReportCcInChar =>
      case ReportCcInVal =>
      case ReportCcInCcc =>
      case ReportCcInRepRef =>
      case BootKbInReportChar =>
      case BootKbInReportVal =>
      case BootKbInReportNtfCfg =>
      case BootKbOutReportChar =>
      case BootKbOutReportVal =>
      case BootMouseInReportChar =>
      case BootMouseInReportVal =>
      case BootMouseInReportNtfCfg =>
      case ReportChar =>
      case ReportVal =>
      case ReportRepRef =>
    }
  }

  /** Every index 0..36 is the ordinal of its attribute. */
  lemma OrdinalOnto(n: nat)
    requires n < HIDD_LE_IDX_NB
    ensures Ordinal(AttrAt(n)) == n
  {
  }

  /** One entry of the report registry (`HIDReportMapping`). */
  datatype ReportMapping = ReportMapping(handle: uint16, cccdHandle: uint16, id: uint8, reportType: uint8, mode: uint8)

  /** A zero-initialised registry entry. */
  const ZeroMapping := ReportMapping(0, 0, 0, 0, 0)

  /** One slot of the connection-link table (`HIDConnectionLink`, without the fields nothing reads). */
  datatype ConnectionLink = ConnectionLink(inUse: bool, connId: uint16, connected: bool, remoteBda: Bda)

  /** A zeroed connection-link slot. */
  const FreeLink := ConnectionLink(false, 0, false, [0, 0, 0, 0, 0, 0])

  /** The events the profile reports to the application callback, with their parameters. */
  datatype HidEvent =
    | RegFinish(state: uint8)
    | BatteryReg(state: uint8, gattsIf: uint8)
    | DeinitFinish(state: uint8)
    | BleConnect(connId: uint16, remoteBda: Bda)
    | BleDisconnect
    | VendorReportWrite(connId: uint16, reportId: uint16, data: seq<bv8>)

  /** Snapshot of the service engine's state, for stating what an operation changes. */
  datatype EngineState = EngineState(links: seq<ConnectionLink>, gattIf: uint8, enabled: bool,
                                     attTbl: seq<uint16>, hasCallback: bool)

  /** Every field of the engine is zero, as after `memset(&hid_engine, 0, ...)`. */
  ghost predicate IsZeroState(s: EngineState) {
    (forall i :: 0 <= i < |s.links| ==> s.links[i] == FreeLink) &&
    s.gattIf == 0 && !s.enabled && !s.hasCallback &&
    (forall i :: 0 <= i < |s.attTbl| ==> s.attTbl[i] == 0)
  }

  /**
   * The service engine singleton (`HIDServiceEngine hid_engine`): the connection
   * links, the GATT interface, the enabled flag, the attribute handle table and
   * whether an application callback is installed.
   */
  class Engine {
    var clcb: array<ConnectionLink>
    var gattIf: uint8
    var enabled: bool
    var attTbl: array<uint16>
    var hasCallback: bool

    ghost predicate Valid()
      reads this
    {
      clcb.Length == HID_MAX_APPS && attTbl.Length == HIDD_LE_IDX_NB
    }

    ghost function State(): EngineState
      reads this, clcb, attTbl
    {
      EngineState(clcb[..], gattIf, enabled, attTbl[..], hasCallback)
    }

    /** The engine as a static variable starts out zero-initialised. */
    constructor ()
      ensures Valid() && fresh(clcb) && fresh(attTbl)
      ensures IsZeroState(State())
    {
      clcb := new ConnectionLink[HID_MAX_APPS](_ => FreeLink);
      attTbl := new uint16[HIDD_LE_IDX_NB](_ => 0);
      gattIf, enabled, hasCallback := 0, false, false;
    }

    /** The handle the stack assigned to attribute `a` of the HID table. */
    function Handle(a: AttrIndex): uint16
      reads this, attTbl
      requires Valid()
    {
      attTbl[Ordinal(a)]
    }

    /** `memset(&hid_engine, 0, sizeof(HIDServiceEngine))`: zeroes every field in place. */
    method Reset()
      requires Valid()
      modifies this, clcb, attTbl
      ensures Valid() && clcb == old(clcb) && attTbl == old(attTbl)
      ensures IsZeroState(State())
    {
      forall i | 0 <= i < clcb.Length {
        clcb[i] := FreeLink;
      }
      forall i | 0 <= i < attTbl.Length {
        attTbl[i] := 0;
      }
      gattIf, enabled, hasCallback := 0, false, false;
    }
  }

  // The consumer-control report macros. Each clears one field of s[0] or s[1]
  // with a mask and then ORs the new field value in: two steps, in place.

  /** `HID_CC_RPT_SET_SELECTION`: bits 4-5 of s[1] become x & 3; every other bit is kept. */
  method SetSelection(s: array<bv8>, x: bv8)
    requires s.Length >= 2
    modifies s
    ensures s[0] == old(s[0]) && forall i :: 2 <= i < s.Length ==> s[i] == old(s[i])
    ensures s[1] & 0xCF == old(s[1]) & 0xCF
    ensures s[1] & 0x30 == (x & 0x03) << 4
  {
    s[1] := s[1] & HID_CC_RPT_SELECTION_BITS;
    s[1] := s[1] | ((x & 0x03) << 4);
  }

  /**
   * `HID_CC_RPT_SET_BUTTON`: keeps the high nibble of s[1] and ORs x in, so the
   * low nibble becomes x's; for x <= 15 the high nibble is exactly the old one.
   */
  method SetButton(s: array<bv8>, x: bv8)
    requires s.Length >= 2
    modifies s
    ensures s[0] == old(s[0]) && forall i :: 2 <= i < s.Length ==> s[i] == old(s[i])
    ensures s[1] & 0x0F == x & 0x0F
    ensures s[1] & 0xF0 == (old(s[1]) & 0xF0) | (x & 0xF0)
    ensures x <= 15 ==> s[1] & 0x0F == x && s[1] & 0xF0 == old(s[1]) & 0xF0
  {
    s[1] := s[1] & HID_CC_RPT_BUTTON_BITS;
    s[1] := s[1] | x;
  }

  /** `HID_CC_RPT_SET_NUMERIC`: s[0] becomes x; the mask step before has no effect. */
  method SetNumeric(s: array<bv8>, x: bv8)
    requires s.Length >= 2
    modifies s
    ensures s[0] == x
    ensures forall i :: 1 <= i < s.Length ==> s[i] == old(s[i])
  {
    s[0] := s[0] & HID_CC_RPT_NUMERIC_BITS;
    s[0] := x;
  }

  /** `HID_CC_RPT_SET_CHANNEL`: bits 4-5 of s[0] become x & 3; every other bit is kept. */
  method SetChannel(s: array<bv8>, x: bv8)
    requires s.Length >= 2
    modifies s
    ensures forall i :: 1 <= i < s.Length ==> s[i] == old(s[i])
    ensures s[0] & 0xCF == old(s[0]) & 0xCF
    ensures s[0] & 0x30 == (x & 0x03) << 4
  {
    s[0] := s[0] & HID_CC_RPT_CHANNEL_BITS;
    s[0] := s[0] | ((x & 0x03) << 4);
  }

  /** `HID_CC_RPT_SET_VOLUME_UP`: bits 6-7 of s[0] become 01; bits 0-5 and s[1] are kept. */
  method SetVolumeUp(s: array<bv8>)
    requires s.Length >= 2
    modifies s
    ensures forall i :: 1 <= i < s.Length ==> s[i] == old(s[i])
    ensures s[0] & 0x3F == old(s[0]) & 0x3F
    ensures s[0] & 0xC0 == 0x40
  {
    s[0] := s[0] & HID_CC_RPT_VOLUME_BITS;
    s[0] := s[0] | 0x40;
  }

  /** `HID_CC_RPT_SET_VOLUME_DOWN`: bits 6-7 of s[0] become 10; bits 0-5 and s[1] are kept. */
  method SetVolumeDown(s: array<bv8>)
    requires s.Length >= 2
    modifies s
    ensures forall i :: 1 <= i < s.Length ==> s[i] == old(s[i])
    ensures s[0] & 0x3F == old(s[0]) & 0x3F
    ensures s[0] & 0xC0 == 0x80
  {
    s[0] := s[0] & HID_CC_RPT_VOLUME_BITS;
    s[0] := s[0] | 0x80;
  }

  /** The report lengths leave room for 8 - 2 = 6 keys; Boot mode is 0 and Report mode 1. */
  lemma ReportLengths()
    ensures HID_KEYBOARD_IN_RPT_LEN - 2 == 6
    ensures HID_MOUSE_IN_RPT_LEN == 5 && HID_CC_IN_RPT_LEN == 2
    ensures HID_PROTOCOL_MODE_BOOT == 0 && HID_PROTOCOL_MODE_REPORT == 1
  {
  }
}
