/**
 * The application's Bluetooth glue: the link flags (`hid_conn_id`,
 * `sec_conn`) and the two statics the input tasks keep, driven by the HID
 * profile's events and by the GAP security and advertising events.
 */
module BtConfig {
  import opened Types
  import opened HidPrf
  import opened Transport

  const HIDD_DEVICE_NAME: string := "BT HID Macropad"

  /** The statics of the Bluetooth glue, shared with the input tasks. */
  class BtState {
    var hidConnId: uint16
    var secConn: bool
    var buttonToggleMask: bv16
    var lastCounter: uint16

    constructor ()
      ensures hidConnId == 0 && !secConn && buttonToggleMask == 0 && lastCounter == 0
    {
      hidConnId, secConn, buttonToggleMask, lastCounter := 0, false, 0, 0;
    }
  }

  /** The GAP events the handler distinguishes, with the parameters it reads. */
  datatype GapEvent =
    | AdvDataSetComplete
    | SecurityRequest(bda: Bda)
    | AuthComplete(bda: Bda, success: bool, failReason: uint8)
    | OtherGap

  /** An event reaching the glue from either side. */
  datatype LinkEvent = HidEv(hid: HidEvent) | GapEv(gap: GapEvent)

  /** The effect of one event on `sec_conn`: a disconnection clears it, any authentication completion sets it. */
  function SecConnAfter(sec: bool, ev: LinkEvent): bool {
    match ev
    case HidEv(BleDisconnect) => false
    case GapEv(AuthComplete(_, _, _)) => true
    case _ => sec
  }

  /** `sec_conn` after a sequence of events. */
  function SecConnAfterAll(sec: bool, evs: seq<LinkEvent>): bool
    decreases |evs|
  {
    if |evs| == 0 then sec else SecConnAfterAll(SecConnAfter(sec, evs[0]), evs[1..])
  }

  predicate Opens(ev: LinkEvent) {
    ev.GapEv? && ev.gap.AuthComplete?
  }

  predicate Closes(ev: LinkEvent) {
    ev.HidEv? && ev.hid.BleDisconnect?
  }

  /**
   * `sec_conn` holds after a run of events exactly when some authentication
   * completion, successful or not, is followed by no disconnection, or when it
   * held before and no disconnection happened.
   */
  lemma {:induction false} SecConnHistory(sec: bool, evs: seq<LinkEvent>)
    ensures SecConnAfterAll(sec, evs) <==>
      (exists i :: 0 <= i < |evs| && Opens(evs[i]) && forall j :: i < j < |evs| ==> !Closes(evs[j])) ||
      (sec && forall j :: 0 <= j < |evs| ==> !Closes(evs[j]))
    decreases |evs|
  {
    if |evs| > 0 {
      var rest := evs[1..];
      SecConnHistory(SecConnAfter(sec, evs[0]), rest);
      assert forall j :: 0 < j < |evs| ==> evs[j] == rest[j - 1];
      if SecConnAfterAll(sec, evs) {
        if i :| 0 <= i < |rest| && Opens(rest[i]) && forall j :: i < j < |rest| ==> !Closes(rest[j]) {
          assert Opens(evs[i + 1]) && forall j :: i + 1 < j < |evs| ==> !Closes(evs[j]);
        } else {
          assert SecConnAfter(sec, evs[0]) && forall j :: 0 <= j < |rest| ==> !Closes(rest[j]);
          if Opens(evs[0]) {
            assert forall j :: 0 < j < |evs| ==> !Closes(evs[j]);
          }
        }
      } else {
        forall i | 0 <= i < |evs| && Opens(evs[i])
          ensures exists j :: i < j < |evs| && Closes(evs[j])
        {
          if i == 0 {
            assert SecConnAfter(sec, evs[0]);
          } else {
            assert Opens(rest[i - 1]);
          }
        }
      }
    }
  }

  /** A failed pairing still marks the link secure, as written. */
  lemma FailedPairingMarksSecure(sec: bool, bda: Bda, reason: uint8)
    ensures SecConnAfter(sec, GapEv(AuthComplete(bda, false, reason)))
  {
  }

  /** The calls `hidd_event_callback` makes for an event. */
  function HidEventCalls(ev: HidEvent): seq<Call> {
    match ev
    case RegFinish(state) => if state == ESP_HIDD_INIT_OK then [SetDeviceName(HIDD_DEVICE_NAME), ConfigAdvData] else []
    case BleDisconnect => [StartAdvertising]
    case _ => []
  }

  /**
   * `hidd_event_callback`: a connection records its id and leaves `sec_conn`;
   * a disconnection clears `sec_conn` and restarts advertising; a successful
   * registration sets the device name and configures advertising data.
   */
  method HiddEventCallback(bt: BtState, t: Stack, ev: HidEvent)
    modifies bt, t
    ensures bt.hidConnId == (if ev.BleConnect? then ev.connId else old(bt.hidConnId))
    ensures bt.secConn == SecConnAfter(old(bt.secConn), HidEv(ev))
    ensures bt.buttonToggleMask == old(bt.buttonToggleMask) && bt.lastCounter == old(bt.lastCounter)
    ensures t.log == old(t.log) + HidEventCalls(ev)
  {
    match ev
    case RegFinish(state) =>
      if state == ESP_HIDD_INIT_OK {
        t.Invoke(SetDeviceName(HIDD_DEVICE_NAME));
        t.Invoke(ConfigAdvData);
      }
    case BatteryReg(_, _) =>
    case DeinitFinish(_) =>
    case BleConnect(connId, _) =>
      bt.hidConnId := connId;
    case BleDisconnect =>
      bt.secConn := false;
      t.Invoke(StartAdvertising);
    case VendorReportWrite(_, _, _) =>
  }

  /** The calls `gap_event_handler` makes for an event. */
  function GapEventCalls(ev: GapEvent): seq<Call> {
    match ev
    case AdvDataSetComplete => [StartAdvertising]
    case SecurityRequest(bda) => [SecurityRsp(bda, true)]
    case _ => []
  }

  /**
   * `gap_event_handler`: advertising starts once its data is set, every
   * security request is accepted, and authentication completion sets
   * `sec_conn` whatever its outcome.
   */
  method GapEventHandler(bt: BtState, t: Stack, ev: GapEvent)
    modifies bt, t
    ensures bt.secConn == SecConnAfter(old(bt.secConn), GapEv(ev))
    ensures bt.hidConnId == old(bt.hidConnId)
    ensures bt.buttonToggleMask == old(bt.buttonToggleMask) && bt.lastCounter == old(bt.lastCounter)
    ensures t.log == old(t.log) + GapEventCalls(ev)
  {
    match ev
    case AdvDataSetComplete =>
      t.Invoke(StartAdvertising);
    case SecurityRequest(bda) =>
      t.Invoke(SecurityRsp(bda, true));
    case AuthComplete(_, _, _) =>
      bt.secConn := true;
    case OtherGap =>
  }
}
