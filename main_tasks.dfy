/**
 * One iteration of each input task: the encoder task's volume press/release
 * state machine, the keyboard task's key collection and mute edge detection,
 * and the keyboard-mode task's switch between Bluetooth and USB scanning.
 * Hardware reads are parameters; the infinite loops and delays are the
 * scheduler's business, and only the computed delay is returned.
 */
module MainTasks {
  import opened Types
  import opened KeyDefs
  import opened HidPrf
  import opened Transport
  import opened HidDev
  import opened BtConfig
  import opened MainH

  // ---------------------------------------------------------------- encoder

  /** How the encoder count moved since the previous poll. */
  datatype Direction = Same | Up | Down

  function DirectionOf(last: uint16, current: uint16): Direction {
    if current == last then Same else if current > last then Up else Down
  }

  /** `counter_difference`: the distance moved, stored in a `uint8_t` and so kept to its low 8 bits. */
  function CounterDifference(last: uint16, current: uint16): (d: uint8)
    ensures current == last ==> d == 0
    ensures current > last ==> d == (current - last) % 0x100
    ensures current < last ==> d == (last - current) % 0x100
  {
    if current == last then 0
    else if current > last then ToUint8(current - last)
    else ToUint8(last - current)
  }

  /** One consumer-control send: the usage and whether it is a press or a release. */
  datatype ConsumerSend = ConsumerSend(cmd: bv8, pressed: bool)

  predicate IsVolMode(mode: int) {
    mode == VOL_UP || mode == VOL_DOWN || mode == VOL_NONE
  }

  /** The `vol_mode` state machine: the next mode and the sends, in order. */
  function VolumeTransition(mode: int, dir: Direction): (int, seq<ConsumerSend>)
    requires IsVolMode(mode)
  {
    match dir
    case Same =>
      if mode == VOL_NONE then (VOL_NONE, [])
      else if mode == VOL_UP then (VOL_NONE, [ConsumerSend(HID_CONSUMER_VOLUME_UP, false)])
      else (VOL_NONE, [ConsumerSend(HID_CONSUMER_VOLUME_DOWN, false)])
    case Up =>
      if mode == VOL_UP then (VOL_UP, [])
      else if mode == VOL_NONE then (VOL_UP, [ConsumerSend(HID_CONSUMER_VOLUME_UP, true)])
      else (VOL_UP, [ConsumerSend(HID_CONSUMER_VOLUME_DOWN, false), ConsumerSend(HID_CONSUMER_VOLUME_UP, true)])
    case Down =>
      if mode == VOL_DOWN then (VOL_DOWN, [])
      else if mode == VOL_NONE then (VOL_DOWN, [ConsumerSend(HID_CONSUMER_VOLUME_DOWN, true)])
      else (VOL_DOWN, [ConsumerSend(HID_CONSUMER_VOLUME_UP, false), ConsumerSend(HID_CONSUMER_VOLUME_DOWN, true)])
  }

  /** The volume key the host has been told is held in a mode. */
  function HeldKey(mode: int): Option<bv8> {
    if mode == VOL_UP then Some(HID_CONSUMER_VOLUME_UP)
    else if mode == VOL_DOWN then Some(HID_CONSUMER_VOLUME_DOWN)
    else None
  }

  /**
   * The host's view of a run of sends, starting from the held key `held`: the
   * key held afterwards, or None if a press arrives while a key is held or a
   * release names a key that is not held.
   */
  function Replay(held: Option<bv8>, sends: seq<ConsumerSend>): Option<Option<bv8>>
    decreases |sends|
  {
    if |sends| == 0 then Some(held)
    else if sends[0].pressed then
      if held.None? then Replay(Some(sends[0].cmd), sends[1..]) else None
    else
      if held == Some(sends[0].cmd) then Replay(None, sends[1..]) else None
  }

  /** Replaying two runs in sequence is replaying their concatenation. */
  lemma {:induction false} ReplayAppend(held: Option<bv8>, a: seq<ConsumerSend>, b: seq<ConsumerSend>)
    ensures Replay(held, a + b) == (match Replay(held, a) case None => None case Some(h) => Replay(h, b))
    decreases |a|
  {
    if |a| > 0 {
      assert (a + b)[0] == a[0] && (a + b)[1..] == a[1..] + b;
      if a[0].pressed {
        if held.None? {
          ReplayAppend(Some(a[0].cmd), a[1..], b);
        }
      } else if held == Some(a[0].cmd) {
        ReplayAppend(None, a[1..], b);
      }
    } else {
      assert a + b == b;
    }
  }

  /**
   * Every step of the state machine is well bracketed: it releases exactly the
   * key the host holds before pressing another, and leaves the host holding
   * the key of the new mode. The new mode follows the direction alone.
   */
  lemma VolumeTransitionBalanced(mode: int, dir: Direction)
    requires IsVolMode(mode)
    ensures var (mode', sends) := VolumeTransition(mode, dir);
      && Replay(HeldKey(mode), sends) == Some(HeldKey(mode'))
      && mode' == (match dir case Same => VOL_NONE case Up => VOL_UP case Down => VOL_DOWN)
      && |sends| <= 2
  {
    var r := VolumeTransition(mode, dir);
    if |r.1| == 2 {
      var press := r.1[1];
      assert r.1[1..] == [press] && [press][1..] == [];
      assert Replay(None, [press]) == Replay(Some(press.cmd), []);
    } else if |r.1| == 1 {
      assert r.1[1..] == [];
    }
  }

  /** The mode and the sends of a run of encoder polls. */
  function RunVolume(mode: int, dirs: seq<Direction>): (r: (int, seq<ConsumerSend>))
    requires IsVolMode(mode)
    ensures IsVolMode(r.0)
    decreases |dirs|
  {
    if |dirs| == 0 then (mode, [])
    else
      var (m1, s1) := VolumeTransition(mode, dirs[0]);
      var (m2, s2) := RunVolume(m1, dirs[1..]);
      (m2, s1 + s2)
  }

  /**
   * Over any run of polls the sends stay well bracketed: the host never sees
   * two volume keys held at once nor a release of a key it does not hold.
   */
  lemma {:induction false} RunVolumeBalanced(mode: int, dirs: seq<Direction>)
    requires IsVolMode(mode)
    ensures Replay(HeldKey(mode), RunVolume(mode, dirs).1) == Some(HeldKey(RunVolume(mode, dirs).0))
    decreases |dirs|
  {
    if |dirs| > 0 {
      var (m1, s1) := VolumeTransition(mode, dirs[0]);
      var (m2, s2) := RunVolume(m1, dirs[1..]);
      VolumeTransitionBalanced(mode, dirs[0]);
      RunVolumeBalanced(m1, dirs[1..]);
      ReplayAppend(HeldKey(mode), s1, s2);
    }
  }

  /** The notifications a run of consumer sends produces. */
  function ConsumerCalls(reg: Registry, gattIf: uint8, connId: uint16, sends: seq<ConsumerSend>): seq<Call>
    reads reg, reg.tbl
    requires reg.Valid()
    decreases |sends|
  {
    if |sends| == 0 then []
    else reg.NotifyCalls(gattIf, connId, HID_RPT_ID_CC_IN, HID_REPORT_TYPE_INPUT,
                         ConsumerPayload(sends[0].cmd, sends[0].pressed))
         + ConsumerCalls(reg, gattIf, connId, sends[1..])
  }

  /** The telemetry frames of one encoder poll, sent only in the silent-log build. */
  function EncoderFrames(telemetry: bool, rotSwLevel: uint8, dir: Direction, diff: uint8): seq<Call> {
    if telemetry then
      [UartWrite(Frame(ROT_SW_UPDATE, rotSwLevel)),
       UartWrite(Frame(if dir == Down then ROT_POS_NEGATIVE else ROT_POS_POSITIVE, diff))]
    else []
  }

  /** Sending is allowed only over a secured link while in Bluetooth mode. */
  function Gated(secConn: bool, currentKbMode: int): bool {
    secConn && currentKbMode == KB_BT
  }

  /** The encoder task's own state. */
  class EncoderTask {
    var volMode: int

    ghost predicate Valid()
      reads this
    {
      IsVolMode(volMode)
    }

    constructor ()
      ensures Valid() && volMode == VOL_NONE
    {
      volMode := VOL_NONE;
    }
  }

  /** A single consumer send produces the notifications of its one report. */
  lemma ConsumerCallsOne(reg: Registry, gattIf: uint8, connId: uint16, a: ConsumerSend)
    requires reg.Valid()
    ensures ConsumerCalls(reg, gattIf, connId, [a]) ==
      reg.NotifyCalls(gattIf, connId, HID_RPT_ID_CC_IN, HID_REPORT_TYPE_INPUT, ConsumerPayload(a.cmd, a.pressed))
  {
    assert [a][1..] == [];
  }

  /** The "count unchanged" branch: a held volume key is released, and the mode returns to none. */
  method ReleaseVolume(enc: EncoderTask, eng: Engine, reg: Registry, t: Stack, connId: uint16, gated: bool)
    requires enc.Valid() && reg.Valid()
    modifies enc, t
    ensures enc.volMode == VolumeTransition(old(enc.volMode), Same).0
    ensures t.log == old(t.log) +
      (if gated then ConsumerCalls(reg, eng.gattIf, connId, VolumeTransition(old(enc.volMode), Same).1) else [])
  {
    if enc.volMode != VOL_NONE {
      if enc.volMode == VOL_UP {
        ConsumerCallsOne(reg, eng.gattIf, connId, ConsumerSend(HID_CONSUMER_VOLUME_UP, false));
        if gated {
          SendConsumerValue(eng, reg, t, connId, HID_CONSUMER_VOLUME_UP, false);
        }
      } else {
        ConsumerCallsOne(reg, eng.gattIf, connId, ConsumerSend(HID_CONSUMER_VOLUME_DOWN, false));
        if gated {
          SendConsumerValue(eng, reg, t, connId, HID_CONSUMER_VOLUME_DOWN, false);
        }
      }
      enc.volMode := VOL_NONE;
    }
  }

  /** A reversal: the held key is released and the other one pressed. */
  method ReleaseThenPress(eng: Engine, reg: Registry, t: Stack, connId: uint16, releaseKey: bv8, pressKey: bv8)
    requires reg.Valid()
    modifies t
    ensures t.log == old(t.log) +
      ConsumerCalls(reg, eng.gattIf, connId, [ConsumerSend(releaseKey, false), ConsumerSend(pressKey, true)])
  {
    var press := ConsumerSend(pressKey, true);
    ConsumerCallsOne(reg, eng.gattIf, connId, press);
    assert [ConsumerSend(releaseKey, false), press][1..] == [press];
    SendConsumerValue(eng, reg, t, connId, releaseKey, false);
    SendConsumerValue(eng, reg, t, connId, pressKey, true);
  }

  /**
   * The "count moved" branches: unless the mode already points that way, the
   * opposite key is released if held and this direction's key is pressed.
   */
  method TurnVolume(enc: EncoderTask, eng: Engine, reg: Registry, t: Stack, connId: uint16, gated: bool, up: bool)
    requires enc.Valid() && reg.Valid()
    modifies enc, t
    ensures var dir := if up then Up else Down;
      && enc.volMode == VolumeTransition(old(enc.volMode), dir).0
      && t.log == old(t.log) +
           (if gated then ConsumerCalls(reg, eng.gattIf, connId, VolumeTransition(old(enc.volMode), dir).1) else [])
  {
    var target := if up then VOL_UP else VOL_DOWN;
    var pressKey := if up then HID_CONSUMER_VOLUME_UP else HID_CONSUMER_VOLUME_DOWN;
    var releaseKey := if up then HID_CONSUMER_VOLUME_DOWN else HID_CONSUMER_VOLUME_UP;
    ghost var press := ConsumerSend(pressKey, true);
    if enc.volMode != target {
      if enc.volMode == VOL_NONE {
        ConsumerCallsOne(reg, eng.gattIf, connId, press);
        if gated {
          SendConsumerValue(eng, reg, t, connId, pressKey, true);
        }
      } else {
        if gated {
          ReleaseThenPress(eng, reg, t, connId, releaseKey, pressKey);
        }
      }
      enc.volMode := target;
    }
  }

  /**
   * The counter half of a poll: the switch frame, then the new count is
   * recorded, its 8-bit distance computed and, in the silent-log build,
   * reported with the sign of the move.
   */
  method TrackCounter(bt: BtState, t: Stack, currentCounter: uint16, rotSwLevel: uint8, telemetry: bool)
    returns (counterDifference: uint8)
    modifies bt, t
    ensures counterDifference == CounterDifference(old(bt.lastCounter), currentCounter)
    ensures bt.lastCounter == currentCounter
    ensures bt.hidConnId == old(bt.hidConnId) && bt.secConn == old(bt.secConn)
    ensures bt.buttonToggleMask == old(bt.buttonToggleMask)
    ensures t.log == old(t.log) +
      EncoderFrames(telemetry, rotSwLevel, DirectionOf(old(bt.lastCounter), currentCounter), counterDifference)
  {
    if telemetry {
      TxInterMcu(t, ROT_SW_UPDATE, rotSwLevel);
    }
    if currentCounter == bt.lastCounter {
      bt.lastCounter := currentCounter;
      counterDifference := 0;
      if telemetry {
        TxInterMcu(t, ROT_POS_POSITIVE, counterDifference);
      }
    } else if currentCounter > bt.lastCounter {
      counterDifference := ToUint8(currentCounter - bt.lastCounter);
      bt.lastCounter := currentCounter;
      if telemetry {
        TxInterMcu(t, ROT_POS_POSITIVE, counterDifference);
      }
    } else {
      counterDifference := ToUint8(bt.lastCounter - currentCounter);
      bt.lastCounter := currentCounter;
      if telemetry {
        TxInterMcu(t, ROT_POS_NEGATIVE, counterDifference);
      }
    }
  }

  /**
   * One poll of `encoder_task`: the volume state machine steps on the
   * direction of the count, sends only when gated, records the count, and
   * returns the delay `max(counter_difference, 10)` in milliseconds. The
   * counter half and the volume half of each branch run in the source's order.
   */
  method EncoderStep(enc: EncoderTask, bt: BtState, modes: Modes, eng: Engine, reg: Registry, t: Stack,
                     currentCounter: uint16, rotSwLevel: uint8, telemetry: bool)
    returns (delayMs: nat)
    requires enc.Valid() && reg.Valid()
    modifies enc, bt, t
    ensures enc.Valid()
    ensures bt.lastCounter == currentCounter
    ensures bt.hidConnId == old(bt.hidConnId) && bt.secConn == old(bt.secConn)
    ensures bt.buttonToggleMask == old(bt.buttonToggleMask)
    ensures var dir := DirectionOf(old(bt.lastCounter), currentCounter);
      var step := VolumeTransition(old(enc.volMode), dir);
      var diff := CounterDifference(old(bt.lastCounter), currentCounter);
      && enc.volMode == step.0
      && t.log == old(t.log) + EncoderFrames(telemetry, rotSwLevel, dir, diff) +
           (if Gated(bt.secConn, modes.currentKbMode) then ConsumerCalls(reg, eng.gattIf, bt.hidConnId, step.1) else [])
      && delayMs == (if diff < 10 then 10 else diff)
  {
    var dir := DirectionOf(bt.lastCounter, currentCounter);
    var counterDifference := TrackCounter(bt, t, currentCounter, rotSwLevel, telemetry);
    var gated := bt.secConn && modes.currentKbMode == KB_BT;
    if dir == Same {
      ReleaseVolume(enc, eng, reg, t, bt.hidConnId, gated);
    } else {
      TurnVolume(enc, eng, reg, t, bt.hidConnId, gated, dir == Up);
    }
    delayMs := if counterDifference < 10 then 10 else counterDifference;
  }

  // ---------------------------------------------------------------- keyboard

  /** Buttons 1..9: the key each sends, and the status bit each is read from. */
  const NUM_KEY_BUTTONS: nat := 9
  const KeyCodes: seq<bv8> := [HID_KEY_1, HID_KEY_2, HID_KEY_3, HID_KEY_4, HID_KEY_5,
                               HID_KEY_6, HID_KEY_7, HID_KEY_8, HID_KEY_9]
  /** Button 10, the rotary switch, and its bit in the status word and in `buttonToggleMask`. */
  const MUTE_BIT: bv16 := 0x0400
  /** Key slots of a keyboard report. */
  const MAX_KEYS: nat := HID_KEYBOARD_IN_RPT_LEN - 2
  /** Capacity of `key_values`. */
  const KEY_VALUES_LEN: nat := 10

  /** Whether each of buttons 1..9 is pressed: bit `i + 1` of the status word for button `i + 1`. */
  function ButtonBits(status: bv16): (bits: seq<bool>)
    ensures |bits| == NUM_KEY_BUTTONS
  {
    [status & 0x0002 != 0, status & 0x0004 != 0, status & 0x0008 != 0,
     status & 0x0010 != 0, status & 0x0020 != 0, status & 0x0040 != 0,
     status & 0x0080 != 0, status & 0x0100 != 0, status & 0x0200 != 0]
  }

  /** The pressed buttons among the first `j`, as positions 0..j-1 in the order they are tested. */
  function PressedButtons(bits: seq<bool>, j: nat): (b: seq<nat>)
    requires j <= |bits|
    ensures |b| <= j
    ensures forall k :: 0 <= k < |b| ==> b[k] < j
  {
    if j == 0 then []
    else PressedButtons(bits, j - 1) + (if bits[j - 1] then [j - 1] else [])
  }

  /**
   * The collected positions are strictly ascending and contain a position
   * exactly when that button is pressed.
   */
  lemma {:induction false} PressedButtonsFacts(bits: seq<bool>, j: nat)
    requires j <= |bits|
    ensures forall k, l :: 0 <= k < l < |PressedButtons(bits, j)| ==>
      PressedButtons(bits, j)[k] < PressedButtons(bits, j)[l]
    ensures forall i :: 0 <= i < j ==> (i in PressedButtons(bits, j) <==> bits[i])
  {
    if j > 0 {
      PressedButtonsFacts(bits, j - 1);
    }
  }

  /** The keys of a list of button positions. */
  function KeysOf(buttons: seq<nat>): (keys: seq<bv8>)
    requires forall k :: 0 <= k < |buttons| ==> buttons[k] < NUM_KEY_BUTTONS
    ensures |keys| == |buttons|
    ensures forall k :: 0 <= k < |buttons| ==> keys[k] == KeyCodes[buttons[k]]
  {
    if |buttons| == 0 then [] else [KeyCodes[buttons[0]]] + KeysOf(buttons[1..])
  }

  /** The keys collected after testing the first `j` buttons. */
  function Collected(bits: seq<bool>, j: nat): (keys: seq<bv8>)
    requires j <= |bits| && j <= NUM_KEY_BUTTONS
    ensures |keys| <= j
  {
    if j == 0 then [] else Collected(bits, j - 1) + (if bits[j - 1] then [KeyCodes[j - 1]] else [])
  }

  /** The keys the keyboard task collects for a status word. */
  function PressedKeys(status: bv16): seq<bv8> {
    Collected(ButtonBits(status), NUM_KEY_BUTTONS)
  }

  /** The collected keys are those of the pressed buttons, in button order. */
  lemma {:induction false} CollectedPressed(bits: seq<bool>, j: nat)
    requires j <= |bits| && j <= NUM_KEY_BUTTONS
    ensures Collected(bits, j) == KeysOf(PressedButtons(bits, j))
  {
    if j > 0 {
      CollectedPressed(bits, j - 1);
    }
  }

  /** The report keeps the first six collected keys. */
  function ClampKeys(keys: seq<bv8>): (r: seq<bv8>)
    ensures |r| <= MAX_KEYS
    ensures |keys| <= MAX_KEYS ==> r == keys
    ensures |keys| > MAX_KEYS ==> r == keys[..MAX_KEYS]
  {
    if |keys| > MAX_KEYS then keys[..MAX_KEYS] else keys
  }

  /** At most nine keys are collected, and the report always fits, so the send never rejects it. */
  lemma PressedKeysBounds(status: bv16)
    ensures |PressedKeys(status)| <= NUM_KEY_BUTTONS
    ensures |ClampKeys(PressedKeys(status))| <= MAX_KEYS
  {
  }

  /** With no button pressed among the first `j`, nothing is collected. */
  lemma {:induction false} NoneCollected(bits: seq<bool>, j: nat)
    requires j <= |bits| && j <= NUM_KEY_BUTTONS
    requires forall i :: 0 <= i < j ==> !bits[i]
    ensures Collected(bits, j) == []
  {
    if j > 0 {
      NoneCollected(bits, j - 1);
    }
  }

  /** With none of buttons 1..9 pressed the keyboard report is all zeros. */
  lemma NoButtonsNoKeys(status: bv16)
    requires status & 0x03FE == 0
    ensures KeyboardPayload(0, ClampKeys(PressedKeys(status))) == [0, 0, 0, 0, 0, 0, 0, 0]
  {
    var bits := ButtonBits(status);
    forall i | 0 <= i < NUM_KEY_BUTTONS ensures !bits[i] {
      NoButtonBit(status, i);
    }
    NoneCollected(bits, NUM_KEY_BUTTONS);
    assert ClampKeys(PressedKeys(status)) == [];
  }

  /** Each of buttons 1..9 lies inside the mask 0x03FE. */
  lemma NoButtonBit(status: bv16, i: nat)
    requires status & 0x03FE == 0 && i < NUM_KEY_BUTTONS
    ensures !ButtonBits(status)[i]
  {
    var m: bv16 := [0x0002, 0x0004, 0x0008, 0x0010, 0x0020, 0x0040, 0x0080, 0x0100, 0x0200][i];
    assert m & 0x03FE == m by {
      assert i in {0, 1, 2, 3, 4, 5, 6, 7, 8};
    }
    assert status & m == (status & 0x03FE) & m;
  }

  /**
   * Button 3 is read from bit 3, which a scan never sets (the pin behind
   * position 2 drives bit 2 instead), so `HID_KEY_3` is never collected.
   */
  lemma ButtonThreeNeverSent(p: PinLevels)
    ensures 2 !in PressedButtons(ButtonBits(ButtonStatus(p)), NUM_KEY_BUTTONS)
  {
    PressedButtonsFacts(ButtonBits(ButtonStatus(p)), NUM_KEY_BUTTONS);
  }

  /** Different buttons send different keys. */
  lemma KeyCodesDistinct(i: nat, i': nat)
    requires i < NUM_KEY_BUTTONS && i' < NUM_KEY_BUTTONS && i != i'
    ensures KeyCodes[i] != KeyCodes[i']
  {
    assert i in {0, 1, 2, 3, 4, 5, 6, 7, 8} && i' in {0, 1, 2, 3, 4, 5, 6, 7, 8};
  }

  /** While at most six buttons are pressed, button `i`'s key is in the report exactly when it is pressed. */
  lemma {:induction false} PressedKeysMembership(status: bv16, i: nat)
    requires i < NUM_KEY_BUTTONS
    requires |PressedKeys(status)| <= MAX_KEYS
    ensures KeyCodes[i] in ClampKeys(PressedKeys(status)) <==> ButtonBits(status)[i]
  {
    var bits := ButtonBits(status);
    PressedButtonsFacts(bits, NUM_KEY_BUTTONS);
    CollectedPressed(bits, NUM_KEY_BUTTONS);
    var b := PressedButtons(bits, NUM_KEY_BUTTONS);
    var keys := PressedKeys(status);
    if bits[i] {
      var k :| 0 <= k < |b| && b[k] == i;
      assert keys[k] == KeyCodes[i];
    } else {
      forall k | 0 <= k < |keys| ensures keys[k] != KeyCodes[i] {
        assert b[k] in b;
        KeyCodesDistinct(b[k], i);
      }
    }
  }

  /** `if (pressed) key_values[numKeysPressed++] = key;` */
  method PushIf(keyValues: array<bv8>, n: nat, pressed: bool, key: bv8) returns (n': nat)
    requires n < keyValues.Length
    modifies keyValues
    ensures n' == if pressed then n + 1 else n
    ensures keyValues[..n'] == old(keyValues[..n]) + (if pressed then [key] else [])
  {
    n' := n;
    if pressed {
      keyValues[n] := key;
      n' := n + 1;
    }
  }

  /** The key collection of `keyboard_task`: one test per button, in order. */
  method CollectKeys(buttonStatus: bv16) returns (keys: seq<bv8>)
    ensures keys == PressedKeys(buttonStatus)
  {
    ghost var bits := ButtonBits(buttonStatus);
    var keyValues := new bv8[KEY_VALUES_LEN];
    var numKeysPressed := 0;
    numKeysPressed := PushIf(keyValues, numKeysPressed, buttonStatus & (1 << 1) != 0, HID_KEY_1);
    assert numKeysPressed <= 1;
    assert keyValues[..numKeysPressed] == Collected(bits, 1);
    numKeysPressed := PushIf(keyValues, numKeysPressed, buttonStatus & (1 << 2) != 0, HID_KEY_2);
    assert numKeysPressed <= 2;
    assert keyValues[..numKeysPressed] == Collected(bits, 2);
    numKeysPressed := PushIf(keyValues, numKeysPressed, buttonStatus & (1 << 3) != 0, HID_KEY_3);
    assert numKeysPressed <= 3;
    assert keyValues[..numKeysPressed] == Collected(bits, 3);
    numKeysPressed := PushIf(keyValues, numKeysPressed, buttonStatus & (1 << 4) != 0, HID_KEY_4);
    assert numKeysPressed <= 4;
    assert keyValues[..numKeysPressed] == Collected(bits, 4);
    numKeysPressed := PushIf(keyValues, numKeysPressed, buttonStatus & (1 << 5) != 0, HID_KEY_5);
    assert numKeysPressed <= 5;
    assert keyValues[..numKeysPressed] == Collected(bits, 5);
    numKeysPressed := PushIf(keyValues, numKeysPressed, buttonStatus & (1 << 6) != 0, HID_KEY_6);
    assert numKeysPressed <= 6;
    assert keyValues[..numKeysPressed] == Collected(bits, 6);
    numKeysPressed := PushIf(keyValues, numKeysPressed, buttonStatus & (1 << 7) != 0, HID_KEY_7);
    assert numKeysPressed <= 7;
    assert keyValues[..numKeysPressed] == Collected(bits, 7);
    numKeysPressed := PushIf(keyValues, numKeysPressed, buttonStatus & (1 << 8) != 0, HID_KEY_8);
    assert numKeysPressed <= 8;
    assert keyValues[..numKeysPressed] == Collected(bits, 8);
    numKeysPressed := PushIf(keyValues, numKeysPressed, buttonStatus & (1 << 9) != 0, HID_KEY_9);
    assert numKeysPressed <= 9;
    assert keyValues[..numKeysPressed] == Collected(bits, 9);
    keys := keyValues[..numKeysPressed];
  }

  /** Bit 10 of a status word or of the toggle mask. */
  predicate MuteBit(w: bv16) {
    w & MUTE_BIT != 0
  }

  /** The bits other than bit 10. */
  function OtherBits(w: bv16): bv16 {
    w & 0xFBFF
  }

  /** The toggle mask with bit 10 set or cleared. */
  function WithMute(mask: bv16, on: bool): bv16 {
    if on then mask | MUTE_BIT else mask & 0xFBFF
  }

  /** Setting bit 10 sets it and keeps the other bits. */
  lemma SetMuteBits(mask: bv16)
    ensures MuteBit(mask | 0x0400)
    ensures OtherBits(mask | 0x0400) == OtherBits(mask)
  {
  }

  /** Clearing bit 10 clears it and keeps the other bits. */
  lemma ClearMuteBits(mask: bv16)
    ensures !MuteBit(mask & 0xFBFF)
    ensures OtherBits(mask & 0xFBFF) == OtherBits(mask)
  {
  }

  /** Setting or clearing bit 10 decides that bit and keeps the others. */
  lemma WithMuteBits(mask: bv16, on: bool)
    ensures MuteBit(WithMute(mask, on)) == on
    ensures OtherBits(WithMute(mask, on)) == OtherBits(mask)
  {
    if on {
      SetMuteBits(mask);
    } else {
      ClearMuteBits(mask);
    }
  }

  /**
   * The mute edge detector over bit 10: a press is sent on the rising edge of
   * the switch and a release on its falling edge, and the toggle mask's bit
   * follows the switch.
   */
  function MuteEdge(status: bv16, mask: bv16): (bv16, seq<ConsumerSend>) {
    if MuteBit(status) == MuteBit(mask) then (mask, [])
    else (WithMute(mask, MuteBit(status)), [ConsumerSend(HID_CONSUMER_MUTE, MuteBit(status))])
  }

  /** Whether the host has been told that mute is held, by the toggle mask. */
  function HeldMute(mask: bv16): Option<bv8> {
    if MuteBit(mask) then Some(HID_CONSUMER_MUTE) else None
  }

  /**
   * After a step the mask's bit 10 equals the switch and its other bits are
   * kept, and one send happens exactly when the switch changed.
   */
  lemma MuteEdgeBits(status: bv16, mask: bv16)
    ensures MuteBit(MuteEdge(status, mask).0) == MuteBit(status)
    ensures OtherBits(MuteEdge(status, mask).0) == OtherBits(mask)
    ensures |MuteEdge(status, mask).1| == (if MuteBit(status) == MuteBit(mask) then 0 else 1)
  {
    WithMuteBits(mask, MuteBit(status));
  }

  /** A step's sends take the host from the held state of the old mask to that of the new one. */
  lemma MuteEdgeBalanced(status: bv16, mask: bv16)
    ensures Replay(HeldMute(mask), MuteEdge(status, mask).1) == Some(HeldMute(MuteEdge(status, mask).0))
  {
    var (mask', sends) := MuteEdge(status, mask);
    WithMuteBits(mask, MuteBit(status));
    if |sends| == 1 {
      assert sends[1..] == [];
    }
  }

  /** The mute sends of a run of status words. */
  function RunMute(mask: bv16, statuses: seq<bv16>): (bv16, seq<ConsumerSend>)
    decreases |statuses|
  {
    if |statuses| == 0 then (mask, [])
    else
      var (m1, s1) := MuteEdge(statuses[0], mask);
      var (m2, s2) := RunMute(m1, statuses[1..]);
      (m2, s1 + s2)
  }

  /** Over any run of scans mute presses and releases alternate, as the host sees them. */
  lemma {:induction false} RunMuteBalanced(mask: bv16, statuses: seq<bv16>)
    ensures Replay(HeldMute(mask), RunMute(mask, statuses).1) == Some(HeldMute(RunMute(mask, statuses).0))
    decreases |statuses|
  {
    if |statuses| > 0 {
      var (m1, s1) := MuteEdge(statuses[0], mask);
      var (m2, s2) := RunMute(m1, statuses[1..]);
      MuteEdgeBalanced(statuses[0], mask);
      RunMuteBalanced(m1, statuses[1..]);
      ReplayAppend(HeldMute(mask), s1, s2);
    }
  }

  /** An edge of the switch: the mute key is pressed or released and bit 10 follows. */
  method SendMuteEdge(bt: BtState, eng: Engine, reg: Registry, t: Stack, on: bool)
    requires reg.Valid()
    modifies bt, t
    ensures bt.buttonToggleMask == WithMute(old(bt.buttonToggleMask), on)
    ensures bt.hidConnId == old(bt.hidConnId) && bt.secConn == old(bt.secConn) && bt.lastCounter == old(bt.lastCounter)
    ensures t.log == old(t.log) + ConsumerCalls(reg, eng.gattIf, bt.hidConnId, [ConsumerSend(HID_CONSUMER_MUTE, on)])
  {
    ConsumerCallsOne(reg, eng.gattIf, bt.hidConnId, ConsumerSend(HID_CONSUMER_MUTE, on));
    SendConsumerValue(eng, reg, t, bt.hidConnId, HID_CONSUMER_MUTE, on);
    if on {
      bt.buttonToggleMask := bt.buttonToggleMask | (1 << 10);
    } else {
      bt.buttonToggleMask := bt.buttonToggleMask & !(1 << 10);
    }
  }

  /** The mute half of `keyboard_task`. */
  method MuteStep(bt: BtState, eng: Engine, reg: Registry, t: Stack, buttonStatus: bv16)
    requires reg.Valid()
    modifies bt, t
    ensures bt.buttonToggleMask == MuteEdge(buttonStatus, old(bt.buttonToggleMask)).0
    ensures bt.hidConnId == old(bt.hidConnId) && bt.secConn == old(bt.secConn) && bt.lastCounter == old(bt.lastCounter)
    ensures t.log == old(t.log) +
      ConsumerCalls(reg, eng.gattIf, bt.hidConnId, MuteEdge(buttonStatus, old(bt.buttonToggleMask)).1)
  {
    assert MuteBit(buttonStatus) == (buttonStatus & (1 << 10) != 0);
    assert MuteBit(bt.buttonToggleMask) == (bt.buttonToggleMask & (1 << 10) != 0);
    if buttonStatus & (1 << 10) != 0 {
      if bt.buttonToggleMask & (1 << 10) == 0 {
        SendMuteEdge(bt, eng, reg, t, true);
      }
    } else {
      if bt.buttonToggleMask & (1 << 10) != 0 {
        SendMuteEdge(bt, eng, reg, t, false);
      }
    }
  }

  /** The tail of `keyboard_task`: at most six keys go into one keyboard report, with no modifier. */
  method SendCollected(eng: Engine, reg: Registry, t: Stack, connId: uint16, keys: seq<bv8>)
    requires reg.Valid()
    modifies t
    ensures t.log == old(t.log) + reg.NotifyCalls(eng.gattIf, connId, HID_RPT_ID_KEY_IN, HID_REPORT_TYPE_INPUT,
                                                  KeyboardPayload(0, ClampKeys(keys)))
    ensures reg.Lookup(HID_RPT_ID_KEY_IN, HID_REPORT_TYPE_INPUT).Some? ==> |t.log| == |old(t.log)| + 1
  {
    var numKeysPressed := |keys|;
    if numKeysPressed > MAX_KEYS {
      numKeysPressed := MAX_KEYS;
    }
    assert keys[..numKeysPressed] == ClampKeys(keys);
    SendKeyboardValue(eng, reg, t, connId, 0, keys[..numKeysPressed]);
  }

  /**
   * One iteration of `keyboard_task`: when gated, the matrix is scanned, the
   * mute edge is sent, and exactly one keyboard report with the first six
   * collected keys follows; when not gated nothing happens.
   */
  method KeyboardStep(bt: BtState, modes: Modes, eng: Engine, reg: Registry, t: Stack, p: PinLevels)
    requires reg.Valid()
    modifies bt, t
    ensures bt.hidConnId == old(bt.hidConnId) && bt.secConn == old(bt.secConn) && bt.lastCounter == old(bt.lastCounter)
    ensures !Gated(bt.secConn, modes.currentKbMode) ==>
      bt.buttonToggleMask == old(bt.buttonToggleMask) && t.log == old(t.log)
    ensures Gated(bt.secConn, modes.currentKbMode) ==>
      && bt.buttonToggleMask == MuteEdge(ButtonStatus(p), old(bt.buttonToggleMask)).0
      && t.log == old(t.log) +
           ConsumerCalls(reg, eng.gattIf, bt.hidConnId, MuteEdge(ButtonStatus(p), old(bt.buttonToggleMask)).1) +
           reg.NotifyCalls(eng.gattIf, bt.hidConnId, HID_RPT_ID_KEY_IN, HID_REPORT_TYPE_INPUT,
                           KeyboardPayload(0, ClampKeys(PressedKeys(ButtonStatus(p)))))
  {
    if bt.secConn && modes.currentKbMode == KB_BT {
      var buttonStatus := ScanButtons(p);
      var keys := CollectKeys(buttonStatus);
      MuteStep(bt, eng, reg, t, buttonStatus);
      SendCollected(eng, reg, t, bt.hidConnId, keys);
    }
  }

  // ---------------------------------------------------------------- keyboard mode

  /**
   * One iteration of `kbmode_task`: when the requested mode differs from the
   * current one, the column pins are reconfigured (outputs for Bluetooth
   * scanning, inputs for USB) and the requested mode takes effect.
   */
  method KbModeStep(modes: Modes, t: Stack)
    modifies modes, t
    ensures modes.keyboardMode == old(modes.keyboardMode)
    ensures modes.currentKbMode ==
      (if old(modes.keyboardMode) in {KB_BT, KB_USB} then old(modes.keyboardMode) else old(modes.currentKbMode))
    ensures t.log == old(t.log) +
      (if old(modes.currentKbMode) == old(modes.keyboardMode) then []
       else if old(modes.keyboardMode) == KB_BT then [ConfigColumns(Output)]
       else if old(modes.keyboardMode) == KB_USB then [ConfigColumns(Input)]
       else [])
    ensures old(modes.Valid()) ==> modes.Valid() && modes.currentKbMode == modes.keyboardMode
  {
    if modes.currentKbMode != modes.keyboardMode {
      if modes.keyboardMode == KB_BT {
        t.Invoke(ConfigColumns(Output));
        modes.currentKbMode := KB_BT;
      }
      if modes.keyboardMode == KB_USB {
        t.Invoke(ConfigColumns(Input));
        modes.currentKbMode := KB_USB;
      }
    }
  }
}
