/** The console's gamepad driver: device insertion and removal per port, and
    the derivation of SDL joystick events from successive gamepad readings:
    rising edges of the digital buttons, analog buttons read as pressed past a
    crosstalk threshold, a hat from the D-pad bits, and four thumb-stick axes
    with an integer deadzone. Every XInput call is an input. */
module XboxJoystick {

  import opened Common

  // ----------------------------------------------------------- constants

  /** The number of joysticks the driver reports. */
  const NumJoysticks: nat := 4
  /** Buttons, axes and hats an opened joystick reports. */
  const MAX_BUTTONS: nat := 12
  const MAX_AXES: nat := 4
  const MAX_HATS: nat := 2
  /** The number of analog buttons of a gamepad; they are SDL buttons 0 to 7. */
  const AnalogCount: nat := 8
  /** The first SDL button number given to the digital buttons. */
  const FirstDigital: nat := 8

  /** An analog button reading above this value counts as pressed. */
  const XINPUT_GAMEPAD_MAX_CROSSTALK: u8 := 30
  /** A thumb reading strictly between the negative and positive of this value is centred. */
  const AxisDeadzone: int := 10000

  /** The digital button bits of a gamepad reading. */
  const XINPUT_GAMEPAD_DPAD_UP: bv16 := 0x0001
  const XINPUT_GAMEPAD_DPAD_DOWN: bv16 := 0x0002
  const XINPUT_GAMEPAD_DPAD_LEFT: bv16 := 0x0004
  const XINPUT_GAMEPAD_DPAD_RIGHT: bv16 := 0x0008
  const XINPUT_GAMEPAD_START: bv16 := 0x0010
  const XINPUT_GAMEPAD_BACK: bv16 := 0x0020
  const XINPUT_GAMEPAD_LEFT_THUMB: bv16 := 0x0040
  const XINPUT_GAMEPAD_RIGHT_THUMB: bv16 := 0x0080

  /** SDL's hat position bits. */
  const SDL_HAT_CENTERED: bv8 := 0x00
  const SDL_HAT_UP: bv8 := 0x01
  const SDL_HAT_RIGHT: bv8 := 0x02
  const SDL_HAT_DOWN: bv8 := 0x04
  const SDL_HAT_LEFT: bv8 := 0x08

  /** The digital buttons in SDL button order, from button 8 on. */
  const DigitalMasks: seq<bv16> := [XINPUT_GAMEPAD_START, XINPUT_GAMEPAD_BACK, XINPUT_GAMEPAD_LEFT_THUMB, XINPUT_GAMEPAD_RIGHT_THUMB]

  /** The order in which buttons are examined: the digital buttons, then the analog ones. */
  const ButtonOrder: seq<nat> := [8, 9, 10, 11, 0, 1, 2, 3, 4, 5, 6, 7]

  // ------------------------------------------------------------ data model

  /** One gamepad reading: digital button bits, eight analog button values
      and the four thumb-stick values. */
  datatype PadState = PadState(buttons: bv16, analog: seq<u8>, thumbLX: i16, thumbLY: i16, thumbRX: i16, thumbRY: i16)
  {
    predicate WellFormed() { |analog| == AnalogCount }
  }

  /** The driver's record of one gamepad: the copy of the latest reading
      (whose analog values are overwritten by the edge flags), the buttons of
      the previous poll, the rising edges, the device handle, and the
      insertion, removal and rumble fields. */
  datatype GamePad = GamePad(state: PadState, lastButtons: bv16, lastAnalog: seq<bool>, pressedButtons: bv16,
                             device: Option<Handle>, inserted: bool, removed: bool, rumbleLeft: u16, rumbleRight: u16)
  {
    predicate WellFormed() { state.WellFormed() && |lastAnalog| == AnalogCount }
  }

  /** SDL's view of a joystick: its axis values, button states and hat values. */
  datatype JoyState = JoyState(axes: seq<i16>, buttons: seq<bool>, hats: seq<bv8>)
  {
    predicate WellFormed() { |axes| == MAX_AXES && |buttons| == MAX_BUTTONS && |hats| == MAX_HATS }
  }

  /** A joystick event handed to SDL. */
  datatype JoyEvent = ButtonEvent(button: nat, pressed: bool) | HatEvent(hat: nat, position: bv8) | AxisEvent(axis: nat, value: i16)

  /** A control an event is about. */
  datatype Control = ButtonControl(b: nat) | HatControl(h: nat) | AxisControl(a: nat)

  function ControlOf(e: JoyEvent): Control
  {
    match e
    case ButtonEvent(b, _) => ButtonControl(b)
    case HatEvent(h, _) => HatControl(h)
    case AxisEvent(a, _) => AxisControl(a)
  }

  /** The events of `events` about control `c`, in order. */
  function EventsOn(events: seq<JoyEvent>, c: Control): seq<JoyEvent>
  {
    if |events| == 0 then []
    else (if ControlOf(events[0]) == c then [events[0]] else []) + EventsOn(events[1..], c)
  }

  // ------------------------------------------------------- readings

  /** Whether any bit of `mask` is set in `x`. */
  predicate HasBit(x: bv16, mask: bv16)
  {
    x & mask != 0
  }

  /** Whether an analog button value counts as pressed. */
  predicate AnalogPressed(v: u8)
  {
    v > XINPUT_GAMEPAD_MAX_CROSSTALK
  }

  /** The pressed state of the analog buttons of a reading. */
  function AnalogStates(s: PadState): (r: seq<bool>)
    requires s.WellFormed()
    ensures |r| == AnalogCount
    ensures forall b :: 0 <= b < AnalogCount ==> (r[b] <==> s.analog[b] > XINPUT_GAMEPAD_MAX_CROSSTALK)
  {
    seq(AnalogCount, b requires 0 <= b < AnalogCount => AnalogPressed(s.analog[b]))
  }

  /** The digital buttons that went down since the last poll. */
  function PressedBits(last: bv16, cur: bv16): (p: bv16)
    ensures p == cur & !last
  {
    (last ^ cur) & cur
  }

  /** A button's edge bit is set exactly when the button is down now and was
      up at the last poll, for each of the sixteen button bits. */
  lemma PressedIffRose(last: bv16, cur: bv16, k: nat)
    requires k < 16
    ensures HasBit(PressedBits(last, cur), Bit(k)) <==> HasBit(cur, Bit(k)) && !HasBit(last, Bit(k))
  {
    var m := Bit(k);
    assert m in {0x0001, 0x0002, 0x0004, 0x0008, 0x0010, 0x0020, 0x0040, 0x0080,
                 0x0100, 0x0200, 0x0400, 0x0800, 0x1000, 0x2000, 0x4000, 0x8000};
  }

  /** The one-bit mask of bit k. */
  function Bit(k: nat): (m: bv16)
    requires k < 16
  {
    1 << k
  }

  /** The hat position of a digital button word: one SDL direction bit for
      each D-pad bit that is set, centred when none is. */
  function HatValue(buttons: bv16): (h: bv8)
    ensures (h & SDL_HAT_UP != 0) <==> HasBit(buttons, XINPUT_GAMEPAD_DPAD_UP)
    ensures (h & SDL_HAT_DOWN != 0) <==> HasBit(buttons, XINPUT_GAMEPAD_DPAD_DOWN)
    ensures (h & SDL_HAT_LEFT != 0) <==> HasBit(buttons, XINPUT_GAMEPAD_DPAD_LEFT)
    ensures (h & SDL_HAT_RIGHT != 0) <==> HasBit(buttons, XINPUT_GAMEPAD_DPAD_RIGHT)
    ensures h & 0xF0 == 0
  {
    var h0 := SDL_HAT_CENTERED;
    var h1 := if HasBit(buttons, XINPUT_GAMEPAD_DPAD_DOWN) then h0 | SDL_HAT_DOWN else h0;
    var h2 := if HasBit(buttons, XINPUT_GAMEPAD_DPAD_UP) then h1 | SDL_HAT_UP else h1;
    var h3 := if HasBit(buttons, XINPUT_GAMEPAD_DPAD_LEFT) then h2 | SDL_HAT_LEFT else h2;
    if HasBit(buttons, XINPUT_GAMEPAD_DPAD_RIGHT) then h3 | SDL_HAT_RIGHT else h3
  }

  /** The hat is centred exactly when no D-pad bit is set. */
  lemma HatCentredIffNoDpad(buttons: bv16)
    ensures HatValue(buttons) == SDL_HAT_CENTERED <==> buttons & 0x000F == 0
  {
    var h := HatValue(buttons);
    assert h == h & 0x0F;
    assert h & 0x0F == (h & SDL_HAT_UP) | (h & SDL_HAT_DOWN) | (h & SDL_HAT_LEFT) | (h & SDL_HAT_RIGHT);
    assert buttons & 0x000F == (buttons & XINPUT_GAMEPAD_DPAD_UP) | (buttons & XINPUT_GAMEPAD_DPAD_DOWN)
                               | (buttons & XINPUT_GAMEPAD_DPAD_LEFT) | (buttons & XINPUT_GAMEPAD_DPAD_RIGHT);
  }

  /** The thumb value the driver leaves in its copy of the reading: a value
      outside the deadzone that is negative is moved up by one. */
  function StoredThumb(raw: i16): (t: i16)
    ensures raw <= -AxisDeadzone ==> t == raw + 1
    ensures raw > -AxisDeadzone ==> t == raw
  {
    if (raw <= -AxisDeadzone || raw >= AxisDeadzone) && raw < 0 then raw + 1 else raw
  }

  /** The axis value of a thumb reading: 0 inside the deadzone, otherwise the
      reading moved up by one when negative, and negated for a Y axis. */
  function AxisOf(raw: i16, negate: bool): (v: i16)
    ensures -AxisDeadzone < raw < AxisDeadzone ==> v == 0
    ensures raw >= AxisDeadzone ==> v == if negate then -raw else raw
    ensures raw <= -AxisDeadzone ==> v == if negate then -(raw + 1) else raw + 1
  {
    if raw <= -AxisDeadzone || raw >= AxisDeadzone then
      var t := StoredThumb(raw);
      if negate then -t else t
    else 0
  }

  /** The range of the axis values: a nonzero X value lies in [-32767, -9999]
      or [10000, 32767], a nonzero Y value in [-32767, -10000] or [9999, 32767]. */
  lemma AxisRange(raw: i16)
    ensures var x := AxisOf(raw, false);
            x == 0 || -32767 <= x <= -(AxisDeadzone - 1) || AxisDeadzone <= x <= 32767
    ensures var y := AxisOf(raw, true);
            y == 0 || -32767 <= y <= -AxisDeadzone || AxisDeadzone - 1 <= y <= 32767
  {
  }

  /** A Y axis is the negation of the X axis of the same reading. */
  lemma AxisYNegatesX(raw: i16)
    ensures AxisOf(raw, true) == -AxisOf(raw, false)
  {
  }

  /** The X mapping keeps the order of the readings. */
  lemma AxisMonotone(a: i16, b: i16)
    requires a <= b
    ensures AxisOf(a, false) <= AxisOf(b, false)
  {
  }

  // --------------------------------------------------------------- devices

  /** The device-change handling of one port: a removal closes the handle if
      there is one, clears it and stops the rumble; an insertion then opens the
      port and, if that works, takes the last-button state from a first
      reading. The second result is the handle that was closed. */
  function RefreshDeviceList(pad: GamePad, index: nat, changes: DeviceChanges, openResult: Option<Handle>, openState: PadState): (r: (GamePad, Option<Handle>))
    requires index < NumJoysticks && pad.WellFormed() && openState.WellFormed()
    ensures r.0.WellFormed()
    ensures r.0.removed == PortBit(changes.removals, index) && r.0.inserted == PortBit(changes.insertions, index)
    ensures r.1 == if PortBit(changes.removals, index) then pad.device else None
    ensures r.0.state == pad.state && r.0.pressedButtons == pad.pressedButtons
    ensures PortBit(changes.insertions, index) ==> r.0.device == openResult
    ensures !PortBit(changes.insertions, index) && PortBit(changes.removals, index) ==> r.0.device == None
    ensures PortBit(changes.removals, index) ==> r.0.rumbleLeft == 0 && r.0.rumbleRight == 0
    ensures PortBit(changes.insertions, index) && openResult.Some? ==>
              r.0.lastButtons == openState.buttons && r.0.lastAnalog == AnalogStates(openState)
    ensures !(PortBit(changes.insertions, index) && openResult.Some?) ==>
              r.0.lastButtons == pad.lastButtons && r.0.lastAnalog == pad.lastAnalog
    ensures !PortBit(changes.insertions, index) && !PortBit(changes.removals, index) ==>
              r.0 == pad.(inserted := false, removed := false)
  {
    var removed := PortBit(changes.removals, index);
    var closed := if removed then pad.device else None;
    var p1 := if removed then pad.(removed := true, device := None, rumbleLeft := 0, rumbleRight := 0)
              else pad.(removed := false);
    var inserted := PortBit(changes.insertions, index);
    var p2 := if !inserted then p1.(inserted := false)
              else if openResult.None? then p1.(inserted := true, device := None)
              else p1.(inserted := true, device := openResult, lastButtons := openState.buttons,
                       lastAnalog := AnalogStates(openState));
    (p2, closed)
  }

  /** The copy of a reading into the gamepad record: the new digital edges
      and last buttons, and for each analog button its edge flag (1 when
      pressed now and not at the last poll) and its new last state. */
  function ReadPad(pad: GamePad, poll: PadState): (p: GamePad)
    requires pad.WellFormed() && poll.WellFormed()
    ensures p.WellFormed()
    ensures p.state.buttons == poll.buttons
    ensures p.state.thumbLX == poll.thumbLX && p.state.thumbLY == poll.thumbLY
    ensures p.state.thumbRX == poll.thumbRX && p.state.thumbRY == poll.thumbRY
    ensures p.pressedButtons == PressedBits(pad.lastButtons, poll.buttons) && p.lastButtons == poll.buttons
    ensures p.lastAnalog == AnalogStates(poll)
    ensures forall b :: 0 <= b < AnalogCount ==>
              p.state.analog[b] == if AnalogPressed(poll.analog[b]) && !pad.lastAnalog[b] then 1 else 0
    ensures p.device == pad.device && p.inserted == pad.inserted && p.removed == pad.removed
    ensures p.rumbleLeft == pad.rumbleLeft && p.rumbleRight == pad.rumbleRight
  {
    var edges := seq(AnalogCount, b requires 0 <= b < AnalogCount =>
                   if AnalogPressed(poll.analog[b]) then (if pad.lastAnalog[b] then 0 else 1) else 0);
    pad.(state := poll.(analog := edges), pressedButtons := PressedBits(pad.lastButtons, poll.buttons),
         lastButtons := poll.buttons, lastAnalog := AnalogStates(poll))
  }

  /** The button states a reading asks for: analog buttons 0 to 7 by the
      crosstalk threshold, buttons 8 to 11 by the start, back and thumb bits. */
  function ButtonTargets(poll: PadState): (t: seq<bool>)
    requires poll.WellFormed()
    ensures |t| == MAX_BUTTONS
    ensures forall b :: 0 <= b < AnalogCount ==> (t[b] <==> AnalogPressed(poll.analog[b]))
    ensures forall j :: 0 <= j < |DigitalMasks| ==> (t[FirstDigital + j] <==> HasBit(poll.buttons, DigitalMasks[j]))
  {
    seq(MAX_BUTTONS, b requires 0 <= b < MAX_BUTTONS =>
      if b < AnalogCount then AnalogPressed(poll.analog[b]) else HasBit(poll.buttons, DigitalMasks[b - FirstDigital]))
  }

  /** The event for one control: one, carrying the new value, when it differs. */
  function Segment(changed: bool, e: JoyEvent): seq<JoyEvent>
  {
    if changed then [e] else []
  }

  /** The four axis values of a reading, Y axes negated. */
  function AxisValues(s: PadState): (v: seq<i16>)
    ensures |v| == MAX_AXES
    ensures v == [AxisOf(s.thumbLX, false), AxisOf(s.thumbLY, true), AxisOf(s.thumbRX, false), AxisOf(s.thumbRY, true)]
  {
    [AxisOf(s.thumbLX, false), AxisOf(s.thumbLY, true), AxisOf(s.thumbRX, false), AxisOf(s.thumbRY, true)]
  }

  // ----------------------------------------------------------------- update

  /** What an update is given: the device changes, the open call's result
      and first reading on an insertion, and the poll's reading. */
  datatype UpdateInputs = UpdateInputs(changes: DeviceChanges, openResult: Option<Handle>, openState: PadState, poll: PadState)
  {
    predicate WellFormed() { openState.WellFormed() && poll.WellFormed() }
  }

  /** What an update leaves: the gamepad record, SDL's joystick state, the
      per-joystick previous hats, the handle closed, and the events. */
  datatype Updated = Updated(pad: GamePad, joy: JoyState, prevHats: seq<bv8>, closed: Option<Handle>, events: seq<JoyEvent>)

  /** Whether the port has a device once the device changes are handled. */
  predicate HasDevice(pad: GamePad, index: nat, inp: UpdateInputs)
    requires index < NumJoysticks && pad.WellFormed() && inp.WellFormed()
  {
    RefreshDeviceList(pad, index, inp.changes, inp.openResult, inp.openState).0.device.Some?
  }

  /** The record the hat and axes are computed from: the fresh reading when
      there is a device, the record as it stands otherwise. */
  function PolledPad(pad: GamePad, index: nat, inp: UpdateInputs): (p: GamePad)
    requires index < NumJoysticks && pad.WellFormed() && inp.WellFormed()
    ensures p.WellFormed()
  {
    var p1 := RefreshDeviceList(pad, index, inp.changes, inp.openResult, inp.openState).0;
    if p1.device.Some? then ReadPad(p1, inp.poll) else p1
  }

  /** The controls an update examines, in order: the buttons (only when
      there is a device), hat 0, and the four axes. */
  function ExaminedControls(device: bool): (cs: seq<Control>)
    ensures forall j, k :: 0 <= j < k < |cs| ==> cs[j] != cs[k]
  {
    (if device then seq(MAX_BUTTONS, i requires 0 <= i < MAX_BUTTONS => ButtonControl(ButtonOrder[i])) else [])
    + [HatControl(0)] + seq(MAX_AXES, k requires 0 <= k < MAX_AXES => AxisControl(k))
  }

  /** The events of an update, one list per examined control: an event for a
      button whose new state differs from SDL's, for the hat when it differs
      from the previous hat, and for an axis whose value differs from SDL's. */
  function EventLists(joy: JoyState, prevHat: bv8, device: bool, target: seq<bool>, hat: bv8, values: seq<i16>): (segs: seq<seq<JoyEvent>>)
    requires joy.WellFormed() && |target| == MAX_BUTTONS && |values| == MAX_AXES
    ensures |segs| == |ExaminedControls(device)|
    ensures forall j :: 0 <= j < |segs| ==> Concerns(segs[j], ExaminedControls(device)[j])
  {
    var buttonSegs := if device then seq(MAX_BUTTONS, i requires 0 <= i < MAX_BUTTONS =>
                                           Segment(target[ButtonOrder[i]] != joy.buttons[ButtonOrder[i]],
                                                   ButtonEvent(ButtonOrder[i], target[ButtonOrder[i]])))
                      else [];
    var hatSeg := Segment(hat != prevHat, HatEvent(0, hat));
    var axisSegs := seq(MAX_AXES, k requires 0 <= k < MAX_AXES => Segment(values[k] != joy.axes[k], AxisEvent(k, values[k])));
    buttonSegs + [hatSeg] + axisSegs
  }

  /** The update of one joystick, with or without writing the moved-up thumb
      values back into the record. Buttons are examined only when there is a
      device; the hat and the axes always are, from whatever the record holds.
      The hat is reported as hat 0 and compared with this joystick's previous
      hat; an axis is compared with SDL's current value. */
  function UpdateWith(pad: GamePad, joy: JoyState, prevHats: seq<bv8>, index: nat, inp: UpdateInputs, writeBack: bool): (u: Updated)
    requires index < NumJoysticks && pad.WellFormed() && joy.WellFormed() && |prevHats| == NumJoysticks && inp.WellFormed()
    ensures u.pad.WellFormed() && u.joy.WellFormed() && |u.prevHats| == NumJoysticks
    ensures var p := PolledPad(pad, index, inp);
            u.joy.buttons == (if HasDevice(pad, index, inp) then ButtonTargets(inp.poll) else joy.buttons)
            && u.joy.axes == AxisValues(p.state)
            && u.prevHats == prevHats[index := HatValue(p.state.buttons)]
            && u.events == Flatten(EventLists(joy, prevHats[index], HasDevice(pad, index, inp), u.joy.buttons,
                                              HatValue(p.state.buttons), u.joy.axes))
  {
    var (p1, closed) := RefreshDeviceList(pad, index, inp.changes, inp.openResult, inp.openState);
    var device := p1.device.Some?;
    var p2 := PolledPad(pad, index, inp);
    var target := if device then ButtonTargets(inp.poll) else joy.buttons;
    var hat := HatValue(p2.state.buttons);
    var values := AxisValues(p2.state);
    var s := p2.state;
    var p3 := if writeBack then p2.(state := s.(thumbLX := StoredThumb(s.thumbLX), thumbLY := StoredThumb(s.thumbLY),
                                                thumbRX := StoredThumb(s.thumbRX), thumbRY := StoredThumb(s.thumbRY)))
              else p2;
    var hats := if hat != prevHats[index] then joy.hats[0 := hat] else joy.hats;
    Updated(p3, JoyState(values, target, hats), prevHats[index := hat], closed,
            Flatten(EventLists(joy, prevHats[index], device, target, hat, values)))
  }

  /** The update as written: the moved-up thumb values are stored back. */
  function JoystickUpdateAsWritten(pad: GamePad, joy: JoyState, prevHats: seq<bv8>, index: nat, inp: UpdateInputs): (u: Updated)
    requires index < NumJoysticks && pad.WellFormed() && joy.WellFormed() && |prevHats| == NumJoysticks && inp.WellFormed()
    ensures u.pad.WellFormed() && u.joy.WellFormed() && |u.prevHats| == NumJoysticks
    ensures var s := PolledPad(pad, index, inp).state;
            u.pad == PolledPad(pad, index, inp).(state := s.(thumbLX := StoredThumb(s.thumbLX), thumbLY := StoredThumb(s.thumbLY),
                                                             thumbRX := StoredThumb(s.thumbRX), thumbRY := StoredThumb(s.thumbRY)))
            && u.joy.axes == AxisValues(s)
  {
    UpdateWith(pad, joy, prevHats, index, inp, true)
  }

  /** The update with the thumb values read but not modified. */
  function JoystickUpdate(pad: GamePad, joy: JoyState, prevHats: seq<bv8>, index: nat, inp: UpdateInputs): (u: Updated)
    requires index < NumJoysticks && pad.WellFormed() && joy.WellFormed() && |prevHats| == NumJoysticks && inp.WellFormed()
    ensures u.pad.WellFormed() && u.joy.WellFormed() && |u.prevHats| == NumJoysticks
    ensures u.pad == PolledPad(pad, index, inp)
    ensures u.closed == RefreshDeviceList(pad, index, inp.changes, inp.openResult, inp.openState).1
    ensures u.joy.buttons == if HasDevice(pad, index, inp) then ButtonTargets(inp.poll) else joy.buttons
    ensures u.joy.axes == AxisValues(u.pad.state)
    ensures u.prevHats == prevHats[index := HatValue(u.pad.state.buttons)]
    ensures u.joy.hats == if HatValue(u.pad.state.buttons) != prevHats[index] then joy.hats[0 := HatValue(u.pad.state.buttons)] else joy.hats
  {
    UpdateWith(pad, joy, prevHats, index, inp, false)
  }

  // ------------------------------------------------------ event selection

  /** The concatenation of a sequence of event lists. */
  function Flatten(segs: seq<seq<JoyEvent>>): seq<JoyEvent>
  {
    if |segs| == 0 then [] else segs[0] + Flatten(segs[1..])
  }

  /** Every event of `seg` is about control `c`. */
  predicate Concerns(seg: seq<JoyEvent>, c: Control)
  {
    forall i :: 0 <= i < |seg| ==> ControlOf(seg[i]) == c
  }

  /** Selecting the events of one control distributes over concatenation. */
  lemma {:induction false} EventsOnConcat(a: seq<JoyEvent>, b: seq<JoyEvent>, c: Control)
    ensures EventsOn(a + b, c) == EventsOn(a, c) + EventsOn(b, c)
    decreases |a|
  {
    if |a| == 0 {
      assert a + b == b;
    } else {
      var h := if ControlOf(a[0]) == c then [a[0]] else [];
      assert (a + b)[0] == a[0];
      assert (a + b)[1..] == a[1..] + b;
      EventsOnConcat(a[1..], b, c);
      assert EventsOn(a + b, c) == h + (EventsOn(a[1..], c) + EventsOn(b, c));
      assert EventsOn(a, c) == h + EventsOn(a[1..], c);
    }
  }

  /** A list about one control selects to itself for that control and to
      nothing for any other. */
  lemma {:induction false} EventsOnConcerned(seg: seq<JoyEvent>, c: Control, d: Control)
    requires Concerns(seg, c)
    ensures EventsOn(seg, d) == if c == d then seg else []
    decreases |seg|
  {
    if |seg| != 0 {
      EventsOnConcerned(seg[1..], c, d);
      if c == d {
        assert seg == [seg[0]] + seg[1..];
      }
    }
  }

  /** In a concatenation of lists about distinct controls, the events of the
      i-th control are exactly the i-th list, and a control that is not
      listed has none. */
  lemma {:induction false} EventsOnFlatten(segs: seq<seq<JoyEvent>>, controls: seq<Control>, c: Control)
    requires |segs| == |controls|
    requires forall j :: 0 <= j < |segs| ==> Concerns(segs[j], controls[j])
    requires forall j, k :: 0 <= j < k < |controls| ==> controls[j] != controls[k]
    ensures forall i :: 0 <= i < |segs| && controls[i] == c ==> EventsOn(Flatten(segs), c) == segs[i]
    ensures c !in controls ==> EventsOn(Flatten(segs), c) == []
    decreases |segs|
  {
    if |segs| != 0 {
      EventsOnFlatten(segs[1..], controls[1..], c);
      EventsOnConcat(segs[0], Flatten(segs[1..]), c);
      EventsOnConcerned(segs[0], controls[0], c);
      if controls[0] == c {
        assert c !in controls[1..];
      }
      forall i | 0 < i < |segs| && controls[i] == c
        ensures EventsOn(Flatten(segs), c) == segs[i]
      {
        assert controls[1..][i - 1] == c;
      }
    }
  }

  // ---------------------------------------------------- update properties

  /** The events SDL is owed for one control, going from joystick state
      `before` to `after` and from hat `prevHat` to `hat`: one event carrying
      the new value when that control's value changed, none otherwise. */
  function Reported(before: JoyState, after: JoyState, prevHat: bv8, hat: bv8, c: Control): seq<JoyEvent>
    requires before.WellFormed() && after.WellFormed()
  {
    match c
    case ButtonControl(b) =>
      if b < MAX_BUTTONS && after.buttons[b] != before.buttons[b] then [ButtonEvent(b, after.buttons[b])] else []
    case HatControl(h) =>
      if h == 0 && hat != prevHat then [HatEvent(0, hat)] else []
    case AxisControl(k) =>
      if k < MAX_AXES && after.axes[k] != before.axes[k] then [AxisEvent(k, after.axes[k])] else []
  }

  /** The position of button `b` in the examination order. */
  function ButtonSlot(b: nat): (i: nat)
    requires b < MAX_BUTTONS
    ensures i < MAX_BUTTONS && ButtonOrder[i] == b
  {
    if b < AnalogCount then b + 4 else b - FirstDigital
  }

  /** The per-control selection of an update's event lists: each control gets
      exactly the events `Reported` owes it, provided the button states are
      left alone when there is no device. */
  lemma EventListsReport(joy: JoyState, prevHat: bv8, device: bool, target: seq<bool>, hat: bv8, values: seq<i16>, c: Control)
    requires joy.WellFormed() && |target| == MAX_BUTTONS && |values| == MAX_AXES
    requires !device ==> target == joy.buttons
    ensures EventsOn(Flatten(EventLists(joy, prevHat, device, target, hat, values)), c)
            == Reported(joy, JoyState(values, target, joy.hats), prevHat, hat, c)
  {
    match c
    case ButtonControl(b) => ButtonListReport(joy, prevHat, device, target, hat, values, b);
    case HatControl(h) => HatListReport(joy, prevHat, device, target, hat, values, h);
    case AxisControl(k) => AxisListReport(joy, prevHat, device, target, hat, values, k);
  }

  /** `EventListsReport` for a button. */
  lemma ButtonListReport(joy: JoyState, prevHat: bv8, device: bool, target: seq<bool>, hat: bv8, values: seq<i16>, b: nat)
    requires joy.WellFormed() && |target| == MAX_BUTTONS && |values| == MAX_AXES
    requires !device ==> target == joy.buttons
    ensures EventsOn(Flatten(EventLists(joy, prevHat, device, target, hat, values)), ButtonControl(b))
            == if b < MAX_BUTTONS && target[b] != joy.buttons[b] then [ButtonEvent(b, target[b])] else []
  {
    var segs := EventLists(joy, prevHat, device, target, hat, values);
    var cs := ExaminedControls(device);
    EventsOnFlatten(segs, cs, ButtonControl(b));
    if device && b < MAX_BUTTONS {
      var i := ButtonSlot(b);
      assert cs[i] == ButtonControl(b);
      assert segs[i] == Segment(target[b] != joy.buttons[b], ButtonEvent(b, target[b]));
    } else {
      assert ButtonControl(b) !in cs;
    }
  }

  /** `EventListsReport` for a hat. */
  lemma HatListReport(joy: JoyState, prevHat: bv8, device: bool, target: seq<bool>, hat: bv8, values: seq<i16>, h: nat)
    requires joy.WellFormed() && |target| == MAX_BUTTONS && |values| == MAX_AXES
    ensures EventsOn(Flatten(EventLists(joy, prevHat, device, target, hat, values)), HatControl(h))
            == if h == 0 && hat != prevHat then [HatEvent(0, hat)] else []
  {
    var segs := EventLists(joy, prevHat, device, target, hat, values);
    var cs := ExaminedControls(device);
    var nb := if device then MAX_BUTTONS else 0;
    EventsOnFlatten(segs, cs, HatControl(h));
    if h == 0 {
      assert cs[nb] == HatControl(h);
      assert segs[nb] == Segment(hat != prevHat, HatEvent(0, hat));
    } else {
      assert HatControl(h) !in cs;
    }
  }

  /** `EventListsReport` for an axis. */
  lemma AxisListReport(joy: JoyState, prevHat: bv8, device: bool, target: seq<bool>, hat: bv8, values: seq<i16>, k: nat)
    requires joy.WellFormed() && |target| == MAX_BUTTONS && |values| == MAX_AXES
    ensures EventsOn(Flatten(EventLists(joy, prevHat, device, target, hat, values)), AxisControl(k))
            == if k < MAX_AXES && values[k] != joy.axes[k] then [AxisEvent(k, values[k])] else []
  {
    var segs := EventLists(joy, prevHat, device, target, hat, values);
    var cs := ExaminedControls(device);
    var nb := if device then MAX_BUTTONS else 0;
    EventsOnFlatten(segs, cs, AxisControl(k));
    if k < MAX_AXES {
      assert cs[nb + 1 + k] == AxisControl(k);
      assert segs[nb + 1 + k] == Segment(values[k] != joy.axes[k], AxisEvent(k, values[k]));
    } else {
      assert AxisControl(k) !in cs;
    }
  }

  /** An update reports every change and nothing else: for each control, the
      events about it are one event with the new value exactly when SDL's
      value for it changed (buttons and axes against SDL's state, hat 0
      against this joystick's previous hat), and none otherwise. */
  lemma UpdateReportsChanges(pad: GamePad, joy: JoyState, prevHats: seq<bv8>, index: nat, inp: UpdateInputs, writeBack: bool, c: Control)
    requires index < NumJoysticks && pad.WellFormed() && joy.WellFormed() && |prevHats| == NumJoysticks && inp.WellFormed()
    ensures var u := UpdateWith(pad, joy, prevHats, index, inp, writeBack);
            EventsOn(u.events, c) == Reported(joy, u.joy, prevHats[index], u.prevHats[index], c)
  {
    var u := UpdateWith(pad, joy, prevHats, index, inp, writeBack);
    var hat := HatValue(PolledPad(pad, index, inp).state.buttons);
    EventListsReport(joy, prevHats[index], HasDevice(pad, index, inp), u.joy.buttons, hat, u.joy.axes, c);
  }

  /** SDL's hat 0 keeps mirroring the driver's previous hat of the joystick. */
  lemma HatFollowsPrevious(pad: GamePad, joy: JoyState, prevHats: seq<bv8>, index: nat, inp: UpdateInputs)
    requires index < NumJoysticks && pad.WellFormed() && joy.WellFormed() && |prevHats| == NumJoysticks && inp.WellFormed()
    requires joy.hats[0] == prevHats[index]
    ensures var u := JoystickUpdate(pad, joy, prevHats, index, inp);
            u.joy.hats[0] == u.prevHats[index] && u.joy.hats[1] == joy.hats[1]
  {
  }

  /** An event list with no event about any control is empty. */
  lemma NoEventsAnywhere(events: seq<JoyEvent>)
    requires |events| > 0
    ensures EventsOn(events, ControlOf(events[0])) != []
  {
  }

  /** The inputs of a following update with no device change and the same reading. */
  function Unchanged(inp: UpdateInputs): UpdateInputs
  {
    inp.(changes := DeviceChanges(0, 0))
  }

  /** No device change leaves the port's device as it is. */
  lemma NoChangeKeepsDevice(pad: GamePad, index: nat, inp: UpdateInputs)
    requires index < NumJoysticks && pad.WellFormed() && inp.WellFormed()
    ensures !PortBit(Unchanged(inp).changes.insertions, index) && !PortBit(Unchanged(inp).changes.removals, index)
    ensures HasDevice(pad, index, Unchanged(inp)) <==> pad.device.Some?
  {
    assert (1 as bv32 << index) & 0 == 0;
  }

  /** Updating again with no device change and the same reading reports
      nothing: the state SDL was told about is the state it would be told. */
  lemma RepeatUpdateIsQuiet(pad: GamePad, joy: JoyState, prevHats: seq<bv8>, index: nat, inp: UpdateInputs)
    requires index < NumJoysticks && pad.WellFormed() && joy.WellFormed() && |prevHats| == NumJoysticks && inp.WellFormed()
    ensures var u := JoystickUpdate(pad, joy, prevHats, index, inp);
            JoystickUpdate(u.pad, u.joy, u.prevHats, index, Unchanged(inp)).events == []
  {
    var u := JoystickUpdate(pad, joy, prevHats, index, inp);
    var v := JoystickUpdate(u.pad, u.joy, u.prevHats, index, Unchanged(inp));
    NoChangeKeepsDevice(u.pad, index, inp);
    assert RefreshDeviceList(u.pad, index, Unchanged(inp).changes, inp.openResult, inp.openState).0
           == u.pad.(inserted := false, removed := false);
    assert v.pad.state.buttons == u.pad.state.buttons;
    assert v.pad.state.thumbLX == u.pad.state.thumbLX && v.pad.state.thumbLY == u.pad.state.thumbLY;
    assert v.pad.state.thumbRX == u.pad.state.thumbRX && v.pad.state.thumbRY == u.pad.state.thumbRY;
    assert v.joy.axes == u.joy.axes;
    assert v.joy.buttons == u.joy.buttons;
    if |v.events| > 0 {
      var c := ControlOf(v.events[0]);
      NoEventsAnywhere(v.events);
      UpdateReportsChanges(u.pad, u.joy, u.prevHats, index, Unchanged(inp), false, c);
      assert false;
    }
  }

  /** As written, the update stores the moved-up thumb values back into the
      record, and without a device nothing overwrites them: a record holding
      a left thumb pushed past the deadzone drifts by one per update, so a
      second update with no device change reports axis 0 moving although
      nothing was read. */
  lemma StaleThumbDriftsAsWritten(pad: GamePad, joy: JoyState, prevHats: seq<bv8>, index: nat, inp: UpdateInputs)
    requires index < NumJoysticks && pad.WellFormed() && joy.WellFormed() && |prevHats| == NumJoysticks && inp.WellFormed()
    requires pad.device.None? && pad.state.thumbLX <= -(AxisDeadzone + 1)
    ensures var u := JoystickUpdateAsWritten(pad, joy, prevHats, index, Unchanged(inp));
            var v := JoystickUpdateAsWritten(u.pad, u.joy, u.prevHats, index, Unchanged(inp));
            u.joy.axes[0] == pad.state.thumbLX + 1
            && EventsOn(v.events, AxisControl(0)) == [AxisEvent(0, pad.state.thumbLX + 2)]
  {
    var u := JoystickUpdateAsWritten(pad, joy, prevHats, index, Unchanged(inp));
    NoChangeKeepsDevice(pad, index, inp);
    NoChangeKeepsDevice(u.pad, index, inp);
    UpdateReportsChanges(u.pad, u.joy, u.prevHats, index, Unchanged(inp), true, AxisControl(0));
  }

  // ------------------------------------------------------------------ open

  /** The number of joysticks the driver reports at initialisation. */
  function JoystickInit(): (n: nat)
    ensures n == NumJoysticks
  {
    4
  }

  /** The zeroed gamepad record and reading. */
  const ZeroState: PadState := PadState(0, [0, 0, 0, 0, 0, 0, 0, 0], 0, 0, 0, 0)
  const ZeroPad: GamePad := GamePad(ZeroState, 0, [false, false, false, false, false, false, false, false], 0, None, false, false, 0, 0)

  /** What opening a joystick leaves: the status, the control counts, whether
      the device layer was initialised by this call, the devices-initialised
      flag afterwards, the joystick's gamepad record and its input state. */
  datatype Opened = Opened(status: int, nbuttons: nat, naxes: nat, nhats: nat, initCalled: bool,
                           devicesInitialized: bool, pad: GamePad, inputState: PadState)

  /** Opening joystick `index`: the device layer is initialised on first use,
      the record and input state are zeroed, and when the device mask has the
      port's bit, the port is opened and the first reading (what the state
      call leaves, an input) fills the input state and the last-button state.
      The handle is not checked. Opening always succeeds. */
  function JoystickOpen(index: nat, devicesInitialized: bool, deviceMask: bv32, openResult: Option<Handle>, firstState: PadState): (o: Opened)
    requires index < NumJoysticks && firstState.WellFormed()
    ensures o.status == 0 && o.nbuttons == MAX_BUTTONS && o.naxes == MAX_AXES && o.nhats == MAX_HATS
    ensures o.initCalled <==> !devicesInitialized
    ensures o.devicesInitialized
    ensures o.pad.WellFormed() && o.inputState.WellFormed()
    ensures o.pad.state == ZeroState && o.pad.pressedButtons == 0 && !o.pad.inserted && !o.pad.removed
    ensures o.pad.rumbleLeft == 0 && o.pad.rumbleRight == 0
    ensures PortBit(deviceMask, index) ==>
              o.pad.device == openResult && o.inputState == firstState
              && o.pad.lastButtons == firstState.buttons && o.pad.lastAnalog == AnalogStates(firstState)
    ensures !PortBit(deviceMask, index) ==> o.pad == ZeroPad && o.inputState == ZeroState
  {
    var present := PortBit(deviceMask, index);
    var pad := if present then ZeroPad.(device := openResult, lastButtons := firstState.buttons,
                                        lastAnalog := AnalogStates(firstState))
               else ZeroPad;
    Opened(0, MAX_BUTTONS, MAX_AXES, MAX_HATS, !devicesInitialized, true, pad,
           if present then firstState else ZeroState)
  }

  /** A freshly opened gamepad whose first update reads the reading taken at
      open shows no rising edge, digital or analog. */
  lemma OpenedPadHasNoEdges(index: nat, devicesInitialized: bool, deviceMask: bv32, openResult: Option<Handle>, firstState: PadState)
    requires index < NumJoysticks && firstState.WellFormed()
    requires PortBit(deviceMask, index)
    ensures ReadPad(JoystickOpen(index, devicesInitialized, deviceMask, openResult, firstState).pad, firstState).pressedButtons == 0
    ensures forall b :: 0 <= b < AnalogCount ==>
              ReadPad(JoystickOpen(index, devicesInitialized, deviceMask, openResult, firstState).pad, firstState).state.analog[b] == 0
  {
    assert PressedBits(firstState.buttons, firstState.buttons) == 0;
  }
}
