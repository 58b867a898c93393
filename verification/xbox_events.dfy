/** Keyboard and mouse event translation for the console's debug keyboard and
    mouse: device discovery per port, the keystroke-to-keysym translation, the
    press/release decision, and the derivation of motion, button and wheel
    events from successive mouse readings. */
module XboxEvents {

  import opened Common
  import XboxKeymap

  // ---------------------------------------------------------------- devices

  /** What one port's refresh leaves: the handle the port holds afterwards,
      and the argument of the close call when one was made. */
  datatype PortRefresh = PortRefresh(handle: Option<Handle>, closed: Option<Option<Handle>>)

  /** One port after a device-change query: a removal closes the handle, NULL
      or not, and clears it; an insertion (handled after the removal)
      installs whatever the open call returned, possibly NULL. */
  function RefreshPort(handle: Option<Handle>, changes: DeviceChanges, openResult: Option<Handle>, port: nat): (r: PortRefresh)
    requires port < MaxPorts
    ensures r.closed == if PortBit(changes.removals, port) then Some(handle) else None
    ensures PortBit(changes.insertions, port) ==> r.handle == openResult
    ensures !PortBit(changes.insertions, port) && PortBit(changes.removals, port) ==> r.handle == None
    ensures !PortBit(changes.insertions, port) && !PortBit(changes.removals, port) ==> r.handle == handle
  {
    var removed := PortBit(changes.removals, port);
    var afterRemoval := if removed then None else handle;
    PortRefresh(if PortBit(changes.insertions, port) then openResult else afterRemoval,
                if removed then Some(handle) else None)
  }

  /** A device-change query that reports nothing leaves a port's handle as
      it was and closes nothing; a port unplugged and plugged again between
      two queries is closed with its old handle and then holds the new open
      result, whatever it held before. */
  lemma RefreshPortChanges(handle: Option<Handle>, other: Option<Handle>, openResult: Option<Handle>, port: nat)
    requires port < MaxPorts
    ensures RefreshPort(handle, DeviceChanges(0, 0), openResult, port) == PortRefresh(handle, None)
    ensures var replug := DeviceChanges(1 as bv32 << port, 1 as bv32 << port);
            RefreshPort(handle, replug, openResult, port) == PortRefresh(openResult, Some(handle))
            && RefreshPort(handle, replug, openResult, port).handle == RefreshPort(other, replug, openResult, port).handle
  {
  }

  /** The handles and close calls of a refresh of all ports. */
  datatype Refreshed = Refreshed(handles: seq<Option<Handle>>, closes: seq<Option<Option<Handle>>>)

  /** No close call at any port. */
  const NoCloses: seq<Option<Option<Handle>>> := [None, None, None, None]

  /** The mouse device refresh: every port below `portCount` is refreshed, the
      others keep their handle and are not closed. */
  function RefreshPorts(handles: seq<Option<Handle>>, changes: DeviceChanges, opens: seq<Option<Handle>>, portCount: nat): (r: Refreshed)
    requires |handles| == MaxPorts && |opens| == MaxPorts
    requires portCount <= MaxPorts
    ensures |r.handles| == MaxPorts && |r.closes| == MaxPorts
    ensures forall p :: 0 <= p < portCount ==>
              PortRefresh(r.handles[p], r.closes[p]) == RefreshPort(handles[p], changes, opens[p], p)
    ensures forall p :: portCount <= p < MaxPorts ==> r.handles[p] == handles[p] && r.closes[p] == None
  {
    Refreshed(seq(MaxPorts, p requires 0 <= p < MaxPorts =>
                if p < portCount then RefreshPort(handles[p], changes, opens[p], p).handle else handles[p]),
              seq(MaxPorts, p requires 0 <= p < MaxPorts =>
                if p < portCount then RefreshPort(handles[p], changes, opens[p], p).closed else None))
  }

  /** Opening of the devices present at start-up: ports whose bit is set in
      the device mask get the handle the open call returned. */
  function OpenPorts(handles: seq<Option<Handle>>, present: bv32, opens: seq<Option<Handle>>, portCount: nat): (r: seq<Option<Handle>>)
    requires |handles| == MaxPorts && |opens| == MaxPorts
    requires portCount <= MaxPorts
    ensures |r| == MaxPorts
    ensures forall p :: 0 <= p < portCount && PortBit(present, p) ==> r[p] == opens[p]
    ensures forall p :: 0 <= p < MaxPorts && !(p < portCount && PortBit(present, p)) ==> r[p] == handles[p]
  {
    seq(MaxPorts, p requires 0 <= p < MaxPorts =>
      if p < portCount && PortBit(present, p) then opens[p] else handles[p])
  }

  /** What keymap initialisation leaves behind: the table, whether it
      initialised the input layer itself, the keyboard and mouse handles, and
      whether the input devices count as initialised. */
  datatype InputInit = InputInit(keymap: seq<int>, initCalled: bool, keyboards: seq<Option<Handle>>,
                                 mice: seq<Option<Handle>>, devicesInitialized: bool)

  /** Keymap initialisation: the table is always built, and the input layer
      is initialised unless it already counts as initialised; the devices are
      opened only when the keyboard queue could then be set up. */
  function InitOSKeymap(keyboards: seq<Option<Handle>>, mice: seq<Option<Handle>>, devicesInitialized: bool,
                        queueOk: bool, keyboardMask: bv32, keyboardOpens: seq<Option<Handle>>,
                        mouseMask: bv32, mouseOpens: seq<Option<Handle>>, portCount: nat): (r: InputInit)
    requires |keyboards| == MaxPorts && |mice| == MaxPorts
    requires |keyboardOpens| == MaxPorts && |mouseOpens| == MaxPorts
    requires portCount <= MaxPorts
    ensures r.keymap == XboxKeymap.InitKeymap()
    ensures r.initCalled <==> !devicesInitialized
    ensures |r.keyboards| == MaxPorts && |r.mice| == MaxPorts
    ensures !queueOk ==> r.keyboards == keyboards && r.mice == mice && r.devicesInitialized == devicesInitialized
    ensures queueOk ==> r.devicesInitialized
    ensures queueOk ==> forall p :: 0 <= p < portCount && PortBit(keyboardMask, p) ==> r.keyboards[p] == keyboardOpens[p]
    ensures queueOk ==> forall p :: 0 <= p < portCount && PortBit(mouseMask, p) ==> r.mice[p] == mouseOpens[p]
    ensures queueOk ==> forall p :: 0 <= p < MaxPorts && !(p < portCount && PortBit(keyboardMask, p)) ==> r.keyboards[p] == keyboards[p]
    ensures queueOk ==> forall p :: 0 <= p < MaxPorts && !(p < portCount && PortBit(mouseMask, p)) ==> r.mice[p] == mice[p]
  {
    var keymap := XboxKeymap.InitKeymap();
    var initCalled := !devicesInitialized;
    if !queueOk then InputInit(keymap, initCalled, keyboards, mice, devicesInitialized)
    else InputInit(keymap, initCalled, OpenPorts(keyboards, keyboardMask, keyboardOpens, portCount),
                   OpenPorts(mice, mouseMask, mouseOpens, portCount), true)
  }

  // --------------------------------------------------------------- keyboard

  /** Flag bit of a keystroke that reports the key going up. */
  const KEYSTROKE_FLAG_KEYUP: bv8 := 0x02
  /** SDL's "no modifier" value. */
  const KMOD_NONE: int := 0

  /** One keystroke of the debug keyboard queue. */
  datatype Keystroke = Keystroke(flags: bv8, virtualKey: u8, ascii: i8)

  /** The SDL description of a key. */
  datatype Keysym = Keysym(scancode: u8, sym: int, mod: int, unicode: u16)

  /** A keyboard event handed to SDL. */
  datatype KeyEvent = KeyEvent(pressed: bool, keysym: Keysym)

  /** Translation of a keystroke through the table. The `pressed` argument
      takes no part; the character is widened to 16 bits with its sign. */
  function TranslateKey(keymap: seq<int>, stroke: Keystroke, pressed: bool): (k: Keysym)
    requires |keymap| == XboxKeymap.TableSize
    ensures k.mod == KMOD_NONE
    ensures k.scancode == stroke.virtualKey
    ensures k.sym == keymap[stroke.virtualKey]
    ensures stroke.ascii >= 0 ==> k.unicode == stroke.ascii
    ensures stroke.ascii < 0 ==> k.unicode == TwoTo16 + stroke.ascii
  {
    Keysym(stroke.virtualKey, keymap[stroke.virtualKey], KMOD_NONE, U16(stroke.ascii))
  }

  /** The pressed argument of the translation is ignored. */
  lemma TranslateKeyIgnoresPressed(keymap: seq<int>, stroke: Keystroke)
    requires |keymap| == XboxKeymap.TableSize
    ensures TranslateKey(keymap, stroke, true) == TranslateKey(keymap, stroke, false)
  {
  }

  /** Keys the initial table does not name translate to symbol 0. */
  lemma UnmappedKeyHasNoSymbol(stroke: Keystroke)
    requires forall j :: 0 <= j < |XboxKeymap.Assignments| ==> XboxKeymap.Assignments[j].vk != stroke.virtualKey
    ensures TranslateKey(XboxKeymap.InitKeymap(), stroke, false).sym == 0
  {
    XboxKeymap.UnassignedIsZero(stroke.virtualKey);
  }

  /** The keyboard event for the current keystroke: none for key code 0,
      otherwise a release when the key-up flag is set and a press when not. */
  function KeyboardUpdate(keymap: seq<int>, stroke: Keystroke): (e: Option<KeyEvent>)
    requires |keymap| == XboxKeymap.TableSize
    ensures e.None? <==> stroke.virtualKey == 0
    ensures e.Some? ==> (e.value.pressed <==> stroke.flags & KEYSTROKE_FLAG_KEYUP == 0)
    ensures e.Some? ==> e.value.keysym == TranslateKey(keymap, stroke, false)
  {
    if stroke.virtualKey == 0 then None
    else if stroke.flags & KEYSTROKE_FLAG_KEYUP != 0 then Some(KeyEvent(false, TranslateKey(keymap, stroke, true)))
    else Some(KeyEvent(true, TranslateKey(keymap, stroke, false)))
  }

  /** The key-up and key-down forms of a keystroke with a key give a release
      and a press that carry the same keysym. */
  lemma KeyUpDownPair(keymap: seq<int>, stroke: Keystroke)
    requires |keymap| == XboxKeymap.TableSize
    requires stroke.virtualKey != 0
    ensures var k := TranslateKey(keymap, stroke, false);
            KeyboardUpdate(keymap, stroke.(flags := stroke.flags | KEYSTROKE_FLAG_KEYUP)) == Some(KeyEvent(false, k))
            && KeyboardUpdate(keymap, stroke.(flags := stroke.flags & !KEYSTROKE_FLAG_KEYUP)) == Some(KeyEvent(true, k))
  {
  }

  /** Result of the keyboard poll: the keyboard handles, the close calls made,
      the keystroke the driver keeps between polls, the character returned,
      and the port whose device delivered a keystroke, if any. */
  datatype KeyboardPoll = KeyboardPoll(handles: seq<Option<Handle>>, closes: seq<Option<Option<Handle>>>,
                                       stroke: Keystroke, ascii: i8, port: Option<nat>)

  /** Whether port `p` has a device after refreshing and that device's
      keystroke query succeeds. */
  predicate Delivers(handles: seq<Option<Handle>>, changes: DeviceChanges, opens: seq<Option<Handle>>,
                     polls: seq<Option<Keystroke>>, p: nat)
    requires p < MaxPorts && |handles| == MaxPorts && |opens| == MaxPorts && |polls| == MaxPorts
  {
    RefreshPort(handles[p], changes, opens[p], p).handle.Some? && polls[p].Some?
  }

  /** The keyboard poll over the ports from `port` on: each port is refreshed
      and, if it has a device, asked for a keystroke; the first success ends
      the poll, so later ports are not refreshed this time. `polls[p]` is the
      answer the keystroke query gives when asked at port `p`; `closes` holds
      the close calls made so far. */
  function GetKeyboardInput(handles: seq<Option<Handle>>, closes: seq<Option<Option<Handle>>>, changes: DeviceChanges,
                            opens: seq<Option<Handle>>, polls: seq<Option<Keystroke>>, stroke: Keystroke,
                            portCount: nat, port: nat): (r: KeyboardPoll)
    requires |handles| == MaxPorts && |closes| == MaxPorts && |opens| == MaxPorts && |polls| == MaxPorts
    requires portCount <= MaxPorts && port <= portCount
    ensures |r.handles| == MaxPorts && |r.closes| == MaxPorts
    ensures r.port.None? ==> r.stroke == stroke && r.ascii == 0
    ensures r.port.None? ==> forall p :: port <= p < portCount ==>
              PortRefresh(r.handles[p], r.closes[p]) == RefreshPort(handles[p], changes, opens[p], p)
              && !Delivers(handles, changes, opens, polls, p)
    ensures r.port.Some? ==> port <= r.port.value < portCount && Delivers(handles, changes, opens, polls, r.port.value)
    ensures r.port.Some? ==> r.stroke == polls[r.port.value].value && r.ascii == r.stroke.ascii
    ensures r.port.Some? ==> forall p :: port <= p < r.port.value ==> !Delivers(handles, changes, opens, polls, p)
    ensures r.port.Some? ==> forall p :: port <= p <= r.port.value ==>
              PortRefresh(r.handles[p], r.closes[p]) == RefreshPort(handles[p], changes, opens[p], p)
    ensures r.port.Some? ==> forall p :: r.port.value < p < MaxPorts ==> r.handles[p] == handles[p] && r.closes[p] == closes[p]
    ensures forall p :: 0 <= p < port ==> r.handles[p] == handles[p] && r.closes[p] == closes[p]
    ensures forall p :: portCount <= p < MaxPorts ==> r.handles[p] == handles[p] && r.closes[p] == closes[p]
    decreases portCount - port
  {
    if port == portCount then KeyboardPoll(handles, closes, stroke, 0, None)
    else
      var refresh := RefreshPort(handles[port], changes, opens[port], port);
      var h, c := handles[port := refresh.handle], closes[port := refresh.closed];
      if h[port].Some? && polls[port].Some? then KeyboardPoll(h, c, polls[port].value, polls[port].value.ascii, Some(port))
      else
        assert forall p :: port < p < MaxPorts ==> h[p] == handles[p];
        assert forall p :: port < p < MaxPorts ==>
          Delivers(h, changes, opens, polls, p) == Delivers(handles, changes, opens, polls, p);
        GetKeyboardInput(h, c, changes, opens, polls, stroke, portCount, port + 1)
  }

  /** The key event of one pump as intended: the event of the keystroke this
      poll delivered, and none when no keystroke was delivered. */
  function PollKeyEvent(keymap: seq<int>, poll: KeyboardPoll): (e: Option<KeyEvent>)
    requires |keymap| == XboxKeymap.TableSize
    ensures e.Some? <==> poll.port.Some? && poll.stroke.virtualKey != 0
    ensures e.Some? ==> e == KeyboardUpdate(keymap, poll.stroke)
  {
    if poll.port.Some? then KeyboardUpdate(keymap, poll.stroke) else None
  }

  /** As written, the keystroke is kept between polls and the event is taken
      from it whether or not this poll delivered one: once every keyboard has
      been unplugged the keystroke query is no longer made, and each pump
      hands SDL the last key event again. The intended event is none. */
  lemma StaleKeystrokeRepeatsAsWritten(keymap: seq<int>, handles: seq<Option<Handle>>, changes: DeviceChanges,
                                       opens: seq<Option<Handle>>, polls: seq<Option<Keystroke>>, stroke: Keystroke, portCount: nat)
    requires |keymap| == XboxKeymap.TableSize
    requires |handles| == MaxPorts && |opens| == MaxPorts && |polls| == MaxPorts && portCount <= MaxPorts
    requires forall p :: 0 <= p < portCount ==> RefreshPort(handles[p], changes, opens[p], p).handle.None?
    requires stroke.virtualKey != 0
    ensures var poll := GetKeyboardInput(handles, NoCloses, changes, opens, polls, stroke, portCount, 0);
            KeyboardUpdate(keymap, poll.stroke) == KeyboardUpdate(keymap, stroke)
            && KeyboardUpdate(keymap, poll.stroke).Some?
            && PollKeyEvent(keymap, poll).None?
  {
  }

  // ------------------------------------------------------------------ mouse

  const XINPUT_DEBUG_MOUSE_LEFT_BUTTON: bv8 := 0x01
  const XINPUT_DEBUG_MOUSE_RIGHT_BUTTON: bv8 := 0x02
  const XINPUT_DEBUG_MOUSE_MIDDLE_BUTTON: bv8 := 0x04
  const SDL_BUTTON_WHEELUP: nat := 4
  const SDL_BUTTON_WHEELDOWN: nat := 5

  /** The mouse button bits in SDL's order: button k+1 is bit MouseButtonBits[k]. */
  const MouseButtonBits: seq<bv8> := [XINPUT_DEBUG_MOUSE_LEFT_BUTTON, XINPUT_DEBUG_MOUSE_MIDDLE_BUTTON, XINPUT_DEBUG_MOUSE_RIGHT_BUTTON]

  /** Whether the bit of SDL mouse button j+1 is set in `x`. */
  predicate HasButton(x: bv8, j: nat)
    requires j < |MouseButtonBits|
  {
    x & ButtonBit(j) != 0
  }

  /** The bit of SDL mouse button j+1, as listed in MouseButtonBits. */
  function ButtonBit(j: nat): (m: bv8)
    requires j < |MouseButtonBits|
    ensures m == MouseButtonBits[j]
  {
    if j == 0 then XINPUT_DEBUG_MOUSE_LEFT_BUTTON
    else if j == 1 then XINPUT_DEBUG_MOUSE_MIDDLE_BUTTON
    else XINPUT_DEBUG_MOUSE_RIGHT_BUTTON
  }

  /** The number of wheel steps of a signed wheel reading. */
  function Steps(wheel: i8): (n: nat)
    ensures n == 0 <==> wheel == 0
    ensures wheel > 0 ==> n == wheel
    ensures wheel < 0 ==> n == 0 - wheel
  {
    if wheel > 0 then wheel else 0 - wheel as int
  }

  /** One reading of a debug mouse. */
  datatype MouseReading = MouseReading(packet: u32, mickeysX: i8, mickeysY: i8, buttons: bv8, wheel: i8)

  /** What the driver remembers from the previous reading (all zero at start). */
  datatype MouseMemory = MouseMemory(prevButtons: bv8, lastX: int, lastY: int, lastPacket: u32)

  /** A mouse event handed to SDL: relative motion, or a button going down or up. */
  datatype MouseEvent = Motion(dx: int, dy: int) | Button(pressed: bool, button: nat)

  /** The relative motion event: only when the mickeys differ from the last
      reading, and only when they are not both zero. */
  function MotionEvents(mem: MouseMemory, rd: MouseReading): (r: seq<MouseEvent>)
    ensures |r| <= 1
    ensures |r| == 1 <==> (mem.lastX != rd.mickeysX || mem.lastY != rd.mickeysY) && (rd.mickeysX != 0 || rd.mickeysY != 0)
    ensures |r| == 1 ==> r[0] == Motion(rd.mickeysX, rd.mickeysY)
  {
    var (x, y) := if mem.lastX != rd.mickeysX || mem.lastY != rd.mickeysY then (rd.mickeysX as int, rd.mickeysY as int) else (0, 0);
    if x != 0 || y != 0 then [Motion(x, y)] else []
  }

  /** The events of `r` that concern mouse button `n`, in order. */
  function OnButton(r: seq<MouseEvent>, n: nat): seq<MouseEvent>
  {
    if |r| == 0 then []
    else (if r[0].Button? && r[0].button == n then [r[0]] else []) + OnButton(r[1..], n)
  }

  /** Selecting the events of one button distributes over concatenation. */
  lemma {:induction false} OnButtonConcat(a: seq<MouseEvent>, b: seq<MouseEvent>, n: nat)
    ensures OnButton(a + b, n) == OnButton(a, n) + OnButton(b, n)
    decreases |a|
  {
    if |a| == 0 {
      assert a + b == b;
    } else {
      var h := if a[0].Button? && a[0].button == n then [a[0]] else [];
      assert (a + b)[0] == a[0];
      assert (a + b)[1..] == a[1..] + b;
      OnButtonConcat(a[1..], b, n);
      assert OnButton(a + b, n) == h + (OnButton(a[1..], n) + OnButton(b, n));
      assert OnButton(a, n) == h + OnButton(a[1..], n);
    }
  }

  /** The event SDL button j+1 gets: one, if its bit changed, saying whether it is now down. */
  function ButtonEvent(changed: bv8, buttons: bv8, j: nat): seq<MouseEvent>
    requires j < |MouseButtonBits|
  {
    if HasButton(changed, j) then [Button(HasButton(buttons, j), j + 1)] else []
  }

  /** The button events of one reading, for SDL buttons 1, 2 and 3 in that
      order: exactly one event for each button whose bit is set in `changed`,
      pressed exactly when the button's bit is set in `buttons`. */
  function ButtonEvents(changed: bv8, buttons: bv8): (r: seq<MouseEvent>)
    ensures |r| <= |MouseButtonBits|
    ensures forall i :: 0 <= i < |r| ==> r[i].Button? && 1 <= r[i].button <= |MouseButtonBits|
    ensures forall j :: 0 <= j < |MouseButtonBits| ==> OnButton(r, j + 1) == ButtonEvent(changed, buttons, j)
  {
    var e0, e1, e2 := ButtonEvent(changed, buttons, 0), ButtonEvent(changed, buttons, 1), ButtonEvent(changed, buttons, 2);
    forall j | 0 <= j < |MouseButtonBits|
      ensures OnButton(e0 + e1 + e2, j + 1) == ButtonEvent(changed, buttons, j)
    {
      ThreeButtonsSelect(changed, buttons, j);
    }
    e0 + e1 + e2
  }

  /** Of the three button events in order, button j+1 selects its own. */
  lemma ThreeButtonsSelect(changed: bv8, buttons: bv8, j: nat)
    requires j < |MouseButtonBits|
    ensures OnButton(ButtonEvent(changed, buttons, 0) + ButtonEvent(changed, buttons, 1) + ButtonEvent(changed, buttons, 2), j + 1)
            == ButtonEvent(changed, buttons, j)
  {
    var e0, e1, e2 := ButtonEvent(changed, buttons, 0), ButtonEvent(changed, buttons, 1), ButtonEvent(changed, buttons, 2);
    var n := j + 1;
    OnButtonConcat(e0 + e1, e2, n);
    OnButtonConcat(e0, e1, n);
    assert OnButton(e0 + e1 + e2, n) == OnButton(e0, n) + OnButton(e1, n) + OnButton(e2, n);
    OnButtonOfEvent(changed, buttons, 0, n);
    OnButtonOfEvent(changed, buttons, 1, n);
    OnButtonOfEvent(changed, buttons, 2, n);
    if j == 0 {
      assert OnButton(e1, n) == [] && OnButton(e2, n) == [];
    } else if j == 1 {
      assert OnButton(e0, n) == [] && OnButton(e2, n) == [];
    } else {
      assert OnButton(e0, n) == [] && OnButton(e1, n) == [];
    }
  }

  /** The event of button j+1 concerns button j+1 only. */
  lemma OnButtonOfEvent(changed: bv8, buttons: bv8, j: nat, n: nat)
    requires j < |MouseButtonBits|
    ensures OnButton(ButtonEvent(changed, buttons, j), n) == if n == j + 1 then ButtonEvent(changed, buttons, j) else []
  {
    var e := ButtonEvent(changed, buttons, j);
    if |e| == 1 {
      assert e[1..] == [];
    }
  }

  /** `n` press/release pairs of the given wheel button. */
  function WheelPairs(n: nat, button: nat): (r: seq<MouseEvent>)
    ensures |r| == 2 * n
    ensures forall i :: 0 <= i < |r| ==> r[i] == Button(i % 2 == 0, button)
  {
    if n == 0 then [] else [Button(true, button), Button(false, button)] + WheelPairs(n - 1, button)
  }

  /** Wheel events: |wheel| press/release pairs of wheel-up (wheel > 0) or
      wheel-down, only when the wheel moved and the packet number is new. */
  function WheelEvents(mem: MouseMemory, rd: MouseReading): (r: seq<MouseEvent>)
    ensures rd.wheel == 0 || rd.packet == mem.lastPacket ==> r == []
    ensures rd.wheel != 0 && rd.packet != mem.lastPacket ==>
              r == WheelPairs(Steps(rd.wheel), if rd.wheel > 0 then SDL_BUTTON_WHEELUP else SDL_BUTTON_WHEELDOWN)
    ensures forall i :: 0 <= i < |r| ==> r[i].Button? && r[i].button > |MouseButtonBits|
  {
    if rd.wheel != 0 && rd.packet != mem.lastPacket then
      WheelPairs(Steps(rd.wheel), if rd.wheel > 0 then SDL_BUTTON_WHEELUP else SDL_BUTTON_WHEELDOWN)
    else []
  }

  /** One mouse reading processed: motion, then buttons, then wheel events;
      afterwards the memory holds this reading's buttons, mickeys and packet. */
  function MousePort(mem: MouseMemory, rd: MouseReading): (r: (MouseMemory, seq<MouseEvent>))
    ensures r.0 == MouseMemory(rd.buttons, rd.mickeysX, rd.mickeysY, rd.packet)
    ensures r.1 == MotionEvents(mem, rd) + ButtonEvents(rd.buttons ^ mem.prevButtons, rd.buttons) + WheelEvents(mem, rd)
  {
    var events := MotionEvents(mem, rd) + ButtonEvents(rd.buttons ^ mem.prevButtons, rd.buttons) + WheelEvents(mem, rd);
    (MouseMemory(rd.buttons, rd.mickeysX, rd.mickeysY, rd.packet), events)
  }

  /** Each of the three buttons gets exactly one event when its bit differs
      from the previous reading and none otherwise; the event says whether the
      button is now down. */
  lemma ButtonEventIffChanged(mem: MouseMemory, rd: MouseReading, k: nat)
    requires k < |MouseButtonBits|
    ensures OnButton(MousePort(mem, rd).1, k + 1) ==
              if HasButton(rd.buttons, k) != HasButton(mem.prevButtons, k)
              then [Button(HasButton(rd.buttons, k), k + 1)] else []
  {
    PortButtonEvents(mem, rd, k);
    ChangedButtonEvent(rd.buttons ^ mem.prevButtons, rd.buttons, mem.prevButtons, k);
  }

  /** Of one reading's events, those of button n are the ones among its button events. */
  lemma PortButtonEvents(mem: MouseMemory, rd: MouseReading, k: nat)
    requires k < |MouseButtonBits|
    ensures OnButton(MousePort(mem, rd).1, k + 1) == OnButton(ButtonEvents(rd.buttons ^ mem.prevButtons, rd.buttons), k + 1)
  {
    var m, w := MotionEvents(mem, rd), WheelEvents(mem, rd);
    var b := ButtonEvents(rd.buttons ^ mem.prevButtons, rd.buttons);
    assert MousePort(mem, rd).1 == m + b + w;
    ButtonsAmongOthers(m, b, w, k + 1);
  }

  /** With `c` the changed bits of `before` and `now`, button k+1 has an event
      exactly when its bit differs. */
  lemma ChangedButtonEvent(c: bv8, now: bv8, before: bv8, k: nat)
    requires k < |MouseButtonBits|
    requires c == now ^ before
    ensures ButtonEvent(c, now, k) == if HasButton(now, k) != HasButton(before, k) then [Button(HasButton(now, k), k + 1)] else []
  {
    XorChangedBit(now, before, k);
  }

  /** Around the button events sit only motion events and wheel events, which
      concern no button from 1 to 3. */
  lemma ButtonsAmongOthers(m: seq<MouseEvent>, b: seq<MouseEvent>, w: seq<MouseEvent>, n: nat)
    requires forall i :: 0 <= i < |m| ==> m[i].Motion?
    requires forall i :: 0 <= i < |w| ==> w[i].Button? && w[i].button > |MouseButtonBits|
    requires 1 <= n <= |MouseButtonBits|
    ensures OnButton(m + b + w, n) == OnButton(b, n)
  {
    OnButtonConcat(m + b, w, n);
    OnButtonConcat(m, b, n);
    NotOnButton(m, n);
    NotOnButton(w, n);
  }

  /** A sequence none of whose events concerns button `n` selects nothing for it. */
  lemma {:induction false} NotOnButton(w: seq<MouseEvent>, n: nat)
    requires forall i :: 0 <= i < |w| ==> !(w[i].Button? && w[i].button == n)
    ensures OnButton(w, n) == []
    decreases |w|
  {
    if |w| != 0 {
      NotOnButton(w[1..], n);
    }
  }

  /** A button bit is set in `a ^ b` exactly when it differs between `a` and `b`. */
  lemma XorChangedBit(a: bv8, b: bv8, k: nat)
    requires k < |MouseButtonBits|
    ensures HasButton(a ^ b, k) <==> HasButton(a, k) != HasButton(b, k)
  {
    var m := ButtonBit(k);
    assert m == 1 || m == 2 || m == 4;
  }

  /** Whatever was remembered before, processing the same reading a second
      time produces no event. */
  lemma RepeatedReadingIsQuiet(mem: MouseMemory, rd: MouseReading)
    ensures MousePort(MousePort(mem, rd).0, rd).1 == []
  {
  }

  /** The lowest-numbered port below `portCount`, from `from` on, that has a device. */
  function FirstActivePort(handles: seq<Option<Handle>>, portCount: nat, from: nat): (r: Option<nat>)
    requires |handles| == MaxPorts && portCount <= MaxPorts && from <= portCount
    ensures r.Some? ==> from <= r.value < portCount && handles[r.value].Some?
    ensures r.Some? ==> forall q :: from <= q < r.value ==> handles[q].None?
    ensures r.None? ==> forall q :: from <= q < portCount ==> handles[q].None?
    decreases portCount - from
  {
    if from == portCount then None
    else if handles[from].Some? then Some(from)
    else FirstActivePort(handles, portCount, from + 1)
  }

  /** The mouse update: refresh the ports, then walk them. */
  method MouseUpdate(handles: seq<Option<Handle>>, changes: DeviceChanges, opens: seq<Option<Handle>>,
                     readings: seq<MouseReading>, mem: MouseMemory, portCount: nat)
    returns (handles': seq<Option<Handle>>, closes: seq<Option<Option<Handle>>>, mem': MouseMemory, events: seq<MouseEvent>)
    requires |handles| == MaxPorts && |opens| == MaxPorts && |readings| == MaxPorts
    requires portCount <= MaxPorts
    ensures Refreshed(handles', closes) == RefreshPorts(handles, changes, opens, portCount)
    ensures FirstActivePort(handles', portCount, 0).None? ==> mem' == mem && events == []
    ensures FirstActivePort(handles', portCount, 0).Some? ==>
              (mem', events) == MousePort(mem, readings[FirstActivePort(handles', portCount, 0).value])
  {
    var refreshed := RefreshPorts(handles, changes, opens, portCount);
    handles', closes := refreshed.handles, refreshed.closes;
    mem', events := WalkPorts(handles', readings, mem, portCount);
  }

  /** The walk over the refreshed ports: the button loop inside reuses the
      port counter, so once a port with a device has been processed the
      counter stands past the last port and the walk ends. */
  method WalkPorts(handles: seq<Option<Handle>>, readings: seq<MouseReading>, mem: MouseMemory, portCount: nat)
    returns (mem': MouseMemory, events: seq<MouseEvent>)
    requires |handles| == MaxPorts && |readings| == MaxPorts
    requires portCount <= MaxPorts
    ensures FirstActivePort(handles, portCount, 0).None? ==> mem' == mem && events == []
    ensures FirstActivePort(handles, portCount, 0).Some? ==>
              (mem', events) == MousePort(mem, readings[FirstActivePort(handles, portCount, 0).value])
  {
    mem' := mem;
    events := [];
    ghost var processed := false;
    var i := 0;
    while i < portCount
      invariant 0 <= i <= MaxPorts
      invariant !processed ==> i <= portCount && mem' == mem && events == []
      invariant !processed ==> forall q :: 0 <= q < i ==> handles[q].None?
      invariant processed ==> i == MaxPorts && FirstActivePort(handles, portCount, 0).Some?
      invariant processed ==> (mem', events) == MousePort(mem, readings[FirstActivePort(handles, portCount, 0).value])
      decreases MaxPorts - i
    {
      if handles[i].Some? {
        assert FirstActivePort(handles, portCount, 0) == Some(i) by {
          FirstActiveIsLowest(handles, portCount, i);
        }
        var r := MousePort(mem', readings[i]);
        assert events + r.1 == r.1;
        mem', events := r.0, events + r.1;
        // the button loop runs the shared counter up to the number of buttons
        i := |MouseButtonBits|;
        processed := true;
      }
      i := i + 1;
    }
  }

  /** The first active port is `p` when `p` has a device and no lower port has. */
  lemma {:induction false} FirstActiveIsLowest(handles: seq<Option<Handle>>, portCount: nat, p: nat)
    requires |handles| == MaxPorts && portCount <= MaxPorts && p < portCount
    requires handles[p].Some?
    requires forall q :: 0 <= q < p ==> handles[q].None?
    ensures FirstActivePort(handles, portCount, 0) == Some(p)
  {
  }

  /** An event pump: the mouse is updated first, then the keyboard, whose
      event is taken from this poll's keystroke only. The handles and close
      calls of both refreshes are returned. */
  method PumpEvents(keymap: seq<int>, mice: seq<Option<Handle>>, mouseChanges: DeviceChanges, mouseOpens: seq<Option<Handle>>,
                    readings: seq<MouseReading>, mem: MouseMemory,
                    keyboards: seq<Option<Handle>>, keyboardChanges: DeviceChanges, keyboardOpens: seq<Option<Handle>>,
                    polls: seq<Option<Keystroke>>, stroke: Keystroke, portCount: nat)
    returns (mice': seq<Option<Handle>>, mouseCloses: seq<Option<Option<Handle>>>, mem': MouseMemory, mouseEvents: seq<MouseEvent>,
             keyboards': seq<Option<Handle>>, keyboardCloses: seq<Option<Option<Handle>>>, stroke': Keystroke,
             keyEvent: Option<KeyEvent>)
    requires |keymap| == XboxKeymap.TableSize
    requires |mice| == MaxPorts && |mouseOpens| == MaxPorts && |readings| == MaxPorts
    requires |keyboards| == MaxPorts && |keyboardOpens| == MaxPorts && |polls| == MaxPorts
    requires portCount <= MaxPorts
    ensures Refreshed(mice', mouseCloses) == RefreshPorts(mice, mouseChanges, mouseOpens, portCount)
    ensures FirstActivePort(mice', portCount, 0).None? ==> mouseEvents == [] && mem' == mem
    ensures FirstActivePort(mice', portCount, 0).Some? ==>
              (mem', mouseEvents) == MousePort(mem, readings[FirstActivePort(mice', portCount, 0).value])
    ensures var poll := GetKeyboardInput(keyboards, NoCloses, keyboardChanges, keyboardOpens, polls, stroke, portCount, 0);
            keyboards' == poll.handles && keyboardCloses == poll.closes && stroke' == poll.stroke
            && keyEvent == PollKeyEvent(keymap, poll)
    ensures keyEvent.Some? ==> keyEvent == KeyboardUpdate(keymap, stroke') && stroke'.virtualKey != 0
  {
    mice', mouseCloses, mem', mouseEvents := MouseUpdate(mice, mouseChanges, mouseOpens, readings, mem, portCount);
    var poll := GetKeyboardInput(keyboards, NoCloses, keyboardChanges, keyboardOpens, polls, stroke, portCount, 0);
    keyboards', keyboardCloses, stroke' := poll.handles, poll.closes, poll.stroke;
    keyEvent := PollKeyEvent(keymap, poll);
  }
}
