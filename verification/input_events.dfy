/**
 The event frames that the input entry points write, and the decoding of the written streams: the
 multi-touch slot protocol (type B) and the pen. An event of a kind or code that the device has not declared
 is dropped by the kernel's input core and never reaches a reader. Decoded state takes effect at SYN_REPORT.
 */
module InputEvents {

  datatype InputEvent = InputEvent(kind: nat, code: nat, value: int)

  const EV_SYN: nat := 0
  const EV_KEY: nat := 1
  const EV_REL: nat := 2
  const EV_ABS: nat := 3
  const SYN_REPORT: nat := 0
  const SYN_MT_REPORT: nat := 2
  const REL_HWHEEL: nat := 6
  const REL_WHEEL: nat := 8
  const ABS_X: nat := 0x00
  const ABS_Y: nat := 0x01
  const ABS_PRESSURE: nat := 0x18
  const ABS_DISTANCE: nat := 0x19
  const ABS_TILT_X: nat := 0x1a
  const ABS_TILT_Y: nat := 0x1b
  const ABS_MT_SLOT: nat := 0x2f
  const ABS_MT_POSITION_X: nat := 0x35
  const ABS_MT_POSITION_Y: nat := 0x36
  const ABS_MT_TRACKING_ID: nat := 0x39
  const ABS_MT_PRESSURE: nat := 0x3a
  const BTN_MOUSE: nat := 0x110
  const BTN_JOYSTICK: nat := 0x120
  const BTN_DIGI: nat := 0x140
  const BTN_TOUCH: nat := 0x14a

  const ACTION_DOWN: int := 0
  const ACTION_UP: int := 1
  const ACTION_MOVE: int := 2
  const ACTION_HOVER_ENTER: int := 9
  const ACTION_HOVER_EXIT: int := 10

  /** The highest slot number announced for the touch device. */
  const MAX_SLOT: int := 10

  datatype Device = Keyboard | Touch | Stylus | Tablet

  /** A call of one input entry point for some display. */
  datatype Call =
    | Key(keyCode: nat, down: bool)
    | TouchPoint(pointerId: int, action: int, pressure: int, x: int, y: int)
    | StylusButton(button: nat, down: bool)
    | StylusHover(action: int, x: int, y: int, distance: int, tiltX: int, tiltY: int)
    | StylusPoint(action: int, pressure: int, x: int, y: int, tiltX: int, tiltY: int)
    | PointerMotion(x: int, y: int)
    | PointerButton(button: nat, x: int, y: int, down: bool)
    | PointerScroll(amount: nat, vertical: bool)

  function DeviceOf(call: Call): Device {
    match call
    case Key(_, _) => Keyboard
    case TouchPoint(_, _, _, _, _) => Touch
    case StylusButton(_, _) => Stylus
    case StylusHover(_, _, _, _, _, _) => Stylus
    case StylusPoint(_, _, _, _, _, _) => Stylus
    case PointerMotion(_, _) => Tablet
    case PointerButton(_, _, _, _) => Tablet
    case PointerScroll(_, _) => Tablet
  }

  /** inject takes a 32-bit value and a 16-bit code; wider arguments are truncated. */
  function Wrap32(v: int): int {
    (v + 0x8000_0000) % 0x1_0000_0000 - 0x8000_0000
  }

  function Code16(v: nat): nat {
    v % 0x1_0000
  }

  const REPORT := InputEvent(EV_SYN, SYN_REPORT, 0)

  function AbsEvent(code: nat, value: int): InputEvent {
    InputEvent(EV_ABS, code, Wrap32(value))
  }

  function KeyEvent(code: nat, down: bool): InputEvent {
    InputEvent(EV_KEY, Code16(code), if down then 1 else 0)
  }

  function TouchFrame(pointerId: int, action: int, pressure: int, x: int, y: int): seq<InputEvent> {
    if action == ACTION_MOVE || action == ACTION_DOWN then
      [AbsEvent(ABS_MT_SLOT, pointerId),
       AbsEvent(ABS_MT_TRACKING_ID, pointerId),
       AbsEvent(ABS_MT_POSITION_X, x),
       AbsEvent(ABS_MT_POSITION_Y, y),
       AbsEvent(ABS_MT_PRESSURE, pressure),
       InputEvent(EV_SYN, SYN_MT_REPORT, 0),
       REPORT]
    else if action == ACTION_UP then
      [AbsEvent(ABS_MT_SLOT, pointerId),
       AbsEvent(ABS_MT_TRACKING_ID, -1),
       InputEvent(EV_SYN, SYN_MT_REPORT, 0),
       REPORT]
    else []
  }

  function HoverFrame(action: int, x: int, y: int, distance: int, tiltX: int, tiltY: int): seq<InputEvent> {
    (if action == ACTION_HOVER_ENTER then [KeyEvent(BTN_DIGI, true)]
     else if action == ACTION_HOVER_EXIT then [KeyEvent(BTN_DIGI, false)]
     else [])
    + [AbsEvent(ABS_X, x),
       AbsEvent(ABS_Y, y),
       AbsEvent(ABS_DISTANCE, distance),
       AbsEvent(ABS_TILT_X, tiltX),
       AbsEvent(ABS_TILT_X, tiltY),
       AbsEvent(ABS_PRESSURE, 0),
       REPORT]
  }

  function StylusFrame(action: int, pressure: int, x: int, y: int, tiltX: int, tiltY: int): seq<InputEvent> {
    (if action == ACTION_DOWN then [KeyEvent(BTN_TOUCH, true), KeyEvent(BTN_DIGI, true)] else [])
    + (if action == ACTION_MOVE || action == ACTION_DOWN then
         [AbsEvent(ABS_X, x),
          AbsEvent(ABS_Y, y),
          AbsEvent(ABS_PRESSURE, pressure),
          AbsEvent(ABS_TILT_X, tiltX),
          AbsEvent(ABS_TILT_X, tiltY),
          REPORT]
       else if action == ACTION_UP then
         [KeyEvent(BTN_TOUCH, false),
          KeyEvent(BTN_DIGI, false),
          AbsEvent(ABS_PRESSURE, 0),
          REPORT]
       else [])
  }

  /** What one call writes to the device it concerns. */
  function Frame(call: Call): seq<InputEvent> {
    match call
    case Key(code, down) => [KeyEvent(code, down), REPORT]
    case TouchPoint(pointerId, action, pressure, x, y) => TouchFrame(pointerId, action, pressure, x, y)
    case StylusButton(button, down) => [KeyEvent(button, down), REPORT]
    case StylusHover(action, x, y, distance, tiltX, tiltY) => HoverFrame(action, x, y, distance, tiltX, tiltY)
    case StylusPoint(action, pressure, x, y, tiltX, tiltY) => StylusFrame(action, pressure, x, y, tiltX, tiltY)
    case PointerMotion(x, y) => [AbsEvent(ABS_X, x), AbsEvent(ABS_Y, y), REPORT]
    case PointerButton(button, x, y, down) =>
      [AbsEvent(ABS_X, x), AbsEvent(ABS_Y, y), REPORT, KeyEvent(button, down), REPORT]
    case PointerScroll(amount, vertical) =>
      [InputEvent(EV_REL, if vertical then REL_WHEEL else REL_HWHEEL, Wrap32(amount)), REPORT]
  }

  function Frames(calls: seq<Call>): seq<InputEvent> {
    if calls == [] then [] else Frames(calls[..|calls| - 1]) + Frame(calls[|calls| - 1])
  }

  predicate Closed(s: seq<InputEvent>) {
    s == [] || s[|s| - 1] == REPORT
  }

  lemma FrameIsClosed(call: Call)
    ensures Closed(Frame(call))
  {
    match call
    case TouchPoint(pointerId, action, pressure, x, y) =>
      assert TouchFrame(pointerId, action, pressure, x, y) == Frame(call);
    case _ =>
  }

  lemma ClosedConcat(a: seq<InputEvent>, b: seq<InputEvent>)
    requires Closed(a) && Closed(b)
    ensures Closed(a + b)
  {}

  /** Whatever is written is complete: a stream of frames ends with SYN_REPORT or is empty. */
  lemma {:induction false} FramesAreClosed(calls: seq<Call>)
    ensures Closed(Frames(calls))
    decreases |calls|
  {
    if calls != [] {
      FramesAreClosed(calls[..|calls| - 1]);
      FrameIsClosed(calls[|calls| - 1]);
      ClosedConcat(Frames(calls[..|calls| - 1]), Frame(calls[|calls| - 1]));
    }
  }

  // ---------- what the devices declare ----------

  /** The keys, wheels and axes that each device declares when it is set up. */
  predicate Declares(device: Device, e: InputEvent) {
    if e.kind == EV_SYN then true
    else if e.kind == EV_KEY then
      match device
      case Keyboard => e.code < 255
      case Touch => false
      case Stylus => e.code == BTN_TOUCH || e.code == BTN_DIGI
      case Tablet => BTN_MOUSE <= e.code < BTN_JOYSTICK
    else if e.kind == EV_REL then device == Tablet && (e.code == REL_WHEEL || e.code == REL_HWHEEL)
    else if e.kind == EV_ABS then
      match device
      case Keyboard => false
      case Touch =>
        || e.code == ABS_X || e.code == ABS_Y || e.code == ABS_MT_POSITION_X || e.code == ABS_MT_POSITION_Y
        || e.code == ABS_MT_SLOT || e.code == ABS_MT_TRACKING_ID
      case Stylus => e.code == ABS_X || e.code == ABS_Y || e.code == ABS_PRESSURE
      case Tablet => e.code == ABS_X || e.code == ABS_Y
    else false
  }

  /** The part of a written stream that reaches a reader of the device. */
  function Delivered(device: Device, events: seq<InputEvent>): seq<InputEvent> {
    if events == [] then []
    else
      var earlier, last := Delivered(device, events[..|events| - 1]), events[|events| - 1];
      if Declares(device, last) then earlier + [last] else earlier
  }

  lemma {:induction false} DeliveredConcat(device: Device, a: seq<InputEvent>, b: seq<InputEvent>)
    ensures Delivered(device, a + b) == Delivered(device, a) + Delivered(device, b)
    decreases |b|
  {
    if b == [] {
      assert a + b == a;
    } else {
      assert (a + b)[..|a + b| - 1] == a + b[..|b| - 1];
      DeliveredConcat(device, a, b[..|b| - 1]);
    }
  }

  /** What a reader gets of one call. */
  function Arriving(call: Call): seq<InputEvent> {
    Delivered(DeviceOf(call), Frame(call))
  }

  function AllArriving(calls: seq<Call>): seq<InputEvent> {
    if calls == [] then [] else AllArriving(calls[..|calls| - 1]) + Arriving(calls[|calls| - 1])
  }

  /** The frames of one device's calls arrive call by call. */
  lemma {:induction false} FramesArrive(device: Device, calls: seq<Call>)
    requires forall c :: c in calls ==> DeviceOf(c) == device
    ensures Delivered(device, Frames(calls)) == AllArriving(calls)
    decreases |calls|
  {
    if calls != [] {
      var earlier, last := calls[..|calls| - 1], calls[|calls| - 1];
      assert last in calls;
      FramesArrive(device, earlier);
      DeliveredConcat(device, Frames(earlier), Frame(last));
    }
  }

  lemma {:induction false} DeliveredAll(device: Device, events: seq<InputEvent>)
    requires forall e :: e in events ==> Declares(device, e)
    ensures Delivered(device, events) == events
    decreases |events|
  {
    if events != [] {
      assert events[|events| - 1] in events;
      DeliveredAll(device, events[..|events| - 1]);
    }
  }

  lemma {:induction false} DeliveredNone(device: Device, events: seq<InputEvent>)
    requires forall e :: e in events ==> !Declares(device, e)
    ensures Delivered(device, events) == []
    decreases |events|
  {
    if events != [] {
      assert events[|events| - 1] in events;
      DeliveredNone(device, events[..|events| - 1]);
    }
  }

  /** Events that are not declared disappear from between those that are. */
  lemma DeliveredAround(device: Device, before: seq<InputEvent>, lost: seq<InputEvent>, after: seq<InputEvent>)
    requires forall e :: e in before ==> Declares(device, e)
    requires forall e :: e in lost ==> !Declares(device, e)
    requires forall e :: e in after ==> Declares(device, e)
    ensures Delivered(device, before + lost + after) == before + after
  {
    DeliveredConcat(device, before + lost, after);
    DeliveredConcat(device, before, lost);
    DeliveredAll(device, before);
    DeliveredNone(device, lost);
    DeliveredAll(device, after);
    assert before + [] == before;
  }

  // ---------- the slot protocol ----------

  datatype Contact = Contact(x: int, y: int, pressure: int)

  /** `current` is the slot that further events apply to; `reported` is the state as of the last report. */
  datatype Slots = Slots(current: int, active: map<int, Contact>, reported: map<int, Contact>)

  const NO_CONTACTS := Slots(0, map[], map[])

  predicate InRange(slot: int) {
    0 <= slot <= MAX_SLOT
  }

  /** An out-of-range slot number is ignored, as are positions for a slot without a contact. */
  function DecodeTouch(s: Slots, e: InputEvent): Slots {
    if e.kind == EV_ABS && e.code == ABS_MT_SLOT then
      if InRange(e.value) then s.(current := e.value) else s
    else if e.kind == EV_ABS && e.code == ABS_MT_TRACKING_ID then
      if e.value == -1 then s.(active := s.active - {s.current})
      else if s.current in s.active then s
      else s.(active := s.active[s.current := Contact(0, 0, 0)])
    else if e.kind == EV_ABS && s.current in s.active then
      var c := s.active[s.current];
      if e.code == ABS_MT_POSITION_X then s.(active := s.active[s.current := c.(x := e.value)])
      else if e.code == ABS_MT_POSITION_Y then s.(active := s.active[s.current := c.(y := e.value)])
      else if e.code == ABS_MT_PRESSURE then s.(active := s.active[s.current := c.(pressure := e.value)])
      else s
    else if e == REPORT then s.(reported := s.active)
    else s
  }

  function DecodeTouches(s: Slots, events: seq<InputEvent>): Slots {
    if events == [] then s else DecodeTouch(DecodeTouches(s, events[..|events| - 1]), events[|events| - 1])
  }

  /** The contacts that a sequence of touch calls describes, of which only the position can be delivered. */
  function Touching(contacts: map<int, Contact>, call: Call): map<int, Contact> {
    if !call.TouchPoint? then contacts
    else if call.action == ACTION_DOWN || call.action == ACTION_MOVE then
      contacts[call.pointerId := Contact(Wrap32(call.x), Wrap32(call.y), 0)]
    else if call.action == ACTION_UP then contacts - {call.pointerId}
    else contacts
  }

  function AllTouching(calls: seq<Call>): map<int, Contact> {
    if calls == [] then map[] else Touching(AllTouching(calls[..|calls| - 1]), calls[|calls| - 1])
  }

  lemma {:induction false} DecodeTouchesConcat(s: Slots, a: seq<InputEvent>, b: seq<InputEvent>)
    ensures DecodeTouches(s, a + b) == DecodeTouches(DecodeTouches(s, a), b)
    decreases |b|
  {
    if b == [] {
      assert a + b == a;
    } else {
      var shorter := b[..|b| - 1];
      assert (a + b)[..|a + b| - 1] == a + shorter;
      DecodeTouchesConcat(s, a, shorter);
    }
  }

  lemma DecodeStep(s: Slots, events: seq<InputEvent>, e: InputEvent)
    ensures DecodeTouches(s, events + [e]) == DecodeTouch(DecodeTouches(s, events), e)
  {}

  /** The slots between frames: everything written has been reported, and all slots are legal. */
  predicate Settled(s: Slots) {
    s.reported == s.active && InRange(s.current) && forall slot :: slot in s.active ==> InRange(slot)
  }

  /** No pressure was ever delivered. */
  predicate Positions(s: Slots) {
    forall slot :: slot in s.active ==> s.active[slot].pressure == 0
  }

  /** A DOWN or MOVE arrives without its pressure. */
  lemma ContactArrives(call: Call)
    requires call.TouchPoint? && (call.action == ACTION_DOWN || call.action == ACTION_MOVE)
    ensures Arriving(call) == [AbsEvent(ABS_MT_SLOT, call.pointerId), AbsEvent(ABS_MT_TRACKING_ID, call.pointerId),
                               AbsEvent(ABS_MT_POSITION_X, call.x), AbsEvent(ABS_MT_POSITION_Y, call.y)]
                              + [InputEvent(EV_SYN, SYN_MT_REPORT, 0), REPORT]
  {
    var before := [AbsEvent(ABS_MT_SLOT, call.pointerId), AbsEvent(ABS_MT_TRACKING_ID, call.pointerId),
                   AbsEvent(ABS_MT_POSITION_X, call.x), AbsEvent(ABS_MT_POSITION_Y, call.y)];
    var lost, after := [AbsEvent(ABS_MT_PRESSURE, call.pressure)], [InputEvent(EV_SYN, SYN_MT_REPORT, 0), REPORT];
    assert Frame(call) == before + lost + after;
    DeliveredAround(Touch, before, lost, after);
  }

  lemma DecodeDown(s: Slots, call: Call)
    requires Settled(s) && Positions(s)
    requires call.TouchPoint? && (call.action == ACTION_DOWN || call.action == ACTION_MOVE)
    ensures var id := Wrap32(call.pointerId);
            var slot := if InRange(id) then id else s.current;
            var active := if id == -1 then s.active - {slot}
                          else s.active[slot := Contact(Wrap32(call.x), Wrap32(call.y), 0)];
            DecodeTouches(s, Arriving(call)) == Slots(slot, active, active)
  {
    ContactArrives(call);
    var f := Arriving(call);
    DecodeTouchesConcat(s, f[..4], f[4..]);
    assert f == f[..4] + f[4..];
    DecodePrefix4(s, f[..4]);
    DecodeContact(s, f[..4], Wrap32(call.pointerId), Wrap32(call.x), Wrap32(call.y));
    var t := DecodeTouches(s, f[..4]);
    assert f[4..] == [] + [f[4]] + [f[5]];
    DecodeStep(t, [] + [f[4]], f[5]);
    DecodeStep(t, [], f[4]);
  }

  /** The four events of a DOWN or MOVE that matter, decoded one after the other. */
  lemma DecodeContact(s: Slots, f: seq<InputEvent>, id: int, x: int, y: int)
    requires Settled(s) && Positions(s) && |f| == 4
    requires f[0] == InputEvent(EV_ABS, ABS_MT_SLOT, id) && f[1] == InputEvent(EV_ABS, ABS_MT_TRACKING_ID, id)
    requires f[2] == InputEvent(EV_ABS, ABS_MT_POSITION_X, x) && f[3] == InputEvent(EV_ABS, ABS_MT_POSITION_Y, y)
    ensures var slot := if InRange(id) then id else s.current;
            var t := DecodeTouch(DecodeTouch(DecodeTouch(DecodeTouch(s, f[0]), f[1]), f[2]), f[3]);
            var active := if id == -1 then s.active - {slot} else s.active[slot := Contact(x, y, 0)];
            t == Slots(slot, active, s.reported)
  {
    var slot := if InRange(id) then id else s.current;
    var s2 := DecodeTouch(DecodeTouch(s, f[0]), f[1]);
    assert s2.current == slot && (id == -1 <==> slot !in s2.active);
  }

  lemma DecodePrefix4(s: Slots, f: seq<InputEvent>)
    requires |f| == 4
    ensures DecodeTouches(s, f)
         == DecodeTouch(DecodeTouch(DecodeTouch(DecodeTouch(s, f[0]), f[1]), f[2]), f[3])
  {
    assert f == [f[0]] + [f[1]] + [f[2]] + [f[3]];
    DecodeStep(s, [f[0]] + [f[1]] + [f[2]], f[3]);
    DecodeStep(s, [f[0]] + [f[1]], f[2]);
    DecodeStep(s, [f[0]], f[1]);
    DecodeStep(s, [], f[0]);
    assert [] + [f[0]] == [f[0]];
  }

  lemma DecodeUp(s: Slots, call: Call)
    requires Settled(s) && call.TouchPoint? && call.action == ACTION_UP
    ensures var slot := if InRange(Wrap32(call.pointerId)) then Wrap32(call.pointerId) else s.current;
            DecodeTouches(s, Arriving(call)) == Slots(slot, s.active - {slot}, s.active - {slot})
  {
    DeliveredAll(Touch, Frame(call));
    DecodePrefix4(s, Frame(call));
  }

  /**
   Exactly when one touch call decodes to the update it describes: a pointer id that is a legal slot always
   does; any other id is decoded into the previous slot, which is right only for an UP that finds that slot
   empty already.
   */
  lemma TouchCallDecodes(s: Slots, call: Call)
    requires Settled(s) && Positions(s) && call.TouchPoint?
    ensures var t := DecodeTouches(s, Arriving(call)); Settled(t) && Positions(t)
    ensures DecodeTouches(s, Arriving(call)).reported == Touching(s.reported, call)
       <==> InRange(call.pointerId)
            || !(call.action == ACTION_DOWN || call.action == ACTION_MOVE || call.action == ACTION_UP)
            || (call.action == ACTION_UP && !InRange(Wrap32(call.pointerId)) && s.current !in s.active)
            || (call.action == ACTION_UP && InRange(Wrap32(call.pointerId)) && Wrap32(call.pointerId) !in s.active)
  {
    var t := DecodeTouches(s, Arriving(call));
    if call.action == ACTION_DOWN || call.action == ACTION_MOVE {
      DecodeDown(s, call);
      if !InRange(call.pointerId) {
        assert call.pointerId in Touching(s.reported, call).Keys;
        assert call.pointerId !in t.reported.Keys;
      }
    } else if call.action == ACTION_UP {
      DecodeUp(s, call);
      var slot := if InRange(Wrap32(call.pointerId)) then Wrap32(call.pointerId) else s.current;
      if !InRange(call.pointerId) {
        assert Touching(s.reported, call) == s.active;
        assert slot in s.active <==> s.active - {slot} != s.active;
      }
    }
  }

  lemma {:induction false} TouchCallsDecode(calls: seq<Call>)
    requires forall c :: c in calls ==> c.TouchPoint? && InRange(c.pointerId)
    ensures var s := DecodeTouches(NO_CONTACTS, AllArriving(calls));
            Settled(s) && Positions(s) && s.reported == AllTouching(calls)
    decreases |calls|
  {
    if calls != [] {
      var earlier, last := calls[..|calls| - 1], calls[|calls| - 1];
      assert last in calls;
      TouchCallsDecode(earlier);
      DecodeTouchesConcat(NO_CONTACTS, AllArriving(earlier), Arriving(last));
      TouchCallDecodes(DecodeTouches(NO_CONTACTS, AllArriving(earlier)), last);
    }
  }

  /**
   What is delivered of any sequence of touch calls with legal pointer ids decodes to exactly the contacts it
   describes: inserted or moved by DOWN and MOVE, removed by UP.
   */
  lemma TouchStreamDecodes(calls: seq<Call>)
    requires forall c :: c in calls ==> c.TouchPoint? && InRange(c.pointerId)
    ensures var s := DecodeTouches(NO_CONTACTS, Delivered(Touch, Frames(calls)));
            Settled(s) && s.reported == AllTouching(calls)
  {
    FramesArrive(Touch, calls);
    TouchCallsDecode(calls);
  }

  /** The touch device has no pressure axis: the pressure of a contact is right exactly when it is zero. */
  lemma TouchPressureIsLost(calls: seq<Call>, call: Call)
    requires forall c :: c in calls + [call] ==> c.TouchPoint? && InRange(c.pointerId)
    requires call.action == ACTION_DOWN || call.action == ACTION_MOVE
    ensures var contacts := DecodeTouches(NO_CONTACTS, Delivered(Touch, Frames(calls + [call]))).reported;
            && call.pointerId in contacts
            && (contacts[call.pointerId].pressure == Wrap32(call.pressure) <==> Wrap32(call.pressure) == 0)
  {
    TouchStreamDecodes(calls + [call]);
    assert (calls + [call])[..|calls|] == calls;
  }

  // ---------- the pen ----------

  datatype Pen = Pen(near: bool, touching: bool, x: int, y: int, pressure: int, distance: int, tiltX: int, tiltY: int)

  datatype PenDecoder = PenDecoder(now: Pen, reported: Pen)

  const NO_PEN := Pen(false, false, 0, 0, 0, 0, 0, 0)

  function DecodePen(d: PenDecoder, e: InputEvent): PenDecoder {
    if e.kind == EV_KEY && e.code == BTN_TOUCH then d.(now := d.now.(touching := e.value != 0))
    else if e.kind == EV_KEY && e.code == BTN_DIGI then d.(now := d.now.(near := e.value != 0))
    else if e.kind == EV_ABS && e.code == ABS_X then d.(now := d.now.(x := e.value))
    else if e.kind == EV_ABS && e.code == ABS_Y then d.(now := d.now.(y := e.value))
    else if e.kind == EV_ABS && e.code == ABS_PRESSURE then d.(now := d.now.(pressure := e.value))
    else if e.kind == EV_ABS && e.code == ABS_DISTANCE then d.(now := d.now.(distance := e.value))
    else if e.kind == EV_ABS && e.code == ABS_TILT_X then d.(now := d.now.(tiltX := e.value))
    else if e.kind == EV_ABS && e.code == ABS_TILT_Y then d.(now := d.now.(tiltY := e.value))
    else if e == REPORT then d.(reported := d.now)
    else d
  }

  function DecodePens(d: PenDecoder, events: seq<InputEvent>): PenDecoder
    decreases |events|
  {
    if events == [] then d else DecodePens(DecodePen(d, events[0]), events[1..])
  }

  /** What a stylus call does to the pen: position and pressure move it, distance and tilt never arrive. */
  function MovePen(p: Pen, call: Call): Pen {
    match call
    case StylusHover(action, x, y, _, _, _) =>
      p.(near := if action == ACTION_HOVER_ENTER then true else if action == ACTION_HOVER_EXIT then false else p.near,
         x := Wrap32(x), y := Wrap32(y), pressure := 0)
    case StylusPoint(action, pressure, x, y, _, _) =>
      if action == ACTION_DOWN || action == ACTION_MOVE then
        p.(near := p.near || action == ACTION_DOWN, touching := p.touching || action == ACTION_DOWN,
           x := Wrap32(x), y := Wrap32(y), pressure := Wrap32(pressure))
      else if action == ACTION_UP then p.(near := false, touching := false, pressure := 0)
      else p
    case StylusButton(button, down) =>
      if Code16(button) == BTN_TOUCH then p.(touching := down)
      else if Code16(button) == BTN_DIGI then p.(near := down)
      else p
    case _ => p
  }

  function MovePens(p: Pen, calls: seq<Call>): Pen {
    if calls == [] then p else MovePen(MovePens(p, calls[..|calls| - 1]), calls[|calls| - 1])
  }

  lemma {:induction false} DecodePensConcat(d: PenDecoder, a: seq<InputEvent>, b: seq<InputEvent>)
    ensures DecodePens(d, a + b) == DecodePens(DecodePens(d, a), b)
    decreases |a|
  {
    if a == [] {
      assert a + b == b;
    } else {
      assert (a + b)[1..] == a[1..] + b;
      DecodePensConcat(DecodePen(d, a[0]), a[1..], b);
    }
  }

  lemma DecodePens1(d: PenDecoder, f: seq<InputEvent>)
    requires |f| == 1
    ensures DecodePens(d, f) == DecodePen(d, f[0])
  {}

  lemma DecodePens2(d: PenDecoder, f: seq<InputEvent>)
    requires |f| == 2
    ensures DecodePens(d, f) == DecodePen(DecodePen(d, f[0]), f[1])
  {
    assert f == f[..1] + f[1..];
    DecodePensConcat(d, f[..1], f[1..]);
    DecodePens1(d, f[..1]);
    DecodePens1(DecodePen(d, f[0]), f[1..]);
  }

  lemma DecodePens4(d: PenDecoder, f: seq<InputEvent>)
    requires |f| == 4
    ensures DecodePens(d, f) == DecodePen(DecodePen(DecodePen(DecodePen(d, f[0]), f[1]), f[2]), f[3])
  {
    assert f == f[..2] + f[2..];
    DecodePensConcat(d, f[..2], f[2..]);
    DecodePens2(d, f[..2]);
    DecodePens2(DecodePens(d, f[..2]), f[2..]);
  }

  function HoverKey(action: int): seq<InputEvent> {
    if action == ACTION_HOVER_ENTER then [KeyEvent(BTN_DIGI, true)]
    else if action == ACTION_HOVER_EXIT then [KeyEvent(BTN_DIGI, false)]
    else []
  }

  /** A hover arrives without distance and tilt. */
  lemma HoverArrives(call: Call)
    requires call.StylusHover?
    ensures Arriving(call) == HoverKey(call.action)
                              + [AbsEvent(ABS_X, call.x), AbsEvent(ABS_Y, call.y), AbsEvent(ABS_PRESSURE, 0), REPORT]
  {
    var before := HoverKey(call.action) + [AbsEvent(ABS_X, call.x), AbsEvent(ABS_Y, call.y)];
    var lost := [AbsEvent(ABS_DISTANCE, call.distance),
                 AbsEvent(ABS_TILT_X, call.tiltX), AbsEvent(ABS_TILT_X, call.tiltY)];
    var after := [AbsEvent(ABS_PRESSURE, 0), REPORT];
    assert Frame(call) == before + lost + after;
    DeliveredAround(Stylus, before, lost, after);
  }

  lemma HoverDecodes(d: PenDecoder, call: Call)
    requires d.now == d.reported && call.StylusHover?
    ensures DecodePens(d, Arriving(call)) == PenDecoder(MovePen(d.now, call), MovePen(d.now, call))
  {
    var key := HoverKey(call.action);
    var body := [AbsEvent(ABS_X, call.x), AbsEvent(ABS_Y, call.y), AbsEvent(ABS_PRESSURE, 0), REPORT];
    HoverArrives(call);
    DecodePensConcat(d, key, body);
    if key != [] {
      DecodePens1(d, key);
    }
    DecodePens4(DecodePens(d, key), body);
  }

  lemma StylusDecodes(d: PenDecoder, call: Call)
    requires d.now == d.reported && call.StylusPoint? && (call.action == ACTION_DOWN || call.action == ACTION_MOVE)
    ensures DecodePens(d, Arriving(call)) == PenDecoder(MovePen(d.now, call), MovePen(d.now, call))
  {
    var keys := if call.action == ACTION_DOWN then [KeyEvent(BTN_TOUCH, true), KeyEvent(BTN_DIGI, true)] else [];
    var tip := [AbsEvent(ABS_X, call.x), AbsEvent(ABS_Y, call.y), AbsEvent(ABS_PRESSURE, call.pressure)];
    var lost := [AbsEvent(ABS_TILT_X, call.tiltX), AbsEvent(ABS_TILT_X, call.tiltY)];
    assert Frame(call) == (keys + tip) + lost + [REPORT];
    DeliveredAround(Stylus, keys + tip, lost, [REPORT]);
    assert Arriving(call) == keys + (tip + [REPORT]);
    DecodePensConcat(d, keys, tip + [REPORT]);
    if keys != [] {
      DecodePens2(d, keys);
    }
    DecodePens4(DecodePens(d, keys), tip + [REPORT]);
  }

  lemma LiftDecodes(d: PenDecoder, call: Call)
    requires d.now == d.reported && call.StylusPoint? && call.action != ACTION_DOWN && call.action != ACTION_MOVE
    ensures DecodePens(d, Arriving(call)) == PenDecoder(MovePen(d.now, call), MovePen(d.now, call))
  {
    DeliveredAll(Stylus, Frame(call));
    if call.action == ACTION_UP {
      DecodePens4(d, Frame(call));
    } else {
      assert Frame(call) == [];
    }
  }

  lemma ButtonDecodes(d: PenDecoder, call: Call)
    requires d.now == d.reported && call.StylusButton?
    ensures DecodePens(d, Arriving(call)) == PenDecoder(MovePen(d.now, call), MovePen(d.now, call))
  {
    var e := KeyEvent(call.button, call.down);
    if Declares(Stylus, e) {
      DeliveredAll(Stylus, Frame(call));
      DecodePens2(d, Frame(call));
    } else {
      assert Frame(call) == [] + [e] + [REPORT];
      DeliveredAround(Stylus, [], [e], [REPORT]);
      assert Arriving(call) == [REPORT];
      DecodePens1(d, [REPORT]);
    }
  }

  lemma PenCallDecodes(d: PenDecoder, call: Call)
    requires d.now == d.reported && DeviceOf(call) == Stylus
    ensures DecodePens(d, Arriving(call)) == PenDecoder(MovePen(d.now, call), MovePen(d.now, call))
  {
    if call.StylusHover? {
      HoverDecodes(d, call);
    } else if call.StylusButton? {
      ButtonDecodes(d, call);
    } else if call.action == ACTION_DOWN || call.action == ACTION_MOVE {
      StylusDecodes(d, call);
    } else {
      LiftDecodes(d, call);
    }
  }

  lemma {:induction false} PenCallsDecode(calls: seq<Call>)
    requires forall c :: c in calls ==> DeviceOf(c) == Stylus
    ensures DecodePens(PenDecoder(NO_PEN, NO_PEN), AllArriving(calls))
         == PenDecoder(MovePens(NO_PEN, calls), MovePens(NO_PEN, calls))
    decreases |calls|
  {
    if calls != [] {
      var earlier, last := calls[..|calls| - 1], calls[|calls| - 1];
      assert last in calls;
      PenCallsDecode(earlier);
      DecodePensConcat(PenDecoder(NO_PEN, NO_PEN), AllArriving(earlier), Arriving(last));
      PenCallDecodes(DecodePens(PenDecoder(NO_PEN, NO_PEN), AllArriving(earlier)), last);
    }
  }

  /** What is delivered of any sequence of stylus calls decodes to the pen it describes. */
  lemma PenStreamDecodes(calls: seq<Call>)
    requires forall c :: c in calls ==> DeviceOf(c) == Stylus
    ensures DecodePens(PenDecoder(NO_PEN, NO_PEN), Delivered(Stylus, Frames(calls)))
         == PenDecoder(MovePens(NO_PEN, calls), MovePens(NO_PEN, calls))
  {
    FramesArrive(Stylus, calls);
    PenCallsDecode(calls);
  }

  lemma {:induction false} UndeclaredAxesStayZero(calls: seq<Call>)
    ensures var pen := MovePens(NO_PEN, calls); pen.distance == 0 && pen.tiltX == 0 && pen.tiltY == 0
  {
    if calls != [] {
      UndeclaredAxesStayZero(calls[..|calls| - 1]);
    }
  }

  /** After a call that carries tilt, the tilt the pen reports is the one meant exactly when both values are zero. */
  lemma TiltIsRightOnlyAtZero(calls: seq<Call>, call: Call)
    requires forall c :: c in calls ==> DeviceOf(c) == Stylus
    requires call.StylusHover? || (call.StylusPoint? && (call.action == ACTION_DOWN || call.action == ACTION_MOVE))
    ensures var pen := DecodePens(PenDecoder(NO_PEN, NO_PEN), Delivered(Stylus, Frames(calls + [call]))).reported;
            && (pen.tiltX == Wrap32(call.tiltX) && pen.tiltY == Wrap32(call.tiltY)
                <==> Wrap32(call.tiltX) == 0 && Wrap32(call.tiltY) == 0)
            && (call.StylusHover? ==> (pen.distance == Wrap32(call.distance) <==> Wrap32(call.distance) == 0))
  {
    PenStreamDecodes(calls + [call]);
    UndeclaredAxesStayZero(calls + [call]);
  }

  /** A pen put down with tilt 30 and 10 is reported upright. */
  lemma TiltIsLost(pressure: int, x: int, y: int)
    ensures var written := Frames([StylusPoint(ACTION_DOWN, pressure, x, y, 30, 10)]);
            var pen := DecodePens(PenDecoder(NO_PEN, NO_PEN), Delivered(Stylus, written)).reported;
            pen == Pen(true, true, Wrap32(x), Wrap32(y), Wrap32(pressure), 0, 0, 0)
  {
    var calls := [StylusPoint(ACTION_DOWN, pressure, x, y, 30, 10)];
    assert calls[..0] == [];
    PenStreamDecodes(calls);
    assert MovePens(NO_PEN, calls) == MovePen(MovePens(NO_PEN, []), calls[0]);
  }

  // ---------- what is written, delivered or not ----------

  lemma HoverBody(d: PenDecoder, x: int, y: int, distance: int, tiltX: int, tiltY: int)
    ensures var pen := d.now.(x := Wrap32(x), y := Wrap32(y), distance := Wrap32(distance),
                              tiltX := Wrap32(tiltY), pressure := 0);
            DecodePens(d, [AbsEvent(ABS_X, x), AbsEvent(ABS_Y, y), AbsEvent(ABS_DISTANCE, distance),
                           AbsEvent(ABS_TILT_X, tiltX)]
                          + ([AbsEvent(ABS_TILT_X, tiltY), AbsEvent(ABS_PRESSURE, 0)] + [REPORT]))
            == PenDecoder(pen, pen)
  {
    var f := [AbsEvent(ABS_X, x), AbsEvent(ABS_Y, y), AbsEvent(ABS_DISTANCE, distance), AbsEvent(ABS_TILT_X, tiltX)];
    var g := [AbsEvent(ABS_TILT_X, tiltY), AbsEvent(ABS_PRESSURE, 0)];
    DecodePensConcat(d, f, g + [REPORT]);
    DecodePens4(d, f);
    DecodePensConcat(DecodePens(d, f), g, [REPORT]);
    DecodePens2(DecodePens(d, f), g);
    DecodePens1(DecodePens(DecodePens(d, f), g), [REPORT]);
  }

  lemma PointBody(d: PenDecoder, pressure: int, x: int, y: int, tiltX: int, tiltY: int)
    ensures var pen := d.now.(x := Wrap32(x), y := Wrap32(y), pressure := Wrap32(pressure), tiltX := Wrap32(tiltY));
            DecodePens(d, [AbsEvent(ABS_X, x), AbsEvent(ABS_Y, y), AbsEvent(ABS_PRESSURE, pressure),
                           AbsEvent(ABS_TILT_X, tiltX)] + [AbsEvent(ABS_TILT_X, tiltY), REPORT])
            == PenDecoder(pen, pen)
  {
    var f := [AbsEvent(ABS_X, x), AbsEvent(ABS_Y, y), AbsEvent(ABS_PRESSURE, pressure), AbsEvent(ABS_TILT_X, tiltX)];
    DecodePensConcat(d, f, [AbsEvent(ABS_TILT_X, tiltY), REPORT]);
    DecodePens4(d, f);
    DecodePens2(DecodePens(d, f), [AbsEvent(ABS_TILT_X, tiltY), REPORT]);
  }

  /**
   What a hover would decode to if its device had all axes: the distance arrives, but the second tilt overwrites
   the first, since both are written to the same axis, and the other axis never moves.
   */
  lemma HoverTiltsShareAnAxis(d: PenDecoder, call: Call)
    requires call.StylusHover?
    ensures DecodePens(d, Frame(call)).reported
         == MovePen(d.now, call).(distance := Wrap32(call.distance), tiltX := Wrap32(call.tiltY))
  {
    var key := HoverKey(call.action);
    var body := [AbsEvent(ABS_X, call.x), AbsEvent(ABS_Y, call.y), AbsEvent(ABS_DISTANCE, call.distance),
                 AbsEvent(ABS_TILT_X, call.tiltX)]
                + ([AbsEvent(ABS_TILT_X, call.tiltY), AbsEvent(ABS_PRESSURE, 0)] + [REPORT]);
    assert Frame(call) == key + body;
    DecodePensConcat(d, key, body);
    if key != [] {
      DecodePens1(d, key);
    }
    HoverBody(DecodePens(d, key), call.x, call.y, call.distance, call.tiltX, call.tiltY);
  }

  /** The same for a pen that touches. */
  lemma PointTiltsShareAnAxis(d: PenDecoder, call: Call)
    requires call.StylusPoint? && (call.action == ACTION_DOWN || call.action == ACTION_MOVE)
    ensures DecodePens(d, Frame(call)).reported == MovePen(d.now, call).(tiltX := Wrap32(call.tiltY))
  {
    var keys := if call.action == ACTION_DOWN then [KeyEvent(BTN_TOUCH, true), KeyEvent(BTN_DIGI, true)] else [];
    var body := [AbsEvent(ABS_X, call.x), AbsEvent(ABS_Y, call.y), AbsEvent(ABS_PRESSURE, call.pressure),
                 AbsEvent(ABS_TILT_X, call.tiltX)] + [AbsEvent(ABS_TILT_X, call.tiltY), REPORT];
    assert Frame(call) == keys + body;
    DecodePensConcat(d, keys, body);
    if keys != [] {
      DecodePens2(d, keys);
    }
    PointBody(DecodePens(d, keys), call.pressure, call.x, call.y, call.tiltX, call.tiltY);
  }

  /** After the four events that address a slot the contact is there, at its position, with what pressure it had. */
  lemma SlotAddressed(s: Slots, id: int, x: int, y: int)
    requires InRange(Wrap32(id))
    ensures var t := DecodeTouches(s, [AbsEvent(ABS_MT_SLOT, id), AbsEvent(ABS_MT_TRACKING_ID, id),
                                       AbsEvent(ABS_MT_POSITION_X, x), AbsEvent(ABS_MT_POSITION_Y, y)]);
            && t.current == Wrap32(id) && Wrap32(id) in t.active
            && t.active == s.active[t.current := t.active[t.current]]
            && t.active[t.current].x == Wrap32(x) && t.active[t.current].y == Wrap32(y)
  {
    DecodePrefix4(s, [AbsEvent(ABS_MT_SLOT, id), AbsEvent(ABS_MT_TRACKING_ID, id),
                      AbsEvent(ABS_MT_POSITION_X, x), AbsEvent(ABS_MT_POSITION_Y, y)]);
  }

  lemma PressureDecodes(t: Slots, pressure: int)
    requires t.current in t.active
    ensures var c := t.active[t.current].(pressure := Wrap32(pressure));
            DecodeTouches(t, [AbsEvent(ABS_MT_PRESSURE, pressure)] + [InputEvent(EV_SYN, SYN_MT_REPORT, 0)] + [REPORT])
              .reported == t.active[t.current := c]
  {
    var e, sync := AbsEvent(ABS_MT_PRESSURE, pressure), InputEvent(EV_SYN, SYN_MT_REPORT, 0);
    DecodeStep(t, [e] + [sync], REPORT);
    DecodeStep(t, [e], sync);
    DecodeStep(t, [], e);
    assert [] + [e] == [e];
  }

  /** And what a contact would decode to if the touch device had a pressure axis. */
  lemma PressureIsWritten(s: Slots, call: Call)
    requires call.TouchPoint? && InRange(call.pointerId)
    requires call.action == ACTION_DOWN || call.action == ACTION_MOVE
    ensures DecodeTouches(s, Frame(call)).reported
         == s.active[call.pointerId := Contact(Wrap32(call.x), Wrap32(call.y), Wrap32(call.pressure))]
  {
    var f := [AbsEvent(ABS_MT_SLOT, call.pointerId), AbsEvent(ABS_MT_TRACKING_ID, call.pointerId),
              AbsEvent(ABS_MT_POSITION_X, call.x), AbsEvent(ABS_MT_POSITION_Y, call.y)];
    var g := [AbsEvent(ABS_MT_PRESSURE, call.pressure)] + [InputEvent(EV_SYN, SYN_MT_REPORT, 0)] + [REPORT];
    assert Frame(call) == f + g;
    DecodeTouchesConcat(s, f, g);
    SlotAddressed(s, call.pointerId, call.x, call.y);
    PressureDecodes(DecodeTouches(s, f), call.pressure);
  }

  // ---------- what arrives whole ----------

  /** Exactly which calls reach a reader with every event they write. */
  lemma ArrivesWhole(call: Call)
    ensures (forall e :: e in Frame(call) ==> Declares(DeviceOf(call), e)) <==> match call
      case Key(keyCode, _) => Code16(keyCode) < 255
      case TouchPoint(_, action, _, _, _) => action != ACTION_DOWN && action != ACTION_MOVE
      case StylusButton(button, _) => Code16(button) == BTN_TOUCH || Code16(button) == BTN_DIGI
      case StylusHover(_, _, _, _, _, _) => false
      case StylusPoint(action, _, _, _, _, _) => action != ACTION_DOWN && action != ACTION_MOVE
      case PointerMotion(_, _) => true
      case PointerButton(button, _, _, _) => BTN_MOUSE <= Code16(button) < BTN_JOYSTICK
      case PointerScroll(_, _) => true
  {
    var f := Frame(call);
    match call
    case Key(keyCode, down) => assert KeyEvent(keyCode, down) in f;
    case TouchPoint(_, action, pressure, _, _) =>
      if action == ACTION_DOWN || action == ACTION_MOVE {
        assert AbsEvent(ABS_MT_PRESSURE, pressure) in f;
      }
    case StylusButton(button, down) => assert KeyEvent(button, down) in f;
    case StylusHover(_, _, _, distance, _, _) => assert AbsEvent(ABS_DISTANCE, distance) in f;
    case StylusPoint(action, _, _, _, tiltX, _) =>
      if action == ACTION_DOWN || action == ACTION_MOVE {
        assert AbsEvent(ABS_TILT_X, tiltX) in f;
      }
    case PointerMotion(_, _) =>
    case PointerButton(button, _, _, down) => assert KeyEvent(button, down) in f;
    case PointerScroll(_, _) =>
  }
}
