/**
 The keyboard and the tablet, decoded from what their devices deliver: the keys held down, and the pointer with
 its position, its buttons and the way its two wheels have turned.
 */
module InputPointers {
  import opened InputEvents

  // ---------- the integers of the kernel interface ----------

  /** inject's value is the 32-bit integer, and its code the unsigned 16-bit integer, that differ by whole turns. */
  lemma InjectTruncates(v: int, code: nat)
    ensures -0x8000_0000 <= Wrap32(v) <= 0x7fff_ffff && (v - Wrap32(v)) % 0x1_0000_0000 == 0
    ensures -0x8000_0000 <= v <= 0x7fff_ffff <==> Wrap32(v) == v
    ensures Code16(code) <= 0xffff && (code - Code16(code)) % 0x1_0000 == 0
  {
    var turns := (v + 0x8000_0000) / 0x1_0000_0000;
    assert v - Wrap32(v) == 0x1_0000_0000 * turns;
    var codeTurns := code / 0x1_0000;
    assert code - Code16(code) == 0x1_0000 * codeTurns;
  }

  // ---------- the keyboard ----------

  /** The keys down now, and as of the last report. */
  datatype Keys = Keys(now: set<nat>, reported: set<nat>)

  const NO_KEYS := Keys({}, {})

  function DecodeKey(k: Keys, e: InputEvent): Keys {
    if e.kind == EV_KEY then k.(now := if e.value != 0 then k.now + {e.code} else k.now - {e.code})
    else if e == REPORT then k.(reported := k.now)
    else k
  }

  function DecodeKeys(k: Keys, events: seq<InputEvent>): Keys {
    if events == [] then k else DecodeKey(DecodeKeys(k, events[..|events| - 1]), events[|events| - 1])
  }

  /** The keys that key calls hold down, as far as the keyboard has them. */
  function Pressing(keys: set<nat>, call: Call): set<nat> {
    if !call.Key? || call.keyCode % 0x1_0000 >= 255 then keys
    else if call.down then keys + {call.keyCode % 0x1_0000}
    else keys - {call.keyCode % 0x1_0000}
  }

  function AllPressing(calls: seq<Call>): set<nat> {
    if calls == [] then {} else Pressing(AllPressing(calls[..|calls| - 1]), calls[|calls| - 1])
  }

  lemma {:induction false} DecodeKeysConcat(k: Keys, a: seq<InputEvent>, b: seq<InputEvent>)
    ensures DecodeKeys(k, a + b) == DecodeKeys(DecodeKeys(k, a), b)
    decreases |b|
  {
    if b == [] {
      assert a + b == a;
    } else {
      assert (a + b)[..|a + b| - 1] == a + b[..|b| - 1];
      DecodeKeysConcat(k, a, b[..|b| - 1]);
    }
  }

  lemma KeyCallDecodes(k: Keys, call: Call)
    requires k.now == k.reported && call.Key?
    ensures DecodeKeys(k, Arriving(call)) == Keys(Pressing(k.now, call), Pressing(k.now, call))
  {
    var e := KeyEvent(call.keyCode, call.down);
    if Declares(Keyboard, e) {
      DeliveredAll(Keyboard, Frame(call));
      assert Arriving(call) == [e] + [REPORT];
      DecodeKeysConcat(k, [e], [REPORT]);
      assert DecodeKeys(k, [e]) == DecodeKey(DecodeKeys(k, []), e);
    } else {
      assert Frame(call) == [] + [e] + [REPORT];
      DeliveredAround(Keyboard, [], [e], [REPORT]);
      assert Arriving(call) == [REPORT];
      assert DecodeKeys(k, [REPORT]) == DecodeKey(DecodeKeys(k, []), REPORT);
    }
  }

  lemma {:induction false} KeyCallsDecode(calls: seq<Call>)
    requires forall c :: c in calls ==> c.Key?
    ensures DecodeKeys(NO_KEYS, AllArriving(calls)) == Keys(AllPressing(calls), AllPressing(calls))
    decreases |calls|
  {
    if calls != [] {
      var earlier, last := calls[..|calls| - 1], calls[|calls| - 1];
      assert last in calls;
      KeyCallsDecode(earlier);
      DecodeKeysConcat(NO_KEYS, AllArriving(earlier), Arriving(last));
      KeyCallDecodes(DecodeKeys(NO_KEYS, AllArriving(earlier)), last);
    }
  }

  /** What is delivered of any sequence of key calls decodes to the keyboard's keys held down. */
  lemma KeyStreamDecodes(calls: seq<Call>)
    requires forall c :: c in calls ==> c.Key?
    ensures DecodeKeys(NO_KEYS, Delivered(Keyboard, Frames(calls))) == Keys(AllPressing(calls), AllPressing(calls))
  {
    FramesArrive(Keyboard, calls);
    KeyCallsDecode(calls);
  }

  // ---------- the tablet ----------

  /** A pointer; its wheels are the sums of the steps they have turned. */
  datatype Pointer = Pointer(x: int, y: int, buttons: set<nat>, vertical: int, horizontal: int)

  datatype PointerDecoder = PointerDecoder(now: Pointer, reported: Pointer)

  const NO_POINTER := Pointer(0, 0, {}, 0, 0)

  function DecodePointer(d: PointerDecoder, e: InputEvent): PointerDecoder {
    var p := d.now;
    if e.kind == EV_ABS && e.code == ABS_X then d.(now := p.(x := e.value))
    else if e.kind == EV_ABS && e.code == ABS_Y then d.(now := p.(y := e.value))
    else if e.kind == EV_REL && e.code == REL_WHEEL then d.(now := p.(vertical := p.vertical + e.value))
    else if e.kind == EV_REL && e.code == REL_HWHEEL then d.(now := p.(horizontal := p.horizontal + e.value))
    else if e.kind == EV_KEY then
      d.(now := p.(buttons := if e.value != 0 then p.buttons + {e.code} else p.buttons - {e.code}))
    else if e == REPORT then d.(reported := d.now)
    else d
  }

  function DecodePointers(d: PointerDecoder, events: seq<InputEvent>): PointerDecoder {
    if events == [] then d else DecodePointer(DecodePointers(d, events[..|events| - 1]), events[|events| - 1])
  }

  /** What a tablet call does to the pointer; only the mouse buttons are the tablet's. */
  function MovePointer(p: Pointer, call: Call): Pointer {
    match call
    case PointerMotion(x, y) => p.(x := Wrap32(x), y := Wrap32(y))
    case PointerButton(button, x, y, down) =>
      var code := button % 0x1_0000;
      p.(x := Wrap32(x), y := Wrap32(y),
         buttons := if code < BTN_MOUSE || code >= BTN_JOYSTICK then p.buttons
                    else if down then p.buttons + {code}
                    else p.buttons - {code})
    case PointerScroll(amount, vertical) =>
      if vertical then p.(vertical := p.vertical + Wrap32(amount)) else p.(horizontal := p.horizontal + Wrap32(amount))
    case _ => p
  }

  function MovePointers(p: Pointer, calls: seq<Call>): Pointer {
    if calls == [] then p else MovePointer(MovePointers(p, calls[..|calls| - 1]), calls[|calls| - 1])
  }

  lemma {:induction false} DecodePointersConcat(d: PointerDecoder, a: seq<InputEvent>, b: seq<InputEvent>)
    ensures DecodePointers(d, a + b) == DecodePointers(DecodePointers(d, a), b)
    decreases |b|
  {
    if b == [] {
      assert a + b == a;
    } else {
      assert (a + b)[..|a + b| - 1] == a + b[..|b| - 1];
      DecodePointersConcat(d, a, b[..|b| - 1]);
    }
  }

  lemma DecodePointers1(d: PointerDecoder, e: InputEvent)
    ensures DecodePointers(d, [e]) == DecodePointer(d, e)
  {
    assert [e][..0] == [];
  }

  lemma DecodePointers2(d: PointerDecoder, e: InputEvent, f: InputEvent)
    ensures DecodePointers(d, [e, f]) == DecodePointer(DecodePointer(d, e), f)
  {
    assert [e, f] == [e] + [f];
    DecodePointersConcat(d, [e], [f]);
    DecodePointers1(d, e);
    DecodePointers1(DecodePointer(d, e), f);
  }

  /** The report of a position. */
  lemma PositionDecodes(d: PointerDecoder, x: int, y: int)
    ensures var moved := d.now.(x := Wrap32(x), y := Wrap32(y));
            DecodePointers(d, [AbsEvent(ABS_X, x), AbsEvent(ABS_Y, y), REPORT]) == PointerDecoder(moved, moved)
  {
    assert [AbsEvent(ABS_X, x), AbsEvent(ABS_Y, y), REPORT] == [AbsEvent(ABS_X, x), AbsEvent(ABS_Y, y)] + [REPORT];
    DecodePointersConcat(d, [AbsEvent(ABS_X, x), AbsEvent(ABS_Y, y)], [REPORT]);
    DecodePointers2(d, AbsEvent(ABS_X, x), AbsEvent(ABS_Y, y));
    DecodePointers1(DecodePointers(d, [AbsEvent(ABS_X, x), AbsEvent(ABS_Y, y)]), REPORT);
  }

  /** A button call arrives as two reports, the second one empty if the button is not the tablet's. */
  lemma ButtonArrives(call: Call)
    requires call.PointerButton?
    ensures var e := KeyEvent(call.button, call.down);
            Arriving(call) == [AbsEvent(ABS_X, call.x), AbsEvent(ABS_Y, call.y), REPORT]
                              + (if Declares(Tablet, e) then [e, REPORT] else [REPORT])
  {
    var e := KeyEvent(call.button, call.down);
    var position := [AbsEvent(ABS_X, call.x), AbsEvent(ABS_Y, call.y), REPORT];
    if Declares(Tablet, e) {
      DeliveredAll(Tablet, Frame(call));
    } else {
      assert Frame(call) == position + [e] + [REPORT];
      DeliveredAround(Tablet, position, [e], [REPORT]);
    }
  }

  /** The pointer is reported at its new place before the button changes. */
  lemma ButtonDecodes(d: PointerDecoder, call: Call)
    requires call.PointerButton?
    ensures |Arriving(call)| >= 3
    ensures DecodePointers(d, Arriving(call)[..3]).reported == MovePointer(d.now, PointerMotion(call.x, call.y))
    ensures DecodePointers(d, Arriving(call)) == PointerDecoder(MovePointer(d.now, call), MovePointer(d.now, call))
  {
    var e := KeyEvent(call.button, call.down);
    var position := [AbsEvent(ABS_X, call.x), AbsEvent(ABS_Y, call.y), REPORT];
    ButtonArrives(call);
    assert Arriving(call)[..3] == position;
    PositionDecodes(d, call.x, call.y);
    var moved := DecodePointers(d, position);
    if Declares(Tablet, e) {
      DecodePointersConcat(d, position, [e, REPORT]);
      DecodePointers2(moved, e, REPORT);
    } else {
      DecodePointersConcat(d, position, [REPORT]);
      DecodePointers1(moved, REPORT);
    }
  }

  lemma TabletCallDecodes(d: PointerDecoder, call: Call)
    requires DeviceOf(call) == Tablet
    ensures DecodePointers(d, Arriving(call)) == PointerDecoder(MovePointer(d.now, call), MovePointer(d.now, call))
  {
    match call
    case PointerMotion(x, y) =>
      DeliveredAll(Tablet, Frame(call));
      PositionDecodes(d, x, y);
    case PointerButton(_, _, _, _) => ButtonDecodes(d, call);
    case PointerScroll(amount, vertical) =>
      var e := InputEvent(EV_REL, if vertical then REL_WHEEL else REL_HWHEEL, Wrap32(amount));
      DeliveredAll(Tablet, Frame(call));
      assert Arriving(call) == [e, REPORT];
      DecodePointers2(d, e, REPORT);
  }

  lemma {:induction false} TabletCallsDecode(calls: seq<Call>)
    requires forall c :: c in calls ==> DeviceOf(c) == Tablet
    ensures DecodePointers(PointerDecoder(NO_POINTER, NO_POINTER), AllArriving(calls))
         == PointerDecoder(MovePointers(NO_POINTER, calls), MovePointers(NO_POINTER, calls))
    decreases |calls|
  {
    if calls != [] {
      var start := PointerDecoder(NO_POINTER, NO_POINTER);
      var earlier, last := calls[..|calls| - 1], calls[|calls| - 1];
      assert last in calls;
      TabletCallsDecode(earlier);
      DecodePointersConcat(start, AllArriving(earlier), Arriving(last));
      TabletCallDecodes(DecodePointers(start, AllArriving(earlier)), last);
    }
  }

  /**
   What is delivered of any sequence of tablet calls decodes to the pointer they describe: at the place of the
   last motion or button call, with the mouse buttons held down and both wheels turned as far as they were.
   */
  lemma TabletStreamDecodes(calls: seq<Call>)
    requires forall c :: c in calls ==> DeviceOf(c) == Tablet
    ensures DecodePointers(PointerDecoder(NO_POINTER, NO_POINTER), Delivered(Tablet, Frames(calls)))
         == PointerDecoder(MovePointers(NO_POINTER, calls), MovePointers(NO_POINTER, calls))
  {
    FramesArrive(Tablet, calls);
    TabletCallsDecode(calls);
  }
}
