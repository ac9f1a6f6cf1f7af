/** InputDevice and UInputDevice as objects: the registry functions carried out field by field, event by event. */
module InputDevices {
  import opened InputEvents
  import opened InputRegistry

  function Appended(streams: map<int, Stream>, fd: int, events: seq<InputEvent>): map<int, Stream> {
    if fd < 0 || fd !in streams then streams
    else streams[fd := streams[fd].(written := streams[fd].written + events)]
  }

  lemma AppendedTwice(streams: map<int, Stream>, fd: int, a: seq<InputEvent>, b: seq<InputEvent>)
    ensures Appended(Appended(streams, fd, a), fd, b) == Appended(streams, fd, a + b)
  {
    if fd >= 0 && fd in streams {
      assert streams[fd].written + a + b == streams[fd].written + (a + b);
    }
  }

  /** Starting a device concerns one display only. */
  lemma StartDeviceLocal(r: Registry, id: int, device: Device, o: Outcome)
    requires id in r.inputs
    ensures var whole := StartDevice(r, id, device, o);
            var alone := StartDevice(r.(inputs := map[id := r.inputs[id]]), id, device, o);
            && id in alone.inputs && whole.inputs == r.inputs[id := alone.inputs[id]]
            && whole.streams == alone.streams && whole.misuse == alone.misuse
  {}

  lemma StartUnrolled(r: Registry, id: int, outcomes: seq<Outcome>)
    requires id in r.inputs && |outcomes| == 4
    ensures var a := StartDevice(r, id, Keyboard, outcomes[0]);
            var b := StartDevice(a, id, Touch, outcomes[1]);
            var c := StartDevice(b, id, Stylus, outcomes[2]);
            StartFrom(r, id, ORDER, outcomes)
            == if !StartsDevice(r, id, Keyboard, outcomes[0]) then a
               else if !StartsDevice(a, id, Touch, outcomes[1]) then b
               else if !StartsDevice(b, id, Stylus, outcomes[2]) then c
               else StartDevice(c, id, Tablet, outcomes[3])
  {}

  /** The open uinput descriptors of the process. */
  class Kernel {
    ghost var streams: map<int, Stream>
    ghost var misuse: bool

    constructor ()
      ensures streams == map[] && !misuse
    {
      streams, misuse := map[], false;
    }
  }

  class UInputDevice {
    const kernel: Kernel
    var mWidth: int
    var mHeight: int
    var mFDKeyboard: int
    var mFDTouch: int
    var mFDTouchStylus: int
    var mFDTablet: int

    ghost function Value(): Unit
      reads this
    {
      Unit(mWidth, mHeight, mFDKeyboard, mFDTouch, mFDTouchStylus, mFDTablet)
    }

    constructor (kernel: Kernel, width: int, height: int)
      ensures this.kernel == kernel && Value() == Unit(width, height, -1, -1, -1, -1)
    {
      this.kernel := kernel;
      mWidth, mHeight := width, height;
      mFDKeyboard, mFDTouch, mFDTouchStylus, mFDTablet := -1, -1, -1, -1;
    }

    method GetFD(device: Device) returns (fd: int)
      ensures fd == GetFd(Value(), device)
    {
      match device
      case Keyboard => fd := mFDKeyboard;
      case Touch => fd := mFDTouch;
      case Stylus => fd := mFDTouchStylus;
      case Tablet => fd := mFDTablet;
    }

    /** start one device; the result is whether the caller may go on. */
    method Start(device: Device, ghost id: int, o: Outcome) returns (ok: bool)
      modifies this, kernel
      ensures ok <==> old(GetFd(Value(), device)) < 0 && o.fd >= 0 && o.setupOk
      ensures var before := Registry(map[id := old(Value())], old(kernel.streams), old(kernel.misuse));
              StartDevice(before, id, device, o) == Registry(map[id := Value()], kernel.streams, kernel.misuse)
    {
      var fd := GetFD(device);
      if fd >= 0 {
        return false;
      }
      match device {
        case Keyboard => mFDKeyboard := o.fd;
        case Touch => mFDTouch := o.fd;
        case Stylus => mFDTouchStylus := o.fd;
        case Tablet => mFDTablet := o.fd;
      }
      if o.fd < 0 {
        return false;
      }
      kernel.streams := kernel.streams[o.fd := Stream(Port(id, device), [])];
      if !o.setupOk {
        kernel.misuse := kernel.misuse || o.fd !in kernel.streams;
        kernel.streams := kernel.streams - {o.fd};
        return false;
      }
      ok := true;
    }

    method Stop(device: Device, ghost id: int)
      modifies kernel
      ensures forall inputs: map<int, Unit> ::
                StopDevice(Registry(inputs, old(kernel.streams), old(kernel.misuse)), id, Value(), device)
                == Registry(inputs, kernel.streams, kernel.misuse)
    {
      var fd := GetFD(device);
      if fd < 0 {
        return;
      }
      kernel.misuse := kernel.misuse || fd !in kernel.streams || kernel.streams[fd].port != Port(id, device);
      kernel.streams := kernel.streams - {fd};
    }

    /**
     One write. The ghost arguments say which event of which frame it is, and what the streams were before
     the frame; a failed open leaves nothing to write to.
     */
    method Inject(
      device: Device, kind: nat, code: nat, value: int,
      ghost base: map<int, Stream>, ghost frame: seq<InputEvent>, ghost k: nat)
      requires k < |frame| && frame[k] == InputEvent(kind, code, value)
      requires kernel.streams == Appended(base, GetFd(Value(), device), frame[..k])
      modifies kernel`streams
      ensures kernel.streams == Appended(base, GetFd(Value(), device), frame[..k + 1])
    {
      var fd := GetFD(device);
      ghost var e := InputEvent(kind, code, value);
      AppendedTwice(base, fd, frame[..k], [e]);
      assert frame[..k] + [e] == frame[..k + 1];
      kernel.streams := Appended(kernel.streams, fd, [e]);
    }

    /** The seven events of a DOWN or MOVE. */
    method InjectContact(
      pointerId: int, pressure: int, x: int, y: int,
      ghost base: map<int, Stream>, ghost f: seq<InputEvent>, ghost k: nat)
      requires k <= |f| && f[k..] ==
                         [InputEvent(EV_ABS, ABS_MT_SLOT, Wrap32(pointerId)),
                          InputEvent(EV_ABS, ABS_MT_TRACKING_ID, Wrap32(pointerId)),
                          InputEvent(EV_ABS, ABS_MT_POSITION_X, Wrap32(x)),
                          InputEvent(EV_ABS, ABS_MT_POSITION_Y, Wrap32(y)),
                          InputEvent(EV_ABS, ABS_MT_PRESSURE, Wrap32(pressure)),
                          InputEvent(EV_SYN, SYN_MT_REPORT, 0),
                          InputEvent(EV_SYN, SYN_REPORT, 0)]
      requires kernel.streams == Appended(base, GetFd(Value(), Touch), f[..k])
      modifies kernel`streams
      ensures kernel.streams == Appended(base, GetFd(Value(), Touch), f)
    {
      assert forall i :: 0 <= i < 7 ==> f[k + i] == f[k..][i];
      Inject(Touch, EV_ABS, ABS_MT_SLOT, Wrap32(pointerId), base, f, k + 0);
      Inject(Touch, EV_ABS, ABS_MT_TRACKING_ID, Wrap32(pointerId), base, f, k + 1);
      Inject(Touch, EV_ABS, ABS_MT_POSITION_X, Wrap32(x), base, f, k + 2);
      Inject(Touch, EV_ABS, ABS_MT_POSITION_Y, Wrap32(y), base, f, k + 3);
      Inject(Touch, EV_ABS, ABS_MT_PRESSURE, Wrap32(pressure), base, f, k + 4);
      Inject(Touch, EV_SYN, SYN_MT_REPORT, 0, base, f, k + 5);
      Inject(Touch, EV_SYN, SYN_REPORT, 0, base, f, k + 6);
      assert f[..k + 7] == f;
    }

    /** The part of a hover frame after the proximity key. */
    method InjectHover(
      x: int, y: int, distance: int, tiltX: int, tiltY: int,
      ghost base: map<int, Stream>, ghost f: seq<InputEvent>, ghost k: nat)
      requires k <= |f| && f[k..] ==
                         [InputEvent(EV_ABS, ABS_X, Wrap32(x)),
                          InputEvent(EV_ABS, ABS_Y, Wrap32(y)),
                          InputEvent(EV_ABS, ABS_DISTANCE, Wrap32(distance)),
                          InputEvent(EV_ABS, ABS_TILT_X, Wrap32(tiltX)),
                          InputEvent(EV_ABS, ABS_TILT_X, Wrap32(tiltY)),
                          InputEvent(EV_ABS, ABS_PRESSURE, 0),
                          InputEvent(EV_SYN, SYN_REPORT, 0)]
      requires kernel.streams == Appended(base, GetFd(Value(), Stylus), f[..k])
      modifies kernel`streams
      ensures kernel.streams == Appended(base, GetFd(Value(), Stylus), f)
    {
      assert forall i :: 0 <= i < 7 ==> f[k + i] == f[k..][i];
      Inject(Stylus, EV_ABS, ABS_X, Wrap32(x), base, f, k + 0);
      Inject(Stylus, EV_ABS, ABS_Y, Wrap32(y), base, f, k + 1);
      Inject(Stylus, EV_ABS, ABS_DISTANCE, Wrap32(distance), base, f, k + 2);
      Inject(Stylus, EV_ABS, ABS_TILT_X, Wrap32(tiltX), base, f, k + 3);
      Inject(Stylus, EV_ABS, ABS_TILT_X, Wrap32(tiltY), base, f, k + 4);
      Inject(Stylus, EV_ABS, ABS_PRESSURE, 0, base, f, k + 5);
      Inject(Stylus, EV_SYN, SYN_REPORT, 0, base, f, k + 6);
      assert f[..k + 7] == f;
    }

    /** The two keys that precede the other events of a stylus DOWN. */
    method InjectPenDown(ghost base: map<int, Stream>, ghost f: seq<InputEvent>)
      requires |f| >= 2 && f[..2] == [InputEvent(EV_KEY, BTN_TOUCH, 1), InputEvent(EV_KEY, BTN_DIGI, 1)]
      requires kernel.streams == Appended(base, GetFd(Value(), Stylus), f[..0])
      modifies kernel`streams
      ensures kernel.streams == Appended(base, GetFd(Value(), Stylus), f[..2])
    {
      assert f[0] == f[..2][0] && f[1] == f[..2][1];
      Inject(Stylus, EV_KEY, BTN_TOUCH, 1, base, f, 0);
      Inject(Stylus, EV_KEY, BTN_DIGI, 1, base, f, 1);
    }

    /** The four events of a stylus UP. */
    method InjectLift(ghost base: map<int, Stream>, ghost f: seq<InputEvent>, ghost k: nat)
      requires k <= |f| && f[k..] ==
                         [InputEvent(EV_KEY, BTN_TOUCH, 0),
                          InputEvent(EV_KEY, BTN_DIGI, 0),
                          InputEvent(EV_ABS, ABS_PRESSURE, 0),
                          InputEvent(EV_SYN, SYN_REPORT, 0)]
      requires kernel.streams == Appended(base, GetFd(Value(), Stylus), f[..k])
      modifies kernel`streams
      ensures kernel.streams == Appended(base, GetFd(Value(), Stylus), f)
    {
      assert forall i :: 0 <= i < 4 ==> f[k + i] == f[k..][i];
      Inject(Stylus, EV_KEY, BTN_TOUCH, 0, base, f, k + 0);
      Inject(Stylus, EV_KEY, BTN_DIGI, 0, base, f, k + 1);
      Inject(Stylus, EV_ABS, ABS_PRESSURE, 0, base, f, k + 2);
      Inject(Stylus, EV_SYN, SYN_REPORT, 0, base, f, k + 3);
      assert f[..k + 4] == f;
    }

    /** The part of a stylus DOWN or MOVE after the keys. */
    method InjectTip(
      pressure: int, x: int, y: int, tiltX: int, tiltY: int,
      ghost base: map<int, Stream>, ghost f: seq<InputEvent>, ghost k: nat)
      requires k <= |f| && f[k..] ==
                         [InputEvent(EV_ABS, ABS_X, Wrap32(x)),
                          InputEvent(EV_ABS, ABS_Y, Wrap32(y)),
                          InputEvent(EV_ABS, ABS_PRESSURE, Wrap32(pressure)),
                          InputEvent(EV_ABS, ABS_TILT_X, Wrap32(tiltX)),
                          InputEvent(EV_ABS, ABS_TILT_X, Wrap32(tiltY)),
                          InputEvent(EV_SYN, SYN_REPORT, 0)]
      requires kernel.streams == Appended(base, GetFd(Value(), Stylus), f[..k])
      modifies kernel`streams
      ensures kernel.streams == Appended(base, GetFd(Value(), Stylus), f)
    {
      assert forall i :: 0 <= i < 6 ==> f[k + i] == f[k..][i];
      Inject(Stylus, EV_ABS, ABS_X, Wrap32(x), base, f, k + 0);
      Inject(Stylus, EV_ABS, ABS_Y, Wrap32(y), base, f, k + 1);
      Inject(Stylus, EV_ABS, ABS_PRESSURE, Wrap32(pressure), base, f, k + 2);
      Inject(Stylus, EV_ABS, ABS_TILT_X, Wrap32(tiltX), base, f, k + 3);
      Inject(Stylus, EV_ABS, ABS_TILT_X, Wrap32(tiltY), base, f, k + 4);
      Inject(Stylus, EV_SYN, SYN_REPORT, 0, base, f, k + 5);
      assert f[..k + 6] == f;
    }

    /** The report of a pointer position. */
    method InjectPosition(x: int, y: int, ghost base: map<int, Stream>, ghost f: seq<InputEvent>)
      requires |f| >= 3
      requires f[0] == InputEvent(EV_ABS, ABS_X, Wrap32(x)) && f[1] == InputEvent(EV_ABS, ABS_Y, Wrap32(y))
      requires f[2] == InputEvent(EV_SYN, SYN_REPORT, 0)
      requires kernel.streams == Appended(base, GetFd(Value(), Tablet), f[..0])
      modifies kernel`streams
      ensures kernel.streams == Appended(base, GetFd(Value(), Tablet), f[..3])
    {
      Inject(Tablet, EV_ABS, ABS_X, Wrap32(x), base, f, 0);
      Inject(Tablet, EV_ABS, ABS_Y, Wrap32(y), base, f, 1);
      Inject(Tablet, EV_SYN, SYN_REPORT, 0, base, f, 2);
    }
  }

  class InputDevice {
    const kernel: Kernel
    var mInputs: map<int, UInputDevice>
    ghost var model: Registry

    ghost predicate Valid()
      reads this, kernel, set id | id in mInputs :: mInputs[id]
    {
      && model.streams == kernel.streams && model.misuse == kernel.misuse
      && model.inputs.Keys == mInputs.Keys
      && (forall id :: id in mInputs ==> mInputs[id].kernel == kernel && mInputs[id].Value() == model.inputs[id])
      && (forall id, other :: id in mInputs && other in mInputs && id != other ==> mInputs[id] != mInputs[other])
    }

    constructor ()
      ensures Valid() && model == EMPTY
    {
      kernel := new Kernel();
      mInputs := map[];
      model := EMPTY;
    }

    method Stop(id: int)
      requires Valid()
      modifies this, kernel
      ensures Valid() && model == InputRegistry.Stop(old(model), id)
      ensures mInputs == old(mInputs) - {id}
    {
      if id in mInputs {
        var input := mInputs[id];
        input.Stop(Keyboard, id);
        input.Stop(Touch, id);
        input.Stop(Stylus, id);
        input.Stop(Tablet, id);
      }
      mInputs := mInputs - {id};
      model := InputRegistry.Stop(model, id);
    }

    method Start(id: int, width: int, height: int, outcomes: seq<Outcome>)
      requires Valid() && |outcomes| == 4
      modifies this, kernel, set d | d in mInputs :: mInputs[d]
      ensures Valid() && model == InputRegistry.Start(old(model), id, width, height, outcomes)
    {
      if id !in mInputs {
        var input := new UInputDevice(kernel, width, height);
        mInputs := mInputs[id := input];
      }
      ghost var registered := Register(model, id, width, height);
      model := registered;
      var ok := StartOne(id, Keyboard, outcomes[0]);
      if ok {
        ok := StartOne(id, Touch, outcomes[1]);
        if ok {
          ok := StartOne(id, Stylus, outcomes[2]);
          if ok {
            ok := StartOne(id, Tablet, outcomes[3]);
          }
        }
      }
      StartUnrolled(registered, id, outcomes);
    }

    /** Start one device of a registered display and bring the model along. */
    method StartOne(id: int, device: Device, o: Outcome) returns (ok: bool)
      requires Valid() && id in mInputs
      modifies this`model, kernel, mInputs[id]
      ensures Valid() && id in old(model).inputs
      ensures ok <==> StartsDevice(old(model), id, device, o)
      ensures model == StartDevice(old(model), id, device, o)
    {
      StartDeviceLocal(model, id, device, o);
      ok := mInputs[id].Start(device, id, o);
      model := StartDevice(model, id, device, o);
    }

    /** stop and start, here with nobody in between. */
    method Reconfigure(id: int, width: int, height: int, outcomes: seq<Outcome>)
      requires Valid() && |outcomes| == 4
      modifies this, kernel, set d | d in mInputs :: mInputs[d]
      ensures Valid()
      ensures model == InputRegistry.Start(InputRegistry.Stop(old(model), id), id, width, height, outcomes)
    {
      Stop(id);
      Start(id, width, height, outcomes);
    }

    // ---------- the input entry points ----------

    /** A frame has been written in full to a device of a display. */
    lemma Written(before: Registry, id: int, call: Call)
      requires id in before.inputs
      ensures var fd := GetFd(before.inputs[id], DeviceOf(call));
              Send(before, id, call) == before.(streams := Appended(before.streams, fd, Frame(call)[..|Frame(call)|]))
    {
      assert Frame(call)[..|Frame(call)|] == Frame(call);
      var fd := GetFd(before.inputs[id], DeviceOf(call));
      if fd < 0 || fd !in before.streams {
        assert before.(streams := before.streams) == before;
      }
    }

    lemma Unwritten(streams: map<int, Stream>, fd: int, frame: seq<InputEvent>)
      ensures Appended(streams, fd, frame[..0]) == streams
    {
      if fd >= 0 && fd in streams {
        assert streams[fd].written + frame[..0] == streams[fd].written;
      }
    }

    method KeyEvent(id: int, keyCode: nat, down: bool)
      requires Valid()
      modifies this`model, kernel`streams
      ensures Valid() && model == Send(old(model), id, Key(keyCode, down))
    {
      ghost var call := Key(keyCode, down);
      ghost var f, base := Frame(call), kernel.streams;
      if id in mInputs {
        var input := mInputs[id];
        Unwritten(base, GetFd(input.Value(), Keyboard), f);
        Written(model, id, call);
        input.Inject(Keyboard, EV_KEY, Code16(keyCode), if down then 1 else 0, base, f, 0);
        input.Inject(Keyboard, EV_SYN, SYN_REPORT, 0, base, f, 1);
      }
      model := Send(model, id, call);
    }

    method TouchEvent(id: int, pointerId: int, action: int, pressure: int, x: int, y: int)
      requires Valid()
      modifies this`model, kernel`streams
      ensures Valid() && model == Send(old(model), id, TouchPoint(pointerId, action, pressure, x, y))
    {
      ghost var call := TouchPoint(pointerId, action, pressure, x, y);
      ghost var f, base := Frame(call), kernel.streams;
      if id in mInputs {
        var input := mInputs[id];
        Unwritten(base, GetFd(input.Value(), Touch), f);
        Written(model, id, call);
        if action == ACTION_MOVE || action == ACTION_DOWN {
          input.InjectContact(pointerId, pressure, x, y, base, f, 0);
        } else if action == ACTION_UP {
          input.Inject(Touch, EV_ABS, ABS_MT_SLOT, Wrap32(pointerId), base, f, 0);
          input.Inject(Touch, EV_ABS, ABS_MT_TRACKING_ID, -1, base, f, 1);
          input.Inject(Touch, EV_SYN, SYN_MT_REPORT, 0, base, f, 2);
          input.Inject(Touch, EV_SYN, SYN_REPORT, 0, base, f, 3);
        }
      }
      model := Send(model, id, call);
    }

    method TouchStylusButtonEvent(id: int, button: nat, down: bool)
      requires Valid()
      modifies this`model, kernel`streams
      ensures Valid() && model == Send(old(model), id, StylusButton(button, down))
    {
      ghost var call := StylusButton(button, down);
      ghost var f, base := Frame(call), kernel.streams;
      if id in mInputs {
        var input := mInputs[id];
        Unwritten(base, GetFd(input.Value(), Stylus), f);
        Written(model, id, call);
        input.Inject(Stylus, EV_KEY, Code16(button), if down then 1 else 0, base, f, 0);
        input.Inject(Stylus, EV_SYN, SYN_REPORT, 0, base, f, 1);
      }
      model := Send(model, id, call);
    }

    method TouchStylusHoverEvent(id: int, action: int, x: int, y: int, distance: int, tiltX: int, tiltY: int)
      requires Valid()
      modifies this`model, kernel`streams
      ensures Valid() && model == Send(old(model), id, StylusHover(action, x, y, distance, tiltX, tiltY))
    {
      ghost var call := StylusHover(action, x, y, distance, tiltX, tiltY);
      ghost var f, base := Frame(call), kernel.streams;
      if id in mInputs {
        var input := mInputs[id];
        Unwritten(base, GetFd(input.Value(), Stylus), f);
        Written(model, id, call);
        ghost var k := 0;
        if action == ACTION_HOVER_ENTER {
          input.Inject(Stylus, EV_KEY, BTN_DIGI, 1, base, f, 0);
          k := 1;
        } else if action == ACTION_HOVER_EXIT {
          input.Inject(Stylus, EV_KEY, BTN_DIGI, 0, base, f, 0);
          k := 1;
        }
        input.InjectHover(x, y, distance, tiltX, tiltY, base, f, k);
      }
      model := Send(model, id, call);
    }

    method TouchStylusEvent(id: int, action: int, pressure: int, x: int, y: int, tiltX: int, tiltY: int)
      requires Valid()
      modifies this`model, kernel`streams
      ensures Valid() && model == Send(old(model), id, StylusPoint(action, pressure, x, y, tiltX, tiltY))
    {
      ghost var call := StylusPoint(action, pressure, x, y, tiltX, tiltY);
      ghost var f, base := Frame(call), kernel.streams;
      if id in mInputs {
        var input := mInputs[id];
        Unwritten(base, GetFd(input.Value(), Stylus), f);
        Written(model, id, call);
        assert f[..|f|] == f;
        if action == ACTION_DOWN {
          input.InjectPenDown(base, f);
          input.InjectTip(pressure, x, y, tiltX, tiltY, base, f, 2);
        } else if action == ACTION_MOVE {
          input.InjectTip(pressure, x, y, tiltX, tiltY, base, f, 0);
        } else if action == ACTION_UP {
          input.InjectLift(base, f, 0);
        }
      }
      model := Send(model, id, call);
    }

    method PointerMotionEvent(id: int, x: int, y: int)
      requires Valid()
      modifies this`model, kernel`streams
      ensures Valid() && model == Send(old(model), id, PointerMotion(x, y))
    {
      ghost var call := PointerMotion(x, y);
      ghost var f, base := Frame(call), kernel.streams;
      if id in mInputs {
        var input := mInputs[id];
        Unwritten(base, GetFd(input.Value(), Tablet), f);
        Written(model, id, call);
        input.InjectPosition(x, y, base, f);
      }
      model := Send(model, id, call);
    }

    method PointerButtonEvent(id: int, button: nat, x: int, y: int, down: bool)
      requires Valid()
      modifies this`model, kernel`streams
      ensures Valid() && model == Send(old(model), id, PointerButton(button, x, y, down))
    {
      ghost var call := PointerButton(button, x, y, down);
      ghost var f, base := Frame(call), kernel.streams;
      if id in mInputs {
        var input := mInputs[id];
        Unwritten(base, GetFd(input.Value(), Tablet), f);
        Written(model, id, call);
        input.InjectPosition(x, y, base, f);
        input.Inject(Tablet, EV_KEY, Code16(button), if down then 1 else 0, base, f, 3);
        input.Inject(Tablet, EV_SYN, SYN_REPORT, 0, base, f, 4);
      }
      model := Send(model, id, call);
    }

    method PointerScrollEvent(id: int, amount: nat, vertical: bool)
      requires Valid()
      modifies this`model, kernel`streams
      ensures Valid() && model == Send(old(model), id, PointerScroll(amount, vertical))
    {
      ghost var call := PointerScroll(amount, vertical);
      ghost var f, base := Frame(call), kernel.streams;
      if id in mInputs {
        var input := mInputs[id];
        Unwritten(base, GetFd(input.Value(), Tablet), f);
        Written(model, id, call);
        input.Inject(Tablet, EV_REL, if vertical then REL_WHEEL else REL_HWHEEL, Wrap32(amount), base, f, 0);
        input.Inject(Tablet, EV_SYN, SYN_REPORT, 0, base, f, 1);
      }
      model := Send(model, id, call);
    }
  }
}
