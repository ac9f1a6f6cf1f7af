/**
 The registry of virtual input devices: one critical section per function. reconfigure is a stop followed
 by a start with an unlocked gap, so interleaved callers can run any sequence of these sections.
 */
module InputRegistry {
  import opened InputEvents

  /** A UInputDevice: its size and its four descriptors, -1 where none is open. */
  datatype Unit = Unit(width: int, height: int, keyboard: int, touch: int, stylus: int, tablet: int)

  function GetFd(u: Unit, device: Device): int {
    match device
    case Keyboard => u.keyboard
    case Touch => u.touch
    case Stylus => u.stylus
    case Tablet => u.tablet
  }

  function SetFd(u: Unit, device: Device, fd: int): Unit {
    match device
    case Keyboard => u.(keyboard := fd)
    case Touch => u.(touch := fd)
    case Stylus => u.(stylus := fd)
    case Tablet => u.(tablet := fd)
  }

  datatype Port = Port(id: int, device: Device)

  /** An open uinput descriptor remembers whose it is and everything written to it. */
  datatype Stream = Stream(port: Port, written: seq<InputEvent>)

  /** `misuse` records a close of a number that is not, or no longer, the caller's own open descriptor. */
  datatype Registry = Registry(inputs: map<int, Unit>, streams: map<int, Stream>, misuse: bool)

  const EMPTY := Registry(map[], map[], false)

  /** What the kernel answers when a device is set up: the result of open, and whether all ioctls succeed. */
  datatype Outcome = Outcome(fd: int, setupOk: bool)

  predicate Fresh(r: Registry, fd: int) {
    fd >= -1 && fd !in r.streams
  }

  function Close(r: Registry, port: Port, fd: int): Registry {
    r.(streams := r.streams - {fd}, misuse := r.misuse || fd !in r.streams || r.streams[fd].port != port)
  }

  // ---------- one device ----------

  predicate StartsDevice(r: Registry, id: int, device: Device, o: Outcome)
    requires id in r.inputs
  {
    GetFd(r.inputs[id], device) < 0 && o.fd >= 0 && o.setupOk
  }

  /** UInputDevice::start; its error path closes the descriptor but leaves the number in the field. */
  function StartDevice(r: Registry, id: int, device: Device, o: Outcome): Registry
    requires id in r.inputs
  {
    if GetFd(r.inputs[id], device) >= 0 then r
    else
      var named := r.(inputs := r.inputs[id := SetFd(r.inputs[id], device, o.fd)]);
      if o.fd < 0 then named
      else if !o.setupOk then
        Close(named.(streams := named.streams[o.fd := Stream(Port(id, device), [])]), Port(id, device), o.fd)
      else named.(streams := named.streams[o.fd := Stream(Port(id, device), [])])
  }

  /** UInputDevice::stop; the object is about to be dropped, so the field is not reset. */
  function StopDevice(r: Registry, id: int, u: Unit, device: Device): Registry {
    if GetFd(u, device) < 0 then r else Close(r, Port(id, device), GetFd(u, device))
  }

  // ---------- the critical sections ----------

  /** InputDevice::stop always unmaps, since stopping a device never fails. */
  function Stop(r: Registry, id: int): Registry {
    if id !in r.inputs then r
    else
      var u := r.inputs[id];
      var a := StopDevice(r, id, u, Keyboard);
      var b := StopDevice(a, id, u, Touch);
      var c := StopDevice(b, id, u, Stylus);
      var d := StopDevice(c, id, u, Tablet);
      d.(inputs := d.inputs - {id})
  }

  function Register(r: Registry, id: int, width: int, height: int): Registry {
    if id in r.inputs then r else r.(inputs := r.inputs[id := Unit(width, height, -1, -1, -1, -1)])
  }

  /** InputDevice::start: a new entry gets its size, then the devices are started until one fails. */
  function StartFrom(r: Registry, id: int, devices: seq<Device>, outcomes: seq<Outcome>): Registry
    requires id in r.inputs && |devices| == |outcomes|
    decreases |devices|
  {
    if devices == [] then r
    else
      var next := StartDevice(r, id, devices[0], outcomes[0]);
      if StartsDevice(r, id, devices[0], outcomes[0]) then StartFrom(next, id, devices[1..], outcomes[1..]) else next
  }

  const ORDER := [Keyboard, Touch, Stylus, Tablet]

  function Start(r: Registry, id: int, width: int, height: int, outcomes: seq<Outcome>): Registry
    requires |outcomes| == 4
  {
    StartFrom(Register(r, id, width, height), id, ORDER, outcomes)
  }

  /** The kernel's answers to one start call: each open returns a free number or fails. */
  ghost predicate Answers(r: Registry, id: int, devices: seq<Device>, outcomes: seq<Outcome>)
    requires id in r.inputs && |devices| == |outcomes|
    decreases |devices|
  {
    devices == [] ||
    (Fresh(r, outcomes[0].fd)
     && (StartsDevice(r, id, devices[0], outcomes[0]) ==>
         Answers(StartDevice(r, id, devices[0], outcomes[0]), id, devices[1..], outcomes[1..])))
  }

  // ---------- which devices a start opens ----------

  /** A new display whose first m fields, keyboard, touch, stylus, tablet, hold what open returned. */
  ghost predicate Named(
    r: Registry, t: Registry, id: int, width: int, height: int, outcomes: seq<Outcome>, m: nat)
    requires |outcomes| == 4 && m <= 4
  {
    t.inputs == r.inputs[id := Unit(width, height,
                                    if m > 0 then outcomes[0].fd else -1, if m > 1 then outcomes[1].fd else -1,
                                    if m > 2 then outcomes[2].fd else -1, if m > 3 then outcomes[3].fd else -1)]
  }

  /** Its first n devices are open with nothing written; everything else is as before. */
  ghost predicate Open(r: Registry, t: Registry, id: int, outcomes: seq<Outcome>, n: nat)
    requires |outcomes| == 4 && n <= 4
  {
    && t.misuse == r.misuse
    && (forall fd :: fd in r.streams ==> fd in t.streams && t.streams[fd] == r.streams[fd])
    && (forall fd :: fd in t.streams ==> fd in r.streams || exists j :: 0 <= j < n && outcomes[j].fd == fd)
    && (forall j :: 0 <= j < n ==>
          outcomes[j].fd in t.streams
          && t.streams[outcomes[j].fd] == Stream(Port(id, [Keyboard, Touch, Stylus, Tablet][j]), []))
  }

  lemma NameNext(r: Registry, t: Registry, id: int, width: int, height: int, outcomes: seq<Outcome>, n: nat)
    requires |outcomes| == 4 && n < 4 && Named(r, t, id, width, height, outcomes, n)
    ensures Named(r, StartDevice(t, id, ORDER[n], outcomes[n]), id, width, height, outcomes, n + 1)
    ensures StartsDevice(t, id, ORDER[n], outcomes[n]) <==> outcomes[n].fd >= 0 && outcomes[n].setupOk
  {
    assert ORDER[n] == if n == 0 then Keyboard else if n == 1 then Touch else if n == 2 then Stylus else Tablet;
    assert StartDevice(t, id, ORDER[n], outcomes[n]).inputs
        == t.inputs[id := SetFd(t.inputs[id], ORDER[n], outcomes[n].fd)];
  }

  lemma OpenNext(r: Registry, t: Registry, id: int, outcomes: seq<Outcome>, n: nat)
    requires |outcomes| == 4 && n < 4 && id in t.inputs && GetFd(t.inputs[id], ORDER[n]) < 0
    requires Open(r, t, id, outcomes, n) && Fresh(t, outcomes[n].fd)
    ensures Open(r, StartDevice(t, id, ORDER[n], outcomes[n]), id, outcomes,
                 if outcomes[n].fd >= 0 && outcomes[n].setupOk then n + 1 else n)
  {
    var u := StartDevice(t, id, ORDER[n], outcomes[n]);
    assert ORDER[n] == [Keyboard, Touch, Stylus, Tablet][n];
    if outcomes[n].fd < 0 || !outcomes[n].setupOk {
      assert u.streams == t.streams;
    } else {
      assert u.streams == t.streams[outcomes[n].fd := Stream(Port(id, ORDER[n]), [])];
    }
  }

  /** A start that has come to device n. */
  lemma StartFromHere(t: Registry, id: int, outcomes: seq<Outcome>, n: nat)
    requires id in t.inputs && |outcomes| == 4 && n < 4 && Answers(t, id, ORDER[n..], outcomes[n..])
    ensures Fresh(t, outcomes[n].fd)
    ensures var next := StartDevice(t, id, ORDER[n], outcomes[n]);
            if StartsDevice(t, id, ORDER[n], outcomes[n]) then
              Answers(next, id, ORDER[n + 1..], outcomes[n + 1..])
              && StartFrom(t, id, ORDER[n..], outcomes[n..]) == StartFrom(next, id, ORDER[n + 1..], outcomes[n + 1..])
            else StartFrom(t, id, ORDER[n..], outcomes[n..]) == next
  {
    assert ORDER[n..][0] == ORDER[n] && ORDER[n..][1..] == ORDER[n + 1..];
    assert outcomes[n..][0] == outcomes[n] && outcomes[n..][1..] == outcomes[n + 1..];
  }

  lemma {:induction false} OpenRest(
    r: Registry, t: Registry, id: int, width: int, height: int, outcomes: seq<Outcome>, n: nat, k: nat)
    requires |outcomes| == 4 && n <= k <= 4
    requires Named(r, t, id, width, height, outcomes, n) && Open(r, t, id, outcomes, n)
    requires Answers(t, id, ORDER[n..], outcomes[n..])
    requires forall j :: n <= j < k ==> outcomes[j].fd >= 0 && outcomes[j].setupOk
    requires k < 4 ==> !(outcomes[k].fd >= 0 && outcomes[k].setupOk)
    ensures var u := StartFrom(t, id, ORDER[n..], outcomes[n..]);
            Named(r, u, id, width, height, outcomes, if k < 4 then k + 1 else 4) && Open(r, u, id, outcomes, k)
    decreases 4 - n
  {
    if n < 4 {
      StartFromHere(t, id, outcomes, n);
      NameNext(r, t, id, width, height, outcomes, n);
      OpenNext(r, t, id, outcomes, n);
      if n < k {
        OpenRest(r, StartDevice(t, id, ORDER[n], outcomes[n]), id, width, height, outcomes, n + 1, k);
      }
    }
  }

  /**
   A start of a display that is not mapped, in which device k is the first that cannot be opened and set up: the
   devices before it are open, each for its own kind, and those behind it are not even tried.
   */
  lemma StartOpensInOrder(r: Registry, id: int, width: int, height: int, outcomes: seq<Outcome>, k: nat)
    requires id !in r.inputs && |outcomes| == 4 && k <= 4
    requires Answers(Register(r, id, width, height), id, ORDER, outcomes)
    requires forall j :: 0 <= j < k ==> outcomes[j].fd >= 0 && outcomes[j].setupOk
    requires k < 4 ==> !(outcomes[k].fd >= 0 && outcomes[k].setupOk)
    ensures var t := Start(r, id, width, height, outcomes);
            Named(r, t, id, width, height, outcomes, if k < 4 then k + 1 else 4) && Open(r, t, id, outcomes, k)
  {
    assert ORDER[0..] == ORDER && outcomes[0..] == outcomes;
    OpenRest(r, Register(r, id, width, height), id, width, height, outcomes, 0, k);
  }

  // ---------- writing ----------

  /** Writing events to one port of a display: nothing happens without a display or an open device. */
  function Write(r: Registry, id: int, device: Device, events: seq<InputEvent>): Registry {
    if id !in r.inputs then r
    else
      var fd := GetFd(r.inputs[id], device);
      if fd < 0 || fd !in r.streams then r
      else r.(streams := r.streams[fd := r.streams[fd].(written := r.streams[fd].written + events)])
  }

  function Send(r: Registry, id: int, call: Call): Registry {
    Write(r, id, DeviceOf(call), Frame(call))
  }

  // ---------- descriptor accounting ----------

  ghost predicate HasFd(r: Registry, p: Port) {
    p.id in r.inputs && GetFd(r.inputs[p.id], p.device) >= 0
  }

  ghost function FdAt(r: Registry, p: Port): int
    requires p.id in r.inputs
  {
    GetFd(r.inputs[p.id], p.device)
  }

  /** Outside the ports already closed, descriptor fields and open uinput descriptors match one to one. */
  ghost predicate Balanced(r: Registry, closed: set<Port>) {
    && !r.misuse
    && (forall p :: HasFd(r, p) && p !in closed ==> FdAt(r, p) in r.streams && r.streams[FdAt(r, p)].port == p)
    && (forall fd :: fd in r.streams ==>
          var p := r.streams[fd].port;
          HasFd(r, p) && FdAt(r, p) == fd && p !in closed)
    && (forall p: Port :: p.id in r.inputs ==> FdAt(r, p) >= -1)
  }

  ghost predicate Accounted(r: Registry) {
    Balanced(r, {})
  }

  lemma SetThenGet(u: Unit, device: Device, fd: int, other: Device)
    ensures GetFd(SetFd(u, device, fd), other) == if other == device then fd else GetFd(u, other)
  {}

  /**
   Starting one closed device keeps the books exactly when the open fails or every setup ioctl succeeds:
   a failed setup leaves the number of a closed descriptor in the field.
   */
  lemma StartDeviceAccounted(r: Registry, id: int, device: Device, o: Outcome)
    requires Accounted(r) && id in r.inputs && Fresh(r, o.fd) && GetFd(r.inputs[id], device) < 0
    ensures Accounted(StartDevice(r, id, device, o)) <==> o.fd < 0 || o.setupOk
  {
    var t := StartDevice(r, id, device, o);
    forall other ensures GetFd(t.inputs[id], other) == if other == device then o.fd else GetFd(r.inputs[id], other) {
      SetThenGet(r.inputs[id], device, o.fd, other);
    }
    if o.fd >= 0 && !o.setupOk {
      assert GetFd(t.inputs[id], device) == o.fd && o.fd !in t.streams;
    }
  }

  /** Some device that the call opens fails its setup. */
  ghost predicate SetupFails(r: Registry, id: int, devices: seq<Device>, outcomes: seq<Outcome>)
    requires id in r.inputs && |devices| == |outcomes|
    decreases |devices|
  {
    devices != [] &&
    (if StartsDevice(r, id, devices[0], outcomes[0])
     then SetupFails(StartDevice(r, id, devices[0], outcomes[0]), id, devices[1..], outcomes[1..])
     else GetFd(r.inputs[id], devices[0]) < 0 && outcomes[0].fd >= 0)
  }

  lemma {:induction false} StartFromAccounted(r: Registry, id: int, devices: seq<Device>, outcomes: seq<Outcome>)
    requires Accounted(r) && id in r.inputs && |devices| == |outcomes|
    requires Answers(r, id, devices, outcomes) && !SetupFails(r, id, devices, outcomes)
    ensures Accounted(StartFrom(r, id, devices, outcomes))
    decreases |devices|
  {
    if devices != [] {
      if GetFd(r.inputs[id], devices[0]) < 0 {
        StartDeviceAccounted(r, id, devices[0], outcomes[0]);
        if StartsDevice(r, id, devices[0], outcomes[0]) {
          StartFromAccounted(StartDevice(r, id, devices[0], outcomes[0]), id, devices[1..], outcomes[1..]);
        }
      }
    }
  }

  lemma StopDeviceStep(r: Registry, id: int, closed: set<Port>, device: Device)
    requires Balanced(r, closed) && id in r.inputs && Port(id, device) !in closed
    ensures Balanced(StopDevice(r, id, r.inputs[id], device), closed + {Port(id, device)})
    ensures StopDevice(r, id, r.inputs[id], device).inputs == r.inputs
  {}

  ghost function PortsOf(id: int): set<Port> {
    {Port(id, Keyboard), Port(id, Touch), Port(id, Stylus), Port(id, Tablet)}
  }

  /** stop always unmaps the display, closes its open devices and no others, and closes each of them once. */
  lemma StopAccounted(r: Registry, id: int)
    requires Accounted(r)
    ensures Accounted(Stop(r, id)) && id !in Stop(r, id).inputs
    ensures forall other :: other != id ==> (other in Stop(r, id).inputs <==> other in r.inputs)
    ensures forall fd :: fd in Stop(r, id).streams <==> fd in r.streams && r.streams[fd].port.id != id
    ensures forall fd :: fd in Stop(r, id).streams ==> Stop(r, id).streams[fd] == r.streams[fd]
  {
    if id in r.inputs {
      var u := r.inputs[id];
      StopDeviceStep(r, id, {}, Keyboard);
      var a := StopDevice(r, id, u, Keyboard);
      StopDeviceStep(a, id, {} + {Port(id, Keyboard)}, Touch);
      var b := StopDevice(a, id, u, Touch);
      StopDeviceStep(b, id, {} + {Port(id, Keyboard)} + {Port(id, Touch)}, Stylus);
      var c := StopDevice(b, id, u, Stylus);
      StopDeviceStep(c, id, {} + {Port(id, Keyboard)} + {Port(id, Touch)} + {Port(id, Stylus)}, Tablet);
      assert {} + {Port(id, Keyboard)} + {Port(id, Touch)} + {Port(id, Stylus)} + {Port(id, Tablet)} == PortsOf(id);
      StoppedAll(r, StopDevice(c, id, u, Tablet), id);
    } else {
      forall fd | fd in r.streams ensures r.streams[fd].port.id != id {
        assert HasFd(r, r.streams[fd].port);
      }
    }
  }

  lemma StoppedAll(r: Registry, d: Registry, id: int)
    requires Accounted(r) && id in r.inputs && Balanced(d, PortsOf(id)) && d.inputs == r.inputs
    requires forall fd :: fd in d.streams ==> fd in r.streams && d.streams[fd] == r.streams[fd]
    ensures Accounted(d.(inputs := d.inputs - {id}))
    ensures forall fd :: fd in d.streams <==> fd in r.streams && r.streams[fd].port.id != id
  {}

  // ---------- runs ----------

  /** A critical section of some caller; a reconfigure contributes a StopOp and, some time later, a StartOp. */
  datatype Op =
    | StopOp(id: int)
    | StartOp(id: int, width: int, height: int, outcomes: seq<Outcome>)
    | SendOp(id: int, call: Call)

  ghost predicate Possible(r: Registry, op: Op) {
    op.StartOp? ==>
      |op.outcomes| == 4 && Answers(Register(r, op.id, op.width, op.height), op.id, ORDER, op.outcomes)
  }

  ghost function Run(r: Registry, op: Op): Registry
    requires Possible(r, op)
  {
    match op
    case StopOp(id) => Stop(r, id)
    case StartOp(id, width, height, outcomes) => Start(r, id, width, height, outcomes)
    case SendOp(id, call) => Send(r, id, call)
  }

  ghost predicate PossibleAll(r: Registry, ops: seq<Op>)
    decreases |ops|
  {
    ops == [] || (Possible(r, ops[0]) && PossibleAll(Run(r, ops[0]), ops[1..]))
  }

  ghost function RunAll(r: Registry, ops: seq<Op>): Registry
    requires PossibleAll(r, ops)
    decreases |ops|
  {
    if ops == [] then r else RunAll(Run(r, ops[0]), ops[1..])
  }

  /** An operation in which the setup of a device fails after it was opened. */
  ghost predicate Fails(r: Registry, op: Op)
    requires Possible(r, op)
  {
    op.StartOp? && SetupFails(Register(r, op.id, op.width, op.height), op.id, ORDER, op.outcomes)
  }

  ghost predicate SomeFails(r: Registry, ops: seq<Op>)
    requires PossibleAll(r, ops)
    decreases |ops|
  {
    ops != [] && (Fails(r, ops[0]) || SomeFails(Run(r, ops[0]), ops[1..]))
  }

  lemma OpAccounted(r: Registry, op: Op)
    requires Accounted(r) && Possible(r, op) && !Fails(r, op)
    ensures Accounted(Run(r, op))
  {
    match op
    case StopOp(id) => StopAccounted(r, id);
    case StartOp(id, width, height, outcomes) =>
      StartFromAccounted(Register(r, id, width, height), id, ORDER, outcomes);
    case SendOp(id, call) =>
  }

  // ---------- a failed setup is never made good ----------

  /** The field of a port holds a number that is not its own open descriptor. */
  ghost predicate Stale(r: Registry, p: Port) {
    HasFd(r, p) && !(FdAt(r, p) in r.streams && r.streams[FdAt(r, p)].port == p)
  }

  ghost predicate Broken(r: Registry) {
    r.misuse || exists p: Port :: Stale(r, p)
  }

  lemma BrokenIsNotAccounted(r: Registry)
    requires Broken(r)
    ensures !Accounted(r)
  {
    if !r.misuse {
      var p: Port :| Stale(r, p);
      assert HasFd(r, p);
    }
  }

  lemma StartDeviceKeepsStale(r: Registry, id: int, device: Device, o: Outcome, p: Port)
    requires id in r.inputs && Fresh(r, o.fd) && Stale(r, p)
    ensures Stale(StartDevice(r, id, device, o), p)
  {
    SetThenGet(r.inputs[id], device, o.fd, p.device);
  }

  lemma {:induction false} StartFromKeepsBroken(r: Registry, id: int, devices: seq<Device>, outcomes: seq<Outcome>)
    requires id in r.inputs && |devices| == |outcomes| && Answers(r, id, devices, outcomes)
    requires Broken(r) || SetupFails(r, id, devices, outcomes)
    ensures Broken(StartFrom(r, id, devices, outcomes))
    decreases |devices|
  {
    if devices != [] {
      var next := StartDevice(r, id, devices[0], outcomes[0]);
      assert r.misuse ==> next.misuse;
      if p: Port :| Stale(r, p) {
        StartDeviceKeepsStale(r, id, devices[0], outcomes[0], p);
      }
      if StartsDevice(r, id, devices[0], outcomes[0]) {
        StartFromKeepsBroken(next, id, devices[1..], outcomes[1..]);
      } else if !Broken(r) {
        SetThenGet(r.inputs[id], devices[0], outcomes[0].fd, devices[0]);
        assert Stale(next, Port(id, devices[0]));
      }
    }
  }

  lemma StopDeviceKeepsStale(r: Registry, id: int, device: Device, p: Port)
    requires id in r.inputs && Stale(r, p)
    ensures Stale(StopDevice(r, id, r.inputs[id], device), p)
    ensures p == Port(id, device) ==> StopDevice(r, id, r.inputs[id], device).misuse
    ensures r.misuse ==> StopDevice(r, id, r.inputs[id], device).misuse
  {}

  /** Stopping a display with a stale field closes a number that is not its own. */
  lemma StopKeepsBroken(r: Registry, id: int)
    requires Broken(r)
    ensures Broken(Stop(r, id))
  {
    if id in r.inputs && !r.misuse {
      var p: Port :| Stale(r, p);
      var u := r.inputs[id];
      StopDeviceKeepsStale(r, id, Keyboard, p);
      var a := StopDevice(r, id, u, Keyboard);
      StopDeviceKeepsStale(a, id, Touch, p);
      var b := StopDevice(a, id, u, Touch);
      StopDeviceKeepsStale(b, id, Stylus, p);
      var c := StopDevice(b, id, u, Stylus);
      StopDeviceKeepsStale(c, id, Tablet, p);
      if p.id == id {
        match p.device case Keyboard => case Touch => case Stylus => case Tablet =>
        assert Stop(r, id).misuse;
      } else {
        assert Stale(Stop(r, id), p);
      }
    }
  }

  lemma OpKeepsBroken(r: Registry, op: Op)
    requires Possible(r, op) && (Broken(r) || Fails(r, op))
    ensures Broken(Run(r, op))
  {
    match op
    case StopOp(id) => StopKeepsBroken(r, id);
    case StartOp(id, width, height, outcomes) =>
      var registered := Register(r, id, width, height);
      if p: Port :| Stale(r, p) {
        assert Stale(registered, p);
      }
      StartFromKeepsBroken(registered, id, ORDER, outcomes);
    case SendOp(id, call) =>
      if p: Port :| Stale(r, p) {
        assert Stale(Run(r, op), p);
      }
  }

  lemma {:induction false} RunBroken(r: Registry, ops: seq<Op>)
    requires PossibleAll(r, ops) && (Broken(r) || SomeFails(r, ops))
    ensures Broken(RunAll(r, ops))
    decreases |ops|
  {
    if ops != [] {
      if Broken(r) || Fails(r, ops[0]) {
        OpKeepsBroken(r, ops[0]);
      }
      RunBroken(Run(r, ops[0]), ops[1..]);
    }
  }

  lemma {:induction false} RunUnharmed(r: Registry, ops: seq<Op>)
    requires Accounted(r) && PossibleAll(r, ops) && !SomeFails(r, ops)
    ensures Accounted(RunAll(r, ops))
    decreases |ops|
  {
    if ops != [] {
      OpAccounted(r, ops[0]);
      RunUnharmed(Run(r, ops[0]), ops[1..]);
    }
  }

  /**
   However reconfigure, stop and input calls interleave, with descriptor numbers reused: at the end every
   descriptor field is -1 or an open uinput descriptor of its own, every open one belongs to a mapped
   display, and none was closed twice or by the wrong owner, if and only if no opened device failed its setup.
   */
  lemma RunAccounted(r: Registry, ops: seq<Op>)
    requires Accounted(r) && PossibleAll(r, ops)
    ensures Accounted(RunAll(r, ops)) <==> !SomeFails(r, ops)
  {
    if SomeFails(r, ops) {
      RunBroken(r, ops);
      BrokenIsNotAccounted(RunAll(r, ops));
    } else {
      RunUnharmed(r, ops);
    }
  }

  /** One failed setup, from the start: the keyboard's field holds number 3, which is closed. */
  lemma FailedSetupIsStale() returns (outcomes: seq<Outcome>)
    ensures |outcomes| == 4 && PossibleAll(EMPTY, [StartOp(0, 1080, 720, outcomes)])
    ensures var r := RunAll(EMPTY, [StartOp(0, 1080, 720, outcomes)]);
            && 0 in r.inputs && r.inputs[0].keyboard == 3 && 3 !in r.streams
            && !Accounted(r) && Stop(r, 0).misuse
  {
    outcomes := [Outcome(3, false), Outcome(-1, true), Outcome(-1, true), Outcome(-1, true)];
    var op := StartOp(0, 1080, 720, outcomes);
    var registered := Register(EMPTY, 0, 1080, 720);
    assert ORDER[0] == Keyboard;
    var r := StartDevice(registered, 0, Keyboard, outcomes[0]);
    assert StartFrom(registered, 0, ORDER, outcomes) == r;
    assert Possible(EMPTY, op) && [op][1..] == [] && Run(EMPTY, op) == r;
    assert Stale(r, Port(0, Keyboard));
    BrokenIsNotAccounted(r);
  }

  // ---------- sizes ----------

  lemma {:induction false} StartFromKeepsSize(r: Registry, id: int, devices: seq<Device>, outcomes: seq<Outcome>)
    requires id in r.inputs && |devices| == |outcomes|
    ensures var t := StartFrom(r, id, devices, outcomes);
            && t.inputs.Keys == r.inputs.Keys
            && (forall other :: other in r.inputs ==>
                  t.inputs[other].width == r.inputs[other].width && t.inputs[other].height == r.inputs[other].height)
    decreases |devices|
  {
    if devices != [] {
      var next := StartDevice(r, id, devices[0], outcomes[0]);
      assert next.inputs.Keys == r.inputs.Keys;
      if StartsDevice(r, id, devices[0], outcomes[0]) {
        StartFromKeepsSize(next, id, devices[1..], outcomes[1..]);
      }
    }
  }

  /**
   After a reconfigure the display has the size it was given if and only if no other start of the same
   display got in between its two sections with a different size: a start never resizes a mapped display.
   */
  lemma ReconfigureSize(r: Registry, between: seq<Op>, id: int, width: int, height: int, outcomes: seq<Outcome>)
    requires PossibleAll(Stop(r, id), between) && |outcomes| == 4
    ensures var before := RunAll(Stop(r, id), between);
            var after := Start(before, id, width, height, outcomes);
            && id in after.inputs
            && (after.inputs[id].width == width && after.inputs[id].height == height
                <==> id !in before.inputs
                     || (before.inputs[id].width == width && before.inputs[id].height == height))
    ensures between == [] ==> id !in RunAll(Stop(r, id), between).inputs
  {
    var before := RunAll(Stop(r, id), between);
    StartFromKeepsSize(Register(before, id, width, height), id, ORDER, outcomes);
  }

  // ---------- streams ----------

  /** The calls of a run that concern one port. */
  function CallsFor(ops: seq<Op>, port: Port): seq<Call>
    decreases |ops|
  {
    if ops == [] then []
    else
      var op := ops[|ops| - 1];
      var earlier := CallsFor(ops[..|ops| - 1], port);
      if op.SendOp? && Port(op.id, DeviceOf(op.call)) == port then earlier + [op.call] else earlier
  }

  ghost predicate OnlySends(ops: seq<Op>) {
    forall op :: op in ops ==> op.SendOp?
  }

  lemma {:induction false} RunLast(r: Registry, ops: seq<Op>)
    requires ops != [] && PossibleAll(r, ops)
    ensures PossibleAll(r, ops[..|ops| - 1]) && Possible(RunAll(r, ops[..|ops| - 1]), ops[|ops| - 1])
    ensures RunAll(r, ops) == Run(RunAll(r, ops[..|ops| - 1]), ops[|ops| - 1])
    decreases |ops|
  {
    if |ops| > 1 {
      var rest := ops[1..];
      RunLast(Run(r, ops[0]), rest);
      assert rest[..|rest| - 1] == ops[..|ops| - 1][1..];
    } else {
      assert ops[..0] == [] && ops[1..] == [];
    }
  }

  lemma Append<T>(base: seq<T>, grown: seq<T>, more: seq<T>, result: seq<T>)
    requires result == grown + more
    ensures base + result == (base + grown) + more
  {}

  lemma WriteHits(t: Registry, id: int, device: Device, events: seq<InputEvent>, fd: int)
    requires fd in t.streams && fd >= 0
    ensures Write(t, id, device, events).streams.Keys == t.streams.Keys
    ensures Write(t, id, device, events).streams[fd].port == t.streams[fd].port
    ensures Write(t, id, device, events).streams[fd].written
         == t.streams[fd].written + (if id in t.inputs && GetFd(t.inputs[id], device) == fd then events else [])
  {}

  lemma FramesNext(calls: seq<Call>, call: Call)
    ensures Frames(calls + [call]) == Frames(calls) + Frame(call)
  {}

  lemma {:induction false} CallsForFits(ops: seq<Op>, port: Port)
    ensures forall c :: c in CallsFor(ops, port) ==> SendOp(port.id, c) in ops && DeviceOf(c) == port.device
    decreases |ops|
  {
    if ops != [] {
      CallsForFits(ops[..|ops| - 1], port);
    }
  }

  /** The stream of one port after some calls for it. */
  ghost predicate HasWritten(t: Registry, fd: int, port: Port, base: seq<InputEvent>, calls: seq<Call>) {
    fd in t.streams && t.streams[fd].port == port && t.streams[fd].written == base + Frames(calls)
  }

  /** The descriptor is open, it is in the field of its own port and in no other. */
  ghost predicate Exclusive(r: Registry, fd: int, port: Port) {
    && fd >= 0 && fd in r.streams && r.streams[fd].port == port
    && HasFd(r, port) && FdAt(r, port) == fd
    && forall p: Port :: HasFd(r, p) && FdAt(r, p) == fd ==> p == port
  }

  lemma AccountedIsExclusive(r: Registry, fd: int)
    requires Accounted(r) && fd in r.streams
    ensures Exclusive(r, fd, r.streams[fd].port)
  {
    assert HasFd(r, r.streams[fd].port);
  }

  lemma StartDeviceKeepsStream(r: Registry, id: int, device: Device, o: Outcome, fd: int, port: Port)
    requires id in r.inputs && Fresh(r, o.fd) && Exclusive(r, fd, port)
    ensures var t := StartDevice(r, id, device, o); Exclusive(t, fd, port) && t.streams[fd] == r.streams[fd]
  {
    var t := StartDevice(r, id, device, o);
    forall other ensures GetFd(SetFd(r.inputs[id], device, o.fd), other)
                      == if other == device then o.fd else GetFd(r.inputs[id], other) {
      SetThenGet(r.inputs[id], device, o.fd, other);
    }
    forall p: Port | HasFd(t, p) && FdAt(t, p) == fd ensures p == port {
      assert HasFd(r, p) && FdAt(r, p) == fd;
    }
  }

  lemma {:induction false} StartFromKeepsStream(
    r: Registry, id: int, devices: seq<Device>, outcomes: seq<Outcome>, fd: int, port: Port)
    requires id in r.inputs && |devices| == |outcomes| && Answers(r, id, devices, outcomes) && Exclusive(r, fd, port)
    ensures var t := StartFrom(r, id, devices, outcomes); Exclusive(t, fd, port) && t.streams[fd] == r.streams[fd]
    decreases |devices|
  {
    if devices != [] {
      StartDeviceKeepsStream(r, id, devices[0], outcomes[0], fd, port);
      if StartsDevice(r, id, devices[0], outcomes[0]) {
        StartFromKeepsStream(StartDevice(r, id, devices[0], outcomes[0]), id, devices[1..], outcomes[1..], fd, port);
      }
    }
  }

  lemma StopDeviceKeepsStream(r: Registry, id: int, device: Device, fd: int, port: Port)
    requires id in r.inputs && id != port.id && Exclusive(r, fd, port)
    ensures var t := StopDevice(r, id, r.inputs[id], device);
            t.inputs == r.inputs && Exclusive(t, fd, port) && t.streams[fd] == r.streams[fd]
  {
    var t := StopDevice(r, id, r.inputs[id], device);
    assert HasFd(r, Port(id, device)) ==> FdAt(r, Port(id, device)) != fd;
    forall p: Port | HasFd(t, p) && FdAt(t, p) == fd ensures p == port {
      assert HasFd(r, p) && FdAt(r, p) == fd;
    }
  }

  lemma StopKeepsStream(r: Registry, id: int, fd: int, port: Port)
    requires id != port.id && Exclusive(r, fd, port)
    ensures Exclusive(Stop(r, id), fd, port) && Stop(r, id).streams[fd] == r.streams[fd]
  {
    if id in r.inputs {
      var u := r.inputs[id];
      StopDeviceKeepsStream(r, id, Keyboard, fd, port);
      var a := StopDevice(r, id, u, Keyboard);
      StopDeviceKeepsStream(a, id, Touch, fd, port);
      var b := StopDevice(a, id, u, Touch);
      StopDeviceKeepsStream(b, id, Stylus, fd, port);
      var c := StopDevice(b, id, u, Stylus);
      StopDeviceKeepsStream(c, id, Tablet, fd, port);
      var d := StopDevice(c, id, u, Tablet);
      var t := Stop(r, id);
      forall p: Port | HasFd(t, p) && FdAt(t, p) == fd ensures p == port {
        assert HasFd(d, p) && FdAt(d, p) == fd;
      }
    }
  }

  lemma RegisterKeepsStream(r: Registry, id: int, width: int, height: int, fd: int, port: Port)
    requires Exclusive(r, fd, port)
    ensures var t := Register(r, id, width, height); Exclusive(t, fd, port) && t.streams == r.streams
  {
    var t := Register(r, id, width, height);
    forall p: Port | HasFd(t, p) && FdAt(t, p) == fd ensures p == port {
      assert HasFd(r, p) && FdAt(r, p) == fd;
    }
  }

  lemma SendKeepsStream(r: Registry, id: int, call: Call, fd: int, port: Port)
    requires Exclusive(r, fd, port)
    ensures var t := Send(r, id, call);
            && Exclusive(t, fd, port)
            && t.streams[fd].written
               == r.streams[fd].written + (if Port(id, DeviceOf(call)) == port then Frame(call) else [])
  {
    var t := Send(r, id, call);
    WriteHits(r, id, DeviceOf(call), Frame(call), fd);
    assert id in r.inputs && GetFd(r.inputs[id], DeviceOf(call)) == fd ==> HasFd(r, Port(id, DeviceOf(call)));
    forall p: Port | HasFd(t, p) && FdAt(t, p) == fd ensures p == port {
      assert HasFd(r, p) && FdAt(r, p) == fd;
    }
  }

  /** One operation, unless it stops the port's display, adds exactly the frame of a call for the port. */
  lemma OpKeepsStream(r: Registry, op: Op, fd: int, port: Port)
    requires Possible(r, op) && Exclusive(r, fd, port) && op != StopOp(port.id)
    ensures var t := Run(r, op);
            && Exclusive(t, fd, port)
            && t.streams[fd].written == r.streams[fd].written
               + (if op.SendOp? && Port(op.id, DeviceOf(op.call)) == port then Frame(op.call) else [])
  {
    match op
    case StopOp(id) => StopKeepsStream(r, id, fd, port);
    case StartOp(id, width, height, outcomes) =>
      RegisterKeepsStream(r, id, width, height, fd, port);
      StartFromKeepsStream(Register(r, id, width, height), id, ORDER, outcomes, fd, port);
    case SendOp(id, call) => SendKeepsStream(r, id, call, fd, port);
  }

  lemma {:induction false} StreamGrows(r: Registry, ops: seq<Op>, fd: int, port: Port)
    requires PossibleAll(r, ops) && Exclusive(r, fd, port) && StopOp(port.id) !in ops
    ensures Exclusive(RunAll(r, ops), fd, port)
    ensures HasWritten(RunAll(r, ops), fd, port, r.streams[fd].written, CallsFor(ops, port))
    decreases |ops|
  {
    var base := r.streams[fd].written;
    if ops == [] {
      assert base + Frames([]) == base;
    } else {
      var earlier, last := ops[..|ops| - 1], ops[|ops| - 1];
      RunLast(r, ops);
      StreamGrows(r, earlier, fd, port);
      OpKeepsStream(RunAll(r, earlier), last, fd, port);
      var calls := CallsFor(earlier, port);
      if last.SendOp? && Port(last.id, DeviceOf(last.call)) == port {
        FramesNext(calls, last.call);
        Append(base, Frames(calls), Frame(last.call), Frames(calls + [last.call]));
      } else {
        assert (base + Frames(calls)) + [] == base + Frames(calls);
      }
    }
  }

  lemma {:induction false} SendsKeepDevices(r: Registry, ops: seq<Op>)
    requires OnlySends(ops) && PossibleAll(r, ops)
    ensures RunAll(r, ops).inputs == r.inputs && RunAll(r, ops).streams.Keys == r.streams.Keys
    decreases |ops|
  {
    if ops != [] {
      assert ops[0] in ops;
      SendsKeepDevices(Run(r, ops[0]), ops[1..]);
    }
  }

  /**
   Non-interference: over any run of stops, starts and input calls for any displays, setups failing or not, the
   stream of a device whose own display is not stopped stays open and grows by exactly the frames of the calls
   for that display and device, in call order; input calls alone open and close nothing.
   */
  lemma StreamsAreSeparate(r: Registry, ops: seq<Op>)
    requires Accounted(r) && PossibleAll(r, ops)
    ensures forall fd :: fd in r.streams && StopOp(r.streams[fd].port.id) !in ops ==>
              var port := r.streams[fd].port;
              HasWritten(RunAll(r, ops), fd, port, r.streams[fd].written, CallsFor(ops, port))
    ensures OnlySends(ops) ==>
              RunAll(r, ops).inputs == r.inputs && RunAll(r, ops).streams.Keys == r.streams.Keys
  {
    forall fd | fd in r.streams && StopOp(r.streams[fd].port.id) !in ops
      ensures var port := r.streams[fd].port;
              HasWritten(RunAll(r, ops), fd, port, r.streams[fd].written, CallsFor(ops, port))
    {
      AccountedIsExclusive(r, fd);
      StreamGrows(r, ops, fd, r.streams[fd].port);
    }
    if OnlySends(ops) {
      SendsKeepDevices(r, ops);
    }
  }

  /**
   The touch screen of one display, whatever happens to other displays and devices in between: as long as its
   display is not stopped, a freshly opened device decodes to exactly the contacts of its own touch calls.
   */
  lemma TouchScreenDecodes(r: Registry, ops: seq<Op>, fd: int)
    requires Accounted(r) && PossibleAll(r, ops)
    requires fd in r.streams && r.streams[fd].port.device == Touch && r.streams[fd].written == []
    requires StopOp(r.streams[fd].port.id) !in ops
    requires forall op :: op in ops && op.SendOp? && op.id == r.streams[fd].port.id && op.call.TouchPoint? ==>
               InRange(op.call.pointerId)
    ensures fd in RunAll(r, ops).streams
    ensures DecodeTouches(NO_CONTACTS, Delivered(Touch, RunAll(r, ops).streams[fd].written)).reported
         == AllTouching(CallsFor(ops, r.streams[fd].port))
  {
    StreamsAreSeparate(r, ops);
    var calls := CallsFor(ops, r.streams[fd].port);
    CallsForFits(ops, r.streams[fd].port);
    assert [] + Frames(calls) == Frames(calls);
    TouchStreamDecodes(calls);
  }
}
