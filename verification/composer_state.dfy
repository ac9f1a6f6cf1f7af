/**
 The shared state of the composer service and its critical sections, one function each.
 Operating-system resources (descriptors, surface controls) are explicit: closing, handing over or
 releasing something its caller does not own is recorded as misuse instead of being ruled out.
 */
module ComposerState {
  import opened Options
  import opened VsyncLoop

  type DisplayId = int
  type Ref = nat       // a ComposerDisplay object; objects are never freed
  type Window = nat    // an ANativeWindow
  type Control = nat   // an ASurfaceControl

  // ---------- file descriptors ----------

  /** Who holds an open descriptor: a fence slot, a local variable of some thread, or code outside the composer. */
  datatype Holder =
    | Slot(ref: Ref)
    | Acquire(tid: nat)
    | Stats(cid: nat)
    | Store(cid: nat)
    | Old(cid: nat)
    | Outside

  /** The descriptor table. A number can be reused once it is closed. */
  datatype Files = Files(open: map<int, Holder>, misuse: bool)

  function CloseFd(files: Files, holder: Holder, fd: int): Files {
    if fd < 0 then files
    else if fd in files.open && files.open[fd] == holder then files.(open := files.open - {fd})
    else files.(open := files.open - {fd}, misuse := true)
  }

  function PassFd(files: Files, from: Holder, to: Holder, fd: int): Files {
    if fd < 0 then files
    else if fd in files.open && files.open[fd] == from then files.(open := files.open[fd := to])
    else files.(misuse := true)
  }

  function OpenFd(files: Files, holder: Holder, fd: int): Files {
    if fd < 0 then files else files.(open := files.open[fd := holder])
  }

  /** The kernel hands out a number that is not in use, or a negative number when it fails. */
  predicate Fresh(files: Files, fd: int) {
    fd >= -1 && fd !in files.open
  }

  // ---------- surface controls ----------

  /** A live control remembers the display object holding it and the window it was created from. */
  datatype Owner = Owner(ref: Ref, window: Window)

  datatype Controls = Controls(live: map<Control, Owner>, misuse: bool)

  function Release(controls: Controls, ref: Ref, held: Option<Control>): Controls {
    if held.None? then controls
    else if held.value in controls.live && controls.live[held.value].ref == ref then
      controls.(live := controls.live - {held.value})
    else controls.(live := controls.live - {held.value}, misuse := true)
  }

  function Create(controls: Controls, ref: Ref, window: Window, made: Option<Control>): Controls {
    if made.None? then controls else controls.(live := controls.live[made.value := Owner(ref, window)])
  }

  predicate FreshControl(controls: Controls, made: Option<Control>) {
    made.Some? ==> made.value !in controls.live
  }

  // ---------- displays ----------

  datatype Config = Config(displayId: DisplayId, width: int, height: int, dpi: int, vsyncPeriod: int)

  /** The part of a configuration whose change is announced to the callback. */
  datatype Mode = Mode(width: int, height: int, vsyncPeriod: int)

  function ModeOf(c: Config): Mode {
    Mode(c.width, c.height, c.vsyncPeriod)
  }

  datatype Display = Display(
    id: DisplayId,
    surface: bool,
    window: Option<Window>,
    control: Option<Control>,
    config: Config,
    plugged: bool,
    fence: int,
    vsync: Thread)

  function NewDisplay(id: DisplayId, window: Window, config: Config): Display {
    Display(id, true, Some(window), None, config, false, -1, STARTED)
  }

  datatype Event =
    | Hotplug(sequenceId: int, id: DisplayId, connected: bool, primary: bool)
    | Refresh(sequenceId: int, id: DisplayId)
    | Vsync(sequenceId: int, id: DisplayId, timestamp: int)

  datatype Shared = Shared(
    registered: bool,                 // mCallbacks is not null
    sequenceId: int,
    displays: map<DisplayId, Ref>,    // mDisplays
    heap: seq<Display>,               // every ComposerDisplay ever created
    files: Files,
    controls: Controls)

  const BOOT := Shared(false, 0, map[], [], Files(map[], false), Controls(map[], false))

  predicate IsMapped(sh: Shared, r: Ref) {
    r < |sh.heap| && sh.heap[r].id in sh.displays && sh.displays[sh.heap[r].id] == r
  }

  /** Map entries point to existing objects that know their own id; hence no object is mapped twice. */
  ghost predicate Wf(sh: Shared) {
    forall id :: id in sh.displays ==> sh.displays[id] < |sh.heap| && sh.heap[sh.displays[id]].id == id
  }

  function Put(sh: Shared, r: Ref, d: Display): Shared
    requires r < |sh.heap|
  {
    sh.(heap := sh.heap[r := d])
  }

  // ---------- registerCallback ----------

  function Plug(sh: Shared, r: Ref): Display
    requires r < |sh.heap|
  {
    if IsMapped(sh, r) && sh.heap[r].window.Some? then sh.heap[r].(plugged := true) else sh.heap[r]
  }

  /** The locked part of registerCallback: every mapped display with a window becomes plugged. */
  function RegisterSection(sh: Shared, sequenceId: int): Shared {
    sh.(registered := true, sequenceId := sequenceId,
        heap := seq(|sh.heap|, r requires 0 <= r < |sh.heap| => Plug(sh, r)))
  }

  /** The displays that registerCallback announces after unlocking. */
  ghost function Windowed(sh: Shared): set<DisplayId>
    requires Wf(sh)
  {
    set id | id in sh.displays && sh.heap[sh.displays[id]].window.Some?
  }

  // ---------- onSurfaceChanged ----------

  function TargetRef(sh: Shared, id: DisplayId): Ref {
    if id in sh.displays then sh.displays[id] else |sh.heap|
  }

  /** Whether the control has to be created: there is none, or it belongs to an earlier window. */
  predicate NeedsControl(sh: Shared, id: DisplayId, window: Window)
    requires id in sh.displays ==> sh.displays[id] < |sh.heap|
  {
    id in sh.displays ==>
      var d := sh.heap[sh.displays[id]];
      d.control.None? || d.window != Some(window)
  }

  function ChangedDisplay(sh: Shared, id: DisplayId, window: Window, config: Config, made: Option<Control>): Display
    requires id in sh.displays ==> sh.displays[id] < |sh.heap|
  {
    var d := if id in sh.displays
      then sh.heap[sh.displays[id]].(surface := true, window := Some(window), config := config)
      else NewDisplay(id, window, config);
    d.(control := if NeedsControl(sh, id, window) then made else d.control,
       plugged := d.plugged || sh.registered)
  }

  function ChangedControls(sh: Shared, id: DisplayId, window: Window, made: Option<Control>): Controls
    requires id in sh.displays ==> sh.displays[id] < |sh.heap|
  {
    if NeedsControl(sh, id, window) then
      var r := TargetRef(sh, id);
      var held := if id in sh.displays then sh.heap[r].control else None;
      Create(Release(sh.controls, r, held), r, window, made)
    else sh.controls
  }

  /** The locked part of onSurfaceChanged; `made` is what createFromWindow returns, if it is called. */
  function ChangedSection(sh: Shared, id: DisplayId, window: Window, config: Config, made: Option<Control>): Shared
    requires id in sh.displays ==> sh.displays[id] < |sh.heap|
  {
    var d := ChangedDisplay(sh, id, window, config, made);
    sh.(heap := if id in sh.displays then sh.heap[sh.displays[id] := d] else sh.heap + [d],
        displays := sh.displays[id := TargetRef(sh, id)],
        controls := ChangedControls(sh, id, window, made))
  }

  /** What onSurfaceChanged announces after unlocking, decided while the lock was held. */
  function ChangedEvents(sh: Shared, id: DisplayId, config: Config): seq<Event>
    requires id in sh.displays ==> sh.displays[id] < |sh.heap|
  {
    if !sh.registered then []
    else if id !in sh.displays || !sh.heap[sh.displays[id]].plugged then
      [Hotplug(sh.sequenceId, id, true, id == 0), Refresh(sh.sequenceId, id)]
    else if ModeOf(sh.heap[sh.displays[id]].config) != ModeOf(config) then
      [Refresh(sh.sequenceId, id)]
    else []
  }

  // ---------- onSurfaceDestroyed and onDisplayDestroyed ----------

  /** Window, surface and control are dropped, with the control released. */
  function DropSurface(sh: Shared, r: Ref): Shared
    requires r < |sh.heap|
  {
    Put(sh, r, sh.heap[r].(surface := false, window := None, control := None))
      .(controls := Release(sh.controls, r, sh.heap[r].control))
  }

  function DropFence(sh: Shared, r: Ref): Shared
    requires r < |sh.heap|
  {
    Put(sh, r, sh.heap[r].(fence := -1)).(files := CloseFd(sh.files, Slot(r), sh.heap[r].fence))
  }

  function SurfaceDestroyedSection(sh: Shared, id: DisplayId): Shared
    requires id in sh.displays ==> sh.displays[id] < |sh.heap|
  {
    if id !in sh.displays then sh else DropFence(DropSurface(sh, sh.displays[id]), sh.displays[id])
  }

  /** The locked part of onDisplayDestroyed up to the join: unplugged, and the thread told to stop. */
  function TeardownSection(sh: Shared, r: Ref): Shared
    requires r < |sh.heap|
  {
    var dropped := DropSurface(sh, r);
    var d := dropped.heap[r];
    Put(dropped, r, d.(plugged := false, vsync := d.vsync.(started := false)))
  }

  function Erase(sh: Shared, id: DisplayId): Shared {
    sh.(displays := sh.displays - {id})
  }

  // ---------- present and setBuffer ----------

  /** The descriptor present would return: the stored fence, if the kernel still knows it. */
  function Presentable(sh: Shared, id: DisplayId): int
    requires id in sh.displays ==> sh.displays[id] < |sh.heap|
  {
    if id !in sh.displays then -1
    else
      var fd := sh.heap[sh.displays[id]].fence;
      if fd >= 0 && fd in sh.files.open then fd else -1
  }

  /** present: the slot is emptied either way; only a descriptor that passes the check goes to the caller. */
  function PresentSection(sh: Shared, id: DisplayId): Shared
    requires id in sh.displays ==> sh.displays[id] < |sh.heap|
  {
    if id !in sh.displays then sh
    else
      var r := sh.displays[id];
      Put(sh, r, sh.heap[r].(fence := -1))
        .(files := PassFd(sh.files, Slot(r), Outside, Presentable(sh, id)))
  }

  /** The control that the second critical section of setBuffer addresses, if there is one. */
  function TransactionTarget(sh: Shared, id: DisplayId): Option<Control>
    requires id in sh.displays ==> sh.displays[id] < |sh.heap|
  {
    if id !in sh.displays then None else sh.heap[sh.displays[id]].control
  }

  /** A completion callback swaps a new fence into the slot; the old one is left in its local variable. */
  function SwapFence(sh: Shared, r: Ref, cid: nat, fd: int): Shared
    requires r < |sh.heap|
  {
    Put(sh, r, sh.heap[r].(fence := fd))
      .(files := PassFd(PassFd(sh.files, Slot(r), Old(cid), sh.heap[r].fence), Store(cid), Slot(r), fd))
  }
}
