/**
 The composer as a concurrent machine: one UI thread, any number of binder threads, completion
 callbacks and vsync threads, and the rest of the process. An action is one critical section, one
 emission or one lock-free access; every interleaving of enabled actions is a run.
 */
module ComposerMachine {
  import opened Options
  import opened VsyncLoop
  import opened ComposerState

  /** The UI entry points run one after the other on the main looper. */
  datatype Ui =
    | Idle
    | Emitting(events: seq<Event>)                 // onSurfaceChanged, after unlocking
    | Joining(id: DisplayId, ref: Ref)             // onDisplayDestroyed, in stop's join, holding mLock
    | Disconnecting(id: DisplayId, ref: Ref)       // onDisplayDestroyed, unlocked
    | Erasing(id: DisplayId, ref: Ref)             // onDisplayDestroyed, before the second section

  /** A binder thread inside a call that spans several actions; `acquire` is setBuffer's descriptor. */
  datatype Binder =
    | Announcing(ids: set<DisplayId>)
    | Entered(id: DisplayId, acquire: int)
    | Found(id: DisplayId, ref: Ref, acquire: int)
    | Imported(id: DisplayId, ref: Ref, acquire: int)
    | Ready(id: DisplayId, acquire: int)

  /** A completion callback: it owns the fence of the statistics, its duplicate, or the replaced fence. */
  datatype Completion =
    | GotStats(ref: Ref, fd: int)
    | Duplicated(ref: Ref, fd: int, copy: int)
    | Storing(ref: Ref, copy: int)
    | Swapped(previous: int)

  /** A transaction that was applied: its display id, the display given as context, and its target. */
  datatype Transaction = Transaction(id: DisplayId, ref: Ref, target: Control)

  /**
   `seen` and `due` belong to an observer of the callback: it owes a getActiveConfig for each display
   it got a connect or refresh for, and keeps the modes it was told.
   `broken` is set once setBuffer goes on after createFromHandle failed with an acquire fence.
   */
  datatype State = State(
    sh: Shared,
    ui: Ui,
    binders: map<nat, Binder>,
    completions: map<nat, Completion>,
    applied: seq<Transaction>,
    trace: seq<Event>,
    seen: map<DisplayId, Mode>,
    due: set<DisplayId>,
    broken: bool)

  const INIT := State(BOOT, Idle, map[], map[], [], [], map[], {}, false)

  datatype UiAction =
    | SurfaceChanged(id: DisplayId, window: Window, config: Config, made: Option<Control>)
    | SurfaceDestroyed(id: DisplayId)
    | DestroyBegin(id: DisplayId)
    | DestroyJoined
    | DestroyEmit
    | DestroyErase
    | EmitNext

  datatype BinderAction =
    | Register(sequenceId: int)
    | Announce(id: DisplayId)
    | RegisterReturn
    | Present(id: DisplayId)
    | Fetch(id: DisplayId)
    | BufferEnter(id: DisplayId, acquire: int)
    | BufferLookup
    | BufferImport(ok: bool)
    | BufferCheck
    | BufferApply

  datatype CompletionAction =
    | Begin(ref: Ref, fd: int)
    | Duplicate(copy: int)
    | CloseStats
    | Swap
    | End

  datatype Action =
    | UiThread(ui: UiAction)
    | BinderThread(tid: nat, call: BinderAction)
    | Callback(cid: nat, completion: CompletionAction)
    | Loop(ref: Ref, step: Step)
    | Arrive(ref: Ref, event: ReceiverEvent)
    | OutsideOpen(fd: int)
    | OutsideClose(fd: int)

  /** mLock is only held across actions by onDisplayDestroyed waiting for a vsync thread. */
  predicate Unlocked(s: State) {
    !s.ui.Joining?
  }

  function AcquireOf(b: Binder): int {
    match b
    case Announcing(_) => -1
    case Entered(_, fd) => fd
    case Found(_, _, fd) => fd
    case Imported(_, _, fd) => fd
    case Ready(_, fd) => fd
  }

  ghost predicate UiEnabled(s: State, a: UiAction) {
    match a
    case SurfaceChanged(id, window, config, made) =>
      s.ui.Idle? && config.displayId == id && FreshControl(s.sh.controls, made)
    case SurfaceDestroyed(id) => s.ui.Idle?
    case DestroyBegin(id) => s.ui.Idle? && id in s.sh.displays
    case DestroyJoined => s.ui.Joining? && s.ui.ref < |s.sh.heap| && s.sh.heap[s.ui.ref].vsync.pc.Exited?
    case DestroyEmit => s.ui.Disconnecting?
    case DestroyErase => s.ui.Erasing?
    case EmitNext => s.ui.Emitting? && s.ui.events != []
  }

  ghost predicate BinderEnabled(s: State, tid: nat, a: BinderAction) {
    match a
    case Register(sequenceId) => Unlocked(s) && tid !in s.binders
    case Announce(id) => tid in s.binders && s.binders[tid].Announcing? && id in s.binders[tid].ids
    case RegisterReturn => tid in s.binders && s.binders[tid] == Announcing({})
    case Present(id) => Unlocked(s) && tid !in s.binders
    case Fetch(id) => Unlocked(s) && tid !in s.binders
    case BufferEnter(id, acquire) => tid !in s.binders && Fresh(s.sh.files, acquire)
    case BufferLookup => Unlocked(s) && tid in s.binders && s.binders[tid].Entered?
    case BufferImport(ok) => tid in s.binders && s.binders[tid].Found?
    case BufferCheck => tid in s.binders && s.binders[tid].Imported? && s.binders[tid].ref < |s.sh.heap|
    case BufferApply => Unlocked(s) && tid in s.binders && s.binders[tid].Ready?
  }

  ghost predicate CompletionEnabled(s: State, cid: nat, a: CompletionAction) {
    match a
    case Begin(ref, fd) =>
      cid !in s.completions && Fresh(s.sh.files, fd) && exists t :: t in s.applied && t.ref == ref
    case Duplicate(copy) =>
      && cid in s.completions && s.completions[cid].GotStats?
      && Fresh(s.sh.files, copy) && (s.completions[cid].fd < 0 ==> copy == -1)
    case CloseStats => cid in s.completions && s.completions[cid].Duplicated?
    case Swap => cid in s.completions && s.completions[cid].Storing? && s.completions[cid].ref < |s.sh.heap|
    case End => cid in s.completions && s.completions[cid].Swapped?
  }

  ghost predicate Enabled(s: State, a: Action) {
    match a
    case UiThread(ui) => UiEnabled(s, ui)
    case BinderThread(tid, call) => BinderEnabled(s, tid, call)
    case Callback(cid, completion) => CompletionEnabled(s, cid, completion)
    case Loop(ref, step) => ref < |s.sh.heap| && CanStep(s.sh.heap[ref].vsync, step)
    case Arrive(ref, event) => ref < |s.sh.heap|
    case OutsideOpen(fd) => fd >= 0 && fd !in s.sh.files.open
    case OutsideClose(fd) => fd in s.sh.files.open && s.sh.files.open[fd] == Outside
  }

  // ---------- the effect of each action ----------

  /** An event reaches the observer: a connect or refresh makes a getActiveConfig due. */
  function Emit(s: State, e: Event): State {
    s.(trace := s.trace + [e],
       due := if e.Refresh? || (e.Hotplug? && e.connected) then s.due + {e.id} else s.due)
  }

  function AfterUiEmission(events: seq<Event>): Ui {
    if events == [] then Idle else Emitting(events)
  }

  function WithFiles(s: State, files: Files): State {
    s.(sh := s.sh.(files := files))
  }

  function WithVsync(s: State, ref: Ref, t: Thread): State
    requires ref < |s.sh.heap|
  {
    s.(sh := Put(s.sh, ref, s.sh.heap[ref].(vsync := t)))
  }

  function FetchEffect(s: State, id: DisplayId): State
    requires id in s.sh.displays ==> s.sh.displays[id] < |s.sh.heap|
  {
    s.(due := s.due - {id},
       seen := if id in s.sh.displays then s.seen[id := ModeOf(s.sh.heap[s.sh.displays[id]].config)] else s.seen)
  }

  /** Leave setBuffer, closing the acquire fence if it is still held. */
  function BufferReturn(s: State, tid: nat): State
    requires tid in s.binders
  {
    WithFiles(s, CloseFd(s.sh.files, Acquire(tid), AcquireOf(s.binders[tid]))).(binders := s.binders - {tid})
  }

  function LookupEffect(s: State, tid: nat): State
    requires Wf(s.sh) && tid in s.binders && s.binders[tid].Entered?
  {
    var b := s.binders[tid];
    if b.id !in s.sh.displays || !s.sh.heap[s.sh.displays[b.id]].surface then BufferReturn(s, tid)
    else s.(binders := s.binders[tid := Found(b.id, s.sh.displays[b.id], b.acquire)])
  }

  /** A failed createFromHandle closes the acquire fence but neither forgets it nor returns. */
  function ImportEffect(s: State, tid: nat, ok: bool): State
    requires tid in s.binders && s.binders[tid].Found?
  {
    var b := s.binders[tid];
    var t := s.(binders := s.binders[tid := Imported(b.id, b.ref, b.acquire)]);
    if ok then t
    else WithFiles(t, CloseFd(s.sh.files, Acquire(tid), b.acquire)).(broken := s.broken || b.acquire >= 0)
  }

  /** The unlocked look at the display found earlier, which may have been erased since. */
  function CheckEffect(s: State, tid: nat): State
    requires tid in s.binders && s.binders[tid].Imported? && s.binders[tid].ref < |s.sh.heap|
  {
    var b := s.binders[tid];
    if s.sh.heap[b.ref].control.None? then BufferReturn(s, tid)
    else s.(binders := s.binders[tid := Ready(b.id, b.acquire)])
  }

  /** The second section looks the display up again; the transaction takes the acquire fence over. */
  function ApplyEffect(s: State, tid: nat): State
    requires Wf(s.sh) && tid in s.binders && s.binders[tid].Ready?
  {
    var b := s.binders[tid];
    var target := TransactionTarget(s.sh, b.id);
    if target.None? then BufferReturn(s, tid)
    else
      WithFiles(s, PassFd(s.sh.files, Acquire(tid), Outside, b.acquire))
        .(binders := s.binders - {tid},
          applied := s.applied + [Transaction(b.id, s.sh.displays[b.id], target.value)])
  }

  function LoopEffect(s: State, ref: Ref, step: Step): State
    requires ref < |s.sh.heap| && CanStep(s.sh.heap[ref].vsync, step)
  {
    var d := s.sh.heap[ref];
    var t := WithVsync(s, ref, Advance(d.vsync, step));
    var call := Called(d.vsync, step);
    if call.Some? && s.sh.registered then Emit(t, Vsync(s.sh.sequenceId, d.id, call.value.timestamp)) else t
  }

  ghost function UiEffect(s: State, a: UiAction): State
    requires Wf(s.sh) && UiEnabled(s, a)
  {
    match a
    case SurfaceChanged(id, window, config, made) =>
      s.(sh := ChangedSection(s.sh, id, window, config, made),
         ui := AfterUiEmission(ChangedEvents(s.sh, id, config)))
    case SurfaceDestroyed(id) => s.(sh := SurfaceDestroyedSection(s.sh, id))
    case DestroyBegin(id) =>
      s.(sh := TeardownSection(s.sh, s.sh.displays[id]), ui := Joining(id, s.sh.displays[id]))
    case DestroyJoined => s.(sh := DropFence(s.sh, s.ui.ref), ui := Disconnecting(s.ui.id, s.ui.ref))
    case DestroyEmit =>
      var t := if s.sh.registered then Emit(s, Hotplug(s.sh.sequenceId, s.ui.id, false, s.ui.id == 0)) else s;
      t.(ui := Erasing(s.ui.id, s.ui.ref))
    case DestroyErase => s.(sh := Erase(s.sh, s.ui.id), ui := Idle)
    case EmitNext => Emit(s, s.ui.events[0]).(ui := AfterUiEmission(s.ui.events[1..]))
  }

  ghost function BinderEffect(s: State, tid: nat, a: BinderAction): State
    requires Wf(s.sh) && BinderEnabled(s, tid, a)
  {
    match a
    case Register(sequenceId) =>
      s.(sh := RegisterSection(s.sh, sequenceId), binders := s.binders[tid := Announcing(Windowed(s.sh))])
    case Announce(id) =>
      Emit(s, Hotplug(s.sh.sequenceId, id, true, id == 0))
        .(binders := s.binders[tid := Announcing(s.binders[tid].ids - {id})])
    case RegisterReturn => s.(binders := s.binders - {tid})
    case Present(id) => s.(sh := PresentSection(s.sh, id))
    case Fetch(id) => FetchEffect(s, id)
    case BufferEnter(id, acquire) =>
      WithFiles(s, OpenFd(s.sh.files, Acquire(tid), acquire)).(binders := s.binders[tid := Entered(id, acquire)])
    case BufferLookup => LookupEffect(s, tid)
    case BufferImport(ok) => ImportEffect(s, tid, ok)
    case BufferCheck => CheckEffect(s, tid)
    case BufferApply => ApplyEffect(s, tid)
  }

  ghost function CompletionEffect(s: State, cid: nat, a: CompletionAction): State
    requires CompletionEnabled(s, cid, a)
  {
    match a
    case Begin(ref, fd) =>
      WithFiles(s, OpenFd(s.sh.files, Stats(cid), fd)).(completions := s.completions[cid := GotStats(ref, fd)])
    case Duplicate(copy) =>
      var c := s.completions[cid];
      WithFiles(s, OpenFd(s.sh.files, Store(cid), copy))
        .(completions := s.completions[cid := Duplicated(c.ref, c.fd, copy)])
    case CloseStats =>
      var c := s.completions[cid];
      WithFiles(s, CloseFd(s.sh.files, Stats(cid), c.fd))
        .(completions := s.completions[cid := Storing(c.ref, c.copy)])
    case Swap =>
      var c := s.completions[cid];
      s.(sh := SwapFence(s.sh, c.ref, cid, c.copy),
         completions := s.completions[cid := Swapped(s.sh.heap[c.ref].fence)])
    case End =>
      WithFiles(s, CloseFd(s.sh.files, Old(cid), s.completions[cid].previous))
        .(completions := s.completions - {cid})
  }

  ghost function Apply(s: State, a: Action): State
    requires Wf(s.sh) && Enabled(s, a)
  {
    match a
    case UiThread(ui) => UiEffect(s, ui)
    case BinderThread(tid, call) => BinderEffect(s, tid, call)
    case Callback(cid, completion) => CompletionEffect(s, cid, completion)
    case Loop(ref, step) => LoopEffect(s, ref, step)
    case Arrive(ref, event) =>
      var t := s.sh.heap[ref].vsync;
      WithVsync(s, ref, t.(queue := t.queue + [event]))
    case OutsideOpen(fd) => WithFiles(s, OpenFd(s.sh.files, Outside, fd))
    case OutsideClose(fd) => WithFiles(s, CloseFd(s.sh.files, Outside, fd))
  }

  // ---------- well-formedness ----------

  /** The map and the identities of the objects are as before. */
  ghost predicate SameDirectory(sh: Shared, sh': Shared) {
    && sh'.displays == sh.displays
    && |sh'.heap| == |sh.heap|
    && forall r :: 0 <= r < |sh.heap| ==> sh'.heap[r].id == sh.heap[r].id
  }

  lemma SameDirectoryWf(sh: Shared, sh': Shared)
    requires Wf(sh) && SameDirectory(sh, sh')
    ensures Wf(sh')
  {}

  lemma UiDirectory(s: State, a: UiAction)
    requires Wf(s.sh) && UiEnabled(s, a)
    ensures !a.SurfaceChanged? && !a.DestroyErase? ==> SameDirectory(s.sh, UiEffect(s, a).sh)
  {}

  lemma BinderDirectory(s: State, tid: nat, a: BinderAction)
    requires Wf(s.sh) && BinderEnabled(s, tid, a)
    ensures SameDirectory(s.sh, BinderEffect(s, tid, a).sh)
  {
    var t := BinderEffect(s, tid, a);
    match a
    case Register(sequenceId) => assert SameDirectory(s.sh, RegisterSection(s.sh, sequenceId));
    case Present(id) => assert SameDirectory(s.sh, PresentSection(s.sh, id));
    case BufferLookup => assert LookupEffect(s, tid).sh.(files := s.sh.files) == s.sh;
    case BufferImport(ok) => assert ImportEffect(s, tid, ok).sh.(files := s.sh.files) == s.sh;
    case BufferCheck => assert CheckEffect(s, tid).sh.(files := s.sh.files) == s.sh;
    case BufferApply => assert ApplyEffect(s, tid).sh.(files := s.sh.files) == s.sh;
    case _ =>
  }

  lemma CompletionDirectory(s: State, cid: nat, a: CompletionAction)
    requires CompletionEnabled(s, cid, a)
    ensures SameDirectory(s.sh, CompletionEffect(s, cid, a).sh)
  {}

  lemma ChangedWf(sh: Shared, id: DisplayId, window: Window, config: Config, made: Option<Control>)
    requires Wf(sh)
    ensures Wf(ChangedSection(sh, id, window, config, made))
  {}

  lemma WfPreserved(s: State, a: Action)
    requires Wf(s.sh) && Enabled(s, a)
    ensures Wf(Apply(s, a).sh)
  {
    match a
    case UiThread(ui) =>
      UiDirectory(s, ui);
      if ui.SurfaceChanged? {
        ChangedWf(s.sh, ui.id, ui.window, ui.config, ui.made);
      }
    case BinderThread(tid, call) => BinderDirectory(s, tid, call);
    case Callback(cid, completion) => CompletionDirectory(s, cid, completion);
    case Loop(ref, step) => assert SameDirectory(s.sh, LoopEffect(s, ref, step).sh);
    case Arrive(ref, event) => assert SameDirectory(s.sh, Apply(s, a).sh);
    case _ =>
  }

  // ---------- runs ----------

  ghost predicate IsRun(s: State, actions: seq<Action>)
    requires Wf(s.sh)
    decreases |actions|
  {
    actions == [] ||
    (Enabled(s, actions[0]) && (WfPreserved(s, actions[0]); IsRun(Apply(s, actions[0]), actions[1..])))
  }

  ghost function After(s: State, actions: seq<Action>): (t: State)
    requires Wf(s.sh) && IsRun(s, actions)
    ensures Wf(t.sh)
    decreases |actions|
  {
    if actions == [] then s else WfPreserved(s, actions[0]); After(Apply(s, actions[0]), actions[1..])
  }

  ghost predicate Reachable(s: State) {
    exists actions :: IsRun(INIT, actions) && After(INIT, actions) == s
  }

  lemma {:induction false} RunStep(s: State, actions: seq<Action>, t: State, a: Action)
    requires Wf(s.sh) && IsRun(s, actions) && After(s, actions) == t && Enabled(t, a)
    ensures IsRun(s, actions + [a]) && After(s, actions + [a]) == Apply(t, a)
    decreases |actions|
  {
    var longer := actions + [a];
    if actions == [] {
      assert longer == [a] && longer[1..] == [];
      WfPreserved(s, a);
    } else {
      WfPreserved(s, actions[0]);
      assert longer[0] == actions[0] && longer[1..] == actions[1..] + [a];
      RunStep(Apply(s, actions[0]), actions[1..], t, a);
    }
  }

  lemma ReachableStep(s: State, a: Action)
    requires Reachable(s) && Wf(s.sh) && Enabled(s, a)
    ensures Reachable(Apply(s, a)) && Wf(Apply(s, a).sh)
  {
    var actions :| IsRun(INIT, actions) && After(INIT, actions) == s;
    RunStep(INIT, actions, s, a);
    WfPreserved(s, a);
    assert IsRun(INIT, actions + [a]) && After(INIT, actions + [a]) == Apply(s, a);
  }
}
