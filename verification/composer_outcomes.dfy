/**
 What whole entry points come to, in terms of the stored fields: the labels of all events, what the callback
 hears of an onSurfaceChanged, what an undisturbed setBuffer applies, and what a destroyed surface leaves.
 */
module ComposerOutcomes {
  import opened Options
  import opened VsyncLoop
  import opened ComposerState
  import opened ComposerMachine
  import opened ComposerInvariants
  import opened ComposerFiles
  import opened ComposerTheorems
  import opened ComposerImpl

  // ---------- labels ----------

  /** The sequence id registered last, and the one that onSurfaceChanged found when it decided what to announce. */
  datatype Labels = Labels(current: Option<int>, decided: Option<int>)

  const UNLABELLED := Labels(None, None)

  function Relabel(a: Action, l: Labels): Labels {
    match a
    case BinderThread(_, Register(sequenceId)) => l.(current := Some(sequenceId))
    case UiThread(SurfaceChanged(_, _, _, _)) => l.(decided := l.current)
    case _ => l
  }

  function LabelsAfter(actions: seq<Action>): Labels {
    if actions == [] then UNLABELLED else Relabel(actions[|actions| - 1], LabelsAfter(actions[..|actions| - 1]))
  }

  predicate Labelled(e: Event, sequenceId: Option<int>) {
    Some(e.sequenceId) == sequenceId && (e.Hotplug? ==> (e.primary <==> e.id == 0))
  }

  ghost predicate LabelsOk(s: State, l: Labels) {
    && l.current == (if s.sh.registered then Some(s.sh.sequenceId) else None)
    && (s.ui.Emitting? ==> forall e :: e in s.ui.events ==> Labelled(e, l.decided))
    && (forall tid :: tid in s.binders && s.binders[tid].Announcing? ==> s.sh.registered)
  }

  /** What one action adds to the trace. */
  ghost predicate Adds(s: State, a: Action, t: State, l: Labels) {
    t.trace == s.trace
    || exists e :: t.trace == s.trace + [e] && Labelled(e, if a == UiThread(EmitNext) then l.decided else l.current)
  }

  lemma Added(s: State, a: Action, t: State, l: Labels, e: Event)
    requires t.trace == s.trace + [e] && Labelled(e, if a == UiThread(EmitNext) then l.decided else l.current)
    ensures Adds(s, a, t, l)
  {}

  lemma UiLabels(s: State, a: UiAction, l: Labels)
    requires Wf(s.sh) && TeardownInv(s) && UiEnabled(s, a) && LabelsOk(s, l)
    ensures LabelsOk(UiEffect(s, a), Relabel(UiThread(a), l)) && Adds(s, UiThread(a), UiEffect(s, a), l)
  {
    var t := UiEffect(s, a);
    if a.EmitNext? {
      Added(s, UiThread(a), t, l, s.ui.events[0]);
    } else if a.DestroyEmit? && s.sh.registered {
      Added(s, UiThread(a), t, l, Hotplug(s.sh.sequenceId, s.ui.id, false, s.ui.id == 0));
    }
  }

  lemma BinderLabels(s: State, tid: nat, a: BinderAction, l: Labels)
    requires Wf(s.sh) && BinderEnabled(s, tid, a) && LabelsOk(s, l)
    ensures LabelsOk(BinderEffect(s, tid, a), Relabel(BinderThread(tid, a), l))
    ensures Adds(s, BinderThread(tid, a), BinderEffect(s, tid, a), l)
  {
    var t := BinderEffect(s, tid, a);
    match a
    case Register(_) =>
    case Announce(id) =>
      Added(s, BinderThread(tid, a), t, l, Hotplug(s.sh.sequenceId, id, true, id == 0));
    case RegisterReturn =>
    case Present(_) =>
    case Fetch(_) =>
    case _ => BufferFrame(s, tid, a);
  }

  lemma StepLabels(s: State, a: Action, l: Labels)
    requires Inv(s) && Enabled(s, a) && LabelsOk(s, l)
    ensures LabelsOk(Apply(s, a), Relabel(a, l)) && Adds(s, a, Apply(s, a), l)
  {
    match a
    case UiThread(ui) => UiLabels(s, ui, l);
    case BinderThread(tid, call) => BinderLabels(s, tid, call, l);
    case Callback(cid, completion) => CompletionFrame(s, cid, completion);
    case Loop(ref, step) =>
      var t := Apply(s, a);
      if t.trace != s.trace {
        Added(s, a, t, l, t.trace[|s.trace|]);
      }
    case _ =>
  }

  lemma {:induction false} RunLabels(s: State, actions: seq<Action>, n: nat)
    requires n <= |actions| && Inv(s) && LabelsOk(s, LabelsAfter(actions[..n])) && IsRun(s, actions[n..])
    ensures LabelsOk(After(s, actions[n..]), LabelsAfter(actions))
    decreases |actions| - n
  {
    if n == |actions| {
      assert actions[..n] == actions;
    } else {
      var a := actions[n];
      assert actions[n..][0] == a && actions[n..][1..] == actions[n + 1..];
      assert actions[..n + 1][..n] == actions[..n];
      StepLabels(s, a, LabelsAfter(actions[..n]));
      StepKeepsInv(s, a);
      RunLabels(Apply(s, a), actions, n + 1);
    }
  }

  /**
   In every interleaving an action adds at most one event, which carries the sequence id registered last, or, if
   onSurfaceChanged sends it, the one registered last when it decided; hotplugs name display 0 as primary only.
   */
  lemma EventsAreLabelled(actions: seq<Action>, s: State, a: Action)
    requires IsRun(INIT, actions) && After(INIT, actions) == s && Wf(s.sh) && Enabled(s, a)
    ensures var l := LabelsAfter(actions);
            Apply(s, a).trace == s.trace
            || exists e :: Apply(s, a).trace == s.trace + [e]
                 && Some(e.sequenceId) == (if a == UiThread(EmitNext) then l.decided else l.current)
                 && (e.Hotplug? ==> (e.primary <==> e.id == 0))
  {
    assert actions[0..] == actions && LabelsAfter(actions[..0]) == UNLABELLED;
    RunKeepsInv(INIT, actions);
    RunLabels(INIT, actions, 0);
    StepLabels(s, a, LabelsAfter(actions));
  }

  // ---------- onSurfaceChanged ----------

  /** The UI thread sends what it has decided to announce, undisturbed. */
  ghost function EmitAll(s: State): State
    requires Wf(s.sh) && (s.ui.Emitting? ==> s.ui.events != [])
    decreases if s.ui.Emitting? then |s.ui.events| else 0
  {
    if s.ui.Emitting? then EmitAll(UiEffect(s, EmitNext)) else s
  }

  lemma EmitOne(s: State, e: Event)
    requires Wf(s.sh) && s.ui == Emitting([e])
    ensures EmitAll(s).trace == s.trace + [e] && EmitAll(s).sh == s.sh && EmitAll(s).ui.Idle?
  {}

  lemma EmitTwo(s: State, first: Event, second: Event)
    requires Wf(s.sh) && s.ui == Emitting([first, second])
    ensures EmitAll(s).trace == s.trace + [first, second] && EmitAll(s).sh == s.sh && EmitAll(s).ui.Idle?
  {
    var next := UiEffect(s, EmitNext);
    assert [first, second][1..] == [second];
    EmitOne(next, second);
    assert s.trace + [first] + [second] == s.trace + [first, second];
  }

  /**
   What the callback hears of one onSurfaceChanged: nothing without a callback; a connect and a refresh if the
   display is new or was not plugged; and for a plugged one a refresh if and only if width, height or period is
   not the stored one. Afterwards the display holds what it was given.
   */
  lemma SurfaceChangeIsHeard(s: State, id: DisplayId, window: Window, config: Config, made: Option<Control>)
    requires Wf(s.sh) && UiEnabled(s, SurfaceChanged(id, window, config, made))
    requires Wf(UiEffect(s, SurfaceChanged(id, window, config, made)).sh)
    ensures var t := EmitAll(UiEffect(s, SurfaceChanged(id, window, config, made)));
            var plugged := Plugged(s.sh, id);
            && t.ui.Idle? && Wf(t.sh)
            && (!s.sh.registered ==> t.trace == s.trace)
            && (s.sh.registered && !plugged ==>
                t.trace == s.trace + [Hotplug(s.sh.sequenceId, id, true, id == 0), Refresh(s.sh.sequenceId, id)])
            && (s.sh.registered && plugged ==>
                var was := s.sh.heap[s.sh.displays[id]].config;
                if was.width == config.width && was.height == config.height && was.vsyncPeriod == config.vsyncPeriod
                then t.trace == s.trace
                else t.trace == s.trace + [Refresh(s.sh.sequenceId, id)])
            && id in t.sh.displays
            && var d := t.sh.heap[t.sh.displays[id]];
               && d.surface && d.window == Some(window) && d.config == config
               && (d.plugged <==> plugged || s.sh.registered)
  {
    var t := UiEffect(s, SurfaceChanged(id, window, config, made));
    if s.sh.registered && !Plugged(s.sh, id) {
      EmitTwo(t, Hotplug(s.sh.sequenceId, id, true, id == 0), Refresh(s.sh.sequenceId, id));
    } else if t.ui.Emitting? {
      EmitOne(t, Refresh(s.sh.sequenceId, id));
    }
  }

  // ---------- setBuffer ----------

  /** setBuffer from the import on, with nobody in between. */
  ghost function Import(s: State, tid: nat, ok: bool): State
    requires Wf(s.sh) && Unlocked(s) && tid in s.binders && s.binders[tid].Found? && s.binders[tid].ref < |s.sh.heap|
  {
    var imported := ImportEffect(s, tid, ok);
    var checked := CheckEffect(imported, tid);
    if tid in checked.binders then ApplyEffect(checked, tid) else checked
  }

  /** The fence duplicated and the display looked up. */
  ghost function Enter(s: State, tid: nat, id: DisplayId, acquire: int): State
    requires Wf(s.sh) && Unlocked(s) && tid !in s.binders && Fresh(s.sh.files, acquire)
  {
    BinderEffect(BinderEffect(s, tid, BufferEnter(id, acquire)), tid, BufferLookup)
  }

  lemma EnterFinds(s: State, tid: nat, id: DisplayId, acquire: int)
    requires Wf(s.sh) && Unlocked(s) && tid !in s.binders && Fresh(s.sh.files, acquire)
    ensures var files := OpenFd(s.sh.files, Acquire(tid), acquire);
            Enter(s, tid, id, acquire) ==
            if id in s.sh.displays && s.sh.heap[s.sh.displays[id]].surface then
              WithFiles(s, files).(binders := s.binders[tid := Found(id, s.sh.displays[id], acquire)])
            else WithFiles(s, CloseFd(files, Acquire(tid), acquire))
  {
    var entered := BinderEffect(s, tid, BufferEnter(id, acquire));
    assert entered.binders - {tid} == s.binders;
    assert entered.binders[tid := Found(id, 0, acquire)] == s.binders[tid := Found(id, 0, acquire)];
  }

  /** The whole call, with nobody in between. */
  ghost function SetBuffer(s: State, tid: nat, id: DisplayId, acquire: int, ok: bool): State
    requires Wf(s.sh) && Unlocked(s) && tid !in s.binders && Fresh(s.sh.files, acquire)
  {
    var found := Enter(s, tid, id, acquire);
    EnterFinds(s, tid, id, acquire);
    if tid in found.binders then Import(found, tid, ok) else found
  }

  lemma ImportApplies(s: State, tid: nat, ok: bool)
    requires Wf(s.sh) && Unlocked(s) && tid in s.binders && s.binders[tid].Found?
    requires s.binders[tid].id in s.sh.displays && s.binders[tid].ref == s.sh.displays[s.binders[tid].id]
    ensures var t := Import(s, tid, ok);
            var b := s.binders[tid];
            var control := s.sh.heap[b.ref].control;
            && t.applied == s.applied
                 + (if control.Some? then [Transaction(b.id, b.ref, control.value)] else [])
            && t.binders == s.binders - {tid} && t.sh == s.sh.(files := t.sh.files)
            && t.sh.files == BufferFiles(s.sh.files, tid, b.acquire, true, ok, control)
            && t == s.(sh := t.sh, binders := t.binders, applied := t.applied, broken := t.broken)
            && (t.broken <==> s.broken || (!ok && b.acquire >= 0))
  {
    var imported := ImportEffect(s, tid, ok);
    var b := s.binders[tid];
    assert imported.binders == s.binders[tid := Imported(b.id, b.ref, b.acquire)];
    assert imported.sh.displays == s.sh.displays && imported.sh.heap == s.sh.heap;
    assert imported.binders - {tid} == s.binders - {tid};
    var checked := CheckEffect(imported, tid);
    if s.sh.heap[b.ref].control.Some? {
      assert checked.binders - {tid} == s.binders - {tid};
    }
  }

  /**
   An undisturbed setBuffer: a display with a surface and a control gets exactly one transaction, on that control
   and with that display as its context; every other call applies nothing. Descriptors end up as the object's
   method leaves them, and nothing else changes.
   */
  lemma SetBufferApplies(s: State, tid: nat, id: DisplayId, acquire: int, ok: bool)
    requires Wf(s.sh) && Unlocked(s) && tid !in s.binders && Fresh(s.sh.files, acquire)
    ensures var t := SetBuffer(s, tid, id, acquire, ok);
            var known := id in s.sh.displays && s.sh.heap[s.sh.displays[id]].surface;
            var target := if known then s.sh.heap[s.sh.displays[id]].control else None;
            && t.applied == s.applied
                 + (if target.Some? then [Transaction(id, s.sh.displays[id], target.value)] else [])
            && t.sh == s.sh.(files := BufferFiles(OpenFd(s.sh.files, Acquire(tid), acquire), tid, acquire,
                                                  known, ok, target))
            && t == s.(sh := t.sh, applied := t.applied, broken := t.broken)
            && (t.broken <==> s.broken || (known && !ok && acquire >= 0))
  {
    EnterFinds(s, tid, id, acquire);
    var found := Enter(s, tid, id, acquire);
    if tid in found.binders {
      ImportApplies(found, tid, ok);
      assert found.binders - {tid} == s.binders;
    }
  }

  // ---------- a destroyed surface ----------

  /** Nothing of the display's surface is left: its control is released, its fence closed, nothing else touched. */
  ghost predicate Emptied(sh: Shared, sh': Shared, ref: Ref)
    requires ref < |sh.heap|
  {
    var d := sh.heap[ref];
    && |sh'.heap| == |sh.heap|
    && (forall r :: 0 <= r < |sh.heap| && r != ref ==> sh'.heap[r] == sh.heap[r])
    && !sh'.heap[ref].surface && sh'.heap[ref].window == None && sh'.heap[ref].control == None
    && sh'.heap[ref].fence == -1 && sh'.heap[ref].config == d.config && sh'.heap[ref].id == d.id
    && !sh'.files.misuse && !sh'.controls.misuse
    && sh'.files.open == sh.files.open - {d.fence}
    && sh'.controls.live == (if d.control.Some? then sh.controls.live - {d.control.value} else sh.controls.live)
  }

  lemma SlotIsOwned(s: State, ref: Ref)
    requires Inv(s) && FilesInv(s) && ref < |s.sh.heap|
    ensures var fd := s.sh.heap[ref].fence;
            if fd >= 0 then fd in s.sh.files.open && s.sh.files.open[fd] == Slot(ref) else fd !in s.sh.files.open
    ensures !s.sh.files.misuse && !s.sh.controls.misuse
    ensures var c := s.sh.heap[ref].control;
            c.Some? ==> c.value in s.sh.controls.live && s.sh.controls.live[c.value].ref == ref
  {
    assert Ledger(s)(Slot(ref)) == s.sh.heap[ref].fence;
    assert HoldsControl(s.sh, ref);
  }

  /**
   onSurfaceDestroyed, unless a failed import has broken the descriptors before: the fence of the display is
   closed and its control released, both its own, while plug state, thread and all other displays stay.
   */
  lemma DestroyedSurfaceIsEmpty(s: State, id: DisplayId)
    requires Reachable(s) && !s.broken && UiEnabled(s, SurfaceDestroyed(id))
    ensures Wf(s.sh)
    ensures var t := UiEffect(s, SurfaceDestroyed(id));
            && t == s.(sh := t.sh) && t.sh.displays == s.sh.displays
            && (id !in s.sh.displays ==> t.sh == s.sh)
            && (id in s.sh.displays ==>
                var ref := s.sh.displays[id];
                && Emptied(s.sh, t.sh, ref)
                && t.sh.heap[ref].plugged == s.sh.heap[ref].plugged && t.sh.heap[ref].vsync == s.sh.heap[ref].vsync)
  {
    ReachableInv(s);
    MisuseExactlyWhenBroken(s);
    if id in s.sh.displays {
      SlotIsOwned(s, s.sh.displays[id]);
    }
  }

  /** An undisturbed onDisplayDestroyed leaves as little of the display, and unmaps it. */
  lemma DestroyedDisplayIsEmpty(s: State, id: DisplayId, queue: seq<ReceiverEvent>)
    requires Reachable(s) && !s.broken && UiEnabled(s, DestroyBegin(id))
    ensures Wf(s.sh)
    ensures var sh := Destroyed(s.sh, id, queue);
            var ref := s.sh.displays[id];
            && Emptied(s.sh, sh, ref) && sh.displays == s.sh.displays - {id}
            && !sh.heap[ref].plugged && sh.heap[ref].vsync == Thread(false, Exited, queue)
  {
    ReachableInv(s);
    MisuseExactlyWhenBroken(s);
    SlotIsOwned(s, s.sh.displays[id]);
  }
}
