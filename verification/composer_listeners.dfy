/**
 What the listener registered last has been told, as opposed to all listeners together: a plugged display is
 announced to it unless it was windowless at the moment of its registration, and exactly those are missed.
 */
module ComposerListeners {
  import opened Options
  import opened VsyncLoop
  import opened ComposerState
  import opened ComposerMachine
  import opened ComposerInvariants
  import opened ComposerTheorems
  import opened ComposerHotplug
  import opened ComposerStale

  /**
   The listener's view of one display. `told`: its last hotplug event was a connect. `missed`: the display was
   plugged but windowless when it registered, and no connect has followed. `own`: what onSurfaceChanged is
   emitting goes to this listener. `known` is the mode it fetched last; it `owes` a fetch after each connect
   or refresh.
   */
  datatype Listener = Listener(told: bool, missed: bool, own: bool, known: Option<Mode>, owes: bool)

  const NOBODY := Listener(false, false, false, None, false)

  ghost function BinderHeard(s: State, a: BinderAction, id: DisplayId, l: Listener): Listener
    requires Wf(s.sh)
  {
    match a
    case Register(_) => NOBODY.(missed := Plugged(s.sh, id) && id !in Windowed(s.sh))
    case Announce(announced) => if announced == id then l.(told := true, missed := false, owes := true) else l
    case Fetch(fetched) =>
      if fetched == id && id in s.sh.displays then
        l.(known := Some(ModeOf(s.sh.heap[s.sh.displays[id]].config)), owes := false)
      else l
    case _ => l
  }

  ghost function UiHeard(s: State, a: UiAction, id: DisplayId, l: Listener): Listener
    requires UiEnabled(s, a)
  {
    match a
    case SurfaceChanged(_, _, _, _) => l.(own := true)
    case EmitNext =>
      var e := s.ui.events[0];
      if !l.own || e.id != id then l
      else if e.Hotplug? then l.(told := true, missed := false, owes := true)
      else l.(owes := true)
    case DestroyEmit => if s.sh.registered && s.ui.id == id then l.(told := false) else l
    case _ => l
  }

  ghost function Heard(s: State, a: Action, id: DisplayId, l: Listener): Listener
    requires Wf(s.sh) && Enabled(s, a)
  {
    match a
    case UiThread(ui) => UiHeard(s, ui, id, l)
    case BinderThread(_, call) => BinderHeard(s, call, id, l)
    case _ => l
  }

  ghost function ListenerAfter(s: State, actions: seq<Action>, id: DisplayId, l: Listener): Listener
    requires Wf(s.sh) && IsRun(s, actions)
    decreases |actions|
  {
    if actions == [] then l
    else
      WfPreserved(s, actions[0]);
      ListenerAfter(Apply(s, actions[0]), actions[1..], id, Heard(s, actions[0], id, l))
  }

  // ---------- the invariant ----------

  ghost predicate Announced(s: State, id: DisplayId) {
    exists tid :: AnnouncedBy(s, id, tid)
  }

  ghost predicate EmitsNext(s: State, id: DisplayId) {
    s.ui.Emitting? && s.ui.events != [] && Announces(s.ui.events[0]) && s.ui.events[0].id == id
  }

  ghost predicate KnowsMode(s: State, id: DisplayId, l: Listener)
    requires Wf(s.sh)
  {
    id in s.sh.displays && l.known == Some(ModeOf(s.sh.heap[s.sh.displays[id]].config))
  }

  ghost predicate ListenerOk(s: State, id: DisplayId, l: Listener)
    requires Wf(s.sh)
  {
    && (l.missed ==> !l.told)
    && (Plugged(s.sh, id) ==> l.told || l.missed || (l.own && ConnectsNext(s, id)) || Announced(s, id))
    && (Plugged(s.sh, id) && l.told ==> KnowsMode(s, id, l) || l.owes || (l.own && EmitsNext(s, id)))
  }

  /** The display, what the UI thread emits and what is being announced are as before. */
  ghost predicate SameForListener(s: State, t: State, id: DisplayId)
    requires Wf(s.sh) && Wf(t.sh)
  {
    && t.ui == s.ui && (Announced(s, id) ==> Announced(t, id))
    && (Plugged(t.sh, id) ==> Plugged(s.sh, id))
    && (Plugged(t.sh, id) ==> t.sh.heap[t.sh.displays[id]].config == s.sh.heap[s.sh.displays[id]].config)
  }

  lemma ChangeKeepsListener(s: State, a: UiAction, id: DisplayId, l: Listener)
    requires Wf(s.sh) && UiEnabled(s, a) && a.SurfaceChanged? && ListenerOk(s, id, l)
    requires PlugInv(s.sh) && Wf(UiEffect(s, a).sh)
    ensures ListenerOk(UiEffect(s, a), id, UiHeard(s, a, id, l))
  {
    var t := UiEffect(s, a);
    KeepsAnnouncement(s, t, id);
    if id in s.sh.displays {
      assert PlugOk(s.sh, s.sh.displays[id]);
    }
    if id == a.id && Plugged(t.sh, id) {
      assert ChangedEvents(s.sh, id, a.config) == [] ==>
          Plugged(s.sh, id) && ModeOf(s.sh.heap[s.sh.displays[id]].config) == ModeOf(a.config);
    }
  }

  lemma EmissionKeepsListener(s: State, a: UiAction, id: DisplayId, l: Listener)
    requires Wf(s.sh) && TeardownInv(s) && EmittersOk(s) && UiEnabled(s, a) && ListenerOk(s, id, l)
    requires a.EmitNext? || a.DestroyEmit?
    ensures Wf(UiEffect(s, a).sh) && ListenerOk(UiEffect(s, a), id, UiHeard(s, a, id, l))
  {
    KeepsAnnouncement(s, UiEffect(s, a), id);
  }

  lemma UiKeepsListener(s: State, a: UiAction, id: DisplayId, l: Listener)
    requires Wf(s.sh) && TeardownInv(s) && EmittersOk(s) && UiEnabled(s, a) && ListenerOk(s, id, l)
    requires PlugInv(s.sh) && Wf(UiEffect(s, a).sh)
    ensures ListenerOk(UiEffect(s, a), id, UiHeard(s, a, id, l))
  {
    if a.SurfaceChanged? {
      ChangeKeepsListener(s, a, id, l);
    } else if a.EmitNext? || a.DestroyEmit? {
      EmissionKeepsListener(s, a, id, l);
    } else {
      KeepsAnnouncement(s, UiEffect(s, a), id);
    }
  }

  lemma RegisterKeepsListener(s: State, tid: nat, sequenceId: int, id: DisplayId, l: Listener)
    requires Wf(s.sh) && BinderEnabled(s, tid, Register(sequenceId)) && ListenerOk(s, id, l)
    requires Wf(BinderEffect(s, tid, Register(sequenceId)).sh)
    ensures ListenerOk(BinderEffect(s, tid, Register(sequenceId)), id, BinderHeard(s, Register(sequenceId), id, l))
  {
    var t := BinderEffect(s, tid, Register(sequenceId));
    if id in s.sh.displays {
      assert t.sh.heap[t.sh.displays[id]] == Plug(s.sh, s.sh.displays[id]);
      if id in Windowed(s.sh) {
        assert AnnouncedBy(t, id, tid);
      }
    }
  }

  lemma AnnounceKeepsListener(s: State, tid: nat, announced: DisplayId, id: DisplayId, l: Listener)
    requires Wf(s.sh) && BinderEnabled(s, tid, Announce(announced)) && ListenerOk(s, id, l)
    ensures ListenerOk(BinderEffect(s, tid, Announce(announced)), id, BinderHeard(s, Announce(announced), id, l))
  {
    var t := BinderEffect(s, tid, Announce(announced));
    if id != announced {
      if other :| AnnouncedBy(s, id, other) {
        assert AnnouncedBy(t, id, other);
      }
    }
  }

  lemma SameKeepsListener(s: State, t: State, id: DisplayId, l: Listener)
    requires Wf(s.sh) && Wf(t.sh) && ListenerOk(s, id, l) && SameForListener(s, t, id)
    ensures ListenerOk(t, id, l)
  {}

  lemma KeepsAnnouncement(s: State, t: State, id: DisplayId)
    requires forall tid :: AnnouncedBy(s, id, tid) ==> AnnouncedBy(t, id, tid)
    ensures Announced(s, id) ==> Announced(t, id)
  {
    if tid :| AnnouncedBy(s, id, tid) {
      assert AnnouncedBy(t, id, tid);
    }
  }

  lemma OtherCallsKeepListener(s: State, tid: nat, a: BinderAction, id: DisplayId, l: Listener)
    requires Wf(s.sh) && BinderEnabled(s, tid, a) && ListenerOk(s, id, l)
    requires !a.Register? && !a.Announce? && Wf(BinderEffect(s, tid, a).sh)
    ensures ListenerOk(BinderEffect(s, tid, a), id, BinderHeard(s, a, id, l))
  {
    var t := BinderEffect(s, tid, a);
    if BufferCall(a) {
      BufferFrame(s, tid, a);
    }
    KeepsAnnouncement(s, t, id);
    SameKeepsListener(s, t, id, l);
  }

  lemma BinderKeepsListener(s: State, tid: nat, a: BinderAction, id: DisplayId, l: Listener)
    requires Wf(s.sh) && BinderEnabled(s, tid, a) && ListenerOk(s, id, l) && Wf(BinderEffect(s, tid, a).sh)
    ensures ListenerOk(BinderEffect(s, tid, a), id, BinderHeard(s, a, id, l))
  {
    match a
    case Register(sequenceId) => RegisterKeepsListener(s, tid, sequenceId, id, l);
    case Announce(announced) => AnnounceKeepsListener(s, tid, announced, id, l);
    case _ => OtherCallsKeepListener(s, tid, a, id, l);
  }

  lemma CompletionKeepsListener(s: State, cid: nat, a: CompletionAction, id: DisplayId, l: Listener)
    requires Wf(s.sh) && CompletionEnabled(s, cid, a) && ListenerOk(s, id, l) && Wf(CompletionEffect(s, cid, a).sh)
    ensures ListenerOk(CompletionEffect(s, cid, a), id, l)
  {
    var t := CompletionEffect(s, cid, a);
    CompletionFrame(s, cid, a);
    if id in s.sh.displays {
      assert Settled(t.sh.heap[s.sh.displays[id]]) == Settled(s.sh.heap[s.sh.displays[id]]);
    }
    KeepsAnnouncement(s, t, id);
    SameKeepsListener(s, t, id, l);
  }

  lemma VsyncKeepsListener(s: State, t: State, ref: Ref, v: Thread, id: DisplayId, l: Listener)
    requires ref < |s.sh.heap| && Wf(s.sh) && Wf(t.sh) && ListenerOk(s, id, l)
    requires t.ui == s.ui && t.binders == s.binders && t.sh == Put(s.sh, ref, s.sh.heap[ref].(vsync := v))
    ensures ListenerOk(t, id, l)
  {
    KeepsAnnouncement(s, t, id);
    SameKeepsListener(s, t, id, l);
  }

  lemma OthersKeepListener(s: State, a: Action, id: DisplayId, l: Listener)
    requires Wf(s.sh) && Enabled(s, a) && ListenerOk(s, id, l) && Wf(Apply(s, a).sh)
    requires a.Loop? || a.Arrive? || a.OutsideOpen? || a.OutsideClose?
    ensures ListenerOk(Apply(s, a), id, l)
  {
    if a.Loop? {
      VsyncKeepsListener(s, Apply(s, a), a.ref, Advance(s.sh.heap[a.ref].vsync, a.step), id, l);
    } else if a.Arrive? {
      var v := s.sh.heap[a.ref].vsync;
      VsyncKeepsListener(s, Apply(s, a), a.ref, v.(queue := v.queue + [a.event]), id, l);
    } else {
      KeepsAnnouncement(s, Apply(s, a), id);
    }
  }

  lemma StepKeepsListener(s: State, a: Action, id: DisplayId, l: Listener)
    requires Inv(s) && EmittersOk(s) && Enabled(s, a) && ListenerOk(s, id, l)
    ensures Wf(Apply(s, a).sh) && ListenerOk(Apply(s, a), id, Heard(s, a, id, l))
  {
    WfPreserved(s, a);
    match a
    case UiThread(ui) => UiKeepsListener(s, ui, id, l);
    case BinderThread(tid, call) => BinderKeepsListener(s, tid, call, id, l);
    case Callback(cid, completion) => CompletionKeepsListener(s, cid, completion, id, l);
    case _ => OthersKeepListener(s, a, id, l);
  }

  lemma {:induction false} RunKeepsListener(
    s: State, actions: seq<Action>, t: State, id: DisplayId, l: Listener, stale: bool)
    requires Inv(s) && EmittersOk(s) && StaleOk(s, id, stale) && ListenerOk(s, id, l)
    requires IsRun(s, actions) && After(s, actions) == t
    ensures Wf(t.sh) && EmittersOk(t) && ListenerOk(t, id, ListenerAfter(s, actions, id, l))
    decreases |actions|
  {
    if actions != [] {
      var a := actions[0];
      StepKeepsListener(s, a, id, l);
      StepKeepsStale(s, a, id, stale);
      StepKeepsInv(s, a);
      RunKeepsListener(Apply(s, a), actions[1..], t, id, Heard(s, a, id, l), StaleStep(s, a, id, stale));
    }
  }

  // ---------- what it means ----------

  /**
   However calls interleave, the listener registered last has been told of a plugged display, is about to be
   told by onSurfaceChanged or registerCallback, or missed it.
   */
  lemma PluggedIsToldOrMissed(actions: seq<Action>, s: State, id: DisplayId)
    requires IsRun(INIT, actions) && After(INIT, actions) == s && Wf(s.sh) && Plugged(s.sh, id)
    ensures var l := ListenerAfter(INIT, actions, id, NOBODY);
            l.told || l.missed || (l.own && ConnectsNext(s, id)) || Announced(s, id)
  {
    RunKeepsListener(INIT, actions, s, id, NOBODY, false);
  }

  /** At rest it has been told of a plugged display exactly unless the display was windowless when it registered. */
  lemma ListenerIsToldUnlessMissed(actions: seq<Action>, s: State, id: DisplayId)
    requires IsRun(INIT, actions) && After(INIT, actions) == s && Wf(s.sh) && Plugged(s.sh, id)
    requires s.ui.Idle? && !AnnouncingNow(s)
    ensures var l := ListenerAfter(INIT, actions, id, NOBODY); l.told <==> !l.missed
  {
    RunKeepsListener(INIT, actions, s, id, NOBODY, false);
  }

  /** A refresh that reaches it is for a display it has been told of, is about to be told of, or missed. */
  lemma RefreshReachesToldListener(actions: seq<Action>, s: State)
    requires IsRun(INIT, actions) && After(INIT, actions) == s
    requires s.ui.Emitting? && s.ui.events != [] && s.ui.events[0].Refresh?
    ensures var l := ListenerAfter(INIT, actions, s.ui.events[0].id, NOBODY);
            l.told || l.missed || Announced(s, s.ui.events[0].id)
  {
    RunKeepsListener(INIT, actions, s, s.ui.events[0].id, NOBODY, false);
  }

  /** At rest, a listener that has answered what it heard knows width, height and period of what it was told of. */
  lemma ListenerIsCurrent(actions: seq<Action>, s: State, id: DisplayId)
    requires IsRun(INIT, actions) && After(INIT, actions) == s && Wf(s.sh) && Plugged(s.sh, id) && s.ui.Idle?
    requires var l := ListenerAfter(INIT, actions, id, NOBODY); l.told && !l.owes
    ensures var l := ListenerAfter(INIT, actions, id, NOBODY);
            l.known.Some? && Matches(l.known.value, s.sh.heap[s.sh.displays[id]].config)
  {
    RunKeepsListener(INIT, actions, s, id, NOBODY, false);
  }
}
