/**
 The hotplug events sent to all listeners together, in one merged trace, against the plugged flags (what a
 single listener is told is the subject of ComposerListeners). In every interleaving a plugged display is
 connected or about to be. The converse is the subject of ComposerStale.
 */
module ComposerHotplug {
  import opened Options
  import opened VsyncLoop
  import opened ComposerState
  import opened ComposerMachine
  import opened ComposerInvariants
  import opened ComposerTheorems

  /** Whether the last hotplug event for a display, to whatever listener, was a connect; None when there was none. */
  ghost function LastHotplug(trace: seq<Event>, id: DisplayId): Option<bool> {
    if trace == [] then None
    else
      var e := trace[|trace| - 1];
      if e.Hotplug? && e.id == id then Some(e.connected) else LastHotplug(trace[..|trace| - 1], id)
  }

  lemma LastHotplugEmit(trace: seq<Event>, e: Event, id: DisplayId)
    ensures LastHotplug(trace + [e], id)
         == if e.Hotplug? && e.id == id then Some(e.connected) else LastHotplug(trace, id)
  {}

  ghost predicate Connected(s: State, id: DisplayId) {
    LastHotplug(s.trace, id) == Some(true)
  }

  ghost predicate ConnectPending(s: State, id: DisplayId) {
    || (s.ui.Emitting? && s.ui.events != [] && s.ui.events[0].Hotplug? && s.ui.events[0].connected
        && s.ui.events[0].id == id)
    || exists tid :: AnnouncedBy(s, id, tid)
  }

  /** A plugged display has been connected, or its connect is still on its way. */
  ghost predicate PluggedIsAnnounced(s: State)
    requires Wf(s.sh)
  {
    forall id :: Plugged(s.sh, id) ==> Connected(s, id) || ConnectPending(s, id)
  }

  /** One of the actions of setBuffer. */
  predicate BufferCall(a: BinderAction) {
    a.BufferEnter? || a.BufferLookup? || a.BufferImport? || a.BufferCheck? || a.BufferApply?
  }

  lemma KeepsAnnounced(s: State, t: State, id: DisplayId)
    requires Wf(s.sh) && Wf(t.sh) && PluggedIsAnnounced(s) && Plugged(s.sh, id)
    requires t.trace == s.trace && t.ui == s.ui
    requires forall tid :: AnnouncedBy(s, id, tid) ==> AnnouncedBy(t, id, tid)
    ensures Connected(t, id) || ConnectPending(t, id)
  {}

  lemma UiAnnounces(s: State, a: UiAction)
    requires Wf(s.sh) && TeardownInv(s) && UiEnabled(s, a) && PluggedIsAnnounced(s) && Wf(UiEffect(s, a).sh)
    ensures PluggedIsAnnounced(UiEffect(s, a))
  {
    var t := UiEffect(s, a);
    forall id | Plugged(t.sh, id) ensures Connected(t, id) || ConnectPending(t, id) {
      assert a.SurfaceChanged? && id == a.id && !Plugged(s.sh, id) ==> ConnectPending(t, id);
      if Plugged(s.sh, id) {
        if tid :| AnnouncedBy(s, id, tid) {
          assert AnnouncedBy(t, id, tid);
        }
        if a.DestroyEmit? && s.sh.registered {
          LastHotplugEmit(s.trace, Hotplug(s.sh.sequenceId, s.ui.id, false, s.ui.id == 0), id);
        }
        if a.EmitNext? {
          assert Announces(s.ui.events[0]);
          LastHotplugEmit(s.trace, s.ui.events[0], id);
        }
      }
    }
  }

  lemma RegisterAnnounces(s: State, tid: nat, sequenceId: int)
    requires Wf(s.sh) && BinderEnabled(s, tid, Register(sequenceId)) && PluggedIsAnnounced(s)
    requires Wf(BinderEffect(s, tid, Register(sequenceId)).sh)
    ensures PluggedIsAnnounced(BinderEffect(s, tid, Register(sequenceId)))
  {
    var t := BinderEffect(s, tid, Register(sequenceId));
    forall id | Plugged(t.sh, id) ensures Connected(t, id) || ConnectPending(t, id) {
      assert t.sh.heap[t.sh.displays[id]] == Plug(s.sh, s.sh.displays[id]);
      if id in Windowed(s.sh) {
        assert AnnouncedBy(t, id, tid);
      } else {
        KeepsAnnounced(s, t, id);
      }
    }
  }

  lemma AnnounceAnnounces(s: State, tid: nat, announced: DisplayId)
    requires Wf(s.sh) && BinderEnabled(s, tid, Announce(announced)) && PluggedIsAnnounced(s)
    ensures PluggedIsAnnounced(BinderEffect(s, tid, Announce(announced)))
  {
    var t := BinderEffect(s, tid, Announce(announced));
    forall id | Plugged(t.sh, id) ensures Connected(t, id) || ConnectPending(t, id) {
      LastHotplugEmit(s.trace, Hotplug(s.sh.sequenceId, announced, true, announced == 0), id);
      if id != announced && !Connected(s, id) {
        if other :| AnnouncedBy(s, id, other) {
          assert AnnouncedBy(t, id, other);
        }
      }
    }
  }

  lemma BinderAnnounces(s: State, tid: nat, a: BinderAction)
    requires Wf(s.sh) && BinderEnabled(s, tid, a) && PluggedIsAnnounced(s) && Wf(BinderEffect(s, tid, a).sh)
    ensures PluggedIsAnnounced(BinderEffect(s, tid, a))
  {
    match a
    case Register(sequenceId) => RegisterAnnounces(s, tid, sequenceId);
    case Announce(announced) => AnnounceAnnounces(s, tid, announced);
    case _ =>
      if BufferCall(a) {
        BufferFrame(s, tid, a);
      }
      var t := BinderEffect(s, tid, a);
      forall id | Plugged(t.sh, id) ensures Connected(t, id) || ConnectPending(t, id) {
        KeepsAnnounced(s, t, id);
      }
  }

  lemma FencesKeepPlugged(sh: Shared, sh': Shared)
    requires Wf(sh) && Wf(sh') && SameButFences(sh, sh')
    ensures forall id :: Plugged(sh', id) <==> Plugged(sh, id)
  {
    forall id | id in sh.displays ensures Plugged(sh', id) <==> Plugged(sh, id) {
      assert Settled(sh'.heap[sh.displays[id]]) == Settled(sh.heap[sh.displays[id]]);
    }
  }

  /** What the hotplug predicates look at is as before. */
  ghost predicate SameForHotplug(s: State, t: State)
    requires Wf(s.sh) && Wf(t.sh)
  {
    && t.ui == s.ui && t.binders == s.binders && t.sh.registered == s.sh.registered
    && (forall id :: Plugged(t.sh, id) <==> Plugged(s.sh, id))
    && (forall id :: LastHotplug(t.trace, id) == LastHotplug(s.trace, id))
  }

  lemma CallbackIsQuiet(s: State, cid: nat, a: CompletionAction)
    requires Wf(s.sh) && CompletionEnabled(s, cid, a) && Wf(CompletionEffect(s, cid, a).sh)
    ensures SameForHotplug(s, CompletionEffect(s, cid, a))
  {
    CompletionFrame(s, cid, a);
    FencesKeepPlugged(s.sh, CompletionEffect(s, cid, a).sh);
  }

  lemma LoopIsQuiet(s: State, ref: Ref, step: Step)
    requires Wf(s.sh) && Enabled(s, Loop(ref, step)) && Wf(LoopEffect(s, ref, step).sh)
    ensures SameForHotplug(s, LoopEffect(s, ref, step))
  {
    var t := LoopEffect(s, ref, step);
    assert t.ui == s.ui && t.binders == s.binders && t.sh.registered == s.sh.registered;
    forall id ensures Plugged(t.sh, id) <==> Plugged(s.sh, id) {}
    forall id ensures LastHotplug(t.trace, id) == LastHotplug(s.trace, id) {
      if t.trace != s.trace {
        LastHotplugEmit(s.trace, t.trace[|s.trace|], id);
      }
    }
  }

  lemma OutsideIsQuiet(s: State, a: Action)
    requires Wf(s.sh) && Enabled(s, a) && Wf(Apply(s, a).sh)
    requires a.Arrive? || a.OutsideOpen? || a.OutsideClose?
    ensures SameForHotplug(s, Apply(s, a))
  {}

  lemma QuietAnnounces(s: State, t: State)
    requires Wf(s.sh) && Wf(t.sh) && PluggedIsAnnounced(s) && SameForHotplug(s, t)
    ensures PluggedIsAnnounced(t)
  {
    forall id | Plugged(t.sh, id) ensures Connected(t, id) || ConnectPending(t, id) {
      if tid :| AnnouncedBy(s, id, tid) {
        assert AnnouncedBy(t, id, tid);
      }
    }
  }

  lemma StepAnnounces(s: State, a: Action)
    requires Inv(s) && Enabled(s, a) && PluggedIsAnnounced(s)
    ensures Wf(Apply(s, a).sh) && PluggedIsAnnounced(Apply(s, a))
  {
    WfPreserved(s, a);
    match a
    case UiThread(ui) => UiAnnounces(s, ui);
    case BinderThread(tid, call) => BinderAnnounces(s, tid, call);
    case Callback(cid, completion) =>
      CallbackIsQuiet(s, cid, completion);
      QuietAnnounces(s, Apply(s, a));
    case Loop(ref, step) =>
      LoopIsQuiet(s, ref, step);
      QuietAnnounces(s, Apply(s, a));
    case _ =>
      OutsideIsQuiet(s, a);
      QuietAnnounces(s, Apply(s, a));
  }

  lemma {:induction false} RunAnnounces(s: State, actions: seq<Action>, t: State)
    requires Inv(s) && PluggedIsAnnounced(s) && IsRun(s, actions) && After(s, actions) == t
    ensures Wf(t.sh) && PluggedIsAnnounced(t)
    decreases |actions|
  {
    if actions != [] {
      StepAnnounces(s, actions[0]);
      StepKeepsInv(s, actions[0]);
      RunAnnounces(Apply(s, actions[0]), actions[1..], t);
    }
  }

  /** However calls interleave, a plugged display is connected in the merged trace or about to be. */
  lemma PluggedDisplaysAreConnected(s: State, id: DisplayId)
    requires Reachable(s) && Wf(s.sh) && Plugged(s.sh, id)
    ensures Connected(s, id) || ConnectPending(s, id)
  {
    var actions :| IsRun(INIT, actions) && After(INIT, actions) == s;
    RunAnnounces(INIT, actions, s);
  }
}
