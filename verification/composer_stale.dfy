/**
 The converse of ComposerHotplug: at rest plugged flags and merged hotplug trace agree exactly unless
 registerCallback sent a connect for a display that was not plugged any more, a stale connect, which it
 never does when it overlaps no UI entry point.
 */
module ComposerStale {
  import opened Options
  import opened VsyncLoop
  import opened ComposerState
  import opened ComposerMachine
  import opened ComposerInvariants
  import opened ComposerTheorems
  import opened ComposerHotplug

  ghost predicate AnnouncingNow(s: State) {
    exists tid :: tid in s.binders && s.binders[tid].Announcing?
  }

  /** onSurfaceChanged emits a connect followed by a refresh, or a refresh alone, for one plugged display. */
  ghost predicate EmissionOk(s: State, events: seq<Event>)
    requires Wf(s.sh)
  {
    && 1 <= |events| <= 2
    && Plugged(s.sh, events[0].id)
    && (|events| == 2 ==>
          events[0].Hotplug? && events[0].connected && events[1].Refresh? && events[1].id == events[0].id)
    && (|events| == 1 ==> events[0].Refresh?)
  }

  ghost predicate EmittersOk(s: State)
    requires Wf(s.sh)
  {
    && (s.ui.Emitting? ==> s.sh.registered && EmissionOk(s, s.ui.events))
    && (AnnouncingNow(s) ==> s.sh.registered)
  }

  /**
   Whether the connect sent last for a display is stale: registerCallback sent it when the display
   was not plugged any more, and neither onSurfaceChanged nor onDisplayDestroyed has sent another event since.
   */
  ghost function StaleStep(s: State, a: Action, id: DisplayId, stale: bool): bool
    requires Wf(s.sh) && Enabled(s, a)
  {
    match a
    case BinderThread(_, Announce(announced)) => if announced == id then !Plugged(s.sh, id) else stale
    case UiThread(EmitNext) => stale && !(s.ui.events[0].Hotplug? && s.ui.events[0].id == id)
    case UiThread(DestroyEmit) => stale && !(s.sh.registered && s.ui.id == id)
    case _ => stale
  }

  ghost function StaleAfter(s: State, actions: seq<Action>, id: DisplayId, stale: bool): bool
    requires Wf(s.sh) && IsRun(s, actions)
    decreases |actions|
  {
    if actions == [] then stale
    else
      WfPreserved(s, actions[0]);
      StaleAfter(Apply(s, actions[0]), actions[1..], id, StaleStep(s, actions[0], id, stale))
  }

  ghost predicate ConnectsNext(s: State, id: DisplayId) {
    && s.ui.Emitting? && s.ui.events != []
    && s.ui.events[0].Hotplug? && s.ui.events[0].connected && s.ui.events[0].id == id
  }

  ghost predicate Disconnects(s: State, id: DisplayId) {
    (s.ui.Joining? || s.ui.Disconnecting?) && s.ui.id == id
  }

  /** A stale connect is of a display that is not plugged, or about to be connected properly; nothing else differs. */
  ghost predicate StaleOk(s: State, id: DisplayId, stale: bool)
    requires Wf(s.sh)
  {
    && (Connected(s, id) ==> s.sh.registered)
    && (stale ==> Connected(s, id) && (Plugged(s.sh, id) ==> ConnectsNext(s, id)))
    && (Connected(s, id) && !Plugged(s.sh, id) ==> stale || Disconnects(s, id))
  }

  /** Nothing these predicates look at has changed, except that more announcers may be gone. */
  lemma SameForStale(s: State, t: State, id: DisplayId, stale: bool)
    requires Wf(s.sh) && Wf(t.sh) && EmittersOk(s) && StaleOk(s, id, stale)
    requires t.ui == s.ui && t.sh.registered == s.sh.registered && LastHotplug(t.trace, id) == LastHotplug(s.trace, id)
    requires forall other :: Plugged(t.sh, other) <==> Plugged(s.sh, other)
    requires AnnouncingNow(t) ==> AnnouncingNow(s)
    ensures EmittersOk(t) && StaleOk(t, id, stale)
  {}

  lemma EmissionKeepsStale(s: State, a: UiAction, id: DisplayId, stale: bool)
    requires Wf(s.sh) && TeardownInv(s) && UiEnabled(s, a) && EmittersOk(s) && StaleOk(s, id, stale)
    requires a.DestroyEmit? || a.EmitNext?
    ensures Wf(UiEffect(s, a).sh)
    ensures EmittersOk(UiEffect(s, a)) && StaleOk(UiEffect(s, a), id, StaleStep(s, UiThread(a), id, stale))
  {
    if a.EmitNext? {
      LastHotplugEmit(s.trace, s.ui.events[0], id);
    } else if s.sh.registered {
      LastHotplugEmit(s.trace, Hotplug(s.sh.sequenceId, s.ui.id, false, s.ui.id == 0), id);
    }
  }

  lemma UiKeepsStale(s: State, a: UiAction, id: DisplayId, stale: bool)
    requires Wf(s.sh) && TeardownInv(s) && UiEnabled(s, a) && EmittersOk(s) && StaleOk(s, id, stale)
    requires Wf(UiEffect(s, a).sh)
    ensures EmittersOk(UiEffect(s, a)) && StaleOk(UiEffect(s, a), id, StaleStep(s, UiThread(a), id, stale))
  {
    if a.DestroyEmit? || a.EmitNext? {
      EmissionKeepsStale(s, a, id, stale);
    }
  }

  lemma RegisterKeepsStale(s: State, tid: nat, sequenceId: int, id: DisplayId, stale: bool)
    requires Inv(s) && BinderEnabled(s, tid, Register(sequenceId)) && EmittersOk(s) && StaleOk(s, id, stale)
    requires Wf(BinderEffect(s, tid, Register(sequenceId)).sh)
    ensures var t := BinderEffect(s, tid, Register(sequenceId)); EmittersOk(t) && StaleOk(t, id, stale)
  {
    var t := BinderEffect(s, tid, Register(sequenceId));
    forall other ensures Plugged(s.sh, other) ==> Plugged(t.sh, other) {
      assert other in t.sh.displays ==> t.sh.heap[t.sh.displays[other]] == Plug(s.sh, s.sh.displays[other]);
    }
    if id in s.sh.displays {
      assert PlugOk(s.sh, s.sh.displays[id]);
      assert t.sh.heap[t.sh.displays[id]] == Plug(s.sh, s.sh.displays[id]);
    }
  }

  lemma AnnounceKeepsStale(s: State, tid: nat, announced: DisplayId, id: DisplayId, stale: bool)
    requires Inv(s) && BinderEnabled(s, tid, Announce(announced)) && EmittersOk(s) && StaleOk(s, id, stale)
    ensures var t := BinderEffect(s, tid, Announce(announced));
            Wf(t.sh) && EmittersOk(t) && StaleOk(t, id, StaleStep(s, BinderThread(tid, Announce(announced)), id, stale))
  {
    LastHotplugEmit(s.trace, Hotplug(s.sh.sequenceId, announced, true, announced == 0), id);
    assert AnnouncingNow(s);
  }

  lemma OtherCallsKeepStale(s: State, tid: nat, a: BinderAction, id: DisplayId, stale: bool)
    requires Wf(s.sh) && BinderEnabled(s, tid, a) && EmittersOk(s) && StaleOk(s, id, stale)
    requires !a.Register? && !a.Announce? && Wf(BinderEffect(s, tid, a).sh)
    ensures EmittersOk(BinderEffect(s, tid, a)) && StaleOk(BinderEffect(s, tid, a), id, stale)
  {
    if BufferCall(a) {
      BufferFrame(s, tid, a);
    }
    SameForStale(s, BinderEffect(s, tid, a), id, stale);
  }

  lemma BinderKeepsStale(s: State, tid: nat, a: BinderAction, id: DisplayId, stale: bool)
    requires Inv(s) && BinderEnabled(s, tid, a) && EmittersOk(s) && StaleOk(s, id, stale)
    ensures Wf(BinderEffect(s, tid, a).sh) && EmittersOk(BinderEffect(s, tid, a))
    ensures StaleOk(BinderEffect(s, tid, a), id, StaleStep(s, BinderThread(tid, a), id, stale))
  {
    WfPreserved(s, BinderThread(tid, a));
    match a
    case Register(sequenceId) => RegisterKeepsStale(s, tid, sequenceId, id, stale);
    case Announce(announced) => AnnounceKeepsStale(s, tid, announced, id, stale);
    case _ => OtherCallsKeepStale(s, tid, a, id, stale);
  }

  lemma StepKeepsStale(s: State, a: Action, id: DisplayId, stale: bool)
    requires Inv(s) && Enabled(s, a) && EmittersOk(s) && StaleOk(s, id, stale)
    ensures Wf(Apply(s, a).sh) && EmittersOk(Apply(s, a))
    ensures StaleOk(Apply(s, a), id, StaleStep(s, a, id, stale))
  {
    WfPreserved(s, a);
    match a
    case UiThread(ui) => UiKeepsStale(s, ui, id, stale);
    case BinderThread(tid, call) => BinderKeepsStale(s, tid, call, id, stale);
    case Callback(cid, completion) =>
      CallbackIsQuiet(s, cid, completion);
      SameForStale(s, Apply(s, a), id, stale);
    case Loop(ref, step) =>
      LoopIsQuiet(s, ref, step);
      SameForStale(s, Apply(s, a), id, stale);
    case _ =>
      OutsideIsQuiet(s, a);
      SameForStale(s, Apply(s, a), id, stale);
  }

  lemma {:induction false} RunKeepsStale(s: State, actions: seq<Action>, t: State, id: DisplayId, stale: bool)
    requires Inv(s) && EmittersOk(s) && StaleOk(s, id, stale) && IsRun(s, actions) && After(s, actions) == t
    ensures Wf(t.sh) && EmittersOk(t) && StaleOk(t, id, StaleAfter(s, actions, id, stale))
    decreases |actions|
  {
    if actions != [] {
      StepKeepsStale(s, actions[0], id, stale);
      StepKeepsInv(s, actions[0]);
      RunKeepsStale(Apply(s, actions[0]), actions[1..], t, id, StaleStep(s, actions[0], id, stale));
    }
  }

  /**
   However calls interleave, whenever no UI entry point and no registerCallback is under way: a display is
   plugged exactly when its last hotplug event is a connect, if and only if that event is not a stale connect.
   */
  lemma HotplugMatchesUnlessStale(actions: seq<Action>, s: State, id: DisplayId)
    requires IsRun(INIT, actions) && After(INIT, actions) == s && s.ui.Idle? && !AnnouncingNow(s)
    ensures Wf(s.sh)
    ensures (Plugged(s.sh, id) <==> Connected(s, id)) <==> !StaleAfter(INIT, actions, id, false)
  {
    RunKeepsStale(INIT, actions, s, id, false);
    if Plugged(s.sh, id) {
      assert Reachable(s);
      PluggedDisplaysAreConnected(s, id);
    }
  }

  /** However calls interleave, a refresh of an unconnected display has the connect pending in registerCallback. */
  lemma RefreshFindsConnectPending(s: State)
    requires Reachable(s) && s.ui.Emitting? && s.ui.events != [] && s.ui.events[0].Refresh?
    ensures Connected(s, s.ui.events[0].id) || exists tid :: AnnouncedBy(s, s.ui.events[0].id, tid)
  {
    var actions :| IsRun(INIT, actions) && After(INIT, actions) == s;
    RunKeepsStale(INIT, actions, s, s.ui.events[0].id, false);
    PluggedDisplaysAreConnected(s, s.ui.events[0].id);
  }

  // ---------- when the entry points do not overlap ----------

  /** A UI entry point or registerCallback starts only when none of them is still running. */
  ghost predicate Apart(s: State, a: Action) {
    && (a.UiThread? && (a.ui.SurfaceChanged? || a.ui.SurfaceDestroyed? || a.ui.DestroyBegin?) ==> !AnnouncingNow(s))
    && (a.BinderThread? && a.call.Register? ==> s.ui.Idle? && !AnnouncingNow(s))
  }

  ghost predicate RunsApart(s: State, actions: seq<Action>)
    requires Wf(s.sh) && IsRun(s, actions)
    decreases |actions|
  {
    actions == [] ||
    (Apart(s, actions[0]) && (WfPreserved(s, actions[0]); RunsApart(Apply(s, actions[0]), actions[1..])))
  }

  ghost predicate RefreshesConnected(trace: seq<Event>) {
    forall i :: 0 <= i < |trace| && trace[i].Refresh? ==> LastHotplug(trace[..i], trace[i].id) == Some(true)
  }

  /** While a registerCallback announces no UI entry point runs, and what it still announces stays plugged. */
  ghost predicate AnnouncersOk(s: State)
    requires Wf(s.sh)
  {
    && (!s.ui.Idle? ==> !AnnouncingNow(s))
    && (forall tid, id :: AnnouncedBy(s, id, tid) ==> Plugged(s.sh, id))
  }

  lemma RefreshesEmit(trace: seq<Event>, e: Event)
    requires RefreshesConnected(trace)
    requires e.Refresh? ==> LastHotplug(trace, e.id) == Some(true)
    ensures RefreshesConnected(trace + [e])
  {
    var longer := trace + [e];
    forall i | 0 <= i < |longer| && longer[i].Refresh?
      ensures LastHotplug(longer[..i], longer[i].id) == Some(true)
    {
      if i < |trace| {
        assert longer[..i] == trace[..i];
      } else {
        assert longer[..i] == trace;
      }
    }
  }

  lemma BinderKeepsApart(s: State, tid: nat, a: BinderAction)
    requires Wf(s.sh) && BinderEnabled(s, tid, a) && AnnouncersOk(s) && Apart(s, BinderThread(tid, a))
    requires Wf(BinderEffect(s, tid, a).sh)
    ensures AnnouncersOk(BinderEffect(s, tid, a))
  {
    var t := BinderEffect(s, tid, a);
    if BufferCall(a) {
      BufferFrame(s, tid, a);
    }
    forall other, id | AnnouncedBy(t, id, other) ensures Plugged(t.sh, id) {
      if a.Register? {
        assert other == tid;
        assert t.sh.heap[t.sh.displays[id]] == Plug(s.sh, s.sh.displays[id]);
      } else {
        assert AnnouncedBy(s, id, other);
      }
    }
  }

  lemma QuietKeepsApart(s: State, t: State)
    requires Wf(s.sh) && Wf(t.sh) && AnnouncersOk(s) && SameForHotplug(s, t)
    ensures AnnouncersOk(t)
  {
    forall tid, id | AnnouncedBy(t, id, tid) ensures Plugged(t.sh, id) {
      assert AnnouncedBy(s, id, tid);
    }
  }

  lemma UiKeepsApart(s: State, a: UiAction)
    requires Wf(s.sh) && UiEnabled(s, a) && AnnouncersOk(s) && Apart(s, UiThread(a)) && Wf(UiEffect(s, a).sh)
    ensures AnnouncersOk(UiEffect(s, a))
  {
    assert UiEffect(s, a).binders == s.binders && !AnnouncingNow(s);
  }

  lemma StepKeepsApart(s: State, a: Action)
    requires Wf(s.sh) && Enabled(s, a) && AnnouncersOk(s) && Apart(s, a) && Wf(Apply(s, a).sh)
    ensures AnnouncersOk(Apply(s, a))
  {
    var t := Apply(s, a);
    match a
    case UiThread(ui) => UiKeepsApart(s, ui);
    case BinderThread(tid, call) => BinderKeepsApart(s, tid, call);
    case Callback(cid, completion) =>
      CallbackIsQuiet(s, cid, completion);
      QuietKeepsApart(s, t);
    case Loop(ref, step) =>
      LoopIsQuiet(s, ref, step);
      QuietKeepsApart(s, t);
    case _ =>
      OutsideIsQuiet(s, a);
      QuietKeepsApart(s, t);
  }

  /** Only the UI thread emits refreshes. */
  lemma OthersSendNoRefresh(s: State, a: Action)
    requires Wf(s.sh) && Enabled(s, a) && !a.UiThread? && RefreshesConnected(s.trace)
    ensures RefreshesConnected(Apply(s, a).trace)
  {
    if a.BinderThread? {
      if a.call.Announce? {
        RefreshesEmit(s.trace, Hotplug(s.sh.sequenceId, a.call.id, true, a.call.id == 0));
      } else if BufferCall(a.call) {
        BufferFrame(s, a.tid, a.call);
      }
    } else if a.Callback? {
      CompletionFrame(s, a.cid, a.completion);
    } else if a.Loop? && Apply(s, a).trace != s.trace {
      RefreshesEmit(s.trace, Apply(s, a).trace[|s.trace|]);
    }
  }

  /** When nobody announces, a refresh finds its display connected. */
  lemma StepKeepsRefreshes(s: State, a: Action)
    requires Inv(s) && Enabled(s, a) && AnnouncersOk(s) && EmittersOk(s) && PluggedIsAnnounced(s)
    requires RefreshesConnected(s.trace)
    ensures RefreshesConnected(Apply(s, a).trace)
  {
    if a == UiThread(EmitNext) {
      var e := s.ui.events[0];
      assert e.Refresh? ==> Connected(s, e.id) || ConnectPending(s, e.id);
      RefreshesEmit(s.trace, e);
    } else if a == UiThread(DestroyEmit) {
      RefreshesEmit(s.trace, Hotplug(s.sh.sequenceId, s.ui.id, false, s.ui.id == 0));
    } else if !a.UiThread? {
      OthersSendNoRefresh(s, a);
    }
  }

  lemma {:induction false} ApartRun(s: State, actions: seq<Action>, t: State, id: DisplayId)
    requires Inv(s) && AnnouncersOk(s) && EmittersOk(s) && PluggedIsAnnounced(s) && StaleOk(s, id, false)
    requires RefreshesConnected(s.trace) && IsRun(s, actions) && RunsApart(s, actions) && After(s, actions) == t
    ensures Wf(t.sh) && RefreshesConnected(t.trace) && !StaleAfter(s, actions, id, false)
    decreases |actions|
  {
    if actions != [] {
      var a := actions[0];
      StepKeepsStale(s, a, id, false);
      StepKeepsApart(s, a);
      StepKeepsRefreshes(s, a);
      StepAnnounces(s, a);
      StepKeepsInv(s, a);
      if a.BinderThread? && a.call.Announce? {
        assert AnnouncedBy(s, a.call.id, a.tid);
      }
      ApartRun(Apply(s, a), actions[1..], t, id);
    }
  }

  /**
   In a run in which registerCallback and the UI entry points do not overlap, with setBuffer, present,
   completions and vsync threads interleaved freely, no connect is ever stale: at rest a display is plugged
   exactly when its last hotplug event is a connect; and every refresh went to a connected display.
   */
  lemma HotplugTraceMatchesState(actions: seq<Action>, s: State, id: DisplayId)
    requires IsRun(INIT, actions) && RunsApart(INIT, actions) && After(INIT, actions) == s
    ensures Wf(s.sh) && RefreshesConnected(s.trace)
    ensures s.ui.Idle? && !AnnouncingNow(s) ==> (Plugged(s.sh, id) <==> Connected(s, id))
  {
    ApartRun(INIT, actions, s, id);
    if s.ui.Idle? && !AnnouncingNow(s) {
      HotplugMatchesUnlessStale(actions, s, id);
    }
  }
}
