/** Shutdown of the vsync threads over whole runs of the composer. */
module ComposerVsync {
  import opened VsyncLoop
  import opened ComposerState
  import opened ComposerMachine
  import opened ComposerInvariants

  ghost predicate IsLoopOf(a: Action, ref: Ref) {
    a.Loop? && a.ref == ref
  }

  ghost predicate IsArrivalOf(a: Action, ref: Ref) {
    a.Arrive? && a.ref == ref
  }

  /** How often the thread of one display calls back during a run. */
  ghost function Calls(s: State, actions: seq<Action>, ref: Ref): nat
    requires Wf(s.sh) && IsRun(s, actions)
    decreases |actions|
  {
    if actions == [] then 0
    else
      var a := actions[0];
      WfPreserved(s, a);
      CallsIn(s, a, ref) + Calls(Apply(s, a), actions[1..], ref)
  }

  ghost function LoopSteps(actions: seq<Action>, ref: Ref): nat {
    if actions == [] then 0
    else (if IsLoopOf(actions[0], ref) then 1 else 0) + LoopSteps(actions[1..], ref)
  }

  ghost function Arrivals(actions: seq<Action>, ref: Ref): nat {
    if actions == [] then 0
    else (if IsArrivalOf(actions[0], ref) then 1 else 0) + Arrivals(actions[1..], ref)
  }

  // ---------- who moves a thread ----------

  ghost predicate SameThread(s: State, t: State, ref: Ref)
    requires ref < |s.sh.heap|
  {
    ref < |t.sh.heap| && t.sh.heap[ref].vsync == s.sh.heap[ref].vsync
  }

  lemma UiLeavesStopped(s: State, a: UiAction, ref: Ref)
    requires Wf(s.sh) && UiEnabled(s, a)
    requires ref < |s.sh.heap| && !s.sh.heap[ref].vsync.started
    ensures SameThread(s, UiEffect(s, a), ref)
  {}

  lemma BinderLeavesThread(s: State, tid: nat, a: BinderAction, ref: Ref)
    requires Wf(s.sh) && BinderEnabled(s, tid, a) && ref < |s.sh.heap|
    ensures SameThread(s, BinderEffect(s, tid, a), ref)
  {
    var t := BinderEffect(s, tid, a);
    match a
    case Register(sequenceId) => assert t.sh.heap[ref] == Plug(s.sh, ref);
    case Present(_) => assert Settled(t.sh.heap[ref]) == Settled(s.sh.heap[ref]);
    case Announce(_) => assert t.sh == s.sh;
    case RegisterReturn => assert t.sh == s.sh;
    case Fetch(_) => assert t.sh == s.sh;
    case _ => BufferFrame(s, tid, a);
  }

  lemma OthersLeaveStopped(s: State, a: Action, ref: Ref)
    requires Wf(s.sh) && Enabled(s, a)
    requires ref < |s.sh.heap| && !s.sh.heap[ref].vsync.started
    requires !IsLoopOf(a, ref) && !IsArrivalOf(a, ref)
    ensures SameThread(s, Apply(s, a), ref)
  {
    match a
    case UiThread(ui) => UiLeavesStopped(s, ui, ref);
    case BinderThread(tid, call) => BinderLeavesThread(s, tid, call, ref);
    case Callback(cid, completion) =>
      CompletionFrame(s, cid, completion);
      var t := Apply(s, a);
      assert Settled(t.sh.heap[ref]) == Settled(s.sh.heap[ref]);
    case _ =>
  }

  // ---------- the shutdown theorem ----------

  ghost function CallsIn(s: State, a: Action, ref: Ref): nat
    requires Enabled(s, a)
  {
    if IsLoopOf(a, ref) && Called(s.sh.heap[ref].vsync, a.step).Some? then 1 else 0
  }

  lemma StoppedThreadStep(s: State, a: Action, ref: Ref)
    requires Wf(s.sh) && Enabled(s, a)
    requires ref < |s.sh.heap| && !s.sh.heap[ref].vsync.started
    ensures var t := Apply(s, a);
            && ref < |t.sh.heap| && !t.sh.heap[ref].vsync.started
            && CallsIn(s, a, ref) + Credit(t.sh.heap[ref].vsync) <= Credit(s.sh.heap[ref].vsync)
            && (if IsLoopOf(a, ref) then 1 else 0) + Rank(t.sh.heap[ref].vsync)
               <= Rank(s.sh.heap[ref].vsync) + (if IsArrivalOf(a, ref) then 1 else 0)
  {
    if IsLoopOf(a, ref) {
      StoppedStep(s.sh.heap[ref].vsync, a.step);
    } else if !IsArrivalOf(a, ref) {
      OthersLeaveStopped(s, a, ref);
    }
  }

  /**
   From any state in which stop has cleared a thread's flag, however the run continues:
   the flag stays clear, the thread calls back at most once more (not at all once it is past its
   drain), and the number of its own steps is bounded by its rank plus the events that still arrive.
   */
  lemma {:induction false} StoppedThread(s: State, actions: seq<Action>, ref: Ref)
    requires Wf(s.sh) && IsRun(s, actions)
    requires ref < |s.sh.heap| && !s.sh.heap[ref].vsync.started
    ensures var t := After(s, actions);
            && ref < |t.sh.heap| && !t.sh.heap[ref].vsync.started
            && Calls(s, actions, ref) + Credit(t.sh.heap[ref].vsync) <= Credit(s.sh.heap[ref].vsync) <= 1
            && LoopSteps(actions, ref) + Rank(t.sh.heap[ref].vsync)
               <= Rank(s.sh.heap[ref].vsync) + Arrivals(actions, ref)
    decreases |actions|
  {
    if actions != [] {
      WfPreserved(s, actions[0]);
      StoppedThreadStep(s, actions[0], ref);
      StoppedThread(Apply(s, actions[0]), actions[1..], ref);
    }
  }

  /**
   Waiting for the thread under mLock cannot deadlock: while it runs it can take a step of its own, none
   of which needs mLock, and as soon as it has exited the UI thread can go on.
   */
  lemma JoinMakesProgress(s: State) returns (a: Action)
    requires Reachable(s) && s.ui.Joining?
    ensures Wf(s.sh) && Enabled(s, a)
    ensures s.ui.ref < |s.sh.heap| && !s.sh.heap[s.ui.ref].vsync.started
    ensures if s.sh.heap[s.ui.ref].vsync.pc.Exited? then a == UiThread(DestroyJoined) else IsLoopOf(a, s.ui.ref)
  {
    ReachableInv(s);
    var ref := s.ui.ref;
    if s.sh.heap[ref].vsync.pc.Exited? {
      a := UiThread(DestroyJoined);
    } else {
      var step := NeverBlocked(s.sh.heap[ref].vsync);
      a := Loop(ref, step);
    }
  }

  // ---------- silence after the display is gone ----------

  /** The display is destroyed, or onDisplayDestroyed is past its first critical section. */
  ghost predicate Gone(s: State, id: DisplayId) {
    id !in s.sh.displays || ((s.ui.Disconnecting? || s.ui.Erasing?) && s.ui.id == id)
  }

  ghost predicate Recreates(a: Action, id: DisplayId) {
    a.UiThread? && a.ui.SurfaceChanged? && a.ui.id == id
  }

  ghost predicate QuietExtension(before: seq<Event>, after: seq<Event>, id: DisplayId) {
    && |before| <= |after|
    && (forall i :: 0 <= i < |before| ==> after[i] == before[i])
    && forall i :: |before| <= i < |after| ==> !(after[i].Vsync? && after[i].id == id)
  }

  lemma UiSilent(s: State, a: UiAction, id: DisplayId)
    requires Inv(s) && UiEnabled(s, a) && Gone(s, id)
    requires a.SurfaceChanged? ==> a.id != id
    ensures Gone(UiEffect(s, a), id) && QuietExtension(s.trace, UiEffect(s, a).trace, id)
  {
    assert s.ui.Emitting? ==> Announces(s.ui.events[0]);
  }

  lemma BinderSilent(s: State, tid: nat, a: BinderAction, id: DisplayId)
    requires Inv(s) && BinderEnabled(s, tid, a) && Gone(s, id)
    ensures Gone(BinderEffect(s, tid, a), id) && QuietExtension(s.trace, BinderEffect(s, tid, a).trace, id)
  {
    match a
    case Register(_) =>
    case Announce(_) =>
    case RegisterReturn =>
    case Present(_) =>
    case Fetch(_) =>
    case _ => BufferFrame(s, tid, a);
  }

  lemma StepSilent(s: State, a: Action, id: DisplayId)
    requires Inv(s) && Enabled(s, a) && Gone(s, id) && !Recreates(a, id)
    ensures Gone(Apply(s, a), id) && QuietExtension(s.trace, Apply(s, a).trace, id)
  {
    match a
    case UiThread(ui) => UiSilent(s, ui, id);
    case BinderThread(tid, call) => BinderSilent(s, tid, call, id);
    case Callback(cid, completion) => CompletionFrame(s, cid, completion);
    case Loop(ref, step) => assert ThreadOk(s, ref);
    case _ =>
  }

  /** No vsync of a destroyed display is delivered until onSurfaceChanged recreates it. */
  lemma {:induction false} SilentAfterDestroy(s: State, actions: seq<Action>, id: DisplayId)
    requires Inv(s) && IsRun(s, actions) && Gone(s, id)
    requires forall a :: a in actions ==> !Recreates(a, id)
    ensures QuietExtension(s.trace, After(s, actions).trace, id)
    decreases |actions|
  {
    if actions != [] {
      StepSilent(s, actions[0], id);
      StepKeepsInv(s, actions[0]);
      SilentAfterDestroy(Apply(s, actions[0]), actions[1..], id);
    }
  }
}
