/**
 Fences that outlive their display: a completion that stores its fence after the display was torn down leaves
 it open for good, and nothing else does.
 */
module ComposerFences {
  import opened Options
  import opened VsyncLoop
  import opened ComposerState
  import opened ComposerMachine
  import opened ComposerInvariants
  import opened ComposerFiles

  /** No teardown will close this object's fence any more: it is unmapped, or onDisplayDestroyed is past that point. */
  ghost predicate Past(s: State, r: Ref) {
    !IsMapped(s.sh, r) || ((s.ui.Disconnecting? || s.ui.Erasing?) && s.ui.ref == r)
  }

  /** Whether the last completion stored a fence when the object was past, and present has not fetched it since. */
  ghost function LateStep(s: State, a: Action, r: Ref, late: bool): bool
    requires Wf(s.sh) && Enabled(s, a)
  {
    match a
    case Callback(cid, Swap) =>
      if s.completions[cid].ref == r then Past(s, r) && s.completions[cid].copy >= 0 else late
    case BinderThread(_, Present(id)) => late && !(id in s.sh.displays && s.sh.displays[id] == r)
    case _ => late
  }

  ghost function LateAfter(s: State, actions: seq<Action>, r: Ref, late: bool): bool
    requires Wf(s.sh) && IsRun(s, actions)
    decreases |actions|
  {
    if actions == [] then late
    else
      WfPreserved(s, actions[0]);
      LateAfter(Apply(s, actions[0]), actions[1..], r, LateStep(s, actions[0], r, late))
  }

  /** Past its teardown an object holds a fence exactly if it came late; before, none is late. */
  ghost predicate LateOk(s: State, r: Ref, late: bool) {
    if r >= |s.sh.heap| || !Past(s, r) then !late else (s.sh.heap[r].fence >= 0 <==> late)
  }

  /** What the predicate looks at, for one object. */
  ghost predicate SameSlot(s: State, t: State, r: Ref) {
    && (r < |t.sh.heap| <==> r < |s.sh.heap|)
    && (r < |s.sh.heap| ==> t.sh.heap[r].fence == s.sh.heap[r].fence && (Past(t, r) <==> Past(s, r)))
  }

  lemma ChangeKeepsLate(s: State, a: UiAction, r: Ref, late: bool)
    requires Wf(s.sh) && UiEnabled(s, a) && a.SurfaceChanged? && LateOk(s, r, late) && Wf(UiEffect(s, a).sh)
    ensures LateOk(UiEffect(s, a), r, late)
  {
    var t := UiEffect(s, a);
    if r < |s.sh.heap| {
      assert t.sh.heap[r].fence == s.sh.heap[r].fence && t.sh.heap[r].id == s.sh.heap[r].id;
    }
  }

  lemma UiKeepsLate(s: State, a: UiAction, r: Ref, late: bool)
    requires Wf(s.sh) && TeardownInv(s) && UiEnabled(s, a) && LateOk(s, r, late) && Wf(UiEffect(s, a).sh)
    ensures LateOk(UiEffect(s, a), r, late)
  {
    if a.SurfaceChanged? {
      ChangeKeepsLate(s, a, r, late);
    }
  }

  lemma BinderKeepsLate(s: State, tid: nat, a: BinderAction, r: Ref, late: bool)
    requires Wf(s.sh) && BinderEnabled(s, tid, a) && LateOk(s, r, late)
    ensures LateOk(BinderEffect(s, tid, a), r, LateStep(s, BinderThread(tid, a), r, late))
  {
    var t := BinderEffect(s, tid, a);
    match a
    case Register(_) =>
      assert r < |s.sh.heap| ==> t.sh.heap[r] == Plug(s.sh, r);
      assert SameSlot(s, t, r);
    case Present(_) =>
    case Announce(_) => assert SameSlot(s, t, r);
    case RegisterReturn => assert SameSlot(s, t, r);
    case Fetch(_) => assert SameSlot(s, t, r);
    case _ =>
      BufferFrame(s, tid, a);
      assert SameSlot(s, t, r);
  }

  lemma CompletionKeepsLate(s: State, cid: nat, a: CompletionAction, r: Ref, late: bool)
    requires Wf(s.sh) && CompletionEnabled(s, cid, a) && LateOk(s, r, late)
    requires a.Swap? && s.completions[cid].ref == r ==> r < |s.sh.heap|
    ensures LateOk(CompletionEffect(s, cid, a), r, LateStep(s, Callback(cid, a), r, late))
  {}

  lemma VsyncKeepsLate(s: State, t: State, ref: Ref, v: Thread, r: Ref, late: bool)
    requires ref < |s.sh.heap| && LateOk(s, r, late)
    requires t.ui == s.ui && t.sh == Put(s.sh, ref, s.sh.heap[ref].(vsync := v))
    ensures LateOk(t, r, late)
  {
    assert SameSlot(s, t, r);
  }

  lemma OthersKeepLate(s: State, a: Action, r: Ref, late: bool)
    requires Wf(s.sh) && Enabled(s, a) && LateOk(s, r, late)
    requires a.Loop? || a.Arrive? || a.OutsideOpen? || a.OutsideClose?
    ensures LateOk(Apply(s, a), r, late)
  {
    if a.Loop? {
      VsyncKeepsLate(s, Apply(s, a), a.ref, Advance(s.sh.heap[a.ref].vsync, a.step), r, late);
    } else if a.Arrive? {
      var v := s.sh.heap[a.ref].vsync;
      VsyncKeepsLate(s, Apply(s, a), a.ref, v.(queue := v.queue + [a.event]), r, late);
    } else {
      assert SameSlot(s, Apply(s, a), r);
    }
  }

  lemma StepKeepsLate(s: State, a: Action, r: Ref, late: bool)
    requires Inv(s) && Enabled(s, a) && LateOk(s, r, late)
    ensures LateOk(Apply(s, a), r, LateStep(s, a, r, late))
  {
    match a
    case UiThread(ui) =>
      WfPreserved(s, a);
      UiKeepsLate(s, ui, r, late);
    case BinderThread(tid, call) => BinderKeepsLate(s, tid, call, r, late);
    case Callback(cid, completion) => CompletionKeepsLate(s, cid, completion, r, late);
    case _ => OthersKeepLate(s, a, r, late);
  }

  lemma {:induction false} RunKeepsLate(s: State, actions: seq<Action>, t: State, r: Ref, late: bool)
    requires Inv(s) && LateOk(s, r, late) && IsRun(s, actions) && After(s, actions) == t
    ensures LateOk(t, r, LateAfter(s, actions, r, late))
    decreases |actions|
  {
    if actions != [] {
      StepKeepsLate(s, actions[0], r, late);
      StepKeepsInv(s, actions[0]);
      RunKeepsLate(Apply(s, actions[0]), actions[1..], t, r, LateStep(s, actions[0], r, late));
    }
  }

  /** However calls interleave, an object that is not mapped any more holds a fence exactly if one came late. */
  lemma UnmappedFenceIsLate(actions: seq<Action>, s: State, r: Ref)
    requires IsRun(INIT, actions) && After(INIT, actions) == s && r < |s.sh.heap| && !IsMapped(s.sh, r)
    ensures s.sh.heap[r].fence >= 0 <==> LateAfter(INIT, actions, r, false)
  {
    RunKeepsLate(INIT, actions, s, r, false);
  }

  // ---------- at rest ----------

  /** No setBuffer and no completion is under way. */
  ghost predicate NothingHeld(s: State) {
    s.completions == map[] && forall tid :: tid in s.binders ==> s.binders[tid].Announcing?
  }

  ghost predicate HeldByMapped(s: State, fd: int)
    requires Wf(s.sh)
  {
    exists id :: id in s.sh.displays && s.sh.heap[s.sh.displays[id]].fence == fd
  }

  ghost predicate AllHeldByMapped(s: State)
    requires Wf(s.sh)
  {
    forall fd :: fd in s.sh.files.open && s.sh.files.open[fd] != Outside ==> HeldByMapped(s, fd)
  }

  ghost predicate NoneLate(actions: seq<Action>, s: State)
    requires IsRun(INIT, actions) && After(INIT, actions) == s
  {
    forall r: Ref :: r < |s.sh.heap| && !IsMapped(s.sh, r) ==> !LateAfter(INIT, actions, r, false)
  }

  lemma MappedHolds(actions: seq<Action>, s: State, fd: int)
    requires IsRun(INIT, actions) && After(INIT, actions) == s && !s.broken && NothingHeld(s) && NoneLate(actions, s)
    requires fd in s.sh.files.open && s.sh.files.open[fd] != Outside
    ensures HeldByMapped(s, fd)
  {
    assert Reachable(s);
    MisuseExactlyWhenBroken(s);
    IdleDescriptorsAreFences(s, fd);
    var ref: nat :| ref < |s.sh.heap| && s.sh.heap[ref].fence == fd;
    assert fd >= 0;
    if !IsMapped(s.sh, ref) {
      UnmappedFenceIsLate(actions, s, ref);
    }
    assert s.sh.displays[s.sh.heap[ref].id] == ref;
  }

  lemma OneHolder(files: Files, held: Holder -> int, h: Holder, g: Holder)
    requires Owned(files, held) && h != g && held(h) >= 0
    ensures held(h) != held(g)
  {}

  lemma LateIsStranded(actions: seq<Action>, s: State, r: Ref)
    requires IsRun(INIT, actions) && After(INIT, actions) == s && !s.broken && NothingHeld(s)
    requires r < |s.sh.heap| && !IsMapped(s.sh, r) && LateAfter(INIT, actions, r, false)
    ensures !AllHeldByMapped(s)
  {
    assert Reachable(s);
    MisuseExactlyWhenBroken(s);
    UnmappedFenceIsLate(actions, s, r);
    var fd := s.sh.heap[r].fence;
    assert Ledger(s)(Slot(r)) == fd;
    forall id | id in s.sh.displays ensures s.sh.heap[s.sh.displays[id]].fence != fd {
      var q := s.sh.displays[id];
      assert Ledger(s)(Slot(q)) == s.sh.heap[q].fence;
      OneHolder(s.sh.files, Ledger(s), Slot(r), Slot(q));
    }
  }

  /**
   Conservation to the end: with no call and no completion under way, every descriptor still held is the fence
   of a mapped display, where present or a teardown will find it, if and only if no completion came late.
   */
  lemma FencesReturnUnlessLate(actions: seq<Action>, s: State)
    requires IsRun(INIT, actions) && After(INIT, actions) == s && !s.broken && NothingHeld(s)
    ensures AllHeldByMapped(s) <==> NoneLate(actions, s)
  {
    if NoneLate(actions, s) {
      forall fd | fd in s.sh.files.open && s.sh.files.open[fd] != Outside ensures HeldByMapped(s, fd) {
        MappedHolds(actions, s, fd);
      }
    } else {
      var r: Ref :| r < |s.sh.heap| && !IsMapped(s.sh, r) && LateAfter(INIT, actions, r, false);
      LateIsStranded(actions, s, r);
    }
  }
}
