/**
 What every action of the composer keeps, whatever the interleaving: teardown targets one entry,
 vsync threads belong to mapped displays, surface controls match windows, plugged displays are
 announced, and an observer of the callback stays up to date.
 */
module ComposerInvariants {
  import opened Options
  import opened VsyncLoop
  import opened ComposerState
  import opened ComposerMachine

  // ---------- the invariants ----------

  /** The entry that onDisplayDestroyed is working on is still the one it started with, and is dead. */
  ghost predicate TornDown(sh: Shared, id: DisplayId, ref: Ref) {
    && id in sh.displays && sh.displays[id] == ref && ref < |sh.heap|
    && var d := sh.heap[ref];
       !d.surface && d.window.None? && d.control.None? && !d.plugged && !d.vsync.started
  }

  ghost predicate TeardownInv(s: State) {
    match s.ui
    case Idle => true
    case Emitting(events) => events != [] && forall e :: e in events ==> Announces(e)
    case Joining(id, ref) => TornDown(s.sh, id, ref)
    case Disconnecting(id, ref) => TornDown(s.sh, id, ref) && s.sh.heap[ref].vsync.pc.Exited?
    case Erasing(id, ref) => TornDown(s.sh, id, ref) && s.sh.heap[ref].vsync.pc.Exited?
  }

  /** A thread that may still run belongs to a mapped display; it is stopped only while being joined. */
  ghost predicate ThreadOk(s: State, r: Ref)
    requires r < |s.sh.heap|
  {
    var d := s.sh.heap[r];
    && (d.vsync.started ==> !d.vsync.pc.Exited?)
    && (!d.vsync.pc.Exited? ==> IsMapped(s.sh, r) && (d.vsync.started || s.ui == Joining(d.id, r)))
  }

  ghost predicate ThreadInv(s: State) {
    forall r :: 0 <= r < |s.sh.heap| ==> ThreadOk(s, r)
  }

  /** A stored control is live, held here, and made from the window stored next to it. */
  ghost predicate HoldsControl(sh: Shared, r: Ref)
    requires r < |sh.heap|
  {
    var d := sh.heap[r];
    && (d.surface <==> d.window.Some?)
    && (d.window.Some? ==> IsMapped(sh, r))
    && (d.control.Some? ==>
        d.window.Some? && d.control.value in sh.controls.live
        && sh.controls.live[d.control.value] == Owner(r, d.window.value))
  }

  ghost predicate ControlInv(sh: Shared) {
    && !sh.controls.misuse
    && (forall r :: 0 <= r < |sh.heap| ==> HoldsControl(sh, r))
    && (forall c :: c in sh.controls.live ==>
          sh.controls.live[c].ref < |sh.heap| && sh.heap[sh.controls.live[c].ref].control == Some(c))
  }

  ghost predicate PlugOk(sh: Shared, r: Ref)
    requires r < |sh.heap|
  {
    && (sh.heap[r].plugged ==> sh.registered && IsMapped(sh, r))
    && (sh.heap[r].window.Some? && sh.registered ==> sh.heap[r].plugged)
  }

  ghost predicate PlugInv(sh: Shared) {
    forall r :: 0 <= r < |sh.heap| ==> PlugOk(sh, r)
  }

  predicate Announces(e: Event) {
    e.Refresh? || (e.Hotplug? && e.connected)
  }

  ghost predicate AnnouncedBy(s: State, id: DisplayId, tid: nat) {
    tid in s.binders && s.binders[tid].Announcing? && id in s.binders[tid].ids
  }

  /** A connect or refresh for the display is still on its way to the observer, or unanswered by it. */
  ghost predicate Pending(s: State, id: DisplayId) {
    || id in s.due
    || (s.ui.Emitting? && s.ui.events != [] && Announces(s.ui.events[0]) && s.ui.events[0].id == id)
    || exists tid :: AnnouncedBy(s, id, tid)
  }

  ghost predicate UpToDate(s: State, id: DisplayId)
    requires Wf(s.sh) && id in s.sh.displays
  {
    id in s.seen && s.seen[id] == ModeOf(s.sh.heap[s.sh.displays[id]].config)
  }

  ghost predicate CoherenceInv(s: State)
    requires Wf(s.sh)
  {
    forall id :: id in s.sh.displays && s.sh.heap[s.sh.displays[id]].plugged ==>
      UpToDate(s, id) || Pending(s, id)
  }

  /** Objects mentioned by threads exist, so no step is lost to a dangling reference. */
  ghost predicate RefInv(s: State) {
    && (forall tid :: tid in s.binders ==> RefOk(s.sh, s.binders[tid]))
    && (forall cid :: cid in s.completions ==>
          (s.completions[cid].GotStats? ==> s.completions[cid].ref < |s.sh.heap|)
          && (s.completions[cid].Duplicated? ==> s.completions[cid].ref < |s.sh.heap|)
          && (s.completions[cid].Storing? ==> s.completions[cid].ref < |s.sh.heap|))
    && (forall t :: t in s.applied ==> t.ref < |s.sh.heap|)
  }

  ghost predicate Inv(s: State) {
    && Wf(s.sh)
    && TeardownInv(s)
    && ThreadInv(s)
    && ControlInv(s.sh)
    && PlugInv(s.sh)
    && CoherenceInv(s)
    && RefInv(s)
  }

  // ---------- frames ----------

  /** The display as its owner sees it: all but the fence slot. */
  function Settled(d: Display): Display {
    d.(fence := -1)
  }

  /** Only fence slots and the descriptor table differ. */
  ghost predicate SameButFences(sh: Shared, sh': Shared) {
    && sh'.registered == sh.registered && sh'.displays == sh.displays && sh'.controls == sh.controls
    && |sh'.heap| == |sh.heap|
    && forall r :: 0 <= r < |sh.heap| ==> Settled(sh'.heap[r]) == Settled(sh.heap[r])
  }

  /** What the steps of setBuffer may change: descriptors, the caller's own locals, the transactions. */
  ghost predicate BufferStep(s: State, t: State, tid: nat) {
    && t.sh == s.sh.(files := t.sh.files)
    && t == s.(sh := t.sh, binders := t.binders, applied := t.applied, broken := t.broken)
    && (t.binders == s.binders - {tid}
        || (tid in t.binders && !t.binders[tid].Announcing? && t.binders == s.binders[tid := t.binders[tid]]))
  }

  ghost predicate RefOk(sh: Shared, b: Binder) {
    (b.Found? ==> b.ref < |sh.heap|) && (b.Imported? ==> b.ref < |sh.heap|)
  }

  lemma BufferFrame(s: State, tid: nat, a: BinderAction)
    requires Wf(s.sh) && BinderEnabled(s, tid, a)
    requires a.BufferEnter? || a.BufferLookup? || a.BufferImport? || a.BufferCheck? || a.BufferApply?
    ensures var t := BinderEffect(s, tid, a); BufferStep(s, t, tid)
  {
    match a
    case BufferEnter(_, _) =>
    case BufferLookup => assert BufferStep(s, LookupEffect(s, tid), tid);
    case BufferImport(ok) => assert BufferStep(s, ImportEffect(s, tid, ok), tid);
    case BufferCheck => assert BufferStep(s, CheckEffect(s, tid), tid);
    case BufferApply => assert BufferStep(s, ApplyEffect(s, tid), tid);
    case _ =>
  }

  lemma BufferRefs(s: State, tid: nat, a: BinderAction)
    requires Wf(s.sh) && BinderEnabled(s, tid, a) && (tid in s.binders ==> RefOk(s.sh, s.binders[tid]))
    requires a.BufferEnter? || a.BufferLookup? || a.BufferImport? || a.BufferCheck? || a.BufferApply?
    ensures var t := BinderEffect(s, tid, a);
            && (tid in t.binders ==> RefOk(s.sh, t.binders[tid]))
            && (t.applied == s.applied
                || exists x: Transaction :: x.ref < |s.sh.heap| && t.applied == s.applied + [x])
  {
    match a
    case BufferApply =>
      var target := TransactionTarget(s.sh, s.binders[tid].id);
      if target.Some? {
        var x := Transaction(s.binders[tid].id, s.sh.displays[s.binders[tid].id], target.value);
        assert x.ref < |s.sh.heap| && ApplyEffect(s, tid).applied == s.applied + [x];
      }
    case BufferEnter(_, _) =>
    case BufferLookup =>
    case BufferImport(_) =>
    case BufferCheck =>
    case _ =>
  }

  lemma CompletionFrame(s: State, cid: nat, a: CompletionAction)
    requires CompletionEnabled(s, cid, a)
    ensures var t := CompletionEffect(s, cid, a);
            SameButFences(s.sh, t.sh) && t == s.(sh := t.sh, completions := t.completions)
  {}

  lemma FencesKeepWf(sh: Shared, sh': Shared)
    requires Wf(sh) && SameButFences(sh, sh')
    ensures Wf(sh')
  {}

  /** Nothing but the reference invariant looks at fences, descriptors, completions or transactions. */
  lemma FencesKeepInv(s: State, t: State)
    requires Inv(s) && SameButFences(s.sh, t.sh)
    requires t.ui == s.ui && t.seen == s.seen && t.due == s.due
    requires forall id, tid :: AnnouncedBy(s, id, tid) ==> AnnouncedBy(t, id, tid)
    ensures Wf(t.sh) && TeardownInv(t) && ThreadInv(t) && ControlInv(t.sh) && PlugInv(t.sh) && CoherenceInv(t)
  {
    FencesKeepWf(s.sh, t.sh);
    forall r | 0 <= r < |s.sh.heap|
      ensures ThreadOk(t, r) && HoldsControl(t.sh, r) && PlugOk(t.sh, r)
    {
      assert ThreadOk(s, r) && HoldsControl(s.sh, r) && PlugOk(s.sh, r);
      assert Settled(t.sh.heap[r]) == Settled(s.sh.heap[r]);
    }
    forall c | c in t.sh.controls.live
      ensures t.sh.controls.live[c].ref < |t.sh.heap| && t.sh.heap[t.sh.controls.live[c].ref].control == Some(c)
    {
      var r := s.sh.controls.live[c].ref;
      assert Settled(t.sh.heap[r]) == Settled(s.sh.heap[r]);
    }
    FencesKeepTeardown(s, t);
    FencesKeepCoherence(s, t);
  }

  lemma FencesKeepTeardown(s: State, t: State)
    requires Wf(s.sh) && TeardownInv(s) && SameButFences(s.sh, t.sh) && t.ui == s.ui
    ensures TeardownInv(t)
  {}

  lemma FencesKeepCoherence(s: State, t: State)
    requires Wf(s.sh) && Wf(t.sh) && CoherenceInv(s) && SameButFences(s.sh, t.sh)
    requires t.ui == s.ui && t.seen == s.seen && t.due == s.due
    requires forall id, tid :: AnnouncedBy(s, id, tid) ==> AnnouncedBy(t, id, tid)
    ensures CoherenceInv(t)
  {}

  // ---------- binder threads ----------

  lemma BufferKeepsInv(s: State, tid: nat, a: BinderAction)
    requires Inv(s) && BinderEnabled(s, tid, a)
    requires a.BufferEnter? || a.BufferLookup? || a.BufferImport? || a.BufferCheck? || a.BufferApply?
    ensures Inv(BinderEffect(s, tid, a))
  {
    var t := BinderEffect(s, tid, a);
    BufferFrame(s, tid, a);
    forall id, other | AnnouncedBy(s, id, other) ensures AnnouncedBy(t, id, other) {
      assert other != tid;
    }
    FencesKeepInv(s, t);
    BufferRefs(s, tid, a);
    BufferKeepsRefs(s, tid, a, t);
  }

  lemma BufferKeepsRefs(s: State, tid: nat, a: BinderAction, t: State)
    requires RefInv(s) && BufferStep(s, t, tid)
    requires tid in t.binders ==> RefOk(s.sh, t.binders[tid])
    requires t.applied == s.applied
          || exists x: Transaction :: x.ref < |s.sh.heap| && t.applied == s.applied + [x]
    ensures RefInv(t)
  {}

  lemma PresentKeepsInv(s: State, tid: nat, id: DisplayId)
    requires Inv(s) && BinderEnabled(s, tid, Present(id))
    ensures Inv(BinderEffect(s, tid, Present(id)))
  {
    var t := BinderEffect(s, tid, Present(id));
    assert SameButFences(s.sh, t.sh);
    FencesKeepInv(s, t);
  }

  /** Actions that leave the shared state alone and only move announcements along. */
  lemma MessagesKeepInv(s: State, tid: nat, a: BinderAction)
    requires Inv(s) && BinderEnabled(s, tid, a)
    requires a.Announce? || a.RegisterReturn? || a.Fetch?
    ensures Inv(BinderEffect(s, tid, a))
  {
    var t := BinderEffect(s, tid, a);
    assert t.sh == s.sh && t.ui == s.ui;
    forall r | 0 <= r < |t.sh.heap| ensures ThreadOk(t, r) {
      assert ThreadOk(s, r);
    }
    forall id | id in t.sh.displays && t.sh.heap[t.sh.displays[id]].plugged
      ensures UpToDate(t, id) || Pending(t, id)
    {
      assert UpToDate(s, id) || Pending(s, id);
      if other :| AnnouncedBy(s, id, other) {
        assert AnnouncedBy(t, id, other) || id in t.due;
      }
    }
  }

  lemma RegisterKeepsInv(s: State, tid: nat, sequenceId: int)
    requires Inv(s) && BinderEnabled(s, tid, Register(sequenceId))
    ensures Inv(BinderEffect(s, tid, Register(sequenceId)))
  {
    var t := BinderEffect(s, tid, Register(sequenceId));
    BinderDirectory(s, tid, Register(sequenceId));
    SameDirectoryWf(s.sh, t.sh);
    forall r | 0 <= r < |t.sh.heap|
      ensures t.sh.heap[r] == Plug(s.sh, r) && ThreadOk(t, r) && HoldsControl(t.sh, r) && PlugOk(t.sh, r)
    {
      assert ThreadOk(s, r) && HoldsControl(s.sh, r) && PlugOk(s.sh, r);
    }
    RegisterKeepsCoherence(s, tid, sequenceId);
  }

  lemma RegisterKeepsCoherence(s: State, tid: nat, sequenceId: int)
    requires Inv(s) && BinderEnabled(s, tid, Register(sequenceId))
    requires Wf(BinderEffect(s, tid, Register(sequenceId)).sh)
    ensures CoherenceInv(BinderEffect(s, tid, Register(sequenceId)))
  {
    var t := BinderEffect(s, tid, Register(sequenceId));
    forall id | id in t.sh.displays && t.sh.heap[t.sh.displays[id]].plugged
      ensures UpToDate(t, id) || Pending(t, id)
    {
      assert t.sh.heap[t.sh.displays[id]] == Plug(s.sh, s.sh.displays[id]);
      if id in Windowed(s.sh) {
        assert AnnouncedBy(t, id, tid);
      } else {
        assert UpToDate(s, id) || Pending(s, id);
        if other :| AnnouncedBy(s, id, other) {
          assert AnnouncedBy(t, id, other);
        }
      }
    }
  }

  lemma BinderKeepsInv(s: State, tid: nat, a: BinderAction)
    requires Inv(s) && BinderEnabled(s, tid, a)
    ensures Inv(BinderEffect(s, tid, a))
  {
    match a
    case Register(sequenceId) => RegisterKeepsInv(s, tid, sequenceId);
    case Present(id) => PresentKeepsInv(s, tid, id);
    case Announce(_) => MessagesKeepInv(s, tid, a);
    case RegisterReturn => MessagesKeepInv(s, tid, a);
    case Fetch(_) => MessagesKeepInv(s, tid, a);
    case _ => BufferKeepsInv(s, tid, a);
  }

  lemma CompletionKeepsInv(s: State, cid: nat, a: CompletionAction)
    requires Inv(s) && CompletionEnabled(s, cid, a)
    ensures Inv(CompletionEffect(s, cid, a))
  {
    var t := CompletionEffect(s, cid, a);
    CompletionFrame(s, cid, a);
    forall id, tid | AnnouncedBy(s, id, tid) ensures AnnouncedBy(t, id, tid) {}
    FencesKeepInv(s, t);
  }

  // ---------- vsync threads ----------

  /** Only the thread of one display moves, and it is not started anew. */
  ghost predicate ThreadMoved(s: State, t: State, ref: Ref, v: Thread)
  {
    && ref < |s.sh.heap|
    && t.sh == Put(s.sh, ref, s.sh.heap[ref].(vsync := v))
    && t == s.(sh := t.sh, trace := t.trace)
    && v.started == s.sh.heap[ref].vsync.started
    && (v.pc.Exited? ==> s.sh.heap[ref].vsync.pc.Exited? || !v.started)
    && (s.sh.heap[ref].vsync.pc.Exited? ==> v.pc.Exited?)
  }

  lemma ThreadMoveKeepsInv(s: State, t: State, ref: Ref, v: Thread)
    requires Inv(s) && ThreadMoved(s, t, ref, v)
    ensures Inv(t)
  {
    forall r | 0 <= r < |t.sh.heap|
      ensures ThreadOk(t, r) && HoldsControl(t.sh, r) && PlugOk(t.sh, r)
    {
      assert ThreadOk(s, r) && HoldsControl(s.sh, r) && PlugOk(s.sh, r);
    }
    forall id | id in t.sh.displays && t.sh.heap[t.sh.displays[id]].plugged
      ensures UpToDate(t, id) || Pending(t, id)
    {
      assert UpToDate(s, id) || Pending(s, id);
      if other :| AnnouncedBy(s, id, other) {
        assert AnnouncedBy(t, id, other);
      }
    }
  }

  lemma LoopKeepsInv(s: State, ref: Ref, step: Step)
    requires Inv(s) && Enabled(s, Loop(ref, step))
    ensures Inv(LoopEffect(s, ref, step))
  {
    ThreadMoveKeepsInv(s, LoopEffect(s, ref, step), ref, Advance(s.sh.heap[ref].vsync, step));
  }

  // ---------- the UI thread ----------

  /** A display for which nothing relevant changed stays announced. */
  lemma StillCoherent(s: State, t: State, id: DisplayId)
    requires Wf(s.sh) && Wf(t.sh) && CoherenceInv(s)
    requires id in s.sh.displays && id in t.sh.displays
    requires s.sh.heap[s.sh.displays[id]].plugged
    requires ModeOf(t.sh.heap[t.sh.displays[id]].config) == ModeOf(s.sh.heap[s.sh.displays[id]].config)
    requires t.seen == s.seen && t.due == s.due && t.binders == s.binders && !s.ui.Emitting?
    ensures UpToDate(t, id) || Pending(t, id)
  {
    assert UpToDate(s, id) || Pending(s, id);
    if other :| AnnouncedBy(s, id, other) {
      assert AnnouncedBy(t, id, other);
    }
  }

  lemma SurfaceChangedKeepsHeap(s: State, a: UiAction)
    requires Inv(s) && a.SurfaceChanged? && UiEnabled(s, a)
    ensures var t := UiEffect(s, a); Wf(t.sh) && ThreadInv(t) && PlugInv(t.sh)
  {
    var t := UiEffect(s, a);
    ChangedWf(s.sh, a.id, a.window, a.config, a.made);
    forall r | 0 <= r < |t.sh.heap|
      ensures ThreadOk(t, r) && PlugOk(t.sh, r)
    {
      if r < |s.sh.heap| {
        assert ThreadOk(s, r) && PlugOk(s.sh, r);
      }
    }
  }

  lemma ReleaseKeepsOthers(sh: Shared, ref: Ref)
    requires ControlInv(sh) && ref < |sh.heap|
    ensures var after := Release(sh.controls, ref, sh.heap[ref].control);
            && !after.misuse
            && (forall c :: c in after.live <==> c in sh.controls.live && sh.controls.live[c].ref != ref)
            && (forall c :: c in after.live ==> after.live[c] == sh.controls.live[c])
  {
    assert HoldsControl(sh, ref);
    forall c | c in sh.controls.live && sh.controls.live[c].ref == ref
      ensures sh.heap[ref].control == Some(c)
    {}
  }

  lemma SurfaceChangedKeepsControls(s: State, a: UiAction)
    requires Inv(s) && a.SurfaceChanged? && UiEnabled(s, a)
    ensures ControlInv(UiEffect(s, a).sh)
  {
    var sh := UiEffect(s, a).sh;
    var ref := TargetRef(s.sh, a.id);
    if ref < |s.sh.heap| {
      ReleaseKeepsOthers(s.sh, ref);
      assert HoldsControl(s.sh, ref);
    }
    assert !sh.controls.misuse;
    forall r | 0 <= r < |sh.heap| ensures HoldsControl(sh, r) {
      assert r == |s.sh.heap| || HoldsControl(s.sh, r);
    }
    forall c | c in sh.controls.live
      ensures sh.controls.live[c].ref < |sh.heap| && sh.heap[sh.controls.live[c].ref].control == Some(c)
    {
      assert c in s.sh.controls.live ==> s.sh.heap[s.sh.controls.live[c].ref].control == Some(c);
    }
  }

  lemma SurfaceChangedKeepsCoherence(s: State, a: UiAction)
    requires Inv(s) && a.SurfaceChanged? && UiEnabled(s, a)
    ensures var t := UiEffect(s, a); Wf(t.sh) && CoherenceInv(t) && TeardownInv(t)
  {
    var t := UiEffect(s, a);
    ChangedWf(s.sh, a.id, a.window, a.config, a.made);
    var ref := TargetRef(s.sh, a.id);
    assert ref == |s.sh.heap| || PlugOk(s.sh, ref);
    forall id | id in t.sh.displays && t.sh.heap[t.sh.displays[id]].plugged
      ensures UpToDate(t, id) || Pending(t, id)
    {
      if id != a.id || ChangedEvents(s.sh, a.id, a.config) == [] {
        StillCoherent(s, t, id);
      }
    }
  }

  lemma SurfaceChangedKeepsInv(s: State, a: UiAction)
    requires Inv(s) && a.SurfaceChanged? && UiEnabled(s, a)
    ensures Inv(UiEffect(s, a))
  {
    SurfaceChangedKeepsHeap(s, a);
    SurfaceChangedKeepsControls(s, a);
    SurfaceChangedKeepsCoherence(s, a);
  }

  /** Dropping the surface of a mapped display, and possibly unplugging and stopping it. */
  lemma DropKeepsControls(sh: Shared, ref: Ref)
    requires Wf(sh) && ControlInv(sh) && ref < |sh.heap|
    ensures ControlInv(DropSurface(sh, ref))
  {
    var after := DropSurface(sh, ref);
    assert HoldsControl(sh, ref);
    forall r | 0 <= r < |after.heap| ensures HoldsControl(after, r) {
      assert HoldsControl(sh, r);
    }
  }

  lemma DropSurfaceKeepsInv(s: State, ref: Ref)
    requires Inv(s) && s.ui.Idle? && ref < |s.sh.heap|
    ensures Inv(s.(sh := DropSurface(s.sh, ref)))
  {
    var t := s.(sh := DropSurface(s.sh, ref));
    DropKeepsControls(s.sh, ref);
    forall r | 0 <= r < |t.sh.heap| ensures ThreadOk(t, r) && PlugOk(t.sh, r) {
      assert ThreadOk(s, r) && PlugOk(s.sh, r);
    }
    forall id | id in t.sh.displays && t.sh.heap[t.sh.displays[id]].plugged
      ensures UpToDate(t, id) || Pending(t, id)
    {
      StillCoherent(s, t, id);
    }
  }

  lemma SurfaceDestroyedKeepsInv(s: State, a: UiAction)
    requires Inv(s) && a.SurfaceDestroyed? && UiEnabled(s, a)
    ensures Inv(UiEffect(s, a))
  {
    if a.id in s.sh.displays {
      var t := UiEffect(s, a);
      var dropped := s.(sh := DropSurface(s.sh, s.sh.displays[a.id]));
      DropSurfaceKeepsInv(s, s.sh.displays[a.id]);
      assert SameButFences(dropped.sh, t.sh);
      forall id, tid | AnnouncedBy(dropped, id, tid) ensures AnnouncedBy(t, id, tid) {}
      FencesKeepInv(dropped, t);
    }
  }

  lemma DestroyBeginKeepsInv(s: State, a: UiAction)
    requires Inv(s) && a.DestroyBegin? && UiEnabled(s, a)
    ensures Inv(UiEffect(s, a))
  {
    var t := UiEffect(s, a);
    var dropped := s.(sh := DropSurface(s.sh, s.sh.displays[a.id]));
    DropSurfaceKeepsInv(s, s.sh.displays[a.id]);
    forall r | 0 <= r < |t.sh.heap|
      ensures ThreadOk(t, r) && HoldsControl(t.sh, r) && PlugOk(t.sh, r)
    {
      assert ThreadOk(dropped, r) && PlugOk(dropped.sh, r) && HoldsControl(dropped.sh, r);
    }
    forall id | id in t.sh.displays && t.sh.heap[t.sh.displays[id]].plugged
      ensures UpToDate(t, id) || Pending(t, id)
    {
      StillCoherent(dropped, t, id);
    }
  }

  lemma DestroyJoinedKeepsInv(s: State, a: UiAction)
    requires Inv(s) && a.DestroyJoined? && UiEnabled(s, a)
    ensures Inv(UiEffect(s, a))
  {
    var t := UiEffect(s, a);
    forall r | 0 <= r < |t.sh.heap|
      ensures ThreadOk(t, r) && HoldsControl(t.sh, r) && PlugOk(t.sh, r)
    {
      assert ThreadOk(s, r) && HoldsControl(s.sh, r) && PlugOk(s.sh, r);
    }
    forall id | id in t.sh.displays && t.sh.heap[t.sh.displays[id]].plugged
      ensures UpToDate(t, id) || Pending(t, id)
    {
      StillCoherent(s, t, id);
    }
  }

  lemma DestroyEmitKeepsInv(s: State, a: UiAction)
    requires Inv(s) && a.DestroyEmit? && UiEnabled(s, a)
    ensures Inv(UiEffect(s, a))
  {
    var t := UiEffect(s, a);
    assert t.sh == s.sh;
    forall r | 0 <= r < |t.sh.heap| ensures ThreadOk(t, r) {
      assert ThreadOk(s, r);
    }
    forall id | id in t.sh.displays && t.sh.heap[t.sh.displays[id]].plugged
      ensures UpToDate(t, id) || Pending(t, id)
    {
      StillCoherent(s, t, id);
    }
  }

  lemma DestroyEraseKeepsInv(s: State, a: UiAction)
    requires Inv(s) && a.DestroyErase? && UiEnabled(s, a)
    ensures Inv(UiEffect(s, a))
  {
    var t := UiEffect(s, a);
    forall r | 0 <= r < |t.sh.heap|
      ensures ThreadOk(t, r) && HoldsControl(t.sh, r) && PlugOk(t.sh, r)
    {
      assert ThreadOk(s, r) && HoldsControl(s.sh, r) && PlugOk(s.sh, r);
    }
    forall id | id in t.sh.displays && t.sh.heap[t.sh.displays[id]].plugged
      ensures UpToDate(t, id) || Pending(t, id)
    {
      StillCoherent(s, t, id);
    }
  }

  lemma EmitNextKeepsInv(s: State, a: UiAction)
    requires Inv(s) && a.EmitNext? && UiEnabled(s, a)
    ensures Inv(UiEffect(s, a))
  {
    var t := UiEffect(s, a);
    assert t.sh == s.sh;
    assert Announces(s.ui.events[0]);
    forall r | 0 <= r < |t.sh.heap| ensures ThreadOk(t, r) {
      assert ThreadOk(s, r);
    }
    forall id | id in t.sh.displays && t.sh.heap[t.sh.displays[id]].plugged
      ensures UpToDate(t, id) || Pending(t, id)
    {
      assert UpToDate(s, id) || Pending(s, id);
      if other :| AnnouncedBy(s, id, other) {
        assert AnnouncedBy(t, id, other);
      }
    }
  }

  lemma UiKeepsInv(s: State, a: UiAction)
    requires Inv(s) && UiEnabled(s, a)
    ensures Inv(UiEffect(s, a))
  {
    match a
    case SurfaceChanged(_, _, _, _) => SurfaceChangedKeepsInv(s, a);
    case SurfaceDestroyed(_) => SurfaceDestroyedKeepsInv(s, a);
    case DestroyBegin(_) => DestroyBeginKeepsInv(s, a);
    case DestroyJoined => DestroyJoinedKeepsInv(s, a);
    case DestroyEmit => DestroyEmitKeepsInv(s, a);
    case DestroyErase => DestroyEraseKeepsInv(s, a);
    case EmitNext => EmitNextKeepsInv(s, a);
  }

  // ---------- all actions, all runs ----------

  lemma StepKeepsInv(s: State, a: Action)
    requires Inv(s) && Enabled(s, a)
    ensures Inv(Apply(s, a))
  {
    match a
    case UiThread(ui) => UiKeepsInv(s, ui);
    case BinderThread(tid, call) => BinderKeepsInv(s, tid, call);
    case Callback(cid, completion) => CompletionKeepsInv(s, cid, completion);
    case Loop(ref, step) => LoopKeepsInv(s, ref, step);
    case Arrive(ref, event) =>
      var v := s.sh.heap[ref].vsync;
      ThreadMoveKeepsInv(s, Apply(s, a), ref, v.(queue := v.queue + [event]));
    case _ =>
      FencesKeepInv(s, Apply(s, a));
  }

  lemma {:induction false} RunKeepsInv(s: State, actions: seq<Action>)
    requires Inv(s) && IsRun(s, actions)
    ensures Inv(After(s, actions))
    decreases |actions|
  {
    if actions != [] {
      StepKeepsInv(s, actions[0]);
      RunKeepsInv(Apply(s, actions[0]), actions[1..]);
    }
  }

  lemma ReachableInv(s: State)
    requires Reachable(s)
    ensures Inv(s)
  {
    var actions :| IsRun(INIT, actions) && After(INIT, actions) == s;
    RunKeepsInv(INIT, actions);
  }
}
