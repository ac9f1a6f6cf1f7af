/**
 Descriptor ownership in every interleaving: each descriptor is held by exactly one variable or slot and
 is closed or handed over exactly once by its holder, unless setBuffer goes on after a failed import.
 */
module ComposerFiles {
  import opened ComposerState
  import opened ComposerMachine
  import opened ComposerInvariants

  /** The number in the variable or slot of a holder; negative when it holds none. */
  ghost function Held(s: State, h: Holder): int {
    match h
    case Slot(ref) => if ref < |s.sh.heap| then s.sh.heap[ref].fence else -1
    case Acquire(tid) => if tid in s.binders then AcquireOf(s.binders[tid]) else -1
    case Stats(cid) =>
      if cid !in s.completions then -1
      else (match s.completions[cid]
            case GotStats(_, fd) => fd
            case Duplicated(_, fd, _) => fd
            case _ => -1)
    case Store(cid) =>
      if cid !in s.completions then -1
      else (match s.completions[cid]
            case Duplicated(_, _, copy) => copy
            case Storing(_, copy) => copy
            case _ => -1)
    case Old(cid) =>
      if cid !in s.completions then -1
      else (match s.completions[cid]
            case Swapped(previous) => previous
            case _ => -1)
    case Outside => -1
  }

  ghost function Ledger(s: State): Holder -> int {
    h => Held(s, h)
  }

  /** Descriptors and holders match one to one; everything else that is open belongs to other code. */
  ghost predicate Owned(files: Files, held: Holder -> int) {
    && !files.misuse
    && (forall h :: held(h) >= 0 ==> held(h) in files.open && files.open[held(h)] == h)
    && (forall fd :: fd in files.open ==> fd >= 0 && (files.open[fd] != Outside ==> held(files.open[fd]) == fd))
    && held(Outside) == -1
  }

  ghost predicate FilesInv(s: State) {
    Owned(s.sh.files, Ledger(s))
  }

  // ---------- what a holder can do with its descriptor ----------

  ghost predicate Differ(before: Holder -> int, after: Holder -> int, at: Holder, fd: int) {
    after(at) == fd && forall h :: h != at ==> after(h) == before(h)
  }

  ghost predicate Moved(before: Holder -> int, after: Holder -> int, from: Holder, to: Holder) {
    && after(from) == -1 && after(to) == before(from)
    && forall h :: h != from && h != to ==> after(h) == before(h)
  }

  lemma CloseOwn(files: Files, before: Holder -> int, after: Holder -> int, h: Holder)
    requires Owned(files, before) && h != Outside && Differ(before, after, h, -1)
    ensures Owned(CloseFd(files, h, before(h)), after)
  {}

  lemma HandOverOwn(files: Files, before: Holder -> int, after: Holder -> int, h: Holder)
    requires Owned(files, before) && h != Outside && Differ(before, after, h, -1)
    ensures Owned(PassFd(files, h, Outside, before(h)), after)
  {}

  lemma MoveOwn(files: Files, before: Holder -> int, after: Holder -> int, from: Holder, to: Holder)
    requires Owned(files, before) && from != to && from != Outside && to != Outside
    requires before(to) < 0 && Moved(before, after, from, to)
    ensures Owned(PassFd(files, from, to, before(from)), after)
  {}

  lemma OpenOwn(files: Files, before: Holder -> int, after: Holder -> int, h: Holder, fd: int)
    requires Owned(files, before) && h != Outside && before(h) < 0 && Fresh(files, fd)
    requires Differ(before, after, h, fd)
    ensures Owned(OpenFd(files, h, fd), after)
  {}

  lemma SameLedger(files: Files, before: Holder -> int, after: Holder -> int)
    requires Owned(files, before) && forall h :: after(h) == before(h)
    ensures Owned(files, after)
  {}

  // ---------- binder threads ----------

  lemma BufferReturnKeeps(s: State, tid: nat)
    requires FilesInv(s) && tid in s.binders
    ensures FilesInv(BufferReturn(s, tid))
  {
    CloseOwn(s.sh.files, Ledger(s), Ledger(BufferReturn(s, tid)), Acquire(tid));
  }

  lemma BufferKeepsFiles(s: State, tid: nat, a: BinderAction)
    requires Wf(s.sh) && FilesInv(s) && BinderEnabled(s, tid, a)
    requires a.BufferEnter? || a.BufferLookup? || a.BufferImport? || a.BufferCheck? || a.BufferApply?
    requires !BinderEffect(s, tid, a).broken
    ensures FilesInv(BinderEffect(s, tid, a))
  {
    var t := BinderEffect(s, tid, a);
    match a
    case BufferEnter(_, acquire) =>
      OpenOwn(s.sh.files, Ledger(s), Ledger(t), Acquire(tid), acquire);
    case BufferLookup =>
      var b := s.binders[tid];
      if b.id !in s.sh.displays || !s.sh.heap[s.sh.displays[b.id]].surface {
        BufferReturnKeeps(s, tid);
      } else {
        SameLedger(s.sh.files, Ledger(s), Ledger(t));
      }
    case BufferImport(ok) =>
      assert t.sh.files == s.sh.files;
      SameLedger(s.sh.files, Ledger(s), Ledger(t));
    case BufferCheck =>
      if s.sh.heap[s.binders[tid].ref].control.None? {
        BufferReturnKeeps(s, tid);
      } else {
        SameLedger(s.sh.files, Ledger(s), Ledger(t));
      }
    case BufferApply =>
      if TransactionTarget(s.sh, s.binders[tid].id).None? {
        BufferReturnKeeps(s, tid);
      } else {
        HandOverOwn(s.sh.files, Ledger(s), Ledger(t), Acquire(tid));
      }
    case _ =>
  }

  /** present's check never fails for a stored fence, so it never drops an open descriptor. */
  lemma PresentReturnsTheFence(s: State, id: DisplayId)
    requires Wf(s.sh) && FilesInv(s) && id in s.sh.displays
    ensures Presentable(s.sh, id) == s.sh.heap[s.sh.displays[id]].fence || s.sh.heap[s.sh.displays[id]].fence < 0
    ensures Presentable(s.sh, id) < 0 <==> s.sh.heap[s.sh.displays[id]].fence < 0
  {
    assert Held(s, Slot(s.sh.displays[id])) == Ledger(s)(Slot(s.sh.displays[id]));
  }

  lemma PresentKeepsFiles(s: State, tid: nat, id: DisplayId)
    requires Wf(s.sh) && FilesInv(s) && BinderEnabled(s, tid, Present(id))
    ensures FilesInv(BinderEffect(s, tid, Present(id)))
  {
    var t := BinderEffect(s, tid, Present(id));
    if id in s.sh.displays {
      var slot := Slot(s.sh.displays[id]);
      PresentReturnsTheFence(s, id);
      assert Ledger(s)(slot) == s.sh.heap[s.sh.displays[id]].fence;
      HandOverOwn(s.sh.files, Ledger(s), Ledger(t), slot);
    }
  }

  lemma BinderKeepsFiles(s: State, tid: nat, a: BinderAction)
    requires Wf(s.sh) && FilesInv(s) && BinderEnabled(s, tid, a) && !BinderEffect(s, tid, a).broken
    ensures FilesInv(BinderEffect(s, tid, a))
  {
    var t := BinderEffect(s, tid, a);
    match a
    case Register(_) =>
      forall ref | 0 <= ref < |s.sh.heap| ensures t.sh.heap[ref] == Plug(s.sh, ref) {}
      SameLedger(s.sh.files, Ledger(s), Ledger(t));
    case Announce(_) => SameLedger(s.sh.files, Ledger(s), Ledger(t));
    case RegisterReturn => SameLedger(s.sh.files, Ledger(s), Ledger(t));
    case Fetch(_) => SameLedger(s.sh.files, Ledger(s), Ledger(t));
    case Present(id) => PresentKeepsFiles(s, tid, id);
    case _ => BufferKeepsFiles(s, tid, a);
  }

  // ---------- completion callbacks ----------

  lemma SwapKeepsFiles(s: State, cid: nat)
    requires FilesInv(s) && CompletionEnabled(s, cid, Swap)
    ensures FilesInv(CompletionEffect(s, cid, Swap))
  {
    var t := CompletionEffect(s, cid, Swap);
    var ref := s.completions[cid].ref;
    var before := Ledger(s);
    var slot, store, previous := Slot(ref), Store(cid), Old(cid);
    var middle := (h: Holder) =>
      if h == slot then -1 else if h == previous then s.sh.heap[ref].fence else Held(s, h);
    assert before(slot) == s.sh.heap[ref].fence;
    MoveOwn(s.sh.files, before, middle, slot, previous);
    assert middle(store) == s.completions[cid].copy;
    MoveOwn(PassFd(s.sh.files, slot, previous, s.sh.heap[ref].fence), middle, Ledger(t), store, slot);
  }

  lemma CompletionKeepsFiles(s: State, cid: nat, a: CompletionAction)
    requires FilesInv(s) && CompletionEnabled(s, cid, a)
    ensures FilesInv(CompletionEffect(s, cid, a))
  {
    var t := CompletionEffect(s, cid, a);
    match a
    case Begin(_, fd) => OpenOwn(s.sh.files, Ledger(s), Ledger(t), Stats(cid), fd);
    case Duplicate(copy) => OpenOwn(s.sh.files, Ledger(s), Ledger(t), Store(cid), copy);
    case CloseStats => CloseOwn(s.sh.files, Ledger(s), Ledger(t), Stats(cid));
    case Swap => SwapKeepsFiles(s, cid);
    case End => CloseOwn(s.sh.files, Ledger(s), Ledger(t), Old(cid));
  }

  // ---------- the UI thread and the rest ----------

  /** onSurfaceDestroyed, and onDisplayDestroyed after its join, close the stored fence. */
  lemma DropKeepsFiles(s: State, a: UiAction)
    requires Wf(s.sh) && FilesInv(s) && UiEnabled(s, a) && (a.SurfaceDestroyed? || a.DestroyJoined?)
    ensures FilesInv(UiEffect(s, a))
  {
    var t := UiEffect(s, a);
    if a.DestroyJoined? {
      CloseOwn(s.sh.files, Ledger(s), Ledger(t), Slot(s.ui.ref));
    } else if a.id in s.sh.displays {
      CloseOwn(s.sh.files, Ledger(s), Ledger(t), Slot(s.sh.displays[a.id]));
    }
  }

  lemma UiKeepsFiles(s: State, a: UiAction)
    requires Wf(s.sh) && FilesInv(s) && UiEnabled(s, a)
    ensures FilesInv(UiEffect(s, a))
  {
    if a.SurfaceDestroyed? || a.DestroyJoined? {
      DropKeepsFiles(s, a);
    } else {
      SameLedger(s.sh.files, Ledger(s), Ledger(UiEffect(s, a)));
    }
  }

  lemma StepKeepsFiles(s: State, a: Action)
    requires Wf(s.sh) && FilesInv(s) && Enabled(s, a) && !Apply(s, a).broken
    ensures FilesInv(Apply(s, a))
  {
    var t := Apply(s, a);
    match a
    case UiThread(ui) => UiKeepsFiles(s, ui);
    case BinderThread(tid, call) => BinderKeepsFiles(s, tid, call);
    case Callback(cid, completion) => CompletionKeepsFiles(s, cid, completion);
    case Loop(ref, step) => SameLedger(s.sh.files, Ledger(s), Ledger(t));
    case Arrive(ref, event) => SameLedger(s.sh.files, Ledger(s), Ledger(t));
    case OutsideOpen(fd) =>
      forall h ensures Ledger(t)(h) == Ledger(s)(h) {}
    case OutsideClose(fd) =>
      forall h ensures Ledger(t)(h) == Ledger(s)(h) {}
  }

  // ---------- exactly when ownership breaks ----------

  /** A setBuffer call that still carries the number of an acquire fence it has already closed. */
  ghost predicate Orphan(s: State, tid: nat) {
    && tid in s.binders && (s.binders[tid].Imported? || s.binders[tid].Ready?)
    && AcquireOf(s.binders[tid]) >= 0
    && !(AcquireOf(s.binders[tid]) in s.sh.files.open
         && s.sh.files.open[AcquireOf(s.binders[tid])] == Acquire(tid))
  }

  ghost predicate SomeOrphan(s: State) {
    exists tid :: Orphan(s, tid)
  }

  /** Until the first bad import everything is owned; after it a bad call is under way or has done harm. */
  ghost predicate FilesHistory(s: State) {
    if s.broken then s.sh.files.misuse || SomeOrphan(s) else FilesInv(s)
  }

  /** Misuse is never forgotten, and no descriptor is given to the acquire variable of a busy thread. */
  ghost predicate FilesStep(before: Files, after: Files, tid: nat) {
    && (before.misuse ==> after.misuse)
    && forall fd :: fd in after.open && after.open[fd] == Acquire(tid) ==>
         fd in before.open && before.open[fd] == Acquire(tid)
  }

  lemma CloseStep(files: Files, h: Holder, fd: int, tid: nat)
    ensures FilesStep(files, CloseFd(files, h, fd), tid)
  {}

  lemma OpenStep(files: Files, h: Holder, fd: int, tid: nat)
    requires h != Acquire(tid)
    ensures FilesStep(files, OpenFd(files, h, fd), tid)
  {}

  lemma PassStep(files: Files, from: Holder, to: Holder, fd: int, tid: nat)
    requires to != Acquire(tid)
    ensures FilesStep(files, PassFd(files, from, to, fd), tid)
  {}

  lemma BinderFilesStep(s: State, caller: nat, a: BinderAction, tid: nat)
    requires Wf(s.sh) && BinderEnabled(s, caller, a) && (a.BufferEnter? ==> caller != tid)
    ensures FilesStep(s.sh.files, BinderEffect(s, caller, a).sh.files, tid)
  {
    var own := if caller in s.binders then AcquireOf(s.binders[caller]) else -1;
    CloseStep(s.sh.files, Acquire(caller), own, tid);
    PassStep(s.sh.files, Acquire(caller), Outside, own, tid);
    match a
    case BufferEnter(_, acquire) => OpenStep(s.sh.files, Acquire(caller), acquire, tid);
    case Present(id) =>
      if id in s.sh.displays {
        PassStep(s.sh.files, Slot(s.sh.displays[id]), Outside, Presentable(s.sh, id), tid);
      }
    case BufferLookup =>
    case BufferImport(_) =>
    case BufferCheck =>
    case BufferApply =>
    case _ =>
  }

  lemma CompletionFilesStep(s: State, cid: nat, a: CompletionAction, tid: nat)
    requires CompletionEnabled(s, cid, a)
    ensures FilesStep(s.sh.files, CompletionEffect(s, cid, a).sh.files, tid)
  {
    match a
    case Begin(_, fd) => OpenStep(s.sh.files, Stats(cid), fd, tid);
    case Duplicate(copy) => OpenStep(s.sh.files, Store(cid), copy, tid);
    case CloseStats => CloseStep(s.sh.files, Stats(cid), s.completions[cid].fd, tid);
    case Swap =>
      var c := s.completions[cid];
      var files := PassFd(s.sh.files, Slot(c.ref), Old(cid), s.sh.heap[c.ref].fence);
      PassStep(s.sh.files, Slot(c.ref), Old(cid), s.sh.heap[c.ref].fence, tid);
      PassStep(files, Store(cid), Slot(c.ref), c.copy, tid);
    case End => CloseStep(s.sh.files, Old(cid), s.completions[cid].previous, tid);
  }

  lemma UiFilesStep(s: State, a: UiAction, tid: nat)
    requires Wf(s.sh) && UiEnabled(s, a)
    ensures FilesStep(s.sh.files, UiEffect(s, a).sh.files, tid)
  {
    match a
    case SurfaceDestroyed(id) =>
      if id in s.sh.displays {
        var ref := s.sh.displays[id];
        CloseStep(s.sh.files, Slot(ref), s.sh.heap[ref].fence, tid);
      }
    case DestroyJoined => CloseStep(s.sh.files, Slot(s.ui.ref), s.sh.heap[s.ui.ref].fence, tid);
    case _ =>
  }

  lemma AnyFilesStep(s: State, a: Action, tid: nat)
    requires Wf(s.sh) && Enabled(s, a)
    requires a.BinderThread? && a.call.BufferEnter? ==> a.tid != tid
    ensures FilesStep(s.sh.files, Apply(s, a).sh.files, tid)
  {
    match a
    case BinderThread(caller, call) => BinderFilesStep(s, caller, call, tid);
    case UiThread(ui) => UiFilesStep(s, ui, tid);
    case Callback(cid, completion) => CompletionFilesStep(s, cid, completion, tid);
    case _ =>
  }

  /** The locals of a binder thread change only by its own actions. */
  lemma OthersKeepBinder(s: State, a: Action, tid: nat)
    requires Wf(s.sh) && Enabled(s, a) && tid in s.binders && !(a.BinderThread? && a.tid == tid)
    ensures tid in Apply(s, a).binders && Apply(s, a).binders[tid] == s.binders[tid]
  {
    match a
    case BinderThread(caller, call) =>
      if call.BufferLookup? || call.BufferCheck? || call.BufferApply? || call.BufferEnter? || call.BufferImport? {
        BufferFrame(s, caller, call);
      }
    case Callback(cid, completion) => CompletionFrame(s, cid, completion);
    case _ =>
  }

  /** A bad call stays bad or does harm: its next close or hand-over hits a number it no longer owns. */
  lemma OrphanStep(s: State, a: Action, tid: nat)
    requires Wf(s.sh) && Enabled(s, a) && Orphan(s, tid)
    ensures Orphan(Apply(s, a), tid) || Apply(s, a).sh.files.misuse
  {
    AnyFilesStep(s, a, tid);
    if a.BinderThread? && a.tid == tid {
      OrphanOwnStep(s, a.call, tid);
    } else {
      OthersKeepBinder(s, a, tid);
    }
  }

  lemma OrphanOwnStep(s: State, a: BinderAction, tid: nat)
    requires Wf(s.sh) && BinderEnabled(s, tid, a) && Orphan(s, tid)
    ensures Orphan(BinderEffect(s, tid, a), tid) || BinderEffect(s, tid, a).sh.files.misuse
  {}

  lemma BreakingStep(s: State, a: Action)
    requires Wf(s.sh) && Enabled(s, a) && !s.broken && FilesInv(s)
    ensures Apply(s, a).broken ==>
      a.BinderThread? && a.call == BufferImport(false) && Orphan(Apply(s, a), a.tid)
  {
    match a
    case BinderThread(tid, call) =>
      if call.BufferLookup? || call.BufferCheck? || call.BufferApply? || call.BufferEnter? || call.BufferImport? {
        BufferFrame(s, tid, call);
      }
    case Callback(cid, completion) => CompletionFrame(s, cid, completion);
    case _ =>
  }

  lemma BrokenStays(s: State, a: Action)
    requires Wf(s.sh) && Enabled(s, a) && s.broken
    ensures Apply(s, a).broken
  {
    match a
    case BinderThread(tid, call) =>
      match call {
        case BufferLookup => assert LookupEffect(s, tid).broken;
        case BufferImport(ok) => assert ImportEffect(s, tid, ok).broken;
        case BufferCheck => assert CheckEffect(s, tid).broken;
        case BufferApply => assert ApplyEffect(s, tid).broken;
        case _ =>
      }
    case _ =>
  }

  function UnusedCaller(a: Action): nat {
    if a.BinderThread? then a.tid + 1 else 0
  }

  lemma HistoryStep(s: State, a: Action)
    requires Wf(s.sh) && Enabled(s, a) && FilesHistory(s)
    ensures FilesHistory(Apply(s, a))
  {
    var t := Apply(s, a);
    if s.broken {
      BrokenStays(s, a);
      if s.sh.files.misuse {
        var idle := UnusedCaller(a);
        AnyFilesStep(s, a, idle);
      } else {
        var tid :| Orphan(s, tid);
        OrphanStep(s, a, tid);
      }
    } else {
      BreakingStep(s, a);
      if !t.broken {
        StepKeepsFiles(s, a);
      }
    }
  }

  lemma {:induction false} RunKeepsHistory(s: State, actions: seq<Action>, t: State)
    requires Wf(s.sh) && FilesHistory(s) && IsRun(s, actions) && After(s, actions) == t
    ensures FilesHistory(t)
    decreases |actions|
  {
    if actions != [] {
      WfPreserved(s, actions[0]);
      HistoryStep(s, actions[0]);
      RunKeepsHistory(Apply(s, actions[0]), actions[1..], t);
    }
  }

  /**
   In every reachable state with no setBuffer call under way, some descriptor was closed or handed over by
   code not owning it if and only if some call went on after createFromHandle failed while it had an
   acquire fence. Without such a call, holders and descriptors match one to one at all times.
   */
  lemma MisuseExactlyWhenBroken(s: State)
    requires Reachable(s)
    ensures !s.broken ==> FilesInv(s)
    ensures (forall tid :: tid in s.binders ==> s.binders[tid].Announcing?) ==> (s.sh.files.misuse <==> s.broken)
  {
    var actions :| IsRun(INIT, actions) && After(INIT, actions) == s;
    assert FilesHistory(INIT);
    RunKeepsHistory(INIT, actions, s);
  }

  /**
   Conservation: with no call and no completion under way, every descriptor the composer ever took and
   did not close or hand over is the stored fence of exactly one display object.
   */
  lemma IdleDescriptorsAreFences(s: State, fd: int)
    requires Reachable(s) && !s.broken && s.completions == map[]
    requires forall tid :: tid in s.binders ==> s.binders[tid].Announcing?
    requires fd in s.sh.files.open && s.sh.files.open[fd] != Outside
    ensures exists ref :: 0 <= ref < |s.sh.heap| && s.sh.heap[ref].fence == fd
                          && forall other :: 0 <= other < |s.sh.heap| && s.sh.heap[other].fence == fd ==> other == ref
  {
    MisuseExactlyWhenBroken(s);
    var h := s.sh.files.open[fd];
    assert Ledger(s)(h) == fd;
    assert h.Slot? && h.ref < |s.sh.heap|;
    forall other | 0 <= other < |s.sh.heap| && s.sh.heap[other].fence == fd ensures other == h.ref {
      assert Ledger(s)(Slot(other)) == fd;
    }
  }
}
