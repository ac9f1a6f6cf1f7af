/**
 The composer service as objects updated in place. Each entry point runs its critical sections and
 emissions in order; what it does to the shared state is the section function of ComposerState.
 */
module ComposerImpl {
  import opened Options
  import opened VsyncLoop
  import opened ComposerState
  import opened DisplayRate

  /** The descriptor table after setBuffer, by the branches it takes. */
  function BufferFiles(
    files: Files, tid: nat, acquire: int, known: bool, imported: bool, target: Option<Control>): Files
  {
    var holder := Acquire(tid);
    if !known then CloseFd(files, holder, acquire)
    else
      var after := if imported then files else CloseFd(files, holder, acquire);
      if target.None? then CloseFd(after, holder, acquire) else PassFd(after, holder, Outside, acquire)
  }

  /**
   A call closes its acquire fence or hands it over exactly once, and touches no other descriptor, unless
   the display is known, the import fails and there is a fence: precisely then it also misuses one.
   */
  lemma BufferFencePassedOnce(
    files: Files, tid: nat, acquire: int, known: bool, imported: bool, target: Option<Control>)
    requires !files.misuse
    requires acquire >= 0 ==> acquire in files.open && files.open[acquire] == Acquire(tid)
    ensures var after := BufferFiles(files, tid, acquire, known, imported, target);
            && (after.misuse <==> known && !imported && acquire >= 0)
            && (!after.misuse ==>
                after.open == if acquire < 0 then files.open
                              else if known && target.Some? then files.open[acquire := Outside]
                              else files.open - {acquire})
  {}

  /** The shared state when the join has returned and the fence is closed. */
  ghost function Joined(sh: Shared, ref: Ref, queue: seq<ReceiverEvent>): Shared
    requires ref < |sh.heap|
  {
    var torn := TeardownSection(sh, ref);
    DropFence(Put(torn, ref, torn.heap[ref].(vsync := Thread(false, Exited, queue))), ref)
  }

  /** The shared state after onDisplayDestroyed, with what its receiver still had queued at the end. */
  ghost function Destroyed(sh: Shared, id: DisplayId, queue: seq<ReceiverEvent>): Shared
    requires Wf(sh) && id in sh.displays
  {
    Erase(Joined(sh, sh.displays[id], queue), id)
  }

  /** The new part of the trace connects each of the given displays exactly once and says nothing else. */
  ghost predicate Announcement(before: seq<Event>, after: seq<Event>, sequenceId: int, ids: set<DisplayId>) {
    && before <= after
    && (forall i :: |before| <= i < |after| ==>
          after[i] == Hotplug(sequenceId, after[i].id, true, after[i].id == 0) && after[i].id in ids)
    && (forall id :: id in ids ==> exists i :: |before| <= i < |after| && after[i].id == id)
    && (forall i, j :: |before| <= i < j < |after| ==> after[i].id != after[j].id)
  }

  lemma AnnouncementGrows(before: seq<Event>, after: seq<Event>, sequenceId: int, ids: set<DisplayId>, id: DisplayId)
    requires Announcement(before, after, sequenceId, ids) && id !in ids
    ensures Announcement(before, after + [Hotplug(sequenceId, id, true, id == 0)], sequenceId, ids + {id})
  {
    var longer := after + [Hotplug(sequenceId, id, true, id == 0)];
    forall other | other in ids + {id} ensures exists i :: |before| <= i < |longer| && longer[i].id == other {
      if other == id {
        assert longer[|after|].id == id;
      } else {
        var i :| |before| <= i < |after| && after[i].id == other;
        assert longer[i].id == other;
      }
    }
  }

  class ComposerDisplay {
    const id: DisplayId            // what the vsync callback captured
    ghost const ref: Ref           // its number in the abstract state
    var surface: bool
    var nativeWindow: Option<Window>
    var surfaceControl: Option<Control>
    var displayConfig: Config
    var plugged: bool
    var mPresentFenceFd: int
    const mVsyncThread: VsyncThread

    ghost function Value(): Display
      reads this, mVsyncThread
    {
      Display(id, surface, nativeWindow, surfaceControl, displayConfig, plugged, mPresentFenceFd, mVsyncThread.View())
    }

    constructor (id: DisplayId, ghost ref: Ref, window: Window, config: Config)
      ensures this.id == id && this.ref == ref
      ensures Value() == NewDisplay(id, window, config)
      ensures fresh(mVsyncThread) && mVsyncThread.ref == ref
    {
      this.id, this.ref := id, ref;
      surface, nativeWindow, surfaceControl := true, Some(window), None;
      displayConfig, plugged, mPresentFenceFd := config, false, -1;
      mVsyncThread := new VsyncThread(ref);
      new;
      mVsyncThread.Start();
    }
  }

  class ComposerImpl {
    var mCallbacks: bool
    var mSequenceId: int
    var mDisplays: map<DisplayId, ComposerDisplay>
    var m_ui_running: bool
    ghost var files: Files         // the descriptor table of the process
    ghost var controls: Controls   // the surface controls of the process
    ghost var trace: seq<Event>    // what the callback was told
    ghost var objects: seq<ComposerDisplay>
    ghost var model: Shared        // the abstract state

    ghost predicate Valid()
      reads this`mCallbacks, this`mSequenceId, this`mDisplays, this`files, this`controls, this`objects, this`model
      reads objects, set d | d in objects :: d.mVsyncThread
    {
      && model.registered == mCallbacks && model.sequenceId == mSequenceId
      && model.files == files && model.controls == controls
      && model.displays.Keys == mDisplays.Keys
      && |model.heap| == |objects|
      && (forall id :: id in mDisplays ==>
            mDisplays[id].ref == model.displays[id] < |objects|
            && objects[mDisplays[id].ref] == mDisplays[id] && mDisplays[id].id == id)
      && (forall r :: 0 <= r < |objects| ==> Models(r))
    }

    ghost predicate Models(r: nat)
      requires r < |objects| == |model.heap|
      reads this`objects, this`model, objects[r], objects[r].mVsyncThread
    {
      var d := objects[r];
      d.ref == r && d.mVsyncThread.ref == r && d.Value() == model.heap[r]
    }

    constructor ()
      ensures Valid() && model == BOOT && trace == [] && objects == []
    {
      mCallbacks, mSequenceId, mDisplays, m_ui_running := false, 0, map[], false;
      files, controls := Files(map[], false), Controls(map[], false);
      trace, objects, model := [], [], BOOT;
    }

    lemma ValidWf()
      requires Valid()
      ensures Wf(model)
      ensures forall id :: id in mDisplays ==> mDisplays[id].Value() == model.heap[model.displays[id]]
    {
      forall id | id in mDisplays ensures mDisplays[id].Value() == model.heap[model.displays[id]] {
        assert Models(mDisplays[id].ref);
      }
    }

    method GetActiveConfig(id: DisplayId) returns (config: Option<Config>)
      requires Valid()
      ensures Wf(model)
      ensures config == if id in model.displays then Some(model.heap[model.displays[id]].config) else None
    {
      ValidWf();
      config := if id in mDisplays then Some(mDisplays[id].displayConfig) else None;
    }

    /** When one display has changed and matches the model again, all objects do. */
    twostate lemma OneChanged(d: ComposerDisplay)
      requires objects == old(objects) && d.ref < |objects| == |old(model).heap| == |model.heap| && objects[d.ref] == d
      requires forall r :: 0 <= r < |objects| ==> old(Models(r))
      requires forall o :: o in objects && o != d ==> unchanged(o) && unchanged(o.mVsyncThread)
      requires forall r :: 0 <= r < |objects| && r != d.ref ==> model.heap[r] == old(model).heap[r]
      requires d.mVsyncThread.ref == d.ref && d.Value() == model.heap[d.ref]
      ensures forall r :: 0 <= r < |objects| ==> Models(r)
    {
      forall r | 0 <= r < |objects| ensures Models(r) {
        assert old(Models(r));
      }
    }

    /** Take the fence out of the slot; it is returned if fcntl says that the kernel still knows it. */
    method TakeFence(d: ComposerDisplay, fcntlOk: bool) returns (fd: int)
      modifies d`mPresentFenceFd
      ensures fd == (if old(d.mPresentFenceFd) >= 0 && fcntlOk then old(d.mPresentFenceFd) else -1)
      ensures d.mPresentFenceFd == -1
    {
      fd := -1;
      if d.mPresentFenceFd >= 0 && fcntlOk {
        fd := d.mPresentFenceFd;
        d.mPresentFenceFd := -1;
      } else {
        d.mPresentFenceFd := -1;
      }
    }

    /** present: hand the stored fence to the caller if the kernel still knows it; the slot is empty either way. */
    method Present(id: DisplayId, fcntlOk: bool) returns (fd: int)
      requires Valid()
      requires id in mDisplays ==> (fcntlOk <==> mDisplays[id].mPresentFenceFd in files.open)
      modifies this`files, this`model, objects
      ensures Valid() && Wf(old(model))
      ensures model == PresentSection(old(model), id)
      ensures fd == Presentable(old(model), id)
    {
      ValidWf();
      if id !in mDisplays {
        return -1;
      }
      var d := mDisplays[id];
      assert Models(d.ref);
      fd := TakeFence(d, fcntlOk);
      files := PassFd(files, Slot(d.ref), Outside, fd);
      model := PresentSection(model, id);
      OneChanged(d);
    }

    /** A completion callback between closing the statistics' fence and closing the replaced one. */
    method Complete(d: ComposerDisplay, ghost cid: nat, copy: int) returns (previous: int)
      requires Valid() && d in objects
      modifies this`files, this`model, d`mPresentFenceFd
      ensures Valid() && d.ref < |old(model).heap|
      ensures model == SwapFence(old(model), d.ref, cid, copy)
      ensures previous == old(model).heap[d.ref].fence
    {
      ghost var i :| 0 <= i < |objects| && objects[i] == d;
      assert Models(i);
      previous := d.mPresentFenceFd;
      d.mPresentFenceFd := copy;
      files := PassFd(PassFd(files, Slot(d.ref), Old(cid), previous), Store(cid), Slot(d.ref), copy);
      model := SwapFence(model, d.ref, cid, copy);
      forall r | 0 <= r < |objects| ensures Models(r) {
        assert old(Models(r));
      }
    }

    /**
     setBuffer, called with its own duplicate of the acquire fence; `imported` is whether createFromHandle
     succeeded. Nothing but the descriptor table changes, and only a control of the display is addressed.
     */
    method SetBuffer(id: DisplayId, ghost tid: nat, acquire: int, imported: bool) returns (applied: Option<Control>)
      requires Valid()
      modifies this`files, this`model, this`m_ui_running
      ensures Valid() && m_ui_running && Wf(old(model))
      ensures id in old(model).displays && old(model).heap[old(model).displays[id]].surface ==>
                applied == old(model).heap[old(model).displays[id]].control
      ensures var known := id in old(model).displays && old(model).heap[old(model).displays[id]].surface;
              && (!known ==> applied == None)
              && model == old(model).(files := BufferFiles(old(model).files, tid, acquire, known, imported, applied))
    {
      ValidWf();
      m_ui_running := true;
      applied := LookUpAndApply(id, tid, acquire, imported);
      model := model.(files := files);
      FilesChanged();
    }

    /** setBuffer from its first critical section on. */
    method LookUpAndApply(id: DisplayId, ghost tid: nat, acquire: int, imported: bool)
      returns (applied: Option<Control>)
      modifies this`files
      ensures var known := id in mDisplays && mDisplays[id].surface;
              && applied == (if known then mDisplays[id].surfaceControl else None)
              && files == BufferFiles(old(files), tid, acquire, known, imported, applied)
    {
      applied := None;
      if id !in mDisplays || !mDisplays[id].surface {
        files := CloseFd(files, Acquire(tid), acquire);
      } else {
        applied := ImportAndApply(id, tid, acquire, imported);
      }
    }

    /** setBuffer after its first critical section has found the display. */
    method ImportAndApply(id: DisplayId, ghost tid: nat, acquire: int, imported: bool)
      returns (applied: Option<Control>)
      requires id in mDisplays
      modifies this`files
      ensures applied == mDisplays[id].surfaceControl
      ensures files == BufferFiles(old(files), tid, acquire, true, imported, applied)
    {
      applied := None;
      var display := mDisplays[id];
      if !imported {
        files := CloseFd(files, Acquire(tid), acquire);
      }
      if display.surfaceControl == None {
        files := CloseFd(files, Acquire(tid), acquire);
      } else {
        applied := ApplyTransaction(id, tid, acquire);
      }
    }

    /** Changing nothing but the descriptor table keeps the object valid. */
    twostate lemma FilesChanged()
      requires objects == old(objects) && old(Valid())
      requires unchanged(objects) && forall d :: d in objects ==> unchanged(d.mVsyncThread)
      requires mCallbacks == old(mCallbacks) && mSequenceId == old(mSequenceId) && mDisplays == old(mDisplays)
      requires controls == old(controls) && model == old(model).(files := files)
      ensures Valid()
    {
      forall r | 0 <= r < |objects| ensures Models(r) {
        assert old(Models(r));
      }
    }

    /** The second critical section looks the display up again. */
    method ApplyTransaction(id: DisplayId, ghost tid: nat, acquire: int) returns (applied: Option<Control>)
      modifies this`files
      ensures applied == if id in mDisplays then mDisplays[id].surfaceControl else None
      ensures files == if applied.None? then CloseFd(old(files), Acquire(tid), acquire)
                       else PassFd(old(files), Acquire(tid), Outside, acquire)
    {
      applied := None;
      if id !in mDisplays || mDisplays[id].surfaceControl == None {
        files := CloseFd(files, Acquire(tid), acquire);
      } else {
        applied := mDisplays[id].surfaceControl;
        files := PassFd(files, Acquire(tid), Outside, acquire);
      }
    }

    // ---------- onSurfaceChanged ----------

    /**
     onSurfaceChanged: `made` is what createFromWindow returns if it is called. A missing window or surface
     changes nothing; otherwise the stored period is the rounded one and stays within its range.
     */
    method OnSurfaceChanged(
      id: DisplayId, surface: bool, window: Option<Window>, width: int, height: int, dpi: int, refresh: real,
      made: Option<Control>)
      requires Valid()
      modifies this`mDisplays, this`controls, this`model, this`objects, this`trace, objects
      ensures Valid() && Wf(old(model))
      ensures window.None? || !surface ==> model == old(model) && trace == old(trace)
      ensures window.Some? && surface ==>
                var config := Config(id, width, height, dpi, PeriodOf(refresh));
                && MIN_PERIOD <= config.vsyncPeriod <= MAX_PERIOD
                && model == ChangedSection(old(model), id, window.value, config, made)
                && trace == old(trace) + ChangedEvents(old(model), id, config)
      ensures window.Some? && surface && old(model).registered && id in old(model).displays
                && old(model).heap[old(model).displays[id]].plugged ==>
                var was := old(model).heap[old(model).displays[id]].config;
                trace == old(trace) + (if was.width == width && was.height == height
                                          && was.vsyncPeriod == PeriodOf(refresh) then []
                                       else [Refresh(old(model).sequenceId, id)])
    {
      ValidWf();
      if window.None? || !surface {
        return;
      }
      PeriodInRange(refresh);
      var config := Config(id, width, height, dpi, PeriodOf(refresh));
      var needHotplug, needRefresh;
      if id in mDisplays {
        needHotplug, needRefresh := ChangeDisplay(id, window.value, config, made);
      } else {
        needHotplug := CreateDisplay(id, window.value, config, made);
        needRefresh := false;
      }
      Emit(if mCallbacks && needHotplug then [Hotplug(mSequenceId, id, true, id == 0), Refresh(mSequenceId, id)]
           else if mCallbacks && needRefresh then [Refresh(mSequenceId, id)]
           else []);
    }

    /** The callback is called outside the lock. */
    method Emit(ghost events: seq<Event>)
      requires Valid()
      modifies this`trace
      ensures Valid() && trace == old(trace) + events
    {
      trace := trace + events;
      FilesChanged();
    }

    /** The locked section for a display that is already mapped. */
    method ChangeDisplay(id: DisplayId, window: Window, config: Config, made: Option<Control>)
      returns (needHotplug: bool, needRefresh: bool)
      requires Valid() && Wf(model) && id in mDisplays
      modifies this`controls, this`model, mDisplays[id]
      ensures Valid()
      ensures model == ChangedSection(old(model), id, window, config, made)
      ensures needHotplug <==> !old(model).heap[old(model).displays[id]].plugged && mCallbacks
      ensures needRefresh <==>
                var d := old(model).heap[old(model).displays[id]];
                d.plugged && ModeOf(d.config) != ModeOf(config)
    {
      var d := mDisplays[id];
      assert Models(d.ref);
      needHotplug, needRefresh := UpdateDisplay(d, window, config, made);
      model := ChangedSection(model, id, window, config, made);
      OneChanged(d);
    }

    /** What happens to the object itself. */
    method UpdateDisplay(d: ComposerDisplay, window: Window, config: Config, made: Option<Control>)
      returns (needHotplug: bool, needRefresh: bool)
      modifies this`controls, d
      ensures var was := old(d.Value());
              var renew := was.control == None || was.window != Some(window);
              && d.Value() == was.(surface := true, window := Some(window), config := config,
                                   control := if renew then made else was.control, plugged := was.plugged || mCallbacks)
              && controls == (if renew then Create(Release(old(controls), d.ref, was.control), d.ref, window, made)
                              else old(controls))
              && (needHotplug <==> !was.plugged && mCallbacks)
              && (needRefresh <==> was.plugged && ModeOf(was.config) != ModeOf(config))
    {
      var previousNativeWindow := d.nativeWindow;
      var geometryChanged := d.displayConfig.width != config.width || d.displayConfig.height != config.height;
      var refreshChanged := d.displayConfig.vsyncPeriod != config.vsyncPeriod;
      needRefresh := d.plugged && (geometryChanged || refreshChanged);
      d.nativeWindow, d.surface, d.displayConfig := Some(window), true, config;
      RenewControl(d, previousNativeWindow, window, made);
      needHotplug := false;
      if !d.plugged && mCallbacks {
        d.plugged, needHotplug := true, true;
      }
    }

    /** A control is made anew when there is none or the window has changed; the old one is released first. */
    method RenewControl(d: ComposerDisplay, previous: Option<Window>, window: Window, made: Option<Control>)
      modifies this`controls, d`surfaceControl
      ensures var renew := old(d.surfaceControl) == None || previous != Some(window);
              && d.surfaceControl == (if renew then made else old(d.surfaceControl))
              && controls == if renew then
                               Create(Release(old(controls), d.ref, old(d.surfaceControl)), d.ref, window, made)
                             else old(controls)
    {
      if d.surfaceControl == None || previous != Some(window) {
        if d.surfaceControl != None {
          controls := Release(controls, d.ref, d.surfaceControl);
          d.surfaceControl := None;
        }
        controls := Create(controls, d.ref, window, made);
        d.surfaceControl := made;
      }
    }

    /** The locked section for a display that is not mapped: a new object with its vsync thread started. */
    method CreateDisplay(id: DisplayId, window: Window, config: Config, made: Option<Control>)
      returns (needHotplug: bool)
      requires Valid() && Wf(model) && id !in mDisplays
      modifies this`mDisplays, this`controls, this`model, this`objects
      ensures Valid()
      ensures model == ChangedSection(old(model), id, window, config, made)
      ensures needHotplug <==> mCallbacks
    {
      ghost var before := model;
      var d := new ComposerDisplay(id, |objects|, window, config);
      mDisplays := mDisplays[id := d];
      controls := Create(controls, d.ref, window, made);
      d.surfaceControl := made;
      needHotplug := false;
      if !d.plugged && mCallbacks {
        d.plugged, needHotplug := true, true;
      }
      objects := objects + [d];
      model := ChangedSection(before, id, window, config, made);
      OneAdded(d);
    }

    /** When a display that matches the model is added, all objects match it. */
    twostate lemma OneAdded(new d: ComposerDisplay)
      requires objects == old(objects) + [d] && |old(objects)| == |old(model).heap|
      requires forall r :: 0 <= r < |old(objects)| ==> old(Models(r))
      requires forall o :: o in old(objects) ==> unchanged(o) && unchanged(o.mVsyncThread)
      requires d.ref == d.mVsyncThread.ref == |old(objects)| && model.heap == old(model).heap + [d.Value()]
      ensures forall r :: 0 <= r < |objects| ==> Models(r)
    {
      forall r | 0 <= r < |objects| ensures Models(r) {
        if r < |old(objects)| {
          assert old(Models(r));
        }
      }
    }

    // ---------- teardown ----------

    /** Window, surface and control go; common to onSurfaceDestroyed and onDisplayDestroyed. */
    method DropSurface(d: ComposerDisplay)
      requires Valid() && d.ref < |objects| && objects[d.ref] == d
      modifies this`controls, this`model, d
      ensures Valid() && model == ComposerState.DropSurface(old(model), d.ref)
      ensures d.plugged == old(d.plugged) && d.mPresentFenceFd == old(d.mPresentFenceFd)
    {
      assert Models(d.ref);
      d.nativeWindow, d.surface := None, false;
      if d.surfaceControl != None {
        controls := Release(controls, d.ref, d.surfaceControl);
        d.surfaceControl := None;
      }
      model := ComposerState.DropSurface(model, d.ref);
      forall r | 0 <= r < |objects| ensures Models(r) {
        assert old(Models(r));
      }
    }

    method DropFence(d: ComposerDisplay)
      requires Valid() && d.ref < |objects| && objects[d.ref] == d
      modifies this`files, this`model, d`mPresentFenceFd
      ensures Valid() && model == ComposerState.DropFence(old(model), d.ref)
    {
      assert Models(d.ref);
      var oldFd := d.mPresentFenceFd;
      d.mPresentFenceFd := -1;
      files := CloseFd(files, Slot(d.ref), oldFd);
      model := ComposerState.DropFence(model, d.ref);
      forall r | 0 <= r < |objects| ensures Models(r) {
        assert old(Models(r));
      }
    }

    method OnSurfaceDestroyed(id: DisplayId)
      requires Valid()
      modifies this`files, this`controls, this`model, objects
      ensures Valid() && Wf(old(model)) && model == SurfaceDestroyedSection(old(model), id)
    {
      ValidWf();
      if id in mDisplays {
        DropSurface(mDisplays[id]);
        DropFence(mDisplays[id]);
      }
    }

    /** Unplug the display and run its thread to its end. */
    method StopDisplay(d: ComposerDisplay, interrupted: bool, readable: bool) returns (ghost late: seq<Latest>)
      requires Valid() && d.ref < |objects| && objects[d.ref] == d
      modifies this`model, d`plugged, d.mVsyncThread
      ensures Valid() && d.ref < |old(model).heap|
      ensures late == LateCalls(old(model).heap[d.ref].vsync, interrupted, readable)
      ensures model == Put(old(model), d.ref,
                           old(model).heap[d.ref].(plugged := false,
                                                   vsync := Thread(false, Exited, d.mVsyncThread.queue)))
    {
      assert Models(d.ref);
      d.plugged := false;
      late := d.mVsyncThread.Stop(interrupted, readable);
      model := Put(model, d.ref,
                   model.heap[d.ref].(plugged := false, vsync := Thread(false, Exited, d.mVsyncThread.queue)));
      forall r | 0 <= r < |objects| ensures Models(r) {
        assert old(Models(r));
      }
    }

    /** The first critical section, with the join; `queue` is what the receiver has left at its end. */
    method TearDown(d: ComposerDisplay, interrupted: bool, readable: bool)
      returns (ghost late: seq<Latest>, ghost queue: seq<ReceiverEvent>)
      requires Valid() && d.ref < |objects| && objects[d.ref] == d
      modifies this`files, this`controls, this`model, d, d.mVsyncThread
      ensures Valid() && d.ref < |old(model).heap|
      ensures late == LateCalls(old(model).heap[d.ref].vsync, interrupted, readable)
      ensures model == Joined(old(model), d.ref, queue)
    {
      DropSurface(d);
      late := StopDisplay(d, interrupted, readable);
      queue := d.mVsyncThread.queue;
      DropFence(d);
    }

    /**
     onDisplayDestroyed: tear the display down, wait for its thread, announce the disconnect, unmap it.
     `interrupted` and `readable` say how the thread's last poll ends; a vsync may be heard during the wait.
     */
    method OnDisplayDestroyed(id: DisplayId, interrupted: bool, readable: bool) returns (ghost late: seq<Latest>)
      requires Valid()
      modifies this`mDisplays, this`files, this`controls, this`model, this`trace
      modifies objects, set d | d in objects :: d.mVsyncThread
      ensures Valid() && Wf(old(model))
      ensures id !in old(model).displays ==> model == old(model) && trace == old(trace)
      ensures id in old(model).displays ==>
                && late == LateCalls(old(model).heap[old(model).displays[id]].vsync, interrupted, readable)
                && |late| <= Credit(old(model).heap[old(model).displays[id]].vsync) <= 1
                && trace == old(trace) + (if !model.registered then []
                                          else if late == [] then [Hotplug(model.sequenceId, id, false, id == 0)]
                                          else [Vsync(model.sequenceId, id, late[0].timestamp),
                                                Hotplug(model.sequenceId, id, false, id == 0)])
                && exists queue :: model == Destroyed(old(model), id, queue)
    {
      ValidWf();
      late := [];
      if id !in mDisplays {
        return;
      }
      ghost var queue;
      late, queue := TearDown(mDisplays[id], interrupted, readable);
      FinishDestroy(id, late);
      assert model == Destroyed(old(model), id, queue);
    }

    /** onDisplayDestroyed after its first critical section. */
    method FinishDestroy(id: DisplayId, ghost late: seq<Latest>)
      requires Valid()
      modifies this`mDisplays, this`model, this`trace
      ensures Valid() && model == Erase(old(model), id)
      ensures trace == old(trace) + (if !model.registered then []
                                     else if late == [] then [Hotplug(model.sequenceId, id, false, id == 0)]
                                     else [Vsync(model.sequenceId, id, late[0].timestamp),
                                           Hotplug(model.sequenceId, id, false, id == 0)])
    {
      AnnounceGone(id, late);
      EraseEntry(id);
    }

    /** What the callback hears of a teardown: the late vsync while the thread is joined, then the disconnect. */
    method AnnounceGone(id: DisplayId, ghost late: seq<Latest>)
      requires Valid()
      modifies this`trace
      ensures Valid()
      ensures trace == old(trace) + (if !mCallbacks then []
                                     else if late == [] then [Hotplug(mSequenceId, id, false, id == 0)]
                                     else [Vsync(mSequenceId, id, late[0].timestamp),
                                           Hotplug(mSequenceId, id, false, id == 0)])
    {
      Emit(if mCallbacks && late != [] then [Vsync(mSequenceId, id, late[0].timestamp)] else []);
      Emit(if mCallbacks then [Hotplug(mSequenceId, id, false, id == 0)] else []);
    }

    method EraseEntry(id: DisplayId)
      requires Valid()
      modifies this`mDisplays, this`model
      ensures Valid() && model == Erase(old(model), id)
    {
      mDisplays := mDisplays - {id};
      model := Erase(model, id);
      forall r | 0 <= r < |objects| ensures Models(r) {
        assert old(Models(r));
      }
    }

    // ---------- registerCallback ----------

    /** registerCallback: plug every display that has a window, then announce each of them once. */
    method RegisterCallback(sequenceId: int)
      requires Valid()
      modifies this`mCallbacks, this`mSequenceId, this`model, this`trace, objects
      ensures Valid() && Wf(old(model))
      ensures model == RegisterSection(old(model), sequenceId)
      ensures Announcement(old(trace), trace, sequenceId, Windowed(old(model)))
      ensures forall i :: |old(trace)| <= i < |trace| ==>
                trace[i] == Hotplug(sequenceId, trace[i].id, true, trace[i].id == 0)
    {
      ValidWf();
      ghost var before := model;
      mSequenceId := sequenceId;
      mCallbacks := true;
      forall r | 0 <= r < |objects| ensures Models(r) {
        assert old(Models(r));
      }
      var hotplugDisplays := PlugWindowed();
      label plugged:
      model := RegisterSection(before, sequenceId);
      forall r | 0 <= r < |objects| ensures Models(r) {
        assert old@plugged(PlugProgress(r, {}));
      }
      label told:
      AnnounceAll(hotplugDisplays);
      forall r | 0 <= r < |objects| ensures Models(r) {
        assert old@told(Models(r));
      }
    }

    /** The loop under the lock. */
    method PlugWindowed() returns (hotplugDisplays: set<DisplayId>)
      requires Wf(model) && |model.heap| == |objects|
      requires model.displays.Keys == mDisplays.Keys
      requires forall id :: id in mDisplays ==>
                 mDisplays[id].ref == model.displays[id] && objects[mDisplays[id].ref] == mDisplays[id]
      requires forall r :: 0 <= r < |objects| ==> Models(r)
      modifies objects
      ensures hotplugDisplays == Windowed(model)
      ensures forall r :: 0 <= r < |objects| ==> PlugProgress(r, {})
    {
      hotplugDisplays := {};
      var todo: set<DisplayId> := mDisplays.Keys;
      forall r | 0 <= r < |objects| ensures PlugProgress(r, todo) {
        assert Models(r);
      }
      while todo != {}
        invariant todo <= mDisplays.Keys
        invariant hotplugDisplays == Windowed(model) - todo
        invariant forall r :: 0 <= r < |objects| ==> PlugProgress(r, todo)
      {
        var id := PickOne(todo);
        var d := mDisplays[id];
        assert PlugProgress(d.ref, todo);
        ghost var before := todo;
        todo := todo - {id};
        label turn:
        if d.nativeWindow.Some? {
          hotplugDisplays := hotplugDisplays + {id};
          d.plugged := true;
        }
        forall r | 0 <= r < |objects| ensures PlugProgress(r, todo) {
          assert old@turn(PlugProgress(r, before));
        }
      }
      assert hotplugDisplays == Windowed(model);
    }

    ghost predicate PlugProgress(r: nat, todo: set<DisplayId>)
      requires r < |objects| == |model.heap|
      reads this`objects, this`model, objects[r], objects[r].mVsyncThread
    {
      var d := objects[r];
      && d.ref == r && d.mVsyncThread.ref == r
      && d.Value() == if d.id in todo then model.heap[r] else Plug(model, r)
    }

    /** The unlocked emission loop; the order is that of the map's iteration. */
    method AnnounceAll(ids: set<DisplayId>)
      modifies this`trace
      ensures Announcement(old(trace), trace, mSequenceId, ids)
    {
      var todo := ids;
      while todo != {}
        invariant todo <= ids
        invariant Announcement(old(trace), trace, mSequenceId, ids - todo)
      {
        ghost var before := trace;
        var id := PickOne(todo);
        trace := trace + [Hotplug(mSequenceId, id, true, id == 0)];
        AnnouncementGrows(old(trace), before, mSequenceId, ids - todo, id);
        todo := todo - {id};
        assert ids - todo == ids - (todo + {id}) + {id};
      }
      assert ids - todo == ids;
    }
  }
}
