/**
 Concrete runs in which expectations fail: a stale connect, a failed import with an acquire fence after which
 a descriptor is misused, a fence that comes too late to be closed, and a listener that is never told.
 */
module ComposerWitnesses {
  import opened Options
  import opened VsyncLoop
  import opened ComposerState
  import opened ComposerMachine
  import opened ComposerTheorems
  import opened ComposerHotplug
  import opened ComposerStale
  import opened ComposerFences

  /** One step of a run whose result is known. */
  lemma Take(s: State, a: Action, t: State)
    requires Reachable(s) && Wf(s.sh) && Enabled(s, a) && Apply(s, a) == t
    ensures Reachable(t) && Wf(t.sh)
  {
    ReachableStep(s, a);
  }

  /** The single display of the runs below. */
  function Sample(plugged: bool): Display {
    NewDisplay(0, 7, Config(0, 1080, 720, 160, 16666667)).(control := Some(3), plugged := plugged)
  }

  function SampleShared(
    registered: bool, displays: map<DisplayId, Ref>, d: Display, live: map<Control, Owner>): Shared
  {
    Shared(registered, if registered then 5 else 0, displays, [d], Files(map[], false), Controls(live, false))
  }

  /** onSurfaceChanged has created the display. */
  lemma CreatedRun() returns (s: State)
    ensures Reachable(s) && Wf(s.sh)
    ensures s == INIT.(sh := SampleShared(false, map[0 := 0], Sample(false), map[3 := Owner(0, 7)]))
  {
    var actions: seq<Action> := [];
    assert IsRun(INIT, actions) && After(INIT, actions) == INIT;
    s := INIT.(sh := SampleShared(false, map[0 := 0], Sample(false), map[3 := Owner(0, 7)]));
    var change := SurfaceChanged(0, 7, Config(0, 1080, 720, 160, 16666667), Some(3));
    assert UiEffect(INIT, change).sh.heap == s.sh.heap;
    Take(INIT, UiThread(change), s);
  }

  /** registerCallback has marked the display plugged and still owes its connect. */
  lemma RegisteredRun() returns (s: State)
    ensures Reachable(s) && Wf(s.sh)
    ensures s == State(SampleShared(true, map[0 := 0], Sample(true), map[3 := Owner(0, 7)]),
                       Idle, map[1 := Announcing({0})], map[], [], [], map[], {}, false)
  {
    var s1 := CreatedRun();
    s := State(SampleShared(true, map[0 := 0], Sample(true), map[3 := Owner(0, 7)]),
               Idle, map[1 := Announcing({0})], map[], [], [], map[], {}, false);
    assert RegisterSection(s1.sh, 5).heap == s.sh.heap;
    assert Windowed(s1.sh) == {0};
    Take(s1, BinderThread(1, Register(5)), s);
  }

  /** The display once it is torn down. */
  function DeadSample(pc: Pc): Display {
    Sample(false).(surface := false, window := None, control := None, vsync := Thread(false, pc, []))
  }

  /** onDisplayDestroyed has torn the display down and waited for its thread. */
  lemma JoinedRun() returns (s: State)
    ensures Reachable(s) && Wf(s.sh)
    ensures s == State(SampleShared(true, map[0 := 0], DeadSample(Exited), map[]),
                       Joining(0, 0), map[1 := Announcing({0})], map[], [], [], map[], {}, false)
  {
    var s2 := RegisteredRun();
    var s3 := s2.(sh := SampleShared(true, map[0 := 0], DeadSample(Entry), map[]), ui := Joining(0, 0));
    assert TeardownSection(s2.sh, 0) == s3.sh;
    Take(s2, UiThread(DestroyBegin(0)), s3);
    s := s3.(sh := SampleShared(true, map[0 := 0], DeadSample(Exited), map[]));
    Take(s3, Loop(0, Enter), s);
  }

  /** onDisplayDestroyed runs to its end before registerCallback has announced anything. */
  lemma DestroyedRun() returns (s: State)
    ensures Reachable(s) && Wf(s.sh)
    ensures s.sh.displays == map[] && s.sh.registered && s.sh.sequenceId == 5
    ensures s.ui == Idle && s.binders == map[1 := Announcing({0})] && s.due == {}
    ensures s.trace == [Hotplug(5, 0, false, true)]
  {
    var s4 := JoinedRun();
    var s5 := s4.(ui := Disconnecting(0, 0));
    Take(s4, UiThread(DestroyJoined), s5);
    var s6 := s5.(ui := Erasing(0, 0), trace := [Hotplug(5, 0, false, true)]);
    Take(s5, UiThread(DestroyEmit), s6);
    s := s6.(ui := Idle, sh := SampleShared(true, map[], DeadSample(Exited), map[]));
    assert Erase(s6.sh, 0) == s.sh;
    Take(s6, UiThread(DestroyErase), s);
  }

  /**
   Stale connects happen: registerCallback announces outside its lock, so its connect can arrive after the
   disconnect of a display that is destroyed meanwhile, and nothing ever corrects it.
   */
  lemma OverlapLeavesStaleConnect() returns (s: State)
    ensures Reachable(s) && Wf(s.sh) && s.ui.Idle? && !AnnouncingNow(s)
    ensures Connected(s, 0) && !Plugged(s.sh, 0)
  {
    var s7 := DestroyedRun();
    var s8 := s7.(trace := [Hotplug(5, 0, false, true), Hotplug(5, 0, true, true)],
                  due := {0}, binders := map[1 := Announcing({})]);
    assert s7.binders[1].ids - {0} == {};
    Take(s7, BinderThread(1, Announce(0)), s8);
    s := s8.(binders := map[]);
    assert s8.binders - {1} == map[];
    Take(s8, BinderThread(1, RegisterReturn), s);
  }

  // ---------- a failed import ----------

  /** A call carrying fence number 9 has found the display. */
  lemma FoundRun() returns (s: State)
    ensures Reachable(s) && Wf(s.sh)
    ensures s == State(SampleShared(false, map[0 := 0], Sample(false), map[3 := Owner(0, 7)])
                         .(files := Files(map[9 := Acquire(1)], false)),
                       Idle, map[1 := Found(0, 0, 9)], map[], [], [], map[], {}, false)
  {
    var s1 := CreatedRun();
    var s2 := WithFiles(s1, Files(map[9 := Acquire(1)], false)).(binders := map[1 := Entered(0, 9)]);
    Take(s1, BinderThread(1, BufferEnter(0, 9)), s2);
    s := s2.(binders := map[1 := Found(0, 0, 9)]);
    Take(s2, BinderThread(1, BufferLookup), s);
  }

  /** The call has closed its fence and still carries the number. */
  lemma ImportFailedRun() returns (s: State)
    ensures Reachable(s) && Wf(s.sh)
    ensures s == State(SampleShared(false, map[0 := 0], Sample(false), map[3 := Owner(0, 7)]),
                       Idle, map[1 := Imported(0, 0, 9)], map[], [], [], map[], {}, true)
  {
    var s3 := FoundRun();
    s := WithFiles(s3, Files(map[], false)).(binders := map[1 := Imported(0, 0, 9)], broken := true);
    assert s3.sh.files.open - {9} == map[];
    Take(s3, BinderThread(1, BufferImport(false)), s);
  }

  /**
   setBuffer closes its acquire fence when createFromHandle fails, and then hands the closed number to the
   transaction. The number 9 could by then belong to any other part of the process.
   */
  lemma FailedImportMisusesDescriptor() returns (s: State)
    ensures Reachable(s) && s.broken && s.sh.files.misuse && s.binders == map[]
  {
    var s4 := ImportFailedRun();
    var s5 := s4.(binders := map[1 := Ready(0, 9)]);
    Take(s4, BinderThread(1, BufferCheck), s5);
    s := WithFiles(s5, Files(map[], true)).(binders := map[], applied := [Transaction(0, 0, 3)]);
    assert s5.binders - {1} == map[];
    Take(s5, BinderThread(1, BufferApply), s);
  }

  // ---------- a late completion ----------

  /** setBuffer, without an acquire fence, has found the display and imported the buffer. */
  lemma ImportedRun() returns (s: State)
    ensures Reachable(s) && Wf(s.sh)
    ensures s == INIT.(sh := SampleShared(false, map[0 := 0], Sample(false), map[3 := Owner(0, 7)]),
                       binders := map[1 := Imported(0, 0, -1)])
  {
    var s1 := CreatedRun();
    var s2 := s1.(binders := map[1 := Entered(0, -1)]);
    Take(s1, BinderThread(1, BufferEnter(0, -1)), s2);
    var s3 := s2.(binders := map[1 := Found(0, 0, -1)]);
    Take(s2, BinderThread(1, BufferLookup), s3);
    s := s3.(binders := map[1 := Imported(0, 0, -1)]);
    Take(s3, BinderThread(1, BufferImport(true)), s);
  }

  /** It has applied its transaction and returned. */
  lemma AppliedRun() returns (s: State)
    ensures Reachable(s) && Wf(s.sh)
    ensures s == INIT.(sh := SampleShared(false, map[0 := 0], Sample(false), map[3 := Owner(0, 7)]),
                       applied := [Transaction(0, 0, 3)])
  {
    var s4 := ImportedRun();
    var s5 := s4.(binders := map[1 := Ready(0, -1)]);
    Take(s4, BinderThread(1, BufferCheck), s5);
    s := s5.(binders := map[], applied := [Transaction(0, 0, 3)]);
    assert s5.binders - {1} == map[];
    Take(s5, BinderThread(1, BufferApply), s);
  }

  /** The display is torn down, its thread joined. */
  lemma AppliedAndJoinedRun() returns (s: State)
    ensures Reachable(s) && Wf(s.sh)
    ensures s == INIT.(sh := SampleShared(false, map[0 := 0], DeadSample(Exited), map[]),
                       ui := Disconnecting(0, 0), applied := [Transaction(0, 0, 3)])
  {
    var s6 := AppliedRun();
    var s7 := s6.(sh := SampleShared(false, map[0 := 0], DeadSample(Entry), map[]), ui := Joining(0, 0));
    assert TeardownSection(s6.sh, 0) == s7.sh;
    Take(s6, UiThread(DestroyBegin(0)), s7);
    var s8 := s7.(sh := SampleShared(false, map[0 := 0], DeadSample(Exited), map[]));
    Take(s7, Loop(0, Enter), s8);
    s := s8.(ui := Disconnecting(0, 0));
    assert DropFence(s8.sh, 0) == s8.sh;
    Take(s8, UiThread(DestroyJoined), s);
  }

  /** The display is gone, and the transaction has not completed yet. */
  lemma AppliedAndDestroyedRun() returns (s: State)
    ensures Reachable(s) && Wf(s.sh)
    ensures s == INIT.(sh := SampleShared(false, map[], DeadSample(Exited), map[]), applied := [Transaction(0, 0, 3)])
  {
    var s9 := AppliedAndJoinedRun();
    var s10 := s9.(ui := Erasing(0, 0));
    Take(s9, UiThread(DestroyEmit), s10);
    s := s10.(ui := Idle, sh := SampleShared(false, map[], DeadSample(Exited), map[]));
    assert Erase(s10.sh, 0) == s.sh;
    Take(s10, UiThread(DestroyErase), s);
  }

  /** The state of a completion for the display that is gone. */
  function CompletingState(open: map<int, Holder>, c: Completion): State {
    INIT.(sh := SampleShared(false, map[], DeadSample(Exited), map[]).(files := Files(open, false)),
          applied := [Transaction(0, 0, 3)], completions := map[1 := c])
  }

  /** The completion has its present fence, number 9. */
  lemma CompletingRun() returns (s: State)
    ensures Reachable(s) && Wf(s.sh) && s == CompletingState(map[9 := Stats(1)], GotStats(0, 9))
  {
    var s11 := AppliedAndDestroyedRun();
    assert Transaction(0, 0, 3) in s11.applied;
    s := CompletingState(map[9 := Stats(1)], GotStats(0, 9));
    Take(s11, Callback(1, Begin(0, 9)), s);
  }

  /** It has duplicated the fence as number 10 and closed the original. */
  lemma DuplicatedRun() returns (s: State)
    ensures Reachable(s) && Wf(s.sh) && s == CompletingState(map[10 := Store(1)], Storing(0, 10))
  {
    var s12 := CompletingRun();
    var s13 := CompletingState(map[9 := Stats(1), 10 := Store(1)], Duplicated(0, 9, 10));
    Take(s12, Callback(1, Duplicate(10)), s13);
    s := CompletingState(map[10 := Store(1)], Storing(0, 10));
    assert s13.sh.files.open - {9} == map[10 := Store(1)];
    Take(s13, Callback(1, CloseStats), s);
  }

  /** At rest, with no display left, descriptor 10 is still open: the fence of the display that is gone. */
  lemma LateFenceStaysOpen() returns (s: State)
    ensures Reachable(s) && s.ui == Idle && !s.broken && NothingHeld(s)
    ensures s.sh.displays == map[] && s.sh.files.open == map[10 := Slot(0)]
  {
    var s14 := DuplicatedRun();
    var s15 := s14.(sh := s14.sh.(heap := [DeadSample(Exited).(fence := 10)],
                                  files := Files(map[10 := Slot(0)], false)),
                    completions := map[1 := Swapped(-1)]);
    assert SwapFence(s14.sh, 0, 1, 10) == s15.sh;
    Take(s14, Callback(1, Swap), s15);
    s := s15.(completions := map[]);
    assert s15.completions - {1} == map[];
    Take(s15, Callback(1, End), s);
  }

  // ---------- a later listener ----------

  /** registerCallback has announced the display and returned. */
  lemma AnnouncedRun() returns (s: State)
    ensures Reachable(s) && Wf(s.sh)
    ensures s == State(SampleShared(true, map[0 := 0], Sample(true), map[3 := Owner(0, 7)]),
                       Idle, map[], map[], [], [Hotplug(5, 0, true, true)], map[], {0}, false)
  {
    var s1 := RegisteredRun();
    var s2 := s1.(binders := map[1 := Announcing({})], trace := [Hotplug(5, 0, true, true)], due := {0});
    assert s1.binders[1].ids - {0} == {};
    Take(s1, BinderThread(1, Announce(0)), s2);
    s := s2.(binders := map[]);
    assert s2.binders - {1} == map[];
    Take(s2, BinderThread(1, RegisterReturn), s);
  }

  /** Another listener has registered while the display, still plugged, had no window. */
  lemma SecondRegisteredRun() returns (s: State)
    ensures Reachable(s) && Wf(s.sh) && s.ui == Idle && s.binders == map[1 := Announcing({})]
    ensures s.sh.registered && s.sh.sequenceId == 6 && s.sh.displays == map[0 := 0] && |s.sh.heap| == 1
    ensures s.sh.heap[0].plugged && s.sh.heap[0].config == Sample(true).config
    ensures s.trace == [Hotplug(5, 0, true, true)]
  {
    var s3 := AnnouncedRun();
    var hidden := Sample(true).(surface := false, window := None, control := None);
    var s4 := s3.(sh := SampleShared(true, map[0 := 0], hidden, map[]));
    assert SurfaceDestroyedSection(s3.sh, 0) == s4.sh;
    Take(s3, UiThread(SurfaceDestroyed(0)), s4);
    s := s4.(sh := s4.sh.(sequenceId := 6), binders := map[1 := Announcing({})]);
    assert RegisterSection(s4.sh, 6).heap == s.sh.heap;
    assert Windowed(s4.sh) == {};
    Take(s4, BinderThread(1, Register(6)), s);
  }

  /**
   At rest a display is plugged of which the listener registered last, under sequence id 6, has never heard;
   and even when the surface returns it will not be told.
   */
  lemma LaterListenerMissesDisplay() returns (s: State)
    ensures Reachable(s) && Wf(s.sh) && s.ui == Idle && s.binders == map[] && Plugged(s.sh, 0)
    ensures s.sh.sequenceId == 6 && forall e :: e in s.trace && e.Hotplug? ==> e.sequenceId != 6
    ensures ChangedEvents(s.sh, 0, s.sh.heap[s.sh.displays[0]].config) == []
  {
    var s5 := SecondRegisteredRun();
    s := s5.(binders := map[]);
    assert s5.binders - {1} == map[];
    Take(s5, BinderThread(1, RegisterReturn), s);
  }
}
