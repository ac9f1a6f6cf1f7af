/**
 The activity of one display together with the composer: when leaving out a native call cannot be
 noticed, exactly, and that the cached activity then drives the composer like an uncached one.
 */
module DisplayElision {
  import opened Options
  import opened VsyncLoop
  import opened DisplayRate
  import opened ComposerState
  import opened ComposerMachine
  import opened ComposerInvariants
  import opened DisplayActivity

  /**
   The activity, its surface and the composer. `size` is what the surface last reported with
   surfaceChanged, which is also what the composer reads from the window.
   `torn`: since the last native call the display was torn down by someone else (the hardware service
   going away does this to display 0). `refused`: that call ended without a surface control.
   */
  datatype Screen = Screen(
    id: DisplayId,
    activity: Activity,
    window: Option<Window>,
    width: int,
    height: int,
    composer: State,
    torn: bool,
    refused: bool)

  datatype Step =
    | Appears(window: Window)                                                   // surfaceCreated
    | Resizes(width: int, height: int)                                          // surfaceChanged
    | Applies(valid: bool, dpi: int, refresh: real, made: Option<Control>)      // the posted apply runs
    | Vanishes                                                                  // surfaceDestroyed
    | Elsewhere(action: Action)                                                 // anything else in the composer

  /** Surface calls for this display come from this activity only. */
  predicate Foreign(a: Action, id: DisplayId) {
    a.UiThread? ==> !(a.ui.SurfaceChanged? && a.ui.id == id) && !(a.ui.SurfaceDestroyed? && a.ui.id == id)
  }

  function ConfigOf(id: DisplayId, args: Args): Config {
    Config(id, args.width, args.height, args.dpi, PeriodOf(args.refresh))
  }

  /** The callbacks run on the main looper, so none of them overlaps another UI entry point. */
  ghost predicate StepEnabled(x: Screen, step: Step) {
    && Wf(x.composer.sh)
    && match step
       case Appears(window) => x.composer.ui.Idle? && x.window.None?
       case Resizes(_, _) => x.composer.ui.Idle? && x.window.Some?
       case Applies(_, _, _, made) =>
         x.composer.ui.Idle? && x.window.Some? && x.activity.posted != [] && FreshControl(x.composer.sh.controls, made)
       case Vanishes => x.composer.ui.Idle? && x.window.Some?
       case Elsewhere(action) => Foreign(action, x.id) && Enabled(x.composer, action)
  }

  /** What an apply that runs now would pass down: the posted geometry, and the given density and rate. */
  function ArgsNow(x: Screen, step: Step): Args
    requires step.Applies? && x.activity.posted != []
  {
    Args(x.activity.posted[0].width, x.activity.posted[0].height, step.dpi, step.refresh)
  }

  ghost predicate Elided(x: Screen, step: Step) {
    step.Applies? && StepEnabled(x, step) && step.valid && x.activity.previous == ArgsNow(x, step)
  }

  /** onSurfaceChanged as the composer's machine performs it: the size comes from the window. */
  function NativeChanged(x: Screen, step: Step): Action
    requires step.Applies? && x.window.Some?
  {
    UiThread(SurfaceChanged(x.id, x.window.value,
                            ConfigOf(x.id, Args(x.width, x.height, step.dpi, step.refresh)), step.made))
  }

  ghost predicate WithoutControl(sh: Shared, id: DisplayId)
    requires Wf(sh)
  {
    id in sh.displays && sh.heap[sh.displays[id]].control.None?
  }

  /** An apply whose native call is made. */
  ghost function MadeCall(x: Screen, step: Step, cached: bool): Screen
    requires step.Applies? && StepEnabled(x, step)
  {
    var composer := Apply(x.composer, NativeChanged(x, step));
    WfPreserved(x.composer, NativeChanged(x, step));
    x.(activity := Fire(x.activity, step.valid, step.dpi, step.refresh, cached),
       composer := composer, torn := false, refused := WithoutControl(composer.sh, x.id))
  }

  /** One step; `cached` says whether applies that find their arguments in the cache skip the native call. */
  ghost function Next(x: Screen, step: Step, cached: bool): Screen
    requires StepEnabled(x, step)
  {
    match step
    case Appears(window) => x.(activity := ResetCache(x.activity), window := Some(window))
    case Resizes(width, height) => x.(activity := Trigger(x.activity, width, height), width := width, height := height)
    case Applies(valid, dpi, refresh, _) =>
      if !valid || (cached && Elided(x, step)) then x.(activity := Fire(x.activity, valid, dpi, refresh, cached))
      else MadeCall(x, step, cached)
    case Vanishes =>
      x.(activity := Leave(x.activity, true), window := None,
         composer := Apply(x.composer, UiThread(SurfaceDestroyed(x.id))))
    case Elsewhere(action) =>
      x.(composer := Apply(x.composer, action),
         torn := x.torn || action == UiThread(DestroyBegin(x.id)))
  }

  // ---------- the link between cache and composer ----------

  ghost predicate NoWindow(sh: Shared, id: DisplayId)
    requires Wf(sh)
  {
    id in sh.displays ==> sh.heap[sh.displays[id]].window.None?
  }

  /** The display has the window and the configuration of the last native call. */
  ghost predicate Shows(sh: Shared, id: DisplayId, window: Window, config: Config)
    requires Wf(sh)
  {
    && id in sh.displays
    && var d := sh.heap[sh.displays[id]];
       d.window == Some(window) && d.config == config
  }

  ghost predicate Link(x: Screen) {
    && Inv(x.composer)
    && Debounced(x.activity)
    && (x.activity.posted != [] ==>
          x.window.Some? && x.activity.posted[0].width == x.width && x.activity.posted[0].height == x.height)
    && match LastCall(x.activity.calls)
       case None => NoWindow(x.composer.sh, x.id)
       case Some(args) =>
         && x.window.Some?
         && (if x.torn then NoWindow(x.composer.sh, x.id)
             else Shows(x.composer.sh, x.id, x.window.value, ConfigOf(x.id, args))
                  && (WithoutControl(x.composer.sh, x.id) <==> x.refused))
  }

  // ---------- foreign actions ----------

  /** What the link says about the composer, as one value. */
  ghost predicate SameDisplay(sh: Shared, sh': Shared, id: DisplayId)
    requires Wf(sh) && Wf(sh')
  {
    && (id in sh.displays <==> id in sh'.displays)
    && (id in sh.displays ==>
          var d, e := sh.heap[sh.displays[id]], sh'.heap[sh'.displays[id]];
          e.window == d.window && e.config == d.config && e.control == d.control)
  }

  lemma FencesKeepDisplay(sh: Shared, sh': Shared, id: DisplayId)
    requires Wf(sh) && Wf(sh') && SameButFences(sh, sh')
    ensures SameDisplay(sh, sh', id)
  {}

  lemma BinderKeepsDisplay(s: State, tid: nat, a: BinderAction, id: DisplayId)
    requires Inv(s) && BinderEnabled(s, tid, a)
    ensures Wf(BinderEffect(s, tid, a).sh) && SameDisplay(s.sh, BinderEffect(s, tid, a).sh, id)
  {
    var t := BinderEffect(s, tid, a);
    BinderDirectory(s, tid, a);
    SameDirectoryWf(s.sh, t.sh);
    match a
    case Register(_) =>
      if id in s.sh.displays {
        assert t.sh.heap[s.sh.displays[id]] == Plug(s.sh, s.sh.displays[id]);
      }
    case Present(_) => assert SameButFences(s.sh, t.sh);
    case Announce(_) =>
    case RegisterReturn =>
    case Fetch(_) =>
    case _ => BufferFrame(s, tid, a);
  }

  lemma UiKeepsDisplay(s: State, a: UiAction, id: DisplayId)
    requires Inv(s) && UiEnabled(s, a) && Foreign(UiThread(a), id) && Wf(UiEffect(s, a).sh)
    ensures a == DestroyBegin(id) ==> NoWindow(UiEffect(s, a).sh, id)
    ensures NoWindow(s.sh, id) ==> NoWindow(UiEffect(s, a).sh, id)
    ensures !NoWindow(s.sh, id) && a != DestroyBegin(id) ==> SameDisplay(s.sh, UiEffect(s, a).sh, id)
  {}

  lemma CallbackKeepsDisplay(s: State, cid: nat, a: CompletionAction, id: DisplayId)
    requires Inv(s) && CompletionEnabled(s, cid, a) && Wf(CompletionEffect(s, cid, a).sh)
    ensures SameDisplay(s.sh, CompletionEffect(s, cid, a).sh, id)
  {
    CompletionFrame(s, cid, a);
    FencesKeepDisplay(s.sh, CompletionEffect(s, cid, a).sh, id);
  }

  lemma VsyncKeepsDisplay(sh: Shared, ref: Ref, t: Thread, id: DisplayId)
    requires Wf(sh) && ref < |sh.heap| && Wf(Put(sh, ref, sh.heap[ref].(vsync := t)))
    ensures SameDisplay(sh, Put(sh, ref, sh.heap[ref].(vsync := t)), id)
  {}

  lemma LoopKeepsDisplay(s: State, a: Action, id: DisplayId)
    requires Wf(s.sh) && Enabled(s, a) && Wf(Apply(s, a).sh)
    requires a.Loop? || a.Arrive? || a.OutsideOpen? || a.OutsideClose?
    ensures SameDisplay(s.sh, Apply(s, a).sh, id)
  {
    var t := Apply(s, a);
    if a.Loop? || a.Arrive? {
      assert t.sh == Put(s.sh, a.ref, s.sh.heap[a.ref].(vsync := t.sh.heap[a.ref].vsync));
      VsyncKeepsDisplay(s.sh, a.ref, t.sh.heap[a.ref].vsync, id);
    }
  }

  lemma ForeignKeepsDisplay(s: State, a: Action, id: DisplayId)
    requires Inv(s) && Enabled(s, a) && Foreign(a, id)
    ensures Wf(Apply(s, a).sh)
    ensures a == UiThread(DestroyBegin(id)) ==> NoWindow(Apply(s, a).sh, id)
    ensures NoWindow(s.sh, id) ==> NoWindow(Apply(s, a).sh, id)
    ensures !NoWindow(s.sh, id) && a != UiThread(DestroyBegin(id)) ==> SameDisplay(s.sh, Apply(s, a).sh, id)
  {
    WfPreserved(s, a);
    match a
    case UiThread(ui) => UiKeepsDisplay(s, ui, id);
    case BinderThread(tid, call) => BinderKeepsDisplay(s, tid, call, id);
    case Callback(cid, completion) => CallbackKeepsDisplay(s, cid, completion, id);
    case _ => LoopKeepsDisplay(s, a, id);
  }

  // ---------- every step keeps the link ----------

  lemma MadeCallShows(x: Screen, step: Step)
    requires Link(x) && step.Applies? && StepEnabled(x, step)
    ensures var y := MadeCall(x, step, true);
            && Inv(y.composer) && y.composer.sh == ChangedSection(x.composer.sh, x.id, x.window.value,
                 ConfigOf(x.id, Args(x.width, x.height, step.dpi, step.refresh)), step.made)
            && Shows(y.composer.sh, x.id, x.window.value, ConfigOf(x.id, ArgsNow(x, step)))
  {
    StepKeepsInv(x.composer, NativeChanged(x, step));
  }

  lemma AppliesKeepsLink(x: Screen, step: Step)
    requires Link(x) && step.Applies? && StepEnabled(x, step)
    ensures Link(Next(x, step, true))
  {
    var a := x.activity.(posted := x.activity.posted[1..]);
    FireKeepsDebounced(x.activity, step.valid, step.dpi, step.refresh);
    if step.valid {
      ApplyRemembers(a, ArgsNow(x, step));
      if x.activity.previous != ArgsNow(x, step) {
        MadeCallShows(x, step);
      }
    }
  }

  /** The cache and the composer stay linked whatever the activity and the rest of the process do. */
  lemma StepKeepsLink(x: Screen, step: Step)
    requires Link(x) && StepEnabled(x, step)
    ensures Link(Next(x, step, true))
  {
    match step
    case Appears(_) => ResetForgets(x.activity);
    case Resizes(width, height) => TriggerPostsLatest(x.activity, width, height);
    case Applies(_, _, _, _) => AppliesKeepsLink(x, step);
    case Vanishes =>
      LeaveCancels(x.activity, true);
      StepKeepsInv(x.composer, UiThread(SurfaceDestroyed(x.id)));
    case Elsewhere(action) =>
      StepKeepsInv(x.composer, action);
      ForeignKeepsDisplay(x.composer, action, x.id);
  }

  // ---------- when eliding a call goes unnoticed ----------

  /** A native call was made for this surface, it got a surface control, and nobody tore the display down since. */
  ghost predicate Intact(x: Screen) {
    LastCall(x.activity.calls).Some? && !x.torn && !x.refused
  }

  lemma IntactCallIsNoOp(x: Screen, step: Step)
    requires Link(x) && Elided(x, step) && Intact(x)
    ensures Apply(x.composer, NativeChanged(x, step)) == x.composer
  {
    var sh := x.composer.sh;
    var r := sh.displays[x.id];
    assert HoldsControl(sh, r) && PlugOk(sh, r);
    assert ChangedSection(sh, x.id, x.window.value, sh.heap[r].config, step.made).heap == sh.heap;
  }

  lemma FreshNumber(taken: set<nat>) returns (n: nat)
    ensures forall m :: m in taken ==> m < n
  {
    if taken == {} {
      n := 0;
    } else {
      var m :| m in taken;
      var k := FreshNumber(taken - {m});
      n := if m < k then k else m + 1;
      assert forall other :: other in taken ==> other == m || other in taken - {m};
    }
  }

  lemma DisturbedCallShows(x: Screen, step: Step) returns (made: Option<Control>)
    requires Link(x) && Elided(x, step) && !Intact(x)
    ensures FreshControl(x.composer.sh.controls, made)
    ensures Apply(x.composer, NativeChanged(x, step.(made := made))).sh != x.composer.sh
  {
    var sh := x.composer.sh;
    var n := FreshNumber(sh.controls.live.Keys);
    made := Some(n);
    var t := Apply(x.composer, NativeChanged(x, step.(made := made)));
    assert t.sh.heap[t.sh.displays[x.id]].control == made;
  }

  /**
   The call left out by an elided apply would have changed nothing at all, whatever surface control the
   system would have offered, exactly when the display is intact.
   */
  lemma ElisionIsExact(x: Screen, step: Step)
    requires Link(x) && Elided(x, step)
    ensures Intact(x) <==>
              forall made :: FreshControl(x.composer.sh.controls, made) ==>
                Apply(x.composer, NativeChanged(x, step.(made := made))) == x.composer
  {
    if Intact(x) {
      forall made | FreshControl(x.composer.sh.controls, made)
        ensures Apply(x.composer, NativeChanged(x, step.(made := made))) == x.composer
      {
        IntactCallIsNoOp(x, step.(made := made));
      }
    } else {
      var made := DisturbedCallShows(x, step);
    }
  }

  // ---------- whole runs ----------

  ghost predicate ScreenRun(x: Screen, steps: seq<Step>, cached: bool)
    decreases |steps|
  {
    steps == [] || (StepEnabled(x, steps[0]) && ScreenRun(Next(x, steps[0], cached), steps[1..], cached))
  }

  ghost function ScreenAfter(x: Screen, steps: seq<Step>, cached: bool): Screen
    requires ScreenRun(x, steps, cached)
    decreases |steps|
  {
    if steps == [] then x else ScreenAfter(Next(x, steps[0], cached), steps[1..], cached)
  }

  lemma {:induction false} RunKeepsLink(x: Screen, steps: seq<Step>)
    requires Link(x) && ScreenRun(x, steps, true)
    ensures Link(ScreenAfter(x, steps, true))
    decreases |steps|
  {
    if steps != [] {
      StepKeepsLink(x, steps[0]);
      RunKeepsLink(Next(x, steps[0], true), steps[1..]);
    }
  }

  /** An apply that leaves the input device at another size: see SizeIsCurrent. */
  predicate LeavesSize(x: Screen, step: Step) {
    step.Applies? && step.valid && x.activity.posted != [] && SkipsSize(x.activity, ArgsNow(x, step))
  }

  /** Every apply that a run elides finds the display intact, and none leaves the input device at another size. */
  ghost predicate ElidesIntact(x: Screen, steps: seq<Step>)
    requires ScreenRun(x, steps, true)
    decreases |steps|
  {
    steps == [] ||
    ((Elided(x, steps[0]) ==> Intact(x)) && !LeavesSize(x, steps[0])
     && ElidesIntact(Next(x, steps[0], true), steps[1..]))
  }

  /** The same in everything, with the input device at the same size; only the cache and the calls made differ. */
  ghost predicate Twins(x: Screen, y: Screen) {
    && y == x.(activity := y.activity, torn := y.torn, refused := y.refused)
    && y.activity == x.activity.(previous := y.activity.previous, calls := y.activity.calls)
    && LastSize(y.activity.calls) == LastSize(x.activity.calls)
  }

  lemma TwinSizes(a: Activity, b: Activity, args: Args)
    requires Debounced(a) && LastSize(a.calls) == LastSize(b.calls)
    ensures LastSize(PassDown(b, args).calls) == Some((args.width, args.height))
    ensures LastSize(ApplyChanges(a, args).calls) == LastSize(PassDown(b, args).calls) <==> !SkipsSize(a, args)
    ensures LastSize(a.calls + [Reset]) == LastSize(b.calls + [Reset])
    ensures LastSize(a.calls + [Destroyed] + [Reset]) == LastSize(b.calls + [Destroyed] + [Reset])
  {
    SizeIsCurrent(a, args);
    LastSizeAppend(b.calls + [Changed(args)], Reconfigured(args.width, args.height));
    LastSizeAppend(a.calls, Reset);
    LastSizeAppend(b.calls, Reset);
    LastSizeAppend(a.calls, Destroyed);
    LastSizeAppend(b.calls, Destroyed);
    LastSizeAppend(a.calls + [Destroyed], Reset);
    LastSizeAppend(b.calls + [Destroyed], Reset);
  }

  lemma TwinsApply(x: Screen, y: Screen, step: Step)
    requires Link(x) && Twins(x, y) && step.Applies? && StepEnabled(x, step)
    requires (Elided(x, step) ==> Intact(x)) && !LeavesSize(x, step)
    ensures StepEnabled(y, step) && Twins(Next(x, step, true), Next(y, step, false))
  {
    TwinSizes(x.activity.(posted := x.activity.posted[1..]), y.activity.(posted := y.activity.posted[1..]),
              ArgsNow(x, step));
    if Elided(x, step) {
      IntactCallIsNoOp(x, step);
    }
  }

  lemma TwinsStep(x: Screen, y: Screen, step: Step)
    requires Link(x) && Twins(x, y) && StepEnabled(x, step) && (Elided(x, step) ==> Intact(x)) && !LeavesSize(x, step)
    ensures StepEnabled(y, step) && Twins(Next(x, step, true), Next(y, step, false))
  {
    TwinSizes(x.activity, y.activity, CLEARED);
    if step.Applies? {
      TwinsApply(x, y, step);
    }
  }

  /**
   An activity that makes every call drives the composer through the same states, with the same events, and
   leaves the input device at the same size, as the caching one, for every run in which nothing is elided on a
   disturbed display and no size is skipped.
   */
  lemma {:induction false} CachedEqualsUncached(x: Screen, y: Screen, steps: seq<Step>)
    requires Link(x) && Twins(x, y) && ScreenRun(x, steps, true) && ElidesIntact(x, steps)
    ensures ScreenRun(y, steps, false) && Twins(ScreenAfter(x, steps, true), ScreenAfter(y, steps, false))
    decreases |steps|
  {
    if steps != [] {
      TwinsStep(x, y, steps[0]);
      StepKeepsLink(x, steps[0]);
      CachedEqualsUncached(Next(x, steps[0], true), Next(y, steps[0], false), steps[1..]);
    }
  }

  // ---------- a display stranded behind a full cache ----------

  function Start(id: DisplayId): Screen {
    Screen(id, CREATED, None, 0, 0, INIT, false, false)
  }

  ghost predicate ReachableScreen(x: Screen) {
    exists steps :: ScreenRun(Start(x.id), steps, true) && ScreenAfter(Start(x.id), steps, true) == x
  }

  /** Whatever the activity and the rest of the process did so far, cache and composer are linked. */
  lemma ReachableLink(x: Screen)
    requires ReachableScreen(x)
    ensures Link(x)
  {
    var steps :| ScreenRun(Start(x.id), steps, true) && ScreenAfter(Start(x.id), steps, true) == x;
    assert Link(Start(x.id));
    RunKeepsLink(Start(x.id), steps);
  }

  lemma {:induction false} ScreenRunStep(x: Screen, steps: seq<Step>, y: Screen, step: Step)
    requires ScreenRun(x, steps, true) && ScreenAfter(x, steps, true) == y && StepEnabled(y, step)
    ensures ScreenRun(x, steps + [step], true) && ScreenAfter(x, steps + [step], true) == Next(y, step, true)
    decreases |steps|
  {
    var longer := steps + [step];
    if steps == [] {
      assert longer == [step] && longer[1..] == [];
    } else {
      assert longer[0] == steps[0] && longer[1..] == steps[1..] + [step];
      ScreenRunStep(Next(x, steps[0], true), steps[1..], y, step);
    }
  }

  lemma Move(x: Screen, step: Step, y: Screen)
    requires ReachableScreen(x) && StepEnabled(x, step) && Next(x, step, true) == y
    ensures ReachableScreen(y)
  {
    var steps :| ScreenRun(Start(x.id), steps, true) && ScreenAfter(Start(x.id), steps, true) == x;
    ScreenRunStep(Start(x.id), steps, x, step);
    assert ScreenRun(Start(x.id), steps + [step], true) && ScreenAfter(Start(x.id), steps + [step], true) == y;
  }

  const SHOWN := Args(1080, 720, 160, 60.0)

  /** The activity shows display 0, with everything applied. */
  lemma ShownRun() returns (x: Screen)
    ensures ReachableScreen(x) && x.id == 0 && x.window == Some(7) && !x.torn
    ensures x.activity.previous == SHOWN && x.activity.posted == []
    ensures x.composer == INIT.(sh := BOOT.(
              displays := map[0 := 0],
              heap := [NewDisplay(0, 7, ConfigOf(0, SHOWN)).(control := Some(3))],
              controls := Controls(map[3 := Owner(0, 7)], false)))
  {
    var x0 := Start(0);
    assert ScreenRun(x0, [], true) && ScreenAfter(x0, [], true) == x0;
    var x1 := Next(x0, Appears(7), true);
    Move(x0, Appears(7), x1);
    var x2 := Next(x1, Resizes(1080, 720), true);
    Move(x1, Resizes(1080, 720), x2);
    var shows := Applies(true, 160, 60.0, Some(3));
    x := Next(x2, shows, true);
    Move(x2, shows, x);
  }

  /** A step of the composer whose result is known. */
  lemma MoveComposer(x: Screen, action: Action, t: State) returns (y: Screen)
    requires ReachableScreen(x) && StepEnabled(x, Elsewhere(action)) && Apply(x.composer, action) == t
    ensures ReachableScreen(y) && y == x.(composer := t, torn := x.torn || action == UiThread(DestroyBegin(x.id)))
  {
    y := Next(x, Elsewhere(action), true);
    Move(x, Elsewhere(action), y);
  }

  /** The display of the run below once it is torn down. */
  function TornDisplay(pc: Pc): Display {
    NewDisplay(0, 7, ConfigOf(0, SHOWN)).(surface := false, window := None, vsync := Thread(false, pc, []))
  }

  function TornShared(pc: Pc): Shared {
    BOOT.(displays := map[0 := 0], heap := [TornDisplay(pc)])
  }

  lemma TearingRun() returns (x: Screen)
    ensures ReachableScreen(x) && x.id == 0 && x.window == Some(7) && x.torn
    ensures x.activity.previous == SHOWN && x.activity.posted == []
    ensures x.composer == INIT.(sh := TornShared(Exited), ui := Joining(0, 0))
  {
    var x0 := ShownRun();
    var s1 := INIT.(sh := TornShared(Entry), ui := Joining(0, 0));
    assert TeardownSection(x0.composer.sh, 0) == TornShared(Entry);
    var x1 := MoveComposer(x0, UiThread(DestroyBegin(0)), s1);
    x := MoveComposer(x1, Loop(0, Enter), INIT.(sh := TornShared(Exited), ui := Joining(0, 0)));
  }

  /** The hardware service tears display 0 down while its activity still shows it. */
  lemma TornRun() returns (x: Screen)
    ensures ReachableScreen(x) && x.id == 0 && x.window == Some(7) && x.torn
    ensures x.activity.previous == SHOWN && x.activity.posted == []
    ensures x.composer == INIT.(sh := TornShared(Exited).(displays := map[]))
  {
    var x2 := TearingRun();
    var s3 := INIT.(sh := TornShared(Exited), ui := Disconnecting(0, 0));
    assert DropFence(TornShared(Exited), 0) == TornShared(Exited);
    var x3 := MoveComposer(x2, UiThread(DestroyJoined), s3);
    var x4 := MoveComposer(x3, UiThread(DestroyEmit), s3.(ui := Erasing(0, 0)));
    assert Erase(TornShared(Exited), 0) == TornShared(Exited).(displays := map[]);
    x := MoveComposer(x4, UiThread(DestroyErase), INIT.(sh := TornShared(Exited).(displays := map[])));
  }

  /**
   A reachable state in which eliding is wrong: after the service's teardown the next surface change is
   left out because the cache is full, and the display stays away; the native call would bring it back.
   */
  lemma StrandedDisplay() returns (x: Screen, step: Step)
    ensures ReachableScreen(x) && Elided(x, step)
    ensures x.id !in Next(x, step, true).composer.sh.displays
    ensures x.id in Next(x, step, false).composer.sh.displays
  {
    var x0 := TornRun();
    x := Next(x0, Resizes(1080, 720), true);
    Move(x0, Resizes(1080, 720), x);
    step := Applies(true, 160, 60.0, Some(3));
  }
}
