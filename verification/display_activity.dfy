/**
 The activity that shows one display: surface changes are debounced through the handler's queue, and an
 apply whose geometry, density and refresh rate are those of the last native call is elided.
 */
module DisplayActivity {
  import opened Options

  /** What an apply passes down, and what the activity remembers of the last one. */
  datatype Args = Args(width: int, height: int, dpi: int, refresh: real)

  const CLEARED := Args(0, 0, 0, 0.0)

  /** One posted apply. Every post creates a new runnable, told apart by its serial number. */
  datatype Runnable = Runnable(serial: nat, width: int, height: int)

  datatype Call =
    | Reset                               // the cache was cleared
    | Changed(args: Args)                 // nativeSurfaceChanged
    | Reconfigured(width: int, height: int)
    | Destroyed                           // nativeSurfaceDestroyed

  /** `posted` holds the activity's entries of the handler queue, `calls` what it did so far. */
  datatype Activity = Activity(
    previous: Args,
    runnable: Option<Runnable>,
    posted: seq<Runnable>,
    serial: nat,
    calls: seq<Call>)

  const CREATED := Activity(CLEARED, None, [], 0, [])

  // ---------- the callbacks ----------

  /** removeCallbacks: every pending entry of that runnable goes away. */
  function Without(posted: seq<Runnable>, runnable: Runnable): seq<Runnable> {
    if posted == [] then []
    else if posted[0] == runnable then Without(posted[1..], runnable)
    else [posted[0]] + Without(posted[1..], runnable)
  }

  function Cancel(a: Activity): Activity {
    if a.runnable.Some? then a.(posted := Without(a.posted, a.runnable.value)) else a
  }

  function ResetCache(a: Activity): Activity {
    a.(previous := CLEARED, calls := a.calls + [Reset])
  }

  /** surfaceChanged: whatever is still pending is replaced by an apply for the new geometry. */
  function Trigger(a: Activity, width: int, height: int): Activity {
    var latest := Runnable(a.serial, width, height);
    var b := Cancel(a);
    b.(runnable := Some(latest), posted := b.posted + [latest], serial := a.serial + 1)
  }

  /** surfaceDestroyed, with or without a surface to tell the native side about. */
  function Leave(a: Activity, surface: bool): Activity {
    var b := Cancel(a).(runnable := None);
    ResetCache(if surface then b.(calls := b.calls + [Destroyed]) else b)
  }

  /** The body of applySurfaceChanges for a valid surface. */
  function ApplyChanges(a: Activity, args: Args): Activity {
    if a.previous == args then a
    else
      var sized := a.previous.width != args.width || a.previous.height != args.height;
      a.(previous := args,
         calls := a.calls + [Changed(args)] + (if sized then [Reconfigured(args.width, args.height)] else []))
  }

  /** The same without the cache: everything is passed down every time. */
  function PassDown(a: Activity, args: Args): Activity {
    a.(previous := args, calls := a.calls + [Changed(args)] + [Reconfigured(args.width, args.height)])
  }

  /** The handler runs its oldest entry, with or without the cache. */
  function Fire(a: Activity, valid: bool, dpi: int, refresh: real, cached: bool): Activity
    requires a.posted != []
  {
    var args := Args(a.posted[0].width, a.posted[0].height, dpi, refresh);
    var b := a.(posted := a.posted[1..]);
    if !valid then b else if cached then ApplyChanges(b, args) else PassDown(b, args)
  }

  // ---------- what they keep ----------

  /** The arguments of the last native call since the cache was cleared, if there was one. */
  function LastCall(calls: seq<Call>): Option<Args> {
    if calls == [] then None
    else
      var last := calls[|calls| - 1];
      match last
      case Reset => None
      case Changed(args) => Some(args)
      case _ => LastCall(calls[..|calls| - 1])
  }

  lemma LastCallAppend(calls: seq<Call>, c: Call)
    ensures LastCall(calls + [c]) == match c
      case Reset => None
      case Changed(args) => Some(args)
      case _ => LastCall(calls)
  {}

  /** The size the input device was last given, if it was. */
  function LastSize(calls: seq<Call>): Option<(int, int)> {
    if calls == [] then None
    else
      var last := calls[|calls| - 1];
      if last.Reconfigured? then Some((last.width, last.height)) else LastSize(calls[..|calls| - 1])
  }

  lemma LastSizeAppend(calls: seq<Call>, c: Call)
    ensures LastSize(calls + [c]) == if c.Reconfigured? then Some((c.width, c.height)) else LastSize(calls)
  {
    assert (calls + [c])[..|calls|] == calls;
  }

  predicate Unsized(args: Args) {
    args.width == 0 && args.height == 0
  }

  /** The cache holds the last call's arguments, and at most one apply is pending: the latest one posted. */
  predicate Debounced(a: Activity) {
    && (!Unsized(a.previous) ==> LastSize(a.calls) == Some((a.previous.width, a.previous.height)))
    && a.previous == (match LastCall(a.calls) case None => CLEARED case Some(args) => args)
    && (a.posted == [] || (a.runnable.Some? && a.posted == [a.runnable.value]))
    && (a.runnable.Some? ==> a.runnable.value.serial < a.serial)
  }

  lemma CancelLeavesNothing(a: Activity)
    requires Debounced(a)
    ensures Cancel(a).posted == []
  {
    if a.posted != [] {
      assert Without(a.posted[1..], a.posted[0]) == [];
    }
  }

  /** After a surface change exactly one apply is pending, and it carries that change's geometry. */
  lemma TriggerPostsLatest(a: Activity, width: int, height: int)
    requires Debounced(a)
    ensures var b := Trigger(a, width, height);
            Debounced(b) && |b.posted| == 1 && b.posted[0].width == width && b.posted[0].height == height
  {
    CancelLeavesNothing(a);
  }

  /** Once the surface is gone nothing is pending and nothing is remembered; the native side hears of a surface. */
  lemma LeaveCancels(a: Activity, surface: bool)
    requires Debounced(a)
    ensures var b := Leave(a, surface);
            && Debounced(b) && b.posted == [] && LastCall(b.calls) == None && b.runnable == None
            && b.calls == (if surface then a.calls + [Destroyed, Reset] else a.calls + [Reset])
  {
    CancelLeavesNothing(a);
    LastCallAppend(a.calls, Destroyed);
    LastCallAppend(a.calls + [Destroyed], Reset);
    LastCallAppend(a.calls, Reset);
    assert a.calls + [Destroyed] + [Reset] == a.calls + [Destroyed, Reset];
  }

  lemma ResetForgets(a: Activity)
    requires Debounced(a)
    ensures Debounced(ResetCache(a)) && LastCall(ResetCache(a).calls) == None
  {}

  /** An apply ends with its arguments in the cache; unless they were there already, they were just passed down. */
  lemma ApplyRemembers(a: Activity, args: Args)
    requires Debounced(a)
    ensures var b := ApplyChanges(a, args);
            && Debounced(b) && b.previous == args
            && (a.previous == args ==> b == a)
            && (a.previous != args ==> LastCall(b.calls) == Some(args))
            && b.posted == a.posted
    ensures var sameSize := a.previous.width == args.width && a.previous.height == args.height;
            ApplyChanges(a, args).calls ==
            if sameSize && a.previous.dpi == args.dpi && a.previous.refresh == args.refresh then a.calls
            else if sameSize then a.calls + [Changed(args)]
            else a.calls + [Changed(args), Reconfigured(args.width, args.height)]
  {
    LastCallAppend(a.calls, Changed(args));
    LastCallAppend(a.calls + [Changed(args)], Reconfigured(args.width, args.height));
    LastSizeAppend(a.calls, Changed(args));
    LastSizeAppend(a.calls + [Changed(args)], Reconfigured(args.width, args.height));
    assert a.calls + [Changed(args)] + [] == a.calls + [Changed(args)];
  }

  lemma FireKeepsDebounced(a: Activity, valid: bool, dpi: int, refresh: real)
    requires Debounced(a) && a.posted != []
    ensures Debounced(Fire(a, valid, dpi, refresh, true)) && Fire(a, valid, dpi, refresh, true).posted == []
  {
    ApplyRemembers(a.(posted := a.posted[1..]), Args(a.posted[0].width, a.posted[0].height, dpi, refresh));
  }

  /** An apply that finds the cache cleared, and a size that equals a cleared one without being the input device's. */
  predicate SkipsSize(a: Activity, args: Args) {
    Unsized(args) && Unsized(a.previous) && LastSize(a.calls) != Some((0, 0))
  }

  /** After an apply the input device has its size, reconfigured now or before, exactly unless it is skipped. */
  lemma SizeIsCurrent(a: Activity, args: Args)
    requires Debounced(a)
    ensures LastSize(ApplyChanges(a, args).calls) == Some((args.width, args.height)) <==> !SkipsSize(a, args)
  {
    LastSizeAppend(a.calls, Changed(args));
    LastSizeAppend(a.calls + [Changed(args)], Reconfigured(args.width, args.height));
    assert a.calls + [Changed(args)] + [] == a.calls + [Changed(args)];
  }

  // ---------- the object ----------

  class DisplayActivity {
    var mPreviousWidth: int
    var mPreviousHeight: int
    var mPreviousDensityDpi: int
    var mPreviousRefresh: real
    var mSurfaceRunnable: Option<Runnable>
    var queue: seq<Runnable>              // this activity's part of the handler's queue
    var serial: nat
    ghost var calls: seq<Call>

    ghost function View(): Activity
      reads this
    {
      Activity(Args(mPreviousWidth, mPreviousHeight, mPreviousDensityDpi, mPreviousRefresh),
               mSurfaceRunnable, queue, serial, calls)
    }

    constructor ()
      ensures View() == CREATED
    {
      mPreviousWidth, mPreviousHeight, mPreviousDensityDpi, mPreviousRefresh := 0, 0, 0, 0.0;
      mSurfaceRunnable, queue, serial, calls := None, [], 0, [];
    }

    method ResetSurfaceChangeCache()
      modifies this
      ensures View() == ResetCache(old(View()))
    {
      mPreviousWidth := 0;
      mPreviousHeight := 0;
      mPreviousDensityDpi := 0;
      mPreviousRefresh := 0.0;
      calls := calls + [Reset];
    }

    method SurfaceCreated(surface: bool)
      modifies this
      ensures View() == if surface then ResetCache(old(View())) else old(View())
    {
      if surface {
        ResetSurfaceChangeCache();
      }
    }

    method RemoveCallbacks(runnable: Runnable)
      modifies this`queue
      ensures queue == Without(old(queue), runnable)
    {
      var kept: seq<Runnable> := [];
      var i := 0;
      while i < |queue|
        modifies {}
        invariant 0 <= i <= |queue|
        invariant kept + Without(queue[i..], runnable) == Without(queue, runnable)
      {
        assert queue[i..][1..] == queue[i + 1..];
        if queue[i] != runnable {
          kept := kept + [queue[i]];
        }
        i := i + 1;
      }
      queue := kept;
    }

    method TriggerSurfaceChanged(width: int, height: int)
      modifies this
      ensures View() == Trigger(old(View()), width, height)
    {
      if mSurfaceRunnable.Some? {
        RemoveCallbacks(mSurfaceRunnable.value);
      }
      mSurfaceRunnable := Some(Runnable(serial, width, height));
      serial := serial + 1;
      queue := queue + [mSurfaceRunnable.value];
    }

    method SurfaceDestroyed(surface: bool)
      modifies this
      ensures View() == Leave(old(View()), surface)
    {
      if mSurfaceRunnable.Some? {
        RemoveCallbacks(mSurfaceRunnable.value);
        mSurfaceRunnable := None;
      }
      if surface {
        calls := calls + [Destroyed];
      }
      ResetSurfaceChangeCache();
    }

    method ApplySurfaceChanges(valid: bool, width: int, height: int, densityDpi: int, refresh: real)
      modifies this
      ensures View() == if valid then ApplyChanges(old(View()), Args(width, height, densityDpi, refresh))
                        else old(View())
    {
      if valid {
        var sizeChanged := mPreviousWidth != width || mPreviousHeight != height;
        var densityChanged := mPreviousDensityDpi != densityDpi;
        var refreshChanged := mPreviousRefresh != refresh;
        if sizeChanged || densityChanged || refreshChanged {
          calls := calls + [Changed(Args(width, height, densityDpi, refresh))];
          if sizeChanged {
            calls := calls + [Reconfigured(width, height)];
            mPreviousWidth := width;
            mPreviousHeight := height;
          }
          mPreviousDensityDpi := densityDpi;
          mPreviousRefresh := refresh;
        }
      }
    }

    /** The handler runs the oldest entry. */
    method RunPosted(valid: bool, densityDpi: int, refresh: real)
      requires queue != []
      modifies this
      ensures View() == Fire(old(View()), valid, densityDpi, refresh, true)
    {
      var due := queue[0];
      queue := queue[1..];
      ApplySurfaceChanges(valid, due.width, due.height, densityDpi, refresh);
    }
  }
}
