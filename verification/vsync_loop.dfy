/**
 The per-display vsync thread: the atomic steps of its loop, the event queue it drains,
 and the argument that it shuts down.
 */
module VsyncLoop {
  import opened Options

  /** One event read from the display event receiver. */
  datatype ReceiverEvent = ReceiverEvent(kind: nat, timestamp: int, count: nat)

  /** The timestamp and count that the draining loop has seen last; zero when none. */
  datatype Latest = Latest(timestamp: int, count: nat)

  const NOTHING := Latest(0, 0)
  const BATCH: nat := 16

  function FourccBe(a: char, b: char, c: char, d: char): nat {
    ((a as int * 256 + b as int) * 256 + c as int) * 256 + d as int
  }

  function FourccLe(a: char, b: char, c: char, d: char): nat {
    FourccBe(d, c, b, a)
  }

  /** The multi-character literal of the source has the big-endian value, so two spellings remain. */
  predicate IsVsync(e: ReceiverEvent) {
    e.kind == FourccBe('v', 's', 'y', 'n') || e.kind == FourccLe('v', 's', 'y', 'n')
  }

  function Observe(seen: Latest, e: ReceiverEvent): Latest {
    if IsVsync(e) then Latest(e.timestamp, e.count) else seen
  }

  function ObserveAll(seen: Latest, events: seq<ReceiverEvent>): Latest
    decreases |events|
  {
    if events == [] then seen else ObserveAll(Observe(seen, events[0]), events[1..])
  }

  /** Where the thread stands between two atomic steps. */
  datatype Pc = Entry | Poll | Drain(seen: Latest) | Request | Relock | Exited

  /** The part of a VsyncThread that changes: the flag guarded by mMutex, the loop, the receiver's queue. */
  datatype Thread = Thread(started: bool, pc: Pc, queue: seq<ReceiverEvent>)

  const STARTED := Thread(true, Entry, [])

  datatype Step =
    | Enter
    | PollInterrupted
    | PollReadable
    | PollIdle
    | GetEvents(n: nat)
    | Deliver
    | RequestNext
    | Reacquire

  /** getEvents returns between one and sixteen queued events; it may also fail, which ends the drain. */
  predicate CanStep(t: Thread, step: Step) {
    match step
    case Enter => t.pc.Entry?
    case PollInterrupted => t.pc.Poll?
    case PollReadable => t.pc.Poll?
    case PollIdle => t.pc.Poll?
    case GetEvents(n) => t.pc.Drain? && 1 <= n <= BATCH && n <= |t.queue|
    case Deliver => t.pc.Drain?
    case RequestNext => t.pc.Request?
    case Reacquire => t.pc.Relock?
  }

  function Advance(t: Thread, step: Step): Thread
    requires CanStep(t, step)
  {
    match step
    case Enter => t.(pc := if t.started then Poll else Exited)
    case PollInterrupted => t.(pc := Relock)
    case PollReadable => t.(pc := Drain(NOTHING))
    case PollIdle => t.(pc := Request)
    case GetEvents(n) => t.(pc := Drain(ObserveAll(t.pc.seen, t.queue[..n])), queue := t.queue[n..])
    case Deliver => t.(pc := Request)
    case RequestNext => t.(pc := Relock)
    case Reacquire => t.(pc := if t.started then Poll else Exited)
  }

  /** What the callback is called with in this step, if it is called. */
  function Called(t: Thread, step: Step): Option<Latest>
    requires CanStep(t, step)
  {
    if step.Deliver? && t.pc.seen.timestamp != 0 then Some(t.pc.seen) else None
  }

  // ---------- draining ----------

  lemma {:induction false} ObserveConcat(seen: Latest, a: seq<ReceiverEvent>, b: seq<ReceiverEvent>)
    ensures ObserveAll(seen, a + b) == ObserveAll(ObserveAll(seen, a), b)
    decreases |a|
  {
    if a == [] {
      assert a + b == b;
    } else {
      assert (a + b)[0] == a[0] && (a + b)[1..] == a[1..] + b;
      ObserveConcat(Observe(seen, a[0]), a[1..], b);
    }
  }

  predicate CanGetAll(t: Thread, ns: seq<nat>)
    decreases |ns|
  {
    ns == [] || (CanStep(t, GetEvents(ns[0])) && CanGetAll(Advance(t, GetEvents(ns[0])), ns[1..]))
  }

  function GetAll(t: Thread, ns: seq<nat>): Thread
    requires CanGetAll(t, ns)
    decreases |ns|
  {
    if ns == [] then t else GetAll(Advance(t, GetEvents(ns[0])), ns[1..])
  }

  /** Draining to an empty queue does not depend on the sizes of the batches the receiver returns. */
  lemma {:induction false} BatchingIrrelevant(t: Thread, ns: seq<nat>)
    requires t.pc.Drain? && CanGetAll(t, ns) && GetAll(t, ns).queue == []
    ensures GetAll(t, ns) == t.(pc := Drain(ObserveAll(t.pc.seen, t.queue)), queue := [])
    decreases |ns|
  {
    if ns != [] {
      ObserveConcat(t.pc.seen, t.queue[..ns[0]], t.queue[ns[0]..]);
      assert t.queue[..ns[0]] + t.queue[ns[0]..] == t.queue;
      BatchingIrrelevant(Advance(t, GetEvents(ns[0])), ns[1..]);
    }
  }

  /** The two numbers that the platform may put into the tag of a vsync event: the letters vsyn in either order. */
  const TAGS: set<nat> := {0x7673_796e, 0x6e79_7376}

  /** The drained result is the last vsync event of the whole sequence, and nothing when there is none. */
  lemma {:induction false} LastVsyncWins(seen: Latest, events: seq<ReceiverEvent>, k: nat)
    requires k <= |events|
    requires forall i :: k <= i < |events| ==> events[i].kind !in TAGS
    requires k == 0 || events[k - 1].kind in TAGS
    ensures ObserveAll(seen, events)
         == if k == 0 then seen else Latest(events[k - 1].timestamp, events[k - 1].count)
    decreases |events|
  {
    if events == [] {
    } else if k == 0 {
      LastVsyncWins(seen, events[1..], 0);
    } else if k == 1 {
      LastVsyncWins(Observe(seen, events[0]), events[1..], 0);
    } else {
      LastVsyncWins(Observe(seen, events[0]), events[1..], k - 1);
    }
  }

  /** Where the last vsync event of a sequence ends, or zero when there is none. */
  function LastTagged(events: seq<ReceiverEvent>): (k: nat)
    ensures k <= |events| && (k == 0 || events[k - 1].kind in TAGS)
    ensures forall i :: k <= i < |events| ==> events[i].kind !in TAGS
  {
    if events == [] || events[|events| - 1].kind in TAGS then |events|
    else LastTagged(events[..|events| - 1])
  }

  // ---------- shutdown ----------

  /** How many more times a stopped thread may still call back. */
  function Credit(t: Thread): nat {
    if t.pc.Poll? || t.pc.Drain? then 1 else 0
  }

  /** An upper bound on the steps a stopped thread still takes when no further event arrives. */
  function Rank(t: Thread): nat {
    match t.pc
    case Entry => 1
    case Poll => |t.queue| + 4
    case Drain(_) => |t.queue| + 3
    case Request => 2
    case Relock => 1
    case Exited => 0
  }

  lemma StoppedStep(t: Thread, step: Step)
    requires !t.started && CanStep(t, step)
    ensures !Advance(t, step).started
    ensures Rank(Advance(t, step)) < Rank(t)
    ensures Credit(Advance(t, step)) + (if Called(t, step).Some? then 1 else 0) <= Credit(t)
  {}

  /** A thread that has not exited can always take a step of its own, whoever holds the composer's lock. */
  lemma NeverBlocked(t: Thread) returns (step: Step)
    ensures !t.pc.Exited? ==> CanStep(t, step)
  {
    step := match t.pc
      case Entry => Enter
      case Poll => PollIdle
      case Drain(_) => Deliver
      case Request => RequestNext
      case Relock => Reacquire
      case Exited => Enter;
  }

  /** The callbacks of a drain that ends having seen this last. */
  function Reported(seen: Latest): seq<Latest> {
    if seen.timestamp != 0 then [seen] else []
  }

  /** What a stopped thread still calls back with, for the way its last poll ends, if there is one. */
  function LateCalls(t: Thread, interrupted: bool, readable: bool): seq<Latest> {
    if t.pc.Drain? then Reported(ObserveAll(t.pc.seen, t.queue))
    else if t.pc.Poll? && !interrupted && readable then Reported(ObserveAll(NOTHING, t.queue))
    else []
  }

  /** A stopped thread that still wakes up reports the last vsync event queued, if it has a timestamp. */
  lemma LateCallIsTheLast(t: Thread, interrupted: bool, readable: bool)
    ensures var k := LastTagged(t.queue);
            && (t.pc.Poll? ==>
                  LateCalls(t, interrupted, readable) ==
                  if interrupted || !readable || k == 0 || t.queue[k - 1].timestamp == 0 then []
                  else [Latest(t.queue[k - 1].timestamp, t.queue[k - 1].count)])
            && (t.pc.Drain? && k > 0 ==>
                  LateCalls(t, interrupted, readable) ==
                  if t.queue[k - 1].timestamp == 0 then []
                  else [Latest(t.queue[k - 1].timestamp, t.queue[k - 1].count)])
            && (!t.pc.Poll? && !t.pc.Drain? ==> LateCalls(t, interrupted, readable) == [])
  {
    LastVsyncWins(if t.pc.Drain? then t.pc.seen else NOTHING, t.queue, LastTagged(t.queue));
  }

  // ---------- the object ----------

  /** The thread and its receiver as one object; the callback only records what it was called with. */
  class VsyncThread {
    var mStarted: bool
    var pc: Pc
    var queue: seq<ReceiverEvent>
    ghost var calls: seq<Latest>
    ghost const ref: nat           // the number of the display object it belongs to

    ghost function View(): Thread
      reads this
    {
      Thread(mStarted, pc, queue)
    }

    constructor (ghost ref: nat)
      ensures View() == Thread(false, Exited, []) && calls == [] && this.ref == ref
    {
      this.ref := ref;
      mStarted, pc, queue, calls := false, Exited, [], [];
    }

    method Start()
      modifies this
      ensures View() == Thread(true, Entry, old(queue)) && calls == old(calls)
    {
      mStarted := true;
      pc := Entry;
    }

    /** getEvents: how many events one call returns is the receiver's choice. */
    method GetEvents() returns (events: seq<ReceiverEvent>)
      modifies this`queue
      ensures events + queue == old(queue)
      ensures |events| <= BATCH
      ensures events == [] <==> old(queue) == []
    {
      var n := 0;
      if queue != [] {
        n :| 1 <= n <= BATCH && n <= |queue| by {
          assert 1 <= 1 <= BATCH && 1 <= |queue|;
        }
      }
      events, queue := queue[..n], queue[n..];
    }

    /**
     The readable branch of one wakeup, from where `before` has been seen: drain the queue batch by batch, then
     call back at most once, with the last vsync event of everything, unless its timestamp is zero.
     */
    method DrainAndCall(before: Latest)
      modifies this`queue, this`calls
      ensures queue == []
      ensures var seen := ObserveAll(before, old(queue));
              calls == old(calls) + (if seen.timestamp != 0 then [seen] else [])
    {
      var lastTs, lastCount := before.timestamp, before.count;
      ghost var all := queue;
      ghost var done: seq<ReceiverEvent> := [];
      while true
        invariant done + queue == all
        invariant Latest(lastTs, lastCount) == ObserveAll(before, done)
        invariant calls == old(calls)
        decreases |queue|
      {
        var events := GetEvents();
        if |events| == 0 {
          assert done == all;
          break;
        }
        ghost var sofar := Latest(lastTs, lastCount);
        var i := 0;
        while i < |events|
          modifies {}
          invariant 0 <= i <= |events|
          invariant Latest(lastTs, lastCount) == ObserveAll(sofar, events[..i])
        {
          assert events[..i + 1] == events[..i] + [events[i]];
          ObserveConcat(sofar, events[..i], [events[i]]);
          if IsVsync(events[i]) {
            lastTs, lastCount := events[i].timestamp, events[i].count;
          }
          i := i + 1;
        }
        assert events[..i] == events;
        ObserveConcat(before, done, events);
        done := done + events;
      }
      if lastTs != 0 {
        calls := calls + [Latest(lastTs, lastCount)];
      }
    }

    /**
     One turn of the loop for a given poll result, from after the flag check to the next flag check.
     A stopped thread exits at that check.
     */
    method Turn(interrupted: bool, readable: bool)
      requires pc.Poll?
      modifies this
      ensures mStarted == old(mStarted)
      ensures pc == if mStarted then Poll else Exited
      ensures queue == if !interrupted && readable then [] else old(queue)
      ensures var seen := ObserveAll(NOTHING, old(queue));
              calls == old(calls) + (if !interrupted && readable && seen.timestamp != 0 then [seen] else [])
    {
      if interrupted {
        pc := Relock;
      } else {
        if readable {
          DrainAndCall(NOTHING);
        }
        pc := Request;
        pc := Relock;
      }
      pc := if mStarted then Poll else Exited;
    }

    /**
     stop: clear the flag, then let the loop run on from wherever it is until it exits. The join returns after
     at most one more callback, the late one, with what the rest of the drain sees last; there is none when the
     loop is past its drain or has not been entered.
     */
    method Stop(interrupted: bool, readable: bool) returns (ghost late: seq<Latest>)
      modifies this
      ensures !mStarted && pc.Exited?
      ensures calls == old(calls) + late && |late| <= Credit(old(View()))
      ensures late == LateCalls(old(View()), interrupted, readable)
    {
      mStarted := false;
      late := [];
      if pc.Poll? {
        Turn(interrupted, readable);
        late := calls[|old(calls)|..];
      } else if pc.Drain? {
        DrainAndCall(pc.seen);
        late := calls[|old(calls)|..];
      }
      pc := Exited;
    }
  }
}
