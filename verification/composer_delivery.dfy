/**
 Which vsync events reach the callback: in every interleaving exactly one for each delivering drain, with the
 timestamp of the last vsync event that arrived for its display and was taken since the thread woke up.
 */
module ComposerDelivery {
  import opened Options
  import opened VsyncLoop
  import opened ComposerState
  import opened ComposerMachine
  import opened ComposerInvariants
  import opened ComposerVsync

  /** The history of one receiver: what has arrived, what its thread has taken, and how much at its last wakeup. */
  datatype Receiver = Receiver(arrived: seq<ReceiverEvent>, taken: seq<ReceiverEvent>, woken: nat)

  const UNUSED := Receiver([], [], 0)

  ghost function Receive(s: State, a: Action, ref: Ref, h: Receiver): Receiver
    requires Wf(s.sh) && Enabled(s, a)
  {
    if IsArrivalOf(a, ref) then h.(arrived := h.arrived + [a.event])
    else if !IsLoopOf(a, ref) then h
    else match a.step
      case PollReadable => h.(woken := |h.taken|)
      case GetEvents(n) => h.(taken := h.taken + s.sh.heap[ref].vsync.queue[..n])
      case _ => h
  }

  ghost function ReceiverAfter(s: State, actions: seq<Action>, ref: Ref, h: Receiver): Receiver
    requires Wf(s.sh) && IsRun(s, actions)
    decreases |actions|
  {
    if actions == [] then h
    else
      WfPreserved(s, actions[0]);
      ReceiverAfter(Apply(s, actions[0]), actions[1..], ref, Receive(s, actions[0], ref, h))
  }

  /** Nothing is lost or reordered, and a draining thread has seen what it took since it woke up. */
  ghost predicate ReceiverOk(s: State, ref: Ref, h: Receiver) {
    if ref >= |s.sh.heap| then h == UNUSED
    else
      var t := s.sh.heap[ref].vsync;
      && h.taken + t.queue == h.arrived && h.woken <= |h.taken|
      && (t.pc.Drain? ==> t.pc.seen == ObserveAll(NOTHING, h.taken[h.woken..]))
  }

  /** The thread stands where it stood, with the same queue. */
  ghost predicate SameStand(s: State, t: State, ref: Ref) {
    if ref < |s.sh.heap| then
      ref < |t.sh.heap| && t.sh.heap[ref].vsync == s.sh.heap[ref].vsync.(started := t.sh.heap[ref].vsync.started)
    else
      ref < |t.sh.heap| ==> t.sh.heap[ref].vsync == STARTED
  }

  lemma UiKeepsStand(s: State, a: UiAction, ref: Ref)
    requires Wf(s.sh) && UiEnabled(s, a)
    ensures SameStand(s, UiEffect(s, a), ref)
  {}

  lemma BinderKeepsStand(s: State, tid: nat, a: BinderAction, ref: Ref)
    requires Wf(s.sh) && BinderEnabled(s, tid, a)
    ensures SameStand(s, BinderEffect(s, tid, a), ref)
  {
    BinderDirectory(s, tid, a);
    if ref < |s.sh.heap| {
      BinderLeavesThread(s, tid, a, ref);
    }
  }

  lemma CallbackKeepsStand(s: State, cid: nat, a: CompletionAction, ref: Ref)
    requires CompletionEnabled(s, cid, a)
    ensures SameStand(s, CompletionEffect(s, cid, a), ref)
  {
    CompletionFrame(s, cid, a);
    if ref < |s.sh.heap| {
      assert Settled(CompletionEffect(s, cid, a).sh.heap[ref]) == Settled(s.sh.heap[ref]);
    }
  }

  lemma OthersKeepStand(s: State, a: Action, ref: Ref)
    requires Wf(s.sh) && Enabled(s, a) && !IsLoopOf(a, ref) && !IsArrivalOf(a, ref)
    ensures SameStand(s, Apply(s, a), ref)
  {
    match a
    case UiThread(ui) => UiKeepsStand(s, ui, ref);
    case BinderThread(tid, call) => BinderKeepsStand(s, tid, call, ref);
    case Callback(cid, completion) => CallbackKeepsStand(s, cid, completion, ref);
    case _ =>
  }

  lemma SuffixGrows<T>(a: seq<T>, b: seq<T>, woken: nat)
    requires woken <= |a|
    ensures (a + b)[woken..] == a[woken..] + b
  {}

  lemma MoveOver<T>(a: seq<T>, b: seq<T>, n: nat)
    requires n <= |b|
    ensures (a + b[..n]) + b[n..] == a + b
  {}

  lemma GetKeepsReceiver(h: Receiver, t: Thread, n: nat)
    requires CanStep(t, GetEvents(n)) && h.taken + t.queue == h.arrived && h.woken <= |h.taken|
    requires t.pc.seen == ObserveAll(NOTHING, h.taken[h.woken..])
    ensures var taken, u := h.taken + t.queue[..n], Advance(t, GetEvents(n));
            taken + u.queue == h.arrived && u.pc.seen == ObserveAll(NOTHING, taken[h.woken..])
  {
    ObserveConcat(NOTHING, h.taken[h.woken..], t.queue[..n]);
    SuffixGrows(h.taken, t.queue[..n], h.woken);
    MoveOver(h.taken, t.queue, n);
  }

  lemma LoopKeepsReceiver(s: State, ref: Ref, step: Step, h: Receiver)
    requires Wf(s.sh) && Enabled(s, Loop(ref, step)) && ReceiverOk(s, ref, h)
    ensures ReceiverOk(LoopEffect(s, ref, step), ref, Receive(s, Loop(ref, step), ref, h))
  {
    assert LoopEffect(s, ref, step).sh.heap[ref].vsync == Advance(s.sh.heap[ref].vsync, step);
    match step
    case PollReadable => assert h.taken[|h.taken|..] == [];
    case GetEvents(n) => GetKeepsReceiver(h, s.sh.heap[ref].vsync, n);
    case _ =>
  }

  lemma ReceiveKeepsOk(s: State, a: Action, ref: Ref, h: Receiver)
    requires Wf(s.sh) && Enabled(s, a) && ReceiverOk(s, ref, h)
    ensures ReceiverOk(Apply(s, a), ref, Receive(s, a, ref, h))
  {
    if IsLoopOf(a, ref) {
      LoopKeepsReceiver(s, ref, a.step, h);
    } else if IsArrivalOf(a, ref) {
      assert h.taken + (s.sh.heap[ref].vsync.queue + [a.event]) == h.arrived + [a.event];
    } else {
      OthersKeepStand(s, a, ref);
    }
  }

  lemma {:induction false} RunKeepsReceiver(s: State, actions: seq<Action>, ref: Ref, h: Receiver)
    requires Wf(s.sh) && IsRun(s, actions) && ReceiverOk(s, ref, h)
    ensures ReceiverOk(After(s, actions), ref, ReceiverAfter(s, actions, ref, h))
    decreases |actions|
  {
    if actions != [] {
      WfPreserved(s, actions[0]);
      ReceiveKeepsOk(s, actions[0], ref, h);
      RunKeepsReceiver(Apply(s, actions[0]), actions[1..], ref, Receive(s, actions[0], ref, h));
    }
  }

  /**
   However threads and arrivals interleave, when a vsync thread delivers, the callback hears the timestamp of the
   last vsync event among all that arrived for its display and were taken since it woke up, under the display's
   own id; nothing if there was none, if its timestamp is zero, or without a callback.
   */
  lemma VsyncIsDelivered(actions: seq<Action>, s: State, ref: Ref)
    requires IsRun(INIT, actions) && After(INIT, actions) == s && Enabled(s, Loop(ref, Deliver))
    ensures var h := ReceiverAfter(INIT, actions, ref, UNUSED);
            && h.taken <= h.arrived && h.woken <= |h.taken|
            && var taken := h.taken[h.woken..];
               var k := LastTagged(taken);
               Apply(s, Loop(ref, Deliver)).trace == s.trace +
                 if s.sh.registered && k > 0 && taken[k - 1].timestamp != 0
                 then [Vsync(s.sh.sequenceId, s.sh.heap[ref].id, taken[k - 1].timestamp)]
                 else []
  {
    RunKeepsReceiver(INIT, actions, ref, UNUSED);
    var h := ReceiverAfter(INIT, actions, ref, UNUSED);
    LastVsyncWins(NOTHING, h.taken[h.woken..], LastTagged(h.taken[h.woken..]));
  }

  predicate BufferCalls(a: BinderAction) {
    a.BufferEnter? || a.BufferLookup? || a.BufferImport? || a.BufferCheck? || a.BufferApply?
  }

  ghost predicate NoVsyncAdded(before: seq<Event>, after: seq<Event>) {
    before <= after && forall i :: |before| <= i < |after| ==> !after[i].Vsync?
  }

  lemma UiSendsNoVsync(s: State, a: UiAction)
    requires Wf(s.sh) && TeardownInv(s) && UiEnabled(s, a)
    ensures NoVsyncAdded(s.trace, UiEffect(s, a).trace)
  {
    assert s.ui.Emitting? ==> Announces(s.ui.events[0]);
  }

  lemma BinderSendsNoVsync(s: State, tid: nat, a: BinderAction)
    requires Wf(s.sh) && BinderEnabled(s, tid, a)
    ensures NoVsyncAdded(s.trace, BinderEffect(s, tid, a).trace)
  {
    if BufferCalls(a) {
      BufferFrame(s, tid, a);
    }
  }

  /** And no other action sends a vsync. */
  lemma OnlyDeliverSendsVsync(s: State, a: Action)
    requires Inv(s) && Enabled(s, a) && !(a.Loop? && a.step == Deliver)
    ensures NoVsyncAdded(s.trace, Apply(s, a).trace)
  {
    match a
    case UiThread(ui) => UiSendsNoVsync(s, ui);
    case BinderThread(tid, call) => BinderSendsNoVsync(s, tid, call);
    case Callback(cid, completion) => CompletionFrame(s, cid, completion);
    case _ =>
  }

  /** A drain by batches of the given sizes. */
  function Gets(ref: Ref, ns: seq<nat>): seq<Action> {
    if ns == [] then [] else [Loop(ref, GetEvents(ns[0]))] + Gets(ref, ns[1..])
  }

  lemma {:induction false} GetsDrain(s: State, ref: Ref, ns: seq<nat>)
    requires Wf(s.sh) && ref < |s.sh.heap| && CanGetAll(s.sh.heap[ref].vsync, ns)
    ensures IsRun(s, Gets(ref, ns)) && After(s, Gets(ref, ns)) == WithVsync(s, ref, GetAll(s.sh.heap[ref].vsync, ns))
    decreases |ns|
  {
    if ns == [] {
      assert s.sh.heap[ref := s.sh.heap[ref]] == s.sh.heap;
    } else {
      var a := Loop(ref, GetEvents(ns[0]));
      assert Gets(ref, ns)[1..] == Gets(ref, ns[1..]);
      WfPreserved(s, a);
      GetsDrain(Apply(s, a), ref, ns[1..]);
    }
  }

  lemma DrainSendsLast(s: State, ref: Ref, t: Thread)
    requires Wf(s.sh) && ref < |s.sh.heap| && t.pc.Drain?
    requires s.sh.heap[ref].vsync == t.(pc := Drain(ObserveAll(NOTHING, t.queue)), queue := [])
    ensures var k := LastTagged(t.queue);
            LoopEffect(s, ref, Deliver).trace == s.trace +
              if s.sh.registered && k > 0 && t.queue[k - 1].timestamp != 0
              then [Vsync(s.sh.sequenceId, s.sh.heap[ref].id, t.queue[k - 1].timestamp)]
              else []
  {
    LastVsyncWins(NOTHING, t.queue, LastTagged(t.queue));
  }

  /** The state in which an undisturbed wakeup has emptied the queue, batch by batch. */
  lemma WakeupDrains(s: State, ref: Ref, ns: seq<nat>)
    requires Wf(s.sh) && ref < |s.sh.heap| && s.sh.heap[ref].vsync.pc.Poll?
    requires var woken := s.sh.heap[ref].vsync.(pc := Drain(NOTHING));
             CanGetAll(woken, ns) && GetAll(woken, ns).queue == []
    ensures var run := [Loop(ref, PollReadable)] + Gets(ref, ns);
            IsRun(s, run) && After(s, run) == WithVsync(s, ref,
              Thread(s.sh.heap[ref].vsync.started, Drain(ObserveAll(NOTHING, s.sh.heap[ref].vsync.queue)), []))
  {
    var a := Loop(ref, PollReadable);
    var run := [a] + Gets(ref, ns);
    WfPreserved(s, a);
    var woken := Apply(s, a);
    GetsDrain(woken, ref, ns);
    assert run[0] == a && run[1..] == Gets(ref, ns);
    BatchingIrrelevant(woken.sh.heap[ref].vsync, ns);
  }

  /** One undisturbed wakeup, whatever the batches: exactly the last vsync event of the queue is sent. */
  lemma WakeupSendsLast(s: State, ref: Ref, ns: seq<nat>) returns (drained: State)
    requires Wf(s.sh) && ref < |s.sh.heap| && s.sh.heap[ref].vsync.pc.Poll?
    requires var woken := s.sh.heap[ref].vsync.(pc := Drain(NOTHING));
             CanGetAll(woken, ns) && GetAll(woken, ns).queue == []
    ensures var run := [Loop(ref, PollReadable)] + Gets(ref, ns);
            IsRun(s, run) && After(s, run) == drained && Enabled(drained, Loop(ref, Deliver))
    ensures var queue := s.sh.heap[ref].vsync.queue;
            var k := LastTagged(queue);
            Apply(drained, Loop(ref, Deliver)).trace == s.trace +
              if s.sh.registered && k > 0 && queue[k - 1].timestamp != 0
              then [Vsync(s.sh.sequenceId, s.sh.heap[ref].id, queue[k - 1].timestamp)]
              else []
  {
    WakeupDrains(s, ref, ns);
    drained := After(s, [Loop(ref, PollReadable)] + Gets(ref, ns));
    DrainSendsLast(drained, ref, s.sh.heap[ref].vsync.(pc := Drain(NOTHING)));
  }
}
