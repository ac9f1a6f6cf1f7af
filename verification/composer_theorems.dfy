/** What the invariants mean to a caller of the composer, in every reachable state. */
module ComposerTheorems {
  import opened Options
  import opened ComposerState
  import opened ComposerMachine
  import opened ComposerInvariants

  ghost predicate Plugged(sh: Shared, id: DisplayId)
    requires Wf(sh)
  {
    id in sh.displays && sh.heap[sh.displays[id]].plugged
  }

  /** Width, height and period are those of the configuration. */
  predicate Matches(m: Mode, c: Config) {
    m.width == c.width && m.height == c.height && m.vsyncPeriod == c.vsyncPeriod
  }

  /** No announcement is on its way and the observer has answered every one it got. */
  ghost predicate Quiet(s: State) {
    && !s.ui.Emitting? && s.due == {}
    && forall tid :: tid in s.binders && s.binders[tid].Announcing? ==> s.binders[tid].ids == {}
  }

  /**
   Once nothing is in flight, an observer that hears what all listeners hear, in one merged trace, knows the
   current width, height and period of every plugged display; for a single listener see ComposerListeners.
   */
  lemma ObserverIsCurrent(s: State, id: DisplayId)
    requires Reachable(s) && Wf(s.sh) && Quiet(s) && Plugged(s.sh, id)
    ensures id in s.seen && Matches(s.seen[id], s.sh.heap[s.sh.displays[id]].config)
  {
    ReachableInv(s);
    if other :| AnnouncedBy(s, id, other) {
      assert false;
    }
  }

  /** A display with a window is plugged as soon as a callback is registered. */
  lemma WindowImpliesPlugged(s: State, id: DisplayId)
    requires Reachable(s) && Wf(s.sh) && id in s.sh.displays
    requires s.sh.registered && s.sh.heap[s.sh.displays[id]].window.Some?
    ensures Plugged(s.sh, id)
  {
    ReachableInv(s);
    assert PlugOk(s.sh, s.sh.displays[id]);
  }

  /**
   Whatever binder calls ran in the unlocked middle of onDisplayDestroyed, the entry it erases is the
   object it tore down, still without window and control, unplugged, and with its thread gone;
   and erasing it leaves every other entry in place.
   */
  lemma EraseHitsTheTornDownEntry(s: State)
    requires Reachable(s) && s.ui.Erasing?
    ensures Wf(s.sh)
    ensures UiEnabled(s, DestroyErase) && TornDown(s.sh, s.ui.id, s.ui.ref) && s.sh.heap[s.ui.ref].vsync.pc.Exited?
    ensures UiEffect(s, DestroyErase).sh.displays == s.sh.displays - {s.ui.id}
    ensures forall id :: id in s.sh.displays && s.sh.displays[id] == s.ui.ref ==> id == s.ui.id
  {
    ReachableInv(s);
  }

  /** The live controls are exactly those held by mapped displays, and none was ever released twice. */
  lemma LiveControlsAreHeld(s: State)
    requires Reachable(s)
    ensures Wf(s.sh) && !s.sh.controls.misuse
    ensures forall c :: c in s.sh.controls.live <==>
              exists id :: id in s.sh.displays && s.sh.heap[s.sh.displays[id]].control == Some(c)
    ensures forall id, other :: id in s.sh.displays && other in s.sh.displays && id != other ==>
              var c := s.sh.heap[s.sh.displays[id]].control;
              c.Some? ==> c != s.sh.heap[s.sh.displays[other]].control
    ensures forall id :: id in s.sh.displays ==>
              var d := s.sh.heap[s.sh.displays[id]];
              d.control.Some? ==> d.window == Some(s.sh.controls.live[d.control.value].window)
  {
    ReachableInv(s);
    forall id | id in s.sh.displays ensures HoldsControl(s.sh, s.sh.displays[id]) {}
    forall c | c in s.sh.controls.live
      ensures exists id :: id in s.sh.displays && s.sh.heap[s.sh.displays[id]].control == Some(c)
    {
      var r := s.sh.controls.live[c].ref;
      assert HoldsControl(s.sh, r);
      assert s.sh.heap[r].id in s.sh.displays && s.sh.displays[s.sh.heap[r].id] == r;
    }
  }

  /**
   The second section of setBuffer applies exactly one transaction if the display mapped to its id at that
   moment holds a control, and none otherwise. The transaction addresses that control, which is live and made
   from the display's window, even when the display found by the first section has been recreated since.
   */
  lemma TransactionsHitLiveControls(s: State, tid: nat)
    requires Reachable(s) && BinderEnabled(s, tid, BufferApply)
    ensures Wf(s.sh)
    ensures var id := s.binders[tid].id;
            var target := if id in s.sh.displays then s.sh.heap[s.sh.displays[id]].control else None;
            && BinderEffect(s, tid, BufferApply).applied
               == s.applied + (if target.Some? then [Transaction(id, s.sh.displays[id], target.value)] else [])
            && (target.Some? ==>
                && target.value in s.sh.controls.live
                && s.sh.heap[s.sh.displays[id]].window.Some?
                && s.sh.controls.live[target.value]
                   == Owner(s.sh.displays[id], s.sh.heap[s.sh.displays[id]].window.value))
  {
    ReachableInv(s);
    var id := s.binders[tid].id;
    assert id in s.sh.displays ==> HoldsControl(s.sh, s.sh.displays[id]);
  }
}
