/**
 The log-fetching threads of the containers: one thread calls start and stop, every container's log
 thread polls, appends and removes its own map entry, and anybody may clear or read a buffer.
 An action is one access to a shared map or buffer; every interleaving of enabled actions is a run.
 */
module ContainerLogs {
  import opened Options

  /** Where a log thread is in its loop. */
  datatype Pc =
    | Created                  // not started yet
    | Check                    // about to read the flag
    | Fetch                    // in fetchLogs
    | Append(chunk: string)    // holding a chunk that is not blank
    | Sleep
    | Leaving                  // out of the loop, about to remove its entry
    | Dead

  datatype LogThread = LogThread(container: string, pc: Pc)

  /** `fetched` lists every chunk kept for this container, `dropped` how many of them were cleared away. */
  datatype Log = Log(text: string, fetched: seq<string>, dropped: int)

  /** The thread that calls start and stop. */
  datatype Caller =
    | Free
    | Starting(container: string)              // saw no entry
    | Flagged(container: string)               // raised the flag
    | Buffered(container: string)              // the buffer exists
    | Launching(container: string, t: nat)     // put the thread into the map
    | Stopping(container: string)              // saw an entry
    | Lowered(container: string)               // lowered the flag
    | Joining(container: string, t: nat)
    | Forgetting(container: string)            // about to remove the entry

  datatype State = State(
    threads: seq<LogThread>,
    logThreads: map<string, nat>,
    running: map<string, bool>,
    logs: map<string, Log>,
    caller: Caller)

  const BOOT := State([], map[], map[], map[], Free)

  datatype CallerStep =
    | BeginStart(container: string) | RaiseFlag | PutBuffer | CreateThread | Launch
    | BeginStop(container: string) | LowerFlag | GetThread | Joined | JoinInterrupted | Forget

  datatype ThreadStep = ReadFlag | Fetched(result: Option<string>) | FetchFailed | Store | Wake | Leave

  datatype Action =
    | Call(step: CallerStep)
    | Run(t: nat, work: ThreadStep)
    | Clear(container: string)

  /** logs.trim().isEmpty() */
  predicate Blank(chunk: string) {
    forall i :: 0 <= i < |chunk| ==> chunk[i] <= ' '
  }

  // ---------- the steps ----------

  predicate CallerEnabled(s: State, step: CallerStep) {
    match step
    case BeginStart(_) => s.caller.Free?
    case RaiseFlag => s.caller.Starting?
    case PutBuffer => s.caller.Flagged?
    case CreateThread => s.caller.Buffered?
    case Launch => s.caller.Launching? && s.caller.t < |s.threads|
    case BeginStop(_) => s.caller.Free?
    case LowerFlag => s.caller.Stopping?
    case GetThread => s.caller.Lowered?
    case Joined => s.caller.Joining? && s.caller.t < |s.threads| && s.threads[s.caller.t].pc.Dead?
    case JoinInterrupted => s.caller.Joining?
    case Forget => s.caller.Forgetting?
  }

  predicate ThreadEnabled(s: State, t: nat, work: ThreadStep) {
    && t < |s.threads|
    && var pc := s.threads[t].pc;
       match work
       case ReadFlag => pc.Check?
       case Fetched(_) => pc.Fetch?
       case FetchFailed => pc.Fetch?
       case Store => pc.Append? && s.threads[t].container in s.logs
       case Wake => pc.Sleep?
       case Leave => pc.Leaving?
  }

  predicate Enabled(s: State, a: Action) {
    match a
    case Call(step) => CallerEnabled(s, step)
    case Run(t, work) => ThreadEnabled(s, t, work)
    case Clear(_) => true
  }

  function AtPc(s: State, t: nat, pc: Pc): State
    requires t < |s.threads|
  {
    s.(threads := s.threads[t := s.threads[t].(pc := pc)])
  }

  function CallerEffect(s: State, step: CallerStep): State
    requires CallerEnabled(s, step)
  {
    match step
    case BeginStart(c) => if c in s.logThreads then s else s.(caller := Starting(c))
    case RaiseFlag =>
      var c := s.caller.container;
      s.(running := s.running[c := true], caller := Flagged(c))
    case PutBuffer =>
      var c := s.caller.container;
      s.(logs := if c in s.logs then s.logs else s.logs[c := Log("", [], 0)], caller := Buffered(c))
    case CreateThread =>
      var c := s.caller.container;
      s.(threads := s.threads + [LogThread(c, Created)],
         logThreads := s.logThreads[c := |s.threads|],
         caller := Launching(c, |s.threads|))
    case Launch => AtPc(s, s.caller.t, Check).(caller := Free)
    case BeginStop(c) => if c in s.logThreads then s.(caller := Stopping(c)) else s
    case LowerFlag =>
      var c := s.caller.container;
      s.(running := s.running[c := false], caller := Lowered(c))
    case GetThread =>
      var c := s.caller.container;
      s.(caller := if c in s.logThreads then Joining(c, s.logThreads[c]) else Forgetting(c))
    case Joined => s.(caller := Forgetting(s.caller.container))
    case JoinInterrupted => s.(caller := Forgetting(s.caller.container))
    case Forget => s.(logThreads := s.logThreads - {s.caller.container}, caller := Free)
  }

  /** A chunk that is neither null nor blank is on its way to the buffer. */
  function FetchEffect(s: State, t: nat, result: Option<string>): State
    requires t < |s.threads|
  {
    var c := s.threads[t].container;
    if result.None? || Blank(result.value) then AtPc(s, t, Sleep)
    else
      AtPc(s, t, Append(result.value))
        .(logs := if c !in s.logs then s.logs
                  else s.logs[c := s.logs[c].(fetched := s.logs[c].fetched + [result.value])])
  }

  function ThreadEffect(s: State, t: nat, work: ThreadStep): State
    requires ThreadEnabled(s, t, work)
  {
    var c := s.threads[t].container;
    match work
    case ReadFlag => AtPc(s, t, if c in s.running && s.running[c] then Fetch else Leaving)
    case Fetched(result) => FetchEffect(s, t, result)
    case FetchFailed => AtPc(s, t, Check)
    case Store =>
      AtPc(s, t, Sleep).(logs := s.logs[c := s.logs[c].(text := s.logs[c].text + s.threads[t].pc.chunk + "\n")])
    case Wake => AtPc(s, t, Check)
    case Leave => AtPc(s, t, Dead).(logThreads := s.logThreads - {c})
  }

  /** Whether a chunk of this container is held by its thread but not in the buffer yet. */
  predicate InFlight(s: State, c: string) {
    c in s.logThreads && s.logThreads[c] < |s.threads| && s.threads[s.logThreads[c]].pc.Append?
  }

  /** How many of the fetched chunks have reached the buffer. */
  function Stored(s: State, c: string): int
    requires c in s.logs
  {
    |s.logs[c].fetched| - (if InFlight(s, c) then 1 else 0)
  }

  function ClearEffect(s: State, c: string): State {
    if c in s.logs then s.(logs := s.logs[c := s.logs[c].(text := "", dropped := Stored(s, c))]) else s
  }

  function Apply(s: State, a: Action): State
    requires Enabled(s, a)
  {
    match a
    case Call(step) => CallerEffect(s, step)
    case Run(t, work) => ThreadEffect(s, t, work)
    case Clear(c) => ClearEffect(s, c)
  }

  // ---------- the invariant ----------

  function Render(chunks: seq<string>): string {
    if chunks == [] then "" else Render(chunks[..|chunks| - 1]) + chunks[|chunks| - 1] + "\n"
  }

  /** An entry leads to a thread of its container that is not dead. */
  ghost predicate EntryOk(s: State, c: string)
    requires c in s.logThreads
  {
    && s.logThreads[c] < |s.threads|
    && s.threads[s.logThreads[c]].container == c && !s.threads[s.logThreads[c]].pc.Dead?
  }

  /** A thread that is not dead has its container's entry; one that is not started is about to be. */
  ghost predicate ThreadOk(s: State, t: nat)
    requires t < |s.threads|
  {
    var c := s.threads[t].container;
    && (!s.threads[t].pc.Dead? ==> c in s.logThreads && s.logThreads[c] == t)
    && (s.threads[t].pc.Created? ==> s.caller == Launching(c, t))
  }

  ghost predicate MapOk(s: State) {
    && (forall c :: c in s.logThreads ==> EntryOk(s, c))
    && (forall t :: 0 <= t < |s.threads| ==> ThreadOk(s, t))
  }

  ghost predicate CallerOk(s: State) {
    match s.caller
    case Free => true
    case Starting(c) => c !in s.logThreads
    case Flagged(c) => c !in s.logThreads
    case Buffered(c) => c !in s.logThreads && c in s.logs
    case Launching(c, t) => c in s.logThreads && s.logThreads[c] == t && t < |s.threads| && s.threads[t].pc.Created?
    case Stopping(c) => true
    case Lowered(c) => c in s.running && !s.running[c]
    case Joining(c, t) =>
      && t < |s.threads| && s.threads[t].container == c && c in s.running && !s.running[c]
      && (c in s.logThreads ==> s.logThreads[c] == t)
    case Forgetting(c) => c !in s.logThreads
  }

  /** A buffer shows the chunks stored since it was last cleared; the one in flight was fetched last. */
  ghost predicate LogOk(s: State, c: string)
    requires c in s.logs
  {
    var log := s.logs[c];
    && 0 <= log.dropped <= Stored(s, c)
    && log.text == Render(log.fetched[log.dropped..Stored(s, c)])
    && (forall chunk :: chunk in log.fetched ==> !Blank(chunk))
    && (InFlight(s, c) ==> log.fetched != [] && s.threads[s.logThreads[c]].pc.chunk == log.fetched[|log.fetched| - 1])
  }

  ghost predicate LogsOk(s: State) {
    && (forall c :: c in s.logThreads ==> c in s.logs)
    && (forall c :: c in s.logs ==> LogOk(s, c))
  }

  ghost predicate Inv(s: State) {
    MapOk(s) && CallerOk(s) && LogsOk(s)
  }

  lemma CallerKeepsMap(s: State, step: CallerStep)
    requires MapOk(s) && CallerOk(s) && CallerEnabled(s, step) && !step.JoinInterrupted?
    ensures MapOk(CallerEffect(s, step)) && CallerOk(CallerEffect(s, step))
  {
    var u := CallerEffect(s, step);
    forall c | c in u.logThreads ensures EntryOk(u, c) {
      if c in s.logThreads {
        assert EntryOk(s, c);
      }
    }
    forall t | 0 <= t < |u.threads| ensures ThreadOk(u, t) {
      if t < |s.threads| {
        assert ThreadOk(s, t);
      }
    }
    if step.GetThread? && s.caller.container in s.logThreads {
      assert EntryOk(s, s.caller.container);
    }
  }

  /** What is said about a buffer only depends on the log and on the chunk in flight. */
  lemma LogFrame(s: State, u: State, c: string)
    requires c in s.logs && LogOk(s, c) && c in u.logs && u.logs[c] == s.logs[c]
    requires InFlight(u, c) == InFlight(s, c)
    requires InFlight(s, c) ==> u.threads[u.logThreads[c]].pc == s.threads[s.logThreads[c]].pc
    ensures LogOk(u, c)
  {}

  lemma CallerKeepsLogs(s: State, step: CallerStep)
    requires Inv(s) && CallerEnabled(s, step) && !step.JoinInterrupted?
    ensures LogsOk(CallerEffect(s, step))
  {
    var u := CallerEffect(s, step);
    forall c | c in u.logs ensures LogOk(u, c) {
      assert c in s.logThreads ==> EntryOk(s, c);
      if c in s.logs {
        assert LogOk(s, c);
        LogFrame(s, u, c);
      }
    }
  }

  /** A step inside the loop leaves the map alone. */
  lemma MoveKeepsMap(s: State, t: nat, u: State)
    requires Inv(s) && t < |s.threads| && |u.threads| == |s.threads|
    requires u == s.(threads := s.threads[t := u.threads[t]], logs := u.logs)
    requires u.threads[t].container == s.threads[t].container && s.logs.Keys <= u.logs.Keys
    requires !s.threads[t].pc.Dead? && !s.threads[t].pc.Created? && !u.threads[t].pc.Dead? && !u.threads[t].pc.Created?
    ensures MapOk(u) && CallerOk(u)
  {
    forall c | c in u.logThreads ensures EntryOk(u, c) {
      assert EntryOk(s, c);
    }
    forall v | 0 <= v < |u.threads| ensures ThreadOk(u, v) {
      assert ThreadOk(s, v);
    }
  }

  lemma LeaveKeepsMap(s: State, t: nat)
    requires Inv(s) && ThreadEnabled(s, t, Leave)
    ensures MapOk(ThreadEffect(s, t, Leave)) && CallerOk(ThreadEffect(s, t, Leave))
  {
    var u := ThreadEffect(s, t, Leave);
    assert ThreadOk(s, t);
    forall c | c in u.logThreads ensures EntryOk(u, c) {
      assert EntryOk(s, c);
    }
    forall v | 0 <= v < |u.threads| ensures ThreadOk(u, v) {
      assert ThreadOk(s, v);
    }
  }

  lemma ThreadKeepsMap(s: State, t: nat, work: ThreadStep)
    requires Inv(s) && ThreadEnabled(s, t, work)
    ensures MapOk(ThreadEffect(s, t, work)) && CallerOk(ThreadEffect(s, t, work))
  {
    if work.Leave? {
      LeaveKeepsMap(s, t);
    } else {
      MoveKeepsMap(s, t, ThreadEffect(s, t, work));
    }
  }

  lemma RenderMore(chunks: seq<string>, chunk: string)
    ensures Render(chunks + [chunk]) == Render(chunks) + chunk + "\n"
  {}

  lemma StoreKeepsLog(s: State, t: nat)
    requires ThreadEnabled(s, t, Store) && ThreadOk(s, t) && LogOk(s, s.threads[t].container)
    ensures LogOk(ThreadEffect(s, t, Store), s.threads[t].container)
  {
    var c := s.threads[t].container;
    var log, n := s.logs[c], Stored(s, c);
    assert log.fetched[log.dropped..n + 1] == log.fetched[log.dropped..n] + [log.fetched[n]];
    RenderMore(log.fetched[log.dropped..n], log.fetched[n]);
  }

  lemma FetchKeepsLog(s: State, t: nat, result: Option<string>)
    requires ThreadEnabled(s, t, Fetched(result)) && ThreadOk(s, t)
    requires s.threads[t].container in s.logs && LogOk(s, s.threads[t].container)
    ensures var u := ThreadEffect(s, t, Fetched(result));
            s.threads[t].container in u.logs && LogOk(u, s.threads[t].container)
  {
    var c := s.threads[t].container;
    var u := ThreadEffect(s, t, Fetched(result));
    if result.None? || Blank(result.value) {
      LogFrame(s, u, c);
    } else {
      var log, n := s.logs[c], Stored(s, c);
      assert u.logs[c].fetched[log.dropped..n] == log.fetched[log.dropped..n];
      assert Stored(u, c) == n;
    }
  }

  /** Any other step, and any other container: neither the log nor a chunk in flight changes. */
  lemma OtherLogsKept(s: State, t: nat, work: ThreadStep, c: string)
    requires Inv(s) && ThreadEnabled(s, t, work) && c in s.logs
    requires c != s.threads[t].container || (!work.Store? && !work.Fetched?)
    ensures c in ThreadEffect(s, t, work).logs && LogOk(ThreadEffect(s, t, work), c)
  {
    assert ThreadOk(s, t) && LogOk(s, c);
    assert c in s.logThreads ==> EntryOk(s, c);
    LogFrame(s, ThreadEffect(s, t, work), c);
  }

  lemma ThreadKeepsLogs(s: State, t: nat, work: ThreadStep)
    requires Inv(s) && ThreadEnabled(s, t, work)
    ensures LogsOk(ThreadEffect(s, t, work))
  {
    var u := ThreadEffect(s, t, work);
    assert u.logThreads.Keys <= s.logThreads.Keys && s.logs.Keys == u.logs.Keys;
    assert ThreadOk(s, t) && LogOk(s, s.threads[t].container);
    forall c | c in u.logs ensures LogOk(u, c) {
      if c == s.threads[t].container && work.Store? {
        StoreKeepsLog(s, t);
      } else if c == s.threads[t].container && work.Fetched? {
        FetchKeepsLog(s, t, work.result);
      } else {
        OtherLogsKept(s, t, work, c);
      }
    }
  }

  lemma ClearKeepsInv(s: State, c: string)
    requires Inv(s)
    ensures Inv(ClearEffect(s, c))
  {
    var u := ClearEffect(s, c);
    assert MapOk(u) by {
      forall other | other in u.logThreads ensures EntryOk(u, other) {
        assert EntryOk(s, other);
      }
      forall t | 0 <= t < |u.threads| ensures ThreadOk(u, t) {
        assert ThreadOk(s, t);
      }
    }
    forall other | other in u.logs ensures LogOk(u, other) {
      assert LogOk(s, other);
      if other != c {
        LogFrame(s, u, other);
      }
    }
  }

  predicate Live(s: State, t: nat) {
    t < |s.threads| && !s.threads[t].pc.Dead?
  }

  /** A join given up while the thread it waits for is still alive. */
  predicate Harmful(s: State, a: Action) {
    a == Call(JoinInterrupted) && s.caller.Joining? && Live(s, s.caller.t)
  }

  /** An interruption that comes when the thread is dead is like the join returning; before that it breaks the books. */
  lemma InterruptKeepsInv(s: State)
    requires Inv(s) && CallerEnabled(s, JoinInterrupted)
    ensures Inv(CallerEffect(s, JoinInterrupted)) <==> !Live(s, s.caller.t)
  {
    var u := CallerEffect(s, JoinInterrupted);
    if Live(s, s.caller.t) {
      assert ThreadOk(s, s.caller.t);
      assert !CallerOk(u);
    } else {
      assert u == CallerEffect(s, Joined);
      CallerKeepsMap(s, Joined);
      CallerKeepsLogs(s, Joined);
    }
  }

  /** Every step keeps the invariant, exactly unless it gives up a join while the thread is alive. */
  lemma StepKeepsInv(s: State, a: Action)
    requires Inv(s) && Enabled(s, a)
    ensures Inv(Apply(s, a)) <==> !Harmful(s, a)
  {
    match a
    case Call(step) =>
      if step.JoinInterrupted? {
        InterruptKeepsInv(s);
      } else {
        CallerKeepsMap(s, step);
        CallerKeepsLogs(s, step);
      }
    case Run(t, work) =>
      ThreadKeepsMap(s, t, work);
      ThreadKeepsLogs(s, t, work);
    case Clear(c) => ClearKeepsInv(s, c);
  }

  // ---------- runs ----------

  ghost predicate IsRun(s: State, actions: seq<Action>)
    decreases |actions|
  {
    actions == [] || (Enabled(s, actions[0]) && IsRun(Apply(s, actions[0]), actions[1..]))
  }

  ghost function After(s: State, actions: seq<Action>): State
    requires IsRun(s, actions)
    decreases |actions|
  {
    if actions == [] then s else After(Apply(s, actions[0]), actions[1..])
  }

  /** No join in the run is given up while its thread is alive. */
  ghost predicate Unharmed(s: State, actions: seq<Action>)
    requires IsRun(s, actions)
    decreases |actions|
  {
    actions == [] || (!Harmful(s, actions[0]) && Unharmed(Apply(s, actions[0]), actions[1..]))
  }

  lemma {:induction false} RunKeepsInv(s: State, actions: seq<Action>)
    requires Inv(s) && IsRun(s, actions) && Unharmed(s, actions)
    ensures Inv(After(s, actions))
    decreases |actions|
  {
    if actions != [] {
      StepKeepsInv(s, actions[0]);
      RunKeepsInv(Apply(s, actions[0]), actions[1..]);
    }
  }

  /** Reached by a run in which every interruption of a join was harmless. */
  ghost predicate Reachable(s: State) {
    exists actions :: IsRun(BOOT, actions) && Unharmed(BOOT, actions) && After(BOOT, actions) == s
  }

  lemma ReachableInv(s: State)
    requires Reachable(s)
    ensures Inv(s)
  {
    var actions :| IsRun(BOOT, actions) && Unharmed(BOOT, actions) && After(BOOT, actions) == s;
    RunKeepsInv(BOOT, actions);
  }

  /** However threads interleave, a container never has two log threads. */
  lemma OneLiveThread(s: State, t: nat, u: nat)
    requires Reachable(s) && Live(s, t) && Live(s, u) && s.threads[t].container == s.threads[u].container
    ensures t == u
  {
    ReachableInv(s);
    assert ThreadOk(s, t) && ThreadOk(s, u);
  }

  /** The entry a log thread removes is its own, and every other live thread keeps its entry. */
  lemma LeavingRemovesItsOwnEntry(s: State, t: nat)
    requires Reachable(s) && ThreadEnabled(s, t, Leave)
    ensures var c := s.threads[t].container;
            && c in s.logThreads && s.logThreads[c] == t
            && forall u: nat :: Live(s, u) && u != t ==>
                 var map' := ThreadEffect(s, t, Leave).logThreads;
                 s.threads[u].container in map' && map'[s.threads[u].container] == u
  {
    ReachableInv(s);
    assert ThreadOk(s, t);
    forall u: nat | Live(s, u) ensures ThreadOk(s, u) {}
  }

  /** When stop forgets the container none of its threads is left, so nothing live loses its entry. */
  lemma StopLeavesNoThread(s: State, t: nat)
    requires Reachable(s) && CallerEnabled(s, Forget) && Live(s, t)
    ensures s.threads[t].container != s.caller.container
    ensures CallerEffect(s, Forget).logThreads == s.logThreads
  {
    ReachableInv(s);
    assert ThreadOk(s, t);
  }

  // ---------- what a buffer shows ----------

  /** Java's trim: what is left without leading and trailing characters up to the space. */
  function Trimmed(text: string): string {
    if text == "" then ""
    else if text[0] <= ' ' then Trimmed(text[1..])
    else if text[|text| - 1] <= ' ' then Trimmed(text[..|text| - 1])
    else text
  }

  lemma {:induction false} BlankIsTrimmedAway(text: string)
    ensures Blank(text) <==> Trimmed(text) == ""
    decreases |text|
  {
    if text != "" {
      if text[0] <= ' ' {
        BlankIsTrimmedAway(text[1..]);
        assert forall i :: 0 < i < |text| ==> text[i] == text[1..][i - 1];
      } else if text[|text| - 1] <= ' ' {
        BlankIsTrimmedAway(text[..|text| - 1]);
        assert text[..|text| - 1][0] == text[0];
      }
    }
  }

  /**
   The history of one buffer: the chunks that fetchLogs returned and that are not empty when trimmed, how many of
   them had been appended at the last append, and how many of those had been appended before the last clear.
   */
  datatype Kept = Kept(chunks: seq<string>, appended: nat, cleared: nat)

  const NEVER := Kept([], 0, 0)

  ghost function KeepOn(s: State, a: Action, c: string, h: Kept): Kept
    requires Enabled(s, a)
  {
    match a
    case Run(t, Fetched(Some(chunk))) =>
      if s.threads[t].container == c && Trimmed(chunk) != "" then h.(chunks := h.chunks + [chunk]) else h
    case Run(t, Store) => if s.threads[t].container == c then h.(appended := |h.chunks|) else h
    case Clear(other) => if other == c then h.(cleared := h.appended) else h
    case _ => h
  }

  ghost function KeptAfter(s: State, actions: seq<Action>, c: string, h: Kept): Kept
    requires IsRun(s, actions)
    decreases |actions|
  {
    if actions == [] then h else KeptAfter(Apply(s, actions[0]), actions[1..], c, KeepOn(s, actions[0], c, h))
  }

  ghost predicate KeptOk(s: State, c: string, h: Kept) {
    if c in s.logs then h.chunks == s.logs[c].fetched && h.appended == Stored(s, c) && h.cleared == s.logs[c].dropped
    else h == NEVER
  }

  lemma CallerKeepsKept(s: State, step: CallerStep, c: string, h: Kept)
    requires Inv(s) && CallerEnabled(s, step) && KeptOk(s, c, h) && !Harmful(s, Call(step))
    ensures KeptOk(CallerEffect(s, step), c, h)
  {
    assert c in s.logThreads ==> EntryOk(s, c);
  }

  lemma ThreadKeepsKept(s: State, t: nat, work: ThreadStep, c: string, h: Kept)
    requires Inv(s) && ThreadEnabled(s, t, work) && KeptOk(s, c, h)
    ensures KeptOk(ThreadEffect(s, t, work), c, KeepOn(s, Run(t, work), c, h))
  {
    assert ThreadOk(s, t);
    assert c in s.logThreads ==> EntryOk(s, c);
    if work.Fetched? && work.result.Some? {
      BlankIsTrimmedAway(work.result.value);
    }
  }

  lemma {:induction false} RunKeepsKept(s: State, actions: seq<Action>, c: string, h: Kept)
    requires Inv(s) && IsRun(s, actions) && Unharmed(s, actions) && KeptOk(s, c, h)
    ensures KeptOk(After(s, actions), c, KeptAfter(s, actions, c, h))
    decreases |actions|
  {
    if actions != [] {
      match actions[0] {
        case Call(step) => CallerKeepsKept(s, step, c, h);
        case Run(t, work) => ThreadKeepsKept(s, t, work, c, h);
        case Clear(_) =>
      }
      StepKeepsInv(s, actions[0]);
      RunKeepsKept(Apply(s, actions[0]), actions[1..], c, KeepOn(s, actions[0], c, h));
    }
  }

  /**
   Over every run whose interruptions are harmless, a buffer reads as the chunks that fetchLogs returned for its
   container and that are not empty when trimmed, in order, from the last clear to the last append.
   */
  lemma BufferShowsFetchedChunks(actions: seq<Action>, s: State, c: string)
    requires IsRun(BOOT, actions) && Unharmed(BOOT, actions) && After(BOOT, actions) == s && c in s.logs
    ensures var h := KeptAfter(BOOT, actions, c, NEVER);
            && h.cleared <= h.appended <= |h.chunks|
            && s.logs[c].text == Render(h.chunks[h.cleared..h.appended])
  {
    RunKeepsInv(BOOT, actions);
    RunKeepsKept(BOOT, actions, c, NEVER);
    assert LogOk(s, c);
  }

  /** A thread leaves its loop exactly when it finds its flag lowered; a raised flag sends it to fetch again. */
  lemma FlagDecides(s: State, t: nat, work: ThreadStep)
    requires ThreadEnabled(s, t, work) && !work.Leave?
    ensures var c := s.threads[t].container;
            var raised := c in s.running && s.running[c];
            var pc := ThreadEffect(s, t, work).threads[t].pc;
            && (pc.Leaving? <==> work.ReadFlag? && !raised)
            && (work.ReadFlag? && raised ==> pc.Fetch?)
            && (work.FetchFailed? || work.Wake? ==> pc.Check?)
            && (work.Store? ==> pc.Sleep?)
            && !pc.Dead?
  {}

  // ---------- joining ----------

  /** An upper bound on the steps a thread still takes once its flag is down. */
  function Rank(pc: Pc): nat {
    match pc
    case Created => 6
    case Fetch => 5
    case Append(_) => 4
    case Sleep => 3
    case Check => 2
    case Leaving => 1
    case Dead => 0
  }

  /** How many chunks it may still store. */
  function Credit(pc: Pc): nat {
    if pc.Fetch? || pc.Append? then 1 else 0
  }

  lemma LoweredStep(s: State, t: nat, work: ThreadStep)
    requires ThreadEnabled(s, t, work) && !(s.threads[t].container in s.running && s.running[s.threads[t].container])
    ensures var u := ThreadEffect(s, t, work);
            && u.running == s.running && u.caller == s.caller
            && Rank(u.threads[t].pc) < Rank(s.threads[t].pc)
            && Credit(u.threads[t].pc) + (if work.Store? then 1 else 0) <= Credit(s.threads[t].pc)
  {}

  /** While stop waits, the thread it waits for can move and comes closer to its end with every step. */
  lemma JoinIsNotBlocked(s: State) returns (work: ThreadStep)
    requires Reachable(s) && s.caller.Joining?
    ensures s.caller.t < |s.threads|
    ensures s.threads[s.caller.t].pc.Dead? || ThreadEnabled(s, s.caller.t, work)
    ensures ThreadEnabled(s, s.caller.t, work) ==>
              Rank(ThreadEffect(s, s.caller.t, work).threads[s.caller.t].pc) < Rank(s.threads[s.caller.t].pc)
  {
    ReachableInv(s);
    assert ThreadOk(s, s.caller.t);
    work := StepFrom(s.threads[s.caller.t].pc, true, None);
    if ThreadEnabled(s, s.caller.t, work) {
      LoweredStep(s, s.caller.t, work);
    }
  }

  /** The step a thread takes next; `failed` and `result` are the outcome of fetchLogs. */
  function StepFrom(pc: Pc, failed: bool, result: Option<string>): ThreadStep {
    match pc
    case Check => ReadFlag
    case Fetch => if failed then FetchFailed else Fetched(result)
    case Append(_) => Store
    case Sleep => Wake
    case _ => Leave
  }

  // ---------- an interrupted join ----------

  /** Stop and start again, with the join interrupted and no other thread moving in between. */
  function Restart(s: State): State
    requires s.caller.Joining?
  {
    var c := s.caller.container;
    var s1 := CallerEffect(CallerEffect(s, JoinInterrupted), Forget);
    var s2 := CallerEffect(s1, BeginStart(c));
    CallerEffect(CallerEffect(CallerEffect(s2, RaiseFlag), PutBuffer), CreateThread)
  }

  lemma JoinedMeansNone(s: State)
    requires Inv(s) && s.caller.Joining? && !Live(s, s.caller.t)
    ensures forall t: nat :: Live(s, t) ==> s.threads[t].container != s.caller.container
  {
    forall t: nat | Live(s, t) ensures s.threads[t].container != s.caller.container {
      assert ThreadOk(s, t);
    }
  }

  /** After an interrupted join the next start makes a second live thread exactly when the first still lives. */
  lemma InterruptedJoinDoubles(s: State)
    requires Inv(s) && s.caller.Joining?
    ensures Live(s, s.caller.t) <==>
              exists t: nat, u: nat :: t != u && Live(Restart(s), t) && Live(Restart(s), u)
                && Restart(s).threads[t].container == s.caller.container
                && Restart(s).threads[u].container == s.caller.container
  {
    var r, old' := Restart(s), s.caller.t;
    assert r.threads == s.threads + [LogThread(s.caller.container, Created)];
    if Live(s, old') {
      assert Live(r, old') && Live(r, |s.threads|);
    } else {
      JoinedMeansNone(s);
      assert forall t: nat :: Live(r, t) && t < |s.threads| ==> Live(s, t);
    }
  }

  lemma {:induction false} RunStep(s: State, actions: seq<Action>, t: State, a: Action)
    requires IsRun(s, actions) && Unharmed(s, actions) && After(s, actions) == t && Enabled(t, a) && !Harmful(t, a)
    ensures IsRun(s, actions + [a]) && Unharmed(s, actions + [a]) && After(s, actions + [a]) == Apply(t, a)
    decreases |actions|
  {
    var longer := actions + [a];
    if actions == [] {
      assert longer == [a] && longer[1..] == [];
    } else {
      assert longer[0] == actions[0] && longer[1..] == actions[1..] + [a];
      RunStep(Apply(s, actions[0]), actions[1..], t, a);
    }
  }

  lemma CallFrom(s: State, step: CallerStep) returns (u: State)
    requires Reachable(s) && CallerEnabled(s, step) && step != JoinInterrupted
    ensures Reachable(u) && u == CallerEffect(s, step)
  {
    u := CallerEffect(s, step);
    var actions :| IsRun(BOOT, actions) && Unharmed(BOOT, actions) && After(BOOT, actions) == s;
    RunStep(BOOT, actions, s, Call(step));
  }

  /** A run in which the interruption does harm: stop waits for a thread that has only just been started. */
  lemma DoubledThread() returns (s: State)
    ensures Reachable(s) && s.caller.Joining?
    ensures exists t: nat, u: nat :: t != u && Live(Restart(s), t) && Live(Restart(s), u)
              && Restart(s).threads[t].container == Restart(s).threads[u].container
  {
    assert IsRun(BOOT, []) && Unharmed(BOOT, []) && After(BOOT, []) == BOOT;
    s := CallFrom(BOOT, BeginStart("default"));
    s := CallFrom(s, RaiseFlag);
    s := CallFrom(s, PutBuffer);
    s := CallFrom(s, CreateThread);
    s := CallFrom(s, Launch);
    s := CallFrom(s, BeginStop("default"));
    s := CallFrom(s, LowerFlag);
    s := CallFrom(s, GetThread);
    ReachableInv(s);
    InterruptedJoinDoubles(s);
  }

  // ---------- the object ----------

  /** A start from its first look at the map to the running thread, without interference. */
  function Launched(s: State, c: string): State {
    s.(running := s.running[c := true],
       logs := if c in s.logs then s.logs else s.logs[c := Log("", [], 0)],
       logThreads := s.logThreads[c := |s.threads|],
       threads := s.threads + [LogThread(c, Check)])
  }

  lemma StartKeepsInv(s: State, c: string)
    requires Inv(s) && s.caller.Free? && c !in s.logThreads
    ensures Inv(Launched(s, c))
  {
    var u := Launched(s, c);
    forall other | other in u.logThreads ensures EntryOk(u, other) {
      assert other != c ==> EntryOk(s, other);
    }
    forall t | 0 <= t < |u.threads| ensures ThreadOk(u, t) {
      assert t < |s.threads| ==> ThreadOk(s, t);
    }
    forall other | other in u.logs ensures LogOk(u, other) {
      assert other in s.logThreads ==> EntryOk(s, other);
      if other in s.logs {
        LogFrame(s, u, other);
      }
    }
  }

  /** Those are the five accesses of an undisturbed start. */
  lemma LaunchedInFiveSteps(s: State, c: string)
    requires s.caller.Free? && c !in s.logThreads
    ensures var s3 := CallerEffect(CallerEffect(CallerEffect(s, BeginStart(c)), RaiseFlag), PutBuffer);
            CallerEffect(CallerEffect(s3, CreateThread), Launch) == Launched(s, c)
  {}

  /** What stop knows while it waits for thread t, having started from `before`. */
  ghost predicate Waiting(before: State, s: State, c: string, t: nat) {
    && Inv(s) && s.caller.Free? && t < |s.threads| && s.threads[t].container == c
    && c in s.running && !s.running[c]
    && (c in s.logThreads <==> !s.threads[t].pc.Dead?)
    && (c in s.logThreads ==> s.logThreads[c] == t)
    && s.logThreads - {c} == before.logThreads - {c}
    && (forall other :: other in before.logs && other != c ==> other in s.logs && s.logs[other] == before.logs[other])
  }

  lemma WaitingBegins(s: State, c: string)
    requires Inv(s) && s.caller.Free? && c in s.logThreads
    ensures Waiting(s, s.(running := s.running[c := false]), c, s.logThreads[c])
  {
    assert EntryOk(s, c);
    LoweredKeepsInv(s, c);
  }

  /** A log thread only touches its own container's entry and buffer. */
  lemma OwnContainerOnly(s: State, t: nat, work: ThreadStep)
    requires ThreadEnabled(s, t, work)
    ensures var u, c := ThreadEffect(s, t, work), s.threads[t].container;
            && u.caller == s.caller && u.running == s.running
            && |u.threads| == |s.threads| && u.threads[t].container == c
            && (u.threads[t].pc.Dead? <==> work.Leave?)
            && u.logThreads == (if work.Leave? then s.logThreads - {c} else s.logThreads)
            && forall other :: other in s.logs && other != c ==> other in u.logs && u.logs[other] == s.logs[other]
  {}

  lemma WaitingStep(before: State, s: State, c: string, t: nat, failed: bool, result: Option<string>)
    requires Waiting(before, s, c, t) && !s.threads[t].pc.Dead?
    ensures var work := StepFrom(s.threads[t].pc, failed, result);
            && ThreadEnabled(s, t, work)
            && Waiting(before, ThreadEffect(s, t, work), c, t)
            && Rank(ThreadEffect(s, t, work).threads[t].pc) < Rank(s.threads[t].pc)
  {
    var work := StepFrom(s.threads[t].pc, failed, result);
    assert s.threads[t].pc.Created? ==> ThreadOk(s, t);
    assert c in s.logs;
    LoweredStep(s, t, work);
    OwnContainerOnly(s, t, work);
    StepKeepsInv(s, Run(t, work));
    assert (s.logThreads - {c}) - {c} == s.logThreads - {c};
  }

  lemma WaitingEnds(before: State, s: State, c: string, t: nat)
    requires Waiting(before, s, c, t) && s.threads[t].pc.Dead?
    ensures s.logThreads == before.logThreads - {c} == s.logThreads - {c}
    ensures forall u: nat :: Live(s, u) ==> s.threads[u].container != c
  {
    NoEntryMeansNone(s, c);
    assert s.logThreads == s.logThreads - {c};
  }

  lemma NoEntryMeansNone(s: State, c: string)
    requires Inv(s) && c !in s.logThreads
    ensures forall t: nat :: Live(s, t) ==> s.threads[t].container != c
  {
    forall t: nat | Live(s, t) ensures s.threads[t].container != c {
      assert ThreadOk(s, t);
    }
  }

  /** The flag alone can be lowered without disturbing anything while the caller is free. */
  lemma LoweredKeepsInv(s: State, c: string)
    requires Inv(s) && s.caller.Free?
    ensures Inv(s.(running := s.running[c := false]))
  {
    var u := s.(running := s.running[c := false]);
    forall other | other in u.logThreads ensures EntryOk(u, other) {
      assert EntryOk(s, other);
    }
    forall t | 0 <= t < |u.threads| ensures ThreadOk(u, t) {
      assert ThreadOk(s, t);
    }
    forall other | other in u.logs ensures LogOk(u, other) {
      LogFrame(s, u, other);
    }
  }

  /** The static maps with the threads using them; log threads move when one of their steps is performed. */
  class ContainerManager {
    var threads: seq<LogThread>
    var logThreads: map<string, nat>
    var runningContainers: map<string, bool>
    var logBuffers: map<string, Log>

    ghost function View(): State
      reads this
    {
      State(threads, logThreads, runningContainers, logBuffers, Free)
    }

    constructor ()
      ensures View() == BOOT
    {
      threads, logThreads, runningContainers, logBuffers := [], map[], map[], map[];
    }

    /** Refused while there is an entry; otherwise one more thread runs, with the old buffer kept. */
    method StartFetchingLogs(container: string) returns (started: bool)
      requires Inv(View())
      modifies this
      ensures Inv(View())
      ensures started <==> container !in old(logThreads)
      ensures !started ==> View() == old(View())
      ensures started ==> View() == Launched(old(View()), container)
    {
      if container in logThreads {
        return false;
      }
      StartKeepsInv(View(), container);
      ghost var s := Launched(View(), container);
      runningContainers := runningContainers[container := true];
      if container !in logBuffers {
        logBuffers := logBuffers[container := Log("", [], 0)];
      }
      logThreads := logThreads[container := |threads|];
      threads := threads + [LogThread(container, Check)];
      assert View() == s;
      started := true;
    }

    /** A fetched chunk is kept unless it is null or blank. */
    method Keep(t: nat, result: Option<string>)
      requires t < |threads| && ThreadEnabled(View(), t, Fetched(result)) && threads[t].container in logBuffers
      modifies this`threads, this`logBuffers
      ensures View() == ThreadEffect(old(View()), t, Fetched(result))
    {
      var container := threads[t].container;
      if result.Some? && !Blank(result.value) {
        threads := threads[t := LogThread(container, Append(result.value))];
        var log := logBuffers[container];
        logBuffers := logBuffers[container := log.(fetched := log.fetched + [result.value])];
      } else {
        threads := threads[t := LogThread(container, Sleep)];
      }
    }

    /** One access of a log thread; `failed` and `result` are the outcome of fetchLogs, if that is the step. */
    method Access(t: nat, failed: bool, result: Option<string>)
      requires t < |threads| && ThreadEnabled(View(), t, StepFrom(threads[t].pc, failed, result))
      requires threads[t].container in logBuffers
      modifies this
      ensures View() == ThreadEffect(old(View()), t, StepFrom(old(threads)[t].pc, failed, result))
    {
      var container, pc := threads[t].container, threads[t].pc;
      match pc {
        case Check =>
          var go := container in runningContainers && runningContainers[container];
          threads := threads[t := LogThread(container, if go then Fetch else Leaving)];
        case Fetch =>
          if failed {
            threads := threads[t := LogThread(container, Check)];
          } else {
            Keep(t, result);
          }
        case Append(chunk) =>
          threads := threads[t := LogThread(container, Sleep)];
          var log := logBuffers[container];
          logBuffers := logBuffers[container := log.(text := log.text + chunk + "\n")];
        case Sleep =>
          threads := threads[t := LogThread(container, Check)];
        case Leaving =>
          threads := threads[t := LogThread(container, Dead)];
          logThreads := logThreads - {container};
      }
    }

    /** The same for a thread of a consistent manager, which stays consistent. */
    method Step(t: nat, failed: bool, result: Option<string>)
      requires Inv(View()) && t < |threads| && ThreadEnabled(View(), t, StepFrom(threads[t].pc, failed, result))
      modifies this
      ensures Inv(View())
      ensures View() == ThreadEffect(old(View()), t, StepFrom(old(threads)[t].pc, failed, result))
    {
      assert ThreadOk(View(), t);
      StepKeepsInv(View(), Run(t, StepFrom(threads[t].pc, failed, result)));
      Access(t, failed, result);
    }

    /** join: the thread goes on until it is gone. */
    method Join(container: string, t: nat, failed: bool, result: Option<string>, ghost before: State)
      requires Waiting(before, View(), container, t)
      modifies this
      ensures Waiting(before, View(), container, t) && threads[t].pc.Dead?
    {
      while !threads[t].pc.Dead?
        invariant Waiting(before, View(), container, t)
        decreases Rank(threads[t].pc)
      {
        WaitingStep(before, View(), container, t, failed, result);
        Step(t, failed, result);
      }
    }

    /**
     Lowers the flag and waits until the container's thread is gone; afterwards no live thread and no entry
     of this container is left, and the others' entries and buffers are as before.
     */
    method StopFetchingLogs(container: string, failed: bool, result: Option<string>)
      requires Inv(View())
      modifies this
      ensures Inv(View())
      ensures container !in old(logThreads) ==> View() == old(View())
      ensures logThreads == old(logThreads) - {container}
      ensures forall t: nat :: Live(View(), t) ==> threads[t].container != container
      ensures forall other :: other in old(logBuffers) && other != container ==>
                other in logBuffers && logBuffers[other] == old(logBuffers)[other]
    {
      if container !in logThreads {
        NoEntryMeansNone(View(), container);
        return;
      }
      ghost var s := View();
      WaitingBegins(s, container);
      var t := logThreads[container];
      runningContainers := runningContainers[container := false];
      Join(container, t, failed, result, s);
      ghost var u := View();
      WaitingEnds(s, u, container, t);
      logThreads := logThreads - {container};
      assert View() == u;
    }

    method GetBufferedLogs(container: string) returns (text: string)
      requires Inv(View())
      ensures container !in logBuffers ==> text == ""
      ensures container in logBuffers ==>
                var log := logBuffers[container];
                && 0 <= log.dropped <= Stored(View(), container) <= |log.fetched|
                && text == Render(log.fetched[log.dropped..Stored(View(), container)])
    {
      if container !in logBuffers {
        return "";
      }
      assert LogOk(View(), container);
      text := logBuffers[container].text;
    }

    /** Everything stored so far is dropped; a chunk still in flight is not. */
    method ClearLogBuffer(container: string)
      requires Inv(View())
      modifies this`logBuffers
      ensures Inv(View()) && View() == ClearEffect(old(View()), container)
    {
      ClearKeepsInv(View(), container);
      if container in logBuffers {
        var held := container in logThreads && threads[logThreads[container]].pc.Append?;
        var log := logBuffers[container];
        logBuffers := logBuffers[container := log.(text := "", dropped := |log.fetched| - (if held then 1 else 0))];
      }
    }
  }
}
