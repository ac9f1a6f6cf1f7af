/**
 The container service: containers known to liblxc, the map of log terminals, and the descriptors behind
 it. Answers of liblxc and the kernel are parameters; containers may exit by themselves between calls.
 */
module LxcContainers {

  /** A descriptor of this process: a log terminal the service opened, or somebody else's. */
  datatype Holder = Terminal | Other

  /** `misuse` records that the service closed or read a descriptor that is not an open terminal. */
  datatype State = State(
    defined: set<string>,
    running: set<string>,
    logFds: map<string, int>,       // containerLogFds
    open: map<int, Holder>,
    misuse: bool)

  const BOOT := State({}, {}, map[], map[], false)

  const NUL: char := '\0'
  const MAX_ID: nat := 50

  /** What a C function sees of a string: everything before the first NUL. */
  function CString(s: string): string {
    if s == [] || s[0] == NUL then [] else [s[0]] + CString(s[1..])
  }

  predicate IdCharacter(c: char) {
    '0' <= c <= '9' || 'a' <= c <= 'z' || 'A' <= c <= 'Z'
  }

  predicate ValidId(id: string) {
    |id| <= MAX_ID && forall i :: 0 <= i < |id| ==> IdCharacter(id[i])
  }

  /** How lxc's start turns out: its answer, whether the container runs afterwards, and the terminal it offers. */
  datatype StartOutcome = StartOutcome(ok: bool, up: bool, terminal: int)

  datatype Action =
    | Start(id: string, capture: bool, known: bool, outcome: StartOutcome)
    | Stop(id: string, known: bool, stopped: bool)
    | Fetch(id: string)
    | Add(id: string, known: bool, created: bool)
    | Delete(id: string, known: bool, destroyed: bool)
    | Exit(id: string)                                   // the container ends by itself
    | OtherOpens(fd: int)
    | OtherCloses(fd: int)

  predicate Enabled(s: State, a: Action) {
    match a
    case Start(_, _, _, outcome) =>
      (outcome.ok ==> outcome.up) && outcome.terminal >= -1 && outcome.terminal !in s.open
    case Exit(id) => id in s.running
    case OtherOpens(fd) => fd >= 0 && fd !in s.open
    case OtherCloses(fd) => fd in s.open && s.open[fd].Other?
    case _ => true
  }

  /** initContainer: liblxc has to produce the container, and it has to be defined. */
  predicate Initialised(s: State, id: string, known: bool) {
    known && id in s.defined
  }

  function CloseTerminal(s: State, fd: int): State {
    s.(open := s.open - {fd}, misuse := s.misuse || fd !in s.open || !s.open[fd].Terminal?)
  }

  /** startContainer, its new state and its answer. */
  function StartEffect(s: State, id: string, capture: bool, known: bool, outcome: StartOutcome): (State, bool) {
    if !Initialised(s, id, known) then (s, false)
    else if id in s.running then (s, true)
    else if !outcome.ok && !outcome.up then (s, false)
    else
      var started := s.(running := s.running + {id});
      if !capture then (started, true)
      else if outcome.terminal < 0 then (started, false)
      else
        (started.(logFds := s.logFds[id := outcome.terminal], open := s.open[outcome.terminal := Terminal]), true)
  }

  /** stopContainer: the terminal goes away even when the container does not stop. */
  function StopEffect(s: State, id: string, known: bool, stopped: bool): (State, bool) {
    if !Initialised(s, id, known) then (s, false)
    else
      var ret := id !in s.running || stopped;
      var halted := if stopped then s.(running := s.running - {id}) else s;
      if id in s.logFds then (CloseTerminal(halted, s.logFds[id]).(logFds := s.logFds - {id}), ret)
      else (halted, ret)
  }

  /** fetchContainerLogs reads from the mapped terminal, if there is one. */
  function FetchEffect(s: State, id: string): State {
    if id !in s.logFds then s
    else s.(misuse := s.misuse || s.logFds[id] !in s.open || !s.open[s.logFds[id]].Terminal?)
  }

  function AddEffect(s: State, id: string, known: bool, created: bool): (State, bool) {
    if !ValidId(id) || !known || id in s.running || id in s.defined then (s, false)
    else if !created then (s, false)
    else (s.(defined := s.defined + {id}), true)
  }

  function DeleteEffect(s: State, id: string, known: bool, destroyed: bool): (State, bool) {
    if !Initialised(s, id, known) || id in s.running then (s, false)
    else if !destroyed then (s, false)
    else (s.(defined := s.defined - {id}), true)
  }

  /** Entry points receive any string and hand its C form on. */
  function Apply(s: State, a: Action): State
    requires Enabled(s, a)
  {
    match a
    case Start(id, capture, known, outcome) => StartEffect(s, CString(id), capture, known, outcome).0
    case Stop(id, known, stopped) => StopEffect(s, CString(id), known, stopped).0
    case Fetch(id) => FetchEffect(s, CString(id))
    case Add(id, known, created) => AddEffect(s, CString(id), known, created).0
    case Delete(id, known, destroyed) => DeleteEffect(s, CString(id), known, destroyed).0
    case Exit(id) => s.(running := s.running - {id})
    case OtherOpens(fd) => s.(open := s.open[fd := Other])
    case OtherCloses(fd) => s.(open := s.open - {fd})
  }

  // ---------- the invariant ----------

  ghost predicate Inv(s: State) {
    && s.running <= s.defined
    && !s.misuse
    && (forall id :: id in s.defined ==> ValidId(id))
    && (forall id :: id in s.logFds ==> s.logFds[id] in s.open && s.open[s.logFds[id]].Terminal?)
    && (forall id, other :: id in s.logFds && other in s.logFds && id != other ==> s.logFds[id] != s.logFds[other])
  }

  lemma StepKeepsInv(s: State, a: Action)
    requires Inv(s) && Enabled(s, a)
    ensures Inv(Apply(s, a))
  {}

  /** Terminals that are open but not in the map any more. */
  function Leaked(s: State): set<int> {
    set fd | fd in s.open && s.open[fd].Terminal? && fd !in s.logFds.Values
  }

  /** A start that captures output of a container whose previous terminal is still in the map. */
  predicate Overwrites(s: State, a: Action) {
    && a.Start? && a.capture && a.known && a.outcome.up && a.outcome.terminal >= 0
    && CString(a.id) in s.defined && CString(a.id) !in s.running && CString(a.id) in s.logFds
  }

  lemma InMap(m: map<string, int>, id: string)
    requires id in m
    ensures m[id] in m.Values
  {}

  lemma StartLeaks(s: State, id: string, fd: int, t: State)
    requires Inv(s) && fd !in s.open
    requires t == s.(logFds := s.logFds[id := fd], open := s.open[fd := Terminal], running := t.running)
    ensures Leaked(t) == Leaked(s) + (if id in s.logFds then {s.logFds[id]} else {})
  {
    InMap(t.logFds, id);
    forall other | other in s.logFds && other != id ensures s.logFds[other] in t.logFds.Values {
      InMap(t.logFds, other);
      assert t.logFds[other] == s.logFds[other];
    }
  }

  lemma StopLeaksNothing(s: State, id: string, t: State)
    requires Inv(s) && id in s.logFds
    requires t == s.(logFds := s.logFds - {id}, open := s.open - {s.logFds[id]}, running := t.running)
    ensures Leaked(t) == Leaked(s)
  {
    forall other | other in s.logFds && other != id ensures s.logFds[other] in t.logFds.Values {
      InMap(t.logFds, other);
      assert t.logFds[other] == s.logFds[other];
    }
    InMap(s.logFds, id);
  }

  /** A terminal leaves the map still open exactly when a start overwrites that of a container that exited by itself. */
  lemma LeaksExactlyOnOverwrite(s: State, a: Action)
    requires Inv(s) && Enabled(s, a)
    ensures Leaked(Apply(s, a)) == Leaked(s) + (if Overwrites(s, a) then {s.logFds[CString(a.id)]} else {})
    ensures Leaked(Apply(s, a)) != Leaked(s) <==> Overwrites(s, a)
  {
    var t := Apply(s, a);
    if Overwrites(s, a) {
      InMap(s.logFds, CString(a.id));
    }
    match a
    case Start(id, capture, known, outcome) =>
      if t.open != s.open {
        StartLeaks(s, CString(id), outcome.terminal, t);
      } else {
        assert t.logFds == s.logFds;
      }
    case Stop(id, known, stopped) =>
      if CString(id) in s.logFds && Initialised(s, CString(id), known) {
        StopLeaksNothing(s, CString(id), t);
      }
    case OtherOpens(fd) => assert Leaked(t) == Leaked(s);
    case OtherCloses(fd) => assert Leaked(t) == Leaked(s);
    case _ =>
  }

  // ---------- terminals that no stop can close ----------

  /** Whether a container that stop accepts still has the terminal. */
  predicate Closable(s: State, fd: int) {
    exists id :: id in s.defined && id in s.logFds && s.logFds[id] == fd
  }

  /** Open terminals that belong to no defined container. */
  function Stranded(s: State): set<int> {
    set fd | fd in s.open && s.open[fd].Terminal? && !Closable(s, fd)
  }

  /** A delete of a container that is not running and whose terminal is still mapped, since it was never stopped. */
  predicate Abandons(s: State, a: Action) {
    && a.Delete? && a.known && a.destroyed
    && CString(a.id) in s.defined && CString(a.id) !in s.running && CString(a.id) in s.logFds
  }

  /** An add that gives such a terminal its container back. */
  predicate Reclaims(s: State, a: Action) {
    && a.Add? && a.known && a.created && ValidId(CString(a.id))
    && CString(a.id) !in s.running && CString(a.id) !in s.defined && CString(a.id) in s.logFds
  }

  lemma OtherStaysClosable(s: State, t: State, id: string, fd: int)
    requires Closable(s, fd) && (id in s.logFds ==> s.logFds[id] != fd)
    requires t.defined + {id} >= s.defined
    requires forall other :: other in s.logFds && other != id ==>
               other in t.logFds && t.logFds[other] == s.logFds[other]
    ensures Closable(t, fd)
  {
    var other :| other in s.defined && other in s.logFds && s.logFds[other] == fd;
    assert other in t.defined && other in t.logFds && t.logFds[other] == fd;
  }

  lemma OnlyIdClosed(s: State, id: string, fd: int)
    requires Inv(s) && id in s.logFds && s.logFds[id] == fd
    ensures Closable(s, fd) <==> id in s.defined
  {
    assert id in s.defined ==> Closable(s, fd);
  }

  lemma StartStrands(s: State, id: string, fd: int, t: State)
    requires Inv(s) && fd !in s.open && id in s.defined
    requires t == s.(logFds := s.logFds[id := fd], open := s.open[fd := Terminal], running := t.running)
    ensures Stranded(t) == Stranded(s) + (if id in s.logFds then {s.logFds[id]} else {})
  {
    assert id in t.defined && id in t.logFds && t.logFds[id] == fd;
    forall other | Closable(s, other) && (id in s.logFds ==> s.logFds[id] != other) ensures Closable(t, other) {
      OtherStaysClosable(s, t, id, other);
    }
    forall other | other in s.open && Closable(t, other) ensures Closable(s, other) {
      var owner :| owner in t.defined && owner in t.logFds && t.logFds[owner] == other;
      assert owner != id && owner in s.defined && owner in s.logFds && s.logFds[owner] == other;
    }
    if id in s.logFds {
      forall owner | owner in t.defined && owner in t.logFds ensures t.logFds[owner] != s.logFds[id] {
        assert owner != id ==> t.logFds[owner] == s.logFds[owner];
      }
    }
  }

  lemma StopStrandsNothing(s: State, id: string, t: State)
    requires Inv(s) && id in s.defined && id in s.logFds
    requires t == s.(logFds := s.logFds - {id}, open := s.open - {s.logFds[id]}, running := t.running)
    ensures Stranded(t) == Stranded(s)
  {
    OnlyIdClosed(s, id, s.logFds[id]);
    forall other | Closable(s, other) && s.logFds[id] != other ensures Closable(t, other) {
      OtherStaysClosable(s, t, id, other);
    }
    forall other | Closable(t, other) ensures Closable(s, other) {
      var owner :| owner in t.defined && owner in t.logFds && t.logFds[owner] == other;
      assert owner in s.defined && owner in s.logFds && s.logFds[owner] == other;
    }
  }

  /** Defining or undefining one container concerns its own terminal only. */
  lemma DefineStrands(s: State, id: string, t: State)
    requires Inv(s) && t == s.(defined := t.defined)
    requires t.defined == s.defined - {id} || t.defined == s.defined + {id}
    ensures Stranded(t) == (if id !in s.logFds then Stranded(s)
                            else if id in t.defined then Stranded(s) - {s.logFds[id]}
                            else Stranded(s) + {s.logFds[id]})
  {
    forall fd | id in s.logFds ==> s.logFds[id] != fd ensures Closable(t, fd) <==> Closable(s, fd) {
      if Closable(s, fd) {
        OtherStaysClosable(s, t, id, fd);
      }
      if Closable(t, fd) {
        OtherStaysClosable(t, s, id, fd);
      }
    }
    if id in s.logFds {
      assert id in t.defined ==> Closable(t, s.logFds[id]);
      forall owner | owner in t.defined && owner in t.logFds && owner != id ensures t.logFds[owner] != s.logFds[id] {}
    }
  }

  /** What a step adds to the terminals that no stop can close, and what it takes away. */
  function Loses(s: State, a: Action): set<int> {
    if Overwrites(s, a) || Abandons(s, a) then {s.logFds[CString(a.id)]} else {}
  }

  function Regains(s: State, a: Action): set<int> {
    if Reclaims(s, a) then {s.logFds[CString(a.id)]} else {}
  }

  lemma SameClosable(s: State, t: State)
    requires t.defined == s.defined && t.logFds == s.logFds
    ensures forall fd :: Closable(t, fd) <==> Closable(s, fd)
  {
    forall fd ensures Closable(t, fd) <==> Closable(s, fd) {
      assert (exists id :: id in s.defined && id in s.logFds && s.logFds[id] == fd)
        <==> (exists id :: id in t.defined && id in t.logFds && t.logFds[id] == fd);
    }
  }

  lemma OutsideStrandsNothing(s: State, fd: int, t: State)
    requires t == s.(open := t.open)
    requires || (fd !in s.open && t.open == s.open[fd := Other])
             || (fd in s.open && s.open[fd].Other? && t.open == s.open - {fd})
    ensures Stranded(t) == Stranded(s)
  {
    SameClosable(s, t);
  }

  lemma SameStranded(s: State, t: State)
    requires t.defined == s.defined && t.logFds == s.logFds && t.open == s.open
    ensures Stranded(t) == Stranded(s)
  {
    SameClosable(s, t);
  }

  /**
   Exactly what strands a terminal: overwriting it by a start, or deleting its container without a stop; and
   exactly adding that container again makes it closable once more.
   */
  lemma StrandedExactly(s: State, a: Action)
    requires Inv(s) && Enabled(s, a)
    ensures Stranded(Apply(s, a)) == Stranded(s) + Loses(s, a) - Regains(s, a)
    ensures Loses(s, a) !! Stranded(s) && Regains(s, a) <= Stranded(s)
  {
    var t := Apply(s, a);
    if Overwrites(s, a) || Abandons(s, a) || Reclaims(s, a) {
      OnlyIdClosed(s, CString(a.id), s.logFds[CString(a.id)]);
    }
    match a
    case Start(id, _, _, outcome) =>
      if t.open != s.open {
        StartStrands(s, CString(id), outcome.terminal, t);
      } else {
        SameStranded(s, t);
      }
    case Stop(id, known, _) =>
      if CString(id) in s.logFds && Initialised(s, CString(id), known) {
        StopStrandsNothing(s, CString(id), t);
      } else {
        SameStranded(s, t);
      }
    case Add(id, _, _) =>
      if t != s {
        DefineStrands(s, CString(id), t);
      }
    case Delete(id, _, _) =>
      if t != s {
        DefineStrands(s, CString(id), t);
      }
    case Fetch(_) => SameStranded(s, t);
    case Exit(_) => SameStranded(s, t);
    case OtherOpens(fd) => OutsideStrandsNothing(s, fd, t);
    case OtherCloses(fd) => OutsideStrandsNothing(s, fd, t);
  }

  // ---------- runs ----------

  ghost predicate IsRun(s: State, actions: seq<Action>)
    decreases |actions|
  {
    actions == [] || (Enabled(s, actions[0]) && IsRun(Apply(s, actions[0]), actions[1..]))
  }

  ghost function After(s: State, actions: seq<Action>): State
    requires IsRun(s, actions)
    decreases |actions|
  {
    if actions == [] then s else After(Apply(s, actions[0]), actions[1..])
  }

  /** The starts of a run that lose a terminal. */
  ghost function Overwritten(s: State, actions: seq<Action>): nat
    requires IsRun(s, actions)
    decreases |actions|
  {
    if actions == [] then 0
    else (if Overwrites(s, actions[0]) then 1 else 0) + Overwritten(Apply(s, actions[0]), actions[1..])
  }

  /**
   In every run running containers are defined, mapped terminals are open and different, none is closed
   twice or read after closing, and the number of terminals lost is the number of overwriting starts.
   */
  lemma {:induction false} RunsAreSafe(s: State, actions: seq<Action>)
    requires Inv(s) && IsRun(s, actions)
    ensures Inv(After(s, actions))
    ensures |Leaked(After(s, actions))| == |Leaked(s)| + Overwritten(s, actions)
    decreases |actions|
  {
    if actions != [] {
      StepKeepsInv(s, actions[0]);
      LeaksExactlyOnOverwrite(s, actions[0]);
      if Overwrites(s, actions[0]) {
        InMap(s.logFds, CString(actions[0].id));
        assert s.logFds[CString(actions[0].id)] !in Leaked(s);
      }
      RunsAreSafe(Apply(s, actions[0]), actions[1..]);
    }
  }

  /** How often a run strands a terminal, and how often it makes one closable again. */
  ghost function Losses(s: State, actions: seq<Action>): nat
    requires IsRun(s, actions)
    decreases |actions|
  {
    if actions == [] then 0 else |Loses(s, actions[0])| + Losses(Apply(s, actions[0]), actions[1..])
  }

  ghost function Reclaimed(s: State, actions: seq<Action>): nat
    requires IsRun(s, actions)
    decreases |actions|
  {
    if actions == [] then 0 else |Regains(s, actions[0])| + Reclaimed(Apply(s, actions[0]), actions[1..])
  }

  /** In every run the terminals that no stop can close are those stranded and not reclaimed. */
  lemma {:induction false} StrandedInRuns(s: State, actions: seq<Action>)
    requires Inv(s) && IsRun(s, actions)
    ensures |Stranded(After(s, actions))| + Reclaimed(s, actions) == |Stranded(s)| + Losses(s, actions)
    decreases |actions|
  {
    if actions != [] {
      var a := actions[0];
      StepKeepsInv(s, a);
      StrandedExactly(s, a);
      assert |Stranded(s) + Loses(s, a)| == |Stranded(s)| + |Loses(s, a)|;
      assert |Stranded(s) + Loses(s, a) - Regains(s, a)| == |Stranded(s) + Loses(s, a)| - |Regains(s, a)|;
      StrandedInRuns(Apply(s, a), actions[1..]);
    }
  }

  /** A run that loses terminal 3: the container exits by itself and is started again. */
  lemma LostTerminal() returns (actions: seq<Action>)
    ensures IsRun(BOOT, actions) && 3 in Leaked(After(BOOT, actions)) && 3 in After(BOOT, actions).open
  {
    var tail2 := [Start("a", true, true, StartOutcome(true, true, 4))];
    var tail1 := [Exit("a")] + tail2;
    var tail0 := [Start("a", true, true, StartOutcome(true, true, 3))] + tail1;
    actions := [Add("a", true, true)] + tail0;
    assert CString("a") == "a" && ValidId("a");
    var s0 := State({"a"}, {}, map[], map[], false);
    var s1 := State({"a"}, {"a"}, map["a" := 3], map[3 := Terminal], false);
    var s2 := State({"a"}, {}, map["a" := 3], map[3 := Terminal], false);
    var s3 := State({"a"}, {"a"}, map["a" := 4], map[3 := Terminal, 4 := Terminal], false);
    assert Apply(BOOT, actions[0]) == s0 && actions[1..] == tail0;
    assert Apply(s0, tail0[0]) == s1 && tail0[1..] == tail1;
    assert Apply(s1, tail1[0]) == s2 && tail1[1..] == tail2;
    assert Apply(s2, tail2[0]) == s3 && tail2[1..] == [];
    assert IsRun(s2, tail2) && After(s2, tail2) == s3;
    assert IsRun(s1, tail1) && After(s1, tail1) == s3;
    assert IsRun(s0, tail0) && After(s0, tail0) == s3;
  }

  /** A run that strands terminal 3 without overwriting it: the container exits by itself and is deleted. */
  lemma AbandonedTerminal() returns (actions: seq<Action>)
    ensures IsRun(BOOT, actions) && After(BOOT, actions).open == map[3 := Terminal]
    ensures 3 in Stranded(After(BOOT, actions)) && 3 !in Leaked(After(BOOT, actions))
  {
    var tail2 := [Delete("a", true, true)];
    var tail1 := [Exit("a")] + tail2;
    var tail0 := [Start("a", true, true, StartOutcome(true, true, 3))] + tail1;
    actions := [Add("a", true, true)] + tail0;
    assert CString("a") == "a" && ValidId("a");
    var s0 := State({"a"}, {}, map[], map[], false);
    var s1 := State({"a"}, {"a"}, map["a" := 3], map[3 := Terminal], false);
    var s2 := State({"a"}, {}, map["a" := 3], map[3 := Terminal], false);
    var s3 := State({}, {}, map["a" := 3], map[3 := Terminal], false);
    assert Apply(BOOT, actions[0]) == s0 && actions[1..] == tail0;
    assert Apply(s0, tail0[0]) == s1 && tail0[1..] == tail1;
    assert Apply(s1, tail1[0]) == s2 && tail1[1..] == tail2;
    assert Apply(s2, tail2[0]) == s3 && tail2[1..] == [];
    assert IsRun(s2, tail2) && After(s2, tail2) == s3;
    assert IsRun(s1, tail1) && After(s1, tail1) == s3;
    assert IsRun(s0, tail0) && After(s0, tail0) == s3;
    InMap(s3.logFds, "a");
  }

  /** stop on a defined container always forgets its terminal and closes exactly that descriptor. */
  lemma StopRemovesTheMapping(s: State, id: string, stopped: bool)
    requires Inv(s) && CString(id) in s.defined
    ensures var t := Apply(s, Stop(id, true, stopped));
            && t.logFds == s.logFds - {CString(id)}
            && (CString(id) in s.logFds ==> t.open == s.open - {s.logFds[CString(id)]})
            && (CString(id) !in s.logFds ==> t.open == s.open)
  {}

  /**
   A start that answers yes leaves the container running; after a no it runs only for want of a terminal. It
   opens exactly the terminal it captures, for its own container, and touches no other.
   */
  lemma StartAnswers(s: State, id: string, capture: bool, known: bool, outcome: StartOutcome)
    requires Inv(s) && Enabled(s, Start(id, capture, known, outcome))
    ensures var (t, ret) := StartEffect(s, id, capture, known, outcome);
            var defined := known && id in s.defined;
            && (ret ==> id in t.running)
            && (!ret && id in t.running && defined
                <==> id !in s.running && outcome.up && capture && outcome.terminal < 0 && defined)
            && (ret && capture && id !in s.running <==> t.open != s.open)
            && (!defined ==> !ret && t == s)
            && (t.open != s.open ==>
                && t.open == s.open[outcome.terminal := Terminal]
                && id in t.logFds && t.logFds[id] == outcome.terminal && t.logFds - {id} == s.logFds - {id})
            && (t.open == s.open ==> t.logFds == s.logFds)
            && t.running - {id} == s.running - {id} && s.running <= t.running && t.defined == s.defined
  {}

  /** A stop succeeds exactly for a defined container that is not running or that lxc could stop. */
  lemma StopAnswers(s: State, id: string, known: bool, stopped: bool)
    ensures var (t, ret) := StopEffect(s, id, known, stopped);
            && (ret <==> known && id in s.defined && (id !in s.running || stopped))
            && (id in t.running <==> id in s.running && !ret) && t.defined == s.defined
            && (forall other :: other != id ==> (other in t.running <==> other in s.running))
  {}

  /** An add defines exactly a valid new id for which liblxc creates the container, and changes nothing otherwise. */
  lemma AddAnswers(s: State, id: string, known: bool, created: bool)
    ensures var (t, ret) := AddEffect(s, id, known, created);
            && (ret <==> |id| <= 50
                         && (forall c :: c in id ==> '0' <= c <= '9' || 'a' <= c <= 'z' || 'A' <= c <= 'Z')
                         && known && created && id !in s.running && id !in s.defined)
            && t == s.(defined := if ret then s.defined + {id} else s.defined)
  {
    assert ValidId(id) <==> |id| <= 50 && forall c :: c in id ==> IdCharacter(c);
  }

  /** A delete removes exactly a defined container that is not running and that liblxc destroys. */
  lemma DeleteAnswers(s: State, id: string, known: bool, destroyed: bool)
    ensures var (t, ret) := DeleteEffect(s, id, known, destroyed);
            && (ret <==> known && destroyed && id in s.defined && id !in s.running)
            && t == s.(defined := if ret then s.defined - {id} else s.defined)
  {}

  /** Deleting undoes adding. */
  lemma DeleteUndoesAdd(s: State, id: string)
    requires Inv(s)
    ensures AddEffect(s, id, true, true).1 <==> ValidId(id) && id !in s.defined
    ensures AddEffect(s, id, true, true).1 ==> DeleteEffect(AddEffect(s, id, true, true).0, id, true, true) == (s, true)
  {}

  // ---------- reading the terminal ----------

  /** What one turn of the loop meets: poll's answer and, when readable, read's, of whatever length. */
  datatype Poll =
    | Quiet                     // poll times out or fails
    | NotReadable               // woken without POLLIN
    | Data(bytes: string)
    | Eof
    | Failed

  /** Every byte taken from the terminal by one call. */
  function Consumed(polls: seq<Poll>): string {
    if polls == [] then ""
    else match polls[0]
      case Data(bytes) => bytes + Consumed(polls[1..])
      case NotReadable => Consumed(polls[1..])
      case _ => ""
  }

  /** What the call returns: each read is appended as a C string. */
  function Fetched(polls: seq<Poll>): string {
    if polls == [] then ""
    else match polls[0]
      case Data(bytes) => CString(bytes) + Fetched(polls[1..])
      case NotReadable => Fetched(polls[1..])
      case _ => ""
  }

  predicate NulFree(s: string) {
    NUL !in s
  }

  lemma {:induction false} CStringKeeps(s: string)
    ensures |CString(s)| <= |s|
    ensures CString(s) <= s
    ensures |CString(s)| == |s| <==> NulFree(s)
    ensures NulFree(CString(s)) && (|CString(s)| < |s| ==> s[|CString(s)|] == NUL)
  {
    if s != [] {
      CStringKeeps(s[1..]);
      assert s == [s[0]] + s[1..];
    }
  }

  /** One call returns every byte it consumed, however the reads were split, exactly when none of them is NUL. */
  lemma {:induction false} FetchedIsConsumed(polls: seq<Poll>)
    ensures |Fetched(polls)| <= |Consumed(polls)|
    ensures Fetched(polls) == Consumed(polls) <==> NulFree(Consumed(polls))
    ensures |Fetched(polls)| == |Consumed(polls)| <==> NulFree(Consumed(polls))
  {
    if polls != [] {
      FetchedIsConsumed(polls[1..]);
      if polls[0].Data? {
        CStringKeeps(polls[0].bytes);
      }
    }
  }

  lemma CutAfter(s: string)
    requires s != [] && s[0] != NUL && (|s| == 1 || s[1] == NUL)
    ensures CString(s) == [s[0]]
  {
    var rest := s[1..];
    assert rest == [] || rest[0] == NUL;
  }

  lemma OneRead(bytes: string)
    ensures Fetched([Data(bytes)]) == CString(bytes) && Consumed([Data(bytes)]) == bytes
  {
    var polls := [Data(bytes)];
    assert polls[0] == Data(bytes) && polls[1..] == [];
  }

  /** What a NUL costs depends on how the output happens to be split. */
  lemma NulCutsOutput() returns (output: string, first: string, second: string)
    ensures NUL in output && first + second == output
    ensures Consumed([Data(output)]) == output && Fetched([Data(output)]) == "a"
    ensures Consumed([Data(first), Data(second)]) == output && Fetched([Data(first), Data(second)]) == "ab"
  {
    output, first, second := "a" + [NUL] + "b", "a" + [NUL], "b";
    CutAfter(output);
    CutAfter(first);
    CutAfter(second);
    OneRead(output);
    OneRead(second);
    var polls := [Data(first), Data(second)];
    assert polls[0] == Data(first) && polls[1..] == [Data(second)];
  }

  /** The loop only ends with a quiet poll, the end of the stream or an error. */
  predicate Ends(p: Poll) {
    p.Quiet? || p.Eof? || p.Failed?
  }

  predicate Returns(polls: seq<Poll>) {
    exists p :: p in polls && Ends(p)
  }

  lemma NextPoll(polls: seq<Poll>, i: nat)
    requires i < |polls|
    ensures Fetched(polls[i..]) == match polls[i]
      case Data(bytes) => CString(bytes) + Fetched(polls[i + 1..])
      case NotReadable => Fetched(polls[i + 1..])
      case _ => ""
  {
    assert polls[i..][0] == polls[i] && polls[i..][1..] == polls[i + 1..];
  }

  /** What one turn of the loop does to the text collected so far. */
  lemma ReadOn(polls: seq<Poll>, i: nat, logs: string)
    requires i < |polls| && logs + Fetched(polls[i..]) == Fetched(polls)
    ensures polls[i].Data? ==> logs + CString(polls[i].bytes) + Fetched(polls[i + 1..]) == Fetched(polls)
    ensures polls[i].NotReadable? ==> logs + Fetched(polls[i + 1..]) == Fetched(polls)
    ensures Ends(polls[i]) ==> logs == Fetched(polls) && Returns(polls)
  {
    NextPoll(polls, i);
    if polls[i].Data? {
      Regroup(logs, CString(polls[i].bytes), Fetched(polls[i + 1..]));
    } else if Ends(polls[i]) {
      assert polls[i] in polls;
    }
  }

  lemma Regroup(a: string, b: string, c: string)
    ensures a + (b + c) == a + b + c
  {}

  /** A terminal that is hung up without data wakes the loop again and again: however long, it has not returned. */
  lemma HungUpNeverReturns(polls: seq<Poll>)
    requires forall p :: p in polls ==> p.NotReadable?
    ensures !Returns(polls) && Fetched(polls) == Consumed(polls) == ""
  {
    if polls != [] {
      HungUpNeverReturns(polls[1..]);
    }
  }

  function AllFetched(calls: seq<seq<Poll>>): string {
    if calls == [] then "" else Fetched(calls[0]) + AllFetched(calls[1..])
  }

  function AllConsumed(calls: seq<seq<Poll>>): string {
    if calls == [] then "" else Consumed(calls[0]) + AllConsumed(calls[1..])
  }

  lemma {:induction false} AllFetchedLength(calls: seq<seq<Poll>>)
    ensures |AllFetched(calls)| <= |AllConsumed(calls)|
    ensures |AllFetched(calls)| == |AllConsumed(calls)| ==> NulFree(AllConsumed(calls))
    ensures NulFree(AllConsumed(calls)) ==> AllFetched(calls) == AllConsumed(calls)
  {
    if calls != [] {
      FetchedIsConsumed(calls[0]);
      AllFetchedLength(calls[1..]);
    }
  }

  /**
   Two observers of the same output, polling and reading in different portions over any number of calls,
   both collect exactly that output if it has no NUL; with a NUL in it neither does.
   */
  lemma SplitsDoNotMatter(calls: seq<seq<Poll>>, others: seq<seq<Poll>>)
    requires AllConsumed(calls) == AllConsumed(others)
    ensures NulFree(AllConsumed(calls)) <==> AllFetched(calls) == AllConsumed(calls)
    ensures NulFree(AllConsumed(calls)) ==> AllFetched(calls) == AllFetched(others)
  {
    AllFetchedLength(calls);
    AllFetchedLength(others);
  }

  // ---------- the object ----------

  /** The service's map together with the containers and descriptors it works on. */
  class LXCContainerManager {
    var defined: set<string>
    var running: set<string>
    var containerLogFds: map<string, int>
    var open: map<int, Holder>
    ghost var misuse: bool

    ghost function View(): State
      reads this
    {
      State(defined, running, containerLogFds, open, misuse)
    }

    constructor ()
      ensures View() == BOOT
    {
      defined, running, containerLogFds, open, misuse := {}, {}, map[], map[], false;
    }

    method InitContainer(id: string, known: bool) returns (ok: bool)
      ensures ok == Initialised(View(), id, known)
    {
      ok := known && id in defined;
    }

    method StartContainer(id: string, capture: bool, known: bool, outcome: StartOutcome) returns (ret: bool)
      modifies this
      ensures (View(), ret) == StartEffect(old(View()), id, capture, known, outcome)
    {
      var ok := InitContainer(id, known);
      if !ok {
        return false;
      }
      if id in running {
        return true;
      }
      if !outcome.ok && !outcome.up {
        return false;
      }
      running := running + {id};
      if capture {
        if outcome.terminal < 0 {
          return false;
        }
        open := open[outcome.terminal := Terminal];
        containerLogFds := containerLogFds[id := outcome.terminal];
      }
      ret := true;
    }

    method Close(fd: int)
      modifies this`open, this`misuse
      ensures View() == CloseTerminal(old(View()), fd)
    {
      misuse := misuse || fd !in open || !open[fd].Terminal?;
      open := open - {fd};
    }

    method StopContainer(id: string, known: bool, stopped: bool) returns (ret: bool)
      modifies this
      ensures (View(), ret) == StopEffect(old(View()), id, known, stopped)
    {
      var ok := InitContainer(id, known);
      if !ok {
        return false;
      }
      ret := id !in running || stopped;
      if stopped {
        running := running - {id};
      }
      if id in containerLogFds {
        Close(containerLogFds[id]);
        containerLogFds := containerLogFds - {id};
      }
    }

    /**
     The loop over the given polls, which may be only the beginning of what it will meet: `returned` is
     whether it has ended within them.
     */
    method FetchContainerLogs(id: string, polls: seq<Poll>) returns (logs: string, returned: bool)
      modifies this`misuse
      ensures View() == FetchEffect(old(View()), id)
      ensures logs == if id in containerLogFds then Fetched(polls) else ""
      ensures returned <==> id !in containerLogFds || Returns(polls)
    {
      logs, returned := "", true;
      if id !in containerLogFds {
        return;
      }
      var fd := containerLogFds[id];
      misuse := misuse || fd !in open || !open[fd].Terminal?;
      logs, returned := ReadTerminal(polls);
    }

    method ReadTerminal(polls: seq<Poll>) returns (logs: string, returned: bool)
      ensures logs == Fetched(polls)
      ensures returned <==> Returns(polls)
    {
      logs := "";
      var i := 0;
      while i < |polls|
        invariant 0 <= i <= |polls|
        invariant logs + Fetched(polls[i..]) == Fetched(polls)
        invariant forall k :: 0 <= k < i ==> !Ends(polls[k])
      {
        ReadOn(polls, i, logs);
        if polls[i].Data? {
          logs := logs + CString(polls[i].bytes);
        } else if !polls[i].NotReadable? {
          return logs, true;
        }
        i := i + 1;
      }
      returned := false;
    }

    /** strspn over the permitted characters, compared with the length. */
    method IsValidId(id: string) returns (valid: bool)
      ensures valid == ValidId(id)
    {
      var span := 0;
      while span < |id| && IdCharacter(id[span])
        invariant 0 <= span <= |id|
        invariant forall i :: 0 <= i < span ==> IdCharacter(id[i])
      {
        span := span + 1;
      }
      valid := !(span != |id| || |id| > MAX_ID);
    }

    method ContainerAdd(id: string, known: bool, created: bool) returns (ret: bool)
      modifies this`defined
      ensures (View(), ret) == AddEffect(old(View()), id, known, created)
    {
      var valid := IsValidId(id);
      if !valid || !known {
        return false;
      }
      if id in running {
        return false;
      }
      if id in defined {
        return false;
      }
      ret := true;
      if created {
        defined := defined + {id};
      } else {
        ret := false;
      }
    }

    method ContainerDelete(id: string, known: bool, destroyed: bool) returns (ret: bool)
      modifies this`defined
      ensures (View(), ret) == DeleteEffect(old(View()), id, known, destroyed)
    {
      var ok := InitContainer(id, known);
      if !ok {
        return false;
      }
      if id in running {
        return false;
      }
      ret := destroyed;
      if destroyed {
        defined := defined - {id};
      }
    }
  }
}
