/**
  When a closed connection takes its session with it: the active threads always call `erase_fd` before
  `close_fd`, the epoll thread only in a build with RELEASE defined.
*/
module ConnectionSessions {
  import opened Bytes
  import opened Folds
  import opened Connection
  import opened ConnectionSafety
  import opened ConnectionRuns

  predicate Erasing(a: Action) {
    a == ByLoop(LoopAction.EraseSession) || (a.ByActive? && a.a == ActiveAction.EraseSession)
  }

  predicate LoopClosing(a: Action) { a == ByLoop(LoopAction.CloseFd) }

  function OnceIf(b: bool): nat { if b then 1 else 0 }

  /** The epoll thread is between erasing the session and closing. */
  predicate LoopOwes(g: Shared, pc: LoopPc) { g.release && pc.LClose? }

  ghost predicate Erases(g: Shared, pc: LoopPc) { pc.LErase? ==> g.release }

  /** How many have erased the session in order to close, whether or not they have come to that. */
  function Leavers(s: State): nat {
    s.g.closes + OnceIf(Project(s).a.AClose?) + OnceIf(LoopOwes(s.g, s.loop))
  }

  // ---------- one step ----------

  lemma LoopMovePays(g: Shared, pc: LoopPc, l: LoopAction)
    requires LoopMove(g, pc, l).LoopGoes? && Erases(g, pc)
    ensures var m := LoopMove(g, pc, l);
            && m.g.release == g.release && Erases(m.g, m.pc)
            && m.g.closes + OnceIf(LoopOwes(m.g, m.pc))
               == g.closes + OnceIf(LoopOwes(g, pc)) + OnceIf(l.EraseSession?) + OnceIf(!g.release && l.CloseFd?)
  {
    match l
    case ReadEnd =>
    case EraseSession =>
    case CloseFd =>
    case _ =>
  }

  lemma LoopStepPays(s: State, l: LoopAction)
    requires Inv(s) && LoopStep(s, l).Some? && Erases(s.g, s.loop)
    ensures var t := LoopStep(s, l).value;
            && t.g.release == s.g.release && Erases(t.g, t.loop)
            && Leavers(t) == Leavers(s) + OnceIf(l.EraseSession?) + OnceIf(!s.g.release && l.CloseFd?)
  {
    if !l.BeginDrain? {
      LoopMovePays(s.g, s.loop, l);
    }
  }

  lemma TaskStepPays(s: State, i: nat, a: TaskAction)
    requires Inv(s) && TaskStep(s, i, a).Some?
    ensures var t := TaskStep(s, i, a).value;
            t.g.release == s.g.release && t.loop == s.loop && Leavers(t) == Leavers(s)
  {
    match a
    case Notify(woken) =>
    case _ =>
  }

  lemma ActiveMovePays(g: Shared, me: nat, pc: ActivePc, a: ActiveAction, inMap: bool)
    requires ActiveMove(g, me, pc, a, inMap).ActiveGoes?
    ensures var m := ActiveMove(g, me, pc, a, inMap);
            && m.g.release == g.release && !pc.AGone?
            && m.g.closes + OnceIf(m.pc.AClose?) == g.closes + OnceIf(pc.AClose?) + OnceIf(a.EraseSession?)
  {
    match a
    case EraseSession =>
    case CloseFd =>
    case _ =>
  }

  lemma ActiveStepPays(s: State, j: nat, a: ActiveAction)
    requires Inv(s) && ActiveStep(s, j, a).Some?
    ensures var t := ActiveStep(s, j, a).value;
            t.g.release == s.g.release && t.loop == s.loop && Leavers(t) == Leavers(s) + OnceIf(a.EraseSession?)
  {
    ActiveMovePays(s.g, j, s.actives[j], a, s.loop.InMap());
    assert j == |s.actives| - 1;
  }

  lemma StepPays(s: State, a: Action)
    requires Inv(s) && Step(s, a).Some? && Erases(s.g, s.loop)
    ensures var t := Step(s, a).value;
            && t.g.release == s.g.release && Erases(t.g, t.loop)
            && Leavers(t) == Leavers(s) + OnceIf(Erasing(a)) + OnceIf(!s.g.release && LoopClosing(a))
  {
    match a
    case ByLoop(l) => LoopStepPays(s, l);
    case ByTask(i, t) => TaskStepPays(s, i, t);
    case ByActive(j, t) => ActiveStepPays(s, j, t);
  }

  // ---------- whole runs ----------

  lemma {:induction false} RunPays(s: State, acts: seq<Action>)
    requires Inv(s) && Run(s, acts).Some? && Erases(s.g, s.loop)
    ensures var t := Run(s, acts).value;
            && t.g.release == s.g.release && Inv(t)
            && Leavers(t) == Leavers(s) + Count(acts, Erasing) + (if s.g.release then 0 else Count(acts, LoopClosing))
    decreases acts
  {
    if acts != [] {
      StepPays(s, acts[0]);
      StepKeepsInv(s, acts[0]);
      RunPays(Step(s, acts[0]).value, acts[1..]);
    }
  }

  /**
    In every run `erase_fd` is called for the connection at most once, and never on one that stays open.
    When the connection has been closed it was called exactly if RELEASE is defined or an active thread
    did the closing: otherwise the session outlives the connection.
  */
  lemma SessionGivenUp(relockable: bool, release: bool, acts: seq<Action>)
    requires Run(Init(relockable, release), acts).Some?
    ensures var s := Run(Init(relockable, release), acts).value;
            && Count(acts, Erasing) <= 1
            && (s.g.life.Closed? ==> (Count(acts, Erasing) == 1 <==> release || Count(acts, LoopClosing) == 0))
            && (Count(acts, Erasing) == 1 && !s.g.life.Closed? ==> s.loop.LClose? || Project(s).a.AClose?)
  {
    var start := Init(relockable, release);
    var s := Run(start, acts).value;
    InitInv(relockable, release);
    RunPays(start, acts);
    assert Reachable(s);
    ClosedOnce(s);
  }

  /** And it does outlive it: without RELEASE, a connection whose peer just closes it keeps its session. */
  lemma SessionLeftBehind(relockable: bool) returns (acts: seq<Action>, s: State)
    ensures Run(Init(relockable, false), acts) == Some(s) && s.g.life.Closed? && Count(acts, Erasing) == 0
  {
    var start := Init(relockable, false);
    acts, s := Dispatched(start);
    acts, s := PeerGone(start, acts, s);
    acts, s := JustClosed(start, acts, s);
  }

  lemma PeerGone(start: State, before: seq<Action>, s0: State) returns (acts: seq<Action>, s: State)
    requires Run(start, before) == Some(s0) && Count(before, Erasing) == 0
    requires s0.g.life.Registered? && s0.loop.LHandle? && !s0.g.release
    ensures Run(start, acts) == Some(s) && s.loop.LClose? && Count(acts, Erasing) == 0
  {
    acts, s := Then(start, before, s0, LoopAction.Lookup, s0.g, LRead);
    acts, s := Then(start, acts, s, LoopAction.ReadEnd, s0.g, LClose);
  }

  lemma JustClosed(start: State, before: seq<Action>, s0: State) returns (acts: seq<Action>, s: State)
    requires Run(start, before) == Some(s0) && Count(before, Erasing) == 0 && s0.loop.LClose?
    ensures Run(start, acts) == Some(s) && s.g.life.Closed? && Count(acts, Erasing) == 0
  {
    acts, s := Then(start, before, s0, LoopAction.CloseFd, s0.g.(life := Closed, closes := s0.g.closes + 1), LIdle);
  }

  lemma Dispatched(start: State) returns (acts: seq<Action>, s: State)
    requires start.g.life.Unregistered? && start.loop.LIdle? && !start.g.running && !start.g.inPool
    ensures Run(start, acts) == Some(s) && Count(acts, Erasing) == 0
    ensures s == start.(g := start.g.(life := Registered), loop := LHandle)
  {
    acts, s := [], start;
    var g := start.g.(life := Registered);
    acts, s := Then(start, acts, s, Register, g, LIdle);
    acts, s := Then(start, acts, s, Event, g, LFound);
    acts, s := Then(start, acts, s, TakeMap, g, LTest);
    acts, s := Then(start, acts, s, TestRunning, g, LTestPool);
    acts, s := Then(start, acts, s, LoopAction.TestPool, g, LHandle);
  }

  lemma Then(start: State, acts: seq<Action>, s: State, l: LoopAction, g: Shared, pc: LoopPc) returns (more: seq<Action>, t: State)
    requires Run(start, acts) == Some(s) && Count(acts, Erasing) == 0
    requires LoopMove(s.g, s.loop, l) == LoopGoes(g, pc)
    requires !l.BeginDrain? && !l.ExitLoop? && !l.Enqueue? && !l.Spawn? && !l.EraseSession?
    ensures Run(start, more) == Some(t) && Count(more, Erasing) == 0 && t == s.(g := g, loop := pc)
  {
    more, t := acts + [ByLoop(l)], s.(g := g, loop := pc);
    RunThen(start, acts, ByLoop(l));
    CountConcat(acts, [ByLoop(l)], Erasing);
  }
}
