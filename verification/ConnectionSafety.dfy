/** What holds in every run of one connection, whatever the interleaving and whatever the peer sends. */
module ConnectionSafety {
  import opened Bytes
  import opened Folds
  import opened Codec
  import opened Connection

  // ---------- runs ----------

  /** The state after performing `acts` in order, or None if one of them is not enabled. */
  function Run(s: State, acts: seq<Action>): Option<State>
    decreases acts
  {
    if acts == [] then Some(s)
    else
      match Step(s, acts[0])
      case None => None
      case Some(t) => Run(t, acts[1..])
  }

  lemma StepKeepsInv(s: State, a: Action)
    requires Inv(s) && Step(s, a).Some?
    ensures Inv(Step(s, a).value)
  {
    match a
    case ByLoop(l) => LoopStepKeepsInv(s, l);
    case ByTask(i, t) => TaskStepKeepsInv(s, i, t);
    case ByActive(j, t) => ActiveStepKeepsInv(s, j, t);
  }

  lemma {:induction false} RunKeepsInv(s: State, acts: seq<Action>)
    requires Inv(s) && Run(s, acts).Some?
    ensures Inv(Run(s, acts).value)
    decreases acts
  {
    if acts != [] {
      StepKeepsInv(s, acts[0]);
      RunKeepsInv(Step(s, acts[0]).value, acts[1..]);
    }
  }

  ghost predicate Reachable(s: State) {
    exists acts, relockable, release :: Run(Init(relockable, release), acts) == Some(s)
  }

  lemma InitInv(relockable: bool, release: bool)
    ensures Inv(Init(relockable, release))
  {
  }

  lemma ReachableInv(s: State)
    requires Reachable(s)
    ensures Inv(s)
  {
    var acts, relockable, release :| Run(Init(relockable, release), acts) == Some(s);
    InitInv(relockable, release);
    RunKeepsInv(Init(relockable, release), acts);
  }

  // ---------- order and exclusion ----------

  /**
    Chunks are finished in exactly the order in which they were read, none twice and none skipped,
    with the parser's verdict, although three kinds of thread read and handle; at most one chunk has
    been read and not finished.
  */
  lemma HandledInReadOrder(s: State)
    requires Reachable(s)
    ensures |s.g.done| <= |s.g.received| <= |s.g.done| + 1
    ensures s.g.done == seq(|s.g.done|, k requires 0 <= k < |s.g.done| <= |s.g.received| => Verdict(s.g.received[k]))
  {
    ReachableInv(s);
  }

  /** What a finished chunk gave to `handle_request`. */
  function Request(d: Done): seq<Frame> {
    if d.outcome.Handled? && Codec.Parse(d.chunk).Some? then [Codec.Parse(d.chunk).value] else []
  }

  /** The frames handed to `handle_request`, in order. */
  function Served(done: seq<Done>): seq<Frame> {
    FlatMap(done, Request)
  }

  /** At most one pool task is unfinished, and one that has not cleared the flag implies the flag. */
  lemma OnePoolTask(s: State, i: nat, k: nat)
    requires Reachable(s)
    requires i < |s.tasks| && k < |s.tasks| && !s.tasks[i].pc.TDone? && !s.tasks[k].pc.TDone?
    ensures i == k
    ensures s.tasks[i].pc.Engaged() ==> s.g.inPool
  {
    ReachableInv(s);
  }

  /** At most one active thread exists, and until it gives the flag back `thread_running` is set. */
  lemma OneActiveThread(s: State, j: nat, k: nat)
    requires Reachable(s)
    requires j < |s.actives| && k < |s.actives| && !s.actives[j].AGone? && !s.actives[k].AGone?
    ensures j == k
    ensures s.actives[j].Engaged() ==> s.g.running
  {
    ReachableInv(s);
  }

  /**
    Whoever is at a `read` owns the connection: no pool task is engaged and no other thread holds a
    chunk. So two calls of `handle_request` for one connection never overlap.
  */
  lemma ReadersAndHandlersExclude(s: State, i: nat, j: nat)
    requires Reachable(s)
    ensures s.loop.LRead? && i < |s.tasks| ==> !s.tasks[i].pc.Engaged()
    ensures s.loop.LRead? && j < |s.actives| ==> !s.actives[j].Engaged()
    ensures j < |s.actives| && s.actives[j].ARead? && i < |s.tasks| ==> !s.tasks[i].pc.Engaged()
    ensures j < |s.actives| && s.actives[j].ARead? ==> !s.loop.Handling() && !s.loop.Handing()
    ensures !(i < |s.tasks| && s.tasks[i].pc.THandling? && j < |s.actives| && s.actives[j].AHandling?)
  {
    ReachableInv(s);
  }

  /** An active thread asleep on the condition variable is still owed a notification. */
  lemma NoLostNotification(s: State, j: nat)
    requires Reachable(s) && j < |s.actives| && s.actives[j].AAsleep?
    ensures s.g.inPool || exists i :: 0 <= i < |s.tasks| && s.tasks[i].pc.TNotify?
  {
    ReachableInv(s);
    if !s.g.inPool {
      assert s.tasks[|s.tasks| - 1].pc.TNotify?;
    }
  }

  // ---------- closing ----------

  /**
    `close_fd` runs at most once, by the epoll thread or by an active thread but never both, and only
    once every chunk that was read has been finished.
  */
  lemma ClosedOnce(s: State)
    requires Reachable(s)
    ensures s.g.closes <= 1
    ensures s.g.closes == 1 ==> s.g.life.Closed? && |s.g.done| == |s.g.received|
    ensures s.loop.LErase? || s.loop.LClose? ==> s.g.closes == 0 && |s.g.done| == |s.g.received|
    ensures forall j :: 0 <= j < |s.actives| && (s.actives[j].AErase? || s.actives[j].AClose?) ==>
              s.g.closes == 0 && |s.g.done| == |s.g.received| && !s.loop.LErase? && !s.loop.LClose?
  {
    ReachableInv(s);
    if s.g.life.Closed? {
      ClosedIsQuiet(s);
    }
  }

  lemma ClosedIsQuiet(s: State)
    requires Inv(s) && s.g.life.Closed?
    ensures !Busy(Project(s))
  {
  }

  // ---------- when the connection stops for good ----------

  /** An active thread has a chunk in hand and is about to lock the mutex it already holds. */
  ghost predicate SelfLocked(v: View) {
    !v.g.relockable && (v.a.AFind? || v.a.ARelock?)
  }

  /**
    The two ways a connection gets stuck: the lock above, or a pool task that dropped an unparsable
    chunk without clearing `fd_inthreadpool`.
  */
  ghost predicate Frozen(s: State) {
    s.g.poisoned || SelfLocked(Project(s))
  }

  /** An unparsable chunk is on its way into the pool, or waits there. */
  ghost predicate Doomed(v: View) {
    || (v.loop.HoldsChunk() && !Parses(v.loop.chunk))
    || (v.t.pc.HoldsChunk() && !Parses(v.t.chunk))
  }

  ghost predicate SameHistory(s: State, t: State) {
    t.g.received == s.g.received && t.g.done == s.g.done && t.g.closes == s.g.closes
  }

  lemma FrozenLoop(s: State, a: LoopAction)
    requires Inv(s) && Frozen(s) && LoopStep(s, a).Some?
    ensures Frozen(LoopStep(s, a).value) && SameHistory(s, LoopStep(s, a).value)
  {
  }

  lemma FrozenTask(s: State, i: nat, a: TaskAction)
    requires Inv(s) && Frozen(s) && TaskStep(s, i, a).Some?
    ensures Frozen(TaskStep(s, i, a).value) && SameHistory(s, TaskStep(s, i, a).value)
  {
    var v := Project(s);
    assert i == |s.tasks| - 1;
    assert v.t.pc.TUnlock?;
  }

  lemma FrozenActive(s: State, j: nat, a: ActiveAction)
    requires Inv(s) && Frozen(s) && ActiveStep(s, j, a).Some?
    ensures Frozen(ActiveStep(s, j, a).value) && SameHistory(s, ActiveStep(s, j, a).value)
  {
    var v := Project(s);
    assert j == |s.actives| - 1;
    assert s.g.poisoned ==> !v.a.PastWait();
    var ActiveGoes(g, pc) := ActiveMove(s.g, j, s.actives[j], a, s.loop.InMap());
    ActiveStepSeen(s, j, a, g, pc);
    match a
    case Begin =>
    case _ =>
  }

  lemma FrozenStep(s: State, a: Action)
    requires Inv(s) && Frozen(s) && Step(s, a).Some?
    ensures Frozen(Step(s, a).value) && SameHistory(s, Step(s, a).value)
  {
    match a
    case ByLoop(l) => FrozenLoop(s, l);
    case ByTask(i, t) => FrozenTask(s, i, t);
    case ByActive(j, t) => FrozenActive(s, j, t);
  }

  /** From then on nothing is ever read, handled or closed again. */
  lemma {:induction false} FrozenForever(s: State, acts: seq<Action>)
    requires Inv(s) && Frozen(s) && Run(s, acts).Some?
    ensures Frozen(Run(s, acts).value) && SameHistory(s, Run(s, acts).value)
    decreases acts
  {
    if acts != [] {
      StepKeepsInv(s, acts[0]);
      FrozenStep(s, acts[0]);
      FrozenForever(Step(s, acts[0]).value, acts[1..]);
    }
  }

  // A schedule that finishes the outstanding chunk of a connection that is not stuck.

  function MapRank(pc: LoopPc): nat {
    match pc
    case LTest => 6
    case LTestPool => 5
    case LNeed => 4
    case LRun => 3
    case LSpawn => 2
    case LMark => 1
    case _ => 0
  }

  /** The epoll thread's way out of its `fd_map` section. */
  function LeaveMap(pc: LoopPc): LoopAction
    requires pc.InMap()
  {
    match pc
    case LTest => TestRunning
    case LMark => MarkNeed
    case LTestPool => LoopAction.TestPool
    case LNeed => SetNeed
    case LRun => SetRunning
    case LSpawn => Spawn
  }

  ghost function Rank(v: View): nat {
    if v.loop.LLock? then
      40 + (if v.t.pc.TNotify? then 2 else if v.t.pc.TUnlock? then 1 else 0) + (if v.a.ANotify? then 2 else if v.a.ALeave? then 1 else 0)
    else if v.loop.LFlag? then 35
    else if v.loop.LUnlock? then 34
    else if v.loop.LEnqueue? then 33
    else if v.t.pc.TQueued? || v.a.AFind? then 20 + MapRank(v.loop)
    else if v.t.pc.TWant? then 10 + (if v.a.ATest? then 1 else 0)
    else if v.a.ARelock? then 10
    else if v.t.pc.TParse? || v.a.AParse? then 5
    else 4
  }

  /** The sleeping active thread, if there is one. */
  function Sleeper(s: State): Option<nat> {
    if s.actives != [] && s.actives[|s.actives| - 1].AAsleep? then Some(|s.actives| - 1) else None
  }

  /** The next step of whoever can bring the outstanding chunk nearer to its end. */
  ghost function Advance(s: State): Action
    requires Inv(s) && Busy(Project(s)) && !Frozen(s)
  {
    var v := Project(s);
    var i, j := |s.tasks| - 1, |s.actives| - 1;
    if v.loop.LLock? then
      if v.t.pc.TNotify? then ByTask(i, TaskAction.Notify(Sleeper(s)))
      else if v.t.pc.TUnlock? then ByTask(i, TaskAction.Unlock)
      else if v.a.ANotify? then ByActive(j, ActiveAction.Notify(Sleeper(s)))
      else if v.a.ALeave? then ByActive(j, Leave)
      else ByLoop(LockFd)
    else if v.loop.LFlag? then ByLoop(RaiseFlag)
    else if v.loop.LUnlock? then ByLoop(UnlockFd)
    else if v.loop.LEnqueue? then ByLoop(Enqueue)
    else if (v.t.pc.TQueued? || v.a.AFind?) && v.loop.InMap() then ByLoop(LeaveMap(v.loop))
    else if v.t.pc.TQueued? then ByTask(i, TaskAction.Begin)
    else if v.t.pc.TWant? && v.a.ATest? then ByActive(j, TestFlag)
    else if v.t.pc.TWant? then ByTask(i, TaskAction.Lock)
    else if v.t.pc.TParse? then ByTask(i, TaskAction.Parse)
    else if v.t.pc.THandling? then ByTask(i, TaskAction.Return)
    else if v.a.AFind? then ByActive(j, Find)
    else if v.a.ARelock? then ByActive(j, Relock)
    else if v.a.AParse? then ByActive(j, ActiveAction.Parse)
    else ByActive(j, ActiveAction.Return)
  }

  ghost predicate Nearer(s: State, t: State) {
    && t.g.received == s.g.received
    && (Busy(Project(t)) ==> !Frozen(t) && Rank(Project(t)) < Rank(Project(s)))
  }

  lemma AdvanceLoop(s: State)
    requires Inv(s) && !Frozen(s) && s.loop.HoldsChunk()
    ensures Step(s, Advance(s)).Some? && Nearer(s, Step(s, Advance(s)).value)
  {
    match Advance(s) {
      case ByLoop(l) => AdvanceLoopItself(s, l);
      case ByTask(i, t) => AdvanceTrailingTask(s, t);
      case ByActive(j, t) => AdvanceTrailingActive(s, t);
    }
  }

  lemma AdvanceLoopItself(s: State, l: LoopAction)
    requires Inv(s) && !Frozen(s) && s.loop.HoldsChunk() && Advance(s) == ByLoop(l)
    ensures Step(s, Advance(s)).Some? && Nearer(s, Step(s, Advance(s)).value)
  {
    var v := Project(s);
    assert !v.t.pc.Engaged() && !v.a.Engaged();
    var LoopGoes(g, pc) := LoopMove(s.g, s.loop, l);
    LoopStepSeen(s, l, g, pc);
  }

  lemma AdvanceTrailingTask(s: State, t: TaskAction)
    requires Inv(s) && !Frozen(s) && s.loop.LLock? && Advance(s).ByTask? && Advance(s).t == t
    ensures Step(s, Advance(s)).Some? && Nearer(s, Step(s, Advance(s)).value)
  {
    var v, i := Project(s), |s.tasks| - 1;
    assert WakeChoice(s.actives, Sleeper(s));
    var TaskGoes(g, pc) := TaskMove(s.g, i, s.tasks[i], t, s.loop.InMap());
    TaskStepSeen(s, i, t, g, pc);
  }

  lemma AdvanceTrailingActive(s: State, t: ActiveAction)
    requires Inv(s) && !Frozen(s) && s.loop.LLock? && Advance(s).ByActive? && Advance(s).a == t
    ensures Step(s, Advance(s)).Some? && Nearer(s, Step(s, Advance(s)).value)
  {
    var v, j := Project(s), |s.actives| - 1;
    assert WakeChoice(s.actives, Sleeper(s));
    var ActiveGoes(g, pc) := ActiveMove(s.g, j, s.actives[j], t, s.loop.InMap());
    ActiveStepSeen(s, j, t, g, pc);
  }

  lemma MapStep(s: State, l: LoopAction)
    requires Inv(s) && s.loop.InMap() && (Project(s).t.pc.TQueued? || Project(s).a.AFind?) && l == LeaveMap(s.loop)
    requires !Frozen(s)
    ensures LoopStep(s, l).Some? && Nearer(s, LoopStep(s, l).value)
  {
    var v := Project(s);
    var LoopGoes(g, pc) := LoopMove(s.g, s.loop, l);
    LoopStepSeen(s, l, g, pc);
    match s.loop
    case LTest =>
    case _ =>
  }

  lemma AdvanceMap(s: State)
    requires Inv(s) && !Frozen(s) && s.loop.InMap() && (Project(s).t.pc.TQueued? || Project(s).a.AFind?)
    ensures Step(s, Advance(s)).Some? && Nearer(s, Step(s, Advance(s)).value)
  {
    var v, l := Project(s), LeaveMap(s.loop);
    assert !v.loop.HoldsChunk() && !v.t.pc.TWant? && Advance(s) == ByLoop(l);
    MapStep(s, l);
  }

  lemma AdvanceTask(s: State)
    requires Inv(s) && !Frozen(s) && Project(s).t.pc.HoldsChunk() && !(s.loop.InMap() && Project(s).t.pc.TQueued?)
    ensures Step(s, Advance(s)).Some? && Nearer(s, Step(s, Advance(s)).value)
  {
    if Project(s).t.pc.TWant? && Project(s).a.ATest? {
      AdvanceTester(s);
    } else {
      AdvanceTaskItself(s);
    }
  }

  /** The task waits for an active thread that is about to find the flag set. */
  lemma AdvanceTester(s: State)
    requires Inv(s) && !Frozen(s) && Project(s).t.pc.TWant? && Project(s).a.ATest?
    ensures Step(s, Advance(s)).Some? && Nearer(s, Step(s, Advance(s)).value)
  {
    var v, j := Project(s), |s.actives| - 1;
    assert !v.loop.HoldsChunk() && v.g.inPool && Advance(s) == ByActive(j, TestFlag);
    var ActiveGoes(g, pc) := ActiveMove(s.g, j, s.actives[j], TestFlag, s.loop.InMap());
    ActiveStepSeen(s, j, TestFlag, g, pc);
  }

  lemma AdvanceTaskItself(s: State)
    requires Inv(s) && !Frozen(s) && Project(s).t.pc.HoldsChunk() && !(s.loop.InMap() && Project(s).t.pc.TQueued?)
    requires !(Project(s).t.pc.TWant? && Project(s).a.ATest?)
    ensures Step(s, Advance(s)).Some? && Nearer(s, Step(s, Advance(s)).value)
  {
    var v, i, a := Project(s), |s.tasks| - 1, TaskTurn(Project(s).t.pc, None);
    assert !v.loop.HoldsMutex() && !v.loop.HoldsChunk() && !v.a.PastWait();
    assert Advance(s) == ByTask(i, a);
    var TaskGoes(g, pc) := TaskMove(s.g, i, s.tasks[i], a, s.loop.InMap());
    TaskStepSeen(s, i, a, g, pc);
  }

  lemma AdvanceActive(s: State)
    requires Inv(s) && !Frozen(s) && Project(s).a.HoldsChunk() && !(s.loop.InMap() && Project(s).a.AFind?)
    ensures Step(s, Advance(s)).Some? && Nearer(s, Step(s, Advance(s)).value)
  {
    var v, j := Project(s), |s.actives| - 1;
    assert !v.loop.HoldsChunk() && !v.t.pc.HoldsChunk();
    var t := Advance(s).a;
    var ActiveGoes(g, pc) := ActiveMove(s.g, j, s.actives[j], t, s.loop.InMap());
    ActiveStepSeen(s, j, t, g, pc);
  }

  /** Apart from the chunk nothing has happened: no close, and the epoll thread still runs if it did. */
  ghost predicate Aside(s: State, t: State) {
    t.g.life == s.g.life && t.g.closes == s.g.closes && (t.loop.LExited? <==> s.loop.LExited?)
  }

  predicate Internal(a: Action) {
    match a
    case ByLoop(l) => !l.Register? && !l.CloseFd? && !l.ExitLoop?
    case ByTask(_, t) => !t.Throw?
    case ByActive(_, t) => !t.CloseFd?
  }

  lemma LoopAside(g: Shared, pc: LoopPc, a: LoopAction, h: Shared, next: LoopPc)
    requires Internal(ByLoop(a)) && LoopMove(g, pc, a) == LoopGoes(h, next)
    ensures h.life == g.life && h.closes == g.closes && (next.LExited? <==> pc.LExited?)
  {
    match a
    case Register =>
    case _ =>
  }

  lemma TaskAside(g: Shared, me: nat, t: TaskRec, a: TaskAction, inMap: bool, h: Shared, next: TaskPc)
    requires TaskMove(g, me, t, a, inMap) == TaskGoes(h, next)
    ensures h.life == g.life && h.closes == g.closes
  {
    match a
    case Begin =>
    case _ =>
  }

  lemma ActiveAside(g: Shared, me: nat, pc: ActivePc, a: ActiveAction, inMap: bool, h: Shared, next: ActivePc)
    requires !a.CloseFd? && ActiveMove(g, me, pc, a, inMap) == ActiveGoes(h, next)
    ensures h.life == g.life && h.closes == g.closes
  {
    match a
    case Begin =>
    case _ =>
  }

  lemma InternalAside(s: State, a: Action)
    requires Internal(a) && Step(s, a).Some?
    ensures Aside(s, Step(s, a).value)
  {
    match a
    case ByLoop(l) =>
      if !l.BeginDrain? {
        var LoopGoes(g, pc) := LoopMove(s.g, s.loop, l);
        LoopAside(s.g, s.loop, l, g, pc);
      }
    case ByTask(i, t) =>
      var TaskGoes(g, pc) := TaskMove(s.g, i, s.tasks[i], t, s.loop.InMap());
      TaskAside(s.g, i, s.tasks[i], t, s.loop.InMap(), g, pc);
    case ByActive(j, t) =>
      var ActiveGoes(g, pc) := ActiveMove(s.g, j, s.actives[j], t, s.loop.InMap());
      ActiveAside(s.g, j, s.actives[j], t, s.loop.InMap(), g, pc);
  }

  lemma AdvanceAside(s: State)
    requires Inv(s) && !Frozen(s) && Busy(Project(s)) && Step(s, Advance(s)).Some?
    ensures Aside(s, Step(s, Advance(s)).value) && Internal(Advance(s))
  {
    assert Internal(Advance(s));
    InternalAside(s, Advance(s));
  }

  lemma FineLoop(v: View, a: LoopAction, g: Shared, pc: LoopPc)
    requires ViewInv(v) && !v.g.poisoned && !Doomed(v)
    requires LoopMove(v.g, v.loop, a) == LoopGoes(g, pc) && g.received == v.g.received
    ensures !g.poisoned && !Doomed(LoopView(v, a, g, pc))
  {
    match a
    case Register =>
    case _ =>
  }

  lemma FineTask(v: View, a: TaskAction, g: Shared, pc: TaskPc)
    requires ViewInv(v) && !v.g.poisoned && !Doomed(v) && !a.Throw?
    requires v.ti >= 0 && TaskMove(v.g, v.ti, v.t, a, v.loop.InMap()) == TaskGoes(g, pc)
    ensures !g.poisoned && !Doomed(TaskView(v, a, g, pc))
  {
    match a
    case Begin =>
    case _ =>
  }

  lemma FineActive(v: View, a: ActiveAction, g: Shared, pc: ActivePc)
    requires ViewInv(v) && !v.g.poisoned && !Doomed(v)
    requires v.ai >= 0 && ActiveMove(v.g, v.ai, v.a, a, v.loop.InMap()) == ActiveGoes(g, pc)
    ensures !g.poisoned && !Doomed(v.(g := g, a := pc))
  {
    match a
    case Begin =>
    case _ =>
  }

  /** Only an unparsable chunk in the pool, or an exception, can leave the flag set. */
  lemma FineStep(s: State, a: Action)
    requires Inv(s) && !s.g.poisoned && !Doomed(Project(s)) && Step(s, a).Some? && Step(s, a).value.g.received == s.g.received
    requires Internal(a)
    ensures !Step(s, a).value.g.poisoned && !Doomed(Project(Step(s, a).value))
  {
    var v := Project(s);
    match a
    case ByLoop(l) =>
      if l.BeginDrain? {
        assert Project(Step(s, a).value) == v;
      } else {
        var LoopGoes(g, pc) := LoopMove(s.g, s.loop, l);
        LoopStepSeen(s, l, g, pc);
        FineLoop(v, l, g, pc);
      }
    case ByTask(i, t) =>
      var TaskGoes(g, pc) := TaskMove(s.g, i, s.tasks[i], t, s.loop.InMap());
      TaskStepSeen(s, i, t, g, pc);
      FineTask(v, t, g, pc);
    case ByActive(j, t) =>
      var ActiveGoes(g, pc) := ActiveMove(s.g, j, s.actives[j], t, s.loop.InMap());
      ActiveStepSeen(s, j, t, g, pc);
      FineActive(v, t, g, pc);
  }

  lemma {:induction false} FinishOutstanding(s: State) returns (acts: seq<Action>)
    requires Inv(s) && !Frozen(s)
    ensures Run(s, acts).Some? && Finished(s, Run(s, acts).value)
    ensures Aside(s, Run(s, acts).value)
    ensures !Doomed(Project(s)) ==> !Run(s, acts).value.g.poisoned
    decreases if Busy(Project(s)) then Rank(Project(s)) + 1 else 0
  {
    var v := Project(s);
    if !Busy(v) {
      return [];
    }
    if s.loop.HoldsChunk() {
      AdvanceLoop(s);
    } else if s.loop.InMap() && (v.t.pc.TQueued? || v.a.AFind?) {
      AdvanceMap(s);
    } else if v.t.pc.HoldsChunk() {
      AdvanceTask(s);
    } else {
      AdvanceActive(s);
    }
    StepKeepsInv(s, Advance(s));
    AdvanceAside(s);
    var t := Step(s, Advance(s)).value;
    if !Doomed(v) {
      FineStep(s, Advance(s));
    }
    if !Busy(Project(t)) {
      acts := [Advance(s)];
      assert Run(t, []) == Some(t);
    } else {
      var rest := FinishOutstanding(t);
      acts := [Advance(s)] + rest;
      assert acts[1..] == rest;
    }
  }

  /** Everything `s` had read has been finished in `t`, and nothing more has been read. */
  ghost predicate Finished(s: State, t: State) {
    t.g.received == s.g.received && |t.g.done| == |t.g.received|
  }

  /**
    The exact condition under which what has been read can still be finished: no active thread is
    caught between its two locks.
  */
  lemma CanFinishIff(s: State)
    requires Reachable(s)
    ensures (exists acts :: Run(s, acts).Some? && Finished(s, Run(s, acts).value)) <==> !SelfLocked(Project(s))
  {
    ReachableInv(s);
    if SelfLocked(Project(s)) {
      forall acts | Run(s, acts).Some? ensures SameHistory(s, Run(s, acts).value) {
        FrozenForever(s, acts);
      }
    } else if s.g.poisoned {
      assert Run(s, []) == Some(s);
    } else {
      var acts := FinishOutstanding(s);
    }
  }

  // ---------- the source as written: `fd_mutex` is a plain `std::mutex` ----------

  /** Only pool tasks ever decide a chunk, so an unparsable one is the last thing that happens. */
  ghost predicate PlainInv(v: View) {
    !v.g.relockable ==>
      && (v.g.done != [] && v.g.done[|v.g.done| - 1].outcome.Unparsable? ==> v.g.poisoned)
      && (forall k :: 0 <= k < |v.g.done| - 1 ==> v.g.done[k].outcome.Handled?)
  }

  lemma PlainLoop(v: View, a: LoopAction, g: Shared, pc: LoopPc)
    requires ViewInv(v) && PlainInv(v) && LoopMove(v.g, v.loop, a) == LoopGoes(g, pc)
    ensures PlainInv(LoopView(v, a, g, pc)) && g.relockable == v.g.relockable
  {
    match a
    case Register =>
    case _ =>
  }

  lemma PlainHandled(v: View)
    requires ChunkInv(v) && PlainInv(v) && !v.g.relockable && !v.g.poisoned
    ensures forall k :: 0 <= k < |v.g.done| ==> v.g.done[k].outcome.Handled?
  {
    if v.g.done != [] {
      var k := |v.g.done| - 1;
      assert v.g.done[k] == Verdict(v.g.received[k]);
    }
  }

  lemma PlainTask(v: View, a: TaskAction, g: Shared, pc: TaskPc)
    requires PoolInv(v) && LifeInv(v) && ChunkInv(v) && PlainInv(v) && v.ti >= 0
    requires TaskMove(v.g, v.ti, v.t, a, v.loop.InMap()) == TaskGoes(g, pc)
    ensures PlainInv(TaskView(v, a, g, pc)) && g.relockable == v.g.relockable
  {
    TaskFinishes(v, a, g, pc);
    PlainExtends(v, TaskView(v, a, g, pc), Done(v.t.chunk, if Parses(v.t.chunk) then Handled else Unparsable));
  }

  lemma PlainExtends(v: View, w: View, d: Done)
    requires ChunkInv(v) && PlainInv(v) && w.g.relockable == v.g.relockable
    requires w.g.done == v.g.done ==> w.g.poisoned == v.g.poisoned
    requires w.g.done != v.g.done ==>
               !v.g.poisoned && w.g.done == v.g.done + [d] && (d.outcome.Unparsable? ==> w.g.poisoned)
    ensures PlainInv(w)
  {
    if !v.g.relockable && w.g.done != v.g.done {
      PlainHandled(v);
    }
  }

  /** What a pool task does to the history: nothing, or it finishes its chunk and remembers a failure. */
  lemma TaskFinishes(v: View, a: TaskAction, g: Shared, pc: TaskPc)
    requires PoolInv(v) && LifeInv(v) && ChunkInv(v) && v.ti >= 0 && TaskMove(v.g, v.ti, v.t, a, v.loop.InMap()) == TaskGoes(g, pc)
    ensures g.relockable == v.g.relockable
    ensures g.done == v.g.done ==> g.poisoned == v.g.poisoned
    ensures g.done != v.g.done ==>
              && !v.g.poisoned
              && g.done == v.g.done + [Done(v.t.chunk, if Parses(v.t.chunk) then Handled else Unparsable)]
              && (!Parses(v.t.chunk) ==> g.poisoned)
  {
    match a
    case Begin =>
    case _ =>
  }

  lemma PlainActive(v: View, a: ActiveAction, g: Shared, pc: ActivePc)
    requires ViewInv(v) && PlainInv(v) && v.ai >= 0 && ActiveMove(v.g, v.ai, v.a, a, v.loop.InMap()) == ActiveGoes(g, pc)
    ensures PlainInv(v.(g := g, a := pc)) && g.relockable == v.g.relockable
  {
    ActiveIdle(v, a, g, pc);
  }

  /** In front of its second lock on a plain mutex an active thread finishes nothing. */
  lemma ActiveIdle(v: View, a: ActiveAction, g: Shared, pc: ActivePc)
    requires PoolInv(v) && LifeInv(v) && v.ai >= 0 && ActiveMove(v.g, v.ai, v.a, a, v.loop.InMap()) == ActiveGoes(g, pc)
    ensures g.relockable == v.g.relockable
    ensures !v.g.relockable ==> g.done == v.g.done && g.poisoned == v.g.poisoned
  {
    match a
    case Begin =>
    case _ =>
  }

  lemma PlainLoopStep(s: State, l: LoopAction)
    requires Inv(s) && PlainInv(Project(s)) && LoopStep(s, l).Some?
    ensures PlainInv(Project(LoopStep(s, l).value))
    ensures LoopStep(s, l).value.g.relockable == s.g.relockable
  {
    var v := Project(s);
    if l.BeginDrain? {
      assert Project(LoopStep(s, l).value) == v;
    } else {
      var LoopGoes(g, pc) := LoopMove(s.g, s.loop, l);
      PlainLoop(v, l, g, pc);
      LoopStepSeen(s, l, g, pc);
    }
  }

  lemma PlainTaskStep(s: State, i: nat, t: TaskAction)
    requires Inv(s) && PlainInv(Project(s)) && TaskStep(s, i, t).Some?
    ensures PlainInv(Project(TaskStep(s, i, t).value))
    ensures TaskStep(s, i, t).value.g.relockable == s.g.relockable
  {
    var v := Project(s);
    var TaskGoes(g, pc) := TaskMove(s.g, i, s.tasks[i], t, s.loop.InMap());
    assert i == |s.tasks| - 1;
    PlainTask(v, t, g, pc);
    TaskStepSeen(s, i, t, g, pc);
  }

  lemma PlainActiveStep(s: State, j: nat, t: ActiveAction)
    requires Inv(s) && PlainInv(Project(s)) && ActiveStep(s, j, t).Some?
    ensures PlainInv(Project(ActiveStep(s, j, t).value))
    ensures ActiveStep(s, j, t).value.g.relockable == s.g.relockable
  {
    var v := Project(s);
    var ActiveGoes(g, pc) := ActiveMove(s.g, j, s.actives[j], t, s.loop.InMap());
    assert j == |s.actives| - 1;
    PlainActive(v, t, g, pc);
    ActiveStepSeen(s, j, t, g, pc);
  }

  lemma {:induction false} PlainRun(s: State, acts: seq<Action>)
    requires Inv(s) && PlainInv(Project(s)) && Run(s, acts).Some?
    ensures PlainInv(Project(Run(s, acts).value))
    ensures Run(s, acts).value.g.relockable == s.g.relockable
    decreases acts
  {
    if acts != [] {
      StepKeepsInv(s, acts[0]);
      match acts[0] {
        case ByLoop(l) => PlainLoopStep(s, l);
        case ByTask(i, t) => PlainTaskStep(s, i, t);
        case ByActive(j, t) => PlainActiveStep(s, j, t);
      }
      PlainRun(Step(s, acts[0]).value, acts[1..]);
    }
  }

  lemma PlainBad(s: State, k: nat)
    requires Inv(s) && PlainInv(Project(s)) && !s.g.relockable
    requires k < |s.g.received| && k < |s.g.done| && !Parses(s.g.received[k])
    ensures s.g.poisoned && |s.g.received| == |s.g.done| == k + 1 && s.g.closes == 0
  {
    assert s.g.done[k] == Verdict(s.g.received[k]);
  }

  /**
    With a plain mutex the first chunk the parser rejects is the last one the connection ever reads:
    every earlier one was handled, nothing is outstanding, and no continuation reads, handles or
    closes anything.
  */
  lemma FirstBadChunkIsLast(release: bool, acts: seq<Action>, k: nat, more: seq<Action>)
    requires Run(Init(false, release), acts).Some?
    requires var s := Run(Init(false, release), acts).value; k < |s.g.received| && k < |s.g.done| && !Parses(s.g.received[k])
    requires Run(Run(Init(false, release), acts).value, more).Some?
    ensures var s := Run(Init(false, release), acts).value;
            && |s.g.received| == |s.g.done| == k + 1
            && s.g.closes == 0
            && SameHistory(s, Run(s, more).value)
  {
    var i := Init(false, release);
    var s := Run(i, acts).value;
    RunKeepsInv(i, acts);
    PlainRun(i, acts);
    PlainBad(s, k);
    FrozenForever(s, more);
  }
}
