/**
  When a connection can still be served. The epoll thread is taken to be running and the descriptor
  open; what arrives on it is up to the peer.
*/
module ConnectionService {
  import opened Bytes
  import opened Connection
  import opened ConnectionSafety

  /** A further chunk has been read, or the connection has been closed. */
  ghost predicate Moved(s: State, t: State) {
    |t.g.received| > |s.g.received| || t.g.closes > s.g.closes
  }

  /** Frozen already, or bound to be: an unparsable chunk is in the pool or on its way there. */
  ghost predicate Stuck(s: State) {
    Frozen(s) || Doomed(Project(s))
  }

  // ---------- stuck for good ----------

  ghost predicate Unmoved(g: Shared, h: Shared) {
    h.received == g.received && h.closes == g.closes
  }

  lemma DoomedLoop(v: View, a: LoopAction, g: Shared, pc: LoopPc)
    requires ViewInv(v) && Doomed(v) && LoopMove(v.g, v.loop, a) == LoopGoes(g, pc)
    ensures Doomed(LoopView(v, a, g, pc)) && Unmoved(v.g, g)
  {
    match a
    case Register =>
    case _ =>
  }

  lemma DoomedTask(v: View, a: TaskAction, g: Shared, pc: TaskPc)
    requires ViewInv(v) && Doomed(v) && v.ti >= 0 && TaskMove(v.g, v.ti, v.t, a, v.loop.InMap()) == TaskGoes(g, pc)
    ensures (g.poisoned || Doomed(TaskView(v, a, g, pc))) && Unmoved(v.g, g)
  {
    match a
    case Begin =>
    case _ =>
  }

  lemma DoomedActive(v: View, a: ActiveAction, g: Shared, pc: ActivePc)
    requires ViewInv(v) && Doomed(v) && v.ai >= 0 && ActiveMove(v.g, v.ai, v.a, a, v.loop.InMap()) == ActiveGoes(g, pc)
    ensures Doomed(v.(g := g, a := pc)) && Unmoved(v.g, g)
  {
    match a
    case Begin =>
    case _ =>
  }

  lemma StuckStep(s: State, a: Action)
    requires Inv(s) && Stuck(s) && Step(s, a).Some?
    ensures Stuck(Step(s, a).value) && Unmoved(s.g, Step(s, a).value.g)
  {
    var v := Project(s);
    if Frozen(s) {
      FrozenStep(s, a);
    } else {
      match a
      case ByLoop(l) =>
        if l.BeginDrain? {
          assert Project(Step(s, a).value) == v;
        } else {
          var LoopGoes(g, pc) := LoopMove(s.g, s.loop, l);
          LoopStepSeen(s, l, g, pc);
          DoomedLoop(v, l, g, pc);
        }
      case ByTask(i, t) =>
        var TaskGoes(g, pc) := TaskMove(s.g, i, s.tasks[i], t, s.loop.InMap());
        TaskStepSeen(s, i, t, g, pc);
        DoomedTask(v, t, g, pc);
      case ByActive(j, t) =>
        var ActiveGoes(g, pc) := ActiveMove(s.g, j, s.actives[j], t, s.loop.InMap());
        ActiveStepSeen(s, j, t, g, pc);
        DoomedActive(v, t, g, pc);
    }
  }

  lemma {:induction false} StuckForever(s: State, acts: seq<Action>)
    requires Inv(s) && Stuck(s) && Run(s, acts).Some?
    ensures !Moved(s, Run(s, acts).value)
    decreases acts
  {
    if acts != [] {
      StepKeepsInv(s, acts[0]);
      StuckStep(s, acts[0]);
      StuckForever(Step(s, acts[0]).value, acts[1..]);
    }
  }

  // ---------- a schedule that moves a connection which is not stuck ----------

  /** Nothing is outstanding, nothing is stuck, and the epoll thread runs. */
  ghost predicate Ready(v: View) {
    !Busy(v) && !v.g.poisoned && v.g.life.Registered? && !v.loop.LExited?
  }

  function TaskRank(pc: TaskPc): nat {
    match pc
    case TClear => 3
    case TNotify => 2
    case TUnlock => 1
    case _ => 0
  }

  function ActiveRank(pc: ActivePc): nat {
    match pc
    case ANap => 14
    case AWantAgain => 13
    case ATestNeed => 12
    case AStore => 11
    case ANotify => 10
    case ALeave => 9
    case AStart => 6
    case ATop => 5
    case ALookup => 4
    case AWant => 3
    case ATest => 2
    case AErase => 2
    case _ => 1
  }

  function AloneRank(pc: LoopPc): nat {
    match pc
    case LNeed => 503
    case LRun => 502
    case LSpawn => 501
    case LMark => 107
    case LIdle => 106
    case LFound => 105
    case LTest => 104
    case LTestPool => 103
    case _ => 0
  }

  predicate AtHandle(pc: LoopPc) { pc.LHandle? || pc.LRead? || pc.LErase? || pc.LClose? }

  /** How far the connection is from its next read or close. */
  function ServeRank(v: View): nat {
    1000 * TaskRank(v.t.pc)
    + if AtHandle(v.loop) then (if v.loop.LHandle? then 3 else if v.loop.LErase? then 2 else 1)
      else if v.a.AGone? then AloneRank(v.loop)
      else 300 + ActiveRank(v.a) + 20 * MapRank(v.loop)
  }

  /** From `v` to `w` the connection has moved, or come nearer to it. */
  ghost predicate Closer(v: View, w: View) {
    || |w.g.received| > |v.g.received|
    || w.g.closes > v.g.closes
    || (Ready(w) && ServeRank(w) < ServeRank(v) && Unmoved(v.g, w.g))
  }

  /** What the peer sends when it is asked. */
  const SOMETHING := Data([0])

  lemma ServeTask(s: State) returns (t: State)
    requires Inv(s) && Ready(Project(s)) && TaskRank(Project(s).t.pc) > 0
    ensures TaskStep(s, |s.tasks| - 1, TaskTurn(Project(s).t.pc, Sleeper(s))) == Some(t)
    ensures Closer(Project(s), Project(t))
  {
    var v, i, a := Project(s), |s.tasks| - 1, TaskTurn(Project(s).t.pc, Sleeper(s));
    assert WakeChoice(s.actives, Sleeper(s));
    var TaskGoes(g, pc) := TaskMove(s.g, i, s.tasks[i], a, s.loop.InMap());
    t := TaskStep(s, i, a).value;
    TaskStepSeen(s, i, a, g, pc);
  }

  lemma LoopServes(v: View, a: LoopAction)
    requires ViewInv(v) && Ready(v) && TaskRank(v.t.pc) == 0 && a == LoopTurn(v.loop, SOMETHING)
    requires v.loop.InMap() || AtHandle(v.loop) || v.a.AGone?
    ensures LoopMove(v.g, v.loop, a).LoopGoes?
    ensures var LoopGoes(g, pc) := LoopMove(v.g, v.loop, a); Closer(v, LoopView(v, a, g, pc))
  {
  }

  lemma ServeLoop(s: State) returns (t: State)
    requires Inv(s) && Ready(Project(s)) && TaskRank(Project(s).t.pc) == 0
    requires s.loop.InMap() || AtHandle(s.loop) || Project(s).a.AGone?
    ensures LoopStep(s, LoopTurn(s.loop, SOMETHING)) == Some(t)
    ensures Closer(Project(s), Project(t))
  {
    var v, a := Project(s), LoopTurn(s.loop, SOMETHING);
    LoopServes(v, a);
    var LoopGoes(g, pc) := LoopMove(s.g, s.loop, a);
    t := LoopStep(s, a).value;
    LoopStepSeen(s, a, g, pc);
  }

  /** With the last pool task gone, nothing makes the active thread wait. */
  lemma NothingInTheWay(v: View)
    requires ViewInv(v) && Ready(v) && TaskRank(v.t.pc) == 0
    ensures !v.g.inPool && !v.a.AAsleep? && (v.g.mutex.Nobody? || v.a.HoldsMutex())
  {
  }

  lemma ActiveServes(v: View, a: ActiveAction)
    requires Ready(v) && TaskRank(v.t.pc) == 0 && a == ActiveTurn(v.a, SOMETHING, None)
    requires !v.g.inPool && !v.a.AAsleep? && (v.g.mutex.Nobody? || v.a.HoldsMutex())
    requires v.ai >= 0 && !v.loop.InMap() && !AtHandle(v.loop) && !v.a.AGone?
    ensures ActiveMove(v.g, v.ai, v.a, a, false).ActiveGoes?
    ensures var ActiveGoes(g, pc) := ActiveMove(v.g, v.ai, v.a, a, false); Closer(v, v.(g := g, a := pc))
  {
  }

  lemma ServeActive(s: State) returns (t: State)
    requires Inv(s) && Ready(Project(s)) && TaskRank(Project(s).t.pc) == 0
    requires !s.loop.InMap() && !AtHandle(s.loop) && !Project(s).a.AGone?
    ensures ActiveStep(s, |s.actives| - 1, ActiveTurn(Project(s).a, SOMETHING, None)) == Some(t)
    ensures Closer(Project(s), Project(t))
  {
    var v, j, a := Project(s), |s.actives| - 1, ActiveTurn(Project(s).a, SOMETHING, None);
    NothingInTheWay(v);
    ActiveServes(v, a);
    if a.Notify? {
      assert WakeChoice(s.actives, None);
    }
    var ActiveGoes(g, pc) := ActiveMove(s.g, j, s.actives[j], a, s.loop.InMap());
    t := ActiveStep(s, j, a).value;
    ActiveStepSeen(s, j, a, g, pc);
  }

  lemma ServeStep(s: State) returns (a: Action, t: State)
    requires Inv(s) && Ready(Project(s))
    ensures Step(s, a) == Some(t) && Closer(Project(s), Project(t))
  {
    var v := Project(s);
    if TaskRank(v.t.pc) > 0 {
      a := ByTask(|s.tasks| - 1, TaskTurn(v.t.pc, Sleeper(s)));
      t := ServeTask(s);
    } else if s.loop.InMap() || AtHandle(s.loop) || v.a.AGone? {
      a := ByLoop(LoopTurn(s.loop, SOMETHING));
      t := ServeLoop(s);
    } else {
      a := ByActive(|s.actives| - 1, ActiveTurn(v.a, SOMETHING, None));
      t := ServeActive(s);
    }
  }

  lemma {:induction false} ServeFromRest(s: State) returns (acts: seq<Action>)
    requires Inv(s) && Ready(Project(s))
    ensures Run(s, acts).Some? && Moved(s, Run(s, acts).value)
    decreases ServeRank(Project(s))
  {
    var a, t := ServeStep(s);
    StepKeepsInv(s, a);
    if Moved(s, t) {
      acts := [a];
      assert Run(t, []) == Some(t);
    } else {
      var rest := ServeFromRest(t);
      acts := [a] + rest;
      assert acts[1..] == rest;
    }
  }

  lemma {:induction false} RunConcat(s: State, acts: seq<Action>, more: seq<Action>)
    requires Run(s, acts).Some?
    ensures Run(s, acts + more) == Run(Run(s, acts).value, more)
    decreases acts
  {
    if acts == [] {
      assert acts + more == more;
    } else {
      assert (acts + more)[1..] == acts[1..] + more;
      RunConcat(Step(s, acts[0]).value, acts[1..], more);
    }
  }

  /** A step finishes a chunk or leaves the finished ones as they are. */
  lemma StepGrows(s: State, a: Action)
    requires Step(s, a).Some?
    ensures s.g.done <= Step(s, a).value.g.done
  {
    match a
    case ByLoop(l) =>
      if !l.BeginDrain? {
        LoopGrows(s.g, s.loop, l);
      }
    case ByTask(i, t) => TaskGrows(s.g, i, s.tasks[i], t, s.loop.InMap());
    case ByActive(j, t) => ActiveGrows(s.g, j, s.actives[j], t, s.loop.InMap());
  }

  lemma LoopGrows(g: Shared, pc: LoopPc, a: LoopAction)
    requires LoopMove(g, pc, a).LoopGoes?
    ensures LoopMove(g, pc, a).g.done == g.done
  {
    match a
    case Register =>
    case _ =>
  }

  lemma TaskGrows(g: Shared, me: nat, t: TaskRec, a: TaskAction, inMap: bool)
    requires TaskMove(g, me, t, a, inMap).TaskGoes?
    ensures g.done <= TaskMove(g, me, t, a, inMap).g.done
  {
    match a
    case Begin =>
    case _ =>
  }

  lemma ActiveGrows(g: Shared, me: nat, pc: ActivePc, a: ActiveAction, inMap: bool)
    requires ActiveMove(g, me, pc, a, inMap).ActiveGoes?
    ensures g.done <= ActiveMove(g, me, pc, a, inMap).g.done
  {
    match a
    case Begin =>
    case _ =>
  }

  lemma {:induction false} RunGrows(s: State, acts: seq<Action>)
    requires Run(s, acts).Some?
    ensures s.g.done <= Run(s, acts).value.g.done
    decreases acts
  {
    if acts != [] {
      StepGrows(s, acts[0]);
      RunGrows(Step(s, acts[0]).value, acts[1..]);
    }
  }

  /** First everything read before is finished, then a further chunk is read or the connection closed. */
  lemma Serve(s: State) returns (acts: seq<Action>)
    requires Inv(s) && !Stuck(s) && s.g.life.Registered? && !s.loop.LExited?
    ensures Run(s, acts).Some? && Moved(s, Run(s, acts).value)
    ensures |s.g.received| <= |Run(s, acts).value.g.done|
  {
    var finish := FinishOutstanding(s);
    RunKeepsInv(s, finish);
    var t := Run(s, finish).value;
    assert !Busy(Project(t));
    var more := ServeFromRest(t);
    RunConcat(s, finish, more);
    RunGrows(t, more);
    acts := finish + more;
  }

  /**
    The exact condition for a connection not to be stuck: an open connection whose epoll thread runs can
    be brought to read again, or to close, if and only if the flag has not been left set, no active
    thread stands in front of the second lock of a plain mutex, and no unparsable chunk is in the pool
    or on its way there.
  */
  lemma ServableIff(s: State)
    requires Reachable(s) && s.g.life.Registered? && !s.loop.LExited?
    ensures (exists acts :: Run(s, acts).Some? && Moved(s, Run(s, acts).value)) <==> !Frozen(s) && !Doomed(Project(s))
  {
    ReachableInv(s);
    if Stuck(s) {
      forall acts | Run(s, acts).Some? ensures !Moved(s, Run(s, acts).value) {
        StuckForever(s, acts);
      }
    } else {
      var acts := Serve(s);
    }
  }

  // ---------- what a stuck connection costs the pool ----------

  /**
    A connection whose active thread waits for itself keeps no pool worker: all its tasks have ended, so
    every worker that took one has gone back to the queue.
  */
  lemma SelfLockCostsNoWorker(s: State, i: nat)
    requires Reachable(s) && SelfLocked(Project(s)) && i < |s.tasks|
    ensures s.tasks[i].pc.TDone?
  {
    ReachableInv(s);
  }

  /** One whose flag was left set keeps none either: a task that has not ended needs one more step, which nothing prevents. */
  lemma PoisonCostsNoWorker(s: State, i: nat)
    requires Reachable(s) && s.g.poisoned && i < |s.tasks|
    ensures s.tasks[i].pc.TDone?
         || (TaskStep(s, i, Unlock).Some? && TaskStep(s, i, Unlock).value.tasks[i].pc.TDone?)
  {
    ReachableInv(s);
  }
}
