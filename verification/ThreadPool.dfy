/**
  The pthread pool as a transition system: any number of workers and of threads inside `enqueue`, and
  the destructor, interleaved at every lock, unlock, wait, signal and broadcast.
*/
module ThreadPool {
  import opened Bytes
  import opened Folds

  datatype Task = Task(func: nat, arg: nat)

  /** `worker`: Check to Leaving hold the mutex, Asleep is inside `pthread_cond_wait`. */
  datatype WorkerPc = WLock | WCheck | WAsleep | WPopped(task: Task) | WRunning(task: Task) | WLeaving | WExited
  {
    predicate HoldsMutex() { WCheck? || WPopped? || WLeaving? }
    /** On its way to look at the queue. */
    predicate Eager() { WLock? || WCheck? }
  }

  /** `enqueue`. */
  datatype ProducerPc = PLock(task: Task) | PPush(task: Task) | PUnlock | PSignal | PDone
  {
    predicate HoldsMutex() { PPush? || PUnlock? }
    predicate Owes() { PUnlock? || PSignal? }
  }

  /** The destructor. */
  datatype DtorPc = DIdle | DLock | DSet | DUnlock | DBroadcast | DJoin | DDone
  {
    predicate HoldsMutex() { DSet? || DUnlock? }
  }

  datatype Owner = Nobody | Worker(w: nat) | Producer(p: nat) | Destructor

  /** `pushed`, `taken`, `finished` are histories; `mark` is the number of tasks pushed when stop was set. */
  datatype State = State(
    mutex: Owner,
    tasks: seq<Task>,
    stop: bool,
    workers: seq<WorkerPc>,
    producers: seq<ProducerPc>,
    dtor: DtorPc,
    pushed: seq<Task>,
    taken: seq<Task>,
    finished: seq<Task>,
    mark: nat)

  datatype Action =
    | Acquire(w: nat) | Check(w: nat) | Release(w: nat) | Finish(w: nat, threw: bool) | Leave(w: nat) | Spurious(w: nat)
    | Enqueue(task: Task) | AcquireP(p: nat) | Push(p: nat) | ReleaseP(p: nat) | Signal(p: nat, woken: Option<nat>)
    | Destroy | AcquireD | SetStop | ReleaseD | Broadcast | Join

  function Init(threads: nat): State {
    State(Nobody, [], false, seq(threads, _ => WLock), [], DIdle, [], [], [], 0)
  }

  predicate SignalChoice(workers: seq<WorkerPc>, woken: Option<nat>) {
    match woken
    case Some(w) => w < |workers| && workers[w].WAsleep?
    case None => forall w :: 0 <= w < |workers| ==> !workers[w].WAsleep?
  }

  function WakeAll(workers: seq<WorkerPc>): seq<WorkerPc> {
    Map(workers, (pc: WorkerPc) => if pc.WAsleep? then WLock else pc)
  }

  function WorkerStep(s: State, w: nat, a: Action): Option<State>
    requires w < |s.workers|
  {
    var pc := s.workers[w];
    match a
    case Acquire(_) =>
      if pc.WLock? && s.mutex.Nobody? then Some(s.(mutex := Worker(w), workers := s.workers[w := WCheck])) else None
    case Check(_) =>
      if !pc.WCheck? then None
      else if !s.stop && s.tasks == [] then Some(s.(mutex := Nobody, workers := s.workers[w := WAsleep]))
      else if s.tasks == [] then Some(s.(workers := s.workers[w := WLeaving]))
      else
        Some(s.(tasks := s.tasks[1..], taken := s.taken + [s.tasks[0]], workers := s.workers[w := WPopped(s.tasks[0])]))
    case Release(_) =>
      if pc.WPopped? then Some(s.(mutex := Nobody, workers := s.workers[w := WRunning(pc.task)])) else None
    case Finish(_, _) =>
      if pc.WRunning? then Some(s.(finished := s.finished + [pc.task], workers := s.workers[w := WLock])) else None
    case Leave(_) =>
      if pc.WLeaving? then Some(s.(mutex := Nobody, workers := s.workers[w := WExited])) else None
    case Spurious(_) =>
      if pc.WAsleep? then Some(s.(workers := s.workers[w := WLock])) else None
    case _ => None
  }

  function ProducerStep(s: State, p: nat, a: Action): Option<State>
    requires p < |s.producers|
  {
    var pc := s.producers[p];
    match a
    case AcquireP(_) =>
      if pc.PLock? && s.mutex.Nobody? then Some(s.(mutex := Producer(p), producers := s.producers[p := PPush(pc.task)])) else None
    case Push(_) =>
      if pc.PPush?
      then Some(s.(tasks := s.tasks + [pc.task], pushed := s.pushed + [pc.task], producers := s.producers[p := PUnlock]))
      else None
    case ReleaseP(_) =>
      if pc.PUnlock? then Some(s.(mutex := Nobody, producers := s.producers[p := PSignal])) else None
    case Signal(_, woken) =>
      if pc.PSignal? && SignalChoice(s.workers, woken)
      then
        Some(s.(producers := s.producers[p := PDone],
             workers := if woken.Some? then s.workers[woken.value := WLock] else s.workers))
      else None
    case _ => None
  }

  function DtorStep(s: State, a: Action): Option<State> {
    match a
    case Destroy => if s.dtor.DIdle? then Some(s.(dtor := DLock)) else None
    case AcquireD => if s.dtor.DLock? && s.mutex.Nobody? then Some(s.(mutex := Destructor, dtor := DSet)) else None
    case SetStop => if s.dtor.DSet? then Some(s.(stop := true, mark := |s.pushed|, dtor := DUnlock)) else None
    case ReleaseD => if s.dtor.DUnlock? then Some(s.(mutex := Nobody, dtor := DBroadcast)) else None
    case Broadcast => if s.dtor.DBroadcast? then Some(s.(workers := WakeAll(s.workers), dtor := DJoin)) else None
    case Join =>
      if s.dtor.DJoin? && AllExited(s) then Some(s.(dtor := DDone)) else None
    case _ => None
  }

  predicate AllExited(s: State) {
    forall w :: 0 <= w < |s.workers| ==> s.workers[w].WExited?
  }

  predicate ByWorker(a: Action) {
    a.Acquire? || a.Check? || a.Release? || a.Finish? || a.Leave? || a.Spurious?
  }

  predicate ByProducer(a: Action) {
    a.AcquireP? || a.Push? || a.ReleaseP? || a.Signal?
  }

  function Step(s: State, a: Action): Option<State> {
    if ByWorker(a) then
      if a.w < |s.workers| then WorkerStep(s, a.w, a) else None
    else if ByProducer(a) then
      if a.p < |s.producers| then ProducerStep(s, a.p, a) else None
    else if a.Enqueue? then Some(s.(producers := s.producers + [PLock(a.task)]))
    else DtorStep(s, a)
  }

  // ---------- the invariant ----------

  ghost predicate MutexInv(s: State) {
    && (forall w :: 0 <= w < |s.workers| ==> (s.workers[w].HoldsMutex() <==> s.mutex == Worker(w)))
    && (forall p :: 0 <= p < |s.producers| ==> (s.producers[p].HoldsMutex() <==> s.mutex == Producer(p)))
    && (s.dtor.HoldsMutex() <==> s.mutex == Destructor)
    && (s.mutex.Worker? ==> s.mutex.w < |s.workers|)
    && (s.mutex.Producer? ==> s.mutex.p < |s.producers|)
  }

  ghost predicate QueueInv(s: State) {
    s.pushed == s.taken + s.tasks
  }

  function Held(pc: WorkerPc): multiset<Task> {
    if pc.WPopped? || pc.WRunning? then multiset{pc.task} else multiset{}
  }

  function InHand(workers: seq<WorkerPc>): multiset<Task> {
    if workers == [] then multiset{} else Held(workers[0]) + InHand(workers[1..])
  }

  ghost predicate TaskInv(s: State) {
    multiset(s.taken) == InHand(s.workers) + multiset(s.finished)
  }

  function EagerUnit(pc: WorkerPc): int { if pc.Eager() then 1 else 0 }

  function OwedUnit(pc: ProducerPc): int { if pc.Owes() then 1 else 0 }

  function EagerWorkers(workers: seq<WorkerPc>): int { Sum(workers, EagerUnit) }

  function OwedSignals(producers: seq<ProducerPc>): int { Sum(producers, OwedUnit) }

  ghost predicate SomeAsleep(s: State) {
    exists w :: 0 <= w < |s.workers| && s.workers[w].WAsleep?
  }

  /** While a worker sleeps, every queued task has a signal still owed or an awake worker of its own. */
  ghost predicate WakeInv(s: State) {
    && (SomeAsleep(s) ==> |s.tasks| <= OwedSignals(s.producers) + EagerWorkers(s.workers))
    && (s.stop && SomeAsleep(s) ==> s.dtor.DUnlock? || s.dtor.DBroadcast?)
  }

  ghost predicate StopInv(s: State) {
    && (s.stop <==> s.dtor.DUnlock? || s.dtor.DBroadcast? || s.dtor.DJoin? || s.dtor.DDone?)
    && (s.stop ==> s.mark <= |s.pushed|)
    && (forall w :: 0 <= w < |s.workers| && (s.workers[w].WLeaving? || s.workers[w].WExited?) ==> s.stop && s.mark <= |s.taken|)
    && (s.dtor.DDone? ==> AllExited(s))
  }

  ghost predicate Inv(s: State) {
    MutexInv(s) && QueueInv(s) && TaskInv(s) && WakeInv(s) && StopInv(s)
  }

  // ---------- bookkeeping ----------

  lemma InHandConcat(xs: seq<WorkerPc>, ys: seq<WorkerPc>)
    ensures InHand(xs + ys) == InHand(xs) + InHand(ys)
  {
    if xs == [] {
      assert xs + ys == ys;
    } else {
      assert (xs + ys)[1..] == xs[1..] + ys;
    }
  }

  lemma InHandUpdate(ws: seq<WorkerPc>, w: nat, pc: WorkerPc)
    requires w < |ws|
    ensures InHand(ws[w := pc]) + Held(ws[w]) == InHand(ws) + Held(pc)
    ensures Held(pc) == Held(ws[w]) ==> InHand(ws[w := pc]) == InHand(ws)
  {
    var pre, post := ws[..w], ws[w + 1..];
    assert ws == pre + ([ws[w]] + post) && ws[w := pc] == pre + ([pc] + post);
    InHandConcat(pre, [ws[w]] + post);
    InHandConcat(pre, [pc] + post);
    assert ([ws[w]] + post)[1..] == post == ([pc] + post)[1..];
    if Held(pc) == Held(ws[w]) {
      Cancel(InHand(ws[w := pc]), InHand(ws), Held(pc));
    }
  }

  lemma Cancel(a: multiset<Task>, b: multiset<Task>, c: multiset<Task>)
    requires a + c == b + c
    ensures a == b
  {
    assert a == (a + c) - c && b == (b + c) - c;
  }

  lemma {:induction false} InHandWakeAll(ws: seq<WorkerPc>)
    ensures InHand(WakeAll(ws)) == InHand(ws)
  {
    if ws != [] {
      assert WakeAll(ws)[1..] == WakeAll(ws[1..]);
      InHandWakeAll(ws[1..]);
    }
  }

  lemma {:induction false} InHandNone(ws: seq<WorkerPc>)
    requires forall w :: 0 <= w < |ws| ==> ws[w].WExited?
    ensures InHand(ws) == multiset{}
  {
    if ws != [] {
      InHandNone(ws[1..]);
    }
  }

  lemma {:induction false} InHandInit(n: nat)
    ensures InHand(seq(n, _ => WLock)) == multiset{}
  {
    if n > 0 {
      InHandInit(n - 1);
      assert seq(n, _ => WLock)[1..] == seq(n - 1, _ => WLock);
    }
  }

  // ---------- every step keeps it ----------

  lemma WorkerKeepsMutex(s: State, a: Action)
    requires Inv(s) && ByWorker(a) && Step(s, a).Some?
    ensures MutexInv(Step(s, a).value)
  {
    match a
    case Acquire(_) =>
    case _ =>
  }

  lemma WorkerKeepsQueue(s: State, a: Action)
    requires Inv(s) && ByWorker(a) && Step(s, a).Some?
    ensures QueueInv(Step(s, a).value)
  {
    if a.Check? && s.tasks != [] {
      assert s.tasks == [s.tasks[0]] + s.tasks[1..];
    }
  }

  lemma TakeStep(s: State, w: nat, t: State)
    requires Step(s, Check(w)) == Some(t) && s.tasks != []
    ensures w < |s.workers| && s.workers[w] == WCheck && t.workers == s.workers[w := WPopped(s.tasks[0])]
    ensures t.taken == s.taken + [s.tasks[0]] && t.finished == s.finished
  {
  }

  lemma TakeKeepsTasks(s: State, w: nat)
    requires TaskInv(s) && Step(s, Check(w)).Some? && s.tasks != []
    ensures TaskInv(Step(s, Check(w)).value)
  {
    var x, t := s.tasks[0], Step(s, Check(w)).value;
    TakeStep(s, w, t);
    InHandUpdate(s.workers, w, WPopped(x));
    assert Held(WPopped(x)) == multiset{x} && Held(WCheck) == multiset{};
    assert InHand(t.workers) == InHand(s.workers) + multiset{x};
    assert multiset(s.taken + [x]) == multiset(s.taken) + multiset{x};
  }

  lemma FinishStep(s: State, a: Action, t: State)
    requires a.Finish? && Step(s, a) == Some(t)
    ensures a.w < |s.workers| && s.workers[a.w].WRunning? && t.workers == s.workers[a.w := WLock]
    ensures t.taken == s.taken && t.finished == s.finished + [s.workers[a.w].task]
  {
  }

  lemma FinishKeepsTasks(s: State, a: Action)
    requires TaskInv(s) && a.Finish? && Step(s, a).Some?
    ensures TaskInv(Step(s, a).value)
  {
    var t := Step(s, a).value;
    FinishStep(s, a, t);
    var x := s.workers[a.w].task;
    InHandUpdate(s.workers, a.w, WLock);
    assert Held(s.workers[a.w]) == multiset{x} && Held(WLock) == multiset{};
    assert InHand(s.workers) == InHand(t.workers) + multiset{x};
    assert multiset(s.finished + [x]) == multiset(s.finished) + multiset{x};
  }

  /** The other steps of a worker leave the tasks in hand as they are. */
  lemma RestStep(s: State, a: Action, t: State)
    requires ByWorker(a) && !a.Finish? && (a.Check? ==> s.tasks == []) && Step(s, a) == Some(t)
    ensures a.w < |s.workers| == |t.workers| && t.workers == s.workers[a.w := t.workers[a.w]]
    ensures t.taken == s.taken && t.finished == s.finished
  {
  }

  lemma RestPc(s: State, a: Action, t: State)
    requires ByWorker(a) && !a.Finish? && (a.Check? ==> s.tasks == []) && Step(s, a) == Some(t)
    ensures a.w < |s.workers| == |t.workers|
    ensures Held(t.workers[a.w]) == Held(s.workers[a.w])
  {
    var pc, next := s.workers[a.w], t.workers[a.w];
    if pc.WPopped? {
      assert next == WRunning(pc.task);
    } else {
      assert !pc.WRunning? && !next.WPopped? && !next.WRunning?;
    }
  }

  lemma RestKeepsTasks(s: State, a: Action, t: State)
    requires TaskInv(s) && Step(s, a) == Some(t)
    requires ByWorker(a) && !a.Finish? && (a.Check? ==> s.tasks == [])
    ensures TaskInv(t)
  {
    RestStep(s, a, t);
    RestPc(s, a, t);
    InHandUpdate(s.workers, a.w, t.workers[a.w]);
  }

  lemma WorkerKeepsTasks(s: State, a: Action)
    requires TaskInv(s) && ByWorker(a) && Step(s, a).Some?
    ensures TaskInv(Step(s, a).value)
  {
    if a.Check? && s.tasks != [] {
      TakeKeepsTasks(s, a.w);
    } else if a.Finish? {
      FinishKeepsTasks(s, a);
    } else {
      RestKeepsTasks(s, a, Step(s, a).value);
    }
  }

  lemma WorkerKeepsWake(s: State, a: Action)
    requires Inv(s) && ByWorker(a) && Step(s, a).Some?
    ensures WakeInv(Step(s, a).value)
  {
    var t := Step(s, a).value;
    SumUpdate(s.workers, a.w, t.workers[a.w], EagerUnit);
    SumNonNegative(t.workers, EagerUnit);
    SumNonNegative(t.producers, OwedUnit);
    if SomeAsleep(t) && !(a.Check? && t.workers[a.w].WAsleep?) {
      var w :| 0 <= w < |t.workers| && t.workers[w].WAsleep?;
      assert s.workers[w].WAsleep?;
    }
  }

  lemma WorkerKeepsStop(s: State, a: Action)
    requires Inv(s) && ByWorker(a) && Step(s, a).Some?
    ensures StopInv(Step(s, a).value)
  {
    match a
    case Acquire(_) =>
    case _ =>
  }

  /** A step inside `enqueue` as seen by the mutex. */
  lemma ProducerStepSeen(s: State, a: Action, t: State)
    requires MutexInv(s) && ByProducer(a) && Step(s, a) == Some(t)
    ensures a.p < |s.producers| == |t.producers| && t.producers == s.producers[a.p := t.producers[a.p]]
    ensures |t.workers| == |s.workers| && t.dtor == s.dtor
    ensures forall w :: 0 <= w < |s.workers| ==> t.workers[w].HoldsMutex() == s.workers[w].HoldsMutex()
    ensures if t.producers[a.p].HoldsMutex() then t.mutex == Producer(a.p) && (s.mutex.Nobody? || s.producers[a.p].HoldsMutex())
            else t.mutex == if s.producers[a.p].HoldsMutex() then Nobody else s.mutex
  {
    match a
    case AcquireP(_) =>
    case _ =>
  }

  lemma ProducerKeepsMutex(s: State, a: Action)
    requires Inv(s) && ByProducer(a) && Step(s, a).Some?
    ensures MutexInv(Step(s, a).value)
  {
    ProducerStepSeen(s, a, Step(s, a).value);
  }

  lemma ProducerKeepsQueue(s: State, a: Action)
    requires QueueInv(s) && ByProducer(a) && Step(s, a).Some?
    ensures QueueInv(Step(s, a).value)
  {
    match a
    case AcquireP(_) =>
    case _ =>
  }

  lemma ProducerKeepsStop(s: State, a: Action)
    requires StopInv(s) && ByProducer(a) && Step(s, a).Some?
    ensures StopInv(Step(s, a).value)
  {
    match a
    case AcquireP(_) =>
    case _ =>
  }

  lemma ProducerKeepsTasks(s: State, a: Action)
    requires TaskInv(s) && ByProducer(a) && Step(s, a).Some?
    ensures TaskInv(Step(s, a).value)
  {
    if a.Signal? && a.woken.Some? {
      assert s.workers[a.woken.value].WAsleep?;
      assert Held(WAsleep) == multiset{} == Held(WLock);
      InHandUpdate(s.workers, a.woken.value, WLock);
    } else {
      assert Step(s, a).value.workers == s.workers;
    }
  }

  lemma ProducerKeepsWake(s: State, a: Action)
    requires Inv(s) && ByProducer(a) && Step(s, a).Some?
    ensures WakeInv(Step(s, a).value)
  {
    var t := Step(s, a).value;
    SumUpdate(s.producers, a.p, t.producers[a.p], OwedUnit);
    if a.Signal? && a.woken.Some? {
      SumUpdate(s.workers, a.woken.value, WLock, EagerUnit);
    }
    if SomeAsleep(t) {
      var w :| 0 <= w < |t.workers| && t.workers[w].WAsleep?;
      assert s.workers[w].WAsleep?;
    }
  }

  predicate ByDtor(a: Action) {
    !ByWorker(a) && !ByProducer(a) && !a.Enqueue?
  }

  /** The destructor touches no task, and no task in a worker's hands. */
  lemma DtorStepSeen(s: State, a: Action, t: State)
    requires ByDtor(a) && Step(s, a) == Some(t)
    ensures t.tasks == s.tasks && t.pushed == s.pushed && t.taken == s.taken && t.finished == s.finished
    ensures t.workers == if a.Broadcast? then WakeAll(s.workers) else s.workers
  {
    match a
    case Destroy =>
    case _ =>
  }

  lemma DtorKeepsTasks(s: State, a: Action)
    requires Inv(s) && ByDtor(a) && Step(s, a).Some?
    ensures QueueInv(Step(s, a).value) && TaskInv(Step(s, a).value)
  {
    DtorStepSeen(s, a, Step(s, a).value);
    InHandWakeAll(s.workers);
  }

  lemma DtorKeepsMutex(s: State, a: Action)
    requires MutexInv(s) && StopInv(s) && ByDtor(a) && Step(s, a).Some?
    ensures MutexInv(Step(s, a).value) && StopInv(Step(s, a).value)
  {
    var t := Step(s, a).value;
    assert forall w :: 0 <= w < |s.workers| ==> s.workers[w].HoldsMutex() == t.workers[w].HoldsMutex();
    assert forall w :: 0 <= w < |s.workers| && t.workers[w].WExited? ==> s.workers[w].WExited?;
  }

  lemma DtorKeepsWake(s: State, a: Action)
    requires Inv(s) && ByDtor(a) && Step(s, a).Some?
    ensures WakeInv(Step(s, a).value)
  {
    var t := Step(s, a).value;
    if SomeAsleep(t) && !a.Broadcast? {
      var w :| 0 <= w < |t.workers| && t.workers[w].WAsleep?;
      assert s.workers[w].WAsleep?;
    }
  }

  lemma EnqueueKeepsInv(s: State, task: Task)
    requires Inv(s)
    ensures Inv(Step(s, Enqueue(task)).value)
  {
    SumAppend(s.producers, PLock(task), OwedUnit);
    if SomeAsleep(Step(s, Enqueue(task)).value) {
      assert SomeAsleep(s);
    }
  }

  lemma StepKeepsInv(s: State, a: Action)
    requires Inv(s) && Step(s, a).Some?
    ensures Inv(Step(s, a).value)
  {
    if ByWorker(a) {
      WorkerKeepsMutex(s, a);
      WorkerKeepsQueue(s, a);
      WorkerKeepsTasks(s, a);
      WorkerKeepsWake(s, a);
      WorkerKeepsStop(s, a);
    } else if ByProducer(a) {
      ProducerKeepsMutex(s, a);
      ProducerKeepsQueue(s, a);
      ProducerKeepsStop(s, a);
      ProducerKeepsTasks(s, a);
      ProducerKeepsWake(s, a);
    } else if a.Enqueue? {
      EnqueueKeepsInv(s, a.task);
    } else {
      DtorKeepsTasks(s, a);
      DtorKeepsMutex(s, a);
      DtorKeepsWake(s, a);
    }
  }

  lemma InitInv(threads: nat)
    ensures Inv(Init(threads))
  {
    InHandInit(threads);
  }
}
