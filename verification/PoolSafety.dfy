/** What the thread pool guarantees in every run, and that its shutdown terminates. */
module PoolSafety {
  import opened Bytes
  import opened Folds
  import opened ThreadPool

  function Run(s: State, acts: seq<Action>): Option<State>
    decreases acts
  {
    if acts == [] then Some(s)
    else
      match Step(s, acts[0])
      case None => None
      case Some(t) => Run(t, acts[1..])
  }

  lemma {:induction false} RunKeepsInv(s: State, acts: seq<Action>)
    requires Inv(s) && Run(s, acts).Some?
    ensures Inv(Run(s, acts).value)
    ensures |Run(s, acts).value.workers| == |s.workers|
    ensures s.taken <= Run(s, acts).value.taken && s.pushed <= Run(s, acts).value.pushed
    decreases acts
  {
    if acts != [] {
      StepKeepsInv(s, acts[0]);
      StepGrows(s, acts[0]);
      RunKeepsInv(Step(s, acts[0]).value, acts[1..]);
    }
  }

  lemma StepGrows(s: State, a: Action)
    requires Step(s, a).Some?
    ensures var t := Step(s, a).value;
            |t.workers| == |s.workers| && s.taken <= t.taken && s.pushed <= t.pushed
  {
  }

  ghost predicate Reachable(s: State) {
    exists threads, acts :: Run(Init(threads), acts) == Some(s)
  }

  lemma ReachableInv(s: State)
    requires Reachable(s)
    ensures Inv(s)
  {
    var threads, acts :| Run(Init(threads), acts) == Some(s);
    InitInv(threads);
    RunKeepsInv(Init(threads), acts);
  }

  /** Tasks are taken in the order in which they were pushed, none skipped and none taken twice. */
  lemma FirstInFirstOut(s: State)
    requires Reachable(s)
    ensures s.pushed == s.taken + s.tasks
  {
    ReachableInv(s);
  }

  /** Every pushed task is queued, in a worker's hands, or finished, and in exactly one of these. */
  lemma Conservation(s: State)
    requires Reachable(s)
    ensures multiset(s.pushed) == multiset(s.tasks) + InHand(s.workers) + multiset(s.finished)
  {
    ReachableInv(s);
    assert multiset(s.taken + s.tasks) == multiset(s.taken) + multiset(s.tasks);
  }

  /**
    No wake-up is lost: while a worker sleeps, each queued task is matched by a signal still owed or
    by an awake worker about to look at the queue; and a worker asleep after stop is owed the broadcast.
  */
  lemma NoLostWakeUp(s: State, w: nat)
    requires Reachable(s) && w < |s.workers| && s.workers[w].WAsleep?
    ensures |s.tasks| <= OwedSignals(s.producers) + EagerWorkers(s.workers)
    ensures s.stop ==> s.dtor.DUnlock? || s.dtor.DBroadcast?
  {
    ReachableInv(s);
  }

  /**
    Once every worker has gone, all tasks pushed before stop have finished, throwing ones included;
    if nothing was pushed after stop, nothing is left over at all.
  */
  lemma DrainedAtExit(s: State)
    requires Reachable(s) && AllExited(s) && |s.workers| > 0
    ensures s.stop && s.mark <= |s.pushed|
    ensures multiset(s.pushed[..s.mark]) <= multiset(s.finished)
    ensures |s.pushed| == s.mark ==> multiset(s.finished) == multiset(s.pushed) && s.tasks == []
  {
    ReachableInv(s);
    InHandNone(s.workers);
    assert s.workers[0].WExited?;
    assert s.taken == s.pushed[..s.mark] + s.taken[s.mark..];
    assert multiset(s.taken) == multiset(s.finished) by { assert multiset{} + multiset(s.finished) == multiset(s.finished); }
    if |s.pushed| == s.mark {
      assert s.taken == s.pushed;
    }
  }

  /** A task pushed after the last worker has gone is never run. */
  lemma {:induction false} LateTasksAreStranded(s: State, acts: seq<Action>)
    requires AllExited(s) && Run(s, acts).Some?
    ensures AllExited(Run(s, acts).value)
    ensures Run(s, acts).value.taken == s.taken && Run(s, acts).value.finished == s.finished
    decreases acts
  {
    if acts != [] {
      GoneStayGone(s, acts[0]);
      LateTasksAreStranded(Step(s, acts[0]).value, acts[1..]);
    }
  }

  lemma GoneStayGone(s: State, a: Action)
    requires AllExited(s) && Step(s, a).Some?
    ensures AllExited(Step(s, a).value)
    ensures Step(s, a).value.taken == s.taken && Step(s, a).value.finished == s.finished
  {
  }

  // ---------- shutdown ----------

  function WorkerRank(pc: WorkerPc): int {
    match pc
    case WExited => 0
    case WLeaving => 1
    case WCheck => 2
    case WLock => 3
    case WAsleep => 4
    case WRunning(_) => 4
    case WPopped(_) => 5
  }

  function ProducerRank(pc: ProducerPc): int {
    match pc
    case PDone => 0
    case PSignal => 1
    case PUnlock => 2
    case PPush(_) => 7
    case PLock(_) => 8
  }

  function DtorRank(pc: DtorPc): int {
    match pc
    case DDone => 0
    case DJoin => 1
    case DBroadcast => 2
    case DUnlock => 3
    case DSet => 4
    case DLock => 5
    case DIdle => 6
  }

  /** How much is still to be done. */
  function Measure(s: State): int {
    4 * |s.tasks| + Sum(s.workers, WorkerRank) + Sum(s.producers, ProducerRank) + DtorRank(s.dtor)
  }

  lemma MeasureNonNegative(s: State)
    ensures Measure(s) >= 0
  {
    SumNonNegative(s.workers, WorkerRank);
    SumNonNegative(s.producers, ProducerRank);
  }

  lemma WorkerDescends(s: State, a: Action)
    requires Inv(s) && ByWorker(a) && Step(s, a).Some?
    requires a.Check? ==> s.stop || s.tasks != []
    ensures Step(s, a).value.stop == s.stop
    ensures Measure(Step(s, a).value) < Measure(s)
  {
    SumUpdate(s.workers, a.w, Step(s, a).value.workers[a.w], WorkerRank);
  }

  lemma ProducerDescends(s: State, a: Action)
    requires Inv(s) && ByProducer(a) && Step(s, a).Some?
    ensures Step(s, a).value.stop == s.stop
    ensures Measure(Step(s, a).value) < Measure(s)
  {
    SumUpdate(s.producers, a.p, Step(s, a).value.producers[a.p], ProducerRank);
    if a.Signal? {
      SignalDescends(s, a);
    }
  }

  lemma SignalDescends(s: State, a: Action)
    requires Inv(s) && a.Signal? && Step(s, a).Some?
    ensures Step(s, a).value.stop == s.stop
    ensures Measure(Step(s, a).value) < Measure(s)
  {
    SumUpdate(s.producers, a.p, PDone, ProducerRank);
    if a.woken.Some? {
      SumUpdate(s.workers, a.woken.value, WLock, WorkerRank);
    }
  }

  /** After stop, every step except the start of a new `enqueue` brings the end nearer. */
  lemma ShutdownStep(s: State, a: Action)
    requires Inv(s) && s.stop && !a.Enqueue? && Step(s, a).Some?
    ensures Step(s, a).value.stop
    ensures Measure(Step(s, a).value) < Measure(s)
  {
    var t := Step(s, a).value;
    if ByWorker(a) {
      WorkerDescends(s, a);
    } else if ByProducer(a) {
      ProducerDescends(s, a);
    } else if a.Broadcast? {
      SumMonotone(t.workers, s.workers, WorkerRank);
    }
  }

  ghost predicate NoEnqueue(acts: seq<Action>) {
    forall k :: 0 <= k < |acts| ==> !acts[k].Enqueue?
  }

  /** So a run without new tasks after stop is no longer than the measure at its start. */
  lemma {:induction false} ShutdownTerminates(s: State, acts: seq<Action>)
    requires Inv(s) && s.stop && NoEnqueue(acts) && Run(s, acts).Some?
    ensures |acts| <= Measure(s)
    ensures Run(s, acts).value.stop
    decreases acts
  {
    if acts == [] {
      MeasureNonNegative(s);
    } else {
      ShutdownStep(s, acts[0]);
      StepKeepsInv(s, acts[0]);
      ShutdownTerminates(Step(s, acts[0]).value, acts[1..]);
    }
  }

  ghost predicate AllDone(s: State) {
    AllExited(s) && s.dtor.DDone? && forall p :: 0 <= p < |s.producers| ==> s.producers[p].PDone?
  }

  /** What the holder of the mutex does next. */
  function HolderAction(s: State): Action
    requires MutexInv(s) && !s.mutex.Nobody?
  {
    match s.mutex
    case Worker(w) =>
      if s.workers[w].WCheck? then Check(w) else if s.workers[w].WPopped? then Release(w) else Leave(w)
    case Producer(p) => if s.producers[p].PPush? then Push(p) else ReleaseP(p)
    case Destructor => if s.dtor.DSet? then SetStop else ReleaseD
  }

  lemma HolderMoves(s: State)
    requires Inv(s) && !s.mutex.Nobody?
    ensures Step(s, HolderAction(s)).Some?
  {
  }

  /** After stop some step is always possible, without relying on spurious wake-ups, until all is done. */
  lemma ShutdownProgress(s: State) returns (a: Action)
    requires Inv(s) && s.stop && !AllDone(s)
    ensures !a.Enqueue? && !a.Spurious? && Step(s, a).Some?
  {
    if !s.mutex.Nobody? {
      HolderMoves(s);
      return HolderAction(s);
    }
    if s.dtor.DBroadcast? {
      return Broadcast;
    }
    if !AllExited(s) {
      var w :| 0 <= w < |s.workers| && !s.workers[w].WExited?;
      return if s.workers[w].WLock? then Acquire(w) else Finish(w, false);
    }
    if p :| 0 <= p < |s.producers| && !s.producers[p].PDone? {
      if s.producers[p].PLock? {
        return AcquireP(p);
      }
      assert SignalChoice(s.workers, None);
      return Signal(p, None);
    }
    return Join;
  }

  /**
    Together: from stop on, if no new task is enqueued, some run leads to the end, every run is
    finite, and a run that cannot be continued has ended with all workers gone and joined.
  */
  lemma {:induction false} ShutdownCompletes(s: State) returns (acts: seq<Action>)
    requires Inv(s) && s.stop
    ensures NoEnqueue(acts) && Run(s, acts).Some? && AllDone(Run(s, acts).value)
    decreases Measure(s) + 1
  {
    MeasureNonNegative(s);
    if AllDone(s) {
      return [];
    }
    var a := ShutdownProgress(s);
    ShutdownStep(s, a);
    StepKeepsInv(s, a);
    var rest := ShutdownCompletes(Step(s, a).value);
    acts := [a] + rest;
    assert acts[1..] == rest;
  }

  // ---------- service ----------

  /** Nothing is queued and no worker has a task in hand. */
  ghost predicate Quiet(s: State) {
    s.tasks == [] && forall w :: 0 <= w < |s.workers| ==> !s.workers[w].WPopped? && !s.workers[w].WRunning?
  }

  lemma {:induction false} InHandQuiet(ws: seq<WorkerPc>)
    requires forall w :: 0 <= w < |ws| ==> !ws[w].WPopped? && !ws[w].WRunning?
    ensures InHand(ws) == multiset{}
  {
    if ws != [] {
      InHandQuiet(ws[1..]);
    }
  }

  lemma {:induction false} SomeoneOwes(producers: seq<ProducerPc>) returns (p: nat)
    requires OwedSignals(producers) > 0
    ensures p < |producers| && producers[p].Owes()
  {
    if producers[0].Owes() {
      p := 0;
    } else {
      p := SomeoneOwes(producers[1..]);
      p := p + 1;
    }
  }

  lemma {:induction false} NobodyEager(workers: seq<WorkerPc>)
    requires forall w :: 0 <= w < |workers| ==> workers[w].WAsleep?
    ensures EagerWorkers(workers) == 0
  {
    if workers != [] {
      NobodyEager(workers[1..]);
    }
  }

  /** A pool in use with all its workers asleep and a task queued has a signal to give. */
  lemma SleepersAreCalled(s: State) returns (a: Action)
    requires Inv(s) && !s.stop && |s.workers| > 0 && s.tasks != [] && s.mutex.Nobody?
    requires forall w :: 0 <= w < |s.workers| ==> s.workers[w].WAsleep?
    ensures ByProducer(a) && Step(s, a).Some?
  {
    NobodyEager(s.workers);
    assert s.workers[0].WAsleep?;
    var p := SomeoneOwes(s.producers);
    a := Signal(p, Some(0));
  }

  lemma ServiceStep(s: State) returns (a: Action)
    requires Inv(s) && s.dtor.DIdle? && |s.workers| > 0 && !Quiet(s)
    ensures ByWorker(a) || ByProducer(a)
    ensures a.Check? ==> s.tasks != []
    ensures Step(s, a).Some?
  {
    if w :| 0 <= w < |s.workers| && s.workers[w].WRunning? {
      return Finish(w, false);
    }
    if !s.mutex.Nobody? {
      HolderMoves(s);
      return HolderAction(s);
    }
    if w :| 0 <= w < |s.workers| && s.workers[w].WLock? {
      return Acquire(w);
    }
    a := SleepersAreCalled(s);
  }

  lemma ServiceDescends(s: State, a: Action)
    requires Inv(s) && s.dtor.DIdle? && (ByWorker(a) || ByProducer(a)) && Step(s, a).Some?
    requires a.Check? ==> s.tasks != []
    ensures Step(s, a).value.dtor.DIdle? && Measure(Step(s, a).value) < Measure(s)
  {
    if ByWorker(a) {
      WorkerDescends(s, a);
    } else {
      ProducerDescends(s, a);
    }
  }

  /**
    A pool with at least one worker that is not being destroyed can always run its queue down: from any
    state some run, in which no new task is enqueued, ends with everything that was pushed finished.
  */
  lemma {:induction false} EveryTaskServed(s: State) returns (acts: seq<Action>)
    requires Inv(s) && s.dtor.DIdle? && |s.workers| > 0
    ensures NoEnqueue(acts) && Run(s, acts).Some?
    ensures var t := Run(s, acts).value;
            Quiet(t) && s.pushed <= t.pushed && multiset(t.finished) == multiset(t.pushed)
    decreases Measure(s) + 1
  {
    MeasureNonNegative(s);
    if Quiet(s) {
      InHandQuiet(s.workers);
      assert s.pushed == s.taken + [] == s.taken;
      return [];
    }
    var a := ServiceStep(s);
    ServiceDescends(s, a);
    StepKeepsInv(s, a);
    StepGrows(s, a);
    var rest := EveryTaskServed(Step(s, a).value);
    acts := [a] + rest;
    assert acts[1..] == rest;
  }
}
