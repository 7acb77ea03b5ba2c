/**
  `ThreadPool` as the object it is, its fields updated in place. Each method is one function of the
  source, or one turn of a worker's loop, carried out without interference and proved to be a run of
  the transition system; `Shutdown` is the destructor with the workers it waits for.
*/
module PoolMachine {
  import opened Bytes
  import opened ThreadPool
  import opened PoolSafety

  // ---------- runs without a schedule to carry along ----------

  /** A set of states that contains every start and that no step leaves. */
  ghost predicate Complete(states: State -> bool) {
    && (forall threads :: states(Init(threads)))
    && forall s, a :: states(s) && Step(s, a).Some? ==> states(Step(s, a).value)
  }

  /** In the smallest such set. */
  ghost predicate Reached(s: State) {
    forall states: State -> bool :: Complete(states) ==> states(s)
  }

  ghost function Sound(): State -> bool { (s: State) => Inv(s) }

  lemma ReachedInv(s: State)
    requires Reached(s)
    ensures Inv(s)
  {
    forall threads: nat ensures Sound()(Init(threads)) {
      InitInv(threads);
    }
    forall s, a | Sound()(s) && Step(s, a).Some? ensures Sound()(Step(s, a).value) {
      StepKeepsInv(s, a);
    }
    assert Complete(Sound());
    assert Sound()(s);
  }

  lemma InitReached(threads: nat)
    ensures Reached(Init(threads))
  {
  }

  lemma Go(s: State, a: Action) returns (t: State)
    requires Reached(s) && Step(s, a).Some?
    ensures Reached(t) && Step(s, a) == Some(t)
  {
    t := Step(s, a).value;
    forall states: State -> bool | Complete(states) ensures states(t) {
      assert states(s);
    }
  }

  // ---------- what each function does ----------

  /** No function is half done: nobody holds the mutex, and workers wait for it, sleep or have gone. */
  ghost predicate AtRest(s: State) {
    && s.mutex.Nobody?
    && (s.dtor.DIdle? || s.dtor.DJoin? || s.dtor.DDone?)
    && (forall p :: 0 <= p < |s.producers| ==> s.producers[p].PDone?)
    && forall w :: 0 <= w < |s.workers| ==> s.workers[w].WLock? || s.workers[w].WAsleep? || s.workers[w].WExited?
  }

  function AfterEnqueue(s: State, task: Task, woken: Option<nat>): State
    requires SignalChoice(s.workers, woken)
  {
    s.(tasks := s.tasks + [task], pushed := s.pushed + [task], producers := s.producers + [PDone],
    workers := if woken.Some? then s.workers[woken.value := WLock] else s.workers)
  }

  /** One turn of the loop in `worker`: a task taken and run, or the wait, or the end. */
  function AfterTurn(s: State, w: nat): State
    requires w < |s.workers|
  {
    if s.tasks != [] then
      s.(tasks := s.tasks[1..], taken := s.taken + [s.tasks[0]], finished := s.finished + [s.tasks[0]])
    else s.(workers := s.workers[w := if s.stop then WExited else WAsleep])
  }

  function AfterStop(s: State): State {
    s.(stop := true, mark := |s.pushed|, workers := WakeAll(s.workers), dtor := DJoin)
  }

  lemma EnqueueRuns(s0: State, task: Task, woken: Option<nat>)
    requires Reached(s0) && s0.mutex.Nobody? && SignalChoice(s0.workers, woken)
    ensures Reached(AfterEnqueue(s0, task, woken))
  {
    var p := |s0.producers|;
    var s := Go(s0, Enqueue(task));
    s := Go(s, AcquireP(p));
    assert s == s0.(mutex := Producer(p), producers := s0.producers + [PPush(task)]);
    s := Go(s, Push(p));
    s := Go(s, ReleaseP(p));
    assert s == s0.(tasks := s0.tasks + [task], pushed := s0.pushed + [task], producers := s0.producers + [PSignal]);
    s := Go(s, Signal(p, woken));
    assert s == AfterEnqueue(s0, task, woken);
  }

  lemma TurnRuns(s0: State, w: nat)
    requires Reached(s0) && s0.mutex.Nobody? && w < |s0.workers| && s0.workers[w].WLock?
    ensures Reached(AfterTurn(s0, w))
  {
    var s := Go(s0, Acquire(w));
    s := Go(s, Check(w));
    if s0.tasks != [] {
      s := Go(s, Release(w));
      s := Go(s, Finish(w, false));
      assert s.workers == s0.workers;
    } else if s0.stop {
      s := Go(s, Leave(w));
      assert s.workers == s0.workers[w := WExited];
    } else {
      assert s.workers == s0.workers[w := WAsleep];
    }
  }

  lemma StopRuns(s0: State)
    requires Reached(s0) && s0.mutex.Nobody? && s0.dtor.DIdle?
    ensures Reached(AfterStop(s0))
  {
    var s := Go(s0, Destroy);
    s := Go(s, AcquireD);
    s := Go(s, SetStop);
    s := Go(s, ReleaseD);
    s := Go(s, Broadcast);
  }

  lemma RestIsQuiet(s: State)
    requires Reached(s) && AtRest(s)
    ensures multiset(s.finished) == multiset(s.taken) && s.pushed == s.taken + s.tasks
  {
    ReachedInv(s);
    InHandQuiet(s.workers);
    assert multiset{} + multiset(s.finished) == multiset(s.finished);
  }

  /** While a task is queued, some worker is awake to take it, unless there is none or all have gone. */
  lemma SomebodyAwake(s: State)
    requires Reached(s) && AtRest(s) && s.tasks != [] && !s.stop && |s.workers| > 0
    ensures exists w :: 0 <= w < |s.workers| && s.workers[w].WLock?
  {
    ReachedInv(s);
    if forall w :: 0 <= w < |s.workers| ==> s.workers[w].WAsleep? {
      NobodyEager(s.workers);
      assert s.workers[0].WAsleep?;
      var p := SomeoneOwes(s.producers);
      assert false;
    }
    var w :| 0 <= w < |s.workers| && !s.workers[w].WAsleep?;
    assert s.workers[w].WLock?;
  }

  // ---------- the object ----------

  class ThreadPoolObject {
    var mutex: Owner
    var tasks: seq<Task>
    var stop: bool
    var workers: seq<WorkerPc>
    var producers: seq<ProducerPc>
    var dtor: DtorPc
    ghost var pushed: seq<Task>
    ghost var taken: seq<Task>
    ghost var finished: seq<Task>
    ghost var mark: nat

    ghost function View(): State
      reads this
    {
      State(mutex, tasks, stop, workers, producers, dtor, pushed, taken, finished, mark)
    }

    /** Some interleaved run leads here, and no function is half done. */
    ghost predicate Valid()
      reads this
    {
      Reached(View()) && AtRest(View())
    }

    constructor (numThreads: nat)
      ensures Valid() && View() == Init(numThreads)
    {
      mutex, tasks, stop, workers, producers, dtor := Nobody, [], false, seq(numThreads, _ => WLock), [], DIdle;
      pushed, taken, finished, mark := [], [], [], 0;
      new;
      InitReached(numThreads);
      assert View() == Init(numThreads);
    }

    /** `enqueue`: the task is last in the queue, and if the pool is in use some worker is awake to take it. */
    method Enqueue(task: Task, woken: Option<nat>)
      requires Valid() && SignalChoice(workers, woken)
      modifies this
      ensures View() == AfterEnqueue(old(View()), task, woken)
      ensures Valid() && tasks == old(tasks) + [task] && pushed == old(pushed) + [task]
      ensures taken == old(taken) && finished == old(finished) && stop == old(stop)
      ensures !stop && |workers| > 0 ==> exists w :: 0 <= w < |workers| && workers[w].WLock?
    {
      EnqueueRuns(View(), task, woken);
      tasks := tasks + [task];
      pushed := pushed + [task];
      producers := producers + [PDone];
      if woken.Some? {
        workers := workers[woken.value := WLock];
      }
      if !stop && |workers| > 0 {
        SomebodyAwake(View());
      }
    }

    /**
      One turn of `worker`: the task taken is the one that was pushed next after those taken before, and
      it is finished, whether it returns or throws; a worker sleeps, or goes, only when none is queued.
    */
    method Turn(w: nat)
      requires Valid() && w < |workers| && workers[w].WLock?
      modifies this
      ensures View() == AfterTurn(old(View()), w)
      ensures Valid() && pushed == old(pushed)
      ensures old(tasks) != [] ==>
                var first := old(tasks)[0];
                && tasks == old(tasks)[1..] && taken == old(taken) + [first] && finished == old(finished) + [first]
                && workers == old(workers)
      ensures old(tasks) == [] ==> tasks == [] && taken == old(taken) && finished == old(finished)
      ensures old(tasks) == [] ==> workers[w] == (if stop then WExited else WAsleep)
      ensures |taken| == |old(taken)| || (|old(taken)| < |pushed| && taken == old(taken) + [pushed[|old(taken)|]])
      ensures workers != old(workers) ==> taken == pushed
    {
      RestIsQuiet(View());
      TurnRuns(View(), w);
      if tasks != [] {
        var task := tasks[0];
        tasks := tasks[1..];
        taken := taken + [task];
        finished := finished + [task];
      } else if stop {
        workers := workers[w := WExited];
      } else {
        workers := workers[w := WAsleep];
      }
    }

    /** The destructor up to its joins: the broadcast leaves nobody asleep. */
    method Stop()
      requires Valid() && dtor.DIdle?
      modifies this
      ensures View() == AfterStop(old(View()))
      ensures Valid() && forall w :: 0 <= w < |workers| ==> workers[w].WLock?
    {
      ghost var s := View();
      StopRuns(s);
      ReachedInv(s);
      stop := true;
      mark := |pushed|;
      var i := 0;
      var awake: seq<WorkerPc> := [];
      while i < |workers|
        invariant 0 <= i <= |workers| && |awake| == i
        invariant forall k :: 0 <= k < i ==> awake[k] == if workers[k].WAsleep? then WLock else workers[k]
      {
        awake := awake + [if workers[i].WAsleep? then WLock else workers[i]];
        i := i + 1;
      }
      assert awake == WakeAll(workers);
      workers := awake;
      dtor := DJoin;
    }

    /**
      The whole destructor, with the workers taking their turns: it ends, with every worker gone and, if
      there was one, every task ever pushed finished.
    */
    method Shutdown()
      requires Valid() && dtor.DIdle?
      modifies this
      ensures Valid() && dtor.DDone? && AllExited(View()) && pushed == old(pushed)
      ensures |workers| > 0 ==> tasks == [] && multiset(finished) == multiset(pushed)
    {
      Stop();
      if |workers| > 0 {
        Drain();
      }
      var w := 0;
      while w < |workers|
        invariant 0 <= w <= |workers| && Valid() && stop && dtor.DJoin? && pushed == old(pushed)
        invariant |workers| > 0 ==> tasks == []
        invariant forall k :: 0 <= k < w ==> workers[k].WExited?
        invariant forall k :: w <= k < |workers| ==> workers[k].WLock?
      {
        Turn(w);
        w := w + 1;
      }
      ghost var _ := Go(View(), Join);
      dtor := DDone;
      RestIsQuiet(View());
      if |workers| > 0 {
        assert taken + [] == taken;
      }
    }

    /** One worker empties the queue. */
    method Drain()
      requires Valid() && stop && dtor.DJoin? && |workers| > 0 && forall w :: 0 <= w < |workers| ==> workers[w].WLock?
      modifies this
      ensures Valid() && stop && dtor.DJoin? && tasks == [] && pushed == old(pushed) && workers == old(workers)
    {
      while tasks != []
        invariant Valid() && stop && dtor.DJoin? && pushed == old(pushed) && workers == old(workers)
        decreases |tasks|
      {
        Turn(0);
      }
    }
  }
}
