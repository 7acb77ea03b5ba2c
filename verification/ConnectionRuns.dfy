/**
  What each function of the source does to a connection when nobody interferes, as a run of the
  transition system; and that the ways of getting stuck do occur.
*/
module ConnectionRuns {
  import opened Bytes
  import opened Codec
  import opened Folds
  import opened Connection
  import opened ConnectionSafety

  lemma {:induction false} RunThen(s: State, acts: seq<Action>, a: Action)
    requires Run(s, acts).Some?
    ensures Run(s, acts + [a]) == Step(Run(s, acts).value, a)
    decreases acts
  {
    if acts == [] {
      assert [] + [a] == [a] && [a][1..] == [];
    } else {
      assert (acts + [a])[1..] == acts[1..] + [a];
      RunThen(Step(s, acts[0]).value, acts[1..], a);
    }
  }

  /** A set of states that contains the start and that no step leaves. */
  ghost predicate Complete(states: State -> bool) {
    && (forall relockable, release :: states(Init(relockable, release)))
    && forall s, a :: states(s) && Step(s, a).Some? ==> states(Step(s, a).value)
  }

  /** In the smallest such set; the same as `Reachable`, without a schedule to carry along. */
  ghost predicate Reached(s: State) {
    forall states: State -> bool :: Complete(states) ==> states(s)
  }

  ghost function HasRun(): State -> bool { (s: State) => Reachable(s) }

  lemma Go(s: State, a: Action) returns (t: State)
    requires Reached(s) && Step(s, a).Some?
    ensures Reached(t) && Step(s, a) == Some(t)
  {
    t := Step(s, a).value;
    forall states: State -> bool | Complete(states) ensures states(t) {
      assert states(s);
    }
  }

  // One step of one thread that starts no other and wakes none, with its result spelt out.

  lemma GoLoop(s: State, l: LoopAction, g: Shared, pc: LoopPc) returns (t: State)
    requires Reached(s) && LoopMove(s.g, s.loop, l) == LoopGoes(g, pc)
    requires !l.BeginDrain? && !l.ExitLoop? && !l.Enqueue? && !l.Spawn?
    ensures Reached(t) && t == s.(g := g, loop := pc)
  {
    t := Go(s, ByLoop(l));
  }

  lemma GoTask(s: State, i: nat, a: TaskAction, g: Shared, pc: TaskPc) returns (t: State)
    requires Reached(s) && i < |s.tasks| && TaskMove(s.g, i, s.tasks[i], a, s.loop.InMap()) == TaskGoes(g, pc)
    requires !a.Notify?
    ensures Reached(t) && t == s.(g := g, tasks := s.tasks[i := s.tasks[i].(pc := pc)])
  {
    t := Go(s, ByTask(i, a));
  }

  lemma GoActive(s: State, j: nat, a: ActiveAction, g: Shared, pc: ActivePc) returns (t: State)
    requires Reached(s) && j < |s.actives| && ActiveMove(s.g, j, s.actives[j], a, s.loop.InMap()) == ActiveGoes(g, pc)
    requires !a.Notify?
    ensures Reached(t) && t == s.(g := g, actives := s.actives[j := pc])
  {
    t := Go(s, ByActive(j, a));
  }

  lemma InitReached(relockable: bool, release: bool)
    ensures Reached(Init(relockable, release))
  {
  }

  lemma {:induction false} RunReached(s: State, acts: seq<Action>)
    requires Reached(s) && Run(s, acts).Some?
    ensures Reached(Run(s, acts).value)
    decreases acts
  {
    if acts != [] {
      var t := Go(s, acts[0]);
      RunReached(t, acts[1..]);
    }
  }

  lemma HasRunComplete()
    ensures Complete(HasRun())
  {
    forall relockable, release ensures HasRun()(Init(relockable, release)) {
      assert Run(Init(relockable, release), []) == Some(Init(relockable, release));
    }
    forall s, a | HasRun()(s) && Step(s, a).Some? ensures HasRun()(Step(s, a).value) {
      var acts, relockable, release :| Run(Init(relockable, release), acts) == Some(s);
      RunThen(Init(relockable, release), acts, a);
    }
  }

  lemma ReachedIff(s: State)
    ensures Reached(s) <==> Reachable(s)
  {
    if Reached(s) {
      HasRunComplete();
      assert HasRun()(s);
    } else if Reachable(s) {
      var acts, relockable, release :| Run(Init(relockable, release), acts) == Some(s);
      InitReached(relockable, release);
      RunReached(Init(relockable, release), acts);
    }
  }

  lemma ReachedInv(s: State)
    requires Reached(s)
    ensures Inv(s)
  {
    ReachedIff(s);
    ReachableInv(s);
  }

  // ---------- the epoll thread ----------

  /** What `handle_event` gets to see: the first result that is not an interruption. */
  function First(input: seq<ReadResult>): ReadResult {
    if input == [] then WouldBlock else if input[0].Interrupted? then First(input[1..]) else input[0]
  }

  ghost predicate AllReadable(input: seq<ReadResult>) {
    forall r :: r in input && r.Data? ==> Readable(r.chunk)
  }

  /** After `handle_event`, when its read returned `r`. */
  function AfterHandle(s: State, r: ReadResult): State {
    match r
    case Data(c) =>
      s.(g := s.g.(received := s.g.received + [c], inPool := true), loop := LIdle, tasks := s.tasks + [TaskRec(c, TQueued)])
    case Ended => s.(g := s.g.(life := Closed, closes := s.g.closes + 1), loop := LIdle)
    case _ => s.(loop := LIdle)
  }

  /** After one pass through the body of `loop` or `drain_epoll`. */
  function AfterEvent(s: State, input: seq<ReadResult>): State {
    if !s.g.life.Registered? then s
    else if s.g.running then s.(g := s.g.(needActive := true))
    else if s.g.inPool then s.(g := s.g.(needActive := true, running := true), actives := s.actives + [AStart])
    else AfterHandle(s, First(input))
  }

  lemma EventMarks(s0: State) returns (s: State)
    requires Reached(s0) && s0.g.life.Registered? && s0.g.running && s0.loop.LIdle?
    ensures Reached(s) && s == s0.(g := s0.g.(needActive := true))
  {
    s := GoLoop(s0, Event, s0.g, LFound);
    s := GoLoop(s, TakeMap, s0.g, LTest);
    s := GoLoop(s, TestRunning, s0.g, LMark);
    s := GoLoop(s, MarkNeed, s0.g.(needActive := true), LIdle);
  }

  /** The epoll thread sees an event while no active thread runs, up to its test of the pool flag. */
  lemma EventSeen(s0: State) returns (s: State)
    requires Reached(s0) && s0.g.life.Registered? && !s0.g.running && s0.loop.LIdle?
    ensures Reached(s) && s == s0.(loop := if s0.g.inPool then LNeed else LHandle)
  {
    s := GoLoop(s0, Event, s0.g, LFound);
    s := GoLoop(s, TakeMap, s0.g, LTest);
    s := GoLoop(s, TestRunning, s0.g, LTestPool);
    s := GoLoop(s, LoopAction.TestPool, s0.g, if s0.g.inPool then LNeed else LHandle);
  }

  lemma ActiveSpawned(s0: State) returns (s: State)
    requires Reached(s0) && s0.loop.LNeed?
    ensures Reached(s)
    ensures s == s0.(g := s0.g.(needActive := true, running := true), loop := LIdle, actives := s0.actives + [AStart])
  {
    s := GoLoop(s0, SetNeed, s0.g.(needActive := true), LRun);
    s := GoLoop(s, SetRunning, s0.g.(needActive := true, running := true), LSpawn);
    s := Go(s, ByLoop(Spawn));
  }

  /** A chunk is read by the epoll thread and put on the pool's queue. */
  lemma ChunkQueued(s0: State, c: Chunk) returns (s: State)
    requires Reached(s0) && s0.g.life.Registered? && s0.loop.LHandle? && s0.g.mutex.Nobody? && Readable(c)
    ensures Reached(s) && s == AfterHandle(s0, Data(c))
  {
    s := ChunkRead(s0, c);
    s := FlagRaised(s, c);
    s := Go(s, ByLoop(Enqueue));
  }

  lemma FlagRaised(s0: State, c: Chunk) returns (s: State)
    requires Reached(s0) && s0.loop == LFlag(c)
    ensures Reached(s) && s == s0.(g := s0.g.(inPool := true, mutex := Nobody), loop := LEnqueue(c))
  {
    s := GoLoop(s0, RaiseFlag, s0.g.(inPool := true), LUnlock(c));
    s := GoLoop(s, UnlockFd, s0.g.(inPool := true, mutex := Nobody), LEnqueue(c));
  }

  lemma ChunkRead(s0: State, c: Chunk) returns (s: State)
    requires Reached(s0) && s0.g.life.Registered? && s0.loop.LHandle? && s0.g.mutex.Nobody? && Readable(c)
    ensures Reached(s) && s == s0.(g := s0.g.(received := s0.g.received + [c], mutex := TheLoop), loop := LFlag(c))
  {
    var g := s0.g.(received := s0.g.received + [c]);
    s := GoLoop(s0, LoopAction.Lookup, s0.g, LRead);
    s := GoLoop(s, LoopAction.ReadChunk(c), g, LLock(c));
    s := GoLoop(s, LockFd, g.(mutex := TheLoop), LFlag(c));
  }

  lemma LoopCloses(s0: State) returns (s: State)
    requires Reached(s0) && s0.loop.LClose?
    ensures Reached(s) && s == s0.(g := s0.g.(life := Closed, closes := s0.g.closes + 1), loop := LIdle)
  {
    s := GoLoop(s0, LoopAction.CloseFd, s0.g.(life := Closed, closes := s0.g.closes + 1), LIdle);
  }

  lemma HandleEnds(s0: State) returns (s: State)
    requires Reached(s0) && s0.g.life.Registered? && s0.loop.LHandle?
    ensures Reached(s) && s == AfterHandle(s0, Ended)
  {
    s := GoLoop(s0, LoopAction.Lookup, s0.g, LRead);
    if s0.g.release {
      s := GoLoop(s, LoopAction.ReadEnd, s0.g, LErase);
      s := GoLoop(s, LoopAction.EraseSession, s0.g, LClose);
      s := LoopCloses(s);
    } else {
      s := GoLoop(s, LoopAction.ReadEnd, s0.g, LClose);
      s := LoopCloses(s);
    }
  }

  /** An interrupted read starts `handle_event` over; one without data ends it. */
  lemma HandleEmpty(s0: State, r: ReadResult) returns (s: State)
    requires Reached(s0) && s0.g.life.Registered? && s0.loop.LHandle? && (r.Interrupted? || r.WouldBlock?)
    ensures Reached(s) && s == if r.Interrupted? then s0 else AfterHandle(s0, r)
  {
    s := GoLoop(s0, LoopAction.Lookup, s0.g, LRead);
    if r.Interrupted? {
      s := GoLoop(s, LoopAction.ReadInterrupted, s0.g, LHandle);
    } else {
      s := GoLoop(s, LoopAction.ReadEmpty, s0.g, LIdle);
    }
  }

  // ---------- a pool task ----------

  /** Whoever waited on `fd_cond` has been woken. */
  function WokenUp(actives: seq<ActivePc>): seq<ActivePc> {
    if actives != [] && actives[|actives| - 1].AAsleep? then actives[|actives| - 1 := AWant] else actives
  }

  /** After the whole of pool task `i`, whose `handle_request`, if it comes to that, returns or throws. */
  function AfterTask(s: State, i: nat, throws: bool): State
    requires i < |s.tasks|
  {
    var c := s.tasks[i].chunk;
    var g := s.g.(done := s.g.done + [Verdict(c)]);
    if Parses(c) && !throws then s.(g := g.(inPool := false), tasks := s.tasks[i := TaskRec(c, TDone)], actives := WokenUp(s.actives))
    else s.(g := g.(poisoned := true), tasks := s.tasks[i := TaskRec(c, TDone)])
  }

  lemma TaskRuns(s0: State, i: nat, throws: bool) returns (s: State)
    requires Reached(s0) && s0.g.life.Registered? && !s0.loop.InMap() && s0.g.mutex.Nobody?
    requires i < |s0.tasks| && s0.tasks[i].pc.TQueued?
    ensures Reached(s) && s == AfterTask(s0, i, throws)
  {
    if Parses(s0.tasks[i].chunk) && !throws {
      s := TaskSucceeds(s0, i);
    } else {
      s := TaskFails(s0, i, throws);
    }
  }

  lemma TaskSucceeds(s0: State, i: nat) returns (s: State)
    requires Reached(s0) && s0.g.life.Registered? && !s0.loop.InMap() && s0.g.mutex.Nobody?
    requires i < |s0.tasks| && s0.tasks[i].pc.TQueued? && Parses(s0.tasks[i].chunk)
    ensures Reached(s) && s == AfterTask(s0, i, false)
  {
    s := TaskLocks(s0, i);
    s := TaskHandles(s, i);
    assert s.tasks == s0.tasks[i := TaskRec(s0.tasks[i].chunk, TDone)];
  }

  lemma TaskFails(s0: State, i: nat, throws: bool) returns (s: State)
    requires Reached(s0) && s0.g.life.Registered? && !s0.loop.InMap() && s0.g.mutex.Nobody?
    requires i < |s0.tasks| && s0.tasks[i].pc.TQueued? && (Parses(s0.tasks[i].chunk) ==> throws)
    ensures Reached(s) && s == AfterTask(s0, i, throws)
  {
    s := TaskLocks(s0, i);
    s := TaskDrops(s, i);
    assert s.tasks == s0.tasks[i := TaskRec(s0.tasks[i].chunk, TDone)];
  }

  lemma TaskLocks(s0: State, i: nat) returns (s: State)
    requires Reached(s0) && s0.g.life.Registered? && !s0.loop.InMap() && s0.g.mutex.Nobody?
    requires i < |s0.tasks| && s0.tasks[i].pc.TQueued?
    ensures Reached(s) && s == s0.(g := s0.g.(mutex := Task(i)), tasks := s0.tasks[i := TaskRec(s0.tasks[i].chunk, TParse)])
  {
    s := GoTask(s0, i, TaskAction.Begin, s0.g, TWant);
    s := GoTask(s, i, TaskAction.Lock, s0.g.(mutex := Task(i)), TParse);
  }

  lemma TaskHandles(s0: State, i: nat) returns (s: State)
    requires Reached(s0) && i < |s0.tasks| && s0.tasks[i].pc.TParse? && Parses(s0.tasks[i].chunk)
    ensures Reached(s)
    ensures var c := s0.tasks[i].chunk;
            s == s0.(g := s0.g.(done := s0.g.done + [Done(c, Handled)], inPool := false, mutex := Nobody),
                     tasks := s0.tasks[i := TaskRec(c, TDone)], actives := WokenUp(s0.actives))
  {
    s := GoTask(s0, i, TaskAction.Parse, s0.g, THandling);
    s := TaskReturns(s, i);
    assert s.tasks == s0.tasks[i := TaskRec(s0.tasks[i].chunk, TDone)];
  }

  /** The two ways of leaving without clearing the flag: the early return, and an exception. */
  lemma TaskDrops(s0: State, i: nat) returns (s: State)
    requires Reached(s0) && i < |s0.tasks| && s0.tasks[i].pc.TParse?
    ensures Reached(s)
    ensures var c := s0.tasks[i].chunk;
            s == s0.(g := s0.g.(done := s0.g.done + [Verdict(c)], poisoned := true, mutex := Nobody),
                     tasks := s0.tasks[i := TaskRec(c, TDone)])
  {
    var c := s0.tasks[i].chunk;
    var g := s0.g.(done := s0.g.done + [Verdict(c)], poisoned := true);
    if Parses(c) {
      s := GoTask(s0, i, TaskAction.Parse, s0.g, THandling);
      s := GoTask(s, i, Throw, g, TUnlock);
      s := TaskUnlocks(s, i);
    } else {
      s := GoTask(s0, i, TaskAction.Parse, g, TUnlock);
      s := TaskUnlocks(s, i);
    }
    assert s.tasks == s0.tasks[i := TaskRec(c, TDone)];
  }

  lemma TaskUnlocks(s0: State, i: nat) returns (s: State)
    requires Reached(s0) && i < |s0.tasks| && s0.tasks[i].pc.TUnlock?
    ensures Reached(s) && s == s0.(g := s0.g.(mutex := Nobody), tasks := s0.tasks[i := s0.tasks[i].(pc := TDone)])
  {
    s := GoTask(s0, i, TaskAction.Unlock, s0.g.(mutex := Nobody), TDone);
  }

  lemma TaskReturns(s0: State, i: nat) returns (s: State)
    requires Reached(s0) && i < |s0.tasks| && s0.tasks[i].pc.THandling?
    ensures Reached(s)
    ensures var c := s0.tasks[i].chunk;
            s == s0.(g := s0.g.(done := s0.g.done + [Done(c, Handled)], inPool := false, mutex := Nobody),
                     tasks := s0.tasks[i := TaskRec(c, TDone)], actives := WokenUp(s0.actives))
  {
    var g := s0.g.(done := s0.g.done + [Done(s0.tasks[i].chunk, Handled)]);
    s := GoTask(s0, i, TaskAction.Return, g, TClear);
    s := GoTask(s, i, ClearFlag, g.(inPool := false), TNotify);
    s := TaskLeaves(s, i);
  }

  lemma SleeperIsChosen(s: State)
    requires Reached(s)
    ensures WakeChoice(s.actives, Sleeper(s))
  {
    ReachedInv(s);
  }

  lemma TaskLeaves(s0: State, i: nat) returns (s: State)
    requires Reached(s0) && i < |s0.tasks| && s0.tasks[i].pc.TNotify?
    ensures Reached(s)
    ensures s == s0.(g := s0.g.(mutex := Nobody), tasks := s0.tasks[i := s0.tasks[i].(pc := TDone)], actives := WokenUp(s0.actives))
  {
    SleeperIsChosen(s0);
    s := Go(s0, ByTask(i, TaskAction.Notify(Sleeper(s0))));
    s := GoTask(s, i, TaskAction.Unlock, s0.g.(mutex := Nobody), TDone);
  }

  // ---------- an active thread ----------

  /** The chunks that the read loop of `activefd_handle_event` takes. */
  function Taken(input: seq<ReadResult>): seq<Chunk> {
    if input == [] then []
    else
      match input[0]
      case Data(c) => [c] + Taken(input[1..])
      case Interrupted => Taken(input[1..])
      case _ => []
  }

  /** It ends at the end of the stream, and not because nothing is left to read for now. */
  predicate Ends(input: seq<ReadResult>) {
    input != [] && (input[0].Ended? || (!input[0].WouldBlock? && Ends(input[1..])))
  }

  function Verdicts(cs: seq<Chunk>): seq<Done> {
    if cs == [] then [] else [Verdict(cs[0])] + Verdicts(cs[1..])
  }

  /** After the read loop of `activefd_handle_event`, begun with the mutex free to take. */
  function AfterTaking(s: State, j: nat, input: seq<ReadResult>): State
    requires j < |s.actives|
  {
    var cs := Taken(input);
    if cs != [] && !s.g.relockable then
      s.(g := s.g.(received := s.g.received + [cs[0]], mutex := Active(j)), actives := s.actives[j := ARelock(cs[0])])
    else
      var h := s.g.(received := s.g.received + cs, done := s.g.done + Verdicts(cs));
      if Ends(input) then s.(g := h.(life := Closed, closes := h.closes + 1), actives := s.actives[j := AGone])
      else s.(g := h, actives := s.actives[j := ANap])
  }

  /**
    After one pass of an active thread from the top of its loop, or from its wait, to the sleep: with
    a plain mutex it takes one chunk and is stuck.
  */
  function AfterActive(s: State, j: nat, input: seq<ReadResult>): State
    requires j < |s.actives|
  {
    var t := s.(g := if s.actives[j].AWant? then s.g else s.g.(needActive := false));
    if s.g.inPool then t.(actives := s.actives[j := AAsleep]) else AfterTaking(t, j, input)
  }

  /** After its last look at `needactive`. */
  function AfterLook(s: State, j: nat): State
    requires j < |s.actives|
  {
    if s.g.needActive then s.(actives := s.actives[j := ATop])
    else s.(g := s.g.(running := false), actives := s.actives[j := AGone])
  }

  /** Up to the test of `fd_inthreadpool`, which it passes or goes to sleep on. */
  lemma ActiveTests(s0: State, j: nat) returns (s: State)
    requires Reached(s0) && s0.g.life.Registered? && !s0.loop.InMap() && s0.g.mutex.Nobody?
    requires j < |s0.actives| && (s0.actives[j].AStart? || s0.actives[j].ATop? || s0.actives[j].AWant?)
    ensures Reached(s)
    ensures var g := if s0.actives[j].AWant? then s0.g else s0.g.(needActive := false);
            s == if s0.g.inPool then s0.(g := g, actives := s0.actives[j := AAsleep])
                 else s0.(g := g.(mutex := Active(j)), actives := s0.actives[j := ARead])
  {
    s := ActiveComes(s0, j);
    s := ActiveEnters(s, j);
  }

  lemma ActiveEnters(s0: State, j: nat) returns (s: State)
    requires Reached(s0) && s0.g.mutex.Nobody? && j < |s0.actives| && s0.actives[j].AWant?
    ensures Reached(s)
    ensures s == if s0.g.inPool then s0.(actives := s0.actives[j := AAsleep])
                 else s0.(g := s0.g.(mutex := Active(j)), actives := s0.actives[j := ARead])
  {
    s := GoActive(s0, j, ActiveAction.Lock, s0.g.(mutex := Active(j)), ATest);
    if s0.g.inPool {
      s := GoActive(s, j, TestFlag, s0.g, AAsleep);
    } else {
      s := GoActive(s, j, TestFlag, s.g, ARead);
    }
  }

  lemma ActiveComes(s0: State, j: nat) returns (s: State)
    requires Reached(s0) && s0.g.life.Registered? && !s0.loop.InMap()
    requires j < |s0.actives| && (s0.actives[j].AStart? || s0.actives[j].ATop? || s0.actives[j].AWant?)
    ensures Reached(s)
    ensures s == s0.(g := if s0.actives[j].AWant? then s0.g else s0.g.(needActive := false), actives := s0.actives[j := AWant])
  {
    s := s0;
    if s.actives[j].AStart? {
      s := GoActive(s, j, ActiveAction.Begin, s0.g, ATop);
    }
    if s.actives[j].ATop? {
      var g := s0.g.(needActive := false);
      s := GoActive(s, j, ClearNeed, g, ALookup);
      s := GoActive(s, j, ActiveAction.Lookup, g, AWant);
    }
  }

  /** One chunk, read and come to the second lock. */
  lemma ActiveReads(s0: State, j: nat, c: Chunk) returns (s: State)
    requires Reached(s0) && s0.g.life.Registered? && !s0.loop.InMap() && j < |s0.actives| && s0.actives[j].ARead? && Readable(c)
    ensures Reached(s)
    ensures s == s0.(g := s0.g.(received := s0.g.received + [c]), actives := s0.actives[j := ARelock(c)])
  {
    var g := s0.g.(received := s0.g.received + [c]);
    s := GoActive(s0, j, ActiveAction.ReadChunk(c), g, AFind(c));
    s := GoActive(s, j, Find, g, ARelock(c));
  }

  /** If the second lock returns, the chunk is finished and the loop reads on. */
  lemma ActiveTakes(s0: State, j: nat, c: Chunk) returns (s: State)
    requires Reached(s0) && s0.g.life.Registered? && !s0.loop.InMap() && j < |s0.actives| && s0.actives[j].ARead? && Readable(c)
    requires s0.g.relockable && s0.g.mutex == Active(j)
    ensures Reached(s)
    ensures s == s0.(g := s0.g.(received := s0.g.received + [c], done := s0.g.done + [Verdict(c)]))
  {
    s := ActiveReads(s0, j, c);
    s := GoActive(s, j, Relock, s.g, AParse(c));
    s := ActiveDecides(s, j);
  }

  lemma ActiveDecides(s0: State, j: nat) returns (s: State)
    requires Reached(s0) && j < |s0.actives| && s0.actives[j].AParse?
    ensures Reached(s)
    ensures s == s0.(g := s0.g.(done := s0.g.done + [Verdict(s0.actives[j].chunk)]), actives := s0.actives[j := ARead])
  {
    var c := s0.actives[j].chunk;
    var g := s0.g.(done := s0.g.done + [Verdict(c)]);
    if Parses(c) {
      s := GoActive(s0, j, ActiveAction.Parse, s0.g, AHandling(c));
      s := GoActive(s, j, ActiveAction.Return, g, ARead);
    } else {
      s := GoActive(s0, j, ActiveAction.Parse, g, ARead);
    }
  }

  lemma ActiveCloses(s0: State, j: nat) returns (s: State)
    requires Reached(s0) && !s0.loop.InMap() && j < |s0.actives| && s0.actives[j].AClose?
    ensures Reached(s)
    ensures s == s0.(g := s0.g.(life := Closed, closes := s0.g.closes + 1), actives := s0.actives[j := AGone])
  {
    s := GoActive(s0, j, ActiveAction.CloseFd, s0.g.(life := Closed, closes := s0.g.closes + 1), AGone);
  }

  lemma ActiveEnds(s0: State, j: nat) returns (s: State)
    requires Reached(s0) && !s0.loop.InMap() && j < |s0.actives| && s0.actives[j].ARead?
    ensures Reached(s)
    ensures s == s0.(g := s0.g.(mutex := Nobody, life := Closed, closes := s0.g.closes + 1), actives := s0.actives[j := AGone])
  {
    var g := s0.g.(mutex := Nobody);
    s := GoActive(s0, j, ActiveAction.ReadEnd, g, AErase);
    s := GoActive(s, j, ActiveAction.EraseSession, g, AClose);
    s := ActiveCloses(s, j);
  }

  lemma ActiveNaps(s0: State, j: nat) returns (s: State)
    requires Reached(s0) && j < |s0.actives| && s0.actives[j].ARead?
    ensures Reached(s) && s == s0.(g := s0.g.(mutex := Nobody), actives := s0.actives[j := ANap])
  {
    s := GoActive(s0, j, ActiveAction.ReadEmpty, s0.g.(mutex := Nobody), ANap);
  }

  lemma ActiveWakes(s0: State, j: nat) returns (s: State)
    requires Reached(s0) && s0.g.mutex.Nobody? && j < |s0.actives| && s0.actives[j].ANap?
    ensures Reached(s) && s == s0.(g := s0.g.(mutex := Active(j)), actives := s0.actives[j := ATestNeed])
  {
    s := GoActive(s0, j, Wake, s0.g, AWantAgain);
    s := GoActive(s, j, LockAgain, s0.g.(mutex := Active(j)), ATestNeed);
  }

  lemma ActiveLooks(s0: State, j: nat) returns (s: State)
    requires Reached(s0) && s0.g.mutex.Nobody? && j < |s0.actives| && s0.actives[j].ANap?
    ensures Reached(s) && s == AfterLook(s0, j)
  {
    s := ActiveWakes(s0, j);
    if s0.g.needActive {
      s := GoActive(s, j, TestNeed, s0.g, ATop);
    } else {
      s := GoActive(s, j, TestNeed, s.g, AStore);
      s := ActiveStops(s, j);
    }
  }

  lemma NobodySleeps(s: State, j: nat)
    requires Reached(s) && j < |s.actives| && s.actives[j].ANotify?
    ensures WakeChoice(s.actives, None)
  {
    ReachedInv(s);
  }

  lemma ActiveNotifies(s0: State, j: nat) returns (s: State)
    requires Reached(s0) && j < |s0.actives| && s0.actives[j].ANotify?
    ensures Reached(s) && s == s0.(actives := s0.actives[j := ALeave])
  {
    NobodySleeps(s0, j);
    s := Go(s0, ByActive(j, ActiveAction.Notify(None)));
  }

  lemma ActiveStops(s0: State, j: nat) returns (s: State)
    requires Reached(s0) && j < |s0.actives| && s0.actives[j].AStore?
    ensures Reached(s) && s == s0.(g := s0.g.(running := false, mutex := Nobody), actives := s0.actives[j := AGone])
  {
    var g := s0.g.(running := false);
    s := GoActive(s0, j, StoreStopped, g, ANotify);
    s := ActiveNotifies(s, j);
    s := GoActive(s, j, Leave, g.(mutex := Nobody), AGone);
  }

  // ---------- whole functions ----------

  lemma {:induction false} HandleRuns(s0: State, input: seq<ReadResult>)
    requires Reached(s0) && s0.g.life.Registered? && s0.loop.LHandle? && s0.g.mutex.Nobody? && AllReadable(input)
    ensures Reached(AfterHandle(s0, First(input)))
  {
    if input == [] {
      var _ := HandleEmpty(s0, WouldBlock);
    } else {
      match input[0] {
        case Data(c) =>
          var _ := ChunkQueued(s0, c);
        case Ended =>
          var _ := HandleEnds(s0);
        case Interrupted =>
          var s := HandleEmpty(s0, Interrupted);
          HandleRuns(s, input[1..]);
        case WouldBlock =>
          var _ := HandleEmpty(s0, WouldBlock);
      }
    }
  }

  lemma EventRuns(s0: State, input: seq<ReadResult>)
    requires Reached(s0) && s0.loop.LIdle? && AllReadable(input)
    requires s0.g.life.Registered? && !s0.g.running ==> s0.g.mutex.Nobody?
    ensures Reached(AfterEvent(s0, input))
  {
    if s0.g.life.Registered? && s0.g.running {
      var _ := EventMarks(s0);
    } else if s0.g.life.Registered? {
      var s := EventSeen(s0);
      if s0.g.inPool {
        var _ := ActiveSpawned(s);
      } else {
        HandleRuns(s, input);
      }
    }
  }

  /** The chunks `cs` read and finished, in order. */
  function WithTaken(s: State, cs: seq<Chunk>): State {
    s.(g := s.g.(received := s.g.received + cs, done := s.g.done + Verdicts(cs)))
  }

  lemma VerdictsNext(c: Chunk, rest: seq<Chunk>)
    ensures Verdicts([c] + rest) == [Verdict(c)] + Verdicts(rest)
  {
    var cs := [c] + rest;
    assert cs[0] == c && cs[1..] == rest;
    assert Verdicts(cs) == [Verdict(cs[0])] + Verdicts(cs[1..]);
  }

  lemma WithTakenNext(s: State, c: Chunk, rest: seq<Chunk>)
    ensures WithTaken(WithTaken(s, [c]), rest) == WithTaken(s, [c] + rest)
    ensures WithTaken(s, [c]).g.done == s.g.done + [Verdict(c)]
  {
    VerdictsNext(c, rest);
    VerdictsNext(c, []);
    assert [c] + [] == [c];
    Regroup(s.g.received, [c], rest);
    Regroup(s.g.done, [Verdict(c)], Verdicts(rest));
  }

  /** An interrupted read of an active thread is simply made again. */
  lemma ActiveReadsAgain(s0: State, j: nat)
    requires Reached(s0) && j < |s0.actives| && s0.actives[j].ARead?
    ensures Step(s0, ByActive(j, ActiveAction.ReadInterrupted)) == Some(s0)
  {
    assert s0.actives[j := ARead] == s0.actives;
  }

  /** A read loop that is never stuck, read by read. */
  lemma {:induction false} ReadsRun(s0: State, j: nat, input: seq<ReadResult>)
    requires Reached(s0) && s0.g.life.Registered? && !s0.loop.InMap() && j < |s0.actives| && s0.actives[j].ARead?
    requires s0.g.mutex == Active(j) && AllReadable(input) && (s0.g.relockable || Taken(input) == [])
    ensures Reached(WithTaken(s0, Taken(input)))
    decreases |input|
  {
    WithTakenNone(s0);
    if input != [] && input[0].Data? {
      var s := ActiveTakes(s0, j, input[0].chunk);
      ReadsRun(s, j, input[1..]);
      WithTakenNext(s0, input[0].chunk, Taken(input[1..]));
      assert s == WithTaken(s0, [input[0].chunk]);
    } else if input != [] && input[0].Interrupted? {
      ActiveReadsAgain(s0, j);
      var s := Go(s0, ByActive(j, ActiveAction.ReadInterrupted));
      ReadsRun(s, j, input[1..]);
    }
  }

  lemma WithTakenNone(s: State)
    ensures WithTaken(s, []) == s
  {
  }

  /** The read loop with a plain mutex: after any interruptions the first chunk is where it stays. */
  lemma {:induction false} ReadsStick(s0: State, j: nat, input: seq<ReadResult>)
    requires Reached(s0) && s0.g.life.Registered? && !s0.loop.InMap() && j < |s0.actives| && s0.actives[j].ARead?
    requires AllReadable(input) && Taken(input) != []
    ensures var c := Taken(input)[0];
            Reached(s0.(g := s0.g.(received := s0.g.received + [c]), actives := s0.actives[j := ARelock(c)]))
    decreases |input|
  {
    if input[0].Data? {
      var _ := ActiveReads(s0, j, input[0].chunk);
    } else {
      ActiveReadsAgain(s0, j);
      var s := Go(s0, ByActive(j, ActiveAction.ReadInterrupted));
      ReadsStick(s, j, input[1..]);
    }
  }

  lemma LeaveRuns(s0: State, j: nat, ended: bool)
    requires Reached(s0) && !s0.loop.InMap() && j < |s0.actives| && s0.actives[j].ARead?
    ensures var g := s0.g.(mutex := Nobody);
            Reached(if ended then s0.(g := g.(life := Closed, closes := g.closes + 1), actives := s0.actives[j := AGone])
                    else s0.(g := g, actives := s0.actives[j := ANap]))
  {
    if ended {
      var _ := ActiveEnds(s0, j);
    } else {
      var _ := ActiveNaps(s0, j);
    }
  }

  lemma PassRuns(s0: State, j: nat, input: seq<ReadResult>)
    requires Reached(s0) && s0.g.life.Registered? && !s0.loop.InMap() && s0.g.mutex.Nobody? && AllReadable(input)
    requires j < |s0.actives| && (s0.actives[j].AStart? || s0.actives[j].ATop? || s0.actives[j].AWant?)
    ensures Reached(AfterActive(s0, j, input))
  {
    var s := ActiveTests(s0, j);
    if !s0.g.inPool {
      assert s.actives == s0.actives[j := ARead];
      PassReads(s, s0.actives, j, input);
    }
  }

  /** From the read loop on; `actives` are the threads as they were before this one came to it. */
  lemma PassReads(s0: State, actives: seq<ActivePc>, j: nat, input: seq<ReadResult>)
    requires Reached(s0) && s0.g.life.Registered? && !s0.loop.InMap() && s0.g.mutex == Active(j)
    requires j < |actives| && s0.actives == actives[j := ARead] && AllReadable(input)
    ensures var cs, h := Taken(input), WithTaken(s0, Taken(input)).g.(mutex := Nobody);
            Reached(if cs != [] && !s0.g.relockable then
                      s0.(g := s0.g.(received := s0.g.received + [cs[0]]), actives := actives[j := ARelock(cs[0])])
                    else if Ends(input) then s0.(g := h.(life := Closed, closes := h.closes + 1), actives := actives[j := AGone])
                    else s0.(g := h, actives := actives[j := ANap]))
  {
    var cs := Taken(input);
    if cs != [] && !s0.g.relockable {
      ReadsStick(s0, j, input);
      assert s0.actives[j := ARelock(cs[0])] == actives[j := ARelock(cs[0])];
    } else {
      ReadsRun(s0, j, input);
      LeaveRuns(WithTaken(s0, cs), j, Ends(input));
      assert s0.actives[j := AGone] == actives[j := AGone] && s0.actives[j := ANap] == actives[j := ANap];
    }
  }

  // ---------- the ways of getting stuck do occur ----------

  lemma Start(relockable: bool) returns (s: State)
    ensures Reached(s) && s == Init(relockable, false).(g := Init(relockable, false).g.(life := Registered))
  {
    InitReached(relockable, false);
    var g := Init(relockable, false).g;
    s := GoLoop(Init(relockable, false), Register, g.(life := Registered), LIdle);
  }

  /**
    Two well-formed requests that arrive closely enough are sufficient: the active thread reads the
    second one and can then never handle it.
  */
  lemma SelfLockOccurs(first: Frame, second: Frame) returns (s: State)
    requires |first.payload| <= MAX_BUFFERSIZE - 7 && |second.payload| <= MAX_BUFFERSIZE - 7
    ensures Reachable(s) && SelfLocked(Project(s))
    ensures s.g.received == [Encode(first), Encode(second)] && s.g.done == [Done(Encode(first), Handled)]
  {
    var c, d := Encode(first), Encode(second);
    assert c + [] == c;
    CoalescedFramesYieldFirst(first, []);
    s := Start(false);
    s := EventSeen(s);
    s := ChunkQueued(s, c);
    s := EventSeen(s);
    s := ActiveSpawned(s);
    s := TaskRuns(s, 0, false);
    s := ActiveTests(s, 0);
    s := ActiveReads(s, 0, d);
    ReachedIff(s);
  }

  /** One chunk without a frame in it is sufficient, with either kind of mutex. */
  lemma PoisonOccurs(relockable: bool, c: Chunk) returns (s: State)
    requires Readable(c) && !Parses(c)
    ensures Reachable(s) && s.g.poisoned && s.g.received == [c] && s.g.done == [Done(c, Unparsable)]
  {
    s := Start(relockable);
    s := EventSeen(s);
    s := ChunkQueued(s, c);
    s := TaskRuns(s, 0, false);
    ReachedIff(s);
  }

  /** One request whose handling throws is sufficient as well. */
  lemma ThrowOccurs(relockable: bool, c: Chunk) returns (s: State)
    requires Readable(c) && Parses(c)
    ensures Reachable(s) && s.g.poisoned && s.g.received == [c] && s.g.done == [Done(c, Handled)]
  {
    s := Start(relockable);
    s := EventSeen(s);
    s := ChunkQueued(s, c);
    s := TaskRuns(s, 0, true);
    ReachedIff(s);
  }
}
