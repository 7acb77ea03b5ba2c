/**
  `fd_info` and the functions of `EpollWorker` on it, in place: each method is one function of the
  source carried out without interference, proved to be a run of the transition system, so that all
  that is proved of interleaved runs holds of the object as well.
*/
module ConnectionMachine {
  import opened Bytes
  import opened Folds
  import opened Connection
  import opened ConnectionSafety
  import opened ConnectionRuns

  // ---------- between two functions ----------

  predicate TaskRests(pc: TaskPc) { pc.TQueued? || pc.TDone? }

  /** Not yet started, about to begin a pass, woken, asleep, napping, stuck or gone. */
  predicate ActiveRests(pc: ActivePc) {
    pc.AStart? || pc.ATop? || pc.AWant? || pc.AAsleep? || pc.ANap? || pc.ARelock? || pc.AGone?
  }

  ghost predicate AtRest(s: State) {
    && (s.loop.LIdle? || s.loop.LExited?)
    && (forall i :: 0 <= i < |s.tasks| ==> TaskRests(s.tasks[i].pc))
    && forall j :: 0 <= j < |s.actives| ==> ActiveRests(s.actives[j])
  }

  lemma QueuedTask(s: State, i: nat)
    requires Reached(s) && AtRest(s) && i < |s.tasks| && s.tasks[i].pc.TQueued?
    ensures s.g.life.Registered? && s.g.mutex.Nobody? && s.g.inPool && i == |s.tasks| - 1
    ensures |s.g.received| == |s.g.done| + 1 && s.tasks[i].chunk == s.g.received[|s.g.done|]
  {
    ReachedInv(s);
  }

  lemma NoActive(s: State)
    requires Reached(s) && AtRest(s) && s.g.life.Registered? && !s.g.running
    ensures s.g.mutex.Nobody? && forall j :: 0 <= j < |s.actives| ==> s.actives[j].AGone?
    ensures !s.g.inPool ==> |s.g.done| == |s.g.received| && forall i :: 0 <= i < |s.tasks| ==> s.tasks[i].pc.TDone?
  {
    ReachedInv(s);
  }

  lemma LiveActive(s: State, j: nat)
    requires Reached(s) && AtRest(s) && j < |s.actives| && !s.actives[j].AGone? && !s.actives[j].ARelock?
    ensures s.g.life.Registered? && s.g.mutex.Nobody? && s.g.running && j == |s.actives| - 1
    ensures !s.g.inPool ==> |s.g.done| == |s.g.received| && forall i :: 0 <= i < |s.tasks| ==> s.tasks[i].pc.TDone?
    ensures s.actives[j].ANap? ==> !s.g.inPool
  {
    ReachedInv(s);
  }

  lemma NotYetRegistered(s: State)
    requires Reached(s) && AtRest(s) && s.g.life.Unregistered?
    ensures s.g.mutex.Nobody? && !s.g.inPool && !s.g.running && |s.g.done| == |s.g.received|
  {
    ReachedInv(s);
  }

  /** The history has only grown. */
  ghost predicate Grown(s: State, t: State) {
    s.g.received <= t.g.received && s.g.done <= t.g.done && s.g.closes <= t.g.closes
  }

  /** An active thread is started only when all earlier ones have gone. */
  ghost predicate StartsAlone(s: State, t: State) {
    t.actives == s.actives || (t.actives == s.actives + [AStart] && forall j :: 0 <= j < |s.actives| ==> s.actives[j].AGone?)
  }

  /** No task waits and no active thread exists, and nothing is outstanding. */
  ghost predicate Alone(s: State) {
    && |s.g.done| == |s.g.received|
    && (forall i :: 0 <= i < |s.tasks| ==> s.tasks[i].pc.TDone?)
    && forall j :: 0 <= j < |s.actives| ==> s.actives[j].AGone?
  }

  /** The one outstanding chunk is finished with the parser's verdict, and the flag tells which it was. */
  ghost predicate FinishesOne(s: State, throws: bool, t: State) {
    && t.g.received == s.g.received && |s.g.received| == |s.g.done| + 1
    && t.g.done == s.g.done + [Verdict(s.g.received[|s.g.done|])]
    && (t.g.inPool <==> throws || !Parses(s.g.received[|s.g.done|]))
  }

  /**
    Nothing is taken while a pool task has the connection. Otherwise nothing is outstanding before, and
    with a lock that may be taken twice all that is taken is finished.
  */
  ghost predicate TakesInTurn(s: State, input: seq<ReadResult>, t: State) {
    if s.g.inPool then t.g.received == s.g.received && t.g.done == s.g.done && t.g.closes == s.g.closes
    else
      && |s.g.done| == |s.g.received|
      && (s.g.relockable ==> t.g.received == s.g.received + Taken(input) && |t.g.done| == |t.g.received|)
      && (t.g.closes != s.g.closes ==> |t.g.done| == |t.g.received|)
  }

  lemma EventMeans(s: State, input: seq<ReadResult>)
    requires Reached(s) && AtRest(s) && s.loop.LIdle? && AllReadable(input)
    ensures var t := AfterEvent(s, input);
            && Reached(t) && AtRest(t) && Grown(s, t) && StartsAlone(s, t)
            && (t.g.received != s.g.received || t.g.closes != s.g.closes ==> Alone(s))
  {
    if s.g.life.Registered? && !s.g.running {
      NoActive(s);
    }
    EventRuns(s, input);
  }

  lemma TaskMeans(s: State, i: nat, throws: bool)
    requires Reached(s) && AtRest(s) && i < |s.tasks| && s.tasks[i].pc.TQueued?
    ensures var t := AfterTask(s, i, throws); Reached(t) && AtRest(t) && Grown(s, t) && FinishesOne(s, throws, t)
    ensures i == |s.tasks| - 1
  {
    QueuedTask(s, i);
    var _ := TaskRuns(s, i, throws);
  }

  lemma PassMeans(s: State, j: nat, input: seq<ReadResult>)
    requires Reached(s) && AtRest(s) && AllReadable(input)
    requires j < |s.actives| && (s.actives[j].AStart? || s.actives[j].ATop? || s.actives[j].AWant?)
    ensures var t := AfterActive(s, j, input); Reached(t) && AtRest(t) && Grown(s, t) && TakesInTurn(s, input, t)
    ensures j == |s.actives| - 1
  {
    LiveActive(s, j);
    PassRuns(s, j, input);
    PassRests(s, j, input);
    PassTakes(s, j, input);
  }

  lemma PassRests(s: State, j: nat, input: seq<ReadResult>)
    requires AtRest(s) && j < |s.actives|
    ensures AtRest(AfterActive(s, j, input))
  {
  }

  lemma PassTakes(s: State, j: nat, input: seq<ReadResult>)
    requires j < |s.actives| && (!s.g.inPool ==> |s.g.done| == |s.g.received|)
    ensures var t := AfterActive(s, j, input); Grown(s, t) && TakesInTurn(s, input, t)
  {
    if !s.g.inPool {
      var t := s.(g := if s.actives[j].AWant? then s.g else s.g.(needActive := false));
      TakingGrows(t, j, input);
      TakingTakes(t, j, input);
    }
  }

  lemma TakingGrows(s: State, j: nat, input: seq<ReadResult>)
    requires j < |s.actives|
    ensures Grown(s, AfterTaking(s, j, input))
  {
  }

  lemma TakingTakes(s: State, j: nat, input: seq<ReadResult>)
    requires j < |s.actives| && !s.g.inPool && |s.g.done| == |s.g.received|
    ensures TakesInTurn(s, input, AfterTaking(s, j, input))
  {
    VerdictsLength(Taken(input));
  }

  lemma LookMeans(s: State, j: nat)
    requires Reached(s) && AtRest(s) && j < |s.actives| && s.actives[j].ANap?
    ensures var t := AfterLook(s, j);
            && Reached(t) && AtRest(t) && Grown(s, t)
            && (t.g.running <==> s.g.needActive) && (!t.g.running ==> Alone(t) && !t.g.inPool)
  {
    LiveActive(s, j);
    var t := ActiveLooks(s, j);
    if !t.g.running {
      NoActive(t);
    }
  }

  // ---------- functions one after another ----------

  /**
    On an open connection at which nothing is at work, an event with a chunk and the task it queues leave
    the chunk finished with the parser's verdict; if it could be parsed the connection is as free as before.
  */
  lemma ChunkServed(s: State, c: Chunk)
    requires Reached(s) && AtRest(s) && s.loop.LIdle? && s.g.life.Registered? && !s.g.running && !s.g.inPool && Readable(c)
    ensures var mid := AfterEvent(s, [Data(c)]);
            && Reached(mid) && mid.g.inPool && mid.tasks == s.tasks + [TaskRec(c, TQueued)] && mid.g.done == s.g.done
            && var t := AfterTask(mid, |s.tasks|, false);
            && Reached(t) && t.g.received == s.g.received + [c] && t.g.life.Registered? && !t.g.running
            && t.g.done == s.g.done + [Done(c, if Parses(c) then Handled else Unparsable)]
            && (t.g.inPool <==> !Parses(c)) && (Parses(c) ==> Alone(t))
  {
    NoActive(s);
    EventMeans(s, [Data(c)]);
    TaskMeans(AfterEvent(s, [Data(c)]), |s.tasks|, false);
  }

  /**
    An active thread at the top of its loop, with the pool done and a lock that may be taken twice, takes
    what is there to read, in order, and finishes it; then it ends if no event came meanwhile, and makes
    another pass if one did.
  */
  lemma PassThenLook(s: State, j: nat, input: seq<ReadResult>, more: bool)
    requires Reached(s) && AtRest(s) && AllReadable(input) && s.g.relockable && !s.g.inPool && !Ends(input)
    requires j < |s.actives| && (s.actives[j].AStart? || s.actives[j].ATop?)
    ensures var mid := AfterActive(s, j, input);
            && Reached(mid) && mid.g.received == s.g.received + Taken(input) && |mid.g.done| == |mid.g.received|
            && mid.actives == s.actives[j := ANap] && !mid.g.needActive
            && var t := AfterLook(mid.(g := mid.g.(needActive := more)), j);
            t.g.running == more && t.actives[j] == (if more then ATop else AGone) && t.g.received == mid.g.received
  {
    LiveActive(s, j);
    PassMeans(s, j, input);
    PassNaps(s, j, input);
  }

  lemma PassNaps(s: State, j: nat, input: seq<ReadResult>)
    requires s.g.relockable && !s.g.inPool && !Ends(input) && s.g.running
    requires j < |s.actives| && (s.actives[j].AStart? || s.actives[j].ATop?)
    ensures var mid := AfterActive(s, j, input);
            mid.actives == s.actives[j := ANap] && !mid.g.needActive && mid.g.running
  {
  }

  // ---------- the object ----------

  /** Whose turn it is, and what its reads would return. */
  datatype Turn =
    | Arrival
    | Wakeup(input: seq<ReadResult>)
    | Serve(i: nat, throws: bool)
    | Pass(j: nat, input: seq<ReadResult>)
    | Look(j: nat)
    | Shutdown

  ghost predicate Playable(turn: Turn) {
    (turn.Wakeup? || turn.Pass?) ==> AllReadable(turn.input)
  }

  class FdInfo {
    const relockable: bool
    const release: bool
    var life: Lifecycle
    var inPool: bool
    var needActive: bool
    var running: bool
    var mutex: Owner
    var loop: LoopPc
    var draining: bool
    var tasks: seq<TaskRec>
    var actives: seq<ActivePc>
    ghost var received: seq<Chunk>
    ghost var done: seq<Done>
    ghost var closes: nat
    ghost var poisoned: bool

    ghost function View(): State
      reads this
    {
      State(Shared(relockable, release, life, inPool, needActive, running, mutex, received, done, closes, poisoned),
            loop, draining, tasks, actives)
    }

    /** Some interleaved run leads here, and no function is half done. */
    ghost predicate Valid()
      reads this
    {
      Reached(View()) && AtRest(View())
    }

    constructor (relockable: bool, release: bool)
      ensures Valid() && View() == Init(relockable, release)
    {
      this.relockable, this.release := relockable, release;
      life, inPool, needActive, running, mutex := Unregistered, false, false, false, Nobody;
      loop, draining, tasks, actives := LIdle, false, [], [];
      received, done, closes, poisoned := [], [], 0, false;
      new;
      InitReached(relockable, release);
    }

    /** `add_fd`: nothing is outstanding, locked or flagged. */
    method Accept()
      requires Valid() && life.Unregistered?
      modifies this
      ensures Valid() && Grown(old(View()), View())
      ensures View() == old(View()).(g := old(View()).g.(life := Registered))
      ensures mutex.Nobody? && !inPool && !running && |done| == |received|
    {
      ghost var s := View();
      NotYetRegistered(s);
      life := Registered;
      ghost var _ := GoLoop(s, Register, View().g, loop);
    }

    /** `loop` ends and `drain_epoll` begins, or the thread returns. */
    method Stop()
      requires Valid() && loop.LIdle?
      modifies this
      ensures Valid() && Grown(old(View()), View())
      ensures View() == if old(draining) then old(View()).(loop := LExited) else old(View()).(draining := true)
    {
      ghost var s := View();
      if draining {
        loop := LExited;
        ghost var _ := Go(s, ByLoop(ExitLoop));
      } else {
        draining := true;
        ghost var _ := Go(s, ByLoop(BeginDrain));
      }
    }

    /**
      `handle_event`, entered from the dispatch: it queues the chunk with the flag raised, closes, or does
      nothing, and leaves the object where some interleaved run ends.
    */
    method HandleEvent(input: seq<ReadResult>)
      requires Reached(View()) && loop.LHandle? && life.Registered? && mutex.Nobody? && AllReadable(input)
      modifies this
      ensures View() == AfterHandle(old(View()), First(input))
      ensures Reached(View())
    {
      HandleRuns(View(), input);
      ReadEvent(input);
    }

    /** Its body, starting over when the read is interrupted. */
    method ReadEvent(input: seq<ReadResult>)
      modifies this
      ensures View() == AfterHandle(old(View()), First(input))
      decreases |input|
    {
      if input == [] {
        loop := LIdle;
        return;
      }
      match input[0] {
        case Data(c) =>
          received := received + [c];
          inPool := true;
          tasks := tasks + [TaskRec(c, TQueued)];
          loop := LIdle;
        case Ended =>
          CloseFd();
          loop := LIdle;
        case Interrupted =>
          ReadEvent(input[1..]);
        case WouldBlock =>
          loop := LIdle;
      }
    }

    /**
      One pass through the body of `loop` or `drain_epoll`. An active thread is started only when all
      earlier ones have gone, and `handle_event` reads, or closes, only when everything read before has
      been finished and no task and no active thread exists.
    */
    method Dispatch(input: seq<ReadResult>)
      requires Valid() && loop.LIdle? && AllReadable(input)
      modifies this
      ensures View() == AfterEvent(old(View()), input)
      ensures Valid() && Grown(old(View()), View()) && StartsAlone(old(View()), View())
      ensures received != old(received) || closes != old(closes) ==> Alone(old(View()))
      ensures old(life.Registered? && !running && !inPool) && input != [] && input[0].Data? ==>
                inPool && received == old(received) + [input[0].chunk] && tasks == old(tasks) + [TaskRec(input[0].chunk, TQueued)]
    {
      EventMeans(View(), input);
      if !life.Registered? {
        return;
      }
      if running {
        needActive := true;
      } else if inPool {
        needActive := true;
        running := true;
        actives := actives + [AStart];
      } else {
        NoActive(View());
        ghost var mid := EventSeen(View());
        loop := LHandle;
        assert View() == mid;
        HandleEvent(input);
      }
    }

    /**
      `enqueue_event_wrapper_nonstatic`: the one outstanding chunk is finished with the parser's verdict.
      The flag is cleared and a waiting active thread woken exactly when the chunk could be parsed and
      `handle_request` returned; `throws` says whether it does.
    */
    method RunTask(i: nat, throws: bool)
      requires Valid() && i < |tasks| && tasks[i].pc.TQueued?
      modifies this
      ensures View() == AfterTask(old(View()), i, throws)
      ensures Valid() && Grown(old(View()), View()) && FinishesOne(old(View()), throws, View())
      ensures i == |tasks| - 1
    {
      TaskMeans(View(), i, throws);
      FinishTask(i, throws);
    }

    method FinishTask(i: nat, throws: bool)
      requires i < |tasks|
      modifies this
      ensures View() == AfterTask(old(View()), i, throws)
    {
      var c := tasks[i].chunk;
      tasks := tasks[i := TaskRec(c, TDone)];
      done := done + [Verdict(c)];
      if !Parses(c) || throws {
        poisoned := true;
        return;
      }
      inPool := false;
      if actives != [] && actives[|actives| - 1].AAsleep? {
        actives := actives[|actives| - 1 := AWant];
      }
    }

    /**
      One pass of active thread `j`: the top of its loop, `activefd_handle_event` with its read loop, and
      the close if the stream has ended. With a lock that may be taken twice every chunk taken is
      finished; with a plain mutex the first one is where the thread stays.
    */
    method RunActive(j: nat, input: seq<ReadResult>)
      requires Valid() && AllReadable(input)
      requires j < |actives| && (actives[j].AStart? || actives[j].ATop? || actives[j].AWant?)
      modifies this
      ensures View() == AfterActive(old(View()), j, input)
      ensures Valid() && Grown(old(View()), View()) && TakesInTurn(old(View()), input, View())
      ensures j == |actives| - 1
    {
      LiveActive(View(), j);
      PassMeans(View(), j, input);
      MakePass(j, input);
    }

    method MakePass(j: nat, input: seq<ReadResult>)
      requires j < |actives| && mutex.Nobody?
      modifies this
      ensures View() == AfterActive(old(View()), j, input)
    {
      if !actives[j].AWant? {
        needActive := false;
      }
      if inPool {
        actives := actives[j := AAsleep];
      } else {
        TakeAll(j, input);
      }
    }

    method TakeAll(j: nat, input: seq<ReadResult>)
      requires j < |actives| && mutex.Nobody?
      modifies this
      ensures View() == AfterTaking(old(View()), j, input)
    {
      mutex := Active(j);
      var stuck, ended := ReadLoop(input);
      if stuck.Some? {
        actives := actives[j := ARelock(stuck.value)];
        return;
      }
      mutex := Nobody;
      if ended {
        CloseFd();
        actives := actives[j := AGone];
      } else {
        actives := actives[j := ANap];
      }
    }

    /** `close_fd`. */
    method CloseFd()
      modifies this`life, this`closes
      ensures life.Closed? && closes == old(closes) + 1
    {
      life := Closed;
      closes := closes + 1;
    }

    /** The read loop of `activefd_handle_event`; `stuck` is the chunk whose second lock does not return. */
    method ReadLoop(input: seq<ReadResult>) returns (stuck: Option<Chunk>, ended: bool)
      modifies this`received, this`done
      ensures stuck == if relockable || Taken(input) == [] then None else Some(Taken(input)[0])
      ensures stuck.Some? ==> received == old(received) + [stuck.value] && done == old(done)
      ensures stuck.None? ==> received == old(received) + Taken(input) && done == old(done) + Verdicts(Taken(input))
      ensures stuck.None? ==> ended == Ends(input)
    {
      stuck, ended := None, false;
      var n := 0;
      assert input[0..] == input;
      while n < |input|
        invariant 0 <= n <= |input| && stuck.None? && !ended
        invariant received + Taken(input[n..]) == old(received) + Taken(input)
        invariant done + Verdicts(Taken(input[n..])) == old(done) + Verdicts(Taken(input))
        invariant Ends(input[n..]) == Ends(input)
        invariant !relockable ==> received == old(received) && done == old(done) && Taken(input[n..]) == Taken(input)
      {
        ReadNext(input, n);
        match input[n] {
          case Data(c) =>
            ghost var rest := Taken(input[n + 1..]);
            VerdictsNext(c, rest);
            Regroup(received, [c], rest);
            Regroup(done, [Verdict(c)], Verdicts(rest));
            var blocked := ActiveEnqueue(c);
            if blocked {
              return Some(c), false;
            }
          case Ended =>
            return None, true;
          case Interrupted =>
          case WouldBlock =>
            return;
        }
        n := n + 1;
      }
    }

    /** A chunk has been read and is given to `active_enqueue_event`, whose lock may not return. */
    method ActiveEnqueue(c: Chunk) returns (blocked: bool)
      modifies this`received, this`done
      ensures blocked == !relockable && received == old(received) + [c]
      ensures done == if blocked then old(done) else old(done) + [Verdict(c)]
    {
      received := received + [c];
      if !relockable {
        return true;
      }
      done := done + [Verdict(c)];
      return false;
    }

    /** After the nap: one more pass if there were events in the meantime, and else the end of the thread. */
    method LookAgain(j: nat)
      requires Valid() && j < |actives| && actives[j].ANap?
      modifies this
      ensures View() == AfterLook(old(View()), j)
      ensures Valid() && Grown(old(View()), View())
      ensures running <==> old(needActive)
      ensures !running ==> Alone(View()) && !inPool
    {
      LookMeans(View(), j);
      if needActive {
        actives := actives[j := ATop];
      } else {
        running := false;
        actives := actives[j := AGone];
      }
    }

    method Next(turn: Turn)
      requires Valid() && Playable(turn)
      modifies this
      ensures Valid() && Grown(old(View()), View())
    {
      match turn {
        case Arrival =>
          if life.Unregistered? {
            Accept();
          }
        case Wakeup(input) =>
          if loop.LIdle? {
            Dispatch(input);
          }
        case Serve(i, throws) =>
          if i < |tasks| && tasks[i].pc.TQueued? {
            RunTask(i, throws);
          }
        case Pass(j, input) =>
          if j < |actives| && (actives[j].AStart? || actives[j].ATop? || actives[j].AWant?) {
            RunActive(j, input);
          }
        case Look(j) =>
          if j < |actives| && actives[j].ANap? {
            LookAgain(j);
          }
        case Shutdown =>
          if loop.LIdle? {
            Stop();
          }
      }
    }

    /**
      Runs any schedule of functions, those whose turn it cannot be being skipped. Whatever it was, chunks
      have been finished in the order in which they were read, each with the parser's verdict, at most one
      is outstanding, the history has only grown, and the descriptor has been closed at most once.
    */
    method Play(schedule: seq<Turn>)
      requires Valid() && forall turn :: turn in schedule ==> Playable(turn)
      modifies this
      ensures Valid() && Grown(old(View()), View())
      ensures |done| <= |received| <= |done| + 1
      ensures forall k :: 0 <= k < |done| ==> done[k] == Verdict(received[k])
      ensures closes <= 1
    {
      var n := 0;
      while n < |schedule|
        invariant 0 <= n <= |schedule|
        invariant Valid() && Grown(old(View()), View())
      {
        Next(schedule[n]);
        n := n + 1;
      }
      ReachedIff(View());
      HandledInReadOrder(View());
      ClosedOnce(View());
    }
  }

  /** The read loop's view of the results from position `n` on. */
  lemma ReadNext(input: seq<ReadResult>, n: nat)
    requires n < |input|
    ensures var (r, now, next) := (input[n], input[n..], input[n + 1..]);
            && (r.Data? ==> Taken(now) == [r.chunk] + Taken(next) && Ends(now) == Ends(next))
            && (r.Interrupted? ==> Taken(now) == Taken(next) && Ends(now) == Ends(next))
            && (r.Ended? || r.WouldBlock? ==> Taken(now) == [] && Ends(now) == r.Ended?)
  {
    assert input[n..][0] == input[n] && input[n..][1..] == input[n + 1..];
  }

  lemma {:induction false} VerdictsLength(cs: seq<Chunk>)
    ensures |Verdicts(cs)| == |cs|
  {
    if cs != [] {
      VerdictsLength(cs[1..]);
    }
  }
}
