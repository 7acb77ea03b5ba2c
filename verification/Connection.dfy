/**
  One connection of an `EpollWorker`: the epoll thread, the pool tasks and the "active" threads that
  share its `fd_info`, as a transition system in which every access to shared memory is a step of its
  own. Nothing below limits how many tasks or active threads exist; that there is at most one of each
  is proved.

  `relockable` says what locking `fd_mutex` does to the thread that already holds it: `false` is the
  `std::mutex` of the source, where the second lock never returns; `true` is the behaviour its
  authors intended. Every safety result holds for both.
*/
module Connection {
  import opened Bytes
  import opened Codec

  type Chunk = Text

  datatype Lifecycle = Unregistered | Registered | Closed

  datatype Owner = Nobody | TheLoop | Task(task: nat) | Active(active: nat)

  /** `loop`, `drain_epoll` and `handle_event`. Found has its `fd_info`; Test to Spawn hold `fd_map`. */
  datatype LoopPc =
    | LIdle | LFound | LTest | LMark | LTestPool | LNeed | LRun | LSpawn
    | LHandle | LRead | LLock(chunk: Chunk) | LFlag(chunk: Chunk) | LUnlock(chunk: Chunk) | LEnqueue(chunk: Chunk)
    | LErase | LClose | LExited
  {
    predicate InMap() { LTest? || LMark? || LTestPool? || LNeed? || LRun? || LSpawn? }
    predicate HoldsMutex() { LFlag? || LUnlock? }
    predicate HoldsChunk() { LLock? || LFlag? || LUnlock? || LEnqueue? }
    /** Inside `handle_event`, before the flag is raised. */
    predicate Handling() { LHandle? || LRead? || LLock? || LFlag? || LErase? || LClose? }
    predicate Handing() { LUnlock? || LEnqueue? }
  }

  /** `enqueue_event_wrapper_nonstatic`. */
  datatype TaskPc = TQueued | TWant | TParse | THandling | TClear | TNotify | TUnlock | TDone
  {
    predicate HoldsMutex() { TParse? || THandling? || TClear? || TNotify? || TUnlock? }
    predicate HoldsChunk() { TQueued? || TWant? || TParse? || THandling? }
    predicate Engaged() { HoldsChunk() || TClear? }
  }

  /** The thread started at line 177 or 237, with `activefd_handle_event` and `active_enqueue_event`. */
  datatype ActivePc =
    | AStart | ATop | ALookup | AWant | ATest | AAsleep
    | ARead | AFind(chunk: Chunk) | ARelock(chunk: Chunk) | AParse(chunk: Chunk) | AHandling(chunk: Chunk)
    | ANap | AWantAgain | ATestNeed | AStore | ANotify | ALeave
    | AErase | AClose | AGone
  {
    predicate HoldsMutex() { ATest? || ARead? || HoldsChunk() || ATestNeed? || AStore? || ANotify? || ALeave? }
    predicate HoldsChunk() { AFind? || ARelock? || AParse? || AHandling? }
    /** Before `thread_running` is given back. */
    predicate Engaged() { !ANotify? && !ALeave? && !AGone? }
    /** Past the wait for the pool task. */
    predicate PastWait() {
      ARead? || HoldsChunk() || ANap? || AWantAgain? || ATestNeed? || AStore? || ANotify? || ALeave? || AErase? || AClose?
    }
  }

  datatype TaskRec = TaskRec(chunk: Chunk, pc: TaskPc)

  /**
    What became of a chunk: given to `handle_request`, which returned or threw, dropped by the parser, or
    dropped because the map entry was gone.
  */
  datatype Outcome = Handled | Unparsable | Vanished

  datatype Done = Done(chunk: Chunk, outcome: Outcome)

  /** The `fd_info`, the map entry, the descriptor, and the history of the connection. */
  datatype Shared = Shared(
    relockable: bool,
    release: bool,
    life: Lifecycle,
    inPool: bool,
    needActive: bool,
    running: bool,
    mutex: Owner,
    received: seq<Chunk>,
    done: seq<Done>,
    closes: nat,
    poisoned: bool)

  /** `poisoned` records that a pool task left without clearing the flag: an unparsable chunk, or an exception. */
  datatype State = State(g: Shared, loop: LoopPc, draining: bool, tasks: seq<TaskRec>, actives: seq<ActivePc>)

  datatype LoopAction =
    | Register | Event | TakeMap | TestRunning | MarkNeed | TestPool | SetNeed | SetRunning | Spawn
    | Lookup | ReadChunk(chunk: Chunk) | ReadEnd | ReadInterrupted | ReadEmpty
    | LockFd | RaiseFlag | UnlockFd | Enqueue | EraseSession | CloseFd | BeginDrain | ExitLoop

  datatype TaskAction = Begin | Lock | Parse | Return | Throw | ClearFlag | Notify(woken: Option<nat>) | Unlock

  datatype ActiveAction =
    | Begin | ClearNeed | Lookup | Lock | TestFlag | WakeUp
    | ReadChunk(chunk: Chunk) | ReadEnd | ReadInterrupted | ReadEmpty
    | Find | Relock | Parse | Return
    | Wake | LockAgain | TestNeed | StoreStopped | Notify(woken: Option<nat>) | Leave | EraseSession | CloseFd

  datatype Action = ByLoop(l: LoopAction) | ByTask(i: nat, t: TaskAction) | ByActive(j: nat, a: ActiveAction)

  predicate Readable(c: Chunk) { 0 < |c| <= MAX_BUFFERSIZE }

  predicate Parses(c: Chunk) { Codec.Parse(c).Some? }

  // ---------- the program of each thread ----------

  datatype LoopResult = LoopBlocked | LoopGoes(g: Shared, pc: LoopPc)

  datatype TaskResult = TaskBlocked | TaskGoes(g: Shared, pc: TaskPc)

  datatype ActiveResult = ActiveBlocked | ActiveGoes(g: Shared, pc: ActivePc)

  function LoopMove(g: Shared, pc: LoopPc, a: LoopAction): LoopResult {
    match a
    case Register => if g.life.Unregistered? then LoopGoes(g.(life := Registered), pc) else LoopBlocked
    case Event => if pc.LIdle? then LoopGoes(g, if g.life.Registered? then LFound else LIdle) else LoopBlocked
    case TakeMap => if pc.LFound? then LoopGoes(g, LTest) else LoopBlocked
    case TestRunning => if pc.LTest? then LoopGoes(g, if g.running then LMark else LTestPool) else LoopBlocked
    case MarkNeed => if pc.LMark? then LoopGoes(g.(needActive := true), LIdle) else LoopBlocked
    case TestPool => if pc.LTestPool? then LoopGoes(g, if g.inPool then LNeed else LHandle) else LoopBlocked
    case SetNeed => if pc.LNeed? then LoopGoes(g.(needActive := true), LRun) else LoopBlocked
    case SetRunning => if pc.LRun? then LoopGoes(g.(running := true), LSpawn) else LoopBlocked
    case Spawn => if pc.LSpawn? then LoopGoes(g, LIdle) else LoopBlocked
    case Lookup => if pc.LHandle? then LoopGoes(g, if g.life.Registered? then LRead else LIdle) else LoopBlocked
    case ReadChunk(c) =>
      if pc.LRead? && Readable(c) then LoopGoes(g.(received := g.received + [c]), LLock(c)) else LoopBlocked
    case ReadEnd => if pc.LRead? then LoopGoes(g, if g.release then LErase else LClose) else LoopBlocked
    case ReadInterrupted => if pc.LRead? then LoopGoes(g, LHandle) else LoopBlocked
    case ReadEmpty => if pc.LRead? then LoopGoes(g, LIdle) else LoopBlocked
    case LockFd => if pc.LLock? && g.mutex.Nobody? then LoopGoes(g.(mutex := TheLoop), LFlag(pc.chunk)) else LoopBlocked
    case RaiseFlag => if pc.LFlag? then LoopGoes(g.(inPool := true), LUnlock(pc.chunk)) else LoopBlocked
    case UnlockFd => if pc.LUnlock? then LoopGoes(g.(mutex := Nobody), LEnqueue(pc.chunk)) else LoopBlocked
    case Enqueue => if pc.LEnqueue? then LoopGoes(g, LIdle) else LoopBlocked
    case EraseSession => if pc.LErase? then LoopGoes(g, LClose) else LoopBlocked
    case CloseFd => if pc.LClose? then LoopGoes(g.(life := Closed, closes := g.closes + 1), LIdle) else LoopBlocked
    case BeginDrain => LoopBlocked
    case ExitLoop => if pc.LIdle? then LoopGoes(g, LExited) else LoopBlocked
  }

  /** `inMap` says that the epoll thread is inside its `fd_map` section, which makes every lookup wait. */
  function TaskMove(g: Shared, me: nat, t: TaskRec, a: TaskAction, inMap: bool): TaskResult {
    match a
    case Begin =>
      if !t.pc.TQueued? || inMap then TaskBlocked
      else if g.life.Registered? then TaskGoes(g, TWant)
      else TaskGoes(g.(done := g.done + [Done(t.chunk, Vanished)]), TDone)
    case Lock => if t.pc.TWant? && g.mutex.Nobody? then TaskGoes(g.(mutex := Task(me)), TParse) else TaskBlocked
    case Parse =>
      if !t.pc.TParse? then TaskBlocked
      else if Parses(t.chunk) then TaskGoes(g, THandling)
      else TaskGoes(g.(done := g.done + [Done(t.chunk, Unparsable)], poisoned := true), TUnlock)
    case Return => if t.pc.THandling? then TaskGoes(g.(done := g.done + [Done(t.chunk, Handled)]), TClear) else TaskBlocked
    case Throw =>
      if t.pc.THandling? then TaskGoes(g.(done := g.done + [Done(t.chunk, Handled)], poisoned := true), TUnlock) else TaskBlocked
    case ClearFlag => if t.pc.TClear? then TaskGoes(g.(inPool := false), TNotify) else TaskBlocked
    case Notify(_) => if t.pc.TNotify? then TaskGoes(g, TUnlock) else TaskBlocked
    case Unlock => if t.pc.TUnlock? then TaskGoes(g.(mutex := Nobody), TDone) else TaskBlocked
  }

  function ActiveMove(g: Shared, me: nat, pc: ActivePc, a: ActiveAction, inMap: bool): ActiveResult {
    match a
    case Begin => if pc.AStart? && !inMap then ActiveGoes(g, if g.life.Registered? then ATop else AGone) else ActiveBlocked
    case ClearNeed => if pc.ATop? then ActiveGoes(g.(needActive := false), ALookup) else ActiveBlocked
    case Lookup => if pc.ALookup? && !inMap then ActiveGoes(g, if g.life.Registered? then AWant else AErase) else ActiveBlocked
    case Lock => if pc.AWant? && g.mutex.Nobody? then ActiveGoes(g.(mutex := Active(me)), ATest) else ActiveBlocked
    case TestFlag =>
      if !pc.ATest? then ActiveBlocked
      else if g.inPool then ActiveGoes(g.(mutex := Nobody), AAsleep)
      else ActiveGoes(g, ARead)
    case WakeUp => if pc.AAsleep? then ActiveGoes(g, AWant) else ActiveBlocked
    case ReadChunk(c) =>
      if pc.ARead? && Readable(c) then ActiveGoes(g.(received := g.received + [c]), AFind(c)) else ActiveBlocked
    case ReadEnd => if pc.ARead? then ActiveGoes(g.(mutex := Nobody), AErase) else ActiveBlocked
    case ReadInterrupted => if pc.ARead? then ActiveGoes(g, ARead) else ActiveBlocked
    case ReadEmpty => if pc.ARead? then ActiveGoes(g.(mutex := Nobody), ANap) else ActiveBlocked
    case Find =>
      if !pc.AFind? || inMap then ActiveBlocked
      else if g.life.Registered? then ActiveGoes(g, ARelock(pc.chunk))
      else ActiveGoes(g.(done := g.done + [Done(pc.chunk, Vanished)]), ARead)
    case Relock =>
      if pc.ARelock? && (g.mutex.Nobody? || (g.relockable && g.mutex == Active(me)))
      then ActiveGoes(g.(mutex := Active(me)), AParse(pc.chunk)) else ActiveBlocked
    case Parse =>
      if !pc.AParse? then ActiveBlocked
      else if Parses(pc.chunk) then ActiveGoes(g, AHandling(pc.chunk))
      else ActiveGoes(g.(done := g.done + [Done(pc.chunk, Unparsable)]), ARead)
    case Return => if pc.AHandling? then ActiveGoes(g.(done := g.done + [Done(pc.chunk, Handled)]), ARead) else ActiveBlocked
    case Wake => if pc.ANap? then ActiveGoes(g, AWantAgain) else ActiveBlocked
    case LockAgain => if pc.AWantAgain? && g.mutex.Nobody? then ActiveGoes(g.(mutex := Active(me)), ATestNeed) else ActiveBlocked
    case TestNeed =>
      if !pc.ATestNeed? then ActiveBlocked
      else if g.needActive then ActiveGoes(g.(mutex := Nobody), ATop)
      else ActiveGoes(g, AStore)
    case StoreStopped => if pc.AStore? then ActiveGoes(g.(running := false), ANotify) else ActiveBlocked
    case Notify(_) => if pc.ANotify? then ActiveGoes(g, ALeave) else ActiveBlocked
    case Leave => if pc.ALeave? then ActiveGoes(g.(mutex := Nobody), AGone) else ActiveBlocked
    case EraseSession => if pc.AErase? then ActiveGoes(g, AClose) else ActiveBlocked
    case CloseFd =>
      if pc.AClose? && !inMap then ActiveGoes(g.(life := Closed, closes := g.closes + 1), AGone) else ActiveBlocked
  }

  // ---------- what each thread does next ----------

  /** What `read` returned: bytes, the end of the stream or a hard error, EINTR, or EAGAIN. */
  datatype ReadResult = Data(chunk: Chunk) | Ended | Interrupted | WouldBlock

  /** The next thing the epoll thread does; at LIdle it gets an event for this descriptor. */
  function LoopTurn(pc: LoopPc, read: ReadResult): LoopAction {
    match pc
    case LIdle => Event
    case LFound => TakeMap
    case LTest => TestRunning
    case LMark => MarkNeed
    case LTestPool => TestPool
    case LNeed => SetNeed
    case LRun => SetRunning
    case LSpawn => Spawn
    case LHandle => LoopAction.Lookup
    case LRead =>
      (match read
       case Data(c) => LoopAction.ReadChunk(c)
       case Ended => LoopAction.ReadEnd
       case Interrupted => LoopAction.ReadInterrupted
       case WouldBlock => LoopAction.ReadEmpty)
    case LLock(_) => LockFd
    case LFlag(_) => RaiseFlag
    case LUnlock(_) => UnlockFd
    case LEnqueue(_) => Enqueue
    case LErase => LoopAction.EraseSession
    case LClose => LoopAction.CloseFd
    case LExited => Event
  }

  function TaskTurn(pc: TaskPc, woken: Option<nat>): TaskAction {
    match pc
    case TQueued => TaskAction.Begin
    case TWant => TaskAction.Lock
    case TParse => TaskAction.Parse
    case THandling => TaskAction.Return
    case TClear => ClearFlag
    case TNotify => TaskAction.Notify(woken)
    case TUnlock => Unlock
    case TDone => TaskAction.Begin
  }

  function ActiveTurn(pc: ActivePc, read: ReadResult, woken: Option<nat>): ActiveAction {
    match pc
    case AStart => ActiveAction.Begin
    case ATop => ClearNeed
    case ALookup => ActiveAction.Lookup
    case AWant => ActiveAction.Lock
    case ATest => TestFlag
    case AAsleep => WakeUp
    case ARead =>
      (match read
       case Data(c) => ActiveAction.ReadChunk(c)
       case Ended => ActiveAction.ReadEnd
       case Interrupted => ActiveAction.ReadInterrupted
       case WouldBlock => ActiveAction.ReadEmpty)
    case AFind(_) => Find
    case ARelock(_) => Relock
    case AParse(_) => ActiveAction.Parse
    case AHandling(_) => ActiveAction.Return
    case ANap => Wake
    case AWantAgain => LockAgain
    case ATestNeed => TestNeed
    case AStore => StoreStopped
    case ANotify => ActiveAction.Notify(woken)
    case ALeave => Leave
    case AErase => ActiveAction.EraseSession
    case AClose => ActiveAction.CloseFd
    case AGone => ActiveAction.Begin
  }

  // ---------- the steps of the whole connection ----------

  /** `notify_one` wakes a waiter if there is one. */
  predicate WakeChoice(actives: seq<ActivePc>, woken: Option<nat>) {
    match woken
    case Some(j) => j < |actives| && actives[j].AAsleep?
    case None => forall j :: 0 <= j < |actives| ==> !actives[j].AAsleep?
  }

  function Woken(actives: seq<ActivePc>, woken: Option<nat>): seq<ActivePc>
    requires WakeChoice(actives, woken)
  {
    if woken.Some? then actives[woken.value := AWant] else actives
  }

  function LoopStep(s: State, a: LoopAction): Option<State> {
    if a.BeginDrain? then
      if s.loop.LIdle? && !s.draining then Some(s.(draining := true)) else None
    else if a.ExitLoop? && !s.draining then None
    else
      match LoopMove(s.g, s.loop, a)
      case LoopBlocked => None
      case LoopGoes(g, pc) =>
        Some(s.(g := g, loop := pc,
             tasks := if a.Enqueue? then s.tasks + [TaskRec(s.loop.chunk, TQueued)] else s.tasks,
             actives := if a.Spawn? then s.actives + [AStart] else s.actives))
  }

  function TaskStep(s: State, i: nat, a: TaskAction): Option<State> {
    if i >= |s.tasks| || (a.Notify? && !WakeChoice(s.actives, a.woken)) then None
    else
      match TaskMove(s.g, i, s.tasks[i], a, s.loop.InMap())
      case TaskBlocked => None
      case TaskGoes(g, pc) =>
        Some(s.(g := g, tasks := s.tasks[i := s.tasks[i].(pc := pc)],
             actives := if a.Notify? then Woken(s.actives, a.woken) else s.actives))
  }

  function ActiveStep(s: State, j: nat, a: ActiveAction): Option<State> {
    if j >= |s.actives| || (a.Notify? && !WakeChoice(s.actives, a.woken)) then None
    else
      match ActiveMove(s.g, j, s.actives[j], a, s.loop.InMap())
      case ActiveBlocked => None
      case ActiveGoes(g, pc) =>
        var actives := if a.Notify? then Woken(s.actives, a.woken) else s.actives;
        Some(s.(g := g, actives := actives[j := pc]))
  }

  function Step(s: State, a: Action): Option<State> {
    match a
    case ByLoop(l) => LoopStep(s, l)
    case ByTask(i, t) => TaskStep(s, i, t)
    case ByActive(j, t) => ActiveStep(s, j, t)
  }

  function Init(relockable: bool, release: bool): State {
    State(Shared(relockable, release, Unregistered, false, false, false, Nobody, [], [], 0, false), LIdle, false, [], [])
  }

  // ---------- the invariant ----------

  /** The state seen through the newest task and the newest active thread. */
  datatype View = View(g: Shared, loop: LoopPc, t: TaskRec, ti: int, a: ActivePc, ai: int)

  function Project(s: State): View {
    View(s.g, s.loop,
         if s.tasks == [] then TaskRec([], TDone) else s.tasks[|s.tasks| - 1], |s.tasks| - 1,
         if s.actives == [] then AGone else s.actives[|s.actives| - 1], |s.actives| - 1)
  }

  ghost predicate OneOfEach(s: State) {
    && (forall i :: 0 <= i < |s.tasks| - 1 ==> s.tasks[i].pc.TDone?)
    && (forall j :: 0 <= j < |s.actives| - 1 ==> s.actives[j].AGone?)
  }

  ghost predicate MutexInv(v: View) {
    && (v.loop.HoldsMutex() <==> v.g.mutex == TheLoop)
    && (v.t.pc.HoldsMutex() <==> v.g.mutex.Task?)
    && (v.g.mutex.Task? ==> v.g.mutex.task == v.ti)
    && (v.a.HoldsMutex() <==> v.g.mutex.Active?)
    && (v.g.mutex.Active? ==> v.g.mutex.active == v.ai)
  }

  ghost predicate RunningInv(v: View) {
    && (v.a.Engaged() ==> v.g.running)
    && (v.g.running ==> v.a.Engaged() || v.loop.LSpawn? || v.g.life.Closed?)
    && (v.loop.LTestPool? || v.loop.LNeed? || v.loop.LRun? || v.loop.Handling() || v.loop.Handing() ==> !v.g.running)
    && (v.loop.LNeed? || v.loop.LRun? || v.loop.LSpawn? ==> v.a.AGone?)
    && (v.loop.LSpawn? ==> v.g.running)
  }

  ghost predicate PoolInv(v: View) {
    && (v.g.inPool <==> v.t.pc.Engaged() || v.loop.Handing() || v.g.poisoned)
    && (v.g.poisoned ==> v.t.pc.TUnlock? || v.t.pc.TDone?)
    && (v.loop.Handling() ==> !v.g.inPool)
    && (v.loop.Handing() ==> !v.g.poisoned && v.t.pc.TDone? && v.a.AGone?)
    && (v.a.PastWait() ==> !v.g.inPool)
    && (v.a.AAsleep? ==> v.g.inPool || v.t.pc.TNotify?)
    && (v.a.AParse? || v.a.AHandling? ==> v.g.relockable)
  }

  ghost predicate LifeInv(v: View) {
    && v.g.closes == (if v.g.life.Closed? then 1 else 0)
    && (v.g.life.Unregistered? ==> (v.loop.LIdle? || v.loop.LExited?) && v.t.pc.TDone? && v.a.AGone?)
    && (v.loop.LTestPool? || v.loop.LNeed? || v.loop.LRun? || v.loop.LSpawn? ==> v.g.life.Registered?)
    && (v.loop.Handling() || v.loop.Handing() ==> v.g.life.Registered?)
    && (v.t.pc.Engaged() || v.a.Engaged() || v.g.poisoned ==> v.g.life.Registered?)
    && (v.g.life.Closed? && (v.loop.LFound? || v.loop.LTest?) ==> v.g.running)
  }

  function Verdict(c: Chunk): Done {
    Done(c, if Parses(c) then Handled else Unparsable)
  }

  ghost predicate Busy(v: View) {
    v.loop.HoldsChunk() || v.t.pc.HoldsChunk() || v.a.HoldsChunk()
  }

  ghost predicate ChunkInv(v: View) {
    && |v.g.received| == |v.g.done| + (if Busy(v) then 1 else 0)
    && (forall k :: 0 <= k < |v.g.done| ==> v.g.done[k] == Verdict(v.g.received[k]))
    && (v.loop.HoldsChunk() ==> v.loop.chunk == v.g.received[|v.g.done|])
    && (v.t.pc.HoldsChunk() ==> v.t.chunk == v.g.received[|v.g.done|])
    && (v.t.pc.THandling? ==> Parses(v.t.chunk))
    && (v.a.HoldsChunk() ==> v.a.chunk == v.g.received[|v.g.done|])
    && (v.a.AHandling? ==> Parses(v.a.chunk))
  }

  ghost predicate ViewInv(v: View) {
    MutexInv(v) && RunningInv(v) && PoolInv(v) && LifeInv(v) && ChunkInv(v)
  }

  ghost predicate Inv(s: State) {
    OneOfEach(s) && ViewInv(Project(s))
  }

  // ---------- each thread keeps the invariant, seen through the view ----------

  function LoopView(v: View, a: LoopAction, g: Shared, pc: LoopPc): View {
    View(g, pc,
         if a.Enqueue? && v.loop.LEnqueue? then TaskRec(v.loop.chunk, TQueued) else v.t, if a.Enqueue? then v.ti + 1 else v.ti,
         if a.Spawn? then AStart else v.a, if a.Spawn? then v.ai + 1 else v.ai)
  }

  function TaskView(v: View, a: TaskAction, g: Shared, pc: TaskPc): View {
    v.(g := g, t := v.t.(pc := pc), a := if a.Notify? && v.a.AAsleep? then AWant else v.a)
  }

  lemma LoopKeepsMutex(v: View, a: LoopAction, g: Shared, pc: LoopPc)
    requires ViewInv(v) && LoopMove(v.g, v.loop, a) == LoopGoes(g, pc)
    ensures MutexInv(LoopView(v, a, g, pc))
  {
    match a
    case Register =>
    case _ =>
  }

  lemma LoopKeepsRunning(v: View, a: LoopAction, g: Shared, pc: LoopPc)
    requires ViewInv(v) && LoopMove(v.g, v.loop, a) == LoopGoes(g, pc)
    ensures RunningInv(LoopView(v, a, g, pc))
  {
    match a
    case Register =>
    case _ =>
  }

  lemma LoopKeepsPool(v: View, a: LoopAction, g: Shared, pc: LoopPc)
    requires ViewInv(v) && LoopMove(v.g, v.loop, a) == LoopGoes(g, pc)
    ensures PoolInv(LoopView(v, a, g, pc))
  {
    match a
    case Register =>
    case _ =>
  }

  lemma LoopKeepsLife(v: View, a: LoopAction, g: Shared, pc: LoopPc)
    requires ViewInv(v) && LoopMove(v.g, v.loop, a) == LoopGoes(g, pc)
    ensures LifeInv(LoopView(v, a, g, pc))
  {
    match a
    case Register =>
    case _ =>
  }

  lemma LoopKeepsChunks(v: View, a: LoopAction, g: Shared, pc: LoopPc)
    requires ViewInv(v) && LoopMove(v.g, v.loop, a) == LoopGoes(g, pc)
    ensures ChunkInv(LoopView(v, a, g, pc))
  {
    match a
    case Register =>
    case _ =>
  }

  lemma TaskKeepsMutex(v: View, a: TaskAction, g: Shared, pc: TaskPc)
    requires ViewInv(v) && v.ti >= 0 && TaskMove(v.g, v.ti, v.t, a, v.loop.InMap()) == TaskGoes(g, pc)
    ensures MutexInv(TaskView(v, a, g, pc))
  {
    match a
    case Begin =>
    case _ =>
  }

  lemma TaskKeepsRunning(v: View, a: TaskAction, g: Shared, pc: TaskPc)
    requires ViewInv(v) && v.ti >= 0 && TaskMove(v.g, v.ti, v.t, a, v.loop.InMap()) == TaskGoes(g, pc)
    ensures RunningInv(TaskView(v, a, g, pc))
  {
    match a
    case Begin =>
    case _ =>
  }

  lemma TaskKeepsPool(v: View, a: TaskAction, g: Shared, pc: TaskPc)
    requires ViewInv(v) && v.ti >= 0 && TaskMove(v.g, v.ti, v.t, a, v.loop.InMap()) == TaskGoes(g, pc)
    ensures PoolInv(TaskView(v, a, g, pc))
  {
    match a
    case Begin =>
    case _ =>
  }

  lemma TaskKeepsLife(v: View, a: TaskAction, g: Shared, pc: TaskPc)
    requires ViewInv(v) && v.ti >= 0 && TaskMove(v.g, v.ti, v.t, a, v.loop.InMap()) == TaskGoes(g, pc)
    ensures LifeInv(TaskView(v, a, g, pc))
  {
    match a
    case Begin =>
    case _ =>
  }

  lemma TaskKeepsChunks(v: View, a: TaskAction, g: Shared, pc: TaskPc)
    requires ViewInv(v) && v.ti >= 0 && TaskMove(v.g, v.ti, v.t, a, v.loop.InMap()) == TaskGoes(g, pc)
    ensures ChunkInv(TaskView(v, a, g, pc))
  {
    match a
    case Begin =>
    case _ =>
  }

  lemma ActiveKeepsMutex(v: View, a: ActiveAction, g: Shared, pc: ActivePc)
    requires ViewInv(v) && v.ai >= 0 && ActiveMove(v.g, v.ai, v.a, a, v.loop.InMap()) == ActiveGoes(g, pc)
    ensures MutexInv(v.(g := g, a := pc))
  {
    match a
    case Begin =>
    case _ =>
  }

  lemma ActiveKeepsRunning(v: View, a: ActiveAction, g: Shared, pc: ActivePc)
    requires ViewInv(v) && v.ai >= 0 && ActiveMove(v.g, v.ai, v.a, a, v.loop.InMap()) == ActiveGoes(g, pc)
    ensures RunningInv(v.(g := g, a := pc))
  {
    match a
    case Begin =>
    case _ =>
  }

  lemma ActiveKeepsPool(v: View, a: ActiveAction, g: Shared, pc: ActivePc)
    requires ViewInv(v) && v.ai >= 0 && ActiveMove(v.g, v.ai, v.a, a, v.loop.InMap()) == ActiveGoes(g, pc)
    ensures PoolInv(v.(g := g, a := pc))
  {
    match a
    case Begin =>
    case _ =>
  }

  lemma ActiveKeepsLife(v: View, a: ActiveAction, g: Shared, pc: ActivePc)
    requires ViewInv(v) && v.ai >= 0 && ActiveMove(v.g, v.ai, v.a, a, v.loop.InMap()) == ActiveGoes(g, pc)
    ensures LifeInv(v.(g := g, a := pc))
  {
    match a
    case Begin =>
    case _ =>
  }

  /** What an active thread does with its chunk: keeps it, or finishes it with the parser's verdict. */
  lemma ActiveFinishes(v: View, a: ActiveAction, g: Shared, pc: ActivePc)
    requires ViewInv(v) && v.ai >= 0 && ActiveMove(v.g, v.ai, v.a, a, v.loop.InMap()) == ActiveGoes(g, pc)
    requires v.a.HoldsChunk()
    ensures g.received == v.g.received
    ensures if pc.HoldsChunk() then pc.chunk == v.a.chunk && g.done == v.g.done && (pc.AHandling? ==> Parses(pc.chunk))
            else g.done == v.g.done + [Verdict(v.a.chunk)]
  {
    match a
    case Begin =>
    case _ =>
  }

  lemma ActiveKeepsItsChunk(v: View, a: ActiveAction, g: Shared, pc: ActivePc)
    requires ViewInv(v) && v.ai >= 0 && ActiveMove(v.g, v.ai, v.a, a, v.loop.InMap()) == ActiveGoes(g, pc)
    requires v.a.HoldsChunk()
    ensures ChunkInv(v.(g := g, a := pc))
  {
    ActiveFinishes(v, a, g, pc);
  }

  lemma ActiveKeepsChunks(v: View, a: ActiveAction, g: Shared, pc: ActivePc)
    requires ViewInv(v) && v.ai >= 0 && ActiveMove(v.g, v.ai, v.a, a, v.loop.InMap()) == ActiveGoes(g, pc)
    ensures ChunkInv(v.(g := g, a := pc))
  {
    if v.a.HoldsChunk() {
      ActiveKeepsItsChunk(v, a, g, pc);
    } else if !a.ReadChunk? {
      assert g.received == v.g.received && g.done == v.g.done && !pc.HoldsChunk();
    }
  }

  // ---------- lifting to the whole connection ----------

  lemma LoopStepSeen(s: State, a: LoopAction, g: Shared, pc: LoopPc)
    requires Inv(s) && LoopStep(s, a).Some? && !a.BeginDrain? && LoopMove(s.g, s.loop, a) == LoopGoes(g, pc)
    ensures OneOfEach(LoopStep(s, a).value)
    ensures Project(LoopStep(s, a).value) == LoopView(Project(s), a, g, pc)
  {
    var t := LoopStep(s, a).value;
    if a.Enqueue? {
      assert Project(s).t.pc.TDone?;
      assert t.tasks[|t.tasks| - 1] == TaskRec(s.loop.chunk, TQueued);
    } else if a.Spawn? {
      assert Project(s).a.AGone?;
      assert t.actives[|t.actives| - 1] == AStart;
    } else {
      assert t.tasks == s.tasks && t.actives == s.actives;
    }
  }

  lemma LoopStepKeepsInv(s: State, a: LoopAction)
    requires Inv(s) && LoopStep(s, a).Some?
    ensures Inv(LoopStep(s, a).value)
  {
    var v := Project(s);
    if a.BeginDrain? {
      assert Project(LoopStep(s, a).value) == v;
    } else {
      var LoopGoes(g, pc) := LoopMove(s.g, s.loop, a);
      LoopKeepsMutex(v, a, g, pc);
      LoopKeepsRunning(v, a, g, pc);
      LoopKeepsPool(v, a, g, pc);
      LoopKeepsLife(v, a, g, pc);
      LoopKeepsChunks(v, a, g, pc);
      LoopStepSeen(s, a, g, pc);
    }
  }

  lemma TaskStepSeen(s: State, i: nat, a: TaskAction, g: Shared, pc: TaskPc)
    requires Inv(s) && TaskStep(s, i, a).Some? && TaskMove(s.g, i, s.tasks[i], a, s.loop.InMap()) == TaskGoes(g, pc)
    ensures i == |s.tasks| - 1
    ensures OneOfEach(TaskStep(s, i, a).value)
    ensures Project(TaskStep(s, i, a).value) == TaskView(Project(s), a, g, pc)
  {
    assert i == |s.tasks| - 1;
  }

  lemma ActiveStepSeen(s: State, j: nat, a: ActiveAction, g: Shared, pc: ActivePc)
    requires Inv(s) && ActiveStep(s, j, a).Some? && ActiveMove(s.g, j, s.actives[j], a, s.loop.InMap()) == ActiveGoes(g, pc)
    ensures j == |s.actives| - 1
    ensures OneOfEach(ActiveStep(s, j, a).value)
    ensures Project(ActiveStep(s, j, a).value) == Project(s).(g := g, a := pc)
  {
    assert j == |s.actives| - 1;
  }

  lemma TaskStepKeepsInv(s: State, i: nat, a: TaskAction)
    requires Inv(s) && TaskStep(s, i, a).Some?
    ensures Inv(TaskStep(s, i, a).value)
  {
    var v := Project(s);
    var TaskGoes(g, pc) := TaskMove(s.g, i, s.tasks[i], a, s.loop.InMap());
    TaskStepSeen(s, i, a, g, pc);
    TaskKeepsMutex(v, a, g, pc);
    TaskKeepsRunning(v, a, g, pc);
    TaskKeepsPool(v, a, g, pc);
    TaskKeepsLife(v, a, g, pc);
    TaskKeepsChunks(v, a, g, pc);
  }

  lemma ActiveStepKeepsInv(s: State, j: nat, a: ActiveAction)
    requires Inv(s) && ActiveStep(s, j, a).Some?
    ensures Inv(ActiveStep(s, j, a).value)
  {
    var v := Project(s);
    var ActiveGoes(g, pc) := ActiveMove(s.g, j, s.actives[j], a, s.loop.InMap());
    ActiveStepSeen(s, j, a, g, pc);
    ActiveKeepsMutex(v, a, g, pc);
    ActiveKeepsRunning(v, a, g, pc);
    ActiveKeepsPool(v, a, g, pc);
    ActiveKeepsLife(v, a, g, pc);
    ActiveKeepsChunks(v, a, g, pc);
  }
}
