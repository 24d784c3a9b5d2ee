/**
 One worker thread and the calls other threads make on it (`Worker.cpp`), step by step.

 A step is one read or write of a flag other threads access without the same lock, the acquisition of a
 lock, or a stretch of code under a lock that touches only what the lock protects.  A condition wait
 releases its lock and sleeps in one step.  A signal reaches a sleeper if there is one, and is lost otherwise.
 The worker's own waits may also return without a signal; a thread waiting in `pause` returns only when
 signalled, since that wait is not in a loop.
 */
module WorkerModel {
  datatype Owner = Free | WorkerThread | Client(c: nat)

  /** Where the worker thread is in `run`. */
  datatype WorkerPc =
    | NotRunning | Initializing | Top
    | WantPause | HoldPause | GoingIdle | SleepPause | WokenPause
    | Working | WantWork | HoldWork | FoundNoWork | NotTerminated | NotPaused | SleepWork | WokenWork
    | LoopTest | Finalizing | Finished

  /**
   `pauseWake` and `workWake`: a signal is on its way to the sleeping worker.  `idleSleepers` threads sleep in
   `pause`; `idleTokens` of their signals have been sent and not yet consumed.  `deaths` counts calls of `signalDead`.
   */
  datatype Worker = Worker(
    pc: WorkerPc, started: bool, paused: bool, idle: bool, terminated: bool, waiting: bool,
    startLock: Owner, pauseLock: Owner, workLock: Owner,
    pauseWake: bool, workWake: bool, idleSleepers: nat, idleTokens: nat, deaths: nat)

  /** Where a client thread is in its call; `stop` calls `resume` and `signal` (`inStop`). */
  datatype ClientPc =
    | StartRead | StartReadAgain | StartWant | StartHold | StartGo
    | PauseRead(block: bool) | PauseWant(block: bool) | PauseHold(block: bool) | PauseChecked(block: bool)
    | PauseSignalWant(block: bool) | PauseSignalHold(block: bool) | PauseTest(block: bool) | PauseSleep | PauseRelease
    | ResumeRead(inStop: bool) | ResumeWant(inStop: bool) | ResumeHold(inStop: bool)
    | SignalWant(inStop: bool) | SignalHold(inStop: bool)
    | StopSet | StopRead | StopWant | StopHold | StopIdleWant | StopIdleHold
    | NeverWant | NeverHold | NeverDead | NeverReturned
    | Returned

  datatype Call = Call(worker: Worker, pc: ClientPc)

  function SignalIdle(w: Worker): Worker {
    var sent := if w.idleSleepers > 0 then 1 else 0;
    w.(idleSleepers := w.idleSleepers - sent, idleTokens := w.idleTokens + sent)
  }

  function SignalWork(w: Worker): Worker {
    w.(workWake := w.workWake || (w.waiting && w.pc.SleepWork?))
  }

  // ----- Where the worker is -----

  predicate WorkerHoldsPause(pc: WorkerPc) {
    pc.HoldPause? || pc.GoingIdle? || pc.WokenPause?
  }

  predicate WorkerHoldsWork(pc: WorkerPc) {
    pc.HoldWork? || pc.FoundNoWork? || pc.NotTerminated? || pc.NotPaused? || pc.WokenWork?
  }

  /** Asleep for work, or past the check that leads to sleep, with no signal on its way. */
  predicate MayMissWork(w: Worker) {
    w.pc.FoundNoWork? || w.pc.NotTerminated? || w.pc.NotPaused? || (w.pc.SleepWork? && !w.workWake)
  }

  /** The same for a worker that is to pause. */
  predicate MayMissPause(w: Worker) {
    w.paused && (w.pc.NotPaused? || (w.pc.SleepWork? && !w.workWake))
  }

  /** The lock changed hands, if at all, between nobody and client `c`. */
  predicate OnlyBy(a: Owner, b: Owner, c: nat) {
    a == b || ((a == Free || a == Client(c)) && (b == Free || b == Client(c)))
  }

  // ----- The worker thread -----

  predicate WorkerEnabled(w: Worker) {
    match w.pc
    case NotRunning => false
    case Finished => false
    case WantPause => w.pauseLock == Free
    case SleepPause => w.pauseLock == Free
    case WantWork => w.workLock == Free
    case SleepWork => w.workLock == Free
    case _ => true
  }

  /** In the branch of `run` taken when the worker is paused. */
  predicate PausePhase(pc: WorkerPc) {
    pc.WantPause? || pc.HoldPause? || pc.GoingIdle? || pc.SleepPause? || pc.WokenPause?
  }

  /** In the other branch. */
  predicate WorkPhase(pc: WorkerPc) {
    || pc.Working? || pc.WantWork? || pc.HoldWork? || pc.FoundNoWork? || pc.NotTerminated? || pc.NotPaused?
    || pc.SleepWork? || pc.WokenWork?
  }

  /** `more` is the result of `doWork`, `work` of `isWork`, where the step makes that call. */
  function WorkerStep(w: Worker, more: bool, work: bool): Worker
    requires WorkerEnabled(w)
  {
    if PausePhase(w.pc) then PauseStep(w) else if WorkPhase(w.pc) then WorkStep(w, more, work) else LoopStep(w)
  }

  function PauseStep(w: Worker): Worker
    requires PausePhase(w.pc)
  {
    match w.pc
    case WantPause => w.(pc := HoldPause, pauseLock := WorkerThread)
    case HoldPause =>
      if w.paused && !w.terminated then w.(pc := GoingIdle) else w.(pc := LoopTest, pauseLock := Free)
    case GoingIdle => SignalIdle(w.(idle := true)).(pc := SleepPause, pauseWake := false, pauseLock := Free)
    case SleepPause => w.(pc := WokenPause, pauseWake := false, pauseLock := WorkerThread)
    case WokenPause => w.(pc := LoopTest, idle := false, pauseLock := Free)
  }

  function WorkStep(w: Worker, more: bool, work: bool): Worker
    requires WorkPhase(w.pc)
  {
    match w.pc
    case Working => w.(pc := if more then LoopTest else WantWork)
    case WantWork => w.(pc := HoldWork, workLock := WorkerThread)
    case HoldWork => if work then w.(pc := LoopTest, workLock := Free) else w.(pc := FoundNoWork)
    case FoundNoWork => if w.terminated then w.(pc := LoopTest, workLock := Free) else w.(pc := NotTerminated)
    case NotTerminated =>
      if w.paused then w.(pc := LoopTest, workLock := Free) else w.(pc := NotPaused)
    case NotPaused => w.(pc := SleepWork, waiting := true, workWake := false, workLock := Free)
    case SleepWork => w.(pc := WokenWork, workWake := false, workLock := WorkerThread)
    case WokenWork => w.(pc := LoopTest, waiting := false, workLock := Free)
  }

  function LoopStep(w: Worker): Worker
    requires WorkerEnabled(w) && !PausePhase(w.pc) && !WorkPhase(w.pc)
  {
    match w.pc
    case Initializing => w.(pc := Top)
    case Top => w.(pc := if w.paused then WantPause else Working)
    case LoopTest => w.(pc := if w.terminated then Finalizing else Top)
    case Finalizing => w.(pc := Finished, deaths := w.deaths + 1)
  }

  // ----- Calls by client `c` -----

  predicate CallEnabled(w: Worker, pc: ClientPc) {
    match pc
    case StartWant => w.startLock == Free
    case PauseWant(_) => w.pauseLock == Free
    case PauseSignalWant(_) => w.workLock == Free
    case PauseSleep => w.pauseLock == Free && w.idleTokens > 0
    case ResumeWant(_) => w.pauseLock == Free
    case SignalWant(_) => w.workLock == Free
    case StopWant => w.startLock == Free
    case StopIdleWant => w.pauseLock == Free
    case NeverWant => w.pauseLock == Free
    case NeverReturned => false
    case Returned => false
    case _ => true
  }

  predicate PauseCall(pc: ClientPc) {
    || pc.PauseRead? || pc.PauseWant? || pc.PauseHold? || pc.PauseChecked? || pc.PauseSignalWant?
    || pc.PauseSignalHold? || pc.PauseTest? || pc.PauseSleep? || pc.PauseRelease?
  }

  /** `resume` and `signal`, whether called alone or by `stop`. */
  predicate WakeCall(pc: ClientPc) {
    pc.ResumeRead? || pc.ResumeWant? || pc.ResumeHold? || pc.SignalWant? || pc.SignalHold?
  }

  predicate StartCall(pc: ClientPc) {
    pc.StartRead? || pc.StartReadAgain? || pc.StartWant? || pc.StartHold? || pc.StartGo?
  }

  function CallStep(w: Worker, pc: ClientPc, c: nat): Call
    requires CallEnabled(w, pc)
  {
    if PauseCall(pc) then PauseCallStep(w, pc, c)
    else if WakeCall(pc) then WakeCallStep(w, pc, c)
    else if StartCall(pc) then StartCallStep(w, pc, c)
    else StopCallStep(w, pc, c)
  }

  function StartCallStep(w: Worker, pc: ClientPc, c: nat): Call
    requires StartCall(pc)
  {
    match pc
    case StartRead => Call(w, if w.started then Returned else StartReadAgain)
    case StartReadAgain => Call(w, if w.terminated then Returned else StartWant)
    case StartWant => Call(w.(startLock := Client(c)), StartHold)
    case StartHold =>
      if w.started || w.terminated then Call(w.(startLock := Free), Returned) else Call(w, StartGo)
    case StartGo => Call(w.(startLock := Free, started := true, pc := Initializing), Returned)
  }

  function PauseCallStep(w: Worker, pc: ClientPc, c: nat): Call
    requires PauseCall(pc) && CallEnabled(w, pc)
  {
    match pc
    case PauseRead(b) => Call(w, if w.terminated then Returned else PauseWant(b))
    case PauseWant(b) => Call(w.(pauseLock := Client(c)), PauseHold(b))
    case PauseHold(b) => Call(w, if w.terminated then PauseRelease else PauseChecked(b))
    case PauseChecked(b) => if w.paused then Call(w, PauseTest(b)) else Call(w.(paused := true), PauseSignalWant(b))
    case PauseSignalWant(b) => Call(w.(workLock := Client(c)), PauseSignalHold(b))
    case PauseSignalHold(b) => Call(SignalWork(w).(workLock := Free), PauseTest(b))
    case PauseTest(b) =>
      if b && !w.idle && w.started then Call(w.(pauseLock := Free, idleSleepers := w.idleSleepers + 1), PauseSleep)
      else Call(w, PauseRelease)
    case PauseSleep => Call(w.(pauseLock := Client(c), idleTokens := w.idleTokens - 1), PauseRelease)
    case PauseRelease => Call(w.(pauseLock := Free), Returned)
  }

  function WakeCallStep(w: Worker, pc: ClientPc, c: nat): Call
    requires WakeCall(pc)
  {
    match pc
    case ResumeRead(s) => Call(w, if w.paused then ResumeWant(s) else AfterResume(s))
    case ResumeWant(s) => Call(w.(pauseLock := Client(c)), ResumeHold(s))
    case ResumeHold(s) =>
      var w' := if w.paused then w.(paused := false, pauseWake := w.pauseWake || w.pc.SleepPause?) else w;
      Call(w'.(pauseLock := Free), AfterResume(s))
    case SignalWant(s) => Call(w.(workLock := Client(c)), SignalHold(s))
    case SignalHold(s) => Call(SignalWork(w).(workLock := Free), if s then StopIdleWant else Returned)
  }

  function StopCallStep(w: Worker, pc: ClientPc, c: nat): Call
    requires CallEnabled(w, pc) && !PauseCall(pc) && !WakeCall(pc) && !StartCall(pc)
  {
    match pc
    case StopSet => Call(w.(terminated := true), StopRead)
    case StopRead => Call(w, if w.started then ResumeRead(true) else StopWant)
    case StopWant => Call(w.(startLock := Client(c)), StopHold)
    case StopHold => Call(w.(startLock := Free), if w.started then ResumeRead(true) else NeverWant)
    case StopIdleWant => Call(w.(pauseLock := Client(c)), StopIdleHold)
    case StopIdleHold => Call(SignalIdle(w).(idle := false, pauseLock := Free), Returned)
    case NeverWant => Call(w.(pauseLock := Client(c)), NeverHold)
    case NeverHold => Call(SignalIdle(w).(paused := false, idle := false, pauseLock := Free), NeverDead)
    case NeverDead => Call(w.(deaths := w.deaths + 1), NeverReturned)
  }

  function AfterResume(inStop: bool): ClientPc {
    if inStop then SignalWant(true) else Returned
  }
}
