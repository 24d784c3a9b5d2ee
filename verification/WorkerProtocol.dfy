/**
 One worker against any number of threads that start, pause, resume and signal it, producers that publish
 entries, and one thread that stops it: no wakeup is lost, and exactly one party announces the worker's death.
 No thread uses the blocking form of `signal`.
 */
module WorkerProtocol {
  import opened WorkerModel

  /** A producer publishes an entry and then signals the worker. */
  datatype Thread = Producing | Calling(pc: ClientPc)

  /** The worker waits for entry number `num`; `published` entries exist.  Thread 0 is the one that calls `stop`. */
  datatype State = State(w: Worker, threads: seq<Thread>, published: int, num: int)

  /**
   `num` is the entry the worker is assigned after `doWork`, and `work` what `isWork` answers, where the step makes
   that call.  The answer may be a wrong "yes", as a torn emptiness test can give (`RingIndex.TornEmptyTestFails`), but
   not a wrong "no"; `RingIndex.TornTestHidesEntry` says what that takes.
   */
  datatype Action = RunWorker(more: bool, num: int, work: bool) | Publish(c: nat) | Proceed(c: nat)

  ghost predicate Init(s: State) {
    && s.w == Worker(NotRunning, false, false, false, false, false, Free, Free, Free, false, false, 0, 0, 0)
    && |s.threads| > 0 && s.threads[0] == Calling(StopSet)
    && forall c :: 1 <= c < |s.threads| ==> CallsOther(s.threads[c])
  }

  /** The beginning of any call other than `stop`. */
  predicate CallsOther(t: Thread) {
    t.Producing? || t.pc == StartRead || t.pc.PauseRead? || t.pc == ResumeRead(false) || t.pc == SignalWant(false)
  }

  predicate Enabled(s: State, a: Action) {
    match a
    case RunWorker(_, _, work) => WorkerEnabled(s.w) && (s.num < s.published ==> work)
    case Publish(c) => c < |s.threads| && s.threads[c].Producing?
    case Proceed(c) => c < |s.threads| && s.threads[c].Calling? && CallEnabled(s.w, s.threads[c].pc)
  }

  function Apply(s: State, a: Action): State
    requires Enabled(s, a)
  {
    match a
    case RunWorker(more, num, work) =>
      s.(w := WorkerStep(s.w, more, work), num := if s.w.pc.Working? then num else s.num)
    case Publish(c) => s.(published := s.published + 1, threads := s.threads[c := Calling(SignalWant(false))])
    case Proceed(c) =>
      var call := CallStep(s.w, s.threads[c].pc, c);
      s.(w := call.worker, threads := s.threads[c := Calling(call.pc)])
  }

  ghost predicate Run(states: seq<State>, actions: seq<Action>) {
    && |states| == |actions| + 1 && Init(states[0])
    && forall i {:trigger actions[i]} :: 0 <= i < |actions| ==>
                     Enabled(states[i], actions[i]) && states[i + 1] == Apply(states[i], actions[i])
  }

  // ----- Regions -----

  predicate HoldsPause(pc: ClientPc) {
    || pc.PauseHold? || pc.PauseChecked? || pc.PauseSignalWant? || pc.PauseSignalHold? || pc.PauseTest?
    || pc.PauseRelease? || pc.ResumeHold? || pc.StopIdleHold? || pc.NeverHold?
  }

  predicate HoldsWork(pc: ClientPc) {
    pc.PauseSignalHold? || pc.SignalHold?
  }

  predicate HoldsStart(pc: ClientPc) {
    pc.StartHold? || pc.StartGo? || pc.StopHold?
  }

  /** About to signal the worker because there is work. */
  predicate Signalling(t: Thread) {
    t.Calling? && (t.pc.SignalWant? || t.pc.SignalHold?)
  }

  /** About to signal the worker because it is to pause. */
  predicate PauseSignalling(t: Thread) {
    t.Calling? && (t.pc.PauseSignalWant? || t.pc.PauseSignalHold?)
  }

  predicate StopBeforeResume(pc: ClientPc) {
    || pc.StopRead? || pc.StopWant? || pc.StopHold?
    || pc == ResumeRead(true) || pc == ResumeWant(true) || pc == ResumeHold(true)
  }

  predicate StopBeforeSignal(pc: ClientPc) {
    StopBeforeResume(pc) || pc == SignalWant(true) || pc == SignalHold(true)
  }

  /** `stop` has found the worker started, and leaves the death signal to it. */
  predicate StopFoundStarted(pc: ClientPc) {
    || pc == ResumeRead(true) || pc == ResumeWant(true) || pc == ResumeHold(true)
    || pc == SignalWant(true) || pc == SignalHold(true) || pc.StopIdleWant? || pc.StopIdleHold? || pc.Returned?
  }

  /** `stop` has found the worker not started, and gives the death signal itself. */
  predicate StopFoundUnstarted(pc: ClientPc) {
    pc.NeverWant? || pc.NeverHold? || pc.NeverDead? || pc.NeverReturned?
  }

  predicate StopPc(pc: ClientPc) {
    pc.StopSet? || StopBeforeSignal(pc) || StopFoundUnstarted(pc) || pc.StopIdleWant? || pc.StopIdleHold?
  }

  /** What the worker's part of the invariant depends on in the progress of `stop`. */
  datatype Progress = Progress(
    begun: bool, beforeResume: bool, beforeSignal: bool, foundStarted: bool, foundUnstarted: bool, gaveDeath: bool)

  function View(pc: ClientPc): Progress {
    Progress(!pc.StopSet?, StopBeforeResume(pc), StopBeforeSignal(pc), StopFoundStarted(pc), StopFoundUnstarted(pc),
             pc.NeverReturned?)
  }

  /** As `MayMissWork`, once `stop` has begun. */
  predicate MayMissStop(w: Worker) {
    w.pc.NotTerminated? || w.pc.NotPaused? || (w.pc.SleepWork? && !w.workWake)
  }

  predicate MayMissResume(w: Worker) {
    w.pc.GoingIdle? || (w.pc.SleepPause? && !w.pauseWake)
  }

  // ----- Invariant -----

  /** The stop thread's program counter. */
  function Stop(s: State): ClientPc
    requires |s.threads| > 0 && s.threads[0].Calling?
  {
    s.threads[0].pc
  }

  ghost predicate ThreadsInv(s: State) {
    && |s.threads| > 0 && s.threads[0].Calling? && (StopPc(Stop(s)) || Stop(s).Returned?)
    && forall c :: 1 <= c < |s.threads| && s.threads[c].Calling? ==> !StopPc(s.threads[c].pc)
  }

  predicate LocksInv(w: Worker, t: Thread, c: nat) {
    && (w.pauseLock == WorkerThread <==> WorkerHoldsPause(w.pc))
    && (w.pauseLock == Client(c) <==> t.Calling? && HoldsPause(t.pc))
    && (w.workLock == WorkerThread <==> WorkerHoldsWork(w.pc))
    && (w.workLock == Client(c) <==> t.Calling? && HoldsWork(t.pc))
    && (w.startLock == Client(c) <==> t.Calling? && HoldsStart(t.pc))
  }

  ghost predicate LockInv(s: State) {
    forall c :: 0 <= c < |s.threads| ==> LocksInv(s.w, s.threads[c], c)
  }

  /** A thread about to start the worker has locked out a `stop` that would find it not started. */
  predicate StartsFirst(w: Worker, t: Thread, stop: Progress) {
    t == Calling(StartGo) ==> !w.started && !stop.foundUnstarted
  }

  ghost predicate StartInv(s: State)
    requires ThreadsInv(s)
  {
    forall c :: 0 <= c < |s.threads| ==> StartsFirst(s.w, s.threads[c], View(Stop(s)))
  }

  /** Who announces the worker's death. */
  predicate LifeInv(w: Worker, stop: Progress) {
    && (w.started <==> !w.pc.NotRunning?)
    && (w.terminated <==> stop.begun)
    && (stop.foundStarted ==> w.started)
    && (stop.foundUnstarted ==> !w.started)
    && (w.pc.Finalizing? || w.pc.Finished? ==> w.terminated)
    && w.deaths == (if w.pc.Finished? then 1 else 0) + (if stop.gaveDeath then 1 else 0)
  }

  /** A worker asleep after `stop` began has a wakeup on its way, or `stop` is still to send it. */
  predicate SleepInv(w: Worker, stop: Progress) {
    && (w.waiting <==> w.pc.SleepWork? || w.pc.WokenWork?)
    && (MayMissStop(w) && w.terminated ==> stop.beforeSignal)
    && (MayMissResume(w) ==> w.paused)
    && (MayMissResume(w) && w.terminated ==> stop.beforeResume)
  }

  ghost predicate WorkInv(s: State) {
    && (MayMissWork(s.w) && s.num < s.published ==> exists c :: 0 <= c < |s.threads| && Signalling(s.threads[c]))
    && (MayMissPause(s.w) ==> exists c :: 0 <= c < |s.threads| && PauseSignalling(s.threads[c]))
  }

  ghost predicate Inv(s: State) {
    && ThreadsInv(s) && LockInv(s) && StartInv(s)
    && LifeInv(s.w, View(Stop(s))) && SleepInv(s.w, View(Stop(s))) && WorkInv(s)
  }

  // ----- Steps of the worker -----

  predicate OwnLocks(w: Worker) {
    && (w.pauseLock == WorkerThread <==> WorkerHoldsPause(w.pc))
    && (w.workLock == WorkerThread <==> WorkerHoldsWork(w.pc))
  }

  /** The lock changed hands, if at all, between nobody and the worker. */
  predicate OnlyByWorker(a: Owner, b: Owner) {
    a == b || (!a.Client? && !b.Client?)
  }

  predicate StepFacts(w: Worker, w': Worker, work: bool, stop: Progress) {
    && LifeInv(w', stop) && SleepInv(w', stop) && w'.started == w.started && w'.startLock == w.startLock
    && OwnLocks(w') && OnlyByWorker(w.pauseLock, w'.pauseLock) && OnlyByWorker(w.workLock, w'.workLock)
    && (MayMissPause(w') ==> MayMissPause(w))
    && (MayMissWork(w') ==> !w.pc.Working? && (MayMissWork(w) || !work))
  }

  lemma PauseStepFacts(w: Worker, more: bool, work: bool, stop: Progress)
    requires w.pc.WantPause? || w.pc.HoldPause? || w.pc.GoingIdle?
    requires WorkerEnabled(w) && LifeInv(w, stop) && SleepInv(w, stop) && OwnLocks(w)
    ensures StepFacts(w, WorkerStep(w, more, work), work, stop)
  {
  }

  lemma WakeFromPauseFacts(w: Worker, more: bool, work: bool, stop: Progress)
    requires w.pc.SleepPause? || w.pc.WokenPause?
    requires WorkerEnabled(w) && LifeInv(w, stop) && SleepInv(w, stop) && OwnLocks(w)
    ensures StepFacts(w, WorkerStep(w, more, work), work, stop)
  {
  }

  lemma WorkStepFacts(w: Worker, more: bool, work: bool, stop: Progress)
    requires w.pc.Working? || w.pc.WantWork? || w.pc.HoldWork?
    requires WorkerEnabled(w) && LifeInv(w, stop) && SleepInv(w, stop) && OwnLocks(w)
    ensures StepFacts(w, WorkerStep(w, more, work), work, stop)
  {
  }

  lemma NoWorkFacts(w: Worker, more: bool, work: bool, stop: Progress)
    requires w.pc.FoundNoWork? || w.pc.NotTerminated?
    requires WorkerEnabled(w) && LifeInv(w, stop) && SleepInv(w, stop) && OwnLocks(w)
    ensures StepFacts(w, WorkerStep(w, more, work), work, stop)
  {
  }

  lemma GoToSleepFacts(w: Worker, more: bool, work: bool, stop: Progress)
    requires w.pc.NotPaused?
    requires WorkerEnabled(w) && LifeInv(w, stop) && SleepInv(w, stop) && OwnLocks(w)
    ensures StepFacts(w, WorkerStep(w, more, work), work, stop)
  {
  }

  lemma WakeToWorkFacts(w: Worker, more: bool, work: bool, stop: Progress)
    requires w.pc.SleepWork? || w.pc.WokenWork?
    requires WorkerEnabled(w) && LifeInv(w, stop) && SleepInv(w, stop) && OwnLocks(w)
    ensures StepFacts(w, WorkerStep(w, more, work), work, stop)
  {
  }

  lemma LoopStepFacts(w: Worker, more: bool, work: bool, stop: Progress)
    requires w.pc.Initializing? || w.pc.Top? || w.pc.LoopTest? || w.pc.Finalizing?
    requires WorkerEnabled(w) && LifeInv(w, stop) && SleepInv(w, stop) && OwnLocks(w)
    ensures StepFacts(w, WorkerStep(w, more, work), work, stop)
  {
  }

  lemma WorkerStepFacts(w: Worker, more: bool, work: bool, stop: Progress)
    requires WorkerEnabled(w) && LifeInv(w, stop) && SleepInv(w, stop) && OwnLocks(w)
    ensures StepFacts(w, WorkerStep(w, more, work), work, stop)
  {
    if w.pc.SleepPause? || w.pc.WokenPause? {
      WakeFromPauseFacts(w, more, work, stop);
    } else if PausePhase(w.pc) {
      PauseStepFacts(w, more, work, stop);
    } else if w.pc.SleepWork? || w.pc.WokenWork? {
      WakeToWorkFacts(w, more, work, stop);
    } else if w.pc.FoundNoWork? || w.pc.NotTerminated? {
      NoWorkFacts(w, more, work, stop);
    } else if w.pc.NotPaused? {
      GoToSleepFacts(w, more, work, stop);
    } else if WorkPhase(w.pc) {
      WorkStepFacts(w, more, work, stop);
    } else {
      LoopStepFacts(w, more, work, stop);
    }
  }

  lemma WorkerKeepsThread(w: Worker, w': Worker, work: bool, stop: Progress, t: Thread, c: nat)
    requires LocksInv(w, t, c) && StartsFirst(w, t, stop) && StepFacts(w, w', work, stop)
    ensures LocksInv(w', t, c) && StartsFirst(w', t, stop)
  {
  }

  lemma WorkerStepKeepsInv(s: State, more: bool, num: int, work: bool)
    requires Inv(s) && Enabled(s, RunWorker(more, num, work))
    ensures Inv(Apply(s, RunWorker(more, num, work)))
  {
    var w', stop := Apply(s, RunWorker(more, num, work)).w, View(Stop(s));
    assert LocksInv(s.w, s.threads[0], 0);
    WorkerStepFacts(s.w, more, work, stop);
    forall c | 0 <= c < |s.threads|
      ensures LocksInv(w', s.threads[c], c) && StartsFirst(w', s.threads[c], stop)
    {
      WorkerKeepsThread(s.w, w', work, stop, s.threads[c], c);
    }
  }

  // ----- Steps of the other threads -----

  lemma PauseLocks(w: Worker, pc: ClientPc, c: nat)
    requires PauseCall(pc)
    requires CallEnabled(w, pc) && LocksInv(w, Calling(pc), c) && (w.started <==> !w.pc.NotRunning?)
    ensures var call := CallStep(w, pc, c);
            && LocksInv(call.worker, Calling(call.pc), c) && OnlyBy(w.pauseLock, call.worker.pauseLock, c)
            && OnlyBy(w.workLock, call.worker.workLock, c) && OnlyBy(w.startLock, call.worker.startLock, c)
  {
  }

  lemma WakeLocks(w: Worker, pc: ClientPc, c: nat)
    requires WakeCall(pc)
    requires CallEnabled(w, pc) && LocksInv(w, Calling(pc), c) && (w.started <==> !w.pc.NotRunning?)
    ensures var call := CallStep(w, pc, c);
            && LocksInv(call.worker, Calling(call.pc), c) && OnlyBy(w.pauseLock, call.worker.pauseLock, c)
            && OnlyBy(w.workLock, call.worker.workLock, c) && OnlyBy(w.startLock, call.worker.startLock, c)
  {
  }

  lemma StartLocks(w: Worker, pc: ClientPc, c: nat)
    requires StartCall(pc)
    requires CallEnabled(w, pc) && LocksInv(w, Calling(pc), c) && (w.started <==> !w.pc.NotRunning?)
    requires pc.StartGo? ==> !w.started
    ensures var call := CallStep(w, pc, c);
            && LocksInv(call.worker, Calling(call.pc), c) && OnlyBy(w.pauseLock, call.worker.pauseLock, c)
            && OnlyBy(w.workLock, call.worker.workLock, c) && OnlyBy(w.startLock, call.worker.startLock, c)
  {
  }

  lemma StopDecidesLocks(w: Worker, pc: ClientPc, c: nat)
    requires pc.StopSet? || pc.StopRead? || pc.StopWant? || pc.StopHold?
    requires CallEnabled(w, pc) && LocksInv(w, Calling(pc), c) && (w.started <==> !w.pc.NotRunning?)
    ensures var call := CallStep(w, pc, c);
            && LocksInv(call.worker, Calling(call.pc), c) && OnlyBy(w.pauseLock, call.worker.pauseLock, c)
            && OnlyBy(w.workLock, call.worker.workLock, c) && OnlyBy(w.startLock, call.worker.startLock, c)
  {
  }

  lemma StopReleasesLocks(w: Worker, pc: ClientPc, c: nat)
    requires pc.StopIdleWant? || pc.StopIdleHold?
    requires CallEnabled(w, pc) && LocksInv(w, Calling(pc), c) && (w.started <==> !w.pc.NotRunning?)
    ensures var call := CallStep(w, pc, c);
            && LocksInv(call.worker, Calling(call.pc), c) && OnlyBy(w.pauseLock, call.worker.pauseLock, c)
            && OnlyBy(w.workLock, call.worker.workLock, c) && OnlyBy(w.startLock, call.worker.startLock, c)
  {
  }

  lemma StopUnstartedLocks(w: Worker, pc: ClientPc, c: nat)
    requires pc.NeverWant? || pc.NeverHold? || pc.NeverDead?
    requires CallEnabled(w, pc) && LocksInv(w, Calling(pc), c) && (w.started <==> !w.pc.NotRunning?)
    ensures var call := CallStep(w, pc, c);
            && LocksInv(call.worker, Calling(call.pc), c) && OnlyBy(w.pauseLock, call.worker.pauseLock, c)
            && OnlyBy(w.workLock, call.worker.workLock, c) && OnlyBy(w.startLock, call.worker.startLock, c)
  {
  }

  lemma CallLocks(w: Worker, pc: ClientPc, c: nat)
    requires CallEnabled(w, pc) && LocksInv(w, Calling(pc), c) && (w.started <==> !w.pc.NotRunning?)
    requires pc.StartGo? ==> !w.started
    ensures var call := CallStep(w, pc, c);
            && LocksInv(call.worker, Calling(call.pc), c) && OnlyBy(w.pauseLock, call.worker.pauseLock, c)
            && OnlyBy(w.workLock, call.worker.workLock, c) && OnlyBy(w.startLock, call.worker.startLock, c)
  {
    if PauseCall(pc) {
      PauseLocks(w, pc, c);
    } else if WakeCall(pc) {
      WakeLocks(w, pc, c);
    } else if StartCall(pc) {
      StartLocks(w, pc, c);
    } else if pc.StopSet? || pc.StopRead? || pc.StopWant? || pc.StopHold? {
      StopDecidesLocks(w, pc, c);
    } else if pc.StopIdleWant? || pc.StopIdleHold? {
      StopReleasesLocks(w, pc, c);
    } else {
      StopUnstartedLocks(w, pc, c);
    }
  }

  predicate StopKeeps(w: Worker, pc: ClientPc, call: Call) {
    && LifeInv(call.worker, View(call.pc)) && SleepInv(call.worker, View(call.pc))
    && (StopPc(call.pc) || call.pc.Returned?) && call.worker.started == w.started
    && (StopFoundUnstarted(call.pc) ==> StopFoundUnstarted(pc) || pc.StopHold?)
  }

  predicate OtherKeeps(w: Worker, pc: ClientPc, call: Call, stop: Progress) {
    && LifeInv(call.worker, stop) && SleepInv(call.worker, stop) && !StopPc(call.pc)
    && StartsFirst(call.worker, Calling(call.pc), stop) && (call.worker.started != w.started ==> pc.StartGo?)
  }

  lemma StopBegins(w: Worker, pc: ClientPc)
    requires pc.StopSet? || pc.StopRead?
    requires CallEnabled(w, pc) && LifeInv(w, View(pc)) && SleepInv(w, View(pc))
    ensures StopKeeps(w, pc, CallStep(w, pc, 0))
  {
  }

  lemma StopDecides(w: Worker, pc: ClientPc)
    requires pc.StopWant? || pc.StopHold?
    requires CallEnabled(w, pc) && LifeInv(w, View(pc)) && SleepInv(w, View(pc))
    ensures StopKeeps(w, pc, CallStep(w, pc, 0))
  {
  }

  lemma StopResumes(w: Worker, pc: ClientPc)
    requires pc.ResumeRead? || pc.ResumeWant? || pc.ResumeHold?
    requires CallEnabled(w, pc) && LifeInv(w, View(pc)) && SleepInv(w, View(pc))
    requires StopPc(pc) && LocksInv(w, Calling(pc), 0)
    ensures StopKeeps(w, pc, CallStep(w, pc, 0))
  {
  }

  lemma StopSignals(w: Worker, pc: ClientPc)
    requires pc.SignalWant? || pc.SignalHold?
    requires CallEnabled(w, pc) && LifeInv(w, View(pc)) && SleepInv(w, View(pc))
    requires StopPc(pc) && LocksInv(w, Calling(pc), 0)
    ensures StopKeeps(w, pc, CallStep(w, pc, 0))
  {
  }

  lemma StopReleasesPausers(w: Worker, pc: ClientPc)
    requires pc.StopIdleWant? || pc.StopIdleHold?
    requires CallEnabled(w, pc) && LifeInv(w, View(pc)) && SleepInv(w, View(pc))
    ensures StopKeeps(w, pc, CallStep(w, pc, 0))
  {
  }

  lemma StopUnstarted(w: Worker, pc: ClientPc)
    requires pc.NeverWant? || pc.NeverHold? || pc.NeverDead?
    requires CallEnabled(w, pc) && LifeInv(w, View(pc)) && SleepInv(w, View(pc))
    ensures StopKeeps(w, pc, CallStep(w, pc, 0))
  {
  }

  lemma PauseKeeps(w: Worker, pc: ClientPc, c: nat, stop: Progress)
    requires PauseCall(pc)
    requires CallEnabled(w, pc) && LifeInv(w, stop) && SleepInv(w, stop)
    ensures var call := CallStep(w, pc, c);
            && LifeInv(call.worker, stop) && SleepInv(call.worker, stop) && !StopPc(call.pc)
            && call.pc != StartGo && call.worker.started == w.started
  {
  }

  lemma ResumeKeeps(w: Worker, pc: ClientPc, c: nat, stop: Progress)
    requires pc.ResumeRead? || pc.ResumeWant? || pc.ResumeHold?
    requires CallEnabled(w, pc) && LifeInv(w, stop) && SleepInv(w, stop)
    requires !StopPc(pc) && LocksInv(w, Calling(pc), c)
    ensures var call := CallStep(w, pc, c);
            && LifeInv(call.worker, stop) && SleepInv(call.worker, stop) && !StopPc(call.pc)
            && call.pc != StartGo && call.worker.started == w.started
  {
  }

  lemma SignalKeeps(w: Worker, pc: ClientPc, c: nat, stop: Progress)
    requires pc.SignalWant? || pc.SignalHold?
    requires CallEnabled(w, pc) && LifeInv(w, stop) && SleepInv(w, stop) && !StopPc(pc)
    ensures var call := CallStep(w, pc, c);
            && LifeInv(call.worker, stop) && SleepInv(call.worker, stop) && !StopPc(call.pc)
            && call.pc != StartGo && call.worker.started == w.started
  {
  }

  lemma StartKeeps(w: Worker, pc: ClientPc, c: nat, stop: Progress)
    requires StartCall(pc)
    requires CallEnabled(w, pc) && LifeInv(w, stop) && SleepInv(w, stop)
    requires StartsFirst(w, Calling(pc), stop) && (stop.foundUnstarted ==> stop.begun)
    ensures var call := CallStep(w, pc, c);
            && LifeInv(call.worker, stop) && SleepInv(call.worker, stop) && !StopPc(call.pc)
            && (call.pc.StartGo? ==> !call.worker.started && !stop.foundUnstarted)
            && (call.worker.started != w.started ==> pc.StartGo?)
  {
  }

  lemma StopCallKeeps(w: Worker, pc: ClientPc)
    requires CallEnabled(w, pc) && LifeInv(w, View(pc)) && SleepInv(w, View(pc)) && LocksInv(w, Calling(pc), 0)
    requires StopPc(pc)
    ensures StopKeeps(w, pc, CallStep(w, pc, 0))
  {
    if pc.ResumeRead? || pc.ResumeWant? || pc.ResumeHold? {
      StopResumes(w, pc);
    } else if pc.SignalWant? || pc.SignalHold? {
      StopSignals(w, pc);
    } else if pc.StopSet? || pc.StopRead? {
      StopBegins(w, pc);
    } else if pc.StopWant? || pc.StopHold? {
      StopDecides(w, pc);
    } else if pc.StopIdleWant? || pc.StopIdleHold? {
      StopReleasesPausers(w, pc);
    } else {
      StopUnstarted(w, pc);
    }
  }

  lemma OtherCallKeeps(w: Worker, pc: ClientPc, c: nat, stop: Progress)
    requires CallEnabled(w, pc) && LifeInv(w, stop) && SleepInv(w, stop) && LocksInv(w, Calling(pc), c)
    requires !StopPc(pc) && StartsFirst(w, Calling(pc), stop) && (stop.foundUnstarted ==> stop.begun)
    ensures OtherKeeps(w, pc, CallStep(w, pc, c), stop)
  {
    if PauseCall(pc) {
      PauseKeeps(w, pc, c, stop);
    } else if pc.SignalWant? || pc.SignalHold? {
      SignalKeeps(w, pc, c, stop);
    } else if WakeCall(pc) {
      ResumeKeeps(w, pc, c, stop);
    } else {
      StartKeeps(w, pc, c, stop);
    }
  }

  /** A thread stops being about to signal only by giving the signal. */
  predicate SignalFacts(w: Worker, pc: ClientPc, call: Call) {
    && (MayMissWork(call.worker) ==> MayMissWork(w))
    && (Signalling(Calling(pc)) ==> Signalling(Calling(call.pc)) || !MayMissWork(call.worker))
    && (MayMissPause(call.worker) ==> MayMissPause(w) || PauseSignalling(Calling(call.pc)))
    && (PauseSignalling(Calling(pc)) ==> PauseSignalling(Calling(call.pc)) || !MayMissPause(call.worker))
  }

  lemma PauseSignals(w: Worker, pc: ClientPc, c: nat)
    requires PauseCall(pc)
    requires CallEnabled(w, pc) && LocksInv(w, Calling(pc), c) && (w.waiting <==> w.pc.SleepWork? || w.pc.WokenWork?)
    ensures SignalFacts(w, pc, CallStep(w, pc, c))
  {
  }

  lemma WakeSignals(w: Worker, pc: ClientPc, c: nat)
    requires WakeCall(pc)
    requires CallEnabled(w, pc) && LocksInv(w, Calling(pc), c) && (w.waiting <==> w.pc.SleepWork? || w.pc.WokenWork?)
    ensures SignalFacts(w, pc, CallStep(w, pc, c))
  {
  }

  lemma StartSignals(w: Worker, pc: ClientPc, c: nat)
    requires StartCall(pc)
    requires CallEnabled(w, pc)
    ensures SignalFacts(w, pc, CallStep(w, pc, c))
  {
  }

  lemma StopDecidesSignals(w: Worker, pc: ClientPc, c: nat)
    requires pc.StopSet? || pc.StopRead? || pc.StopWant? || pc.StopHold?
    requires CallEnabled(w, pc)
    ensures SignalFacts(w, pc, CallStep(w, pc, c))
  {
  }

  lemma StopEndsSignals(w: Worker, pc: ClientPc, c: nat)
    requires pc.StopIdleWant? || pc.StopIdleHold? || pc.NeverWant? || pc.NeverHold? || pc.NeverDead?
    requires CallEnabled(w, pc)
    ensures SignalFacts(w, pc, CallStep(w, pc, c))
  {
  }

  lemma CallSignals(w: Worker, pc: ClientPc, c: nat)
    requires CallEnabled(w, pc) && LocksInv(w, Calling(pc), c) && (w.waiting <==> w.pc.SleepWork? || w.pc.WokenWork?)
    ensures SignalFacts(w, pc, CallStep(w, pc, c))
  {
    if PauseCall(pc) {
      PauseSignals(w, pc, c);
    } else if WakeCall(pc) {
      WakeSignals(w, pc, c);
    } else if StartCall(pc) {
      StartSignals(w, pc, c);
    } else if pc.StopSet? || pc.StopRead? || pc.StopWant? || pc.StopHold? {
      StopDecidesSignals(w, pc, c);
    } else {
      StopEndsSignals(w, pc, c);
    }
  }

  lemma CallKeepsLocks(s: State, c: nat)
    requires LockInv(s) && Enabled(s, Proceed(c)) && (s.w.started <==> !s.w.pc.NotRunning?)
    requires s.threads[c].pc.StartGo? ==> !s.w.started
    ensures LockInv(Apply(s, Proceed(c)))
  {
    var s' := Apply(s, Proceed(c));
    assert LocksInv(s.w, s.threads[c], c);
    CallLocks(s.w, s.threads[c].pc, c);
    forall d | 0 <= d < |s.threads|
      ensures LocksInv(s'.w, s'.threads[d], d)
    {
      assert LocksInv(s.w, s.threads[d], d);
    }
  }

  /** A thread that holds the start lock keeps `stop` from deciding. */
  lemma StopLeavesStarter(w: Worker, pc: ClientPc, call: Call, t: Thread, c: nat)
    requires LocksInv(w, Calling(pc), 0) && LocksInv(w, t, c) && StartsFirst(w, t, View(pc)) && StopKeeps(w, pc, call)
    requires c > 0
    ensures StartsFirst(call.worker, t, View(call.pc))
  {
  }

  lemma StopKeepsWorker(s: State)
    requires Inv(s) && Enabled(s, Proceed(0))
    ensures var s' := Apply(s, Proceed(0));
            ThreadsInv(s') && StartInv(s') && LifeInv(s'.w, View(Stop(s'))) && SleepInv(s'.w, View(Stop(s')))
  {
    var s' := Apply(s, Proceed(0));
    assert LocksInv(s.w, s.threads[0], 0);
    StopCallKeeps(s.w, Stop(s));
    assert ThreadsInv(s');
    forall d | 1 <= d < |s.threads|
      ensures StartsFirst(s'.w, s'.threads[d], View(Stop(s')))
    {
      StopLeavesStarter(s.w, Stop(s), CallStep(s.w, Stop(s), 0), s.threads[d], d);
    }
  }

  lemma OtherKeepsWorker(s: State, c: nat)
    requires Inv(s) && Enabled(s, Proceed(c)) && c > 0
    ensures var s' := Apply(s, Proceed(c));
            ThreadsInv(s') && StartInv(s') && LifeInv(s'.w, View(Stop(s'))) && SleepInv(s'.w, View(Stop(s')))
  {
    var s', stop := Apply(s, Proceed(c)), View(Stop(s));
    assert LocksInv(s.w, s.threads[c], c) && StartsFirst(s.w, s.threads[c], stop);
    OtherCallKeeps(s.w, s.threads[c].pc, c, stop);
    forall d | 0 <= d < |s.threads|
      ensures StartsFirst(s'.w, s'.threads[d], stop)
    {
      assert StartsFirst(s.w, s.threads[d], stop) && LocksInv(s.w, s.threads[d], d);
    }
  }

  lemma CallKeepsWork(s: State, c: nat)
    requires ThreadsInv(s) && LockInv(s) && SleepInv(s.w, View(Stop(s))) && WorkInv(s) && Enabled(s, Proceed(c))
    ensures WorkInv(Apply(s, Proceed(c)))
  {
    var s' := Apply(s, Proceed(c));
    assert LocksInv(s.w, s.threads[c], c);
    CallSignals(s.w, s.threads[c].pc, c);
    if MayMissWork(s'.w) && s'.num < s'.published {
      var d :| 0 <= d < |s.threads| && Signalling(s.threads[d]);
      assert Signalling(s'.threads[d]);
    }
    if MayMissPause(s'.w) {
      if MayMissPause(s.w) {
        var d :| 0 <= d < |s.threads| && PauseSignalling(s.threads[d]);
        assert PauseSignalling(s'.threads[d]) || PauseSignalling(s'.threads[c]);
      } else {
        assert PauseSignalling(s'.threads[c]);
      }
    }
  }

  lemma CallKeepsInv(s: State, c: nat)
    requires Inv(s) && Enabled(s, Proceed(c))
    ensures Inv(Apply(s, Proceed(c)))
  {
    assert StartsFirst(s.w, s.threads[c], View(Stop(s)));
    CallKeepsLocks(s, c);
    if c == 0 {
      StopKeepsWorker(s);
    } else {
      OtherKeepsWorker(s, c);
    }
    CallKeepsWork(s, c);
  }

  lemma PublishKeepsInv(s: State, c: nat)
    requires Inv(s) && Enabled(s, Publish(c))
    ensures Inv(Apply(s, Publish(c)))
  {
    var s' := Apply(s, Publish(c));
    assert Signalling(s'.threads[c]);
    if MayMissPause(s.w) {
      var d :| 0 <= d < |s.threads| && PauseSignalling(s.threads[d]);
      assert PauseSignalling(s'.threads[d]);
    }
    forall d | 0 <= d < |s.threads|
      ensures LocksInv(s'.w, s'.threads[d], d) && StartsFirst(s'.w, s'.threads[d], View(Stop(s)))
    {
      assert LocksInv(s.w, s.threads[d], d) && StartsFirst(s.w, s.threads[d], View(Stop(s)));
    }
  }

  lemma StepKeepsInv(s: State, a: Action)
    requires Inv(s) && Enabled(s, a)
    ensures Inv(Apply(s, a))
  {
    match a
    case RunWorker(more, num, work) => WorkerStepKeepsInv(s, more, num, work);
    case Publish(c) => PublishKeepsInv(s, c);
    case Proceed(c) => CallKeepsInv(s, c);
  }

  lemma {:induction false} RunKeepsInv(states: seq<State>, actions: seq<Action>, i: nat)
    requires Run(states, actions) && i < |states|
    ensures Inv(states[i])
  {
    if i > 0 {
      RunKeepsInv(states, actions, i - 1);
      StepKeepsInv(states[i - 1], actions[i - 1]);
    }
  }

  // ----- Theorems about every run -----

  /**
   No lost wakeup: a worker asleep while its entry is published, or while it is to pause, has a signal on its
   way, or some thread is still about to send one.
   */
  lemma NoLostWakeup(states: seq<State>, actions: seq<Action>, i: nat)
    requires Run(states, actions) && i < |states| && states[i].w.pc.SleepWork?
    ensures var s := states[i];
            && (s.num < s.published ==> s.w.workWake || exists c :: 0 <= c < |s.threads| && Signalling(s.threads[c]))
            && (s.w.paused ==> s.w.workWake || exists c :: 0 <= c < |s.threads| && PauseSignalling(s.threads[c]))
  {
    RunKeepsInv(states, actions, i);
  }

  /** Once `stop` has returned, a sleeping worker always has a wakeup on its way, on either condition. */
  lemma StoppedWorkerIsWoken(states: seq<State>, actions: seq<Action>, i: nat)
    requires Run(states, actions) && i < |states|
    requires states[i].threads != [] && states[i].threads[0] == Calling(Returned)
    ensures states[i].w.terminated
    ensures states[i].w.pc.SleepWork? ==> states[i].w.workWake
    ensures states[i].w.pc.SleepPause? ==> states[i].w.pauseWake
  {
    RunKeepsInv(states, actions, i);
  }

  /**
   Exactly one party gives the death signal: when `stop` has decided, either the worker runs and gives it on
   leaving its loop, or the worker never runs and `stop` gives it.  It is never given twice.
   */
  lemma OneDeathSignal(states: seq<State>, actions: seq<Action>, i: nat)
    requires Run(states, actions) && i < |states|
    ensures var s := states[i];
            && s.threads != [] && s.threads[0].Calling? && s.w.deaths <= 1
            && (StopFoundStarted(Stop(s)) ==> s.w.started && s.w.deaths == if s.w.pc.Finished? then 1 else 0)
            && (StopFoundUnstarted(Stop(s)) ==>
                  s.w.pc.NotRunning? && s.w.deaths == if Stop(s).NeverReturned? then 1 else 0)
  {
    RunKeepsInv(states, actions, i);
  }

  lemma UnstartedStays(s: State, a: Action)
    requires Enabled(s, a) && s.threads != [] && s.threads[0].Calling? && StopFoundUnstarted(Stop(s))
    ensures var s' := Apply(s, a); s'.threads != [] && s'.threads[0].Calling? && StopFoundUnstarted(Stop(s'))
  {
  }

  /** A worker that `stop` found not started never runs. */
  lemma {:induction false} NeverStartedNeverRuns(states: seq<State>, actions: seq<Action>, i: nat, j: nat)
    requires Run(states, actions) && i <= j < |states|
    requires states[i].threads != [] && states[i].threads[0].Calling? && StopFoundUnstarted(Stop(states[i]))
    ensures states[j].threads != [] && states[j].threads[0].Calling? && StopFoundUnstarted(Stop(states[j]))
    ensures states[j].w.pc.NotRunning?
  {
    if i < j {
      NeverStartedNeverRuns(states, actions, i, j - 1);
      UnstartedStays(states[j - 1], actions[j - 1]);
    }
    OneDeathSignal(states, actions, j);
  }

  // ----- Threads asleep in `pause(true)` -----

  /** In a blocking call of `pause`, before it is past its wait. */
  predicate BlockingPauser(t: Thread) {
    && t.Calling?
    && (|| t.pc.PauseSleep? || t.pc == PauseRead(true) || t.pc == PauseWant(true) || LatePause(t.pc, true)
        || t.pc == PauseHold(true))
  }

  /** Past the check that the worker is not terminated, and not yet asleep or done. */
  predicate LatePause(pc: ClientPc, block: bool) {
    pc == PauseChecked(block) || pc == PauseSignalWant(block) || pc == PauseSignalHold(block) || pc == PauseTest(block)
  }

  /** `stop` has given the signal that releases a pauser. */
  predicate ReleasedPauser(stop: ClientPc) {
    stop.Returned? || stop.NeverDead? || stop.NeverReturned?
  }

  function Asleep(pc: ClientPc): nat {
    if pc.PauseSleep? then 1 else 0
  }

  function CountAsleep(threads: seq<Thread>): nat {
    if threads == [] then 0
    else (if threads[0].Calling? then Asleep(threads[0].pc) else 0) + CountAsleep(threads[1..])
  }

  lemma {:induction false} CountAfterStep(threads: seq<Thread>, c: nat, t: Thread)
    requires c < |threads|
    ensures CountAsleep(threads[c := t])
            == CountAsleep(threads) - (if threads[c].Calling? then Asleep(threads[c].pc) else 0)
               + (if t.Calling? then Asleep(t.pc) else 0)
  {
    if c == 0 {
      assert threads[c := t][1..] == threads[1..];
    } else {
      CountAfterStep(threads[1..], c - 1, t);
      assert threads[c := t][1..] == threads[1..][c - 1 := t];
    }
  }

  /** No two threads are in blocking calls at a time. */
  ghost predicate Exclusive(threads: seq<Thread>) {
    forall c, d :: 0 <= c < d < |threads| ==> !(BlockingPauser(threads[c]) && BlockingPauser(threads[d]))
  }

  lemma {:induction false} NobodyAsleep(threads: seq<Thread>)
    requires forall c :: 0 <= c < |threads| ==> !BlockingPauser(threads[c])
    ensures CountAsleep(threads) == 0
  {
    if threads != [] {
      assert !BlockingPauser(threads[0]);
      NobodyAsleep(threads[1..]);
    }
  }

  lemma {:induction false} OneAsleep(threads: seq<Thread>)
    requires Exclusive(threads)
    ensures CountAsleep(threads) <= 1
  {
    if threads != [] {
      if BlockingPauser(threads[0]) {
        assert forall c :: 1 <= c < |threads| ==> !BlockingPauser(threads[c]);
        NobodyAsleep(threads[1..]);
      } else {
        OneAsleep(threads[1..]);
      }
    }
  }

  /** A thread is left waiting for a signal only while the worker is not idle and `stop` has not released it. */
  predicate PauserOk(w: Worker, released: bool) {
    && (w.idleSleepers > 0 ==> !w.idle && w.started && !released)
    && (w.idle ==> w.pc.SleepPause? || w.pc.WokenPause?)
    && (!released && (w.pc.SleepPause? || w.pc.WokenPause?) ==> w.idle)
  }

  ghost predicate PauserInv(s: State) {
    && |s.threads| > 0 && s.threads[0].Calling? && PauserOk(s.w, ReleasedPauser(Stop(s)))
    && s.w.idleSleepers + s.w.idleTokens == CountAsleep(s.threads)
    && forall c :: 0 <= c < |s.threads| && s.threads[c].Calling? ==>
                     (ReleasedPauser(Stop(s)) ==>
                        !LatePause(s.threads[c].pc, true) && !LatePause(s.threads[c].pc, false))
  }

  lemma PausePhaseKeepsPausers(w: Worker, more: bool, work: bool, released: bool)
    requires PausePhase(w.pc)
    requires WorkerEnabled(w) && PauserOk(w, released) && w.idleSleepers + w.idleTokens <= 1
    ensures var w' := WorkerStep(w, more, work);
            PauserOk(w', released) && w'.idleSleepers + w'.idleTokens == w.idleSleepers + w.idleTokens
  {
  }

  lemma WorkPhaseKeepsPausers(w: Worker, more: bool, work: bool, released: bool)
    requires || w.pc.Working? || w.pc.WantWork? || w.pc.HoldWork? || w.pc.FoundNoWork? || w.pc.NotTerminated?
             || w.pc.NotPaused? || w.pc.SleepWork? || w.pc.WokenWork?
    requires WorkerEnabled(w) && PauserOk(w, released)
    ensures var w' := WorkerStep(w, more, work);
            PauserOk(w', released) && w'.idleSleepers + w'.idleTokens == w.idleSleepers + w.idleTokens
  {
  }

  lemma LoopKeepsPausers(w: Worker, more: bool, work: bool, released: bool)
    requires w.pc.Initializing? || w.pc.Top? || w.pc.LoopTest? || w.pc.Finalizing?
    requires WorkerEnabled(w) && PauserOk(w, released)
    ensures var w' := WorkerStep(w, more, work);
            PauserOk(w', released) && w'.idleSleepers + w'.idleTokens == w.idleSleepers + w.idleTokens
  {
  }

  lemma WorkerKeepsPausers(w: Worker, more: bool, work: bool, released: bool)
    requires WorkerEnabled(w) && PauserOk(w, released) && w.idleSleepers + w.idleTokens <= 1
    ensures var w' := WorkerStep(w, more, work);
            PauserOk(w', released) && w'.idleSleepers + w'.idleTokens == w.idleSleepers + w.idleTokens
  {
    if PausePhase(w.pc) {
      PausePhaseKeepsPausers(w, more, work, released);
    } else if WorkPhase(w.pc) {
      WorkPhaseKeepsPausers(w, more, work, released);
    } else {
      LoopKeepsPausers(w, more, work, released);
    }
  }

  predicate PauseKeepsPausers(w: Worker, pc: ClientPc, call: Call, released: bool) {
    && PauserOk(call.worker, released)
    && (released ==> !LatePause(call.pc, true) && !LatePause(call.pc, false))
    && call.worker.idleSleepers + call.worker.idleTokens
       == w.idleSleepers + w.idleTokens - Asleep(pc) + Asleep(call.pc)
  }

  lemma EarlyPauseKeepsPausers(w: Worker, pc: ClientPc, c: nat, released: bool)
    requires pc.PauseRead? || pc.PauseWant? || pc.PauseHold?
    requires CallEnabled(w, pc) && PauserOk(w, released) && (released ==> w.terminated)
    requires released ==> !LatePause(pc, true) && !LatePause(pc, false)
    ensures PauseKeepsPausers(w, pc, CallStep(w, pc, c), released)
  {
  }

  lemma LatePauseKeepsPausers(w: Worker, pc: ClientPc, c: nat, released: bool)
    requires pc.PauseChecked? || pc.PauseSignalWant? || pc.PauseSignalHold? || pc.PauseTest?
    requires CallEnabled(w, pc) && PauserOk(w, released) && (released ==> w.terminated)
    requires released ==> !LatePause(pc, true) && !LatePause(pc, false)
    ensures PauseKeepsPausers(w, pc, CallStep(w, pc, c), released)
  {
  }

  lemma PauseEndKeepsPausers(w: Worker, pc: ClientPc, c: nat, released: bool)
    requires pc.PauseSleep? || pc.PauseRelease?
    requires CallEnabled(w, pc) && PauserOk(w, released) && (released ==> w.terminated)
    requires released ==> !LatePause(pc, true) && !LatePause(pc, false)
    ensures PauseKeepsPausers(w, pc, CallStep(w, pc, c), released)
  {
  }

  lemma PauseCallKeepsPausers(w: Worker, pc: ClientPc, c: nat, released: bool)
    requires PauseCall(pc) && CallEnabled(w, pc) && PauserOk(w, released) && (released ==> w.terminated)
    requires released ==> !LatePause(pc, true) && !LatePause(pc, false)
    ensures PauseKeepsPausers(w, pc, CallStep(w, pc, c), released)
  {
    if pc.PauseRead? || pc.PauseWant? || pc.PauseHold? {
      EarlyPauseKeepsPausers(w, pc, c, released);
    } else if pc.PauseSleep? || pc.PauseRelease? {
      PauseEndKeepsPausers(w, pc, c, released);
    } else {
      LatePauseKeepsPausers(w, pc, c, released);
    }
  }

  lemma OthersKeepPausers(w: Worker, pc: ClientPc, c: nat, released: bool)
    requires (WakeCall(pc) && !StopPc(pc)) || StartCall(pc)
    requires CallEnabled(w, pc) && PauserOk(w, released) && (pc.StartGo? ==> w.pc.NotRunning?)
    ensures var call := CallStep(w, pc, c);
            && PauserOk(call.worker, released) && !PauseCall(call.pc)
            && call.worker.idleSleepers == w.idleSleepers && call.worker.idleTokens == w.idleTokens
  {
  }

  predicate StopKeepsPausers(w: Worker, pc: ClientPc, call: Call) {
    && PauserOk(call.worker, ReleasedPauser(call.pc)) && !PauseCall(call.pc)
    && call.worker.idleSleepers + call.worker.idleTokens == w.idleSleepers + w.idleTokens
    && (ReleasedPauser(call.pc) && !ReleasedPauser(pc) ==> HoldsPause(pc))
  }

  lemma StopDecidesOverPausers(w: Worker, pc: ClientPc)
    requires pc.StopSet? || pc.StopRead? || pc.StopWant? || pc.StopHold?
    requires CallEnabled(w, pc) && PauserOk(w, ReleasedPauser(pc)) && w.idleSleepers + w.idleTokens <= 1
    requires StopFoundUnstarted(pc) ==> !w.started && w.pc.NotRunning?
    ensures StopKeepsPausers(w, pc, CallStep(w, pc, 0))
  {
  }

  lemma StopWakesBesidePausers(w: Worker, pc: ClientPc)
    requires || pc == ResumeRead(true) || pc == ResumeWant(true) || pc == ResumeHold(true)
             || pc == SignalWant(true) || pc == SignalHold(true)
    requires CallEnabled(w, pc) && PauserOk(w, ReleasedPauser(pc)) && w.idleSleepers + w.idleTokens <= 1
    requires StopFoundUnstarted(pc) ==> !w.started && w.pc.NotRunning?
    ensures StopKeepsPausers(w, pc, CallStep(w, pc, 0))
  {
  }

  lemma StopReleasesOne(w: Worker, pc: ClientPc)
    requires pc.StopIdleWant? || pc.StopIdleHold?
    requires CallEnabled(w, pc) && PauserOk(w, ReleasedPauser(pc)) && w.idleSleepers + w.idleTokens <= 1
    requires StopFoundUnstarted(pc) ==> !w.started && w.pc.NotRunning?
    ensures StopKeepsPausers(w, pc, CallStep(w, pc, 0))
  {
  }

  lemma UnstartedHasNoPausers(w: Worker, pc: ClientPc)
    requires pc.NeverWant? || pc.NeverHold? || pc.NeverDead?
    requires CallEnabled(w, pc) && PauserOk(w, ReleasedPauser(pc)) && w.idleSleepers + w.idleTokens <= 1
    requires StopFoundUnstarted(pc) ==> !w.started && w.pc.NotRunning?
    ensures StopKeepsPausers(w, pc, CallStep(w, pc, 0))
  {
  }

  lemma StopCallKeepsPausers(w: Worker, pc: ClientPc)
    requires StopPc(pc) && CallEnabled(w, pc) && PauserOk(w, ReleasedPauser(pc))
    requires w.idleSleepers + w.idleTokens <= 1 && (StopFoundUnstarted(pc) ==> !w.started && w.pc.NotRunning?)
    ensures StopKeepsPausers(w, pc, CallStep(w, pc, 0))
  {
    if pc.StopSet? || pc.StopRead? || pc.StopWant? || pc.StopHold? {
      StopDecidesOverPausers(w, pc);
    } else if pc.StopIdleWant? || pc.StopIdleHold? {
      StopReleasesOne(w, pc);
    } else if pc.NeverWant? || pc.NeverHold? || pc.NeverDead? {
      UnstartedHasNoPausers(w, pc);
    } else {
      StopWakesBesidePausers(w, pc);
    }
  }

  lemma RunWorkerKeepsPausers(s: State, more: bool, num: int, work: bool)
    requires PauserInv(s) && Enabled(s, RunWorker(more, num, work)) && Exclusive(s.threads)
    ensures PauserInv(Apply(s, RunWorker(more, num, work)))
  {
    OneAsleep(s.threads);
    WorkerKeepsPausers(s.w, more, work, ReleasedPauser(Stop(s)));
  }

  lemma StopStepKeepsPausers(s: State)
    requires Inv(s) && PauserInv(s) && Exclusive(s.threads) && Enabled(s, Proceed(0))
    ensures PauserInv(Apply(s, Proceed(0)))
  {
    var s' := Apply(s, Proceed(0));
    OneAsleep(s.threads);
    StopCallKeepsPausers(s.w, Stop(s));
    CountAfterStep(s.threads, 0, s'.threads[0]);
    assert LocksInv(s.w, s.threads[0], 0);
    forall c | 0 <= c < |s.threads| && s'.threads[c].Calling? && ReleasedPauser(Stop(s'))
      ensures !LatePause(s'.threads[c].pc, true) && !LatePause(s'.threads[c].pc, false)
    {
      assert LocksInv(s.w, s.threads[c], c);
    }
  }

  lemma CallStepKeepsPausers(s: State, c: nat)
    requires Inv(s) && PauserInv(s) && Enabled(s, Proceed(c)) && c > 0
    ensures PauserInv(Apply(s, Proceed(c)))
  {
    var s', pc, released := Apply(s, Proceed(c)), s.threads[c].pc, ReleasedPauser(Stop(s));
    assert StartsFirst(s.w, s.threads[c], View(Stop(s)));
    if PauseCall(pc) {
      PauseCallKeepsPausers(s.w, pc, c, released);
    } else {
      OthersKeepPausers(s.w, pc, c, released);
    }
    CountAfterStep(s.threads, c, s'.threads[c]);
  }

  lemma StepKeepsPausers(s: State, a: Action)
    requires Inv(s) && PauserInv(s) && Exclusive(s.threads) && Enabled(s, a)
    ensures PauserInv(Apply(s, a))
  {
    match a
    case RunWorker(more, num, work) => RunWorkerKeepsPausers(s, more, num, work);
    case Publish(c) => CountAfterStep(s.threads, c, Calling(SignalWant(false)));
    case Proceed(c) =>
      if c == 0 {
        StopStepKeepsPausers(s);
      } else {
        CallStepKeepsPausers(s, c);
      }
  }

  lemma {:induction false} RunKeepsPausers(states: seq<State>, actions: seq<Action>, i: nat)
    requires Run(states, actions) && i < |states|
    requires forall j :: 0 <= j < i ==> Exclusive(states[j].threads)
    ensures PauserInv(states[i])
  {
    if i == 0 {
      InitHasNoPausers(states[0]);
    } else {
      RunKeepsPausers(states, actions, i - 1);
      RunKeepsInv(states, actions, i - 1);
      StepKeepsPausers(states[i - 1], actions[i - 1]);
    }
  }

  lemma InitHasNoPausers(s: State)
    requires Init(s)
    ensures PauserInv(s)
  {
    NoneAsleepAtFirst(s.threads);
  }

  lemma {:induction false} NoneAsleepAtFirst(threads: seq<Thread>)
    requires forall c :: 0 <= c < |threads| ==> threads[c] == Calling(StopSet) || CallsOther(threads[c])
    ensures CountAsleep(threads) == 0
  {
    if threads != [] {
      NoneAsleepAtFirst(threads[1..]);
    }
  }

  /**
   If no two threads are ever in blocking calls of `pause` at a time, a thread asleep in one is not forgotten: its
   signal is on its way; or `stop` has begun and has still to release it; or the worker is not idle and, unless it has
   been resumed, on its way there: it is awake, or has a wakeup coming, or some thread is about to give it one.
   */
  lemma OnePauserIsServed(states: seq<State>, actions: seq<Action>, i: nat, c: nat)
    requires Run(states, actions) && i < |states| && forall j :: 0 <= j <= i ==> Exclusive(states[j].threads)
    requires c < |states[i].threads| && states[i].threads[c] == Calling(PauseSleep)
    ensures var s := states[i];
            && s.threads[0].Calling? && s.w.idleSleepers + s.w.idleTokens == 1
            && (|| s.w.idleTokens == 1
                || (s.w.terminated && !ReleasedPauser(Stop(s)))
                || (&& !s.w.terminated && !s.w.idle && !s.w.pc.SleepPause?
                    && (s.w.paused && s.w.pc.SleepWork? ==>
                          s.w.workWake || exists d :: 0 <= d < |s.threads| && PauseSignalling(s.threads[d]))))
  {
    RunKeepsInv(states, actions, i);
    RunKeepsPausers(states, actions, i);
    assert Exclusive(states[i].threads);
    OneAsleep(states[i].threads);
    SomebodyAsleep(states[i].threads, c);
  }

  lemma {:induction false} SomebodyAsleep(threads: seq<Thread>, c: nat)
    requires c < |threads| && threads[c] == Calling(PauseSleep)
    ensures CountAsleep(threads) > 0
  {
    if c > 0 {
      SomebodyAsleep(threads[1..], c - 1);
    }
  }
}
