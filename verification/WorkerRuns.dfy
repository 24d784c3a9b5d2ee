/**
 Runs of one worker and the calls made on it: what each call and each round of the worker's loop does when nothing comes
 in between, why the worker leaves its waits, and runs that show what can go wrong.
 */
module WorkerRuns {
  import opened WorkerModel
  import opened WorkerProtocol

  // ----- The worker's loop -----

  /** `n` steps of the worker, with these answers of `doWork` and `isWork`, lead from `w` to `w'`. */
  ghost predicate OwnSteps(w: Worker, n: nat, more: bool, work: bool, w': Worker)
    decreases n
  {
    if n == 0 then w' == w
    else WorkerEnabled(w) && OwnSteps(WorkerStep(w, more, work), n - 1, more, work, w')
  }

  lemma {:induction false} OwnStepsOn(w: Worker, n: nat, more: bool, work: bool, w1: Worker, m: nat, w2: Worker)
    requires OwnSteps(w, n, more, work, w1) && OwnSteps(w1, m, more, work, w2)
    ensures OwnSteps(w, n + m, more, work, w2)
    decreases n
  {
    if n > 0 {
      OwnStepsOn(WorkerStep(w, more, work), n - 1, more, work, w1, m, w2);
    }
  }

  lemma OwnTwo(w: Worker, more: bool, work: bool, w1: Worker)
    requires WorkerEnabled(w) && w1 == WorkerStep(w, more, work) && WorkerEnabled(w1)
    ensures OwnSteps(w, 2, more, work, WorkerStep(w1, more, work))
  {
    assert OwnSteps(w1, 1, more, work, WorkerStep(w1, more, work)) by {
      assert OwnSteps(WorkerStep(w1, more, work), 0, more, work, WorkerStep(w1, more, work));
    }
  }

  /** A worker that starts goes to work. */
  lemma StartsWork(w: Worker, more: bool, work: bool)
    requires w.pc.Initializing? && !w.paused
    ensures OwnSteps(w, 2, more, work, w.(pc := Working))
  {
    OwnTwo(w, more, work, w.(pc := Top));
  }

  /** One that is not terminated or paused goes round its loop to work again. */
  lemma GoesRound(w: Worker, more: bool, work: bool)
    requires w.pc.LoopTest? && !w.terminated && !w.paused
    ensures OwnSteps(w, 2, more, work, w.(pc := Working))
  {
    OwnTwo(w, more, work, w.(pc := Top));
  }

  /** As long as `doWork` finds something it is called again. */
  lemma WorksOn(w: Worker, work: bool)
    requires w.pc.Working? && !w.terminated && !w.paused
    ensures OwnSteps(w, 3, true, work, w)
  {
    GoesRound(w.(pc := LoopTest), true, work);
    assert w.(pc := LoopTest).(pc := Working) == w;
  }

  /** Also when `isWork` finds something that `doWork` did not. */
  lemma LooksAgain(w: Worker)
    requires w.pc.Working? && w.workLock == Free
    ensures OwnSteps(w, 3, false, true, w.(pc := LoopTest))
  {
    OwnTwo(w, false, true, w.(pc := WantWork));
    var w2 := w.(pc := HoldWork, workLock := WorkerThread);
    assert WorkerStep(w.(pc := WantWork), false, true) == w2;
    assert OwnSteps(w2, 1, false, true, w.(pc := LoopTest)) by {
      assert OwnSteps(WorkerStep(w2, false, true), 0, false, true, w.(pc := LoopTest));
    }
    OwnStepsOn(w, 2, false, true, w2, 1, w.(pc := LoopTest));
  }

  lemma LooksForWork(w: Worker)
    requires w.pc.Working? && !w.terminated && w.workLock == Free
    ensures OwnSteps(w, 4, false, false, w.(pc := NotTerminated, workLock := WorkerThread))
  {
    var w2 := w.(pc := HoldWork, workLock := WorkerThread);
    OwnTwo(w, false, false, w.(pc := WantWork));
    OwnTwo(w2, false, false, w2.(pc := FoundNoWork));
    OwnStepsOn(w, 2, false, false, w2, 2, w.(pc := NotTerminated, workLock := WorkerThread));
  }

  /** A worker that finds nothing to do, and is neither terminated nor paused, goes to sleep, and says so. */
  lemma WaitsForWork(w: Worker)
    requires w.pc.Working? && !w.terminated && !w.paused && w.workLock == Free
    ensures OwnSteps(w, 6, false, false, w.(pc := SleepWork, waiting := true, workWake := false))
  {
    var w4 := w.(pc := NotTerminated, workLock := WorkerThread);
    LooksForWork(w);
    OwnTwo(w4, false, false, w4.(pc := NotPaused));
    OwnStepsOn(w, 4, false, false, w4, 2, w.(pc := SleepWork, waiting := true, workWake := false));
  }

  /** Woken, it goes back to work. */
  lemma WakesToWork(w: Worker, more: bool, work: bool)
    requires w.pc.SleepWork? && !w.terminated && !w.paused && w.workLock == Free
    ensures OwnSteps(w, 4, more, work, w.(pc := Working, waiting := false, workWake := false))
  {
    var w2 := w.(pc := LoopTest, waiting := false, workWake := false);
    OwnTwo(w, more, work, w.(pc := WokenWork, workWake := false, workLock := WorkerThread));
    GoesRound(w2, more, work);
    OwnStepsOn(w, 2, more, work, w2, 2, w.(pc := Working, waiting := false, workWake := false));
  }

  /** A worker that is to pause goes idle, and says so to a thread that waits for it. */
  lemma GoesIdle(w: Worker, more: bool, work: bool)
    requires w.pc.Top? && w.paused && !w.terminated && w.pauseLock == Free
    ensures OwnSteps(w, 4, more, work, SignalIdle(w).(pc := SleepPause, idle := true, pauseWake := false))
  {
    var w2 := w.(pc := HoldPause, pauseLock := WorkerThread);
    OwnTwo(w, more, work, w.(pc := WantPause));
    OwnTwo(w2, more, work, w2.(pc := GoingIdle));
    OwnStepsOn(w, 2, more, work, w2, 2, SignalIdle(w).(pc := SleepPause, idle := true, pauseWake := false));
  }

  /** Resumed, it goes back to work. */
  lemma WakesFromPause(w: Worker, more: bool, work: bool)
    requires w.pc.SleepPause? && !w.paused && !w.terminated && w.pauseLock == Free
    ensures OwnSteps(w, 4, more, work, w.(pc := Working, idle := false, pauseWake := false))
  {
    var w2 := w.(pc := LoopTest, idle := false, pauseWake := false);
    OwnTwo(w, more, work, w.(pc := WokenPause, pauseWake := false, pauseLock := WorkerThread));
    GoesRound(w2, more, work);
    OwnStepsOn(w, 2, more, work, w2, 2, w.(pc := Working, idle := false, pauseWake := false));
  }

  /** A terminated worker leaves its loop and announces its death. */
  lemma Finishes(w: Worker, more: bool, work: bool)
    requires w.pc.LoopTest? && w.terminated
    ensures OwnSteps(w, 2, more, work, w.(pc := Finished, deaths := w.deaths + 1))
  {
    OwnTwo(w, more, work, w.(pc := Finalizing));
  }

  // ----- Why the worker leaves its waits -----

  /** Every run: a worker that looked for work under `isWorkLock` is back in its loop only for one of four reasons. */
  lemma LeavesWaitBecause(states: seq<State>, actions: seq<Action>, i: nat)
    requires Run(states, actions) && i < |actions|
    requires WorkerHoldsWork(states[i].w.pc) && !WorkerHoldsWork(states[i + 1].w.pc)
    ensures actions[i].RunWorker?
    ensures var w := states[i].w;
            if states[i + 1].w.pc.SleepWork? then w.pc.NotPaused? && states[i + 1].w.waiting
            else
              && states[i + 1].w.pc.LoopTest?
              && (|| (w.pc.HoldWork? && actions[i].work) || (w.pc.FoundNoWork? && w.terminated)
                  || (w.pc.NotTerminated? && w.paused) || w.pc.WokenWork?)
  {
    RunKeepsInv(states, actions, i);
    if actions[i].RunWorker? {
      LeavesBecause(states[i].w, actions[i].more, actions[i].work);
    } else {
      OnlyTheWorkerMoves(states[i], actions[i]);
    }
  }

  lemma LeavesBecause(w: Worker, more: bool, work: bool)
    requires w.pc.HoldWork? || w.pc.FoundNoWork? || w.pc.NotTerminated? || w.pc.NotPaused? || w.pc.WokenWork?
    ensures var w' := WorkerStep(w, more, work);
            !WorkerHoldsWork(w'.pc) ==>
              if w'.pc.SleepWork? then w.pc.NotPaused? && w'.waiting
              else
                && w'.pc.LoopTest?
                && (|| (w.pc.HoldWork? && work) || (w.pc.FoundNoWork? && w.terminated)
                    || (w.pc.NotTerminated? && w.paused) || w.pc.WokenWork?)
  {
  }

  lemma EarlyPauseLeavesPc(w: Worker, pc: ClientPc, c: nat)
    requires pc.PauseRead? || pc.PauseWant? || pc.PauseHold? || pc.PauseChecked?
    requires CallEnabled(w, pc)
    ensures PauseCallStep(w, pc, c).worker.pc == w.pc
  {
  }

  lemma PauseSignalLeavesPc(w: Worker, pc: ClientPc, c: nat)
    requires pc.PauseSignalWant? || pc.PauseSignalHold?
    requires CallEnabled(w, pc)
    ensures PauseCallStep(w, pc, c).worker.pc == w.pc
  {
  }

  lemma LatePauseLeavesPc(w: Worker, pc: ClientPc, c: nat)
    requires pc.PauseTest? || pc.PauseSleep? || pc.PauseRelease?
    requires CallEnabled(w, pc)
    ensures PauseCallStep(w, pc, c).worker.pc == w.pc
  {
  }

  lemma ResumeLeavesPc(w: Worker, pc: ClientPc, c: nat)
    requires pc.ResumeRead? || pc.ResumeWant? || pc.ResumeHold?
    requires CallEnabled(w, pc)
    ensures WakeCallStep(w, pc, c).worker.pc == w.pc
  {
  }

  lemma SignalLeavesPc(w: Worker, pc: ClientPc, c: nat)
    requires pc.SignalWant? || pc.SignalHold?
    requires CallEnabled(w, pc)
    ensures WakeCallStep(w, pc, c).worker.pc == w.pc
  {
  }

  lemma StartLeavesPc(w: Worker, pc: ClientPc, c: nat)
    requires pc.StartRead? || pc.StartReadAgain? || pc.StartWant? || pc.StartHold?
    requires CallEnabled(w, pc)
    ensures StartCallStep(w, pc, c).worker.pc == w.pc
  {
  }

  lemma StopLeavesPc(w: Worker, pc: ClientPc, c: nat)
    requires pc.StopSet? || pc.StopRead? || pc.StopWant? || pc.StopHold?
    requires CallEnabled(w, pc)
    ensures StopCallStep(w, pc, c).worker.pc == w.pc
  {
  }

  lemma StopEndLeavesPc(w: Worker, pc: ClientPc, c: nat)
    requires pc.StopIdleWant? || pc.StopIdleHold? || pc.NeverWant? || pc.NeverHold? || pc.NeverDead?
    requires CallEnabled(w, pc)
    ensures StopCallStep(w, pc, c).worker.pc == w.pc
  {
  }

  lemma CallLeavesPc(w: Worker, pc: ClientPc, c: nat)
    requires CallEnabled(w, pc) && !pc.StartGo?
    ensures CallStep(w, pc, c).worker.pc == w.pc
  {
    if PauseCall(pc) {
      if pc.PauseRead? || pc.PauseWant? || pc.PauseHold? || pc.PauseChecked? {
        EarlyPauseLeavesPc(w, pc, c);
      } else if pc.PauseSignalWant? || pc.PauseSignalHold? {
        PauseSignalLeavesPc(w, pc, c);
      } else {
        LatePauseLeavesPc(w, pc, c);
      }
    } else if WakeCall(pc) {
      if pc.SignalWant? || pc.SignalHold? {
        SignalLeavesPc(w, pc, c);
      } else {
        ResumeLeavesPc(w, pc, c);
      }
    } else if StartCall(pc) {
      StartLeavesPc(w, pc, c);
    } else if pc.StopSet? || pc.StopRead? || pc.StopWant? || pc.StopHold? {
      StopLeavesPc(w, pc, c);
    } else {
      StopEndLeavesPc(w, pc, c);
    }
  }

  /** Calls made on a worker do not move it, except that `start` starts it. */
  lemma OnlyTheWorkerMoves(s: State, a: Action)
    requires Enabled(s, a) && !a.RunWorker? && Inv(s) && s.w.started
    ensures Apply(s, a).w.pc == s.w.pc
  {
    if a.Proceed? {
      var pc := s.threads[a.c].pc;
      assert StartsFirst(s.w, s.threads[a.c], View(Stop(s)));
      CallLeavesPc(s.w, pc, a.c);
    }
  }

  /** A worker that is back from its wait for work has slept in it. */
  lemma {:induction false} WokenAfterSleep(states: seq<State>, actions: seq<Action>, i: nat)
    requires Run(states, actions) && i < |states| && states[i].w.pc.WokenWork?
    ensures exists j :: 0 <= j < i && states[j].w.pc.SleepWork? && states[j].w.waiting
  {
    if i > 0 {
      RunKeepsInv(states, actions, i - 1);
      if actions[i - 1].RunWorker? {
        ComesFromSleep(states[i - 1].w, actions[i - 1].more, actions[i - 1].work);
        assert states[i - 1].w.pc.SleepWork? && states[i - 1].w.waiting;
      } else {
        StaysOrStarts(states[i - 1], actions[i - 1]);
        WokenAfterSleep(states, actions, i - 1);
      }
    }
  }

  lemma ComesFromSleep(w: Worker, more: bool, work: bool)
    requires WorkerEnabled(w) && WorkerStep(w, more, work).pc.WokenWork?
    ensures w.pc.SleepWork?
  {
    if PausePhase(w.pc) {
      PauseStaysOut(w);
    } else if WorkPhase(w.pc) {
      OnlySleepWakes(w, more, work);
    } else {
      LoopStaysOut(w);
    }
  }

  lemma PauseStaysOut(w: Worker)
    requires w.pc.WantPause? || w.pc.HoldPause? || w.pc.GoingIdle? || w.pc.SleepPause? || w.pc.WokenPause?
    ensures !PauseStep(w).pc.WokenWork?
  {
  }

  lemma OnlySleepWakes(w: Worker, more: bool, work: bool)
    requires || w.pc.Working? || w.pc.WantWork? || w.pc.HoldWork? || w.pc.FoundNoWork? || w.pc.NotTerminated?
             || w.pc.NotPaused? || w.pc.SleepWork? || w.pc.WokenWork?
    ensures WorkStep(w, more, work).pc.WokenWork? ==> w.pc.SleepWork?
  {
  }

  lemma LoopStaysOut(w: Worker)
    requires w.pc.Initializing? || w.pc.Top? || w.pc.LoopTest? || w.pc.Finalizing?
    ensures !LoopStep(w).pc.WokenWork?
  {
  }

  lemma StaysOrStarts(s: State, a: Action)
    requires Enabled(s, a) && !a.RunWorker? && Inv(s)
    ensures Apply(s, a).w.pc == s.w.pc || Apply(s, a).w.pc.Initializing?
  {
    if a.Proceed? && !s.threads[a.c].pc.StartGo? {
      var pc := s.threads[a.c].pc;
      CallLeavesPc(s.w, pc, a.c);
    }
  }

  // ----- Calls that are left alone -----

  /** `n` steps of a call by client `c` lead from `pc` to `pc'`, and the worker from `w` to `w'`. */
  ghost predicate CallSteps(w: Worker, pc: ClientPc, c: nat, n: nat, w': Worker, pc': ClientPc)
    decreases n
  {
    if n == 0 then w' == w && pc' == pc
    else CallEnabled(w, pc) && CallSteps(CallStep(w, pc, c).worker, CallStep(w, pc, c).pc, c, n - 1, w', pc')
  }

  lemma {:induction false} CallStepsOn(
      w: Worker, pc: ClientPc, c: nat, n: nat, w1: Worker, pc1: ClientPc, m: nat, w2: Worker, pc2: ClientPc)
    requires CallSteps(w, pc, c, n, w1, pc1) && CallSteps(w1, pc1, c, m, w2, pc2)
    ensures CallSteps(w, pc, c, n + m, w2, pc2)
    decreases n
  {
    if n > 0 {
      CallStepsOn(CallStep(w, pc, c).worker, CallStep(w, pc, c).pc, c, n - 1, w1, pc1, m, w2, pc2);
    }
  }

  lemma CallOne(w: Worker, pc: ClientPc, c: nat)
    requires CallEnabled(w, pc)
    ensures CallSteps(w, pc, c, 1, CallStep(w, pc, c).worker, CallStep(w, pc, c).pc)
  {
    var call := CallStep(w, pc, c);
    assert CallSteps(call.worker, call.pc, c, 0, call.worker, call.pc);
  }

  lemma CallTwo(w: Worker, pc: ClientPc, c: nat, w1: Worker, pc1: ClientPc)
    requires CallEnabled(w, pc) && CallStep(w, pc, c) == Call(w1, pc1) && CallEnabled(w1, pc1)
    ensures CallSteps(w, pc, c, 2, CallStep(w1, pc1, c).worker, CallStep(w1, pc1, c).pc)
  {
    CallOne(w, pc, c);
    CallOne(w1, pc1, c);
    CallStepsOn(w, pc, c, 1, w1, pc1, 1, CallStep(w1, pc1, c).worker, CallStep(w1, pc1, c).pc);
  }

  /** `start` starts a worker that is neither started nor terminated. */
  lemma StartStarts(w: Worker, c: nat)
    requires !w.started && !w.terminated && w.startLock == Free
    ensures CallSteps(w, StartRead, c, 5, w.(started := true, pc := Initializing), Returned)
  {
    var held := w.(startLock := Client(c));
    CallTwo(w, StartRead, c, w, StartReadAgain);
    CallTwo(w, StartWant, c, held, StartHold);
    CallStepsOn(w, StartRead, c, 2, w, StartWant, 2, held, StartGo);
    CallOne(held, StartGo, c);
    CallStepsOn(w, StartRead, c, 4, held, StartGo, 1, w.(started := true, pc := Initializing), Returned);
  }

  /** `signal` wakes a worker that sleeps for work. */
  lemma SignalWakes(w: Worker, c: nat)
    requires w.workLock == Free
    ensures CallSteps(w, SignalWant(false), c, 2, SignalWork(w), Returned)
  {
    CallTwo(w, SignalWant(false), c, w.(workLock := Client(c)), SignalHold(false));
    assert SignalWork(w.(workLock := Client(c))).(workLock := Free) == SignalWork(w);
  }

  /** `resume` resumes a paused worker, and wakes one that sleeps in its pause. */
  lemma ResumeResumes(w: Worker, c: nat, inStop: bool)
    requires w.paused && w.pauseLock == Free
    ensures CallSteps(w, ResumeRead(inStop), c, 3,
                      w.(paused := false, pauseWake := w.pauseWake || w.pc.SleepPause?), AfterResume(inStop))
  {
    var held := w.(pauseLock := Client(c));
    CallTwo(w, ResumeRead(inStop), c, w, ResumeWant(inStop));
    CallOne(held, ResumeHold(inStop), c);
    CallStepsOn(w, ResumeRead(inStop), c, 2, held, ResumeHold(inStop), 1,
                w.(paused := false, pauseWake := w.pauseWake || w.pc.SleepPause?), AfterResume(inStop));
  }

  /** `pause` marks the worker paused and wakes it if it waits for work. */
  lemma PauseMarks(w: Worker, c: nat, block: bool)
    requires !w.paused && !w.terminated && w.pauseLock == Free && w.workLock == Free
    ensures CallSteps(w, PauseRead(block), c, 6,
                      SignalWork(w).(paused := true, pauseLock := Client(c)), PauseTest(block))
  {
    var held := w.(pauseLock := Client(c));
    var marked := w.(pauseLock := Client(c), paused := true);
    var after := SignalWork(w).(paused := true, pauseLock := Client(c));
    CallTwo(w, PauseRead(block), c, w, PauseWant(block));
    CallTwo(held, PauseHold(block), c, held, PauseChecked(block));
    CallStepsOn(w, PauseRead(block), c, 2, held, PauseHold(block), 2, marked, PauseSignalWant(block));
    CallTwo(marked, PauseSignalWant(block), c, marked.(workLock := Client(c)), PauseSignalHold(block));
    assert SignalWork(marked.(workLock := Client(c))).(workLock := Free) == after;
    CallStepsOn(w, PauseRead(block), c, 4, marked, PauseSignalWant(block), 2, after, PauseTest(block));
  }

  /** The blocking form waits for a worker that is not idle, the other returns. */
  lemma PauseWaitsOrReturns(w: Worker, c: nat, block: bool)
    requires w.pauseLock == Client(c)
    ensures if block && !w.idle && w.started
            then CallSteps(w, PauseTest(block), c, 1,
                           w.(pauseLock := Free, idleSleepers := w.idleSleepers + 1), PauseSleep)
            else CallSteps(w, PauseTest(block), c, 2, w.(pauseLock := Free), Returned)
  {
    if block && !w.idle && w.started {
      CallOne(w, PauseTest(block), c);
    } else {
      CallTwo(w, PauseTest(block), c, w, PauseRelease);
    }
  }

  lemma StopSignals(w: Worker, c: nat)
    requires w.workLock == Free
    ensures CallSteps(w, SignalWant(true), c, 2, SignalWork(w), StopIdleWant)
  {
    CallTwo(w, SignalWant(true), c, w.(workLock := Client(c)), SignalHold(true));
    assert SignalWork(w.(workLock := Client(c))).(workLock := Free) == SignalWork(w);
  }

  lemma StopReleasesPauser(w: Worker, c: nat)
    requires w.pauseLock == Free
    ensures CallSteps(w, StopIdleWant, c, 2, SignalIdle(w).(idle := false), Returned)
  {
    CallTwo(w, StopIdleWant, c, w.(pauseLock := Client(c)), StopIdleHold);
    assert SignalIdle(w.(pauseLock := Client(c))).(idle := false, pauseLock := Free) == SignalIdle(w).(idle := false);
  }

  lemma StopReleases(w: Worker, c: nat, w': Worker)
    requires w.pauseLock == Free && w.workLock == Free && w' == SignalIdle(SignalWork(w)).(idle := false)
    ensures CallSteps(w, SignalWant(true), c, 4, w', Returned)
  {
    var w2 := SignalWork(w);
    StopSignals(w, c);
    StopReleasesPauser(w2, c);
    CallStepsOn(w, SignalWant(true), c, 2, w2, StopIdleWant, 2, w', Returned);
  }

  lemma StopBegins(w: Worker, c: nat)
    ensures CallSteps(w, StopSet, c, 2, w.(terminated := true), if w.started then ResumeRead(true) else StopWant)
  {
    CallTwo(w, StopSet, c, w.(terminated := true), StopRead);
  }

  /** The worker once `stop` has resumed it. */
  function ResumedByStop(w: Worker): Worker {
    w.(terminated := true, paused := false, pauseWake := w.pauseWake || (w.paused && w.pc.SleepPause?))
  }

  lemma StopResumes(w: Worker, c: nat)
    requires w.started && w.pauseLock == Free
    ensures CallSteps(w, StopSet, c, if w.paused then 5 else 3, ResumedByStop(w), SignalWant(true))
  {
    var w1, w2 := w.(terminated := true), ResumedByStop(w);
    StopBegins(w, c);
    if w.paused {
      ResumeResumes(w1, c, true);
      CallStepsOn(w, StopSet, c, 2, w1, ResumeRead(true), 3, w2, SignalWant(true));
    } else {
      CallOne(w1, ResumeRead(true), c);
      assert w2 == w1;
      CallStepsOn(w, StopSet, c, 2, w1, ResumeRead(true), 1, w2, SignalWant(true));
    }
  }

  /** `stop` on a worker that has been started: it is resumed and signalled, and one pauser is released. */
  lemma StopStops(w: Worker, c: nat, w': Worker)
    requires w.started && w.pauseLock == Free && w.workLock == Free
    requires w' == SignalIdle(SignalWork(ResumedByStop(w))).(idle := false)
    ensures CallSteps(w, StopSet, c, if w.paused then 9 else 7, w', Returned)
  {
    StopResumes(w, c);
    StopGoesOn(w, c, if w.paused then 5 else 3, ResumedByStop(w), w');
  }

  lemma StopGoesOn(w: Worker, c: nat, n: nat, w2: Worker, w': Worker)
    requires CallSteps(w, StopSet, c, n, w2, SignalWant(true)) && w2.pauseLock == Free && w2.workLock == Free
    requires w' == SignalIdle(SignalWork(w2)).(idle := false)
    ensures CallSteps(w, StopSet, c, n + 4, w', Returned)
  {
    assert CallSteps(w2, SignalWant(true), c, 4, w', Returned) by {
      StopReleases(w2, c, w');
    }
    CallStepsOn(w, StopSet, c, n, w2, SignalWant(true), 4, w', Returned);
  }

  lemma StopFindsUnstarted(w: Worker, c: nat)
    requires !w.started && w.startLock == Free
    ensures CallSteps(w, StopSet, c, 4, w.(terminated := true), NeverWant)
  {
    var w1 := w.(terminated := true);
    StopBegins(w, c);
    CallTwo(w1, StopWant, c, w1.(startLock := Client(c)), StopHold);
    CallStepsOn(w, StopSet, c, 2, w1, StopWant, 2, w1, NeverWant);
  }

  lemma StopUnmarks(w: Worker, c: nat)
    requires w.pauseLock == Free
    ensures CallSteps(w, NeverWant, c, 2, SignalIdle(w).(paused := false, idle := false), NeverDead)
  {
    CallTwo(w, NeverWant, c, w.(pauseLock := Client(c)), NeverHold);
    assert SignalIdle(w.(pauseLock := Client(c))).(paused := false, idle := false, pauseLock := Free)
        == SignalIdle(w).(paused := false, idle := false);
  }

  /** `stop` on one that has not: it is unmarked, a pauser is released, and its death is announced for it. */
  lemma StopUnstartedDies(w: Worker, c: nat, w': Worker)
    requires !w.started && w.pauseLock == Free && w.startLock == Free
    requires w' == SignalIdle(w.(terminated := true)).(paused := false, idle := false)
    ensures CallSteps(w, StopSet, c, 7, w'.(deaths := w'.deaths + 1), NeverReturned)
  {
    var w1 := w.(terminated := true);
    StopFindsUnstarted(w, c);
    StopUnmarks(w1, c);
    CallStepsOn(w, StopSet, c, 4, w1, NeverWant, 2, w', NeverDead);
    CallOne(w', NeverDead, c);
    CallStepsOn(w, StopSet, c, 6, w', NeverDead, 1, w'.(deaths := w'.deaths + 1), NeverReturned);
  }

  // ----- Calls with nothing to do -----

  /** `start` leaves a worker alone that is started or terminated. */
  lemma StartRefuses(w: Worker, c: nat)
    requires w.started || w.terminated
    ensures CallSteps(w, StartRead, c, if w.started then 1 else 2, w, Returned)
  {
    if w.started {
      CallOne(w, StartRead, c);
    } else {
      CallTwo(w, StartRead, c, w, StartReadAgain);
    }
  }

  /** So does `pause` a terminated one, and `resume` one that is not paused. */
  lemma NothingToPauseOrResume(w: Worker, c: nat, block: bool)
    ensures w.terminated ==> CallSteps(w, PauseRead(block), c, 1, w, Returned)
    ensures !w.paused ==> CallSteps(w, ResumeRead(false), c, 1, w, Returned)
  {
    CallOne(w, PauseRead(block), c);
    CallOne(w, ResumeRead(false), c);
  }

  /** A worker that is paused already is not signalled again; the call only looks whether it is idle. */
  lemma PausesOnce(w: Worker, c: nat, block: bool)
    requires w.paused && !w.terminated && w.pauseLock == Free
    ensures CallSteps(w, PauseRead(block), c, 4, w.(pauseLock := Client(c)), PauseTest(block))
  {
    var held := w.(pauseLock := Client(c));
    CallTwo(w, PauseRead(block), c, w, PauseWant(block));
    CallTwo(held, PauseHold(block), c, held, PauseChecked(block));
    CallStepsOn(w, PauseRead(block), c, 2, held, PauseHold(block), 2, held, PauseTest(block));
  }

  // ----- A worker that waits for work -----

  /** Thread 1 starts the worker, which finds nothing to do; then thread 2 publishes an entry and signals it. */
  function WaitingState(i: nat): State
    requires i <= 20
  {
    var idle := Worker(NotRunning, false, false, false, false, false, Free, Free, Free, false, false, 0, 0, 0);
    var up := idle.(pc := Initializing, started := true);
    var asleep := up.(pc := SleepWork, waiting := true);
    var (w, t1, t2, published) :=
      match i
      case 0 => (idle, StartRead, Producing, 0)
      case 1 => (idle, StartReadAgain, Producing, 0)
      case 2 => (idle, StartWant, Producing, 0)
      case 3 => (idle.(startLock := Client(1)), StartHold, Producing, 0)
      case 4 => (idle.(startLock := Client(1)), StartGo, Producing, 0)
      case 5 => (up, Returned, Producing, 0)
      case 6 => (up.(pc := Top), Returned, Producing, 0)
      case 7 => (up.(pc := Working), Returned, Producing, 0)
      case 8 => (up.(pc := WantWork), Returned, Producing, 0)
      case 9 => (up.(pc := HoldWork, workLock := WorkerThread), Returned, Producing, 0)
      case 10 => (up.(pc := FoundNoWork, workLock := WorkerThread), Returned, Producing, 0)
      case 11 => (up.(pc := NotTerminated, workLock := WorkerThread), Returned, Producing, 0)
      case 12 => (up.(pc := NotPaused, workLock := WorkerThread), Returned, Producing, 0)
      case 13 => (asleep, Returned, Producing, 0)
      case 14 => (asleep, Returned, Calling(SignalWant(false)), 1)
      case 15 => (asleep.(workLock := Client(2)), Returned, Calling(SignalHold(false)), 1)
      case 16 => (asleep.(workWake := true), Returned, Calling(Returned), 1)
      case 17 => (asleep.(pc := WokenWork, workLock := WorkerThread), Returned, Calling(Returned), 1)
      case 18 => (up.(pc := LoopTest), Returned, Calling(Returned), 1)
      case 19 => (up.(pc := Top), Returned, Calling(Returned), 1)
      case _ => (up.(pc := Working), Returned, Calling(Returned), 1);
    State(w, [Calling(StopSet), Calling(t1), t2], published, 0)
  }

  function WaitingAction(i: nat): Action {
    if i < 5 then Proceed(1)
    else if i == 13 then Publish(2)
    else if i == 14 || i == 15 then Proceed(2)
    else RunWorker(false, 0, i > 15)
  }

  lemma WaiterStarts(i: nat)
    requires i < 8
    ensures var s, a := WaitingState(i), WaitingAction(i); Enabled(s, a) && WaitingState(i + 1) == Apply(s, a)
  {
  }

  lemma WaiterWaits(i: nat)
    requires 8 <= i < 13
    ensures var s, a := WaitingState(i), WaitingAction(i); Enabled(s, a) && WaitingState(i + 1) == Apply(s, a)
  {
  }

  lemma WaiterIsWoken(i: nat)
    requires 13 <= i < 20
    ensures var s, a := WaitingState(i), WaitingAction(i); Enabled(s, a) && WaitingState(i + 1) == Apply(s, a)
  {
  }

  /** The worker does go to sleep, and the producer's signal does bring it back to work. */
  lemma WorkerWaitsAndIsWoken() returns (states: seq<State>, actions: seq<Action>)
    ensures Run(states, actions) && |actions| == 20
    ensures states[13].w.pc.SleepWork? && states[13].w.waiting && !states[13].w.workWake
    ensures states[16].w.pc.SleepWork? && states[16].w.workWake
    ensures states[20].w.pc.Working? && states[20].num < states[20].published
  {
    states := seq(21, i requires 0 <= i < 21 => WaitingState(i));
    actions := seq(20, i requires 0 <= i < 20 => WaitingAction(i));
    forall i {:trigger actions[i]} | 0 <= i < 20
      ensures Enabled(states[i], actions[i]) && states[i + 1] == Apply(states[i], actions[i])
    {
      if i < 8 {
        WaiterStarts(i);
      } else if i < 13 {
        WaiterWaits(i);
      } else {
        WaiterIsWoken(i);
      }
    }
  }

  // ----- Two threads in `pause(true)` -----

  /** A worker started by thread 1 and two threads about to call `pause(true)`, one of them after the other. */
  function PausersState(i: nat): State
    requires i <= 22
  {
    var idle := Worker(NotRunning, false, false, false, false, false, Free, Free, Free, false, false, 0, 0, 0);
    var up := idle.(pc := Initializing, started := true);
    var paused := up.(paused := true);
    var both := paused.(idleSleepers := 2);
    var entering := PauseRead(true);
    var (w, t1, t2, t3) :=
      match i
      case 0 => (idle, StartRead, entering, entering)
      case 1 => (idle, StartReadAgain, entering, entering)
      case 2 => (idle, StartWant, entering, entering)
      case 3 => (idle.(startLock := Client(1)), StartHold, entering, entering)
      case 4 => (idle.(startLock := Client(1)), StartGo, entering, entering)
      case 5 => (up, Returned, entering, entering)
      case 6 => (up, Returned, PauseWant(true), entering)
      case 7 => (up.(pauseLock := Client(2)), Returned, PauseHold(true), entering)
      case 8 => (up.(pauseLock := Client(2)), Returned, PauseChecked(true), entering)
      case 9 => (paused.(pauseLock := Client(2)), Returned, PauseSignalWant(true), entering)
      case 10 => (paused.(pauseLock := Client(2), workLock := Client(2)), Returned, PauseSignalHold(true), entering)
      case 11 => (paused.(pauseLock := Client(2)), Returned, PauseTest(true), entering)
      case 12 => (paused.(idleSleepers := 1), Returned, PauseSleep, entering)
      case 13 => (paused.(idleSleepers := 1), Returned, PauseSleep, PauseWant(true))
      case 14 => (paused.(idleSleepers := 1, pauseLock := Client(3)), Returned, PauseSleep, PauseHold(true))
      case 15 => (paused.(idleSleepers := 1, pauseLock := Client(3)), Returned, PauseSleep, PauseChecked(true))
      case 16 => (paused.(idleSleepers := 1, pauseLock := Client(3)), Returned, PauseSleep, PauseTest(true))
      case 17 => (paused.(idleSleepers := 2), Returned, PauseSleep, PauseSleep)
      case 18 => (paused.(idleSleepers := 2, pc := Top), Returned, PauseSleep, PauseSleep)
      case 19 => (paused.(idleSleepers := 2, pc := WantPause), Returned, PauseSleep, PauseSleep)
      case 20 => (both.(pc := HoldPause, pauseLock := WorkerThread), Returned, PauseSleep, PauseSleep)
      case 21 => (both.(pc := GoingIdle, pauseLock := WorkerThread), Returned, PauseSleep, PauseSleep)
      case _ =>
        var asleep := paused.(idleSleepers := 1, idleTokens := 1, pc := SleepPause, idle := true);
        (asleep, Returned, PauseSleep, PauseSleep);
    State(w, [Calling(StopSet), Calling(t1), Calling(t2), Calling(t3)], 0, 0)
  }

  function PausersAction(i: nat): Action {
    if i < 17 then Proceed(if i < 5 then 1 else if i < 12 then 2 else 3) else RunWorker(false, 0, false)
  }

  lemma StarterStep(i: nat)
    requires i < 5
    ensures var s, a := PausersState(i), PausersAction(i); Enabled(s, a) && PausersState(i + 1) == Apply(s, a)
  {
  }

  lemma FirstPauserStep(i: nat)
    requires 5 <= i < 12
    ensures var s, a := PausersState(i), PausersAction(i); Enabled(s, a) && PausersState(i + 1) == Apply(s, a)
  {
  }

  lemma SecondPauserStep(i: nat)
    requires 12 <= i < 17
    ensures var s, a := PausersState(i), PausersAction(i); Enabled(s, a) && PausersState(i + 1) == Apply(s, a)
  {
  }

  lemma WorkerGoesIdle(i: nat)
    requires 17 <= i < 22
    ensures var s, a := PausersState(i), PausersAction(i); Enabled(s, a) && PausersState(i + 1) == Apply(s, a)
  {
  }

  lemma PausersStep(i: nat)
    requires i < 22
    ensures var s, a := PausersState(i), PausersAction(i); Enabled(s, a) && PausersState(i + 1) == Apply(s, a)
  {
    if i < 5 {
      StarterStep(i);
    } else if i < 12 {
      FirstPauserStep(i);
    } else if i < 17 {
      SecondPauserStep(i);
    } else {
      WorkerGoesIdle(i);
    }
  }

  /** Both wait, the worker goes idle and gives one signal: one of them sleeps on beside an idle worker. */
  lemma SecondPauserCanBeLeft() returns (states: seq<State>, actions: seq<Action>)
    ensures Run(states, actions) && |actions| == 22
    ensures var s := states[22];
            && s.threads == [Calling(StopSet), Calling(Returned), Calling(PauseSleep), Calling(PauseSleep)]
            && s.w.idle && s.w.pc.SleepPause? && s.w.idleTokens == 1 && s.w.idleSleepers == 1
  {
    states := seq(23, i requires 0 <= i < 23 => PausersState(i));
    actions := seq(22, i requires 0 <= i < 22 => PausersAction(i));
    forall i {:trigger actions[i]} | 0 <= i < 22
      ensures Enabled(states[i], actions[i]) && states[i + 1] == Apply(states[i], actions[i])
    {
      PausersStep(i);
    }
  }

  /** From the state where both wait: `stop` is called, and the worker leaves its loop without going idle. */
  function StopState(i: nat): State
    requires 17 <= i <= 31
  {
    var w := Worker(Initializing, true, true, false, true, false, Free, Free, Free, false, false, 2, 0, 0);
    var up := w.(paused := false);
    var left := up.(idleSleepers := 1, idleTokens := 1);
    var (w', pc) :=
      match i
      case 17 => (w.(terminated := false), StopSet)
      case 18 => (w, StopRead)
      case 19 => (w, ResumeRead(true))
      case 20 => (w, ResumeWant(true))
      case 21 => (w.(pauseLock := Client(0)), ResumeHold(true))
      case 22 => (up, SignalWant(true))
      case 23 => (up.(workLock := Client(0)), SignalHold(true))
      case 24 => (up, StopIdleWant)
      case 25 => (up.(pauseLock := Client(0)), StopIdleHold)
      case 26 => (left, Returned)
      case 27 => (left.(pc := Top), Returned)
      case 28 => (left.(pc := Working), Returned)
      case 29 => (left.(pc := LoopTest), Returned)
      case 30 => (left.(pc := Finalizing), Returned)
      case _ => (left.(pc := Finished, deaths := 1), Returned);
    State(w', [Calling(pc), Calling(Returned), Calling(PauseSleep), Calling(PauseSleep)], 0, 0)
  }

  function StopAction(i: nat): Action {
    if i < 26 then Proceed(0) else RunWorker(true, 0, true)
  }

  lemma StopperStep(i: nat)
    requires 17 <= i < 26
    ensures var s, a := StopState(i), StopAction(i); Enabled(s, a) && StopState(i + 1) == Apply(s, a)
  {
  }

  lemma WorkerFinishes(i: nat)
    requires 26 <= i < 31
    ensures var s, a := StopState(i), StopAction(i); Enabled(s, a) && StopState(i + 1) == Apply(s, a)
  {
  }

  /** `stop` gives one signal as well: one of the two sleeps on beside a finished worker. */
  lemma SecondPauserCanBeLeftByStop() returns (states: seq<State>, actions: seq<Action>)
    ensures Run(states, actions) && |actions| == 31
    ensures var s := states[31];
            && s.threads == [Calling(Returned), Calling(Returned), Calling(PauseSleep), Calling(PauseSleep)]
            && s.w.pc.Finished? && s.w.idleTokens == 1 && s.w.idleSleepers == 1
  {
    states := seq(32, i requires 0 <= i < 32 => if i < 17 then PausersState(i) else StopState(i));
    actions := seq(31, i requires 0 <= i < 31 => if i < 17 then PausersAction(i) else StopAction(i));
    assert StopState(17) == PausersState(17);
    assert states[31] == StopState(31);
    forall i {:trigger actions[i]} | 0 <= i < 31
      ensures Enabled(states[i], actions[i]) && states[i + 1] == Apply(states[i], actions[i])
    {
      if i < 17 {
        PausersStep(i);
      } else if i < 26 {
        StopperStep(i);
      } else {
        WorkerFinishes(i);
      }
    }
  }
}
