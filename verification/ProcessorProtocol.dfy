/**
 Any number of threads pausing and resuming a running processor and signalling its workers
 (`QueueProcessor::pause`, `resume`, `broadcast`), while the workers run: which pauses keep the workers out of
 `doWork`, and that no thread is left asleep in a pause.

 What is done under `startLock` alone is one step; the calls made on each worker take the steps of `WorkerModel`.
 `workerLock` only keeps `broadcast` apart from the loops of `pause` and `resume`; here they may overlap.
 */
module ProcessorProtocol {
  import opened WorkerModel

  /** Where a thread is: outside, in a call of `pause`, in between, or in a call of `resume`. */
  datatype Client =
    | Outside
    | PauseEnter(block: bool)
    | PauseDecide(block: bool)
    | PauseEach(block: bool, k: nat, call: ClientPc) // pause(false) on worker k
    | AwaitEach(k: nat, call: ClientPc)              // pause(true) on worker k
    | PauseEnd(block: bool, outer: bool)
    | Inside
    | ResumeEnter
    | ResumeDecide
    | ResumeEach(k: nat, call: ClientPc)
    | BroadcastEach(k: nat, call: ClientPc)          // signal() on worker k

  /** `waited`: the outermost pause in force waited for the workers. */
  datatype State = State(
    workers: seq<Worker>, clients: seq<Client>, startLock: Owner, isPaused: bool, nested: int, waited: bool)

  datatype Action =
    | RunWorker(k: nat, more: bool, work: bool)
    | Begin(c: nat, block: bool)                     // a call of pause, or of resume by a thread that has paused
    | Announce(c: nat)                               // a call of broadcast
    | Proceed(c: nat)

  ghost predicate Init(s: State) {
    && (forall k :: 0 <= k < |s.workers| ==>
          s.workers[k]
          == Worker(Initializing, true, false, false, false, false, Free, Free, Free, false, false, 0, 0, 0))
    && (forall c :: 0 <= c < |s.clients| ==> s.clients[c] == Outside)
    && s.startLock == Free && !s.isPaused && s.nested == 0 && !s.waited
  }

  /** In a loop over the workers, under `startLock`. */
  predicate InCall(c: Client) {
    c.PauseEach? || c.AwaitEach? || c.ResumeEach?
  }

  /** In any loop over the workers. */
  predicate Loops(c: Client) {
    InCall(c) || c.BroadcastEach?
  }

  predicate Enabled(s: State, a: Action) {
    match a
    case RunWorker(k, _, _) => k < |s.workers| && WorkerEnabled(s.workers[k])
    case Begin(c, _) => c < |s.clients| && (s.clients[c].Outside? || s.clients[c].Inside?)
    case Announce(c) => c < |s.clients| && s.clients[c].Outside?
    case Proceed(c) =>
      && c < |s.clients| && !s.clients[c].Outside? && !s.clients[c].Inside?
      && (s.clients[c].PauseEnter? || s.clients[c].ResumeEnter? ==> s.startLock == Free)
      && (Loops(s.clients[c]) && s.clients[c].k < |s.workers| && !s.clients[c].call.Returned? ==>
            CallEnabled(s.workers[s.clients[c].k], s.clients[c].call))
  }

  function Goto(s: State, c: nat, client: Client): State
    requires c < |s.clients|
  {
    s.(clients := s.clients[c := client])
  }

  function Apply(s: State, a: Action): State
    requires Enabled(s, a)
  {
    match a
    case RunWorker(k, more, work) => s.(workers := s.workers[k := WorkerStep(s.workers[k], more, work)])
    case Begin(c, block) => Goto(s, c, if s.clients[c].Outside? then PauseEnter(block) else ResumeEnter)
    case Announce(c) => Goto(s, c, BroadcastEach(0, SignalWant(false)))
    case Proceed(c) => if Loops(s.clients[c]) then Advance(s, c) else Decide(s, c)
  }

  /** The next step of a loop over the workers. */
  function Advance(s: State, c: nat): State
    requires Enabled(s, Proceed(c)) && Loops(s.clients[c])
  {
    var client := s.clients[c];
    if client.k >= |s.workers| then FinishLoop(s, c)
    else if client.call.Returned? then Goto(s, c, NextWorker(client))
    else
      var call := CallStep(s.workers[client.k], client.call, c);
      Goto(s, c, WithCall(client, call.pc)).(workers := s.workers[client.k := call.worker])
  }

  function WithCall(client: Client, call: ClientPc): Client
    requires Loops(client)
  {
    client.(call := call)
  }

  function NextWorker(client: Client): Client
    requires Loops(client)
  {
    match client
    case PauseEach(b, k, _) => PauseEach(b, k + 1, PauseRead(false))
    case AwaitEach(k, _) => AwaitEach(k + 1, PauseRead(true))
    case ResumeEach(k, _) => ResumeEach(k + 1, ResumeRead(false))
    case BroadcastEach(k, _) => BroadcastEach(k + 1, SignalWant(false))
  }

  function FinishLoop(s: State, c: nat): State
    requires c < |s.clients| && Loops(s.clients[c])
  {
    match s.clients[c]
    case PauseEach(b, _, _) => Goto(s, c, if b then AwaitEach(0, PauseRead(true)) else PauseEnd(false, true))
    case AwaitEach(_, _) => Goto(s, c, PauseEnd(true, true))
    case ResumeEach(_, _) => Goto(s, c, Outside).(isPaused := false, startLock := Free)
    case BroadcastEach(_, _) => Goto(s, c, Outside)
  }

  function Decide(s: State, c: nat): State
    requires Enabled(s, Proceed(c)) && !Loops(s.clients[c])
  {
    match s.clients[c]
    case PauseEnter(b) => Goto(s, c, PauseDecide(b)).(startLock := Client(c))
    case PauseDecide(b) => Goto(s, c, if s.isPaused then PauseEnd(b, false) else PauseEach(b, 0, PauseRead(false)))
    case PauseEnd(b, outer) =>
      Goto(s, c, Inside).(isPaused := true, nested := s.nested + 1, startLock := Free,
                          waited := if outer then b else s.waited)
    case ResumeEnter => Goto(s, c, ResumeDecide).(startLock := Client(c))
    case ResumeDecide =>
      if !s.isPaused then Goto(s, c, Outside).(startLock := Free)
      else if s.nested == 1 then Goto(s, c, ResumeEach(0, ResumeRead(false))).(nested := 0)
      else Goto(s, c, Outside).(nested := s.nested - 1, startLock := Free)
  }

  ghost predicate Run(states: seq<State>, actions: seq<Action>) {
    && |states| == |actions| + 1 && Init(states[0])
    && forall i {:trigger actions[i]} :: 0 <= i < |actions| ==>
                     Enabled(states[i], actions[i]) && states[i + 1] == Apply(states[i], actions[i])
  }

  // ----- One worker -----

  /** Paused, and on the way to its pause or in it: it reaches neither `init`, `doWork` nor `isWork` while paused. */
  predicate Quiet(w: Worker) {
    && w.paused
    && (w.pc.Top? || w.pc.WantPause? || w.pc.HoldPause? || w.pc.GoingIdle? || w.pc.SleepPause? || w.pc.WokenPause?
        || w.pc.LoopTest?)
  }

  predicate Sane(w: Worker) {
    && w.started && !w.terminated && !w.pc.NotRunning? && !w.pc.Finalizing? && !w.pc.Finished?
    && (w.idle <==> w.pc.SleepPause? || w.pc.WokenPause?)
    && (w.pauseLock == WorkerThread <==> WorkerHoldsPause(w.pc))
    && (w.pc.GoingIdle? ==> w.paused) && (w.idleTokens > 0 ==> Quiet(w)) && (w.idleSleepers > 0 ==> !w.idle)
    && w.idleSleepers + w.idleTokens <= 1 && (w.pc.SleepPause? && !w.pauseWake ==> w.paused)
    && (w.workLock == WorkerThread <==> WorkerHoldsWork(w.pc)) && (w.waiting <==> w.pc.SleepWork? || w.pc.WokenWork?)
  }

  predicate PauseTaken(call: ClientPc) {
    || call.PauseSignalWant? || call.PauseSignalHold? || call.PauseTest? || call.PauseSleep? || call.PauseRelease?
    || call.Returned?
  }

  predicate PausePc(call: ClientPc) {
    call.PauseRead? || call.PauseWant? || call.PauseHold? || call.PauseChecked? || PauseTaken(call)
  }

  predicate HoldsPause(call: ClientPc) {
    || call.PauseHold? || call.PauseChecked? || call.PauseSignalWant? || call.PauseSignalHold? || call.PauseTest?
    || call.PauseRelease? || call.ResumeHold?
  }

  predicate BlockIs(call: ClientPc, block: bool) {
    if || call.PauseRead? || call.PauseWant? || call.PauseHold? || call.PauseChecked? || call.PauseSignalWant?
       || call.PauseSignalHold? || call.PauseTest?
    then call.block == block
    else call.PauseSleep? ==> block
  }

  /** A client is at `call` in a call of `pause(block)` on the worker. */
  predicate InPause(w: Worker, call: ClientPc, c: nat, block: bool) {
    && PausePc(call) && BlockIs(call, block) && (w.pauseLock == Client(c) <==> HoldsPause(call))
    && (w.pauseLock.Client? ==> w.pauseLock == Client(c))
    && w.idleSleepers + w.idleTokens == (if call.PauseSleep? then 1 else 0)
    && (PauseTaken(call) ==> w.paused)
    && (MayMissPause(w) ==> call.PauseSignalWant? || call.PauseSignalHold?)
    && (block && (call.PauseRelease? || call.Returned?) ==> Quiet(w))
  }

  predicate InResume(w: Worker, call: ClientPc, c: nat) {
    && (call == ResumeRead(false) || call == ResumeWant(false) || call == ResumeHold(false) || call.Returned?)
    && (w.pauseLock == Client(c) <==> call.ResumeHold?) && (w.pauseLock.Client? ==> w.pauseLock == Client(c))
    && w.idleSleepers == w.idleTokens == 0 && !MayMissPause(w) && (call.Returned? ==> !w.paused)
  }

  predicate Untouched(w: Worker) {
    !w.pauseLock.Client? && w.idleSleepers == w.idleTokens == 0 && !MayMissPause(w)
  }

  /** What a step of the worker leaves true, whatever call is being made on it. */
  predicate OwnStep(w: Worker, w': Worker, work: bool) {
    && Sane(w') && w'.paused == w.paused && (Quiet(w) ==> Quiet(w'))
    && (w.pauseLock == w'.pauseLock || (!w.pauseLock.Client? && !w'.pauseLock.Client?))
    && (w.workLock == w'.workLock || (!w.workLock.Client? && !w'.workLock.Client?))
    && w'.idleSleepers + w'.idleTokens == w.idleSleepers + w.idleTokens && (MayMissPause(w') ==> MayMissPause(w))
    && (MayMissWork(w') ==> MayMissWork(w) || (w.pc.HoldWork? && !work)) && !w'.pc.Initializing?
  }

  lemma OwnPauseStep(w: Worker, more: bool, work: bool)
    requires PausePhase(w.pc)
    requires Sane(w) && WorkerEnabled(w)
    ensures OwnStep(w, WorkerStep(w, more, work), work)
  {
  }

  lemma OwnWorkStep(w: Worker, more: bool, work: bool)
    requires w.pc.Working? || w.pc.WantWork? || w.pc.HoldWork? || w.pc.FoundNoWork?
    requires Sane(w) && WorkerEnabled(w)
    ensures OwnStep(w, WorkerStep(w, more, work), work)
  {
  }

  lemma OwnSleepStep(w: Worker, more: bool, work: bool)
    requires w.pc.NotTerminated? || w.pc.NotPaused? || w.pc.SleepWork? || w.pc.WokenWork?
    requires Sane(w) && WorkerEnabled(w)
    ensures OwnStep(w, WorkerStep(w, more, work), work)
  {
  }

  lemma OwnLoopStep(w: Worker, more: bool, work: bool)
    requires w.pc.Initializing? || w.pc.Top? || w.pc.LoopTest?
    requires Sane(w) && WorkerEnabled(w)
    ensures OwnStep(w, WorkerStep(w, more, work), work)
  {
  }

  lemma OwnStepKeeps(w: Worker, more: bool, work: bool)
    requires Sane(w) && WorkerEnabled(w)
    ensures OwnStep(w, WorkerStep(w, more, work), work)
  {
    if PausePhase(w.pc) {
      OwnPauseStep(w, more, work);
    } else if w.pc.NotTerminated? || w.pc.NotPaused? || w.pc.SleepWork? || w.pc.WokenWork? {
      OwnSleepStep(w, more, work);
    } else if WorkPhase(w.pc) {
      OwnWorkStep(w, more, work);
    } else {
      OwnLoopStep(w, more, work);
    }
  }

  /** A call of `pause(block)` ends with the worker paused and, if it blocked, quiet. */
  lemma PauseStepKeeps(w: Worker, call: ClientPc, c: nat, block: bool)
    requires PauseCall(call)
    requires Sane(w) && InPause(w, call, c, block) && CallEnabled(w, call)
    requires w.workLock == Client(c) <==> call.PauseSignalHold?
    ensures var next := CallStep(w, call, c);
            && Sane(next.worker) && InPause(next.worker, next.pc, c, block)
            && (w.paused ==> next.worker.paused) && (Quiet(w) ==> Quiet(next.worker)) && next.worker.pc == w.pc
            && (next.worker.workLock == Client(c) <==> next.pc.PauseSignalHold?) && !next.pc.SignalHold?
            && OnlyBy(w.workLock, next.worker.workLock, c) && (w.workWake ==> next.worker.workWake)
  {
  }

  lemma ResumeStepKeeps(w: Worker, call: ClientPc, c: nat)
    requires call == ResumeRead(false) || call == ResumeWant(false) || call == ResumeHold(false)
    requires Sane(w) && InResume(w, call, c) && CallEnabled(w, call) && w.workLock != Client(c)
    ensures var next := CallStep(w, call, c);
            && Sane(next.worker) && InResume(next.worker, next.pc, c) && next.worker.pc == w.pc
            && next.worker.workLock == w.workLock && next.worker.workWake == w.workWake
  {
  }

  /** A call of `signal` touches nothing but the worker's wait for work. */
  lemma SignalStepKeeps(w: Worker, call: ClientPc, c: nat)
    requires call == SignalWant(false) || call == SignalHold(false)
    requires Sane(w) && CallEnabled(w, call) && (w.workLock == Client(c) <==> call.SignalHold?)
    ensures var next := CallStep(w, call, c);
            && Sane(next.worker) && next.worker.(workLock := w.workLock, workWake := w.workWake) == w
            && (w.workWake ==> next.worker.workWake) && (next.pc == SignalHold(false) || next.pc.Returned?)
            && (next.worker.workLock == Client(c) <==> next.pc.SignalHold?)
            && OnlyBy(w.workLock, next.worker.workLock, c) && (call.SignalHold? ==> !MayMissWork(next.worker))
  {
  }

  // ----- Invariant -----

  predicate HoldsStart(client: Client) {
    client.PauseDecide? || InCall(client) || client.PauseEnd? || client.ResumeDecide?
  }

  /** Between the return of `pause` and the point where `resume` gives it up. */
  predicate Counted(client: Client) {
    client.Inside? || client.ResumeEnter? || client.ResumeDecide?
  }

  function CountInside(clients: seq<Client>): nat {
    if clients == [] then 0 else (if Counted(clients[0]) then 1 else 0) + CountInside(clients[1..])
  }

  lemma {:induction false} CountAfterStep(clients: seq<Client>, c: nat, client: Client)
    requires c < |clients|
    ensures CountInside(clients[c := client])
            == CountInside(clients) - (if Counted(clients[c]) then 1 else 0) + (if Counted(client) then 1 else 0)
  {
    if c == 0 {
      assert clients[c := client][1..] == clients[1..];
    } else {
      CountAfterStep(clients[1..], c - 1, client);
      assert clients[c := client][1..] == clients[1..][c - 1 := client];
    }
  }

  lemma {:induction false} CountPositive(clients: seq<Client>, c: nat)
    requires c < |clients| && Counted(clients[c])
    ensures CountInside(clients) > 0
  {
    if c > 0 {
      CountPositive(clients[1..], c - 1);
    }
  }

  lemma {:induction false} CountZero(clients: seq<Client>)
    requires forall c :: 0 <= c < |clients| ==> !Counted(clients[c])
    ensures CountInside(clients) == 0
  {
    if clients != [] {
      CountZero(clients[1..]);
    }
  }

  /** The thread that holds `startLock`, if any. */
  function Holder(s: State): Client {
    if s.startLock.Client? && s.startLock.c < |s.clients| then s.clients[s.startLock.c] else Outside
  }

  ghost predicate LockInv(s: State) {
    && !s.startLock.WorkerThread? && (s.startLock.Client? ==> s.startLock.c < |s.clients|)
    && forall c :: 0 <= c < |s.clients| ==> (HoldsStart(s.clients[c]) <==> s.startLock == Client(c))
  }

  /** The flag and the counter agree, except while the holder is pausing or resuming the workers. */
  predicate FlagInv(holder: Client, isPaused: bool, nested: int) {
    match holder
    case PauseEach(_, _, _) => !isPaused && nested == 0
    case AwaitEach(_, _) => !isPaused && nested == 0
    case PauseEnd(_, outer) => if outer then !isPaused && nested == 0 else isPaused && nested > 0
    case ResumeEach(_, _) => isPaused && nested == 0
    case _ => isPaused <==> nested > 0
  }

  predicate MustBePaused(holder: Client, k: nat, isPaused: bool) {
    match holder
    case PauseEach(_, j, _) => k < j
    case AwaitEach(_, _) => true
    case PauseEnd(_, _) => true
    case ResumeEach(_, _) => false
    case _ => isPaused
  }

  predicate MustBeQuiet(holder: Client, k: nat, isPaused: bool, waited: bool) {
    match holder
    case PauseEach(_, _, _) => false
    case AwaitEach(j, _) => k < j
    case PauseEnd(b, outer) => if outer then b else waited
    case ResumeEach(_, _) => false
    case _ => isPaused && waited
  }

  /** Nobody has paused the worker since it was last resumed. */
  predicate MustNotBePaused(holder: Client, k: nat, isPaused: bool) {
    match holder
    case PauseEach(_, j, _) => k > j
    case AwaitEach(_, _) => false
    case PauseEnd(_, _) => false
    case ResumeEach(j, _) => k < j
    case _ => !isPaused
  }

  predicate CallInv(w: Worker, k: nat, holder: Client, c: nat) {
    match holder
    case PauseEach(_, j, call) => if k == j then InPause(w, call, c, false) else Untouched(w)
    case AwaitEach(j, call) => if k == j then InPause(w, call, c, true) else Untouched(w)
    case ResumeEach(j, call) => if k == j then InResume(w, call, c) else Untouched(w)
    case _ => Untouched(w)
  }

  predicate WorkerInv(w: Worker, k: nat, holder: Client, owner: Owner, isPaused: bool, waited: bool) {
    && Sane(w) && CallInv(w, k, holder, if owner.Client? then owner.c else 0)
    && (MustBePaused(holder, k, isPaused) ==> w.paused)
    && (MustBeQuiet(holder, k, isPaused, waited) ==> Quiet(w))
    && (MustNotBePaused(holder, k, isPaused) ==> !w.paused)
  }

  /** Inside `signal` on worker `k`, called directly or by `pause`. */
  predicate AtWork(client: Client, k: nat) {
    Loops(client) && client.k == k && (client.call.PauseSignalHold? || client.call.SignalHold?)
  }

  predicate WorkLocked(w: Worker, k: nat, client: Client, c: nat) {
    && (w.workLock == Client(c) <==> AtWork(client, k))
    && (client.BroadcastEach? ==>
          client.call == SignalWant(false) || client.call == SignalHold(false) || client.call.Returned?)
    && (InCall(client) ==> !client.call.SignalHold?)
  }

  ghost predicate WorkLockInv(s: State) {
    forall k, c :: 0 <= k < |s.workers| && 0 <= c < |s.clients| ==> WorkLocked(s.workers[k], k, s.clients[c], c)
  }

  ghost predicate FlagsInv(s: State) {
    LockInv(s) && s.nested == CountInside(s.clients) && FlagInv(Holder(s), s.isPaused, s.nested)
  }

  ghost predicate Inv(s: State) {
    && FlagsInv(s) && WorkLockInv(s)
    && forall k :: 0 <= k < |s.workers| ==> WorkerInv(s.workers[k], k, Holder(s), s.startLock, s.isPaused, s.waited)
  }

  // ----- Steps -----

  lemma RunWorkerKeepsInv(s: State, k: nat, more: bool, work: bool)
    requires Inv(s) && Enabled(s, RunWorker(k, more, work))
    ensures Inv(Apply(s, RunWorker(k, more, work)))
  {
    var w, s' := s.workers[k], Apply(s, RunWorker(k, more, work));
    assert WorkerInv(w, k, Holder(s), s.startLock, s.isPaused, s.waited);
    OwnStepKeeps(w, more, work);
    OwnStepKeepsWorkerInv(w, s'.workers[k], work, k, Holder(s), s.startLock, s.isPaused, s.waited);
    forall j, c | 0 <= j < |s.workers| && 0 <= c < |s.clients|
      ensures WorkLocked(s'.workers[j], j, s.clients[c], c)
    {
      assert WorkLocked(s.workers[j], j, s.clients[c], c);
    }
  }

  lemma OwnStepKeepsWorkerInv(
      w: Worker, w': Worker, work: bool, k: nat, holder: Client, owner: Owner, isPaused: bool, waited: bool)
    requires WorkerInv(w, k, holder, owner, isPaused, waited) && OwnStep(w, w', work)
    ensures WorkerInv(w', k, holder, owner, isPaused, waited)
  {
  }

  /** A client that is not inside `signal` goes on, and the workers do not notice. */
  lemma ClientMoves(s: State, s': State, c: nat, client: Client)
    requires WorkLockInv(s) && c < |s.clients| && s'.workers == s.workers && s'.clients == s.clients[c := client]
    requires forall k :: 0 <= k < |s.workers| ==> !AtWork(s.clients[c], k) && WorkLocked(s'.workers[k], k, client, c)
    ensures WorkLockInv(s')
  {
    forall k, d | 0 <= k < |s'.workers| && 0 <= d < |s'.clients|
      ensures WorkLocked(s'.workers[k], k, s'.clients[d], d)
    {
      assert WorkLocked(s.workers[k], k, s.clients[d], d);
    }
  }

  lemma MovesOutsideSignal(s: State, s': State, c: nat, client: Client)
    requires WorkLockInv(s) && c < |s.clients| && s'.workers == s.workers && s'.clients == s.clients[c := client]
    requires !Loops(s.clients[c]) || s.clients[c].k >= |s.workers| || s.clients[c].call.Returned?
    requires Loops(client) ==> client.call == (if client.BroadcastEach? then SignalWant(false) else client.call)
    requires InCall(client) ==> client.call.PauseRead? || client.call.ResumeRead?
    ensures WorkLockInv(s')
  {
    forall k | 0 <= k < |s.workers|
      ensures !AtWork(s.clients[c], k) && WorkLocked(s'.workers[k], k, client, c)
    {
      assert WorkLocked(s.workers[k], k, s.clients[c], c);
    }
    ClientMoves(s, s', c, client);
  }

  /** A step of a client that neither holds `startLock` nor changes what it counts for. */
  lemma BystanderMoves(s: State, s': State, c: nat, client: Client)
    requires FlagsInv(s) && c < |s.clients| && s'.clients == s.clients[c := client]
    requires s' == s.(workers := s'.workers, clients := s'.clients)
    requires !HoldsStart(s.clients[c]) && !HoldsStart(client) && (Counted(s.clients[c]) <==> Counted(client))
    ensures FlagsInv(s') && Holder(s') == Holder(s)
  {
    CountAfterStep(s.clients, c, client);
  }

  lemma BeginKeepsInv(s: State, a: Action)
    requires Inv(s) && Enabled(s, a) && (a.Begin? || a.Announce?)
    ensures Inv(Apply(s, a))
  {
    var s' := Apply(s, a);
    MovesOutsideSignal(s, s', a.c, s'.clients[a.c]);
    BystanderMoves(s, s', a.c, s'.clients[a.c]);
  }

  /** What a step of a call does to the worker it is made on. */
  ghost predicate CallEffect(w: Worker, w': Worker, c: nat) {
    Sane(w') && w'.pc == w.pc && OnlyBy(w.workLock, w'.workLock, c) && (w.workWake ==> w'.workWake)
  }

  lemma CallKeepsWorkLocks(s: State, c: nat)
    requires WorkLockInv(s) && Enabled(s, Proceed(c)) && Loops(s.clients[c])
    requires s.clients[c].k < |s.workers| && !s.clients[c].call.Returned?
    requires var k, s' := s.clients[c].k, Apply(s, Proceed(c));
             && WorkLocked(s'.workers[k], k, s'.clients[c], c)
             && OnlyBy(s.workers[k].workLock, s'.workers[k].workLock, c)
    ensures WorkLockInv(Apply(s, Proceed(c)))
  {
    var s' := Apply(s, Proceed(c));
    forall k, d | 0 <= k < |s'.workers| && 0 <= d < |s'.clients|
      ensures WorkLocked(s'.workers[k], k, s'.clients[d], d)
    {
      assert WorkLocked(s.workers[k], k, s.clients[d], d) && WorkLocked(s.workers[k], k, s.clients[c], c);
    }
  }

  /** The call being made on a worker by the holder of `startLock` takes a step. */
  lemma CallOnWorker(w: Worker, k: nat, client: Client, c: nat, isPaused: bool, waited: bool)
    requires InCall(client) && client.k == k && !client.call.Returned? && CallEnabled(w, client.call)
    requires WorkerInv(w, k, client, Client(c), isPaused, waited) && WorkLocked(w, k, client, c)
    ensures var next := CallStep(w, client.call, c);
            var client' := WithCall(client, next.pc);
            && WorkerInv(next.worker, k, client', Client(c), isPaused, waited)
            && WorkLocked(next.worker, k, client', c) && CallEffect(w, next.worker, c)
  {
    if client.ResumeEach? {
      ResumeStepKeeps(w, client.call, c);
    } else {
      PauseStepKeeps(w, client.call, c, client.AwaitEach?);
    }
  }

  lemma CallStepKeepsInv(s: State, c: nat)
    requires Inv(s) && Enabled(s, Proceed(c)) && InCall(s.clients[c])
    requires s.clients[c].k < |s.workers| && !s.clients[c].call.Returned?
    ensures Inv(Apply(s, Proceed(c)))
  {
    var client, s' := s.clients[c], Apply(s, Proceed(c));
    assert HoldsStart(client) && Holder(s) == client;
    assert WorkLocked(s.workers[client.k], client.k, client, c);
    assert WorkerInv(s.workers[client.k], client.k, client, s.startLock, s.isPaused, s.waited);
    CallOnWorker(s.workers[client.k], client.k, client, c, s.isPaused, s.waited);
    CallKeepsWorkLocks(s, c);
    CallKeepsFlags(s, s', c, s'.clients[c].call);
    forall j | 0 <= j < |s.workers| && j != client.k
      ensures WorkerInv(s'.workers[j], j, Holder(s'), s'.startLock, s'.isPaused, s'.waited)
    {
      OtherWorkerUntouched(s.workers[j], j, client, c, s'.clients[c].call, s.isPaused, s.waited);
    }
  }

  lemma OtherWorkerUntouched(
      w: Worker, j: nat, client: Client, c: nat, call: ClientPc, isPaused: bool, waited: bool)
    requires InCall(client) && j != client.k && WorkerInv(w, j, client, Client(c), isPaused, waited)
    ensures WorkerInv(w, j, WithCall(client, call), Client(c), isPaused, waited)
  {
  }

  lemma CallKeepsFlags(s: State, s': State, c: nat, call: ClientPc)
    requires FlagsInv(s) && c < |s.clients| && InCall(s.clients[c]) && Holder(s) == s.clients[c]
    requires s' == s.(workers := s'.workers, clients := s.clients[c := WithCall(s.clients[c], call)])
    ensures FlagsInv(s') && Holder(s') == s'.clients[c]
  {
    assert HoldsStart(s.clients[c]);
    CountAfterStep(s.clients, c, s'.clients[c]);
  }

  lemma SignalOnWorker(w: Worker, k: nat, client: Client, c: nat, s: State)
    requires client.BroadcastEach? && client.k == k && !client.call.Returned? && CallEnabled(w, client.call)
    requires WorkerInv(w, k, Holder(s), s.startLock, s.isPaused, s.waited) && WorkLocked(w, k, client, c)
    ensures var next := CallStep(w, client.call, c);
            && WorkerInv(next.worker, k, Holder(s), s.startLock, s.isPaused, s.waited)
            && WorkLocked(next.worker, k, WithCall(client, next.pc), c) && CallEffect(w, next.worker, c)
  {
    SignalStepKeeps(w, client.call, c);
  }

  lemma SignalStepKeepsInv(s: State, c: nat)
    requires Inv(s) && Enabled(s, Proceed(c)) && s.clients[c].BroadcastEach?
    requires s.clients[c].k < |s.workers| && !s.clients[c].call.Returned?
    ensures Inv(Apply(s, Proceed(c)))
  {
    var k, s' := s.clients[c].k, Apply(s, Proceed(c));
    assert WorkLocked(s.workers[k], k, s.clients[c], c);
    assert WorkerInv(s.workers[k], k, Holder(s), s.startLock, s.isPaused, s.waited);
    SignalOnWorker(s.workers[k], k, s.clients[c], c, s);
    CallKeepsWorkLocks(s, c);
    BystanderMoves(s, s', c, s'.clients[c]);
  }

  /** The loop of `broadcast` moves on to the next worker, or ends. */
  lemma BroadcastStepKeepsInv(s: State, c: nat)
    requires Inv(s) && Enabled(s, Proceed(c)) && s.clients[c].BroadcastEach?
    requires s.clients[c].k >= |s.workers| || s.clients[c].call.Returned?
    ensures Inv(Apply(s, Proceed(c)))
  {
    var s' := Apply(s, Proceed(c));
    MovesOutsideSignal(s, s', c, s'.clients[c]);
    BystanderMoves(s, s', c, s'.clients[c]);
  }

  /** A loop of `pause` or `resume` moves on to the next worker, or ends. */
  lemma LoopStepKeepsInv(s: State, c: nat)
    requires Inv(s) && Enabled(s, Proceed(c)) && InCall(s.clients[c])
    requires s.clients[c].k >= |s.workers| || s.clients[c].call.Returned?
    ensures Inv(Apply(s, Proceed(c)))
  {
    var s' := Apply(s, Proceed(c));
    assert HoldsStart(s.clients[c]) && Holder(s) == s.clients[c];
    MovesOutsideSignal(s, s', c, s'.clients[c]);
    LoopStepKeepsFlags(s, c);
    forall j | 0 <= j < |s.workers|
      ensures WorkerInv(s'.workers[j], j, Holder(s'), s'.startLock, s'.isPaused, s'.waited)
    {
      LoopStepKeepsWorker(s, c, j);
    }
  }

  lemma LoopStepKeepsFlags(s: State, c: nat)
    requires FlagsInv(s) && Enabled(s, Proceed(c)) && InCall(s.clients[c]) && Holder(s) == s.clients[c]
    requires s.clients[c].k >= |s.workers| || s.clients[c].call.Returned?
    ensures FlagsInv(Apply(s, Proceed(c)))
  {
    assert HoldsStart(s.clients[c]);
    CountAfterStep(s.clients, c, Apply(s, Proceed(c)).clients[c]);
  }

  lemma LoopStepKeepsWorker(s: State, c: nat, j: nat)
    requires Enabled(s, Proceed(c)) && InCall(s.clients[c]) && s.startLock == Client(c)
    requires s.clients[c].k >= |s.workers| || s.clients[c].call.Returned?
    requires j < |s.workers| && WorkerInv(s.workers[j], j, s.clients[c], s.startLock, s.isPaused, s.waited)
    ensures var s' := Apply(s, Proceed(c));
            WorkerInv(s'.workers[j], j, Holder(s'), s'.startLock, s'.isPaused, s'.waited)
  {
    if s.clients[c].k < |s.workers| {
      NextKeepsWorker(s.workers[j], j, s.clients[c], c, s.isPaused, s.waited);
    }
  }

  lemma NextKeepsWorker(w: Worker, j: nat, client: Client, c: nat, isPaused: bool, waited: bool)
    requires InCall(client) && client.call.Returned? && WorkerInv(w, j, client, Client(c), isPaused, waited)
    ensures WorkerInv(w, j, NextWorker(client), Client(c), isPaused, waited)
  {
  }

  lemma DecideKeepsInv(s: State, c: nat)
    requires Inv(s) && Enabled(s, Proceed(c)) && !Loops(s.clients[c])
    ensures Inv(Apply(s, Proceed(c)))
  {
    var s' := Apply(s, Proceed(c));
    DecideKeepsFlags(s, c);
    MovesOutsideSignal(s, s', c, s'.clients[c]);
    forall j | 0 <= j < |s.workers|
      ensures WorkerInv(s'.workers[j], j, Holder(s'), s'.startLock, s'.isPaused, s'.waited)
    {
      DecideKeepsWorker(s, c, j);
    }
  }

  lemma EnterKeepsFlags(s: State, c: nat)
    requires FlagsInv(s) && Enabled(s, Proceed(c)) && (s.clients[c].PauseEnter? || s.clients[c].ResumeEnter?)
    ensures FlagsInv(Apply(s, Proceed(c)))
  {
    CountAfterStep(s.clients, c, Apply(s, Proceed(c)).clients[c]);
  }

  lemma PauseKeepsFlags(s: State, c: nat)
    requires FlagsInv(s) && Enabled(s, Proceed(c)) && (s.clients[c].PauseDecide? || s.clients[c].PauseEnd?)
    ensures FlagsInv(Apply(s, Proceed(c)))
  {
    CountAfterStep(s.clients, c, Apply(s, Proceed(c)).clients[c]);
  }

  lemma ResumeKeepsFlags(s: State, c: nat)
    requires FlagsInv(s) && Enabled(s, Proceed(c)) && s.clients[c].ResumeDecide?
    ensures FlagsInv(Apply(s, Proceed(c)))
  {
    CountAfterStep(s.clients, c, Apply(s, Proceed(c)).clients[c]);
    CountPositive(s.clients, c);
  }

  lemma DecideKeepsFlags(s: State, c: nat)
    requires FlagsInv(s) && Enabled(s, Proceed(c)) && !Loops(s.clients[c])
    ensures FlagsInv(Apply(s, Proceed(c)))
  {
    if s.clients[c].PauseEnter? || s.clients[c].ResumeEnter? {
      EnterKeepsFlags(s, c);
    } else if s.clients[c].ResumeDecide? {
      ResumeKeepsFlags(s, c);
    } else {
      PauseKeepsFlags(s, c);
    }
  }

  lemma DecideKeepsWorker(s: State, c: nat, j: nat)
    requires LockInv(s) && Enabled(s, Proceed(c)) && !Loops(s.clients[c])
    requires j < |s.workers| && WorkerInv(s.workers[j], j, Holder(s), s.startLock, s.isPaused, s.waited)
    requires FlagInv(Holder(s), s.isPaused, s.nested)
    ensures var s' := Apply(s, Proceed(c));
            WorkerInv(s'.workers[j], j, Holder(s'), s'.startLock, s'.isPaused, s'.waited)
  {
  }

  lemma StepKeepsInv(s: State, a: Action)
    requires Inv(s) && Enabled(s, a)
    ensures Inv(Apply(s, a))
  {
    match a
    case RunWorker(k, more, work) => RunWorkerKeepsInv(s, k, more, work);
    case Begin(_, _) => BeginKeepsInv(s, a);
    case Announce(_) => BeginKeepsInv(s, a);
    case Proceed(c) =>
      var client := s.clients[c];
      if !Loops(client) {
        DecideKeepsInv(s, c);
      } else if client.k >= |s.workers| || client.call.Returned? {
        if client.BroadcastEach? {
          BroadcastStepKeepsInv(s, c);
        } else {
          LoopStepKeepsInv(s, c);
        }
      } else if client.BroadcastEach? {
        SignalStepKeepsInv(s, c);
      } else {
        CallStepKeepsInv(s, c);
      }
  }

  /** Calls on a worker do not move it and take no wakeup back; the signal of `broadcast` wakes it. */
  lemma CallLeavesPc(s: State, c: nat)
    requires Inv(s) && Enabled(s, Proceed(c)) && Loops(s.clients[c])
    requires s.clients[c].k < |s.workers| && !s.clients[c].call.Returned?
    ensures var w, w' := s.workers[s.clients[c].k], Apply(s, Proceed(c)).workers[s.clients[c].k];
            && w'.pc == w.pc && (w.workWake ==> w'.workWake)
            && (s.clients[c].BroadcastEach? && s.clients[c].call.SignalHold? ==> !MayMissWork(w'))
  {
    var client := s.clients[c];
    var w := s.workers[client.k];
    assert WorkLocked(w, client.k, client, c);
    assert WorkerInv(w, client.k, Holder(s), s.startLock, s.isPaused, s.waited);
    if client.BroadcastEach? {
      SignalStepKeeps(w, client.call, c);
    } else {
      assert HoldsStart(client) && Holder(s) == client;
      CallOnWorker(w, client.k, client, c, s.isPaused, s.waited);
    }
  }

  /** No step takes a worker back to `init`. */
  lemma InitializesOnce(s: State, a: Action, k: nat)
    requires Inv(s) && Enabled(s, a) && k < |s.workers|
    requires s.workers[k].pc.Initializing? ==> a.RunWorker? && a.k == k
    ensures |Apply(s, a).workers| == |s.workers| && !Apply(s, a).workers[k].pc.Initializing?
  {
    match a
    case RunWorker(j, more, work) =>
      assert WorkerInv(s.workers[j], j, Holder(s), s.startLock, s.isPaused, s.waited);
      OwnStepKeeps(s.workers[j], more, work);
    case Proceed(c) =>
      var client := s.clients[c];
      if Loops(client) && client.k < |s.workers| && !client.call.Returned? {
        CallLeavesPc(s, c);
      }
    case _ =>
  }

  /** A worker comes to miss work only by finding none. */
  lemma MissesByLooking(s: State, a: Action, k: nat)
    requires Inv(s) && Enabled(s, a) && k < |s.workers|
    ensures |Apply(s, a).workers| == |s.workers|
    ensures MayMissWork(Apply(s, a).workers[k]) ==>
              MayMissWork(s.workers[k]) || (a.RunWorker? && a.k == k && s.workers[k].pc.HoldWork? && !a.work)
  {
    match a
    case RunWorker(j, more, work) =>
      assert WorkerInv(s.workers[j], j, Holder(s), s.startLock, s.isPaused, s.waited);
      OwnStepKeeps(s.workers[j], more, work);
    case Proceed(c) =>
      var client := s.clients[c];
      if Loops(client) && client.k < |s.workers| && !client.call.Returned? {
        CallLeavesPc(s, c);
      }
    case _ =>
  }

  lemma InitKeepsInv(s: State)
    requires Init(s)
    ensures Inv(s)
  {
    CountZero(s.clients);
  }

  lemma {:induction false} RunKeepsInv(states: seq<State>, actions: seq<Action>, i: nat)
    requires Run(states, actions) && i < |states|
    ensures Inv(states[i])
  {
    if i == 0 {
      InitKeepsInv(states[0]);
    } else {
      RunKeepsInv(states, actions, i - 1);
      StepKeepsInv(states[i - 1], actions[i - 1]);
    }
  }

  // ----- Theorems about every run -----

  /** With the outermost pause in force having waited, and not yet resumed, all workers are quiet. */
  lemma InForceIsQuiet(s: State)
    requires Inv(s) && s.nested > 0 && s.waited
    ensures forall k :: 0 <= k < |s.workers| ==> Sane(s.workers[k]) && Quiet(s.workers[k])
  {
    forall k | 0 <= k < |s.workers|
      ensures Sane(s.workers[k]) && Quiet(s.workers[k])
    {
      assert WorkerInv(s.workers[k], k, Holder(s), s.startLock, s.isPaused, s.waited);
    }
  }

  /**
   While a thread is between a return from `pause` and its next `resume`, and the outermost pause in force waited
   for the workers, no worker is in `init`, `doWork` or `isWork`, and none can step there.
   */
  lemma PauseIsolation(states: seq<State>, actions: seq<Action>, i: nat, c: nat)
    requires Run(states, actions) && i < |states| && c < |states[i].clients| && states[i].clients[c].Inside?
    requires states[i].waited
    ensures forall k :: 0 <= k < |states[i].workers| ==> Quiet(states[i].workers[k])
    ensures forall k, more, work :: 0 <= k < |states[i].workers| && WorkerEnabled(states[i].workers[k]) ==>
                                      Quiet(WorkerStep(states[i].workers[k], more, work))
  {
    var s := states[i];
    RunKeepsInv(states, actions, i);
    CountPositive(s.clients, c);
    InForceIsQuiet(s);
    forall k, more, work | 0 <= k < |s.workers| && WorkerEnabled(s.workers[k])
      ensures Quiet(WorkerStep(s.workers[k], more, work))
    {
      OwnStepKeeps(s.workers[k], more, work);
    }
  }

  /** No thread uses the form of `pause` that does not wait. */
  ghost predicate AllBlocking(actions: seq<Action>) {
    forall i :: 0 <= i < |actions| && actions[i].Begin? ==> actions[i].block
  }

  predicate Blocks(client: Client) {
    client.PauseEnter? || client.PauseDecide? || client.PauseEach? || client.PauseEnd? ==> client.block
  }

  ghost predicate BlockingInv(s: State) {
    (forall c :: 0 <= c < |s.clients| ==> Blocks(s.clients[c])) && (s.isPaused ==> s.waited)
  }

  lemma StepKeepsBlocking(s: State, a: Action)
    requires FlagsInv(s) && BlockingInv(s) && Enabled(s, a) && (a.Begin? ==> a.block)
    ensures BlockingInv(Apply(s, a))
  {
    if a.Proceed? {
      assert Blocks(s.clients[a.c]);
      assert Holder(s) == s.clients[a.c] || !HoldsStart(s.clients[a.c]);
    }
  }

  lemma {:induction false} RunKeepsBlocking(states: seq<State>, actions: seq<Action>, i: nat)
    requires Run(states, actions) && AllBlocking(actions) && i < |states|
    ensures BlockingInv(states[i])
  {
    if i > 0 {
      RunKeepsBlocking(states, actions, i - 1);
      RunKeepsInv(states, actions, i - 1);
      StepKeepsBlocking(states[i - 1], actions[i - 1]);
    }
  }

  /** In the loops of `pause`, or at its end. */
  predicate PausingNow(client: Client) {
    client.PauseEach? || client.AwaitEach? || client.PauseEnd?
  }

  /**
   Resuming reaches every worker: whenever the processor is not paused and nobody is pausing it, no worker is paused,
   and one that sleeps in its pause has a wakeup on its way.  While `resume` is under way this holds of the workers it
   has passed.
   */
  lemma ResumedWorkersGoOn(states: seq<State>, actions: seq<Action>, i: nat, k: nat)
    requires Run(states, actions) && i < |states| && k < |states[i].workers|
    requires var s := states[i];
             || (!s.isPaused && forall c :: 0 <= c < |s.clients| ==> !PausingNow(s.clients[c]))
             || exists c :: 0 <= c < |s.clients| && s.clients[c].ResumeEach? && k < s.clients[c].k
    ensures var w := states[i].workers[k]; !w.paused && !w.pc.GoingIdle? && (w.pc.SleepPause? ==> w.pauseWake)
  {
    var s := states[i];
    RunKeepsInv(states, actions, i);
    assert WorkerInv(s.workers[k], k, Holder(s), s.startLock, s.isPaused, s.waited);
    if c :| 0 <= c < |s.clients| && s.clients[c].ResumeEach? && k < s.clients[c].k {
      assert HoldsStart(s.clients[c]) && Holder(s) == s.clients[c];
    }
  }

  /** If every pause blocks, nested or not, each one isolates: until its `resume` all workers are quiet. */
  lemma BlockingPauseIsolates(states: seq<State>, actions: seq<Action>, i: nat, c: nat)
    requires Run(states, actions) && AllBlocking(actions)
    requires i < |states| && c < |states[i].clients| && states[i].clients[c].Inside?
    ensures forall k :: 0 <= k < |states[i].workers| ==> Quiet(states[i].workers[k])
  {
    RunKeepsInv(states, actions, i);
    RunKeepsBlocking(states, actions, i);
    CountPositive(states[i].clients, c);
    PauseIsolation(states, actions, i, c);
  }

  lemma StepKeepsWaited(s: State, a: Action)
    requires Inv(s) && Enabled(s, a) && s.nested > 0 && s.waited
    ensures Apply(s, a).waited
  {
    if a.Proceed? && s.clients[a.c].PauseEnd? {
      assert Holder(s) == s.clients[a.c];
    }
  }

  /** Once the outermost pause has waited, isolation lasts until the last pauser resumes. */
  lemma {:induction false} WaitedUntilResumed(states: seq<State>, actions: seq<Action>, i: nat, j: nat)
    requires Run(states, actions) && i <= j < |states| && states[i].waited
    requires forall n :: i <= n <= j ==> states[n].nested > 0
    ensures states[j].waited && forall k :: 0 <= k < |states[j].workers| ==> Quiet(states[j].workers[k])
  {
    if i < j {
      WaitedUntilResumed(states, actions, i, j - 1);
      RunKeepsInv(states, actions, j - 1);
      StepKeepsWaited(states[j - 1], actions[j - 1]);
    }
    RunKeepsInv(states, actions, j);
    InForceIsQuiet(states[j]);
  }

  /**
   No pauser is forgotten, although its wait is not in a loop: while a thread sleeps in `Worker::pause`, its signal is
   on the way, or the worker is not idle yet and will be: it is to pause, and it is not asleep, or is being woken.
   */
  lemma SleepingPauserIsServed(states: seq<State>, actions: seq<Action>, i: nat, c: nat)
    requires Run(states, actions) && i < |states| && c < |states[i].clients| && InCall(states[i].clients[c])
    requires states[i].clients[c].k < |states[i].workers| && states[i].clients[c].call.PauseSleep?
    ensures var w := states[i].workers[states[i].clients[c].k];
            || w.idleTokens == 1
            || (w.idleSleepers == 1 && !w.idle && w.paused && !w.pc.SleepPause? && (w.pc.SleepWork? ==> w.workWake))
  {
    var s := states[i];
    RunKeepsInv(states, actions, i);
    assert HoldsStart(s.clients[c]) && Holder(s) == s.clients[c];
    var k := s.clients[c].k;
    assert WorkerInv(s.workers[k], k, s.clients[c], s.startLock, s.isPaused, s.waited);
  }

  // ----- Exactly when a blocking pause isolates -----

  ghost predicate AllQuiet(s: State) {
    forall k :: 0 <= k < |s.workers| ==> Quiet(s.workers[k])
  }

  /** In a call of `pause(true)` that holds `startLock`, or between its return and the next `resume`. */
  predicate InBlockingPause(client: Client) {
    || client == PauseDecide(true) || (client.PauseEach? && client.block) || client.AwaitEach?
    || (client.PauseEnd? && client.block) || client.Inside?
  }

  /** Steps of any thread from `s` on, during which client `c` stays in its pause. */
  ghost predicate Continuation(s: State, states: seq<State>, actions: seq<Action>, c: nat) {
    && |states| == |actions| + 1 && states[0] == s
    && (forall i {:trigger actions[i]} :: 0 <= i < |actions| ==>
          Enabled(states[i], actions[i]) && states[i + 1] == Apply(states[i], actions[i]))
    && (forall i :: 0 <= i < |states| ==> c < |states[i].clients| && InBlockingPause(states[i].clients[c]))
  }

  /** However the threads go on, all workers are quiet whenever client `c` is between its pause and its `resume`. */
  ghost predicate Isolates(s: State, c: nat) {
    forall states: seq<State>, actions: seq<Action> ::
      Continuation(s, states, actions, c) && states[|actions|].clients[c].Inside? ==> AllQuiet(states[|actions|])
  }

  /** Nobody disturbs quiet workers while a pause is in force. */
  lemma QuietStays(s: State, a: Action)
    requires Inv(s) && Enabled(s, a) && s.nested > 0 && AllQuiet(s)
    ensures AllQuiet(Apply(s, a))
  {
    match a
    case RunWorker(k, more, work) =>
      assert WorkerInv(s.workers[k], k, Holder(s), s.startLock, s.isPaused, s.waited);
      OwnStepKeeps(s.workers[k], more, work);
    case Proceed(c) =>
      var client := s.clients[c];
      assert InCall(client) ==> HoldsStart(client) && Holder(s) == client;
      if client.BroadcastEach? && client.k < |s.workers| && !client.call.Returned? {
        assert WorkLocked(s.workers[client.k], client.k, client, c);
        assert WorkerInv(s.workers[client.k], client.k, Holder(s), s.startLock, s.isPaused, s.waited);
        SignalStepKeeps(s.workers[client.k], client.call, c);
      }
    case _ =>
  }

  /** A call that waited for the workers ends with all of them quiet. */
  lemma PauseEndIsQuiet(s: State, c: nat)
    requires Inv(s) && c < |s.clients| && s.clients[c] == PauseEnd(true, true)
    ensures AllQuiet(s)
  {
    assert HoldsStart(s.clients[c]) && Holder(s) == s.clients[c];
    forall k | 0 <= k < |s.workers|
      ensures Quiet(s.workers[k])
    {
      assert WorkerInv(s.workers[k], k, s.clients[c], s.startLock, s.isPaused, s.waited);
    }
  }

  /** At these places of the call a pause is in force. */
  predicate Relies(s: State, c: nat)
    requires c < |s.clients|
  {
    || (s.clients[c].PauseDecide? && s.isPaused) || s.clients[c] == PauseEnd(true, false) || s.clients[c].Inside?
  }

  lemma ReliesOnPause(s: State, c: nat)
    requires Inv(s) && c < |s.clients| && Relies(s, c)
    ensures s.nested > 0
  {
    if s.clients[c].Inside? {
      CountPositive(s.clients, c);
    } else {
      assert HoldsStart(s.clients[c]) && Holder(s) == s.clients[c];
    }
  }

  /** The holder of `startLock` is the only one to change the flag. */
  lemma FlagStays(s: State, a: Action, c: nat)
    requires Inv(s) && Enabled(s, a) && c < |s.clients| && s.clients[c].PauseDecide? && (a.RunWorker? || a.c != c)
    ensures Apply(s, a).isPaused == s.isPaused
  {
    assert HoldsStart(s.clients[c]);
    assert !a.RunWorker? ==> !HoldsStart(s.clients[a.c]);
  }

  /** Where client `c` relies on a pause after a step, it did so before, or it has just waited for the workers. */
  lemma ReliedBefore(s: State, a: Action, c: nat)
    requires Inv(s) && Enabled(s, a) && c < |s.clients| && InBlockingPause(s.clients[c])
    requires c < |Apply(s, a).clients| && Relies(Apply(s, a), c)
    ensures Relies(s, c) || s.clients[c] == PauseEnd(true, true)
  {
    if a.RunWorker? || a.c != c {
      if s.clients[c].PauseDecide? {
        FlagStays(s, a, c);
      }
    }
  }

  lemma StepKeepsReliance(s: State, a: Action, c: nat)
    requires Inv(s) && Enabled(s, a) && c < |s.clients| && InBlockingPause(s.clients[c])
    requires Relies(s, c) ==> AllQuiet(s)
    requires c < |Apply(s, a).clients| && Relies(Apply(s, a), c)
    ensures AllQuiet(Apply(s, a))
  {
    ReliedBefore(s, a, c);
    if Relies(s, c) {
      ReliesOnPause(s, c);
      QuietStays(s, a);
    } else {
      PauseEndIsQuiet(s, c);
      assert a.Proceed? && a.c == c;
    }
  }

  /** The invariant along a continuation. */
  ghost predicate QuietInPause(s: State, c: nat) {
    Inv(s) && c < |s.clients| && (Relies(s, c) ==> AllQuiet(s))
  }

  lemma StepKeepsQuietInPause(s: State, a: Action, s': State, c: nat)
    requires QuietInPause(s, c) && Enabled(s, a) && s' == Apply(s, a)
    requires c < |s'.clients| && InBlockingPause(s.clients[c])
    ensures QuietInPause(s', c)
  {
    StepKeepsInv(s, a);
    if Relies(s', c) {
      StepKeepsReliance(s, a, c);
    }
  }

  lemma {:induction false} ContinuationStaysQuiet(s: State, states: seq<State>, actions: seq<Action>, c: nat, i: nat)
    requires QuietInPause(s, c) && Continuation(s, states, actions, c) && i < |states|
    ensures QuietInPause(states[i], c)
  {
    if i > 0 {
      ContinuationStaysQuiet(s, states, actions, c, i - 1);
      assert InBlockingPause(states[i - 1].clients[c]) && c < |states[i].clients|;
      StepKeepsQuietInPause(states[i - 1], actions[i - 1], states[i], c);
    }
  }

  /** If the processor is paused already, the call returns at once and leaves the workers as they are. */
  lemma ReturnsAtOnce(s: State, c: nat) returns (states: seq<State>, actions: seq<Action>)
    requires c < |s.clients| && s.clients[c] == PauseDecide(true) && s.isPaused
    ensures Continuation(s, states, actions, c) && states[|actions|].clients[c].Inside?
    ensures states[|actions|].workers == s.workers
  {
    var s1 := Apply(s, Proceed(c));
    var s2 := Apply(s1, Proceed(c));
    states, actions := [s, s1, s2], [Proceed(c), Proceed(c)];
  }

  /**
   A call of `pause(true)` that has taken `startLock` isolates, whatever the threads do until its `resume`, exactly when
   the processor is not paused yet or all its workers are quiet already.
   */
  lemma BlockingPauseIsolatesExactly(s: State, c: nat)
    requires Inv(s) && c < |s.clients| && s.clients[c] == PauseDecide(true)
    ensures Isolates(s, c) <==> (s.isPaused ==> AllQuiet(s))
  {
    if s.isPaused ==> AllQuiet(s) {
      forall states: seq<State>, actions: seq<Action> |
        Continuation(s, states, actions, c) && states[|actions|].clients[c].Inside?
        ensures AllQuiet(states[|actions|])
      {
        ContinuationStaysQuiet(s, states, actions, c, |actions|);
      }
    } else {
      var states, actions := ReturnsAtOnce(s, c);
      assert !AllQuiet(states[|actions|]);
    }
  }

  // ----- A blocking pause inside one that does not block -----

  /** One worker at `pc`, with the flag and the locks as given, and two clients. */
  function Scene(pc: WorkerPc, paused: bool, pauseLock: Owner, workLock: Owner, first: Client, second: Client,
                 startLock: Owner, nested: int): State {
    var w := Worker(pc, true, paused, false, false, false, Free, pauseLock, workLock, false, false, 0, 0, 0);
    State([w], [first, second], startLock, nested > 0, nested, false)
  }

  /** The run: the worker enters `doWork`, then client 0 calls `pause(false)`, then client 1 calls `pause(true)`. */
  function NestedState(i: nat): State {
    if i < 3 then
      var pc := if i == 0 then Initializing else if i == 1 then Top else Working;
      Scene(pc, false, Free, Free, Outside, Outside, Free, 0)
    else if i < 9 then UnpausedState(i)
    else if i < 16 then PausedState(i)
    else Scene(Working, true, Free, Free, Inside,
               if i == 16 then Outside else if i == 17 then PauseEnter(true) else if i == 18 then PauseDecide(true)
               else if i == 19 then PauseEnd(true, false) else Inside,
               if i == 18 || i == 19 then Client(1) else Free, if i < 20 then 1 else 2)
  }

  function UnpausedState(i: nat): State {
    match i
    case 3 => Scene(Working, false, Free, Free, PauseEnter(false), Outside, Free, 0)
    case 4 => Scene(Working, false, Free, Free, PauseDecide(false), Outside, Client(0), 0)
    case 5 => Scene(Working, false, Free, Free, PauseEach(false, 0, PauseRead(false)), Outside, Client(0), 0)
    case 6 => Scene(Working, false, Free, Free, PauseEach(false, 0, PauseWant(false)), Outside, Client(0), 0)
    case 7 => Scene(Working, false, Client(0), Free, PauseEach(false, 0, PauseHold(false)), Outside, Client(0), 0)
    case _ => Scene(Working, false, Client(0), Free, PauseEach(false, 0, PauseChecked(false)), Outside, Client(0), 0)
  }

  function PausedState(i: nat): State {
    match i
    case 9 => Scene(Working, true, Client(0), Free, PauseEach(false, 0, PauseSignalWant(false)), Outside, Client(0), 0)
    case 10 =>
      Scene(Working, true, Client(0), Client(0), PauseEach(false, 0, PauseSignalHold(false)), Outside, Client(0), 0)
    case 11 => Scene(Working, true, Client(0), Free, PauseEach(false, 0, PauseTest(false)), Outside, Client(0), 0)
    case 12 => Scene(Working, true, Client(0), Free, PauseEach(false, 0, PauseRelease), Outside, Client(0), 0)
    case 13 => Scene(Working, true, Free, Free, PauseEach(false, 0, Returned), Outside, Client(0), 0)
    case 14 => Scene(Working, true, Free, Free, PauseEach(false, 1, PauseRead(false)), Outside, Client(0), 0)
    case _ => Scene(Working, true, Free, Free, PauseEnd(false, true), Outside, Client(0), 0)
  }

  function NestedAction(i: nat): Action {
    if i < 2 then RunWorker(0, false, false)
    else if i == 2 then Begin(0, false)
    else if i == 16 then Begin(1, true)
    else Proceed(if i < 16 then 0 else 1)
  }

  lemma NestedStepFirst(i: nat)
    requires i < 4
    ensures Enabled(NestedState(i), NestedAction(i)) && NestedState(i + 1) == Apply(NestedState(i), NestedAction(i))
  {
  }

  lemma NestedStepEarly(i: nat)
    requires 4 <= i < 9
    ensures Enabled(NestedState(i), NestedAction(i)) && NestedState(i + 1) == Apply(NestedState(i), NestedAction(i))
  {
  }

  lemma NestedStepMiddle(i: nat)
    requires 9 <= i < 13
    ensures Enabled(NestedState(i), NestedAction(i)) && NestedState(i + 1) == Apply(NestedState(i), NestedAction(i))
  {
  }

  lemma NestedStepLate(i: nat)
    requires 13 <= i < 20
    ensures Enabled(NestedState(i), NestedAction(i)) && NestedState(i + 1) == Apply(NestedState(i), NestedAction(i))
  {
  }

  /**
   `pause(true)` returns at once if the processor is already paused.  If the pause in force did not wait, a worker
   can still be in `doWork` when the blocking call has returned.
   */
  lemma NestedBlockingPauseCanFail() returns (states: seq<State>, actions: seq<Action>)
    ensures Run(states, actions) && |actions| == 20 && actions[16] == Begin(1, true)
    ensures var s := states[20];
            |s.clients| == 2 && |s.workers| == 1 && s.clients[1].Inside? && s.workers[0].pc.Working?
  {
    states := seq(21, i requires 0 <= i < 21 => NestedState(i));
    actions := seq(20, i requires 0 <= i < 20 => NestedAction(i));
    forall i {:trigger actions[i]} | 0 <= i < 20
      ensures Enabled(states[i], actions[i]) && states[i + 1] == Apply(states[i], actions[i])
    {
      if i < 4 {
        NestedStepFirst(i);
      } else if i < 9 {
        NestedStepEarly(i);
      } else if i < 13 {
        NestedStepMiddle(i);
      } else {
        NestedStepLate(i);
      }
    }
  }
}
