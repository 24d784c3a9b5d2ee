/**
 How producers coordinate a resize: `QueueProducerInterface::addToQueue` with `ResizeControls`.

 Any number of calls run concurrently; thread `t` makes one call.  Acquiring `resizeQueuesLock`, sleeping on
 its condition, and each access made without the lock (`pauseAdders`) are separate steps.  A condition wait
 may also return without a signal.
 */
module ResizeProtocol {
  import opened QueueConstants
  import opened RingIndex

  datatype Pc =
    | Start
    | WantEnter               // waitForResize: acquiring the lock
    | HoldEnter               // ... holding it
    | SleepEnter              // ... waiting for a resize to end
    | Adding                  // adder.add(), counted in addingCount
    | Added(index: int)       // checkResizable, with what the add returned
    | Polling                 // checkResizable: adding again and again, the ring has its maximal size
    | WantCheck(index: int)   // checkFull: acquiring the lock
    | HoldCheck(index: int)
    | HoldFull                // checkFull: no longer counted, the add had failed; holding the lock
    | SleepFull               // ... waiting for a resize to end
    | LockedAdding            // adder.add() again, holding the lock
    | LockedAdded(index: int) // checkFullForResize
    | PausingAdders
    | PausingWorkers
    | Resizing
    | ResumingWorkers
    | WantResume              // resumeAdders: acquiring the lock
    | HoldResume
    | Done(index: int)

  datatype Owner = Free | Held(thread: nat)

  /** `log` lists the callers of successful adds; `grown` counts the resizes carried out. */
  datatype State = State(
    pcs: seq<Pc>, lock: Owner, resizing: bool, addingCount: int,
    size: nat, initialSize: nat, entrySize: nat, grown: nat, log: seq<nat>)

  /** A step of thread `t`.  `index` is the outcome where the step is the return of an add. */
  datatype Action = Step(t: nat, index: int, terminated: bool)

  ghost predicate Init(s: State) {
    && (forall t :: 0 <= t < |s.pcs| ==> s.pcs[t] == Start)
    && s.lock == Free && !s.resizing && s.addingCount == 0 && s.log == []
    && s.entrySize > 0 && 1 <= s.size == s.initialSize <= UINT_MAX && s.grown == 0
  }

  predicate Outcome(index: int) {
    index >= 0 || index == IS_FULL || index == CANNOT_ADD
  }

  predicate Enabled(s: State, a: Action) {
    a.t < |s.pcs| &&
    match s.pcs[a.t]
    case WantEnter => s.lock == Free
    case SleepEnter => s.lock == Free
    case Adding => Outcome(a.index)
    case Polling => Outcome(a.index)
    case WantCheck(_) => s.lock == Free
    case SleepFull => s.lock == Free
    case LockedAdding => Outcome(a.index)
    case PausingAdders => s.addingCount == 0
    case Resizing => s.entrySize > 0 && s.size <= UINT_MAX
    case WantResume => s.lock == Free
    case Done(_) => false
    case _ => true
  }

  predicate IsMaxSize(s: State) {
    s.entrySize > 0 && s.size >= MaxQueueSize(s.entrySize)
  }

  function Goto(s: State, t: nat, pc: Pc): State
    requires t < |s.pcs|
  {
    s.(pcs := s.pcs[t := pc])
  }

  /** Logs the add of thread `t` if it returned a slot. */
  function Logged(s: State, t: nat, index: int): State {
    if index >= 0 then s.(log := s.log + [t]) else s
  }

  function Apply(s: State, a: Action): State
    requires Enabled(s, a)
  {
    var t, index := a.t, a.index;
    match s.pcs[t]
    case Start => Goto(s, t, if a.terminated then Done(IS_TERMINATED) else WantEnter)
    case WantEnter => Goto(s, t, HoldEnter).(lock := Held(t))
    case SleepEnter => Goto(s, t, HoldEnter).(lock := Held(t))
    case HoldEnter =>
      if s.resizing then Goto(s, t, SleepEnter).(lock := Free)
      else Goto(s, t, Adding).(lock := Free, addingCount := s.addingCount + 1)
    case Adding => Logged(Goto(s, t, Added(index)), t, index)
    case Added(i) => Goto(s, t, if i == IS_FULL && IsMaxSize(s) then Polling else WantCheck(i))
    case Polling => Logged(Goto(s, t, if index == IS_FULL then Polling else WantCheck(index)), t, index)
    case WantCheck(i) => Goto(s, t, HoldCheck(i)).(lock := Held(t))
    case HoldCheck(i) =>
      var s' := s.(addingCount := s.addingCount - 1);
      if i == IS_FULL then Goto(s', t, HoldFull) else Goto(s', t, Done(i)).(lock := Free)
    case HoldFull => if s.resizing then Goto(s, t, SleepFull).(lock := Free) else Goto(s, t, LockedAdding)
    case SleepFull => Goto(s, t, HoldFull).(lock := Held(t))
    case LockedAdding => Logged(Goto(s, t, LockedAdded(index)), t, index)
    case LockedAdded(i) =>
      Goto(s, t, if i == IS_FULL then PausingAdders else Done(i)).(lock := Free, resizing := i == IS_FULL)
    case PausingAdders => Goto(s, t, PausingWorkers)
    case PausingWorkers => Goto(s, t, Resizing)
    case Resizing => Goto(s, t, ResumingWorkers).(size := GrownSize(s.size, s.entrySize), grown := s.grown + 1)
    case ResumingWorkers => Goto(s, t, WantResume)
    case WantResume => Goto(s, t, HoldResume).(lock := Held(t))
    case HoldResume => Goto(s, t, Adding).(lock := Free, resizing := false, addingCount := s.addingCount + 1)
  }

  ghost predicate Run(states: seq<State>, actions: seq<Action>) {
    && |states| == |actions| + 1 && Init(states[0])
    && forall i {:trigger actions[i]} :: 0 <= i < |actions| ==>
                     Enabled(states[i], actions[i]) && states[i + 1] == Apply(states[i], actions[i])
  }

  // ----- Regions of the call -----

  /** Inside the region counted by `addingCount`. */
  predicate Counted(pc: Pc) {
    pc.Adding? || pc.Added? || pc.Polling? || pc.WantCheck? || pc.HoldCheck?
  }

  predicate HoldsLock(pc: Pc) {
    pc.HoldEnter? || pc.HoldCheck? || pc.HoldFull? || pc.LockedAdding? || pc.LockedAdded? || pc.HoldResume?
  }

  /** From setting `resizing` to resetting it. */
  predicate InResize(pc: Pc) {
    pc.PausingAdders? || PastPause(pc)
  }

  /** From the end of `pauseAdders` to `resumeAdders`. */
  predicate PastPause(pc: Pc) {
    pc.PausingWorkers? || pc.Resizing? || pc.ResumingWorkers? || pc.WantResume? || pc.HoldResume?
  }

  /** Inside a call of the queue's `add`. */
  predicate InAdd(pc: Pc) {
    pc.Adding? || pc.Polling? || pc.LockedAdding?
  }

  /** The result of the last add of this call, if it has returned. */
  function LastIndex(pc: Pc): int {
    match pc
    case Added(i) => i
    case WantCheck(i) => i
    case HoldCheck(i) => i
    case LockedAdded(i) => i
    case Done(i) => i
    case _ => IS_FULL
  }

  function CountAdding(pcs: seq<Pc>): nat {
    if pcs == [] then 0 else (if Counted(pcs[0]) then 1 else 0) + CountAdding(pcs[1..])
  }

  lemma {:induction false} CountAfterStep(pcs: seq<Pc>, t: nat, pc: Pc)
    requires t < |pcs|
    ensures CountAdding(pcs[t := pc])
            == CountAdding(pcs) - (if Counted(pcs[t]) then 1 else 0) + (if Counted(pc) then 1 else 0)
  {
    if t == 0 {
      assert pcs[t := pc][1..] == pcs[1..];
    } else {
      CountAfterStep(pcs[1..], t - 1, pc);
      assert pcs[t := pc][1..] == pcs[1..][t - 1 := pc];
    }
  }

  lemma {:induction false} CountPositive(pcs: seq<Pc>, t: nat)
    requires t < |pcs| && Counted(pcs[t])
    ensures CountAdding(pcs) > 0
  {
    if t > 0 {
      CountPositive(pcs[1..], t - 1);
    }
  }

  lemma {:induction false} CountZero(pcs: seq<Pc>)
    requires forall t :: 0 <= t < |pcs| ==> !Counted(pcs[t])
    ensures CountAdding(pcs) == 0
  {
    if pcs != [] {
      CountZero(pcs[1..]);
    }
  }

  // ----- Invariant -----

  ghost predicate LockInv(s: State) {
    && (s.lock.Held? ==> s.lock.thread < |s.pcs|)
    && forall t :: 0 <= t < |s.pcs| ==> (HoldsLock(s.pcs[t]) <==> s.lock == Held(t))
  }

  ghost predicate ResizeInv(s: State) {
    && (forall t, u :: 0 <= t < u < |s.pcs| ==> !(InResize(s.pcs[t]) && InResize(s.pcs[u])))
    && (forall t :: 0 <= t < |s.pcs| && InResize(s.pcs[t]) ==> s.resizing)
    && (s.resizing ==> exists t :: 0 <= t < |s.pcs| && InResize(s.pcs[t]))
    && (forall t :: 0 <= t < |s.pcs| && (s.pcs[t].LockedAdding? || s.pcs[t].LockedAdded?) ==> !s.resizing)
  }

  ghost predicate CountInv(s: State) {
    && s.addingCount == CountAdding(s.pcs)
    && forall t :: 0 <= t < |s.pcs| && PastPause(s.pcs[t]) ==> s.addingCount == 0
  }

  ghost predicate ResultInv(s: State) {
    && (forall t :: 0 <= t < |s.pcs| ==> multiset(s.log)[t] == if LastIndex(s.pcs[t]) >= 0 then 1 else 0)
    && (forall t :: 0 <= t < |s.pcs| ==> Outcome(LastIndex(s.pcs[t])) || s.pcs[t] == Done(IS_TERMINATED))
    && (forall t :: 0 <= t < |s.pcs| && s.pcs[t].Done? ==> s.pcs[t].index != IS_FULL)
  }

  ghost predicate SizeInv(s: State) {
    && s.entrySize > 0 && 1 <= s.initialSize <= UINT_MAX
    && s.size == SizeAfter(s.initialSize, s.grown, s.entrySize)
  }

  /** On the way from an add that found the ring full, and not at its maximal size, to the resize. */
  predicate WantsResize(pc: Pc) {
    || pc == WantCheck(IS_FULL) || pc == HoldCheck(IS_FULL) || pc.HoldFull? || pc.SleepFull? || pc.LockedAdding?
    || pc == LockedAdded(IS_FULL) || pc.PausingAdders? || pc.PausingWorkers? || pc.Resizing?
  }

  /** Nobody asks for a resize of a ring above the limit. */
  ghost predicate DemandInv(s: State) {
    s.entrySize > 0 && forall t :: 0 <= t < |s.pcs| && WantsResize(s.pcs[t]) ==> s.size <= MaxQueueSize(s.entrySize)
  }

  ghost predicate Inv(s: State) {
    LockInv(s) && ResizeInv(s) && CountInv(s) && ResultInv(s) && SizeInv(s) && DemandInv(s)
  }

  lemma StepLock(s: State, a: Action)
    requires Enabled(s, a) && (HoldsLock(s.pcs[a.t]) <==> s.lock == Held(a.t))
    ensures var s' := Apply(s, a);
            && s'.pcs == s.pcs[a.t := s'.pcs[a.t]] && (HoldsLock(s'.pcs[a.t]) <==> s'.lock == Held(a.t))
            && (|| s'.lock == s.lock || (s.lock == Free && s'.lock == Held(a.t))
                || (s.lock == Held(a.t) && s'.lock == Free))
  {
  }

  lemma StepKeepsLock(s: State, a: Action)
    requires LockInv(s) && Enabled(s, a)
    ensures LockInv(Apply(s, a))
  {
    StepLock(s, a);
  }

  /** What a step does to the thread that takes it and to the flag. */
  lemma StepEffect(s: State, a: Action)
    requires Enabled(s, a)
    ensures var s' := Apply(s, a);
            var pc, pc' := s.pcs[a.t], s'.pcs[a.t];
            && s'.pcs == s.pcs[a.t := pc']
            && s'.resizing == (if pc.LockedAdded? then pc.index == IS_FULL else s.resizing && !pc.HoldResume?)
            && (InResize(pc') <==> pc == LockedAdded(IS_FULL) || (InResize(pc) && !pc.HoldResume?))
            && (pc'.LockedAdding? || pc'.LockedAdded? ==> pc.LockedAdding? || (pc.HoldFull? && !s.resizing))
  {
  }

  /** What it does to the counter. */
  lemma StepCount(s: State, a: Action)
    requires Enabled(s, a)
    ensures var s' := Apply(s, a);
            var pc, pc' := s.pcs[a.t], s'.pcs[a.t];
            && s'.pcs == s.pcs[a.t := pc']
            && s'.addingCount == s.addingCount - (if Counted(pc) then 1 else 0) + (if Counted(pc') then 1 else 0)
            && (Counted(pc') && !Counted(pc) ==> pc.HoldResume? || (pc.HoldEnter? && !s.resizing))
            && (PastPause(pc') ==> PastPause(pc) || (pc.PausingAdders? && s.addingCount == 0))
  {
  }

  lemma StepKeepsResize(s: State, a: Action)
    requires Inv(s) && Enabled(s, a)
    ensures ResizeInv(Apply(s, a))
  {
    StepEffect(s, a);
    var s' := Apply(s, a);
    if s'.resizing {
      if s.resizing {
        var t :| 0 <= t < |s.pcs| && InResize(s.pcs[t]);
        assert InResize(s'.pcs[t]);
      } else {
        assert InResize(s'.pcs[a.t]);
      }
    }
  }

  lemma StepKeepsCount(s: State, a: Action)
    requires Inv(s) && Enabled(s, a)
    ensures CountInv(Apply(s, a))
  {
    StepCount(s, a);
    var s' := Apply(s, a);
    CountAfterStep(s.pcs, a.t, s'.pcs[a.t]);
    if Counted(s.pcs[a.t]) {
      CountPositive(s.pcs, a.t);
    }
    forall t | 0 <= t < |s.pcs| && PastPause(s'.pcs[t])
      ensures s'.addingCount == 0
    {
      assert t != a.t ==> s'.pcs[t] == s.pcs[t] && InResize(s.pcs[t]);
    }
  }

  lemma StepResult(s: State, a: Action)
    requires Enabled(s, a) && Outcome(LastIndex(s.pcs[a.t]))
    ensures var s' := Apply(s, a);
            var pc, pc' := s.pcs[a.t], s'.pcs[a.t];
            var before, after := LastIndex(pc), LastIndex(pc');
            && s'.pcs == s.pcs[a.t := pc']
            && s'.log == s.log + (if after >= 0 && before < 0 then [a.t] else [])
            && (before >= 0 ==> after == before)
            && (Outcome(after) || pc' == Done(IS_TERMINATED))
            && pc' != Done(IS_FULL)
  {
  }

  lemma StepKeepsResult(s: State, a: Action)
    requires Inv(s) && Enabled(s, a)
    ensures ResultInv(Apply(s, a))
  {
    StepResult(s, a);
    var s' := Apply(s, a);
    forall t | 0 <= t < |s.pcs|
      ensures multiset(s'.log)[t] == if LastIndex(s'.pcs[t]) >= 0 then 1 else 0
    {
      assert multiset(s'.log)[t] == multiset(s.log)[t] + if s'.log != s.log && t == a.t then 1 else 0;
    }
  }

  lemma StepDemand(s: State, a: Action)
    requires Enabled(s, a) && s.entrySize > 0
    ensures var s' := Apply(s, a);
            var pc, pc' := s.pcs[a.t], s'.pcs[a.t];
            && s'.pcs == s.pcs[a.t := pc'] && s'.entrySize == s.entrySize
            && (WantsResize(pc') ==> WantsResize(pc) || s.size <= MaxQueueSize(s.entrySize))
            && (s'.size != s.size ==> s'.size <= MaxQueueSize(s.entrySize))
  {
  }

  lemma StepKeepsDemand(s: State, a: Action)
    requires DemandInv(s) && Enabled(s, a)
    ensures DemandInv(Apply(s, a))
  {
    StepDemand(s, a);
  }

  lemma StepKeepsInv(s: State, a: Action)
    requires Inv(s) && Enabled(s, a)
    ensures Inv(Apply(s, a))
  {
    StepKeepsLock(s, a);
    StepKeepsResize(s, a);
    StepKeepsCount(s, a);
    StepKeepsResult(s, a);
    StepKeepsDemand(s, a);
  }

  lemma {:induction false} RunKeepsInv(states: seq<State>, actions: seq<Action>, i: nat)
    requires Run(states, actions) && i < |states|
    ensures Inv(states[i])
  {
    if i == 0 {
      CountZero(states[0].pcs);
    } else {
      RunKeepsInv(states, actions, i - 1);
      StepKeepsInv(states[i - 1], actions[i - 1]);
    }
  }

  // ----- Theorems about every run -----

  lemma AloneWhenPaused(s: State, t: nat, u: nat)
    requires Inv(s) && t < |s.pcs| && u < |s.pcs| && PastPause(s.pcs[t]) && u != t
    ensures !InAdd(s.pcs[u]) && !InResize(s.pcs[u])
  {
    if Counted(s.pcs[u]) {
      CountPositive(s.pcs, u);
    }
  }

  /**
   Isolation: from the end of `pauseAdders` until `resumeAdders` resets the flag, no other thread is inside a
   queue add, counted or under the lock, and no other thread resizes.
   */
  lemma ResizeIsolation(states: seq<State>, actions: seq<Action>, i: nat, t: nat, u: nat)
    requires Run(states, actions) && i < |states| && t < |states[i].pcs| && u < |states[i].pcs|
    requires PastPause(states[i].pcs[t]) && u != t
    ensures !InAdd(states[i].pcs[u]) && !InResize(states[i].pcs[u])
  {
    RunKeepsInv(states, actions, i);
    AloneWhenPaused(states[i], t, u);
  }

  /** The counter, the flag and the lock say exactly where the threads are. */
  lemma CountersAreExact(states: seq<State>, actions: seq<Action>, i: nat)
    requires Run(states, actions) && i < |states|
    ensures var s := states[i];
            && s.addingCount == CountAdding(s.pcs)
            && (s.resizing <==> exists t :: 0 <= t < |s.pcs| && InResize(s.pcs[t]))
            && (forall t, u :: 0 <= t < u < |s.pcs| ==> !(InResize(s.pcs[t]) && InResize(s.pcs[u])))
            && (forall t :: 0 <= t < |s.pcs| && s.pcs[t].Done? ==> s.lock != Held(t))
            && ((forall t :: 0 <= t < |s.pcs| ==> s.pcs[t].Done?) ==> s.addingCount == 0 && !s.resizing)
  {
    RunKeepsInv(states, actions, i);
    var s := states[i];
    if forall t :: 0 <= t < |s.pcs| ==> s.pcs[t].Done? {
      CountZero(s.pcs);
    }
  }

  /**
   A finished call never reports "full"; it appended its entry exactly once if it returns a slot, and
   not at all otherwise, however often it retried.
   */
  lemma FinishedCallAddedOnce(states: seq<State>, actions: seq<Action>, i: nat, t: nat)
    requires Run(states, actions) && i < |states| && t < |states[i].pcs| && states[i].pcs[t].Done?
    ensures var index := states[i].pcs[t].index;
            && (index >= 0 || index == CANNOT_ADD || index == IS_TERMINATED)
            && multiset(states[i].log)[t] == if index >= 0 then 1 else 0
  {
    RunKeepsInv(states, actions, i);
  }

  /** The size a producer requests is never below the current one, so the readers are never shifted backwards. */
  lemma NeverShrinks(states: seq<State>, actions: seq<Action>, i: nat, t: nat)
    requires Run(states, actions) && i < |states| && t < |states[i].pcs| && states[i].pcs[t].Resizing?
    ensures var s := states[i];
            s.entrySize > 0 && s.size <= UINT_MAX && GetNewQueueSize(s.size, s.entrySize) >= s.size
  {
    RunKeepsInv(states, actions, i);
    MaxQueueSizeBound(states[i].entrySize);
    assert WantsResize(states[i].pcs[t]);
  }

  lemma StepGrows(s: State, a: Action)
    requires Enabled(s, a)
    ensures var s' := Apply(s, a);
            s.grown <= s'.grown && s'.initialSize == s.initialSize && s'.entrySize == s.entrySize
  {
  }

  lemma GrowsInRun(states: seq<State>, actions: seq<Action>, i: nat)
    requires Run(states, actions) && i < |actions|
    ensures states[i].grown <= states[i + 1].grown
    ensures states[i + 1].initialSize == states[i].initialSize && states[i + 1].entrySize == states[i].entrySize
  {
    StepGrows(states[i], actions[i]);
  }

  lemma {:induction false} GrownInRuns(states: seq<State>, actions: seq<Action>, i: nat, j: nat)
    requires Run(states, actions) && i <= j < |states|
    ensures states[i].grown <= states[j].grown
    ensures states[j].initialSize == states[i].initialSize && states[j].entrySize == states[i].entrySize
  {
    if i < j {
      GrownInRuns(states, actions, i, j - 1);
      GrowsInRun(states, actions, j - 1);
    }
  }

  /** After 29 resizes the size never changes again. */
  lemma SizeSettlesInRuns(states: seq<State>, actions: seq<Action>, i: nat, j: nat)
    requires Run(states, actions) && i <= j < |states| && states[i].grown >= 29
    ensures states[j].size == states[i].size
  {
    RunKeepsInv(states, actions, i);
    RunKeepsInv(states, actions, j);
    GrownInRuns(states, actions, i, j);
    SizeSettles(states[i].initialSize, states[i].grown, states[i].entrySize);
    SizeSettles(states[i].initialSize, states[j].grown, states[i].entrySize);
  }

  /** A ring created within the limit has doubled once per resize, up to the limit. */
  lemma SizeInRuns(states: seq<State>, actions: seq<Action>, i: nat)
    requires Run(states, actions) && i < |states|
    ensures var s := states[i];
            s.entrySize > 0 && (s.initialSize <= MaxQueueSize(s.entrySize) ==>
              s.size == Min(s.initialSize * Pow2(s.grown), MaxQueueSize(s.entrySize)))
  {
    RunKeepsInv(states, actions, i);
    var s := states[i];
    if s.initialSize <= MaxQueueSize(s.entrySize) {
      SizeAfterIsDoubling(s.initialSize, s.grown, s.entrySize);
    }
  }
}
