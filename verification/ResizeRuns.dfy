/**
 What a call of `addToQueue` does from beginning to end: it reports what its last add returned, adds again after a
 resize, goes through when left alone, and is never part of a deadlock.
 */
module ResizeRuns {
  import opened QueueConstants
  import opened RingIndex
  import opened ResizeProtocol

  // ----- Results -----

  /** The last of the first `n` steps that was the return of an add of thread `t`, or -1. */
  function LastAdd(states: seq<State>, actions: seq<Action>, t: nat, n: nat): int
    requires n <= |actions| < |states|
    ensures -1 <= LastAdd(states, actions, t, n) < n
  {
    if n == 0 then -1
    else if actions[n - 1].t == t && t < |states[n - 1].pcs| && InAdd(states[n - 1].pcs[t]) then n - 1
    else LastAdd(states, actions, t, n - 1)
  }

  /** The last of them that was a resize by thread `t`, or -1. */
  function LastResize(states: seq<State>, actions: seq<Action>, t: nat, n: nat): int
    requires n <= |actions| < |states|
    ensures -1 <= LastResize(states, actions, t, n) < n
  {
    if n == 0 then -1
    else if actions[n - 1].t == t && t < |states[n - 1].pcs| && states[n - 1].pcs[t].Resizing? then n - 1
    else LastResize(states, actions, t, n - 1)
  }

  /** Before the first add of the call. */
  predicate BeforeAdd(pc: Pc) {
    pc.Start? || pc.WantEnter? || pc.HoldEnter? || pc.SleepEnter? || pc == Done(IS_TERMINATED)
  }

  /** An add has returned, and its result still stands. */
  predicate AfterAdd(pc: Pc) {
    !BeforeAdd(pc) && !pc.Adding? && !pc.LockedAdding? && !pc.ResumingWorkers? && !pc.WantResume? && !pc.HoldResume?
  }

  /** `last` is the result of the call's last add, `isFirst` that it has made none. */
  predicate ReportsLast(pc: Pc, none: bool, last: int) {
    && (BeforeAdd(pc) ==> none)
    && (AfterAdd(pc) ==> !none && last == LastIndex(pc))
  }

  predicate StepReports(s: State, a: Action, none: bool, last: int)
    requires Enabled(s, a)
  {
    var s', added := Apply(s, a), InAdd(s.pcs[a.t]);
    && s'.pcs == s.pcs[a.t := s'.pcs[a.t]]
    && ReportsLast(s'.pcs[a.t], none && !added, if added then a.index else last)
    && (s'.pcs[a.t] == Done(IS_TERMINATED) ==> s.pcs[a.t].Start? && a.terminated)
  }

  lemma EnteringReports(s: State, a: Action, none: bool, last: int)
    requires Enabled(s, a) && BeforeAdd(s.pcs[a.t]) && ReportsLast(s.pcs[a.t], none, last)
    ensures StepReports(s, a, none, last)
  {
  }

  lemma AddReports(s: State, a: Action, none: bool, last: int)
    requires Enabled(s, a) && InAdd(s.pcs[a.t])
    ensures StepReports(s, a, none, last)
  {
  }

  lemma CheckReports(s: State, a: Action, none: bool, last: int)
    requires Enabled(s, a) && ReportsLast(s.pcs[a.t], none, last) && Outcome(LastIndex(s.pcs[a.t]))
    requires || s.pcs[a.t].Added? || s.pcs[a.t].WantCheck? || s.pcs[a.t].HoldCheck? || s.pcs[a.t].HoldFull?
             || s.pcs[a.t].SleepFull? || s.pcs[a.t].LockedAdded?
    ensures StepReports(s, a, none, last)
  {
  }

  lemma ResizeReports(s: State, a: Action, none: bool, last: int)
    requires Enabled(s, a) && ReportsLast(s.pcs[a.t], none, last)
    requires || s.pcs[a.t].PausingAdders? || s.pcs[a.t].PausingWorkers? || s.pcs[a.t].Resizing?
             || s.pcs[a.t].ResumingWorkers? || s.pcs[a.t].WantResume? || s.pcs[a.t].HoldResume?
    ensures StepReports(s, a, none, last)
  {
  }

  lemma EveryStepReports(s: State, a: Action, none: bool, last: int)
    requires Enabled(s, a) && ReportsLast(s.pcs[a.t], none, last) && Outcome(LastIndex(s.pcs[a.t]))
    ensures StepReports(s, a, none, last)
  {
    var pc := s.pcs[a.t];
    if BeforeAdd(pc) {
      EnteringReports(s, a, none, last);
    } else if InAdd(pc) {
      AddReports(s, a, none, last);
    } else if InResize(pc) {
      ResizeReports(s, a, none, last);
    } else {
      CheckReports(s, a, none, last);
    }
  }

  /** The result a call's last add returned, if it has made one. */
  function LastResult(states: seq<State>, actions: seq<Action>, t: nat, n: nat): int
    requires n <= |actions| < |states|
  {
    if LastAdd(states, actions, t, n) < 0 then 0 else actions[LastAdd(states, actions, t, n)].index
  }

  lemma {:induction false} ResultsInRuns(states: seq<State>, actions: seq<Action>, t: nat, n: nat)
    requires Run(states, actions) && n <= |actions| && t < |states[n].pcs|
    ensures ReportsLast(states[n].pcs[t], LastAdd(states, actions, t, n) < 0, LastResult(states, actions, t, n))
    ensures states[n].pcs[t] == Done(IS_TERMINATED) ==>
              exists j :: 0 <= j < n && actions[j].t == t && actions[j].terminated
                          && t < |states[j].pcs| && states[j].pcs[t].Start?
  {
    if n > 0 {
      var s, a := states[n - 1], actions[n - 1];
      PcsStay(states, actions, n - 1);
      ResultsInRuns(states, actions, t, n - 1);
      RunKeepsInv(states, actions, n - 1);
      if a.t == t && s.pcs[t] != Done(IS_TERMINATED) {
        EveryStepReports(s, a, LastAdd(states, actions, t, n - 1) < 0, LastResult(states, actions, t, n - 1));
      }
    }
  }

  lemma PcsStay(states: seq<State>, actions: seq<Action>, i: nat)
    requires Run(states, actions) && i < |actions|
    ensures actions[i].t < |states[i].pcs| == |states[i + 1].pcs|
    ensures states[i + 1].pcs == states[i].pcs[actions[i].t := states[i + 1].pcs[actions[i].t]]
  {
    StepEffect(states[i], actions[i]);
  }

  /**
   A finished call reports what its last add returned.  In particular it reports "cannot add" only when the ring
   refused the entry, and "terminated" only when it found the processor terminated and made no add.
   */
  lemma FinishedCallReportsLastAdd(states: seq<State>, actions: seq<Action>, t: nat, n: nat)
    requires Run(states, actions) && n <= |actions| && t < |states[n].pcs| && states[n].pcs[t].Done?
    ensures var j, index := LastAdd(states, actions, t, n), states[n].pcs[t].index;
            if index == IS_TERMINATED then
              && j < 0
              && exists i :: 0 <= i < n && actions[i].t == t && actions[i].terminated
                             && t < |states[i].pcs| && states[i].pcs[t].Start?
            else
              j >= 0 && actions[j].index == index && actions[j].t == t && t < |states[j].pcs| && InAdd(states[j].pcs[t])
  {
    ResultsInRuns(states, actions, t, n);
    LastAddIsAdd(states, actions, t, n);
  }

  lemma {:induction false} LastAddIsAdd(states: seq<State>, actions: seq<Action>, t: nat, n: nat)
    requires n <= |actions| < |states|
    ensures var j := LastAdd(states, actions, t, n);
            j >= 0 ==> actions[j].t == t && t < |states[j].pcs| && InAdd(states[j].pcs[t])
  {
    if n > 0 {
      LastAddIsAdd(states, actions, t, n - 1);
    }
  }

  /** Between the resize and the add that follows it. */
  predicate AboutToAdd(pc: Pc) {
    pc.ResumingWorkers? || pc.WantResume? || pc.HoldResume? || pc.Adding?
  }

  lemma StepAfterResize(s: State, a: Action)
    requires Enabled(s, a)
    ensures var pc, pc' := s.pcs[a.t], Apply(s, a).pcs[a.t];
            && (AboutToAdd(pc) && !InAdd(pc) ==> AboutToAdd(pc')) && (pc.Resizing? ==> AboutToAdd(pc'))
  {
  }

  /** A call that has resized the ring adds again before it ends. */
  lemma {:induction false} ResizerAddsAgain(states: seq<State>, actions: seq<Action>, t: nat, n: nat)
    requires Run(states, actions) && n <= |actions| && t < |states[n].pcs|
    ensures LastResize(states, actions, t, n) <= LastAdd(states, actions, t, n) || AboutToAdd(states[n].pcs[t])
    ensures states[n].pcs[t].Done? ==> LastResize(states, actions, t, n) <= LastAdd(states, actions, t, n)
  {
    if n > 0 {
      PcsStay(states, actions, n - 1);
      ResizerAddsAgain(states, actions, t, n - 1);
      StepAfterResize(states[n - 1], actions[n - 1]);
    }
  }

  // ----- A call that is left alone -----

  /** Taking the steps of thread `t`, with the given outcomes, leads from `s` to `s'`. */
  ghost predicate Plays(s: State, t: nat, outcomes: seq<int>, s': State)
    decreases |outcomes|
  {
    if outcomes == [] then s' == s
    else
      && Enabled(s, Step(t, outcomes[0], false))
      && Plays(Apply(s, Step(t, outcomes[0], false)), t, outcomes[1..], s')
  }

  lemma {:induction false} PlaysOn(s: State, t: nat, first: seq<int>, s1: State, second: seq<int>, s2: State)
    requires Plays(s, t, first, s1) && Plays(s1, t, second, s2)
    ensures Plays(s, t, first + second, s2)
    decreases |first|
  {
    if first == [] {
      assert first + second == second;
    } else {
      PlaysOn(Apply(s, Step(t, first[0], false)), t, first[1..], s1, second, s2);
      assert (first + second)[1..] == first[1..] + second;
    }
  }

  lemma PlaysOne(s: State, t: nat, outcome: int)
    requires Enabled(s, Step(t, outcome, false))
    ensures Plays(s, t, [outcome], Apply(s, Step(t, outcome, false)))
  {
    assert [outcome][1..] == [];
    assert Plays(Apply(s, Step(t, outcome, false)), t, [], Apply(s, Step(t, outcome, false)));
  }

  /** `waitForResize`: the call enters the counted region. */
  lemma EntersAlone(s: State, t: nat)
    requires t < |s.pcs| && s.pcs[t].Start? && s.lock == Free && !s.resizing
    ensures Plays(s, t, [0, 0, 0], Goto(s, t, Adding).(addingCount := s.addingCount + 1))
  {
    var s1 := Goto(s, t, WantEnter);
    var s2 := Goto(s, t, HoldEnter).(lock := Held(t));
    assert Apply(s, Step(t, 0, false)) == s1 && Apply(s1, Step(t, 0, false)) == s2;
    assert Apply(s2, Step(t, 0, false)) == Goto(s, t, Adding).(addingCount := s.addingCount + 1);
    PlaysThree(s, t, 0, s1, 0, s2, 0);
  }

  lemma PlaysTwo(s: State, t: nat, o1: int, s1: State, o2: int)
    requires Enabled(s, Step(t, o1, false)) && s1 == Apply(s, Step(t, o1, false)) && Enabled(s1, Step(t, o2, false))
    ensures Plays(s, t, [o1, o2], Apply(s1, Step(t, o2, false)))
  {
    PlaysOne(s, t, o1);
    PlaysOne(s1, t, o2);
    PlaysOn(s, t, [o1], s1, [o2], Apply(s1, Step(t, o2, false)));
    assert [o1] + [o2] == [o1, o2];
  }

  lemma PlaysThree(s: State, t: nat, o1: int, s1: State, o2: int, s2: State, o3: int)
    requires Enabled(s, Step(t, o1, false)) && s1 == Apply(s, Step(t, o1, false))
    requires Enabled(s1, Step(t, o2, false)) && s2 == Apply(s1, Step(t, o2, false)) && Enabled(s2, Step(t, o3, false))
    ensures Plays(s, t, [o1, o2, o3], Apply(s2, Step(t, o3, false)))
  {
    PlaysTwo(s, t, o1, s1, o2);
    PlaysOne(s2, t, o3);
    PlaysOn(s, t, [o1, o2], s2, [o3], Apply(s2, Step(t, o3, false)));
    assert [o1, o2] + [o3] == [o1, o2, o3];
  }

  /** An add, counted, whose result is checked under the lock. */
  lemma AddsAlone(s: State, t: nat, index: int)
    requires t < |s.pcs| && s.pcs[t].Adding? && s.lock == Free && Outcome(index) && (index == IS_FULL ==> !IsMaxSize(s))
    ensures Plays(s, t, [index, 0, 0], Logged(Goto(s, t, HoldCheck(index)), t, index).(lock := Held(t)))
  {
    var s1 := Logged(Goto(s, t, Added(index)), t, index);
    var s2 := Logged(Goto(s, t, WantCheck(index)), t, index);
    assert Apply(s, Step(t, index, false)) == s1;
    assert Apply(s1, Step(t, 0, false)) == s2;
    PlaysThree(s, t, index, s1, 0, s2, 0);
    assert Apply(s2, Step(t, 0, false)) == Logged(Goto(s, t, HoldCheck(index)), t, index).(lock := Held(t));
  }

  lemma FinishesAlone(s: State, t: nat, index: int)
    requires t < |s.pcs| && s.pcs[t] == HoldCheck(index) && index != IS_FULL
    ensures Plays(s, t, [0], Goto(s, t, Done(index)).(lock := Free, addingCount := s.addingCount - 1))
  {
    PlaysOne(s, t, 0);
  }

  /** The ring was full: one more add, holding the lock. */
  lemma AddsUnderLock(s: State, t: nat, index: int)
    requires t < |s.pcs| && s.pcs[t] == HoldCheck(IS_FULL) && !s.resizing && Outcome(index)
    ensures Plays(s, t, [0, 0, index],
                  Logged(Goto(s, t, LockedAdded(index)), t, index).(addingCount := s.addingCount - 1))
  {
    var s1 := Goto(s, t, HoldFull).(addingCount := s.addingCount - 1);
    var s2 := Goto(s, t, LockedAdding).(addingCount := s.addingCount - 1);
    assert Apply(s, Step(t, 0, false)) == s1 && Apply(s1, Step(t, 0, false)) == s2;
    PlaysThree(s, t, 0, s1, 0, s2, index);
    assert Apply(s2, Step(t, index, false))
        == Logged(Goto(s, t, LockedAdded(index)), t, index).(addingCount := s.addingCount - 1);
  }

  /** Still full: the call keeps the others out, */
  lemma KeepsOthersOut(s: State, t: nat)
    requires t < |s.pcs| && s.pcs[t] == LockedAdded(IS_FULL) && s.addingCount == 0
    ensures Plays(s, t, [0, 0, 0], Goto(s, t, Resizing).(lock := Free, resizing := true))
  {
    var s0 := s.(lock := Free, resizing := true);
    var s1, s2 := Goto(s0, t, PausingAdders), Goto(s0, t, PausingWorkers);
    assert Apply(s, Step(t, 0, false)) == s1 && Apply(s1, Step(t, 0, false)) == s2;
    PlaysThree(s, t, 0, s1, 0, s2, 0);
    assert Apply(s2, Step(t, 0, false)) == Goto(s0, t, Resizing);
  }

  /** and enlarges the ring. */
  lemma GrowsAlone(s: State, t: nat)
    requires t < |s.pcs| && s.pcs[t] == LockedAdded(IS_FULL) && s.addingCount == 0
    requires s.entrySize > 0 && s.size <= UINT_MAX
    ensures Plays(s, t, [0, 0, 0, 0],
                  Goto(s, t, ResumingWorkers).(lock := Free, resizing := true,
                                               size := GrownSize(s.size, s.entrySize), grown := s.grown + 1))
  {
    var s3 := Goto(s, t, Resizing).(lock := Free, resizing := true);
    KeepsOthersOut(s, t);
    PlaysOne(s3, t, 0);
    assert Goto(s3, t, ResumingWorkers).pcs == Goto(s, t, ResumingWorkers).pcs;
    PlaysOn(s, t, [0, 0, 0], s3, [0], Apply(s3, Step(t, 0, false)));
    assert [0, 0, 0] + [0] == [0, 0, 0, 0];
  }

  /** Then it lets the others in and is about to add again. */
  lemma ResumesAlone(s: State, t: nat)
    requires t < |s.pcs| && s.pcs[t].ResumingWorkers? && s.lock == Free
    ensures Plays(s, t, [0, 0, 0], Goto(s, t, Adding).(resizing := false, addingCount := s.addingCount + 1))
  {
    var s1, s2 := Goto(s, t, WantResume), Goto(s, t, HoldResume).(lock := Held(t));
    assert Apply(s, Step(t, 0, false)) == s1 && Apply(s1, Step(t, 0, false)) == s2;
    PlaysThree(s, t, 0, s1, 0, s2, 0);
    assert Apply(s2, Step(t, 0, false)) == Goto(s, t, Adding).(resizing := false, addingCount := s.addingCount + 1);
  }

  /** A counted add that does not find the ring full ends the call with its result. */
  lemma AddEndsCall(s: State, t: nat, index: int)
    requires t < |s.pcs| && s.pcs[t].Adding? && s.lock == Free && Outcome(index) && index != IS_FULL
    ensures Plays(s, t, [index, 0, 0, 0], Logged(Goto(s, t, Done(index)), t, index).(addingCount := s.addingCount - 1))
  {
    var s1 := Logged(Goto(s, t, HoldCheck(index)), t, index).(lock := Held(t));
    AddsAlone(s, t, index);
    FinishesAlone(s1, t, index);
    var s2 := Logged(Goto(s, t, Done(index)), t, index).(addingCount := s.addingCount - 1);
    assert Goto(s1, t, Done(index)).(lock := Free, addingCount := s.addingCount - 1) == s2;
    PlaysOn(s, t, [index, 0, 0], s1, [0], s2);
    assert [index, 0, 0] + [0] == [index, 0, 0, 0];
  }

  /** A call that finds room, or that the ring refuses, with nobody in its way, returns what the add returned. */
  lemma CallWithoutResize(s: State, t: nat, index: int)
    requires t < |s.pcs| && s.pcs[t].Start? && s.lock == Free && !s.resizing && Outcome(index) && index != IS_FULL
    ensures Plays(s, t, [0, 0, 0] + [index, 0, 0, 0], Logged(Goto(s, t, Done(index)), t, index))
  {
    var s1 := Goto(s, t, Adding).(addingCount := s.addingCount + 1);
    EntersAlone(s, t);
    AddEndsCall(s1, t, index);
    PlaysOn(s, t, [0, 0, 0], s1, [index, 0, 0, 0], Logged(Goto(s, t, Done(index)), t, index));
  }

  /** A call that finds the ring full is about to check what the add under the lock returned. */
  lemma FindsFull(s: State, t: nat, index: int)
    requires t < |s.pcs| && s.pcs[t].Start? && s.lock == Free && !s.resizing && !IsMaxSize(s) && Outcome(index)
    ensures Plays(s, t, [0, 0, 0] + [IS_FULL, 0, 0] + [0, 0, index],
                  Logged(Goto(s, t, LockedAdded(index)), t, index).(lock := Held(t)))
  {
    var s1 := Goto(s, t, Adding).(addingCount := s.addingCount + 1);
    var s2 := Goto(s1, t, HoldCheck(IS_FULL)).(lock := Held(t));
    var s3 := Logged(Goto(s, t, LockedAdded(index)), t, index).(lock := Held(t));
    EntersAlone(s, t);
    AddsAlone(s1, t, IS_FULL);
    AddsUnderLock(s2, t, index);
    assert Goto(s2, t, LockedAdded(index)).pcs == s3.pcs;
    PlaysOn(s, t, [0, 0, 0], s1, [IS_FULL, 0, 0], s2);
    PlaysOn(s, t, [0, 0, 0] + [IS_FULL, 0, 0], s2, [0, 0, index], s3);
  }

  /** If the ring is not full then, the call returns what that add returned. */
  lemma CallThatTriesAgain(s: State, t: nat, index: int)
    requires t < |s.pcs| && s.pcs[t].Start? && s.lock == Free && !s.resizing && !IsMaxSize(s)
    requires Outcome(index) && index != IS_FULL
    ensures Plays(s, t, [0, 0, 0] + [IS_FULL, 0, 0] + [0, 0, index] + [0], Logged(Goto(s, t, Done(index)), t, index))
  {
    var s3 := Logged(Goto(s, t, LockedAdded(index)), t, index).(lock := Held(t));
    FindsFull(s, t, index);
    PlaysOne(s3, t, 0);
    assert Apply(s3, Step(t, 0, false)) == Logged(Goto(s, t, Done(index)), t, index);
    PlaysOn(s, t, [0, 0, 0] + [IS_FULL, 0, 0] + [0, 0, index], s3, [0], Logged(Goto(s, t, Done(index)), t, index));
  }

  /** The ring after the resize this call carries out. */
  function Grown(s: State): State
    requires s.entrySize > 0 && s.size <= UINT_MAX
  {
    s.(size := GrownSize(s.size, s.entrySize), grown := s.grown + 1)
  }

  lemma GrowsAndResumes(s: State, t: nat)
    requires t < |s.pcs| && s.pcs[t] == LockedAdded(IS_FULL) && s.addingCount == 0
    requires s.entrySize > 0 && s.size <= UINT_MAX
    ensures Plays(s, t, [0, 0, 0, 0] + [0, 0, 0],
                  Grown(Goto(s, t, Adding).(lock := Free, resizing := false, addingCount := 1)))
  {
    var s1 := Grown(Goto(s, t, ResumingWorkers).(lock := Free, resizing := true));
    var s2 := Grown(Goto(s, t, Adding).(lock := Free, resizing := false, addingCount := 1));
    GrowsAlone(s, t);
    ResumesAlone(s1, t);
    assert Goto(s1, t, Adding).pcs == s2.pcs;
    PlaysOn(s, t, [0, 0, 0, 0], s1, [0, 0, 0], s2);
  }

  /** The call resizes, adds again, and returns the result of that add. */
  lemma ResizesThenAdds(s: State, t: nat, index: int)
    requires t < |s.pcs| && s.pcs[t] == LockedAdded(IS_FULL) && s.addingCount == 0
    requires s.entrySize > 0 && s.size <= UINT_MAX && Outcome(index) && index != IS_FULL
    ensures Plays(s, t, [0, 0, 0, 0] + [0, 0, 0] + [index, 0, 0, 0],
                  Logged(Grown(Goto(s, t, Done(index)).(lock := Free, resizing := false)), t, index))
  {
    var s1 := Grown(Goto(s, t, Adding).(lock := Free, resizing := false, addingCount := 1));
    var s2 := Logged(Grown(Goto(s, t, Done(index)).(lock := Free, resizing := false)), t, index);
    GrowsAndResumes(s, t);
    AddEndsCall(s1, t, index);
    assert Goto(s1, t, Done(index)).pcs == s2.pcs;
    PlaysOn(s, t, [0, 0, 0, 0] + [0, 0, 0], s1, [index, 0, 0, 0], s2);
  }

  /** A call that finds the ring full both times, with nobody else adding, enlarges it and adds again. */
  lemma CallThatResizes(s: State, t: nat, index: int)
    requires t < |s.pcs| && s.pcs[t].Start? && s.lock == Free && !s.resizing && !IsMaxSize(s) && s.addingCount == 0
    requires s.entrySize > 0 && s.size <= UINT_MAX && Outcome(index) && index != IS_FULL
    ensures Plays(s, t, ([0, 0, 0] + [IS_FULL, 0, 0] + [0, 0, IS_FULL]) + ([0, 0, 0, 0] + [0, 0, 0] + [index, 0, 0, 0]),
                  Logged(Grown(Goto(s, t, Done(index))), t, index))
  {
    var s3 := Goto(s, t, LockedAdded(IS_FULL)).(lock := Held(t));
    FindsFull(s, t, IS_FULL);
    ResizesThenAdds(s3, t, index);
    assert Goto(s3, t, Done(index)).pcs == Goto(s, t, Done(index)).pcs;
    PlaysOn(s, t, [0, 0, 0] + [IS_FULL, 0, 0] + [0, 0, IS_FULL], s3,
            [0, 0, 0, 0] + [0, 0, 0] + [index, 0, 0, 0], Logged(Grown(Goto(s, t, Done(index))), t, index));
  }

  /** At its maximal size a full ring is tried again and again, until the add returns something else. */
  lemma CallThatPolls(s: State, t: nat, index: int)
    requires t < |s.pcs| && s.pcs[t] == Added(IS_FULL) && IsMaxSize(s) && Outcome(index) && index != IS_FULL
    ensures Plays(s, t, [0, IS_FULL, index], Logged(Goto(s, t, WantCheck(index)), t, index))
  {
    var s1 := Goto(s, t, Polling);
    assert Apply(s, Step(t, 0, false)) == s1 && Apply(s1, Step(t, IS_FULL, false)) == s1;
    PlaysThree(s, t, 0, s1, IS_FULL, s1, index);
    assert Apply(s1, Step(t, index, false)) == Logged(Goto(s, t, WantCheck(index)), t, index);
  }

  /** A call on a terminated processor says so and does nothing else. */
  lemma CallOnTerminated(s: State, t: nat)
    requires t < |s.pcs| && s.pcs[t].Start?
    ensures Enabled(s, Step(t, 0, true)) && Apply(s, Step(t, 0, true)) == Goto(s, t, Done(IS_TERMINATED))
  {
  }

  /** A call that begins during a resize sleeps, */
  lemma WaitsForResize(s: State, t: nat)
    requires t < |s.pcs| && s.pcs[t].Start? && s.lock == Free && s.resizing
    ensures Plays(s, t, [0, 0, 0], Goto(s, t, SleepEnter))
  {
    var s1, s2 := Goto(s, t, WantEnter), Goto(s, t, HoldEnter).(lock := Held(t));
    assert Apply(s, Step(t, 0, false)) == s1 && Apply(s1, Step(t, 0, false)) == s2;
    PlaysThree(s, t, 0, s1, 0, s2, 0);
    assert Apply(s2, Step(t, 0, false)) == Goto(s, t, SleepEnter);
  }

  /** and goes on when it has ended. */
  lemma GoesOnAfterResize(s: State, t: nat)
    requires t < |s.pcs| && s.pcs[t].SleepEnter? && s.lock == Free && !s.resizing
    ensures Plays(s, t, [0, 0], Goto(s, t, Adding).(addingCount := s.addingCount + 1))
  {
    var s1 := Goto(s, t, HoldEnter).(lock := Held(t));
    PlaysTwo(s, t, 0, s1, 0);
    assert Apply(s1, Step(t, 0, false)) == Goto(s, t, Adding).(addingCount := s.addingCount + 1);
  }

  /** So does one that wants to resize while another does. */
  lemma TriesAgainAfterResize(s: State, t: nat)
    requires t < |s.pcs| && s.pcs[t].SleepFull? && s.lock == Free && !s.resizing
    ensures Plays(s, t, [0, 0], Goto(s, t, LockedAdding).(lock := Held(t)))
  {
    var s1 := Goto(s, t, HoldFull).(lock := Held(t));
    PlaysTwo(s, t, 0, s1, 0);
    assert Apply(s1, Step(t, 0, false)) == Goto(s, t, LockedAdding).(lock := Held(t));
  }

  // ----- No deadlock -----

  predicate IsAsleep(pc: Pc) {
    pc.SleepEnter? || pc.SleepFull?
  }

  /** Some outcome lets the thread step. */
  predicate CanStep(s: State, t: nat) {
    Enabled(s, Step(t, IS_FULL, false))
  }

  lemma HolderCanStep(s: State, t: nat)
    requires t < |s.pcs| && HoldsLock(s.pcs[t])
    ensures CanStep(s, t)
  {
  }

  lemma FreeCanStep(s: State, t: nat)
    requires t < |s.pcs| && s.lock == Free && !s.pcs[t].Done? && s.entrySize > 0 && s.size <= UINT_MAX
    requires s.pcs[t].PausingAdders? ==> s.addingCount == 0
    ensures CanStep(s, t)
  {
  }

  lemma {:induction false} SomebodyCounted(pcs: seq<Pc>) returns (t: nat)
    requires CountAdding(pcs) > 0
    ensures t < |pcs| && Counted(pcs[t])
  {
    if Counted(pcs[0]) {
      t := 0;
    } else {
      t := SomebodyCounted(pcs[1..]);
      t := t + 1;
    }
  }

  /**
   The calls never block each other: while one is unfinished, some thread can step, and it is not one that sleeps for a
   resize to end unless that resize has ended.
   */
  lemma SomebodyCanStep(states: seq<State>, actions: seq<Action>, i: nat, u: nat) returns (t: nat)
    requires Run(states, actions) && i < |states| && u < |states[i].pcs| && !states[i].pcs[u].Done?
    ensures CanStep(states[i], t) && t < |states[i].pcs| && (IsAsleep(states[i].pcs[t]) ==> !states[i].resizing)
  {
    RunKeepsInv(states, actions, i);
    t := UnblockedThread(states[i], u);
  }

  lemma UnblockedThread(s: State, u: nat) returns (t: nat)
    requires Inv(s) && u < |s.pcs| && !s.pcs[u].Done?
    ensures CanStep(s, t) && t < |s.pcs| && (IsAsleep(s.pcs[t]) ==> !s.resizing)
  {
    if s.lock.Held? {
      t := s.lock.thread;
      HolderCanStep(s, t);
    } else {
      t := u;
      if s.resizing && !InResize(s.pcs[u]) {
        t :| 0 <= t < |s.pcs| && InResize(s.pcs[t]);
      }
      if s.pcs[t].PausingAdders? && s.addingCount > 0 {
        t := SomebodyCounted(s.pcs);
      }
      FreeCanStep(s, t);
    }
  }
}
