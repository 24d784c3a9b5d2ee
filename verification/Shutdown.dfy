/**
 Unregistering readers once the queue is drained: every reader, waiting or parked, is on a slot that holds no entry.
 This is what `QueueProcessor::stop` waits for before it stops the workers.
 */
module Shutdown {
  import opened ReaderLists
  import opened RingIndex
  import opened SyncQueueProtocol

  /** Every reader is assigned an entry that is still to be added; the ring holds nothing. */
  ghost predicate Unpopulated<T, E>(s: State<T, E>) {
    && s.size > 0 && Placed(s.list.readers, s.base, s.size)
    && s.list.readNum == |s.added| && s.list.readIndex == s.writeIndex == Slot(|s.added|, s.base, s.size)
    && forall i :: 0 <= i < |s.list.readers| ==> |s.added| <= s.list.readers[i].num < |s.added| + s.size
  }

  /** In a reachable state it is enough that no reader's slot is populated. */
  lemma NonePopulatedIsUnpopulated<T, E>(s: State<T, E>)
    requires Inv(s) && s.list.readers != []
    requires forall i :: 0 <= i < |s.list.readers| ==> |s.added| <= s.list.readers[i].num
    ensures Unpopulated(s)
  {
    forall i | 0 <= i < |s.list.readers| {
      NumInRange(s, i);
    }
  }

  /** The states a restart leads to are such states, however many readers there are. */
  lemma RestartedIsUnpopulated<T, E>(s: State<T, E>)
    requires Inv(s) && Restarted(s)
    ensures Unpopulated(s)
  {
    forall i | 0 <= i < |s.list.readers|
      ensures |s.added| <= s.list.readers[i].num < |s.added| + s.size
    {
      assert RestartedAt(s.list.readers[i], i, |s.list.readers|, |s.added|, s.size);
    }
  }

  /** A reader that leaves never finds its slot populated, so `readIndex` stays where it is. */
  lemma LeaveKeepsUnpopulated<T, E>(s: State<T, E>, k: nat)
    requires Unpopulated(s) && k < |s.list.readers|
    ensures var s' := s.(list := Leave(s, k)); Unpopulated(s') && |s'.list.readers| == |s.list.readers| - 1
  {
    EmptyTestExact(|s.added|, s.list.readers[k].num, |s.added|, s.base, s.size);
  }

  // ----- Accounts -----

  /** In a drained state everything added is served, and accounts are in order if the numbers held have no gap. */
  ghost predicate NoGap<T, E>(s: State<T, E>) {
    forall n :: n in Held(s.list.readers) <==> |s.added| <= n < NextNum(s.list)
  }

  lemma AccountedIsNoGap<T, E>(s: State<T, E>)
    requires Unpopulated(s) && forall n :: n in Served(s) <==> 0 <= n < |s.added|
    ensures Accounted(s) <==> NoGap(s)
  {
    assert forall n :: n in Held(s.list.readers) ==> |s.added| <= n;
    assert NextNum(s.list) >= |s.added|;
    if Accounted(s) {
      forall n
        ensures n in Held(s.list.readers) <==> |s.added| <= n < NextNum(s.list)
      {
        assert n in Served(s) || n in Held(s.list.readers) <==> 0 <= n < NextNum(s.list);
      }
    }
  }

  lemma AllServed<T, E>(s: State<T, E>)
    requires Unpopulated(s) && Accounted(s) && Delivered(s)
    ensures forall n :: n in Served(s) <==> 0 <= n < |s.added|
  {
    forall n
      ensures n in Served(s) <==> 0 <= n < |s.added|
    {
      assert n in Served(s) || n in Held(s.list.readers) <==> 0 <= n < NextNum(s.list);
      assert NextNum(s.list) >= |s.added|;
    }
  }

  lemma HeldPrefix<T>(readers: seq<Reader<T>>)
    requires Ordered(readers) && readers != []
    ensures var last := |readers| - 1;
            Held(readers[..last]) == Held(readers) - (if readers[last].done then {} else {readers[last].num})
  {
    var last := |readers| - 1;
    assert readers == readers[..last] + [readers[last]];
    forall i | 0 <= i < last
      ensures !readers[last].done ==> readers[..last][i].num < readers[last].num
    {
      assert Precedes(readers[i], readers[last]);
    }
  }

  /** The last but one is on the number just below a waiting front's, and level with a parked front. */
  lemma SecondToFront<T, E>(s: State<T, E>)
    requires Unpopulated(s) && Ordered(s.list.readers) && NoGap(s) && |s.list.readers| >= 2
    ensures var readers, last := s.list.readers, |s.list.readers| - 1;
            readers[last - 1].num == readers[last].num - (if readers[last].done then 0 else 1)
  {
    var readers, last := s.list.readers, |s.list.readers| - 1;
    var n := readers[last].num - (if readers[last].done then 0 else 1);
    assert Precedes(readers[last - 1], readers[last]);
    assert forall i :: 0 <= i < last - 1 ==> Precedes(readers[i], readers[last - 1]);
    assert n in Held(readers);
  }

  /** The leaving reader waits, and the reader that takes over its slot, the front, has finished and will not look. */
  predicate LosesEntry<T>(l: ReaderList<T>, k: nat)
    requires k < |l.readers|
  {
    k < |l.readers| - 1 && !l.readers[k].done && Front(l).done
  }

  lemma LeaveKeepsOrder<T>(l: ReaderList<T>, size: nat, k: nat, populated: bool)
    requires Ordered(l.readers) && k < |l.readers| && size > 0
    ensures Ordered(Remove(l, size, k, populated).readers)
  {
    var readers, r' := l.readers, Remove(l, size, k, populated).readers;
    if k < |readers| - 1 && readers[k].done {
      WithoutKeepsOrder(readers, k);
    } else if k < |readers| - 1 {
      HandOverKeepsOrder(readers, r', k);
    }
  }

  /** The number nobody holds any more once reader `k` has left, if any. */
  function Released<T>(l: ReaderList<T>, k: nat): set<int>
    requires k < |l.readers|
  {
    if k < |l.readers| - 1 && l.readers[k].done then {}
    else if !Front(l).done then {Front(l).num}
    else if LosesEntry(l, k) then {l.readers[k].num}
    else {}
  }

  lemma LeavingReleases<T, E>(s: State<T, E>, k: nat)
    requires Unpopulated(s) && Ordered(s.list.readers) && k < |s.list.readers| && |s.list.readers| >= 2
    ensures Held(Leave(s, k).readers) == Held(s.list.readers) - Released(s.list, k)
  {
    var readers, last := s.list.readers, |s.list.readers| - 1;
    if k < last && readers[k].done {
      HeldAfterFinishedLeaves(readers, k);
    } else {
      HeldPrefix(readers);
      if k < last {
        var moved := readers[last].(index := readers[k].index, num := readers[k].num);
        HeldReplaced(readers[..last], k, moved);
        assert Leave(s, k).readers == readers[..last][k := moved];
      }
    }
  }

  /** Only the front's number can be handed out again. */
  lemma LeavingChangesNext<T, E>(s: State<T, E>, k: nat)
    requires Unpopulated(s) && Ordered(s.list.readers) && NoGap(s) && k < |s.list.readers| && |s.list.readers| >= 2
    ensures var stays := Front(s.list).done || (k < |s.list.readers| - 1 && s.list.readers[k].done);
            NextNum(Leave(s, k)) == NextNum(s.list) - if stays then 0 else 1
  {
    var readers, last, l' := s.list.readers, |s.list.readers| - 1, Leave(s, k);
    SecondToFront(s);
    if k < last && !readers[k].done {
      assert l'.readers[last - 1].num == readers[last - 1].num;
    }
  }

  lemma LeavingKeepsNoGapExactly<T, E>(s: State<T, E>, k: nat)
    requires Unpopulated(s) && Ordered(s.list.readers) && NoGap(s) && k < |s.list.readers|
    ensures NoGap(s.(list := Leave(s, k))) <==> !LosesEntry(s.list, k)
  {
    var l, s' := s.list, s.(list := Leave(s, k));
    LeaveKeepsUnpopulated(s, k);
    if |l.readers| >= 2 {
      LeavingReleases(s, k);
      LeavingChangesNext(s, k);
      if LosesEntry(l, k) {
        assert l.readers[k] in l.readers;
        assert l.readers[k].num in Held(l.readers) && l.readers[k].num !in Held(s'.list.readers);
      }
    }
  }

  /**
   Leaving a drained queue one by one keeps every entry accounted for, exactly unless a waiting reader leaves while a
   parked one is at the front: the front takes over the slot as finished, and nobody will look at it.
   */
  lemma DrainedLeavingKeepsAccountsExactly<T, E>(s: State<T, E>, k: nat)
    requires Unpopulated(s) && Ordered(s.list.readers) && Accounted(s) && Delivered(s) && k < |s.list.readers|
    ensures Accounted(s.(list := Leave(s, k))) <==> !LosesEntry(s.list, k)
  {
    var s' := s.(list := Leave(s, k));
    AllServed(s);
    AccountedIsNoGap(s);
    LeavingKeepsNoGapExactly(s, k);
    LeaveKeepsUnpopulated(s, k);
    assert Served(s') == Served(s);
    AccountedIsNoGap(s');
  }

  // ----- Whole shutdowns -----

  /** Readers unregister one after the other, each time the one at position `ks[i]`. */
  ghost predicate Removals<T, E>(states: seq<State<T, E>>, ks: seq<nat>) {
    && |states| == |ks| + 1
    && forall i {:trigger ks[i]} :: 0 <= i < |ks| ==>
                     && ks[i] < |states[i].list.readers| && states[i].size > 0
                     && states[i + 1] == states[i].(list := Leave(states[i], ks[i]))
  }

  lemma {:induction false} RemovalsKeepUnpopulated<T, E>(states: seq<State<T, E>>, ks: seq<nat>, i: nat)
    requires Removals(states, ks) && Unpopulated(states[0]) && i <= |ks|
    ensures Unpopulated(states[i]) && |states[i].list.readers| == |states[0].list.readers| - i
    ensures states[i] == states[0].(list := states[i].list)
  {
    if i > 0 {
      RemovalsKeepUnpopulated(states, ks, i - 1);
      LeaveKeepsUnpopulated(states[i - 1], ks[i - 1]);
    }
  }

  lemma EmptyListIsDrained<T, E>(s: State<T, E>, s': State<T, E>)
    requires Inv(s) && Unpopulated(s) && Unpopulated(s') && s' == s.(list := s'.list) && s'.list.readers == []
    ensures Inv(s') && Drained(s')
  {
    AllServed(s);
    assert Served(s') == Served(s);
    AccountedIsNoGap(s');
  }

  /**
   Any number of readers, waiting or parked, on slots that hold no entry can unregister in any order, through every
   branch of `remove`.  `readIndex` stays on the write index throughout, and when the last reader has gone everything is
   accounted for: what was added was served, and the next number to hand out is the next to be added.
   */
  lemma ShutdownInAnyOrder<T, E>(states: seq<State<T, E>>, ks: seq<nat>, i: nat)
    requires Removals(states, ks) && Inv(states[0]) && states[0].list.readers != [] && i <= |ks|
    requires forall r :: 0 <= r < |states[0].list.readers| ==> |states[0].added| <= states[0].list.readers[r].num
    ensures Unpopulated(states[i]) && |states[i].list.readers| == |states[0].list.readers| - i
    ensures states[i] == states[0].(list := states[i].list) && states[i].list.readIndex == states[i].writeIndex
    ensures i == |states[0].list.readers| ==>
              && Inv(states[i]) && Drained(states[i]) && Restarted(states[i])
              && NextNum(states[i].list) == |states[i].added|
  {
    NonePopulatedIsUnpopulated(states[0]);
    RemovalsKeepUnpopulated(states, ks, i);
    if i == |states[0].list.readers| {
      EmptyListIsDrained(states[0], states[i]);
      DrainedIsRestarted(states[i]);
    }
  }

  /** A partial shutdown keeps every entry accounted for while no reader leaves as in `LosesEntry`. */
  lemma {:induction false} PartialShutdown<T, E>(states: seq<State<T, E>>, ks: seq<nat>, i: nat)
    requires Removals(states, ks) && Inv(states[0]) && states[0].list.readers != [] && i <= |ks|
    requires forall r :: 0 <= r < |states[0].list.readers| ==> |states[0].added| <= states[0].list.readers[r].num
    requires forall j :: 0 <= j < i ==> !LosesEntry(states[j].list, ks[j])
    ensures Unpopulated(states[i]) && Ordered(states[i].list.readers) && Accounted(states[i]) && Delivered(states[i])
  {
    if i == 0 {
      NonePopulatedIsUnpopulated(states[0]);
    } else {
      PartialShutdown(states, ks, i - 1);
      var s, k := states[i - 1], ks[i - 1];
      DrainedLeavingKeepsAccountsExactly(s, k);
      LeaveKeepsUnpopulated(s, k);
      var populated := !EmptyTest(s.writeIndex, s.list.readIndex, s.list.readers[k].index, s.list.readIndex, s.size);
      LeaveKeepsOrder(s.list, s.size, k, populated);
    }
  }

  /**
   If only readers that wait are there, they stay on consecutive slots from the write index on, and every state on the
   way is one the queue can go on from.
   */
  lemma {:induction false} WaitingReadersLeaveInAnyOrder<T, E>(states: seq<State<T, E>>, ks: seq<nat>, i: nat)
    requires Removals(states, ks) && Inv(states[0]) && AllWaiting(states[0]) && states[0].list.readers != []
    requires i <= |ks|
    ensures Inv(states[i]) && Drained(states[i]) && |states[i].list.readers| == |states[0].list.readers| - i
  {
    if i == 0 {
      AllWaitingIsDrained(states[0]);
    } else {
      WaitingReadersLeaveInAnyOrder(states, ks, i - 1);
      WaitingReadersLeave(states[i - 1], ks[i - 1]);
    }
  }

  /** Four readers in an empty ring of three: three wait for entries 0, 1 and 2, one is parked with the second. */
  function FourReaders(): State<int, int> {
    var readers := [Reader(0, 0, false, 0), Reader(1, 1, false, 1), Reader(2, 1, true, 1), Reader(3, 2, false, 2)];
    State(3, 0, [0, 0, 0], 0, ReaderList(readers, 0, 0), NoWriter, [], [])
  }

  lemma FourReadersDrained()
    ensures Inv(FourReaders()) && Unpopulated(FourReaders())
  {
    var s := FourReaders();
    var readers := s.list.readers;
    DivModUnique(0, 0, 0, 3);
    DivModUnique(1, 0, 1, 3);
    DivModUnique(2, 0, 2, 3);
    assert WellFormed(s.list, 0, 3);
    assert readers[0] in readers && readers[1] in readers && readers[3] in readers;
    assert Held(readers) == {0, 1, 2};
    assert Served(s) == {};
    assert Accounted(s);
  }

  /**
   Reader 3 leaves, then reader 1.  The parked reader is at the front by then, so entry 1 is nobody's, although the next
   entry to hand out is 2: a queue that goes on from here loses it.
   */
  lemma PartialShutdownCanLose()
    ensures var s := FourReaders();
            && |s.list.readers| == 4 && s.size == 3
            && var s1 := s.(list := Leave(s, 3));
            && |s1.list.readers| == 3 && LosesEntry(s1.list, 1)
            && var s2 := s1.(list := Leave(s1, 1));
            1 !in Held(s2.list.readers) && 1 !in Served(s2) && NextNum(s2.list) == 2
  {
    FourReadersDrained();
  }
}
