/** What every run of the multi-reader ring guarantees, and exactly when it can stop making progress. */
module SyncQueueTheorems {
  import opened ReaderLists
  import opened RingIndex
  import opened SyncQueueProtocol

  // ----- Exactly-once delivery -----

  /**
   In every state of every run, the numbers handed out so far split into those delivered and those
   held by one reader each that is still to be served; no number is delivered twice, and what was
   delivered for number `n` is the `n`-th entry added.
   */
  lemma ExactlyOnceDelivery<T, E>(states: seq<State<T, E>>, actions: seq<Action<T, E>>, i: nat)
    requires Run(states, actions) && i < |states|
    ensures var s := states[i];
            var readers := s.list.readers;
            && Served(s) !! Held(readers)
            && (forall n :: n in Served(s) || n in Held(readers) <==> 0 <= n < NextNum(s.list))
            && (forall j, k :: 0 <= j < k < |readers| && !readers[j].done && !readers[k].done ==>
                  readers[j].num != readers[k].num)
            && (forall j, k :: 0 <= j < k < |s.delivered| ==> s.delivered[j].num != s.delivered[k].num)
            && (forall d :: d in s.delivered ==> 0 <= d.num < |s.added| && d.entry == s.added[d.num])
  {
    RunKeepsInv(states, actions, i);
    var readers := states[i].list.readers;
    forall j, k | 0 <= j < k < |readers| && !readers[j].done && !readers[k].done
      ensures readers[j].num != readers[k].num
    {
      assert Precedes(readers[j], readers[k]);
    }
  }

  /** The list keeps its shape through every interleaving of moves, squeezes, registrations and resizes. */
  lemma ListShapeInRuns<T, E>(states: seq<State<T, E>>, actions: seq<Action<T, E>>, i: nat)
    requires Run(states, actions) && i < |states|
    ensures var s := states[i];
            && WellFormed(s.list, s.base, s.size)
            && s.list.readNum <= |s.added| <= s.list.readNum + s.size - 1
            && (s.list.readers != [] ==> s.list.readIndex == s.list.readers[0].index)
  {
    RunKeepsInv(states, actions, i);
  }

  lemma StepRaisesReadNum<T, E>(s: State<T, E>, a: Action<T, E>)
    requires Inv(s) && Enabled(s, a)
    ensures s.list.readNum <= Apply(s, a).list.readNum && s.added <= Apply(s, a).added
  {
    match a
    case Register(id) => AddKeepsShape(s.list, s.base, s.size, id);
    case Move(k) => MoveListFacts(s, k);
    case Unregister(k) =>
      var populated := !EmptyTest(s.writeIndex, s.list.readIndex, s.list.readers[k].index, s.list.readIndex, s.size);
      RemoveKeepsShape(s.list, s.base, s.size, k, populated);
    case _ =>
  }

  lemma RaisesInRun<T, E>(states: seq<State<T, E>>, actions: seq<Action<T, E>>, i: nat)
    requires Run(states, actions) && i < |actions|
    ensures states[i].list.readNum <= states[i + 1].list.readNum && states[i].added <= states[i + 1].added
  {
    RunKeepsInv(states, actions, i);
    StepRaisesReadNum(states[i], actions[i]);
  }

  lemma BehindAll<T, E>(states: seq<State<T, E>>, actions: seq<Action<T, E>>, i: nat)
    requires Run(states, actions) && i < |states|
    ensures states[i].list.readNum <= |states[i].added|
    ensures forall k :: 0 <= k < |states[i].list.readers| ==> states[i].list.readNum <= states[i].list.readers[k].num
  {
    RunKeepsInv(states, actions, i);
    forall k | 0 <= k < |states[i].list.readers| {
      NumInRange(states[i], k);
    }
  }

  lemma {:induction false} ReadNumRises<T, E>(states: seq<State<T, E>>, actions: seq<Action<T, E>>, i: nat, j: nat)
    requires Run(states, actions) && i <= j < |states|
    ensures states[i].list.readNum <= states[j].list.readNum
  {
    if i < j {
      ReadNumRises(states, actions, i, j - 1);
      RaisesInRun(states, actions, j - 1);
    }
  }

  lemma PrefixOfPrefix<E>(a: seq<E>, b: seq<E>, c: seq<E>)
    requires a <= b <= c
    ensures a <= c
  {
  }

  lemma {:induction false} AddedGrows<T, E>(states: seq<State<T, E>>, actions: seq<Action<T, E>>, i: nat, j: nat)
    requires Run(states, actions) && i <= j < |states|
    ensures states[i].added <= states[j].added
  {
    if i < j {
      AddedGrows(states, actions, i, j - 1);
      RaisesInRun(states, actions, j - 1);
      PrefixOfPrefix(states[i].added, states[j - 1].added, states[j].added);
    }
  }

  /** `readIndex` only moves forward, and never past the write index or past a reader. */
  lemma ReadIndexMonotone<T, E>(states: seq<State<T, E>>, actions: seq<Action<T, E>>, i: nat, j: nat)
    requires Run(states, actions) && i <= j < |states|
    ensures states[i].list.readNum <= states[j].list.readNum <= |states[j].added| && states[i].added <= states[j].added
    ensures forall k :: 0 <= k < |states[j].list.readers| ==> states[j].list.readNum <= states[j].list.readers[k].num
  {
    ReadNumRises(states, actions, i, j);
    AddedGrows(states, actions, i, j);
    BehindAll(states, actions, j);
  }

  // ----- What is added are the callers' entries -----

  /** The argument of the last call of `add` that began within the first `n` steps, if any. */
  function LastArgument<T, E>(actions: seq<Action<T, E>>, n: nat): seq<E>
    requires n <= |actions|
  {
    if n == 0 then []
    else if actions[n - 1].EnterAdd? then [actions[n - 1].entry]
    else LastArgument(actions, n - 1)
  }

  /** The arguments of the calls that published within the first `n` steps, in order. */
  function PublishedArguments<T, E>(actions: seq<Action<T, E>>, n: nat): seq<E>
    requires n <= |actions|
  {
    if n == 0 then []
    else PublishedArguments(actions, n - 1) + if actions[n - 1].Publish? then LastArgument(actions, n - 1) else []
  }

  lemma StepHandlesArgument<T, E>(s: State<T, E>, a: Action<T, E>)
    requires Enabled(s, a)
    ensures var s' := Apply(s, a);
            && s'.added == s.added + (if a.Publish? then [s.writer.entry] else [])
            && (!s'.writer.NoWriter? ==>
                  if a.EnterAdd? then s'.writer.entry == a.entry
                  else !s.writer.NoWriter? && s'.writer.entry == s.writer.entry)
            && (a.Publish? ==> !s.writer.NoWriter?)
  {
  }

  /** The thread inside `add` writes its own argument; what is added are the arguments of the calls, in their order. */
  lemma {:induction false} AddedAreArguments<T, E>(states: seq<State<T, E>>, actions: seq<Action<T, E>>, n: nat)
    requires Run(states, actions) && n <= |actions|
    ensures states[n].added == PublishedArguments(actions, n)
    ensures !states[n].writer.NoWriter? ==> LastArgument(actions, n) == [states[n].writer.entry]
  {
    if n > 0 {
      AddedAreArguments(states, actions, n - 1);
      StepHandlesArgument(states[n - 1], actions[n - 1]);
    }
  }

  // ----- Reads without copying -----

  /** The step is a queue call by the reader named `id`. */
  predicate ActsOn<T(==), E>(s: State<T, E>, a: Action<T, E>, id: T) {
    match a
    case Check(k) => k < |s.list.readers| && s.list.readers[k].id == id
    case Move(k) => k < |s.list.readers| && s.list.readers[k].id == id
    case Unregister(k) => k < |s.list.readers| && s.list.readers[k].id == id
    case _ => false
  }

  lemma MoveKeepsOthers<T>(l: ReaderList<T>, size: nat, k: nat, m: nat)
    requires k < |l.readers| && m < |l.readers| && m != k && size > 0
    ensures var r' := MoveToFront(l, size, k).list.readers;
            && |r'| == |l.readers| && l.readers[m] in r'
            && (MoveToFront(l, size, k).ok ==> l.readers[m] in r'[..|r'| - 1])
  {
    var last := |l.readers| - 1;
    var r' := MoveToFront(l, size, k).list.readers;
    if !Spans(l, size) {
      assert r'[..last][if m < k then m else m - 1] == l.readers[m];
    } else if k == 0 && last >= 2 {
      assert r'[if m < last then m - 1 else m] == l.readers[m];
    } else {
      assert r'[m] == l.readers[m];
    }
  }

  lemma MoveActionKeepsOthers<T, E>(s: State<T, E>, k: nat, m: nat)
    requires Enabled(s, Move(k)) && m < |s.list.readers| && m != k
    ensures s.list.readers[m] in Apply(s, Move(k)).list.readers
  {
    var moved := MoveToFront(s.list, s.size, k);
    MoveKeepsOthers(s.list, s.size, k, m);
    if moved.ok {
      var r' := moved.list.readers;
      assert Unchecked(moved.list).readers[..|r'| - 1] == r'[..|r'| - 1];
    }
  }

  lemma AddKeepsOthers<T>(l: ReaderList<T>, size: nat, id: T, m: nat)
    requires m < |l.readers| && size > 0
    ensures l.readers[m] in Add(l, size, id).readers
  {
    var r', last := Add(l, size, id).readers, |l.readers| - 1;
    assert l.readers[m] == if m < last || !Spans(l, size) then r'[m] else r'[last + 1];
  }

  lemma RemoveKeepsOthers<T>(l: ReaderList<T>, size: nat, k: nat, populated: bool, m: nat)
    requires k < |l.readers| && m < |l.readers| && m != k && size > 0 && SafeToLeave(l, k) && l.readers[m].done
    ensures l.readers[m] in Remove(l, size, k, populated).readers
  {
    var r' := Remove(l, size, k, populated).readers;
    assert l.readers[m] == r'[if k < m && l.readers[k].done then m - 1 else m];
  }

  /** A step by one reader, or by a writer, leaves every other reader its slot, its number and what it found there. */
  lemma OthersKeepReader<T, E>(s: State<T, E>, a: Action<T, E>, m: nat)
    requires Inv(s) && Enabled(s, a) && !a.Resize? && m < |s.list.readers|
    requires !ActsOn(s, a, s.list.readers[m].id) && (a.Unregister? ==> s.list.readers[m].done)
    ensures s.list.readers[m] in Apply(s, a).list.readers
  {
    match a
    case Register(id) => AddKeepsOthers(s.list, s.size, id, m);
    case Check(k) => assert Apply(s, a).list.readers[m] == s.list.readers[m];
    case Move(k) => MoveActionKeepsOthers(s, k, m);
    case Unregister(k) =>
      var populated := !EmptyTest(s.writeIndex, s.list.readIndex, s.list.readers[k].index, s.list.readIndex, s.size);
      RemoveKeepsOthers(s.list, s.size, k, populated, m);
    case _ =>
  }

  lemma ReaderStaysAtStep<T, E>(states: seq<State<T, E>>, actions: seq<Action<T, E>>, i: nat, r: Reader<T>)
    requires Run(states, actions) && i < |actions| && r in states[i].list.readers && r.done
    requires !actions[i].Resize? && !ActsOn(states[i], actions[i], r.id)
    ensures r in states[i + 1].list.readers
  {
    RunKeepsInv(states, actions, i);
    var m :| 0 <= m < |states[i].list.readers| && states[i].list.readers[m] == r;
    OthersKeepReader(states[i], actions[i], m);
  }

  /** A finished reader keeps its place and slot while it does not call the queue. */
  lemma {:induction false} ReaderStays<T, E>(
      states: seq<State<T, E>>, actions: seq<Action<T, E>>, i: nat, j: nat, r: Reader<T>)
    requires Run(states, actions) && i <= j < |states| && r in states[i].list.readers && r.done
    requires forall k {:trigger actions[k]} :: i <= k < j ==>
                                                 !actions[k].Resize? && !ActsOn(states[k], actions[k], r.id)
    ensures r in states[j].list.readers
  {
    if i < j {
      ReaderStays(states, actions, i, j - 1, r);
      ReaderStaysAtStep(states, actions, j - 1, r);
    }
  }

  /**
   The slot handed to a reader keeps its entry until that reader calls the queue again (or the ring is
   resized), whatever the other readers and the writers do meanwhile, even a writer that checked
   `readIndex` long before it writes.
   */
  lemma HandedSlotStaysUnwritten<T, E>(
      states: seq<State<T, E>>, actions: seq<Action<T, E>>, i: nat, j: nat, r: Reader<T>)
    requires Run(states, actions) && i <= j < |states|
    requires r in states[i].list.readers && r.done && r.num < |states[i].added|
    requires forall k {:trigger actions[k]} :: i <= k < j ==>
                                                 !actions[k].Resize? && !ActsOn(states[k], actions[k], r.id)
    ensures r in states[j].list.readers
    ensures r.index < |states[i].data| && r.index < |states[j].data| && 0 <= r.num
    ensures states[j].data[r.index] == states[i].data[r.index] == states[i].added[r.num]
  {
    ReaderStays(states, actions, i, j, r);
    SlotHoldsEntry(states, actions, i, r);
    SlotHoldsEntry(states, actions, j, r);
    ReadIndexMonotone(states, actions, i, j);
  }

  lemma SlotHoldsEntry<T, E>(states: seq<State<T, E>>, actions: seq<Action<T, E>>, i: nat, r: Reader<T>)
    requires Run(states, actions) && i < |states| && r in states[i].list.readers
    ensures 0 <= r.num && r.index < |states[i].data|
    ensures r.num < |states[i].added| ==> states[i].data[r.index] == states[i].added[r.num]
  {
    RunKeepsInv(states, actions, i);
    var k :| 0 <= k < |states[i].list.readers| && states[i].list.readers[k] == r;
    NumInRange(states[i], k);
  }

  /** The reader with this name still holds the same entry, perhaps on another slot. */
  predicate HoldsSame<T(==)>(readers: seq<Reader<T>>, m: nat, r: Reader<T>) {
    m < |readers| && readers[m].id == r.id && readers[m].num == r.num && readers[m].done
  }

  lemma StepKeepsHeld<T, E>(s: State<T, E>, a: Action<T, E>, m: nat, r: Reader<T>) returns (m': nat)
    requires Inv(s) && Enabled(s, a) && HoldsSame(s.list.readers, m, r) && !ActsOn(s, a, r.id)
    ensures HoldsSame(Apply(s, a).list.readers, m', r)
  {
    if a.Resize? {
      m' := m;
    } else {
      OthersKeepReader(s, a, m);
      var after := Apply(s, a).list.readers;
      m' :| 0 <= m' < |after| && after[m'] == s.list.readers[m];
    }
  }

  lemma HolderStaysAtStep<T, E>(
      states: seq<State<T, E>>, actions: seq<Action<T, E>>, i: nat, m: nat, r: Reader<T>) returns (m': nat)
    requires Run(states, actions) && i < |actions| && HoldsSame(states[i].list.readers, m, r)
    requires !ActsOn(states[i], actions[i], r.id)
    ensures HoldsSame(states[i + 1].list.readers, m', r)
  {
    RunKeepsInv(states, actions, i);
    m' := StepKeepsHeld(states[i], actions[i], m, r);
  }

  lemma {:induction false} HolderStays<T, E>(
      states: seq<State<T, E>>, actions: seq<Action<T, E>>, i: nat, j: nat, r: Reader<T>) returns (m: nat)
    requires Run(states, actions) && i <= j < |states| && r in states[i].list.readers && r.done
    requires forall k {:trigger actions[k]} :: i <= k < j ==> !ActsOn(states[k], actions[k], r.id)
    ensures HoldsSame(states[j].list.readers, m, r)
  {
    if i == j {
      m :| 0 <= m < |states[i].list.readers| && states[i].list.readers[m] == r;
    } else {
      var m0 := HolderStays(states, actions, i, j - 1, r);
      m := HolderStaysAtStep(states, actions, j - 1, m0, r);
    }
  }

  /** The same through resizes: the reader's slot may have moved, and still holds the entry it was handed. */
  lemma HandedEntrySurvives<T, E>(
      states: seq<State<T, E>>, actions: seq<Action<T, E>>, i: nat, j: nat, r: Reader<T>) returns (m: nat)
    requires Run(states, actions) && i <= j < |states|
    requires r in states[i].list.readers && r.done && r.num < |states[i].added|
    requires forall k {:trigger actions[k]} :: i <= k < j ==> !ActsOn(states[k], actions[k], r.id)
    ensures HoldsSame(states[j].list.readers, m, r) && 0 <= r.num
    ensures var index := states[j].list.readers[m].index;
            index < |states[j].data| && states[j].data[index] == states[i].added[r.num]
  {
    m := HolderStays(states, actions, i, j, r);
    SlotHoldsEntry(states, actions, i, r);
    SlotHoldsEntry(states, actions, j, states[j].list.readers[m]);
    ReadIndexMonotone(states, actions, i, j);
  }

  // ----- Resizing -----

  /** When the queue is full no waiting reader has wrapped, so every enlargement preserves the numbers. */
  lemma FullQueueResizesSafely<T, E>(s: State<T, E>, newSize: nat)
    requires Inv(s) && NextIndex(s.writeIndex, s.size) == s.list.readIndex
    ensures NumberPreserving(s, newSize)
  {
    FullTestExact(s);
    forall i | 0 <= i < |s.list.readers|
      ensures !WrappedWaiting(s, s.list.readers[i])
    {
      NumInRange(s, i);
    }
  }

  lemma MovesUnlessSpanning<T>(l: ReaderList<T>, base: int, size: nat, k: nat)
    requires WellFormed(l, base, size) && k < |l.readers| && Front(l).num < l.readNum + size - 1
    ensures !Spans(l, size) && MoveToFront(l, size, k).ok
  {
    SpansExact(l, base, size);
  }

  lemma ResizeKeepsEnds<T, E>(s: State<T, E>, newData: seq<E>)
    requires Inv(s) && Enabled(s, Resize(newData)) && s.list.readers != []
    ensures var s' := Apply(s, Resize(newData));
            && |s'.list.readers| == |s.list.readers| && WellFormed(s'.list, s'.base, s'.size)
            && Front(s'.list).num < s'.list.readNum + s'.size - 1
  {
    ResizeKeepsInv(s, newData);
  }

  /** After an enlargement the readers no longer span the ring, so a finished reader can move on. */
  lemma ResizeUnspans<T, E>(s: State<T, E>, newData: seq<E>, k: nat)
    requires Inv(s) && Enabled(s, Resize(newData)) && k < |s.list.readers|
    ensures var s' := Apply(s, Resize(newData));
            !Spans(s'.list, s'.size) && (s.list.readers[k].done ==> MoveToFront(s'.list, s'.size, k).ok)
  {
    var s' := Apply(s, Resize(newData));
    ResizeKeepsEnds(s, newData);
    MovesUnlessSpanning(s'.list, s'.base, s'.size, k);
  }

  // ----- Progress -----

  /**
   The readers span the ring and all but the front have finished and sit on the back's slot.  Everything
   published has been delivered, yet the ring counts as full.
   */
  predicate Stuck<T, E>(s: State<T, E>)
    requires s.size > 0
  {
    && s.list.readers != [] && Spans(s.list, s.size)
    && forall i :: 0 <= i < |s.list.readers| - 1 ==> s.list.readers[i].done && s.list.readers[i].num == s.list.readNum
  }

  lemma StuckIsFull<T, E>(s: State<T, E>)
    requires Inv(s) && Stuck(s)
    ensures |s.list.readers| >= 2 && |s.added| == s.list.readNum + s.size - 1 == Front(s.list).num
    ensures !Front(s.list).done && (forall n :: 0 <= n < |s.added| ==> n in Served(s))
  {
    var readers, last := s.list.readers, |s.list.readers| - 1;
    SpansExact(s.list, s.base, s.size);
    assert readers[0].done;
    BackDoneIsServed(s);
    FrontHeld(s);
    if readers[last - 1].num + 1 < Front(s.list).num {
      GapIsServed(s, Front(s.list).num - 1);
    }
    assert Front(s.list).num !in Served(s);
    forall r | r in readers && !r.done
      ensures r.num == Front(s.list).num
    {
      var i :| 0 <= i < |readers| && readers[i] == r;
    }
  }

  /** A reader that registers parks behind the front. */
  lemma StuckRegister<T, E>(s: State<T, E>, id: T)
    requires Inv(s) && Stuck(s) && Enabled(s, Register(id))
    ensures Stuck(Apply(s, Register(id)))
  {
    var s' := Apply(s, Register(id));
    var readers, readers' := s.list.readers, s'.list.readers;
    StuckIsFull(s);
    assert forall i :: 0 <= i < |readers| - 1 ==> readers'[i] == readers[i];
    assert Front(s'.list) == Front(s.list);
  }

  /** A squeeze takes the back reader to the slot it already has. */
  lemma StuckMove<T, E>(s: State<T, E>, k: nat)
    requires Inv(s) && Stuck(s) && Enabled(s, Move(k)) && Inv(Apply(s, Move(k)))
    ensures Stuck(Apply(s, Move(k)))
  {
    if k == 0 && |s.list.readers| > 2 {
      var s' := Apply(s, Move(k));
      var readers, readers' := s.list.readers, s'.list.readers;
      assert forall i :: 0 <= i < |readers| - 2 ==> readers'[i] == readers[i + 1];
      assert Front(s'.list) == Front(s.list) && readers'[0] == readers[1];
      SpansExact(s.list, s.base, s.size);
      SpansExact(s'.list, s'.base, s'.size);
    }
  }

  /** Once stuck, no step of any reader or writer adds or delivers anything; only a resize gets out. */
  lemma StuckStep<T, E>(s: State<T, E>, a: Action<T, E>)
    requires Inv(s) && Stuck(s) && Enabled(s, a) && !a.Resize? && !a.Unregister?
    ensures var s' := Apply(s, a);
            Inv(s') && Stuck(s') && s'.added == s.added && s'.delivered == s.delivered
  {
    StepKeepsInv(s, a);
    match a
    case Register(id) => StuckRegister(s, id);
    case Move(k) => StuckMove(s, k);
    case Check(k) =>
      StuckIsFull(s);
      ReaderTestExact(s, k);
    case _ =>
      StuckIsFull(s);
      FullTestExact(s);
  }

  /** A move that gets no new slot leads to no stuck state: what its squeeze leaves would have been stuck before. */
  lemma FailedMoveStaysUnstuck<T, E>(s: State<T, E>, k: nat)
    requires Inv(s) && !Stuck(s) && Enabled(s, Move(k)) && !MoveToFront(s.list, s.size, k).ok
    ensures !Stuck(Apply(s, Move(k)))
  {
    var l, last, s' := s.list, |s.list.readers| - 1, Apply(s, Move(k));
    MoveKeepsInv(s, k);
    FailedMoveStays(l, s.size, k);
    SpansExact(l, s.base, s.size);
    if k == 0 && last >= 2 && Stuck(s') {
      SpansExact(s'.list, s'.base, s'.size);
      assert s'.list.readers[last] == l.readers[last];
      forall i | 0 <= i < last
        ensures l.readers[i].done && l.readers[i].num == l.readNum
      {
        if i > 0 {
          assert s'.list.readers[i - 1] == l.readers[i];
        }
      }
    }
  }

  /** Only a reader that is served, gets a new slot, comes or goes can make the queue stuck. */
  lemma GetsStuckOnlyBy<T, E>(s: State<T, E>, a: Action<T, E>)
    requires Inv(s) && !Stuck(s) && Enabled(s, a) && Inv(Apply(s, a)) && Stuck(Apply(s, a))
    ensures || a.Register? || a.Unregister? || (a.Check? && Apply(s, a).delivered != s.delivered)
            || (a.Move? && MoveToFront(s.list, s.size, a.k).ok)
  {
    match a
    case Move(k) =>
      if !MoveToFront(s.list, s.size, k).ok {
        FailedMoveStaysUnstuck(s, k);
      }
    case Resize(newData) =>
      ResizeUnspans(s, newData, 0);
    case _ =>
  }

  lemma StuckStepInRun<T, E>(states: seq<State<T, E>>, actions: seq<Action<T, E>>, i: nat)
    requires Run(states, actions) && i < |actions| && states[i].size > 0 && Stuck(states[i])
    requires !actions[i].Resize? && !actions[i].Unregister?
    ensures states[i + 1].added == states[i].added && states[i + 1].delivered == states[i].delivered
    ensures states[i + 1].size > 0 && Stuck(states[i + 1])
  {
    RunKeepsInv(states, actions, i);
    StuckStep(states[i], actions[i]);
  }

  lemma {:induction false} StuckForever<T, E>(states: seq<State<T, E>>, actions: seq<Action<T, E>>, i: nat, j: nat)
    requires Run(states, actions) && i <= j < |states| && states[i].size > 0 && Stuck(states[i])
    requires forall k {:trigger actions[k]} :: i <= k < j ==> !actions[k].Resize? && !actions[k].Unregister?
    ensures states[j].added == states[i].added && states[j].delivered == states[i].delivered
    ensures states[j].size > 0 && Stuck(states[j])
  {
    if i < j {
      StuckForever(states, actions, i, j - 1);
      StuckStepInRun(states, actions, j - 1);
    }
  }

  /** The states of a short run: two readers, a ring of two, one entry. */
  function ShortRunState(i: nat): State<int, int> {
    var s0 := State<int, int>.State(2, 0, [0, 0], 0, ReaderList([], 0, 0), NoWriter, [], []);
    var s2 := s0.(list := ReaderList([Reader(0, 0, false, 0), Reader(1, 1, false, 1)], 0, 0));
    var s6 := s2.(writeIndex := 1, data := [7, 0], added := [7]);
    match i
    case 0 => s0
    case 1 => s0.(list := ReaderList([Reader(0, 0, false, 0)], 0, 0))
    case 2 => s2
    case 3 => s2.(writer := Entered(0, 7))
    case 4 => s2.(writer := Checked(0, 7, 1))
    case 5 => s2.(writer := Written(0, 7, 1), data := [7, 0])
    case 6 => s6
    case _ =>
      s6.(list := ReaderList([Reader(0, 0, true, 0), Reader(1, 1, false, 1)], 0, 0), delivered := [Delivery(0, 0, 7)])
  }

  function ShortRunAction(i: nat): Action<int, int> {
    match i
    case 0 => Register(0)
    case 1 => Register(1)
    case 2 => EnterAdd(0, 7)
    case 3 => CheckFull
    case 4 => WriteSlot
    case 5 => Publish
    case _ => Check(0)
  }

  lemma ShortRunStep(i: nat)
    requires i < 7
    ensures Enabled(ShortRunState(i), ShortRunAction(i))
    ensures ShortRunState(i + 1) == Apply(ShortRunState(i), ShortRunAction(i))
  {
  }

  /** Two readers and a ring of two slots get stuck after a single entry. */
  lemma StuckIsReachable() returns (states: seq<State<int, int>>, actions: seq<Action<int, int>>)
    ensures Run(states, actions) && states[|actions|].size > 0 && Stuck(states[|actions|])
    ensures |states[|actions|].added| == 1
  {
    states := seq(8, i requires 0 <= i < 8 => ShortRunState(i));
    actions := seq(7, i requires 0 <= i < 7 => ShortRunAction(i));
    forall i | 0 <= i < 7 {
      ShortRunStep(i);
    }
    assert NextIndex(1, 2) == 0;
  }

  /** A sequence of reader and writer steps from `s`, without registrations or resizes. */
  ghost predicate Path<T, E>(states: seq<State<T, E>>, actions: seq<Action<T, E>>) {
    && |states| == |actions| + 1
    && forall i {:trigger actions[i]} :: 0 <= i < |actions| ==>
                     Enabled(states[i], actions[i]) && states[i + 1] == Apply(states[i], actions[i])
                     && !actions[i].Resize? && !actions[i].Register? && !actions[i].Unregister?
  }

  ghost predicate Progress<T, E>(s: State<T, E>, s': State<T, E>) {
    |s.added| < |s'.added| || |s.delivered| < |s'.delivered|
  }

  lemma PrependStep<T, E>(s: State<T, E>, a: Action<T, E>, states: seq<State<T, E>>, actions: seq<Action<T, E>>)
    requires Enabled(s, a) && !a.Resize? && !a.Register? && !a.Unregister?
    requires Path(states, actions) && states[0] == Apply(s, a)
    ensures Path([s] + states, [a] + actions)
  {
    var ss, aa := [s] + states, [a] + actions;
    forall i {:trigger aa[i]} | 0 <= i < |aa|
      ensures Enabled(ss[i], aa[i]) && ss[i + 1] == Apply(ss[i], aa[i])
              && !aa[i].Resize? && !aa[i].Register? && !aa[i].Unregister?
    {
      if i > 0 {
        assert ss[i] == states[i - 1] && aa[i] == actions[i - 1] && ss[i + 1] == states[i];
      }
    }
  }

  /** With room in the ring, the writer inside `add` (or a new one) can publish. */
  lemma {:induction false} WriterCanProgress<T, E>(s: State<T, E>, e: E)
    returns (states: seq<State<T, E>>, actions: seq<Action<T, E>>)
    requires Inv(s) && |s.added| < s.list.readNum + s.size - 1
    ensures Path(states, actions) && states[0] == s && Progress(s, states[|actions|])
    decreases if s.writer.NoWriter? then 4 else if s.writer.Entered? then 3 else if s.writer.Checked? then 2 else 1
  {
    FullTestExact(s);
    InvInBounds(s);
    var a := match s.writer
      case NoWriter => EnterAdd(0, e)
      case Entered(_, _) => CheckFull
      case Checked(_, _, _) => WriteSlot
      case Written(_, _, _) => Publish;
    var s' := Apply(s, a);
    WriterStepKeepsInv(s, a);
    if a.Publish? {
      states, actions := [s, s'], [a];
    } else {
      var ss, aa := WriterCanProgress(s', e);
      PrependStep(s, a, ss, aa);
      states, actions := [s] + ss, [a] + aa;
    }
  }

  /** There is room to write, or a waiting reader's slot is populated; otherwise the back reader has finished. */
  lemma DirectProgress<T, E>(s: State<T, E>, e: E)
    returns (found: bool, states: seq<State<T, E>>, actions: seq<Action<T, E>>)
    requires Inv(s) && s.list.readers != []
    ensures found ==> Path(states, actions) && states[0] == s && Progress(s, states[|actions|])
    ensures !found ==> |s.added| == s.list.readNum + s.size - 1
    ensures !found ==>
              forall k :: 0 <= k < |s.list.readers| && s.list.readers[k].num < |s.added| ==> s.list.readers[k].done
  {
    InvInBounds(s);
    if |s.added| < s.list.readNum + s.size - 1 {
      found := true;
      states, actions := WriterCanProgress(s, e);
    } else if k :| 0 <= k < |s.list.readers| && !s.list.readers[k].done && s.list.readers[k].num < |s.added| {
      found := true;
      ReaderTestExact(s, k);
      states, actions := [s, Apply(s, Check(k))], [Check(k)];
    } else {
      found, states, actions := false, [], [];
    }
  }

  /**
   Progress from a full ring: if some reader `i` is ahead of the back reader (and is not the front when the
   readers span the ring), the finished readers behind it can move or squeeze out of its way.
   */
  lemma {:induction false} ReadersCanProgress<T, E>(s: State<T, E>, i: nat, e: E)
    returns (states: seq<State<T, E>>, actions: seq<Action<T, E>>)
    requires Inv(s) && 0 < i < |s.list.readers| && s.list.readers[i].num > s.list.readNum
    requires Spans(s.list, s.size) ==> i < |s.list.readers| - 1
    ensures Path(states, actions) && states[0] == s && Progress(s, states[|actions|])
    decreases i
  {
    InvInBounds(s);
    var found;
    found, states, actions := DirectProgress(s, e);
    if !found {
      var s' := Apply(s, Move(0));
      BackMoves(s, i);
      var ss, aa;
      if s'.list.readNum > s.list.readNum {
        ss, aa := WriterCanProgress(s', e);
      } else {
        ss, aa := ReadersCanProgress(s', i - 1, e);
      }
      PrependStep(s, Move(0), ss, aa);
      states, actions := [s] + ss, [Move(0)] + aa;
    }
  }

  lemma BackMoves<T, E>(s: State<T, E>, i: nat)
    requires Inv(s) && InBounds(s) && 0 < i < |s.list.readers| && s.list.readers[0].done
    requires Spans(s.list, s.size) ==> i < |s.list.readers| - 1
    ensures var s' := Apply(s, Move(0));
            && Inv(s') && s'.added == s.added && s'.delivered == s.delivered && s'.size == s.size
            && |s'.list.readers| == |s.list.readers| && s'.list.readers[i - 1].num == s.list.readers[i].num
            && s.list.readNum <= s'.list.readNum == s.list.readers[1].num
  {
    MoveKeepsInv(s, 0);
    MoveListFacts(s, 0);
    SpansExact(s.list, s.base, s.size);
  }

  /**
   The exact condition for progress: as long as there is a reader, some sequence of reader and writer
   steps adds or delivers an entry if and only if the queue is not stuck.
   */
  lemma NotStuckCanProgress<T, E>(s: State<T, E>, e: E) returns (states: seq<State<T, E>>, actions: seq<Action<T, E>>)
    requires Inv(s) && s.list.readers != [] && !Stuck(s)
    ensures Path(states, actions) && states[0] == s && Progress(s, states[|actions|])
  {
    InvInBounds(s);
    var readers, last := s.list.readers, |s.list.readers| - 1;
    var found;
    found, states, actions := DirectProgress(s, e);
    if found {
    } else if last == 0 {
      MoveKeepsInv(s, 0);
      SpansExact(s.list, s.base, s.size);
      var ss, aa := WriterCanProgress(Apply(s, Move(0)), e);
      PrependStep(s, Move(0), ss, aa);
      states, actions := [s] + ss, [Move(0)] + aa;
    } else if !Spans(s.list, s.size) {
      states, actions := ReadersCanProgress(s, last, e);
    } else {
      SpansExact(s.list, s.base, s.size);
      var i :| 0 <= i < last && !(readers[i].done && readers[i].num == s.list.readNum);
      NumInRange(s, i);
      states, actions := ReadersCanProgress(s, i, e);
    }
  }

  /** The other direction: from a stuck state no sequence of reader and writer steps makes progress. */
  lemma {:induction false} StuckCannotProgress<T, E>(states: seq<State<T, E>>, actions: seq<Action<T, E>>, j: nat)
    requires Path(states, actions) && j < |states| && Inv(states[0]) && Stuck(states[0])
    ensures Inv(states[j]) && Stuck(states[j]) && !Progress(states[0], states[j])
    ensures states[j].added == states[0].added && states[j].delivered == states[0].delivered
  {
    if j > 0 {
      StuckCannotProgress(states, actions, j - 1);
      StuckStep(states[j - 1], actions[j - 1]);
    }
  }
}
