/**
 The multi-reader queue object (`SyncQueue`): ring and reader list together.  Its methods are proved to take
 exactly the steps of `SyncQueueProtocol`, so everything proved there about runs is about this code.
 */
module SyncQueues {
  import opened QueueConstants
  import opened ReaderLists
  import opened ReaderNode
  import opened RingContents
  import opened RingIndex
  import opened RingQueues
  import opened SyncQueueProtocol
  import opened SyncReaderLists

  /** The state with reader `k` counted as not having looked at its slot. */
  ghost function Pending<T, E>(s: State<T, E>, k: nat): State<T, E>
    requires k < |s.list.readers|
  {
    s.(list := s.list.(readers := s.list.readers[k := s.list.readers[k].(done := false)]))
  }

  /** One call of `remove` by reader `k`, as steps of the protocol. */
  ghost function RemoveCall<T, E>(s: State<T, E>, k: nat): State<T, E>
    requires Inv(s) && k < |s.list.readers|
  {
    InvInBounds(s);
    if !s.list.readers[k].done then Apply(s, Check(k))
    else
      var s' := Apply(s, Move(k));
      MoveKeepsInv(s, k);
      MoveKeepsShape(s.list, s.base, s.size, k);
      InvInBounds(s');
      if Spans(s.list, s.size) then s' else Apply(s', Check(|s.list.readers| - 1))
  }

  /** A call by a reader still to be served: it looks at its slot again. */
  lemma RemoveCallChecks<T, E>(s: State<T, E>, k: nat)
    requires Inv(s) && k < |s.list.readers| && !s.list.readers[k].done
    ensures Pending(s, k) == s && Enabled(s, Check(k)) && RemoveCall(s, k) == Apply(s, Check(k))
    ensures Inv(RemoveCall(s, k)) && RemoveCall(s, k).added == s.added
  {
    InvInBounds(s);
    CheckKeepsInv(s, k);
  }

  /** A call by a reader that has finished: it moves on, and looks at its new slot if it got one. */
  lemma RemoveCallMoves<T, E>(s: State<T, E>, k: nat)
    requires Inv(s) && k < |s.list.readers| && s.list.readers[k].done
    ensures var m := MoveToFront(s.list, s.size, k);
            var s', last := s.(list := m.list), |s.list.readers| - 1;
            && Enabled(s, Move(k)) && |m.list.readers| == |s.list.readers|
            && (m.ok ==> Inv(Pending(s', last)) && Enabled(Pending(s', last), Check(last))
                         && RemoveCall(s, k) == Apply(Pending(s', last), Check(last)))
            && (!m.ok ==> RemoveCall(s, k) == s')
    ensures Inv(RemoveCall(s, k)) && RemoveCall(s, k).added == s.added
  {
    InvInBounds(s);
    MoveKeepsInv(s, k);
    MoveOutcome(s, k);
    var s' := Apply(s, Move(k));
    InvInBounds(s');
    if !Spans(s.list, s.size) {
      CheckKeepsInv(s', |s.list.readers| - 1);
    }
  }

  lemma MovedCanLook<T, E>(s: State<T, E>, k: nat, moved: State<T, E>)
    requires Inv(s) && k < |s.list.readers| && s.list.readers[k].done
    requires MoveToFront(s.list, s.size, k).ok && moved == s.(list := MoveToFront(s.list, s.size, k).list)
    ensures |moved.list.readers| == |s.list.readers| && Inv(Pending(moved, |s.list.readers| - 1))
  {
    RemoveCallMoves(s, k);
  }

  lemma MovedThenLooks<T, E>(s: State<T, E>, k: nat, moved: State<T, E>)
    requires Inv(s) && k < |s.list.readers| && s.list.readers[k].done
    requires MoveToFront(s.list, s.size, k).ok && moved == s.(list := MoveToFront(s.list, s.size, k).list)
    ensures |moved.list.readers| == |s.list.readers|
    ensures var pending, check := Pending(moved, |s.list.readers| - 1), Check(|s.list.readers| - 1);
            Enabled(pending, check) && RemoveCall(s, k) == Apply(pending, check)
  {
    RemoveCallMoves(s, k);
  }

  lemma StaysWhereItIs<T, E>(s: State<T, E>, k: nat)
    requires Inv(s) && k < |s.list.readers| && s.list.readers[k].done && !MoveToFront(s.list, s.size, k).ok
    ensures RemoveCall(s, k) == s.(list := MoveToFront(s.list, s.size, k).list)
  {
    RemoveCallMoves(s, k);
  }

  lemma RemoveCallKeepsInv<T, E>(s: State<T, E>, k: nat)
    requires Inv(s) && k < |s.list.readers|
    ensures Inv(RemoveCall(s, k)) && RemoveCall(s, k).added == s.added
  {
    if s.list.readers[k].done {
      RemoveCallMoves(s, k);
    } else {
      RemoveCallChecks(s, k);
    }
  }

  class SyncQueue<E(==)> {
    const ring: RingQueue<E>
    const readList: SyncReaderList<E>
    /** The protocol state this object is in. */
    ghost var state: State<ReaderIndex, E>

    constructor (ring: RingQueue<E>)
      requires ring.Valid() && ring.currentSize >= 2 && ring.readIndex == ring.writeIndex == 0
      ensures Valid() && fresh(readList) && this.ring == ring && Init(state)
    {
      this.ring := ring;
      readList := new SyncReaderList(ring);
      state := State(ring.currentSize, 0, ring.queueData[..], 0, ReaderList([], 0, 0), NoWriter, [], []);
      new;
      InitEstablishesInv(state);
    }

    /** The fields, the array and the linked nodes hold the protocol state. */
    ghost predicate Represents()
      reads this, ring, ring.queueData, readList, readList.order
    {
      && readList.queue == ring && ring.Shape() && readList.Linked()
      && state.size == ring.currentSize && state.data == ring.queueData[..]
      && state.writeIndex == ring.writeIndex && state.list == readList.List() && state.writer == NoWriter
    }

    ghost predicate Valid()
      reads this, ring, ring.queueData, readList, readList.order
    {
      Represents() && Inv(state) && forall e :: e in state.added ==> ring.storable(e)
    }

    /** Reports whether the entry the reader is assigned has been published. */
    method IsEmpty(readerIndex: ReaderIndex, ghost k: nat) returns (empty: bool)
      requires Valid() && k < |readList.order| && readList.order[k] == readerIndex
      modifies readerIndex`isEmpty
      ensures Valid() && empty == readerIndex.isEmpty == (|state.added| <= readerIndex.num)
    {
      ReaderTestExact(state, k);
      empty := EmptyTest(ring.writeIndex, ring.readIndex, readerIndex.index, ring.readIndex, ring.currentSize);
      readList.MarkEmpty(readerIndex, empty);
    }

    /** Records in the reader and in the state what the reader found in its slot. */
    method Record(readerIndex: ReaderIndex, done: bool, ghost k: nat, ghost s': State<ReaderIndex, E>)
      requires Represents() && k < |readList.order| && readList.order[k] == readerIndex
      requires var readers := state.list.readers;
               s' == state.(list := state.list.(readers := readers[k := readers[k].(done := done)]),
                            delivered := s'.delivered)
      modifies this`state, readerIndex`isEmpty, readerIndex`isDone
      ensures Represents() && state == s' && readerIndex.isDone == done == !readerIndex.isEmpty
    {
      readList.Mark(readerIndex, done, k);
      state := s';
    }

    /** Looks at the reader's slot: hands out its entry, or the null entry if it is not published. */
    method RemoveSlot(readerIndex: ReaderIndex, ghost k: nat) returns (result: E)
      requires Represents() && k < |readList.order| && readList.order[k] == readerIndex && Inv(Pending(state, k))
      modifies this`state, readerIndex`isEmpty, readerIndex`isDone
      ensures Represents()
      ensures Enabled(Pending(old(state), k), Check(k)) && state == Apply(Pending(old(state), k), Check(k))
      ensures readerIndex.isDone == !readerIndex.isEmpty == (readerIndex.num < |state.added|)
      ensures readerIndex.isDone ==> 0 <= readerIndex.num
      ensures result == if readerIndex.isDone then state.added[readerIndex.num] else ring.nullEntry
      ensures state.delivered
              == old(state).delivered
                 + if readerIndex.isDone then [Delivery(readerIndex.num, readerIndex, result)] else []
    {
      CheckOutcome(state, k);
      var done := !EmptyTest(ring.writeIndex, ring.readIndex, readerIndex.index, ring.readIndex, ring.currentSize);
      Record(readerIndex, done, k, Apply(Pending(state, k), Check(k)));
      result := if done then ring.queueData[readerIndex.index] else ring.nullEntry;
    }

    lemma ListInRange()
      requires Represents() && InBounds(state)
      ensures readList.InRange()
    {
      assert forall i :: 0 <= i < |readList.order| ==> readList.order[i].index == state.list.readers[i].index;
    }

    /** `moveToFront`: on success the reader is at the front and has yet to look at its new slot. */
    method MoveOn(readerIndex: ReaderIndex, ghost k: nat, ghost m: Moved<ReaderIndex>) returns (moved: bool)
      requires Represents() && readList.InRange() && k < |readList.order| && readList.order[k] == readerIndex
      requires m == MoveToFront(readList.List(), ring.currentSize, k) && m.list.readIndex < ring.currentSize
      modifies this`state, readList, ring`readIndex, readList.order
      ensures Represents() && state == old(state).(list := m.list) && moved == m.ok
      ensures moved ==> readList.order[|readList.order| - 1] == readerIndex
    {
      var result := readList.MoveToFront(readerIndex, k);
      moved := result == Advanced;
      state := state.(list := m.list);
    }

    /** The part of `remove` for a reader whose slot was empty when last checked. */
    method CheckAgain(readerIndex: ReaderIndex, ghost k: nat) returns (result: E)
      requires Represents() && Inv(state)
      requires k < |readList.order| && readList.order[k] == readerIndex && !readerIndex.isDone
      modifies this`state, readerIndex`isEmpty, readerIndex`isDone
      ensures Represents() && state == RemoveCall(old(state), k)
      ensures state.delivered == old(state).delivered ==> result == ring.nullEntry
      ensures state.delivered != old(state).delivered ==>
                && state.delivered == old(state).delivered + [Delivery(readerIndex.num, readerIndex, result)]
                && 0 <= readerIndex.num < |state.added| && result == state.added[readerIndex.num]
    {
      RemoveCallChecks(state, k);
      result := RemoveSlot(readerIndex, k);
    }

    /** A reader that has just moved to the front looks at its new slot; `s` is the state before the move. */
    method LookAhead(readerIndex: ReaderIndex, ghost k: nat, ghost s: State<ReaderIndex, E>) returns (result: E)
      requires Inv(s) && k < |s.list.readers| && s.list.readers[k].done && MoveToFront(s.list, s.size, k).ok
      requires Represents() && state == s.(list := MoveToFront(s.list, s.size, k).list)
      requires |readList.order| == |s.list.readers| && readList.order[|s.list.readers| - 1] == readerIndex
      modifies this`state, readerIndex`isEmpty, readerIndex`isDone
      ensures Represents() && state == RemoveCall(s, k)
      ensures state.delivered == s.delivered ==> result == ring.nullEntry
      ensures state.delivered != s.delivered ==>
                && state.delivered == s.delivered + [Delivery(readerIndex.num, readerIndex, result)]
                && 0 <= readerIndex.num < |state.added| && result == state.added[readerIndex.num]
    {
      MovedThenLooks(s, k, state);
      MovedCanLook(s, k, state);
      result := RemoveSlot(readerIndex, |s.list.readers| - 1);
    }

    /** The part for a reader that has finished its slot. */
    method Advance(readerIndex: ReaderIndex, ghost k: nat) returns (result: E)
      requires Represents() && Inv(state)
      requires k < |readList.order| && readList.order[k] == readerIndex && readerIndex.isDone
      modifies this`state, readList, ring`readIndex, readList.order
      ensures Represents() && state == RemoveCall(old(state), k)
      ensures state.delivered == old(state).delivered ==> result == ring.nullEntry
      ensures state.delivered != old(state).delivered ==>
                && state.delivered == old(state).delivered + [Delivery(readerIndex.num, readerIndex, result)]
                && 0 <= readerIndex.num < |state.added| && result == state.added[readerIndex.num]
    {
      ghost var s := state;
      ListInRange();
      MoveInBounds(s.list, s.size, k);
      var moved := MoveOn(readerIndex, k, MoveToFront(s.list, s.size, k));
      if moved {
        MovedCanLook(s, k, state);
        result := LookAhead(readerIndex, k, s);
      } else {
        StaysWhereItIs(s, k);
        result := ring.nullEntry;
      }
    }

    /** The next entry for this reader: the one it waits for, or after finishing one the next nobody has. */
    method Remove(readerIndex: ReaderIndex, ghost k: nat) returns (result: E)
      requires Valid() && k < |readList.order| && readList.order[k] == readerIndex
      modifies this`state, readList, ring`readIndex, readList.order
      ensures Valid() && state == RemoveCall(old(state), k)
      ensures state.delivered == old(state).delivered ==> result == ring.nullEntry
      ensures state.delivered != old(state).delivered ==>
                && state.delivered == old(state).delivered + [Delivery(readerIndex.num, readerIndex, result)]
                && 0 <= readerIndex.num < |state.added| && result == state.added[readerIndex.num]
    {
      RemoveCallKeepsInv(state, k);
      if !readerIndex.isDone {
        result := CheckAgain(readerIndex, k);
      } else {
        result := Advance(readerIndex, k);
      }
    }

    lemma RingIsValid()
      requires Valid()
      ensures ring.Valid() && ring.Entries() == state.added[state.list.readNum..]
    {
      RingHoldsAdded(state);
    }

    /** The ring's own `add`, and what it does to the state. */
    method Append(entry: E) returns (index: int)
      requires Represents() && ring.Valid() && InBounds(state)
      modifies this`state, ring`writeIndex, ring.queueData
      ensures Represents() && state == AddCall(old(state), entry, ring.storable(entry))
      ensures index == IS_FULL <==> NextIndex(old(ring.writeIndex), ring.currentSize) == ring.readIndex
      ensures index == CANNOT_ADD <==> index != IS_FULL && !ring.storable(entry)
      ensures index >= 0 <==> index != IS_FULL && index != CANNOT_ADD
      ensures index >= 0 ==> index == old(ring.writeIndex)
    {
      index := ring.Add(entry);
      state := AddCall(state, entry, ring.storable(entry));
    }

    /** Publishes the entry, or reports why not and changes nothing. */
    method Add(entry: E) returns (index: int)
      requires Valid()
      modifies this`state, ring`writeIndex, ring.queueData
      ensures Valid() && state == AddCall(old(state), entry, ring.storable(entry))
      ensures index == IS_FULL <==> |old(state).added| == state.list.readNum + ring.currentSize - 1
      ensures index >= 0 <==> index != IS_FULL && ring.storable(entry)
      ensures index >= 0 ==> state.added == old(state).added + [entry] && index == old(ring.writeIndex)
      ensures index < 0 ==> state == old(state) && (index == IS_FULL || index == CANNOT_ADD)
    {
      FullTestExact(state);
      RingIsValid();
      AddCallKeepsInv(state, 0, entry, ring.storable(entry));
      index := Append(entry);
    }

    /** Enlarges the ring and re-bases the readers: the state becomes what `Enlarged` describes. */
    method Enlarge(size: nat)
      requires Represents() && ring.Valid() && size > ring.currentSize
      modifies this`state, ring`queueData, ring`currentSize, ring`readIndex, readList.order`index
      ensures Represents() && |state.data| == size && state == Enlarged(old(state), state.data)
      ensures RelocatedData(old(state).data, state.data, old(ring.readIndex), ring.writeIndex)
    {
      var oldSize, oldReadIndex := ring.currentSize, ring.readIndex;
      GrowRing(size);
      ghost var s' := Enlarged(state, ring.queueData[..]);
      Rebase(oldSize, oldReadIndex, s');
      state := s';
    }

    method GrowRing(size: nat)
      requires Represents() && ring.Valid() && size > ring.currentSize
      modifies ring`queueData, ring`currentSize, ring`readIndex
      ensures ring.Shape() && ring.currentSize == size && readList.Linked() && readList.Readers() == state.list.readers
      ensures ring.readIndex == Relocated(state.list.readIndex, ring.writeIndex, size - state.size)
      ensures RelocatedData(state.data, ring.queueData[..], state.list.readIndex, ring.writeIndex)
    {
      ring.Resize(size);
    }

    /** The part of `resize` that follows the ring's own. */
    method Rebase(oldSize: nat, oldReadIndex: nat, ghost s': State<ReaderIndex, E>)
      requires readList.queue == ring && ring.Shape() && readList.Linked() && readList.Readers() == state.list.readers
      requires state.size == oldSize < ring.currentSize && state.writeIndex == ring.writeIndex
      requires state.list.readIndex == oldReadIndex && state.list.readNum == readList.readNum
      requires ring.readIndex == Relocated(oldReadIndex, ring.writeIndex, ring.currentSize - oldSize)
      requires s' == Enlarged(state, ring.queueData[..])
      modifies readList.order`index
      ensures readList.Linked() && readList.List() == s'.list
    {
      readList.Adjust(ring.currentSize - oldSize, oldReadIndex, state.list.readers);
    }

    /**
     `resize`.  To a larger size it is the protocol's step, and the queue stays valid, when the enlargement is
     number-preserving.  To the same size it changes nothing.  To a smaller one, which no producer requests
     (`ResizeProtocol.NeverShrinks`), the ring stays as it is and yet the readers are shifted.
     */
    method Resize(size: nat)
      requires Valid()
      modifies this`state, ring`queueData, ring`currentSize, ring`readIndex, readList.order`index
      ensures size > old(ring.currentSize) ==>
                Represents() && |state.data| == size && state == Enlarged(old(state), state.data)
      ensures size > old(ring.currentSize) && NumberPreserving(old(state), size) ==>
                && Valid() && Enabled(old(state), Action.Resize(state.data))
                && state == Apply(old(state), Action.Resize(state.data))
      ensures size == old(ring.currentSize) ==> Valid() && state == old(state)
      ensures size < old(ring.currentSize) ==>
                && ring.queueData == old(ring.queueData) && ring.currentSize == old(ring.currentSize)
                && ring.readIndex == old(ring.readIndex) && readList.order == old(readList.order)
                && forall j :: 0 <= j < |readList.order| ==>
                                 readList.order[j].index
                                 == AdjustedIndex(old(readList.order[j].index), size - ring.currentSize,
                                                  ring.readIndex, ring.writeIndex, ring.currentSize)
    {
      ghost var s := state;
      InvInBounds(s);
      RingIsValid();
      if size > ring.currentSize {
        Enlarge(size);
        if NumberPreserving(s, size) {
          ResizeKeepsInv(s, state.data);
        }
      } else if size == ring.currentSize {
        SameSize();
      } else {
        KeepSize(size);
      }
    }

    /** The same two calls for a size the ring does not grow to. */
    method KeepSize(size: nat)
      requires Represents() && ring.Valid() && size <= ring.currentSize
      modifies ring`queueData, ring`currentSize, ring`readIndex, readList.order`index
      ensures ring.queueData == old(ring.queueData) && ring.currentSize == old(ring.currentSize)
      ensures ring.readIndex == old(ring.readIndex)
      ensures forall j :: 0 <= j < |readList.order| ==>
                            readList.order[j].index
                            == AdjustedIndex(old(readList.order[j].index), size - ring.currentSize,
                                             ring.readIndex, ring.writeIndex, ring.currentSize)
    {
      var oldSize, oldReadIndex := ring.currentSize, ring.readIndex;
      ring.Resize(size);
      readList.AdjustNodes(size - oldSize, oldReadIndex);
    }

    method SameSize()
      requires Represents() && ring.Valid()
      modifies ring`queueData, ring`currentSize, ring`readIndex, readList.order`index
      ensures Represents()
    {
      KeepSize(ring.currentSize);
      assert readList.Linked() && readList.Readers() == old(readList.Readers());
    }

    method Link(readerIndex: ReaderIndex)
      requires Represents() && InBounds(state) && !readerIndex.inQueue
      modifies this`state, readList, readList.order`next, readList.order`previous, readerIndex
      ensures Represents()
      ensures state == old(state).(list := ReaderLists.Add(old(state).list, ring.currentSize, readerIndex))
    {
      assert readList.InRange() by {
        ListInRange();
      }
      ghost var l' := ReaderLists.Add(readList.List(), ring.currentSize, readerIndex);
      var added := readList.Add(readerIndex);
      state := state.(list := l');
    }

    /** Registers a reader with the queue; refuses one already registered. */
    method StartAccess(readerIndex: ReaderIndex) returns (added: bool)
      requires Valid()
      modifies this`state, readList, readList.order`next, readList.order`previous, readerIndex
      ensures Valid() && added == !old(readerIndex.inQueue)
      ensures !added ==> state == old(state)
      ensures added ==> Enabled(old(state), Register(readerIndex)) && state == Apply(old(state), Register(readerIndex))
    {
      added := !readerIndex.inQueue;
      if added {
        InvInBounds(state);
        assert forall r :: r in state.list.readers ==> r.id != readerIndex;
        RegisterKeepsInv(state, readerIndex);
        Link(readerIndex);
      }
    }

    method Unlink(readerIndex: ReaderIndex, ghost k: nat)
      requires Represents() && readList.InRange() && k < |readList.order| && readList.order[k] == readerIndex
      requires Leave(state, k).readIndex < ring.currentSize
      modifies this`state, readList, ring`readIndex, readList.order
      ensures Represents() && state == old(state).(list := Leave(old(state), k)) && !readerIndex.inQueue
    {
      ghost var l' := Leave(state, k);
      readList.Remove(readerIndex, k);
      state := state.(list := l');
    }

    /** Unregisters a reader, if it is registered; the queue stays valid where `SafeToLeave` holds. */
    method EndAccess(readerIndex: ReaderIndex, ghost k: nat)
      requires Valid() && (readerIndex.inQueue ==> k < |readList.order| && readList.order[k] == readerIndex)
      modifies this`state, readList, ring`readIndex, readList.order
      ensures !readerIndex.inQueue
      ensures !old(readerIndex.inQueue) ==> Valid() && state == old(state)
      ensures old(readerIndex.inQueue) ==> Represents() && state == old(state).(list := Leave(old(state), k))
      ensures old(readerIndex.inQueue) && SafeToLeave(old(state).list, k) ==>
                Valid() && Enabled(old(state), Unregister(k)) && state == Apply(old(state), Unregister(k))
    {
      if !readerIndex.inQueue {
        return;
      }
      ghost var s := state;
      InvInBounds(s);
      if SafeToLeave(s.list, k) {
        UnregisterKeepsInv(s, k);
      }
      ListInRange();
      LeaveInBounds(s, k);
      Unlink(readerIndex, k);
    }
  }

  lemma LeaveInBounds<T, E>(s: State<T, E>, k: nat)
    requires InBounds(s) && k < |s.list.readers|
    ensures Leave(s, k).readIndex < s.size
  {
  }

  /** One call of `add`, as steps of the protocol taken together. */
  ghost function AddCall<T, E>(s: State<T, E>, entry: E, storable: bool): State<T, E>
    requires s.size > 0 && s.writeIndex < |s.data|
  {
    var next := NextIndex(s.writeIndex, s.size);
    if next == s.list.readIndex || !storable then s
    else s.(data := s.data[s.writeIndex := entry], writeIndex := next, added := s.added + [entry])
  }

  /**
   It is the writer's steps in a row, each enabled where it is taken: enter and find the ring full; or enter, find
   room and fail to store the entry; or enter, find room, write the slot and publish.
   */
  lemma AddCallIsWriterSteps<T, E>(s: State<T, E>, owner: nat, entry: E, storable: bool)
    requires InBounds(s) && s.writer.NoWriter?
    ensures Enabled(s, EnterAdd(owner, entry))
    ensures var s1 := Apply(s, EnterAdd(owner, entry));
            && Enabled(s1, CheckFull)
            && var s2 := Apply(s1, CheckFull);
            if s2.writer.NoWriter? then AddCall(s, entry, storable) == s2
            else if !storable then Enabled(s2, Refuse) && AddCall(s, entry, storable) == Apply(s2, Refuse)
            else
              && Enabled(s2, WriteSlot) && Enabled(Apply(s2, WriteSlot), Publish)
              && AddCall(s, entry, storable) == Apply(Apply(s2, WriteSlot), Publish)
  {
  }

  lemma AddCallKeepsInv<T, E>(s: State<T, E>, owner: nat, entry: E, storable: bool)
    requires Inv(s) && s.writer.NoWriter?
    ensures InBounds(s) && Inv(AddCall(s, entry, storable))
  {
    InvInBounds(s);
    AddCallIsWriterSteps(s, owner, entry, storable);
    var s1 := Apply(s, EnterAdd(owner, entry));
    StepKeepsInv(s, EnterAdd(owner, entry));
    var s2 := Apply(s1, CheckFull);
    StepKeepsInv(s1, CheckFull);
    if s2.writer.Checked? && storable {
      StepKeepsInv(s2, WriteSlot);
      StepKeepsInv(Apply(s2, WriteSlot), Publish);
    }
  }

  lemma MoveInBounds<T>(l: ReaderList<T>, size: nat, k: nat)
    requires k < |l.readers| && size > 0 && l.readIndex < size
    requires forall i :: 0 <= i < |l.readers| ==> l.readers[i].index < size
    ensures MoveToFront(l, size, k).list.readIndex < size
  {
  }

  /** What the move step does to the list, before the mover has looked at its new slot. */
  lemma MoveOutcome<T, E>(s: State<T, E>, k: nat)
    requires Enabled(s, Move(k))
    ensures var m := MoveToFront(s.list, s.size, k);
            var s' := s.(list := m.list);
            && |m.list.readers| == |s.list.readers| && (m.ok <==> !Spans(s.list, s.size))
            && (m.ok ==> Front(m.list).id == s.list.readers[k].id)
            && Apply(s, Move(k)) == if m.ok then Pending(s', |s.list.readers| - 1) else s'
  {
  }

  /** What looking at a slot does, and what is found there. */
  lemma CheckOutcome<T, E>(s: State<T, E>, k: nat)
    requires k < |s.list.readers| && Inv(Pending(s, k))
    ensures var r := s.list.readers[k];
            var done := r.num < |s.added|;
            && Enabled(Pending(s, k), Check(k)) && s.size > 0
            && (EmptyTest(s.writeIndex, s.list.readIndex, r.index, s.list.readIndex, s.size) <==> !done)
            && (done ==> 0 <= r.num && r.index < |s.data| && s.data[r.index] == s.added[r.num])
            && Apply(Pending(s, k), Check(k))
               == s.(list := s.list.(readers := s.list.readers[k := r.(done := done)]),
                     delivered := s.delivered + if done then [Delivery(r.num, r.id, s.data[r.index])] else [])
  {
    var p := Pending(s, k);
    InvInBounds(p);
    ReaderTestExact(p, k);
    NumInRange(p, k);
    assert p.list.readers[k := p.list.readers[k].(done := true)]
        == s.list.readers[k := s.list.readers[k].(done := true)];
  }
}
