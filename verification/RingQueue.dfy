/** Status codes returned by the add operations instead of a slot (`QueueConstants`). */
module QueueConstants {
  const IS_FULL: int := -1
  const CANNOT_ADD: int := -2
  const IS_TERMINATED: int := -3
}

/** The node a reader hands to every queue call (`ReaderIndex.h`). */
module ReaderNode {
  class ReaderIndex {
    var index: int
    var isEmpty: bool
    var isDone: bool
    var inQueue: bool
    var previous: ReaderIndex?
    var next: ReaderIndex?
    /** Sequence number of the entry this reader is assigned; the code only has its slot, `index`. */
    ghost var num: int

    constructor ()
      ensures index == -1 && isEmpty && !isDone && !inQueue && previous == null && next == null
    {
      index, isEmpty, isDone, inQueue := -1, true, false, false;
      previous, next := null, null;
    }
  }
}

/** The contents of a ring as plain slices: the reference against which the ring code is proved. */
module RingContents {
  import opened RingIndex

  predicate Indices(size: nat, readIndex: nat, writeIndex: nat) {
    readIndex < size && writeIndex < size
  }

  function Contents<E>(data: seq<E>, readIndex: nat, writeIndex: nat): (entries: seq<E>)
    requires Indices(|data|, readIndex, writeIndex)
    ensures |entries| == AdjustIndex(writeIndex, readIndex, |data|) - readIndex < |data|
  {
    if readIndex <= writeIndex then data[readIndex..writeIndex] else data[readIndex..] + data[..writeIndex]
  }

  /** Slot of the `k`-th entry counted from the read index. */
  function SlotAt(k: nat, readIndex: nat, size: nat): (slot: nat)
    requires readIndex < size && k < size
    ensures slot < size
  {
    if readIndex + k < size then readIndex + k else readIndex + k - size
  }

  predicate Populated(slot: int, readIndex: nat, writeIndex: nat) {
    if readIndex <= writeIndex then readIndex <= slot < writeIndex else slot >= readIndex || slot < writeIndex
  }

  /** Where a resize puts the populated slot `slot`: the part above the write index moves to the new end. */
  function Relocated(slot: int, writeIndex: int, adjustment: int): int {
    if slot > writeIndex then slot + adjustment else slot
  }

  /** `data'` holds every populated slot of `data` at its new place. */
  predicate RelocatedData<E(==)>(data: seq<E>, data': seq<E>, readIndex: nat, writeIndex: nat)
    requires Indices(|data|, readIndex, writeIndex) && |data| <= |data'|
  {
    forall i :: 0 <= i < |data| && Populated(i, readIndex, writeIndex) ==>
                  data'[Relocated(i, writeIndex, |data'| - |data|)] == data[i]
  }

  lemma ContentsAt<E>(data: seq<E>, readIndex: nat, writeIndex: nat, k: nat)
    requires Indices(|data|, readIndex, writeIndex) && k < |Contents(data, readIndex, writeIndex)|
    ensures Contents(data, readIndex, writeIndex)[k] == data[SlotAt(k, readIndex, |data|)]
    ensures Populated(SlotAt(k, readIndex, |data|), readIndex, writeIndex)
  {
  }

  /** Relocation keeps the first-in-first-out contents, whatever the wrap state and the new size. */
  lemma RelocationKeepsContents<E>(data: seq<E>, data': seq<E>, readIndex: nat, writeIndex: nat)
    requires Indices(|data|, readIndex, writeIndex) && |data| <= |data'|
    requires RelocatedData(data, data', readIndex, writeIndex)
    ensures var readIndex' := Relocated(readIndex, writeIndex, |data'| - |data|);
            Indices(|data'|, readIndex', writeIndex)
            && Contents(data', readIndex', writeIndex) == Contents(data, readIndex, writeIndex)
  {
    var d := |data'| - |data|;
    var readIndex' := Relocated(readIndex, writeIndex, d);
    forall k | 0 <= k < |Contents(data, readIndex, writeIndex)|
      ensures Contents(data', readIndex', writeIndex)[k] == Contents(data, readIndex, writeIndex)[k]
    {
      ContentsAt(data, readIndex, writeIndex, k);
      ContentsAt(data', readIndex', writeIndex, k);
    }
  }

  /** `getNumElements` subtracts the raw indices: right exactly when the ring is not wrapped. */
  lemma NumElementsExact<E>(data: seq<E>, readIndex: nat, writeIndex: nat)
    requires Indices(|data|, readIndex, writeIndex)
    ensures writeIndex - readIndex == |Contents(data, readIndex, writeIndex)| <==> readIndex <= writeIndex
  {
  }
}

/** The circular queue itself (`ReaderWriterQueue`), operated by one thread at a time. */
module RingQueues {
  import opened QueueConstants
  import opened ReaderNode
  import opened RingContents
  import opened RingIndex

  class RingQueue<E(==)> {
    var queueData: array<E>
    var currentSize: nat
    var readIndex: nat
    var writeIndex: nat
    /** Whether the data array knows how to store an entry. */
    const storable: E -> bool
    const nullEntry: E

    ghost predicate Shape()
      reads this
    {
      queueData.Length == currentSize && Indices(currentSize, readIndex, writeIndex)
    }

    ghost predicate Valid()
      reads this, queueData
    {
      Shape() && forall e :: e in Entries() ==> storable(e)
    }

    ghost function Entries(): seq<E>
      requires Indices(queueData.Length, readIndex, writeIndex)
      reads this, queueData
    {
      Contents(queueData[..], readIndex, writeIndex)
    }

    constructor (queueSize: nat, storable: E -> bool, nullEntry: E)
      requires queueSize > 0
      ensures Valid() && fresh(queueData) && currentSize == queueSize && Entries() == []
      ensures this.storable == storable && this.nullEntry == nullEntry
    {
      queueData := new E[queueSize](_ => nullEntry);
      currentSize, readIndex, writeIndex := queueSize, 0, 0;
      this.storable, this.nullEntry := storable, nullEntry;
    }

    /** IS_FULL exactly when all slots but one are populated, otherwise the next write index. */
    method IsFull() returns (next: int)
      requires Valid()
      ensures next == IS_FULL <==> |Entries()| == currentSize - 1
      ensures next == IS_FULL <==> NextIndex(writeIndex, currentSize) == readIndex
      ensures next != IS_FULL ==> next == NextIndex(writeIndex, currentSize) != readIndex
    {
      next := NextIndex(writeIndex, currentSize);
      NextIndexCases(writeIndex, currentSize);
      if next == readIndex {
        next := IS_FULL;
      }
    }

    method Insert(entry: E) returns (stored: bool)
      requires Valid()
      modifies queueData
      ensures stored == storable(entry)
      ensures queueData[..] == if stored then old(queueData[..])[writeIndex := entry] else old(queueData[..])
    {
      stored := storable(entry);
      if stored {
        queueData[writeIndex] := entry;
      }
    }

    method TryInsert(entry: E) returns (next: int)
      requires Valid()
      modifies queueData
      ensures next == IS_FULL <==> |old(Entries())| == currentSize - 1
      ensures next == IS_FULL <==> NextIndex(writeIndex, currentSize) == readIndex
      ensures next == CANNOT_ADD <==> |old(Entries())| != currentSize - 1 && !storable(entry)
      ensures next >= 0 <==> next != IS_FULL && next != CANNOT_ADD
      ensures next >= 0 ==> next == NextIndex(writeIndex, currentSize) != readIndex
      ensures queueData[..] == if next >= 0 then old(queueData[..])[writeIndex := entry] else old(queueData[..])
    {
      next := IsFull();
      if next == IS_FULL {
        return;
      }
      var stored := Insert(entry);
      if !stored {
        next := CANNOT_ADD;
      }
    }

    /** Appends the entry, or returns why it cannot and leaves the contents as they were. */
    method Add(entry: E) returns (index: int)
      requires Valid()
      modifies this`writeIndex, queueData
      ensures Valid()
      ensures index == IS_FULL <==> |old(Entries())| == currentSize - 1
      ensures index == IS_FULL <==> NextIndex(old(writeIndex), currentSize) == readIndex
      ensures index == CANNOT_ADD <==> |old(Entries())| != currentSize - 1 && !storable(entry)
      ensures index >= 0 <==> index != IS_FULL && index != CANNOT_ADD
      ensures index >= 0 ==>
                && index == old(writeIndex) && Entries() == old(Entries()) + [entry]
                && queueData[..] == old(queueData[..])[index := entry] && writeIndex == NextIndex(index, currentSize)
      ensures index < 0 ==>
                Entries() == old(Entries()) && queueData[..] == old(queueData[..]) && writeIndex == old(writeIndex)
    {
      ghost var before := queueData[..];
      var next := TryInsert(entry);
      if next < 0 {
        assert queueData[..] == before;
        return next;
      }
      index := writeIndex;
      AppendedContents(before, readIndex, index, entry);
      writeIndex := next;
      assert Entries() == old(Entries()) + [entry];
    }

    method IsEmpty(readerIndex: ReaderIndex) returns (empty: bool)
      requires Valid()
      modifies readerIndex`isEmpty
      ensures empty == readerIndex.isEmpty == (Entries() == [])
    {
      empty := readIndex == writeIndex;
      readerIndex.isEmpty := empty;
    }

    /** Takes the oldest entry.  Its slot is not copied: it stays just below the new read index. */
    method Remove(readerIndex: ReaderIndex) returns (result: E)
      requires Valid()
      modifies this`readIndex, readerIndex`isEmpty, readerIndex`index
      ensures Valid() && readerIndex.isEmpty == (old(Entries()) == [])
      ensures old(Entries()) == [] ==>
                result == nullEntry && readIndex == old(readIndex) && readerIndex.index == old(readerIndex.index)
      ensures old(Entries()) != [] ==>
                && old(Entries()) == [result] + Entries()
                && readerIndex.index == old(readIndex) && queueData[old(readIndex)] == result
                && readIndex == NextIndex(readerIndex.index, currentSize)
    {
      var empty := IsEmpty(readerIndex);
      if empty {
        return nullEntry;
      }
      readerIndex.index := readIndex;
      result := queueData[readIndex];
      NextIndexCases(readIndex, currentSize);
      readIndex := NextIndex(readIndex, currentSize);
      assert old(Entries()) == [result] + Entries();
    }

    /**
     Enlarges the ring in place.  The copying loop steps with the old size while it compares with the
     new one; even so it visits each populated slot once, and the contents survive.
     */
    method Resize(size: nat)
      requires Valid()
      modifies this`queueData, this`currentSize, this`readIndex
      ensures Valid() && writeIndex == old(writeIndex) && Entries() == old(Entries())
      ensures currentSize == (if old(currentSize) >= size then old(currentSize) else size)
      ensures readIndex == Relocated(old(readIndex), writeIndex, currentSize - old(currentSize))
      ensures old(currentSize) >= size ==> queueData == old(queueData)
      ensures old(currentSize) < size ==> fresh(queueData)
      ensures RelocatedData(old(queueData[..]), queueData[..], old(readIndex), writeIndex)
    {
      if currentSize >= size {
        return;
      }
      ghost var before := queueData[..];
      var newQueueData := new E[size](_ => nullEntry);
      var oldQueueData := queueData;
      var oldSize := currentSize;
      queueData := newQueueData;
      currentSize := size;
      var adjustment := size - oldSize;
      CopyPopulated(oldQueueData, newQueueData);
      RelocationKeepsContents(before, newQueueData[..], readIndex, writeIndex);
      if readIndex >= writeIndex + 1 {
        readIndex := readIndex + adjustment;
      }
      assert Entries() == old(Entries());
    }

    /** The loop of `resize`, run after the new size has been set and before the read index moves. */
    method CopyPopulated(oldQueueData: array<E>, newQueueData: array<E>)
      requires oldQueueData != newQueueData && oldQueueData.Length <= newQueueData.Length == currentSize
      requires Indices(oldQueueData.Length, readIndex, writeIndex)
      requires forall e :: e in Contents(oldQueueData[..], readIndex, writeIndex) ==> storable(e)
      modifies newQueueData
      ensures RelocatedData(oldQueueData[..], newQueueData[..], readIndex, writeIndex)
    {
      var oldSize := oldQueueData.Length;
      var adjustment := currentSize - oldSize;
      ghost var before := oldQueueData[..];
      ghost var n := |Contents(before, readIndex, writeIndex)|;
      ghost var k := 0;
      var i := readIndex;
      while AdjustIndex(i, readIndex, currentSize) < AdjustIndex(writeIndex, readIndex, currentSize)
        invariant 0 <= k <= n && i == SlotAt(k, readIndex, oldSize)
        invariant forall j :: 0 <= j < k ==>
                                newQueueData[Relocated(SlotAt(j, readIndex, oldSize), writeIndex, adjustment)]
                                == before[SlotAt(j, readIndex, oldSize)]
        decreases n - k
      {
        var newIndex := i;
        if i > writeIndex {
          newIndex := newIndex + adjustment;
        }
        var oldEntry := oldQueueData[i];
        ContentsAt(before, readIndex, writeIndex, k);
        if storable(oldEntry) {
          newQueueData[newIndex] := oldEntry;
        } else {
          newQueueData[newIndex] := nullEntry;
        }
        NextIndexCases(i, oldSize);
        i := NextIndex(i, oldSize);
        k := k + 1;
      }
      AllVisited(before, newQueueData[..], readIndex, writeIndex);
    }
  }

  lemma NextIndexCases(index: nat, size: nat)
    requires index < size
    ensures NextIndex(index, size) == if index + 1 == size then 0 else index + 1
  {
    if index + 1 < size {
      DivModUnique(index + 1, 0, index + 1, size);
    } else {
      DivModUnique(index + 1, 1, 0, size);
    }
  }

  lemma AppendedContents<E>(data: seq<E>, readIndex: nat, writeIndex: nat, entry: E)
    requires Indices(|data|, readIndex, writeIndex) && NextIndex(writeIndex, |data|) != readIndex
    ensures Contents(data[writeIndex := entry], readIndex, NextIndex(writeIndex, |data|))
            == Contents(data, readIndex, writeIndex) + [entry]
  {
    NextIndexCases(writeIndex, |data|);
  }

  /** The slots met while walking forward from the read index are all the populated ones. */
  lemma AllVisited<E>(data: seq<E>, data': seq<E>, readIndex: nat, writeIndex: nat)
    requires Indices(|data|, readIndex, writeIndex) && |data| <= |data'|
    requires forall k :: 0 <= k < |Contents(data, readIndex, writeIndex)| ==>
                           data'[Relocated(SlotAt(k, readIndex, |data|), writeIndex, |data'| - |data|)]
                           == data[SlotAt(k, readIndex, |data|)]
    ensures RelocatedData(data, data', readIndex, writeIndex)
  {
    forall i | 0 <= i < |data| && Populated(i, readIndex, writeIndex)
      ensures data'[Relocated(i, writeIndex, |data'| - |data|)] == data[i]
    {
      var k := AdjustIndex(i, readIndex, |data|) - readIndex;
      assert i == SlotAt(k, readIndex, |data|);
    }
  }
}
