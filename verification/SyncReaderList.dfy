/**
 The doubly linked list of readers (`SyncReaderList`), on real `next` and `previous` pointers.
 Every method is proved against the corresponding function of `ReaderLists`.  The methods run under
 `indexMutex`, so each is written as one uninterrupted call.
 */
module SyncReaderLists {
  import opened ReaderLists
  import opened ReaderNode
  import opened RingIndex
  import opened RingQueues

  datatype MoveResult = Advanced | Stayed | NotRegistered

  class SyncReaderList<E(==)> {
    const queue: RingQueue<E>
    var front: ReaderIndex?
    var back: ReaderIndex?
    /** The registered readers from back to front. */
    ghost var order: seq<ReaderIndex>
    /** Sequence number of `queue.readIndex`. */
    ghost var readNum: int

    constructor (queue: RingQueue<E>)
      ensures Linked() && order == [] && this.queue == queue && readNum == 0
    {
      this.queue := queue;
      front, back := null, null;
      order, readNum := [], 0;
    }

    /**
     The links.  The back node's `previous` is never used; a reader that registered first may point `next`
     at itself for as long as it is alone.
     */
    ghost predicate Linked()
      reads this, order
    {
      && (forall i, j :: 0 <= i < j < |order| ==> order[i] != order[j])
      && (order == [] ==> front == null && back == null)
      && (order != [] ==> front == order[|order| - 1] && back == order[0])
      && (forall i, j :: 0 <= i < j < |order| && j == i + 1 ==>
            order[i].next == order[j] && order[j].previous == order[i])
      && (order != [] ==> order[|order| - 1].next == null || (|order| == 1 && order[0].next == order[0]))
      && (forall i :: 0 <= i < |order| ==> order[i].inQueue && order[i].index >= 0)
    }

    ghost predicate InRange()
      reads this, order, queue
    {
      queue.currentSize >= 2 && forall i :: 0 <= i < |order| ==> order[i].index < queue.currentSize
    }

    ghost function Readers(): (readers: seq<Reader<ReaderIndex>>)
      requires Linked()
      reads this, order
      ensures |readers| == |order|
    {
      seq(|order|, i requires 0 <= i < |order| reads this, order requires Linked() =>
        Reader(order[i], order[i].index, order[i].isDone, order[i].num))
    }

    ghost function List(): ReaderList<ReaderIndex>
      requires Linked()
      reads this, order, queue
    {
      ReaderList(Readers(), queue.readIndex, readNum)
    }

    /** Records what a reader found in its slot. */
    method Mark(index: ReaderIndex, done: bool, ghost k: nat)
      requires Linked() && k < |order| && order[k] == index
      modifies index`isEmpty, index`isDone
      ensures Linked() && index.isEmpty == !done && index.isDone == done
      ensures Readers() == old(Readers())[k := old(Readers())[k].(done := done)]
    {
      index.isDone := done;
      index.isEmpty := !done;
    }

    /** Records whether the reader's slot was found empty; the list does not depend on it. */
    method MarkEmpty(index: ReaderIndex, empty: bool)
      requires Linked()
      modifies index`isEmpty
      ensures Linked() && index.isEmpty == empty && Readers() == old(Readers())
    {
      index.isEmpty := empty;
    }

    /** Puts a reader on another slot; `num` is the number of the entry that slot stands for. */
    method Reassign(index: ReaderIndex, slot: nat, ghost num: int, ghost k: nat)
      requires Linked() && k < |order| && order[k] == index
      modifies index`index, index`num
      ensures Linked() && index.index == slot && index.num == num
      ensures Readers() == old(Readers())[k := old(Readers())[k].(index := slot, num := num)]
    {
      index.index := slot;
      index.num := num;
    }

    /** Takes a reader that is not the front out of the links. */
    method Unlink(index: ReaderIndex, ghost k: nat)
      requires Linked() && k < |order| - 1 && order[k] == index
      modifies this`back, this`order, order`next, order`previous
      ensures Linked() && order == old(order[..k] + order[k + 1..])
    {
      assert order[k + 1] == index.next;
      if index == back {
        back := index.next;
      } else {
        assert order[k - 1] == index.previous;
        index.previous.next := index.next;
      }
      index.next.previous := index.previous;
      order := order[..k] + order[k + 1..];
    }

    /** The queue's read index follows the back. */
    method FollowBack()
      requires Linked() && order != []
      modifies this`readNum, queue`readIndex
      ensures Linked() && List() == Back(old(List()))
    {
      queue.readIndex := back.index;
      readNum := back.num;
    }

    /** Unlinks a reader that is not the front; the queue's read index follows the back. */
    method MoveOut(index: ReaderIndex, ghost k: nat)
      requires Linked() && k < |order| - 1 && order[k] == index
      modifies this`back, this`order, this`readNum, queue`readIndex, order`next, order`previous
      ensures Linked() && order == old(order[..k] + order[k + 1..]) && Readers() == Without(old(Readers()), k)
      ensures queue.readIndex == if k == 0 then order[0].index else old(queue.readIndex)
      ensures readNum == if k == 0 then order[0].num else old(readNum)
    {
      var wasBack := index == back;
      Unlink(index, k);
      if wasBack {
        FollowBack();
      }
    }

    /** Links a detached reader in front of all others. */
    method LinkAtFront(index: ReaderIndex)
      requires Linked() && order != [] && index !in order && index.inQueue && index.index >= 0
      modifies this`front, this`order, index`previous, index`next, front`next
      ensures Linked() && order == old(order) + [index]
      ensures Readers() == old(Readers()) + [Reader(index, index.index, index.isDone, index.num)]
    {
      index.previous := front;
      index.next := null;
      front.next := index;
      front := index;
      order := order + [index];
    }

    /** Links a detached reader just behind the front. */
    method LinkBehindFront(index: ReaderIndex)
      requires Linked() && |order| >= 2 && index !in order && index.inQueue && index.index >= 0
      modifies this`order, order`previous, order`next, index`previous, index`next
      ensures Linked() && order == old(order[..|order| - 1] + [index, order[|order| - 1]])
    {
      assert order[|order| - 2] == front.previous;
      index.next := front;
      index.previous := front.previous;
      front.previous.next := index;
      front.previous := index;
      order := order[..|order| - 1] + [index, order[|order| - 1]];
    }

    /** Re-links a reader other than the front in front of all others, on slot `nextIndex`. */
    method MoveAhead(index: ReaderIndex, nextIndex: nat, ghost k: nat)
      requires Linked() && k < |order| - 1 && order[k] == index
      modifies this, queue`readIndex, order`next, order`previous, index`index, index`num
      ensures Linked()
      ensures var moved := old(Readers()[k].(index := nextIndex, num := front.num + 1));
              Readers() == Without(old(Readers()), k) + [moved]
      ensures order[|order| - 1] == index
      ensures queue.readIndex == if k == 0 then order[0].index else old(queue.readIndex)
      ensures readNum == if k == 0 then order[0].num else old(readNum)
    {
      Reassign(index, nextIndex, front.num + 1, k);
      MoveOut(index, k);
      LinkAtFront(index);
    }

    /** Gives the only reader, or the front one, the slot after its own. */
    method StepFront(index: ReaderIndex, nextIndex: nat)
      requires Linked() && order != [] && order[|order| - 1] == index
      modifies this`readNum, queue`readIndex, index`index, index`num
      ensures Linked()
      ensures var last := |order| - 1;
              Readers() == old(Readers())[last := old(Readers()[last].(index := nextIndex, num := front.num + 1))]
      ensures queue.readIndex == if |order| == 1 then nextIndex else old(queue.readIndex)
      ensures readNum == if |order| == 1 then old(front.num) + 1 else old(readNum)
    {
      index.index := nextIndex;
      index.num := index.num + 1;
      if index == back {
        queue.readIndex := index.index;
        readNum := index.num;
      }
    }

    /** Re-links the back reader of a list of three or more just behind the front. */
    method RelinkBack(index: ReaderIndex)
      requires Linked() && |order| >= 3 && order[0] == index
      modifies this`back, this`order, order`next, order`previous
      ensures Linked() && order == old(order[1..|order| - 1] + [index, order[|order| - 1]])
      ensures Readers() == BehindFront(old(Readers())[1..], old(Readers())[0])
    {
      assert order[1] == index.next && order[2] == order[1].next;
      back := index.next;
      back.previous := null;
      back.next.previous := back;
      order := order[1..];
      LinkBehindFront(index);
    }

    /** A reader parks on the slot of the reader before it. */
    method ParkOnPrevious(index: ReaderIndex, ghost k: nat)
      requires Linked() && 0 < k < |order| && order[k] == index
      modifies index`index, index`num
      ensures Linked()
      ensures var previous := old(Readers())[k - 1];
              Readers() == old(Readers())[k := old(Readers())[k].(index := previous.index, num := previous.num)]
    {
      assert order[k - 1] == index.previous;
      Reassign(index, index.previous.index, index.previous.num, k);
    }

    /** The squeeze: the back reader also takes the slot of the reader it is now linked to. */
    method SqueezeBack(index: ReaderIndex)
      requires Linked() && |order| >= 3 && order[0] == index
      modifies this`back, this`order, this`readNum, queue`readIndex, order`next, order`previous, index`index, index`num
      ensures Linked() && List() == Squeeze(old(List()))
    {
      RelinkBack(index);
      ParkOnPrevious(index, |order| - 2);
      FollowBack();
    }

    method MoveToFront(index: ReaderIndex, ghost k: nat) returns (result: MoveResult)
      requires Linked() && InRange()
      requires index.inQueue ==> k < |order| && order[k] == index
      modifies this, queue`readIndex, order
      ensures Linked() && (old(index.inQueue) <==> result != NotRegistered)
      ensures !old(index.inQueue) ==> unchanged(this, queue) && unchanged(old(order))
      ensures old(index.inQueue) ==>
                var m := ReaderLists.MoveToFront(old(List()), queue.currentSize, k);
                List() == m.list && (result == Advanced <==> m.ok)
      ensures result == Advanced ==> order != [] && order[|order| - 1] == index
    {
      if !index.inQueue {
        return NotRegistered;
      }
      var nextIndex := NextIndex(front.index, queue.currentSize);
      if nextIndex != back.index {
        if index != front {
          MoveAhead(index, nextIndex, k);
        } else {
          StepFront(index, nextIndex);
        }
        result := Advanced;
      } else {
        if index == back {
          FreeSlot(index);
        }
        result := Stayed;
      }
    }

    /** The branch taken by a finished back reader when the readers span the ring. */
    method FreeSlot(index: ReaderIndex)
      requires Linked() && InRange() && order != [] && order[0] == index && Spans(List(), queue.currentSize)
      modifies this`back, this`order, this`readNum, queue`readIndex, order`next, order`previous, index`index, index`num
      ensures Linked() && List() == Squeeze(old(List()))
    {
      NextIndexCases(back.index, queue.currentSize);
      assert |order| == 2 ==> index.next == order[1];
      assert |order| > 2 ==> index.next == order[1] != order[|order| - 1];
      if index.next != front {
        SqueezeBack(index);
      } else {
        queue.readIndex := back.index;
        readNum := back.num;
      }
    }

    /** Registers a reader; refuses one that is already registered. */
    method Add(index: ReaderIndex) returns (added: bool)
      requires Linked() && InRange()
      modifies this`front, this`back, this`order, order`next, order`previous, index
      ensures Linked() && added == !old(index.inQueue)
      ensures !added ==> unchanged(this) && unchanged(index) && unchanged(old(order))
      ensures added ==> index.inQueue && index.isEmpty
      ensures added ==> List() == ReaderLists.Add(old(List()), queue.currentSize, index)
    {
      if index.inQueue {
        return false;
      }
      added := true;
      index.isEmpty := true;
      if front == null {
        AddFirst(index);
      } else {
        var nextIndex := NextIndex(front.index, queue.currentSize);
        NextIndexCases(back.index, queue.currentSize);
        if nextIndex != back.index {
          AddAhead(index, nextIndex);
        } else {
          AddParked(index);
        }
      }
    }

    method AddAhead(index: ReaderIndex, nextIndex: nat)
      requires Linked() && order != [] && !index.inQueue
      modifies this`front, this`order, front`next
      modifies index`index, index`num, index`isDone, index`inQueue, index`next, index`previous
      ensures Linked() && index.inQueue
      ensures Readers() == old(Readers()) + [Reader(index, nextIndex, false, old(front.num) + 1)]
    {
      index.index := nextIndex;
      index.num := front.num + 1;
      index.isDone := false;
      index.inQueue := true;
      LinkAtFront(index);
    }

    method AddFirst(index: ReaderIndex)
      requires Linked() && order == []
      modifies this`front, this`back, this`order
      modifies index`index, index`num, index`isDone, index`inQueue, index`next, index`previous
      ensures Linked() && index.inQueue && Readers() == [Reader(index, queue.readIndex, false, readNum)]
    {
      index.index := queue.readIndex;
      index.num := readNum;
      index.next := index;
      index.previous := index;
      front, back := index, index;
      index.isDone := false;
      index.inQueue := true;
      order := [index];
    }

    method AddParked(index: ReaderIndex)
      requires Linked() && |order| >= 2 && !index.inQueue
      modifies this`order, order`next, order`previous
      modifies index`index, index`num, index`isDone, index`inQueue, index`next, index`previous
      ensures Linked() && index.inQueue
      ensures var previous := old(Readers())[|old(order)| - 2];
              Readers() == BehindFront(old(Readers()), Reader(index, previous.index, true, previous.num))
    {
      ghost var last := |order| - 1;
      assert order[last - 1] == front.previous;
      index.index := front.previous.index;
      index.num := front.previous.num;
      index.isDone := true;
      index.inQueue := true;
      LinkBehindFront(index);
    }

    /** Unregisters a reader, through whichever branch its position and state select. */
    method Remove(index: ReaderIndex, ghost k: nat)
      requires Linked() && InRange()
      requires index.inQueue ==> k < |order| && order[k] == index
      modifies this, queue`readIndex, order
      ensures !old(index.inQueue) ==> unchanged(this, queue) && unchanged(old(order))
      ensures old(index.inQueue) ==>
                var r := old(queue.readIndex);
                var populated := !EmptyTest(queue.writeIndex, r, old(index.index), r, queue.currentSize);
                && Linked() && List() == ReaderLists.Remove(old(List()), queue.currentSize, k, populated)
                && !index.inQueue && !index.isDone && !index.isEmpty && index !in order
    {
      if !index.inQueue {
        return;
      }
      TakeOut(index, k);
      Forget(index);
    }

    method TakeOut(index: ReaderIndex, ghost k: nat)
      requires Linked() && InRange() && k < |order| && order[k] == index
      modifies this, queue`readIndex, order
      ensures Linked() && index !in order
      ensures var r := old(queue.readIndex);
              var populated := !EmptyTest(queue.writeIndex, r, old(index.index), r, queue.currentSize);
              List() == ReaderLists.Remove(old(List()), queue.currentSize, k, populated)
    {
      if index != front {
        if !index.isDone {
          HandOver(index, k);
        } else {
          DropFinished(index, k);
        }
      } else if index == back {
        DropOnly(index);
      } else {
        DropFront(index);
      }
    }

    method Forget(index: ReaderIndex)
      requires Linked() && index !in order
      modifies index
      ensures Linked() && Readers() == old(Readers())
      ensures !index.isEmpty && !index.inQueue && !index.isDone
    {
      index.previous := null;
      index.next := null;
      index.isEmpty := false;
      index.inQueue := false;
      index.isDone := false;
    }

    /** The front reader takes over the slot, and the place, of a reader that leaves while waiting. */
    method HandOver(index: ReaderIndex, ghost k: nat)
      requires Linked() && k < |order| - 1 && order[k] == index
      modifies this`front, this`back, this`order, order`next, order`previous, front`index, front`num
      ensures Linked() && index !in order
      ensures var before, last := old(Readers()), |old(order)| - 1;
              var moved := before[last].(index := before[k].index, num := before[k].num);
              Readers() == before[..k] + [moved] + before[k + 1..last]
    {
      assert order[k + 1] == index.next;
      var mover := front;
      if index.next == front {
        PullFrontBack(index, k);
      } else {
        ReplaceByFront(index, k);
      }
      Reassign(mover, index.index, index.num, k);
    }

    /** The leaving reader is next to the front, which stays the front. */
    method PullFrontBack(index: ReaderIndex, ghost k: nat)
      requires Linked() && k == |order| - 2 && order[k] == index
      modifies this`back, this`order, order`next, order`previous
      ensures Linked() && index !in order && order == old(order[..k] + [order[k + 1]])
      ensures Readers() == old(Readers()[..k] + [Readers()[k + 1]])
    {
      assert k > 0 ==> order[k - 1] == index.previous;
      front.previous := index.previous;
      if index != back {
        front.previous.next := front;
      } else {
        back := front;
      }
      order := order[..k] + [order[k + 1]];
    }

    /** The front moves into the leaving reader's place, and the reader behind it becomes the front. */
    method ReplaceByFront(index: ReaderIndex, ghost k: nat)
      requires Linked() && k < |order| - 2 && order[k] == index
      modifies this`front, this`back, this`order, order`next, order`previous
      ensures Linked() && index !in order
      ensures order == old(order[..k] + [order[|order| - 1]] + order[k + 1..|order| - 1])
      ensures Readers() == old(Readers()[..k] + [Readers()[|order| - 1]] + Readers()[k + 1..|order| - 1])
    {
      var mover := front;
      DropFront(mover);
      Substitute(index, mover, k);
    }

    method Substitute(index: ReaderIndex, mover: ReaderIndex, ghost k: nat)
      requires Linked() && k < |order| - 1 && order[k] == index && mover !in order && mover.inQueue && mover.index >= 0
      modifies this`back, this`order, order`next, order`previous, mover`next, mover`previous
      ensures Linked() && index !in order && order == old(order)[k := mover]
    {
      assert order[k + 1] == index.next;
      assert k > 0 ==> order[k - 1] == index.previous;
      mover.previous := index.previous;
      if index != back {
        mover.previous.next := mover;
      } else {
        back := mover;
      }
      mover.next := index.next;
      mover.next.previous := mover;
      order := order[k := mover];
    }

    /** A finished reader other than the front leaves; unlike `MoveOut`, `readIndex` does not follow. */
    method DropFinished(index: ReaderIndex, ghost k: nat)
      requires Linked() && k < |order| - 1 && order[k] == index
      modifies this`back, this`order, order`next, order`previous
      ensures Linked() && index !in order && Readers() == Without(old(Readers()), k)
    {
      Unlink(index, k);
    }

    method DropOnly(index: ReaderIndex)
      requires Linked() && |order| == 1 && order[0] == index && queue.currentSize > 0
      modifies this, queue`readIndex, index`isEmpty
      ensures Linked() && order == []
      ensures var r := old(queue.readIndex);
              var populated := !EmptyTest(queue.writeIndex, r, index.index, r, queue.currentSize);
              if index.isDone && populated then
                queue.readIndex == NextIndex(index.index, queue.currentSize) && readNum == index.num + 1
              else queue.readIndex == old(queue.readIndex) && readNum == old(readNum)
    {
      index.isEmpty := EmptyTest(queue.writeIndex, queue.readIndex, index.index, queue.readIndex, queue.currentSize);
      if index.isDone && !index.isEmpty {
        queue.readIndex := NextIndex(index.index, queue.currentSize);
        readNum := index.num + 1;
      }
      front, back := null, null;
      order := [];
    }

    method DropFront(index: ReaderIndex)
      requires Linked() && |order| >= 2 && order[|order| - 1] == index
      modifies this`front, this`order, order`next
      ensures Linked() && index !in order && order == old(order)[..|old(order)| - 1]
      ensures Readers() == old(Readers())[..|old(order)| - 1]
    {
      assert order[|order| - 2] == index.previous;
      front := index.previous;
      front.next := null;
      order := order[..|order| - 1];
    }

    /** Moves a reader whose slot moved: populated above the write index, or unpopulated below it. */
    method AdjustReader(readerIndex: ReaderIndex, adjustment: int, queueReadIndex: nat)
      requires readerIndex.index >= 0
      modifies readerIndex`index
      ensures readerIndex.index
              == AdjustedIndex(old(readerIndex.index), adjustment, queueReadIndex, queue.writeIndex, queue.currentSize)
    {
      var index := readerIndex.index;
      var slotIsPopulated := AdjustIndex(index, queueReadIndex, queue.currentSize)
                             < AdjustIndex(queue.writeIndex, queueReadIndex, queue.currentSize);
      if (if slotIsPopulated then index > queue.writeIndex else index < queue.writeIndex) {
        readerIndex.index := readerIndex.index + adjustment;
      }
    }

    /** Re-bases every reader's slot after the ring has grown from `queueReadIndex`'s ring to the current one. */
    method Adjust(adjustment: nat, queueReadIndex: nat, ghost before: seq<Reader<ReaderIndex>>)
      requires Linked() && Readers() == before
      modifies order`index
      ensures Linked()
      ensures Readers() == ReaderLists.Adjust(before, adjustment, queueReadIndex, queue.writeIndex, queue.currentSize)
    {
      AdjustNodes(adjustment, queueReadIndex);
    }

    /** The loop over the nodes; a negative adjustment can leave an index below zero. */
    method AdjustNodes(adjustment: int, queueReadIndex: nat)
      requires Linked()
      modifies order`index
      ensures forall j :: 0 <= j < |order| ==>
                            order[j].index == AdjustedIndex(old(order[j].index), adjustment, queueReadIndex,
                                                            queue.writeIndex, queue.currentSize)
    {
      var readerIndex := back;
      ghost var i := 0;
      while readerIndex != null
        invariant 0 <= i <= |order|
        invariant readerIndex == if i < |order| then order[i] else null
        invariant forall j :: 0 <= j < i ==>
                                order[j].index == AdjustedIndex(old(order[j].index), adjustment, queueReadIndex,
                                                                queue.writeIndex, queue.currentSize)
        invariant forall j :: i <= j < |order| ==> order[j].index == old(order[j].index)
        decreases |order| - i
      {
        AdjustReader(readerIndex, adjustment, queueReadIndex);
        assert i + 1 < |order| ==> order[i + 1] == readerIndex.next;
        readerIndex := readerIndex.next;
        i := i + 1;
        if readerIndex == back {
          break;
        }
      }
      assert i == |order|;
    }
  }
}
