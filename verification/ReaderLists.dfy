/**
 The list of readers of a `SyncQueue` as a value: the specification of `SyncReaderList`.

 A reader is assigned a slot (`index`) and, unseen by the code, the sequence number of the entry
 that slot stands for (`num`).  Lists run from the back (slowest reader) to the front.
 */
module ReaderLists {
  import opened RingIndex

  datatype Reader<T> = Reader(id: T, index: nat, done: bool, num: int)

  /** `readNum` is the sequence number of the queue's `readIndex`. */
  datatype ReaderList<T> = ReaderList(readers: seq<Reader<T>>, readIndex: nat, readNum: int)

  datatype Moved<T> = Moved(ok: bool, list: ReaderList<T>)

  function Front<T>(l: ReaderList<T>): Reader<T>
    requires l.readers != []
  {
    l.readers[|l.readers| - 1]
  }

  /** The next reader to ask for a new slot gets this number. */
  function NextNum<T>(l: ReaderList<T>): int {
    if l.readers == [] then l.readNum else Front(l).num + 1
  }

  /** The readers occupy the ring from end to end: the slot after the front is the back's. */
  predicate Spans<T>(l: ReaderList<T>, size: nat)
    requires l.readers != [] && size > 0
  {
    NextIndex(Front(l).index, size) == l.readers[0].index
  }

  /** The list with reader `k` taken out of it (`moveOut`). */
  function Without<T>(readers: seq<Reader<T>>, k: nat): seq<Reader<T>>
    requires k < |readers|
  {
    readers[..k] + readers[k + 1..]
  }

  function Back<T>(l: ReaderList<T>): ReaderList<T>
    requires l.readers != []
  {
    l.(readIndex := l.readers[0].index, readNum := l.readers[0].num)
  }

  function MoveToFront<T>(l: ReaderList<T>, size: nat, k: nat): Moved<T>
    requires k < |l.readers| && size > 0
  {
    if Spans(l, size) then
      Moved(false, if k == 0 then Squeeze(l) else l)
    else
      var moved := l.readers[k].(index := NextIndex(Front(l).index, size), num := Front(l).num + 1);
      var l' := l.(readers := Without(l.readers, k) + [moved]);
      Moved(true, if k == 0 then Back(l') else l')
  }

  /** The back reader gives its slot up and parks on the slot of the reader behind the front. */
  function Squeeze<T>(l: ReaderList<T>): ReaderList<T>
    requires l.readers != []
  {
    var last := |l.readers| - 1;
    if last < 2 then Back(l)
    else
      var parked := l.readers[0].(index := l.readers[last - 1].index, num := l.readers[last - 1].num);
      Back(l.(readers := BehindFront(l.readers[1..], parked)))
  }

  function BehindFront<T>(readers: seq<Reader<T>>, r: Reader<T>): seq<Reader<T>>
    requires readers != []
  {
    readers[..|readers| - 1] + [r, readers[|readers| - 1]]
  }

  /** A new reader goes to the front; if the readers span the ring it parks behind the front instead. */
  function Add<T>(l: ReaderList<T>, size: nat, id: T): ReaderList<T>
    requires size > 0
  {
    if l.readers == [] then
      l.(readers := [Reader(id, l.readIndex, false, l.readNum)])
    else if !Spans(l, size) then
      l.(readers := l.readers + [Reader(id, NextIndex(Front(l).index, size), false, Front(l).num + 1)])
    else
      var previous := l.readers[if |l.readers| > 1 then |l.readers| - 2 else 0];
      l.(readers := BehindFront(l.readers, Reader(id, previous.index, true, previous.num)))
  }

  /**
   Unregisters reader `k`.  A reader still waiting for its slot hands that slot to the front reader;
   a finished one just leaves.  `populated` is the queue's test of the leaving reader's own slot.
   */
  function Remove<T>(l: ReaderList<T>, size: nat, k: nat, populated: bool): ReaderList<T>
    requires k < |l.readers| && size > 0
  {
    var last := |l.readers| - 1;
    var leaving := l.readers[k];
    if k < last then
      if leaving.done then
        l.(readers := Without(l.readers, k))
      else
        l.(readers := l.readers[..k] + [Front(l).(index := leaving.index, num := leaving.num)] + l.readers[k + 1..last])
    else if k == 0 && leaving.done && populated then
      ReaderList([], NextIndex(leaving.index, size), leaving.num + 1)
    else
      l.(readers := l.readers[..last])
  }

  /** New slot of a reader when the ring grows; `readIndex` is the one before the resize. */
  function AdjustedIndex(index: nat, adjustment: int, readIndex: int, writeIndex: int, newSize: int): (adjusted: int)
    ensures adjusted == index || adjusted == index + adjustment
  {
    var populated := AdjustIndex(index, readIndex, newSize) < AdjustIndex(writeIndex, readIndex, newSize);
    if (if populated then index > writeIndex else index < writeIndex) then index + adjustment else index
  }

  function Adjust<T>(readers: seq<Reader<T>>, adjustment: nat, readIndex: int, writeIndex: int, newSize: int)
    : (adjusted: seq<Reader<T>>)
    ensures |adjusted| == |readers|
    ensures forall i :: 0 <= i < |readers| ==>
                          adjusted[i] == readers[i].(
                            index := AdjustedIndex(readers[i].index, adjustment, readIndex, writeIndex, newSize))
  {
    seq(|readers|, i requires 0 <= i < |readers| =>
      readers[i].(index := AdjustedIndex(readers[i].index, adjustment, readIndex, writeIndex, newSize)))
  }

  // ----- The shape every operation keeps -----

  /**
   From back to front, numbers never decrease, and only a finished reader parked on its
   predecessor's slot repeats a number.
   */
  ghost predicate Precedes<T>(a: Reader<T>, b: Reader<T>) {
    a.num <= b.num && (a.num == b.num ==> b.done) && a.id != b.id
  }

  ghost predicate Ordered<T>(readers: seq<Reader<T>>) {
    forall i, j :: 0 <= i < j < |readers| ==> Precedes(readers[i], readers[j])
  }

  ghost predicate FrontLargest<T>(readers: seq<Reader<T>>) {
    forall i :: 0 <= i < |readers| - 1 ==> readers[i].num < readers[|readers| - 1].num
  }

  ghost predicate Placed<T>(readers: seq<Reader<T>>, base: int, size: nat)
    requires size > 0
  {
    forall i :: 0 <= i < |readers| ==> readers[i].index == Slot(readers[i].num, base, size)
  }

  ghost predicate WellFormed<T>(l: ReaderList<T>, base: int, size: nat) {
    && size >= 2
    && l.readIndex == Slot(l.readNum, base, size)
    && Placed(l.readers, base, size)
    && Ordered(l.readers)
    && FrontLargest(l.readers)
    && (l.readers != [] ==> l.readers[0].num == l.readNum && Front(l).num <= l.readNum + size - 1)
  }

  lemma WithoutKeepsOrder<T>(readers: seq<Reader<T>>, k: nat)
    requires Ordered(readers) && k < |readers|
    ensures Ordered(Without(readers, k))
    ensures forall i :: 0 <= i < |readers| - 1 ==> Without(readers, k)[i] == readers[if i < k then i else i + 1]
  {
  }

  lemma AppendKeepsOrder<T>(readers: seq<Reader<T>>, r: Reader<T>)
    requires Ordered(readers) && forall i :: 0 <= i < |readers| ==> readers[i].num < r.num && readers[i].id != r.id
    ensures Ordered(readers + [r]) && FrontLargest(readers + [r])
  {
  }

  lemma BehindFrontKeepsOrder<T>(readers: seq<Reader<T>>, r: Reader<T>)
    requires |readers| >= 2 && Ordered(readers) && FrontLargest(readers)
    requires r.done && r.num == readers[|readers| - 2].num
    requires forall i :: 0 <= i < |readers| ==> readers[i].id != r.id
    ensures Ordered(BehindFront(readers, r)) && FrontLargest(BehindFront(readers, r))
  {
    var r' := BehindFront(readers, r);
    var last := |readers| - 1;
    forall i, j | 0 <= i < j < |r'|
      ensures Precedes(r'[i], r'[j])
    {
      if j == last {
        assert r'[i] == readers[i];
        assert i < last - 1 ==> Precedes(readers[i], readers[last - 1]);
      } else if i == last {
        assert readers[last - 1].num < readers[last].num;
      }
    }
  }

  lemma SpansExact<T>(l: ReaderList<T>, base: int, size: nat)
    requires WellFormed(l, base, size) && l.readers != []
    ensures NextIndex(Front(l).index, size) == Slot(Front(l).num + 1, base, size)
    ensures Spans(l, size) <==> Front(l).num == l.readNum + size - 1
    ensures Spans(l, size) ==> |l.readers| >= 2
  {
    var p, r := Front(l).num, l.readNum;
    SlotNext(p, base, size);
    if p == r + size - 1 {
      SlotPeriod(r, base, size);
    } else {
      SlotInjective(r, p + 1, base, size);
    }
  }

  /** `moveToFront` by a finished reader, in any list, through any branch. */
  lemma MoveKeepsShape<T>(l: ReaderList<T>, base: int, size: nat, k: nat)
    requires WellFormed(l, base, size) && k < |l.readers| && l.readers[k].done
    ensures var m := MoveToFront(l, size, k);
            && WellFormed(m.list, base, size) && m.list.readNum >= l.readNum
            && |m.list.readers| == |l.readers|
            && (m.ok <==> !Spans(l, size))
            && NextNum(m.list) == NextNum(l) + (if m.ok then 1 else 0)
            && (m.ok ==> Front(m.list).id == l.readers[k].id && Front(m.list).done)
  {
    if Spans(l, size) {
      SpansExact(l, base, size);
      if k == 0 && |l.readers| > 2 {
        SqueezeKeepsShape(l, base, size);
      }
    } else {
      AdvanceKeepsShape(l, base, size, k);
    }
  }

  lemma AdvanceKeepsShape<T>(l: ReaderList<T>, base: int, size: nat, k: nat)
    requires WellFormed(l, base, size) && k < |l.readers| && !Spans(l, size)
    ensures var l' := MoveToFront(l, size, k).list;
            && WellFormed(l', base, size) && l'.readNum >= l.readNum && |l'.readers| == |l.readers|
            && NextNum(l') == NextNum(l) + 1 && Front(l').id == l.readers[k].id && Front(l').done == l.readers[k].done
  {
    SpansExact(l, base, size);
    var rest := Without(l.readers, k);
    var moved := Front(MoveToFront(l, size, k).list);
    WithoutKeepsOrder(l.readers, k);
    forall i | 0 <= i < |rest|
      ensures rest[i].num < moved.num && rest[i].id != moved.id
    {
      var j := if i < k then i else i + 1;
      assert if j < k then Precedes(l.readers[j], l.readers[k]) else Precedes(l.readers[k], l.readers[j]);
      assert j < |l.readers| - 1 ==> Precedes(l.readers[j], Front(l));
    }
    AppendKeepsOrder(rest, moved);
    assert k == 0 && |l.readers| > 1 ==> Precedes(l.readers[0], l.readers[1]);
  }

  /** A move that succeeds takes the mover past all others, which keep their order, places and slots. */
  lemma SuccessfulMovePasses<T>(l: ReaderList<T>, size: nat, k: nat)
    requires k < |l.readers| && size > 0 && MoveToFront(l, size, k).ok
    ensures var r', last := MoveToFront(l, size, k).list.readers, |l.readers| - 1;
            && |r'| == |l.readers| && (forall i :: 0 <= i < last ==> r'[i] == l.readers[if i < k then i else i + 1])
            && r'[last].id == l.readers[k].id && r'[last].done == l.readers[k].done
            && r'[last].num == Front(l).num + 1 && r'[last].index == NextIndex(Front(l).index, size)
  {
  }

  /**
   A move that fails leaves every reader where it is, the mover included, unless the mover is at the back; then only
   the mover goes elsewhere: to the place behind the front, on the slot of the reader that was there.
   */
  lemma FailedMoveStays<T>(l: ReaderList<T>, size: nat, k: nat)
    requires k < |l.readers| && size > 0 && !MoveToFront(l, size, k).ok
    ensures var l', last := MoveToFront(l, size, k).list, |l.readers| - 1;
            && |l'.readers| == |l.readers|
            && (k > 0 || last < 2 ==> forall i :: 0 <= i <= last ==> l'.readers[i] == l.readers[i])
            && (k > 0 ==> l'.readIndex == l.readIndex && l'.readNum == l.readNum)
            && (k == 0 && last >= 2 ==>
                  && (forall i :: 0 <= i < last - 1 ==> l'.readers[i] == l.readers[i + 1])
                  && l'.readers[last] == l.readers[last]
                  && l'.readers[last - 1].id == l.readers[0].id && l'.readers[last - 1].done == l.readers[0].done
                  && l'.readers[last - 1].num == l'.readers[last - 2].num
                  && l'.readers[last - 1].index == l'.readers[last - 2].index)
  {
  }

  lemma SqueezeKeepsShape<T>(l: ReaderList<T>, base: int, size: nat)
    requires WellFormed(l, base, size) && |l.readers| >= 3 && l.readers[0].done
    ensures WellFormed(Squeeze(l), base, size) && Squeeze(l).readNum >= l.readNum
    ensures NextNum(Squeeze(l)) == NextNum(l) && |Squeeze(l).readers| == |l.readers|
  {
    var rest := l.readers[1..];
    var parked := l.readers[0].(index := rest[|rest| - 2].index, num := rest[|rest| - 2].num);
    TailKeepsOrder(l.readers, base, size);
    BehindFrontKeepsOrder(rest, parked);
    BehindFrontPlaced(rest, parked, base, size);
  }

  lemma TailKeepsOrder<T>(readers: seq<Reader<T>>, base: int, size: nat)
    requires |readers| >= 2 && size > 0 && Ordered(readers) && FrontLargest(readers) && Placed(readers, base, size)
    ensures Ordered(readers[1..]) && FrontLargest(readers[1..]) && Placed(readers[1..], base, size)
    ensures forall i :: 0 <= i < |readers[1..]| ==> readers[1..][i].id != readers[0].id
    ensures readers[1..][0].num >= readers[0].num
  {
    forall i | 0 <= i < |readers[1..]|
      ensures readers[1..][i].id != readers[0].id
    {
      assert Precedes(readers[0], readers[i + 1]);
    }
    assert Precedes(readers[0], readers[1]);
  }

  lemma BehindFrontPlaced<T>(readers: seq<Reader<T>>, r: Reader<T>, base: int, size: nat)
    requires size > 0 && readers != [] && Placed(readers, base, size) && r.index == Slot(r.num, base, size)
    ensures Placed(BehindFront(readers, r), base, size)
  {
  }

  lemma AddKeepsShape<T>(l: ReaderList<T>, base: int, size: nat, id: T)
    requires WellFormed(l, base, size) && forall r :: r in l.readers ==> r.id != id
    ensures var l' := Add(l, size, id);
            WellFormed(l', base, size) && l'.readNum == l.readNum && |l'.readers| == |l.readers| + 1
            && NextNum(l') == NextNum(l) + (if l.readers != [] && Spans(l, size) then 0 else 1)
  {
    if l.readers != [] {
      SpansExact(l, base, size);
      var last := |l.readers| - 1;
      if Spans(l, size) {
        BehindFrontKeepsOrder(l.readers, Reader(id, l.readers[last - 1].index, true, l.readers[last - 1].num));
      } else {
        AppendKeepsOrder(l.readers, Front(Add(l, size, id)));
      }
    }
  }

  // ----- Unregistering -----

  /** Reader `k` can unregister without spoiling the shape of the list; see `RemoveKeepsShapeExactly`. */
  predicate KeepsShape<T>(l: ReaderList<T>, k: nat)
    requires k < |l.readers|
  {
    var last := |l.readers| - 1;
    || last == 0
    || (k < last && l.readers[k].done && (k > 0 || l.readers[1].num == l.readers[0].num))
    || ((k == last || !l.readers[k].done) && (last > 1 ==> l.readers[last - 2].num < l.readers[last - 1].num))
  }

  /** And without losing or repeating an entry: a front that gives its slot up waits just past its predecessor. */
  predicate SafeToLeave<T>(l: ReaderList<T>, k: nat)
    requires k < |l.readers|
  {
    var last := |l.readers| - 1;
    && KeepsShape(l, k)
    && (last == 0 || (k < last && l.readers[k].done)
        || (!l.readers[last].done && l.readers[last - 1].num + 1 == l.readers[last].num))
  }

  lemma RemoveKeepsShape<T>(l: ReaderList<T>, base: int, size: nat, k: nat, populated: bool)
    requires WellFormed(l, base, size) && k < |l.readers| && KeepsShape(l, k)
    ensures var l' := Remove(l, size, k, populated);
            WellFormed(l', base, size) && |l'.readers| == |l.readers| - 1 && l'.readNum >= l.readNum
  {
    var last := |l.readers| - 1;
    if last == 0 {
      SlotNext(l.readNum, base, size);
    } else if k < last && l.readers[k].done {
      WithoutKeepsOrder(l.readers, k);
      assert Precedes(l.readers[0], l.readers[last]);
    } else if k == last {
      assert Precedes(l.readers[0], l.readers[last - 1]) || last == 1;
      PrefixKeepsShape(l, base, size);
    } else {
      HandOverKeepsShape(l, base, size, k);
    }
  }

  /** Unregistering keeps the shape exactly where `KeepsShape` says so. */
  lemma RemoveKeepsShapeExactly<T>(l: ReaderList<T>, base: int, size: nat, k: nat, populated: bool)
    requires WellFormed(l, base, size) && k < |l.readers|
    ensures WellFormed(Remove(l, size, k, populated), base, size) <==> KeepsShape(l, k)
  {
    var readers, last, l' := l.readers, |l.readers| - 1, Remove(l, size, k, populated);
    if KeepsShape(l, k) {
      RemoveKeepsShape(l, base, size, k, populated);
    } else if k < last && readers[k].done {
      assert l'.readers[0] == readers[1];
    } else {
      assert Precedes(readers[last - 2], readers[last - 1]);
      assert l'.readers[last - 1].num == readers[last - 1].num && l'.readers[last - 2].num == readers[last - 2].num;
      assert !FrontLargest(l'.readers);
    }
  }

  lemma PrefixKeepsShape<T>(l: ReaderList<T>, base: int, size: nat)
    requires WellFormed(l, base, size) && |l.readers| >= 2
    requires |l.readers| > 2 ==> l.readers[|l.readers| - 3].num < l.readers[|l.readers| - 2].num
    ensures WellFormed(l.(readers := l.readers[..|l.readers| - 1]), base, size)
  {
    var last := |l.readers| - 1;
    var r' := l.readers[..last];
    forall i | 0 <= i < last - 1
      ensures r'[i].num < r'[last - 1].num
    {
      assert i < last - 2 ==> Precedes(l.readers[i], l.readers[last - 2]);
    }
  }

  lemma HandOverKeepsShape<T>(l: ReaderList<T>, base: int, size: nat, k: nat)
    requires WellFormed(l, base, size) && k < |l.readers| - 1 && !l.readers[k].done
    requires |l.readers| > 2 ==> l.readers[|l.readers| - 3].num < l.readers[|l.readers| - 2].num
    ensures var l' := Remove(l, size, k, false); WellFormed(l', base, size) && l'.readNum == l.readNum
  {
    var last := |l.readers| - 1;
    var r' := Remove(l, size, k, false).readers;
    assert forall i :: 0 <= i < last && i != k ==> r'[i] == l.readers[i];
    assert r'[k] == Front(l).(index := l.readers[k].index, num := l.readers[k].num);
    HandedOverShape(l, r', base, size, k);
  }

  lemma HandedOverShape<T>(l: ReaderList<T>, r': seq<Reader<T>>, base: int, size: nat, k: nat)
    requires WellFormed(l, base, size) && k < |l.readers| - 1 == |r'| && !l.readers[k].done
    requires |l.readers| > 2 ==> l.readers[|l.readers| - 3].num < l.readers[|l.readers| - 2].num
    requires forall i :: 0 <= i < |r'| && i != k ==> r'[i] == l.readers[i]
    requires r'[k] == Front(l).(index := l.readers[k].index, num := l.readers[k].num)
    ensures WellFormed(l.(readers := r'), base, size)
  {
    HandOverKeepsOrder(l.readers, r', k);
    SecondIsLargest(l.readers);
  }

  /** All readers behind the last two are below the last but one. */
  lemma SecondIsLargest<T>(readers: seq<Reader<T>>)
    requires Ordered(readers) && |readers| >= 2
    requires |readers| > 2 ==> readers[|readers| - 3].num < readers[|readers| - 2].num
    ensures forall i :: 0 <= i < |readers| - 2 ==> readers[i].num < readers[|readers| - 2].num
  {
    var last := |readers| - 1;
    forall i | 0 <= i < last - 1
      ensures readers[i].num < readers[last - 1].num
    {
      assert i < last - 2 ==> Precedes(readers[i], readers[last - 2]);
      assert Precedes(readers[i], readers[last - 1]);
    }
  }

  lemma HandOverKeepsOrder<T>(readers: seq<Reader<T>>, r': seq<Reader<T>>, k: nat)
    requires Ordered(readers) && k < |readers| - 1 == |r'| && !readers[k].done
    requires forall i :: 0 <= i < |r'| && i != k ==> r'[i] == readers[i]
    requires r'[k] == readers[|r'|].(index := readers[k].index, num := readers[k].num)
    ensures Ordered(r')
  {
    var last := |r'|;
    forall i, j | 0 <= i < j < last
      ensures Precedes(r'[i], r'[j])
    {
      assert Precedes(readers[i], readers[j]);
      assert Precedes(readers[i], readers[last]) && Precedes(readers[j], readers[last]);
    }
  }

  /** After `remove`, `readIndex` still is the back reader's slot unless a finished back reader left a gap. */
  lemma RemoveKeepsReadIndexExactly<T>(l: ReaderList<T>, base: int, size: nat, k: nat, populated: bool)
    requires WellFormed(l, base, size) && k < |l.readers| && |l.readers| >= 2
    ensures var l' := Remove(l, size, k, populated);
            l'.readers != [] &&
            (l'.readIndex == l'.readers[0].index
             <==> !(k == 0 && l.readers[0].done && l.readers[1].num != l.readers[0].num))
  {
    var last := |l.readers| - 1;
    if k == 0 && l.readers[0].done && l.readers[1].num != l.readers[0].num {
      assert Precedes(l.readers[0], l.readers[1]);
      assert last > 1 ==> Precedes(l.readers[1], l.readers[last]);
      SlotInjective(l.readers[0].num, l.readers[1].num, base, size);
    }
  }

  /** Two readers in a ring of four: the back one leaves after finishing, and `readIndex` stays behind on its slot. */
  lemma RemoveCanLeaveReadIndexBehind()
    ensures var l := ReaderList([Reader(0, 0, true, 0), Reader(1, 1, false, 1)], 0, 0);
            var l' := Remove(l, 4, 0, true);
            WellFormed(l, 0, 4) && l'.readers == [Reader(1, 1, false, 1)] && l'.readIndex == 0
  {
    var back, front := Reader(0, 0, true, 0), Reader(1, 1, false, 1);
    DivModUnique(0, 0, 0, 4);
    DivModUnique(1, 0, 1, 4);
    assert Precedes(back, front);
    assert Ordered([back, front]);
  }

  // ----- Everybody's place after a reader has come or gone -----

  /** A new reader goes to the front, on the next slot; if there is none, it parks with the reader behind the front. */
  lemma AddPlacesNewcomer<T>(l: ReaderList<T>, size: nat, id: T)
    requires size > 0
    ensures var l', n := Add(l, size, id), |l.readers|;
            && |l'.readers| == n + 1 && l'.readIndex == l.readIndex && l'.readNum == l.readNum
            && if n == 0 then l'.readers[0] == Reader(id, l.readIndex, false, l.readNum)
               else if !Spans(l, size) then
                 && (forall i :: 0 <= i < n ==> l'.readers[i] == l.readers[i])
                 && l'.readers[n] == Reader(id, NextIndex(Front(l).index, size), false, NextNum(l))
               else
                 && (forall i :: 0 <= i < n - 1 ==> l'.readers[i] == l.readers[i]) && l'.readers[n] == Front(l)
                 && l'.readers[n - 1].id == id && l'.readers[n - 1].done
                 && (n >= 2 ==> l'.readers[n - 1].num == l.readers[n - 2].num
                                && l'.readers[n - 1].index == l.readers[n - 2].index)
  {
  }

  /** Those who stay keep their order, their slots and what they found, except the front when it takes over a slot. */
  lemma RemoveKeepsPlaces<T>(l: ReaderList<T>, size: nat, k: nat, populated: bool)
    requires k < |l.readers| && size > 0
    ensures var l', last := Remove(l, size, k, populated), |l.readers| - 1;
            && |l'.readers| == last
            && (last > 0 || !l.readers[k].done || !populated ==> l'.readIndex == l.readIndex && l'.readNum == l.readNum)
            && if k == last || l.readers[k].done
               then forall i :: 0 <= i < last ==> l'.readers[i] == l.readers[if i < k then i else i + 1]
               else
                 && (forall i :: 0 <= i < last && i != k ==> l'.readers[i] == l.readers[i])
                 && l'.readers[k].id == Front(l).id && l'.readers[k].done == Front(l).done
                 && l'.readers[k].num == l.readers[k].num && l'.readers[k].index == l.readers[k].index
  {
  }

  // ----- What a squeeze achieves -----

  /**
   The comment on the squeeze promises that it frees at least one slot.  It does so exactly when
   the back reader's successor is not the front and is not parked on the back's own slot.
   */
  lemma SqueezeFreesSlotExactly<T>(l: ReaderList<T>, base: int, size: nat)
    requires WellFormed(l, base, size) && l.readers != [] && l.readers[0].done && Spans(l, size)
    ensures MoveToFront(l, size, 0).list.readNum > l.readNum
            <==> |l.readers| > 2 && l.readers[1].index != l.readers[0].index
  {
    SpansExact(l, base, size);
    if |l.readers| > 2 && l.readers[1].num != l.readers[0].num {
      SlotInjective(l.readers[0].num, l.readers[1].num, base, size);
    }
  }

  /** Two readers, a ring of two: the back reader has finished and its squeeze changes nothing. */
  lemma SqueezeCanFreeNothing()
    ensures var l := ReaderList([Reader(0, 0, true, 0), Reader(1, 1, false, 1)], 0, 0);
            WellFormed(l, 0, 2) && Spans(l, 2) && MoveToFront(l, 2, 0) == Moved(false, l)
  {
    var back, front := Reader(0, 0, true, 0), Reader(1, 1, false, 1);
    DivModUnique(0, 0, 0, 2);
    DivModUnique(1, 0, 1, 2);
    DivModUnique(2, 1, 0, 2);
    assert Precedes(back, front);
    assert Ordered([back, front]);
  }
}
