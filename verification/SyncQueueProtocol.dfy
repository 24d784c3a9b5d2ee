/**
 The multi-reader ring (`SyncQueue`) under interleaving: any number of readers, writers that take
 turns under `addMutex`, and resizes.

 A writer step reads or writes one shared location.  `moveToFront` runs under `indexMutex` and writes
 the one field others read without it (`readIndex`) once, so it is one step.  The emptiness test of
 `removeSlot` is taken as one step; `RingIndex.TornEmptyTestWriteFirst` says what happens when it is not.
 */
module SyncQueueProtocol {
  import opened ReaderLists
  import opened RingContents
  import opened RingIndex

  /** The thread inside `add`, if any; `owner` names it. */
  datatype Writer<E> =
    | NoWriter
    | Entered(owner: nat, entry: E)
    | Checked(owner: nat, entry: E, next: nat)
    | Written(owner: nat, entry: E, next: nat)

  /** Entry number `num` was handed to reader `id`, which saw `entry` in its slot. */
  datatype Delivery<T, E> = Delivery(num: int, id: T, entry: E)

  /** `added` and `delivered` record what was published and handed out so far; `base` numbers slot 0. */
  datatype State<T, E> = State(
    size: nat, base: int, data: seq<E>, writeIndex: nat, list: ReaderList<T>,
    writer: Writer<E>, added: seq<E>, delivered: seq<Delivery<T, E>>)

  datatype Action<T, E> =
    | Register(id: T)            // startAccess
    | Check(k: nat)              // removeSlot by reader k, whose slot was empty when last checked
    | Move(k: nat)               // moveToFront by reader k, which has finished its slot
    | Unregister(k: nat)         // endAccess, where it is safe; see `LeavingKeepsAccountsExactly`
    | EnterAdd(owner: nat, entry: E)
    | CheckFull
    | Refuse                     // the data array cannot store the entry: CANNOT_ADD
    | WriteSlot
    | Publish
    | Resize(newData: seq<E>)

  ghost predicate Init<T, E>(s: State<T, E>) {
    && s.size >= 2 && |s.data| == s.size && s.base == 0 && s.writeIndex == 0
    && s.list == ReaderList([], 0, 0) && s.writer == NoWriter && s.added == [] && s.delivered == []
  }

  predicate InBounds<T, E>(s: State<T, E>) {
    && s.size >= 2 && |s.data| == s.size && s.writeIndex < s.size && s.list.readIndex < s.size
    && forall i :: 0 <= i < |s.list.readers| ==> s.list.readers[i].index < s.size
  }

  /** A reader waiting for a slot that has wrapped around below the write index. */
  predicate WrappedWaiting<T, E>(s: State<T, E>, r: Reader<T>) {
    |s.added| <= r.num && r.index < s.writeIndex
  }

  /** Enlarging to `newSize` keeps every reader on its entry; see `AdjustKeepsNumberExactly`. */
  predicate NumberPreserving<T, E>(s: State<T, E>, newSize: nat) {
    newSize == 2 * s.size
    || forall i :: 0 <= i < |s.list.readers| ==> !WrappedWaiting(s, s.list.readers[i])
  }

  ghost predicate Enabled<T, E>(s: State<T, E>, a: Action<T, E>) {
    InBounds(s) &&
    match a
    case Register(id) => forall r :: r in s.list.readers ==> r.id != id
    case Check(k) => k < |s.list.readers| && !s.list.readers[k].done
    case Move(k) => k < |s.list.readers| && s.list.readers[k].done
    case Unregister(k) => k < |s.list.readers| && SafeToLeave(s.list, k)
    case EnterAdd(_, _) => s.writer.NoWriter?
    case CheckFull => s.writer.Entered?
    case Refuse => s.writer.Checked?
    case WriteSlot => s.writer.Checked?
    case Publish => s.writer.Written?
    case Resize(newData) =>
      && s.writer.NoWriter? && s.size < |newData| && NumberPreserving(s, |newData|)
      && RelocatedData(s.data, newData, s.list.readIndex, s.writeIndex)
  }

  /** A reader that has just moved has not looked at its new slot yet. */
  function Unchecked<T>(l: ReaderList<T>): ReaderList<T>
    requires l.readers != []
  {
    l.(readers := l.readers[|l.readers| - 1 := Front(l).(done := false)])
  }

  function Leave<T, E>(s: State<T, E>, k: nat): ReaderList<T>
    requires k < |s.list.readers| && s.size > 0
  {
    var populated := !EmptyTest(s.writeIndex, s.list.readIndex, s.list.readers[k].index, s.list.readIndex, s.size);
    Remove(s.list, s.size, k, populated)
  }

  /** The ring re-based on `newData`: the write index stays, the read index and the readers are adjusted. */
  function Enlarged<T, E>(s: State<T, E>, newData: seq<E>): State<T, E>
    requires s.size <= |newData|
  {
    var d := |newData| - s.size;
    var l := s.list;
    s.(size := |newData|, base := |s.added| - s.writeIndex, data := newData,
       list := ReaderList(Adjust(l.readers, d, l.readIndex, s.writeIndex, |newData|),
                          Relocated(l.readIndex, s.writeIndex, d), l.readNum))
  }

  function Apply<T, E>(s: State<T, E>, a: Action<T, E>): State<T, E>
    requires Enabled(s, a)
  {
    match a
    case Register(id) => s.(list := Add(s.list, s.size, id))
    case Check(k) =>
      var r := s.list.readers[k];
      if EmptyTest(s.writeIndex, s.list.readIndex, r.index, s.list.readIndex, s.size) then s
      else s.(list := s.list.(readers := s.list.readers[k := r.(done := true)]),
              delivered := s.delivered + [Delivery(r.num, r.id, s.data[r.index])])
    case Move(k) =>
      var m := MoveToFront(s.list, s.size, k);
      s.(list := if m.ok then Unchecked(m.list) else m.list)
    case Unregister(k) => s.(list := Leave(s, k))
    case EnterAdd(owner, entry) => s.(writer := Entered(owner, entry))
    case CheckFull =>
      var next := NextIndex(s.writeIndex, s.size);
      if next == s.list.readIndex then s.(writer := NoWriter)
      else s.(writer := Checked(s.writer.owner, s.writer.entry, next))
    case Refuse => s.(writer := NoWriter)
    case WriteSlot =>
      s.(data := s.data[s.writeIndex := s.writer.entry],
         writer := Written(s.writer.owner, s.writer.entry, s.writer.next))
    case Publish =>
      s.(writeIndex := s.writer.next, added := s.added + [s.writer.entry], writer := NoWriter)
    case Resize(newData) => Enlarged(s, newData)
  }

  ghost predicate Run<T, E>(states: seq<State<T, E>>, actions: seq<Action<T, E>>) {
    && |states| == |actions| + 1 && Init(states[0])
    && forall i {:trigger actions[i]} :: 0 <= i < |actions| ==>
                     Enabled(states[i], actions[i]) && states[i + 1] == Apply(states[i], actions[i])
  }

  // ----- Invariant -----

  ghost function Served<T, E>(s: State<T, E>): set<int> {
    set d | d in s.delivered :: d.num
  }

  /** The numbers of the readers still to be served. */
  ghost function Held<T>(readers: seq<Reader<T>>): set<int> {
    set r | r in readers && !r.done :: r.num
  }

  /** The numbers below the next one to hand out are delivered or held by a reader to be served, never both. */
  ghost predicate Accounted<T, E>(s: State<T, E>) {
    && Served(s) !! Held(s.list.readers)
    && forall n :: n in Served(s) || n in Held(s.list.readers) <==> 0 <= n < NextNum(s.list)
  }

  ghost predicate Delivered<T, E>(s: State<T, E>) {
    && (forall d :: d in s.delivered ==> 0 <= d.num < |s.added| && d.entry == s.added[d.num])
    && (forall i, j :: 0 <= i < j < |s.delivered| ==> s.delivered[i].num != s.delivered[j].num)
  }

  /** Every entry from the back reader's on sits intact in its slot. */
  ghost predicate Stored<T, E>(s: State<T, E>) {
    && |s.data| == s.size && s.size > 0
    && forall n :: s.list.readNum <= n < |s.added| && 0 <= n ==> s.data[Slot(n, s.base, s.size)] == s.added[n]
  }

  ghost predicate WriterInv<T, E>(s: State<T, E>) {
    && s.size > 0
    && (s.writer.Checked? || s.writer.Written? ==>
          s.writer.next == NextIndex(s.writeIndex, s.size) && |s.added| <= s.list.readNum + s.size - 2)
    && (s.writer.Written? ==> s.writeIndex < |s.data| && s.data[s.writeIndex] == s.writer.entry)
  }

  ghost predicate Inv<T, E>(s: State<T, E>) {
    && WellFormed(s.list, s.base, s.size)
    && 0 <= s.list.readNum <= |s.added| <= s.list.readNum + s.size - 1
    && s.writeIndex == Slot(|s.added|, s.base, s.size)
    && Stored(s) && Accounted(s) && Delivered(s) && WriterInv(s)
  }

  lemma InitEstablishesInv<T, E>(s: State<T, E>)
    requires Init(s)
    ensures Inv(s)
  {
  }

  lemma InvInBounds<T, E>(s: State<T, E>)
    requires Inv(s)
    ensures InBounds(s)
  {
  }

  // ----- Readers -----

  lemma HeldByOne<T>(readers: seq<Reader<T>>, k: nat)
    requires Ordered(readers) && k < |readers| && !readers[k].done
    ensures Held(readers[k := readers[k].(done := true)]) == Held(readers) - {readers[k].num}
    ensures readers[k].num in Held(readers)
  {
    var r' := readers[k := readers[k].(done := true)];
    assert readers[k] in readers;
    forall n
      ensures n in Held(r') <==> n in Held(readers) && n != readers[k].num
    {
      if n in Held(r') {
        var i :| 0 <= i < |r'| && !r'[i].done && r'[i].num == n;
        assert readers[i] in readers;
        assert if i < k then Precedes(readers[i], readers[k]) else Precedes(readers[k], readers[i]);
      }
      if n in Held(readers) && n != readers[k].num {
        var i :| 0 <= i < |readers| && !readers[i].done && readers[i].num == n;
        assert r'[i] in r';
      }
    }
  }

  lemma MarkingDoneKeepsShape<T>(l: ReaderList<T>, base: int, size: nat, k: nat)
    requires WellFormed(l, base, size) && k < |l.readers|
    ensures WellFormed(l.(readers := l.readers[k := l.readers[k].(done := true)]), base, size)
  {
    var r' := l.readers[k := l.readers[k].(done := true)];
    forall i, j | 0 <= i < j < |r'|
      ensures Precedes(r'[i], r'[j])
    {
      assert Precedes(l.readers[i], l.readers[j]);
    }
  }

  lemma NumInRange<T, E>(s: State<T, E>, k: nat)
    requires Inv(s) && k < |s.list.readers|
    ensures s.list.readNum <= s.list.readers[k].num <= s.list.readNum + s.size - 1
  {
    assert k > 0 ==> Precedes(s.list.readers[0], s.list.readers[k]);
  }

  /** In every reachable state the circular test of `isEmpty` is the test "not yet published". */
  lemma ReaderTestExact<T, E>(s: State<T, E>, k: nat)
    requires Inv(s) && k < |s.list.readers|
    ensures EmptyTest(s.writeIndex, s.list.readIndex, s.list.readers[k].index, s.list.readIndex, s.size)
            <==> |s.added| <= s.list.readers[k].num
  {
    NumInRange(s, k);
    EmptyTestExact(|s.added|, s.list.readers[k].num, s.list.readNum, s.base, s.size);
  }

  lemma CheckKeepsInv<T, E>(s: State<T, E>, k: nat)
    requires Inv(s) && Enabled(s, Check(k))
    ensures Inv(Apply(s, Check(k)))
    ensures Apply(s, Check(k)) != s ==> s.list.readers[k].num !in Served(s)
  {
    ReaderTestExact(s, k);
    if s.list.readers[k].num < |s.added| {
      DeliveryIsNew(s, k);
      DeliveryKeepsAccounts(s, k);
      MarkingDoneKeepsShape(s.list, s.base, s.size, k);
    }
  }

  /** A reader still to be served whose entry is published finds it in its slot, and nobody was handed it. */
  lemma DeliveryIsNew<T, E>(s: State<T, E>, k: nat)
    requires Inv(s) && k < |s.list.readers| && !s.list.readers[k].done && s.list.readers[k].num < |s.added|
    ensures var r := s.list.readers[k];
            && 0 <= r.num && r.index < |s.data| && s.data[r.index] == s.added[r.num]
            && forall i :: 0 <= i < |s.delivered| ==> s.delivered[i].num != r.num
    ensures s.list.readers[k].num !in Served(s)
  {
    NumInRange(s, k);
    HeldByOne(s.list.readers, k);
    forall i | 0 <= i < |s.delivered|
      ensures s.delivered[i].num != s.list.readers[k].num
    {
      assert s.delivered[i].num in Served(s);
    }
  }

  lemma DeliveryKeepsAccounts<T, E>(s: State<T, E>, k: nat)
    requires Accounted(s) && Ordered(s.list.readers) && k < |s.list.readers| && !s.list.readers[k].done
    requires s.list.readers[k].index < |s.data|
    ensures var r := s.list.readers[k];
            Accounted(s.(list := s.list.(readers := s.list.readers[k := r.(done := true)]),
                         delivered := s.delivered + [Delivery(r.num, r.id, s.data[r.index])]))
  {
    var r := s.list.readers[k];
    var s' := s.(list := s.list.(readers := s.list.readers[k := r.(done := true)]),
                 delivered := s.delivered + [Delivery(r.num, r.id, s.data[r.index])]);
    HeldByOne(s.list.readers, k);
    assert s'.delivered[|s.delivered|] in s'.delivered;
    assert Served(s') == Served(s) + {r.num};
    assert NextNum(s'.list) == NextNum(s.list);
  }

  /** A finished reader at the back was served (or is parked where one was), so its entry is published. */
  lemma BackDoneIsServed<T, E>(s: State<T, E>)
    requires Inv(s) && s.list.readers != [] && s.list.readers[0].done
    ensures s.list.readNum in Served(s) && s.list.readNum < |s.added|
  {
    var readers := s.list.readers;
    NumInRange(s, |readers| - 1);
    forall r | r in readers && r.num == s.list.readNum
      ensures r.done
    {
      var i :| 0 <= i < |readers| && readers[i] == r;
      assert i > 0 ==> Precedes(readers[0], readers[i]);
    }
    assert s.list.readNum !in Held(readers);
  }

  /** Leaving the back never takes `readIndex` past the write index. */
  lemma SecondNotPastWriter<T, E>(s: State<T, E>)
    requires Inv(s) && |s.list.readers| >= 2 && s.list.readers[0].done
    ensures s.list.readers[1].num <= |s.added|
  {
    var readers, w := s.list.readers, |s.added|;
    BackDoneIsServed(s);
    forall r | r in readers
      ensures r.num == s.list.readNum || r.num >= readers[1].num
      ensures r.num < NextNum(s.list)
    {
      var i :| 0 <= i < |readers| && readers[i] == r;
      assert i > 1 ==> Precedes(readers[1], readers[i]);
    }
    assert readers[1] in readers;
    assert w in Served(s) || w in Held(readers) <==> 0 <= w < NextNum(s.list);
  }

  lemma HeldAfterAdvance<T>(readers: seq<Reader<T>>, k: nat, moved: Reader<T>)
    requires k < |readers| && readers[k].done && !moved.done
    ensures Held(Without(readers, k) + [moved]) == Held(readers) + {moved.num}
  {
    var r' := Without(readers, k) + [moved];
    forall n
      ensures n in Held(r') <==> n in Held(readers) || n == moved.num
    {
      if n in Held(readers) {
        var r :| r in readers && !r.done && r.num == n;
        assert readers == readers[..k] + [readers[k]] + readers[k + 1..];
        assert r in r';
      }
      if n == moved.num {
        assert r'[|r'| - 1] in r';
      }
    }
  }

  lemma HeldBehindFront<T>(readers: seq<Reader<T>>, r: Reader<T>)
    requires readers != [] && r.done
    ensures Held(BehindFront(readers, r)) == Held(readers)
  {
    var last := |readers| - 1;
    assert readers == readers[..last] + [readers[last]];
    var r' := BehindFront(readers, r);
    assert forall x :: x in r' <==> x in readers || x == r;
  }

  lemma HeldTail<T>(readers: seq<Reader<T>>)
    requires readers != [] && readers[0].done
    ensures Held(readers[1..]) == Held(readers)
  {
    assert readers == [readers[0]] + readers[1..];
  }

  lemma UncheckedKeepsShape<T>(l: ReaderList<T>, base: int, size: nat)
    requires WellFormed(l, base, size) && l.readers != []
    ensures WellFormed(Unchecked(l), base, size) && NextNum(Unchecked(l)) == NextNum(l)
  {
    var r' := Unchecked(l).readers;
    forall i, j | 0 <= i < j < |r'|
      ensures Precedes(r'[i], r'[j])
    {
      assert Precedes(l.readers[i], l.readers[j]);
    }
  }

  lemma MoveListFacts<T, E>(s: State<T, E>, k: nat)
    requires Inv(s) && Enabled(s, Move(k))
    ensures var l' := Apply(s, Move(k)).list;
            && WellFormed(l', s.base, s.size) && s.list.readNum <= l'.readNum <= |s.added|
            && NextNum(l') == NextNum(s.list) + (if Spans(s.list, s.size) then 0 else 1)
  {
    MoveKeepsShape(s.list, s.base, s.size, k);
    if k == 0 {
      BackDoneIsServed(s);
      if |s.list.readers| >= 2 {
        SecondNotPastWriter(s);
      }
    }
    var m := MoveToFront(s.list, s.size, k);
    if m.ok {
      UncheckedKeepsShape(m.list, s.base, s.size);
    }
  }

  lemma HeldAfterMove<T>(l: ReaderList<T>, size: nat, k: nat)
    requires k < |l.readers| && l.readers[k].done && size > 0
    ensures var m := MoveToFront(l, size, k);
            && m.list.readers != []
            && Held(if m.ok then Unchecked(m.list).readers else m.list.readers)
               == Held(l.readers) + if m.ok then {NextNum(l)} else {}
  {
    var m, last := MoveToFront(l, size, k), |l.readers| - 1;
    if m.ok {
      var moved := Front(m.list).(done := false);
      assert Unchecked(m.list).readers == Without(l.readers, k) + [moved];
      HeldAfterAdvance(l.readers, k, moved);
    } else if k == 0 && last >= 2 {
      HeldTail(l.readers);
      var second := l.readers[last - 1];
      HeldBehindFront(l.readers[1..], l.readers[0].(index := second.index, num := second.num));
    }
  }

  lemma MoveKeepsInv<T, E>(s: State<T, E>, k: nat)
    requires Inv(s) && Enabled(s, Move(k))
    ensures Inv(Apply(s, Move(k)))
  {
    MoveListFacts(s, k);
    HeldAfterMove(s.list, s.size, k);
    AccountingExtends(s, Apply(s, Move(k)));
  }

  /** Handing out the next number to a waiting reader keeps the books. */
  lemma AccountingExtends<T, E>(s: State<T, E>, s': State<T, E>)
    requires Accounted(s) && s'.delivered == s.delivered && NextNum(s.list) >= 0
    requires var next, next' := NextNum(s.list), NextNum(s'.list);
             || (next' == next && Held(s'.list.readers) == Held(s.list.readers))
             || (next' == next + 1 && Held(s'.list.readers) == Held(s.list.readers) + {next})
    ensures Accounted(s')
  {
    assert Served(s') == Served(s);
    assert NextNum(s.list) !in Served(s);
  }

  lemma HeldAfterAdd<T>(l: ReaderList<T>, size: nat, id: T)
    requires size > 0 && (l.readers != [] && Spans(l, size) ==> |l.readers| >= 2)
    ensures var spans := l.readers != [] && Spans(l, size);
            Held(Add(l, size, id).readers) == Held(l.readers) + if spans then {} else {NextNum(l)}
  {
    var l' := Add(l, size, id);
    if l.readers != [] && Spans(l, size) {
      var previous := l.readers[|l.readers| - 2];
      HeldBehindFront(l.readers, Reader(id, previous.index, true, previous.num));
    } else {
      var r := Front(l');
      assert l'.readers == l.readers + [r];
      assert forall x :: x in l'.readers <==> x in l.readers || x == r;
    }
  }

  lemma AddKeepsAccounts<T, E>(s: State<T, E>, id: T)
    requires Inv(s) && Enabled(s, Register(id))
    ensures Accounted(s.(list := Add(s.list, s.size, id)))
  {
    var l := s.list;
    if l.readers != [] {
      SpansExact(l, s.base, s.size);
    }
    HeldAfterAdd(l, s.size, id);
    AccountingExtends(s, s.(list := Add(l, s.size, id)));
  }

  lemma RegisterKeepsInv<T, E>(s: State<T, E>, id: T)
    requires Inv(s) && Enabled(s, Register(id))
    ensures Inv(Apply(s, Register(id)))
  {
    AddKeepsShape(s.list, s.base, s.size, id);
    AddKeepsAccounts(s, id);
    OtherListKeepsInv(s, Add(s.list, s.size, id));
  }

  // ----- Unregistering -----

  lemma HeldAfterFinishedLeaves<T>(readers: seq<Reader<T>>, k: nat)
    requires k < |readers| && readers[k].done
    ensures Held(Without(readers, k)) == Held(readers)
  {
    assert readers == readers[..k] + [readers[k]] + readers[k + 1..];
  }

  lemma HeldWithoutFront<T>(readers: seq<Reader<T>>)
    requires readers != [] && FrontLargest(readers)
    ensures Held(readers[..|readers| - 1]) == Held(readers) - {readers[|readers| - 1].num}
  {
    var last := |readers| - 1;
    assert readers == readers[..last] + [readers[last]];
    assert forall i :: 0 <= i < last ==> readers[..last][i].num < readers[last].num;
  }

  /** A waiting reader is replaced by another on its slot; if that one has finished, the number is no longer held. */
  lemma HeldReplaced<T>(readers: seq<Reader<T>>, k: nat, other: Reader<T>)
    requires Ordered(readers) && k < |readers| && !readers[k].done && other.num == readers[k].num
    ensures Held(readers[k := other]) == Held(readers) - (if other.done then {other.num} else {})
  {
    var r' := readers[k := other];
    forall n
      ensures n in Held(r') <==> n in Held(readers) && (n != other.num || !other.done)
    {
      if n in Held(r') {
        var i :| 0 <= i < |r'| && !r'[i].done && r'[i].num == n;
        assert readers[i] in readers;
        assert i < k ==> Precedes(readers[i], readers[k]);
        assert i > k ==> Precedes(readers[k], readers[i]);
      }
      if n in Held(readers) && (n != other.num || !other.done) {
        var i :| 0 <= i < |readers| && !readers[i].done && readers[i].num == n;
        assert r'[i] in r';
      }
    }
  }

  lemma HeldAfterHandOver<T>(readers: seq<Reader<T>>, k: nat)
    requires Ordered(readers) && FrontLargest(readers) && k < |readers| - 1 && !readers[k].done
    ensures var last := |readers| - 1;
            var moved := readers[last].(index := readers[k].index, num := readers[k].num);
            var r' := readers[..k] + [moved] + readers[k + 1..last];
            Held(r') == Held(readers) - {readers[last].num} - (if readers[last].done then {readers[k].num} else {})
  {
    var last := |readers| - 1;
    var moved := readers[last].(index := readers[k].index, num := readers[k].num);
    HeldWithoutFront(readers);
    HeldReplaced(readers[..last], k, moved);
    assert readers[..k] + [moved] + readers[k + 1..last] == readers[..last][k := moved];
  }

  lemma OnlyReaderLeaves<T, E>(s: State<T, E>)
    requires Inv(s) && |s.list.readers| == 1
    ensures Accounted(s.(list := Leave(s, 0)))
    ensures Leave(s, 0).readers == []
    ensures Leave(s, 0).readNum == s.list.readNum + (if s.list.readers[0].done then 1 else 0)
  {
    var r := s.list.readers[0];
    ReaderTestExact(s, 0);
    if r.done {
      BackDoneIsServed(s);
    }
    assert Held(s.list.readers) == if r.done then {} else {r.num};
    assert Served(s.(list := Leave(s, 0))) == Served(s);
  }

  /** Between its predecessor and the front reader, every number has been delivered. */
  lemma GapIsServed<T, E>(s: State<T, E>, n: int)
    requires Inv(s) && |s.list.readers| >= 2
    requires s.list.readers[|s.list.readers| - 2].num < n < Front(s.list).num
    ensures n in Served(s)
  {
    var readers, last := s.list.readers, |s.list.readers| - 1;
    NumInRange(s, last - 1);
    forall r | r in readers
      ensures r.num != n
    {
      var i :| 0 <= i < |readers| && readers[i] == r;
      assert i < last - 1 ==> Precedes(readers[i], readers[last - 1]);
    }
    assert n !in Held(readers);
  }

  /**
   In any reachable state and for any reader, unregistering keeps every number accounted for
   (nothing lost, nothing to be handed out twice) exactly when that reader is alone, or has finished and
   is not the front, or the front reader is still waiting directly after its predecessor.
   */
  lemma LeavingKeepsAccountsExactly<T, E>(s: State<T, E>, k: nat)
    requires Inv(s) && k < |s.list.readers|
    ensures var last := |s.list.readers| - 1;
            Accounted(s.(list := Leave(s, k)))
            <==>
            || last == 0
            || (k < last && s.list.readers[k].done)
            || (!s.list.readers[last].done && s.list.readers[last - 1].num + 1 == s.list.readers[last].num)
  {
    var l, last := s.list, |s.list.readers| - 1;
    var s' := s.(list := Leave(s, k));
    assert Served(s') == Served(s);
    if last == 0 {
      OnlyReaderLeaves(s);
    } else if k < last && l.readers[k].done {
      HeldAfterFinishedLeaves(l.readers, k);
      assert NextNum(s'.list) == NextNum(l);
    } else {
      FrontGoneAccounts(s, k);
    }
  }

  lemma FrontGoneAccounts<T, E>(s: State<T, E>, k: nat)
    requires Inv(s) && |s.list.readers| >= 2 && k < |s.list.readers|
    requires k == |s.list.readers| - 1 || !s.list.readers[k].done
    ensures var last := |s.list.readers| - 1;
            Accounted(s.(list := Leave(s, k)))
            <==> !s.list.readers[last].done && s.list.readers[last - 1].num + 1 == s.list.readers[last].num
  {
    var l, last := s.list, |s.list.readers| - 1;
    FrontGoneLoses(s, k);
    FrontHeld(s);
    FrontGoneNext(s, k);
    AccountedWithoutFront(s, Leave(s, k), k < last && Front(l).done, l.readers[k].num);
  }

  /** The front's number, and perhaps one more, are given up; between the front and its predecessor all are served. */
  ghost predicate LosesFront<T, E>(s: State<T, E>, l': ReaderList<T>, loses: bool, lost: int) {
    && 0 < NextNum(l') < NextNum(s.list)
    && (loses ==> lost in Held(s.list.readers) && lost < NextNum(l'))
    && (forall n :: NextNum(l') <= n < NextNum(s.list) - 1 ==> n in Served(s))
    && Held(l'.readers) == Held(s.list.readers) - {NextNum(s.list) - 1} - (if loses then {lost} else {})
  }

  lemma FrontGoneLoses<T, E>(s: State<T, E>, k: nat)
    requires Inv(s) && |s.list.readers| >= 2 && k < |s.list.readers|
    requires k == |s.list.readers| - 1 || !s.list.readers[k].done
    ensures LosesFront(s, Leave(s, k), k < |s.list.readers| - 1 && Front(s.list).done, s.list.readers[k].num)
  {
    FrontGoneNext(s, k);
    FrontGoneHeld(s, k);
    GapsAreServed(s);
    if k < |s.list.readers| - 1 {
      WaitingIsHeld(s.list.readers, k);
    }
  }

  /** The accounts of a list that has given up the front's number, and perhaps another one. */
  lemma AccountedWithoutFront<T, E>(s: State<T, E>, l': ReaderList<T>, loses: bool, lost: int)
    requires Accounted(s) && LosesFront(s, l', loses, lost)
    ensures Accounted(s.(list := l'))
            <==> NextNum(s.list) - 1 in Held(s.list.readers) && NextNum(l') == NextNum(s.list) - 1 && !loses
  {
    assert Served(s.(list := l')) == Served(s);
    AccountsWithoutFront(Served(s), Held(s.list.readers), NextNum(s.list), loses, lost, NextNum(l'));
  }

  /**
   Two entries, both handed out; the front reader has finished and unregisters.  Its number is then assigned
   to the next reader that asks, although its entry was delivered.
   */
  lemma LeavingCanRepeat()
    ensures var l := ReaderList([Reader(0, 0, true, 0), Reader(1, 1, true, 1)], 0, 0);
            var delivered := [Delivery(0, 0, 10), Delivery(1, 1, 11)];
            var s := State<int, int>.State(4, 0, [10, 11, 0, 0], 2, l, NoWriter, [10, 11], delivered);
            Inv(s) && NextNum(Leave(s, 1)) == 1 && 1 in Served(s) && !Accounted(s.(list := Leave(s, 1)))
  {
    var back, front := Reader(0, 0, true, 0), Reader(1, 1, true, 1);
    var l := ReaderList([back, front], 0, 0);
    var delivered := [Delivery(0, 0, 10), Delivery(1, 1, 11)];
    var s := State<int, int>.State(4, 0, [10, 11, 0, 0], 2, l, NoWriter, [10, 11], delivered);
    DivModUnique(0, 0, 0, 4);
    DivModUnique(1, 0, 1, 4);
    DivModUnique(2, 0, 2, 4);
    assert Precedes(back, front);
    assert Ordered(l.readers) && WellFormed(l, 0, 4);
    assert Held(l.readers) == {};
    assert s.delivered[0] in s.delivered && s.delivered[1] in s.delivered;
    assert Served(s) == {0, 1};
    assert Accounted(s) && Stored(s) && Delivered(s);
    var s' := s.(list := Leave(s, 1));
    assert NextNum(s'.list) == 1 && 1 in Served(s');
  }

  lemma FrontGoneNext<T, E>(s: State<T, E>, k: nat)
    requires Inv(s) && |s.list.readers| >= 2 && k < |s.list.readers|
    requires k == |s.list.readers| - 1 || !s.list.readers[k].done
    ensures var l, last := s.list, |s.list.readers| - 1;
            var l' := Leave(s, k);
            && NextNum(l') == l.readers[last - 1].num + 1 && 0 < NextNum(l') < NextNum(l)
            && (k < last ==> l.readers[k].num < NextNum(l'))
  {
    var readers, last := s.list.readers, |s.list.readers| - 1;
    NumInRange(s, last - 1);
    if k < last {
      assert k < last - 1 ==> Precedes(readers[k], readers[last - 1]);
      assert Leave(s, k).readers[last - 1].num == readers[last - 1].num;
    }
  }

  lemma WaitingIsHeld<T>(readers: seq<Reader<T>>, k: nat)
    requires k < |readers| && !readers[k].done
    ensures readers[k].num in Held(readers)
  {
    assert readers[k] in readers;
  }

  lemma FrontGoneHeld<T, E>(s: State<T, E>, k: nat)
    requires Inv(s) && |s.list.readers| >= 2 && k < |s.list.readers|
    requires k == |s.list.readers| - 1 || !s.list.readers[k].done
    ensures var l := s.list;
            var lost := if k < |l.readers| - 1 && Front(l).done then {l.readers[k].num} else {};
            Held(Leave(s, k).readers) == Held(l.readers) - {NextNum(l) - 1} - lost
  {
    var empty := EmptyTest(s.writeIndex, s.list.readIndex, s.list.readers[k].index, s.list.readIndex, s.size);
    RemoveReleases(s.list, s.size, k, !empty);
  }

  lemma RemoveReleases<T>(l: ReaderList<T>, size: nat, k: nat, populated: bool)
    requires Ordered(l.readers) && FrontLargest(l.readers) && |l.readers| >= 2 && k < |l.readers| && size > 0
    requires k == |l.readers| - 1 || !l.readers[k].done
    ensures var lost := if k < |l.readers| - 1 && Front(l).done then {l.readers[k].num} else {};
            Held(Remove(l, size, k, populated).readers) == Held(l.readers) - {NextNum(l) - 1} - lost
  {
    if k == |l.readers| - 1 {
      HeldWithoutFront(l.readers);
    } else {
      HeldAfterHandOver(l.readers, k);
    }
  }

  /** Between the last two readers lie only numbers already served. */
  lemma GapsAreServed<T, E>(s: State<T, E>)
    requires Inv(s) && |s.list.readers| >= 2
    ensures forall n :: s.list.readers[|s.list.readers| - 2].num < n < Front(s.list).num ==> n in Served(s)
  {
    forall n | s.list.readers[|s.list.readers| - 2].num < n < Front(s.list).num
      ensures n in Served(s)
    {
      GapIsServed(s, n);
    }
  }

  /** Dropping the front number `top - 1`, and perhaps losing another, against the accounts of the rest. */
  lemma AccountsWithoutFront(served: set<int>, held: set<int>, top: int, loses: bool, lost: int, top': int)
    requires served !! held && forall n :: n in served || n in held <==> 0 <= n < top
    requires 0 < top' < top && (loses ==> lost in held && lost < top')
    requires forall n :: top' <= n < top - 1 ==> n in served
    ensures var held' := held - {top - 1} - (if loses then {lost} else {});
            (served !! held' && forall n :: n in served || n in held' <==> 0 <= n < top')
            <==> top - 1 in held && top' == top - 1 && !loses
  {
    var held' := held - {top - 1} - (if loses then {lost} else {});
    assert loses ==> lost !in served && lost !in held';
    assert top - 1 in served <==> top - 1 !in held;
    assert top' < top - 1 ==> top' in served;
  }

  lemma FrontHeld<T, E>(s: State<T, E>)
    requires Inv(s) && s.list.readers != []
    ensures Front(s.list).num in Held(s.list.readers) <==> !Front(s.list).done
  {
    var readers, last := s.list.readers, |s.list.readers| - 1;
    assert readers[last] in readers;
    assert forall i :: 0 <= i < last ==> readers[i].num < readers[last].num;
  }

  lemma UnregisterKeepsInv<T, E>(s: State<T, E>, k: nat)
    requires Inv(s) && Enabled(s, Unregister(k))
    ensures Inv(Apply(s, Unregister(k)))
  {
    SafeLeavingKeepsList(s, k);
    OtherListKeepsInv(s, Leave(s, k));
  }

  /** The part of the invariant that speaks of the list. */
  ghost predicate ListInv<T, E>(s: State<T, E>, l: ReaderList<T>) {
    WellFormed(l, s.base, s.size) && Accounted(s.(list := l)) && s.list.readNum <= l.readNum <= |s.added|
  }

  lemma SafeLeavingKeepsList<T, E>(s: State<T, E>, k: nat)
    requires Inv(s) && Enabled(s, Unregister(k))
    ensures ListInv(s, Leave(s, k))
  {
    LeavingKeepsIndices(s, k);
    SafeLeavingKeepsAccounts(s, k);
  }

  lemma SafeLeavingKeepsAccounts<T, E>(s: State<T, E>, k: nat)
    requires Inv(s) && k < |s.list.readers| && SafeToLeave(s.list, k)
    ensures Accounted(s.(list := Leave(s, k)))
  {
    LeavingKeepsAccountsExactly(s, k);
  }

  lemma OtherListKeepsInv<T, E>(s: State<T, E>, l: ReaderList<T>)
    requires Inv(s) && ListInv(s, l)
    ensures Inv(s.(list := l))
  {
  }

  /**
   Unregistering keeps the whole invariant exactly when `SafeToLeave` says so.  Where it does not, entries are lost or
   repeated, `readIndex` stays behind, or the front is left on its predecessor's slot (`LeavingCanLevelFront`).
   */
  lemma LeavingKeepsInvExactly<T, E>(s: State<T, E>, k: nat)
    requires Inv(s) && k < |s.list.readers|
    ensures Inv(s.(list := Leave(s, k))) <==> SafeToLeave(s.list, k)
  {
    InvInBounds(s);
    if SafeToLeave(s.list, k) {
      UnregisterKeepsInv(s, k);
    } else {
      UnsafeLeavingSpoils(s, k);
    }
  }

  lemma UnsafeLeavingSpoils<T, E>(s: State<T, E>, k: nat)
    requires Inv(s) && k < |s.list.readers| && !SafeToLeave(s.list, k)
    ensures !WellFormed(Leave(s, k), s.base, s.size) || !Accounted(s.(list := Leave(s, k)))
  {
    ReaderTestExact(s, k);
    RemoveKeepsShapeExactly(s.list, s.base, s.size, k, |s.added| > s.list.readers[k].num);
    LeavingKeepsAccountsExactly(s, k);
  }

  /**
   Three readers in a ring of three: one waits for entry 1, one is parked on its slot, the front waits for entry 2 and
   leaves.  Accounts and `readIndex` stay right, but the parked reader is now the front and no longer the largest.
   */
  lemma LeavingCanLevelFront()
    ensures var l := ReaderList([Reader(0, 1, false, 1), Reader(1, 1, true, 1), Reader(2, 2, false, 2)], 1, 1);
            var s := State<int, int>.State(3, 0, [10, 0, 0], 1, l, NoWriter, [10], [Delivery(0, 0, 10)]);
            && Inv(s) && Accounted(s.(list := Leave(s, 2))) && Leave(s, 2).readIndex == Leave(s, 2).readers[0].index
            && !SafeToLeave(l, 2)
  {
    var a, b, c := Reader(0, 1, false, 1), Reader(1, 1, true, 1), Reader(2, 2, false, 2);
    var l := ReaderList([a, b, c], 1, 1);
    var s := State<int, int>.State(3, 0, [10, 0, 0], 1, l, NoWriter, [10], [Delivery(0, 0, 10)]);
    DivModUnique(0, 0, 0, 3);
    DivModUnique(1, 0, 1, 3);
    DivModUnique(2, 0, 2, 3);
    assert Precedes(a, b) && Precedes(a, c) && Precedes(b, c);
    assert WellFormed(l, 0, 3);
    assert l.readers[0] in l.readers && l.readers[2] in l.readers;
    assert Held(l.readers) == {1, 2};
    assert s.delivered[0] in s.delivered;
    assert Served(s) == {0};
    assert Accounted(s) && Stored(s) && Delivered(s);
    LeavingKeepsAccountsExactly(s, 2);
  }

  lemma LeavingKeepsIndices<T, E>(s: State<T, E>, k: nat)
    requires Inv(s) && Enabled(s, Unregister(k))
    ensures var l' := Leave(s, k);
            && WellFormed(l', s.base, s.size) && s.list.readNum <= l'.readNum <= |s.added|
  {
    ReaderTestExact(s, k);
    RemoveKeepsShape(s.list, s.base, s.size, k, |s.added| > s.list.readers[k].num);
    if |s.list.readers| == 1 {
      OnlyReaderLeaves(s);
      if s.list.readers[0].done {
        BackDoneIsServed(s);
      }
    }
  }

  // ----- Drained shutdown and restart -----

  /** Every reader waits for an entry not yet published. */
  ghost predicate AllWaiting<T, E>(s: State<T, E>) {
    forall i :: 0 <= i < |s.list.readers| ==> !s.list.readers[i].done && |s.added| <= s.list.readers[i].num
  }

  /** The readers wait on consecutive slots from the write index on; with none left, both indices agree. */
  ghost predicate Drained<T, E>(s: State<T, E>) {
    && s.list.readNum == |s.added| && s.list.readIndex == s.writeIndex
    && forall i :: 0 <= i < |s.list.readers| ==> !s.list.readers[i].done && s.list.readers[i].num == |s.added| + i
  }

  lemma {:induction false} ConsecutiveWaiting<T, E>(s: State<T, E>, i: nat)
    requires Inv(s) && AllWaiting(s) && i < |s.list.readers|
    ensures s.list.readers[i].num == |s.added| + i
  {
    var readers := s.list.readers;
    if i > 0 {
      ConsecutiveWaiting(s, i - 1);
      var n := |s.added| + i;
      assert Precedes(readers[i - 1], readers[i]);
      NumInRange(s, i);
      assert i < |readers| - 1 ==> Precedes(readers[i], readers[|readers| - 1]);
      assert n in Held(readers);
      var j :| 0 <= j < |readers| && !readers[j].done && readers[j].num == n;
      assert forall m :: 0 <= m < i - 1 ==> Precedes(readers[m], readers[i - 1]);
      assert forall m :: i < m < |readers| ==> Precedes(readers[i], readers[m]);
    }
  }

  lemma AllWaitingIsDrained<T, E>(s: State<T, E>)
    requires Inv(s) && AllWaiting(s) && s.list.readers != []
    ensures Drained(s)
  {
    forall i | 0 <= i < |s.list.readers| {
      ConsecutiveWaiting(s, i);
    }
  }

  /**
   From a drained state readers can unregister in any order, through every branch of `remove`: each
   removal is safe and leaves a drained state with one reader fewer.  The last one leaves
   `readIndex == writeIndex`.
   */
  lemma WaitingReadersLeave<T, E>(s: State<T, E>, k: nat)
    requires Inv(s) && Drained(s) && k < |s.list.readers|
    ensures Enabled(s, Unregister(k))
    ensures var s' := Apply(s, Unregister(k));
            Inv(s') && Drained(s') && |s'.list.readers| == |s.list.readers| - 1
            && s' == s.(list := s'.list)
  {
    InvInBounds(s);
    UnregisterKeepsInv(s, k);
    var empty := EmptyTest(s.writeIndex, s.list.readIndex, s.list.readers[k].index, s.list.readIndex, s.size);
    RemoveFromWaiting(s.list, s.size, k, !empty);
  }

  lemma RemoveFromWaiting<T>(l: ReaderList<T>, size: nat, k: nat, populated: bool)
    requires k < |l.readers| && size > 0 && forall i :: 0 <= i < |l.readers| ==> !l.readers[i].done
    ensures var l' := Remove(l, size, k, populated);
            l'.readIndex == l.readIndex && l'.readNum == l.readNum && |l'.readers| == |l.readers| - 1
            && forall i :: 0 <= i < |l'.readers| ==> l'.readers[i].num == l.readers[i].num && !l'.readers[i].done
  {
  }

  /**
   Reader `i` of `n` after a restart at number `w`: the first readers wait for consecutive entries, the front for the
   last slot of the ring, and any beyond the number of slots are parked behind the front.
   */
  ghost predicate RestartedAt<T>(r: Reader<T>, i: nat, n: nat, w: int, size: nat) {
    if i < size - 1 then !r.done && r.num == w + i
    else if i == n - 1 then !r.done && r.num == w + size - 1
    else r.done && r.num == w + size - 2
  }

  ghost predicate Restarted<T, E>(s: State<T, E>) {
    && s.list.readNum == |s.added| && s.list.readIndex == s.writeIndex
    && forall i :: 0 <= i < |s.list.readers| ==>
                     RestartedAt(s.list.readers[i], i, |s.list.readers|, |s.added|, s.size)
  }

  lemma DrainedIsRestarted<T, E>(s: State<T, E>)
    requires Inv(s) && Drained(s)
    ensures Restarted(s) && |s.list.readers| <= s.size
  {
    if s.list.readers != [] {
      NumInRange(s, |s.list.readers| - 1);
    }
  }

  /**
   Readers registered after a drained shutdown continue at the write index, however many there are: the next one gets
   the next number, until the ring is spanned, and parks behind the front from then on.
   */
  lemma DrainedRestart<T, E>(s: State<T, E>, id: T)
    requires Inv(s) && Restarted(s) && Enabled(s, Register(id))
    ensures var s', n := Apply(s, Register(id)), |s.list.readers|;
            && Inv(s') && Restarted(s') && |s'.list.readers| == n + 1
            && s'.list.readers[if n < s.size then n else n - 1].id == id
  {
    var s', n := Apply(s, Register(id)), |s.list.readers|;
    RegisterKeepsInv(s, id);
    if n > 0 {
      assert RestartedAt(s.list.readers[n - 1], n - 1, n, |s.added|, s.size);
      SpansExact(s.list, s.base, s.size);
    }
    forall i | 0 <= i < n + 1
      ensures |s'.list.readers| == n + 1 && RestartedAt(s'.list.readers[i], i, n + 1, |s.added|, s.size)
    {
      assert i < n ==> RestartedAt(s.list.readers[i], i, n, |s.added|, s.size);
      assert n >= 2 ==> RestartedAt(s.list.readers[n - 2], n - 2, n, |s.added|, s.size);
    }
  }

  // ----- Writers -----

  lemma FullTestExact<T, E>(s: State<T, E>)
    requires Inv(s)
    ensures NextIndex(s.writeIndex, s.size) == Slot(|s.added| + 1, s.base, s.size)
    ensures NextIndex(s.writeIndex, s.size) == s.list.readIndex <==> |s.added| == s.list.readNum + s.size - 1
  {
    var r, w := s.list.readNum, |s.added|;
    SlotNext(w, s.base, s.size);
    if w == r + s.size - 1 {
      SlotPeriod(r, s.base, s.size);
    } else {
      SlotInjective(r, w + 1, s.base, s.size);
    }
  }

  lemma WriterStepKeepsInv<T, E>(s: State<T, E>, a: Action<T, E>)
    requires Inv(s) && Enabled(s, a)
    requires a.EnterAdd? || a.CheckFull? || a.Refuse? || a.WriteSlot? || a.Publish?
    ensures Inv(Apply(s, a))
  {
    FullTestExact(s);
    var s' := Apply(s, a);
    assert Accounted(s') && WellFormed(s'.list, s'.base, s'.size);
    if a.WriteSlot? {
      forall n | s.list.readNum <= n < |s.added|
        ensures Slot(n, s.base, s.size) != s.writeIndex
      {
        SlotInjective(n, |s.added|, s.base, s.size);
      }
    }
  }

  // ----- Resize -----

  /** Enlarging moves the populated slots exactly to where the same numbers belong in the new ring. */
  lemma RelocatedSlot(n: int, r: int, w: int, base: int, size: nat, newSize: nat)
    requires r <= n <= w < r + size && 2 <= size < newSize
    ensures var writeIndex := Slot(w, base, size);
            Slot(n, w - writeIndex, newSize) == Relocated(Slot(n, base, size), writeIndex, newSize - size)
  {
    var writeIndex := Slot(w, base, size);
    SlotAhead(n, w, base, size);
    var i := Slot(n, base, size);
    if i <= writeIndex {
      DivModUnique(n - (w - writeIndex), 0, i, newSize);
    } else {
      DivModUnique(n - (w - writeIndex), -1, i + newSize - size, newSize);
    }
  }

  /**
   What `adjust` does to a reader on entry `p`: its new slot is the slot of `p` in the new ring
   exactly when the size doubles, or the slot is populated, or it has not wrapped below `writeIndex`.
   */
  lemma AdjustKeepsNumberExactly(p: int, r: int, w: int, base: int, size: nat, newSize: nat)
    requires r <= p < r + size && r <= w < r + size && 2 <= size < newSize
    ensures var readIndex, writeIndex := Slot(r, base, size), Slot(w, base, size);
            AdjustedIndex(Slot(p, base, size), newSize - size, readIndex, writeIndex, newSize)
            == Slot(p, w - writeIndex, newSize)
            <==>
            newSize == 2 * size || p < w || Slot(p, base, size) >= writeIndex
  {
    var readIndex, writeIndex := Slot(r, base, size), Slot(w, base, size);
    AdjustedSlot(r, p, base, size);
    AdjustedSlot(r, w, base, size);
    var i := Slot(p, base, size);
    if p < w {
      RelocatedSlot(p, r, w, base, size, newSize);
    } else {
      SlotAhead(w, p, base, size);
      if i >= writeIndex {
        DivModUnique(p - (w - writeIndex), 0, i, newSize);
      } else if i + size < newSize {
        DivModUnique(p - (w - writeIndex), 0, i + size, newSize);
      } else {
        DivModUnique(p - (w - writeIndex), 1, i + size - newSize, newSize);
      }
    }
  }

  /** Growing a ring of 4 to 6 moves a wrapped waiting reader to another reader's entry. */
  lemma AdjustCanChangeNumber()
    ensures AdjustedIndex(Slot(5, 0, 4), 2, Slot(2, 0, 4), Slot(2, 0, 4), 6) != Slot(5, 0, 6)
    ensures AdjustedIndex(Slot(5, 0, 4), 2, Slot(2, 0, 4), Slot(2, 0, 4), 6) == Slot(3, 0, 6)
  {
  }

  lemma AdjustPlacesReader<T, E>(s: State<T, E>, newSize: nat, k: nat)
    requires Inv(s) && s.size < newSize && NumberPreserving(s, newSize) && k < |s.list.readers|
    ensures AdjustedIndex(s.list.readers[k].index, newSize - s.size, s.list.readIndex, s.writeIndex, newSize)
            == Slot(s.list.readers[k].num, |s.added| - s.writeIndex, newSize)
  {
    NumInRange(s, k);
    AdjustKeepsNumberExactly(s.list.readers[k].num, s.list.readNum, |s.added|, s.base, s.size, newSize);
  }

  lemma SameNumbers<T>(readers: seq<Reader<T>>, readers': seq<Reader<T>>)
    requires |readers| == |readers'| && Ordered(readers) && FrontLargest(readers)
    requires forall i :: 0 <= i < |readers| ==> readers'[i] == readers[i].(index := readers'[i].index)
    ensures Ordered(readers') && FrontLargest(readers') && Held(readers') == Held(readers)
  {
    forall i, j | 0 <= i < j < |readers|
      ensures Precedes(readers'[i], readers'[j])
    {
      assert Precedes(readers[i], readers[j]);
    }
    forall n
      ensures n in Held(readers) <==> n in Held(readers')
    {
      if n in Held(readers) {
        var i :| 0 <= i < |readers| && !readers[i].done && readers[i].num == n;
        assert readers'[i] in readers';
      }
      if n in Held(readers') {
        var i :| 0 <= i < |readers'| && !readers'[i].done && readers'[i].num == n;
        assert readers[i] in readers;
      }
    }
  }

  lemma ResizeKeepsIndices<T, E>(s: State<T, E>, newData: seq<E>)
    requires Inv(s) && Enabled(s, Resize(newData))
    ensures var s' := Apply(s, Resize(newData));
            && s'.list.readIndex == Slot(s.list.readNum, s'.base, s'.size)
            && s'.writeIndex == Slot(|s.added|, s'.base, s'.size)
  {
    RelocatedSlot(s.list.readNum, s.list.readNum, |s.added|, s.base, s.size, |newData|);
    RelocatedSlot(|s.added|, s.list.readNum, |s.added|, s.base, s.size, |newData|);
  }

  lemma ResizePlacesReaders<T, E>(s: State<T, E>, newData: seq<E>)
    requires Inv(s) && Enabled(s, Resize(newData))
    ensures var s' := Apply(s, Resize(newData)); Placed(s'.list.readers, s'.base, s'.size)
  {
    var s' := Apply(s, Resize(newData));
    forall k | 0 <= k < |s.list.readers|
      ensures s'.list.readers[k].index == Slot(s'.list.readers[k].num, s'.base, s'.size)
    {
      AdjustPlacesReader(s, |newData|, k);
    }
  }

  /** A number-preserving enlargement puts every reader, and `readIndex`, on the slot of the same entry. */
  lemma ResizeKeepsNumbers<T, E>(s: State<T, E>, newData: seq<E>)
    requires Inv(s) && Enabled(s, Resize(newData))
    ensures var s' := Apply(s, Resize(newData));
            && s'.list.readNum == s.list.readNum && s'.list.readIndex == Slot(s.list.readNum, s'.base, s'.size)
            && s'.writeIndex == s.writeIndex == Slot(|s.added|, s'.base, s'.size)
            && |s'.list.readers| == |s.list.readers| && Placed(s'.list.readers, s'.base, s'.size)
            && (forall i :: 0 <= i < |s.list.readers| ==>
                  s'.list.readers[i] == s.list.readers[i].(index := s'.list.readers[i].index))
            && (s.list.readers != [] ==> s'.list.readIndex == s'.list.readers[0].index)
  {
    ResizeKeepsIndices(s, newData);
    ResizePlacesReaders(s, newData);
  }

  lemma ResizeKeepsList<T, E>(s: State<T, E>, newData: seq<E>)
    requires Inv(s) && Enabled(s, Resize(newData))
    ensures var s' := Apply(s, Resize(newData));
            WellFormed(s'.list, s'.base, s'.size) && s'.writeIndex == Slot(|s.added|, s'.base, s'.size)
            && Held(s'.list.readers) == Held(s.list.readers) && NextNum(s'.list) == NextNum(s.list)
  {
    var s' := Apply(s, Resize(newData));
    ResizeKeepsNumbers(s, newData);
    SameNumbers(s.list.readers, s'.list.readers);
  }

  lemma RelocatedEntry<T, E>(s: State<T, E>, newData: seq<E>, n: nat)
    requires Inv(s) && Enabled(s, Resize(newData)) && s.list.readNum <= n < |s.added|
    ensures newData[Slot(n, |s.added| - s.writeIndex, |newData|)] == s.added[n]
  {
    RelocatedSlot(n, s.list.readNum, |s.added|, s.base, s.size, |newData|);
    AdjustedSlot(s.list.readNum, n, s.base, s.size);
    AdjustedSlot(s.list.readNum, |s.added|, s.base, s.size);
    assert Populated(Slot(n, s.base, s.size), s.list.readIndex, s.writeIndex);
  }

  lemma ResizeKeepsStored<T, E>(s: State<T, E>, newData: seq<E>)
    requires Inv(s) && Enabled(s, Resize(newData))
    ensures Stored(Apply(s, Resize(newData)))
  {
    var s' := Apply(s, Resize(newData));
    forall n | s.list.readNum <= n < |s.added| && 0 <= n
      ensures newData[Slot(n, s'.base, s'.size)] == s.added[n]
    {
      RelocatedEntry(s, newData, n);
    }
  }

  lemma ResizeKeepsInv<T, E>(s: State<T, E>, newData: seq<E>)
    requires Inv(s) && Enabled(s, Resize(newData))
    ensures Inv(Apply(s, Resize(newData)))
  {
    ResizeKeepsList(s, newData);
    ResizeKeepsStored(s, newData);
  }

  // ----- The ring's contents -----

  /** The slot met after `k` steps from the read index is that of the `k`-th number from there. */
  lemma SlotAtIsSlot(r: int, k: nat, base: int, size: nat)
    requires k < size
    ensures SlotAt(k, Slot(r, base, size), size) == Slot(r + k, base, size)
  {
    SlotAhead(r, r + k, base, size);
  }

  lemma ContentsEntry<T, E>(s: State<T, E>, k: nat)
    requires Inv(s) && InBounds(s) && k < |Contents(s.data, s.list.readIndex, s.writeIndex)|
    requires |Contents(s.data, s.list.readIndex, s.writeIndex)| == |s.added| - s.list.readNum
    ensures Contents(s.data, s.list.readIndex, s.writeIndex)[k] == s.added[s.list.readNum + k]
  {
    ContentsAt(s.data, s.list.readIndex, s.writeIndex, k);
    SlotAtIsSlot(s.list.readNum, k, s.base, s.size);
  }

  /** What lies between the indices are the entries from the back reader's on. */
  lemma RingHoldsAdded<T, E>(s: State<T, E>)
    requires Inv(s)
    ensures InBounds(s) && Contents(s.data, s.list.readIndex, s.writeIndex) == s.added[s.list.readNum..]
  {
    InvInBounds(s);
    AdjustedSlot(s.list.readNum, |s.added|, s.base, s.size);
    var contents := Contents(s.data, s.list.readIndex, s.writeIndex);
    forall k | 0 <= k < |contents|
      ensures contents[k] == s.added[s.list.readNum + k]
    {
      ContentsEntry(s, k);
    }
  }

  // ----- Whole runs -----

  lemma StepKeepsInv<T, E>(s: State<T, E>, a: Action<T, E>)
    requires Inv(s) && Enabled(s, a)
    ensures Inv(Apply(s, a))
  {
    match a
    case Register(id) => RegisterKeepsInv(s, id);
    case Check(k) => CheckKeepsInv(s, k);
    case Move(k) => MoveKeepsInv(s, k);
    case Unregister(k) => UnregisterKeepsInv(s, k);
    case Resize(newData) => ResizeKeepsInv(s, newData);
    case _ => WriterStepKeepsInv(s, a);
  }

  lemma {:induction false} RunKeepsInv<T, E>(states: seq<State<T, E>>, actions: seq<Action<T, E>>, i: nat)
    requires Run(states, actions) && i < |states|
    ensures Inv(states[i])
  {
    if i == 0 {
      InitEstablishesInv(states[0]);
    } else {
      RunKeepsInv(states, actions, i - 1);
      StepKeepsInv(states[i - 1], actions[i - 1]);
    }
  }
}
