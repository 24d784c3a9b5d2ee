/**
 The single-reader ring under fine-grained interleaving (`ReaderWriterQueue::add`, `remove`).

 Writers exclude each other with `addMutex`, so one writer program counter stands for whichever
 writer holds it.  A step reads or writes one shared location: reading the other side's index,
 writing or reading the slot, publishing one's own index.
 */
module SingleReaderProtocol {
  import opened RingIndex

  datatype Writer<E> = WriterIdle | Checked(entry: E, next: nat) | Written(entry: E, next: nat)
  datatype Reader<E> = ReaderIdle | Found | Took(entry: E)

  /** `added` and `removed` record the entries published and returned so far. */
  datatype State<E> = State(
    size: nat, data: seq<E>, readIndex: nat, writeIndex: nat,
    writer: Writer<E>, reader: Reader<E>, added: seq<E>, removed: seq<E>)

  datatype Action<E> = CheckFull(entry: E) | WriteSlot | PublishWrite | CheckEmpty | ReadSlot | PublishRead

  /** What a caller learns from a step. */
  datatype Event<E> = Silent | AddedOne(entry: E) | ReportedFull | RemovedOne(entry: E) | ReportedEmpty

  ghost predicate Init<E>(s: State<E>) {
    && s.size >= 2 && |s.data| == s.size && s.readIndex == s.writeIndex == 0
    && s.writer == WriterIdle && s.reader == ReaderIdle && s.added == [] && s.removed == []
  }

  predicate Enabled<E>(s: State<E>, a: Action<E>) {
    match a
    case CheckFull(_) => s.writer.WriterIdle? && s.size > 0
    case WriteSlot => s.writer.Checked? && s.writeIndex < |s.data|
    case PublishWrite => s.writer.Written?
    case CheckEmpty => s.reader.ReaderIdle?
    case ReadSlot => s.reader.Found? && s.readIndex < |s.data|
    case PublishRead => s.reader.Took? && s.size > 0
  }

  function Apply<E>(s: State<E>, a: Action<E>): State<E>
    requires Enabled(s, a)
  {
    match a
    case CheckFull(entry) =>
      var next := NextIndex(s.writeIndex, s.size);
      if next == s.readIndex then s else s.(writer := Checked(entry, next))
    case WriteSlot =>
      s.(data := s.data[s.writeIndex := s.writer.entry], writer := Written(s.writer.entry, s.writer.next))
    case PublishWrite =>
      s.(writeIndex := s.writer.next, added := s.added + [s.writer.entry], writer := WriterIdle)
    case CheckEmpty =>
      if s.readIndex == s.writeIndex then s else s.(reader := Found)
    case ReadSlot =>
      s.(reader := Took(s.data[s.readIndex]))
    case PublishRead =>
      s.(readIndex := NextIndex(s.readIndex, s.size), removed := s.removed + [s.reader.entry], reader := ReaderIdle)
  }

  function Observe<E>(s: State<E>, a: Action<E>): Event<E>
    requires Enabled(s, a)
  {
    match a
    case CheckFull(_) => if NextIndex(s.writeIndex, s.size) == s.readIndex then ReportedFull else Silent
    case WriteSlot => Silent
    case PublishWrite => AddedOne(s.writer.entry)
    case CheckEmpty => if s.readIndex == s.writeIndex then ReportedEmpty else Silent
    case ReadSlot => Silent
    case PublishRead => RemovedOne(s.reader.entry)
  }

  /** A run: any interleaving of enabled steps from an initial state. */
  ghost predicate Run<E>(states: seq<State<E>>, actions: seq<Action<E>>) {
    && |states| == |actions| + 1 && Init(states[0])
    && forall i {:trigger actions[i]} :: 0 <= i < |actions| ==>
                     Enabled(states[i], actions[i]) && states[i + 1] == Apply(states[i], actions[i])
  }

  // ----- Specification: an unbounded queue that may refuse only when it holds `capacity` entries -----

  function Queue<E>(s: State<E>): seq<E>
    requires |s.removed| <= |s.added|
  {
    s.added[|s.removed|..]
  }

  ghost predicate FifoStep<E>(capacity: nat, q: seq<E>, e: Event<E>, q': seq<E>) {
    match e
    case Silent => q' == q
    case AddedOne(entry) => q' == q + [entry] && |q'| <= capacity
    case ReportedFull => q' == q && |q| == capacity
    case RemovedOne(entry) => q == [entry] + q'
    case ReportedEmpty => q' == q && q == []
  }

  // ----- Proof -----

  ghost predicate Inv<E>(s: State<E>) {
    var r, w := |s.removed|, |s.added|;
    && s.size >= 2 && |s.data| == s.size
    && s.removed <= s.added && w <= r + s.size - 1
    && s.readIndex == Slot(r, 0, s.size) && s.writeIndex == Slot(w, 0, s.size)
       // every entry not yet returned, and the last one returned, is intact in its slot
    && (forall n :: r - 1 <= n < w && 0 <= n ==> s.data[Slot(n, 0, s.size)] == s.added[n])
    && (s.writer.WriterIdle? || (s.writer.next == NextIndex(s.writeIndex, s.size) && w <= r + s.size - 2))
    && (s.writer.Written? ==> s.data[s.writeIndex] == s.writer.entry)
    && (s.reader.ReaderIdle? || r < w)
    && (s.reader.Took? ==> s.reader.entry == s.added[r])
  }

  lemma SlotsDiffer(w: int, n: int, size: nat)
    requires n < w < n + size
    ensures Slot(n, 0, size) != Slot(w, 0, size)
  {
    SlotInjective(n, w, 0, size);
  }

  lemma SlotsCoincide(r: int, w: int, size: nat)
    requires size >= 2 && r <= w <= r + size - 1
    ensures Slot(r, 0, size) == Slot(w, 0, size) <==> r == w
    ensures NextIndex(Slot(w, 0, size), size) == Slot(r, 0, size) <==> w == r + size - 1
    ensures NextIndex(Slot(w, 0, size), size) == Slot(w + 1, 0, size)
  {
    SlotNext(w, 0, size);
    if r < w {
      SlotInjective(r, w, 0, size);
    }
    if w == r + size - 1 {
      SlotPeriod(r, 0, size);
    } else {
      SlotInjective(r, w + 1, 0, size);
    }
  }

  lemma WriteKeepsEntries<E>(s: State<E>)
    requires Inv(s) && s.writer.Checked?
    ensures Inv(Apply(s, WriteSlot))
  {
    var r, w := |s.removed|, |s.added|;
    forall n | r - 1 <= n < w && 0 <= n
      ensures Slot(n, 0, s.size) != s.writeIndex
    {
      SlotsDiffer(w, n, s.size);
    }
  }

  /** Each concrete step is a step of the specification: operations take effect atomically. */
  lemma StepRefinesFifo<E>(s: State<E>, a: Action<E>)
    requires Inv(s) && Enabled(s, a)
    ensures var s' := Apply(s, a);
            Inv(s') && s'.size == s.size && FifoStep(s.size - 1, Queue(s), Observe(s, a), Queue(s'))
  {
    var r, w := |s.removed|, |s.added|;
    var s' := Apply(s, a);
    SlotsCoincide(r, w, s.size);
    match a
    case CheckFull(_) =>
    case WriteSlot => WriteKeepsEntries(s);
    case PublishWrite =>
      assert s'.removed <= s'.added;
    case CheckEmpty =>
    case ReadSlot =>
    case PublishRead =>
      SlotNext(r, 0, s.size);
      assert s'.removed == s'.added[..r + 1];
  }

  lemma {:induction false} RunKeepsInv<E>(states: seq<State<E>>, actions: seq<Action<E>>, i: nat)
    requires Run(states, actions) && i < |states|
    ensures Inv(states[i]) && states[i].size == states[0].size
  {
    if i > 0 {
      RunKeepsInv(states, actions, i - 1);
      StepRefinesFifo(states[i - 1], actions[i - 1]);
    }
  }

  /**
   Linearizability: in every interleaving, the calls behave like calls on one queue, each taking
   effect at the step that observes it.  "Full" is reported only when `size - 1` entries are held,
   "empty" only when none is, and the entries returned are the entries added, in order.
   */
  lemma RunIsLinearizable<E>(states: seq<State<E>>, actions: seq<Action<E>>)
    requires Run(states, actions)
    ensures forall i :: 0 <= i < |states| ==> states[i].removed <= states[i].added
    ensures forall i :: 0 <= i < |actions| ==>
                          FifoStep(states[0].size - 1, Queue(states[i]),
                                   Observe(states[i], actions[i]), Queue(states[i + 1]))
    ensures forall i :: 0 <= i < |states| ==> |Queue(states[i])| <= states[0].size - 1
  {
    forall i | 0 <= i < |states|
      ensures states[i].removed <= states[i].added && |Queue(states[i])| <= states[0].size - 1
    {
      RunKeepsInv(states, actions, i);
    }
    forall i | 0 <= i < |actions|
      ensures FifoStep(states[0].size - 1, Queue(states[i]), Observe(states[i], actions[i]), Queue(states[i + 1]))
    {
      RunKeepsInv(states, actions, i);
      StepRefinesFifo(states[i], actions[i]);
    }
  }

  // ----- What is added and removed are the callers' calls -----

  predicate HasRoom<E>(s: State<E>) {
    |s.added| - |s.removed| < s.size - 1
  }

  /** The arguments of the first `n` steps' calls of `add` that found room, in order. */
  function Accepted<E>(states: seq<State<E>>, actions: seq<Action<E>>, n: nat): seq<E>
    requires n <= |actions| < |states|
  {
    if n == 0 then []
    else
      Accepted(states, actions, n - 1)
      + if actions[n - 1].CheckFull? && HasRoom(states[n - 1]) then [actions[n - 1].entry] else []
  }

  /** The number of calls of `remove` among the first `n` steps that found an entry. */
  function FoundCalls<E>(states: seq<State<E>>, actions: seq<Action<E>>, n: nat): nat
    requires n <= |actions| < |states|
  {
    if n == 0 then 0
    else
      FoundCalls(states, actions, n - 1)
      + if actions[n - 1].CheckEmpty? && |states[n - 1].removed| < |states[n - 1].added| then 1 else 0
  }

  function Writing<E>(w: Writer<E>): seq<E> {
    if w.WriterIdle? then [] else [w.entry]
  }

  lemma StepAccepts<E>(s: State<E>, a: Action<E>)
    requires Inv(s) && Enabled(s, a)
    ensures var s' := Apply(s, a);
            && s'.added + Writing(s'.writer)
               == s.added + Writing(s.writer) + (if a.CheckFull? && HasRoom(s) then [a.entry] else [])
            && |s'.removed| + (if s'.reader.ReaderIdle? then 0 else 1)
               == |s.removed| + (if s.reader.ReaderIdle? then 0 else 1)
                  + (if a.CheckEmpty? && |s.removed| < |s.added| then 1 else 0)
  {
    SlotsCoincide(|s.removed|, |s.added|, s.size);
  }

  /**
   In every interleaving the entries added are the arguments of the calls that found room, in the order in which they
   found it, the last one perhaps still being written; and every call of `remove` that found an entry takes one.
   */
  lemma {:induction false} CallsAreCarriedOut<E>(states: seq<State<E>>, actions: seq<Action<E>>, n: nat)
    requires Run(states, actions) && n <= |actions|
    ensures states[n].added + Writing(states[n].writer) == Accepted(states, actions, n)
    ensures |states[n].removed| + (if states[n].reader.ReaderIdle? then 0 else 1) == FoundCalls(states, actions, n)
  {
    if n > 0 {
      CallsAreCarriedOut(states, actions, n - 1);
      RunKeepsInv(states, actions, n - 1);
      StepAccepts(states[n - 1], actions[n - 1]);
    }
  }

  /** A call of `add` that finds room can go through, whatever the reader is doing. */
  lemma AddGoesThrough<E>(s: State<E>, entry: E)
    requires Inv(s) && s.writer.WriterIdle? && HasRoom(s)
    ensures Enabled(s, CheckFull(entry))
    ensures var s1 := Apply(s, CheckFull(entry));
            && Enabled(s1, WriteSlot) && Enabled(Apply(s1, WriteSlot), PublishWrite)
            && var s3 := Apply(Apply(s1, WriteSlot), PublishWrite);
            s3.added == s.added + [entry] && s3.writer.WriterIdle? && s3.removed == s.removed && s3.reader == s.reader
  {
    SlotsCoincide(|s.removed|, |s.added|, s.size);
  }

  /** A call of `remove` that finds an entry can go through and returns the oldest one, whatever the writer is doing. */
  lemma RemoveGoesThrough<E>(s: State<E>)
    requires Inv(s) && s.reader.ReaderIdle? && Queue(s) != []
    ensures Enabled(s, CheckEmpty)
    ensures var s1 := Apply(s, CheckEmpty);
            && Enabled(s1, ReadSlot) && Enabled(Apply(s1, ReadSlot), PublishRead)
            && var s2 := Apply(s1, ReadSlot);
            var s3 := Apply(s2, PublishRead);
            && Observe(s2, PublishRead) == RemovedOne(Queue(s)[0]) && s3.removed == s.removed + [Queue(s)[0]]
            && s3.reader.ReaderIdle? && s3.added == s.added && s3.writer == s.writer
  {
    SlotsCoincide(|s.removed|, |s.added|, s.size);
  }

  /**
   Reads are safe without copying: from the return of a `remove` until the next `remove` publishes,
   no step of any writer changes the slot that was handed out.
   */
  lemma {:induction false} ReturnedSlotStaysUnwritten<E>(states: seq<State<E>>, actions: seq<Action<E>>, i: nat, j: nat)
    requires Run(states, actions) && i <= j < |states| && states[i].removed != []
    requires forall k {:trigger actions[k]} :: i <= k < j ==> !actions[k].PublishRead?
    ensures states[j].removed == states[i].removed
    ensures var held := Slot(|states[i].removed| - 1, 0, states[0].size);
            held < |states[i].data| && held < |states[j].data|
            && states[j].data[held] == states[i].data[held] == states[i].removed[|states[i].removed| - 1]
  {
    RunKeepsInv(states, actions, i);
    RunKeepsInv(states, actions, j);
    if i < j {
      ReturnedSlotStaysUnwritten(states, actions, i, j - 1);
      assert states[j] == Apply(states[j - 1], actions[j - 1]);
    }
  }
}
