/**
 The parts together: producers that add, resize and signal (`ResizeProtocol`), the processor whose workers they
 pause and wake (`ProcessorProtocol`), and the multi-reader ring (`SyncQueueProtocol`).

 Producer `t` pauses, resumes and signals the workers as client `t` of the processor; further clients may do so too,
 always with the blocking form of `pause`.  Worker `k` reads the ring as reader `k`, and touches it only in `init` and
 `doWork`.  Its `isWork` does not miss an entry that is there; a wrong "yes" is allowed.  Nothing here forbids a resize
 while somebody uses the ring: that nobody does is what the protocols achieve.
 */
module SystemProtocol {
  import R = ResizeProtocol
  import P = ProcessorProtocol
  import Q = SyncQueueProtocol
  import opened WorkerModel
  import opened ReaderLists
  import opened RingContents
  import opened RingIndex
  import opened QueueConstants

  /** Producer `t` adds `entries[t]`; `announced[t]` when it has begun to signal the workers. */
  datatype System<E> = System(
    producers: R.State, processor: P.State, queue: Q.State<nat, E>, entries: seq<E>, announced: seq<bool>)

  datatype Action<E> =
    | Produce(t: nat, terminated: bool)           // a step of addToQueue outside the queue
    | EnterAdd(t: nat)
    | WriteOn                                     // the thread inside add finds room, or writes its slot
    | AddReturns                                  // it returns: the ring is full, cannot store the entry, or has it
    | Control(control: P.Action)                  // a step of pause, resume or broadcast
    | ResizeRing(t: nat, newData: seq<E>)
    | RunWorker(k: nat, more: bool, work: bool)   // a step of a worker; leaving init it has registered
    | Read(k: nat, read: Q.Action<nat, E>)        // a queue step of worker k inside doWork

  ghost predicate Init<E>(s: System<E>) {
    && R.Init(s.producers) && P.Init(s.processor) && Q.Init(s.queue)
    && |s.entries| == |s.producers.pcs| <= |s.processor.clients| && s.queue.size == s.producers.size
    && |s.announced| == |s.producers.pcs| && forall t :: 0 <= t < |s.announced| ==> !s.announced[t]
  }

  predicate IsFull<E>(q: Q.State<nat, E>)
    requires q.size > 0
  {
    NextIndex(q.writeIndex, q.size) == q.list.readIndex
  }

  /** What `add` returns when it ends where the writer is now. */
  function ReturnedIndex<E>(q: Q.State<nat, E>): int {
    match q.writer
    case Written(_, _, _) => q.writeIndex
    case Checked(_, _, _) => CANNOT_ADD
    case _ => IS_FULL
  }

  predicate MayProduce(pc: R.Pc, client: P.Client) {
    && !R.InAdd(pc) && !pc.Resizing?
    && (pc.PausingWorkers? ==> client.Inside?) && (pc.ResumingWorkers? ==> client.Outside?)
  }

  /** Producers pause the processor to resize, and resume it afterwards; other threads do so at any time. */
  predicate MayBegin<E>(s: System<E>, c: nat)
    requires c < |s.processor.clients|
  {
    c < |s.producers.pcs| ==>
      if s.processor.clients[c].Outside? then s.producers.pcs[c].PausingWorkers?
      else s.producers.pcs[c].ResumingWorkers?
  }

  /** The entry's slot was returned, and the workers have not been signalled yet. */
  predicate MayAnnounce<E>(s: System<E>, c: nat) {
    c < |s.producers.pcs| ==>
      c < |s.announced| && !s.announced[c] && s.producers.pcs[c].Done? && s.producers.pcs[c].index >= 0
  }

  /** The entry worker `k` is assigned is in the ring. */
  ghost predicate HasWork<E>(q: Q.State<nat, E>, k: nat) {
    exists r :: r in q.list.readers && r.id == k && r.num < |q.added|
  }

  /** The new ring holds the old one's entries, and no reader is misplaced; see `SyncQueueProtocol.NumberPreserving`. */
  predicate ResizesWell<E(==)>(q: Q.State<nat, E>, newData: seq<E>) {
    q.size < |newData| ==>
      && Q.InBounds(q) && Q.NumberPreserving(q, |newData|)
      && RelocatedData(q.data, newData, q.list.readIndex, q.writeIndex)
  }

  ghost predicate Enabled<E>(s: System<E>, a: Action<E>) {
    var pcs := s.producers.pcs;
    match a
    case Produce(t, terminated) =>
      && t < |pcs| && t < |s.processor.clients| && MayProduce(pcs[t], s.processor.clients[t])
      && R.Enabled(s.producers, R.Step(t, 0, terminated))
    case EnterAdd(t) =>
      t < |pcs| && t < |s.entries| && R.InAdd(pcs[t]) && Q.Enabled(s.queue, Q.EnterAdd(t, s.entries[t]))
    case WriteOn => Q.InBounds(s.queue) && (s.queue.writer.Checked? || (s.queue.writer.Entered? && !IsFull(s.queue)))
    case AddReturns =>
      && Q.InBounds(s.queue) && !s.queue.writer.NoWriter? && (s.queue.writer.Entered? ==> IsFull(s.queue))
      && R.Enabled(s.producers, R.Step(s.queue.writer.owner, ReturnedIndex(s.queue), false))
    case Control(step) =>
      && !step.RunWorker? && P.Enabled(s.processor, step) && (step.Begin? ==> step.block && MayBegin(s, step.c))
      && (step.Announce? ==> MayAnnounce(s, step.c))
    case ResizeRing(t, newData) =>
      && t < |pcs| && pcs[t].Resizing? && R.Enabled(s.producers, R.Step(t, 0, false))
      && |newData| == GrownSize(s.producers.size, s.producers.entrySize) && ResizesWell(s.queue, newData)
    case RunWorker(k, more, work) =>
      && P.Enabled(s.processor, P.RunWorker(k, more, work))
      && (s.processor.workers[k].pc.Initializing? ==> Q.InBounds(s.queue))
      && (s.processor.workers[k].pc.HoldWork? && HasWork(s.queue, k) ==> work)
    case Read(k, step) =>
      && k < |s.processor.workers| && s.processor.workers[k].pc.Working? && (step.Check? || step.Move?)
      && Q.Enabled(s.queue, step) && s.queue.list.readers[step.k].id == k
  }

  function Apply<E>(s: System<E>, a: Action<E>): System<E>
    requires Enabled(s, a)
  {
    match a
    case Produce(t, terminated) => s.(producers := R.Apply(s.producers, R.Step(t, 0, terminated)))
    case EnterAdd(t) => s.(queue := Q.Apply(s.queue, Q.EnterAdd(t, s.entries[t])))
    case WriteOn => s.(queue := Q.Apply(s.queue, if s.queue.writer.Entered? then Q.CheckFull else Q.WriteSlot))
    case AddReturns =>
      s.(queue := Q.Apply(s.queue, EndOfAdd(s.queue)),
         producers := R.Apply(s.producers, R.Step(s.queue.writer.owner, ReturnedIndex(s.queue), false)))
    case Control(step) =>
      s.(processor := P.Apply(s.processor, step),
         announced := if step.Announce? && step.c < |s.announced| then s.announced[step.c := true] else s.announced)
    case ResizeRing(t, newData) =>
      s.(producers := R.Apply(s.producers, R.Step(t, 0, false)),
         queue := if s.queue.size < |newData| then Q.Enlarged(s.queue, newData) else s.queue)
    case RunWorker(k, more, work) =>
      s.(processor := P.Apply(s.processor, P.RunWorker(k, more, work)),
         queue := if s.processor.workers[k].pc.Initializing? then s.queue.(list := Add(s.queue.list, s.queue.size, k))
                  else s.queue)
    case Read(k, step) => s.(queue := Q.Apply(s.queue, step))
  }

  function EndOfAdd<E>(q: Q.State<nat, E>): Q.Action<nat, E> {
    match q.writer
    case Written(_, _, _) => Q.Publish
    case Checked(_, _, _) => Q.Refuse
    case _ => Q.CheckFull
  }

  ghost predicate Run<E>(states: seq<System<E>>, actions: seq<Action<E>>) {
    && |states| == |actions| + 1 && Init(states[0])
    && forall i {:trigger actions[i]} :: 0 <= i < |actions| ==>
                     Enabled(states[i], actions[i]) && states[i + 1] == Apply(states[i], actions[i])
  }

  // ----- Invariant -----

  /** The thread inside the ring's `add` is a producer inside its call of it, with its own entry. */
  ghost predicate WriterInv<E>(writer: Q.Writer<E>, pcs: seq<R.Pc>, entries: seq<E>) {
    writer.NoWriter? ||
    (writer.owner < |pcs| == |entries| && R.InAdd(pcs[writer.owner]) && writer.entry == entries[writer.owner])
  }

  predicate Resuming(client: P.Client) {
    client.ResumeEnter? || client.ResumeDecide? || client.ResumeEach?
  }

  /** Where producer `t` is in its call, and where it is as a client of the processor. */
  predicate Matches(pc: R.Pc, client: P.Client) {
    if client.Outside? then !pc.Resizing?
    else if client.BroadcastEach? then pc.Done? && pc.index >= 0
    else if client.Inside? then pc.PausingWorkers? || pc.Resizing? || pc.ResumingWorkers?
    else if Resuming(client) then pc.ResumingWorkers?
    else pc.PausingWorkers?
  }

  ghost predicate ClientInv(pcs: seq<R.Pc>, clients: seq<P.Client>) {
    |pcs| <= |clients| && forall t :: 0 <= t < |pcs| ==> Matches(pcs[t], clients[t])
  }

  /** Only workers that have left `init` are registered. */
  ghost predicate ReaderInv(readers: seq<Reader<nat>>, workers: seq<Worker>) {
    forall r :: r in readers ==> r.id < |workers| && !workers[r.id].pc.Initializing?
  }

  /** The ring's entries are those of the successful calls, in their order. */
  ghost predicate EntryInv<E>(added: seq<E>, log: seq<nat>, entries: seq<E>) {
    |added| == |log| && forall n :: 0 <= n < |added| ==> log[n] < |entries| && added[n] == entries[log[n]]
  }

  /** Producers signal after their call has returned a slot. */
  ghost predicate AnnounceInv(announced: seq<bool>, pcs: seq<R.Pc>, clients: seq<P.Client>) {
    && |announced| == |pcs| <= |clients|
    && forall t :: 0 <= t < |pcs| ==>
                     && (announced[t] ==> pcs[t].Done? && pcs[t].index >= 0)
                     && (clients[t].BroadcastEach? ==> announced[t])
  }

  /** Client `client` of the processor has yet to signal worker `k` in its broadcast. */
  predicate StillToSignal(client: P.Client, k: nat) {
    client.BroadcastEach? && (client.k < k || (client.k == k && !client.call.Returned?))
  }

  /** Producer `t` has added its entry and will signal worker `k`. */
  predicate WillSignal<E>(s: System<E>, t: nat, k: nat) {
    && t < |s.producers.pcs| && t < |s.announced| && t < |s.processor.clients|
    && R.LastIndex(s.producers.pcs[t]) >= 0
    && (!s.announced[t] || StillToSignal(s.processor.clients[t], k))
  }

  /** A worker that may miss the entry it is assigned will be signalled by some producer. */
  ghost predicate WakeInv<E>(s: System<E>) {
    forall k :: 0 <= k < |s.processor.workers| && MayMissWork(s.processor.workers[k]) && HasWork(s.queue, k) ==>
                  exists t :: WillSignal(s, t, k)
  }

  ghost predicate Linked<E>(s: System<E>) {
    && WriterInv(s.queue.writer, s.producers.pcs, s.entries)
    && ClientInv(s.producers.pcs, s.processor.clients)
    && ReaderInv(s.queue.list.readers, s.processor.workers)
    && EntryInv(s.queue.added, s.producers.log, s.entries)
    && AnnounceInv(s.announced, s.producers.pcs, s.processor.clients)
    && s.queue.size == s.producers.size && |s.entries| == |s.producers.pcs|
  }

  ghost predicate Inv<E>(s: System<E>) {
    && R.Inv(s.producers) && P.Inv(s.processor) && P.BlockingInv(s.processor) && Q.Inv(s.queue)
    && Linked(s) && WakeInv(s)
  }

  // ----- Isolation -----

  /** While the ring is being resized no other producer is inside `add`, and every worker is quiet. */
  ghost predicate Alone<E>(s: System<E>, t: nat) {
    && s.queue.writer.NoWriter?
    && (forall u :: 0 <= u < |s.producers.pcs| && u != t ==>
          !R.InAdd(s.producers.pcs[u]) && !R.InResize(s.producers.pcs[u]))
    && (forall k :: 0 <= k < |s.processor.workers| ==> P.Quiet(s.processor.workers[k]))
  }

  lemma ProducersStayOut<E>(s: System<E>, t: nat)
    requires R.Inv(s.producers) && t < |s.producers.pcs| && s.producers.pcs[t].Resizing?
    requires WriterInv(s.queue.writer, s.producers.pcs, s.entries)
    ensures s.queue.writer.NoWriter?
    ensures forall u :: 0 <= u < |s.producers.pcs| && u != t ==>
                          !R.InAdd(s.producers.pcs[u]) && !R.InResize(s.producers.pcs[u])
  {
    forall u | 0 <= u < |s.producers.pcs| && u != t
      ensures !R.InAdd(s.producers.pcs[u]) && !R.InResize(s.producers.pcs[u])
    {
      R.AloneWhenPaused(s.producers, t, u);
    }
  }

  lemma WorkersStayOut(p: P.State, t: nat)
    requires P.Inv(p) && P.BlockingInv(p) && t < |p.clients| && p.clients[t].Inside?
    ensures forall k :: 0 <= k < |p.workers| ==> P.Quiet(p.workers[k])
  {
    P.CountPositive(p.clients, t);
    P.InForceIsQuiet(p);
  }

  lemma ResizerIsAlone<E>(s: System<E>, t: nat)
    requires Inv(s) && t < |s.producers.pcs| && s.producers.pcs[t].Resizing?
    ensures Alone(s, t)
  {
    ProducersStayOut(s, t);
    assert Matches(s.producers.pcs[t], s.processor.clients[t]);
    WorkersStayOut(s.processor, t);
  }

  // ----- Every step uses the ring as its own protocol allows -----

  predicate UsesQueue<E>(s: System<E>, a: Action<E>)
    requires a.RunWorker? ==> a.k < |s.processor.workers|
  {
    match a
    case Produce(_, _) => false
    case Control(_) => false
    case ResizeRing(_, newData) => s.queue.size < |newData|
    case RunWorker(k, _, _) => s.processor.workers[k].pc.Initializing?
    case _ => true
  }

  ghost function QueueAction<E>(s: System<E>, a: Action<E>): Q.Action<nat, E>
    requires Enabled(s, a) && UsesQueue(s, a)
  {
    match a
    case EnterAdd(t) => Q.EnterAdd(t, s.entries[t])
    case WriteOn => if s.queue.writer.Entered? then Q.CheckFull else Q.WriteSlot
    case AddReturns => EndOfAdd(s.queue)
    case ResizeRing(_, newData) => Q.Resize(newData)
    case RunWorker(k, _, _) => Q.Register(k)
    case Read(_, read) => read
  }

  /** The ring sees only steps that are enabled there; in particular a resize finds no writer inside `add`. */
  lemma QueueStepIsLegal<E>(s: System<E>, a: Action<E>)
    requires Inv(s) && Enabled(s, a)
    ensures if UsesQueue(s, a)
            then Q.Enabled(s.queue, QueueAction(s, a)) && Apply(s, a).queue == Q.Apply(s.queue, QueueAction(s, a))
            else Apply(s, a).queue == s.queue
  {
    if a.ResizeRing? {
      ResizerIsAlone(s, a.t);
    }
  }

  lemma StepKeepsQueue<E>(s: System<E>, a: Action<E>)
    requires Inv(s) && Enabled(s, a)
    ensures Q.Inv(Apply(s, a).queue)
  {
    QueueStepIsLegal(s, a);
    if UsesQueue(s, a) {
      Q.StepKeepsInv(s.queue, QueueAction(s, a));
    }
  }

  lemma StepKeepsProducers<E>(s: System<E>, a: Action<E>)
    requires R.Inv(s.producers) && Enabled(s, a)
    ensures R.Inv(Apply(s, a).producers)
  {
    match a
    case Produce(t, terminated) => R.StepKeepsInv(s.producers, R.Step(t, 0, terminated));
    case AddReturns => R.StepKeepsInv(s.producers, R.Step(s.queue.writer.owner, ReturnedIndex(s.queue), false));
    case ResizeRing(t, _) => R.StepKeepsInv(s.producers, R.Step(t, 0, false));
    case _ =>
  }

  lemma StepKeepsProcessor<E>(s: System<E>, a: Action<E>)
    requires P.Inv(s.processor) && P.BlockingInv(s.processor) && Enabled(s, a)
    ensures P.Inv(Apply(s, a).processor) && P.BlockingInv(Apply(s, a).processor)
  {
    match a
    case Control(control) =>
      P.StepKeepsInv(s.processor, control);
      P.StepKeepsBlocking(s.processor, control);
    case RunWorker(k, more, work) =>
      P.StepKeepsInv(s.processor, P.RunWorker(k, more, work));
      P.StepKeepsBlocking(s.processor, P.RunWorker(k, more, work));
    case _ =>
  }

  // ----- Every step keeps the parts linked -----

  /** What a step of producer `t` does that the other parts depend on. */
  lemma ProducerEffect(p: R.State, t: nat, index: int, terminated: bool)
    requires R.Enabled(p, R.Step(t, index, terminated))
    ensures var p' := R.Apply(p, R.Step(t, index, terminated));
            var pc, pc' := p.pcs[t], p'.pcs[t];
            && p'.pcs == p.pcs[t := pc'] && p'.entrySize == p.entrySize
            && p'.log == p.log + (if R.InAdd(pc) && index >= 0 then [t] else [])
            && p'.size == (if pc.Resizing? then GrownSize(p.size, p.entrySize) else p.size)
            && (pc.PausingWorkers? ==> pc'.Resizing?) && (pc.Resizing? ==> pc'.ResumingWorkers?)
            && (!pc.PausingWorkers? ==> !pc'.Resizing?) && !pc.Done?
            && (R.LastIndex(pc) >= 0 ==> R.LastIndex(pc') == R.LastIndex(pc))
            && (R.InAdd(pc) ==> R.LastIndex(pc') == index)
  {
  }

  /** A queue step lets a writer in or out, or leaves it its entry; only publishing adds one. */
  lemma QueueEffect<E>(q: Q.State<nat, E>, a: Q.Action<nat, E>)
    requires Q.Enabled(q, a) && !a.Unregister?
    ensures var q' := Q.Apply(q, a);
            && q'.added == q.added + (if a.Publish? then [q.writer.entry] else [])
            && q'.size == (if a.Resize? then |a.newData| else q.size)
            && (q'.writer.NoWriter? || (a.EnterAdd? && q'.writer == Q.Entered(a.owner, a.entry))
                || (!q.writer.NoWriter? && q'.writer.owner == q.writer.owner && q'.writer.entry == q.writer.entry))
            && (a.Publish? || a.Refuse? ==> q'.writer.NoWriter?)
            && (a.CheckFull? && IsFull(q) ==> q'.writer.NoWriter?)
  {
  }

  lemma StepKeepsWriter<E>(s: System<E>, a: Action<E>)
    requires Linked(s) && Enabled(s, a) && (a.ResizeRing? ==> s.queue.writer.NoWriter?)
    ensures WriterInv(Apply(s, a).queue.writer, Apply(s, a).producers.pcs, s.entries)
  {
    match a
    case Produce(t, terminated) => ProducerEffect(s.producers, t, 0, terminated);
    case WriteOn => QueueEffect(s.queue, if s.queue.writer.Entered? then Q.CheckFull else Q.WriteSlot);
    case AddReturns => QueueEffect(s.queue, EndOfAdd(s.queue));
    case Read(_, read) => QueueEffect(s.queue, read);
    case _ =>
  }

  lemma AddReturnKeepsEntries<E>(s: System<E>)
    requires Linked(s) && Enabled(s, AddReturns)
    ensures var s' := Apply(s, AddReturns);
            EntryInv(s'.queue.added, s'.producers.log, s.entries) && s'.queue.size == s'.producers.size
            && |s'.producers.pcs| == |s.producers.pcs|
  {
    QueueEffect(s.queue, EndOfAdd(s.queue));
    ProducerEffect(s.producers, s.queue.writer.owner, ReturnedIndex(s.queue), false);
  }

  lemma StepKeepsEntries<E>(s: System<E>, a: Action<E>)
    requires Linked(s) && Enabled(s, a)
    ensures var s' := Apply(s, a);
            && EntryInv(s'.queue.added, s'.producers.log, s.entries) && s'.queue.size == s'.producers.size
            && |s'.producers.pcs| == |s.producers.pcs| && s'.entries == s.entries
  {
    match a
    case Produce(t, terminated) => ProducerEffect(s.producers, t, 0, terminated);
    case AddReturns => AddReturnKeepsEntries(s);
    case ResizeRing(t, _) => ProducerEffect(s.producers, t, 0, false);
    case Read(_, read) => QueueEffect(s.queue, read);
    case _ =>
  }

  lemma StepKeepsClients<E>(s: System<E>, a: Action<E>)
    requires Linked(s) && Enabled(s, a)
    ensures ClientInv(Apply(s, a).producers.pcs, Apply(s, a).processor.clients)
  {
    match a
    case Produce(t, terminated) =>
      assert Matches(s.producers.pcs[t], s.processor.clients[t]);
      ProducerEffect(s.producers, t, 0, terminated);
    case AddReturns =>
      var t := s.queue.writer.owner;
      assert Matches(s.producers.pcs[t], s.processor.clients[t]);
      ProducerEffect(s.producers, t, ReturnedIndex(s.queue), false);
    case ResizeRing(t, _) =>
      assert Matches(s.producers.pcs[t], s.processor.clients[t]);
      ProducerEffect(s.producers, t, 0, false);
    case Control(control) => ControlKeepsClients(s.producers.pcs, s, control);
    case _ =>
  }

  predicate Pausing(client: P.Client) {
    client.PauseEnter? || client.PauseDecide? || client.PauseEach? || client.AwaitEach? || client.PauseEnd?
  }

  /** The calls a client of the processor makes follow one another as they may. */
  lemma ControlEffect(p: P.State, a: P.Action)
    requires P.Enabled(p, a) && !a.RunWorker?
    ensures a.c < |p.clients| && a.c < |P.Apply(p, a).clients|
    ensures var client, client' := p.clients[a.c], P.Apply(p, a).clients[a.c];
            && P.Apply(p, a).clients == p.clients[a.c := client']
            && (Pausing(client') ==> Pausing(client) || (a.Begin? && client.Outside?))
            && (Resuming(client') ==> Resuming(client) || (a.Begin? && client.Inside?))
            && (client'.Inside? ==> Pausing(client))
            && (client'.Outside? ==> Resuming(client) || client.BroadcastEach?)
            && (client'.BroadcastEach? ==> client.BroadcastEach? || (a.Announce? && client.Outside?))
            && (a.Announce? ==> client.Outside? && client' == P.BroadcastEach(0, SignalWant(false)))
  {
  }

  lemma ControlKeepsClients<E>(pcs: seq<R.Pc>, s: System<E>, a: P.Action)
    requires ClientInv(pcs, s.processor.clients) && pcs == s.producers.pcs && !a.RunWorker?
    requires P.Enabled(s.processor, a) && (a.Begin? ==> a.block && MayBegin(s, a.c))
    requires a.Announce? ==> MayAnnounce(s, a.c)
    ensures ClientInv(pcs, P.Apply(s.processor, a).clients)
  {
    ControlEffect(s.processor, a);
    if a.c < |pcs| {
      assert Matches(pcs[a.c], s.processor.clients[a.c]);
    }
  }

  lemma MoveKeepsNum<T>(l: ReaderList<T>, size: nat, k: nat, j: nat)
    requires k < |l.readers| && size > 0 && j < |l.readers|
    ensures var readers := MoveToFront(l, size, k).list.readers;
            && |readers| == |l.readers|
            && (readers[j].id == l.readers[k].id
                || exists m :: && 0 <= m < |l.readers| && l.readers[m].id == readers[j].id
                               && l.readers[m].num == readers[j].num)
  {
    var last, readers := |l.readers| - 1, MoveToFront(l, size, k).list.readers;
    var m :=
      if !Spans(l, size) then (if j == last then k else if j < k then j else j + 1)
      else if k == 0 && last >= 2 then (if j == last then last else if j == last - 1 then 0 else j + 1)
      else j;
    assert l.readers[m].id == readers[j].id && (m == k || l.readers[m].num == readers[j].num);
  }

  /** A reader that does not act itself keeps its number. */
  lemma QueueKeepsNum<E>(q: Q.State<nat, E>, a: Q.Action<nat, E>, j: nat)
    requires Q.Enabled(q, a) && !a.Unregister? && j < |Q.Apply(q, a).list.readers|
    ensures var r := Q.Apply(q, a).list.readers[j];
            || (a.Register? && r.id == a.id)
            || ((a.Check? || a.Move?) && r.id == q.list.readers[a.k].id)
            || exists m :: 0 <= m < |q.list.readers| && q.list.readers[m].id == r.id && q.list.readers[m].num == r.num
  {
    var before, after := q.list.readers, Q.Apply(q, a).list.readers;
    if a.Register? {
      if after[j].id != a.id {
        assert after[j] == before[if j < |before| then j else j - 1];
      }
    } else if a.Move? {
      MoveKeepsNum(q.list, q.size, a.k, j);
    } else {
      assert after[j].id == before[j].id && after[j].num == before[j].num;
    }
  }

  lemma StepKeepsReaders<E>(s: System<E>, a: Action<E>)
    requires Inv(s) && Enabled(s, a)
    ensures ReaderInv(Apply(s, a).queue.list.readers, Apply(s, a).processor.workers)
  {
    var after := Apply(s, a).queue.list.readers;
    forall r | r in after
      ensures r.id < |Apply(s, a).processor.workers| && !Apply(s, a).processor.workers[r.id].pc.Initializing?
    {
      var j :| 0 <= j < |after| && after[j] == r;
      StepKeepsId(s, a, j);
      StaysOutOfInit(s, a, r.id);
    }
  }

  lemma StepKeepsId<E>(s: System<E>, a: Action<E>, j: nat)
    requires Inv(s) && Enabled(s, a) && j < |Apply(s, a).queue.list.readers|
    ensures var id := Apply(s, a).queue.list.readers[j].id;
            id < |s.processor.workers| && (s.processor.workers[id].pc.Initializing? ==> a.RunWorker? && a.k == id)
  {
    var before, after := s.queue.list.readers, Apply(s, a).queue.list.readers;
    if after[j] !in before {
      ReadersChange(s, a, j);
    }
  }

  /** The ring's part of the step, as far as it changes the readers. */
  lemma ReadersChange<E>(s: System<E>, a: Action<E>, j: nat)
    requires Inv(s) && Enabled(s, a) && j < |Apply(s, a).queue.list.readers|
    ensures var r := Apply(s, a).queue.list.readers[j];
            || (a.RunWorker? && a.k == r.id && s.processor.workers[a.k].pc.Initializing?)
            || exists m :: && 0 <= m < |s.queue.list.readers| && s.queue.list.readers[m].id == r.id
                           && (s.queue.list.readers[m].num == r.num || (a.Read? && a.k == r.id))
  {
    QueueStepIsLegal(s, a);
    if UsesQueue(s, a) {
      var step := QueueAction(s, a);
      QueueKeepsNum(s.queue, step, j);
      if step.Check? || step.Move? {
        assert s.queue.list.readers[step.k].id == a.k;
      }
    }
  }

  lemma StaysOutOfInit<E>(s: System<E>, a: Action<E>, k: nat)
    requires P.Inv(s.processor) && Enabled(s, a) && k < |s.processor.workers|
    requires s.processor.workers[k].pc.Initializing? ==> a.RunWorker? && a.k == k
    ensures k < |Apply(s, a).processor.workers| && !Apply(s, a).processor.workers[k].pc.Initializing?
  {
    match a
    case Control(control) => P.InitializesOnce(s.processor, control, k);
    case RunWorker(j, more, work) => P.InitializesOnce(s.processor, P.RunWorker(j, more, work), k);
    case _ =>
  }

  // ----- Every step keeps the workers from missing entries -----

  lemma ControlKeepsAnnounce<E>(s: System<E>, a: P.Action)
    requires AnnounceInv(s.announced, s.producers.pcs, s.processor.clients) && Enabled(s, Control(a))
    ensures var s' := Apply(s, Control(a)); AnnounceInv(s'.announced, s.producers.pcs, s'.processor.clients)
  {
    ControlEffect(s.processor, a);
  }

  lemma StepKeepsAnnounce<E>(s: System<E>, a: Action<E>)
    requires Linked(s) && Enabled(s, a)
    ensures var s' := Apply(s, a); AnnounceInv(s'.announced, s'.producers.pcs, s'.processor.clients)
  {
    match a
    case Produce(t, terminated) => ProducerEffect(s.producers, t, 0, terminated);
    case AddReturns => ProducerEffect(s.producers, s.queue.writer.owner, ReturnedIndex(s.queue), false);
    case ResizeRing(t, _) => ProducerEffect(s.producers, t, 0, false);
    case Control(step) => ControlKeepsAnnounce(s, step);
    case _ =>
  }

  /** Worker `k` itself registers, or reads. */
  predicate ActsAsReader<E>(s: System<E>, a: Action<E>, k: nat)
    requires k < |s.processor.workers|
  {
    (a.RunWorker? && a.k == k && s.processor.workers[k].pc.Initializing?) || (a.Read? && a.k == k)
  }

  lemma ActingIsAwake<E>(s: System<E>, a: Action<E>, k: nat)
    requires Enabled(s, a) && k < |s.processor.workers| && ActsAsReader(s, a, k)
    ensures k < |Apply(s, a).processor.workers| && !MayMissWork(Apply(s, a).processor.workers[k])
  {
  }

  /** A worker misses an entry it did not miss before only when the entry is just being published. */
  lemma MissedEntryWasThere<E>(s: System<E>, a: Action<E>, k: nat)
    requires Inv(s) && Enabled(s, a) && k < |s.processor.workers| == |Apply(s, a).processor.workers|
    requires MayMissWork(Apply(s, a).processor.workers[k]) && HasWork(Apply(s, a).queue, k)
    ensures (MayMissWork(s.processor.workers[k]) && HasWork(s.queue, k)) || (a.AddReturns? && s.queue.writer.Written?)
  {
    if ActsAsReader(s, a, k) {
      ActingIsAwake(s, a, k);
    } else {
      EntryWasThere(s, a, k);
    }
    if a.RunWorker? {
      P.MissesByLooking(s.processor, P.RunWorker(a.k, a.more, a.work), k);
    } else if a.Control? {
      P.MissesByLooking(s.processor, a.control, k);
    }
  }

  lemma EntryWasThere<E>(s: System<E>, a: Action<E>, k: nat)
    requires Inv(s) && Enabled(s, a) && k < |s.processor.workers| && !ActsAsReader(s, a, k)
    requires HasWork(Apply(s, a).queue, k)
    ensures HasWork(s.queue, k) || (a.AddReturns? && s.queue.writer.Written?)
  {
    var after := Apply(s, a).queue.list.readers;
    var j :| 0 <= j < |after| && after[j].id == k && after[j].num < |Apply(s, a).queue.added|;
    ReadersChange(s, a, j);
    NothingAdded(s, a);
  }

  lemma NothingAdded<E>(s: System<E>, a: Action<E>)
    requires Inv(s) && Enabled(s, a)
    ensures Apply(s, a).queue.added == s.queue.added || (a.AddReturns? && s.queue.writer.Written?)
  {
    QueueStepIsLegal(s, a);
    if UsesQueue(s, a) {
      QueueEffect(s.queue, QueueAction(s, a));
    }
  }

  /** A producer that will signal worker `k` keeps that intention until it has woken the worker. */
  lemma SignallerStays<E>(s: System<E>, a: Action<E>, t: nat, k: nat)
    requires P.Inv(s.processor) && Linked(s) && Enabled(s, a) && WillSignal(s, t, k) && k < |s.processor.workers|
    requires k < |Apply(s, a).processor.workers| && MayMissWork(Apply(s, a).processor.workers[k])
    ensures WillSignal(Apply(s, a), t, k)
  {
    match a
    case Produce(u, terminated) => ProducerEffect(s.producers, u, 0, terminated);
    case AddReturns => ProducerEffect(s.producers, s.queue.writer.owner, ReturnedIndex(s.queue), false);
    case ResizeRing(u, _) => ProducerEffect(s.producers, u, 0, false);
    case Control(step) => ControlKeepsSignaller(s, step, t, k);
    case _ =>
  }

  lemma ControlKeepsSignaller<E>(s: System<E>, step: P.Action, t: nat, k: nat)
    requires P.Inv(s.processor) && AnnounceInv(s.announced, s.producers.pcs, s.processor.clients)
    requires Enabled(s, Control(step)) && WillSignal(s, t, k) && k < |s.processor.workers|
    requires var s' := Apply(s, Control(step)); k < |s'.processor.workers| && MayMissWork(s'.processor.workers[k])
    ensures WillSignal(Apply(s, Control(step)), t, k)
  {
    ControlEffect(s.processor, step);
    if step.c == t && step.Proceed? && s.processor.clients[t].BroadcastEach? {
      BroadcastStays(s.processor, t, k);
    }
  }

  lemma BroadcastStays(p: P.State, c: nat, k: nat)
    requires P.Inv(p) && P.Enabled(p, P.Proceed(c)) && p.clients[c].BroadcastEach? && k < |p.workers|
    requires StillToSignal(p.clients[c], k) && k < |P.Apply(p, P.Proceed(c)).workers|
    requires MayMissWork(P.Apply(p, P.Proceed(c)).workers[k])
    ensures c < |P.Apply(p, P.Proceed(c)).clients| && StillToSignal(P.Apply(p, P.Proceed(c)).clients[c], k)
  {
    if p.clients[c].k < |p.workers| && !p.clients[c].call.Returned? {
      P.CallLeavesPc(p, c);
      assert P.WorkLocked(p.workers[p.clients[c].k], p.clients[c].k, p.clients[c], c);
    }
  }

  /** The producer whose add returns a slot has yet to signal every worker. */
  lemma AdderWillSignal<E>(s: System<E>, k: nat)
    requires Linked(s) && Enabled(s, AddReturns) && s.queue.writer.Written?
    ensures WillSignal(Apply(s, AddReturns), s.queue.writer.owner, k)
  {
    ProducerEffect(s.producers, s.queue.writer.owner, ReturnedIndex(s.queue), false);
  }

  lemma WorkersStay<E>(s: System<E>, a: Action<E>)
    requires P.Inv(s.processor) && Enabled(s, a)
    ensures |Apply(s, a).processor.workers| == |s.processor.workers|
  {
    match a
    case Control(step) =>
      if s.processor.workers != [] {
        P.MissesByLooking(s.processor, step, 0);
      }
    case _ =>
  }

  lemma StepKeepsWake<E>(s: System<E>, a: Action<E>)
    requires Inv(s) && Enabled(s, a)
    ensures WakeInv(Apply(s, a))
  {
    var s' := Apply(s, a);
    WorkersStay(s, a);
    forall k | 0 <= k < |s'.processor.workers| && MayMissWork(s'.processor.workers[k]) && HasWork(s'.queue, k)
      ensures exists t :: WillSignal(s', t, k)
    {
      MissedEntryWasThere(s, a, k);
      if a.AddReturns? && s.queue.writer.Written? {
        AdderWillSignal(s, k);
      } else {
        var t :| WillSignal(s, t, k);
        SignallerStays(s, a, t, k);
      }
    }
  }

  lemma StepKeepsInv<E>(s: System<E>, a: Action<E>)
    requires Inv(s) && Enabled(s, a)
    ensures Inv(Apply(s, a))
  {
    StepKeepsQueue(s, a);
    StepKeepsProducers(s, a);
    StepKeepsProcessor(s, a);
    if a.ResizeRing? {
      ProducersStayOut(s, a.t);
    }
    StepKeepsWriter(s, a);
    StepKeepsClients(s, a);
    StepKeepsReaders(s, a);
    StepKeepsEntries(s, a);
    StepKeepsAnnounce(s, a);
    StepKeepsWake(s, a);
  }

  lemma InitEstablishesInv<E>(s: System<E>)
    requires Init(s)
    ensures Inv(s)
  {
    R.CountZero(s.producers.pcs);
    P.InitKeepsInv(s.processor);
    Q.InitEstablishesInv(s.queue);
  }

  lemma StepInRunKeepsInv<E>(states: seq<System<E>>, actions: seq<Action<E>>, i: nat)
    requires Run(states, actions) && 0 < i < |states| && Inv(states[i - 1])
    ensures Inv(states[i])
  {
    StepKeepsInv(states[i - 1], actions[i - 1]);
  }

  lemma {:induction false} RunKeepsInv<E>(states: seq<System<E>>, actions: seq<Action<E>>, i: nat)
    requires Run(states, actions) && i < |states|
    ensures Inv(states[i])
  {
    if i == 0 {
      InitEstablishesInv(states[0]);
    } else {
      RunKeepsInv(states, actions, i - 1);
      StepInRunKeepsInv(states, actions, i);
    }
  }

  // ----- Theorems about every run -----

  /**
   No lost wakeup: a worker asleep for work, or about to be, while the entry it is assigned is in the ring has a wakeup
   on its way, or some producer has added its entry and will signal that worker.
   */
  lemma NoEntryIsSleptOn<E>(states: seq<System<E>>, actions: seq<Action<E>>, i: nat, k: nat)
    requires Run(states, actions) && i < |states| && k < |states[i].processor.workers|
    requires states[i].processor.workers[k].pc.SleepWork? && HasWork(states[i].queue, k)
    ensures states[i].processor.workers[k].workWake || exists t :: WillSignal(states[i], t, k)
  {
    RunKeepsInv(states, actions, i);
  }

  /**
   Whenever a producer is resizing the ring, no thread is inside the ring's `add`, no other producer is about to
   enter it or resize, and no worker is in or can reach `init`, `doWork` or `isWork`: the resize has the ring to itself.
   */
  lemma ResizeHasRingToItself<E>(states: seq<System<E>>, actions: seq<Action<E>>, i: nat, t: nat)
    requires Run(states, actions) && i < |states|
    requires t < |states[i].producers.pcs| && states[i].producers.pcs[t].Resizing?
    ensures Alone(states[i], t)
  {
    RunKeepsInv(states, actions, i);
    ResizerIsAlone(states[i], t);
  }

  lemma ExtendQueueRun<E>(qs: seq<Q.State<nat, E>>, qas: seq<Q.Action<nat, E>>, a: Q.Action<nat, E>)
    requires Q.Run(qs, qas) && Q.Enabled(qs[|qas|], a)
    ensures Q.Run(qs + [Q.Apply(qs[|qas|], a)], qas + [a])
  {
  }

  lemma PrefixIsRun<E>(states: seq<System<E>>, actions: seq<Action<E>>, n: nat)
    requires Run(states, actions) && n <= |actions|
    ensures Run(states[..n + 1], actions[..n])
  {
    var states', actions' := states[..n + 1], actions[..n];
    forall i {:trigger actions'[i]} | 0 <= i < |actions'|
      ensures Enabled(states'[i], actions'[i]) && states'[i + 1] == Apply(states'[i], actions'[i])
    {
      assert states'[i] == states[i] && actions'[i] == actions[i] && states'[i + 1] == states[i + 1];
    }
  }

  /**
   The ring inside the system behaves as the ring alone: leaving out the steps that do not touch it, a run of the
   system is a run of `SyncQueueProtocol`, so every theorem about those runs holds here.
   */
  lemma {:induction false} SystemRunsQueue<E>(states: seq<System<E>>, actions: seq<Action<E>>)
    returns (qs: seq<Q.State<nat, E>>, qas: seq<Q.Action<nat, E>>)
    requires Run(states, actions)
    ensures Q.Run(qs, qas) && qs[|qas|] == states[|actions|].queue
    decreases |actions|
  {
    if actions == [] {
      return [states[0].queue], [];
    }
    var n := |actions| - 1;
    PrefixIsRun(states, actions, n);
    qs, qas := SystemRunsQueue(states[..n + 1], actions[..n]);
    RunKeepsInv(states, actions, n);
    qs, qas := QueueRunAfter(states[n], actions[n], qs, qas);
  }

  lemma QueueRunAfter<E>(s: System<E>, a: Action<E>, qs: seq<Q.State<nat, E>>, qas: seq<Q.Action<nat, E>>)
    returns (qs': seq<Q.State<nat, E>>, qas': seq<Q.Action<nat, E>>)
    requires Inv(s) && Enabled(s, a) && Q.Run(qs, qas) && qs[|qas|] == s.queue
    ensures Q.Run(qs', qas') && qs'[|qas'|] == Apply(s, a).queue
  {
    qs', qas' := qs, qas;
    QueueStepIsLegal(s, a);
    if UsesQueue(s, a) {
      ExtendQueueRun(qs, qas, QueueAction(s, a));
      qs', qas' := qs + [Apply(s, a).queue], qas + [QueueAction(s, a)];
    }
  }

  lemma OccursOnce(log: seq<nat>, j: nat, k: nat)
    requires j < k < |log| && multiset(log)[log[k]] <= 1
    ensures log[j] != log[k]
  {
    assert log == log[..k] + log[k..];
    assert log[..k][j] == log[j] && log[k..][0] == log[k];
  }

  /** A call's entry is in the ring's history once if the call returned a slot (or is about to), else not at all. */
  lemma LoggedOnce(p: R.State, t: nat)
    requires R.Inv(p) && t < |p.pcs|
    ensures (exists n :: 0 <= n < |p.log| && p.log[n] == t) <==> R.LastIndex(p.pcs[t]) >= 0
    ensures forall j, k :: 0 <= j < k < |p.log| && p.log[k] == t ==> p.log[j] != t
  {
    assert t in multiset(p.log) <==> t in p.log;
    forall j, k | 0 <= j < k < |p.log| && p.log[k] == t
      ensures p.log[j] != t
    {
      OccursOnce(p.log, j, k);
    }
  }

  /**
   End to end, for the workers: what was handed out are entries of successful calls, in the order they were added,
   no number is handed out twice, and no two numbers belong to one call.
   */
  lemma DeliveredAreAdded<E>(states: seq<System<E>>, actions: seq<Action<E>>, i: nat)
    requires Run(states, actions) && i < |states|
    ensures var s := states[i];
            var log, delivered := s.producers.log, s.queue.delivered;
            && (forall d :: d in delivered ==>
                  0 <= d.num < |log| && log[d.num] < |s.entries| && d.entry == s.entries[log[d.num]])
            && (forall j, k :: 0 <= j < k < |delivered| ==> delivered[j].num != delivered[k].num)
            && (forall j, k :: 0 <= j < k < |log| ==> log[j] != log[k])
  {
    RunKeepsInv(states, actions, i);
    var s := states[i];
    forall j, k | 0 <= j < k < |s.producers.log|
      ensures s.producers.log[j] != s.producers.log[k]
    {
      LoggedOnce(s.producers, s.producers.log[k]);
    }
  }

  /**
   End to end, for a producer: the entry of a call that returned a slot has one number, under which it is delivered,
   or held by a reader still to be served, or waiting for a reader to reach it; an entry of a call that
   returned an error is nowhere.
   */
  lemma FinishedAddIsAccounted<E>(states: seq<System<E>>, actions: seq<Action<E>>, i: nat, t: nat)
    requires Run(states, actions) && i < |states|
    requires t < |states[i].producers.pcs| && states[i].producers.pcs[t].Done?
    ensures var s := states[i];
            var log := s.producers.log;
            && t < |s.entries| && |log| == |s.queue.added|
            && ((exists n :: 0 <= n < |log| && log[n] == t) <==> s.producers.pcs[t].index >= 0)
            && (forall m, n :: 0 <= m < n < |log| && log[n] == t ==> log[m] != t)
            && (forall n :: 0 <= n < |log| && log[n] == t ==>
                  && s.queue.added[n] == s.entries[t]
                  && (NextNum(s.queue.list) <= n || n in Q.Served(s.queue) || n in Q.Held(s.queue.list.readers))
                  && !(n in Q.Served(s.queue) && n in Q.Held(s.queue.list.readers)))
  {
    RunKeepsInv(states, actions, i);
    LoggedOnce(states[i].producers, t);
  }

  // ----- What add reports -----

  /** What `add` returns says exactly how it ended: the ring was full, it refused the entry, or it has it. */
  lemma AddReportsOutcome<E>(s: System<E>)
    requires Linked(s) && Enabled(s, AddReturns)
    ensures var index, q, q' := ReturnedIndex(s.queue), s.queue, Apply(s, AddReturns).queue;
            && (index == IS_FULL <==> q.writer.Entered?) && (q.writer.Entered? ==> IsFull(q))
            && (index == CANNOT_ADD <==> q.writer.Checked?)
            && (index >= 0 <==> q.writer.Written?) && (index >= 0 ==> index == q.writeIndex)
            && q'.writer.NoWriter?
            && q'.added == q.added + if index >= 0 then [s.entries[q.writer.owner]] else []
  {
    QueueEffect(s.queue, EndOfAdd(s.queue));
  }

  /** A step makes a call report "cannot add" only when the ring, having room, refuses the call's entry. */
  lemma StepRefuses<E>(s: System<E>, a: Action<E>, t: nat)
    requires Linked(s) && Enabled(s, a) && t < |s.producers.pcs| == |Apply(s, a).producers.pcs|
    requires R.LastIndex(s.producers.pcs[t]) != CANNOT_ADD && R.LastIndex(Apply(s, a).producers.pcs[t]) == CANNOT_ADD
    ensures a.AddReturns? && s.queue.writer.Checked? && s.queue.writer.owner == t
  {
    match a
    case Produce(u, terminated) => ProducerKeepsIndex(s.producers, u, 0, terminated);
    case ResizeRing(u, _) => ProducerKeepsIndex(s.producers, u, 0, false);
    case AddReturns =>
      AddReportsOutcome(s);
      ProducerEffect(s.producers, s.queue.writer.owner, ReturnedIndex(s.queue), false);
    case _ =>
  }

  lemma ProducerKeepsIndex(p: R.State, t: nat, index: int, terminated: bool)
    requires R.Enabled(p, R.Step(t, index, terminated)) && !R.InAdd(p.pcs[t])
    ensures var p' := R.Apply(p, R.Step(t, index, terminated));
            && p'.pcs == p.pcs[t := p'.pcs[t]]
            && (R.LastIndex(p'.pcs[t]) == CANNOT_ADD ==> R.LastIndex(p.pcs[t]) == CANNOT_ADD)
  {
  }

  /** A call that ends with "cannot add" had room in the ring, and the ring could not store its entry. */
  lemma {:induction false} CannotAddIsRefused<E>(states: seq<System<E>>, actions: seq<Action<E>>, n: nat, t: nat)
    requires Run(states, actions) && n <= |actions| && t < |states[n].producers.pcs|
    requires R.LastIndex(states[n].producers.pcs[t]) == CANNOT_ADD
    ensures exists j :: 0 <= j < n && actions[j].AddReturns?
                        && states[j].queue.writer.Checked? && states[j].queue.writer.owner == t
  {
    if n > 0 {
      ProducersStay(states, actions, n - 1);
      if R.LastIndex(states[n - 1].producers.pcs[t]) == CANNOT_ADD {
        CannotAddIsRefused(states, actions, n - 1, t);
      } else {
        RunKeepsInv(states, actions, n - 1);
        StepRefuses(states[n - 1], actions[n - 1], t);
      }
    }
  }

  lemma ProducersStay<E>(states: seq<System<E>>, actions: seq<Action<E>>, i: nat)
    requires Run(states, actions) && i < |actions|
    ensures |states[i + 1].producers.pcs| == |states[i].producers.pcs|
  {
    RunKeepsInv(states, actions, i);
    StepKeepsEntries(states[i], actions[i]);
  }
}
