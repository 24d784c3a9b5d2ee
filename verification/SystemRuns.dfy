/** A run of the whole system: one producer, one worker and a ring of two slots, from the first step to the delivery. */
module SystemRuns {
  import R = ResizeProtocol
  import P = ProcessorProtocol
  import Q = SyncQueueProtocol
  import opened WorkerModel
  import opened ReaderLists
  import opened SystemProtocol

  function Producers(pc: R.Pc, lock: R.Owner, adding: int, log: seq<nat>): R.State {
    R.State([pc], lock, false, adding, 2, 2, 1, 0, log)
  }

  function Processor(pc: WorkerPc, workLock: Owner, client: P.Client): P.State {
    var w := Worker(pc, true, false, false, false, false, Free, Free, workLock, false, false, 0, 0, 0);
    P.State([w], [client], Free, false, 0, false)
  }

  function Ring(readers: seq<Reader<nat>>, writer: Q.Writer<int>, slot: int, added: seq<int>,
                delivered: seq<Q.Delivery<nat, int>>)
    : Q.State<nat, int>
  {
    Q.State(2, 0, [slot, 0], |added|, ReaderList(readers, 0, 0), writer, added, delivered)
  }

  /** The worker registers and looks for work. */
  function Registering(i: nat): System<int> {
    var p := Producers(R.Start, R.Free, 0, []);
    if i == 0 then
      System(p, Processor(Initializing, Free, P.Outside), Ring([], Q.NoWriter, 0, [], []), [7], [false])
    else
      System(p, Processor(if i == 1 then Top else Working, Free, P.Outside),
             Ring([Reader(0, 0, false, 0)], Q.NoWriter, 0, [], []), [7], [false])
  }

  /** The producer adds its entry, 7. */
  function AddingRun(i: nat): System<int> {
    var w := Processor(Working, Free, P.Outside);
    var waiting := [Reader(0, 0, false, 0)];
    var empty := Ring(waiting, Q.NoWriter, 0, [], []);
    match i
    case 2 => System(Producers(R.Start, R.Free, 0, []), w, empty, [7], [false])
    case 3 => System(Producers(R.WantEnter, R.Free, 0, []), w, empty, [7], [false])
    case 4 => System(Producers(R.HoldEnter, R.Held(0), 0, []), w, empty, [7], [false])
    case 5 => System(Producers(R.Adding, R.Free, 1, []), w, empty, [7], [false])
    case 6 => System(Producers(R.Adding, R.Free, 1, []), w, empty.(writer := Q.Entered(0, 7)), [7], [false])
    case 7 => System(Producers(R.Adding, R.Free, 1, []), w, empty.(writer := Q.Checked(0, 7, 1)), [7], [false])
    case 8 =>
      System(Producers(R.Adding, R.Free, 1, []), w, Ring(waiting, Q.Written(0, 7, 1), 7, [], []), [7], [false])
    case _ => System(Producers(R.Added(0), R.Free, 1, [0]), w, Ring(waiting, Q.NoWriter, 7, [7], []), [7], [false])
  }

  /** It returns, and the worker takes the entry. */
  function Returning(i: nat): System<int> {
    var w := Processor(Working, Free, P.Outside);
    var held := Ring([Reader(0, 0, false, 0)], Q.NoWriter, 7, [7], []);
    var taken := Ring([Reader(0, 0, true, 0)], Q.NoWriter, 7, [7], [Q.Delivery(0, 0, 7)]);
    match i
    case 9 => System(Producers(R.Added(0), R.Free, 1, [0]), w, held, [7], [false])
    case 10 => System(Producers(R.WantCheck(0), R.Free, 1, [0]), w, held, [7], [false])
    case 11 => System(Producers(R.HoldCheck(0), R.Held(0), 1, [0]), w, held, [7], [false])
    case 12 => System(Producers(R.Done(0), R.Free, 0, [0]), w, held, [7], [false])
    case _ => System(Producers(R.Done(0), R.Free, 0, [0]), w, taken, [7], [false])
  }

  /** The producer signals the worker. */
  function SignallingRun(i: nat): System<int> {
    var p := Producers(R.Done(0), R.Free, 0, [0]);
    var taken := Ring([Reader(0, 0, true, 0)], Q.NoWriter, 7, [7], [Q.Delivery(0, 0, 7)]);
    match i
    case 13 => System(p, Processor(Working, Free, P.Outside), taken, [7], [false])
    case 14 => System(p, Processor(Working, Free, P.BroadcastEach(0, SignalWant(false))), taken, [7], [true])
    case 15 => System(p, Processor(Working, Client(0), P.BroadcastEach(0, SignalHold(false))), taken, [7], [true])
    case 16 => System(p, Processor(Working, Free, P.BroadcastEach(0, Returned)), taken, [7], [true])
    case 17 => System(p, Processor(Working, Free, P.BroadcastEach(1, SignalWant(false))), taken, [7], [true])
    case _ => System(p, Processor(Working, Free, P.Outside), taken, [7], [true])
  }

  function DeliveryState(i: nat): System<int> {
    if i < 2 then Registering(i) else if i < 9 then AddingRun(i) else if i < 13 then Returning(i) else SignallingRun(i)
  }

  function DeliveryAction(i: nat): Action<int> {
    match i
    case 0 => RunWorker(0, false, false)
    case 1 => RunWorker(0, false, false)
    case 5 => EnterAdd(0)
    case 6 => WriteOn
    case 7 => WriteOn
    case 8 => AddReturns
    case 12 => Read(0, Q.Check(0))
    case 13 => Control(P.Announce(0))
    case _ => if i < 13 then Produce(0, false) else Control(P.Proceed(0))
  }

  lemma RegisteringStep(i: nat)
    requires i < 2
    ensures var s, a := DeliveryState(i), DeliveryAction(i); Enabled(s, a) && DeliveryState(i + 1) == Apply(s, a)
  {
  }

  lemma EnteringStep(i: nat)
    requires 2 <= i < 5
    ensures var s, a := DeliveryState(i), DeliveryAction(i); Enabled(s, a) && DeliveryState(i + 1) == Apply(s, a)
  {
  }

  lemma AddingStep(i: nat)
    requires 5 <= i < 9
    ensures var s, a := DeliveryState(i), DeliveryAction(i); Enabled(s, a) && DeliveryState(i + 1) == Apply(s, a)
  {
  }

  lemma ReturningStep(i: nat)
    requires 9 <= i < 12
    ensures var s, a := DeliveryState(i), DeliveryAction(i); Enabled(s, a) && DeliveryState(i + 1) == Apply(s, a)
  {
  }

  lemma TakingStep()
    ensures var s, a := DeliveryState(12), DeliveryAction(12); Enabled(s, a) && DeliveryState(13) == Apply(s, a)
  {
  }

  lemma AnnouncingStep(i: nat)
    requires 13 <= i < 15
    ensures var s, a := DeliveryState(i), DeliveryAction(i); Enabled(s, a) && DeliveryState(i + 1) == Apply(s, a)
  {
  }

  lemma WakingStep(i: nat)
    requires i == 15
    ensures var s, a := DeliveryState(i), DeliveryAction(i); Enabled(s, a) && DeliveryState(i + 1) == Apply(s, a)
  {
  }

  lemma SignalledStep(i: nat)
    requires 16 <= i < 18
    ensures var s, a := DeliveryState(i), DeliveryAction(i); Enabled(s, a) && DeliveryState(i + 1) == Apply(s, a)
  {
  }

  /** An entry goes all the way: added by its producer, delivered to the worker, and announced. */
  lemma EntryIsDelivered() returns (states: seq<System<int>>, actions: seq<Action<int>>)
    ensures Run(states, actions) && |actions| == 18
    ensures var s := states[18];
            && s.entries == [7] && s.producers.pcs == [R.Done(0)] && s.queue.delivered == [Q.Delivery(0, 0, 7)]
            && s.processor.clients == [P.Outside] && s.announced == [true]
  {
    states := seq(19, i requires 0 <= i < 19 => DeliveryState(i));
    actions := seq(18, i requires 0 <= i < 18 => DeliveryAction(i));
    forall i {:trigger actions[i]} | 0 <= i < 18
      ensures Enabled(states[i], actions[i]) && states[i + 1] == Apply(states[i], actions[i])
    {
      if i < 2 {
        RegisteringStep(i);
      } else if i < 5 {
        EnteringStep(i);
      } else if i < 9 {
        AddingStep(i);
      } else if i < 12 {
        ReturningStep(i);
      } else if i == 12 {
        TakingStep();
      } else if i < 15 {
        AnnouncingStep(i);
      } else if i == 15 {
        WakingStep(i);
      } else {
        SignalledStep(i);
      }
    }
  }
}
