/** The coordinator's hand-off queue: connection threads, ingest workers and stopping threads
    interleave over one bounded queue of promised answers (src/coordinator.cpp). Each event is
    one atomic step; the queue mutex is explicit. */
module Handoff {
  import opened Foundation

  type ConnId = nat

  /** A request is its connection and its position in that connection's stream. */
  datatype Item = Item(conn: ConnId, serial: nat)

  /** How a promise was fulfilled. */
  datatype Answer = Replied | ShuttingDownAnswer

  datatype Completion = Completion(item: Item, answer: Answer)

  datatype Worker = IdleWorker | Holding(item: Item) | Answering(item: Item) | Exited

  datatype Stopper = Draining | Dropping(item: Item) | Drained

  /** `serial` is the number of the request being served or read next. */
  datatype Conn = Conn(serial: nat, waiting: Option<Item>)

  datatype State = State(
    bound: nat,
    stopping: bool,
    mutex: Option<Item>,
    queue: seq<Item>,
    conns: map<ConnId, Conn>,
    workers: seq<Worker>,
    stoppers: seq<Stopper>,
    applied: seq<Item>,
    completions: seq<Completion>,
    refused: seq<Item>,
    accepted: seq<Item>)

  function Initial(bound: nat, workers: nat): State {
    State(bound, false, None, [], map[], seq(workers, i => IdleWorker), [], [], [], [], [])
  }

  datatype Event =
    | Connect(conn: ConnId)
    | Check(conn: ConnId)
      // the mutex is taken and room was found, or the request is refused
    | Push
    | Take(worker: nat)
    | Dispatch(worker: nat)
    | Fulfil(worker: nat)
    | Exit(worker: nat)
    | Stop
    | StopperTake(stopper: nat)
    | StopperFulfil(stopper: nat)
    | SeeEmpty(stopper: nat)
    | Receive(conn: ConnId)

  function Next(s: State, c: ConnId): Item
    requires c in s.conns
  {
    Item(c, s.conns[c].serial)
  }

  predicate Answered(s: State, item: Item) {
    exists i :: 0 <= i < |s.completions| && s.completions[i].item == item
  }

  predicate Enabled(s: State, e: Event) {
    match e
    case Connect(c) => c !in s.conns
    case Check(c) => s.mutex.None? && c in s.conns && s.conns[c].waiting.None?
    case Push => s.mutex.Some?
    case Take(w) => s.mutex.None? && w < |s.workers| && s.workers[w].IdleWorker? && s.queue != []
    case Dispatch(w) => w < |s.workers| && s.workers[w].Holding?
    case Fulfil(w) => w < |s.workers| && s.workers[w].Answering?
    case Exit(w) => s.mutex.None? && w < |s.workers| && s.workers[w].IdleWorker? && s.queue == [] && s.stopping
    case Stop => true
    case StopperTake(t) => s.mutex.None? && t < |s.stoppers| && s.stoppers[t].Draining? && s.queue != []
    case StopperFulfil(t) => t < |s.stoppers| && s.stoppers[t].Dropping?
    case SeeEmpty(t) => s.mutex.None? && t < |s.stoppers| && s.stoppers[t].Draining? && s.queue == []
    case Receive(c) => c in s.conns && s.conns[c].waiting.Some? && Answered(s, s.conns[c].waiting.value)
  }

  /** There is room and the coordinator is not stopping: the test made under the mutex. */
  predicate Admits(s: State) {
    |s.queue| < s.bound && !s.stopping
  }

  function Step(s: State, e: Event): State
    requires Enabled(s, e)
  {
    match e
    case Connect(c) => s.(conns := s.conns[c := Conn(0, None)])
    case Check(c) =>
      var item := Next(s, c);
      if Admits(s)
      then s.(mutex := Some(item), conns := s.conns[c := Conn(item.serial, Some(item))], accepted := s.accepted + [item])
      else s.(conns := s.conns[c := Conn(item.serial + 1, None)], refused := s.refused + [item])
    case Push => s.(mutex := None, queue := s.queue + [s.mutex.value])
    case Take(w) => s.(queue := s.queue[1..], workers := s.workers[w := Holding(s.queue[0])])
    case Dispatch(w) =>
      s.(applied := s.applied + [s.workers[w].item], workers := s.workers[w := Answering(s.workers[w].item)])
    case Fulfil(w) =>
      s.(completions := s.completions + [Completion(s.workers[w].item, Replied)], workers := s.workers[w := IdleWorker])
    case Exit(w) => s.(workers := s.workers[w := Exited])
    case Stop => s.(stopping := true, stoppers := s.stoppers + [Draining])
    case StopperTake(t) => s.(queue := s.queue[1..], stoppers := s.stoppers[t := Dropping(s.queue[0])])
    case StopperFulfil(t) =>
      s.(completions := s.completions + [Completion(s.stoppers[t].item, ShuttingDownAnswer)],
         stoppers := s.stoppers[t := Draining])
    case SeeEmpty(t) => s.(stoppers := s.stoppers[t := Drained])
    case Receive(c) => s.(conns := s.conns[c := Conn(s.conns[c].serial + 1, None)])
  }

  /** Every interleaving: a sequence of states, each reached from the one before by an event. */
  ghost predicate Execution(states: seq<State>, events: seq<Event>) {
    && |states| == |events| + 1
    && forall i :: 0 <= i < |events| ==> Enabled(states[i], events[i]) && states[i + 1] == Step(states[i], events[i])
  }

  // ---------------------------------------------------------------------------------
  // Places
  // ---------------------------------------------------------------------------------

  function One(found: bool): nat {
    if found then 1 else 0
  }

  /** How often a worker list holds a request, before or after it was applied. */
  function Held(workers: seq<Worker>, applied: bool, x: Item): nat {
    if workers == [] then 0
    else Held(workers[..|workers| - 1], applied, x) + HeldBy(workers[|workers| - 1], applied, x)
  }

  function HeldBy(w: Worker, applied: bool, x: Item): nat {
    One(w == if applied then Answering(x) else Holding(x))
  }

  function Removed(stoppers: seq<Stopper>, x: Item): nat {
    if stoppers == [] then 0
    else Removed(stoppers[..|stoppers| - 1], x) + One(stoppers[|stoppers| - 1] == Dropping(x))
  }

  function Completed(completions: seq<Completion>, answer: Answer, x: Item): nat {
    if completions == [] then 0
    else Completed(completions[..|completions| - 1], answer, x) + One(completions[|completions| - 1] == Completion(x, answer))
  }

  function Queued(queue: seq<Item>, x: Item): nat {
    if queue == [] then 0 else One(queue[0] == x) + Queued(queue[1..], x)
  }

  /** Accepted and not yet applied: about to be pushed, queued, taken by a worker or removed by
      a stopping thread. */
  function Fresh(s: State, x: Item): nat {
    One(s.mutex == Some(x)) + Queued(s.queue, x) + Held(s.workers, false, x) + Removed(s.stoppers, x)
  }

  /** On the way: no answer yet. */
  function InFlight(s: State, x: Item): nat {
    Fresh(s, x) + Held(s.workers, true, x)
  }

  /** In how many places a request is. */
  function Places(s: State, x: Item): nat {
    InFlight(s, x) + Completed(s.completions, Replied, x) + Completed(s.completions, ShuttingDownAnswer, x)
  }

  lemma {:induction false} WorkerUpdate(workers: seq<Worker>, i: nat, w: Worker, applied: bool, x: Item)
    requires i < |workers|
    ensures Held(workers[i := w], applied, x) + HeldBy(workers[i], applied, x) ==
            Held(workers, applied, x) + HeldBy(w, applied, x)
    ensures Held(workers, applied, x) >= HeldBy(workers[i], applied, x)
  {
    hide HeldBy;
    var n := |workers| - 1;
    if i == n {
      assert workers[i := w][..n] == workers[..n];
    } else {
      assert workers[i := w][..n] == workers[..n][i := w];
      WorkerUpdate(workers[..n], i, w, applied, x);
    }
  }

  lemma {:induction false} StopperUpdate(stoppers: seq<Stopper>, i: nat, t: Stopper, x: Item)
    requires i < |stoppers|
    ensures Removed(stoppers[i := t], x) + One(stoppers[i] == Dropping(x)) == Removed(stoppers, x) + One(t == Dropping(x))
    ensures Removed(stoppers, x) >= One(stoppers[i] == Dropping(x))
  {
    hide One;
    var n := |stoppers| - 1;
    if i == n {
      assert stoppers[i := t][..n] == stoppers[..n];
    } else {
      assert stoppers[i := t][..n] == stoppers[..n][i := t];
      StopperUpdate(stoppers[..n], i, t, x);
    }
  }

  lemma OneMoreCompletion(completions: seq<Completion>, c: Completion, answer: Answer, x: Item)
    ensures Completed(completions + [c], answer, x) == Completed(completions, answer, x) + One(c == Completion(x, answer))
  {
    assert (completions + [c])[..|completions|] == completions;
  }

  lemma OneMoreStopper(stoppers: seq<Stopper>, x: Item)
    ensures Removed(stoppers + [Draining], x) == Removed(stoppers, x)
  {
    assert (stoppers + [Draining])[..|stoppers|] == stoppers;
  }

  lemma {:induction false} OneMoreQueued(queue: seq<Item>, last: Item, x: Item)
    ensures Queued(queue + [last], x) == Queued(queue, x) + One(last == x)
  {
    if queue == [] {
      assert queue + [last] == [last];
    } else {
      OneMoreQueued(queue[1..], last, x);
      assert (queue + [last])[1..] == queue[1..] + [last];
    }
  }

  /** How one step changes the counts of one request. */
  predicate Moves(s: State, t: State, x: Item, waiting: int, held: int, replied: int, dropped: int) {
    && Fresh(t, x) == Fresh(s, x) + waiting
    && Held(t.workers, true, x) == Held(s.workers, true, x) + held
    && Completed(t.completions, Replied, x) == Completed(s.completions, Replied, x) + replied
    && Completed(t.completions, ShuttingDownAnswer, x) == Completed(s.completions, ShuttingDownAnswer, x) + dropped
  }

  /** The request a step lets in, if any. */
  predicate Enters(s: State, e: Event, x: Item)
    requires Enabled(s, e)
  {
    e.Check? && Admits(s) && x == Next(s, e.conn)
  }

  lemma QueueMoves(s: State, e: Event, x: Item)
    requires Enabled(s, e) && (e.Connect? || e.Check? || e.Push? || e.Stop? || e.Receive?)
    ensures Moves(s, Step(s, e), x, One(Enters(s, e, x)), 0, 0, 0)
  {
    hide Held, Removed, Completed, Answered, Queued;
    OneMoreStopper(s.stoppers, x);
    if e.Push? {
      OneMoreQueued(s.queue, s.mutex.value, x);
    }
  }

  lemma WorkerMoves(s: State, e: Event, x: Item)
    requires Enabled(s, e) && (e.Take? || e.Dispatch? || e.Fulfil? || e.Exit?)
    ensures var dispatched := One(e.Dispatch? && s.workers[e.worker].item == x);
            var fulfilled := One(e.Fulfil? && s.workers[e.worker].item == x);
            Moves(s, Step(s, e), x, 0 - dispatched, dispatched - fulfilled, fulfilled, 0)
  {
    hide Held, Removed, Completed, Answered;
    var w := e.worker;
    var after := Step(s, e).workers[w];
    WorkerUpdate(s.workers, w, after, false, x);
    WorkerUpdate(s.workers, w, after, true, x);
    if e.Fulfil? {
      OneMoreCompletion(s.completions, Completion(s.workers[w].item, Replied), Replied, x);
      OneMoreCompletion(s.completions, Completion(s.workers[w].item, Replied), ShuttingDownAnswer, x);
    }
  }

  lemma StopperMoves(s: State, e: Event, x: Item)
    requires Enabled(s, e) && (e.StopperTake? || e.StopperFulfil? || e.SeeEmpty?)
    ensures var dropped := One(e.StopperFulfil? && s.stoppers[e.stopper].item == x);
            Moves(s, Step(s, e), x, 0 - dropped, 0, 0, dropped)
  {
    hide Held, Removed, Completed, Answered;
    var t := e.stopper;
    StopperUpdate(s.stoppers, t, Step(s, e).stoppers[t], x);
    if e.StopperFulfil? {
      OneMoreCompletion(s.completions, Completion(s.stoppers[t].item, ShuttingDownAnswer), Replied, x);
      OneMoreCompletion(s.completions, Completion(s.stoppers[t].item, ShuttingDownAnswer), ShuttingDownAnswer, x);
    }
  }

  /** What a step does to one request: it may enter, be applied, be answered or be dropped. */
  lemma StepMoves(s: State, e: Event, x: Item)
    requires Enabled(s, e)
    ensures var entered := One(Enters(s, e, x));
            var dispatched := One(e.Dispatch? && s.workers[e.worker].item == x);
            var fulfilled := One(e.Fulfil? && s.workers[e.worker].item == x);
            var dropped := One(e.StopperFulfil? && s.stoppers[e.stopper].item == x);
            Moves(s, Step(s, e), x, entered - dispatched - dropped, dispatched - fulfilled, fulfilled, dropped)
  {
    hide Step, Moves, Answered, Admits;
    match e
    case Take(_) => WorkerMoves(s, e, x);
    case Dispatch(_) => WorkerMoves(s, e, x);
    case Fulfil(_) => WorkerMoves(s, e, x);
    case Exit(_) => WorkerMoves(s, e, x);
    case StopperTake(_) => StopperMoves(s, e, x);
    case StopperFulfil(_) => StopperMoves(s, e, x);
    case SeeEmpty(_) => StopperMoves(s, e, x);
    case _ => QueueMoves(s, e, x);
  }

  // ---------------------------------------------------------------------------------
  // The invariant
  // ---------------------------------------------------------------------------------

  /** Every accepted request is in exactly one place, any other in none. */
  ghost predicate OnePlaceEach(s: State) {
    forall x :: Places(s, x) == One(x in s.accepted)
  }

  /** The queue respects its bound, also while a push is under way. */
  predicate Bounded(s: State) {
    |s.queue| + One(s.mutex.Some?) <= s.bound
  }

  /** Once a stopping thread has seen the queue empty, nothing is queued or about to be. */
  predicate StaysDrained(s: State) {
    && (s.stoppers != [] ==> s.stopping)
    && (Drained in s.stoppers ==> s.queue == [] && s.mutex.None?)
  }

  /** A connection waits for the request it has in flight. */
  ghost predicate Awaited(s: State) {
    forall x :: InFlight(s, x) > 0 ==> x.conn in s.conns && s.conns[x.conn].waiting == Some(x)
  }

  /** The request a connection waits for is its newest, and all others it sent are older. */
  ghost predicate Numbered(s: State) {
    && (forall c :: c in s.conns && s.conns[c].waiting.Some? ==> s.conns[c].waiting == Some(Next(s, c)))
    && (forall x :: x in s.accepted || x in s.refused ==>
          && x.conn in s.conns
          && (x.serial < s.conns[x.conn].serial || s.conns[x.conn].waiting == Some(x)))
  }

  /** The engine saw exactly the requests that are being or were answered with its reply. */
  ghost predicate Truthful(s: State) {
    && (forall x :: Fresh(s, x) > 0 || Completed(s.completions, ShuttingDownAnswer, x) > 0 ==> x !in s.applied)
    && (forall x :: Held(s.workers, true, x) > 0 || Completed(s.completions, Replied, x) > 0 ==> x in s.applied)
  }

  /** Only accepted requests are applied, and no refused one is accepted. */
  predicate Sorted(s: State) {
    && (forall x :: x in s.applied ==> x in s.accepted)
    && (forall x :: x in s.refused ==> x !in s.accepted)
  }

  /** Each connection's requests were applied in the order they arrived. */
  ghost predicate InOrder(s: State) {
    forall i, j :: 0 <= i < j < |s.applied| && s.applied[i].conn == s.applied[j].conn ==>
      s.applied[i].serial < s.applied[j].serial
  }

  ghost predicate Inv(s: State) {
    && OnePlaceEach(s) && Bounded(s) && StaysDrained(s)
    && Awaited(s) && Numbered(s) && Truthful(s) && Sorted(s) && InOrder(s)
  }

  lemma {:induction false} IdleWorkersHoldNothing(n: nat, applied: bool, x: Item)
    ensures Held(seq(n, i => IdleWorker), applied, x) == 0
  {
    if n > 0 {
      assert seq(n, i => IdleWorker)[..n - 1] == seq(n - 1, i => IdleWorker);
      IdleWorkersHoldNothing(n - 1, applied, x);
    }
  }

  lemma InitialInv(bound: nat, workers: nat)
    ensures Inv(Initial(bound, workers))
  {
    var idle := Initial(bound, workers).workers;
    forall x ensures Held(idle, false, x) == 0 && Held(idle, true, x) == 0 {
      IdleWorkersHoldNothing(workers, false, x);
      IdleWorkersHoldNothing(workers, true, x);
    }
  }

  lemma BoundedStep(s: State, e: Event)
    requires Bounded(s) && StaysDrained(s) && Enabled(s, e)
    ensures Bounded(Step(s, e)) && StaysDrained(Step(s, e))
  {
    hide Answered;
  }

  /** The next request of an idle connection is one nobody has seen yet. */
  lemma NextIsNew(s: State, c: ConnId)
    requires Numbered(s) && c in s.conns && s.conns[c].waiting.None?
    ensures Next(s, c) !in s.accepted && Next(s, c) !in s.refused
  {
  }

  lemma AcceptedAfter(s: State, e: Event, x: Item)
    requires Enabled(s, e) && Numbered(s)
    ensures One(x in Step(s, e).accepted) == One(x in s.accepted) + One(Enters(s, e, x))
  {
    hide Answered;
    if e.Check? {
      NextIsNew(s, e.conn);
    }
  }

  lemma OnePlaceStep(s: State, e: Event)
    requires OnePlaceEach(s) && Numbered(s) && Enabled(s, e)
    ensures OnePlaceEach(Step(s, e))
  {
    hide Step, Fresh, Held, Completed, Answered, Admits, Numbered, Enters, Enabled;
    forall x ensures Places(Step(s, e), x) == One(x in Step(s, e).accepted) {
      StepMoves(s, e, x);
      AcceptedAfter(s, e, x);
    }
  }

  lemma {:induction false} AnsweredIsCounted(completions: seq<Completion>, i: nat)
    requires i < |completions|
    ensures Completed(completions, completions[i].answer, completions[i].item) > 0
  {
    if i < |completions| - 1 {
      AnsweredIsCounted(completions[..|completions| - 1], i);
    }
  }

  lemma AnsweredIsNotInFlight(s: State, x: Item)
    requires OnePlaceEach(s) && Answered(s, x)
    ensures InFlight(s, x) == 0
  {
    hide Fresh, Held;
    var i :| 0 <= i < |s.completions| && s.completions[i].item == x;
    AnsweredIsCounted(s.completions, i);
    var answer := s.completions[i].answer;
    assert answer == Replied || answer == ShuttingDownAnswer;
    assert Places(s, x) == One(x in s.accepted);
  }

  lemma AwaitedStep(s: State, e: Event)
    requires OnePlaceEach(s) && Awaited(s) && Enabled(s, e)
    ensures Awaited(Step(s, e))
  {
    hide Fresh, Held, Completed, Answered, OnePlaceEach;
    var t := Step(s, e);
    forall x | InFlight(t, x) > 0 ensures x.conn in t.conns && t.conns[x.conn].waiting == Some(x) {
      StepMoves(s, e, x);
      if e.Receive? {
        AnsweredIsNotInFlight(s, s.conns[e.conn].waiting.value);
      }
    }
  }

  lemma NumberedStep(s: State, e: Event)
    requires Numbered(s) && Enabled(s, e)
    ensures Numbered(Step(s, e))
  {
    hide Answered, Admits;
  }

  /** A worker's or stopping thread's request counts as fresh until it is applied or answered. */
  lemma HeldIsFresh(s: State, e: Event)
    requires Enabled(s, e) && (e.Dispatch? || e.StopperFulfil?)
    ensures Fresh(s, if e.Dispatch? then s.workers[e.worker].item else s.stoppers[e.stopper].item) > 0
  {
    hide Held, Removed, Queued;
    if e.Dispatch? {
      WorkerUpdate(s.workers, e.worker, IdleWorker, false, s.workers[e.worker].item);
    } else {
      StopperUpdate(s.stoppers, e.stopper, Draining, s.stoppers[e.stopper].item);
    }
  }

  lemma AnsweringIsHeld(s: State, e: Event)
    requires Enabled(s, e) && e.Fulfil?
    ensures Held(s.workers, true, s.workers[e.worker].item) > 0
  {
    hide Held;
    WorkerUpdate(s.workers, e.worker, IdleWorker, true, s.workers[e.worker].item);
  }

  lemma SortedStep(s: State, e: Event)
    requires OnePlaceEach(s) && Numbered(s) && Sorted(s) && Enabled(s, e)
    ensures Sorted(Step(s, e))
  {
    hide Fresh, Held, Completed, Answered, Numbered, Admits;
    if e.Check? {
      NextIsNew(s, e.conn);
    } else if e.Dispatch? {
      HeldIsFresh(s, e);
      assert Places(s, s.workers[e.worker].item) > 0;
    }
  }

  lemma TruthfulStep(s: State, e: Event)
    requires OnePlaceEach(s) && Numbered(s) && Sorted(s) && Truthful(s) && Enabled(s, e)
    ensures Truthful(Step(s, e))
  {
    hide Held, Completed, Answered, Numbered, Admits, Fresh;
    var t := Step(s, e);
    if e.Check? {
      NextIsNew(s, e.conn);
    } else if e.Dispatch? || e.StopperFulfil? {
      HeldIsFresh(s, e);
    } else if e.Fulfil? {
      AnsweringIsHeld(s, e);
    }
    forall x
      ensures Fresh(t, x) > 0 || Completed(t.completions, ShuttingDownAnswer, x) > 0 ==> x !in t.applied
      ensures Held(t.workers, true, x) > 0 || Completed(t.completions, Replied, x) > 0 ==> x in t.applied
    {
      StepMoves(s, e, x);
      assert Places(s, x) <= 1;
    }
  }

  lemma InOrderStep(s: State, e: Event)
    requires Awaited(s) && Numbered(s) && Truthful(s) && Sorted(s) && InOrder(s) && Enabled(s, e)
    ensures InOrder(Step(s, e))
  {
    hide Fresh, Held, Completed, Answered, Admits;
    if e.Dispatch? {
      var x := s.workers[e.worker].item;
      HeldIsFresh(s, e);
      assert InFlight(s, x) > 0;
      forall i | 0 <= i < |s.applied| && s.applied[i].conn == x.conn ensures s.applied[i].serial < x.serial {
        assert s.applied[i] in s.accepted;
      }
    }
  }

  lemma InvStep(s: State, e: Event)
    requires Inv(s) && Enabled(s, e)
    ensures Inv(Step(s, e))
  {
    hide Step, Enabled, OnePlaceEach, Bounded, StaysDrained, Awaited, Numbered, Truthful, Sorted, InOrder;
    OnePlaceStep(s, e);
    BoundedStep(s, e);
    AwaitedStep(s, e);
    NumberedStep(s, e);
    TruthfulStep(s, e);
    SortedStep(s, e);
    InOrderStep(s, e);
  }

  // ---------------------------------------------------------------------------------
  // Whole executions
  // ---------------------------------------------------------------------------------

  /** Any interleaving of any number of workers, connections and stopping threads. */
  ghost predicate Run(states: seq<State>, events: seq<Event>) {
    Execution(states, events) && states[0] == Initial(states[0].bound, |states[0].workers|)
  }

  lemma {:induction false} RunsKeepInv(states: seq<State>, events: seq<Event>, i: nat)
    requires Run(states, events) && i < |states|
    ensures Inv(states[i]) && states[i].bound == states[0].bound
  {
    hide Inv, Initial;
    if i == 0 {
      InitialInv(states[0].bound, |states[0].workers|);
    } else {
      RunsKeepInv(states, events, i - 1);
      InvStep(states[i - 1], events[i - 1]);
    }
  }

  lemma {:induction false} AnsweredTwiceIsCounted(completions: seq<Completion>, i: nat, j: nat)
    requires i < j < |completions| && completions[i].item == completions[j].item
    ensures var x := completions[i].item;
            Completed(completions, Replied, x) + Completed(completions, ShuttingDownAnswer, x) >= 2
  {
    var n := |completions| - 1;
    if j < n {
      AnsweredTwiceIsCounted(completions[..n], i, j);
    } else {
      AnsweredIsCounted(completions[..n], i);
      var first, last := completions[i].answer, completions[n].answer;
      assert first == Replied || first == ShuttingDownAnswer;
      assert last == Replied || last == ShuttingDownAnswer;
    }
  }

  /** In every interleaving each accepted request is in exactly one place, a refused one in
      none; no promise is fulfilled twice, and the queue never outgrows its bound. */
  lemma EveryRequestIsInOnePlace(states: seq<State>, events: seq<Event>, k: nat)
    requires Run(states, events) && k < |states|
    ensures forall x :: Places(states[k], x) == One(x in states[k].accepted)
    ensures forall x :: x in states[k].refused ==> Places(states[k], x) == 0
    ensures var done := states[k].completions; forall i, j :: 0 <= i < j < |done| ==> done[i].item != done[j].item
    ensures |states[k].queue| <= states[0].bound
  {
    hide InFlight, Initial;
    RunsKeepInv(states, events, k);
    var s := states[k];
    forall i, j | 0 <= i < j < |s.completions| ensures s.completions[i].item != s.completions[j].item {
      assert Places(s, s.completions[i].item) <= 1;
      if s.completions[i].item == s.completions[j].item {
        AnsweredTwiceIsCounted(s.completions, i, j);
      }
    }
  }

  /** What was applied, answered, refused or accepted stays so, and a thread that saw the queue
      empty has left its loop. */
  ghost predicate Grows(s: State, t: State) {
    && s.applied <= t.applied && s.completions <= t.completions
    && s.refused <= t.refused && s.accepted <= t.accepted
    && |s.stoppers| <= |t.stoppers|
    && forall i :: 0 <= i < |s.stoppers| && s.stoppers[i].Drained? ==> t.stoppers[i].Drained?
  }

  lemma StepGrows(s: State, e: Event)
    requires Enabled(s, e)
    ensures Grows(s, Step(s, e))
  {
    hide Answered, Admits;
  }

  lemma {:induction false} RecordsOnlyGrow(states: seq<State>, events: seq<Event>, i: nat, j: nat)
    requires Execution(states, events) && i <= j < |states|
    ensures Grows(states[i], states[j])
    decreases j
  {
    hide Step, Enabled;
    if i < j {
      RecordsOnlyGrow(states, events, i, j - 1);
      StepGrows(states[j - 1], events[j - 1]);
    }
  }

  /** After one call of stop has seen the queue empty it is empty in every later state, so the
      threads it then joins can leave nothing behind. */
  lemma DrainedQueueStaysEmpty(states: seq<State>, events: seq<Event>, i: nat, j: nat)
    requires Run(states, events) && i <= j < |states|
    requires Drained in states[i].stoppers
    ensures states[j].queue == [] && states[j].mutex.None? && states[j].stopping
  {
    hide OnePlaceEach, Bounded, Awaited, Numbered, Truthful, Sorted, InOrder, Initial, Execution;
    RecordsOnlyGrow(states, events, i, j);
    RunsKeepInv(states, events, j);
    var t :| 0 <= t < |states[i].stoppers| && states[i].stoppers[t] == Drained;
    assert states[j].stoppers[t] == Drained;
  }

  /** The answers tell the truth: a request refused for want of room, or told that it was not
      applied, is never applied, then or later; one answered with a reply was applied. */
  lemma AnswersAreTruthful(states: seq<State>, events: seq<Event>, i: nat, j: nat, x: Item)
    requires Run(states, events) && i <= j < |states|
    ensures x in states[i].refused || Completion(x, ShuttingDownAnswer) in states[i].completions ==> x !in states[j].applied
    ensures Completion(x, Replied) in states[i].completions ==> x in states[j].applied
  {
    hide OnePlaceEach, Bounded, StaysDrained, Awaited, Numbered, InOrder, Initial, Execution;
    RecordsOnlyGrow(states, events, i, j);
    RunsKeepInv(states, events, j);
    forall k | 0 <= k < |states[j].completions| && states[j].completions[k].item == x
      ensures Completed(states[j].completions, states[j].completions[k].answer, x) > 0
    {
      AnsweredIsCounted(states[j].completions, k);
    }
  }

  /** With any number of workers, each connection's requests are applied in the order they
      arrived and each at most once. */
  lemma ArrivalOrderIsKept(states: seq<State>, events: seq<Event>, k: nat, i: nat, j: nat)
    requires Run(states, events) && k < |states|
    requires i < j < |states[k].applied| && states[k].applied[i].conn == states[k].applied[j].conn
    ensures states[k].applied[i].serial < states[k].applied[j].serial
    ensures states[k].applied[i] in states[k].accepted
  {
    hide OnePlaceEach, Bounded, StaysDrained, Awaited, Numbered, Truthful, Initial, Execution;
    RunsKeepInv(states, events, k);
  }

  /** No thread holds a request: what stop waits for before it returns. */
  predicate Quiet(s: State) {
    && s.mutex.None? && s.queue == []
    && (forall w :: w in s.workers ==> w.IdleWorker? || w.Exited?)
    && (forall t :: t in s.stoppers ==> !t.Dropping?)
  }

  lemma {:induction false} QuietHoldsNothing(workers: seq<Worker>, applied: bool, x: Item)
    requires forall w :: w in workers ==> w.IdleWorker? || w.Exited?
    ensures Held(workers, applied, x) == 0
  {
    if workers != [] {
      assert workers[|workers| - 1] in workers;
      QuietHoldsNothing(workers[..|workers| - 1], applied, x);
    }
  }

  lemma {:induction false} QuietRemovesNothing(stoppers: seq<Stopper>, x: Item)
    requires forall t :: t in stoppers ==> !t.Dropping?
    ensures Removed(stoppers, x) == 0
  {
    if stoppers != [] {
      assert stoppers[|stoppers| - 1] in stoppers;
      QuietRemovesNothing(stoppers[..|stoppers| - 1], x);
    }
  }

  lemma {:induction false} CountedIsAnswered(completions: seq<Completion>, answer: Answer, x: Item)
    requires Completed(completions, answer, x) > 0
    ensures Completion(x, answer) in completions
  {
    var n := |completions| - 1;
    if completions[n] != Completion(x, answer) {
      CountedIsAnswered(completions[..n], answer, x);
    }
  }

  /** Nothing is lost: once every thread is at rest, each accepted request has been answered,
      with its reply when it was applied and as not applied otherwise, and the connection that
      waits for it can go on. */
  lemma NothingIsLost(states: seq<State>, events: seq<Event>, k: nat, x: Item)
    requires Run(states, events) && k < |states| && Quiet(states[k]) && x in states[k].accepted
    ensures Completion(x, if x in states[k].applied then Replied else ShuttingDownAnswer) in states[k].completions
    ensures forall c :: c in states[k].conns && states[k].conns[c].waiting == Some(x) ==> Enabled(states[k], Receive(c))
  {
    hide Bounded, StaysDrained, Awaited, Numbered, InOrder, Initial, Execution, Held, Removed, Completed;
    var s := states[k];
    RunsKeepInv(states, events, k);
    QuietHoldsNothing(s.workers, false, x);
    QuietHoldsNothing(s.workers, true, x);
    QuietRemovesNothing(s.stoppers, x);
    assert Places(s, x) == 1;
    CountedIsAnswered(s.completions, if x in s.applied then Replied else ShuttingDownAnswer, x);
  }

  // ---------------------------------------------------------------------------------
  // The queue in place
  // ---------------------------------------------------------------------------------

  /** What a worker thread finds when it holds the queue mutex. */
  datatype Pickup = Work(item: Item) | LeaveLoop | WaitAgain

  /** The shared state the threads mutate. Each method is one critical section, or the stretch of
      a thread between two of them. */
  class IngestQueue {
    const bound: nat
    var stopping: bool
    var mutex: Option<Item>
    var queue: seq<Item>
    var conns: map<ConnId, Conn>
    var workers: seq<Worker>
    var stoppers: seq<Stopper>
    var applied: seq<Item>
    var completions: seq<Completion>
    var refused: seq<Item>
    var accepted: seq<Item>

    ghost function Abs(): State
      reads this
    {
      State(bound, stopping, mutex, queue, conns, workers, stoppers, applied, completions, refused, accepted)
    }

    constructor (depth: nat, threads: nat)
      ensures Abs() == Initial(depth, threads)
    {
      bound, stopping, mutex, queue, conns := depth, false, None, [], map[];
      workers, stoppers := seq(threads, i => IdleWorker), [];
      applied, completions, refused, accepted := [], [], [], [];
    }

    method Open(conn: ConnId)
      requires Enabled(Abs(), Connect(conn))
      modifies this
      ensures Abs() == Step(old(Abs()), Connect(conn))
    {
      conns := conns[conn := Conn(0, None)];
    }

    /** The connection thread's test under the mutex. On success it still holds the mutex. */
    method TryEnqueue(conn: ConnId) returns (queued: bool)
      requires Enabled(Abs(), Check(conn))
      modifies this
      ensures Abs() == Step(old(Abs()), Check(conn))
      ensures queued <==> |old(queue)| < bound && !old(stopping)
      ensures queued <==> mutex == Some(Item(conn, old(conns[conn].serial)))
    {
      var serial := conns[conn].serial;
      var item := Item(conn, serial);
      queued := |queue| < bound && !stopping;
      if queued {
        mutex, accepted := Some(item), accepted + [item];
        conns := conns[conn := Conn(serial, Some(item))];
      } else {
        refused := refused + [item];
        conns := conns[conn := Conn(serial + 1, None)];
      }
    }

    /** Appends the item and releases the mutex. */
    method PushBack()
      requires Enabled(Abs(), Push)
      modifies this
      ensures Abs() == Step(old(Abs()), Push)
    {
      queue := queue + [mutex.value];
      mutex := None;
    }

    /** The connection thread's wait ends once its promise is fulfilled; it reads on. */
    method TakeReply(conn: ConnId)
      requires Enabled(Abs(), Receive(conn))
      modifies this
      ensures Abs() == Step(old(Abs()), Receive(conn))
    {
      conns := conns[conn := Conn(conns[conn].serial + 1, None)];
    }

    method PopFront() returns (item: Item)
      requires queue != []
      modifies `queue
      ensures [item] + queue == old(queue)
    {
      item := queue[0];
      queue := queue[1..];
    }

    /** A worker's turn at the queue: it takes the oldest item, leaves its loop when the
        coordinator stops and nothing is queued, and goes back to waiting otherwise. */
    method TakeWork(worker: nat) returns (pickup: Pickup)
      requires mutex.None? && worker < |workers| && workers[worker].IdleWorker?
      modifies this
      ensures pickup.Work? <==> old(queue) != []
      ensures pickup.LeaveLoop? <==> old(queue) == [] && old(stopping)
      ensures pickup.Work? ==> Enabled(old(Abs()), Take(worker)) && Abs() == Step(old(Abs()), Take(worker))
      ensures pickup.Work? ==> workers[worker] == Holding(pickup.item) && old(queue) == [pickup.item] + queue
      ensures pickup.LeaveLoop? ==> Enabled(old(Abs()), Exit(worker)) && Abs() == Step(old(Abs()), Exit(worker))
      ensures pickup.WaitAgain? ==> Abs() == old(Abs())
    {
      if queue == [] {
        if stopping {
          workers := workers[worker := Exited];
          return LeaveLoop;
        }
        return WaitAgain;
      }
      var item := PopFront();
      workers := workers[worker := Holding(item)];
      return Work(item);
    }

    method ApplyWork(worker: nat)
      requires Enabled(Abs(), Dispatch(worker))
      modifies this
      ensures Abs() == Step(old(Abs()), Dispatch(worker))
    {
      var item := workers[worker].item;
      applied := applied + [item];
      workers := workers[worker := Answering(item)];
    }

    method AnswerWork(worker: nat)
      requires Enabled(Abs(), Fulfil(worker))
      modifies this
      ensures Abs() == Step(old(Abs()), Fulfil(worker))
    {
      completions := completions + [Completion(workers[worker].item, Replied)];
      workers := workers[worker := IdleWorker];
    }

    /** Sets the stop flag, outside the mutex. */
    method BeginStop() returns (stopper: nat)
      modifies this
      ensures Abs() == Step(old(Abs()), Stop) && stopper == |old(stoppers)|
    {
      stopper := |stoppers|;
      stopping := true;
      stoppers := stoppers + [Draining];
    }

    /** One round of the stopping thread's loop at the queue: none when the queue is empty. */
    method TakeLeftover(stopper: nat) returns (leftover: Option<Item>)
      requires mutex.None? && stopper < |stoppers| && stoppers[stopper].Draining?
      modifies this
      ensures leftover.None? <==> old(queue) == []
      ensures var e := if leftover.None? then SeeEmpty(stopper) else StopperTake(stopper);
              Enabled(old(Abs()), e) && Abs() == Step(old(Abs()), e)
      ensures leftover.Some? ==> stoppers[stopper] == Dropping(leftover.value)
    {
      if queue == [] {
        stoppers := stoppers[stopper := Drained];
        return None;
      }
      var item := PopFront();
      stoppers := stoppers[stopper := Dropping(item)];
      return Some(item);
    }

    method AnswerLeftover(stopper: nat)
      requires Enabled(Abs(), StopperFulfil(stopper))
      modifies this
      ensures Abs() == Step(old(Abs()), StopperFulfil(stopper))
    {
      completions := completions + [Completion(stoppers[stopper].item, ShuttingDownAnswer)];
      stoppers := stoppers[stopper := Draining];
    }

    /** The loop of stop: it answers everything still queued, oldest first, when no other thread
        runs; with others running each round is one of the steps above. */
    method DrainLeftovers(stopper: nat)
      requires mutex.None? && stopper < |stoppers| && stoppers[stopper].Draining?
      modifies this
      ensures queue == [] && stoppers == old(stoppers)[stopper := Drained]
      ensures completions == old(completions) + Dropped(old(queue))
      ensures applied == old(applied) && workers == old(workers) && accepted == old(accepted)
    {
      ghost var all, before := queue, completions;
      while true
        invariant mutex.None? && |stoppers| == |old(stoppers)| && stoppers == old(stoppers)
        invariant applied == old(applied) && workers == old(workers) && accepted == old(accepted)
        invariant before + Dropped(all) == completions + Dropped(queue)
        decreases |queue|
      {
        var leftover := TakeLeftover(stopper);
        if leftover.None? {
          assert completions + Dropped(queue) == completions;
          return;
        }
        AnswerLeftover(stopper);
        assert completions + Dropped(queue) ==
               completions[..|completions| - 1] + ([Completion(leftover.value, ShuttingDownAnswer)] + Dropped(queue));
      }
    }
  }

  /** The answers that tell each request in turn that it was not applied. */
  function Dropped(queue: seq<Item>): (r: seq<Completion>)
    ensures |r| == |queue|
    ensures forall i :: 0 <= i < |queue| ==> r[i] == Completion(queue[i], ShuttingDownAnswer)
  {
    if queue == [] then [] else [Completion(queue[0], ShuttingDownAnswer)] + Dropped(queue[1..])
  }
}
