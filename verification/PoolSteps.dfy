/** Every step of every thread of the pool keeps the invariant. */
module PoolSteps {
  import opened Wrappers
  import opened RingQueue
  import opened ThreadPool
  import opened PoolInvariant

  // What the place of a thread says about its next operation.

  /** The mutex that has to be held for an operation. */
  predicate Guarded(op: Op, m: Mutex) {
    match op
    case Unlock(n) => n == m
    case TakeTask => m == TasksMutex
    case PutTask(_, _) => m == TasksMutex
    case BroadcastWorkers => m == TasksMutex
    case TakeFree => m == FreeMutex
    case PutFree(_) => m == FreeMutex
    case BroadcastProducers => m == FreeMutex
    case _ => false
  }

  /** Whether a thread that held `m` or not holds it after an operation. */
  function HeldAfter(op: Op, m: Mutex, held: bool): bool {
    if op == Lock(m) then true else if op == Unlock(m) then false else held
  }

  lemma WorkerLocks(p: Pool, w: WorkerAt, m: Mutex)
    requires WorkerOp(p, w) != Blocked
    ensures WorkerHolds(WorkerNext(p, w), m) == HeldAfter(WorkerOp(p, w), m, WorkerHolds(w, m))
    ensures Guarded(WorkerOp(p, w), m) ==> WorkerHolds(w, m)
  {
  }

  lemma ProducerLocks(p: Pool, w: ProducerAt, m: Mutex)
    requires ProducerOp(p, w) != Blocked
    ensures ProducerHolds(ProducerNext(p, w), m) == HeldAfter(ProducerOp(p, w), m, ProducerHolds(w, m))
    ensures Guarded(ProducerOp(p, w), m) ==> ProducerHolds(w, m)
  {
  }

  lemma StopperLocks(p: Pool, m: Mutex)
    requires StopperOp(p) != Blocked
    ensures StopperHolds(StopperNext(p), m) == HeldAfter(StopperOp(p), m, StopperHolds(p.stopper, m))
    ensures Guarded(StopperOp(p), m) ==> StopperHolds(p.stopper, m)
  {
  }

  lemma WorkerReady(p: Pool, i: nat)
    requires Rings(p) && Cells(p) && i < |p.workers| && WorkerKnows(p, p.workers[i])
    ensures Ready(p, WorkerOp(p, p.workers[i]))
    ensures Carries(p, WorkerOp(p, p.workers[i]), WorkerSlot(p.workers[i]), WorkerSlot(WorkerNext(p, p.workers[i])))
  {
    hide Cells, Contents, RingOk, Sum, Enqueue, Dequeue;
    var x := WorkerSlot(p.workers[i]);
    if x != None {
      SumPart(p.workers, i, x.value, WorkerSlot);
      InHands(p, x.value);
      EnqueueIs(p.free, x.value);
    }
    DequeueIs(p.tasks);
  }

  lemma ProducerReady(p: Pool, i: nat)
    requires Rings(p) && Cells(p) && i < |p.producers| && ProducerKnows(p, p.producers[i])
    ensures Ready(p, ProducerOp(p, p.producers[i]))
    ensures Carries(p, ProducerOp(p, p.producers[i]),
                    ProducerSlot(p.producers[i]), ProducerSlot(ProducerNext(p, p.producers[i])))
  {
    var x := ProducerSlot(p.producers[i]);
    if x != None {
      SumPart(p.producers, i, x.value, ProducerSlot);
      InHands(p, x.value);
      EnqueueIs(p.tasks, x.value);
    }
    DequeueIs(p.free);
  }

  lemma StopperReady(p: Pool)
    requires Rings(p)
    ensures Ready(p, StopperOp(p)) && Carries(p, StopperOp(p), None, None)
  {
  }

  // Threads an operation does not belong to.

  /** An operation moves no thread but those it wakes, and changes a lock only by locking or unlocking it. */
  lemma Elsewhere(p: Pool, t: Thread, op: Op)
    requires Apply(p, t, op).Some?
    ensures var q := Apply(p, t, op).value;
            && q.stopper == p.stopper && q.stop == p.stop
            && q.workers == (if op == BroadcastWorkers then WakeWorkers(p.workers) else p.workers)
            && q.producers == (if op == BroadcastProducers then WakeProducers(p.producers) else p.producers)
            && (forall m :: op == Lock(m) ==> Owner(p, m) == None)
            && (forall m :: Owner(q, m) ==
                  if op == Lock(m) then Some(t) else if op == Unlock(m) then None else Owner(p, m))
  {
  }

  lemma Alone(p: Pool, t: Thread, u: Thread, m: Mutex)
    requires Locks(p) && Holds(p, t, m) && Holds(p, u, m)
    ensures t == u
  {
    assert Owner(p, m) == Some(t) && Owner(p, m) == Some(u);
  }

  /** A thread that goes on is one of the pool, and was not waiting. */
  lemma GoesOn(p: Pool, t: Thread)
    requires StepOf(p, t).Some?
    ensures OpOf(p, t) != Blocked
    ensures t.Worker? ==> t.worker < |p.workers|
    ensures t.Producer? ==> t.producer < |p.producers|
  {
  }

  /** What the thread of a step holds after it. */
  lemma OwnHolds(p: Pool, t: Thread, m: Mutex)
    requires StepOf(p, t).Some?
    ensures Holds(StepOf(p, t).value, t, m) == HeldAfter(OpOf(p, t), m, Holds(p, t, m))
    ensures Guarded(OpOf(p, t), m) ==> Holds(p, t, m)
  {
    hide Apply, WorkerOp, WorkerNext, ProducerOp, ProducerNext, StopperOp, StopperNext;
    hide WorkerHolds, ProducerHolds, StopperHolds;
    GoesOn(p, t);
    Elsewhere(p, t, OpOf(p, t));
    match t {
      case Worker(i) => WorkerLocks(p, p.workers[i], m);
      case Producer(i) => ProducerLocks(p, p.producers[i], m);
      case Stopper => StopperLocks(p, m);
    }
  }

  /** Waking the threads that wait changes nothing of what the threads hold. */
  lemma WakingHolds(p: Pool, q: Pool, u: Thread, m: Mutex)
    requires q.stopper == p.stopper
    requires q.workers == p.workers || q.workers == WakeWorkers(p.workers)
    requires q.producers == p.producers || q.producers == WakeProducers(p.producers)
    ensures Holds(q, u, m) == Holds(p, u, m)
  {
  }

  /** The other threads hold what they held. */
  lemma OthersHold(p: Pool, t: Thread, u: Thread, m: Mutex)
    requires StepOf(p, t).Some? && u != t
    ensures Holds(StepOf(p, t).value, u, m) == Holds(p, u, m)
  {
    hide Apply, OpOf, WorkerNext, ProducerNext, StopperNext, WorkerHolds, ProducerHolds, StopperHolds;
    hide WakeWorkers, WakeProducers;
    var q := Apply(p, t, OpOf(p, t)).value;
    Elsewhere(p, t, OpOf(p, t));
    WakingHolds(p, q, u, m);
  }

  lemma LocksByStep(p: Pool, t: Thread)
    requires Locks(p) && StepOf(p, t).Some?
    ensures Locks(StepOf(p, t).value)
  {
    hide Holds, OpOf, Apply, MoveOn;
    var q := StepOf(p, t).value;
    forall u, m
      ensures Holds(q, u, m) <==> Owner(q, m) == Some(u)
    {
      assert Holds(p, u, m) <==> Owner(p, m) == Some(u);
      assert Holds(p, t, m) <==> Owner(p, m) == Some(t);
      OwnHolds(p, t, m);
      OwnerAfter(p, t, m);
      if u != t {
        OthersHold(p, t, u, m);
      }
    }
  }

  lemma OwnerAfter(p: Pool, t: Thread, m: Mutex)
    requires StepOf(p, t).Some?
    ensures var op := OpOf(p, t);
            && (op == Lock(m) ==> Owner(p, m) == None)
            && Owner(StepOf(p, t).value, m)
               == if op == Lock(m) then Some(t) else if op == Unlock(m) then None else Owner(p, m)
  {
    hide Apply, OpOf, WorkerNext, ProducerNext, StopperNext;
    Elsewhere(p, t, OpOf(p, t));
  }

  // Cells.

  lemma Seated<T>(s: seq<T>, i: nat, x: T, f: T -> Option<nat>, a: multiset<nat>, b: multiset<nat>)
    requires i < |s| && b + Bag(f(x)) == a + Bag(f(s[i]))
    ensures b + Sum(s[i := x], f) == a + Sum(s, f)
  {
    SumUpdate(s, i, x, f);
    Exchange(a, b, Sum(s, f), Sum(s[i := x], f), Bag(f(s[i])), Bag(f(x)));
  }

  lemma SameHands(p: Pool, t: Thread, op: Op)
    requires Apply(p, t, op).Some?
    ensures Sum(Apply(p, t, op).value.workers, WorkerSlot) == Sum(p.workers, WorkerSlot)
    ensures Sum(Apply(p, t, op).value.producers, ProducerSlot) == Sum(p.producers, ProducerSlot)
    ensures Sum(Apply(p, t, op).value.workers, WorkerTicket) == Sum(p.workers, WorkerTicket)
  {
    var q := Apply(p, t, op).value;
    Elsewhere(p, t, op);
    SumSame(p.workers, q.workers, WorkerSlot);
    SumSame(p.producers, q.producers, ProducerSlot);
    SumSame(p.workers, q.workers, WorkerTicket);
  }

  lemma Reorder(a: multiset<nat>, b: multiset<nat>, w: multiset<nat>, x: multiset<nat>, y: multiset<nat>)
    requires b + y == a + x
    ensures b + w + y == a + w + x
  {
    assert b + w + y == (b + y) + w;
    assert a + w + x == (a + x) + w;
  }

  lemma WorkerSeated(p: Pool, q: Pool, i: nat, w: WorkerAt)
    requires Rings(p) && Rings(q) && Cells(p) && |q.slots| == |p.slots|
    requires i < |q.workers| == |p.workers| && WorkerSlot(q.workers[i]) == WorkerSlot(p.workers[i])
    requires Resting(q) + Bag(WorkerSlot(w)) == Resting(p) + Bag(WorkerSlot(p.workers[i]))
    requires Sum(q.workers, WorkerSlot) == Sum(p.workers, WorkerSlot)
    requires Sum(q.producers, ProducerSlot) == Sum(p.producers, ProducerSlot)
    ensures Rings(MoveWorker(q, i, w)) && Cells(MoveWorker(q, i, w))
  {
    Seated(q.workers, i, w, WorkerSlot, Resting(p), Resting(q));
  }

  lemma ProducerSeated(p: Pool, q: Pool, i: nat, w: ProducerAt)
    requires Rings(p) && Rings(q) && Cells(p) && |q.slots| == |p.slots|
    requires i < |q.producers| == |p.producers| && ProducerSlot(q.producers[i]) == ProducerSlot(p.producers[i])
    requires Resting(q) + Bag(ProducerSlot(w)) == Resting(p) + Bag(ProducerSlot(p.producers[i]))
    requires Sum(q.workers, WorkerSlot) == Sum(p.workers, WorkerSlot)
    requires Sum(q.producers, ProducerSlot) == Sum(p.producers, ProducerSlot)
    ensures Rings(MoveProducer(q, i, w)) && Cells(MoveProducer(q, i, w))
  {
    Seated(q.producers, i, w, ProducerSlot, Resting(p), Resting(q));
    Reorder(Resting(p), Resting(q), Sum(p.workers, WorkerSlot), Sum(p.producers, ProducerSlot),
            Sum(MoveProducer(q, i, w).producers, ProducerSlot));
  }

  lemma CellsByWorker(p: Pool, i: nat)
    requires Rings(p) && Cells(p) && Known(p) && StepOf(p, Worker(i)).Some?
    ensures Rings(StepOf(p, Worker(i)).value) && Cells(StepOf(p, Worker(i)).value)
  {
    hide RingOk, Contents, Cells, Resting, Sum;
    GoesOn(p, Worker(i));
    var w := p.workers[i];
    var op := WorkerOp(p, w);
    WorkerReady(p, i);
    Elsewhere(p, Worker(i), op);
    SameHands(p, Worker(i), op);
    CellsApplied(p, Worker(i), op, WorkerSlot(w), WorkerSlot(WorkerNext(p, w)));
    WorkerSeated(p, Apply(p, Worker(i), op).value, i, WorkerNext(p, w));
  }

  lemma CellsByProducer(p: Pool, i: nat)
    requires Rings(p) && Cells(p) && Known(p) && StepOf(p, Producer(i)).Some?
    ensures Rings(StepOf(p, Producer(i)).value) && Cells(StepOf(p, Producer(i)).value)
  {
    hide RingOk, Contents, Cells, Resting, Sum;
    GoesOn(p, Producer(i));
    var w := p.producers[i];
    var op := ProducerOp(p, w);
    ProducerReady(p, i);
    Elsewhere(p, Producer(i), op);
    SameHands(p, Producer(i), op);
    CellsApplied(p, Producer(i), op, ProducerSlot(w), ProducerSlot(ProducerNext(p, w)));
    ProducerSeated(p, Apply(p, Producer(i), op).value, i, ProducerNext(p, w));
  }

  lemma StopperSeated(p: Pool, q: Pool, w: StopperAt)
    requires Rings(p) && Rings(q) && Cells(p) && |q.slots| == |p.slots| && Resting(q) == Resting(p)
    requires Sum(q.workers, WorkerSlot) == Sum(p.workers, WorkerSlot)
    requires Sum(q.producers, ProducerSlot) == Sum(p.producers, ProducerSlot)
    ensures Rings(q.(stopper := w)) && Cells(q.(stopper := w))
  {
  }

  lemma CellsByStopper(p: Pool)
    requires Rings(p) && Cells(p) && StepOf(p, Stopper).Some?
    ensures Rings(StepOf(p, Stopper).value) && Cells(StepOf(p, Stopper).value)
  {
    var q := Apply(p, Stopper, StopperOp(p)).value;
    StopperReady(p);
    SameHands(p, Stopper, StopperOp(p));
    CellsApplied(p, Stopper, StopperOp(p), None, None);
    assert Resting(q) + Bag(None) == Resting(q) && Resting(p) + Bag(None) == Resting(p);
    StopperSeated(p, q, StopperNext(p));
  }

  lemma CellsByStep(p: Pool, t: Thread)
    requires Rings(p) && Cells(p) && Known(p) && StepOf(p, t).Some?
    ensures Rings(StepOf(p, t).value) && Cells(StepOf(p, t).value)
  {
    match t
    case Worker(i) => CellsByWorker(p, i);
    case Producer(i) => CellsByProducer(p, i);
    case Stopper => CellsByStopper(p);
  }

  // Jobs.

  lemma StepReady(p: Pool, t: Thread)
    requires Rings(p) && Cells(p) && Known(p)
    ensures Ready(p, OpOf(p, t))
  {
    match t
    case Worker(i) => if i < |p.workers| { WorkerReady(p, i); }
    case Producer(i) => if i < |p.producers| { ProducerReady(p, i); }
    case Stopper => StopperReady(p);
  }

  lemma JobsByStep(p: Pool, t: Thread)
    requires Rings(p) && Cells(p) && Known(p) && Jobs(p) && StepOf(p, t).Some?
    ensures Rings(StepOf(p, t).value) && Jobs(StepOf(p, t).value)
  {
    StepReady(p, t);
    JobsApplied(p, t, OpOf(p, t));
  }

  /** How an operation changes the jobs handled and lost cells. */
  lemma Handles(p: Pool, t: Thread, op: Op)
    requires Apply(p, t, op).Some?
    ensures var q := Apply(p, t, op).value;
            && q.handled == (if op.Run? then p.handled + [Handled(op.ticket, Fetch(p.slots, op.cell))] else p.handled)
            && |q.lost| == |p.lost| + (if op.Run? && Fetch(p.slots, op.cell).routine == None then 1 else 0)
            && (!op.TakeTask? ==> q.served == p.served)
  {
  }

  lemma LossesByStep(p: Pool, t: Thread)
    requires |p.lost| == NullCalls(p.handled) && StepOf(p, t).Some?
    ensures |StepOf(p, t).value.lost| == NullCalls(StepOf(p, t).value.handled)
  {
    hide Apply, OpOf, WorkerNext, ProducerNext, StopperNext;
    var op := OpOf(p, t);
    Handles(p, t, op);
    if op.Run? {
      var h := p.handled + [Handled(op.ticket, Fetch(p.slots, op.cell))];
      assert h[..|h| - 1] == p.handled;
    }
  }

  /** The ticket a worker holds before and after its step. */
  lemma WorkerTickets(p: Pool, w: WorkerAt)
    requires WorkerKnows(p, w) && Rings(p)
    ensures var op := WorkerOp(p, w); var a := WorkerTicket(w); var b := WorkerTicket(WorkerNext(p, w));
            if op.TakeTask? then a == None && b == Some(|p.served|) && Dequeue(p.tasks).1 != None
            else if op.Run? then a == Some(op.ticket) && b == None else a == b
  {
    DequeueIs(p.tasks);
  }

  lemma TicketTaken(handled: seq<Handled>, ws: seq<WorkerAt>, i: nat, w: WorkerAt, k: nat)
    requires TicketsOk(handled, ws, k) && i < |ws| && WorkerTicket(ws[i]) == None && WorkerTicket(w) == Some(k)
    ensures TicketsOk(handled, ws[i := w], k + 1)
  {
    SumUpdate(ws, i, w, WorkerTicket);
    UpToNext(k);
    var h, s, s' := Sum(handled, HandledTicket), Sum(ws, WorkerTicket), Sum(ws[i := w], WorkerTicket);
    assert s' == s' + Bag(None) == s + multiset{k};
    assert h + (s + multiset{k}) == (h + s) + multiset{k};
  }

  lemma TicketHandled(handled: seq<Handled>, h: Handled, ws: seq<WorkerAt>, i: nat, w: WorkerAt, k: nat)
    requires TicketsOk(handled, ws, k) && i < |ws|
    requires WorkerTicket(ws[i]) == HandledTicket(h) && WorkerTicket(w) == None
    ensures TicketsOk(handled + [h], ws[i := w], k)
  {
    SumUpdate(ws, i, w, WorkerTicket);
    SumSnoc(handled, h, HandledTicket);
    Exchange(Sum(handled, HandledTicket), Sum(handled + [h], HandledTicket),
             Sum(ws, WorkerTicket), Sum(ws[i := w], WorkerTicket), Bag(Some(h.ticket)), Bag(None));
  }

  lemma TicketsKept(handled: seq<Handled>, ws: seq<WorkerAt>, vs: seq<WorkerAt>, k: nat)
    requires TicketsOk(handled, ws, k) && |vs| == |ws|
    requires forall i :: 0 <= i < |ws| ==> WorkerTicket(vs[i]) == WorkerTicket(ws[i])
    ensures TicketsOk(handled, vs, k)
  {
    SumSame(ws, vs, WorkerTicket);
  }

  lemma TicketsByWorker(p: Pool, i: nat)
    requires Rings(p) && Known(p) && Tickets(p) && StepOf(p, Worker(i)).Some?
    ensures Tickets(StepOf(p, Worker(i)).value)
  {
    hide TicketsOk;
    var w := p.workers[i];
    var op := WorkerOp(p, w);
    var n := WorkerNext(p, w);
    WorkerTickets(p, w);
    Handles(p, Worker(i), op);
    Elsewhere(p, Worker(i), op);
    if op.TakeTask? {
      TicketTaken(p.handled, p.workers, i, n, |p.served|);
    } else if op.Run? {
      TicketHandled(p.handled, Handled(op.ticket, Fetch(p.slots, op.cell)), p.workers, i, n, |p.served|);
    } else {
      TicketsKept(p.handled, p.workers, p.workers[i := n], |p.served|);
    }
  }

  lemma TicketsByStep(p: Pool, t: Thread)
    requires Rings(p) && Known(p) && Tickets(p) && StepOf(p, t).Some?
    ensures Tickets(StepOf(p, t).value)
  {
    hide TicketsOk;
    if t.Worker? {
      TicketsByWorker(p, t.worker);
    } else {
      Handles(p, t, OpOf(p, t));
      Elsewhere(p, t, OpOf(p, t));
      TicketsKept(p.handled, p.workers, StepOf(p, t).value.workers, |p.served|);
    }
  }

  // What threads know.

  lemma StepGuard(p: Pool, t: Thread, m: Mutex)
    requires Guarded(OpOf(p, t), m)
    ensures Holds(p, t, m)
  {
    match t
    case Worker(i) => WorkerLocks(p, p.workers[i], m);
    case Producer(i) => ProducerLocks(p, p.producers[i], m);
    case Stopper => StopperLocks(p, m);
  }

  lemma WorkerStillKnows(p: Pool, t: Thread, op: Op, w: WorkerAt)
    requires WorkerKnows(p, w) && Apply(p, t, op).Some?
    requires Guarded(op, TasksMutex) ==> !WorkerHolds(w, TasksMutex)
    requires op.Write? ==> WorkerSlot(w) != Some(op.cell)
    ensures WorkerKnows(Apply(p, t, op).value, w)
  {
  }

  lemma ProducerStillKnows(p: Pool, t: Thread, op: Op, w: ProducerAt)
    requires ProducerKnows(p, w) && Apply(p, t, op).Some?
    requires Guarded(op, FreeMutex) ==> !ProducerHolds(w, FreeMutex)
    requires op.Write? ==> ProducerSlot(w) != Some(op.cell)
    ensures ProducerKnows(Apply(p, t, op).value, w)
  {
  }

  lemma WorkerLearns(p: Pool, t: Thread, w: WorkerAt)
    requires Rings(p) && WorkerKnows(p, w) && Ready(p, WorkerOp(p, w)) && Apply(p, t, WorkerOp(p, w)).Some?
    ensures WorkerKnows(Apply(p, t, WorkerOp(p, w)).value, WorkerNext(p, w))
  {
    hide RingOk, Contents;
    DequeueIs(p.tasks);
    if w.GiveBack? { EnqueueIs(p.free, w.slot); }
  }

  lemma ProducerLearns(p: Pool, t: Thread, w: ProducerAt)
    requires Rings(p) && ProducerKnows(p, w) && Ready(p, ProducerOp(p, w)) && Apply(p, t, ProducerOp(p, w)).Some?
    ensures ProducerKnows(Apply(p, t, ProducerOp(p, w)).value, ProducerNext(p, w))
  {
    hide RingOk, Contents;
    DequeueIs(p.free);
    if w.Put? { EnqueueIs(p.tasks, w.slot); }
  }

  /** The cell a thread writes is in no other thread's hands. */
  lemma OwnCell(p: Pool, t: Thread)
    requires Rings(p) && Cells(p) && OpOf(p, t).Write?
    ensures forall j :: 0 <= j < |p.workers| && t != Worker(j) ==> WorkerSlot(p.workers[j]) != Some(OpOf(p, t).cell)
    ensures forall j :: 0 <= j < |p.producers| && t != Producer(j) ==>
              ProducerSlot(p.producers[j]) != Some(OpOf(p, t).cell)
  {
    hide Cells, Rings;
    var s := OpOf(p, t).cell;
    match t {
      case Worker(i) =>
        assert WorkerSlot(p.workers[i]) == Some(s);
        forall j | 0 <= j < |p.workers| && j != i ensures WorkerSlot(p.workers[j]) != Some(s) {
          if WorkerSlot(p.workers[j]) == Some(s) { WorkersApart(p, i, j, s); }
        }
        forall j | 0 <= j < |p.producers| ensures ProducerSlot(p.producers[j]) != Some(s) {
          WorkerProducerApart(p, i, j, s);
        }
      case Producer(i) =>
        assert ProducerSlot(p.producers[i]) == Some(s);
        forall j | 0 <= j < |p.workers| ensures WorkerSlot(p.workers[j]) != Some(s) {
          if WorkerSlot(p.workers[j]) == Some(s) { WorkerProducerApart(p, j, i, s); }
        }
        forall j | 0 <= j < |p.producers| && j != i ensures ProducerSlot(p.producers[j]) != Some(s) {
          if ProducerSlot(p.producers[j]) == Some(s) { ProducersApart(p, i, j, s); }
        }
      case Stopper =>
    }
  }

  lemma WorkersKnow(p: Pool, t: Thread, j: nat)
    requires Rings(p) && Cells(p) && Known(p) && Locks(p) && j < |p.workers| && StepOf(p, t).Some?
    ensures var q := StepOf(p, t).value; j < |q.workers| && WorkerKnows(q, q.workers[j])
  {
    hide Cells, Rings;
    var op, w := OpOf(p, t), p.workers[j];
    StepReady(p, t);
    Elsewhere(p, t, op);
    if t == Worker(j) {
      WorkerLearns(p, t, w);
    } else {
      if Guarded(op, TasksMutex) && WorkerHolds(w, TasksMutex) {
        StepGuard(p, t, TasksMutex);
        Alone(p, t, Worker(j), TasksMutex);
      }
      if op.Write? { OwnCell(p, t); }
      WorkerStillKnows(p, t, op, w);
    }
  }

  lemma ProducersKnow(p: Pool, t: Thread, j: nat)
    requires Rings(p) && Cells(p) && Known(p) && Locks(p) && j < |p.producers| && StepOf(p, t).Some?
    ensures var q := StepOf(p, t).value; j < |q.producers| && ProducerKnows(q, q.producers[j])
  {
    hide Cells, Rings;
    var op, w := OpOf(p, t), p.producers[j];
    StepReady(p, t);
    Elsewhere(p, t, op);
    if t == Producer(j) {
      ProducerLearns(p, t, w);
    } else {
      if Guarded(op, FreeMutex) && ProducerHolds(w, FreeMutex) {
        StepGuard(p, t, FreeMutex);
        Alone(p, t, Producer(j), FreeMutex);
      }
      if op.Write? { OwnCell(p, t); }
      ProducerStillKnows(p, t, op, w);
    }
  }

  lemma KnownByStep(p: Pool, t: Thread)
    requires Rings(p) && Cells(p) && Known(p) && Locks(p) && StepOf(p, t).Some?
    ensures Known(StepOf(p, t).value)
  {
    hide Cells, Rings, WorkerKnows, ProducerKnows;
    var q := StepOf(p, t).value;
    Elsewhere(p, t, OpOf(p, t));
    forall j | 0 <= j < |q.workers| ensures WorkerKnows(q, q.workers[j]) { WorkersKnow(p, t, j); }
    forall j | 0 <= j < |q.producers| ensures ProducerKnows(q, q.producers[j]) { ProducersKnow(p, t, j); }
  }

  // Wake-ups.

  /** Without the mutex a thread changes neither the queue it guards nor the mutex while it is taken. */
  lemma Unguarded(p: Pool, t: Thread, op: Op, m: Mutex)
    requires Apply(p, t, op).Some? && !Guarded(op, m)
    ensures var q := Apply(p, t, op).value;
            && (m == TasksMutex ==> q.tasks == p.tasks)
            && (m == FreeMutex ==> q.free == p.free)
            && (Owner(p, m) != None ==> Owner(q, m) == Owner(p, m))
  {
  }

  lemma Owned(p: Pool, t: Thread, m: Mutex)
    requires Locks(p) && Holds(p, t, m)
    ensures Owner(p, m) == Some(t)
  {
  }

  /** A wake-up announced stays announced until it is made. */
  lemma StillTells(p: Pool, t: Thread, u: nat)
    requires Locks(p) && TellsWorkers(p) && p.taskLock == Some(Producer(u)) && t != Producer(u) && StepOf(p, t).Some?
    ensures TellsWorkers(StepOf(p, t).value)
  {
    hide Locks;
    var op := OpOf(p, t);
    if Guarded(op, TasksMutex) {
      StepGuard(p, t, TasksMutex);
      Alone(p, t, Producer(u), TasksMutex);
    }
    Unguarded(p, t, op, TasksMutex);
    Elsewhere(p, t, op);
  }

  lemma FillingOps(p: Pool, t: Thread)
    requires StepOf(p, t).Some?
    ensures p.tasks.num == 0 && StepOf(p, t).value.tasks.num > 0 ==> OpOf(p, t).PutTask?
    ensures p.free.num == 0 && StepOf(p, t).value.free.num > 0 ==> OpOf(p, t).PutFree?
  {
    hide OpOf, WorkerNext, ProducerNext, StopperNext, Enqueue, WakeWorkers, WakeProducers, Store;
  }

  /** Only a producer about to put its task fills the empty task queue. */
  lemma FilledByPut(p: Pool, t: Thread)
    requires p.tasks.num == 0 && StepOf(p, t).Some? && StepOf(p, t).value.tasks.num > 0
    ensures OpOf(p, t).PutTask? && t.Producer? && t.producer < |p.producers| && p.producers[t.producer].Put?
  {
    hide StepOf;
    FillingOps(p, t);
  }

  /** The first task put into an empty queue is announced. */
  lemma FirstTells(p: Pool, t: Thread)
    requires Locks(p) && p.tasks.num == 0 && StepOf(p, t).Some? && StepOf(p, t).value.tasks.num > 0
    ensures TellsWorkers(StepOf(p, t).value)
  {
    hide Locks, WorkerOp, WorkerNext, StopperOp, StopperNext;
    FilledByPut(p, t);
    Owned(p, t, TasksMutex);
  }

  lemma WorkerWakeupsByStep(p: Pool, t: Thread)
    requires Locks(p) && Known(p) && WorkerWakeups(p) && StepOf(p, t).Some?
    ensures WorkerWakeups(StepOf(p, t).value)
  {
    hide Locks;
    var op, q := OpOf(p, t), StepOf(p, t).value;
    Elsewhere(p, t, op);
    if p.tasks.num == 0 && q.tasks.num > 0 {
      FirstTells(p, t);
    } else if TellsWorkers(p) && t != p.taskLock.value {
      StillTells(p, t, p.taskLock.value.producer);
    } else if q.tasks.num > 0 && op != BroadcastWorkers {
      forall j | 0 <= j < |q.workers| ensures !q.workers[j].AwaitTasks? {
        assert WorkerKnows(p, p.workers[j]) && !p.workers[j].AwaitTasks?;
      }
    }
  }

  lemma StillTellsProducers(p: Pool, t: Thread, u: nat)
    requires Locks(p) && TellsProducers(p) && p.freeLock == Some(Worker(u)) && t != Worker(u) && StepOf(p, t).Some?
    ensures TellsProducers(StepOf(p, t).value)
  {
    hide Locks;
    var op := OpOf(p, t);
    if Guarded(op, FreeMutex) {
      StepGuard(p, t, FreeMutex);
      Alone(p, t, Worker(u), FreeMutex);
    }
    Unguarded(p, t, op, FreeMutex);
    Elsewhere(p, t, op);
  }

  /** Only a worker about to give its cell back fills the empty queue of free cells. */
  lemma FilledByGiveBack(p: Pool, t: Thread)
    requires p.free.num == 0 && StepOf(p, t).Some? && StepOf(p, t).value.free.num > 0
    ensures OpOf(p, t).PutFree? && t.Worker? && t.worker < |p.workers| && p.workers[t.worker].GiveBack?
  {
    hide StepOf;
    FillingOps(p, t);
  }

  lemma FirstTellsProducers(p: Pool, t: Thread)
    requires Locks(p) && p.free.num == 0 && StepOf(p, t).Some? && StepOf(p, t).value.free.num > 0
    ensures TellsProducers(StepOf(p, t).value)
  {
    hide Locks, ProducerOp, ProducerNext, StopperOp, StopperNext;
    FilledByGiveBack(p, t);
    Owned(p, t, FreeMutex);
  }

  lemma ProducerWakeupsByStep(p: Pool, t: Thread)
    requires Locks(p) && Known(p) && ProducerWakeups(p) && StepOf(p, t).Some?
    ensures ProducerWakeups(StepOf(p, t).value)
  {
    hide Locks;
    var op, q := OpOf(p, t), StepOf(p, t).value;
    Elsewhere(p, t, op);
    if p.free.num == 0 && q.free.num > 0 {
      FirstTellsProducers(p, t);
    } else if TellsProducers(p) && t != p.freeLock.value {
      StillTellsProducers(p, t, p.freeLock.value.worker);
    } else if q.free.num > 0 && op != BroadcastProducers {
      forall j | 0 <= j < |q.producers| ensures !q.producers[j].AwaitFree? {
        assert ProducerKnows(p, p.producers[j]) && !p.producers[j].AwaitFree?;
      }
    }
  }

  // Stopping.

  lemma StoppingByWorker(p: Pool, i: nat)
    requires Known(p) && Stopping(p) && StepOf(p, Worker(i)).Some?
    ensures Stopping(StepOf(p, Worker(i)).value)
  {
    Elsewhere(p, Worker(i), OpOf(p, Worker(i)));
    assert WorkerKnows(p, p.workers[i]);
  }

  lemma StoppingByProducer(p: Pool, i: nat)
    requires Stopping(p) && StepOf(p, Producer(i)).Some?
    ensures Stopping(StepOf(p, Producer(i)).value)
  {
    Elsewhere(p, Producer(i), OpOf(p, Producer(i)));
  }

  /** While the stopping thread holds the mutex no worker is about to wait. */
  lemma NoneSleeps(p: Pool, j: nat)
    requires Locks(p) && p.stopper.StopBroadcast? && j < |p.workers|
    ensures !p.workers[j].SleepTasks?
  {
    hide Locks;
    Owned(p, Stopper, TasksMutex);
    assert Holds(p, Worker(j), TasksMutex) ==> Owner(p, TasksMutex) == Some(Worker(j)) by {
      if Holds(p, Worker(j), TasksMutex) {
        Owned(p, Worker(j), TasksMutex);
      }
    }
  }

  lemma StoppingByStopper(p: Pool)
    requires Locks(p) && Known(p) && Stopping(p) && StepOf(p, Stopper).Some?
    ensures Stopping(StepOf(p, Stopper).value)
  {
    hide Apply, Locks;
    GoesOn(p, Stopper);
    Elsewhere(p, Stopper, OpOf(p, Stopper));
    if p.stopper.StopBroadcast? {
      forall j | 0 <= j < |p.workers| ensures !p.workers[j].SleepTasks? {
        NoneSleeps(p, j);
      }
    } else if p.stopper.Join? && p.stopper.next < |p.workers| {
      assert WorkerKnows(p, p.workers[p.stopper.next]);
    }
  }

  // The whole invariant.

  lemma StepKeeps(p: Pool, t: Thread)
    requires Inv(p) && StepOf(p, t).Some?
    ensures Inv(StepOf(p, t).value)
  {
    hide Rings, Locks, Cells, Jobs, Tickets, Known, WorkerWakeups, ProducerWakeups, Stopping, StepOf, NullCalls;
    LocksByStep(p, t);
    CellsByStep(p, t);
    JobsByStep(p, t);
    LossesByStep(p, t);
    TicketsByStep(p, t);
    KnownByStep(p, t);
    WorkerWakeupsByStep(p, t);
    ProducerWakeupsByStep(p, t);
    match t {
      case Worker(i) => StoppingByWorker(p, i);
      case Producer(i) => StoppingByProducer(p, i);
      case Stopper => StoppingByStopper(p);
    }
  }
}
