/** A cell that waits for a task, or is on its way there, is empty. */
module PoolCells {
  import opened Wrappers
  import opened RingQueue
  import opened ThreadPool
  import opened PoolInvariant
  import opened PoolSteps
  import opened PoolRuns

  /** The empty cell in the hands of a thread. */
  function WorkerEmpty(w: WorkerAt): Option<nat> {
    match w
    case LockFree(s) => Some(s)
    case GiveBack(s) => Some(s)
    case _ => None
  }

  function ProducerEmpty(w: ProducerAt): Option<nat> {
    match w
    case UnlockObtained(_, s) => Some(s)
    case Fill(_, s) => Some(s)
    case _ => None
  }

  predicate IsEmpty(p: Pool, s: Option<nat>) {
    s != None ==> Fetch(p.slots, s.value) == CLEARED
  }

  ghost predicate Swept(p: Pool)
    requires Rings(p)
  {
    && (forall s :: s in Contents(p.free) ==> IsEmpty(p, Some(s)))
    && (forall i :: 0 <= i < |p.workers| ==> IsEmpty(p, WorkerEmpty(p.workers[i])))
    && (forall i :: 0 <= i < |p.producers| ==> IsEmpty(p, ProducerEmpty(p.producers[i])))
  }

  // One operation.

  /** The empty cell in the hands of a thread before and after its operation. */
  predicate Passes(p: Pool, op: Op, before: Option<nat>, after: Option<nat>) {
    match op
    case TakeFree => after == Dequeue(p.free).1
    case PutFree(s) => before == Some(s) && after == None
    case Write(s, task) => after == None || (after == Some(s) && task == CLEARED)
    case _ => after == None || after == before
  }

  lemma WorkerPasses(p: Pool, w: WorkerAt)
    requires WorkerKnows(p, w)
    ensures Passes(p, WorkerOp(p, w), WorkerEmpty(w), WorkerEmpty(WorkerNext(p, w)))
    ensures WorkerOp(p, w).Write? ==> WorkerSlot(w) == Some(WorkerOp(p, w).cell)
  {
    hide Enqueue, Dequeue;
  }

  lemma ProducerPasses(p: Pool, w: ProducerAt)
    requires ProducerKnows(p, w)
    ensures Passes(p, ProducerOp(p, w), ProducerEmpty(w), ProducerEmpty(ProducerNext(p, w)))
    ensures ProducerOp(p, w).Write? ==> ProducerSlot(w) == Some(ProducerOp(p, w).cell)
  {
    hide Enqueue, Dequeue;
  }

  lemma EmptyIsHeld(w: WorkerAt, v: ProducerAt)
    ensures WorkerEmpty(w) != None ==> WorkerSlot(w) == WorkerEmpty(w)
    ensures ProducerEmpty(v) != None ==> ProducerSlot(v) == ProducerEmpty(v)
  {
  }

  /** The free cells and the contents of the cells after an operation. */
  lemma SlotsApplied(p: Pool, t: Thread, op: Op)
    requires Rings(p) && Ready(p, op) && Apply(p, t, op).Some?
    ensures var q := Apply(p, t, op).value;
            && Rings(q) && q.slots == (if op.Write? then Store(p.slots, op.cell, op.task) else p.slots)
            && Contents(q.free) == (if op.TakeFree? then Contents(p.free)[1..]
                                    else if op.PutFree? then Contents(p.free) + [op.cell] else Contents(p.free))
  {
    hide RingOk, Contents, Enqueue, Dequeue;
    Applied(p, t, op);
  }

  /** A cell in the hands of a thread is not free, and in no other hands. */
  lemma OneHand(p: Pool, t: Thread, s: nat)
    requires Rings(p) && Cells(p)
    requires match t
             case Worker(i) => i < |p.workers| && WorkerSlot(p.workers[i]) == Some(s)
             case Producer(i) => i < |p.producers| && ProducerSlot(p.producers[i]) == Some(s)
             case Stopper => false
    ensures s !in Contents(p.free)
    ensures forall j: nat :: j < |p.workers| && Worker(j) != t ==> WorkerSlot(p.workers[j]) != Some(s)
    ensures forall j: nat :: j < |p.producers| && Producer(j) != t ==> ProducerSlot(p.producers[j]) != Some(s)
  {
    hide RingOk, Contents, Sum, WorkerSlot, ProducerSlot;
    NotFree(p, t, s);
    forall j: nat | j < |p.workers| && Worker(j) != t ensures WorkerSlot(p.workers[j]) != Some(s) {
      if WorkerSlot(p.workers[j]) == Some(s) {
        if t.Worker? {
          WorkersApart(p, t.worker, j, s);
        } else {
          WorkerProducerApart(p, j, t.producer, s);
        }
      }
    }
    forall j: nat | j < |p.producers| && Producer(j) != t ensures ProducerSlot(p.producers[j]) != Some(s) {
      if ProducerSlot(p.producers[j]) == Some(s) {
        if t.Producer? {
          ProducersApart(p, t.producer, j, s);
        } else {
          WorkerProducerApart(p, t.worker, j, s);
        }
      }
    }
  }

  lemma NotFree(p: Pool, t: Thread, s: nat)
    requires Rings(p) && Cells(p)
    requires match t
             case Worker(i) => i < |p.workers| && WorkerSlot(p.workers[i]) == Some(s)
             case Producer(i) => i < |p.producers| && ProducerSlot(p.producers[i]) == Some(s)
             case Stopper => false
    ensures s !in Contents(p.free)
  {
    hide RingOk, Contents, WorkerSlot, ProducerSlot;
    UpToOnce(|p.slots|, s);
    if t.Worker? {
      SumPart(p.workers, t.worker, s, WorkerSlot);
    } else {
      SumPart(p.producers, t.producer, s, ProducerSlot);
    }
    assert s in multiset(Contents(p.free)) <==> s in Contents(p.free);
  }

  // A step.

  /** What the thread of a step has in its hands, and what it does with it. */
  lemma StepPasses(p: Pool, t: Thread)
    requires Rings(p) && Known(p) && StepOf(p, t).Some?
    ensures var op := OpOf(p, t);
            match t
            case Worker(i) =>
              && i < |p.workers| && Passes(p, op, WorkerEmpty(p.workers[i]), WorkerEmpty(WorkerNext(p, p.workers[i])))
              && (op.Write? ==> WorkerSlot(p.workers[i]) == Some(op.cell))
            case Producer(i) =>
              && i < |p.producers|
              && Passes(p, op, ProducerEmpty(p.producers[i]), ProducerEmpty(ProducerNext(p, p.producers[i])))
              && (op.Write? ==> ProducerSlot(p.producers[i]) == Some(op.cell))
            case Stopper => !op.Write? && !op.TakeFree? && !op.PutFree?
  {
    hide WorkerOp, WorkerNext, ProducerOp, ProducerNext, WorkerEmpty, ProducerEmpty, WorkerSlot, ProducerSlot, Passes;
    hide WorkerKnows, ProducerKnows, Apply, Dequeue;
    GoesOn(p, t);
    match t
    case Worker(i) => WorkerPasses(p, p.workers[i]);
    case Producer(i) => ProducerPasses(p, p.producers[i]);
    case Stopper =>
  }

  /** Where the threads are after a step, but for what they wait for. */
  lemma OthersHands(p: Pool, t: Thread)
    requires StepOf(p, t).Some?
    ensures var q := StepOf(p, t).value;
            && |q.workers| == |p.workers| && |q.producers| == |p.producers|
            && (forall j: nat :: j < |p.workers| ==>
                  WorkerEmpty(q.workers[j])
                  == WorkerEmpty(if t == Worker(j) then WorkerNext(p, p.workers[j]) else p.workers[j]))
            && (forall j: nat :: j < |p.producers| ==>
                  ProducerEmpty(q.producers[j])
                  == ProducerEmpty(if t == Producer(j) then ProducerNext(p, p.producers[j]) else p.producers[j]))
            && q.slots == Apply(p, t, OpOf(p, t)).value.slots && q.free == Apply(p, t, OpOf(p, t)).value.free
  {
    hide WorkerOp, WorkerNext, ProducerOp, ProducerNext, StopperNext, Apply, OpOf;
    Elsewhere(p, t, OpOf(p, t));
    GoesOn(p, t);
  }

  /** A cell that is free after a step, or empty in some hands, is not the one just written. */
  lemma StaysEmpty(p: Pool, q: Pool, op: Op, x: nat)
    requires q.slots == (if op.Write? then Store(p.slots, op.cell, op.task) else p.slots)
    requires Fetch(p.slots, x) == CLEARED && (op.Write? ==> op.cell != x || op.task == CLEARED)
    ensures Fetch(q.slots, x) == CLEARED
  {
  }

  lemma FreeSwept(p: Pool, t: Thread)
    requires Rings(p) && Cells(p) && Known(p) && Swept(p) && StepOf(p, t).Some?
    ensures var q := StepOf(p, t).value; Rings(q) && forall s :: s in Contents(q.free) ==> IsEmpty(q, Some(s))
  {
    hide RingOk, Contents, Dequeue, Enqueue, Cells, Fetch, Store, WorkerEmpty, ProducerEmpty, WorkerSlot, ProducerSlot;
    hide OpOf, Apply, Known, StepOf, MoveOn;
    var op, q := OpOf(p, t), StepOf(p, t).value;
    StepReady(p, t);
    StepPasses(p, t);
    OthersHands(p, t);
    StepRings(p, t);
    SlotsApplied(p, t, op);
    if op.Write? {
      OneHand(p, t, op.cell);
    }
    forall s | s in Contents(q.free) ensures IsEmpty(q, Some(s)) {
      if op.PutFree? && s == op.cell {
        StaysEmpty(p, q, op, s);
      } else {
        assert s in Contents(p.free);
        StaysEmpty(p, q, op, s);
      }
    }
  }

  lemma StepRings(p: Pool, t: Thread)
    requires Rings(p) && Cells(p) && Known(p) && StepOf(p, t).Some?
    ensures Rings(StepOf(p, t).value) && Apply(p, t, OpOf(p, t)).Some?
  {
    hide RingOk, Contents, Enqueue, Dequeue, OpOf;
    StepReady(p, t);
    Applied(p, t, OpOf(p, t));
  }

  /** The empty cell in the hands of the thread of a step. */
  lemma OwnSwept(p: Pool, q: Pool, op: Op, before: Option<nat>, after: Option<nat>)
    requires Rings(p) && Ready(p, op) && Swept(p) && Passes(p, op, before, after) && IsEmpty(p, before)
    requires q.slots == (if op.Write? then Store(p.slots, op.cell, op.task) else p.slots)
    requires op.Write? ==> op.cell < |p.slots|
    ensures IsEmpty(q, after)
  {
    hide RingOk, Contents, Dequeue;
    DequeueIs(p.free);
  }

  /** That in the hands of another thread. */
  lemma OtherSwept(p: Pool, q: Pool, op: Op, x: Option<nat>)
    requires IsEmpty(p, x) && (op.Write? && x != None ==> op.cell != x.value)
    requires q.slots == (if op.Write? then Store(p.slots, op.cell, op.task) else p.slots)
    ensures IsEmpty(q, x)
  {
  }

  lemma HandsSwept(p: Pool, t: Thread)
    requires Rings(p) && Cells(p) && Known(p) && Swept(p) && StepOf(p, t).Some?
    ensures var q := StepOf(p, t).value;
            && (forall i :: 0 <= i < |q.workers| ==> IsEmpty(q, WorkerEmpty(q.workers[i])))
            && (forall i :: 0 <= i < |q.producers| ==> IsEmpty(q, ProducerEmpty(q.producers[i])))
  {
    hide RingOk, Contents, Cells, Store, WorkerEmpty, ProducerEmpty, WorkerSlot, ProducerSlot, WorkerNext, ProducerNext;
    hide OpOf, Apply, Known, StepOf, MoveOn, Passes, IsEmpty;
    var op, q := OpOf(p, t), StepOf(p, t).value;
    StepReady(p, t);
    StepPasses(p, t);
    OthersHands(p, t);
    StepRings(p, t);
    SlotsApplied(p, t, op);
    if op.Write? {
      OneHand(p, t, op.cell);
    }
    forall i: nat | i < |q.workers| ensures IsEmpty(q, WorkerEmpty(q.workers[i])) {
      if t == Worker(i) {
        OwnSwept(p, q, op, WorkerEmpty(p.workers[i]), WorkerEmpty(WorkerNext(p, p.workers[i])));
      } else {
        EmptyIsHeld(p.workers[i], Idle);
        OtherSwept(p, q, op, WorkerEmpty(p.workers[i]));
      }
    }
    forall i: nat | i < |q.producers| ensures IsEmpty(q, ProducerEmpty(q.producers[i])) {
      if t == Producer(i) {
        OwnSwept(p, q, op, ProducerEmpty(p.producers[i]), ProducerEmpty(ProducerNext(p, p.producers[i])));
      } else {
        EmptyIsHeld(CheckStop, p.producers[i]);
        OtherSwept(p, q, op, ProducerEmpty(p.producers[i]));
      }
    }
  }

  /** Every action keeps the cells swept. */
  lemma SweptKept(p: Pool, a: Action)
    requires Inv(p) && Swept(p) && Do(p, a).Some?
    ensures Rings(Do(p, a).value) && Swept(Do(p, a).value)
  {
    hide RingOk, Contents, Cells, Jobs, Tickets, Known, Locks, WorkerWakeups, ProducerWakeups, Stopping, StepOf, Fetch;
    if a.Step? {
      StepRings(p, a.thread);
      FreeSwept(p, a.thread);
      HandsSwept(p, a.thread);
    }
  }

  lemma StartSwept(n: nat, w: nat, c: nat)
    requires n >= 1
    ensures Rings(Start(n, w, c)) && Swept(Start(n, w, c))
  {
    hide RingOk, Contents, Filled;
    StartCells(n, w, c);
  }

  lemma {:induction false} RunSweeps(p: Pool, run: seq<Action>)
    requires Inv(p) && Swept(p) && After(p, run).Some?
    ensures Rings(After(p, run).value) && Swept(After(p, run).value)
    decreases |run|
  {
    hide Swept, Do, Rings, Locks, Cells, Jobs, Tickets, Known, WorkerWakeups, ProducerWakeups, Stopping;
    if run != [] {
      InvKept(p, run[0]);
      SweptKept(p, run[0]);
      RunSweeps(Do(p, run[0]).value, run[1..]);
    }
  }

  /** In every reachable state the free cells, and those on their way to or from their queue, are empty. */
  lemma FreeCellsEmpty(p: Pool)
    requires Reachable(p)
    ensures Rings(p) && Swept(p)
  {
    hide Inv, After, Swept, Rings, Start;
    var n: nat, w: nat, c: nat, run :| n >= 1 && After(Start(n, w, c), run) == Some(p);
    StartKeeps(n, w, c);
    StartSwept(n, w, c);
    RunSweeps(Start(n, w, c), run);
  }
}
