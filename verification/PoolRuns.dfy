/** What holds in every state the thread pool can reach. */
module PoolRuns {
  import opened Wrappers
  import opened RingQueue
  import opened ThreadPool
  import opened PoolInvariant
  import opened PoolSteps

  // The pool as threadpool_init leaves it.

  /** A ring of `n` cells after the tasks 0 to `k - 1` were enqueued. */
  function Filled(n: nat, k: nat): Ring
    requires n >= 1
  {
    if k == 0 then Empty(n) else Enqueue(Filled(n, k - 1), k - 1).0
  }

  lemma {:induction false} FilledIs(n: nat, k: nat)
    requires n >= 1 && k <= n
    ensures |Filled(n, k).cells| == n && RingOk(Filled(n, k)) && Contents(Filled(n, k)) == seq(k, i => i)
    ensures k < n ==> Enqueue(Filled(n, k), k).1
  {
    hide RingOk, Contents, Enqueue;
    if k == 0 {
      EmptyIs(n);
    } else {
      FilledIs(n, k - 1);
      EnqueueIs(Filled(n, k - 1), k - 1);
      assert seq(k, i => i) == seq(k - 1, i => i) + [k - 1];
    }
    EnqueueIs(Filled(n, k), k);
  }

  /** One step of the loop that fills the queue of free cells. */
  method FillOne(free: Queue, size: nat, i: nat)
    requires i < size && free.Valid() && free.Value() == Filled(size, i)
    modifies free, free.cells
    ensures free.Valid() && free.Value() == Filled(size, i + 1)
  {
    hide RingOk, Contents, Enqueue, Empty;
    FilledIs(size, i);
    var ok := free.Put(i);
    assert ok;
  }

  /** The queues of a new pool: no task waits and every cell is free. */
  method InitQueues(size: nat) returns (tasks: Queue, free: Queue)
    requires size >= 1
    ensures fresh(tasks) && fresh(free) && tasks.Valid() && free.Valid()
    ensures tasks.Value() == Empty(size) && free.Value() == Filled(size, size)
    ensures Contents(free.Value()) == seq(size, i => i)
  {
    hide RingOk, Contents, Enqueue, Empty;
    tasks := new Queue(size);
    free := new Queue(size);
    for i := 0 to size
      invariant fresh(tasks) && tasks.Valid() && tasks.Value() == Empty(size)
      invariant fresh(free) && fresh(free.cells) && free.cells != tasks.cells
      invariant free.Valid() && free.Value() == Filled(size, i)
    {
      FillOne(free, size, i);
    }
    FilledIs(size, size);
  }

  /** A new pool of `n` cells, `w` workers and `c` callers. */
  function Start(n: nat, w: nat, c: nat): Pool
    requires n >= 1
  {
    Pool(Empty(n), Filled(n, n), seq(n, _ => CLEARED), false, None, None,
         seq(w, _ => CheckStop), seq(c, _ => Idle), Quiet, [], [], [], multiset{})
  }

  lemma {:induction false} SumNone<T>(s: seq<T>, f: T -> Option<nat>)
    requires forall i :: 0 <= i < |s| ==> f(s[i]) == None
    ensures Sum(s, f) == multiset{}
  {
    if s != [] {
      SumNone(s[1..], f);
    }
  }

  lemma StartCells(n: nat, w: nat, c: nat)
    requires n >= 1
    ensures Rings(Start(n, w, c)) && Cells(Start(n, w, c)) && Tickets(Start(n, w, c))
    ensures Contents(Start(n, w, c).tasks) == []
  {
    hide RingOk, Contents, Filled;
    var p := Start(n, w, c);
    EmptyIs(n);
    FilledIs(n, n);
    SumNone(p.workers, WorkerSlot);
    SumNone(p.workers, WorkerTicket);
    SumNone(p.producers, ProducerSlot);
  }

  lemma StartLocks(n: nat, w: nat, c: nat)
    requires n >= 1
    ensures Locks(Start(n, w, c))
  {
    hide Empty, Filled;
    forall t, m ensures !Holds(Start(n, w, c), t, m) {
    }
  }

  lemma StartKeeps(n: nat, w: nat, c: nat)
    requires n >= 1
    ensures Inv(Start(n, w, c))
  {
    hide RingOk, Contents, Filled, Cells, Locks, Tickets;
    EmptyIs(n);
    StartCells(n, w, c);
    StartLocks(n, w, c);
  }

  // The actions that are no step of a thread.

  lemma LocksSame(p: Pool, q: Pool)
    requires Locks(p) && forall m :: Owner(p, m) == Owner(q, m)
    requires forall t, m :: Holds(p, t, m) == Holds(q, t, m)
    ensures Locks(q)
  {
    forall t, m ensures Holds(q, t, m) <==> Owner(q, m) == Some(t) {
      assert Holds(p, t, m) <==> Owner(p, m) == Some(t);
    }
  }

  lemma ProducerGoesKnown(p: Pool, i: nat, w: ProducerAt)
    requires Known(p) && WorkerWakeups(p) && ProducerWakeups(p) && Stopping(p)
    requires i < |p.producers| && (w.WantFree? || w.WokenFree?) && (p.producers[i].Idle? || p.producers[i].AwaitFree?)
    ensures var q := MoveProducer(p, i, w); Known(q) && WorkerWakeups(q) && ProducerWakeups(q) && Stopping(q)
  {
    var q := MoveProducer(p, i, w);
    assert TellsWorkers(p) == TellsWorkers(q);
    assert TellsProducers(p) == TellsProducers(q);
  }

  lemma WorkerWakesKnown(p: Pool, i: nat)
    requires Known(p) && WorkerWakeups(p) && ProducerWakeups(p) && Stopping(p)
    requires i < |p.workers| && p.workers[i] == AwaitTasks
    ensures var q := MoveWorker(p, i, WokenTasks); Known(q) && WorkerWakeups(q) && ProducerWakeups(q) && Stopping(q)
  {
    var q := MoveWorker(p, i, WokenTasks);
    assert TellsWorkers(p) == TellsWorkers(q);
    assert TellsProducers(p) == TellsProducers(q);
  }

  /** A thread that holds nothing takes another place where it holds nothing. */
  lemma ProducerGoes(p: Pool, i: nat, w: ProducerAt)
    requires Inv(p) && i < |p.producers| && (w.WantFree? || w.WokenFree?)
    requires p.producers[i].Idle? || p.producers[i].AwaitFree?
    ensures Inv(MoveProducer(p, i, w))
  {
    hide RingOk, Contents, TicketsOk, NullCalls, InOrder, HandledServed, Cells, Locks, Resting,
         Known, WorkerWakeups, ProducerWakeups, Stopping;
    LocksSame(p, MoveProducer(p, i, w));
    ProducerSeated(p, p, i, w);
    ProducerGoesKnown(p, i, w);
  }

  lemma WorkerWakes(p: Pool, i: nat)
    requires Inv(p) && i < |p.workers| && p.workers[i] == AwaitTasks
    ensures Inv(MoveWorker(p, i, WokenTasks))
  {
    hide RingOk, Contents, TicketsOk, NullCalls, InOrder, HandledServed, Cells, Locks, Resting,
         Known, WorkerWakeups, ProducerWakeups, Stopping;
    LocksSame(p, MoveWorker(p, i, WokenTasks));
    WorkerSeated(p, p, i, WokenTasks);
    TicketsKept(p.handled, p.workers, p.workers[i := WokenTasks], |p.served|);
    WorkerWakesKnown(p, i);
  }

  lemma StopKeeps(p: Pool)
    requires Inv(p) && p.stopper == Quiet
    ensures Inv(p.(stop := true, stopper := StopLock))
  {
    hide RingOk, Contents, TicketsOk, UpTo, NullCalls, InOrder, HandledServed, Locks, Sum;
    LocksSame(p, p.(stop := true, stopper := StopLock));
  }

  /** Every action keeps the invariant. */
  lemma InvKept(p: Pool, a: Action)
    requires Inv(p) && Do(p, a).Some?
    ensures Inv(Do(p, a).value)
  {
    hide Inv, StepOf;
    match a
    case Step(t) => StepKeeps(p, t);
    case Begin(i, c) => ProducerGoes(p, i, WantFree(c));
    case Stop => StopKeeps(p);
    case Spurious(Worker(i)) => WorkerWakes(p, i);
    case Spurious(Producer(i)) => ProducerGoes(p, i, WokenFree(p.producers[i].call));
    case Spurious(Stopper) =>
  }

  // Runs.

  /** The pool after a run; `None` if one of the actions was not possible. */
  function After(p: Pool, run: seq<Action>): Option<Pool>
    decreases |run|
  {
    if run == [] then Some(p)
    else
      var q := Do(p, run[0]);
      if q == None then None else After(q.value, run[1..])
  }

  lemma {:induction false} RunKeeps(p: Pool, run: seq<Action>)
    requires Inv(p) && After(p, run).Some?
    ensures Inv(After(p, run).value)
    decreases |run|
  {
    hide Inv, Do;
    if run != [] {
      InvKept(p, run[0]);
      RunKeeps(Do(p, run[0]).value, run[1..]);
    }
  }

  ghost predicate Reachable(p: Pool) {
    exists n: nat, w: nat, c: nat, run :: n >= 1 && After(Start(n, w, c), run) == Some(p)
  }

  lemma ReachableInv(p: Pool)
    requires Reachable(p)
    ensures Inv(p)
  {
    hide Inv, After;
    var n: nat, w: nat, c: nat, run :| n >= 1 && After(Start(n, w, c), run) == Some(p);
    StartKeeps(n, w, c);
    RunKeeps(Start(n, w, c), run);
  }
}
