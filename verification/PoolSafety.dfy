/** What the thread pool promises, in every state that any run reaches. */
module PoolSafety {
  import opened Wrappers
  import opened RingQueue
  import opened ThreadPool
  import opened PoolInvariant
  import opened PoolSteps
  import opened PoolRuns

  /** How many of the threads have `x`. */
  function Count<T>(s: seq<T>, f: T -> Option<nat>, x: nat): nat {
    if s == [] then 0 else (if f(s[0]) == Some(x) then 1 else 0) + Count(s[1..], f, x)
  }

  lemma {:induction false} CountIsSum<T>(s: seq<T>, f: T -> Option<nat>, x: nat)
    ensures Count(s, f, x) == Sum(s, f)[x]
  {
    if s != [] {
      CountIsSum(s[1..], f, x);
    }
  }

  /** Each cell is in one place: a queue, one pair of hands, or lost with its NULL routine. */
  lemma OnePlace(p: Pool, s: nat)
    requires Reachable(p) && s < |p.slots|
    ensures Rings(p)
    ensures multiset(Contents(p.free))[s] + multiset(Contents(p.tasks))[s] + p.lost[s]
         + Count(p.workers, WorkerSlot, s) + Count(p.producers, ProducerSlot, s) == 1
    ensures |p.lost| == NullCalls(p.handled)
  {
    hide RingOk, Contents;
    ReachableInv(p);
    UpToOnce(|p.slots|, s);
    CountIsSum(p.workers, WorkerSlot, s);
    CountIsSum(p.producers, ProducerSlot, s);
  }

  /** No thread ever ends on an error, and no queue operation ever fails. */
  lemma NothingFails(p: Pool)
    requires Reachable(p)
    ensures forall i :: 0 <= i < |p.workers| ==> !p.workers[i].Failed?
    ensures forall i :: 0 <= i < |p.producers| ==> !p.producers[i].Error?
    ensures forall t :: OpOf(p, t).PutTask? ==> Enqueue(p.tasks, OpOf(p, t).cell).1
    ensures forall t :: OpOf(p, t).PutFree? ==> Enqueue(p.free, OpOf(p, t).cell).1
    ensures forall t :: OpOf(p, t) == TakeTask ==> Dequeue(p.tasks).1 != None
    ensures forall t :: OpOf(p, t) == TakeFree ==> Dequeue(p.free).1 != None
  {
    hide Cells, Jobs, Tickets, Locks, WorkerWakeups, ProducerWakeups, Stopping, Contents, Enqueue, Dequeue, OpOf;
    ReachableInv(p);
    DequeueIs(p.tasks);
    DequeueIs(p.free);
    forall t | OpOf(p, t).PutTask? ensures Enqueue(p.tasks, OpOf(p, t).cell).1 {
      StepReady(p, t);
      EnqueueIs(p.tasks, OpOf(p, t).cell);
    }
    forall t | OpOf(p, t).PutFree? ensures Enqueue(p.free, OpOf(p, t).cell).1 {
      StepReady(p, t);
      EnqueueIs(p.free, OpOf(p, t).cell);
    }
    forall t ensures OpOf(p, t) == TakeTask ==> p.tasks.num > 0 {
      StepReady(p, t);
    }
    forall t ensures OpOf(p, t) == TakeFree ==> p.free.num > 0 {
      StepReady(p, t);
    }
  }

  /** Workers get the jobs that were accepted, in the order they were accepted. */
  lemma FirstComeFirstServed(p: Pool)
    requires Reachable(p)
    ensures Rings(p) && |p.accepted| == |p.served| + p.tasks.num
    ensures p.served == p.accepted[..|p.served|]
    ensures forall k :: 0 <= k < p.tasks.num ==> p.accepted[|p.served| + k] == Fetch(p.slots, Contents(p.tasks)[k])
  {
    hide RingOk, Contents, Cells, Tickets, Locks, WorkerWakeups, ProducerWakeups, Stopping, Known;
    ReachableInv(p);
  }

  /**
   * Each job taken from the queue is in the hands of one worker or was handled, once, by a call
   * of its own routine on its own data.
   */
  lemma HandledOnce(p: Pool)
    requires Reachable(p)
    ensures forall h :: 0 <= h < |p.handled| ==>
              p.handled[h].ticket < |p.accepted| && p.handled[h].task == p.accepted[p.handled[h].ticket]
    ensures forall g, h :: 0 <= g < h < |p.handled| ==> p.handled[g].ticket != p.handled[h].ticket
    ensures forall k: nat :: k < |p.served| ==>
              Count(p.handled, HandledTicket, k) + Count(p.workers, WorkerTicket, k) == 1
  {
    hide RingOk, Contents, Cells, Locks, WorkerWakeups, ProducerWakeups, Stopping, Known, UpTo;
    ReachableInv(p);
    forall g, h | 0 <= g < h < |p.handled| ensures p.handled[g].ticket != p.handled[h].ticket {
      if p.handled[g].ticket == p.handled[h].ticket {
        SumParts(p.handled, g, h, p.handled[g].ticket, HandledTicket);
        UpToOnce(|p.served|, p.handled[g].ticket);
      }
    }
    forall k: nat | k < |p.served|
      ensures Count(p.handled, HandledTicket, k) + Count(p.workers, WorkerTicket, k) == 1
    {
      CountIsSum(p.handled, HandledTicket, k);
      CountIsSum(p.workers, WorkerTicket, k);
      UpToOnce(|p.served|, k);
    }
  }

  /** While a mutex is free, a thread that waits on its condition, not woken, has nothing to wake for. */
  lemma NoLostWakeup(p: Pool)
    requires Reachable(p)
    ensures p.taskLock == None && p.tasks.num > 0 ==>
              forall i :: 0 <= i < |p.workers| ==> !p.workers[i].AwaitTasks?
    ensures p.freeLock == None && p.free.num > 0 ==>
              forall i :: 0 <= i < |p.producers| ==> !p.producers[i].AwaitFree?
  {
    hide RingOk, Contents, Cells, Locks, Jobs, Tickets, Stopping, Known;
    ReachableInv(p);
  }

  // Deadlock.

  /** A thread that holds a mutex can go on. */
  lemma HolderRuns(p: Pool, t: Thread, m: Mutex)
    requires Locks(p) && Holds(p, t, m) && p.stopper != Freed
    ensures StepOf(p, t).Some?
  {
    Owned(p, t, m);
  }

  predicate CanStep(p: Pool, t: Thread) {
    StepOf(p, t).Some?
  }

  /** If nothing can go on, every mutex is free. */
  lemma StuckUnlocked(p: Pool, m: Mutex)
    requires Locks(p) && p.stopper != Freed && forall t :: !CanStep(p, t)
    ensures Owner(p, m) == None
  {
    if Owner(p, m) != None {
      var t := Owner(p, m).value;
      assert Holds(p, t, m);
      assert !CanStep(p, t);
      HolderRuns(p, t, m);
    }
  }

  /** A worker that cannot go on although every mutex is free waits for tasks or has ended. */
  lemma WorkerStuck(p: Pool, i: nat)
    requires i < |p.workers| && WorkerKnows(p, p.workers[i])
    requires p.taskLock == None && p.freeLock == None && !CanStep(p, Worker(i))
    ensures p.workers[i].AwaitTasks? || p.workers[i].Exited?
  {
  }

  lemma ProducerStuck(p: Pool, i: nat)
    requires i < |p.producers| && ProducerKnows(p, p.producers[i]) && p.stopper != Freed
    requires p.taskLock == None && p.freeLock == None && !CanStep(p, Producer(i))
    ensures p.producers[i].Idle? || p.producers[i].AwaitFree?
  {
  }

  /**
   * No worker has anything to do and no caller is inside threadpool_add_task, unless all cells
   * are lost to NULL routines and the caller waits for one.
   */
  ghost predicate AtRest(p: Pool) {
    && p.tasks.num == 0
    && (forall i :: 0 <= i < |p.workers| ==> p.workers[i].AwaitTasks?)
    && (forall i :: 0 <= i < |p.producers| ==>
          p.producers[i].Idle? || (p.producers[i].AwaitFree? && |p.lost| == |p.slots|))
  }

  /** With no cell in use, those not free are lost. */
  lemma AllFree(p: Pool)
    requires Rings(p) && Cells(p) && p.tasks.num == 0
    requires forall i :: 0 <= i < |p.workers| ==> WorkerSlot(p.workers[i]) == None
    requires forall i :: 0 <= i < |p.producers| ==> ProducerSlot(p.producers[i]) == None
    ensures p.free.num + |p.lost| == |p.slots|
  {
    SumNone(p.workers, WorkerSlot);
    SumNone(p.producers, ProducerSlot);
    UpToOnce(|p.slots|, 0);
  }

  lemma StuckRests(p: Pool)
    requires Inv(p) && |p.workers| >= 1 && !p.stop
    requires forall t :: !CanStep(p, t)
    ensures AtRest(p)
  {
    hide RingOk, Contents, Cells, Locks, Jobs, Tickets, CanStep;
    StuckUnlocked(p, TasksMutex);
    StuckUnlocked(p, FreeMutex);
    forall i | 0 <= i < |p.workers| ensures p.workers[i].AwaitTasks? {
      WorkerStuck(p, i);
    }
    forall i | 0 <= i < |p.producers| ensures p.producers[i].Idle? || p.producers[i].AwaitFree? {
      ProducerStuck(p, i);
    }
    assert p.workers[0].AwaitTasks?;
    AllFree(p);
  }

  /**
   * Before the pool is stopped nothing can go on exactly when the pool is at rest; every accepted
   * job has then been handled.
   */
  lemma NoDeadlock(p: Pool)
    requires Reachable(p) && |p.workers| >= 1 && !p.stop
    ensures (forall t :: StepOf(p, t) == None) <==> AtRest(p)
    ensures AtRest(p) ==> forall k: nat :: k < |p.accepted| ==> Count(p.handled, HandledTicket, k) == 1
  {
    hide RingOk, Contents, Cells, Locks, Tickets;
    ReachableInv(p);
    if forall t :: StepOf(p, t) == None {
      forall t ensures !CanStep(p, t) {
        assert StepOf(p, t) == None;
      }
      StuckRests(p);
    }
    if AtRest(p) {
      forall t ensures StepOf(p, t) == None {
      }
      HandledOnce(p);
      forall k: nat | k < |p.accepted| ensures Count(p.handled, HandledTicket, k) == 1 {
        SumNone(p.workers, WorkerTicket);
        CountIsSum(p.workers, WorkerTicket, k);
      }
    }
  }

  // Stopping.

  /** A bound on the steps a worker still makes once it was told to stop. */
  function Rank(w: WorkerAt): nat {
    match w
    case Take => 10
    case UnlockTaken(_, _) => 9
    case CallRoutine(_, _) => 8
    case Clear(_) => 7
    case LockFree(_) => 6
    case GiveBack(_) => 5
    case TellProducers => 4
    case UnlockFree => 3
    case LockTasks => 5
    case WokenTasks => 5
    case TestTasks => 4
    case Recheck => 3
    case UnlockStopping => 2
    case CheckStop => 2
    case NoTask => 1
    case _ => 0
  }

  lemma StillTold(p: Pool, a: Action)
    requires Told(p) && Do(p, a).Some?
    ensures Told(Do(p, a).value) && |Do(p, a).value.workers| == |p.workers|
  {
    if a.Step? {
      Elsewhere(p, a.thread, OpOf(p, a.thread));
    }
  }

  /** A worker that goes on when told to stop comes closer to its end. */
  lemma OwnStep(p: Pool, w: WorkerAt)
    requires p.stop && WorkerKnows(p, w) && !w.SleepTasks? && WorkerOp(p, w) != Blocked
    ensures Rank(WorkerNext(p, w)) < Rank(w)
  {
  }

  /** A step leaves the other workers where they are, if none of them waits. */
  lemma OthersStay(p: Pool, t: Thread, i: nat)
    requires CanStep(p, t) && i < |p.workers| && !p.workers[i].AwaitTasks?
    ensures |StepOf(p, t).value.workers| == |p.workers|
    ensures StepOf(p, t).value.workers[i] == if t == Worker(i) then WorkerNext(p, p.workers[i]) else p.workers[i]
  {
    hide WorkerOp, WorkerNext, ProducerOp, ProducerNext, Apply;
    Elsewhere(p, t, OpOf(p, t));
  }

  /** After the broadcast of the stopping thread every step of a worker brings it closer to its end. */
  lemma RankFalls(p: Pool, a: Action, i: nat)
    requires Inv(p) && Told(p) && Do(p, a).Some? && i < |p.workers|
    ensures var q := Do(p, a).value;
            && Told(q) && |q.workers| == |p.workers|
            && Rank(q.workers[i]) + (if a == Step(Worker(i)) then 1 else 0) <= Rank(p.workers[i])
  {
    hide Rings, Cells, Jobs, Tickets, Locks, WorkerWakeups, ProducerWakeups, Apply, Rank, WorkerNext, WorkerOp;
    StillTold(p, a);
    assert WorkerKnows(p, p.workers[i]);
    if a.Step? {
      assert CanStep(p, a.thread);
      OthersStay(p, a.thread, i);
      if a.thread == Worker(i) {
        GoesOn(p, a.thread);
        OwnStep(p, p.workers[i]);
      }
    }
  }

  /** The number of steps of worker `i` in a run. */
  function StepsOf(run: seq<Action>, i: nat): nat {
    if run == [] then 0 else (if run[0] == Step(Worker(i)) then 1 else 0) + StepsOf(run[1..], i)
  }

  /** So a worker makes at most ten more steps, in whatever run. */
  lemma {:induction false} FewSteps(p: Pool, run: seq<Action>, i: nat)
    requires Inv(p) && Told(p) && After(p, run).Some? && i < |p.workers|
    ensures var q := After(p, run).value;
            && |q.workers| == |p.workers| && StepsOf(run, i) + Rank(q.workers[i]) <= Rank(p.workers[i]) <= 10
    decreases |run|
  {
    hide Inv, Told, Do;
    if run != [] {
      InvKept(p, run[0]);
      RankFalls(p, run[0], i);
      FewSteps(Do(p, run[0]).value, run[1..], i);
    }
  }

  /** Once told to stop no worker waits again, and until the pool is freed something can go on. */
  lemma StopGoesOn(p: Pool)
    requires Reachable(p) && Told(p)
    ensures forall i :: 0 <= i < |p.workers| ==> !p.workers[i].AwaitTasks? && !p.workers[i].SleepTasks?
    ensures p.stopper != Freed ==> exists t :: StepOf(p, t).Some?
  {
    hide Rings, Cells, Jobs, Tickets, Locks, WorkerWakeups, ProducerWakeups;
    ReachableInv(p);
    if p.stopper != Freed && forall t :: StepOf(p, t) == None {
      forall t ensures !CanStep(p, t) {
        assert StepOf(p, t) == None;
      }
      StuckUnlocked(p, TasksMutex);
      StuckUnlocked(p, FreeMutex);
      assert !CanStep(p, Stopper);
      StopperStuck(p);
      WorkerStuck(p, p.stopper.next);
    }
  }

  lemma StopperStuck(p: Pool)
    requires Told(p) && p.stopper != Freed && !CanStep(p, Stopper)
    ensures p.stopper.Join? && p.stopper.next < |p.workers| && !p.workers[p.stopper.next].Exited?
  {
  }

  /** The pool is freed only after every worker has ended, so no worker touches it again. */
  lemma FreedAfterAll(p: Pool, run: seq<Action>)
    requires Reachable(p) && p.stopper == Freed && After(p, run).Some?
    ensures forall i :: 0 <= i < |p.workers| ==> p.workers[i].Exited? && StepsOf(run, i) == 0
  {
    hide Rings, Cells, Jobs, Tickets, Locks, WorkerWakeups, ProducerWakeups, After;
    ReachableInv(p);
    forall i | 0 <= i < |p.workers| ensures StepsOf(run, i) == 0 {
      FewSteps(p, run, i);
    }
  }
}
