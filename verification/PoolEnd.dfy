/** Once the pool was told to stop, a run of bounded length frees it. */
module PoolEnd {
  import opened Wrappers
  import opened ThreadPool
  import opened PoolInvariant
  import opened PoolSteps
  import opened PoolRuns
  import opened PoolSafety

  // How far the end is.

  function RankSum(ws: seq<WorkerAt>): nat {
    if ws == [] then 0 else Rank(ws[0]) + RankSum(ws[1..])
  }

  /** The steps a producer makes until it gives its mutex back. */
  function ToRelease(w: ProducerAt): nat {
    match w
    case TestFree(_) => 3
    case Obtain(_) => 2
    case Put(_, _) => 3
    case TellWorkers => 2
    case SleepFree(_) => 1
    case UnlockRefused => 1
    case UnlockNoCell => 1
    case UnlockObtained(_, _) => 1
    case UnlockTasks => 1
    case UnlockNotPut => 1
    case _ => 0
  }

  /** The same for the producer that holds the mutex, if one does. */
  function Held(p: Pool, m: Mutex): nat {
    match Owner(p, m)
    case Some(Producer(i)) => if i < |p.producers| then ToRelease(p.producers[i]) else 0
    case _ => 0
  }

  /** The steps the stopping thread still makes. */
  function ToJoin(p: Pool): nat {
    match p.stopper
    case StopUnlock => |p.workers| + 2
    case Join(k) => if k < |p.workers| then |p.workers| - k + 1 else 1
    case _ => 0
  }

  function Left(p: Pool): nat {
    RankSum(p.workers) + ToJoin(p) + Held(p, TasksMutex) + Held(p, FreeMutex)
  }

  lemma {:induction false} RankSumFalls(ws: seq<WorkerAt>, vs: seq<WorkerAt>, i: int)
    requires |vs| == |ws| && forall j :: 0 <= j < |ws| ==> Rank(vs[j]) + (if j == i then 1 else 0) <= Rank(ws[j])
    ensures RankSum(vs) + (if 0 <= i < |ws| then 1 else 0) <= RankSum(ws)
  {
    hide Rank;
    if ws != [] {
      RankSumFalls(ws[1..], vs[1..], i - 1);
    }
  }

  lemma {:induction false} RankSumBound(ws: seq<WorkerAt>)
    ensures RankSum(ws) <= 10 * |ws|
  {
    if ws != [] {
      RankSumBound(ws[1..]);
    }
  }

  // Each of these steps comes closer to it.

  lemma WorkersCloser(p: Pool, t: Thread)
    requires Inv(p) && Told(p) && CanStep(p, t)
    ensures var q := StepOf(p, t).value;
            && Told(q) && |q.workers| == |p.workers|
            && RankSum(q.workers) + (if t.Worker? then 1 else 0) <= RankSum(p.workers)
  {
    hide Inv, Rank, Told, OpOf, Apply, MoveOn;
    var q := StepOf(p, t).value;
    assert Do(p, Step(t)) == Some(q);
    GoesOn(p, t);
    StillTold(p, Step(t));
    forall j: nat | j < |p.workers|
      ensures Rank(q.workers[j]) + (if t == Worker(j) then 1 else 0) <= Rank(p.workers[j])
    {
      RankFalls(p, Step(t), j);
    }
    RankSumFalls(p.workers, q.workers, if t.Worker? then t.worker else -1);
  }

  lemma JoinCloser(p: Pool, t: Thread)
    requires Told(p) && CanStep(p, t)
    ensures ToJoin(StepOf(p, t).value) + (if t == Stopper then 1 else 0) <= ToJoin(p)
  {
    StillTold(p, Step(t));
    Elsewhere(p, t, OpOf(p, t));
  }

  /** A worker or the stopping thread takes nothing from what a producer has to do with its mutex. */
  lemma HeldStays(p: Pool, t: Thread, m: Mutex)
    requires CanStep(p, t) && !t.Producer?
    ensures Held(StepOf(p, t).value, m) <= Held(p, m)
  {
    hide WorkerOp, WorkerNext, StopperOp, StopperNext, Apply;
    GoesOn(p, t);
    Elsewhere(p, t, OpOf(p, t));
  }

  /** A producer that holds a mutex comes closer to giving it back. */
  lemma ProducerCloser(p: Pool, w: ProducerAt, m: Mutex)
    requires ProducerHolds(w, m)
    ensures ToRelease(ProducerNext(p, w)) < ToRelease(w)
    ensures forall l :: ProducerOp(p, w) != Lock(l)
    ensures forall l :: l != m ==> !ProducerHolds(w, l) && ProducerOp(p, w) != Unlock(l)
  {
  }

  /** Its own mutex. */
  lemma HeldFalls(p: Pool, i: nat, m: Mutex)
    requires Locks(p) && Holds(p, Producer(i), m) && CanStep(p, Producer(i))
    ensures Held(StepOf(p, Producer(i)).value, m) < Held(p, m)
  {
    hide ProducerOp, ProducerNext, ProducerHolds, Apply, ToRelease, Locks;
    GoesOn(p, Producer(i));
    Elsewhere(p, Producer(i), OpOf(p, Producer(i)));
    ProducerCloser(p, p.producers[i], m);
    Owned(p, Producer(i), m);
  }

  /** The other mutex, which it neither holds nor locks. */
  lemma HeldElsewhere(p: Pool, i: nat, m: Mutex, l: Mutex)
    requires Locks(p) && Holds(p, Producer(i), m) && CanStep(p, Producer(i)) && l != m
    ensures Held(StepOf(p, Producer(i)).value, l) == Held(p, l)
  {
    hide ProducerOp, ProducerNext, ProducerHolds, Apply, ToRelease;
    GoesOn(p, Producer(i));
    Elsewhere(p, Producer(i), OpOf(p, Producer(i)));
    ProducerCloser(p, p.producers[i], m);
    assert Owner(p, l) != Some(Producer(i)) by {
      assert !Holds(p, Producer(i), l);
    }
    WakeKeeps(p.producers);
  }

  lemma WakeKeeps(ps: seq<ProducerAt>)
    ensures forall j :: 0 <= j < |ps| ==> ToRelease(WakeProducers(ps)[j]) == ToRelease(ps[j])
  {
  }

  predicate Helps(p: Pool, t: Thread) {
    CanStep(p, t) && (t.Producer? ==> Holds(p, t, TasksMutex) || Holds(p, t, FreeMutex))
  }

  lemma Closer(p: Pool, t: Thread)
    requires Inv(p) && Told(p) && Helps(p, t)
    ensures Told(StepOf(p, t).value) && Left(StepOf(p, t).value) < Left(p)
  {
    hide Rings, Cells, Jobs, Tickets, Known, WorkerWakeups, ProducerWakeups, Stopping, Told, StepOf;
    hide Holds, RankSum, ToJoin, Held, CanStep;
    WorkersCloser(p, t);
    JoinCloser(p, t);
    if t.Producer? {
      var m := if Holds(p, t, TasksMutex) then TasksMutex else FreeMutex;
      HeldFalls(p, t.producer, m);
      HeldElsewhere(p, t.producer, m, if m == TasksMutex then FreeMutex else TasksMutex);
    } else {
      HeldStays(p, t, TasksMutex);
      HeldStays(p, t, FreeMutex);
    }
  }

  /** Until the pool is freed some thread can take such a step. */
  lemma Helper(p: Pool) returns (t: Thread)
    requires Inv(p) && Told(p) && p.stopper != Freed
    ensures Helps(p, t)
  {
    hide Rings, Cells, Jobs, Tickets, WorkerWakeups, ProducerWakeups, StepOf;
    if i: nat :| CanStep(p, Worker(i)) {
      return Worker(i);
    }
    if CanStep(p, Stopper) {
      return Stopper;
    }
    StopperStuck(p);
    var k := p.stopper.next;
    if p.taskLock == None && p.freeLock == None {
      WorkerStuck(p, k);
      assert false;
    } else {
      var m := if p.taskLock.Some? then TasksMutex else FreeMutex;
      t := Owner(p, m).value;
      assert Holds(p, t, m);
      HolderRuns(p, t, m);
      assert CanStep(p, t);
    }
  }

  /** A run of steps of the threads alone, from any told state to the freed pool. */
  lemma {:induction false} RunToEnd(p: Pool) returns (run: seq<Action>)
    requires Inv(p) && Told(p)
    ensures |run| <= Left(p) && forall k :: 0 <= k < |run| ==> run[k].Step?
    ensures After(p, run).Some? && After(p, run).value.stopper == Freed
    decreases Left(p)
  {
    hide Inv, Told, Helps, Left, StepOf;
    if p.stopper == Freed {
      return [];
    }
    var t := Helper(p);
    HelpCan(p, t);
    Closer(p, t);
    InvKept(p, Step(t));
    var rest := RunToEnd(StepOf(p, t).value);
    run := [Step(t)] + rest;
    assert run[1..] == rest;
  }

  lemma HelpCan(p: Pool, t: Thread)
    requires Helps(p, t)
    ensures StepOf(p, t).Some?
  {
  }

  lemma LeftBound(p: Pool)
    requires Inv(p)
    ensures Left(p) <= 11 * |p.workers| + 8
  {
    hide Inv, RankSum;
    RankSumBound(p.workers);
  }

  /**
   * From every state in which the pool was told to stop, the threads can run on to the freed pool
   * in a number of steps bounded by the number of workers.
   */
  lemma StopEnds(p: Pool)
    requires Reachable(p) && Told(p)
    ensures exists run: seq<Action> :: |run| <= 11 * |p.workers| + 8 && (forall k :: 0 <= k < |run| ==> run[k].Step?)
              && After(p, run).Some? && After(p, run).value.stopper == Freed
  {
    hide Inv, Told, Left, After;
    ReachableInv(p);
    LeftBound(p);
    var run := RunToEnd(p);
  }
}
