/** Once the pool is being stopped, every fair run frees it. */
module PoolFair {
  import opened Wrappers
  import opened ThreadPool
  import opened PoolInvariant
  import opened PoolSteps
  import opened PoolRuns
  import opened PoolSafety
  import opened PoolEnd

  // Infinite runs.

  /** The pool after the first `n` actions; one that is not possible changes nothing. */
  function At(p: Pool, run: nat -> Action, n: nat): Pool {
    if n == 0 then p
    else
      var q := At(p, run, n - 1);
      var r := Do(q, run(n - 1));
      if r == None then q else r.value
  }

  /** The thread can step again and again. */
  ghost predicate Often(p: Pool, run: nat -> Action, t: Thread) {
    forall n: nat :: SomeTime(p, run, t, n)
  }

  ghost predicate SomeTime(p: Pool, run: nat -> Action, t: Thread, n: nat) {
    exists m: nat :: m >= n && CanStep(At(p, run, m), t)
  }

  predicate StepsAt(p: Pool, run: nat -> Action, t: Thread, m: nat) {
    run(m) == Step(t) && CanStep(At(p, run, m), t)
  }

  ghost predicate StepsAfter(p: Pool, run: nat -> Action, t: Thread, n: nat) {
    exists m: nat :: m >= n && StepsAt(p, run, t, m)
  }

  /** No thread that can step again and again is passed over forever. */
  ghost predicate Fair(p: Pool, run: nat -> Action) {
    forall t, n: nat :: Often(p, run, t) ==> StepsAfter(p, run, t, n)
  }

  lemma {:induction false} AtInv(p: Pool, run: nat -> Action, n: nat)
    requires Inv(p)
    ensures Inv(At(p, run, n))
  {
    hide Inv, Do;
    if n > 0 {
      AtInv(p, run, n - 1);
      if Do(At(p, run, n - 1), run(n - 1)) != None {
        InvKept(At(p, run, n - 1), run(n - 1));
      }
    }
  }

  // A mutex is given back.

  /** The steps a thread makes until it gives its mutex back. */
  function WorkerTurn(w: WorkerAt): nat {
    match w
    case TestTasks => 4
    case Recheck => 3
    case Take => 2
    case SleepTasks => 1
    case UnlockStopping => 1
    case UnlockNothing => 1
    case UnlockTaken(_, _) => 1
    case GiveBack(_) => 3
    case TellProducers => 2
    case UnlockFree => 1
    case UnlockFailed => 1
    case _ => 0
  }

  function Turn(p: Pool, t: Thread): nat {
    match t
    case Worker(i) => if i < |p.workers| then WorkerTurn(p.workers[i]) else 0
    case Producer(i) => if i < |p.producers| then ToRelease(p.producers[i]) else 0
    case Stopper => if p.stopper.StopBroadcast? then 2 else if p.stopper.StopUnlock? then 1 else 0
  }

  lemma WorkerTurnFalls(p: Pool, w: WorkerAt, m: Mutex)
    requires WorkerHolds(w, m)
    ensures WorkerTurn(WorkerNext(p, w)) < WorkerTurn(w)
  {
  }

  /** A step of the holder brings it closer to giving the mutex back. */
  lemma TurnFalls(p: Pool, t: Thread, m: Mutex)
    requires Holds(p, t, m) && CanStep(p, t)
    ensures Turn(StepOf(p, t).value, t) < Turn(p, t)
  {
    hide WorkerNext, WorkerTurn, ProducerNext, ToRelease, Apply, WorkerOp, ProducerOp;
    GoesOn(p, t);
    Elsewhere(p, t, OpOf(p, t));
    match t {
      case Worker(i) => WorkerTurnFalls(p, p.workers[i], m);
      case Producer(i) => ProducerCloser(p, p.producers[i], m);
      case Stopper =>
    }
  }

  /** A step of another thread leaves the holder where it is. */
  lemma HolderStays(p: Pool, u: Thread, t: Thread, m: Mutex)
    requires Holds(p, t, m) && CanStep(p, u) && u != t
    ensures Turn(StepOf(p, u).value, t) == Turn(p, t)
  {
    hide WorkerNext, WorkerTurn, ProducerNext, StopperNext, ToRelease, Apply, OpOf;
    Elsewhere(p, u, OpOf(p, u));
  }

  /** Anything else leaves the holder where it is. */
  lemma TurnStays(p: Pool, a: Action, t: Thread, m: Mutex)
    requires Holds(p, t, m) && Do(p, a).Some? && a != Step(t)
    ensures Turn(Do(p, a).value, t) == Turn(p, t)
  {
    hide WorkerTurn, ToRelease, StepOf;
    if a.Step? {
      HolderStays(p, a.thread, t, m);
    }
  }

  /** A mutex passes from one thread to another only by being free. */
  lemma OwnerStays(p: Pool, a: Action, l: Mutex)
    requires Do(p, a).Some? && Owner(p, l) != None
    ensures Owner(Do(p, a).value, l) == Owner(p, l) || Owner(Do(p, a).value, l) == None
  {
    hide StepOf, OpOf;
    if a.Step? {
      OwnerAfter(p, a.thread, l);
    }
  }

  /** While a mutex is never free its owner stays, and only its own steps shorten its turn. */
  lemma {:induction false} OwnerOn(p: Pool, run: nat -> Action, n: nat, m: nat, l: Mutex)
    requires n <= m && Inv(p)
    requires forall k: nat :: n <= k <= m ==> Owner(At(p, run, k), l) != None
    ensures Owner(At(p, run, m), l) == Owner(At(p, run, n), l)
    ensures Turn(At(p, run, m), Owner(At(p, run, n), l).value) <= Turn(At(p, run, n), Owner(At(p, run, n), l).value)
  {
    hide Inv, Do, Turn, Owner, Holds;
    if m > n {
      OwnerOn(p, run, n, m - 1, l);
      var q := At(p, run, m - 1);
      if Do(q, run(m - 1)) != None {
        AtInv(p, run, m - 1);
        OwnerStays(q, run(m - 1), l);
        TurnOn(q, run(m - 1), l);
      }
    }
  }

  lemma TurnOn(p: Pool, a: Action, l: Mutex)
    requires Inv(p) && Owner(p, l) != None && Do(p, a).Some?
    ensures Turn(Do(p, a).value, Owner(p, l).value) + (if a == Step(Owner(p, l).value) then 1 else 0)
         <= Turn(p, Owner(p, l).value)
  {
    hide Turn, Holds, StepOf, Rings, Cells, Jobs, Tickets, Known, WorkerWakeups, ProducerWakeups, Stopping;
    var t := Owner(p, l).value;
    assert Holds(p, t, l);
    if a == Step(t) {
      TurnFalls(p, t, l);
    } else {
      TurnStays(p, a, t, l);
    }
  }

  ghost predicate GivenBack(p: Pool, l: Mutex) {
    Owner(p, l) == None || p.stopper == Freed
  }

  function TurnOf(p: Pool, l: Mutex): nat {
    if Owner(p, l) == None then 0 else Turn(p, Owner(p, l).value)
  }

  /** In a fair run every mutex is free at some later time, or the pool is freed. */
  lemma {:induction false} Release(p: Pool, run: nat -> Action, n: nat, l: Mutex) returns (m: nat)
    requires Inv(p) && Fair(p, run)
    ensures m >= n && GivenBack(At(p, run, m), l)
    decreases TurnOf(At(p, run, n), l)
  {
    hide Inv, Do, Turn, At, Owner, Holds, CanStep;
    if k: nat :| k >= n && GivenBack(At(p, run, k), l) {
      return k;
    }
    var t := Owner(At(p, run, n), l).value;
    forall k: nat | k >= n ensures Owner(At(p, run, k), l) == Some(t) && CanStep(At(p, run, k), t) {
      OwnerOn(p, run, n, k, l);
      AtInv(p, run, k);
      OwnerRuns(At(p, run, k), l);
    }
    AlwaysOften(p, run, n, t);
    assert StepsAfter(p, run, t, n);
    var k: nat :| k >= n && StepsAt(p, run, t, k);
    OwnerOn(p, run, n, k, l);
    AtInv(p, run, k);
    AtNext(p, run, t, k);
    TurnOn(At(p, run, k), Step(t), l);
    m := Release(p, run, k + 1, l);
  }

  lemma OwnerRuns(p: Pool, l: Mutex)
    requires Inv(p) && Owner(p, l) != None && p.stopper != Freed
    ensures CanStep(p, Owner(p, l).value)
  {
    hide StepOf, Rings, Cells, Jobs, Tickets, Known, WorkerWakeups, ProducerWakeups, Stopping;
    assert Holds(p, Owner(p, l).value, l);
    HolderRuns(p, Owner(p, l).value, l);
  }

  lemma AlwaysOften(p: Pool, run: nat -> Action, n: nat, t: Thread)
    requires forall k: nat :: k >= n ==> CanStep(At(p, run, k), t)
    ensures Often(p, run, t)
  {
    hide At, CanStep;
    forall k: nat ensures SomeTime(p, run, t, k) {
      var m := if k >= n then k else n;
      assert CanStep(At(p, run, m), t);
    }
  }

  lemma AtNext(p: Pool, run: nat -> Action, t: Thread, n: nat)
    requires StepsAt(p, run, t, n)
    ensures Do(At(p, run, n), Step(t)) == Some(At(p, run, n + 1))
  {
    hide StepOf;
  }

  // The workers and the stopping thread come to their ends.

  /** How far they are from it. */
  function Near(p: Pool): nat {
    RankSum(p.workers) + ToJoin(p)
  }

  /** A step of a worker or of the stopping thread. */
  predicate Own(a: Action) {
    a.Step? && !a.thread.Producer?
  }

  /** Anything else leaves them where they are. */
  lemma SamePlaces(p: Pool, a: Action)
    requires Inv(p) && Told(p) && Do(p, a).Some? && !Own(a)
    ensures Do(p, a).value.workers == p.workers && Do(p, a).value.stopper == p.stopper
  {
    hide Rings, Cells, Jobs, Tickets, Known, Locks, WorkerWakeups, ProducerWakeups, Apply, OpOf;
    if a.Step? {
      Elsewhere(p, a.thread, OpOf(p, a.thread));
      assert WakeWorkers(p.workers) == p.workers;
    }
  }

  lemma NearDown(p: Pool, a: Action)
    requires Inv(p) && Told(p) && Do(p, a).Some?
    ensures Told(Do(p, a).value) && Near(Do(p, a).value) + (if Own(a) then 1 else 0) <= Near(p)
  {
    hide Inv, RankSum, ToJoin, StepOf;
    StillTold(p, a);
    if Own(a) {
      assert CanStep(p, a.thread);
      WorkersCloser(p, a.thread);
      JoinCloser(p, a.thread);
    } else {
      SamePlaces(p, a);
      SameJoin(p, Do(p, a).value);
    }
  }

  lemma SameJoin(p: Pool, q: Pool)
    requires q.workers == p.workers && q.stopper == p.stopper
    ensures ToJoin(q) == ToJoin(p)
  {
  }

  lemma {:induction false} NearOn(p: Pool, run: nat -> Action, n: nat, m: nat)
    requires n <= m && Inv(p) && Told(At(p, run, n))
    ensures Told(At(p, run, m)) && Near(At(p, run, m)) <= Near(At(p, run, n))
  {
    hide Inv, Do, Near, Told;
    if m > n {
      NearOn(p, run, n, m - 1);
      AtInv(p, run, m - 1);
      if Do(At(p, run, m - 1), run(m - 1)) != None {
        NearDown(At(p, run, m - 1), run(m - 1));
      }
    }
  }

  /** While the distance stays, so do they. */
  lemma {:induction false} LevelSame(p: Pool, run: nat -> Action, n: nat, m: nat)
    requires n <= m && Inv(p) && Told(At(p, run, n))
    requires Near(At(p, run, m)) == Near(At(p, run, n))
    ensures At(p, run, m).workers == At(p, run, n).workers && At(p, run, m).stopper == At(p, run, n).stopper
  {
    hide Inv, Do, Near, Told;
    if m > n {
      NearOn(p, run, n, m - 1);
      AtInv(p, run, m - 1);
      var q, a := At(p, run, m - 1), run(m - 1);
      if Do(q, a) != None {
        NearDown(q, a);
        LevelSame(p, run, n, m - 1);
        SamePlaces(q, a);
      } else {
        LevelSame(p, run, n, m - 1);
      }
    }
  }

  /** In a fair run one of them that can step again and again comes closer. */
  lemma OftenGoes(p: Pool, run: nat -> Action, n: nat, t: Thread) returns (m: nat)
    requires Inv(p) && Fair(p, run) && Told(At(p, run, n)) && !t.Producer? && Often(p, run, t)
    ensures m >= n && Near(At(p, run, m)) < Near(At(p, run, n))
  {
    hide Inv, Do, Near, Told, At, CanStep, Often;
    assert StepsAfter(p, run, t, n);
    var k: nat :| k >= n && StepsAt(p, run, t, k);
    NearOn(p, run, n, k);
    AtInv(p, run, k);
    AtNext(p, run, t, k);
    NearDown(At(p, run, k), Step(t));
    m := k + 1;
  }

  /** The mutex a worker is about to lock. */
  function Wants(w: WorkerAt): Mutex {
    if w.LockFree? then FreeMutex else TasksMutex
  }

  /** A worker that cannot step can as soon as its mutex is free. */
  lemma WaitsForMutex(p: Pool, q: Pool, i: nat)
    requires i < |p.workers| && WorkerKnows(p, p.workers[i]) && !CanStep(p, Worker(i))
    requires !p.workers[i].AwaitTasks? && !p.workers[i].Exited?
    requires q.workers == p.workers && Owner(q, Wants(p.workers[i])) == None
    ensures CanStep(q, Worker(i))
  {
  }

  ghost predicate ComesCloser(p: Pool, run: nat -> Action, n: nat, m: nat) {
    m >= n && (At(p, run, m).stopper == Freed || Near(At(p, run, m)) < Near(At(p, run, n)))
  }

  /** The thread cannot step any more. */
  ghost predicate NeverAgain(p: Pool, run: nat -> Action, t: Thread, n: nat) {
    forall k: nat :: k >= n ==> !CanStep(At(p, run, k), t)
  }

  lemma LastTime(p: Pool, run: nat -> Action, t: Thread, n: nat) returns (m: nat)
    requires !Often(p, run, t)
    ensures m >= n && NeverAgain(p, run, t, m)
  {
    hide At, CanStep;
    var k: nat :| !SomeTime(p, run, t, k);
    m := if k >= n then k else n;
  }

  /** The worker that the stopping thread waits for once it cannot step any more. */
  lemma Joined(p: Pool, run: nat -> Action, n: nat, k: nat)
    requires Inv(p) && Told(At(p, run, n)) && k >= n && NeverAgain(p, run, Stopper, k) && !ComesCloser(p, run, n, k)
    ensures var q := At(p, run, n);
            && q.stopper.Join? && q.stopper.next < |q.workers|
            && !q.workers[q.stopper.next].Exited? && !q.workers[q.stopper.next].AwaitTasks?
  {
    hide Inv, At, CanStep, Near;
    NearOn(p, run, n, k);
    LevelSame(p, run, n, k);
    StopperStuck(At(p, run, k));
    AtInv(p, run, n);
    NoneAwaits(At(p, run, n), At(p, run, n).stopper.next);
  }

  lemma NoneAwaits(p: Pool, i: nat)
    requires Inv(p) && Told(p) && i < |p.workers|
    ensures !p.workers[i].AwaitTasks?
  {
    hide Rings, Cells, Jobs, Tickets, Known, Locks, WorkerWakeups, ProducerWakeups;
  }

  lemma KnownWorker(p: Pool, i: nat)
    requires Inv(p) && i < |p.workers|
    ensures WorkerKnows(p, p.workers[i])
  {
    hide Rings, Cells, Jobs, Tickets, Locks, WorkerWakeups, ProducerWakeups, Stopping;
  }

  /** A worker that cannot step any more, and has not ended, would step once its mutex is free: so time goes on. */
  lemma WorkerGoes(p: Pool, run: nat -> Action, n: nat, k: nat, i: nat) returns (m: nat)
    requires Inv(p) && Fair(p, run) && Told(At(p, run, n)) && k >= n && NeverAgain(p, run, Worker(i), k)
    requires i < |At(p, run, n).workers|
    requires !At(p, run, n).workers[i].Exited? && !At(p, run, n).workers[i].AwaitTasks?
    ensures ComesCloser(p, run, n, m)
  {
    hide Inv, At, CanStep, Near;
    var w := At(p, run, n).workers[i];
    m := Release(p, run, k, Wants(w));
    if ComesCloser(p, run, n, k) {
      return k;
    }
    if !ComesCloser(p, run, n, m) {
      NearOn(p, run, n, k);
      LevelSame(p, run, n, k);
      NearOn(p, run, n, m);
      LevelSame(p, run, n, m);
      AtInv(p, run, k);
      KnownWorker(At(p, run, k), i);
      WaitsForMutex(At(p, run, k), At(p, run, m), i);
      assert false;
    }
  }

  /** In a fair run that is not over the workers and the stopping thread come closer to their ends. */
  lemma Progress(p: Pool, run: nat -> Action, n: nat) returns (m: nat)
    requires Inv(p) && Fair(p, run) && Told(At(p, run, n))
    ensures ComesCloser(p, run, n, m)
  {
    hide Inv, At, CanStep, Near, Told, Often, NeverAgain;
    if Often(p, run, Stopper) {
      m := OftenGoes(p, run, n, Stopper);
      return;
    }
    var k := LastTime(p, run, Stopper, n);
    if ComesCloser(p, run, n, k) {
      return k;
    }
    Joined(p, run, n, k);
    var i := At(p, run, n).stopper.next;
    if Often(p, run, Worker(i)) {
      m := OftenGoes(p, run, n, Worker(i));
      return;
    }
    var j := LastTime(p, run, Worker(i), n);
    m := WorkerGoes(p, run, n, j, i);
  }

  lemma {:induction false} FreedIn(p: Pool, run: nat -> Action, n: nat) returns (m: nat)
    requires Inv(p) && Fair(p, run) && Told(At(p, run, n))
    ensures m >= n && At(p, run, m).stopper == Freed
    decreases Near(At(p, run, n))
  {
    hide Inv, At, Near, Told;
    m := Progress(p, run, n);
    if At(p, run, m).stopper != Freed {
      NearOn(p, run, n, m);
      m := FreedIn(p, run, m);
    }
  }

  // From the call that stops the pool to the broadcast.

  /** Until it has told the workers the stopping thread waits for the mutex only. */
  lemma StopperStays(p: Pool, a: Action)
    requires p.stopper != Quiet && Do(p, a).Some? && a != Step(Stopper)
    ensures Do(p, a).value.stopper == p.stopper
  {
    hide Apply, OpOf;
    if a.Step? {
      Elsewhere(p, a.thread, OpOf(p, a.thread));
    }
  }

  lemma {:induction false} StopperOn(p: Pool, run: nat -> Action, n: nat, m: nat)
    requires n <= m && At(p, run, n).stopper != Quiet
    requires forall k: nat :: n <= k < m ==> !StepsAt(p, run, Stopper, k)
    ensures At(p, run, m).stopper == At(p, run, n).stopper
  {
    hide Do;
    if m > n {
      StopperOn(p, run, n, m - 1);
      var q, a := At(p, run, m - 1), run(m - 1);
      if Do(q, a) != None {
        NotStepping(p, run, m - 1);
        StopperStays(q, a);
      }
    }
  }

  lemma NotStepping(p: Pool, run: nat -> Action, n: nat)
    requires !StepsAt(p, run, Stopper, n) && Do(At(p, run, n), run(n)) != None
    ensures run(n) != Step(Stopper)
  {
    hide StepOf, At;
  }

  /** In a fair run it steps before it has told them. */
  lemma StopperSteps(p: Pool, run: nat -> Action, n: nat)
    requires Inv(p) && Fair(p, run) && (At(p, run, n).stopper.StopLock? || At(p, run, n).stopper.StopBroadcast?)
    ensures StepsAfter(p, run, Stopper, n)
  {
    hide Inv, At, CanStep, Often, StepsAt, SomeTime;
    if !StepsAfter(p, run, Stopper, n) {
      forall k: nat ensures SomeTime(p, run, Stopper, k) {
        var m := Release(p, run, if k >= n then k else n, TasksMutex);
        StopperOn(p, run, n, m);
        StopperRuns(At(p, run, m));
        SomeTimeIs(p, run, Stopper, k, m);
      }
      OftenIs(p, run, Stopper);
    }
  }

  lemma StopperRuns(p: Pool)
    requires p.stopper.StopBroadcast? || (p.stopper.StopLock? && p.taskLock == None)
    ensures CanStep(p, Stopper)
  {
  }

  lemma SomeTimeIs(p: Pool, run: nat -> Action, t: Thread, n: nat, m: nat)
    requires m >= n && CanStep(At(p, run, m), t)
    ensures SomeTime(p, run, t, n)
  {
  }

  lemma OftenIs(p: Pool, run: nat -> Action, t: Thread)
    requires forall n: nat :: SomeTime(p, run, t, n)
    ensures Often(p, run, t)
  {
    hide SomeTime;
  }

  /** The first step of the stopping thread from time `n` on. */
  lemma FirstStep(p: Pool, run: nat -> Action, n: nat) returns (m: nat)
    requires StepsAfter(p, run, Stopper, n)
    ensures m >= n && StepsAt(p, run, Stopper, m) && forall k: nat :: n <= k < m ==> !StepsAt(p, run, Stopper, k)
  {
    hide StepsAt;
    var last: nat :| last >= n && StepsAt(p, run, Stopper, last);
    m := n;
    while !StepsAt(p, run, Stopper, m)
      invariant n <= m <= last && forall k: nat :: n <= k < m ==> !StepsAt(p, run, Stopper, k)
      decreases last - m
    {
      m := m + 1;
    }
  }

  lemma StopperNextAt(p: Pool, run: nat -> Action, n: nat) returns (m: nat)
    requires Inv(p) && Fair(p, run) && (At(p, run, n).stopper.StopLock? || At(p, run, n).stopper.StopBroadcast?)
    ensures At(p, run, m).stopper == if At(p, run, n).stopper.StopLock? then StopBroadcast else StopUnlock
  {
    hide Inv, At, StepsAfter;
    StopperSteps(p, run, n);
    var k := FirstStep(p, run, n);
    StopperOn(p, run, n, k);
    AtNext(p, run, Stopper, k);
    m := k + 1;
  }

  /** A freed pool stays freed, and none of its threads can step. */
  lemma {:induction false} FreedOn(p: Pool, run: nat -> Action, n: nat, m: nat, t: Thread)
    requires n <= m && Inv(p) && At(p, run, n).stopper == Freed
    ensures At(p, run, m).stopper == Freed && !CanStep(At(p, run, m), t)
  {
    hide Inv, Do, CanStep;
    AtInv(p, run, m);
    if m > n {
      FreedOn(p, run, n, m - 1, t);
      FreedOn(p, run, n, m - 1, Stopper);
      var q, a := At(p, run, m - 1), run(m - 1);
      if Do(q, a) != None {
        StoppedStays(q, a);
      }
    }
    NoneSteps(At(p, run, m), t);
  }

  lemma StoppedStays(p: Pool, a: Action)
    requires p.stopper == Freed && Do(p, a).Some? && !CanStep(p, Stopper)
    ensures Do(p, a).value.stopper == Freed
  {
    hide StepOf;
    if a != Step(Stopper) {
      StopperStays(p, a);
    }
  }

  lemma NoneSteps(p: Pool, t: Thread)
    requires Inv(p) && p.stopper == Freed
    ensures !CanStep(p, t)
  {
    hide Rings, Cells, Jobs, Tickets, Known, Locks, WorkerWakeups, ProducerWakeups;
  }

  /**
   * Once the pool is being stopped, a run passes over no thread that can step again and again if and
   * only if it frees the pool.
   */
  lemma FairFrees(p: Pool, run: nat -> Action)
    requires Reachable(p) && p.stop
    ensures Fair(p, run) <==> exists n: nat :: At(p, run, n).stopper == Freed
  {
    hide Inv, At, CanStep, Often, StepsAfter;
    ReachableInv(p);
    if Fair(p, run) {
      var n := ToldIn(p, run);
      n := FreedIn(p, run, n);
    }
    if n: nat :| At(p, run, n).stopper == Freed {
      forall t ensures !Often(p, run, t) {
        SeldomAfter(p, run, n, t);
      }
    }
  }

  lemma SeldomAfter(p: Pool, run: nat -> Action, n: nat, t: Thread)
    requires Inv(p) && At(p, run, n).stopper == Freed
    ensures !Often(p, run, t)
  {
    hide Inv, At, CanStep;
    forall m: nat | m >= n ensures !CanStep(At(p, run, m), t) {
      FreedOn(p, run, n, m, t);
    }
    assert !SomeTime(p, run, t, n);
  }

  /** In a fair run the workers are told. */
  lemma ToldIn(p: Pool, run: nat -> Action) returns (n: nat)
    requires Inv(p) && p.stop && Fair(p, run)
    ensures Told(At(p, run, n))
  {
    hide Inv, Fair;
    StopMeans(p);
    n := 0;
    if At(p, run, n).stopper.StopLock? {
      n := StopperNextAt(p, run, n);
    }
    if At(p, run, n).stopper.StopBroadcast? {
      n := StopperNextAt(p, run, n);
    }
  }

  lemma StopMeans(p: Pool)
    requires Inv(p) && p.stop
    ensures p.stopper != Quiet
  {
    hide Rings, Cells, Jobs, Tickets, Known, Locks, WorkerWakeups, ProducerWakeups;
  }
}
