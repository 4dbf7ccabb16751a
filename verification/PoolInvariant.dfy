/** What every step of the thread pool keeps, whatever the interleaving. */
module PoolInvariant {
  import opened Wrappers
  import opened RingQueue
  import opened ThreadPool

  /** Two proper rings with room for every cell. */
  predicate Rings(p: Pool) {
    |p.tasks.cells| == |p.free.cells| == |p.slots| && RingOk(p.tasks) && RingOk(p.free)
  }

  // Who holds a mutex can be read off from where the threads are.

  predicate WorkerHolds(w: WorkerAt, m: Mutex) {
    match m
    case TasksMutex =>
      || w.TestTasks? || w.SleepTasks? || w.Recheck? || w.UnlockStopping?
      || w.Take? || w.UnlockNothing? || w.UnlockTaken?
    case FreeMutex => w.GiveBack? || w.TellProducers? || w.UnlockFree? || w.UnlockFailed?
  }

  predicate ProducerHolds(w: ProducerAt, m: Mutex) {
    match m
    case TasksMutex => w.Put? || w.TellWorkers? || w.UnlockTasks? || w.UnlockNotPut?
    case FreeMutex =>
      w.TestFree? || w.SleepFree? || w.UnlockRefused? || w.Obtain? || w.UnlockNoCell? || w.UnlockObtained?
  }

  predicate StopperHolds(w: StopperAt, m: Mutex) {
    m == TasksMutex && (w.StopBroadcast? || w.StopUnlock?)
  }

  predicate Holds(p: Pool, t: Thread, m: Mutex) {
    match t
    case Worker(i) => i < |p.workers| && WorkerHolds(p.workers[i], m)
    case Producer(i) => i < |p.producers| && ProducerHolds(p.producers[i], m)
    case Stopper => StopperHolds(p.stopper, m)
  }

  function Owner(p: Pool, m: Mutex): Option<Thread> {
    if m == TasksMutex then p.taskLock else p.freeLock
  }

  ghost predicate Locks(p: Pool) {
    forall t, m :: Holds(p, t, m) <==> Owner(p, m) == Some(t)
  }

  // Every cell is in exactly one place.

  function Bag(x: Option<nat>): multiset<nat> {
    if x == None then multiset{} else multiset{x.value}
  }

  function Sum<T>(s: seq<T>, f: T -> Option<nat>): multiset<nat> {
    if s == [] then multiset{} else Bag(f(s[0])) + Sum(s[1..], f)
  }

  function UpTo(n: nat): multiset<nat> {
    multiset(seq(n, i => i))
  }

  /** The cell a worker has in its hands. */
  function WorkerSlot(w: WorkerAt): Option<nat> {
    match w
    case UnlockTaken(s, _) => Some(s)
    case CallRoutine(s, _) => Some(s)
    case Clear(s) => Some(s)
    case LockFree(s) => Some(s)
    case GiveBack(s) => Some(s)
    case _ => None
  }

  function ProducerSlot(p: ProducerAt): Option<nat> {
    match p
    case UnlockObtained(_, s) => Some(s)
    case Fill(_, s) => Some(s)
    case WantTasks(_, s) => Some(s)
    case Put(_, s) => Some(s)
    case _ => None
  }

  /** The cells in no thread's hands. */
  function Resting(p: Pool): multiset<nat>
    requires Rings(p)
  {
    p.lost + multiset(Contents(p.free)) + multiset(Contents(p.tasks))
  }

  ghost predicate Cells(p: Pool)
    requires Rings(p)
  {
    Resting(p) + Sum(p.workers, WorkerSlot) + Sum(p.producers, ProducerSlot) == UpTo(|p.slots|)
  }

  // Jobs are served in the order they were accepted, and handled once.

  /** The jobs accepted are those served, in this order, and then those in the queue `c` of cells. */
  predicate InOrder(accepted: seq<Task>, served: seq<Task>, slots: seq<Task>, c: seq<nat>) {
    && |accepted| == |served| + |c|
    && (forall k :: 0 <= k < |served| ==> accepted[k] == served[k])
    && (forall k :: 0 <= k < |c| ==> accepted[|served| + k] == Fetch(slots, c[k]))
  }

  predicate HandledServed(handled: seq<Handled>, served: seq<Task>) {
    forall h :: 0 <= h < |handled| ==> handled[h].ticket < |served| && handled[h].task == served[handled[h].ticket]
  }

  ghost predicate Jobs(p: Pool)
    requires Rings(p)
  {
    InOrder(p.accepted, p.served, p.slots, Contents(p.tasks)) && HandledServed(p.handled, p.served)
  }

  /** The job a worker has taken and not yet handled. */
  function WorkerTicket(w: WorkerAt): Option<nat> {
    match w
    case UnlockTaken(_, t) => Some(t)
    case CallRoutine(_, t) => Some(t)
    case _ => None
  }

  function HandledTicket(h: Handled): Option<nat> {
    Some(h.ticket)
  }

  /** Each of the first `k` tickets was handled once or is in the hands of one worker. */
  ghost predicate TicketsOk(handled: seq<Handled>, workers: seq<WorkerAt>, k: nat) {
    Sum(handled, HandledTicket) + Sum(workers, WorkerTicket) == UpTo(k)
  }

  ghost predicate Tickets(p: Pool) {
    TicketsOk(p.handled, p.workers, |p.served|)
  }

  function NullCalls(h: seq<Handled>): nat {
    if h == [] then 0 else NullCalls(h[..|h| - 1]) + if h[|h| - 1].task.routine == None then 1 else 0
  }

  // What a thread knows where it is.

  predicate WorkerKnows(p: Pool, w: WorkerAt) {
    match w
    case SleepTasks => p.tasks.num == 0
    case Recheck => p.tasks.num > 0 || p.stop
    case Take => p.tasks.num > 0
    case UnlockTaken(s, t) => t < |p.served| && Fetch(p.slots, s) == p.served[t]
    case CallRoutine(s, t) => t < |p.served| && Fetch(p.slots, s) == p.served[t]
    case UnlockStopping => p.stop
    case NoTask => p.stop
    case Exited => p.stop
    case UnlockNothing => false
    case UnlockFailed => false
    case Failed => false
    case _ => true
  }

  predicate ProducerKnows(p: Pool, w: ProducerAt) {
    match w
    case SleepFree(_) => p.free.num == 0
    case UnlockRefused => p.free.num == 0
    case Obtain(_) => p.free.num > 0
    case WantTasks(c, s) => Fetch(p.slots, s) == c.task
    case Put(c, s) => Fetch(p.slots, s) == c.task
    case UnlockNoCell => false
    case UnlockNotPut => false
    case Error => false
    case _ => true
  }

  ghost predicate Known(p: Pool) {
    && (forall i :: 0 <= i < |p.workers| ==> WorkerKnows(p, p.workers[i]))
    && (forall i :: 0 <= i < |p.producers| ==> ProducerKnows(p, p.producers[i]))
  }

  // No wake-up is lost.

  /** A producer is about to wake every worker. */
  predicate TellsWorkers(p: Pool) {
    && p.tasks.num == 1 && p.taskLock.Some? && p.taskLock.value.Producer?
    && p.taskLock.value.producer < |p.producers| && p.producers[p.taskLock.value.producer].TellWorkers?
  }

  /** A worker is about to wake every producer. */
  predicate TellsProducers(p: Pool) {
    && p.free.num == 1 && p.freeLock.Some? && p.freeLock.value.Worker?
    && p.freeLock.value.worker < |p.workers| && p.workers[p.freeLock.value.worker].TellProducers?
  }

  ghost predicate WorkerWakeups(p: Pool) {
    p.tasks.num > 0 && !TellsWorkers(p) ==> forall i :: 0 <= i < |p.workers| ==> !p.workers[i].AwaitTasks?
  }

  ghost predicate ProducerWakeups(p: Pool) {
    p.free.num > 0 && !TellsProducers(p) ==> forall i :: 0 <= i < |p.producers| ==> !p.producers[i].AwaitFree?
  }

  // Stopping.

  predicate Told(p: Pool) {
    p.stopper.StopUnlock? || p.stopper.Join? || p.stopper.Freed?
  }

  ghost predicate Stopping(p: Pool) {
    && (p.stop <==> p.stopper != Quiet)
    && (Told(p) ==> forall i :: 0 <= i < |p.workers| ==> !p.workers[i].AwaitTasks? && !p.workers[i].SleepTasks?)
    && (p.stopper.Join? ==>
          p.stopper.next <= |p.workers| && forall i :: 0 <= i < p.stopper.next ==> p.workers[i].Exited?)
    && (p.stopper.Freed? ==> forall i :: 0 <= i < |p.workers| ==> p.workers[i].Exited?)
  }

  ghost predicate Inv(p: Pool) {
    && Rings(p) && Locks(p) && Cells(p) && Jobs(p) && Tickets(p) && Known(p)
    && WorkerWakeups(p) && ProducerWakeups(p) && Stopping(p) && |p.lost| == NullCalls(p.handled)
  }

  // Sums over threads.

  lemma Together(z: multiset<nat>, a: multiset<nat>, b: multiset<nat>, x: multiset<nat>, y: multiset<nat>)
    requires a + x == b + y
    ensures (z + a) + x == (z + b) + y
  {
    assert (z + a) + x == z + (a + x);
    assert (z + b) + y == z + (b + y);
  }

  lemma {:induction false} SumUpdate<T>(s: seq<T>, i: nat, x: T, f: T -> Option<nat>)
    requires i < |s|
    ensures Sum(s[i := x], f) + Bag(f(s[i])) == Sum(s, f) + Bag(f(x))
  {
    hide Bag;
    var t := s[i := x];
    if i == 0 {
      assert t[1..] == s[1..];
      Together(Sum(s[1..], f), Bag(f(x)), Bag(f(s[0])), Bag(f(s[0])), Bag(f(x)));
      assert Sum(t, f) == Sum(s[1..], f) + Bag(f(x));
      assert Sum(s, f) == Sum(s[1..], f) + Bag(f(s[0]));
    } else {
      assert t[1..] == s[1..][i - 1 := x];
      SumUpdate(s[1..], i - 1, x, f);
      Together(Bag(f(s[0])), Sum(t[1..], f), Sum(s[1..], f), Bag(f(s[i])), Bag(f(x)));
    }
  }

  lemma {:induction false} SumSame<T>(s: seq<T>, t: seq<T>, f: T -> Option<nat>)
    requires |s| == |t| && forall i :: 0 <= i < |s| ==> f(s[i]) == f(t[i])
    ensures Sum(s, f) == Sum(t, f)
  {
    if s != [] {
      SumSame(s[1..], t[1..], f);
    }
  }

  lemma {:induction false} SumSnoc<T>(s: seq<T>, x: T, f: T -> Option<nat>)
    ensures Sum(s + [x], f) == Sum(s, f) + Bag(f(x))
  {
    if s == [] {
      assert s + [x] == [x] && [x][1..] == [];
    } else {
      assert (s + [x])[1..] == s[1..] + [x];
      SumSnoc(s[1..], x, f);
    }
  }

  lemma {:induction false} SumPart<T>(s: seq<T>, i: nat, x: nat, f: T -> Option<nat>)
    requires i < |s| && f(s[i]) == Some(x)
    ensures Sum(s, f)[x] >= 1
  {
    if i > 0 {
      SumPart(s[1..], i - 1, x, f);
    }
  }

  lemma {:induction false} SumParts<T>(s: seq<T>, i: nat, j: nat, x: nat, f: T -> Option<nat>)
    requires i < j < |s| && f(s[i]) == f(s[j]) == Some(x)
    ensures Sum(s, f)[x] >= 2
  {
    if i > 0 {
      SumParts(s[1..], i - 1, j - 1, x, f);
    } else {
      SumPart(s[1..], j - 1, x, f);
    }
  }

  lemma UpToOnce(n: nat, x: nat)
    ensures UpTo(n)[x] == (if x < n then 1 else 0) && |UpTo(n)| == n
  {
    var s := seq(n, i => i);
    if x < n {
      assert s == s[..x] + [x] + s[x + 1..];
      assert x !in s[..x] && x !in s[x + 1..];
    } else {
      assert x !in s;
    }
  }

  lemma UpToNext(n: nat)
    ensures UpTo(n + 1) == UpTo(n) + multiset{n}
  {
    assert seq(n + 1, i => i) == seq(n, i => i) + [n];
  }

  lemma Exchange(a: multiset<nat>, b: multiset<nat>, c: multiset<nat>, d: multiset<nat>,
                 x: multiset<nat>, y: multiset<nat>)
    requires b + y == a + x && d + x == c + y
    ensures b + d == a + c
  {
    forall o
      ensures (b + d)[o] == (a + c)[o]
    {
      assert (b + y)[o] == (a + x)[o] && (d + x)[o] == (c + y)[o];
    }
  }

  // A cell is in one place only.

  lemma WorkersApart(p: Pool, i: nat, j: nat, x: nat)
    requires Rings(p) && Cells(p) && i < |p.workers| && j < |p.workers|
    requires WorkerSlot(p.workers[i]) == WorkerSlot(p.workers[j]) == Some(x)
    ensures i == j
  {
    UpToOnce(|p.slots|, x);
    if i < j { SumParts(p.workers, i, j, x, WorkerSlot); }
    if j < i { SumParts(p.workers, j, i, x, WorkerSlot); }
  }

  lemma ProducersApart(p: Pool, i: nat, j: nat, x: nat)
    requires Rings(p) && Cells(p) && i < |p.producers| && j < |p.producers|
    requires ProducerSlot(p.producers[i]) == ProducerSlot(p.producers[j]) == Some(x)
    ensures i == j
  {
    UpToOnce(|p.slots|, x);
    if i < j { SumParts(p.producers, i, j, x, ProducerSlot); }
    if j < i { SumParts(p.producers, j, i, x, ProducerSlot); }
  }

  lemma WorkerProducerApart(p: Pool, i: nat, j: nat, x: nat)
    requires Rings(p) && Cells(p) && i < |p.workers| && j < |p.producers|
    requires WorkerSlot(p.workers[i]) == Some(x)
    ensures ProducerSlot(p.producers[j]) != Some(x)
  {
    UpToOnce(|p.slots|, x);
    SumPart(p.workers, i, x, WorkerSlot);
    if ProducerSlot(p.producers[j]) == Some(x) {
      SumPart(p.producers, j, x, ProducerSlot);
    }
  }

  /** A cell in a thread's hands exists and is in neither queue, so neither queue is full. */
  lemma InHands(p: Pool, s: nat)
    requires Rings(p) && Cells(p)
    requires s in Sum(p.workers, WorkerSlot) + Sum(p.producers, ProducerSlot)
    ensures s < |p.slots| && s !in Contents(p.tasks)
    ensures p.tasks.num < |p.slots| && p.free.num < |p.slots|
  {
    UpToOnce(|p.slots|, s);
    assert s in multiset(Contents(p.tasks)) <==> s in Contents(p.tasks);
  }

  // One operation.

  /** What has to hold for an operation to succeed and to be the right one. */
  predicate Ready(p: Pool, op: Op)
    requires Rings(p)
  {
    match op
    case TakeTask => p.tasks.num > 0
    case TakeFree => p.free.num > 0
    case PutTask(task, s) => p.tasks.num < |p.slots| && Fetch(p.slots, s) == task
    case PutFree(s) => p.free.num < |p.slots|
    case Write(s, _) => s < |p.slots| && s !in Contents(p.tasks)
    case Run(s, k) => k < |p.served| && Fetch(p.slots, s) == p.served[k]
    case _ => true
  }

  /** The cell in the hands of a thread before and after its operation. */
  predicate Carries(p: Pool, op: Op, before: Option<nat>, after: Option<nat>) {
    match op
    case TakeTask => before == None && after == Dequeue(p.tasks).1
    case TakeFree => before == None && after == Dequeue(p.free).1
    case PutTask(_, s) => before == Some(s) && after == None
    case PutFree(s) => before == Some(s) && after == None
    case Run(s, _) => before == Some(s) && after == if Fetch(p.slots, s).routine == None then None else Some(s)
    case _ => before == after
  }

  lemma Applied(p: Pool, t: Thread, op: Op)
    requires Rings(p) && Ready(p, op) && Apply(p, t, op).Some?
    ensures var q := Apply(p, t, op).value;
            && Rings(q)
            && Contents(q.tasks) ==
               (if op.TakeTask? then Contents(p.tasks)[1..]
                else if op.PutTask? then Contents(p.tasks) + [op.cell] else Contents(p.tasks))
            && Contents(q.free) ==
               (if op.TakeFree? then Contents(p.free)[1..]
                else if op.PutFree? then Contents(p.free) + [op.cell] else Contents(p.free))
  {
    hide RingOk, Contents, Enqueue;
    match op
    case TakeTask => DequeueIs(p.tasks);
    case TakeFree => DequeueIs(p.free);
    case PutTask(_, s) => EnqueueIs(p.tasks, s);
    case PutFree(s) => EnqueueIs(p.free, s);
    case _ =>
  }

  lemma FirstOut(a: multiset<nat>, c: seq<nat>, b: multiset<nat>)
    requires c != []
    ensures (a + multiset(c[1..]) + b) + multiset{c[0]} == a + multiset(c) + b
  {
    assert c == [c[0]] + c[1..];
    assert multiset(c) == multiset{c[0]} + multiset(c[1..]);
  }

  lemma LastIn(a: multiset<nat>, c: seq<nat>, x: nat, b: multiset<nat>)
    ensures a + multiset(c + [x]) + b == (a + multiset(c) + b) + multiset{x}
  {
    assert multiset(c + [x]) == multiset(c) + multiset{x};
  }

  lemma Regroup(a: multiset<nat>, b: multiset<nat>)
    ensures a + b + multiset{} == a + b && (a + b) + Bag(None) == a + b
  {
  }

  /** Cells moved between the task queue and a pair of hands. */
  lemma TaskMoved(p: Pool, t: Thread, op: Op, before: Option<nat>, after: Option<nat>)
    requires Rings(p) && Ready(p, op) && Carries(p, op, before, after) && (op.TakeTask? || op.PutTask?)
    ensures var q := Apply(p, t, op).value;
            Rings(q) && |q.slots| == |p.slots| && Resting(q) + Bag(after) == Resting(p) + Bag(before)
  {
    hide RingOk, Contents, Enqueue, Dequeue;
    var q := Apply(p, t, op).value;
    Applied(p, t, op);
    var a, tasks := p.lost + multiset(Contents(p.free)), Contents(p.tasks);
    Regroup(a, multiset(tasks));
    Regroup(a, multiset(Contents(q.tasks)));
    if op.TakeTask? {
      DequeueIs(p.tasks);
      FirstOut(a, tasks, multiset{});
    } else {
      LastIn(a, tasks, op.cell, multiset{});
    }
  }

  /** Cells moved between the queue of free cells and a pair of hands. */
  lemma FreeMoved(p: Pool, t: Thread, op: Op, before: Option<nat>, after: Option<nat>)
    requires Rings(p) && Ready(p, op) && Carries(p, op, before, after) && (op.TakeFree? || op.PutFree?)
    ensures var q := Apply(p, t, op).value;
            Rings(q) && |q.slots| == |p.slots| && Resting(q) + Bag(after) == Resting(p) + Bag(before)
  {
    hide RingOk, Contents, Enqueue, Dequeue;
    var q := Apply(p, t, op).value;
    Applied(p, t, op);
    var free, b := Contents(p.free), multiset(Contents(p.tasks));
    Regroup(p.lost + multiset(free), b);
    Regroup(p.lost + multiset(Contents(q.free)), b);
    if op.TakeFree? {
      DequeueIs(p.free);
      FirstOut(p.lost, free, b);
    } else {
      LastIn(p.lost, free, op.cell, b);
    }
  }

  lemma CellsApplied(p: Pool, t: Thread, op: Op, before: Option<nat>, after: Option<nat>)
    requires Rings(p) && Ready(p, op) && Apply(p, t, op).Some? && Carries(p, op, before, after)
    ensures var q := Apply(p, t, op).value;
            Rings(q) && |q.slots| == |p.slots| && Resting(q) + Bag(after) == Resting(p) + Bag(before)
  {
    hide RingOk, Contents, Enqueue, Dequeue;
    if op.TakeTask? || op.PutTask? {
      TaskMoved(p, t, op, before, after);
    } else if op.TakeFree? || op.PutFree? {
      FreeMoved(p, t, op, before, after);
    } else {
      Applied(p, t, op);
    }
  }

  lemma OrderTaken(accepted: seq<Task>, served: seq<Task>, slots: seq<Task>, c: seq<nat>)
    requires InOrder(accepted, served, slots, c) && c != []
    ensures InOrder(accepted, served + [Fetch(slots, c[0])], slots, c[1..])
  {
    assert accepted[|served| + 0] == Fetch(slots, c[0]);
    forall k | 0 <= k < |c[1..]|
      ensures accepted[|served| + 1 + k] == Fetch(slots, c[1..][k])
    {
      assert accepted[|served| + (k + 1)] == Fetch(slots, c[k + 1]);
    }
  }

  lemma JobsTaken(p: Pool, t: Thread)
    requires Rings(p) && Jobs(p) && Ready(p, TakeTask)
    ensures Rings(Apply(p, t, TakeTask).value) && Jobs(Apply(p, t, TakeTask).value)
  {
    Applied(p, t, TakeTask);
    DequeueIs(p.tasks);
    OrderTaken(p.accepted, p.served, p.slots, Contents(p.tasks));
  }

  lemma JobsPut(p: Pool, t: Thread, task: Task, s: nat)
    requires Rings(p) && Jobs(p) && Ready(p, PutTask(task, s))
    ensures Rings(Apply(p, t, PutTask(task, s)).value) && Jobs(Apply(p, t, PutTask(task, s)).value)
  {
    hide RingOk, Contents, Enqueue;
    Applied(p, t, PutTask(task, s));
    EnqueueIs(p.tasks, s);
  }

  lemma JobsApplied(p: Pool, t: Thread, op: Op)
    requires Rings(p) && Jobs(p) && Ready(p, op) && Apply(p, t, op).Some?
    ensures Rings(Apply(p, t, op).value) && Jobs(Apply(p, t, op).value)
  {
    if op.TakeTask? {
      JobsTaken(p, t);
    } else if op.PutTask? {
      JobsPut(p, t, op.task, op.cell);
    } else {
      Applied(p, t, op);
    }
  }
}
