/**
 * The thread pool as a system of interleaved steps: worker threads, callers of
 * threadpool_add_task, and the thread that stops the pool.  One step is one lock, unlock,
 * wait, wake-up, test of the stop flag, queue operation or call of a routine.
 */
module ThreadPool {
  import opened Wrappers
  import opened RingQueue

  /** A task cell: the routine to call, NULL when there is none, and its argument. */
  datatype Task = Task(routine: Option<nat>, data: Option<nat>)

  const CLEARED := Task(None, None)

  /** The arguments of one call of threadpool_add_task. */
  datatype Call = Call(task: Task, blocking: bool)

  datatype Thread = Worker(worker: nat) | Producer(producer: nat) | Stopper

  /** Where a worker is.  A ticket is the position of its job among the jobs taken so far. */
  datatype WorkerAt =
    | CheckStop | LockTasks | TestTasks | SleepTasks | AwaitTasks | WokenTasks | Recheck
    | UnlockStopping | Take | UnlockNothing
    | UnlockTaken(slot: nat, ticket: nat) | CallRoutine(slot: nat, ticket: nat)
    | Clear(slot: nat) | LockFree(slot: nat) | GiveBack(slot: nat)
    | TellProducers | UnlockFree | UnlockFailed | NoTask | Failed | Exited

  /** Where a thread that adds tasks is. */
  datatype ProducerAt =
    | Idle | WantFree(call: Call) | TestFree(call: Call) | SleepFree(call: Call)
    | AwaitFree(call: Call) | WokenFree(call: Call) | UnlockRefused | Obtain(call: Call)
    | UnlockNoCell | UnlockObtained(call: Call, slot: nat) | Fill(call: Call, slot: nat)
    | WantTasks(call: Call, slot: nat) | Put(call: Call, slot: nat)
    | TellWorkers | UnlockTasks | UnlockNotPut | Error

  datatype StopperAt = Quiet | StopLock | StopBroadcast | StopUnlock | Join(next: nat) | Freed

  /** A worker got past its test of the routine of the job with this ticket. */
  datatype Handled = Handled(ticket: nat, task: Task)

  /** The pool, its threads, and four histories. */
  datatype Pool = Pool(
    tasks: Ring, free: Ring, slots: seq<Task>, stop: bool,
    taskLock: Option<Thread>, freeLock: Option<Thread>,
    workers: seq<WorkerAt>, producers: seq<ProducerAt>, stopper: StopperAt,
    accepted: seq<Task>,    // as the callers asked, in the order of the enqueues
    served: seq<Task>,      // as the workers found them, in the order of the dequeues
    handled: seq<Handled>,  // the routine calls; none is made for a NULL routine
    lost: multiset<nat>)    // cells whose NULL routine kept them from going back

  datatype Action =
    | Step(thread: Thread)                 // the thread goes on
    | Begin(producer: nat, call: Call)     // an idle producer calls threadpool_add_task
    | Stop                                 // the pool is told to stop
    | Spurious(thread: Thread)             // a waiting thread wakes for no reason

  function WakeWorkers(ws: seq<WorkerAt>): seq<WorkerAt> {
    seq(|ws|, i requires 0 <= i < |ws| => if ws[i].AwaitTasks? then WokenTasks else ws[i])
  }

  function WakeProducers(ps: seq<ProducerAt>): seq<ProducerAt> {
    seq(|ps|, i requires 0 <= i < |ps| => if ps[i].AwaitFree? then WokenFree(ps[i].call) else ps[i])
  }

  /** The contents of a cell; the number of a cell is always in range. */
  function Fetch(slots: seq<Task>, s: nat): Task {
    if s < |slots| then slots[s] else CLEARED
  }

  function Store(slots: seq<Task>, s: nat, t: Task): seq<Task> {
    if s < |slots| then slots[s := t] else slots
  }

  datatype Mutex = TasksMutex | FreeMutex

  /** What a thread does to the pool in one step. */
  datatype Op =
    | Blocked                              // it waits, or it has ended
    | Look                                 // it changes nothing but its own place
    | Lock(mutex: Mutex) | Unlock(mutex: Mutex)
    | TakeTask | PutTask(task: Task, cell: nat)
    | TakeFree | PutFree(cell: nat)
    | Write(cell: nat, task: Task)
    | Run(cell: nat, ticket: nat)          // the routine in the cell is called, unless it is NULL
    | BroadcastWorkers | BroadcastProducers

  /** What worker `w` does next. */
  function WorkerOp(p: Pool, w: WorkerAt): Op {
    match w
    case CheckStop => Look
    case LockTasks => Lock(TasksMutex)
    case TestTasks => Look
    case SleepTasks => Unlock(TasksMutex)
    case AwaitTasks => Blocked
    case WokenTasks => Lock(TasksMutex)
    case Recheck => Look
    case UnlockStopping => Unlock(TasksMutex)
    case Take => TakeTask
    case UnlockNothing => Unlock(TasksMutex)
    case UnlockTaken(_, _) => Unlock(TasksMutex)
    case CallRoutine(s, t) => Run(s, t)
    case Clear(s) => Write(s, CLEARED)
    case LockFree(_) => Lock(FreeMutex)
    case GiveBack(s) => PutFree(s)
    case TellProducers => if p.free.num == 1 then BroadcastProducers else Look
    case UnlockFree => Unlock(FreeMutex)
    case UnlockFailed => Unlock(FreeMutex)
    case NoTask => Look
    case Failed => Blocked
    case Exited => Blocked
  }

  /** Where that takes it. */
  function WorkerNext(p: Pool, w: WorkerAt): WorkerAt {
    match w
    case CheckStop => if p.stop then NoTask else LockTasks
    case LockTasks => TestTasks
    case TestTasks => if p.tasks.num == 0 && !p.stop then SleepTasks else Recheck
    case SleepTasks => AwaitTasks
    case AwaitTasks => AwaitTasks
    case WokenTasks => TestTasks
    case Recheck => if p.stop then UnlockStopping else Take
    case UnlockStopping => NoTask
    case Take =>
      var x := Dequeue(p.tasks).1;
      if x == None then UnlockNothing else UnlockTaken(x.value, |p.served|)
    case UnlockNothing => NoTask
    case UnlockTaken(s, t) => CallRoutine(s, t)
    case CallRoutine(s, t) => if Fetch(p.slots, s).routine == None then CheckStop else Clear(s)
    case Clear(s) => LockFree(s)
    case LockFree(s) => GiveBack(s)
    case GiveBack(s) => if Enqueue(p.free, s).1 then TellProducers else UnlockFailed
    case TellProducers => UnlockFree
    case UnlockFree => CheckStop
    case UnlockFailed => Failed
    case NoTask => if p.stop then Exited else Failed
    case Failed => Failed
    case Exited => Exited
  }

  /** What producer `w` does next. */
  function ProducerOp(p: Pool, w: ProducerAt): Op {
    match w
    case Idle => Blocked
    case WantFree(_) => Lock(FreeMutex)
    case TestFree(_) => Look
    case SleepFree(_) => Unlock(FreeMutex)
    case AwaitFree(_) => Blocked
    case WokenFree(_) => Lock(FreeMutex)
    case UnlockRefused => Unlock(FreeMutex)
    case Obtain(_) => TakeFree
    case UnlockNoCell => Unlock(FreeMutex)
    case UnlockObtained(_, _) => Unlock(FreeMutex)
    case Fill(c, s) => Write(s, c.task)
    case WantTasks(_, _) => Lock(TasksMutex)
    case Put(c, s) => PutTask(c.task, s)
    case TellWorkers => if p.tasks.num == 1 then BroadcastWorkers else Look
    case UnlockTasks => Unlock(TasksMutex)
    case UnlockNotPut => Unlock(TasksMutex)
    case Error => Blocked
  }

  function ProducerNext(p: Pool, w: ProducerAt): ProducerAt {
    match w
    case Idle => Idle
    case WantFree(c) => TestFree(c)
    case TestFree(c) => if p.free.num != 0 then Obtain(c) else if c.blocking then SleepFree(c) else UnlockRefused
    case SleepFree(c) => AwaitFree(c)
    case AwaitFree(c) => AwaitFree(c)
    case WokenFree(c) => TestFree(c)
    case UnlockRefused => Idle
    case Obtain(c) =>
      var x := Dequeue(p.free).1;
      if x == None then UnlockNoCell else UnlockObtained(c, x.value)
    case UnlockNoCell => Error
    case UnlockObtained(c, s) => Fill(c, s)
    case Fill(c, s) => WantTasks(c, s)
    case WantTasks(c, s) => Put(c, s)
    case Put(c, s) => if Enqueue(p.tasks, s).1 then TellWorkers else UnlockNotPut
    case TellWorkers => UnlockTasks
    case UnlockTasks => Idle
    case UnlockNotPut => Error
    case Error => Error
  }

  /** What the stopping thread does next: after its broadcast it joins the workers one by one. */
  function StopperOp(p: Pool): Op {
    match p.stopper
    case Quiet => Blocked
    case StopLock => Lock(TasksMutex)
    case StopBroadcast => BroadcastWorkers
    case StopUnlock => Unlock(TasksMutex)
    case Join(k) => if k >= |p.workers| || p.workers[k].Exited? || p.workers[k].Failed? then Look else Blocked
    case Freed => Blocked
  }

  function StopperNext(p: Pool): StopperAt {
    match p.stopper
    case Quiet => Quiet
    case StopLock => StopBroadcast
    case StopBroadcast => StopUnlock
    case StopUnlock => Join(0)
    case Join(k) => if k >= |p.workers| then Freed else Join(k + 1)
    case Freed => Freed
  }

  /** The effect of one operation by thread `t`; `None` where it has to wait. */
  function Apply(p: Pool, t: Thread, op: Op): Option<Pool> {
    match op
    case Blocked => None
    case Look => Some(p)
    case Lock(TasksMutex) => if p.taskLock == None then Some(p.(taskLock := Some(t))) else None
    case Lock(FreeMutex) => if p.freeLock == None then Some(p.(freeLock := Some(t))) else None
    case Unlock(TasksMutex) => Some(p.(taskLock := None))
    case Unlock(FreeMutex) => Some(p.(freeLock := None))
    case TakeTask =>
      var (ring, x) := Dequeue(p.tasks);
      Some(p.(tasks := ring, served := if x == None then p.served else p.served + [Fetch(p.slots, x.value)]))
    case PutTask(task, s) =>
      var (ring, ok) := Enqueue(p.tasks, s);
      Some(p.(tasks := ring, accepted := if ok then p.accepted + [task] else p.accepted))
    case TakeFree => Some(p.(free := Dequeue(p.free).0))
    case PutFree(s) => Some(p.(free := Enqueue(p.free, s).0))
    case Write(s, task) => Some(p.(slots := Store(p.slots, s, task)))
    case Run(s, k) =>
      var task := Fetch(p.slots, s);
      Some(p.(handled := p.handled + [Handled(k, task)],
              lost := if task.routine == None then p.lost + multiset{s} else p.lost))
    case BroadcastWorkers => Some(p.(workers := WakeWorkers(p.workers)))
    case BroadcastProducers => Some(p.(producers := WakeProducers(p.producers)))
  }

  function MoveWorker(p: Pool, i: nat, w: WorkerAt): Pool {
    if i < |p.workers| then p.(workers := p.workers[i := w]) else p
  }

  function MoveProducer(p: Pool, i: nat, w: ProducerAt): Pool {
    if i < |p.producers| then p.(producers := p.producers[i := w]) else p
  }

  /** What thread `t` does next.  Producers may not touch a pool that was freed. */
  function OpOf(p: Pool, t: Thread): Op {
    match t
    case Worker(i) => if i < |p.workers| then WorkerOp(p, p.workers[i]) else Blocked
    case Producer(i) => if i < |p.producers| && p.stopper != Freed then ProducerOp(p, p.producers[i]) else Blocked
    case Stopper => StopperOp(p)
  }

  /** The pool `q` after the operation of thread `t` of `p`, with the thread moved on. */
  function MoveOn(p: Pool, t: Thread, q: Pool): Pool {
    match t
    case Worker(i) => if i < |p.workers| then MoveWorker(q, i, WorkerNext(p, p.workers[i])) else q
    case Producer(i) => if i < |p.producers| then MoveProducer(q, i, ProducerNext(p, p.producers[i])) else q
    case Stopper => q.(stopper := StopperNext(p))
  }

  /** One step of thread `t`. */
  function StepOf(p: Pool, t: Thread): Option<Pool> {
    var q := Apply(p, t, OpOf(p, t));
    if q == None then None else Some(MoveOn(p, t, q.value))
  }

  /** One action; `None` where it is not possible. */
  function Do(p: Pool, a: Action): Option<Pool> {
    match a
    case Step(t) => StepOf(p, t)
    case Begin(i, c) =>
      if i < |p.producers| && p.producers[i] == Idle && p.stopper != Freed
      then Some(MoveProducer(p, i, WantFree(c))) else None
    case Stop => if p.stopper == Quiet then Some(p.(stop := true, stopper := StopLock)) else None
    case Spurious(Worker(i)) =>
      if i < |p.workers| && p.workers[i] == AwaitTasks then Some(MoveWorker(p, i, WokenTasks)) else None
    case Spurious(Producer(i)) =>
      if i < |p.producers| && p.producers[i].AwaitFree?
      then Some(MoveProducer(p, i, WokenFree(p.producers[i].call))) else None
    case Spurious(Stopper) => None
  }
}
