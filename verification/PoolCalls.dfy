/** What becomes of the calls of threadpool_add_task in a run of the pool. */
module PoolCalls {
  import opened Wrappers
  import opened RingQueue
  import opened ThreadPool
  import opened PoolInvariant
  import opened PoolSteps
  import opened PoolRuns
  import opened PoolSafety

  // A run, and its calls by the indices of their Begins.

  /** The pool before action `k` of a run. */
  function StateAt(s: Pool, run: seq<Action>, k: nat): Pool
    requires k <= |run|
  {
    var q := After(s, run[..k]);
    if q == None then s else q.value
  }

  /** The index of the last call that producer `i` made in a run. */
  function LastBegin(run: seq<Action>, i: nat): (b: Option<nat>)
    ensures b != None ==> b.value < |run| && run[b.value].Begin? && run[b.value].producer == i
  {
    if run == [] then None
    else
      var k := |run| - 1;
      if run[k].Begin? && run[k].producer == i then Some(k) else LastBegin(run[..k], i)
  }

  /** The call a producer is making, until its task is in the queue or it is refused. */
  function Asked(w: ProducerAt): Option<Call> {
    match w
    case WantFree(c) => Some(c)
    case TestFree(c) => Some(c)
    case SleepFree(c) => Some(c)
    case AwaitFree(c) => Some(c)
    case WokenFree(c) => Some(c)
    case Obtain(c) => Some(c)
    case UnlockObtained(c, _) => Some(c)
    case Fill(c, _) => Some(c)
    case WantTasks(c, _) => Some(c)
    case Put(c, _) => Some(c)
    case _ => None
  }

  /** It waits for a free cell. */
  predicate Waits(w: ProducerAt) {
    w.SleepFree? || w.AwaitFree? || w.WokenFree?
  }

  /** A producer starts to wait only for a call that blocks. */
  predicate MayWait(w: ProducerAt, next: ProducerAt) {
    Waits(next) ==> Waits(w) || (Asked(next) != None && Asked(next).value.blocking)
  }

  /** A call, by its Begin, and the action that settled it. */
  datatype Fate = Fate(begin: nat, at: nat)

  /** Action `f.at` is a step of the thread whose last call is the one at `f.begin`. */
  predicate Settles(run: seq<Action>, f: Fate) {
    && f.begin < f.at < |run| && run[f.begin].Begin?
    && run[f.at] == Step(Producer(run[f.begin].producer))
    && LastBegin(run[..f.at], run[f.begin].producer) == Some(f.begin)
  }

  /** The call is the `j`-th whose task was put into the queue. */
  predicate Enters(s: Pool, run: seq<Action>, j: nat, f: Fate) {
    && Settles(run, f)
    && |StateAt(s, run, f.at).accepted| == j
    && StateAt(s, run, f.at + 1).accepted == StateAt(s, run, f.at).accepted + [run[f.begin].call.task]
  }

  /** The call was refused: it does not block, and no cell was free. */
  predicate IsRefused(s: Pool, run: seq<Action>, f: Fate) {
    && Settles(run, f)
    && !run[f.begin].call.blocking && StateAt(s, run, f.at).free.num == 0
    && run[f.begin].producer < |StateAt(s, run, f.at + 1).producers|
    && StateAt(s, run, f.at + 1).producers[run[f.begin].producer] == UnlockRefused
  }

  /** The call at `b` is still being made. */
  predicate Open(run: seq<Action>, p: Pool, b: nat) {
    && b < |run| && run[b].Begin? && LastBegin(run, run[b].producer) == Some(b)
    && run[b].producer < |p.producers| && Asked(p.producers[run[b].producer]) == Some(run[b].call)
  }

  ghost predicate In(fs: seq<Fate>, b: nat) {
    exists j :: 0 <= j < |fs| && fs[j].begin == b
  }

  ghost predicate NoTwo(fs: seq<Fate>) {
    forall j, k :: 0 <= j < k < |fs| ==> fs[j].begin != fs[k].begin
  }

  /** A producer makes the call of its last Begin, and waits only if that call blocks. */
  predicate Faithful(run: seq<Action>, p: Pool, i: nat) {
    i < |p.producers| && Asked(p.producers[i]) != None ==>
      && LastBegin(run, i) != None && run[LastBegin(run, i).value].call == Asked(p.producers[i]).value
      && (Waits(p.producers[i]) ==> run[LastBegin(run, i).value].call.blocking)
  }

  /** The accepted jobs are, in order, the tasks of the calls in `entered`; those in `refused` were refused. */
  ghost predicate Settlements(s: Pool, run: seq<Action>, accepted: seq<Task>, entered: seq<Fate>, refused: seq<Fate>) {
    && |entered| == |accepted|
    && (forall j :: 0 <= j < |entered| ==>
          Enters(s, run, j, entered[j]) && accepted[j] == run[entered[j].begin].call.task)
    && (forall j :: 0 <= j < |refused| ==> IsRefused(s, run, refused[j]))
    && NoTwo(entered) && NoTwo(refused) && (forall b :: In(entered, b) ==> !In(refused, b))
  }

  /** Each call of the run is in one of the two or still being made, and not both. */
  ghost predicate Complete(run: seq<Action>, p: Pool, entered: seq<Fate>, refused: seq<Fate>) {
    forall b: nat :: b < |run| && run[b].Begin? ==> (In(entered, b) || In(refused, b) <==> !Open(run, p, b))
  }

  ghost predicate Account(s: Pool, run: seq<Action>, p: Pool, entered: seq<Fate>, refused: seq<Fate>) {
    && Settlements(s, run, p.accepted, entered, refused) && Complete(run, p, entered, refused)
    && forall i: nat :: Faithful(run, p, i)
  }

  // One action.

  /** What the next operation of a producer does to its call. */
  lemma CallNext(p: Pool, w: ProducerAt)
    requires ProducerKnows(p, w) && ProducerOp(p, w) != Blocked
    requires w.Put? ==> Enqueue(p.tasks, w.slot).1
    requires w.Obtain? ==> Dequeue(p.free).1 != None
    ensures ProducerOp(p, w) != BroadcastProducers
    ensures var op := ProducerOp(p, w); var c := Asked(w); var d := Asked(ProducerNext(p, w));
            || (!op.PutTask? && d == c && MayWait(w, ProducerNext(p, w)))
            || (op.PutTask? && w.Put? && op.cell == w.slot && c != None && d == None && op.task == c.value.task)
            || (op == Look && c != None && d == None && !c.value.blocking && p.free.num == 0
                && ProducerNext(p, w) == UnlockRefused)
  {
    hide Enqueue, Dequeue;
  }

  /** What an operation does to the jobs accepted. */
  lemma AcceptedBy(p: Pool, t: Thread, op: Op)
    requires Apply(p, t, op).Some?
    ensures Apply(p, t, op).value.accepted
         == if op.PutTask? && Enqueue(p.tasks, op.cell).1 then p.accepted + [op.task] else p.accepted
  {
    hide Enqueue, Dequeue;
  }

  /** The queues let a producer do what it is about to. */
  lemma QueuesReady(p: Pool, i: nat)
    requires Inv(p) && i < |p.producers|
    ensures var w := p.producers[i];
            && ProducerKnows(p, w) && (w.Put? ==> Enqueue(p.tasks, w.slot).1)
            && (w.Obtain? ==> Dequeue(p.free).1 != None)
  {
    hide RingOk, Cells, Jobs, Tickets, Locks, WorkerWakeups, ProducerWakeups, Stopping, Contents, Enqueue, Dequeue;
    var w := p.producers[i];
    assert ProducerKnows(p, w);
    ProducerReady(p, i);
    DequeueIs(p.free);
    if w.Put? {
      EnqueueIs(p.tasks, w.slot);
    }
  }

  /** What a step of a producer does to its call. */
  lemma CallerSteps(p: Pool, i: nat)
    requires Inv(p) && StepOf(p, Producer(i)).Some?
    ensures var q := StepOf(p, Producer(i)).value;
            && i < |p.producers| == |q.producers|
            && var c := Asked(p.producers[i]); var d := Asked(q.producers[i]);
            || (d == c && q.accepted == p.accepted && MayWait(p.producers[i], q.producers[i]))
            || (c != None && d == None && q.accepted == p.accepted + [c.value.task])
            || (c != None && d == None && q.accepted == p.accepted && !c.value.blocking
                && p.free.num == 0 && q.producers[i] == UnlockRefused)
  {
    hide Inv, ProducerOp, ProducerNext, Asked, MayWait, Apply, Enqueue, Dequeue, ProducerKnows;
    GoesOn(p, Producer(i));
    QueuesReady(p, i);
    CallNext(p, p.producers[i]);
    AcceptedBy(p, Producer(i), OpOf(p, Producer(i)));
    Elsewhere(p, Producer(i), OpOf(p, Producer(i)));
  }

  /** Anything else leaves its call alone. */
  lemma OthersCall(p: Pool, a: Action, j: nat)
    requires Do(p, a).Some? && j < |p.producers| && a != Step(Producer(j)) && !(a.Begin? && a.producer == j)
    ensures var q := Do(p, a).value;
            && |q.producers| == |p.producers| && Asked(q.producers[j]) == Asked(p.producers[j])
            && (Waits(q.producers[j]) ==> Waits(p.producers[j]))
  {
    hide ProducerOp, ProducerNext, WorkerOp, WorkerNext, Apply, OpOf;
    if a.Step? {
      Elsewhere(p, a.thread, OpOf(p, a.thread));
    }
  }

  lemma AcceptedStays(p: Pool, a: Action)
    requires Do(p, a).Some? && !(a.Step? && a.thread.Producer?)
    ensures Do(p, a).value.accepted == p.accepted
  {
    hide ProducerOp, ProducerNext, WorkerNext, Enqueue, Dequeue;
  }

  // A run.

  lemma {:induction false} AfterSnoc(s: Pool, run: seq<Action>, a: Action)
    ensures After(s, run + [a]) == if After(s, run) == None then None else Do(After(s, run).value, a)
    decreases |run|
  {
    hide Do;
    if run == [] {
      assert run + [a] == [a] && [a][1..] == [];
    } else {
      assert (run + [a])[1..] == run[1..] + [a];
      if Do(s, run[0]) != None {
        AfterSnoc(Do(s, run[0]).value, run[1..], a);
      }
    }
  }

  lemma Prefixes(run: seq<Action>, a: Action, k: nat)
    requires k <= |run|
    ensures (run + [a])[..k] == run[..k]
  {
  }

  lemma LastBeginSnoc(run: seq<Action>, a: Action, i: nat)
    ensures LastBegin(run + [a], i) == if a.Begin? && a.producer == i then Some(|run|) else LastBegin(run, i)
  {
    Prefixes(run, a, |run|);
    assert run[..|run|] == run;
  }

  /** What was settled stays so in a longer run. */
  lemma FateKept(s: Pool, run: seq<Action>, a: Action, f: Fate)
    requires Settles(run, f)
    ensures Settles(run + [a], f)
    ensures forall j :: Enters(s, run, j, f) ==> Enters(s, run + [a], j, f)
    ensures IsRefused(s, run, f) ==> IsRefused(s, run + [a], f)
  {
    hide After, LastBegin;
    Prefixes(run, a, f.at);
    Prefixes(run, a, f.at + 1);
  }

  /** The last action settles the call of its thread. */
  lemma SettledLast(s: Pool, run: seq<Action>, i: nat, b: nat)
    requires LastBegin(run, i) == Some(b)
    ensures Settles(run + [Step(Producer(i))], Fate(b, |run|))
  {
    Prefixes(run, Step(Producer(i)), |run|);
    assert run[..|run|] == run;
  }

  lemma SettlementsKept(s: Pool, run: seq<Action>, a: Action, accepted: seq<Task>,
                        entered: seq<Fate>, refused: seq<Fate>)
    requires Settlements(s, run, accepted, entered, refused)
    ensures Settlements(s, run + [a], accepted, entered, refused)
  {
    hide In, NoTwo, StateAt, LastBegin;
    forall j | 0 <= j < |entered|
      ensures Enters(s, run + [a], j, entered[j]) && accepted[j] == (run + [a])[entered[j].begin].call.task
    {
      FateKept(s, run, a, entered[j]);
    }
    forall j | 0 <= j < |refused| ensures IsRefused(s, run + [a], refused[j]) {
      FateKept(s, run, a, refused[j]);
    }
  }

  lemma InSnoc(fs: seq<Fate>, f: Fate)
    ensures forall b :: In(fs + [f], b) <==> In(fs, b) || b == f.begin
    ensures NoTwo(fs) && !In(fs, f.begin) ==> NoTwo(fs + [f])
  {
    var gs := fs + [f];
    forall b ensures In(gs, b) <==> In(fs, b) || b == f.begin {
      if b == f.begin {
        assert gs[|fs|].begin == b;
      }
      if j :| 0 <= j < |fs| && fs[j].begin == b {
        assert gs[j].begin == b;
      }
    }
  }

  lemma OneEnters(s: Pool, run: seq<Action>, accepted: seq<Task>, entered: seq<Fate>, refused: seq<Fate>, f: Fate)
    requires Settlements(s, run, accepted, entered, refused) && Enters(s, run, |entered|, f)
    requires !In(entered, f.begin) && !In(refused, f.begin)
    ensures Settlements(s, run, accepted + [run[f.begin].call.task], entered + [f], refused)
  {
    hide In, Enters, IsRefused, NoTwo;
    InSnoc(entered, f);
  }

  lemma OneRefused(s: Pool, run: seq<Action>, accepted: seq<Task>, entered: seq<Fate>, refused: seq<Fate>, f: Fate)
    requires Settlements(s, run, accepted, entered, refused) && IsRefused(s, run, f)
    requires !In(entered, f.begin) && !In(refused, f.begin)
    ensures Settlements(s, run, accepted, entered, refused + [f])
  {
    hide In, Enters, IsRefused, NoTwo;
    InSnoc(refused, f);
  }

  /** The calls of all producers but `i`, if any, go on as they were. */
  predicate SameCalls(p: Pool, q: Pool, i: Option<nat>) {
    && |q.producers| == |p.producers|
    && forall j: nat :: j < |p.producers| && Some(j) != i ==> Asked(q.producers[j]) == Asked(p.producers[j])
  }

  lemma OpenSnoc(run: seq<Action>, a: Action, p: Pool, q: Pool, i: Option<nat>, b: nat)
    requires SameCalls(p, q, i) && b < |run| && run[b].Begin? && Some(run[b].producer) != i
    requires a.Begin? ==> Some(a.producer) == i
    ensures Open(run + [a], q, b) == Open(run, p, b)
  {
    hide LastBegin, Asked;
    LastBeginSnoc(run, a, run[b].producer);
  }

  lemma FaithfulSnoc(run: seq<Action>, a: Action, p: Pool, q: Pool, i: Option<nat>, j: nat)
    requires SameCalls(p, q, i) && Faithful(run, p, j) && Some(j) != i && (a.Begin? ==> Some(a.producer) == i)
    requires j < |p.producers| ==> MayWait(p.producers[j], q.producers[j])
    ensures Faithful(run + [a], q, j)
  {
    hide LastBegin, Asked, Waits;
    LastBeginSnoc(run, a, j);
  }

  /** An action by which no call begins and none is settled. */
  lemma NoneSettled(run: seq<Action>, a: Action, p: Pool, q: Pool, entered: seq<Fate>, refused: seq<Fate>)
    requires Complete(run, p, entered, refused) && SameCalls(p, q, None) && !a.Begin?
    ensures Complete(run + [a], q, entered, refused)
  {
    hide In, Open;
    forall b: nat | b < |run + [a]| && (run + [a])[b].Begin?
      ensures In(entered, b) || In(refused, b) <==> !Open(run + [a], q, b)
    {
      OpenSnoc(run, a, p, q, None, b);
    }
  }

  /** One by which the open call of producer `i` is settled. */
  lemma OneSettled(run: seq<Action>, a: Action, p: Pool, q: Pool, i: nat, b0: nat,
                   entered: seq<Fate>, refused: seq<Fate>, entered': seq<Fate>, refused': seq<Fate>)
    requires Complete(run, p, entered, refused) && SameCalls(p, q, Some(i)) && !a.Begin?
    requires i < |p.producers| && LastBegin(run, i) == Some(b0) && Asked(q.producers[i]) == None
    requires forall b :: In(entered', b) || In(refused', b) <==> In(entered, b) || In(refused, b) || b == b0
    ensures Complete(run + [a], q, entered', refused')
  {
    hide In, LastBegin, Asked;
    forall b: nat | b < |run + [a]| && (run + [a])[b].Begin?
      ensures In(entered', b) || In(refused', b) <==> !Open(run + [a], q, b)
    {
      assert run[b].Begin?;
      if run[b].producer != i {
        OpenSnoc(run, a, p, q, Some(i), b);
      }
    }
  }

  /** One by which an idle producer begins a call. */
  lemma OneBegins(run: seq<Action>, p: Pool, q: Pool, i: nat, c: Call, entered: seq<Fate>, refused: seq<Fate>)
    requires Complete(run, p, entered, refused) && SameCalls(p, q, Some(i)) && i < |p.producers|
    requires Asked(p.producers[i]) == None && Asked(q.producers[i]) == Some(c)
    requires !In(entered, |run|) && !In(refused, |run|)
    ensures Complete(run + [Begin(i, c)], q, entered, refused)
  {
    hide In, LastBegin, Asked;
    var a := Begin(i, c);
    LastBeginSnoc(run, a, i);
    forall b: nat | b < |run + [a]| && (run + [a])[b].Begin?
      ensures In(entered, b) || In(refused, b) <==> !Open(run + [a], q, b)
    {
      if b < |run| && run[b].producer != i {
        OpenSnoc(run, a, p, q, Some(i), b);
      }
    }
  }

  /** Only calls of the run are settled. */
  lemma InRun(s: Pool, run: seq<Action>, accepted: seq<Task>, entered: seq<Fate>, refused: seq<Fate>)
    requires Settlements(s, run, accepted, entered, refused)
    ensures !In(entered, |run|) && !In(refused, |run|)
  {
    hide NoTwo, StateAt, LastBegin;
  }

  lemma StateLast(s: Pool, run: seq<Action>, a: Action, p: Pool)
    requires After(s, run) == Some(p) && Do(p, a).Some?
    ensures StateAt(s, run + [a], |run|) == p && StateAt(s, run + [a], |run| + 1) == Do(p, a).value
    ensures After(s, run + [a]) == Do(p, a)
  {
    hide After, Do;
    AfterSnoc(s, run, a);
    Prefixes(run, a, |run|);
    assert run[..|run|] == run && (run + [a])[..|run| + 1] == run + [a];
  }

  lemma SameMany(p: Pool, a: Action)
    requires Do(p, a).Some?
    ensures |Do(p, a).value.producers| == |p.producers|
  {
    hide ProducerOp, ProducerNext, WorkerOp, WorkerNext, Apply, OpOf;
    if a.Step? {
      Elsewhere(p, a.thread, OpOf(p, a.thread));
    }
  }

  /** The producer an action is of, if it is a call or a step of one. */
  function Caller(a: Action): Option<nat> {
    match a
    case Begin(i, _) => Some(i)
    case Step(Producer(i)) => Some(i)
    case _ => None
  }

  /** An action leaves the calls of the other producers alone, and the agreement with the run. */
  lemma OthersGoOn(run: seq<Action>, p: Pool, a: Action)
    requires Do(p, a).Some? && forall j: nat :: Faithful(run, p, j)
    ensures SameCalls(p, Do(p, a).value, Caller(a))
    ensures forall j: nat :: Some(j) != Caller(a) ==> Faithful(run + [a], Do(p, a).value, j)
  {
    hide Asked, Waits, Do, Faithful;
    SameMany(p, a);
    var q := Do(p, a).value;
    forall j: nat | j < |p.producers| && Some(j) != Caller(a)
      ensures Asked(q.producers[j]) == Asked(p.producers[j]) && (Waits(q.producers[j]) ==> Waits(p.producers[j]))
    {
      OthersCall(p, a, j);
    }
    forall j: nat | Some(j) != Caller(a) ensures Faithful(run + [a], q, j) {
      FaithfulSnoc(run, a, p, q, Caller(a), j);
    }
  }

  lemma CallBegins(s: Pool, run: seq<Action>, p: Pool, i: nat, c: Call, entered: seq<Fate>, refused: seq<Fate>)
    requires Account(s, run, p, entered, refused) && Do(p, Begin(i, c)).Some?
    ensures Account(s, run + [Begin(i, c)], Do(p, Begin(i, c)).value, entered, refused)
  {
    hide Settlements, Complete, Faithful, In, LastBegin;
    var a := Begin(i, c);
    var q := Do(p, a).value;
    AcceptedStays(p, a);
    SettlementsKept(s, run, a, p.accepted, entered, refused);
    OthersGoOn(run, p, a);
    InRun(s, run, p.accepted, entered, refused);
    OneBegins(run, p, q, i, c, entered, refused);
    LastBeginSnoc(run, a, i);
    FaithfulLast(run + [a], q, i);
  }

  lemma FaithfulLast(run: seq<Action>, q: Pool, i: nat)
    requires i < |q.producers| && q.producers[i].WantFree?
    requires LastBegin(run, i) == Some(|run| - 1) && run[|run| - 1].call == q.producers[i].call
    ensures Faithful(run, q, i)
  {
    hide LastBegin;
  }

  /** A step of a producer whose call goes on. */
  lemma CallGoesOn(s: Pool, run: seq<Action>, p: Pool, i: nat, entered: seq<Fate>, refused: seq<Fate>)
    requires Account(s, run, p, entered, refused) && Do(p, Step(Producer(i))).Some? && i < |p.producers|
    requires var q := Do(p, Step(Producer(i))).value;
             && |q.producers| == |p.producers| && q.accepted == p.accepted
             && Asked(q.producers[i]) == Asked(p.producers[i])
             && MayWait(p.producers[i], q.producers[i])
    ensures Account(s, run + [Step(Producer(i))], Do(p, Step(Producer(i))).value, entered, refused)
  {
    hide Settlements, Complete, Faithful, Asked, MayWait, Do, LastBegin;
    var a := Step(Producer(i));
    SettlementsKept(s, run, a, p.accepted, entered, refused);
    OthersGoOn(run, p, a);
    NoneSettled(run, a, p, Do(p, a).value, entered, refused);
    FaithfulSnoc(run, a, p, Do(p, a).value, None, i);
  }

  /** A step that settles the call of a producer. */
  lemma CallSettled(s: Pool, run: seq<Action>, p: Pool, i: nat, entered: seq<Fate>, refused: seq<Fate>)
    returns (f: Fate)
    requires Account(s, run, p, entered, refused) && Do(p, Step(Producer(i))).Some? && After(s, run) == Some(p)
    requires i < |p.producers| == |Do(p, Step(Producer(i))).value.producers| && Asked(p.producers[i]) != None
    requires Asked(Do(p, Step(Producer(i))).value.producers[i]) == None
    ensures var run' := run + [Step(Producer(i))]; var q := Do(p, Step(Producer(i))).value;
            && Settles(run', f) && f.at == |run| && run[f.begin].call == Asked(p.producers[i]).value
            && run[f.begin].producer == i
            && !In(entered, f.begin) && !In(refused, f.begin)
            && (forall j: nat :: Faithful(run', q, j))
            && Complete(run', q, entered + [f], refused) && Complete(run', q, entered, refused + [f])
  {
    hide Settlements, Asked, Waits, Do, LastBegin, In;
    var a := Step(Producer(i));
    var q := Do(p, a).value;
    assert Faithful(run, p, i);
    f := Fate(LastBegin(run, i).value, |run|);
    assert Open(run, p, f.begin);
    SettledLast(s, run, i, f.begin);
    OthersGoOn(run, p, a);
    InSnoc(entered, f);
    InSnoc(refused, f);
    OneSettled(run, a, p, q, i, f.begin, entered, refused, entered + [f], refused);
    OneSettled(run, a, p, q, i, f.begin, entered, refused, entered, refused + [f]);
  }

  lemma CallerGoesOn(s: Pool, run: seq<Action>, p: Pool, i: nat, entered: seq<Fate>, refused: seq<Fate>)
    returns (entered': seq<Fate>, refused': seq<Fate>)
    requires Account(s, run, p, entered, refused) && Inv(p) && Do(p, Step(Producer(i))).Some?
    requires After(s, run) == Some(p)
    ensures Account(s, run + [Step(Producer(i))], Do(p, Step(Producer(i))).value, entered', refused')
  {
    hide Settlements, Complete, Faithful, Inv, After, Asked, MayWait, StepOf, LastBegin, In;
    var a := Step(Producer(i));
    var q := Do(p, a).value;
    entered', refused' := entered, refused;
    CallerSteps(p, i);
    if Asked(q.producers[i]) == Asked(p.producers[i]) {
      CallGoesOn(s, run, p, i, entered, refused);
      return;
    }
    var f := CallSettled(s, run, p, i, entered, refused);
    StateLast(s, run, a, p);
    SettlementsKept(s, run, a, p.accepted, entered, refused);
    if q.accepted == p.accepted {
      refused' := refused + [f];
      OneRefused(s, run + [a], p.accepted, entered, refused, f);
    } else {
      entered' := entered + [f];
      EnteredLength(s, run, p.accepted, entered, refused);
      OneEnters(s, run + [a], p.accepted, entered, refused, f);
    }
  }

  lemma EnteredLength(s: Pool, run: seq<Action>, accepted: seq<Task>, entered: seq<Fate>, refused: seq<Fate>)
    requires Settlements(s, run, accepted, entered, refused)
    ensures |entered| == |accepted|
  {
  }

  /** The account goes on with every action. */
  lemma AccountGoesOn(s: Pool, run: seq<Action>, p: Pool, a: Action, entered: seq<Fate>, refused: seq<Fate>)
    returns (entered': seq<Fate>, refused': seq<Fate>)
    requires Account(s, run, p, entered, refused) && Inv(p) && Do(p, a).Some? && After(s, run) == Some(p)
    ensures Account(s, run + [a], Do(p, a).value, entered', refused')
  {
    hide Settlements, Complete, Inv, Do, After, Faithful;
    entered', refused' := entered, refused;
    match a
    case Begin(i, c) => CallBegins(s, run, p, i, c, entered, refused);
    case Step(Producer(i)) => entered', refused' := CallerGoesOn(s, run, p, i, entered, refused);
    case _ =>
      AcceptedStays(p, a);
      SettlementsKept(s, run, a, p.accepted, entered, refused);
      OthersGoOn(run, p, a);
      NoneSettled(run, a, p, Do(p, a).value, entered, refused);
  }

  /**
   * Every run of a new pool has an account: the accepted jobs are the tasks that callers asked for, in
   * the order of the enqueues, one for each call; the calls refused do not block and found no free cell.
   */
  lemma {:induction false} CallsAccounted(n: nat, w: nat, c: nat, run: seq<Action>)
    returns (entered: seq<Fate>, refused: seq<Fate>)
    requires n >= 1 && After(Start(n, w, c), run).Some?
    ensures Account(Start(n, w, c), run, After(Start(n, w, c), run).value, entered, refused)
    decreases |run|
  {
    hide Settlements, Complete, Faithful, Inv, Do, After, Start;
    var s := Start(n, w, c);
    if run == [] {
      entered, refused := [], [];
      NothingYet(n, w, c);
    } else {
      var k := |run| - 1;
      var a := run[k];
      assert run == run[..k] + [a];
      AfterSnoc(s, run[..k], a);
      entered, refused := CallsAccounted(n, w, c, run[..k]);
      StartKeeps(n, w, c);
      RunKeeps(s, run[..k]);
      entered, refused := AccountGoesOn(s, run[..k], After(s, run[..k]).value, a, entered, refused);
    }
  }

  lemma NothingYet(n: nat, w: nat, c: nat)
    requires n >= 1
    ensures After(Start(n, w, c), []) == Some(Start(n, w, c))
    ensures Account(Start(n, w, c), [], Start(n, w, c), [], [])
  {
    hide Empty, Filled;
  }

  /** Each call of a routine is one that a caller asked for, on the data it gave, and no two are for the same call. */
  lemma HandledAsAsked(n: nat, w: nat, c: nat, run: seq<Action>) returns (begins: seq<nat>)
    requires n >= 1 && After(Start(n, w, c), run).Some?
    ensures var p := After(Start(n, w, c), run).value;
            && |begins| == |p.handled|
            && (forall h :: 0 <= h < |begins| ==>
                  && begins[h] < |run| && run[begins[h]].Begin? && p.handled[h].task == run[begins[h]].call.task)
            && forall g, h :: 0 <= g < h < |begins| ==> begins[g] != begins[h]
  {
    hide Inv, Do, After, Start, Complete, Faithful, LastBegin, StateAt, In;
    var p := After(Start(n, w, c), run).value;
    assert Reachable(p);
    HandledOnce(p);
    var entered, refused := CallsAccounted(n, w, c, run);
    begins := seq(|p.handled|, h requires 0 <= h < |p.handled| && p.handled[h].ticket < |entered| =>
                                 entered[p.handled[h].ticket].begin);
    forall g, h | 0 <= g < h < |begins| ensures begins[g] != begins[h] {
      var x, y := p.handled[g].ticket, p.handled[h].ticket;
      assert x < y || y < x;
    }
  }
}
