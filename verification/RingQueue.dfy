/** The ring queue of the thread pool. */
module RingQueue {
  import opened Wrappers

  /** The fields of a queue.  A cell holds the number of a task, or `None` for NULL. */
  datatype RingFields = Ring(cells: seq<Option<nat>>, head: nat, tail: nat, num: nat)

  /** Both indices stay inside the array. */
  type Ring = q: RingFields | q.head < |q.cells| && q.tail < |q.cells| witness Ring([None], 0, 0, 0)

  /** Position `k` steps after the head of a ring of `n` cells. */
  function Wrap(k: nat, n: nat): nat {
    if k < n then k else k - n
  }

  function Empty(n: nat): Ring
    requires n >= 1
  {
    Ring(seq(n, _ => None), 0, 0, 0)
  }

  /** Adds `x` at the tail; the second result is false on error. */
  function Enqueue(q: Ring, x: nat): (Ring, bool) {
    if q.num == |q.cells| then (q, false)
    else if q.cells[q.tail] != None then (q, false)
    else
      var tail := if q.tail + 1 == |q.cells| then 0 else q.tail + 1;
      (Ring(q.cells[q.tail := Some(x)], q.head, tail, q.num + 1), true)
  }

  /** Removes the element at the head; an emptied queue starts over at cell 0. */
  function Dequeue(q: Ring): (Ring, Option<nat>) {
    if q.num == 0 then (q, None)
    else
      var cells := q.cells[q.head := None];
      if q.num == 1 then (Ring(cells, 0, 0, 0), q.cells[q.head])
      else
        var head := if q.head + 1 == |q.cells| then 0 else q.head + 1;
        (Ring(cells, head, q.tail, q.num - 1), q.cells[q.head])
  }

  /** The cell `i` steps after the head. */
  function At(q: Ring, i: nat): Option<nat>
    requires i < |q.cells|
  {
    q.cells[Wrap(q.head + i, |q.cells|)]
  }

  /** The used cells are the `num` ones from `head` on; all others are NULL. */
  predicate RingOk(q: Ring) {
    && q.num <= |q.cells|
    && q.tail == Wrap(q.head + q.num, |q.cells|)
    && (q.num == 0 ==> q.head == 0)
    && (forall i: nat :: i < |q.cells| ==> (At(q, i).Some? <==> i < q.num))
  }

  /** The queued elements, oldest first. */
  function Contents(q: Ring): (s: seq<nat>)
    requires RingOk(q)
    ensures |s| == q.num
  {
    seq(q.num, i requires 0 <= i < q.num => At(q, i).value)
  }

  lemma EmptyIs(n: nat)
    requires n >= 1
    ensures RingOk(Empty(n)) && Contents(Empty(n)) == []
  {
  }

  /** Enqueueing appends, and fails only on a full queue; a NULL check never fails. */
  lemma EnqueueIs(q: Ring, x: nat)
    requires RingOk(q)
    ensures RingOk(Enqueue(q, x).0) && |Enqueue(q, x).0.cells| == |q.cells|
    ensures Enqueue(q, x).1 <==> q.num < |q.cells|
    ensures Contents(Enqueue(q, x).0) == if q.num < |q.cells| then Contents(q) + [x] else Contents(q)
  {
    if q.num < |q.cells| {
      var q' := Enqueue(q, x).0;
      assert At(q, q.num).None?;
      forall i: nat | i < |q.cells|
        ensures At(q', i) == if i == q.num then Some(x) else At(q, i)
      {
      }
      assert Contents(q') == Contents(q) + [x];
    }
  }

  /** Dequeueing removes the oldest element, and fails only on an empty queue. */
  lemma DequeueIs(q: Ring)
    requires RingOk(q)
    ensures RingOk(Dequeue(q).0)
    ensures q.num == 0 ==> Dequeue(q) == (q, None)
    ensures q.num > 0 ==> Dequeue(q).1 == Some(Contents(q)[0]) && Contents(Dequeue(q).0) == Contents(q)[1..]
  {
    var n := |q.cells|;
    if q.num > 0 {
      var q' := Dequeue(q).0;
      assert At(q, 0).Some?;
      if q.num == 1 {
        forall i: nat | i < n
          ensures At(q', i).None?
        {
          var k := if i >= q.head then i - q.head else i + n - q.head;
          assert At(q, k) == q.cells[i];
        }
      } else {
        forall i: nat | i < n
          ensures At(q', i) == if i == n - 1 then None else At(q, i + 1)
        {
        }
      }
      assert Contents(q') == Contents(q)[1..];
    }
  }

  /** The queue as the program updates it. */
  class Queue {
    const cells: array<Option<nat>>
    var head: nat
    var tail: nat
    var num: nat

    ghost predicate InRange()
      reads this, cells
    {
      head < cells.Length && tail < cells.Length
    }

    ghost function Value(): Ring
      requires InRange()
      reads this, cells
    {
      Ring(cells[..], head, tail, num)
    }

    ghost predicate Valid()
      reads this, cells
    {
      InRange() && RingOk(Value())
    }

    constructor (size: nat)
      requires size >= 1
      ensures Valid() && Value() == Empty(size) && fresh(cells)
    {
      cells := new Option<nat>[size];
      head, tail, num := 0, 0, 0;
      new;
      for i := 0 to size
        invariant head == tail == num == 0
        invariant forall j :: 0 <= j < i ==> cells[j] == None
      {
        cells[i] := None;
      }
      assert cells[..] == Empty(size).cells;
      EmptyIs(size);
    }

    /** Adds `x`; `ok` is false where the source returns -1. */
    method Put(x: nat) returns (ok: bool)
      requires Valid()
      modifies this, cells
      ensures Valid() && (Value(), ok) == Enqueue(old(Value()), x)
      ensures ok <==> old(num) < cells.Length
      ensures Contents(Value()) == if ok then old(Contents(Value())) + [x] else old(Contents(Value()))
    {
      EnqueueIs(Value(), x);
      if num == cells.Length {
        return false;
      }
      if cells[tail] != None {
        return false;
      }
      cells[tail] := Some(x);
      num := num + 1;
      tail := tail + 1;
      if tail == cells.Length {
        tail := 0;
      }
      return true;
    }

    /** Removes and returns the oldest element, or NULL. */
    method Take() returns (x: Option<nat>)
      requires Valid()
      modifies this, cells
      ensures Valid() && (Value(), x) == Dequeue(old(Value()))
      ensures x == if old(num) == 0 then None else Some(old(Contents(Value()))[0])
      ensures Contents(Value()) == if old(num) == 0 then [] else old(Contents(Value()))[1..]
    {
      DequeueIs(Value());
      if num == 0 {
        return None;
      }
      x := cells[head];
      cells[head] := None;
      num := num - 1;
      if num == 0 {
        head, tail := 0, 0;
      } else {
        head := head + 1;
        if head == cells.Length {
          head := 0;
        }
      }
    }
  }
}
