/** The task queue of the thread pool: a ring of slots, filled at `rear` and emptied at `front`. */
module PoolRing {

  /** A task is known by a number; which function it calls does not matter here. */
  type Task = nat

  datatype Ring = Ring(slots: seq<Task>, front: nat, rear: nat, size: nat)

  function Next(k: nat, n: nat): nat
    requires n > 0
  {
    (k + 1) % n
  }

  /** A position counted from `front`, wrapped around the end. */
  function Wrap(k: nat, n: nat): nat { if k < n then k else k - n }

  lemma NextWraps(k: nat, n: nat)
    requires k < n
    ensures Next(k, n) == Wrap(k + 1, n)
  {
    if k + 1 < n {
      assert (k + 1) % n == k + 1;
    } else {
      assert k + 1 == n;
    }
  }

  /** The queue is as long as `size` says, and `rear` is where it ends. An empty ring of no slots is possible. */
  predicate ValidRing(r: Ring) {
    && r.size <= |r.slots|
    && (if |r.slots| == 0 then r.front == 0 && r.rear == 0
        else r.front < |r.slots| && r.rear == Wrap(r.front + r.size, |r.slots|) < |r.slots|)
  }

  lemma RearIsModular(r: Ring)
    requires ValidRing(r) && |r.slots| > 0
    ensures r.rear == (r.front + r.size) % |r.slots|
  {
    var n, k := |r.slots|, r.front + r.size;
    if k < n {
    } else {
      assert k - n < n;
      assert k == n * 1 + (k - n);
      ModOnce(k, n);
    }
  }

  lemma ModOnce(k: nat, n: nat)
    requires n <= k < 2 * n
    ensures k % n == k - n
  {
    assert (k - n) % n == k - n;
    var q := k / n;
    assert k == q * n + k % n;
    assert q >= 2 ==> q * n >= 2 * n;
    assert q <= 0 ==> q * n <= 0;
  }

  /** The tasks in the queue, oldest first. */
  function Contents(r: Ring): seq<Task>
    requires ValidRing(r)
  {
    seq(r.size, i requires 0 <= i < r.size => r.slots[Wrap(r.front + i, |r.slots|)])
  }

  /** The assignments of `threadpool_add_task`. */
  function Put(r: Ring, t: Task): Ring
    requires r.rear < |r.slots|
  {
    r.(slots := r.slots[r.rear := t], rear := Next(r.rear, |r.slots|), size := r.size + 1)
  }

  /** The assignments of a worker that takes a task. */
  function Take(r: Ring): Ring
    requires |r.slots| > 0 && r.size > 0
  {
    r.(front := Next(r.front, |r.slots|), size := r.size - 1)
  }

  lemma PutAppends(r: Ring, t: Task)
    requires ValidRing(r) && r.size < |r.slots|
    ensures ValidRing(Put(r, t)) && Contents(Put(r, t)) == Contents(r) + [t]
  {
    var n := |r.slots|;
    NextWraps(r.rear, n);
    var after := Put(r, t);
    forall i | 0 <= i < r.size + 1 ensures Contents(after)[i] == (Contents(r) + [t])[i] {
      if i < r.size {
        assert Wrap(r.front + i, n) != r.rear;
      }
    }
  }

  lemma TakeRemovesOldest(r: Ring)
    requires ValidRing(r) && r.size > 0
    ensures ValidRing(Take(r)) && Contents(r) == [r.slots[r.front]] + Contents(Take(r))
  {
    var n := |r.slots|;
    NextWraps(r.front, n);
    var after := Take(r);
    forall i | 0 <= i < r.size - 1 ensures Contents(after)[i] == Contents(r)[i + 1] {
      assert Wrap(after.front + i, n) == Wrap(r.front + (i + 1), n);
    }
    assert Wrap(r.front + 0, n) == r.front;
    assert Contents(r)[0] == r.slots[r.front];
    assert Contents(r)[1..] == Contents(after);
  }

  /** The queue in the pool's memory; each method is what a thread does while it holds the lock. */
  class TaskQueue {
    const slots: array<Task>
    var front: nat
    var rear: nat
    var size: nat

    function Value(): Ring
      reads this, slots
    {
      Ring(slots[..], front, rear, size)
    }

    constructor (capacity: nat)
      ensures fresh(slots) && ValidRing(Value()) && slots.Length == capacity && Contents(Value()) == []
    {
      slots := new Task[capacity];
      front, rear, size := 0, 0, 0;
    }

    method Add(t: Task)
      requires ValidRing(Value()) && size < slots.Length
      modifies this`rear, this`size, slots
      ensures Value() == Put(old(Value()), t)
      ensures ValidRing(Value()) && Contents(Value()) == old(Contents(Value())) + [t]
    {
      PutAppends(Value(), t);
      slots[rear] := t;
      rear := (rear + 1) % slots.Length;
      size := size + 1;
    }

    method Remove() returns (t: Task)
      requires ValidRing(Value()) && size > 0
      modifies this`front, this`size
      ensures Value() == Take(old(Value()))
      ensures ValidRing(Value()) && old(Contents(Value())) == [t] + Contents(Value())
    {
      TakeRemovesOldest(Value());
      t := slots[front];
      front := (front + 1) % slots.Length;
      size := size - 1;
    }
  }
}
