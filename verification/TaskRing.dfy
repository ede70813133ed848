/** The circular task queue of the thread pool: put at queue_rear, take at queue_front. */
module TaskRing {

  datatype Ring<T> = Ring(slots: seq<T>, front: nat, rear: nat, size: nat)

  /** The slot `k` places after the front. */
  function Slot(front: nat, k: nat, cap: nat): nat {
    if front + k < cap then front + k else front + k - cap
  }

  ghost predicate Valid<T>(r: Ring<T>) {
    var cap := |r.slots|;
    && r.size <= cap
    && (cap > 0 ==> r.front < cap && r.rear < cap && r.rear == Slot(r.front, r.size, cap))
  }

  /** The queued tasks, oldest first. */
  ghost function Contents<T>(r: Ring<T>): (q: seq<T>)
    requires Valid(r)
    ensures |q| == r.size
  {
    seq(r.size, k requires 0 <= k < r.size => r.slots[Slot(r.front, k, |r.slots|)])
  }

  /** The index arithmetic of the source. */
  function Next(i: nat, cap: nat): nat
    requires cap > 0
  {
    (i + 1) % cap
  }

  function Put<T>(r: Ring<T>, t: T): Ring<T>
    requires r.rear < |r.slots|
  {
    Ring(r.slots[r.rear := t], r.front, Next(r.rear, |r.slots|), r.size + 1)
  }

  function Take<T>(r: Ring<T>): (T, Ring<T>)
    requires r.front < |r.slots| && r.size > 0
  {
    (r.slots[r.front], Ring(r.slots, Next(r.front, |r.slots|), r.rear, r.size - 1))
  }

  lemma NextWraps(i: nat, cap: nat)
    requires i < cap
    ensures Next(i, cap) == if i + 1 == cap then 0 else i + 1
  {
  }

  /** A put appends, and writes no slot that holds a queued task. */
  lemma PutAppends<T>(r: Ring<T>, t: T)
    requires Valid(r) && r.size < |r.slots|
    ensures Valid(Put(r, t)) && Contents(Put(r, t)) == Contents(r) + [t]
    ensures forall k | 0 <= k < r.size :: Slot(r.front, k, |r.slots|) != r.rear
  {
    NextWraps(r.rear, |r.slots|);
  }

  /** A take removes the oldest task. */
  lemma TakeRemoves<T>(r: Ring<T>)
    requires Valid(r) && r.size > 0
    ensures var (t, q) := Take(r); Valid(q) && Contents(r) == [t] + Contents(q)
  {
    NextWraps(r.front, |r.slots|);
  }

  /** The same queue kept in an array and three fields, as threadpool_t keeps it. */
  class TaskQueue<T> {
    const taskQueue: array<T>
    var front: nat
    var rear: nat
    var size: nat

    ghost function View(): Ring<T>
      reads this, taskQueue
    {
      Ring(taskQueue[..], front, rear, size)
    }

    ghost predicate Usable()
      reads this, taskQueue
    {
      Valid(View())
    }

    /** threadpool_create's part: an array of `taskQueue.Length` slots with any contents. */
    constructor (slots: array<T>)
      ensures taskQueue == slots && Usable() && Contents(View()) == []
    {
      taskQueue := slots;
      front, rear, size := 0, 0, 0;
    }

    /** The critical section of threadpool_add. */
    method Add(t: T)
      requires Usable() && size < taskQueue.Length
      modifies this, taskQueue
      ensures Usable() && View() == Put(old(View()), t)
      ensures Contents(View()) == old(Contents(View())) + [t]
    {
      PutAppends(View(), t);
      taskQueue[rear] := t;
      rear := (rear + 1) % taskQueue.Length;
      size := size + 1;
    }

    /** The critical section of threadpool_thread. */
    method Remove() returns (t: T)
      requires Usable() && size > 0
      modifies this
      ensures Usable() && (t, View()) == Take(old(View()))
      ensures old(Contents(View())) == [t] + Contents(View())
    {
      TakeRemoves(View());
      t := taskQueue[front];
      front := (front + 1) % taskQueue.Length;
      size := size - 1;
    }
  }
}
