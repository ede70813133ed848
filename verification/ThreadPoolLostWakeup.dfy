/** Why a shrink request has to be excluded from the promise that a queued task has an awake worker:
    a run of a pool with one to two workers that ends with a task queued, one worker asleep and the
    other gone. */
module ThreadPoolLostWakeup {
  import opened Options
  import opened Runs
  import opened TaskRing
  import opened ThreadPool
  import opened ThreadPoolSafety

  lemma Go(t: State, a: Action) returns (u: State)
    requires Reachable(t) && Enabled(t, a)
    ensures u == Apply(t, a) && Reachable(u)
  {
    hide Enabled, Apply, Created;
    var s, actions :| Created(s) && Run(Step, s, actions, t);
    RunSnoc(Step, s, actions, t, a);
    u := Apply(t, a);
  }

  /** The pool of the run: ten slots, one to two workers, one producer; `n` tasks queued. */
  ghost predicate Pool(t: State, workers: seq<WorkerPc>, n: nat) {
    && Reachable(t) && Valid(t.ring) && |t.ring.slots| == 10 && t.ring.size == n
    && t.workers == workers && t.adders == [AIdle] && t.lock == Free
    && t.minThreads == 1 && t.maxThreads == 2 && t.live == |workers| && t.busy == 0 && !t.shutdown
    && |t.threads| == 2 && t.threads[0] == Some(0)
  }

  ghost predicate Quiet(t: State) {
    t.manager == MTop && t.waitExit == 0
  }

  lemma Start() returns (t: State)
    ensures Pool(t, [WLock], 0) && Quiet(t) && t.threads[1] == None
  {
    var task := Task(0, 0);
    t := State(Free, Ring(seq(10, _ => task), 0, 0, 0), [WLock], [AIdle], MTop, [Some(0), None], 1, 2, 1, 0, 0, false,
               [], [], multiset{}, false);
    assert seq(1, _ => WLock) == [WLock];
    assert Created(t) && Run(Step, t, [], t);
  }

  /** threadpool_add while there is room; `woken` is the worker its signal wakes. */
  lemma AddOne(t: State, workers: seq<WorkerPc>, n: nat, woken: Option<nat>) returns (u: State)
    requires Pool(t, workers, n) && n < 10 && Signals(workers, woken)
    ensures Pool(u, WakeOne(workers, woken), n + 1)
    ensures u.manager == t.manager && u.waitExit == t.waitExit && u.threads == t.threads
  {
    hide Valid, Signals, WakeOne, Reachable;
    assert t.ring.rear < |t.ring.slots| by { RingBounds(t.ring); }
    u := Go(t, OfAdder(0, Call(Task(1, 1))));
    u := Go(u, OfAdder(0, AddLock));
    u := Go(u, OfAdder(0, AddTest));
    u := Go(u, OfAdder(0, AddShutTest));
    PutAppends(t.ring, Task(1, 1));
    u := Go(u, OfAdder(0, AddPut(woken)));
  }

  lemma RingBounds<T>(r: Ring<T>)
    requires Valid(r) && |r.slots| > 0
    ensures r.rear < |r.slots| && r.front < |r.slots|
  {
  }

  lemma {:induction false} Fill(t: State, n: nat) returns (u: State)
    requires Pool(t, [WLock], n) && Quiet(t) && t.threads[1] == None && n <= 10
    ensures Pool(u, [WLock], 10) && Quiet(u) && u.threads[1] == None
    decreases 10 - n
  {
    hide Pool;
    if n == 10 {
      u := t;
    } else {
      assert Signals([WLock], None);
      u := AddOne(t, [WLock], n, None);
      u := Fill(u, n + 1);
    }
  }

  /** Ten tasks make the manager start a second worker. */
  lemma Grows(t: State) returns (u: State)
    requires Pool(t, [WLock], 10) && Quiet(t) && t.threads[1] == None
    ensures Pool(u, [WLock, WLock], 10) && Quiet(u)
  {
    hide Valid, Reachable;
    u := Go(t, OfManager(Top));
    u := Go(u, OfManager(Read));
    u := Go(u, OfManager(ReadBusy));
    u := Go(u, OfManager(Decide));
    u := Go(u, OfManager(Grow(false)));
    u := Go(u, OfManager(Grow(false)));
    u := Go(u, OfManager(Grow(false)));
    u := Go(u, OfManager(ShrinkDecide));
  }

  /** The first worker runs all the tasks. */
  lemma {:induction false} Drain(t: State, n: nat) returns (u: State)
    requires Pool(t, [WLock, WLock], n) && Quiet(t)
    ensures Pool(u, [WLock, WLock], 0) && Quiet(u)
    decreases n
  {
    if n == 0 {
      u := t;
    } else {
      u := RunOne(t, n);
      u := Drain(u, n - 1);
    }
  }

  lemma RunOne(t: State, n: nat) returns (u: State)
    requires Pool(t, [WLock, WLock], n) && Quiet(t) && n > 0
    ensures Pool(u, [WLock, WLock], n - 1) && Quiet(u)
  {
    hide Valid, Reachable;
    RingBounds(t.ring);
    TakeRemoves(t.ring);
    u := Go(t, OfWorker(0, Lock));
    u := Go(u, OfWorker(0, Test));
    u := Go(u, OfWorker(0, ShutTest));
    u := Go(u, OfWorker(0, TakeTask));
    assert u.adders == [AIdle];
    u := Go(u, OfWorker(0, WorkerAction.Start));
    u := Go(u, OfWorker(0, Finish));
  }

  /** The manager finds both workers idle, asks for a shrink and signals ten times: nobody is asleep
      yet, so the signals are lost and the request stays. */
  lemma AsksToShrink(t: State) returns (u: State)
    requires Pool(t, [WLock, WLock], 0) && Quiet(t)
    ensures Pool(u, [WLock, WLock], 0) && u.manager == MTop && u.waitExit == DEFAULT_THREAD_VARY
  {
    hide Valid, Reachable;
    u := Go(t, OfManager(Top));
    u := Go(u, OfManager(Read));
    u := Go(u, OfManager(ReadBusy));
    u := Go(u, OfManager(Decide));
    u := Go(u, OfManager(ShrinkDecide));
    u := Go(u, OfManager(Shrink));
    u := SignalsNobody(u, DEFAULT_THREAD_VARY);
  }

  lemma {:induction false} SignalsNobody(t: State, left: nat) returns (u: State)
    requires Pool(t, [WLock, WLock], 0) && t.manager == MSignal(left)
    ensures Pool(u, [WLock, WLock], 0) && u.manager == MTop && u.waitExit == t.waitExit
    decreases left
  {
    hide Valid, Reachable;
    u := Go(t, OfManager(Signal(None)));
    if left > 0 {
      u := SignalsNobody(u, left - 1);
    }
  }

  /** Then both workers fall asleep. */
  lemma FallAsleep(t: State) returns (u: State)
    requires Pool(t, [WLock, WLock], 0)
    ensures Pool(u, [WAsleep, WAsleep], 0) && u.manager == t.manager && u.waitExit == t.waitExit
  {
    hide Valid, Reachable;
    u := Go(t, OfWorker(0, Lock));
    u := Go(u, OfWorker(0, Test));
    u := Go(u, OfWorker(1, Lock));
    u := Go(u, OfWorker(1, Test));
    assert u.workers == [WAsleep, WAsleep];
  }

  /** A queued task, every worker asleep or gone, and a manager that on the numbers it has read or
      will read neither starts a thread nor signals. */
  ghost predicate Stuck(t: State) {
    && 0 < t.ring.size < MIN_WAIT_TASK_NUM && !SomeAwake(t.workers) && !t.shutdown
    && t.lock == Free && t.live == t.minThreads
    && match t.manager
       case MTop => true
       case MRead => true
       case MReadBusy(queued, live) => queued < MIN_WAIT_TASK_NUM && live == t.minThreads
       case MDecide(queued, live, _) => queued < MIN_WAIT_TASK_NUM && live == t.minThreads
       case MShrinkTest(live, _) => live == t.minThreads
       case _ => false
  }

  /** The steps of the pool's own threads; a spurious wakeup of pthread_cond_wait is none of them. */
  ghost predicate OwnStep(a: Action) {
    a.OfManager? || (a.OfWorker? && a.worker != Spurious)
  }

  lemma StuckStep(t: State, a: Action)
    requires Stuck(t) && Enabled(t, a) && OwnStep(a)
    ensures Stuck(Apply(t, a)) && Apply(t, a).ring == t.ring
  {
    if a.OfWorker? {
      assert !Awake(t.workers[a.i]);
    }
  }

  /** Whatever the pool's own threads do from there, the task stays queued: only another call of
      threadpool_add, shutdown or a spurious wakeup helps. */
  lemma {:induction false} StuckStays(t: State, actions: seq<Action>, u: State)
    requires Stuck(t) && Run(Step, t, actions, u) && forall k | 0 <= k < |actions| :: OwnStep(actions[k])
    ensures Stuck(u) && u.ring == t.ring
    decreases |actions|
  {
    hide Stuck, Enabled, Apply, OwnStep;
    if actions != [] {
      StuckStep(t, actions[0]);
      StuckStays(Apply(t, actions[0]), actions[1..], u);
    }
  }

  /** A task arrives, and its wakeup goes to a worker that takes the shrink exit.  The task is
      queued, nobody is awake, nothing was shut down, and no thread of the pool will ever change
      that. */
  lemma WakeupLost() returns (t: State)
    ensures Reachable(t) && !t.shutdown && t.minThreads > 0
    ensures t.ring.size > 0 && !SomeAwake(t.workers) && t.manager == MTop && Stuck(t)
  {
    hide Valid, Reachable;
    t := Start();
    t := Fill(t, 0);
    t := Grows(t);
    t := Drain(t, 10);
    t := AsksToShrink(t);
    t := FallAsleep(t);
    t := AddOne(t, [WAsleep, WAsleep], 0, Some(0));
    assert t.workers == [WRelock, WAsleep];
    t := Go(t, OfWorker(0, Relock));
    t := Go(t, OfWorker(0, ShrinkTest));
    assert t.workers == [WGone(true, false), WAsleep];
  }
}
