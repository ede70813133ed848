/** What every reachable state of the thread pool satisfies. */
module ThreadPoolSafety {
  import opened Options
  import opened Runs
  import opened Sequences
  import opened TaskRing
  import opened ThreadPool

  // ---------------------------------------------------------------- the lock

  ghost predicate WorkerHolds(pc: WorkerPc) {
    pc in {WTest, WShrinkTest, WShutTest, WTake}
  }

  ghost predicate AdderHolds(pc: AddPc) {
    pc.ATest? || pc.AShutTest? || pc.APut?
  }

  /** Mutual exclusion: a thread is inside a critical section exactly when it owns the lock. */
  ghost predicate Exclusive(s: State) {
    && (forall i | 0 <= i < |s.workers| :: WorkerHolds(s.workers[i]) <==> s.lock == Worker(i))
    && (forall j | 0 <= j < |s.adders| :: AdderHolds(s.adders[j]) <==> s.lock == Adder(j))
    && (s.manager.MGrow? <==> s.lock == Manager)
    && (s.lock.Worker? ==> s.lock.w < |s.workers|)
    && (s.lock.Adder? ==> s.lock.p < |s.adders|)
  }

  lemma ExclusiveWorker(s: State, i: nat, a: WorkerAction)
    requires Exclusive(s) && WorkerEnabled(s, i, a)
    ensures Exclusive(WorkerStep(s, i, a))
  {
    WorkerLocks(s, i, a);
    WakesHold(s.adders);
    hide WorkerStep, WorkerEnabled, WorkerHolds, AdderHolds, WakeAdders;
  }

  /** What a worker's step does to the lock. */
  lemma WorkerLocks(s: State, i: nat, a: WorkerAction)
    requires WorkerEnabled(s, i, a) && (WorkerHolds(s.workers[i]) <==> s.lock == Worker(i))
    ensures var t := WorkerStep(s, i, a);
            && i < |s.workers| == |t.workers| && t.workers == s.workers[i := t.workers[i]]
            && t.manager == s.manager && (t.adders == s.adders || t.adders == WakeAdders(s.adders))
            && (s.lock == t.lock || (s.lock in {Free, Worker(i)} && t.lock in {Free, Worker(i)}))
            && (WorkerHolds(t.workers[i]) <==> t.lock == Worker(i))
  {
    hide WakeAdders, Take, AdderHolds;
  }

  /** Waking producers gives nobody the lock, nor takes it. */
  lemma WakesHold(ps: seq<AddPc>)
    ensures forall j | 0 <= j < |ps| :: AdderHolds(WakeAdders(ps)[j]) == AdderHolds(ps[j])
  {
  }

  lemma ExclusiveAdder(s: State, j: nat, a: AddAction)
    requires Exclusive(s) && AdderEnabled(s, j, a)
    ensures Exclusive(AdderStep(s, j, a))
  {
  }

  lemma ExclusiveManager(s: State, a: AdjustAction)
    requires Exclusive(s) && ManagerEnabled(s, a)
    ensures Exclusive(ManagerStep(s, a))
  {
  }

  lemma ExclusiveStep(s: State, a: Action)
    requires Exclusive(s) && Enabled(s, a)
    ensures Exclusive(Apply(s, a))
  {
    hide WorkerStep, AdderStep, ManagerStep, WorkerEnabled, AdderEnabled, ManagerEnabled;
    match a
    case OfWorker(i, w) => ExclusiveWorker(s, i, w);
    case OfAdder(j, d) => ExclusiveAdder(s, j, d);
    case OfManager(m) => ExclusiveManager(s, m);
    case SetShutdown =>
    case DestroyBroadcast =>
  }

  // ---------------------------------------------------------------- the queue

  /** The ring is a FIFO queue: what was accepted is what was delivered followed by what is queued. */
  ghost predicate Fifo(s: State) {
    && Valid(s.ring)
    && s.accepted == s.delivered + Contents(s.ring)
  }

  /** What a thread inside a critical section has established about the queue, and what a producer
      asleep on queue_not_full says about it. */
  ghost predicate Guarded(s: State) {
    && (forall i | 0 <= i < |s.workers| ::
          && (s.workers[i] == WTake ==> s.ring.size > 0)
          && (s.workers[i] == WShutTest ==> s.ring.size > 0 || s.shutdown))
    && (forall j | 0 <= j < |s.adders| ::
          && (s.adders[j].APut? ==> s.ring.size < |s.ring.slots|)
          && (s.adders[j].AShutTest? ==> s.ring.size < |s.ring.slots| || s.shutdown)
          && (s.adders[j].AAsleep? ==> s.ring.size == |s.ring.slots|))
  }

  lemma FifoWorker(s: State, i: nat, a: WorkerAction)
    requires Fifo(s) && Guarded(s) && WorkerEnabled(s, i, a)
    ensures Fifo(WorkerStep(s, i, a))
  {
    if a == TakeTask { TakeRemoves(s.ring); }
  }

  lemma FifoAdder(s: State, j: nat, a: AddAction)
    requires Fifo(s) && Guarded(s) && AdderEnabled(s, j, a)
    ensures Fifo(AdderStep(s, j, a))
  {
    if a.AddPut? { PutAppends(s.ring, s.adders[j].task); }
  }

  lemma FifoManager(s: State, a: AdjustAction)
    requires Fifo(s) && Guarded(s) && ManagerEnabled(s, a)
    ensures Fifo(ManagerStep(s, a))
  {
  }

  lemma FifoStep(s: State, a: Action)
    requires Fifo(s) && Guarded(s) && Enabled(s, a)
    ensures Fifo(Apply(s, a))
  {
    hide WorkerStep, AdderStep, ManagerStep, WorkerEnabled, AdderEnabled, ManagerEnabled;
    match a
    case OfWorker(i, w) => FifoWorker(s, i, w);
    case OfAdder(j, d) => FifoAdder(s, j, d);
    case OfManager(m) => FifoManager(s, m);
    case SetShutdown =>
    case DestroyBroadcast =>
  }

  lemma GuardedWorker(s: State, i: nat, a: WorkerAction)
    requires Exclusive(s) && Valid(s.ring) && Guarded(s) && WorkerEnabled(s, i, a)
    ensures Guarded(WorkerStep(s, i, a))
  {
    hide Take, Valid;
    if a == TakeTask { GuardedTake(s, i); }
  }

  lemma GuardedTake(s: State, i: nat)
    requires Exclusive(s) && Valid(s.ring) && Guarded(s) && WorkerEnabled(s, i, TakeTask)
    ensures Guarded(WorkerStep(s, i, TakeTask))
  {
  }

  lemma GuardedAdder(s: State, j: nat, a: AddAction)
    requires Exclusive(s) && Valid(s.ring) && Guarded(s) && AdderEnabled(s, j, a)
    ensures Guarded(AdderStep(s, j, a))
  {
  }

  lemma GuardedManager(s: State, a: AdjustAction)
    requires Exclusive(s) && Valid(s.ring) && Guarded(s) && ManagerEnabled(s, a)
    ensures Guarded(ManagerStep(s, a))
  {
  }

  lemma GuardedStep(s: State, a: Action)
    requires Exclusive(s) && Valid(s.ring) && Guarded(s) && Enabled(s, a)
    ensures Guarded(Apply(s, a))
  {
    hide WorkerStep, AdderStep, ManagerStep, WorkerEnabled, AdderEnabled, ManagerEnabled;
    match a
    case OfWorker(i, w) => GuardedWorker(s, i, w);
    case OfAdder(j, d) => GuardedAdder(s, j, d);
    case OfManager(m) => GuardedManager(s, m);
    case SetShutdown =>
    case DestroyBroadcast =>
  }

  // ---------------------------------------------------------------- counting threads

  /** The worker has not taken the shrink exit. */
  ghost predicate Member(pc: WorkerPc) {
    !(pc.WGone? && pc.shrunk)
  }

  ghost predicate Running(pc: WorkerPc) {
    pc.WRun?
  }

  /** A step that only wakes sleeping workers. */
  ghost predicate OnlyWakes(ws: seq<WorkerPc>, vs: seq<WorkerPc>) {
    |vs| == |ws| && forall k | 0 <= k < |ws| :: vs[k] == ws[k] || (ws[k].WAsleep? && vs[k].WRelock?)
  }

  lemma WakesCount(ws: seq<WorkerPc>, vs: seq<WorkerPc>)
    requires OnlyWakes(ws, vs)
    ensures Count(ws, Member) == Count(vs, Member) && Count(ws, Running) == Count(vs, Running)
  {
  }

  /** What producers and the manager do to the workers: wake some, or start one. */
  lemma AdderWakes(s: State, j: nat, a: AddAction)
    requires AdderEnabled(s, j, a)
    ensures var t := AdderStep(s, j, a);
            OnlyWakes(s.workers, t.workers)
            && (t.live, t.busy, t.waitExit) == (s.live, s.busy, s.waitExit)
            && (t.minThreads, t.maxThreads) == (s.minThreads, s.maxThreads)
            && t.delivered == s.delivered && t.finished == s.finished
  {
  }

  lemma ManagerWakes(s: State, a: AdjustAction)
    requires ManagerEnabled(s, a)
    ensures var t := ManagerStep(s, a);
            && (t.busy, t.minThreads, t.maxThreads) == (s.busy, s.minThreads, s.maxThreads)
            && t.delivered == s.delivered && t.finished == s.finished
            && t.waitExit in {s.waitExit, DEFAULT_THREAD_VARY}
            && if |t.workers| == |s.workers| then OnlyWakes(s.workers, t.workers) && t.live == s.live
               else t.workers == s.workers + [WLock] && t.live == s.live + 1 && s.live < s.maxThreads
  {
  }

  /** The counters of the pool: live_thread_num counts the workers that have not taken the shrink
      exit and stays between the bounds; busy_thread_num counts the running ones. */
  ghost predicate Sized(s: State) {
    && s.minThreads <= s.live <= s.maxThreads
    && s.live == Count(s.workers, Member)
    && s.busy == Count(s.workers, Running)
    && 0 <= s.waitExit <= DEFAULT_THREAD_VARY
  }

  /** What a worker's step does to the counters. */
  lemma WorkerCounts(s: State, i: nat, a: WorkerAction)
    requires WorkerEnabled(s, i, a)
    ensures var t := WorkerStep(s, i, a);
            && i < |s.workers| == |t.workers| && t.workers == s.workers[i := t.workers[i]]
            && (t.minThreads, t.maxThreads) == (s.minThreads, s.maxThreads)
            && s.live - t.live == (if Member(s.workers[i]) then 1 else 0) - (if Member(t.workers[i]) then 1 else 0)
            && s.busy - t.busy == (if Running(s.workers[i]) then 1 else 0) - (if Running(t.workers[i]) then 1 else 0)
            && (t.live == s.live || s.minThreads <= t.live < s.live)
            && (t.waitExit == s.waitExit || 0 <= t.waitExit < s.waitExit)
  {
    hide WakeAdders, Take;
  }

  lemma SizedWorker(s: State, i: nat, a: WorkerAction)
    requires Sized(s) && WorkerEnabled(s, i, a)
    ensures Sized(WorkerStep(s, i, a))
  {
    WorkerCounts(s, i, a);
    hide Count, WorkerStep, WorkerEnabled, Member, Running;
    var t := WorkerStep(s, i, a);
    CountUpdate(s.workers, i, t.workers[i], Member);
    CountUpdate(s.workers, i, t.workers[i], Running);
  }

  lemma SizedAdder(s: State, j: nat, a: AddAction)
    requires Sized(s) && AdderEnabled(s, j, a)
    ensures Sized(AdderStep(s, j, a))
  {
    hide AdderStep;
    AdderWakes(s, j, a);
    WakesCount(s.workers, AdderStep(s, j, a).workers);
  }

  lemma SizedManager(s: State, a: AdjustAction)
    requires Sized(s) && ManagerEnabled(s, a)
    ensures Sized(ManagerStep(s, a))
  {
    hide ManagerStep;
    ManagerWakes(s, a);
    var t := ManagerStep(s, a);
    if |t.workers| == |s.workers| {
      WakesCount(s.workers, t.workers);
    } else {
      CountGrow(s.workers, WLock, Member);
      CountGrow(s.workers, WLock, Running);
    }
  }

  lemma SizedStep(s: State, a: Action)
    requires Sized(s) && Enabled(s, a)
    ensures Sized(Apply(s, a))
  {
    hide WorkerStep, AdderStep, ManagerStep, WorkerEnabled, AdderEnabled, ManagerEnabled;
    match a
    case OfWorker(i, w) => SizedWorker(s, i, w);
    case OfAdder(j, d) => SizedAdder(s, j, d);
    case OfManager(m) => SizedManager(s, m);
    case SetShutdown =>
    case DestroyBroadcast =>
      WakesCount(s.workers, WakeWorkers(s.workers));
  }

  // ---------------------------------------------------------------- no task is lost

  /** The worker has taken `t` and has not finished it. */
  ghost function Holds(t: Task): WorkerPc -> bool {
    (pc: WorkerPc) => (pc.WStart? || pc.WRun?) && pc.task == t
  }

  /** Every delivered task is in the hands of one worker or has been run to its end: for each task,
      as many deliveries as workers holding it and returns of it. */
  ghost predicate Conserved(s: State) {
    forall t: Task :: multiset(s.delivered)[t] == Count(s.workers, Holds(t)) + s.finished[t]
  }

  /** Which task a worker's step moves, and from where to where. */
  lemma WorkerMoves(s: State, i: nat, a: WorkerAction)
    requires WorkerEnabled(s, i, a)
    ensures var r := WorkerStep(s, i, a);
            && i < |s.workers| == |r.workers| && r.workers == s.workers[i := r.workers[i]]
            && r.delivered == (if a == TakeTask then s.delivered + [s.ring.slots[s.ring.front]] else s.delivered)
            && r.finished == (if a == Finish then s.finished + multiset{s.workers[i].task} else s.finished)
    ensures var pc, qc := s.workers[i], WorkerStep(s, i, a).workers[i];
            match a
            case TakeTask => pc == WTake && qc == WStart(s.ring.slots[s.ring.front])
            case Start => pc.WStart? && qc == WRun(pc.task)
            case Finish => pc.WRun? && qc == WLock
            case _ => !pc.WStart? && !pc.WRun? && !qc.WStart? && !qc.WRun?
  {
  }

  lemma ConservedWorker(s: State, i: nat, a: WorkerAction)
    requires Conserved(s) && WorkerEnabled(s, i, a)
    ensures Conserved(WorkerStep(s, i, a))
  {
    hide WorkerStep, WorkerEnabled;
    WorkerMoves(s, i, a);
    var r := WorkerStep(s, i, a);
    forall t: Task ensures multiset(r.delivered)[t] == Count(r.workers, Holds(t)) + r.finished[t] {
      CountUpdate(s.workers, i, r.workers[i], Holds(t));
      assert multiset(s.delivered)[t] == Count(s.workers, Holds(t)) + s.finished[t];
    }
  }

  lemma ConservedWakes(s: State, r: State)
    requires Conserved(s) && OnlyWakes(s.workers, r.workers) && r.delivered == s.delivered && r.finished == s.finished
    ensures Conserved(r)
  {
    forall t: Task ensures multiset(r.delivered)[t] == Count(r.workers, Holds(t)) + r.finished[t] {
      CountSame(s.workers, r.workers, Holds(t));
      assert multiset(s.delivered)[t] == Count(s.workers, Holds(t)) + s.finished[t];
    }
  }

  lemma ConservedAdder(s: State, j: nat, a: AddAction)
    requires Conserved(s) && AdderEnabled(s, j, a)
    ensures Conserved(AdderStep(s, j, a))
  {
    hide AdderStep, Conserved;
    AdderWakes(s, j, a);
    ConservedWakes(s, AdderStep(s, j, a));
  }

  lemma ConservedManager(s: State, a: AdjustAction)
    requires Conserved(s) && ManagerEnabled(s, a)
    ensures Conserved(ManagerStep(s, a))
  {
    hide ManagerStep;
    ManagerWakes(s, a);
    var r := ManagerStep(s, a);
    if |r.workers| == |s.workers| {
      ConservedWakes(s, r);
    } else {
      forall t: Task ensures multiset(r.delivered)[t] == Count(r.workers, Holds(t)) + r.finished[t] {
        CountGrow(s.workers, WLock, Holds(t));
        assert multiset(s.delivered)[t] == Count(s.workers, Holds(t)) + s.finished[t];
      }
    }
  }

  lemma ConservedStep(s: State, a: Action)
    requires Conserved(s) && Enabled(s, a)
    ensures Conserved(Apply(s, a))
  {
    hide WorkerStep, AdderStep, ManagerStep, WorkerEnabled, AdderEnabled, ManagerEnabled;
    match a
    case OfWorker(i, w) => ConservedWorker(s, i, w);
    case OfAdder(j, d) => ConservedAdder(s, j, d);
    case OfManager(m) => ConservedManager(s, m);
    case SetShutdown =>
    case DestroyBroadcast => ConservedWakes(s, Apply(s, a));
  }

  // ---------------------------------------------------------------- the thread table

  ghost predicate Ended(pc: WorkerPc) {
    pc.WGone? && pc.ended
  }

  ghost predicate Listed(threads: seq<Option<nat>>, w: nat) {
    exists k | 0 <= k < |threads| :: threads[k] == Some(w)
  }

  /** Every thread that has not terminated is in exactly one slot of pool->threads, so the manager
      never writes over the slot of one. */
  ghost predicate Tabled(s: State) {
    && |s.threads| == s.maxThreads
    && (forall k | 0 <= k < |s.threads| :: s.threads[k].Some? ==> s.threads[k].value < |s.workers|)
    && (forall k, l | 0 <= k < l < |s.threads| :: s.threads[k].Some? ==> s.threads[k] != s.threads[l])
    && (forall w | 0 <= w < |s.workers| :: !Ended(s.workers[w]) ==> Listed(s.threads, w))
  }

  lemma TabledWorker(s: State, i: nat, a: WorkerAction)
    requires Tabled(s) && WorkerEnabled(s, i, a)
    ensures Tabled(WorkerStep(s, i, a))
  {
    TableUntouched(s, i, a);
    hide WorkerStep, WorkerEnabled, Listed;
  }

  lemma TableUntouched(s: State, i: nat, a: WorkerAction)
    requires WorkerEnabled(s, i, a)
    ensures var t := WorkerStep(s, i, a);
            && t.threads == s.threads && t.maxThreads == s.maxThreads
            && i < |s.workers| == |t.workers| && t.workers == s.workers[i := t.workers[i]]
            && (Ended(s.workers[i]) ==> Ended(t.workers[i]))
  {
    hide WakeAdders, Take;
  }

  lemma TabledAdder(s: State, j: nat, a: AddAction)
    requires Tabled(s) && AdderEnabled(s, j, a)
    ensures Tabled(AdderStep(s, j, a))
  {
  }

  lemma TabledManager(s: State, a: AdjustAction)
    requires Tabled(s) && ManagerEnabled(s, a)
    ensures Tabled(ManagerStep(s, a))
  {
    var t := ManagerStep(s, a);
    if |t.workers| > |s.workers| {
      TabledGrow(s, t, s.manager.i);
    } else {
      ManagerKeepsTable(s, a);
      hide ManagerStep, ManagerEnabled, Listed;
    }
  }

  lemma ManagerKeepsTable(s: State, a: AdjustAction)
    requires ManagerEnabled(s, a)
    ensures var t := ManagerStep(s, a);
            |t.workers| == |s.workers| ==>
              && t.threads == s.threads && t.maxThreads == s.maxThreads
              && forall w | 0 <= w < |s.workers| :: Ended(t.workers[w]) == Ended(s.workers[w])
  {
  }

  /** The new thread takes slot `k`, which was free or that of a terminated one. */
  lemma TabledGrow(s: State, t: State, k: nat)
    requires Tabled(s) && k < |s.threads| && t.maxThreads == s.maxThreads
    requires t.workers == s.workers + [WLock] && t.threads == s.threads[k := Some(|s.workers|)]
    requires s.threads[k].Some? ==> s.threads[k].value < |s.workers| && Ended(s.workers[s.threads[k].value])
    ensures Tabled(t)
  {
    assert t.threads[k] == Some(|s.workers|);
    forall w | 0 <= w < |t.workers| && !Ended(t.workers[w]) ensures Listed(t.threads, w) {
      if w < |s.workers| {
        var l :| 0 <= l < |s.threads| && s.threads[l] == Some(w);
        assert t.threads[l] == s.threads[l];
      }
    }
  }

  lemma TabledStep(s: State, a: Action)
    requires Tabled(s) && Enabled(s, a)
    ensures Tabled(Apply(s, a))
  {
    hide WorkerStep, AdderStep, ManagerStep, WorkerEnabled, AdderEnabled, ManagerEnabled;
    match a
    case OfWorker(i, w) => TabledWorker(s, i, w);
    case OfAdder(j, d) => TabledAdder(s, j, d);
    case OfManager(m) => TabledManager(s, m);
    case SetShutdown =>
    case DestroyBroadcast =>
  }

  // ---------------------------------------------------------------- nobody sleeps on work

  ghost predicate Awake(pc: WorkerPc) {
    !pc.WAsleep? && !pc.WGone?
  }

  ghost predicate SomeAwake(ws: seq<WorkerPc>) {
    exists i | 0 <= i < |ws| :: Awake(ws[i])
  }

  /** A queued task always has a worker that is not asleep. */
  ghost predicate Attended(s: State) {
    s.ring.size > 0 ==> SomeAwake(s.workers)
  }

  /** Workers leave for shutdown only after it is set; a shrink exit needs a request. */
  ghost predicate Leaving(s: State) {
    && (forall i | 0 <= i < |s.workers| :: s.workers[i].WGone? && !s.workers[i].shrunk ==> s.shutdown)
    && (!s.shrinks ==> s.waitExit == 0)
  }

  lemma LeavingWorker(s: State, i: nat, a: WorkerAction)
    requires Leaving(s) && WorkerEnabled(s, i, a)
    ensures Leaving(WorkerStep(s, i, a))
  {
  }

  lemma LeavingAdder(s: State, j: nat, a: AddAction)
    requires Leaving(s) && AdderEnabled(s, j, a)
    ensures Leaving(AdderStep(s, j, a))
  {
  }

  lemma LeavingManager(s: State, a: AdjustAction)
    requires Leaving(s) && ManagerEnabled(s, a)
    ensures Leaving(ManagerStep(s, a))
  {
  }

  lemma LeavingStep(s: State, a: Action)
    requires Leaving(s) && Enabled(s, a)
    ensures Leaving(Apply(s, a))
  {
    hide WorkerStep, AdderStep, ManagerStep, WorkerEnabled, AdderEnabled, ManagerEnabled;
    match a
    case OfWorker(i, w) => LeavingWorker(s, i, w);
    case OfAdder(j, d) => LeavingAdder(s, j, d);
    case OfManager(m) => LeavingManager(s, m);
    case SetShutdown =>
    case DestroyBroadcast =>
  }

  /** The one step that can leave a queued task with every worker asleep or gone: the shrink exit
      of the last worker awake. */
  ghost predicate LosesWakeup(s: State, a: Action) {
    && a.OfWorker? && a.worker == ShrinkTest && s.waitExit > 0 && s.live > s.minThreads && s.ring.size > 0
    && forall i | 0 <= i < |s.workers| && i != a.i :: !Awake(s.workers[i])
  }

  lemma AttendedWorker(s: State, i: nat, a: WorkerAction)
    requires Attended(s) && Valid(s.ring) && !s.shutdown && WorkerEnabled(s, i, a)
    ensures Attended(WorkerStep(s, i, a)) <==> !LosesWakeup(s, OfWorker(i, a))
  {
    var t := WorkerStep(s, i, a);
    if t.workers[i].WGone? && a != End {
      if k :| 0 <= k < |s.workers| && k != i && Awake(s.workers[k]) {
        assert Awake(t.workers[k]);
      }
    } else if a == End {
      if SomeAwake(s.workers) {
        var k :| 0 <= k < |s.workers| && Awake(s.workers[k]);
        assert Awake(t.workers[k]);
      }
    } else if !t.workers[i].WAsleep? {
      assert Awake(t.workers[i]);
    }
  }

  lemma AttendedAdder(s: State, j: nat, a: AddAction)
    requires Attended(s) && Sized(s) && Leaving(s) && !s.shutdown && s.minThreads > 0 && AdderEnabled(s, j, a)
    ensures Attended(AdderStep(s, j, a))
  {
    var t := AdderStep(s, j, a);
    if a.AddPut? {
      var i := CountPositive(s.workers, Member);
      assert Awake(t.workers[if a.woken.Some? then a.woken.value else i]);
    } else {
      assert t.workers == s.workers;
    }
  }

  lemma AttendedManager(s: State, a: AdjustAction)
    requires Attended(s) && ManagerEnabled(s, a)
    ensures Attended(ManagerStep(s, a))
  {
    var t := ManagerStep(s, a);
    if SomeAwake(s.workers) {
      var k :| 0 <= k < |s.workers| && Awake(s.workers[k]);
      assert Awake(t.workers[k]);
    }
  }

  /** Before shutdown, with at least one worker demanded: a step leaves a queued task unattended if
      and only if it is that shrink exit. */
  lemma AttendedStepIff(s: State, a: Action)
    requires Attended(s) && Valid(s.ring) && Sized(s) && Leaving(s) && s.minThreads > 0 && Enabled(s, a)
    requires !Apply(s, a).shutdown
    ensures Attended(Apply(s, a)) <==> !LosesWakeup(s, a)
  {
    hide WorkerStep, AdderStep, ManagerStep, WorkerEnabled, AdderEnabled, ManagerEnabled;
    ShutdownStays(s, a);
    match a
    case OfWorker(i, w) => AttendedWorker(s, i, w);
    case OfAdder(j, d) => AttendedAdder(s, j, d);
    case OfManager(m) => AttendedManager(s, m);
    case SetShutdown =>
    case DestroyBroadcast =>
  }

  /** shutdown only ever goes from 0 to 1, a shrink request is never forgotten, and the pool's
      bounds never change. */
  ghost predicate Later(s: State, t: State) {
    && (s.shutdown ==> t.shutdown)
    && (s.shrinks ==> t.shrinks)
    && t.minThreads == s.minThreads && t.maxThreads == s.maxThreads
  }

  lemma ShutdownStays(s: State, a: Action)
    requires Enabled(s, a)
    ensures Later(s, Apply(s, a))
  {
    hide Take, WakeAdders, WakeWorkers, WakeOne, Signals;
  }

  // ---------------------------------------------------------------- whole runs

  ghost predicate Invariant(s: State) {
    && Exclusive(s) && Fifo(s) && Guarded(s)
    && Sized(s) && Conserved(s) && Tabled(s) && Leaving(s)
    && (!s.shutdown && !s.shrinks && s.minThreads > 0 ==> Attended(s))
  }

  lemma CreatedInvariant(s: State)
    requires Created(s)
    ensures Invariant(s)
  {
    CountAll(s.workers, Member, true);
    CountAll(s.workers, Running, false);
    forall t: Task ensures Count(s.workers, Holds(t)) == 0 {
      CountAll(s.workers, Holds(t), false);
    }
    forall w | 0 <= w < |s.workers| ensures Listed(s.threads, w) {
      assert s.threads[w] == Some(w);
    }
  }

  lemma InvariantStep(s: State, a: Action)
    requires Invariant(s) && Enabled(s, a)
    ensures Invariant(Apply(s, a))
  {
    hide Apply, Enabled, Exclusive, Guarded, Conserved, Tabled, Attended;
    ExclusiveStep(s, a);
    FifoStep(s, a);
    GuardedStep(s, a);
    SizedStep(s, a);
    ConservedStep(s, a);
    TabledStep(s, a);
    LeavingStep(s, a);
    ShutdownStays(s, a);
    var t := Apply(s, a);
    if !t.shutdown && !t.shrinks && t.minThreads > 0 {
      AttendedStepIff(s, a);
    }
  }

  lemma ReachableInvariant(t: State)
    requires Reachable(t)
    ensures Invariant(t)
  {
    hide Invariant, Apply, Enabled;
    var s, actions :| Created(s) && Run(Step, s, actions, t);
    CreatedInvariant(s);
    forall u: State, a: Action | Invariant(u) && Step(u, a).Some? ensures Invariant(Step(u, a).value) {
      InvariantStep(u, a);
    }
    RunKeeps(Step, Invariant, s, actions, t);
  }

  // ---------------------------------------------------------------- the promises of the pool

  /** In every reachable state: tasks are delivered in the order they were accepted, each once, none
      lost; and a worker about to take finds a task, a producer about to put finds a free slot, even
      though `shutdown` is written without the lock. */
  lemma TasksAreSafe(t: State)
    requires Reachable(t)
    ensures Valid(t.ring) && t.accepted == t.delivered + Contents(t.ring)
    ensures forall task: Task :: multiset(t.accepted)[task]
              == t.finished[task] + Count(t.workers, Holds(task)) + multiset(Contents(t.ring))[task]
    ensures forall i | 0 <= i < |t.workers| && t.workers[i] == WTake :: WorkerEnabled(t, i, TakeTask)
    ensures forall j | 0 <= j < |t.adders| && t.adders[j].APut? ::
              t.ring.size < |t.ring.slots| && t.ring.rear < |t.ring.slots|
  {
    hide Exclusive, Sized, Tabled, Leaving, Attended, Holds, Count, Contents;
    ReachableInvariant(t);
    forall task: Task
      ensures multiset(t.accepted)[task]
              == t.finished[task] + Count(t.workers, Holds(task)) + multiset(Contents(t.ring))[task] {
      assert multiset(t.delivered)[task] == Count(t.workers, Holds(task)) + t.finished[task];
      assert multiset(t.delivered + Contents(t.ring)) == multiset(t.delivered) + multiset(Contents(t.ring));
    }
  }

  /** In every reachable state the counters are within their bounds and mean what they say, and no
      more than max_thread_num threads exist. */
  lemma PoolIsSized(t: State)
    requires Reachable(t)
    ensures t.minThreads <= t.live <= t.maxThreads
    ensures 0 <= t.waitExit <= DEFAULT_THREAD_VARY && 0 <= t.busy <= t.live
    ensures t.live == Count(t.workers, Member)
    ensures Count(t.workers, pc => !Ended(pc)) <= t.maxThreads
    ensures forall w | 0 <= w < |t.workers| && !Ended(t.workers[w]) :: Listed(t.threads, w)
  {
    hide Exclusive, Fifo, Guarded, Conserved, Leaving, Attended;
    ReachableInvariant(t);
    CountAtMost(t.workers, Running, Member);
    ThreadsFit(t.workers, t.threads, pc => !Ended(pc));
  }

  /** Distinct slots: as many threads as slots at most. */
  lemma {:induction false} ThreadsFit(ws: seq<WorkerPc>, threads: seq<Option<nat>>, p: WorkerPc -> bool)
    requires forall w | 0 <= w < |ws| && p(ws[w]) :: Listed(threads, w)
    ensures Count(ws, p) <= |threads|
    decreases |ws|
  {
    if ws != [] {
      var n := |ws| - 1;
      forall w | 0 <= w < n && p(ws[..n][w]) ensures Listed(threads, w) {
        assert p(ws[w]);
      }
      if p(ws[n]) {
        var k :| 0 <= k < |threads| && threads[k] == Some(n as nat);
        var others := threads[..k] + threads[k + 1..];
        forall w | 0 <= w < n && p(ws[..n][w]) ensures Listed(others, w) {
          assert p(ws[w]);
          var l :| 0 <= l < |threads| && threads[l] == Some(w);
          assert others[if l < k then l else l - 1] == Some(w);
        }
        ThreadsFit(ws[..n], others, p);
      } else {
        ThreadsFit(ws[..n], threads, p);
      }
    }
  }

  /** A producer asleep means a full queue, in every run; without a shrink request and before
      shutdown, a queued task means a worker that is not asleep.  So with a worker, a slot and a
      producer, they are never all asleep. */
  lemma NeverAllAsleep(t: State)
    requires Reachable(t)
    ensures forall j | 0 <= j < |t.adders| && t.adders[j].AAsleep? :: t.ring.size == |t.ring.slots|
    ensures !t.shutdown && !t.shrinks && t.minThreads > 0 && t.ring.size > 0 ==> SomeAwake(t.workers)
    ensures !t.shutdown && !t.shrinks && t.minThreads > 0 && |t.ring.slots| > 0 && t.adders != [] ==>
              SomeAwake(t.workers) || exists j | 0 <= j < |t.adders| :: !t.adders[j].AAsleep?
  {
    ReachableInvariant(t);
    if !(exists j | 0 <= j < |t.adders| :: !t.adders[j].AAsleep?) && t.adders != [] {
      assert t.adders[0].AAsleep?;
    }
  }
}
