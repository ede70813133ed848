/** How far the manager grows the thread pool in one pass and over a whole run, and that it leaves with
    the pool. */
module ThreadPoolGrowth {
  import opened Options
  import opened Runs
  import opened TaskRing
  import opened ThreadPool
  import opened ThreadPoolSafety

  // ---------------------------------------------------------------- over whole runs

  /** The action starts the growing loop. */
  ghost predicate StartsGrowth(s: State, a: Action) {
    a == OfManager(Decide) && ManagerEnabled(s, Decide) && ManagerStep(s, Decide).manager.MGrow?
  }

  ghost function Growths(s: State, actions: seq<Action>): nat
    decreases |actions|
  {
    if actions == [] || !Enabled(s, actions[0]) then 0
    else Growths(Apply(s, actions[0]), actions[1..]) + if StartsGrowth(s, actions[0]) then 1 else 0
  }

  /** How many threads the growing loop may still create. */
  ghost function StillToCreate(pc: AdjustPc): int {
    if pc.MGrow? then 10 - pc.added else 0
  }

  lemma WorkerKeepsPool(s: State, i: nat, a: WorkerAction)
    requires WorkerEnabled(s, i, a)
    ensures var t := WorkerStep(s, i, a);
            t.manager == s.manager && |t.workers| == |s.workers| && t.waitExit <= s.waitExit
  {
    hide Take, WakeAdders;
  }

  lemma AdderKeepsPool(s: State, j: nat, a: AddAction)
    requires AdderEnabled(s, j, a)
    ensures var t := AdderStep(s, j, a);
            t.manager == s.manager && |t.workers| == |s.workers| && t.waitExit == s.waitExit
  {
    hide Put, WakeWorkers, WakeOne, Signals;
  }

  /** Only the manager creates threads. */
  lemma OthersKeepPool(s: State, a: Action)
    requires Enabled(s, a) && !a.OfManager?
    ensures var t := Apply(s, a);
            t.manager == s.manager && |t.workers| == |s.workers| && t.waitExit <= s.waitExit
  {
    hide WorkerStep, AdderStep, WorkerEnabled, AdderEnabled, WakeWorkers;
    match a
    case OfWorker(i, w) => WorkerKeepsPool(s, i, w);
    case OfAdder(j, d) => AdderKeepsPool(s, j, d);
    case SetShutdown =>
    case DestroyBroadcast =>
  }

  lemma ManagerGrowth(s: State, a: AdjustAction)
    requires ManagerEnabled(s, a) && StillToCreate(s.manager) >= 0
    ensures var t := ManagerStep(s, a);
            && StillToCreate(t.manager) >= 0
            && |t.workers| + StillToCreate(t.manager)
               <= |s.workers| + StillToCreate(s.manager) + if StartsGrowth(s, OfManager(a)) then 10 else 0
  {
    hide WakeOne, Signals;
  }

  lemma GrowthStep(s: State, a: Action)
    requires Enabled(s, a) && StillToCreate(s.manager) >= 0
    ensures var t := Apply(s, a);
            && StillToCreate(t.manager) >= 0
            && |t.workers| + StillToCreate(t.manager)
               <= |s.workers| + StillToCreate(s.manager) + if StartsGrowth(s, a) then 10 else 0
  {
    if a.OfManager? {
      ManagerGrowth(s, a.manager);
    } else {
      hide WorkerStep, AdderStep, ManagerStep, WorkerEnabled, AdderEnabled, ManagerEnabled;
      OthersKeepPool(s, a);
    }
  }

  lemma {:induction false} GrowthFrom(s: State, actions: seq<Action>, t: State)
    requires Run(Step, s, actions, t) && StillToCreate(s.manager) >= 0
    ensures |t.workers| <= |s.workers| + StillToCreate(s.manager) + 10 * Growths(s, actions)
    ensures StillToCreate(t.manager) >= 0
    decreases |actions|
  {
    hide Enabled, Apply, StartsGrowth;
    if actions != [] {
      GrowthStep(s, actions[0]);
      GrowthFrom(Apply(s, actions[0]), actions[1..], t);
    }
  }

  /** Over any run from the start of the pool: no more threads are ever created than the minimum and
      ten for each time the manager has found reason to grow. */
  lemma TenPerGrowth(s: State, actions: seq<Action>, t: State)
    requires Created(s) && Run(Step, s, actions, t)
    ensures |t.workers| <= s.minThreads + 10 * Growths(s, actions)
  {
    hide Run;
    GrowthFrom(s, actions, t);
  }

  // ---------------------------------------------------------------- one growing loop

  /** One turn of the loop: it ends at the last slot, after ten new threads, or at the maximum; else it
      fills the slot it looks at exactly when nobody's tid is there or its thread is gone. */
  lemma GrowTurn(s: State, dead: bool)
    requires ManagerEnabled(s, Grow(dead))
    ensures var t, i := ManagerStep(s, Grow(dead)), s.manager.i;
            && (!t.manager.MGrow? <==> i >= s.maxThreads || s.manager.added >= 10 || s.live >= s.maxThreads)
            && (t.manager.MGrow? ==>
                  t.manager.i == i + 1
                  && (|t.workers| == |s.workers| + 1 <==> s.threads[i] == None || dead)
                  && (|t.workers| == |s.workers| + 1 ==> t.threads == s.threads[i := Some(|s.workers|)]))
            && t.live - s.live == |t.workers| - |s.workers| && 0 <= t.live - s.live <= 1
  {
  }

  /** The manager does nothing but turns of its growing loop; the other threads do what they like. */
  ghost predicate OnlyGrows(actions: seq<Action>) {
    forall k | 0 <= k < |actions| && actions[k].OfManager? :: actions[k].manager.Grow?
  }

  /** Where the loop that began in `s` has got to. */
  ghost predicate Growing(s: State, t: State) {
    && t.manager.MGrow? && t.manager.i <= t.maxThreads == s.maxThreads == |t.threads| && t.manager.added <= 10
    && t.live == s.live + t.manager.added && |t.workers| == |s.workers| + t.manager.added
    && (forall k | 0 <= k < t.manager.i :: t.threads[k].Some?)
  }

  /** While the manager owns the lock the other threads leave counters and table alone. */
  lemma WorkerOutside(t: State, i: nat, a: WorkerAction)
    requires Exclusive(t) && t.lock == Manager && WorkerEnabled(t, i, a)
    ensures var u := WorkerStep(t, i, a);
            u.live == t.live && u.threads == t.threads && u.maxThreads == t.maxThreads
  {
    assert !WorkerHolds(t.workers[i]);
    hide Exclusive, Take, WakeAdders;
  }

  lemma AdderOutside(t: State, j: nat, a: AddAction)
    requires AdderEnabled(t, j, a)
    ensures var u := AdderStep(t, j, a);
            u.live == t.live && u.threads == t.threads && u.maxThreads == t.maxThreads
  {
    hide Put, WakeWorkers, WakeOne, Signals;
  }

  lemma GrowingOthers(s: State, t: State, a: Action)
    requires Exclusive(t) && Growing(s, t) && Enabled(t, a) && !a.OfManager?
    ensures Growing(s, Apply(t, a))
  {
    OthersKeepPool(t, a);
    assert t.lock == Manager;
    hide Exclusive, WorkerStep, AdderStep, WorkerEnabled, AdderEnabled, WakeWorkers;
    match a
    case OfWorker(i, w) => WorkerOutside(t, i, w);
    case OfAdder(j, d) => AdderOutside(t, j, d);
    case SetShutdown =>
    case DestroyBroadcast =>
  }

  lemma GrowingManager(s: State, t: State, dead: bool)
    requires Growing(s, t) && ManagerEnabled(t, Grow(dead))
    ensures Growing(s, ManagerStep(t, Grow(dead))) || !ManagerStep(t, Grow(dead)).manager.MGrow?
  {
  }

  lemma GrowsNoMore(s: State, a: Action)
    requires Enabled(s, a) && !s.manager.MGrow? && (a.OfManager? ==> a.manager.Grow?)
    ensures !Apply(s, a).manager.MGrow?
  {
    hide WorkerStep, AdderStep, WorkerEnabled, AdderEnabled;
    if !a.OfManager? { OthersKeepPool(s, a); }
  }

  lemma {:induction false} GrowingRun(s: State, u: State, actions: seq<Action>, t: State)
    requires Run(Step, u, actions, t) && OnlyGrows(actions) && Exclusive(u) && t.manager.MGrow?
    requires Growing(s, u) || !u.manager.MGrow?
    ensures Growing(s, t)
    decreases |actions|
  {
    hide Enabled, Apply, Growing, Exclusive;
    if actions != [] {
      var a := actions[0];
      ExclusiveStep(u, a);
      assert forall k | 0 <= k < |actions| - 1 :: actions[1..][k] == actions[k + 1];
      GrowingStep(s, u, a);
      GrowingRun(s, Apply(u, a), actions[1..], t);
    }
  }

  lemma GrowingStep(s: State, u: State, a: Action)
    requires Exclusive(u) && Enabled(u, a) && (a.OfManager? ==> a.manager.Grow?)
    requires Growing(s, u) || !u.manager.MGrow?
    ensures Growing(s, Apply(u, a)) || !Apply(u, a).manager.MGrow?
  {
    hide Exclusive, Growing, WorkerStep, AdderStep, ManagerStep, WorkerEnabled, AdderEnabled, ManagerEnabled;
    if !u.manager.MGrow? {
      GrowsNoMore(u, a);
    } else if a.OfManager? {
      GrowingManager(s, u, a.manager.dead);
    } else {
      GrowingOthers(s, u, a);
    }
  }

  /** The whole loop, whatever the other threads do in between: when it ends it has added the threads it
      counted, at most ten; and if fewer, the pool is at its maximum or no slot was left free. */
  lemma GrowthComplete(s: State, actions: seq<Action>, t: State, dead: bool)
    requires Reachable(s) && s.manager.MGrow? && s.manager.i == 0 && s.manager.added == 0
    requires Run(Step, s, actions, t) && OnlyGrows(actions) && ManagerEnabled(t, Grow(dead))
    requires !ManagerStep(t, Grow(dead)).manager.MGrow?
    ensures var n := t.live - s.live;
            && |t.workers| == |s.workers| + n && 0 <= n <= 10
            && (n == 10 || t.live == t.maxThreads
                || (|t.threads| == t.maxThreads && forall k | 0 <= k < t.maxThreads :: t.threads[k].Some?))
  {
    hide Run, Reachable, Fifo, Guarded, Conserved, Attended, Exclusive;
    ReachableInvariant(s);
    GrowingRun(s, s, actions, t);
    GrowTurn(t, dead);
    SizedLater(s, actions, t);
  }

  lemma SizedLater(s: State, actions: seq<Action>, t: State)
    requires Reachable(s) && Run(Step, s, actions, t)
    ensures t.live <= t.maxThreads
  {
    var r, before :| Created(r) && Run(Step, r, before, s);
    RunAppend(Step, r, before, s, actions, t);
    assert Reachable(t);
    hide Run, Reachable;
    PoolIsSized(t);
  }

  // ---------------------------------------------------------------- after a shutdown

  lemma IdleManager(s: State, a: AdjustAction)
    requires s.shutdown && s.manager in {MTop, MGone} && ManagerEnabled(s, a)
    ensures ManagerStep(s, a) == s.(manager := MGone)
  {
    hide WakeOne, Signals;
  }

  lemma IdleStep(s: State, a: Action)
    requires s.shutdown && s.manager in {MTop, MGone} && Enabled(s, a)
    ensures var t := Apply(s, a);
            t.shutdown && t.manager in {MTop, MGone} && |t.workers| == |s.workers| && t.waitExit <= s.waitExit
  {
    hide WorkerStep, AdderStep, ManagerStep, WorkerEnabled, AdderEnabled, ManagerEnabled;
    ShutdownStays(s, a);
    if a.OfManager? {
      IdleManager(s, a.manager);
    } else {
      OthersKeepPool(s, a);
    }
  }

  /** Once shutdown is set and the manager has finished its pass: it starts no other, so no thread is
      created and no shrink requested any more. */
  lemma {:induction false} ManagerLeaves(s: State, actions: seq<Action>, t: State)
    requires s.shutdown && s.manager in {MTop, MGone} && Run(Step, s, actions, t)
    ensures t.manager in {MTop, MGone} && |t.workers| == |s.workers| && t.waitExit <= s.waitExit
    decreases |actions|
  {
    hide Enabled, Apply;
    if actions != [] {
      IdleStep(s, actions[0]);
      ManagerLeaves(Apply(s, actions[0]), actions[1..], t);
    }
  }
}
