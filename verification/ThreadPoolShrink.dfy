/** What a shrink request and a shutdown do to the thread pool over a whole run: how many threads a
    request can remove, and how little is still done after a shutdown. */
module ThreadPoolShrink {
  import opened Runs
  import opened Sequences
  import opened TaskRing
  import opened ThreadPool
  import opened ThreadPoolSafety

  // ---------------------------------------------------------------- shrink requests

  /** How many shrink requests the manager has made. */
  ghost function Requests(actions: seq<Action>): nat {
    if actions == [] then 0
    else Requests(actions[..|actions| - 1]) + if actions[|actions| - 1] == OfManager(Shrink) then 1 else 0
  }

  /** The action is a worker's test of wait_exit_thread_num, and it finds a unit. */
  ghost predicate FindsUnit(s: State, a: Action) {
    a.OfWorker? && a.worker == ShrinkTest && s.waitExit > 0
  }

  /** How many tests of the run have found a unit since the last shrink request; `n` before it. */
  ghost function Found(s: State, actions: seq<Action>, n: nat): nat
    decreases |actions|
  {
    if actions == [] || !Enabled(s, actions[0]) then n
    else
      Found(Apply(s, actions[0]), actions[1..],
            if actions[0] == OfManager(Shrink) then 0 else if FindsUnit(s, actions[0]) then n + 1 else n)
  }

  ghost predicate Shrunk(pc: WorkerPc) {
    pc.WGone? && pc.shrunk
  }

  /** What one step does to the counter: a request sets it, a test that finds a unit takes one. */
  lemma UnitStep(s: State, a: Action)
    requires Enabled(s, a)
    ensures Apply(s, a).waitExit == if a == OfManager(Shrink) then 10
                                    else if FindsUnit(s, a) then s.waitExit - 1 else s.waitExit
  {
    hide Take, Put, WakeAdders, WakeWorkers, WakeOne;
  }

  /** Over any run from the start of the pool: wait_exit_thread_num is 0 before the first request, and
      then ten less the tests that have found it positive since the last one. */
  lemma ShrinkUnits(s: State, actions: seq<Action>, t: State)
    requires Created(s) && Run(Step, s, actions, t)
    ensures t.waitExit == if Requests(actions) == 0 then 0 else 10 - Found(s, actions, 0)
  {
    hide Run, Created, Found;
    assert s.waitExit == 0 by { CreatedUnits(s); }
    UnitsFrom(s, actions, t, false, 0);
  }

  lemma CreatedUnits(s: State)
    requires Created(s)
    ensures s.waitExit == 0 && Count(s.workers, Shrunk) == 0
  {
    CountAll(s.workers, Shrunk, false);
  }

  lemma {:induction false} RequestsHead(actions: seq<Action>)
    requires actions != []
    ensures Requests(actions) == Requests(actions[1..]) + if actions[0] == OfManager(Shrink) then 1 else 0
    decreases |actions|
  {
    if |actions| == 1 {
      assert actions[..0] == [] && actions[1..] == [];
    } else {
      var init := actions[..|actions| - 1];
      RequestsHead(init);
      assert init[1..] == actions[1..][..|actions| - 2] && init[0] == actions[0];
    }
  }

  lemma {:induction false} UnitsFrom(s: State, actions: seq<Action>, t: State, requested: bool, n: nat)
    requires Run(Step, s, actions, t) && s.waitExit == (if requested then 10 - n else 0)
    ensures t.waitExit == if requested || Requests(actions) > 0 then 10 - Found(s, actions, n) else 0
    decreases |actions|
  {
    hide Enabled, Apply;
    if actions != [] {
      var a := actions[0];
      UnitStep(s, a);
      RequestsHead(actions);
      var m := if a == OfManager(Shrink) then 0 else if FindsUnit(s, a) then n + 1 else n;
      UnitsFrom(Apply(s, a), actions[1..], t, requested || a == OfManager(Shrink), m);
    }
  }

  /** Threads that have taken the shrink exit and units left are covered by the requests made. */
  ghost predicate Covered(s: State, requests: nat) {
    Count(s.workers, Shrunk) + s.waitExit <= 10 * requests && s.waitExit >= 0
  }

  lemma CoveredWorker(s: State, i: nat, a: WorkerAction, requests: nat)
    requires Covered(s, requests) && WorkerEnabled(s, i, a)
    ensures Covered(WorkerStep(s, i, a), requests)
  {
    WorkerShrinks(s, i, a);
    hide Count, WorkerStep, WorkerEnabled, Shrunk;
    CountUpdate(s.workers, i, WorkerStep(s, i, a).workers[i], Shrunk);
  }

  /** A worker takes the shrink exit only with a unit. */
  lemma WorkerShrinks(s: State, i: nat, a: WorkerAction)
    requires WorkerEnabled(s, i, a)
    ensures var t := WorkerStep(s, i, a);
            && i < |s.workers| == |t.workers| && t.workers == s.workers[i := t.workers[i]]
            && t.waitExit <= s.waitExit && (t.waitExit == s.waitExit || 0 <= t.waitExit)
            && (Shrunk(s.workers[i]) ==> Shrunk(t.workers[i]) && t.waitExit == s.waitExit)
            && (Shrunk(t.workers[i]) && !Shrunk(s.workers[i]) ==> t.waitExit == s.waitExit - 1)
  {
    hide WakeAdders, Take;
  }

  lemma WakesKeepShrunk(ws: seq<WorkerPc>, vs: seq<WorkerPc>)
    requires OnlyWakes(ws, vs)
    ensures Count(ws, Shrunk) == Count(vs, Shrunk)
  {
    CountSame(ws, vs, Shrunk);
  }

  lemma CoveredStep(s: State, a: Action, requests: nat)
    requires Covered(s, requests) && Enabled(s, a)
    ensures Covered(Apply(s, a), requests + if a == OfManager(Shrink) then 1 else 0)
  {
    hide WorkerStep, AdderStep, ManagerStep, WorkerEnabled, AdderEnabled, ManagerEnabled, Count;
    UnitStep(s, a);
    match a
    case OfWorker(i, w) => CoveredWorker(s, i, w, requests);
    case OfAdder(j, d) =>
      AdderWakes(s, j, d);
      WakesKeepShrunk(s.workers, AdderStep(s, j, d).workers);
    case OfManager(m) =>
      ManagerWakes(s, m);
      if |ManagerStep(s, m).workers| == |s.workers| {
        WakesKeepShrunk(s.workers, ManagerStep(s, m).workers);
      } else {
        assert Count(ManagerStep(s, m).workers, Shrunk) == Count(s.workers, Shrunk) by {
          CountGrow(s.workers, WLock, Shrunk);
        }
      }
    case SetShutdown =>
    case DestroyBroadcast => WakesKeepShrunk(s.workers, WakeWorkers(s.workers));
  }

  lemma {:induction false} CoveredFrom(s: State, actions: seq<Action>, t: State, requests: nat)
    requires Covered(s, requests) && Run(Step, s, actions, t)
    ensures Covered(t, requests + Requests(actions))
    decreases |actions|
  {
    hide Enabled, Apply, Covered;
    if actions != [] {
      var a := actions[0];
      CoveredStep(s, a, requests);
      RequestsHead(actions);
      CoveredFrom(Apply(s, a), actions[1..], t, requests + if a == OfManager(Shrink) then 1 else 0);
    }
  }

  /** Over any run: at most ten threads have taken the shrink exit for each request made, and never so
      many that fewer than the minimum are left. */
  lemma TenPerRequest(s: State, actions: seq<Action>, t: State)
    requires Created(s) && Run(Step, s, actions, t)
    ensures Count(t.workers, Shrunk) <= 10 * Requests(actions)
    ensures t.minThreads <= Count(t.workers, Member)
  {
    hide Run, Created, Invariant;
    CreatedUnits(s);
    CoveredFrom(s, actions, t, 0);
    assert Reachable(t);
    PoolIsSized(t);
  }

  // ---------------------------------------------------------------- what the manager decides

  /** The manager leaves when it finds shutdown at the top of its loop, and otherwise goes on from what
      it reads: the queue length and live count of one critical section, then the busy count.  It grows
      the pool exactly when at least ten tasks are queued and it is not at its maximum, and after that
      asks for a shrink exactly when fewer threads are busy than idle and the pool is above its minimum. */
  lemma ManagerDecides(s: State, a: AdjustAction)
    requires ManagerEnabled(s, a)
    ensures var t := ManagerStep(s, a);
            && (a == Top ==> t.manager in {MRead, MGone} && (t.manager == MGone <==> s.shutdown))
            && (a == Read ==> t.manager == MReadBusy(s.ring.size, s.live))
            && (a == ReadBusy ==> t.manager == MDecide(s.manager.queued, s.manager.live, s.busy))
            && (a == Decide ==> (t.manager.MGrow? <==> s.manager.queued >= 10 && s.manager.live < s.maxThreads)
                                && (!t.manager.MGrow? ==> t.manager == MShrinkTest(s.manager.live, s.manager.busy)))
            && (a == ShrinkDecide ==>
                  (t.manager == MShrink
                   <==> s.manager.busy < s.manager.live - s.manager.busy && s.manager.live > s.minThreads))
  {
    hide Signals, WakeOne;
  }

  // ---------------------------------------------------------------- after a shutdown

  /** The worker has passed its last test of shutdown and is about to take a task. */
  ghost predicate Taking(pc: WorkerPc) {
    pc == WTake
  }

  ghost predicate Putting(pc: AddPc) {
    pc.APut?
  }

  ghost predicate Asleep(pc: WorkerPc) {
    pc.WAsleep?
  }

  ghost predicate Waiting(pc: AddPc) {
    pc.AAsleep?
  }

  /** What is done or already decided: tasks delivered and about to be, tasks accepted and about to be;
      and how many threads wait. */
  ghost predicate NoMore(s: State, t: State) {
    && |t.delivered| + Count(t.workers, Taking) <= |s.delivered| + Count(s.workers, Taking)
    && |t.accepted| + Count(t.adders, Putting) <= |s.accepted| + Count(s.adders, Putting)
    && Count(t.workers, Asleep) <= Count(s.workers, Asleep)
    && Count(t.adders, Waiting) <= Count(s.adders, Waiting)
  }

  lemma WorkerAfterShutdown(s: State, i: nat, a: WorkerAction)
    requires s.shutdown && WorkerEnabled(s, i, a)
    ensures var t := WorkerStep(s, i, a);
            && i < |s.workers| == |t.workers| && t.workers == s.workers[i := t.workers[i]]
            && t.accepted == s.accepted && (t.adders == s.adders || t.adders == WakeAdders(s.adders))
            && (Taking(t.workers[i]) ==> Taking(s.workers[i]) && |t.delivered| == |s.delivered|)
            && (Asleep(t.workers[i]) ==> Asleep(s.workers[i]))
            && (|t.delivered| == |s.delivered|
                || (|t.delivered| == |s.delivered| + 1 && Taking(s.workers[i]) && !Taking(t.workers[i])))
  {
    hide WakeAdders, Take;
  }

  lemma AdderAfterShutdown(s: State, j: nat, a: AddAction)
    requires s.shutdown && AdderEnabled(s, j, a)
    ensures var t := AdderStep(s, j, a);
            && j < |s.adders| == |t.adders| && t.adders == s.adders[j := t.adders[j]]
            && t.delivered == s.delivered && OnlyWakes(s.workers, t.workers)
            && (Putting(t.adders[j]) ==> Putting(s.adders[j]) && |t.accepted| == |s.accepted|)
            && (Waiting(t.adders[j]) ==> Waiting(s.adders[j]))
            && (|t.accepted| == |s.accepted|
                || (|t.accepted| == |s.accepted| + 1 && Putting(s.adders[j]) && !Putting(t.adders[j])))
  {
    hide Put;
  }

  lemma WakesLess(ws: seq<WorkerPc>, vs: seq<WorkerPc>)
    requires OnlyWakes(ws, vs)
    ensures Count(vs, Taking) == Count(ws, Taking) && Count(vs, Asleep) <= Count(ws, Asleep)
  {
    CountSame(ws, vs, Taking);
    CountBelow(ws, vs, Asleep);
  }

  lemma AddersLess(ps: seq<AddPc>)
    ensures Count(WakeAdders(ps), Putting) == Count(ps, Putting)
    ensures Count(WakeAdders(ps), Waiting) <= Count(ps, Waiting)
  {
    CountSame(ps, WakeAdders(ps), Putting);
    CountBelow(ps, WakeAdders(ps), Waiting);
  }

  lemma NoMoreWorker(s: State, i: nat, a: WorkerAction)
    requires s.shutdown && WorkerEnabled(s, i, a)
    ensures NoMore(s, WorkerStep(s, i, a))
  {
    WorkerAfterShutdown(s, i, a);
    AddersLess(s.adders);
    hide Count, WorkerStep, WorkerEnabled, Taking, Asleep, WakeAdders;
    var t := WorkerStep(s, i, a);
    CountUpdate(s.workers, i, t.workers[i], Taking);
    CountUpdate(s.workers, i, t.workers[i], Asleep);
  }

  lemma NoMoreAdder(s: State, j: nat, a: AddAction)
    requires s.shutdown && AdderEnabled(s, j, a)
    ensures NoMore(s, AdderStep(s, j, a))
  {
    AdderAfterShutdown(s, j, a);
    hide Count, AdderStep, AdderEnabled, Putting, Waiting;
    var t := AdderStep(s, j, a);
    WakesLess(s.workers, t.workers);
    CountUpdate(s.adders, j, t.adders[j], Putting);
    CountUpdate(s.adders, j, t.adders[j], Waiting);
  }

  lemma NoMoreManager(s: State, a: AdjustAction)
    requires s.shutdown && ManagerEnabled(s, a)
    ensures NoMore(s, ManagerStep(s, a))
  {
    ManagerWakes(s, a);
    ManagerAddsNothing(s, a);
    hide Count, ManagerStep, ManagerEnabled;
    var t := ManagerStep(s, a);
    if |t.workers| == |s.workers| {
      WakesLess(s.workers, t.workers);
    } else {
      CountGrow(s.workers, WLock, Taking);
      CountGrow(s.workers, WLock, Asleep);
    }
  }

  lemma ManagerAddsNothing(s: State, a: AdjustAction)
    requires ManagerEnabled(s, a)
    ensures ManagerStep(s, a).accepted == s.accepted && ManagerStep(s, a).adders == s.adders
  {
  }

  lemma NoMoreStep(s: State, a: Action)
    requires s.shutdown && Enabled(s, a)
    ensures NoMore(s, Apply(s, a)) && Apply(s, a).shutdown
  {
    ShutdownStays(s, a);
    hide WorkerStep, AdderStep, ManagerStep, WorkerEnabled, AdderEnabled, ManagerEnabled, NoMore;
    match a
    case OfWorker(i, w) => NoMoreWorker(s, i, w);
    case OfAdder(j, d) => NoMoreAdder(s, j, d);
    case OfManager(m) => NoMoreManager(s, m);
    case SetShutdown => assert NoMore(s, s) by { NoMoreSelf(s); }
    case DestroyBroadcast => assert NoMore(s, Apply(s, a)) by { NoMoreWoken(s); }
  }

  lemma NoMoreSelf(s: State)
    ensures NoMore(s, s.(shutdown := true)) && NoMore(s, s)
  {
  }

  lemma NoMoreWoken(s: State)
    ensures NoMore(s, s.(workers := WakeWorkers(s.workers)))
  {
    WakesLess(s.workers, WakeWorkers(s.workers));
  }

  lemma {:induction false} NoMoreRun(s: State, actions: seq<Action>, t: State)
    requires s.shutdown && Run(Step, s, actions, t)
    ensures NoMore(s, t)
    decreases |actions|
  {
    if actions == [] {
      NoMoreSelf(s);
    } else {
      hide Enabled, Apply, Count;
      NoMoreStep(s, actions[0]);
      NoMoreRun(Apply(s, actions[0]), actions[1..], t);
    }
  }

  lemma TakersHoldLock(s: State)
    requires Exclusive(s)
    ensures Count(s.workers, Taking) <= 1 && Count(s.adders, Putting) <= 1
  {
    CountOne(s.workers, Taking);
    CountOne(s.adders, Putting);
  }

  /** Once shutdown is set: whatever happens after it, at most one more task is delivered and at most
      one more accepted, both already past their last test, and no thread falls asleep. */
  lemma ShutdownStops(s: State, actions: seq<Action>, t: State)
    requires Reachable(s) && s.shutdown && Run(Step, s, actions, t)
    ensures |t.delivered| <= |s.delivered| + 1 && |t.accepted| <= |s.accepted| + 1
    ensures Count(t.workers, Asleep) <= Count(s.workers, Asleep) && Count(t.adders, Waiting) <= Count(s.adders, Waiting)
  {
    hide Run, Reachable, Fifo, Guarded, Sized, Conserved, Tabled, Leaving, Attended, Count;
    ReachableInvariant(s);
    TakersHoldLock(s);
    NoMoreRun(s, actions, t);
  }

  /** Everybody who waits for a task is woken: threadpool_destroy broadcasts, and so does a call of
      threadpool_add that finds the pool shut down. */
  ghost predicate Broadcasts(s: State, a: Action) {
    a == DestroyBroadcast || (s.shutdown && a.OfAdder? && a.adder == AddShutTest)
  }

  lemma BroadcastStep(s: State, a: Action)
    requires s.shutdown && Enabled(s, a) && Broadcasts(s, a)
    ensures forall i | 0 <= i < |Apply(s, a).workers| :: Apply(s, a).workers[i] != WAsleep
  {
  }

  /** After one broadcast in a pool that is shut down no worker is ever asleep again, whatever happens:
      every worker still there can go on to its exit. */
  lemma NoneAsleep(s: State, a: Action, actions: seq<Action>, t: State)
    requires s.shutdown && Enabled(s, a) && Broadcasts(s, a) && Run(Step, Apply(s, a), actions, t)
    ensures forall i | 0 <= i < |t.workers| :: t.workers[i] != WAsleep
  {
    hide Run, Apply, Enabled, Count, Broadcasts;
    BroadcastStep(s, a);
    ShutdownStays(s, a);
    CountAll(Apply(s, a).workers, Asleep, false);
    NoMoreRun(Apply(s, a), actions, t);
    forall i | 0 <= i < |t.workers| ensures t.workers[i] != WAsleep {
      CountUpdate(t.workers, i, t.workers[i], Asleep);
    }
  }
}
