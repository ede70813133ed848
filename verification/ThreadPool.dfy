/** The condition-variable thread pool as a transition system.  One step is one access to shared
    state; everything between pthread_mutex_lock and the matching unlock happens with `lock` held.
    Any number of producers call threadpool_add, the workers run threadpool_thread, one manager
    runs threadpool_adjust, and `shutdown` may be set at any moment, without the lock.

    `Test` and `AddTest` join the reads of queue_size and shutdown and the start of the wait.  No state
    is lost by that.  The lock is held throughout, so queue_size is the same; of what can happen in
    between without the lock, a signal of the manager finds the thread awake and may as well come
    before the test, and setting shutdown may as well come after the wait has begun.  A broadcast
    between the two misses the thread; the model reaches the same state without that broadcast, by
    waking each of the other threads spuriously. */
module ThreadPool {
  import opened Options
  import opened Runs
  import opened TaskRing

  const MIN_WAIT_TASK_NUM := 10
  const DEFAULT_THREAD_VARY := 10

  datatype Task = Task(routine: int, arg: int)

  /** Where a worker is in threadpool_thread. */
  datatype WorkerPc =
    | WLock                 // about to lock, at the top of the loop
    | WTest                 // lock held, at the test of the inner while
    | WAsleep               // in pthread_cond_wait(queue_not_empty)
    | WRelock               // woken, waiting for the lock inside pthread_cond_wait
    | WShrinkTest           // lock held, at "wait_exit_thread_num > 0"
    | WShutTest             // lock held, at "shutdown == true"
    | WTake                 // lock held, about to take a task
    | WStart(task: Task)    // unlocked, about to count itself busy
    | WRun(task: Task)      // counted busy, running the task
    | WGone(shrunk: bool, ended: bool)  // left the pool; `ended` once the thread has terminated

  /** Where a caller is in threadpool_add. */
  datatype AddPc =
    | AIdle
    | ALock(task: Task)
    | ATest(task: Task)
    | AAsleep(task: Task)
    | ARelock(task: Task)
    | AShutTest(task: Task)
    | APut(task: Task)

  /** Where the manager is in threadpool_adjust, with the locals it carries. */
  datatype AdjustPc =
    | MTop
    | MRead
    | MReadBusy(queued: nat, live: int)
    | MDecide(queued: nat, live: int, busy: int)
    | MGrow(i: nat, added: nat, live: int, busy: int)
    | MShrinkTest(live: int, busy: int)
    | MShrink
    | MSignal(left: nat)
    | MGone

  datatype Owner = Free | Worker(w: nat) | Adder(p: nat) | Manager

  datatype State = State(
    lock: Owner,
    ring: Ring<Task>,
    workers: seq<WorkerPc>,
    adders: seq<AddPc>,
    manager: AdjustPc,
    threads: seq<Option<nat>>,  // the slots of pool->threads: the worker whose tid is stored
    minThreads: nat,
    maxThreads: nat,
    live: int,
    busy: int,
    waitExit: int,
    shutdown: bool,
    accepted: seq<Task>,      // history: tasks put into the ring, in order
    delivered: seq<Task>,     // history: tasks taken by workers, in order
    finished: multiset<Task>, // history: tasks whose routine has returned
    shrinks: bool)            // history: the manager has requested a shrink

  /** The steps of threadpool_thread, by the point they leave. */
  datatype WorkerAction =
    | Lock
    | Test
    | Spurious
    | Relock
    | ShrinkTest
    | ShutTest
    | TakeTask
    | Start
    | Finish
    | End

  /** The steps of threadpool_add. */
  datatype AddAction =
    | Call(task: Task)
    | AddLock
    | AddTest
    | AddSpurious
    | AddRelock
    | AddShutTest
    | AddPut(woken: Option<nat>)

  /** The steps of threadpool_adjust.  `dead` is the answer of is_thread_alive for the slot the
      growing loop looks at, `woken` the worker a signal wakes. */
  datatype AdjustAction =
    | Top
    | Read
    | ReadBusy
    | Decide
    | Grow(dead: bool)
    | ShrinkDecide
    | Shrink
    | Signal(woken: Option<nat>)

  datatype Action =
    | OfWorker(i: nat, worker: WorkerAction)
    | OfAdder(j: nat, adder: AddAction)
    | OfManager(manager: AdjustAction)
    | SetShutdown
    | DestroyBroadcast

  // ---------------------------------------------------------------- wait sets

  /** pthread_cond_broadcast(queue_not_empty) */
  ghost function WakeWorkers(ws: seq<WorkerPc>): (r: seq<WorkerPc>)
    ensures |r| == |ws|
  {
    seq(|ws|, k requires 0 <= k < |ws| => if ws[k].WAsleep? then WRelock else ws[k])
  }

  /** pthread_cond_broadcast(queue_not_full) */
  ghost function WakeAdders(ps: seq<AddPc>): (r: seq<AddPc>)
    ensures |r| == |ps|
  {
    seq(|ps|, k requires 0 <= k < |ps| => if ps[k].AAsleep? then ARelock(ps[k].task) else ps[k])
  }

  /** pthread_cond_signal(queue_not_empty) wakes a sleeping worker when there is one. */
  ghost predicate Signals(ws: seq<WorkerPc>, woken: Option<nat>) {
    match woken
    case Some(i) => i < |ws| && ws[i] == WAsleep
    case None => forall i | 0 <= i < |ws| :: ws[i] != WAsleep
  }

  ghost function WakeOne(ws: seq<WorkerPc>, woken: Option<nat>): (r: seq<WorkerPc>)
    requires Signals(ws, woken)
    ensures |r| == |ws|
  {
    if woken.Some? then ws[woken.value := WRelock] else ws
  }

  // ---------------------------------------------------------------- workers

  ghost predicate WorkerEnabled(s: State, i: nat, a: WorkerAction) {
    && i < |s.workers|
    && var pc := s.workers[i];
      match a
      case Lock => pc == WLock && s.lock == Free
      case Test => pc == WTest
      case Spurious => pc == WAsleep
      case Relock => pc == WRelock && s.lock == Free
      case ShrinkTest => pc == WShrinkTest
      case ShutTest => pc == WShutTest
      case TakeTask => pc == WTake && s.ring.front < |s.ring.slots| && s.ring.size > 0
      case Start => pc.WStart?
      case Finish => pc.WRun?
      case End => pc.WGone?
  }

  ghost function SetWorker(s: State, i: nat, pc: WorkerPc): State
    requires i < |s.workers|
  {
    s.(workers := s.workers[i := pc])
  }

  ghost function WorkerStep(s: State, i: nat, a: WorkerAction): State
    requires WorkerEnabled(s, i, a)
  {
    match a
    case Lock => SetWorker(s, i, WTest).(lock := Worker(i))
    case Test =>
      if s.ring.size == 0 && !s.shutdown then SetWorker(s, i, WAsleep).(lock := Free)
      else SetWorker(s, i, WShutTest)
    case Spurious => SetWorker(s, i, WRelock)
    case Relock => SetWorker(s, i, WShrinkTest).(lock := Worker(i))
    case ShrinkTest =>
      if s.waitExit > 0 && s.live > s.minThreads then
        SetWorker(s, i, WGone(true, false)).(waitExit := s.waitExit - 1, live := s.live - 1, lock := Free)
      else
        SetWorker(s, i, WTest).(waitExit := if s.waitExit > 0 then s.waitExit - 1 else s.waitExit)
    case ShutTest =>
      if s.shutdown then SetWorker(s, i, WGone(false, false)).(lock := Free)
      else SetWorker(s, i, WTake)
    case TakeTask =>
      var (t, r) := Take(s.ring);
      SetWorker(s, i, WStart(t)).(ring := r, adders := WakeAdders(s.adders), lock := Free,
                                  delivered := s.delivered + [t])
    case Start => SetWorker(s, i, WRun(s.workers[i].task)).(busy := s.busy + 1)
    case Finish =>
      SetWorker(s, i, WLock).(busy := s.busy - 1, finished := s.finished + multiset{s.workers[i].task})
    case End => SetWorker(s, i, WGone(s.workers[i].shrunk, true))
  }

  // ---------------------------------------------------------------- producers

  ghost predicate AdderEnabled(s: State, j: nat, a: AddAction) {
    && j < |s.adders|
    && var pc := s.adders[j];
      match a
      case Call(t) => pc.AIdle?
      case AddLock => pc.ALock? && s.lock == Free
      case AddTest => pc.ATest?
      case AddSpurious => pc.AAsleep?
      case AddRelock => pc.ARelock? && s.lock == Free
      case AddShutTest => pc.AShutTest?
      case AddPut(woken) => pc.APut? && s.ring.rear < |s.ring.slots| && Signals(s.workers, woken)
  }

  ghost function SetAdder(s: State, j: nat, pc: AddPc): State
    requires j < |s.adders|
  {
    s.(adders := s.adders[j := pc])
  }

  ghost function AdderStep(s: State, j: nat, a: AddAction): State
    requires AdderEnabled(s, j, a)
  {
    match a
    case Call(t) => SetAdder(s, j, ALock(t))
    case AddLock => SetAdder(s, j, ATest(s.adders[j].task)).(lock := Adder(j))
    case AddTest =>
      if s.ring.size == |s.ring.slots| && !s.shutdown then SetAdder(s, j, AAsleep(s.adders[j].task)).(lock := Free)
      else SetAdder(s, j, AShutTest(s.adders[j].task))
    case AddSpurious => SetAdder(s, j, ARelock(s.adders[j].task))
    case AddRelock => SetAdder(s, j, ATest(s.adders[j].task)).(lock := Adder(j))
    case AddShutTest =>
      if s.shutdown then SetAdder(s, j, AIdle).(workers := WakeWorkers(s.workers), lock := Free)
      else SetAdder(s, j, APut(s.adders[j].task))
    case AddPut(woken) =>
      var t := s.adders[j].task;
      SetAdder(s, j, AIdle).(ring := Put(s.ring, t), workers := WakeOne(s.workers, woken), lock := Free,
                             accepted := s.accepted + [t])
  }

  // ---------------------------------------------------------------- the manager

  /** is_thread_alive only says "gone" of a thread that has terminated. */
  ghost predicate SlotAnswer(s: State, i: nat, dead: bool)
    requires i < |s.threads|
  {
    dead ==> s.threads[i].Some? && s.threads[i].value < |s.workers|
             && s.workers[s.threads[i].value].WGone? && s.workers[s.threads[i].value].ended
  }

  /** The condition of the growing loop. */
  predicate GrowsOn(s: State, i: nat, added: nat) {
    i < s.maxThreads && added < DEFAULT_THREAD_VARY && s.live < s.maxThreads
  }

  /** The manager's test for creating threads, on the values it read earlier. */
  predicate WantsMore(s: State)
    requires s.manager.MDecide?
  {
    s.manager.queued >= MIN_WAIT_TASK_NUM && s.manager.live < s.maxThreads
  }

  ghost predicate ManagerEnabled(s: State, a: AdjustAction) {
    var pc := s.manager;
    match a
    case Top => pc.MTop?
    case Read => pc.MRead? && s.lock == Free
    case ReadBusy => pc.MReadBusy?
    case Decide => pc.MDecide? && (WantsMore(s) ==> s.lock == Free)
    case Grow(dead) => pc.MGrow? && |s.threads| == s.maxThreads && (pc.i < s.maxThreads ==> SlotAnswer(s, pc.i, dead))
    case ShrinkDecide => pc.MShrinkTest?
    case Shrink => pc.MShrink? && s.lock == Free
    case Signal(woken) => pc.MSignal? && (pc.left > 0 ==> Signals(s.workers, woken))
  }

  ghost function ManagerStep(s: State, a: AdjustAction): State
    requires ManagerEnabled(s, a)
  {
    var m := s.manager;
    match a
    case Top => s.(manager := if s.shutdown then MGone else MRead)
    case Read => s.(manager := MReadBusy(s.ring.size, s.live))
    case ReadBusy => s.(manager := MDecide(m.queued, m.live, s.busy))
    case Decide =>
      if WantsMore(s) then s.(manager := MGrow(0, 0, m.live, m.busy), lock := Manager)
      else s.(manager := MShrinkTest(m.live, m.busy))
    case Grow(dead) =>
      if !GrowsOn(s, m.i, m.added) then
        s.(manager := MShrinkTest(m.live, m.busy), lock := Free)
      else if s.threads[m.i].None? || dead then
        s.(manager := m.(i := m.i + 1, added := m.added + 1), workers := s.workers + [WLock],
           threads := s.threads[m.i := Some(|s.workers|)], live := s.live + 1)
      else
        s.(manager := m.(i := m.i + 1))
    case ShrinkDecide =>
      s.(manager := if m.busy * 2 < m.live && m.live > s.minThreads then MShrink else MTop)
    case Shrink =>
      s.(waitExit := DEFAULT_THREAD_VARY, shrinks := true, manager := MSignal(DEFAULT_THREAD_VARY))
    case Signal(woken) =>
      if m.left == 0 then s.(manager := MTop)
      else s.(workers := WakeOne(s.workers, woken), manager := MSignal(m.left - 1))
  }

  // ---------------------------------------------------------------- runs

  ghost predicate Enabled(s: State, a: Action) {
    match a
    case OfWorker(i, w) => WorkerEnabled(s, i, w)
    case OfAdder(j, d) => AdderEnabled(s, j, d)
    case OfManager(m) => ManagerEnabled(s, m)
    case SetShutdown => true
    case DestroyBroadcast => s.shutdown
  }

  ghost function Apply(s: State, a: Action): State
    requires Enabled(s, a)
  {
    match a
    case OfWorker(i, w) => WorkerStep(s, i, w)
    case OfAdder(j, d) => AdderStep(s, j, d)
    case OfManager(m) => ManagerStep(s, m)
    case SetShutdown => s.(shutdown := true)
    case DestroyBroadcast => s.(workers := WakeWorkers(s.workers))
  }

  ghost function Step(s: State, a: Action): Option<State> {
    if Enabled(s, a) then Some(Apply(s, a)) else None
  }

  /** What threadpool_create leaves: `minThreads` workers started, a ring of malloc'ed slots with
      any contents, and any number of threads that may call threadpool_add. */
  ghost predicate Created(s: State) {
    && s.minThreads <= s.maxThreads
    && s.lock == Free && s.manager == MTop && !s.shutdown
    && s.ring == Ring(s.ring.slots, 0, 0, 0)
    && s.workers == seq(s.minThreads, _ => WLock)
    && (forall j | 0 <= j < |s.adders| :: s.adders[j] == AIdle)
    && |s.threads| == s.maxThreads
    && (forall k | 0 <= k < s.maxThreads :: s.threads[k] == if k < s.minThreads then Some(k) else None)
    && s.live == s.minThreads && s.busy == 0 && s.waitExit == 0
    && s.accepted == [] && s.delivered == [] && s.finished == multiset{} && !s.shrinks
  }

  ghost predicate Reachable(t: State) {
    exists s: State, actions: seq<Action> :: Created(s) && Run(Step, s, actions, t)
  }
}
