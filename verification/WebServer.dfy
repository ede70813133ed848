/** The web server's hand-off of connections, as a transition system: the epoll loop of main, the
    request queue with its mutex and semaphore, and the workers.  One step is one access to shared
    state.  A connection is named by its descriptor; `users + fd` is the queued pointer.

    `Remove` joins the test of m_sockfd, EPOLL_CTL_DEL and close; `Close` and `Arm` of main join more.
    No state of a connection that was not accepted on a number in use is lost by that: its one owner is
    the only thread in the object, it is not armed, so epoll_wait does not return it either way, and
    its number is not free before the close.  Of other connections fewer interleavings are modelled;
    each of these steps concerns its own connection alone, m_user_count apart. */
module WebServer {
  import opened Options
  import opened Runs
  import opened Sequences

  type Fd = nat

  const MAX_FD := 65536

  datatype Mask = In | Out

  datatype Arm = Armed(mask: Mask) | Disarmed

  datatype Kind = Listen | Fault | Readable | Writable

  datatype Event = Event(fd: Fd, kind: Kind)

  /** Where the main thread is; `rest` are the events of the batch still to be handled. */
  datatype MainPc =
    | Waiting                                        // in epoll_wait
    | Dispatch(rest: seq<Event>)                     // at the head of the for loop
    | Accepted(fd: Fd, rest: seq<Event>)             // in init() of a new connection: about to set m_sockfd
    | Named(fd: Fd, rest: seq<Event>)                // in init(): about to call addfd
    | Finishing(fd: Fd, close: bool, rest: seq<Event>) // re-armed, still inside init() or write()
    | Reading(fd: Fd, rest: seq<Event>)              // in read()
    | Writing(fd: Fd, rest: seq<Event>)              // in write()
    | Closing(fd: Fd, rearmed: bool, rest: seq<Event>) // in close_conn(); `rearmed` after a full reply
    | AppendLock(fd: Fd, rest: seq<Event>)           // append(): about to lock
    | AppendIn(fd: Fd, rest: seq<Event>)             // append(): lock held, about to test the size
    | AppendUnlock(pushed: bool, rest: seq<Event>)   // append(): lock held, about to unlock
    | Posting(rest: seq<Event>)                      // append(): pushed, about to post

  /** Where a worker is in run(). */
  datatype WorkerPc =
    | WTop                        // about to wait on the semaphore
    | WWoken(counted: bool)       // wait returned; `counted` if it took a unit of the semaphore
    | WIn(counted: bool)          // lock held, about to look at the queue
    | WOut(request: Option<Fd>)   // lock held, about to unlock
    | WRead(fd: Fd)               // in process_read()
    | WBuild(fd: Fd)              // in process_write()
    | WFailed(fd: Fd)             // process_write failed: entering close_conn()
    | WForget(fd: Fd)             // past removefd: about to reset m_sockfd and count the user out
    | WModfd(fd: Fd)              // past close_conn(): about to call the modfd that ends process()

  datatype Owner = Free | Main | Worker(w: nat)

  datatype State = State(
    open: set<Fd>,              // open connection descriptors
    named: set<Fd>,             // the objects users[fd] whose m_sockfd is fd; it is -1 in the others
    epoll: map<Fd, Arm>,        // the connections in the epoll table
    userCount: int,             // m_user_count
    queue: seq<Fd>,             // m_workqueue
    maxRequests: nat,
    sem: nat,                   // m_queuestat
    lock: Owner,                // m_queuelocker
    main: MainPc,
    workers: seq<WorkerPc>,
    refused: set<Fd>,     // history: connections whose append was refused
    crossed: set<Fd>,     // history: connections accepted while their number was still in use
    everCrossed: bool,    // history: some connection was
    unsent: set<Fd>,      // history: connections with a reply built and not sent yet
    ended: set<Fd>,       // history: open connections main has seen the end of: a fault, a failed read
                          //   or write, or a reply sent without keep-alive
    surplus: int,         // history: pops without a unit, minus units spent on an empty queue
    interrupted: bool)    // history: some wait returned without taking a unit

  /** How write() ends: the socket is full, it takes the reply for sent and keeps the connection or not,
      or the send failed.  With nothing to send it ends like a reply sent and kept. */
  datatype WriteOutcome = Blocked | Sent(keep: bool) | WriteFailed

  datatype MainAction =
    | EpollWait(events: seq<Event>)
    | EndOfBatch
    | AcceptNone              // accept failed, or the server is full and the socket was closed
    | Accept(fd: Fd)
    | Name                    // init() sets m_sockfd
    | Arm                     // init() calls addfd and counts the user in
    | Finish
    | TakeEvent
    | ReadDone(ok: bool)
    | WriteDone(outcome: WriteOutcome)
    | Close
    | Lock
    | Push
    | Unlock
    | Post

  datatype WorkerAction =
    | Wait(ok: bool)
    | LockQueue
    | Pop
    | UnlockQueue
    | NeedMore                // process_read wants more: re-arm for reading
    | Parsed                  // process_read has a verdict
    | Built                   // process_write succeeded: re-arm for writing
    | BuildFails
    | Remove                  // close_conn() tests m_sockfd and calls removefd
    | Forget                  // close_conn() resets m_sockfd and counts the user out
    | LateModfd               // the modfd after close_conn()

  datatype Action = OfMain(m: MainAction) | OfWorker(i: nat, w: WorkerAction)

  // ---------------------------------------------------------------- who has a connection

  /** How many of the pending events are about connection `fd`. */
  ghost function Pending(events: seq<Event>, fd: Fd): nat {
    if events == [] then 0
    else Pending(events[1..], fd) + if events[0].kind != Listen && events[0].fd == fd then 1 else 0
  }

  /** The connection main works on.  Once re-armed, a connection is epoll's. */
  function MainHas(pc: MainPc): Option<Fd> {
    match pc
    case Waiting => None
    case Dispatch(_) => None
    case Finishing(_, _, _) => None
    case AppendUnlock(_, _) => None
    case Posting(_) => None
    case Closing(fd, rearmed, _) => if rearmed then None else Some(fd)
    case _ => Some(pc.fd)
  }

  function Rest(pc: MainPc): seq<Event> {
    if pc.Waiting? then [] else pc.rest
  }

  /** The connections main has: the one it works on and those of the events still pending. */
  ghost function MainCount(pc: MainPc, fd: Fd): nat {
    Pending(Rest(pc), fd) + if MainHas(pc) == Some(fd) then 1 else 0
  }

  function WorkerHas(pc: WorkerPc): Option<Fd> {
    match pc
    case WOut(r) => r
    case WRead(fd) => Some(fd)
    case WBuild(fd) => Some(fd)
    case WFailed(fd) => Some(fd)
    case _ => None
  }

  ghost function Having(fd: Fd): WorkerPc -> bool {
    (pc: WorkerPc) => WorkerHas(pc) == Some(fd)
  }

  /** The worker has closed the descriptor and is still inside the object of that number. */
  ghost function LateOn(fd: Fd): WorkerPc -> bool {
    (pc: WorkerPc) => (pc.WForget? || pc.WModfd?) && pc.fd == fd
  }

  ghost function ArmedAt(s: State, fd: Fd): nat {
    if fd in s.epoll && s.epoll[fd].Armed? then 1 else 0
  }

  /** In how many places a connection is: armed in epoll, with main, in the queue, with a worker. */
  ghost function Places(s: State, fd: Fd): nat {
    ArmedAt(s, fd) + MainCount(s.main, fd) + multiset(s.queue)[fd] + Count(s.workers, Having(fd))
  }

  ghost function Late(s: State, fd: Fd): nat {
    Count(s.workers, LateOn(fd))
  }

  /** All who work on the object of a number or may come to do so. */
  ghost function Hands(s: State, fd: Fd): nat {
    Places(s, fd) + Late(s, fd)
  }

  // ---------------------------------------------------------------- main

  /** Events epoll_wait may return: at most one a descriptor, of armed connections for what they are
      armed for, or the listener. */
  ghost predicate Returnable(s: State, events: seq<Event>) {
    && (forall k, l | 0 <= k < l < |events| ::
          events[k].kind == Listen || events[l].kind == Listen || events[k].fd != events[l].fd)
    && (forall k | 0 <= k < |events| :: var e := events[k];
          e.kind != Listen ==> && e.fd in s.epoll && s.epoll[e.fd].Armed?
                               && (e.kind == Readable ==> s.epoll[e.fd].mask == In)
                               && (e.kind == Writable ==> s.epoll[e.fd].mask == Out))
  }

  /** EPOLLONESHOT: a returned connection is disarmed. */
  ghost function Disarm(epoll: map<Fd, Arm>, events: seq<Event>): map<Fd, Arm> {
    map fd | fd in epoll ::
      if exists k | 0 <= k < |events| :: events[k].kind != Listen && events[k].fd == fd then Disarmed else epoll[fd]
  }

  /** modfd(m_epollfd, m_sockfd, ev) in the object of `fd`: epoll_ctl fails, unnoticed, when m_sockfd
      is -1 or the descriptor is not in the table. */
  ghost function Modfd(s: State, fd: Fd, mask: Mask): map<Fd, Arm> {
    if fd in s.named && fd in s.epoll then s.epoll[fd := Armed(mask)] else s.epoll
  }

  /** addfd: epoll_ctl fails when the descriptor is closed or already in the table. */
  ghost function Addfd(s: State, fd: Fd): map<Fd, Arm> {
    if fd in s.open && fd !in s.epoll then s.epoll[fd := Armed(In)] else s.epoll
  }

  ghost predicate MainEnabled(s: State, a: MainAction) {
    var pc := s.main;
    match a
    case EpollWait(events) => pc.Waiting? && Returnable(s, events)
    case EndOfBatch => pc.Dispatch? && pc.rest == []
    case AcceptNone => pc.Dispatch? && pc.rest != [] && pc.rest[0].kind == Listen
    case Accept(fd) => && pc.Dispatch? && pc.rest != [] && pc.rest[0].kind == Listen
                       && fd !in s.open && s.userCount < MAX_FD
    case Name => pc.Accepted?
    case Arm => pc.Named?
    case Finish => pc.Finishing?
    case TakeEvent => pc.Dispatch? && pc.rest != [] && pc.rest[0].kind != Listen
    case ReadDone(ok) => pc.Reading?
    case WriteDone(outcome) => pc.Writing?
    case Close => pc.Closing?
    case Lock => pc.AppendLock? && s.lock == Free
    case Push => pc.AppendIn?
    case Unlock => pc.AppendUnlock?
    case Post => pc.Posting?
  }

  ghost function MainStep(s: State, a: MainAction): State
    requires MainEnabled(s, a)
  {
    var pc := s.main;
    match a
    case EpollWait(events) => s.(epoll := Disarm(s.epoll, events), main := Dispatch(events))
    case EndOfBatch => s.(main := Waiting)
    case AcceptNone => s.(main := Dispatch(pc.rest[1..]))
    case Accept(fd) =>
      var inUse := Hands(s, fd) > 0;
      s.(open := s.open + {fd}, main := Accepted(fd, pc.rest[1..]), refused := s.refused - {fd},
         unsent := s.unsent - {fd}, ended := s.ended - {fd},
         crossed := if inUse then s.crossed + {fd} else s.crossed - {fd}, everCrossed := s.everCrossed || inUse)
    case Name => s.(named := s.named + {pc.fd}, main := Named(pc.fd, pc.rest))
    case Arm =>
      s.(epoll := Addfd(s, pc.fd), userCount := s.userCount + 1, main := Finishing(pc.fd, false, pc.rest))
    case Finish => s.(main := if pc.close then Closing(pc.fd, true, pc.rest) else Dispatch(pc.rest))
    case TakeEvent =>
      var e := pc.rest[0];
      s.(main := match e.kind
                 case Readable => Reading(e.fd, pc.rest[1..])
                 case Writable => Writing(e.fd, pc.rest[1..])
                 case _ => Closing(e.fd, false, pc.rest[1..]),
         ended := if e.kind == Fault then s.ended + {e.fd} else s.ended)
    case ReadDone(ok) =>
      s.(main := if ok then AppendLock(pc.fd, pc.rest) else Closing(pc.fd, false, pc.rest),
         ended := if ok then s.ended else s.ended + {pc.fd})
    case WriteDone(outcome) =>
      (match outcome
       case Blocked => s.(epoll := Modfd(s, pc.fd, Out), main := Finishing(pc.fd, false, pc.rest))
       case Sent(keep) => s.(epoll := Modfd(s, pc.fd, In), main := Finishing(pc.fd, !keep, pc.rest),
                             unsent := s.unsent - {pc.fd}, ended := if keep then s.ended else s.ended + {pc.fd})
       case WriteFailed => s.(main := Closing(pc.fd, false, pc.rest), ended := s.ended + {pc.fd}))
    case Close =>
      if pc.fd !in s.named then s.(main := Dispatch(pc.rest))
      else s.(epoll := s.epoll - {pc.fd}, open := s.open - {pc.fd}, named := s.named - {pc.fd},
              unsent := s.unsent - {pc.fd}, ended := s.ended - {pc.fd},
              userCount := s.userCount - 1, main := Dispatch(pc.rest))
    case Lock => s.(lock := Main, main := AppendIn(pc.fd, pc.rest))
    case Push =>
      if |s.queue| > s.maxRequests then s.(main := AppendUnlock(false, pc.rest), refused := s.refused + {pc.fd})
      else s.(queue := s.queue + [pc.fd], main := AppendUnlock(true, pc.rest))
    case Unlock => s.(lock := Free, main := if pc.pushed then Posting(pc.rest) else Dispatch(pc.rest))
    case Post => s.(sem := s.sem + 1, main := Dispatch(pc.rest))
  }

  // ---------------------------------------------------------------- workers

  ghost predicate WorkerEnabled(s: State, i: nat, a: WorkerAction) {
    && i < |s.workers|
    && var pc := s.workers[i];
      match a
      case Wait(ok) => pc.WTop? && (ok ==> s.sem > 0)
      case LockQueue => pc.WWoken? && s.lock == Free
      case Pop => pc.WIn?
      case UnlockQueue => pc.WOut?
      case NeedMore => pc.WRead?
      case Parsed => pc.WRead?
      case Built => pc.WBuild?
      case BuildFails => pc.WBuild?
      case Remove => pc.WFailed?
      case Forget => pc.WForget?
      case LateModfd => pc.WModfd?
  }

  ghost function SetWorker(s: State, i: nat, pc: WorkerPc): State
    requires i < |s.workers|
  {
    s.(workers := s.workers[i := pc])
  }

  ghost function WorkerStep(s: State, i: nat, a: WorkerAction): State
    requires WorkerEnabled(s, i, a)
  {
    var pc := s.workers[i];
    match a
    case Wait(ok) =>
      if ok then SetWorker(s, i, WWoken(true)).(sem := s.sem - 1)
      else SetWorker(s, i, WWoken(false)).(interrupted := true)
    case LockQueue => SetWorker(s, i, WIn(pc.counted)).(lock := Worker(i))
    case Pop =>
      if s.queue == [] then SetWorker(s, i, WOut(None)).(surplus := s.surplus - if pc.counted then 1 else 0)
      else SetWorker(s, i, WOut(Some(s.queue[0]))).(queue := s.queue[1..],
                                                    surplus := s.surplus + if pc.counted then 0 else 1)
    case UnlockQueue =>
      SetWorker(s, i, if pc.request.Some? then WRead(pc.request.value) else WTop).(lock := Free)
    case NeedMore => SetWorker(s, i, WTop).(epoll := Modfd(s, pc.fd, In))
    case Parsed => SetWorker(s, i, WBuild(pc.fd))
    case Built => SetWorker(s, i, WTop).(epoll := Modfd(s, pc.fd, Out), unsent := s.unsent + {pc.fd})
    case BuildFails => SetWorker(s, i, WFailed(pc.fd))
    case Remove =>
      if pc.fd !in s.named then SetWorker(s, i, WModfd(pc.fd))
      else SetWorker(s, i, WForget(pc.fd)).(epoll := s.epoll - {pc.fd}, open := s.open - {pc.fd},
                                            unsent := s.unsent - {pc.fd}, ended := s.ended - {pc.fd})
    case Forget => SetWorker(s, i, WModfd(pc.fd)).(named := s.named - {pc.fd}, userCount := s.userCount - 1)
    case LateModfd => SetWorker(s, i, WTop).(epoll := Modfd(s, pc.fd, Out))
  }

  // ---------------------------------------------------------------- runs

  ghost predicate Enabled(s: State, a: Action) {
    match a
    case OfMain(m) => MainEnabled(s, m)
    case OfWorker(i, w) => WorkerEnabled(s, i, w)
  }

  ghost function Apply(s: State, a: Action): State
    requires Enabled(s, a)
  {
    match a
    case OfMain(m) => MainStep(s, m)
    case OfWorker(i, w) => WorkerStep(s, i, w)
  }

  /** Before the first epoll_wait: no connection, an empty queue, every worker at the semaphore. */
  ghost predicate Started(s: State) {
    && s.open == {} && s.named == {} && s.epoll == map[] && s.userCount == 0
    && s.queue == [] && s.sem == 0 && s.lock == Free && s.main == Waiting
    && (forall i | 0 <= i < |s.workers| :: s.workers[i] == WTop)
    && s.refused == {} && s.crossed == {} && !s.everCrossed && s.unsent == {} && s.ended == {}
    && s.surplus == 0 && !s.interrupted
  }

  ghost function Step(s: State, a: Action): Option<State> {
    if Enabled(s, a) then Some(Apply(s, a)) else None
  }

  ghost predicate Reachable(t: State) {
    exists s: State, actions: seq<Action> :: Started(s) && Run(Step, s, actions, t)
  }

  /** No process_write fails in the run. */
  ghost predicate WritesSucceed(actions: seq<Action>) {
    forall k | 0 <= k < |actions| :: !(actions[k].OfWorker? && actions[k].w == BuildFails)
  }

  /** The step accepts a connection on `fd` while a worker is past removefd on that number. */
  ghost predicate Crosses(s: State, a: Action, fd: Fd) {
    a == OfMain(Accept(fd)) && Late(s, fd) > 0
  }

  /** Some step of the run does. */
  ghost predicate CrossesIn(s: State, actions: seq<Action>, fd: Fd)
    decreases |actions|
  {
    && actions != []
    && (Crosses(s, actions[0], fd)
        || (Enabled(s, actions[0]) && CrossesIn(Apply(s, actions[0]), actions[1..], fd)))
  }
}
