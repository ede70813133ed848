/** What every reachable state of the web server satisfies, with the exact condition under which two
    threads come to work on one connection. */
module WebServerSafety {
  import opened Options
  import opened Runs
  import opened Sequences
  import opened WebServer

  // ---------------------------------------------------------------- one place

  /** A connection is in exactly one place while it is open, unless its append was refused; a closed
      one is nowhere, and at most one worker is still on its way out of the object. */
  ghost predicate Placed(s: State, fd: Fd) {
    && Places(s, fd) == (if fd in s.open && fd !in s.refused then 1 else 0)
    && Late(s, fd) <= (if fd in s.open then 0 else 1)
  }

  /** Main is done with a connection but has not left its code yet. */
  predicate Rearmed(pc: MainPc) {
    pc.Finishing? || (pc.Closing? && pc.rearmed)
  }

  /** Main is in init(int, ...) of the connection and has not called addfd yet. */
  predicate Entering(pc: MainPc, fd: Fd) {
    (pc.Accepted? || pc.Named?) && pc.fd == fd
  }

  /** An open connection is in the epoll table and its object has its number, from init on; one that
      main has just re-armed is armed. */
  ghost predicate Known(s: State, fd: Fd) {
    && (fd in s.epoll <==> fd in s.open && !Entering(s.main, fd))
    && (fd in s.open && !(s.main.Accepted? && s.main.fd == fd) ==> fd in s.named)
    && (fd in s.refused ==> fd in s.open)
    && (Rearmed(s.main) && s.main.fd == fd ==> ArmedAt(s, fd) == 1)
  }

  ghost predicate Clean(s: State, fd: Fd) {
    Placed(s, fd) && Known(s, fd)
  }

  /** Every connection that was not accepted while its number was in use is in one place. */
  ghost predicate OnePlace(s: State) {
    forall fd: Fd :: fd !in s.crossed ==> Placed(s, fd)
  }

  ghost predicate Registered(s: State) {
    && s.epoll.Keys <= s.open
    && (forall fd: Fd :: fd !in s.crossed ==> Known(s, fd))
  }

  ghost predicate Mentions(events: seq<Event>, fd: Fd) {
    exists k | 0 <= k < |events| :: events[k].kind != Listen && events[k].fd == fd
  }

  /** A returned batch names each connection at most once. */
  lemma {:induction false} BatchOnce(s: State, events: seq<Event>, fd: Fd)
    requires Returnable(s, events)
    ensures Pending(events, fd) == if Mentions(events, fd) then 1 else 0
    decreases |events|
  {
    if events != [] {
      var tail := events[1..];
      BatchOnce(s, tail, fd);
      assert forall k | 0 <= k < |tail| :: tail[k] == events[k + 1];
      assert Mentions(events, fd) <==> (events[0].kind != Listen && events[0].fd == fd) || Mentions(tail, fd) by {
        if Mentions(events, fd) {
          var k :| 0 <= k < |events| && events[k].kind != Listen && events[k].fd == fd;
          if k > 0 { assert tail[k - 1] == events[k]; }
        }
      }
    }
  }

  /** epoll_wait moves each returned connection from epoll to main. */
  lemma WaitMoves(s: State, events: seq<Event>, fd: Fd)
    requires MainEnabled(s, EpollWait(events))
    ensures Places(MainStep(s, EpollWait(events)), fd) == Places(s, fd)
  {
    BatchOnce(s, events, fd);
    var t := MainStep(s, EpollWait(events));
    if Mentions(events, fd) {
      var k :| 0 <= k < |events| && events[k].kind != Listen && events[k].fd == fd;
      assert ArmedAt(s, fd) == 1;
    }
  }

  lemma QueueEnds(q: seq<Fd>, x: Fd, fd: Fd)
    ensures multiset(q + [x])[fd] == multiset(q)[fd] + if x == fd then 1 else 0
    ensures q != [] ==> multiset(q)[fd] == multiset(q[1..])[fd] + if q[0] == fd then 1 else 0
  {
    if q != [] {
      assert q == [q[0]] + q[1..];
    }
  }

  /** The steps of main that only change where in its own code it is. */
  ghost predicate Internal(a: MainAction) {
    a in {EndOfBatch, AcceptNone, Finish, TakeEvent, Lock, Unlock, Post, WriteDone(WriteFailed)} || a.ReadDone?
  }

  lemma InternalKeeps(s: State, a: MainAction, fd: Fd)
    requires MainEnabled(s, a) && Internal(a)
    ensures var t := MainStep(s, a);
            && t.epoll == s.epoll && t.open == s.open && t.named == s.named && t.queue == s.queue
            && t.refused == s.refused && t.crossed == s.crossed && t.workers == s.workers
            && MainCount(t.main, fd) == MainCount(s.main, fd)
            && !t.main.Accepted? && !s.main.Accepted? && !t.main.Named? && !s.main.Named?
            && (Rearmed(t.main) ==> Rearmed(s.main) && t.main.fd == s.main.fd)
  {
  }

  lemma WaitKeeps(s: State, a: MainAction, fd: Fd)
    requires MainEnabled(s, a) && a.EpollWait?
    ensures var t := MainStep(s, a);
            && t.epoll.Keys == s.epoll.Keys && t.open == s.open && t.named == s.named && t.workers == s.workers
            && t.refused == s.refused && t.crossed == s.crossed && s.main.Waiting? && t.main.Dispatch?
  {
  }

  lemma PushEffect(s: State, fd: Fd)
    requires MainEnabled(s, Push)
    ensures var t := MainStep(s, Push);
            && t.epoll == s.epoll && t.open == s.open && t.named == s.named && t.workers == s.workers
            && t.main.AppendUnlock? && s.main.AppendIn?
            && MainCount(s.main, fd) == MainCount(t.main, fd) + (if s.main.fd == fd then 1 else 0)
            && if |s.queue| > s.maxRequests then t.queue == s.queue && t.refused == s.refused + {s.main.fd}
               else t.queue == s.queue + [s.main.fd] && t.refused == s.refused
  {
  }

  lemma PushMoves(s: State, fd: Fd)
    requires Clean(s, fd) && MainEnabled(s, Push)
    ensures Clean(MainStep(s, Push), fd)
  {
    hide Count, Having, LateOn, MainCount, MainStep, MainEnabled;
    PushEffect(s, fd);
    QueueEnds(s.queue, s.main.fd, fd);
  }

  /** accept() on a number nobody has makes the connection clean, whatever was before. */
  lemma AcceptMoves(s: State, a: MainAction, fd: Fd)
    requires a.Accept? && MainEnabled(s, a) && s.epoll.Keys <= s.open && (fd !in s.crossed ==> Clean(s, fd))
    ensures fd !in MainStep(s, a).crossed ==> Clean(MainStep(s, a), fd)
  {
    hide Count, Having, LateOn;
  }

  lemma NameMoves(s: State, fd: Fd)
    requires Clean(s, fd) && MainEnabled(s, Name)
    ensures Clean(MainStep(s, Name), fd)
  {
    hide Count, Pending, Having, LateOn;
  }

  lemma ArmMoves(s: State, fd: Fd)
    requires Clean(s, fd) && MainEnabled(s, Arm)
    ensures Clean(MainStep(s, Arm), fd)
  {
    hide Count, Pending, Having, LateOn;
  }

  lemma CloseMoves(s: State, fd: Fd)
    requires Clean(s, fd) && MainEnabled(s, Close)
    ensures Clean(MainStep(s, Close), fd)
  {
    hide Count, Pending, Having, LateOn;
  }

  lemma WriteMoves(s: State, a: MainAction, fd: Fd)
    requires Clean(s, fd) && MainEnabled(s, a) && a.WriteDone? && !a.outcome.WriteFailed?
    ensures Clean(MainStep(s, a), fd)
  {
    hide Count, Pending, Having, LateOn;
  }

  /** The steps of main that set m_sockfd, register, re-arm and close a connection. */
  lemma HandOver(s: State, a: MainAction, fd: Fd)
    requires Clean(s, fd) && MainEnabled(s, a)
    requires a == Name || a == Arm || a == Close || (a.WriteDone? && !a.outcome.WriteFailed?)
    ensures Clean(MainStep(s, a), fd)
  {
    hide Clean, MainStep, MainEnabled;
    match a
    case Name => NameMoves(s, fd);
    case Arm => ArmMoves(s, fd);
    case Close => CloseMoves(s, fd);
    case _ => WriteMoves(s, a, fd);
  }

  /** Every step of main keeps each connection in one place. */
  lemma MainMoves(s: State, a: MainAction, fd: Fd)
    requires s.epoll.Keys <= s.open && (fd !in s.crossed ==> Clean(s, fd)) && MainEnabled(s, a)
    ensures fd !in MainStep(s, a).crossed ==> Clean(MainStep(s, a), fd)
  {
    if a.Accept? {
      hide *;
      AcceptMoves(s, a, fd);
    } else if fd !in s.crossed {
      if Internal(a) {
        hide MainCount, MainStep, MainEnabled, Count;
        InternalKeeps(s, a, fd);
      } else if a.EpollWait? {
        hide MainCount, MainStep, MainEnabled, Count;
        WaitMoves(s, a.events, fd);
        WaitKeeps(s, a, fd);
      } else if a == Push {
        hide Clean, MainStep;
        PushMoves(s, fd);
      } else {
        hide Clean, MainStep;
        HandOver(s, a, fd);
      }
    } else {
      CrossedStays(s, a, fd);
    }
  }

  lemma CrossedStays(s: State, a: MainAction, fd: Fd)
    requires MainEnabled(s, a) && a != Accept(fd)
    ensures fd in MainStep(s, a).crossed <==> fd in s.crossed
  {
    hide Hands;
  }

  /** The steps of a worker that leave every connection where it is. */
  ghost predicate Quiet(a: WorkerAction) {
    a.Wait? || a in {LockQueue, UnlockQueue, Parsed, BuildFails}
  }

  lemma QuietKeeps(s: State, i: nat, a: WorkerAction, fd: Fd)
    requires WorkerEnabled(s, i, a) && Quiet(a)
    ensures var t := WorkerStep(s, i, a);
            && t.epoll == s.epoll && t.open == s.open && t.named == s.named && t.queue == s.queue
            && t.refused == s.refused && t.main == s.main
            && i < |s.workers| == |t.workers| && t.workers == s.workers[i := t.workers[i]]
            && Having(fd)(t.workers[i]) == Having(fd)(s.workers[i])
            && LateOn(fd)(t.workers[i]) == LateOn(fd)(s.workers[i])
  {
  }

  lemma QuietMoves(s: State, i: nat, a: WorkerAction, fd: Fd)
    requires Clean(s, fd) && WorkerEnabled(s, i, a) && Quiet(a)
    ensures Clean(WorkerStep(s, i, a), fd)
  {
    hide Count, MainCount, WorkerStep, WorkerEnabled, Having, LateOn;
    var t := WorkerStep(s, i, a);
    QuietKeeps(s, i, a, fd);
    CountUpdate(s.workers, i, t.workers[i], Having(fd));
    CountUpdate(s.workers, i, t.workers[i], LateOn(fd));
  }

  lemma PopEffect(s: State, i: nat, fd: Fd)
    requires WorkerEnabled(s, i, Pop)
    ensures var t := WorkerStep(s, i, Pop);
            && t.epoll == s.epoll && t.open == s.open && t.named == s.named && t.refused == s.refused
            && t.main == s.main
            && i < |s.workers| == |t.workers| && t.workers == s.workers[i := t.workers[i]]
            && t.queue == (if s.queue == [] then [] else s.queue[1..])
            && !Having(fd)(s.workers[i]) && !LateOn(fd)(s.workers[i]) && !LateOn(fd)(t.workers[i])
            && (Having(fd)(t.workers[i]) <==> s.queue != [] && s.queue[0] == fd)
  {
  }

  lemma SameKnown(s: State, t: State, fd: Fd)
    requires t.epoll == s.epoll && t.open == s.open && t.named == s.named && t.refused == s.refused && t.main == s.main
    ensures ArmedAt(t, fd) == ArmedAt(s, fd) && Known(t, fd) == Known(s, fd)
  {
  }

  lemma PopMoves(s: State, i: nat, fd: Fd)
    requires Clean(s, fd) && WorkerEnabled(s, i, Pop)
    ensures Clean(WorkerStep(s, i, Pop), fd)
  {
    hide Count, MainCount, WorkerStep, WorkerEnabled, Having, LateOn, ArmedAt, Known;
    var t := WorkerStep(s, i, Pop);
    PopEffect(s, i, fd);
    SameKnown(s, t, fd);
    CountUpdate(s.workers, i, t.workers[i], Having(fd));
    CountUpdate(s.workers, i, t.workers[i], LateOn(fd));
    QueueEnds(s.queue, 0, fd);
  }

  lemma RearmEffect(s: State, i: nat, a: WorkerAction, fd: Fd)
    requires Clean(s, fd) && WorkerEnabled(s, i, a) && a in {NeedMore, Built}
    ensures var t := WorkerStep(s, i, a);
            && t.named == s.named && t.open == s.open && t.queue == s.queue && t.refused == s.refused
            && t.main == s.main && i < |s.workers| && t.workers == s.workers[i := WTop]
            && !LateOn(fd)(s.workers[i]) && !LateOn(fd)(WTop) && !Having(fd)(WTop)
            && (Having(fd)(s.workers[i]) ==> fd in t.epoll && t.epoll[fd].Armed? && ArmedAt(s, fd) == 0)
            && (!Having(fd)(s.workers[i]) ==> fd in s.epoll ==> t.epoll[fd] == s.epoll[fd])
            && (fd in t.epoll <==> fd in s.epoll)
  {
    assert Entering(s.main, fd) ==> MainCount(s.main, fd) > 0;
    hide Count, MainCount;
    CountUpdate(s.workers, i, WTop, Having(fd));
  }

  /** Re-arming hands the connection back to epoll. */
  lemma RearmMoves(s: State, i: nat, a: WorkerAction, fd: Fd)
    requires Clean(s, fd) && WorkerEnabled(s, i, a) && a in {NeedMore, Built}
    ensures Clean(WorkerStep(s, i, a), fd)
  {
    RearmEffect(s, i, a, fd);
    hide Count, MainCount, WorkerStep, WorkerEnabled, Having, LateOn;
    CountUpdate(s.workers, i, WTop, Having(fd));
    CountUpdate(s.workers, i, WTop, LateOn(fd));
  }

  lemma RemoveEffect(s: State, i: nat, fd: Fd)
    requires Clean(s, fd) && WorkerEnabled(s, i, Remove)
    ensures var t := WorkerStep(s, i, Remove);
            && t.named == s.named && t.queue == s.queue && t.refused == s.refused && t.main == s.main
            && i < |s.workers| == |t.workers| && t.workers == s.workers[i := t.workers[i]]
            && !LateOn(fd)(s.workers[i]) && !Having(fd)(t.workers[i])
            && (Having(fd)(s.workers[i]) ==> !Entering(s.main, fd) && fd in s.open && fd !in s.refused)
            && LateOn(fd)(t.workers[i]) == Having(fd)(s.workers[i])
            && (fd in t.open <==> fd in s.open && !Having(fd)(s.workers[i]))
            && (fd in t.epoll <==> fd in s.epoll && !Having(fd)(s.workers[i]))
            && (fd in t.epoll ==> t.epoll[fd] == s.epoll[fd])
  {
    assert Entering(s.main, fd) ==> MainCount(s.main, fd) > 0;
    hide Count, MainCount;
    CountUpdate(s.workers, i, WTop, Having(fd));
  }

  /** close_conn() closes the connection for everybody; its worker is late from then on. */
  lemma RemoveMoves(s: State, i: nat, fd: Fd)
    requires Clean(s, fd) && WorkerEnabled(s, i, Remove)
    ensures Clean(WorkerStep(s, i, Remove), fd)
  {
    hide Count, MainCount, WorkerStep, WorkerEnabled, Having, LateOn;
    var t := WorkerStep(s, i, Remove);
    RemoveEffect(s, i, fd);
    CountUpdate(s.workers, i, t.workers[i], Having(fd));
    CountUpdate(s.workers, i, t.workers[i], LateOn(fd));
  }

  /** What a late worker does to an object nobody else has concerns no open connection. */
  lemma LateMoves(s: State, i: nat, a: WorkerAction, fd: Fd)
    requires Clean(s, fd) && WorkerEnabled(s, i, a) && a in {Forget, LateModfd}
    ensures Clean(WorkerStep(s, i, a), fd)
  {
    hide Count, MainCount;
    var t := WorkerStep(s, i, a);
    assert t.workers == s.workers[i := t.workers[i]];
    CountUpdate(s.workers, i, t.workers[i], Having(fd));
    CountUpdate(s.workers, i, t.workers[i], LateOn(fd));
  }

  /** Every step of a worker keeps each connection in one place. */
  lemma WorkerMoves(s: State, i: nat, a: WorkerAction, fd: Fd)
    requires Clean(s, fd) && WorkerEnabled(s, i, a)
    ensures Clean(WorkerStep(s, i, a), fd)
  {
    hide Clean, WorkerStep;
    match a
    case Pop => PopMoves(s, i, fd);
    case NeedMore => RearmMoves(s, i, a, fd);
    case Built => RearmMoves(s, i, a, fd);
    case Remove => RemoveMoves(s, i, fd);
    case Forget => LateMoves(s, i, a, fd);
    case LateModfd => LateMoves(s, i, a, fd);
    case _ => QuietMoves(s, i, a, fd);
  }

  lemma CleanStep(s: State, a: Action, fd: Fd)
    requires s.epoll.Keys <= s.open && (fd !in s.crossed ==> Clean(s, fd)) && Enabled(s, a)
    ensures fd !in Apply(s, a).crossed ==> Clean(Apply(s, a), fd)
  {
    hide Clean, MainStep, WorkerStep, MainEnabled, WorkerEnabled;
    match a
    case OfMain(m) => MainMoves(s, m, fd);
    case OfWorker(i, w) =>
      CrossedByMain(s, i, w);
      if fd !in s.crossed { WorkerMoves(s, i, w, fd); }
  }

  lemma CrossedByMain(s: State, i: nat, a: WorkerAction)
    requires WorkerEnabled(s, i, a)
    ensures var t := WorkerStep(s, i, a); t.crossed == s.crossed && t.everCrossed == s.everCrossed && t.main == s.main
  {
  }

  /** Every step of main and of a worker, also when process_write fails. */
  lemma OnePlaceStep(s: State, a: Action)
    requires OnePlace(s) && Registered(s) && Enabled(s, a)
    ensures OnePlace(Apply(s, a))
  {
    hide Apply, Enabled, Placed, Known;
    forall fd: Fd | fd !in Apply(s, a).crossed ensures Placed(Apply(s, a), fd) {
      CleanStep(s, a, fd);
    }
  }

  lemma RegisteredMain(s: State, a: MainAction)
    requires OnePlace(s) && Registered(s) && MainEnabled(s, a)
    ensures Registered(MainStep(s, a))
  {
    KeysMain(s, a);
    hide MainStep, MainEnabled, Placed, Known;
    forall fd: Fd | fd !in MainStep(s, a).crossed ensures Known(MainStep(s, a), fd) {
      MainMoves(s, a, fd);
    }
  }

  lemma RegisteredWorker(s: State, i: nat, a: WorkerAction)
    requires OnePlace(s) && Registered(s) && WorkerEnabled(s, i, a)
    ensures Registered(WorkerStep(s, i, a))
  {
    KeysWorker(s, i, a);
    CrossedByMain(s, i, a);
    hide WorkerStep, WorkerEnabled, Placed, Known;
    forall fd: Fd | fd !in WorkerStep(s, i, a).crossed ensures Known(WorkerStep(s, i, a), fd) {
      WorkerMoves(s, i, a, fd);
    }
  }

  lemma KeysMain(s: State, a: MainAction)
    requires s.epoll.Keys <= s.open && MainEnabled(s, a)
    ensures MainStep(s, a).epoll.Keys <= MainStep(s, a).open
  {
  }

  lemma KeysWorker(s: State, i: nat, a: WorkerAction)
    requires s.epoll.Keys <= s.open && WorkerEnabled(s, i, a)
    ensures WorkerStep(s, i, a).epoll.Keys <= WorkerStep(s, i, a).open
  {
  }

  // ---------------------------------------------------------------- users

  /** The worker has closed its connection and not counted the user out yet. */
  ghost predicate Forgetting(pc: WorkerPc) {
    pc.WForget?
  }

  /** m_user_count never exceeds MAX_FD; as long as no number was accepted while in use it is the
      number of connections in the epoll table and of those a worker is about to count out. */
  ghost predicate UsersCounted(s: State) {
    && s.userCount <= MAX_FD
    && (s.main.Accepted? || s.main.Named? ==> s.userCount < MAX_FD)
    && (!s.everCrossed ==> s.crossed == {} && s.userCount == |s.epoll.Keys| + Count(s.workers, Forgetting))
  }

  lemma UsersMain(s: State, a: MainAction)
    requires OnePlace(s) && Registered(s) && UsersCounted(s) && MainEnabled(s, a)
    ensures UsersCounted(MainStep(s, a))
  {
    hide OnePlace, Registered, Pending, MainStep, UsersCounted;
    if a == Close {
      CloseUncounts(s);
    } else if a == Arm {
      ArmCounts(s);
    } else {
      KeysKept(s, a);
    }
  }

  lemma EnteringIsNew(s: State)
    requires OnePlace(s) && Registered(s) && s.crossed == {} && s.main.Named?
    ensures s.main.fd in s.open && s.main.fd !in s.epoll
  {
    assert Placed(s, s.main.fd) && Known(s, s.main.fd);
  }

  lemma ArmEffect(s: State)
    requires MainEnabled(s, Arm)
    ensures var t := MainStep(s, Arm);
            && t.userCount == s.userCount + 1 && t.workers == s.workers && t.main.Finishing? && s.main.Named?
            && t.crossed == s.crossed && t.everCrossed == s.everCrossed
            && (s.main.fd in s.open && s.main.fd !in s.epoll ==> t.epoll.Keys == s.epoll.Keys + {s.main.fd})
  {
    hide Hands;
  }

  lemma ArmCounts(s: State)
    requires OnePlace(s) && Registered(s) && UsersCounted(s) && MainEnabled(s, Arm)
    ensures UsersCounted(MainStep(s, Arm))
  {
    ArmEffect(s);
    hide OnePlace, Registered, Count, MainStep;
    if !s.everCrossed {
      EnteringIsNew(s);
    }
  }

  lemma ClosingIsKnown(s: State)
    requires OnePlace(s) && Registered(s) && s.crossed == {} && s.main.Closing?
    ensures s.main.fd in s.epoll && s.main.fd in s.named
  {
    assert Placed(s, s.main.fd) && Known(s, s.main.fd);
  }

  lemma CloseUncounts(s: State)
    requires OnePlace(s) && Registered(s) && UsersCounted(s) && MainEnabled(s, Close)
    ensures UsersCounted(MainStep(s, Close))
  {
    hide OnePlace, Registered, Count, Hands;
    if !s.everCrossed {
      ClosingIsKnown(s);
      assert MainStep(s, Close).epoll.Keys == s.epoll.Keys - {s.main.fd};
    }
  }

  lemma KeysKept(s: State, a: MainAction)
    requires UsersCounted(s) && MainEnabled(s, a) && a != Arm && a != Close
    ensures UsersCounted(MainStep(s, a))
  {
    CountKept(s, a);
    hide Count, MainStep, MainEnabled;
  }

  lemma CountKept(s: State, a: MainAction)
    requires MainEnabled(s, a) && a != Arm && a != Close
    ensures var t := MainStep(s, a);
            && t.userCount == s.userCount && t.workers == s.workers && t.epoll.Keys == s.epoll.Keys
            && (!t.everCrossed ==> !s.everCrossed && t.crossed <= s.crossed)
            && (t.main.Accepted? || t.main.Named? ==> s.main.Accepted? || s.main.Named? || s.userCount < MAX_FD)
  {
    hide Hands;
  }

  lemma UsersWorker(s: State, i: nat, a: WorkerAction)
    requires OnePlace(s) && Registered(s) && UsersCounted(s) && WorkerEnabled(s, i, a)
    ensures UsersCounted(WorkerStep(s, i, a))
  {
    hide OnePlace, Registered, WorkerStep, UsersCounted;
    if a == Remove {
      RemoveUncounts(s, i);
    } else {
      WorkerKeysKept(s, i, a);
    }
  }

  lemma RemoveUncounts(s: State, i: nat)
    requires OnePlace(s) && Registered(s) && UsersCounted(s) && WorkerEnabled(s, i, Remove)
    ensures UsersCounted(WorkerStep(s, i, Remove))
  {
    hide Count, Places, LateOn;
    var fd, t := s.workers[i].fd, WorkerStep(s, i, Remove);
    assert t.workers == s.workers[i := t.workers[i]];
    if !s.everCrossed {
      assert Placed(s, fd) && Known(s, fd);
      RemoveEffect(s, i, fd);
      CountUpdate(s.workers, i, t.workers[i], Forgetting);
      assert t.epoll.Keys == s.epoll.Keys - {fd};
    }
  }

  lemma WorkerKeysKept(s: State, i: nat, a: WorkerAction)
    requires UsersCounted(s) && WorkerEnabled(s, i, a) && a != Remove
    ensures UsersCounted(WorkerStep(s, i, a))
  {
    hide Count;
    var t := WorkerStep(s, i, a);
    assert t.workers == s.workers[i := t.workers[i]];
    CountUpdate(s.workers, i, t.workers[i], Forgetting);
    assert t.epoll.Keys == s.epoll.Keys;
  }

  // ---------------------------------------------------------------- the lock and the semaphore

  ghost predicate Exclusive(s: State) {
    && (s.main.AppendIn? || s.main.AppendUnlock? <==> s.lock == Main)
    && (forall i | 0 <= i < |s.workers| :: s.workers[i].WIn? || s.workers[i].WOut? <==> s.lock == Worker(i))
  }

  lemma ExclusiveMain(s: State, a: MainAction)
    requires Exclusive(s) && MainEnabled(s, a)
    ensures Exclusive(MainStep(s, a))
  {
    hide Hands;
  }

  lemma ExclusiveWorker(s: State, i: nat, a: WorkerAction)
    requires Exclusive(s) && WorkerEnabled(s, i, a)
    ensures Exclusive(WorkerStep(s, i, a))
  {
  }

  /** The worker took a unit of the semaphore and has not popped yet. */
  predicate Woken(pc: WorkerPc) {
    (pc.WWoken? || pc.WIn?) && pc.counted
  }

  /** append() has pushed and has not posted yet. */
  function Unposted(pc: MainPc): nat {
    if pc.Posting? || (pc.AppendUnlock? && pc.pushed) then 1 else 0
  }

  /** The semaphore accounts for the queue.  `surplus` is what waits that returned without a unit
      have taken from the queue and units spent on an empty queue have not; it is never negative, and
      zero when every wait succeeds. */
  ghost predicate Balanced(s: State) {
    && |s.queue| + s.surplus == s.sem + Count(s.workers, Woken) + Unposted(s.main)
    && s.surplus >= 0
    && |s.queue| <= s.maxRequests + 1
    && (!s.interrupted ==> s.surplus == 0)
    && (forall i | 0 <= i < |s.workers| && !s.interrupted ::
          s.workers[i].WWoken? || s.workers[i].WIn? ==> s.workers[i].counted)
  }

  lemma BalancedMain(s: State, a: MainAction)
    requires Balanced(s) && MainEnabled(s, a)
    ensures Balanced(MainStep(s, a))
  {
    hide Hands;
  }

  lemma BalancedWorker(s: State, i: nat, a: WorkerAction)
    requires Balanced(s) && WorkerEnabled(s, i, a)
    ensures Balanced(WorkerStep(s, i, a))
  {
    hide Count;
    var t := WorkerStep(s, i, a);
    assert t.workers == s.workers[i := t.workers[i]];
    CountUpdate(s.workers, i, t.workers[i], Woken);
  }

  // ---------------------------------------------------------------- whole runs

  ghost predicate Invariant(s: State) {
    && OnePlace(s) && Registered(s) && UsersCounted(s) && Exclusive(s) && Balanced(s)
  }

  lemma StartedInvariant(s: State)
    requires Started(s)
    ensures Invariant(s)
  {
    CountAll(s.workers, Woken, false);
    CountAll(s.workers, Forgetting, false);
    forall fd: Fd ensures Placed(s, fd) {
      CountAll(s.workers, Having(fd), false);
      CountAll(s.workers, LateOn(fd), false);
    }
  }

  lemma InvariantStep(s: State, a: Action)
    requires Invariant(s) && Enabled(s, a)
    ensures Invariant(Apply(s, a))
  {
    hide OnePlace, Registered, UsersCounted, Exclusive, Balanced, MainStep, WorkerStep, MainEnabled, WorkerEnabled;
    OnePlaceStep(s, a);
    match a {
      case OfMain(m) =>
        RegisteredMain(s, m);
        UsersMain(s, m);
        BalancedMain(s, m);
        ExclusiveMain(s, m);
      case OfWorker(i, w) =>
        RegisteredWorker(s, i, w);
        UsersWorker(s, i, w);
        BalancedWorker(s, i, w);
        ExclusiveWorker(s, i, w);
    }
  }

  lemma ReachableInvariant(t: State)
    requires Reachable(t)
    ensures Invariant(t)
  {
    hide Invariant, Apply, Enabled;
    var s, actions :| Started(s) && Run(Step, s, actions, t);
    StartedInvariant(s);
    forall u: State, a: Action | Invariant(u) && Step(u, a).Some? ensures Invariant(Step(u, a).value) {
      InvariantStep(u, a);
    }
    RunKeeps(Step, Invariant, s, actions, t);
  }

  // ---------------------------------------------------------------- the promises

  /** The connection whose object main is reading or writing at this point. */
  function MainTouches(pc: MainPc): Option<Fd> {
    match pc
    case Waiting => None
    case Dispatch(_) => None
    case AppendUnlock(_, _) => None
    case Posting(_) => None
    case _ => Some(pc.fd)
  }

  /** The connection whose object a worker is reading or writing, on its way out included. */
  function WorkerTouches(pc: WorkerPc): Option<Fd> {
    if pc.WForget? || pc.WModfd? then Some(pc.fd) else WorkerHas(pc)
  }

  /** Exclusive ownership, in every interleaving and also when process_write fails, for every
      connection that was not accepted while its number was in use: while open it is in exactly one
      of epoll, main, the queue (once) and one worker, unless its append was refused by a full
      queue; a closed one is in none.  A connection a worker touches is touched by no other worker
      and not by main, is not queued, and cannot be returned by epoll_wait. */
  lemma OwnershipIsExclusive(t: State)
    requires Reachable(t)
    ensures forall fd: Fd :: fd !in t.crossed ==>
              ArmedAt(t, fd) + MainCount(t.main, fd) + multiset(t.queue)[fd] + Count(t.workers, Having(fd))
              == if fd in t.open && fd !in t.refused then 1 else 0
    ensures forall i | 0 <= i < |t.workers| && WorkerTouches(t.workers[i]).Some? ::
              var fd := WorkerTouches(t.workers[i]).value;
              fd !in t.crossed ==>
              && MainTouches(t.main) != Some(fd) && fd !in t.queue && ArmedAt(t, fd) == 0
              && (fd in t.open <==> WorkerHas(t.workers[i]).Some?)
              && (forall j | 0 <= j < |t.workers| && j != i :: WorkerTouches(t.workers[j]) != Some(fd))
  {
    hide Exclusive, Balanced, UsersCounted, Count;
    ReachableInvariant(t);
    forall fd: Fd | fd !in t.crossed
      ensures ArmedAt(t, fd) + MainCount(t.main, fd) + multiset(t.queue)[fd] + Count(t.workers, Having(fd))
              == if fd in t.open && fd !in t.refused then 1 else 0
    {
      assert Placed(t, fd);
    }
    forall i | 0 <= i < |t.workers| && WorkerTouches(t.workers[i]).Some?
      ensures var fd := WorkerTouches(t.workers[i]).value;
              fd !in t.crossed ==>
              && MainTouches(t.main) != Some(fd) && fd !in t.queue && ArmedAt(t, fd) == 0
              && (fd in t.open <==> WorkerHas(t.workers[i]).Some?)
              && (forall j | 0 <= j < |t.workers| && j != i :: WorkerTouches(t.workers[j]) != Some(fd))
    {
      var fd := WorkerTouches(t.workers[i]).value;
      if fd !in t.crossed {
        assert Placed(t, fd) && Known(t, fd);
        WorkerAlone(t, i);
      }
    }
  }

  lemma WorkerAlone(t: State, i: nat)
    requires i < |t.workers| && WorkerTouches(t.workers[i]).Some?
    requires Clean(t, WorkerTouches(t.workers[i]).value)
    ensures var fd := WorkerTouches(t.workers[i]).value;
            && MainTouches(t.main) != Some(fd) && fd !in t.queue && ArmedAt(t, fd) == 0
            && (fd in t.open <==> WorkerHas(t.workers[i]).Some?)
            && (forall j | 0 <= j < |t.workers| && j != i :: WorkerTouches(t.workers[j]) != Some(fd))
  {
    hide Count, Pending;
    var fd := WorkerTouches(t.workers[i]).value;
    CountUpdate(t.workers, i, t.workers[i], Having(fd));
    CountUpdate(t.workers, i, t.workers[i], LateOn(fd));
    forall j | 0 <= j < |t.workers| && j != i ensures WorkerTouches(t.workers[j]) != Some(fd) {
      if WorkerTouches(t.workers[j]) == Some(fd) {
        CountUpdate(t.workers, j, t.workers[j], Having(fd));
        CountUpdate(t.workers, j, t.workers[j], LateOn(fd));
        var k, l := if i < j then i else j, if i < j then j else i;
        if Having(fd)(t.workers[i]) && Having(fd)(t.workers[j]) {
          CountTwo(t.workers, k, l, Having(fd));
        } else if LateOn(fd)(t.workers[i]) && LateOn(fd)(t.workers[j]) {
          CountTwo(t.workers, k, l, LateOn(fd));
        }
      }
    }
  }

  /** The exact step at which exclusive ownership ends: a step puts a connection into two hands if and
      only if it accepts one on a number whose last owner, a worker, is past removefd and not out of
      process() yet. */
  lemma SharedStepIff(s: State, a: Action, fd: Fd)
    requires Clean(s, fd) && fd !in s.crossed && s.epoll.Keys <= s.open && Enabled(s, a)
    ensures Hands(Apply(s, a), fd) > 1 <==> Crosses(s, a, fd)
    ensures fd in Apply(s, a).crossed <==> Crosses(s, a, fd)
  {
    hide Count, Pending, Having, LateOn;
    CleanStep(s, a, fd);
    if a == OfMain(Accept(fd)) {
      assert Places(s, fd) == 0;
      AcceptTakes(s, fd);
    } else {
      OnlyAcceptCrosses(s, a, fd);
    }
  }

  lemma AcceptTakes(s: State, fd: Fd)
    requires MainEnabled(s, Accept(fd))
    ensures var t := MainStep(s, Accept(fd));
            Places(t, fd) == Places(s, fd) + 1 && Late(t, fd) == Late(s, fd)
  {
  }

  lemma OnlyAcceptCrosses(s: State, a: Action, fd: Fd)
    requires Enabled(s, a) && a != OfMain(Accept(fd))
    ensures fd in Apply(s, a).crossed ==> fd in s.crossed
  {
    hide MainStep, WorkerStep, MainEnabled, WorkerEnabled;
    match a
    case OfMain(m) => CrossedStays(s, m, fd);
    case OfWorker(i, w) => CrossedByMain(s, i, w);
  }

  /** The number of a connection is with one owner. */
  ghost function OneHand(fd: Fd): State -> bool {
    (s: State) => Hands(s, fd) <= 1
  }

  /** Over whole runs: a connection's number has one owner in every state passed if and only if the
      run never accepts a connection on it while a late worker is in its object. */
  lemma ExclusiveIff(s: State, actions: seq<Action>, t: State, fd: Fd)
    requires Started(s) && Run(Step, s, actions, t)
    ensures Always(Step, s, actions, OneHand(fd)) <==> !CrossesIn(s, actions, fd)
    ensures fd in t.crossed ==> CrossesIn(s, actions, fd)
  {
    hide Run, CrossesIn, Always;
    StartedInvariant(s);
    assert Placed(s, fd) && Known(s, fd);
    ExclusiveFrom(s, actions, t, fd);
  }

  lemma {:induction false} ExclusiveFrom(s: State, actions: seq<Action>, t: State, fd: Fd)
    requires Clean(s, fd) && fd !in s.crossed && s.epoll.Keys <= s.open && Run(Step, s, actions, t)
    ensures Always(Step, s, actions, OneHand(fd)) <==> !CrossesIn(s, actions, fd)
    ensures fd in t.crossed ==> CrossesIn(s, actions, fd)
    decreases |actions|
  {
    assert OneHand(fd)(s);
    hide Clean, Apply, Enabled, Crosses, Hands;
    if actions != [] {
      var u := Apply(s, actions[0]);
      SharedStepIff(s, actions[0], fd);
      CleanStep(s, actions[0], fd);
      KeysStep(s, actions[0]);
      if Crosses(s, actions[0], fd) {
        assert !OneHand(fd)(u);
      } else {
        ExclusiveFrom(u, actions[1..], t, fd);
      }
    }
  }

  lemma KeysStep(s: State, a: Action)
    requires s.epoll.Keys <= s.open && Enabled(s, a)
    ensures Apply(s, a).epoll.Keys <= Apply(s, a).open
  {
    hide MainStep, WorkerStep, MainEnabled, WorkerEnabled;
    match a
    case OfMain(m) => KeysMain(s, m);
    case OfWorker(i, w) => KeysWorker(s, i, w);
  }

  /** No worker is closing a connection. */
  ghost predicate Healthy(s: State) {
    forall i | 0 <= i < |s.workers| ::
      !s.workers[i].WFailed? && !s.workers[i].WForget? && !s.workers[i].WModfd?
  }

  lemma HealthyStep(s: State, a: Action)
    requires Healthy(s) && Enabled(s, a) && !(a.OfWorker? && a.w == BuildFails)
    ensures Healthy(Apply(s, a))
  {
    hide MainStep, WorkerStep, MainEnabled, WorkerEnabled;
    match a
    case OfMain(m) => MainLeavesWorkers(s, m);
    case OfWorker(i, w) => HealthyWorker(s, i, w);
  }

  lemma MainLeavesWorkers(s: State, a: MainAction)
    requires MainEnabled(s, a)
    ensures MainStep(s, a).workers == s.workers
  {
    hide Hands;
  }

  lemma HealthyWorker(s: State, i: nat, a: WorkerAction)
    requires Healthy(s) && WorkerEnabled(s, i, a) && a != BuildFails
    ensures Healthy(WorkerStep(s, i, a))
  {
  }

  lemma {:induction false} NeverCrosses(s: State, actions: seq<Action>, fd: Fd)
    requires Healthy(s) && WritesSucceed(actions)
    ensures !CrossesIn(s, actions, fd)
    decreases |actions|
  {
    hide Apply, Enabled;
    if actions != [] {
      CountAll(s.workers, LateOn(fd), false);
      if Enabled(s, actions[0]) {
        HealthyStep(s, actions[0]);
        NeverCrosses(Apply(s, actions[0]), actions[1..], fd);
      }
    }
  }

  /** When no process_write fails, ownership is exclusive for every connection in every state. */
  lemma ExclusiveWhenWritesSucceed(s: State, actions: seq<Action>, t: State, fd: Fd)
    requires Started(s) && WritesSucceed(actions) && Run(Step, s, actions, t)
    ensures Always(Step, s, actions, OneHand(fd)) && fd !in t.crossed
  {
    hide Run, CrossesIn, Always, WritesSucceed;
    NeverCrosses(s, actions, fd);
    ExclusiveIff(s, actions, t, fd);
  }

  /** The semaphore and the queue agree: a queued request always has a unit of the semaphore, a woken
      worker or a pending post to its name, whatever waits return early; when every wait succeeds the
      numbers are equal and a worker that holds the lock never finds the queue empty.  The users
      counted never exceed MAX_FD, and are those in epoll and those a worker is about to count out
      unless some number was accepted while in use. */
  lemma SemaphoreAccounts(t: State)
    requires Reachable(t)
    ensures |t.queue| <= t.sem + Count(t.workers, Woken) + Unposted(t.main)
    ensures !t.interrupted ==> |t.queue| == t.sem + Count(t.workers, Woken) + Unposted(t.main)
    ensures !t.interrupted ==> forall i | 0 <= i < |t.workers| && t.workers[i].WIn? :: t.queue != []
    ensures |t.queue| <= t.maxRequests + 1
    ensures t.userCount <= MAX_FD
    ensures !t.everCrossed ==> t.userCount == |t.epoll| + Count(t.workers, Forgetting)
  {
    hide OnePlace, Registered, Exclusive, Count;
    ReachableInvariant(t);
    if !t.interrupted {
      forall i | 0 <= i < |t.workers| && t.workers[i].WIn? ensures t.queue != [] {
        CountUpdate(t.workers, i, t.workers[i], Woken);
      }
    }
    assert |t.epoll| == |t.epoll.Keys|;
  }
}
