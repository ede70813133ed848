/** What a connection is armed for: output exactly while a reply that was built waits to be sent. */
module WebServerReplies {
  import opened Options
  import opened Runs
  import opened Sequences
  import opened WebServer
  import opened WebServerSafety

  /** Main takes the connection for one that has no reply to send. */
  predicate MainInput(pc: MainPc, fd: Fd) {
    (pc.Accepted? || pc.Named? || pc.Reading? || pc.AppendLock? || pc.AppendIn?) && pc.fd == fd
  }

  /** Somebody works on input of the connection, or has it queued for that. */
  ghost predicate InputHeld(s: State, fd: Fd) {
    MainInput(s.main, fd) || multiset(s.queue)[fd] > 0 || Count(s.workers, Having(fd)) > 0
  }

  /** A pending event asks main to do what the connection is in for. */
  predicate EventFits(e: Event, fd: Fd, unsent: bool) {
    e.fd == fd ==> (e.kind == Readable ==> !unsent) && (e.kind == Writable ==> unsent)
  }

  /** Main is about to close the connection. */
  predicate Leaving(pc: MainPc, fd: Fd) {
    ((pc.Finishing? && pc.close) || pc.Closing?) && pc.fd == fd
  }

  /** Armed for output exactly while a reply waits; read and processed only when none does, and written
      only when one does; ended connections are those on the point of being closed. */
  ghost predicate Tuned(s: State, fd: Fd) {
    && (fd in s.epoll && s.epoll[fd].Armed? ==> (s.epoll[fd].mask == Out <==> fd in s.unsent))
    && (InputHeld(s, fd) ==> fd !in s.unsent)
    && (s.main.Writing? && s.main.fd == fd ==> fd in s.unsent)
    && (forall k | 0 <= k < |Rest(s.main)| :: EventFits(Rest(s.main)[k], fd, fd in s.unsent))
    && (fd !in s.open ==> fd !in s.unsent && fd !in s.ended)
    && (fd in s.ended <==> Leaving(s.main, fd))
  }

  // ---------------------------------------------------------------- main

  lemma RestFits(rest: seq<Event>, fd: Fd, unsent: bool)
    requires rest != [] && forall k | 0 <= k < |rest| :: EventFits(rest[k], fd, unsent)
    ensures forall k | 0 <= k < |rest[1..]| :: EventFits(rest[1..][k], fd, unsent)
    ensures EventFits(rest[0], fd, unsent)
  {
  }

  /** A connection with no pending event fits whatever it is in for. */
  lemma {:induction false} NoneFits(rest: seq<Event>, fd: Fd, unsent: bool)
    requires Pending(rest, fd) == 0
    ensures forall k | 0 <= k < |rest| && rest[k].kind != Listen :: rest[k].fd != fd
    ensures forall k | 0 <= k < |rest| :: EventFits(rest[k], fd, unsent)
    decreases |rest|
  {
    if rest != [] {
      NoneFits(rest[1..], fd, unsent);
      assert forall k | 0 < k < |rest| :: rest[k] == rest[1..][k - 1];
    }
  }

  lemma WaitTuned(s: State, a: MainAction, fd: Fd)
    requires Clean(s, fd) && Tuned(s, fd) && MainEnabled(s, a) && a.EpollWait?
    ensures Tuned(MainStep(s, a), fd)
  {
    hide Count;
  }

  lemma InternalTuned(s: State, a: MainAction, fd: Fd)
    requires Clean(s, fd) && Tuned(s, fd) && MainEnabled(s, a) && Internal(a)
    ensures Tuned(MainStep(s, a), fd)
  {
    if a == TakeEvent {
      TakeTuned(s, fd);
    } else if a.ReadDone? || a.WriteDone? {
      EndSeenTuned(s, a, fd);
    } else {
      hide Count, Pending;
      if a == AcceptNone { RestFits(s.main.rest, fd, fd in s.unsent); }
    }
  }

  lemma TakeTuned(s: State, fd: Fd)
    requires Clean(s, fd) && Tuned(s, fd) && MainEnabled(s, TakeEvent)
    ensures Tuned(MainStep(s, TakeEvent), fd)
  {
    assert s.main.rest[0].fd == fd ==> MainCount(s.main, fd) > 0;
    if MainCount(s.main, fd) > 0 { WithMainOpen(s, fd); }
    hide Count, Pending, Placed, Known, MainCount;
    RestFits(s.main.rest, fd, fd in s.unsent);
  }

  /** read() and a failed write(). */
  lemma EndSeenTuned(s: State, a: MainAction, fd: Fd)
    requires Clean(s, fd) && Tuned(s, fd) && MainEnabled(s, a) && (a.ReadDone? || a == WriteDone(WriteFailed))
    ensures Tuned(MainStep(s, a), fd)
  {
    assert s.main.fd == fd ==> MainCount(s.main, fd) > 0;
    if MainCount(s.main, fd) > 0 { WithMainOpen(s, fd); }
    hide Count, Pending, Placed, Known, MainCount;
  }

  /** What main sees the end of is open. */
  lemma WithMainOpen(s: State, fd: Fd)
    requires Clean(s, fd) && MainCount(s.main, fd) > 0
    ensures fd in s.open
  {
    hide Count, MainCount;
  }

  lemma AcceptTuned(s: State, a: MainAction, fd: Fd)
    requires a.Accept? && MainEnabled(s, a) && s.epoll.Keys <= s.open
    requires fd !in s.crossed ==> Clean(s, fd) && Tuned(s, fd)
    ensures fd !in MainStep(s, a).crossed ==> Tuned(MainStep(s, a), fd)
  {
    hide Count;
    NoneIfIdle(s, fd);
    if fd != a.fd {
      if fd !in s.crossed { RestFits(s.main.rest, fd, fd in s.unsent); }
    }
  }

  lemma NoneIfIdle(s: State, fd: Fd)
    ensures Hands(s, fd) == 0 ==> forall k | 0 <= k < |Rest(s.main)| :: EventFits(Rest(s.main)[k], fd, false)
  {
    if Hands(s, fd) == 0 { NoneFits(Rest(s.main), fd, false); }
  }

  lemma NameTuned(s: State, fd: Fd)
    requires Clean(s, fd) && Tuned(s, fd) && MainEnabled(s, Name)
    ensures Tuned(MainStep(s, Name), fd)
  {
    hide Count, Pending;
  }

  lemma ArmTuned(s: State, fd: Fd)
    requires Clean(s, fd) && Tuned(s, fd) && MainEnabled(s, Arm)
    ensures Tuned(MainStep(s, Arm), fd)
  {
    hide Count, Pending, Having, LateOn;
  }

  lemma PushTuned(s: State, fd: Fd)
    requires Clean(s, fd) && Tuned(s, fd) && MainEnabled(s, Push)
    ensures Tuned(MainStep(s, Push), fd)
  {
    PushEffect(s, fd);
    PushRest(s);
    QueueEnds(s.queue, s.main.fd, fd);
    hide Count, MainStep, MainCount;
  }

  lemma PushRest(s: State)
    requires MainEnabled(s, Push)
    ensures var t := MainStep(s, Push);
            Rest(t.main) == Rest(s.main) && t.unsent == s.unsent && t.ended == s.ended && s.main.AppendIn?
  {
  }

  lemma CloseTuned(s: State, fd: Fd)
    requires Clean(s, fd) && Tuned(s, fd) && MainEnabled(s, Close)
    ensures Tuned(MainStep(s, Close), fd)
  {
    CloseEffect(s, fd);
    if s.main.fd == fd {
      NoneFits(s.main.rest, fd, false);
    }
    hide Count, Having, LateOn, MainStep, Pending;
  }

  lemma CloseEffect(s: State, fd: Fd)
    requires Clean(s, fd) && MainEnabled(s, Close)
    ensures var t := MainStep(s, Close);
            && t.main == Dispatch(s.main.rest) && t.workers == s.workers && t.queue == s.queue
            && (s.main.fd == fd ==>
                  && fd !in t.epoll && fd !in t.open && fd !in t.unsent && fd !in t.ended
                  && Pending(s.main.rest, fd) == 0
                  && Count(s.workers, Having(fd)) == 0 && multiset(s.queue)[fd] == 0)
            && (s.main.fd != fd ==>
                  && (fd in t.epoll <==> fd in s.epoll) && (fd in s.epoll ==> t.epoll[fd] == s.epoll[fd])
                  && (fd in t.open <==> fd in s.open)
                  && (fd in t.unsent <==> fd in s.unsent) && (fd in t.ended <==> fd in s.ended))
  {
    hide Count, Having, LateOn, Pending;
  }

  lemma WriteTuned(s: State, a: MainAction, fd: Fd)
    requires Clean(s, fd) && Tuned(s, fd) && MainEnabled(s, a) && a.WriteDone? && !a.outcome.WriteFailed?
    ensures Tuned(MainStep(s, a), fd)
  {
    hide Count;
    if s.main.fd == fd { NoneFits(s.main.rest, fd, false); NoneFits(s.main.rest, fd, true); }
  }

  lemma MainTuned(s: State, a: MainAction, fd: Fd)
    requires s.epoll.Keys <= s.open && (fd !in s.crossed ==> Clean(s, fd) && Tuned(s, fd)) && MainEnabled(s, a)
    ensures fd !in MainStep(s, a).crossed ==> Tuned(MainStep(s, a), fd)
  {
    hide Clean, Tuned, MainStep;
    if a.Accept? {
      AcceptTuned(s, a, fd);
    } else {
      CrossedStays(s, a, fd);
      if fd !in s.crossed {
        if Internal(a) {
          InternalTuned(s, a, fd);
        } else if a.EpollWait? {
          WaitTuned(s, a, fd);
        } else if a.WriteDone? {
          WriteTuned(s, a, fd);
        } else {
          match a
          case Name => NameTuned(s, fd);
          case Arm => ArmTuned(s, fd);
          case Push => PushTuned(s, fd);
          case _ => CloseTuned(s, fd);
        }
      }
    }
  }

  // ---------------------------------------------------------------- workers

  lemma QuietTuned(s: State, i: nat, a: WorkerAction, fd: Fd)
    requires Clean(s, fd) && Tuned(s, fd) && WorkerEnabled(s, i, a) && Quiet(a)
    ensures Tuned(WorkerStep(s, i, a), fd)
  {
    QuietKeeps(s, i, a, fd);
    WorkerHistory(s, i, a);
    hide Count, WorkerStep, WorkerEnabled, Having, LateOn;
    CountUpdate(s.workers, i, WorkerStep(s, i, a).workers[i], Having(fd));
  }

  lemma WorkerHistory(s: State, i: nat, a: WorkerAction)
    requires WorkerEnabled(s, i, a)
    ensures var t := WorkerStep(s, i, a);
            && (a != Built && a != Remove ==> t.unsent == s.unsent && t.ended == s.ended)
  {
  }

  lemma PopTuned(s: State, i: nat, fd: Fd)
    requires Clean(s, fd) && Tuned(s, fd) && WorkerEnabled(s, i, Pop)
    ensures Tuned(WorkerStep(s, i, Pop), fd)
  {
    PopEffect(s, i, fd);
    WorkerHistory(s, i, Pop);
    hide Count, WorkerStep, WorkerEnabled, Having, LateOn;
    CountUpdate(s.workers, i, WorkerStep(s, i, Pop).workers[i], Having(fd));
    QueueEnds(s.queue, 0, fd);
  }

  /** Re-arming after the input asks for more, or a reply was built. */
  lemma RearmTuned(s: State, i: nat, a: WorkerAction, fd: Fd)
    requires Clean(s, fd) && Tuned(s, fd) && WorkerEnabled(s, i, a) && a in {NeedMore, Built}
    ensures Tuned(WorkerStep(s, i, a), fd)
  {
    var t := WorkerStep(s, i, a);
    RearmHistory(s, i, a, fd);
    RearmEffect(s, i, a, fd);
    hide Count, WorkerStep, WorkerEnabled, LateOn, Pending;
    CountUpdate(s.workers, i, WTop, Having(fd));
    if Having(fd)(s.workers[i]) {
      hide Having;
      HeldByWorker(s, i, fd);
    }
  }

  lemma RearmHistory(s: State, i: nat, a: WorkerAction, fd: Fd)
    requires Clean(s, fd) && WorkerEnabled(s, i, a) && a in {NeedMore, Built}
    ensures var t := WorkerStep(s, i, a);
            && t.ended == s.ended && t.main == s.main
            && (Having(fd)(s.workers[i]) ==>
                  && fd in t.epoll && t.epoll[fd] == Armed(if a == Built then Out else In)
                  && (fd in t.unsent <==> a == Built || fd in s.unsent))
            && (!Having(fd)(s.workers[i]) ==> (fd in t.unsent <==> fd in s.unsent))
  {
    assert Entering(s.main, fd) ==> MainCount(s.main, fd) > 0;
    hide Count, MainCount;
    CountUpdate(s.workers, i, WTop, Having(fd));
  }

  /** What a worker has, nobody else has. */
  lemma HeldByWorker(s: State, i: nat, fd: Fd)
    requires Clean(s, fd) && i < |s.workers| && Having(fd)(s.workers[i])
    ensures fd in s.open && !MainInput(s.main, fd) && multiset(s.queue)[fd] == 0 && Count(s.workers, Having(fd)) == 1
    ensures !(s.main.Writing? && s.main.fd == fd) && !Leaving(s.main, fd)
    ensures forall k, unsent | 0 <= k < |Rest(s.main)| :: EventFits(Rest(s.main)[k], fd, unsent)
  {
    CountUpdate(s.workers, i, s.workers[i], Having(fd));
    NoneFits(Rest(s.main), fd, true);
    NoneFits(Rest(s.main), fd, false);
    hide Count, Pending;
  }

  lemma RemoveTuned(s: State, i: nat, fd: Fd)
    requires Clean(s, fd) && Tuned(s, fd) && WorkerEnabled(s, i, Remove)
    ensures Tuned(WorkerStep(s, i, Remove), fd)
  {
    RemoveEffect(s, i, fd);
    RemoveHistory(s, i, fd);
    hide Count, WorkerStep, WorkerEnabled, LateOn, Pending;
    CountUpdate(s.workers, i, WorkerStep(s, i, Remove).workers[i], Having(fd));
    if Having(fd)(s.workers[i]) {
      hide Having;
      HeldByWorker(s, i, fd);
    }
  }

  lemma RemoveHistory(s: State, i: nat, fd: Fd)
    requires Clean(s, fd) && WorkerEnabled(s, i, Remove)
    ensures var t := WorkerStep(s, i, Remove);
            && (fd in t.unsent <==> fd in s.unsent && !Having(fd)(s.workers[i]))
            && (fd in t.ended <==> fd in s.ended && !Having(fd)(s.workers[i]))
  {
    assert Entering(s.main, fd) ==> MainCount(s.main, fd) > 0;
    hide Count, MainCount;
    CountUpdate(s.workers, i, WTop, Having(fd));
  }

  lemma LateTuned(s: State, i: nat, a: WorkerAction, fd: Fd)
    requires Clean(s, fd) && Tuned(s, fd) && WorkerEnabled(s, i, a) && a in {Forget, LateModfd}
    ensures Tuned(WorkerStep(s, i, a), fd)
  {
    LateEffect(s, i, a, fd);
    WorkerHistory(s, i, a);
    hide Count, WorkerStep, WorkerEnabled, Having, LateOn, Pending;
    CountUpdate(s.workers, i, WorkerStep(s, i, a).workers[i], Having(fd));
  }

  lemma LateEffect(s: State, i: nat, a: WorkerAction, fd: Fd)
    requires Clean(s, fd) && WorkerEnabled(s, i, a) && a in {Forget, LateModfd}
    ensures var t := WorkerStep(s, i, a);
            && t.open == s.open && t.queue == s.queue && t.main == s.main
            && i < |s.workers| == |t.workers| && t.workers == s.workers[i := t.workers[i]]
            && !Having(fd)(s.workers[i]) && !Having(fd)(t.workers[i])
            && (fd in t.epoll <==> fd in s.epoll) && (fd in s.epoll ==> t.epoll[fd] == s.epoll[fd])
  {
    hide Count, MainCount;
    CountUpdate(s.workers, i, WTop, LateOn(fd));
  }

  lemma WorkerTuned(s: State, i: nat, a: WorkerAction, fd: Fd)
    requires Clean(s, fd) && Tuned(s, fd) && WorkerEnabled(s, i, a)
    ensures Tuned(WorkerStep(s, i, a), fd)
  {
    hide Clean, Tuned, WorkerStep;
    match a
    case Pop => PopTuned(s, i, fd);
    case NeedMore => RearmTuned(s, i, a, fd);
    case Built => RearmTuned(s, i, a, fd);
    case Remove => RemoveTuned(s, i, fd);
    case Forget => LateTuned(s, i, a, fd);
    case LateModfd => LateTuned(s, i, a, fd);
    case _ => QuietTuned(s, i, a, fd);
  }

  // ---------------------------------------------------------------- whole runs

  ghost predicate AllTuned(s: State) {
    && Invariant(s)
    && forall fd: Fd :: fd !in s.crossed ==> Tuned(s, fd)
  }

  lemma TunedStep(s: State, a: Action, fd: Fd)
    requires s.epoll.Keys <= s.open && (fd !in s.crossed ==> Clean(s, fd) && Tuned(s, fd)) && Enabled(s, a)
    ensures fd !in Apply(s, a).crossed ==> Tuned(Apply(s, a), fd)
  {
    hide Clean, Tuned, MainStep, WorkerStep, MainEnabled, WorkerEnabled;
    match a
    case OfMain(m) => MainTuned(s, m, fd);
    case OfWorker(i, w) =>
      CrossedByMain(s, i, w);
      if fd !in s.crossed { WorkerTuned(s, i, w, fd); }
  }

  lemma AllTunedStep(s: State, a: Action)
    requires AllTuned(s) && Enabled(s, a)
    ensures AllTuned(Apply(s, a))
  {
    InvariantStep(s, a);
    hide Apply, Enabled, Placed, Known, Tuned, UsersCounted, Exclusive, Balanced;
    forall fd: Fd | fd !in Apply(s, a).crossed ensures Tuned(Apply(s, a), fd) {
      TunedStep(s, a, fd);
    }
  }

  lemma StartedTuned(s: State)
    requires Started(s)
    ensures AllTuned(s)
  {
    StartedInvariant(s);
    hide Invariant;
    forall fd: Fd ensures Tuned(s, fd) {
      CountAll(s.workers, Having(fd), false);
    }
  }

  lemma ReachableTuned(t: State)
    requires Reachable(t)
    ensures AllTuned(t)
  {
    hide AllTuned, Apply, Enabled;
    var s, actions :| Started(s) && Run(Step, s, actions, t);
    StartedTuned(s);
    forall u: State, a: Action | AllTuned(u) && Step(u, a).Some? ensures AllTuned(Step(u, a).value) {
      AllTunedStep(u, a);
    }
    RunKeeps(Step, AllTuned, s, actions, t);
  }

  /** In every reachable state, for each connection not accepted on a number in use: if armed, it is
      armed for output exactly when a reply built for it has not been sent yet; main writes only such
      a connection, and it and the workers read, queue and parse only others.  A reply that waits is
      therefore either armed for output or already with main.  And main closes exactly the connections
      it has seen the end of (a fault, a failed read or write, a reply sent without keep-alive), each
      before it looks at its next event. */
  lemma ArmedForReply(t: State, fd: Fd)
    requires Reachable(t) && fd !in t.crossed
    ensures fd in t.epoll && t.epoll[fd].Armed? ==> (t.epoll[fd].mask == Out <==> fd in t.unsent)
    ensures t.main.Writing? && t.main.fd == fd ==> fd in t.unsent
    ensures t.main.Reading? && t.main.fd == fd ==> fd !in t.unsent
    ensures forall i | 0 <= i < |t.workers| && WorkerHas(t.workers[i]) == Some(fd) :: fd !in t.unsent
    ensures fd in t.unsent && fd !in t.refused ==>
              (fd in t.epoll && t.epoll[fd] == Armed(Out)) || MainCount(t.main, fd) > 0
    ensures fd in t.ended <==> ((t.main.Closing? || (t.main.Finishing? && t.main.close)) && t.main.fd == fd)
  {
    hide Reachable, UsersCounted, Exclusive, Balanced, Count, Having;
    ReachableTuned(t);
    assert Tuned(t, fd) && Placed(t, fd) && Known(t, fd);
    forall i | 0 <= i < |t.workers| && WorkerHas(t.workers[i]) == Some(fd) ensures fd !in t.unsent {
      HasCounts(t, i, fd);
    }
  }

  lemma HasCounts(t: State, i: nat, fd: Fd)
    requires i < |t.workers| && WorkerHas(t.workers[i]) == Some(fd)
    ensures Count(t.workers, Having(fd)) > 0
  {
    CountUpdate(t.workers, i, t.workers[i], Having(fd));
  }

  /** A connection is refused exactly by an append that finds max_requests + 1 requests queued. */
  lemma RefusedIff(s: State, a: Action, fd: Fd)
    requires Balanced(s) && Enabled(s, a) && fd !in s.refused
    ensures fd in Apply(s, a).refused
            <==> a == OfMain(Push) && s.main.fd == fd && |s.queue| == s.maxRequests + 1
  {
    hide MainStep, WorkerStep, Count;
    match a
    case OfMain(m) => MainRefuses(s, m, fd);
    case OfWorker(i, w) => WorkerRefusesNone(s, i, w);
  }

  lemma MainRefuses(s: State, a: MainAction, fd: Fd)
    requires MainEnabled(s, a) && fd !in s.refused
    ensures fd in MainStep(s, a).refused <==> a == Push && s.main.fd == fd && |s.queue| > s.maxRequests
  {
    hide Hands;
  }

  lemma WorkerRefusesNone(s: State, i: nat, a: WorkerAction)
    requires WorkerEnabled(s, i, a)
    ensures WorkerStep(s, i, a).refused == s.refused
  {
  }
}
