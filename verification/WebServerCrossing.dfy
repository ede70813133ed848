/** What happens when a connection is accepted on a number whose last owner is still in process():
    runs in which two threads work on one http_conn, epoll gives a connection out twice, and
    m_user_count goes below zero. */
module WebServerCrossing {
  import opened Options
  import opened Runs
  import opened Sequences
  import opened WebServer
  import opened WebServerSafety

  /** One worker, no connection. */
  const START := State({}, {}, map[], 0, [], 10000, 0, Free, Waiting, [WTop], {}, {}, false, {}, {}, 0, false)

  /** Connection 5 for the second time. */
  const TAKEN := START.(open := {5}, named := {5}, epoll := map[5 := Disarmed], userCount := 1,
                        crossed := {5}, everCrossed := true)

  lemma Extend(s: State, actions: seq<Action>, t: State, a: Action) returns (longer: seq<Action>, u: State)
    requires Run(Step, s, actions, t) && Enabled(t, a)
    ensures longer == actions + [a] && u == Apply(t, a) && Run(Step, s, longer, u)
  {
    hide Enabled, Apply;
    RunSnoc(Step, s, actions, t, a);
    longer, u := actions + [a], Apply(t, a);
  }

  /** Connection 5 is accepted while worker 0 is at `w` ... */
  lemma Arrives(before: seq<Action>, w: WorkerPc) returns (actions: seq<Action>, t: State)
    requires w == WTop || w == WModfd(5)
    requires Run(Step, START, before, START.(workers := [w]))
    ensures Run(Step, START, actions, t)
    ensures t == START.(open := {5}, named := {5}, epoll := map[5 := Armed(In)], userCount := 1, workers := [w],
                        crossed := if w == WTop then {} else {5}, everCrossed := w != WTop)
  {
    hide Hands;
    actions, t := IsArmed(before, w);
    actions, t := Extend(START, actions, t, OfMain(Finish));
    actions, t := Extend(START, actions, t, OfMain(EndOfBatch));
  }

  lemma IsArmed(before: seq<Action>, w: WorkerPc) returns (actions: seq<Action>, t: State)
    requires w == WTop || w == WModfd(5)
    requires Run(Step, START, before, START.(workers := [w]))
    ensures Run(Step, START, actions, t)
    ensures t == START.(open := {5}, named := {5}, epoll := map[5 := Armed(In)], userCount := 1, workers := [w],
                        crossed := if w == WTop then {} else {5}, everCrossed := w != WTop,
                        main := Finishing(5, false, []))
  {
    actions, t := IsAccepted(before, w);
    hide Hands;
    actions, t := Extend(START, actions, t, OfMain(Name));
    actions, t := Extend(START, actions, t, OfMain(Arm));
  }

  lemma IsAccepted(before: seq<Action>, w: WorkerPc) returns (actions: seq<Action>, t: State)
    requires w == WTop || w == WModfd(5)
    requires Run(Step, START, before, START.(workers := [w]))
    ensures Run(Step, START, actions, t)
    ensures t == START.(open := {5}, workers := [w], main := Accepted(5, []),
                        crossed := if w == WTop then {} else {5}, everCrossed := w != WTop)
  {
    hide Hands;
    var listen := [Event(3, Listen)];
    assert listen[1..] == [];
    actions, t := before, START.(workers := [w]);
    actions, t := Extend(START, actions, t, OfMain(EpollWait(listen)));
    assert t.epoll == map[];
    assert t == START.(workers := [w], main := Dispatch(listen));
    LateInHand(t, w);
    actions, t := Extend(START, actions, t, OfMain(Accept(5)));
  }

  lemma LateInHand(s: State, w: WorkerPc)
    requires w == WTop || w == WModfd(5)
    requires s == START.(workers := [w], main := Dispatch([Event(3, Listen)]))
    ensures Hands(s, 5) == if w == WTop then 0 else 1
  {
    CountUpdate(s.workers, 0, WTop, LateOn(5));
    CountUpdate(s.workers, 0, WTop, Having(5));
    assert Pending(s.main.rest, 5) == 0;
  }

  /** ... becomes readable and is read ... */
  lemma IsReported() returns (actions: seq<Action>, t: State)
    ensures Run(Step, START, actions, t)
    ensures t == START.(open := {5}, named := {5}, epoll := map[5 := Disarmed], userCount := 1,
                        main := Reading(5, []))
  {
    var readable := [Event(5, Readable)];
    assert readable[1..] == [];
    assert START == START.(workers := [WTop]);
    actions, t := Arrives([], WTop);
    hide Hands;
    actions, t := Extend(START, actions, t, OfMain(EpollWait(readable)));
    assert readable[0] == Event(5, Readable);
    assert t.epoll == map[5 := Disarmed];
    actions, t := Extend(START, actions, t, OfMain(TakeEvent));
  }

  lemma IsRead() returns (actions: seq<Action>, t: State)
    ensures Run(Step, START, actions, t)
    ensures t == START.(open := {5}, named := {5}, epoll := map[5 := Disarmed], userCount := 1,
                        main := AppendLock(5, []))
  {
    hide Hands;
    actions, t := IsReported();
    actions, t := Extend(START, actions, t, OfMain(ReadDone(true)));
  }

  /** ... is queued ... */
  lemma IsPushed() returns (actions: seq<Action>, t: State)
    ensures Run(Step, START, actions, t)
    ensures t == START.(open := {5}, named := {5}, epoll := map[5 := Disarmed], userCount := 1, queue := [5],
                        lock := Main, main := AppendUnlock(true, []))
  {
    hide Hands;
    actions, t := IsRead();
    actions, t := Extend(START, actions, t, OfMain(Lock));
    actions, t := Extend(START, actions, t, OfMain(Push));
  }

  lemma IsQueued() returns (actions: seq<Action>, t: State)
    ensures Run(Step, START, actions, t)
    ensures t == START.(open := {5}, named := {5}, epoll := map[5 := Disarmed], userCount := 1, queue := [5], sem := 1)
  {
    hide Hands;
    actions, t := IsPushed();
    actions, t := Extend(START, actions, t, OfMain(Unlock));
    actions, t := Extend(START, actions, t, OfMain(Post));
    actions, t := Extend(START, actions, t, OfMain(EndOfBatch));
  }

  /** ... is popped ... */
  lemma IsPopped() returns (actions: seq<Action>, t: State)
    ensures Run(Step, START, actions, t)
    ensures t == START.(open := {5}, named := {5}, epoll := map[5 := Disarmed], userCount := 1,
                        workers := [WOut(Some(5))], lock := Worker(0))
  {
    actions, t := IsQueued();
    var u := t;
    actions, t := Extend(START, actions, t, OfWorker(0, Wait(true)));
    assert t == u.(sem := 0, workers := [WWoken(true)]);
    actions, t := Extend(START, actions, t, OfWorker(0, LockQueue));
    assert t == u.(sem := 0, workers := [WIn(true)], lock := Worker(0));
    PopTheOne(t);
    actions, t := Extend(START, actions, t, OfWorker(0, Pop));
  }

  lemma PopTheOne(s: State)
    requires s.queue == [5] && s.workers == [WIn(true)]
    ensures WorkerEnabled(s, 0, Pop) && WorkerStep(s, 0, Pop) == s.(queue := [], workers := [WOut(Some(5))])
  {
    assert [5][1..] == [] && s.queue[0] == 5;
    assert s.workers[0 := WOut(Some(5))] == [WOut(Some(5))];
  }

  /** ... and reaches process_write ... */
  lemma IsBuilt() returns (actions: seq<Action>, t: State)
    ensures Run(Step, START, actions, t)
    ensures t == START.(open := {5}, named := {5}, epoll := map[5 := Disarmed], userCount := 1, workers := [WBuild(5)])
  {
    actions, t := IsPopped();
    actions, t := Extend(START, actions, t, OfWorker(0, UnlockQueue));
    actions, t := Extend(START, actions, t, OfWorker(0, Parsed));
  }

  /** ... which fails: the worker closes the descriptor ... */
  lemma IsRemoved() returns (actions: seq<Action>, t: State)
    ensures Run(Step, START, actions, t)
    ensures t == START.(named := {5}, userCount := 1, workers := [WForget(5)])
  {
    actions, t := IsBuilt();
    actions, t := Extend(START, actions, t, OfWorker(0, BuildFails));
    assert t.workers == [WFailed(5)];
    actions, t := Extend(START, actions, t, OfWorker(0, Remove));
    assert t.workers == [WForget(5)] && t.epoll == map[] && t.open == {};
  }

  /** The condition can fail: after a failed process_write the worker closes the descriptor first and
      forgets it later, and in between main can accept a new connection with the same number, so
      both work on the same http_conn. */
  lemma FailedWriteOverlaps() returns (actions: seq<Action>, t: State)
    ensures Started(START) && Run(Step, START, actions, t) && |t.workers| == 1
    ensures MainTouches(t.main) == Some(5) && WorkerTouches(t.workers[0]) == Some(5)
  {
    var listen := [Event(3, Listen)];
    actions, t := IsRemoved();
    actions, t := Extend(START, actions, t, OfMain(EpollWait(listen)));
    actions, t := Extend(START, actions, t, OfMain(Accept(5)));
  }

  lemma ArrivesAgain() returns (actions: seq<Action>, t: State)
    ensures Run(Step, START, actions, t)
    ensures t == START.(open := {5}, named := {5}, epoll := map[5 := Armed(In)], userCount := 1,
                        workers := [WModfd(5)], crossed := {5}, everCrossed := true)
  {
    actions, t := IsRemoved();
    actions, t := Extend(START, actions, t, OfWorker(0, Forget));
    assert t == START.(workers := [WModfd(5)]);
    actions, t := Arrives(actions, WModfd(5));
  }

  /** The number is forgotten, accepted again, registered and reported readable before the worker
      gets to its last modfd ... */
  lemma IsReadAgain() returns (actions: seq<Action>, t: State)
    ensures Run(Step, START, actions, t)
    ensures t == START.(open := {5}, named := {5}, epoll := map[5 := Disarmed], userCount := 1,
                        workers := [WModfd(5)], crossed := {5}, everCrossed := true, main := Reading(5, []))
  {
    var readable := [Event(5, Readable)];
    assert readable[1..] == [];
    hide Hands;
    actions, t := ArrivesAgain();
    actions, t := Extend(START, actions, t, OfMain(EpollWait(readable)));
    assert readable[0] == Event(5, Readable);
    assert t.epoll == map[5 := Disarmed];
    actions, t := Extend(START, actions, t, OfMain(TakeEvent));
  }

  /** ... which then arms a connection main is reading ... */
  lemma IsArmedTwice() returns (actions: seq<Action>, t: State)
    ensures Run(Step, START, actions, t)
    ensures t == TAKEN.(epoll := map[5 := Armed(Out)], main := Reading(5, []))
  {
    hide Hands;
    actions, t := IsReadAgain();
    actions, t := Extend(START, actions, t, OfWorker(0, LateModfd));
    assert t.workers == [WTop] && t.epoll == map[5 := Armed(Out)];
  }

  /** ... so that epoll_wait can return it again while main, the queue or a worker has it. */
  lemma LateModfdRearms() returns (actions: seq<Action>, t: State)
    ensures Started(START) && Run(Step, START, actions, t)
    ensures MainHas(t.main) == Some(5) && ArmedAt(t, 5) == 1
  {
    actions, t := IsArmedTwice();
  }

  lemma IsPushedAgain() returns (actions: seq<Action>, t: State)
    ensures Run(Step, START, actions, t)
    ensures t == TAKEN.(epoll := map[5 := Armed(Out)], queue := [5], lock := Main, main := AppendUnlock(true, []))
  {
    hide Hands;
    actions, t := IsArmedTwice();
    actions, t := Extend(START, actions, t, OfMain(ReadDone(true)));
    actions, t := Extend(START, actions, t, OfMain(Lock));
    actions, t := Extend(START, actions, t, OfMain(Push));
  }

  lemma IsQueuedAgain() returns (actions: seq<Action>, t: State)
    ensures Run(Step, START, actions, t)
    ensures t == TAKEN.(epoll := map[5 := Armed(Out)], queue := [5], sem := 1)
  {
    hide Hands;
    actions, t := IsPushedAgain();
    actions, t := Extend(START, actions, t, OfMain(Unlock));
    actions, t := Extend(START, actions, t, OfMain(Post));
    actions, t := Extend(START, actions, t, OfMain(EndOfBatch));
  }

  /** It is returned as writable: main is in write() with the request still queued. */
  lemma IsWritten() returns (actions: seq<Action>, t: State)
    ensures Run(Step, START, actions, t)
    ensures t == TAKEN.(queue := [5], sem := 1, main := Writing(5, []))
  {
    var writable := [Event(5, Writable)];
    assert writable[1..] == [];
    hide Hands;
    actions, t := IsQueuedAgain();
    actions, t := Extend(START, actions, t, OfMain(EpollWait(writable)));
    assert writable[0] == Event(5, Writable);
    assert t.epoll == map[5 := Disarmed];
    actions, t := Extend(START, actions, t, OfMain(TakeEvent));
  }

  lemma IsPoppedAgain() returns (actions: seq<Action>, t: State)
    ensures Run(Step, START, actions, t)
    ensures t == TAKEN.(main := Writing(5, []), workers := [WOut(Some(5))], lock := Worker(0))
  {
    hide Hands;
    actions, t := IsWritten();
    var u := t;
    actions, t := Extend(START, actions, t, OfWorker(0, Wait(true)));
    assert t == u.(sem := 0, workers := [WWoken(true)]);
    actions, t := Extend(START, actions, t, OfWorker(0, LockQueue));
    assert t == u.(sem := 0, workers := [WIn(true)], lock := Worker(0));
    PopTheOne(t);
    actions, t := Extend(START, actions, t, OfWorker(0, Pop));
  }

  lemma FailsAgain() returns (actions: seq<Action>, t: State)
    ensures Run(Step, START, actions, t)
    ensures t == TAKEN.(main := Writing(5, []), workers := [WFailed(5)])
  {
    hide Hands;
    actions, t := IsPoppedAgain();
    actions, t := Extend(START, actions, t, OfWorker(0, UnlockQueue));
    assert t.workers == [WRead(5)];
    actions, t := Extend(START, actions, t, OfWorker(0, Parsed));
    assert t.workers == [WBuild(5)];
    actions, t := Extend(START, actions, t, OfWorker(0, BuildFails));
    assert t.workers == [WFailed(5)];
  }

  lemma ClosesOnce() returns (actions: seq<Action>, t: State)
    ensures Run(Step, START, actions, t)
    ensures t == TAKEN.(main := Writing(5, []), workers := [WForget(5)], epoll := map[], open := {})
  {
    hide Hands;
    actions, t := FailsAgain();
    actions, t := Extend(START, actions, t, OfWorker(0, Remove));
    assert t.workers == [WForget(5)] && t.epoll == map[] && t.open == {};
  }

  /** Main and the worker then both close the connection: m_user_count counts it out twice, and is
      negative with no connection left. */
  lemma CountedOutTwice() returns (actions: seq<Action>, t: State)
    ensures Started(START) && Run(Step, START, actions, t)
    ensures t.userCount == -1 && t.epoll == map[] && t.open == {}
    ensures forall i | 0 <= i < |t.workers| :: !Forgetting(t.workers[i])
  {
    hide Hands;
    actions, t := ClosesOnce();
    actions, t := Extend(START, actions, t, OfMain(WriteDone(WriteFailed)));
    actions, t := Extend(START, actions, t, OfMain(Close));
    actions, t := Extend(START, actions, t, OfWorker(0, Forget));
    assert t.workers == [WModfd(5)];
  }
}
