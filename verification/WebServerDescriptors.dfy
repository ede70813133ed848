/** The index of users[connfd]: accept() returns the least number not in use, and other descriptors
    than those of clients are in use too. */
module WebServerDescriptors {
  import opened Runs
  import opened Sequences
  import opened WebServer
  import opened WebServerSafety
  import opened WebServerCrossing

  ghost predicate LeastUnused(used: set<Fd>, fd: Fd) {
    fd !in used && forall n: Fd :: n < fd ==> n in used
  }

  /** While main looks at its events, m_user_count is at least the number of open connections. */
  lemma OpenCounted(t: State)
    requires Invariant(t) && !t.everCrossed && t.main.Dispatch?
    ensures |t.open| <= t.userCount
  {
    hide Placed, Exclusive, Balanced;
    forall fd: Fd ensures fd in t.epoll.Keys <==> fd in t.open {
      assert Known(t, fd);
    }
    assert t.epoll.Keys == t.open;
  }

  /** The descriptors below `n`. */
  ghost function Below(n: nat): (s: set<Fd>)
    ensures |s| == n && forall fd: Fd :: fd in s <==> fd < n
  {
    if n == 0 then {} else Below(n - 1) + {n - 1}
  }

  lemma SubsetSize(a: set<Fd>, b: set<Fd>)
    requires a <= b
    ensures |a| <= |b|
  {
    assert b == a + (b - a);
  }

  /** The index is in bounds exactly when some number below MAX_FD is not in use, and so when the
      clients counted and the descriptors of other kinds together are fewer than MAX_FD.  The source
      tests the clients alone. */
  lemma IndexInBounds(t: State, others: set<Fd>, fd: Fd)
    requires Reachable(t) && !t.everCrossed && MainEnabled(t, Accept(fd)) && LeastUnused(t.open + others, fd)
    ensures t.userCount + |others| < MAX_FD ==> fd < MAX_FD
    ensures fd < MAX_FD <==> !(Below(MAX_FD) <= t.open + others)
  {
    hide Invariant, Reachable;
    ReachableInvariant(t);
    OpenCounted(t);
    if fd >= MAX_FD {
      SubsetSize(Below(MAX_FD), t.open + others);
      assert t.open + others == t.open + (others - t.open);
      SubsetSize(others - t.open, others);
    }
  }

  // ---------------------------------------------------------------- the test is not enough

  /** Standard input, output and error, the listener and the epoll descriptor. */
  const FIRST: Fd := 5

  ghost function Clients(n: nat): (s: set<Fd>)
    ensures forall fd: Fd :: fd in s <==> FIRST <= fd < FIRST + n
  {
    if n == 0 then {} else Clients(n - 1) + {FIRST + n - 1}
  }

  ghost function AllArmed(n: nat): (m: map<Fd, Arm>)
    ensures m.Keys == Clients(n)
  {
    if n == 0 then map[] else AllArmed(n - 1)[FIRST + n - 1 := Armed(In)]
  }

  /** `n` connections wait for their first request. */
  ghost function Serving(n: nat): State {
    START.(open := Clients(n), named := Clients(n), epoll := AllArmed(n), userCount := n)
  }

  lemma NobodyHas(s: State, fd: Fd)
    requires s.main == Dispatch([Event(3, Listen)]) && s.workers == [WTop] && s.queue == [] && fd !in s.epoll
    ensures Hands(s, fd) == 0
  {
    CountUpdate(s.workers, 0, WTop, LateOn(fd));
    CountUpdate(s.workers, 0, WTop, Having(fd));
    assert Pending(s.main.rest, fd) == 0;
  }

  /** The listener is ready. */
  lemma Knocks(before: seq<Action>, n: nat) returns (actions: seq<Action>, t: State)
    requires Run(Step, START, before, Serving(n))
    ensures Run(Step, START, actions, t) && t == Serving(n).(main := Dispatch([Event(3, Listen)]))
  {
    hide Hands;
    var listen := [Event(3, Listen)];
    actions, t := Extend(START, before, Serving(n), OfMain(EpollWait(listen)));
    assert t.epoll == AllArmed(n);
  }

  lemma NextFree(n: nat)
    ensures FIRST + n !in Clients(n) && FIRST + n !in AllArmed(n) && Clients(n) + {FIRST + n} == Clients(n + 1)
  {
  }

  lemma NextAccept(s: State, n: nat)
    requires s == Serving(n).(main := Dispatch([Event(3, Listen)])) && n < MAX_FD
    ensures MainEnabled(s, Accept(FIRST + n))
    ensures MainStep(s, Accept(FIRST + n)) == Serving(n).(open := Clients(n + 1), main := Accepted(FIRST + n, []))
  {
    hide Hands, AllArmed, Clients;
    var fd: Fd := FIRST + n;
    NextFree(n);
    NobodyHas(s, fd);
    assert [Event(3, Listen)][1..] == [];
    assert s.refused - {fd} == {} && s.crossed - {fd} == {};
  }

  /** It accepts the next number ... */
  lemma Enters(before: seq<Action>, n: nat) returns (actions: seq<Action>, t: State)
    requires Run(Step, START, before, Serving(n)) && n < MAX_FD
    ensures Run(Step, START, actions, t)
    ensures t == Serving(n).(open := Clients(n + 1), main := Accepted(FIRST + n, []))
  {
    hide Run, MainStep, MainEnabled, Clients, AllArmed;
    actions, t := Knocks(before, n);
    NextAccept(t, n);
    actions, t := Extend(START, actions, t, OfMain(Accept(FIRST + n)));
  }

  /** ... sets m_sockfd and registers it ... */
  lemma Registers(before: seq<Action>, n: nat) returns (actions: seq<Action>, t: State)
    requires Run(Step, START, before, Serving(n)) && n < MAX_FD
    ensures Run(Step, START, actions, t)
    ensures t == Serving(n + 1).(main := Finishing(FIRST + n, false, []))
  {
    hide Hands;
    actions, t := Enters(before, n);
    actions, t := Extend(START, actions, t, OfMain(Name));
    assert t.named == Clients(n + 1);
    actions, t := Extend(START, actions, t, OfMain(Arm));
    assert t.epoll == AllArmed(n + 1);
  }

  /** ... and is back at epoll_wait. */
  lemma OneMore(before: seq<Action>, n: nat) returns (actions: seq<Action>, t: State)
    requires Run(Step, START, before, Serving(n)) && n < MAX_FD
    ensures Run(Step, START, actions, t) && t == Serving(n + 1)
  {
    hide Hands, Clients, AllArmed;
    actions, t := Registers(before, n);
    actions, t := Extend(START, actions, t, OfMain(Finish));
    actions, t := Extend(START, actions, t, OfMain(EndOfBatch));
  }

  lemma {:induction false} Serves(n: nat) returns (actions: seq<Action>)
    requires n <= MAX_FD
    ensures Run(Step, START, actions, Serving(n))
  {
    hide Step;
    actions := [];
    if n == 0 {
      assert Serving(0) == START;
    } else {
      actions := Serves(n - 1);
      var t;
      actions, t := OneMore(actions, n - 1);
    }
  }

  lemma FullHouse(s: State)
    requires s == Serving(MAX_FD - FIRST).(main := Dispatch([Event(3, Listen)]))
    ensures MainEnabled(s, Accept(MAX_FD)) && LeastUnused(s.open + {0, 1, 2, 3, 4}, MAX_FD)
  {
    hide Clients, AllArmed;
  }

  /** With five descriptors of other kinds and MAX_FD - 5 clients the test of main passes, and the next
      connection is number MAX_FD: one past the last element of users. */
  lemma IndexOutOfBounds() returns (actions: seq<Action>, t: State)
    ensures Started(START) && Run(Step, START, actions, t) && !t.everCrossed
    ensures MainEnabled(t, Accept(MAX_FD)) && LeastUnused(t.open + {0, 1, 2, 3, 4}, MAX_FD)
  {
    hide Run, MainEnabled, LeastUnused, Clients, AllArmed;
    actions := Serves(MAX_FD - FIRST);
    actions, t := Knocks(actions, MAX_FD - FIRST);
    FullHouse(t);
  }
}
