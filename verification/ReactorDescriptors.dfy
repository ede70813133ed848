/** Which descriptors the reactor has open: those on its tree, and those acceptconn could not place. */
module ReactorDescriptors {
  import opened Reactor

  /** Open and not on the tree. */
  ghost function Strays(t: Table): set<int> {
    t.open - t.tree.Keys
  }

  /** Every slot for a client is taken. */
  ghost predicate Full(t: Table)
    requires Shaped(t)
  {
    forall j | 0 <= j < MAX_EVENTS :: t.slots[j].status != 0
  }

  /** The event is a connection that acceptconn accepts and then gives up on. */
  ghost predicate GivenUp(t: Table, e: Event)
    requires Shaped(t)
  {
    e.slot == MAX_EVENTS && e.readable && e.first.Accepted? && (Full(t) || !e.first.nonblocking)
  }

  /** The connections given up over a batch. */
  ghost function Unplaced(t: Table, events: seq<Event>, now: int): set<int>
    requires AllDispatchable(t, events, now)
    decreases |events|
  {
    if events == [] then {}
    else
      Unplaced(Dispatch(t, events[0], now), events[1..], now)
      + if GivenUp(t, events[0]) then {events[0].first.fd} else {}
  }

  /** recvdata and senddata close the descriptor of a connection exactly when they take it off. */
  lemma RecvStrays(t: Table, i: nat, io: Io, now: int)
    requires Good(t) && Client(t, i)
    ensures Strays(DoRecv(t, i, io, now)) == Strays(t)
  {
    hide Roles, Echoes;
  }

  lemma SendStrays(t: Table, i: nat, io: Io, now: int)
    requires Good(t) && Client(t, i) && (io.Sent? ==> io.n <= |t.slots[i].data|)
    ensures Strays(DoSend(t, i, io, now)) == Strays(t)
  {
    hide Roles, Echoes;
  }

  lemma AcceptStrays(t: Table, io: Io, now: int)
    requires Good(t) && (io.Accepted? ==> io.fd !in t.open)
    ensures Strays(DoAccept(t, io, now))
            == Strays(t) + if io.Accepted? && (Full(t) || !io.nonblocking) then {io.fd} else {}
  {
    hide Roles, Echoes, FirstFree;
  }

  /** The sweep closes what it takes off the tree. */
  lemma SweepStraysAt(t: Table, i: nat, now: int)
    requires Good(t) && i < MAX_EVENTS
    ensures Strays(SweepAt(t, i, now)) == Strays(t)
  {
    hide Roles, Echoes;
  }

  lemma {:induction false} SweepStrays(t: Table, pos: nat, n: nat, now: int)
    requires Good(t) && pos <= MAX_EVENTS
    ensures Good(Sweep(t, pos, n, now).0) && Strays(Sweep(t, pos, n, now).0) == Strays(t)
    decreases n
  {
    GoodShaped(t);
    hide Agrees, Roles, Echoes, SweepAt, Strays;
    if n > 0 {
      GoodSweep(t, Wrap(pos), now);
      SweepStraysAt(t, Wrap(pos), now);
      SweepStrays(SweepAt(t, Wrap(pos), now), Wrap(pos) + 1, n - 1, now);
    }
  }

  lemma DispatchStrays(t: Table, e: Event, now: int)
    requires Good(t) && ReportedBy(t, e) && Dispatchable(t, e, now)
    ensures Strays(Dispatch(t, e, now)) == Strays(t) + if GivenUp(t, e) then {e.first.fd} else {}
  {
    hide Agrees, Echoes, Dispatch, ReportedBy, DoRecv, DoSend, DoAccept, Strays, Full;
    ReportedSlot(t, e);
    OneCallback(t, e, now);
    if e.slot == MAX_EVENTS {
      if e.readable { AcceptStrays(t, e.first, now); }
    } else if e.readable {
      RecvStrays(t, e.slot, e.first, now);
    } else if e.writable {
      SendStrays(t, e.slot, e.second, now);
    }
  }

  lemma {:induction false} BatchStrays(t: Table, events: seq<Event>, now: int)
    requires Good(t) && Reported(t, events) && AllDispatchable(t, events, now)
    ensures Strays(Batch(t, events, now)) == Strays(t) + Unplaced(t, events, now)
    decreases |events|
  {
    hide Agrees, Roles, Echoes, Dispatch, Dispatchable, ReportedBy, Strays, GivenUp;
    if events != [] {
      var e, rest := events[0], events[1..];
      DispatchStrays(t, e, now);
      OneCallback(t, e, now);
      forall l | 0 <= l < |rest| ensures ReportedBy(Dispatch(t, e, now), rest[l]) {
        assert rest[l] == events[l + 1];
        StillReported(t, e, now, rest[l]);
      }
      BatchStrays(Dispatch(t, e, now), rest, now);
    }
  }

  /** Over whole runs no descriptor is leaked but those: after a pass the descriptors open and not on
      the tree are the ones that were before it and the connections given up in its batch. */
  lemma NoneLeaked(tables: seq<Table>, positions: seq<nat>, passes: seq<Pass>, m: nat)
    requires History(tables, positions, passes) && Started(tables[0]) && m < |passes|
    ensures var pass := passes[m];
            && OnePass(tables[m], positions[m], pass, tables[m + 1], positions[m + 1])
            && Strays(tables[m + 1])
               == Strays(tables[m]) + Unplaced(Sweep(tables[m], positions[m], SWEEP, pass.now).0, pass.events, pass.now)
  {
    hide Good, Sweep, Batch, Started, Reported, AllDispatchable, Strays, Unplaced;
    HistoryGood(tables, positions, passes, m);
    var t, pass := tables[m], passes[m];
    assert OnePass(t, positions[m], pass, tables[m + 1], positions[m + 1]);
    SweepStrays(t, positions[m], SWEEP, pass.now);
    BatchStrays(Sweep(t, positions[m], SWEEP, pass.now).0, pass.events, pass.now);
  }

  /** A pass that gives up no connection. */
  ghost predicate PlacesAll(t: Table, pos: nat, pass: Pass, u: Table, next: nat) {
    OnePass(t, pos, pass, u, next) && Unplaced(Sweep(t, pos, SWEEP, pass.now).0, pass.events, pass.now) == {}
  }

  /** So while every accept finds a free slot and fcntl succeeds, the descriptors open in a server
      started with just its listener are at any time those on its tree. */
  lemma {:induction false} OpenIsOnTree(tables: seq<Table>, positions: seq<nat>, passes: seq<Pass>, m: nat)
    requires History(tables, positions, passes) && Started(tables[0]) && m <= |passes|
    requires tables[0].open == tables[0].tree.Keys
    requires forall k | 0 <= k < m :: PlacesAll(tables[k], positions[k], passes[k], tables[k + 1], positions[k + 1])
    ensures tables[m].open == tables[m].tree.Keys
    decreases m
  {
    hide Good, Sweep, Batch, Started, Reported, AllDispatchable, Unplaced, Strays;
    HistoryGood(tables, positions, passes, m);
    NoStrays(tables[m]);
    if m > 0 {
      OpenIsOnTree(tables, positions, passes, m - 1);
      HistoryGood(tables, positions, passes, m - 1);
      NoStrays(tables[m - 1]);
      NoneLeaked(tables, positions, passes, m - 1);
      assert PlacesAll(tables[m - 1], positions[m - 1], passes[m - 1], tables[m], positions[m]);
      assert Strays(tables[m]) == {};
    }
  }

  lemma NoStrays(t: Table)
    requires Good(t)
    ensures t.open == t.tree.Keys <==> Strays(t) == {}
  {
    hide Roles, Echoes;
    assert t.open == Strays(t) + t.tree.Keys;
  }
}
