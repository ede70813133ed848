/** What happens to a connection of the reactor: it goes on, echoing what it receives, until its recv or
    send ends it or the sweep finds it idle. */
module ReactorClients {
  import opened Bytes
  import opened Reactor

  /** The slot is a client of descriptor `fd` on the tree, registered for `mask` with the callback that
      goes with it. */
  ghost predicate Waits(t: Table, i: nat, fd: int, mask: Mask, callback: Callback) {
    && Client(t, i) && t.slots[i].fd == fd && t.slots[i].mask == mask && t.slots[i].callback == callback
    && fd in t.tree && t.tree[fd] == Reg(mask, i) && fd in t.open
  }

  /** recvdata with data: the connection stays, with the same descriptor, waits to be written, has
      received that much more and holds just that to send back. */
  lemma RecvKeepsClient(t: Table, i: nat, b: seq<byte>, now: int)
    requires Good(t) && Client(t, i) && t.slots[i].callback == RecvData && 0 < |b| <= MAX_BUFSIZE
    ensures var u := DoRecv(t, i, Received(b), now);
            && Waits(u, i, t.slots[i].fd, Out, SendData)
            && u.slots[i].data == b && u.received[i] == t.received[i] + b && u.echoed[i] == t.echoed[i]
            && u.partial[i] == t.partial[i]
  {
    hide Echoes, Roles;
  }

  /** senddata that sends something: the connection stays and waits to be read.  When all its data went
      out, and none was lost before, everything received has been echoed. */
  lemma SendKeepsClient(t: Table, i: nat, n: nat, now: int)
    requires Good(t) && Client(t, i) && t.slots[i].callback == SendData && 0 < n <= |t.slots[i].data|
    ensures var u := DoSend(t, i, Sent(n), now);
            && Waits(u, i, t.slots[i].fd, In, RecvData)
            && u.received[i] == t.received[i] && u.echoed[i] == t.echoed[i] + t.slots[i].data[..n]
            && (n == |t.slots[i].data| && !t.partial[i] ==> u.received[i] == u.echoed[i] && !u.partial[i])
  {
    GoodSend(t, i, Sent(n), now);
    hide Agrees, Roles;
    assert t.slots[i].data[..|t.slots[i].data|] == t.slots[i].data;
  }

  /** acceptconn with a free slot: the new connection is a client that waits to be read. */
  lemma AcceptTakesClient(t: Table, fd: int, now: int) returns (i: nat)
    requires Good(t) && fd !in t.open && exists j | 0 <= j < MAX_EVENTS :: t.slots[j].status == 0
    ensures i < MAX_EVENTS && t.slots[i].status == 0
    ensures var u := DoAccept(t, Accepted(fd, true), now);
            Waits(u, i, fd, In, RecvData) && u.received[i] == [] && u.echoed[i] == [] && !u.partial[i]
            && u.slots[i].lastActive == now
  {
    i := FirstFree(t.slots, 0);
    hide FirstFree, Install, Echoes, Roles, Agrees;
    InstallTakes(t.(open := t.open + {fd}), i, fd, now);
  }

  lemma InstallTakes(t: Table, i: nat, fd: int, now: int)
    requires Shaped(t) && i < MAX_EVENTS && fd in t.open
    ensures var u := Install(t, i, fd, now);
            Waits(u, i, fd, In, RecvData) && u.received[i] == [] && u.echoed[i] == [] && !u.partial[i]
            && u.slots[i].lastActive == now
  {
  }

  /** The call that ends a connection: recv or send fails, or sends nothing. */
  predicate Ends(e: Event) {
    if e.readable then e.first.Failed? else e.writable && (e.second.Failed? || e.second == Sent(0))
  }

  /** Exactly when the event of a client takes it off the tree: its recv or send ends the connection. */
  lemma LeavesIff(t: Table, e: Event, now: int)
    requires Good(t) && ReportedBy(t, e) && Dispatchable(t, e, now) && e.slot < MAX_EVENTS
    ensures Client(t, e.slot)
    ensures var u := Dispatch(t, e, now);
            && Shaped(u) && (u.slots[e.slot].status != 1 <==> Ends(e))
            && (!Ends(e) ==> u.slots[e.slot].fd == t.slots[e.slot].fd
                             && t.received[e.slot] <= u.received[e.slot] && t.echoed[e.slot] <= u.echoed[e.slot])
  {
    hide Agrees, Echoes, Dispatch, Dispatchable, ReportedBy, Possible;
    ReportedSlot(t, e);
    OneCallback(t, e, now);
    DispatchPossible(t, e, now);
    hide DoAccept;
  }

  lemma DispatchPossible(t: Table, e: Event, now: int)
    requires Good(t) && ReportedBy(t, e) && Dispatchable(t, e, now) && e.slot < MAX_EVENTS
    ensures e.readable ==>
              && t.slots[e.slot].callback == RecvData
              && (e.first.Failed? || (e.first.Received? && 0 < |e.first.bytes| <= MAX_BUFSIZE))
    ensures !e.readable && e.writable ==>
              && t.slots[e.slot].callback == SendData
              && (e.second.Failed? || (e.second.Sent? && e.second.n <= |t.slots[e.slot].data|))
  {
    hide Agrees, Echoes, Call;
    ReportedSlot(t, e);
  }

  /** What a client's event has done when its batch is over, if it did not end the connection. */
  ghost predicate Followed(t: Table, e: Event, u: Table)
    requires Shaped(t) && Shaped(u) && e.slot < MAX_EVENTS
  {
    var i := e.slot;
    var fd := t.slots[i].fd;
    if e.readable && e.first.Received? then
      && Waits(u, i, fd, Out, SendData) && u.slots[i].data == e.first.bytes
      && u.received[i] == t.received[i] + e.first.bytes && u.echoed[i] == t.echoed[i] && u.partial[i] == t.partial[i]
    else if !e.readable && e.writable && e.second.Sent? && e.second.n > 0 then
      && Waits(u, i, fd, In, RecvData) && e.second.n <= |t.slots[i].data|
      && u.received[i] == t.received[i] && u.echoed[i] == t.echoed[i] + t.slots[i].data[..e.second.n]
      && (e.second.n == |t.slots[i].data| && !t.partial[i] ==> u.received[i] == u.echoed[i] && !u.partial[i])
    else
      Silent(e) ==> u.slots[i] == t.slots[i] && u.received[i] == t.received[i] && u.echoed[i] == t.echoed[i]
  }

  lemma DispatchFollows(t: Table, e: Event, now: int)
    requires Good(t) && ReportedBy(t, e) && Dispatchable(t, e, now) && e.slot < MAX_EVENTS
    ensures Shaped(Dispatch(t, e, now)) && Followed(t, e, Dispatch(t, e, now))
    ensures Client(t, e.slot)
  {
    hide Agrees, Echoes, Dispatch, Dispatchable, ReportedBy, Possible, DoRecv, DoSend, DoAccept, Waits;
    ReportedSlot(t, e);
    OneCallback(t, e, now);
    DispatchPossible(t, e, now);
    if e.readable && e.first.Received? {
      RecvKeepsClient(t, e.slot, e.first.bytes, now);
    } else if !e.readable && e.writable && e.second.Sent? && e.second.n > 0 {
      SendKeepsClient(t, e.slot, e.second.n, now);
    }
  }

  /** A table in which nothing about slot `i` has changed since `u`. */
  ghost predicate SameClient(u: Table, v: Table, i: nat)
    requires Shaped(u) && Shaped(v) && i < MAX_EVENTS
  {
    v.slots[i] == u.slots[i] && v.received[i] == u.received[i] && v.echoed[i] == u.echoed[i]
    && v.partial[i] == u.partial[i]
  }

  lemma FollowedLater(t: Table, e: Event, u: Table, v: Table)
    requires Shaped(t) && Good(u) && Good(v) && e.slot < MAX_EVENTS && Followed(t, e, u) && SameClient(u, v, e.slot)
    ensures Followed(t, e, v)
  {
    hide Roles, Echoes;
  }

  lemma FollowedEarlier(t: Table, m: Table, e: Event, u: Table)
    requires Shaped(t) && Shaped(m) && Shaped(u) && e.slot < MAX_EVENTS && SameClient(t, m, e.slot) && Followed(m, e, u)
    ensures Followed(t, e, u)
  {
    hide Waits;
  }

  /** In a whole batch: the other events do not touch what a client's event has done. */
  lemma {:induction false} BatchFollows(t: Table, events: seq<Event>, now: int, k: nat)
    requires Good(t) && Reported(t, events) && AllDispatchable(t, events, now)
    requires k < |events| && events[k].slot < MAX_EVENTS
    ensures Good(Batch(t, events, now)) && (!Ends(events[k]) ==> Followed(t, events[k], Batch(t, events, now)))
    decreases k
  {
    hide Agrees, Roles, Echoes, Dispatch, Dispatchable, ReportedBy, Followed, Ends, SameClient;
    var e, rest := events[0], events[1..];
    var m := Dispatch(t, e, now);
    BatchGood(t, events, now);
    OneCallback(t, e, now);
    forall l | 0 <= l < |rest| ensures ReportedBy(m, rest[l]) {
      assert rest[l] == events[l + 1];
      StillReported(t, e, now, rest[l]);
    }
    if k == 0 {
      if !Ends(e) { FirstFollows(t, events, now); }
    } else {
      assert rest[k - 1] == events[k];
      BatchFollows(m, rest, now, k - 1);
      if !Ends(events[k]) {
        OtherSlot(t, e, events[k], now);
        FollowedEarlier(t, m, events[k], Batch(m, rest, now));
      }
    }
  }

  lemma OtherSlot(t: Table, e: Event, other: Event, now: int)
    requires Good(t) && ReportedBy(t, e) && Dispatchable(t, e, now) && ReportedBy(t, other)
    requires other.slot < MAX_EVENTS && other.slot != e.slot
    ensures Shaped(Dispatch(t, e, now)) && SameClient(t, Dispatch(t, e, now), other.slot)
  {
    hide Agrees, Roles, Echoes, Dispatch, Dispatchable, ReportedBy;
    ReportedSlot(t, other);
    DispatchFrame(t, e, now, other.slot);
  }

  lemma FirstFollows(t: Table, events: seq<Event>, now: int)
    requires Good(t) && Reported(t, events) && AllDispatchable(t, events, now) && events != []
    requires events[0].slot < MAX_EVENTS && !Ends(events[0])
    ensures Good(Batch(t, events, now)) && Followed(t, events[0], Batch(t, events, now))
  {
    hide Agrees, Roles, Echoes, Dispatch, Dispatchable, ReportedBy, Followed, Ends;
    var e, rest := events[0], events[1..];
    var m := Dispatch(t, e, now);
    BatchGood(t, events, now);
    OneCallback(t, e, now);
    DispatchFollows(t, e, now);
    LeavesIff(t, e, now);
    forall l | 0 <= l < |rest| ensures ReportedBy(m, rest[l]) {
      assert rest[l] == events[l + 1];
      StillReported(t, e, now, rest[l]);
    }
    StatusOne(m, e.slot);
    BatchFrame(m, rest, now, e.slot);
    FollowedLater(t, e, m, Batch(m, rest, now));
  }

  lemma StatusOne(t: Table, i: nat)
    requires Good(t) && i < MAX_EVENTS && t.slots[i].status != 0
    ensures t.slots[i].status == 1
  {
  }

  lemma {:induction false} SweepKeepsAccounts(t: Table, pos: nat, n: nat, now: int)
    requires Shaped(t) && pos <= MAX_EVENTS
    ensures var u := Sweep(t, pos, n, now).0;
            u.received == t.received && u.echoed == t.echoed && u.partial == t.partial
    decreases n
  {
    if n > 0 {
      SweepKeepsAccounts(SweepAt(t, Wrap(pos), now), Wrap(pos) + 1, n - 1, now);
    }
  }

  /** A client on the tree after the sweep was not touched by it. */
  lemma SweepSpares(t: Table, pos: nat, now: int, j: nat)
    requires Good(t) && pos <= MAX_EVENTS && j < MAX_EVENTS
    ensures var s := Sweep(t, pos, SWEEP, now).0;
            && Good(s) && (s.slots[j].status == 1 ==> SameClient(t, s, j))
            && (t.slots[j].status == 1 && !Idle(t.slots[j], now) ==> s.slots[j].status == 1)
  {
    SweepEffect(t, pos, SWEEP, now, j);
    SweepKeepsAccounts(t, pos, SWEEP, now);
    hide Sweep, Agrees, Roles, Echoes;
  }

  /** Over whole runs: what the event of a client does to its connection stands at the next pass.
      Received data is held to be sent back, on the tree for writing with the same descriptor; data
      sent is counted as echoed, and the connection is on the tree for reading again. */
  lemma ClientFollowed(tables: seq<Table>, positions: seq<nat>, passes: seq<Pass>, m: nat, k: nat)
    requires History(tables, positions, passes) && Started(tables[0]) && m < |passes|
    requires k < |passes[m].events| && passes[m].events[k].slot < MAX_EVENTS && !Ends(passes[m].events[k])
    ensures Client(tables[m], passes[m].events[k].slot) && Shaped(tables[m + 1])
    ensures Followed(tables[m], passes[m].events[k], tables[m + 1])
  {
    hide Good, Sweep, Batch, Followed, Started, Ends, SameClient, ReportedBy;
    HistoryGood(tables, positions, passes, m);
    var t, pass := tables[m], passes[m];
    assert OnePass(t, positions[m], pass, tables[m + 1], positions[m + 1]);
    var s := Sweep(t, positions[m], SWEEP, pass.now).0;
    var e := pass.events[k];
    SweepSpares(t, positions[m], pass.now, e.slot);
    BatchFollows(s, pass.events, pass.now, k);
    assert ReportedBy(s, e);
    GoodReported(s, e);
    GoodShaped(tables[m + 1]);
    FollowedEarlier(t, s, e, tables[m + 1]);
    SameStatus(t, s, e.slot);
  }

  lemma GoodReported(t: Table, e: Event)
    requires Good(t) && ReportedBy(t, e)
    ensures Shaped(t) && e.slot <= MAX_EVENTS && t.slots[e.slot].status == 1
  {
    ReportedSlot(t, e);
  }

  lemma SameStatus(t: Table, s: Table, i: nat)
    requires Shaped(t) && Shaped(s) && i < MAX_EVENTS && SameClient(t, s, i) && s.slots[i].status == 1
    ensures Client(t, i)
  {
  }

  /** The connection of slot `j` goes on from `t` to `u`. */
  ghost predicate Continues(t: Table, u: Table, j: nat)
    requires Shaped(t) && Shaped(u) && j < MAX_EVENTS
  {
    && u.slots[j].status == 1 && u.slots[j].fd == t.slots[j].fd
    && t.received[j] <= u.received[j] && t.echoed[j] <= u.echoed[j]
  }

  lemma FollowedContinues(t: Table, e: Event, u: Table)
    requires Good(t) && Shaped(u) && e.slot < MAX_EVENTS && t.slots[e.slot].status == 1 && !Ends(e)
    requires Followed(t, e, u) && (e.readable ==> e.first.Failed? || e.first.Received?)
    requires !e.readable && e.writable ==> e.second.Failed? || e.second.Sent?
    ensures Continues(t, u, e.slot)
  {
    hide Agrees, Roles, Echoes;
  }

  /** Over whole runs: a connection leaves the tree only when its recv or send ends it, or when it is
      idle and the sweep comes to it.  Otherwise it goes on, with its descriptor and its account. */
  lemma LeavesOnly(tables: seq<Table>, positions: seq<nat>, passes: seq<Pass>, m: nat, j: nat)
    requires History(tables, positions, passes) && Started(tables[0]) && m < |passes|
    requires j < MAX_EVENTS && Shaped(tables[m]) && tables[m].slots[j].status == 1
    ensures Shaped(tables[m + 1])
    ensures || Continues(tables[m], tables[m + 1], j)
            || Idle(tables[m].slots[j], passes[m].now)
            || exists k | 0 <= k < |passes[m].events| :: passes[m].events[k].slot == j && Ends(passes[m].events[k])
  {
    hide Good, Sweep, Batch, Started, SameClient, ReportedBy, Idle;
    HistoryGood(tables, positions, passes, m);
    HistoryGood(tables, positions, passes, m + 1);
    GoodShaped(tables[m + 1]);
    var t, pass := tables[m], passes[m];
    assert OnePass(t, positions[m], pass, tables[m + 1], positions[m + 1]);
    var s := Sweep(t, positions[m], SWEEP, pass.now).0;
    if !Idle(t.slots[j], pass.now) {
      SweepSpares(t, positions[m], pass.now, j);
      BatchLeaves(s, pass.events, pass.now, j);
      ContinuesFrom(t, s, tables[m + 1], j);
    }
  }

  lemma ContinuesFrom(t: Table, s: Table, u: Table, j: nat)
    requires Shaped(t) && Shaped(s) && Shaped(u) && j < MAX_EVENTS && SameClient(t, s, j)
    ensures Continues(s, u, j) ==> Continues(t, u, j)
  {
  }

  lemma BatchLeaves(t: Table, events: seq<Event>, now: int, j: nat)
    requires Good(t) && Reported(t, events) && AllDispatchable(t, events, now)
    requires j < MAX_EVENTS && Shaped(t) && t.slots[j].status == 1
    ensures Shaped(Batch(t, events, now))
    ensures Continues(t, Batch(t, events, now), j)
            || exists k | 0 <= k < |events| :: events[k].slot == j && Ends(events[k])
  {
    hide Agrees, Roles, Echoes, Batch, ReportedBy, Followed, Ends;
    BatchGood(t, events, now);
    if k :| 0 <= k < |events| && events[k].slot == j {
      if !Ends(events[k]) {
        BatchFollows(t, events, now, k);
        ReportsFit(t, events, now, k);
        FollowedContinues(t, events[k], Batch(t, events, now));
      }
    } else {
      BatchFrame(t, events, now, j);
    }
  }

  /** The system calls of a client's event report what its callback can see. */
  lemma {:induction false} ReportsFit(t: Table, events: seq<Event>, now: int, k: nat)
    requires Good(t) && Reported(t, events) && AllDispatchable(t, events, now)
    requires k < |events| && events[k].slot < MAX_EVENTS
    ensures var e := events[k];
            && (e.readable ==> e.first.Failed? || e.first.Received?)
            && (!e.readable && e.writable ==> e.second.Failed? || e.second.Sent?)
    decreases k
  {
    hide Agrees, Roles, Echoes, Dispatch, Dispatchable, ReportedBy;
    if k == 0 {
      DispatchPossible(t, events[0], now);
    } else {
      var e, rest := events[0], events[1..];
      OneCallback(t, e, now);
      forall l | 0 <= l < |rest| ensures ReportedBy(Dispatch(t, e, now), rest[l]) {
        assert rest[l] == events[l + 1];
        StillReported(t, e, now, rest[l]);
      }
      ReportsFit(Dispatch(t, e, now), rest, now, k - 1);
    }
  }
}
