/** The epoll reactor's slot table as values: what each callback does to the table, the epoll tree
    and the open descriptors, assuming epoll_ctl succeeds. */
module Reactor {
  import opened Bytes

  const MAX_EVENTS := 1024
  const MAX_BUFSIZE := 4096
  const IDLE_LIMIT := 60

  datatype Mask = NoMask | In | Out

  datatype Callback = NoCallback | AcceptConn | RecvData | SendData

  /** struct myevent_s; `data` is buf up to len. */
  datatype Slot = Slot(fd: int, mask: Mask, callback: Callback, status: int, data: seq<byte>, lastActive: int)

  /** What the epoll tree holds for a descriptor: the events asked for and the slot data.ptr points to. */
  datatype Reg = Reg(mask: Mask, slot: nat)

  /** The table, the tree, the open descriptors, and per slot the bytes its present connection has
      received and echoed, and whether one of its sends was partial. */
  datatype Table = Table(
    slots: seq<Slot>,
    tree: map<int, Reg>,
    open: set<int>,
    received: seq<seq<byte>>,
    echoed: seq<seq<byte>>,
    partial: seq<bool>)

  /** What the system calls of one callback report. */
  datatype Io =
    | Received(bytes: seq<byte>)
    | Sent(n: nat)
    | Failed                      // recv or send returned 0 or an error; no connection to accept
    | Accepted(fd: int, nonblocking: bool)

  // ---------------------------------------------------------------- the three operations on a slot

  function EventSet(s: Slot, fd: int, callback: Callback, now: int): Slot {
    Slot(fd, NoMask, callback, 0, if callback != SendData then [] else s.data, now)
  }

  ghost function SetSlot(t: Table, i: nat, s: Slot): Table
    requires i < |t.slots|
  {
    t.(slots := t.slots[i := s])
  }

  /** eventadd on a slot that is not on the tree. */
  ghost function EventAdd(t: Table, i: nat, mask: Mask): Table
    requires i < |t.slots|
  {
    var s := t.slots[i];
    SetSlot(t, i, s.(mask := mask, status := 1)).(tree := t.tree[s.fd := Reg(mask, i)])
  }

  ghost function EventDel(t: Table, i: nat): Table
    requires i < |t.slots|
  {
    var s := t.slots[i];
    if s.status != 1 then t else SetSlot(t, i, s.(status := 0)).(tree := t.tree - {s.fd})
  }

  // ---------------------------------------------------------------- callbacks

  ghost predicate Shaped(t: Table) {
    |t.slots| == MAX_EVENTS + 1 == |t.received| == |t.echoed| == |t.partial|
  }

  ghost function DoRecv(t: Table, i: nat, io: Io, now: int): Table
    requires Shaped(t) && i < MAX_EVENTS
  {
    var fd := t.slots[i].fd;
    var d := EventDel(t, i);
    if io.Received? then
      var filled := SetSlot(d, i, EventSet(d.slots[i].(data := io.bytes), fd, SendData, now));
      EventAdd(filled, i, Out).(received := t.received[i := t.received[i] + io.bytes])
    else
      d.(open := t.open - {fd})
  }

  ghost function DoSend(t: Table, i: nat, io: Io, now: int): Table
    requires Shaped(t) && i < MAX_EVENTS && (io.Sent? ==> io.n <= |t.slots[i].data|)
  {
    var fd := t.slots[i].fd;
    var d := EventDel(t, i);
    if io.Sent? && io.n > 0 then
      EventAdd(SetSlot(d, i, EventSet(d.slots[i], fd, RecvData, now)), i, In)
        .(echoed := t.echoed[i := t.echoed[i] + t.slots[i].data[..io.n]],
          partial := t.partial[i := t.partial[i] || io.n < |t.slots[i].data|])
    else
      d.(open := t.open - {fd})
  }

  /** The first free client slot, or MAX_EVENTS. */
  function FirstFree(slots: seq<Slot>, i: nat): (r: nat)
    requires |slots| == MAX_EVENTS + 1 && i <= MAX_EVENTS
    ensures i <= r <= MAX_EVENTS
    ensures forall j | i <= j < r :: slots[j].status != 0
    ensures r < MAX_EVENTS ==> slots[r].status == 0
    decreases MAX_EVENTS - i
  {
    if i == MAX_EVENTS || slots[i].status == 0 then i else FirstFree(slots, i + 1)
  }

  ghost function DoAccept(t: Table, io: Io, now: int): Table
    requires Shaped(t)
  {
    if !io.Accepted? then t
    else
      var i := FirstFree(t.slots, 0);
      var u := t.(open := t.open + {io.fd});
      if i == MAX_EVENTS || !io.nonblocking then u
      else
        Install(u, i, io.fd, now)
  }

  /** A new connection in the free slot `i`. */
  ghost function Install(t: Table, i: nat, fd: int, now: int): Table
    requires Shaped(t) && i < MAX_EVENTS
  {
    EventAdd(SetSlot(t, i, EventSet(t.slots[i], fd, RecvData, now)), i, In)
      .(received := t.received[i := []], echoed := t.echoed[i := []], partial := t.partial[i := false])
  }

  /** The outcome is one the system call of the slot's callback can have. */
  ghost predicate Possible(t: Table, i: nat, io: Io)
    requires i < |t.slots|
  {
    match t.slots[i].callback
    case AcceptConn => io.Failed? || (io.Accepted? && io.fd !in t.open)
    case RecvData => io.Failed? || (io.Received? && 0 < |io.bytes| <= MAX_BUFSIZE)
    case SendData => io.Failed? || (io.Sent? && io.n <= |t.slots[i].data|)
    case NoCallback => true
  }

  /** ev->call_back(ev->fd, events, ev->arg) */
  ghost function Call(t: Table, i: nat, io: Io, now: int): Table
    requires Shaped(t) && i <= MAX_EVENTS && Possible(t, i, io)
    requires i == MAX_EVENTS ==> t.slots[i].callback == AcceptConn
  {
    match t.slots[i].callback
    case AcceptConn => DoAccept(t, io, now)
    case RecvData => DoRecv(t, i, io, now)
    case SendData => DoSend(t, i, io, now)
    case NoCallback => t
  }

  /** One turn of the timeout loop at `i`: close() drops the descriptor from the tree by itself. */
  ghost function SweepAt(t: Table, i: nat, now: int): Table
    requires i < |t.slots|
  {
    var s := t.slots[i];
    if s.status == 1 && now - s.lastActive >= IDLE_LIMIT then EventDel(t, i).(open := t.open - {s.fd}) else t
  }

  // ---------------------------------------------------------------- agreement

  /** status tells, and the registration holds, exactly what the tree has for the slot. */
  ghost predicate Agrees(t: Table) {
    && (forall i | 0 <= i < |t.slots| :: t.slots[i].status in {0, 1})
    && (forall i | 0 <= i < |t.slots| && t.slots[i].status == 1 ::
          t.slots[i].fd in t.tree && t.tree[t.slots[i].fd] == Reg(t.slots[i].mask, i))
    && (forall fd | fd in t.tree :: t.tree[fd].slot < |t.slots| && t.slots[t.tree[fd].slot].status == 1
                                    && t.slots[t.tree[fd].slot].fd == fd)
    && t.tree.Keys <= t.open
  }

  /** Clients waiting to be read carry recvdata, clients waiting to be written carry senddata and
      something to send; the last slot is the listener. */
  ghost predicate Roles(t: Table)
    requires Shaped(t)
  {
    && (forall i | 0 <= i < MAX_EVENTS && t.slots[i].status == 1 ::
          || (t.slots[i].mask == In && t.slots[i].callback == RecvData)
          || (t.slots[i].mask == Out && t.slots[i].callback == SendData && t.slots[i].data != []))
    && (var l := t.slots[MAX_EVENTS]; l.status == 1 && l.mask == In && l.callback == AcceptConn)
  }

  /** The bytes received and not yet answered. */
  ghost function Pending(s: Slot): seq<byte> {
    if s.mask == Out then s.data else []
  }

  /** A connection has echoed everything it received but what is pending, byte for byte, exactly
      when none of its sends was partial; a partial send loses bytes for good. */
  ghost predicate Echoes(t: Table)
    requires Shaped(t)
  {
    forall i | 0 <= i < MAX_EVENTS && t.slots[i].status == 1 ::
      if t.partial[i] then |t.received[i]| > |t.echoed[i]| + |Pending(t.slots[i])|
      else t.received[i] == t.echoed[i] + Pending(t.slots[i])
  }

  ghost predicate Good(t: Table) {
    Shaped(t) && Agrees(t) && Roles(t) && Echoes(t)
  }

  lemma GoodShaped(t: Table)
    requires Good(t)
    ensures Shaped(t)
  {
  }

  /** A registered client slot whose callback may be called. */
  ghost predicate Client(t: Table, i: nat) {
    Shaped(t) && i < MAX_EVENTS && t.slots[i].status == 1
  }

  /** What is registered is distinct: no two slots have the same descriptor on the tree. */
  lemma RegisteredDistinct(t: Table, i: nat, j: nat)
    requires Agrees(t) && i < |t.slots| && j < |t.slots|
    requires t.slots[i].status == 1 && t.slots[j].status == 1 && t.slots[i].fd == t.slots[j].fd
    ensures i == j
  {
  }

  // ---------------------------------------------------------------- the callbacks keep it

  lemma AgreesRecv(t: Table, i: nat, io: Io, now: int)
    requires Client(t, i) && Agrees(t)
    ensures Agrees(DoRecv(t, i, io, now))
  {
  }

  lemma AgreesSend(t: Table, i: nat, io: Io, now: int)
    requires Client(t, i) && Agrees(t) && (io.Sent? ==> io.n <= |t.slots[i].data|)
    ensures Agrees(DoSend(t, i, io, now))
  {
  }

  lemma GoodRecv(t: Table, i: nat, io: Io, now: int)
    requires Client(t, i) && Good(t) && t.slots[i].callback == RecvData && Possible(t, i, io)
    ensures Good(DoRecv(t, i, io, now))
  {
    hide Agrees;
    AgreesRecv(t, i, io, now);
    assert t.received[i] + [] == t.received[i] && t.echoed[i] + [] == t.echoed[i];
  }

  lemma GoodSend(t: Table, i: nat, io: Io, now: int)
    requires Client(t, i) && Good(t) && t.slots[i].callback == SendData && Possible(t, i, io)
    ensures Good(DoSend(t, i, io, now))
  {
    hide Agrees;
    AgreesSend(t, i, io, now);
    if io.Sent? && io.n > 0 {
      var s := t.slots[i];
      if io.n == |s.data| {
        assert s.data[..io.n] == s.data;
        assert t.echoed[i] + s.data + [] == t.echoed[i] + s.data;
      }
    }
  }

  lemma GoodInstall(t: Table, i: nat, fd: int, now: int)
    requires Good(t) && i < MAX_EVENTS && t.slots[i].status == 0 && fd in t.open && fd !in t.tree
    ensures Good(Install(t, i, fd, now))
  {
  }

  lemma GoodOpen(t: Table, fd: int)
    requires Good(t)
    ensures Good(t.(open := t.open + {fd}))
  {
  }

  lemma GoodAccept(t: Table, io: Io, now: int)
    requires Good(t) && (io.Accepted? ==> io.fd !in t.open)
    ensures Good(DoAccept(t, io, now))
  {
    hide Roles, Echoes, Install, FirstFree;
    if io.Accepted? {
      GoodOpen(t, io.fd);
      var i := FirstFree(t.slots, 0);
      if i != MAX_EVENTS && io.nonblocking {
        GoodInstall(t.(open := t.open + {io.fd}), i, io.fd, now);
      }
    }
  }

  lemma GoodSweep(t: Table, i: nat, now: int)
    requires Good(t) && i < MAX_EVENTS
    ensures Good(SweepAt(t, i, now))
  {
  }

  /** Any callback that keeps a client on the tree counts as activity: the client is then safe from
      the sweep for the idle limit. */
  lemma ActivityRefreshes(t: Table, i: nat, io: Io, now: int, later: int)
    requires Good(t) && Client(t, i) && Possible(t, i, io) && later - now < IDLE_LIMIT
    ensures var u := Call(t, i, io, now);
            Shaped(u) && (u.slots[i].status == 1 ==> u.slots[i].lastActive == now && SweepAt(u, i, later) == u)
  {
    hide Agrees, Echoes;
  }

  // ---------------------------------------------------------------- one batch of events

  /** An event of epoll_wait, with what the system calls of its callbacks report. */
  datatype Event = Event(slot: nat, readable: bool, writable: bool, first: Io, second: Io)

  /** epoll_wait reports for a registration only what was asked for (and errors). */
  ghost predicate ReportedBy(t: Table, e: Event) {
    exists fd | fd in t.tree ::
      && t.tree[fd].slot == e.slot
      && (e.readable ==> t.tree[fd].mask == In) && (e.writable ==> t.tree[fd].mask == Out)
  }

  /** The first test of the dispatch loop. */
  ghost function AfterRead(t: Table, e: Event, now: int): Table
    requires Shaped(t) && e.slot <= MAX_EVENTS && (e.slot == MAX_EVENTS ==> t.slots[e.slot].callback == AcceptConn)
    requires Possible(t, e.slot, e.first)
  {
    if e.readable && t.slots[e.slot].mask == In then Call(t, e.slot, e.first, now) else t
  }

  /** The event can be dispatched: its system calls report something possible. */
  ghost predicate Dispatchable(t: Table, e: Event, now: int) {
    && Shaped(t) && e.slot <= MAX_EVENTS && (e.slot == MAX_EVENTS ==> t.slots[e.slot].callback == AcceptConn)
    && Possible(t, e.slot, e.first)
    && (var u := AfterRead(t, e, now);
        Shaped(u) && (e.slot == MAX_EVENTS ==> u.slots[e.slot].callback == AcceptConn) && Possible(u, e.slot, e.second))
  }

  /** Both tests of the dispatch loop, one after the other. */
  ghost function Dispatch(t: Table, e: Event, now: int): Table
    requires Dispatchable(t, e, now)
  {
    var u := AfterRead(t, e, now);
    if e.writable && u.slots[e.slot].mask == Out then Call(u, e.slot, e.second, now) else u
  }

  /** How many callbacks an event fires. */
  ghost function Fired(t: Table, e: Event, now: int): nat
    requires Dispatchable(t, e, now)
  {
    (if e.readable && t.slots[e.slot].mask == In then 1 else 0)
    + (if e.writable && AfterRead(t, e, now).slots[e.slot].mask == Out then 1 else 0)
  }

  ghost function Silent(e: Event): bool {
    !e.readable && !e.writable
  }

  lemma GoodCall(t: Table, i: nat, io: Io, now: int)
    requires Good(t) && i <= MAX_EVENTS && t.slots[i].status == 1 && Possible(t, i, io)
    ensures Good(Call(t, i, io, now))
  {
    hide Agrees, Echoes;
    if i == MAX_EVENTS {
      GoodAccept(t, io, now);
    } else if t.slots[i].callback == RecvData {
      GoodRecv(t, i, io, now);
    } else {
      GoodSend(t, i, io, now);
    }
  }

  /** A reported event finds its slot registered for just what is reported. */
  lemma ReportedSlot(t: Table, e: Event)
    requires Shaped(t) && Agrees(t) && ReportedBy(t, e)
    ensures e.slot <= MAX_EVENTS && t.slots[e.slot].status == 1
    ensures (e.readable ==> t.slots[e.slot].mask == In) && (e.writable ==> t.slots[e.slot].mask == Out)
  {
  }

  /** An event fires one callback at most: the one its registration asks for. */
  lemma OneCallback(t: Table, e: Event, now: int)
    requires Good(t) && ReportedBy(t, e) && Dispatchable(t, e, now)
    ensures Fired(t, e, now) <= 1
    ensures Dispatch(t, e, now) == if e.readable then Call(t, e.slot, e.first, now)
                                   else if e.writable then Call(t, e.slot, e.second, now) else t
    ensures Good(Dispatch(t, e, now))
  {
    hide Agrees, Echoes, Call, Possible, ReportedBy;
    ReportedSlot(t, e);
    if e.readable {
      GoodCall(t, e.slot, e.first, now);
    } else if e.writable {
      GoodCall(t, e.slot, e.second, now);
    }
  }

  /** Every event of the batch can be dispatched when its turn comes. */
  ghost predicate AllDispatchable(t: Table, events: seq<Event>, now: int)
    decreases |events|
  {
    events != [] ==>
      Dispatchable(t, events[0], now) && AllDispatchable(Dispatch(t, events[0], now), events[1..], now)
  }

  /** The loop over a batch. */
  ghost function Batch(t: Table, events: seq<Event>, now: int): Table
    requires AllDispatchable(t, events, now)
    decreases |events|
  {
    if events == [] then t else Batch(Dispatch(t, events[0], now), events[1..], now)
  }

  /** A batch names each slot at most once and was reported by the tree at its start. */
  ghost predicate Reported(t: Table, events: seq<Event>) {
    && (forall k | 0 <= k < |events| :: ReportedBy(t, events[k]))
    && (forall k, l | 0 <= k < l < |events| :: events[k].slot != events[l].slot)
  }

  ghost predicate EachFiresOnce(t: Table, events: seq<Event>, now: int)
    decreases |events|
  {
    events != [] ==>
      && Dispatchable(t, events[0], now) && Fired(t, events[0], now) <= 1
      && EachFiresOnce(Dispatch(t, events[0], now), events[1..], now)
  }

  /** A callback leaves the other slots on the tree alone. */
  lemma CallFrame(t: Table, i: nat, io: Io, now: int, j: nat)
    requires Shaped(t) && i <= MAX_EVENTS && Possible(t, i, io)
    requires i == MAX_EVENTS ==> t.slots[i].callback == AcceptConn
    requires j <= MAX_EVENTS && t.slots[j].status == 1 && j != i
    ensures var u := Call(t, i, io, now);
            && Shaped(u) && u.slots[j] == t.slots[j]
            && u.received[j] == t.received[j] && u.echoed[j] == t.echoed[j] && u.partial[j] == t.partial[j]
  {
    if t.slots[i].callback == AcceptConn {
      AcceptFrame(t, io, now, j);
    }
    hide DoAccept;
  }

  lemma AcceptFrame(t: Table, io: Io, now: int, j: nat)
    requires Shaped(t) && j <= MAX_EVENTS && t.slots[j].status == 1
    ensures var u := DoAccept(t, io, now);
            && Shaped(u) && u.slots[j] == t.slots[j]
            && u.received[j] == t.received[j] && u.echoed[j] == t.echoed[j] && u.partial[j] == t.partial[j]
  {
    hide FirstFree;
  }

  lemma DispatchFrame(t: Table, e: Event, now: int, j: nat)
    requires Good(t) && ReportedBy(t, e) && Dispatchable(t, e, now)
    requires j <= MAX_EVENTS && t.slots[j].status == 1 && (j != e.slot || Silent(e))
    ensures var u := Dispatch(t, e, now);
            && Shaped(u) && u.slots[j] == t.slots[j]
            && u.received[j] == t.received[j] && u.echoed[j] == t.echoed[j] && u.partial[j] == t.partial[j]
  {
    hide Agrees, Roles, Echoes, Call, Possible, ReportedBy;
    if !Silent(e) {
      OneCallback(t, e, now);
      CallFrame(t, e.slot, if e.readable then e.first else e.second, now, j);
    }
  }

  /** Events still to come in the batch remain as reported. */
  lemma StillReported(t: Table, e: Event, now: int, later: Event)
    requires Good(t) && ReportedBy(t, e) && Dispatchable(t, e, now) && ReportedBy(t, later) && later.slot != e.slot
    ensures ReportedBy(Dispatch(t, e, now), later)
  {
    hide Echoes, Roles, Dispatch;
    ReportedSlot(t, later);
    DispatchFrame(t, e, now, later.slot);
    OneCallback(t, e, now);
    var u := Dispatch(t, e, now);
    var fd := t.slots[later.slot].fd;
    assert fd in u.tree && u.tree[fd] == Reg(t.slots[later.slot].mask, later.slot);
  }

  /** A whole batch: the table stays good, each event fires at most one callback, and a slot on the
      tree without an event of its own is untouched. */
  lemma {:induction false} BatchGood(t: Table, events: seq<Event>, now: int)
    requires Good(t) && Reported(t, events) && AllDispatchable(t, events, now)
    ensures Good(Batch(t, events, now)) && EachFiresOnce(t, events, now)
    decreases |events|
  {
    hide Good, Dispatch, Dispatchable, Fired, ReportedBy;
    if events != [] {
      var e, rest := events[0], events[1..];
      OneCallback(t, e, now);
      forall k | 0 <= k < |rest| ensures ReportedBy(Dispatch(t, e, now), rest[k]) {
        assert rest[k] == events[k + 1];
        StillReported(t, e, now, rest[k]);
      }
      BatchGood(Dispatch(t, e, now), rest, now);
    }
  }

  lemma {:induction false} BatchFrame(t: Table, events: seq<Event>, now: int, j: nat)
    requires Good(t) && Reported(t, events) && AllDispatchable(t, events, now)
    requires j < MAX_EVENTS && t.slots[j].status == 1
    requires forall k | 0 <= k < |events| :: events[k].slot == j ==> Silent(events[k])
    ensures var u := Batch(t, events, now);
            && Shaped(u) && u.slots[j] == t.slots[j]
            && u.received[j] == t.received[j] && u.echoed[j] == t.echoed[j] && u.partial[j] == t.partial[j]
    decreases |events|
  {
    hide Agrees, Roles, Echoes, Dispatch, Dispatchable, ReportedBy;
    if events != [] {
      var e, rest := events[0], events[1..];
      OneCallback(t, e, now);
      DispatchFrame(t, e, now, j);
      forall k | 0 <= k < |rest| ensures ReportedBy(Dispatch(t, e, now), rest[k]) {
        assert rest[k] == events[k + 1];
        StillReported(t, e, now, rest[k]);
      }
      BatchFrame(Dispatch(t, e, now), rest, now, j);
    }
  }

  // ---------------------------------------------------------------- the timeout sweep

  const SWEEP := 100

  /** Where the sweep starts when checkpos is `pos`. */
  function Wrap(pos: nat): nat {
    if pos == MAX_EVENTS then 0 else pos
  }

  /** `n` turns of the sweep from `pos`, and checkpos after them. */
  ghost function Sweep(t: Table, pos: nat, n: nat, now: int): (r: (Table, nat))
    requires Shaped(t) && pos <= MAX_EVENTS
    ensures Shaped(r.0) && r.1 <= MAX_EVENTS
    decreases n
  {
    if n == 0 then (t, pos) else Sweep(SweepAt(t, Wrap(pos), now), Wrap(pos) + 1, n - 1, now)
  }

  /** How many turns until the sweep comes to slot `j`. */
  function Distance(pos: nat, j: nat): (k: nat)
    requires pos <= MAX_EVENTS && j < MAX_EVENTS
    ensures k < MAX_EVENTS
  {
    if j >= Wrap(pos) then j - Wrap(pos) else j + MAX_EVENTS - Wrap(pos)
  }

  /** The slot inspected at turn `k`. */
  function Inspected(pos: nat, k: nat): nat {
    (Wrap(pos) + k) % MAX_EVENTS
  }

  ghost predicate Idle(s: Slot, now: int) {
    s.status == 1 && now - s.lastActive >= IDLE_LIMIT
  }

  /** Turn `k` of the sweep is about the slot it inspects, and moves checkpos past it. */
  lemma {:induction false} SweepTurn(t: Table, pos: nat, k: nat, now: int)
    requires Shaped(t) && pos <= MAX_EVENTS
    ensures var i := Inspected(pos, k);
            Sweep(t, pos, k + 1, now) == (SweepAt(Sweep(t, pos, k, now).0, i, now), i + 1)
    decreases k
  {
    if k == 0 {
      assert Sweep(t, pos, 1, now) == Sweep(SweepAt(t, Wrap(pos), now), Wrap(pos) + 1, 0, now);
    } else {
      assert Inspected(Wrap(pos) + 1, k - 1) == Inspected(pos, k);
      SweepTurn(SweepAt(t, Wrap(pos), now), Wrap(pos) + 1, k - 1, now);
    }
  }

  lemma {:induction false} SweepBefore(t: Table, pos: nat, k: nat, now: int, j: nat)
    requires Shaped(t) && pos <= MAX_EVENTS && j < MAX_EVENTS
    ensures k <= Distance(pos, j) ==> Sweep(t, pos, k, now).0.slots[j] == t.slots[j]
    ensures Sweep(t, pos, k, now).0.slots[MAX_EVENTS] == t.slots[MAX_EVENTS]
  {
    if k > 0 {
      SweepTurn(t, pos, k - 1, now);
      SweepBefore(t, pos, k - 1, now, j);
    }
  }

  /** Of MAX_EVENTS consecutive turns of the sweep exactly one, `k`, is about the client slot `j`: it
      finds the slot as it was and closes it if idle; every other turn leaves the slot alone.  No
      turn is about the listener. */
  lemma SweepCovers(t: Table, pos: nat, k: nat, now: int, j: nat)
    requires Shaped(t) && pos <= MAX_EVENTS && k < MAX_EVENTS && j < MAX_EVENTS
    ensures var (u, p) := Sweep(t, pos, k + 1, now);
            && u == SweepAt(Sweep(t, pos, k, now).0, Inspected(pos, k), now) && p == Inspected(pos, k) + 1
            && u.slots[j] == (if k != Distance(pos, j) then Sweep(t, pos, k, now).0.slots[j]
                              else if Idle(t.slots[j], now) then t.slots[j].(status := 0)
                              else t.slots[j])
            && u.slots[MAX_EVENTS] == t.slots[MAX_EVENTS]
    ensures Inspected(pos, k) == j <==> k == Distance(pos, j)
    ensures Inspected(pos, k) != MAX_EVENTS
  {
    SweepBefore(t, pos, k, now, j);
    SweepBefore(t, pos, k + 1, now, j);
    SweepTurn(t, pos, k, now);
    hide Sweep;
  }

  /** What a sweep does to a client slot: an idle one it comes to is closed, any other is unchanged. */
  lemma {:induction false} SweepEffect(t: Table, pos: nat, n: nat, now: int, j: nat)
    requires Good(t) && pos <= MAX_EVENTS && n <= MAX_EVENTS && j < MAX_EVENTS
    ensures var (u, p) := Sweep(t, pos, n, now);
            && Good(u)
            && u.slots[j] == (if Idle(t.slots[j], now) && Distance(pos, j) < n then t.slots[j].(status := 0)
                              else t.slots[j])
            && (Distance(pos, j) >= n ==> Distance(p, j) == Distance(pos, j) - n)
    decreases n
  {
    hide Agrees, Roles, Echoes;
    if n > 0 {
      GoodSweep(t, Wrap(pos), now);
      SweepEffect(SweepAt(t, Wrap(pos), now), Wrap(pos) + 1, n - 1, now, j);
    }
  }

  /** The passes of main: each sweeps 100 slots and then handles a batch. */
  datatype Pass = Pass(now: int, events: seq<Event>)

  /** A run of main: the table and checkpos before each pass. */
  ghost predicate History(tables: seq<Table>, positions: seq<nat>, passes: seq<Pass>) {
    && |tables| == |positions| == |passes| + 1
    && positions[0] <= MAX_EVENTS
    && forall m | 0 <= m < |passes| :: OnePass(tables[m], positions[m], passes[m], tables[m + 1], positions[m + 1])
  }

  ghost predicate OnePass(t: Table, pos: nat, pass: Pass, u: Table, next: nat) {
    && Shaped(t) && pos <= MAX_EVENTS
    && var (s, p) := Sweep(t, pos, SWEEP, pass.now);
      && p == next && Reported(s, pass.events)
      && AllDispatchable(s, pass.events, pass.now) && u == Batch(s, pass.events, pass.now)
  }

  /** Before the first pass: only the listener. */
  ghost predicate Started(t: Table) {
    && Shaped(t)
    && (forall i | 0 <= i < MAX_EVENTS :: t.slots[i].status == 0)
    && t.slots[MAX_EVENTS].status == 1 && t.slots[MAX_EVENTS].mask == In && t.slots[MAX_EVENTS].callback == AcceptConn
    && t.tree == map[t.slots[MAX_EVENTS].fd := Reg(In, MAX_EVENTS)]
    && t.slots[MAX_EVENTS].fd in t.open
  }

  lemma StartedGood(t: Table)
    requires Started(t)
    ensures Good(t)
  {
  }

  lemma PassGood(t: Table, pos: nat, pass: Pass, u: Table, next: nat)
    requires Good(t) && OnePass(t, pos, pass, u, next)
    ensures Good(u) && next <= MAX_EVENTS
  {
    hide Good, Sweep, Batch;
    SweepEffect(t, pos, SWEEP, pass.now, 0);
    BatchGood(Sweep(t, pos, SWEEP, pass.now).0, pass.events, pass.now);
  }

  /** Over whole runs: table, tree and roles agree, and connections whose sends were all full have
      echoed every byte in order. */
  lemma {:induction false} HistoryGood(tables: seq<Table>, positions: seq<nat>, passes: seq<Pass>, m: nat)
    requires History(tables, positions, passes) && Started(tables[0]) && m <= |passes|
    ensures Good(tables[m]) && positions[m] <= MAX_EVENTS
    ensures DescriptorsDistinct(tables[m])
    decreases m
  {
    hide Good, OnePass, Started, DescriptorsDistinct;
    if m == 0 {
      StartedGood(tables[0]);
    } else {
      HistoryGood(tables, positions, passes, m - 1);
      PassGood(tables[m - 1], positions[m - 1], passes[m - 1], tables[m], positions[m]);
    }
    GoodDistinct(tables[m]);
  }

  /** No two slots on the tree share a descriptor. */
  ghost predicate DescriptorsDistinct(t: Table) {
    forall i, j | 0 <= i < j < |t.slots| && t.slots[i].status == 1 && t.slots[j].status == 1 ::
      t.slots[i].fd != t.slots[j].fd
  }

  lemma GoodDistinct(t: Table)
    requires Good(t)
    ensures DescriptorsDistinct(t)
  {
    forall i, j | 0 <= i < j < |t.slots| && t.slots[i].status == 1 && t.slots[j].status == 1
      ensures t.slots[i].fd != t.slots[j].fd
    {
      if t.slots[i].fd == t.slots[j].fd { RegisteredDistinct(t, i, j); }
    }
  }

  /** A client on the tree at pass `from` that stays silent, and has been idle for the limit at each
      of the next 11 passes, is taken off within those passes. */
  lemma {:induction false} IdleClientRemoved(tables: seq<Table>, positions: seq<nat>, passes: seq<Pass>,
                                             from: nat, n: nat, j: nat)
    returns (m: nat)
    requires History(tables, positions, passes) && Started(tables[0]) && from + n <= |passes| && j < MAX_EVENTS
    requires positions[from] <= MAX_EVENTS && Distance(positions[from], j) < n * SWEEP
    requires Shaped(tables[from]) && tables[from].slots[j].status == 1
    requires forall k | from <= k < from + n :: passes[k].now - tables[from].slots[j].lastActive >= IDLE_LIMIT
    requires forall k | from <= k < from + n :: forall l | 0 <= l < |passes[k].events| ::
               passes[k].events[l].slot == j ==> Silent(passes[k].events[l])
    ensures from <= m < from + n && Shaped(tables[m]) && positions[m] <= MAX_EVENTS
    ensures tables[m].slots[j] == tables[from].slots[j]
    ensures Sweep(tables[m], positions[m], SWEEP, passes[m].now).0.slots[j] == tables[from].slots[j].(status := 0)
    decreases n
  {
    hide Good, Sweep, Batch;
    HistoryGood(tables, positions, passes, from);
    var t, pass := tables[from], passes[from];
    assert OnePass(t, positions[from], pass, tables[from + 1], positions[from + 1]);
    SweepEffect(t, positions[from], SWEEP, pass.now, j);
    if Distance(positions[from], j) < SWEEP {
      m := from;
    } else {
      BatchFrame(Sweep(t, positions[from], SWEEP, pass.now).0, pass.events, pass.now, j);
      m := IdleClientRemoved(tables, positions, passes, from + 1, n - 1, j);
    }
  }

  /** Eleven passes are enough from any position. */
  lemma ElevenPasses(pos: nat, j: nat)
    requires pos <= MAX_EVENTS && j < MAX_EVENTS
    ensures Distance(pos, j) < 11 * SWEEP
  {
  }

  /** So, wherever the sweep is and whatever the other clients do: a client that stays silent and idle
      is closed by the sweep of one of the next eleven passes. */
  lemma RemovedWithinEleven(tables: seq<Table>, positions: seq<nat>, passes: seq<Pass>, from: nat, j: nat)
    returns (m: nat)
    requires History(tables, positions, passes) && Started(tables[0]) && from + 11 <= |passes| && j < MAX_EVENTS
    requires Shaped(tables[from]) && tables[from].slots[j].status == 1
    requires forall k | from <= k < from + 11 :: passes[k].now - tables[from].slots[j].lastActive >= IDLE_LIMIT
    requires forall k | from <= k < from + 11 :: forall l | 0 <= l < |passes[k].events| ::
               passes[k].events[l].slot == j ==> Silent(passes[k].events[l])
    ensures from <= m < from + 11 && Shaped(tables[m]) && positions[m] <= MAX_EVENTS
    ensures tables[m].slots[j] == tables[from].slots[j]
    ensures Sweep(tables[m], positions[m], SWEEP, passes[m].now).0.slots[j] == tables[from].slots[j].(status := 0)
  {
    hide Good, Sweep, Batch, Started, Distance;
    HistoryGood(tables, positions, passes, from);
    ElevenPasses(positions[from], j);
    m := IdleClientRemoved(tables, positions, passes, from, 11, j);
  }
}
