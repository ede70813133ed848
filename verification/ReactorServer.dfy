/** The reactor's globals and the functions that update them in place: g_events as an array, the
    epoll tree, and checkpos.  Each method is proved equal to the function of Reactor. */
module ReactorServer {
  import opened Bytes
  import opened Reactor

  class Server {
    const slots: array<Slot>
    var tree: map<int, Reg>
    var open: set<int>
    var checkpos: nat
    ghost var received: seq<seq<byte>>
    ghost var echoed: seq<seq<byte>>
    ghost var partial: seq<bool>

    ghost function View(): Table
      reads this, slots
    {
      Table(slots[..], tree, open, received, echoed, partial)
    }

    ghost predicate Valid()
      reads this, slots
    {
      Shaped(View()) && checkpos <= MAX_EVENTS
    }

    /** initlistensocket: the listener in the last slot. */
    constructor (lfd: int, now: int)
      ensures Valid() && Started(View()) && checkpos == 0 && open == {lfd} && fresh(slots)
    {
      slots := new Slot[MAX_EVENTS + 1](i => if i == MAX_EVENTS then Slot(lfd, In, Callback.AcceptConn, 1, [], now)
                                             else Slot(0, NoMask, NoCallback, 0, [], 0));
      tree, open, checkpos := map[lfd := Reg(In, MAX_EVENTS)], {lfd}, 0;
      received := seq(MAX_EVENTS + 1, _ => []);
      echoed := seq(MAX_EVENTS + 1, _ => []);
      partial := seq(MAX_EVENTS + 1, _ => false);
    }

    /** eventset(&g_events[i], fd, call_back, ...) */
    method EventSet(i: nat, fd: int, callback: Callback, now: int)
      requires Valid() && i < slots.Length
      modifies slots
      ensures Valid() && View() == SetSlot(old(View()), i, Reactor.EventSet(old(slots[i]), fd, callback, now))
    {
      var data := slots[i].data;
      slots[i] := Slot(fd, NoMask, callback, 0, if callback != SendData then [] else data, now);
    }

    /** eventadd(g_epfd, mask, &g_events[i]).  The operation is only set up for a slot that is not on
        the tree. */
    method EventAdd(i: nat, mask: Mask)
      requires Valid() && i < slots.Length && slots[i].status == 0
      modifies slots, `tree
      ensures Valid() && View() == Reactor.EventAdd(old(View()), i, mask)
    {
      slots[i] := slots[i].(mask := mask, status := 1);
      tree := tree[slots[i].fd := Reg(mask, i)];
    }

    /** eventdel(g_epfd, &g_events[i]) */
    method EventDel(i: nat)
      requires Valid() && i < slots.Length
      modifies slots, `tree
      ensures Valid() && View() == Reactor.EventDel(old(View()), i)
    {
      if slots[i].status != 1 {
        return;
      }
      slots[i] := slots[i].(status := 0);
      tree := tree - {slots[i].fd};
    }

    /** recvdata */
    method RecvData(i: nat, io: Io, now: int)
      requires Valid() && i < MAX_EVENTS
      modifies slots, `tree, `open, `received
      ensures Valid() && View() == DoRecv(old(View()), i, io, now)
    {
      hide Reactor.EventAdd, Reactor.EventDel;
      var fd := slots[i].fd;
      EventDel(i);
      if io.Received? {
        ghost var d := View();
        slots[i] := slots[i].(data := io.bytes);
        EventSet(i, fd, Callback.SendData, now);
        assert View() == SetSlot(d, i, Reactor.EventSet(d.slots[i].(data := io.bytes), fd, Callback.SendData, now)) by {
          assert slots[..] == d.slots[i := slots[i]];
        }
        EventAdd(i, Out);
        received := received[i := received[i] + io.bytes];
      } else {
        open := open - {fd};
      }
    }

    /** senddata */
    method SendBack(i: nat, io: Io, now: int)
      requires Valid() && i < MAX_EVENTS && (io.Sent? ==> io.n <= |slots[i].data|)
      modifies slots, `tree, `open, `echoed, `partial
      ensures Valid() && View() == DoSend(old(View()), i, io, now)
    {
      var fd, data := slots[i].fd, slots[i].data;
      EventDel(i);
      if io.Sent? && io.n > 0 {
        EventSet(i, fd, Callback.RecvData, now);
        EventAdd(i, In);
        echoed := echoed[i := echoed[i] + data[..io.n]];
        partial := partial[i := partial[i] || io.n < |data|];
      } else {
        open := open - {fd};
      }
    }

    /** The search loop of acceptconn. */
    method FindFree() returns (i: nat)
      requires Valid()
      ensures i == FirstFree(View().slots, 0)
    {
      i := 0;
      while i < MAX_EVENTS && slots[i].status != 0
        invariant 0 <= i <= MAX_EVENTS && FirstFree(slots[..], i) == FirstFree(slots[..], 0)
      {
        i := i + 1;
      }
    }

    /** acceptconn: the first free slot, if there is one. */
    method AcceptConn(io: Io, now: int)
      requires Valid()
      modifies slots, `tree, `open, `received, `echoed, `partial
      ensures Valid() && View() == DoAccept(old(View()), io, now)
    {
      if !io.Accepted? {
        return;
      }
      var i := FindFree();
      open := open + {io.fd};
      if i == MAX_EVENTS || !io.nonblocking {
        return;
      }
      hide FirstFree, Reactor.Install;
      Install(i, io.fd, now);
    }

    /** The end of acceptconn: the connection takes the free slot. */
    method Install(i: nat, fd: int, now: int)
      requires Valid() && i < MAX_EVENTS
      modifies slots, `tree, `received, `echoed, `partial
      ensures Valid() && View() == Reactor.Install(old(View()), i, fd, now)
    {
      EventSet(i, fd, Callback.RecvData, now);
      EventAdd(i, In);
      received, echoed, partial := received[i := []], echoed[i := []], partial[i := false];
    }

    /** ev->call_back(...) */
    method CallBack(i: nat, io: Io, now: int)
      requires Valid() && i <= MAX_EVENTS && Possible(View(), i, io)
      requires i == MAX_EVENTS ==> slots[i].callback == Callback.AcceptConn
      modifies this, slots
      ensures Valid() && View() == Call(old(View()), i, io, now) && checkpos == old(checkpos)
    {
      hide DoAccept, DoRecv, DoSend;
      match slots[i].callback {
        case AcceptConn => AcceptConn(io, now);
        case RecvData => RecvData(i, io, now);
        case SendData => SendBack(i, io, now);
        case NoCallback =>
      }
    }

    /** The dispatch loop of main over one batch. */
    method HandleEvents(events: seq<Event>, now: int)
      requires Good(View()) && checkpos <= MAX_EVENTS
      requires Reported(View(), events) && AllDispatchable(View(), events, now)
      modifies this, slots
      ensures Valid() && View() == Batch(old(View()), events, now) && Good(View()) && checkpos == old(checkpos)
    {
      hide Good, Call, Possible, Reported;
      ghost var start := View();
      assert Shaped(start) by { GoodShaped(start); }
      var k := 0;
      assert events[0..] == events;
      while k < |events|
        invariant 0 <= k <= |events| && Valid() && AllDispatchable(View(), events[k..], now)
        invariant Batch(View(), events[k..], now) == Batch(start, events, now) && checkpos == old(checkpos)
      {
        var e := events[k];
        assert events[k..][0] == e && events[k..][1..] == events[k + 1..];
        if e.readable && slots[e.slot].mask == In {
          CallBack(e.slot, e.first, now);
        }
        if e.writable && slots[e.slot].mask == Out {
          CallBack(e.slot, e.second, now);
        }
        k := k + 1;
      }
      BatchGood(start, events, now);
    }

    /** One turn of the timeout loop: an idle client is closed, then taken off the tree. */
    method CheckSlot(i: nat, now: int)
      requires Valid() && i < MAX_EVENTS
      modifies slots, `tree, `open
      ensures Valid() && View() == SweepAt(old(View()), i, now)
    {
      hide Reactor.EventDel;
      if slots[i].status != 1 {
        return;
      }
      var duration := now - slots[i].lastActive;
      if duration >= IDLE_LIMIT {
        ghost var t := View();
        var fd := slots[i].fd;
        open, tree := open - {fd}, tree - {fd};
        EventDel(i);
        CloseThenDel(t, i);
      }
    }

    /** The timeout loop of main: the next 100 slots from checkpos. */
    method CheckTimeouts(now: int)
      requires Valid()
      modifies this, slots
      ensures Valid() && (View(), checkpos) == Sweep(old(View()), old(checkpos), SWEEP, now)
    {
      hide SweepAt;
      var i := 0;
      ghost var result := Sweep(View(), checkpos, SWEEP, now);
      while i < SWEEP
        invariant 0 <= i <= SWEEP && Valid() && Sweep(View(), checkpos, SWEEP - i, now) == result
      {
        if checkpos == MAX_EVENTS {
          checkpos := 0;
        }
        CheckSlot(checkpos, now);
        i, checkpos := i + 1, checkpos + 1;
      }
    }
  }

  /** close() before eventdel: the kernel has dropped the registration already. */
  lemma CloseThenDel(t: Table, i: nat)
    requires i < |t.slots| && t.slots[i].status == 1
    ensures var fd := t.slots[i].fd;
            Reactor.EventDel(t.(open := t.open - {fd}, tree := t.tree - {fd}), i)
            == Reactor.EventDel(t, i).(open := t.open - {fd})
  {
  }
}
