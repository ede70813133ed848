/** The select servers: a scan over all descriptors up to max_fd, and the faster scan over an index
    of the connected clients that stops once every ready one is handled. */
module SelectServers {

  const FD_SETSIZE := 1024

  /** What read() reports on a ready client: its end closed, data (or an error) otherwise. */
  datatype ReadResult = PeerClosed | Other

  /** The ready clients: what select() returned without the listener. */
  ghost function Ready(retRset: set<int>, listenFd: int): set<int> {
    retRset - {listenFd}
  }

  ghost function ToSet(s: seq<int>): set<int> {
    set x | x in s
  }

  ghost predicate Distinct(s: seq<int>) {
    forall i, j | 0 <= i < j < |s| :: s[i] != s[j]
  }

  lemma {:induction false} DistinctSize(s: seq<int>)
    requires Distinct(s)
    ensures |ToSet(s)| == |s|
  {
    if s != [] {
      var n := |s| - 1;
      DistinctSize(s[..n]);
      assert ToSet(s) == ToSet(s[..n]) + {s[n]};
      assert s[n] !in ToSet(s[..n]);
    } else {
      assert ToSet(s) == {};
    }
  }

  /** A subset as large as the whole is the whole. */
  lemma FullSubset(a: set<int>, b: set<int>)
    requires a <= b && |a| == |b|
    ensures a == b
  {
    assert b == (b - a) + a;
    assert |b| == |b - a| + |a|;
  }

  ghost predicate DistinctClients(cs: seq<int>) {
    forall i, j | 0 <= i < j < |cs| :: cs[i] >= 0 ==> cs[i] != cs[j]
  }

  /** The connected clients a table lists. */
  ghost function Listed(cs: seq<int>): set<int> {
    set fd | fd in cs && fd >= 0
  }

  /** The clients among `s` whose peer has closed. */
  ghost function ClosedAmong(s: set<int>, read: int -> ReadResult): set<int> {
    set fd | fd in s && read(fd) == PeerClosed
  }

  /** The ready clients the plain scan comes to: it starts above the listener. */
  ghost function ReadyAbove(retRset: set<int>, listenFd: int): set<int> {
    set fd | fd in Ready(retRset, listenFd) && fd > listenFd
  }

  /** all_rset after a round: a new client first, then the closed ones of those `handled` out. */
  ghost function AfterRound(all: set<int>, retRset: set<int>, listenFd: int, acceptFd: int, handled: set<int>,
                            read: int -> ReadResult): set<int>
  {
    all + (if listenFd in retRset then {acceptFd} else {}) - ClosedAmong(handled, read)
  }

  /** One by one: after a round a descriptor is watched exactly when it was, or is the new client, and
      was not handled with its end closed. */
  lemma RoundWatches(all: set<int>, retRset: set<int>, listenFd: int, acceptFd: int, handled: set<int>,
                     read: int -> ReadResult, fd: int)
    ensures fd in AfterRound(all, retRset, listenFd, acceptFd, handled, read)
            <==> (fd in all || (listenFd in retRset && fd == acceptFd)) && !(fd in handled && read(fd).PeerClosed?)
  {
  }

  /** A scan over `all` has passed `i` entries, has handled the clients of `todo` among them, each
      once, and counts `nready` more. */
  ghost predicate Handling(todo: set<int>, all: seq<int>, i: nat, handled: seq<int>, nready: int) {
    && i <= |all| && Distinct(handled) && nready + |handled| == |todo|
    && ToSet(handled) == todo * Listed(all[..i])
  }

  lemma HandlingSkip(todo: set<int>, all: seq<int>, i: nat, handled: seq<int>, nready: int)
    requires Handling(todo, all, i, handled, nready) && i < |all| && (all[i] < 0 || all[i] !in todo)
    ensures Handling(todo, all, i + 1, handled, nready)
  {
  }

  lemma HandlingTake(todo: set<int>, all: seq<int>, i: nat, handled: seq<int>, nready: int)
    requires Handling(todo, all, i, handled, nready) && DistinctClients(all)
    requires i < |all| && all[i] >= 0 && all[i] in todo
    ensures Handling(todo, all, i + 1, handled + [all[i]], nready - 1)
    ensures ToSet(handled + [all[i]]) == ToSet(handled) + {all[i]}
  {
    ListedNext(all, i);
    FreshClient(all, i);
    var more := handled + [all[i]];
    forall x ensures x in ToSet(more) <==> x in ToSet(handled) + {all[i]} {
      assert x in more <==> x in handled || x == all[i];
    }
    assert all[i] !in ToSet(handled);
  }

  /** When the count reaches zero, or the entries run out, everything ready has been handled. */
  lemma HandlingDone(todo: set<int>, all: seq<int>, i: nat, handled: seq<int>, nready: int)
    requires Handling(todo, all, i, handled, nready)
    requires nready == 0 || todo <= Listed(all[..i])
    ensures ToSet(handled) == todo
  {
    if nready == 0 {
      DistinctSize(handled);
      FullSubset(ToSet(handled), todo);
    }
  }

  lemma ClosedOneMore(all: set<int>, handled: set<int>, fd: int, read: int -> ReadResult)
    ensures all - ClosedAmong(handled + {fd}, read) == all - ClosedAmong(handled, read) - ClosedAmong({fd}, read)
  {
  }

  lemma ClosedNone(read: int -> ReadResult)
    ensures ClosedAmong({}, read) == {}
  {
  }

  /** The state of the indexed server between two calls of select. */
  class IndexedServer {
    const listenFd: int
    const clients: array<int>
    var maxIdx: int
    var maxFd: int
    var allRset: set<int>

    /** The index agrees with the descriptor set: the non-negative entries are distinct, lie at or
        below max_idx, and are exactly the watched descriptors other than the listener. */
    ghost predicate Valid()
      reads this, clients
    {
      && clients.Length == FD_SETSIZE && -1 <= maxIdx < FD_SETSIZE
      && listenFd >= 0 && listenFd in allRset
      && (forall i | 0 <= i < clients.Length :: clients[i] >= -1 && (clients[i] >= 0 ==> i <= maxIdx))
      && DistinctClients(clients[..])
      && Listed(clients[..]) == allRset - {listenFd}
      && (forall fd | fd in allRset :: 0 <= fd <= maxFd)
    }

    constructor (lfd: int)
      requires lfd >= 0
      ensures Valid() && listenFd == lfd && allRset == {lfd} && fresh(clients)
    {
      listenFd, maxFd, maxIdx, allRset := lfd, lfd, -1, {lfd};
      clients := new int[FD_SETSIZE](_ => -1);
    }

    /** A new client: into the descriptor set, and into the first free entry.  When there is none the
        source gives up ("too many clients"). */
    method AddClient(fd: int) returns (ok: bool)
      requires Valid() && fd >= 0 && fd !in allRset
      modifies this, clients
      ensures ok ==> Valid() && allRset == old(allRset) + {fd}
      ensures !ok <==> forall i | 0 <= i < clients.Length :: old(clients[i]) >= 0
    {
      ghost var before := clients[..];
      allRset := allRset + {fd};
      var i := 0;
      while i < FD_SETSIZE && clients[i] != -1
        invariant 0 <= i <= FD_SETSIZE
        invariant forall j | 0 <= j < i :: clients[j] != -1
      {
        i := i + 1;
      }
      if i == FD_SETSIZE {
        return false;
      }
      clients[i] := fd;
      assert clients[..] == before[i := fd];
      ListedAdd(before, i, fd);
      if i > maxIdx {
        maxIdx := i;
      }
      if fd > maxFd {
        maxFd := fd;
      }
      return true;
    }

    /** A client whose end is closed: out of the descriptor set and of the index. */
    method Drop(i: nat)
      requires Valid() && i < clients.Length && clients[i] >= 0
      modifies `allRset, clients
      ensures Valid() && clients[..] == old(clients[..])[i := -1]
      ensures allRset == old(allRset) - {old(clients[i])}
    {
      ghost var cs := clients[..];
      allRset := allRset - {clients[i]};
      clients[i] := -1;
      assert clients[..] == cs[i := -1];
      ListedRemove(cs, i);
    }

    /** What the scan does with a ready client: it is dropped when its end is closed. */
    method HandleClient(i: nat, read: int -> ReadResult)
      requires Valid() && i < clients.Length && clients[i] >= 0
      modifies `allRset, clients
      ensures Valid() && forall j | 0 <= j < clients.Length && j != i :: clients[j] == old(clients[j])
      ensures allRset == old(allRset) - ClosedAmong({old(clients[i])}, read)
    {
      if read(clients[i]).PeerClosed? {
        Drop(i);
      }
    }

    /** The scan of one round: `ready` is the number of ready clients still to be handled. */
    method ScanIndex(retRset: set<int>, ready: int, read: int -> ReadResult) returns (handled: seq<int>)
      requires Valid() && Ready(retRset, listenFd) <= allRset
      requires ready == |Ready(retRset, listenFd)| > 0
      modifies `allRset, clients
      ensures Valid()
      ensures Distinct(handled) && ToSet(handled) == Ready(retRset, listenFd)
      ensures allRset == old(allRset) - ClosedAmong(Ready(retRset, listenFd), read)
    {
      hide Handling, Distinct, ToSet, ClosedAmong, DistinctClients;
      ghost var todo, before := Ready(retRset, listenFd), clients[..];
      assert DistinctClients(before);
      handled := [];
      var nready := ready;
      var i := 0;
      HandlingStart(todo, before);
      ClosedNone(read);
      while i <= maxIdx
        invariant 0 <= i <= maxIdx + 1 && nready > 0 && Valid()
        invariant forall j | i <= j < clients.Length :: clients[j] == before[j]
        invariant Handling(todo, before, i, handled, nready)
        invariant allRset == old(allRset) - ClosedAmong(ToSet(handled), read)
      {
        var fd := clients[i];
        if fd >= 0 && fd in retRset {
          HandlingTake(todo, before, i, handled, nready);
          ClosedOneMore(old(allRset), ToSet(handled), fd, read);
          handled := handled + [fd];
          HandleClient(i, read);
          nready := nready - 1;
          if nready == 0 {
            HandlingDone(todo, before, i + 1, handled, nready);
            HandlingDistinct(todo, before, i + 1, handled, nready);
            return;
          }
        } else {
          HandlingSkip(todo, before, i, handled, nready);
        }
        i := i + 1;
      }
      ListedBelow(before, i);
      HandlingDone(todo, before, i, handled, nready);
      HandlingDistinct(todo, before, i, handled, nready);
    }

    /** One round of the event loop: accept when the listener is ready, then the ready clients. */
    method Round(retRset: set<int>, acceptFd: int, read: int -> ReadResult) returns (ok: bool, handled: seq<int>)
      requires Valid() && retRset != {} && retRset <= allRset
      requires listenFd in retRset ==> acceptFd >= 0 && acceptFd !in allRset
      modifies this, clients
      ensures ok ==> Valid() && Distinct(handled) && ToSet(handled) == Ready(retRset, listenFd)
      ensures ok ==> allRset == AfterRound(old(allRset), retRset, listenFd, acceptFd, Ready(retRset, listenFd), read)
      ensures (forall fd | fd in old(allRset) :: listenFd <= fd < FD_SETSIZE) ==> ok
    {
      ok, handled := true, [];
      var nready := |retRset|;
      ghost var todo := Ready(retRset, listenFd);
      if listenFd in retRset {
        assert retRset == todo + {listenFd};
        ghost var cs := clients[..];
        ok := AddClient(acceptFd);
        if forall fd | fd in old(allRset) :: listenFd <= fd < FD_SETSIZE {
          TableHasRoom(cs, listenFd);
        }
        if !ok {
          return;
        }
        nready := nready - 1;
        if nready == 0 {
          assert todo == {};
          return;
        }
      } else {
        assert retRset == todo;
      }
      handled := ScanIndex(retRset, nready, read);
    }
  }

  /** The state of the plain server: no index, a scan over the descriptors above the listener. */
  class RangeServer {
    const listenFd: int
    var maxFd: int
    var allRset: set<int>

    ghost predicate Valid()
      reads this
    {
      listenFd in allRset && forall fd | fd in allRset :: 0 <= fd <= maxFd
    }

    constructor (lfd: int)
      requires lfd >= 0
      ensures Valid() && listenFd == lfd && allRset == {lfd}
    {
      listenFd, maxFd, allRset := lfd, lfd, {lfd};
    }

    method AddClient(fd: int)
      requires Valid() && fd >= 0
      modifies this
      ensures Valid() && allRset == old(allRset) + {fd}
    {
      allRset := allRset + {fd};
      if fd > maxFd {
        maxFd := fd;
      }
    }

    /** What the scan does with a ready client. */
    method HandleClient(fd: int, read: int -> ReadResult)
      requires Valid() && fd != listenFd
      modifies `allRset
      ensures Valid() && allRset == old(allRset) - ClosedAmong({fd}, read)
    {
      if read(fd).PeerClosed? {
        allRset := allRset - {fd};
      }
    }

    /** The scan of one round. */
    method ScanRange(retRset: set<int>, ready: int, read: int -> ReadResult) returns (handled: seq<int>)
      requires Valid() && Ready(retRset, listenFd) <= allRset
      requires ready == |Ready(retRset, listenFd)| > 0
      modifies `allRset
      ensures Valid() && Distinct(handled)
      ensures ToSet(handled) == ReadyAbove(retRset, listenFd)
      ensures allRset == old(allRset) - ClosedAmong(ToSet(handled), read)
    {
      hide Handling, Distinct, ToSet, ClosedAmong;
      ghost var todo, range := Ready(retRset, listenFd), Above(listenFd, maxFd);
      handled := [];
      var nready := ready;
      var fd := listenFd + 1;
      HandlingStart(todo, range);
      ClosedNone(read);
      while fd <= maxFd
        invariant listenFd < fd <= maxFd + 1 && Valid() && nready > 0
        invariant Handling(todo, range, fd - listenFd - 1, handled, nready)
        invariant allRset == old(allRset) - ClosedAmong(ToSet(handled), read)
      {
        ghost var i := fd - listenFd - 1;
        assert range[i] == fd;
        if fd in retRset {
          HandlingTake(todo, range, i, handled, nready);
          ClosedOneMore(old(allRset), ToSet(handled), fd, read);
          handled := handled + [fd];
          HandleClient(fd, read);
          nready := nready - 1;
          if nready == 0 {
            HandlingDone(todo, range, i + 1, handled, nready);
            HandledAbove(todo, listenFd, maxFd, i + 1, handled, nready);
            return;
          }
        } else {
          HandlingSkip(todo, range, i, handled, nready);
        }
        fd := fd + 1;
      }
      HandledAbove(todo, listenFd, maxFd, fd - listenFd - 1, handled, nready);
    }

    /** One round of the event loop. */
    method Round(retRset: set<int>, acceptFd: int, read: int -> ReadResult) returns (handled: seq<int>)
      requires Valid() && retRset != {} && retRset <= allRset
      requires listenFd in retRset ==> acceptFd >= 0 && acceptFd !in allRset
      modifies this
      ensures Valid() && Distinct(handled) && ToSet(handled) == ReadyAbove(retRset, listenFd)
      ensures allRset == AfterRound(old(allRset), retRset, listenFd, acceptFd, ReadyAbove(retRset, listenFd), read)
    {
      handled := [];
      var nready := |retRset|;
      ghost var todo := Ready(retRset, listenFd);
      if listenFd in retRset {
        assert retRset == todo + {listenFd};
        AddClient(acceptFd);
        nready := nready - 1;
        if nready == 0 {
          assert todo == {};
          return;
        }
      } else {
        assert retRset == todo;
      }
      handled := ScanRange(retRset, nready, read);
    }
  }

  /** FD_SETSIZE clients do not fit between the listener and FD_SETSIZE: the table has a free entry
      as long as the clients' numbers are such as a descriptor set can hold. */
  lemma TableHasRoom(cs: seq<int>, listenFd: int)
    requires |cs| == FD_SETSIZE && DistinctClients(cs) && listenFd >= 0
    requires forall fd | fd in Listed(cs) :: listenFd < fd < FD_SETSIZE
    ensures exists i | 0 <= i < |cs| :: cs[i] < 0
  {
    if forall i | 0 <= i < |cs| :: cs[i] >= 0 {
      DistinctSize(cs);
      var numbers: seq<int> := seq(FD_SETSIZE, n => n);
      DistinctSize(numbers);
      forall fd | fd in ToSet(cs) ensures fd in ToSet(numbers) - {0} {
        assert fd in Listed(cs) && numbers[fd] == fd;
      }
      assert numbers[0] in ToSet(numbers);
      SubsetSize(ToSet(cs), ToSet(numbers) - {0});
    }
  }

  lemma SubsetSize(a: set<int>, b: set<int>)
    requires a <= b
    ensures |a| <= |b|
  {
    assert b == a + (b - a);
  }

  /** The descriptors the plain scan looks at, in order. */
  ghost function Above(listenFd: int, maxFd: int): (r: seq<int>)
    requires 0 <= listenFd <= maxFd
    ensures |r| == maxFd - listenFd && DistinctClients(r)
    ensures forall i | 0 <= i < |r| :: r[i] == listenFd + 1 + i
  {
    seq(maxFd - listenFd, i => listenFd + 1 + i)
  }

  lemma HandledAbove(todo: set<int>, listenFd: int, maxFd: int, i: nat, handled: seq<int>, nready: int)
    requires 0 <= listenFd <= maxFd && Handling(todo, Above(listenFd, maxFd), i, handled, nready)
    requires (nready == 0 && ToSet(handled) == todo) || i == maxFd - listenFd
    requires forall fd | fd in todo :: fd <= maxFd
    ensures ToSet(handled) == (set fd | fd in todo && fd > listenFd) && Distinct(handled)
  {
    var range := Above(listenFd, maxFd);
    forall fd | fd in todo && listenFd < fd && i == maxFd - listenFd ensures fd in range[..i] {
      assert range[..i][fd - listenFd - 1] == fd;
    }
  }

  /** The two scans handle the same clients exactly when no ready client has a descriptor below the
      listener's: the plain scan starts above it. */
  lemma ScansAgreeIff(retRset: set<int>, listenFd: int, byIndex: seq<int>, byRange: seq<int>)
    requires ToSet(byIndex) == Ready(retRset, listenFd) && Distinct(byIndex) && Distinct(byRange)
    requires ToSet(byRange) == ReadyAbove(retRset, listenFd)
    ensures multiset(byIndex) == multiset(byRange) <==> forall fd | fd in retRset :: fd >= listenFd
  {
    if multiset(byIndex) == multiset(byRange) {
      forall fd | fd in retRset ensures fd >= listenFd {
        if fd != listenFd {
          assert fd in ToSet(byIndex);
          assert fd in multiset(byIndex);
          assert fd in ToSet(byRange);
        }
      }
    } else if forall fd | fd in retRset :: fd >= listenFd {
      assert ToSet(byIndex) == ToSet(byRange);
      SameMultiset(byIndex, byRange);
    }
  }

  lemma SameMultiset(a: seq<int>, b: seq<int>)
    requires Distinct(a) && Distinct(b) && ToSet(a) == ToSet(b)
    ensures multiset(a) == multiset(b)
  {
    forall x ensures multiset(a)[x] == multiset(b)[x] {
      OnceEach(a, x);
      OnceEach(b, x);
      assert x in a <==> x in ToSet(a);
      assert x in b <==> x in ToSet(b);
    }
  }

  lemma {:induction false} OnceEach(s: seq<int>, x: int)
    requires Distinct(s)
    ensures multiset(s)[x] == if x in s then 1 else 0
  {
    if s != [] {
      var n := |s| - 1;
      OnceEach(s[..n], x);
      assert s == s[..n] + [s[n]];
    }
  }

  lemma HandlingStart(todo: set<int>, all: seq<int>)
    ensures Handling(todo, all, 0, [], |todo|) && ToSet([]) == {}
  {
  }

  lemma HandlingDistinct(todo: set<int>, all: seq<int>, i: nat, handled: seq<int>, nready: int)
    requires Handling(todo, all, i, handled, nready)
    ensures Distinct(handled)
  {
  }

  lemma ListedAdd(cs: seq<int>, i: nat, fd: int)
    requires i < |cs| && cs[i] == -1 && fd >= 0
    ensures Listed(cs[i := fd]) == Listed(cs) + {fd}
  {
    var ds := cs[i := fd];
    forall x | x in Listed(cs) + {fd} ensures x in ds {
      if x != fd {
        var j :| 0 <= j < |cs| && cs[j] == x;
        assert ds[j] == x;
      } else {
        assert ds[i] == x;
      }
    }
  }

  lemma ListedRemove(cs: seq<int>, i: nat)
    requires i < |cs| && cs[i] >= 0 && DistinctClients(cs)
    ensures Listed(cs[i := -1]) == Listed(cs) - {cs[i]} && DistinctClients(cs[i := -1])
  {
    var ds := cs[i := -1];
    forall x | x in Listed(cs) - {cs[i]} ensures x in ds {
      var j :| 0 <= j < |cs| && cs[j] == x;
      assert ds[j] == x;
    }
    forall x | x in Listed(ds) ensures x in Listed(cs) && x != cs[i] {
      var j :| 0 <= j < |ds| && ds[j] == x;
      assert j != i && cs[j] == x;
    }
  }

  lemma ListedNext(cs: seq<int>, i: nat)
    requires i < |cs|
    ensures Listed(cs[..i + 1]) == Listed(cs[..i]) + if cs[i] >= 0 then {cs[i]} else {}
  {
  }

  /** Nothing is connected beyond max_idx. */
  lemma ListedBelow(cs: seq<int>, n: nat)
    requires n <= |cs| && forall j | n <= j < |cs| :: cs[j] < 0
    ensures Listed(cs) == Listed(cs[..n])
  {
  }

  lemma FreshClient(cs: seq<int>, i: nat)
    requires i < |cs| && cs[i] >= 0 && DistinctClients(cs)
    ensures cs[i] !in Listed(cs[..i])
  {
  }
}
