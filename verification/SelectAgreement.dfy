/** Both select servers over any number of rounds, with descriptors numbered as the kernel does it:
    socket() and accept() return the least number not in use. */
module SelectAgreement {
  import opened Options
  import opened Runs
  import opened SelectServers

  /** The open descriptors of the process and all_rset. */
  datatype Process = Process(open: set<int>, all: set<int>)

  /** What the system calls of one round report: the descriptors select() finds ready, what accept()
      returns when the listener is one of them, and what read() says of each client. */
  datatype Reports = Reports(ready: set<int>, acceptFd: int, read: int -> ReadResult)

  ghost predicate LowestFree(open: set<int>, fd: int) {
    fd >= 0 && fd !in open && forall n | 0 <= n < fd :: n in open
  }

  ghost predicate Possible(p: Process, listenFd: int, r: Reports) {
    && r.ready != {} && r.ready <= p.all
    && (listenFd in r.ready ==> LowestFree(p.open, r.acceptFd))
  }

  /** A round that handles the clients `handled`. */
  ghost function Serve(p: Process, listenFd: int, r: Reports, handled: set<int>): Process {
    Process(AfterRound(p.open, r.ready, listenFd, r.acceptFd, handled, r.read),
            AfterRound(p.all, r.ready, listenFd, r.acceptFd, handled, r.read))
  }

  /** IndexedServer.Round, which handles every ready client. */
  ghost function IndexedStep(listenFd: int): (Process, Reports) -> Option<Process> {
    (p: Process, r: Reports) =>
      if Possible(p, listenFd, r) then Some(Serve(p, listenFd, r, Ready(r.ready, listenFd))) else None
  }

  /** RangeServer.Round, which handles those above the listener. */
  ghost function RangeStep(listenFd: int): (Process, Reports) -> Option<Process> {
    (p: Process, r: Reports) =>
      if Possible(p, listenFd, r) then Some(Serve(p, listenFd, r, ReadyAbove(r.ready, listenFd))) else None
  }

  /** After socket(): it took the least free number, and nothing else is watched yet. */
  ghost predicate Started(p: Process, listenFd: int) {
    && listenFd in p.open && LowestFree(p.open - {listenFd}, listenFd)
    && p.all == {listenFd}
  }

  /** Every number up to the listener's is in use and stays so; what is watched is open, and no
      client is below the listener. */
  ghost predicate Settled(p: Process, listenFd: int) {
    && (forall n | 0 <= n <= listenFd :: n in p.open)
    && p.all <= p.open
    && (forall fd | fd in p.all :: fd >= listenFd)
  }

  lemma StartedSettled(p: Process, listenFd: int)
    requires Started(p, listenFd)
    ensures Settled(p, listenFd)
  {
    forall n | 0 <= n < listenFd ensures n in p.open {
      assert n in p.open - {listenFd};
    }
  }

  lemma SameClients(p: Process, listenFd: int, r: Reports)
    requires Settled(p, listenFd) && Possible(p, listenFd, r)
    ensures Ready(r.ready, listenFd) == ReadyAbove(r.ready, listenFd)
  {
  }

  lemma SettledStep(p: Process, listenFd: int, r: Reports)
    requires Settled(p, listenFd) && Possible(p, listenFd, r)
    ensures IndexedStep(listenFd)(p, r) == RangeStep(listenFd)(p, r)
    ensures Settled(IndexedStep(listenFd)(p, r).value, listenFd)
  {
    SameClients(p, listenFd, r);
  }

  /** In every state of a run of either server: the two scans handle the same clients, each once,
      whatever select() reports. */
  ghost function ScansAlike(listenFd: int): Process -> bool {
    (p: Process) => forall r: Reports :: Possible(p, listenFd, r) ==>
                      Ready(r.ready, listenFd) == ReadyAbove(r.ready, listenFd)
  }

  /** Any number of rounds from the start: whatever the system calls report, one server passes through
      a run if and only if the other does, ending with the same descriptors watched and open; and in
      every state passed they handle the same clients. */
  lemma ServersAgree(p: Process, listenFd: int, rounds: seq<Reports>, t: Process)
    requires Started(p, listenFd)
    ensures Run(IndexedStep(listenFd), p, rounds, t) <==> Run(RangeStep(listenFd), p, rounds, t)
    ensures Always(IndexedStep(listenFd), p, rounds, ScansAlike(listenFd))
    ensures Run(IndexedStep(listenFd), p, rounds, t) ==> forall fd | fd in t.all :: fd >= listenFd
  {
    StartedSettled(p, listenFd);
    AgreeFrom(p, listenFd, rounds, t);
  }

  lemma {:induction false} AgreeFrom(p: Process, listenFd: int, rounds: seq<Reports>, t: Process)
    requires Settled(p, listenFd)
    ensures Run(IndexedStep(listenFd), p, rounds, t) <==> Run(RangeStep(listenFd), p, rounds, t)
    ensures Always(IndexedStep(listenFd), p, rounds, ScansAlike(listenFd))
    ensures Run(IndexedStep(listenFd), p, rounds, t) ==> Settled(t, listenFd)
    decreases |rounds|
  {
    forall r: Reports | Possible(p, listenFd, r)
      ensures Ready(r.ready, listenFd) == ReadyAbove(r.ready, listenFd)
    {
      SameClients(p, listenFd, r);
    }
    assert ScansAlike(listenFd)(p);
    hide Settled, Possible, Serve, ScansAlike;
    if rounds != [] && Possible(p, listenFd, rounds[0]) {
      SettledStep(p, listenFd, rounds[0]);
      AgreeFrom(IndexedStep(listenFd)(p, rounds[0]).value, listenFd, rounds[1..], t);
    }
  }

  // ---------------------------------------------------------------- the two event loops

  /** The handled clients of each round are those it had to handle, each once. */
  ghost predicate HandledInTurn(handled: seq<seq<int>>, rounds: seq<Reports>, listenFd: int) {
    && |handled| == |rounds|
    && forall k | 0 <= k < |rounds| :: Distinct(handled[k]) && ToSet(handled[k]) == Ready(rounds[k].ready, listenFd)
  }

  /** What both loops start each round from. */
  ghost predicate AtRound(all: set<int>, p: Process, listenFd: int) {
    all == p.all && Settled(p, listenFd)
  }

  lemma NextRound(p: Process, listenFd: int, rounds: seq<Reports>, k: nat, t: Process) returns (q: Process)
    requires k < |rounds| && Settled(p, listenFd) && Run(IndexedStep(listenFd), p, rounds[k..], t)
    ensures Possible(p, listenFd, rounds[k]) && q == Serve(p, listenFd, rounds[k], Ready(rounds[k].ready, listenFd))
    ensures Settled(q, listenFd) && Run(IndexedStep(listenFd), q, rounds[k + 1..], t)
    ensures rounds[k].ready != {} && rounds[k].ready <= p.all && forall fd | fd in p.all :: fd >= listenFd
    ensures listenFd in rounds[k].ready ==> rounds[k].acceptFd >= 0 && rounds[k].acceptFd !in p.all
    ensures q.all == AfterRound(p.all, rounds[k].ready, listenFd, rounds[k].acceptFd,
                                Ready(rounds[k].ready, listenFd), rounds[k].read)
    ensures Ready(rounds[k].ready, listenFd) == ReadyAbove(rounds[k].ready, listenFd)
  {
    assert rounds[k..][0] == rounds[k] && rounds[k..][1..] == rounds[k + 1..];
    SettledStep(p, listenFd, rounds[k]);
    SameClients(p, listenFd, rounds[k]);
    q := IndexedStep(listenFd)(p, rounds[k]).value;
  }

  /** accept() returns only numbers that a descriptor set can hold. */
  ghost predicate Holdable(rounds: seq<Reports>, listenFd: int) {
    forall k | 0 <= k < |rounds| && listenFd in rounds[k].ready :: rounds[k].acceptFd < FD_SETSIZE
  }

  lemma StaysHoldable(p: Process, listenFd: int, rounds: seq<Reports>, k: nat)
    requires k < |rounds| && Holdable(rounds, listenFd) && forall fd | fd in p.all :: fd < FD_SETSIZE
    ensures forall fd | fd in Serve(p, listenFd, rounds[k], Ready(rounds[k].ready, listenFd)).all :: fd < FD_SETSIZE
  {
  }

  lemma HandledMore(handled: seq<seq<int>>, now: seq<int>, rounds: seq<Reports>, k: nat, listenFd: int)
    requires k < |rounds| && HandledInTurn(handled, rounds[..k], listenFd)
    requires Distinct(now) && ToSet(now) == Ready(rounds[k].ready, listenFd)
    ensures HandledInTurn(handled + [now], rounds[..k + 1], listenFd)
  {
    hide Distinct, ToSet, Ready;
  }

  /** The loop of server_1.c: as long as accept() returns numbers a descriptor set can hold, it never
      gives up, ends with the descriptors of the run watched, and handles each ready client once. */
  method IndexedLoop(s: IndexedServer, rounds: seq<Reports>, ghost p: Process, ghost t: Process)
    returns (handled: seq<seq<int>>)
    requires s.Valid() && AtRound(s.allRset, p, s.listenFd) && Run(IndexedStep(s.listenFd), p, rounds, t)
    requires Holdable(rounds, s.listenFd) && forall fd | fd in s.allRset :: fd < FD_SETSIZE
    modifies s, s.clients
    ensures s.Valid() && s.allRset == t.all && HandledInTurn(handled, rounds, s.listenFd)
  {
    hide Settled, Serve, HandledInTurn, Distinct, ToSet, Run, Holdable;
    ghost var q := p;
    handled := [];
    LoopStart(rounds, s.listenFd);
    for k := 0 to |rounds|
      invariant s.Valid() && AtRound(s.allRset, q, s.listenFd) && Run(IndexedStep(s.listenFd), q, rounds[k..], t)
      invariant forall fd | fd in s.allRset :: fd < FD_SETSIZE
      invariant HandledInTurn(handled, rounds[..k], s.listenFd)
    {
      StaysHoldable(q, s.listenFd, rounds, k);
      q := NextRound(q, s.listenFd, rounds, k, t);
      var ok, now := s.Round(rounds[k].ready, rounds[k].acceptFd, rounds[k].read);
      assert ok;
      HandledMore(handled, now, rounds, k, s.listenFd);
      handled := handled + [now];
    }
    LoopEnd(rounds, q, s.listenFd, t);
  }

  /** The loop of server.c, on the same reports: the same descriptors watched, the same clients
      handled in every round. */
  method RangeLoop(s: RangeServer, rounds: seq<Reports>, ghost p: Process, ghost t: Process)
    returns (handled: seq<seq<int>>)
    requires s.Valid() && AtRound(s.allRset, p, s.listenFd) && Run(IndexedStep(s.listenFd), p, rounds, t)
    modifies s
    ensures s.Valid() && s.allRset == t.all && HandledInTurn(handled, rounds, s.listenFd)
  {
    hide Settled, Serve, HandledInTurn, Distinct, ToSet, Run;
    ghost var q := p;
    handled := [];
    LoopStart(rounds, s.listenFd);
    for k := 0 to |rounds|
      invariant s.Valid() && AtRound(s.allRset, q, s.listenFd) && Run(IndexedStep(s.listenFd), q, rounds[k..], t)
      invariant HandledInTurn(handled, rounds[..k], s.listenFd)
    {
      q := NextRound(q, s.listenFd, rounds, k, t);
      var now := s.Round(rounds[k].ready, rounds[k].acceptFd, rounds[k].read);
      HandledMore(handled, now, rounds, k, s.listenFd);
      handled := handled + [now];
    }
    LoopEnd(rounds, q, s.listenFd, t);
  }

  lemma LoopStart(rounds: seq<Reports>, listenFd: int)
    ensures rounds[0..] == rounds && rounds[..0] == [] && HandledInTurn([], rounds[..0], listenFd)
  {
  }

  lemma LoopEnd(rounds: seq<Reports>, q: Process, listenFd: int, t: Process)
    requires Run(IndexedStep(listenFd), q, rounds[|rounds|..], t)
    ensures rounds[..|rounds|] == rounds && q == t
  {
  }
}
