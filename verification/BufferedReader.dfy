/** my_read and Readline: a line reader over a 100-byte buffer that survives between calls. */
module BufferedReader {
  import opened Bytes

  const BUFFER := 100

  /** What the descriptor has in store for successive read() calls. */
  datatype ReadEvent = Data(bytes: seq<byte>) | Interrupted | EndOfFile | ReadError

  /** A read() that succeeds delivers at least one byte. */
  predicate Sound(events: seq<ReadEvent>) {
    forall i | 0 <= i < |events| && events[i].Data? :: events[i].bytes != []
  }

  /** A logical stream: the bytes up to an end of file or an error, and what would come after. */
  datatype Stream = Stream(bytes: seq<byte>, broken: bool, later: seq<ReadEvent>)

  /** The stream behind a list of events, however the bytes are split and interrupted. */
  function Upcoming(events: seq<ReadEvent>): Stream {
    if events == [] then Stream([], false, [])
    else match events[0]
         case Data(d) => var s := Upcoming(events[1..]); s.(bytes := d + s.bytes)
         case Interrupted => Upcoming(events[1..])
         case EndOfFile => Stream([], false, events[1..])
         case ReadError => Stream([], true, events[1..])
  }

  /** How many bytes Readline takes: up to and including the first LF, at most `room`. */
  function Span(b: seq<byte>, room: nat): (k: nat)
    ensures k <= room && k <= |b|
  {
    if room == 0 || b == [] then 0
    else if b[0] == LF then 1
    else 1 + Span(b[1..], room - 1)
  }

  predicate EndsLine(b: seq<byte>, k: nat)
    requires k <= |b|
  {
    k > 0 && b[k - 1] == LF
  }

  /** The bytes taken hold no LF but at their end, and stop early only at the end of the stream. */
  lemma {:induction false} SpanIsLine(b: seq<byte>, room: nat)
    ensures var k := Span(b, room);
            && (forall i | 0 <= i < k - 1 :: b[i] != LF)
            && (EndsLine(b, k) || k == room || k == |b|)
    decreases room
  {
    if room > 0 && b != [] && b[0] != LF {
      SpanIsLine(b[1..], room - 1);
      var k := Span(b[1..], room - 1);
      assert forall i | 1 <= i < |b| :: b[i] == b[1..][i - 1];
    }
  }

  lemma {:induction false} SpanUnique(b: seq<byte>, room: nat, k: nat)
    requires k <= room && k <= |b|
    requires forall i | 0 <= i < k - 1 :: b[i] != LF
    requires EndsLine(b, k) || k == room || k == |b|
    ensures Span(b, room) == k
    decreases room
  {
    if k > 0 && b[0] != LF {
      assert forall i | 1 <= i < |b| :: b[i] == b[1..][i - 1];
      SpanUnique(b[1..], room - 1, k - 1);
    }
  }

  /** The kernel's side of one descriptor. */
  class Descriptor {
    var events: seq<ReadEvent>

    constructor (e: seq<ReadEvent>)
      ensures events == e
    {
      events := e;
    }

    /** read(fd, buf, BUFFER): `n` as returned, and whether errno is EINTR. */
    method Read(buf: array<byte>) returns (n: int, interrupted: bool)
      requires buf.Length == BUFFER && Sound(events)
      modifies this, buf
      ensures Sound(events) && n <= BUFFER && |events| <= |old(events)|
      ensures n > 0 ==> Upcoming(old(events)).bytes == buf[..n] + Upcoming(events).bytes
                        && Upcoming(old(events)).broken == Upcoming(events).broken
                        && Upcoming(old(events)).later == Upcoming(events).later
      ensures n == 0 ==> Upcoming(old(events)) == Stream([], false, events)
      ensures n < 0 ==> if interrupted then |events| < |old(events)| && Upcoming(events) == Upcoming(old(events))
                        else Upcoming(old(events)) == Stream([], true, events)
    {
      interrupted := false;
      if events == [] {
        return 0, false;
      }
      match events[0] {
        case Data(d) =>
          n := if |d| <= BUFFER then |d| else BUFFER;
          forall i | 0 <= i < n { buf[i] := d[i]; }
          assert buf[..n] == d[..n];
          if n < |d| {
            events := [Data(d[n..])] + events[1..];
            assert d == d[..n] + d[n..];
            assert events[1..] == old(events)[1..];
            assert d[..n] + d[n..] + Upcoming(events[1..]).bytes == d[..n] + (d[n..] + Upcoming(events[1..]).bytes);
          } else {
            events := events[1..];
          }
        case Interrupted => n, interrupted, events := -1, true, events[1..];
        case EndOfFile => n, events := 0, events[1..];
        case ReadError => n, events := -1, events[1..];
      }
    }
  }

  /** The static variables of my_read. */
  class Reader {
    var readCnt: int
    var readPtr: nat
    const readBuf: array<byte>
    const fd: Descriptor

    ghost predicate Valid()
      reads this, fd
    {
      && readBuf.Length == BUFFER && Sound(fd.events)
      && (readCnt > 0 ==> readPtr + readCnt <= BUFFER)
    }

    ghost function Unread(): seq<byte>
      requires Valid()
      reads this, readBuf, fd
    {
      if readCnt > 0 then readBuf[readPtr..readPtr + readCnt] else []
    }

    /** The logical stream: what is buffered and not yet handed out, then what will be read. */
    ghost function View(): Stream
      requires Valid()
      reads this, readBuf, fd
    {
      var s := Upcoming(fd.events);
      s.(bytes := Unread() + s.bytes)
    }

    constructor (d: Descriptor)
      requires Sound(d.events)
      ensures Valid() && fd == d && View() == Upcoming(d.events) && fresh(readBuf)
    {
      fd := d;
      readBuf := new byte[BUFFER];
      readCnt, readPtr := 0, 0;
      new;
      assert [] + Upcoming(d.events).bytes == Upcoming(d.events).bytes;
    }

    /** The refill loop of my_read: read() again while it is interrupted. */
    method Refill()
      requires Valid() && readCnt <= 0
      modifies this, readBuf, fd
      ensures Valid()
      ensures readCnt > 0 ==> readPtr == 0 && View() == old(View())
      ensures readCnt == 0 ==> old(View()) == Stream([], false, fd.events)
      ensures readCnt < 0 ==> old(View()) == Stream([], true, fd.events)
    {
      ghost var s := Upcoming(fd.events);
      assert View() == s by { assert [] + s.bytes == s.bytes; }
      var interrupted;
      readCnt, interrupted := fd.Read(readBuf);
      while readCnt < 0 && interrupted
        invariant Sound(fd.events) && readCnt <= BUFFER
        invariant readCnt < 0 && interrupted ==> Upcoming(fd.events) == s
        invariant readCnt > 0 ==> s == Upcoming(fd.events).(bytes := readBuf[..readCnt] + Upcoming(fd.events).bytes)
        invariant readCnt == 0 ==> s == Stream([], false, fd.events)
        invariant readCnt < 0 && !interrupted ==> s == Stream([], true, fd.events)
        decreases |fd.events|, readCnt < 0 && interrupted
      {
        readCnt, interrupted := fd.Read(readBuf);
      }
      readPtr := 0;
    }

    /** my_read(fd, &c): the next byte of the stream; 0 at end of file, -1 on an error. */
    method MyRead() returns (rc: int, c: byte)
      requires Valid()
      modifies this, readBuf, fd
      ensures Valid()
      ensures old(View()).bytes != [] ==>
                rc == 1 && c == old(View()).bytes[0] && View() == old(View()).(bytes := old(View()).bytes[1..])
      ensures old(View()).bytes == [] ==>
                rc == (if old(View()).broken then -1 else 0) && View() == Upcoming(old(View()).later)
    {
      c := NUL;
      if readCnt <= 0 {
        Refill();
        if readCnt <= 0 {
          assert View() == Upcoming(fd.events) by {
            assert [] + Upcoming(fd.events).bytes == Upcoming(fd.events).bytes;
          }
          return if readCnt < 0 then -1 else 0, c;
        }
      }
      ghost var was, unread := View(), Unread();
      readCnt := readCnt - 1;
      c := readBuf[readPtr];
      readPtr := readPtr + 1;
      assert Unread() == unread[1..];
      assert was.bytes[1..] == unread[1..] + Upcoming(fd.events).bytes;
      return 1, c;
    }

    /** Readline(fd, buf, maxlen): the next line of the stream, or as much as fits.  The NUL takes one
        byte even when maxlen is 0. */
    method Readline(buf: array<byte>, maxlen: nat) returns (n: int)
      requires Valid() && maxlen <= buf.Length && buf.Length > 0 && buf != readBuf
      modifies this, readBuf, fd, buf
      ensures Valid()
      ensures var s, room := old(View()), if maxlen == 0 then 0 else maxlen - 1;
              var k := Span(s.bytes, room);
              && buf[..k] == s.bytes[..k]
              && (n >= 0 ==> buf[k] == NUL)
              && if EndsLine(s.bytes, k) || k == room then
                   && View() == s.(bytes := s.bytes[k..])
                   && n == if EndsLine(s.bytes, k) then k else room + 1
                 else
                   && k == |s.bytes| && View() == Upcoming(s.later)
                   && n == if s.broken then -1 else k
    {
      hide Upcoming, Span, View, Valid;
      ghost var s, room := View(), if maxlen == 0 then 0 else maxlen - 1;
      n := 1;
      while n < maxlen
        invariant 1 <= n <= room + 1 && Valid()
        invariant n - 1 <= |s.bytes| && View() == Stream(s.bytes[n - 1..], s.broken, s.later)
        invariant buf[..n - 1] == s.bytes[..n - 1]
        invariant forall i | 0 <= i < n - 1 :: s.bytes[i] != LF
        decreases maxlen - n
      {
        var rc, c := MyRead();
        if rc == 1 {
          assert c == s.bytes[n - 1] && s.bytes[n - 1..][1..] == s.bytes[n..];
          buf[n - 1] := c;
          assert buf[..n] == s.bytes[..n];
          if c == LF {
            SpanUnique(s.bytes, room, n);
            buf[n] := NUL;
            assert buf[..n] == s.bytes[..n];
            return n;
          }
        } else if rc == 0 {
          SpanUnique(s.bytes, room, n - 1);
          buf[n - 1] := NUL;
          assert buf[..n - 1] == s.bytes[..n - 1];
          return n - 1;
        } else {
          SpanUnique(s.bytes, room, n - 1);
          return -1;
        }
        n := n + 1;
      }
      SpanUnique(s.bytes, room, n - 1);
      buf[n - 1] := NUL;
      assert buf[..n - 1] == s.bytes[..n - 1];
      return n;
    }
  }
}
