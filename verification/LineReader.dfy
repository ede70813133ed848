/** get_line: lines of a socket, with CRLF and lone CR turned into LF, in pieces that fit a buffer. */
module LineReader {
  import opened Bytes
  import opened Sequences

  /** The next byte as get_line stores it, and the stream after it. */
  function NextByte(s: seq<byte>): (r: (byte, seq<byte>))
    requires s != []
    ensures |r.1| < |s|
  {
    if s[0] == CR then (LF, if |s| > 1 && s[1] == LF then s[2..] else s[1..]) else (s[0], s[1..])
  }

  /** One call with room for `room` bytes: what is stored and what stays in the stream. */
  function Piece(s: seq<byte>, room: nat): (r: (seq<byte>, seq<byte>))
    ensures |r.1| <= |s| && (s != [] && room > 0 ==> |r.1| < |s|)
    decreases room
  {
    if s == [] || room == 0 then ([], s)
    else
      var (c, t) := NextByte(s);
      if c == LF then ([LF], t)
      else
        var (line, rest) := Piece(t, room - 1);
        ([c] + line, rest)
  }

  /** The stream with every line ending written as LF. */
  function Normalize(s: seq<byte>): (n: seq<byte>)
    ensures |n| <= |s|
  {
    if s == [] then []
    else if s[0] == CR && |s| > 1 && s[1] == LF then [LF] + Normalize(s[2..])
    else if s[0] == CR then [LF] + Normalize(s[1..])
    else [s[0]] + Normalize(s[1..])
  }

  lemma NormalizeNext(s: seq<byte>)
    requires s != []
    ensures Normalize(s) == [NextByte(s).0] + Normalize(NextByte(s).1)
  {
  }

  ghost predicate EndsLine(line: seq<byte>) {
    line != [] && line[|line| - 1] == LF
  }

  /** A piece is the normalised stream up to and including the first LF, or as much as fits, or all
      of it; the stream left behind normalises to the rest. */
  lemma {:induction false} PieceOfNormalized(s: seq<byte>, room: nat)
    ensures var (line, rest) := Piece(s, room);
            && Normalize(s) == line + Normalize(rest)
            && |line| <= room
            && (forall i | 0 <= i < |line| - 1 :: line[i] != LF)
            && (EndsLine(line) || |line| == room || rest == [])
            && (line == [] <==> s == [] || room == 0)
    decreases room
  {
    if s == [] || room == 0 {
      assert [] + Normalize(s) == Normalize(s);
    } else {
      NormalizeNext(s);
      hide Normalize, NextByte;
      var (c, t) := NextByte(s);
      if c != LF {
        PieceOfNormalized(t, room - 1);
        var (line, rest) := Piece(t, room - 1);
        Regroup([c], line, Normalize(rest));
      }
    }
  }

  lemma {:induction false} NormalizedHasNoCr(s: seq<byte>)
    ensures CR !in Normalize(s)
  {
    if s != [] {
      NormalizedHasNoCr(if s[0] == CR && |s| > 1 && s[1] == LF then s[2..] else s[1..]);
    }
  }

  lemma NormalizeEmpty()
    ensures Normalize([]) == []
  {
  }

  lemma {:induction false} NormalizeStable(s: seq<byte>)
    requires CR !in s
    ensures Normalize(s) == s
  {
    if s != [] {
      NormalizeStable(s[1..]);
    }
  }

  /** Normalising again changes nothing. */
  lemma NormalizeIdempotent(s: seq<byte>)
    ensures Normalize(Normalize(s)) == Normalize(s)
  {
    NormalizedHasNoCr(s);
    NormalizeStable(Normalize(s));
  }

  /** Line by line: text without CR is kept, and a CRLF, a lone CR and an LF each become one LF. */
  lemma {:induction false} NormalizeLine(text: seq<byte>, rest: seq<byte>)
    requires CR !in text
    ensures Normalize(text + [CR, LF] + rest) == text + [LF] + Normalize(rest)
    ensures (rest == [] || rest[0] != LF) ==> Normalize(text + [CR] + rest) == text + [LF] + Normalize(rest)
    ensures Normalize(text + [LF] + rest) == text + [LF] + Normalize(rest)
  {
    NormalizeKeeps(text, [CR, LF] + rest);
    NormalizeKeeps(text, [CR] + rest);
    NormalizeKeeps(text, [LF] + rest);
    Regroup(text, [CR, LF], rest);
    Regroup(text, [CR], rest);
    Regroup(text, [LF], rest);
    Regroup(text, [LF], Normalize(rest));
    LineEnds(rest);
  }

  lemma LineEnds(rest: seq<byte>)
    ensures Normalize([CR, LF] + rest) == [LF] + Normalize(rest)
    ensures (rest == [] || rest[0] != LF) ==> Normalize([CR] + rest) == [LF] + Normalize(rest)
    ensures Normalize([LF] + rest) == [LF] + Normalize(rest)
  {
    assert ([CR, LF] + rest)[2..] == rest && ([CR] + rest)[1..] == rest && ([LF] + rest)[1..] == rest;
  }

  lemma {:induction false} NormalizeKeeps(text: seq<byte>, rest: seq<byte>)
    requires CR !in text
    ensures Normalize(text + rest) == text + Normalize(rest)
  {
    if text == [] {
      assert [] + rest == rest && [] + Normalize(rest) == Normalize(rest);
    } else {
      var s := text + rest;
      assert s[0] == text[0] && s[1..] == text[1..] + rest;
      NormalizeNext(s);
      assert NextByte(s) == (text[0], text[1..] + rest);
      hide Normalize, NextByte;
      NormalizeKeeps(text[1..], rest);
      Regroup([text[0]], text[1..], Normalize(rest));
      assert [text[0]] + text[1..] == text;
    }
  }

  /** A socket whose peer has sent `rest` and then closed. */
  class Sock {
    var rest: seq<byte>

    constructor (stream: seq<byte>)
      ensures rest == stream
    {
      rest := stream;
    }

    /** recv(sock, &ch, 1, 0) */
    method Recv(ch: byte) returns (n: int, c: byte)
      modifies this
      ensures old(rest) == [] ==> n == 0 && c == ch && rest == []
      ensures old(rest) != [] ==> n == 1 && c == old(rest)[0] && rest == old(rest)[1..]
    {
      if rest == [] {
        return 0, ch;
      }
      n, c := 1, rest[0];
      rest := rest[1..];
    }

    /** recv(sock, &ch, 1, MSG_PEEK) */
    method Peek(ch: byte) returns (n: int, c: byte)
      ensures if rest == [] then n == 0 && c == ch else n == 1 && c == rest[0]
    {
      if rest == [] {
        return 0, ch;
      }
      return 1, rest[0];
    }
  }

  /** The reading part of one turn of get_line's loop. */
  method NextChar(sock: Sock, was: byte) returns (got: bool, ch: byte)
    modifies sock
    ensures got <==> old(sock.rest) != []
    ensures got ==> (ch, sock.rest) == NextByte(old(sock.rest))
    ensures !got ==> ch == LF && sock.rest == []
  {
    var n;
    n, ch := sock.Recv(was);
    if n <= 0 {
      return false, LF;
    }
    if ch == CR {
      n, ch := sock.Peek(ch);
      if n > 0 && ch == LF {
        n, ch := sock.Recv(ch);
      } else {
        ch := LF;
      }
    }
    return true, ch;
  }

  /** get_line(sock, buf, size) */
  method GetLine(sock: Sock, buf: array<byte>, size: int) returns (i: int)
    requires 1 <= size <= buf.Length
    modifies sock, buf
    ensures 0 <= i < size && buf[i] == NUL
    ensures (buf[..i], sock.rest) == Piece(old(sock.rest), size - 1)
  {
    hide NextByte;
    i := 0;
    var ch := NUL;
    ghost var whole := Piece(sock.rest, size - 1);
    assert buf[..0] + whole.0 == whole.0;
    while i < size - 1 && ch != LF
      invariant 0 <= i <= size - 1
      invariant if ch == LF then (buf[..i], sock.rest) == whole
                else var p := Piece(sock.rest, size - 1 - i); (buf[..i] + p.0, p.1) == whole
      decreases size - 1 - i, ch != LF
    {
      ghost var before := buf[..i];
      ghost var here := Piece(sock.rest, size - 1 - i);
      var got;
      got, ch := NextChar(sock, ch);
      if got {
        buf[i] := ch;
        i := i + 1;
        assert buf[..i] == before + [ch];
        if ch != LF {
          ghost var next := Piece(sock.rest, size - 1 - i);
          assert here == ([ch] + next.0, next.1);
          Regroup(before, [ch], next.0);
        }
      } else {
        assert buf[..i] + [] == before;
      }
    }
    assert buf[..i] + [] == buf[..i];
    buf[i] := NUL;
  }

  /** Successive calls until one returns 0: for every buffer size of at least 2 the pieces put
      together are the normalised stream, and the stream is used up.  What was read would read the same
      again, and is what was sent if that had no CR. */
  method ReadAll(sock: Sock, buf: array<byte>, size: int) returns (text: seq<byte>)
    requires 2 <= size <= buf.Length
    modifies sock, buf
    ensures text == Normalize(old(sock.rest)) && sock.rest == []
    ensures Normalize(text) == text && (CR !in old(sock.rest) ==> text == old(sock.rest))
  {
    hide Piece, Normalize, NextByte;
    NormalizeIdempotent(sock.rest);
    if CR !in sock.rest { NormalizeStable(sock.rest); }
    text := [];
    ghost var all := Normalize(sock.rest);
    while true
      invariant all == text + Normalize(sock.rest)
      decreases |sock.rest|
    {
      PieceOfNormalized(sock.rest, size - 1);
      var n := GetLine(sock, buf, size);
      if n == 0 {
        NormalizeEmpty();
        return;
      }
      Regroup(text, buf[..n], Normalize(sock.rest));
      text := text + buf[..n];
    }
  }
}
