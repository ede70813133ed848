/** Whole runs of reads and calls of process_read, bodies that arrive in pieces included: what stays
    true of the parser, of the bytes already consumed and of the captured strings. */
module HttpRuns {
  import opened Options
  import opened CStrings
  import opened HttpParser
  import opened HttpChunking

  /** process_read after each read, until it reports something. */
  function Feed(p: Parser, chunks: seq<string>): (r: (HttpCode, Parser))
    requires p.Indexed()
    ensures r.1.Indexed()
    decreases |chunks|
  {
    if chunks == [] then (NoRequest, p)
    else
      var (code, q) := ProcessRead(Append(p, chunks[0]));
      if code != NoRequest then (code, q) else Feed(q, chunks[1..])
  }

  /** The run of the chunking theorem is the whole run unless it ends in a body. */
  lemma {:induction false} FeedHeadIsFeed(p: Parser, chunks: seq<string>)
    requires p.Indexed() && !(FeedHead(p, chunks).0 == NoRequest && FeedHead(p, chunks).1.state == Content)
    ensures Feed(p, chunks) == FeedHead(p, chunks)
    decreases |chunks|
  {
    hide ProcessRead;
    if chunks != [] {
      var (code, q) := ProcessRead(Append(p, chunks[0]));
      if code == NoRequest {
        FeedHeadIsFeed(q, chunks[1..]);
      }
    }
  }

  // ---------------------------------------------------------------- one call

  /** Bytes `s` from the start of the buffer once a call has ended with `code` in state `q`: a
      finished body has had its terminator written, and nothing else has changed. */
  function Finished(s: string, code: HttpCode, q: Parser): string {
    if code == GetRequest && q.state == Content then Terminate(s, q.checkedIdx + q.contentLength) else s
  }

  lemma FinishedPrefix(s: string, code: HttpCode, q: Parser, n: nat)
    requires n <= |s|
    ensures |Finished(s, code, q)| == |s| && Finished(s, code, q)[..n] == Finished(s[..n], code, q)
  {
  }

  lemma BodyFrozen(p: Parser)
    requires BodyNext(p)
    ensures var (code, q) := ScanBody(p, true);
            && p.startLine <= q.startLine && p.startLine <= |q.data|
            && q.data[..p.startLine] == Finished(p.data[..p.startLine], code, q)
  {
    hide ScanBody, BodyStep;
    BodyOutcome(p);
    var (code, q) := ScanBody(p, true);
    FinishedPrefix(p.data, code, q, p.startLine);
  }

  /** One call of process_read writes nothing before the current line, but for that terminator. */
  lemma {:induction false} CallFrozen(p: Parser)
    requires Valid(p) && p.state != Content
    ensures var (code, q) := ScanHead(p);
            && p.startLine <= q.startLine && p.startLine <= |q.data|
            && q.data[..p.startLine] == Finished(p.data[..p.startLine], code, q)
    decreases |p.data| - p.checkedIdx
  {
    hide Step, ParseLine, BodyStep, ScanBody, Finished, Accepted, Held;
    if ParseLine(p).0 != LineOk {
      LineStall(p);
      NotFinished(p.data[..p.startLine], NoRequest, ParseLine(p).1);
    } else {
      StepKeeps(p);
      StepBytes(p);
      var (code, m) := Step(p);
      if code != NoRequest {
        NotFinished(p.data[..p.startLine], code, m);
      } else {
        if m.state == Content { BodyFrozen(m); } else { CallFrozen(m); }
        var (last, q) := ScanHead(p);
        FinishedShorter(m.data, q.data, last, q, m.startLine, p.startLine);
      }
    }
  }

  lemma NotFinished(s: string, code: HttpCode, q: Parser)
    requires code != GetRequest || q.state != Content
    ensures Finished(s, code, q) == s
  {
  }

  lemma FinishedShorter(s: string, t: string, code: HttpCode, q: Parser, n: nat, k: nat)
    requires k <= n <= |s| && n <= |t| && t[..n] == Finished(s[..n], code, q)
    ensures t[..k] == Finished(s[..k], code, q)
  {
    hide Finished;
    FinishedPrefix(s[..n], code, q, k);
    assert s[..n][..k] == s[..k] && t[..n][..k] == t[..k];
  }

  lemma FinishedAfter(s: string, code: HttpCode, q: Parser)
    requires BodyLengthSane(q) && |s| <= q.checkedIdx
    ensures Finished(s, code, q) == s
  {
  }

  /** A call and the bytes it freezes. */
  lemma CallFreezes(p: Parser)
    requires Valid(p) && p.state != Content
    ensures var (code, q) := ProcessRead(p);
            && (q.state != Content ==> Valid(q))
            && p.startLine <= q.startLine <= |q.data|
            && q.data[..p.startLine] == Finished(p.data[..p.startLine], code, q)
  {
    assert p.Indexed();
    hide ScanHead, Finished, Valid, Captured, Accepted, Spared, BodyLengthSane;
    CallFrozen(p);
    CallKeeps(p);
  }

  lemma AppendPrefix(p: Parser, d: string)
    requires p.Indexed()
    ensures var q := Append(p, d);
            q.Indexed() && q.state == p.state && q.startLine == p.startLine
            && q.data[..p.startLine] == p.data[..p.startLine]
  {
  }

  lemma {:induction false} StaysPastRequestLine(p: Parser)
    requires Valid(p) && p.state == Header
    ensures ScanHead(p).1.state != RequestLine
    decreases |p.data| - p.checkedIdx
  {
    if ParseLine(p).0 == LineOk {
      StepKeeps(p);
      var (code, m) := Step(p);
      if code == NoRequest {
        if m.state == Content { BodyOutcome(m); } else { StaysPastRequestLine(m); }
      }
    }
  }

  // ---------------------------------------------------------------- inside a body

  /** Between two calls inside a body that has not been completed: everything before `b` has been
      consumed, and the request line and any host are there. */
  ghost predicate InBody(p: Parser, b: nat) {
    && p.Indexed() && p.state == Content && p.contentLength > 0 && p.verb == GET
    && 0 < b <= p.startLine && p.data[b - 1] == NUL
    && Held(p.data, p.url, b) && p.data[p.url.value] == '/'
    && Held(p.data, p.version, b) && EqNoCase(Text(p.data, p.version.value), "HTTP/1.1")
    && (p.host.Some? ==> Held(p.data, p.host, b))
  }

  /** The parser between two calls. */
  ghost predicate Between(p: Parser) {
    if p.state == Content then exists b: nat :: InBody(p, b) else Valid(p)
  }

  lemma LineBefore(p: Parser, b: nat)
    requires p.Indexed() && 0 < b <= p.checkedIdx && p.data[b - 1] == NUL
    ensures ParseLine(p).1.data[..b] == p.data[..b]
  {
  }

  /** The content state with a positive length writes nothing before `b`, finished or not. */
  lemma {:induction false} BodyFront(p: Parser, lineOk: bool, b: nat)
    requires p.Indexed() && p.state == Content && p.contentLength > 0
    requires 0 < b <= p.startLine && p.data[b - 1] == NUL
    ensures var q := ScanBody(p, lineOk).1;
            && q == p.(data := q.data, checkedIdx := q.checkedIdx, startLine := q.startLine)
            && q.data[..b] == p.data[..b] && b <= q.startLine
    decreases |p.data| - p.checkedIdx, lineOk
  {
    hide ParseLine;
    if lineOk {
      StepFront(p, b);
      var (code, m) := BodyStep(p);
      if code == NoRequest { BodyFront(m, false, b); }
    } else {
      LineBefore(p, b);
      var (status, l) := ParseLine(p);
      if status == LineOk {
        assert l.data[..b][b - 1] == p.data[..b][b - 1];
        StepFront(l, b);
        var (code, m) := BodyStep(l);
        if code == NoRequest { BodyFront(m, false, b); }
      }
    }
  }

  lemma StepFront(p: Parser, b: nat)
    requires p.Indexed() && p.contentLength > 0 && 0 < b <= p.startLine && p.data[b - 1] == NUL
    ensures var q := BodyStep(p).1;
            q.data[..b] == p.data[..b] && b <= q.startLine && q.data[b - 1] == NUL
  {
  }

  lemma InBodyFrame(p: Parser, q: Parser, b: nat)
    requires InBody(p, b) && q.Indexed() && b <= q.startLine
    requires q == p.(data := q.data, checkedIdx := q.checkedIdx, startLine := q.startLine)
    requires q.data[..b] == p.data[..b]
    ensures InBody(q, b) && Accepted(q) && Captured(q) == Captured(p)
  {
    assert q.data[..b][b - 1] == p.data[..b][b - 1];
    HeldFrame(p.data, q.data, p.url, b);
    HeldFrame(p.data, q.data, p.version, b);
    HeldLater(q.data, q.url, b, q.startLine);
    HeldLater(q.data, q.version, b, q.startLine);
    if p.host.Some? {
      HeldFrame(p.data, q.data, p.host, b);
    }
  }

  /** One more read and call inside a body, whatever it brings: the state stays one inside a body, and
      nothing captured changes. */
  lemma BodyCall(p: Parser, b: nat, d: string)
    requires InBody(p, b)
    ensures var (code, q) := ProcessRead(Append(p, d));
            && code in {NoRequest, GetRequest}
            && InBody(q, b) && Accepted(q) && Captured(q) == Captured(p)
            && q.url == p.url && q.version == p.version && q.host == p.host && q.data[..b] == p.data[..b]
  {
    var m := Append(p, d);
    assert m.data[..b] == p.data[..b] && m.data[b - 1] == NUL;
    hide ScanBody, Captured, Accepted;
    InBodyFrame(p, m, b);
    BodyFront(m, true, b);
    InBodyFrame(m, ScanBody(m, true).1, b);
  }

  /** Any number of them. */
  lemma {:induction false} BodyStable(p: Parser, b: nat, chunks: seq<string>)
    requires InBody(p, b)
    ensures var (code, q) := Feed(p, chunks);
            && code in {NoRequest, GetRequest}
            && InBody(q, b) && Accepted(q) && Captured(q) == Captured(p)
            && q.url == p.url && q.version == p.version && q.host == p.host && q.data[..b] == p.data[..b]
    decreases |chunks|
  {
    assert p.Indexed();
    if chunks == [] {
      InBodyFrame(p, p, b);
    } else {
      hide InBody, ProcessRead, Captured, Accepted;
      BodyCall(p, b, chunks[0]);
      var (code, q) := ProcessRead(Append(p, chunks[0]));
      if code == NoRequest {
        BodyStable(q, b, chunks[1..]);
      }
    }
  }

  /** The first call that ends inside a body. */
  lemma BodyEntered(p: Parser)
    requires BodyNext(p) && ScanBody(p, true).0 == NoRequest
    ensures InBody(ScanBody(p, true).1, p.startLine)
  {
    assert p.Indexed() && p.startLine > 0 && p.data[p.startLine - 1] == NUL;
    hide ScanBody, BodyStep, Held, Text;
    BodyOutcome(p);
    var q := ScanBody(p, true).1;
    assert q.data[..p.startLine][p.startLine - 1] == p.data[..p.startLine][p.startLine - 1];
    HeldFrame(p.data, q.data, p.url, p.startLine);
    HeldFrame(p.data, q.data, p.version, p.startLine);
    if p.host.Some? {
      HeldFrame(p.data, q.data, p.host, p.startLine);
    }
  }

  lemma CallEntersBody(p: Parser) returns (b: nat)
    requires Valid(p) && p.state != Content && ScanHead(p).0 == NoRequest && ScanHead(p).1.state == Content
    ensures p.startLine <= b && InBody(ScanHead(p).1, b)
  {
    hide ScanBody, BodyNext, InBody;
    var m := CallEntry(p, "");
    BodyEntered(m);
    b := m.startLine;
  }

  /** A positive length takes the terminator past everything consumed. */
  lemma SparedInBody(p: Parser, b: nat)
    requires InBody(p, b)
    ensures Spared(p) && BodyLengthSane(p)
  {
    HeldIn(p.data, p.url, b);
    HeldIn(p.data, p.version, b);
  }

  lemma BetweenAppend(p: Parser, d: string)
    requires Between(p)
    ensures Between(Append(p, d)) && Append(p, d).Indexed()
  {
    if p.state == Content {
      var b: nat :| InBody(p, b);
      assert Append(p, d).data[..b] == p.data[..b];
      InBodyFrame(p, Append(p, d), b);
    } else {
      ValidAppend(p, d);
    }
  }

  // ---------------------------------------------------------------- whole runs

  /** What every call keeps, wherever it starts: the invariant between calls; do_request is reached
      with an accepted request line exactly when the terminator after the body, if any, spared it, and
      always when the content length is not negative. */
  lemma CallKeepsBetween(p: Parser)
    requires Between(p) && p.Indexed()
    ensures var (code, q) := ProcessRead(p);
            && (code == NoRequest ==> Between(q))
            && (q.state != Content ==> Valid(q))
            && (code == GetRequest ==> (Accepted(q) <==> Spared(q)))
            && (code == GetRequest && BodyLengthSane(q) ==> Accepted(q))
  {
    hide ScanHead, ScanBody, Accepted, Spared, Captured, Valid, InBody;
    var (code, q) := ProcessRead(p);
    if p.state == Content {
      var b: nat :| InBody(p, b);
      assert Append(p, "") == p by { assert p.data + "" == p.data; }
      BodyCall(p, b, "");
      SparedInBody(q, b);
      assert q.state == Content by { InBodyContent(q, b); }
    } else {
      CallKeeps(p);
      if code == NoRequest && q.state == Content {
        var b := CallEntersBody(p);
      }
    }
  }

  lemma InBodyContent(p: Parser, b: nat)
    requires InBody(p, b)
    ensures p.state == Content && p.Indexed()
  {
  }

  /** The same over whole runs, bodies in pieces included. */
  lemma {:induction false} FeedKeeps(p: Parser, chunks: seq<string>)
    requires Between(p) && p.Indexed()
    ensures var (code, q) := Feed(p, chunks);
            && (code == NoRequest ==> Between(q))
            && (q.state != Content ==> Valid(q))
            && (code == GetRequest ==> (Accepted(q) <==> Spared(q)))
            && (code == GetRequest && BodyLengthSane(q) ==> Accepted(q))
    decreases |chunks|
  {
    if chunks == [] {
    } else {
      hide ProcessRead, Between, Valid, Accepted, Spared, BodyLengthSane;
      BetweenAppend(p, chunks[0]);
      CallKeepsBetween(Append(p, chunks[0]));
      var (code, q) := ProcessRead(Append(p, chunks[0]));
      if code == NoRequest {
        FeedKeeps(q, chunks[1..]);
      }
    }
  }

  /** The first read and call of a run: what it freezes, and the body it may end in. */
  lemma FeedFirst(p: Parser, chunk: string) returns (b: nat)
    requires Valid(p) && p.state != Content
    ensures var (code, q) := ProcessRead(Append(p, chunk));
            && (q.state != Content ==> Valid(q))
            && p.startLine <= q.startLine <= |q.data|
            && q.data[..p.startLine] == Finished(p.data[..p.startLine], code, q)
            && (code == NoRequest && q.state == Content ==> p.startLine <= b && InBody(q, b))
  {
    ValidAppend(p, chunk);
    AppendPrefix(p, chunk);
    b := 0;
    hide ProcessRead, Finished, Valid, Append, InBody;
    CallFreezes(Append(p, chunk));
    var (code, q) := ProcessRead(Append(p, chunk));
    if code == NoRequest && q.state == Content {
      b := EntersBody(Append(p, chunk));
    }
  }

  lemma EntersBody(p: Parser) returns (b: nat)
    requires Valid(p) && p.state != Content && ProcessRead(p).0 == NoRequest && ProcessRead(p).1.state == Content
    ensures p.startLine <= b && InBody(ProcessRead(p).1, b)
  {
    hide ScanHead, InBody;
    b := CallEntersBody(p);
  }

  lemma {:induction false} FeedFinished(p: Parser, chunks: seq<string>)
    requires Valid(p) && p.state != Content
    ensures var (code, q) := Feed(p, chunks);
            && p.startLine <= q.startLine <= |q.data|
            && q.data[..p.startLine] == Finished(p.data[..p.startLine], code, q)
    decreases |chunks|
  {
    assert p.Indexed();
    hide ProcessRead, Finished, Valid, InBody;
    if chunks == [] {
      NotFinished(p.data[..p.startLine], NoRequest, p);
    } else {
      var b := FeedFirst(p, chunks[0]);
      var (code, q) := ProcessRead(Append(p, chunks[0]));
      if code == NoRequest {
        NotFinished(p.data[..p.startLine], code, q);
        var (last, r) := Feed(q, chunks[1..]);
        if q.state == Content {
          BodyFinished(q, b, chunks[1..], p.startLine);
        } else {
          FeedFinished(q, chunks[1..]);
          FinishedShorter(q.data, r.data, last, r, q.startLine, p.startLine);
        }
      }
    }
  }

  lemma BodyFinished(p: Parser, b: nat, chunks: seq<string>, n: nat)
    requires InBody(p, b) && n <= b
    ensures var (code, q) := Feed(p, chunks);
            n <= q.startLine <= |q.data| && n <= |p.data| && q.data[..n] == Finished(p.data[..n], code, q)
  {
    hide Feed, Held;
    BodyStable(p, b, chunks);
    var (code, q) := Feed(p, chunks);
    assert q.data[..b][..n] == q.data[..n] && p.data[..b][..n] == p.data[..n];
    FinishedAfter(p.data[..n], code, q);
  }

  /** Over every later read and call, up to do_request, the bytes before the current line change by
      nothing but the terminator of a body, and not at all when the content length is not negative. */
  lemma FeedFrozen(p: Parser, chunks: seq<string>)
    requires Valid(p) && p.state != Content
    ensures var (code, q) := Feed(p, chunks);
            && p.startLine <= q.startLine <= |q.data|
            && q.data[..p.startLine] == Finished(p.data[..p.startLine], code, q)
            && (BodyLengthSane(q) ==> q.data[..p.startLine] == p.data[..p.startLine])
  {
    assert p.Indexed();
    hide Feed, Valid;
    FeedFinished(p, chunks);
    var (code, q) := Feed(p, chunks);
    if BodyLengthSane(q) { FinishedAfter(p.data[..p.startLine], code, q); }
  }

  /** A call that ended with `code` in state `q` has finished a body by a terminator inside the string
      that was at `o` in the buffer `s`. */
  ghost predicate CutShort(s: string, o: nat, code: HttpCode, q: Parser)
    requires o <= |s|
  {
    code == GetRequest && q.state == Content && o <= q.checkedIdx + q.contentLength < TextEnd(s, o)
  }

  /** A string held before the current line is the same at the end of the run if and only if no body
      was finished by a terminator inside it. */
  lemma HeldStable(p: Parser, chunks: seq<string>, o: Option<nat>)
    requires Valid(p) && p.state != Content && Held(p.data, o, p.startLine)
    ensures var (code, q) := Feed(p, chunks);
            && (CapturedText(q.data, o) == CapturedText(p.data, o) <==> !CutShort(p.data, o.value, code, q))
            && (BodyLengthSane(q) ==> CapturedText(q.data, o) == CapturedText(p.data, o))
  {
    assert p.Indexed();
    hide Feed, Valid;
    FeedFrozen(p, chunks);
    var (code, q) := Feed(p, chunks);
    FinishedHeld(p.data, q.data, code, q, o, p.startLine);
    HeldIn(p.data, o, p.startLine);
  }

  lemma FinishedHeld(s: string, t: string, code: HttpCode, q: Parser, o: Option<nat>, n: nat)
    requires Held(s, o, n) && n <= |s| && n <= |t| && t[..n] == Finished(s[..n], code, q)
    ensures CapturedText(t, o) == CapturedText(s, o) <==> !CutShort(s, o.value, code, q)
  {
    hide Text, TextEnd, Terminate;
    var at := q.checkedIdx + q.contentLength;
    FinishedPrefix(s, code, q, n);
    HeldIn(s, o, n);
    TerminateReach(s, at, o.value);
    TerminateHeld(s, at, o, n);
    HeldFrame(Finished(s, code, q), t, o, n);
  }

  /** Once accepted, m_url and m_version stay the same over every later read and call, up to
      do_request, and so do the strings they point to and the string a host already captured points
      to, each if and only if no terminator of a body cut it short; a content length that is not
      negative makes sure of that.  (Inside a body, BodyStable says it without a condition.) */
  lemma CapturedStable(p: Parser, chunks: seq<string>)
    requires Valid(p) && p.state == Header
    ensures p.url.Some? && p.version.Some? && p.url.value <= |p.data| && p.version.value <= |p.data|
    ensures p.host.Some? ==> p.host.value <= |p.data|
    ensures var (code, q) := Feed(p, chunks);
            && q.url == p.url && q.version == p.version
            && (Captured(q).0 == Captured(p).0 <==> !CutShort(p.data, p.url.value, code, q))
            && (Captured(q).1 == Captured(p).1 <==> !CutShort(p.data, p.version.value, code, q))
            && (p.host.Some? ==> (CapturedText(q.data, p.host) == CapturedText(p.data, p.host)
                                  <==> !CutShort(p.data, p.host.value, code, q)))
            && (BodyLengthSane(q) ==> Captured(q).0 == Captured(p).0 && Captured(q).1 == Captured(p).1)
            && (BodyLengthSane(q) && p.host.Some? ==> CapturedText(q.data, p.host) == CapturedText(p.data, p.host))
  {
    hide Feed, CapturedText, CutShort, Held, Valid;
    assert Held(p.data, p.url, p.startLine) && Held(p.data, p.version, p.startLine) by { AcceptedHeld(p); }
    HeldIn(p.data, p.url, p.startLine);
    HeldIn(p.data, p.version, p.startLine);
    PointersStable(p, chunks);
    HeldStable(p, chunks, p.url);
    HeldStable(p, chunks, p.version);
    if p.host.Some? {
      AcceptedHeld(p);
      HeldIn(p.data, p.host, p.startLine);
      HeldStable(p, chunks, p.host);
    }
  }

  lemma AcceptedHeld(p: Parser)
    requires Valid(p) && p.state == Header
    ensures Held(p.data, p.url, p.startLine) && Held(p.data, p.version, p.startLine)
    ensures p.host.Some? ==> Held(p.data, p.host, p.startLine)
  {
  }

  lemma {:induction false} PointersStable(p: Parser, chunks: seq<string>)
    requires Valid(p) && p.state == Header
    ensures Feed(p, chunks).1.url == p.url && Feed(p, chunks).1.version == p.version
    decreases |chunks|
  {
    assert p.Indexed();
    hide Valid, ScanHead, Captured, Accepted, InBody;
    if chunks != [] {
      var m := Append(p, chunks[0]);
      ValidAppend(p, chunks[0]);
      CallKeeps(m);
      var (code, q) := ProcessRead(m);
      if code == NoRequest {
        StaysPastRequestLine(m);
        if q.state == Content {
          var b := CallEntersBody(m);
          BodyStable(q, b, chunks[1..]);
        } else {
          PointersStable(q, chunks[1..]);
        }
      }
    }
  }
}
