/** The request parser over many reads: what the line scanner keeps, which captured strings stay
    put, and why the way the bytes are split between reads does not matter. */
module HttpChunking {
  import opened Options
  import opened CStrings
  import opened HttpParser

  /** The captured string at `o` is NUL-terminated before index `n`. */
  ghost predicate Held(d: string, o: Option<nat>, n: nat) {
    o.Some? && Terminated(d, o.value) && TextEnd(d, o.value) < n
  }

  /** What holds of the parser between calls while it reads the request line and the headers. */
  ghost predicate Valid(p: Parser) {
    && p.Indexed()
    && p.verb == GET
    && (p.state != Content ==> Avoids(p.data[p.startLine..p.checkedIdx], LINE_BREAKS))
    && (p.startLine > 0 ==> p.data[p.startLine - 1] == NUL)
    && (p.state != RequestLine ==> Accepted(p))
    && (p.host.Some? ==> Held(p.data, p.host, p.startLine))
  }

  /** A request line has been accepted: do_request may rely on this. */
  ghost predicate Accepted(p: Parser) {
    && p.verb == GET
    && Held(p.data, p.url, p.startLine) && p.data[p.url.value] == '/'
    && Held(p.data, p.version, p.startLine) && EqNoCase(Text(p.data, p.version.value), "HTTP/1.1")
  }

  function CapturedText(d: string, o: Option<nat>): Option<string> {
    if o.Some? && o.value <= |d| then Some(Text(d, o.value)) else None
  }

  /** URL, version and host as the C strings a request handler reads. */
  function Captured(p: Parser): (Option<string>, Option<string>, Option<string>) {
    (CapturedText(p.data, p.url), CapturedText(p.data, p.version), CapturedText(p.data, p.host))
  }

  // ---------------------------------------------------------------- one line

  /** A complete line ends at a CRLF that is its first line break; the LF-after-CR branch of
      parse_line is never the one that succeeds.  The bytes of the line stay as received. */
  lemma LineOkMeansCrlf(p: Parser)
    requires Valid(p) && p.state != Content && ParseLine(p).0 == LineOk
    ensures var l := ParseLine(p).1; var i := l.checkedIdx - 2;
            && p.startLine <= i && l.startLine == p.startLine
            && Avoids(p.data[p.startLine..i], LINE_BREAKS)
            && p.data[i] == CR && p.data[i + 1] == LF
            && l.data == p.data[i := NUL][i + 1 := NUL]
            && l.data[p.startLine..i] == p.data[p.startLine..i]
            && TextEnd(l.data, p.startLine) <= i
            && l.data[..p.startLine] == p.data[..p.startLine]
  {
    var i := FirstIn(p.data, p.checkedIdx, LINE_BREAKS);
    forall j | p.startLine <= j < i ensures p.data[j] !in LINE_BREAKS {
      if j < p.checkedIdx {
        assert p.data[j] == p.data[p.startLine..p.checkedIdx][j - p.startLine];
      }
    }
    var l := ParseLine(p).1;
    assert l.data[i] == NUL;
  }

  /** A line that is not complete leaves only the scan position behind. */
  lemma LineStall(p: Parser)
    requires Valid(p) && p.state != Content && ParseLine(p).0 != LineOk
    ensures ParseLine(p).1 == p.(checkedIdx := ParseLine(p).1.checkedIdx)
    ensures Valid(ParseLine(p).1) && Captured(ParseLine(p).1) == Captured(p)
  {
    StallKeepsBytes(p);
    hide ParseLine, Held, Accepted;
  }

  lemma StallKeepsBytes(p: Parser)
    requires p.Indexed() && Avoids(p.data[p.startLine..p.checkedIdx], LINE_BREAKS) && ParseLine(p).0 != LineOk
    ensures ParseLine(p).1 == p.(checkedIdx := ParseLine(p).1.checkedIdx)
    ensures Avoids(p.data[p.startLine..ParseLine(p).1.checkedIdx], LINE_BREAKS)
  {
    var i := FirstIn(p.data, p.checkedIdx, LINE_BREAKS);
    forall j | p.startLine <= j < i ensures p.data[j] !in LINE_BREAKS {
      if j < p.checkedIdx {
        assert p.data[j] == p.data[p.startLine..p.checkedIdx][j - p.startLine];
      }
    }
  }

  /** More bytes do not change a line already complete. */
  lemma ParseLineComplete(p: Parser, d: string)
    requires p.Indexed() && ParseLine(p).0 == LineOk
    ensures ParseLine(Append(p, d)) == (LineOk, Append(ParseLine(p).1, d))
  {
    var i := FirstIn(p.data, p.checkedIdx, LINE_BREAKS);
    FirstInAppend(p.data, d, p.checkedIdx, LINE_BREAKS);
    var l := ParseLine(p).1;
    if p.data[i] == CR {
      assert (p.data + d)[i := NUL][i + 1 := NUL] == l.data + d;
    } else {
      assert (p.data + d)[i - 1 := NUL][i := NUL] == l.data + d;
    }
  }

  /** A stalled scan resumes where it stopped. */
  lemma ParseLineResumes(p: Parser, d: string)
    requires p.Indexed() && ParseLine(p).0 != LineOk
    ensures ParseLine(Append(p, d)) == ParseLine(Append(ParseLine(p).1, d))
  {
    var i := FirstIn(p.data, p.checkedIdx, LINE_BREAKS);
    var whole := p.data + d;
    assert forall j | p.checkedIdx <= j < i :: whole[j] == p.data[j];
    FirstInResume(whole, p.checkedIdx, i, LINE_BREAKS);
    LineAtIgnoresPosition(Append(p, d), i, FirstIn(whole, i, LINE_BREAKS));
  }

  lemma LineAtIgnoresPosition(p: Parser, c: nat, i: nat)
    requires i <= |p.data|
    ensures LineAt(p.(checkedIdx := c), i) == LineAt(p, i)
  {
  }

  lemma LocateTargetAppend(s: string, d: string, u: nat)
    requires Terminated(s, u)
    ensures Terminated(s + d, u) && LocateTarget(s + d, u) == LocateTarget(s, u)
  {
    TextAppend(s, d, u);
    if PrefixNoCase(Text(s, u), "http://") {
      assert s[TextEnd(s, u)] == NUL;
      FirstInAppend(s, d, u + 7, {'/', NUL});
    }
  }

  lemma CutTokenAppend(s: string, d: string, a: nat)
    requires Terminated(s, a)
    ensures Terminated(s + d, a)
    ensures var r := CutToken(s, a);
            CutToken(s + d, a) == if r.None? then None else Some((r.value.0 + d, r.value.1))
  {
    TextAppend(s, d, a);
    assert s[TextEnd(s, a)] == NUL;
    hide TextEnd;
    FirstInAppend(s, d, a, BLANK_OR_END);
    var o := FirstIn(s, a, BLANK_OR_END);
    if s[o] != NUL {
      var d1 := s[o := NUL];
      assert (s + d)[o := NUL] == d1 + d;
      assert d1[TextEnd(s, a)] == NUL;
      FirstNotInAppend(d1, d, o + 1, BLANKS);
    }
  }

  lemma CheckTargetAppend(p: Parser, u: nat, d: string)
    requires Terminated(p.data, u)
    ensures Terminated(p.data + d, u)
    ensures var (code, r) := CheckTarget(p, u); CheckTarget(Append(p, d), u) == (code, Append(r, d))
  {
    LocateTargetAppend(p.data, d, u);
  }

  lemma ParseTargetAppend(p: Parser, u: nat, d: string)
    requires Terminated(p.data, u)
    ensures Terminated(p.data + d, u)
    ensures var (code, r) := ParseTarget(p, u); ParseTarget(Append(p, d), u) == (code, Append(r, d))
  {
    CutTokenAppend(p.data, d, u);
    var cut := CutToken(p.data, u);
    if cut.Some? {
      var (s, v) := cut.value;
      var q := p.(data := s, version := Some(v));
      assert Append(p, d).(data := s + d, version := Some(v)) == Append(q, d);
      TextAppend(s, d, v);
      CheckTargetAppend(q, u, d);
    }
  }

  lemma ParseRequestLineAppend(p: Parser, a: nat, d: string)
    requires Terminated(p.data, a)
    ensures Terminated(p.data + d, a)
    ensures var (code, r) := ParseRequestLine(p, a);
            ParseRequestLine(Append(p, d), a) == (code, Append(r, d))
  {
    CutTokenAppend(p.data, d, a);
    var cut := CutToken(p.data, a);
    if cut.Some? {
      var (s, u) := cut.value;
      var q := p.(data := s, verb := GET, url := Some(u));
      assert Append(p, d).(data := s + d, verb := GET, url := Some(u)) == Append(q, d);
      TextAppend(s, d, a);
      ParseTargetAppend(q, u, d);
    }
  }

  lemma ParseHeadersAppend(p: Parser, a: nat, d: string)
    requires Terminated(p.data, a)
    ensures Terminated(p.data + d, a)
    ensures var (code, r) := ParseHeaders(p, a);
            ParseHeaders(Append(p, d), a) == (code, Append(r, d))
  {
    TextAppend(p.data, d, a);
  }

  // ---------------------------------------------------------------- what one step keeps

  /** Writes at or after `n` do not reach a string held before `n`. */
  lemma HeldFrame(s: string, t: string, o: Option<nat>, n: nat)
    requires Held(s, o, n) && n <= |s| && n <= |t| && s[..n] == t[..n]
    ensures Held(t, o, n) && Text(t, o.value) == Text(s, o.value)
    ensures t[o.value] == s[o.value]
  {
    TextFrame(s, t, o.value, n);
    assert s[..n][o.value] == t[..n][o.value];
  }

  lemma HeldLater(s: string, o: Option<nat>, b: nat, n: nat)
    requires Held(s, o, b) && b <= n
    ensures Held(s, o, n)
  {
  }

  lemma StepFrame(p: Parser, q: Parser)
    requires Valid(p) && q.Indexed() && p.startLine <= q.startLine <= |q.data|
    requires p.data[..p.startLine] == q.data[..p.startLine]
    requires q.url == p.url && q.version == p.version && q.verb == p.verb
    ensures p.state != RequestLine ==> Accepted(q) && Text(p.data, p.url.value) == Text(q.data, p.url.value)
                                       && Text(p.data, p.version.value) == Text(q.data, p.version.value)
    ensures q.host == p.host && p.host.Some? ==>
              Held(q.data, q.host, q.startLine) && Text(p.data, p.host.value) == Text(q.data, p.host.value)
  {
    if p.state != RequestLine {
      HeldFrame(p.data, q.data, p.url, p.startLine);
      HeldFrame(p.data, q.data, p.version, p.startLine);
    }
    if p.host.Some? && q.host == p.host {
      HeldFrame(p.data, q.data, p.host, p.startLine);
    }
  }

  /** An accepted request line leaves URL and version strings inside the line just consumed. */
  lemma RequestLineHolds(p: Parser, a: nat)
    requires Terminated(p.data, a) && TextEnd(p.data, a) < p.startLine <= |p.data| && p.verb == GET
    ensures var (code, q) := ParseRequestLine(p, a);
            q.verb == GET && (code == NoRequest ==> Accepted(q))
  {
    hide ParseTarget;
    var cut := CutToken(p.data, a);
    if cut.Some? && EqNoCase(Text(cut.value.0, a), "GET") {
      var (d, u) := cut.value;
      TargetHolds(p.(data := d, verb := GET, url := Some(u)), u);
    }
  }

  lemma TargetHolds(p: Parser, u: nat)
    requires Terminated(p.data, u) && TextEnd(p.data, u) < p.startLine <= |p.data| && p.verb == GET
    ensures var (code, q) := ParseTarget(p, u);
            q.verb == GET && (code == NoRequest ==> Accepted(q))
  {
    hide CutToken;
  }

  /** One header line keeps the request line's strings, and any Host value lies in the consumed text. */
  lemma HeaderHolds(p: Parser, a: nat)
    requires Terminated(p.data, a) && TextEnd(p.data, a) < p.startLine <= |p.data|
    ensures var q := ParseHeaders(p, a).1;
            q.host == p.host || Held(q.data, q.host, q.startLine)
  {
  }

  /** A step leaves the bytes before its line alone, and a NUL at the end of the line. */
  lemma StepBytes(p: Parser)
    requires Valid(p) && p.state != Content && ParseLine(p).0 == LineOk
    ensures var q := Step(p).1;
            q.data[..p.startLine] == p.data[..p.startLine] && q.data[q.startLine - 1] == NUL
            && q.startLine == q.checkedIdx >= p.startLine + 2
  {
    hide ParseTarget, CutToken, ReadHeader;
    LineOkMeansCrlf(p);
    var l := ParseLine(p).1;
    assert l.data[l.checkedIdx - 1] == NUL;
    if p.state == RequestLine {
      var q := ParseRequestLine(l.(startLine := l.checkedIdx), l.startLine).1;
      var e := TextEnd(l.data, l.startLine);
      assert q.data[e..][l.checkedIdx - 1 - e] == l.data[e..][l.checkedIdx - 1 - e];
    }
  }

  lemma StepKeepsRequest(p: Parser)
    requires Valid(p) && p.state == RequestLine && ParseLine(p).0 == LineOk
    ensures Valid(Step(p).1) && Step(p).0 != GetRequest
  {
    hide ParseLine, ParseRequestLine, Accepted, Held;
    LineOkMeansCrlf(p);
    StepBytes(p);
    var l := ParseLine(p).1;
    RequestLineHolds(l.(startLine := l.checkedIdx), l.startLine);
    if p.host.Some? {
      HeldFrame(p.data, Step(p).1.data, p.host, p.startLine);
      HeldLater(Step(p).1.data, p.host, p.startLine, Step(p).1.startLine);
    }
  }

  lemma StepKeepsHeader(p: Parser)
    requires Valid(p) && p.state == Header && ParseLine(p).0 == LineOk
    ensures var (code, q) := Step(p);
            && Valid(q) && q.state != RequestLine && (code == GetRequest ==> q.state == Header)
            && q.url == p.url && q.version == p.version
  {
    hide ParseLine, ReadHeader;
    LineOkMeansCrlf(p);
    StepBytes(p);
    var l := ParseLine(p).1;
    HeaderHolds(l.(startLine := l.checkedIdx), l.startLine);
    StepFrame(p, Step(p).1);
  }

  lemma StepKeeps(p: Parser)
    requires Valid(p) && p.state != Content && ParseLine(p).0 == LineOk
    ensures var (code, q) := Step(p);
            && q.data[..p.startLine] == p.data[..p.startLine]
            && Valid(q)
            && (code == GetRequest ==> q.state == Header)
            && (p.state == Header ==> q.state != RequestLine && q.url == p.url && q.version == p.version)
  {
    hide Step, ParseLine, Valid;
    StepBytes(p);
    if p.state == RequestLine {
      StepKeepsRequest(p);
    } else {
      StepKeepsHeader(p);
    }
  }

  lemma StepAppend(p: Parser, d: string)
    requires p.Indexed() && p.state != Content && ParseLine(p).0 == LineOk
    ensures ParseLine(Append(p, d)).0 == LineOk
    ensures var (code, q) := Step(p); Step(Append(p, d)) == (code, Append(q, d))
  {
    ParseLineComplete(p, d);
    var l := ParseLine(p).1;
    var q := l.(startLine := l.checkedIdx);
    assert Terminated(q.data, l.startLine) by { assert q.data[q.checkedIdx - 1] == NUL; }
    assert Append(l, d).(startLine := l.checkedIdx) == Append(q, d);
    if p.state == RequestLine {
      ParseRequestLineAppend(q, l.startLine, d);
    } else {
      ParseHeadersAppend(q, l.startLine, d);
    }
  }

  // ---------------------------------------------------------------- the loop

  /** The content state with the body not yet complete: nothing before the body changes. */
  lemma {:induction false} BodyIncomplete(p: Parser, lineOk: bool)
    requires p.Indexed() && p.state == Content
    requires |p.data| < p.contentLength + p.checkedIdx
    requires p.checkedIdx > 0 ==> p.data[p.checkedIdx - 1] != CR
    ensures var (code, q) := ScanBody(p, lineOk);
            && code == NoRequest
            && q == p.(data := q.data, checkedIdx := q.checkedIdx, startLine := q.startLine)
            && q.data[..p.checkedIdx] == p.data[..p.checkedIdx]
            && q.startLine >= p.startLine
    decreases |p.data| - p.checkedIdx, lineOk
  {
    hide ParseLine, BodyStep;
    if lineOk {
      BodyStays(p);
      BodyIncomplete(BodyStep(p).1, false);
    } else {
      var (status, l) := ParseLine(p);
      LineFront(p);
      if status == LineOk {
        BodyStays(l);
        var m := BodyStep(l).1;
        BodyIncomplete(m, false);
        PrefixOfPrefix(ScanBody(m, false).1.data, l.data, l.checkedIdx, p.checkedIdx);
      }
    }
  }

  /** The line scanner leaves the bytes before the scan position alone when the last is not a CR. */
  lemma LineFront(p: Parser)
    requires p.Indexed() && (p.checkedIdx > 0 ==> p.data[p.checkedIdx - 1] != CR)
    ensures ParseLine(p).1.data[..p.checkedIdx] == p.data[..p.checkedIdx]
  {
  }

  lemma BodyStays(p: Parser)
    requires p.Indexed() && |p.data| < p.contentLength + p.checkedIdx
    ensures BodyStep(p) == (NoRequest, p.(startLine := p.checkedIdx))
  {
  }

  /** The content state as process_read enters it from the headers. */
  ghost predicate BodyNext(p: Parser) {
    Valid(p) && p.state == Content && p.startLine == p.checkedIdx
  }

  /** What the content state leaves behind: the terminator write, or a body still incomplete. */
  lemma BodyOutcome(p: Parser)
    requires p.Indexed() && p.state == Content && p.startLine == p.checkedIdx
    requires p.startLine > 0 ==> p.data[p.startLine - 1] == NUL
    ensures var (code, q) := ScanBody(p, true);
            if |p.data| >= p.contentLength + p.checkedIdx then
              code == GetRequest && q == p.(data := Terminate(p.data, p.checkedIdx + p.contentLength))
            else
              && code == NoRequest && p.contentLength > 0
              && q == p.(data := q.data, checkedIdx := q.checkedIdx, startLine := q.startLine)
              && q.data[..p.checkedIdx] == p.data[..p.checkedIdx]
              && q.startLine >= p.startLine
  {
    if |p.data| < p.contentLength + p.checkedIdx {
      BodyIncomplete(p, true);
    }
  }

  lemma CapturedFrame(p: Parser, q: Parser)
    requires Valid(p) && p.state != RequestLine
    requires q == p.(data := q.data, checkedIdx := q.checkedIdx, startLine := q.startLine, state := q.state)
    requires p.startLine <= q.startLine && p.startLine <= |q.data| && q.data[..p.startLine] == p.data[..p.startLine]
    ensures Captured(q) == Captured(p) && Accepted(q)
  {
    HeldFrame(p.data, q.data, p.url, p.startLine);
    HeldFrame(p.data, q.data, p.version, p.startLine);
    if p.host.Some? {
      HeldFrame(p.data, q.data, p.host, p.startLine);
    }
  }

  /** The terminator write that parse_content makes cannot reach a captured string. */
  ghost predicate BodyLengthSane(p: Parser) {
    p.state == Content ==> p.contentLength >= 0
  }

  /** A body of non-negative length, complete or not, leaves what was captured before it. */
  lemma BodyKeeps(p: Parser)
    requires BodyNext(p) && p.contentLength >= 0
    ensures var q := ScanBody(p, true).1; Captured(q) == Captured(p) && Accepted(q)
  {
    hide ScanBody, BodyStep, Captured, Accepted;
    BodyOutcome(p);
    var q := ScanBody(p, true).1;
    assert q.data[..p.startLine] == p.data[..p.startLine];
    assert p.state != RequestLine;
    CapturedFrame(p, q);
  }

  lemma TerminateReach(s: string, at: int, o: nat)
    requires Terminated(s, o)
    ensures Text(Terminate(s, at), o) == Text(s, o) <==> !(o <= at < TextEnd(s, o))
  {
    var d := Terminate(s, at);
    var e := TextEnd(s, o);
    if o <= at < e {
      FirstInUnique(d, o, {NUL}, at);
      assert |Text(d, o)| == at - o;
      assert |Text(s, o)| == e - o;
    } else {
      FirstInUnique(d, o, {NUL}, e);
      assert Text(d, o) == Text(s, o);
    }
  }

  /** The terminator after a body spares the first byte of the URL and the version.  Both are before
      the body, so only a negative content length can reach them.  The fields used are the same
      before the terminator is written and after. */
  ghost predicate Spared(p: Parser) {
    p.state == Content ==>
      && p.url.Some? && p.version.Some?
      && var at := p.checkedIdx + p.contentLength;
         at != p.url.value && !(p.version.value <= at < p.version.value + |"HTTP/1.1"|)
  }

  /** A string held before the body is still terminated after it. */
  lemma TerminateHeld(s: string, at: int, o: Option<nat>, n: nat)
    requires Held(s, o, n) && n <= |s|
    ensures Held(Terminate(s, at), o, n)
  {
    var d, e := Terminate(s, at), TextEnd(s, o.value);
    assert d[e] == NUL;
    FirstInResumeEnd(d, o.value, e);
  }

  lemma FirstInResumeEnd(d: string, i: nat, e: nat)
    requires i <= e < |d| && d[e] == NUL
    ensures TextEnd(d, i) <= e
  {
  }

  /** A complete body, in the state before its terminator is written: the request line is still
      accepted afterwards if and only if the terminator spares it. */
  lemma BodyAccepts(p: Parser)
    requires BodyNext(p) && |p.data| >= p.contentLength + p.checkedIdx
    ensures Accepted(ScanBody(p, true).1) <==> Spared(p)
    ensures Spared(ScanBody(p, true).1) <==> Spared(p)
  {
    hide ScanBody, BodyStep, Held, Text, TextEnd, Terminate;
    BodyOutcome(p);
    var at := p.checkedIdx + p.contentLength;
    var q := ScanBody(p, true).1;
    assert Accepted(p) && p.startLine <= |p.data|;
    TerminateHeld(p.data, at, p.url, p.startLine);
    TerminateHeld(p.data, at, p.version, p.startLine);
    HeldIn(p.data, p.url, p.startLine);
    HeldIn(p.data, p.version, p.startLine);
    TerminateReach(p.data, at, p.version.value);
    TerminateShortens(p.data, at, p.version.value);
  }

  lemma HeldIn(s: string, o: Option<nat>, n: nat)
    requires Held(s, o, n)
    ensures o.Some? && Terminated(s, o.value) && o.value <= TextEnd(s, o.value) < n
    ensures |Text(s, o.value)| == TextEnd(s, o.value) - o.value
  {
  }

  lemma TerminateShortens(s: string, at: int, o: nat)
    requires Terminated(s, o)
    ensures o <= at < TextEnd(s, o) ==> |Text(Terminate(s, at), o)| < |Text(s, o)|
  {
    var d := Terminate(s, at);
    if o <= at < TextEnd(s, o) {
      FirstInUnique(d, o, {NUL}, at);
    }
  }

  /** The content state in one call, from the headers on. */
  lemma BodyKeepsAccepted(p: Parser)
    requires BodyNext(p)
    ensures var (code, q) := ScanBody(p, true);
            && q.url == p.url && q.version == p.version && q.state == Content && q.contentLength == p.contentLength
            && (code == NoRequest ==> Accepted(q))
            && (code == GetRequest ==> (Accepted(q) <==> Spared(q)))
            && (p.contentLength >= 0 ==> Accepted(q) && Captured(q) == Captured(p))
  {
    hide ScanBody, BodyStep, Captured, Accepted, Spared;
    BodyOutcome(p);
    if p.contentLength >= 0 {
      BodyKeeps(p);
    }
    if |p.data| >= p.contentLength + p.checkedIdx {
      BodyAccepts(p);
    }
  }

  lemma CapturedAppend(p: Parser, d: string)
    requires Valid(p) && p.state != RequestLine
    ensures Captured(Append(p, d)) == Captured(p)
  {
    assert (p.data + d)[..p.startLine] == p.data[..p.startLine];
    CapturedFrame(p, Append(p, d));
  }

  lemma StepCaptured(p: Parser)
    requires Valid(p) && p.state == Header && ParseLine(p).0 == LineOk
    ensures var q := Step(p).1; Captured(q).0 == Captured(p).0 && Captured(q).1 == Captured(p).1
  {
    hide Step, ParseLine;
    StepKeeps(p);
    var q := Step(p).1;
    HeldFrame(p.data, q.data, p.url, p.startLine);
    HeldFrame(p.data, q.data, p.version, p.startLine);
  }

  /** One call of process_read: it keeps the parser valid; a URL and version once accepted are the
      same pointers at the end, and the same strings unless a content length is negative; do_request
      is reached with an accepted request line exactly when a terminator written after a body spared
      it. */
  lemma {:induction false} CallKeeps(p: Parser)
    requires Valid(p) && p.state != Content
    ensures var (code, q) := ScanHead(p);
            && (q.state != Content ==> Valid(q))
            && (code == NoRequest && q.state != RequestLine ==> Accepted(q))
            && (code == GetRequest ==> (Accepted(q) <==> Spared(q)))
            && (BodyLengthSane(q) && (code == GetRequest || q.state != RequestLine) ==> Accepted(q))
            && (p.state == Header ==> q.url == p.url && q.version == p.version)
            && (p.state == Header && BodyLengthSane(q) ==>
                  Captured(q).0 == Captured(p).0 && Captured(q).1 == Captured(p).1)
    decreases |p.data| - p.checkedIdx
  {
    hide Step, ParseLine, BodyStep, ScanBody, Captured, Accepted, Held;
    if ParseLine(p).0 != LineOk {
      LineStall(p);
    } else {
      StepKeeps(p);
      if p.state == Header {
        StepCaptured(p);
      }
      var (code, m) := Step(p);
      if code == NoRequest {
        if m.state != Content {
          CallKeeps(m);
        } else {
          BodyKeepsAccepted(m);
        }
      }
    }
  }

  /** Exactly when the terminator write changes a captured string: it lands inside that string. */
  lemma TerminatorReach(p: Parser, o: Option<nat>)
    requires BodyNext(p) && |p.data| >= p.contentLength + p.checkedIdx
    requires Held(p.data, o, p.startLine)
    ensures var q := ScanBody(p, true).1;
            CapturedText(q.data, o) == CapturedText(p.data, o)
            <==> !(o.value <= p.checkedIdx + p.contentLength < TextEnd(p.data, o.value))
  {
    hide ScanBody, BodyStep, Terminate, Text, TextEnd;
    BodyOutcome(p);
    TerminateReach(p.data, p.checkedIdx + p.contentLength, o.value);
  }

  // ---------------------------------------------------------------- splitting the input

  /** Everything do_request and the response read, and the positions the next call starts from. */
  ghost predicate SameRequest(p: Parser, q: Parser) {
    && q == p.(data := q.data)
    && p.startLine <= |p.data| && p.startLine <= |q.data|
    && p.data[..p.startLine] == q.data[..p.startLine]
  }

  ghost predicate SameFields(p: Parser, q: Parser) {
    && q == p.(data := q.data, checkedIdx := q.checkedIdx, startLine := q.startLine)
    && Captured(p) == Captured(q)
  }

  /** What a split run ending in `v`, `q` has in common with a single call ending in `w`, `r`. */
  ghost predicate Agree(v: HttpCode, q: Parser, w: HttpCode, r: Parser) {
    && (q.state == Content <==> r.state == Content)
    && (q.state != Content || v == GetRequest ==> v == w && SameRequest(q, r))
    && (q.state != Content && v == NoRequest ==> q == r)
    && (q.state == Content && v == NoRequest ==> SameFields(q, r))
  }

  /** Entering the content state earlier rather than later. */
  lemma BodyAppend(p: Parser, d: string)
    requires BodyNext(p)
    ensures BodyNext(Append(p, d))
    ensures var (v, q) := ScanBody(p, true); var (w, r) := ScanBody(Append(p, d), true); Agree(v, q, w, r)
  {
    hide ScanBody, BodyStep, Captured, Accepted, Held;
    var whole := p.data + d;
    assert whole[..p.startLine] == p.data[..p.startLine];
    ValidAppend(p, d);
    BodyOutcome(p);
    BodyOutcome(Append(p, d));
    var (v, q) := ScanBody(p, true);
    var (w, r) := ScanBody(Append(p, d), true);
    var at := p.checkedIdx + p.contentLength;
    if v == GetRequest {
      assert Terminate(p.data, at)[..p.startLine] == Terminate(whole, at)[..p.startLine];
    } else {
      CapturedFrame(p, q);
      assert r.data[..p.startLine] == whole[..p.startLine];
      CapturedFrame(p, r);
    }
  }

  lemma ValidAppend(p: Parser, d: string)
    requires Valid(p)
    ensures Valid(Append(p, d))
  {
    var whole := p.data + d;
    assert whole[..p.startLine] == p.data[..p.startLine];
    assert whole[p.startLine..p.checkedIdx] == p.data[p.startLine..p.checkedIdx];
    StepFrame(p, Append(p, d));
    hide Held, Text;
  }

  lemma CallAppendStall(p: Parser, d: string)
    requires p.Indexed() && p.state != Content && ParseLine(p).0 != LineOk
    ensures ScanHead(Append(p, d)) == ScanHead(Append(ParseLine(p).1, d))
  {
    hide ParseLine, ParseRequestLine, ParseHeaders, BodyStep, ScanBody;
    ParseLineResumes(p, d);
  }

  lemma CallAppendEnd(p: Parser, d: string)
    requires p.Indexed() && p.state != Content && ParseLine(p).0 == LineOk && Step(p).0 != NoRequest
    ensures ScanHead(Append(p, d)) == (Step(p).0, Append(Step(p).1, d))
    ensures SameRequest(Step(p).1, Append(Step(p).1, d))
  {
    hide Step, ParseLine, BodyStep, ScanBody;
    StepAppend(p, d);
    var m := Step(p).1;
    assert (m.data + d)[..m.startLine] == m.data[..m.startLine];
  }

  lemma CallAppendNext(p: Parser, d: string)
    requires p.Indexed() && p.state != Content && ParseLine(p).0 == LineOk
    ensures var m := Step(p).1;
            Step(p).0 == NoRequest ==>
            ScanHead(Append(p, d))
            == if m.state == Content then ScanBody(Append(m, d), true) else ScanHead(Append(m, d))
  {
    hide Step, ParseLine, BodyStep, ScanBody;
    StepAppend(p, d);
  }

  /** Bytes that arrive later instead of now. */
  lemma {:induction false} CallAppend(p: Parser, d: string)
    requires Valid(p) && p.state != Content
    ensures var (v, q) := ScanHead(p); var (w, r) := ScanHead(Append(p, d));
            if v == NoRequest && q.state != Content then (w, r) == ScanHead(Append(q, d))
            else Agree(v, q, w, r)
    decreases |p.data| - p.checkedIdx
  {
    hide Step, ParseLine, BodyStep, ScanBody;
    if ParseLine(p).0 != LineOk {
      CallAppendStall(p, d);
    } else if Step(p).0 != NoRequest {
      StepKeeps(p);
      CallAppendEnd(p, d);
    } else {
      StepKeeps(p);
      CallAppendNext(p, d);
      var m := Step(p).1;
      if m.state == Content {
        BodyAppend(m, d);
      } else {
        CallAppend(m, d);
      }
    }
  }

  /** process_read after each read, until it reports something or ends in a body. */
  function FeedHead(p: Parser, chunks: seq<string>): (r: (HttpCode, Parser))
    requires p.Indexed()
    ensures r.1.Indexed()
    decreases |chunks|
  {
    if chunks == [] then (NoRequest, p)
    else
      var (code, q) := ProcessRead(Append(p, chunks[0]));
      if code != NoRequest || q.state == Content then (code, q) else FeedHead(q, chunks[1..])
  }

  function Concat(chunks: seq<string>): string {
    if chunks == [] then "" else chunks[0] + Concat(chunks[1..])
  }

  lemma AgreeSelf(p: Parser)
    requires p.Indexed() && p.state != Content
    ensures Agree(NoRequest, p, NoRequest, p)
  {
  }

  lemma {:induction false} FeedAgrees(p: Parser, chunks: seq<string>)
    requires Valid(p) && p.state != Content && chunks != []
    ensures var (v, q) := FeedHead(p, chunks); var (w, r) := ProcessRead(Append(p, Concat(chunks)));
            Agree(v, q, w, r)
    decreases |chunks|
  {
    hide ScanHead, Agree, Captured, Held, Accepted;
    var c, rest := chunks[0], chunks[1..];
    ValidAppend(p, c);
    CallAppend(Append(p, c), Concat(rest));
    assert Append(Append(p, c), Concat(rest)) == Append(p, Concat(chunks)) by {
      assert p.data + c + Concat(rest) == p.data + (c + Concat(rest));
    }
    var (code, q) := ProcessRead(Append(p, c));
    CallKeeps(Append(p, c));
    if code == NoRequest && q.state != Content {
      if rest == [] {
        assert Append(q, "") == q by { assert q.data + "" == q.data; }
        StallIsFinal(Append(p, c));
        AgreeSelf(q);
      } else {
        FeedAgrees(q, rest);
      }
    }
  }

  /** A call that ran out of input, repeated without new input, does nothing. */
  lemma {:induction false} StallIsFinal(p: Parser)
    requires Valid(p) && p.state != Content
    ensures var (code, q) := ScanHead(p);
            code == NoRequest && q.state != Content ==> ScanHead(q) == (NoRequest, q)
    decreases |p.data| - p.checkedIdx
  {
    hide Step, ParseLine, BodyStep, ScanBody;
    if ParseLine(p).0 != LineOk {
      StallAgain(p);
    } else {
      StepKeeps(p);
      var (code, m) := Step(p);
      if code == NoRequest && m.state != Content {
        StallIsFinal(m);
      }
    }
  }

  lemma StallAgain(p: Parser)
    requires p.Indexed() && p.state != Content && ParseLine(p).0 != LineOk
    ensures var l := ParseLine(p).1; ParseLine(l) == (ParseLine(p).0, l) && ScanHead(l) == (NoRequest, l)
  {
    hide Step, LineAt;
    var l := ParseLine(p).1;
    ParseLineResumes(p, "");
    assert Append(p, "") == p && Append(l, "") == l by {
      assert p.data + "" == p.data && l.data + "" == l.data;
    }
  }

  /** For every byte string and every way of splitting it between reads, from a fresh connection:
      verdict, state, captured strings, flags and positions are those of one call on the whole. */
  lemma ChunkingIndependence(chunks: seq<string>)
    ensures var (v, q) := FeedHead(FRESH, chunks); var (w, r) := ProcessRead(Append(FRESH, Concat(chunks)));
            Agree(v, q, w, r)
  {
    if chunks != [] {
      FeedAgrees(FRESH, chunks);
    }
  }

  /** Where a call that ends inside a body has entered it, also when more bytes are there. */
  lemma {:induction false} CallEntry(p: Parser, d: string) returns (m: Parser)
    requires Valid(p) && p.state != Content && ScanHead(p).0 == NoRequest && ScanHead(p).1.state == Content
    ensures BodyNext(m) && |m.data| == |p.data| && m.startLine >= p.startLine
    ensures ScanHead(p) == ScanBody(m, true) && ScanHead(Append(p, d)) == ScanBody(Append(m, d), true)
    decreases |p.data| - p.checkedIdx
  {
    hide Step, ParseLine, BodyStep, ScanBody;
    assert ParseLine(p).0 == LineOk;
    StepKeeps(p);
    StepBytes(p);
    CallAppendNext(p, d);
    m := Step(p).1;
    if m.state != Content {
      m := CallEntry(m, d);
    }
  }

  /** The first read of a run that goes on, against all of them at once. */
  lemma FirstOfMany(p: Parser, c: string, rest: string)
    requires Valid(p) && p.state != Content
    ensures var (code, q) := ProcessRead(Append(p, c));
            code == NoRequest && q.state != Content ==>
              && Valid(q) && |q.data| == |p.data| + |c|
              && ProcessRead(Append(p, c + rest)) == ProcessRead(Append(q, rest))
  {
    assert p.Indexed();
    hide ScanHead, Valid, Accepted, Captured, Spared, Agree, BodyLengthSane;
    ValidAppend(p, c);
    CallKeeps(Append(p, c));
    CallAppend(Append(p, c), rest);
    AppendTwice(p, c, rest);
  }

  lemma AppendTwice(p: Parser, c: string, d: string)
    ensures Append(Append(p, c), d) == Append(p, c + d)
  {
    assert p.data + c + d == p.data + (c + d);
  }

  lemma FirstEntry(p: Parser, c: string, rest: string) returns (m: Parser)
    requires Valid(p) && p.state != Content
    requires ProcessRead(Append(p, c)).0 == NoRequest && ProcessRead(Append(p, c)).1.state == Content
    ensures BodyNext(m) && |m.data| == |p.data| + |c|
    ensures ProcessRead(Append(p, c)) == ScanBody(m, true)
    ensures ProcessRead(Append(p, c + rest)) == ScanBody(Append(m, rest), true)
  {
    assert p.Indexed();
    hide ScanHead, ScanBody, Valid;
    ValidAppend(p, c);
    AppendTwice(p, c, rest);
    m := CallEntry(Append(p, c), rest);
  }

  /** A split run that ends inside a body and the single call on the whole have entered that body at
      the same position, in the same state. */
  lemma {:induction false} SameEntry(p: Parser, chunks: seq<string>) returns (m: Parser, d: string)
    requires Valid(p) && p.state != Content
    requires FeedHead(p, chunks).0 == NoRequest && FeedHead(p, chunks).1.state == Content
    ensures BodyNext(m) && |m.data| + |d| == |p.data| + |Concat(chunks)|
    ensures FeedHead(p, chunks) == ScanBody(m, true)
    ensures ProcessRead(Append(p, Concat(chunks))) == ScanBody(Append(m, d), true)
    decreases |chunks|
  {
    assert p.Indexed() && chunks != [];
    hide ProcessRead, ScanBody, Valid, BodyNext, Append;
    var c, rest := chunks[0], chunks[1..];
    var (code, q) := ProcessRead(Append(p, c));
    if code == NoRequest && q.state == Content {
      m := FirstEntry(p, c, Concat(rest));
      d := Concat(rest);
    } else {
      FirstOfMany(p, c, Concat(rest));
      m, d := SameEntry(q, rest);
    }
  }

  // ---------------------------------------------------------------- bodies split between reads

  /** A body that the scan position has outrun is not completed by this call. */
  lemma {:induction false} BodyOutrun(p: Parser, lineOk: bool)
    requires p.Indexed() && p.state == Content
    requires |p.data| < p.contentLength + p.checkedIdx
    ensures ScanBody(p, lineOk).0 == NoRequest && ScanBody(p, lineOk).1.checkedIdx >= p.checkedIdx
    decreases |p.data| - p.checkedIdx, lineOk
  {
    if lineOk {
      BodyOutrun(BodyStep(p).1, false);
    } else if ParseLine(p).0 == LineOk {
      BodyOutrun(BodyStep(ParseLine(p).1).1, false);
    }
  }

  /** The verdict of a call that starts in the content state: the body is counted from the scan
      position, wherever that is. */
  lemma BodyVerdict(p: Parser)
    requires p.Indexed() && p.state == Content
    ensures ScanBody(p, true).0 == GetRequest <==> |p.data| >= p.contentLength + p.checkedIdx
  {
    if |p.data| < p.contentLength + p.checkedIdx {
      BodyOutrun(p, true);
    }
  }

  /** The body of a request is outside the splitting guarantee.  A call that leaves a body incomplete
      leaves the scan position at `q.checkedIdx`, past the lines of body it has consumed, and the
      next call counts the body from there; a single call counts it from where it starts. */
  lemma SplitBody(p: Parser, d: string)
    requires BodyNext(p) && |p.data| < p.contentLength + p.checkedIdx
    ensures var q := ScanBody(p, true).1;
            && (ProcessRead(Append(q, d)).0 == GetRequest <==> |p.data| + |d| >= p.contentLength + q.checkedIdx)
            && (ScanBody(Append(p, d), true).0 == GetRequest <==> |p.data| + |d| >= p.contentLength + p.checkedIdx)
            && q.checkedIdx >= p.checkedIdx
  {
    assert p.startLine > 0 ==> p.data[p.startLine - 1] == NUL;
    hide ScanBody, BodyStep, Valid;
    BodyOutrun(p, true);
    BodyOutcome(p);
    BodyVerdict(Append(ScanBody(p, true).1, d));
    BodyVerdict(Append(p, d));
  }

  /** The scan does not move over the received part of a body: there is none, or it starts with an LF
      or with a CR that no LF follows. */
  predicate StaysPut(body: string) {
    body == "" || body[0] == LF || (body[0] == CR && (|body| == 1 || body[1] != LF))
  }

  lemma ScanStays(p: Parser)
    requires BodyNext(p) && |p.data| < p.contentLength + p.checkedIdx
    ensures ScanBody(p, true).1.checkedIdx == p.checkedIdx <==> StaysPut(p.data[p.checkedIdx..])
  {
    hide BodyStep, ParseLine;
    BodyStays(p);
    var b := BodyStep(p).1;
    assert ScanBody(p, true) == ScanBody(b, false);
    LineStays(b);
    if ParseLine(b).0 == LineOk {
      var l := ParseLine(b).1;
      assert ScanBody(b, false) == ScanBody(BodyStep(l).1, false) by { BodyStays(l); }
      BodyOutrun(BodyStep(l).1, false);
    }
  }

  lemma LineStays(p: Parser)
    requires p.Indexed() && p.checkedIdx > 0 && p.data[p.checkedIdx - 1] == NUL
    ensures ParseLine(p).0 != LineOk && ParseLine(p).1.checkedIdx == p.checkedIdx
            <==> StaysPut(p.data[p.checkedIdx..])
  {
    var i := FirstIn(p.data, p.checkedIdx, LINE_BREAKS);
    var body := p.data[p.checkedIdx..];
    assert body != "" ==> body[0] == p.data[p.checkedIdx];
    assert |body| > 1 ==> body[1] == p.data[p.checkedIdx + 1];
  }

  /** Splitting the input between the state `p` in the content state and `d` does not show in the
      verdict on the body. */
  ghost predicate SplitUnseen(p: Parser, d: string)
    requires BodyNext(p)
  {
    ProcessRead(Append(ScanBody(p, true).1, d)).0 == GetRequest <==> ScanBody(Append(p, d), true).0 == GetRequest
  }

  lemma SplitUnseenIff(p: Parser, d: string)
    requires BodyNext(p) && |p.data| < p.contentLength + p.checkedIdx
    ensures SplitUnseen(p, d)
            <==> !(p.contentLength + p.checkedIdx <= |p.data| + |d| < p.contentLength + ScanBody(p, true).1.checkedIdx)
  {
    assert p.Indexed() && p.state == Content;
    hide ScanBody, ProcessRead, Valid;
    SplitBody(p, d);
  }

  /** A split inside the body goes unnoticed, whatever comes after it, exactly when the scan does not
      move over the part received before it. */
  lemma SplitBodyAgreesIff(p: Parser)
    requires BodyNext(p) && |p.data| < p.contentLength + p.checkedIdx
    ensures (forall d: string :: SplitUnseen(p, d)) <==> StaysPut(p.data[p.checkedIdx..])
  {
    assert p.Indexed() && p.state == Content;
    hide ScanBody, Valid, StaysPut, SplitUnseen;
    ScanStays(p);
    BodyOutrun(p, true);
    if StaysPut(p.data[p.checkedIdx..]) {
      forall d: string ensures SplitUnseen(p, d) {
        SplitUnseenIff(p, d);
      }
    } else {
      var rest := seq(p.contentLength + p.checkedIdx - |p.data|, _ => 'x');
      SplitUnseenIff(p, rest);
      assert !SplitUnseen(p, rest);
    }
  }
}
