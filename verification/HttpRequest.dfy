/** Whole requests: what process_read makes of a printed request, against a reference that only
    looks at the list of lines. */
module HttpRequest {
  import opened Options
  import opened CStrings
  import opened Numbers
  import opened HttpParser
  import opened HttpChunking
  import opened HttpRuns
  import opened HttpRequestLine

  /** What a list of header lines says. */
  datatype Summary = Summary(linger: bool, length: int, host: Option<string>)

  /** The value of header `name` (with its colon) when the line has it. */
  function ValueOf(line: string, name: string): Option<string> {
    if PrefixNoCase(line, name) then Some(line[FirstNotIn(line, |name|, BLANKS)..]) else None
  }

  /** One more line: keep-alive is remembered, the last length and the last host count, anything
      else is ignored. */
  function Next(s: Summary, line: string): Summary {
    if ValueOf(line, "Connection:").Some? then
      s.(linger := s.linger || EqNoCase(ValueOf(line, "Connection:").value, "keep-alive"))
    else if ValueOf(line, "Content-Length:").Some? then
      s.(length := ToInt(Atol(ValueOf(line, "Content-Length:").value)))
    else if ValueOf(line, "Host:").Some? then
      s.(host := Some(ValueOf(line, "Host:").value))
    else s
  }

  function Fold(s: Summary, lines: seq<string>): Summary
    decreases |lines|
  {
    if lines == [] then s else Fold(Next(s, lines[0]), lines[1..])
  }

  /** Where the value of the last Host line starts, when the lines are sent from position `at` on. */
  function HostAt(lines: seq<string>, at: nat, before: Option<nat>): Option<nat>
    decreases |lines|
  {
    if lines == [] then before
    else HostAt(lines[1..], at + |lines[0]| + 2, NextHost(lines[0], at, before))
  }

  function NextHost(line: string, at: nat, before: Option<nat>): Option<nat> {
    if ValueOf(line, "Connection:").Some? || ValueOf(line, "Content-Length:").Some? then before
    else if ValueOf(line, "Host:").Some? then Some(at + FirstNotIn(line, |"Host:"|, BLANKS))
    else before
  }

  /** The header lines as they are sent, with the blank line. */
  function PrintHeaders(lines: seq<string>): string {
    if lines == [] then "\r\n" else lines[0] + "\r\n" + PrintHeaders(lines[1..])
  }

  ghost predicate Clean(lines: seq<string>) {
    forall i | 0 <= i < |lines| :: lines[i] != "" && Avoids(lines[i], {NUL, CR, LF})
  }

  /** What a parser in the header state has gathered so far. */
  function Gathered(p: Parser): Summary {
    Summary(p.linger, p.contentLength, Captured(p).2)
  }

  // ---------------------------------------------------------------- one line

  lemma HeaderBytes(p: Parser, t: string, rest: string)
    requires p.checkedIdx <= |p.data| && p.data[p.checkedIdx..] == t + "\r\n" + rest
    requires Avoids(t, {NUL, CR, LF})
    ensures var i := p.checkedIdx + |t|;
            && i + 2 + |rest| == |p.data| && p.data[i] == CR && p.data[i + 1] == LF && p.data[i + 2..] == rest
            && FirstIn(p.data, p.checkedIdx, LINE_BREAKS) == i
            && (forall j | p.checkedIdx <= j < i :: p.data[j] == t[j - p.checkedIdx])
  {
    var a := p.checkedIdx;
    var line := t + "\r\n" + rest;
    assert forall j | a <= j < |p.data| :: p.data[j] == p.data[a..][j - a] == line[j - a];
    assert forall j | 0 <= j < |t| :: line[j] == t[j];
    assert line[|t|] == CR && line[|t| + 1] == LF && line[|t| + 2..] == rest;
    FirstInUnique(p.data, a, LINE_BREAKS, a + |t|);
    assert p.data[a + |t| + 2..] == p.data[a..][|t| + 2..];
  }

  /** One header line of the input, in the header state: the line is cut off and handed over. */
  lemma HeaderStep(p: Parser, t: string, rest: string)
    requires p.state == Header && p.startLine == p.checkedIdx <= |p.data|
    requires p.data[p.checkedIdx..] == t + "\r\n" + rest && Avoids(t, {NUL, CR, LF})
    ensures ParseLine(p).0 == LineOk
    ensures var l := ParseLine(p).1; var a := p.checkedIdx; var c := a + |t| + 2;
            && l == p.(data := l.data, checkedIdx := c) && |l.data| == |p.data|
            && l.data[c..] == rest && l.data[c - 1] == NUL
            && Terminated(l.data, a) && TextEnd(l.data, a) == a + |t| && Text(l.data, a) == t
            && Step(p) == ParseHeaders(l.(startLine := c), a)
  {
    hide ParseHeaders, ParseRequestLine;
    HeaderBytes(p, t, rest);
    var i := p.checkedIdx + |t|;
    var d := p.data[i := NUL][i + 1 := NUL];
    assert ParseLine(p) == (LineOk, p.(data := d, checkedIdx := i + 2));
    FirstInUnique(d, p.checkedIdx, {NUL}, i);
    assert Text(d, p.checkedIdx) == t;
    assert d[i + 2..] == p.data[i + 2..];
  }

  /** What the parser takes from it. */
  lemma HeaderLine(p: Parser, t: string, rest: string)
    requires p.state == Header && p.startLine == p.checkedIdx <= |p.data|
    requires p.data[p.checkedIdx..] == t + "\r\n" + rest && Avoids(t, {NUL, CR, LF})
    ensures ParseLine(p).0 == LineOk
    ensures var (code, m) := Step(p); var c := p.checkedIdx + |t| + 2;
            var q := p.(data := m.data, checkedIdx := c, startLine := c);
            && |m.data| == |p.data| && m.data[c..] == rest && m.data[c - 1] == NUL
            && code == (if ReadHeader(t) == EndOfHeaders && p.contentLength == 0 then GetRequest else NoRequest)
            && m == match ReadHeader(t)
                    case EndOfHeaders => if p.contentLength != 0 then q.(state := Content) else q
                    case Connection(k) => q.(linger := p.linger || k)
                    case ContentLength(n) => q.(contentLength := n)
                    case Host(k) => q.(host := Some(p.checkedIdx + k))
                    case Unknown => q
    ensures var m := Step(p).1; ReadHeader(t).Host? ==> CapturedText(m.data, m.host) == Some(t[ReadHeader(t).offset..])
  {
    hide ReadHeader, ParseLine, Step;
    HeaderStep(p, t, rest);
    var f := ReadHeader(t);
    if f.Host? {
      TextSuffix(ParseLine(p).1.data, p.checkedIdx, p.checkedIdx + f.offset);
    }
  }

  lemma BlankLine(p: Parser, body: string)
    requires p.state == Header && p.startLine == p.checkedIdx <= |p.data| && p.contentLength != 0
    requires p.data[p.checkedIdx..] == "" + "\r\n" + body
    ensures ParseLine(p).0 == LineOk
    ensures var (code, m) := Step(p); var c := p.checkedIdx + 2;
            && code == NoRequest && m == p.(data := m.data, checkedIdx := c, startLine := c, state := Content)
            && |m.data| == |p.data| && m.data[c..] == body && m.data[c - 1] == NUL
  {
    HeaderLine(p, "", body);
  }

  /** One header line: the parser gathers what the reference says, and moves to the next line. */
  lemma OneHeader(p: Parser, h: string, rest: string)
    requires Valid(p) && p.state == Header && p.startLine == p.checkedIdx
    requires p.data[p.checkedIdx..] == h + "\r\n" + rest && h != "" && Avoids(h, {NUL, CR, LF})
    ensures ParseLine(p).0 == LineOk
    ensures var (code, m) := Step(p);
            && code == NoRequest && Valid(m) && m.state == Header
            && m.startLine == m.checkedIdx == p.checkedIdx + |h| + 2 && m.data[m.checkedIdx..] == rest
            && Gathered(m) == Next(Gathered(p), h)
            && Captured(m).0 == Captured(p).0 && Captured(m).1 == Captured(p).1
            && m.url == p.url && m.version == p.version && m.host == NextHost(h, p.checkedIdx, p.host)
  {
    HostHeld(p);
    hide Step, ParseLine, Next, NextHost, Gathered, Captured, Valid;
    HeaderPlaces(p, h, rest);
    StepKeeps(p);
    StepCaptured(p);
    HeaderGathers(p, h, rest);
  }

  lemma HeaderPlaces(p: Parser, h: string, rest: string)
    requires p.state == Header && p.startLine == p.checkedIdx <= |p.data|
    requires p.data[p.checkedIdx..] == h + "\r\n" + rest && h != "" && Avoids(h, {NUL, CR, LF})
    ensures ParseLine(p).0 == LineOk
    ensures var (code, m) := Step(p);
            && code == NoRequest && m.state == Header
            && m.startLine == m.checkedIdx == p.checkedIdx + |h| + 2 <= |m.data| && m.data[m.checkedIdx..] == rest
            && m.url == p.url && m.version == p.version && m.host == NextHost(h, p.checkedIdx, p.host)
  {
    hide Step, ParseLine, ReadHeader, Next, NextHost;
    HeaderLine(p, h, rest);
    ReadsAsNext(Gathered(p), h);
    ReadsAsNextHost(h, p.checkedIdx, p.host);
  }

  lemma HeaderGathers(p: Parser, h: string, rest: string)
    requires Valid(p) && p.state == Header && p.startLine == p.checkedIdx
    requires p.data[p.checkedIdx..] == h + "\r\n" + rest && h != "" && Avoids(h, {NUL, CR, LF})
    ensures ParseLine(p).0 == LineOk && Gathered(Step(p).1) == Next(Gathered(p), h)
  {
    HostHeld(p);
    hide Step, ParseLine, ReadHeader, Next, Valid, Held;
    HeaderLine(p, h, rest);
    StepBytes(p);
    var m := Step(p).1;
    ReadsAsNext(Gathered(p), h);
    if p.host.Some? && m.host == p.host {
      HeldFrame(p.data, m.data, p.host, p.startLine);
    }
  }

  lemma HostHeld(p: Parser)
    requires Valid(p)
    ensures p.Indexed() && (p.host.Some? ==> Held(p.data, p.host, p.startLine) && p.host.value <= p.startLine)
  {
  }

  /** The two ways of saying what a header line means. */
  lemma ReadsAsNext(s: Summary, h: string)
    requires h != ""
    ensures Next(s, h) == match ReadHeader(h)
                          case EndOfHeaders => s
                          case Connection(k) => s.(linger := s.linger || k)
                          case ContentLength(n) => s.(length := n)
                          case Host(k) => s.(host := Some(h[k..]))
                          case Unknown => s
    ensures ReadHeader(h) != EndOfHeaders
  {
    hide Atol, ToInt, EqNoCase;
  }

  lemma ReadsAsNextHost(h: string, at: nat, before: Option<nat>)
    requires h != ""
    ensures NextHost(h, at, before) == if ReadHeader(h).Host? then Some(at + ReadHeader(h).offset) else before
  {
    hide Atol, ToInt, EqNoCase;
  }

  // ---------------------------------------------------------------- whole requests

  /** All header lines: process_read is then at the blank line with the reference's summary. */
  lemma {:induction false} AllHeaders(p: Parser, lines: seq<string>, body: string) returns (m: Parser)
    requires Valid(p) && p.state == Header && p.startLine == p.checkedIdx
    requires Clean(lines) && p.data[p.checkedIdx..] == PrintHeaders(lines) + body
    ensures Valid(m) && m.state == Header && m.startLine == m.checkedIdx
    ensures m.data[m.checkedIdx..] == "" + "\r\n" + body
    ensures ScanHead(p) == ScanHead(m) && Gathered(m) == Fold(Gathered(p), lines)
    ensures Captured(m).0 == Captured(p).0 && Captured(m).1 == Captured(p).1
    ensures m.url == p.url && m.version == p.version && m.host == HostAt(lines, p.checkedIdx, p.host)
    ensures m.checkedIdx + 2 == p.checkedIdx + |PrintHeaders(lines)|
    decreases |lines|
  {
    hide Step, ParseLine, Valid, Captured, Gathered, Next, NextHost;
    if lines == [] {
      m := p;
      assert "" + "\r\n" + body == "\r\n" + body;
    } else {
      var h, rest := lines[0], PrintHeaders(lines[1..]) + body;
      assert PrintHeaders(lines) + body == h + "\r\n" + rest;
      OneHeader(p, h, rest);
      m := AllHeaders(Step(p).1, lines[1..], body);
    }
  }

  /** A string of `n` bytes at `o` is out of reach of a terminator written at `at`. */
  predicate Clear(at: int, o: nat, n: nat) {
    !(o <= at < o + n)
  }

  /** Of the strings `texts` at `places`, those in `q` are the same that are clear of `at`. */
  ghost predicate Reached(q: Parser, at: int, places: (Option<nat>, Option<nat>, Option<nat>),
                          texts: (Option<string>, Option<string>, Option<string>))
  {
    && places.0.Some? && places.1.Some? && texts.0.Some? && texts.1.Some? && (places.2.Some? <==> texts.2.Some?)
    && (Captured(q).0 == texts.0 <==> Clear(at, places.0.value, |texts.0.value|))
    && (Captured(q).1 == texts.1 <==> Clear(at, places.1.value, |texts.1.value|))
    && (Captured(q).2 == texts.2 <==> places.2.None? || Clear(at, places.2.value, |texts.2.value|))
  }

  /** A whole request against the reference.  Without a body the verdict is reached at the blank line;
      with one, exactly when that many bytes follow.  Linger flag and length are what the lines say;
      so are URL, version and host, each one, when the length is negative, if and only if it is clear of
      the position that many bytes before the end of the head. */
  lemma RequestMeansItsLines(l: Line, lines: seq<string>, body: string)
    requires WellFormed(l) && Avoids(Print(l), {NUL, CR, LF}) && Clean(lines)
    ensures var s := Fold(Summary(false, 0, None), lines);
            var head := Print(l) + "\r\n" + PrintHeaders(lines);
            var (code, q) := ProcessRead(Append(FRESH, head + body));
            && q.linger == s.linger && q.contentLength == s.length
            && (s.length >= 0 ==> Captured(q) == (Target(l.target), Some(l.version), s.host))
            && (s.length == 0 ==> code == GetRequest && q.state == Header && q.checkedIdx == |head|)
            && (s.length != 0 ==> q.state == Content && (code == GetRequest <==> |body| >= s.length))
    ensures var s := Fold(Summary(false, 0, None), lines);
            var head := Print(l) + "\r\n" + PrintHeaders(lines);
            var q := ProcessRead(Append(FRESH, head + body)).1;
            var h := HostAt(lines, |Print(l)| + 2, None);
            && Target(l.target).Some? && (s.host.Some? <==> h.Some?)
            && (s.length < 0 ==> Reached(q, |head| + s.length, (Some(UrlAt(l)), Some(VersionAt(l)), h),
                                         (Target(l.target), Some(l.version), s.host)))
  {
    hide Step, ParseLine, Valid, Captured, WellFormed, Print, Target, Fold, PrintHeaders, ScanBody, HostAt, Reached;
    var tail := PrintHeaders(lines) + body;
    var all := Print(l) + "\r\n" + PrintHeaders(lines) + body;
    assert all == Print(l) + "\r\n" + tail;
    var p := AfterRequestLine(l, tail);
    var m := AllHeaders(p, lines, body);
    BlankStep(m, body);
    HostCaptured(m);
    if m.contentLength < 0 {
      BlankReached(m, body);
    }
  }

  /** The same for every split of the input into reads: a request without a body ends in do_request
      with what its lines say, as soon as its blank line has arrived. */
  lemma SplitRequestMeansItsLines(l: Line, lines: seq<string>, more: string, chunks: seq<string>)
    requires WellFormed(l) && Avoids(Print(l), {NUL, CR, LF}) && Clean(lines)
    requires Fold(Summary(false, 0, None), lines).length == 0
    requires Concat(chunks) == Print(l) + "\r\n" + PrintHeaders(lines) + more
    ensures var s := Fold(Summary(false, 0, None), lines);
            var (code, q) := Feed(FRESH, chunks);
            code == GetRequest && q.linger == s.linger && Captured(q) == (Target(l.target), Some(l.version), s.host)
  {
    hide ProcessRead, Captured, WellFormed, Print, Target, Fold, PrintHeaders, Concat, Feed, FeedHead, Accepted;
    RequestMeansItsLines(l, lines, more);
    ChunkingIndependence(chunks);
    FreshValid();
    FeedHeadIsFeed(FRESH, chunks);
    FeedKeeps(FRESH, chunks);
    var q := Feed(FRESH, chunks).1;
    var r := ProcessRead(Append(FRESH, Concat(chunks))).1;
    CapturedFrame(q, r);
  }

  /** The request line at the head of the input. */
  lemma AfterRequestLine(l: Line, tail: string) returns (p: Parser)
    requires WellFormed(l) && Avoids(Print(l), {NUL, CR, LF})
    ensures Valid(p) && p.state == Header && p.startLine == p.checkedIdx == |Print(l)| + 2
    ensures ProcessRead(Append(FRESH, Print(l) + "\r\n" + tail)) == ScanHead(p)
    ensures p.data[p.checkedIdx..] == tail && Gathered(p) == Summary(false, 0, None)
    ensures Captured(p).0 == Target(l.target) && Captured(p).1 == Some(l.version)
    ensures Target(l.target).Some? && p.url == Some(UrlAt(l)) && p.version == Some(VersionAt(l)) && p.host == None
  {
    hide Step, ParseLine, Captured, WellFormed, Print, Target, ScanHead, Agree;
    var t := Print(l) + "\r\n";
    var first := Append(FRESH, t);
    PrintThenParse(l);
    var q := ProcessRead(first).1;
    FreshValid();
    ValidAppend(FRESH, t);
    CallKeeps(first);
    CallAppend(first, tail);
    p := Append(q, tail);
    assert FRESH.data + t + tail == Print(l) + "\r\n" + tail;
    assert Append(first, tail) == Append(FRESH, Print(l) + "\r\n" + tail);
    ValidAppend(q, tail);
    CapturedAppend(q, tail);
  }

  lemma FreshValid()
    ensures Valid(FRESH)
  {
  }

  /** The blank line and what follows it. */
  lemma BlankStep(m: Parser, body: string)
    requires Valid(m) && m.state == Header && m.startLine == m.checkedIdx
    requires m.data[m.checkedIdx..] == "" + "\r\n" + body
    ensures var (code, q) := ScanHead(m);
            && q.linger == m.linger && q.contentLength == m.contentLength
            && q.url == m.url && q.version == m.version && q.host == m.host
            && (m.contentLength >= 0 ==> Captured(q) == Captured(m))
            && (m.contentLength <= 0 ==> code == GetRequest && q.checkedIdx == m.checkedIdx + 2)
            && (m.contentLength == 0 ==> q.state == Header)
            && (m.contentLength != 0 ==> q.state == Content && (code == GetRequest <==> |body| >= m.contentLength))
  {
    assert m.Indexed();
    hide Step, ParseLine, ScanBody, Captured, Valid, Accepted;
    EmptyLine();
    HeaderLine(m, "", body);
    var q := Step(m).1;
    BlankKeeps(m, body);
    if m.contentLength != 0 {
      BodyNextValid(q);
      BodyOutcome(q);
      if m.contentLength > 0 {
        BodyKeeps(q);
      }
    }
  }

  /** A negative length: the terminator, written that many bytes before the end of the head, changes
      the captured strings it falls into. */
  lemma BlankReaches(m: Parser, body: string, o: Option<nat>)
    requires Valid(m) && m.state == Header && m.startLine == m.checkedIdx && m.contentLength < 0
    requires m.data[m.checkedIdx..] == "" + "\r\n" + body && Held(m.data, o, m.startLine)
    ensures CapturedText(ScanHead(m).1.data, o) == CapturedText(m.data, o)
            <==> Clear(m.checkedIdx + 2 + m.contentLength, o.value, |Text(m.data, o.value)|)
  {
    assert m.Indexed();
    hide ScanHead, Valid, Held, Text, TextEnd, CapturedText;
    BlankStep(m, body);
    CallFreezes(m);
    var (code, q) := ScanHead(m);
    HeldIn(m.data, o, m.startLine);
    FinishedHeld(m.data, q.data, code, q, o, m.startLine);
  }

  lemma HostCaptured(m: Parser)
    requires Valid(m)
    ensures Captured(m).2.Some? <==> m.host.Some?
  {
  }

  /** URL, version and host after a negative length, one by one. */
  lemma BlankReached(m: Parser, body: string)
    requires Valid(m) && m.state == Header && m.startLine == m.checkedIdx && m.contentLength < 0
    requires m.data[m.checkedIdx..] == "" + "\r\n" + body
    ensures Reached(ScanHead(m).1, m.checkedIdx + 2 + m.contentLength, (m.url, m.version, m.host), Captured(m))
  {
    AcceptedHeld(m);
    HeldIn(m.data, m.url, m.startLine);
    HeldIn(m.data, m.version, m.startLine);
    hide ScanHead, Valid, Held, Text, TextEnd, Clear;
    BlankStep(m, body);
    BlankReaches(m, body, m.url);
    BlankReaches(m, body, m.version);
    if m.host.Some? {
      HeldIn(m.data, m.host, m.startLine);
      BlankReaches(m, body, m.host);
    }
  }

  lemma BodyNextValid(q: Parser)
    requires Valid(q) && q.state == Content && q.startLine == q.checkedIdx
    ensures BodyNext(q) && (q.startLine > 0 ==> q.data[q.startLine - 1] == NUL)
  {
  }

  lemma EmptyLine()
    ensures ReadHeader("") == EndOfHeaders
  {
  }

  /** The blank line changes no captured string. */
  lemma BlankKeeps(m: Parser, body: string)
    requires Valid(m) && m.state == Header && m.startLine == m.checkedIdx
    requires m.data[m.checkedIdx..] == "" + "\r\n" + body
    ensures ParseLine(m).0 == LineOk && Valid(Step(m).1) && Captured(Step(m).1) == Captured(m)
  {
    hide Step, ParseLine, Captured, ReadHeader, Accepted;
    EmptyLine();
    HeaderLine(m, "", body);
    StepKeeps(m);
    CapturedFrame(m, Step(m).1);
  }
}
