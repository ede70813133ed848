/** Which requests are refused as bad, and what the client gets: the verdict of process_read on every
    input, over every split, and the answer it turns into. */
module HttpVerdict {
  import opened Options
  import opened CStrings
  import opened Numbers
  import opened HttpParser
  import opened HttpChunking
  import opened HttpRequestLine
  import opened HttpRuns
  import opened HttpRequest
  import opened HttpResponse
  import opened HttpConn

  /** The C string that a line is read as. */
  function UpToNul(t: string): string {
    t[..FirstIn(t, 0, {NUL})]
  }

  /** The line is a request line of the grammar. */
  ghost predicate IsRequestLine(t: string) {
    exists l: Line :: WellFormed(l) && Print(l) == t
  }

  /** Input that does not have a CRLF at its first line break. */
  predicate NoLine(s: string) {
    var i := FirstIn(s, 0, LINE_BREAKS);
    i == |s| || s[i] == LF || i + 1 == |s| || s[i + 1] != LF
  }

  lemma FirstLineOf(t: string, rest: string)
    requires Avoids(t, LINE_BREAKS)
    ensures var (status, l) := ParseLine(Append(FRESH, t + "\r\n" + rest));
            && status == LineOk && l.state == RequestLine && l.startLine == 0 && l.checkedIdx == |t| + 2
            && Terminated(l.data, 0) && Text(l.data, 0) == UpToNul(t)
  {
    FirstLineBytes(t, rest);
    hide ParseLine, UpToNul, Terminated, Text;
    TextOfPrefix(ParseLine(Append(FRESH, t + "\r\n" + rest)).1.data, t);
  }

  lemma FirstLineBytes(t: string, rest: string)
    requires Avoids(t, LINE_BREAKS)
    ensures var (status, l) := ParseLine(Append(FRESH, t + "\r\n" + rest));
            && status == LineOk && l.state == RequestLine && l.startLine == 0 && l.checkedIdx == |t| + 2 <= |l.data|
            && l.data[|t|] == NUL && forall j | 0 <= j < |t| :: l.data[j] == t[j]
  {
    var p := Append(FRESH, t + "\r\n" + rest);
    assert p.data == t + "\r\n" + rest;
    assert forall j | 0 <= j < |t| :: p.data[j] == t[j];
    FirstInUnique(p.data, 0, LINE_BREAKS, |t|);
  }

  lemma TextOfPrefix(d: string, t: string)
    requires |t| < |d| && d[|t|] == NUL && forall j | 0 <= j < |t| :: d[j] == t[j]
    ensures Terminated(d, 0) && Text(d, 0) == UpToNul(t)
  {
    var k := FirstIn(t, 0, {NUL});
    FirstInUnique(d, 0, {NUL}, k);
    assert d[0..k] == t[..k];
  }

  /** The three outcomes of parse_line outside a body, by what follows the bytes without a CR or LF
      that it scans: complete at a CRLF, open at the end of the data or at a CR that is its last byte,
      bad at any other CR or LF. */
  lemma LineStatuses(p: Parser, text: string, tail: string)
    requires Valid(p) && p.state != Content && p.data[p.checkedIdx..] == text + tail
    requires Avoids(text, LINE_BREAKS) && (tail == "" || tail[0] in LINE_BREAKS)
    ensures var status := ParseLine(p).0;
            && (status == LineOk <==> |tail| >= 2 && tail[0] == CR && tail[1] == LF)
            && (status == LineOpen <==> tail == "" || (|tail| == 1 && tail[0] == CR))
            && (status == LineBad <==> |tail| >= 1 && (tail[0] == LF || (|tail| >= 2 && tail[1] != LF)))
  {
    NextBreak(p.data, p.checkedIdx, text, tail);
    NoCrBefore(p);
    hide Valid, FirstIn, Avoids;
  }

  /** No CR stands right before the first line break of what is still to be scanned. */
  lemma NoCrBefore(p: Parser)
    requires Valid(p) && p.state != Content
    ensures var i := FirstIn(p.data, p.checkedIdx, LINE_BREAKS); i > 0 ==> p.data[i - 1] != CR
  {
    hide Accepted, Held;
    var i, line := FirstIn(p.data, p.checkedIdx, LINE_BREAKS), p.data[p.startLine..p.checkedIdx];
    if i == p.checkedIdx > p.startLine {
      assert p.data[i - 1] == line[|line| - 1];
    }
  }

  lemma NextBreak(d: string, c: nat, text: string, tail: string)
    requires c <= |d| && d[c..] == text + tail
    requires Avoids(text, LINE_BREAKS) && (tail == "" || tail[0] in LINE_BREAKS)
    ensures var i := FirstIn(d, c, LINE_BREAKS);
            i == c + |text| && |d| == i + |tail| && forall k | 0 <= k < |tail| :: d[i + k] == tail[k]
  {
    forall k | 0 <= k < |text| + |tail| ensures d[c + k] == (text + tail)[k] {
      assert d[c..][k] == d[c + k];
    }
    var i := c + |text|;
    forall k | c <= k < i ensures d[k] !in LINE_BREAKS {
      assert d[k] == (text + tail)[k - c];
    }
    if tail != "" {
      assert d[i] == (text + tail)[|text|];
      FirstInUnique(d, c, LINE_BREAKS, i);
    }
  }

  /** Past the request line nothing is refused as bad. */
  lemma {:induction false} HeadersNeverBad(p: Parser)
    requires p.Indexed() && p.state == Header
    ensures ScanHead(p).0 != BadRequest
    decreases |p.data| - p.checkedIdx
  {
    hide ParseLine, ScanBody;
    if ParseLine(p).0 == LineOk {
      HeaderStays(p);
      var (code, q) := Step(p);
      if code == NoRequest && q.state != Content {
        HeadersNeverBad(q);
      }
    }
  }

  lemma HeaderStays(p: Parser)
    requires p.Indexed() && p.state == Header && ParseLine(p).0 == LineOk
    ensures var (code, q) := Step(p); code != BadRequest && q.state in {Header, Content} && q.Indexed()
  {
  }

  /** The first line decides: a request is refused as bad if and only if its first line, read as a C
      string, is not a request line of the grammar; whatever follows. */
  lemma BadRequestIff(t: string, rest: string)
    requires Avoids(t, LINE_BREAKS)
    ensures HttpParser.ProcessRead(Append(FRESH, t + "\r\n" + rest)).0 == BadRequest <==> !IsRequestLine(UpToNul(t))
  {
    hide ParseLine, ParseRequestLine, Text, ScanBody, UpToNul, WellFormed, Print;
    FirstLineOf(t, rest);
    var p := Append(FRESH, t + "\r\n" + rest);
    var l := ParseLine(p).1;
    var q := l.(startLine := l.checkedIdx);
    AcceptanceIff(q, 0);
    var (code, m) := Step(p);
    if code == NoRequest {
      HeadersNeverBad(m);
    }
  }

  /** Input without a complete first line is waited for. */
  lemma NoLineWaits(s: string)
    requires NoLine(s)
    ensures HttpParser.ProcessRead(Append(FRESH, s)).0 == NoRequest
  {
    assert Append(FRESH, s).data == s by { assert "" + s == s; }
    NoLineStalls(Append(FRESH, s));
    hide ParseLine, ScanBody;
  }

  lemma NoLineStalls(p: Parser)
    requires p.Indexed() && p.checkedIdx == 0 && NoLine(p.data)
    ensures ParseLine(p).0 != LineOk
  {
  }

  /** The first line of the input is complete and is not a request line. */
  ghost predicate BadInput(s: string) {
    !NoLine(s) && !IsRequestLine(UpToNul(s[..FirstIn(s, 0, LINE_BREAKS)]))
  }

  /** The verdict BAD_REQUEST of one call, on every input. */
  lemma BadInputIff(s: string)
    ensures HttpParser.ProcessRead(Append(FRESH, s)).0 == BadRequest <==> BadInput(s)
  {
    hide HttpParser.ProcessRead, UpToNul, IsRequestLine;
    if NoLine(s) {
      NoLineWaits(s);
    } else {
      var i := FirstIn(s, 0, LINE_BREAKS);
      assert s == s[..i] + "\r\n" + s[i + 2..];
      BadRequestIff(s[..i], s[i + 2..]);
    }
  }

  /** BAD_REQUEST leaves the parser at the request line. */
  lemma {:induction false} BadState(p: Parser)
    requires Valid(p) && p.state != Content
    ensures ScanHead(p).0 == BadRequest ==> ScanHead(p).1.state == RequestLine
    decreases |p.data| - p.checkedIdx
  {
    hide ParseLine, ScanBody, BodyStep;
    if ParseLine(p).0 == LineOk {
      StepKeeps(p);
      StepBadState(p);
      var (code, q) := Step(p);
      if code == NoRequest && q.state != Content {
        BadState(q);
      }
    }
  }

  lemma StepBadState(p: Parser)
    requires p.Indexed() && p.state != Content && ParseLine(p).0 == LineOk
    ensures Step(p).0 == BadRequest ==> Step(p).1.state == RequestLine
  {
  }

  /** A run of reads is refused as bad when its part up to the body is. */
  lemma {:induction false} FeedBad(p: Parser, chunks: seq<string>)
    requires Valid(p) && p.state != Content
    ensures Feed(p, chunks).0 == BadRequest <==> FeedHead(p, chunks).0 == BadRequest
    decreases |chunks|
  {
    assert p.Indexed();
    hide HttpParser.ProcessRead, Valid, InBody;
    if chunks != [] {
      var b := FeedFirst(p, chunks[0]);
      var (code, q) := HttpParser.ProcessRead(Append(p, chunks[0]));
      if code == NoRequest {
        if q.state == Content {
          BodyStable(q, b, chunks[1..]);
        } else {
          FeedBad(q, chunks[1..]);
        }
      }
    }
  }

  lemma {:induction false} FeedBadState(p: Parser, chunks: seq<string>)
    requires Valid(p) && p.state != Content
    ensures FeedHead(p, chunks).0 == BadRequest ==> FeedHead(p, chunks).1.state == RequestLine
    decreases |chunks|
  {
    assert p.Indexed();
    hide ScanHead, Valid, InBody, Finished;
    if chunks != [] {
      ValidAppend(p, chunks[0]);
      BadState(Append(p, chunks[0]));
      CallFreezes(Append(p, chunks[0]));
      var (code, q) := HttpParser.ProcessRead(Append(p, chunks[0]));
      if code == NoRequest && q.state != Content {
        FeedBadState(q, chunks[1..]);
      }
    }
  }

  /** The same over every split of the input into reads. */
  lemma SplitBadInputIff(chunks: seq<string>)
    ensures Feed(FRESH, chunks).0 == BadRequest <==> BadInput(Concat(chunks))
  {
    assert Valid(FRESH);
    hide HttpParser.ProcessRead, Feed, FeedHead, Concat, BadInput;
    var whole := Append(FRESH, Concat(chunks));
    ChunkingIndependence(chunks);
    FeedBad(FRESH, chunks);
    FeedBadState(FRESH, chunks);
    BadInputIff(Concat(chunks));
    WholeBadState(whole);
  }

  lemma WholeBadState(p: Parser)
    requires p.Indexed() && p.state == RequestLine && p.startLine == p.checkedIdx == 0
    requires p.verb == GET && p.host == None
    ensures HttpParser.ProcessRead(p).0 == BadRequest ==> HttpParser.ProcessRead(p).1.state == RequestLine
  {
    BadState(p);
  }

  // ---------------------------------------------------------------- what the client gets

  /** The last read of a run. */
  lemma {:induction false} FeedLast(p: Parser, chunks: seq<string>, last: string)
    requires p.Indexed() && Feed(p, chunks).0 == NoRequest
    ensures Feed(p, chunks + [last]) == HttpParser.ProcessRead(Append(Feed(p, chunks).1, last))
    decreases |chunks|
  {
    hide HttpParser.ProcessRead;
    if chunks == [] {
      assert [last][1..] == [];
    } else {
      assert (chunks + [last])[0] == chunks[0] && (chunks + [last])[1..] == chunks[1..] + [last];
      FeedLast(HttpParser.ProcessRead(Append(p, chunks[0])).1, chunks[1..], last);
    }
  }

  /** A bad request, however it arrives, is answered by the 400 page as soon as its first line is
      complete. */
  lemma BadInputAnswered(chunks: seq<string>, last: string, files: string -> FileStatus)
    requires Feed(FRESH, chunks).0 == NoRequest && BadInput(Concat(chunks + [last]))
    ensures var h := Handle(Append(Feed(FRESH, chunks).1, last), files);
            && h.interest == EpollOut && h.reply.sent
            && ReplyReads(h.reply.out, 400, "Bad Request", h.parser.linger,
                          "Your request has bad syntax or is inherently impossible to satisfy.\n")
  {
    hide HttpParser.ProcessRead, HttpResponse.ProcessWrite, ReplyReads, Feed, Concat, BadInput, RealFile, UrlText;
    FeedLast(FRESH, chunks, last);
    SplitBadInputIff(chunks + [last]);
    ErrorReads(BadRequest, Feed(FRESH, chunks + [last]).1.linger, 0);
  }

  /** The path looked up for the resource `url`: the document root and the resource, of which a long
      one is cut off so that the path and its NUL fit 200 bytes. */
  function Looked(url: string): string {
    "./var/www/html" + if |url| <= 185 then url else url[..185]
  }

  /** The reply to a request for a file of status `status`. */
  ghost predicate Answers(h: Handled, status: FileStatus, linger: bool) {
    && h.interest == EpollOut
    && match status
       case Missing =>
         h.reply.sent && ReplyReads(h.reply.out, 404, "Not Found", linger,
                                    "The requested file was not found on this server.\n")
       case Found(readable, directory, size) =>
         if !readable then
           h.reply.sent && ReplyReads(h.reply.out, 403, "Forbidden", linger,
                                      "You do not have permission to get file from this server.\n")
         else if directory then
           h.reply.sent && ReplyReads(h.reply.out, 400, "Bad Request", linger,
                                      "Your request has bad syntax or is inherently impossible to satisfy.\n")
         else if size == 0 then !h.reply.sent
         else
           && h.reply.sent && h.reply.file == Some(size)
           && (forall file: string :: |file| == size <= INT_MAX ==>
                 ReplyReads(h.reply.out + file, 200, "OK", linger, file))
  }

  /** Any handled call that ends in do_request with the resource `url`. */
  lemma ResourceAnswered(p: Parser, url: string, files: string -> FileStatus)
    requires p.Indexed() && HttpParser.ProcessRead(p).0 == GetRequest
    requires Captured(HttpParser.ProcessRead(p).1).0 == Some(url)
    ensures Answers(Handle(p, files), files(Looked(url)), HttpParser.ProcessRead(p).1.linger)
  {
    hide HttpParser.ProcessRead, HttpResponse.ProcessWrite, ReplyReads;
    var q := HttpParser.ProcessRead(p).1;
    assert UrlText(q.data, q.url) == url;
    assert RealFile(url) == Looked(url);
    var status := files(Looked(url));
    RepliesIff(DoRequest(status), q.linger, SizeOf(status));
    if DoRequest(status) == FileRequest {
      if SizeOf(status) != 0 {
        FileReply(q.linger, SizeOf(status));
        forall file: string | |file| == SizeOf(status) <= INT_MAX
          ensures ReplyReads(Handle(p, files).reply.out + file, 200, "OK", q.linger, file)
        {
          FileReads(q.linger, file);
        }
      }
    } else {
      ErrorReads(DoRequest(status), q.linger, SizeOf(status));
    }
  }

  /** From the request to the reply, over every split into reads: a printed request without a body is
      answered, once its blank line is there, by what the file system says of the document root
      followed by its resource; with the linger flag its lines ask for. */
  lemma RequestAnswered(l: Line, lines: seq<string>, more: string, chunks: seq<string>, last: string,
                        files: string -> FileStatus)
    requires WellFormed(l) && Avoids(Print(l), {NUL, CR, LF}) && Clean(lines)
    requires Fold(Summary(false, 0, None), lines).length == 0
    requires Feed(FRESH, chunks).0 == NoRequest
    requires Concat(chunks + [last]) == Print(l) + "\r\n" + PrintHeaders(lines) + more
    ensures Target(l.target).Some?
    ensures Answers(Handle(Append(Feed(FRESH, chunks).1, last), files), files(Looked(Target(l.target).value)),
                    Fold(Summary(false, 0, None), lines).linger)
  {
    assert Target(l.target).Some?;
    hide HttpParser.ProcessRead, Handle, Answers, Feed, Concat, WellFormed, Print, Target, Fold, PrintHeaders, Captured;
    FeedLast(FRESH, chunks, last);
    SplitRequestMeansItsLines(l, lines, more, chunks + [last]);
    ResourceAnswered(Append(Feed(FRESH, chunks).1, last), Target(l.target).value, files);
  }

  /** The same for a request with a body that is there. */
  lemma BodyRequestAnswered(l: Line, lines: seq<string>, body: string, files: string -> FileStatus)
    requires WellFormed(l) && Avoids(Print(l), {NUL, CR, LF}) && Clean(lines)
    requires 0 < Fold(Summary(false, 0, None), lines).length <= |body|
    ensures Target(l.target).Some?
    ensures Answers(Handle(Append(FRESH, Print(l) + "\r\n" + PrintHeaders(lines) + body), files),
                    files(Looked(Target(l.target).value)), Fold(Summary(false, 0, None), lines).linger)
  {
    assert Target(l.target).Some?;
    hide HttpParser.ProcessRead, Handle, Answers, WellFormed, Print, Target, Fold, PrintHeaders, Captured, Reached;
    RequestMeansItsLines(l, lines, body);
    var p := Append(FRESH, Print(l) + "\r\n" + PrintHeaders(lines) + body);
    ResourceAnswered(p, Target(l.target).value, files);
  }

  // ---------------------------------------------------------------- in any case

  /** Which methods and versions are taken, letter by letter. */
  lemma MethodCases(v: string)
    ensures EqNoCase(v, "GET") <==> |v| == 3 && v[0] in {'G', 'g'} && v[1] in {'E', 'e'} && v[2] in {'T', 't'}
  {
  }

  lemma VersionCases(v: string)
    ensures EqNoCase(v, "HTTP/1.1")
            <==> && |v| == 8 && v[0] in {'H', 'h'} && v[1] in {'T', 't'} && v[2] in {'T', 't'} && v[3] in {'P', 'p'}
                 && v[4] == '/' && v[5] == '1' && v[6] == '.' && v[7] == '1'
  {
  }

  /** "get / http/1.1" is a request line ... */
  lemma AnyCaseLine()
    ensures IsRequestLine("get" + " " + "/" + " " + "http/1.1")
  {
    var l := Line("get", " ", "/", " ", "http/1.1");
    MethodCases("get");
    VersionCases("http/1.1");
    assert Target("/") == Some("/");
    assert WellFormed(l) && Print(l) == "get" + " " + "/" + " " + "http/1.1";
  }

  /** ... and "connection: KEEP-ALIVE" keeps the connection. */
  lemma AnyCaseHeader()
    ensures ReadHeader("connection:" + " " + "KEEP-ALIVE") == Connection(true)
  {
    hide Atol, ToInt;
    var t := "connection:" + " " + "KEEP-ALIVE";
    assert t[..11] == "connection:" && t[11] == ' ' && t[12] == 'K';
    FirstNotInUnique(t, 11, BLANKS, 12);
    assert t[12..] == "KEEP-ALIVE";
    AnyCaseWords();
  }

  lemma AnyCaseWords()
    ensures EqNoCase("connection:", "Connection:") && EqNoCase("KEEP-ALIVE", "keep-alive")
  {
  }
}
