/** The http_conn object: its two buffers and the indices and pointers into them, updated in place.
    Every method is proved equal to the function of HttpParser or HttpResponse of the same name. */
module HttpConn {
  import opened Options
  import opened CStrings
  import opened Numbers
  import opened HttpParser
  import opened HttpChunking
  import opened HttpRuns
  import opened HttpResponse

  const READ_BUFFER_SIZE := 2048
  const FILENAME_LEN := 200
  const DOC_ROOT := "./var/www/html"

  /** What one recv() reports. */
  datatype RecvResult = Received(bytes: string) | WouldBlock | Closed | Failed

  /** Results the kernel can give to successive recv calls with `room` bytes left: each delivers at
      least one byte and no more than asked for, and the first that delivers none ends the loop. */
  ghost predicate RecvSequence(recvs: seq<RecvResult>, room: nat)
    decreases |recvs|
  {
    && recvs != []
    && if recvs[0].Received? then
         0 < |recvs[0].bytes| <= room && RecvSequence(recvs[1..], room - |recvs[0].bytes|)
       else
         |recvs| == 1
  }

  function Delivered(recvs: seq<RecvResult>): string {
    if recvs == [] || !recvs[0].Received? then "" else recvs[0].bytes + Delivered(recvs[1..])
  }

  /** What stat() says of a path. */
  datatype FileStatus = Missing | Found(readable: bool, directory: bool, size: nat)

  /** m_real_file: the document root and as much of the URL as its buffer takes. */
  function RealFile(url: string): string {
    var room := FILENAME_LEN - |DOC_ROOT| - 1;
    DOC_ROOT + if |url| <= room then url else url[..room]
  }

  function DoRequest(status: FileStatus): HttpCode {
    if status.Missing? then NoResource
    else if !status.readable then ForbiddenRequest
    else if status.directory then BadRequest
    else FileRequest
  }

  datatype Interest = EpollIn | EpollOut

  lemma ConcatHead(chunks: seq<string>)
    requires chunks != []
    ensures |Concat(chunks)| == |chunks[0]| + |Concat(chunks[1..])|
  {
  }

  /** A complete line is NUL-terminated where get_line points. */
  lemma LineTerminated(p: Parser)
    requires p.Indexed() && HttpParser.ParseLine(p).0 == LineOk
    ensures var l := HttpParser.ParseLine(p).1; Terminated(l.data, l.startLine)
  {
  }

  class Conn {
    const readBuf: array<char>
    const writeBuf: array<char>
    var readIdx: nat
    var checkedIdx: nat
    var startLine: nat
    var checkState: CheckState
    var verb: Verb
    var url: Option<nat>
    var version: Option<nat>
    var host: Option<nat>
    var contentLength: int
    var linger: bool
    var writeIdx: nat
    var fileSize: nat
    var replyFile: Option<nat>
    var open: bool

    ghost predicate Valid()
      reads this
    {
      && readBuf.Length == READ_BUFFER_SIZE && writeBuf.Length == WRITE_BUFFER_SIZE && readBuf != writeBuf
      && startLine <= checkedIdx <= readIdx <= READ_BUFFER_SIZE
      && writeIdx <= WRITE_BUFFER_SIZE
    }

    /** The received bytes. */
    function Data(): string
      requires readIdx <= readBuf.Length
      reads this, readBuf
    {
      readBuf[..readIdx]
    }

    ghost function View(): Parser
      requires Valid()
      reads this, readBuf
      ensures View().Indexed()
    {
      Parser(Data(), checkedIdx, startLine, checkState, verb, url, version, host, contentLength, linger)
    }

    ghost function Out(): string
      requires Valid()
      reads this, writeBuf
    {
      writeBuf[..writeIdx]
    }

    constructor ()
      ensures Valid() && View() == FRESH && Out() == "" && open
      ensures fresh(readBuf) && fresh(writeBuf)
    {
      readBuf := new char[READ_BUFFER_SIZE](_ => NUL);
      writeBuf := new char[WRITE_BUFFER_SIZE](_ => NUL);
      readIdx, checkedIdx, startLine, writeIdx := 0, 0, 0, 0;
      checkState, verb := RequestLine, GET;
      url, version, host := None, None, None;
      contentLength, linger := 0, false;
      fileSize, replyFile, open := 0, None, true;
    }

    /** init(): ready for the next request on the same connection. */
    method Init()
      requires Valid()
      modifies this, readBuf, writeBuf
      ensures Valid() && View() == FRESH && Out() == ""
      ensures open == old(open)
    {
      assert readBuf.Length == READ_BUFFER_SIZE && writeBuf.Length == WRITE_BUFFER_SIZE && readBuf != writeBuf;
      hide Valid, View, Out;
      checkState, linger := RequestLine, false;
      verb, url, version, contentLength, host := GET, None, None, 0, None;
      startLine, checkedIdx, readIdx, writeIdx := 0, 0, 0, 0;
      ClearBuffers();
      FreshView();
    }

    /** The fields init() sets are all that the parser's view and the reply so far depend on. */
    lemma FreshView()
      requires readBuf.Length == READ_BUFFER_SIZE && writeBuf.Length == WRITE_BUFFER_SIZE && readBuf != writeBuf
      requires startLine == checkedIdx == readIdx == writeIdx == 0 && checkState == RequestLine && !linger
      requires verb == GET && url == version == host == None && contentLength == 0
      ensures Valid() && View() == FRESH && Out() == ""
    {
    }

    /** The memsets of init(). */
    method ClearBuffers()
      modifies readBuf, writeBuf
      ensures forall i | 0 <= i < readBuf.Length :: readBuf[i] == NUL
      ensures forall i | 0 <= i < writeBuf.Length :: writeBuf[i] == NUL
    {
      Clear(readBuf);
      Clear(writeBuf);
    }

    /** memset(buf, '\0', sizeof(buf)) */
    static method Clear(buf: array<char>)
      modifies buf
      ensures forall i | 0 <= i < buf.Length :: buf[i] == NUL
    {
      forall i | 0 <= i < buf.Length { buf[i] := NUL; }
    }

    /** recv() into the free part of m_read_buf. */
    method Store(bytes: string)
      requires Valid() && |bytes| <= READ_BUFFER_SIZE - readIdx
      modifies `readIdx, readBuf
      ensures Valid() && readIdx == old(readIdx) + |bytes| && Data() == old(Data()) + bytes
    {
      forall k | 0 <= k < |bytes| { readBuf[readIdx + k] := bytes[k]; }
      readIdx := readIdx + |bytes|;
    }

    /** read(): everything the socket has, until it would block. */
    method Read(recvs: seq<RecvResult>) returns (ok: bool)
      requires Valid() && RecvSequence(recvs, READ_BUFFER_SIZE - readIdx)
      modifies `readIdx, readBuf
      ensures Valid()
      ensures old(readIdx) == READ_BUFFER_SIZE ==> !ok && View() == old(View())
      ensures old(readIdx) < READ_BUFFER_SIZE ==> View() == Append(old(View()), Delivered(recvs))
      ensures ok <==> old(readIdx) < READ_BUFFER_SIZE && recvs[|recvs| - 1] == WouldBlock
    {
      if readIdx >= READ_BUFFER_SIZE {
        return false;
      }
      ghost var all := Data() + Delivered(recvs);
      var rest := recvs;
      while rest[0].Received?
        invariant Valid() && RecvSequence(rest, READ_BUFFER_SIZE - readIdx)
        invariant Data() + Delivered(rest) == all
        invariant rest[|rest| - 1] == recvs[|recvs| - 1]
        decreases |rest|
      {
        ghost var data := Data();
        Store(rest[0].bytes);
        assert Data() + Delivered(rest[1..]) == data + (rest[0].bytes + Delivered(rest[1..]));
        rest := rest[1..];
      }
      assert Data() + "" == Data();
      return rest[0].WouldBlock?;
    }

    /** The success branches of parse_line(): the CRLF at `i` becomes two NULs. */
    method EndLine(i: nat)
      requires Valid() && startLine <= i + 2 <= readIdx
      modifies `checkedIdx, readBuf
      ensures Valid()
      ensures var p := old(View()); View() == p.(data := p.data[i := NUL][i + 1 := NUL], checkedIdx := i + 2)
    {
      readBuf[i] := NUL;
      readBuf[i + 1] := NUL;
      checkedIdx := i + 2;
      assert Data() == old(Data())[i := NUL][i + 1 := NUL];
    }

    /** parse_line(): finds the end of a line and overwrites its CRLF by NULs. */
    method ParseLine() returns (status: LineStatus)
      requires Valid()
      modifies `checkedIdx, readBuf
      ensures Valid() && (status, View()) == HttpParser.ParseLine(old(View()))
    {
      ghost var p := View();
      ghost var c := checkedIdx;
      while checkedIdx < readIdx
        invariant c <= checkedIdx <= readIdx && Valid()
        invariant View() == p.(checkedIdx := checkedIdx)
        invariant forall j | c <= j < checkedIdx :: p.data[j] !in LINE_BREAKS
      {
        var temp := readBuf[checkedIdx];
        assert temp == p.data[checkedIdx];
        if temp == CR {
          FirstInUnique(p.data, c, LINE_BREAKS, checkedIdx);
          if checkedIdx + 1 == readIdx {
            return LineOpen;
          } else if readBuf[checkedIdx + 1] == LF {
            EndLine(checkedIdx);
            return LineOk;
          }
          return LineBad;
        } else if temp == LF {
          FirstInUnique(p.data, c, LINE_BREAKS, checkedIdx);
          if checkedIdx > 1 && readBuf[checkedIdx - 1] == CR {
            EndLine(checkedIdx - 1);
            return LineOk;
          }
          return LineBad;
        }
        checkedIdx := checkedIdx + 1;
      }
      return LineOpen;
    }

    /** *p++ = '\0'; p += strspn(p, " \t"), at the first blank of the C string at `a`, if any. */
    method CutToken(a: nat) returns (next: Option<nat>)
      requires Valid() && Terminated(Data(), a)
      modifies readBuf
      ensures var r := HttpParser.CutToken(old(Data()), a);
              if r.None? then next == None && Data() == old(Data())
              else next == Some(r.value.1) && Data() == r.value.0
    {
      var o := FirstIn(Data(), a, BLANK_OR_END);
      assert Data()[TextEnd(Data(), a)] == NUL;
      if readBuf[o] == NUL {
        return None;
      }
      ghost var d := Data();
      readBuf[o] := NUL;
      assert Data() == d[o := NUL];
      next := Some(SkipBlanks(Data(), o + 1));
    }

    /** parse_request_line() on the C string at `text`: the method ... */
    method ParseRequestLine(text: nat) returns (code: HttpCode)
      requires Valid() && Terminated(Data(), text)
      modifies `url, `version, `verb, `checkState, readBuf
      ensures Valid() && (code, View()) == HttpParser.ParseRequestLine(old(View()), text)
    {
      hide HttpParser.CutToken, EqNoCase, HttpParser.ParseTarget;
      url := CutToken(text);
      if url.None? {
        return BadRequest;
      }
      if !EqNoCase(Text(Data(), text), "GET") {
        return BadRequest;
      }
      verb := GET;
      code := ParseTarget(url.value);
    }

    /** ... the version ... */
    method ParseTarget(u: nat) returns (code: HttpCode)
      requires Valid() && Terminated(Data(), u)
      modifies `url, `version, `checkState, readBuf
      ensures Valid() && (code, View()) == HttpParser.ParseTarget(old(View()), u)
    {
      hide HttpParser.CutToken, EqNoCase, HttpParser.CheckTarget;
      version := CutToken(u);
      if version.None? {
        return BadRequest;
      }
      if !EqNoCase(Text(Data(), version.value), "HTTP/1.1") {
        return BadRequest;
      }
      code := CheckTarget(u);
    }

    /** ... and the URL, which m_url already points to unless it is absolute. */
    method CheckTarget(u: nat) returns (code: HttpCode)
      requires Valid() && Terminated(Data(), u)
      modifies `url, `checkState
      ensures Valid() && (code, View()) == HttpParser.CheckTarget(old(View()), u)
    {
      var data := Data();
      assert data[TextEnd(data, u)] == NUL;
      url := Some(u);
      if PrefixNoCase(Text(data, u), "http://") {
        var k := FirstIn(data, u + 7, {'/', NUL});
        url := if data[k] == '/' then Some(k) else None;
      }
      assert url == LocateTarget(data, u);
      if url.None? || data[url.value] != '/' {
        return BadRequest;
      }
      checkState := Header;
      return NoRequest;
    }

    /** parse_headers() on the C string at `text`. */
    method ParseHeaders(text: nat) returns (code: HttpCode)
      requires Valid() && Terminated(Data(), text)
      modifies `checkState, `linger, `contentLength, `host
      ensures Valid() && (code, View()) == HttpParser.ParseHeaders(old(View()), text)
    {
      hide Atol, ToInt, EqNoCase;
      var t := Text(Data(), text);
      if readBuf[text] == NUL {
        assert t == "";
        if contentLength != 0 {
          checkState := Content;
          return NoRequest;
        }
        return GetRequest;
      }
      assert t != "" && t[0] != NUL;
      if PrefixNoCase(t, "Connection:") {
        if EqNoCase(t[SkipBlanks(t, 11)..], "keep-alive") {
          linger := true;
        }
      } else if PrefixNoCase(t, "Content-Length:") {
        contentLength := ToInt(Atol(t[SkipBlanks(t, 15)..]));
      } else if PrefixNoCase(t, "Host:") {
        host := Some(text + SkipBlanks(t, 5));
      }
      return NoRequest;
    }

    /** parse_content() on the text at `text`.  A terminator that falls outside the buffer is not
        written; TerminatorInBuffer says when that is. */
    method ParseContent(text: nat) returns (code: HttpCode)
      requires Valid()
      modifies readBuf
      ensures Valid() && (code, View()) == HttpParser.ParseContent(old(View()), text)
      ensures forall i | 0 <= i < readBuf.Length ::
                readBuf[i] == if code == GetRequest && i == text + contentLength then NUL else old(readBuf[i])
    {
      if readIdx >= contentLength + checkedIdx {
        var at := text + contentLength;
        if 0 <= at < readBuf.Length {
          ghost var d := Data();
          readBuf[at] := NUL;
          assert Data() == Terminate(d, at);
        }
        return GetRequest;
      }
      return NoRequest;
    }

    /** The request line and header cases of the switch in process_read(). */
    method HandleLine() returns (code: HttpCode)
      requires Valid() && checkState != Content && Terminated(Data(), startLine)
      modifies `startLine, `checkState, `verb, `url, `version, `host, `contentLength, `linger, readBuf
      ensures Valid() && (code, View()) == HttpParser.HandleLine(old(View()))
    {
      hide HttpParser.ParseRequestLine, HttpParser.ParseHeaders;
      var text := startLine;
      startLine := checkedIdx;
      if checkState == RequestLine {
        code := ParseRequestLine(text);
      } else {
        code := ParseHeaders(text);
      }
    }

    /** The content case of the switch. */
    method HandleBody() returns (code: HttpCode)
      requires Valid()
      modifies `startLine, readBuf
      ensures Valid() && (code, View()) == BodyStep(old(View()))
    {
      var text := startLine;
      startLine := checkedIdx;
      code := ParseContent(text);
    }

    /** process_read(): lines out of the buffer until it runs out or a verdict is reached.  GetRequest
        is the point where do_request is called. */
    method ProcessRead() returns (code: HttpCode)
      requires Valid()
      modifies `checkedIdx, `startLine, `checkState, `verb, `url, `version, `host, `contentLength, `linger, readBuf
      ensures Valid() && (code, View()) == HttpParser.ProcessRead(old(View()))
    {
      var lineStatus := LineOk;
      ghost var result := HttpParser.ProcessRead(View());
      while true
        invariant Valid() && Scan(View(), lineStatus == LineOk) == result
        decreases readIdx - checkedIdx, checkState == Content && lineStatus == LineOk
      {
        hide HttpParser.ParseLine, HttpParser.HandleLine, BodyStep, Terminated;
        ghost var p := View();
        if !(checkState == Content && lineStatus == LineOk) {
          lineStatus := ParseLine();
          if lineStatus != LineOk {
            return NoRequest;
          }
          LineTerminated(p);
        }
        if checkState == Content {
          code := HandleBody();
          if code == GetRequest {
            return GetRequest;
          }
          lineStatus := LineOpen;
        } else {
          code := HandleLine();
          assert Step(p) == (code, View());
          if code != NoRequest {
            return code;
          }
        }
      }
    }

    /** A request that arrives in several reads, each followed by process_read, until the parser
        reports something: unless the reads end inside a body, the same as one read of all the bytes
        up to there. */
    method Receive(chunks: seq<string>) returns (code: HttpCode)
      requires Valid() && View() == FRESH && |Concat(chunks)| <= READ_BUFFER_SIZE
      modifies this, readBuf
      ensures Valid() && (code, View()) == Feed(FRESH, chunks)
      ensures var (v, q) := FeedHead(FRESH, chunks);
              var (w, r) := HttpParser.ProcessRead(Append(FRESH, Concat(chunks)));
              Agree(v, q, w, r) && (v != NoRequest || q.state != Content ==> (code, View()) == (v, q))
    {
      hide HttpParser.ProcessRead, Agree, Concat, FeedHead;
      ChunkingIndependence(chunks);
      var (v, q) := FeedHead(FRESH, chunks);
      if v != NoRequest || q.state != Content {
        FeedHeadIsFeed(FRESH, chunks);
      }
      var i := 0;
      assert chunks[0..] == chunks;
      assert |View().data| == readIdx;
      while i < |chunks|
        invariant 0 <= i <= |chunks| && Valid()
        invariant Feed(View(), chunks[i..]) == Feed(FRESH, chunks)
        invariant readIdx + |Concat(chunks[i..])| <= READ_BUFFER_SIZE
      {
        ghost var rest := chunks[i..];
        assert rest[0] == chunks[i] && rest[1..] == chunks[i + 1..];
        ConcatHead(rest);
        code := TakeChunk(chunks[i]);
        if code != NoRequest {
          return code;
        }
        i := i + 1;
      }
      return NoRequest;
    }

    /** One read of `chunk` and the call of process_read after it. */
    method TakeChunk(chunk: string) returns (code: HttpCode)
      requires Valid() && |chunk| <= READ_BUFFER_SIZE - readIdx
      modifies this, readBuf
      ensures Valid() && readIdx == old(readIdx) + |chunk|
      ensures (code, View()) == HttpParser.ProcessRead(Append(old(View()), chunk))
    {
      Store(chunk);
      code := ProcessRead();
    }

    /** add_response() of an already formatted string: vsnprintf truncates what does not fit, and the
        index does not move then. */
    method AddResponse(s: string) returns (ok: bool)
      requires Valid()
      modifies `writeIdx, writeBuf
      ensures Valid() && ok == Fits(old(Out()), s) && Out() == Add(old(Out()), s)
    {
      if writeIdx >= WRITE_BUFFER_SIZE {
        return false;
      }
      var room := WRITE_BUFFER_SIZE - 1 - writeIdx;
      ghost var out := Out();
      if room > 0 {
        var n := if |s| < room then |s| else room - 1;
        forall k | 0 <= k < n { writeBuf[writeIdx + k] := s[k]; }
        writeBuf[writeIdx + n] := NUL;
      }
      assert writeBuf[..writeIdx] == out;
      if |s| >= room {
        return false;
      }
      writeIdx := writeIdx + |s|;
      assert Out() == out + s;
      return true;
    }

    method AddHeaders(n: int)
      requires Valid()
      modifies `writeIdx, writeBuf
      ensures Valid() && Out() == HttpResponse.AddHeaders(old(Out()), n, linger)
    {
      var _ := AddResponse(LengthLine(n));
      var _ := AddResponse(LingerLine(linger));
      var _ := AddResponse("\r\n");
    }

    /** process_write() */
    method ProcessWrite(code: HttpCode) returns (ok: bool)
      requires Valid()
      modifies `writeIdx, `replyFile, writeBuf
      ensures Valid()
      ensures var reply := HttpResponse.ProcessWrite(old(Out()), code, linger, fileSize);
              ok == reply.sent && Out() == reply.out && (ok ==> replyFile == reply.file)
    {
      hide StatusLine, HttpResponse.AddHeaders, Add, Fits;
      var page := ErrorPage(code);
      if page.Some? {
        var _ := AddResponse(StatusLine(page.value.status, page.value.title));
        AddHeaders(|page.value.form|);
        ok := AddResponse(page.value.form);
        replyFile := None;
      } else if code == FileRequest {
        var _ := AddResponse(StatusLine(200, "OK"));
        if fileSize != 0 {
          AddHeaders(ToInt(fileSize));
          replyFile := Some(fileSize);
          return true;
        }
        AddHeaders(|EMPTY_PAGE|);
        var _ := AddResponse(EMPTY_PAGE);
        return false;
      } else {
        return false;
      }
    }

    /** process(): what a worker does with a connection that main has just read.  `files` answers
        stat().  The connection is re-armed for `interest` at the end. */
    method Process(files: string -> FileStatus) returns (interest: Interest)
      requires Valid() && Out() == ""
      modifies this, readBuf, writeBuf
      ensures Valid()
      ensures var h := Handle(old(View()), files);
              && interest == h.interest && View() == h.parser
              && (interest == EpollIn ==> Out() == "" && open == old(open))
              && (interest == EpollOut ==> Out() == h.reply.out && open == (old(open) && h.reply.sent)
                                           && (h.reply.sent ==> replyFile == h.reply.file))
    {
      hide HttpParser.ProcessRead, HttpResponse.ProcessWrite, DoRequest, RealFile;
      var code := ProcessRead();
      if code == NoRequest {
        return EpollIn;
      }
      fileSize := 0;
      if code == GetRequest {
        var status := files(RealFile(UrlText(Data(), url)));
        code := DoRequest(status);
        fileSize := SizeOf(status);
      }
      var ok := ProcessWrite(code);
      if !ok {
        open := false;
      }
      return EpollOut;
    }
  }

  function SizeOf(status: FileStatus): nat {
    if status.Found? then status.size else 0
  }

  function UrlText(d: string, url: Option<nat>): string {
    if url.Some? && url.value <= |d| then Text(d, url.value) else ""
  }

  /** The outcome of process(). */
  datatype Handled = Handled(interest: Interest, parser: Parser, reply: Reply)

  function Handle(p: Parser, files: string -> FileStatus): Handled
    requires p.Indexed()
  {
    var (code, q) := HttpParser.ProcessRead(p);
    if code == NoRequest then Handled(EpollIn, q, Reply(false, "", None))
    else if code == GetRequest then
      var status := files(RealFile(UrlText(q.data, q.url)));
      Handled(EpollOut, q, HttpResponse.ProcessWrite("", DoRequest(status), q.linger, SizeOf(status)))
    else
      Handled(EpollOut, q, HttpResponse.ProcessWrite("", code, q.linger, 0))
  }

  /** Where parse_content writes its terminator, in the state before it.  The source does not look:
      the write is in m_read_buf unless a negative content length takes it before the first byte, or
      the body ends exactly at the end of a full buffer, which takes it to the byte after the last. */
  lemma TerminatorInBuffer(p: Parser)
    requires p.Indexed() && |p.data| <= READ_BUFFER_SIZE && BodyStep(p).0 == GetRequest
    ensures var at := p.startLine + p.contentLength;
            && BodyStep(p).1.data == Terminate(p.data, at) && at <= READ_BUFFER_SIZE
            && (0 <= at < READ_BUFFER_SIZE
                <==> p.contentLength >= 0 - p.startLine && p.contentLength != READ_BUFFER_SIZE - p.startLine)
            && (at == READ_BUFFER_SIZE ==> |p.data| == READ_BUFFER_SIZE && p.startLine == p.checkedIdx)
  {
  }

  /** The reply to a connection that process() turns to writing: either an empty file was requested
      (no reply, the connection is closed), or the reply is whole: the error page of the verdict with
      its own length, or the header block of a file whose printed length is the file's when it fits an
      int. */
  ghost predicate Framed(code: HttpCode, h: Handled, files: string -> FileStatus) {
    var path := RealFile(UrlText(h.parser.data, h.parser.url));
    var status := if code == GetRequest then files(path) else Missing;
    var verdict := if code == GetRequest then DoRequest(status) else code;
    var serves := verdict == FileRequest;
    && (h.reply.sent <==> !(serves && SizeOf(status) == 0))
    && (!serves ==>
          && ErrorPage(verdict).Some?
          && var page := ErrorPage(verdict).value;
             h.reply.out == StatusLine(page.status, page.title)
                            + HeaderBlock(|page.form|, h.parser.linger) + page.form)
    && (serves && h.reply.sent ==>
          && h.reply.file == Some(SizeOf(status))
          && h.reply.out == StatusLine(200, "OK") + HeaderBlock(ToInt(SizeOf(status)), h.parser.linger))
  }

  /** From any state whatever, a connection that turns to writing has a framed reply.  From any state
      between two calls a file is looked up for an accepted request, unless the terminator of a body of
      negative length has reached its request line. */
  lemma EveryReplyFramed(p: Parser, files: string -> FileStatus)
    requires p.Indexed()
    ensures var h := Handle(p, files);
            var code := HttpParser.ProcessRead(p).0;
            && (h.interest == EpollOut <==> code != NoRequest)
            && (h.interest == EpollOut ==> Framed(code, h, files))
            && (Between(p) && code == GetRequest ==>
                  && (Accepted(h.parser) <==> Spared(h.parser))
                  && (BodyLengthSane(h.parser) ==> Accepted(h.parser)))
  {
    hide HttpResponse.ProcessWrite, HeaderBlock, StatusLine, HttpParser.ProcessRead, RealFile, ToInt, Between;
    var h := Handle(p, files);
    var code := HttpParser.ProcessRead(p).0;
    if Between(p) {
      CallKeepsBetween(p);
    }
    if code == GetRequest {
      var status := files(RealFile(UrlText(h.parser.data, h.parser.url)));
      var c := DoRequest(status);
      RepliesIff(c, h.parser.linger, SizeOf(status));
      if c != FileRequest {
        ErrorReply(c, h.parser.linger, SizeOf(status));
      } else if SizeOf(status) != 0 {
        FileReply(h.parser.linger, SizeOf(status));
      }
    } else if code == BadRequest {
      RepliesIff(code, h.parser.linger, 0);
      ErrorReply(code, h.parser.linger, 0);
    }
  }

  /** Whatever bytes arrive on a fresh connection, however they are split between reads and wherever
      the headers and the body end: the call that turns the connection to writing leaves a framed
      reply, and looks a file up for an accepted request unless the terminator of a body of negative
      length has reached its request line. */
  lemma EveryRunFramed(chunks: seq<string>, last: string, files: string -> FileStatus)
    requires Feed(FRESH, chunks).0 == NoRequest
    ensures var p := Append(Feed(FRESH, chunks).1, last);
            var h := Handle(p, files);
            var code := HttpParser.ProcessRead(p).0;
            h.interest == EpollOut ==>
              && Framed(code, h, files)
              && (code == GetRequest ==>
                    && (Accepted(h.parser) <==> Spared(h.parser))
                    && (BodyLengthSane(h.parser) ==> Accepted(h.parser)))
  {
    hide Feed, Handle, Framed, HttpParser.ProcessRead, Between;
    assert Between(FRESH) by { FreshBetween(); }
    FeedKeeps(FRESH, chunks);
    BetweenAppend(Feed(FRESH, chunks).1, last);
    EveryReplyFramed(Append(Feed(FRESH, chunks).1, last), files);
  }

  lemma FreshBetween()
    ensures Between(FRESH)
  {
  }
}
