/** The response side of http_conn: a formatter into a bounded buffer, and what it frames. */
module HttpResponse {
  import opened Options
  import opened CStrings
  import opened Numbers
  import opened HttpParser
  import opened HttpChunking
  import opened HttpRequest
  import opened HttpRequestLine

  const WRITE_BUFFER_SIZE := 1024

  /** add_response takes `s` only when it fits before the last byte kept for the terminator. */
  predicate Fits(out: string, s: string) {
    |out| < WRITE_BUFFER_SIZE && |s| < WRITE_BUFFER_SIZE - 1 - |out|
  }

  /** m_write_buf up to m_write_idx after add_response. */
  function Add(out: string, s: string): string {
    if Fits(out, s) then out + s else out
  }

  function StatusLine(status: nat, title: string): string {
    "HTTP/1.1 " + Decimal(status) + " " + title + "\r\n"
  }

  function LengthLine(n: int): string {
    "Content-Length: " + Decimal(n) + "\r\n"
  }

  function LingerLine(linger: bool): string {
    "Connection: " + (if linger then "keep-alive" else "close") + "\r\n"
  }

  function AddHeaders(out: string, n: int, linger: bool): string {
    Add(Add(Add(out, LengthLine(n)), LingerLine(linger)), "\r\n")
  }

  datatype Page = Page(status: nat, title: string, form: string)

  const FORM_400 := "Your request has bad syntax or is inherently impossible to satisfy.\n"
  const FORM_403 := "You do not have permission to get file from this server.\n"
  const FORM_404 := "The requested file was not found on this server.\n"
  const FORM_500 := "There was an unusual problem serving the requested file.\n"

  function ErrorPage(code: HttpCode): Option<Page> {
    match code
    case InternalError => Some(Page(500, "Internal Error", FORM_500))
    case BadRequest => Some(Page(400, "Bad Request", FORM_400))
    case NoResource => Some(Page(404, "Not Found", FORM_404))
    case ForbiddenRequest => Some(Page(403, "Forbidden", FORM_403))
    case _ => None
  }

  lemma PageSizes(code: HttpCode)
    requires ErrorPage(code).Some?
    ensures var page := ErrorPage(code).value; 0 < |page.form| <= 80 && |page.title| <= 14 && 0 < page.status < 1000
  {
  }

  const EMPTY_PAGE := "<html><body></body></html>"

  /** The outcome of process_write: whether a reply is to be sent, what m_write_buf then holds, and
      the size of the mapped file sent after it. */
  datatype Reply = Reply(sent: bool, out: string, file: Option<nat>)

  /** process_write.  The results of add_status_line and add_headers are not looked at; an empty
      file falls through to the failing default. */
  function ProcessWrite(out: string, code: HttpCode, linger: bool, fileSize: nat): Reply {
    if ErrorPage(code).Some? then
      var page := ErrorPage(code).value;
      var headed := AddHeaders(Add(out, StatusLine(page.status, page.title)), |page.form|, linger);
      Reply(Fits(headed, page.form), Add(headed, page.form), None)
    else if code == FileRequest then
      var titled := Add(out, StatusLine(200, "OK"));
      if fileSize != 0 then Reply(true, AddHeaders(titled, ToInt(fileSize), linger), Some(fileSize))
      else Reply(false, Add(AddHeaders(titled, |EMPTY_PAGE|, linger), EMPTY_PAGE), None)
    else
      Reply(false, out, None)
  }

  // ---------------------------------------------------------------- framing

  function HeaderBlock(n: int, linger: bool): string {
    LengthLine(n) + LingerLine(linger) + "\r\n"
  }

  lemma IntLength(n: int)
    requires INT_MIN <= n <= INT_MAX
    ensures |Decimal(n)| <= 11
  {
    var m := if n < 0 then -n else n;
    assert Power10(10) == 10_000_000_000 by {
      assert Power10(5) == 100_000;
      assert Power10(7) == 100 * Power10(5);
      assert Power10(10) == 1000 * Power10(7);
    }
    DecimalLength(m, 10);
  }

  /** From an empty buffer the head is written in full, whatever int is printed. */
  lemma HeadFits(status: nat, title: string, n: int, linger: bool)
    requires status < 1000 && |title| <= 14 && INT_MIN <= n <= INT_MAX
    ensures var head := StatusLine(status, title) + HeaderBlock(n, linger);
            AddHeaders(Add("", StatusLine(status, title)), n, linger) == head && |head| <= 120
  {
    IntLength(n);
    IntLength(status);
    var a := StatusLine(status, title);
    assert "" + a == a;
    assert a + LengthLine(n) + LingerLine(linger) + "\r\n" == a + HeaderBlock(n, linger);
  }

  /** The reply to every error code is complete: status line, headers with the length of the page,
      blank line, page; and it stays below the last byte of the buffer. */
  lemma ErrorReply(code: HttpCode, linger: bool, fileSize: nat)
    requires ErrorPage(code).Some?
    ensures var page := ErrorPage(code).value;
            var out := StatusLine(page.status, page.title) + HeaderBlock(|page.form|, linger) + page.form;
            ProcessWrite("", code, linger, fileSize) == Reply(true, out, None) && |out| < WRITE_BUFFER_SIZE - 1
  {
    hide StatusLine, HeaderBlock;
    PageSizes(code);
    var page := ErrorPage(code).value;
    HeadFits(page.status, page.title, |page.form|, linger);
  }

  /** The reply for a file: head in the buffer, then the file.  The printed length is the file's
      exactly when the size fits an int. */
  lemma FileReply(linger: bool, fileSize: nat)
    requires fileSize != 0
    ensures var out := StatusLine(200, "OK") + HeaderBlock(ToInt(fileSize), linger);
            ProcessWrite("", FileRequest, linger, fileSize) == Reply(true, out, Some(fileSize))
            && |out| < WRITE_BUFFER_SIZE - 1
    ensures ToInt(fileSize) == fileSize <==> fileSize <= INT_MAX
  {
    HeadFits(200, "OK", ToInt(fileSize), linger);
  }

  /** Exactly which outcomes produce a reply, from an empty buffer. */
  lemma RepliesIff(code: HttpCode, linger: bool, fileSize: nat)
    ensures ProcessWrite("", code, linger, fileSize).sent
            <==> ErrorPage(code).Some? || (code == FileRequest && fileSize != 0)
  {
    if ErrorPage(code).Some? {
      ErrorReply(code, linger, fileSize);
    }
  }

  // ---------------------------------------------------------------- reading the reply back

  /** A header block as the server's own parser meets it after a first line. */
  function Reader(data: string): Parser {
    FRESH.(data := data, state := Header)
  }

  lemma LengthHeader(n: nat)
    requires n <= INT_MAX
    ensures ReadHeader("Content-Length: " + Decimal(n)) == ContentLength(n)
    ensures Avoids("Content-Length: " + Decimal(n), {NUL, CR, LF})
  {
    hide Atol, Decimal;
    var d := Decimal(n);
    var t := "Content-Length: " + d;
    DecimalDigits(n);
    assert d + "" == d;
    AtolReadsDecimal(n, "");
    LengthPrefix(d);
    forall j | 0 <= j < |t| ensures t[j] !in {NUL, CR, LF} {
      if j >= 16 { assert t[j] == d[j - 16]; }
    }
  }

  lemma LengthPrefix(d: string)
    requires d != "" && d[0] !in BLANKS
    ensures ReadHeader("Content-Length: " + d) == ContentLength(ToInt(Atol(d)))
  {
    hide Atol, ToInt;
    var t := "Content-Length: " + d;
    assert t[15] == ' ' && t[16] == d[0];
    FirstNotInUnique(t, 15, BLANKS, 16);
    assert t[16..] == d;
    assert t[..11][3] == 't';
    assert t[..15] == "Content-Length:";
  }

  lemma LingerHeader(linger: bool)
    ensures ReadHeader(if linger then "Connection: keep-alive" else "Connection: close") == Connection(linger)
  {
    var t := if linger then "Connection: keep-alive" else "Connection: close";
    assert t[..11] == "Connection:";
    assert t[11] == ' ';
    FirstNotInUnique(t, 11, BLANKS, 12);
    assert t[12..] == if linger then "keep-alive" else "close";
  }

  /** The header block of a reply, line by line. */
  lemma BlockLines(n: nat, linger: bool, body: string)
    ensures HeaderBlock(n, linger) + body
            == ("Content-Length: " + Decimal(n)) + "\r\n"
               + ((if linger then "Connection: keep-alive" else "Connection: close") + "\r\n" + ("" + "\r\n" + body))
  {
    hide Decimal;
  }

  lemma TerminatePast(d: string)
    ensures Terminate(d, |d|) == d
  {
  }

  /** What a reply declares is what it carries: the server's own header parser, run on the header
      block and body of a reply, reads back the linger flag and a content length that is exactly the
      number of bytes after the blank line, and finds the body complete. */
  lemma ReadsBack(n: nat, linger: bool, body: string)
    requires 0 < n <= INT_MAX && |body| == n
    ensures var (code, q) := ProcessRead(Reader(HeaderBlock(n, linger) + body));
            && code == GetRequest && q.state == Content
            && q.contentLength == n && q.linger == linger
            && q.startLine == q.checkedIdx == |HeaderBlock(n, linger)| && q.data[q.checkedIdx..] == body
  {
    hide ReadHeader, Step, ParseLine, Decimal, HeaderBlock, ScanBody, Terminate;
    var t1 := "Content-Length: " + Decimal(n);
    var t2 := if linger then "Connection: keep-alive" else "Connection: close";
    var block := HeaderBlock(n, linger);
    var p := Reader(block + body);
    var rest2 := "" + "\r\n" + body;
    var rest1 := t2 + "\r\n" + rest2;
    BlockLines(n, linger, body);
    assert p.data == p.data[0..];
    LengthHeader(n);
    LingerHeader(linger);
    HeaderLine(p, t1, rest1);
    var p1 := Step(p).1;
    HeaderLine(p1, t2, rest2);
    var p2 := Step(p1).1;
    BlankLine(p2, body);
    var p3 := Step(p2).1;
    assert ScanHead(p2) == ScanBody(p3, true);
    assert ScanHead(p1) == ScanHead(p2);
    assert p3.checkedIdx == |block| by { assert |block + body| == |t1 + "\r\n" + rest1|; }
    BodyOutcome(p3);
    TerminatePast(p3.data);
  }

  // ---------------------------------------------------------------- a whole reply, read by its receiver

  /** What a receiver finds in the bytes `out`, taking them apart with the server's own line scanner and
      word cutter: a first line of protocol, status number and title, a header block with the linger
      flag and a content length, and after the blank line exactly that many bytes, the body. */
  ghost predicate ReplyReads(out: string, status: int, title: string, linger: bool, body: string) {
    var (lineStatus, l) := ParseLine(FRESH.(data := out));
    && lineStatus == LineOk && Terminated(l.data, 0) && CutToken(l.data, 0).Some?
    && var (d1, u) := CutToken(l.data, 0).value;
       && Text(d1, 0) == "HTTP/1.1" && CutToken(d1, u).Some?
       && var (d2, v) := CutToken(d1, u).value;
          && Atol(Text(d2, u)) == status && Text(d2, v) == title
          && BlockReads(out[l.checkedIdx..], linger, body)
  }

  /** The header block and body of a reply, read by the server's own header parser. */
  ghost predicate BlockReads(rest: string, linger: bool, body: string) {
    var (code, q) := ProcessRead(Reader(rest));
    code == GetRequest && q.contentLength == |body| && q.linger == linger && q.data[q.checkedIdx..] == body
  }

  lemma StatusWords(n: nat, title: string)
    requires Avoids(title, {NUL, CR, LF}) && n <= LONG_MAX
    ensures StatusLine(n, title) == "HTTP/1.1" + (" " + (Decimal(n) + (" " + title))) + "\r\n"
    ensures Avoids("HTTP/1.1" + (" " + (Decimal(n) + (" " + title))), {NUL, CR, LF})
    ensures Decimal(n) != "" && Avoids(Decimal(n), BLANKS)
  {
    var d := Decimal(n);
    DecimalDigits(n);
    hide Decimal;
    assert "HTTP/1.1 " == "HTTP/1.1" + " ";
    var t := "HTTP/1.1" + (" " + (d + (" " + title)));
    forall j | 0 <= j < |t| ensures t[j] !in {NUL, CR, LF} {
      if 9 <= j < 9 + |d| { assert t[j] == d[j - 9]; }
      if j > 9 + |d| { assert t[j] == title[j - 10 - |d|]; }
    }
  }

  /** The first line of the bytes, scanned. */
  lemma LineReads(t: string, rest: string)
    requires Avoids(t, {NUL, CR, LF})
    ensures var (lineStatus, l) := ParseLine(FRESH.(data := t + "\r\n" + rest));
            && lineStatus == LineOk && Terminated(l.data, 0) && Text(l.data, 0) == t && l.checkedIdx == |t| + 2
  {
    var p := FRESH.(data := t + "\r\n" + rest);
    assert forall j | 0 <= j < |t| :: p.data[j] == t[j];
    FirstInUnique(p.data, 0, LINE_BREAKS, |t|);
    var l := ParseLine(p).1;
    FirstInUnique(l.data, 0, {NUL}, |t|);
    assert l.data[0..|t|] == t;
  }

  /** Its three parts: protocol, number, title. */
  lemma WordsRead(d: string, n: nat, title: string)
    requires Terminated(d, 0) && Text(d, 0) == "HTTP/1.1" + (" " + (Decimal(n) + (" " + title)))
    requires Decimal(n) != "" && Avoids(Decimal(n), BLANKS) && n <= LONG_MAX && title != "" && title[0] !in BLANKS
    ensures CutToken(d, 0).Some?
    ensures var (d1, u) := CutToken(d, 0).value;
            && Text(d1, 0) == "HTTP/1.1" && CutToken(d1, u).Some?
            && var (d2, v) := CutToken(d1, u).value;
               Atol(Text(d2, u)) == n && Text(d2, v) == title
  {
    hide CutToken, Text, Decimal, Atol;
    var number := Decimal(n);
    assert (number + (" " + title))[0] == number[0];
    CutTokenFinds(d, 0, "HTTP/1.1", " ", number + (" " + title));
    var (d1, u) := CutToken(d, 0).value;
    CutTokenFinds(d1, u, number, " ", title);
    AtolReadsDecimal(n, "");
    assert number + "" == number;
  }

  lemma HeadReads(n: nat, title: string, linger: bool, body: string)
    requires Avoids(title, {NUL, CR, LF}) && title != "" && title[0] !in BLANKS && n <= LONG_MAX
    requires 0 < |body| <= INT_MAX
    ensures ReplyReads(StatusLine(n, title) + HeaderBlock(|body|, linger) + body, n, title, linger, body)
  {
    hide ParseLine, CutToken, Text, Decimal, Atol, ProcessRead, HeaderBlock, StatusLine, Terminated;
    var t := "HTTP/1.1" + (" " + (Decimal(n) + (" " + title)));
    var rest := HeaderBlock(|body|, linger) + body;
    StatusWords(n, title);
    var out := StatusLine(n, title) + HeaderBlock(|body|, linger) + body;
    assert out == t + "\r\n" + rest;
    LineReads(t, rest);
    var l := ParseLine(FRESH.(data := out)).1;
    WordsRead(l.data, n, title);
    assert out[|t| + 2..] == rest;
    ReadsBack(|body|, linger, body);
  }

  /** The whole reply to each error verdict, as its receiver reads it. */
  lemma ErrorReads(code: HttpCode, linger: bool, fileSize: nat)
    requires code in {BadRequest, ForbiddenRequest, NoResource, InternalError}
    ensures var r := ProcessWrite("", code, linger, fileSize);
            && r.sent && r.file == None
            && (code == BadRequest ==>
                  ReplyReads(r.out, 400, "Bad Request", linger,
                             "Your request has bad syntax or is inherently impossible to satisfy.\n"))
            && (code == ForbiddenRequest ==>
                  ReplyReads(r.out, 403, "Forbidden", linger,
                             "You do not have permission to get file from this server.\n"))
            && (code == NoResource ==>
                  ReplyReads(r.out, 404, "Not Found", linger, "The requested file was not found on this server.\n"))
            && (code == InternalError ==>
                  ReplyReads(r.out, 500, "Internal Error", linger,
                             "There was an unusual problem serving the requested file.\n"))
  {
    hide ReplyReads, ProcessWrite, StatusLine, HeaderBlock;
    ErrorReply(code, linger, fileSize);
    var page := ErrorPage(code).value;
    HeadReads(page.status, page.title, linger, page.form);
  }

  /** The whole reply for a file of a size that fits an int. */
  lemma FileReads(linger: bool, file: string)
    requires 0 < |file| <= INT_MAX
    ensures var r := ProcessWrite("", FileRequest, linger, |file|);
            r.sent && r.file == Some(|file|) && ReplyReads(r.out + file, 200, "OK", linger, file)
  {
    hide ReplyReads, ProcessWrite, StatusLine, HeaderBlock;
    FileReply(linger, |file|);
    HeadReads(200, "OK", linger, file);
  }
}
