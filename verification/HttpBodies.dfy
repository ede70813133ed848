/** Requests with a body: what a Content-Length does to the connection, and requests on which the
    exceptions stated elsewhere happen. */
module HttpBodies {
  import opened Options
  import opened CStrings
  import opened Numbers
  import opened HttpParser
  import opened HttpChunking
  import opened HttpRequestLine
  import opened HttpRequest
  import opened HttpResponse
  import opened HttpConn

  /** The head of a request whose one header is its content length. */
  function Head(l: Line, n: int): string {
    Print(l) + "\r\n" + ("Content-Length: " + Decimal(n)) + "\r\n" + "\r\n"
  }

  lemma SignedLength(n: int)
    requires INT_MIN <= n <= INT_MAX
    ensures ReadHeader("Content-Length: " + Decimal(n)) == ContentLength(n)
    ensures Avoids("Content-Length: " + Decimal(n), {NUL, CR, LF})
  {
    if n >= 0 {
      LengthHeader(n);
    } else {
      NegativeLength(-n);
      assert Decimal(n) == "-" + Decimal(-n);
    }
  }

  lemma NegativeLength(n: nat)
    requires 0 < n <= -INT_MIN
    ensures ReadHeader("Content-Length: " + ("-" + Decimal(n))) == ContentLength(0 - n)
    ensures Avoids("Content-Length: " + ("-" + Decimal(n)), {NUL, CR, LF})
  {
    hide Atol, Decimal, ReadHeader;
    var d := "-" + Decimal(n);
    var h := "Content-Length: " + d;
    AtolReadsNegative(n, "");
    assert d + "" == d;
    LengthPrefix(d);
    DecimalDigits(n);
    forall j | 0 <= j < |h| ensures h[j] !in {NUL, CR, LF} {
      if j >= 17 { assert h[j] == Decimal(n)[j - 17]; }
    }
  }

  /** The parser about to look at a body, after a head of `at` bytes that gave it length `n`. */
  ghost predicate AtBody(m: Parser, at: nat, n: int, body: string) {
    BodyNext(m) && m.contentLength == n && m.checkedIdx == at && m.data[at..] == body
  }

  function Received(s: string): (p: Parser)
    ensures p.Indexed() && p == Append(FRESH, s)
  {
    Append(FRESH, s)
  }

  /** Any such request, with any length that an int holds: process_read comes to parse_content with
      that length, at the byte after the head. */
  lemma LengthRequest(l: Line, n: int, body: string) returns (m: Parser)
    requires WellFormed(l) && Avoids(Print(l), {NUL, CR, LF}) && INT_MIN <= n <= INT_MAX && n != 0
    ensures AtBody(m, |Head(l, n)|, n, body)
    ensures ProcessRead(Received(Head(l, n) + body)) == ScanBody(m, true)
    ensures Target(l.target).Some? && m.url == Some(UrlAt(l))
  {
    hide Step, ParseLine, Valid, Captured, WellFormed, Print, Target, ScanBody, Decimal, ReadHeader;
    var h := "Content-Length: " + Decimal(n);
    var rest := "" + "\r\n" + body;
    assert Print(l) + "\r\n" + (h + "\r\n" + rest) == Head(l, n) + body;
    SignedLength(n);
    var p := AfterRequestLine(l, h + "\r\n" + rest);
    HeaderLine(p, h, rest);
    StepKeeps(p);
    var p1 := Step(p).1;
    assert ScanHead(p) == ScanHead(p1);
    BlankLine(p1, body);
    StepKeeps(p1);
    m := Step(p1).1;
    assert ScanHead(p1) == ScanBody(m, true);
  }

  // ---------------------------------------------------------------- requests on which promises fail

  function Plain(target: string): Line {
    Line("GET", " ", target, " ", "HTTP/1.1")
  }

  lemma PlainForm(target: string)
    requires target in {"/", "/a"}
    ensures Target(target) == Some(target)
    ensures WellFormed(Plain(target)) && Avoids(Print(Plain(target)), {NUL, CR, LF})
    ensures |Print(Plain(target))| == 13 + |target| && UrlAt(Plain(target)) == 4
  {
    PlainTarget(target);
    PlainPrint(target);
    hide Target, Print, PrefixNoCase;
  }

  lemma PlainTarget(target: string)
    requires target in {"/", "/a"}
    ensures Target(target) == Some(target) && Avoids(target, BLANKS)
  {
  }

  lemma PlainPrint(target: string)
    requires target in {"/", "/a"}
    ensures |Print(Plain(target))| == 13 + |target| && Avoids(Print(Plain(target)), {NUL, CR, LF})
  {
    var t, head := Print(Plain(target)), "GET" + " " + target;
    assert t == head + (" " + "HTTP/1.1");
    assert Avoids(head, {NUL, CR, LF}) && Avoids(" " + "HTTP/1.1", {NUL, CR, LF});
    forall i | 0 <= i < |t| ensures t[i] !in {NUL, CR, LF} {
      assert t[i] == if i < |head| then head[i] else (" " + "HTTP/1.1")[i - |head|];
    }
  }

  lemma Numerals()
    ensures Decimal(4) == "4" && Decimal(-36) == "-36" && Decimal(-99) == "-99" && Decimal(2008) == "2008"
  {
    assert Decimal(36) == "36" && Decimal(99) == "99";
    assert Decimal(20) == "20" && Decimal(200) == "200";
  }

  /** A request for `target` whose one header is its content length, as text. */
  function PlainHead(target: string, length: string): string {
    "GET" + " " + target + " " + "HTTP/1.1" + "\r\n" + ("Content-Length: " + length) + "\r\n" + "\r\n"
  }

  lemma PlainHeadPrinted(target: string, n: int, length: string)
    requires target in {"/", "/a"} && Decimal(n) == length
    ensures Head(Plain(target), n) == PlainHead(target, length)
    ensures |PlainHead(target, length)| == 35 + |target| + |length|
  {
    hide Decimal, WellFormed;
    assert Print(Plain(target)) == "GET" + " " + target + " " + "HTTP/1.1";
    hide Print;
    PlainForm(target);
  }

  /** Where the terminator of a complete body goes when process_read ends in `q`. */
  function TerminatorAt(q: Parser): int {
    q.checkedIdx + q.contentLength
  }

  /** A body that is there: the verdict, and where its terminator goes. */
  lemma CompleteBody(l: Line, n: int, body: string) returns (q: Parser)
    requires WellFormed(l) && Avoids(Print(l), {NUL, CR, LF}) && INT_MIN <= n <= INT_MAX && n != 0 && n <= |body|
    ensures ProcessRead(Received(Head(l, n) + body)) == (GetRequest, q)
    ensures q.state == Content && TerminatorAt(q) == |Head(l, n)| + n && |q.data| == |Head(l, n)| + |body|
    ensures Target(l.target).Some? && q.url == Some(UrlAt(l)) && (TerminatorAt(q) == UrlAt(l) ==> ErasedUrl(q))
  {
    hide WellFormed, Print, Head, ProcessRead, ScanBody, Decimal, ErasedUrl, BodyNext;
    var m := LengthRequest(l, n, body);
    q := BodyDone(m, |Head(l, n)|, n, body);
  }

  /** do_request is called with an empty URL. */
  ghost predicate ErasedUrl(q: Parser) {
    !Accepted(q) && Captured(q).0 == Some("")
  }

  lemma BodyDone(m: Parser, at: nat, n: int, body: string) returns (q: Parser)
    requires AtBody(m, at, n, body) && n <= |body|
    ensures ScanBody(m, true) == (GetRequest, q) && q.url == m.url
    ensures q.state == Content && TerminatorAt(q) == at + n && |q.data| == at + |body|
    ensures m.url == Some(at + n) ==> ErasedUrl(q)
  {
    assert m.Indexed() && |m.data| == at + |body|;
    hide ScanBody, BodyStep, Accepted;
    BodyOutcome(m);
    q := ScanBody(m, true).1;
    if m.url == Some(at + n) {
      UrlGone(m, q);
    }
  }

  lemma UrlGone(m: Parser, q: Parser)
    requires BodyNext(m) && m.url == Some(m.checkedIdx + m.contentLength)
    requires q == m.(data := Terminate(m.data, m.checkedIdx + m.contentLength))
    ensures ErasedUrl(q)
  {
    hide Held;
    HeldIn(m.data, m.url, m.startLine);
    FirstInUnique(q.data, q.url.value, {NUL}, q.url.value);
    assert Text(q.data, q.url.value) == "";
  }

  /** A negative Content-Length that brings the terminator to the first byte of the URL. */
  lemma UrlErased() returns (q: Parser)
    ensures ProcessRead(Received(PlainHead("/a", "-36"))) == (GetRequest, q)
    ensures ErasedUrl(q)
  {
    hide WellFormed, ProcessRead, ErasedUrl, Print, Head, PlainHead, Decimal;
    PlainForm("/a");
    Numerals();
    PlainHeadPrinted("/a", -36, "-36");
    assert PlainHead("/a", "-36") + "" == PlainHead("/a", "-36");
    q := CompleteBody(Plain("/a"), -36, "");
  }

  /** A terminator before the first byte of the buffer ... */
  lemma TerminatorBelow() returns (q: Parser)
    ensures ProcessRead(Received(PlainHead("/a", "-99"))) == (GetRequest, q)
    ensures q.state == Content && TerminatorAt(q) == -59
  {
    hide WellFormed, ProcessRead, ErasedUrl, Print, Head, PlainHead, Decimal;
    PlainForm("/a");
    Numerals();
    PlainHeadPrinted("/a", -99, "-99");
    assert PlainHead("/a", "-99") + "" == PlainHead("/a", "-99");
    q := CompleteBody(Plain("/a"), -99, "");
  }

  /** ... and one after its last byte. */
  lemma TerminatorAbove(body: string) returns (q: Parser)
    requires |body| == 2008
    ensures ProcessRead(Received(PlainHead("/", "2008") + body)) == (GetRequest, q)
    ensures q.state == Content && TerminatorAt(q) == READ_BUFFER_SIZE == |q.data|
  {
    hide WellFormed, ProcessRead, ErasedUrl, Print, Head, PlainHead, Decimal;
    PlainForm("/");
    Numerals();
    PlainHeadPrinted("/", 2008, "2008");
    q := CompleteBody(Plain("/"), 2008, body);
  }

  /** A request that is complete in one read, and waits for more when its last byte comes in a second
      one: the line break in its body has moved the scan position. */
  lemma SplitDiffers() returns (q: Parser)
    ensures ProcessRead(Received(PlainHead("/", "4") + "a\r\nb")).0 == GetRequest
    ensures ProcessRead(Received(PlainHead("/", "4") + "a\r\n")) == (NoRequest, q)
    ensures q.Indexed() && q.state == Content && ProcessRead(Append(q, "b")).0 == NoRequest
  {
    hide WellFormed, ProcessRead, ScanBody, Print, ErasedUrl, BodyNext, Head, PlainHead, Decimal;
    PlainForm("/");
    Numerals();
    PlainHeadPrinted("/", 4, "4");
    var _ := CompleteBody(Plain("/"), 4, "a\r\nb");
    var m := LengthRequest(Plain("/"), 4, "a\r\n");
    q := LastByteLate(m, |Head(Plain("/"), 4)|);
  }

  lemma LastByteLate(m: Parser, at: nat) returns (q: Parser)
    requires AtBody(m, at, 4, "a\r\n")
    ensures ScanBody(m, true) == (NoRequest, q) && q.Indexed() && q.state == Content
    ensures ProcessRead(Append(q, "b")).0 == NoRequest
  {
    assert m.Indexed() && |m.data| == at + 3 && !StaysPut("a\r\n");
    hide ScanBody, Valid, StaysPut;
    BodyVerdict(m);
    SplitBody(m, "b");
    ScanStays(m);
    q := ScanBody(m, true).1;
  }
}
