/** The request parser of http_conn as functions on a value: what each member function does
    to the parser's fields.  `data` is m_read_buf up to m_read_idx. */
module HttpParser {
  import opened Options
  import opened CStrings
  import opened Numbers

  datatype CheckState = RequestLine | Header | Content

  datatype LineStatus = LineOk | LineBad | LineOpen

  datatype Verb = GET | POST | HEAD | PUT | DELETE | TRACE | OPTIONS | CONNECT | PATCH

  datatype HttpCode =
    | NoRequest
    | GetRequest
    | BadRequest
    | NoResource
    | ForbiddenRequest
    | FileRequest
    | InternalError
    | ClosedConnection

  datatype Parser = Parser(
    data: string,
    checkedIdx: nat,
    startLine: nat,
    state: CheckState,
    verb: Verb,
    url: Option<nat>,
    version: Option<nat>,
    host: Option<nat>,
    contentLength: int,
    linger: bool)
  {
    ghost predicate Indexed() {
      startLine <= checkedIdx <= |data|
    }
  }

  /** The state left by init(). */
  const FRESH := Parser("", 0, 0, RequestLine, GET, None, None, None, 0, false)

  /** Bytes received by read(). */
  function Append(p: Parser, d: string): Parser {
    p.(data := p.data + d)
  }

  const BLANK_OR_END: set<char> := {' ', '\t', NUL}

  /** parse_line, once `i` is the first CR or LF at or after m_checked_idx (or m_read_idx). */
  function LineAt(p: Parser, i: nat): (LineStatus, Parser)
    requires i <= |p.data|
  {
    if i == |p.data| then
      (LineOpen, p.(checkedIdx := i))
    else if p.data[i] == CR then
      if i + 1 == |p.data| then (LineOpen, p.(checkedIdx := i))
      else if p.data[i + 1] == LF then (LineOk, p.(data := p.data[i := NUL][i + 1 := NUL], checkedIdx := i + 2))
      else (LineBad, p.(checkedIdx := i))
    else if i > 1 && p.data[i - 1] == CR then
      (LineOk, p.(data := p.data[i - 1 := NUL][i := NUL], checkedIdx := i + 1))
    else
      (LineBad, p.(checkedIdx := i))
  }

  function ParseLine(p: Parser): (r: (LineStatus, Parser))
    requires p.Indexed()
    ensures r.1 == p.(data := r.1.data, checkedIdx := r.1.checkedIdx)
    ensures |r.1.data| == |p.data| && p.checkedIdx <= r.1.checkedIdx <= |p.data|
    ensures r.0 == LineOk ==> p.checkedIdx < r.1.checkedIdx && r.1.data[r.1.checkedIdx - 1] == NUL
  {
    LineAt(p, FirstIn(p.data, p.checkedIdx, LINE_BREAKS))
  }

  /** The idiom of parse_request_line: cut the C string at `a` at its first blank, by a NUL,
      and skip the blanks that follow.  None when there is no blank before the NUL. */
  function CutToken(d: string, a: nat): (r: Option<(string, nat)>)
    requires Terminated(d, a)
    ensures r.Some? ==> var (d1, u) := r.value;
                        && |d1| == |d| && a < u <= TextEnd(d, a)
                        && Terminated(d1, u) && TextEnd(d1, u) == TextEnd(d, a)
                        && Terminated(d1, a) && TextEnd(d1, a) < u
                        && d1[..a] == d[..a] && d1[TextEnd(d, a)..] == d[TextEnd(d, a)..]
  {
    var e := TextEnd(d, a);
    var o := FirstIn(d, a, BLANK_OR_END);
    assert d[e] == NUL;
    if d[o] == NUL then None
    else
      var d1 := d[o := NUL];
      var u := FirstNotIn(d1, o + 1, BLANKS);
      assert d1[e] == NUL;
      FirstInUnique(d1, u, {NUL}, e);
      FirstInUnique(d1, a, {NUL}, o);
      Some((d1, u))
  }

  /** parse_request_line on the C string at `a`: the method. */
  function ParseRequestLine(p: Parser, a: nat): (r: (HttpCode, Parser))
    requires Terminated(p.data, a)
    ensures |r.1.data| == |p.data|
    ensures r.1.data[..a] == p.data[..a] && r.1.data[TextEnd(p.data, a)..] == p.data[TextEnd(p.data, a)..]
    ensures r.1 == p.(data := r.1.data, state := r.1.state, verb := r.1.verb, url := r.1.url, version := r.1.version)
    ensures r.0 == NoRequest ==> r.1.state == Header
    ensures r.0 != NoRequest ==> r.0 == BadRequest && r.1.state == p.state
  {
    var cut := CutToken(p.data, a);
    if cut.None? then
      (BadRequest, p.(url := None))
    else
      var (d, u) := cut.value;
      if !EqNoCase(Text(d, a), "GET") then (BadRequest, p.(data := d, url := Some(u)))
      else
        var r := ParseTarget(p.(data := d, verb := GET, url := Some(u)), u);
        PrefixOfPrefix(r.1.data, d, u, a);
        r
  }

  /** The rest of the request line, with m_url at `u`: where the version starts. */
  function ParseTarget(p: Parser, u: nat): (r: (HttpCode, Parser))
    requires Terminated(p.data, u)
    ensures |r.1.data| == |p.data|
    ensures r.1.data[..u] == p.data[..u] && r.1.data[TextEnd(p.data, u)..] == p.data[TextEnd(p.data, u)..]
    ensures r.1 == p.(data := r.1.data, state := r.1.state, url := r.1.url, version := r.1.version)
    ensures r.0 == NoRequest ==> r.1.state == Header
    ensures r.0 != NoRequest ==> r.0 == BadRequest && r.1.state == p.state
  {
    var cut := CutToken(p.data, u);
    if cut.None? then
      (BadRequest, p.(version := None))
    else
      var (d, v) := cut.value;
      if !EqNoCase(Text(d, v), "HTTP/1.1") then (BadRequest, p.(data := d, version := Some(v)))
      else CheckTarget(p.(data := d, version := Some(v)), u)
  }

  /** The last test of the request line: the URL, without scheme and authority, starts with '/'. */
  function CheckTarget(p: Parser, u: nat): (r: (HttpCode, Parser))
    requires Terminated(p.data, u)
    ensures r.1 == p.(state := r.1.state, url := r.1.url)
    ensures r.0 == NoRequest ==> r.1.state == Header
    ensures r.0 != NoRequest ==> r.0 == BadRequest && r.1.state == p.state
  {
    var target := LocateTarget(p.data, u);
    if target.None? || p.data[target.value] != '/' then (BadRequest, p.(url := target))
    else (NoRequest, p.(url := target, state := Header))
  }

  /** Where m_url ends up: past "http://" and the authority when the URL is absolute. */
  function LocateTarget(d: string, u: nat): (r: Option<nat>)
    requires Terminated(d, u)
    ensures r.Some? ==> u <= r.value <= TextEnd(d, u)
  {
    if PrefixNoCase(Text(d, u), "http://") then
      var k := FirstIn(d, u + 7, {'/', NUL});
      assert d[TextEnd(d, u)] == NUL;
      if d[k] == '/' then Some(k) else None
    else
      Some(u)
  }

  datatype HeaderField =
    | EndOfHeaders
    | Connection(keepAlive: bool)
    | ContentLength(length: int)
    | Host(offset: nat)
    | Unknown

  /** What parse_headers reads in the header line `t`. */
  function ReadHeader(t: string): (f: HeaderField)
    ensures f.Host? ==> f.offset <= |t|
  {
    if t == "" then EndOfHeaders
    else if PrefixNoCase(t, "Connection:") then Connection(EqNoCase(t[SkipBlanks(t, 11)..], "keep-alive"))
    else if PrefixNoCase(t, "Content-Length:") then ContentLength(ToInt(Atol(t[SkipBlanks(t, 15)..])))
    else if PrefixNoCase(t, "Host:") then Host(SkipBlanks(t, 5))
    else Unknown
  }

  /** strspn(t + i, " \t") added to i */
  function SkipBlanks(t: string, i: nat): (k: nat)
    requires i <= |t|
    ensures i <= k <= |t|
  {
    FirstNotIn(t, i, BLANKS)
  }

  /** parse_headers on the C string at `a`. */
  function ParseHeaders(p: Parser, a: nat): (r: (HttpCode, Parser))
    requires Terminated(p.data, a)
    ensures r.1 == p.(state := r.1.state, linger := r.1.linger, contentLength := r.1.contentLength, host := r.1.host)
    ensures r.1.state in {p.state, Content}
    ensures r.0 in {NoRequest, GetRequest}
  {
    match ReadHeader(Text(p.data, a))
    case EndOfHeaders => if p.contentLength != 0 then (NoRequest, p.(state := Content)) else (GetRequest, p)
    case Connection(keepAlive) => (NoRequest, if keepAlive then p.(linger := true) else p)
    case ContentLength(n) => (NoRequest, p.(contentLength := n))
    case Host(k) => (NoRequest, p.(host := Some(a + k)))
    case Unknown => (NoRequest, p)
  }

  /** A NUL written at index `at`; one that falls outside the received bytes leaves them alone. */
  function Terminate(d: string, at: int): (r: string)
    ensures |r| == |d|
    ensures forall j | 0 <= j < |d| :: r[j] == if j == at then NUL else d[j]
  {
    if 0 <= at < |d| then d[at := NUL] else d
  }

  /** parse_content on the text at `a`. */
  function ParseContent(p: Parser, a: nat): (r: (HttpCode, Parser))
    ensures |r.1.data| == |p.data| && r.1 == p.(data := r.1.data)
    ensures r.0 in {NoRequest, GetRequest}
  {
    if |p.data| >= p.contentLength + p.checkedIdx then
      (GetRequest, p.(data := Terminate(p.data, a + p.contentLength)))
    else
      (NoRequest, p)
  }

  /** The switch of process_read on a complete request or header line. */
  function HandleLine(l: Parser): (HttpCode, Parser)
    requires l.startLine <= |l.data| && Terminated(l.data, l.startLine)
  {
    var q := l.(startLine := l.checkedIdx);
    if l.state == RequestLine then ParseRequestLine(q, l.startLine) else ParseHeaders(q, l.startLine)
  }

  /** One turn of the process_read loop on a complete request or header line. */
  function Step(p: Parser): (r: (HttpCode, Parser))
    requires p.Indexed() && p.state != Content && ParseLine(p).0 == LineOk
    ensures r.1.Indexed() && r.1.checkedIdx == ParseLine(p).1.checkedIdx == r.1.startLine
    ensures |r.1.data| == |p.data|
    ensures r.0 in {NoRequest, GetRequest, BadRequest}
  {
    var l := ParseLine(p).1;
    assert Terminated(l.data, l.startLine) by { assert l.data[l.checkedIdx - 1] == NUL; }
    HandleLine(l)
  }

  /** One turn of the loop in the content state: get_line, m_start_line = m_checked_idx, parse_content. */
  function BodyStep(p: Parser): (r: (HttpCode, Parser))
    requires p.Indexed()
    ensures r.1.Indexed() && |r.1.data| == |p.data|
    ensures r.1 == p.(data := r.1.data, startLine := p.checkedIdx)
    ensures r.0 in {NoRequest, GetRequest}
  {
    ParseContent(p.(startLine := p.checkedIdx), p.startLine)
  }

  /** The process_read loop in the content state, entered with `lineOk` telling whether
      line_status is LINE_OK.  GetRequest stands for the call of do_request. */
  function ScanBody(p: Parser, lineOk: bool): (r: (HttpCode, Parser))
    requires p.Indexed() && p.state == Content
    ensures r.1.Indexed() && |r.1.data| == |p.data|
    ensures r.1 == p.(data := r.1.data, checkedIdx := r.1.checkedIdx, startLine := r.1.startLine)
    ensures r.0 in {NoRequest, GetRequest}
    decreases |p.data| - p.checkedIdx, lineOk
  {
    if lineOk then
      var (code, r) := BodyStep(p);
      if code == GetRequest then (code, r) else ScanBody(r, false)
    else if ParseLine(p).0 != LineOk then
      (NoRequest, ParseLine(p).1)
    else
      var (code, r) := BodyStep(ParseLine(p).1);
      if code == GetRequest then (code, r) else ScanBody(r, false)
  }

  /** The process_read loop in the request line and header states. */
  function ScanHead(p: Parser): (r: (HttpCode, Parser))
    requires p.Indexed() && p.state != Content
    ensures r.1.Indexed() && |r.1.data| == |p.data|
    ensures r.0 in {NoRequest, GetRequest, BadRequest}
    decreases |p.data| - p.checkedIdx
  {
    if ParseLine(p).0 != LineOk then
      (NoRequest, ParseLine(p).1)
    else
      var (code, r) := Step(p);
      if code != NoRequest then (code, r)
      else if r.state == Content then ScanBody(r, true)
      else ScanHead(r)
  }

  /** What is left of a process_read call when the loop is at `p`. */
  function Scan(p: Parser, lineOk: bool): (r: (HttpCode, Parser))
    requires p.Indexed()
    ensures r.1.Indexed() && |r.1.data| == |p.data|
    ensures r.0 in {NoRequest, GetRequest, BadRequest}
  {
    if p.state == Content then ScanBody(p, lineOk) else ScanHead(p)
  }

  function ProcessRead(p: Parser): (r: (HttpCode, Parser))
    requires p.Indexed()
    ensures r.1.Indexed() && |r.1.data| == |p.data|
    ensures r.0 in {NoRequest, GetRequest, BadRequest}
  {
    Scan(p, true)
  }
}
