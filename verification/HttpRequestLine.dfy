/** Which request lines are accepted, as a grammar, and what they capture: section 3.1.1 of RFC 7230
    restricted to GET and HTTP/1.1, with blanks in any number. */
module HttpRequestLine {
  import opened Options
  import opened CStrings
  import opened HttpParser
  import opened HttpChunking

  ghost predicate Separator(s: string) {
    s != "" && Within(s, BLANKS)
  }

  /** The resource a request target names: the target itself, or the path of an absolute URL. */
  function Target(u: string): (r: Option<string>)
    ensures r.Some? ==> |r.value| <= |u|
  {
    if PrefixNoCase(u, "http://") then
      var k := FirstIn(u, 7, {'/'});
      if k < |u| then Some(u[k..]) else None
    else if u != "" && u[0] == '/' then Some(u)
    else None
  }

  datatype Line = Line(verb: string, sep1: string, target: string, sep2: string, version: string)

  function Print(l: Line): string {
    l.verb + l.sep1 + l.target + l.sep2 + l.version
  }

  ghost predicate WellFormed(l: Line) {
    && EqNoCase(l.verb, "GET") && EqNoCase(l.version, "HTTP/1.1")
    && Separator(l.sep1) && Separator(l.sep2)
    && Avoids(l.target, BLANKS) && Target(l.target).Some?
  }

  /** Where the resource starts in the printed line ... */
  function UrlAt(l: Line): nat
    requires Target(l.target).Some?
  {
    |l.verb| + |l.sep1| + (|l.target| - |Target(l.target).value|)
  }

  /** ... and the version. */
  function VersionAt(l: Line): nat {
    |l.verb| + |l.sep1| + |l.target| + |l.sep2|
  }

  // ---------------------------------------------------------------- one cut

  /** Cutting a word, blanks and a rest that does not start with a blank. */
  lemma CutTokenFinds(d: string, a: nat, w: string, s: string, rest: string)
    requires Terminated(d, a) && Text(d, a) == w + (s + rest)
    requires Avoids(w, BLANKS) && Separator(s) && (rest != "" ==> rest[0] !in BLANKS)
    ensures CutToken(d, a).Some?
    ensures var (d1, u) := CutToken(d, a).value;
            u == a + |w| + |s| && Text(d1, a) == w && Text(d1, u) == rest
  {
    hide Terminated, Separator;
    CutTokenPositions(d, a, w, s, rest);
    var t := Text(d, a);
    var u := a + |w| + |s|;
    var d1 := CutToken(d, a).value.0;
    assert forall j | 0 <= j < |t| :: t[j] == d[a + j];
    assert t[..|w|] == w && t[|w| + |s|..] == rest;
    assert d1[a..a + |w|] == d[a..a + |w|] == t[..|w|];
    assert d1[u..TextEnd(d, a)] == d[u..TextEnd(d, a)] == t[|w| + |s|..];
  }

  lemma CutAt(d: string, a: nat, o: nat, u: nat)
    requires Terminated(d, a) && o < |d| && FirstIn(d, a, BLANK_OR_END) == o && d[o] != NUL
    requires FirstNotIn(d[o := NUL], o + 1, BLANKS) == u
    ensures CutToken(d, a) == Some((d[o := NUL], u))
  {
  }

  /** Word, blanks and rest, byte by byte. */
  lemma CutBytes(d: string, a: nat, w: string, s: string, rest: string)
    requires Terminated(d, a) && Text(d, a) == w + (s + rest)
    requires Avoids(w, BLANKS) && Separator(s) && (rest != "" ==> rest[0] !in BLANKS)
    ensures var o, u := a + |w|, a + |w| + |s|;
            && o < u < |d| && d[o] in BLANKS && d[u] !in BLANKS
            && (forall j | a <= j < o :: d[j] !in BLANK_OR_END)
            && (forall j | o < j < u :: d[j] in BLANKS)
  {
    var t := Text(d, a);
    var o := a + |w|;
    var u := o + |s|;
    assert |t| == |w| + |s| + |rest|;
    assert forall j | 0 <= j < |t| :: d[a + j] == t[j] && t[j] != NUL;
    assert forall j | a <= j < o :: d[j] == t[j - a] == w[j - a];
    assert forall j | o <= j < u :: d[j] == t[j - a] == s[j - o];
    if rest != "" { assert d[u] == t[u - a] == rest[0]; }
  }

  lemma CutTokenPositions(d: string, a: nat, w: string, s: string, rest: string)
    requires Terminated(d, a) && Text(d, a) == w + (s + rest)
    requires Avoids(w, BLANKS) && Separator(s) && (rest != "" ==> rest[0] !in BLANKS)
    ensures CutToken(d, a) == Some((d[a + |w| := NUL], a + |w| + |s|))
    ensures TextEnd(d[a + |w| := NUL], a) == a + |w|
  {
    hide CutToken, Text, Terminated, Separator;
    CutBytes(d, a, w, s, rest);
    var o := a + |w|;
    var u := o + |s|;
    var d1 := d[o := NUL];
    FirstInUnique(d, a, BLANK_OR_END, o);
    FirstNotInUnique(d1, o + 1, BLANKS, u);
    CutAt(d, a, o, u);
    FirstInUnique(d1, a, {NUL}, o);
  }

  /** Where a successful cut cuts. */
  lemma CutPlaces(d: string, a: nat) returns (o: nat)
    requires Terminated(d, a) && CutToken(d, a).Some?
    ensures var (d1, u) := CutToken(d, a).value; var e := TextEnd(d, a);
            && a <= o < u <= e < |d| && d1 == d[o := NUL]
            && TextEnd(d1, a) == o && TextEnd(d1, u) == e
            && (forall j | a <= j < o :: d[j] !in BLANKS)
            && (forall j | o <= j < u :: d[j] in BLANKS)
            && d[u] !in BLANKS
  {
    var (d1, u) := CutToken(d, a).value;
    assert d[TextEnd(d, a)] == NUL;
    o := FirstIn(d, a, BLANK_OR_END);
    FirstInUnique(d1, a, {NUL}, o);
    assert forall j | o < j < u :: d1[j] == d[j];
  }

  /** What a successful cut says about the string. */
  lemma CutTokenSplits(d: string, a: nat) returns (s: string)
    requires Terminated(d, a) && CutToken(d, a).Some?
    ensures var (d1, u) := CutToken(d, a).value;
            && Text(d, a) == Text(d1, a) + (s + Text(d1, u)) && Separator(s)
            && Avoids(Text(d1, a), BLANKS) && (Text(d1, u) != "" ==> Text(d1, u)[0] !in BLANKS)
  {
    hide CutToken, TextEnd;
    var (d1, u) := CutToken(d, a).value;
    var e := TextEnd(d, a);
    var o := CutPlaces(d, a);
    s := d[o..u];
    assert d[a..e] == d[a..o] + (d[o..u] + d[u..e]);
    assert Text(d1, a) == d[a..o] && Text(d1, u) == d[u..e];
  }

  lemma LocateTargetText(d: string, u: nat)
    requires Terminated(d, u)
    ensures var r := LocateTarget(d, u); var t := Target(Text(d, u));
            && (t.Some? <==> r.Some? && d[r.value] == '/')
            && (t.Some? ==> CapturedText(d, r) == t)
            && (t.Some? ==> r == Some(u + (|Text(d, u)| - |t.value|)))
  {
  }

  // ---------------------------------------------------------------- the whole line

  lemma EqNoCaseNoBlank(s: string, literal: string)
    requires EqNoCase(s, literal)
    requires forall i | 0 <= i < |literal| :: literal[i] !in BLANK_OR_END
    ensures Avoids(s, BLANKS)
  {
  }

  /** Every line of the grammar is accepted, and captures its resource and version. */
  lemma AcceptsGrammar(p: Parser, a: nat, l: Line)
    requires Terminated(p.data, a) && Text(p.data, a) == Print(l) && WellFormed(l)
    ensures Target(l.target).Some?
    ensures var (code, q) := ParseRequestLine(p, a);
            && code == NoRequest
            && CapturedText(q.data, q.url) == Target(l.target)
            && CapturedText(q.data, q.version) == Some(l.version)
            && q.url == Some(a + UrlAt(l)) && q.version == Some(a + VersionAt(l))
  {
    hide CutToken, ParseTarget, Target, Print, PrefixNoCase;
    EqNoCaseNoBlank(l.verb, "GET");
    var tail := l.sep2 + l.version;
    PrintNested(l);
    TargetNotBlank(l.target);
    assert (l.target + tail)[0] == l.target[0];
    CutTokenFinds(p.data, a, l.verb, l.sep1, l.target + tail);
    var (d, u) := CutToken(p.data, a).value;
    AcceptsTarget(p.(data := d, verb := GET, url := Some(u)), u, l);
  }

  /** The part of the line after the method. */
  lemma AcceptsTarget(p: Parser, u: nat, l: Line)
    requires Terminated(p.data, u) && Text(p.data, u) == l.target + (l.sep2 + l.version) && WellFormed(l)
    ensures var (code, q) := ParseTarget(p, u);
            && code == NoRequest
            && CapturedText(q.data, q.url) == Target(l.target)
            && CapturedText(q.data, q.version) == Some(l.version)
            && q.url == Some(u + (|l.target| - |Target(l.target).value|))
            && q.version == Some(u + |l.target| + |l.sep2|)
  {
    hide CutToken, LocateTarget, Target, PrefixNoCase;
    EqNoCaseNoBlank(l.version, "HTTP/1.1");
    CutTokenFinds(p.data, u, l.target, l.sep2, l.version);
    LocateTargetText(CutToken(p.data, u).value.0, u);
  }

  lemma TargetNotBlank(u: string)
    requires Avoids(u, BLANKS) && Target(u).Some?
    ensures u != "" && u[0] !in BLANKS
  {
  }

  lemma PrintNested(l: Line)
    ensures Print(l) == l.verb + (l.sep1 + (l.target + (l.sep2 + l.version)))
  {
  }

  /** Every accepted line is of the grammar. */
  lemma OnlyAcceptsGrammar(p: Parser, a: nat) returns (l: Line)
    requires Terminated(p.data, a) && ParseRequestLine(p, a).0 == NoRequest
    ensures WellFormed(l) && Text(p.data, a) == Print(l)
  {
    hide LocateTarget, Target, EqNoCase, CutToken, Text, Print;
    var (d1, u) := CutToken(p.data, a).value;
    var s1 := CutTokenSplits(p.data, a);
    var (d2, v) := CutToken(d1, u).value;
    var s2 := CutTokenSplits(d1, u);
    LocateTargetText(d2, u);
    l := Line(Text(d1, a), s1, Text(d2, u), s2, Text(d2, v));
    PrintNested(l);
  }

  /** A request line is accepted if and only if it has the shape of the grammar. */
  lemma AcceptanceIff(p: Parser, a: nat)
    requires Terminated(p.data, a)
    ensures ParseRequestLine(p, a).0 == NoRequest <==> exists l: Line :: WellFormed(l) && Text(p.data, a) == Print(l)
  {
    if ParseRequestLine(p, a).0 == NoRequest {
      var l := OnlyAcceptsGrammar(p, a);
    }
    if l: Line :| WellFormed(l) && Text(p.data, a) == Print(l) {
      AcceptsGrammar(p, a, l);
    }
  }

  /** The first line of the input, received with its CRLF. */
  lemma FirstLine(t: string)
    requires Avoids(t, {NUL, CR, LF})
    ensures var (status, m) := ParseLine(Append(FRESH, t + "\r\n"));
            && status == LineOk && m == FRESH.(data := t + [NUL, NUL], checkedIdx := |t| + 2)
            && Terminated(m.data, 0) && Text(m.data, 0) == t
  {
    var p := Append(FRESH, t + "\r\n");
    assert p.data == t + "\r\n";
    FirstInUnique(p.data, 0, LINE_BREAKS, |t|);
    var m := ParseLine(p).1;
    assert m.data == t + [NUL, NUL];
    FirstInUnique(m.data, 0, {NUL}, |t|);
  }

  /** Printing a request line and parsing it, through the whole of process_read: the connection is
      then reading headers and holds the resource and version that were printed. */
  lemma PrintThenParse(l: Line)
    requires WellFormed(l) && Avoids(Print(l), {NUL, CR, LF})
    ensures Target(l.target).Some?
    ensures var (code, q) := ProcessRead(Append(FRESH, Print(l) + "\r\n"));
            && code == NoRequest && q.state == Header
            && Captured(q) == (Target(l.target), Some(l.version), None)
            && q.startLine == q.checkedIdx == |Print(l)| + 2 == |q.data|
            && !q.linger && q.contentLength == 0
            && q.url == Some(UrlAt(l)) && q.version == Some(VersionAt(l)) && q.host == None
  {
    hide WellFormed, Print, ParseRequestLine, ParseLine;
    var p := Append(FRESH, Print(l) + "\r\n");
    FirstLine(Print(l));
    var m := ParseLine(p).1;
    var q := m.(startLine := m.checkedIdx);
    AcceptsGrammar(q, 0, l);
    var r := ParseRequestLine(q, 0).1;
    assert Step(p) == (NoRequest, r);
    NothingLeft(r);
  }

  lemma NothingLeft(p: Parser)
    requires p.state != Content && p.startLine <= p.checkedIdx == |p.data|
    ensures ScanHead(p) == (NoRequest, p)
  {
  }
}
