/** Requests and responses: what rn_http_request_send and rn_http_response_prepare print, the
    parsers read back. */
module HttpRoundTrip {
  import opened Wrappers
  import opened HttpMachine
  import opened HttpHeaders
  import opened HttpParse

  function Reader(k: Kind): Table {
    (cs: nat, c: int) => Delta(k, cs, c)
  }

  lemma ReaderHead(k: Kind)
    ensures HeadAt(Reader(k), Base(k))
  {
  }

  // Requests

  function Word(v: Method): Text {
    match v
    case OPTIONS => [79, 80, 84, 73, 79, 78, 83]
    case GET => [71, 69, 84]
    case HEAD => [72, 69, 65, 68]
    case POST => [80, 79, 83, 84]
    case PUT => [80, 85, 84]
    case DELETE => [68, 69, 76, 69, 84, 69]
    case TRACE => [84, 82, 65, 67, 69]
    case CONNECT => [67, 79, 78, 78, 69, 67, 84]
  }

  function Protocol(v: Version): Text {
    PROTOCOL + [if v == V10 then 48 else 49]
  }

  function RequestLine(verb: Method, uri: Text, version: Version): Text {
    Word(verb) + [SP] + uri + [SP] + Protocol(version) + [CR, LF]
  }

  /** ASCII without NUL and without a line break. */
  predicate LineOk(s: Text) {
    && (forall i :: 0 <= i < |s| ==> 0 < s[i] <= 127)
    && (forall i :: 0 <= i < |s| - 1 ==> !(s[i] == CR && s[i + 1] == LF))
  }

  predicate UriOk(uri: Text) {
    LineOk(uri)
  }

  /** The table is that of requests outside the header lines. */
  ghost predicate RequestAt(d: Table) {
    && (forall cs: nat, c: int {:trigger MethodDelta(cs, c)} :: !InUri(cs) && !(22 <= cs <= 48) && 0 <= c <= 127 ==>
          d(cs, c) == MethodDelta(cs, c))
    && (forall cs: nat, c: int {:trigger UriDelta(cs, c)} :: InUri(cs) && 0 <= c <= 127 ==> d(cs, c) == UriDelta(cs, c))
  }

  lemma ReaderRequest()
    ensures RequestAt(Reader(Request))
  {
  }

  /** State after the first letter of a method, and how many letters follow it one state each. */
  function Entry(v: Method): (nat, nat) {
    match v
    case OPTIONS => (63, 6)
    case GET => (56, 2)
    case HEAD => (59, 3)
    case POST => (70, 3)
    case PUT => (74, 1)
    case DELETE => (50, 5)
    case TRACE => (76, 4)
    case CONNECT => (2, 6)
  }

  lemma LetterAdvances(v: Method, i: nat)
    requires i < Entry(v).1
    ensures |Word(v)| > Entry(v).1
    ensures var c := Word(v)[|Word(v)| - Entry(v).1 + i];
      MethodDelta(Entry(v).0 + i, c) == Goto(Entry(v).0 + i + 1, [])
  {
  }

  lemma VerbEdges(v: Method)
    ensures |Word(v)| == Entry(v).1 + (if v == PUT then 2 else 1)
    ensures MethodDelta(1, Word(v)[0]) == Goto(if v == PUT then 70 else Entry(v).0, [])
    ensures v == PUT ==> MethodDelta(70, Word(v)[1]) == Goto(74, [])
    ensures MethodDelta(Entry(v).0 + Entry(v).1, SP) == Goto(9, [SetMethod(v)])
    ensures !InUri(Entry(v).0 + Entry(v).1) && !(22 <= Entry(v).0 + Entry(v).1 <= 48)
    ensures forall i :: 0 <= i < |Word(v)| ==> 0 < Word(v)[i] <= 127
  {
  }

  /** The letters before the ones that go one state each: one, or two for PUT. */
  lemma VerbStart(d: Table, buf: Text, v: Method, w: Text, s: nat, n: nat)
    requires RequestAt(d) && w == Word(v) && At(buf, 0, w) && s == Entry(v).0 && n == if v == PUT then 2 else 1
    requires n <= |w|
    ensures Run(d, START, buf, 0, n) == START.(cs := s)
  {
    VerbEdges(v);
    AtIndex(buf, 0, w, 0);
    var t := if v == PUT then 70 else s;
    StepQuiet(d, START, buf, 0, t);
    if v == PUT {
      AtIndex(buf, 0, w, 1);
      var q, r := START.(cs := 70), START.(cs := 74);
      StepQuiet(d, q, buf, 1, 74);
      Compose(d, START, buf, 0, 1, 2, q, r);
    }
  }

  lemma VerbRun(d: Table, buf: Text, v: Method) returns (r: State)
    requires RequestAt(d) && At(buf, 0, Word(v) + [SP])
    ensures Run(d, START, buf, 0, |Word(v)| + 1) == r
    ensures r == START.(cs := 9, writes := NO_WRITES.(verb := Some(v)))
  {
    AtSplit(buf, 0, Word(v), [SP]);
    AtIndex(buf, |Word(v)|, [SP], 0);
    VerbEdges(v);
    r := VerbTail(d, buf, v, Word(v), Entry(v).0, Entry(v).1);
  }

  lemma VerbWalk(d: Table, buf: Text, v: Method, w: Text, s: nat, n: nat) returns (r: State)
    requires RequestAt(d) && w == Word(v) && At(buf, 0, w) && (s, n) == Entry(v)
    requires |w| == n + (if v == PUT then 2 else 1)
    ensures Run(d, START, buf, 0, |w|) == r == START.(cs := s + n)
  {
    var m := |w| - n;
    VerbStart(d, buf, v, w, s, m);
    forall i | 0 <= i < n
      ensures Advances(d, s, buf, m, i)
    {
      LetterAdvances(v, i);
      VerbEdges(v);
      AtIndex(buf, 0, w, m + i);
    }
    Walk(d, START.(cs := s), buf, m, n);
    r := START.(cs := s + n);
    Compose(d, START, buf, 0, m, |w|, START.(cs := s), r);
  }

  lemma VerbTail(d: Table, buf: Text, v: Method, w: Text, s: nat, n: nat) returns (r: State)
    requires RequestAt(d) && w == Word(v) && At(buf, 0, w) && (s, n) == Entry(v)
    requires |w| == n + (if v == PUT then 2 else 1) && |w| < |buf| && buf[|w|] == SP
    requires MethodDelta(s + n, SP) == Goto(9, [SetMethod(v)]) && !InUri(s + n) && !(22 <= s + n <= 48)
    ensures Run(d, START, buf, 0, |w| + 1) == r
    ensures r == START.(cs := 9, writes := NO_WRITES.(verb := Some(v)))
  {
    var e := |w|;
    var q := VerbWalk(d, buf, v, w, s, n);
    StepOne(d, q, buf, e, 9, SetMethod(v));
    r := Perform(q.(cs := 9), SetMethod(v), buf, e);
    Compose(d, START, buf, 0, e, e + 1, q, r);
  }

  // The URI

  /** In the URI, past its first character: only the URI's end and the version may have changed. */
  ghost predicate UriState(d: Table, st: State, buf: Text, p: nat, from: nat, verb: Method) {
    && RequestAt(d) && InUri(st.cs) && st.cs != 9 && st.verdict == 0
    && st.marks == NO_MARKS.(uriStart := from, uriEnd := st.marks.uriEnd)
    && st.writes == NO_WRITES.(verb := Some(verb), version := st.writes.version)
    && 0 < p <= |buf| && (st.cs == 11 || st.cs == 21 ==> buf[p - 1] == CR)
  }

  lemma UriNext(d: Table, st: State, buf: Text, p: nat, from: nat, verb: Method) returns (r: State)
    requires UriState(d, st, buf, p, from, verb) && p < |buf| && 0 <= buf[p] <= 127
    requires !(buf[p - 1] == CR && buf[p] == LF)
    ensures Run(d, st, buf, p, p + 1) == r && UriState(d, r, buf, p + 1, from, verb)
  {
    var g := UriDelta(st.cs, buf[p]);
    if g.acts == [] {
      StepQuiet(d, st, buf, p, g.to);
      r := st.(cs := g.to);
    } else {
      StepOne(d, st, buf, p, g.to, g.acts[0]);
      r := Perform(st.(cs := g.to), g.acts[0], buf, p);
    }
  }

  lemma {:induction false} UriRun(d: Table, st: State, buf: Text, p: nat, uri: Text, n: nat, verb: Method) returns (r: State)
    requires RequestAt(d) && st == START.(cs := 9, writes := NO_WRITES.(verb := Some(verb)))
    requires At(buf, p, uri) && UriOk(uri) && 1 <= n <= |uri|
    ensures Run(d, st, buf, p, p + n) == r && UriState(d, r, buf, p + n, p, verb)
    decreases n
  {
    AtIndex(buf, p, uri, n - 1);
    if n == 1 {
      var g := UriDelta(9, buf[p]);
      if buf[p] == SP {
        StepTwo(d, st, buf, p, 12, StartUri, EndUri);
        r := Perform(Perform(st.(cs := 12), StartUri, buf, p), EndUri, buf, p);
      } else {
        StepOne(d, st, buf, p, g.to, StartUri);
        r := Perform(st.(cs := g.to), StartUri, buf, p);
      }
    } else {
      var q := UriRun(d, st, buf, p, uri, n - 1, verb);
      AtIndex(buf, p, uri, n - 2);
      r := UriNext(d, q, buf, p + n - 1, p, verb);
      Compose(d, st, buf, p, p + n - 1, p + n, q, r);
    }
  }

  /** The URI and the space after it, whether or not the URI is empty. */
  lemma UriEnd(d: Table, st: State, buf: Text, p: nat, uri: Text, verb: Method) returns (r: State)
    requires RequestAt(d) && st == START.(cs := 9, writes := NO_WRITES.(verb := Some(verb)))
    requires At(buf, p, uri + [SP]) && UriOk(uri)
    ensures Run(d, st, buf, p, p + |uri| + 1) == r && UriState(d, r, buf, p + |uri| + 1, p, verb)
    ensures r.cs == 12 && r.marks.uriEnd == p + |uri|
  {
    AtSplit(buf, p, uri, [SP]);
    var e := p + |uri|;
    AtIndex(buf, e, [SP], 0);
    if uri == [] {
      var g := UriDelta(9, SP);
      StepTwo(d, st, buf, p, 12, StartUri, EndUri);
      r := Perform(Perform(st.(cs := 12), StartUri, buf, p), EndUri, buf, p);
    } else {
      var q := UriRun(d, st, buf, p, uri, |uri|, verb);
      var g := UriDelta(q.cs, SP);
      StepOne(d, q, buf, e, 12, EndUri);
      r := Perform(q.(cs := 12), EndUri, buf, e);
      Compose(d, st, buf, p, e, e + 1, q, r);
    }
  }

  /** The protocol at the end of the request line. */
  lemma ProtocolRun(d: Table, st: State, buf: Text, p: nat, from: nat, verb: Method, v: Version) returns (r: State)
    requires UriState(d, st, buf, p, from, verb) && st.cs == 12 && At(buf, p, Protocol(v) + [CR, LF])
    ensures Run(d, st, buf, p, p + 10) == r
    ensures r == st.(cs := 22, writes := st.writes.(version := Some(v)))
  {
    AtSplit(buf, p, Protocol(v), [CR, LF]);
    AtIndex(buf, p + 8, [CR, LF], 0);
    AtIndex(buf, p + 8, [CR, LF], 1);
    forall i | 0 <= i < 7
      ensures Advances(d, 12, buf, p, i)
    {
      AtIndex(buf, p, Protocol(v), i);
      var g := UriDelta(12 + i, buf[p + i]);
    }
    Walk(d, st, buf, p, 7);
    var q := st.(cs := 19);
    r := ProtocolEnd(d, q, buf, p + 7, v);
    Compose(d, st, buf, p, p + 7, p + 10, q, r);
  }

  lemma ProtocolEnd(d: Table, q: State, buf: Text, p: nat, v: Version) returns (r: State)
    requires RequestAt(d) && q.cs == 19 && q.verdict == 0 && p + 2 < |buf|
    requires buf[p] == (if v == V10 then 48 else 49) && buf[p + 1] == CR && buf[p + 2] == LF
    ensures Run(d, q, buf, p, p + 3) == r
    ensures r == q.(cs := 22, writes := q.writes.(version := Some(v)))
  {
    var s := if v == V10 then 20 else 49;
    var g := UriDelta(19, buf[p]);
    StepQuiet(d, q, buf, p, s);
    var q1 := q.(cs := s);
    var g1 := UriDelta(s, CR);
    StepOne(d, q1, buf, p + 1, 21, SetVersion(v));
    var q2 := Perform(q1.(cs := 21), SetVersion(v), buf, p + 1);
    Compose(d, q, buf, p, p + 1, p + 2, q1, q2);
    var g2 := UriDelta(21, LF);
    StepQuiet(d, q2, buf, p + 2, 22);
    r := q2.(cs := 22);
    Compose(d, q, buf, p, p + 2, p + 3, q2, r);
  }

  function RequestHead(verb: Method, uri: Text, version: Version, hs: Headers): Text {
    RequestLine(verb, uri, version) + PrintHeaders(hs) + [CR, LF]
  }

  lemma RequestLineParts(buf: Text, verb: Method, uri: Text, version: Version)
    requires At(buf, 0, RequestLine(verb, uri, version))
    ensures var n := |Word(verb)| + 1;
      && At(buf, 0, Word(verb) + [SP]) && At(buf, n, uri + [SP]) && At(buf, n + |uri| + 1, Protocol(version) + [CR, LF])
      && |RequestLine(verb, uri, version)| == n + |uri| + 11
  {
    var w, u, t := Word(verb) + [SP], uri + [SP], Protocol(version) + [CR, LF];
    assert RequestLine(verb, uri, version) == w + u + t;
    AtSplit(buf, 0, w + u, t);
    AtSplit(buf, 0, w, u);
  }

  lemma RequestLineRun(d: Table, buf: Text, verb: Method, uri: Text, version: Version) returns (r: State)
    requires RequestAt(d) && At(buf, 0, RequestLine(verb, uri, version)) && UriOk(uri)
    ensures Run(d, START, buf, 0, |RequestLine(verb, uri, version)|) == r
    ensures r.cs == 22 && r.verdict == 0
    ensures r.marks == NO_MARKS.(uriStart := |Word(verb)| + 1, uriEnd := |Word(verb)| + 1 + |uri|)
    ensures r.writes == NO_WRITES.(verb := Some(verb), version := Some(version))
  {
    RequestLineParts(buf, verb, uri, version);
    var n := |Word(verb)| + 1;
    var e := n + |uri| + 1;
    var q := VerbRun(d, buf, verb);
    var q1 := UriEnd(d, q, buf, n, uri, verb);
    Compose(d, START, buf, 0, n, e, q, q1);
    r := ProtocolRun(d, q1, buf, e, n, verb, version);
    Compose(d, START, buf, 0, e, e + 10, q1, r);
  }

  /** From the first header line to the end of the head. */
  lemma TailRun(d: Table, b: nat, st: State, buf: Text, p: nat, hs: Headers) returns (m: Marks, r: State)
    requires HeadAt(d, b) && st.cs == b && st.verdict == 0 && st.writes.headers == map[]
    requires At(buf, p, PrintHeaders(hs) + [CR, LF]) && HeadersOk(hs) && LengthMarked(st.marks, buf, p, None)
    ensures var e := p + |PrintHeaders(hs)|;
      && (LengthsOk(hs) ==> LengthMarked(m, buf, e, LastLength(hs)))
      && m == st.marks.(clStart := m.clStart, clEnd := m.clEnd, hdStart := m.hdStart, hdEnd := m.hdEnd, valStart := m.valStart)
      && Run(d, st, buf, p, e + 2) == r
      && r == Perform(State(FinalOf(b), 0, m, st.writes.(headers := AddAll(map[], hs))), Accept, buf, e + 1)
  {
    AtSplit(buf, p, PrintHeaders(hs), [CR, LF]);
    var e := p + |PrintHeaders(hs)|;
    AtIndex(buf, e, [CR, LF], 0);
    AtIndex(buf, e, [CR, LF], 1);
    var q := HeadersRun(d, b, st, buf, p, hs);
    m := q.marks;
    r := BlankLine(d, b, q, buf, e);
    Compose(d, st, buf, p, e, e + 2, q, r);
  }

  lemma Stopped(d: Table, buf: Text, p: nat, r: State)
    requires p <= |buf| && Run(d, START, buf, 0, p) == r && r.verdict != 0
    ensures Parse(d, buf) == r
  {
    RunSplit(d, START, buf, 0, p, |buf|);
  }

  function LengthOf(hs: Headers): Option<nat> {
    match LastLength(hs)
    case None => None
    case Some(s) => Some(Atoi(s))
  }

  lemma UriStands(buf: Text, verb: Method, uri: Text, version: Version)
    requires At(buf, 0, RequestLine(verb, uri, version))
    ensures Slice(buf, |Word(verb)| + 1, |Word(verb)| + 1 + |uri|) == uri
  {
    RequestLineParts(buf, verb, uri, version);
    AtSplit(buf, |Word(verb)| + 1, uri, [SP]);
  }

  /** The head as a whole, once its first line `line` has been read into state `q`. */
  lemma WholeHead(d: Table, b: nat, buf: Text, line: Text, q: State, hs: Headers) returns (r: State)
    requires HeadAt(d, b) && At(buf, 0, line + (PrintHeaders(hs) + [CR, LF])) && HeadersOk(hs)
    requires Run(d, START, buf, 0, |line|) == q && q.cs == b && q.verdict == 0
    requires q.writes.headers == map[] && q.writes.contentLength == None && LengthMarked(q.marks, buf, |line|, None)
    ensures Parse(d, buf) == r && r.verdict == 1
    ensures var e := |line| + |PrintHeaders(hs)| + 1;
      r.writes == q.writes.(
        headers := AddAll(map[], hs),
        uri := if q.marks.uriStart >= 0 then Some((q.marks.uriStart, q.marks.uriEnd)) else q.writes.uri,
        code := if q.marks.codeStart >= 0 then Some(Atoi(Slice(buf, q.marks.codeStart, e))) else q.writes.code,
        msg := if q.marks.msgStart >= 0 then Some((q.marks.msgStart, q.marks.msgEnd)) else q.writes.msg,
        contentLength := r.writes.contentLength,
        length := Some(e + 1))
    ensures LengthsOk(hs) ==> r.writes.contentLength == LengthOf(hs)
  {
    var n := |line|;
    AtSplit(buf, 0, line, PrintHeaders(hs) + [CR, LF]);
    var m;
    m, r := TailRun(d, b, q, buf, n, hs);
    var e := n + |PrintHeaders(hs)| + 1;
    Compose(d, START, buf, 0, n, e + 1, q, r);
    Stopped(d, buf, e + 1, r);
    if LengthsOk(hs) && LastLength(hs).Some? {
      LengthRead(m, buf, e, LastLength(hs).value);
    }
  }

  lemma RequestRead(d: Table, buf: Text, verb: Method, uri: Text, version: Version, hs: Headers) returns (r: State)
    requires HeadAt(d, 22) && RequestAt(d) && At(buf, 0, RequestHead(verb, uri, version, hs))
    requires UriOk(uri) && HeadersOk(hs)
    ensures Parse(d, buf) == r && r.verdict == 1
    ensures var from := |Word(verb)| + 1;
      r.writes == Writes(Some(verb), Some(version), AddAll(map[], hs), Some((from, from + |uri|)),
                         None, None, r.writes.contentLength, Some(|RequestHead(verb, uri, version, hs)|))
    ensures LengthsOk(hs) ==> r.writes.contentLength == LengthOf(hs)
  {
    var line, t := RequestLine(verb, uri, version), PrintHeaders(hs) + [CR, LF];
    assert RequestHead(verb, uri, version, hs) == line + t;
    AtSplit(buf, 0, line, t);
    var q := RequestLineRun(d, buf, verb, uri, version);
    r := WholeHead(d, 22, buf, line, q, hs);
  }

  /** Parsing a printed request, whatever follows it, gives back all that was printed. */
  lemma RequestRoundTrip(verb: Method, uri: Text, version: Version, hs: Headers, rest: Text) returns (r: State)
    requires UriOk(uri) && HeadersOk(hs)
    ensures r == Parse(Reader(Request), RequestHead(verb, uri, version, hs) + rest)
    ensures r.verdict == 1
    ensures r.writes.verb == Some(verb) && r.writes.version == Some(version)
    ensures r.writes.uri.Some? && var (from, to) := r.writes.uri.value;
      Slice(RequestHead(verb, uri, version, hs) + rest, from, to) == uri
    ensures r.writes.headers == AddAll(map[], hs) && (LengthsOk(hs) ==> r.writes.contentLength == LengthOf(hs))
    ensures r.writes.length == Some(|RequestHead(verb, uri, version, hs)|)
  {
    var head := RequestHead(verb, uri, version, hs);
    var buf := head + rest;
    assert At(buf, 0, head);
    ReaderHead(Request);
    ReaderRequest();
    r := RequestRead(Reader(Request), buf, verb, uri, version, hs);
    AtSplit(buf, 0, RequestLine(verb, uri, version), PrintHeaders(hs) + [CR, LF]) by {
      assert head == RequestLine(verb, uri, version) + (PrintHeaders(hs) + [CR, LF]);
    }
    UriStands(buf, verb, uri, version);
  }

  // Responses

  /** The three digits of a status code. */
  function Dec3(code: nat): Text {
    [48 + code / 100 % 10, 48 + code / 10 % 10, 48 + code % 10]
  }

  function StatusLine(version: Version, code: nat, msg: Text): Text {
    Protocol(version) + [SP] + Dec3(code) + [SP] + msg + [CR, LF]
  }

  predicate MsgOk(msg: Text) {
    LineOk(msg)
  }

  ghost predicate StatusAt(d: Table) {
    forall cs: nat, c: int {:trigger StatusDelta(cs, c)} :: !(17 <= cs <= 43) && 0 <= c <= 127 ==>
      d(cs, c) == StatusDelta(cs, c)
  }

  lemma ReaderStatus()
    ensures StatusAt(Reader(Response))
  {
  }

  lemma VersionRun(d: Table, buf: Text, v: Version) returns (r: State)
    requires StatusAt(d) && At(buf, 0, Protocol(v) + [SP])
    ensures Run(d, START, buf, 0, 9) == r
    ensures r == START.(cs := 10, writes := NO_WRITES.(version := Some(v)))
  {
    AtSplit(buf, 0, Protocol(v), [SP]);
    AtIndex(buf, 8, [SP], 0);
    AtIndex(buf, 0, Protocol(v), 7);
    forall i | 0 <= i < 7
      ensures Advances(d, 1, buf, 0, i)
    {
      AtIndex(buf, 0, Protocol(v), i);
      var g := StatusDelta(1 + i, buf[i]);
    }
    Walk(d, START, buf, 0, 7);
    var s := if v == V10 then 9 else 44;
    var q, q1 := START.(cs := 8), START.(cs := s);
    var g := StatusDelta(8, buf[7]);
    StepQuiet(d, q, buf, 7, s);
    Compose(d, START, buf, 0, 7, 8, q, q1);
    var g1 := StatusDelta(s, SP);
    StepOne(d, q1, buf, 8, 10, SetVersion(v));
    r := Perform(q1.(cs := 10), SetVersion(v), buf, 8);
    Compose(d, START, buf, 0, 8, 9, q1, r);
  }

  lemma CodeRun(d: Table, st: State, buf: Text, p: nat, code: nat) returns (r: State)
    requires StatusAt(d) && st.cs == 10 && st.verdict == 0 && At(buf, p, Dec3(code) + [SP])
    ensures Run(d, st, buf, p, p + 4) == r
    ensures r == st.(cs := 14, marks := st.marks.(codeStart := p))
  {
    var w := Dec3(code) + [SP];
    AtIndex(buf, p, w, 0);
    var g := StatusDelta(10, buf[p]);
    StepOne(d, st, buf, p, 11, StartCode);
    var q := st.(cs := 11, marks := st.marks.(codeStart := p));
    var p1 := p + 1;
    forall i | 0 <= i < 3
      ensures Advances(d, 11, buf, p1, i)
    {
      AtIndex(buf, p, w, i + 1);
      var g := StatusDelta(11 + i, buf[p1 + i]);
    }
    Walk(d, q, buf, p1, 3);
    r := q.(cs := 14);
    Compose(d, st, buf, p, p1, p + 4, q, r);
  }

  /** In the message: only its end may have changed. */
  ghost predicate InMsg(st: State, r: State, buf: Text, p: nat, from: nat) {
    && 0 < p <= |buf| && r.verdict == 0 && r.cs == (if buf[p - 1] == CR then 16 else 15)
    && r.marks == st.marks.(msgStart := from, msgEnd := r.marks.msgEnd) && r.writes == st.writes
  }

  lemma MsgFirst(d: Table, st: State, buf: Text, p: nat) returns (r: State)
    requires StatusAt(d) && st.cs == 14 && st.verdict == 0 && p < |buf| && 0 <= buf[p] <= 127
    ensures Run(d, st, buf, p, p + 1) == r && InMsg(st, r, buf, p + 1, p) && (buf[p] == CR ==> r.marks.msgEnd == p)
  {
    var g := StatusDelta(14, buf[p]);
    if buf[p] == CR {
      StepTwo(d, st, buf, p, 16, StartMsg, EndMsg);
    } else {
      StepOne(d, st, buf, p, 15, StartMsg);
    }
    r := Run(d, st, buf, p, p + 1);
  }

  lemma MsgNext(d: Table, st: State, q: State, buf: Text, p: nat, from: nat) returns (r: State)
    requires StatusAt(d) && InMsg(st, q, buf, p, from) && p < |buf| && 0 <= buf[p] <= 127
    requires !(buf[p - 1] == CR && buf[p] == LF)
    ensures Run(d, q, buf, p, p + 1) == r && InMsg(st, r, buf, p + 1, from) && (buf[p] == CR ==> r.marks.msgEnd == p)
  {
    var g := StatusDelta(q.cs, buf[p]);
    if buf[p] == CR {
      StepOne(d, q, buf, p, 16, EndMsg);
    } else {
      StepQuiet(d, q, buf, p, 15);
    }
    r := Run(d, q, buf, p, p + 1);
  }

  lemma {:induction false} MsgRun(d: Table, st: State, buf: Text, p: nat, msg: Text, n: nat) returns (r: State)
    requires StatusAt(d) && st.cs == 14 && st.verdict == 0 && At(buf, p, msg) && MsgOk(msg) && 1 <= n <= |msg|
    ensures Run(d, st, buf, p, p + n) == r && InMsg(st, r, buf, p + n, p)
    decreases n
  {
    AtIndex(buf, p, msg, n - 1);
    if n == 1 {
      r := MsgFirst(d, st, buf, p);
    } else {
      var q := MsgRun(d, st, buf, p, msg, n - 1);
      AtIndex(buf, p, msg, n - 2);
      r := MsgNext(d, st, q, buf, p + n - 1, p);
      Compose(d, st, buf, p, p + n - 1, p + n, q, r);
    }
  }

  lemma MsgEnd(d: Table, st: State, buf: Text, p: nat, msg: Text) returns (r: State)
    requires StatusAt(d) && st.cs == 14 && st.verdict == 0 && At(buf, p, msg + [CR, LF]) && MsgOk(msg)
    ensures Run(d, st, buf, p, p + |msg| + 2) == r
    ensures r == st.(cs := 17, marks := st.marks.(msgStart := p, msgEnd := p + |msg|))
  {
    AtSplit(buf, p, msg, [CR, LF]);
    var e := p + |msg|;
    AtIndex(buf, e, [CR, LF], 0);
    AtIndex(buf, e, [CR, LF], 1);
    var q;
    if msg == [] {
      q := MsgFirst(d, st, buf, p);
    } else {
      var q0 := MsgRun(d, st, buf, p, msg, |msg|);
      q := MsgNext(d, st, q0, buf, e, p);
      Compose(d, st, buf, p, e, e + 1, q0, q);
    }
    var g1 := StatusDelta(16, LF);
    StepQuiet(d, q, buf, e + 1, 17);
    r := q.(cs := 17);
    Compose(d, st, buf, p, e + 1, e + 2, q, r);
  }

  lemma StatusLineRun(d: Table, buf: Text, version: Version, code: nat, msg: Text) returns (r: State)
    requires StatusAt(d) && At(buf, 0, StatusLine(version, code, msg)) && MsgOk(msg)
    ensures Run(d, START, buf, 0, |StatusLine(version, code, msg)|) == r
    ensures r == State(17, 0, NO_MARKS.(codeStart := 9, msgStart := 13, msgEnd := 13 + |msg|),
                       NO_WRITES.(version := Some(version)))
  {
    var w, c, t := Protocol(version) + [SP], Dec3(code) + [SP], msg + [CR, LF];
    assert StatusLine(version, code, msg) == w + c + t;
    AtSplit(buf, 0, w + c, t);
    AtSplit(buf, 0, w, c);
    var q := VersionRun(d, buf, version);
    var q1 := CodeRun(d, q, buf, 9, code);
    Compose(d, START, buf, 0, 9, 13, q, q1);
    r := MsgEnd(d, q1, buf, 13, msg);
    Compose(d, START, buf, 0, 13, 13 + |t|, q1, r);
  }

  lemma ThreeDigits(a: nat, b: nat, c: nat)
    requires a < 10 && b < 10 && c < 10
    ensures Digits([48 + a, 48 + b, 48 + c], 0) == 100 * a + 10 * b + c
  {
    var s, t, u := [48 + a, 48 + b, 48 + c], [48 + b, 48 + c], [48 + c];
    assert s[1..] == t && t[1..] == u && u[1..] == [];
    assert Digits(u, 10 * a + b) == Digits([], 100 * a + 10 * b + c);
    assert Digits(t, a) == Digits(u, 10 * a + b);
  }

  lemma ThreeParts(n: nat, a: nat, b: nat, c: nat)
    requires n <= 999 && a == n / 100 % 10 && b == n / 10 % 10 && c == n % 10
    ensures 100 * a + 10 * b + c == n
  {
    assert n / 100 < 10 && n / 10 / 10 == n / 100;
  }

  lemma CodeRead(code: nat, rest: Text)
    requires 100 <= code <= 999 && (rest == [] || !IsDigit(rest[0]))
    ensures Atoi(Dec3(code) + rest) == code
  {
    var a, b, c := code / 100 % 10, code / 10 % 10, code % 10;
    ThreeParts(code, a, b, c);
    ThreeDigits(a, b, c);
    DigitsStop([48 + a, 48 + b, 48 + c], rest, 0);
  }

  function ResponseHead(version: Version, code: nat, msg: Text, hs: Headers): Text {
    StatusLine(version, code, msg) + PrintHeaders(hs) + [CR, LF]
  }

  lemma ResponseRead(d: Table, buf: Text, version: Version, code: nat, msg: Text, hs: Headers) returns (r: State)
    requires HeadAt(d, 17) && StatusAt(d) && At(buf, 0, ResponseHead(version, code, msg, hs))
    requires 100 <= code <= 999 && MsgOk(msg) && HeadersOk(hs)
    ensures Parse(d, buf) == r && r.verdict == 1
    ensures r.writes == Writes(None, Some(version), AddAll(map[], hs), None, Some(code), Some((13, 13 + |msg|)),
                               r.writes.contentLength, Some(|ResponseHead(version, code, msg, hs)|))
    ensures LengthsOk(hs) ==> r.writes.contentLength == LengthOf(hs)
  {
    var line, t := StatusLine(version, code, msg), PrintHeaders(hs) + [CR, LF];
    assert ResponseHead(version, code, msg, hs) == line + t;
    AtSplit(buf, 0, line, t);
    var q := StatusLineRun(d, buf, version, code, msg);
    r := WholeHead(d, 17, buf, line, q, hs);
    CodeStands(buf, version, code, msg, |line + t| - 1);
  }

  lemma CodeStands(buf: Text, version: Version, code: nat, msg: Text, e: nat)
    requires At(buf, 0, StatusLine(version, code, msg)) && 100 <= code <= 999 && 13 <= e <= |buf|
    ensures Atoi(Slice(buf, 9, e)) == code
  {
    var w, c, t := Protocol(version) + [SP], Dec3(code), [SP] + msg + [CR, LF];
    assert StatusLine(version, code, msg) == w + c + t;
    AtSplit(buf, 0, w + c, t);
    AtSplit(buf, 0, w, c);
    AtIndex(buf, 12, t, 0);
    var s := Slice(buf, 9, e);
    assert s == c + s[3..];
    CodeRead(code, s[3..]);
  }

  lemma MsgStands(buf: Text, version: Version, code: nat, msg: Text)
    requires At(buf, 0, StatusLine(version, code, msg))
    ensures Slice(buf, 13, 13 + |msg|) == msg
  {
    var w := Protocol(version) + [SP] + Dec3(code) + [SP];
    AtSplit(buf, 0, w + msg, [CR, LF]);
    AtSplit(buf, 0, w, msg);
  }

  /** Parsing a prepared response, whatever follows it, gives back all that was printed. */
  lemma ResponseRoundTrip(version: Version, code: nat, msg: Text, hs: Headers, rest: Text) returns (r: State)
    requires 100 <= code <= 999 && MsgOk(msg) && HeadersOk(hs)
    ensures r == Parse(Reader(Response), ResponseHead(version, code, msg, hs) + rest)
    ensures r.verdict == 1
    ensures r.writes.version == Some(version) && r.writes.code == Some(code)
    ensures r.writes.msg.Some? && var (from, to) := r.writes.msg.value;
      Slice(ResponseHead(version, code, msg, hs) + rest, from, to) == msg
    ensures r.writes.headers == AddAll(map[], hs) && (LengthsOk(hs) ==> r.writes.contentLength == LengthOf(hs))
    ensures r.writes.length == Some(|ResponseHead(version, code, msg, hs)|)
  {
    var head := ResponseHead(version, code, msg, hs);
    var buf := head + rest;
    assert At(buf, 0, head);
    ReaderHead(Response);
    ReaderStatus();
    r := ResponseRead(Reader(Response), buf, version, code, msg, hs);
    AtSplit(buf, 0, StatusLine(version, code, msg), PrintHeaders(hs) + [CR, LF]) by {
      assert head == StatusLine(version, code, msg) + (PrintHeaders(hs) + [CR, LF]);
    }
    MsgStands(buf, version, code, msg);
  }
}
