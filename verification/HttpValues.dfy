/** Which header values come back. */
module HttpValues {
  import opened Wrappers
  import opened HttpMachine
  import opened HttpHeaders
  import opened HttpParse
  import opened HttpRoundTrip
  import opened HttpStream
  import opened HttpGrammar
  import opened HttpLines

  /** If a line breaks at `i`, what follows can still continue it. */
  predicate Continuable(s: Text, i: nat) {
    BreaksAt(s, i) ==> (i + 2 < |s| ==> IsBlank(s[i + 2])) && !BreaksAt(s, i + 3)
  }

  /** What has been read of a value can still become a good one. */
  predicate OkSoFar(s: Text) {
    forall i :: 0 <= i < |s| ==> 0 < s[i] <= 127 && Continuable(s, i)
  }

  lemma OkIsValue(s: Text)
    requires OkSoFar(s) && s != [] && Tail(s, |s|) != 7 && Tail(s, |s|) != 8
    ensures ValueOk(s)
  {
    forall i | 0 <= i < |s|
      ensures 0 < s[i] <= 127 && Continued(s, i)
    {
      assert Continuable(s, i);
    }
  }

  lemma OkGrows(s: Text, c: int)
    requires OkSoFar(s) && s != [] && 0 < c <= 127 && (Tail(s, |s|) == 7 ==> IsBlank(c)) && !(Tail(s, |s|) == 9 && c == LF)
    ensures OkSoFar(s + [c])
  {
    var t, n := s + [c], |s|;
    forall i | 0 <= i < |t|
      ensures 0 < t[i] <= 127 && Continuable(t, i)
    {
      if i < n {
        assert 0 < s[i] <= 127 && Continuable(s, i);
      }
    }
  }

  lemma TailGrows(s: Text, c: int)
    requires s != [] && OkSoFar(s) && (Tail(s, |s|) == 7 ==> IsBlank(c)) && HeadDelta(Tail(s, |s|), c) != FAIL
    ensures HeadDelta(Tail(s, |s|), c).to == Tail(s + [c], |s| + 1)
  {
    var t, n := s + [c], |s|;
    assert t[..n] == s && t[n] == c;
    assert n >= 4 ==> BreaksAt(t, n - 4) == BreaksAt(s, n - 4);
    assert n >= 3 ==> BreaksAt(t, n - 3) == BreaksAt(s, n - 3);
    assert n >= 2 ==> BreaksAt(t, n - 2) == BreaksAt(s, n - 2) && Continuable(s, n - 2);
  }

  lemma DigitsAreOk(s: Text)
    requires forall i :: 0 <= i < |s| ==> IsDigit(s[i])
    ensures OkSoFar(s) && Tail(s, |s|) == 5
  {
  }

  // The states inside a value

  predicate InValueState(h: nat) {
    5 <= h <= 9 || h == 26
  }

  /** In such a state, with a value that starts at `vs`. */
  ghost predicate ReadingValue(h: nat, vs: int, buf: Text, p: nat) {
    && 0 <= vs < p <= |buf| && OkSoFar(buf[vs..p])
    && if h == 26 then DigitsTo(buf, vs, p) else Tail(buf[vs..p], p - vs) == h
  }

  ghost predicate ValueKnown(k: Kind, cs: nat, vs: int, buf: Text, p: nat) {
    Heading(k, cs) && InValueState(cs - Base(k)) ==> ReadingValue(cs - Base(k), vs, buf, p)
  }

  lemma ValueDelta(h: nat, c: int)
    requires h <= 26 && HeadDelta(h, c) != FAIL && HeadDelta(h, c).acts != [Accept]
    ensures var g := HeadDelta(h, c);
      && (StartValue in g.acts <==> h == 4 || h == 25)
      && (EndValue in g.acts ==>
           || (g.acts == [EndValue] && (h == 5 || h == 6 || h == 9))
           || (g.acts == [EndValue, EndCl] && h == 26)
           || (g.acts == [StartValue, EndValue] && (h == 4 || h == 25)))
      && (InValueState(g.to) ==> InValueState(h) || h == 4 || h == 25)
      && (InValueState(g.to) && h == 7 ==> IsBlank(c))
      && (h == 4 || h == 25 ==> g.to == (if c == CR then 6 else if h == 25 && IsDigit(c) then 26 else 5))
      && (h == 26 ==> g.to == (if c == CR then 6 else if IsDigit(c) then 26 else 5))
      && !(h == 9 && c == LF)
  {
  }

  lemma ValueBegins(buf: Text, p: nat, h: nat)
    requires p < |buf| && 0 < buf[p] <= 127
    requires (h == 26 && IsDigit(buf[p])) || h == if buf[p] == CR then 6 else 5
    ensures ReadingValue(h, p, buf, p + 1)
  {
    assert buf[p..p + 1] == [buf[p]];
  }

  lemma ValueGoesOn(h: nat, vs: int, buf: Text, p: nat)
    requires ReadingValue(h, vs, buf, p) && p < |buf| && 0 < buf[p] <= 127 && InValueState(h)
    requires h <= 26 && HeadDelta(h, buf[p]) != FAIL && HeadDelta(h, buf[p]).acts != [Accept]
    requires InValueState(HeadDelta(h, buf[p]).to)
    ensures ReadingValue(HeadDelta(h, buf[p]).to, vs, buf, p + 1)
  {
    var c, s := buf[p], buf[vs..p];
    ValueDelta(h, c);
    assert buf[vs..p + 1] == s + [c];
    if h == 26 {
      DigitsAreOk(s);
    }
    OkGrows(s, c);
    if h != 26 || !IsDigit(c) {
      TailGrows(s, c);
    }
  }

  lemma ValueStep(k: Kind, cs: nat, vs: int, buf: Text, p: nat)
    requires p < |buf| && 0 !in buf && ValueKnown(k, cs, vs, buf, p)
    requires Delta(k, cs, buf[p]) != FAIL && Delta(k, cs, buf[p]).acts != [Accept]
    ensures var g := Delta(k, cs, buf[p]); ValueKnown(k, g.to, Marked(vs, StartValue, g.acts, p), buf, p + 1)
  {
    var g := Delta(k, cs, buf[p]);
    if Heading(k, cs) {
      HeadingDelta(k, cs, buf[p]);
      var h := cs - Base(k);
      ValueDelta(h, buf[p]);
      if h == 4 || h == 25 {
        ValueBegins(buf, p, g.to - Base(k));
      } else if InValueState(g.to - Base(k)) {
        ValueGoesOn(h, vs, buf, p);
      }
    } else {
      FirstDelta(k, cs, buf[p]);
    }
  }

  // The headers

  ghost predicate AllFit(headers: map<Text, Text>) {
    forall key :: key in headers ==> ValueOk(headers[key])
  }

  lemma {:induction false} KeepsHeaders(st: State, acts: seq<Act>, buf: Text, p: nat)
    requires EndValue !in acts && st.verdict == 0
    ensures PerformAll(st, acts, buf, p).writes.headers == st.writes.headers
    decreases |acts|
  {
    if acts != [] && st.verdict == 0 {
      var q := Perform(st, acts[0], buf, p);
      if q.verdict == 0 {
        KeepsHeaders(q, acts[1..], buf, p);
      }
    }
  }

  /** EndValue with a good value or none. */
  lemma EndFits(st: State, buf: Text, p: nat)
    requires AllFit(st.writes.headers) && 0 !in buf
    requires var s := Slice(buf, st.marks.valStart, p); s == [] || ValueOk(s)
    ensures AllFit(Perform(st, EndValue, buf, p).writes.headers)
  {
    var s := Slice(buf, st.marks.valStart, p);
    NoNul(s);
  }

  lemma TwoActs(st: State, a: Act, b: Act, buf: Text, p: nat)
    requires st.verdict == 0 && Verdict(a) == 0
    ensures PerformAll(st, [a, b], buf, p) == Perform(Perform(st, a, buf, p), b, buf, p)
  {
    assert [a, b][1..] == [b];
    OneAct(Perform(st, a, buf, p), b, buf, p);
  }

  lemma FitStep(k: Kind, st: State, buf: Text, p: nat)
    requires p < |buf| && 0 !in buf && st.verdict == 0 && ValueKnown(k, st.cs, st.marks.valStart, buf, p) && AllFit(st.writes.headers)
    requires Delta(k, st.cs, buf[p]) != FAIL && Delta(k, st.cs, buf[p]).acts != [Accept]
    ensures AllFit(Step(Reader(k), st, buf, p).writes.headers)
  {
    var g := Delta(k, st.cs, buf[p]);
    var at := st.(cs := g.to);
    if !Heading(k, st.cs) {
      FirstDelta(k, st.cs, buf[p]);
      KeepsHeaders(at, g.acts, buf, p);
    } else {
      HeadingDelta(k, st.cs, buf[p]);
      var h := st.cs - Base(k);
      ValueDelta(h, buf[p]);
      if EndValue !in g.acts {
        KeepsHeaders(at, g.acts, buf, p);
      } else if g.acts == [StartValue, EndValue] {
        EndFits(Perform(at, StartValue, buf, p), buf, p);
        TwoActs(at, StartValue, EndValue, buf, p);
      } else {
        EndInside(h, st.marks.valStart, buf, p);
        EndFits(at, buf, p);
        if g.acts == [EndValue] {
          OneAct(at, EndValue, buf, p);
        } else {
          TwoActs(at, EndValue, EndCl, buf, p);
        }
      }
    }
  }

  lemma EndInside(h: nat, vs: int, buf: Text, p: nat)
    requires ReadingValue(h, vs, buf, p) && (h == 5 || h == 6 || h == 9 || h == 26)
    ensures ValueOk(Slice(buf, vs, p))
  {
    var s := buf[vs..p];
    if h == 26 {
      DigitsAreOk(s);
    }
    OkIsValue(s);
  }

  /** The headers of a head without NUL are all of this kind, and until it ends the run is known. */
  ghost predicate FitKnown(k: Kind, st: State, buf: Text, p: nat) {
    Known(k, st, buf, p) && ValueKnown(k, st.cs, st.marks.valStart, buf, p) && AllFit(st.writes.headers)
  }

  lemma FitKnownStep(k: Kind, st: State, buf: Text, p: nat)
    requires p < |buf| && 0 !in buf && FitKnown(k, st, buf, p)
    requires Delta(k, st.cs, buf[p]) != FAIL && Delta(k, st.cs, buf[p]).acts != [Accept]
    ensures FitKnown(k, Step(Reader(k), st, buf, p), buf, p + 1)
  {
    var g := Delta(k, st.cs, buf[p]);
    KnownStep(k, st, buf, p);
    FitStep(k, st, buf, p);
    ValueStep(k, st.cs, st.marks.valStart, buf, p);
    DeltaIsTame(k, st.cs, buf[p]);
    TameActs(st.(cs := g.to), g.acts, buf, p);
    ActsMark(st.(cs := g.to), g.acts, buf, p);
  }

  /** All values in the headers of a text without NUL are good ones. */
  lemma ParseFits(k: Kind, buf: Text)
    requires 0 !in buf
    ensures var r := Parse(Reader(k), buf); r.verdict == 1 ==> AllFit(r.writes.headers)
  {
    var d, inv := Reader(k), (st: State, p: nat) => FitKnown(k, st, buf, p);
    forall st: State, p: nat | p < |buf| && inv(st, p) && d(st.cs, buf[p]) != FAIL && d(st.cs, buf[p]).acts != [Accept]
      ensures inv(Step(d, st, buf, p), p + 1)
    {
      FitKnownStep(k, st, buf, p);
    }
    ReaderIsTamed(k);
    StartKnown(k, buf);
    var q, e := RunKeeps(d, inv, START, buf, 0);
  }

  // A head ends at the first empty line

  lemma EmptyLineEnds(k: Kind, st: State, buf: Text, p: nat)
    requires st.verdict == 0 && (st.cs == Base(k) || st.cs == Base(k) + 7) && BreaksAt(buf, p)
    ensures Run(Reader(k), st, buf, p, p + 2).verdict == 1
  {
    ReaderHead(k);
    var r := BlankLine(Reader(k), Base(k), st, buf, p);
  }

  lemma LineThenEmpty(k: Kind, front: Text, buf: Text)
    requires BreaksAt(front, |front| - 2) && buf == front + [CR, LF]
    ensures Parse(Reader(k), buf).verdict != 0
  {
    var d := Reader(k);
    ParseGoesOn(d, front, [CR, LF]);
    var q, e := ParseKnows(k, front);
    var st := Parse(d, front);
    if st.verdict == 0 {
      KnownAtLine(k, st, front);
      EmptyLineEnds(k, st, buf, |front|);
    }
  }

  /** A text that ends with an empty line gets a verdict. */
  lemma EmptyLineDecides(k: Kind, buf: Text)
    requires BreaksAt(buf, |buf| - 4) && BreaksAt(buf, |buf| - 2)
    ensures Parse(Reader(k), buf).verdict != 0
  {
    var front := buf[..|buf| - 2];
    assert buf == front + [CR, LF] && BreaksAt(front, |front| - 2);
    LineThenEmpty(k, front, buf);
  }

  lemma KnownAtLine(k: Kind, st: State, buf: Text)
    requires Known(k, st, buf, |buf|) && BreaksAt(buf, |buf| - 2)
    ensures st.cs == Base(k) || st.cs == Base(k) + 7
  {
  }

  // What comes back

  /** Headers that a caller can give: no empty values, and C strings. */
  ghost predicate Given(hs: Headers) {
    Listed(hs) && forall i :: 0 <= i < |hs| ==> KeyOk(hs[i].0) && hs[i].1 != [] && 0 !in hs[i].1
  }

  lemma {:induction false} PrintedBare(hs: Headers)
    requires forall i :: 0 <= i < |hs| ==> KeyOk(hs[i].0) && 0 !in hs[i].1
    ensures 0 !in PrintHeaders(hs)
  {
    if hs != [] {
      PrintedBare(hs[..|hs| - 1]);
    }
  }

  lemma PrintedEnds(line: Text, hs: Headers)
    requires BreaksAt(line, |line| - 2)
    ensures var s := line + PrintHeaders(hs) + [CR, LF]; BreaksAt(s, |s| - 4) && BreaksAt(s, |s| - 2)
  {
    var s := line + PrintHeaders(hs);
    if hs != [] {
      var front, last := line + PrintHeaders(hs[..|hs| - 1]), HeaderLine(hs[|hs| - 1].0, hs[|hs| - 1].1);
      assert s == front + last;
      assert last[|last| - 2] == CR && last[|last| - 1] == LF;
    }
  }

  lemma FitIsOk(hs: Headers, m: map<Text, Text>)
    requires Given(hs) && m == AddAll(map[], hs) && AllFit(m)
    ensures HeadersOk(hs)
  {
    AddAllLists(hs);
  }

  /** A text that is printed with given headers, and whatever follows it: if all of them come back, their
      values are good. */
  lemma BackMeansOk(k: Kind, line: Text, hs: Headers, rest: Text)
    requires BreaksAt(line, |line| - 2) && 0 !in line && Given(hs)
    requires var r := Parse(Reader(k), line + PrintHeaders(hs) + [CR, LF] + rest);
      r.verdict == 1 && r.writes.headers == AddAll(map[], hs)
    ensures HeadersOk(hs)
  {
    var head := line + PrintHeaders(hs) + [CR, LF];
    PrintedBare(hs);
    PrintedEnds(line, hs);
    EmptyLineDecides(k, head);
    ParseGoesOn(Reader(k), head, rest);
    ParseFits(k, head);
    FitIsOk(hs, Parse(Reader(k), head).writes.headers);
  }

  lemma RequestLineBare(verb: Method, uri: Text, version: Version)
    requires 0 !in uri
    ensures 0 !in RequestLine(verb, uri, version)
    ensures BreaksAt(RequestLine(verb, uri, version), |RequestLine(verb, uri, version)| - 2)
  {
    VerbEdges(verb);
    assert 0 !in Word(verb) && 0 !in Protocol(version);
  }

  lemma StatusLineBare(version: Version, code: nat, msg: Text)
    requires 0 !in msg
    ensures 0 !in StatusLine(version, code, msg)
    ensures BreaksAt(StatusLine(version, code, msg), |StatusLine(version, code, msg)| - 2)
  {
    assert 0 !in Protocol(version) && 0 !in Dec3(code);
  }

  /** The headers of a request come back exactly if every line break in a value is continued. */
  lemma RequestHeadersComeBack(verb: Method, uri: Text, version: Version, hs: Headers, rest: Text)
    requires UriOk(uri) && Given(hs)
    ensures var r := Parse(Reader(Request), RequestHead(verb, uri, version, hs) + rest);
      HeadersOk(hs) <==> r.verdict == 1 && r.writes.headers == AddAll(map[], hs)
  {
    var r := Parse(Reader(Request), RequestHead(verb, uri, version, hs) + rest);
    if HeadersOk(hs) {
      var st := RequestRoundTrip(verb, uri, version, hs, rest);
    }
    if r.verdict == 1 && r.writes.headers == AddAll(map[], hs) {
      RequestLineBare(verb, uri, version);
      BackMeansOk(Request, RequestLine(verb, uri, version), hs, rest);
    }
  }

  /** So do those of a response. */
  lemma ResponseHeadersComeBack(version: Version, code: nat, msg: Text, hs: Headers, rest: Text)
    requires 100 <= code <= 999 && MsgOk(msg) && Given(hs)
    ensures var r := Parse(Reader(Response), ResponseHead(version, code, msg, hs) + rest);
      HeadersOk(hs) <==> r.verdict == 1 && r.writes.headers == AddAll(map[], hs)
  {
    var r := Parse(Reader(Response), ResponseHead(version, code, msg, hs) + rest);
    if HeadersOk(hs) {
      var st := ResponseRoundTrip(version, code, msg, hs, rest);
    }
    if r.verdict == 1 && r.writes.headers == AddAll(map[], hs) {
      StatusLineBare(version, code, msg);
      BackMeansOk(Response, StatusLine(version, code, msg), hs, rest);
    }
  }
}
