/** What a run of a parser knows about the text behind it: where lines start, what the marks enclose,
    and so what the fields of any head that is accepted are. */
module HttpLines {
  import opened Wrappers
  import opened HttpMachine
  import opened HttpHeaders
  import opened HttpParse
  import opened HttpRoundTrip
  import opened HttpStream
  import opened HttpGrammar

  // Lines and keys

  predicate LineStart(buf: Text, p: int) {
    BreaksAt(buf, p - 2)
  }

  /** Where the line starts of which only characters of a key have been read so far. */
  function KeyStart(buf: Text, p: nat): (k: Option<nat>)
    requires p <= |buf|
    ensures k.Some? ==> k.value <= p && LineStart(buf, k.value) && forall i :: k.value <= i < p ==> IsMark(buf[i])
  {
    if LineStart(buf, p) then Some(p)
    else if p > 0 && IsMark(buf[p - 1]) then KeyStart(buf, p - 1)
    else None
  }

  lemma {:induction false} KeyStartsAt(buf: Text, k: nat, p: nat)
    requires k <= p <= |buf| && LineStart(buf, k) && forall i :: k <= i < p ==> IsMark(buf[i])
    ensures KeyStart(buf, p) == Some(k)
    decreases p
  {
    if k < p {
      KeyStartsAt(buf, k, p - 1);
    }
  }

  predicate KeyState(h: nat) {
    h == 2 || h == 3 || 10 <= h <= 24
  }

  /** The state `h` after the first characters `done` of a key. */
  ghost predicate Spells(h: nat, done: Text) {
    && done != [] && InKey(h, done)
    && (h == 24 <==> |done| == 15 && IsLengthKey(done[..14]) && done[14] == COLON)
  }

  lemma SpellsFirst(h: nat, c: int)
    requires (h == 0 || h == 7) && IsMark(c)
    ensures Spells(HeadDelta(h, c).to, [c])
  {
  }

  lemma SpellsNext(h: nat, done: Text, c: int)
    requires Spells(h, done) && IsMark(c)
    ensures Spells(HeadDelta(h, c).to, done + [c])
  {
    KeyLetter(h, done, c);
    var d := done + [c];
    if |done| == 14 {
      assert d[..14] == done && d[14] == c;
      LengthKeyState(h, done);
    }
  }

  /** A line starts with a key that spells content-length, up to the blank before `p`. */
  predicate LengthKeyBefore(buf: Text, p: nat) {
    && 18 <= p <= |buf| && BreaksAt(buf, p - 18) && IsLengthKey(buf[p - 16..p - 2])
    && buf[p - 2] == COLON && buf[p - 1] == SP
  }

  lemma LengthLetter(s: Text, i: nat)
    requires IsLengthKey(s) && i < |s|
    ensures IsMark(s[i]) && s[i] != COLON
  {
    assert Lower(s[i]) == CONTENT_LENGTH[i];
  }

  lemma LengthKeyMeans(buf: Text, p: nat)
    requires 1 <= p <= |buf| && buf[p - 1] == SP
    ensures LengthKeyBefore(buf, p) <==>
      var k := KeyStart(buf, p - 1); k.Some? && k.value + 16 == p && IsLengthKey(buf[k.value..p - 2]) && buf[p - 2] == COLON
  {
    if LengthKeyBefore(buf, p) {
      var k := p - 16;
      forall i | k <= i < p - 1
        ensures IsMark(buf[i])
      {
        if i < p - 2 {
          LengthLetter(buf[k..p - 2], i - k);
        }
      }
      KeyStartsAt(buf, k, p - 1);
    }
  }

  /** What the state `h` of the header lines says about the text before `p`. */
  ghost predicate InLines(h: nat, buf: Text, p: nat) {
    && h <= 26 && 0 < p <= |buf|
    && (h == 0 || h == 7 <==> LineStart(buf, p))
    && (h == 1 || h == 6 || h == 9 <==> buf[p - 1] == CR)
    && (KeyState(h) <==> KeyStart(buf, p).Some? && KeyStart(buf, p).value < p)
    && (KeyState(h) ==> Spells(h, buf[KeyStart(buf, p).value..p]))
    && (h == 25 <==> LengthKeyBefore(buf, p))
  }

  lemma LinesDelta(h: nat, c: int)
    requires h <= 26 && HeadDelta(h, c) != FAIL && HeadDelta(h, c).acts != [Accept]
    ensures var t := HeadDelta(h, c).to;
      && t <= 26 && t != 0
      && (t == 7 <==> h == 6 && c == LF) && (t == 1 || t == 6 || t == 9 <==> c == CR)
      && (KeyState(t) <==> IsMark(c) && (h == 0 || h == 7 || KeyState(h)))
      && (t == 25 <==> h == 24 && c == SP)
      && (c == LF ==> h != 1 && h != 9)
  {
  }

  lemma KeyGoesOn(buf: Text, p: nat)
    requires p < |buf| && IsMark(buf[p])
    ensures KeyStart(buf, p + 1) == KeyStart(buf, p)
  {
  }

  lemma SpellsMore(h: nat, buf: Text, k: nat, p: nat)
    requires k <= p < |buf| && IsMark(buf[p]) && if k == p then h == 0 || h == 7 else Spells(h, buf[k..p])
    ensures Spells(HeadDelta(h, buf[p]).to, buf[k..p + 1])
  {
    var c := buf[p];
    if k == p {
      SpellsFirst(h, c);
      assert buf[k..p + 1] == [c];
    } else {
      SpellsNext(h, buf[k..p], c);
      assert buf[k..p + 1] == buf[k..p] + [c];
    }
  }

  lemma LinesKey(h: nat, buf: Text, p: nat)
    requires InLines(h, buf, p) && p < |buf| && IsMark(buf[p]) && (h == 0 || h == 7 || KeyState(h))
    ensures var k := KeyStart(buf, p + 1); k.Some? && k.value <= p && Spells(HeadDelta(h, buf[p]).to, buf[k.value..p + 1])
  {
    KeyGoesOn(buf, p);
    SpellsMore(h, buf, KeyStart(buf, p).value, p);
  }

  lemma LinesLength(h: nat, buf: Text, p: nat)
    requires InLines(h, buf, p) && p < |buf| && buf[p] == SP
    ensures LengthKeyBefore(buf, p + 1) <==> h == 24
  {
    LengthKeyMeans(buf, p + 1);
    if KeyState(h) {
      var k := KeyStart(buf, p).value;
      var done := buf[k..p];
      if |done| == 15 {
        assert done[..14] == buf[k..p - 1] && done[14] == buf[p - 1];
      }
    }
  }

  lemma LinesStep(h: nat, buf: Text, p: nat)
    requires InLines(h, buf, p) && p < |buf|
    requires HeadDelta(h, buf[p]) != FAIL && HeadDelta(h, buf[p]).acts != [Accept]
    ensures InLines(HeadDelta(h, buf[p]).to, buf, p + 1)
  {
    var c := buf[p];
    LinesDelta(h, c);
    if IsMark(c) && (h == 0 || h == 7 || KeyState(h)) {
      LinesKey(h, buf, p);
    }
    if c == SP {
      LinesLength(h, buf, p);
    }
  }

  // The first line

  predicate Heading(k: Kind, cs: nat) {
    Base(k) <= cs <= Base(k) + 26
  }

  /** The states after a carriage return in the first line. */
  predicate Returned(k: Kind, cs: nat) {
    if k == Request then cs == 11 || cs == 21 else cs == 16
  }

  /** In the first line: no line has ended. */
  ghost predicate InFirst(k: Kind, cs: nat, buf: Text, p: nat) {
    && p <= |buf| && (forall i :: 0 <= i <= p - 2 ==> !BreaksAt(buf, i))
    && (Returned(k, cs) <==> p > 0 && buf[p - 1] == CR)
  }

  ghost predicate TextKnown(k: Kind, cs: nat, buf: Text, p: nat) {
    if Heading(k, cs) then InLines(cs - Base(k), buf, p) else InFirst(k, cs, buf, p)
  }

  /** The actions of the first line leave the marks of the others alone. */
  predicate OfFirst(acts: seq<Act>) {
    Accept !in acts && StartCl !in acts && EndCl !in acts && StartValue !in acts && EndValue !in acts
  }

  /** The first line ends with a line feed after a carriage return. */
  predicate FirstGoes(k: Kind, cs: nat, c: int, to: nat) {
    && (Heading(k, to) ==> to == Base(k) && Returned(k, cs) && c == LF)
    && (!Heading(k, to) ==> (Returned(k, to) <==> c == CR) && !(Returned(k, cs) && c == LF))
  }

  lemma VerbGoes(cs: nat, c: int)
    requires !InUri(cs) && !Heading(Request, cs) && MethodDelta(cs, c) != FAIL
    ensures var g := MethodDelta(cs, c); FirstGoes(Request, cs, c, g.to) && OfFirst(g.acts)
  {
  }

  lemma UriGoes(cs: nat, c: int)
    requires InUri(cs) && UriDelta(cs, c) != FAIL
    ensures var g := UriDelta(cs, c); FirstGoes(Request, cs, c, g.to) && OfFirst(g.acts)
  {
  }

  lemma StatusGoes(cs: nat, c: int)
    requires !Heading(Response, cs) && StatusDelta(cs, c) != FAIL
    ensures var g := StatusDelta(cs, c); FirstGoes(Response, cs, c, g.to) && OfFirst(g.acts)
  {
  }

  lemma FirstDelta(k: Kind, cs: nat, c: int)
    requires !Heading(k, cs) && Delta(k, cs, c) != FAIL
    ensures var g := Delta(k, cs, c); FirstGoes(k, cs, c, g.to) && OfFirst(g.acts)
  {
    if k == Response {
      StatusGoes(cs, c);
    } else if InUri(cs) {
      UriGoes(cs, c);
    } else {
      VerbGoes(cs, c);
    }
  }

  lemma LinesBegin(buf: Text, p: nat)
    requires LineStart(buf, p)
    ensures InLines(0, buf, p)
  {
  }

  lemma FirstStep(k: Kind, cs: nat, buf: Text, p: nat)
    requires !Heading(k, cs) && InFirst(k, cs, buf, p) && p < |buf| && Delta(k, cs, buf[p]) != FAIL
    ensures TextKnown(k, Delta(k, cs, buf[p]).to, buf, p + 1)
  {
    FirstDelta(k, cs, buf[p]);
    if Heading(k, Delta(k, cs, buf[p]).to) {
      LinesBegin(buf, p + 1);
    }
  }

  lemma HeadingDelta(k: Kind, cs: nat, c: int)
    requires Heading(k, cs) && Delta(k, cs, c) != FAIL && Delta(k, cs, c).acts != [Accept]
    ensures var g, h := Delta(k, cs, c), HeadDelta(cs - Base(k), c);
      h != FAIL && g.acts == h.acts && g.to == Base(k) + h.to && Heading(k, g.to)
  {
    HeadStays(cs - Base(k), c);
  }

  // Content-Length

  /** The value of a content-length header starts at `q`, with a digit. */
  predicate LengthAt(buf: Text, q: nat) {
    q < |buf| && IsDigit(buf[q]) && LengthKeyBefore(buf, q)
  }

  /** The last such place before `p`, or -1. */
  function LastAt(buf: Text, p: nat): (q: int)
    ensures -1 <= q < p && (q >= 0 ==> LengthAt(buf, q)) && forall i :: q < i < p ==> !LengthAt(buf, i)
  {
    if p == 0 then -1 else if LengthAt(buf, p - 1) then p - 1 else LastAt(buf, p - 1)
  }

  predicate DigitsTo(buf: Text, q: nat, e: nat) {
    e <= |buf| && forall i :: q <= i < e ==> IsDigit(buf[i])
  }

  /** From `q` to `e` stand the digits of a content-length header; its value has more only after a carriage return. */
  predicate Spelled(buf: Text, q: nat, e: nat) {
    q < e < |buf| && LengthAt(buf, q) && DigitsTo(buf, q, e) && buf[e] == CR
  }

  ghost predicate AnySpelled(buf: Text, p: nat) {
    exists q: nat, e: nat :: e < p && Spelled(buf, q, e)
  }

  /** What the marks `cl` and `ce` of the content length say in the state `h`. */
  ghost predicate LengthKnown(h: nat, cl: int, ce: int, buf: Text, p: nat) {
    && p <= |buf| && cl == LastAt(buf, p) && -1 <= ce < p
    && (h == 26 <==> cl >= 0 && DigitsTo(buf, cl, p))
    && (ce >= 0 <==> AnySpelled(buf, p))
    && (ce >= 0 ==> buf[ce] == CR)
    && (ce > cl >= 0 ==> DigitsTo(buf, cl, ce))
  }

  lemma LengthDelta(h: nat, c: int)
    requires h <= 26 && HeadDelta(h, c) != FAIL && HeadDelta(h, c).acts != [Accept]
    ensures var g := HeadDelta(h, c);
      && (StartCl in g.acts <==> h == 25 && IsDigit(c)) && (EndCl in g.acts <==> h == 26 && c == CR)
      && (g.to == 26 <==> (h == 25 || h == 26) && IsDigit(c)) && Accept !in g.acts
  {
  }

  /** Digits up to `p` belong to the last length. */
  lemma LastOfDigits(buf: Text, q: nat, p: nat)
    requires q < p <= |buf| && LengthAt(buf, q) && DigitsTo(buf, q, p)
    ensures LastAt(buf, p) == q
  {
    var l := LastAt(buf, p);
    assert l >= 0 && buf[l - 1] == SP;
  }

  lemma SpelledSame(buf: Text, p: nat)
    requires p < |buf| && !(buf[p] == CR && LastAt(buf, p) >= 0 && DigitsTo(buf, LastAt(buf, p), p))
    ensures AnySpelled(buf, p + 1) <==> AnySpelled(buf, p)
  {
    if AnySpelled(buf, p + 1) {
      var q: nat, e: nat :| e < p + 1 && Spelled(buf, q, e);
      if e == p {
        LastOfDigits(buf, q, p);
      }
    }
  }

  lemma LengthStep(h: nat, cl: int, ce: int, buf: Text, p: nat)
    requires InLines(h, buf, p) && LengthKnown(h, cl, ce, buf, p) && p < |buf|
    requires HeadDelta(h, buf[p]) != FAIL && HeadDelta(h, buf[p]).acts != [Accept]
    ensures var g := HeadDelta(h, buf[p]);
      LengthKnown(g.to, Marked(cl, StartCl, g.acts, p), Marked(ce, EndCl, g.acts, p), buf, p + 1)
  {
    var c := buf[p];
    LengthDelta(h, c);
    assert LastAt(buf, p + 1) == if LengthAt(buf, p) then p else LastAt(buf, p);
    if h == 26 && c == CR {
      assert Spelled(buf, cl, p);
    } else {
      SpelledSame(buf, p);
    }
  }

  lemma NoLengthYet(buf: Text, p: nat)
    requires LineStart(buf, p) && forall i :: 0 <= i < p - 2 ==> !BreaksAt(buf, i)
    ensures LengthKnown(0, -1, -1, buf, p)
  {
    forall q: nat | q < p
      ensures !LengthAt(buf, q)
    {
    }
  }

  // What is known

  /** Where the marks are after some actions at `p`. */
  function Marked(mark: int, a: Act, acts: seq<Act>, p: nat): int {
    if a in acts then p else mark
  }

  /** The marks after some actions at `p`, as far as they are followed here. */
  ghost predicate MarkedAll(r: Marks, m: Marks, acts: seq<Act>, p: nat) {
    && r.uriStart == Marked(m.uriStart, StartUri, acts, p) && r.uriEnd == Marked(m.uriEnd, EndUri, acts, p)
    && r.msgStart == Marked(m.msgStart, StartMsg, acts, p) && r.msgEnd == Marked(m.msgEnd, EndMsg, acts, p)
    && r.clStart == Marked(m.clStart, StartCl, acts, p) && r.clEnd == Marked(m.clEnd, EndCl, acts, p)
    && r.valStart == Marked(m.valStart, StartValue, acts, p)
  }

  lemma ActMarks(m: Marks, a: Act, p: nat)
    ensures MarkedAll(Mark(m, a, p), m, [a], p)
  {
  }

  lemma MarkedChains(r: Marks, q: Marks, m: Marks, a: Act, acts: seq<Act>, p: nat)
    requires MarkedAll(q, m, [a], p) && MarkedAll(r, q, acts, p)
    ensures MarkedAll(r, m, [a] + acts, p)
  {
  }

  lemma {:induction false} ActsMark(st: State, acts: seq<Act>, buf: Text, p: nat)
    requires st.verdict == 0 && forall i :: 0 <= i < |acts| ==> Verdict(acts[i]) == 0
    ensures MarkedAll(PerformAll(st, acts, buf, p).marks, st.marks, acts, p)
    ensures PerformAll(st, acts, buf, p).writes.contentLength == st.writes.contentLength
    decreases |acts|
  {
    if acts != [] {
      var q := Perform(st, acts[0], buf, p);
      ActsMark(q, acts[1..], buf, p);
      ActMarks(st.marks, acts[0], p);
      MarkedChains(PerformAll(q, acts[1..], buf, p).marks, q.marks, st.marks, acts[0], acts[1..], p);
      assert acts == [acts[0]] + acts[1..];
    }
  }

  // The URI and the message

  lemma PlainGrows(buf: Text, u: nat, p: nat)
    requires u <= p < |buf| && Plain(buf[u..p]) && Ascii(buf[p])
    requires u < p && buf[p - 1] == CR ==> buf[p] != LF
    ensures Plain(buf[u..p + 1])
  {
    assert buf[u..p + 1] == buf[u..p] + [buf[p]];
    assert u < p ==> buf[u..p][p - u - 1] == buf[p - 1];
  }

  lemma PlainStart(buf: Text, u: nat, e: nat, p: nat)
    requires u <= e <= p <= |buf| && Plain(buf[u..p])
    ensures Plain(buf[u..e])
  {
    assert buf[u..e] == buf[u..p][..e - u];
  }

  /** A stretch that has been marked is plain. */
  ghost predicate PlainAt(buf: Text, u: int, e: int) {
    0 <= u <= e <= |buf| && Plain(buf[u..e])
  }

  /** What the marks of the URI or the message say: `u` where it starts, `e` where it may have ended. */
  ghost predicate SpanKnown(k: Kind, cs: nat, u: int, e: int, buf: Text, p: nat) {
    if Heading(k, cs) then PlainAt(buf, u, e)
    else if k == Request then
      InUri(cs) && cs != 9 ==> PlainAt(buf, u, p) && (cs >= 12 ==> u <= e <= p)
    else
      cs == 15 || cs == 16 ==> PlainAt(buf, u, p) && (cs == 16 ==> u <= e <= p)
  }

  function Started(k: Kind): Act {
    if k == Request then StartUri else StartMsg
  }

  function Ended(k: Kind): Act {
    if k == Request then EndUri else EndMsg
  }

  ghost predicate SpanGoes(k: Kind, cs: nat, u: int, e: int, buf: Text, p: nat, g: Goto) {
    SpanKnown(k, g.to, Marked(u, Started(k), g.acts, p), Marked(e, Ended(k), g.acts, p), buf, p + 1)
  }

  lemma SpanInUri(cs: nat, u: int, e: int, buf: Text, p: nat)
    requires InUri(cs) && InFirst(Request, cs, buf, p) && p < |buf| && Ascii(buf[p])
    requires SpanKnown(Request, cs, u, e, buf, p) && UriDelta(cs, buf[p]) != FAIL
    ensures SpanGoes(Request, cs, u, e, buf, p, UriDelta(cs, buf[p]))
  {
    var g := UriDelta(cs, buf[p]);
    if g.to == 22 {
      PlainStart(buf, u, e, p);
    } else {
      PlainGrows(buf, if cs == 9 then p else u, p);
    }
  }

  lemma SpanInStatus(cs: nat, u: int, e: int, buf: Text, p: nat)
    requires !Heading(Response, cs) && InFirst(Response, cs, buf, p) && p < |buf| && Ascii(buf[p])
    requires SpanKnown(Response, cs, u, e, buf, p) && StatusDelta(cs, buf[p]) != FAIL
    ensures SpanGoes(Response, cs, u, e, buf, p, StatusDelta(cs, buf[p]))
  {
    var g := StatusDelta(cs, buf[p]);
    if g.to == 17 {
      PlainStart(buf, u, e, p);
    } else if g.to == 15 || g.to == 16 {
      PlainGrows(buf, if cs == 14 then p else u, p);
    }
  }

  lemma HeadingLeavesSpan(h: nat, c: int)
    requires h <= 26
    ensures var acts := HeadDelta(h, c).acts; StartUri !in acts && EndUri !in acts && StartMsg !in acts && EndMsg !in acts
  {
  }

  lemma VerbSpan(cs: nat, c: int)
    requires !InUri(cs) && !Heading(Request, cs) && MethodDelta(cs, c) != FAIL
    ensures var g := MethodDelta(cs, c); g.to == 9 || !(InUri(g.to) || Heading(Request, g.to))
  {
    VerbStays(cs, c);
  }

  lemma SpanStep(k: Kind, cs: nat, u: int, e: int, buf: Text, p: nat)
    requires TextKnown(k, cs, buf, p) && SpanKnown(k, cs, u, e, buf, p) && p < |buf|
    requires Delta(k, cs, buf[p]) != FAIL && Delta(k, cs, buf[p]).acts != [Accept]
    ensures SpanGoes(k, cs, u, e, buf, p, Delta(k, cs, buf[p]))
  {
    if Heading(k, cs) {
      HeadingDelta(k, cs, buf[p]);
      HeadingLeavesSpan(cs - Base(k), buf[p]);
    } else if k == Response {
      SpanInStatus(cs, u, e, buf, p);
    } else if InUri(cs) {
      SpanInUri(cs, u, e, buf, p);
    } else {
      VerbSpan(cs, buf[p]);
    }
  }

  // A whole run

  ghost predicate LengthIn(k: Kind, cs: nat, cl: int, ce: int, buf: Text, p: nat) {
    if Heading(k, cs) then LengthKnown(cs - Base(k), cl, ce, buf, p) else cl == -1 && ce == -1
  }

  ghost predicate SpanIn(k: Kind, cs: nat, m: Marks, buf: Text, p: nat) {
    if k == Request then SpanKnown(k, cs, m.uriStart, m.uriEnd, buf, p)
    else SpanKnown(k, cs, m.msgStart, m.msgEnd, buf, p)
  }

  /** What holds of every state that a run comes to. */
  ghost predicate Known(k: Kind, st: State, buf: Text, p: nat) {
    && st.verdict == 0 && p <= |buf| && st.writes.contentLength == None && TextKnown(k, st.cs, buf, p)
    && LengthIn(k, st.cs, st.marks.clStart, st.marks.clEnd, buf, p) && SpanIn(k, st.cs, st.marks, buf, p)
  }

  lemma TextStep(k: Kind, cs: nat, buf: Text, p: nat)
    requires TextKnown(k, cs, buf, p) && p < |buf| && Delta(k, cs, buf[p]) != FAIL && Delta(k, cs, buf[p]).acts != [Accept]
    ensures TextKnown(k, Delta(k, cs, buf[p]).to, buf, p + 1)
  {
    if Heading(k, cs) {
      HeadingDelta(k, cs, buf[p]);
      LinesStep(cs - Base(k), buf, p);
    } else {
      FirstStep(k, cs, buf, p);
    }
  }

  lemma LengthStarts(k: Kind, cs: nat, buf: Text, p: nat)
    requires !Heading(k, cs) && InFirst(k, cs, buf, p) && p < |buf| && Delta(k, cs, buf[p]) != FAIL
    ensures var g := Delta(k, cs, buf[p]);
      LengthIn(k, g.to, Marked(-1, StartCl, g.acts, p), Marked(-1, EndCl, g.acts, p), buf, p + 1)
  {
    FirstDelta(k, cs, buf[p]);
    if Heading(k, Delta(k, cs, buf[p]).to) {
      NoLengthYet(buf, p + 1);
    }
  }

  lemma LengthInStep(k: Kind, cs: nat, cl: int, ce: int, buf: Text, p: nat)
    requires TextKnown(k, cs, buf, p) && LengthIn(k, cs, cl, ce, buf, p) && p < |buf|
    requires Delta(k, cs, buf[p]) != FAIL && Delta(k, cs, buf[p]).acts != [Accept]
    ensures var g := Delta(k, cs, buf[p]);
      LengthIn(k, g.to, Marked(cl, StartCl, g.acts, p), Marked(ce, EndCl, g.acts, p), buf, p + 1)
  {
    if Heading(k, cs) {
      HeadingDelta(k, cs, buf[p]);
      LengthStep(cs - Base(k), cl, ce, buf, p);
    } else {
      LengthStarts(k, cs, buf, p);
    }
  }

  lemma KnownStep(k: Kind, st: State, buf: Text, p: nat)
    requires Known(k, st, buf, p) && p < |buf|
    requires Delta(k, st.cs, buf[p]) != FAIL && Delta(k, st.cs, buf[p]).acts != [Accept]
    ensures Known(k, Step(Reader(k), st, buf, p), buf, p + 1)
  {
    var g, m := Delta(k, st.cs, buf[p]), st.marks;
    DeltaIsTame(k, st.cs, buf[p]);
    TameActs(st.(cs := g.to), g.acts, buf, p);
    ActsMark(st.(cs := g.to), g.acts, buf, p);
    TextStep(k, st.cs, buf, p);
    LengthInStep(k, st.cs, m.clStart, m.clEnd, buf, p);
    if k == Request {
      SpanStep(k, st.cs, m.uriStart, m.uriEnd, buf, p);
    } else {
      SpanStep(k, st.cs, m.msgStart, m.msgEnd, buf, p);
    }
  }

  type Invariant = (State, nat) -> bool

  /** Every step of the machine that neither rejects nor accepts keeps `inv`. */
  ghost predicate Keeps(d: Table, inv: Invariant, buf: Text) {
    forall st: State, p: nat {:trigger inv(st, p)} ::
      p < |buf| && st.verdict == 0 && inv(st, p) && d(st.cs, buf[p]) != FAIL && d(st.cs, buf[p]).acts != [Accept] ==>
        inv(Step(d, st, buf, p), p + 1)
  }

  /** A run that accepts does so at `e`, in state `q`. */
  ghost predicate AcceptsAt(d: Table, q: State, r: State, buf: Text, e: nat) {
    && e < |buf| && q.verdict == 0 && d(q.cs, buf[e]) != FAIL && d(q.cs, buf[e]).acts == [Accept]
    && r.verdict == 1 && r.writes == Write(q.writes, Accept, q.marks, buf, e)
  }

  lemma {:induction false} RunKeeps(d: Table, inv: Invariant, st: State, buf: Text, p: nat) returns (q: State, e: nat)
    requires Tamed(d) && Keeps(d, inv, buf) && p <= |buf| && st.verdict == 0 && inv(st, p)
    ensures var r := Run(d, st, buf, p, |buf|);
      && (r.verdict == 1 ==> AcceptsAt(d, q, r, buf, e) && inv(q, e))
      && (r.verdict == 0 ==> inv(r, |buf|))
    decreases |buf| - p
  {
    q, e := st, p;
    if p < |buf| {
      var cs, c := st.cs, buf[p];
      var g, at := d(cs, c), st.(cs := d(cs, c).to);
      assert Tame(d(cs, c));
      if g == FAIL {
        OneAct(at, Reject, buf, p);
      } else if g.acts == [Accept] {
        OneAct(at, Accept, buf, p);
      } else {
        TameActs(at, g.acts, buf, p);
        q, e := RunKeeps(d, inv, Step(d, st, buf, p), buf, p + 1);
      }
    }
  }

  /** In the parsers, every run that goes on is known, and it accepts in the header lines. */
  lemma ParseKnows(k: Kind, buf: Text) returns (q: State, e: nat)
    ensures var r := Parse(Reader(k), buf);
      && (r.verdict == 1 ==> AcceptsAt(Reader(k), q, r, buf, e) && Known(k, q, buf, e) && Heading(k, q.cs))
      && (r.verdict == 1 ==> q.cs == Base(k) + 1 && buf[e] == LF)
      && (r.verdict == 0 ==> Known(k, r, buf, |buf|))
  {
    var d, inv := Reader(k), (st: State, p: nat) => Known(k, st, buf, p);
    forall st: State, p: nat | p < |buf| && inv(st, p) && d(st.cs, buf[p]) != FAIL && d(st.cs, buf[p]).acts != [Accept]
      ensures inv(Step(d, st, buf, p), p + 1)
    {
      KnownStep(k, st, buf, p);
    }
    ReaderIsTamed(k);
    StartKnown(k, buf);
    q, e := RunKeeps(d, inv, START, buf, 0);
    if Parse(d, buf).verdict == 1 {
      AcceptsInHeading(k, q.cs, buf[e]);
    }
  }

  lemma StartKnown(k: Kind, buf: Text)
    ensures Known(k, START, buf, 0)
  {
  }

  lemma AcceptsInHeading(k: Kind, cs: nat, c: int)
    requires Delta(k, cs, c) != FAIL && Delta(k, cs, c).acts == [Accept]
    ensures cs == Base(k) + 1 && c == LF
  {
    if !Heading(k, cs) {
      FirstDelta(k, cs, c);
    }
  }

  ghost predicate Reported(buf: Text, at: Option<(int, int)>) {
    at.Some? && PlainAt(buf, at.value.0, at.value.1)
  }

  /** Any URI that the parser reports is ASCII and has no line break. */
  lemma UriIsPlain(buf: Text)
    ensures var r := Parse(Reader(Request), buf); r.verdict == 1 ==> Reported(buf, r.writes.uri)
  {
    var q, e := ParseKnows(Request, buf);
  }

  /** So is any message. */
  lemma MsgIsPlain(buf: Text)
    ensures var r := Parse(Reader(Response), buf); r.verdict == 1 ==> Reported(buf, r.writes.msg)
  {
    var q, e := ParseKnows(Response, buf);
  }

  ghost predicate Found(buf: Text, at: Option<(int, int)>, s: Text) {
    at.Some? && Slice(buf, at.value.0, at.value.1) == s
  }

  /** Of the strings that a caller can give, exactly the ASCII ones without a line break come back as URIs. */
  lemma UriComesBack(verb: Method, uri: Text, version: Version, hs: Headers, rest: Text)
    requires HeadersOk(hs) && 0 !in uri
    ensures var buf := RequestHead(verb, uri, version, hs) + rest; var r := Parse(Reader(Request), buf);
      UriOk(uri) <==> r.verdict == 1 && Found(buf, r.writes.uri, uri)
  {
    if UriOk(uri) {
      var r := RequestRoundTrip(verb, uri, version, hs, rest);
    }
    UriIsPlain(RequestHead(verb, uri, version, hs) + rest);
  }

  /** The same for messages. */
  lemma MsgComesBack(version: Version, code: nat, msg: Text, hs: Headers, rest: Text)
    requires HeadersOk(hs) && 100 <= code <= 999 && 0 !in msg
    ensures var buf := ResponseHead(version, code, msg, hs) + rest; var r := Parse(Reader(Response), buf);
      MsgOk(msg) <==> r.verdict == 1 && Found(buf, r.writes.msg, msg)
  {
    if MsgOk(msg) {
      var r := ResponseRoundTrip(version, code, msg, hs, rest);
    }
    MsgIsPlain(ResponseHead(version, code, msg, hs) + rest);
  }
}
