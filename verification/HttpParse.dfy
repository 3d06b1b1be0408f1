/** One run of a parser over a buffer. */
module HttpParse {
  import opened Wrappers
  import opened HttpMachine
  import opened HttpHeaders

  /** The marker pointers, as positions in the buffer; -1 is NULL. */
  datatype Marks = Marks(uriStart: int, uriEnd: int, codeStart: int, msgStart: int, msgEnd: int,
                         clStart: int, clEnd: int, hdStart: int, hdEnd: int, valStart: int)

  const NO_MARKS := Marks(-1, -1, -1, -1, -1, -1, -1, -1, -1, -1)

  /** What a run assigns in the http structure. `uri` and `msg` are stretches of the buffer. */
  datatype Writes = Writes(
    verb: Option<Method>, version: Option<Version>, headers: map<Text, Text>, uri: Option<(int, int)>,
    code: Option<nat>, msg: Option<(int, int)>, contentLength: Option<nat>, length: Option<nat>)

  const NO_WRITES := Writes(None, None, map[], None, None, None, None, None)

  type Table = (nat, int) -> Goto

  /** `verdict` is 1 after Accept, -1 after Reject, else 0. */
  datatype State = State(cs: nat, verdict: int, marks: Marks, writes: Writes)

  const START := State(1, 0, NO_MARKS, NO_WRITES)

  function Slice(buf: Text, from: int, to: int): Text {
    if 0 <= from <= to <= |buf| then buf[from..to] else []
  }

  /** The number that the digits at the start of `s` spell, after those read so far. */
  function Digits(s: Text, acc: nat): nat
    decreases |s|
  {
    if s == [] || !IsDigit(s[0]) then acc else Digits(s[1..], 10 * acc + (s[0] - 48))
  }

  const INT_MAX := 0x7fff_ffff
  const LONG_MAX := 0x7fff_ffff_ffff_ffff

  /** A number read by strtol, cut to an int and stored in a size_t. */
  function ToSize(n: nat): nat {
    var m := (if n <= LONG_MAX then n else LONG_MAX) % 0x1_0000_0000;
    if m <= INT_MAX then m else m + 0xffff_ffff_0000_0000
  }

  /** atoi on a string that starts with a digit, stored in a size_t: strtol saturates, the
      conversion to int keeps 32 bits and that to size_t extends the sign. */
  function Atoi(s: Text): nat {
    ToSize(Digits(s, 0))
  }

  /** rn_http_header_setdata as the parser calls it: values of no length are refused. */
  function SetHeader(h: map<Text, Text>, key: Text, value: Text): map<Text, Text> {
    if value == [] then h else h[CStr(key) := CStr(value)]
  }

  /** The actions that set a mark. */
  function Mark(m: Marks, a: Act, p: nat): Marks {
    match a
    case StartUri => m.(uriStart := p)
    case EndUri => m.(uriEnd := p)
    case StartCode => m.(codeStart := p)
    case StartMsg => m.(msgStart := p)
    case EndMsg => m.(msgEnd := p)
    case StartCl => m.(clStart := p)
    case EndCl => m.(clEnd := p)
    case StartHead => m.(hdStart := p)
    case EndHead => m.(hdEnd := p)
    case StartValue => m.(valStart := p)
    case _ => m
  }

  /** The actions that write to the structure. */
  function Write(w: Writes, a: Act, m: Marks, buf: Text, p: nat): Writes {
    match a
    case EndValue =>
      if m.hdStart >= 0 && m.hdEnd >= 0 && m.valStart >= 0 then
        w.(headers := SetHeader(w.headers, Slice(buf, m.hdStart, m.hdEnd), Slice(buf, m.valStart, p)))
      else w
    case SetMethod(v) => w.(verb := Some(v))
    case SetVersion(v) => w.(version := Some(v))
    case Accept =>
      w.(uri := if m.uriStart >= 0 then Some((m.uriStart, m.uriEnd)) else w.uri,
         code := if m.codeStart >= 0 then Some(Atoi(Slice(buf, m.codeStart, p))) else w.code,
         msg := if m.msgStart >= 0 then Some((m.msgStart, m.msgEnd)) else w.msg,
         contentLength :=
           if m.clStart >= 0 && m.clEnd >= 0
           then Some(Atoi(Slice(if m.clEnd < |buf| then buf[m.clEnd := 0] else buf, m.clStart, p)))
           else w.contentLength,
         length := Some(p + 1))
    case _ => w
  }

  function Verdict(a: Act): int {
    match a
    case Accept => 1
    case Reject => -1
    case _ => 0
  }

  function Perform(st: State, a: Act, buf: Text, p: nat): State {
    State(st.cs, Verdict(a), Mark(st.marks, a, p), Write(st.writes, a, st.marks, buf, p))
  }

  function PerformAll(st: State, acts: seq<Act>, buf: Text, p: nat): State
    decreases |acts|
  {
    if acts == [] || st.verdict != 0 then st else PerformAll(Perform(st, acts[0], buf, p), acts[1..], buf, p)
  }

  /** One turn of the loop: the transition on the character at `p`, then its actions. */
  function Step(d: Table, st: State, buf: Text, p: nat): State
    requires p < |buf|
  {
    var g := d(st.cs, buf[p]);
    PerformAll(st.(cs := g.to), g.acts, buf, p)
  }

  /** The loop from position `p` to `q`, unless a verdict ends it first. */
  function Run(d: Table, st: State, buf: Text, p: nat, q: nat): State
    requires p <= q <= |buf|
    decreases q - p
  {
    if p == q || st.verdict != 0 then st else Run(d, Step(d, st, buf, p), buf, p + 1, q)
  }

  function Parse(d: Table, buf: Text): State {
    Run(d, START, buf, 0, |buf|)
  }

  lemma {:induction false} RunSplit(d: Table, st: State, buf: Text, p: nat, q: nat, r: nat)
    requires p <= q <= r <= |buf|
    ensures Run(d, st, buf, p, r) == Run(d, Run(d, st, buf, p, q), buf, q, r)
    decreases q - p
  {
    if p < q && st.verdict == 0 {
      RunSplit(d, Step(d, st, buf, p), buf, p + 1, q, r);
    }
  }

  // Single steps

  lemma StepQuiet(d: Table, st: State, buf: Text, p: nat, to: nat)
    requires p < |buf| && st.verdict == 0 && d(st.cs, buf[p]) == Goto(to, [])
    ensures Run(d, st, buf, p, p + 1) == st.(cs := to)
  {
    var s1 := Step(d, st, buf, p);
    assert Run(d, s1, buf, p + 1, p + 1) == s1;
  }

  lemma StepOne(d: Table, st: State, buf: Text, p: nat, to: nat, a: Act)
    requires p < |buf| && st.verdict == 0 && d(st.cs, buf[p]) == Goto(to, [a])
    ensures Run(d, st, buf, p, p + 1) == Perform(st.(cs := to), a, buf, p)
  {
    var s1 := Step(d, st, buf, p);
    assert [a][1..] == [];
    var t := Perform(st.(cs := to), a, buf, p);
    assert PerformAll(t, [], buf, p) == t;
    assert Run(d, s1, buf, p + 1, p + 1) == s1;
  }

  lemma StepTwo(d: Table, st: State, buf: Text, p: nat, to: nat, a: Act, b: Act)
    requires p < |buf| && st.verdict == 0 && d(st.cs, buf[p]) == Goto(to, [a, b]) && !a.Accept? && !a.Reject?
    ensures Run(d, st, buf, p, p + 1) == Perform(Perform(st.(cs := to), a, buf, p), b, buf, p)
  {
    var s1 := Step(d, st, buf, p);
    assert [a, b][1..] == [b] && [b][1..] == [];
    var t := Perform(st.(cs := to), a, buf, p);
    assert PerformAll(t, [b], buf, p) == PerformAll(Perform(t, b, buf, p), [], buf, p);
    assert Run(d, s1, buf, p + 1, p + 1) == s1;
  }

  /** The character at `p + i` takes state `cs + i` to the next one, without action. */
  ghost predicate Advances(d: Table, cs: nat, buf: Text, p: nat, i: nat) {
    p + i < |buf| && d(cs + i, buf[p + i]) == Goto(cs + i + 1, [])
  }

  lemma {:induction false} Walk(d: Table, st: State, buf: Text, p: nat, n: nat)
    requires p + n <= |buf| && st.verdict == 0
    requires forall i :: 0 <= i < n ==> Advances(d, st.cs, buf, p, i)
    ensures Run(d, st, buf, p, p + n) == st.(cs := st.cs + n)
    decreases n
  {
    if n > 0 {
      assert Advances(d, st.cs, buf, p, 0);
      StepQuiet(d, st, buf, p, st.cs + 1);
      var st1 := st.(cs := st.cs + 1);
      var c1, p1 := st.cs + 1, p + 1;
      forall i | 0 <= i < n - 1
        ensures Advances(d, c1, buf, p1, i)
      {
        assert Advances(d, st.cs, buf, p, i + 1);
      }
      Walk(d, st1, buf, p + 1, n - 1);
      RunSplit(d, st, buf, p, p + 1, p + n);
    }
  }

  // Header lines

  function FinalOf(b: nat): nat {
    if b == Base(Request) then 81 else 45
  }

  /** From state `b` on, the table is that of the header lines. */
  ghost predicate HeadAt(d: Table, b: nat) {
    forall h: nat, c: int {:trigger HeadDelta(h, c)} :: h <= 26 && 0 <= c <= 127 ==>
      d(b + h, c) == Shifted(HeadDelta(h, c), b, FinalOf(b))
  }

  function Local(b: nat, st: State): int {
    st.cs - b
  }

  ghost predicate InHead(d: Table, b: nat, st: State) {
    0 <= Local(b, st) <= 26 && st.verdict == 0 && HeadAt(d, b)
  }

  lemma HeadIsDelta(d: Table, b: nat, h: nat, c: int)
    requires HeadAt(d, b) && h <= 26 && 0 <= c <= 127
    ensures d(b + h, c) == Shifted(HeadDelta(h, c), b, FinalOf(b))
  {
  }

  /** `a` and the first letters of `word` agree but for case. */
  predicate Alike(a: Text, word: Text) {
    |a| <= |word| && forall i :: 0 <= i < |a| ==> Lower(a[i]) == word[i]
  }

  predicate IsLengthKey(key: Text) {
    |key| == |CONTENT_LENGTH| && Alike(key, CONTENT_LENGTH)
  }

  predicate KeyOk(key: Text) {
    key != [] && forall i :: 0 <= i < |key| ==> IsMark(key[i])
  }

  /** A line break stands at `i`. */
  predicate BreaksAt(s: Text, i: int) {
    0 <= i && i + 2 <= |s| && s[i] == CR && s[i + 1] == LF
  }

  /** If a line breaks at `i`, it is continued: a blank follows, and after that anything but another break. */
  predicate Continued(s: Text, i: nat) {
    BreaksAt(s, i) ==> i + 3 < |s| && IsBlank(s[i + 2]) && !BreaksAt(s, i + 3)
  }

  predicate ValueOk(value: Text) {
    value != [] && forall i :: 0 <= i < |value| ==> 0 < value[i] <= 127 && Continued(value, i)
  }

  /** The state inside a key after its first letters `done`. */
  ghost predicate InKey(h: int, done: Text) {
    && (h == 2 || h == 3 || 10 <= h <= 24)
    && (10 <= h <= 23 ==> |done| == h - 9 && Alike(done, CONTENT_LENGTH))
    && (|done| <= 14 && Alike(done, CONTENT_LENGTH) ==> h == 9 + |done|)
  }

  lemma KeyLetter(h: nat, done: Text, c: int)
    requires InKey(h, done) && done != [] && IsMark(c)
    ensures var g := HeadDelta(h, c);
      (g.acts == [] || g.acts == [EndHead]) && InKey(g.to, done + [c])
  {
    var d := done + [c];
    assert d[..|done|] == done && d[|done|] == c;
    if Alike(d, CONTENT_LENGTH) {
      assert Alike(done, CONTENT_LENGTH) by {
        assert forall i :: 0 <= i < |done| ==> d[i] == done[i];
      }
    }
  }

  lemma KeyFirst(d: Table, b: nat, st: State, buf: Text, p: nat) returns (r: State)
    requires InHead(d, b, st) && (Local(b, st) == 0 || Local(b, st) == 7) && p < |buf| && IsMark(buf[p])
    ensures r == Run(d, st, buf, p, p + 1) && r.verdict == 0 && r.writes == st.writes
    ensures InKey(Local(b, r), [buf[p]]) && r.marks == st.marks.(hdStart := p)
  {
    r := Run(d, st, buf, p, p + 1);
    HeadIsDelta(d, b, Local(b, st), buf[p]);
    var g := HeadDelta(Local(b, st), buf[p]);
    StepOne(d, st, buf, p, b + g.to, StartHead);
  }

  lemma KeyNext(d: Table, b: nat, q: State, buf: Text, p: nat, done: Text) returns (r: State)
    requires InHead(d, b, q) && p < |buf| && IsMark(buf[p]) && done != [] && InKey(Local(b, q), done)
    ensures r == Run(d, q, buf, p, p + 1) && r.verdict == 0 && r.writes == q.writes
    ensures InKey(Local(b, r), done + [buf[p]]) && r.marks == q.marks.(hdEnd := r.marks.hdEnd)
  {
    r := Run(d, q, buf, p, p + 1);
    KeyLetter(Local(b, q), done, buf[p]);
    HeadIsDelta(d, b, Local(b, q), buf[p]);
    var g := HeadDelta(Local(b, q), buf[p]);
    if g.acts == [] {
      StepQuiet(d, q, buf, p, b + g.to);
    } else {
      StepOne(d, q, buf, p, b + g.to, EndHead);
    }
  }

  lemma {:induction false} KeyRun(d: Table, b: nat, st: State, buf: Text, p: nat, key: Text, n: nat) returns (r: State)
    requires InHead(d, b, st) && (Local(b, st) == 0 || Local(b, st) == 7)
    requires At(buf, p, key) && KeyOk(key) && 1 <= n <= |key|
    ensures r == Run(d, st, buf, p, p + n) && r.verdict == 0 && r.writes == st.writes
    ensures InKey(Local(b, r), key[..n])
    ensures r.marks == st.marks.(hdStart := p, hdEnd := r.marks.hdEnd)
    decreases n
  {
    AtIndex(buf, p, key, n - 1);
    if n == 1 {
      r := KeyFirst(d, b, st, buf, p);
      assert key[..1] == [buf[p]];
    } else {
      var q := KeyRun(d, b, st, buf, p, key, n - 1);
      assert key[..n] == key[..n - 1] + [key[n - 1]];
      r := KeyNext(d, b, q, buf, p + n - 1, key[..n - 1]);
      RunSplit(d, st, buf, p, p + n - 1, p + n);
    }
  }

  lemma KeyEnd(d: Table, b: nat, q: State, buf: Text, p: nat, len: bool)
    requires InHead(d, b, q) && (Local(b, q) == 2 || Local(b, q) == 3 || 10 <= Local(b, q) <= 24)
    requires len <==> Local(b, q) == 23
    requires p + 1 < |buf| && buf[p] == COLON && buf[p + 1] == SP
    ensures Run(d, q, buf, p, p + 2) == q.(cs := b + if len then 25 else 4, marks := q.marks.(hdEnd := p))
  {
    HeadIsDelta(d, b, Local(b, q), COLON);
    StepOne(d, q, buf, p, b + if len then 24 else 3, EndHead);
    var q1 := Run(d, q, buf, p, p + 1);
    HeadIsDelta(d, b, Local(b, q1), SP);
    StepQuiet(d, q1, buf, p + 1, b + if len then 25 else 4);
    RunSplit(d, q, buf, p, p + 1, p + 2);
  }

  /** A key with the colon and the blank after it. */
  lemma KeyLine(d: Table, b: nat, st: State, buf: Text, p: nat, key: Text, e: nat) returns (r: State)
    requires InHead(d, b, st) && (Local(b, st) == 0 || Local(b, st) == 7) && KeyOk(key) && At(buf, p, key)
    requires e == p + |key| && e + 1 < |buf| && buf[e] == COLON && buf[e + 1] == SP
    ensures Run(d, st, buf, p, e + 2) == r
    ensures r == st.(cs := b + if IsLengthKey(key) then 25 else 4, marks := st.marks.(hdStart := p, hdEnd := e))
  {
    var q := KeyRun(d, b, st, buf, p, key, |key|);
    assert key[..|key|] == key;
    LengthKeyState(Local(b, q), key);
    KeyEnd(d, b, q, buf, e, IsLengthKey(key));
    r := q.(cs := b + if IsLengthKey(key) then 25 else 4, marks := q.marks.(hdEnd := e));
    Compose(d, st, buf, p, e, e + 2, q, r);
  }

  lemma LengthKeyState(h: int, key: Text)
    requires InKey(h, key)
    ensures h == 23 <==> IsLengthKey(key)
  {
  }

  predicate AllDigits(s: Text) {
    s != [] && forall i :: 0 <= i < |s| ==> IsDigit(s[i])
  }

  /** The number of digits that a text starts with. */
  function Lead(s: Text): (n: nat)
    ensures n <= |s| && (forall i :: 0 <= i < n ==> IsDigit(s[i])) && (n < |s| ==> !IsDigit(s[n]))
  {
    if s == [] || !IsDigit(s[0]) then 0 else
    var n := Lead(s[1..]);
    assert forall i :: 0 < i <= n ==> s[i] == s[1..][i - 1];
    n + 1
  }

  /** The state inside a value after its first `n` characters. */
  function Tail(s: Text, n: nat): nat
    requires n <= |s|
  {
    if n >= 1 && s[n - 1] == CR then
      if BreaksAt(s, n - 4) && IsBlank(s[n - 2]) then 9 else 6
    else if BreaksAt(s, n - 2) then 7
    else if BreaksAt(s, n - 3) && IsBlank(s[n - 1]) then 8
    else 5
  }

  lemma TailStep(s: Text, n: nat)
    requires ValueOk(s) && 1 <= n < |s|
    ensures HeadDelta(Tail(s, n), s[n]) == Goto(Tail(s, n + 1), if s[n] == CR && Tail(s, n) != 8 then [EndValue] else [])
  {
    assert n >= 2 ==> Continued(s, n - 2);
    assert n >= 4 ==> Continued(s, n - 4);
  }

  lemma TailEnds(s: Text)
    ensures ValueOk(s) ==> var h := Tail(s, |s|); h == 5 || h == 6 || h == 9
  {
    if ValueOk(s) {
      assert |s| >= 2 ==> Continued(s, |s| - 2);
      assert |s| >= 3 ==> Continued(s, |s| - 3);
    }
  }

  /** The state after `n` characters of a value whose key spells content-length iff `len`. */
  function ValueAt(len: bool, s: Text, n: nat): nat
    requires n <= |s|
  {
    if len && Lead(s) >= n then 26 else Tail(s, n)
  }

  /** The marks after `n` characters of the value `s`, which stands at `v`. */
  function ValueMarks(m: Marks, len: bool, s: Text, n: nat, v: nat): Marks
    requires n <= |s|
  {
    m.(valStart := v,
       clStart := if len && Lead(s) > 0 then v else m.clStart,
       clEnd := if len && 0 < Lead(s) < n && s[Lead(s)] == CR then v + Lead(s) else m.clEnd)
  }

  /** `r` is what has become of `q` after `n` characters of the value `s` of `key` at `v`. The header may
      have been set to the value up to a carriage return. */
  ghost predicate InValue(b: nat, q: State, r: State, key: Text, len: bool, s: Text, n: nat, v: nat) {
    && 1 <= n <= |s|
    && r == State(b + ValueAt(len, s, n), 0, ValueMarks(q.marks, len, s, n, v), q.writes.(headers := r.writes.headers))
    && r.writes.headers[key := s] == q.writes.headers[key := s]
  }

  /** The value may start: the marks are around the key. */
  ghost predicate KeyRead(d: Table, b: nat, q: State, buf: Text, key: Text, len: bool) {
    && HeadAt(d, b) && q.verdict == 0 && q.cs == b + (if len then 25 else 4)
    && 0 <= q.marks.hdStart && 0 <= q.marks.hdEnd && Slice(buf, q.marks.hdStart, q.marks.hdEnd) == key && CStr(key) == key
  }

  lemma {:induction false} NoNul(s: Text)
    requires forall i :: 0 <= i < |s| ==> s[i] != 0
    ensures CStr(s) == s
    decreases |s|
  {
    if s != [] {
      NoNul(s[1..]);
      assert s == [s[0]] + s[1..];
    }
  }

  /** What EndValue does after `n` characters of the value. */
  lemma SetPart(w: Writes, m: Marks, buf: Text, key: Text, s: Text, n: nat, v: nat)
    requires At(buf, v, s) && n <= |s| && forall i :: 0 <= i < |s| ==> s[i] != 0
    requires 0 <= m.hdStart && 0 <= m.hdEnd && Slice(buf, m.hdStart, m.hdEnd) == key && CStr(key) == key && m.valStart == v
    ensures Write(w, EndValue, m, buf, v + n) == w.(headers := if n == 0 then w.headers else w.headers[key := s[..n]])
  {
    assert Slice(buf, v, v + n) == s[..n];
    NoNul(s[..n]);
  }

  lemma ValueFirst(d: Table, b: nat, q: State, buf: Text, key: Text, len: bool, s: Text, v: nat) returns (r: State)
    requires KeyRead(d, b, q, buf, key, len) && At(buf, v, s) && ValueOk(s)
    ensures Run(d, q, buf, v, v + 1) == r && InValue(b, q, r, key, len, s, 1, v)
  {
    var c := s[0];
    AtIndex(buf, v, s, 0);
    HeadIsDelta(d, b, q.cs - b, c);
    if len && IsDigit(c) {
      StepTwo(d, q, buf, v, b + 26, StartValue, StartCl);
    } else if c == CR {
      StepTwo(d, q, buf, v, b + 6, StartValue, EndValue);
      SetPart(q.writes, q.marks.(valStart := v), buf, key, s, 0, v);
    } else {
      StepOne(d, q, buf, v, b + 5, StartValue);
    }
    r := q.(cs := b + ValueAt(len, s, 1), marks := ValueMarks(q.marks, len, s, 1, v));
  }

  /** A carriage return inside a value. */
  lemma ValueReturn(d: Table, b: nat, q: State, st: State, buf: Text, key: Text, len: bool, s: Text, n: nat, v: nat)
    returns (r: State)
    requires KeyRead(d, b, q, buf, key, len) && At(buf, v, s) && ValueOk(s) && InValue(b, q, st, key, len, s, n, v)
    requires v + n < |buf| && buf[v + n] == CR && (n < |s| ==> s[n] == CR) && ValueAt(len, s, n) in {5, 6, 9, 26}
    ensures Run(d, st, buf, v + n, v + n + 1) == r
    ensures r == State(b + 6, 0, st.marks.(clEnd := if ValueAt(len, s, n) == 26 then v + n else st.marks.clEnd),
                       st.writes.(headers := st.writes.headers[key := s[..n]]))
  {
    HeadIsDelta(d, b, ValueAt(len, s, n), CR);
    SetPart(st.writes, st.marks, buf, key, s, n, v);
    if ValueAt(len, s, n) == 26 {
      StepTwo(d, st, buf, v + n, b + 6, EndValue, EndCl);
    } else {
      StepOne(d, st, buf, v + n, b + 6, EndValue);
    }
    r := Run(d, st, buf, v + n, v + n + 1);
  }

  lemma ValueStep(len: bool, s: Text, n: nat)
    requires ValueOk(s) && 1 <= n < |s|
    ensures var h, g := ValueAt(len, s, n), HeadDelta(ValueAt(len, s, n), s[n]);
      g.to == ValueAt(len, s, n + 1) <= 26 && if s[n] == CR && h != 8 then h in {5, 6, 9, 26} && g.to == 6 else g.acts == []
  {
    if ValueAt(len, s, n) != 26 {
      TailStep(s, n);
    } else {
      assert forall i :: 0 <= i < n ==> IsDigit(s[i]);
    }
  }

  lemma MarksNext(m: Marks, len: bool, s: Text, n: nat, v: nat)
    requires ValueOk(s) && 1 <= n < |s|
    ensures ValueMarks(m, len, s, n + 1, v) ==
      if s[n] == CR && ValueAt(len, s, n) == 26 then ValueMarks(m, len, s, n, v).(clEnd := v + n) else ValueMarks(m, len, s, n, v)
  {
    var k := Tail(s, n);
  }

  lemma ValueNext(d: Table, b: nat, q: State, st: State, buf: Text, key: Text, len: bool, s: Text, n: nat, v: nat)
    returns (r: State)
    requires KeyRead(d, b, q, buf, key, len) && At(buf, v, s) && ValueOk(s) && InValue(b, q, st, key, len, s, n, v)
    requires n < |s|
    ensures Run(d, st, buf, v + n, v + n + 1) == r && InValue(b, q, r, key, len, s, n + 1, v)
  {
    var c, h := s[n], ValueAt(len, s, n);
    AtIndex(buf, v, s, n);
    ValueStep(len, s, n);
    MarksNext(q.marks, len, s, n, v);
    if c == CR && h != 8 {
      r := ValueReturn(d, b, q, st, buf, key, len, s, n, v);
      SetTwice(st.writes.headers, key, s[..n], s);
    } else {
      HeadIsDelta(d, b, h, c);
      StepQuiet(d, st, buf, v + n, b + ValueAt(len, s, n + 1));
      r := st.(cs := b + ValueAt(len, s, n + 1));
    }
  }

  lemma SetTwice(h: map<Text, Text>, key: Text, x: Text, y: Text)
    ensures h[key := x][key := y] == h[key := y]
  {
  }

  lemma {:induction false} ValueRun(d: Table, b: nat, q: State, buf: Text, key: Text, len: bool, s: Text, n: nat, v: nat)
    returns (r: State)
    requires KeyRead(d, b, q, buf, key, len) && At(buf, v, s) && ValueOk(s) && 1 <= n <= |s|
    ensures Run(d, q, buf, v, v + n) == r && InValue(b, q, r, key, len, s, n, v)
    decreases n
  {
    if n == 1 {
      r := ValueFirst(d, b, q, buf, key, len, s, v);
    } else {
      var st := ValueRun(d, b, q, buf, key, len, s, n - 1, v);
      r := ValueNext(d, b, q, st, buf, key, len, s, n - 1, v);
      Compose(d, q, buf, v, v + n - 1, v + n, st, r);
    }
  }

  /** The end of a header line: the header is set. */
  lemma ValueEnd(d: Table, b: nat, q: State, st: State, buf: Text, key: Text, len: bool, s: Text, v: nat) returns (r: State)
    requires KeyRead(d, b, q, buf, key, len) && At(buf, v, s) && ValueOk(s) && InValue(b, q, st, key, len, s, |s|, v)
    requires v + |s| + 1 < |buf| && buf[v + |s|] == CR && buf[v + |s| + 1] == LF
    ensures Run(d, st, buf, v + |s|, v + |s| + 2) == r
    ensures r == State(b + 7, 0, LastMarks(q.marks, len, s, v), q.writes.(headers := q.writes.headers[key := s]))
  {
    var p := v + |s|;
    TailEnds(s);
    var mid := ValueReturn(d, b, q, st, buf, key, len, s, |s|, v);
    assert s[..|s|] == s;
    HeadIsDelta(d, b, 6, LF);
    StepQuiet(d, mid, buf, p + 1, b + 7);
    r := mid.(cs := b + 7);
    Compose(d, st, buf, p, p + 1, p + 2, mid, r);
  }

  /** The marks after the whole value and the line break. */
  function LastMarks(m: Marks, len: bool, s: Text, v: nat): Marks {
    m.(valStart := v,
       clStart := if len && Lead(s) > 0 then v else m.clStart,
       clEnd := if len && Lead(s) > 0 && (Lead(s) == |s| || s[Lead(s)] == CR) then v + Lead(s) else m.clEnd)
  }

  /** The marks after a header line that starts at `p`. */
  function LineMarks(m: Marks, p: nat, key: Text, value: Text): Marks {
    LastMarks(m.(hdStart := p, hdEnd := p + |key|), IsLengthKey(key), value, p + |key| + 2)
  }

  lemma LineAt(buf: Text, p: nat, key: Text, value: Text)
    requires At(buf, p, HeaderLine(key, value))
    ensures var c := p + |key|; At(buf, p, key) && c + 1 < |buf| && buf[c] == COLON && buf[c + 1] == SP
    ensures At(buf, p + |key| + 2, value)
    ensures var e := p + |key| + 2 + |value|; e + 1 < |buf| && buf[e] == CR && buf[e + 1] == LF
  {
    AtSplit(buf, p, key + [COLON, SP] + value, [CR, LF]);
    AtSplit(buf, p, key + [COLON, SP], value);
    AtSplit(buf, p, key, [COLON, SP]);
    var c, e := p + |key|, p + |key| + 2 + |value|;
    AtIndex(buf, c, [COLON, SP], 0);
    AtIndex(buf, c, [COLON, SP], 1);
    AtIndex(buf, e, [CR, LF], 0);
    AtIndex(buf, e, [CR, LF], 1);
  }

  lemma Compose(d: Table, st: State, buf: Text, p: nat, q: nat, r: nat, s1: State, s2: State)
    requires p <= q <= r <= |buf| && Run(d, st, buf, p, q) == s1 && Run(d, s1, buf, q, r) == s2
    ensures Run(d, st, buf, p, r) == s2
  {
    RunSplit(d, st, buf, p, q, r);
  }

  lemma KeyIsRead(d: Table, b: nat, q: State, buf: Text, p: nat, key: Text)
    requires HeadAt(d, b) && q.verdict == 0 && q.cs == b + (if IsLengthKey(key) then 25 else 4)
    requires At(buf, p, key) && KeyOk(key) && q.marks.hdStart == p && q.marks.hdEnd == p + |key|
    ensures KeyRead(d, b, q, buf, key, IsLengthKey(key))
  {
    NoNul(key);
  }

  /** The value of a header and the line break after it. */
  lemma ValueLine(d: Table, b: nat, q: State, buf: Text, key: Text, len: bool, s: Text, v: nat) returns (r: State)
    requires KeyRead(d, b, q, buf, key, len) && At(buf, v, s) && ValueOk(s)
    requires v + |s| + 1 < |buf| && buf[v + |s|] == CR && buf[v + |s| + 1] == LF
    ensures Run(d, q, buf, v, v + |s| + 2) == r
    ensures r == State(b + 7, 0, LastMarks(q.marks, len, s, v), q.writes.(headers := q.writes.headers[key := s]))
  {
    var q1 := ValueRun(d, b, q, buf, key, len, s, |s|, v);
    r := ValueEnd(d, b, q, q1, buf, key, len, s, v);
    Compose(d, q, buf, v, v + |s|, v + |s| + 2, q1, r);
  }

  /** A printed header line is read back as the header it came from. */
  lemma LineRun(d: Table, b: nat, st: State, buf: Text, p: nat, key: Text, value: Text) returns (r: State)
    requires InHead(d, b, st) && (Local(b, st) == 0 || Local(b, st) == 7)
    requires At(buf, p, HeaderLine(key, value)) && KeyOk(key) && ValueOk(value)
    ensures Run(d, st, buf, p, p + |HeaderLine(key, value)|) == r
    ensures r == st.(
      cs := b + 7,
      marks := LineMarks(st.marks, p, key, value),
      writes := st.writes.(headers := st.writes.headers[key := value]))
  {
    LineAt(buf, p, key, value);
    var v := p + |key| + 2;
    var q := KeyLine(d, b, st, buf, p, key, p + |key|);
    KeyIsRead(d, b, q, buf, p, key);
    r := ValueLine(d, b, q, buf, key, IsLengthKey(key), value, v);
    Compose(d, st, buf, p, v, v + |value| + 2, q, r);
  }

  predicate HeadersOk(hs: Headers) {
    forall i :: 0 <= i < |hs| ==> KeyOk(hs[i].0) && ValueOk(hs[i].1)
  }

  predicate LengthsOk(hs: Headers) {
    forall i :: 0 <= i < |hs| && IsLengthKey(hs[i].0) ==> AllDigits(hs[i].1)
  }

  /** The value of the last header whose key spells content-length. */
  function LastLength(hs: Headers): Option<Text> {
    if hs == [] then None
    else if IsLengthKey(hs[|hs| - 1].0) then Some(hs[|hs| - 1].1)
    else LastLength(hs[..|hs| - 1])
  }

  /** The content-length marks enclose the digits of `v`. */
  ghost predicate LengthMarked(m: Marks, buf: Text, p: nat, v: Option<Text>) {
    match v
    case None => m.clStart == -1 && m.clEnd == -1
    case Some(s) => 0 <= m.clStart && m.clEnd == m.clStart + |s| < p && At(buf, m.clStart, s) && AllDigits(s)
  }

  lemma MarksAfterLine(m: Marks, buf: Text, p: nat, key: Text, value: Text, v: Option<Text>)
    requires value != [] && LengthMarked(m, buf, p, v) && At(buf, p + |key| + 2, value)
    requires IsLengthKey(key) ==> AllDigits(value)
    ensures LengthMarked(LineMarks(m, p, key, value), buf, p + |HeaderLine(key, value)|,
                         if IsLengthKey(key) then Some(value) else v)
  {
    assert AllDigits(value) ==> Lead(value) == |value|;
  }

  /** `r` is what has become of `st` after the lines of `hs`, at `e`. */
  ghost predicate HeadersDone(d: Table, b: nat, st: State, r: State, buf: Text, e: nat, hs: Headers) {
    && InHead(d, b, r) && Local(b, r) == (if hs == [] then 0 else 7)
    && r.writes == st.writes.(headers := AddAll(st.writes.headers, hs))
    && (LengthsOk(hs) ==> LengthMarked(r.marks, buf, e, LastLength(hs)))
    && r.marks == st.marks.(clStart := r.marks.clStart, clEnd := r.marks.clEnd,
         hdStart := r.marks.hdStart, hdEnd := r.marks.hdEnd, valStart := r.marks.valStart)
  }

  lemma HeadersNext(d: Table, b: nat, st: State, q: State, buf: Text, e: nat, hs: Headers, key: Text, value: Text)
    returns (r: State)
    requires hs != [] && hs[|hs| - 1] == (key, value) && KeyOk(key) && ValueOk(value)
    requires HeadersDone(d, b, st, q, buf, e, hs[..|hs| - 1]) && At(buf, e, HeaderLine(key, value))
    ensures Run(d, q, buf, e, e + |HeaderLine(key, value)|) == r
    ensures HeadersDone(d, b, st, r, buf, e + |HeaderLine(key, value)|, hs)
  {
    var front := hs[..|hs| - 1];
    LineAt(buf, e, key, value);
    r := LineRun(d, b, q, buf, e, key, value);
    if LengthsOk(hs) {
      assert forall i :: 0 <= i < |front| ==> front[i] == hs[i];
      MarksAfterLine(q.marks, buf, e, key, value, LastLength(front));
    }
  }

  /** A printed list of headers is read back as the map it stands for. */
  lemma {:induction false} HeadersRun(d: Table, b: nat, st: State, buf: Text, p: nat, hs: Headers) returns (r: State)
    requires InHead(d, b, st) && Local(b, st) == 0 && At(buf, p, PrintHeaders(hs)) && HeadersOk(hs)
    requires LengthMarked(st.marks, buf, p, None)
    ensures Run(d, st, buf, p, p + |PrintHeaders(hs)|) == r
    ensures HeadersDone(d, b, st, r, buf, p + |PrintHeaders(hs)|, hs)
    decreases |hs|
  {
    if hs == [] {
      r := st;
    } else {
      var front, key, value := hs[..|hs| - 1], hs[|hs| - 1].0, hs[|hs| - 1].1;
      AtSplit(buf, p, PrintHeaders(front), HeaderLine(key, value));
      var q := HeadersRun(d, b, st, buf, p, front);
      var e := p + |PrintHeaders(front)|;
      r := HeadersNext(d, b, st, q, buf, e, hs, key, value);
      Compose(d, st, buf, p, e, e + |HeaderLine(key, value)|, q, r);
    }
  }

  lemma {:induction false} DigitsStop(a: Text, b: Text, acc: nat)
    requires forall i :: 0 <= i < |a| ==> IsDigit(a[i])
    requires b == [] || !IsDigit(b[0])
    ensures Digits(a + b, acc) == Digits(a, acc)
    decreases |a|
  {
    if a == [] {
      assert a + b == b;
    } else {
      assert (a + b)[1..] == a[1..] + b;
      DigitsStop(a[1..], b, 10 * acc + (a[0] - 48));
    }
  }

  /** What Accept makes of the content-length marks. */
  lemma LengthRead(m: Marks, buf: Text, p: nat, s: Text)
    requires p <= |buf| && LengthMarked(m, buf, p, Some(s))
    ensures m.clEnd < |buf| && Atoi(Slice(buf[m.clEnd := 0], m.clStart, p)) == Atoi(s)
  {
    var t := Slice(buf[m.clEnd := 0], m.clStart, p);
    assert t == s + t[|s|..];
    DigitsStop(s, t[|s|..], 0);
  }

  /** The blank line that ends the head. */
  lemma BlankLine(d: Table, b: nat, st: State, buf: Text, p: nat) returns (r: State)
    requires InHead(d, b, st) && (Local(b, st) == 0 || Local(b, st) == 7)
    requires p + 1 < |buf| && buf[p] == CR && buf[p + 1] == LF
    ensures Run(d, st, buf, p, p + 2) == r && r == Perform(st.(cs := FinalOf(b)), Accept, buf, p + 1)
  {
    HeadIsDelta(d, b, Local(b, st), CR);
    StepQuiet(d, st, buf, p, b + 1);
    var q := st.(cs := b + 1);
    HeadIsDelta(d, b, 1, LF);
    StepOne(d, q, buf, p + 1, FinalOf(b), Accept);
    r := Perform(q.(cs := FinalOf(b)), Accept, buf, p + 1);
    Compose(d, st, buf, p, p + 1, p + 2, q, r);
  }
}
