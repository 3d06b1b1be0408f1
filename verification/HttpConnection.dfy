/** The http structure and the operations that read and write messages through it. */
module HttpConnection {
  import opened Wrappers
  import opened RbTree
  import opened HttpMachine
  import opened HttpTables
  import opened HttpHeaders
  import opened HttpParse
  import opened HttpRoundTrip
  import opened HttpPrint
  import opened HttpStream

  /** The actions of one transition as a function, at a fixed place of a buffer. */
  type Fold = (State, seq<Act>) -> State

  ghost predicate Folds(fold: Fold, buf: Text, p: nat) {
    forall st, acts {:trigger PerformAll(st, acts, buf, p)} :: fold(st, acts) == PerformAll(st, acts, buf, p)
  }

  lemma FoldNone(fold: Fold, p: nat, st: State, buf: Text)
    requires Folds(fold, buf, p)
    ensures fold(st, []) == st
  {
    assert PerformAll(st, [], buf, p) == st;
  }

  lemma FoldOne(fold: Fold, acts: seq<Act>, i: nat, p: nat, st: State, buf: Text) returns (next: State)
    requires i < |acts| && Folds(fold, buf, p) && st.verdict == 0
    ensures next == Perform(st, acts[i], buf, p)
    ensures fold(st, acts[i..]) == if next.verdict != 0 then next else fold(next, acts[i + 1..])
  {
    next := Perform(st, acts[i], buf, p);
    assert acts[i..][1..] == acts[i + 1..];
    assert PerformAll(st, acts[i..], buf, p) == PerformAll(next, acts[i + 1..], buf, p);
  }

  ghost function FoldAt(buf: Text, p: nat): (fold: Fold)
    ensures Folds(fold, buf, p)
  {
    (st: State, acts: seq<Act>) => PerformAll(st, acts, buf, p)
  }

  lemma {:induction false} ActsKeepState(st: State, acts: seq<Act>, buf: Text, p: nat)
    ensures PerformAll(st, acts, buf, p).cs == st.cs
    decreases |acts|
  {
    if acts != [] && st.verdict == 0 {
      ActsKeepState(Perform(st, acts[0], buf, p), acts[1..], buf, p);
    }
  }

  /** `d` is the transition function of the grammar. */
  ghost predicate Reads(d: Table, k: Kind) {
    forall cs: nat, c: int {:trigger Delta(k, cs, c)} :: d(cs, c) == Delta(k, cs, c)
  }

  /** The table entry for a state and a character. */
  method Find(k: Kind, cs: nat, c: int, ghost d: Table) returns (g: Goto)
    requires Reads(d, k)
    ensures g == d(cs, c)
  {
    var row := TableRow(k, cs);
    RowsSorted(k, cs);
    var i := Lookup(row, c);
    g := row.gotos[i];
    ScanIsDelta(k, cs, c, i);
  }

  /** How a server comes to a request: heads that do not parse are answered and dropped with all that
      came in with them, and the reading starts over on `chunks`, unless an answer cannot be sent. */
  datatype Session = Session(alive: bool, version: Version, chunks: seq<Text>, replies: Text)

  function Settle(d: Table, w: Wording, v: Version, chunks: seq<Text>, budget: nat): Session
    requires WordingOk(w)
    decreases |chunks|
  {
    var h := ReadHead(d, Unset(v), [], chunks);
    if h.verdict != -1 then Session(true, v, chunks, []) else
    var reply := BadRequest(w, h.fields.version);
    if |reply| > budget then Session(false, v, chunks, reply[..budget])
    else
      var rest := Settle(d, w, h.fields.version, h.rest, budget - |reply|);
      rest.(replies := reply + rest.replies)
  }

  /** A stream that can be the start of a request is never dropped, however it is cut into reads. */
  lemma SettlesAtOnce(d: Table, w: Wording, v: Version, chunks: seq<Text>, budget: nat)
    requires WordingOk(w)
    ensures Parse(d, Join(chunks)).verdict != -1 <==> Settle(d, w, v, chunks, budget) == Session(true, v, chunks, [])
  {
    ChunksDoNotMatter(d, Unset(v), chunks);
  }

  /** Settling as a function, for a fixed grammar and wording. */
  type Settling = (Version, seq<Text>, nat) -> Session

  ghost predicate Settles(settle: Settling, d: Table, w: Wording)
    requires WordingOk(w)
  {
    forall v, chunks, budget {:trigger Settle(d, w, v, chunks, budget)} ::
      settle(v, chunks, budget) == Settle(d, w, v, chunks, budget)
  }

  function Front(s: Text, n: nat): (r: Text)
    ensures |r| <= n && r <= s
  {
    if |s| <= n then s else s[..n]
  }

  lemma FrontTwice(a: Text, b: Text, n: nat)
    ensures Front(a, n) + (if |a| <= n then Front(b, n - |a|) else []) == Front(a + b, n)
  {
  }

  /** A connection: what the reads to come will return, and what has been written. */
  class Socket {
    var input: seq<Text>
    var output: Text
    var budget: nat

    constructor (input: seq<Text>, budget: nat)
      ensures this.input == input && this.budget == budget && output == []
    {
      this.input, this.budget, output := input, budget, [];
    }

    /** rn_socket_readb: fails at the end of the input. */
    method Read(buffer: Text) returns (ok: bool, b: Text)
      modifies `input
      ensures ok <==> old(input) != []
      ensures ok ==> b == buffer + old(input)[0] && input == old(input)[1..]
      ensures !ok ==> b == buffer && input == old(input)
    {
      if input == [] {
        return false, buffer;
      }
      ok, b, input := true, buffer + input[0], input[1..];
    }

    /** What a write leaves of the budget, and what goes out. */
    twostate predicate Sent(b: Text, ok: bool)
      reads this
    {
      && (ok <==> |b| <= old(budget))
      && output == old(output) + Front(b, old(budget)) && budget == old(budget) - |Front(b, old(budget))|
    }

    /** rn_socket_writeb: the peer takes `budget` more bytes, in whatever portions, and then no more. */
    method Write(b: Text) returns (ok: bool)
      modifies `output, `budget
      ensures Sent(b, ok)
    {
      ok := |b| <= budget;
      output, budget := output + Front(b, budget), budget - |Front(b, budget)|;
    }
  }

  /** One direction: a request uses `verb` and `uri`, a response `code` and `msg`. */
  class Message {
    const kind: Kind
    var buffer: Text
    var verb: Option<Method>
    var uri: Option<(int, int)>
    var code: nat
    var msg: Option<(int, int)>
    var content: Option<(int, int)>
    const headers: HeaderSet

    constructor (kind: Kind)
      ensures this.kind == kind && headers.Valid() && fresh(headers) && fresh(headers.tree) && headers.tree.repr == {}
      ensures buffer == [] && verb == None && uri == None && code == 0 && msg == None
    {
      this.kind := kind;
      buffer, verb, uri, code, msg, content := [], None, None, 0, None, None;
      headers := new HeaderSet();
    }

    ghost function Fields(version: Version): Filled
      requires headers.Valid()
      reads this, headers, headers.tree, headers.tree.repr
    {
      Filled(verb, version, headers.Map(), uri, code, msg, headers.contentLength, headers.length)
    }

    /** The header action of the parsers. */
    method EndHeader(m: Marks, p: nat)
      requires headers.Valid()
      modifies headers.tree, headers.tree.repr
      ensures headers.Valid() && fresh(headers.tree.repr - old(headers.tree.repr))
      ensures headers.Map() == old(headers.Map()) + Write(NO_WRITES, EndValue, m, buffer, p).headers
    {
      if m.hdStart >= 0 && m.hdEnd >= 0 && m.valStart >= 0 {
        var _ := headers.SetData(Slice(buffer, m.hdStart, m.hdEnd), Slice(buffer, m.valStart, p));
      }
    }

    /** The last action: the fields that the marks enclose are set. */
    method End(m: Marks, p: nat)
      modifies `uri, `code, `msg, headers`contentLength, headers`length
      ensures var done := Write(NO_WRITES, Accept, m, buffer, p);
        && uri == (if done.uri.Some? then done.uri else old(uri))
        && code == Or(done.code, old(code))
        && msg == (if done.msg.Some? then done.msg else old(msg))
        && headers.contentLength == Or(done.contentLength, old(headers.contentLength))
        && headers.length == Or(done.length, old(headers.length))
    {
      uri := if m.uriStart >= 0 then Some((m.uriStart, m.uriEnd)) else uri;
      code := if m.codeStart >= 0 then Atoi(Slice(buffer, m.codeStart, p)) else code;
      msg := if m.msgStart >= 0 then Some((m.msgStart, m.msgEnd)) else msg;
      if m.clStart >= 0 && m.clEnd >= 0 {
        var ended := if m.clEnd < |buffer| then buffer[m.clEnd := 0] else buffer;
        headers.contentLength := Atoi(Slice(ended, m.clStart, p));
      }
      headers.length := p + 1;
    }

    method Finish(m: Marks, p: nat, ghost version: Version)
      requires headers.Valid()
      modifies `uri, `code, `msg, headers`contentLength, headers`length
      ensures headers.Valid() && Fields(version) == Apply(old(Fields(version)), Write(NO_WRITES, Accept, m, buffer, p))
    {
      End(m, p);
    }

    /** One action of the parsers. */
    method Do(http: Http, a: Act, m: Marks, p: nat) returns (ret: int, m1: Marks)
      requires headers.Valid()
      modifies http`version, `verb, `uri, `code, `msg, headers, headers.tree, headers.tree.repr
      ensures headers.Valid() && fresh(headers.tree.repr - old(headers.tree.repr))
      ensures ret == Verdict(a) && m1 == Mark(m, a, p)
      ensures Fields(http.version) == Apply(old(Fields(http.version)), Write(NO_WRITES, a, m, buffer, p))
    {
      ret, m1 := Verdict(a), Mark(m, a, p);
      ApplyNothing(Fields(http.version));
      match a
      case EndValue => EndHeader(m, p);
      case SetMethod(v) => verb := Some(v);
      case SetVersion(v) => http.version := v;
      case Accept => Finish(m, p, http.version);
      case _ =>
    }

    method DoOne(http: Http, acts: seq<Act>, i: nat, m: Marks, p: nat, ghost fold: Fold, ghost f: Filled, ghost now: State)
      returns (ret: int, m1: Marks, ghost next: State)
      requires headers.Valid() && i < |acts| && Folds(fold, buffer, p)
      requires now.verdict == 0 && now.marks == m && Fields(http.version) == Apply(f, now.writes)
      modifies http`version, `verb, `uri, `code, `msg, headers, headers.tree, headers.tree.repr
      ensures headers.Valid() && fresh(headers.tree.repr - old(headers.tree.repr))
      ensures ret == next.verdict && m1 == next.marks && Fields(http.version) == Apply(f, next.writes)
      ensures fold(now, acts[i..]) == if ret != 0 then next else fold(next, acts[i + 1..])
    {
      ActAdds(f, now.writes, acts[i], m, buffer, p);
      next := FoldOne(fold, acts, i, p, now, buffer);
      ret, m1 := Do(http, acts[i], m, p);
    }

    /** The loop over the actions of one transition. */
    method DoAll(http: Http, acts: seq<Act>, m: Marks, p: nat, ghost fold: Fold, ghost f: Filled, ghost st: State)
      returns (ret: int, m1: Marks)
      requires headers.Valid() && Folds(fold, buffer, p)
      requires st.verdict == 0 && st.marks == m && Fields(http.version) == Apply(f, st.writes)
      modifies http`version, `verb, `uri, `code, `msg, headers, headers.tree, headers.tree.repr
      ensures headers.Valid() && fresh(headers.tree.repr - old(headers.tree.repr))
      ensures var st1 := fold(st, acts);
        ret == st1.verdict && m1 == st1.marks && Fields(http.version) == Apply(f, st1.writes)
    {
      var i := 0;
      ghost var now := st;
      ret, m1 := 0, m;
      assert acts[0..] == acts;
      while i < |acts| && ret == 0
        invariant 0 <= i <= |acts|
        invariant headers.Valid() && fresh(headers.tree.repr - old(headers.tree.repr))
        invariant now.verdict == ret && now.marks == m1 && Fields(http.version) == Apply(f, now.writes)
        invariant fold(st, acts) == if ret != 0 then now else fold(now, acts[i..])
      {
        ret, m1, now := DoOne(http, acts, i, m1, p, fold, f, now);
        i := i + 1;
      }
      FoldNone(fold, p, now, buffer);
      assert i == |acts| ==> acts[i..] == [];
    }

    /** One turn of the parser: the table entry for the state and the character, then its actions. */
    method Turn(http: Http, cs: nat, m: Marks, p: nat, ghost d: Table, ghost f: Filled, ghost st: State)
      returns (ret: int, cs1: nat, m1: Marks, ghost st1: State)
      requires headers.Valid() && p < |buffer| && Reads(d, kind)
      requires st == State(cs, 0, m, st.writes) && Fields(http.version) == Apply(f, st.writes)
      modifies http`version, `verb, `uri, `code, `msg, headers, headers.tree, headers.tree.repr
      ensures headers.Valid() && fresh(headers.tree.repr - old(headers.tree.repr))
      ensures st1 == Step(d, st, buffer, p)
      ensures st1 == State(cs1, ret, m1, st1.writes) && Fields(http.version) == Apply(f, st1.writes)
    {
      var g := Find(kind, cs, buffer[p], d);
      cs1 := g.to;
      ghost var fold := FoldAt(buffer, p);
      ret, m1 := DoAll(http, g.acts, m, p, fold, f, st.(cs := cs1));
      st1 := fold(st.(cs := cs1), g.acts);
      ActsKeepState(st.(cs := cs1), g.acts, buffer, p);
    }

    /** The loop of the parser. */
    method ParseLoop(http: Http, ghost d: Table) returns (ret: int)
      requires headers.Valid() && Reads(d, kind)
      modifies http`version, `verb, `uri, `code, `msg, headers, headers.tree, headers.tree.repr
      ensures headers.Valid() && fresh(headers.tree.repr - old(headers.tree.repr))
      ensures var st := Parse(d, buffer);
        ret == st.verdict && Fields(http.version) == Apply(old(Fields(http.version)), st.writes)
    {
      ghost var f := Fields(http.version);
      ApplyNothing(f);
      var cs, m, p := 1, NO_MARKS, 0;
      ghost var st := START;
      ret := 0;
      while p < |buffer| && ret == 0
        invariant 0 <= p <= |buffer| && st == State(cs, ret, m, st.writes)
        invariant headers.Valid() && fresh(headers.tree.repr - old(headers.tree.repr))
        invariant Fields(http.version) == Apply(f, st.writes)
        invariant Parse(d, buffer) == Run(d, st, buffer, p, |buffer|)
      {
        ret, cs, m, st := Turn(http, cs, m, p, d, f, st);
        p := p + 1;
      }
    }

    /** rn_http_request_parse and rn_http_response_parse: 1 if the buffer holds a whole head, -1 if it
        cannot be the start of one, else 0. */
    method ParseBuffer(http: Http) returns (ret: int)
      requires headers.Valid()
      modifies http`version, `verb, `uri, `code, `msg, headers, headers.tree, headers.tree.repr
      ensures headers.Valid() && fresh(headers.tree.repr - old(headers.tree.repr))
      ensures var st := Parse(Reader(kind), buffer);
        ret == st.verdict && Fields(http.version) == Apply(old(Fields(http.version)), st.writes)
    {
      ret := ParseLoop(http, Reader(kind));
    }

    method SetDefault(key: Text, value: Text)
      requires headers.Valid() && Bare(key) && Bare(value) && value != []
      modifies headers.tree, headers.tree.repr
      ensures headers.Valid() && fresh(headers.tree.repr - old(headers.tree.repr))
      ensures headers.Map() == Default(old(headers.Map()), key, value)
    {
      NoNul(key);
      NoNul(value);
      var node := headers.Get(key);
      if node == null {
        var _ := headers.SetData(key, value);
      }
    }

    /** rn_http_request_setdefaultheaders */
    method SetLength()
      requires headers.Valid()
      modifies headers.tree, headers.tree.repr
      ensures headers.Valid() && fresh(headers.tree.repr - old(headers.tree.repr))
      ensures headers.Map() == Default(old(headers.Map()), LENGTH_KEY, Dec(headers.contentLength))
    {
      DecIsBare(headers.contentLength);
      SetDefault(LENGTH_KEY, Dec(headers.contentLength));
    }

    /** rn_http_response_setdefaultheaders */
    method SetLengthAndServer(w: Wording)
      requires headers.Valid() && ValueOk(w.server)
      modifies headers.tree, headers.tree.repr
      ensures headers.Valid() && fresh(headers.tree.repr - old(headers.tree.repr))
      ensures headers.Map() == Completed(w, old(headers.Map()), headers.contentLength)
    {
      SetLength();
      SetServer(w);
    }

    method SetServer(w: Wording)
      requires headers.Valid() && ValueOk(w.server)
      modifies headers.tree, headers.tree.repr
      ensures headers.Valid() && fresh(headers.tree.repr - old(headers.tree.repr))
      ensures headers.Map() == Default(old(headers.Map()), SERVER_KEY, w.server)
    {
      SetDefault(SERVER_KEY, w.server);
    }

    method PrintResponse(version: Version, code: nat, msg: Text) returns (text: Text)
      requires headers.Valid() && 100 <= code <= 999
      ensures text == ResponseHead(version, code, msg, headers.Pairs())
    {
      text := Protocol(version);
      text := text + [SP] + Dec(code) + [SP] + msg + [CR, LF];
      DecIsDec3(code);
      text := headers.Print(text);
      text := text + [CR, LF];
    }

    method Complete(w: Wording, n: nat)
      requires headers.Valid() && ValueOk(w.server)
      modifies headers`contentLength, headers.tree, headers.tree.repr
      ensures headers.Valid() && fresh(headers.tree.repr - old(headers.tree.repr))
      ensures headers.contentLength == n && headers.Map() == Completed(w, old(headers.Map()), n)
    {
      headers.contentLength := n;
      SetLengthAndServer(w);
    }

    method SetHead(code: nat, text: Text)
      modifies `code, `buffer
      ensures this.code == code && buffer == text
    {
      this.code, buffer := code, text;
    }

    method FillResponse(version: Version, w: Wording, n: nat)
      requires headers.Valid() && WordingOk(w)
      modifies `buffer, `code, headers`contentLength, headers.tree, headers.tree.repr
      ensures headers.Valid() && fresh(headers.tree.repr - old(headers.tree.repr))
      ensures headers.contentLength == n && headers.Map() == Completed(w, old(headers.Map()), n)
      ensures code == Status(w, old(code)).0
      ensures buffer == ResponseHead(version, code, Status(w, old(code)).1, headers.Pairs())
    {
      Complete(w, n);
      var status := Status(w, code);
      var text := PrintResponse(version, status.0, status.1);
      SetHead(status.0, text);
    }

    /** rn_http_response_prepare */
    method Prepare(version: Version, w: Wording, n: nat) returns (r: int)
      requires headers.Valid() && WordingOk(w)
      modifies `buffer, `code, headers, headers.tree, headers.tree.repr
      ensures headers.Valid() && fresh(headers.tree.repr - old(headers.tree.repr))
      ensures r == if old(buffer) == [] then 0 else -1
      ensures r == -1 ==> buffer == old(buffer) && code == old(code) && headers.Map() == old(headers.Map())
      ensures r == 0 ==> headers.contentLength == n && headers.Map() == Completed(w, old(headers.Map()), n)
      ensures r == 0 ==> code == Status(w, old(code)).0
      ensures r == 0 ==> buffer == ResponseHead(version, code, Status(w, old(code)).1, headers.Pairs())
    {
      if buffer != [] {
        return -1;
      }
      FillResponse(version, w, n);
      return 0;
    }

    method PrintRequest(version: Version, verb: Method, uri: Text) returns (text: Text)
      requires headers.Valid()
      ensures text == RequestHead(verb, uri, version, headers.Pairs())
    {
      text := Word(verb) + [SP];
      text := text + uri;
      text := text + ([SP] + Protocol(version) + [CR, LF]);
      assert text == RequestLine(verb, uri, version);
      text := headers.Print(text);
      text := text + [CR, LF];
    }

    method FillRequest(version: Version, verb: Method, uri: Text)
      requires headers.Valid()
      modifies `buffer, headers.tree, headers.tree.repr
      ensures headers.Valid() && fresh(headers.tree.repr - old(headers.tree.repr))
      ensures headers.Map() == Default(old(headers.Map()), LENGTH_KEY, Dec(headers.contentLength))
      ensures buffer == RequestHead(verb, uri, version, headers.Pairs())
    {
      SetLength();
      var text := PrintRequest(version, verb, uri);
      buffer := text;
    }

    /** rn_http_request_send up to the writing; no method is the unknown one. */
    method PrepareRequest(version: Version, verb: Option<Method>, uri: Text, body: Option<Text>) returns (r: int)
      requires headers.Valid()
      modifies `buffer, `verb, headers`contentLength, headers.tree, headers.tree.repr
      ensures headers.Valid() && fresh(headers.tree.repr - old(headers.tree.repr))
      ensures r == if old(buffer) == [] && verb.Some? then 0 else -1
      ensures r == 0 ==> headers.contentLength == if body.Some? then |body.value| else old(headers.contentLength)
      ensures r == 0 ==> headers.Map() == Default(old(headers.Map()), LENGTH_KEY, Dec(headers.contentLength))
      ensures r == 0 ==> buffer == RequestHead(verb.value, CStr(uri), version, headers.Pairs()) && this.verb == verb
    {
      if buffer != [] {
        return -1;
      }
      if body.Some? {
        headers.contentLength := |body.value|;
      }
      this.verb := verb;
      if verb.None? {
        return -1;
      }
      FillRequest(version, verb.value, CStr(uri));
      return 0;
    }

    method Fetch(socket: Socket, ghost version: Version) returns (ok: bool)
      requires headers.Valid()
      modifies `buffer, socket`input
      ensures headers.Valid() && Fields(version) == old(Fields(version))
      ensures ok <==> old(socket.input) != []
      ensures !ok ==> buffer == old(buffer) && socket.input == []
      ensures ok ==> buffer == old(buffer) + old(socket.input)[0] && socket.input == old(socket.input)[1..]
    {
      ok, buffer := socket.Read(buffer);
    }

    /** One read, then the parser over all that has come in so far. */
    method ReadAndParse(http: Http, socket: Socket, ghost d: Table) returns (ok: bool, ret: int)
      requires headers.Valid() && Reads(d, kind)
      modifies http`version, `buffer, `verb, `uri, `code, `msg, headers, headers.tree, headers.tree.repr, socket`input
      ensures headers.Valid() && fresh(headers.tree.repr - old(headers.tree.repr))
      ensures ok <==> old(socket.input) != []
      ensures !ok ==> ret == 0 && buffer == old(buffer) && socket.input == [] && Fields(http.version) == old(Fields(http.version))
      ensures ok ==> buffer == old(buffer) + old(socket.input)[0] && socket.input == old(socket.input)[1..]
      ensures ok ==> ret == Parse(d, buffer).verdict
      ensures ok ==> Fields(http.version) == Apply(old(Fields(http.version)), Parse(d, buffer).writes)
    {
      ok := Fetch(socket, http.version);
      ret := 0;
      if ok {
        ret := ParseLoop(http, d);
      }
    }

    /** The read loop up to the first verdict; 0 if the input ends before. */
    method Receive(http: Http, socket: Socket, ghost d: Table) returns (ret: int)
      requires headers.Valid() && Reads(d, kind)
      modifies http`version, `buffer, `verb, `uri, `code, `msg, headers, headers.tree, headers.tree.repr, socket`input
      ensures headers.Valid() && fresh(headers.tree.repr - old(headers.tree.repr))
      ensures Head(Fields(http.version), buffer, socket.input, ret) ==
        old(ReadHead(d, Fields(http.version), buffer, socket.input))
    {
      ghost var goal := ReadHead(d, Fields(http.version), buffer, socket.input);
      var ok := true;
      ret := 0;
      while ok && ret == 0
        invariant headers.Valid() && fresh(headers.tree.repr - old(headers.tree.repr))
        invariant goal == if ret != 0 || !ok then Head(Fields(http.version), buffer, socket.input, ret)
                          else ReadHead(d, Fields(http.version), buffer, socket.input)
        decreases ok, |socket.input|
      {
        ok, ret := ReadAndParse(http, socket, d);
      }
    }

    /** The loop that waits for the content after a head. */
    method ReadContent(socket: Socket) returns (ok: bool)
      modifies `buffer, `content, socket`input
      ensures buffer + Join(socket.input) == old(buffer + Join(socket.input))
      ensures ok <==> Need(headers.length, headers.contentLength) <= |old(buffer + Join(socket.input))|
      ensures ok ==> old(buffer) <= buffer && Need(headers.length, headers.contentLength) <= |buffer|
      ensures ok ==> content == Some((headers.length, headers.contentLength))
    {
      var need := Need(headers.length, headers.contentLength);
      ghost var all := buffer + Join(socket.input);
      while |buffer| < need
        invariant buffer + Join(socket.input) == all && old(buffer) <= buffer
        decreases |socket.input|
      {
        ghost var input, before := socket.input, buffer;
        ok, buffer := socket.Read(buffer);
        if !ok {
          return;
        }
        assert before + (input[0] + Join(input[1..])) == before + input[0] + Join(input[1..]);
      }
      content := Some((headers.length, headers.contentLength));
      ok := true;
    }

    /** One direction of rn_http_reset. */
    method Reset(ghost version: Version)
      requires headers.Valid()
      modifies this, headers, headers.tree
      ensures headers.Valid() && headers.tree.repr == {} && buffer == [] && Fields(version) == Unset(version)
    {
      Clear();
      headers.Flush();
    }

    method Clear()
      modifies this
      ensures buffer == [] && verb == None && uri == None && code == 0 && msg == None && content == old(content)
    {
      buffer, verb, uri, code, msg := [], None, None, 0, None;
    }

    method FinishContent(socket: Socket, ghost version: Version) returns (ok: bool)
      requires headers.Valid()
      modifies `buffer, `content, socket`input
      ensures headers.Valid() && Fields(version) == old(Fields(version))
      ensures buffer + Join(socket.input) == old(buffer + Join(socket.input))
      ensures ok <==> Need(headers.length, headers.contentLength) <= |old(buffer + Join(socket.input))|
      ensures ok ==> old(buffer) <= buffer && Need(headers.length, headers.contentLength) <= |buffer|
      ensures ok ==> content == Some((headers.length, headers.contentLength))
    {
      ok := ReadContent(socket);
    }

    /** The read loop and, after a whole head, the wait for the content. */
    method ReceiveAll(http: Http, socket: Socket, ghost d: Table, ghost v: Version) returns (ret: int, ok: bool)
      requires headers.Valid() && Reads(d, kind) && buffer == [] && Fields(http.version) == Unset(v)
      modifies http`version, this, headers, headers.tree, headers.tree.repr, socket`input
      ensures headers.Valid() && fresh(headers.tree.repr - old(headers.tree.repr))
      ensures Got(d, v, Join(old(socket.input)), ok, Fields(http.version), buffer, content)
      ensures var h := ReadHead(d, Unset(v), [], old(socket.input));
        ret == h.verdict && http.version == h.fields.version && (ret != 1 ==> !ok && socket.input == h.rest)
    {
      ghost var input := socket.input;
      ret := Receive(http, socket, d);
      ok := false;
      if ret == 1 {
        ok := FinishContent(socket, http.version);
      }
      HeadIsGot(d, v, input, ok, buffer, socket.input, content);
    }
  }

  class Http {
    var version: Version
    const request: Message
    const response: Message
    const socket: Socket
    const wording: Wording

    constructor (socket: Socket, wording: Wording)
      requires WordingOk(wording)
      ensures Valid() && version == V11 && this.socket == socket && this.wording == wording
      ensures fresh(Parts()) && request.headers.tree.repr == {} && response.headers.tree.repr == {}
    {
      version := V11;
      this.socket, this.wording := socket, wording;
      request := new Message(Request);
      response := new Message(Response);
    }

    ghost function Parts(): set<object> {
      {this, request, request.headers, request.headers.tree, response, response.headers, response.headers.tree}
    }

    ghost predicate Apart() {
      && request.kind == Request && response.kind == Response && WordingOk(wording)
      && request != response && request.headers != response.headers && request.headers.tree != response.headers.tree
    }

    ghost predicate Valid()
      reads request.headers.tree, request.headers.tree.repr, response.headers.tree, response.headers.tree.repr
    {
      && Apart()
      && request.headers.tree.repr !! response.headers.tree.repr
      && request.headers.Valid() && response.headers.Valid()
    }

    /** rn_http_reset */
    method Reset()
      requires Apart() && request.headers.Valid() && response.headers.Valid()
      modifies request, request.headers, request.headers.tree, response, response.headers, response.headers.tree
      ensures Ready()
    {
      request.Reset(version);
      response.Reset(version);
    }

    /** rn_http_response_get */
    method GetResponse() returns (ok: bool)
      requires Apart() && request.headers.Valid() && response.headers.Valid()
      modifies this`version, request, request.headers, request.headers.tree
      modifies response, response.headers, response.headers.tree, socket`input
      ensures response.headers.Valid()
      ensures Got(Reader(Response), old(version), Join(old(socket.input)), ok,
                  response.Fields(version), response.buffer, response.content)
    {
      Reset();
      var ret;
      ret, ok := response.ReceiveAll(this, socket, Reader(Response), version);
      if ret == -1 {
        Reset();
      }
    }

    /** rn_http_response_send */
    method SendResponse(body: Option<Text>) returns (r: int)
      requires Apart() && response.headers.Valid()
      modifies response`buffer, response`code, response.headers, response.headers.tree, response.headers.tree.repr
      modifies socket`output, socket`budget
      ensures response.headers.Valid() && fresh(response.headers.tree.repr - old(response.headers.tree.repr))
      ensures old(response.buffer) != [] ==> r == -1 && socket.Sent([], true)
      ensures old(response.buffer) == [] ==> (r == 0 || r == -1) && socket.Sent(response.buffer + Or(body, []), r == 0)
      ensures old(response.buffer) == [] ==> var (code, msg) := Status(wording, old(response.code));
        && response.headers.Map() == Completed(wording, old(response.headers.Map()), |Or(body, [])|)
        && response.buffer == ResponseHead(version, code, msg, response.headers.Pairs())
    {
      r := response.Prepare(version, wording, |Or(body, [])|);
      if r != 0 {
        return -1;
      }
      var ok := WriteResponse(Or(body, []));
      return if ok then 0 else -1;
    }

    method WriteResponse(body: Text) returns (ok: bool)
      requires response.headers.Valid()
      modifies socket`output, socket`budget
      ensures response.headers.Valid() && response.headers.Pairs() == old(response.headers.Pairs())
      ensures response.headers.Map() == old(response.headers.Map()) && socket.Sent(response.buffer + body, ok)
    {
      ok := socket.Write(response.buffer + body);
    }

    /** rn_http_request_send */
    method SendRequest(verb: Option<Method>, uri: Text, body: Option<Text>) returns (r: int)
      requires Apart() && request.headers.Valid()
      modifies request`buffer, request`verb, request.headers, request.headers.tree, request.headers.tree.repr
      modifies socket`output, socket`budget
      ensures request.headers.Valid() && fresh(request.headers.tree.repr - old(request.headers.tree.repr))
      ensures old(request.buffer) != [] || verb.None? ==> r == -1 && socket.Sent([], true)
      ensures old(request.buffer) == [] && verb.Some? ==>
        var n := if body.Some? then |body.value| else old(request.headers.contentLength);
        && (r == 0 || r == -1) && socket.Sent(request.buffer + Or(body, []), r == 0)
        && request.buffer == RequestHead(verb.value, CStr(uri), version, request.headers.Pairs())
        && request.headers.Map() == Default(old(request.headers.Map()), LENGTH_KEY, Dec(n))
    {
      r := request.PrepareRequest(version, verb, uri, body);
      if r != 0 {
        return -1;
      }
      var ok := WriteRequest(body);
      return if ok then 0 else -1;
    }

    method WriteRequest(body: Option<Text>) returns (ok: bool)
      requires request.headers.Valid()
      modifies socket`output, socket`budget
      ensures request.headers.Valid() && request.headers.Pairs() == old(request.headers.Pairs())
      ensures request.headers.Map() == old(request.headers.Map()) && socket.Sent(request.buffer + Or(body, []), ok)
    {
      FrontTwice(request.buffer, Or(body, []), socket.budget);
      ok := socket.Write(request.buffer);
      if ok && body.Some? {
        ok := socket.Write(body.value);
      }
    }

    /** The answer to a head that does not parse, and the fresh start after it. */
    method Reject() returns (ok: bool)
      requires Apart() && request.headers.Valid() && response.headers.Valid()
      requires response.buffer == [] && response.headers.Map() == map[] && response.headers.tree.repr == {}
      modifies request, request.headers, request.headers.tree, response, response.headers, response.headers.tree
      modifies socket`output, socket`budget
      ensures socket.Sent(BadRequest(wording, version), ok)
      ensures request.headers.Valid() && (ok ==> Ready())
    {
      ok := SendBadRequest();
      if ok {
        Reset();
      }
    }

    method SendBadRequest() returns (ok: bool)
      requires Apart() && request.headers.Valid() && response.headers.Valid()
      requires response.buffer == [] && response.headers.Map() == map[] && response.headers.tree.repr == {}
      modifies response, response.headers, response.headers.tree, socket`output, socket`budget
      ensures request.headers.Valid() && response.headers.Valid()
      ensures socket.Sent(BadRequest(wording, version), ok)
    {
      response.code := 400;
      var r := SendResponse(None);
      ok := r == 0;
      DefaultsListed(wording, 0);
      OneListing(response.headers.Pairs(), Defaults(wording, 0));
    }

    /** As after rn_http_reset. */
    ghost predicate Ready()
      reads this, request, request.headers, request.headers.tree, request.headers.tree.repr
      reads response, response.headers, response.headers.tree, response.headers.tree.repr
    {
      && request.headers.Valid() && request.headers.tree.repr == {} && request.buffer == []
      && response.headers.Valid() && response.headers.tree.repr == {} && response.buffer == []
      && request.Fields(version) == Unset(version) && response.Fields(version) == Unset(version)
    }

    /** One round of the read loop of rn_http_request_get. */
    method Round(ghost d: Table, ghost settle: Settling) returns (ret: int, ok: bool, ghost reply: Text)
      requires Apart() && Ready() && Reads(d, Request) && Settles(settle, d, wording)
      modifies this`version, request, request.headers, request.headers.tree
      modifies response, response.headers, response.headers.tree, socket
      ensures request.headers.Valid()
      ensures ret != -1 ==>
        Got(d, old(version), Join(old(socket.input)), ok, request.Fields(version), request.buffer, request.content)
      ensures ret == -1 && ok ==> Ready() && |socket.input| < |old(socket.input)|
      ensures var s, rest := settle(old(version), old(socket.input), old(socket.budget)),
                             settle(version, socket.input, socket.budget);
        && socket.output == old(socket.output) + reply
        && if ret == -1 && ok then s == rest.(replies := reply + rest.replies)
           else s == Session(ret != -1, old(version), old(socket.input), reply)
    {
      ghost var s := Settle(d, wording, version, socket.input, socket.budget);
      ret, ok := request.ReceiveAll(this, socket, d, version);
      reply := [];
      if ret == -1 {
        reply := Front(BadRequest(wording, version), socket.budget);
        ok := Reject();
        ghost var rest := Settle(d, wording, version, socket.input, socket.budget);
      }
    }

    method Rounds(ghost d: Table, ghost settle: Settling) returns (ok: bool)
      requires Apart() && Ready() && Reads(d, Request) && Settles(settle, d, wording)
      modifies this`version, request, request.headers, request.headers.tree
      modifies response, response.headers, response.headers.tree, socket
      ensures request.headers.Valid()
      ensures var s := settle(old(version), old(socket.input), old(socket.budget));
        && socket.output == old(socket.output) + s.replies
        && (!s.alive ==> !ok)
        && (s.alive ==> Got(d, s.version, Join(s.chunks), ok, request.Fields(version), request.buffer, request.content))
    {
      ghost var goal, sent := settle(version, socket.input, socket.budget), [];
      while true
        invariant Ready()
        invariant socket.output == old(socket.output) + sent
        invariant var rest := settle(version, socket.input, socket.budget);
          goal == rest.(replies := sent + rest.replies)
        decreases |socket.input|
      {
        var ret;
        ghost var reply;
        ret, ok, reply := Round(d, settle);
        sent := sent + reply;
        if ret != -1 || !ok {
          return;
        }
      }
    }

    /** rn_http_request_get */
    method GetRequest() returns (ok: bool)
      requires Apart() && request.headers.Valid() && response.headers.Valid()
      modifies this`version, request, request.headers, request.headers.tree
      modifies response, response.headers, response.headers.tree, socket
      ensures request.headers.Valid()
      ensures var s := Settle(Reader(Request), wording, old(version), old(socket.input), old(socket.budget));
        && socket.output == old(socket.output) + s.replies
        && (!s.alive ==> !ok)
        && (s.alive ==>
             Got(Reader(Request), s.version, Join(s.chunks), ok, request.Fields(version), request.buffer, request.content))
    {
      Reset();
      ghost var w, d := wording, Reader(Request);
      ok := Rounds(d, (v: Version, chunks: seq<Text>, budget: nat) => Settle(d, w, v, chunks, budget));
    }
  }
}
