/** A head that comes in pieces. The parsers start over on the whole buffer after every read and
    the structure keeps what the runs before have written. */
module HttpStream {
  import opened Wrappers
  import opened HttpMachine
  import opened HttpHeaders
  import opened HttpParse

  /** The fields of the http structure that a parser writes. */
  datatype Filled = Filled(
    verb: Option<Method>, version: Version, headers: map<Text, Text>, uri: Option<(int, int)>,
    code: nat, msg: Option<(int, int)>, contentLength: nat, length: nat)

  function Or<T>(a: Option<T>, b: T): T {
    if a.Some? then a.value else b
  }

  function Apply(f: Filled, w: Writes): Filled {
    Filled(
      if w.verb.Some? then w.verb else f.verb, Or(w.version, f.version), f.headers + w.headers,
      if w.uri.Some? then w.uri else f.uri, Or(w.code, f.code),
      if w.msg.Some? then w.msg else f.msg, Or(w.contentLength, f.contentLength), Or(w.length, f.length))
  }

  lemma ApplyNothing(f: Filled)
    ensures Apply(f, NO_WRITES) == f
  {
    assert f.headers + map[] == f.headers;
  }

  /** All that `v` writes, `w` writes too. */
  ghost predicate Covers(w: Writes, v: Writes) {
    && (v.verb.Some? ==> w.verb.Some?)
    && (v.version.Some? ==> w.version.Some?)
    && v.headers.Keys <= w.headers.Keys
    && (v.uri.Some? ==> w.uri.Some?)
    && (v.code.Some? ==> w.code.Some?)
    && (v.msg.Some? ==> w.msg.Some?)
    && (v.contentLength.Some? ==> w.contentLength.Some?)
    && (v.length.Some? ==> w.length.Some?)
  }

  lemma Replay(f: Filled, v: Writes, w: Writes)
    requires Covers(w, v)
    ensures Apply(Apply(f, v), w) == Apply(f, w)
  {
    assert f.headers + v.headers + w.headers == f.headers + w.headers;
  }

  lemma ActCovers(st: State, a: Act, buf: Text, p: nat)
    ensures Covers(Perform(st, a, buf, p).writes, st.writes)
  {
  }

  lemma CoversChains(u: Writes, v: Writes, w: Writes)
    requires Covers(u, v) && Covers(v, w)
    ensures Covers(u, w)
  {
  }

  /** An action adds to the fields what it would add to none. */
  lemma ActAdds(f: Filled, w: Writes, a: Act, m: Marks, buf: Text, p: nat)
    ensures Apply(Apply(f, w), Write(NO_WRITES, a, m, buf, p)) == Apply(f, Write(w, a, m, buf, p))
  {
    if a.EndValue? && m.hdStart >= 0 && m.hdEnd >= 0 && m.valStart >= 0 {
      var key, value := Slice(buf, m.hdStart, m.hdEnd), Slice(buf, m.valStart, p);
      assert f.headers + w.headers + SetHeader(map[], key, value) == f.headers + SetHeader(w.headers, key, value);
    } else {
      assert f.headers + w.headers + map[] == f.headers + w.headers;
    }
  }

  lemma {:induction false} ActsCover(st: State, acts: seq<Act>, buf: Text, p: nat)
    ensures Covers(PerformAll(st, acts, buf, p).writes, st.writes)
    decreases |acts|
  {
    if acts != [] && st.verdict == 0 {
      var st1 := Perform(st, acts[0], buf, p);
      ActCovers(st, acts[0], buf, p);
      ActsCover(st1, acts[1..], buf, p);
      CoversChains(PerformAll(st1, acts[1..], buf, p).writes, st1.writes, st.writes);
    }
  }

  lemma {:induction false} RunCovers(d: Table, st: State, buf: Text, p: nat, q: nat)
    requires p <= q <= |buf|
    ensures Covers(Run(d, st, buf, p, q).writes, st.writes)
    decreases q - p
  {
    if p < q && st.verdict == 0 {
      var g := d(st.cs, buf[p]);
      ActsCover(st.(cs := g.to), g.acts, buf, p);
      RunCovers(d, Step(d, st, buf, p), buf, p + 1, q);
    }
  }

  // Bytes not yet read do not matter.

  ghost predicate Behind(m: Marks, p: int) {
    && m.uriStart <= p && m.uriEnd <= p && m.codeStart <= p && m.msgStart <= p && m.msgEnd <= p
    && m.clStart <= p && m.clEnd <= p && m.hdStart <= p && m.hdEnd <= p && m.valStart <= p
  }

  lemma SliceOfPrefix(buf: Text, more: Text, from: int, to: int)
    requires to <= |buf|
    ensures Slice(buf + more, from, to) == Slice(buf, from, to)
  {
  }

  lemma PerformOnPrefix(st: State, a: Act, buf: Text, more: Text, p: nat)
    requires p < |buf| && Behind(st.marks, p)
    ensures Perform(st, a, buf + more, p) == Perform(st, a, buf, p)
    ensures Behind(Perform(st, a, buf, p).marks, p)
  {
    var m := st.marks;
    SliceOfPrefix(buf, more, m.hdStart, m.hdEnd);
    SliceOfPrefix(buf, more, m.valStart, p);
    SliceOfPrefix(buf, more, m.codeStart, p);
    if m.clEnd >= 0 {
      assert (buf + more)[m.clEnd := 0] == buf[m.clEnd := 0] + more;
      SliceOfPrefix(buf[m.clEnd := 0], more, m.clStart, p);
    }
  }

  lemma {:induction false} ActsOnPrefix(st: State, acts: seq<Act>, buf: Text, more: Text, p: nat)
    requires p < |buf| && Behind(st.marks, p)
    ensures PerformAll(st, acts, buf + more, p) == PerformAll(st, acts, buf, p)
    ensures Behind(PerformAll(st, acts, buf, p).marks, p)
    decreases |acts|
  {
    if acts != [] && st.verdict == 0 {
      PerformOnPrefix(st, acts[0], buf, more, p);
      ActsOnPrefix(Perform(st, acts[0], buf, p), acts[1..], buf, more, p);
    }
  }

  lemma {:induction false} RunOnPrefix(d: Table, st: State, buf: Text, more: Text, p: nat, q: nat)
    requires p <= q <= |buf| && Behind(st.marks, p)
    ensures Run(d, st, buf + more, p, q) == Run(d, st, buf, p, q)
    decreases q - p
  {
    if p < q && st.verdict == 0 {
      var g := d(st.cs, buf[p]);
      ActsOnPrefix(st.(cs := g.to), g.acts, buf, more, p);
      RunOnPrefix(d, Step(d, st, buf, p), buf, more, p + 1, q);
    }
  }

  /** The run over a longer buffer goes on where the run over its first part ended. */
  lemma ParseGoesOn(d: Table, buf: Text, more: Text)
    ensures Parse(d, buf + more) == Run(d, Parse(d, buf), buf + more, |buf|, |buf + more|)
    ensures Covers(Parse(d, buf + more).writes, Parse(d, buf).writes)
    ensures Parse(d, buf).verdict != 0 ==> Parse(d, buf + more) == Parse(d, buf)
  {
    RunSplit(d, START, buf + more, 0, |buf|, |buf + more|);
    RunOnPrefix(d, START, buf, more, 0, |buf|);
    RunCovers(d, Parse(d, buf), buf + more, |buf|, |buf + more|);
  }

  // The read loop

  /** What the reads and parses up to the first verdict leave: the fields, the buffer, the
      chunks not read and the verdict. */
  datatype Head = Head(fields: Filled, buf: Text, rest: seq<Text>, verdict: int)

  function ReadHead(d: Table, f: Filled, buf: Text, chunks: seq<Text>): (h: Head)
    ensures h.verdict != 0 ==> |h.rest| < |chunks|
    decreases |chunks|
  {
    if chunks == [] then Head(f, buf, [], 0) else
    var b := buf + chunks[0];
    var st := Parse(d, b);
    if st.verdict != 0 then Head(Apply(f, st.writes), b, chunks[1..], st.verdict)
    else ReadHead(d, Apply(f, st.writes), b, chunks[1..])
  }

  lemma {:induction false} ReadHeadFrom(d: Table, f: Filled, buf: Text, chunks: seq<Text>, s: Text)
    requires Parse(d, buf).verdict == 0 && s == buf + Join(chunks)
    ensures var h := ReadHead(d, Apply(f, Parse(d, buf).writes), buf, chunks);
      && h.fields == Apply(f, Parse(d, s).writes)
      && h.verdict == Parse(d, s).verdict
      && h.buf + Join(h.rest) == s
      && (h.verdict == 0 ==> h.buf == s)
    decreases |chunks|
  {
    if chunks == [] {
      assert s == buf;
    } else {
      var b := buf + chunks[0];
      assert s == b + Join(chunks[1..]);
      ParseGoesOn(d, buf, chunks[0]);
      ParseGoesOn(d, b, Join(chunks[1..]));
      Replay(f, Parse(d, buf).writes, Parse(d, b).writes);
      if Parse(d, b).verdict == 0 {
        ReadHeadFrom(d, f, b, chunks[1..], s);
      }
    }
  }

  /** However a stream is cut into reads, the head is filled in as if it had come in one piece. */
  lemma ChunksDoNotMatter(d: Table, f: Filled, chunks: seq<Text>)
    ensures var h, s := ReadHead(d, f, [], chunks), Join(chunks);
      && h.fields == Apply(f, Parse(d, s).writes)
      && h.verdict == Parse(d, s).verdict
      && h.buf + Join(h.rest) == s
      && (h.verdict == 0 ==> h.buf == s)
  {
    assert Parse(d, []) == START;
    ApplyNothing(f);
    ReadHeadFrom(d, f, [], chunks, Join(chunks));
  }

  lemma {:induction false} ActsInside(st: State, acts: seq<Act>, buf: Text, p: nat)
    requires Or(st.writes.length, 0) <= p + 1
    ensures Or(PerformAll(st, acts, buf, p).writes.length, 0) <= p + 1
    decreases |acts|
  {
    if acts != [] && st.verdict == 0 {
      ActsInside(Perform(st, acts[0], buf, p), acts[1..], buf, p);
    }
  }

  /** A head ends inside the buffer. */
  lemma {:induction false} LengthInside(d: Table, st: State, buf: Text, p: nat)
    requires p <= |buf| && Or(st.writes.length, 0) <= p
    ensures Or(Run(d, st, buf, p, |buf|).writes.length, 0) <= |buf|
    decreases |buf| - p
  {
    if p < |buf| && st.verdict == 0 {
      var g := d(st.cs, buf[p]);
      ActsInside(st.(cs := g.to), g.acts, buf, p);
      LengthInside(d, Step(d, st, buf, p), buf, p + 1);
    }
  }

  lemma {:induction false} HeadInside(d: Table, f: Filled, buf: Text, chunks: seq<Text>)
    requires f.length <= |buf|
    ensures var h := ReadHead(d, f, buf, chunks); h.fields.length <= |h.buf|
    decreases |chunks|
  {
    if chunks != [] {
      var b := buf + chunks[0];
      LengthInside(d, START, b, 0);
      HeadInside(d, Apply(f, Parse(d, b).writes), b, chunks[1..]);
    }
  }

  /** The bytes a message takes, in the arithmetic of size_t. */
  function Need(length: nat, contentLength: nat): nat {
    (length + contentLength) % 0x1_0000_0000_0000_0000
  }

  function Unset(version: Version): Filled {
    Filled(None, version, map[], None, 0, None, 0, 0)
  }

  /** What reading one message from the stream `s` should come to: it succeeds if the stream holds a
      whole head and the content that the head announces, and then the fields are those of one parse. */
  ghost predicate Got(d: Table, v: Version, s: Text, ok: bool, f: Filled, buf: Text, content: Option<(int, int)>) {
    var st := Parse(d, s);
    var g := Apply(Unset(v), st.writes);
    && (ok <==> st.verdict == 1 && Need(g.length, g.contentLength) <= |s|)
    && (ok ==> f == g && buf <= s && g.length <= |buf| && Need(g.length, g.contentLength) <= |buf|)
    && (ok ==> content == Some((g.length, g.contentLength)))
  }

  lemma HeadIsGot(d: Table, v: Version, chunks: seq<Text>, ok: bool, buf: Text, rest: seq<Text>, content: Option<(int, int)>)
    requires var h := ReadHead(d, Unset(v), [], chunks);
      && (h.verdict != 1 ==> !ok)
      && (h.verdict == 1 ==>
           && buf + Join(rest) == h.buf + Join(h.rest)
           && (ok <==> Need(h.fields.length, h.fields.contentLength) <= |h.buf + Join(h.rest)|)
           && (ok ==> h.buf <= buf && Need(h.fields.length, h.fields.contentLength) <= |buf|)
           && (ok ==> content == Some((h.fields.length, h.fields.contentLength))))
    ensures Got(d, v, Join(chunks), ok, ReadHead(d, Unset(v), [], chunks).fields, buf, content)
  {
    ChunksDoNotMatter(d, Unset(v), chunks);
    HeadInside(d, Unset(v), [], chunks);
  }
}
