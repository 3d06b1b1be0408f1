/** The length that a head announces, and the content that is read after it. */
module HttpContent {
  import opened Wrappers
  import opened HttpMachine
  import opened HttpHeaders
  import opened HttpParse
  import opened HttpRoundTrip
  import opened HttpPrint
  import opened HttpStream
  import opened HttpGrammar
  import opened HttpLines

  /** The number that a head announces as the length of its content: if some content-length header has
      nothing but digits up to a carriage return, the last one that starts with a digit says it. */
  ghost function Announced(head: Text): nat {
    if AnySpelled(head, |head|) then Digits(head[LastSpelled(head)..], 0) else 0
  }

  ghost function LastSpelled(head: Text): (q: nat)
    requires AnySpelled(head, |head|)
    ensures q < |head| && LengthAt(head, q)
  {
    LastAt(head, |head|)
  }

  lemma LengthInHead(buf: Text, n: nat, q: nat)
    requires q < n <= |buf|
    ensures LengthAt(buf[..n], q) <==> LengthAt(buf, q)
  {
    var head := buf[..n];
    if q >= 18 {
      assert head[q - 16..q - 2] == buf[q - 16..q - 2];
    }
  }

  lemma SpelledInHead(buf: Text, n: nat, q: nat, e: nat)
    requires q < e < n <= |buf|
    ensures Spelled(buf[..n], q, e) <==> Spelled(buf, q, e)
  {
    LengthInHead(buf, n, q);
    if Spelled(buf[..n], q, e) {
      forall i | q <= i < e
        ensures IsDigit(buf[i])
      {
        assert buf[..n][i] == buf[i];
      }
    }
  }

  lemma LastInHead(buf: Text, n: nat)
    requires 0 < n <= |buf| && !IsDigit(buf[n - 1])
    ensures LastAt(buf[..n], n) == LastAt(buf, n - 1)
  {
    var a, b := LastAt(buf[..n], n), LastAt(buf, n - 1);
    if a >= 0 {
      LengthInHead(buf, n, a);
    }
    if b >= 0 {
      LengthInHead(buf, n, b);
    }
  }

  lemma AnyInHead(buf: Text, n: nat)
    requires 0 < n <= |buf| && buf[n - 1] != CR
    ensures AnySpelled(buf[..n], n) <==> AnySpelled(buf, n - 1)
  {
    if AnySpelled(buf[..n], n) {
      var q: nat, e: nat :| e < n && Spelled(buf[..n], q, e);
      SpelledInHead(buf, n, q, e);
      assert e < n - 1 && Spelled(buf, q, e);
    }
    if AnySpelled(buf, n - 1) {
      var q: nat, e: nat :| e < n - 1 && Spelled(buf, q, e);
      SpelledInHead(buf, n, q, e);
      assert e < n && Spelled(buf[..n], q, e);
    }
  }

  /** Two texts that start with the same digits spell the same number. */
  lemma SameDigits(a: Text, b: Text, n: nat)
    requires n <= |a| && n <= |b| && a[..n] == b[..n] && forall i :: 0 <= i < n ==> IsDigit(a[i])
    requires (n < |a| ==> !IsDigit(a[n])) && (n < |b| ==> !IsDigit(b[n]))
    ensures Digits(a, 0) == Digits(b, 0)
  {
    assert a == a[..n] + a[n..] && b == b[..n] + b[n..];
    DigitsStop(a[..n], a[n..], 0);
    DigitsStop(b[..n], b[n..], 0);
  }

  /** What Accept at `e` makes of the marks, whether or not the end of the digits it knows is that of the
      header it reads. */
  lemma LengthOfMarks(buf: Text, cl: nat, ce: nat, e: nat)
    requires cl < e < |buf| && ce < e && IsDigit(buf[cl]) && !IsDigit(buf[e - 1]) && buf[ce] == CR
    requires ce > cl ==> DigitsTo(buf, cl, ce)
    ensures Digits(Slice(buf[ce := 0], cl, e), 0) == Digits(buf[..e + 1][cl..], 0)
  {
    var a, b := Slice(buf[ce := 0], cl, e), buf[..e + 1][cl..];
    var n := Lead(b);
    assert !IsDigit(b[e - 1 - cl]);
    if ce > cl {
      assert n == ce - cl by {
        assert forall i :: 0 <= i < ce - cl ==> b[i] == buf[cl + i];
        assert b[ce - cl] == CR;
      }
    }
    assert a[..n] == b[..n];
    SameDigits(a, b, n);
  }

  ghost function AnnouncedSize(head: Text): Option<nat> {
    if AnySpelled(head, |head|) then Some(ToSize(Announced(head))) else None
  }

  /** Every head that is accepted: its length is that of the text accepted, and its Content-Length is what
      that text announces, as far as an int in a size_t can hold it. */
  lemma LengthIsAnnounced(k: Kind, buf: Text)
    ensures var r := Parse(Reader(k), buf); r.verdict == 1 ==>
      && r.writes.length.Some? && r.writes.length.value <= |buf|
      && r.writes.contentLength == AnnouncedSize(buf[..r.writes.length.value])
  {
    var r := Parse(Reader(k), buf);
    var q, e := ParseKnows(k, buf);
    if r.verdict == 1 {
      var m, head := q.marks, buf[..e + 1];
      assert buf[e - 1] == CR && buf[e] == LF;
      LastInHead(buf, e + 1);
      AnyInHead(buf, e + 1);
      if AnySpelled(buf, e) {
        LengthOfMarks(buf, m.clStart, m.clEnd, e);
      }
    }
  }

  // The content

  /** The 32 bits that are left of a number. */
  function Low(n: nat): nat {
    (if n <= LONG_MAX then n else LONG_MAX) % 0x1_0000_0000
  }

  lemma ToSizeIs(n: nat)
    ensures ToSize(n) == if Low(n) <= INT_MAX then Low(n) else Low(n) + 0xffff_ffff_0000_0000
    ensures ToSize(n) == n <==> n <= INT_MAX || n == SIZE_MAX
  {
    if n <= SIZE_MAX {
      Folded(n);
    }
  }

  /** The stretch that is reported as the content lies inside the buffer. */
  predicate Inside(f: Filled, buf: Text) {
    f.length + f.contentLength <= |buf|
  }

  lemma InsideMeans(n: nat, length: nat, size: nat)
    requires length <= size <= LONG_MAX && Need(length, ToSize(n)) <= size
    ensures length + ToSize(n) <= size <==> Low(n) <= INT_MAX || length + Low(n) < 0x1_0000_0000
  {
    ToSizeIs(n);
  }

  /** A message that has been received, with what its head announces on the wire: the content is the
      stretch after the head. It lies inside the buffer exactly if the announced number, read as 32 bits,
      is not negative, or so little below zero that the end of it is beyond the head; else the sum of the
      lengths wraps. It is inside and as long as announced exactly if the number is at most INT_MAX. (No
      buffer is larger than LONG_MAX.) */
  lemma ContentIsNext(k: Kind, v: Version, s: Text, f: Filled, buf: Text, content: Option<(int, int)>)
    requires Got(Reader(k), v, s, true, f, buf, content) && |buf| <= LONG_MAX
    ensures f.length <= |buf| && content == Some((f.length, f.contentLength))
    ensures var n := Announced(buf[..f.length]);
      && f.contentLength == ToSize(n)
      && (Inside(f, buf) <==> Low(n) <= INT_MAX || f.length + Low(n) < 0x1_0000_0000)
      && (Inside(f, buf) && f.contentLength == n <==> n <= INT_MAX)
    ensures Inside(f, buf) ==> buf[f.length..f.length + f.contentLength] == s[f.length..f.length + f.contentLength]
  {
    LengthIsAnnounced(k, s);
    var n := Announced(s[..f.length]);
    assert buf == s[..|buf|];
    assert buf[..f.length] == s[..f.length];
    ToSizeIs(n);
    InsideMeans(n, f.length, |buf|);
    HeadNotEmpty(k, s);
    if n == SIZE_MAX {
      assert Low(n) == 0xffff_ffff;
    }
  }

  lemma HeadNotEmpty(k: Kind, buf: Text)
    ensures var r := Parse(Reader(k), buf); r.verdict == 1 ==> r.writes.length.Some? && r.writes.length.value > 0
  {
    var q, e := ParseKnows(k, buf);
  }

  lemma LengthRequest(uri: Text, value: Text) returns (r: State)
    requires UriOk(uri) && AllDigits(value)
    ensures var s := RequestHead(GET, uri, V11, [(LENGTH_KEY, value)]);
      && r == Parse(Reader(Request), s) && r.verdict == 1
      && r.writes.length == Some(|s|) && r.writes.contentLength == Some(Atoi(value))
  {
    var hs := [(LENGTH_KEY, value)];
    var s := RequestHead(GET, uri, V11, hs);
    assert IsLengthKey(LENGTH_KEY) && LastLength(hs) == Some(value);
    r := RequestRoundTrip(GET, uri, V11, hs, []);
    assert s + [] == s;
  }

  /** A request of one header that announces 4294967295 bytes is received at once, with a content of
      SIZE_MAX bytes after its end. */
  lemma WrappedLength(v: Version, uri: Text, value: Text)
    requires UriOk(uri) && value == Dec(0xffff_ffff)
    ensures var s := RequestHead(GET, uri, V11, [(LENGTH_KEY, value)]);
      var f := Apply(Unset(v), Parse(Reader(Request), s).writes);
      && Got(Reader(Request), v, s, true, f, s, Some((f.length, f.contentLength)))
      && f.length == |s| && f.contentLength == SIZE_MAX && !Inside(f, s)
  {
    DecIsDigits(0xffff_ffff);
    DecReads(0xffff_ffff);
    var r := LengthRequest(uri, value);
  }
}
