/**
  The languages of the grammars in src/proto/http/http_request_parse.rl and
  http_response_parse.rl. For every state there is the language of what may follow, written
  down without the automaton; a step of the automaton is shown to be a step of these.
 */
module HttpGrammar {
  import opened Wrappers
  import opened HttpMachine
  import opened HttpHeaders
  import opened HttpParse
  import opened HttpRoundTrip
  import opened HttpStream

  predicate Ascii(c: int) {
    0 <= c <= 127
  }

  /** The text starts with a line break. */
  predicate Break(t: Text) {
    |t| >= 2 && t[0] == CR && t[1] == LF
  }

  // What may follow in the header lines

  /** Inside a value. */
  ghost predicate ValueRest(t: Text)
    decreases |t|, 1
  {
    if Break(t) then AfterValue(t[2..]) else t != [] && Ascii(t[0]) && ValueRest(t[1..])
  }

  /** After the break at the end of a value, which a blank undoes. */
  ghost predicate AfterValue(t: Text)
    decreases |t|, 1
  {
    LinesRest(t) || (t != [] && IsBlank(t[0]) && !Break(t[1..]) && ValueRest(t[1..]))
  }

  /** At the start of a line. */
  ghost predicate LinesRest(t: Text)
    decreases |t|, 0
  {
    t == [CR, LF] || (t != [] && IsMark(t[0]) && KeyRest(t[1..]))
  }

  /** Inside a key. */
  ghost predicate KeyRest(t: Text)
    decreases |t|, 0
  {
    t != [] && IsMark(t[0]) && if t[0] == COLON then ColonRest(t[1..]) else KeyRest(t[1..])
  }

  /** After a colon that may end a key. */
  ghost predicate ColonRest(t: Text)
    decreases |t|, 0
  {
    t != [] &&
    if t[0] == SP then ValueRest(t[1..])
    else IsMark(t[0]) && if t[0] == COLON then ColonRest(t[1..]) else KeyRest(t[1..])
  }

  ghost predicate HeadRest(h: nat, t: Text) {
    if h == 0 then LinesRest(t)
    else if h == 1 then t == [LF]
    else if h == 2 || 10 <= h <= 23 then KeyRest(t)
    else if h == 3 || h == 24 then ColonRest(t)
    else if h == 4 || h == 5 || h == 25 || h == 26 then ValueRest(t)
    else if h == 6 then ValueRest([CR] + t)
    else if h == 7 then AfterValue(t)
    else if h == 8 then !Break(t) && ValueRest(t)
    else h == 9 && t != [] && t[0] != LF && ValueRest(t)
  }

  /** What a transition of the header lines leaves to come. */
  ghost predicate HeadAfter(g: Goto, t: Text) {
    g != FAIL && if g.acts == [Accept] then t == [] else HeadRest(g.to, t)
  }

  lemma ValueStep(t: Text)
    requires t != [] && Ascii(t[0])
    ensures ValueRest(t) <==> if t[0] == CR then ValueRest([CR] + t[1..]) else ValueRest(t[1..])
  {
    assert t == [t[0]] + t[1..];
  }

  lemma CarriageStep(t: Text)
    requires t != [] && Ascii(t[0])
    ensures ValueRest([CR] + t) <==> if t[0] == LF then AfterValue(t[1..]) else ValueRest(t)
  {
    var s := [CR] + t;
    assert s[1..] == t && s[2..] == t[1..];
  }

  lemma LinesStep(t: Text)
    requires t != [] && Ascii(t[0])
    ensures LinesRest(t) <==> if t[0] == CR then t[1..] == [LF] else IsMark(t[0]) && KeyRest(t[1..])
  {
    assert t == [t[0]] + t[1..];
  }

  /** A step inside the header lines. */
  lemma HeadStep(h: nat, t: Text)
    requires h <= 26 && t != [] && Ascii(t[0])
    ensures HeadRest(h, t) <==> HeadAfter(HeadDelta(h, t[0]), t[1..])
  {
    if h == 0 {
      LinesStep(t);
    } else if h == 1 {
      assert t == [t[0]] + t[1..];
    } else if 4 <= h <= 5 || 25 <= h <= 26 {
      ValueStep(t);
    } else if h == 6 {
      CarriageStep(t);
      ValueStep(t);
    } else if h == 7 {
      LinesStep(t);
    } else if h == 8 || h == 9 {
      ValueStep(t);
    }
  }

  // What may follow in a status line

  ghost predicate MsgRest(t: Text) {
    if Break(t) then LinesRest(t[2..]) else t != [] && Ascii(t[0]) && MsgRest(t[1..])
  }

  ghost predicate CodeRest(n: nat, t: Text)
    decreases n
  {
    t != [] && if n == 0 then t[0] == SP && MsgRest(t[1..]) else IsDigit(t[0]) && CodeRest(n - 1, t[1..])
  }

  /** After the minor version. */
  ghost predicate VersionRest(t: Text) {
    t != [] && t[0] == SP && CodeRest(3, t[1..])
  }

  ghost predicate ProtocolRest(n: nat, t: Text)
    requires n <= 7
    decreases 7 - n
  {
    t != [] &&
    if n == 7 then (t[0] == 48 || t[0] == 49) && VersionRest(t[1..])
    else t[0] == PROTOCOL[n] && ProtocolRest(n + 1, t[1..])
  }

  ghost predicate StatusRest(cs: nat, t: Text) {
    if 1 <= cs <= 8 then ProtocolRest(cs - 1, t)
    else if cs == 9 || cs == 44 then VersionRest(t)
    else if 10 <= cs <= 13 then CodeRest(13 - cs, t)
    else if 14 <= cs <= 15 then MsgRest(t)
    else cs == 16 && MsgRest([CR] + t)
  }

  lemma MsgStep(t: Text)
    requires t != [] && Ascii(t[0])
    ensures MsgRest(t) <==> if t[0] == CR then MsgRest([CR] + t[1..]) else MsgRest(t[1..])
    ensures MsgRest([CR] + t) <==> if t[0] == LF then LinesRest(t[1..]) else MsgRest(t)
  {
    assert t == [t[0]] + t[1..];
    var s := [CR] + t;
    assert s[1..] == t && s[2..] == t[1..];
  }

  lemma StatusStep(cs: nat, t: Text)
    requires !(17 <= cs <= 43) && t != [] && Ascii(t[0])
    ensures var g := StatusDelta(cs, t[0]);
      StatusRest(cs, t) <==> g != FAIL && if g.to == 17 then LinesRest(t[1..]) else StatusRest(g.to, t[1..])
  {
    if 14 <= cs <= 16 {
      MsgStep(t);
    }
  }

  // What may follow in a request line

  predicate Starts(t: Text, w: Text) {
    |t| >= |w| && t[..|w|] == w
  }

  /** The end of a request line. */
  function Ending(v: Version): Text {
    [SP] + Protocol(v) + [CR, LF]
  }

  /** Inside the URI: it ends where the first line break comes after the protocol. */
  ghost predicate UriRest(t: Text) {
    if Starts(t, Ending(V10)) || Starts(t, Ending(V11)) then LinesRest(t[11..])
    else t != [] && Ascii(t[0]) && !Break(t) && UriRest(t[1..])
  }

  /** What the states after the URI has begun remember: how much of the ending has been seen. */
  function Seen(cs: nat): Text
    requires InUri(cs)
  {
    if cs <= 10 then []
    else if cs == 11 then [CR]
    else if cs <= 19 then [SP] + PROTOCOL[..cs - 12]
    else if cs == 20 then [SP] + Protocol(V10)
    else if cs == 49 then [SP] + Protocol(V11)
    else [SP] + Protocol(V10) + [CR]
  }

  /** No ending starts here and no line breaks. */
  ghost predicate Dull(t: Text) {
    t != [] && Ascii(t[0]) && !Break(t) && !Starts(t, Ending(V10)) && !Starts(t, Ending(V11))
  }

  lemma {:induction false} Skip(x: Text, y: Text)
    requires forall i :: 0 <= i < |x| ==> Dull(x[i..] + y)
    ensures UriRest(x + y) <==> UriRest(y)
    decreases |x|
  {
    if x == [] {
      assert x + y == y;
    } else {
      assert x[0..] == x;
      assert Dull(x + y);
      var x1 := x[1..];
      forall i | 0 <= i < |x1|
        ensures Dull(x1[i..] + y)
      {
        assert x1[i..] == x[i + 1..];
      }
      Skip(x1, y);
      assert (x + y)[1..] == x1 + y;
    }
  }

  lemma NotEnding(t: Text, v: Version, j: nat)
    requires j < 11 && (j < |t| ==> t[j] != Ending(v)[j])
    ensures !Starts(t, Ending(v))
  {
  }

  /** `c` does not continue the ending, nor does it break the line. */
  predicate Stalls(cs: nat, c: int) {
    if cs == 11 || cs == 21 then c != LF
    else if 12 <= cs <= 18 then c != PROTOCOL[cs - 12]
    else if cs == 19 then c != 48 && c != 49
    else if cs == 20 || cs == 49 then c != CR
    else true
  }

  /** A blank starts what has been seen, and a carriage return ends it. */
  lemma SeenAt(cs: nat, i: nat)
    requires InUri(cs) && i < |Seen(cs)|
    ensures var d := Seen(cs)[i]; Ascii(d) && (d == SP ==> i == 0 && cs != 11)
    ensures Seen(cs)[i] == CR ==> i == |Seen(cs)| - 1 && (cs == 11 || cs == 21)
  {
  }

  lemma Stuck(cs: nat, c: int, s: Text)
    requires InUri(cs) && 11 < cs && Stalls(cs, c)
    requires var n := |Seen(cs)|; |s| > n && s[..n] == Seen(cs) && s[n] == c
    ensures !Starts(s, Ending(V10)) && !Starts(s, Ending(V11))
  {
    var n := |Seen(cs)|;
    assert n > 8 ==> s[8] == Seen(cs)[8];
    NotEnding(s, V10, if cs == 49 then 8 else n);
    NotEnding(s, V11, if cs == 20 || cs == 21 then 8 else n);
  }

  lemma SeenIsDull(cs: nat, i: nat, c: int, t: Text)
    requires InUri(cs) && i < |Seen(cs)| && Stalls(cs, c)
    ensures Dull(Seen(cs)[i..] + ([c] + t))
  {
    var x, n := Seen(cs), |Seen(cs)|;
    var s := x[i..] + ([c] + t);
    assert s[0] == x[i] && s[n - i] == c;
    SeenAt(cs, i);
    if x[i] == SP {
      assert s[..n] == x;
      Stuck(cs, c, s);
    } else {
      NotEnding(s, V10, 0);
      NotEnding(s, V11, 0);
    }
  }

  /** After a character that does not fit, only that character matters. */
  lemma Restart(cs: nat, c: int, t: Text)
    requires InUri(cs) && Stalls(cs, c)
    ensures UriRest(Seen(cs) + ([c] + t)) <==> UriRest([c] + t)
  {
    forall i | 0 <= i < |Seen(cs)|
      ensures Dull(Seen(cs)[i..] + ([c] + t))
    {
      SeenIsDull(cs, i, c, t);
    }
    Skip(Seen(cs), [c] + t);
  }

  lemma Plainly(c: int, t: Text)
    requires Ascii(c) && c != SP && c != CR
    ensures UriRest([c] + t) <==> UriRest(t)
  {
    var s := [c] + t;
    NotEnding(s, V10, 0);
    NotEnding(s, V11, 0);
    assert s[1..] == t;
  }

  lemma Glue(x: Text, y: Text, t: Text)
    ensures x + (y + t) == x + y + t
  {
  }

  lemma EndSpelled(v: Version, t: Text)
    ensures Seen(49) + ([CR] + t) == [SP] + Protocol(V11) + ([CR] + t)
    ensures Seen(21) + t == [SP] + Protocol(V10) + ([CR] + t)
    ensures Starts(t, [LF]) ==> [SP] + Protocol(v) + ([CR] + t) == Ending(v) + t[1..]
  {
    Glue([SP] + Protocol(V10), [CR], t);
    if Starts(t, [LF]) {
      assert [CR] + t == [CR, LF] + t[1..];
      Glue([SP] + Protocol(v), [CR, LF], t[1..]);
    }
  }

  /** Either version may stand before the last line break. */
  lemma SameEnd(t: Text)
    ensures UriRest(Seen(49) + ([CR] + t)) <==> UriRest(Seen(21) + t)
  {
    EndSpelled(V10, t);
    EndSpelled(V11, t);
    if Starts(t, [LF]) {
      EndsLine(V11, t[1..]);
      EndsLine(V10, t[1..]);
    } else {
      SkipEnd(V11, t);
      SkipEnd(V10, t);
    }
  }

  lemma EndsLine(v: Version, t: Text)
    ensures UriRest(Ending(v) + t) <==> LinesRest(t)
  {
    var s := Ending(v) + t;
    assert s[..11] == Ending(v) && s[11..] == t;
  }

  lemma EndIsDull(v: Version, x: Text, i: nat, t: Text)
    requires (t == [] || t[0] != LF) && x == [SP] + Protocol(v) && i < |x|
    ensures Dull(x[i..] + ([CR] + t))
  {
    var s := x[i..] + ([CR] + t);
    assert |x| == 9 && s[0] == x[i] && s[9 - i] == CR;
    if i == 0 {
      assert s[8] == x[8] && (t != [] ==> s[10] == t[0]);
      NotEnding(s, V10, if v == V10 then 10 else 8);
      NotEnding(s, V11, if v == V11 then 10 else 8);
    } else {
      NotEnding(s, V10, 0);
      NotEnding(s, V11, 0);
    }
  }

  lemma SkipEnd(v: Version, t: Text)
    requires t == [] || t[0] != LF
    ensures UriRest([SP] + Protocol(v) + ([CR] + t)) <==> UriRest([CR] + t)
  {
    var x := [SP] + Protocol(v);
    forall i | 0 <= i < |x|
      ensures Dull(x[i..] + ([CR] + t))
    {
      EndIsDull(v, x, i, t);
    }
    Skip(x, [CR] + t);
  }

  lemma LastFeed(t: Text)
    ensures UriRest(Seen(21) + ([LF] + t)) <==> LinesRest(t)
  {
    Glue(Seen(21), [LF], t);
    assert Seen(21) + [LF] == Ending(V10);
    EndsLine(V10, t);
  }

  /** A character that fits is remembered. */
  lemma SeenMore(cs: nat, c: int)
    requires InUri(cs) && !Stalls(cs, c) && cs != 11 && cs != 21 && cs != 49
    ensures var g := UriDelta(cs, c); g != FAIL && InUri(g.to) && Seen(g.to) == Seen(cs) + [c]
  {
  }

  lemma UriStep(cs: nat, c: int, t: Text)
    requires InUri(cs) && Ascii(c)
    ensures var g := UriDelta(cs, c);
      UriRest(Seen(cs) + ([c] + t)) <==> g != FAIL && if g.to == 22 then LinesRest(t) else UriRest(Seen(g.to) + t)
  {
    var g, s := UriDelta(cs, c), Seen(cs) + ([c] + t);
    if Stalls(cs, c) {
      Restart(cs, c, t);
      assert Seen(10) + t == t && Seen(12) == [SP];
      if c != SP && c != CR {
        Plainly(c, t);
      }
    } else if cs == 11 {
      NotEnding(s, V10, 0);
      NotEnding(s, V11, 0);
    } else if cs == 21 {
      LastFeed(t);
    } else if cs == 49 {
      SameEnd(t);
    } else {
      SeenMore(cs, c);
      Glue(Seen(cs), [c], t);
    }
  }

  // What may follow in a method

  /** A word, in either case, then a blank and the rest of the line. */
  ghost predicate WordRest(w: Text, t: Text) {
    |t| > |w| && Alike(t[..|w|], w) && t[|w|] == SP && UriRest(t[|w| + 1..])
  }

  const CONNECT_WORD := [99, 111, 110, 110, 101, 99, 116]
  const DELETE_WORD := [100, 101, 108, 101, 116, 101]
  const GET_WORD := [103, 101, 116]
  const HEAD_WORD := [104, 101, 97, 100]
  const OPTIONS_WORD := [111, 112, 116, 105, 111, 110, 115]
  const POST_WORD := [112, 111, 115, 116]
  const PUT_WORD := [112, 117, 116]
  const TRACE_WORD := [116, 114, 97, 99, 101]

  /** The methods in lower case. */
  function Lowered(v: Method): Text {
    match v
    case OPTIONS => OPTIONS_WORD
    case GET => GET_WORD
    case HEAD => HEAD_WORD
    case POST => POST_WORD
    case PUT => PUT_WORD
    case DELETE => DELETE_WORD
    case TRACE => TRACE_WORD
    case CONNECT => CONNECT_WORD
  }

  lemma LoweredLetters(v: Method, i: nat)
    requires i < |Lowered(v)|
    ensures 97 <= Lowered(v)[i] <= 122
  {
  }

  /** The method that a state inside one word is in, and how many of its letters have been seen. */
  function Place(cs: nat): (p: Option<(Method, nat)>)
    ensures p.Some? ==> p.value.1 <= |Lowered(p.value.0)|
  {
    if 2 <= cs <= 8 then Some((CONNECT, cs - 1))
    else if 50 <= cs <= 55 then Some((DELETE, cs - 49))
    else if 56 <= cs <= 58 then Some((GET, cs - 55))
    else if 59 <= cs <= 62 then Some((HEAD, cs - 58))
    else if 63 <= cs <= 69 then Some((OPTIONS, cs - 62))
    else if 71 <= cs <= 73 then Some((POST, cs - 69))
    else if 74 <= cs <= 75 then Some((PUT, cs - 72))
    else if 76 <= cs <= 80 then Some((TRACE, cs - 75))
    else None
  }

  /** The letters that such a state waits for. */
  function Ahead(cs: nat): Option<Text> {
    match Place(cs)
    case None => None
    case Some((v, n)) => Some(Lowered(v)[n..])
  }

  ghost predicate VerbRest(cs: nat, t: Text) {
    if cs == 1 then exists v :: WordRest(Lowered(v), t)
    else if cs == 70 then WordRest(POST_WORD[1..], t) || WordRest(PUT_WORD[1..], t)
    else Ahead(cs).Some? && WordRest(Ahead(cs).value, t)
  }

  lemma WordStep(w: Text, c: int, t: Text)
    ensures w != [] ==> (WordRest(w, [c] + t) <==> Lower(c) == w[0] && WordRest(w[1..], t))
    ensures w == [] ==> (WordRest(w, [c] + t) <==> c == SP && UriRest(t))
  {
    var s := [c] + t;
    assert s[1..] == t;
    if w != [] && |t| >= |w| {
      var a, b := s[..|w|], t[..|w| - 1];
      assert a == [c] + b;
      assert s[|w| + 1..] == t[|w|..];
      if Alike(b, w[1..]) && Lower(c) == w[0] {
        forall i | 0 <= i < |a|
          ensures Lower(a[i]) == w[i]
        {
          if i > 0 {
            assert a[i] == b[i - 1] && w[i] == w[1..][i - 1];
          }
        }
      }
      if Alike(a, w) {
        forall i | 0 <= i < |b|
          ensures Lower(b[i]) == w[1..][i]
        {
          assert a[i + 1] == b[i];
        }
      }
    }
  }

  /** In a state inside one word, only its next letter or, at its end, a blank goes on. */
  ghost predicate GoesOn(cs: nat, c: int) {
    Ahead(cs).Some? &&
    var g, w := MethodDelta(cs, c), Ahead(cs).value;
    if w == [] then (g.to == 9 <==> c == SP) && (g == FAIL <==> c != SP)
    else if Lower(c) == w[0] then g == Goto(cs + 1, []) && Ahead(cs + 1) == Some(w[1..])
    else g == FAIL
  }

  lemma ConnectGoesOn(cs: nat, c: int)
    requires 2 <= cs <= 8
    ensures GoesOn(cs, c)
  {
  }

  lemma DeleteGoesOn(cs: nat, c: int)
    requires 50 <= cs <= 55
    ensures GoesOn(cs, c)
  {
  }

  lemma GetGoesOn(cs: nat, c: int)
    requires 56 <= cs <= 58
    ensures GoesOn(cs, c)
  {
  }

  lemma HeadGoesOn(cs: nat, c: int)
    requires 59 <= cs <= 62
    ensures GoesOn(cs, c)
  {
  }

  lemma OptionsGoesOn(cs: nat, c: int)
    requires 63 <= cs <= 69
    ensures GoesOn(cs, c)
  {
  }

  lemma PostGoesOn(cs: nat, c: int)
    requires 71 <= cs <= 73
    ensures GoesOn(cs, c)
  {
  }

  lemma PutGoesOn(cs: nat, c: int)
    requires 74 <= cs <= 75
    ensures GoesOn(cs, c)
  {
  }

  lemma TraceGoesOn(cs: nat, c: int)
    requires 76 <= cs <= 80
    ensures GoesOn(cs, c)
  {
  }

  lemma AheadStep(cs: nat, c: int)
    requires Ahead(cs).Some?
    ensures GoesOn(cs, c)
  {
    if cs <= 8 {
      ConnectGoesOn(cs, c);
    } else if cs <= 55 {
      DeleteGoesOn(cs, c);
    } else if cs <= 58 {
      GetGoesOn(cs, c);
    } else if cs <= 62 {
      HeadGoesOn(cs, c);
    } else if cs <= 69 {
      OptionsGoesOn(cs, c);
    } else if cs <= 73 {
      PostGoesOn(cs, c);
    } else if cs <= 75 {
      PutGoesOn(cs, c);
    } else if cs <= 80 {
      TraceGoesOn(cs, c);
    }
  }

  /** What a transition inside the method leaves to come. */
  ghost predicate VerbAfter(g: Goto, t: Text) {
    g != FAIL && if g.to == 9 then UriRest(t) else VerbRest(g.to, t)
  }

  ghost predicate VerbSteps(cs: nat, c: int, t: Text) {
    VerbRest(cs, [c] + t) <==> VerbAfter(MethodDelta(cs, c), t)
  }

  lemma VerbStep(cs: nat, c: int, t: Text)
    requires !InUri(cs) && !(22 <= cs <= 48)
    ensures VerbSteps(cs, c, t)
  {
    if cs == 1 {
      FirstLetter(c, t);
    } else if cs == 70 {
      PostOrPut(c, t);
    } else if Ahead(cs).Some? {
      InWordStep(cs, c, t);
    } else {
      NoWord(cs, c);
    }
  }

  lemma NoWord(cs: nat, c: int)
    requires !InUri(cs) && !(22 <= cs <= 48) && cs != 1 && cs != 70 && Place(cs).None?
    ensures MethodDelta(cs, c) == FAIL
  {
  }

  lemma PostOrPut(c: int, t: Text)
    ensures VerbSteps(70, c, t)
  {
    WordStep(POST_WORD[1..], c, t);
    WordStep(PUT_WORD[1..], c, t);
    assert POST_WORD[1..][1..] == POST_WORD[2..] && PUT_WORD[1..][1..] == PUT_WORD[2..];
  }

  lemma WordGoes(w: Text, c: int, t: Text, g: Goto, after: Option<Text>)
    requires w == [] ==> (g == FAIL <==> c != SP) && (g.to == 9 <==> c == SP)
    requires w != [] && Lower(c) == w[0] ==> g != FAIL && g.to != 9 && after == Some(w[1..])
    requires w != [] && Lower(c) != w[0] ==> g == FAIL
    ensures WordRest(w, [c] + t) <==>
      g != FAIL && if g.to == 9 then UriRest(t) else after.Some? && WordRest(after.value, t)
  {
    WordStep(w, c, t);
  }

  lemma InWordStep(cs: nat, c: int, t: Text)
    requires Ahead(cs).Some?
    ensures VerbSteps(cs, c, t)
  {
    AheadStep(cs, c);
    WordGoes(Ahead(cs).value, c, t, MethodDelta(cs, c), Ahead(cs + 1));
  }

  /** The state after the first letter of a method. */
  function Second(v: Method): nat {
    match v
    case OPTIONS => 63
    case GET => 56
    case HEAD => 59
    case POST => 70
    case PUT => 70
    case DELETE => 50
    case TRACE => 76
    case CONNECT => 2
  }

  lemma FirstOf(v: Method, c: int, t: Text)
    ensures WordRest(Lowered(v), [c] + t) ==>
      MethodDelta(1, c) == Goto(Second(v), []) && VerbRest(Second(v), t)
  {
    WordStep(Lowered(v), c, t);
  }

  /** The method that a first letter and what follows belong to. */
  function Chosen(c: int, post: bool): Method {
    match Lower(c)
    case 99 => CONNECT
    case 100 => DELETE
    case 103 => GET
    case 104 => HEAD
    case 111 => OPTIONS
    case 112 => if post then POST else PUT
    case _ => TRACE
  }

  lemma ChosenFits(c: int, post: bool)
    requires MethodDelta(1, c) != FAIL
    ensures var w, g := Lowered(Chosen(c, post)), MethodDelta(1, c);
      w[0] == Lower(c) && if g.to == 70 then w == (if post then POST_WORD else PUT_WORD) else Ahead(g.to) == Some(w[1..])
  {
  }

  lemma FirstBack(c: int, t: Text)
    requires var g := MethodDelta(1, c); g != FAIL && VerbRest(g.to, t)
    ensures WordRest(Lowered(Chosen(c, WordRest(POST_WORD[1..], t))), [c] + t)
  {
    var post := WordRest(POST_WORD[1..], t);
    ChosenFits(c, post);
    WordStep(Lowered(Chosen(c, post)), c, t);
  }

  lemma FirstForth(c: int, t: Text)
    requires VerbRest(1, [c] + t)
    ensures VerbAfter(MethodDelta(1, c), t)
  {
    var v :| WordRest(Lowered(v), [c] + t);
    FirstOf(v, c, t);
  }

  lemma FirstState(c: int)
    requires MethodDelta(1, c) != FAIL
    ensures MethodDelta(1, c).to != 9
  {
  }

  lemma FirstLetter(c: int, t: Text)
    ensures VerbSteps(1, c, t)
  {
    if VerbRest(1, [c] + t) {
      FirstForth(c, t);
    }
    if VerbAfter(MethodDelta(1, c), t) {
      FirstState(c);
      FirstBack(c, t);
      var v := Chosen(c, WordRest(POST_WORD[1..], t));
      assert WordRest(Lowered(v), [c] + t);
    }
  }

  // The whole automata

  /** What may follow in a state. */
  ghost predicate Rest(k: Kind, cs: nat, t: Text) {
    if Base(k) <= cs <= Base(k) + 26 then HeadRest(cs - Base(k), t)
    else if k == Response then StatusRest(cs, t)
    else if InUri(cs) then UriRest(Seen(cs) + t)
    else VerbRest(cs, t)
  }

  ghost predicate Follows(k: Kind, g: Goto, t: Text) {
    g != FAIL && if g.acts == [Accept] then t == [] else Rest(k, g.to, t)
  }

  lemma HeadStays(h: nat, c: int)
    requires h <= 26
    ensures var g := HeadDelta(h, c); g == FAIL || g.acts == [Accept] || (g.to <= 26 && g.to != FINAL)
  {
  }

  /** The header lines are the same in both machines, at different places. */
  lemma ShiftedFollows(k: Kind, g: Goto, final: nat, t: Text)
    requires g == FAIL || g.acts == [Accept] || (g.to <= 26 && g.to != FINAL)
    ensures HeadAfter(g, t) <==> Follows(k, Shifted(g, Base(k), final), t)
  {
  }

  lemma HeadRestStep(k: Kind, cs: nat, t: Text)
    requires Base(k) <= cs <= Base(k) + 26 && t != [] && Ascii(t[0])
    ensures Rest(k, cs, t) <==> Follows(k, Delta(k, cs, t[0]), t[1..])
  {
    HeadStep(cs - Base(k), t);
    HeadStays(cs - Base(k), t[0]);
    ShiftedFollows(k, HeadDelta(cs - Base(k), t[0]), if k == Request then 81 else 45, t[1..]);
  }

  lemma StatusRestStep(cs: nat, t: Text)
    requires !(17 <= cs <= 43) && t != [] && Ascii(t[0])
    ensures Rest(Response, cs, t) <==> Follows(Response, Delta(Response, cs, t[0]), t[1..])
  {
    StatusStep(cs, t);
    StatusStays(cs, t[0]);
  }

  lemma UriRestStep(cs: nat, t: Text)
    requires InUri(cs) && t != [] && Ascii(t[0])
    ensures Rest(Request, cs, t) <==> Follows(Request, Delta(Request, cs, t[0]), t[1..])
  {
    UriStep(cs, t[0], t[1..]);
    assert t == [t[0]] + t[1..];
    UriStays(cs, t[0]);
  }

  lemma VerbRestStep(cs: nat, t: Text)
    requires !InUri(cs) && !(22 <= cs <= 48) && t != [] && Ascii(t[0])
    ensures Rest(Request, cs, t) <==> Follows(Request, Delta(Request, cs, t[0]), t[1..])
  {
    assert t == [t[0]] + t[1..];
    VerbStep(cs, t[0], t[1..]);
    VerbStays(cs, t[0]);
    assert Seen(9) + t[1..] == t[1..];
  }

  lemma VerbStays(cs: nat, c: int)
    requires !InUri(cs) && !(22 <= cs <= 48)
    ensures var g := MethodDelta(cs, c);
      g == FAIL || ((g.to == 9 || (!InUri(g.to) && !(22 <= g.to <= 48))) && !(Accept in g.acts))
  {
  }

  lemma UriStays(cs: nat, c: int)
    requires InUri(cs)
    ensures var g := UriDelta(cs, c); g == FAIL || ((InUri(g.to) || g.to == 22) && !(Accept in g.acts))
  {
  }

  lemma StatusStays(cs: nat, c: int)
    ensures var g := StatusDelta(cs, c); g == FAIL || (!(18 <= g.to <= 43) && !(Accept in g.acts))
  {
  }

  lemma {:induction false} UriAscii(t: Text, n: nat)
    requires UriRest(t)
    ensures |t| >= 11 && (n < 11 ==> Ascii(t[n]))
    decreases |t|
  {
    if Starts(t, Ending(V10)) || Starts(t, Ending(V11)) {
      assert n < 11 ==> t[n] == t[..11][n];
    } else {
      UriAscii(t[1..], if n > 0 then n - 1 else 0);
    }
  }

  lemma HeadIsAscii(h: nat, t: Text)
    requires h <= 26 && HeadRest(h, t)
    ensures t != [] && Ascii(t[0])
  {
    if h == 6 {
      var s := [CR] + t;
      assert s[1..] == t;
      assert Break(s) || ValueRest(t);
    } else if h == 7 {
      assert LinesRest(t) || (t != [] && IsBlank(t[0]));
    }
  }

  lemma StatusIsAscii(cs: nat, t: Text)
    requires StatusRest(cs, t)
    ensures t != [] && Ascii(t[0])
  {
    if cs == 16 {
      var s := [CR] + t;
      assert s[1..] == t;
      assert Break(s) || MsgRest(t);
    }
  }

  /** Only characters of seven bits can follow, and something must. */
  lemma RestIsAscii(k: Kind, cs: nat, t: Text)
    requires Rest(k, cs, t)
    ensures t != [] && Ascii(t[0])
  {
    if Base(k) <= cs <= Base(k) + 26 {
      HeadIsAscii(cs - Base(k), t);
    } else if k == Response {
      StatusIsAscii(cs, t);
    } else if InUri(cs) {
      UriAscii(Seen(cs) + t, |Seen(cs)|);
    } else {
      VerbIsAscii(cs, t);
    }
  }

  lemma WordIsAscii(v: Method, n: nat, t: Text)
    requires n <= |Lowered(v)| && WordRest(Lowered(v)[n..], t)
    ensures t != [] && Ascii(t[0])
  {
    var w := Lowered(v)[n..];
    if w != [] {
      assert t[..|w|][0] == t[0];
      LoweredLetters(v, n);
    }
  }

  lemma VerbIsAscii(cs: nat, t: Text)
    requires VerbRest(cs, t)
    ensures t != [] && Ascii(t[0])
  {
    if cs == 1 {
      var v :| WordRest(Lowered(v), t);
      assert Lowered(v)[0..] == Lowered(v);
      WordIsAscii(v, 0, t);
    } else if cs == 70 {
      WordIsAscii(if WordRest(POST_WORD[1..], t) then POST else PUT, 1, t);
    } else {
      WordIsAscii(Place(cs).value.0, Place(cs).value.1, t);
    }
  }

  lemma FirstLineStep(k: Kind, cs: nat, t: Text)
    requires !(Base(k) <= cs <= Base(k) + 26) && t != [] && Ascii(t[0])
    ensures Rest(k, cs, t) <==> Follows(k, Delta(k, cs, t[0]), t[1..])
  {
    if k == Response {
      StatusRestStep(cs, t);
    } else if InUri(cs) {
      UriRestStep(cs, t);
    } else {
      VerbRestStep(cs, t);
    }
  }

  /** One step of the automaton is one step of the languages. */
  lemma RestStep(k: Kind, cs: nat, t: Text)
    ensures Rest(k, cs, t) <==> t != [] && Ascii(t[0]) && Follows(k, Delta(k, cs, t[0]), t[1..])
  {
    if Rest(k, cs, t) {
      RestIsAscii(k, cs, t);
    }
    if t != [] && Ascii(t[0]) {
      if Base(k) <= cs <= Base(k) + 26 {
        HeadRestStep(k, cs, t);
      } else {
        FirstLineStep(k, cs, t);
      }
    }
  }

  // Runs

  /** From state `cs` the text leads to acceptance, at its last character. */
  ghost predicate Accepts(d: Table, cs: nat, t: Text)
    decreases |t|
  {
    t != [] &&
    var g := d(cs, t[0]);
    g != FAIL && if g.acts == [Accept] then |t| == 1 else Accepts(d, g.to, t[1..])
  }

  lemma {:induction false} AcceptsIsRest(k: Kind, cs: nat, t: Text)
    ensures Accepts(Reader(k), cs, t) <==> Rest(k, cs, t)
    decreases |t|
  {
    RestStep(k, cs, t);
    if t != [] {
      AcceptsIsRest(k, Delta(k, cs, t[0]).to, t[1..]);
    }
  }

  /** Only the transitions to failure and to the end carry the last actions. */
  ghost predicate Tame(g: Goto) {
    g == FAIL || g.acts == [Accept] || forall i :: 0 <= i < |g.acts| ==> Verdict(g.acts[i]) == 0
  }

  lemma DeltaIsTame(k: Kind, cs: nat, c: int)
    ensures Tame(Delta(k, cs, c))
  {
  }

  lemma {:induction false} TameActs(st: State, acts: seq<Act>, buf: Text, p: nat)
    requires st.verdict == 0 && forall i :: 0 <= i < |acts| ==> Verdict(acts[i]) == 0
    ensures var r := PerformAll(st, acts, buf, p);
      r.verdict == 0 && r.cs == st.cs && r.writes.length == st.writes.length
    decreases |acts|
  {
    if acts != [] {
      TameActs(Perform(st, acts[0], buf, p), acts[1..], buf, p);
    }
  }

  /** The automaton never carries the last actions but where they belong. */
  ghost predicate Tamed(d: Table) {
    forall cs: nat, c: int {:trigger d(cs, c)} :: Tame(d(cs, c))
  }

  /** A run accepts, and where it does, exactly as the text says. */
  lemma {:induction false} RunAccepts(d: Table, st: State, buf: Text, p: nat, n: nat)
    requires Tamed(d) && st.verdict == 0 && st.writes.length == None && p <= |buf|
    ensures var r := Run(d, st, buf, p, |buf|);
      (r.verdict == 1 && r.writes.length == Some(n)) <==> p < n <= |buf| && Accepts(d, st.cs, buf[p..n])
    decreases |buf| - p
  {
    if p < |buf| {
      var cs, c := st.cs, buf[p];
      var g := d(cs, c);
      assert Tame(d(cs, c));
      var st1 := Step(d, st, buf, p);
      if p < n <= |buf| {
        assert buf[p..n][0] == buf[p] && buf[p..n][1..] == buf[p + 1..n];
      }
      if g == FAIL {
        OneAct(st.(cs := g.to), Reject, buf, p);
      } else if g.acts == [Accept] {
        OneAct(st.(cs := g.to), Accept, buf, p);
      } else {
        TameActs(st.(cs := g.to), g.acts, buf, p);
        RunAccepts(d, st1, buf, p + 1, n);
      }
    }
  }

  lemma OneAct(st: State, a: Act, buf: Text, p: nat)
    requires st.verdict == 0
    ensures PerformAll(st, [a], buf, p) == Perform(st, a, buf, p)
  {
    assert [a][1..] == [];
  }

  lemma ReaderIsTamed(k: Kind)
    ensures Tamed(Reader(k))
  {
    forall cs: nat, c: int
      ensures Tame(Reader(k)(cs, c))
    {
      DeltaIsTame(k, cs, c);
    }
  }

  /** A parser accepts a head of `n` bytes exactly if the first `n` bytes are in its language. */
  lemma ParserAccepts(k: Kind, buf: Text, n: nat)
    ensures var r := Parse(Reader(k), buf);
      (r.verdict == 1 && r.writes.length == Some(n)) <==> n <= |buf| && Rest(k, 1, buf[..n])
  {
    ReaderIsTamed(k);
    RunAccepts(Reader(k), START, buf, 0, n);
    if n <= |buf| {
      AcceptsIsRest(k, 1, buf[..n]);
      assert n > 0 ==> buf[0..n] == buf[..n];
      RestStep(k, 1, []);
      assert n == 0 ==> buf[..n] == [];
    }
  }

  // Every live state has a way out

  predicate Live(k: Kind, cs: nat) {
    1 <= cs <= if k == Request then 80 else 44
  }

  lemma DeltaIsLive(k: Kind, cs: nat, c: int)
    requires Live(k, cs)
    ensures var g := Delta(k, cs, c); g == FAIL || g.acts == [Accept] || Live(k, g.to)
  {
  }

  const EMPTY_LINE := [CR, LF]

  function HeadWay(h: nat): Text {
    if h == 0 || h == 7 then EMPTY_LINE
    else if h == 1 then [LF]
    else if h == 2 || 10 <= h <= 23 then [COLON, SP, CR, LF] + EMPTY_LINE
    else if h == 3 || h == 24 then [SP, CR, LF] + EMPTY_LINE
    else if h == 6 then [LF] + EMPTY_LINE
    else if h == 8 || h == 9 then [COLON, CR, LF] + EMPTY_LINE
    else [CR, LF] + EMPTY_LINE
  }

  lemma HeadHasWay(h: nat)
    requires h <= 26
    ensures HeadRest(h, HeadWay(h))
  {
    var e, w := EMPTY_LINE, HeadWay(h);
    var v := [CR, LF] + e;
    assert v[2..] == e && AfterValue(e) && ValueRest(v);
    if h == 2 || h == 3 || 10 <= h <= 24 {
      var s := [SP] + v;
      assert s[1..] == v && ColonRest(s);
      assert s == [SP, CR, LF] + e;
      var t := [COLON] + s;
      assert t[1..] == s && KeyRest(t);
      assert t == [COLON, SP, CR, LF] + e;
    } else if h == 6 {
      assert [CR] + w == v;
    } else if h == 8 || h == 9 {
      assert w[1..] == v;
    }
  }

  function StatusWay(cs: nat): Text
    requires 1 <= cs <= 16 || cs == 44
    decreases if cs == 44 then 8 else 17 - cs
  {
    if cs <= 7 then [PROTOCOL[cs - 1]] + StatusWay(cs + 1)
    else if cs == 8 then [48] + StatusWay(9)
    else if cs == 9 || cs == 44 then [SP] + StatusWay(10)
    else if cs <= 12 then [48] + StatusWay(cs + 1)
    else if cs == 13 then [SP] + StatusWay(14)
    else if cs <= 15 then [CR, LF] + EMPTY_LINE
    else [LF] + EMPTY_LINE
  }

  lemma {:induction false} StatusHasWay(cs: nat)
    requires 1 <= cs <= 16 || cs == 44
    ensures StatusRest(cs, StatusWay(cs))
    decreases if cs == 44 then 8 else 17 - cs
  {
    var w := StatusWay(cs);
    if cs <= 13 || cs == 44 {
      var next := if cs == 44 then 10 else cs + 1;
      StatusHasWay(next);
      assert w[1..] == StatusWay(next);
      StatusStep(cs, w);
    } else if cs <= 15 {
      assert w[2..] == EMPTY_LINE;
    } else {
      assert ([CR] + w)[2..] == EMPTY_LINE;
    }
  }

  const LINE_END := Ending(V10) + EMPTY_LINE

  lemma UriHasWay(cs: nat)
    requires InUri(cs)
    ensures UriRest(Seen(cs) + LINE_END)
  {
    var t := Protocol(V10) + [CR, LF] + EMPTY_LINE;
    assert LINE_END == [SP] + t;
    assert LINE_END[..11] == Ending(V10) && LINE_END[11..] == EMPTY_LINE;
    Restart(cs, SP, t);
  }

  function VerbWay(cs: nat): Text {
    (if cs == 1 then GET_WORD else if cs == 70 then PUT_WORD[1..] else if Ahead(cs).Some? then Ahead(cs).value else [])
    + ([SP] + LINE_END)
  }

  lemma IsLow(v: Method, n: nat)
    requires n <= |Lowered(v)|
    ensures var w := Lowered(v)[n..]; Alike(w, w)
  {
    var w := Lowered(v)[n..];
    forall i | 0 <= i < |w|
      ensures Lower(w[i]) == w[i]
    {
      LoweredLetters(v, n + i);
    }
  }

  lemma WordJoin(w: Text, u: Text)
    requires Alike(w, w) && UriRest(u)
    ensures WordRest(w, w + ([SP] + u))
  {
    var t := w + ([SP] + u);
    assert t[..|w|] == w && t[|w| + 1..] == u;
  }

  lemma WordHasWay(v: Method, n: nat)
    requires n <= |Lowered(v)|
    ensures var w := Lowered(v)[n..]; WordRest(w, w + ([SP] + LINE_END))
  {
    IsLow(v, n);
    UriHasWay(9);
    assert Seen(9) + LINE_END == LINE_END;
    WordJoin(Lowered(v)[n..], LINE_END);
  }

  lemma VerbHasWay(cs: nat)
    requires 1 <= cs <= 80 && !InUri(cs) && !(22 <= cs <= 48)
    ensures VerbRest(cs, VerbWay(cs))
  {
    if cs == 1 {
      WordHasWay(GET, 0);
      assert Lowered(GET)[0..] == GET_WORD;
      assert WordRest(Lowered(GET), VerbWay(1));
    } else if cs == 70 {
      WordHasWay(PUT, 1);
    } else {
      WordHasWay(Place(cs).value.0, Place(cs).value.1);
    }
  }

  ghost function Way(k: Kind, cs: nat): (t: Text)
    requires Live(k, cs)
    ensures Rest(k, cs, t)
  {
    if Base(k) <= cs <= Base(k) + 26 then
      HeadHasWay(cs - Base(k));
      HeadWay(cs - Base(k))
    else if k == Response then
      StatusHasWay(cs);
      StatusWay(cs)
    else if InUri(cs) then
      UriHasWay(cs);
      LINE_END
    else
      VerbHasWay(cs);
      VerbWay(cs)
  }

  /** While a run has no verdict, it is in a live state, and what it accepts is what that state does. */
  lemma {:induction false} RunIsLive(k: Kind, st: State, buf: Text, p: nat, t: Text)
    requires st.verdict == 0 && Live(k, st.cs) && p <= |buf|
    ensures var r := Run(Reader(k), st, buf, p, |buf|);
      r.verdict == 0 ==> Live(k, r.cs) && (Rest(k, st.cs, buf[p..] + t) <==> Rest(k, r.cs, t))
    decreases |buf| - p
  {
    var rest := buf[p..] + t;
    if p == |buf| {
      assert rest == t;
    } else {
      var g, st1 := Delta(k, st.cs, buf[p]), Step(Reader(k), st, buf, p);
      assert rest[0] == buf[p] && rest[1..] == buf[p + 1..] + t;
      RestStep(k, st.cs, rest);
      DeltaIsLive(k, st.cs, buf[p]);
      DeltaIsTame(k, st.cs, buf[p]);
      if g == FAIL {
        OneAct(st.(cs := g.to), Reject, buf, p);
      } else if g.acts == [Accept] {
        OneAct(st.(cs := g.to), Accept, buf, p);
      } else {
        TameActs(st.(cs := g.to), g.acts, buf, p);
        DeltaIsAscii(k, st.cs, buf[p]);
        RunIsLive(k, st1, buf, p + 1, t);
      }
    }
  }

  lemma DeltaIsAscii(k: Kind, cs: nat, c: int)
    requires Delta(k, cs, c) != FAIL
    ensures Ascii(c)
  {
  }

  /** A parser waits for more exactly as long as what has come in can still become a head. */
  lemma ParserWaits(k: Kind, buf: Text)
    ensures Parse(Reader(k), buf).verdict == 0 <==> exists t :: t != [] && Rest(k, 1, buf + t)
  {
    var r := Parse(Reader(k), buf);
    if r.verdict == 0 {
      RunIsLive(k, START, buf, 0, []);
      var t := Way(k, r.cs);
      RunIsLive(k, START, buf, 0, t);
      assert buf[0..] == buf;
      RestIsAscii(k, r.cs, t);
    }
    if t :| t != [] && Rest(k, 1, buf + t) {
      var n := |buf + t|;
      ParserAccepts(k, buf + t, n);
      assert (buf + t)[..n] == buf + t;
      ParseGoesOn(Reader(k), buf, t);
      ParserAccepts(k, buf, n);
    }
  }

  // The grammars

  /** Seven-bit characters without a line break. */
  predicate Plain(s: Text) {
    && (forall i :: 0 <= i < |s| ==> Ascii(s[i]))
    && (forall i :: 0 < i < |s| ==> s[i - 1] != CR || s[i] != LF)
  }

  /** Plain text up to `p`, then a line break. */
  ghost predicate BreakAt(s: Text, p: nat) {
    p + 2 <= |s| && Plain(s[..p]) && s[p] == CR && s[p + 1] == LF
  }

  /** Continuation lines: each starts with a blank and holds something more. */
  ghost predicate Folds(s: Text)
    decreases |s|
  {
    s == [] || (IsBlank(s[0]) && exists p: nat :: FoldAt(s, p) && Folds(s[p + 3..]))
  }

  ghost predicate FoldAt(s: Text, p: nat) {
    s != [] && 0 < p && BreakAt(s[1..], p)
  }

  ghost predicate Value(s: Text) {
    exists p: nat :: BreakAt(s, p) && Folds(s[p + 2..])
  }

  ghost predicate KeyAt(s: Text, i: nat) {
    i + 2 <= |s| && KeyOk(s[..i]) && s[i] == COLON && s[i + 1] == SP
  }

  ghost predicate Header(s: Text) {
    exists i: nat :: KeyAt(s, i) && Value(s[i + 2..])
  }

  ghost predicate HeaderAt(s: Text, n: nat) {
    0 < n <= |s| && Header(s[..n])
  }

  /** Any number of headers, then an empty line. */
  ghost predicate Lines(s: Text)
    decreases |s|
  {
    s == [CR, LF] || exists n: nat :: HeaderAt(s, n) && Lines(s[n..])
  }

  lemma {:induction false} ValueCut(t: Text) returns (p: nat)
    requires ValueRest(t)
    ensures BreakAt(t, p) && AfterValue(t[p + 2..])
    decreases |t|
  {
    if Break(t) {
      p := 0;
    } else {
      var q := ValueCut(t[1..]);
      p := q + 1;
      assert t[1..][q + 2..] == t[p + 2..];
      PlainMore(t, p);
    }
  }

  lemma PlainMore(t: Text, p: nat)
    requires 0 < p < |t| && Ascii(t[0]) && !Break(t) && Plain(t[1..][..p - 1])
    ensures Plain(t[..p])
  {
    var a, b := t[..p], t[1..][..p - 1];
    forall i | 0 <= i < |a|
      ensures Ascii(a[i]) && (i > 0 ==> a[i - 1] != CR || a[i] != LF)
    {
      assert i > 0 ==> a[i] == b[i - 1];
      assert i > 1 ==> a[i - 1] == b[i - 2];
    }
  }

  lemma PlainLess(t: Text, p: nat)
    requires 0 < p < |t| && Plain(t[..p]) && (p == 1 ==> t[0] != CR || t[1] != LF)
    ensures Ascii(t[0]) && !Break(t) && Plain(t[1..][..p - 1])
  {
    var a, b := t[..p], t[1..][..p - 1];
    assert a[0] == t[0] && (p > 1 ==> a[1] == t[1]);
    forall i | 0 <= i < |b|
      ensures Ascii(b[i]) && (i > 0 ==> b[i - 1] != CR || b[i] != LF)
    {
      assert b[i] == a[i + 1] && (i > 0 ==> b[i - 1] == a[i]);
    }
  }

  lemma {:induction false} ValueJoin(t: Text, p: nat)
    requires BreakAt(t, p) && AfterValue(t[p + 2..])
    ensures ValueRest(t)
    decreases p
  {
    if p > 0 {
      PlainLess(t, p);
      assert t[1..][p + 1..] == t[p + 2..];
      ValueJoin(t[1..], p - 1);
    }
  }

  lemma {:induction false} FoldsCut(r: Text) returns (m: nat)
    requires AfterValue(r)
    ensures m <= |r| && Folds(r[..m]) && LinesRest(r[m..])
    decreases |r|
  {
    if LinesRest(r) {
      m := 0;
    } else {
      var p := ValueCut(r[1..]);
      var rest := r[p + 3..];
      assert r[1..][p + 2..] == rest;
      var m1 := FoldsCut(rest);
      m := p + 3 + m1;
      var f := r[..m];
      assert f[1..][..p] == r[1..][..p] && f[p + 3..] == rest[..m1] && r[m..] == rest[m1..];
      assert FoldAt(f, p);
    }
  }

  lemma {:induction false} FoldsJoin(r: Text, m: nat)
    requires m <= |r| && Folds(r[..m]) && LinesRest(r[m..])
    ensures AfterValue(r)
    decreases m
  {
    var f := r[..m];
    if m == 0 {
      assert r[m..] == r;
    } else {
      var p: nat :| FoldAt(f, p) && Folds(f[p + 3..]);
      Slices(r, m, p);
      FoldsJoin(r[p + 3..], m - p - 3);
      FoldJoin(r, m, p);
    }
  }

  lemma Slices(r: Text, m: nat, p: nat)
    requires p + 3 <= m <= |r|
    ensures r[p + 3..][..m - p - 3] == r[..m][p + 3..] && r[p + 3..][m - p - 3..] == r[m..]
    ensures r[1..][..p] == r[..m][1..][..p] && r[1..][p + 2..] == r[p + 3..]
  {
  }

  lemma FoldJoin(r: Text, m: nat, p: nat)
    requires m <= |r| && FoldAt(r[..m], p) && IsBlank(r[0]) && AfterValue(r[p + 3..])
    ensures AfterValue(r)
  {
    Slices(r, m, p);
    var t := r[1..];
    assert t[p] == r[..m][1..][p] && t[p + 1] == r[..m][1..][p + 1];
    ValueJoin(t, p);
    PlainLess(t, p);
  }

  predicate Marks(s: Text) {
    forall i :: 0 <= i < |s| ==> IsMark(s[i])
  }

  lemma {:induction false} KeyCut(t: Text) returns (i: nat)
    requires KeyRest(t)
    ensures i + 2 <= |t| && Marks(t[..i]) && t[i] == COLON && t[i + 1] == SP && ValueRest(t[i + 2..])
    decreases |t|
  {
    if t[0] == COLON && ColonRest(t[1..]) && t[1] == SP {
      i := 0;
      assert t[1..][1..] == t[2..];
    } else {
      var j := KeyCut(t[1..]);
      i := j + 1;
      assert t[1..][j + 2..] == t[i + 2..];
      assert t[..i] == [t[0]] + t[1..][..j];
    }
  }

  lemma {:induction false} KeyJoin(t: Text, i: nat)
    requires i + 2 <= |t| && Marks(t[..i]) && t[i] == COLON && t[i + 1] == SP && ValueRest(t[i + 2..])
    ensures KeyRest(t)
    decreases i
  {
    if i == 0 {
      assert t[1..][1..] == t[2..];
    } else {
      assert t[..i][0] == t[0];
      assert t[1..][i + 1..] == t[i + 2..];
      assert t[1..][..i - 1] == t[..i][1..];
      KeyJoin(t[1..], i - 1);
    }
  }

  /** One header, then more lines. */
  lemma LineKeyCut(t: Text) returns (i: nat)
    requires LinesRest(t) && t != [CR, LF]
    ensures 0 < i && i + 2 <= |t| && IsMark(t[0]) && Marks(t[1..][..i - 1]) && t[i] == COLON && t[i + 1] == SP
    ensures ValueRest(t[i + 2..])
  {
    var j := KeyCut(t[1..]);
    i := j + 1;
    assert t[1..][j + 2..] == t[i + 2..];
  }

  lemma LineCut(t: Text) returns (n: nat)
    requires LinesRest(t) && t != [CR, LF]
    ensures HeaderAt(t, n) && LinesRest(t[n..])
  {
    var i := LineKeyCut(t);
    var v := t[i + 2..];
    var p := ValueCut(v);
    var m := FoldsCut(v[p + 2..]);
    n := i + p + 4 + m;
    LineSlices(t, n, i, p);
    LineIsHeader(t, i, p, m);
  }

  lemma LineSlices(t: Text, n: nat, i: nat, p: nat)
    requires i + p + 4 <= n <= |t|
    ensures var v, w, m := t[i + 2..], t[..n][i + 2..], n - i - p - 4;
      && v[..p] == w[..p] && v[p] == w[p] && v[p + 1] == w[p + 1]
      && v[p + 2..][..m] == w[p + 2..] && v[p + 2..][m..] == t[n..]
  {
  }

  lemma LineIsHeader(t: Text, i: nat, p: nat, m: nat)
    requires 0 < i && i + p + 4 + m <= |t| && IsMark(t[0]) && Marks(t[1..][..i - 1])
    requires t[i] == COLON && t[i + 1] == SP && BreakAt(t[i + 2..], p) && Folds(t[i + 2..][p + 2..][..m])
    ensures HeaderAt(t, i + p + 4 + m)
  {
    var n := i + p + 4 + m;
    var s := t[..n];
    LineSlices(t, n, i, p);
    assert s[..i] == [t[0]] + t[1..][..i - 1];
    assert BreakAt(s[i + 2..], p);
    assert KeyAt(s, i);
  }

  lemma HeaderParts(s: Text) returns (i: nat, p: nat)
    requires Header(s)
    ensures KeyAt(s, i) && BreakAt(s[i + 2..], p) && Folds(s[i + 2..][p + 2..])
  {
    i :| KeyAt(s, i) && Value(s[i + 2..]);
    p :| BreakAt(s[i + 2..], p) && Folds(s[i + 2..][p + 2..]);
  }

  lemma KeyStays(t: Text, n: nat, i: nat)
    requires n <= |t| && KeyAt(t[..n], i)
    ensures KeyAt(t, i)
  {
    assert t[..n][..i] == t[..i];
  }

  lemma LineJoin(t: Text, n: nat)
    requires HeaderAt(t, n) && LinesRest(t[n..])
    ensures LinesRest(t)
  {
    var i, p := HeaderParts(t[..n]);
    LineSlices(t, n, i, p);
    var v, m := t[i + 2..], n - i - p - 4;
    ValueFollows(v, p, m);
    KeyStays(t, n, i);
    KeyIsRest(t, i);
  }

  lemma ValueFollows(v: Text, p: nat, m: nat)
    requires BreakAt(v, p) && m <= |v[p + 2..]| && Folds(v[p + 2..][..m]) && LinesRest(v[p + 2..][m..])
    ensures ValueRest(v)
  {
    FoldsJoin(v[p + 2..], m);
    ValueJoin(v, p);
  }

  lemma KeyIsRest(t: Text, i: nat)
    requires KeyAt(t, i) && ValueRest(t[i + 2..])
    ensures LinesRest(t)
  {
    assert t[..i][0] == t[0];
    var u := t[1..];
    assert u[..i - 1] == t[..i][1..] && u[i + 1..] == t[i + 2..];
    KeyJoin(u, i - 1);
  }

  lemma {:induction false} LinesAreRest(t: Text)
    ensures Lines(t) <==> LinesRest(t)
    decreases |t|
  {
    if t != [CR, LF] {
      if Lines(t) {
        var n: nat :| HeaderAt(t, n) && Lines(t[n..]);
        LinesAreRest(t[n..]);
        LineJoin(t, n);
      }
      if LinesRest(t) {
        var n := LineCut(t);
        LinesAreRest(t[n..]);
      }
    }
  }

  lemma {:induction false} UriCut(t: Text) returns (p: nat, v: Version)
    requires UriRest(t)
    ensures p + 11 <= |t| && Plain(t[..p]) && Starts(t[p..], Ending(v)) && LinesRest(t[p + 11..])
    decreases |t|
  {
    if Starts(t, Ending(V10)) || Starts(t, Ending(V11)) {
      p, v := 0, if Starts(t, Ending(V10)) then V10 else V11;
      assert t[0..] == t;
    } else {
      var q;
      q, v := UriCut(t[1..]);
      p := q + 1;
      assert t[1..][q..] == t[p..] && t[1..][q + 11..] == t[p + 11..];
      PlainMore(t, p);
    }
  }

  lemma {:induction false} UriJoin(t: Text, p: nat, v: Version)
    requires p + 11 <= |t| && Plain(t[..p]) && Starts(t[p..], Ending(v)) && LinesRest(t[p + 11..])
    ensures UriRest(t)
    decreases p
  {
    if p == 0 {
      assert t[0..] == t;
    } else {
      assert t[p] == t[p..][..11][0];
      PlainLess(t, p);
      NoEarlierEnd(t, p, V10);
      NoEarlierEnd(t, p, V11);
      assert t[1..][p - 1..] == t[p..] && t[1..][p + 10..] == t[p + 11..];
      UriJoin(t[1..], p - 1, v);
    }
  }

  lemma NoEarlierEnd(t: Text, p: nat, w: Version)
    requires 0 < p < |t| && Plain(t[..p]) && t[p] == SP
    ensures !Starts(t, Ending(w))
  {
    if p <= 10 {
      NotEnding(t, w, p);
    } else {
      var a := t[..p];
      assert a[9] == t[9] && a[10] == t[10];
      NotEnding(t, w, if t[9] != CR then 9 else 10);
    }
  }

  lemma {:induction false} MsgCut(t: Text) returns (p: nat)
    requires MsgRest(t)
    ensures BreakAt(t, p) && LinesRest(t[p + 2..])
    decreases |t|
  {
    if Break(t) {
      p := 0;
    } else {
      var q := MsgCut(t[1..]);
      p := q + 1;
      assert t[1..][q + 2..] == t[p + 2..];
      PlainMore(t, p);
    }
  }

  lemma {:induction false} MsgJoin(t: Text, p: nat)
    requires BreakAt(t, p) && LinesRest(t[p + 2..])
    ensures MsgRest(t)
    decreases p
  {
    if p > 0 {
      PlainLess(t, p);
      assert t[1..][p + 1..] == t[p + 2..];
      MsgJoin(t[1..], p - 1);
    }
  }

  /** A method in either case, a blank, a URI up to `m`, the protocol, and the lines. */
  ghost predicate RequestShape(s: Text, v: Method, p: Version, m: nat) {
    var n := |Lowered(v)|;
    && n + 1 <= m && m + 11 <= |s|
    && Alike(s[..n], Lowered(v)) && s[n] == SP
    && Plain(s[n + 1..m]) && Starts(s[m..], Ending(p)) && Lines(s[m + 11..])
  }

  /** The protocol, a code of three digits, a message of `m` characters, and the lines. */
  ghost predicate ResponseShape(s: Text, p: Version, m: nat) {
    && m + 15 <= |s| && Starts(s, Protocol(p) + [SP])
    && IsDigit(s[9]) && IsDigit(s[10]) && IsDigit(s[11]) && s[12] == SP
    && BreakAt(s[13..], m) && Lines(s[13..][m + 2..])
  }

  /** The grammars of http_request_parse.rl and http_response_parse.rl. A Content-Length line is one of
      the headers. */
  ghost predicate IsHead(k: Kind, s: Text) {
    if k == Request then exists v, p, m: nat :: RequestShape(s, v, p, m)
    else exists p, m: nat :: ResponseShape(s, p, m)
  }

  lemma RequestCut(s: Text, v: Method) returns (p: Version, m: nat)
    requires WordRest(Lowered(v), s)
    ensures RequestShape(s, v, p, m)
  {
    var n := |Lowered(v)|;
    var u := s[n + 1..];
    var q;
    q, p := UriCut(u);
    m := n + 1 + q;
    assert s[n + 1..m] == u[..q] && s[m..] == u[q..] && s[m + 11..] == u[q + 11..];
    LinesAreRest(s[m + 11..]);
  }

  lemma RequestJoin(s: Text, v: Method, p: Version, m: nat)
    requires RequestShape(s, v, p, m)
    ensures WordRest(Lowered(v), s)
  {
    var n := |Lowered(v)|;
    var u, q := s[n + 1..], m - n - 1;
    assert s[n + 1..m] == u[..q] && s[m..] == u[q..] && s[m + 11..] == u[q + 11..];
    LinesAreRest(s[m + 11..]);
    UriJoin(u, q, p);
  }

  lemma {:induction false} ProtocolSpelled(n: nat, t: Text)
    requires n <= 7
    ensures ProtocolRest(n, t) <==>
      |t| > 7 - n && t[..7 - n] == PROTOCOL[n..] && (t[7 - n] == 48 || t[7 - n] == 49) && VersionRest(t[8 - n..])
    decreases 7 - n
  {
    if n == 7 {
      assert |t| > 0 ==> t[..0] == PROTOCOL[7..];
    } else if t != [] {
      ProtocolSpelled(n + 1, t[1..]);
      if |t| > 7 - n {
        assert t[..7 - n] == [t[0]] + t[1..][..6 - n];
        assert PROTOCOL[n..] == [PROTOCOL[n]] + PROTOCOL[n + 1..];
        assert t[1..][7 - n..] == t[8 - n..] && t[1..][6 - n] == t[7 - n];
        if t[..7 - n] == PROTOCOL[n..] {
          assert t[0] == t[..7 - n][0] && t[1..][..6 - n] == t[..7 - n][1..] && PROTOCOL[n..][1..] == PROTOCOL[n + 1..];
        }
      }
    }
  }

  lemma CodeSpelled(t: Text)
    ensures VersionRest(t) <==>
      |t| >= 5 && t[0] == SP && IsDigit(t[1]) && IsDigit(t[2]) && IsDigit(t[3]) && t[4] == SP && MsgRest(t[5..])
  {
    if |t| >= 5 {
      var a, b, c, d := t[1..], t[2..], t[3..], t[4..];
      assert a[1..] == b && b[1..] == c && c[1..] == d && d[1..] == t[5..];
      assert CodeRest(0, d) <==> d[0] == SP && MsgRest(t[5..]);
      assert CodeRest(1, c) <==> IsDigit(c[0]) && CodeRest(0, d);
      assert CodeRest(2, b) <==> IsDigit(b[0]) && CodeRest(1, c);
      assert CodeRest(3, a) <==> IsDigit(a[0]) && CodeRest(2, b);
    } else if VersionRest(t) {
      CodeIsLong(3, t[1..]);
    }
  }

  lemma {:induction false} CodeIsLong(n: nat, t: Text)
    requires CodeRest(n, t)
    ensures |t| > n
    decreases n
  {
    if n > 0 {
      CodeIsLong(n - 1, t[1..]);
    }
  }

  lemma ProtocolCut(s: Text) returns (p: Version)
    requires |s| >= 9 && s[..7] == PROTOCOL[0..] && (s[7] == 48 || s[7] == 49) && s[8] == SP
    ensures s[..9] == Protocol(p) + [SP]
  {
    p := if s[7] == 48 then V10 else V11;
    assert s[..9] == s[..7] + [s[7], s[8]];
    assert PROTOCOL[0..] == PROTOCOL;
  }

  lemma ResponseCut(s: Text) returns (p: Version, m: nat)
    requires ProtocolRest(0, s)
    ensures ResponseShape(s, p, m)
  {
    ProtocolSpelled(0, s);
    var t := s[8..];
    CodeSpelled(t);
    assert t[5..] == s[13..];
    m := MsgCut(s[13..]);
    LinesAreRest(s[13..][m + 2..]);
    p := ProtocolCut(s);
  }

  lemma ResponseJoin(s: Text, p: Version, m: nat)
    requires ResponseShape(s, p, m)
    ensures ProtocolRest(0, s)
  {
    var w, t := Protocol(p) + [SP], s[8..];
    LinesAreRest(s[13..][m + 2..]);
    MsgJoin(s[13..], m);
    assert t[5..] == s[13..];
    assert s[..9] == w;
    assert s[7] == w[7] && s[8] == w[8] && s[..7] == w[..7] && w[..7] == PROTOCOL[0..];
    CodeSpelled(t);
    ProtocolSpelled(0, s);
  }

  /** The language of the first state is the grammar. */
  lemma RestIsGrammar(k: Kind, s: Text)
    ensures Rest(k, 1, s) <==> IsHead(k, s)
  {
    if k == Request {
      if Rest(k, 1, s) {
        var v :| WordRest(Lowered(v), s);
        var p, m := RequestCut(s, v);
      }
      if v, p, m: nat :| RequestShape(s, v, p, m) {
        RequestJoin(s, v, p, m);
      }
    } else {
      if Rest(k, 1, s) {
        var p, m := ResponseCut(s);
      }
      if p, m: nat :| ResponseShape(s, p, m) {
        ResponseJoin(s, p, m);
      }
    }
  }

  /** The parsers accept the grammars: a head of `n` bytes is found exactly if the first `n` bytes are one. */
  lemma AcceptsGrammar(k: Kind, buf: Text, n: nat)
    ensures var r := Parse(Reader(k), buf);
      (r.verdict == 1 && r.writes.length == Some(n)) <==> n <= |buf| && IsHead(k, buf[..n])
  {
    ParserAccepts(k, buf, n);
    if n <= |buf| {
      RestIsGrammar(k, buf[..n]);
    }
  }

  /** They wait for more exactly as long as what has come in can still become a head. */
  lemma WaitsForGrammar(k: Kind, buf: Text)
    ensures Parse(Reader(k), buf).verdict == 0 <==> exists t :: t != [] && IsHead(k, buf + t)
  {
    ParserWaits(k, buf);
    if t :| t != [] && Rest(k, 1, buf + t) {
      RestIsGrammar(k, buf + t);
    }
    if t :| t != [] && IsHead(k, buf + t) {
      RestIsGrammar(k, buf + t);
    }
  }

  lemma {:induction false} Verdicts(d: Table, st: State, buf: Text, p: nat)
    requires Tamed(d) && st.verdict == 0 && st.writes.length == None && p <= |buf|
    ensures var r := Run(d, st, buf, p, |buf|); -1 <= r.verdict <= 1 && (r.verdict == 1 ==> r.writes.length.Some?)
    decreases |buf| - p
  {
    if p < |buf| {
      var cs, c := st.cs, buf[p];
      var g := d(cs, c);
      assert Tame(d(cs, c));
      if g == FAIL {
        OneAct(st.(cs := g.to), Reject, buf, p);
      } else if g.acts == [Accept] {
        OneAct(st.(cs := g.to), Accept, buf, p);
      } else {
        TameActs(st.(cs := g.to), g.acts, buf, p);
        Verdicts(d, Step(d, st, buf, p), buf, p + 1);
      }
    }
  }

  /** They give up exactly when neither holds. */
  lemma RejectsOthers(k: Kind, buf: Text)
    ensures Parse(Reader(k), buf).verdict == -1 <==>
      (forall n :: 0 <= n <= |buf| ==> !IsHead(k, buf[..n])) && (forall t :: t != [] ==> !IsHead(k, buf + t))
  {
    var r := Parse(Reader(k), buf);
    ReaderIsTamed(k);
    Verdicts(Reader(k), START, buf, 0);
    WaitsForGrammar(k, buf);
    forall n | 0 <= n <= |buf| && IsHead(k, buf[..n])
      ensures r.verdict == 1
    {
      AcceptsGrammar(k, buf, n);
    }
    if r.verdict == 1 {
      AcceptsGrammar(k, buf, r.writes.length.value);
    }
  }
}
