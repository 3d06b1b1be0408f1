/** What the senders print besides the headers given to them. */
module HttpPrint {
  import opened Wrappers
  import opened HttpMachine
  import opened HttpHeaders
  import opened HttpParse
  import opened HttpRoundTrip

  // Decimal numbers

  function Dec(n: nat): Text {
    if n < 10 then [48 + n] else Dec(n / 10) + [48 + n % 10]
  }

  lemma {:induction false} DecIsDigits(n: nat)
    ensures AllDigits(Dec(n))
  {
    if n >= 10 {
      DecIsDigits(n / 10);
    }
  }

  lemma {:induction false} DigitsOneMore(s: Text, d: nat, acc: nat)
    requires (forall i :: 0 <= i < |s| ==> IsDigit(s[i])) && d < 10
    ensures Digits(s + [48 + d], acc) == 10 * Digits(s, acc) + d
    decreases |s|
  {
    var t := s + [48 + d];
    if s == [] {
      assert t[1..] == [];
    } else {
      assert t[1..] == s[1..] + [48 + d];
      DigitsOneMore(s[1..], d, 10 * acc + (s[0] - 48));
    }
  }

  lemma {:induction false} DecReads(n: nat)
    ensures Digits(Dec(n), 0) == n
  {
    if n >= 10 {
      DecReads(n / 10);
      DecIsDigits(n / 10);
      DigitsOneMore(Dec(n / 10), n % 10, 0);
    } else {
      assert [48 + n][1..] == [];
    }
  }

  lemma DecIsDec3(n: nat)
    requires 100 <= n <= 999
    ensures Dec(n) == Dec3(n)
  {
    assert Dec(n) == Dec(n / 10) + [48 + n % 10];
    assert Dec(n / 10) == Dec(n / 10 / 10) + [48 + n / 10 % 10];
    assert n / 10 / 10 == n / 100;
  }

  const SIZE_MAX := 0xffff_ffff_ffff_ffff

  lemma Folded(n: nat)
    requires n <= SIZE_MAX
    ensures ToSize(n) == n <==> n <= INT_MAX || n == SIZE_MAX
  {
    if n > LONG_MAX {
      assert LONG_MAX == 0x7fff_ffff * 0x1_0000_0000 + 0xffff_ffff;
    } else {
      var q, m := n / 0x1_0000_0000, n % 0x1_0000_0000;
      assert n == q * 0x1_0000_0000 + m;
    }
  }

  /** A printed length comes back exactly when it fits an int, or is the one that atoi's overflow happens to hit. */
  lemma LengthComesBack(n: nat)
    requires n <= SIZE_MAX
    ensures Atoi(Dec(n)) == n <==> n <= INT_MAX || n == SIZE_MAX
  {
    DecReads(n);
    Folded(n);
  }

  // Status lines

  /** The texts compiled into the library: the message of each known status code, the one for
      all other codes, and the name it gives itself in the Server header. */
  datatype Wording = Wording(known: map<int, Text>, other: Text, server: Text)

  predicate WordingOk(w: Wording) {
    && (forall c :: c in w.known ==> 100 <= c <= 999 && MsgOk(w.known[c]))
    && MsgOk(w.other)
    && ValueOk(w.server)
  }

  /** rn_http_response_setdefaultmsg: the code and message that are printed. */
  function Status(w: Wording, code: int): (r: (nat, Text))
    requires WordingOk(w)
    ensures 100 <= r.0 <= 999 && MsgOk(r.1)
    ensures code in w.known ==> r == (code, w.known[code])
  {
    if code in w.known then (code, w.known[code]) else (500, w.other)
  }

  // Default headers

  predicate Bare(s: Text) {
    forall i :: 0 <= i < |s| ==> s[i] != 0
  }

  lemma DecIsBare(n: nat)
    ensures Bare(Dec(n)) && Dec(n) != []
  {
    DecIsDigits(n);
  }

  const LENGTH_KEY := [67, 111, 110, 116, 101, 110, 116, 45, 76, 101, 110, 103, 116, 104] // "Content-Length"
  const SERVER_KEY := [83, 101, 114, 118, 101, 114] // "Server"

  function Default(m: map<Text, Text>, key: Text, value: Text): map<Text, Text> {
    if key in m then m else m[key := value]
  }

  /** The headers a response goes out with, for a body of `n` bytes. */
  function Completed(w: Wording, m: map<Text, Text>, n: nat): map<Text, Text> {
    Default(Default(m, LENGTH_KEY, Dec(n)), SERVER_KEY, w.server)
  }

  lemma {:induction false} OneLength(hs: Headers, i: nat)
    requires i < |hs| && IsLengthKey(hs[i].0)
    requires forall j :: 0 <= j < |hs| && IsLengthKey(hs[j].0) ==> j == i
    ensures LastLength(hs) == Some(hs[i].1)
    decreases |hs|
  {
    if i < |hs| - 1 {
      OneLength(hs[..|hs| - 1], i);
    }
  }

  /** If no other key spells content-length, the length that was printed is the one read. */
  lemma LengthRecovered(hs: Headers, m: map<Text, Text>, n: nat)
    requires Listed(hs) && m == AddAll(map[], hs) && LENGTH_KEY in m && m[LENGTH_KEY] == Dec(n) && n <= SIZE_MAX
    requires forall k :: k in m && IsLengthKey(k) ==> k == LENGTH_KEY
    ensures LengthsOk(hs) && LengthOf(hs) == Some(Atoi(Dec(n)))
    ensures LengthOf(hs) == Some(n) <==> n <= INT_MAX || n == SIZE_MAX
  {
    AddAllLists(hs);
    DecIsDigits(n);
    LengthComesBack(n);
    var i :| 0 <= i < |hs| && hs[i].0 == LENGTH_KEY;
    forall j | 0 <= j < |hs| && IsLengthKey(hs[j].0)
      ensures j == i
    {
      DistinctKeys(hs, i, j);
    }
    OneLength(hs, i);
  }

  /** The headers of a response to which none were given. */
  function Defaults(w: Wording, n: nat): Headers {
    [(LENGTH_KEY, Dec(n)), (SERVER_KEY, w.server)]
  }

  lemma DefaultsListed(w: Wording, n: nat)
    ensures Listed(Defaults(w, n)) && AddAll(map[], Defaults(w, n)) == Completed(w, map[], n)
  {
    var hs := Defaults(w, n);
    assert Less(LENGTH_KEY, SERVER_KEY);
    assert hs[..1] == [(LENGTH_KEY, Dec(n))] && hs[..1][..0] == [];
    assert AddAll(map[], hs) == AddAll(map[], hs[..1])[SERVER_KEY := w.server];
    assert AddAll(map[], hs[..1]) == AddAll(map[], hs[..1][..0])[LENGTH_KEY := Dec(n)];
  }

  /** The answer to a head that does not parse. */
  function BadRequest(w: Wording, v: Version): Text
    requires WordingOk(w)
  {
    ResponseHead(v, Status(w, 400).0, Status(w, 400).1, Defaults(w, 0))
  }
}
