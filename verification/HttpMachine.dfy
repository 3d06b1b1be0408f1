/**
  The transition function of the two HTTP head parsers, in the shape of the grammars in
  src/proto/http/http_request_parse.rl and http_response_parse.rl. Characters are
  signed, so bytes from 128 up are negative and match nothing.
 */
module HttpMachine {

  datatype Method = OPTIONS | GET | HEAD | POST | PUT | DELETE | TRACE | CONNECT

  datatype Version = V10 | V11

  datatype Act =
    | StartUri | EndUri | StartCode | StartMsg | EndMsg
    | StartCl | EndCl | StartHead | EndHead | StartValue | EndValue
    | SetMethod(verb: Method) | SetVersion(version: Version)
    | Accept | Reject

  datatype Goto = Goto(to: nat, acts: seq<Act>)

  const FAIL := Goto(0, [Reject])

  const TAB := 9
  const LF := 10
  const CR := 13
  const SP := 32
  const COLON := 58

  function Lower(c: int): int {
    if 65 <= c <= 90 then c + 32 else c
  }

  predicate IsDigit(c: int) {
    48 <= c <= 57
  }

  /** Letters, digits and punctuation. */
  predicate IsMark(c: int) {
    33 <= c <= 126
  }

  /** A word matched without regard to case, one state a letter, from state `first` on. */
  function Spell(word: seq<int>, first: nat, cs: nat, c: int): Goto
    requires first <= cs < first + |word|
  {
    if Lower(c) == word[cs - first] then Goto(cs + 1, []) else FAIL
  }

  function Blank(c: int, act: Act): Goto {
    if c == SP then Goto(9, [act]) else FAIL
  }

  function MethodDelta(cs: nat, c: int): Goto {
    if cs == 1 then
      match Lower(c)
      case 99 => Goto(2, [])
      case 100 => Goto(50, [])
      case 103 => Goto(56, [])
      case 104 => Goto(59, [])
      case 111 => Goto(63, [])
      case 112 => Goto(70, [])
      case 116 => Goto(76, [])
      case _ => FAIL
    else if 2 <= cs <= 7 then Spell([111, 110, 110, 101, 99, 116], 2, cs, c)
    else if cs == 8 then Blank(c, SetMethod(CONNECT))
    else if 50 <= cs <= 54 then Spell([101, 108, 101, 116, 101], 50, cs, c)
    else if cs == 55 then Blank(c, SetMethod(DELETE))
    else if 56 <= cs <= 57 then Spell([101, 116], 56, cs, c)
    else if cs == 58 then Blank(c, SetMethod(GET))
    else if 59 <= cs <= 61 then Spell([101, 97, 100], 59, cs, c)
    else if cs == 62 then Blank(c, SetMethod(HEAD))
    else if 63 <= cs <= 68 then Spell([112, 116, 105, 111, 110, 115], 63, cs, c)
    else if cs == 69 then Blank(c, SetMethod(OPTIONS))
    else if cs == 70 then
      if Lower(c) == 111 then Goto(71, []) else if Lower(c) == 117 then Goto(74, []) else FAIL
    else if 71 <= cs <= 72 then Spell([115, 116], 71, cs, c)
    else if cs == 73 then Blank(c, SetMethod(POST))
    else if cs == 74 then Spell([116], 74, cs, c)
    else if cs == 75 then Blank(c, SetMethod(PUT))
    else if 76 <= cs <= 79 then Spell([114, 97, 99, 101], 76, cs, c)
    else if cs == 80 then Blank(c, SetMethod(TRACE))
    else FAIL
  }

  const PROTOCOL := [72, 84, 84, 80, 47, 49, 46] // "HTTP/1."

  predicate IsBlank(c: int) {
    c == SP || c == TAB
  }

  predicate InUri(cs: nat) {
    9 <= cs <= 21 || cs == 49
  }

  /** From the URI to the end of the request line: any space may be the one before the
      protocol, so the automaton looks for the protocol after every space. */
  function UriDelta(cs: nat, c: int): Goto {
    var start := if cs == 9 then [StartUri] else [];
    if c == LF && cs == 21 then Goto(22, [])
    else if c == LF && cs == 11 then FAIL
    else if c == CR then
      if cs == 20 then Goto(21, [SetVersion(V10)])
      else if cs == 49 then Goto(21, [SetVersion(V11)])
      else Goto(11, start)
    else if c == SP then Goto(12, start + [EndUri])
    else if 12 <= cs <= 18 && c == PROTOCOL[cs - 12] then Goto(cs + 1, [])
    else if cs == 19 && c == 48 then Goto(20, [])
    else if cs == 19 && c == 49 then Goto(49, [])
    else Goto(10, start)
  }

  const CONTENT_LENGTH := [99, 111, 110, 116, 101, 110, 116, 45, 108, 101, 110, 103, 116, 104] // "content-length"

  const FINAL := 27

  /** The header lines, with states counted from the one after the first line. */
  function HeadDelta(h: nat, c: int): Goto {
    if h == 0 || h == 7 then
      if c == CR then Goto(1, [])
      else if h == 7 && (c == SP || c == TAB) then Goto(8, [])
      else if Lower(c) == CONTENT_LENGTH[0] then Goto(10, [StartHead])
      else if IsMark(c) then Goto(2, [StartHead])
      else FAIL
    else if h == 1 then
      if c == LF then Goto(FINAL, [Accept]) else FAIL
    else if h == 2 || h == 3 || 10 <= h <= 24 then
      if h == 3 && c == SP then Goto(4, [])
      else if h == 24 && c == SP then Goto(25, [])
      else if c == COLON then Goto(if h == 23 then 24 else 3, [EndHead])
      else if 10 <= h <= 22 && Lower(c) == CONTENT_LENGTH[h - 9] then Goto(h + 1, [])
      else if IsMark(c) then Goto(2, [])
      else FAIL
    else if h == 4 || h == 25 then
      if c == CR then Goto(6, [StartValue, EndValue])
      else if h == 25 && IsDigit(c) then Goto(26, [StartValue, StartCl])
      else Goto(5, [StartValue])
    else if h == 26 then
      if c == CR then Goto(6, [EndValue, EndCl])
      else if IsDigit(c) then Goto(26, [])
      else Goto(5, [])
    else if h == 8 then
      if c == CR then Goto(9, []) else Goto(5, [])
    else if 5 <= h <= 9 then
      if c == CR then Goto(6, [EndValue])
      else if c == LF && h == 6 then Goto(7, [])
      else if c == LF && h == 9 then FAIL
      else Goto(5, [])
    else FAIL
  }

  function Shifted(g: Goto, base: nat, final: nat): Goto {
    if g == FAIL then FAIL else Goto(if g.to == FINAL then final else base + g.to, g.acts)
  }

  datatype Kind = Request | Response

  function Base(k: Kind): nat {
    if k == Request then 22 else 17
  }

  function Delta(k: Kind, cs: nat, c: int): Goto {
    if c < 0 || c > 127 then FAIL
    else if Base(k) <= cs <= Base(k) + 26 then
      Shifted(HeadDelta(cs - Base(k), c), Base(k), if k == Request then 81 else 45)
    else if k == Request then
      if InUri(cs) then UriDelta(cs, c) else MethodDelta(cs, c)
    else StatusDelta(cs, c)
  }

  /** The status line. */
  function StatusDelta(cs: nat, c: int): Goto {
    if 1 <= cs <= 7 then
      if c == PROTOCOL[cs - 1] then Goto(cs + 1, []) else FAIL
    else if cs == 8 then
      if c == 48 then Goto(9, []) else if c == 49 then Goto(44, []) else FAIL
    else if cs == 9 || cs == 44 then
      if c == SP then Goto(10, [SetVersion(if cs == 9 then V10 else V11)]) else FAIL
    else if 10 <= cs <= 12 then
      if IsDigit(c) then Goto(cs + 1, if cs == 10 then [StartCode] else []) else FAIL
    else if cs == 13 then
      if c == SP then Goto(14, []) else FAIL
    else if 14 <= cs <= 16 then
      var start := if cs == 14 then [StartMsg] else [];
      if c == CR then Goto(16, start + [EndMsg])
      else if c == LF && cs == 16 then Goto(17, [])
      else Goto(15, start)
    else FAIL
  }
}
