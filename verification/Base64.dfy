/** The streaming encoder of rn_buffer_b64encode in src/memory/buffer.c. */
module Base64 {
  import opened Wrappers

  type Bytes = seq<bv8>

  /** A-Z, a-z, 0-9, + and / stand for 0 to 63. */
  function Letter(x: bv8): bv8 {
    if x < 26 then x + 65 else if x < 52 then x + 71 else if x < 62 then x - 4 else if x == 62 then 43 else 47
  }

  const PAD: bv8 := 61

  // The encoding of section 4 of RFC 4648

  function Quad(a: bv8, b: bv8, c: bv8): Bytes {
    [Letter(a >> 2), Letter(((a & 3) << 4) | (b >> 4)), Letter(((b & 15) << 2) | (c >> 6)), Letter(c & 63)]
  }

  function Encode(s: Bytes): Bytes {
    if |s| == 0 then []
    else if |s| == 1 then Quad(s[0], 0, 0)[..2] + [PAD, PAD]
    else if |s| == 2 then Quad(s[0], s[1], 0)[..3] + [PAD]
    else Quad(s[0], s[1], s[2]) + Encode(s[3..])
  }

  /** The value of a character, or 64 for one that is none. */
  function Value(c: bv8): bv8 {
    if 65 <= c <= 90 then c - 65 else if 97 <= c <= 122 then c - 71 else if 48 <= c <= 57 then c + 4
    else if c == 43 then 62 else if c == 47 then 63 else 64
  }

  /** The three bytes that four characters stand for. */
  function First(c: bv8, d: bv8): bv8 {
    (Value(c) << 2) | (Value(d) >> 4)
  }

  function Second(d: bv8, e: bv8): bv8 {
    (Value(d) << 4) | (Value(e) >> 2)
  }

  function Third(e: bv8, f: bv8): bv8 {
    (Value(e) << 6) | Value(f)
  }

  function Triple(t: Bytes): Bytes
    requires |t| >= 4
  {
    [First(t[0], t[1]), Second(t[1], t[2]), Third(t[2], t[3])]
  }

  predicate IsLetter(c: bv8) {
    Value(c) != 64
  }

  /** A last group with one or two pads; the bits that stand for no byte are zero. */
  predicate LastGroup(t: Bytes) {
    && |t| == 4 && t[3] == PAD && IsLetter(t[0]) && IsLetter(t[1])
    && if t[2] == PAD then Value(t[1]) & 15 == 0 else IsLetter(t[2]) && Value(t[2]) & 3 == 0
  }

  /** The decoder, which takes nothing but encodings (see section 3.5 for the bits that are left over). */
  function Decode(t: Bytes): Option<Bytes> {
    if t == [] then Some([])
    else if LastGroup(t) then Some(if t[2] == PAD then [First(t[0], t[1])] else [First(t[0], t[1]), Second(t[1], t[2])])
    else if |t| < 4 || !IsLetter(t[0]) || !IsLetter(t[1]) || !IsLetter(t[2]) || !IsLetter(t[3]) then None
    else
      var rest := Decode(t[4..]);
      if rest.None? then None else Some(Triple(t) + rest.value)
  }

  lemma LetterValue(x: bv8)
    requires x < 64
    ensures Value(Letter(x)) == x && Letter(x) != PAD
  {
  }

  lemma ValueLetter(c: bv8)
    requires IsLetter(c)
    ensures Value(c) < 64 && Letter(Value(c)) == c && c != PAD
  {
  }

  lemma SixBits(a: bv8, b: bv8, c: bv8)
    ensures a >> 2 < 64 && ((a & 3) << 4) | (b >> 4) < 64 && ((b & 15) << 2) | (c >> 6) < 64 && c & 63 < 64
  {
  }

  lemma Regroup(a: bv8, b: bv8, c: bv8)
    ensures var w, x, y, z := a >> 2, ((a & 3) << 4) | (b >> 4), ((b & 15) << 2) | (c >> 6), c & 63;
      (w << 2) | (x >> 4) == a && (x << 4) | (y >> 2) == b && (y << 6) | z == c
  {
  }

  lemma QuadTriple(a: bv8, b: bv8, c: bv8)
    ensures Triple(Quad(a, b, c)) == [a, b, c]
    ensures forall i :: 0 <= i < 4 ==> IsLetter(Quad(a, b, c)[i]) && Quad(a, b, c)[i] != PAD
  {
    SixBits(a, b, c);
    LetterValue(a >> 2);
    LetterValue(((a & 3) << 4) | (b >> 4));
    LetterValue(((b & 15) << 2) | (c >> 6));
    LetterValue(c & 63);
    Regroup(a, b, c);
  }

  lemma LeftOver(a: bv8, b: bv8)
    ensures Value(Quad(a, 0, 0)[1]) & 15 == 0 && Value(Quad(a, b, 0)[2]) & 3 == 0
  {
    SixBits(a, b, 0);
    LetterValue(((a & 3) << 4) | (0 >> 4));
    LetterValue(((b & 15) << 2) | (0 >> 6));
  }

  lemma DecodeOne(a: bv8)
    ensures Decode(Encode([a])) == Some([a])
  {
    QuadTriple(a, 0, 0);
    LeftOver(a, 0);
    var q, t := Quad(a, 0, 0), Encode([a]);
    assert t == [q[0], q[1], PAD, PAD];
    assert First(t[0], t[1]) == Triple(q)[0] == a;
  }

  lemma DecodeTwo(a: bv8, b: bv8)
    ensures Decode(Encode([a, b])) == Some([a, b])
  {
    QuadTriple(a, b, 0);
    LeftOver(a, b);
    var q, t := Quad(a, b, 0), Encode([a, b]);
    assert t == [q[0], q[1], q[2], PAD];
    assert First(t[0], t[1]) == Triple(q)[0] == a && Second(t[1], t[2]) == Triple(q)[1] == b;
  }

  lemma DecodeStep(q: Bytes, rest: Bytes, s: Bytes)
    requires |q| == 4 && Decode(rest) == Some(s)
    requires forall i :: 0 <= i < 4 ==> IsLetter(q[i]) && q[i] != PAD
    ensures Decode(q + rest) == Some(Triple(q) + s)
  {
    var t := q + rest;
    assert t[4..] == rest && t[0] == q[0] && t[1] == q[1] && t[2] == q[2] && t[3] == q[3];
    assert Triple(t) == Triple(q);
  }

  lemma DecodeMore(a: bv8, b: bv8, c: bv8, s: Bytes)
    requires Decode(Encode(s)) == Some(s)
    ensures Decode(Encode([a, b, c] + s)) == Some([a, b, c] + s)
  {
    QuadTriple(a, b, c);
    DecodeStep(Quad(a, b, c), Encode(s), s);
    var t := [a, b, c] + s;
    assert t[3..] == s;
    assert Encode(t) == Quad(a, b, c) + Encode(s);
  }

  /** The encoding decodes to what was encoded. */
  lemma {:induction false} DecodeEncode(s: Bytes)
    ensures Decode(Encode(s)) == Some(s)
    decreases |s|
  {
    if |s| >= 3 {
      var first, rest := [s[0], s[1], s[2]], s[3..];
      DecodeEncode(rest);
      DecodeMore(s[0], s[1], s[2], rest);
      assert s == first + rest;
    } else {
      DecodeShort(s);
    }
  }

  lemma DecodeShort(s: Bytes)
    requires |s| < 3
    ensures Decode(Encode(s)) == Some(s)
  {
    if |s| == 2 {
      var a, b := s[0], s[1];
      DecodeTwo(a, b);
      Pair(s, a, b);
    } else if |s| == 1 {
      var a := s[0];
      DecodeOne(a);
      Single(s, a);
    }
  }

  lemma Single(s: Bytes, a: bv8)
    requires |s| == 1 && s[0] == a
    ensures s == [a]
  {
  }

  lemma Pair(s: Bytes, a: bv8, b: bv8)
    requires |s| == 2 && s[0] == a && s[1] == b
    ensures s == [a, b]
  {
  }

  lemma FourBits(w: bv8, x: bv8, y: bv8, z: bv8)
    requires w < 64 && x < 64 && y < 64 && z < 64
    ensures var a, b, c := (w << 2) | (x >> 4), (x << 4) | (y >> 2), (y << 6) | z;
      a >> 2 == w && ((a & 3) << 4) | (b >> 4) == x && ((b & 15) << 2) | (c >> 6) == y && c & 63 == z
  {
  }

  lemma TripleQuad(t: Bytes)
    requires |t| >= 4 && IsLetter(t[0]) && IsLetter(t[1]) && IsLetter(t[2]) && IsLetter(t[3])
    ensures var s := Triple(t); Quad(s[0], s[1], s[2]) == t[..4]
  {
    ValueLetter(t[0]);
    ValueLetter(t[1]);
    ValueLetter(t[2]);
    ValueLetter(t[3]);
    FourBits(Value(t[0]), Value(t[1]), Value(t[2]), Value(t[3]));
  }

  lemma FewBits(w: bv8, x: bv8, y: bv8)
    requires w < 64 && x < 64 && y < 64
    ensures x & 15 == 0 ==> var a := (w << 2) | (x >> 4); a >> 2 == w && ((a & 3) << 4) | (0 >> 4) == x
    ensures y & 3 == 0 ==> var a, b := (w << 2) | (x >> 4), (x << 4) | (y >> 2);
      a >> 2 == w && ((a & 3) << 4) | (b >> 4) == x && ((b & 15) << 2) | (0 >> 6) == y
  {
  }

  lemma TwoPads(c: bv8, d: bv8)
    requires IsLetter(c) && IsLetter(d) && Value(d) & 15 == 0
    ensures Encode([First(c, d)]) == [c, d, PAD, PAD]
  {
    ValueLetter(c);
    ValueLetter(d);
    FewBits(Value(c), Value(d), 0);
  }

  lemma OnePad(c: bv8, d: bv8, e: bv8)
    requires IsLetter(c) && IsLetter(d) && IsLetter(e) && Value(e) & 3 == 0
    ensures Encode([First(c, d), Second(d, e)]) == [c, d, e, PAD]
  {
    ValueLetter(c);
    ValueLetter(d);
    ValueLetter(e);
    FewBits(Value(c), Value(d), Value(e));
  }

  lemma LastGroupBack(t: Bytes)
    requires LastGroup(t)
    ensures Decode(t).Some? && Encode(Decode(t).value) == t
  {
    if t[2] == PAD {
      TwoPads(t[0], t[1]);
      assert t == [t[0], t[1], PAD, PAD];
    } else {
      OnePad(t[0], t[1], t[2]);
      assert t == [t[0], t[1], t[2], PAD];
    }
  }

  /** What decodes is the encoding of what it decodes to. */
  lemma {:induction false} EncodeDecode(t: Bytes)
    requires Decode(t).Some?
    ensures Encode(Decode(t).value) == t
    decreases |t|
  {
    if LastGroup(t) {
      LastGroupBack(t);
    } else if t != [] {
      EncodeDecode(t[4..]);
      TripleQuad(t);
      var three, rest := Triple(t), Decode(t[4..]).value;
      assert (three + rest)[3..] == rest;
      assert t == t[..4] + t[4..];
    }
  }

  lemma {:induction false} EncodeLength(s: Bytes)
    ensures |Encode(s)| == (|s| + 2) / 3 * 4
    decreases |s|
  {
    if |s| >= 3 {
      EncodeLength(s[3..]);
    }
  }

  // The encoder

  /** The characters of the encoding without the padding. */
  function Chars(s: Bytes): Bytes {
    if |s| == 0 then []
    else if |s| == 1 then Quad(s[0], 0, 0)[..2]
    else if |s| == 2 then Quad(s[0], s[1], 0)[..3]
    else Quad(s[0], s[1], s[2]) + Chars(s[3..])
  }

  /** How many characters are missing to a multiple of four. */
  function Missing(n: nat): nat {
    if n % 4 == 0 then 0 else 4 - n % 4
  }

  lemma OneLess(n: nat)
    requires n % 4 != 0
    ensures Missing(n + 1) == Missing(n) - 1
  {
  }

  function Padded(t: Bytes): Bytes
    decreases Missing(|t|)
  {
    if |t| % 4 == 0 then t else OneLess(|t|); Padded(t + [PAD])
  }

  /** The six bits that `shift` points at in the accumulator of 32 bits. */
  function Sextet(bits: bv32, shift: int): bv8 {
    if 0 < shift < 32 then (((bits << 6) >> shift) & 0x3f) as bv8 else 0
  }

  function LetterAt(bits: bv32): int -> bv8 {
    (shift: int) => Letter(Sextet(bits, shift))
  }

  predicate Goes(shift: int, last: bool) {
    shift > 6 || (last && shift > 0)
  }

  /** What the rest of one turn adds; after the last byte nothing is held back. */
  function More(letter: int -> bv8, shift: int, last: bool): Bytes
    decreases shift
  {
    if Goes(shift, last) then [letter(shift)] + More(letter, shift - 6, last) else []
  }

  function Emitted(letter: int -> bv8, shift: int, last: bool): Bytes {
    [letter(shift)] + More(letter, shift - 6, last)
  }

  /** The accumulator ends with these two bytes. */
  ghost predicate EndsWith(bits: bv32, a: bv8, b: bv8) {
    bits & 0xffff == ((a as bv32) << 8) + (b as bv32)
  }

  ghost predicate LastByte(bits: bv32, b: bv8) {
    bits & 0xff == b as bv32
  }

  function Push(bits: bv32, b: bv8): bv32 {
    (bits << 8) + (b as bv32)
  }

  lemma Pushed(bits: bv32, a: bv8, b: bv8)
    requires LastByte(bits, a)
    ensures EndsWith(Push(bits, b), a, b) && LastByte(Push(bits, b), b)
  {
  }

  lemma EmittedOne(letter: int -> bv8, shift: int, last: bool)
    requires 6 < shift <= 12
    ensures Emitted(letter, shift, last) == if last then [letter(shift), letter(shift - 6)] else [letter(shift)]
  {
    assert More(letter, shift - 12, last) == [];
    assert More(letter, shift - 6, last) == if last then [letter(shift - 6)] else [];
  }

  lemma EmitFirst(bits: bv32, z: bv8, a: bv8, last: bool)
    requires EndsWith(bits, z, a)
    ensures var q := Quad(a, 0, 0); Emitted(LetterAt(bits), 8, last) == if last then [q[0], q[1]] else [q[0]]
  {
    EmittedOne(LetterAt(bits), 8, last);
    assert Sextet(bits, 8) == a >> 2;
    assert Sextet(bits, 2) == ((a & 3) << 4) | (0 >> 4);
  }

  lemma EmitSecond(bits: bv32, a: bv8, b: bv8, last: bool)
    requires EndsWith(bits, a, b)
    ensures var q := Quad(a, b, 0); Emitted(LetterAt(bits), 10, last) == if last then [q[1], q[2]] else [q[1]]
  {
    EmittedOne(LetterAt(bits), 10, last);
    assert Sextet(bits, 10) == ((a & 3) << 4) | (b >> 4);
    assert Sextet(bits, 4) == ((b & 15) << 2) | (0 >> 6);
  }

  lemma EmitThird(bits: bv32, a: bv8, b: bv8, c: bv8, last: bool)
    requires EndsWith(bits, b, c)
    ensures var q := Quad(a, b, c); Emitted(LetterAt(bits), 12, last) == if last then [q[2], q[3]] else [q[2]]
  {
    EmittedOne(LetterAt(bits), 12, last);
    ThirdSextets(bits, b, c);
  }

  lemma ThirdSextets(bits: bv32, b: bv8, c: bv8)
    requires EndsWith(bits, b, c)
    ensures Sextet(bits, 12) == ((b & 15) << 2) | (c >> 6)
    ensures Sextet(bits, 6) == c & 63
  {
  }

  lemma EmitFourth(bits: bv32, a: bv8, b: bv8, c: bv8, d: bv8, last: bool)
    requires EndsWith(bits, c, d)
    ensures Emitted(LetterAt(bits), 14, last) == [Quad(a, b, c)[3]] + Emitted(LetterAt(bits), 8, last)
  {
    assert Sextet(bits, 14) == c & 63;
  }

  lemma {:induction false} CharsChain(t: Bytes, u: Bytes)
    requires |t| % 3 == 0
    ensures Chars(t + u) == Chars(t) + Chars(u)
    decreases |t|
  {
    if t == [] {
      assert t + u == u;
    } else {
      assert (t + u)[3..] == t[3..] + u;
      CharsChain(t[3..], u);
    }
  }

  /** All characters of `s`, or all but the last, which is held back. */
  function Out(s: Bytes, last: bool): Bytes {
    if last || s == [] then Chars(s) else Chars(s)[..|Chars(s)| - 1]
  }

  /** A byte more in a group that is not full. */
  lemma MoreOut(u: Bytes, b: bv8, bits: bv32, last: bool)
    requires 1 <= |u| <= 2 && LastByte(bits, u[|u| - 1])
    ensures Out(u + [b], last) == Out(u, false) + Emitted(LetterAt(Push(bits, b)), 2 * |u| + 8, last)
  {
    Pushed(bits, u[|u| - 1], b);
    if |u| == 1 {
      SecondOut(u[0], b, bits, last);
      assert u == [u[0]] && u + [b] == [u[0], b];
    } else {
      ThirdOut(u[0], u[1], b, bits, last);
      assert u == [u[0], u[1]] && u + [b] == [u[0], u[1], b];
    }
  }

  lemma SecondOut(a: bv8, b: bv8, bits: bv32, last: bool)
    requires LastByte(bits, a)
    ensures Out([a, b], last) == Out([a], false) + Emitted(LetterAt(Push(bits, b)), 10, last)
  {
    Pushed(bits, a, b);
    EmitSecond(Push(bits, b), a, b, last);
    var p, q := Quad(a, 0, 0), Quad(a, b, 0);
    assert Out([a], false) == [p[0]] && p[0] == q[0];
    assert Out([a, b], last) == if last then [q[0], q[1], q[2]] else [q[0], q[1]];
  }

  lemma ThirdOut(a: bv8, b: bv8, c: bv8, bits: bv32, last: bool)
    requires LastByte(bits, b)
    ensures Out([a, b, c], last) == Out([a, b], false) + Emitted(LetterAt(Push(bits, c)), 12, last)
  {
    Pushed(bits, b, c);
    EmitThird(Push(bits, c), a, b, c, last);
    var v, p, q := [a, b, c], Quad(a, b, 0), Quad(a, b, c);
    assert v[3..] == [] && Chars(v) == q;
    assert Out([a, b], false) == [p[0], p[1]] && p[0] == q[0] && p[1] == q[1];
  }

  /** A byte more after a full group: what was held back comes first. */
  lemma NewOut(u: Bytes, b: bv8, bits: bv32, last: bool)
    requires |u| == 3 && LastByte(bits, u[2])
    ensures Chars(u) + Out([b], last) == Out(u, false) + Emitted(LetterAt(Push(bits, b)), 14, last)
  {
    FourthOut(u[0], u[1], u[2], b, bits, last);
    assert u == [u[0], u[1], u[2]];
  }

  lemma FourthOut(x: bv8, y: bv8, z: bv8, b: bv8, bits: bv32, last: bool)
    requires LastByte(bits, z)
    ensures Chars([x, y, z]) + Out([b], last) == Out([x, y, z], false) + Emitted(LetterAt(Push(bits, b)), 14, last)
  {
    Pushed(bits, z, b);
    EmitFourth(Push(bits, b), x, y, z, b, last);
    EmitFirst(Push(bits, b), z, b, last);
    var q, e := Quad(x, y, z), Emitted(LetterAt(Push(bits, b)), 8, last);
    assert [x, y, z][3..] == [] && Chars([x, y, z]) == q;
    assert Out([b], last) == e;
    assert q == q[..3] + [q[3]];
    Glue(q[..3], [q[3]], [q[3]] + e, e);
  }

  lemma FirstOut(b: bv8, last: bool)
    ensures Out([b], last) == Emitted(LetterAt(Push(0, b)), 8, last)
  {
    Pushed(0, 0, b);
    EmitFirst(Push(0, b), 0, b, last);
  }

  /** The shift after `n` bytes, none of them the last. */
  function ShiftAfter(n: nat): int {
    if n == 0 then 0 else 2 * ((n - 1) % 3 + 1)
  }

  lemma OutChain(t: Bytes, u: Bytes, last: bool)
    requires |t| % 3 == 0 && u != []
    ensures Out(t + u, last) == Chars(t) + Out(u, last)
  {
    CharsChain(t, u);
    CharsSome(u);
    ButLast(Chars(t), Chars(u));
  }

  lemma ButLast(a: Bytes, b: Bytes)
    requires b != []
    ensures (a + b)[..|a + b| - 1] == a + b[..|b| - 1]
  {
  }

  lemma CharsSome(u: Bytes)
    requires u != []
    ensures Chars(u) != []
  {
  }

  lemma Glue(c: Bytes, x: Bytes, y: Bytes, e: Bytes)
    requires y == x + e
    ensures c + y == c + x + e
  {
  }

  lemma StepMore(t: Bytes, u: Bytes, b: bv8, bits: bv32, last: bool)
    requires |t| % 3 == 0 && 1 <= |u| <= 2 && LastByte(bits, u[|u| - 1])
    ensures Out(t + u + [b], last) == Out(t + u, false) + Emitted(LetterAt(Push(bits, b)), 2 * |u| + 8, last)
  {
    MoreOut(u, b, bits, last);
    OutChain(t, u, false);
    OutChain(t, u + [b], last);
    assert t + u + [b] == t + (u + [b]);
    Glue(Chars(t), Out(u, false), Out(u + [b], last), Emitted(LetterAt(Push(bits, b)), 2 * |u| + 8, last));
  }

  lemma StepNew(t: Bytes, u: Bytes, b: bv8, bits: bv32, last: bool)
    requires |t| % 3 == 0 && |u| == 3 && LastByte(bits, u[2])
    ensures Out(t + u + [b], last) == Out(t + u, false) + Emitted(LetterAt(Push(bits, b)), 14, last)
  {
    NewOut(u, b, bits, last);
    CharsChain(t, u);
    OutChain(t, u, false);
    OutChain(t + u, [b], last);
    Glue(Chars(t), Chars(u), Chars(u) + Out([b], last), Out([b], last));
    Glue(Chars(t), Out(u, false), Chars(u) + Out([b], last), Emitted(LetterAt(Push(bits, b)), 14, last));
  }

  /** One byte more: what the turn adds is what the characters gain. */
  lemma StepOut(s: Bytes, b: bv8, bits: bv32, last: bool)
    requires if s == [] then bits == 0 else LastByte(bits, s[|s| - 1])
    ensures Out(s + [b], last) == Out(s, false) + Emitted(LetterAt(Push(bits, b)), ShiftAfter(|s|) + 8, last)
  {
    if s == [] {
      FirstOut(b, last);
      assert s + [b] == [b];
    } else {
      var r := (|s| - 1) % 3 + 1;
      var t, u := s[..|s| - r], s[|s| - r..];
      assert s == t + u && u[|u| - 1] == s[|s| - 1];
      if r < 3 {
        StepMore(t, u, b, bits, last);
      } else {
        StepNew(t, u, b, bits, last);
      }
    }
  }

  /** Where the shift ends up. */
  function Left(shift: int, last: bool): int
    decreases shift
  {
    if Goes(shift, last) then Left(shift - 6, last) else shift
  }

  lemma ShiftGoesOn(n: nat)
    ensures Left(ShiftAfter(n) + 2, false) == ShiftAfter(n + 1)
  {
  }

  /** One turn of the byte loop. */
  method Emit(dst: Bytes, letter: int -> bv8, shift0: int, last: bool) returns (out: Bytes, shift: int)
    ensures out == dst + Emitted(letter, shift0, last)
    ensures shift == Left(shift0 - 6, last)
  {
    out, shift := dst + [letter(shift0)], shift0 - 6;
    while Goes(shift, last)
      invariant Left(shift, last) == Left(shift0 - 6, last)
      invariant dst + Emitted(letter, shift0, last) == out + More(letter, shift, last)
      decreases shift
    {
      out := out + [letter(shift)];
      shift := shift - 6;
    }
  }

  lemma Turn(dst: Bytes, src: Bytes, i: nat, bits: bv32, out: Bytes)
    requires i < |src| && out == dst + Out(src[..i], false)
    requires if i == 0 then bits == 0 else LastByte(bits, src[i - 1])
    ensures var b, last := src[i], i + 1 == |src|;
      && out + Emitted(LetterAt(Push(bits, b)), ShiftAfter(i) + 8, last) == dst + Out(src[..i + 1], last)
      && LastByte(Push(bits, b), b)
  {
    var s, b, last := src[..i], src[i], i + 1 == |src|;
    StepOut(s, b, bits, last);
    assert src[..i + 1] == s + [b];
    Pushed(bits, if i == 0 then 0 else src[i - 1], b);
    Glue(dst, Out(s, false), Out(s + [b], last), Emitted(LetterAt(Push(bits, b)), ShiftAfter(i) + 8, last));
  }

  /** The byte loop. */
  method PutAll(dst: Bytes, src: Bytes) returns (out: Bytes)
    ensures out == dst + Chars(src)
  {
    var bits: bv32 := 0;
    var shift, i := 0, 0;
    out := dst;
    while i < |src|
      invariant 0 <= i <= |src| && out == dst + Out(src[..i], i == |src|)
      invariant i < |src| ==> shift == ShiftAfter(i)
      invariant if i == 0 then bits == 0 else LastByte(bits, src[i - 1])
    {
      var b, last := src[i], i == |src| - 1;
      Turn(dst, src, i, bits, out);
      ShiftGoesOn(i);
      bits := Push(bits, b);
      out, shift := Emit(out, LetterAt(bits), shift + 8, last);
      i := i + 1;
    }
    assert src[..i] == src;
  }

  method Pad(dst: Bytes) returns (out: Bytes)
    ensures out == Padded(dst)
  {
    out := dst;
    while |out| % 4 != 0
      invariant Padded(out) == Padded(dst)
      decreases Missing(|out|)
    {
      OneLess(|out|);
      out := out + [PAD];
    }
  }

  /** rn_buffer_b64encode, adding to what the buffer holds. */
  method Stream(dst: Bytes, src: Bytes) returns (out: Bytes)
    ensures out == Padded(dst + Chars(src))
  {
    out := PutAll(dst, src);
    out := Pad(out);
  }

  lemma SameRest(d: nat, t: nat)
    requires d % 4 == 0
    ensures (d + t) % 4 == t % 4
  {
  }

  lemma {:induction false} PaddedAfter(d: Bytes, t: Bytes)
    requires |d| % 4 == 0
    ensures Padded(d + t) == d + Padded(t)
    decreases Missing(|t|)
  {
    SameRest(|d|, |t|);
    if |t| % 4 != 0 {
      OneLess(|t|);
      PaddedAfter(d, t + [PAD]);
      assert d + t + [PAD] == d + (t + [PAD]);
    }
  }

  lemma {:induction false} PaddedLength(t: Bytes)
    ensures |Padded(t)| % 4 == 0
    decreases Missing(|t|)
  {
    if |t| % 4 != 0 {
      OneLess(|t|);
      PaddedLength(t + [PAD]);
    }
  }

  /** Into an empty buffer the encoder writes the standard encoding. */
  lemma {:induction false} StreamIsEncode(s: Bytes)
    ensures Padded(Chars(s)) == Encode(s)
    decreases |s|
  {
    if |s| >= 3 {
      StreamIsEncode(s[3..]);
      PaddedAfter(Quad(s[0], s[1], s[2]), Chars(s[3..]));
    } else if |s| == 2 {
      assert Padded(Chars(s) + [PAD]) == Chars(s) + [PAD];
    } else if |s| == 1 {
      var c := Chars(s);
      assert Padded(c + [PAD] + [PAD]) == c + [PAD] + [PAD] == c + [PAD, PAD];
    }
  }

  lemma PaddedApart(d: Bytes, t: Bytes, e: Bytes)
    requires Padded(t) == e
    ensures Padded(d + t) == d + e <==> |d| % 4 == 0
  {
    if |d| % 4 == 0 {
      PaddedAfter(d, t);
    } else {
      PaddedLength(t);
      PaddedLength(d + t);
      assert |d + e| == |d| + |e|;
    }
  }

  /** After other characters it does so exactly if their number is a multiple of four. */
  lemma StreamAfter(d: Bytes, s: Bytes)
    ensures Padded(d + Chars(s)) == d + Encode(s) <==> |d| % 4 == 0
  {
    StreamIsEncode(s);
    PaddedApart(d, Chars(s), Encode(s));
  }
}
