/**
  Domain names on the wire (section 3.1 of RFC 1035), with pointers in place of tails that
  have occurred before (section 4.1.4): what a packet spells at a position, whatever reads it.
 */
module DnsName {
  import opened Wrappers

  type Byte = b: int | 0 <= b < 256

  type Packet = seq<Byte>

  const DOT: Byte := 46

  /** The two top bits of a length byte say that it starts a pointer. */
  predicate IsPointer(b: Byte) {
    b >= 192
  }

  /** The 14 bits after them, as an offset into the packet. */
  function Offset(hi: Byte, lo: Byte): nat
    requires IsPointer(hi)
  {
    (hi - 192) * 256 + lo
  }

  /** The reading of the name at `pos` ends after at most `n` pointers. */
  ghost predicate EndsIn(buf: Packet, pos: nat, n: nat)
    decreases n, |buf| - pos
  {
    pos >= |buf| || buf[pos] == 0 ||
    if IsPointer(buf[pos]) then
      pos + 2 > |buf| ||
      var target := Offset(buf[pos], buf[pos + 1]);
      target > |buf| || (n > 0 && EndsIn(buf, target, n - 1))
    else
      pos + 1 + buf[pos] > |buf| || EndsIn(buf, pos + 1 + buf[pos], n)
  }

  ghost predicate Ends(buf: Packet, pos: nat) {
    exists n: nat :: EndsIn(buf, pos, n)
  }

  lemma {:induction false} EndsInMore(buf: Packet, pos: nat, n: nat, m: nat)
    requires EndsIn(buf, pos, n) && n <= m
    ensures EndsIn(buf, pos, m)
    decreases n, |buf| - pos
  {
    if pos >= |buf| || buf[pos] == 0 {
    } else if IsPointer(buf[pos]) {
      if pos + 2 <= |buf| && Offset(buf[pos], buf[pos + 1]) <= |buf| {
        EndsInMore(buf, Offset(buf[pos], buf[pos + 1]), n - 1, m - 1);
      }
    } else if pos + 1 + buf[pos] <= |buf| {
      EndsInMore(buf, pos + 1 + buf[pos], n, m);
    }
  }

  ghost predicate EndsFirst(buf: Packet, pos: nat, n: nat) {
    EndsIn(buf, pos, n) && forall m: nat :: EndsIn(buf, pos, m) ==> n <= m
  }

  /** The number of pointers that are followed. */
  ghost function Hops(buf: Packet, pos: nat): (n: nat)
    requires Ends(buf, pos)
    ensures EndsFirst(buf, pos, n)
  {
    LeastHops(buf, pos);
    var n: nat :| EndsFirst(buf, pos, n);
    n
  }

  lemma LeastHops(buf: Packet, pos: nat)
    requires Ends(buf, pos)
    ensures exists n: nat :: EndsFirst(buf, pos, n)
  {
    var n: nat :| EndsIn(buf, pos, n);
    while n > 0 && EndsIn(buf, pos, n - 1)
      invariant EndsIn(buf, pos, n)
    {
      n := n - 1;
    }
    forall m: nat | EndsIn(buf, pos, m)
      ensures n <= m
    {
      if m < n {
        EndsInMore(buf, pos, m, n - 1);
      }
    }
    assert EndsFirst(buf, pos, n);
  }

  /** What is read next, if a label or a pointer is: it ends too, with fewer pointers after a pointer. */
  lemma EndsNext(buf: Packet, pos: nat)
    requires pos < |buf| && buf[pos] != 0 && Ends(buf, pos)
    ensures IsPointer(buf[pos]) && pos + 2 <= |buf| ==> var target := Offset(buf[pos], buf[pos + 1]);
      target <= |buf| ==> Ends(buf, target) && Hops(buf, target) < Hops(buf, pos)
    ensures !IsPointer(buf[pos]) && pos + 1 + buf[pos] <= |buf| ==>
      var next := pos + 1 + buf[pos]; Ends(buf, next) && Hops(buf, next) <= Hops(buf, pos)
  {
    var n := Hops(buf, pos);
    if IsPointer(buf[pos]) {
      if pos + 2 <= |buf| && Offset(buf[pos], buf[pos + 1]) <= |buf| {
        assert EndsIn(buf, Offset(buf[pos], buf[pos + 1]), n - 1);
      }
    } else if pos + 1 + buf[pos] <= |buf| {
      assert EndsIn(buf, pos + 1 + buf[pos], n);
    }
  }

  /** The labels that the name at `pos` spells, its pointers expanded, up to where it ends or goes
      wrong, and whether it ends well; the end of the packet ends a name. */
  ghost function Walk(buf: Packet, pos: nat): (r: (seq<Packet>, bool))
    requires Ends(buf, pos)
    ensures forall i :: 0 <= i < |r.0| ==> r.0[i] != []
    decreases Hops(buf, pos), |buf| - pos
  {
    if pos >= |buf| || buf[pos] == 0 then ([], true) else
    EndsNext(buf, pos);
    if IsPointer(buf[pos]) then
      if pos + 2 > |buf| || Offset(buf[pos], buf[pos + 1]) > |buf| then ([], false)
      else Walk(buf, Offset(buf[pos], buf[pos + 1]))
    else if pos + 1 + buf[pos] > |buf| then ([], false)
    else
      var (rest, ok) := Walk(buf, pos + 1 + buf[pos]);
      ([buf[pos + 1..pos + 1 + buf[pos]]] + rest, ok)
  }

  /** The labels of a name that ends well. */
  ghost function Labels(buf: Packet, pos: nat): Option<seq<Packet>>
    requires Ends(buf, pos)
  {
    if Walk(buf, pos).1 then Some(Walk(buf, pos).0) else None
  }

  // Which names end

  /** In the segment that starts at `start`, from `pos` on, every pointer that is followed goes to a
      place strictly before the start of the segment it stands in. */
  ghost predicate Backward(buf: Packet, start: nat, pos: nat)
    decreases start, |buf| - pos
  {
    pos >= |buf| || buf[pos] == 0 ||
    if IsPointer(buf[pos]) then
      pos + 2 > |buf| ||
      var target := Offset(buf[pos], buf[pos + 1]);
      target > |buf| || (target < start && Backward(buf, target, target))
    else
      pos + 1 + buf[pos] > |buf| || Backward(buf, start, pos + 1 + buf[pos])
  }

  lemma {:induction false} BackwardEndsIn(buf: Packet, start: nat, pos: nat)
    requires Backward(buf, start, pos)
    ensures EndsIn(buf, pos, start)
    decreases start, |buf| - pos
  {
    if pos >= |buf| || buf[pos] == 0 {
    } else if IsPointer(buf[pos]) {
      if pos + 2 <= |buf| && Offset(buf[pos], buf[pos + 1]) <= |buf| {
        var target := Offset(buf[pos], buf[pos + 1]);
        BackwardEndsIn(buf, target, target);
        EndsInMore(buf, target, target, start - 1);
      }
    } else if pos + 1 + buf[pos] <= |buf| {
      BackwardEndsIn(buf, start, pos + 1 + buf[pos]);
    }
  }

  /** A name whose pointers all go back ends. */
  lemma BackwardEnds(buf: Packet, pos: nat)
    requires Backward(buf, pos, pos)
    ensures Ends(buf, pos)
  {
    BackwardEndsIn(buf, pos, pos);
  }

  /** The places that pointers lead to, one after the other. */
  lemma {:induction false} Targets(buf: Packet, pos: nat) returns (s: set<nat>)
    requires Ends(buf, pos)
    ensures |s| == Hops(buf, pos)
    ensures forall p :: p in s ==> p <= |buf| && Ends(buf, p) && Hops(buf, p) < Hops(buf, pos)
    decreases Hops(buf, pos), |buf| - pos
  {
    var n := Hops(buf, pos);
    s := {};
    if pos >= |buf| || buf[pos] == 0 {
      assert EndsIn(buf, pos, 0);
    } else {
      EndsNext(buf, pos);
      if IsPointer(buf[pos]) {
        if pos + 2 <= |buf| && Offset(buf[pos], buf[pos + 1]) <= |buf| {
          var target := Offset(buf[pos], buf[pos + 1]);
          var rest := Targets(buf, target);
          s := rest + {target};
          assert EndsIn(buf, pos, Hops(buf, target) + 1);
        } else {
          assert EndsIn(buf, pos, 0);
        }
      } else if pos + 1 + buf[pos] <= |buf| {
        var next := pos + 1 + buf[pos];
        s := Targets(buf, next);
        assert EndsIn(buf, pos, Hops(buf, next));
      } else {
        assert EndsIn(buf, pos, 0);
      }
    }
  }

  lemma {:induction false} BelowCount(s: set<nat>, n: nat)
    requires forall p :: p in s ==> p < n
    ensures |s| <= n
  {
    if n > 0 {
      BelowCount(s - {n - 1}, n - 1);
    } else {
      assert s == {};
    }
  }

  /** Whether a name ends shows after as many pointers as there are places to point to. */
  lemma EndsSoon(buf: Packet, pos: nat)
    ensures Ends(buf, pos) <==> EndsIn(buf, pos, |buf| + 1)
  {
    if Ends(buf, pos) {
      var s := Targets(buf, pos);
      BelowCount(s, |buf| + 1);
      EndsInMore(buf, pos, Hops(buf, pos), |buf| + 1);
    }
  }

  /** A pointer into the labels before it, or to itself, is followed for ever. */
  lemma CircleNeverEnds(buf: Packet, pos: nat, at: nat)
    requires Leads(buf, pos, at) && at + 2 <= |buf| && IsPointer(buf[at]) && Offset(buf[at], buf[at + 1]) == pos
    ensures !Ends(buf, pos)
  {
    forall n: nat
      ensures !EndsIn(buf, pos, n)
    {
      CircleGoesOn(buf, pos, at, n);
    }
  }

  /** Labels lead from `pos` to `at`. */
  ghost predicate Leads(buf: Packet, pos: nat, at: nat)
    decreases |buf| - pos
  {
    pos == at ||
    (pos < |buf| && buf[pos] != 0 && !IsPointer(buf[pos]) && pos + 1 + buf[pos] <= |buf| && Leads(buf, pos + 1 + buf[pos], at))
  }

  lemma {:induction false} CircleGoesOn(buf: Packet, pos: nat, at: nat, n: nat)
    requires Leads(buf, pos, at) && at + 2 <= |buf| && IsPointer(buf[at]) && Offset(buf[at], buf[at + 1]) == pos
    ensures !EndsIn(buf, pos, n)
    decreases n
  {
    if EndsIn(buf, pos, n) {
      LeadsOn(buf, pos, at, n);
      CircleGoesOn(buf, pos, at, n - 1);
    }
  }

  lemma {:induction false} LeadsOn(buf: Packet, pos: nat, at: nat, n: nat)
    requires Leads(buf, pos, at) && at < |buf| && EndsIn(buf, pos, n)
    ensures EndsIn(buf, at, n)
    decreases |buf| - pos
  {
    if pos != at {
      LeadsOn(buf, pos + 1 + buf[pos], at, n);
    }
  }

  /** The place after the first zero byte or pointer. */
  function NameEnd(buf: Packet, pos: nat): nat
    decreases |buf| - pos
  {
    if pos >= |buf| then pos
    else if buf[pos] == 0 then pos + 1
    else if IsPointer(buf[pos]) then pos + 2
    else NameEnd(buf, pos + 1 + buf[pos])
  }

  /** Labels with dots between them. */
  function Dotted(labels: seq<Packet>): Packet {
    if labels == [] then []
    else if |labels| == 1 then labels[0]
    else labels[0] + [DOT] + Dotted(labels[1..])
  }

  function Terminated(s: Packet): Packet {
    if s == [] || s[|s| - 1] != 0 then s + [0] else s
  }

  // Adding to a buffer of limited size

  /** rn_buffer_add on a buffer that cannot grow: all or nothing. */
  function Append(t: Packet, room: nat, s: Packet): Packet {
    if |s| + |t| > room then t else t + s
  }

  function AddLabel(t: Packet, room: nat, one: Packet): Packet {
    Append(if |t| > 0 then Append(t, room, [DOT]) else t, room, one)
  }

  function AddLabels(t: Packet, room: nat, labels: seq<Packet>): Packet
    decreases |labels|
  {
    if labels == [] then t else AddLabels(AddLabel(t, room, labels[0]), room, labels[1..])
  }

  function AddNull(t: Packet, room: nat): Packet {
    if t == [] || t[|t| - 1] != 0 then Append(t, room, [0]) else t
  }

  lemma {:induction false} AddLabelsChains(t: Packet, room: nat, a: seq<Packet>, b: seq<Packet>)
    ensures AddLabels(AddLabels(t, room, a), room, b) == AddLabels(t, room, a + b)
    decreases |a|
  {
    if a == [] {
      assert a + b == b;
    } else {
      assert (a + b)[1..] == a[1..] + b;
      AddLabelsChains(AddLabel(t, room, a[0]), room, a[1..], b);
    }
  }

  /** A name that has no empty label and fits with its NUL is written as its labels with dots between. */
  lemma {:induction false} AddLabelsFit(t: Packet, room: nat, labels: seq<Packet>)
    requires t != [] && |t + [DOT] + Dotted(labels)| <= room && forall i :: 0 <= i < |labels| ==> labels[i] != []
    ensures AddLabels(t, room, labels) == if labels == [] then t else t + [DOT] + Dotted(labels)
    decreases |labels|
  {
    if labels != [] {
      var t1 := t + [DOT] + labels[0];
      if |labels| > 1 {
        assert t1 + [DOT] + Dotted(labels[1..]) == t + [DOT] + Dotted(labels);
        AddLabelsFit(t1, room, labels[1..]);
      } else {
        assert labels[1..] == [];
      }
    }
  }

  lemma NameFits(room: nat, labels: seq<Packet>)
    requires |Dotted(labels)| < room && forall i :: 0 <= i < |labels| ==> labels[i] != []
    ensures AddNull(AddLabels([], room, labels), room) == Terminated(Dotted(labels))
  {
    if labels != [] {
      assert AddLabel([], room, labels[0]) == labels[0];
      if |labels| > 1 {
        AddLabelsFit(labels[0], room, labels[1..]);
      } else {
        assert labels[1..] == [];
      }
    }
  }

  /** Text and labels only ever grow. */
  lemma {:induction false} AddLabelsGrows(t: Packet, room: nat, labels: seq<Packet>)
    ensures |t| <= |AddLabels(t, room, labels)| && (|t| <= room ==> |AddLabels(t, room, labels)| <= room)
    decreases |labels|
  {
    if labels != [] {
      AddLabelsGrows(AddLabel(t, room, labels[0]), room, labels[1..]);
    }
  }

  /** What does not pass `less` does not depend on there being more room. */
  lemma {:induction false} AddLabelsSame(t: Packet, less: nat, room: nat, labels: seq<Packet>)
    requires less <= room && |AddLabels(t, room, labels)| <= less
    ensures AddLabels(t, less, labels) == AddLabels(t, room, labels)
    decreases |labels|
  {
    if labels != [] {
      var t1 := AddLabel(t, room, labels[0]);
      AddLabelsGrows(t1, room, labels[1..]);
      assert AddLabel(t, less, labels[0]) == t1;
      AddLabelsSame(t1, less, room, labels[1..]);
    }
  }

  /** How long the text gets; only the lengths matter. */
  function Grown(n: nat, room: nat, labels: seq<Packet>): nat
    decreases |labels|
  {
    if labels == [] then n else
    var dot := if 0 < n < room then n + 1 else n;
    Grown(if dot + |labels[0]| <= room then dot + |labels[0]| else dot, room, labels[1..])
  }

  lemma {:induction false} AddLabelsLength(t: Packet, room: nat, labels: seq<Packet>)
    ensures |AddLabels(t, room, labels)| == Grown(|t|, room, labels)
    decreases |labels|
  {
    if labels != [] {
      AddLabelsLength(AddLabel(t, room, labels[0]), room, labels[1..]);
    }
  }

  /** A name that reads well ends inside the packet. */
  lemma {:induction false} NameEndInside(buf: Packet, pos: nat)
    requires pos <= |buf| && Ends(buf, pos) && Walk(buf, pos).1
    ensures pos <= NameEnd(buf, pos) <= |buf|
    decreases |buf| - pos
  {
    if pos < |buf| && buf[pos] != 0 && !IsPointer(buf[pos]) {
      EndsNext(buf, pos);
      NameEndInside(buf, pos + 1 + buf[pos]);
    }
  }
}

/** The readers of src/proto/dns/dns_parse.c. */
module DnsParse {
  import opened Wrappers
  import opened DnsName

  /** rn_buffer_iterator_t: a bounded cursor over a packet. */
  class Cursor {
    const packet: Packet
    var offset: nat

    ghost predicate Valid()
      reads this
    {
      offset <= |packet|
    }

    constructor (packet: Packet, offset: nat)
      ensures this.packet == packet && this.offset == offset
    {
      this.packet, this.offset := packet, offset;
    }

    /** rn_buffer_iterator_position_inc */
    method Skip(n: nat) returns (ok: bool)
      requires Valid()
      modifies this
      ensures Valid() && ok == (old(offset) + n <= |packet|)
      ensures offset == if ok then old(offset) + n else old(offset)
    {
      ok := offset + n <= |packet|;
      if ok {
        offset := offset + n;
      }
    }

    /** The getters of two and four bytes, in network order. */
    method Short() returns (ok: bool, v: nat)
      requires Valid()
      modifies this
      ensures Valid() && ok == (old(offset) + 2 <= |packet|)
      ensures offset == if ok then old(offset) + 2 else old(offset)
      ensures ok ==> v == U16(packet, old(offset))
    {
      v := 0;
      ok := offset + 2 <= |packet|;
      if ok {
        v := U16(packet, offset);
        offset := offset + 2;
      }
    }

    method Word() returns (ok: bool, v: nat)
      requires Valid()
      modifies this
      ensures Valid() && ok == (old(offset) + 4 <= |packet|)
      ensures offset == if ok then old(offset) + 4 else old(offset)
      ensures ok ==> v == U32(packet, old(offset))
    {
      v := 0;
      ok := offset + 4 <= |packet|;
      if ok {
        v := U32(packet, offset);
        offset := offset + 4;
      }
    }
  }

  function U16(buf: Packet, p: nat): nat
    requires p + 2 <= |buf|
  {
    var hi: int := buf[p];
    hi * 256 + buf[p + 1]
  }

  function U32(buf: Packet, p: nat): nat
    requires p + 4 <= |buf|
  {
    U16(buf, p) * 65536 + U16(buf, p + 2)
  }

  /** A buffer over an array of `size` bytes that has been told to use `room` of them. Once it has
      written past the array it is `broken`, and nothing is known of it or of what it is used for. */
  class Buffer {
    const size: nat
    const room: nat
    var text: Packet
    var broken: bool

    constructor (size: nat, room: nat)
      ensures this.size == size && this.room == room && text == [] && !broken
    {
      this.size, this.room, text, broken := size, room, [], false;
    }

    /** rn_buffer_add */
    method Add(s: Packet) returns (ok: bool)
      requires !broken && |text| <= size
      modifies this
      ensures broken <==> |Append(old(text), room, s)| > size
      ensures !broken ==> text == Append(old(text), room, s) && ok == (|s| + |old(text)| <= room)
    {
      ok := |s| + |text| <= room;
      if ok {
        broken := |text| + |s| > size;
        text := text + s;
      }
    }

    /** rn_buffer_addnull */
    method AddZero()
      requires !broken && |text| <= size
      modifies this
      ensures broken <==> |AddNull(old(text), room)| > size
      ensures !broken ==> text == AddNull(old(text), room)
    {
      if text == [] || text[|text| - 1] != 0 {
        var _ := Add([0]);
      }
    }
  }

  /** What rn_dns_name_get leaves in the name buffer after these labels, if the name ends well. */
  function Stored(t: Packet, room: nat, labels: seq<Packet>, ok: bool): Packet {
    var u := AddLabels(t, room, labels);
    if ok then AddNull(u, room) else u
  }

  lemma StoredGrows(t: Packet, room: nat, a: seq<Packet>, b: seq<Packet>, ok: bool)
    ensures |AddLabels(t, room, a)| <= |Stored(t, room, a + b, ok)|
    ensures |t| <= room ==> |Stored(t, room, a + b, ok)| <= room
  {
    AddLabelsChains(t, room, a, b);
    AddLabelsGrows(AddLabels(t, room, a), room, b);
    AddLabelsGrows(t, room, a + b);
  }

  lemma StoredChains(t: Packet, room: nat, a: seq<Packet>, b: seq<Packet>, ok: bool)
    ensures Stored(AddLabels(t, room, a), room, b, ok) == Stored(t, room, a + b, ok)
  {
    AddLabelsChains(t, room, a, b);
  }

  /** The reading of the name at `start` has come to `pos`, past the labels `done`. */
  ghost predicate Reading(buf: Packet, start: nat, pos: nat, done: seq<Packet>) {
    && start <= pos <= |buf| && Ends(buf, start) && Ends(buf, pos) && Hops(buf, pos) <= Hops(buf, start)
    && NameEnd(buf, start) == NameEnd(buf, pos)
    && Walk(buf, start) == (done + Walk(buf, pos).0, Walk(buf, pos).1)
  }

  lemma StartReading(buf: Packet, start: nat)
    requires start <= |buf| && Ends(buf, start)
    ensures Reading(buf, start, start, [])
  {
    assert [] + Walk(buf, start).0 == Walk(buf, start).0;
  }

  lemma ReadLabel(buf: Packet, start: nat, pos: nat, done: seq<Packet>)
    requires Reading(buf, start, pos, done) && pos < |buf| && 0 < buf[pos] && !IsPointer(buf[pos])
    ensures pos + 1 + buf[pos] > |buf| ==> Walk(buf, start) == (done, false)
    ensures pos + 1 + buf[pos] <= |buf| ==>
      Reading(buf, start, pos + 1 + buf[pos], done + [buf[pos + 1..pos + 1 + buf[pos]]])
  {
    EndsNext(buf, pos);
    var next := pos + 1 + buf[pos];
    if next <= |buf| {
      var one, rest := buf[pos + 1..next], Walk(buf, next).0;
      assert done + ([one] + rest) == done + [one] + rest;
    } else {
      assert done + [] == done;
    }
  }

  lemma ReadEnd(buf: Packet, start: nat, pos: nat, done: seq<Packet>)
    requires Reading(buf, start, pos, done) && (pos == |buf| || buf[pos] == 0)
    ensures Walk(buf, start) == (done, true)
    ensures NameEnd(buf, start) == if pos == |buf| then pos else pos + 1
  {
    assert done + [] == done;
  }

  lemma ReadPointer(buf: Packet, start: nat, pos: nat, done: seq<Packet>)
    requires Reading(buf, start, pos, done) && pos < |buf| && IsPointer(buf[pos])
    ensures NameEnd(buf, start) == pos + 2
    ensures pos + 2 > |buf| ==> Walk(buf, start) == (done, false)
    ensures pos + 2 <= |buf| ==> var target := U16(buf, pos) % 0x4000;
      && (target > |buf| ==> Walk(buf, start) == (done, false))
      && (target <= |buf| ==> Ends(buf, target) && Hops(buf, target) < Hops(buf, start))
      && (target <= |buf| ==> Walk(buf, start) == (done + Walk(buf, target).0, Walk(buf, target).1))
  {
    EndsNext(buf, pos);
    if pos + 2 <= |buf| {
      assert U16(buf, pos) % 0x4000 == Offset(buf[pos], buf[pos + 1]);
    }
    assert done + [] == done;
  }

  method AddOne(name: Buffer, one: Packet, ghost t: Packet, ghost done: seq<Packet>)
    requires !name.broken && |name.text| <= name.size && name.text == AddLabels(t, name.room, done)
    modifies name
    ensures name.broken <==> |AddLabels(t, name.room, done + [one])| > name.size
    ensures !name.broken ==> name.text == AddLabels(t, name.room, done + [one])
  {
    AddLabelsChains(t, name.room, done, [one]);
    assert [one][1..] == [];
    assert AddLabels(name.text, name.room, [one]) == AddLabel(name.text, name.room, one);
    if |name.text| > 0 {
      var _ := name.Add([DOT]);
    }
    if !name.broken {
      var _ := name.Add(one);
    }
  }

  /** What the reading of the name at `start` comes to, for a buffer that held `t`. */
  ghost predicate NameRead(
    buf: Packet, start: nat, t: Packet, room: nat, size: nat, broken: bool, ok: bool, offset: nat, text: Packet)
    requires Ends(buf, start)
  {
    var (labels, good) := Walk(buf, start);
    var stored := Stored(t, room, labels, good);
    && (broken <==> |stored| > size)
    && (!broken ==> offset <= |buf| && ok == good && text == stored)
    && (!broken && ok ==> offset == NameEnd(buf, start))
  }

  lemma ReadAll(buf: Packet, start: nat, pos: nat, done: seq<Packet>, t: Packet, room: nat, size: nat, broken: bool, text: Packet)
    requires Reading(buf, start, pos, done) && (pos == |buf| || buf[pos] == 0)
    requires var u := AddNull(AddLabels(t, room, done), room); (broken <==> |u| > size) && (!broken ==> text == u)
    ensures NameRead(buf, start, t, room, size, broken, true, if pos == |buf| then pos else pos + 1, text)
  {
    ReadEnd(buf, start, pos, done);
  }

  lemma ReadTail(
    buf: Packet, start: nat, pos: nat, done: seq<Packet>, t: Packet, room: nat, size: nat,
    broken: bool, ok: bool, offset: nat, text: Packet)
    requires Reading(buf, start, pos, done) && pos + 2 <= |buf| && IsPointer(buf[pos]) && U16(buf, pos) % 0x4000 <= |buf|
    requires Ends(buf, U16(buf, pos) % 0x4000)
    requires NameRead(buf, U16(buf, pos) % 0x4000, AddLabels(t, room, done), room, size, broken, ok, offset, text)
    ensures NameRead(buf, start, t, room, size, broken, ok, pos + 2, text)
  {
    var target := U16(buf, pos) % 0x4000;
    ReadPointer(buf, start, pos, done);
    StoredChains(t, room, done, Walk(buf, target).0, Walk(buf, target).1);
  }

  lemma ReadTooMuch(
    buf: Packet, start: nat, pos: nat, done: seq<Packet>, t: Packet, room: nat, size: nat, ok: bool, offset: nat, text: Packet)
    requires Reading(buf, start, pos, done) && |AddLabels(t, room, done)| > size
    ensures NameRead(buf, start, t, room, size, true, ok, offset, text)
  {
    StoredGrows(t, room, done, Walk(buf, pos).0, Walk(buf, start).1);
  }

  /** One label of the name at `start`, with the dot before it. */
  method GetLabel(it: Cursor, name: Buffer, ghost start: nat, ghost t: Packet, ghost done: seq<Packet>)
    returns (ok: bool, ghost more: seq<Packet>)
    requires it.offset < |it.packet| && 0 < it.packet[it.offset] && !IsPointer(it.packet[it.offset])
    requires Reading(it.packet, start, it.offset, done)
    requires !name.broken && |name.text| <= name.size && name.text == AddLabels(t, name.room, done)
    modifies it, name
    ensures !ok || name.broken ==>
      NameRead(it.packet, start, t, name.room, name.size, name.broken, ok, it.offset, name.text)
    ensures ok && !name.broken ==>
      && Reading(it.packet, start, it.offset, more) && old(it.offset) < it.offset
      && |name.text| <= name.size && name.text == AddLabels(t, name.room, more)
  {
    more := done;
    ReadLabel(it.packet, start, it.offset, done);
    var size := it.packet[it.offset];
    var _ := it.Skip(1);
    ok := it.Skip(size);
    if ok {
      var one := it.packet[it.offset - size..it.offset];
      AddOne(name, one, t, done);
      more := done + [one];
      if name.broken {
        ReadTooMuch(it.packet, start, it.offset, more, t, name.room, name.size, ok, it.offset, name.text);
      }
    }
  }

  /** rn_dns_name_get on a name that ends; on any other it does not. */
  method GetName(it: Cursor, name: Buffer) returns (ok: bool)
    requires it.Valid() && Ends(it.packet, it.offset) && !name.broken && |name.text| <= name.size
    modifies it, name
    ensures NameRead(it.packet, old(it.offset), old(name.text), name.room, name.size, name.broken, ok, it.offset, name.text)
    decreases Hops(it.packet, it.offset)
  {
    ghost var t, start, done := name.text, it.offset, [];
    StartReading(it.packet, start);
    while it.offset < |it.packet|
      invariant Reading(it.packet, start, it.offset, done)
      invariant !name.broken && |name.text| <= name.size && name.text == AddLabels(t, name.room, done)
      decreases |it.packet| - it.offset
    {
      var size := it.packet[it.offset];
      ghost var pos := it.offset;
      if size == 0 {
        var _ := it.Skip(1);
        name.AddZero();
        ReadAll(it.packet, start, pos, done, t, name.room, name.size, name.broken, name.text);
        return true;
      } else if IsPointer(size) {
        ReadPointer(it.packet, start, pos, done);
        var v;
        ok, v := it.Short();
        if !ok || v % 0x4000 > |it.packet| {
          return false;
        }
        var tail := new Cursor(it.packet, v % 0x4000);
        ok := GetName(tail, name);
        ReadTail(it.packet, start, pos, done, t, name.room, name.size, name.broken, ok, tail.offset, name.text);
        return;
      } else {
        ok, done := GetLabel(it, name, start, t, done);
        if !ok || name.broken {
          return;
        }
      }
    }
    ghost var pos := it.offset;
    name.AddZero();
    ReadAll(it.packet, start, pos, done, t, name.room, name.size, name.broken, name.text);
    ok := true;
  }

  // Records

  datatype Rdata =
    | A(address: Packet) | Ns(nsname: Packet) | Cname(cname: Packet)
    | Soa(mname: Packet, rname: Packet, serial: nat, refresh: nat, retry: nat, expire: nat, minimum: nat)
    | Ptr(ptrname: Packet) | Hinfo(cpu: Packet, os: Packet) | Mx(preference: nat, exchange: Packet)
    | Txt(txtdata: Packet) | Aaaa

  datatype Record = Record(name: Packet, kind: nat, aclass: nat, ttl: nat, rdlength: nat, rdata: Rdata)

  const NAME_SIZE := 256
  const PTR_ROOM := NAME_SIZE + 32 // the size of the structure around the array

  predicate OneName(kind: nat) {
    kind == 2 || kind == 5 || kind == 12 || kind == 16
  }

  predicate TwoNames(kind: nat) {
    kind == 6 || kind == 13
  }

  /** The names in the data of a record of this kind end. */
  ghost predicate Followable(buf: Packet, p: nat, kind: nat) {
    && (OneName(kind) || TwoNames(kind) ==> Ends(buf, p))
    && (TwoNames(kind) && EndOfName(buf, p).Some? ==> Ends(buf, EndOfName(buf, p).value))
    && (kind == 15 ==> Ends(buf, p + 2))
  }

  ghost function EndOfName(buf: Packet, p: nat): Option<nat> {
    if Ends(buf, p) && Walk(buf, p).1 then Some(NameEnd(buf, p)) else None
  }

  function Plus(buf: Packet, p: Option<nat>, n: nat): Option<nat> {
    if p.Some? && p.value + n <= |buf| then Some(p.value + n) else None
  }

  /** Where the data of a record of this kind that starts at `p` ends, if it is well formed. */
  ghost function RdataEnd(buf: Packet, p: nat, kind: nat): Option<nat> {
    if kind == 1 then Plus(buf, Some(p), 4)
    else if OneName(kind) then EndOfName(buf, p)
    else if TwoNames(kind) then
      var q := EndOfName(buf, p);
      var r := if q.Some? then EndOfName(buf, q.value) else None;
      if kind == 6 then Plus(buf, r, 20) else r
    else if kind == 15 then
      var q := Plus(buf, Some(p), 2);
      if q.Some? then EndOfName(buf, q.value) else None
    else if kind == 28 then Plus(buf, Some(p), 16)
    else None
  }

  /** The name at `p` as it is stored with this much room. */
  ghost function NameAt(buf: Packet, p: nat, room: nat): Packet {
    if Ends(buf, p) then Stored([], room, Walk(buf, p).0, Walk(buf, p).1) else []
  }

  /** The name in a PTR record stays inside the array for it, although the code says it is larger. */
  ghost predicate Within(buf: Packet, p: nat, kind: nat) {
    kind == 12 ==> |NameAt(buf, p, PTR_ROOM)| <= NAME_SIZE
  }

  /** It does exactly if it is stored as if the code had said the size of the array. */
  lemma WithinMeans(buf: Packet, p: nat)
    requires Ends(buf, p)
    ensures Within(buf, p, 12) <==> NameAt(buf, p, PTR_ROOM) == NameAt(buf, p, NAME_SIZE)
  {
    var (labels, ok) := Walk(buf, p);
    StoredGrows([], PTR_ROOM, labels, [], ok);
    StoredGrows([], NAME_SIZE, labels, [], ok);
    assert labels + [] == labels;
    if Within(buf, p, 12) {
      AddLabelsSame([], NAME_SIZE, PTR_ROOM, labels);
    }
  }

  /** The lengths of the labels tell it, but for the NUL, which is not added after another one. */
  lemma WithinByLength(buf: Packet, p: nat)
    requires Ends(buf, p)
    ensures var (labels, good) := Walk(buf, p); var n, text := Grown(0, PTR_ROOM, labels), AddLabels([], PTR_ROOM, labels);
      && |text| == n
      && (Within(buf, p, 12) <==> n < NAME_SIZE || (n == NAME_SIZE && (good ==> text[n - 1] == 0)))
  {
    AddLabelsLength([], PTR_ROOM, Walk(buf, p).0);
  }

  /** A name that fits what the code says stays inside exactly if it fits the array. */
  lemma WithinByName(buf: Packet, p: nat)
    requires Ends(buf, p) && Walk(buf, p).1 && |Dotted(Walk(buf, p).0)| < PTR_ROOM
    ensures Within(buf, p, 12) <==> |Terminated(Dotted(Walk(buf, p).0))| <= NAME_SIZE
  {
    NameFits(PTR_ROOM, Walk(buf, p).0);
  }

  method FreshName(it: Cursor, room: nat) returns (ok: bool, text: Packet, broken: bool)
    requires it.Valid() && Ends(it.packet, it.offset)
    modifies it
    ensures broken <==> |NameAt(it.packet, old(it.offset), room)| > NAME_SIZE
    ensures !broken ==>
      && it.Valid() && (ok <==> EndOfName(it.packet, old(it.offset)).Some?)
      && (ok ==> it.offset == EndOfName(it.packet, old(it.offset)).value)
      && text == NameAt(it.packet, old(it.offset), room)
    ensures room <= NAME_SIZE ==> !broken
  {
    var name := new Buffer(NAME_SIZE, room);
    StoredGrows([], room, Walk(it.packet, it.offset).0, [], Walk(it.packet, it.offset).1);
    assert Walk(it.packet, it.offset).0 + [] == Walk(it.packet, it.offset).0;
    ok := GetName(it, name);
    text, broken := name.text, name.broken;
  }

  /** `r` is what the data of a record of this kind at `p` says. */
  ghost predicate DataAt(buf: Packet, p: nat, kind: nat, r: Rdata) {
    match r
    case A(address) => kind == 1 && p + 4 <= |buf| && address == buf[p..p + 4]
    case Ns(name) => kind == 2 && name == NameAt(buf, p, NAME_SIZE)
    case Cname(name) => kind == 5 && name == NameAt(buf, p, NAME_SIZE)
    case Soa(mname, rname, serial, refresh, retry, expire, minimum) =>
      kind == 6 && PairAt(buf, p, mname, rname) &&
      var q := EndOfName(buf, EndOfName(buf, p).value).value;
      && q + 20 <= |buf|
      && serial == U32(buf, q) && refresh == U32(buf, q + 4) && retry == U32(buf, q + 8)
      && expire == U32(buf, q + 12) && minimum == U32(buf, q + 16)
    case Ptr(name) => kind == 12 && name == NameAt(buf, p, NAME_SIZE)
    case Hinfo(cpu, os) => kind == 13 && PairAt(buf, p, cpu, os)
    case Mx(preference, exchange) =>
      kind == 15 && p + 2 <= |buf| && preference == U16(buf, p) && exchange == NameAt(buf, p + 2, NAME_SIZE)
    case Txt(name) => kind == 16 && name == NameAt(buf, p, NAME_SIZE)
    case Aaaa => kind == 28
  }

  /** Two names, one after the other. */
  ghost predicate PairAt(buf: Packet, p: nat, first: Packet, second: Packet) {
    && EndOfName(buf, p).Some? && first == NameAt(buf, p, NAME_SIZE)
    && var q := EndOfName(buf, p).value;
       EndOfName(buf, q).Some? && second == NameAt(buf, q, NAME_SIZE)
  }

  method GetPair(it: Cursor) returns (ok: bool, first: Packet, second: Packet)
    requires it.Valid() && Followable(it.packet, it.offset, 13)
    modifies it
    ensures it.Valid() && (ok <==> RdataEnd(it.packet, old(it.offset), 13).Some?)
    ensures ok ==> it.offset == RdataEnd(it.packet, old(it.offset), 13).value
    ensures ok ==> PairAt(it.packet, old(it.offset), first, second)
  {
    var broken;
    second := [];
    ok, first, broken := FreshName(it, NAME_SIZE);
    if ok {
      ok, second, broken := FreshName(it, NAME_SIZE);
    }
  }

  method GetWords(it: Cursor, n: nat) returns (ok: bool, words: seq<nat>)
    requires it.Valid()
    modifies it
    ensures it.Valid() && (ok <==> old(it.offset) + 4 * n <= |it.packet|)
    ensures ok ==> it.offset == old(it.offset) + 4 * n && |words| == n
    ensures ok ==> forall i :: 0 <= i < n ==> words[i] == U32(it.packet, old(it.offset) + 4 * i)
  {
    words := [];
    ok := true;
    while |words| < n
      invariant it.Valid() && |words| <= n && it.offset == old(it.offset) + 4 * |words|
      invariant forall i :: 0 <= i < |words| ==> words[i] == U32(it.packet, old(it.offset) + 4 * i)
    {
      var v;
      ok, v := it.Word();
      if !ok {
        return;
      }
      words := words + [v];
    }
  }

  method GetSoa(it: Cursor) returns (ok: bool, r: Rdata)
    requires it.Valid() && Followable(it.packet, it.offset, 6)
    modifies it
    ensures it.Valid() && (ok <==> RdataEnd(it.packet, old(it.offset), 6).Some?)
    ensures ok ==> it.offset == RdataEnd(it.packet, old(it.offset), 6).value
    ensures ok ==> DataAt(it.packet, old(it.offset), 6, r)
  {
    r := Aaaa;
    var mname, rname, words;
    ok, mname, rname := GetPair(it);
    if ok {
      ok, words := GetWords(it, 5);
      if ok {
        r := Soa(mname, rname, words[0], words[1], words[2], words[3], words[4]);
      }
    }
  }

  /** A record data that holds one name. */
  method GetNamed(it: Cursor, kind: nat) returns (ok: bool, r: Rdata)
    requires it.Valid() && OneName(kind) && Ends(it.packet, it.offset)
    modifies it
    ensures Within(it.packet, old(it.offset), kind) ==>
      && it.Valid() && (ok <==> RdataEnd(it.packet, old(it.offset), kind).Some?)
      && (ok ==> it.offset == RdataEnd(it.packet, old(it.offset), kind).value)
      && (ok ==> DataAt(it.packet, old(it.offset), kind, r))
  {
    var name, broken;
    WithinMeans(it.packet, it.offset);
    ok, name, broken := FreshName(it, if kind == 12 then PTR_ROOM else NAME_SIZE);
    r := if kind == 2 then Ns(name) else if kind == 5 then Cname(name) else if kind == 12 then Ptr(name) else Txt(name);
  }

  method GetData(it: Cursor, kind: nat) returns (ok: bool, r: Rdata)
    requires it.Valid() && Followable(it.packet, it.offset, kind)
    modifies it
    ensures Within(it.packet, old(it.offset), kind) ==>
      && it.Valid() && (ok <==> RdataEnd(it.packet, old(it.offset), kind).Some?)
      && (ok ==> it.offset == RdataEnd(it.packet, old(it.offset), kind).value)
      && (ok ==> DataAt(it.packet, old(it.offset), kind, r))
  {
    ok, r := false, Aaaa;
    if kind == 1 {
      ghost var p := it.offset;
      ok := it.Skip(4);
      if ok {
        r := A(it.packet[it.offset - 4..it.offset]);
      }
    } else if OneName(kind) {
      ok, r := GetNamed(it, kind);
    } else if kind == 6 {
      ok, r := GetSoa(it);
    } else if kind == 13 {
      var cpu, os;
      ok, cpu, os := GetPair(it);
      r := Hinfo(cpu, os);
    } else if kind == 15 {
      var preference, exchange, broken;
      ok, preference := it.Short();
      if ok {
        ok, exchange, broken := FreshName(it, NAME_SIZE);
        r := Mx(preference, exchange);
      }
    } else if kind == 28 {
      ok := it.Skip(16);
    }
  }

  /** What the reading of the data at `p` comes to: it must take the length the record gives. */
  ghost predicate RdataRead(buf: Packet, p: nat, rdlength: nat, kind: nat, ok: bool, offset: nat, r: Rdata) {
    && offset <= |buf| && (ok <==> RdataEnd(buf, p, kind) == Some(p + rdlength))
    && (ok ==> offset == p + rdlength && DataAt(buf, p, kind, r))
  }

  /** rn_dns_rdata_get */
  method GetRdata(it: Cursor, rdlength: nat, kind: nat) returns (ok: bool, r: Rdata)
    requires it.Valid() && Followable(it.packet, it.offset, kind)
    modifies it
    ensures Within(it.packet, old(it.offset), kind) ==>
      RdataRead(it.packet, old(it.offset), rdlength, kind, ok, it.offset, r)
  {
    var position := it.offset;
    ok, r := GetData(it, kind);
    if ok && it.offset - position != rdlength {
      return false, r;
    }
  }

  /** There is a name at `p` and room for the fixed fields after it. */
  ghost predicate FixedAt(buf: Packet, p: nat) {
    EndOfName(buf, p).Some? && EndOfName(buf, p).value + 10 <= |buf|
  }

  /** Where the fixed fields are. */
  ghost function Fixed(buf: Packet, p: nat): (q: nat)
    requires FixedAt(buf, p)
    ensures q + 10 <= |buf|
  {
    NameEnd(buf, p)
  }

  ghost predicate FieldsAt(buf: Packet, q: nat, r: Record) {
    && q + 10 <= |buf|
    && r.kind == U16(buf, q) && r.aclass == U16(buf, q + 2) && r.ttl == U32(buf, q + 4) && r.rdlength == U16(buf, q + 8)
  }

  method GetFixed(it: Cursor) returns (ok: bool, r: Record)
    requires it.Valid()
    modifies it
    ensures it.Valid() && (ok <==> old(it.offset) + 10 <= |it.packet|)
    ensures ok ==> it.offset == old(it.offset) + 10 && FieldsAt(it.packet, old(it.offset), r)
  {
    var kind, aclass, ttl, rdlength;
    r := Record([], 0, 0, 0, 0, Aaaa);
    ok, kind := it.Short();
    if !ok {
      return;
    }
    ok, aclass := it.Short();
    if !ok {
      return;
    }
    ok, ttl := it.Word();
    if !ok {
      return;
    }
    ok, rdlength := it.Short();
    r := Record([], kind, aclass, ttl, rdlength, Aaaa);
  }

  /** The names in the record at `p` end. */
  ghost predicate RecordFollowable(buf: Packet, p: nat) {
    Ends(buf, p) && (FixedAt(buf, p) ==> var q := Fixed(buf, p); Followable(buf, q + 10, U16(buf, q)))
  }

  /** If it is a PTR record, its name stays inside the array for it. */
  ghost predicate RecordWithin(buf: Packet, p: nat) {
    FixedAt(buf, p) ==> var q := Fixed(buf, p); Within(buf, q + 10, U16(buf, q))
  }

  /** Where the record at `p` ends, if it is well formed: it takes its name, ten bytes and as many as
      the last two of these say. */
  ghost function RecordEnd(buf: Packet, p: nat): Option<nat> {
    if !FixedAt(buf, p) then None else
    var q := Fixed(buf, p);
    var e := q + 10 + U16(buf, q + 8);
    if RdataEnd(buf, q + 10, U16(buf, q)) == Some(e) then Some(e) else None
  }

  ghost predicate RecordAt(buf: Packet, p: nat, r: Record) {
    && FixedAt(buf, p) && FieldsAt(buf, Fixed(buf, p), r)
    && r.name == NameAt(buf, p, NAME_SIZE) && DataAt(buf, Fixed(buf, p) + 10, r.kind, r.rdata)
  }

  /** What the reading of the record at `p` comes to. */
  ghost predicate RecordRead(buf: Packet, p: nat, ok: bool, offset: nat, r: Record) {
    && offset <= |buf| && (ok <==> RecordEnd(buf, p).Some?)
    && (ok ==> RecordEnd(buf, p) == Some(offset) && RecordAt(buf, p, r))
  }

  lemma RecordIsRead(buf: Packet, p: nat, name: Packet, fields: Record, ok: bool, offset: nat, rdata: Rdata)
    requires FixedAt(buf, p) && FieldsAt(buf, Fixed(buf, p), fields) && name == NameAt(buf, p, NAME_SIZE)
    requires RdataRead(buf, Fixed(buf, p) + 10, fields.rdlength, fields.kind, ok, offset, rdata)
    ensures RecordRead(buf, p, ok, offset, fields.(name := name, rdata := rdata))
  {
  }

  /** rn_dns_record_get */
  method GetRecord(it: Cursor) returns (ok: bool, r: Record)
    requires it.Valid() && RecordFollowable(it.packet, it.offset)
    modifies it
    ensures RecordWithin(it.packet, old(it.offset)) ==> RecordRead(it.packet, old(it.offset), ok, it.offset, r)
  {
    ghost var p := it.offset;
    var name, rdata, broken;
    r := Record([], 0, 0, 0, 0, Aaaa);
    ok, name, broken := FreshName(it, NAME_SIZE);
    if ok {
      ok, r := GetFixed(it);
    }
    if ok {
      ghost var fields := r;
      ok, rdata := GetRdata(it, r.rdlength, r.kind);
      r := r.(name := name, rdata := rdata);
      if RecordWithin(it.packet, p) {
        RecordIsRead(it.packet, p, name, fields, ok, it.offset, rdata);
      }
    }
  }

  /** The question at `p`: a name, its type and its class. */
  ghost predicate QuestionAt(buf: Packet, p: nat) {
    EndOfName(buf, p).Some? && EndOfName(buf, p).value + 4 <= |buf|
  }

  /** rn_dns_query_get */
  method GetQuestion(it: Cursor) returns (ok: bool, name: Packet, kind: nat, qclass: nat)
    requires it.Valid() && Ends(it.packet, it.offset)
    modifies it
    ensures it.Valid() && (ok <==> QuestionAt(it.packet, old(it.offset)))
    ensures ok ==> var q := NameEnd(it.packet, old(it.offset));
      && it.offset == q + 4 && name == NameAt(it.packet, old(it.offset), NAME_SIZE)
      && kind == U16(it.packet, q) && qclass == U16(it.packet, q + 2)
  {
    var broken;
    kind, qclass := 0, 0;
    ok, name, broken := FreshName(it, NAME_SIZE);
    if ok {
      ok, kind := it.Short();
    }
    if ok {
      ok, qclass := it.Short();
    }
  }
}

/** The name encoder of rn_dns_query in src/proto/dns/dns.c. */
module DnsQuery {
  import opened Wrappers
  import opened DnsName
  import opened DnsParse

  /** strchrnul: the place of the first dot from `i` on, or the end. */
  function Dot(host: Packet, i: nat): (e: nat)
    requires i <= |host|
    ensures i <= e <= |host| && (e < |host| ==> host[e] == DOT) && forall k :: i <= k < e ==> host[k] != DOT
    decreases |host| - i
  {
    if i == |host| || host[i] == DOT then i else Dot(host, i + 1)
  }

  /** The labels from `i` on: what stands between dots. */
  function Split(host: Packet, i: nat): seq<Packet>
    decreases |host| - i
  {
    if i >= |host| then [] else [host[i..Dot(host, i)]] + Split(host, Dot(host, i) + 1)
  }

  predicate LabelsFit(labels: seq<Packet>) {
    forall i :: 0 <= i < |labels| ==> |labels[i]| <= 127
  }

  lemma FitOneMore(one: Packet, rest: seq<Packet>)
    ensures LabelsFit([one] + rest) <==> |one| <= 127 && LabelsFit(rest)
  {
    var all := [one] + rest;
    assert all[0] == one;
    if LabelsFit(all) {
      forall i | 0 <= i < |rest|
        ensures |rest[i]| <= 127
      {
        assert all[i + 1] == rest[i];
      }
    }
  }

  lemma SplitStep(host: Packet, i: nat)
    requires i < |host|
    ensures var one, rest := host[i..Dot(host, i)], Split(host, Dot(host, i) + 1);
      && Split(host, i) == [one] + rest && Split(host, i)[0] == one && Split(host, i)[1..] == rest
      && (LabelsFit(Split(host, i)) <==> |one| <= 127 && LabelsFit(rest))
  {
    FitOneMore(host[i..Dot(host, i)], Split(host, Dot(host, i) + 1));
  }

  /** Labels as they go on the wire: each after its length, then a zero byte. */
  function Wire(labels: seq<Packet>): Packet
    requires LabelsFit(labels)
  {
    if labels == [] then [0] else [|labels[0]|] + labels[0] + Wire(labels[1..])
  }

  /** The labels before the first empty one. */
  function Kept(labels: seq<Packet>): seq<Packet> {
    if labels == [] || labels[0] == [] then [] else [labels[0]] + Kept(labels[1..])
  }

  lemma KeptStep(one: Packet, rest: seq<Packet>)
    ensures Kept([one] + rest) == if one == [] then [] else [one] + Kept(rest)
    ensures one != [] && Kept(rest) == [] ==> Dotted(Kept([one] + rest)) == one
    ensures one != [] && Kept(rest) != [] ==> Dotted(Kept([one] + rest)) == one + [DOT] + Dotted(Kept(rest))
  {
    assert ([one] + rest)[1..] == rest && ([one] + Kept(rest))[1..] == Kept(rest);
  }

  /** From `i` on, no dot at either end and no two in a row. */
  predicate CleanFrom(host: Packet, i: nat) {
    && (i < |host| ==> host[i] != DOT && host[|host| - 1] != DOT)
    && forall k :: i < k < |host| ==> host[k - 1] != DOT || host[k] != DOT
  }

  predicate Clean(host: Packet) {
    CleanFrom(host, 0)
  }

  lemma LabelEnds(buf: Packet, pos: nat, one: Packet)
    requires 1 <= |one| <= 127 && At(buf, pos, [|one|] + one) && EndsIn(buf, pos + 1 + |one|, 0)
    ensures EndsIn(buf, pos, 0)
    ensures Walk(buf, pos) == ([one] + Walk(buf, pos + 1 + |one|).0, Walk(buf, pos + 1 + |one|).1)
    ensures NameEnd(buf, pos) == NameEnd(buf, pos + 1 + |one|)
  {
    AtSplit(buf, pos, [|one|], one);
    AtIndex(buf, pos, [|one|], 0);
  }

  lemma KeptRest(labels: seq<Packet>)
    requires labels != [] && labels[0] != []
    ensures Kept(labels) == [labels[0]] + Kept(labels[1..])
    ensures Kept(labels) == labels <==> Kept(labels[1..]) == labels[1..]
  {
    assert labels == [labels[0]] + labels[1..];
    assert Kept(labels)[1..] == Kept(labels[1..]);
  }

  lemma WireSplit(buf: Packet, pos: nat, labels: seq<Packet>)
    requires LabelsFit(labels) && labels != [] && At(buf, pos, Wire(labels))
    ensures var one, rest := labels[0], labels[1..];
      && At(buf, pos, [|one|] + one) && At(buf, pos + 1 + |one|, Wire(rest))
      && |Wire(labels)| == 1 + |one| + |Wire(rest)|
  {
    AtSplit(buf, pos, [|labels[0]|] + labels[0], Wire(labels[1..]));
  }

  /** What the wire form of some labels reads as: those before the first empty one. */
  lemma {:induction false} WireReads(buf: Packet, pos: nat, labels: seq<Packet>)
    requires LabelsFit(labels) && At(buf, pos, Wire(labels))
    ensures EndsIn(buf, pos, 0) && Walk(buf, pos) == (Kept(labels), true)
    ensures NameEnd(buf, pos) <= pos + |Wire(labels)|
    ensures Kept(labels) == labels ==> NameEnd(buf, pos) == pos + |Wire(labels)|
    decreases |labels|
  {
    if labels != [] && labels[0] != [] {
      var one, rest := labels[0], labels[1..];
      WireSplit(buf, pos, labels);
      WireReads(buf, pos + 1 + |one|, rest);
      LabelEnds(buf, pos, one);
      KeptRest(labels);
    } else {
      AtIndex(buf, pos, Wire(labels), 0);
    }
  }

  lemma KeptNone(host: Packet, i: nat)
    requires i <= |host|
    ensures Kept(Split(host, i)) == [] <==> i == |host| || host[i] == DOT
  {
    if i < |host| {
      SplitStep(host, i);
      KeptStep(host[i..Dot(host, i)], Split(host, Dot(host, i) + 1));
    }
  }

  lemma CleanStep(host: Packet, i: nat)
    requires i < |host| && host[i] != DOT
    ensures var e := Dot(host, i);
      CleanFrom(host, i) <==> e == |host| || (e + 1 < |host| && host[e + 1] != DOT && CleanFrom(host, e + 1))
  {
    var e := Dot(host, i);
    if e + 1 < |host| && host[e + 1] != DOT && CleanFrom(host, e + 1) {
      forall k | i < k < |host|
        ensures host[k - 1] != DOT || host[k] != DOT
      {
        assert k < e ==> host[k] != DOT;
      }
    }
  }

  lemma SameTail(a: Packet, b: Packet, c: Packet)
    ensures a + [DOT] + b == a + [DOT] + c <==> b == c
  {
    var n := |a| + 1;
    assert (a + [DOT] + b)[n..] == b && (a + [DOT] + c)[n..] == c;
  }

  /** A label, the dot after it, and what comes back of the labels after that. */
  lemma LabelComesBack(host: Packet, i: nat, e: nat, kept: seq<Packet>)
    requires i < |host| && host[i] != DOT && e == Dot(host, i) < |host| && kept == Kept(Split(host, e + 1))
    ensures Dotted(Kept(Split(host, i))) == host[i..] <==> kept != [] && Dotted(kept) == host[e + 1..]
  {
    var one := host[i..e];
    SplitStep(host, i);
    KeptStep(one, Split(host, e + 1));
    assert host[i..] == one + [DOT] + host[e + 1..];
    SameTail(one, Dotted(kept), host[e + 1..]);
  }

  lemma LastComesBack(host: Packet, i: nat)
    requires i < |host| && host[i] != DOT && Dot(host, i) == |host|
    ensures Dotted(Kept(Split(host, i))) == host[i..]
  {
    SplitStep(host, i);
    KeptStep(host[i..], []);
  }

  /** What comes back of the host from `i` on is all of it. */
  ghost predicate ComesBack(host: Packet, i: nat)
    requires i <= |host|
  {
    Dotted(Kept(Split(host, i))) == host[i..]
  }

  lemma ComesBackStep(host: Packet, i: nat)
    requires i < |host|
    ensures host[i] == DOT ==> !ComesBack(host, i)
    ensures host[i] != DOT ==> var e := Dot(host, i);
      ComesBack(host, i) <==> e == |host| || (e + 1 < |host| && host[e + 1] != DOT && ComesBack(host, e + 1))
  {
    var e := Dot(host, i);
    KeptNone(host, i);
    if host[i] != DOT {
      if e < |host| {
        KeptNone(host, e + 1);
        LabelComesBack(host, i, e, Kept(Split(host, e + 1)));
      } else {
        LastComesBack(host, i);
      }
    }
  }

  /** The host comes back if and only if it has no empty label and no dot at its end. */
  lemma {:induction false} CleanComesBack(host: Packet, i: nat)
    requires i <= |host|
    ensures ComesBack(host, i) <==> CleanFrom(host, i)
    decreases |host| - i
  {
    if i < |host| {
      ComesBackStep(host, i);
      if host[i] != DOT {
        CleanStep(host, i);
        if Dot(host, i) < |host| {
          CleanComesBack(host, Dot(host, i) + 1);
        }
      }
    }
  }

  // The encoder

  /** Additions to a buffer one after the other, each all or nothing. */
  function AppendAll(t: Packet, room: nat, pieces: seq<Packet>): Packet
    decreases |pieces|
  {
    if pieces == [] then t else AppendAll(Append(t, room, pieces[0]), room, pieces[1..])
  }

  /** What the loop adds: a length and a label, for each label, then a zero. */
  function Pieces(labels: seq<Packet>): seq<Packet>
    requires LabelsFit(labels)
  {
    if labels == [] then [[0]] else [[|labels[0]|], labels[0]] + Pieces(labels[1..])
  }

  lemma {:induction false} PiecesAreWire(t: Packet, room: nat, labels: seq<Packet>)
    requires LabelsFit(labels) && |t + Wire(labels)| <= room
    ensures AppendAll(t, room, Pieces(labels)) == t + Wire(labels)
    decreases |labels|
  {
    if labels == [] {
      assert [[0]][1..] == [];
    } else {
      var n, p := |labels[0]|, Pieces(labels);
      assert p[1..][0] == labels[0] && p[1..][1..] == Pieces(labels[1..]);
      var t1, t2 := t + [n], t + [n] + labels[0];
      assert t2 + Wire(labels[1..]) == t + Wire(labels);
      assert AppendAll(t, room, p) == AppendAll(t1, room, p[1..]);
      PiecesAreWire(t2, room, labels[1..]);
    }
  }

  /** What one turn of the loop leaves to be added. */
  lemma PiecesStep(t: Packet, room: nat, host: Packet, i: nat)
    requires i < |host| && LabelsFit(Split(host, i))
    ensures var e := Dot(host, i);
      && e - i <= 127 && LabelsFit(Split(host, e + 1)) && (e == |host| ==> Split(host, e) == Split(host, e + 1) == [])
      && AppendAll(t, room, Pieces(Split(host, i))) ==
           AppendAll(Append(Append(t, room, [e - i]), room, host[i..e]), room, Pieces(Split(host, e + 1)))
  {
    var e := Dot(host, i);
    SplitStep(host, i);
    AppendTwo(t, room, [e - i], host[i..e], Pieces(Split(host, e + 1)));
  }

  lemma AppendTwo(t: Packet, room: nat, a: Packet, b: Packet, more: seq<Packet>)
    ensures AppendAll(t, room, [a, b] + more) == AppendAll(Append(Append(t, room, a), room, b), room, more)
  {
    var p := [a, b] + more;
    assert p[1..][0] == b && p[1..][1..] == more;
    assert AppendAll(t, room, p) == AppendAll(Append(t, room, a), room, p[1..]);
  }

  /** One label with its length. */
  method PutLabel(buffer: Buffer, one: Packet)
    requires |one| <= 127 && !buffer.broken && |buffer.text| <= buffer.room == buffer.size
    modifies buffer
    ensures !buffer.broken && |buffer.text| <= buffer.room
    ensures buffer.text == Append(Append(old(buffer.text), buffer.room, [|one|]), buffer.room, one)
  {
    var _ := buffer.Add([|one|]);
    var _ := buffer.Add(one);
  }

  /** The loop of rn_dns_query, for the hosts on which it ends (see `LoopEnds`). */
  method PutName(buffer: Buffer, host: Packet)
    requires LabelsFit(Split(host, 0)) && !buffer.broken && |buffer.text| <= buffer.room == buffer.size
    modifies buffer
    ensures !buffer.broken && |buffer.text| <= buffer.room
    ensures buffer.text == AppendAll(old(buffer.text), buffer.room, Pieces(Split(host, 0)))
  {
    ghost var goal := AppendAll(buffer.text, buffer.room, Pieces(Split(host, 0)));
    var i := 0;
    while i < |host|
      invariant i <= |host| && LabelsFit(Split(host, i)) && !buffer.broken && |buffer.text| <= buffer.room
      invariant goal == AppendAll(buffer.text, buffer.room, Pieces(Split(host, i)))
    {
      PiecesStep(buffer.text, buffer.room, host, i);
      var e := Dot(host, i);
      PutLabel(buffer, host[i..e]);
      i := e;
      if i < |host| && host[i] == DOT {
        i := i + 1;
      }
    }
    PiecesEnd(buffer.text, buffer.room);
    var _ := buffer.Add([0]);
  }

  lemma PiecesEnd(t: Packet, room: nat)
    ensures AppendAll(t, room, Pieces([])) == Append(t, room, [0])
  {
    assert [[0]][1..] == [];
    assert AppendAll(Append(t, room, [0]), room, []) == Append(t, room, [0]);
  }

  lemma {:induction false} WireSize(host: Packet, i: nat)
    requires i <= |host| && LabelsFit(Split(host, i))
    ensures |host| - i < |Wire(Split(host, i))| <= |host| - i + 2
    decreases |host| - i
  {
    if i < |host| {
      SplitStep(host, i);
      var e := Dot(host, i);
      if e < |host| {
        WireSize(host, e + 1);
      }
    }
  }

  /** The header of a query: the id, recursion desired, one question. */
  function Header(id: nat): (h: Packet)
    requires id < 65536
    ensures |h| == 12
  {
    [id / 256, id % 256, 1, 0, 0, 1, 0, 0, 0, 0, 0, 0]
  }

  const PACKET_ROOM := 512

  /** A packet with a question about `host`; `kind` is the type, in two bytes. */
  function Question(header: Packet, host: Packet, kind: Packet): Packet
    requires LabelsFit(Split(host, 0))
  {
    header + Wire(Split(host, 0)) + kind + [0, 1]
  }

  lemma {:induction false} AppendAllChains(t: Packet, room: nat, a: seq<Packet>, b: seq<Packet>)
    ensures AppendAll(AppendAll(t, room, a), room, b) == AppendAll(t, room, a + b)
    decreases |a|
  {
    if a == [] {
      assert a + b == b;
    } else {
      assert (a + b)[1..] == a[1..] + b;
      AppendAllChains(Append(t, room, a[0]), room, a[1..], b);
    }
  }

  /** Two pieces more. */
  method PutPair(buffer: Buffer, a: Packet, b: Packet)
    requires !buffer.broken && |buffer.text| <= buffer.room == buffer.size
    modifies buffer
    ensures buffer.text == AppendAll(old(buffer.text), buffer.room, [a, b])
  {
    AppendPair(buffer.text, buffer.room, [a, b]);
    var _ := buffer.Add(a);
    var _ := buffer.Add(b);
  }

  /** rn_dns_query up to the sending; what does not fit the packet is left out. */
  method Query(id: nat, kind: nat, host: Packet) returns (packet: Packet)
    requires id < 65536 && kind < 65536 && LabelsFit(Split(host, 0))
    ensures packet == AppendAll(Header(id), PACKET_ROOM, Pieces(Split(host, 0)) + [[kind / 256, kind % 256], [0, 1]])
  {
    var buffer := new Buffer(PACKET_ROOM, PACKET_ROOM);
    var header, bytes: Packet := Header(id), [kind / 256, kind % 256];
    var _ := buffer.Add(header);
    assert buffer.text == header;
    PutName(buffer, host);
    AppendAllChains(header, PACKET_ROOM, Pieces(Split(host, 0)), [bytes, [0, 1]]);
    PutPair(buffer, bytes, [0, 1]);
    packet := buffer.text;
  }

  lemma AppendPair(t: Packet, room: nat, p: seq<Packet>)
    requires |p| == 2
    ensures AppendAll(t, room, p) == Append(Append(t, room, p[0]), room, p[1])
  {
    var t1 := Append(t, room, p[0]);
    assert p[1..][0] == p[1] && p[1..][1..] == [];
    assert AppendAll(t1, room, p[1..]) == AppendAll(Append(t1, room, p[1]), room, []);
  }

  /** A host of ordinary length fits. */
  lemma QuestionFits(header: Packet, host: Packet, kind: Packet)
    requires LabelsFit(Split(host, 0)) && |kind| == 2 && |header| + |host| + 6 <= PACKET_ROOM
    ensures AppendAll(header, PACKET_ROOM, Pieces(Split(host, 0)) + [kind, [0, 1]]) == Question(header, host, kind)
  {
    var tail := [kind, [0, 1]];
    WireSize(host, 0);
    AppendAllChains(header, PACKET_ROOM, Pieces(Split(host, 0)), tail);
    PiecesAreWire(header, PACKET_ROOM, Split(host, 0));
    AppendPair(header + Wire(Split(host, 0)), PACKET_ROOM, tail);
  }

  lemma {:induction false} DottedKeeps(labels: seq<Packet>, c: Byte)
    requires c != DOT && forall i :: 0 <= i < |labels| ==> c !in labels[i]
    ensures c !in Dotted(labels)
    decreases |labels|
  {
    if |labels| > 1 {
      DottedKeeps(labels[1..], c);
    }
  }

  lemma {:induction false} KeptParts(labels: seq<Packet>, c: Byte)
    requires forall i :: 0 <= i < |labels| ==> c !in labels[i]
    ensures forall i :: 0 <= i < |Kept(labels)| ==> c !in Kept(labels)[i] && Kept(labels)[i] != []
  {
    if labels != [] && labels[0] != [] {
      KeptParts(labels[1..], c);
    }
  }

  lemma {:induction false} SplitParts(host: Packet, i: nat, c: Byte)
    requires c !in host
    ensures forall k :: 0 <= k < |Split(host, i)| ==> c !in Split(host, i)[k]
    decreases |host| - i
  {
    if i < |host| {
      SplitStep(host, i);
      SplitParts(host, Dot(host, i) + 1, c);
    }
  }

  lemma KeptLength(one: Packet, rest: seq<Packet>)
    ensures |Dotted(Kept([one] + rest))| <= |one| + 1 + |Dotted(Kept(rest))|
    ensures rest == [] ==> |Dotted(Kept([one] + rest))| <= |one|
  {
    KeptStep(one, rest);
  }

  lemma {:induction false} KeptIsShort(host: Packet, i: nat)
    requires i <= |host|
    ensures |Dotted(Kept(Split(host, i)))| <= |host| - i
    decreases |host| - i
  {
    if i < |host| {
      var e := Dot(host, i);
      var one, rest := host[i..e], Split(host, e + 1);
      assert Split(host, i) == [one] + rest;
      KeptLength(one, rest);
      if e < |host| {
        KeptIsShort(host, e + 1);
      }
    }
  }

  lemma {:induction false} CleanIsKept(host: Packet, i: nat)
    requires i <= |host| && CleanFrom(host, i)
    ensures Kept(Split(host, i)) == Split(host, i)
    decreases |host| - i
  {
    if i < |host| {
      var e := Dot(host, i);
      SplitStep(host, i);
      KeptStep(host[i..e], Split(host, e + 1));
      CleanStep(host, i);
      if e < |host| {
        CleanIsKept(host, e + 1);
      }
    }
  }

  lemma StoredKept(host: Packet) returns (d: Packet)
    requires 0 !in host && |host| < NAME_SIZE
    ensures d == Dotted(Kept(Split(host, 0))) && 0 !in d
    ensures Stored([], NAME_SIZE, Kept(Split(host, 0)), true) == Terminated(d)
  {
    var kept := Kept(Split(host, 0));
    d := Dotted(kept);
    SplitParts(host, 0, 0);
    KeptParts(Split(host, 0), 0);
    DottedKeeps(kept, 0);
    KeptIsShort(host, 0);
    NameFits(NAME_SIZE, kept);
  }

  lemma TerminatedSame(d: Packet, host: Packet)
    requires 0 !in d && 0 !in host
    ensures Terminated(d) == host + [0] <==> d == host
  {
    var t := d + [0];
    assert d != [] ==> d[|d| - 1] in d;
    assert t[..|d|] == d && (host + [0])[..|host|] == host;
  }

  /** The host comes back from its labels, NUL-terminated, exactly if it is clean. */
  lemma HostComesBack(host: Packet)
    requires 0 !in host && |host| < NAME_SIZE
    ensures Stored([], NAME_SIZE, Kept(Split(host, 0)), true) == host + [0] <==> Clean(host)
  {
    var d := StoredKept(host);
    CleanComesBack(host, 0);
    assert host[0..] == host;
    TerminatedSame(d, host);
  }

  /** What a host's labels on the wire are read as. */
  lemma HostReads(buf: Packet, p: nat, host: Packet)
    requires LabelsFit(Split(host, 0)) && 0 !in host && |host| < NAME_SIZE && At(buf, p, Wire(Split(host, 0)))
    ensures Ends(buf, p) && EndOfName(buf, p).Some? && EndOfName(buf, p).value <= p + |Wire(Split(host, 0))|
    ensures NameAt(buf, p, NAME_SIZE) == host + [0] <==> Clean(host)
    ensures Clean(host) ==> NameEnd(buf, p) == p + |Wire(Split(host, 0))|
  {
    WireReads(buf, p, Split(host, 0));
    HostComesBack(host);
    if Clean(host) {
      CleanIsKept(host, 0);
    }
  }

  lemma TailReads(buf: Packet, q: nat, kind: Packet)
    requires |kind| == 2 && At(buf, q, kind + [0, 1])
    ensures q + 4 <= |buf| && U16(buf, q) == U16(kind, 0) && U16(buf, q + 2) == 1
  {
    AtIndex(buf, q, kind + [0, 1], 0);
    AtIndex(buf, q, kind + [0, 1], 1);
    AtIndex(buf, q, kind + [0, 1], 2);
    AtIndex(buf, q, kind + [0, 1], 3);
  }

  lemma QuestionParts(header: Packet, host: Packet, kind: Packet)
    requires LabelsFit(Split(host, 0))
    ensures var packet, wire := Question(header, host, kind), Wire(Split(host, 0));
      At(packet, |header|, wire) && At(packet, |header| + |wire|, kind + [0, 1])
  {
    var packet, wire, tail := Question(header, host, kind), Wire(Split(host, 0)), kind + [0, 1];
    assert packet == header + (wire + tail);
    AtMiddle(header, wire, tail);
    assert packet == header + wire + (tail + []);
    AtMiddle(header + wire, tail, []);
  }

  /** A question about `host` at `p`, up to the type at `e`, is read back exactly if the host is clean. */
  lemma QuestionReads(packet: Packet, p: nat, e: nat, host: Packet, kind: Packet)
    requires LabelsFit(Split(host, 0)) && 0 !in host && |host| < NAME_SIZE && |kind| == 2
    requires At(packet, p, Wire(Split(host, 0))) && e == p + |Wire(Split(host, 0))| && At(packet, e, kind + [0, 1])
    ensures Ends(packet, p) && QuestionAt(packet, p)
    ensures NameAt(packet, p, NAME_SIZE) == host + [0] <==> Clean(host)
    ensures Clean(host) ==> NameEnd(packet, p) == e && U16(packet, e) == U16(kind, 0) && U16(packet, e + 2) == 1
  {
    HostReads(packet, p, host);
    TailReads(packet, e, kind);
  }

  /** rn_dns_query, and rn_dns_query_get on the packet that was sent, after its header: the name is
      read back, NUL-terminated, exactly if the host is clean; else it is cut at its first empty
      label or loses the dot at its end. */
  method QueryAndRead(id: nat, kind: nat, host: Packet) returns (ok: bool, name: Packet, readKind: nat, qclass: nat)
    requires id < 65536 && kind < 65536 && LabelsFit(Split(host, 0)) && 0 !in host && |host| < NAME_SIZE
    ensures ok && (name == host + [0] <==> Clean(host)) && (Clean(host) ==> readKind == kind && qclass == 1)
  {
    var packet := Query(id, kind, host);
    ghost var bytes := [kind / 256, kind % 256];
    QuestionFits(Header(id), host, bytes);
    QuestionParts(Header(id), host, bytes);
    QuestionReads(packet, 12, 12 + |Wire(Split(host, 0))|, host, bytes);
    var it := new Cursor(packet, 12);
    ok, name, readKind, qclass := GetQuestion(it);
  }

  // The loop of the encoder on any host

  /** Conversion to a signed char. */
  function ToChar(n: nat): int {
    if n % 256 < 128 then n % 256 else n % 256 - 256
  }

  /** One turn of the loop of rn_dns_query, which stands at `i`; it may step back out of the host. */
  function Turn(host: Packet, i: nat): int
    requires i < |host|
  {
    var j := i + ToChar(Dot(host, i) - i);
    if 0 <= j < |host| && host[j] == DOT then j + 1 else j
  }

  /** The loop comes from `i` to the end of the host in at most `n` turns. */
  ghost predicate ArrivesIn(host: Packet, i: nat, n: nat)
    decreases n
  {
    i == |host| || (i < |host| && n > 0 && 0 <= Turn(host, i) && ArrivesIn(host, Turn(host, i), n - 1))
  }

  ghost predicate Arrives(host: Packet) {
    exists n: nat :: ArrivesIn(host, 0, n)
  }

  lemma ShortTurn(host: Packet, i: nat)
    requires i < |host| && Dot(host, i) - i <= 127
    ensures var e := Dot(host, i); Turn(host, i) == if e < |host| then e + 1 else e
    ensures i < Turn(host, i) <= |host|
  {
  }

  lemma {:induction false} ShortArrives(host: Packet, i: nat)
    requires i <= |host| && LabelsFit(Split(host, i))
    ensures ArrivesIn(host, i, |host| - i)
    decreases |host| - i
  {
    if i < |host| {
      SplitStep(host, i);
      ShortTurn(host, i);
      var j := Turn(host, i);
      ShortArrives(host, j);
      ArrivesMore(host, j, |host| - j, |host| - i - 1);
    }
  }

  lemma {:induction false} ArrivesMore(host: Packet, i: nat, n: nat, m: nat)
    requires ArrivesIn(host, i, n) && n <= m
    ensures ArrivesIn(host, i, m)
    decreases n
  {
    if i < |host| {
      ArrivesMore(host, Turn(host, i), n - 1, m - 1);
    }
  }

  /** The first label of more than 127 bytes stands from `s` to `e`. */
  ghost predicate LongAt(host: Packet, s: nat, e: nat) {
    && s < |host| && e == Dot(host, s) && e - s > 127
    && forall k :: 0 <= k < s ==> Dot(host, k) - k <= 127
  }

  lemma {:induction false} LongFrom(host: Packet, i: nat) returns (k: nat)
    requires i <= |host| && !LabelsFit(Split(host, i))
    ensures k < |host| && Dot(host, k) - k > 127
    decreases |host| - i
  {
    SplitStep(host, i);
    if Dot(host, i) - i > 127 {
      k := i;
    } else {
      k := LongFrom(host, Dot(host, i) + 1);
    }
  }

  lemma FirstLong(host: Packet, k: nat) returns (s: nat)
    requires k < |host| && Dot(host, k) - k > 127
    ensures s < |host| && LongAt(host, s, Dot(host, s))
  {
    s := 0;
    while Dot(host, s) - s <= 127
      invariant s <= k && forall j :: 0 <= j < s ==> Dot(host, j) - j <= 127
      decreases k - s
    {
      s := s + 1;
    }
  }

  /** Where the loop can be when there is such a label. */
  ghost predicate Caught(s: nat, e: nat, i: nat) {
    i <= s || (i < e && (e - i) % 256 == 0)
  }

  lemma CaughtChars(s: nat, e: nat, i: nat)
    requires e - s > 127 && s <= i && Caught(s, e, i)
    ensures var j := i + ToChar(e - i); j < e && (j <= s || (e - j) % 256 == 0)
  {
  }

  lemma CaughtInside(host: Packet, s: nat, e: nat, i: nat)
    requires LongAt(host, s, e) && s <= i && Caught(s, e, i)
    ensures i < |host| && (Turn(host, i) < 0 || Caught(s, e, Turn(host, i)))
  {
    assert Dot(host, i) == e;
    CaughtChars(s, e, i);
    var j := i + ToChar(e - i);
    assert s <= j < e ==> host[j] != DOT;
  }

  lemma CaughtBefore(host: Packet, s: nat, e: nat, i: nat)
    requires LongAt(host, s, e) && i < s
    ensures 0 <= Turn(host, i) <= s
  {
    ShortTurn(host, i);
    assert Dot(host, s - 1) - (s - 1) <= 127;
    assert host[s - 1] == DOT;
  }

  lemma {:induction false} CaughtForEver(host: Packet, s: nat, e: nat, i: nat, n: nat)
    requires LongAt(host, s, e) && Caught(s, e, i)
    ensures !ArrivesIn(host, i, n)
    decreases n
  {
    if i < s {
      CaughtBefore(host, s, e, i);
    } else {
      CaughtInside(host, s, e, i);
    }
    if n > 0 && Turn(host, i) >= 0 {
      CaughtForEver(host, s, e, Turn(host, i), n - 1);
    }
  }

  /** The loop of rn_dns_query comes to the end of the host exactly if no label has more than 127 bytes. The
      length of a longer one, in a signed char, is negative, zero or too small, so the loop never passes it:
      it goes on for ever or steps back out of the host. */
  lemma LoopEnds(host: Packet)
    ensures LabelsFit(Split(host, 0)) <==> Arrives(host)
  {
    if LabelsFit(Split(host, 0)) {
      ShortArrives(host, 0);
    } else {
      var k := LongFrom(host, 0);
      var s := FirstLong(host, k);
      forall n: nat
        ensures !ArrivesIn(host, 0, n)
      {
        CaughtForEver(host, s, Dot(host, s), 0, n);
      }
    }
  }

  // PTR records

  lemma {:induction false} KeptAll(labels: seq<Packet>)
    requires forall i :: 0 <= i < |labels| ==> labels[i] != []
    ensures Kept(labels) == labels
  {
    if labels != [] {
      KeptAll(labels[1..]);
    }
  }

  lemma FiveLong(a: Packet, b: Packet, c: Packet, d: Packet, e: Packet)
    requires |a| == |b| == |c| == |d| == 63 && |e| == 20
    ensures var labels := [a, b, c, d, e]; |Wire(labels)| == 278 && Grown(0, PTR_ROOM, labels) == 276
  {
    var l1, l2, l3, l4 := [b, c, d, e], [c, d, e], [d, e], [e];
    assert [a, b, c, d, e][1..] == l1 && l1[1..] == l2 && l2[1..] == l3 && l3[1..] == l4 && l4[1..] == [];
    assert |Wire(l4)| == 22 && |Wire(l3)| == 86 && |Wire(l2)| == 150 && |Wire(l1)| == 214;
    assert Grown(255, PTR_ROOM, l4) == Grown(276, PTR_ROOM, []) && Grown(191, PTR_ROOM, l3) == Grown(255, PTR_ROOM, l4);
    assert Grown(127, PTR_ROOM, l2) == Grown(191, PTR_ROOM, l3) && Grown(63, PTR_ROOM, l1) == Grown(127, PTR_ROOM, l2);
  }

  lemma LabelsEnd(buf: Packet, p: nat, labels: seq<Packet>)
    requires LabelsFit(labels) && At(buf, p, Wire(labels)) && forall i :: 0 <= i < |labels| ==> labels[i] != []
    ensures EndsIn(buf, p, 0) && Walk(buf, p) == (labels, true) && NameEnd(buf, p) == p + |Wire(labels)|
  {
    WireReads(buf, p, labels);
    KeptAll(labels);
  }

  lemma LongPasses(buf: Packet, p: nat, labels: seq<Packet>)
    requires Ends(buf, p) && Walk(buf, p).0 == labels && NAME_SIZE < Grown(0, PTR_ROOM, labels)
    ensures !Within(buf, p, 12)
  {
    WithinByLength(buf, p);
  }

  /** A PTR record for the root whose data are `n` bytes: the fields before them. */
  function PtrFields(n: nat): Packet
    requires n < 65536
  {
    [0, 0, 12, 0, 1, 0, 0, 0, 0, n / 256, n % 256]
  }

  lemma PtrRecord(buf: Packet, wire: Packet)
    requires |wire| < 65536 && buf == PtrFields(|wire|) + wire && EndOfName(buf, 11) == Some(11 + |wire|)
    ensures RecordFollowable(buf, 0) && RecordEnd(buf, 0) == Some(|buf|) && (RecordWithin(buf, 0) <==> Within(buf, 11, 12))
  {
    var f := PtrFields(|wire|);
    assert buf[0] == f[0] && buf[1] == f[1] && buf[2] == f[2] && buf[9] == f[9] && buf[10] == f[10];
    assert EndsIn(buf, 0, 0) && EndOfName(buf, 0) == Some(1);
  }

  lemma NamePasses(buf: Packet, p: nat, labels: seq<Packet>)
    requires LabelsFit(labels) && forall i :: 0 <= i < |labels| ==> labels[i] != []
    requires At(buf, p, Wire(labels)) && NAME_SIZE < Grown(0, PTR_ROOM, labels)
    ensures EndOfName(buf, p) == Some(p + |Wire(labels)|) && !Within(buf, p, 12)
  {
    LabelsEnd(buf, p, labels);
    LongPasses(buf, p, labels);
  }

  lemma PtrAt(buf: Packet, wire: Packet)
    requires |wire| < 65536 && buf == PtrFields(|wire|) + wire
    ensures At(buf, 11, wire)
  {
  }

  /** A PTR record with a name that is too long is well formed all the same. */
  lemma PtrPasses(buf: Packet, labels: seq<Packet>, wire: Packet)
    requires LabelsFit(labels) && forall i :: 0 <= i < |labels| ==> labels[i] != []
    requires wire == Wire(labels) && |wire| < 65536 && NAME_SIZE < Grown(0, PTR_ROOM, labels)
    requires At(buf, 11, wire) && buf == PtrFields(|wire|) + wire
    ensures RecordFollowable(buf, 0) && RecordEnd(buf, 0) == Some(|buf|) && !RecordWithin(buf, 0)
  {
    assert EndOfName(buf, 11) == Some(11 + |wire|) && !Within(buf, 11, 12) by {
      NamePasses(buf, 11, labels);
    }
    PtrRecord(buf, wire);
  }

  /** A PTR record with a name of 276 bytes, in 278 bytes on the wire, is well formed and fits a packet but
      not the array for its name. */
  lemma PtrOverrun(buf: Packet, a: Packet, b: Packet, c: Packet, d: Packet, e: Packet)
    requires |a| == |b| == |c| == |d| == 63 && |e| == 20 && buf == PtrFields(278) + Wire([a, b, c, d, e])
    ensures |buf| == 289 && RecordFollowable(buf, 0) && RecordEnd(buf, 0) == Some(|buf|) && !RecordWithin(buf, 0)
  {
    var labels := [a, b, c, d, e];
    FiveLong(a, b, c, d, e);
    PtrAt(buf, Wire(labels));
    PtrPasses(buf, labels, Wire(labels));
  }
}
