/**
  Deadlines as `struct timeval` and the macros of <sys/time.h> that
  src/scheduler/task.c computes with.
 */
module Clock {

  datatype Timeval = Timeval(sec: int, usec: int)

  const ZERO := Timeval(0, 0)
  const MILLION := 1000000

  predicate Less(a: Timeval, b: Timeval) {
    if a.sec == b.sec then a.usec < b.usec else a.sec < b.sec
  }

  predicate Due(a: Timeval, now: Timeval) {
    if a.sec == now.sec then a.usec <= now.usec else a.sec <= now.sec
  }

  predicate Normal(a: Timeval) {
    0 <= a.usec < MILLION
  }

  function Micros(a: Timeval): int {
    a.sec * MILLION + a.usec
  }

  function Add(a: Timeval, b: Timeval): (r: Timeval)
    ensures Micros(r) == Micros(a) + Micros(b)
    ensures Normal(a) && Normal(b) ==> Normal(r)
  {
    var s, u := a.sec + b.sec, a.usec + b.usec;
    if u >= MILLION then Timeval(s + 1, u - MILLION) else Timeval(s, u)
  }

  function Sub(a: Timeval, b: Timeval): (r: Timeval)
    ensures Micros(r) == Micros(a) - Micros(b)
    ensures Normal(a) && Normal(b) ==> Normal(r)
  {
    var s, u := a.sec - b.sec, a.usec - b.usec;
    if u < 0 then Timeval(s - 1, u + MILLION) else Timeval(s, u)
  }

  /** The deadline rn_task_wait computes for a delay of `ms` milliseconds. */
  function After(now: Timeval, ms: nat): (r: Timeval)
    ensures Micros(r) == Micros(now) + 1000 * ms
    ensures Normal(now) ==> Normal(r)
  {
    Add(now, Timeval(ms / 1000, (ms % 1000) * 1000))
  }

  const INT_MAX := 0x7fff_ffff

  /** Conversion to a 32-bit int. */
  function ToInt(x: int): int {
    var m := x % 0x1_0000_0000;
    if m <= INT_MAX then m else m - 0x1_0000_0000
  }

  lemma ToIntKeeps(x: nat)
    ensures ToInt(x) == x <==> x <= INT_MAX
    ensures ToInt(x) == -1 <==> x % 0x1_0000_0000 == 0xffff_ffff
  {
  }

  /** The whole milliseconds from `now` to `tv`. */
  function Ahead(tv: Timeval, now: Timeval): int {
    (Micros(tv) - Micros(now)) / 1000
  }

  /** Milliseconds from `now` to `tv` as rn_task_driver_run returns them. */
  function Delay(tv: Timeval, now: Timeval): (r: int)
    ensures Normal(tv) && Normal(now) ==> r == ToInt(Ahead(tv, now))
  {
    var d := Sub(tv, now);
    ToInt(d.sec * 1000 + d.usec / 1000)
  }

  /** What an int makes of the milliseconds to a deadline that is to come. */
  lemma ToAhead(tv: Timeval, now: Timeval)
    requires Normal(tv) && Normal(now) && Less(now, tv)
    ensures var ms := Ahead(tv, now);
      0 <= ms && (Delay(tv, now) == ms <==> ms <= INT_MAX) && (Delay(tv, now) == -1 <==> ms % 0x1_0000_0000 == 0xffff_ffff)
  {
    ToIntKeeps(Ahead(tv, now));
  }

  lemma DueIsNoLater(a: Timeval, now: Timeval)
    requires Normal(a) && Normal(now)
    ensures Due(a, now) <==> Micros(a) <= Micros(now)
    ensures Less(a, now) <==> Micros(a) < Micros(now)
  {
  }
}

/** A priority queue of deadlines, first come first served among equal ones. */
module StableQueue {
  import opened Clock

  /** `stamp` counts the schedulings, so it tells which of two entries came first. */
  datatype Entry<T> = Entry(task: T, tv: Timeval, stamp: nat)

  ghost predicate Before<T>(a: Entry<T>, b: Entry<T>) {
    Less(a.tv, b.tv) || (a.tv == b.tv && a.stamp < b.stamp)
  }

  ghost predicate Sorted<T>(q: seq<Entry<T>>) {
    forall i, j :: 0 <= i < j < |q| ==> Before(q[i], q[j])
  }

  ghost predicate Older<T>(q: seq<Entry<T>>, stamp: nat) {
    forall i :: 0 <= i < |q| ==> q[i].stamp < stamp
  }

  /** At most one entry for each task. */
  ghost predicate Single<T>(q: seq<Entry<T>>) {
    forall i, j :: 0 <= i < j < |q| ==> q[i].task != q[j].task
  }

  ghost predicate Queued<T>(q: seq<Entry<T>>, t: T) {
    exists i :: 0 <= i < |q| && q[i].task == t
  }

  function Insert<T>(q: seq<Entry<T>>, e: Entry<T>): seq<Entry<T>> {
    if q == [] || Less(e.tv, q[0].tv) then [e] + q else [q[0]] + Insert(q[1..], e)
  }

  function Erase<T(==)>(q: seq<Entry<T>>, t: T): seq<Entry<T>> {
    if q == [] then [] else if q[0].task == t then q[1..] else [q[0]] + Erase(q[1..], t)
  }

  lemma {:induction false} InsertAt<T>(q: seq<Entry<T>>, e: Entry<T>, k: nat)
    requires k <= |q|
    requires forall i :: 0 <= i < k ==> !Less(e.tv, q[i].tv)
    requires k < |q| ==> Less(e.tv, q[k].tv)
    ensures Insert(q, e) == q[..k] + [e] + q[k..]
  {
    if k > 0 {
      InsertAt(q[1..], e, k - 1);
      assert q[1..][..k - 1] == q[1..k] && q[1..][k - 1..] == q[k..];
      assert q[..k] == [q[0]] + q[1..k];
    }
  }

  lemma {:induction false} InsertPlace<T>(q: seq<Entry<T>>, e: Entry<T>) returns (k: nat)
    requires Sorted(q)
    ensures k <= |q|
    ensures forall i :: 0 <= i < k ==> !Less(e.tv, q[i].tv)
    ensures forall i :: k <= i < |q| ==> Less(e.tv, q[i].tv)
    ensures Insert(q, e) == q[..k] + [e] + q[k..]
  {
    k := 0;
    while k < |q| && !Less(e.tv, q[k].tv)
      invariant k <= |q| && forall i :: 0 <= i < k ==> !Less(e.tv, q[i].tv)
    {
      k := k + 1;
    }
    InsertAt(q, e, k);
  }

  lemma {:induction false} EraseAt<T>(q: seq<Entry<T>>, t: T, k: nat)
    requires k < |q| && q[k].task == t && Single(q)
    ensures Erase(q, t) == q[..k] + q[k + 1..]
  {
    if k > 0 {
      assert q[0].task != t;
      var rest := q[1..];
      assert Single(rest) by {
        assert forall i :: 0 <= i < |rest| ==> rest[i] == q[i + 1];
      }
      EraseAt(rest, t, k - 1);
      assert [q[0]] + (rest[..k - 1] + rest[k..]) == q[..k] + q[k + 1..];
    } else {
      assert q[..0] + q[1..] == q[1..];
    }
  }

  lemma {:induction false} EraseAbsent<T>(q: seq<Entry<T>>, t: T)
    requires !Queued(q, t)
    ensures Erase(q, t) == q
  {
    if q != [] {
      assert forall i :: 0 <= i < |q[1..]| ==> q[1..][i] == q[i + 1];
      EraseAbsent(q[1..], t);
    }
  }

  /** What every reachable queue satisfies. */
  ghost predicate Good<T>(q: seq<Entry<T>>, next: nat) {
    Sorted(q) && Single(q) && Older(q, next)
  }

  lemma RemovedIsGood<T>(q: seq<Entry<T>>, next: nat, k: nat, r: seq<Entry<T>>)
    requires Good(q, next) && k < |q| && r == q[..k] + q[k + 1..]
    ensures Good(r, next) && !Queued(r, q[k].task)
  {
    forall i | 0 <= i < |r|
      ensures r[i] == q[if i < k then i else i + 1] && r[i].task != q[k].task && r[i].stamp < next
    {
    }
    forall i, j | 0 <= i < j < |r|
      ensures Before(r[i], r[j]) && r[i].task != r[j].task
    {
      var i', j' := if i < k then i else i + 1, if j < k then j else j + 1;
      assert Before(q[i'], q[j']) && q[i'].task != q[j'].task;
    }
  }

  lemma ErasedIsGood<T>(q: seq<Entry<T>>, next: nat, t: T)
    requires Good(q, next)
    ensures Good(Erase(q, t), next) && !Queued(Erase(q, t), t)
  {
    if Queued(q, t) {
      var k :| 0 <= k < |q| && q[k].task == t;
      EraseAt(q, t, k);
      RemovedIsGood(q, next, k, Erase(q, t));
    } else {
      EraseAbsent(q, t);
    }
  }

  lemma {:induction false} ErasedMembers<T>(q: seq<Entry<T>>, t: T, e: Entry<T>)
    requires Single(q)
    ensures e in Erase(q, t) <==> e in q && e.task != t
  {
    if q != [] {
      assert q == [q[0]] + q[1..];
      assert forall i :: 0 <= i < |q[1..]| ==> q[1..][i] == q[i + 1];
      if q[0].task != t { ErasedMembers(q[1..], t, e); }
    }
  }

  lemma InsertedIsGood<T>(q: seq<Entry<T>>, next: nat, t: T, tv: Timeval)
    requires Good(q, next) && !Queued(q, t)
    ensures Good(Insert(q, Entry(t, tv, next)), next + 1)
    ensures forall e :: e in Insert(q, Entry(t, tv, next)) <==> e in q || e == Entry(t, tv, next)
  {
    var k := InsertPlace(q, Entry(t, tv, next));
  }

  datatype Op<T> = Schedule(t: T, tv: Timeval) | Unschedule(t: T)

  /** The queue after one call. */
  function Once<T(==)>(q: seq<Entry<T>>, next: nat, op: Op<T>): (seq<Entry<T>>, nat) {
    match op
    case Schedule(t, tv) => (Insert(Erase(q, t), Entry(t, tv, next)), next + 1)
    case Unschedule(t) => (Erase(q, t), next)
  }

  /** The queue after a run of rn_task_schedule and rn_task_unschedule calls. */
  function Apply<T(==)>(q: seq<Entry<T>>, next: nat, ops: seq<Op<T>>): (seq<Entry<T>>, nat)
    decreases |ops|
  {
    if ops == [] then (q, next) else
    var (q1, next1) := Once(q, next, ops[0]);
    Apply(q1, next1, ops[1..])
  }

  /** The same from an empty queue. */
  function Play<T(==)>(ops: seq<Op<T>>): (seq<Entry<T>>, nat) {
    Apply([], 0, ops)
  }

  lemma ApplyNext<T>(q: seq<Entry<T>>, next: nat, ops: seq<Op<T>>, i: nat)
    requires i < |ops|
    ensures var (q1, next1) := Once(q, next, ops[i]); Apply(q, next, ops[i..]) == Apply(q1, next1, ops[i + 1..])
  {
    assert ops[i..][0] == ops[i] && ops[i..][1..] == ops[i + 1..];
  }

  /** One call keeps the queue good; the entries of other tasks stay, and the only new one has
      the deadline that was asked for. */
  lemma OnceIsGood<T>(q: seq<Entry<T>>, next: nat, op: Op<T>)
    requires Good(q, next)
    ensures var (q1, next1) := Once(q, next, op);
      && Good(q1, next1) && next <= next1
      && (forall e :: e in q1 <==> (e in q && e.task != op.t) || (op.Schedule? && e == Entry(op.t, op.tv, next)))
  {
    ErasedIsGood(q, next, op.t);
    var r := Erase(q, op.t);
    forall e
      ensures e in r <==> e in q && e.task != op.t
    {
      ErasedMembers(q, op.t, e);
    }
    if op.Schedule? {
      InsertedIsGood(r, next, op.t, op.tv);
    }
  }

  lemma {:induction false} AppliedIsGood<T>(q: seq<Entry<T>>, next: nat, ops: seq<Op<T>>)
    requires Good(q, next)
    ensures Good(Apply(q, next, ops).0, Apply(q, next, ops).1) && next <= Apply(q, next, ops).1
    decreases |ops|
  {
    if ops != [] {
      OnceIsGood(q, next, ops[0]);
      var (q1, next1) := Once(q, next, ops[0]);
      AppliedIsGood(q1, next1, ops[1..]);
    }
  }

  ghost predicate Untouched<T>(t: T, ops: seq<Op<T>>) {
    forall i :: 0 <= i < |ops| ==> ops[i].t != t
  }

  /** The entry of a task that no call is about stays as it is. */
  lemma {:induction false} UntouchedStays<T>(q: seq<Entry<T>>, next: nat, ops: seq<Op<T>>, e: Entry<T>)
    requires Good(q, next) && Untouched(e.task, ops) && e in q
    ensures e in Apply(q, next, ops).0
    decreases |ops|
  {
    if ops != [] {
      OnceIsGood(q, next, ops[0]);
      var (q1, next1) := Once(q, next, ops[0]);
      UntouchedStays(q1, next1, ops[1..], e);
    }
  }

  /** An entry is made by a call and has the deadline of that call. */
  lemma {:induction false} EntryWasMade<T>(q: seq<Entry<T>>, next: nat, ops: seq<Op<T>>, e: Entry<T>)
    requires Good(q, next) && e in Apply(q, next, ops).0
    ensures e in q || (Schedule(e.task, e.tv) in ops && next <= e.stamp)
    decreases |ops|
  {
    if ops != [] {
      OnceIsGood(q, next, ops[0]);
      var (q1, next1) := Once(q, next, ops[0]);
      EntryWasMade(q1, next1, ops[1..], e);
    }
  }

  lemma EveryRunIsGood<T>(ops: seq<Op<T>>)
    ensures Good(Play(ops).0, Play(ops).1)
  {
    AppliedIsGood([], 0, ops);
  }

  /** In every run the entry served next has the earliest deadline, and among the entries
      with that deadline it is the one scheduled first. */
  lemma EarliestThenFirst<T>(ops: seq<Op<T>>, i: nat)
    requires i < |Play(ops).0|
    ensures var q := Play(ops).0;
      && !Less(q[i].tv, q[0].tv)
      && (q[i].tv == q[0].tv && i != 0 ==> q[0].stamp < q[i].stamp)
  {
    EveryRunIsGood(ops);
  }
}
