/** The run queue of src/scheduler/task.c, kept in a red-black tree. */
module TaskDriver {
  import opened Clock
  import opened StableQueue
  import opened RbTree

  /** The fields of a task around its embedded tree node; `id` stands for its address. */
  datatype Fields = Fields(id: nat, scheduled: bool, tv: Timeval)

  type Task = Node<Fields>

  /** rn_task_cmp: of two different tasks with equal deadlines neither is the smaller. */
  function Compare(a: Fields, b: Fields): int {
    if a.id == b.id then 0 else if Less(a.tv, b.tv) then -1 else 1
  }

  datatype Outcome = Outcome(queue: seq<Entry<Task>>, next: nat, served: seq<Entry<Task>>, complete: bool)

  /** rn_task_driver_run at time `now`: while the head is due, it leaves the queue and runs until
      it releases; `script` tells what each resumed task does to the queue meanwhile. */
  ghost function Drive(q: seq<Entry<Task>>, next: nat, now: Timeval, script: seq<seq<Op<Task>>>): Outcome
    decreases |script|
  {
    if q == [] || !Due(q[0].tv, now) then Outcome(q, next, [], true)
    else if script == [] then Outcome(q, next, [], false)
    else
      var (q1, next1) := Apply(q[1..], next, script[0]);
      var rest := Drive(q1, next1, now, script[1..]);
      rest.(served := [q[0]] + rest.served)
  }

  ghost function Following(served: seq<Entry<Task>>, o: Outcome): Outcome {
    o.(served := served + o.served)
  }

  lemma FollowOne(served: seq<Entry<Task>>, e: Entry<Task>, o: Outcome)
    ensures Following(served, Following([e], o)) == Following(served + [e], o)
  {
    assert served + ([e] + o.served) == served + [e] + o.served;
  }

  /** What one turn of the loop comes to. */
  lemma DriveTurn(q: seq<Entry<Task>>, next: nat, now: Timeval, script: seq<seq<Op<Task>>>, i: nat) returns (o: Outcome)
    requires i <= |script|
    ensures o == Drive(q, next, now, script[i..])
    ensures q == [] || !Due(q[0].tv, now) ==> o == Outcome(q, next, [], true)
    ensures q != [] && Due(q[0].tv, now) && i == |script| ==> o == Outcome(q, next, [], false)
    ensures q != [] && Due(q[0].tv, now) && i < |script| ==>
      var (q1, next1) := Apply(q[1..], next, script[i]); o == Following([q[0]], Drive(q1, next1, now, script[i + 1..]))
  {
    o := Drive(q, next, now, script[i..]);
    if i < |script| {
      assert script[i..][0] == script[i] && script[i..][1..] == script[i + 1..];
    }
  }

  /** Only due entries are served, and when the loop ends nothing queued is due. */
  lemma {:induction false} DriveServes(q: seq<Entry<Task>>, next: nat, now: Timeval, script: seq<seq<Op<Task>>>)
    requires Good(q, next)
    ensures var o := Drive(q, next, now, script);
      && Good(o.queue, o.next)
      && (forall i :: 0 <= i < |o.served| ==> Due(o.served[i].tv, now))
      && (o.complete ==> forall i :: 0 <= i < |o.queue| ==> Less(now, o.queue[i].tv))
    decreases |script|
  {
    if q != [] && Due(q[0].tv, now) && script != [] {
      var q1, next1 := ServedOne(q, next, script[0]);
      DriveServes(q1, next1, now, script[1..]);
    } else if q != [] && !Due(q[0].tv, now) {
      forall i | 0 <= i < |q|
        ensures Less(now, q[i].tv)
      {
        assert i > 0 ==> Before(q[0], q[i]);
      }
    }
  }

  lemma ServedOne(q: seq<Entry<Task>>, next: nat, ops: seq<Op<Task>>) returns (q1: seq<Entry<Task>>, next1: nat)
    requires Good(q, next) && q != []
    ensures (q1, next1) == Apply(q[1..], next, ops) && Good(q[1..], next) && Good(q1, next1) && next <= next1
  {
    RemovedIsGood(q, next, 0, q[1..]);
    AppliedIsGood(q[1..], next, ops);
    var r := Apply(q[1..], next, ops);
    q1, next1 := r.0, r.1;
  }

  /** What is served has been queued: before, or by a task that was resumed meanwhile. */
  lemma {:induction false} ServedWasQueued(q: seq<Entry<Task>>, next: nat, now: Timeval, script: seq<seq<Op<Task>>>, i: nat)
    requires Good(q, next) && i < |Drive(q, next, now, script).served|
    ensures var e := Drive(q, next, now, script).served[i];
      e in q || (next <= e.stamp && exists k :: 0 <= k < i && k < |script| && Schedule(e.task, e.tv) in script[k])
    decreases |script|
  {
    var q1, next1 := ServedOne(q, next, script[0]);
    var rest := Drive(q1, next1, now, script[1..]);
    if i > 0 {
      var e := rest.served[i - 1];
      ServedWasQueued(q1, next1, now, script[1..], i - 1);
      if e in q1 {
        EntryWasMade(q[1..], next, script[0], e);
      } else {
        var k :| 0 <= k < i - 1 && k < |script[1..]| && Schedule(e.task, e.tv) in script[1..][k];
        assert script[k + 1] == script[1..][k];
      }
    }
  }

  ghost predicate NormalAll(q: seq<Entry<Task>>) {
    forall i :: 0 <= i < |q| ==> Normal(q[i].tv)
  }

  ghost predicate NormalOps(ops: seq<Op<Task>>) {
    forall i :: 0 <= i < |ops| && ops[i].Schedule? ==> Normal(ops[i].tv)
  }

  lemma AppliedNormal(q: seq<Entry<Task>>, next: nat, ops: seq<Op<Task>>)
    requires Good(q, next) && NormalAll(q) && NormalOps(ops)
    ensures NormalAll(Apply(q, next, ops).0)
  {
    var r := Apply(q, next, ops).0;
    forall i | 0 <= i < |r|
      ensures Normal(r[i].tv)
    {
      EntryWasMade(q, next, ops, r[i]);
    }
  }

  /** If only normal deadlines are asked for, as rn_task_wait does, only such are queued, so `DueIsNoLater` and
      the result of `Run` speak of microseconds in every run. */
  lemma {:induction false} DriveNormal(q: seq<Entry<Task>>, next: nat, now: Timeval, script: seq<seq<Op<Task>>>)
    requires Good(q, next) && NormalAll(q) && forall i :: 0 <= i < |script| ==> NormalOps(script[i])
    ensures NormalAll(Drive(q, next, now, script).queue)
    decreases |script|
  {
    if q != [] && Due(q[0].tv, now) && script != [] {
      var q1, next1 := ServedOne(q, next, script[0]);
      AppliedNormal(q[1..], next, script[0]);
      DriveNormal(q1, next1, now, script[1..]);
    }
  }

  /** A task that waits `ms` milliseconds from time `c` on is not resumed by the queue before they are over. */
  lemma NeverEarly(q: seq<Entry<Task>>, next: nat, now: Timeval, script: seq<seq<Op<Task>>>, c: Timeval, ms: nat, i: nat)
    requires Good(q, next) && Normal(c) && Normal(now)
    requires i < |Drive(q, next, now, script).served| && Drive(q, next, now, script).served[i].tv == After(c, ms)
    ensures Micros(c) + 1000 * ms <= Micros(now)
  {
    DriveServes(q, next, now, script);
    DueIsNoLater(After(c, ms), now);
  }

  /** Of two entries in the queue the one that is before the other is served first, unless somebody
      reschedules it. */
  lemma {:induction false} ServedInOrder(
    q: seq<Entry<Task>>, next: nat, now: Timeval, script: seq<seq<Op<Task>>>, a: Entry<Task>, b: Entry<Task>, j: nat)
    requires Good(q, next) && a in q && b in q && Before(a, b)
    requires j < |Drive(q, next, now, script).served| && Drive(q, next, now, script).served[j] == b
    requires forall k :: 0 <= k < j && k < |script| ==> Untouched(a.task, script[k])
    ensures exists i :: 0 <= i < j && Drive(q, next, now, script).served[i] == a
    decreases |script|
  {
    var q1, next1 := ServedOne(q, next, script[0]);
    var o, rest := Drive(q, next, now, script), Drive(q1, next1, now, script[1..]);
    HeadIsFirst(q, a, b);
    if q[0] == a {
      assert o.served[0] == a;
    } else {
      assert rest.served[j - 1] == b && a in q[1..] && b in q[1..];
      assert Untouched(a.task, script[0]);
      UntouchedStays(q[1..], next, script[0], a);
      StillQueued(q[1..], next, now, script, b, j);
      forall k | 0 <= k < j - 1 && k < |script[1..]|
        ensures Untouched(a.task, script[1..][k])
      {
        assert script[1..][k] == script[k + 1];
      }
      ServedInOrder(q1, next1, now, script[1..], a, b, j - 1);
      var i :| 0 <= i < j - 1 && rest.served[i] == a;
      assert o.served[i + 1] == a;
    }
  }

  lemma HeadIsFirst(q: seq<Entry<Task>>, a: Entry<Task>, b: Entry<Task>)
    requires Sorted(q) && a in q && b in q && Before(a, b)
    ensures q[0] != b
  {
    var i :| 0 <= i < |q| && q[i] == a;
    if i > 0 {
      assert Before(q[0], q[i]);
    }
  }

  /** An entry served later that is older than the calls made meanwhile has been there all the time. */
  lemma StillQueued(q: seq<Entry<Task>>, next: nat, now: Timeval, script: seq<seq<Op<Task>>>, b: Entry<Task>, j: nat)
    requires Good(q, next) && b in q && script != [] && j > 0
    requires var (q1, next1) := Apply(q, next, script[0]); var rest := Drive(q1, next1, now, script[1..]);
      j - 1 < |rest.served| && rest.served[j - 1] == b
    ensures b in Apply(q, next, script[0]).0
  {
    AppliedIsGood(q, next, script[0]);
    var (q1, next1) := Apply(q, next, script[0]);
    ServedWasQueued(q1, next1, now, script[1..], j - 1);
    var i :| 0 <= i < |q| && q[i] == b;
    assert b.stamp < next;
  }

  lemma InsertSpelled<T>(q: seq<T>, e: T, k: nat, r: seq<T>)
    requires k <= |q| && |r| == |q| + 1 && r[k] == e && forall i :: 0 <= i < |q| ==> r[if i < k then i else i + 1] == q[i]
    ensures r == q[..k] + [e] + q[k..]
  {
    var s := q[..k] + [e] + q[k..];
    forall j | 0 <= j < |r|
      ensures r[j] == s[j]
    {
      if j != k {
        var i := if j < k then j else j - 1;
        assert r[if i < k then i else i + 1] == q[i];
      }
    }
  }

  lemma EraseSpelled<T>(q: seq<T>, k: nat, r: seq<T>)
    requires k < |q| && |r| == |q| - 1 && forall i :: 0 <= i < |r| ==> r[i] == q[if i < k then i else i + 1]
    ensures r == q[..k] + q[k + 1..]
  {
  }

  class Driver {
    const tree: Tree<Fields>
    var clock: Timeval
    ghost var tasks: set<Task>
    ghost var stamps: map<Task, nat>
    ghost var next: nat

    ghost predicate Shape()
      reads this, tree, tasks, tree.repr
    {
      && tree.Valid()
      && tree.compare == Compare
      && !tree.hasDelete
      && tree.repr <= tasks && tasks == stamps.Keys
      && (forall t :: t in tasks ==> (t.data.scheduled <==> t in tree.repr))
      && (forall t, u :: t in tasks && u in tasks && t.data.id == u.data.id ==> t == u)
    }

    ghost function Queue(): (q: seq<Entry<Task>>)
      requires Shape()
      reads this, tree, tasks, tree.repr
      ensures |q| == |tree.contents|
      ensures forall i :: 0 <= i < |q| ==>
        q[i] == Entry(tree.contents[i], tree.contents[i].data.tv, stamps[tree.contents[i]])
    {
      seq(|tree.contents|, i requires 0 <= i < |tree.contents| && Shape() reads this, tree, tasks, tree.repr =>
        Entry(tree.contents[i], tree.contents[i].data.tv, stamps[tree.contents[i]]))
    }

    ghost predicate Valid()
      reads this, tree, tasks, tree.repr
    {
      Shape() && Good(Queue(), next)
    }

    constructor (now: Timeval)
      ensures Valid() && Queue() == [] && tasks == {} && clock == now && fresh(tree)
    {
      tree := new Tree(Compare, false);
      clock := now;
      tasks, stamps, next := {}, map[], 0;
    }

    /** rn_task; `id` stands for the address of the new task. */
    method Create(id: nat) returns (t: Task)
      requires Valid() && forall u :: u in tasks ==> u.data.id != id
      modifies this`tasks, this`stamps
      ensures Valid() && fresh(t) && t.data == Fields(id, false, ZERO) && tasks == old(tasks) + {t}
      ensures Queue() == old(Queue())
    {
      ghost var q := Queue();
      t := new Node(Fields(id, false, ZERO));
      tasks, stamps := tasks + {t}, stamps[t := 0];
      assert Queue() == q;
    }

    method TakeOut(t: Task)
      requires tree.Valid() && t in tree.repr
      modifies tree, tree.repr
      ensures tree.Valid() && tree.repr == old(tree.repr) - {t} && 0 <= old(t.pos) < |old(tree.contents)|
      ensures tree.contents == old(tree.contents)[..old(t.pos)] + old(tree.contents)[old(t.pos) + 1..]
      ensures t.data == old(t.data).(scheduled := false)
      ensures forall u :: u in old(tree.repr) && u != t ==> u.data == old(u.data)
    {
      var _ := tree.Remove(t);
      t.data := t.data.(scheduled := false);
    }

    /** The tree part of rn_task_schedule and rn_task_unschedule for a queued task. */
    method Dequeue(t: Task)
      requires Valid() && t in tree.repr
      modifies tree, tree.repr
      ensures Valid() && tree.repr == old(tree.repr) - {t}
      ensures !t.data.scheduled && t.data.id == old(t.data.id)
      ensures forall u :: u in tasks && u != t ==> u.data == old(u.data)
      ensures Queue() == Erase(old(Queue()), t)
    {
      ghost var q := Queue();
      assert tree.Linked(t);
      ghost var k := t.pos;
      TakeOut(t);
      Remaining(t, q, k);
    }

    lemma Remaining(t: Task, q: seq<Entry<Task>>, k: nat)
      requires Shape() && Good(q, next) && k < |q| == |tree.contents| + 1 && q[k].task == t
      requires forall i :: 0 <= i < |tree.contents| ==>
        var n := tree.contents[i]; q[if i < k then i else i + 1] == Entry(n, n.data.tv, stamps[n])
      ensures Valid() && Queue() == Erase(q, t)
    {
      EraseAt(q, t, k);
      ErasedIsGood(q, next, t);
      EraseSpelled(q, k, Queue());
    }

    lemma DeadlinesCut(f: Fields)
      requires Valid() && forall n :: n in tree.repr ==> n.data.id != f.id
      ensures tree.Cuts(f)
    {
      ghost var q := Queue();
      forall i, j | 0 <= i < j < |tree.contents| && Compare(f, tree.contents[j].data) >= 0
        ensures Compare(f, tree.contents[i].data) > 0
      {
        assert Before(q[i], q[j]);
      }
    }

    method Place(t: Task) returns (ghost k: nat)
      requires Valid() && t in tasks && t !in tree.repr
      modifies tree, tree.repr, t
      ensures tree.Valid() && tree.repr == old(tree.repr) + {t} && k <= |old(tree.contents)|
      ensures tree.contents == old(tree.contents)[..k] + [t] + old(tree.contents)[k..]
      ensures forall i :: 0 <= i < k ==> !Less(t.data.tv, old(tree.contents[i].data.tv))
      ensures forall i :: k <= i < |old(tree.contents)| ==> Less(t.data.tv, old(tree.contents[i].data.tv))
      ensures forall u :: u in tasks ==> u.data == old(u.data)
    {
      DeadlinesCut(t.data);
      var r;
      r, k := tree.Put(t);
    }

    method PutIn(t: Task) returns (ghost k: nat)
      requires Valid() && t in tasks && t !in tree.repr
      modifies tree, tree.repr, t
      ensures tree.Valid() && tree.repr == old(tree.repr) + {t} && k <= |old(tree.contents)|
      ensures tree.contents == old(tree.contents)[..k] + [t] + old(tree.contents)[k..]
      ensures forall i :: 0 <= i < k ==> !Less(t.data.tv, old(tree.contents[i].data.tv))
      ensures forall i :: k <= i < |old(tree.contents)| ==> Less(t.data.tv, old(tree.contents[i].data.tv))
      ensures t.data == old(t.data).(scheduled := true) && forall u :: u in tasks && u != t ==> u.data == old(u.data)
    {
      k := Place(t);
      t.data := t.data.(scheduled := true);
    }

    ghost method Record(t: Task, q: seq<Entry<Task>>, k: nat)
      requires Shape() && t in tree.repr && t in tasks
      requires Good(q, next) && !Queued(q, t) && k <= |q| == |tree.contents| - 1
      requires forall i :: 0 <= i < k ==> !Less(t.data.tv, q[i].tv)
      requires forall i :: k <= i < |q| ==> Less(t.data.tv, q[i].tv)
      requires tree.contents[k] == t
      requires forall i :: 0 <= i < |q| ==>
        var n := tree.contents[if i < k then i else i + 1];
        n != t && q[i] == Entry(n, n.data.tv, stamps[n])
      modifies this`stamps, this`next
      ensures Valid() && next == old(next) + 1
      ensures Queue() == Insert(q, Entry(t, t.data.tv, old(next)))
    {
      ghost var e := Entry(t, t.data.tv, next);
      stamps := stamps[t := next];
      InsertAt(q, e, k);
      InsertedIsGood(q, next, t, t.data.tv);
      next := next + 1;
      forall i | 0 <= i < |q|
        ensures Queue()[if i < k then i else i + 1] == q[i]
      {
        var n := tree.contents[if i < k then i else i + 1];
        assert n != t && q[i] == Entry(n, n.data.tv, stamps[n]);
      }
      InsertSpelled(q, e, k, Queue());
    }

    /** The tree part of rn_task_schedule for a task that is not queued. */
    method Enqueue(t: Task, tv: Timeval)
      requires Valid() && t in tasks && t !in tree.repr
      modifies tree, tree.repr, t, this`stamps, this`next
      ensures Valid() && tree.repr == old(tree.repr) + {t} && next == old(next) + 1
      ensures t.data == old(t.data).(scheduled := true, tv := tv)
      ensures forall u :: u in tasks && u != t ==> u.data == old(u.data)
      ensures Queue() == Insert(old(Queue()), Entry(t, tv, old(next)))
    {
      ghost var q := Queue();
      SetDeadline(t, tv);
      ghost var k := PutIn(t);
      Record(t, q, k);
    }

    /** A deadline is changed only outside of the queue. */
    method SetDeadline(t: Task, tv: Timeval)
      requires Valid() && t in tasks && t !in tree.repr
      modifies t`data
      ensures Valid() && t.data == old(t.data).(tv := tv) && Queue() == old(Queue())
    {
      ghost var q := Queue();
      t.data := t.data.(tv := tv);
      assert Queue() == q;
    }

    /** rn_task_schedule; a null deadline is passed as `ZERO`. */
    method Schedule(t: Task, tv: Timeval) returns (r: int)
      requires Valid() && t in tasks
      modifies tree, tree.repr, t, this`stamps, this`next
      ensures Valid() && r == 0 && t.data == old(t.data).(scheduled := true, tv := tv)
      ensures forall u :: u in tasks && u != t ==> u.data == old(u.data)
      ensures Queue() == Insert(Erase(old(Queue()), t), Entry(t, tv, old(next))) && next == old(next) + 1
    {
      if t.data.scheduled {
        Dequeue(t);
      } else {
        NotQueued(t);
      }
      Enqueue(t, tv);
      r := 0;
    }

    /** rn_task_start: the new task is queued for at once, behind those that are. */
    method Start(id: nat) returns (t: Task)
      requires Valid() && forall u :: u in tasks ==> u.data.id != id
      modifies this`tasks, this`stamps, this`next, tree, tree.repr
      ensures Valid() && fresh(t) && t.data == Fields(id, true, ZERO) && tasks == old(tasks) + {t}
      ensures Queue() == Insert(old(Queue()), Entry(t, ZERO, old(next))) && next == old(next) + 1
    {
      t := Create(id);
      NotQueued(t);
      var _ := Schedule(t, ZERO);
    }

    lemma NotQueued(t: Task)
      requires Valid() && t in tasks && t !in tree.repr
      ensures Erase(Queue(), t) == Queue()
    {
      EraseAbsent(Queue(), t);
    }

    /** rn_task_unschedule */
    method Unschedule(t: Task)
      requires Valid() && t in tasks
      modifies tree, tree.repr
      ensures Valid() && t.data == (if old(t.data.scheduled) then Fields(old(t.data.id), false, ZERO) else old(t.data))
      ensures forall u :: u in tasks && u != t ==> u.data == old(u.data)
      ensures Queue() == Erase(old(Queue()), t)
    {
      if t.data.scheduled {
        Dequeue(t);
        SetDeadline(t, ZERO);
      } else {
        NotQueued(t);
      }
    }

    /** The scheduling half of rn_task_wait: the current task `t` will be due no earlier than `ms`
        milliseconds after the clock (at once when `ms` is zero). */
    method Wait(t: Task, ms: nat) returns (r: int)
      requires Valid() && t in tasks
      modifies tree, tree.repr, t, this`stamps, this`next
      ensures Valid() && r == 0 && t.data.scheduled
      ensures t.data.tv == if ms == 0 then ZERO else After(clock, ms)
      ensures ms != 0 ==> Micros(t.data.tv) == Micros(clock) + 1000 * ms
      ensures Normal(clock) ==> Normal(t.data.tv)
      ensures Queue() == Insert(Erase(old(Queue()), t), Entry(t, t.data.tv, old(next)))
    {
      if ms == 0 {
        r := Schedule(t, ZERO);
      } else {
        r := Schedule(t, After(clock, ms));
      }
    }

    method PerformOne(op: Op<Task>)
      requires Valid() && op.t in tasks
      modifies tree, tasks, this`stamps, this`next
      ensures Valid()
      ensures (Queue(), next) == Once(old(Queue()), old(next), op)
    {
      match op {
        case Schedule(t, tv) => var _ := Schedule(t, tv);
        case Unschedule(t) => Unschedule(t);
      }
    }

    /** What one resumed task does to the queue before it releases. */
    method Perform(ops: seq<Op<Task>>)
      requires Valid() && forall i :: 0 <= i < |ops| ==> ops[i].t in tasks
      modifies tree, tasks, this`stamps, this`next
      ensures Valid()
      ensures (Queue(), next) == Apply(old(Queue()), old(next), ops)
    {
      ghost var goal := Apply(Queue(), next, ops);
      assert ops[0..] == ops;
      var i := 0;
      while i < |ops|
        invariant 0 <= i <= |ops| && Valid()
        invariant goal == Apply(Queue(), next, ops[i..])
      {
        ApplyNext(Queue(), next, ops, i);
        PerformOne(ops[i]);
        i := i + 1;
      }
      assert ops[i..] == [];
    }

    /** One turn of the loop of rn_task_driver_run: the head leaves the queue and runs. */
    method Serve(ops: seq<Op<Task>>) returns (ghost e: Entry<Task>)
      requires Valid() && tree.head != null && forall i :: 0 <= i < |ops| ==> ops[i].t in tasks
      modifies tree, tasks, this`stamps, this`next
      ensures Valid() && old(Queue()) != [] && e == old(Queue())[0]
      ensures (Queue(), next) == Apply(old(Queue())[1..], old(next), ops)
    {
      ghost var q := Queue();
      e := q[0];
      Unschedule(tree.head);
      EraseAt(q, e.task, 0);
      assert q[..0] + q[1..] == q[1..];
      Perform(ops);
    }

    method RunLoop(script: seq<seq<Op<Task>>>)
      returns (r: int, complete: bool, ghost served: seq<Entry<Task>>)
      requires Valid()
      requires forall i, j :: 0 <= i < |script| && 0 <= j < |script[i]| ==> script[i][j].t in tasks
      modifies tree, tasks, this`stamps, this`next
      ensures Valid()
      ensures Drive(old(Queue()), old(next), clock, script) == Outcome(Queue(), next, served, complete)
      ensures complete ==> r == if Queue() == [] then -1 else Delay(Queue()[0].tv, clock)
    {
      ghost var goal := Drive(Queue(), next, clock, script);
      assert script[0..] == script;
      served := [];
      var i := 0;
      while true
        invariant 0 <= i <= |script| && Valid()
        invariant goal == Following(served, Drive(Queue(), next, clock, script[i..]))
        decreases |script| - i
      {
        ghost var q := Queue();
        ghost var o := DriveTurn(q, next, clock, script, i);
        if tree.head == null {
          return -1, true, served;
        }
        var tv := tree.head.data.tv;
        assert q[0].tv == tv;
        if !Due(tv, clock) {
          return Delay(tv, clock), true, served;
        }
        if i == |script| {
          return 0, false, served;
        }
        ghost var e := Serve(script[i]);
        FollowOne(served, e, Drive(Queue(), next, clock, script[i + 1..]));
        served := served + [e];
        i := i + 1;
      }
    }

    /** rn_task_driver_run. `complete` is false when `script` ends before the loop does. */
    method Run(script: seq<seq<Op<Task>>>) returns (r: int, complete: bool, ghost served: seq<Entry<Task>>)
      requires Valid()
      requires forall i, j :: 0 <= i < |script| && 0 <= j < |script[i]| ==> script[i][j].t in tasks
      modifies tree, tasks, this`stamps, this`next
      ensures Valid()
      ensures Drive(old(Queue()), old(next), clock, script) == Outcome(Queue(), next, served, complete)
      ensures forall i :: 0 <= i < |served| ==> Due(served[i].tv, clock)
      ensures complete ==> forall i :: 0 <= i < |Queue()| ==> Less(clock, Queue()[i].tv)
      ensures Normal(clock) ==> forall i, c, ms: nat {:trigger served[i], After(c, ms)} ::
        0 <= i < |served| && Normal(c) && served[i].tv == After(c, ms) ==> Micros(c) + 1000 * ms <= Micros(clock)
      ensures complete && Queue() == [] ==> r == -1
      ensures complete && Queue() != [] && Normal(clock) && Normal(Queue()[0].tv) ==>
        var ms := Ahead(Queue()[0].tv, clock);
        0 <= ms && (r == ms <==> ms <= INT_MAX) && (r == -1 <==> ms % 0x1_0000_0000 == 0xffff_ffff)
    {
      ghost var q, n := Queue(), next;
      DriveServes(q, n, clock, script);
      r, complete, served := RunLoop(script);
      forall i, c, ms: nat {:trigger served[i], After(c, ms)} | Normal(clock) && 0 <= i < |served| && Normal(c) && served[i].tv == After(c, ms)
        ensures Micros(c) + 1000 * ms <= Micros(clock)
      {
        NeverEarly(q, n, clock, script, c, ms, i);
      }
      if complete && Queue() != [] && Normal(clock) && Normal(Queue()[0].tv) {
        ToAhead(Queue()[0].tv, clock);
      }
    }
  }
}
