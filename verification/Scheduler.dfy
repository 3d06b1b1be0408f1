/** The bit fields of include/rinoo/scheduler/node.h: two bits each for REGISTERED, WAIT and RECV. */
module ModeBits {

  datatype Mode = In | Out

  datatype Field = Registered | Waiting | Received

  function Bit(f: Field, m: Mode): bv8 {
    match f
    case Registered => if m == In then 1 else 2
    case Waiting => if m == In then 4 else 8
    case Received => if m == In then 16 else 32
  }

  predicate Has(modes: bv8, f: Field, m: Mode) {
    modes & Bit(f, m) == Bit(f, m)
  }

  function Set(modes: bv8, f: Field, m: Mode): (r: bv8)
    ensures forall g, k :: Has(r, g, k) <==> (g == f && k == m) || Has(modes, g, k)
  {
    modes | Bit(f, m)
  }

  function Unset(modes: bv8, f: Field, m: Mode): (r: bv8)
    ensures forall g, k :: Has(r, g, k) <==> !(g == f && k == m) && Has(modes, g, k)
  {
    modes & !Bit(f, m)
  }

  predicate NoneRegistered(modes: bv8)
  {
    modes & 0x03 == 0
  }

  lemma NoneRegisteredMeans(modes: bv8)
    ensures NoneRegistered(modes) <==> !Has(modes, Registered, In) && !Has(modes, Registered, Out)
  {
  }
}

/** Waiting for an event on one node: src/scheduler/scheduler.c, cut where the task releases. */
module SchedNode {
  import opened Wrappers
  import opened ModeBits

  const ETIMEDOUT := 110
  const ECONNRESET := 104
  const ECANCELED := 125
  const EPERM := 1

  type Tid = nat

  datatype Result = Ok | Failed(error: int)

  /** `listed` tells whether the node is in the scheduler's list of nodes. */
  datatype Node = Node(error: int, task: Option<Tid>, modes: bv8, listed: bool)

  /** rn_scheduler_remove; `epollOk` is the outcome of the system call. */
  function Removed(n: Node, epollOk: bool): Node {
    if !n.listed then n
    else if !epollOk then n.(listed := false)
    else n.(listed := false, task := None)
  }

  /** rn_scheduler_waitfor up to its release (`None`) or its return without one. */
  function Begin(n: Node, t: Tid, m: Mode, epollOk: bool): (Node, Option<Result>) {
    if n.error != 0 then (Removed(n, epollOk), Some(Failed(n.error)))
    else if Has(n.modes, Received, m) then (n.(modes := Unset(n.modes, Received, m)), Some(Ok))
    else if !Has(n.modes, Registered, m) && !epollOk then (n, Some(Failed(EPERM)))
    else
      var listed := n.listed || NoneRegistered(n.modes);
      (n.(modes := Set(Set(n.modes, Registered, m), Waiting, m), task := Some(t), listed := listed), None)
  }

  /** The rest of rn_scheduler_waitfor, after the task has been resumed. */
  function End(n: Node, m: Mode, stop: bool, epollOk: bool): (Node, Result) {
    var n1 := n.(error := if stop && n.error == 0 then ECANCELED else n.error, task := None);
    if n1.error != 0 then (Removed(n1, epollOk), Failed(n1.error))
    else if !Has(n1.modes, Received, m) then (Removed(n1, epollOk), Failed(ETIMEDOUT))
    else (n1.(modes := Unset(Unset(n1.modes, Waiting, m), Received, m)), Ok)
  }

  /** rn_scheduler_wakeup for an event in mode `m`, or for an error (`None`). */
  function Delivered(n: Node, m: Option<Mode>, error: int): Node {
    n.(error := if n.error == 0 then error else n.error,
       modes := if m.Some? then Set(n.modes, Received, m.value) else n.modes)
  }

  /** Whether that wakeup resumes the task of the node. */
  predicate Resumes(n: Node, m: Option<Mode>) {
    n.task.Some? && (m.None? || Has(n.modes, Waiting, m.value) || n.error != 0)
  }

  class Sched {
    var nbpending: int
    var stop: bool

    constructor ()
      ensures nbpending == 0 && !stop
    {
      nbpending, stop := 0, false;
    }
  }

  /** The node as the source updates it. Each method is one stretch of code without a task switch. */
  class Monitor {
    var error: int
    var task: Option<Tid>
    var modes: bv8
    var listed: bool

    function Value(): Node
      reads this
    {
      Node(error, task, modes, listed)
    }

    constructor ()
      ensures Value() == Node(0, None, 0, false)
    {
      error, task, modes, listed := 0, None, 0, false;
    }

    method Remove(epollOk: bool) returns (r: int)
      modifies this
      ensures Value() == Removed(old(Value()), epollOk)
      ensures r == if old(listed) && epollOk then 0 else -1
    {
      if !listed {
        return -1;
      }
      listed := false;
      if !epollOk {
        return -1;
      }
      task := None;
      r := 0;
    }

    method WaitforBegin(sched: Sched, current: Tid, m: Mode, epollOk: bool) returns (r: Option<Result>)
      modifies this, sched`nbpending
      ensures (Value(), r) == Begin(old(Value()), current, m, epollOk)
      ensures sched.nbpending == old(sched.nbpending) + if r.None? then 1 else 0
    {
      if error != 0 {
        var e := error;
        var _ := Remove(epollOk);
        return Some(Failed(e));
      }
      if Has(modes, Received, m) {
        modes := Unset(modes, Received, m);
        return Some(Ok);
      }
      if !Has(modes, Registered, m) {
        if !epollOk {
          return Some(Failed(EPERM));
        }
        if NoneRegistered(modes) {
          listed := true;
        }
        modes := Set(modes, Registered, m);
      }
      modes := Set(modes, Waiting, m);
      task := Some(current);
      sched.nbpending := sched.nbpending + 1;
      r := None;
    }

    method WaitforEnd(sched: Sched, m: Mode, epollOk: bool) returns (r: Result)
      modifies this, sched`nbpending
      ensures (Value(), r) == End(old(Value()), m, sched.stop, epollOk)
      ensures sched.nbpending == old(sched.nbpending) - 1
    {
      if sched.stop && error == 0 {
        error := ECANCELED;
      }
      sched.nbpending := sched.nbpending - 1;
      task := None;
      if error != 0 {
        var e := error;
        var _ := Remove(epollOk);
        return Failed(e);
      }
      if !Has(modes, Received, m) {
        var _ := Remove(epollOk);
        return Failed(ETIMEDOUT);
      }
      modes := Unset(modes, Waiting, m);
      modes := Unset(modes, Received, m);
      r := Ok;
    }

    /** rn_scheduler_wakeup; the result is the task to resume. */
    method Wakeup(m: Option<Mode>, err: int) returns (resume: Option<Tid>)
      modifies this
      ensures Value() == Delivered(old(Value()), m, err)
      ensures resume == if Resumes(Value(), m) then task else None
    {
      if error == 0 {
        error := err;
      }
      if m.Some? {
        modes := Set(modes, Received, m.value);
      }
      if task.None? {
        return None;
      }
      resume := None;
      if m.None? || Has(modes, Waiting, m.value) || error != 0 {
        resume := task;
      }
    }
  }
}

/** Coroutines, the run queue, nodes and events, in any interleaving. */
module Scheduler {
  import opened Wrappers
  import opened ModeBits
  import opened SchedNode

  type Nid = nat

  /** `Away` tasks run, or have released without waiting for a node. */
  datatype Status = Away | InWait(node: Nid, mode: Mode) | Gone

  datatype Via = AtOnce | FromQueue | FromEvent

  /** History: every wakeup of a node, and every return of a waitfor. */
  datatype Event =
    | Wakeup(node: Nid, event: Option<Mode>, error: int)
    | Return(node: Nid, mode: Mode, result: Result, via: Via)

  datatype World = World(
    nodes: map<Nid, Node>, tasks: map<Tid, Status>, queue: set<Tid>, current: Option<Tid>,
    nbpending: int, stop: bool, log: seq<Event>)

  datatype Step =
    | Start(t: Tid)
    | Open(n: Nid)
    | Schedule(t: Tid)
    | Unschedule(t: Tid)
    | WaitFor(t: Tid, n: Nid, m: Mode, epollOk: bool)
    | Remove(t: Tid, n: Nid, epollOk: bool)
    | Release
    | Finish(t: Tid)
    | RunQueued(t: Tid, epollOk: bool)
    | Poll(n: Nid, event: Option<Mode>, error: int, epollOk: bool)
    | Stop

  ghost predicate Enabled(w: World, s: Step) {
    match s
    case Start(t) => t !in w.tasks
    case Open(n) => n !in w.nodes
    case Schedule(t) => t in w.tasks && w.tasks[t] != Gone
    case Unschedule(t) => t in w.tasks
    case WaitFor(t, n, _, _) => w.current == Some(t) && t in w.tasks && w.tasks[t] == Away && n in w.nodes
    case Remove(t, n, _) => w.current == Some(t) && n in w.nodes
    case Release => w.current.Some?
    case Finish(t) => w.current == Some(t) && t in w.tasks && w.tasks[t] == Away
    case RunQueued(t, _) => w.current == None && t in w.queue && t in w.tasks && w.tasks[t] != Gone
    case Poll(n, m, e, _) => w.current == None && n in w.nodes && e == if m.None? then ECONNRESET else 0
    case Stop => true
  }

  /** A suspended task is resumed and comes out of its waitfor. */
  function Resume(w: World, t: Tid, via: Via, epollOk: bool): World
    requires t in w.tasks && (w.tasks[t].InWait? ==> w.tasks[t].node in w.nodes)
  {
    match w.tasks[t]
    case InWait(n, m) =>
      var (nd, r) := End(w.nodes[n], m, w.stop, epollOk);
      w.(current := Some(t), tasks := w.tasks[t := Away], nodes := w.nodes[n := nd],
         nbpending := w.nbpending - 1, log := w.log + [Return(n, m, r, via)])
    case _ => w.(current := Some(t))
  }

  ghost predicate NodesKnown(w: World) {
    && (forall t :: t in w.tasks && w.tasks[t].InWait? ==> w.tasks[t].node in w.nodes)
    && (forall n :: n in w.nodes && w.nodes[n].task.Some? ==> w.nodes[n].task.value in w.tasks)
  }

  ghost function Next(w: World, s: Step): World
    requires Enabled(w, s) && NodesKnown(w)
  {
    match s
    case Start(t) => w.(tasks := w.tasks[t := Away], queue := w.queue + {t})
    case Open(n) => w.(nodes := w.nodes[n := Node(0, None, 0, false)])
    case Schedule(t) => w.(queue := w.queue + {t})
    case Unschedule(t) => w.(queue := w.queue - {t})
    case WaitFor(t, n, m, epollOk) =>
      var (nd, r) := Begin(w.nodes[n], t, m, epollOk);
      var w1 := w.(nodes := w.nodes[n := nd]);
      if r.Some? then w1.(log := w.log + [Return(n, m, r.value, AtOnce)])
      else w1.(tasks := w.tasks[t := InWait(n, m)], nbpending := w.nbpending + 1, current := None)
    case Remove(t, n, epollOk) => w.(nodes := w.nodes[n := Removed(w.nodes[n], epollOk)])
    case Release => w.(current := None)
    case Finish(t) => w.(tasks := w.tasks[t := Gone], queue := w.queue - {t}, current := None)
    case RunQueued(t, epollOk) => Resume(w.(queue := w.queue - {t}), t, FromQueue, epollOk)
    case Poll(n, m, e, epollOk) =>
      var nd := Delivered(w.nodes[n], m, e);
      var w1 := w.(nodes := w.nodes[n := nd], log := w.log + [Wakeup(n, m, e)]);
      if Resumes(nd, m) then Resume(w1, nd.task.value, FromEvent, epollOk) else w1
    case Stop => w.(stop := true)
  }

  // ---- runs ----

  const INITIAL := World(map[], map[], {}, None, 0, false, [])

  lemma ResumeKnowsNodes(w: World, t: Tid, via: Via, epollOk: bool)
    requires NodesKnown(w) && t in w.tasks
    ensures NodesKnown(Resume(w, t, via, epollOk))
  {
  }

  lemma WaitKnowsNodes(w: World, s: Step)
    requires NodesKnown(w) && s.WaitFor? && Enabled(w, s)
    ensures NodesKnown(Next(w, s))
  {
  }

  lemma PollKnowsNodes(w: World, s: Step)
    requires NodesKnown(w) && s.Poll? && Enabled(w, s)
    ensures NodesKnown(Next(w, s))
  {
    var Poll(n, m, e, epollOk) := s;
    var nd := Delivered(w.nodes[n], m, e);
    var w1 := w.(nodes := w.nodes[n := nd], log := w.log + [Wakeup(n, m, e)]);
    if Resumes(nd, m) { ResumeKnowsNodes(w1, nd.task.value, FromEvent, epollOk); }
  }

  lemma NextKnowsNodes(w: World, s: Step)
    requires NodesKnown(w) && Enabled(w, s)
    ensures NodesKnown(Next(w, s))
  {
    match s
    case RunQueued(t, epollOk) => ResumeKnowsNodes(w.(queue := w.queue - {t}), t, FromQueue, epollOk);
    case Poll(_, _, _, _) => PollKnowsNodes(w, s);
    case WaitFor(_, _, _, _) => WaitKnowsNodes(w, s);
    case _ =>
  }

  ghost predicate Legal(run: seq<Step>)
    decreases |run|, 0
  {
    run == [] || (Legal(run[..|run| - 1]) && Enabled(After(run[..|run| - 1]), run[|run| - 1]))
  }

  ghost function After(run: seq<Step>): (w: World)
    requires Legal(run)
    ensures NodesKnown(w)
    decreases |run|, 1
  {
    if run == [] then INITIAL
    else
      var v := After(run[..|run| - 1]);
      NextKnowsNodes(v, run[|run| - 1]);
      Next(v, run[|run| - 1])
  }

  // ---- quiescence ----

  ghost function Suspended(w: World): set<Tid> {
    set t | t in w.tasks && w.tasks[t].InWait?
  }

  ghost predicate Counted(w: World) {
    && w.nbpending == |Suspended(w)|
    && w.queue <= w.tasks.Keys
  }

  lemma ResumeCounts(w: World, t: Tid, via: Via, epollOk: bool)
    requires Counted(w) && NodesKnown(w) && t in w.tasks
    ensures Counted(Resume(w, t, via, epollOk))
  {
    var v := Resume(w, t, via, epollOk);
    assert Suspended(v) == Suspended(w) - {t};
  }

  lemma PollCounts(w: World, n: Nid, m: Option<Mode>, e: int, epollOk: bool)
    requires Counted(w) && NodesKnown(w) && Enabled(w, Poll(n, m, e, epollOk))
    ensures Counted(Next(w, Poll(n, m, e, epollOk)))
  {
    var nd := Delivered(w.nodes[n], m, e);
    var w1 := w.(nodes := w.nodes[n := nd], log := w.log + [Wakeup(n, m, e)]);
    assert Suspended(w1) == Suspended(w);
    if Resumes(nd, m) { ResumeCounts(w1, nd.task.value, FromEvent, epollOk); }
  }

  lemma WaitCounts(w: World, t: Tid, n: Nid, m: Mode, epollOk: bool)
    requires Counted(w) && NodesKnown(w) && Enabled(w, WaitFor(t, n, m, epollOk))
    ensures Counted(Next(w, WaitFor(t, n, m, epollOk)))
  {
    var v := Next(w, WaitFor(t, n, m, epollOk));
    if Begin(w.nodes[n], t, m, epollOk).1.None? {
      assert Suspended(v) == Suspended(w) + {t};
    } else {
      assert Suspended(v) == Suspended(w);
    }
  }

  lemma StepCounts(w: World, s: Step)
    requires Counted(w) && NodesKnown(w) && Enabled(w, s)
    ensures Counted(Next(w, s))
  {
    match s
    case RunQueued(t, epollOk) =>
      var w1 := w.(queue := w.queue - {t});
      assert Suspended(w1) == Suspended(w);
      ResumeCounts(w1, t, FromQueue, epollOk);
    case Poll(n, m, e, epollOk) => PollCounts(w, n, m, e, epollOk);
    case WaitFor(t, n, m, epollOk) => WaitCounts(w, t, n, m, epollOk);
    case _ =>
      assert Suspended(Next(w, s)) == Suspended(w);
  }

  lemma {:induction false} PendingIsSuspended(run: seq<Step>)
    requires Legal(run)
    ensures Counted(After(run))
    decreases |run|
  {
    if run == [] {
      assert Suspended(INITIAL) == {};
    } else {
      PendingIsSuspended(run[..|run| - 1]);
      StepCounts(After(run[..|run| - 1]), run[|run| - 1]);
    }
  }

  /** rn_sched_end */
  ghost predicate Ended(w: World) {
    w.stop || (w.nbpending == 0 && |w.queue| == 0)
  }

  /** Without a stop request the main loop ends only when no task is queued and none is
      suspended on a node. */
  lemma LoopEndsWhenQuiet(run: seq<Step>)
    requires Legal(run) && !After(run).stop
    ensures Ended(After(run)) <==>
      After(run).queue == {} && forall t :: t in After(run).tasks ==> !After(run).tasks[t].InWait?
  {
    PendingIsSuspended(run);
    var w := After(run);
    if Suspended(w) == {} {
      forall t | t in w.tasks
        ensures !w.tasks[t].InWait?
      {
        assert t !in Suspended(w);
      }
    } else {
      var t :| t in Suspended(w);
      assert w.tasks[t].InWait?;
    }
  }

  // ---- event matching ----

  ghost predicate IsDelivery(e: Event, n: Nid, m: Mode) {
    e.Wakeup? && e.node == n && e.event == Some(m)
  }

  ghost predicate IsSuccess(e: Event, n: Nid, m: Mode) {
    e.Return? && e.node == n && e.mode == m && e.result == Ok
  }

  /** `log[i]` is a delivery of `m` to `n` that no later waitfor in the log has consumed. */
  ghost predicate Unconsumed(log: seq<Event>, i: int, n: Nid, m: Mode) {
    && 0 <= i < |log| && IsDelivery(log[i], n, m)
    && forall k :: i < k < |log| ==> !IsSuccess(log[k], n, m)
  }

  ghost predicate Pending(log: seq<Event>, n: Nid, m: Mode) {
    exists i :: Unconsumed(log, i, n, m)
  }

  lemma PendingAfter(log: seq<Event>, e: Event, n: Nid, m: Mode)
    ensures Pending(log + [e], n, m) <==>
      if IsDelivery(e, n, m) then true else if IsSuccess(e, n, m) then false else Pending(log, n, m)
  {
    var l := log + [e];
    if IsDelivery(e, n, m) {
      assert Unconsumed(l, |log|, n, m);
    } else if !IsSuccess(e, n, m) {
      if Pending(log, n, m) {
        var i :| Unconsumed(log, i, n, m);
        assert Unconsumed(l, i, n, m);
      }
      if Pending(l, n, m) {
        var i :| Unconsumed(l, i, n, m);
        assert Unconsumed(log, i, n, m) by {
          assert forall k :: 0 <= k < |log| ==> l[k] == log[k];
        }
      }
    } else {
      assert l[|log|] == e;
    }
  }

  /** RECV of a node says exactly that a delivery awaits consumption. */
  ghost predicate BitsTellLog(w: World, n: Nid, m: Mode) {
    Pending(w.log, n, m) <==> n in w.nodes && Has(w.nodes[n].modes, Received, m)
  }

  /** What the end of a waitfor does to the RECV bits. */
  lemma EndBits(nd: Node, k: Mode, stop: bool, epollOk: bool, m: Mode)
    ensures var (v, r) := End(nd, k, stop, epollOk);
      (k == m && r == Ok ==> !Has(v.modes, Received, m)) &&
      (!(k == m && r == Ok) ==> (Has(v.modes, Received, m) <==> Has(nd.modes, Received, m)))
  {
  }

  lemma ResumeTellsLog(w: World, t: Tid, via: Via, epollOk: bool, n: Nid, m: Mode)
    requires NodesKnown(w) && t in w.tasks && BitsTellLog(w, n, m)
    ensures BitsTellLog(Resume(w, t, via, epollOk), n, m)
  {
    if w.tasks[t].InWait? {
      var (x, k) := (w.tasks[t].node, w.tasks[t].mode);
      PendingAfter(w.log, Return(x, k, End(w.nodes[x], k, w.stop, epollOk).1, via), n, m);
      EndBits(w.nodes[x], k, w.stop, epollOk, m);
    }
  }

  lemma PollTellsLog(w: World, s: Step, n: Nid, m: Mode)
    requires NodesKnown(w) && s.Poll? && Enabled(w, s) && BitsTellLog(w, n, m)
    ensures BitsTellLog(Next(w, s), n, m)
  {
    var Poll(x, k, e, epollOk) := s;
    var nd := Delivered(w.nodes[x], k, e);
    var w1 := w.(nodes := w.nodes[x := nd], log := w.log + [Wakeup(x, k, e)]);
    PendingAfter(w.log, Wakeup(x, k, e), n, m);
    if Resumes(nd, k) { ResumeTellsLog(w1, nd.task.value, FromEvent, epollOk, n, m); }
  }

  lemma WaitTellsLog(w: World, s: Step, n: Nid, m: Mode)
    requires NodesKnown(w) && s.WaitFor? && Enabled(w, s) && BitsTellLog(w, n, m)
    ensures BitsTellLog(Next(w, s), n, m)
  {
    var r := Begin(w.nodes[s.n], s.t, s.m, s.epollOk).1;
    if r.Some? { PendingAfter(w.log, Return(s.n, s.m, r.value, AtOnce), n, m); }
  }

  lemma StepTellsLog(w: World, s: Step, n: Nid, m: Mode)
    requires NodesKnown(w) && Enabled(w, s) && BitsTellLog(w, n, m)
    ensures BitsTellLog(Next(w, s), n, m)
  {
    match s
    case RunQueued(t, epollOk) => ResumeTellsLog(w.(queue := w.queue - {t}), t, FromQueue, epollOk, n, m);
    case Poll(_, _, _, _) => PollTellsLog(w, s, n, m);
    case WaitFor(_, _, _, _) => WaitTellsLog(w, s, n, m);
    case _ =>
  }

  lemma {:induction false} ReceivedMeansUnconsumed(run: seq<Step>, n: Nid, m: Mode)
    requires Legal(run)
    ensures BitsTellLog(After(run), n, m)
    decreases |run|
  {
    if run != [] {
      ReceivedMeansUnconsumed(run[..|run| - 1], n, m);
      StepTellsLog(After(run[..|run| - 1]), run[|run| - 1], n, m);
    }
  }

  /** Every success in the log had a delivery waiting for it. */
  ghost predicate Matched(log: seq<Event>) {
    forall j :: 0 <= j < |log| && log[j].Return? && log[j].result == Ok ==>
      Pending(log[..j], log[j].node, log[j].mode)
  }

  lemma MatchedAfter(log: seq<Event>, e: Event)
    requires Matched(log)
    requires e.Return? && e.result == Ok ==> Pending(log, e.node, e.mode)
    ensures Matched(log + [e])
  {
    var l := log + [e];
    forall j | 0 <= j < |l| && l[j].Return? && l[j].result == Ok
      ensures Pending(l[..j], l[j].node, l[j].mode)
    {
      assert l[..j] == if j < |log| then log[..j] else log;
    }
  }

  lemma ResumeMatches(w: World, t: Tid, via: Via, epollOk: bool)
    requires NodesKnown(w) && t in w.tasks && Matched(w.log)
    requires w.tasks[t].InWait? ==> BitsTellLog(w, w.tasks[t].node, w.tasks[t].mode)
    ensures Matched(Resume(w, t, via, epollOk).log)
  {
    if w.tasks[t].InWait? {
      var (x, k) := (w.tasks[t].node, w.tasks[t].mode);
      MatchedAfter(w.log, Return(x, k, End(w.nodes[x], k, w.stop, epollOk).1, via));
    }
  }

  lemma StepMatches(w: World, s: Step)
    requires NodesKnown(w) && Enabled(w, s) && Matched(w.log)
    requires forall n, m :: BitsTellLog(w, n, m)
    ensures Matched(Next(w, s).log)
  {
    match s
    case RunQueued(t, epollOk) =>
      var w1 := w.(queue := w.queue - {t});
      if w.tasks[t].InWait? {
        assert BitsTellLog(w, w.tasks[t].node, w.tasks[t].mode);
      }
      ResumeMatches(w1, t, FromQueue, epollOk);
    case Poll(x, k, e, epollOk) =>
      var nd := Delivered(w.nodes[x], k, e);
      var w1 := w.(nodes := w.nodes[x := nd], log := w.log + [Wakeup(x, k, e)]);
      MatchedAfter(w.log, Wakeup(x, k, e));
      if Resumes(nd, k) {
        var t := nd.task.value;
        if w.tasks[t].InWait? {
          var (n, m) := (w.tasks[t].node, w.tasks[t].mode);
          assert BitsTellLog(w, n, m);
          PendingAfter(w.log, Wakeup(x, k, e), n, m);
        }
        ResumeMatches(w1, t, FromEvent, epollOk);
      }
    case WaitFor(t, x, k, epollOk) =>
      var r := Begin(w.nodes[x], t, k, epollOk).1;
      assert BitsTellLog(w, x, k);
      if r.Some? { MatchedAfter(w.log, Return(x, k, r.value, AtOnce)); }
    case _ =>
  }

  lemma {:induction false} RunMatches(run: seq<Step>)
    requires Legal(run)
    ensures Matched(After(run).log)
    decreases |run|
  {
    if run != [] {
      var before := run[..|run| - 1];
      RunMatches(before);
      forall n, m
        ensures BitsTellLog(After(before), n, m)
      {
        ReceivedMeansUnconsumed(before, n, m);
      }
      StepMatches(After(before), run[|run| - 1]);
    }
  }

  /** Each successful waitfor has its own delivery: one made earlier, and after every earlier
      success for the same node and mode. */
  lemma SuccessHasOwnDelivery(run: seq<Step>, j: nat, n: Nid, m: Mode) returns (i: nat)
    requires Legal(run) && j < |After(run).log| && IsSuccess(After(run).log[j], n, m)
    ensures i < j && IsDelivery(After(run).log[i], n, m)
    ensures forall k :: i < k < j ==> !IsSuccess(After(run).log[k], n, m)
  {
    RunMatches(run);
    var log := After(run).log;
    assert Pending(log[..j], n, m);
    i :| Unconsumed(log[..j], i, n, m);
    forall k | i < k < j
      ensures !IsSuccess(log[k], n, m)
    {
      assert log[..j][k] == log[k];
    }
  }

  /** A delivery nobody has consumed makes the next waitfor return at once, without releasing. */
  lemma PendingReturnsAtOnce(run: seq<Step>, t: Tid, n: Nid, m: Mode, epollOk: bool)
    requires Legal(run) && Enabled(After(run), WaitFor(t, n, m, epollOk))
    requires Pending(After(run).log, n, m) && After(run).nodes[n].error == 0
    ensures var w := Next(After(run), WaitFor(t, n, m, epollOk));
      w.current == Some(t) && w.tasks[t] == Away && w.log == After(run).log + [Return(n, m, Ok, AtOnce)]
  {
    ReceivedMeansUnconsumed(run, n, m);
  }

  // ---- errors are final ----

  ghost predicate NoSuccessFrom(log: seq<Event>, k: nat, n: Nid) {
    forall j :: k <= j < |log| && log[j].Return? && log[j].node == n ==> log[j].result != Ok
  }

  /** `n` still has an error in `v`, and no success has been logged since `w`. */
  ghost predicate StillBad(w: World, v: World, n: Nid) {
    n in v.nodes && v.nodes[n].error != 0 && w.log <= v.log && NoSuccessFrom(v.log, |w.log|, n)
  }

  lemma ResumeKeepsError(w: World, t: Tid, via: Via, epollOk: bool, n: Nid)
    requires NodesKnown(w) && t in w.tasks && n in w.nodes && w.nodes[n].error != 0
    ensures StillBad(w, Resume(w, t, via, epollOk), n)
  {
  }

  lemma PollKeepsError(w: World, s: Step, n: Nid)
    requires NodesKnown(w) && s.Poll? && Enabled(w, s) && n in w.nodes && w.nodes[n].error != 0
    ensures StillBad(w, Next(w, s), n)
  {
    var Poll(x, m, e, epollOk) := s;
    var nd := Delivered(w.nodes[x], m, e);
    var w1 := w.(nodes := w.nodes[x := nd], log := w.log + [Wakeup(x, m, e)]);
    if Resumes(nd, m) { ResumeKeepsError(w1, nd.task.value, FromEvent, epollOk, n); }
  }

  lemma StepKeepsError(w: World, s: Step, n: Nid)
    requires NodesKnown(w) && Enabled(w, s) && n in w.nodes && w.nodes[n].error != 0
    ensures StillBad(w, Next(w, s), n)
  {
    match s
    case RunQueued(t, epollOk) => ResumeKeepsError(w.(queue := w.queue - {t}), t, FromQueue, epollOk, n);
    case Poll(_, _, _, _) => PollKeepsError(w, s, n);
    case _ =>
  }

  lemma {:induction false} PrefixIsLegal(run: seq<Step>, k: nat)
    requires Legal(run) && k <= |run|
    ensures Legal(run[..k])
    decreases |run|
  {
    if k < |run| {
      PrefixIsLegal(run[..|run| - 1], k);
      assert run[..|run| - 1][..k] == run[..k];
    } else {
      assert run[..k] == run;
    }
  }

  /** Once a node has an error, no waitfor on it succeeds any more. */
  lemma {:induction false} ErrorIsFinal(run: seq<Step>, k: nat, n: Nid)
    requires Legal(run) && k <= |run| && Legal(run[..k])
    requires n in After(run[..k]).nodes && After(run[..k]).nodes[n].error != 0
    ensures n in After(run).nodes && After(run).nodes[n].error != 0
    ensures After(run[..k]).log <= After(run).log && NoSuccessFrom(After(run).log, |After(run[..k]).log|, n)
    decreases |run|
  {
    if k == |run| {
      assert run[..k] == run;
    } else {
      var before := run[..|run| - 1];
      assert before[..k] == run[..k];
      ErrorIsFinal(before, k, n);
      StepKeepsError(After(before), run[|run| - 1], n);
    }
  }

  // ---- timeouts ----

  /** A node points at a task only while that task waits for it. */
  ghost predicate Sane(w: World) {
    && (forall x :: x in w.nodes && w.nodes[x].task.Some? ==>
          var u := w.nodes[x].task.value;
          u in w.tasks && w.tasks[u].InWait? && w.tasks[u].node == x)
    && (forall x :: x in w.nodes ==> w.nodes[x].error in {0, ECONNRESET, ECANCELED})
  }

  /** The WAIT bits of `n` say what `t`, its only user, waits for. */
  ghost predicate Tidy(w: World, n: Nid, t: Tid) {
    && (n in w.nodes ==> forall m :: Has(w.nodes[n].modes, Waiting, m) <==> t in w.tasks && w.tasks[t] == InWait(n, m))
    && (forall u :: u in w.tasks && w.tasks[u].InWait? && w.tasks[u].node == n ==> u == t)
  }

  ghost predicate NoFailure(log: seq<Event>, n: Nid) {
    forall j :: 0 <= j < |log| && log[j].Return? && log[j].node == n ==> log[j].result == Ok
  }

  ghost predicate IsTimeout(e: Event, n: Nid) {
    e.Return? && e.node == n && e.result == Failed(ETIMEDOUT)
  }

  ghost predicate FirstTimeoutQueued(log: seq<Event>, n: Nid) {
    forall j :: 0 <= j < |log| && IsTimeout(log[j], n) && NoFailure(log[..j], n) ==> log[j].via == FromQueue
  }

  lemma TimeoutAfter(log: seq<Event>, e: Event, n: Nid)
    requires FirstTimeoutQueued(log, n)
    requires IsTimeout(e, n) && NoFailure(log, n) ==> e.via == FromQueue
    ensures FirstTimeoutQueued(log + [e], n)
    ensures NoFailure(log + [e], n) ==> NoFailure(log, n)
  {
    var l := log + [e];
    forall j | 0 <= j < |l| && IsTimeout(l[j], n) && NoFailure(l[..j], n)
      ensures l[j].via == FromQueue
    {
      assert l[..j] == if j < |log| then log[..j] else log;
    }
    if NoFailure(l, n) {
      assert forall j :: 0 <= j < |log| ==> l[j] == log[j];
    }
  }

  ghost predicate TimeoutInv(w: World, n: Nid, t: Tid) {
    Sane(w) && FirstTimeoutQueued(w.log, n) && (NoFailure(w.log, n) ==> Tidy(w, n, t))
  }

  lemma ResumeKeepsTimeoutInv(w: World, u: Tid, via: Via, epollOk: bool, n: Nid, t: Tid)
    requires NodesKnown(w) && u in w.tasks && TimeoutInv(w, n, t) && via != AtOnce
    requires w.tasks[u].InWait? && w.tasks[u].node == n && via == FromEvent && NoFailure(w.log, n) ==>
      Has(w.nodes[n].modes, Received, w.tasks[u].mode) || w.nodes[n].error != 0
    ensures TimeoutInv(Resume(w, u, via, epollOk), n, t)
  {
    if w.tasks[u].InWait? {
      var (x, k) := (w.tasks[u].node, w.tasks[u].mode);
      var e := Return(x, k, End(w.nodes[x], k, w.stop, epollOk).1, via);
      TimeoutAfter(w.log, e, n);
      if NoFailure(w.log + [e], n) {
        assert (w.log + [e])[|w.log|] == e;
      }
    }
  }

  lemma PollKeepsTimeoutInv(w: World, s: Step, n: Nid, t: Tid)
    requires NodesKnown(w) && s.Poll? && Enabled(w, s) && TimeoutInv(w, n, t)
    ensures TimeoutInv(Next(w, s), n, t)
  {
    var Poll(x, k, e, epollOk) := s;
    var nd := Delivered(w.nodes[x], k, e);
    var w1 := w.(nodes := w.nodes[x := nd], log := w.log + [Wakeup(x, k, e)]);
    TimeoutAfter(w.log, Wakeup(x, k, e), n);
    assert TimeoutInv(w1, n, t);
    if Resumes(nd, k) {
      assert NoFailure(w1.log, n) ==> NoFailure(w.log, n);
      ResumeKeepsTimeoutInv(w1, nd.task.value, FromEvent, epollOk, n, t);
    }
  }

  lemma WaitKeepsTimeoutInv(w: World, s: Step, n: Nid, t: Tid)
    requires NodesKnown(w) && s.WaitFor? && Enabled(w, s) && TimeoutInv(w, n, t) && (s.n == n ==> s.t == t)
    ensures TimeoutInv(Next(w, s), n, t)
  {
    var r := Begin(w.nodes[s.n], s.t, s.m, s.epollOk).1;
    WaitKeepsSane(w, s);
    if r.Some? {
      var e := Return(s.n, s.m, r.value, AtOnce);
      TimeoutAfter(w.log, e, n);
      if NoFailure(w.log + [e], n) {
        assert (w.log + [e])[|w.log|] == e;
        WaitKeepsTidy(w, s, n, t);
      }
    } else if NoFailure(w.log, n) {
      WaitKeepsTidy(w, s, n, t);
    }
  }

  lemma WaitKeepsSane(w: World, s: Step)
    requires NodesKnown(w) && s.WaitFor? && Enabled(w, s) && Sane(w)
    ensures Sane(Next(w, s))
  {
  }

  lemma WaitKeepsTidy(w: World, s: Step, n: Nid, t: Tid)
    requires NodesKnown(w) && s.WaitFor? && Enabled(w, s) && Sane(w) && Tidy(w, n, t) && (s.n == n ==> s.t == t)
    requires var r := Begin(w.nodes[s.n], s.t, s.m, s.epollOk).1; r.Some? && s.n == n ==> r.value == Ok
    ensures Tidy(Next(w, s), n, t)
  {
  }

  lemma StepKeepsTimeoutInv(w: World, s: Step, n: Nid, t: Tid)
    requires NodesKnown(w) && Enabled(w, s) && TimeoutInv(w, n, t)
    requires s.WaitFor? && s.n == n ==> s.t == t
    ensures TimeoutInv(Next(w, s), n, t)
  {
    match s
    case RunQueued(u, epollOk) =>
      var w1 := w.(queue := w.queue - {u});
      assert TimeoutInv(w1, n, t);
      ResumeKeepsTimeoutInv(w1, u, FromQueue, epollOk, n, t);
    case Poll(_, _, _, _) => PollKeepsTimeoutInv(w, s, n, t);
    case WaitFor(_, _, _, _) => WaitKeepsTimeoutInv(w, s, n, t);
    case _ =>
  }

  /** Only `t` ever waits for `n`. */
  ghost predicate SoleUser(run: seq<Step>, n: Nid, t: Tid) {
    forall i :: 0 <= i < |run| && run[i].WaitFor? && run[i].n == n ==> run[i].t == t
  }

  lemma {:induction false} RunKeepsTimeoutInv(run: seq<Step>, n: Nid, t: Tid)
    requires Legal(run) && SoleUser(run, n, t)
    ensures TimeoutInv(After(run), n, t)
    decreases |run|
  {
    if run != [] {
      RunKeepsTimeoutInv(run[..|run| - 1], n, t);
      StepKeepsTimeoutInv(After(run[..|run| - 1]), run[|run| - 1], n, t);
    }
  }

  /** On a node used by one coroutine, as long as no waitfor has failed, a timeout is reported
      only to a task that the run queue resumed. */
  lemma FirstTimeoutComesFromQueue(run: seq<Step>, n: Nid, t: Tid, j: nat)
    requires Legal(run) && SoleUser(run, n, t)
    requires j < |After(run).log| && IsTimeout(After(run).log[j], n) && NoFailure(After(run).log[..j], n)
    ensures After(run).log[j].via == FromQueue
  {
    RunKeepsTimeoutInv(run, n, t);
  }
}
