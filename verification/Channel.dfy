/** The rendezvous channel of src/scheduler/channel.c. */
module Channel {
  import opened Wrappers

  type Byte = x: int | 0 <= x < 256

  /** The shared slot: what is left of the buffer on offer, and the task that waits. */
  datatype Slot<T> = Slot(buf: Option<seq<Byte>>, task: Option<T>)

  // What the calls do to the slot. `wake` is the task handed to rn_task_schedule.

  function Offer<T>(s: Slot<T>, self: T, data: seq<Byte>): (Slot<T>, Option<T>) {
    (Slot(Some(data), Some(self)), s.task)
  }

  function Take<T>(s: Slot<T>, n: nat): (Slot<T>, seq<Byte>, Option<T>)
    requires s.buf.Some?
  {
    var m := if n > |s.buf.value| then |s.buf.value| else n;
    if m < |s.buf.value|
    then (s.(buf := Some(s.buf.value[m..])), s.buf.value[..m], None)
    else (Slot(None, None), s.buf.value[..m], s.task)
  }

  class Chan<T(==)> {
    var buf: Option<seq<Byte>>
    var task: Option<T>

    function State(): Slot<T>
      reads this
    {
      Slot(buf, task)
    }

    constructor ()
      ensures State() == Slot(None, None)
    {
      buf, task := None, None;
    }

    /** rn_channel_write up to its release. */
    method Write(self: T, data: seq<Byte>) returns (wake: Option<T>)
      modifies this
      ensures (State(), wake) == Offer(old(State()), self, data)
    {
      buf := Some(data);
      wake := task;
      task := Some(self);
    }

    /** rn_channel_read and rn_channel_get up to the release, when nothing is on offer. */
    method Await(self: T)
      requires buf.None?
      modifies this
      ensures State() == Slot(None, Some(self))
    {
      task := Some(self);
    }

    /** rn_channel_read once something is on offer. */
    method Read(size: nat) returns (dest: seq<Byte>, wake: Option<T>)
      requires buf.Some?
      modifies this
      ensures (State(), dest, wake) == Take(old(State()), size)
    {
      var n := size;
      if n > |buf.value| {
        n := |buf.value|;
      }
      dest := buf.value[..n];
      buf := Some(buf.value[n..]);
      wake := None;
      if |buf.value| == 0 {
        wake := task;
        buf := None;
        task := None;
      }
    }

    /** rn_channel_get once something is on offer: takes what is left of the buffer. */
    method Get() returns (result: seq<Byte>, wake: Option<T>)
      requires buf.Some?
      modifies this
      ensures (State(), result, wake) == Take(old(State()), |old(buf).value|)
    {
      result := buf.value;
      assert result[..|result|] == result;
      wake := task;
      buf := None;
      task := None;
    }
  }
}

/** One writer and one reader on a channel, scheduled in any order. */
module Rendezvous {
  import opened Wrappers
  import opened Channel

  datatype Who = Writer | Reader

  /** Where a task stands: between calls, or suspended inside one. */
  datatype Pc = Idle | Writing(data: seq<Byte>) | Reading(size: nat) | Getting

  /** `Ready` tasks are in the run queue, `Blocked` ones are not and do not run. */
  datatype Status = Running(pc: Pc) | Ready(pc: Pc) | Blocked(pc: Pc) | Done

  datatype World = World(slot: Slot<Who>, writer: Status, reader: Status,
                         written: seq<Byte>, acked: nat, got: seq<Byte>)

  function Woken(s: Status): Status {
    if s.Blocked? then Ready(s.pc) else s
  }

  function Wake(w: World, who: Option<Who>): World {
    match who
    case None => w
    case Some(Writer) => w.(writer := Woken(w.writer))
    case Some(Reader) => w.(reader := Woken(w.reader))
  }

  ghost predicate NobodyRuns(w: World) {
    !w.writer.Running? && !w.reader.Running?
  }

  function Consume(w: World, n: nat): World
    requires w.slot.buf.Some?
  {
    var (slot, data, wake) := Take(w.slot, n);
    Wake(w.(slot := slot, got := w.got + data, reader := Running(Idle)), wake)
  }

  datatype Step =
    | Resume(who: Who)
    | Write(data: seq<Byte>)
    | WriteReturns
    | Read(size: nat)
    | ReadContinues
    | Get
    | GetContinues
    | Pause(who: Who)
    | Finish(who: Who)

  ghost predicate Enabled(w: World, s: Step) {
    match s
    case Resume(Writer) => NobodyRuns(w) && w.writer.Ready?
    case Resume(Reader) => NobodyRuns(w) && w.reader.Ready?
    case Write(_) => w.writer == Running(Idle)
    case WriteReturns => w.writer.Running? && w.writer.pc.Writing?
    case Read(_) => w.reader == Running(Idle)
    case ReadContinues => w.reader.Running? && w.reader.pc.Reading?
    case Get => w.reader == Running(Idle)
    case GetContinues => w.reader.Running? && w.reader.pc.Getting?
    case Pause(Writer) => w.writer == Running(Idle)
    case Pause(Reader) => w.reader == Running(Idle)
    case Finish(Writer) => w.writer == Running(Idle)
    case Finish(Reader) => w.reader == Running(Idle)
  }

  ghost function Next(w: World, s: Step): World
    requires Enabled(w, s)
  {
    match s
    case Resume(Writer) => w.(writer := Running(w.writer.pc))
    case Resume(Reader) => w.(reader := Running(w.reader.pc))
    case Write(data) =>
      var (slot, wake) := Offer(w.slot, Writer, data);
      Wake(w.(slot := slot, writer := Blocked(Writing(data)), written := w.written + data), wake)
    case WriteReturns => w.(writer := Running(Idle), acked := w.acked + |w.writer.pc.data|)
    case Read(n) =>
      if w.slot.buf.None? then w.(slot := Slot(None, Some(Reader)), reader := Blocked(Reading(n)))
      else Consume(w, n)
    case ReadContinues =>
      if w.slot.buf.None? then w.(reader := Running(Idle)) else Consume(w, w.reader.pc.size)
    case Get =>
      if w.slot.buf.None? then w.(slot := Slot(None, Some(Reader)), reader := Blocked(Getting))
      else Consume(w, |w.slot.buf.value|)
    case GetContinues =>
      if w.slot.buf.None? then w.(reader := Running(Idle)) else Consume(w, |w.slot.buf.value|)
    case Pause(Writer) => w.(writer := Ready(Idle))
    case Pause(Reader) => w.(reader := Ready(Idle))
    case Finish(Writer) => w.(writer := Done)
    case Finish(Reader) => w.(reader := Done)
  }

  /** A run: every step is possible in the state the earlier ones lead to. */
  ghost predicate Legal(run: seq<Step>)
    decreases |run|, 0
  {
    run == [] || (Legal(run[..|run| - 1]) && Enabled(After(run[..|run| - 1]), run[|run| - 1]))
  }

  ghost function After(run: seq<Step>): World
    requires Legal(run)
    decreases |run|, 1
  {
    if run == [] then World(Slot(None, None), Ready(Idle), Ready(Idle), [], 0, [])
    else Next(After(run[..|run| - 1]), run[|run| - 1])
  }

  function Left(w: World): seq<Byte> {
    if w.slot.buf.Some? then w.slot.buf.value else []
  }

  function InWrite(s: Status): nat {
    if !s.Done? && s.pc.Writing? then |s.pc.data| else 0
  }

  ghost predicate Inv(w: World) {
    && !(w.writer.Running? && w.reader.Running?)
    && (!w.writer.Done? ==> w.writer.pc.Idle? || w.writer.pc.Writing?)
    && (!w.reader.Done? ==> !w.reader.pc.Writing?)
    // the slot and who is blocked on it
    && (w.slot.buf.Some? ==>
          w.slot.task == Some(Writer) && w.writer.Blocked? && w.writer.pc.Writing? && !w.reader.Blocked?)
    && (w.slot.buf.None? ==>
          && !w.writer.Blocked?
          && w.slot.task == if w.reader.Blocked? then Some(Reader) else None)
    && (w.slot.buf.None? ==> !w.reader.Done? && !w.reader.pc.Idle? ==> w.reader.Blocked?)
    && (w.reader.Blocked? ==> w.reader.pc.Reading? || w.reader.pc.Getting?)
    // where every byte is
    && w.got + Left(w) == w.written
    && w.acked + InWrite(w.writer) == |w.written|
    && |Left(w)| <= InWrite(w.writer)
  }

  lemma StepKeepsInv(w: World, s: Step)
    requires Inv(w) && Enabled(w, s)
    ensures Inv(Next(w, s))
  {
  }

  lemma {:induction false} RunKeepsInv(run: seq<Step>)
    requires Legal(run)
    ensures Inv(After(run))
    decreases |run|
  {
    if run != [] {
      RunKeepsInv(run[..|run| - 1]);
      StepKeepsInv(After(run[..|run| - 1]), run[|run| - 1]);
    }
  }

  /** The bytes read are the bytes written so far, without the end still on offer. */
  lemma ReadsArePrefixOfWrites(run: seq<Step>)
    requires Legal(run)
    ensures After(run).got <= After(run).written
    ensures After(run).got + Left(After(run)) == After(run).written
  {
    RunKeepsInv(run);
  }

  /** A write returns only when everything written so far has been read. */
  lemma WriteReturnsWhenConsumed(run: seq<Step>)
    requires Legal(run) && Enabled(After(run), WriteReturns)
    ensures After(run).got == After(run).written
    ensures Next(After(run), WriteReturns).acked == |After(run).got|
  {
    RunKeepsInv(run);
  }

  /** A suspended read or get resumes only with something on offer, so it never fails. */
  lemma ReadNeverFails(run: seq<Step>)
    requires Legal(run) && (Enabled(After(run), ReadContinues) || Enabled(After(run), GetContinues))
    ensures After(run).slot.buf.Some?
  {
    RunKeepsInv(run);
  }

  /** No task can do anything. */
  ghost predicate Stuck(w: World) {
    !w.writer.Running? && !w.reader.Running? && !w.writer.Ready? && !w.reader.Ready?
  }

  /** The two tasks never block each other: nothing can happen any more only once one of
      them has finished. */
  lemma NoDeadlock(run: seq<Step>)
    requires Legal(run)
    ensures !(After(run).writer.Blocked? && After(run).reader.Blocked?)
    ensures Stuck(After(run)) ==> After(run).writer.Done? || After(run).reader.Done?
    ensures !Stuck(After(run)) ==> exists s :: Enabled(After(run), s)
  {
    RunKeepsInv(run);
    var w := After(run);
    if w.writer.Running? {
      assert Enabled(w, WriteReturns) || Enabled(w, Finish(Writer));
    } else if w.reader.Running? {
      assert Enabled(w, ReadContinues) || Enabled(w, GetContinues) || Enabled(w, Finish(Reader));
    } else if w.writer.Ready? {
      assert Enabled(w, Resume(Writer));
    } else if w.reader.Ready? {
      assert Enabled(w, Resume(Reader));
    }
  }
}
