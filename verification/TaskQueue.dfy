/** The task queue between the three threads of a drone (`QueueTaskLock_t`): a ring of QUEUE_TASK_LENGTH slots. */
module TaskQueueSpec {
  import opened Config

  /** The received bytes of one message; a slot without data holds the null pointer. */
  type Task = seq<bv8>

  function SlotAt(start: nat, i: nat): nat { (start + i) % QUEUE_TASK_LENGTH }

  /** From `start` on, the ring holds exactly the queued tasks in order, and nothing else. */
  ghost predicate Window(ring: seq<Option<Task>>, start: nat, queued: seq<Task>) {
    && |ring| == QUEUE_TASK_LENGTH && start < QUEUE_TASK_LENGTH && |queued| <= QUEUE_TASK_LENGTH
    && (forall i :: 0 <= i < |queued| ==> ring[SlotAt(start, i)] == Some(queued[i]))
    && (forall i :: |queued| <= i < QUEUE_TASK_LENGTH ==> ring[SlotAt(start, i)] == None)
  }

  lemma WindowSize(ring: seq<Option<Task>>, start: nat, queued: seq<Task>)
    requires Window(ring, start, queued)
    ensures |queued| <= QUEUE_TASK_LENGTH == |ring| && start < QUEUE_TASK_LENGTH
  {
  }

  /** Storing a task behind the window extends it. */
  lemma Store(ring: seq<Option<Task>>, start: nat, queued: seq<Task>, task: Task)
    requires Window(ring, start, queued) && |queued| < QUEUE_TASK_LENGTH
    ensures Window(ring[SlotAt(start, |queued|) := Some(task)], start, queued + [task])
    ensures (SlotAt(start, |queued|) + 1) % QUEUE_TASK_LENGTH == SlotAt(start, |queued| + 1)
  {
  }

  /** Clearing the first slot of the window drops the oldest task. */
  lemma Drop(ring: seq<Option<Task>>, start: nat, queued: seq<Task>)
    requires Window(ring, start, queued) && queued != []
    ensures ring[start] == Some(queued[0])
    ensures Window(ring[start := None], (start + 1) % QUEUE_TASK_LENGTH, queued[1..])
    ensures SlotAt((start + 1) % QUEUE_TASK_LENGTH, |queued| - 1) == SlotAt(start, |queued|)
  {
    assert SlotAt(start, 0) == start;
    var next := (start + 1) % QUEUE_TASK_LENGTH;
    assert forall i :: 0 <= i < QUEUE_TASK_LENGTH - 1 ==> SlotAt(next, i) == SlotAt(start, i + 1);
    assert SlotAt(next, QUEUE_TASK_LENGTH - 1) == start;
  }

  // ---------------------------------------------------------------- the two critical sections

  /** What countMutex protects. */
  datatype Queue = Queue(ring: seq<Option<Task>>, head: nat, tail: nat, count: int)

  /** QueueTaskRx: an empty message is ignored and a full queue drops it. */
  function Accept(q: Queue, data: Task): Queue
    requires q.tail < |q.ring|
  {
    if |data| == 0 || q.count == QUEUE_TASK_LENGTH then q
    else Queue(q.ring[q.tail := Some(data)], q.head, (q.tail + 1) % QUEUE_TASK_LENGTH, q.count + 1)
  }

  /** What processing gets from a slot; the null pointer gives no bytes. */
  function Bytes(slot: Option<Task>): Task { if slot.Some? then slot.value else [] }

  /** processFromQueue from the label PROCESS on: the task handed over, and the queue without it. */
  function Taken(q: Queue): Task
    requires q.head < |q.ring|
  {
    Bytes(q.ring[q.head])
  }

  function HandOver(q: Queue): Queue
    requires q.head < |q.ring|
  {
    Queue(q.ring[q.head := None], (q.head + 1) % QUEUE_TASK_LENGTH, q.tail, q.count - 1)
  }

  /** The queue stands for these tasks. */
  ghost predicate Holds(q: Queue, queued: seq<Task>) {
    Window(q.ring, q.head, queued) && q.count == |queued| && q.tail == SlotAt(q.head, |queued|)
  }

  /** Accepting appends, up to three tasks. */
  lemma AcceptAppends(q: Queue, queued: seq<Task>, data: Task)
    requires Holds(q, queued)
    ensures q.tail < |q.ring|
    ensures Holds(Accept(q, data), if data != [] && |queued| < QUEUE_TASK_LENGTH then queued + [data] else queued)
  {
    hide Window;
    WindowSize(q.ring, q.head, queued);
    if data != [] && |queued| < QUEUE_TASK_LENGTH { Store(q.ring, q.head, queued, data); }
  }

  /** Handing over takes the oldest task. */
  lemma HandOverTakesOldest(q: Queue, queued: seq<Task>)
    requires Holds(q, queued) && queued != []
    ensures q.head < |q.ring| && Taken(q) == queued[0] && Holds(HandOver(q), queued[1..])
  {
    hide Window;
    WindowSize(q.ring, q.head, queued);
    Drop(q.ring, q.head, queued);
  }
}

module TaskQueues {
  import opened Config
  import opened TaskQueueSpec

  class QueueTaskLock {
    const queueTask: array<Option<Task>>
    var head: nat
    var tail: nat
    var count: nat
    ghost var queued: seq<Task>

    ghost function Contents(): Queue
      reads this, queueTask
    {
      Queue(queueTask[..], head, tail, count)
    }

    ghost predicate Valid()
      reads this, queueTask
    {
      Holds(Contents(), queued) && queueTask.Length == QUEUE_TASK_LENGTH && tail < QUEUE_TASK_LENGTH
    }

    /** initQueueTaskLock */
    constructor ()
      ensures Valid() && queued == [] && fresh(queueTask)
    {
      queueTask := new Option<Task>[QUEUE_TASK_LENGTH](_ => None);
      head, tail, count := 0, 0, 0;
      queued := [];
    }

    /** QueueTaskRx between taking and releasing countMutex: an empty message is ignored, a full queue drops it. */
    method QueueTaskRx(data: Task) returns (accepted: bool)
      requires Valid()
      modifies this, queueTask
      ensures Valid() && Contents() == Accept(old(Contents()), data)
      ensures accepted == (data != [] && |old(queued)| < QUEUE_TASK_LENGTH)
      ensures queued == if accepted then old(queued) + [data] else old(queued)
    {
      hide Window;
      if |data| == 0 {
        return false;
      }
      if count == QUEUE_TASK_LENGTH {
        return false;
      }
      ghost var was := Contents();
      AcceptAppends(was, queued, data);
      queueTask[tail] := Some(data);
      tail := (tail + 1) % QUEUE_TASK_LENGTH;
      count := count + 1;
      queued := queued + [data];
      assert Contents() == Accept(was, data);
      return true;
    }

    /** processFromQueue from the label PROCESS on: the oldest task is handed over and its slot is freed. */
    method ProcessFromQueue() returns (data: Task)
      requires Valid() && count != 0
      modifies this, queueTask
      ensures Valid() && data == old(queued)[0] && queued == old(queued)[1..]
      ensures old(Contents()).head < |old(Contents()).ring|
      ensures data == Taken(old(Contents())) && Contents() == HandOver(old(Contents()))
    {
      hide Window;
      ghost var was := Contents();
      HandOverTakesOldest(was, queued);
      data := Bytes(queueTask[head]);
      queueTask[head] := None;
      head := (head + 1) % QUEUE_TASK_LENGTH;
      count := count - 1;
      queued := queued[1..];
      assert Contents() == HandOver(was);
    }
  }
}

/** The three threads of a drone as a step system: every statement between two lock operations is a step of its own,
    and any interleaving of the threads is a run. */
module TaskQueueThreads {
  import opened Config
  import opened TaskQueueSpec

  datatype Thread = Tx | Rx | Processing

  /** QueueTaskTx, called again and again. */
  datatype TxPc = TxIdle | TxLocked | TxGenerated | TxSending

  /** QueueTaskRx. */
  datatype RxPc = RxIdle | RxWaiting | RxLocked | RxStored | RxMoved | RxDone

  /** processFromQueue: the labels GET, with its empty path, and PROCESS. */
  datatype ProcPc = Get | HasMutex | HasBoth | Take | Handled | Freed | Moved | Counted | Released
                  | Empty | EmptyReleased | Sleeping

  datatype State = State(
    mutex: Option<Thread>, countMutex: Option<Thread>, tx: TxPc, rx: RxPc, proc: ProcPc, data: Task,
    ring: seq<Option<Task>>, head: nat, tail: nat, count: nat, accepted: seq<Task>, processed: seq<Task>)

  const Initial: State :=
    State(None, None, TxIdle, RxIdle, Get, [], [None, None, None], 0, 0, 0, [], [])

  /** RxStep carries the bytes that arrive when the thread is idle. */
  datatype Step = TxStep | RxStep(arriving: Task) | ProcStep

  function ThreadOf(step: Step): Thread {
    match step case TxStep => Tx case RxStep(_) => Rx case ProcStep => Processing
  }

  /** A thread is blocked exactly when it waits for a lock that is taken. */
  predicate Enabled(s: State, t: Thread) {
    match t
    case Tx => s.tx.TxIdle? ==> s.mutex.None?
    case Rx => s.rx.RxWaiting? ==> s.countMutex.None?
    case Processing => (s.proc.Get? ==> s.mutex.None?) && (s.proc.HasMutex? ==> s.countMutex.None?)
  }

  function NextTx(s: State): State {
    match s.tx
    case TxIdle => s.(mutex := Some(Tx), tx := TxLocked)
    case TxLocked => s.(tx := TxGenerated)
    case TxGenerated => s.(mutex := None, tx := TxSending)
    case TxSending => s.(tx := TxIdle)
  }

  function NextRx(s: State, arriving: Task): State
    requires s.tail < |s.ring|
  {
    match s.rx
    case RxIdle => if |arriving| == 0 then s else s.(data := arriving, rx := RxWaiting)
    case RxWaiting => s.(countMutex := Some(Rx), rx := RxLocked)
    case RxLocked =>
      if s.count == QUEUE_TASK_LENGTH then s.(rx := RxDone)
      else s.(ring := s.ring[s.tail := Some(s.data)], accepted := s.accepted + [s.data], rx := RxStored)
    case RxStored => s.(tail := (s.tail + 1) % QUEUE_TASK_LENGTH, rx := RxMoved)
    case RxMoved => s.(count := s.count + 1, rx := RxDone)
    case RxDone => s.(countMutex := None, rx := RxIdle)
  }

  function NextProc(s: State): State
    requires s.head < |s.ring|
  {
    match s.proc
    case Get => s.(mutex := Some(Processing), proc := HasMutex)
    case HasMutex => s.(countMutex := Some(Processing), proc := HasBoth)
    case HasBoth => s.(proc := if s.count != 0 then Take else Empty)
    case Take => s.(processed := s.processed + [Bytes(s.ring[s.head])], proc := Handled)
    case Handled => s.(ring := s.ring[s.head := None], proc := Freed)
    case Freed => s.(head := (s.head + 1) % QUEUE_TASK_LENGTH, proc := Moved)
    case Moved => s.(count := if s.count == 0 then 255 else s.count - 1, proc := Counted)
    case Counted => s.(countMutex := None, proc := Released)
    case Released => s.(mutex := None, proc := Get)
    case Empty => s.(mutex := None, proc := EmptyReleased)
    case EmptyReleased => s.(countMutex := None, proc := Sleeping)
    case Sleeping => s.(proc := Get)
  }

  function Next(s: State, step: Step): State
    requires s.head < |s.ring| && s.tail < |s.ring|
  {
    match step case TxStep => NextTx(s) case RxStep(arriving) => NextRx(s, arriving) case ProcStep => NextProc(s)
  }

  // ---------------------------------------------------------------- the invariant

  /** The sections in which a thread holds a lock. */
  predicate Generating(s: State) { s.tx.TxLocked? || s.tx.TxGenerated? }

  predicate Processes(s: State) {
    !s.proc.Get? && !s.proc.EmptyReleased? && !s.proc.Sleeping?
  }

  predicate Receives(s: State) { !s.rx.RxIdle? && !s.rx.RxWaiting? }

  predicate Counts(s: State) {
    !s.proc.Get? && !s.proc.HasMutex? && !s.proc.Released? && !s.proc.Sleeping?
  }

  predicate Locked(s: State) {
    && !(Generating(s) && Processes(s)) && !(Receives(s) && Counts(s))
    && s.mutex == (if Generating(s) then Some(Tx) else if Processes(s) then Some(Processing) else None)
    && s.countMutex == (if Receives(s) then Some(Rx) else if Counts(s) then Some(Processing) else None)
  }

  /** The tasks accepted and not yet processed. */
  function Queued(s: State): seq<Task>
    requires |s.processed| <= |s.accepted|
  {
    s.accepted[|s.processed|..]
  }

  /** Where the window starts: right behind the task in hand, whose slot is yet to be freed or left. */
  function Start(s: State): nat {
    if s.proc.Handled? || s.proc.Freed? then (s.head + 1) % QUEUE_TASK_LENGTH else s.head
  }

  /** Where it ends, and the count, once the section now running is over. */
  function End(s: State): nat {
    if s.rx.RxStored? then (s.tail + 1) % QUEUE_TASK_LENGTH else s.tail
  }

  function Count(s: State): int {
    s.count + (if s.rx.RxStored? || s.rx.RxMoved? then 1 else 0)
            - (if s.proc.Handled? || s.proc.Freed? || s.proc.Moved? then 1 else 0)
  }

  /** The queue as it is once the section now running is over. */
  function Settled(s: State): Queue
    requires s.head < |s.ring|
  {
    Queue(if s.proc.Handled? then s.ring[s.head := None] else s.ring, Start(s), End(s), Count(s))
  }

  ghost predicate InWindow(s: State) {
    && |s.ring| == QUEUE_TASK_LENGTH && s.head < QUEUE_TASK_LENGTH && s.tail < QUEUE_TASK_LENGTH
    && s.processed <= s.accepted && Holds(Settled(s), Queued(s))
  }

  ghost predicate Inv(s: State) {
    && Locked(s) && InWindow(s)
    && (s.proc.Take? ==> s.count != 0) && (s.proc.Empty? || s.proc.EmptyReleased? ==> s.count == 0)
    && (!s.rx.RxIdle? ==> s.data != []) && (forall task <- s.accepted :: task != [])
  }

  lemma TxKeepsInv(s: State)
    requires Inv(s) && Enabled(s, Tx)
    ensures Inv(NextTx(s))
  {
    hide Window;
  }

  lemma RxKeepsInv(s: State, arriving: Task)
    requires Inv(s) && Enabled(s, Rx)
    ensures Inv(NextRx(s, arriving))
  {
    hide Window;
    if s.rx.RxLocked? && s.count != QUEUE_TASK_LENGTH {
      var s' := NextRx(s, arriving);
      assert Queued(s') == Queued(s) + [s.data];
      WindowSize(s.ring, s.head, Queued(s));
      Store(s.ring, s.head, Queued(s), s.data);
    }
  }

  lemma ProcKeepsInv(s: State)
    requires Inv(s) && Enabled(s, Processing)
    ensures Inv(NextProc(s))
  {
    hide InWindow;
    assert !Generating(s) || !Processes(s);
    ProcKeepsWindow(s);
  }

  lemma ProcKeepsWindow(s: State)
    requires Inv(s) && Enabled(s, Processing)
    ensures InWindow(NextProc(s)) && (NextProc(s).proc.Take? ==> NextProc(s).count != 0)
    ensures NextProc(s).proc.Empty? || NextProc(s).proc.EmptyReleased? ==> NextProc(s).count == 0
    ensures NextProc(s).accepted == s.accepted
  {
    hide Window, Generating;
    assert s.rx.RxStored? || s.rx.RxMoved? ==> !Counts(s);
    if s.proc.Take? {
      var s' := NextProc(s);
      assert Queued(s') == Queued(s)[1..];
      Drop(s.ring, s.head, Queued(s));
      assert s.accepted[|s.processed|] == Queued(s)[0];
    }
  }

  // ---------------------------------------------------------------- runs

  ghost predicate IsRun(s: State, steps: seq<Step>, s': State)
    decreases |steps|
  {
    if steps == [] then s == s'
    else
      && s.head < |s.ring| && s.tail < |s.ring| && Enabled(s, ThreadOf(steps[0]))
      && IsRun(Next(s, steps[0]), steps[1..], s')
  }

  ghost predicate Reachable(s: State) { exists steps :: IsRun(Initial, steps, s) }

  lemma StepKeepsInv(s: State, step: Step)
    requires Inv(s) && Enabled(s, ThreadOf(step))
    ensures Inv(Next(s, step))
  {
    hide Inv, NextTx, NextRx, NextProc;
    assert s.head < |s.ring| && s.tail < |s.ring| by { Indices(s); }
    match step {
      case TxStep => TxKeepsInv(s);
      case RxStep(arriving) => RxKeepsInv(s, arriving);
      case ProcStep => ProcKeepsInv(s);
    }
  }

  /** A step of QueueTaskTx leaves the queue alone. */
  lemma TxIsAside(s: State)
    requires Inv(s) && Enabled(s, Tx)
    ensures s.head < |s.ring| && NextTx(s).ring == s.ring && NextTx(s).head == s.head
    ensures Settled(NextTx(s)) == Settled(s) && NextTx(s).processed == s.processed
  {
    hide Holds, Locked, Window, Queued;
  }

  lemma RxIsAtomic(s: State, arriving: Task)
    requires Inv(s) && Enabled(s, Rx)
    ensures s.head < |s.ring| && s.tail < |s.ring| && Settled(s).tail < |Settled(s).ring|
    ensures var s' := NextRx(s, arriving);
            && s'.head < |s'.ring| && s'.processed == s.processed
            && Settled(s') == if s.rx.RxLocked? then Accept(Settled(s), s.data) else Settled(s)
  {
    hide Window;
  }

  lemma ProcIsAtomic(s: State)
    requires Inv(s) && Enabled(s, Processing)
    ensures s.head < |s.ring| && Settled(s).head < |Settled(s).ring|
    ensures var s' := NextProc(s);
            && s'.head < |s'.ring| && Settled(s') == (if s.proc.Take? then HandOver(Settled(s)) else Settled(s))
            && s'.processed == (if s.proc.Take? then s.processed + [Taken(Settled(s))] else s.processed)
  {
    hide Window;
  }

  /** The critical sections are atomic, and they are the sections of the class: under any interleaving, the queue
      as it is once the running section is over changes only when a thread decides about its task, and then by Accept or
      by HandOver; the task that processing takes is the one that HandOver hands over. */
  lemma SectionsAreAtomic(s: State, step: Step)
    requires Inv(s) && Enabled(s, ThreadOf(step))
    ensures s.head < |s.ring| && s.tail < |s.ring|
    ensures var s' := Next(s, step);
            && s'.head < |s'.ring| && Settled(s).tail < |Settled(s).ring| && Settled(s).head < |Settled(s).ring|
            && Settled(s') == (if step.RxStep? && s.rx.RxLocked? then Accept(Settled(s), s.data)
                               else if step.ProcStep? && s.proc.Take? then HandOver(Settled(s))
                               else Settled(s))
            && s'.processed == (if step.ProcStep? && s.proc.Take? then s.processed + [Taken(Settled(s))]
                                else s.processed)
  {
    hide NextTx, NextRx, NextProc, Inv, Settled, Accept, HandOver, Taken;
    SettledBounds(s);
    match step {
      case TxStep => TxIsAside(s);
      case RxStep(arriving) => RxIsAtomic(s, arriving);
      case ProcStep => ProcIsAtomic(s);
    }
  }

  lemma SettledBounds(s: State)
    requires Inv(s)
    ensures s.head < |s.ring| && s.tail < |s.ring|
    ensures Settled(s).tail < |Settled(s).ring| && Settled(s).head < |Settled(s).ring|
  {
    hide Window, Locked;
  }

  /** Whenever no thread holds countMutex, that queue is the real one. */
  lemma SettledIsReal(s: State)
    requires Inv(s) && s.countMutex.None?
    ensures s.head < |s.ring| && Settled(s) == Queue(s.ring, s.head, s.tail, s.count)
  {
    hide InWindow;
    Indices(s);
  }

  lemma Indices(s: State)
    requires Inv(s)
    ensures s.head < |s.ring| && s.tail < |s.ring|
  {
  }

  lemma {:induction false} RunKeepsInv(s: State, steps: seq<Step>, s': State)
    requires Inv(s) && IsRun(s, steps, s')
    ensures Inv(s')
    decreases |steps|
  {
    hide Inv, Next, Enabled;
    if steps != [] {
      StepKeepsInv(s, steps[0]);
      RunKeepsInv(Next(s, steps[0]), steps[1..], s');
    }
  }

  lemma ReachableInv(s: State)
    requires Reachable(s)
    ensures Inv(s)
  {
    hide Inv, IsRun;
    assert Inv(Initial) by { InitialInv(); }
    var steps :| IsRun(Initial, steps, s);
    RunKeepsInv(Initial, steps, s);
  }

  lemma InitialInv()
    ensures Inv(Initial)
  {
  }

  // ---------------------------------------------------------------- safety

  /** FIFO and exactly once: over all interleavings the processed tasks are a prefix of the accepted ones, in order
      and none lost or repeated; and no more than QUEUE_TASK_LENGTH wait. */
  lemma ProcessedIsPrefix(s: State)
    requires Reachable(s)
    ensures s.processed <= s.accepted && |s.accepted| - |s.processed| <= QUEUE_TASK_LENGTH
  {
    ReachableInv(s);
  }

  /** Whenever nobody is inside countMutex, the indices fit the count and exactly the slots of the window hold tasks. */
  lemma RingIsWindow(s: State)
    requires Reachable(s) && s.countMutex.None?
    ensures |s.ring| == QUEUE_TASK_LENGTH && s.tail == SlotAt(s.head, s.count)
    ensures s.count == |s.accepted| - |s.processed|
    ensures forall i :: 0 <= i < QUEUE_TASK_LENGTH ==>
              s.ring[SlotAt(s.head, i)] == if i < s.count then Some(s.accepted[|s.processed| + i]) else None
  {
    ReachableInv(s);
  }

  /** A message is never generated while another one is processed, and countMutex is held by one thread at a time. */
  lemma MutualExclusion(s: State)
    requires Reachable(s)
    ensures !(Generating(s) && (s.proc.Take? || s.proc.Handled?)) && !(Receives(s) && Counts(s))
  {
    ReachableInv(s);
  }

  /** A message is dropped exactly if QUEUE_TASK_LENGTH accepted ones are still waiting. */
  lemma DropsOnlyWhenFull(s: State, arriving: Task)
    requires Reachable(s) && s.rx.RxLocked?
    ensures s.tail < |s.ring|
    ensures |s.accepted| - |s.processed| == QUEUE_TASK_LENGTH <==> NextRx(s, arriving).accepted == s.accepted
  {
    ReachableInv(s);
  }

  lemma {:induction false} RunThenStep(s: State, steps: seq<Step>, s': State, step: Step)
    requires IsRun(s, steps, s') && s'.head < |s'.ring| && s'.tail < |s'.ring| && Enabled(s', ThreadOf(step))
    ensures IsRun(s, steps + [step], Next(s', step))
    decreases |steps|
  {
    hide Next, Enabled;
    if steps == [] {
      assert IsRun(Next(s, step), [], Next(s', step));
    } else {
      RunThenStep(Next(s, steps[0]), steps[1..], s', step);
      assert (steps + [step])[1..] == steps[1..] + [step];
    }
  }

  /** Only generating is protected. The step that records the send time and sends, which runs after the mutex is
      released, can overlap the processing of a message that reads the local send buffer. */
  lemma SendingOverlapsProcessing() returns (s: State)
    ensures Reachable(s) && s.tx.TxSending? && s.proc.Take?
  {
    hide Reachable;
    s := Initial;
    assert Reachable(s) by { StartIsReachable(); }
    var arriving: Task := [1];
    s := Extend(s, RxStep(arriving));
    s := Extend(s, RxStep([]));
    s := Extend(s, RxStep([]));
    s := Extend(s, RxStep([]));
    s := Extend(s, RxStep([]));
    s := Extend(s, RxStep([]));
    s := Extend(s, TxStep);
    s := Extend(s, TxStep);
    s := Extend(s, TxStep);
    s := Extend(s, ProcStep);
    s := Extend(s, ProcStep);
    s := Extend(s, ProcStep);
  }

  lemma StartIsReachable()
    ensures Reachable(Initial)
  {
    assert IsRun(Initial, [], Initial);
  }

  lemma Extend(s: State, step: Step) returns (s': State)
    requires Reachable(s) && s.head < |s.ring| && s.tail < |s.ring| && Enabled(s, ThreadOf(step))
    ensures Reachable(s') && s' == Next(s, step)
  {
    hide IsRun, Next, Enabled;
    s' := Next(s, step);
    var steps :| IsRun(Initial, steps, s);
    RunThenStep(Initial, steps, s, step);
  }

  // ---------------------------------------------------------------- progress

  function TxRank(pc: TxPc): nat {
    match pc case TxIdle => 3 case TxLocked => 2 case TxGenerated => 1 case TxSending => 0
  }

  function RxRank(pc: RxPc): nat {
    match pc
    case RxIdle => 0 case RxWaiting => 5 case RxLocked => 4 case RxStored => 3 case RxMoved => 2 case RxDone => 1
  }

  /** How many steps of its own the processing thread is away from having a task in hand. */
  function ProcRank(pc: ProcPc): nat {
    match pc
    case Take => 0 case HasBoth => 1 case HasMutex => 2 case Get => 3
    case Released => 4 case Counted => 5 case Moved => 6 case Freed => 7 case Handled => 8
    case Sleeping => 4 case EmptyReleased => 5 case Empty => 6
  }

  /** Whom to schedule so that processing goes on: the holder of the lock it waits for, or itself. */
  function Helper(s: State): Step {
    if s.proc.Get? && s.mutex.Some? then TxStep
    else if s.proc.HasMutex? && s.countMutex.Some? then RxStep([])
    else ProcStep
  }

  /** No reachable state is deadlocked: whichever thread is blocked, steps of the others alone unblock it. */
  lemma NobodyIsStuck(s: State, t: Thread) returns (steps: seq<Step>, s': State)
    requires Reachable(s)
    ensures IsRun(s, steps, s') && Enabled(s', t) && forall step <- steps :: ThreadOf(step) != t
  {
    hide IsRun, Inv, Enabled;
    ReachableInv(s);
    steps, s' := Unblock(s, t);
  }

  lemma {:induction false} Unblock(s: State, t: Thread) returns (steps: seq<Step>, s': State)
    requires Inv(s)
    ensures IsRun(s, steps, s') && Enabled(s', t) && forall step <- steps :: ThreadOf(step) != t
    decreases ReleaseRank(s.proc) + RxRank(s.rx) + TxRank(s.tx)
  {
    hide InWindow;
    if Enabled(s, t) {
      steps, s' := [], s;
    } else {
      Indices(s);
      var step := if s.mutex == Some(Tx) && t.Processing? then TxStep
                  else if s.countMutex == Some(Rx) then RxStep([]) else ProcStep;
      StepKeepsInv(s, step);
      var rest: seq<Step>;
      rest, s' := Unblock(Next(s, step), t);
      steps := [step] + rest;
      assert steps[1..] == rest;
    }
  }

  /** How many steps the processing thread is away from holding no lock. */
  function ReleaseRank(pc: ProcPc): nat {
    match pc
    case Get => 0 case Sleeping => 0 case Released => 1 case Counted => 2 case Moved => 3 case Freed => 4
    case Handled => 5
    case Take => 6 case EmptyReleased => 1 case Empty => 2 case HasBoth => 7 case HasMutex => 8
  }

  /** Every accepted task can be processed: from any reachable state some continuation, without a new arrival, leads to
      a state in which everything accepted so far has been processed. */
  lemma EveryTaskIsProcessed(s: State) returns (steps: seq<Step>, s': State)
    requires Reachable(s)
    ensures IsRun(s, steps, s') && s.accepted <= s'.processed
    ensures forall step <- steps :: step.RxStep? ==> step.arriving == []
  {
    hide IsRun, Inv;
    ReachableInv(s);
    steps, s' := Drain(s, |s.accepted|);
    RunKeepsInv(s, steps, s');
    AcceptedGrows(s, steps, s');
    PrefixOf(s');
  }

  lemma PrefixOf(s: State)
    requires Inv(s)
    ensures s.processed <= s.accepted
  {
  }

  lemma {:induction false} Drain(s: State, k: nat) returns (steps: seq<Step>, s': State)
    requires Inv(s) && k <= |s.accepted|
    ensures IsRun(s, steps, s') && |s'.processed| >= k
    ensures forall step <- steps :: step.RxStep? ==> step.arriving == []
    decreases k - |s.processed|, ProcRank(s.proc), RxRank(s.rx) + TxRank(s.tx)
  {
    hide Window;
    if |s.processed| >= k {
      steps, s' := [], s;
    } else {
      Indices(s);
      var step := Helper(s);
      StepKeepsInv(s, step);
      var rest: seq<Step>;
      rest, s' := Drain(Next(s, step), k);
      steps := [step] + rest;
      assert steps[1..] == rest;
    }
  }

  lemma {:induction false} AcceptedGrows(s: State, steps: seq<Step>, s': State)
    requires IsRun(s, steps, s')
    ensures s.accepted <= s'.accepted
    decreases |steps|
  {
    if steps != [] {
      AcceptedGrows(Next(s, steps[0]), steps[1..], s');
    }
  }
}
