/** The distributed protocol: any number of drones, each with its own clock, broadcasting over channels that are
    FIFO per sender and may lose any message. A run is any interleaving of the steps below. */
module Protocol {
  import opened Config
  import opened RangingListSpec
  import opened RangingBufferSpec
  import opened NodeSpec
  import opened LossTolerance
  import opened ExactlyOnce
  import opened Phases
  import opened Pairing

  // ---------------------------------------------------------------- the tables of a node by address

  /** The table of a neighbour; a neighbour never heard has an empty one. */
  function Table(n: Node, address: nat): Neighbour { TableIn(n.neighbours, address) }

  function TableIn(neighbours: seq<Neighbour>, address: nat): Neighbour {
    var i := FindNeighbour(neighbours, address);
    if i == NULL_INDEX then Neighbour(address, [], [], EmptyBuffer) else neighbours[i]
  }

  ghost predicate Distinct(neighbours: seq<Neighbour>) {
    forall i, j :: 0 <= i < j < |neighbours| ==> neighbours[i].address != neighbours[j].address
  }

  /** There is a table for the address, or room to register one. */
  predicate Room(n: Node, address: nat) {
    FindNeighbour(n.neighbours, address) != NULL_INDEX || |n.neighbours| < TABLE_SET_NEIGHBOR_NUM
  }

  lemma TableOf(n: Node, i: nat)
    requires Distinct(n.neighbours) && i < |n.neighbours|
    ensures Table(n, n.neighbours[i].address) == n.neighbours[i]
  {
  }

  /** Registering keeps every table, counting the new empty one. */
  lemma RegisterKeepsTables(neighbours: seq<Neighbour>, address: nat, other: nat)
    requires Distinct(neighbours)
    ensures Distinct(Register(neighbours, address))
    ensures TableIn(Register(neighbours, address), other) == TableIn(neighbours, other)
  {
  }

  lemma UpdateReplacesTable(neighbours: seq<Neighbour>, i: nat, nb: Neighbour, other: nat)
    requires Distinct(neighbours) && i < |neighbours| && nb.address == neighbours[i].address
    ensures Distinct(neighbours[i := nb])
    ensures TableIn(neighbours[i := nb], other) == if other == nb.address then nb else TableIn(neighbours, other)
  {
    var updated := neighbours[i := nb];
    assert forall j :: 0 <= j < |neighbours| ==> updated[j].address == neighbours[j].address;
    var j, k := FindNeighbour(neighbours, other), FindNeighbour(updated, other);
    if j != NULL_INDEX { assert updated[j].address == other; }
  }

  /** Processing a message replaces the table of its sender and touches no other; without room it does nothing. */
  lemma TableAfterProcess(n: Node, m: Inbound, address: nat)
    requires Distinct(n.neighbours)
    ensures var n' := Process(n, m).node;
            && Distinct(n'.neighbours)
            && n'.address == n.address && n'.nextSeq == n.nextSeq && n'.history == n.history
            && (address != m.msg.src ==> Table(n', address) == Table(n, address))
            && (Room(n, m.msg.src) ==> Table(n', m.msg.src) == ProcessFor(Table(n, m.msg.src), n, m).0.nb)
            && (!Room(n, m.msg.src) ==> n' == n)
  {
    hide ProcessFor, UpdatePriority, Compensate, TableIn, Distinct, Register;
    var neighbours := Register(n.neighbours, m.msg.src);
    RegisterKeepsTables(n.neighbours, m.msg.src, address);
    RegisterKeepsTables(n.neighbours, m.msg.src, m.msg.src);
    RoomMeansFound(n, m.msg.src);
    var i := FindNeighbour(neighbours, m.msg.src);
    if i != NULL_INDEX {
      ProcessForKeeps(neighbours[i], n, m);
      var nb := ProcessFor(neighbours[i], n, m).0.nb;
      FoundTable(neighbours, m.msg.src);
      UpdateReplacesTable(neighbours, i, nb, address);
      UpdateReplacesTable(neighbours, i, nb, m.msg.src);
    }
  }

  lemma RoomMeansFound(n: Node, address: nat)
    ensures Room(n, address) <==> FindNeighbour(Register(n.neighbours, address), address) != NULL_INDEX
  {
    if Room(n, address) && FindNeighbour(n.neighbours, address) == NULL_INDEX {
      assert Register(n.neighbours, address)[|n.neighbours|].address == address;
    }
  }

  lemma FoundTable(neighbours: seq<Neighbour>, address: nat)
    requires FindNeighbour(neighbours, address) != NULL_INDEX
    ensures TableIn(neighbours, address) == neighbours[FindNeighbour(neighbours, address)]
  {
  }

  /** Only the sender of a message can become a new neighbour. */
  lemma NeighboursAfterProcess(n: Node, m: Inbound, nb: Neighbour)
    requires nb in Process(n, m).node.neighbours
    ensures nb.address == m.msg.src || exists was <- n.neighbours :: was.address == nb.address
  {
    hide ProcessFor, UpdatePriority, Compensate;
    var neighbours := Register(n.neighbours, m.msg.src);
    var i := FindNeighbour(neighbours, m.msg.src);
    if i != NULL_INDEX {
      ProcessForKeeps(neighbours[i], n, m);
      var after := Process(n, m).node.neighbours;
      var j :| 0 <= j < |after| && after[j] == nb;
      if j != i { assert after[j] == neighbours[j]; }
    }
  }

  // ---------------------------------------------------------------- the system

  /** What was there when a message was generated: how many messages of each drone its sender had processed, and
      how many each drone had sent. */
  datatype Origin = Origin(processed: seq<nat>, existing: seq<nat>)

  /** A drone with its ends of the channels. The code has the node, the message between generation and sending
      (pending), the task queue (inbox) and the clock; `sent` and `cursor` are the channels: the broadcast log of
      the drone, and how much of every other log has been delivered to it or lost. The rest is history: when each
      message was heard, what each own message knew, what the last processed report of each drone covered, and
      whether the initialization with each drone never had a stale record in its ring. */
  datatype Drone = Drone(
    node: Node, pending: Option<Message>, inbox: seq<Inbound>, clock: nat,
    sent: seq<Message>, cursor: seq<nat>,
    heard: seq<map<nat, nat>>, origin: seq<Origin>, acked: seq<nat>, clean: seq<bool>)

  type System = seq<Drone>

  /** Drone addresses are distinct and none is the null address. */
  function Addr(d: nat): nat { d + 1 }

  function Messages(x: Drone): seq<Message> {
    x.sent + (match x.pending case Some(m) => [m] case None => [])
  }

  function Rl(x: Drone, e: nat): Log { Table(x.node, Addr(e)).receiveList }

  function Sl(x: Drone, e: nat): Log { Table(x.node, Addr(e)).sendList }

  function InitialDrone(d: nat, n: nat): Drone {
    Drone(InitialNode(Addr(d)), None, [], 0, [], seq(n, _ => 0), seq(n, _ => map[]), [], seq(n, _ => 0),
      seq(n, _ => true))
  }

  function InitialSystem(n: nat): System {
    seq(n, d requires 0 <= d < n => InitialDrone(d, n))
  }

  datatype Step =
    | GenerateStep(d: nat)              // generateRangingMessage
    | TransmitStep(d: nat, now: nat)    // send_to_center: take the time, record it, send
    | DeliverStep(d: nat, e: nat, now: nat)  // receive_from_center: take the time, queue the message of e
    | LoseStep(d: nat, e: nat)          // the next message of e to d is lost, or dropped by a full queue
    | ProcessStep(d: nat)               // processRangingMessage on the oldest queued message

  predicate Shaped(s: System) {
    forall x <- s :: |x.cursor| == |x.heard| == |x.acked| == |x.clean| == |s|
  }

  /** Clocks only move forward; a drone never gets its own messages (the self-filter). */
  predicate Enabled(s: System, step: Step)
    requires Shaped(s)
  {
    && step.d < |s|
    && match step
       case GenerateStep(d) => s[d].pending.None?
       case TransmitStep(d, now) => s[d].pending.Some? && now > s[d].clock
       case DeliverStep(d, e, now) => e < |s| && e != d && now > s[d].clock && s[d].cursor[e] < |s[e].sent|
       case LoseStep(d, e) => e < |s| && e != d && s[d].cursor[e] < |s[e].sent|
       case ProcessStep(d) => s[d].inbox != []
  }

  function OriginNow(s: System, d: nat): Origin
    requires d < |s|
  {
    Origin(seq(|s|, e requires 0 <= e < |s| => |Rl(s[d], e)|), seq(|s|, e requires 0 <= e < |s| => |s[e].sent|))
  }

  function Generated(s: System, d: nat): Drone
    requires d < |s|
  {
    var x := s[d];
    x.(node := AfterGenerate(x.node), pending := Some(Generate(x.node)), origin := x.origin + [OriginNow(s, d)])
  }

  function Transmitted(x: Drone, now: nat): Drone
    requires x.pending.Some?
  {
    x.(node := AddLocalSend(x.node, now), sent := x.sent + [x.pending.value], pending := None, clock := now)
  }

  function Delivered(x: Drone, e: nat, m: Message, now: nat): Drone
    requires e < |x.cursor| && e < |x.heard|
  {
    var heard: map<nat, nat> := x.heard[e][m.seqNo := now];
    x.(inbox := x.inbox + [Inbound(m, now)], cursor := x.cursor[e := x.cursor[e] + 1],
       heard := x.heard[e := heard], clock := now)
  }

  function Lost(x: Drone, e: nat): Drone
    requires e < |x.cursor|
  {
    x.(cursor := x.cursor[e := x.cursor[e] + 1])
  }

  /** The history variable `acked` after a message with a report to this drone; `known` is what the report covered. */
  function AckedAfter(x: Drone, e: nat, m: Message, known: nat): seq<nat>
    requires e < |x.acked|
  {
    if Room(x.node, m.src) && UnitTo(m.units, x.node.address) != NULL_INDEX then x.acked[e := known] else x.acked
  }

  /** The oldest queued message meets no stale record in the initialization with drone e, if that still goes on. */
  predicate StaysClean(x: Drone, e: nat)
    requires x.inbox != [] && e < |x.clean|
  {
    var m := x.inbox[0];
    && x.clean[e]
    && (Initializing(Table(x.node, Addr(e)).validBuffer) ==>
          NoStale(NextReceiveList(Rl(x, e), m.msg.seqNo, m.rx, m.msg.tx)))
  }

  /** The history variable `clean` after the oldest queued message, which comes from drone e. */
  function CleanAfter(x: Drone, e: nat): seq<bool>
    requires x.inbox != [] && e < |x.clean|
  {
    if Room(x.node, Addr(e)) then x.clean[e := StaysClean(x, e)] else x.clean
  }

  function ProcessedNext(x: Drone, e: nat, known: nat): Drone
    requires x.inbox != [] && e < |x.acked| && e < |x.clean|
  {
    x.(node := Process(x.node, x.inbox[0]).node, inbox := x.inbox[1..],
       acked := AckedAfter(x, e, x.inbox[0].msg, known), clean := CleanAfter(x, e))
  }

  /** The sender of the oldest queued message. */
  function SenderOf(x: Drone): int
    requires x.inbox != []
  {
    x.inbox[0].msg.src - 1
  }

  /** What the report to d in message number seqNo of drone y covered. */
  function Known(y: Drone, seqNo: nat, d: nat): nat {
    if 1 <= seqNo <= |y.origin| && d < |y.origin[seqNo - 1].processed| then y.origin[seqNo - 1].processed[d] else 0
  }

  function After(s: System, step: Step): Drone
    requires Shaped(s) && Enabled(s, step)
  {
    var x := s[step.d];
    match step
    case GenerateStep(d) => Generated(s, d)
    case TransmitStep(d, now) => Transmitted(x, now)
    case DeliverStep(d, e, now) => Delivered(x, e, s[e].sent[x.cursor[e]], now)
    case LoseStep(d, e) => Lost(x, e)
    case ProcessStep(d) =>
      var e := SenderOf(x);
      if 0 <= e < |s| then ProcessedNext(x, e, Known(s[e], x.inbox[0].msg.seqNo, d)) else x
  }

  function Next(s: System, step: Step): System
    requires Shaped(s) && Enabled(s, step)
  {
    s[step.d := After(s, step)]
  }

  // ---------------------------------------------------------------- invariants of one drone

  ghost predicate IsOther(address: nat, d: nat, n: nat) { 1 <= address <= n && address != Addr(d) }

  ghost predicate MessageOk(x: Drone, d: nat, k: nat, m: Message) {
    m.src == Addr(d) && m.seqNo == k + 1 && HeaderOf(m.tx, k + 1) && HeaderTrue(x.node.history, m.tx)
  }

  ghost predicate OwnInv(x: Drone, d: nat, n: nat) {
    && x.node.address == Addr(d)
    && |x.cursor| == |x.heard| == |x.acked| == |x.clean| == n
    && Numbered(x.node.history) && |x.node.history| == |x.sent| && SoundNode(x.node)
    && x.node.nextSeq == |Messages(x)| + 1 && |x.origin| == |Messages(x)|
    && (forall k :: 0 <= k < |Messages(x)| ==> MessageOk(x, d, k, Messages(x)[k]))
    && (forall k :: 0 <= k < |x.origin| ==> |x.origin[k].processed| == |x.origin[k].existing| == n)
    && (forall k :: 0 <= k < |x.sent| ==> x.node.history[k].time <= x.clock)
    && Distinct(x.node.neighbours)
    && (forall nb <- x.node.neighbours :: IsOther(nb.address, d, n))
    && (forall i :: 0 <= i < |x.inbox| ==> IsOther(x.inbox[i].msg.src, d, n))
  }

  /** The reports to drone e in one message: the newest receptions as of its generation, with their true times. */
  ghost predicate ReportOk(x: Drone, e: nat, k: nat, u: BodyUnit)
    requires e < |x.heard| && k < |x.origin| && e < |x.origin[k].processed|
  {
    && Reports(u.rx, Seqs(Rl(x, e)), x.origin[k].processed[e])
    && forall s <- u.rx :: s.seqNo != NULL_SEQ ==> s.seqNo in x.heard[e] && x.heard[e][s.seqNo] == s.time
  }

  ghost predicate Outgoing(x: Drone, e: nat) {
    && e < |x.heard| && |x.origin| == |Messages(x)|
    && (forall k :: 0 <= k < |x.origin| ==> e < |x.origin[k].processed| && x.origin[k].processed[e] <= |Rl(x, e)|)
    && (forall j, k :: 0 <= j < k < |x.origin| ==> x.origin[j].processed[e] <= x.origin[k].processed[e])
    && (forall k, u | 0 <= k < |x.origin| && u in Messages(x)[k].units && u.dest == Addr(e) :: ReportOk(x, e, k, u))
  }

  // ---------------------------------------------------------------- invariants of a pair

  function TruthOf(x: Drone, y: Drone, d: nat, e: nat): Truth
    requires e < |x.heard| && d < |y.heard|
  {
    Truth(x.node.history, y.node.history, x.heard[e], y.heard[d])
  }

  function LastSeq(log: Log): nat { if log == [] then 0 else Last(log).localSeq }

  function LastRx(log: Log): nat { if log == [] then 0 else Last(log).rx }

  /** A queued message of drone e: it is the one e sent, its reception is recorded, and it is newer than
      everything of e processed so far. */
  ghost predicate QueuedOk(x: Drone, y: Drone, e: nat, m: Inbound)
    requires e < |x.heard| && e < |x.cursor|
  {
    && 1 <= m.msg.seqNo <= x.cursor[e] && m.msg.seqNo <= |y.sent| && m.msg == y.sent[m.msg.seqNo - 1]
    && m.msg.seqNo in x.heard[e] && x.heard[e][m.msg.seqNo] == m.rx
    && LastSeq(Rl(x, e)) < m.msg.seqNo && LastRx(Rl(x, e)) < m.rx
  }

  /** x is drone d, y is drone e, and this is what d has received of e. */
  ghost predicate Receiving(x: Drone, y: Drone, e: nat) {
    && e < |x.heard| && e < |x.cursor| && x.cursor[e] <= |y.sent|
    && (forall s :: s in x.heard[e] ==> 1 <= s <= x.cursor[e] && 0 < x.heard[e][s] <= x.clock)
    && (forall i :: 0 <= i < |x.inbox| && x.inbox[i].msg.src == Addr(e) ==> QueuedOk(x, y, e, x.inbox[i]))
    && (forall i, j | 0 <= i < j < |x.inbox| && x.inbox[i].msg.src == Addr(e) && x.inbox[j].msg.src == Addr(e) ::
          x.inbox[i].msg.seqNo < x.inbox[j].msg.seqNo && x.inbox[i].rx < x.inbox[j].rx)
    && LastSeq(Rl(x, e)) <= x.cursor[e] && RxIncreasing(Rl(x, e))
  }

  ghost predicate Paired(x: Drone, y: Drone, d: nat, e: nat) {
    && e < |x.heard| && d < |y.heard|
    && SendListTrue(TruthOf(x, y, d, e), Sl(x, e))
    && ReceiveListTrue(TruthOf(x, y, d, e), Rl(x, e))
    && Tolerant(Rl(x, e))
  }

  /** The reports of e processed at d: exactly once, and no further than the newest message processed. */
  ghost predicate PushedOnce(x: Drone, y: Drone, d: nat, e: nat) {
    && e < |x.acked|
    && x.acked[e] <= Known(y, LastSeq(Rl(x, e)), d)
    && UpToReport(Sl(x, e), Seqs(Rl(y, d)), x.acked[e], |x.node.history|)
  }

  /** Reports in queued messages concern sends made before the message arrived. */
  ghost predicate PastOnly(history: History, rx: BodyStamps, time: nat) {
    forall s <- rx :: s.seqNo != NULL_SEQ ==> 1 <= s.seqNo <= |history| && history[s.seqNo - 1].time < time
  }

  ghost predicate QueuedPast(x: Drone, d: nat, e: nat) {
    forall i, u | 0 <= i < |x.inbox| && x.inbox[i].msg.src == Addr(e) && u in x.inbox[i].msg.units
      && u.dest == Addr(d) ::
      PastOnly(x.node.history, u.rx, x.inbox[i].rx)
  }

  /** While no initialization met a stale record, the calculation records are pairs of true pairs. That is so if at most
      two messages in a row were ever lost, or if no slot of the receive list was ever reused. */
  ghost predicate BuffersOk(x: Drone, y: Drone, d: nat, e: nat) {
    && e < |x.heard| && d < |y.heard| && e < |x.clean|
    && FreshSlots(Rl(x, e))
    && (SmallGaps(Rl(x, e)) || |Rl(x, e)| <= RANGING_LIST_SIZE ==> x.clean[e])
    && (x.clean[e] ==>
          Ordered(Table(x.node, Addr(e))) && BufferTrue(TruthOf(x, y, d, e), Table(x.node, Addr(e)).validBuffer))
  }

  ghost predicate PairInv(x: Drone, y: Drone, d: nat, e: nat) {
    && Receiving(x, y, e) && Paired(x, y, d, e) && PushedOnce(x, y, d, e) && QueuedPast(x, d, e)
    && BuffersOk(x, y, d, e)
  }

  ghost predicate Inv(s: System) {
    && (forall d :: 0 <= d < |s| ==> OwnInv(s[d], d, |s|))
    && (forall d, e :: 0 <= d < |s| && 0 <= e < |s| && d != e ==> Outgoing(s[d], e))
    && (forall d, e :: 0 <= d < |s| && 0 <= e < |s| && d != e ==> PairInv(s[d], s[e], d, e))
  }
}
