/** One drone's ranging state and the two operations on it: generating a message and processing one.

    Ring buffers are again represented by everything ever pushed; see SendHistories, RangingLists,
    RangingBuffers and RangingTables for the rings that refine them. */
module NodeSpec {
  import opened Config
  import opened RangingListSpec
  import opened RangingBufferSpec

  // ---------------------------------------------------------------- messages

  /** Timestamp_Tuple_t */
  datatype Stamp = Stamp(seqNo: nat, time: nat)

  const NullStamp := Stamp(NULL_SEQ, NULL_TIMESTAMP)

  type HeadStamps = s: seq<Stamp> | |s| == MESSAGE_HEAD_TX_SIZE witness [NullStamp, NullStamp, NullStamp]
  type BodyStamps = s: seq<Stamp> | |s| == MESSAGE_BODY_RX_SIZE witness [NullStamp, NullStamp, NullStamp]

  datatype BodyUnit = BodyUnit(dest: nat, rx: BodyStamps)

  const NullUnit := BodyUnit(NULL_ADDR, [NullStamp, NullStamp, NullStamp])

  type BodyUnits = u: seq<BodyUnit> | |u| == MESSAGE_BODY_UNIT_SIZE witness [NullUnit, NullUnit, NullUnit]

  datatype Message = Message(src: nat, seqNo: nat, tx: HeadStamps, units: BodyUnits)

  /** A message with the local time of its reception. */
  datatype Inbound = Inbound(msg: Message, rx: nat)

  // ---------------------------------------------------------------- local send history

  type History = seq<Stamp>

  function OldestSend(history: History): nat {
    if |history| <= LOCAL_SEND_BUFFER_SIZE then 0 else |history| - LOCAL_SEND_BUFFER_SIZE
  }

  /** The backward walk of findLocalSendBuffer over history[lo..hi]. */
  function FindSendIn(history: History, seqNo: nat, lo: nat, hi: nat): (r: int)
    requires lo <= hi <= |history|
    ensures r == NULL_INDEX || (lo <= r < hi && history[r].seqNo == seqNo)
    decreases hi
  {
    if hi == lo || history[hi - 1].seqNo == NULL_SEQ then NULL_INDEX
    else if history[hi - 1].seqNo == seqNo then hi - 1
    else FindSendIn(history, seqNo, lo, hi - 1)
  }

  function FindSend(history: History, seqNo: nat): (r: int)
    ensures r == NULL_INDEX || (OldestSend(history) <= r < |history| && history[r].seqNo == seqNo)
  {
    FindSendIn(history, seqNo, OldestSend(history), |history|)
  }

  /** The sends of one run: the i-th one carries sequence number i + 1 and a valid timestamp. */
  ghost predicate Numbered(history: History) {
    forall i :: 0 <= i < |history| ==> history[i].seqNo == i + 1 && history[i].time != NULL_TIMESTAMP
  }

  /** After any number of sends a sequence number is found exactly if it is one of the last
      LOCAL_SEND_BUFFER_SIZE sends, and then with the timestamp of that send. */
  lemma {:induction false} FindSendIffRecent(history: History, seqNo: nat)
    requires Numbered(history)
    ensures FindSend(history, seqNo) != NULL_INDEX <==> 1 <= seqNo <= |history| < seqNo + LOCAL_SEND_BUFFER_SIZE
    ensures FindSend(history, seqNo) != NULL_INDEX ==> FindSend(history, seqNo) == seqNo - 1
  {
    FindSendWalk(history, seqNo, OldestSend(history), |history|);
  }

  lemma {:induction false} FindSendWalk(history: History, seqNo: nat, lo: nat, hi: nat)
    requires Numbered(history) && lo <= hi <= |history|
    ensures FindSendIn(history, seqNo, lo, hi) == if lo < seqNo <= hi then seqNo - 1 else NULL_INDEX
    decreases hi
  {
    if hi != lo {
      FindSendWalk(history, seqNo, lo, hi - 1);
    }
  }

  /** The newest k sends have valid timestamps. */
  predicate Stamped(history: History, k: nat) {
    k <= |history| && forall j :: |history| - k <= j < |history| ==> history[j].time != NULL_TIMESTAMP
  }

  /** The newest sends, newest first, as long as their timestamps are valid, then null. */
  function NewestSends(history: History): (tx: HeadStamps)
  {
    seq(MESSAGE_HEAD_TX_SIZE, i requires 0 <= i =>
      if Stamped(history, i + 1) then history[|history| - 1 - i] else NullStamp)
  }

  // ---------------------------------------------------------------- neighbours

  datatype Neighbour = Neighbour(address: nat, sendList: Log, receiveList: Log, validBuffer: Buffer)

  /** The newest receptions from a neighbour, newest first, padded with null. */
  function NewestReceptions(log: Log): (rx: BodyStamps)
  {
    seq(MESSAGE_BODY_RX_SIZE, i =>
      if 0 <= i < |log| then Stamp(log[|log| - 1 - i].localSeq, log[|log| - 1 - i].rx) else NullStamp)
  }

  function FindFrom(neighbours: seq<Neighbour>, address: nat, i: nat): (r: int)
    requires i <= |neighbours|
    ensures r == NULL_INDEX <==> forall j :: i <= j < |neighbours| ==> neighbours[j].address != address
    ensures r != NULL_INDEX ==> i <= r < |neighbours| && neighbours[r].address == address
    ensures r != NULL_INDEX ==> forall j :: i <= j < r ==> neighbours[j].address != address
    decreases |neighbours| - i
  {
    if i == |neighbours| then NULL_INDEX
    else if neighbours[i].address == address then i
    else FindFrom(neighbours, address, i + 1)
  }

  /** findRangingTable */
  function FindNeighbour(neighbours: seq<Neighbour>, address: nat): (r: int)
    ensures r == NULL_INDEX <==> forall j :: 0 <= j < |neighbours| ==> neighbours[j].address != address
    ensures r != NULL_INDEX ==> 0 <= r < |neighbours| && neighbours[r].address == address
    ensures forall j :: 0 <= j < r ==> neighbours[j].address != address
  {
    FindFrom(neighbours, address, 0)
  }

  lemma FindNeighbourIsFindFrom(neighbours: seq<Neighbour>, address: nat)
    ensures FindNeighbour(neighbours, address) == FindFrom(neighbours, address, 0)
  {
  }

  /** registerRangingTable: a known neighbour keeps its table, a new one gets the next free table. */
  function Register(neighbours: seq<Neighbour>, address: nat): (r: seq<Neighbour>)
    ensures |r| <= TABLE_SET_NEIGHBOR_NUM || r == neighbours
    ensures neighbours <= r
    ensures FindNeighbour(neighbours, address) != NULL_INDEX ==> r == neighbours
    ensures FindNeighbour(neighbours, address) == NULL_INDEX && |neighbours| < TABLE_SET_NEIGHBOR_NUM ==>
              && |r| == |neighbours| + 1 && r[|neighbours|] == Neighbour(address, [], [], EmptyBuffer)
              && FindNeighbour(r, address) == |neighbours|
  {
    if FindNeighbour(neighbours, address) != NULL_INDEX || |neighbours| >= TABLE_SET_NEIGHBOR_NUM then neighbours
    else neighbours + [Neighbour(address, [], [], EmptyBuffer)]
  }

  /** updatePriority for the table index i among n tables: the prefix is reset, the rest moves up by
      one, and i becomes the tail. */
  function UpdatePriority(priority: seq<nat>, i: nat, n: nat): (r: seq<nat>)
    requires i < n <= |priority|
    ensures |r| == |priority| && r[n - 1] == i
  {
    seq(|priority|, j requires 0 <= j < |priority| =>
      if j < i then j else if j < n - 1 then priority[j + 1] else if j == n - 1 then i else priority[j])
  }

  ghost predicate IsPermutation(p: seq<nat>, n: nat)
    requires n <= |p|
  {
    && (forall j :: 0 <= j < n ==> p[j] < n)
    && (forall j, k :: 0 <= j < k < n ==> p[j] != p[k])
  }

  /** updatePriority leaves a permutation if and only if the entries behind position i are distinct tables behind i,
      whatever stood before. */
  lemma UpdatePriorityIsPermutation(priority: seq<nat>, i: nat, n: nat)
    requires i < n <= |priority|
    ensures IsPermutation(UpdatePriority(priority, i, n), n)
            <==> (forall j :: i < j < n ==> i < priority[j] < n)
                 && (forall j, k :: i < j < k < n ==> priority[j] != priority[k])
  {
    var r := UpdatePriority(priority, i, n);
    if j :| i < j < n && !(i < priority[j] < n) {
      assert r[j - 1] == priority[j] && r[n - 1] == i;
      if priority[j] < i { assert r[priority[j]] == priority[j]; }
    } else if j, k :| i < j < k < n && priority[j] == priority[k] {
      assert r[j - 1] == r[k - 1];
    }
  }

  // ---------------------------------------------------------------- the node

  datatype NodeState = NodeState(
    address: nat, nextSeq: nat, history: History,
    neighbours: seq<Neighbour>, priority: seq<nat>,
    initTofSum: int, lastD: Option<real>)

  predicate Ready(n: NodeState) {
    && n.nextSeq >= 1
    && |n.neighbours| <= TABLE_SET_NEIGHBOR_NUM == |n.priority|
    && (forall j :: 0 <= j < |n.neighbours| ==> n.priority[j] < |n.neighbours|)
    && (forall nb <- n.neighbours :: nb.receiveList != [])
  }

  // neighborPriorityQueue holds uint8 values, so NULL_INDEX reads back as 255.
  const FreshPriority: seq<nat> := [255, 255, 255, 255, 255, 255, 255, 255, 255, 255]

  /** initRangingTableSet for the drone with this address. */
  function InitialNode(address: nat): (n: NodeState)
    ensures Ready(n)
  {
    NodeState(address, 1, [], [], FreshPriority, 0, None)
  }

  type Node = n: NodeState | Ready(n) witness InitialNode(0)

  // ---------------------------------------------------------------- generating

  function UnitFor(n: Node, i: nat): BodyUnit {
    if i < |n.neighbours| then
      var nb := n.neighbours[n.priority[i]];
      BodyUnit(nb.address, NewestReceptions(nb.receiveList))
    else NullUnit
  }

  /** generateRangingMessage: the message itself; the node's next sequence number moves on. */
  function Generate(n: Node): Message {
    Message(n.address, n.nextSeq, NewestSends(n.history), [UnitFor(n, 0), UnitFor(n, 1), UnitFor(n, 2)])
  }

  /** The same into a message whose body units hold something already: units without a neighbour are not written. */
  function GenerateInto(n: Node, memory: BodyUnits): Message {
    Generate(n).(units := seq(MESSAGE_BODY_UNIT_SIZE, i requires 0 <= i < MESSAGE_BODY_UNIT_SIZE =>
      if i < |n.neighbours| then UnitFor(n, i) else memory[i]))
  }

  /** Into blank memory it is the message generated. */
  lemma GenerateIntoBlank(n: Node)
    ensures GenerateInto(n, [NullUnit, NullUnit, NullUnit]) == Generate(n)
  {
    assert GenerateInto(n, [NullUnit, NullUnit, NullUnit]).units == Generate(n).units;
  }

  function AfterGenerate(n: Node): Node { n.(nextSeq := n.nextSeq + 1) }

  /** addLocalSendBuffer: the stamp of the message generated last. */
  function AddLocalSend(n: Node, time: nat): Node {
    n.(history := n.history + [Stamp(n.nextSeq - 1, time)])
  }

  // ---------------------------------------------------------------- processing

  /** What the loops over a message carry: the sender's table, the shared sum of the initial estimates
      and the last distance the loop obtained. */
  datatype Progress = Progress(nb: Neighbour, initTofSum: int, distance: Option<Distance>)

  function Later(earlier: Option<Distance>, d: Option<Distance>): Option<Distance> {
    if d.Some? then d else earlier
  }

  /** Twice the average of the initial estimates. */
  function InitialSumTof(initTofSum: int): real {
    initTofSum as real / MAX_INITIAL_CALCULATION as real * 2.0
  }

  /** Overwrites sumTof in the single slot i of the send ring: the end of the RECEIVER initialization. */
  function AverageSend(buf: Buffer, i: nat, initTofSum: int): Buffer
    requires |buf.send| == RANGING_BUFFER_SIZE && i < MESSAGE_HEAD_TX_SIZE
  {
    buf.(send := buf.send[i := buf.send[i].(sumTof := InitialSumTof(initTofSum))])
  }

  /** Overwrites sumTof in every slot of the receive ring: the end of the SENDER initialization. */
  function AverageReceive(buf: Buffer, initTofSum: int): Buffer {
    buf.(receive := seq(|buf.receive|, i requires 0 <= i < |buf.receive| =>
      buf.receive[i].(sumTof := InitialSumTof(initTofSum))))
  }

  lemma InitializeGrows(listA: Log, listB: Log, a1: nat, buf: Buffer, sum: int, status: Status)
    requires a1 < |listA|
    ensures var r := InitializeCalculateTof(listA, listB, a1, buf, sum, status);
            || r == InitResult(buf, sum)
            || (|r.buf.send| == |buf.send| + 1 && |r.buf.receive| == |buf.receive| + 1)
  {
    hide FindTriple, InitQuad, InitNodes, TruncateReal;
  }

  /** The RECEIVER calculation for the list record just filled. */
  function ReceiverCalculation(p: Progress, k: nat, i: nat): Progress
    requires k < |p.nb.receiveList| && i < MESSAGE_HEAD_TX_SIZE
  {
    var nb := p.nb;
    if Length(nb.validBuffer.send) < MAX_INITIAL_CALCULATION then
      var r := InitializeCalculateTof(nb.receiveList, nb.sendList, k, nb.validBuffer, p.initTofSum, Receiver);
      InitializeGrows(nb.receiveList, nb.sendList, k, nb.validBuffer, p.initTofSum, Receiver);
      var buf := if Length(r.buf.send) >= MAX_INITIAL_CALCULATION then AverageSend(r.buf, i, r.initTofSum) else r.buf;
      Progress(nb.(validBuffer := buf), r.initTofSum, p.distance)
    else
      var node := nb.receiveList[k];
      var out := CalculateTof(nb.validBuffer, node, node.localSeq, Receiver, First);
      Progress(nb.(validBuffer := out.buf), p.initTofSum, Later(p.distance, out.distance))
  }

  /** One iteration of the loop over the header's Tx timestamps. */
  function HeaderStep(p: Progress, i: nat, s: Stamp): Progress
    requires i < MESSAGE_HEAD_TX_SIZE
  {
    if s.seqNo == NULL_SEQ then p
    else
      match Find(p.nb.receiveList, s.seqNo)
      case At(k) =>
        var filled := p.nb.(receiveList := FillTx(p.nb.receiveList, k, s.time, s.seqNo));
        ReceiverCalculation(p.(nb := filled), k, i)
      case _ => p
  }

  /** The loop over the header, from the oldest timestamp to the newest. */
  function HeaderLoop(p: Progress, tx: HeadStamps, k: nat): Progress
    requires k <= MESSAGE_HEAD_TX_SIZE
    decreases k
  {
    if k == 0 then p else HeaderLoop(HeaderStep(p, k - 1, tx[k - 1]), tx, k - 1)
  }

  /** The SENDER calculation for the full record just pushed. */
  function SenderCalculation(p: Progress): Progress
    requires p.nb.sendList != []
  {
    var nb := p.nb;
    var k := |nb.sendList| - 1;
    if Length(nb.validBuffer.receive) < MAX_INITIAL_CALCULATION then
      var r := InitializeCalculateTof(nb.sendList, nb.receiveList, k, nb.validBuffer, p.initTofSum, Sender);
      var buf := if Length(r.buf.receive) >= MAX_INITIAL_CALCULATION then AverageReceive(r.buf, r.initTofSum)
        else r.buf;
      Progress(nb.(validBuffer := buf), r.initTofSum, p.distance)
    else
      var node := nb.sendList[k];
      var out := CalculateTof(nb.validBuffer, node, node.localSeq, Sender, First);
      Progress(nb.(validBuffer := out.buf), p.initTofSum, Later(p.distance, out.distance))
  }

  /** Whether the report of one reception is pushed as a full record. */
  predicate Pushes(sendList: Log, history: History, s: Stamp) {
    && s.seqNo != NULL_SEQ
    && !Find(sendList, s.seqNo).Done?
    && FindSend(history, s.seqNo) != NULL_INDEX
  }

  function FullRecord(history: History, s: Stamp): ListNode
    requires FindSend(history, s.seqNo) != NULL_INDEX
  {
    var h := history[FindSend(history, s.seqNo)];
    ListNode(h.time, s.time, h.seqNo, s.seqNo)
  }

  /** One iteration of the loop over the Rx timestamps of the body unit addressed to this drone. */
  function BodyStep(p: Progress, history: History, s: Stamp): Progress {
    if Pushes(p.nb.sendList, history, s) then
      SenderCalculation(p.(nb := p.nb.(sendList := p.nb.sendList + [FullRecord(history, s)])))
    else p
  }

  function BodyLoop(p: Progress, history: History, rx: BodyStamps, k: nat): Progress
    requires k <= MESSAGE_BODY_RX_SIZE
    decreases k
  {
    if k == 0 then p else BodyLoop(BodyStep(p, history, rx[k - 1]), history, rx, k - 1)
  }

  /** The distance that one report yields, whatever was obtained before. */
  function OwnDistance(p: Progress, history: History, s: Stamp): Option<Distance> {
    BodyStep(p.(distance := None), history, s).distance
  }

  /** The distance of the newest report, among rx[..k], that yields one; position 0 is the newest. */
  function NewestDistance(p: Progress, history: History, rx: BodyStamps, k: nat): Option<Distance>
    requires k <= MESSAGE_BODY_RX_SIZE
    decreases k
  {
    if k == 0 then None
    else
      var newer := NewestDistance(BodyStep(p, history, rx[k - 1]), history, rx, k - 1);
      if newer.Some? then newer else OwnDistance(p, history, rx[k - 1])
  }

  /** Of several accepted calculations in one body the one for the newest report counts. */
  lemma {:induction false} NewestReportDecides(p: Progress, history: History, rx: BodyStamps, k: nat)
    requires k <= MESSAGE_BODY_RX_SIZE
    ensures var d := NewestDistance(p, history, rx, k);
            BodyLoop(p, history, rx, k).distance == if d.Some? then d else p.distance
    decreases k
  {
    hide CalculateTof, InitializeCalculateTof, AverageReceive, Find, Length, FullRecord, FindSend;
    if k != 0 {
      NewestReportDecides(BodyStep(p, history, rx[k - 1]), history, rx, k - 1);
    }
  }

  /** The first body unit addressed to this drone. */
  function UnitTo(units: BodyUnits, address: nat): (r: int)
    ensures r == NULL_INDEX || (0 <= r < |units| && units[r].dest == address)
    ensures r == NULL_INDEX ==> forall u <- units :: u.dest != address
    ensures forall j :: 0 <= j < r ==> units[j].dest != address
  {
    if units[0].dest == address then 0
    else if units[1].dest == address then 1
    else if units[2].dest == address then 2
    else NULL_INDEX
  }

  /** The table of the sender after its message: a new reception, then the header, then the body. */
  function ProcessFor(nb: Neighbour, n: Node, m: Inbound): (Progress, Option<Distance>) {
    var heard := nb.(receiveList := AddReceived(nb.receiveList, m.rx, m.msg.seqNo));
    var h := HeaderLoop(Progress(heard, n.initTofSum, None), m.msg.tx, MESSAGE_HEAD_TX_SIZE);
    var unit := UnitTo(m.msg.units, n.address);
    var b := if unit == NULL_INDEX then h.(distance := None)
             else BodyLoop(h.(distance := None), n.history, m.msg.units[unit].rx, MESSAGE_BODY_RX_SIZE);
    (b, Combine(h.distance, b.distance))
  }

  /** The distance of a message: the mean of both directions, or the only one there is. */
  function Combine(h: Option<Distance>, b: Option<Distance>): Option<Distance> {
    if h.Some? && b.Some? then
      Some(Distance((h.value.modified + b.value.modified) / 2.0, (h.value.classic + b.value.classic) / 2.0))
    else if h.Some? then h
    else b
  }

  /** The reported distance: compensated by the last change, once there is one. */
  function Compensate(lastD: Option<real>, d: Distance): Distance {
    match lastD
    case None => d
    case Some(last) => d.(modified := d.modified + (d.modified - last) * COMPENSATE_RATE)
  }

  /** Both directions count alike: opposite errors cancel, and a single direction stands for itself. */
  lemma CombineCancelsErrors(d: Distance, errors: Distance)
    ensures var (h, b) := (Distance(d.modified + errors.modified, d.classic + errors.classic),
                           Distance(d.modified - errors.modified, d.classic - errors.classic));
            && Combine(Some(h), Some(b)) == Some(d) && Combine(Some(b), Some(h)) == Some(d)
            && Combine(Some(h), None) == Some(h) && Combine(None, Some(b)) == Some(b)
  {
  }

  /** Compensation extrapolates: the report lies strictly beyond the distance, in the direction of the last change, and
      short of repeating that change; without a change it is the distance. The classic estimate stays. */
  lemma CompensationExtrapolates(last: real, d: Distance)
    ensures var r := Compensate(Some(last), d);
            && r.classic == d.classic
            && (d.modified > last ==> d.modified < r.modified < d.modified + (d.modified - last))
            && (d.modified < last ==> d.modified > r.modified > d.modified + (d.modified - last))
            && (d.modified == last ==> r == d)
  {
  }

  datatype Processed = Processed(node: Node, report: Option<Distance>)

  /** processRangingMessage */
  function Process(n: Node, m: Inbound): (r: Processed)
  {
    var neighbours := Register(n.neighbours, m.msg.src);
    var i := FindNeighbour(neighbours, m.msg.src);
    if i == NULL_INDEX then Processed(n, None)
    else
      var (p, distance) := ProcessFor(neighbours[i], n, m);
      ProcessKeepsReady(neighbours, n, m, i);
      var node := n.(neighbours := neighbours[i := p.nb],
                     priority := UpdatePriority(n.priority, i, |neighbours|),
                     initTofSum := p.initTofSum,
                     lastD := if distance.Some? then Some(distance.value.modified) else n.lastD);
      Processed(node, if distance.Some? then Some(Compensate(n.lastD, distance.value)) else None)
  }

  // ---------------------------------------------------------------- what the loops keep

  lemma {:induction false} HeaderLoopKeeps(p: Progress, tx: HeadStamps, k: nat)
    requires k <= MESSAGE_HEAD_TX_SIZE
    ensures var r := HeaderLoop(p, tx, k);
            r.nb.address == p.nb.address && r.nb.sendList == p.nb.sendList && |r.nb.receiveList| == |p.nb.receiveList|
    decreases k
  {
    hide CalculateTof, InitializeCalculateTof, AverageSend, Find, Length;
    if k != 0 {
      HeaderLoopKeeps(HeaderStep(p, k - 1, tx[k - 1]), tx, k - 1);
    }
  }

  lemma {:induction false} BodyLoopKeeps(p: Progress, history: History, rx: BodyStamps, k: nat)
    requires k <= MESSAGE_BODY_RX_SIZE
    ensures var r := BodyLoop(p, history, rx, k);
            r.nb.address == p.nb.address && r.nb.receiveList == p.nb.receiveList && p.nb.sendList <= r.nb.sendList
    decreases k
  {
    hide CalculateTof, InitializeCalculateTof, AverageReceive, Find, Length, FullRecord;
    if k != 0 {
      BodyLoopKeeps(BodyStep(p, history, rx[k - 1]), history, rx, k - 1);
    }
  }

  lemma ProcessKeepsReady(neighbours: seq<Neighbour>, n: Node, m: Inbound, i: nat)
    requires neighbours == Register(n.neighbours, m.msg.src) && i == FindNeighbour(neighbours, m.msg.src)
    ensures i < |neighbours| <= |n.priority|
    ensures var nb := ProcessFor(neighbours[i], n, m).0.nb;
            forall other <- neighbours[i := nb] :: other.receiveList != []
    ensures var priority := UpdatePriority(n.priority, i, |neighbours|);
            forall j :: 0 <= j < |neighbours| ==> priority[j] < |neighbours|
    ensures |neighbours| <= TABLE_SET_NEIGHBOR_NUM
  {
    hide ProcessFor;
    ProcessForKeeps(neighbours[i], n, m);
    assert forall other <- neighbours :: other == neighbours[i] || other.receiveList != [];
  }

  lemma ProcessForKeeps(nb: Neighbour, n: Node, m: Inbound)
    ensures var r := ProcessFor(nb, n, m).0.nb;
            r.address == nb.address && |r.receiveList| == |nb.receiveList| + 1 && nb.sendList <= r.sendList
  {
    hide HeaderLoop, BodyLoop;
    var heard := nb.(receiveList := AddReceived(nb.receiveList, m.rx, m.msg.seqNo));
    var p := Progress(heard, n.initTofSum, None);
    HeaderLoopKeeps(p, m.msg.tx, MESSAGE_HEAD_TX_SIZE);
    var h := HeaderLoop(p, m.msg.tx, MESSAGE_HEAD_TX_SIZE);
    var unit := UnitTo(m.msg.units, n.address);
    if unit != NULL_INDEX {
      BodyLoopKeeps(h.(distance := None), n.history, m.msg.units[unit].rx, MESSAGE_BODY_RX_SIZE);
    }
  }
}
