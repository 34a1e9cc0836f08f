/** The buffer of valid calculation records of one neighbour (`RangingBuffer_t`), the modified
    time-of-flight calculation over it, and its initialization.

    As for the ranging lists, the specification keeps every node ever stored, oldest first; each ring
    remembers the newest RANGING_BUFFER_SIZE of them and position i lives in slot i % RANGING_BUFFER_SIZE. */
module RangingBufferSpec {
  import opened Config
  import opened TofMath
  import opened RangingListSpec

  datatype BufferNode = BufferNode(
    sendTx: nat, sendRx: nat, receiveTx: nat, receiveRx: nat,
    sumTof: real, txSeq: nat, rxSeq: nat)

  const NullBufferNode := BufferNode(0, 0, 0, 0, 0.0, NULL_SEQ, NULL_SEQ)

  /** sendBuffer and receiveBuffer */
  datatype Buffer = Buffer(send: seq<BufferNode>, receive: seq<BufferNode>)

  const EmptyBuffer := Buffer([], [])

  function Length(nodes: seq<BufferNode>): nat {
    if |nodes| < RANGING_BUFFER_SIZE then |nodes| else RANGING_BUFFER_SIZE
  }

  function Add(buf: Buffer, node: BufferNode, status: Status): Buffer {
    if status.Sender? then buf.(send := buf.send + [node])
    else buf.(receive := buf.receive + [node])
  }

  // ---------------------------------------------------------------- searchRangingBuffer

  /** SENDER looks through the receive buffer by TxSeq, RECEIVER through the send buffer by RxSeq. */
  function Searched(buf: Buffer, status: Status): seq<BufferNode> {
    if status.Sender? then buf.receive else buf.send
  }

  function SeqKey(node: BufferNode, status: Status): nat {
    if status.Sender? then node.txSeq else node.rxSeq
  }

  /** r holds the greatest key below seqNo among nodes[lo..], the newest such node among equals. */
  ghost predicate IsClosest(nodes: seq<BufferNode>, seqNo: nat, status: Status, lo: nat, r: int) {
    if r == NULL_INDEX then
      forall j :: lo <= j < |nodes| ==> SeqKey(nodes[j], status) >= seqNo
    else
      && lo <= r < |nodes|
      && SeqKey(nodes[r], status) < seqNo
      && (forall j | lo <= j < |nodes| && SeqKey(nodes[j], status) < seqNo ::
            SeqKey(nodes[j], status) <= SeqKey(nodes[r], status))
      && (forall j | r < j < |nodes| && SeqKey(nodes[j], status) < seqNo ::
            SeqKey(nodes[j], status) < SeqKey(nodes[r], status))
  }

  function Closest(nodes: seq<BufferNode>, seqNo: nat, status: Status, lo: nat): (r: int)
    requires lo <= |nodes|
    ensures IsClosest(nodes, seqNo, status, lo, r)
    decreases |nodes| - lo
  {
    if lo == |nodes| then NULL_INDEX
    else
      var r := Closest(nodes, seqNo, status, lo + 1);
      if SeqKey(nodes[lo], status) < seqNo && (r == NULL_INDEX || SeqKey(nodes[lo], status) > SeqKey(nodes[r], status))
      then lo else r
  }

  /** searchRangingBuffer, as a position in the searched half; only the ring's window takes part. */
  function SearchBuffer(buf: Buffer, seqNo: nat, status: Status): (r: int)
    ensures IsClosest(Searched(buf, status), seqNo, status, |Searched(buf, status)| - Length(Searched(buf, status)), r)
  {
    Closest(Searched(buf, status), seqNo, status, |Searched(buf, status)| - Length(Searched(buf, status)))
  }

  /** A search that succeeds keeps succeeding for a greater sequence number. */
  lemma SearchIsMonotone(buf: Buffer, seqNo: nat, later: nat, status: Status)
    requires seqNo <= later && SearchBuffer(buf, seqNo, status) != NULL_INDEX
    ensures SearchBuffer(buf, later, status) != NULL_INDEX
    ensures SeqKey(Searched(buf, status)[SearchBuffer(buf, seqNo, status)], status)
         <= SeqKey(Searched(buf, status)[SearchBuffer(buf, later, status)], status)
  {
    var r := SearchBuffer(buf, seqNo, status);
    assert SeqKey(Searched(buf, status)[r], status) < later;
  }

  // ---------------------------------------------------------------- calculateTof

  datatype Distance = Distance(modified: real, classic: real)

  /** FIRST_CALCULATE and SECOND_CALCULATE */
  datatype Flag = First | Second

  /** The four intervals of a stored record and a new communication. */
  function QuadOf(b: BufferNode, tx: nat, rx: nat, status: Status): Quad {
    if status.Sender? then
      Quad(Interval(b.receiveRx, b.sendTx), Interval(rx, b.receiveTx),
           Interval(tx, b.receiveRx), Interval(b.receiveTx, b.sendRx))
    else
      Quad(Interval(b.sendRx, b.receiveTx), Interval(rx, b.sendTx),
           Interval(tx, b.sendRx), Interval(b.sendTx, b.receiveRx))
  }

  function DistanceOf(tof: real): real { tof * VELOCITY }

  predicate InRange(d: real) { 0.0 <= d <= MAX_DISTANCE }

  /** The node a successful calculation stores: the new communication beside the latest one of the
      opposite direction, with the T23 just computed. */
  function NewNode(last: BufferNode, node: ListNode, t23: real, status: Status): BufferNode {
    if status.Sender? then
      BufferNode(node.tx, node.rx, last.receiveTx, last.receiveRx, t23, node.localSeq, last.rxSeq)
    else
      BufferNode(last.sendTx, last.sendRx, node.tx, node.rx, t23, last.txSeq, node.localSeq)
  }

  datatype Outcome = Outcome(buf: Buffer, distance: Option<Distance>)

  /** calculateTof. `checkSeq` bounds the record used; a rejected first attempt retries once with the
      record before it. `None` is the code's return value -1. */
  function CalculateTof(buf: Buffer, node: ListNode, checkSeq: nat, status: Status, flag: Flag): (out: Outcome)
    requires checkSeq <= node.localSeq
    decreases if flag.First? then 1 else 0
  {
    var index := SearchBuffer(buf, checkSeq, status);
    if index == NULL_INDEX then Outcome(buf, None)
    else
      var b := Searched(buf, status)[index];
      var q := QuadOf(b, node.tx, node.rx, status);
      var estimate := Estimate(q, b.sumTof);
      if estimate.None? then Outcome(buf, None)
      else
        var d := DistanceOf(estimate.value / 2.0);
        if InRange(d) then
          SearchIsMonotone(buf, checkSeq, node.localSeq, status);
          var last := Searched(buf, status)[SearchBuffer(buf, node.localSeq, status)];
          Outcome(Add(buf, NewNode(last, node, estimate.value, status), status),
                  Some(Distance(d, ClassicDistance(q))))
        else if flag.First? then CalculateTof(buf, node, SeqKey(b, status), status, Second)
        else Outcome(buf, None)
  }

  /** A defined estimate has a non-zero denominator, so the classic distance is defined too. */
  function ClassicDistance(q: Quad): real {
    if q.Sum() == 0 then 0.0 else DistanceOf(ClassicTof(q))
  }

  lemma EstimateHasDenominator(q: Quad, t12: real)
    requires Estimate(q, t12).Some?
    ensures q.Sum() > 0
  {
    hide Estimate;
    if q.Sum() == 0 {
      assert q == Quad(0, 0, 0, 0);
      ZeroQuad(t12);
    }
  }

  lemma ZeroQuad(t12: real)
    ensures Estimate(Quad(0, 0, 0, 0), t12) == None
  {
  }

  /** What one call can do: nothing at all, or store one node whose distance is in range. The opposite
      direction of the stored node is the record nearest below the new sequence number, whichever attempt
      was accepted; on the first attempt it is the very record the calculation used. */
  lemma {:induction false} CalculateIsAtomic(buf: Buffer, node: ListNode, checkSeq: nat, status: Status, flag: Flag)
    requires checkSeq <= node.localSeq
    ensures var out := CalculateTof(buf, node, checkSeq, status, flag);
            match out.distance
            case None => out.buf == buf
            case Some(dist) =>
              && 0.0 <= dist.modified <= 1000.0
              && SearchBuffer(buf, node.localSeq, status) != NULL_INDEX
              && exists t23 :: dist.modified == t23 / 2.0 * VELOCITY && t23 >= 0.0
                    && out.buf == Add(buf, NewNode(Searched(buf, status)[SearchBuffer(buf, node.localSeq, status)],
                                                   node, t23, status), status)
    decreases if flag.First? then 1 else 0
  {
    hide Estimate, QuadOf, ClassicDistance, IsClosest, Closest;
    SearchKeyBelow(buf, checkSeq, status);
    var index := SearchBuffer(buf, checkSeq, status);
    if index != NULL_INDEX {
      var b := Searched(buf, status)[index];
      var q := QuadOf(b, node.tx, node.rx, status);
      var estimate := Estimate(q, b.sumTof);
      if estimate.Some? {
        var d := DistanceOf(estimate.value / 2.0);
        if InRange(d) {
          SearchIsMonotone(buf, checkSeq, node.localSeq, status);
          InRangeIsNonNegative(estimate.value);
        } else if flag.First? {
          CalculateIsAtomic(buf, node, SeqKey(b, status), status, Second);
        }
      }
    }
  }

  lemma SearchKeyBelow(buf: Buffer, seqNo: nat, status: Status)
    ensures var r := SearchBuffer(buf, seqNo, status);
            r != NULL_INDEX ==> 0 <= r < |Searched(buf, status)| && SeqKey(Searched(buf, status)[r], status) < seqNo
  {
  }

  lemma InRangeIsNonNegative(t23: real)
    requires InRange(DistanceOf(t23 / 2.0))
    ensures t23 >= 0.0
  {
  }

  /** The T23 that a stored record gives for the new communication. */
  function T23Of(b: BufferNode, node: ListNode, status: Status): Option<real> {
    Estimate(QuadOf(b, node.tx, node.rx, status), b.sumTof)
  }

  /** The record gives a distance, and that lies in the range; or it gives one outside. */
  predicate Accepts(b: BufferNode, node: ListNode, status: Status) {
    T23Of(b, node, status).Some? && 0.0 <= T23Of(b, node, status).value / 2.0 * VELOCITY <= 1000.0
  }

  predicate Rejects(b: BufferNode, node: ListNode, status: Status) {
    T23Of(b, node, status).Some? && !Accepts(b, node, status)
  }

  /** The nearest record with a key below seqNo, if there is one. */
  function NearestRecord(buf: Buffer, seqNo: nat, status: Status): Option<BufferNode> {
    var i := SearchBuffer(buf, seqNo, status);
    if i == NULL_INDEX then None else Some(Searched(buf, status)[i])
  }

  /** The call returned the distances that record `used` gives and stored the new communication with its T23, beside the
      communication of the opposite direction that record `last` holds. */
  ghost predicate StoredFrom(buf: Buffer, out: Outcome, used: BufferNode, last: BufferNode, node: ListNode,
      status: Status)
  {
    var q := QuadOf(used, node.tx, node.rx, status);
    && T23Of(used, node, status).Some? && out.distance.Some? && q.Sum() > 0
    && var (t23, d) := (T23Of(used, node, status).value, out.distance.value);
       && d.modified == t23 / 2.0 * VELOCITY && d.classic * q.Sum() as real == Excess(q) as real * VELOCITY
       && (status.Sender? ==>
             && out.buf.receive == buf.receive && |out.buf.send| == |buf.send| + 1 && buf.send <= out.buf.send
             && var b := out.buf.send[|buf.send|];
                && b.sendTx == node.tx && b.sendRx == node.rx && b.txSeq == node.localSeq && b.sumTof == t23
                && b.receiveTx == last.receiveTx && b.receiveRx == last.receiveRx && b.rxSeq == last.rxSeq)
       && (status.Receiver? ==>
             && out.buf.send == buf.send && |out.buf.receive| == |buf.receive| + 1 && buf.receive <= out.buf.receive
             && var b := out.buf.receive[|buf.receive|];
                && b.receiveTx == node.tx && b.receiveRx == node.rx && b.rxSeq == node.localSeq && b.sumTof == t23
                && b.sendTx == last.sendTx && b.sendRx == last.sendRx && b.txSeq == last.txSeq)
  }

  /** Which record decides, for every buffer and every new communication. The nearest one is used exactly if its
      distance is in range; the one nearest below it exactly if the first distance is defined, out of range, and the
      second is in range; and nothing is stored, and no distance returned, exactly if neither is the case. Whichever is
      used, the stored record names the nearest one as its opposite direction. */
  lemma CalculateDecides(buf: Buffer, node: ListNode, status: Status)
    ensures var out := CalculateTof(buf, node, node.localSeq, status, First);
            match NearestRecord(buf, node.localSeq, status)
            case None => out == Outcome(buf, None)
            case Some(b) =>
              var second := NearestRecord(buf, SeqKey(b, status), status);
              var retried := Rejects(b, node, status) && second.Some? && Accepts(second.value, node, status);
              && (Accepts(b, node, status) ==> StoredFrom(buf, out, b, b, node, status))
              && (retried ==> StoredFrom(buf, out, second.value, b, node, status))
              && (!Accepts(b, node, status) && !retried ==> out == Outcome(buf, None))
  {
    hide T23Of, Accepts, Rejects, StoredFrom, IsClosest, Closest, CalculateTof;
    SearchKeyBelow(buf, node.localSeq, status);
    var first := SearchBuffer(buf, node.localSeq, status);
    Attempt(buf, node, node.localSeq, status, First);
    if first != NULL_INDEX {
      var b := Searched(buf, status)[first];
      SearchKeyBelow(buf, SeqKey(b, status), status);
      Attempt(buf, node, SeqKey(b, status), status, Second);
      NotBoth(b, node, status);
    }
  }

  lemma NotBoth(b: BufferNode, node: ListNode, status: Status)
    ensures !(Accepts(b, node, status) && Rejects(b, node, status))
  {
  }

  /** One attempt, with the record it finds. */
  lemma Attempt(buf: Buffer, node: ListNode, checkSeq: nat, status: Status, flag: Flag)
    requires checkSeq <= node.localSeq
    ensures var out := CalculateTof(buf, node, checkSeq, status, flag);
            match NearestRecord(buf, checkSeq, status)
            case None => out == Outcome(buf, None)
            case Some(b) =>
              && NearestRecord(buf, node.localSeq, status).Some?
              && (Accepts(b, node, status) ==>
                    StoredFrom(buf, out, b, NearestRecord(buf, node.localSeq, status).value, node, status))
              && (Rejects(b, node, status) && flag.First? ==>
                    SeqKey(b, status) < checkSeq
                    && out == CalculateTof(buf, node, SeqKey(b, status), status, Second))
              && (!Accepts(b, node, status) && (flag.First? ==> !Rejects(b, node, status)) ==>
                    out == Outcome(buf, None))
  {
    hide Estimate, QuadOf, ClassicDistance, IsClosest, Closest, Quad.Sum, Excess;
    SearchKeyBelow(buf, checkSeq, status);
    var index := SearchBuffer(buf, checkSeq, status);
    if index != NULL_INDEX {
      var b := Searched(buf, status)[index];
      SearchIsMonotone(buf, checkSeq, node.localSeq, status);
      ClassicDistanceIs(QuadOf(b, node.tx, node.rx, status), b.sumTof);
    }
  }

  lemma ClassicDistanceIs(q: Quad, t12: real)
    ensures Estimate(q, t12).Some? ==>
              q.Sum() > 0 && ClassicDistance(q) * q.Sum() as real == Excess(q) as real * VELOCITY
  {
    hide Estimate, ClassicTof;
    if Estimate(q, t12).Some? {
      EstimateHasDenominator(q, t12);
      ClassicSolves(q);
      var x, s := ClassicTof(q), q.Sum() as real;
      assert (x * VELOCITY) * s == (x * s) * VELOCITY;
    }
  }

  // Two exchanges over a delay of 10, whose records carry a T12 of 60 instead of 20, and a third send.
  const OlderExchange := BufferNode(200, 210, 300, 310, 60.0, 1, 1)
  const NewerExchange := BufferNode(700, 710, 800, 810, 60.0, 2, 2)
  const ThirdSend := ListNode(1000, 1010, 3, 3)

  lemma ExampleQuads()
    ensures QuadOf(NewerExchange, 1000, 1010, Sender) == Quad(110, 210, 190, 90)
    ensures QuadOf(OlderExchange, 1000, 1010, Sender) == Quad(110, 710, 690, 90)
  {
  }

  lemma ExampleSearches()
    ensures var buf := Buffer([], [OlderExchange, NewerExchange]);
            NearestRecord(buf, 3, Sender) == Some(NewerExchange) && NearestRecord(buf, 2, Sender) == Some(OlderExchange)
  {
    hide Closest;
    var buf := Buffer([], [OlderExchange, NewerExchange]);
    assert Searched(buf, Sender)[0] == OlderExchange && Searched(buf, Sender)[1] == NewerExchange;
  }

  /** The retry at work: the newer record gives -600/190 and is rejected; the older one gives 9400/690, which is
      stored. */
  lemma RetryStores()
    ensures var out := CalculateTof(Buffer([], [OlderExchange, NewerExchange]), ThirdSend, 3, Sender, First);
            && T23Of(NewerExchange, ThirdSend, Sender).Some?
            && T23Of(NewerExchange, ThirdSend, Sender).value * 190.0 == -600.0
            && out.distance.Some? && out.distance.value.modified * 690.0 == 4700.0 * VELOCITY
            && |out.buf.send| == 1 && out.buf.send[0].sumTof * 690.0 == 9400.0 && out.buf.send[0].rxSeq == 2
  {
    hide CalculateTof, QuadOf, Estimate, NearestRecord, Quad.Sum;
    ExampleQuads();
    ExampleSearches();
    EstimateSolves(Quad(110, 210, 190, 90), 60.0);
    EstimateSolves(Quad(110, 710, 690, 90), 60.0);
    CalculateDecides(Buffer([], [OlderExchange, NewerExchange]), ThirdSend, Sender);
  }

  // ---------------------------------------------------------------- initializeCalculateTof

  /** The triple A3, B2, A1 of a double-sided exchange, as positions in the two lists. */
  datatype Triple = Triple(b2: int, a3: int)

  function OtherSide(status: Status): Status {
    if status.Sender? then Receiver else Sender
  }

  /** B2 is the record of listB nearest before A1 on the local clock, A3 that of listA nearest before B2. */
  function FindTriple(listA: Log, listB: Log, a1: nat, status: Status): Option<Triple>
    requires a1 < |listA|
  {
    if !Full(listA[a1]) then None
    else
      var b2 := Search(listB, Key(listA[a1], OtherSide(status)), status);
      if b2 == NULL_INDEX then None
      else
        var a3 := Search(listA, Key(listB[b2], status), OtherSide(status));
        if a3 == NULL_INDEX then None else Some(Triple(b2, a3))
  }

  /** Ra and Da on the clock of listB's receiver, Rb and Db on the other one. */
  function InitQuad(a1: ListNode, b2: ListNode, a3: ListNode): Quad {
    Quad(Interval(b2.rx, a3.tx), Interval(a1.rx, b2.tx), Interval(a1.tx, b2.rx), Interval(b2.tx, a3.rx))
  }

  /** The two nodes stored: the older pair in the opposite half, the newer pair in the half of `status`. */
  function InitNodes(a1: ListNode, b2: ListNode, a3: ListNode, sum: real, status: Status): (BufferNode, BufferNode) {
    if status.Sender? then
      (BufferNode(a1.tx, a1.rx, b2.tx, b2.rx, sum, a1.localSeq, b2.localSeq),
       BufferNode(a3.tx, a3.rx, b2.tx, b2.rx, sum, a3.localSeq, b2.localSeq))
    else
      (BufferNode(b2.tx, b2.rx, a3.tx, a3.rx, sum, b2.localSeq, a3.localSeq),
       BufferNode(b2.tx, b2.rx, a1.tx, a1.rx, sum, b2.localSeq, a1.localSeq))
  }

  datatype InitResult = InitResult(buf: Buffer, initTofSum: int)

  /** initializeCalculateTof; initTofSum is the running integer total of the initial estimates. */
  function InitializeCalculateTof(listA: Log, listB: Log, a1: nat, buf: Buffer, initTofSum: int,
        status: Status): InitResult
    requires a1 < |listA|
  {
    var triple := FindTriple(listA, listB, a1, status);
    if triple.None? then InitResult(buf, initTofSum)
    else
      var b2, a3 := listB[triple.value.b2], listA[triple.value.a3];
      var q := InitQuad(listA[a1], b2, a3);
      if q.Sum() == 0 || ClassicTof(q) < 0.0 then InitResult(buf, initTofSum)
      else
        var (sender, receiver) := InitNodes(listA[a1], b2, a3, ClassicTof(q) * 2.0, status);
        InitResult(Buffer(buf.send + [sender], buf.receive + [receiver]),
                   TruncateReal(initTofSum as real + ClassicTof(q)))
  }

  /** The conversion of a float to int64 truncates toward zero. */
  function TruncateReal(x: real): int {
    if x >= 0.0 then x.Floor else -((-x).Floor)
  }

  /** The initial triple is the nearest causal one: on the local clock A3 precedes B2 and B2 precedes A1, and
      no full record the ring remembers lies strictly between neighbours of the triple. Initialization
      without a triple means that no record qualifies. */
  lemma NearestCausalTriple(listA: Log, listB: Log, a1: nat, status: Status)
    requires a1 < |listA| && Full(listA[a1])
    ensures match FindTriple(listA, listB, a1, status)
            case Some(Triple(b2, a3)) =>
              && 0 <= b2 < |listB| && 0 <= a3 < |listA| && Full(listB[b2]) && Full(listA[a3])
              && Key(listA[a3], OtherSide(status)) < Key(listB[b2], status) < Key(listA[a1], OtherSide(status))
              && (forall j :: Oldest(listB) <= j < |listB| && Full(listB[j]) ==>
                    !(Key(listB[b2], status) < Key(listB[j], status) < Key(listA[a1], OtherSide(status))))
              && (forall j :: Oldest(listA) <= j < |listA| && Full(listA[j]) ==>
                    !(Key(listA[a3], OtherSide(status)) < Key(listA[j], OtherSide(status)) < Key(listB[b2], status)))
            case None =>
              || (forall j :: Oldest(listB) <= j < |listB| ==>
                    !Eligible(listB[j], Key(listA[a1], OtherSide(status)), status))
              || exists b2 :: 0 <= b2 < |listB|
                  && IsNearest(listB, Key(listA[a1], OtherSide(status)), status, Oldest(listB), b2)
                  && forall j :: Oldest(listA) <= j < |listA| ==>
                       !Eligible(listA[j], Key(listB[b2], status), OtherSide(status))
  {
    // In the RECEIVER case both searches run on the local clock as well: A is received, B is sent.
    var b2 := Search(listB, Key(listA[a1], OtherSide(status)), status);
    if b2 != NULL_INDEX {
      var a3 := Search(listA, Key(listB[b2], status), OtherSide(status));
    }
  }
}

module RangingBuffers {
  import opened Config
  import opened TofMath
  import opened RangingListSpec
  import opened RangingBufferSpec
  import RangingLists

  class RangingBuffer {
    var sendLength: nat
    var receiveLength: nat
    var topSendBuffer: int
    var topReceiveBuffer: int
    const sendBuffer: array<BufferNode>
    const receiveBuffer: array<BufferNode>
    ghost var buf: Buffer

    ghost predicate Valid()
      reads this, sendBuffer, receiveBuffer
    {
      && sendBuffer != receiveBuffer
      && HoldsLast(sendBuffer, topSendBuffer, sendLength, buf.send)
      && HoldsLast(receiveBuffer, topReceiveBuffer, receiveLength, buf.receive)
    }

    /** The ring `a` with its top and length remembers the newest nodes of the log. */
    static ghost predicate HoldsLast(a: array<BufferNode>, top: int, length: nat, nodes: seq<BufferNode>)
      reads a
    {
      && a.Length == RANGING_BUFFER_SIZE
      && length == Length(nodes)
      && top == (if nodes == [] then NULL_INDEX else (|nodes| - 1) % RANGING_BUFFER_SIZE)
      && (forall i :: |nodes| - length <= i < |nodes| ==> a[i % RANGING_BUFFER_SIZE] == nodes[i])
    }

    /** initRangingBuffer */
    constructor ()
      ensures Valid() && buf == EmptyBuffer && fresh(sendBuffer) && fresh(receiveBuffer)
    {
      sendLength, receiveLength := 0, 0;
      topSendBuffer, topReceiveBuffer := NULL_INDEX, NULL_INDEX;
      sendBuffer := new BufferNode[RANGING_BUFFER_SIZE](_ => NullBufferNode);
      receiveBuffer := new BufferNode[RANGING_BUFFER_SIZE](_ => NullBufferNode);
      buf := EmptyBuffer;
    }

    static function Slot(i: int): int {
      if i < 0 then NULL_INDEX else i % RANGING_BUFFER_SIZE
    }

    static lemma NextSlot(nodes: seq<BufferNode>, top: int)
      requires top == (if nodes == [] then NULL_INDEX else (|nodes| - 1) % RANGING_BUFFER_SIZE)
      ensures (top + 1) % RANGING_BUFFER_SIZE == |nodes| % RANGING_BUFFER_SIZE
      ensures forall j | 0 <= j && |nodes| - RANGING_BUFFER_SIZE < j < |nodes| ::
                j % RANGING_BUFFER_SIZE != |nodes| % RANGING_BUFFER_SIZE
    {
    }

    /** addRangingBuffer */
    method AddRangingBuffer(node: BufferNode, status: Status)
      requires Valid()
      modifies this, sendBuffer, receiveBuffer
      ensures Valid() && buf == Add(old(buf), node, status)
    {
      if status.Sender? {
        topSendBuffer, sendLength := Push(sendBuffer, topSendBuffer, sendLength, buf.send, node);
        buf := Add(buf, node, Sender);
      } else {
        topReceiveBuffer, receiveLength := Push(receiveBuffer, topReceiveBuffer, receiveLength, buf.receive, node);
        buf := Add(buf, node, Receiver);
      }
    }

    /** What both branches of addRangingBuffer do to their ring. */
    static method Push(a: array<BufferNode>, top: int, length: nat, ghost nodes: seq<BufferNode>, node: BufferNode)
      returns (top': int, length': nat)
      requires HoldsLast(a, top, length, nodes)
      modifies a
      ensures HoldsLast(a, top', length', nodes + [node])
    {
      NextSlot(nodes, top);
      top' := (top + 1) % RANGING_BUFFER_SIZE;
      length' := if length < RANGING_BUFFER_SIZE then length + 1 else RANGING_BUFFER_SIZE;
      a[top'] := node;
    }

    static lemma HoldsBounds(a: array<BufferNode>, top: int, length: nat, nodes: seq<BufferNode>)
      requires HoldsLast(a, top, length, nodes)
      ensures length <= |nodes| && (length > 0 ==> top == (|nodes| - 1) % RANGING_BUFFER_SIZE)
    {
    }

    static lemma WalkStep(a: array<BufferNode>, top: int, length: nat, nodes: seq<BufferNode>, j: nat)
      requires HoldsLast(a, top, length, nodes) && j < length
      ensures length <= |nodes| && a.Length == RANGING_BUFFER_SIZE
      ensures a[(|nodes| - 1 - j) % RANGING_BUFFER_SIZE] == nodes[|nodes| - 1 - j]
      ensures ((|nodes| - 1 - j) % RANGING_BUFFER_SIZE - 1 + RANGING_BUFFER_SIZE) % RANGING_BUFFER_SIZE
           == (|nodes| - 1 - (j + 1)) % RANGING_BUFFER_SIZE
    {
    }

    /** The backward walk both branches of searchRangingBuffer make. */
    static method Walk(a: array<BufferNode>, top: int, length: nat, ghost nodes: seq<BufferNode>,
                       seqNo: nat, status: Status) returns (index: int)
      requires HoldsLast(a, top, length, nodes)
      ensures length <= |nodes|
      ensures index == Slot(Closest(nodes, seqNo, status, |nodes| - length))
    {
      hide SeqKey, IsClosest, HoldsLast;
      index := NULL_INDEX;
      ghost var found := NULL_INDEX;
      var i := top;
      assert length <= |nodes| && (length > 0 ==> top == (|nodes| - 1) % RANGING_BUFFER_SIZE) by {
        HoldsBounds(a, top, length, nodes);
      }
      for j := 0 to length
        invariant j < length ==> i == (|nodes| - 1 - j) % RANGING_BUFFER_SIZE
        invariant found == NULL_INDEX || |nodes| - j <= found < |nodes|
        invariant found == Closest(nodes, seqNo, status, |nodes| - j)
        invariant index == Slot(found)
      {
        WalkStep(a, top, length, nodes, j);
        if found != NULL_INDEX { WalkStep(a, top, length, nodes, |nodes| - 1 - found); }
        if SeqKey(a[i], status) < seqNo {
          if index == NULL_INDEX || SeqKey(a[i], status) > SeqKey(a[index], status) {
            index := i;
            found := |nodes| - 1 - j;
          }
        }
        i := (i - 1 + RANGING_BUFFER_SIZE) % RANGING_BUFFER_SIZE;
      }
    }

    /** searchRangingBuffer */
    method SearchRangingBuffer(seqNo: nat, status: Status) returns (index: int)
      requires Valid()
      ensures index == Slot(SearchBuffer(buf, seqNo, status))
    {
      if status.Sender? {
        index := Walk(receiveBuffer, topReceiveBuffer, receiveLength, buf.receive, seqNo, status);
      } else {
        index := Walk(sendBuffer, topSendBuffer, sendLength, buf.send, seqNo, status);
      }
    }

    /** The node in the ring slot a search returned. */
    method Record(index: int, ghost i: int, status: Status) returns (b: BufferNode)
      requires Valid() && index == Slot(i)
      requires |Searched(buf, status)| - Length(Searched(buf, status)) <= i < |Searched(buf, status)|
      ensures b == Searched(buf, status)[i]
    {
      b := if status.Sender? then receiveBuffer[index] else sendBuffer[index];
    }

    /** calculateTof */
    method CalculateTof(node: ListNode, checkSeq: nat, status: Status, flag: Flag) returns (distance: Option<Distance>)
      requires Valid() && checkSeq <= node.localSeq
      modifies this, sendBuffer, receiveBuffer
      ensures Valid()
      ensures Outcome(buf, distance) == RangingBufferSpec.CalculateTof(old(buf), node, checkSeq, status, flag)
      decreases if flag.First? then 1 else 0
    {
      hide Estimate, QuadOf, Closest, IsClosest, DistanceOf, InRange, ClassicDistance;
      ghost var found := SearchBuffer(buf, checkSeq, status);
      SearchBounds(buf, checkSeq, status);
      var index := SearchRangingBuffer(checkSeq, status);
      if index == NULL_INDEX {
        return None;
      }
      var bufferNode := Record(index, found, status);
      var q := QuadOf(bufferNode, node.tx, node.rx, status);
      var t23 := Estimate(q, bufferNode.sumTof);
      if t23.None? {
        return None;
      }
      var d := DistanceOf(t23.value / 2.0);
      if !InRange(d) {
        if flag.First? {
          SearchKeyBelow(buf, checkSeq, status);
          distance := CalculateTof(node, SeqKey(bufferNode, status), status, Second);
          return;
        }
        return None;
      }
      SearchIsMonotone(buf, checkSeq, node.localSeq, status);
      SearchBounds(buf, node.localSeq, status);
      var last := SearchRangingBuffer(node.localSeq, status);
      var lastNode := Record(last, SearchBuffer(buf, node.localSeq, status), status);
      AddRangingBuffer(NewNode(lastNode, node, t23.value, status), status);
      return Some(Distance(d, ClassicDistance(q)));
    }

    static lemma SearchBounds(buf: Buffer, seqNo: nat, status: Status)
      ensures var nodes, r := Searched(buf, status), SearchBuffer(buf, seqNo, status);
              r == NULL_INDEX || |nodes| - Length(nodes) <= r < |nodes|
    {
    }

    /** initializeCalculateTof. listA and listB are the two lists of the neighbour, in the order `status`
        asks for; the NULL check on B2 is made before B2 is read. */
    method InitializeCalculateTof(listA: RangingLists.RangingList, listB: RangingLists.RangingList,
                                  ghost a1: nat, indexA: int, initTofSum: int, status: Status) returns (sum: int)
      requires Valid() && listA.Valid() && listB.Valid()
      requires Oldest(listA.log) <= a1 < |listA.log| && indexA == listA.Slot(a1)
      modifies this, sendBuffer, receiveBuffer
      ensures listA.log == old(listA.log) && listB.log == old(listB.log)
      ensures Valid()
      ensures InitResult(buf, sum) == RangingBufferSpec.InitializeCalculateTof(
                                        old(listA.log), old(listB.log), a1, old(buf), initTofSum, status)
    {
      hide ClassicTof, InitQuad, TruncateReal, IsNearest, Nearest;
      var first := listA.rangingList[indexA];
      if !Full(first) {
        return initTofSum;
      }
      var indexB2 := listB.Search(Key(first, OtherSide(status)), status);
      if indexB2 == NULL_INDEX {
        return initTofSum;
      }
      var second := listB.rangingList[indexB2];
      var indexA3 := listA.Search(Key(second, status), OtherSide(status));
      if indexA3 == NULL_INDEX {
        return initTofSum;
      }
      var third := listA.rangingList[indexA3];
      var q := InitQuad(first, second, third);
      if q.Sum() == 0 || ClassicTof(q) < 0.0 {
        return initTofSum;
      }
      var (sender, receiver) := InitNodes(first, second, third, ClassicTof(q) * 2.0, status);
      AddRangingBuffer(receiver, Receiver);
      AddRangingBuffer(sender, Sender);
      return TruncateReal(initTofSum as real + ClassicTof(q));
    }
  }
}
