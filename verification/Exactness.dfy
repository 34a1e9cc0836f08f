/** Exactness on a static link, seen from one drone: with drift-free clocks at a constant offset, a constant
    integer delay and messages that do not cross, every calculation returns the delay. */
module Exactness {
  import opened Config
  import opened TofMath
  import opened RangingListSpec
  import opened RangingBufferSpec
  import opened NodeSpec
  import opened LossTolerance
  import opened ExactlyOnce
  import opened Phases
  import opened Pairing

  /** The neighbour's clock runs `offset` ahead; every message takes `delay`. */
  datatype Link = Link(delay: nat, offset: int)

  ghost predicate Static(t: Truth, link: Link) {
    && (forall s :: 1 <= s <= |t.mine| && s in t.theirHeard ==>
          t.theirHeard[s] == t.mine[s - 1].time + link.offset + link.delay)
    && (forall r :: 1 <= r <= |t.theirs| && r in t.myHeard ==>
          t.myHeard[r] == t.theirs[r - 1].time - link.offset + link.delay)
  }

  /** Timestamps are 40-bit values that have not wrapped. */
  ghost predicate Within40Bits(t: Truth) {
    && (forall s <- t.mine :: s.time < UWB_MAX_TIMESTAMP) && (forall s <- t.theirs :: s.time < UWB_MAX_TIMESTAMP)
    && (forall k :: k in t.myHeard ==> t.myHeard[k] < UWB_MAX_TIMESTAMP)
    && (forall k :: k in t.theirHeard ==> t.theirHeard[k] < UWB_MAX_TIMESTAMP)
  }

  /** Of a send that left before a message of the neighbour arrived, the neighbour heard before it sent that message. */
  ghost predicate NoCrossing(t: Truth) {
    forall s, r | 1 <= s <= |t.mine| && s in t.theirHeard && 1 <= r <= |t.theirs| && r in t.myHeard ::
      t.mine[s - 1].time < t.myHeard[r] ==> t.theirHeard[s] < t.theirs[r - 1].time
  }

  ghost predicate GoodLink(t: Truth, link: Link) {
    && Static(t, link) && Within40Bits(t) && NoCrossing(t)
    && link.delay as real * VELOCITY <= MAX_DISTANCE
  }

  // ---------------------------------------------------------------- one double-sided exchange

  lemma PlainInterval(later: nat, earlier: nat)
    requires earlier <= later < UWB_MAX_TIMESTAMP
    ensures Interval(later, earlier) == later - earlier
  {
  }

  /** Send s leaves before message r arrives: one clock sees two flights more than the other. */
  lemma SendThenReceive(t: Truth, link: Link, s: nat, stx: nat, srx: nat, r: nat, rtx: nat, rrx: nat)
    requires GoodLink(t, link) && SentPair(t, s, stx, srx) && ReceivedPair(t, r, rtx, rrx) && stx < rrx
    ensures Interval(rtx, srx) > 0 && Interval(rrx, stx) - Interval(rtx, srx) == 2 * link.delay
  {
    hide Interval;
    PairsFit(t, link, s, stx, srx, r, rtx, rrx);
    PlainInterval(rtx, srx);
    PlainInterval(rrx, stx);
  }

  lemma PairsFit(t: Truth, link: Link, s: nat, stx: nat, srx: nat, r: nat, rtx: nat, rrx: nat)
    requires GoodLink(t, link) && SentPair(t, s, stx, srx) && ReceivedPair(t, r, rtx, rrx)
    ensures srx == stx + link.offset + link.delay && rrx == rtx - link.offset + link.delay
    ensures stx < UWB_MAX_TIMESTAMP && srx < UWB_MAX_TIMESTAMP && rtx < UWB_MAX_TIMESTAMP && rrx < UWB_MAX_TIMESTAMP
    ensures stx < rrx ==> srx < rtx
  {
    assert t.mine[s - 1] in t.mine && t.theirs[r - 1] in t.theirs;
  }

  /** Message r arrives before send s leaves. */
  lemma ReceiveThenSend(t: Truth, link: Link, s: nat, stx: nat, srx: nat, r: nat, rtx: nat, rrx: nat)
    requires GoodLink(t, link) && SentPair(t, s, stx, srx) && ReceivedPair(t, r, rtx, rrx) && rrx < stx
    ensures Interval(stx, rrx) > 0 && Interval(srx, rtx) - Interval(stx, rrx) == 2 * link.delay
  {
    hide Interval;
    PairsFit(t, link, s, stx, srx, r, rtx, rrx);
    PlainInterval(stx, rrx);
    PlainInterval(srx, rtx);
  }

  /** A quad of a double-sided exchange without crossing is exact, in whichever branch. */
  ghost predicate ExactQuad(q: Quad, delay: nat) {
    q.da > 0 && q.db > 0 && DriftFree(q, 2 * delay, 2 * delay)
  }

  /** What both estimates should say. */
  function TrueDistance(delay: nat): Distance { Distance(delay as real * VELOCITY, delay as real * VELOCITY) }

  lemma TrueDistanceIs(delay: nat)
    ensures TrueDistance(delay) == Distance(delay as real * VELOCITY, delay as real * VELOCITY)
  {
  }

  lemma ExactQuadGivesDelay(q: Quad, delay: nat)
    requires ExactQuad(q, delay) && delay as real * VELOCITY <= MAX_DISTANCE
    ensures Estimate(q, 2.0 * delay as real) == Some(2.0 * delay as real)
    ensures q.Sum() > 0 && ClassicTof(q) == delay as real
    ensures Distance(DistanceOf(delay as real), ClassicDistance(q)) == TrueDistance(delay)
    ensures 2.0 * delay as real / 2.0 == delay as real && InRange(DistanceOf(delay as real))
  {
    hide Estimate, ClassicTof;
    assert (2 * delay) as real == 2.0 * delay as real;
    StaticLinkExact(q, 2 * delay);
  }

  /** Every stored record is exact and ordered on the local clock: in the send half the reception comes first,
      in the receive half the send does; no reception is later than `prev`. */
  ghost predicate ExactBuffer(buf: Buffer, delay: nat, prev: nat) {
    && (forall b <- buf.send :: b.receiveRx < b.sendTx && b.receiveRx <= prev && b.sumTof == 2.0 * delay as real)
    && (forall b <- buf.receive :: b.sendTx < b.receiveRx <= prev && b.sumTof == 2.0 * delay as real)
  }

  /** The latest reception that is filled, or 0. */
  function Prev(receiveList: Log): nat {
    if |receiveList| < 2 then 0 else receiveList[|receiveList| - 2].rx
  }

  // ---------------------------------------------------------------- calculation

  /** The record a calculation uses and the new one form an exact exchange. */
  lemma CalculationQuad(t: Truth, link: Link, b: BufferNode, node: ListNode, status: Status)
    requires GoodLink(t, link) && BufferNodeTrue(t, b)
    requires status.Sender? ==> SentPair(t, node.localSeq, node.tx, node.rx) && b.sendTx < b.receiveRx < node.tx
    requires status.Receiver? ==> ReceivedPair(t, node.localSeq, node.tx, node.rx) && b.receiveRx < b.sendTx < node.rx
    ensures ExactQuad(QuadOf(b, node.tx, node.rx, status), link.delay)
  {
    hide GoodLink, SentPair, ReceivedPair, Interval;
    if status.Sender? {
      SendThenReceive(t, link, b.txSeq, b.sendTx, b.sendRx, b.rxSeq, b.receiveTx, b.receiveRx);
      ReceiveThenSend(t, link, node.localSeq, node.tx, node.rx, b.rxSeq, b.receiveTx, b.receiveRx);
    } else {
      ReceiveThenSend(t, link, b.txSeq, b.sendTx, b.sendRx, b.rxSeq, b.receiveTx, b.receiveRx);
      SendThenReceive(t, link, b.txSeq, b.sendTx, b.sendRx, node.localSeq, node.tx, node.rx);
    }
  }

  /** On a static link a calculation succeeds whenever it finds a record, at the first attempt, and is exact. */
  lemma CalculationExact(t: Truth, link: Link, buf: Buffer, node: ListNode, status: Status, prev: nat)
    requires GoodLink(t, link) && BufferTrue(t, buf) && ExactBuffer(buf, link.delay, prev)
    requires status.Sender? ==> SentPair(t, node.localSeq, node.tx, node.rx)
                                && forall b <- buf.receive :: b.receiveRx < node.tx
    requires status.Receiver? ==> ReceivedPair(t, node.localSeq, node.tx, node.rx) && node.rx <= prev
                                  && forall b <- buf.send :: b.sendTx < node.rx
    ensures var out := CalculateTof(buf, node, node.localSeq, status, First);
            && ExactBuffer(out.buf, link.delay, prev)
            && out.distance == if SearchBuffer(buf, node.localSeq, status) == NULL_INDEX then None
                               else Some(TrueDistance(link.delay))
    ensures TrueDistance(link.delay) == Distance(link.delay as real * VELOCITY, link.delay as real * VELOCITY)
  {
    hide SentPair, ReceivedPair, GoodLink, Estimate, QuadOf, ClassicDistance, DistanceOf, InRange, BufferNodeTrue,
         ExactQuad, IsClosest, Closest, TrueDistance;
    TrueDistanceIs(link.delay);
    var index := SearchBuffer(buf, node.localSeq, status);
    SearchKeyBelow(buf, node.localSeq, status);
    if index != NULL_INDEX {
      var b := Searched(buf, status)[index];
      assert BufferNodeTrue(t, b);
      CalculationQuad(t, link, b, node, status);
      DelayInRange(t, link);
      ExactQuadGivesDelay(QuadOf(b, node.tx, node.rx, status), link.delay);
    }
  }

  lemma DelayInRange(t: Truth, link: Link)
    requires GoodLink(t, link)
    ensures link.delay as real * VELOCITY <= MAX_DISTANCE
  {
  }

  // ---------------------------------------------------------------- initialization

  lemma InitializationQuad(t: Truth, link: Link, a1: ListNode, b2: ListNode, a3: ListNode, status: Status)
    requires GoodLink(t, link)
    requires status.Sender? ==> SentPair(t, a1.localSeq, a1.tx, a1.rx) && SentPair(t, a3.localSeq, a3.tx, a3.rx)
                                && ReceivedPair(t, b2.localSeq, b2.tx, b2.rx) && a3.tx < b2.rx < a1.tx
    requires status.Receiver? ==> ReceivedPair(t, a1.localSeq, a1.tx, a1.rx)
                                  && ReceivedPair(t, a3.localSeq, a3.tx, a3.rx)
                                  && SentPair(t, b2.localSeq, b2.tx, b2.rx) && a3.rx < b2.tx < a1.rx
    ensures ExactQuad(InitQuad(a1, b2, a3), link.delay)
  {
    hide GoodLink, SentPair, ReceivedPair, Interval;
    if status.Sender? {
      SendThenReceive(t, link, a3.localSeq, a3.tx, a3.rx, b2.localSeq, b2.tx, b2.rx);
      ReceiveThenSend(t, link, a1.localSeq, a1.tx, a1.rx, b2.localSeq, b2.tx, b2.rx);
    } else {
      ReceiveThenSend(t, link, b2.localSeq, b2.tx, b2.rx, a3.localSeq, a3.tx, a3.rx);
      SendThenReceive(t, link, b2.localSeq, b2.tx, b2.rx, a1.localSeq, a1.tx, a1.rx);
    }
  }

  lemma TruncateWhole(sum: int, delay: nat, x: real)
    requires x == delay as real && sum >= 0
    ensures TruncateReal(sum as real + x) == sum + delay
  {
    assert sum as real + x == (sum + delay) as real;
  }

  /** An initialization succeeds whenever there is a causal triple, and its estimate is exactly the delay. */
  lemma InitializationExact(t: Truth, link: Link, sendList: Log, receiveList: Log, a1: nat, buf: Buffer, sum: nat,
        status: Status)
    requires GoodLink(t, link) && SendListTrue(t, sendList) && ReceiveListTrue(t, receiveList)
    requires NoStale(receiveList) && RxIncreasing(receiveList) && receiveList != []
    requires SentBefore(sendList, Last(receiveList).rx)
    requires status.Sender? ==> a1 < |sendList|
    requires status.Receiver? ==> a1 < |receiveList| - 1 && Filled(receiveList[a1])
    ensures var (listA, listB) := if status.Sender? then (sendList, receiveList) else (receiveList, sendList);
            var r := InitializeCalculateTof(listA, listB, a1, buf, sum, status);
            ExactBuffer(buf, link.delay, Prev(receiveList)) ==> ExactBuffer(r.buf, link.delay, Prev(receiveList))
    ensures var (listA, listB) := if status.Sender? then (sendList, receiveList) else (receiveList, sendList);
            var r := InitializeCalculateTof(listA, listB, a1, buf, sum, status);
            if FindTriple(listA, listB, a1, status).None? then r == InitResult(buf, sum)
            else
              && |r.buf.send| == |buf.send| + 1 && |r.buf.receive| == |buf.receive| + 1
              && r.initTofSum == sum + link.delay
  {
    hide InitQuad, ClassicTof, TruncateReal, SentPair, ReceivedPair, FindTriple, GoodLink, ExactQuad, Filled,
         ClassicDistance, DistanceOf, InRange;
    var (listA, listB) := if status.Sender? then (sendList, receiveList) else (receiveList, sendList);
    var triple := FindTriple(listA, listB, a1, status);
    if triple.Some? {
      TripleOrder(sendList, receiveList, a1, status);
      var b2, a3 := listB[triple.value.b2], listA[triple.value.a3];
      InitializationQuad(t, link, listA[a1], b2, a3, status);
      DelayInRange(t, link);
      ExactQuadGivesDelay(InitQuad(listA[a1], b2, a3), link.delay);
      TruncateWhole(sum, link.delay, ClassicTof(InitQuad(listA[a1], b2, a3)));
      OlderThanPrev(receiveList);
    }
  }

  lemma OlderThanPrev(receiveList: Log)
    requires RxIncreasing(receiveList)
    ensures forall i :: 0 <= i < |receiveList| - 1 ==> receiveList[i].rx <= Prev(receiveList)
  {
  }

  // ---------------------------------------------------------------- averaging

  /** The sum of the initial estimates of this neighbour, which must be the only one. */
  ghost predicate Counted(buf: Buffer, sum: int, delay: nat) {
    Phased(buf) && sum >= 0 && (Initializing(buf) ==> sum == delay * |buf.send|)
  }

  lemma AverageIsExact(sum: int, delay: nat)
    requires sum == delay * MAX_INITIAL_CALCULATION
    ensures InitialSumTof(sum) == 2.0 * delay as real
  {
    assert sum as real == delay as real * 6.0;
  }

  lemma AveragesStayExact(buf: Buffer, sum: int, i: nat, delay: nat, prev: nat)
    requires ExactBuffer(buf, delay, prev) && i < MESSAGE_HEAD_TX_SIZE && InitialSumTof(sum) == 2.0 * delay as real
    ensures |buf.send| == RANGING_BUFFER_SIZE ==> ExactBuffer(AverageSend(buf, i, sum), delay, prev)
    ensures ExactBuffer(AverageReceive(buf, sum), delay, prev)
  {
    hide InitialSumTof;
    if |buf.send| == RANGING_BUFFER_SIZE {
      var send := AverageSend(buf, i, sum).send;
      forall b | b in send
        ensures b.receiveRx < b.sendTx && b.receiveRx <= prev && b.sumTof == 2.0 * delay as real
      {
        var j :| 0 <= j < |send| && send[j] == b;
        assert buf.send[j] in buf.send;
      }
    }
    var receive := AverageReceive(buf, sum).receive;
    forall b | b in receive
      ensures b.sendTx < b.receiveRx <= prev && b.sumTof == 2.0 * delay as real
    {
      var j :| 0 <= j < |receive| && receive[j] == b;
      assert buf.receive[j] in buf.receive;
    }
  }

  // ---------------------------------------------------------------- the loops of one message

  ghost predicate ExactDistance(d: Option<Distance>, delay: nat) {
    d.Some? ==> d.value == TrueDistance(delay)
  }

  ghost predicate ExactProgress(p: Progress, delay: nat) {
    && ExactBuffer(p.nb.validBuffer, delay, Prev(p.nb.receiveList))
    && Counted(p.nb.validBuffer, p.initTofSum, delay)
    && ExactDistance(p.distance, delay)
  }

  lemma NextCount(delay: nat, n: nat, sum: int)
    requires sum == delay * n
    ensures sum + delay == delay * (n + 1)
  {
  }

  lemma ReceiverCalculationExact(t: Truth, link: Link, p: Progress, k: nat, i: nat)
    requires GoodLink(t, link) && TableTrue(t, p.nb) && ExactProgress(p, link.delay)
    requires k < |p.nb.receiveList| - 1 && Filled(p.nb.receiveList[k]) && i < MESSAGE_HEAD_TX_SIZE
    requires forall b <- p.nb.validBuffer.send :: b.sendTx < p.nb.receiveList[k].rx
    ensures ExactProgress(ReceiverCalculation(p, k, i), link.delay)
  {
    hide CalculateTof, InitializeCalculateTof, AverageSend, GoodLink, SentPair, ReceivedPair, BufferTrue, ExactBuffer,
         InitialSumTof, TrueDistance, Prev;
    var nb := p.nb;
    var prev := Prev(nb.receiveList);
    LengthsAgree(nb.validBuffer);
    if Initializing(nb.validBuffer) {
      InitializationExact(t, link, nb.sendList, nb.receiveList, k, nb.validBuffer, p.initTofSum, Receiver);
      var r := InitializeCalculateTof(nb.receiveList, nb.sendList, k, nb.validBuffer, p.initTofSum, Receiver);
      NextCount(link.delay, |nb.validBuffer.send|, p.initTofSum);
      if |r.buf.send| >= MAX_INITIAL_CALCULATION {
        AverageIsExact(r.initTofSum, link.delay);
        AveragesStayExact(r.buf, r.initTofSum, i, link.delay, prev);
        AverageKeepsLengths(r.buf, i, r.initTofSum);
      }
    } else {
      OlderThanPrev(nb.receiveList);
      CalculationExact(t, link, nb.validBuffer, nb.receiveList[k], Receiver, prev);
      CalculateGrows(nb.validBuffer, nb.receiveList[k], Receiver);
    }
  }

  lemma AverageKeepsLengths(buf: Buffer, i: nat, sum: int)
    requires |buf.send| == RANGING_BUFFER_SIZE && i < MESSAGE_HEAD_TX_SIZE
    ensures |AverageSend(buf, i, sum).send| == |buf.send| && |AverageSend(buf, i, sum).receive| == |buf.receive|
  {
  }

  lemma CalculateGrows(buf: Buffer, node: ListNode, status: Status)
    ensures Grows(buf, CalculateTof(buf, node, node.localSeq, status, First).buf)
  {
    hide CalculateTof, NewNode, DistanceOf, InRange;
    CalculateIsAtomic(buf, node, node.localSeq, status, First);
  }

  lemma SenderCalculationExact(t: Truth, link: Link, p: Progress)
    requires GoodLink(t, link) && TableTrue(t, p.nb) && ExactProgress(p, link.delay) && p.nb.sendList != []
    requires p.nb.sendList[|p.nb.sendList| - 1].tx > Prev(p.nb.receiveList)
    ensures ExactProgress(SenderCalculation(p), link.delay)
  {
    hide CalculateTof, InitializeCalculateTof, AverageReceive, GoodLink, SentPair, ReceivedPair, BufferTrue,
         InitialSumTof, TrueDistance, Prev;
    var nb := p.nb;
    var k := |nb.sendList| - 1;
    var prev := Prev(nb.receiveList);
    LengthsAgree(nb.validBuffer);
    if Initializing(nb.validBuffer) {
      InitializationExact(t, link, nb.sendList, nb.receiveList, k, nb.validBuffer, p.initTofSum, Sender);
      var r := InitializeCalculateTof(nb.sendList, nb.receiveList, k, nb.validBuffer, p.initTofSum, Sender);
      NextCount(link.delay, |nb.validBuffer.send|, p.initTofSum);
      if |r.buf.send| >= MAX_INITIAL_CALCULATION {
        AverageIsExact(r.initTofSum, link.delay);
        AveragesStayExact(r.buf, r.initTofSum, 0, link.delay, prev);
        AverageReceiveKeepsLengths(r.buf, r.initTofSum);
      }
    } else {
      CalculationExact(t, link, nb.validBuffer, nb.sendList[k], Sender, prev);
      CalculateGrows(nb.validBuffer, nb.sendList[k], Sender);
    }
  }

  lemma AverageReceiveKeepsLengths(buf: Buffer, sum: int)
    ensures |AverageReceive(buf, sum).send| == |buf.send| && |AverageReceive(buf, sum).receive| == |buf.receive|
  {
  }

  /** Every record the body loop pushes was sent after the previous reception. */
  ghost predicate PushesFollow(before: Log, after: Log, prev: nat) {
    before <= after && forall m :: |before| <= m < |after| ==> after[m].tx > prev
  }

  lemma {:induction false} BodyLoopExact(t: Truth, link: Link, p: Progress, rx: BodyStamps, i: nat)
    requires GoodLink(t, link) && TableTrue(t, p.nb) && ExactProgress(p, link.delay) && i <= MESSAGE_BODY_RX_SIZE
    requires GoodReport(t, rx, Last(p.nb.receiveList).rx)
    requires PushesFollow(p.nb.sendList, BodyLoop(p, t.mine, rx, i).nb.sendList, Prev(p.nb.receiveList))
    ensures ExactProgress(BodyLoop(p, t.mine, rx, i), link.delay)
    decreases i
  {
    hide SenderCalculation, Find, FindSend, TableTrue, GoodReport, GoodLink, ExactProgress, Prev;
    if i != 0 {
      var s := rx[i - 1];
      var next := BodyStep(p, t.mine, s);
      BodyLoopKeeps(next, t.mine, rx, i - 1);
      if Pushes(p.nb.sendList, t.mine, s) {
        NonEmpty(t, p.nb);
        PushKeepsTableTrue(t, p.nb, rx, s);
        var pushed := p.(nb := p.nb.(sendList := p.nb.sendList + [FullRecord(t.mine, s)]));
        SenderCalculationKeepsReceiveList(pushed);
        SenderCalculationKeepsList(pushed);
        SenderCalculationTrue(t, pushed);
        assert BodyLoop(p, t.mine, rx, i).nb.sendList[|p.nb.sendList|] == pushed.nb.sendList[|p.nb.sendList|];
        PushedStaysExact(p, pushed, link.delay);
        SenderCalculationExact(t, link, pushed);
      }
      NonEmpty(t, p.nb);
      BodyLoopExact(t, link, next, rx, i - 1);
    }
  }

  lemma PushedStaysExact(p: Progress, q: Progress, delay: nat)
    requires ExactProgress(p, delay) && q.nb.validBuffer == p.nb.validBuffer && q.initTofSum == p.initTofSum
    requires q.distance == p.distance && q.nb.receiveList == p.nb.receiveList
    ensures ExactProgress(q, delay)
  {
  }

  /** What an exact table keeps between messages. */
  ghost predicate ExactTable(nb: Neighbour, sum: int, delay: nat) {
    && Counted(nb.validBuffer, sum, delay)
    && (nb.receiveList == [] ==> nb.validBuffer == EmptyBuffer)
    && (nb.receiveList != [] ==> ExactBuffer(nb.validBuffer, delay, Last(nb.receiveList).rx))
  }

  /** The requirements of ProcessKeepsBufferTrue, in one place. */
  ghost predicate GoodReception(t: Truth, nb: Neighbour, n: Node, m: Inbound) {
    && n.history == t.mine && Numbered(n.history) && MessageTrue(t, m, n.address)
    && SendListTrue(t, nb.sendList) && ReceiveListTrue(t, nb.receiveList) && BufferTrue(t, nb.validBuffer)
    && Tolerant(nb.receiveList) && Ordered(nb)
    && (nb.receiveList != [] ==> Last(nb.receiveList).localSeq < m.msg.seqNo && Last(nb.receiveList).rx < m.rx)
    && (Initializing(nb.validBuffer) ==> NoStale(NextReceiveList(nb.receiveList, m.msg.seqNo, m.rx, m.msg.tx)))
    && (forall u <- m.msg.units :: u.dest == n.address ==> ReportsPast(t.mine, u.rx, m.rx))
  }

  /** After the header of a good message everything is exact up to the body loop. */
  lemma HeaderExact(t: Truth, link: Link, nb: Neighbour, n: Node, m: Inbound) returns (h: Progress)
    requires GoodLink(t, link) && GoodReception(t, nb, n, m) && ExactTable(nb, n.initTofSum, link.delay)
    ensures var heard := nb.(receiveList := AddReceived(nb.receiveList, m.rx, m.msg.seqNo));
            h == HeaderLoop(Progress(heard, n.initTofSum, None), m.msg.tx, MESSAGE_HEAD_TX_SIZE)
    ensures TableTrue(t, h.nb) && ExactProgress(h, link.delay)
    ensures h.nb.sendList == nb.sendList && Last(h.nb.receiveList).rx == m.rx
    ensures Prev(h.nb.receiveList) == if nb.receiveList == [] then 0 else Last(nb.receiveList).rx
  {
    hide HeaderLoop, ReceiverCalculation, TableTrue, SendListTrue, ReceiveListTrue, BufferTrue, MessageTrue,
         NextReceiveList, NoStale, Tolerant, ReportTrue, Numbered, GoodLink, ExactBuffer, RxIncreasing, SentBefore,
         Reaches;
    var log := nb.receiveList;
    var next := NextReceiveList(log, m.msg.seqNo, m.rx, m.msg.tx);
    TolerantIncreases(log);
    ReceptionKeepsTableTrue(t, nb, m, n.address);
    var heard := nb.(receiveList := AddReceived(log, m.rx, m.msg.seqNo));
    var p := Progress(heard, n.initTofSum, None);
    MessageHeader(t, m, n.address);
    HeaderLoopClosedForm(p, log, m.msg.seqNo, m.rx, m.msg.tx);
    h := HeaderLoop(p, m.msg.tx, MESSAGE_HEAD_TX_SIZE);
    var filled := p.(nb := nb.(receiveList := next));
    NextPrev(log, m.msg.seqNo, m.rx, m.msg.tx);
    if Reaches(log, m.msg.seqNo) {
      NextFilled(log, m.msg.seqNo, m.rx, m.msg.tx);
      var i := m.msg.seqNo - 1 - Last(log).localSeq;
      ReceiverCalculationTrue(t, filled, |log| - 1, i);
      CalculationKeepsList(filled, |log| - 1, i);
      ReceiverCalculationKeepsSendList(filled, |log| - 1, i);
      ReceiverCalculationExact(t, link, filled, |log| - 1, i);
    } else if log == [] {
      EmptyIsExact(link.delay, Prev(next));
    }
  }

  lemma NextPrev(log: Log, m: nat, rx: nat, tx: HeadStamps)
    ensures var next := NextReceiveList(log, m, rx, tx);
            && Prev(next) == (if log == [] then 0 else Last(log).rx)
            && next != [] && Last(next).rx == rx
            && (log != [] ==> next[|log| - 1].rx == Last(log).rx)
  {
    hide StaleTx;
  }

  lemma EmptyIsExact(delay: nat, prev: nat)
    ensures ExactBuffer(EmptyBuffer, delay, prev)
  {
  }

  lemma ReceiverCalculationKeepsSendList(p: Progress, k: nat, i: nat)
    requires k < |p.nb.receiveList| && i < MESSAGE_HEAD_TX_SIZE
    ensures ReceiverCalculation(p, k, i).nb.sendList == p.nb.sendList
  {
    hide CalculateTof, InitializeCalculateTof, AverageSend, Length;
  }

  /** One good message on a good link: the table stays exact and the distance, if there is one, is the true one. */
  lemma ProcessIsExact(t: Truth, link: Link, nb: Neighbour, n: Node, m: Inbound)
    requires GoodLink(t, link) && GoodReception(t, nb, n, m) && ExactTable(nb, n.initTofSum, link.delay)
    requires var prev := if nb.receiveList == [] then 0 else Last(nb.receiveList).rx;
             PushesFollow(nb.sendList, ProcessFor(nb, n, m).0.nb.sendList, prev)
    ensures var (p, d) := ProcessFor(nb, n, m);
            && ExactTable(p.nb, p.initTofSum, link.delay)
            && (d.Some? ==> d.value == Distance(link.delay as real * VELOCITY, link.delay as real * VELOCITY))
  {
    hide HeaderLoop, BodyLoop, TableTrue, ExactProgress, GoodLink, GoodReception, TrueDistance, Prev;
    TrueDistanceIs(link.delay);
    var h := HeaderExact(t, link, nb, n, m);
    var unit := UnitTo(m.msg.units, n.address);
    var q := h.(distance := None);
    ResetStaysExact(h, link.delay);
    NonEmpty(t, q.nb);
    if unit != NULL_INDEX {
      var rx := m.msg.units[unit].rx;
      GoodReportOf(t, nb, n, m, unit);
      BodyLoopExact(t, link, q, rx, MESSAGE_BODY_RX_SIZE);
      BodyLoopTrue(t, q, rx, MESSAGE_BODY_RX_SIZE);
      BodyLoopKeeps(q, t.mine, rx, MESSAGE_BODY_RX_SIZE);
      ExactAfter(t, BodyLoop(q, t.mine, rx, MESSAGE_BODY_RX_SIZE), link.delay);
      CombineExact(h, BodyLoop(q, t.mine, rx, MESSAGE_BODY_RX_SIZE), link.delay);
    } else {
      ExactAfter(t, q, link.delay);
      CombineExact(h, q, link.delay);
    }
  }

  /** A neighbour's messages were heard in the order in which it sent them. */
  ghost predicate InOrder(heard: map<nat, nat>) {
    forall r, r' :: r in heard && r' in heard && r < r' ==> heard[r] < heard[r']
  }

  /** Once initialized, every good message that fills a record yields the true distance: no calculation is ever
      rejected. */
  lemma ProcessAlwaysReports(t: Truth, link: Link, nb: Neighbour, n: Node, m: Inbound)
    requires GoodLink(t, link) && GoodReception(t, nb, n, m) && ExactTable(nb, n.initTofSum, link.delay)
    requires InOrder(t.myHeard)
    requires var prev := if nb.receiveList == [] then 0 else Last(nb.receiveList).rx;
             PushesFollow(nb.sendList, ProcessFor(nb, n, m).0.nb.sendList, prev)
    requires Reaches(nb.receiveList, m.msg.seqNo) && |nb.validBuffer.send| >= MAX_INITIAL_CALCULATION
    ensures ProcessFor(nb, n, m).1 == Some(Distance(link.delay as real * VELOCITY, link.delay as real * VELOCITY))
  {
    hide HeaderLoop, BodyLoop, TableTrue, GoodLink, GoodReception, TrueDistance, PushesFollow, InOrder, ExactTable;
    TrueDistanceIs(link.delay);
    ProcessIsExact(t, link, nb, n, m);
    HeaderReports(t, link, nb, n, m);
  }

  lemma HeaderReports(t: Truth, link: Link, nb: Neighbour, n: Node, m: Inbound)
    requires GoodLink(t, link) && GoodReception(t, nb, n, m) && ExactTable(nb, n.initTofSum, link.delay)
    requires InOrder(t.myHeard)
    requires Reaches(nb.receiveList, m.msg.seqNo) && |nb.validBuffer.send| >= MAX_INITIAL_CALCULATION
    ensures HeaderLoop(Progress(nb.(receiveList := AddReceived(nb.receiveList, m.rx, m.msg.seqNo)), n.initTofSum, None),
                       m.msg.tx, MESSAGE_HEAD_TX_SIZE).distance.Some?
  {
    hide HeaderLoop, CalculateTof, SendListTrue, MessageTrue, BufferTrue, NoStale, Tolerant, ReportTrue, Numbered,
         GoodLink, ExactBuffer, RxIncreasing, SentBefore, InOrder, SentPair, ReceivedPair, TrueDistance;
    TolerantIncreases(nb.receiveList);
    var log := nb.receiveList;
    var next := NextReceiveList(log, m.msg.seqNo, m.rx, m.msg.tx);
    ReceptionKeepsTableTrue(t, nb, m, n.address);
    var p := Progress(nb.(receiveList := AddReceived(log, m.rx, m.msg.seqNo)), n.initTofSum, None);
    MessageHeader(t, m, n.address);
    HeaderLoopClosedForm(p, log, m.msg.seqNo, m.rx, m.msg.tx);
    NextPrev(log, m.msg.seqNo, m.rx, m.msg.tx);
    NextFilled(log, m.msg.seqNo, m.rx, m.msg.tx);
    var node := next[|log| - 1];
    assert Filled(node);
    EarlierRecord(t, nb.validBuffer, link.delay, node, Prev(next));
    CalculationExact(t, link, nb.validBuffer, node, Receiver, Prev(next));
  }

  /** The newest record of the send half belongs to an earlier reception, so the search finds one. */
  lemma EarlierRecord(t: Truth, buf: Buffer, delay: nat, node: ListNode, prev: nat)
    requires BufferTrue(t, buf) && ExactBuffer(buf, delay, prev) && InOrder(t.myHeard)
    requires |buf.send| >= MAX_INITIAL_CALCULATION
    requires ReceivedPair(t, node.localSeq, node.tx, node.rx) && forall b <- buf.send :: b.sendTx < node.rx
    ensures SearchBuffer(buf, node.localSeq, Receiver) != NULL_INDEX
  {
    hide Closest;
    var b := buf.send[|buf.send| - 1];
    assert b in buf.send && BufferNodeTrue(t, b);
    assert b.rxSeq < node.localSeq;
    assert SeqKey(buf.send[|buf.send| - 1], Receiver) < node.localSeq;
  }

  lemma ResetStaysExact(p: Progress, delay: nat)
    requires ExactProgress(p, delay)
    ensures ExactProgress(p.(distance := None), delay)
  {
  }

  lemma GoodReportOf(t: Truth, nb: Neighbour, n: Node, m: Inbound, unit: nat)
    requires GoodReception(t, nb, n, m) && unit < MESSAGE_BODY_UNIT_SIZE && m.msg.units[unit].dest == n.address
    ensures GoodReport(t, m.msg.units[unit].rx, m.rx) && n.history == t.mine
  {
    hide MessageTrue, BufferTrue, Ordered, Tolerant;
    ReportOf(t, m, n.address, unit);
  }

  lemma ExactAfter(t: Truth, p: Progress, delay: nat)
    requires TableTrue(t, p.nb) && ExactProgress(p, delay)
    ensures ExactTable(p.nb, p.initTofSum, delay) && p.nb.receiveList != []
  {
    hide SendListTrue, ReceiveListTrue, BufferTrue, Counted;
    assert Prev(p.nb.receiveList) <= Last(p.nb.receiveList).rx;
  }

  lemma CombineExact(h: Progress, b: Progress, delay: nat)
    requires ExactProgress(h, delay) && ExactProgress(b, delay)
    ensures ExactDistance(Combine(h.distance, b.distance), delay)
  {
    hide DistanceOf;
  }

  /** An exact distance is reported as it is: compensation has nothing to add. */
  lemma ReportIsExact(lastD: Option<real>, delay: nat)
    requires lastD.Some? ==> lastD.value == delay as real * VELOCITY
    ensures Compensate(lastD, TrueDistance(delay)) == TrueDistance(delay)
  {
    hide DistanceOf;
  }
}
