/** Pairing, seen from one drone: what its table of one neighbour holds is compared with what really happened
    on the link between the two. */
module Pairing {
  import opened Config
  import opened TofMath
  import opened RangingListSpec
  import opened RangingBufferSpec
  import opened NodeSpec
  import opened LossTolerance
  import opened ExactlyOnce

  /** The true history of a link: what each side sent and when, and what each side heard of the other and when. */
  datatype Truth = Truth(mine: History, theirs: History, myHeard: map<nat, nat>, theirHeard: map<nat, nat>)

  /** Send number seqNo of this drone left at tx and was heard by the neighbour at rx. */
  ghost predicate SentPair(t: Truth, seqNo: nat, tx: nat, rx: nat) {
    && 1 <= seqNo <= |t.mine| && t.mine[seqNo - 1].time == tx
    && seqNo in t.theirHeard && t.theirHeard[seqNo] == rx
  }

  /** Send number seqNo of the neighbour left at tx and was heard by this drone at rx. */
  ghost predicate ReceivedPair(t: Truth, seqNo: nat, tx: nat, rx: nat) {
    && 1 <= seqNo <= |t.theirs| && t.theirs[seqNo - 1].time == tx
    && seqNo in t.myHeard && t.myHeard[seqNo] == rx
  }

  ghost predicate SendListTrue(t: Truth, log: Log) {
    forall i :: 0 <= i < |log| ==>
      log[i].remoteSeq == log[i].localSeq && SentPair(t, log[i].localSeq, log[i].tx, log[i].rx)
  }

  ghost predicate ReceiveListTrue(t: Truth, log: Log) {
    && (forall i :: 0 <= i < |log| ==> log[i].localSeq in t.myHeard && t.myHeard[log[i].localSeq] == log[i].rx)
    && (forall i :: 0 <= i < |log| && Filled(log[i]) ==>
          log[i].remoteSeq == log[i].localSeq && ReceivedPair(t, log[i].localSeq, log[i].tx, log[i].rx))
  }

  /** Both halves of every stored calculation record are true pairs. */
  ghost predicate BufferNodeTrue(t: Truth, b: BufferNode) {
    && SentPair(t, b.txSeq, b.sendTx, b.sendRx)
    && ReceivedPair(t, b.rxSeq, b.receiveTx, b.receiveRx)
  }

  ghost predicate BufferTrue(t: Truth, buf: Buffer) {
    && (forall b <- buf.send :: BufferNodeTrue(t, b))
    && (forall b <- buf.receive :: BufferNodeTrue(t, b))
  }

  // ---------------------------------------------------------------- the truth only grows

  ghost predicate SubMap(a: map<nat, nat>, b: map<nat, nat>) {
    forall k :: k in a ==> k in b && a[k] == b[k]
  }

  ghost predicate GrowsTo(t: Truth, u: Truth) {
    && t.mine <= u.mine && t.theirs <= u.theirs
    && SubMap(t.myHeard, u.myHeard) && SubMap(t.theirHeard, u.theirHeard)
  }

  lemma PairsStayTrue(t: Truth, u: Truth, sendList: Log, receiveList: Log, buf: Buffer)
    requires GrowsTo(t, u)
    ensures SendListTrue(t, sendList) ==> SendListTrue(u, sendList)
    ensures ReceiveListTrue(t, receiveList) ==> ReceiveListTrue(u, receiveList)
    ensures BufferTrue(t, buf) ==> BufferTrue(u, buf)
  {
  }

  // ---------------------------------------------------------------- messages

  /** A header whose stamps are sends of the given history. */
  ghost predicate HeaderTrue(history: History, tx: HeadStamps) {
    forall i :: 0 <= i < |tx| && tx[i].seqNo != NULL_SEQ ==>
      1 <= tx[i].seqNo <= |history| && history[tx[i].seqNo - 1].time == tx[i].time
  }

  ghost predicate ReportTrue(t: Truth, rx: BodyStamps) {
    forall s <- rx :: s.seqNo != NULL_SEQ ==> s.seqNo in t.theirHeard && t.theirHeard[s.seqNo] == s.time
  }

  /** The message a neighbour's drone processes: its header and its report to `address` are true, and its
      reception is recorded. */
  ghost predicate MessageTrue(t: Truth, m: Inbound, address: nat) {
    && m.msg.seqNo in t.myHeard && t.myHeard[m.msg.seqNo] == m.rx
    && HeaderOf(m.msg.tx, m.msg.seqNo) && HeaderTrue(t.theirs, m.msg.tx)
    && (forall u <- m.msg.units :: u.dest == address ==> ReportTrue(t, u.rx))
  }

  // ---------------------------------------------------------------- both lists stay true

  lemma NextReceiveListTrue(t: Truth, log: Log, m: Inbound, address: nat)
    requires ReceiveListTrue(t, log) && Increasing(log) && MessageTrue(t, m, address)
    ensures ReceiveListTrue(t, NextReceiveList(log, m.msg.seqNo, m.rx, m.msg.tx))
  {
    hide StaleTx;
    var next := NextReceiveList(log, m.msg.seqNo, m.rx, m.msg.tx);
    if Reaches(log, m.msg.seqNo) {
      var i := m.msg.seqNo - 1 - Last(log).localSeq;
      assert m.msg.tx[i].seqNo == Last(log).localSeq;
      assert next[|log| - 1].tx == m.msg.tx[i].time;
    }
    assert forall i :: 0 <= i < |log| - 1 ==> next[i] == log[i];
  }

  lemma PushesAreTrue(t: Truth, rx: BodyStamps, sendList: Log, from: nat)
    requires ReportTrue(t, rx) && from <= |sendList| && SendListTrue(t, sendList[..from])
    requires forall m :: from <= m < |sendList| ==> PushedFrom(t.mine, rx, sendList[m])
    ensures SendListTrue(t, sendList)
  {
    forall i | 0 <= i < |sendList|
      ensures sendList[i].remoteSeq == sendList[i].localSeq
      ensures SentPair(t, sendList[i].localSeq, sendList[i].tx, sendList[i].rx)
    {
      if i < from {
        assert sendList[..from][i] == sendList[i];
      }
    }
  }

  /** Processing a true message leaves both lists of the sender's table true, whatever was lost before. */
  lemma ProcessKeepsListsTrue(t: Truth, nb: Neighbour, n: Node, m: Inbound)
    requires n.history == t.mine && Numbered(n.history)
    requires SendListTrue(t, nb.sendList) && ReceiveListTrue(t, nb.receiveList) && MessageTrue(t, m, n.address)
    requires Tolerant(nb.receiveList) && (nb.receiveList != [] ==> Last(nb.receiveList).localSeq < m.msg.seqNo)
    ensures var nb' := ProcessFor(nb, n, m).0.nb;
            SendListTrue(t, nb'.sendList) && ReceiveListTrue(t, nb'.receiveList)
  {
    hide HeaderLoop, BodyLoop, SendListTrue, ReceiveListTrue, NextReceiveList, MessageTrue;
    ProcessReceiveListOf(t, nb, n, m);
    NextReceiveListTrue(t, nb.receiveList, m, n.address);
    var heard := nb.(receiveList := AddReceived(nb.receiveList, m.rx, m.msg.seqNo));
    var p := Progress(heard, n.initTofSum, None);
    HeaderLoopKeeps(p, m.msg.tx, MESSAGE_HEAD_TX_SIZE);
    var h := HeaderLoop(p, m.msg.tx, MESSAGE_HEAD_TX_SIZE).(distance := None);
    var unit := UnitTo(m.msg.units, n.address);
    if unit != NULL_INDEX {
      var rx := m.msg.units[unit].rx;
      BodyLoopPushes(h, n.history, rx, MESSAGE_BODY_RX_SIZE);
      var sendList := BodyLoop(h, n.history, rx, MESSAGE_BODY_RX_SIZE).nb.sendList;
      assert sendList[..|nb.sendList|] == nb.sendList;
      ReportOf(t, m, n.address, unit);
      PushesAreTrue(t, rx, sendList, |nb.sendList|);
    }
  }

  lemma ProcessReceiveListOf(t: Truth, nb: Neighbour, n: Node, m: Inbound)
    requires MessageTrue(t, m, n.address)
    requires Tolerant(nb.receiveList) && (nb.receiveList != [] ==> Last(nb.receiveList).localSeq < m.msg.seqNo)
    ensures Increasing(nb.receiveList)
    ensures ProcessFor(nb, n, m).0.nb.receiveList == NextReceiveList(nb.receiveList, m.msg.seqNo, m.rx, m.msg.tx)
  {
    ProcessReceiveList(nb, n, m);
  }

  lemma ReportOf(t: Truth, m: Inbound, address: nat, unit: nat)
    requires MessageTrue(t, m, address) && unit < MESSAGE_BODY_UNIT_SIZE && m.msg.units[unit].dest == address
    ensures ReportTrue(t, m.msg.units[unit].rx)
  {
    assert m.msg.units[unit] in m.msg.units;
  }

  // ---------------------------------------------------------------- the order on the local clock

  /** No two receptions in a row are more than MESSAGE_HEAD_TX_SIZE sends apart: at most two losses in a row. */
  ghost predicate SmallGaps(log: Log) {
    forall i :: 0 <= i < |log| - 1 ==> log[i + 1].localSeq - log[i].localSeq <= MESSAGE_HEAD_TX_SIZE
  }

  ghost predicate RxIncreasing(log: Log) {
    forall i, j :: 0 <= i < j < |log| ==> log[i].rx < log[j].rx
  }

  /** Everything the table knows about its own sends was sent before the newest reception, and every reception
      used in a calculation happened before it. */
  ghost predicate Ordered(nb: Neighbour) {
    && RxIncreasing(nb.receiveList)
    && (nb.receiveList == [] ==> nb.sendList == [] && nb.validBuffer == EmptyBuffer)
    && (nb.receiveList != [] ==> SentBefore(nb.sendList, Last(nb.receiveList).rx)
                                 && UsedBefore(nb.validBuffer, Last(nb.receiveList).rx))
  }

  ghost predicate SentBefore(log: Log, time: nat) {
    forall i :: 0 <= i < |log| ==> log[i].tx < time
  }

  ghost predicate UsedBefore(buf: Buffer, time: nat) {
    && (forall b <- buf.send :: b.sendTx < time && b.receiveRx < time)
    && (forall b <- buf.receive :: b.sendTx < time && b.receiveRx < time)
  }

  /** The reports of a message concern sends made before it was received. */
  ghost predicate ReportsPast(mine: History, rx: BodyStamps, time: nat) {
    forall s <- rx :: s.seqNo != NULL_SEQ && s.seqNo <= |mine| ==> mine[s.seqNo - 1].time < time
  }

  // ---------------------------------------------------------------- stale records

  /** No record in the ring, the newest one aside, still shows the Tx time of the record it replaced. */
  predicate NoStale(log: Log) {
    forall i :: Oldest(log) <= i < |log| - 1 ==> Filled(log[i]) || log[i].tx == NULL_TIMESTAMP
  }

  /** Slots used for the first time start without a Tx time. */
  ghost predicate FreshSlots(log: Log) {
    forall i :: 0 <= i < |log| && i < RANGING_LIST_SIZE && !Filled(log[i]) ==> log[i].tx == NULL_TIMESTAMP
  }

  lemma NextFreshSlots(log: Log, m: nat, rx: nat, tx: HeadStamps)
    requires FreshSlots(log) && Increasing(log)
    ensures FreshSlots(NextReceiveList(log, m, rx, tx))
  {
    var next := NextReceiveList(log, m, rx, tx);
    assert forall i :: 0 <= i < |log| ==> next[i] == log[i] || Filled(next[i]);
  }

  /** Nothing is stale while no slot has been reused. */
  lemma FewReceptionsNoStale(log: Log)
    requires FreshSlots(log) && |log| <= RANGING_LIST_SIZE
    ensures NoStale(log)
  {
  }

  /** Nothing is stale if at most two messages in a row were ever lost. */
  lemma SmallGapsNoStale(log: Log)
    requires Tolerant(log) && SmallGaps(log)
    ensures NoStale(log)
  {
    forall i | Oldest(log) <= i < |log| - 1
      ensures Filled(log[i])
    {
      assert log[i + 1].localSeq - log[i].localSeq <= MESSAGE_HEAD_TX_SIZE;
    }
  }

  // ---------------------------------------------------------------- the buffers stay true

  /** Some half still holds fewer than MAX_INITIAL_CALCULATION records. */
  predicate Initializing(buf: Buffer) {
    |buf.send| < MAX_INITIAL_CALCULATION || |buf.receive| < MAX_INITIAL_CALCULATION
  }

  /** Initialization from true lists stores true records: on the receive side the searches cannot reach the newest
      record, because it is younger than everything they ask for, and of the others only filled ones look full. */
  lemma InitializationTrue(t: Truth, sendList: Log, receiveList: Log, a1: nat, buf: Buffer, sum: int, status: Status)
    requires SendListTrue(t, sendList) && ReceiveListTrue(t, receiveList) && NoStale(receiveList)
    requires RxIncreasing(receiveList) && receiveList != [] && SentBefore(sendList, Last(receiveList).rx)
    requires BufferTrue(t, buf) && UsedBefore(buf, Last(receiveList).rx)
    requires status.Sender? ==> a1 < |sendList|
    requires status.Receiver? ==> a1 < |receiveList| - 1 && Filled(receiveList[a1])
    ensures var (listA, listB) := if status.Sender? then (sendList, receiveList) else (receiveList, sendList);
            var r := InitializeCalculateTof(listA, listB, a1, buf, sum, status);
            BufferTrue(t, r.buf) && UsedBefore(r.buf, Last(receiveList).rx)
  {
    hide InitQuad, ClassicTof, TruncateReal, SentPair, ReceivedPair, FindTriple, InitNodes;
    var (listA, listB) := if status.Sender? then (sendList, receiveList) else (receiveList, sendList);
    var triple := FindTriple(listA, listB, a1, status);
    if triple.Some? {
      var b2, a3 := triple.value.b2, triple.value.a3;
      TripleOrder(sendList, receiveList, a1, status);
      var q := InitQuad(listA[a1], listB[b2], listA[a3]);
      if q.Sum() > 0 {
        InitNodesTrue(t, listA[a1], listB[b2], listA[a3], ClassicTof(q) * 2.0, status, Last(receiveList).rx);
      }
    }
  }

  /** The three records of a triple, by list; none of them is the newest reception. */
  lemma TripleOrder(sendList: Log, receiveList: Log, a1: nat, status: Status)
    requires RxIncreasing(receiveList) && receiveList != [] && SentBefore(sendList, Last(receiveList).rx)
    requires status.Sender? ==> a1 < |sendList|
    requires status.Receiver? ==> a1 < |receiveList| - 1
    ensures var (listA, listB) := if status.Sender? then (sendList, receiveList) else (receiveList, sendList);
            var triple := FindTriple(listA, listB, a1, status);
            triple.Some? ==>
              var (b2, a3) := (triple.value.b2, triple.value.a3);
              && 0 <= b2 < |listB| && 0 <= a3 < |listA|
              && (status.Sender? ==>
                    && Oldest(receiveList) <= b2 < |receiveList| - 1 && Full(receiveList[b2])
                    && sendList[a3].tx < receiveList[b2].rx < sendList[a1].tx)
              && (status.Receiver? ==>
                    && Oldest(receiveList) <= a3 < |receiveList| - 1 && Full(receiveList[a3])
                    && receiveList[a3].rx < sendList[b2].tx < receiveList[a1].rx)
  {
    hide IsNearest, Nearest;
    var (listA, listB) := if status.Sender? then (sendList, receiveList) else (receiveList, sendList);
    var time := Key(listA[a1], OtherSide(status));
    SearchIsBefore(listB, time, status);
    var b2 := Search(listB, time, status);
    if b2 != NULL_INDEX {
      SearchIsBefore(listA, Key(listB[b2], status), OtherSide(status));
    }
  }

  lemma SearchIsBefore(log: Log, time: nat, status: Status)
    ensures var r := Search(log, time, status);
            r == NULL_INDEX || (Oldest(log) <= r < |log| && Full(log[r]) && Key(log[r], status) < time)
  {
  }

  lemma InitNodesTrue(t: Truth, a1: ListNode, b2: ListNode, a3: ListNode, sum: real, status: Status, limit: nat)
    requires status.Sender? ==> SentPair(t, a1.localSeq, a1.tx, a1.rx) && SentPair(t, a3.localSeq, a3.tx, a3.rx)
                                && ReceivedPair(t, b2.localSeq, b2.tx, b2.rx) && a3.tx < limit && a1.tx < limit
                                && b2.rx < limit
    requires status.Receiver? ==> ReceivedPair(t, a1.localSeq, a1.tx, a1.rx)
                                  && ReceivedPair(t, a3.localSeq, a3.tx, a3.rx)
                                  && SentPair(t, b2.localSeq, b2.tx, b2.rx) && a3.rx < limit && a1.rx < limit
                                  && b2.tx < limit
    ensures var (s, r) := InitNodes(a1, b2, a3, sum, status);
            && BufferNodeTrue(t, s) && BufferNodeTrue(t, r)
            && s.sendTx < limit && s.receiveRx < limit && r.sendTx < limit && r.receiveRx < limit
  {
    hide SentPair, ReceivedPair;
  }

  lemma CalculationTrue(t: Truth, buf: Buffer, node: ListNode, status: Status, limit: nat)
    requires BufferTrue(t, buf) && UsedBefore(buf, limit)
    requires status.Sender? ==> SentPair(t, node.localSeq, node.tx, node.rx) && node.tx < limit
    requires status.Receiver? ==> ReceivedPair(t, node.localSeq, node.tx, node.rx) && node.rx < limit
    ensures var out := CalculateTof(buf, node, node.localSeq, status, First);
            && BufferTrue(t, out.buf) && UsedBefore(out.buf, limit)
            && |buf.send| <= |out.buf.send| && |buf.receive| <= |out.buf.receive|
  {
    hide CalculateTof, SentPair, ReceivedPair, DistanceOf, InRange, SearchBuffer;
    CalculateIsAtomic(buf, node, node.localSeq, status, First);
    var out := CalculateTof(buf, node, node.localSeq, status, First);
    if out.distance.Some? {
      SearchKeyBelow(buf, node.localSeq, status);
      var last := Searched(buf, status)[SearchBuffer(buf, node.localSeq, status)];
      assert BufferNodeTrue(t, last) && last.sendTx < limit && last.receiveRx < limit;
      var t23 :| out.distance.value.modified == t23 / 2.0 * VELOCITY && t23 >= 0.0
                 && out.buf == Add(buf, NewNode(last, node, t23, status), status);
      assert BufferNodeTrue(t, NewNode(last, node, t23, status));
    }
  }

  lemma AveragesStayTrue(t: Truth, buf: Buffer, sum: int, i: nat, limit: nat)
    requires BufferTrue(t, buf) && UsedBefore(buf, limit) && i < MESSAGE_HEAD_TX_SIZE
    ensures |buf.send| == RANGING_BUFFER_SIZE ==>
              BufferTrue(t, AverageSend(buf, i, sum)) && UsedBefore(AverageSend(buf, i, sum), limit)
    ensures BufferTrue(t, AverageReceive(buf, sum)) && UsedBefore(AverageReceive(buf, sum), limit)
  {
    hide InitialSumTof, SentPair, ReceivedPair;
    if |buf.send| == RANGING_BUFFER_SIZE {
      var send := AverageSend(buf, i, sum).send;
      forall b | b in send
        ensures BufferNodeTrue(t, b) && b.sendTx < limit && b.receiveRx < limit
      {
        var j :| 0 <= j < |send| && send[j] == b;
        assert BufferNodeTrue(t, buf.send[j]);
      }
    }
    var receive := AverageReceive(buf, sum).receive;
    forall b | b in receive
      ensures BufferNodeTrue(t, b) && b.sendTx < limit && b.receiveRx < limit
    {
      var j :| 0 <= j < |receive| && receive[j] == b;
      assert BufferNodeTrue(t, buf.receive[j]);
    }
  }

  /** What the loops of one message keep about the table, once the new reception is in. */
  ghost predicate TableTrue(t: Truth, nb: Neighbour) {
    && SendListTrue(t, nb.sendList) && ReceiveListTrue(t, nb.receiveList) && BufferTrue(t, nb.validBuffer)
    && (Initializing(nb.validBuffer) ==> NoStale(nb.receiveList))
    && RxIncreasing(nb.receiveList) && nb.receiveList != []
    && SentBefore(nb.sendList, Last(nb.receiveList).rx) && UsedBefore(nb.validBuffer, Last(nb.receiveList).rx)
  }

  lemma ReceiverCalculationTrue(t: Truth, p: Progress, k: nat, i: nat)
    requires TableTrue(t, p.nb) && i < MESSAGE_HEAD_TX_SIZE
    requires k < |p.nb.receiveList| - 1 && Filled(p.nb.receiveList[k])
    ensures TableTrue(t, ReceiverCalculation(p, k, i).nb)
  {
    hide CalculateTof, InitializeCalculateTof, AverageSend, SentPair, ReceivedPair, BufferTrue, UsedBefore, SentBefore;
    var nb := p.nb;
    var limit := Last(nb.receiveList).rx;
    if Length(nb.validBuffer.send) < MAX_INITIAL_CALCULATION {
      InitializationTrue(t, nb.sendList, nb.receiveList, k, nb.validBuffer, p.initTofSum, Receiver);
      var r := InitializeCalculateTof(nb.receiveList, nb.sendList, k, nb.validBuffer, p.initTofSum, Receiver);
      InitializeGrows(nb.receiveList, nb.sendList, k, nb.validBuffer, p.initTofSum, Receiver);
      AveragesStayTrue(t, r.buf, r.initTofSum, i, limit);
    } else {
      CalculationTrue(t, nb.validBuffer, nb.receiveList[k], Receiver, limit);
    }
  }

  lemma SenderCalculationTrue(t: Truth, p: Progress)
    requires TableTrue(t, p.nb) && p.nb.sendList != []
    ensures TableTrue(t, SenderCalculation(p).nb)
  {
    hide CalculateTof, InitializeCalculateTof, AverageReceive, SentPair, ReceivedPair, BufferTrue, UsedBefore;
    var nb := p.nb;
    var k := |nb.sendList| - 1;
    var limit := Last(nb.receiveList).rx;
    if Length(nb.validBuffer.receive) < MAX_INITIAL_CALCULATION {
      InitializationTrue(t, nb.sendList, nb.receiveList, k, nb.validBuffer, p.initTofSum, Sender);
      var r := InitializeCalculateTof(nb.sendList, nb.receiveList, k, nb.validBuffer, p.initTofSum, Sender);
      AveragesStayTrue(t, r.buf, r.initTofSum, 0, limit);
    } else {
      CalculationTrue(t, nb.validBuffer, nb.sendList[k], Sender, limit);
    }
  }

  /** The report given to the body loop is true and about the past. */
  ghost predicate GoodReport(t: Truth, rx: BodyStamps, time: nat) {
    ReportTrue(t, rx) && ReportsPast(t.mine, rx, time) && Numbered(t.mine)
  }

  lemma PushKeepsTableTrue(t: Truth, nb: Neighbour, rx: BodyStamps, s: Stamp)
    requires TableTrue(t, nb) && s in rx && GoodReport(t, rx, Last(nb.receiveList).rx) && Pushes(nb.sendList, t.mine, s)
    ensures TableTrue(t, nb.(sendList := nb.sendList + [FullRecord(t.mine, s)]))
  {
    hide Find, FindSend, BufferTrue, UsedBefore, ReceiveListTrue;
    OnePush(nb.sendList, t.mine, rx, s);
    FindSendIffRecent(t.mine, s.seqNo);
    var node := FullRecord(t.mine, s);
    assert SentPair(t, node.localSeq, node.tx, node.rx);
    assert node.tx < Last(nb.receiveList).rx;
  }

  lemma {:induction false} BodyLoopTrue(t: Truth, p: Progress, rx: BodyStamps, i: nat)
    requires TableTrue(t, p.nb) && GoodReport(t, rx, Last(p.nb.receiveList).rx) && i <= MESSAGE_BODY_RX_SIZE
    ensures TableTrue(t, BodyLoop(p, t.mine, rx, i).nb)
    decreases i
  {
    hide SenderCalculation, Find, FindSend, TableTrue, GoodReport;
    if i != 0 {
      var s := rx[i - 1];
      var next := BodyStep(p, t.mine, s);
      if Pushes(p.nb.sendList, t.mine, s) {
        NonEmpty(t, p.nb);
        PushKeepsTableTrue(t, p.nb, rx, s);
        var pushed := p.(nb := p.nb.(sendList := p.nb.sendList + [FullRecord(t.mine, s)]));
        SenderCalculationTrue(t, pushed);
        SenderCalculationKeepsReceiveList(pushed);
      }
      NonEmpty(t, p.nb);
      BodyLoopTrue(t, next, rx, i - 1);
    }
  }

  lemma SenderCalculationKeepsReceiveList(p: Progress)
    requires p.nb.sendList != []
    ensures SenderCalculation(p).nb.receiveList == p.nb.receiveList
  {
    hide CalculateTof, InitializeCalculateTof, AverageReceive, Length;
  }

  lemma NonEmpty(t: Truth, nb: Neighbour)
    requires TableTrue(t, nb)
    ensures nb.receiveList != []
  {
  }

  /** The table right after the new reception and its at most one filled record. */
  lemma ReceptionKeepsTableTrue(t: Truth, nb: Neighbour, m: Inbound, address: nat)
    requires SendListTrue(t, nb.sendList) && ReceiveListTrue(t, nb.receiveList) && BufferTrue(t, nb.validBuffer)
    requires Increasing(nb.receiveList) && Ordered(nb) && MessageTrue(t, m, address)
    requires nb.receiveList != [] ==> Last(nb.receiveList).rx < m.rx
    requires Initializing(nb.validBuffer) ==> NoStale(NextReceiveList(nb.receiveList, m.msg.seqNo, m.rx, m.msg.tx))
    ensures var next := NextReceiveList(nb.receiveList, m.msg.seqNo, m.rx, m.msg.tx);
            TableTrue(t, nb.(receiveList := next)) && Last(next).rx == m.rx
  {
    hide StaleTx, BufferTrue, SendListTrue, ReceiveListTrue, MessageTrue, NoStale;
    var log := nb.receiveList;
    NextReceiveListTrue(t, log, m, address);
    var next := NextReceiveList(log, m.msg.seqNo, m.rx, m.msg.tx);
    assert forall i :: 0 <= i < |log| - 1 ==> next[i] == log[i];
    assert forall i :: 0 <= i < |log| ==> next[i].rx == log[i].rx;
  }

  /** Every stored calculation record stays a pair of true pairs, and the order on the local clock is kept: as long as
      the buffer is initializing if no record is stale, and from then on whatever is lost. */
  lemma ProcessKeepsBufferTrue(t: Truth, nb: Neighbour, n: Node, m: Inbound)
    requires n.history == t.mine && Numbered(n.history) && MessageTrue(t, m, n.address)
    requires SendListTrue(t, nb.sendList) && ReceiveListTrue(t, nb.receiveList) && BufferTrue(t, nb.validBuffer)
    requires Tolerant(nb.receiveList) && Ordered(nb)
    requires nb.receiveList != [] ==> Last(nb.receiveList).localSeq < m.msg.seqNo && Last(nb.receiveList).rx < m.rx
    requires Initializing(nb.validBuffer) ==> NoStale(NextReceiveList(nb.receiveList, m.msg.seqNo, m.rx, m.msg.tx))
    requires forall u <- m.msg.units :: u.dest == n.address ==> ReportsPast(t.mine, u.rx, m.rx)
    ensures var nb' := ProcessFor(nb, n, m).0.nb; TableTrue(t, nb') && Last(nb'.receiveList).rx == m.rx
  {
    hide HeaderLoop, BodyLoop, ReceiverCalculation, TableTrue, SendListTrue, ReceiveListTrue, BufferTrue, MessageTrue,
         NextReceiveList, Ordered, NoStale, Tolerant, ReportTrue, Numbered, Reaches;
    var log := nb.receiveList;
    var next := NextReceiveList(log, m.msg.seqNo, m.rx, m.msg.tx);
    TolerantIncreases(log);
    ReceptionKeepsTableTrue(t, nb, m, n.address);
    var heard := nb.(receiveList := AddReceived(log, m.rx, m.msg.seqNo));
    var p := Progress(heard, n.initTofSum, None);
    MessageHeader(t, m, n.address);
    HeaderLoopClosedForm(p, log, m.msg.seqNo, m.rx, m.msg.tx);
    var filled := p.(nb := nb.(receiveList := next));
    if Reaches(log, m.msg.seqNo) {
      NextFilled(log, m.msg.seqNo, m.rx, m.msg.tx);
      ReceiverCalculationTrue(t, filled, |log| - 1, m.msg.seqNo - 1 - Last(log).localSeq);
      CalculationKeepsList(filled, |log| - 1, m.msg.seqNo - 1 - Last(log).localSeq);
    }
    var h := HeaderLoop(p, m.msg.tx, MESSAGE_HEAD_TX_SIZE).(distance := None);
    assert TableTrue(t, h.nb) && h.nb.receiveList == next;
    var unit := UnitTo(m.msg.units, n.address);
    if unit != NULL_INDEX {
      var rx := m.msg.units[unit].rx;
      ReportOf(t, m, n.address, unit);
      BodyLoopTrue(t, h, rx, MESSAGE_BODY_RX_SIZE);
      BodyLoopKeeps(h, n.history, rx, MESSAGE_BODY_RX_SIZE);
    }
  }

  lemma MessageHeader(t: Truth, m: Inbound, address: nat)
    requires MessageTrue(t, m, address)
    ensures HeaderOf(m.msg.tx, m.msg.seqNo)
  {
  }

  lemma TolerantIncreases(log: Log)
    requires Tolerant(log)
    ensures Increasing(log)
  {
  }

  /** A message in reach fills the record that was the newest. */
  lemma NextFilled(log: Log, m: nat, rx: nat, tx: HeadStamps)
    requires Increasing(log) && Reaches(log, m)
    ensures log != [] && 0 <= m - 1 - Last(log).localSeq < MESSAGE_HEAD_TX_SIZE
    ensures var next := NextReceiveList(log, m, rx, tx); |next| == |log| + 1 && Filled(next[|log| - 1])
  {
    hide StaleTx;
  }

  lemma TableTrueIsOrdered(t: Truth, nb: Neighbour)
    requires TableTrue(t, nb)
    ensures Ordered(nb)
  {
  }
}
