/** Progress on a static link, seen from one drone: when an initialization finds its causal triple, and how many pairs a
    message adds. */
module Progress {
  import opened Config
  import opened RangingListSpec
  import opened RangingBufferSpec
  import opened NodeSpec
  import opened LossTolerance
  import opened ExactlyOnce
  import opened Phases
  import opened Pairing
  import opened Exactness
  import opened SharedSum

  /** All timestamps are valid. */
  ghost predicate ValidTimes(t: Truth) {
    && Numbered(t.mine) && Numbered(t.theirs)
    && (forall k :: k in t.myHeard ==> t.myHeard[k] != NULL_TIMESTAMP)
    && (forall k :: k in t.theirHeard ==> t.theirHeard[k] != NULL_TIMESTAMP)
  }

  lemma TruePairsAreFull(t: Truth, sendList: Log, receiveList: Log)
    requires ValidTimes(t) && SendListTrue(t, sendList) && ReceiveListTrue(t, receiveList)
    ensures forall i :: 0 <= i < |sendList| ==> Full(sendList[i])
    ensures forall i :: 0 <= i < |receiveList| && Filled(receiveList[i]) ==> Full(receiveList[i])
  {
  }

  /** A search is at least as good as any eligible record of the ring. */
  lemma SearchFinds(log: Log, time: nat, status: Status, i: nat)
    requires Oldest(log) <= i < |log| && Eligible(log[i], time, status)
    ensures var r := Search(log, time, status);
            0 <= r < |log| && Full(log[r]) && Key(log[i], status) <= Key(log[r], status) < time
  {
    assert IsNearest(log, time, status, Oldest(log), Search(log, time, status));
  }

  /** The newest reception but one, and a send between it and the reception before: the RECEIVER triple exists. */
  lemma ReceiverTriple(t: Truth, sendList: Log, receiveList: Log)
    requires ValidTimes(t) && SendListTrue(t, sendList) && ReceiveListTrue(t, receiveList)
    requires sendList != [] && |receiveList| >= 3 && Filled(receiveList[|receiveList| - 2])
    requires Filled(receiveList[|receiveList| - 3])
    requires receiveList[|receiveList| - 3].rx < Last(sendList).tx < receiveList[|receiveList| - 2].rx
    ensures FindTriple(receiveList, sendList, |receiveList| - 2, Receiver).Some?
  {
    hide Search, SendListTrue, ReceiveListTrue, ValidTimes;
    TruePairsAreFull(t, sendList, receiveList);
    var a1 := receiveList[|receiveList| - 2];
    SearchFinds(sendList, a1.rx, Receiver, |sendList| - 1);
    var b2 := Search(sendList, a1.rx, Receiver);
    SearchFinds(receiveList, sendList[b2].tx, Sender, |receiveList| - 3);
  }

  /** The newest send after the newest reception but one, and an earlier send before that: the SENDER triple exists. */
  lemma SenderTriple(t: Truth, sendList: Log, receiveList: Log)
    requires ValidTimes(t) && SendListTrue(t, sendList) && ReceiveListTrue(t, receiveList)
    requires |sendList| >= 2 && |receiveList| >= 2 && Filled(receiveList[|receiveList| - 2])
    requires sendList[|sendList| - 2].tx < receiveList[|receiveList| - 2].rx < Last(sendList).tx
    ensures FindTriple(sendList, receiveList, |sendList| - 1, Sender).Some?
  {
    hide Search, SendListTrue, ReceiveListTrue, ValidTimes;
    TruePairsAreFull(t, sendList, receiveList);
    var a1 := Last(sendList);
    SearchFinds(receiveList, a1.tx, Sender, |receiveList| - 2);
    var b2 := Search(receiveList, a1.tx, Sender);
    SearchFinds(sendList, receiveList[b2].rx, Receiver, |sendList| - 2);
  }

  // ---------------------------------------------------------------- what one message adds

  function AtMostAll(pairs: nat): nat { if pairs < MAX_INITIAL_CALCULATION then pairs else MAX_INITIAL_CALCULATION }

  /** The last push followed the reception before the newest one. */
  ghost predicate Woven(nb: Neighbour) {
    && nb.sendList != [] && |nb.receiveList| >= 2 && Filled(nb.receiveList[|nb.receiveList| - 2])
    && nb.receiveList[|nb.receiveList| - 2].rx < Last(nb.sendList).tx
  }

  lemma ReceiverAddsPair(t: Truth, link: Link, p: Progress, i: nat)
    requires GoodLink(t, link) && ValidTimes(t) && TableTrue(t, p.nb) && Phased(p.nb.validBuffer) && p.initTofSum >= 0
    requires var log := p.nb.receiveList;
             && i < MESSAGE_HEAD_TX_SIZE && |log| >= 3 && Filled(log[|log| - 2]) && Filled(log[|log| - 3])
             && p.nb.sendList != [] && log[|log| - 3].rx < Last(p.nb.sendList).tx < log[|log| - 2].rx
    ensures var after := ReceiverCalculation(p, |p.nb.receiveList| - 2, i).nb;
            Pairs(after.validBuffer) == AtMostAll(Pairs(p.nb.validBuffer) + 1)
  {
    hide CalculateTof, InitializeCalculateTof, AverageSend, GoodLink, SendListTrue, ReceiveListTrue, BufferTrue,
         ExactBuffer, InitialSumTof, NoStale, Prev, FindTriple, ValidTimes;
    var nb := p.nb;
    var k := |nb.receiveList| - 2;
    LengthsAgree(nb.validBuffer);
    if |nb.validBuffer.send| < MAX_INITIAL_CALCULATION {
      ReceiverTriple(t, nb.sendList, nb.receiveList);
      InitializationExact(t, link, nb.sendList, nb.receiveList, k, nb.validBuffer, p.initTofSum, Receiver);
      var r := InitializeCalculateTof(nb.receiveList, nb.sendList, k, nb.validBuffer, p.initTofSum, Receiver);
      if |r.buf.send| >= MAX_INITIAL_CALCULATION { AverageKeepsLengths(r.buf, i, r.initTofSum); }
    } else {
      CalculateGrows(nb.validBuffer, nb.receiveList[k], Receiver);
    }
  }

  lemma SenderAddsPair(t: Truth, link: Link, p: Progress)
    requires GoodLink(t, link) && ValidTimes(t) && TableTrue(t, p.nb) && Phased(p.nb.validBuffer) && p.initTofSum >= 0
    requires var (sendList, log) := (p.nb.sendList, p.nb.receiveList);
             && |sendList| >= 2 && |log| >= 2 && Filled(log[|log| - 2])
             && sendList[|sendList| - 2].tx < log[|log| - 2].rx < Last(sendList).tx
    ensures Pairs(SenderCalculation(p).nb.validBuffer) == AtMostAll(Pairs(p.nb.validBuffer) + 1)
  {
    hide CalculateTof, InitializeCalculateTof, AverageReceive, GoodLink, SendListTrue, ReceiveListTrue, BufferTrue,
         ExactBuffer, InitialSumTof, NoStale, Prev, FindTriple, ValidTimes;
    var nb := p.nb;
    var k := |nb.sendList| - 1;
    LengthsAgree(nb.validBuffer);
    if |nb.validBuffer.send| < MAX_INITIAL_CALCULATION {
      SenderTriple(t, nb.sendList, nb.receiveList);
      InitializationExact(t, link, nb.sendList, nb.receiveList, k, nb.validBuffer, p.initTofSum, Sender);
      var r := InitializeCalculateTof(nb.sendList, nb.receiveList, k, nb.validBuffer, p.initTofSum, Sender);
      AverageReceiveKeepsLengths(r.buf, r.initTofSum);
    } else {
      CalculateGrows(nb.validBuffer, nb.sendList[k], Sender);
    }
  }

  /** A body that pushes something adds a pair, if an earlier send precedes the newest filled reception. */
  lemma {:induction false} BodyAddsPair(t: Truth, link: Link, p: Progress, rx: BodyStamps, i: nat)
    requires GoodLink(t, link) && ValidTimes(t) && TableTrue(t, p.nb) && Sound(p.nb.validBuffer) && p.initTofSum >= 0
    requires GoodReport(t, rx, Last(p.nb.receiveList).rx) && i <= MESSAGE_BODY_RX_SIZE
    requires PushesFollow(p.nb.sendList, BodyLoop(p, t.mine, rx, i).nb.sendList, Prev(p.nb.receiveList))
    requires BodyLoop(p, t.mine, rx, i).nb.sendList != p.nb.sendList
    requires var log := p.nb.receiveList;
             p.nb.sendList != [] && |log| >= 2 && Filled(log[|log| - 2]) && Last(p.nb.sendList).tx < log[|log| - 2].rx
    ensures Pairs(BodyLoop(p, t.mine, rx, i).nb.validBuffer) >= AtMostAll(Pairs(p.nb.validBuffer) + 1)
    decreases i
  {
    hide SenderCalculation, Find, FindSend, TableTrue, GoodReport, GoodLink, ValidTimes, Sound;
    if i != 0 {
      var s := rx[i - 1];
      var next := BodyStep(p, t.mine, s);
      BodyLoopKeeps(next, t.mine, rx, i - 1);
      if Pushes(p.nb.sendList, t.mine, s) {
        PushKeepsTableTrue(t, p.nb, rx, s);
        var pushed := p.(nb := p.nb.(sendList := p.nb.sendList + [FullRecord(t.mine, s)]));
        SenderCalculationKeepsList(pushed);
        assert BodyLoop(p, t.mine, rx, i).nb.sendList[|p.nb.sendList|] == pushed.nb.sendList[|p.nb.sendList|];
        SoundIsPhased(p.nb.validBuffer);
        SenderAddsPair(t, link, pushed);
        SenderCalculationIsSound(pushed);
        BodyLoopIsSound(next, t.mine, rx, i - 1);
        PairsGrow(next.nb.validBuffer, BodyLoop(next, t.mine, rx, i - 1).nb.validBuffer);
      } else {
        BodyAddsPair(t, link, next, rx, i - 1);
      }
    }
  }

  lemma SoundIsPhased(buf: Buffer)
    requires Sound(buf)
    ensures Phased(buf)
  {
  }

  lemma PairsGrow(buf: Buffer, buf': Buffer)
    requires Grows(buf, buf')
    ensures Pairs(buf) <= Pairs(buf')
  {
  }

  /** The header of a message in reach adds a pair to a woven table. */
  lemma HeaderAddsPair(t: Truth, link: Link, nb: Neighbour, n: Node, m: Inbound)
    requires GoodLink(t, link) && ValidTimes(t) && GoodReception(t, nb, n, m) && Sound(nb.validBuffer)
    requires n.initTofSum >= 0
    requires Reaches(nb.receiveList, m.msg.seqNo) && Woven(nb)
    ensures Pairs(AfterHeader(nb, n, m).nb.validBuffer) == AtMostAll(Pairs(nb.validBuffer) + 1)
  {
    hide ReceiverCalculation, AfterHeader, GoodLink, ValidTimes, Sound, SendListTrue, ReceiveListTrue, BufferTrue,
         MessageTrue, Tolerant, NoStale, Numbered, ReportsPast, Initializing;
    HeaderIs(t, nb, n, m);
    var log := nb.receiveList;
    var filled := Start(nb, n, m).(nb := nb.(receiveList := NextReceiveList(log, m.msg.seqNo, m.rx, m.msg.tx)));
    OlderRecords(log, m.msg.seqNo, m.rx, m.msg.tx);
    SoundIsPhased(nb.validBuffer);
    assert SentBefore(nb.sendList, Last(log).rx);
    ReceiverAddsPair(t, link, filled, m.msg.seqNo - 1 - Last(log).localSeq);
  }

  lemma OlderRecords(log: Log, m: nat, rx: nat, tx: HeadStamps)
    requires log != []
    ensures var next := NextReceiveList(log, m, rx, tx);
            && |next| == |log| + 1 && next[|log| - 1].rx == Last(log).rx
            && forall i :: 0 <= i < |log| - 1 ==> next[i] == log[i]
  {
    hide StaleTx;
  }

  /** The table and the sum after the header of a good message. */
  lemma HeaderKeeps(t: Truth, link: Link, nb: Neighbour, n: Node, m: Inbound)
    requires GoodLink(t, link) && GoodReception(t, nb, n, m) && Sound(nb.validBuffer) && n.initTofSum >= 0
    ensures var h := AfterHeader(nb, n, m);
            && TableTrue(t, h.nb) && Sound(h.nb.validBuffer) && h.initTofSum >= 0
            && Grows(nb.validBuffer, h.nb.validBuffer)
            && h.nb.sendList == nb.sendList
            && h.nb.receiveList == NextReceiveList(nb.receiveList, m.msg.seqNo, m.rx, m.msg.tx)
            && Last(h.nb.receiveList).rx == m.rx
  {
    hide HeaderLoop, ReceiverCalculation, TableTrue, GoodLink, NextReceiveList, Reaches, GoodReception, Sound;
    HeaderIs(t, nb, n, m);
    HeaderLoopIsSound(Start(nb, n, m), m.msg.tx, MESSAGE_HEAD_TX_SIZE);
    HeaderLoopKeeps(Start(nb, n, m), m.msg.tx, MESSAGE_HEAD_TX_SIZE);
    NextNewest(nb.receiveList, m.msg.seqNo, m.rx, m.msg.tx);
    if Reaches(nb.receiveList, m.msg.seqNo) {
      var next := NextReceiveList(nb.receiveList, m.msg.seqNo, m.rx, m.msg.tx);
      var filled := Start(nb, n, m).(nb := nb.(receiveList := next));
      var i := m.msg.seqNo - 1 - Last(nb.receiveList).localSeq;
      ReceiverCalculationTrue(t, filled, |nb.receiveList| - 1, i);
      CalculationKeepsList(filled, |nb.receiveList| - 1, i);
    }
  }

  /** What a message in reach that pushes something adds to the pairs of its sender's table: at least one if something
      was pushed before, at least two if the table was woven; and it leaves the table woven. */
  lemma MessageAddsPairs(t: Truth, link: Link, nb: Neighbour, n: Node, m: Inbound)
    requires GoodLink(t, link) && ValidTimes(t) && GoodReception(t, nb, n, m) && Sound(nb.validBuffer)
    requires n.initTofSum >= 0
    requires Reaches(nb.receiveList, m.msg.seqNo)
    requires var after := ProcessFor(nb, n, m).0.nb.sendList;
             after != nb.sendList && PushesFollow(nb.sendList, after, Last(nb.receiveList).rx)
    ensures var after := ProcessFor(nb, n, m).0.nb;
            && Woven(after)
            && (nb.sendList != [] ==> Pairs(after.validBuffer) >= AtMostAll(Pairs(nb.validBuffer) + 1))
            && (Woven(nb) ==> Pairs(after.validBuffer) >= AtMostAll(Pairs(nb.validBuffer) + 2))
  {
    hide *;
    var rx := BodyOf(t, nb, n, m);
    HeaderKeeps(t, link, nb, n, m);
    HeaderIs(t, nb, n, m);
    MessageWeaves(t, link, nb, n, m, rx);
    if nb.sendList != [] { BodyPairs(t, link, nb, n, m, rx); }
    if Woven(nb) {
      WovenSends(nb);
      HeaderAddsPair(t, link, nb, n, m);
      AtMostTwice(Pairs(nb.validBuffer));
    }
  }

  lemma WovenSends(nb: Neighbour)
    requires Woven(nb)
    ensures nb.sendList != []
  {
  }

  /** A message that pushes something has a report, which the body loop runs over. */
  lemma BodyOf(t: Truth, nb: Neighbour, n: Node, m: Inbound) returns (rx: BodyStamps)
    requires GoodReception(t, nb, n, m) && ProcessFor(nb, n, m).0.nb.sendList != nb.sendList
    ensures GoodReport(t, rx, m.rx)
    ensures ProcessFor(nb, n, m).0
             == BodyLoop(AfterHeader(nb, n, m).(distance := None), t.mine, rx, MESSAGE_BODY_RX_SIZE)
  {
    hide HeaderLoop, BodyLoop, GoodReception, GoodReport;
    HeaderLoopKeeps(Start(nb, n, m), m.msg.tx, MESSAGE_HEAD_TX_SIZE);
    var unit := UnitTo(m.msg.units, n.address);
    rx := m.msg.units[unit].rx;
    GoodReportOf(t, nb, n, m, unit);
  }

  lemma MessageWeaves(t: Truth, link: Link, nb: Neighbour, n: Node, m: Inbound, rx: BodyStamps)
    requires GoodLink(t, link) && GoodReception(t, nb, n, m) && Sound(nb.validBuffer) && n.initTofSum >= 0
    requires Reaches(nb.receiveList, m.msg.seqNo) && nb.receiveList != []
    requires ProcessFor(nb, n, m).0
             == BodyLoop(AfterHeader(nb, n, m).(distance := None), t.mine, rx, MESSAGE_BODY_RX_SIZE)
    requires var after := ProcessFor(nb, n, m).0.nb.sendList;
             after != nb.sendList && PushesFollow(nb.sendList, after, Last(nb.receiveList).rx)
    ensures Woven(ProcessFor(nb, n, m).0.nb)
  {
    hide HeaderLoop, BodyLoop, ProcessFor, AfterHeader, TableTrue, GoodLink, GoodReception, Sound, NextReceiveList,
         Reaches, ReceiverCalculation, Initializing;
    var log := nb.receiveList;
    HeaderKeeps(t, link, nb, n, m);
    HeaderIs(t, nb, n, m);
    OlderRecords(log, m.msg.seqNo, m.rx, m.msg.tx);
    BodyLoopKeeps(AfterHeader(nb, n, m).(distance := None), t.mine, rx, MESSAGE_BODY_RX_SIZE);
  }

  lemma BodyPairs(t: Truth, link: Link, nb: Neighbour, n: Node, m: Inbound, rx: BodyStamps)
    requires GoodLink(t, link) && ValidTimes(t) && GoodReception(t, nb, n, m) && Sound(nb.validBuffer)
    requires n.initTofSum >= 0 && GoodReport(t, rx, m.rx) && nb.sendList != []
    requires Reaches(nb.receiveList, m.msg.seqNo) && nb.receiveList != []
    requires ProcessFor(nb, n, m).0
             == BodyLoop(AfterHeader(nb, n, m).(distance := None), t.mine, rx, MESSAGE_BODY_RX_SIZE)
    requires var after := ProcessFor(nb, n, m).0.nb.sendList;
             after != nb.sendList && PushesFollow(nb.sendList, after, Last(nb.receiveList).rx)
    ensures var (h, after) := (AfterHeader(nb, n, m).nb, ProcessFor(nb, n, m).0.nb);
            && Pairs(after.validBuffer) >= AtMostAll(Pairs(h.validBuffer) + 1)
            && Pairs(after.validBuffer) >= AtMostAll(Pairs(nb.validBuffer) + 1)
  {
    hide HeaderLoop, BodyLoop, ProcessFor, AfterHeader, TableTrue, GoodLink, ValidTimes, GoodReception, Sound, Grows,
         NextReceiveList, GoodReport, Pairs, Reaches, ReceiverCalculation, Initializing;
    var log := nb.receiveList;
    HeaderKeeps(t, link, nb, n, m);
    PairsGrow(nb.validBuffer, AfterHeader(nb, n, m).nb.validBuffer);
    HeaderIs(t, nb, n, m);
    OlderRecords(log, m.msg.seqNo, m.rx, m.msg.tx);
    AllSentBefore(t, nb, n, m);
    BodyAddsPair(t, link, AfterHeader(nb, n, m).(distance := None), rx, MESSAGE_BODY_RX_SIZE);
  }

  lemma AtMostTwice(pairs: nat)
    ensures AtMostAll(AtMostAll(pairs + 1) + 1) == AtMostAll(pairs + 2)
  {
  }

  lemma AllSentBefore(t: Truth, nb: Neighbour, n: Node, m: Inbound)
    requires GoodReception(t, nb, n, m) && nb.receiveList != [] && nb.sendList != []
    ensures Last(nb.sendList).tx < Last(nb.receiveList).rx
  {
    hide MessageTrue, SendListTrue, ReceiveListTrue, BufferTrue, Tolerant, NoStale, UsedBefore;
  }

  // ---------------------------------------------------------------- after the initialization

  lemma CalculationAddsRecord(t: Truth, link: Link, buf: Buffer, node: ListNode, status: Status, prev: nat)
    requires GoodLink(t, link) && BufferTrue(t, buf) && ExactBuffer(buf, link.delay, prev)
    requires SearchBuffer(buf, node.localSeq, status) != NULL_INDEX
    requires status.Sender? ==> SentPair(t, node.localSeq, node.tx, node.rx)
                                && forall b <- buf.receive :: b.receiveRx < node.tx
    requires status.Receiver? ==> ReceivedPair(t, node.localSeq, node.tx, node.rx) && node.rx <= prev
                                  && forall b <- buf.send :: b.sendTx < node.rx
    ensures var out := CalculateTof(buf, node, node.localSeq, status, First).buf;
            && (status.Sender? ==> |out.send| == |buf.send| + 1 && out.receive == buf.receive)
            && (status.Receiver? ==> |out.receive| == |buf.receive| + 1 && out.send == buf.send)
  {
    hide GoodLink, BufferTrue, ExactBuffer, SentPair, ReceivedPair, CalculateTof, SearchBuffer, TrueDistance, NewNode;
    CalculationExact(t, link, buf, node, status, prev);
    CalculateIsAtomic(buf, node, node.localSeq, status, First);
  }

  /** The newest record of the receive half belongs to an earlier send, so the search finds one. */
  lemma EarlierSend(t: Truth, link: Link, buf: Buffer, node: ListNode, prev: nat)
    requires GoodLink(t, link) && BufferTrue(t, buf) && ExactBuffer(buf, link.delay, prev) && InOrder(t.theirHeard)
    requires SentPair(t, node.localSeq, node.tx, node.rx) && buf.receive != [] && prev < node.tx
    ensures SearchBuffer(buf, node.localSeq, Sender) != NULL_INDEX
  {
    hide Closest, Within40Bits, NoCrossing;
    var b := buf.receive[|buf.receive| - 1];
    assert b in buf.receive && BufferNodeTrue(t, b);
    assert t.theirHeard[b.txSeq] < t.theirHeard[node.localSeq];
    assert b.txSeq < node.localSeq;
    assert SeqKey(buf.receive[|buf.receive| - 1], Sender) < node.localSeq;
  }

  /** The header of a message in reach stores one record in the receive half and yields the true distance. */
  lemma HeaderAddsRecord(t: Truth, link: Link, nb: Neighbour, n: Node, m: Inbound)
    requires GoodLink(t, link) && GoodReception(t, nb, n, m) && ExactTable(nb, n.initTofSum, link.delay)
    requires InOrder(t.myHeard) && Reaches(nb.receiveList, m.msg.seqNo) && !Initializing(nb.validBuffer)
    ensures var h := AfterHeader(nb, n, m);
            && |h.nb.validBuffer.receive| == |nb.validBuffer.receive| + 1
            && h.nb.validBuffer.send == nb.validBuffer.send
            && h.distance == Some(Distance(link.delay as real * VELOCITY, link.delay as real * VELOCITY))
  {
    hide CalculateTof, SendListTrue, MessageTrue, BufferTrue, NoStale, Tolerant, ReportTrue, Numbered, AfterHeader,
         GoodLink, ExactBuffer, RxIncreasing, SentBefore, InOrder, SentPair, ReceivedPair, TrueDistance, SearchBuffer;
    var log := nb.receiveList;
    var next := NextReceiveList(log, m.msg.seqNo, m.rx, m.msg.tx);
    HeaderIs(t, nb, n, m);
    NextPrev(log, m.msg.seqNo, m.rx, m.msg.tx);
    var node := next[|log| - 1];
    EarlierRecord(t, nb.validBuffer, link.delay, node, Prev(next));
    CalculationExact(t, link, nb.validBuffer, node, Receiver, Prev(next));
    CalculationAddsRecord(t, link, nb.validBuffer, node, Receiver, Prev(next));
  }

  /** A body stores one record in the send half for every report it pushes. */
  lemma {:induction false} BodyAddsRecords(t: Truth, link: Link, p: Progress, rx: BodyStamps, i: nat)
    requires GoodLink(t, link) && TableTrue(t, p.nb) && ExactProgress(p, link.delay) && i <= MESSAGE_BODY_RX_SIZE
    requires GoodReport(t, rx, Last(p.nb.receiveList).rx) && InOrder(t.theirHeard)
    requires !Initializing(p.nb.validBuffer)
    requires PushesFollow(p.nb.sendList, BodyLoop(p, t.mine, rx, i).nb.sendList, Prev(p.nb.receiveList))
    ensures var (b, r) := (p.nb, BodyLoop(p, t.mine, rx, i).nb);
            && |r.validBuffer.send| - |b.validBuffer.send| == |r.sendList| - |b.sendList|
            && r.validBuffer.receive == b.validBuffer.receive
    decreases i
  {
    hide SenderCalculation, Find, FindSend, TableTrue, GoodReport, GoodLink, ExactProgress, Prev, Initializing;
    if i != 0 {
      var s := rx[i - 1];
      var next := BodyStep(p, t.mine, s);
      BodyLoopKeeps(next, t.mine, rx, i - 1);
      if Pushes(p.nb.sendList, t.mine, s) {
        NonEmpty(t, p.nb);
        PushKeepsTableTrue(t, p.nb, rx, s);
        var pushed := p.(nb := p.nb.(sendList := p.nb.sendList + [FullRecord(t.mine, s)]));
        SenderCalculationKeepsReceiveList(pushed);
        SenderCalculationKeepsList(pushed);
        SenderCalculationTrue(t, pushed);
        assert BodyLoop(p, t.mine, rx, i).nb.sendList[|p.nb.sendList|] == pushed.nb.sendList[|p.nb.sendList|];
        PushedStaysExact(p, pushed, link.delay);
        SenderCalculationExact(t, link, pushed);
        PushAddsRecord(t, link, pushed);
      }
      NonEmpty(t, p.nb);
      BodyAddsRecords(t, link, next, rx, i - 1);
    }
  }

  lemma PushAddsRecord(t: Truth, link: Link, p: Progress)
    requires GoodLink(t, link) && TableTrue(t, p.nb) && ExactProgress(p, link.delay) && p.nb.sendList != []
    requires Last(p.nb.sendList).tx > Prev(p.nb.receiveList) && InOrder(t.theirHeard) && !Initializing(p.nb.validBuffer)
    ensures var (b, r) := (p.nb.validBuffer, SenderCalculation(p).nb.validBuffer);
            |r.send| == |b.send| + 1 && r.receive == b.receive && !Initializing(r)
  {
    hide CalculateTof, InitializeCalculateTof, GoodLink, BufferTrue, SearchBuffer, SentPair, Prev, InOrder, NoStale;
    var node := Last(p.nb.sendList);
    var prev := Prev(p.nb.receiveList);
    EarlierSend(t, link, p.nb.validBuffer, node, prev);
    CalculationAddsRecord(t, link, p.nb.validBuffer, node, Sender, prev);
  }

  /** Once initialized, every message in reach stores a new record in both halves on a static link: one for the
      reception whose Tx time it brings, and one for each of its reports that is new. */
  lemma MessageAddsRecords(t: Truth, link: Link, nb: Neighbour, n: Node, m: Inbound)
    requires GoodLink(t, link) && GoodReception(t, nb, n, m) && ExactTable(nb, n.initTofSum, link.delay)
    requires InOrder(t.myHeard) && InOrder(t.theirHeard)
    requires Reaches(nb.receiveList, m.msg.seqNo) && !Initializing(nb.validBuffer)
    requires PushesFollow(nb.sendList, ProcessFor(nb, n, m).0.nb.sendList, Last(nb.receiveList).rx)
    ensures var after := ProcessFor(nb, n, m).0.nb;
            && |after.validBuffer.receive| == |nb.validBuffer.receive| + 1
            && |after.validBuffer.send| - |nb.validBuffer.send| == |after.sendList| - |nb.sendList|
  {
    hide HeaderLoop, BodyLoop, TableTrue, ExactProgress, GoodLink, GoodReception, Prev, ExactTable, InOrder,
         Initializing;
    HeaderAddsRecord(t, link, nb, n, m);
    var h := HeaderExact(t, link, nb, n, m);
    var q := h.(distance := None);
    ResetStaysExact(h, link.delay);
    NonEmpty(t, q.nb);
    StaysInitialized(nb.validBuffer, h.nb.validBuffer);
    var unit := UnitTo(m.msg.units, n.address);
    if unit != NULL_INDEX {
      var rx := m.msg.units[unit].rx;
      GoodReportOf(t, nb, n, m, unit);
      BodyAddsRecords(t, link, q, rx, MESSAGE_BODY_RX_SIZE);
    }
  }

  lemma StaysInitialized(buf: Buffer, buf': Buffer)
    requires !Initializing(buf) && |buf'.send| >= |buf.send| && |buf'.receive| >= |buf.receive|
    ensures !Initializing(buf')
  {
  }
}
