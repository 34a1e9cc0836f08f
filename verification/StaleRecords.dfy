/** Receptions in reused slots: what an initialization stores when it meets a Tx time that a slot still shows of the
    record it held before. */
module StaleRecords {
  import opened Config
  import opened TofMath
  import opened RangingListSpec
  import opened RangingBufferSpec
  import opened NodeSpec
  import opened LossTolerance
  import opened Pairing

  /** The times of successive sends. */
  ghost predicate Ascending(history: History) {
    && (forall i :: 0 <= i < |history| ==> history[i].time != NULL_TIMESTAMP)
    && (forall i, j :: 0 <= i < j < |history| ==> history[i].time < history[j].time)
  }

  /** What a record shows before its Tx half has come is older than that. */
  ghost predicate ShowsOlder(theirs: History, node: ListNode) {
    1 <= node.localSeq <= |theirs| && (!Filled(node) ==> node.tx < theirs[node.localSeq - 1].time)
  }

  ghost predicate AllShowOlder(theirs: History, log: Log) {
    forall i :: 0 <= i < |log| ==> ShowsOlder(theirs, log[i])
  }

  /** Every reception keeps that. */
  lemma ReceptionShowsOlder(t: Truth, log: Log, m: Inbound, address: nat)
    requires AllShowOlder(t.theirs, log) && ReceiveListTrue(t, log) && Increasing(log) && Ascending(t.theirs)
    requires MessageTrue(t, m, address) && m.msg.seqNo <= |t.theirs| && (log != [] ==> Last(log).localSeq < m.msg.seqNo)
    requires m.msg.seqNo >= 1
    ensures AllShowOlder(t.theirs, NextReceiveList(log, m.msg.seqNo, m.rx, m.msg.tx))
  {
    hide StaleTx, ReceiveListTrue, MessageTrue;
    StaleIsOlder(t, log, m.msg.seqNo);
    var next := NextReceiveList(log, m.msg.seqNo, m.rx, m.msg.tx);
    forall i | 0 <= i < |next|
      ensures ShowsOlder(t.theirs, next[i])
    {
      if i < |log| { assert ShowsOlder(t.theirs, log[i]); }
    }
  }

  lemma StaleIsOlder(t: Truth, log: Log, seqNo: nat)
    requires AllShowOlder(t.theirs, log) && ReceiveListTrue(t, log) && Increasing(log) && Ascending(t.theirs)
    requires 1 <= seqNo <= |t.theirs| && (log != [] ==> Last(log).localSeq < seqNo)
    ensures StaleTx(log) < t.theirs[seqNo - 1].time
  {
    if |log| >= RANGING_LIST_SIZE {
      var reused := log[|log| - RANGING_LIST_SIZE];
      assert ShowsOlder(t.theirs, reused) && reused.localSeq <= Last(log).localSeq;
      assert reused.tx <= t.theirs[reused.localSeq - 1].time;
    }
  }

  /** The receive record whose pair an initialization stores besides that of its first record. */
  function Used(triple: Triple, status: Status): int { if status.Sender? then triple.b2 else triple.a3 }

  /** When an initialization stores something, it stores true pairs exactly if that record has its Tx half. */
  lemma InitializationTrueIff(t: Truth, sendList: Log, receiveList: Log, a1: nat, buf: Buffer, sum: int, status: Status)
    requires SendListTrue(t, sendList) && ReceiveListTrue(t, receiveList) && AllShowOlder(t.theirs, receiveList)
    requires RxIncreasing(receiveList) && receiveList != [] && SentBefore(sendList, Last(receiveList).rx)
    requires BufferTrue(t, buf)
    requires status.Sender? ==> a1 < |sendList|
    requires status.Receiver? ==> a1 < |receiveList| - 1 && Filled(receiveList[a1])
    requires var (listA, listB) := if status.Sender? then (sendList, receiveList) else (receiveList, sendList);
             |InitializeCalculateTof(listA, listB, a1, buf, sum, status).buf.send| > |buf.send|
    ensures var (listA, listB) := if status.Sender? then (sendList, receiveList) else (receiveList, sendList);
            var triple := FindTriple(listA, listB, a1, status);
            && triple.Some? && 0 <= Used(triple.value, status) < |receiveList| - 1
            && (BufferTrue(t, InitializeCalculateTof(listA, listB, a1, buf, sum, status).buf)
                <==> Filled(receiveList[Used(triple.value, status)]))
  {
    hide InitQuad, ClassicTof, TruncateReal, SentPair, ReceivedPair, FindTriple, InitNodes, BufferTrue;
    var (listA, listB) := if status.Sender? then (sendList, receiveList) else (receiveList, sendList);
    var triple := FindTriple(listA, listB, a1, status);
    var b2, a3 := triple.value.b2, triple.value.a3;
    TripleOrder(sendList, receiveList, a1, status);
    var q := InitQuad(listA[a1], listB[b2], listA[a3]);
    NodesTrueIff(t, listA[a1], listB[b2], listA[a3], ClassicTof(q) * 2.0, status);
    var (s, r) := InitNodes(listA[a1], listB[b2], listA[a3], ClassicTof(q) * 2.0, status);
    AddedTrueIff(t, buf, s, r);
    PairIffFilled(t, receiveList, Used(triple.value, status));
  }

  lemma PairIffFilled(t: Truth, log: Log, i: nat)
    requires ReceiveListTrue(t, log) && AllShowOlder(t.theirs, log) && i < |log|
    ensures ReceivedPair(t, log[i].localSeq, log[i].tx, log[i].rx) <==> Filled(log[i])
  {
    assert ShowsOlder(t.theirs, log[i]);
  }

  lemma NodesTrueIff(t: Truth, a1: ListNode, b2: ListNode, a3: ListNode, sum: real, status: Status)
    requires status.Sender? ==> SentPair(t, a1.localSeq, a1.tx, a1.rx) && SentPair(t, a3.localSeq, a3.tx, a3.rx)
    requires status.Receiver? ==> ReceivedPair(t, a1.localSeq, a1.tx, a1.rx) && SentPair(t, b2.localSeq, b2.tx, b2.rx)
    ensures var (s, r) := InitNodes(a1, b2, a3, sum, status);
            var used := if status.Sender? then b2 else a3;
            BufferNodeTrue(t, s) && BufferNodeTrue(t, r) <==> ReceivedPair(t, used.localSeq, used.tx, used.rx)
  {
    hide SentPair, ReceivedPair;
  }

  lemma AddedTrueIff(t: Truth, buf: Buffer, s: BufferNode, r: BufferNode)
    requires BufferTrue(t, buf)
    ensures BufferTrue(t, Buffer(buf.send + [s], buf.receive + [r])) <==> BufferNodeTrue(t, s) && BufferNodeTrue(t, r)
  {
    hide BufferNodeTrue;
    var after := Buffer(buf.send + [s], buf.receive + [r]);
    assert s in after.send && r in after.receive;
  }

  // ---------------------------------------------------------------- a stale time does get stored

  /** Message s of the neighbour is sent at 100 s and heard 10 ticks later, but for the messages 12 to 14, which are
      lost. */
  function ExampleTruth(): Truth {
    Truth([Stamp(1, 1200)], seq(16, i requires 0 <= i => Stamp(i + 1, 100 * (i + 1))),
          map s: nat | 1 <= s <= 16 && !(12 <= s <= 14) :: 100 * s + 10, map[1 := 1210])
  }

  function Pair(s: nat): ListNode { ListNode(100 * s, 100 * s + 10, s, s) }

  /** Message 11 reuses the slot of message 1, and its Tx time is never learnt; message 16 reuses that of message 3. */
  function ExampleReception(i: nat): ListNode {
    if i < 10 then Pair(i + 1) else if i == 10 then ListNode(100, 1110, 11, NULL_SEQ)
    else if i == 11 then Pair(15) else ListNode(300, 1610, 16, NULL_SEQ)
  }

  function ExampleReceptions(): Log { seq(13, i requires 0 <= i => ExampleReception(i)) }

  /** The receive list is the one that the receptions leave. */
  ghost predicate ReceivedOneByOne(log: Log) {
    |log| == 13 && forall i :: 10 <= i < |log| && !Filled(log[i]) ==> log[i].tx == log[i - RANGING_LIST_SIZE].tx
  }

  lemma ExampleIsTrue()
    ensures var (t, log) := (ExampleTruth(), ExampleReceptions());
            && ReceiveListTrue(t, log) && AllShowOlder(t.theirs, log) && Ascending(t.theirs)
  {
  }

  lemma ExampleRecord(i: nat)
    requires i < |ExampleReceptions()|
    ensures var r := ExampleReceptions()[i];
            && r.localSeq == (if i < 11 then i + 1 else i + 4) && (Filled(r) <==> i != 10 && i != 12)
            && (Filled(r) ==> r.remoteSeq == r.localSeq)
  {
  }

  lemma ExampleIsTolerant()
    ensures Tolerant(ExampleReceptions())
  {
    var log := ExampleReceptions();
    assert |log| == 13;
    hide ExampleReceptions, Filled;
    forall i | 0 <= i < |log|
      ensures log[i].localSeq == (if i < 11 then i + 1 else i + 4) && (Filled(log[i]) <==> i != 10 && i != 12)
      ensures Filled(log[i]) ==> log[i].remoteSeq == log[i].localSeq
    {
      ExampleRecord(i);
    }
  }

  lemma ExampleIsReceived()
    ensures ReceivedOneByOne(ExampleReceptions())
  {
  }

  lemma ExampleIsStale()
    ensures RxIncreasing(ExampleReceptions()) && !NoStale(ExampleReceptions())
  {
    var log := ExampleReceptions();
    assert !Filled(log[10]) && log[10].tx != NULL_TIMESTAMP;
  }

  function ExampleSends(): Log { [ListNode(1200, 1210, 1, 1)] }

  lemma ExampleTriple()
    ensures FindTriple(ExampleReceptions(), ExampleSends(), 11, Receiver) == Some(Triple(0, 10))
  {
    hide Nearest, Search;
    var (log, sends) := (ExampleReceptions(), ExampleSends());
    assert log[11] == Pair(15);
    assert IsNearest(sends, 1510, Receiver, 0, 0);
    NearestIsUnique(sends, 1510, Receiver, 0, Search(sends, 1510, Receiver), 0);
    assert log[10] == ListNode(100, 1110, 11, NULL_SEQ);
    assert IsNearest(log, 1200, Sender, 3, 10);
    NearestIsUnique(log, 1200, Sender, 3, Search(log, 1200, Sender), 10);
  }

  lemma ExampleEstimate()
    ensures var q := InitQuad(Pair(15), ListNode(1200, 1210, 1, 1), ListNode(100, 1110, 11, NULL_SEQ));
            q == Quad(1110, 310, 290, 90) && q.Sum() == 1800 && ClassicTof(q) >= 0.0
  {
  }

  /** Two messages lost too many: the record of message 11 looks full with the Tx time of message 1, and the
      initialization for message 15 stores that pair. */
  lemma StaleTimeIsStored()
    ensures var (t, log, sends) := (ExampleTruth(), ExampleReceptions(), ExampleSends());
            && SendListTrue(t, sends) && ReceiveListTrue(t, log) && AllShowOlder(t.theirs, log) && Ascending(t.theirs)
            && Tolerant(log) && RxIncreasing(log) && SentBefore(sends, Last(log).rx) && ReceivedOneByOne(log)
            && !NoStale(log) && Filled(log[11])
            && var after := InitializeCalculateTof(log, sends, 11, EmptyBuffer, 0, Receiver).buf;
               && |after.send| == 1 && after.send[0].rxSeq == 11 && after.send[0].receiveTx == 100
               && t.theirs[10].time == 1100 && !BufferTrue(t, after)
  {
    hide FindTriple, InitQuad, ClassicTof, TruncateReal, Interval, ReceiveListTrue, Ascending, Tolerant, RxIncreasing,
         AllShowOlder, NoStale, ReceivedOneByOne;
    ExampleIsTrue();
    ExampleIsTolerant();
    ExampleIsReceived();
    ExampleIsStale();
    ExampleTriple();
    ExampleEstimate();
    var (t, log, sends) := (ExampleTruth(), ExampleReceptions(), ExampleSends());
    assert log[11] == Pair(15) && log[10] == ListNode(100, 1110, 11, NULL_SEQ);
    var after := InitializeCalculateTof(log, sends, 11, EmptyBuffer, 0, Receiver).buf;
    assert after.send[0] in after.send;
  }
}
