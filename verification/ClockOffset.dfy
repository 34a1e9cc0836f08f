/** Clock-offset invariance: two runs of one drone whose messages differ only in that every neighbour's clock
    is moved by a constant (each neighbour by its own, modulo 2^40). All decisions, all stored estimates and
    all reported distances are the same. */
module ClockOffset {
  import opened Config
  import opened TofMath
  import opened RangingListSpec
  import opened RangingBufferSpec
  import opened NodeSpec
  import opened Phases

  /** y is the timestamp x of a clock moved by c; null stays null and a valid stamp stays valid. */
  ghost predicate Moved(c: int, x: nat, y: nat) {
    || (x == NULL_TIMESTAMP && y == NULL_TIMESTAMP)
    || MovedValid(c, x, y)
  }

  ghost predicate MovedValid(c: int, x: nat, y: nat) {
    x != NULL_TIMESTAMP && y != NULL_TIMESTAMP && (y - x - c) % UWB_MAX_TIMESTAMP == 0
  }

  lemma SameInterval(c: int, later: nat, earlier: nat, later': nat, earlier': nat)
    requires MovedValid(c, later, later') && MovedValid(c, earlier, earlier')
    ensures Interval(later', earlier') == Interval(later, earlier)
  {
    IntervalShift(later, earlier, later', earlier', c);
  }

  // ---------------------------------------------------------------- lists

  /** The two records of a list whose local clock is Key(_, local): receiveList with Sender, sendList with Receiver. */
  ghost predicate MovedNode(c: int, local: Status, x: ListNode, y: ListNode) {
    && Key(x, local) == Key(y, local)
    && Moved(c, Key(x, OtherSide(local)), Key(y, OtherSide(local)))
    && x.localSeq == y.localSeq && x.remoteSeq == y.remoteSeq
  }

  ghost predicate MovedLog(c: int, local: Status, a: Log, b: Log) {
    && |a| == |b|
    && forall i :: 0 <= i < |a| ==> MovedNode(c, local, a[i], b[i])
  }

  lemma {:induction false} SameNearest(c: int, local: Status, a: Log, b: Log, time: nat, lo: nat)
    requires MovedLog(c, local, a, b) && lo <= |a|
    ensures Nearest(a, time, local, lo) == Nearest(b, time, local, lo)
    decreases |a| - lo
  {
    hide IsNearest;
    if lo < |a| {
      assert MovedNode(c, local, a[lo], b[lo]);
      SameNearest(c, local, a, b, time, lo + 1);
      var r := Nearest(a, time, local, lo + 1);
      NearestBounds(a, time, local, lo + 1);
      if r != NULL_INDEX {
        assert MovedNode(c, local, a[r], b[r]);
      }
    }
  }

  lemma NearestBounds(log: Log, time: nat, status: Status, lo: nat)
    requires lo <= |log|
    ensures var r := Nearest(log, time, status, lo);
            r == NULL_INDEX || (lo <= r < |log| && Full(log[r]))
  {
  }

  lemma SameSearch(c: int, local: Status, a: Log, b: Log, time: nat)
    requires MovedLog(c, local, a, b)
    ensures Search(a, time, local) == Search(b, time, local)
  {
    SameNearest(c, local, a, b, time, Oldest(a));
  }

  lemma {:induction false} SameFindIn(c: int, local: Status, a: Log, b: Log, seqNo: nat, lo: nat, hi: nat)
    requires MovedLog(c, local, a, b) && lo <= hi <= |a|
    ensures FindIn(a, seqNo, lo, hi) == FindIn(b, seqNo, lo, hi)
    decreases hi
  {
    if hi != lo {
      assert MovedNode(c, local, a[hi - 1], b[hi - 1]);
      SameFindIn(c, local, a, b, seqNo, lo, hi - 1);
    }
  }

  lemma SameFind(c: int, local: Status, a: Log, b: Log, seqNo: nat)
    requires MovedLog(c, local, a, b)
    ensures Find(a, seqNo) == Find(b, seqNo)
  {
    SameFindIn(c, local, a, b, seqNo, Oldest(a), |a|);
  }

  // ---------------------------------------------------------------- buffers

  ghost predicate MovedBufferNode(c: int, x: BufferNode, y: BufferNode) {
    && x.sendTx == y.sendTx && MovedValid(c, x.sendRx, y.sendRx)
    && MovedValid(c, x.receiveTx, y.receiveTx) && x.receiveRx == y.receiveRx
    && x.sumTof == y.sumTof && x.txSeq == y.txSeq && x.rxSeq == y.rxSeq
  }

  ghost predicate MovedNodes(c: int, a: seq<BufferNode>, b: seq<BufferNode>) {
    && |a| == |b|
    && forall i :: 0 <= i < |a| ==> MovedBufferNode(c, a[i], b[i])
  }

  ghost predicate MovedBuffer(c: int, a: Buffer, b: Buffer) {
    MovedNodes(c, a.send, b.send) && MovedNodes(c, a.receive, b.receive)
  }

  lemma {:induction false} SameClosest(c: int, a: seq<BufferNode>, b: seq<BufferNode>, seqNo: nat, status: Status,
        lo: nat)
    requires MovedNodes(c, a, b) && lo <= |a|
    ensures Closest(a, seqNo, status, lo) == Closest(b, seqNo, status, lo)
    decreases |a| - lo
  {
    hide IsClosest;
    if lo < |a| {
      assert MovedBufferNode(c, a[lo], b[lo]);
      SameClosest(c, a, b, seqNo, status, lo + 1);
      var r := Closest(a, seqNo, status, lo + 1);
      ClosestBounds(a, seqNo, status, lo + 1);
      if r != NULL_INDEX {
        assert MovedBufferNode(c, a[r], b[r]);
      }
    }
  }

  lemma ClosestBounds(nodes: seq<BufferNode>, seqNo: nat, status: Status, lo: nat)
    requires lo <= |nodes|
    ensures var r := Closest(nodes, seqNo, status, lo); r == NULL_INDEX || lo <= r < |nodes|
  {
  }

  lemma SameSearchBuffer(c: int, a: Buffer, b: Buffer, seqNo: nat, status: Status)
    requires MovedBuffer(c, a, b)
    ensures SearchBuffer(a, seqNo, status) == SearchBuffer(b, seqNo, status)
    ensures var r := SearchBuffer(a, seqNo, status);
            r != NULL_INDEX ==> && 0 <= r < |Searched(a, status)| == |Searched(b, status)|
                                && MovedBufferNode(c, Searched(a, status)[r], Searched(b, status)[r])
  {
    hide MovedBufferNode, Closest, IsClosest;
    var nodes := Searched(a, status);
    SameClosest(c, nodes, Searched(b, status), seqNo, status, |nodes| - Length(nodes));
    ClosestBounds(nodes, seqNo, status, |nodes| - Length(nodes));
  }

  /** Every interval of the calculation lies within one clock. */
  lemma SameQuad(c: int, x: BufferNode, y: BufferNode, node: ListNode, node': ListNode, status: Status)
    requires MovedBufferNode(c, x, y)
    requires MovedNode(c, OtherSide(status), node, node') && MovedValid(c, Key(node, status), Key(node', status))
    ensures QuadOf(x, node.tx, node.rx, status) == QuadOf(y, node'.tx, node'.rx, status)
    ensures x.sumTof == y.sumTof && SeqKey(x, status) == SeqKey(y, status)
  {
    hide Interval, MovedValid;
    SameInterval(c, x.receiveTx, x.sendRx, y.receiveTx, y.sendRx);
    SameInterval(c, x.sendRx, x.receiveTx, y.sendRx, y.receiveTx);
    if status.Sender? {
      SameInterval(c, node.rx, x.receiveTx, node'.rx, y.receiveTx);
    } else {
      SameInterval(c, node.tx, x.sendRx, node'.tx, y.sendRx);
    }
  }

  lemma StoreStaysMoved(c: int, a: Buffer, b: Buffer, last: BufferNode, last': BufferNode,
                        node: ListNode, node': ListNode, t23: real, status: Status)
    requires MovedBuffer(c, a, b) && MovedBufferNode(c, last, last')
    requires MovedNode(c, OtherSide(status), node, node') && MovedValid(c, Key(node, status), Key(node', status))
    ensures MovedBuffer(c, Add(a, NewNode(last, node, t23, status), status),
        Add(b, NewNode(last', node', t23, status), status))
  {
    hide MovedValid;
  }

  lemma {:induction false} SameCalculation(c: int, a: Buffer, b: Buffer, node: ListNode, node': ListNode,
                                           checkSeq: nat, status: Status, flag: Flag)
    requires MovedBuffer(c, a, b) && checkSeq <= node.localSeq
    requires MovedNode(c, OtherSide(status), node, node') && MovedValid(c, Key(node, status), Key(node', status))
    ensures var x, y := CalculateTof(a, node, checkSeq, status, flag), CalculateTof(b, node', checkSeq, status, flag);
            x.distance == y.distance && MovedBuffer(c, x.buf, y.buf)
    decreases if flag.First? then 1 else 0
  {
    hide Estimate, QuadOf, ClassicDistance, DistanceOf, InRange, MovedValid, SearchBuffer, IsClosest, MovedBufferNode,
         MovedNodes, NewNode, Add;
    SameSearchBuffer(c, a, b, checkSeq, status);
    SameSearchBuffer(c, a, b, node.localSeq, status);
    SearchKeyBelow(a, checkSeq, status);
    var index := SearchBuffer(a, checkSeq, status);
    if index != NULL_INDEX {
      var x, y := Searched(a, status)[index], Searched(b, status)[index];
      SameQuad(c, x, y, node, node', status);
      var t23 := Estimate(QuadOf(x, node.tx, node.rx, status), x.sumTof);
      if t23.Some? {
        if InRange(DistanceOf(t23.value / 2.0)) {
          SearchIsMonotone(a, checkSeq, node.localSeq, status);
          var last := SearchBuffer(a, node.localSeq, status);
          StoreStaysMoved(c, a, b, Searched(a, status)[last], Searched(b, status)[last], node, node', t23.value,
            status);
        } else if flag.First? {
          SameCalculation(c, a, b, node, node', SeqKey(x, status), status, Second);
        }
      }
    }
  }

  // ---------------------------------------------------------------- initialization

  lemma SameTriple(c: int, listA: Log, listB: Log, listA': Log, listB': Log, a1: nat, status: Status)
    requires MovedLog(c, OtherSide(status), listA, listA') && MovedLog(c, status, listB, listB') && a1 < |listA|
    ensures FindTriple(listA, listB, a1, status) == FindTriple(listA', listB', a1, status)
    ensures var t := FindTriple(listA, listB, a1, status);
            t.Some? ==> && 0 <= t.value.b2 < |listB| && 0 <= t.value.a3 < |listA|
                        && Full(listA[a1]) && Full(listB[t.value.b2]) && Full(listA[t.value.a3])
  {
    hide IsNearest;
    assert MovedNode(c, OtherSide(status), listA[a1], listA'[a1]);
    var time := Key(listA[a1], OtherSide(status));
    SameSearch(c, status, listB, listB', time);
    NearestBounds(listB, time, status, Oldest(listB));
    var b2 := Search(listB, time, status);
    if b2 != NULL_INDEX {
      assert MovedNode(c, status, listB[b2], listB'[b2]);
      SameSearch(c, OtherSide(status), listA, listA', Key(listB[b2], status));
      NearestBounds(listA, Key(listB[b2], status), OtherSide(status), Oldest(listA));
    }
  }

  lemma SameInitQuad(c: int, a1: ListNode, b2: ListNode, a3: ListNode, a1': ListNode, b2': ListNode, a3': ListNode,
        status: Status)
    requires MovedNode(c, OtherSide(status), a1, a1') && MovedNode(c, status, b2, b2')
    requires MovedNode(c, OtherSide(status), a3, a3')
    requires Full(a1) && Full(b2) && Full(a3)
    ensures InitQuad(a1, b2, a3) == InitQuad(a1', b2', a3')
    ensures var (s, r) := InitNodes(a1, b2, a3, 0.0, status);
            var (s', r') := InitNodes(a1', b2', a3', 0.0, status);
            MovedBufferNode(c, s, s') && MovedBufferNode(c, r, r')
  {
    hide Interval, MovedValid;
    if status.Sender? {
      SameInterval(c, a1.rx, b2.tx, a1'.rx, b2'.tx);
      SameInterval(c, b2.tx, a3.rx, b2'.tx, a3'.rx);
    } else {
      SameInterval(c, b2.rx, a3.tx, b2'.rx, a3'.tx);
      SameInterval(c, a1.tx, b2.rx, a1'.tx, b2'.rx);
    }
  }

  lemma SameInitialization(c: int, listA: Log, listB: Log, listA': Log, listB': Log, a1: nat,
                           a: Buffer, b: Buffer, sum: int, status: Status)
    requires MovedLog(c, OtherSide(status), listA, listA') && MovedLog(c, status, listB, listB') && a1 < |listA|
    requires MovedBuffer(c, a, b)
    ensures var x, y := InitializeCalculateTof(listA, listB, a1, a, sum, status),
                        InitializeCalculateTof(listA', listB', a1, b, sum, status);
            x.initTofSum == y.initTofSum && MovedBuffer(c, x.buf, y.buf)
  {
    hide FindTriple, InitQuad, TruncateReal, MovedNode, Full, ClassicTof;
    SameTriple(c, listA, listB, listA', listB', a1, status);
    var t := FindTriple(listA, listB, a1, status);
    if t.Some? {
      SameInitQuad(c, listA[a1], listB[t.value.b2], listA[t.value.a3], listA'[a1], listB'[t.value.b2],
        listA'[t.value.a3], status);
    }
  }

  // ---------------------------------------------------------------- processing

  ghost predicate MovedNeighbour(c: int, x: Neighbour, y: Neighbour) {
    && x.address == y.address
    && MovedLog(c, Receiver, x.sendList, y.sendList)
    && MovedLog(c, Sender, x.receiveList, y.receiveList)
    && MovedBuffer(c, x.validBuffer, y.validBuffer)
  }

  ghost predicate MovedProgress(c: int, p: Progress, q: Progress) {
    MovedNeighbour(c, p.nb, q.nb) && p.initTofSum == q.initTofSum && p.distance == q.distance
  }

  /** A timestamp tuple of the neighbour: a valid sequence number comes with a valid timestamp. */
  ghost predicate MovedStamp(c: int, s: Stamp, t: Stamp) {
    && s.seqNo == t.seqNo
    && Moved(c, s.time, t.time)
    && (s.seqNo != NULL_SEQ ==> s.time != NULL_TIMESTAMP)
  }

  ghost predicate MovedStamps(c: int, s: seq<Stamp>, t: seq<Stamp>) {
    && |s| == |t|
    && forall i :: 0 <= i < |s| ==> MovedStamp(c, s[i], t[i])
  }

  lemma AveragesStayMoved(c: int, a: Buffer, b: Buffer, sum: int, i: nat)
    requires MovedBuffer(c, a, b) && i < MESSAGE_HEAD_TX_SIZE
    ensures |a.send| == RANGING_BUFFER_SIZE ==> MovedBuffer(c, AverageSend(a, i, sum), AverageSend(b, i, sum))
    ensures MovedBuffer(c, AverageReceive(a, sum), AverageReceive(b, sum))
  {
    hide InitialSumTof, MovedValid;
  }

  lemma SameReceiverCalculation(c: int, p: Progress, q: Progress, k: nat, i: nat)
    requires MovedProgress(c, p, q) && k < |p.nb.receiveList| && i < MESSAGE_HEAD_TX_SIZE
    requires p.nb.receiveList[k].tx != NULL_TIMESTAMP
    ensures MovedProgress(c, ReceiverCalculation(p, k, i), ReceiverCalculation(q, k, i))
  {
    hide CalculateTof, InitializeCalculateTof, MovedNodes, AverageSend;
    var x, y := p.nb, q.nb;
    assert MovedNode(c, Sender, x.receiveList[k], y.receiveList[k]);
    SameLengths(c, x.validBuffer, y.validBuffer);
    if Length(x.validBuffer.send) < MAX_INITIAL_CALCULATION {
      SameInitialization(c, x.receiveList, x.sendList, y.receiveList, y.sendList, k, x.validBuffer, y.validBuffer,
        p.initTofSum, Receiver);
      var r := InitializeCalculateTof(x.receiveList, x.sendList, k, x.validBuffer, p.initTofSum, Receiver);
      var s := InitializeCalculateTof(y.receiveList, y.sendList, k, y.validBuffer, p.initTofSum, Receiver);
      InitializeGrows(x.receiveList, x.sendList, k, x.validBuffer, p.initTofSum, Receiver);
      AveragesStayMoved(c, r.buf, s.buf, r.initTofSum, i);
      SameLengths(c, r.buf, s.buf);
    } else {
      SameCalculation(c, x.validBuffer, y.validBuffer, x.receiveList[k], y.receiveList[k], x.receiveList[k].localSeq,
        Receiver, First);
    }
  }

  lemma SameLengths(c: int, a: Buffer, b: Buffer)
    requires MovedBuffer(c, a, b)
    ensures |a.send| == |b.send| && |a.receive| == |b.receive|
  {
  }

  lemma SameSenderCalculation(c: int, p: Progress, q: Progress)
    requires MovedProgress(c, p, q) && p.nb.sendList != []
    requires p.nb.sendList[|p.nb.sendList| - 1].rx != NULL_TIMESTAMP
    ensures MovedProgress(c, SenderCalculation(p), SenderCalculation(q))
  {
    hide CalculateTof, InitializeCalculateTof, MovedNodes, AverageReceive;
    var x, y := p.nb, q.nb;
    var k := |x.sendList| - 1;
    assert MovedNode(c, Receiver, x.sendList[k], y.sendList[k]);
    SameLengths(c, x.validBuffer, y.validBuffer);
    if Length(x.validBuffer.receive) < MAX_INITIAL_CALCULATION {
      SameInitialization(c, x.sendList, x.receiveList, y.sendList, y.receiveList, k, x.validBuffer, y.validBuffer,
        p.initTofSum, Sender);
      var r := InitializeCalculateTof(x.sendList, x.receiveList, k, x.validBuffer, p.initTofSum, Sender);
      var s := InitializeCalculateTof(y.sendList, y.receiveList, k, y.validBuffer, p.initTofSum, Sender);
      AveragesStayMoved(c, r.buf, s.buf, r.initTofSum, 0);
      SameLengths(c, r.buf, s.buf);
    } else {
      SameCalculation(c, x.validBuffer, y.validBuffer, x.sendList[k], y.sendList[k], x.sendList[k].localSeq, Sender,
        First);
    }
  }

  lemma SameHeaderStep(c: int, p: Progress, q: Progress, i: nat, s: Stamp, t: Stamp)
    requires MovedProgress(c, p, q) && i < MESSAGE_HEAD_TX_SIZE && MovedStamp(c, s, t)
    ensures MovedProgress(c, HeaderStep(p, i, s), HeaderStep(q, i, t))
  {
    hide ReceiverCalculation, MovedValid, MovedBuffer;
    SameFind(c, Sender, p.nb.receiveList, q.nb.receiveList, s.seqNo);
    if s.seqNo != NULL_SEQ {
      match Find(p.nb.receiveList, s.seqNo) {
        case At(k) =>
          var x := p.nb.(receiveList := FillTx(p.nb.receiveList, k, s.time, s.seqNo));
          var y := q.nb.(receiveList := FillTx(q.nb.receiveList, k, t.time, t.seqNo));
          assert MovedNode(c, Sender, p.nb.receiveList[k], q.nb.receiveList[k]);
          assert MovedNeighbour(c, x, y);
          SameReceiverCalculation(c, p.(nb := x), q.(nb := y), k, i);
        case _ =>
      }
    }
  }

  lemma {:induction false} SameHeaderLoop(c: int, p: Progress, q: Progress, tx: HeadStamps, tx': HeadStamps, k: nat)
    requires MovedProgress(c, p, q) && MovedStamps(c, tx, tx') && k <= MESSAGE_HEAD_TX_SIZE
    ensures MovedProgress(c, HeaderLoop(p, tx, k), HeaderLoop(q, tx', k))
    decreases k
  {
    hide HeaderStep, MovedProgress, MovedStamp;
    if k != 0 {
      SameHeaderStep(c, p, q, k - 1, tx[k - 1], tx'[k - 1]);
      SameHeaderLoop(c, HeaderStep(p, k - 1, tx[k - 1]), HeaderStep(q, k - 1, tx'[k - 1]), tx, tx', k - 1);
    }
  }

  lemma SameBodyStep(c: int, p: Progress, q: Progress, history: History, s: Stamp, t: Stamp)
    requires MovedProgress(c, p, q) && MovedStamp(c, s, t)
    ensures MovedProgress(c, BodyStep(p, history, s), BodyStep(q, history, t))
  {
    hide SenderCalculation, MovedValid, MovedBuffer, FindSend, Find;
    SameFind(c, Receiver, p.nb.sendList, q.nb.sendList, s.seqNo);
    if Pushes(p.nb.sendList, history, s) {
      var x := p.nb.(sendList := p.nb.sendList + [FullRecord(history, s)]);
      var y := q.nb.(sendList := q.nb.sendList + [FullRecord(history, t)]);
      assert MovedNode(c, Receiver, FullRecord(history, s), FullRecord(history, t));
      SameSenderCalculation(c, p.(nb := x), q.(nb := y));
    }
  }

  lemma {:induction false} SameBodyLoop(c: int, p: Progress, q: Progress, history: History, rx: BodyStamps,
        rx': BodyStamps, k: nat)
    requires MovedProgress(c, p, q) && MovedStamps(c, rx, rx') && k <= MESSAGE_BODY_RX_SIZE
    ensures MovedProgress(c, BodyLoop(p, history, rx, k), BodyLoop(q, history, rx', k))
    decreases k
  {
    hide BodyStep, MovedProgress, MovedStamp;
    if k != 0 {
      SameBodyStep(c, p, q, history, rx[k - 1], rx'[k - 1]);
      SameBodyLoop(c, BodyStep(p, history, rx[k - 1]), BodyStep(q, history, rx'[k - 1]), history, rx, rx', k - 1);
    }
  }

  ghost predicate MovedMessage(c: int, m: Inbound, m': Inbound) {
    && m.msg.src == m'.msg.src && m.msg.seqNo == m'.msg.seqNo && m.rx == m'.rx
    && MovedStamps(c, m.msg.tx, m'.msg.tx)
    && forall i :: 0 <= i < MESSAGE_BODY_UNIT_SIZE ==>
         m.msg.units[i].dest == m'.msg.units[i].dest && MovedStamps(c, m.msg.units[i].rx, m'.msg.units[i].rx)
  }

  lemma AddReceivedStaysMoved(c: int, a: Log, b: Log, rx: nat, seqNo: nat)
    requires MovedLog(c, Sender, a, b)
    ensures MovedLog(c, Sender, AddReceived(a, rx, seqNo), AddReceived(b, rx, seqNo))
  {
    hide MovedValid;
    if |a| >= RANGING_LIST_SIZE {
      assert MovedNode(c, Sender, a[|a| - RANGING_LIST_SIZE], b[|a| - RANGING_LIST_SIZE]);
    }
  }

  lemma SameProcessFor(c: int, x: Neighbour, y: Neighbour, n: Node, n': Node, m: Inbound, m': Inbound)
    requires MovedNeighbour(c, x, y) && MovedMessage(c, m, m')
    requires n.history == n'.history && n.initTofSum == n'.initTofSum && n.address == n'.address
    ensures var (p, d) := ProcessFor(x, n, m);
            var (q, e) := ProcessFor(y, n', m');
            MovedProgress(c, p, q) && d == e
  {
    hide HeaderLoop, BodyLoop, MovedLog, MovedBuffer, MovedStamps, Combine;
    AddReceivedStaysMoved(c, x.receiveList, y.receiveList, m.rx, m.msg.seqNo);
    var p := Progress(x.(receiveList := AddReceived(x.receiveList, m.rx, m.msg.seqNo)), n.initTofSum, None);
    var q := Progress(y.(receiveList := AddReceived(y.receiveList, m.rx, m.msg.seqNo)), n.initTofSum, None);
    SameHeaderLoop(c, p, q, m.msg.tx, m'.msg.tx, MESSAGE_HEAD_TX_SIZE);
    var h, g := HeaderLoop(p, m.msg.tx, MESSAGE_HEAD_TX_SIZE), HeaderLoop(q, m'.msg.tx, MESSAGE_HEAD_TX_SIZE);
    var unit := UnitTo(m.msg.units, n.address);
    assert unit == UnitTo(m'.msg.units, n.address);
    if unit != NULL_INDEX {
      SameBodyLoop(c, h.(distance := None), g.(distance := None), n.history,
                   m.msg.units[unit].rx, m'.msg.units[unit].rx, MESSAGE_BODY_RX_SIZE);
    }
  }

  // ---------------------------------------------------------------- whole runs

  /** Each neighbour's clock is moved by its own constant. */
  type Offsets = nat -> int

  ghost predicate MovedState(offset: Offsets, n: Node, n': Node) {
    && n.address == n'.address && n.nextSeq == n'.nextSeq && n.history == n'.history
    && n.priority == n'.priority && n.initTofSum == n'.initTofSum && n.lastD == n'.lastD
    && MovedNeighbours(offset, n.neighbours, n'.neighbours)
  }

  ghost predicate MovedNeighbours(offset: Offsets, a: seq<Neighbour>, b: seq<Neighbour>) {
    && |a| == |b|
    && forall i :: 0 <= i < |a| ==> MovedNeighbour(offset(a[i].address), a[i], b[i])
  }

  lemma {:induction false} SameFindNeighbour(offset: Offsets, a: seq<Neighbour>, b: seq<Neighbour>, address: nat,
        i: nat)
    requires MovedNeighbours(offset, a, b) && i <= |a|
    ensures FindFrom(a, address, i) == FindFrom(b, address, i)
    decreases |a| - i
  {
    hide MovedLog, MovedBuffer;
    if i < |a| {
      assert MovedNeighbour(offset(a[i].address), a[i], b[i]);
      SameFindNeighbour(offset, a, b, address, i + 1);
    }
  }

  lemma SameRegister(offset: Offsets, a: seq<Neighbour>, b: seq<Neighbour>, address: nat)
    requires MovedNeighbours(offset, a, b)
    ensures MovedNeighbours(offset, Register(a, address), Register(b, address))
  {
    SameFindNeighbour(offset, a, b, address, 0);
  }

  lemma SameProcess(offset: Offsets, n: Node, n': Node, m: Inbound, m': Inbound)
    requires MovedState(offset, n, n') && MovedMessage(offset(m.msg.src), m, m')
    ensures MovedState(offset, Process(n, m).node, Process(n', m').node)
    ensures Process(n, m).report == Process(n', m').report
  {
    hide ProcessFor, MovedNeighbour, Register, FindNeighbour, UpdatePriority, Compensate;
    SameRegister(offset, n.neighbours, n'.neighbours, m.msg.src);
    var neighbours, neighbours' := Register(n.neighbours, m.msg.src), Register(n'.neighbours, m'.msg.src);
    SameFindNeighbour(offset, neighbours, neighbours', m.msg.src, 0);
    var i := FindNeighbour(neighbours, m.msg.src);
    assert i == FindNeighbour(neighbours', m'.msg.src) by {
      FindNeighbourIsFindFrom(neighbours, m.msg.src);
      FindNeighbourIsFindFrom(neighbours', m.msg.src);
    }
    if i != NULL_INDEX {
      var c := offset(m.msg.src);
      assert MovedNeighbour(offset(neighbours[i].address), neighbours[i], neighbours'[i]);
      SameProcessFor(c, neighbours[i], neighbours'[i], n, n', m, m');
      ProcessForKeeps(neighbours[i], n, m);
    }
  }

  ghost predicate MovedEvent(offset: Offsets, e: Event, e': Event) {
    match (e, e')
    case (Sent(t), Sent(t')) => t == t'
    case (Received(m), Received(m')) => MovedMessage(offset(m.msg.src), m, m')
    case _ => false
  }

  /** What a run reports, event by event. */
  function Reported(n: Node, events: seq<Event>): seq<Option<Distance>>
    decreases |events|
  {
    if events == [] then []
    else
      var now := match events[0] case Received(m) => Process(n, m).report case Sent(_) => None;
      [now] + Reported(Apply(n, events[0]), events[1..])
  }

  /** Over any sequence of sends and messages, moving every neighbour's clock by a constant changes no decision:
      the states stay the same up to the moved remote timestamps, and the reports are equal. */
  lemma {:induction false} OffsetInvariance(offset: Offsets, n: Node, n': Node, events: seq<Event>, events': seq<Event>)
    requires MovedState(offset, n, n') && |events| == |events'|
    requires forall i :: 0 <= i < |events| ==> MovedEvent(offset, events[i], events'[i])
    ensures MovedState(offset, Run(n, events), Run(n', events'))
    ensures Reported(n, events) == Reported(n', events')
    decreases |events|
  {
    hide Process, MovedNeighbours, MovedMessage;
    if events != [] {
      assert MovedEvent(offset, events[0], events'[0]);
      match (events[0], events'[0]) {
        case (Received(m), Received(m')) => SameProcess(offset, n, n', m, m');
        case (Sent(_), Sent(_)) =>
      }
      OffsetInvariance(offset, Apply(n, events[0]), Apply(n', events'[0]), events[1..], events'[1..]);
    }
  }
}
