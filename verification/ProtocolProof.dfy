/** The protocol's invariants hold in every state of every run: pairing, exactly-once pushes, loss tolerance and
    true calculation records. */
module ProtocolProof {
  import opened Config
  import opened RangingListSpec
  import opened RangingBufferSpec
  import opened NodeSpec
  import opened LossTolerance
  import opened ExactlyOnce
  import opened Phases
  import opened Pairing
  import opened Exactness
  import opened Protocol

  // ---------------------------------------------------------------- what a step never takes back

  ghost predicate Evolves(x: Drone, x': Drone) {
    && x.node.history <= x'.node.history && x.sent <= x'.sent && x.origin <= x'.origin
    && |x.heard| == |x'.heard|
    && (forall e :: 0 <= e < |x.heard| ==> SubMap(x.heard[e], x'.heard[e]))
    && (forall e: nat :: Seqs(Rl(x, e)) <= Seqs(Rl(x', e)))
  }

  /** What a drone has received of another one is untouched by the other one's steps. */
  lemma OtherDroneEvolves(x: Drone, y: Drone, y': Drone, d: nat, e: nat)
    requires PairInv(x, y, d, e) && Evolves(y, y')
    ensures PairInv(x, y', d, e)
  {
    hide Rl, Sl, Table, SendListTrue, ReceiveListTrue, BufferTrue, Ordered, UpToReport, Tolerant, SmallGaps,
         FreshSlots, RxIncreasing, Seqs;
    assert GrowsTo(TruthOf(x, y, d, e), TruthOf(x, y', d, e));
    PairsStayTrue(TruthOf(x, y, d, e), TruthOf(x, y', d, e), Sl(x, e), Rl(x, e), Table(x.node, Addr(e)).validBuffer);
    UpToReportIsStable(Sl(x, e), Seqs(Rl(y, d)), Seqs(Rl(y', d)), x.acked[e], |x.node.history|, |x.node.history|);
    assert Known(y, LastSeq(Rl(x, e)), d) <= Known(y', LastSeq(Rl(x, e)), d);
  }

  lemma RlOf(x: Drone, x': Drone)
    requires x.node.neighbours == x'.node.neighbours
    ensures forall e: nat ::
              Rl(x, e) == Rl(x', e) && Sl(x, e) == Sl(x', e) && Table(x.node, Addr(e)) == Table(x'.node, Addr(e))
  {
  }

  // ---------------------------------------------------------------- generate

  lemma GenerateOwn(s: System, d: nat)
    requires Shaped(s) && d < |s| && s[d].pending.None? && OwnInv(s[d], d, |s|)
    ensures OwnInv(Generated(s, d), d, |s|) && Evolves(s[d], Generated(s, d))
  {
    hide Distinct;
    var x, x' := s[d], Generated(s, d);
    RlOf(x, x');
    GeneratedHeader(x.node.history);
    assert Messages(x') == Messages(x) + [Generate(x.node)];
    assert MessageOk(x', d, |x.sent|, Generate(x.node));
    forall k | 0 <= k < |Messages(x')|
      ensures MessageOk(x', d, k, Messages(x')[k])
    {
      if k < |Messages(x)| { assert MessageOk(x, d, k, Messages(x)[k]); }
    }
  }

  /** The reports of a message being generated. */
  lemma GenerateReports(s: System, d: nat, e: nat, u: BodyUnit)
    requires Shaped(s) && d < |s| && e < |s| && d != e && OwnInv(s[d], d, |s|)
    requires Paired(s[d], s[e], d, e) && u in Generate(s[d].node).units && u.dest == Addr(e)
    ensures Reports(u.rx, Seqs(Rl(s[d], e)), |Rl(s[d], e)|)
    ensures forall t <- u.rx :: t.seqNo != NULL_SEQ ==> t.seqNo in s[d].heard[e] && s[d].heard[e][t.seqNo] == t.time
  {
    hide *;
    OwnDistinct(s[d], d, |s|);
    TableIsRl(s[d], e);
    UnitIsTable(s[d].node, Addr(e), u);
    GeneratedReport(Rl(s[d], e));
    PairedReceptions(s[d], s[e], d, e);
    ReportedTimes(s[d].heard[e], Rl(s[d], e), u.rx);
  }

  lemma TableIsRl(x: Drone, e: nat)
    ensures Table(x.node, Addr(e)).receiveList == Rl(x, e) && Addr(e) != NULL_ADDR
  {
  }

  /** A unit for an address lists the newest receptions of its table. */
  lemma UnitIsTable(n: Node, address: nat, u: BodyUnit)
    requires Distinct(n.neighbours) && u in Generate(n).units && u.dest == address != NULL_ADDR
    ensures u.rx == NewestReceptions(Table(n, address).receiveList)
  {
    hide NewestSends, NewestReceptions, Table, Distinct;
    var i :| 0 <= i < MESSAGE_BODY_UNIT_SIZE && u == UnitFor(n, i);
    TableOf(n, n.priority[i]);
  }

  lemma PairedReceptions(x: Drone, y: Drone, d: nat, e: nat)
    requires Paired(x, y, d, e)
    ensures e < |x.heard| && forall r <- Rl(x, e) :: r.localSeq in x.heard[e] && x.heard[e][r.localSeq] == r.rx
  {
    hide Rl, Sl, SendListTrue, Tolerant, ReceivedPair;
  }

  lemma ReportedTimes(heard: map<nat, nat>, log: Log, rx: BodyStamps)
    requires rx == NewestReceptions(log) && forall r <- log :: r.localSeq in heard && heard[r.localSeq] == r.rx
    ensures forall t <- rx :: t.seqNo != NULL_SEQ ==> t.seqNo in heard && heard[t.seqNo] == t.time
  {
  }

  lemma GenerateOutgoing(s: System, d: nat, e: nat)
    requires Shaped(s) && d < |s| && e < |s| && d != e && s[d].pending.None?
    requires OwnInv(s[d], d, |s|) && Outgoing(s[d], e) && Paired(s[d], s[e], d, e)
    ensures Outgoing(Generated(s, d), e)
  {
    hide OwnInv, Reports, Paired, Rl, Seqs, Generate;
    var x, x' := s[d], Generated(s, d);
    assert |x.origin| == |Messages(x)|;
    RlOf(x, x');
    assert Messages(x') == Messages(x) + [Generate(x.node)];
    forall k, u | 0 <= k < |x'.origin| && u in Messages(x')[k].units && u.dest == Addr(e)
      ensures ReportOk(x', e, k, u)
    {
      if k < |x.origin| {
        assert u in Messages(x)[k].units;
        assert ReportOk(x, e, k, u);
      } else {
        GenerateReports(s, d, e, u);
      }
    }
  }

  lemma GeneratePair(s: System, d: nat, e: nat)
    requires Shaped(s) && d < |s| && e < |s| && d != e && s[d].pending.None? && PairInv(s[d], s[e], d, e)
    ensures PairInv(Generated(s, d), s[e], d, e)
  {
    hide SendListTrue, ReceiveListTrue, BufferTrue, Ordered, UpToReport, Tolerant, SmallGaps, FreshSlots, RxIncreasing,
         Rl, Sl, Table, Seqs;
    RlOf(s[d], Generated(s, d));
  }

  // ---------------------------------------------------------------- transmit

  lemma TransmitOwn(x: Drone, d: nat, n: nat, now: nat)
    requires OwnInv(x, d, n) && x.pending.Some? && now > x.clock
    ensures OwnInv(Transmitted(x, now), d, n) && Evolves(x, Transmitted(x, now))
  {
    hide Distinct;
    var x' := Transmitted(x, now);
    RlOf(x, x');
    assert Messages(x') == Messages(x);
    assert x'.node.history == x.node.history + [Stamp(|x.sent| + 1, now)];
    forall k | 0 <= k < |Messages(x')|
      ensures MessageOk(x', d, k, Messages(x')[k])
    {
      assert MessageOk(x, d, k, Messages(x)[k]);
    }
  }

  lemma TransmitOutgoing(x: Drone, e: nat, now: nat)
    requires Outgoing(x, e) && x.pending.Some?
    ensures Outgoing(Transmitted(x, now), e)
  {
    hide Reports, Rl, Seqs;
    var x' := Transmitted(x, now);
    RlOf(x, x');
    assert Messages(x') == Messages(x);
    forall k, u | 0 <= k < |x'.origin| && u in Messages(x')[k].units && u.dest == Addr(e)
      ensures ReportOk(x', e, k, u)
    {
      assert ReportOk(x, e, k, u);
    }
  }

  lemma TransmitPair(x: Drone, y: Drone, d: nat, e: nat, now: nat)
    requires PairInv(x, y, d, e) && x.pending.Some? && now > x.clock
    ensures PairInv(Transmitted(x, now), y, d, e)
  {
    hide SendListTrue, ReceiveListTrue, BufferTrue, Ordered, UpToReport, Tolerant, SmallGaps, FreshSlots, RxIncreasing,
         Rl, Sl, Table, Seqs, PastOnly;
    var x' := Transmitted(x, now);
    RlOf(x, x');
    assert GrowsTo(TruthOf(x, y, d, e), TruthOf(x', y, d, e));
    PairsStayTrue(TruthOf(x, y, d, e), TruthOf(x', y, d, e), Sl(x, e), Rl(x, e), Table(x.node, Addr(e)).validBuffer);
    UpToReportIsStable(Sl(x, e), Seqs(Rl(y, d)), Seqs(Rl(y, d)), x.acked[e], |x.node.history|, |x'.node.history|);
    forall i, u | 0 <= i < |x'.inbox| && x'.inbox[i].msg.src == Addr(e) && u in x'.inbox[i].msg.units
      && u.dest == Addr(d)
      ensures PastOnly(x'.node.history, u.rx, x'.inbox[i].rx)
    {
      PastStaysPast(x.node.history, x'.node.history, u.rx, x.inbox[i].rx);
    }
  }

  lemma PastStaysPast(history: History, history': History, rx: BodyStamps, time: nat)
    requires PastOnly(history, rx, time) && history <= history'
    ensures PastOnly(history', rx, time)
  {
  }

  // ---------------------------------------------------------------- deliver, lose

  lemma DeliverOwn(x: Drone, d: nat, n: nat, e: nat, m: Message, now: nat)
    requires OwnInv(x, d, n) && e < n && e != d && now > x.clock && m.src == Addr(e) && m.seqNo == x.cursor[e] + 1
    requires forall s :: s in x.heard[e] ==> s <= x.cursor[e]
    ensures OwnInv(Delivered(x, e, m, now), d, n) && Evolves(x, Delivered(x, e, m, now))
  {
    hide Distinct, Numbered, HeaderOf, HeaderTrue;
    var x' := Delivered(x, e, m, now);
    RlOf(x, x');
    assert Messages(x') == Messages(x);
    forall k | 0 <= k < |Messages(x')|
      ensures MessageOk(x', d, k, Messages(x')[k])
    {
      assert MessageOk(x, d, k, Messages(x)[k]);
    }
  }

  /** Hearing more keeps all reports true. */
  lemma OutgoingStays(x: Drone, x': Drone, e: nat)
    requires Outgoing(x, e) && x'.sent == x.sent && x'.pending == x.pending && x'.origin == x.origin
    requires |x.heard| == |x'.heard| && SubMap(x.heard[e], x'.heard[e]) && Seqs(Rl(x, e)) <= Seqs(Rl(x', e))
    ensures Outgoing(x', e)
  {
    hide Rl;
    assert Messages(x') == Messages(x);
    forall k, u | 0 <= k < |x'.origin| && u in Messages(x')[k].units && u.dest == Addr(e)
      ensures ReportOk(x', e, k, u)
    {
      assert ReportOk(x, e, k, u);
    }
  }

  lemma DeliverPair(x: Drone, y: Drone, d: nat, e: nat, n: nat, now: nat)
    requires OwnInv(x, d, n) && OwnInv(y, e, n) && e < n && d < n && e != d && now > x.clock
    requires PairInv(x, y, d, e) && PairInv(y, x, e, d) && Outgoing(y, d) && x.cursor[e] < |y.sent|
    ensures PairInv(Delivered(x, e, y.sent[x.cursor[e]], now), y, d, e)
  {
    hide SendListTrue, ReceiveListTrue, BufferTrue, Ordered, UpToReport, Tolerant, SmallGaps, FreshSlots, RxIncreasing,
         Rl, Sl, Table, Seqs, PastOnly, QueuedPast, Outgoing, Numbered, Distinct;
    var m := y.sent[x.cursor[e]];
    assert MessageOk(y, e, x.cursor[e], Messages(y)[x.cursor[e]]);
    var x' := Delivered(x, e, m, now);
    RlOf(x, x');
    assert SubMap(x.heard[e], x'.heard[e]);
    assert GrowsTo(TruthOf(x, y, d, e), TruthOf(x', y, d, e));
    PairsStayTrue(TruthOf(x, y, d, e), TruthOf(x', y, d, e), Sl(x, e), Rl(x, e), Table(x.node, Addr(e)).validBuffer);
    LastRxIsPast(x, y, d, e);
    assert QueuedOk(x', y, e, Inbound(m, now));
    forall i | 0 <= i < |x'.inbox| && x'.inbox[i].msg.src == Addr(e)
      ensures QueuedOk(x', y, e, x'.inbox[i])
    {
      if i < |x.inbox| { assert QueuedOk(x, y, e, x.inbox[i]); }
    }
    forall i, j | 0 <= i < j < |x'.inbox| && x'.inbox[i].msg.src == Addr(e) && x'.inbox[j].msg.src == Addr(e)
      ensures x'.inbox[i].msg.seqNo < x'.inbox[j].msg.seqNo && x'.inbox[i].rx < x'.inbox[j].rx
    {
      if j == |x.inbox| { assert QueuedOk(x, y, e, x.inbox[i]); }
    }
    DeliverPast(x, y, d, e, n, now);
  }

  lemma LastRxIsPast(x: Drone, y: Drone, d: nat, e: nat)
    requires Receiving(x, y, e) && Paired(x, y, d, e)
    ensures LastRx(Rl(x, e)) <= x.clock
  {
    hide SendListTrue, Tolerant, RxIncreasing, Rl;
    var log := Rl(x, e);
    if log != [] {
      assert log[|log| - 1].localSeq in x.heard[e];
    }
  }

  /** A message that arrives can only report sends made before now. */
  lemma DeliverPast(x: Drone, y: Drone, d: nat, e: nat, n: nat, now: nat)
    requires OwnInv(x, d, n) && OwnInv(y, e, n) && e < n && d < n && e != d && now > x.clock
    requires QueuedPast(x, d, e) && Receiving(y, x, d) && Outgoing(y, d) && x.cursor[e] < |y.sent|
    ensures QueuedPast(Delivered(x, e, y.sent[x.cursor[e]], now), d, e)
  {
    hide Rl, Seqs, Reports, HeaderOf, HeaderTrue, Distinct, RxIncreasing;
    var m := y.sent[x.cursor[e]];
    assert m == Messages(y)[x.cursor[e]];
    var x' := Delivered(x, e, m, now);
    forall u | u in m.units && u.dest == Addr(d)
      ensures PastOnly(x.node.history, u.rx, now)
    {
      assert ReportOk(y, d, x.cursor[e], u);
      forall t | t in u.rx && t.seqNo != NULL_SEQ
        ensures 1 <= t.seqNo <= |x.node.history| && x.node.history[t.seqNo - 1].time < now
      {
        assert t.seqNo in y.heard[d];
      }
    }
  }

  /** The other pairs of the receiving drone do not notice. */
  lemma DeliverOtherPair(x: Drone, y: Drone, d: nat, e: nat, e0: nat, m: Message, now: nat)
    requires PairInv(x, y, d, e) && e != e0 && e0 < |x.heard| && e0 < |x.cursor| && m.src == Addr(e0) && now > x.clock
    ensures PairInv(Delivered(x, e0, m, now), y, d, e)
  {
    hide SendListTrue, ReceiveListTrue, BufferTrue, Ordered, UpToReport, Tolerant, SmallGaps, FreshSlots, RxIncreasing,
         Rl, Sl, Table, Seqs, PastOnly;
    var x' := Delivered(x, e0, m, now);
    RlOf(x, x');
    forall i | 0 <= i < |x'.inbox| && x'.inbox[i].msg.src == Addr(e)
      ensures QueuedOk(x', y, e, x'.inbox[i])
    {
      assert QueuedOk(x, y, e, x.inbox[i]);
    }
  }

  lemma LosePair(x: Drone, y: Drone, d: nat, e: nat, e0: nat)
    requires PairInv(x, y, d, e) && e0 < |x.cursor| && (e == e0 ==> x.cursor[e] < |y.sent|)
    ensures PairInv(Lost(x, e0), y, d, e)
  {
    hide SendListTrue, ReceiveListTrue, BufferTrue, Ordered, UpToReport, Tolerant, SmallGaps, FreshSlots, RxIncreasing,
         Rl, Sl, Table, Seqs, PastOnly;
    var x' := Lost(x, e0);
    RlOf(x, x');
    forall i | 0 <= i < |x'.inbox| && x'.inbox[i].msg.src == Addr(e)
      ensures QueuedOk(x', y, e, x'.inbox[i])
    {
      assert QueuedOk(x, y, e, x.inbox[i]);
    }
  }

  lemma LoseOwn(x: Drone, d: nat, n: nat, e: nat)
    requires OwnInv(x, d, n) && e < n
    ensures OwnInv(Lost(x, e), d, n) && Evolves(x, Lost(x, e))
  {
    hide Distinct, Numbered, HeaderOf, HeaderTrue;
    var x' := Lost(x, e);
    RlOf(x, x');
    assert Messages(x') == Messages(x);
    forall k | 0 <= k < |Messages(x')|
      ensures MessageOk(x', d, k, Messages(x')[k])
    {
      assert MessageOk(x, d, k, Messages(x)[k]);
    }
  }

  // ---------------------------------------------------------------- process

  /** The oldest queued message is a true one. */
  lemma HeadIsTrue(x: Drone, y: Drone, d: nat, e: nat, n: nat)
    requires OwnInv(x, d, n) && OwnInv(y, e, n) && d < n && e < n && d != e
    requires Receiving(x, y, e) && Outgoing(y, d) && x.inbox != [] && x.inbox[0].msg.src == Addr(e)
    ensures MessageTrue(TruthOf(x, y, d, e), x.inbox[0], x.node.address)
    ensures LastSeq(Rl(x, e)) < x.inbox[0].msg.seqNo && LastRx(Rl(x, e)) < x.inbox[0].rx
    ensures 1 <= x.inbox[0].msg.seqNo <= |y.sent| && x.inbox[0].msg == Messages(y)[x.inbox[0].msg.seqNo - 1]
  {
    hide Rl, Seqs, Reports, Distinct, Numbered, RxIncreasing, HeaderOf;
    var m := x.inbox[0];
    assert QueuedOk(x, y, e, m);
    var k := m.msg.seqNo - 1;
    assert MessageOk(y, e, k, Messages(y)[k]);
    forall u | u in m.msg.units && u.dest == x.node.address
      ensures ReportTrue(TruthOf(x, y, d, e), u.rx)
    {
      assert ReportOk(y, d, k, u);
    }
  }

  lemma NewestIs(log: Log)
    requires log != []
    ensures LastSeq(log) == Last(log).localSeq && LastRx(log) == Last(log).rx
  {
  }

  /** The receive list of the sender's table after the message. */
  lemma ProcessRl(x: Drone, y: Drone, d: nat, e: nat, n: nat)
    requires OwnInv(x, d, n) && OwnInv(y, e, n) && d < n && e < n && d != e && Room(x.node, Addr(e))
    requires Receiving(x, y, e) && Paired(x, y, d, e) && Outgoing(y, d) && x.inbox != []
    requires x.inbox[0].msg.src == Addr(e)
    ensures var x' := ProcessedNext(x, e, Known(y, x.inbox[0].msg.seqNo, d));
            var m := x.inbox[0];
            && Rl(x', e) == NextReceiveList(Rl(x, e), m.msg.seqNo, m.rx, m.msg.tx)
            && Table(x'.node, Addr(e)) == ProcessFor(Table(x.node, Addr(e)), x.node, m).0.nb
            && Tolerant(Rl(x', e)) && LastSeq(Rl(x', e)) == m.msg.seqNo && LastRx(Rl(x', e)) == m.rx
            && RxIncreasing(Rl(x', e))
            && Seqs(Rl(x, e)) <= Seqs(Rl(x', e))
  {
    hide Table, Distinct, Numbered, Tolerant, MessageTrue, NextReceiveList, Process, ProcessFor;
    var m := x.inbox[0];
    HeadIsTrue(x, y, d, e, n);
    TableAfterProcess(x.node, m, Addr(e));
    var nb := Table(x.node, Addr(e));
    MessageHeader(TruthOf(x, y, d, e), m, x.node.address);
    ProcessReceiveList(nb, x.node, m);
    ReceptionKeepsTolerance(nb.receiveList, m.msg.seqNo, m.rx, m.msg.tx);
    ReceptionShape(nb.receiveList, m.msg.seqNo, m.rx, m.msg.tx);
  }

  lemma ReceptionShape(log: Log, m: nat, rx: nat, tx: HeadStamps)
    ensures var next := NextReceiveList(log, m, rx, tx);
            && |next| == |log| + 1 && Last(next).rx == rx && Last(next).localSeq == m
            && Seqs(log) <= Seqs(next)
            && (RxIncreasing(log) && LastRx(log) < rx ==> RxIncreasing(next))
  {
    hide StaleTx;
    var next := NextReceiveList(log, m, rx, tx);
    assert forall i :: 0 <= i < |log| ==> next[i].localSeq == log[i].localSeq && next[i].rx == log[i].rx;
  }

  lemma ProcessOwn(x: Drone, d: nat, n: nat, e: nat, known: nat)
    requires OwnInv(x, d, n) && e < n && e != d && x.inbox != [] && x.inbox[0].msg.src == Addr(e)
    ensures OwnInv(ProcessedNext(x, e, known), d, n)
  {
    hide Process, Distinct, Numbered, HeaderOf, HeaderTrue, SoundNode, StaysClean, UnitTo, Room;
    var m := x.inbox[0];
    var x' := ProcessedNext(x, e, known);
    TableAfterProcess(x.node, m, Addr(e));
    assert SoundNode(x'.node) by { ProcessIsSound(x.node, m); }
    assert Messages(x') == Messages(x);
    forall k | 0 <= k < |Messages(x')|
      ensures MessageOk(x', d, k, Messages(x')[k])
    {
      assert MessageOk(x, d, k, Messages(x)[k]);
    }
    forall nb | nb in x'.node.neighbours
      ensures IsOther(nb.address, d, n)
    {
      NeighboursAfterProcess(x.node, m, nb);
    }
  }

  lemma ProcessOtherTables(x: Drone, e: nat, known: nat, e': nat)
    requires Distinct(x.node.neighbours) && x.inbox != [] && x.inbox[0].msg.src == Addr(e)
    requires e < |x.acked| && e < |x.clean|
    requires e' != e || !Room(x.node, Addr(e))
    ensures Table(ProcessedNext(x, e, known).node, Addr(e')) == Table(x.node, Addr(e'))
  {
    hide Table, Process;
    TableAfterProcess(x.node, x.inbox[0], Addr(e'));
  }

  lemma ProcessEvolves(x: Drone, y: Drone, d: nat, e: nat, n: nat)
    requires OwnInv(x, d, n) && OwnInv(y, e, n) && d < n && e < n && d != e
    requires Receiving(x, y, e) && Paired(x, y, d, e) && Outgoing(y, d) && x.inbox != []
    requires x.inbox[0].msg.src == Addr(e)
    ensures Evolves(x, ProcessedNext(x, e, Known(y, x.inbox[0].msg.seqNo, d)))
  {
    hide Process, Tolerant, Paired, Receiving, Outgoing, NextReceiveList, ProcessFor, Seqs, RxIncreasing, Table;
    var known := Known(y, x.inbox[0].msg.seqNo, d);
    var x' := ProcessedNext(x, e, known);
    TableAfterProcess(x.node, x.inbox[0], Addr(e));
    forall e': nat
      ensures Seqs(Rl(x, e')) <= Seqs(Rl(x', e'))
    {
      if e' == e && Room(x.node, Addr(e)) {
        ProcessRl(x, y, d, e, n);
      } else {
        ProcessOtherTables(x, e, known, e');
      }
    }
  }

  /** The pairs of the processing drone with other drones than the sender. */
  lemma ProcessOtherPair(x: Drone, y: Drone, d: nat, e: nat, e0: nat, known: nat)
    requires PairInv(x, y, d, e) && Distinct(x.node.neighbours) && e0 < |x.acked| && e0 < |x.clean|
    requires x.inbox != [] && x.inbox[0].msg.src == Addr(e0)
    requires e != e0 || !Room(x.node, Addr(e0))
    ensures PairInv(ProcessedNext(x, e0, known), y, d, e)
  {
    hide SendListTrue, ReceiveListTrue, BufferTrue, Ordered, UpToReport, Tolerant, SmallGaps, FreshSlots, RxIncreasing,
         Table, Seqs, PastOnly, Process, Distinct, LastSeq, LastRx, StaysClean, UnitTo, Room;
    var x' := ProcessedNext(x, e0, known);
    TableAfterProcess(x.node, x.inbox[0], Addr(e));
    ProcessOtherTables(x, e0, known, e);
    assert forall i :: 0 <= i < |x'.inbox| ==> x'.inbox[i] == x.inbox[i + 1];
    forall i | 0 <= i < |x'.inbox| && x'.inbox[i].msg.src == Addr(e)
      ensures QueuedOk(x', y, e, x'.inbox[i])
    {
      assert QueuedOk(x, y, e, x.inbox[i + 1]);
    }
  }

  lemma ProcessReceiving(x: Drone, y: Drone, d: nat, e: nat, n: nat)
    requires OwnInv(x, d, n) && OwnInv(y, e, n) && d < n && e < n && d != e && Room(x.node, Addr(e))
    requires PairInv(x, y, d, e) && Outgoing(y, d) && x.inbox != [] && x.inbox[0].msg.src == Addr(e)
    ensures Receiving(ProcessedNext(x, e, Known(y, x.inbox[0].msg.seqNo, d)), y, e)
    ensures QueuedPast(ProcessedNext(x, e, Known(y, x.inbox[0].msg.seqNo, d)), d, e)
  {
    hide SendListTrue, ReceiveListTrue, BufferTrue, Ordered, UpToReport, Tolerant, SmallGaps, FreshSlots, RxIncreasing,
         Table, Seqs, PastOnly, Process, Distinct, LastSeq, LastRx, Outgoing, OwnInv, Paired, PushedOnce, BuffersOk,
         NextReceiveList, ProcessFor, Rl;
    OwnDistinct(x, d, n);
    var x' := ProcessedNext(x, e, Known(y, x.inbox[0].msg.seqNo, d));
    ProcessRl(x, y, d, e, n);
    assert QueuedOk(x, y, e, x.inbox[0]);
    TableAfterProcess(x.node, x.inbox[0], Addr(e));
    assert forall i :: 0 <= i < |x'.inbox| ==> x'.inbox[i] == x.inbox[i + 1];
    forall i | 0 <= i < |x'.inbox| && x'.inbox[i].msg.src == Addr(e)
      ensures QueuedOk(x', y, e, x'.inbox[i])
    {
      assert QueuedOk(x, y, e, x.inbox[i + 1]);
    }
  }

  lemma OwnDistinct(x: Drone, d: nat, n: nat)
    requires OwnInv(x, d, n)
    ensures SoundNode(x.node) && Distinct(x.node.neighbours) && x.node.address == Addr(d) && Numbered(x.node.history)
    ensures |x.heard| == |x.acked| == |x.clean| == n
    ensures |x.node.history| == |x.sent|
  {
  }

  lemma ProcessPaired(x: Drone, y: Drone, d: nat, e: nat, n: nat)
    requires OwnInv(x, d, n) && OwnInv(y, e, n) && d < n && e < n && d != e && Room(x.node, Addr(e))
    requires Receiving(x, y, e) && Paired(x, y, d, e) && Outgoing(y, d) && x.inbox != []
    requires x.inbox[0].msg.src == Addr(e)
    ensures Paired(ProcessedNext(x, e, Known(y, x.inbox[0].msg.seqNo, d)), y, d, e)
  {
    hide SendListTrue, ReceiveListTrue, Tolerant, RxIncreasing, Table, Seqs, MessageTrue, Process, Distinct, Outgoing,
         OwnInv, NextReceiveList, ProcessFor, Receiving;
    var m := x.inbox[0];
    OwnDistinct(x, d, n);
    var x' := ProcessedNext(x, e, Known(y, m.msg.seqNo, d));
    ProcessRl(x, y, d, e, n);
    HeadIsTrue(x, y, d, e, n);
    TableAfterProcess(x.node, m, Addr(e));
    ProcessKeepsListsTrue(TruthOf(x, y, d, e), Table(x.node, Addr(e)), x.node, m);
    assert TruthOf(x', y, d, e) == TruthOf(x, y, d, e);
  }

  /** The send list after a message is what the body loop makes of it. */
  lemma ProcessSl(nb: Neighbour, n: Node, m: Inbound) returns (p: Progress)
    ensures p.nb.sendList == nb.sendList
    ensures ProcessFor(nb, n, m).0.nb.sendList ==
            var unit := UnitTo(m.msg.units, n.address);
            if unit == NULL_INDEX then nb.sendList
            else BodyLoop(p, n.history, m.msg.units[unit].rx, MESSAGE_BODY_RX_SIZE).nb.sendList
  {
    hide HeaderLoop, BodyLoop;
    var heard := nb.(receiveList := AddReceived(nb.receiveList, m.rx, m.msg.seqNo));
    var start := Progress(heard, n.initTofSum, None);
    HeaderLoopKeeps(start, m.msg.tx, MESSAGE_HEAD_TX_SIZE);
    p := HeaderLoop(start, m.msg.tx, MESSAGE_HEAD_TX_SIZE).(distance := None);
  }

  /** What e has heard of d, in order: true sequence numbers of d's sends. */
  lemma HeardSeqs(x: Drone, y: Drone, d: nat, e: nat)
    requires Receiving(y, x, d) && Paired(y, x, e, d) && |x.node.history| == |x.sent|
    ensures Sorted(Seqs(Rl(y, d)))
    ensures forall j :: 0 <= j < |Seqs(Rl(y, d))| ==> 1 <= Seqs(Rl(y, d))[j] <= |x.node.history|
  {
    hide Rl, RxIncreasing, SendListTrue;
    var log := Rl(y, d);
    forall j | 0 <= j < |log|
      ensures 1 <= Seqs(log)[j] <= |x.node.history|
    {
      assert log[j].localSeq in y.heard[d];
    }
  }

  lemma MarksGrow(y: Drone, d: nat, a: nat, b: nat)
    requires Outgoing(y, d) && a < b <= |y.origin|
    ensures Known(y, a, d) <= Known(y, b, d) && d < |y.origin[b - 1].processed|
    ensures Known(y, b, d) == y.origin[b - 1].processed[d]
  {
    hide ReportOk;
  }

  /** The reports of the oldest queued message cover at least what was acknowledged before. */
  lemma HeadReport(x: Drone, y: Drone, d: nat, e: nat, n: nat, unit: nat)
    requires OwnInv(x, d, n) && OwnInv(y, e, n) && d < n && e < n && d != e
    requires Receiving(x, y, e) && PushedOnce(x, y, d, e) && Outgoing(y, d) && x.inbox != []
    requires x.inbox[0].msg.src == Addr(e)
    requires unit < MESSAGE_BODY_UNIT_SIZE && x.inbox[0].msg.units[unit].dest == Addr(d)
    ensures Reports(x.inbox[0].msg.units[unit].rx, Seqs(Rl(y, d)), Known(y, x.inbox[0].msg.seqNo, d))
    ensures x.acked[e] <= Known(y, x.inbox[0].msg.seqNo, d) == Known(y, x.inbox[0].msg.seqNo, d)
  {
    hide Rl, Seqs, Reports, UpToReport, Distinct, Numbered, RxIncreasing, HeaderOf, HeaderTrue, MessageTrue;
    var m := x.inbox[0].msg;
    HeadIsTrue(x, y, d, e, n);
    assert m.units[unit] in Messages(y)[m.seqNo - 1].units;
    assert ReportOk(y, d, m.seqNo - 1, m.units[unit]);
    MarksGrow(y, d, LastSeq(Rl(x, e)), m.seqNo);
  }

  lemma ProcessPushes(x: Drone, y: Drone, d: nat, e: nat, n: nat)
    requires OwnInv(x, d, n) && OwnInv(y, e, n) && d < n && e < n && d != e && Room(x.node, Addr(e))
    requires PairInv(x, y, d, e) && PairInv(y, x, e, d) && Outgoing(y, d) && x.inbox != []
    requires x.inbox[0].msg.src == Addr(e)
    ensures var x' := ProcessedNext(x, e, Known(y, x.inbox[0].msg.seqNo, d));
            && PushedOnce(x', y, d, e)
            && Sl(x, e) <= Sl(x', e)
            && x.acked[e] <= |Rl(y, d)|
            && forall i :: |Sl(x, e)| <= i < |Sl(x', e)| ==> Sl(x', e)[i].localSeq !in Seqs(Rl(y, d))[..x.acked[e]]
  {
    hide SendListTrue, ReceiveListTrue, BufferTrue, Ordered, UpToReport, Tolerant, SmallGaps, FreshSlots, RxIncreasing,
         Table, MessageTrue, Process, Distinct, Outgoing, OwnInv, NextReceiveList, ProcessFor, BodyLoop, Receiving,
         Paired, BuffersOk, QueuedPast, Numbered, Reports, Sorted;
    var m := x.inbox[0];
    OwnDistinct(x, d, n);
    var x' := ProcessedNext(x, e, Known(y, m.msg.seqNo, d));
    HeadIsTrue(x, y, d, e, n);
    ProcessRl(x, y, d, e, n);
    TableAfterProcess(x.node, m, Addr(e));
    MarksGrowAt(x, y, d, e, n);
    AckedInRange(x, y, d, e);
    var p := ProcessSl(Table(x.node, Addr(e)), x.node, m);
    var unit := UnitTo(m.msg.units, x.node.address);
    if unit != NULL_INDEX {
      HeadReport(x, y, d, e, n, unit);
      HeardSeqs(x, y, d, e);
      ReportAfterReport(p, x.node.history, m.msg.units[unit].rx, Seqs(Rl(y, d)), x.acked[e], Known(y, m.msg.seqNo, d));
    }
  }

  lemma AckedInRange(x: Drone, y: Drone, d: nat, e: nat)
    requires PushedOnce(x, y, d, e)
    ensures x.acked[e] <= |Rl(y, d)|
  {
  }

  lemma MarksGrowAt(x: Drone, y: Drone, d: nat, e: nat, n: nat)
    requires OwnInv(x, d, n) && OwnInv(y, e, n) && d < n && e < n && d != e
    requires Receiving(x, y, e) && PushedOnce(x, y, d, e) && Outgoing(y, d) && x.inbox != []
    requires x.inbox[0].msg.src == Addr(e)
    ensures x.acked[e] <= Known(y, x.inbox[0].msg.seqNo, d) == Known(y, x.inbox[0].msg.seqNo, d)
  {
    hide Rl, UpToReport, MessageTrue, RxIncreasing, ReportOk;
    HeadIsTrue(x, y, d, e, n);
    MarksGrow(y, d, LastSeq(Rl(x, e)), x.inbox[0].msg.seqNo);
  }

  /** The conditions under which no initialization meets a stale record pass on to shorter lists. */
  lemma GapsBefore(log: Log, m: nat, rx: nat, tx: HeadStamps)
    requires SmallGaps(NextReceiveList(log, m, rx, tx)) && (log != [] ==> Last(log).localSeq < m)
    ensures SmallGaps(log) && (log != [] ==> Reaches(log, m))
  {
    hide StaleTx;
    var next := NextReceiveList(log, m, rx, tx);
    assert forall i :: 0 <= i < |log| ==> next[i].localSeq == log[i].localSeq;
    forall i | 0 <= i < |log| - 1
      ensures log[i + 1].localSeq - log[i].localSeq <= MESSAGE_HEAD_TX_SIZE
    {
      assert next[i + 1].localSeq - next[i].localSeq <= MESSAGE_HEAD_TX_SIZE;
    }
    if log != [] {
      assert next[|log| - 1 + 1].localSeq - next[|log| - 1].localSeq <= MESSAGE_HEAD_TX_SIZE;
    }
  }

  lemma CleanConditions(log: Log, m: nat, rx: nat, tx: HeadStamps)
    requires Increasing(log) && FreshSlots(log) && Tolerant(NextReceiveList(log, m, rx, tx))
    requires log != [] ==> Last(log).localSeq < m
    ensures var next := NextReceiveList(log, m, rx, tx);
            && FreshSlots(next)
            && (SmallGaps(next) || |next| <= RANGING_LIST_SIZE ==>
                  NoStale(next) && (SmallGaps(log) || |log| <= RANGING_LIST_SIZE))
  {
    hide NoStale, SmallGaps, FreshSlots, Tolerant, NextReceiveList, Increasing;
    var next := NextReceiveList(log, m, rx, tx);
    NextFreshSlots(log, m, rx, tx);
    ReceptionShape(log, m, rx, tx);
    if SmallGaps(next) {
      SmallGapsNoStale(next);
      GapsBefore(log, m, rx, tx);
    } else if |next| <= RANGING_LIST_SIZE {
      FewReceptionsNoStale(next);
    }
  }

  lemma HeadPast(x: Drone, d: nat, e: nat)
    requires QueuedPast(x, d, e) && x.inbox != [] && x.inbox[0].msg.src == Addr(e)
    ensures forall u <- x.inbox[0].msg.units :: u.dest == Addr(d) ==> ReportsPast(x.node.history, u.rx, x.inbox[0].rx)
  {
    forall u | u in x.inbox[0].msg.units && u.dest == Addr(d)
      ensures ReportsPast(x.node.history, u.rx, x.inbox[0].rx)
    {
      assert PastOnly(x.node.history, u.rx, x.inbox[0].rx);
    }
  }

  lemma ProcessBuffers(x: Drone, y: Drone, d: nat, e: nat, n: nat)
    requires OwnInv(x, d, n) && OwnInv(y, e, n) && d < n && e < n && d != e && Room(x.node, Addr(e))
    requires PairInv(x, y, d, e) && Outgoing(y, d) && x.inbox != [] && x.inbox[0].msg.src == Addr(e)
    ensures BuffersOk(ProcessedNext(x, e, Known(y, x.inbox[0].msg.seqNo, d)), y, d, e)
  {
    hide SendListTrue, ReceiveListTrue, BufferTrue, Ordered, UpToReport, Tolerant, SmallGaps, FreshSlots, RxIncreasing,
         Table, MessageTrue, Seqs, Process, Distinct, Outgoing, OwnInv, NextReceiveList, ProcessFor, Receiving,
         PushedOnce, QueuedPast, Numbered, TableTrue, ReportsPast, NoStale, Initializing;
    var m := x.inbox[0];
    OwnDistinct(x, d, n);
    var x' := ProcessedNext(x, e, Known(y, m.msg.seqNo, d));
    ProcessRl(x, y, d, e, n);
    HeadIsTrue(x, y, d, e, n);
    TableAfterProcess(x.node, m, Addr(e));
    var t := TruthOf(x, y, d, e);
    assert TruthOf(x', y, d, e) == t;
    CleanConditions(Rl(x, e), m.msg.seqNo, m.rx, m.msg.tx) by { TolerantIncreases(Rl(x, e)); }
    if x'.clean[e] {
      HeadPast(x, d, e);
      var nb := Table(x.node, Addr(e));
      ProcessKeepsBufferTrue(t, nb, x.node, m);
      TableTrueIsOrdered(t, Table(x'.node, Addr(e)));
      TableTrueHasTrueBuffer(t, Table(x'.node, Addr(e)));
    }
  }

  /** The reception of the oldest queued message meets every requirement of the exact calculation. */
  lemma HeadIsGood(x: Drone, y: Drone, d: nat, e: nat, n: nat)
    requires d < n && e < n && d != e && OwnInv(x, d, n) && OwnInv(y, e, n) && PairInv(x, y, d, e) && Outgoing(y, d)
    requires x.inbox != [] && x.inbox[0].msg.src == Addr(e) && StaysClean(x, e)
    ensures GoodReception(TruthOf(x, y, d, e), Table(x.node, Addr(e)), x.node, x.inbox[0])
  {
    hide SendListTrue, ReceiveListTrue, BufferTrue, Ordered, Tolerant, NoStale, Initializing, SmallGaps, FreshSlots,
         MessageTrue, ReportsPast, Table, PushedOnce, Receiving, Outgoing, QueuedPast, OwnInv, Numbered,
         NextReceiveList;
    HeadIsTrue(x, y, d, e, n);
    HeadPast(x, d, e);
    OwnDistinct(x, d, n);
    if Rl(x, e) != [] { NewestIs(Rl(x, e)); }
  }

  lemma TableTrueHasTrueBuffer(t: Truth, nb: Neighbour)
    requires TableTrue(t, nb)
    ensures BufferTrue(t, nb.validBuffer)
  {
  }

  lemma ProcessPair(x: Drone, y: Drone, d: nat, e: nat, n: nat)
    requires OwnInv(x, d, n) && OwnInv(y, e, n) && d < n && e < n && d != e && Room(x.node, Addr(e))
    requires PairInv(x, y, d, e) && PairInv(y, x, e, d) && Outgoing(y, d) && x.inbox != []
    requires x.inbox[0].msg.src == Addr(e)
    ensures PairInv(ProcessedNext(x, e, Known(y, x.inbox[0].msg.seqNo, d)), y, d, e)
  {
    hide Receiving, Paired, PushedOnce, QueuedPast, BuffersOk, Outgoing, OwnInv, ProcessedNext;
    ProcessReceiving(x, y, d, e, n);
    ProcessPaired(x, y, d, e, n);
    ProcessPushes(x, y, d, e, n);
    ProcessBuffers(x, y, d, e, n);
  }

  // ---------------------------------------------------------------- every step, every run

  /** What each step does for the drone that takes it. */
  lemma StepOwn(s: System, step: Step)
    requires Inv(s) && Shaped(s) && Enabled(s, step)
    ensures OwnInv(After(s, step), step.d, |s|) && Evolves(s[step.d], After(s, step))
  {
    hide OwnInv, PairInv, Outgoing, Evolves, Generated, Transmitted, Delivered, Lost, ProcessedNext;
    var x := s[step.d];
    match step {
      case GenerateStep(d) => GenerateOwn(s, d);
      case TransmitStep(d, now) => TransmitOwn(x, d, |s|, now);
      case DeliverStep(d, e, now) =>
        SentMessage(s[e], e, |s|, x.cursor[e]);
        HeardBelowCursor(x, s[e], d, e);
        DeliverOwn(x, d, |s|, e, s[e].sent[x.cursor[e]], now);
      case LoseStep(d, e) => LoseOwn(x, d, |s|, e);
      case ProcessStep(d) =>
        HeadSender(x, d, |s|);
        var e := SenderOf(x);
        assert PairInv(x, s[e], d, e) && Outgoing(s[e], d);
        ReceivingAndPaired(x, s[e], d, e);
        ProcessOwn(x, d, |s|, e, Known(s[e], x.inbox[0].msg.seqNo, d));
        ProcessEvolves(x, s[e], d, e, |s|);
    }
  }

  lemma SentMessage(y: Drone, e: nat, n: nat, k: nat)
    requires OwnInv(y, e, n) && k < |y.sent|
    ensures y.sent[k].src == Addr(e) && y.sent[k].seqNo == k + 1
  {
    assert MessageOk(y, e, k, Messages(y)[k]);
  }

  lemma HeardBelowCursor(x: Drone, y: Drone, d: nat, e: nat)
    requires PairInv(x, y, d, e)
    ensures e < |x.heard| && e < |x.cursor| && forall s :: s in x.heard[e] ==> s <= x.cursor[e]
  {
  }

  lemma HeadSender(x: Drone, d: nat, n: nat)
    requires OwnInv(x, d, n) && x.inbox != []
    ensures 0 <= SenderOf(x) < n && SenderOf(x) != d && x.inbox[0].msg.src == Addr(SenderOf(x))
    ensures |x.acked| == |x.cursor| == |x.heard| == |x.clean| == n && Distinct(x.node.neighbours)
  {
    assert IsOther(x.inbox[0].msg.src, d, n);
  }

  lemma ReceivingAndPaired(x: Drone, y: Drone, d: nat, e: nat)
    requires PairInv(x, y, d, e)
    ensures Receiving(x, y, e) && Paired(x, y, d, e)
  {
  }

  /** The pairs seen from the drone that takes the step. */
  lemma StepPair(s: System, step: Step, e: nat)
    requires Inv(s) && Shaped(s) && Enabled(s, step) && e < |s| && e != step.d
    ensures PairInv(After(s, step), s[e], step.d, e)
  {
    hide OwnInv, PairInv, Outgoing, Generated, Transmitted, Delivered, Lost, ProcessedNext, Room;
    var x, y := s[step.d], s[e];
    assert PairInv(x, y, step.d, e) && PairInv(y, x, e, step.d) && Outgoing(y, step.d);
    match step {
      case GenerateStep(d) => GeneratePair(s, d, e);
      case TransmitStep(d, now) => TransmitPair(x, y, d, e, now);
      case DeliverStep(d, e0, now) =>
        if e0 == e {
          DeliverPair(x, y, d, e, |s|, now);
        } else {
          SentMessage(s[e0], e0, |s|, x.cursor[e0]);
          DeliverOtherPair(x, y, d, e, e0, s[e0].sent[x.cursor[e0]], now);
        }
      case LoseStep(d, e0) => LosePair(x, y, d, e, e0);
      case ProcessStep(d) =>
        HeadSender(x, d, |s|);
        var e0 := SenderOf(x);
        if e0 == e && Room(x.node, Addr(e)) {
          ProcessPair(x, y, d, e, |s|);
        } else {
          ProcessOtherPair(x, y, d, e, e0, Known(s[e0], x.inbox[0].msg.seqNo, d));
        }
    }
  }

  lemma StepOutgoing(s: System, step: Step, e: nat)
    requires Inv(s) && Shaped(s) && Enabled(s, step) && e < |s| && e != step.d
    ensures Outgoing(After(s, step), e)
  {
    hide OwnInv, PairInv, Outgoing, Paired, Receiving, Process, Rl, Seqs;
    var x := s[step.d];
    assert Outgoing(x, e) && PairInv(x, s[e], step.d, e);
    ReceivingAndPaired(x, s[e], step.d, e);
    StepOwn(s, step);
    HeardIndex(x, e);
    match step {
      case GenerateStep(d) => GenerateOutgoing(s, d, e);
      case TransmitStep(d, now) => TransmitOutgoing(x, e, now);
      case DeliverStep(_, _, _) => OutgoingStays(x, After(s, step), e);
      case LoseStep(_, _) => OutgoingStays(x, After(s, step), e);
      case ProcessStep(_) => OutgoingStays(x, After(s, step), e);
    }
  }

  lemma HeardIndex(x: Drone, e: nat)
    requires Outgoing(x, e)
    ensures e < |x.heard|
  {
  }

  /** Every step of every drone keeps all invariants. */
  lemma StepKeepsInv(s: System, step: Step)
    requires Inv(s) && Shaped(s) && Enabled(s, step)
    ensures Inv(Next(s, step)) && Shaped(Next(s, step))
  {
    hide OwnInv, PairInv, Outgoing, Evolves, After;
    var s' := Next(s, step);
    StepOwn(s, step);
    forall d | 0 <= d < |s|
      ensures OwnInv(s'[d], d, |s|)
    {
    }
    forall d, e | 0 <= d < |s| && 0 <= e < |s| && d != e
      ensures Outgoing(s'[d], e)
    {
      if d == step.d {
        StepOutgoing(s, step, e);
      }
    }
    forall d, e | 0 <= d < |s| && 0 <= e < |s| && d != e
      ensures PairInv(s'[d], s'[e], d, e)
    {
      if d == step.d {
        StepPair(s, step, e);
      } else if e == step.d {
        OtherDroneEvolves(s[d], s[e], s'[e], d, e);
      }
    }
    InvShape(s');
  }

  lemma InvShape(s: System)
    requires forall d :: 0 <= d < |s| ==> OwnInv(s[d], d, |s|)
    ensures Shaped(s)
  {
    forall x | x in s
      ensures |x.cursor| == |x.heard| == |x.acked| == |x.clean| == |s|
    {
      var d :| 0 <= d < |s| && s[d] == x;
      assert OwnInv(s[d], d, |s|);
    }
  }

  lemma InitialTables(d: nat, n: nat, e: nat)
    ensures Rl(InitialDrone(d, n), e) == [] && Sl(InitialDrone(d, n), e) == []
    ensures Table(InitialDrone(d, n).node, Addr(e)).validBuffer == EmptyBuffer
  {
  }

  lemma InitialOwn(d: nat, n: nat)
    ensures OwnInv(InitialDrone(d, n), d, n)
  {
    assert Messages(InitialDrone(d, n)) == [];
  }

  lemma InitialOutgoing(d: nat, n: nat, e: nat)
    requires e < n
    ensures Outgoing(InitialDrone(d, n), e)
  {
    assert Messages(InitialDrone(d, n)) == [];
  }

  lemma InitialPair(d: nat, e: nat, n: nat)
    requires d < n && e < n
    ensures PairInv(InitialDrone(d, n), InitialDrone(e, n), d, e)
  {
    hide Rl, Sl;
    InitialTables(d, n, e);
    InitialTables(e, n, d);
    var x, y := InitialDrone(d, n), InitialDrone(e, n);
    assert Receiving(x, y, e);
    assert Paired(x, y, d, e);
    assert PushedOnce(x, y, d, e);
    assert QueuedPast(x, d, e);
    assert BuffersOk(x, y, d, e);
  }

  lemma InitialInv(n: nat)
    ensures Inv(InitialSystem(n)) && Shaped(InitialSystem(n))
  {
    hide OwnInv, Outgoing, PairInv, InitialDrone;
    var s := InitialSystem(n);
    forall d | 0 <= d < n
      ensures OwnInv(s[d], d, n)
    {
      InitialOwn(d, n);
    }
    forall d, e | 0 <= d < n && 0 <= e < n && d != e
      ensures Outgoing(s[d], e)
    {
      InitialOutgoing(d, n, e);
    }
    forall d, e | 0 <= d < n && 0 <= e < n && d != e
      ensures PairInv(s[d], s[e], d, e)
    {
      InitialPair(d, e, n);
    }
    InvShape(s);
  }

  /** A run: a sequence of steps, each enabled where it is taken. */
  ghost predicate IsRun(s: System, steps: seq<Step>, s': System)
    decreases |steps|
  {
    if steps == [] then s == s'
    else Shaped(s) && Enabled(s, steps[0]) && IsRun(Next(s, steps[0]), steps[1..], s')
  }

  ghost predicate Reachable(s: System) {
    exists n: nat, steps: seq<Step> :: IsRun(InitialSystem(n), steps, s)
  }

  lemma {:induction false} RunKeepsInv(s: System, steps: seq<Step>, s': System)
    requires Inv(s) && Shaped(s) && IsRun(s, steps, s')
    ensures Inv(s') && Shaped(s')
    decreases |steps|
  {
    hide Inv, Next;
    if steps != [] {
      StepKeepsInv(s, steps[0]);
      RunKeepsInv(Next(s, steps[0]), steps[1..], s');
    }
  }

  lemma ReachableInv(s: System)
    requires Reachable(s)
    ensures Inv(s) && Shaped(s)
  {
    hide Inv;
    var n: nat, steps: seq<Step> :| IsRun(InitialSystem(n), steps, s);
    InitialInv(n);
    RunKeepsInv(InitialSystem(n), steps, s);
  }
}
