/** The effect of one message in closed form, without the loops, and what a drone reports over a run. */
module MessageEffects {
  import opened Config
  import opened TofMath
  import opened RangingListSpec
  import opened RangingBufferSpec
  import opened NodeSpec
  import opened LossTolerance
  import opened Phases
  import opened Protocol

  // ---------------------------------------------------------------- one message

  /** Records pushed one after the other, the oldest first, each with its calculation. */
  function Pushing(p: Progress, records: Log): Progress
    decreases |records|
  {
    if records == [] then p
    else Pushing(SenderCalculation(p.(nb := p.nb.(sendList := p.nb.sendList + [records[0]]))), records[1..])
  }

  lemma SenderCalculationKeepsLists(p: Progress)
    requires p.nb.sendList != []
    ensures SenderCalculation(p).nb.sendList == p.nb.sendList && SenderCalculation(p).nb.receiveList == p.nb.receiveList
  {
    hide CalculateTof, InitializeCalculateTof, AverageReceive, Length;
  }

  /** The body loop is that, for whatever records it pushes. */
  lemma {:induction false} BodyLoopIsPushing(p: Progress, history: History, rx: BodyStamps, k: nat)
    requires k <= MESSAGE_BODY_RX_SIZE
    ensures var r := BodyLoop(p, history, rx, k);
            p.nb.sendList <= r.nb.sendList && r == Pushing(p, r.nb.sendList[|p.nb.sendList|..])
    decreases k
  {
    hide SenderCalculation, Find, FindSend, FullRecord;
    var r := BodyLoop(p, history, rx, k);
    BodyLoopKeeps(p, history, rx, k);
    if k != 0 {
      var s := rx[k - 1];
      var next := BodyStep(p, history, s);
      BodyLoopIsPushing(next, history, rx, k - 1);
      if Pushes(p.nb.sendList, history, s) {
        var record := FullRecord(history, s);
        SenderCalculationKeepsLists(p.(nb := p.nb.(sendList := p.nb.sendList + [record])));
        var pushed := r.nb.sendList[|p.nb.sendList|..];
        assert next.nb.sendList == p.nb.sendList + [record];
        assert pushed[0] == record && pushed[1..] == r.nb.sendList[|next.nb.sendList|..];
      }
    } else {
      assert r.nb.sendList[|p.nb.sendList|..] == [];
    }
  }

  lemma CombineIs(h: Option<Distance>, b: Option<Distance>)
    ensures var d := Combine(h, b);
            && (d.Some? <==> h.Some? || b.Some?)
            && (h.Some? && b.None? ==> d == h) && (h.None? && b.Some? ==> d == b)
            && (h.Some? && b.Some? ==>
                  && 2.0 * d.value.modified == h.value.modified + b.value.modified
                  && 2.0 * d.value.classic == h.value.classic + b.value.classic)
  {
  }

  /** The whole effect of a generated message on the table of its sender. First comes the reception. If the message is
      in reach, the record that was the newest gets its Tx half and is calculated, with the sends reported so far. Then
      the newly reported sends are pushed and calculated, the oldest first, with the receive list as it is by then. The
      distance is the last of the header, that of the newest report, or the mean of both. */
  lemma MessageClosedForm(nb: Neighbour, n: Node, m: Inbound)
    requires Tolerant(nb.receiveList) && HeaderOf(m.msg.tx, m.msg.seqNo)
    requires nb.receiveList != [] ==> Last(nb.receiveList).localSeq < m.msg.seqNo
    ensures var (r, d) := ProcessFor(nb, n, m);
            var log := nb.receiveList;
            var next := NextReceiveList(log, m.msg.seqNo, m.rx, m.msg.tx);
            var heard := Progress(nb.(receiveList := next), n.initTofSum, None);
            var header := if Reaches(log, m.msg.seqNo)
                          then ReceiverCalculation(heard, |log| - 1, m.msg.seqNo - 1 - Last(log).localSeq) else heard;
            && nb.sendList <= r.nb.sendList
            && r == Pushing(header.(distance := None), r.nb.sendList[|nb.sendList|..])
            && (d.Some? <==> header.distance.Some? || r.distance.Some?)
            && (header.distance.Some? && r.distance.None? ==> d == header.distance)
            && (header.distance.None? && r.distance.Some? ==> d == r.distance)
            && (header.distance.Some? && r.distance.Some? ==>
                  && 2.0 * d.value.modified == header.distance.value.modified + r.distance.value.modified
                  && 2.0 * d.value.classic == header.distance.value.classic + r.distance.value.classic)
  {
    hide HeaderLoop, BodyLoop, NextReceiveList, ReceiverCalculation, Tolerant, HeaderOf, Reaches, Combine, AddReceived,
         Find, FindSend, SenderCalculation;
    var log := nb.receiveList;
    var p := Progress(nb.(receiveList := AddReceived(log, m.rx, m.msg.seqNo)), n.initTofSum, None);
    HeaderLoopClosedForm(p, log, m.msg.seqNo, m.rx, m.msg.tx);
    HeaderLoopKeeps(p, m.msg.tx, MESSAGE_HEAD_TX_SIZE);
    var header := HeaderLoop(p, m.msg.tx, MESSAGE_HEAD_TX_SIZE);
    var h := header.(distance := None);
    CombineIs(header.distance, ProcessFor(nb, n, m).0.distance);
    var unit := UnitTo(m.msg.units, n.address);
    if unit != NULL_INDEX {
      BodyLoopIsPushing(h, n.history, m.msg.units[unit].rx, MESSAGE_BODY_RX_SIZE);
    } else {
      assert h.nb.sendList[|nb.sendList|..] == [];
    }
  }

  // ---------------------------------------------------------------- the averages

  /** A record with another sum. */
  ghost predicate SameButSum(b: BufferNode, b': BufferNode) { b'.(sumTof := b.sumTof) == b }

  /** The RECEIVER ending changes the sum of slot i of the send half to twice the mean of six estimates, and nothing
      else at all. */
  lemma AverageSendChanges(buf: Buffer, i: nat, sum: int)
    requires |buf.send| == RANGING_BUFFER_SIZE && i < MESSAGE_HEAD_TX_SIZE
    ensures var r := AverageSend(buf, i, sum);
            && r.receive == buf.receive && |r.send| == |buf.send|
            && SameButSum(buf.send[i], r.send[i]) && 3.0 * r.send[i].sumTof == sum as real
            && forall j :: 0 <= j < |buf.send| && j != i ==> r.send[j] == buf.send[j]
  {
  }

  /** The SENDER ending changes every sum of the receive half to that, and nothing else. */
  lemma AverageReceiveChanges(buf: Buffer, sum: int)
    ensures var r := AverageReceive(buf, sum);
            && r.send == buf.send && |r.receive| == |buf.receive|
            && forall j :: 0 <= j < |buf.receive| ==>
                 SameButSum(buf.receive[j], r.receive[j]) && 3.0 * r.receive[j].sumTof == sum as real
  {
  }

  // ---------------------------------------------------------------- reports over a run

  /** The distance that a message yields, before compensation. */
  function RawDistance(n: Node, m: Inbound): Option<Distance> {
    if Room(n, m.msg.src) then ProcessFor(Table(n, m.msg.src), n, m).1 else None
  }

  /** The last one of a run: what its newest message that yielded a distance yielded. */
  function LastRaw(n: Node, events: seq<Event>): Option<real>
    decreases |events|
  {
    if events == [] then None
    else
      var k := |events| - 1;
      match events[k]
      case Sent(_) => LastRaw(n, events[..k])
      case Received(m) =>
        var d := RawDistance(Run(n, events[..k]), m);
        if d.Some? then Some(d.value.modified) else LastRaw(n, events[..k])
  }

  lemma {:induction false} RunBack(n: Node, events: seq<Event>)
    requires events != []
    ensures Run(n, events) == Apply(Run(n, events[..|events| - 1]), events[|events| - 1])
    decreases |events|
  {
    hide Apply;
    if |events| == 1 {
      assert events[1..] == [] && events[..0] == [];
    } else {
      RunBack(Apply(n, events[0]), events[1..]);
      assert events[1..][..|events| - 2] == events[..|events| - 1][1..];
    }
  }

  lemma ProcessIsRaw(n: Node, m: Inbound)
    requires Distinct(n.neighbours)
    ensures var (d, r) := (RawDistance(n, m), Process(n, m));
            && (d.None? ==> r.report.None? && r.node.lastD == n.lastD)
            && (d.Some? ==> r.node.lastD == Some(d.value.modified) && r.report == Some(Compensate(n.lastD, d.value)))
  {
    hide ProcessFor, UpdatePriority, Compensate, TableIn, Distinct, Register;
    var neighbours := Register(n.neighbours, m.msg.src);
    RegisterKeepsTables(n.neighbours, m.msg.src, m.msg.src);
    RoomMeansFound(n, m.msg.src);
    if FindNeighbour(neighbours, m.msg.src) != NULL_INDEX { FoundTable(neighbours, m.msg.src); }
  }

  lemma {:induction false} LastDistanceIsRaw(address: nat, events: seq<Event>)
    ensures var n := Run(InitialNode(address), events);
            Distinct(n.neighbours) && n.lastD == LastRaw(InitialNode(address), events)
    decreases |events|
  {
    hide Process, Distinct, RawDistance, Run;
    if events != [] {
      var k := |events| - 1;
      LastDistanceIsRaw(address, events[..k]);
      RunBack(InitialNode(address), events);
      var n := Run(InitialNode(address), events[..k]);
      match events[k] {
        case Received(m) =>
          ProcessIsRaw(n, m);
          TableAfterProcess(n, m, m.msg.src);
        case Sent(_) =>
      }
    } else {
      StartsWithout(address);
    }
  }

  lemma StartsWithout(address: nat)
    ensures Run(InitialNode(address), []) == InitialNode(address) && Distinct(InitialNode(address).neighbours)
  {
  }

  /** What a drone reports, over every run from its start. A message that yields no distance reports nothing. The first
      distance is reported as it is. Every later one is reported beyond its value by 0.618 of its difference from the
      one before, whichever neighbour that belongs to and however many messages lie between; the earlier report, itself
      compensated, does not matter. So a distance is reported as it is exactly if it is the first or equal to the one
      before. The classic estimate is reported as it is. */
  lemma ReportLaw(address: nat, events: seq<Event>, m: Inbound)
    ensures var n := Run(InitialNode(address), events);
            var (d, last, report) := (RawDistance(n, m), LastRaw(InitialNode(address), events), Process(n, m).report);
            && (d.None? <==> report.None?)
            && (d.Some? ==> report.value.classic == d.value.classic)
            && (d.Some? && last.None? ==> report.value.modified == d.value.modified)
            && (d.Some? && last.Some? ==>
                  report.value.modified == d.value.modified + 0.618 * (d.value.modified - last.value))
            && (d.Some? ==>
                  (report.value.modified == d.value.modified <==> last.None? || last.value == d.value.modified))
  {
    hide Process, Distinct, RawDistance, Run, LastRaw;
    LastDistanceIsRaw(address, events);
    ProcessIsRaw(Run(InitialNode(address), events), m);
  }

  // A neighbour 10 ticks away: its message 3 left at 100, message 4 at 300, and this drone's message 2 at 200. The
  // distance before was that of a neighbour 20 ticks away.
  const NearRecord := BufferNode(200, 210, 100, 110, 20.0, 2, 3)
  const NearBuffer := Buffer(seq(6, _ => NearRecord), seq(6, _ => NearRecord))
  const NearTable := Neighbour(2, [], [ListNode(0, 310, 4, NULL_SEQ)], NearBuffer)
  const FarBefore: NodeState := NodeState(1, 3, [], [NearTable], FreshPriority[0 := 0], 0, Some(20.0 * VELOCITY))
  const NearMessage := Inbound(Message(2, 5, [Stamp(4, 300), Stamp(3, 100), Stamp(2, 50)],
                                       [NullUnit, NullUnit, NullUnit]), 510)

  lemma NearCalculation()
    ensures var out := CalculateTof(NearBuffer, ListNode(300, 310, 4, 4), 4, Receiver, First);
            out.distance == Some(Distance(10.0 * VELOCITY, 10.0 * VELOCITY))
  {
    hide CalculateTof, Estimate, Closest;
    var node := ListNode(300, 310, 4, 4);
    assert SeqKey(NearBuffer.send[5], Receiver) == 3;
    assert NearestRecord(NearBuffer, 4, Receiver) == Some(NearRecord);
    assert QuadOf(NearRecord, 300, 310, Receiver) == Quad(110, 110, 90, 90);
    EstimateSolves(Quad(110, 110, 90, 90), 20.0);
    CalculateDecides(NearBuffer, node, Receiver);
  }

  /** The last distance is that of whatever neighbour was heard before. Here the near one, exactly 10 ticks away, is
      reported at 3.82 ticks, because the last distance was that of a neighbour at 20. */
  lemma OtherNeighbourCounts()
    ensures Ready(FarBefore)
    ensures RawDistance(FarBefore, NearMessage) == Some(Distance(10.0 * VELOCITY, 10.0 * VELOCITY))
    ensures var report := Process(FarBefore, NearMessage).report;
            report.Some? && report.value.modified == 3.82 * VELOCITY
  {
    hide CalculateTof, ProcessFor, Process;
    NearDistance();
    assert Table(FarBefore, 2) == NearTable && Room(FarBefore, 2);
    ProcessIsRaw(FarBefore, NearMessage);
  }

  lemma NearDistance()
    ensures Ready(FarBefore)
    ensures ProcessFor(NearTable, FarBefore, NearMessage).1 == Some(Distance(10.0 * VELOCITY, 10.0 * VELOCITY))
  {
    hide CalculateTof, HeaderLoop, BodyLoop;
    NearCalculation();
    var log := NearTable.receiveList;
    var heard := NearTable.(receiveList := AddReceived(log, 510, 5));
    HeaderLoopClosedForm(Progress(heard, 0, None), log, 5, 510, NearMessage.msg.tx);
    assert NextReceiveList(log, 5, 510, NearMessage.msg.tx)[0] == ListNode(300, 310, 4, 4);
    assert UnitTo(NearMessage.msg.units, 1) == NULL_INDEX;
  }
}
