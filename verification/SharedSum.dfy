/** The sum of the initial estimates is one global, shared by all neighbours. On static links it is the sum of what
    every neighbour's initialization contributed, and so the average that ends an initialization is right only for a
    neighbour that comes first. */
module SharedSum {
  import opened Config
  import opened RangingListSpec
  import opened RangingBufferSpec
  import opened NodeSpec
  import opened LossTolerance
  import opened ExactlyOnce
  import opened Phases
  import opened Pairing
  import opened Exactness
  import opened Protocol
  import opened ProtocolProof
  import opened ProtocolTheorems

  // ---------------------------------------------------------------- contributions

  function Pairs(buf: Buffer): nat {
    if |buf.send| < MAX_INITIAL_CALCULATION then |buf.send| else MAX_INITIAL_CALCULATION
  }

  /** What the initialization with one neighbour has added to the sum. */
  function Contribution(delay: nat, buf: Buffer): nat { delay * Pairs(buf) }

  /** The delay of each neighbour, by address. */
  type Delays = nat -> nat

  function Total(neighbours: seq<Neighbour>, delays: Delays): nat
    decreases |neighbours|
  {
    if neighbours == [] then 0
    else Total(neighbours[1..], delays) + Contribution(delays(neighbours[0].address), neighbours[0].validBuffer)
  }

  lemma {:induction false} TotalUpdate(neighbours: seq<Neighbour>, i: nat, nb: Neighbour, delays: Delays)
    requires i < |neighbours| && nb.address == neighbours[i].address
    ensures Total(neighbours[i := nb], delays) + Contribution(delays(nb.address), neighbours[i].validBuffer)
         == Total(neighbours, delays) + Contribution(delays(nb.address), nb.validBuffer)
    decreases |neighbours|
  {
    hide Contribution;
    var updated := neighbours[i := nb];
    if i == 0 {
      assert updated[1..] == neighbours[1..];
    } else {
      assert updated[1..] == neighbours[1..][i - 1 := nb];
      TotalUpdate(neighbours[1..], i - 1, nb, delays);
    }
  }

  lemma {:induction false} TotalAppend(neighbours: seq<Neighbour>, nb: Neighbour, delays: Delays)
    ensures Total(neighbours + [nb], delays)
         == Total(neighbours, delays) + Contribution(delays(nb.address), nb.validBuffer)
    decreases |neighbours|
  {
    hide Contribution;
    if neighbours == [] {
      assert neighbours + [nb] == [nb];
      assert [nb][1..] == [];
    } else {
      assert (neighbours + [nb])[1..] == neighbours[1..] + [nb];
      TotalAppend(neighbours[1..], nb, delays);
    }
  }

  /** All contributions but those of the neighbour at position i vanish. */
  ghost predicate OthersVanish(neighbours: seq<Neighbour>, i: nat, delays: Delays) {
    forall j :: 0 <= j < |neighbours| && j != i ==>
      delays(neighbours[j].address) == 0 || neighbours[j].validBuffer.send == []
  }

  lemma {:induction false} TotalVanishes(neighbours: seq<Neighbour>, delays: Delays)
    ensures Total(neighbours, delays) == 0 <==>
            forall j :: 0 <= j < |neighbours| ==>
              delays(neighbours[j].address) == 0 || neighbours[j].validBuffer.send == []
    decreases |neighbours|
  {
    hide Contribution;
    if neighbours != [] {
      ContributionVanishes(delays(neighbours[0].address), neighbours[0].validBuffer);
      TotalVanishes(neighbours[1..], delays);
      assert forall j :: 1 <= j < |neighbours| ==> neighbours[j] == neighbours[1..][j - 1];
    }
  }

  lemma ContributionVanishes(delay: nat, buf: Buffer)
    ensures Contribution(delay, buf) == 0 <==> delay == 0 || buf.send == []
  {
  }

  lemma {:induction false} OthersTotal(neighbours: seq<Neighbour>, i: nat, delays: Delays)
    requires i < |neighbours|
    ensures var rest := Total(neighbours, delays)
                        - Contribution(delays(neighbours[i].address), neighbours[i].validBuffer);
            rest >= 0 && (rest == 0 <==> OthersVanish(neighbours, i, delays))
  {
    hide Contribution;
    var blank := neighbours[i].(validBuffer := EmptyBuffer);
    TotalUpdate(neighbours, i, blank, delays);
    ContributionVanishes(delays(blank.address), EmptyBuffer);
    TotalVanishes(neighbours[i := blank], delays);
    assert forall j :: 0 <= j < |neighbours| && j != i ==> neighbours[i := blank][j] == neighbours[j];
  }

  // ---------------------------------------------------------------- one message

  /** Between two points of a message the sum moved with the contribution of the table. */
  ghost predicate Moves(delay: nat, p: Progress, q: Progress) {
    && Phased(q.nb.validBuffer) && q.initTofSum >= 0
    && q.initTofSum - p.initTofSum == Contribution(delay, q.nb.validBuffer) - Contribution(delay, p.nb.validBuffer)
  }

  lemma NextPair(delay: nat, buf: Buffer, buf': Buffer)
    requires |buf.send| < MAX_INITIAL_CALCULATION && |buf'.send| == |buf.send| + 1
    ensures Contribution(delay, buf') == Contribution(delay, buf) + delay
  {
  }

  lemma ReceiverMoves(t: Truth, link: Link, p: Progress, k: nat, i: nat)
    requires GoodLink(t, link) && TableTrue(t, p.nb) && Phased(p.nb.validBuffer) && p.initTofSum >= 0
    requires k < |p.nb.receiveList| - 1 && Filled(p.nb.receiveList[k]) && i < MESSAGE_HEAD_TX_SIZE
    ensures Moves(link.delay, p, ReceiverCalculation(p, k, i))
  {
    hide CalculateTof, InitializeCalculateTof, AverageSend, GoodLink, SendListTrue, ReceiveListTrue, BufferTrue,
         ExactBuffer, InitialSumTof, Contribution, NoStale, Prev;
    var nb := p.nb;
    LengthsAgree(nb.validBuffer);
    if |nb.validBuffer.send| < MAX_INITIAL_CALCULATION {
      InitializationExact(t, link, nb.sendList, nb.receiveList, k, nb.validBuffer, p.initTofSum, Receiver);
      var r := InitializeCalculateTof(nb.receiveList, nb.sendList, k, nb.validBuffer, p.initTofSum, Receiver);
      if |r.buf.send| >= MAX_INITIAL_CALCULATION {
        AverageKeepsLengths(r.buf, i, r.initTofSum);
      }
      SameContribution(link.delay, r.buf, ReceiverCalculation(p, k, i).nb.validBuffer);
      if FindTriple(nb.receiveList, nb.sendList, k, Receiver).Some? { NextPair(link.delay, nb.validBuffer, r.buf); }
    } else {
      CalculateGrows(nb.validBuffer, nb.receiveList[k], Receiver);
      SameContribution(link.delay, nb.validBuffer, ReceiverCalculation(p, k, i).nb.validBuffer);
    }
  }

  lemma SameContribution(delay: nat, buf: Buffer, buf': Buffer)
    requires |buf'.send| == |buf.send| || |buf'.send| >= |buf.send| >= MAX_INITIAL_CALCULATION
    ensures Contribution(delay, buf') == Contribution(delay, buf)
  {
  }

  lemma SenderMoves(t: Truth, link: Link, p: Progress)
    requires GoodLink(t, link) && TableTrue(t, p.nb) && Phased(p.nb.validBuffer) && p.initTofSum >= 0
    requires p.nb.sendList != []
    ensures Moves(link.delay, p, SenderCalculation(p))
  {
    hide CalculateTof, InitializeCalculateTof, AverageReceive, GoodLink, SendListTrue, ReceiveListTrue, BufferTrue,
         ExactBuffer, InitialSumTof, Contribution, NoStale, Prev;
    var nb := p.nb;
    var k := |nb.sendList| - 1;
    LengthsAgree(nb.validBuffer);
    if |nb.validBuffer.send| < MAX_INITIAL_CALCULATION {
      InitializationExact(t, link, nb.sendList, nb.receiveList, k, nb.validBuffer, p.initTofSum, Sender);
      var r := InitializeCalculateTof(nb.sendList, nb.receiveList, k, nb.validBuffer, p.initTofSum, Sender);
      AverageReceiveKeepsLengths(r.buf, r.initTofSum);
      SameContribution(link.delay, r.buf, SenderCalculation(p).nb.validBuffer);
      if FindTriple(nb.sendList, nb.receiveList, k, Sender).Some? { NextPair(link.delay, nb.validBuffer, r.buf); }
    } else {
      CalculateGrows(nb.validBuffer, nb.sendList[k], Sender);
      SameContribution(link.delay, nb.validBuffer, SenderCalculation(p).nb.validBuffer);
    }
  }

  lemma {:induction false} BodyMoves(t: Truth, link: Link, p: Progress, rx: BodyStamps, i: nat)
    requires GoodLink(t, link) && TableTrue(t, p.nb) && Phased(p.nb.validBuffer) && p.initTofSum >= 0
    requires GoodReport(t, rx, Last(p.nb.receiveList).rx) && i <= MESSAGE_BODY_RX_SIZE
    ensures Moves(link.delay, p, BodyLoop(p, t.mine, rx, i))
    decreases i
  {
    hide SenderCalculation, Find, FindSend, TableTrue, GoodReport, GoodLink, Contribution, Phased;
    if i != 0 {
      var s := rx[i - 1];
      var next := BodyStep(p, t.mine, s);
      if Pushes(p.nb.sendList, t.mine, s) {
        NonEmpty(t, p.nb);
        PushKeepsTableTrue(t, p.nb, rx, s);
        var pushed := p.(nb := p.nb.(sendList := p.nb.sendList + [FullRecord(t.mine, s)]));
        SenderCalculationTrue(t, pushed);
        SenderCalculationKeepsReceiveList(pushed);
        SenderMoves(t, link, pushed);
      }
      NonEmpty(t, p.nb);
      BodyMoves(t, link, next, rx, i - 1);
    }
  }

  /** Where the header loop of a message starts. */
  function Start(nb: Neighbour, n: Node, m: Inbound): Progress {
    Progress(nb.(receiveList := AddReceived(nb.receiveList, m.rx, m.msg.seqNo)), n.initTofSum, None)
  }

  /** Where it ends. */
  function AfterHeader(nb: Neighbour, n: Node, m: Inbound): Progress {
    HeaderLoop(Start(nb, n, m), m.msg.tx, MESSAGE_HEAD_TX_SIZE)
  }

  /** The header of a good message: nothing, or the one calculation for the record that was the newest. */
  lemma HeaderIs(t: Truth, nb: Neighbour, n: Node, m: Inbound)
    requires GoodReception(t, nb, n, m)
    ensures var log := nb.receiveList;
            var next := NextReceiveList(log, m.msg.seqNo, m.rx, m.msg.tx);
            var filled := Start(nb, n, m).(nb := nb.(receiveList := next));
            && TableTrue(t, filled.nb) && |filled.nb.receiveList| == |log| + 1
            && (!Reaches(log, m.msg.seqNo) ==> AfterHeader(nb, n, m) == filled)
            && (Reaches(log, m.msg.seqNo) ==>
                  && log != [] && 0 <= m.msg.seqNo - 1 - Last(log).localSeq < MESSAGE_HEAD_TX_SIZE
                  && Filled(filled.nb.receiveList[|log| - 1])
                  && AfterHeader(nb, n, m) ==
                     ReceiverCalculation(filled, |log| - 1, m.msg.seqNo - 1 - Last(log).localSeq))
  {
    hide HeaderLoop, ReceiverCalculation, TableTrue, SendListTrue, ReceiveListTrue, BufferTrue, MessageTrue,
         NextReceiveList, Ordered, NoStale, Tolerant, Numbered, Reaches;
    var log := nb.receiveList;
    TolerantIncreases(log);
    ReceptionKeepsTableTrue(t, nb, m, n.address);
    MessageHeader(t, m, n.address);
    HeaderLoopClosedForm(Start(nb, n, m), log, m.msg.seqNo, m.rx, m.msg.tx);
    ReceptionLength(log, m.msg.seqNo, m.rx, m.msg.tx);
    if Reaches(log, m.msg.seqNo) { NextFilled(log, m.msg.seqNo, m.rx, m.msg.tx); }
  }

  lemma ReceptionLength(log: Log, m: nat, rx: nat, tx: HeadStamps)
    ensures |NextReceiveList(log, m, rx, tx)| == |log| + 1
  {
  }

  /** One good message moves the sum by what it adds to the contribution of its sender. */
  lemma ProcessForMoves(t: Truth, link: Link, nb: Neighbour, n: Node, m: Inbound)
    requires GoodLink(t, link) && GoodReception(t, nb, n, m) && Phased(nb.validBuffer) && n.initTofSum >= 0
    ensures Moves(link.delay, Start(nb, n, m), AfterHeader(nb, n, m))
    ensures Moves(link.delay, Start(nb, n, m), ProcessFor(nb, n, m).0)
  {
    hide HeaderLoop, BodyLoop, ReceiverCalculation, TableTrue, GoodLink, NextReceiveList, Reaches, Contribution,
         GoodReport, GoodReception, Phased;
    HeaderIs(t, nb, n, m);
    var log := nb.receiveList;
    var next := NextReceiveList(log, m.msg.seqNo, m.rx, m.msg.tx);
    var filled := Start(nb, n, m).(nb := nb.(receiveList := next));
    var h := AfterHeader(nb, n, m);
    NonEmpty(t, filled.nb);
    if Reaches(log, m.msg.seqNo) {
      var i := m.msg.seqNo - 1 - Last(log).localSeq;
      ReceiverMoves(t, link, filled, |log| - 1, i);
      ReceiverCalculationTrue(t, filled, |log| - 1, i);
      CalculationKeepsList(filled, |log| - 1, i);
    }
    var unit := UnitTo(m.msg.units, n.address);
    if unit != NULL_INDEX {
      GoodReportOf(t, nb, n, m, unit);
      NextNewest(log, m.msg.seqNo, m.rx, m.msg.tx);
      BodyMoves(t, link, h.(distance := None), m.msg.units[unit].rx, MESSAGE_BODY_RX_SIZE);
    }
  }

  lemma NextNewest(log: Log, m: nat, rx: nat, tx: HeadStamps)
    ensures var next := NextReceiveList(log, m, rx, tx); next != [] && Last(next).rx == rx
  {
  }

  // ---------------------------------------------------------------- the two endings

  /** Buffers only grow at the end once they are initialized. */
  ghost predicate Appended(buf: Buffer, buf': Buffer) { buf.send <= buf'.send && buf.receive <= buf'.receive }

  lemma CalculateAppends(buf: Buffer, node: ListNode, status: Status)
    ensures Appended(buf, CalculateTof(buf, node, node.localSeq, status, First).buf)
  {
    hide CalculateTof, NewNode, DistanceOf, InRange;
    CalculateIsAtomic(buf, node, node.localSeq, status, First);
  }

  /** The SENDER initialization that completes the buffer leaves the average in every slot of the receive half; one
      that comes later leaves everything as it is. */
  lemma SenderEnding(p: Progress)
    requires p.nb.sendList != [] && Phased(p.nb.validBuffer)
    ensures var (b, r) := (p.nb.validBuffer, SenderCalculation(p));
            && Phased(r.nb.validBuffer)
            && (Initializing(b) && !Initializing(r.nb.validBuffer) ==>
                  && |r.nb.validBuffer.receive| == MAX_INITIAL_CALCULATION
                  && forall j :: 0 <= j < MAX_INITIAL_CALCULATION ==>
                       r.nb.validBuffer.receive[j].sumTof == InitialSumTof(r.initTofSum))
            && (!Initializing(b) ==> r.initTofSum == p.initTofSum && Appended(b, r.nb.validBuffer))
  {
    hide CalculateTof, InitializeCalculateTof, InitialSumTof;
    var nb := p.nb;
    var k := |nb.sendList| - 1;
    LengthsAgree(nb.validBuffer);
    if |nb.validBuffer.receive| < MAX_INITIAL_CALCULATION {
      InitializeGrows(nb.sendList, nb.receiveList, k, nb.validBuffer, p.initTofSum, Sender);
    } else {
      CalculateAppends(nb.validBuffer, nb.sendList[k], Sender);
    }
  }

  /** The RECEIVER initialization that completes the buffer leaves the average in slot i of the send half only. */
  lemma ReceiverEnding(p: Progress, k: nat, i: nat)
    requires k < |p.nb.receiveList| && i < MESSAGE_HEAD_TX_SIZE && Phased(p.nb.validBuffer)
    ensures var (b, r) := (p.nb.validBuffer, ReceiverCalculation(p, k, i));
            && Phased(r.nb.validBuffer)
            && (Initializing(b) && !Initializing(r.nb.validBuffer) ==>
                  r.nb.validBuffer.send[i].sumTof == InitialSumTof(r.initTofSum))
  {
    hide CalculateTof, InitializeCalculateTof, InitialSumTof;
    var nb := p.nb;
    LengthsAgree(nb.validBuffer);
    if |nb.validBuffer.send| < MAX_INITIAL_CALCULATION {
      InitializeGrows(nb.receiveList, nb.sendList, k, nb.validBuffer, p.initTofSum, Receiver);
    } else {
      CalculateAppends(nb.validBuffer, nb.receiveList[k], Receiver);
    }
  }

  lemma {:induction false} BodyEnding(p: Progress, history: History, rx: BodyStamps, k: nat)
    requires Phased(p.nb.validBuffer) && k <= MESSAGE_BODY_RX_SIZE
    ensures var (b, r) := (p.nb.validBuffer, BodyLoop(p, history, rx, k));
            && Phased(r.nb.validBuffer)
            && (Initializing(b) && !Initializing(r.nb.validBuffer) ==>
                  forall j :: 0 <= j < MAX_INITIAL_CALCULATION ==>
                    r.nb.validBuffer.receive[j].sumTof == InitialSumTof(r.initTofSum))
            && (!Initializing(b) ==> r.initTofSum == p.initTofSum && Appended(b, r.nb.validBuffer))
    decreases k
  {
    hide SenderCalculation, Find, FindSend, InitialSumTof, Phased;
    if k != 0 {
      var s := rx[k - 1];
      if Pushes(p.nb.sendList, history, s) {
        SenderEnding(p.(nb := p.nb.(sendList := p.nb.sendList + [FullRecord(history, s)])));
      }
      BodyEnding(BodyStep(p, history, s), history, rx, k - 1);
    }
  }

  /** What the ending of an initialization overwrote is the value v: one slot of the send half if the header of the
      message ended it, and every slot of the receive half if the body did. */
  ghost predicate Overwritten(header: Buffer, i: int, after: Buffer, v: real)
    requires !Initializing(after)
  {
    if !Initializing(header) then 0 <= i < MESSAGE_HEAD_TX_SIZE && after.send[i].sumTof == v
    else forall j :: 0 <= j < MAX_INITIAL_CALCULATION ==> after.receive[j].sumTof == v
  }

  lemma OverwrittenOnce(header: Buffer, i: int, after: Buffer)
    requires !Initializing(after)
    ensures forall v, w :: Overwritten(header, i, after, v) && Overwritten(header, i, after, w) ==> v == w
  {
    assert after.receive[0].sumTof == after.receive[0].sumTof;
  }

  /** The position in the header of the stamp that a message in reach brings for the newest record. */
  function StampOf(log: Log, m: Inbound): int {
    if log == [] then NULL_INDEX else m.msg.seqNo - 1 - Last(log).localSeq
  }

  lemma EndingAverages(t: Truth, nb: Neighbour, n: Node, m: Inbound)
    requires GoodReception(t, nb, n, m) && Phased(nb.validBuffer) && Initializing(nb.validBuffer)
    requires !Initializing(ProcessFor(nb, n, m).0.nb.validBuffer)
    ensures var (h, p) := (AfterHeader(nb, n, m), ProcessFor(nb, n, m).0);
            Overwritten(h.nb.validBuffer, StampOf(nb.receiveList, m), p.nb.validBuffer, InitialSumTof(p.initTofSum))
  {
    hide HeaderLoop, BodyLoop, ReceiverCalculation, TableTrue, NextReceiveList, Reaches, InitialSumTof, GoodReception,
         Phased;
    HeaderIs(t, nb, n, m);
    var log := nb.receiveList;
    var next := NextReceiveList(log, m.msg.seqNo, m.rx, m.msg.tx);
    var filled := Start(nb, n, m).(nb := nb.(receiveList := next));
    var h := AfterHeader(nb, n, m);
    if Reaches(log, m.msg.seqNo) { ReceiverEnding(filled, |log| - 1, m.msg.seqNo - 1 - Last(log).localSeq); }
    var unit := UnitTo(m.msg.units, n.address);
    if unit != NULL_INDEX {
      BodyEnding(h.(distance := None), n.history, m.msg.units[unit].rx, MESSAGE_BODY_RX_SIZE);
    }
  }

  lemma AverageOfSum(rest: nat, delay: nat)
    ensures InitialSumTof(rest + delay * MAX_INITIAL_CALCULATION) == 2.0 * delay as real <==> rest == 0
  {
    assert (rest + delay * MAX_INITIAL_CALCULATION) as real == rest as real + delay as real * 6.0;
  }

  /** The average that ends the initialization with one neighbour of a drone is exact if and only if no other neighbour
      has contributed to the sum: each of the others has no delay or an empty buffer. Both endings are covered. */
  lemma EndingIsExactIffOthersVanish(t: Truth, link: Link, n: Node, neighbours: seq<Neighbour>, i: nat, m: Inbound,
        delays: Delays)
    requires i < |neighbours| && n.initTofSum == Total(neighbours, delays)
    requires var nb := neighbours[i];
             && delays(nb.address) == link.delay && GoodLink(t, link) && GoodReception(t, nb, n, m)
             && Phased(nb.validBuffer) && Initializing(nb.validBuffer)
             && !Initializing(ProcessFor(nb, n, m).0.nb.validBuffer)
    ensures var nb := neighbours[i];
            var (h, p) := (AfterHeader(nb, n, m), ProcessFor(nb, n, m).0);
            && Overwritten(h.nb.validBuffer, StampOf(nb.receiveList, m), p.nb.validBuffer, InitialSumTof(p.initTofSum))
            && (Overwritten(h.nb.validBuffer, StampOf(nb.receiveList, m), p.nb.validBuffer, 2.0 * link.delay as real)
                <==> OthersVanish(neighbours, i, delays))
  {
    hide AfterHeader, ProcessFor, GoodLink, GoodReception, InitialSumTof, Total, OthersVanish, Overwritten, StampOf;
    var nb := neighbours[i];
    OthersTotal(neighbours, i, delays);
    ProcessForMoves(t, link, nb, n, m);
    EndingAverages(t, nb, n, m);
    var p := ProcessFor(nb, n, m).0;
    OverwrittenOnce(AfterHeader(nb, n, m).nb.validBuffer, StampOf(nb.receiveList, m), p.nb.validBuffer);
    var rest := Total(neighbours, delays) - Contribution(link.delay, nb.validBuffer);
    assert p.initTofSum == rest + link.delay * MAX_INITIAL_CALCULATION;
    AverageOfSum(rest, link.delay);
  }

  // ---------------------------------------------------------------- every run of any number of drones

  /** The link of drone d with each other drone. */
  type Links = nat -> Link

  /** Up to this state all links of drone d were static, and no initialization of it met a stale record. */
  ghost predicate StaticUpTo(s: System, d: nat, links: Links)
    requires Shaped(s) && d < |s|
  {
    forall e :: 0 <= e < |s| && e != d ==> GoodLink(TruthOf(s[d], s[e], d, e), links(e)) && s[d].clean[e]
  }

  function DelayTo(links: Links, address: nat): nat { if address == NULL_ADDR then 0 else links(address - 1).delay }

  function DelayOf(links: Links): Delays { address => DelayTo(links, address) }

  ghost predicate SumIsTotal(n: Node, links: Links) { n.initTofSum == Total(n.neighbours, DelayOf(links)) }

  /** A link that was static up to a later moment was so before. */
  lemma GoodLinkBefore(t: Truth, u: Truth, link: Link)
    requires GrowsTo(t, u) && GoodLink(u, link)
    ensures GoodLink(t, link)
  {
    StaticBefore(t, u, link);
    NoCrossingBefore(t, u);
    assert forall s <- t.mine :: s in u.mine;
    assert forall s <- t.theirs :: s in u.theirs;
  }

  lemma StaticBefore(t: Truth, u: Truth, link: Link)
    requires GrowsTo(t, u) && Static(u, link)
    ensures Static(t, link)
  {
  }

  lemma NoCrossingBefore(t: Truth, u: Truth)
    requires GrowsTo(t, u) && NoCrossing(u)
    ensures NoCrossing(t)
  {
    forall s, r | 1 <= s <= |t.mine| && s in t.theirHeard && 1 <= r <= |t.theirs| && r in t.myHeard
                  && t.mine[s - 1].time < t.myHeard[r]
      ensures t.theirHeard[s] < t.theirs[r - 1].time
    {
      assert u.mine[s - 1] == t.mine[s - 1] && u.theirs[r - 1] == t.theirs[r - 1];
    }
  }

  lemma StaticBeforeStep(s: System, step: Step, d: nat, links: Links)
    requires Inv(s) && Shaped(s) && Enabled(s, step) && d < |s|
    requires Shaped(Next(s, step)) && StaticUpTo(Next(s, step), d, links)
    ensures StaticUpTo(s, d, links)
  {
    hide Inv, OwnInv, GoodLink, Process, Rl, After, GrowsTo;
    var s' := Next(s, step);
    StepOwn(s, step);
    CleanBeforeStep(s, step);
    forall e | 0 <= e < |s| && e != d
      ensures GoodLink(TruthOf(s[d], s[e], d, e), links(e)) && s[d].clean[e]
    {
      TruthGrows(s[d], s'[d], s[e], s'[e], d, e);
      GoodLinkBefore(TruthOf(s[d], s[e], d, e), TruthOf(s'[d], s'[e], d, e), links(e));
    }
  }

  lemma TruthGrows(x: Drone, x': Drone, y: Drone, y': Drone, d: nat, e: nat)
    requires (x' == x || Evolves(x, x')) && (y' == y || Evolves(y, y')) && e < |x.heard| && d < |y.heard|
    ensures e < |x'.heard| && d < |y'.heard| && GrowsTo(TruthOf(x, y, d, e), TruthOf(x', y', d, e))
  {
    hide Rl, Seqs;
  }

  lemma CleanBeforeStep(s: System, step: Step)
    requires Inv(s) && Shaped(s) && Enabled(s, step)
    ensures var (x, x') := (s[step.d], After(s, step));
            |x'.clean| == |x.clean| && forall e :: 0 <= e < |x.clean| && x'.clean[e] ==> x.clean[e]
  {
    hide Inv, Process, Rl, NoStale, Initializing, Table, Room;
    if step.ProcessStep? {
      assert OwnInv(s[step.d], step.d, |s|) by { OwnOf(s, step.d); }
      HeadSender(s[step.d], step.d, |s|);
    }
  }

  lemma RegisterTotal(neighbours: seq<Neighbour>, address: nat, delays: Delays)
    ensures Total(Register(neighbours, address), delays) == Total(neighbours, delays)
  {
    TotalAppend(neighbours, Neighbour(address, [], [], EmptyBuffer), delays);
  }

  /** A drone's sum stays the total when it processes a good message. */
  lemma ProcessKeepsTotal(t: Truth, link: Link, n: Node, m: Inbound, delays: Delays)
    requires SoundNode(n) && n.initTofSum == Total(n.neighbours, delays) && Room(n, m.msg.src) && Distinct(n.neighbours)
    requires delays(m.msg.src) == link.delay && GoodLink(t, link) && GoodReception(t, Table(n, m.msg.src), n, m)
    ensures Process(n, m).node.initTofSum == Total(Process(n, m).node.neighbours, delays)
  {
    hide ProcessFor, UpdatePriority, Compensate, GoodLink, GoodReception, Total, Distinct, Register, Table,
         Contribution, SoundNode;
    var neighbours := Register(n.neighbours, m.msg.src);
    Registered(n, m.msg.src, delays);
    SoundTable(n, m.msg.src);
    var i := FindNeighbour(neighbours, m.msg.src);
    var nb := neighbours[i];
    ProcessForMoves(t, link, nb, n, m);
    ProcessForKeeps(nb, n, m);
    TotalUpdate(neighbours, i, ProcessFor(nb, n, m).0.nb, delays);
  }

  lemma TableIsTableIn(n: Node, address: nat)
    ensures Table(n, address) == TableIn(n.neighbours, address)
  {
  }

  lemma StepKeepsTotal(s: System, step: Step, d: nat, links: Links)
    requires Inv(s) && Shaped(s) && Enabled(s, step) && d < |s| && SumIsTotal(s[d].node, links)
    requires Shaped(Next(s, step)) && StaticUpTo(Next(s, step), d, links)
    ensures SumIsTotal(Next(s, step)[d].node, links)
  {
    hide Inv, OwnInv, PairInv, Outgoing, GoodLink, Process, Total, StaticUpTo, Room, StaysClean, GoodReception, Table,
         Distinct;
    if step.d == d && step.ProcessStep? {
      var x := s[d];
      OwnOf(s, d);
      HeadSender(x, d, |s|);
      OwnDistinct(x, d, |s|);
      var e := SenderOf(x);
      var m := x.inbox[0];
      if Room(x.node, m.msg.src) {
        StaticBeforeStep(s, step, d, links);
        OwnOf(s, e);
        PairOf(s, d, e);
        OutgoingOf(s, e, d);
        CleanOf(s, step, d, e, links);
        HeadIsGood(x, s[e], d, e, |s|);
        LinkOf(s, d, e, links);
        ProcessKeepsTotal(TruthOf(x, s[e], d, e), links(e), x.node, m, DelayOf(links));
      } else {
        TableAfterProcess(x.node, m, Addr(e));
      }
    }
  }

  lemma LinkOf(s: System, d: nat, e: nat, links: Links)
    requires Shaped(s) && d < |s| && e < |s| && d != e && StaticUpTo(s, d, links)
    ensures GoodLink(TruthOf(s[d], s[e], d, e), links(e)) && s[d].clean[e]
  {
    hide GoodLink;
  }

  lemma OutgoingOf(s: System, d: nat, e: nat)
    requires Inv(s) && d < |s| && e < |s| && d != e
    ensures Outgoing(s[d], e)
  {
    hide Outgoing;
  }

  /** A message after which the initialization is still clean met no stale record. */
  lemma CleanOf(s: System, step: Step, d: nat, e: nat, links: Links)
    requires Shaped(s) && Enabled(s, step) && step == ProcessStep(d) && d < |s| && e < |s| && d != e
    requires SenderOf(s[d]) == e
    requires Room(s[d].node, s[d].inbox[0].msg.src)
    requires Shaped(Next(s, step)) && StaticUpTo(Next(s, step), d, links)
    ensures StaysClean(s[d], e)
  {
    hide GoodLink, Process, Room, StaysClean;
    var s' := Next(s, step);
    LinkOf(s', d, e, links);
  }

  lemma {:induction false} StaticBeforeRun(s: System, steps: seq<Step>, s': System, d: nat, links: Links)
    requires Inv(s) && Shaped(s) && IsRun(s, steps, s') && d < |s| && Shaped(s') && d < |s'| && StaticUpTo(s', d, links)
    ensures StaticUpTo(s, d, links)
    decreases |steps|
  {
    hide Inv, Next, StaticUpTo, Enabled;
    if steps != [] {
      StepKeepsInv(s, steps[0]);
      NextSize(s, steps[0]);
      StaticBeforeRun(Next(s, steps[0]), steps[1..], s', d, links);
      StaticBeforeStep(s, steps[0], d, links);
    }
  }

  lemma {:induction false} RunKeepsTotal(s: System, steps: seq<Step>, s': System, d: nat, links: Links)
    requires Inv(s) && Shaped(s) && IsRun(s, steps, s') && d < |s| && SumIsTotal(s[d].node, links)
    requires Shaped(s') && d < |s'| && StaticUpTo(s', d, links)
    ensures SumIsTotal(s'[d].node, links)
    decreases |steps|
  {
    hide Inv, Next, StaticUpTo, Enabled, SumIsTotal;
    if steps != [] {
      StepKeepsInv(s, steps[0]);
      NextSize(s, steps[0]);
      StaticBeforeRun(Next(s, steps[0]), steps[1..], s', d, links);
      StepKeepsTotal(s, steps[0], d, links);
      RunKeepsTotal(Next(s, steps[0]), steps[1..], s', d, links);
    }
  }

  /** The shared sum. In every state that any number of drones reach, and for a drone whose links were static up to
      then: the sum is exactly what the initializations with all its neighbours contributed, the delay of each neighbour
      once for every pair stored. */
  lemma SumTheorem(s: System, d: nat, links: Links)
    requires Reachable(s) && Shaped(s) && d < |s| && StaticUpTo(s, d, links)
    ensures SumIsTotal(s[d].node, links)
  {
    hide Inv, StaticUpTo, IsRun;
    var n: nat, steps: seq<Step> :| IsRun(InitialSystem(n), steps, s);
    InitialInv(n);
    RunSize(InitialSystem(n), steps, s);
    InitialTotal(n, d, links);
    RunKeepsTotal(InitialSystem(n), steps, s, d, links);
  }

  lemma InitialTotal(n: nat, d: nat, links: Links)
    requires d < n
    ensures SumIsTotal(InitialSystem(n)[d].node, links)
  {
  }

  lemma {:induction false} RunSize(s: System, steps: seq<Step>, s': System)
    requires IsRun(s, steps, s')
    ensures |s'| == |s|
    decreases |steps|
  {
    hide Next, Enabled;
    if steps != [] {
      NextSize(s, steps[0]);
      RunSize(Next(s, steps[0]), steps[1..], s');
    }
  }

  /** In a reachable state whose links are static, drone d is about to process the message that ends its initialization
      with drone e. */
  ghost predicate EndsInitialization(s: System, d: nat, e: nat, links: Links) {
    && Reachable(s) && Shaped(s) && d < |s| && s[d].inbox != [] && SenderOf(s[d]) == e < |s| && d != e
    && var s' := Next(s, ProcessStep(d));
       && Shaped(s') && StaticUpTo(s', d, links) && Initializing(Buf(s[d], e)) && !Initializing(Buf(s'[d], e))
  }

  /** Every slot that the ending of the initialization with drone e overwrites holds v after the message. */
  ghost predicate AverageLeft(s: System, d: nat, e: nat, v: real)
    requires Shaped(s) && d < |s| && s[d].inbox != [] && !Initializing(Buf(Next(s, ProcessStep(d))[d], e))
  {
    var (x, m, after) := (s[d], s[d].inbox[0], Buf(Next(s, ProcessStep(d))[d], e));
    Overwritten(AfterHeader(Table(x.node, Addr(e)), x.node, m).nb.validBuffer, StampOf(Rl(x, e), m), after, v)
  }

  /** The average. When a drone processes the message that ends its initialization with drone e, in a system of any
      number of drones, what that ending overwrites is exact if and only if every other neighbour of the drone has no
      delay or has not stored any pair yet. */
  lemma AverageIsExactIffFirst(s: System, d: nat, e: nat, links: Links)
    requires EndsInitialization(s, d, e, links)
    ensures AverageLeft(s, d, e, 2.0 * links(e).delay as real)
            <==> forall nb <- s[d].node.neighbours :: nb.address != Addr(e) ==>
                   DelayOf(links)(nb.address) == 0 || nb.validBuffer.send == []
    ensures exists v: real :: AverageLeft(s, d, e, v)
  {
    hide Inv, OwnInv, PairInv, Outgoing, GoodLink, Process, Total, StaticUpTo, StaysClean, GoodReception, AfterHeader,
         Reachable, Distinct, ProcessFor, Initializing, Overwritten, Register, FindNeighbour, Total, OthersVanish,
         StampOf;
    var x, m, step := s[d], s[d].inbox[0], ProcessStep(d);
    ReachableInv(s);
    SumTheorem(s, d, links) by { StaticBeforeStep(s, step, d, links); }
    OwnOf(s, d);
    HeadSender(x, d, |s|);
    OwnDistinct(x, d, |s|);
    TableAfterProcess(x.node, m, Addr(e));
    GoodHead(s, d, e, links);
    var neighbours := Register(x.node.neighbours, Addr(e));
    Registered(x.node, Addr(e), DelayOf(links));
    var i := FindNeighbour(neighbours, Addr(e));
    EndingIsExactIffOthersVanish(TruthOf(x, s[e], d, e), links(e), x.node, neighbours, i, m, DelayOf(links));
    assert AverageLeft(s, d, e, InitialSumTof(ProcessFor(neighbours[i], x.node, m).0.initTofSum));
    OthersByAddress(neighbours, i, DelayOf(links));
    RegisterMembers(x.node.neighbours, Addr(e));
  }

  lemma RegisterMembers(neighbours: seq<Neighbour>, address: nat)
    ensures var r := Register(neighbours, address);
            && (forall nb <- r :: nb in neighbours || nb.address == address)
            && (forall nb <- neighbours :: nb in r)
  {
  }

  lemma GoodHead(s: System, d: nat, e: nat, links: Links)
    requires Inv(s) && Shaped(s) && d < |s| && s[d].inbox != [] && SenderOf(s[d]) == e < |s| && d != e
    requires Room(s[d].node, s[d].inbox[0].msg.src)
    requires var s' := Next(s, ProcessStep(d)); Shaped(s') && StaticUpTo(s', d, links)
    ensures GoodReception(TruthOf(s[d], s[e], d, e), Table(s[d].node, Addr(e)), s[d].node, s[d].inbox[0])
    ensures GoodLink(TruthOf(s[d], s[e], d, e), links(e)) && Sound(Table(s[d].node, Addr(e)).validBuffer)
  {
    hide OwnInv, PairInv, Outgoing, GoodLink, Process, StaticUpTo, StaysClean, GoodReception, Distinct, Inv, Room,
         Sound;
    StaticBeforeStep(s, ProcessStep(d), d, links);
    OwnOf(s, d);
    OwnOf(s, e);
    PairOf(s, d, e);
    OutgoingOf(s, e, d);
    OwnDistinct(s[d], d, |s|);
    CleanOf(s, ProcessStep(d), d, e, links);
    HeadIsGood(s[d], s[e], d, e, |s|);
    LinkOf(s, d, e, links);
    SoundTable(s[d].node, Addr(e));
  }

  lemma Registered(n: Node, address: nat, delays: Delays)
    requires Room(n, address) && Distinct(n.neighbours)
    ensures var neighbours := Register(n.neighbours, address);
            var i := FindNeighbour(neighbours, address);
            && i != NULL_INDEX && neighbours[i] == Table(n, address) && Distinct(neighbours)
            && Total(neighbours, delays) == Total(n.neighbours, delays)
  {
    hide Total, Distinct;
    RegisterKeepsTables(n.neighbours, address, address);
    RoomMeansFound(n, address);
    FoundTable(Register(n.neighbours, address), address);
    TableIsTableIn(n, address);
    RegisterTotal(n.neighbours, address, delays);
  }

  lemma OthersByAddress(neighbours: seq<Neighbour>, i: nat, delays: Delays)
    requires i < |neighbours| && Distinct(neighbours)
    ensures OthersVanish(neighbours, i, delays) <==>
            forall nb <- neighbours :: nb.address != neighbours[i].address ==>
              delays(nb.address) == 0 || nb.validBuffer.send == []
  {
    if OthersVanish(neighbours, i, delays) {
      forall nb | nb in neighbours && nb.address != neighbours[i].address
        ensures delays(nb.address) == 0 || nb.validBuffer.send == []
      {
        var j :| 0 <= j < |neighbours| && neighbours[j] == nb;
      }
    } else {
      var j :| 0 <= j < |neighbours| && j != i && delays(neighbours[j].address) != 0
        && neighbours[j].validBuffer.send != [];
      assert neighbours[j] in neighbours && neighbours[j].address != neighbours[i].address;
    }
  }
}
