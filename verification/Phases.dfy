/** What every run of one drone keeps about the calculation buffers of its neighbours. */
module Phases {
  import opened Config
  import opened RangingListSpec
  import opened RangingBufferSpec
  import opened NodeSpec

  /** Both halves grow in step while initializing and are both full afterwards: the six pairs stored by
      initialization come first, single nodes from calculateTof only after them. */
  ghost predicate Phased(buf: Buffer) {
    || |buf.send| == |buf.receive| <= MAX_INITIAL_CALCULATION
    || (|buf.send| >= MAX_INITIAL_CALCULATION && |buf.receive| >= MAX_INITIAL_CALCULATION)
  }

  ghost predicate NonNegative(buf: Buffer) {
    && (forall b <- buf.send :: b.sumTof >= 0.0)
    && (forall b <- buf.receive :: b.sumTof >= 0.0)
  }

  ghost predicate Sound(buf: Buffer) { Phased(buf) && NonNegative(buf) }

  ghost predicate SoundNode(n: Node) {
    && n.initTofSum >= 0
    && (forall nb <- n.neighbours :: Sound(nb.validBuffer))
  }

  /** sendLength == receiveLength */
  lemma LengthsAgree(buf: Buffer)
    requires Phased(buf)
    ensures Length(buf.send) == Length(buf.receive)
    ensures Length(buf.send) >= MAX_INITIAL_CALCULATION ==>
              |buf.send| >= RANGING_BUFFER_SIZE && |buf.receive| >= RANGING_BUFFER_SIZE
  {
  }

  ghost predicate Grows(buf: Buffer, buf': Buffer) {
    |buf.send| <= |buf'.send| && |buf.receive| <= |buf'.receive|
  }

  lemma AddIsSound(buf: Buffer, node: BufferNode, status: Status)
    requires NonNegative(buf) && node.sumTof >= 0.0
    ensures NonNegative(Add(buf, node, status))
  {
  }

  lemma CalculateIsSound(buf: Buffer, node: ListNode, status: Status)
    requires Sound(buf) && |buf.send| >= MAX_INITIAL_CALCULATION && |buf.receive| >= MAX_INITIAL_CALCULATION
    ensures var out := CalculateTof(buf, node, node.localSeq, status, First);
            Sound(out.buf) && Grows(buf, out.buf)
  {
    hide CalculateTof, NonNegative;
    CalculateIsAtomic(buf, node, node.localSeq, status, First);
    var out := CalculateTof(buf, node, node.localSeq, status, First);
    if out.distance.Some? {
      var last := Searched(buf, status)[SearchBuffer(buf, node.localSeq, status)];
      var t23 :| out.distance.value.modified == t23 / 2.0 * VELOCITY && t23 >= 0.0
                 && out.buf == Add(buf, NewNode(last, node, t23, status), status);
      AddIsSound(buf, NewNode(last, node, t23, status), status);
    }
  }

  lemma InitializeIsSound(listA: Log, listB: Log, a1: nat, buf: Buffer, sum: int, status: Status)
    requires a1 < |listA| && Sound(buf) && |buf.send| < MAX_INITIAL_CALCULATION && sum >= 0
    ensures var r := InitializeCalculateTof(listA, listB, a1, buf, sum, status);
            Sound(r.buf) && r.initTofSum >= 0 && Grows(buf, r.buf) && |r.buf.send| <= MAX_INITIAL_CALCULATION
  {
    hide FindTriple, InitQuad;
  }

  lemma InitialSumIsNonNegative(sum: int)
    requires sum >= 0
    ensures InitialSumTof(sum) >= 0.0
  {
  }

  lemma ReceiverCalculationIsSound(p: Progress, k: nat, i: nat)
    requires k < |p.nb.receiveList| && i < MESSAGE_HEAD_TX_SIZE
    requires Sound(p.nb.validBuffer) && p.initTofSum >= 0
    ensures var r := ReceiverCalculation(p, k, i);
            Sound(r.nb.validBuffer) && r.initTofSum >= 0 && Grows(p.nb.validBuffer, r.nb.validBuffer)
  {
    hide CalculateTof, InitializeCalculateTof, InitialSumTof;
    var nb := p.nb;
    LengthsAgree(nb.validBuffer);
    if |nb.validBuffer.send| < MAX_INITIAL_CALCULATION {
      InitializeIsSound(nb.receiveList, nb.sendList, k, nb.validBuffer, p.initTofSum, Receiver);
      var r := InitializeCalculateTof(nb.receiveList, nb.sendList, k, nb.validBuffer, p.initTofSum, Receiver);
      InitialSumIsNonNegative(r.initTofSum);
    } else {
      CalculateIsSound(nb.validBuffer, nb.receiveList[k], Receiver);
    }
  }

  lemma SenderCalculationIsSound(p: Progress)
    requires p.nb.sendList != [] && Sound(p.nb.validBuffer) && p.initTofSum >= 0
    ensures var r := SenderCalculation(p);
            Sound(r.nb.validBuffer) && r.initTofSum >= 0 && Grows(p.nb.validBuffer, r.nb.validBuffer)
  {
    hide CalculateTof, InitializeCalculateTof, InitialSumTof;
    var nb := p.nb;
    LengthsAgree(nb.validBuffer);
    if |nb.validBuffer.receive| < MAX_INITIAL_CALCULATION {
      InitializeIsSound(nb.sendList, nb.receiveList, |nb.sendList| - 1, nb.validBuffer, p.initTofSum, Sender);
      var r := InitializeCalculateTof(nb.sendList, nb.receiveList, |nb.sendList| - 1, nb.validBuffer, p.initTofSum,
        Sender);
      InitialSumIsNonNegative(r.initTofSum);
    } else {
      CalculateIsSound(nb.validBuffer, nb.sendList[|nb.sendList| - 1], Sender);
    }
  }

  /** One calculation: below MAX_INITIAL_CALCULATION nodes it can only add a pair, to both halves at once, and obtains
      no distance; from then on, with both halves full, it adds at most one node and leaves the sum alone. */
  ghost predicate InPhase(p: Progress, r: Progress) {
    var (b, b') := (p.nb.validBuffer, r.nb.validBuffer);
    if |b.send| < MAX_INITIAL_CALCULATION then
      && r.distance == p.distance && |b'.send| == |b'.receive| && |b.receive| == |b.send| <= |b'.send| <= |b.send| + 1
    else
      && |b.receive| >= MAX_INITIAL_CALCULATION && r.initTofSum == p.initTofSum
      && |b.send| + |b.receive| <= |b'.send| + |b'.receive| <= |b.send| + |b.receive| + 1
  }

  /** Initialization stores MAX_INITIAL_CALCULATION pairs and no more, and calculateTof never runs before both halves
      hold that many nodes, whichever direction is calculated. */
  lemma PairsBeforeCalculation(p: Progress, k: nat, i: nat)
    requires Phased(p.nb.validBuffer)
    ensures k < |p.nb.receiveList| && i < MESSAGE_HEAD_TX_SIZE ==> InPhase(p, ReceiverCalculation(p, k, i))
    ensures p.nb.sendList != [] ==> InPhase(p, SenderCalculation(p))
  {
    hide CalculateTof, InitializeCalculateTof, InitialSumTof;
    var nb := p.nb;
    LengthsAgree(nb.validBuffer);
    if k < |nb.receiveList| && i < MESSAGE_HEAD_TX_SIZE {
      InitializeGrows(nb.receiveList, nb.sendList, k, nb.validBuffer, p.initTofSum, Receiver);
      CalculateAddsOne(nb.validBuffer, nb.receiveList[k], Receiver);
    }
    if nb.sendList != [] {
      InitializeGrows(nb.sendList, nb.receiveList, |nb.sendList| - 1, nb.validBuffer, p.initTofSum, Sender);
      CalculateAddsOne(nb.validBuffer, nb.sendList[|nb.sendList| - 1], Sender);
    }
  }

  lemma CalculateAddsOne(buf: Buffer, node: ListNode, status: Status)
    ensures var buf' := CalculateTof(buf, node, node.localSeq, status, First).buf;
            |buf.send| + |buf.receive| <= |buf'.send| + |buf'.receive| <= |buf.send| + |buf.receive| + 1
  {
    hide CalculateTof, NewNode;
    CalculateIsAtomic(buf, node, node.localSeq, status, First);
  }

  lemma {:induction false} HeaderLoopIsSound(p: Progress, tx: HeadStamps, k: nat)
    requires k <= MESSAGE_HEAD_TX_SIZE && Sound(p.nb.validBuffer) && p.initTofSum >= 0
    ensures var r := HeaderLoop(p, tx, k);
            Sound(r.nb.validBuffer) && r.initTofSum >= 0 && Grows(p.nb.validBuffer, r.nb.validBuffer)
    decreases k
  {
    hide ReceiverCalculation, Sound, Find;
    if k != 0 {
      var s := tx[k - 1];
      match Find(p.nb.receiveList, s.seqNo)
      case At(j) =>
        var filled := p.nb.(receiveList := FillTx(p.nb.receiveList, j, s.time, s.seqNo));
        ReceiverCalculationIsSound(p.(nb := filled), j, k - 1);
        HeaderLoopIsSound(HeaderStep(p, k - 1, s), tx, k - 1);
      case _ =>
        HeaderLoopIsSound(HeaderStep(p, k - 1, s), tx, k - 1);
    }
  }

  lemma {:induction false} BodyLoopIsSound(p: Progress, history: History, rx: BodyStamps, k: nat)
    requires k <= MESSAGE_BODY_RX_SIZE && Sound(p.nb.validBuffer) && p.initTofSum >= 0
    ensures var r := BodyLoop(p, history, rx, k);
            Sound(r.nb.validBuffer) && r.initTofSum >= 0 && Grows(p.nb.validBuffer, r.nb.validBuffer)
    decreases k
  {
    hide SenderCalculation, Sound, Find, FindSend;
    if k != 0 {
      var s := rx[k - 1];
      if Pushes(p.nb.sendList, history, s) {
        SenderCalculationIsSound(p.(nb := p.nb.(sendList := p.nb.sendList + [FullRecord(history, s)])));
      }
      BodyLoopIsSound(BodyStep(p, history, s), history, rx, k - 1);
    }
  }

  lemma ProcessForIsSound(nb: Neighbour, n: Node, m: Inbound)
    requires Sound(nb.validBuffer) && n.initTofSum >= 0
    ensures var p := ProcessFor(nb, n, m).0;
            Sound(p.nb.validBuffer) && p.initTofSum >= 0 && Grows(nb.validBuffer, p.nb.validBuffer)
  {
    hide HeaderLoop, BodyLoop, Sound;
    var heard := nb.(receiveList := AddReceived(nb.receiveList, m.rx, m.msg.seqNo));
    var p := Progress(heard, n.initTofSum, None);
    HeaderLoopIsSound(p, m.msg.tx, MESSAGE_HEAD_TX_SIZE);
    var h := HeaderLoop(p, m.msg.tx, MESSAGE_HEAD_TX_SIZE);
    var unit := UnitTo(m.msg.units, n.address);
    if unit != NULL_INDEX {
      BodyLoopIsSound(h.(distance := None), n.history, m.msg.units[unit].rx, MESSAGE_BODY_RX_SIZE);
    }
  }

  lemma ProcessIsSound(n: Node, m: Inbound)
    requires SoundNode(n)
    ensures SoundNode(Process(n, m).node)
    ensures var after := Process(n, m).node;
            && |n.neighbours| <= |after.neighbours|
            && forall i :: 0 <= i < |n.neighbours| ==>
               Grows(n.neighbours[i].validBuffer, after.neighbours[i].validBuffer)
  {
    hide ProcessFor, Sound;
    var neighbours := Register(n.neighbours, m.msg.src);
    assert forall nb <- neighbours :: Sound(nb.validBuffer) by { EmptyIsSound(); }
    var i := FindNeighbour(neighbours, m.msg.src);
    if i != NULL_INDEX {
      ProcessForIsSound(neighbours[i], n, m);
    }
  }

  lemma EmptyIsSound()
    ensures Sound(EmptyBuffer)
  {
  }

  // ---------------------------------------------------------------- runs of one drone

  /** One drone's own events: it generates and stamps a message, or it processes a received one. */
  datatype Event = Sent(time: nat) | Received(m: Inbound)

  function Apply(n: Node, e: Event): Node {
    match e
    case Sent(time) => AddLocalSend(AfterGenerate(n), time)
    case Received(m) => Process(n, m).node
  }

  function Run(n: Node, events: seq<Event>): Node
    decreases |events|
  {
    if events == [] then n else Run(Apply(n, events[0]), events[1..])
  }

  /** Over every run, with any messages whatsoever, the two lengths agree for every neighbour, nothing stored
      is negative, and no buffer ever shrinks. */
  lemma {:induction false} EveryRunIsSound(n: Node, events: seq<Event>)
    requires SoundNode(n)
    ensures SoundNode(Run(n, events))
    ensures forall nb <- Run(n, events).neighbours :: Length(nb.validBuffer.send) == Length(nb.validBuffer.receive)
    ensures var after := Run(n, events);
            && |n.neighbours| <= |after.neighbours|
            && forall i :: 0 <= i < |n.neighbours| ==>
               Grows(n.neighbours[i].validBuffer, after.neighbours[i].validBuffer)
    decreases |events|
  {
    hide Process, NonNegative;
    if events != [] {
      match events[0] {
        case Received(m) => ProcessIsSound(n, m);
        case Sent(_) =>
      }
      EveryRunIsSound(Apply(n, events[0]), events[1..]);
    }
  }
}
