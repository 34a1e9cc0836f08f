/** What the two calculations store on any link without clock drift, in terms of the true times of flight: the
    neighbour's clock runs `offset` ahead, and each message has its own flight time. */
module MovingLinks {
  import opened Config
  import opened TofMath
  import opened RangingListSpec
  import opened RangingBufferSpec

  lemma PlainInterval(later: nat, earlier: nat)
    requires earlier <= later < UWB_MAX_TIMESTAMP
    ensures Interval(later, earlier) == later - earlier
  {
  }

  /** Three messages in turn between two clocks: out, back and out again. Each left after the last one arrived. */
  ghost predicate InTurn(tx1: nat, rx1: nat, tx2: nat, rx2: nat, tx3: nat, rx3: nat) {
    tx1 <= rx2 <= tx3 < UWB_MAX_TIMESTAMP && rx1 <= tx2 <= rx3 < UWB_MAX_TIMESTAMP
  }

  /** Their times of flight. */
  ghost predicate Flights(tx1: nat, rx1: nat, tx2: nat, rx2: nat, tx3: nat, rx3: nat, offset: int, x1: int, x2: int,
      x3: int)
  {
    rx1 == tx1 + offset + x1 && rx2 == tx2 - offset + x2 && rx3 == tx3 + offset + x3
  }

  /** The round trips and the replies between them. */
  function Exchange(tx1: int, rx1: int, tx2: int, rx2: int, tx3: int, rx3: int): Quad
    requires tx1 <= rx2 <= tx3 && rx1 <= tx2 <= rx3
  {
    Quad(rx2 - tx1, rx3 - tx2, tx3 - rx2, tx2 - rx1)
  }

  // ---------------------------------------------------------------- calculateTof

  /** The messages of a calculation: for SENDER the stored send, the stored reception and the new send; for RECEIVER the
      stored reception, the stored send and the new reception. */
  ghost predicate CalculationInTurn(b: BufferNode, node: ListNode, status: Status) {
    if status.Sender? then InTurn(b.sendTx, b.sendRx, b.receiveTx, b.receiveRx, node.tx, node.rx)
    else InTurn(b.receiveTx, b.receiveRx, b.sendTx, b.sendRx, node.tx, node.rx)
  }

  ghost predicate CalculationFlights(b: BufferNode, node: ListNode, status: Status, offset: int, x1: int, x2: int,
      x3: int)
  {
    if status.Sender? then Flights(b.sendTx, b.sendRx, b.receiveTx, b.receiveRx, node.tx, node.rx, offset, x1, x2, x3)
    else Flights(b.receiveTx, b.receiveRx, b.sendTx, b.sendRx, node.tx, node.rx, offset, x1, x2, x3)
  }

  lemma CalculationQuadIs(b: BufferNode, node: ListNode, status: Status)
    requires CalculationInTurn(b, node, status)
    ensures QuadOf(b, node.tx, node.rx, status)
         == if status.Sender? then Exchange(b.sendTx, b.sendRx, b.receiveTx, b.receiveRx, node.tx, node.rx)
            else Exchange(b.receiveTx, b.receiveRx, b.sendTx, b.sendRx, node.tx, node.rx)
  {
    hide Interval;
    if status.Sender? {
      PlainInterval(b.receiveRx, b.sendTx);
      PlainInterval(node.rx, b.receiveTx);
      PlainInterval(node.tx, b.receiveRx);
      PlainInterval(b.receiveTx, b.sendRx);
    } else {
      PlainInterval(b.sendRx, b.receiveTx);
      PlainInterval(node.rx, b.sendTx);
      PlainInterval(node.tx, b.sendRx);
      PlainInterval(b.sendTx, b.receiveRx);
    }
  }

  /** One recurrence step on a moving link. From a record whose T12 is the true sum of the first two flights, T23 is
      the true sum of the last two if the branch over Db runs, and lies between the two true sums if the one over Da
      does; without a branch it is the whole part of their mean, weighted as in an initialization. */
  lemma CalculationOnMovingLink(b: BufferNode, node: ListNode, status: Status, offset: int, x1: int, x2: int, x3: int)
    requires CalculationInTurn(b, node, status) && CalculationFlights(b, node, status, offset, x1, x2, x3)
    requires b.sumTof == (x1 + x2) as real
    requires var q := QuadOf(b, node.tx, node.rx, status); q.da > 0 && q.db > 0
    ensures var (q, t23) := (QuadOf(b, node.tx, node.rx, status), T23Of(b, node, status));
            && DriftFree(q, x1 + x2, x2 + x3) && t23.Some?
            && (RecurrenceTaken(q) ==> Between(t23.value, (x1 + x2) as real, (x2 + x3) as real))
            && (RecurrenceTaken(q) && q.ra * q.db >= q.rb * q.da ==> t23.value == (x2 + x3) as real)
            && (!RecurrenceTaken(q) ==>
                  IsWholePart(t23.value, (q.da + q.rb) * (x1 + x2) + (q.ra + q.db) * (x2 + x3), q.Sum()))
  {
    hide QuadOf, Estimate, ClassicTof;
    CalculationQuadIs(b, node, status);
    var q := QuadOf(b, node.tx, node.rx, status);
    BranchTests(q);
    if RecurrenceTaken(q) {
      MovingLink(q, x1 + x2, x2 + x3);
    } else {
      EstimateSolves(q, b.sumTof);
      ExcessWeighsSums(q, x1 + x2, x2 + x3);
    }
  }

  // ---------------------------------------------------------------- initializeCalculateTof

  /** What an initialization does with its triple, for all timestamps: nothing, if the four intervals are all zero or
      their excess is negative; otherwise both halves gain a record of the triple with the same sum, twice the classic
      estimate, and the total grows by the whole part of half of it. The newer message goes to the half of `status`. */
  lemma InitializationStores(listA: Log, listB: Log, a1: nat, buf: Buffer, sum: nat, status: Status)
    requires a1 < |listA| && FindTriple(listA, listB, a1, status).Some?
    ensures var triple := FindTriple(listA, listB, a1, status).value;
            var (x1, x2, x3) := (listA[triple.a3], listB[triple.b2], listA[a1]);
            var (q, r) := (InitQuad(x3, x2, x1), InitializeCalculateTof(listA, listB, a1, buf, sum, status));
            if q.Sum() == 0 || Excess(q) < 0 then r == InitResult(buf, sum)
            else StoredTriple(buf, r, x1, x2, x3, status, q, sum)
  {
    TripleBounds(listA, listB, a1, status);
    hide FindTriple, InitQuad, ClassicTof, InitNodes, TruncateReal, Excess, Quad.Sum, StoredTriple;
    var triple := FindTriple(listA, listB, a1, status).value;
    var (x1, x2, x3) := (listA[triple.a3], listB[triple.b2], listA[a1]);
    var q := InitQuad(x3, x2, x1);
    if q.Sum() > 0 {
      ClassicSolves(q);
      if ClassicTof(q) >= 0.0 { NodesAreStored(buf, x1, x2, x3, status, q, sum); }
    }
  }

  lemma NodesAreStored(buf: Buffer, first: ListNode, second: ListNode, third: ListNode, status: Status, q: Quad,
        sum: nat)
    requires q.Sum() > 0 && ClassicTof(q) >= 0.0
    ensures var (s, v) := InitNodes(third, second, first, ClassicTof(q) * 2.0, status);
            var r := InitResult(Buffer(buf.send + [s], buf.receive + [v]),
                                TruncateReal(sum as real + ClassicTof(q)));
            StoredTriple(buf, r, first, second, third, status, q, sum)
  {
    hide ClassicTof, Excess, Quad.Sum, TruncateReal;
    ClassicSolves(q);
    var x := ClassicTof(q);
    TwiceScaled(x, q.Sum() as real, Excess(q));
    WholePart(sum, x);
  }

  lemma TwiceScaled(x: real, s: real, n: int)
    requires x * s == n as real
    ensures (x * 2.0) * s == (2 * n) as real && x * 2.0 / 2.0 == x
  {
    assert (x * 2.0) * s == 2.0 * (x * s);
  }

  lemma TripleBounds(listA: Log, listB: Log, a1: nat, status: Status)
    requires a1 < |listA|
    ensures var triple := FindTriple(listA, listB, a1, status);
            triple.Some? ==> 0 <= triple.value.b2 < |listB| && 0 <= triple.value.a3 < |listA|
  {
    hide Nearest, IsNearest;
  }

  lemma WholePart(sum: nat, x: real)
    requires x >= 0.0
    ensures TruncateReal(sum as real + x) == sum + x.Floor
  {
    assert (sum as real + x).Floor == sum + x.Floor;
  }

  ghost predicate StoredTriple(buf: Buffer, r: InitResult, first: ListNode, second: ListNode, third: ListNode,
      status: Status, q: Quad, sum: nat)
  {
    && |r.buf.send| == |buf.send| + 1 && buf.send <= r.buf.send
    && |r.buf.receive| == |buf.receive| + 1 && buf.receive <= r.buf.receive
    && var (s, v) := (r.buf.send[|buf.send|], r.buf.receive[|buf.receive|]);
       && s.sumTof == v.sumTof && s.sumTof * q.Sum() as real == (2 * Excess(q)) as real
       && r.initTofSum == sum + (s.sumTof / 2.0).Floor
       && (status.Sender? ==> OfSend(s, third) && OfReception(s, second) && OfSend(v, first) && OfReception(v, second))
       && (status.Receiver? ==>
             OfSend(s, second) && OfReception(s, first) && OfSend(v, second) && OfReception(v, third))
  }

  ghost predicate OfSend(b: BufferNode, node: ListNode) {
    b.sendTx == node.tx && b.sendRx == node.rx && b.txSeq == node.localSeq
  }

  ghost predicate OfReception(b: BufferNode, node: ListNode) {
    b.receiveTx == node.tx && b.receiveRx == node.rx && b.rxSeq == node.localSeq
  }

  lemma InitQuadIs(first: ListNode, second: ListNode, third: ListNode)
    requires InTurn(first.tx, first.rx, second.tx, second.rx, third.tx, third.rx)
    ensures InitQuad(third, second, first) == Exchange(first.tx, first.rx, second.tx, second.rx, third.tx, third.rx)
  {
    hide Interval;
    PlainInterval(second.rx, first.tx);
    PlainInterval(third.rx, second.tx);
    PlainInterval(third.tx, second.rx);
    PlainInterval(second.tx, first.rx);
  }

  /** How long both sides measured around the first two flights, or around the last two. */
  function Weight12(second: ListNode, third: ListNode): int { (third.tx - second.rx) + (third.rx - second.tx) }

  function Weight23(first: ListNode, second: ListNode): int { (second.rx - first.tx) + (second.tx - first.rx) }

  function Weighted(w12: int, t12: int, w23: int, t23: int): int { w12 * t12 + w23 * t23 }

  lemma ExchangeIsWeighted(first: ListNode, second: ListNode, third: ListNode, offset: int, x1: int, x2: int, x3: int)
    requires InTurn(first.tx, first.rx, second.tx, second.rx, third.tx, third.rx)
    requires Flights(first.tx, first.rx, second.tx, second.rx, third.tx, third.rx, offset, x1, x2, x3)
    ensures var q := Exchange(first.tx, first.rx, second.tx, second.rx, third.tx, third.rx);
            var (w12, w23) := (Weight12(second, third), Weight23(first, second));
            q.Sum() == w12 + w23 && 2 * Excess(q) == Weighted(w12, x1 + x2, w23, x2 + x3)
  {
    hide Excess;
    var q := Exchange(first.tx, first.rx, second.tx, second.rx, third.tx, third.rx);
    ExcessWeighsSums(q, x1 + x2, x2 + x3);
  }

  /** Both halves gained a record that holds the weighted mean, and the total grew by the whole part of half of it. */
  ghost predicate HoldsMean(buf: Buffer, r: InitResult, sum: nat, weighted: int, weight: int) {
    && |r.buf.send| == |buf.send| + 1 && |r.buf.receive| == |buf.receive| + 1
    && var t := r.buf.send[|buf.send|].sumTof;
       && r.buf.receive[|buf.receive|].sumTof == t && t * weight as real == weighted as real
       && r.initTofSum == sum + (t / 2.0).Floor
  }

  /** An initialization on a moving link: the stored sum is the mean of the two true sums, weighted with the times that
      both sides measured; it is stored exactly if that is not negative. */
  lemma InitializationOnMovingLink(listA: Log, listB: Log, a1: nat, buf: Buffer, sum: nat, status: Status,
      offset: int, x1: int, x2: int, x3: int)
    requires a1 < |listA| && FindTriple(listA, listB, a1, status).Some?
    requires var triple := FindTriple(listA, listB, a1, status).value;
             var (first, second, third) := (listA[triple.a3], listB[triple.b2], listA[a1]);
             && InTurn(first.tx, first.rx, second.tx, second.rx, third.tx, third.rx)
             && Flights(first.tx, first.rx, second.tx, second.rx, third.tx, third.rx, offset, x1, x2, x3)
    ensures var triple := FindTriple(listA, listB, a1, status).value;
            var (first, second, third) := (listA[triple.a3], listB[triple.b2], listA[a1]);
            var (w12, w23) := (Weight12(second, third), Weight23(first, second));
            var weighted := Weighted(w12, x1 + x2, w23, x2 + x3);
            var r := InitializeCalculateTof(listA, listB, a1, buf, sum, status);
            if w12 + w23 == 0 || weighted < 0 then r == InitResult(buf, sum)
            else HoldsMean(buf, r, sum, weighted, w12 + w23)
  {
    TripleBounds(listA, listB, a1, status);
    hide *;
    var triple := FindTriple(listA, listB, a1, status).value;
    var (first, second, third) := (listA[triple.a3], listB[triple.b2], listA[a1]);
    InitializationStores(listA, listB, a1, buf, sum, status);
    MeanOfFlights(buf, InitializeCalculateTof(listA, listB, a1, buf, sum, status), first, second, third, status, sum,
      offset, x1, x2, x3);
  }

  lemma MeanOfFlights(buf: Buffer, r: InitResult, first: ListNode, second: ListNode, third: ListNode, status: Status,
      sum: nat, offset: int, x1: int, x2: int, x3: int)
    requires InTurn(first.tx, first.rx, second.tx, second.rx, third.tx, third.rx)
    requires Flights(first.tx, first.rx, second.tx, second.rx, third.tx, third.rx, offset, x1, x2, x3)
    requires var q := InitQuad(third, second, first);
             if q.Sum() == 0 || Excess(q) < 0 then r == InitResult(buf, sum)
             else StoredTriple(buf, r, first, second, third, status, q, sum)
    ensures var (w12, w23) := (Weight12(second, third), Weight23(first, second));
            var weighted := Weighted(w12, x1 + x2, w23, x2 + x3);
            if w12 + w23 == 0 || weighted < 0 then r == InitResult(buf, sum)
            else HoldsMean(buf, r, sum, weighted, w12 + w23)
  {
    hide InitQuad, Excess, Exchange, InTurn, Flights, Weight12, Weight23, Weighted, Quad.Sum, OfSend, OfReception;
    InTurnBounds(first, second, third);
    InitQuadIs(first, second, third);
    ExchangeIsWeighted(first, second, third, offset, x1, x2, x3);
  }

  lemma InTurnBounds(first: ListNode, second: ListNode, third: ListNode)
    requires InTurn(first.tx, first.rx, second.tx, second.rx, third.tx, third.rx)
    ensures first.tx <= second.rx <= third.tx && first.rx <= second.tx <= third.rx
  {
  }
}
