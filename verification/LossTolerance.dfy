/** The receive side under message loss: which reception records ever get their Tx half. */
module LossTolerance {
  import opened Config
  import opened RangingListSpec
  import opened RangingBufferSpec
  import opened NodeSpec

  predicate Filled(node: ListNode) { node.remoteSeq != NULL_SEQ }

  function Last(log: Log): ListNode
    requires log != []
  {
    log[|log| - 1]
  }

  ghost predicate Increasing(log: Log) {
    && (forall i :: 0 <= i < |log| ==> log[i].localSeq != NULL_SEQ)
    && (forall i, j :: 0 <= i < j < |log| ==> log[i].localSeq < log[j].localSeq)
  }

  /** Receptions come in increasing order, a filled record pairs a message with itself, the newest record is
      still open, and a record followed by the reception of m is filled exactly if m is at most
      MESSAGE_HEAD_TX_SIZE sends later. */
  ghost predicate Tolerant(log: Log) {
    && Increasing(log)
    && (forall i :: 0 <= i < |log| && Filled(log[i]) ==> log[i].remoteSeq == log[i].localSeq)
    && (forall i :: 0 <= i < |log| - 1 ==>
          (Filled(log[i]) <==> log[i + 1].localSeq - log[i].localSeq <= MESSAGE_HEAD_TX_SIZE))
    && (log != [] ==> !Filled(Last(log)))
  }

  /** The header of message m names the sends m - 1, m - 2, m - 3, as far as they exist. */
  ghost predicate HeaderOf(tx: HeadStamps, m: nat) {
    forall i :: 0 <= i < MESSAGE_HEAD_TX_SIZE ==> tx[i].seqNo == if m > i + 1 then m - 1 - i else NULL_SEQ
  }

  lemma GeneratedHeader(history: History)
    requires Numbered(history)
    ensures HeaderOf(NewestSends(history), |history| + 1)
  {
  }

  /** Whether the reception of m still fills the record that was the newest so far. */
  predicate Reaches(log: Log, m: nat) {
    log != [] && 0 <= m - 1 - Last(log).localSeq < MESSAGE_HEAD_TX_SIZE
  }

  /** The receive list after message m: at most the newest record is filled, and m is appended. */
  function NextReceiveList(log: Log, m: nat, rx: nat, tx: HeadStamps): Log {
    var heard := AddReceived(log, rx, m);
    if Reaches(log, m) then
      FillTx(heard, |log| - 1, tx[m - 1 - Last(log).localSeq].time, Last(log).localSeq)
    else heard
  }

  /** The whole header loop, in closed form: at most one record is filled, hence at most one calculation made. */
  function HeaderEffect(p: Progress, log: Log, m: nat, rx: nat, tx: HeadStamps): Progress {
    var filled := p.(nb := p.nb.(receiveList := NextReceiveList(log, m, rx, tx)));
    if Reaches(log, m) then ReceiverCalculation(filled, |log| - 1, m - 1 - Last(log).localSeq) else filled
  }

  lemma NothingOpenNoStep(p: Progress, i: nat, s: Stamp)
    requires i < MESSAGE_HEAD_TX_SIZE
    requires s.seqNo != NULL_SEQ ==> forall j :: 0 <= j < |p.nb.receiveList| && TxOpen(p.nb.receiveList[j], s.seqNo)
                                       ==> TxDone(p.nb.receiveList[j], s.seqNo)
    ensures HeaderStep(p, i, s) == p
  {
    hide ReceiverCalculation, FillTx;
    var log := p.nb.receiveList;
    FindInMeaning(log, s.seqNo, Oldest(log), |log|);
  }

  lemma CalculationKeepsList(p: Progress, k: nat, i: nat)
    requires k < |p.nb.receiveList| && i < MESSAGE_HEAD_TX_SIZE
    ensures ReceiverCalculation(p, k, i).nb.receiveList == p.nb.receiveList
  {
    hide CalculateTof, InitializeCalculateTof, AverageSend, Length;
  }

  /** One timestamp of the header of m, while the newest older record is still open (`filled` is false) or
      has just been filled. */
  lemma OneStep(p: Progress, log: Log, m: nat, rx: nat, tx: HeadStamps, i: nat, filled: bool)
    requires Tolerant(log) && HeaderOf(tx, m) && i < MESSAGE_HEAD_TX_SIZE
    requires log != [] ==> Last(log).localSeq < m
    requires filled ==> Reaches(log, m) && p.nb.receiveList == NextReceiveList(log, m, rx, tx)
    requires !filled ==> p.nb.receiveList == AddReceived(log, rx, m)
    requires !filled && Reaches(log, m) ==> i != m - 1 - Last(log).localSeq
    ensures HeaderStep(p, i, tx[i]) == p
  {
    hide ReceiverCalculation, HeaderStep, StaleTx;
    var s := tx[i].seqNo;
    if s != NULL_SEQ {
      forall j | 0 <= j < |p.nb.receiveList| && TxOpen(p.nb.receiveList[j], s)
        ensures TxDone(p.nb.receiveList[j], s)
      {
        assert s == m - 1 - i;
        assert j < |log|;
        assert p.nb.receiveList[j].localSeq == log[j].localSeq;
        if j < |log| - 1 {
          assert log[j + 1].localSeq < m;
          assert Filled(log[j]);
        }
      }
    }
    NothingOpenNoStep(p, i, tx[i]);
  }

  lemma FillingStep(p: Progress, log: Log, m: nat, rx: nat, tx: HeadStamps, i: nat)
    requires Tolerant(log) && HeaderOf(tx, m) && Reaches(log, m) && i == m - 1 - Last(log).localSeq
    requires p.nb.receiveList == AddReceived(log, rx, m)
    ensures HeaderStep(p, i, tx[i]) == HeaderEffect(p, log, m, rx, tx)
    ensures HeaderEffect(p, log, m, rx, tx).nb.receiveList == NextReceiveList(log, m, rx, tx)
  {
    hide ReceiverCalculation, StaleTx;
    var heard := p.nb.receiveList;
    var s := Last(log).localSeq;
    assert tx[i].seqNo == s;
    assert TxOpen(heard[|log| - 1], s) && !TxDone(heard[|log| - 1], s);
    FindInHit(heard, s, Oldest(heard), |heard|, |log| - 1);
    CalculationKeepsList(p.(nb := p.nb.(receiveList := NextReceiveList(log, m, rx, tx))), |log| - 1, i);
  }

  /** The header loop of message m does exactly what its closed form says. */
  lemma HeaderLoopClosedForm(p: Progress, log: Log, m: nat, rx: nat, tx: HeadStamps)
    requires Tolerant(log) && HeaderOf(tx, m)
    requires log != [] ==> Last(log).localSeq < m
    requires p.nb.receiveList == AddReceived(log, rx, m)
    ensures HeaderLoop(p, tx, MESSAGE_HEAD_TX_SIZE) == HeaderEffect(p, log, m, rx, tx)
  {
    HeaderLoopFrom(p, log, m, rx, tx, MESSAGE_HEAD_TX_SIZE);
  }

  lemma {:induction false} HeaderLoopFrom(p: Progress, log: Log, m: nat, rx: nat, tx: HeadStamps, k: nat)
    requires Tolerant(log) && HeaderOf(tx, m) && k <= MESSAGE_HEAD_TX_SIZE
    requires log != [] ==> Last(log).localSeq < m
    requires p.nb.receiveList == AddReceived(log, rx, m)
    ensures HeaderLoop(p, tx, k) ==
            if Reaches(log, m) && m - 1 - Last(log).localSeq < k then HeaderEffect(p, log, m, rx, tx) else p
    decreases k
  {
    hide HeaderStep, HeaderEffect, Tolerant;
    if k != 0 {
      if Reaches(log, m) && m - 1 - Last(log).localSeq == k - 1 {
        FillingStep(p, log, m, rx, tx, k - 1);
        HeaderLoopAfter(HeaderEffect(p, log, m, rx, tx), log, m, rx, tx, k - 1);
      } else {
        OneStep(p, log, m, rx, tx, k - 1, false);
        HeaderLoopFrom(p, log, m, rx, tx, k - 1);
      }
    }
  }

  lemma {:induction false} HeaderLoopAfter(p: Progress, log: Log, m: nat, rx: nat, tx: HeadStamps, k: nat)
    requires Tolerant(log) && HeaderOf(tx, m) && k <= MESSAGE_HEAD_TX_SIZE
    requires log != [] ==> Last(log).localSeq < m
    requires Reaches(log, m) && p.nb.receiveList == NextReceiveList(log, m, rx, tx)
    ensures HeaderLoop(p, tx, k) == p
    decreases k
  {
    hide HeaderStep, Tolerant, NextReceiveList;
    if k != 0 {
      OneStep(p, log, m, rx, tx, k - 1, true);
      HeaderLoopAfter(p, log, m, rx, tx, k - 1);
    }
  }

  /** The loss tolerance is kept by every reception of a later message, whatever was lost in between. */
  lemma ReceptionKeepsTolerance(log: Log, m: nat, rx: nat, tx: HeadStamps)
    requires Tolerant(log) && m != NULL_SEQ && (log != [] ==> Last(log).localSeq < m)
    ensures Tolerant(NextReceiveList(log, m, rx, tx))
    ensures Last(NextReceiveList(log, m, rx, tx)).localSeq == m
  {
    hide StaleTx;
    var next := NextReceiveList(log, m, rx, tx);
    assert forall i :: 0 <= i < |log| ==> next[i].localSeq == log[i].localSeq;
    assert forall i :: 0 <= i < |log| - 1 ==> next[i] == log[i];
  }

  /** The receive list of the sender's table after a message of it. */
  lemma ProcessReceiveList(nb: Neighbour, n: Node, m: Inbound)
    requires Tolerant(nb.receiveList) && HeaderOf(m.msg.tx, m.msg.seqNo)
    requires nb.receiveList != [] ==> Last(nb.receiveList).localSeq < m.msg.seqNo
    ensures ProcessFor(nb, n, m).0.nb.receiveList == NextReceiveList(nb.receiveList, m.msg.seqNo, m.rx, m.msg.tx)
  {
    hide HeaderLoop, BodyLoop, NextReceiveList, HeaderEffect;
    var log := nb.receiveList;
    var heard := nb.(receiveList := AddReceived(log, m.rx, m.msg.seqNo));
    var p := Progress(heard, n.initTofSum, None);
    HeaderLoopClosedForm(p, log, m.msg.seqNo, m.rx, m.msg.tx);
    HeaderEffectList(p, log, m.msg.seqNo, m.rx, m.msg.tx);
    var h := HeaderLoop(p, m.msg.tx, MESSAGE_HEAD_TX_SIZE);
    var unit := UnitTo(m.msg.units, n.address);
    if unit != NULL_INDEX {
      BodyLoopKeeps(h.(distance := None), n.history, m.msg.units[unit].rx, MESSAGE_BODY_RX_SIZE);
    }
  }

  lemma HeaderEffectList(p: Progress, log: Log, m: nat, rx: nat, tx: HeadStamps)
    ensures HeaderEffect(p, log, m, rx, tx).nb.receiveList == NextReceiveList(log, m, rx, tx)
  {
    hide ReceiverCalculation;
    if Reaches(log, m) {
      CalculationKeepsList(p.(nb := p.nb.(receiveList := NextReceiveList(log, m, rx, tx))), |log| - 1,
                           m - 1 - Last(log).localSeq);
    }
  }
}
