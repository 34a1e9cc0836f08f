/** The protocol's results, stated for every reachable state and every run of any number of drones. */
module ProtocolTheorems {
  import opened Config
  import opened RangingListSpec
  import opened RangingBufferSpec
  import opened NodeSpec
  import opened LossTolerance
  import opened ExactlyOnce
  import opened Phases
  import opened Pairing
  import opened Protocol
  import opened ProtocolProof

  function Buf(x: Drone, e: nat): Buffer { Table(x.node, Addr(e)).validBuffer }

  /** When drone d sent its message number seqNo. */
  ghost predicate SentAt(s: System, d: nat, seqNo: nat, time: nat) {
    d < |s| && 1 <= seqNo <= |s[d].node.history| && s[d].node.history[seqNo - 1].time == time
  }

  /** When drone d heard message number seqNo of drone e. */
  ghost predicate HeardAt(s: System, d: nat, e: nat, seqNo: nat, time: nat) {
    d < |s| && e < |s[d].heard| && seqNo in s[d].heard[e] && s[d].heard[e][seqNo] == time
  }

  /** One step, and any number of steps. */
  ghost predicate StepsTo(s: System, s': System) {
    Shaped(s) && exists step :: Enabled(s, step) && s' == Next(s, step)
  }

  ghost predicate LeadsTo(s: System, s': System) { exists steps :: IsRun(s, steps, s') }

  /** Pairing. Whatever is lost and however the steps interleave: a record of the send list holds the time
      this drone sent that message and the time the neighbour heard it; a filled record of the receive list holds
      the time the neighbour sent it and the time this drone heard it. */
  lemma PairingTheorem(s: System, d: nat, e: nat)
    requires Reachable(s) && d < |s| && e < |s| && d != e
    ensures forall r <- Sl(s[d], e) ::
              r.remoteSeq == r.localSeq && SentAt(s, d, r.localSeq, r.tx) && HeardAt(s, e, d, r.localSeq, r.rx)
    ensures forall r <- Rl(s[d], e) :: r.remoteSeq != NULL_SEQ ==>
              r.remoteSeq == r.localSeq && SentAt(s, e, r.localSeq, r.tx) && HeardAt(s, d, e, r.localSeq, r.rx)
  {
    hide Rl, Sl, Tolerant, Receiving, PushedOnce, QueuedPast, BuffersOk, OwnInv, Outgoing, Reachable;
    ReachableInv(s);
    assert PairInv(s[d], s[e], d, e);
    assert PairInv(s[e], s[d], e, d);
    forall r | r in Rl(s[d], e) && r.remoteSeq != NULL_SEQ
      ensures r.remoteSeq == r.localSeq && SentAt(s, e, r.localSeq, r.tx) && HeardAt(s, d, e, r.localSeq, r.rx)
    {
      assert Filled(r);
    }
  }

  /** Both halves of every stored calculation record are true pairs as well, unless a message was processed during the
      initialization while the ring showed a stale Tx time. What is lost after the initialization does not matter. */
  lemma BufferPairingTheorem(s: System, d: nat, e: nat)
    requires Reachable(s) && Shaped(s) && d < |s| && e < |s| && d != e && s[d].clean[e]
    ensures forall b <- Buf(s[d], e).send + Buf(s[d], e).receive ::
              && SentAt(s, d, b.txSeq, b.sendTx) && HeardAt(s, e, d, b.txSeq, b.sendRx)
              && SentAt(s, e, b.rxSeq, b.receiveTx) && HeardAt(s, d, e, b.rxSeq, b.receiveRx)
  {
    hide Rl, Sl, Tolerant, SmallGaps, FreshSlots, Receiving, PushedOnce, QueuedPast, Paired, OwnInv, Outgoing,
         Reachable, Ordered;
    ReachableInv(s);
    assert PairInv(s[d], s[e], d, e);
    assert PairInv(s[e], s[d], e, d);
  }

  /** When that is the case: if at most two messages in a row were ever lost; if no more receptions were made than the
      ring has slots; and, after the initialization, in every state that follows one where it was. */
  lemma CleanTheorem(s: System, s': System, d: nat, e: nat)
    requires Reachable(s) && LeadsTo(s, s') && d < |s| && e < |s| && d != e
    ensures Shaped(s) && Shaped(s') && |s'| == |s|
    ensures SmallGaps(Rl(s[d], e)) || |Rl(s[d], e)| <= RANGING_LIST_SIZE ==> s[d].clean[e]
    ensures s[d].clean[e] && !Initializing(Buf(s[d], e)) ==> s'[d].clean[e] && !Initializing(Buf(s'[d], e))
  {
    hide Rl, Sl, Tolerant, SmallGaps, FreshSlots, Receiving, PushedOnce, QueuedPast, Paired, OwnInv, Outgoing,
         Reachable, Ordered, IsRun, Initializing, Buf, Inv;
    ReachableInv(s);
    assert PairInv(s[d], s[e], d, e) by { PairOf(s, d, e); }
    var steps :| IsRun(s, steps, s');
    CleanOverRun(s, steps, s', d, e);
  }

  lemma PairOf(s: System, d: nat, e: nat)
    requires Inv(s) && d < |s| && e < |s| && d != e
    ensures PairInv(s[d], s[e], d, e)
  {
    hide PairInv;
  }

  lemma {:induction false} CleanOverRun(s: System, steps: seq<Step>, s': System, d: nat, e: nat)
    requires Inv(s) && Shaped(s) && IsRun(s, steps, s') && d < |s| && e < |s| && d != e
    ensures Shaped(s') && |s'| == |s|
    ensures s[d].clean[e] && !Initializing(Buf(s[d], e)) ==> s'[d].clean[e] && !Initializing(Buf(s'[d], e))
    decreases |steps|
  {
    hide Inv, Next, Initializing, Buf, Enabled;
    if steps != [] {
      CleanOfStep(s, steps[0], d, e);
      StepKeepsInv(s, steps[0]);
      NextSize(s, steps[0]);
      CleanOverRun(Next(s, steps[0]), steps[1..], s', d, e);
    }
  }

  lemma CleanOfStep(s: System, step: Step, d: nat, e: nat)
    requires Inv(s) && Shaped(s) && Enabled(s, step) && d < |s| && e < |s| && d != e
    ensures |Next(s, step)| == |s| && e < |Next(s, step)[d].clean|
    ensures s[d].clean[e] && !Initializing(Buf(s[d], e)) ==>
              Next(s, step)[d].clean[e] && !Initializing(Buf(Next(s, step)[d], e))
  {
    hide Inv, OwnInv, PairInv, Process, Rl, Table, NoStale, NextReceiveList, Room;
    var x := s[d];
    if step.d == d {
      assert OwnInv(x, d, |s|) by { OwnOf(s, d); }
      if step.ProcessStep? {
        HeadSender(x, d, |s|);
        OwnDistinct(x, d, |s|);
        BufferAfterProcess(x, SenderOf(x), e);
      } else {
        RlOf(x, After(s, step));
      }
    }
  }

  lemma OwnOf(s: System, d: nat)
    requires Inv(s) && d < |s|
    ensures OwnInv(s[d], d, |s|)
  {
    hide OwnInv;
  }

  /** Processing never shrinks a buffer. */
  lemma BufferAfterProcess(x: Drone, e0: nat, e: nat)
    requires SoundNode(x.node) && Distinct(x.node.neighbours) && x.inbox != [] && x.inbox[0].msg.src == Addr(e0)
    ensures var after := Process(x.node, x.inbox[0]).node;
            !Initializing(Buf(x, e)) ==> !Initializing(Table(after, Addr(e)).validBuffer)
  {
    hide Process, ProcessFor, Table, Distinct, Room, Sound, SoundNode;
    var m := x.inbox[0];
    TableAfterProcess(x.node, m, Addr(e));
    SoundTable(x.node, Addr(e0));
    ProcessForIsSound(Table(x.node, Addr(e0)), x.node, m);
  }

  lemma SoundTable(n: Node, address: nat)
    requires SoundNode(n)
    ensures Sound(Table(n, address).validBuffer) && n.initTofSum >= 0
  {
    hide Sound;
    EmptyIsSound();
  }

  /** Loss tolerance. The record of the reception of n, followed by the reception of m, has its Tx half exactly if
      m - n <= MESSAGE_HEAD_TX_SIZE; the newest record never has. */
  lemma ToleranceTheorem(s: System, d: nat, e: nat)
    requires Reachable(s) && d < |s| && e < |s| && d != e
    ensures var log := Rl(s[d], e);
            && (forall i, j :: 0 <= i < j < |log| ==> log[i].localSeq < log[j].localSeq)
            && (forall i :: 0 <= i < |log| - 1 ==>
                  (log[i].remoteSeq != NULL_SEQ <==> log[i + 1].localSeq - log[i].localSeq <= MESSAGE_HEAD_TX_SIZE))
            && (log != [] ==> Last(log).remoteSeq == NULL_SEQ)
  {
    hide Rl, SendListTrue, ReceiveListTrue, Receiving, PushedOnce, QueuedPast, BuffersOk, OwnInv, Outgoing, Reachable;
    ReachableInv(s);
    assert PairInv(s[d], s[e], d, e);
    var log := Rl(s[d], e);
    assert forall i :: 0 <= i < |log| ==> (Filled(log[i]) <==> log[i].remoteSeq != NULL_SEQ);
  }

  /** One step changes a receive list only by hearing one later message, which fills at most the record that was the
      newest before; so every record is filled at most once and the fills come in increasing order. */
  lemma FillTheorem(s: System, s': System, d: nat, e: nat)
    requires Reachable(s) && StepsTo(s, s') && d < |s| && e < |s| && d != e
    ensures |s'| == |s|
    ensures var before, after := Rl(s[d], e), Rl(s'[d], e);
            || after == before
            || (|after| == |before| + 1
                && (before != [] ==> Last(before).localSeq < Last(after).localSeq)
                && forall i :: 0 <= i < |before| - 1 ==> after[i] == before[i])
  {
    hide Rl, Reachable, Enabled, Next;
    ReachableInv(s);
    var step :| Enabled(s, step) && s' == Next(s, step);
    NextSize(s, step);
    FillOfStep(s, step, d, e);
  }

  lemma FillOfStep(s: System, step: Step, d: nat, e: nat)
    requires Inv(s) && Shaped(s) && Enabled(s, step) && d < |s| && e < |s| && d != e
    ensures |Next(s, step)| == |s|
    ensures var before, after := Rl(s[d], e), Rl(Next(s, step)[d], e);
            || after == before
            || (|after| == |before| + 1
                && (before != [] ==> Last(before).localSeq < Last(after).localSeq)
                && forall i :: 0 <= i < |before| - 1 ==> after[i] == before[i])
  {
    hide Rl, Tolerant, OwnInv, Outgoing, Process, NextReceiveList, Receiving, Paired, PushedOnce, QueuedPast,
         BuffersOk, Reachable;
    assert PairInv(s[d], s[e], d, e) && Outgoing(s[e], d) && OwnInv(s[d], d, |s|) && OwnInv(s[e], e, |s|);
    var x := s[d];
    if step.d == d {
      if step.ProcessStep? {
        HeadSender(x, d, |s|);
        var e0 := SenderOf(x);
        if e0 == e && Room(x.node, Addr(e)) {
          ProcessRl(x, s[e], d, e, |s|);
          HeadIsTrue(x, s[e], d, e, |s|);
          var m := x.inbox[0];
          NextListKeepsOlder(Rl(x, e), m.msg.seqNo, m.rx, m.msg.tx);
        } else {
          ProcessOtherTables(x, e0, Known(s[e0], x.inbox[0].msg.seqNo, d), e);
          assert Rl(After(s, step), e) == Rl(x, e) by { SameTableSameList(After(s, step), x, e); }
        }
      } else {
        RlOf(x, After(s, step));
      }
    }
  }

  lemma SameTableSameList(x: Drone, y: Drone, e: nat)
    requires Table(x.node, Addr(e)) == Table(y.node, Addr(e))
    ensures Rl(x, e) == Rl(y, e) && Sl(x, e) == Sl(y, e)
  {
  }

  lemma NextListKeepsOlder(log: Log, m: nat, rx: nat, tx: HeadStamps)
    requires LastSeq(log) < m
    ensures var next := NextReceiveList(log, m, rx, tx);
            && |next| == |log| + 1 && (log != [] ==> Last(log).localSeq < Last(next).localSeq)
            && forall i :: 0 <= i < |log| - 1 ==> next[i] == log[i]
  {
    hide StaleTx;
  }

  lemma SendListGrows(s: System, step: Step, d: nat, e: nat)
    requires Inv(s) && Shaped(s) && Enabled(s, step) && d < |s| && e < |s| && d != e
    ensures Sl(s[d], e) <= Sl(Next(s, step)[d], e)
  {
    hide Sl, Tolerant, Outgoing, Process, Receiving, Paired, PushedOnce, QueuedPast, BuffersOk, OwnInv, Room;
    assert PairInv(s[d], s[e], d, e) && PairInv(s[e], s[d], e, d) && Outgoing(s[e], d) && OwnInv(s[d], d, |s|);
    assert OwnInv(s[e], e, |s|);
    var x := s[d];
    if step.d == d {
      if step.ProcessStep? {
        HeadSender(x, d, |s|);
        var e0 := SenderOf(x);
        if e0 == e && Room(x.node, Addr(e)) {
          ProcessPushes(x, s[e], d, e, |s|);
        } else {
          ProcessOtherTables(x, e0, Known(s[e0], x.inbox[0].msg.seqNo, d), e);
          SameTableSameList(After(s, step), x, e);
        }
      } else {
        RlOf(x, After(s, step));
      }
    }
  }

  /** Exactly once. Over any run the records pushed into a neighbour's send list only ever get more, and their
      sequence numbers, over the whole run, are strictly increasing: no number is pushed, and hence used in a
      calculation, twice, although reports repeat and the ring remembers only ten of them. */
  lemma ExactlyOnceTheorem(s: System, s': System, d: nat, e: nat)
    requires Reachable(s) && LeadsTo(s, s') && d < |s| && e < |s| && d != e
    ensures |s'| == |s| && Sl(s[d], e) <= Sl(s'[d], e)
    ensures var pushes := Sl(s'[d], e); forall i, j :: 0 <= i < j < |pushes| ==> pushes[i].localSeq < pushes[j].localSeq
  {
    hide Inv, Sl, Reachable, IsRun;
    ReachableInv(s);
    var steps :| IsRun(s, steps, s');
    PushesOverRun(s, steps, s', d, e);
  }

  lemma {:induction false} PushesOverRun(s: System, steps: seq<Step>, s': System, d: nat, e: nat)
    requires Inv(s) && Shaped(s) && IsRun(s, steps, s') && d < |s| && e < |s| && d != e
    ensures |s'| == |s| && Sl(s[d], e) <= Sl(s'[d], e)
    ensures var pushes := Sl(s'[d], e); forall i, j :: 0 <= i < j < |pushes| ==> pushes[i].localSeq < pushes[j].localSeq
    decreases |steps|
  {
    hide Inv, Next, Sl, Increasing;
    RunKeepsInv(s, steps, s');
    if steps != [] {
      SendListGrows(s, steps[0], d, e);
      StepKeepsInv(s, steps[0]);
      NextSize(s, steps[0]);
      PushesOverRun(Next(s, steps[0]), steps[1..], s', d, e);
    } else {
      PushesIncrease(s, d, e);
    }
  }

  lemma NextSize(s: System, step: Step)
    requires Shaped(s) && Enabled(s, step)
    ensures |Next(s, step)| == |s|
  {
  }

  lemma PushesIncrease(s: System, d: nat, e: nat)
    requires Inv(s) && d < |s| && e < |s| && d != e
    ensures var pushes := Sl(s[d], e); forall i, j :: 0 <= i < j < |pushes| ==> pushes[i].localSeq < pushes[j].localSeq
  {
    hide Sl, Rl, Receiving, Paired, QueuedPast, BuffersOk, OwnInv, Outgoing, Seqs, InList;
    assert PairInv(s[d], s[e], d, e);
  }

  /** Nothing reported is missed: a reception in the window of the last report processed was pushed, unless its
      send has left the local send buffer. */
  lemma ReportedIsPushed(s: System, d: nat, e: nat, j: nat)
    requires Reachable(s) && d < |s| && e < |s| && d != e
    requires Shaped(s) && WindowStart(s[d].acked[e]) <= j < s[d].acked[e]
    ensures j < |Rl(s[e], d)|
    ensures (exists r <- Sl(s[d], e) :: r.localSeq == Rl(s[e], d)[j].localSeq)
         || Rl(s[e], d)[j].localSeq + LOCAL_SEND_BUFFER_SIZE <= |s[d].sent|
  {
    hide Sl, Rl, Receiving, Paired, QueuedPast, BuffersOk, Outgoing, Reachable;
    ReachableInv(s);
    assert PairInv(s[d], s[e], d, e) && OwnInv(s[d], d, |s|);
    var log := Sl(s[d], e);
    var heard := Seqs(Rl(s[e], d));
    CoveredOrForgotten(log, heard, s[d].acked[e], WindowStart(s[d].acked[e]), |s[d].node.history|, j);
    if InList(log, heard[j]) {
      var i :| 0 <= i < |log| && log[i].localSeq == heard[j];
      assert log[i] in log;
    }
  }
}
