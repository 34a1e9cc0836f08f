/** Drones that take turns: what one of them holds of the other after so many messages, and what the next one adds. */
module Conversation {
  import opened Config
  import opened RangingListSpec
  import opened NodeSpec
  import opened LossTolerance
  import opened ExactlyOnce
  import opened Phases
  import opened Pairing
  import opened Exactness
  import opened Protocol
  import opened ProtocolProof
  import opened ProtocolTheorems
  import opened SharedSum
  import opened Progress

  function UpTo(c: nat): seq<nat> { seq(c, i => i + 1) }

  /** A list of the receptions 1, 2, 3, ... has no gaps. */
  lemma NoGaps(log: Log, c: nat)
    requires Seqs(log) == UpTo(c)
    ensures |log| == c && SmallGaps(log) && LastSeq(log) == c
  {
    assert forall i :: 0 <= i < |log| ==> log[i].localSeq == i + 1;
  }

  /** Drone x has heard the messages 1 to c of drone e, and the reports processed so far covered its own messages 1 to
      q; from the second message on the table is woven, and pairs have been stored at the pace of two a message. */
  ghost predicate Conversed(x: Drone, e: nat, c: nat, q: nat) {
    && e < |x.acked| && Seqs(Rl(x, e)) == UpTo(c) && x.acked[e] == q <= c <= q + 1
    && (c >= 2 && q >= 1 ==> Woven(Table(x.node, Addr(e))))
    && (c + q >= 3 ==> Pairs(Buf(x, e)) >= AtMostAll(c + q - 3))
  }

  /** What is pushed while reports have covered the first q of the heard sends 1 to own, of `sent` in all. */
  lemma PushedUpTo(sendList: Log, heard: seq<nat>, q: nat, own: nat, sent: nat)
    requires heard == UpTo(own) && UpToReport(sendList, heard, q, sent) && q <= own && sent < q + LOCAL_SEND_BUFFER_SIZE
    ensures q == 0 ==> sendList == []
    ensures q >= 1 ==> sendList != [] && Last(sendList).localSeq == q
  {
    forall i | 0 <= i < |sendList|
      ensures 1 <= sendList[i].localSeq <= q
    {
      var j :| 0 <= j < q && heard[..q][j] == sendList[i].localSeq;
    }
    if q >= 1 {
      assert heard[q - 1] == q;
      assert InList(sendList, q);
      var i :| 0 <= i < |sendList| && sendList[i].localSeq == q;
      assert i == |sendList| - 1;
    }
  }

  /** A report that covers exactly one more send pushes it. */
  lemma OneMorePush(x: Drone, y: Drone, d: nat, e: nat, n: nat, q: nat)
    requires OwnInv(x, d, n) && OwnInv(y, e, n) && d < n && e < n && d != e && Room(x.node, Addr(e))
    requires PairInv(x, y, d, e) && PairInv(y, x, e, d) && Outgoing(y, d) && x.inbox != []
    requires x.inbox[0].msg.src == Addr(e)
    requires x.acked[e] == q && Seqs(Rl(y, d)) == UpTo(q + 1) && |x.sent| == q + 1
    requires Known(y, x.inbox[0].msg.seqNo, d) == q + 1 && UnitTo(x.inbox[0].msg.units, Addr(d)) != NULL_INDEX
    requires x.node.history[q].time > LastRx(Rl(x, e))
    ensures (q == 0 ==> Sl(x, e) == []) && (q >= 1 ==> Sl(x, e) != [])
    ensures var after := ProcessFor(Table(x.node, Addr(e)), x.node, x.inbox[0]).0.nb.sendList;
            after != Sl(x, e) && PushesFollow(Sl(x, e), after, LastRx(Rl(x, e)))
  {
    hide SendListTrue, ReceiveListTrue, BufferTrue, UpToReport, Tolerant, Table, Process, Distinct, Outgoing, OwnInv,
         ProcessFor, Receiving, BuffersOk, QueuedPast, Rl, Sl, LastRx, Seqs, StaysClean;
    var m := x.inbox[0];
    OwnDistinct(x, d, n);
    var x' := ProcessedNext(x, e, Known(y, m.msg.seqNo, d));
    ProcessPushes(x, y, d, e, n);
    ProcessPaired(x, y, d, e, n);
    ProcessRl(x, y, d, e, n);
    TableAfterProcess(x.node, m, Addr(e));
    var before, after := Sl(x, e), Sl(x', e);
    PushedUpTo(before, Seqs(Rl(y, d)), q, q + 1, |x.sent|);
    PushedUpTo(after, Seqs(Rl(y, d)), q + 1, q + 1, |x.sent|);
    SameTableLists(x', e);
    forall i | |before| <= i < |after|
      ensures after[i].tx > LastRx(Rl(x, e))
    {
      NewPush(TruthOf(x', y, d, e), after, i, Seqs(Rl(y, d)), q, |x.sent|);
    }
  }

  lemma SameTableLists(x: Drone, e: nat)
    ensures Table(x.node, Addr(e)).receiveList == Rl(x, e) && Table(x.node, Addr(e)).sendList == Sl(x, e)
  {
  }

  lemma NewPush(t: Truth, sendList: Log, i: nat, heard: seq<nat>, q: nat, sent: nat)
    requires SendListTrue(t, sendList) && i < |sendList| && heard == UpTo(q + 1)
    requires UpToReport(sendList, heard, q + 1, sent)
    requires sendList[i].localSeq !in heard[..q]
    ensures q < |t.mine| && sendList[i].tx == t.mine[q].time
  {
    var s := sendList[i].localSeq;
    var j :| 0 <= j < q + 1 && heard[..q + 1][j] == s;
    assert heard[..q + 1] == heard[..q] + [q + 1];
    assert s == q + 1;
  }

  // ---------------------------------------------------------------- one more message

  lemma CleanNow(x: Drone, y: Drone, d: nat, e: nat, n: nat, c: nat)
    requires OwnInv(x, d, n) && OwnInv(y, e, n) && d < n && e < n && d != e && Room(x.node, Addr(e))
    requires PairInv(x, y, d, e) && Outgoing(y, d) && x.inbox != [] && x.inbox[0].msg.src == Addr(e)
    requires Seqs(Rl(x, e)) == UpTo(c) && x.inbox[0].msg.seqNo == c + 1
    ensures StaysClean(x, e) && Seqs(Rl(ProcessedNext(x, e, Known(y, x.inbox[0].msg.seqNo, d)), e)) == UpTo(c + 1)
    ensures c >= 1 ==> Reaches(Rl(x, e), x.inbox[0].msg.seqNo)
  {
    hide SendListTrue, ReceiveListTrue, BufferTrue, UpToReport, Tolerant, Table, Process, Distinct, Outgoing, OwnInv,
         ProcessFor, Receiving, PushedOnce, QueuedPast, Rl, Sl, Seqs, NoStale, SmallGaps, FreshSlots, NextReceiveList,
         Ordered;
    var m := x.inbox[0];
    NoGaps(Rl(x, e), c);
    OwnDistinct(x, d, n);
    ProcessRl(x, y, d, e, n);
    var next := NextReceiveList(Rl(x, e), m.msg.seqNo, m.rx, m.msg.tx);
    ReceptionLength(Rl(x, e), m.msg.seqNo, m.rx, m.msg.tx);
    AppendedSeqs(Rl(x, e), next, c);
    NoGaps(next, c + 1);
    SmallGapsNoStale(next);
    if c >= 1 { NewestIs(Rl(x, e)); }
  }

  lemma AppendedSeqs(log: Log, next: Log, c: nat)
    requires Seqs(log) == UpTo(c) && Seqs(log) <= Seqs(next) && |next| == |log| + 1 && LastSeq(next) == c + 1
    ensures Seqs(next) == UpTo(c + 1)
  {
    assert |log| == c by { NoGaps(log, c); }
    assert Seqs(next)[c] == c + 1;
    assert forall i :: 0 <= i < c ==> Seqs(next)[i] == UpTo(c)[i];
  }

  lemma TimesAreValid(x: Drone, y: Drone, d: nat, e: nat, n: nat)
    requires OwnInv(x, d, n) && OwnInv(y, e, n) && PairInv(x, y, d, e) && PairInv(y, x, e, d)
    ensures ValidTimes(TruthOf(x, y, d, e))
  {
    hide Paired, PushedOnce, QueuedPast, BuffersOk, Distinct, MessageOk, Rl, RxIncreasing, QueuedOk, SoundNode;
  }

  /** The next message, with a report of one more own message: the conversation goes on. */
  lemma HearsNext(x: Drone, y: Drone, d: nat, e: nat, n: nat, link: Link, c: nat, q: nat)
    requires OwnInv(x, d, n) && OwnInv(y, e, n) && d < n && e < n && d != e && Room(x.node, Addr(e))
    requires PairInv(x, y, d, e) && PairInv(y, x, e, d) && Outgoing(y, d) && x.inbox != []
    requires x.inbox[0].msg.src == Addr(e)
    requires Conversed(x, e, c, q) && x.inbox[0].msg.seqNo == c + 1
    requires Seqs(Rl(y, d)) == UpTo(q + 1) && |x.sent| == q + 1
    requires Known(y, x.inbox[0].msg.seqNo, d) == q + 1 && UnitTo(x.inbox[0].msg.units, Addr(d)) != NULL_INDEX
    requires x.node.history[q].time > LastRx(Rl(x, e)) && GoodLink(TruthOf(x, y, d, e), link)
    ensures Conversed(ProcessedNext(x, e, Known(y, x.inbox[0].msg.seqNo, d)), e, c + 1, q + 1)
  {
    hide PairInv, OwnInv, Outgoing, Process, ProcessFor, Rl, Sl, GoodLink, ValidTimes, GoodReception, Seqs, StaysClean,
         Room, Table, Woven, Pairs, SoundNode, Distinct, LastRx, PushesFollow, Reaches;
    var m := x.inbox[0];
    OwnDistinct(x, d, n);
    OwnDistinct(y, e, n);
    TimesAreValid(x, y, d, e, n);
    OneMorePush(x, y, d, e, n, q);
    CleanNow(x, y, d, e, n, c);
    HeadIsGood(x, y, d, e, n);
    TableAfterProcess(x.node, m, Addr(e));
    SoundTable(x.node, Addr(e));
    SameTableLists(x, e);
    NoGaps(Rl(x, e), c);
    if c >= 1 {
      NewestTime(Rl(x, e));
      MessageAddsPairs(TruthOf(x, y, d, e), link, Table(x.node, Addr(e)), x.node, m);
    }
  }

  lemma NewestTime(log: Log)
    requires log != []
    ensures LastRx(log) == Last(log).rx
  {
  }

  /** The first message, before there was anything to report. */
  lemma HearsFirst(x: Drone, y: Drone, d: nat, e: nat, n: nat)
    requires OwnInv(x, d, n) && OwnInv(y, e, n) && d < n && e < n && d != e && Room(x.node, Addr(e))
    requires PairInv(x, y, d, e) && Outgoing(y, d) && x.inbox != [] && x.inbox[0].msg.src == Addr(e)
    requires Conversed(x, e, 0, 0) && x.inbox[0].msg.seqNo == 1 && Known(y, x.inbox[0].msg.seqNo, d) == 0
    ensures Conversed(ProcessedNext(x, e, Known(y, x.inbox[0].msg.seqNo, d)), e, 1, 0)
  {
    hide PairInv, OwnInv, Outgoing, Process, ProcessFor, Rl, Seqs, StaysClean, Room, Table, Woven, Pairs, Distinct;
    OwnDistinct(x, d, n);
    CleanNow(x, y, d, e, n, 0);
  }

  // ---------------------------------------------------------------- speaking and hearing as steps of the system

  /** What generating and sending one message does to the drone that speaks. */
  ghost predicate Spoke(s: System, d: nat, x': Drone, now: nat)
    requires Shaped(s) && d < |s|
  {
    var x := s[d];
    && x'.sent == x.sent + [Generate(x.node)] && x'.pending.None? && x'.clock == now
    && x'.origin == x.origin + [OriginNow(s, d)] && x'.node.history == x.node.history + [Stamp(|x.sent| + 1, now)]
    && x'.node.neighbours == x.node.neighbours && x'.node.initTofSum == x.node.initTofSum
    && x'.node.priority == x.node.priority && x'.inbox == x.inbox && x'.cursor == x.cursor && x'.heard == x.heard
    && x'.acked == x.acked && x'.clean == x.clean
  }

  lemma Speaks(s: System, d: nat, now: nat) returns (s1: System, s2: System)
    requires Inv(s) && Shaped(s) && d < |s| && s[d].pending.None? && now > s[d].clock
    ensures Enabled(s, GenerateStep(d)) && s1 == Next(s, GenerateStep(d))
    ensures Shaped(s1) && |s1| == |s| && Enabled(s1, TransmitStep(d, now)) && s2 == Next(s1, TransmitStep(d, now))
    ensures Inv(s2) && Shaped(s2) && s2 == s[d := s2[d]] && Spoke(s, d, s2[d], now)
  {
    hide Inv, Generate, OriginNow;
    s1 := Next(s, GenerateStep(d));
    StepKeepsInv(s, GenerateStep(d));
    s2 := Next(s1, TransmitStep(d, now));
    StepKeepsInv(s1, TransmitStep(d, now));
    NextNumber(s, d);
  }

  lemma NextNumber(s: System, d: nat)
    requires Inv(s) && d < |s| && s[d].pending.None?
    ensures s[d].node.nextSeq == |s[d].sent| + 1 == |s[d].origin| + 1
  {
    hide PairInv, Outgoing, Numbered, MessageOk, SoundNode, Distinct;
    assert OwnInv(s[d], d, |s|);
  }

  /** What hearing and processing the next message of drone d does to drone e. */
  ghost predicate HeardNext(x: Drone, x': Drone, d: nat, now: nat)
    requires d < |x.cursor| && d < |x.heard| && d < |x'.heard|
  {
    var heard: map<nat, nat> := x.heard[d][x.cursor[d] + 1 := now];
    && x'.sent == x.sent && x'.pending == x.pending && x'.clock == now && x'.origin == x.origin && x'.inbox == []
    && x'.node.history == x.node.history && x'.cursor == x.cursor[d := x.cursor[d] + 1]
    && x'.heard == x.heard[d := heard]
    && |x'.acked| == |x.acked| && forall f :: 0 <= f < |x.acked| && f != d ==> x'.acked[f] == x.acked[f]
  }

  lemma Hears(s: System, e: nat, d: nat, now: nat) returns (s1: System, s2: System)
    requires Inv(s) && Shaped(s) && d < |s| && e < |s| && d != e
    requires s[e].inbox == [] && s[e].cursor[d] < |s[d].sent| && now > s[e].clock
    ensures Enabled(s, DeliverStep(e, d, now)) && s1 == Next(s, DeliverStep(e, d, now))
    ensures Inv(s1) && Shaped(s1) && |s1| == |s| && Enabled(s1, ProcessStep(e)) && s2 == Next(s1, ProcessStep(e))
    ensures var m := s[d].sent[s[e].cursor[d]];
            && m.src == Addr(d) && m.seqNo == s[e].cursor[d] + 1
            && s1 == s[e := Delivered(s[e], d, m, now)] && s1[e].inbox == [Inbound(m, now)]
            && s2 == s[e := ProcessedNext(s1[e], d, Known(s[d], m.seqNo, e))]
    ensures Inv(s2) && Shaped(s2) && HeardNext(s[e], s2[e], d, now)
    ensures forall f: nat :: f != d ==> Table(s2[e].node, Addr(f)) == Table(s[e].node, Addr(f))
  {
    hide Inv, Delivered, ProcessedNext, Table, HeardNext, Known;
    s1 := Arrives(s, e, d, now);
    StepKeepsInv(s, DeliverStep(e, d, now));
    s2 := Next(s1, ProcessStep(e));
    StepKeepsInv(s1, ProcessStep(e));
    OwnOf(s1, e);
    Handles(s[e], s1[e], d, s[d].sent[s[e].cursor[d]], now, Known(s[d], s[d].sent[s[e].cursor[d]].seqNo, e), e, |s|);
  }

  /** The next message of drone d has arrived at drone e, whose queue was empty. */
  ghost predicate Arrived(s: System, s1: System, e: nat, d: nat, now: nat)
    requires Shaped(s) && d < |s| && e < |s| && s[e].cursor[d] < |s[d].sent|
  {
    var m := s[d].sent[s[e].cursor[d]];
    && |s1| == |s| && s1 == s[e := Delivered(s[e], d, m, now)] && s1[e].inbox == [Inbound(m, now)]
    && m.src == Addr(d) && m.seqNo == s[e].cursor[d] + 1
  }

  lemma Arrives(s: System, e: nat, d: nat, now: nat) returns (s1: System)
    requires Inv(s) && Shaped(s) && d < |s| && e < |s| && d != e
    requires s[e].inbox == [] && s[e].cursor[d] < |s[d].sent| && now > s[e].clock
    ensures Arrived(s, s1, e, d, now)
    ensures Enabled(s, DeliverStep(e, d, now)) && s1 == Next(s, DeliverStep(e, d, now))
    ensures Shaped(s1) && Enabled(s1, ProcessStep(e)) && SenderOf(s1[e]) == d && s1[d] == s[d]
  {
    hide Inv;
    OwnOf(s, d);
    SentMessage(s[d], d, |s|, s[e].cursor[d]);
    s1 := Next(s, DeliverStep(e, d, now));
  }

  lemma Handles(x: Drone, x1: Drone, d: nat, m: Message, now: nat, known: nat, e: nat, n: nat)
    requires d < |x.cursor| && d < |x.heard| && x.inbox == [] && m.src == Addr(d) && m.seqNo == x.cursor[d] + 1
    requires x1 == Delivered(x, d, m, now) && OwnInv(x1, e, n) && d < n
    ensures x1.inbox == [Inbound(m, now)] && d < |x1.acked| && d < |x1.clean|
    ensures d < |ProcessedNext(x1, d, known).heard| && HeardNext(x, ProcessedNext(x1, d, known), d, now)
    ensures forall f: nat :: f != d ==> Table(ProcessedNext(x1, d, known).node, Addr(f)) == Table(x.node, Addr(f))
  {
    hide OwnInv, Process, Table, Distinct, StaysClean, Room, UnitTo;
    OwnDistinct(x1, e, n);
    TableAfterProcess(x1.node, x1.inbox[0], 0);
    forall f: nat | f != d
      ensures Table(ProcessedNext(x1, d, known).node, Addr(f)) == Table(x.node, Addr(f))
    {
      TableAfterProcess(x1.node, x1.inbox[0], Addr(f));
    }
  }

  /** A drone with a single neighbour reports to it in the first unit. */
  lemma OnlyReport(n: Node, address: nat)
    requires |n.neighbours| == 1 && n.neighbours[0].address == address
    ensures UnitTo(Generate(n).units, address) != NULL_INDEX
  {
    assert n.priority[0] == 0;
    assert UnitFor(n, 0).dest == address;
    assert Generate(n).units[0].dest == address;
  }

  lemma ConversedSame(x: Drone, x': Drone, e: nat, c: nat, q: nat)
    requires Conversed(x, e, c, q) && x'.node.neighbours == x.node.neighbours && x'.acked == x.acked
    ensures Conversed(x', e, c, q)
  {
    hide Rl, Seqs, Woven, Pairs;
    RlOf(x, x');
  }

  lemma DeliveredKeeps(x: Drone, e: nat, m: Message, now: nat)
    requires e < |x.cursor| && e < |x.heard|
    ensures var x' := Delivered(x, e, m, now);
            && x'.node == x.node && x'.acked == x.acked && x'.clean == x.clean && x'.sent == x.sent
            && x'.origin == x.origin && x'.pending == x.pending && |x'.heard| == |x.heard|
  {
  }

  lemma AllPairsStored(x: Drone, d: nat, e: nat, n: nat)
    requires OwnInv(x, d, n) && Pairs(Buf(x, e)) >= MAX_INITIAL_CALCULATION
    ensures !Initializing(Buf(x, e))
  {
    hide Table, Sound, SoundNode;
    OwnDistinct(x, d, n);
    SoundTable(x.node, Addr(e));
    SoundIsPhased(Buf(x, e));
  }
}
